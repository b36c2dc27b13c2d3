/**
  The SQL query prettifier of pkg/db/prettier: it turns a query template and
  its positional arguments into one readable log line, by substituting a
  rendering of each argument for its numbered placeholder and then folding
  the text onto a single line.
 */
module Prettier {
  import opened Wrappers
  import opened GoStrings
  import opened GoStrconv

  /** Placeholder prefix of the numbered-dollar style, `$1`, `$2`, ... */
  const PlaceholderDollar: string := "$"
  /** Placeholder prefix of the question-mark style, `?1`, `?2`, ... */
  const PlaceholderQuestion: string := "?"

  newtype byte = b: int | 0 <= b < 256

  /**
    A bound argument, as `Pretty`'s type switch sees it: a string, a byte
    slice, an integer, or any other value, carried as the text `%v` prints
    for it.
   */
  datatype Arg = Str(s: string) | Bytes(b: seq<byte>) | Int(i: int) | Other(repr: string)

  /** `string(v)` for a byte slice, each byte taken as the character with that code. */
  function BytesToString(b: seq<byte>): (r: string)
    ensures |r| == |b| && forall i :: 0 <= i < |b| ==> r[i] as int == b[i] as int
  {
    seq(|b|, i requires 0 <= i < |b| => b[i] as int as char)
  }

  /**
    The text an argument is rendered as: `%q` for strings and byte slices,
    `%v` otherwise; `RenderReadsBack` proves that each rendering reads back
    as the value it renders.
   */
  function Render(a: Arg): string {
    match a
    case Str(s) => Quote(s)
    case Bytes(b) => Quote(BytesToString(b))
    case Int(i) => Itoa(i)
    case Other(repr) => repr
  }

  /**
    The placeholder of the argument at 1-based position `k`: the prefix, then
    `k` in decimal (`TokenPrefix`, `TokenReadsBack`).
   */
  function Token(placeholder: string, k: nat): string {
    placeholder + Itoa(k)
  }

  /** What follows the prefix in a token reads back as the argument's position. */
  lemma TokenReadsBack(placeholder: string, k: nat)
    ensures Atoi(Token(placeholder, k)[|placeholder|..]) == Some(k)
  {
    ItoaRoundTrip(k);
    assert Token(placeholder, k)[|placeholder|..] == Itoa(k);
  }

  /** The query after the first `k` substitutions, each applied to the result of the one before. */
  function Substituted(query: string, placeholder: string, args: seq<Arg>, k: nat): string
    requires k <= |args|
  {
    if k == 0 then query
    else ReplaceAll(Substituted(query, placeholder, args, k - 1), Token(placeholder, k), Render(args[k - 1]))
  }

  /** Deleting tabs, turning newlines into spaces and trimming the ends. */
  function Clean(s: string): string {
    TrimSpace(ReplaceAll(ReplaceAll(s, "\t", ""), "\n", " "))
  }

  /** What `Pretty` returns. */
  function PrettyQuery(query: string, placeholder: string, args: seq<Arg>): string {
    Clean(Substituted(query, placeholder, args, |args|))
  }

  predicate SingleLine(s: string) {
    forall i :: 0 <= i < |s| ==> s[i] != '\t' && s[i] != '\n'
  }

  /** A single line stays one when put after text without tabs or newlines. */
  lemma SingleLineAppend(a: string, b: string)
    requires '\t' !in a && '\n' !in a && SingleLine(b)
    ensures SingleLine(a + b)
  {
    forall i | 0 <= i < |a + b| ensures (a + b)[i] != '\t' && (a + b)[i] != '\n' {
      if i >= |a| {
        assert (a + b)[i] == b[i - |a|];
      } else {
        assert (a + b)[i] == a[i];
      }
    }
  }

  /**
    `Pretty`: substitutes every argument in turn, then cleans the text. The
    result is a single line without surrounding whitespace.
   */
  method Pretty(query: string, placeholder: string, args: seq<Arg>) returns (r: string)
    ensures r == PrettyQuery(query, placeholder, args)
    ensures SingleLine(r) && Trimmed(r)
  {
    var q := query;
    for i := 0 to |args|
      invariant q == Substituted(query, placeholder, args, i)
    {
      var value := Render(args[i]);
      q := ReplaceAll(q, Token(placeholder, i + 1), value);
    }
    q := ReplaceAll(q, "\t", "");
    q := ReplaceAll(q, "\n", " ");
    r := TrimSpace(q);
    CleanShape(Substituted(query, placeholder, args, |args|));
  }

  /** The clean-up leaves neither tabs nor newlines, and no whitespace at either end. */
  lemma CleanShape(s: string)
    ensures SingleLine(Clean(s)) && Trimmed(Clean(s))
  {
    var noTabs := ReplaceAll(s, "\t", "");
    var joined := ReplaceAll(noTabs, "\n", " ");
    ReplaceCharRemoves(s, '\t', "");
    ReplaceCharRemoves(noTabs, '\n', " ");
    ReplaceAllKeepsAbsent(noTabs, "\n", " ", '\t');
    TrimSpaceKeepsAbsent(joined, '\t');
    TrimSpaceKeepsAbsent(joined, '\n');
  }

  /** The output holds no tab and no newline, and has no whitespace at either end. */
  lemma PrettyShape(query: string, placeholder: string, args: seq<Arg>)
    ensures SingleLine(PrettyQuery(query, placeholder, args)) && Trimmed(PrettyQuery(query, placeholder, args))
  {
    CleanShape(Substituted(query, placeholder, args, |args|));
  }

  /** Cleaning text that is already one trimmed line changes nothing. */
  lemma CleanOfSingleLine(s: string)
    requires '\t' !in s && '\n' !in s && Trimmed(s)
    ensures Clean(s) == s
  {
    AbsentCharDoesNotOccur(s, '\t');
    ReplaceAllAbsent(s, "\t", "");
    AbsentCharDoesNotOccur(s, '\n');
    ReplaceAllAbsent(s, "\n", " ");
    TrimSpaceOfTrimmed(s);
  }

  /** The clean-up is idempotent. */
  lemma CleanIdempotent(s: string)
    ensures Clean(Clean(s)) == Clean(s)
  {
    CleanShape(s);
    var c := Clean(s);
    assert '\t' !in c && '\n' !in c by {
      forall i | 0 <= i < |c| ensures c[i] != '\t' && c[i] != '\n' {
      }
    }
    CleanOfSingleLine(c);
  }

  /** Prettifying the output again, without arguments, gives it back unchanged. */
  lemma PrettyIdempotent(query: string, placeholder: string, args: seq<Arg>)
    ensures PrettyQuery(PrettyQuery(query, placeholder, args), placeholder, []) == PrettyQuery(query, placeholder, args)
  {
    CleanIdempotent(Substituted(query, placeholder, args, |args|));
  }

  /** Without arguments only the clean-up runs. */
  lemma PrettyWithoutArguments(query: string, placeholder: string)
    ensures PrettyQuery(query, placeholder, []) == TrimSpace(ReplaceAll(ReplaceAll(query, "\t", ""), "\n", " "))
  {
  }

  /** Every rendering reads back as the value it renders: `Unquote` for `%q`, `Atoi` for integers. */
  lemma RenderReadsBack(a: Arg)
    ensures a.Str? ==> Unquote(Render(a)) == Some(a.s)
    ensures a.Bytes? ==> Unquote(Render(a)) == Some(BytesToString(a.b))
    ensures a.Int? ==> Atoi(Render(a)) == Some(a.i)
    ensures a.Other? ==> Render(a) == a.repr
  {
    match a
    case Str(s) => QuoteRoundTrip(s);
    case Bytes(b) => QuoteRoundTrip(BytesToString(b));
    case Int(i) => ItoaRoundTrip(i);
    case Other(_) =>
  }

  /** A string argument is rendered as a quoted literal that reads back as the string. */
  lemma StringRendersQuoted(s: string)
    ensures var r := Render(Str(s)); |r| >= 2 && r[0] == '"' && r[|r| - 1] == '"'
    ensures Unquote(Render(Str(s))) == Some(s)
  {
    QuoteRoundTrip(s);
  }

  /** A byte slice is rendered exactly as the string with the same characters. */
  lemma BytesRenderAsString(b: seq<byte>, s: string)
    requires |s| == |b| && forall i :: 0 <= i < |b| ==> s[i] as int == b[i] as int
    ensures Render(Bytes(b)) == Render(Str(s))
  {
    assert BytesToString(b) == s;
  }

  /** A token is its placeholder followed by at least one more character. */
  lemma TokenPrefix(placeholder: string, k: nat)
    ensures |Token(placeholder, k)| > |placeholder| && Token(placeholder, k)[..|placeholder|] == placeholder
  {
  }

  /** A token begins with the first character of its placeholder. */
  lemma TokenHead(placeholder: string, k: nat)
    requires |placeholder| > 0
    ensures |Token(placeholder, k)| > 0 && Token(placeholder, k)[0] == placeholder[0]
  {
  }

  /**
    Step `i` of the substitution cuts the running query at every
    non-overlapping occurrence of the token `placeholder + (i + 1)` and
    puts the argument's rendering in each cut; the pieces between the cuts
    hold no occurrence of the token.
   */
  lemma SubstitutionStep(query: string, placeholder: string, args: seq<Arg>, i: nat)
    requires i < |args|
    ensures var before, token := Substituted(query, placeholder, args, i), Token(placeholder, i + 1);
      var pieces := Split(before, token);
      && Join(pieces, token) == before
      && (forall k :: 0 <= k < |pieces| ==> !Occurs(pieces[k], token))
      && Substituted(query, placeholder, args, i + 1) == Join(pieces, Render(args[i]))
  {
    TokenPrefix(placeholder, i + 1);
    ReplaceAllBySplit(Substituted(query, placeholder, args, i), Token(placeholder, i + 1), Render(args[i]));
  }

  /** A step whose token does not occur in the running query leaves it unchanged. */
  lemma StepWithoutTokenIsIdentity(query: string, placeholder: string, args: seq<Arg>, i: nat)
    requires i < |args|
    requires !Occurs(Substituted(query, placeholder, args, i), Token(placeholder, i + 1))
    ensures Substituted(query, placeholder, args, i + 1) == Substituted(query, placeholder, args, i)
  {
    ReplaceAllAbsent(Substituted(query, placeholder, args, i), Token(placeholder, i + 1), Render(args[i]));
  }

  /** A query without the placeholder's first character is not changed by any substitution. */
  lemma SubstitutedWithoutPlaceholder(query: string, placeholder: string, args: seq<Arg>, k: nat)
    requires k <= |args| && |placeholder| > 0 && placeholder[0] !in query
    ensures Substituted(query, placeholder, args, k) == query
  {
    forall j | 0 < j <= k
      ensures ReplaceAll(query, Token(placeholder, j), Render(args[j - 1])) == query
    {
      TokenHead(placeholder, j);
      ReplaceAllUntouched(query, Token(placeholder, j), Render(args[j - 1]));
    }
    SubstitutedFixed(query, placeholder, args, k);
  }

  /** A query that each of the first `k` steps leaves alone survives all of them. */
  lemma {:induction false} SubstitutedFixed(query: string, placeholder: string, args: seq<Arg>, k: nat)
    requires k <= |args|
    requires forall j :: 0 < j <= k ==> ReplaceAll(query, Token(placeholder, j), Render(args[j - 1])) == query
    ensures Substituted(query, placeholder, args, k) == query
  {
    if k > 0 {
      SubstitutedFixed(query, placeholder, args, k - 1);
    }
  }

  /** Such a query is only cleaned up, whatever the arguments. */
  lemma PrettyWithoutPlaceholder(query: string, placeholder: string, args: seq<Arg>)
    requires |placeholder| > 0 && placeholder[0] !in query
    ensures PrettyQuery(query, placeholder, args) == Clean(query)
  {
    SubstitutedWithoutPlaceholder(query, placeholder, args, |args|);
  }

  /** Step `k` depends only on the query before it and on the `k`-th argument. */
  lemma StepCongruence(query: string, placeholder: string, args: seq<Arg>, others: seq<Arg>, k: nat, before: string)
    requires 0 < k <= |args| && k <= |others| && args[k - 1] == others[k - 1]
    requires Substituted(query, placeholder, args, k - 1) == before
    requires Substituted(query, placeholder, others, k - 1) == before
    ensures Substituted(query, placeholder, args, k) == Substituted(query, placeholder, others, k)
  {
  }

  /** The first substitutions depend only on the first arguments. */
  lemma {:induction false} SubstitutedPrefix(query: string, placeholder: string, args: seq<Arg>, more: seq<Arg>, k: nat)
    requires k <= |args|
    ensures Substituted(query, placeholder, args + more, k) == Substituted(query, placeholder, args, k)
  {
    if k > 0 {
      SubstitutedPrefix(query, placeholder, args, more, k - 1);
      var before := Substituted(query, placeholder, args, k - 1);
      assert (args + more)[k - 1] == args[k - 1];
      StepCongruence(query, placeholder, args + more, args, k, before);
    }
  }

  /**
    An extra argument whose placeholder does not occur in the substituted
    query has no effect on the output.
   */
  lemma ExtraArgumentIgnored(query: string, placeholder: string, args: seq<Arg>, extra: Arg)
    requires !Occurs(Substituted(query, placeholder, args, |args|), Token(placeholder, |args| + 1))
    ensures PrettyQuery(query, placeholder, args + [extra]) == PrettyQuery(query, placeholder, args)
  {
    var longer := args + [extra];
    SubstitutedPrefix(query, placeholder, args, [extra], |args|);
    StepWithoutTokenIsIdentity(query, placeholder, longer, |args|);
  }

  /**
    The token of argument `a` is a prefix of the tokens of arguments
    `10a` to `10a + 9`: the `$1` substitution also rewrites the start of
    `$10` ... `$19`.
   */
  lemma TokenIsPrefixOfLongerToken(placeholder: string, a: nat, d: nat)
    requires a >= 1 && d < 10
    ensures StartsWith(Token(placeholder, 10 * a + d), Token(placeholder, a))
  {
    DecimalAppendDigit(a, d);
    var t := Token(placeholder, 10 * a + d);
    assert t == Token(placeholder, a) + [Digits[d]];
  }

  // The concrete examples below take their texts as parameters fixed by
  // `requires x == "..."` rather than writing the literals in the `ensures`:
  // that way the verifier reasons about the pieces separately instead of
  // unfolding the string functions over one long literal.

  /** `$10` with one argument 7: the `$1` step turns it into `70`. */
  lemma DollarTenIsRewrittenByFirstArgument(query: string, args: seq<Arg>)
    requires query == "x = $10" && args == [Int(7)]
    ensures PrettyQuery(query, PlaceholderDollar, args) == "x = 70"
  {
    assert Token(PlaceholderDollar, 1) == "$1";
    assert Render(args[0]) == "7";
    assert query == "x = " + "$1" + "0";
    ReplaceAllOnce("x = ", "0", "$1", "7");
    assert Substituted(query, PlaceholderDollar, args, 1) == "x = 70";
    CleanOfSingleLine("x = 70");
  }

  /** A rendered value holding `$2` is itself rewritten by the second step. */
  lemma InsertedValueIsRewritten(query: string, args: seq<Arg>)
    requires query == "$1" && args == [Other("$2"), Int(5)]
    ensures PrettyQuery(query, PlaceholderDollar, args) == "5"
  {
    assert Token(PlaceholderDollar, 1) == "$1";
    assert Token(PlaceholderDollar, 2) == "$2";
    assert Render(args[0]) == "$2";
    assert Render(args[1]) == "5";
    assert query == "$1" + [];
    ReplaceAllMatch([], "$1", "$2");
    assert "$2" == "$2" + [];
    ReplaceAllMatch([], "$2", "5");
    assert Substituted(query, PlaceholderDollar, args, 1) == "$2";
    assert Substituted(query, PlaceholderDollar, args, 2) == "5";
    CleanOfSingleLine("5");
  }

  /** In the question-mark style the tokens are `?1`, `?2`, ...; a bare `?` stays as it is. */
  lemma BareQuestionMarkIsKept(query: string, args: seq<Arg>, head: string)
    requires head == "id = " && query == head + "?" && args == [Int(1)]
    ensures PrettyQuery(query, PlaceholderQuestion, args) == query
  {
    BareQuestionMarkText(query, head);
    assert Token(PlaceholderQuestion, 1) == "?1" && Render(args[0]) == "1";
    assert Substituted(query, PlaceholderQuestion, args, 1) == ReplaceAll(query, "?1", "1");
    BareQuestionMarkStep(head);
    CleanOfSingleLine(query);
  }

  lemma BareQuestionMarkText(query: string, head: string)
    requires head == "id = " && query == head + "?"
    ensures '?' !in head && '\t' !in query && '\n' !in query && Trimmed(query)
  {
  }

  lemma BareQuestionMarkStep(head: string)
    requires '?' !in head
    ensures ReplaceAll(head + "?", "?1", "1") == head + "?"
  {
    ReplaceAllSkip(head, "?", "?1", "1");
    assert ReplaceAll("?", "?1", "1") == "?";
  }

  /** The clean-up, traced through its two replacements. */
  lemma CleanThrough(s: string, noTabs: string, joined: string)
    requires ReplaceAll(s, "\t", "") == noTabs && ReplaceAll(noTabs, "\n", " ") == joined
    requires Trimmed(joined)
    ensures Clean(s) == joined
  {
    TrimSpaceOfTrimmed(joined);
  }

  /**
    Tabs vanish and newlines become spaces:
    `"SELECT 1\n\tFROM dual"` becomes `SELECT 1 FROM dual`.
   */
  lemma MultiLineQueryIsJoined(query: string, first: string, second: string)
    requires first == "SELECT 1" && second == "FROM dual"
    requires query == first + "\n" + "\t" + second
    ensures PrettyQuery(query, PlaceholderDollar, []) == first + " " + second
  {
    assert query == (first + "\n") + "\t" + second;
    ReplaceAllOnce(first + "\n", second, "\t", "");
    var noTabs := first + "\n" + second;
    assert ReplaceAll(query, "\t", "") == noTabs;
    ReplaceAllOnce(first, second, "\n", " ");
    CleanThrough(query, noTabs, first + " " + second);
  }

  /** The `$1` step of the worked example. */
  lemma WorkedExampleFirstStep(head: string, middle: string)
    requires '$' !in head && '$' !in middle
    ensures ReplaceAll(head + "$1" + middle + "$2", "$1", "42") == head + "42" + middle + "$2"
  {
    var two := "$2";
    assert two[..2][1] == '2' && "$1"[1] == '1';
    assert !StartsWith(two, "$1") && two[1..] == "2";
    ReplaceAllUntouched("2", "$1", "42");
    assert ReplaceAll(two, "$1", "42") == two;
    assert head + "$1" + middle + "$2" == head + ("$1" + (middle + "$2"));
    ReplaceAllSkip(head, "$1" + (middle + "$2"), "$1", "42");
    ReplaceAllMatch(middle + "$2", "$1", "42");
    ReplaceAllSkip(middle, "$2", "$1", "42");
    assert head + ("42" + (middle + "$2")) == head + "42" + middle + "$2";
  }

  /** The `$2` step of the worked example. */
  lemma WorkedExampleSecondStep(head: string, middle: string)
    requires '$' !in head && '$' !in middle
    ensures ReplaceAll(head + "42" + middle + "$2", "$2", "\"Alice\"") == head + "42" + middle + "\"Alice\""
  {
    var a := head + "42" + middle;
    assert '$' !in a;
    ReplaceAllOnce(a, [], "$2", "\"Alice\"");
    assert a + "$2" + [] == a + "$2";
    assert a + "\"Alice\"" + [] == a + "\"Alice\"";
  }

  /** The clean-up of the worked example has nothing to do. */
  lemma WorkedExampleClean(head: string, middle: string)
    requires '\t' !in head && '\n' !in head && '\t' !in middle && '\n' !in middle
    requires |head| > 0 && !IsSpace(head[0])
    ensures var r := head + "42" + middle + "\"Alice\""; Clean(r) == r
  {
    var r := head + "42" + middle + "\"Alice\"";
    assert '\t' !in r && '\n' !in r;
    assert r[0] == head[0] && r[|r| - 1] == '"';
    CleanOfSingleLine(r);
  }

  /** Two arguments give two substitution steps. */
  lemma SubstitutedTwice(query: string, placeholder: string, args: seq<Arg>)
    requires |args| == 2
    ensures Substituted(query, placeholder, args, 2)
         == ReplaceAll(ReplaceAll(query, Token(placeholder, 1), Render(args[0])), Token(placeholder, 2), Render(args[1]))
  {
    assert Substituted(query, placeholder, args, 1) == ReplaceAll(query, Token(placeholder, 1), Render(args[0]));
  }

  /** The fixed text of the worked example holds no `$` ... */
  lemma WorkedExampleHasNoOtherTokens(head: string, middle: string)
    requires head == "SELECT * FROM users WHERE id = " && middle == " AND name = "
    ensures '$' !in head && '$' !in middle
  {
  }

  /** ... and is one line that starts with a letter. */
  lemma WorkedExampleIsOneLine(head: string, middle: string)
    requires head == "SELECT * FROM users WHERE id = " && middle == " AND name = "
    ensures '\t' !in head && '\t' !in middle
    ensures '\n' !in head && '\n' !in middle
    ensures |head| > 0 && !IsSpace(head[0])
  {
    assert '\t' !in head && '\t' !in middle;
  }

  lemma WorkedExampleArguments(args: seq<Arg>)
    requires args == [Int(42), Str("Alice")]
    ensures |args| == 2 && Render(args[0]) == "42" && Render(args[1]) == "\"Alice\""
  {
    QuotePlain(args[1].s);
  }

  /**
    The worked example: an integer bound to `$1` and a string bound to
    `$2` of `SELECT * FROM users WHERE id = $1 AND name = $2` give
    `SELECT * FROM users WHERE id = 42 AND name = "Alice"`.
   */
  lemma WorkedExample(query: string, args: seq<Arg>, head: string, middle: string)
    requires head == "SELECT * FROM users WHERE id = " && middle == " AND name = "
    requires query == head + "$1" + middle + "$2"
    requires args == [Int(42), Str("Alice")]
    ensures PrettyQuery(query, PlaceholderDollar, args) == head + "42" + middle + "\"Alice\""
  {
    WorkedExampleHasNoOtherTokens(head, middle);
    WorkedExampleIsOneLine(head, middle);
    WorkedExampleArguments(args);
    SubstitutedTwice(query, PlaceholderDollar, args);
    assert Token(PlaceholderDollar, 1) == "$1" && Token(PlaceholderDollar, 2) == "$2";
    WorkedExampleFirstStep(head, middle);
    WorkedExampleSecondStep(head, middle);
    WorkedExampleClean(head, middle);
  }
}

/**
  The number and string rendering the query prettifier relies on:
  `strconv.Itoa` (which is also what `%v` prints for an integer) and
  `%q`, that is `strconv.Quote`. Each comes with its inverse (`Atoi`,
  `Unquote`) as the partner its round trip is proved against.
 */
module GoStrconv {
  import opened Wrappers

  const Digits := "0123456789"
  const LowerHex := "0123456789abcdef"

  predicate IsDigit(c: char) {
    '0' <= c <= '9'
  }

  predicate AllDigits(s: string) {
    forall k :: 0 <= k < |s| ==> IsDigit(s[k])
  }

  /** Decimal digits of `n`, most significant first, without leading zeros. */
  function NatToDecimal(n: nat): (r: string)
    ensures |r| > 0
    ensures AllDigits(r)
    ensures r[0] == '0' ==> n == 0
    decreases n
  {
    if n < 10 then [Digits[n]] else NatToDecimal(n / 10) + [Digits[n % 10]]
  }

  /** `strconv.Itoa`: a minus sign for negative numbers, then the digits. */
  function Itoa(i: int): string {
    if i < 0 then "-" + NatToDecimal(-i) else NatToDecimal(i)
  }

  /** The value of a string of decimal digits. */
  function DecimalValue(s: string): nat
    requires AllDigits(s)
  {
    if |s| == 0 then 0
    else
      var last := s[|s| - 1];
      assert IsDigit(last);
      DecimalValue(s[..|s| - 1]) * 10 + (last as int - '0' as int)
  }

  /** `strconv.Atoi` on the strings `Itoa` can produce: an optional minus sign and at least one digit. */
  function Atoi(s: string): Option<int> {
    if |s| > 0 && s[0] == '-' then
      if |s| > 1 && AllDigits(s[1..]) then Some(0 - DecimalValue(s[1..]) as int) else None
    else if |s| > 0 && AllDigits(s) then Some(DecimalValue(s))
    else None
  }

  lemma {:induction false} DecimalRoundTrip(n: nat)
    ensures DecimalValue(NatToDecimal(n)) == n
    decreases n
  {
    var r := NatToDecimal(n);
    if n >= 10 {
      DecimalRoundTrip(n / 10);
      assert r[..|r| - 1] == NatToDecimal(n / 10);
    }
  }

  /** Reading back what `Itoa` writes gives the number again. */
  lemma ItoaRoundTrip(i: int)
    ensures Atoi(Itoa(i)) == Some(i)
  {
    if i < 0 {
      var d := NatToDecimal(-i);
      assert Itoa(i) == "-" + d;
      DecimalRoundTrip(-i);
      AtoiNegative(d);
      assert DecimalValue(d) == -i;
    } else {
      var d := NatToDecimal(i);
      assert Itoa(i) == d;
      DecimalRoundTrip(i);
      AtoiDigits(d);
    }
  }

  lemma AtoiDigits(d: string)
    requires |d| > 0 && AllDigits(d)
    ensures Atoi(d) == Some(DecimalValue(d))
  {
    assert IsDigit(d[0]);
  }

  lemma AtoiNegative(d: string)
    requires |d| > 0 && AllDigits(d)
    ensures Atoi("-" + d) == Some(0 - DecimalValue(d) as int)
  {
    var s := "-" + d;
    assert s[0] == '-' && s[1..] == d;
  }

  /** Appending a digit to a positive number appends it to the decimal text. */
  lemma DecimalAppendDigit(a: nat, d: nat)
    requires a >= 1 && d < 10
    ensures NatToDecimal(10 * a + d) == NatToDecimal(a) + [Digits[d]]
  {
    assert (10 * a + d) / 10 == a;
    assert (10 * a + d) % 10 == d;
  }

  function Pow16(w: nat): nat {
    if w == 0 then 1 else 16 * Pow16(w - 1)
  }

  /** The lowest `w` hexadecimal digits of `n`, lower case, most significant first. */
  function Hex(n: nat, w: nat): (r: string)
    ensures |r| == w
    ensures AllLowerHex(r)
  {
    if w == 0 then [] else Hex(n / 16, w - 1) + [LowerHex[n % 16]]
  }

  function HexValue(c: char): nat {
    if '0' <= c <= '9' then c as int - '0' as int
    else if 'a' <= c <= 'f' then c as int - 'a' as int + 10
    else if 'A' <= c <= 'F' then c as int - 'A' as int + 10
    else 0
  }

  predicate IsLowerHex(c: char) {
    ('0' <= c <= '9') || ('a' <= c <= 'f')
  }

  predicate AllLowerHex(s: string) {
    forall k :: 0 <= k < |s| ==> IsLowerHex(s[k])
  }

  predicate IsHex(c: char) {
    ('0' <= c <= '9') || ('a' <= c <= 'f') || ('A' <= c <= 'F')
  }

  function ParseHex(s: string): (v: nat)
    ensures v < Pow16(|s|)
  {
    if |s| == 0 then 0 else ParseHex(s[..|s| - 1]) * 16 + HexValue(s[|s| - 1])
  }

  lemma {:induction false} HexRoundTrip(n: nat, w: nat)
    requires n < Pow16(w)
    ensures ParseHex(Hex(n, w)) == n
  {
    if w > 0 {
      var q, d := n / 16, n % 16;
      assert n == 16 * q + d;
      QuotientBound(n, Pow16(w - 1));
      HexRoundTrip(q, w - 1);
      var r := Hex(n, w);
      assert r == Hex(q, w - 1) + [LowerHex[d]];
      assert r[..w - 1] == Hex(q, w - 1);
      assert HexValue(LowerHex[d]) == d;
      assert ParseHex(r) == ParseHex(Hex(q, w - 1)) * 16 + d;
    }
  }

  lemma QuotientBound(n: nat, p: nat)
    requires n < 16 * p
    ensures n / 16 < p
  {
  }

  /**
    `strconv.IsPrint` as the model knows it: exactly Go's answer on ASCII and
    Latin-1 and on every space character; every other character is taken as
    printable.
   */
  predicate IsPrint(c: char) {
    if c < '\U{0080}' then ' ' <= c < '\U{007F}'
    else c > '\U{00A0}' && c != '\U{00AD}' && !UnicodeSpace(c)
  }

  /** The space characters outside Latin-1 (Unicode category Z). */
  predicate UnicodeSpace(c: char) {
    || c == '\U{1680}' || ('\U{2000}' <= c <= '\U{200A}')
    || c == '\U{2028}' || c == '\U{2029}' || c == '\U{202F}' || c == '\U{205F}' || c == '\U{3000}'
  }

  /**
    How `%q` writes one character: the quote and the backslash escaped,
    printable characters as they are, the C escapes `\a \b \f \n \r \t \v`,
    other ASCII controls as `\x` and two hex digits, anything else as `\u`
    and four hex digits.
   */
  function EscapeRune(c: char): (r: string)
    ensures |r| > 0 && forall i :: 0 <= i < |r| ==> IsPrint(r[i])
  {
    if c == '"' || c == '\\' then ['\\', c]
    else if IsPrint(c) then [c]
    else if c == '\U{0007}' then "\\a"
    else if c == '\U{0008}' then "\\b"
    else if c == '\U{000C}' then "\\f"
    else if c == '\n' then "\\n"
    else if c == '\r' then "\\r"
    else if c == '\t' then "\\t"
    else if c == '\U{000B}' then "\\v"
    else if c < ' ' || c == '\U{007F}' then "\\x" + Hex(c as nat, 2)
    else "\\u" + Hex(c as nat, 4)
  }

  /** The escaped characters of `s`, without the surrounding quotes. */
  function EscapeBody(s: string): (r: string)
    ensures forall i :: 0 <= i < |r| ==> IsPrint(r[i])
  {
    if |s| == 0 then [] else EscapeRune(s[0]) + EscapeBody(s[1..])
  }

  /**
    `fmt.Sprintf("%q", s)`: a double-quoted Go string literal made only of
    printable characters, so it never holds a tab, a newline or any space
    other than ' '.
   */
  function Quote(s: string): (r: string)
    ensures |r| >= 2 && r[0] == '"' && r[|r| - 1] == '"'
    ensures forall i :: 0 <= i < |r| ==> IsPrint(r[i])
  {
    "\"" + EscapeBody(s) + "\""
  }

  /** A character `%q` writes as it is. */
  predicate Plain(c: char) {
    IsPrint(c) && c != '"' && c != '\\'
  }

  /** Text made of plain characters is not changed by escaping ... */
  lemma {:induction false} EscapeBodyPlain(s: string)
    requires forall i :: 0 <= i < |s| ==> Plain(s[i])
    ensures EscapeBody(s) == s
    decreases |s|
  {
    if |s| > 0 {
      assert Plain(s[0]);
      EscapeBodyPlain(s[1..]);
      assert [s[0]] + s[1..] == s;
    }
  }

  /** ... so quoting it only adds the two double quotes. */
  lemma QuotePlain(s: string)
    requires forall i :: 0 <= i < |s| ==> Plain(s[i])
    ensures Quote(s) == "\"" + s + "\""
  {
    EscapeBodyPlain(s);
  }

  function Prepend(c: char, r: Option<string>): Option<string> {
    match r
    case Some(t) => Some([c] + t)
    case None => None
  }

  /** The character a one-letter escape `\e` stands for, if `e` is one. */
  function SimpleEscape(e: char): Option<char> {
    if e == '"' || e == '\\' then Some(e)
    else if e == 'a' then Some('\U{0007}')
    else if e == 'b' then Some('\U{0008}')
    else if e == 'f' then Some('\U{000C}')
    else if e == 'n' then Some('\n')
    else if e == 'r' then Some('\r')
    else if e == 't' then Some('\t')
    else if e == 'v' then Some('\U{000B}')
    else None
  }

  /** Reads the body of a quoted literal back into the characters it stands for. */
  function UnescapeBody(t: string): Option<string>
    decreases |t|
  {
    if |t| == 0 then Some([])
    else if t[0] == '"' then None
    else if t[0] != '\\' then Prepend(t[0], UnescapeBody(t[1..]))
    else if |t| < 2 then None
    else if SimpleEscape(t[1]).Some? then Prepend(SimpleEscape(t[1]).value, UnescapeBody(t[2..]))
    else if t[1] == 'x' && |t| >= 4 && IsHex(t[2]) && IsHex(t[3]) then
      Prepend(ParseHex(t[2..4]) as char, UnescapeBody(t[4..]))
    else if t[1] == 'u' && |t| >= 6 && IsHex(t[2]) && IsHex(t[3]) && IsHex(t[4]) && IsHex(t[5]) then
      var v := ParseHex(t[2..6]);
      if 0xD800 <= v < 0xE000 then None else Prepend(v as char, UnescapeBody(t[6..]))
    else None
  }

  /** Reads back what `Quote` writes: a double-quoted body with the escapes
    `EscapeRune` produces. The partner of `QuoteRoundTrip`, not the whole of
    `strconv.Unquote`. */
  function Unquote(q: string): Option<string> {
    if |q| >= 2 && q[0] == '"' && q[|q| - 1] == '"' then UnescapeBody(q[1..|q| - 1]) else None
  }

  /** Decoding an escaped character followed by more text yields the character first. */
  lemma UnescapeRune(c: char, t: string)
    ensures UnescapeBody(EscapeRune(c) + t) == Prepend(c, UnescapeBody(t))
  {
    if c == '"' || c == '\\' {
      UnescapeQuoted(c, t);
    } else if IsPrint(c) {
      UnescapePlain(c, t);
    } else if SimpleEscapeOf(c).Some? {
      UnescapeSimple(c, t);
    } else if c < ' ' || c == '\U{007F}' {
      UnescapeHex2(c, t);
    } else {
      UnescapeHex4(c, t);
    }
  }

  /** The letter of the one-letter escape `%q` uses for `c`, if any. */
  function SimpleEscapeOf(c: char): (r: Option<char>)
    ensures r.Some? ==> SimpleEscape(r.value) == Some(c)
  {
    if c == '\U{0007}' then Some('a')
    else if c == '\U{0008}' then Some('b')
    else if c == '\U{000C}' then Some('f')
    else if c == '\n' then Some('n')
    else if c == '\r' then Some('r')
    else if c == '\t' then Some('t')
    else if c == '\U{000B}' then Some('v')
    else None
  }

  lemma UnescapeQuoted(c: char, t: string)
    requires c == '"' || c == '\\'
    ensures UnescapeBody(EscapeRune(c) + t) == Prepend(c, UnescapeBody(t))
  {
    var u := EscapeRune(c) + t;
    assert u[0] == '\\' && u[1] == c && u[2..] == t;
  }

  lemma UnescapePlain(c: char, t: string)
    requires c != '"' && c != '\\' && IsPrint(c)
    ensures UnescapeBody(EscapeRune(c) + t) == Prepend(c, UnescapeBody(t))
  {
    var u := EscapeRune(c) + t;
    assert u[0] == c && u[1..] == t;
  }

  lemma UnescapeSimple(c: char, t: string)
    requires !IsPrint(c) && SimpleEscapeOf(c).Some?
    ensures UnescapeBody(EscapeRune(c) + t) == Prepend(c, UnescapeBody(t))
  {
    var e := SimpleEscapeOf(c).value;
    assert EscapeRune(c) == ['\\', e];
    var u := EscapeRune(c) + t;
    assert u[0] == '\\' && u[1] == e && u[2..] == t;
  }

  lemma UnescapeHex2(c: char, t: string)
    requires !IsPrint(c) && SimpleEscapeOf(c).None? && (c < ' ' || c == '\U{007F}')
    ensures UnescapeBody(EscapeRune(c) + t) == Prepend(c, UnescapeBody(t))
  {
    var h := Hex(c as nat, 2);
    assert EscapeRune(c) == "\\x" + h;
    assert Pow16(2) == 256;
    HexRoundTrip(c as nat, 2);
    UnescapeX(h, t);
  }

  lemma UnescapeX(h: string, t: string)
    requires |h| == 2 && IsHex(h[0]) && IsHex(h[1])
    ensures UnescapeBody("\\x" + h + t) == Prepend(ParseHex(h) as char, UnescapeBody(t))
  {
    assert Pow16(2) == 256;
    var u := "\\x" + h + t;
    assert u[2..4] == h && u[4..] == t;
  }

  lemma UnescapeHex4(c: char, t: string)
    requires !IsPrint(c) && SimpleEscapeOf(c).None? && !(c < ' ' || c == '\U{007F}') && c != '"' && c != '\\'
    ensures UnescapeBody(EscapeRune(c) + t) == Prepend(c, UnescapeBody(t))
  {
    var h := Hex(c as nat, 4);
    assert EscapeRune(c) == "\\u" + h;
    assert c as nat < 0x10000;
    assert Pow16(4) == 0x10000;
    HexRoundTrip(c as nat, 4);
    UnescapeU(h, t);
  }

  lemma UnescapeU(h: string, t: string)
    requires |h| == 4 && IsHex(h[0]) && IsHex(h[1]) && IsHex(h[2]) && IsHex(h[3])
    requires !(0xD800 <= ParseHex(h) < 0xE000)
    ensures ParseHex(h) < 0x110000
    ensures UnescapeBody("\\u" + h + t) == Prepend(ParseHex(h) as char, UnescapeBody(t))
  {
    assert Pow16(4) == 0x10000;
    var u := "\\u" + h + t;
    assert u[2..6] == h && u[6..] == t;
  }

  lemma {:induction false} UnescapeBodyRoundTrip(s: string)
    ensures UnescapeBody(EscapeBody(s)) == Some(s)
  {
    if |s| > 0 {
      UnescapeRune(s[0], EscapeBody(s[1..]));
      UnescapeBodyRoundTrip(s[1..]);
      assert s == [s[0]] + s[1..];
    }
  }

  /** Unquoting what `%q` writes gives the original string back. */
  lemma QuoteRoundTrip(s: string)
    ensures Unquote(Quote(s)) == Some(s)
  {
    var q := Quote(s);
    assert q[1..|q| - 1] == EscapeBody(s);
    UnescapeBodyRoundTrip(s);
  }
}

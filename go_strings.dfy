/**
  The parts of Go's `strings` package that the query prettifier relies on:
  `strings.Replace(s, old, new, -1)` / `strings.ReplaceAll`, `strings.TrimSpace`,
  and, as an independent reference for replacement, `strings.Split` and
  `strings.Join`.
 */
module GoStrings {

  /** `s` begins with `p` (strings.HasPrefix). */
  predicate StartsWith(s: string, p: string) {
    |p| <= |s| && s[..|p|] == p
  }

  /** `p` occurs somewhere in `s` (strings.Contains). */
  predicate Occurs(s: string, p: string) {
    exists i :: 0 <= i <= |s| && StartsWith(s[i..], p)
  }

  /**
    `strings.Replace(s, pat, rep, -1)`: scanning from the left, every
    non-overlapping occurrence of `pat` is replaced by `rep`. An empty `pat`
    matches at the start and after every character.
   */
  function ReplaceAll(s: string, pat: string, rep: string): string
    decreases |s|
  {
    if |pat| == 0 then Interleave(s, rep)
    else if |s| == 0 then []
    else if StartsWith(s, pat) then rep + ReplaceAll(s[|pat|..], pat, rep)
    else [s[0]] + ReplaceAll(s[1..], pat, rep)
  }

  /** `rep` before, between and after the characters of `s`. */
  function Interleave(s: string, rep: string): string {
    if |s| == 0 then rep else rep + [s[0]] + Interleave(s[1..], rep)
  }

  /** `strings.Split(s, sep)` for a non-empty separator. */
  function Split(s: string, sep: string): (parts: seq<string>)
    requires |sep| > 0
    ensures |parts| > 0
    decreases |s|
  {
    if |s| == 0 then [[]]
    else if StartsWith(s, sep) then [[]] + Split(s[|sep|..], sep)
    else
      var rest := Split(s[1..], sep);
      [[s[0]] + rest[0]] + rest[1..]
  }

  /** `strings.Join(parts, sep)`. */
  function Join(parts: seq<string>, sep: string): string {
    if |parts| == 0 then []
    else if |parts| == 1 then parts[0]
    else parts[0] + sep + Join(parts[1..], sep)
  }

  /** Replacing a pattern by itself changes nothing. */
  lemma {:induction false} ReplaceAllSelf(s: string, pat: string)
    ensures ReplaceAll(s, pat, pat) == s
    decreases |s|
  {
    if |pat| == 0 {
      InterleaveEmpty(s);
    } else if |s| == 0 {
    } else if StartsWith(s, pat) {
      ReplaceAllSelf(s[|pat|..], pat);
      assert s == pat + s[|pat|..];
    } else {
      ReplaceAllSelf(s[1..], pat);
      assert s == [s[0]] + s[1..];
    }
  }

  lemma {:induction false} InterleaveEmpty(s: string)
    ensures Interleave(s, []) == s
    decreases |s|
  {
    if |s| > 0 {
      InterleaveEmpty(s[1..]);
      assert s == [s[0]] + s[1..];
    }
  }

  lemma JoinPrependFirst(c: string, parts: seq<string>, sep: string)
    requires |parts| > 0
    ensures Join([c + parts[0]] + parts[1..], sep) == c + Join(parts, sep)
  {
    var ps := [c + parts[0]] + parts[1..];
    assert ps[1..] == parts[1..];
  }

  /**
    Replacement is splitting at the pattern and joining with the
    replacement: the reference definition of "replace every occurrence".
   */
  lemma {:induction false} ReplaceAllIsSplitJoin(s: string, pat: string, rep: string)
    requires |pat| > 0
    ensures ReplaceAll(s, pat, rep) == Join(Split(s, pat), rep)
    decreases |s|
  {
    if |s| == 0 {
    } else if StartsWith(s, pat) {
      ReplaceAllIsSplitJoin(s[|pat|..], pat, rep);
      var rest := Split(s[|pat|..], pat);
      assert Split(s, pat) == [[]] + rest;
      assert ([[]] + rest)[1..] == rest;
      if |rest| == 1 {
        assert Join([[]] + rest, rep) == [] + rep + rest[0];
      }
    } else {
      ReplaceAllIsSplitJoin(s[1..], pat, rep);
      var rest := Split(s[1..], pat);
      JoinPrependFirst([s[0]], rest, rep);
    }
  }

  /** Joining the pieces of a split with the separator gives the string back. */
  lemma SplitJoinRoundTrip(s: string, sep: string)
    requires |sep| > 0
    ensures Join(Split(s, sep), sep) == s
  {
    ReplaceAllIsSplitJoin(s, sep, sep);
    ReplaceAllSelf(s, sep);
  }

  /** The first piece of a split is a prefix of the string. */
  lemma SplitFirstIsPrefix(s: string, sep: string)
    requires |sep| > 0
    ensures StartsWith(s, Split(s, sep)[0])
  {
    var parts := Split(s, sep);
    SplitJoinRoundTrip(s, sep);
    if |parts| > 1 {
      assert s == parts[0] + (sep + Join(parts[1..], sep));
    }
  }

  /** The pieces of a split contain no occurrence of the separator. */
  lemma {:induction false} SplitPiecesFree(s: string, sep: string)
    requires |sep| > 0
    ensures forall k :: 0 <= k < |Split(s, sep)| ==> !Occurs(Split(s, sep)[k], sep)
    decreases |s|
  {
    if |s| == 0 {
      assert !StartsWith([], sep);
    } else if StartsWith(s, sep) {
      SplitPiecesFree(s[|sep|..], sep);
      var rest := Split(s[|sep|..], sep);
      assert !StartsWith([], sep);
      forall k | 0 <= k < |Split(s, sep)| ensures !Occurs(Split(s, sep)[k], sep) {
        if k > 0 {
          assert Split(s, sep)[k] == rest[k - 1];
        }
      }
    } else {
      SplitPiecesFree(s[1..], sep);
      var rest := Split(s[1..], sep);
      var first := [s[0]] + rest[0];
      SplitFirstIsPrefix(s[1..], sep);
      forall i | 0 <= i <= |first| ensures !StartsWith(first[i..], sep) {
        if i == 0 {
          assert first[0..] == first;
          assert s[..|first|] == first;
          if |sep| <= |first| {
            assert s[..|sep|] == first[..|sep|];
          }
        } else {
          assert first[i..] == rest[0][i - 1..];
        }
      }
      forall k | 0 <= k < |Split(s, sep)| ensures !Occurs(Split(s, sep)[k], sep) {
        if k > 0 {
          assert Split(s, sep)[k] == rest[k];
        }
      }
    }
  }

  /**
    Replacement cuts the string at every non-overlapping occurrence of the
    pattern and puts the replacement in each cut; the pieces hold no
    occurrence of the pattern.
   */
  lemma ReplaceAllBySplit(s: string, pat: string, rep: string)
    requires |pat| > 0
    ensures var pieces := Split(s, pat);
      && Join(pieces, pat) == s
      && (forall k :: 0 <= k < |pieces| ==> !Occurs(pieces[k], pat))
      && ReplaceAll(s, pat, rep) == Join(pieces, rep)
  {
    SplitJoinRoundTrip(s, pat);
    SplitPiecesFree(s, pat);
    ReplaceAllIsSplitJoin(s, pat, rep);
  }

  /** Where the pattern does not occur, replacement leaves the string as it is. */
  lemma {:induction false} ReplaceAllAbsent(s: string, pat: string, rep: string)
    requires |pat| > 0 && !Occurs(s, pat)
    ensures ReplaceAll(s, pat, rep) == s
    decreases |s|
  {
    if |s| > 0 {
      assert s[0..] == s;
      assert !StartsWith(s, pat);
      forall i | 0 <= i <= |s[1..]| ensures !StartsWith(s[1..][i..], pat) {
        assert s[1..][i..] == s[i + 1..];
      }
      ReplaceAllAbsent(s[1..], pat, rep);
      assert s == [s[0]] + s[1..];
    }
  }

  /** Text holding no first character of the pattern passes through replacement untouched. */
  lemma {:induction false} ReplaceAllSkip(a: string, b: string, pat: string, rep: string)
    requires |pat| > 0 && pat[0] !in a
    ensures ReplaceAll(a + b, pat, rep) == a + ReplaceAll(b, pat, rep)
    decreases |a|
  {
    if |a| > 0 {
      var s := a + b;
      assert s[0] == a[0] && s[1..] == a[1..] + b;
      assert a[0] != pat[0];
      if |pat| <= |s| {
        assert s[..|pat|][0] != pat[0];
      }
      assert !StartsWith(s, pat);
      assert ReplaceAll(s, pat, rep) == [a[0]] + ReplaceAll(a[1..] + b, pat, rep);
      assert pat[0] !in a[1..];
      ReplaceAllSkip(a[1..], b, pat, rep);
      var tail := ReplaceAll(b, pat, rep);
      assert [a[0]] + (a[1..] + tail) == a + tail;
    } else {
      assert a + b == b;
    }
  }

  /** A match at the front is replaced and scanning resumes after it. */
  lemma ReplaceAllMatch(b: string, pat: string, rep: string)
    requires |pat| > 0
    ensures ReplaceAll(pat + b, pat, rep) == rep + ReplaceAll(b, pat, rep)
  {
    var s := pat + b;
    assert s[..|pat|] == pat && s[|pat|..] == b;
  }

  /** Text holding no first character of the pattern is left as it is. */
  lemma ReplaceAllUntouched(a: string, pat: string, rep: string)
    requires |pat| > 0 && pat[0] !in a
    ensures ReplaceAll(a, pat, rep) == a
  {
    ReplaceAllSkip(a, [], pat, rep);
    assert a + [] == a;
  }

  /** A single occurrence, with no first character of the pattern around it, is replaced. */
  lemma ReplaceAllOnce(a: string, b: string, pat: string, rep: string)
    requires |pat| > 0 && pat[0] !in a && pat[0] !in b
    ensures ReplaceAll(a + pat + b, pat, rep) == a + rep + b
  {
    assert a + pat + b == a + (pat + b);
    ReplaceAllSkip(a, pat + b, pat, rep);
    ReplaceAllMatch(b, pat, rep);
    ReplaceAllUntouched(b, pat, rep);
    assert a + (rep + b) == a + rep + b;
  }

  /** A character that is absent from a string does not occur in it as a one-character pattern. */
  lemma AbsentCharDoesNotOccur(s: string, c: char)
    requires c !in s
    ensures !Occurs(s, [c])
  {
    forall i | 0 <= i <= |s| ensures !StartsWith(s[i..], [c]) {
      if i < |s| {
        assert s[i..][..1] == [s[i]];
      }
    }
  }

  /** Replacement introduces no character that neither the string nor the replacement has. */
  lemma {:induction false} ReplaceAllKeepsAbsent(s: string, pat: string, rep: string, c: char)
    requires c !in s && c !in rep
    ensures c !in ReplaceAll(s, pat, rep)
    decreases |s|
  {
    if |pat| == 0 {
      InterleaveKeepsAbsent(s, rep, c);
    } else if |s| == 0 {
    } else if StartsWith(s, pat) {
      assert c !in s[|pat|..];
      ReplaceAllKeepsAbsent(s[|pat|..], pat, rep, c);
    } else {
      assert c !in s[1..];
      ReplaceAllKeepsAbsent(s[1..], pat, rep, c);
    }
  }

  lemma {:induction false} InterleaveKeepsAbsent(s: string, rep: string, c: char)
    requires c !in s && c !in rep
    ensures c !in Interleave(s, rep)
    decreases |s|
  {
    if |s| > 0 {
      assert c !in s[1..];
      InterleaveKeepsAbsent(s[1..], rep, c);
    }
  }

  /** Replacing a character by text without it removes the character entirely. */
  lemma {:induction false} ReplaceCharRemoves(s: string, c: char, rep: string)
    requires c !in rep
    ensures c !in ReplaceAll(s, [c], rep)
    decreases |s|
  {
    if |s| > 0 {
      if StartsWith(s, [c]) {
        ReplaceCharRemoves(s[1..], c, rep);
        assert s[|[c]|..] == s[1..];
      } else {
        assert s[..1] == [s[0]];
        ReplaceCharRemoves(s[1..], c, rep);
      }
    }
  }

  /**
    `unicode.IsSpace`: the characters `strings.TrimSpace` removes. Go's set is
    the Latin-1 spaces plus the characters with the Unicode White_Space
    property, listed here in full.
   */
  predicate IsSpace(c: char) {
    || c == ' ' || c == '\t' || c == '\n' || c == '\r'
    || c == '\U{000B}' || c == '\U{000C}' || c == '\U{0085}' || c == '\U{00A0}'
    || c == '\U{1680}' || ('\U{2000}' <= c <= '\U{200A}')
    || c == '\U{2028}' || c == '\U{2029}' || c == '\U{202F}' || c == '\U{205F}'
    || c == '\U{3000}'
  }

  predicate AllSpace(s: string) {
    forall i :: 0 <= i < |s| ==> IsSpace(s[i])
  }

  /** Neither end of `s` is a space character. */
  predicate Trimmed(s: string) {
    |s| > 0 ==> !IsSpace(s[0]) && !IsSpace(s[|s| - 1])
  }

  /** Drops the leading space characters. */
  function TrimLeft(s: string): (r: string)
    ensures |r| <= |s| && r == s[|s| - |r|..]
    ensures AllSpace(s[..|s| - |r|])
    ensures |r| > 0 ==> !IsSpace(r[0])
    decreases |s|
  {
    if |s| > 0 && IsSpace(s[0]) then TrimLeft(s[1..]) else s
  }

  /** Drops the trailing space characters. */
  function TrimRight(s: string): (r: string)
    ensures |r| <= |s| && r == s[..|r|]
    ensures AllSpace(s[|r|..])
    ensures |r| > 0 ==> !IsSpace(r[|r| - 1])
    decreases |s|
  {
    if |s| > 0 && IsSpace(s[|s| - 1]) then TrimRight(s[..|s| - 1]) else s
  }

  /** `strings.TrimSpace`: the result neither begins nor ends with a space character. */
  function TrimSpace(s: string): (r: string)
    ensures Trimmed(r) && |r| <= |s|
  {
    TrimRight(TrimLeft(s))
  }

  /** `s` is the trimmed text surrounded by runs of space characters. */
  lemma TrimSpaceSurrounded(s: string)
    ensures var r := TrimSpace(s);
      exists i :: 0 <= i <= |s| - |r| && s[i..i + |r|] == r && AllSpace(s[..i]) && AllSpace(s[i + |r|..])
  {
    Window(s, TrimLeft(s), TrimSpace(s));
  }

  /** Cutting a suffix `l` of `s` down to its prefix `r` cuts `s` at the same places. */
  lemma Window(s: string, l: string, r: string)
    requires |l| <= |s| && l == s[|s| - |l|..] && AllSpace(s[..|s| - |l|])
    requires |r| <= |l| && r == l[..|r|] && AllSpace(l[|r|..])
    ensures exists i :: 0 <= i <= |s| - |r| && s[i..i + |r|] == r && AllSpace(s[..i]) && AllSpace(s[i + |r|..])
  {
    var i := |s| - |l|;
    assert s[i..i + |r|] == r && s[i + |r|..] == l[|r|..];
  }

  /** Trimming a string that is already trimmed changes nothing. */
  lemma TrimSpaceOfTrimmed(s: string)
    requires Trimmed(s)
    ensures TrimSpace(s) == s
  {
  }

  /** Trimming keeps only characters of the input. */
  lemma TrimSpaceKeepsAbsent(s: string, c: char)
    requires c !in s
    ensures c !in TrimSpace(s)
  {
    var l := TrimLeft(s);
    var r := TrimRight(l);
    forall k | 0 <= k < |r| ensures r[k] != c {
      assert r[k] == l[k];
      assert l[k] == s[|s| - |l| + k];
    }
  }
}

/**
 * The JavaScript string operations the dashboard relies on: `trim`, `indexOf`/`includes`,
 * `split` with a non-empty separator, `replace` with a string pattern (first occurrence only),
 * and ASCII case mapping. Strings are sequences of characters.
 */
module JsText {

  /** The ECMAScript WhiteSpace and LineTerminator code points: exactly what `trim` strips. */
  predicate IsWhitespace(c: char) {
    || c == '\t' || c == '\n' || c == '\U{000B}' || c == '\U{000C}' || c == '\r' || c == ' '
    || c == '\U{00A0}' || c == '\U{1680}' || ('\U{2000}' <= c <= '\U{200A}')
    || c == '\U{2028}' || c == '\U{2029}' || c == '\U{202F}' || c == '\U{205F}'
    || c == '\U{3000}' || c == '\U{FEFF}'
  }

  /** Every character of `s` is whitespace (this includes the empty string). */
  predicate IsBlank(s: string) {
    forall i | 0 <= i < |s| :: IsWhitespace(s[i])
  }

  /** `s` with its leading whitespace removed. */
  function TrimStart(s: string): (r: string)
    ensures |r| <= |s| && r == s[|s| - |r|..]
    ensures r != [] ==> !IsWhitespace(r[0])
    ensures forall i | 0 <= i < |s| - |r| :: IsWhitespace(s[i])
  {
    if s != [] && IsWhitespace(s[0]) then TrimStart(s[1..]) else s
  }

  /** `s` with its trailing whitespace removed. */
  function TrimEnd(s: string): (r: string)
    ensures |r| <= |s| && r == s[..|r|]
    ensures r != [] ==> !IsWhitespace(r[|r| - 1])
    ensures forall i | |r| <= i < |s| :: IsWhitespace(s[i])
  {
    if s != [] && IsWhitespace(s[|s| - 1]) then TrimEnd(s[..|s| - 1]) else s
  }

  /** `String.prototype.trim`: the result is empty exactly when `s` is blank, and otherwise
      neither starts nor ends with whitespace. */
  function Trim(s: string): (r: string)
    ensures |r| <= |s|
    ensures r == [] <==> IsBlank(s)
    ensures r != [] ==> !IsWhitespace(r[0]) && !IsWhitespace(r[|r| - 1])
  {
    TrimFacts(s);
    TrimEnd(TrimStart(s))
  }

  lemma TrimFacts(s: string)
    ensures var r := TrimEnd(TrimStart(s));
      && |r| <= |s|
      && (r == [] <==> IsBlank(s))
      && (r != [] ==> !IsWhitespace(r[0]) && !IsWhitespace(r[|r| - 1]))
  {
    TrimBlank(s);
    TrimEdges(s);
  }

  lemma TrimBlank(s: string)
    ensures TrimEnd(TrimStart(s)) == [] <==> IsBlank(s)
  {
    var t := TrimStart(s);
    BlankSuffix(s, |s| - |t|);
    BlankPrefix(t, |TrimEnd(t)|);
  }

  lemma TrimEdges(s: string)
    ensures var r := TrimEnd(TrimStart(s));
      r != [] ==> !IsWhitespace(r[0]) && !IsWhitespace(r[|r| - 1])
  {
    var t := TrimStart(s);
    var r := TrimEnd(t);
    if r != [] {
      FirstOfPrefix(t, |r|);
    }
  }

  /** `r` is the slice of `s` starting at `a`, with only whitespace before and after it. */
  predicate StrippedAt(s: string, r: string, a: int) {
    && 0 <= a <= |s| - |r|
    && r == s[a..a + |r|]
    && (forall i | 0 <= i < a :: IsWhitespace(s[i]))
    && (forall i | a + |r| <= i < |s| :: IsWhitespace(s[i]))
  }

  /** `trim` removes exactly the whitespace at both ends: the result is the slice of `s` left
      between a run of leading and a run of trailing whitespace. */
  lemma TrimStrips(s: string)
    ensures exists a :: StrippedAt(s, Trim(s), a)
  {
    var t := TrimStart(s);
    StripBoth(s, t, TrimEnd(t));
    assert Trim(s) == TrimEnd(t);
    assert StrippedAt(s, Trim(s), |s| - |t|);
  }

  /** Cutting leading whitespace off `s`, giving `t`, and then trailing whitespace off `t`,
      giving `r`, leaves `r` as a slice of `s` between the two runs. */
  lemma StripBoth(s: string, t: string, r: string)
    requires |t| <= |s| && t == s[|s| - |t|..] && forall i | 0 <= i < |s| - |t| :: IsWhitespace(s[i])
    requires |r| <= |t| && r == t[..|r|] && forall i | |r| <= i < |t| :: IsWhitespace(t[i])
    ensures StrippedAt(s, r, |s| - |t|)
  {
    var a := |s| - |t|;
    assert r == s[a..a + |r|];
    forall i | a + |r| <= i < |s| ensures IsWhitespace(s[i]) {
      assert s[i] == t[i - a];
    }
  }

  /** A non-empty prefix starts where the whole sequence starts. */
  lemma FirstOfPrefix<T>(t: seq<T>, n: int)
    requires 0 < n <= |t|
    ensures t[..n][0] == t[0]
  {
  }

  /** A string whose first `n` characters are whitespace is blank exactly when the rest is. */
  lemma BlankSuffix(s: string, n: int)
    requires 0 <= n <= |s| && forall i | 0 <= i < n :: IsWhitespace(s[i])
    ensures IsBlank(s) <==> IsBlank(s[n..])
  {
    assert forall i | n <= i < |s| :: s[i] == s[n..][i - n];
  }

  /** A string whose characters from `n` on are whitespace is blank exactly when its first `n`
      characters are. */
  lemma BlankPrefix(s: string, n: int)
    requires 0 <= n <= |s| && forall i | n <= i < |s| :: IsWhitespace(s[i])
    ensures IsBlank(s) <==> IsBlank(s[..n])
  {
    assert forall i | 0 <= i < n :: s[i] == s[..n][i];
  }

  /** `t` occurs in `s` starting at index `i`. */
  predicate OccursAt(s: string, t: string, i: int) {
    0 <= i && i + |t| <= |s| && s[i..i + |t|] == t
  }

  /** `s.includes(t)`. */
  predicate Contains(s: string, t: string) {
    exists i | 0 <= i <= |s| :: OccursAt(s, t, i)
  }

  /** `s.indexOf(t, from)`: the first index at or after `from` where `t` occurs, or -1. */
  function IndexOfFrom(s: string, t: string, from: nat): (r: int)
    ensures r == -1 || from <= r
    ensures r >= 0 ==> OccursAt(s, t, r)
    ensures r >= 0 ==> forall j | from <= j < r :: !OccursAt(s, t, j)
    ensures r == -1 ==> forall j | from <= j :: !OccursAt(s, t, j)
    decreases |s| - from
  {
    if from + |t| > |s| then -1
    else if s[from..from + |t|] == t then from
    else IndexOfFrom(s, t, from + 1)
  }

  /** `s.indexOf(t)`. */
  function IndexOf(s: string, t: string): (r: int)
    ensures r >= 0 <==> Contains(s, t)
    ensures r >= 0 ==> OccursAt(s, t, r) && forall j | 0 <= j < r :: !OccursAt(s, t, j)
  {
    IndexOfFrom(s, t, 0)
  }

  /** The pieces of a split, glued back together with the separator. */
  function Join(parts: seq<string>, sep: string): string {
    if |parts| == 0 then ""
    else if |parts| == 1 then parts[0]
    else parts[0] + sep + Join(parts[1..], sep)
  }

  /** An occurrence inside a prefix of `s` is an occurrence in `s`. */
  lemma OccursInPrefix(s: string, t: string, i: int, j: int)
    requires 0 <= i <= |s| && OccursAt(s[..i], t, j)
    ensures OccursAt(s, t, j)
  {
    assert s[..i][j..j + |t|] == s[j..j + |t|];
  }

  /** `s.split(sep)` for a non-empty separator: the pieces between the occurrences of
      `sep`, found left to right. No piece contains `sep`; `SplitJoin` shows that joining
      them gives `s` back. */
  function Split(s: string, sep: string): (r: seq<string>)
    requires |sep| > 0
    ensures |r| >= 1
    decreases |s|
  {
    var i := IndexOf(s, sep);
    if i < 0 then [s]
    else [s[..i]] + Split(s[i + |sep|..], sep)
  }

  /** No piece of a split contains the separator, and there is more than one piece exactly
      when the text contains the separator. */
  lemma {:induction false} SplitPieces(s: string, sep: string)
    requires |sep| > 0
    ensures forall k | 0 <= k < |Split(s, sep)| :: !Contains(Split(s, sep)[k], sep)
    ensures |Split(s, sep)| == 1 <==> !Contains(s, sep)
    decreases |s|
  {
    var i := IndexOf(s, sep);
    if i >= 0 {
      var rest := Split(s[i + |sep|..], sep);
      SplitPieces(s[i + |sep|..], sep);
      PieceBeforeFirst(s, sep, i);
      PiecesStep(s[..i], rest, sep);
    }
  }

  /** Joining the pieces of a split with the separator gives the text back. */
  lemma {:induction false} SplitJoin(s: string, sep: string)
    requires |sep| > 0
    ensures Join(Split(s, sep), sep) == s
    decreases |s|
  {
    var i := IndexOf(s, sep);
    if i >= 0 {
      SplitJoin(s[i + |sep|..], sep);
      SplitStep(s, sep, i, Split(s[i + |sep|..], sep));
    }
  }

  /** One step of `Split`: the piece before the first occurrence, then the pieces of the rest. */
  lemma SplitStep(s: string, sep: string, i: int, rest: seq<string>)
    requires |sep| > 0 && 0 <= i && i + |sep| <= |s| && s[i..i + |sep|] == sep
    requires |rest| >= 1 && Join(rest, sep) == s[i + |sep|..]
    ensures Join([s[..i]] + rest, sep) == s
  {
    JoinCons(s[..i], rest, sep);
    AroundOccurrence(s, sep, i);
  }

  lemma JoinCons(x: string, rest: seq<string>, sep: string)
    requires |rest| >= 1
    ensures Join([x] + rest, sep) == x + sep + Join(rest, sep)
  {
    assert ([x] + rest)[1..] == rest;
  }

  lemma AroundOccurrence(s: string, sep: string, i: int)
    requires 0 <= i && i + |sep| <= |s| && s[i..i + |sep|] == sep
    ensures s[..i] + sep + s[i + |sep|..] == s
  {
  }

  /** The pieces after the first still contain no separator when a piece is put in front. */
  lemma PiecesStep(piece: string, rest: seq<string>, sep: string)
    requires !Contains(piece, sep)
    requires forall k | 0 <= k < |rest| :: !Contains(rest[k], sep)
    ensures forall k | 0 <= k < |rest| + 1 :: !Contains(([piece] + rest)[k], sep)
  {
    forall k | 0 <= k < |rest| + 1 ensures !Contains(([piece] + rest)[k], sep) {
      if k > 0 {
        assert ([piece] + rest)[k] == rest[k - 1];
      }
    }
  }

  /** The text before the first occurrence of `sep` does not contain `sep`. */
  lemma PieceBeforeFirst(s: string, sep: string, i: int)
    requires |sep| > 0 && i == IndexOf(s, sep) && i >= 0
    ensures !Contains(s[..i], sep)
  {
    forall j | OccursAt(s[..i], sep, j) ensures false {
      OccursInPrefix(s, sep, i, j);
    }
  }

  /** When the first character of `t` occurs nowhere else in `t` (so that an occurrence cannot
      straddle the end of `a`), and `a` does not contain `t`, the first occurrence of `t`
      in `a + t + b` is the one right after `a`. */
  lemma FirstOccurrenceAfter(a: string, t: string, b: string)
    requires |t| > 0 && !Contains(a, t)
    requires forall k | 1 <= k < |t| :: t[k] != t[0]
    ensures IndexOf(a + t + b, t) == |a|
  {
    var s := a + t + b;
    assert OccursAt(s, t, |a|) by {
      assert s[|a|..|a| + |t|] == t;
    }
    forall j | 0 <= j < |a| ensures !OccursAt(s, t, j) {
      if j + |t| <= |a| {
        assert s[j..j + |t|] == a[j..j + |t|];
        assert !OccursAt(a, t, j);
      } else if j + |t| <= |s| {
        var k := |a| - j;
        assert 1 <= k < |t|;
        assert s[j..j + |t|][k] == s[|a|] == t[0];
        assert t[k] != t[0];
      }
    }
  }

  /** Splitting `a + sep + b` gives back `[a, b]` when neither part contains the separator and
      the separator's first character does not recur in it. */
  lemma SplitPair(a: string, sep: string, b: string)
    requires |sep| > 0 && !Contains(a, sep) && !Contains(b, sep)
    requires forall k | 1 <= k < |sep| :: sep[k] != sep[0]
    ensures Split(a + sep + b, sep) == [a, b]
  {
    var s := a + sep + b;
    FirstOccurrenceAfter(a, sep, b);
    assert s[..|a|] == a;
    assert s[|a| + |sep|..] == b;
  }

  /** `s.replace(pat, rep)` with a string pattern: only the first occurrence is replaced. */
  function ReplaceFirst(s: string, pat: string, rep: string): (r: string)
    ensures !Contains(s, pat) ==> r == s
    ensures Contains(s, pat) ==>
      var i := IndexOf(s, pat); r == s[..i] + rep + s[i + |pat|..]
  {
    var i := IndexOf(s, pat);
    if i < 0 then s else s[..i] + rep + s[i + |pat|..]
  }

  /** `i` is where `t` first occurs in `s`. */
  predicate FirstAt(s: string, t: string, i: int) {
    OccursAt(s, t, i) && forall j | 0 <= j < i :: !OccursAt(s, t, j)
  }

  /** `replace` with a string pattern changes the first occurrence only: the text before it
      and after it is kept, and a text without the pattern is returned as it is. */
  lemma ReplaceSplices(s: string, pat: string, rep: string)
    ensures Contains(s, pat) <==> exists i :: FirstAt(s, pat, i)
    ensures forall i | FirstAt(s, pat, i) ::
      ReplaceFirst(s, pat, rep) == s[..i] + rep + s[i + |pat|..]
    ensures !Contains(s, pat) ==> ReplaceFirst(s, pat, rep) == s
  {
    var r := IndexOf(s, pat);
    if Contains(s, pat) {
      assert FirstAt(s, pat, r);
    }
    forall i | FirstAt(s, pat, i) ensures ReplaceFirst(s, pat, rep) == s[..i] + rep + s[i + |pat|..] {
      assert Contains(s, pat);
      assert !(i < r) && !(r < i);
    }
  }

  /** The ASCII upper-case letters mapped to lower case; every other character unchanged. */
  function LowerChar(c: char): char {
    if 'A' <= c <= 'Z' then (c as int - 'A' as int + 'a' as int) as char else c
  }

  /** The ASCII lower-case letters mapped to upper case; every other character unchanged. */
  function UpperChar(c: char): char {
    if 'a' <= c <= 'z' then (c as int - 'a' as int + 'A' as int) as char else c
  }

  /** `toLowerCase`, restricted to ASCII letters. */
  function ToLowerAscii(s: string): (r: string)
    ensures |r| == |s| && forall i | 0 <= i < |s| :: r[i] == LowerChar(s[i])
  {
    seq(|s|, i requires 0 <= i < |s| => LowerChar(s[i]))
  }

  /** `toUpperCase`, restricted to ASCII letters. */
  function ToUpperAscii(s: string): (r: string)
    ensures |r| == |s| && forall i | 0 <= i < |s| :: r[i] == UpperChar(s[i])
  {
    seq(|s|, i requires 0 <= i < |s| => UpperChar(s[i]))
  }
}

/** The ECMAScript string operations the decoder is built from (`trimStart`,
    `trim`, `startsWith`, `replace` with a string pattern and `split` on one
    character), over strings of Unicode scalar values. `IndexOf` is the
    search that `replace` and `split` are built on. */
module JsString {

  /** ECMAScript WhiteSpace and LineTerminator: what `trimStart` and `trim` drop. */
  predicate IsWhitespace(c: char) {
    c == '\t' || c == '\n' || c == '\U{000B}' || c == '\U{000C}' || c == '\r' || c == ' '
    || c == '\U{00A0}' || c == '\U{1680}' || ('\U{2000}' <= c <= '\U{200A}')
    || c == '\U{2028}' || c == '\U{2029}' || c == '\U{202F}' || c == '\U{205F}'
    || c == '\U{3000}' || c == '\U{FEFF}'
  }

  /** ECMAScript LineTerminator: where `^` and `$` match under the `m` flag. */
  predicate IsLineTerminator(c: char) {
    c == '\n' || c == '\r' || c == '\U{2028}' || c == '\U{2029}'
  }

  predicate AllWhitespace(s: string) {
    forall i :: 0 <= i < |s| ==> IsWhitespace(s[i])
  }

  /** `s.trimStart()`: drops the leading run of whitespace. */
  function TrimStart(s: string): (r: string)
    ensures |r| <= |s|
  {
    if s != [] && IsWhitespace(s[0]) then TrimStart(s[1..]) else s
  }

  /** `TrimStart` gives the longest suffix of `s` that does not start with whitespace. */
  lemma {:induction false} TrimStartSpec(s: string)
    ensures var r := TrimStart(s);
      |r| <= |s| && r == s[|s| - |r|..] && AllWhitespace(s[..|s| - |r|]) && (r == [] || !IsWhitespace(r[0]))
  {
    if s != [] && IsWhitespace(s[0]) {
      var r := TrimStart(s[1..]);
      TrimStartSpec(s[1..]);
      assert s[..|s| - |r|] == [s[0]] + s[1..][..|s[1..]| - |r|];
    }
  }

  /** The end-side half of `s.trim()`: drops the trailing run of whitespace. */
  function TrimEnd(s: string): (r: string)
    ensures |r| <= |s|
  {
    if s != [] && IsWhitespace(s[|s| - 1]) then TrimEnd(s[..|s| - 1]) else s
  }

  /** `TrimEnd` gives the longest prefix of `s` that does not end with whitespace. */
  lemma {:induction false} TrimEndSpec(s: string)
    ensures var r := TrimEnd(s);
      |r| <= |s| && r == s[..|r|] && AllWhitespace(s[|r|..]) && (r == [] || !IsWhitespace(r[|r| - 1]))
  {
    if s != [] && IsWhitespace(s[|s| - 1]) {
      var r := TrimEnd(s[..|s| - 1]);
      TrimEndSpec(s[..|s| - 1]);
      assert s[|r|..] == s[..|s| - 1][|r|..] + [s[|s| - 1]];
    }
  }

  /** `s.trim()`. */
  function Trim(s: string): string {
    TrimEnd(TrimStart(s))
  }

  predicate StartsWith(s: string, prefix: string) {
    |prefix| <= |s| && s[..|prefix|] == prefix
  }

  /** `pat` occurs in `s` starting at index `i`. */
  predicate OccursAt(s: string, pat: string, i: int) {
    0 <= i && i + |pat| <= |s| && s[i..i + |pat|] == pat
  }

  /** `s.indexOf(pat, from)` for `0 <= from`: the first occurrence at or after `from`, or -1. */
  function IndexFrom(s: string, pat: string, from: nat): (k: int)
    ensures k == -1 || (from <= k && OccursAt(s, pat, k))
    ensures forall j :: from <= j && (k == -1 || j < k) ==> !OccursAt(s, pat, j)
    decreases |s| - from
  {
    if from + |pat| > |s| then -1
    else if s[from..from + |pat|] == pat then from
    else IndexFrom(s, pat, from + 1)
  }

  /** `s.indexOf(pat)`. */
  function IndexOf(s: string, pat: string): int {
    IndexFrom(s, pat, 0)
  }

  /** `s.replace(pat, '')` with a string pattern: removes the first occurrence of `pat`, if any. */
  function ReplaceFirst(s: string, pat: string): (r: string)
    ensures (exists i :: OccursAt(s, pat, i)) ==> |r| == |s| - |pat|
    ensures (forall i :: !OccursAt(s, pat, i)) ==> r == s
  {
    var k := IndexOf(s, pat);
    if k < 0 then s else s[..k] + s[k + |pat|..]
  }

  /** `replace` removes the FIRST occurrence of `pat` and keeps everything
      before and after it. */
  lemma ReplaceFirstAt(s: string, pat: string, i: int)
    requires OccursAt(s, pat, i)
    requires forall j :: 0 <= j < i ==> !OccursAt(s, pat, j)
    ensures ReplaceFirst(s, pat) == s[..i] + s[i + |pat|..]
  {
    assert IndexOf(s, pat) == i;
  }

  /** No occurrence of the one-character pattern `[sep]` before `k` means no `sep` before `k`. */
  lemma NoSepBefore(s: string, sep: char, k: int)
    requires 0 <= k <= |s|
    requires forall j :: 0 <= j < k ==> !OccursAt(s, [sep], j)
    ensures sep !in s[..k]
  {
    forall j | 0 <= j < k ensures s[j] != sep {
      assert !OccursAt(s, [sep], j);
      assert s[j..j + 1] == [s[j]];
    }
  }

  /** What `indexOf` on a one-character pattern tells `split`: where the
      first separator is, or that there is none. */
  lemma SepIndex(s: string, sep: char)
    ensures var k := IndexOf(s, [sep]);
      (k < 0 ==> sep !in s) && (0 <= k ==> k < |s| && s[k] == sep && sep !in s[..k])
  {
    var k := IndexOf(s, [sep]);
    if k < 0 {
      NoSepBefore(s, sep, |s|);
      assert s[..|s|] == s;
    } else {
      NoSepBefore(s, sep, k);
      assert s[k..k + 1] == [sep];
    }
  }

  /** A first line without the separator in front of lines without it. */
  lemma ConsNoSep(h: string, rest: seq<string>, sep: char)
    requires sep !in h && forall i :: 0 <= i < |rest| ==> sep !in rest[i]
    ensures forall i :: 0 <= i < |[h] + rest| ==> sep !in ([h] + rest)[i]
  {
    forall i | 0 <= i < |[h] + rest| ensures sep !in ([h] + rest)[i] {
      if i > 0 {
        assert ([h] + rest)[i] == rest[i - 1];
      }
    }
  }

  /** `s.split(sep)` for a one-character separator. */
  function Split(s: string, sep: char): (lines: seq<string>)
    ensures |lines| > 0
    ensures forall i :: 0 <= i < |lines| ==> sep !in lines[i]
    decreases |s|
  {
    var k := IndexOf(s, [sep]);
    SepIndex(s, sep);
    if k < 0 then
      [s]
    else
      var rest := Split(s[k + 1..], sep);
      ConsNoSep(s[..k], rest, sep);
      [s[..k]] + rest
  }

  /** `lines.join(sep)`: the inverse of `Split`. */
  function Join(lines: seq<string>, sep: char): string {
    if |lines| == 0 then ""
    else if |lines| == 1 then lines[0]
    else lines[0] + [sep] + Join(lines[1..], sep)
  }

  /** Splitting on a character and joining back with it gives the original string. */
  lemma {:induction false} SplitJoin(s: string, sep: char)
    ensures Join(Split(s, sep), sep) == s
    decreases |s|
  {
    var k := IndexOf(s, [sep]);
    if k >= 0 {
      assert s[k..k + 1] == [sep];
      SplitJoin(s[k + 1..], sep);
      assert s == s[..k] + [sep] + s[k + 1..];
    }
  }

  /** Dropping leading whitespace by hand gives what `TrimStart` gives. */
  lemma {:induction false} TrimStartOf(w: string, t: string)
    requires AllWhitespace(w)
    requires t == [] || !IsWhitespace(t[0])
    ensures TrimStart(w + t) == t
    decreases |w|
  {
    if w != [] {
      assert (w + t)[1..] == w[1..] + t;
      TrimStartOf(w[1..], t);
    }
  }

  /** Leading whitespace does not change what `TrimStart` leaves. */
  lemma {:induction false} TrimStartSkips(w: string, s: string)
    requires AllWhitespace(w)
    ensures TrimStart(w + s) == TrimStart(s)
    decreases |w|
  {
    if w == [] {
      assert w + s == s;
    } else {
      assert (w + s)[0] == w[0];
      assert (w + s)[1..] == w[1..] + s;
      TrimStartSkips(w[1..], s);
    }
  }

  /** The two halves of a concatenation. */
  lemma ConcatParts(a: string, b: string)
    ensures (a + b)[..|a|] == a && (a + b)[|a|..] == b && StartsWith(a + b, a)
    ensures b != [] ==> (a + b)[|a|] == b[0]
  {
  }

  lemma {:induction false} TrimStartIdempotent(s: string)
    ensures TrimStart(TrimStart(s)) == TrimStart(s)
  {
    TrimStartSpec(s);
    TrimStartOf([], TrimStart(s));
  }

  /** `s.trim()` is empty exactly when `s` holds only whitespace. */
  lemma {:induction false} TrimEmptyIff(s: string)
    ensures Trim(s) == "" <==> AllWhitespace(s)
  {
    var t := TrimStart(s);
    TrimStartSpec(s);
    TrimEndSpec(t);
    if !AllWhitespace(s) {
      var i :| 0 <= i < |s| && !IsWhitespace(s[i]);
      assert i >= |s| - |t|;
      assert t[i - (|s| - |t|)] == s[i];
      assert !AllWhitespace(t);
    }
  }

  /** A pattern found at index 0 is the one `replace` removes. */
  lemma {:induction false} ReplaceFirstPrefix(s: string, pat: string)
    requires StartsWith(s, pat)
    ensures ReplaceFirst(s, pat) == s[|pat|..]
  {
    assert OccursAt(s, pat, 0);
  }
}

/**
 * Python string primitives that the writer relies on: `str.replace`, `str.split(':')[0]`
 * and string repetition `s * n`, written out so that their behaviour is explicit.
 */
module Strings {

  /** `p` is a prefix of `s`. */
  predicate StartsWith(s: string, p: string) {
    |p| <= |s| && s[..|p|] == p
  }

  /**
   * Python's `s.replace(pat, rep)` for a non-empty `pat`: a left-to-right scan that
   * replaces every non-overlapping occurrence of `pat` by `rep`.
   */
  function Replace(s: string, pat: string, rep: string): (r: string)
    requires pat != []
    ensures |rep| == |pat| ==> |r| == |s|
    ensures |rep| <= |pat| ==> |r| <= |s|
    ensures |rep| >= |pat| ==> |r| >= |s|
    decreases |s|
  {
    if |s| < |pat| then s
    else if s[..|pat|] == pat then rep + Replace(s[|pat|..], pat, rep)
    else [s[0]] + Replace(s[1..], pat, rep)
  }

  /** For a one-character pattern, replacing in a concatenation replaces in each part. */
  lemma {:induction false} ReplaceCharAppend(a: string, b: string, c: char, rep: string)
    ensures Replace(a + b, [c], rep) == Replace(a, [c], rep) + Replace(b, [c], rep)
    decreases |a|
  {
    if a == [] {
      assert a + b == b;
    } else {
      assert (a + b)[..1] == a[..1] == [a[0]];
      assert (a + b)[1..] == a[1..] + b;
      ReplaceCharAppend(a[1..], b, c, rep);
    }
  }

  /** Replacing a character that does not occur is the identity. */
  lemma {:induction false} ReplaceMissingChar(s: string, c: char, rep: string)
    requires c !in s
    ensures Replace(s, [c], rep) == s
    decreases |s|
  {
    if s != [] {
      assert s[..1] == [s[0]];
      assert s[0] != c;
      ReplaceMissingChar(s[1..], c, rep);
    }
  }

  /**
   * Python's `n.split(sep)[0]`: the longest prefix of `n` that does not contain `sep`.
   * When `sep` occurs in `n`, the result stops right before its first occurrence.
   */
  function TakeUntil(n: string, sep: char): (p: string)
    ensures p <= n
    ensures sep !in p
    ensures sep in n ==> |p| < |n| && n[|p|] == sep
    ensures sep !in n ==> p == n
  {
    if n == [] then []
    else if n[0] == sep then []
    else [n[0]] + TakeUntil(n[1..], sep)
  }

  /** The part of `a + b` before the first `sep`, when `a` has none and `b` starts with one. */
  lemma {:induction false} TakeUntilConcat(a: string, b: string, sep: char)
    requires sep !in a && b != [] && b[0] == sep
    ensures TakeUntil(a + b, sep) == a
    decreases |a|
  {
    if a == [] {
      assert a + b == b;
    } else {
      assert (a + b)[0] == a[0];
      assert (a + b)[1..] == a[1..] + b;
      TakeUntilConcat(a[1..], b, sep);
    }
  }

  /** Python's `s * n`: `n` copies of `s`, and the empty string when `n <= 0`. */
  function Repeat(s: string, n: int): (r: string)
    ensures |r| == if n <= 0 then 0 else |s| * n
    ensures forall i :: 0 <= i < |r| ==> r[i] in s
    decreases n
  {
    if n <= 0 then "" else s + Repeat(s, n - 1)
  }

  /** One more copy of `s` on the right: `s * n + s == s * (n + 1)`. */
  lemma {:induction false} RepeatAppend(s: string, n: int)
    requires n >= 0
    ensures Repeat(s, n) + s == Repeat(s, n + 1)
    decreases n
  {
    if n > 0 {
      RepeatAppend(s, n - 1);
      assert Repeat(s, n) + s == s + (Repeat(s, n - 1) + s);
    }
  }

  /** Copies of blank text are blank. */
  lemma BlankRepeat(s: string, n: int)
    requires Blank(s)
    ensures Blank(Repeat(s, n))
  {
    var r := Repeat(s, n);
    forall i | 0 <= i < |r| ensures r[i] == ' ' || r[i] == '\n' {
      assert r[i] in s;
    }
  }

  lemma AppendAssoc<T>(a: seq<T>, b: seq<T>, c: seq<T>)
    ensures (a + b) + c == a + (b + c)
  {
  }

  /** Only spaces and newlines: the whitespace the pretty-printer writes between tags. */
  predicate Blank(s: string) {
    forall i :: 0 <= i < |s| ==> s[i] == ' ' || s[i] == '\n'
  }
}

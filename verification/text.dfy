/** String and sequence helpers shared by the provider adapters: prefix tests,
    the character classes of the import-path patterns, maximal runs, the
    `path.Split` file part, the `strings.Split(s, "?")[0]` truncation and
    order-preserving filtering. */
module Text {

  predicate StartsWith(s: string, prefix: string) {
    |prefix| <= |s| && s[..|prefix|] == prefix
  }

  /** Every character of `s` belongs to the class `p`. */
  predicate AllChars(s: string, p: char -> bool) {
    forall i :: 0 <= i < |s| ==> p(s[i])
  }

  /** `[a-z0-9A-Z_.\-/]`: the characters a directory suffix may use. */
  predicate IsPathChar(c: char) {
    || 'a' <= c <= 'z' || '0' <= c <= '9' || 'A' <= c <= 'Z'
    || c == '_' || c == '.' || c == '-' || c == '/'
  }

  /** Length of the longest prefix of `s` whose characters all belong to `p`
      (what a greedy `[class]*` consumes). */
  function Span(s: string, p: char -> bool): (n: nat)
    ensures n <= |s|
    ensures AllChars(s[..n], p)
    ensures n < |s| ==> !p(s[n])
  {
    if |s| == 0 || !p(s[0]) then 0 else 1 + Span(s[1..], p)
  }

  /** A greedy run over `a + b` stops exactly at the end of `a` when `a` lies
      inside the class and `b` does not start inside it. */
  lemma SpanOfConcat(a: string, b: string, p: char -> bool)
    requires AllChars(a, p)
    requires |b| == 0 || !p(b[0])
    ensures Span(a + b, p) == |a|
  {
    var s := a + b;
    var n := Span(s, p);
    assert s[..|a|] == a;
  }

  /** Where the file part of `p` starts: just after its last `/`, or at 0. */
  function SegmentStart(p: string): (k: nat)
    ensures k <= |p|
  {
    if |p| == 0 || p[|p| - 1] == '/' then |p| else SegmentStart(p[..|p| - 1])
  }

  /** The file part of `path.Split(p)`: everything after the last `/`. */
  function LastSegment(p: string): string {
    p[SegmentStart(p)..]
  }

  /** The file part starts at the beginning or just after a `/`, and holds
      no `/` itself. */
  lemma {:induction false} SegmentStartIsLastSlash(p: string)
    ensures SegmentStart(p) == 0 || p[SegmentStart(p) - 1] == '/'
    ensures forall j :: SegmentStart(p) <= j < |p| ==> p[j] != '/'
  {
    if |p| > 0 && p[|p| - 1] != '/' {
      var q := p[..|p| - 1];
      SegmentStartIsLastSlash(q);
      assert SegmentStart(p) == SegmentStart(q);
      forall j | SegmentStart(p) <= j < |p| ensures p[j] != '/' {
        if j < |q| { assert p[j] == q[j]; }
      }
    }
  }

  /** `a` ends `b`. */
  predicate EndsWith(b: string, a: string) {
    |a| <= |b| && b[|b| - |a|..] == a
  }

  /** The file part ends the path, holds no `/`, and is the whole path or
      follows a `/`. */
  lemma LastSegmentProperties(p: string)
    ensures '/' !in LastSegment(p)
    ensures EndsWith(p, LastSegment(p))
    ensures |LastSegment(p)| < |p| ==> p[|p| - |LastSegment(p)| - 1] == '/'
  {
    SegmentStartIsLastSlash(p);
    var k := SegmentStart(p);
    assert |LastSegment(p)| == |p| - k;
    forall i | 0 <= i < |LastSegment(p)| ensures LastSegment(p)[i] != '/' {
      assert LastSegment(p)[i] == p[k + i];
    }
  }

  /** The last `n` elements of `a + b` are those of `b` when `b` has them. */
  lemma SuffixOfConcat<T>(a: seq<T>, b: seq<T>, n: nat)
    requires n <= |b|
    ensures (a + b)[|a + b| - n..] == b[|b| - n..]
  {
  }

  /** `strings.Split(s, [c])[0]`: the part of `s` before the first `c`. */
  function BeforeFirst(s: string, c: char): (r: string)
    ensures c !in r
    ensures StartsWith(s, r)
    ensures |r| < |s| ==> s[|r|] == c
  {
    if |s| == 0 || s[0] == c then "" else [s[0]] + BeforeFirst(s[1..], c)
  }

  /** The elements of `s` that satisfy `p`, in their original order. */
  function Filter<T>(p: T -> bool, s: seq<T>): (r: seq<T>)
    ensures |r| <= |s|
    ensures forall i :: 0 <= i < |r| ==> p(r[i])
  {
    if |s| == 0 then []
    else if p(s[0]) then [s[0]] + Filter(p, s[1..])
    else Filter(p, s[1..])
  }

  /** One step of the filter, for callers that hold a sequence of a subset
      type. */
  lemma FilterStep<T>(p: T -> bool, s: seq<T>)
    requires |s| > 0
    ensures Filter(p, s) == if p(s[0]) then [s[0]] + Filter(p, s[1..]) else Filter(p, s[1..])
  {
  }

  /** Filtering keeps exactly the elements that satisfy the predicate. */
  lemma {:induction false} FilterMembers<T>(p: T -> bool, s: seq<T>, x: T)
    ensures x in Filter(p, s) <==> x in s && p(x)
  {
    if |s| > 0 {
      FilterMembers(p, s[1..], x);
      assert s == [s[0]] + s[1..];
    }
  }

  /** `r` is `s` with some elements deleted and the rest in the same order. */
  ghost predicate IsSubsequence<T>(r: seq<T>, s: seq<T>)
    decreases |s|
  {
    if |r| == 0 then true
    else if |s| == 0 then false
    else (r[0] == s[0] && IsSubsequence(r[1..], s[1..])) || IsSubsequence(r, s[1..])
  }

  /** Filtering preserves order: its result is a subsequence of its input. */
  lemma {:induction false} FilterIsSubsequence<T>(p: T -> bool, s: seq<T>)
    ensures IsSubsequence(Filter(p, s), s)
  {
    if |s| > 0 {
      FilterIsSubsequence(p, s[1..]);
      var r := Filter(p, s);
      if p(s[0]) {
        assert r[0] == s[0] && r[1..] == Filter(p, s[1..]);
      }
    }
  }
}

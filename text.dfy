// Shared vocabulary of the inline-query transforms: text is a sequence of
// Unicode scalar values (Go's []rune view of a string), white space as Go's
// unicode.IsSpace defines it, trimming, and sequence reversal.
module Text {

  datatype Option<T> = None | Some(value: T)

  /** `s`, or `default` when `s` is empty: every transform starts this way. */
  function WithDefault(s: string, default: string): (r: string)
    ensures s != [] ==> r == s
    ensures s == [] ==> r == default
  {
    if s == [] then default else s
  }

  /**
   * Go's unicode.IsSpace: '\t', '\n', '\v', '\f', '\r', ' ', U+0085, U+00A0
   * and the other members of Unicode's White_Space property.
   */
  predicate IsSpace(c: char)
  {
    c == '\t' || c == '\n' || c == '\U{B}' || c == '\U{C}' || c == '\r' || c == ' '
    || c == '\U{85}' || c == '\U{A0}' || c == '\U{1680}'
    || ('\U{2000}' <= c <= '\U{200A}')
    || c == '\U{2028}' || c == '\U{2029}' || c == '\U{202F}' || c == '\U{205F}'
    || c == '\U{3000}'
  }

  predicate AllSpace(s: string)
  {
    forall i :: 0 <= i < |s| ==> IsSpace(s[i])
  }

  /** The runes of `s` that are not white space, in order. */
  function NonSpace(s: string): (r: string)
    ensures |r| <= |s|
    ensures forall i :: 0 <= i < |r| ==> !IsSpace(r[i])
  {
    if s == [] then []
    else if IsSpace(s[0]) then NonSpace(s[1..])
    else [s[0]] + NonSpace(s[1..])
  }

  lemma {:induction false} NonSpaceAppend(a: string, b: string)
    ensures NonSpace(a + b) == NonSpace(a) + NonSpace(b)
  {
    if a != [] {
      assert (a + b)[1..] == a[1..] + b;
      NonSpaceAppend(a[1..], b);
    } else {
      assert a + b == b;
    }
  }

  lemma {:induction false} NonSpaceOfAllSpace(s: string)
    requires AllSpace(s)
    ensures NonSpace(s) == []
  {
    if s != [] {
      NonSpaceOfAllSpace(s[1..]);
    }
  }

  /** The first index at or after `i` that is not white space (or |s|). */
  function SkipSpace(s: string, i: nat): (k: nat)
    requires i <= |s|
    ensures i <= k <= |s|
    ensures forall j :: i <= j < k ==> IsSpace(s[j])
    ensures k == |s| || !IsSpace(s[k])
    decreases |s| - i
  {
    if i < |s| && IsSpace(s[i]) then SkipSpace(s, i + 1) else i
  }

  /** The index just past the last rune in s[lo..hi] that is not white space (or lo). */
  function BackSpace(s: string, lo: nat, hi: nat): (k: nat)
    requires lo <= hi <= |s|
    ensures lo <= k <= hi
    ensures forall j :: k <= j < hi ==> IsSpace(s[j])
    ensures k == lo || !IsSpace(s[k - 1])
    decreases hi
  {
    if lo < hi && IsSpace(s[hi - 1]) then BackSpace(s, lo, hi - 1) else hi
  }

  /**
   * strings.TrimSpace: the maximal leading and trailing runs of white space
   * removed. The result neither starts nor ends with white space.
   */
  function TrimSpace(s: string): (r: string)
    ensures |r| <= |s|
    ensures r == [] || (!IsSpace(r[0]) && !IsSpace(r[|r| - 1]))
  {
    var lo := SkipSpace(s, 0);
    s[lo..BackSpace(s, lo, |s|)]
  }

  lemma {:induction false} SkipSpaceStops(s: string, i: nat, k: nat)
    requires i <= k <= |s|
    requires forall j :: i <= j < k ==> IsSpace(s[j])
    requires k == |s| || !IsSpace(s[k])
    ensures SkipSpace(s, i) == k
    decreases k - i
  {
    if i < k {
      SkipSpaceStops(s, i + 1, k);
    }
  }

  lemma {:induction false} BackSpaceStops(s: string, lo: nat, hi: nat, k: nat)
    requires lo <= k <= hi <= |s|
    requires forall j :: k <= j < hi ==> IsSpace(s[j])
    requires k == lo || !IsSpace(s[k - 1])
    ensures BackSpace(s, lo, hi) == k
    decreases hi - k
  {
    if k < hi {
      BackSpaceStops(s, lo, hi - 1, k);
    }
  }

  /**
   * TrimSpace is pinned down by its promise: white space around a core that
   * neither starts nor ends with white space is cut back to exactly that core.
   */
  lemma TrimSpaceOfCore(p: string, m: string, q: string)
    requires AllSpace(p) && AllSpace(q)
    requires m == [] || (!IsSpace(m[0]) && !IsSpace(m[|m| - 1]))
    ensures TrimSpace(p + m + q) == m
  {
    var s := p + m + q;
    if m == [] {
      SkipSpaceStops(s, 0, |s|);
    } else {
      assert s[|p|] == m[0];
      SkipSpaceStops(s, 0, |p|);
      assert s[|p| + |m| - 1] == m[|m| - 1];
      BackSpaceStops(s, |p|, |s|, |p| + |m|);
      assert s[|p|..|p| + |m|] == m;
    }
  }

  /** `s` without its leading white space. */
  function TrimLeft(s: string): string
  {
    s[SkipSpace(s, 0)..]
  }

  /** `s` without its trailing white space. */
  function TrimRight(s: string): string
  {
    s[..BackSpace(s, 0, |s|)]
  }

  /** A non-space rune after `p` stops the scan at the end of p's leading white space. */
  lemma SkipSpaceBefore(p: string, rest: string)
    requires rest != [] && !IsSpace(rest[0])
    ensures SkipSpace(p + rest, 0) == SkipSpace(p, 0)
  {
    var s, lo := p + rest, SkipSpace(p, 0);
    assert forall j :: 0 <= j < lo ==> s[j] == p[j];
    assert s[lo] == if lo < |p| then p[lo] else rest[0];
    SkipSpaceStops(s, 0, lo);
  }

  /** A non-space rune before `q` stops the backward scan at the start of q's trailing white space. */
  lemma BackSpaceAfter(pre: string, q: string, lo: nat)
    requires pre != [] && !IsSpace(pre[|pre| - 1]) && lo <= |pre|
    ensures BackSpace(pre + q, lo, |pre + q|) == |pre| + BackSpace(q, 0, |q|)
  {
    var s, hi := pre + q, |pre| + BackSpace(q, 0, |q|);
    assert forall j :: hi <= j < |s| ==> s[j] == q[j - |pre|];
    assert s[hi - 1] == if hi > |pre| then q[hi - 1 - |pre|] else pre[|pre| - 1];
    BackSpaceStops(s, lo, |s|, hi);
  }

  /**
   * Trimming only reaches into the ends: around a middle part that starts
   * and ends with a non-space rune, the prefix loses its leading white
   * space, the suffix its trailing white space, and the middle is kept whole.
   */
  lemma TrimSpaceAround(p: string, m: string, q: string)
    requires m != [] && !IsSpace(m[0]) && !IsSpace(m[|m| - 1])
    ensures TrimSpace(p + m + q) == TrimLeft(p) + m + TrimRight(q)
  {
    var s := p + m + q;
    var lo, kq := SkipSpace(p, 0), BackSpace(q, 0, |q|);
    assert s == p + (m + q) == (p + m) + q;
    SkipSpaceBefore(p, m + q);
    BackSpaceAfter(p + m, q, lo);
    SliceAcross(p, m, q, lo, kq);
  }

  /** The part of p + m + q from index lo of p to index kq of q, read piece by piece. */
  lemma SliceAcross(p: string, m: string, q: string, lo: nat, kq: nat)
    requires lo <= |p| && kq <= |q|
    ensures (p + m + q)[lo..|p| + |m| + kq] == p[lo..] + m + q[..kq]
  {
    var l, r := (p + m + q)[lo..|p| + |m| + kq], p[lo..] + m + q[..kq];
    assert |l| == |r|;
    forall i | 0 <= i < |l| ensures l[i] == r[i] {
      if i < |p| - lo {
        assert l[i] == p[lo + i];
      } else if i < |p| - lo + |m| {
        assert l[i] == m[i - (|p| - lo)];
      } else {
        assert l[i] == q[i - (|p| - lo + |m|)];
      }
    }
  }

  /** Trimming removes only white space: the other runes all survive, in order. */
  lemma TrimSpaceKeepsNonSpace(s: string)
    ensures NonSpace(TrimSpace(s)) == NonSpace(s)
  {
    var lo := SkipSpace(s, 0);
    var hi := BackSpace(s, lo, |s|);
    assert s == s[..lo] + s[lo..hi] + s[hi..];
    assert AllSpace(s[..lo]);
    assert AllSpace(s[hi..]);
    NonSpaceAppend(s[..lo] + s[lo..hi], s[hi..]);
    NonSpaceAppend(s[..lo], s[lo..hi]);
    NonSpaceOfAllSpace(s[..lo]);
    NonSpaceOfAllSpace(s[hi..]);
  }

  /** `s` back to front (slices.Reverse on the runes). */
  function Reversed<T>(s: seq<T>): (r: seq<T>)
    ensures |r| == |s|
    ensures forall i :: 0 <= i < |s| ==> r[i] == s[|s| - 1 - i]
  {
    if s == [] then [] else Reversed(s[1..]) + [s[0]]
  }

  /** A sequence that holds `s` back to front, index by index, is Reversed(s). */
  lemma ReversedByIndex<T>(s: seq<T>, r: seq<T>)
    requires |r| == |s|
    requires forall i :: 0 <= i < |s| ==> r[i] == s[|s| - 1 - i]
    ensures r == Reversed(s)
  {
  }

  lemma ReversedTwice<T>(s: seq<T>)
    ensures Reversed(Reversed(s)) == s
  {
  }

  lemma ReversedAppend<T>(a: seq<T>, b: seq<T>)
    ensures Reversed(a + b) == Reversed(b) + Reversed(a)
  {
    var r, l := Reversed(a + b), Reversed(b) + Reversed(a);
    assert |r| == |l|;
    forall i | 0 <= i < |r| ensures r[i] == l[i] {
      if i < |b| {
        assert r[i] == (a + b)[|a| + |b| - 1 - i] == b[|b| - 1 - i];
      } else {
        assert r[i] == (a + b)[|a| + |b| - 1 - i] == a[|a| - 1 - (i - |b|)];
      }
    }
  }
}

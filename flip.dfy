// reverse and mirror: the runes back to front, and the runes followed by
// their reflection about the last rune.
module Flip {
  import opened Text

  /** The text both transforms use when the query is empty (上海自来水). */
  const Default: string := "\U{4E0A}\U{6D77}\U{81EA}\U{6765}\U{6C34}"

  /** reverse(s), inline.go:226-234. */
  function ReverseOf(s: string): string
  {
    Reversed(WithDefault(s, Default))
  }

  /** The runes copied into an array and reversed in place, two ends at a time. */
  method Reverse(s: string) returns (r: string)
    ensures r == ReverseOf(s)
  {
    var t := s;
    if t == "" {
      t := Default;
    }
    var runes := new char[|t|](k requires 0 <= k < |t| => t[k]);
    var i, j := 0, runes.Length - 1;
    while i < j
      invariant 0 <= i <= j + 1 <= |t| && i + j == |t| - 1
      invariant forall k :: 0 <= k < i || j < k < |t| ==> runes[k] == t[|t| - 1 - k]
      invariant forall k :: i <= k <= j ==> runes[k] == t[k]
    {
      runes[i], runes[j] := runes[j], runes[i];
      i, j := i + 1, j - 1;
    }
    r := runes[..];
    ReversedByIndex(t, r);
  }

  /** Reversing a non-empty text twice gives it back. */
  lemma ReverseTwice(s: string)
    requires s != ""
    ensures ReverseOf(ReverseOf(s)) == s
  {
    ReversedTwice(s);
  }

  /** The empty query is answered with 水来自海上, the default back to front. */
  lemma ReverseOfEmpty()
    ensures ReverseOf("") == "\U{6C34}\U{6765}\U{81EA}\U{6D77}\U{4E0A}"
  {
  }

  /**
   * mirror(s), inline.go:237-251: the runes, then the runes before the last
   * one in reverse order, 2n - 1 runes in all.
   */
  function MirrorOf(s: string): string
  {
    var t := WithDefault(s, Default);
    t + Reversed(t[..|t| - 1])
  }

  /**
   * An array of 2n - 1 runes starting with a copy of the text; the walk from
   * both ends copies rune i to position 2n - 2 - i until the two meet.
   */
  method Mirror(s: string) returns (r: string)
    ensures r == MirrorOf(s)
  {
    var t := s;
    if t == "" {
      t := Default;
    }
    var n := |t|;
    var runes := new char[2 * n - 1](k requires 0 <= k < 2 * n - 1 => if k < n then t[k] else '\U{0}');
    var i, j := 0, runes.Length - 1;
    while i < j
      invariant 0 <= i <= n - 1 <= j && i + j == 2 * n - 2
      invariant forall k :: 0 <= k < n ==> runes[k] == t[k]
      invariant forall k :: j < k < 2 * n - 1 ==> runes[k] == t[2 * n - 2 - k]
    {
      runes[j] := runes[i];
      i, j := i + 1, j - 1;
    }
    r := runes[..];
    assert r == MirrorOf(s) by {
      var m := MirrorOf(s);
      assert |r| == |m|;
      forall k | 0 <= k < |r| ensures r[k] == m[k] {
        if k >= n {
          assert m[k] == Reversed(t[..n - 1])[k - n] == t[2 * n - 2 - k];
        }
      }
    }
  }

  /** The mirror reads the same both ways, has 2n - 1 runes and starts with the text. */
  lemma MirrorPalindrome(s: string)
    ensures var t := WithDefault(s, Default);
      |MirrorOf(s)| == 2 * |t| - 1 && MirrorOf(s)[..|t|] == t
    ensures Reversed(MirrorOf(s)) == MirrorOf(s)
  {
    var t := WithDefault(s, Default);
    var u, c := t[..|t| - 1], t[|t| - 1];
    var m := MirrorOf(s);
    assert t == u + [c];
    assert m[..|t|] == t;
    calc {
      Reversed(m);
    ==  { ReversedAppend(t, Reversed(u)); }
      Reversed(Reversed(u)) + Reversed(u + [c]);
    ==  { ReversedTwice(u); ReversedAppend(u, [c]); }
      u + (Reversed([c]) + Reversed(u));
    ==  { assert Reversed([c]) == [c]; }
      u + [c] + Reversed(u);
    }
  }

  /** The mirror is the text followed by its reversal with the shared middle rune dropped. */
  lemma MirrorIsTextThenReverse(s: string)
    ensures var t := WithDefault(s, Default);
      MirrorOf(s) == t + ReverseOf(t)[1..]
  {
    var t := WithDefault(s, Default);
    var u := ReverseOf(t);
    assert u == Reversed(t);
    assert u[1..] == Reversed(t[..|t| - 1]) by {
      assert t == t[..|t| - 1] + [t[|t| - 1]];
      ReversedAppend(t[..|t| - 1], [t[|t| - 1]]);
    }
  }

  /** The empty query mirrors to 上海自来水来自海上, the card's own title. */
  lemma MirrorOfEmpty()
    ensures MirrorOf("") == "\U{4E0A}\U{6D77}\U{81EA}\U{6765}\U{6C34}\U{6765}\U{81EA}\U{6D77}\U{4E0A}"
  {
    var t := Default;
    assert t[..4] == "\U{4E0A}\U{6D77}\U{81EA}\U{6765}";
  }

  lemma MirrorAbcd()
    ensures MirrorOf("ABCD") == "ABCDCBA"
  {
    assert "ABCD"[..3] == "ABC";
  }
}

// createTypos: a text of two runes or more gets (1 + n/20) * rounds swaps of
// neighbouring runes at random positions, a shorter one none;
// scrambleLetters is the same walk with 10 to 19 rounds.
module Typos {
  import opened Text

  /** The text used when the query is empty. */
  const Default: string := "\U{270F}\U{FE0F} feat: add typo"

  /**
   * The loop count `times` for a text of n runes: (1 + n/20) * rounds, where
   * a count that is not positive runs the loop zero times. It is the number
   * of swaps only when n >= 2; a shorter text is returned before the loop.
   */
  function Steps(n: nat, rounds: int): (t: nat)
    ensures rounds > 0 ==> t >= rounds
    ensures rounds <= 0 ==> t == 0
    ensures n < 20 ==> t == if rounds > 0 then rounds else 0
  {
    var times := (1 + n / 20) * rounds;
    if times > 0 then times else 0
  }

  /** Runes p and p + 1 of `s` traded. */
  function Swap(s: string, p: nat): (r: string)
    requires p + 1 < |s|
    ensures |r| == |s| && r[p] == s[p + 1] && r[p + 1] == s[p]
    ensures forall j :: 0 <= j < |s| && j != p && j != p + 1 ==> r[j] == s[j]
  {
    s[p := s[p + 1]][p + 1 := s[p]]
  }

  /** A swap moves runes and neither loses nor adds one. */
  lemma SwapPermutes(s: string, p: nat)
    requires p + 1 < |s|
    ensures multiset(Swap(s, p)) == multiset(s)
  {
    assert s == s[..p] + [s[p], s[p + 1]] + s[p + 2..];
    assert Swap(s, p) == s[..p] + [s[p + 1], s[p]] + s[p + 2..];
  }

  predicate PositionsBelow(ps: seq<nat>, bound: int)
  {
    forall j :: 0 <= j < |ps| ==> ps[j] < bound
  }

  /** The swaps at ps[0], ps[1], ... applied in turn. */
  function SwapWalk(s: string, ps: seq<nat>): (r: string)
    requires PositionsBelow(ps, |s| - 1)
    ensures |r| == |s|
  {
    if ps == [] then s else Swap(SwapWalk(s, ps[..|ps| - 1]), ps[|ps| - 1])
  }

  /** The walk is a permutation of the runes. */
  lemma {:induction false} SwapWalkPermutes(s: string, ps: seq<nat>)
    requires PositionsBelow(ps, |s| - 1)
    ensures multiset(SwapWalk(s, ps)) == multiset(s)
  {
    if ps != [] {
      var init := ps[..|ps| - 1];
      SwapWalkPermutes(s, init);
      SwapPermutes(SwapWalk(s, init), ps[|ps| - 1]);
    }
  }

  /** One more position taken: one more swap on top of the walk so far. */
  lemma SwapWalkStep(s: string, ps: seq<nat>, k: nat)
    requires k < |ps| && PositionsBelow(ps, |s| - 1)
    ensures PositionsBelow(ps[..k], |s| - 1) && PositionsBelow(ps[..k + 1], |s| - 1)
    ensures SwapWalk(s, ps[..k + 1]) == Swap(SwapWalk(s, ps[..k]), ps[k])
  {
    var pre := ps[..k + 1];
    assert PositionsBelow(pre, |s| - 1) by {
      forall j | 0 <= j < |pre| ensures pre[j] < |s| - 1 {
        assert pre[j] == ps[j];
      }
    }
    assert pre[..k] == ps[..k];
    assert pre[k] == ps[k];
  }

  /**
   * What the source asks of the random positions: one per swap, each below
   * n - 1 as rand.IntN(n - 1) gives them (none are drawn below two runes).
   */
  predicate Supplies(s: string, rounds: int, positions: seq<nat>)
  {
    var n := |WithDefault(s, Default)|;
    n >= 2 ==> |positions| >= Steps(n, rounds) && PositionsBelow(positions, n - 1)
  }

  /** createTypos(s, rounds), inline.go:152-172, with its positions drawn up front. */
  function CreateTyposOf(s: string, rounds: int, positions: seq<nat>): (r: string)
    requires Supplies(s, rounds, positions)
  {
    var t := WithDefault(s, Default);
    if |t| < 2 then t else SwapWalk(t, positions[..Steps(|t|, rounds)])
  }

  /** The typos keep the length and the runes of the (defaulted) text; only their order changes. */
  lemma CreateTyposPermutes(s: string, rounds: int, positions: seq<nat>)
    requires Supplies(s, rounds, positions)
    ensures |CreateTyposOf(s, rounds, positions)| == |WithDefault(s, Default)|
    ensures multiset(CreateTyposOf(s, rounds, positions)) == multiset(WithDefault(s, Default))
  {
    var t := WithDefault(s, Default);
    if |t| >= 2 {
      SwapWalkPermutes(t, positions[..Steps(|t|, rounds)]);
    }
  }

  method CreateTypos(s: string, rounds: int, positions: seq<nat>) returns (r: string, drawn: nat)
    requires Supplies(s, rounds, positions)
    ensures var n := |WithDefault(s, Default)|; drawn == if n < 2 then 0 else Steps(n, rounds)
    ensures r == CreateTyposOf(s, rounds, positions)
  {
    var t := WithDefault(s, Default);
    var runes := new char[|t|](i requires 0 <= i < |t| => t[i]);
    drawn := 0;
    if runes.Length < 2 {
      assert runes[..] == t;
      return t, drawn;
    }
    var times := (1 + runes.Length / 20) * rounds;
    while drawn < times
      invariant drawn <= Steps(runes.Length, rounds)
      invariant runes[..] == SwapWalk(t, positions[..drawn])
    {
      var pos := positions[drawn];
      ghost var before := runes[..];
      SwapWalkStep(t, positions, drawn);
      runes[pos], runes[pos + 1] := runes[pos + 1], runes[pos];
      assert runes[..] == Swap(before, pos);
      drawn := drawn + 1;
    }
    r := runes[..];
  }

  /** Each swap undoes itself. */
  lemma SwapTwice(s: string, p: nat)
    requires p + 1 < |s|
    ensures Swap(Swap(s, p), p) == s
  {
  }

  lemma {:induction false} SwapWalkAppend(s: string, ps: seq<nat>, qs: seq<nat>)
    requires PositionsBelow(ps + qs, |s| - 1)
    ensures PositionsBelow(ps, |s| - 1) && PositionsBelow(qs, |s| - 1)
    ensures SwapWalk(s, ps + qs) == SwapWalk(SwapWalk(s, ps), qs)
    decreases |qs|
  {
    assert forall j :: 0 <= j < |ps| ==> ps[j] == (ps + qs)[j];
    assert forall j :: 0 <= j < |qs| ==> qs[j] == (ps + qs)[|ps| + j];
    if qs == [] {
      assert ps + qs == ps;
    } else {
      var init := qs[..|qs| - 1];
      assert (ps + qs)[..|ps + qs| - 1] == ps + init;
      SwapWalkAppend(s, ps, init);
    }
  }

  /**
   * The walk can be retraced: applying the same swaps in reverse order gives
   * the text back, so the typos lose no rune and add none.
   */
  lemma {:induction false} SwapWalkUndone(s: string, ps: seq<nat>)
    requires PositionsBelow(ps, |s| - 1)
    ensures PositionsBelow(Reversed(ps), |s| - 1)
    ensures SwapWalk(SwapWalk(s, ps), Reversed(ps)) == s
    decreases |ps|
  {
    if ps != [] {
      var init, p := ps[..|ps| - 1], ps[|ps| - 1];
      assert ps == init + [p];
      ReversedAppend(init, [p]);
      assert Reversed(ps) == [p] + Reversed(init);
      SwapWalkUndone(s, init);
      var mid := SwapWalk(s, init);
      SwapWalkAppend(SwapWalk(s, ps), [p], Reversed(init));
      assert SwapWalk(SwapWalk(s, ps), [p]) == Swap(Swap(mid, p), p) by {
        assert [p][..0] == [];
      }
      SwapTwice(mid, p);
    }
  }

  /** With fewer than two runes the text comes back as it went in. */
  lemma CreateTyposShort(s: string, rounds: int, positions: seq<nat>)
    requires Supplies(s, rounds, positions)
    requires |WithDefault(s, Default)| < 2
    ensures CreateTyposOf(s, rounds, positions) == s
  {
  }

  /** One round on a text under 20 runes is a single neighbour swap. */
  lemma CreateTyposOneRound(s: string, positions: seq<nat>)
    requires Supplies(s, 1, positions)
    requires 2 <= |WithDefault(s, Default)| < 20
    ensures CreateTyposOf(s, 1, positions) == Swap(WithDefault(s, Default), positions[0])
  {
    var t := WithDefault(s, Default);
    assert Steps(|t|, 1) == 1;
    SwapWalkStep(t, positions, 0);
    assert positions[..0] == [];
  }

  /**
   * The empty query is answered with the default's runes in a new order;
   * with no rounds to run, with the default itself.
   */
  lemma CreateTyposOfEmpty(rounds: int, positions: seq<nat>)
    requires Supplies("", rounds, positions)
    ensures multiset(CreateTyposOf("", rounds, positions)) == multiset("\U{270F}\U{FE0F} feat: add typo")
    ensures rounds <= 0 ==> CreateTyposOf("", rounds, positions) == "\U{270F}\U{FE0F} feat: add typo"
  {
    CreateTyposPermutes("", rounds, positions);
    if rounds <= 0 {
      assert Steps(|Default|, rounds) == 0;
      assert positions[..0] == [];
    }
  }
}

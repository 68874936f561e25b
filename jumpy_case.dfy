// randomizeCase: each basic-Latin letter has its case bit (0x20) flipped when
// the next bit of a 64-bit random word is 1; one word covers 64 letters.
module JumpyCase {
  import opened Text

  /** The text used when the query is empty. */
  const Default: string := "The quick brown fox jumps over the lazy dog."

  predicate IsLetter(c: char)
  {
    'A' <= c <= 'Z' || 'a' <= c <= 'z'
  }

  /** x | 0x20 on a code point. */
  function Or20(x: nat): nat
  {
    if (x / 0x20) % 2 == 1 then x else x + 0x20
  }

  /** x ^ 0x20 on a code point. */
  function Xor20(x: nat): int
  {
    if (x / 0x20) % 2 == 1 then x - 0x20 else x + 0x20
  }

  /**
   * The skip test of the loop: uint32(r|0x20 - 'a') > 'z'-'a'. Go parses
   * `r|0x20 - 'a'` as (r|0x20) - 'a', and the conversion to uint32 sends a
   * negative difference far above 25.
   */
  predicate SkipsRune(c: char)
  {
    (Or20(c as int) - 'a' as int) % 0x1_0000_0000 > 'z' as int - 'a' as int
  }

  /** The bit test accepts exactly the 52 basic-Latin letters. */
  lemma SkipsExactlyNonLetters(c: char)
    ensures SkipsRune(c) <==> !IsLetter(c)
  {
    var x := c as int;
    var d := Or20(x) - 0x61;
    if x < 0x40 {
      assert Or20(x) < 0x60;
      assert d % 0x1_0000_0000 == d + 0x1_0000_0000;
    } else if x < 0x80 {
      assert x / 0x20 == 2 || x / 0x20 == 3;
      if d < 0 {
        assert d % 0x1_0000_0000 == d + 0x1_0000_0000;
      }
    } else {
      assert Or20(x) >= x;
    }
  }

  /** Flipping the case bit of a letter: upper and lower case trade places. */
  function Toggle(c: char): (r: char)
    requires IsLetter(c)
    ensures 'A' <= c <= 'Z' ==> r as int == c as int + 0x20
    ensures 'a' <= c <= 'z' ==> r as int == c as int - 0x20
  {
    assert c as int / 0x20 == if c <= 'Z' then 2 else 3;
    Xor20(c as int) as char
  }

  /** Basic-Latin lower-casing, the fold under which case flips vanish. */
  function Lower(c: char): char
  {
    if 'A' <= c <= 'Z' then (c as int + 0x20) as char else c
  }

  function LowerAll(s: string): (r: string)
    ensures |r| == |s|
    ensures forall i :: 0 <= i < |s| ==> r[i] == Lower(s[i])
  {
    seq(|s|, i requires 0 <= i < |s| => Lower(s[i]))
  }

  /** Go's uint64: a draw of rand.Uint64 and the loop's variable `ri`. */
  newtype Word = x: int | 0 <= x < 0x1_0000_0000_0000_0000

  /** The loop's `ri&1 == 1`: the lowest bit of an unsigned word is its parity. */
  predicate LowBit(w: Word)
  {
    w % 2 == 1
  }

  /** The loop's `ri >>= 1`: an unsigned shift right by one halves the word. */
  function Half(w: Word): Word
  {
    w / 2
  }

  /** w shifted right by n places, one place at a time. */
  function ShiftRight(w: Word, n: nat): Word
  {
    if n == 0 then w else Half(ShiftRight(w, n - 1))
  }

  /** Bit j of w (bit 0 is the least significant). */
  predicate Bit(w: Word, j: nat)
  {
    LowBit(ShiftRight(w, j))
  }

  /** How many letters `s` holds. */
  function LetterCount(s: string): nat
  {
    if s == [] then 0
    else LetterCount(s[..|s| - 1]) + (if IsLetter(s[|s| - 1]) then 1 else 0)
  }

  /** How many 64-bit words the loop draws for `s`: ⌈letters/64⌉. */
  function WordsNeeded(s: string): nat
  {
    (LetterCount(s) + 63) / 64
  }

  /**
   * Rune `c`, the k-th letter-or-not of the text (k letters precede it), after
   * the loop: a letter is toggled iff bit k mod 64 of word k/64 is 1.
   */
  function FlipAt(c: char, k: nat, words: seq<Word>): char
    requires IsLetter(c) ==> k < 64 * |words|
  {
    if IsLetter(c) && Bit(words[k / 64], k % 64) then Toggle(c) else c
  }

  /** The runes of `s` after the loop, given the words drawn. */
  function Jumpy(s: string, words: seq<Word>): (r: string)
    requires LetterCount(s) <= 64 * |words|
    ensures |r| == |s|
  {
    if s == [] then []
    else
      var init := s[..|s| - 1];
      Jumpy(init, words) + [FlipAt(s[|s| - 1], LetterCount(init), words)]
  }

  /** randomizeCase(s), inline.go:193-223, with its words drawn up front. */
  function RandomizeCaseOf(s: string, words: seq<Word>): string
    requires LetterCount(WithDefault(s, Default)) <= 64 * |words|
  {
    Jumpy(WithDefault(s, Default), words)
  }

  /** Letters before position i, plus the one at i if any, are among the letters of `s`. */
  lemma {:induction false} LetterCountPrefix(s: string, i: nat)
    requires i < |s|
    ensures LetterCount(s[..i]) + (if IsLetter(s[i]) then 1 else 0) <= LetterCount(s)
    decreases |s|
  {
    var init := s[..|s| - 1];
    if i < |s| - 1 {
      assert init[..i] == s[..i];
      LetterCountPrefix(init, i);
    } else {
      assert init == s[..i];
    }
  }

  /**
   * The k-th rune comes out as FlipAt says: letters are counted from the
   * start, and the count alone picks the word and the bit.
   */
  lemma {:induction false} JumpyAt(s: string, words: seq<Word>, i: nat)
    requires LetterCount(s) <= 64 * |words|
    requires i < |s|
    ensures LetterCount(s[..i]) + (if IsLetter(s[i]) then 1 else 0) <= 64 * |words|
    ensures Jumpy(s, words)[i] == FlipAt(s[i], LetterCount(s[..i]), words)
    decreases |s|
  {
    var init := s[..|s| - 1];
    LetterCountPrefix(s, i);
    if i < |s| - 1 {
      assert init[..i] == s[..i];
      JumpyAt(init, words, i);
    } else {
      assert init == s[..i];
    }
  }

  /** One more rune of `s` counted. */
  lemma JumpyStep(s: string, words: seq<Word>, i: nat)
    requires i < |s| && LetterCount(s) <= 64 * |words|
    ensures LetterCount(s[..i + 1]) == LetterCount(s[..i]) + (if IsLetter(s[i]) then 1 else 0)
    ensures LetterCount(s[..i + 1]) <= 64 * |words|
  {
    assert s[..i + 1][..i] == s[..i];
    LetterCountPrefix(s, i);
  }

  /**
   * The random-word state of the loop once k letters have been seen: `drawn`
   * words taken, `remaining` of the last one's bits unused, and `ri` that word
   * with its used bits shifted out.
   */
  ghost predicate CoinState(words: seq<Word>, k: nat, drawn: nat, remaining: nat, ri: Word)
  {
    && remaining < 64
    && 64 * drawn - remaining == k
    && (drawn == 0 ==> remaining == 0)
    && drawn <= |words|
    && (drawn > 0 ==> ri == ShiftRight(words[drawn - 1], 64 - remaining))
  }

  /** The state just before a letter reads its bit: some bit of word `drawn` is unused. */
  ghost predicate CoinReady(words: seq<Word>, k: nat, drawn: nat, remaining: nat, ri: Word)
  {
    && 0 < remaining <= 64
    && 0 < drawn <= |words|
    && 64 * drawn - remaining == k
    && ri == ShiftRight(words[drawn - 1], 64 - remaining)
  }

  /** A fresh word is drawn exactly when no bit remains, and only while words are due. */
  lemma Refill(words: seq<Word>, k: nat, drawn: nat, remaining: nat, ri: Word)
    requires CoinState(words, k, drawn, remaining, ri) && k < 64 * |words|
    ensures remaining == 0 ==> drawn < |words| && CoinReady(words, k, drawn + 1, 64, words[drawn])
    ensures remaining != 0 ==> CoinReady(words, k, drawn, remaining, ri)
  {
  }

  /** Letter k reads bit k mod 64 of word k/64; the shift readies the next bit. */
  lemma ReadBit(words: seq<Word>, k: nat, drawn: nat, remaining: nat, ri: Word)
    requires CoinReady(words, k, drawn, remaining, ri)
    ensures LowBit(ri) == Bit(words[k / 64], k % 64)
    ensures CoinState(words, k + 1, drawn, remaining - 1, Half(ri))
  {
    assert k / 64 == drawn - 1 && k % 64 == 64 - remaining;
    assert ShiftRight(words[drawn - 1], 64 - remaining + 1) == Half(ri);
  }

  /** A rune the test skips is left as it is and leaves the random state alone. */
  lemma PassOver(t: string, words: seq<Word>, i: nat, drawn: nat, remaining: nat, ri: Word)
    requires i < |t| && LetterCount(t) <= 64 * |words| && SkipsRune(t[i])
    requires CoinState(words, LetterCount(t[..i]), drawn, remaining, ri)
    ensures Jumpy(t, words)[i] == t[i]
    ensures CoinState(words, LetterCount(t[..i + 1]), drawn, remaining, ri)
  {
    SkipsExactlyNonLetters(t[i]);
    JumpyAt(t, words, i);
    JumpyStep(t, words, i);
  }

  /** A rune the test lets through is a letter, and there is a bit for it. */
  lemma DrawIfEmpty(t: string, words: seq<Word>, i: nat, drawn: nat, remaining: nat, ri: Word)
    requires i < |t| && LetterCount(t) <= 64 * |words| && !SkipsRune(t[i])
    requires CoinState(words, LetterCount(t[..i]), drawn, remaining, ri)
    ensures IsLetter(t[i])
    ensures remaining == 0 ==>
      drawn < |words| && CoinReady(words, LetterCount(t[..i]), drawn + 1, 64, words[drawn])
    ensures remaining != 0 ==> CoinReady(words, LetterCount(t[..i]), drawn, remaining, ri)
  {
    SkipsExactlyNonLetters(t[i]);
    LetterCountPrefix(t, i);
    Refill(words, LetterCount(t[..i]), drawn, remaining, ri);
  }

  /** A letter reads the lowest unused bit and is toggled iff it is 1. */
  lemma ReadLetter(t: string, words: seq<Word>, i: nat, drawn: nat, remaining: nat, ri: Word)
    requires i < |t| && LetterCount(t) <= 64 * |words| && IsLetter(t[i])
    requires CoinReady(words, LetterCount(t[..i]), drawn, remaining, ri)
    ensures Jumpy(t, words)[i] == if LowBit(ri) then Toggle(t[i]) else t[i]
    ensures CoinState(words, LetterCount(t[..i + 1]), drawn, remaining - 1, Half(ri))
  {
    JumpyAt(t, words, i);
    JumpyStep(t, words, i);
    ReadBit(words, LetterCount(t[..i]), drawn, remaining, ri);
  }

  /** Once every letter is read, ⌈letters/64⌉ words have been drawn. */
  lemma AllDrawn(words: seq<Word>, k: nat, drawn: nat, remaining: nat, ri: Word)
    requires CoinState(words, k, drawn, remaining, ri)
    ensures drawn == (k + 63) / 64
  {
  }

  method RandomizeCase(s: string, words: seq<Word>) returns (r: string, drawn: nat)
    requires LetterCount(WithDefault(s, Default)) <= 64 * |words|
    ensures drawn == WordsNeeded(WithDefault(s, Default))
    ensures r == RandomizeCaseOf(s, words)
  {
    var t := WithDefault(s, Default);
    ghost var goal := Jumpy(t, words);
    var runes := new char[|t|](i requires 0 <= i < |t| => t[i]);
    var ri: Word := 0;
    var remaining := 0;
    drawn := 0;
    for i := 0 to runes.Length
      invariant CoinState(words, LetterCount(t[..i]), drawn, remaining, ri)
      invariant forall j :: 0 <= j < i ==> runes[j] == goal[j]
      invariant forall j :: i <= j < runes.Length ==> runes[j] == t[j]
    {
      var c := runes[i];
      if SkipsRune(c) {
        PassOver(t, words, i, drawn, remaining, ri);
        continue;
      }
      DrawIfEmpty(t, words, i, drawn, remaining, ri);
      if remaining == 0 {
        ri, remaining := words[drawn], 64;
        drawn := drawn + 1;
      }
      ReadLetter(t, words, i, drawn, remaining, ri);
      if LowBit(ri) {
        runes[i] := Toggle(c);
      }
      ri := Half(ri);
      remaining := remaining - 1;
    }
    assert drawn == WordsNeeded(t) by {
      assert t[..|t|] == t;
      AllDrawn(words, LetterCount(t), drawn, remaining, ri);
    }
    r := runes[..];
  }

  /** A flipped letter is a letter again, flipping back restores it, and lower-casing cannot tell. */
  lemma ToggleFacts(c: char)
    requires IsLetter(c)
    ensures IsLetter(Toggle(c)) && Toggle(Toggle(c)) == c && Lower(Toggle(c)) == Lower(c)
  {
  }

  /** Every rune is either kept or, when it is a letter, has its case flipped. */
  lemma JumpyOnlyFlipsLetters(s: string, words: seq<Word>, i: nat)
    requires LetterCount(s) <= 64 * |words|
    requires i < |s|
    ensures !IsLetter(s[i]) ==> Jumpy(s, words)[i] == s[i]
    ensures IsLetter(s[i]) ==> Jumpy(s, words)[i] in {s[i], Toggle(s[i])}
  {
    JumpyAt(s, words, i);
  }

  /** Folding both sides to lower case gives the same text. */
  lemma JumpyLowerEqual(s: string, words: seq<Word>)
    requires LetterCount(s) <= 64 * |words|
    ensures LowerAll(Jumpy(s, words)) == LowerAll(s)
  {
    forall i | 0 <= i < |s|
      ensures Lower(Jumpy(s, words)[i]) == Lower(s[i])
    {
      JumpyAt(s, words, i);
      if IsLetter(s[i]) {
        ToggleFacts(s[i]);
      }
    }
  }

  /** Flipping keeps every letter a letter, so the letter count is unchanged. */
  lemma {:induction false} JumpyLetterCount(s: string, words: seq<Word>)
    requires LetterCount(s) <= 64 * |words|
    ensures LetterCount(Jumpy(s, words)) == LetterCount(s)
  {
    if s != [] {
      var init, c := s[..|s| - 1], s[|s| - 1];
      var r := Jumpy(s, words);
      var f := FlipAt(c, LetterCount(init), words);
      assert r[..|r| - 1] == Jumpy(init, words) && r[|r| - 1] == f;
      assert IsLetter(f) == IsLetter(c) by {
        if IsLetter(c) {
          ToggleFacts(c);
        }
      }
      JumpyLetterCount(init, words);
    }
  }

  /**
   * The same words applied a second time undo the first pass: each letter
   * keeps its position in the letter count and so meets the same bit.
   */
  lemma {:induction false} JumpyTwice(s: string, words: seq<Word>)
    requires LetterCount(s) <= 64 * |words|
    ensures LetterCount(Jumpy(s, words)) <= 64 * |words|
    ensures Jumpy(Jumpy(s, words), words) == s
  {
    JumpyLetterCount(s, words);
    if s != [] {
      var init, c := s[..|s| - 1], s[|s| - 1];
      var r := Jumpy(s, words);
      assert r[..|r| - 1] == Jumpy(init, words);
      JumpyTwice(init, words);
      JumpyLetterCount(init, words);
      if IsLetter(c) {
        ToggleFacts(c);
      }
      assert s == init + [c];
    }
  }

  /** A text has at most as many letters as runes. */
  lemma {:induction false} LetterCountAtMost(s: string)
    ensures LetterCount(s) <= |s|
  {
    if s != [] {
      LetterCountAtMost(s[..|s| - 1]);
    }
  }

  /**
   * The empty query is answered with the pangram in random case: one word
   * covers its letters, and the answer is the pangram up to case.
   */
  lemma RandomizeCaseOfEmpty(words: seq<Word>)
    requires |words| >= 1
    ensures LetterCount(Default) <= 64 * |words|
    ensures LowerAll(RandomizeCaseOf("", words))
         == LowerAll("The quick brown fox jumps over the lazy dog.")
  {
    LetterCountAtMost(Default);
    JumpyLowerEqual(Default, words);
  }
}

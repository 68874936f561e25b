// generateMe and repeat: the two transforms that only format the text.
module Format {
  import opened Text

  /** The text generateMe uses when the query is empty. */
  const MeDefault: string := "doesn't know what to say. \U{1F910}"

  /** The text repeat uses when the query is empty. */
  const RepeatDefault: string := "I repeat!"

  /**
   * generateMe(from, s), inline.go:175-181: the "/me" line "* <first name> <text>".
   * The sender is reduced to the first name, the only field it reads.
   */
  function GenerateMe(firstName: string, s: string): (r: string)
    ensures |r| == |firstName| + |WithDefault(s, MeDefault)| + 3
    ensures r[0] == '*' && r[1] == ' ' && r[|firstName| + 2] == ' '
  {
    "* " + firstName + " " + WithDefault(s, MeDefault)
  }

  /** The name sits between the two leading runes and a space; the text fills the rest. */
  lemma GenerateMeParts(firstName: string, s: string)
    ensures var r := GenerateMe(firstName, s);
      r[2..|firstName| + 2] == firstName && r[|firstName| + 3..] == WithDefault(s, MeDefault)
  {
  }

  /** The sender's name and the text can be read back from the message. */
  lemma GenerateMeInjective(firstName: string, s1: string, s2: string)
    requires s1 != "" && s2 != ""
    requires GenerateMe(firstName, s1) == GenerateMe(firstName, s2)
    ensures s1 == s2
  {
    GenerateMeParts(firstName, s1);
    GenerateMeParts(firstName, s2);
  }

  lemma GenerateMeExample()
    ensures GenerateMe("Alice", "is testing") == "* Alice is testing"
  {
    assert GenerateMe("Alice", "is testing") == "* " + "Alice" + " " + "is testing";
  }

  /** An empty query makes the sender admit to having nothing to say. */
  lemma GenerateMeEmpty()
    ensures GenerateMe("Bob", "") == "* Bob " + MeDefault
  {
    assert "* " + "Bob" + " " == "* Bob ";
  }

  /** repeat(s), inline.go:184-190: three copies of the text on three lines. */
  function Repeat(s: string): (r: string)
    ensures |r| == 3 * |WithDefault(s, RepeatDefault)| + 2
  {
    var t := WithDefault(s, RepeatDefault);
    t + "\n" + t + "\n" + t
  }

  /**
   * The message is the text, a line break, and then the same again: every
   * rune recurs |t| + 1 positions later.
   */
  lemma RepeatPeriodic(s: string)
    ensures var t := WithDefault(s, RepeatDefault); var r := Repeat(s);
      r[..|t|] == t && r[|t|] == '\n'
      && forall i :: 0 <= i < 2 * |t| + 1 ==> r[i + |t| + 1] == r[i]
  {
    var t := WithDefault(s, RepeatDefault);
    var r := Repeat(s);
    forall i | 0 <= i < 2 * |t| + 1 ensures r[i + |t| + 1] == r[i] {
      if i < |t| {
        assert r[i] == t[i] && r[i + |t| + 1] == t[i];
      } else if i > |t| {
        assert r[i] == t[i - |t| - 1] && r[i + |t| + 1] == t[i - |t| - 1];
      }
    }
  }

  /** How many times `c` occurs in `s`. */
  function Count(s: string, c: char): nat
  {
    if s == [] then 0 else (if s[0] == c then 1 else 0) + Count(s[1..], c)
  }

  lemma {:induction false} CountAppend(a: string, b: string, c: char)
    ensures Count(a + b, c) == Count(a, c) + Count(b, c)
  {
    if a == [] {
      assert a + b == b;
    } else {
      assert (a + b)[1..] == a[1..] + b;
      CountAppend(a[1..], b, c);
    }
  }

  /**
   * The repeated message has two line breaks more than three copies of the
   * text: exactly two more when the text itself has none.
   */
  lemma RepeatNewlines(s: string)
    ensures Count(Repeat(s), '\n') == 3 * Count(WithDefault(s, RepeatDefault), '\n') + 2
  {
    var t := WithDefault(s, RepeatDefault);
    assert Repeat(s) == t + "\n" + t + "\n" + t;
    CountAppend(t + "\n" + t + "\n", t, '\n');
    CountAppend(t + "\n" + t, "\n", '\n');
    CountAppend(t + "\n", t, '\n');
    CountAppend(t, "\n", '\n');
  }

  /** The index of the first line break in `s` at or after `i`, or |s|. */
  function LineEnd(s: string, i: nat): (k: nat)
    requires i <= |s|
    ensures i <= k <= |s| && (k == |s| || s[k] == '\n')
    ensures forall j :: i <= j < k ==> s[j] != '\n'
    decreases |s| - i
  {
    if i == |s| || s[i] == '\n' then i else LineEnd(s, i + 1)
  }

  /** `s` cut at every line break (strings.Split(s, "\n")). */
  function Lines(s: string): (r: seq<string>)
    ensures |r| >= 1
    decreases |s|
  {
    var k := LineEnd(s, 0);
    if k == |s| then [s] else [s[..k]] + Lines(s[k + 1..])
  }

  lemma {:induction false} LineEndPast(s: string, i: nat, k: nat)
    requires i <= k <= |s|
    requires forall j :: i <= j < k ==> s[j] != '\n'
    requires k == |s| || s[k] == '\n'
    ensures LineEnd(s, i) == k
    decreases k - i
  {
    if i < k {
      LineEndPast(s, i + 1, k);
    }
  }

  /** A line without breaks followed by a break is split off as the first line. */
  lemma LinesCons(a: string, b: string)
    requires '\n' !in a
    ensures Lines(a + "\n" + b) == [a] + Lines(b)
  {
    var s := a + "\n" + b;
    LineEndPast(s, 0, |a|);
    assert s[..|a|] == a && s[|a| + 1..] == b;
  }

  lemma LinesSingle(a: string)
    requires '\n' !in a
    ensures Lines(a) == [a]
  {
    LineEndPast(a, 0, |a|);
  }

  /** For a one-line text the message splits into exactly three copies of it. */
  lemma RepeatLines(s: string)
    requires '\n' !in WithDefault(s, RepeatDefault)
    ensures Lines(Repeat(s)) == var t := WithDefault(s, RepeatDefault); [t, t, t]
  {
    var t := WithDefault(s, RepeatDefault);
    var rest := t + "\n" + t;
    assert Lines(rest) == [t, t] by {
      LinesCons(t, t);
      LinesSingle(t);
    }
    assert Repeat(s) == t + "\n" + rest;
    LinesCons(t, rest);
  }

  lemma RepeatExample()
    ensures Repeat("hi") == "hi\nhi\nhi"
    ensures Repeat("") == "I repeat!\nI repeat!\nI repeat!"
  {
  }
}

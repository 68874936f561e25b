// addSpaces: every rune padded with spaces (one after an ASCII rune, one on
// each side of any other rune), then white space trimmed from both ends.
module Spaces {
  import opened Text

  /** The text used when the query is empty. */
  const Default: string := "\U{1F30C} I need some space!"

  /** What the builder receives for one rune. */
  function Pad(c: char): (r: string)
    ensures c as int <= 0x7F ==> r == [c, ' ']
    ensures c as int > 0x7F ==> r == [' ', c, ' ']
  {
    if c as int > 0x7F then [' ', c, ' '] else [c, ' ']
  }

  /** The builder's contents once every rune of `s` has been written. */
  function Padded(s: string): string
  {
    if s == [] then [] else Padded(s[..|s| - 1]) + Pad(s[|s| - 1])
  }

  /** The buffer is the concatenation of the runes' paddings. */
  lemma {:induction false} PaddedAppend(a: string, b: string)
    ensures Padded(a + b) == Padded(a) + Padded(b)
  {
    if b == [] {
      assert a + b == a;
    } else {
      var init := b[..|b| - 1];
      assert (a + b)[..|a + b| - 1] == a + init;
      assert (a + b)[|a + b| - 1] == b[|b| - 1];
      PaddedAppend(a, init);
    }
  }

  /** Padding adds only spaces: the buffer holds the other runes of `s`, in order. */
  lemma {:induction false} PaddedNonSpace(s: string)
    ensures NonSpace(Padded(s)) == NonSpace(s)
  {
    if s != [] {
      var init, c := s[..|s| - 1], s[|s| - 1];
      assert NonSpace(s) == NonSpace(init) + NonSpace([c]) by {
        assert s == init + [c];
        NonSpaceAppend(init, [c]);
      }
      assert NonSpace(Pad(c)) == NonSpace([c]) by {
        if c as int > 0x7F {
          assert Pad(c) == [' '] + ([c] + [' ']);
          NonSpaceAppend([' '], [c] + [' ']);
          NonSpaceAppend([c], [' ']);
        } else {
          assert Pad(c) == [c] + [' '];
          NonSpaceAppend([c], [' ']);
        }
      }
      PaddedNonSpace(init);
      NonSpaceAppend(Padded(init), Pad(c));
    }
  }

  /** addSpaces(s), inline.go:129-149. */
  function AddSpacesOf(s: string): string
  {
    TrimSpace(Padded(WithDefault(s, Default)))
  }

  method AddSpaces(s: string) returns (r: string)
    ensures r == AddSpacesOf(s)
    ensures NonSpace(r) == NonSpace(WithDefault(s, Default))
  {
    var t := s;
    if t == "" {
      t := Default;
    }
    var sb := "";
    for i := 0 to |t|
      invariant sb == Padded(t[..i])
    {
      var c := t[i];
      assert Padded(t[..i + 1]) == Padded(t[..i]) + Pad(c) by {
        assert t[..i + 1][..i] == t[..i];
      }
      if c as int > 0x7F {
        sb := sb + [' ', c, ' '];
      } else {
        sb := sb + [c, ' '];
      }
    }
    assert sb == Padded(t) by {
      assert t[..|t|] == t;
    }
    r := TrimSpace(sb);
    assert NonSpace(r) == NonSpace(t) by {
      PaddedNonSpace(t);
      TrimSpaceKeepsNonSpace(sb);
    }
  }

  /**
   * The result is empty exactly when the (defaulted) text holds nothing but
   * white space; the handler's Spaces+Repeat combo then falls back to
   * repeat's own default.
   */
  lemma AddSpacesEmptyIff(s: string)
    ensures AddSpacesOf(s) == [] <==> NonSpace(WithDefault(s, Default)) == []
  {
    var t := WithDefault(s, Default);
    var r := AddSpacesOf(s);
    PaddedNonSpace(t);
    TrimSpaceKeepsNonSpace(Padded(t));
    if r != [] {
      assert r == [r[0]] + r[1..];
      NonSpaceAppend([r[0]], r[1..]);
    }
  }

  /** Two ASCII runes in a row come out separated by exactly one space. */
  lemma AsciiPairOneSpace(a: string, x: char, y: char, b: string)
    requires x as int <= 0x7F && y as int <= 0x7F
    ensures Padded(a + [x, y] + b) == Padded(a) + [x, ' ', y, ' '] + Padded(b)
  {
    PaddedAscii2(x, y);
    PaddedAppend(a + [x, y], b);
    PaddedAppend(a, [x, y]);
  }

  /** A non-ASCII rune is written with a space on each side. */
  lemma NonAsciiFlanked(a: string, x: char, b: string)
    requires x as int > 0x7F
    ensures Padded(a + [x] + b) == Padded(a) + [' ', x, ' '] + Padded(b)
  {
    PaddedAppend(a + [x], b);
    PaddedAppend(a, [x]);
    assert Padded([x]) == Padded([]) + Pad(x);
  }

  /** A text that is not empty is padded as it is. */
  lemma AddSpacesOfText(t: string)
    requires t != []
    ensures AddSpacesOf(t) == TrimSpace(Padded(t))
  {
  }

  /** The buffer around two ASCII runes, split where trimming cannot reach. */
  lemma PaddedAsciiPair(a: string, x: char, y: char, b: string)
    requires x as int <= 0x7F && y as int <= 0x7F
    ensures Padded(a + [x, y] + b) == Padded(a) + [x, ' ', y] + ([' '] + Padded(b))
  {
    AsciiPairOneSpace(a, x, y, b);
    assert [x, ' ', y, ' '] == [x, ' ', y] + [' '];
    assert Padded(a) + ([x, ' ', y] + [' ']) + Padded(b) == Padded(a) + [x, ' ', y] + ([' '] + Padded(b));
  }

  /** The buffer around two non-ASCII runes, split where trimming cannot reach. */
  lemma PaddedNonAsciiPair(a: string, x: char, y: char, b: string)
    requires x as int > 0x7F && y as int > 0x7F
    ensures Padded(a + [x, y] + b) == (Padded(a) + [' ']) + [x, ' ', ' ', y] + ([' '] + Padded(b))
  {
    assert Padded([x, y]) == [' '] + [x, ' ', ' ', y] + [' '] by {
      assert [x, y][..1] == [x];
      assert [x][..0] == [];
      assert Padded([x]) == Pad(x) == [' ', x, ' '];
      assert Padded([x, y]) == Padded([x]) + Pad(y);
    }
    PaddedAppend(a + [x, y], b);
    PaddedAppend(a, [x, y]);
    Regroup(Padded(a), ' ', [x, ' ', ' ', y], ' ', Padded(b));
  }

  /** Moving the two runes at the ends of a middle part onto its neighbours. */
  lemma Regroup(p: string, c: char, m: string, d: char, q: string)
    ensures p + ([c] + m + [d]) + q == (p + [c]) + m + ([d] + q)
  {
  }

  /**
   * In what addSpaces returns, two ASCII runes in a row that are not white
   * space stand exactly one space apart, whatever surrounds them: only the
   * ends of the buffer are trimmed.
   */
  lemma AddSpacesAsciiPair(a: string, x: char, y: char, b: string)
    requires x as int <= 0x7F && y as int <= 0x7F && !IsSpace(x) && !IsSpace(y)
    ensures AddSpacesOf(a + [x, y] + b)
         == TrimLeft(Padded(a)) + [x, ' ', y] + TrimRight([' '] + Padded(b))
  {
    AddSpacesOfText(a + [x, y] + b);
    PaddedAsciiPair(a, x, y, b);
    TrimSpaceAround(Padded(a), [x, ' ', y], [' '] + Padded(b));
  }

  /**
   * Two non-ASCII runes in a row that are not white space stand exactly two
   * spaces apart in what addSpaces returns.
   */
  lemma AddSpacesNonAsciiPair(a: string, x: char, y: char, b: string)
    requires x as int > 0x7F && y as int > 0x7F && !IsSpace(x) && !IsSpace(y)
    ensures AddSpacesOf(a + [x, y] + b)
         == TrimLeft(Padded(a) + [' ']) + [x, ' ', ' ', y] + TrimRight([' '] + Padded(b))
  {
    AddSpacesOfText(a + [x, y] + b);
    PaddedNonAsciiPair(a, x, y, b);
    TrimSpaceAround(Padded(a) + [' '], [x, ' ', ' ', y], [' '] + Padded(b));
  }

  /** Two ASCII runes are written each followed by a space. */
  lemma PaddedAscii2(a: char, b: char)
    requires a as int <= 0x7F && b as int <= 0x7F
    ensures Padded([a, b]) == [a, ' ', b, ' ']
  {
    assert [a, b][..1] == [a];
    assert [a][..0] == [];
    assert Padded([a]) == Pad(a);
    assert Padded([a, b]) == Padded([a]) + Pad(b);
  }

  /** Five ASCII runes are written each followed by a space. */
  lemma PaddedAscii5(a: char, b: char, c: char, d: char, e: char)
    requires a as int <= 0x7F && b as int <= 0x7F && c as int <= 0x7F
    requires d as int <= 0x7F && e as int <= 0x7F
    ensures Padded([a, b, c, d, e]) == [a, ' ', b, ' ', c, ' ', d, ' ', e, ' ']
  {
    PaddedAscii2(a, b);
    assert [a, b, c][..2] == [a, b];
    assert Padded([a, b, c]) == Padded([a, b]) + Pad(c);
    assert [a, b, c, d][..3] == [a, b, c];
    assert Padded([a, b, c, d]) == Padded([a, b, c]) + Pad(d);
    assert [a, b, c, d, e][..4] == [a, b, c, d];
    assert Padded([a, b, c, d, e]) == Padded([a, b, c, d]) + Pad(e);
  }

  /** The buffer for the default's last word. */
  lemma PaddedWordSpace()
    ensures Padded(" space!") == "  s p a c e ! "
  {
    PaddedAscii5(' ', 's', 'p', 'a', 'c');
    PaddedAscii2('e', '!');
    assert " space!" == " spac" + "e!";
    PaddedAppend(" spac", "e!");
  }

  /** The default text, word by word. */
  lemma DefaultWords()
    ensures Default == "\U{1F30C}" + " I" + " need" + " some" + " space!"
  {
  }

  /** Padding five pieces in a row pads each in turn. */
  lemma PaddedFive(w0: string, w1: string, w2: string, w3: string, w4: string)
    ensures Padded(w0 + w1 + w2 + w3 + w4)
         == Padded(w0) + Padded(w1) + Padded(w2) + Padded(w3) + Padded(w4)
  {
    PaddedAppend(w0 + w1 + w2 + w3, w4);
    PaddedAppend(w0 + w1 + w2, w3);
    PaddedAppend(w0 + w1, w2);
    PaddedAppend(w0, w1);
  }

  /**
   * The empty query is answered with the default padded and trimmed: three
   * spaces between words, one between the letters of a word.
   */
  lemma AddSpacesOfEmpty()
    ensures AddSpacesOf("") == "\U{1F30C} " + "  I " + "  n e e d " + "  s o m e " + "  s p a c e !"
  {
    var p0, p1, p2, p3, p4 := "\U{1F30C} ", "  I ", "  n e e d ", "  s o m e ", "  s p a c e !";
    DefaultWords();
    PaddedFive("\U{1F30C}", " I", " need", " some", " space!");
    assert Padded("\U{1F30C}") == [' '] + p0 by {
      assert Padded("\U{1F30C}") == Padded([]) + Pad('\U{1F30C}');
    }
    PaddedAscii2(' ', 'I');
    PaddedAscii5(' ', 'n', 'e', 'e', 'd');
    PaddedAscii5(' ', 's', 'o', 'm', 'e');
    assert Padded(" space!") == p4 + [' '] by {
      PaddedWordSpace();
    }
    Regroup5(p0, p1, p2, p3, p4);
    TrimSpaceOfCore([' '], p0 + p1 + p2 + p3 + p4, [' ']);
  }

  /** The leading and trailing spaces of the padded default, set apart. */
  lemma Regroup5(p0: string, p1: string, p2: string, p3: string, p4: string)
    ensures ([' '] + p0) + p1 + p2 + p3 + (p4 + [' ']) == [' '] + (p0 + p1 + p2 + p3 + p4) + [' ']
  {
  }

  lemma AddSpacesAb()
    ensures AddSpacesOf("ab") == "a b"
  {
    assert Padded("ab") == "" + "a b" + " " by {
      assert "ab"[..1] == "a";
      assert "a"[..0] == [];
    }
    TrimSpaceOfCore("", "a b", " ");
  }

  /** One space after the ASCII 'a', a space on each side of 好, one after 'b'. */
  lemma AddSpacesMixed()
    ensures AddSpacesOf("a\U{597D}b") == "a  \U{597D} b"
  {
    var s := "a\U{597D}b";
    assert Padded(s) == "" + "a  \U{597D} b" + " " by {
      assert s[..2] == "a\U{597D}";
      assert "a\U{597D}"[..1] == "a";
      assert "a"[..0] == [];
    }
    TrimSpaceOfCore("", "a  \U{597D} b", " ");
  }
}

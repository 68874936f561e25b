// The inline-query handler: one query in, an answer with ten cards out, each
// card carrying one transform of the query's text.
module Inline {
  import opened Text
  import Spaces
  import JumpyCase
  import Typos
  import Format
  import Flip

  /** The sender, reduced to the one field the handler reads. */
  datatype User = User(firstName: string)

  datatype InlineQuery = InlineQuery(id: string, from: User, query: string)

  /** An update from the bot API; only its inline query matters here. */
  datatype Update = Update(inlineQuery: Option<InlineQuery>)

  /** One result card: the text sent when the user picks it is `messageText`. */
  datatype Article = Article(id: string, title: string, description: string, messageText: string)

  /** The call to answerInlineQuery, as a value. */
  datatype AnswerParams = AnswerParams(inlineQueryId: string, results: seq<Article>, cacheTime: int)

  /**
   * The random numbers one query consumes, grouped by the call that draws
   * them: words for the Jumpy Letters card, swap positions for the typo card,
   * the IntN(10) draw and the swap positions for the scramble card, and words
   * for the Random Case + Spaces combo.
   */
  datatype Draws = Draws(
    caseWords: seq<JumpyCase.Word>,
    typoPositions: seq<nat>,
    scrambleDraw: nat,
    scramblePositions: seq<nat>,
    comboCaseWords: seq<JumpyCase.Word>)

  /** The rounds of the scramble card: 10 + rand.IntN(10). */
  function ScrambleRounds(draw: nat): (r: nat)
    requires draw < 10
    ensures 10 <= r <= 19 && r - 10 == draw
  {
    10 + draw
  }

  /** Enough draws, each in the range its generator call gives, for every card. */
  predicate Supplies(text: string, d: Draws)
  {
    var letters := JumpyCase.LetterCount(WithDefault(text, JumpyCase.Default));
    && letters <= 64 * |d.caseWords|
    && letters <= 64 * |d.comboCaseWords|
    && Typos.Supplies(text, 1, d.typoPositions)
    && d.scrambleDraw < 10
    && Typos.Supplies(text, ScrambleRounds(d.scrambleDraw), d.scramblePositions)
  }

  const Ids: seq<string> := [
    "addSpaces", "randomizeCase", "createTypos", "scrambleLetters", "generateMe",
    "repeat", "reverse", "mirror", "comboSpacesRepeat", "comboRandomcaseSpaces"]

  const Titles: seq<string> := [
    "\U{1F30C} I need some space!",
    "\U{1F998} Jumpy Letters",
    "\U{270F}\U{FE0F} feat: add typo",
    "\U{270D}\U{FE0F} Scramble Letters",
    "\U{1F933} What the hell am I doing?",
    "\U{1F502} Can you repeat what I just said?",
    "\U{1F500} \U{4E0A}\U{6D77}\U{81EA}\U{6765}\U{6C34}",
    "\U{1FA9E} \U{4E0A}\U{6D77}\U{81EA}\U{6765}\U{6C34}\U{6765}\U{81EA}\U{6D77}\U{4E0A}",
    "\U{1F6E0}\U{FE0F} Combo: Spaces + Repeat",
    "\U{1F6E0}\U{FE0F} Combo: Random Case + Spaces"]

  const Descriptions: seq<string> := [
    "Add extra spaces between each character in the message.",
    "Randomly change letter case in the message.",
    "Randomly change the order of characters in the message.",
    "Recursively add typos.",
    "Tell everyone what you're doing (/me).",
    "Repeat the message three times.",
    "Reverse the order of characters in the message.",
    "Mirror the message in reverse order.",
    "Add extra spaces between each character. Then repeat the message three times.",
    "Randomly change letter case. Then add extra spaces between each character."]

  /** The ten cards in their fixed order, each with the message given for it. */
  function Cards(messages: seq<string>): (r: seq<Article>)
    requires |messages| == 10
    ensures |r| == 10
    ensures forall k :: 0 <= k < 10 ==>
      r[k] == Article(Ids[k], Titles[k], Descriptions[k], messages[k])
  {
    seq(10, k requires 0 <= k < 10 => Article(Ids[k], Titles[k], Descriptions[k], messages[k]))
  }

  /** What each card's message is, for a sender's first name, the query text and the draws. */
  function Messages(firstName: string, text: string, d: Draws): (r: seq<string>)
    requires Supplies(text, d)
    ensures |r| == 10
  {
    [ Spaces.AddSpacesOf(text),
      JumpyCase.RandomizeCaseOf(text, d.caseWords),
      Typos.CreateTyposOf(text, 1, d.typoPositions),
      Typos.CreateTyposOf(text, ScrambleRounds(d.scrambleDraw), d.scramblePositions),
      Format.GenerateMe(firstName, text),
      Format.Repeat(text),
      Flip.ReverseOf(text),
      Flip.MirrorOf(text),
      Format.Repeat(Spaces.AddSpacesOf(text)),
      Spaces.AddSpacesOf(JumpyCase.RandomizeCaseOf(text, d.comboCaseWords)) ]
  }

  /** The articles list of inline.go:32-113. */
  function Articles(firstName: string, text: string, d: Draws): seq<Article>
    requires Supplies(text, d)
  {
    Cards(Messages(firstName, text, d))
  }

  /** Every transform run on the query text, in the order the cards list them. */
  method RunTransforms(firstName: string, text: string, d: Draws) returns (messages: seq<string>)
    requires Supplies(text, d)
    ensures messages == Messages(firstName, text, d)
  {
    var spaced := Spaces.AddSpaces(text);
    var jumpy, _ := JumpyCase.RandomizeCase(text, d.caseWords);
    var typo, _ := Typos.CreateTypos(text, 1, d.typoPositions);
    var scrambled, _ := Typos.CreateTypos(text, ScrambleRounds(d.scrambleDraw), d.scramblePositions);
    var me := Format.GenerateMe(firstName, text);
    var repeated := Format.Repeat(text);
    var reversed := Flip.Reverse(text);
    var mirrored := Flip.Mirror(text);
    var spacedAgain := Spaces.AddSpaces(text);
    var spacesRepeat := Format.Repeat(spacedAgain);
    var jumpyAgain, _ := JumpyCase.RandomizeCase(text, d.comboCaseWords);
    var caseSpaces := Spaces.AddSpaces(jumpyAgain);
    messages := [spaced, jumpy, typo, scrambled, me, repeated, reversed, mirrored,
                 spacesRepeat, caseSpaces];
  }

  /** The results array of inline.go:115-118 filled card by card, answered with cache time 1. */
  method Answer(inlineQueryId: string, articles: seq<Article>) returns (params: AnswerParams)
    ensures params.inlineQueryId == inlineQueryId && params.cacheTime == 1
    ensures |params.results| == |articles|
    ensures forall k :: 0 <= k < |articles| ==> params.results[k] == articles[k]
  {
    var results := new Article[|articles|];
    for i := 0 to results.Length
      invariant forall k :: 0 <= k < i ==> results[k] == articles[k]
    {
      results[i] := articles[i];
    }
    params := AnswerParams(inlineQueryId, results[..], 1);
  }

  /**
   * The handler: no answer without an inline query; otherwise every transform
   * runs on the query text and the ten cards answer the query's ID with
   * cache time 1.
   */
  method Handle(update: Update, d: Draws) returns (answer: Option<AnswerParams>)
    requires update.inlineQuery.Some? ==> Supplies(update.inlineQuery.value.query, d)
    ensures update.inlineQuery.None? <==> answer.None?
    ensures update.inlineQuery.Some? ==>
      var q := update.inlineQuery.value;
      answer == Some(AnswerParams(q.id, Articles(q.from.firstName, q.query, d), 1))
  {
    if update.inlineQuery.None? {
      return None;
    }
    var q := update.inlineQuery.value;
    var messages := RunTransforms(q.from.firstName, q.query, d);
    var articles := Cards(messages);
    var params := Answer(q.id, articles);
    assert params.results == articles;
    answer := Some(params);
  }

  /** The cards come in the fixed order, and no two share an ID. */
  lemma CardIds(messages: seq<string>)
    requires |messages| == 10
    ensures var cards := Cards(messages);
      cards[0].id == "addSpaces" && cards[1].id == "randomizeCase"
      && cards[2].id == "createTypos" && cards[3].id == "scrambleLetters"
      && cards[4].id == "generateMe" && cards[5].id == "repeat"
      && cards[6].id == "reverse" && cards[7].id == "mirror"
      && cards[8].id == "comboSpacesRepeat" && cards[9].id == "comboRandomcaseSpaces"
    ensures var cards := Cards(messages);
      forall i, j :: 0 <= i < j < |cards| ==> cards[i].id != cards[j].id
  {
    var cards := Cards(messages);
    forall i, j | 0 <= i < j < 10 ensures cards[i].id != cards[j].id {
      IdsDiffer(i, j);
    }
  }

  /** The length of each ID; only "repeat" and "mirror" share one. */
  function IdLength(k: nat): nat
    requires k < 10
  {
    [9, 13, 11, 15, 10, 6, 7, 6, 17, 21][k]
  }

  lemma IdsDiffer(i: nat, j: nat)
    requires i < j < 10
    ensures Ids[i] != Ids[j]
  {
    if i == 5 && j == 7 {
      assert Ids[5][0] != Ids[7][0];
    } else {
      assert |Ids[i]| == IdLength(i) && |Ids[j]| == IdLength(j);
    }
  }

  /** The Spaces + Repeat combo repeats exactly what the addSpaces card sends. */
  lemma ComboSpacesRepeat(firstName: string, text: string, d: Draws)
    requires Supplies(text, d)
    ensures var m := Messages(firstName, text, d);
      m[8] == Format.Repeat(m[0])
  {
  }

  /**
   * A query of nothing but white space spaces out to nothing, so the
   * Spaces + Repeat combo falls back to repeat's own default.
   */
  lemma BlankQueryCombo(firstName: string, text: string, d: Draws)
    requires Supplies(text, d)
    requires text != "" && AllSpace(text)
    ensures var m := Messages(firstName, text, d);
      m[0] == "" && m[8] == Format.RepeatDefault + "\n" + Format.RepeatDefault + "\n" + Format.RepeatDefault
  {
    NonSpaceOfAllSpace(text);
    Spaces.AddSpacesEmptyIff(text);
  }

  /** b <= c scales: a * b <= a * c for a natural a. */
  lemma MulMono(a: nat, b: nat, c: nat)
    requires b <= c
    ensures a * b <= a * c
  {
    assert a * c - a * b == a * (c - b);
  }

  /**
   * The scramble card's step count lies between 10 and 19 * (1 + n/20). It is
   * the number of swaps for a text of two runes or more; a shorter text is
   * returned before any swap.
   */
  lemma ScrambleSwaps(text: string, d: Draws)
    requires Supplies(text, d)
    ensures var n := |WithDefault(text, Typos.Default)|;
      10 <= Typos.Steps(n, ScrambleRounds(d.scrambleDraw)) <= 19 * (1 + n / 20)
  {
    var n := |WithDefault(text, Typos.Default)|;
    var m := 1 + n / 20;
    MulMono(m, ScrambleRounds(d.scrambleDraw), 19);
  }
}

# cubic-spacy-bot inline transforms in Dafny

This project models the core of cubic-spacy-bot, a Telegram bot that answers
inline queries. For each query the bot builds ten result cards. Each card
carries one playful rewrite of the query text:

- padded with spaces;
- with random letter case;
- with random neighbour swaps (typos), once lightly and once heavily;
- as a "/me" line;
- repeated three times;
- reversed;
- mirrored;
- and two combinations of these.

Every transform first replaces an empty text with its own default.

Text is a sequence of Unicode scalar values. That is Go's `[]rune` view of a
string and Dafny's `string`.

The model has one module per group of transforms:

- `Text`: the shared vocabulary. It defines the default rule, Go's
  `unicode.IsSpace`, `strings.TrimSpace` (as two index scans), and reversal.
- `Spaces`: `addSpaces`. A method appends each rune's padding to a builder
  and then trims the result.
- `JumpyCase`: `randomizeCase`. A method walks an array of runes. It draws a
  64-bit word whenever its bits run out, and toggles bit 0x20 of a letter when
  the next bit is 1.
- `Typos`: `createTypos`. A method swaps neighbouring runes in an array.
- `Format`: `generateMe` and `repeat`. Both are pure formatting functions.
- `Flip`: `reverse` and `mirror`. `reverse` is an in-place two-index swap
  loop. `mirror` is a two-index copy loop over a fresh array of `2n - 1` runes.
- `Inline`: the handler. It holds the fixed list of ten cards and the answer
  with cache time 1.

Each method is proved against a pure function of its input, such as
`AddSpacesOf`, `RandomizeCaseOf`, `CreateTyposOf`, `ReverseOf` or
`MirrorOf`. Lemmas prove what the source promises about those functions.

Randomness is an explicit input:

- `randomizeCase` takes a sequence of 64-bit words and returns how many it
  used.
- `createTypos` takes a sequence of swap positions, each below `n - 1`, and
  returns how many it used.
- The scramble card's `rand.IntN(10)` is one number below 10.

Three consequences of the code are worth stating plainly:

- The handler builds ten cards (inline.go:32-113).
- `addSpaces("a好b")` is `"a  好 b"`. An ASCII rune gets one space after it,
  and 好 gets one space on each side. Two runes are therefore two spaces
  apart when the first is ASCII and the second is not, but only one space
  apart when the first is not ASCII and the second is.
- `repeat` adds exactly two line breaks only when the text has none of its
  own. In general, `Format.RepeatNewlines` shows the count is
  `3·count(text) + 2`.

## Model

| member | source | states |
|---|---|---|
| `Text.TrimSpace` | inline.go:148 | strings.TrimSpace: the result is no longer than the input and neither starts nor ends with a white-space rune |
| `Text.TrimSpaceOfCore` | inline.go:148 | white space around a core that has no white space at either end is cut back to exactly that core |
| `Text.TrimSpaceKeepsNonSpace` | inline.go:148 | trimming removes only white space: the non-space runes survive in order |
| `Text.TrimSpaceAround` | inline.go:148 | trimming reaches only into the ends: around a middle part that starts and ends with a non-space rune, the result is the prefix without its leading white space, the whole middle, and the suffix without its trailing white space |
| `Text.Reversed` | inline.go:232 | slices.Reverse: same length, and rune i of the result is rune n-1-i of the input |
| `Text.ReversedByIndex` | inline.go:232 | any sequence holding the input back to front, index by index, is its reversal |
| `Text.ReversedTwice` | inline.go:232 | reversing twice gives the input back |
| `Spaces.PaddedAppend` | inline.go:136-146 | the builder's contents are the concatenation of the runes' paddings |
| `Spaces.PaddedNonSpace` | inline.go:136-146 | padding adds only spaces: the buffer's non-space runes are the text's, in order |
| `Spaces.AddSpaces` | inline.go:129-149 | the builder loop followed by TrimSpace gives AddSpacesOf(s), and it keeps the (defaulted) text's non-space runes in order |
| `Spaces.AddSpacesEmptyIff` | inline.go:129-149 | the result is empty exactly when the defaulted text holds nothing but white space |
| `Spaces.AsciiPairOneSpace` | inline.go:143-145 | two ASCII runes in a row are separated by exactly one space in the buffer |
| `Spaces.NonAsciiFlanked` | inline.go:138-141 | a non-ASCII rune is written with one space on each side |
| `Spaces.AddSpacesAsciiPair` | inline.go:128-149 | in what addSpaces returns, two ASCII non-space runes in a row stand exactly one space apart, whatever surrounds them |
| `Spaces.AddSpacesNonAsciiPair` | inline.go:128-149 | in what addSpaces returns, two non-ASCII non-space runes in a row stand exactly two spaces apart, whatever surrounds them |
| `Spaces.AddSpacesOfEmpty` | inline.go:130-132 | an empty query is answered with the default padded and trimmed: "🌌   I   n e e d   s o m e   s p a c e !" |
| `Spaces.AddSpacesAb` | inline.go:129-149 | "ab" becomes "a b" |
| `Spaces.AddSpacesMixed` | inline.go:129-149 | "a好b" becomes "a  好 b" |
| `JumpyCase.SkipsExactlyNonLetters` | inline.go:206 | the test uint32(r\|0x20 - 'a') > 'z' - 'a' skips exactly the runes outside 'A'..'Z' and 'a'..'z' |
| `JumpyCase.Toggle` | inline.go:214-216 | r ^ 0x20 on a letter moves an upper-case letter up by 0x20 and a lower-case letter down by 0x20 |
| `JumpyCase.ToggleFacts` | inline.go:215 | a toggled letter is a letter, toggling twice restores it, and lower-casing cannot tell it from the original |
| `JumpyCase.Jumpy` | inline.go:205-220 | the rewritten runes have the same length as the text |
| `JumpyCase.JumpyAt` | inline.go:205-220 | rune i is toggled iff it is a letter and bit k mod 64 of word k/64 is 1, where k is the number of letters before it |
| `JumpyCase.Refill` | inline.go:210-211 | a fresh word is drawn exactly when no bit remains, and a word is still available then |
| `JumpyCase.ReadBit` | inline.go:214-219 | the bit read is bit k mod 64 of word k/64, and the shift and decrement ready the next letter |
| `JumpyCase.PassOver` | inline.go:206-207 | a skipped rune is unchanged and leaves the random state alone |
| `JumpyCase.DrawIfEmpty` | inline.go:206-212 | a rune that passes the test is a letter, and after the draw a bit is ready for it |
| `JumpyCase.ReadLetter` | inline.go:214-219 | a letter is toggled iff the low bit of ri is 1, and the state moves on by one letter |
| `JumpyCase.AllDrawn` | inline.go:210-211 | once k letters are read, exactly ⌈k/64⌉ words have been drawn |
| `JumpyCase.RandomizeCase` | inline.go:193-223 | the in-place loop computes RandomizeCaseOf(s, words) and draws exactly ⌈letters/64⌉ words |
| `JumpyCase.JumpyOnlyFlipsLetters` | inline.go:205-220 | a rune that is not a letter is unchanged; a letter is kept or has its case flipped |
| `JumpyCase.JumpyLowerEqual` | inline.go:205-220 | lower-casing the result and the text gives equal strings |
| `JumpyCase.JumpyLetterCount` | inline.go:205-220 | the result has as many letters as the text |
| `JumpyCase.JumpyTwice` | inline.go:205-220 | applying the same words a second time gives the text back |
| `JumpyCase.RandomizeCaseOfEmpty` | inline.go:194-196 | an empty query is answered with the pangram "The quick brown fox jumps over the lazy dog." up to case, and one random word covers all its letters |
| `Typos.Steps` | inline.go:163-165 | the loop count `times` = (1 + n/20)·rounds: with positive rounds it is at least `rounds`, under 20 runes it is exactly the rounds, and it is zero when rounds are not positive; it is the number of swaps only for texts of two runes or more, since a shorter text returns before the loop (that case is `CreateTyposShort`) |
| `Typos.Swap` | inline.go:168 | runes pos and pos+1 trade places and every other rune stays |
| `Typos.SwapPermutes` | inline.go:168 | a swap keeps the multiset of runes |
| `Typos.SwapWalk` | inline.go:167-171 | any walk of swaps keeps the length |
| `Typos.SwapWalkPermutes` | inline.go:167-171 | any walk of swaps keeps the multiset of runes |
| `Typos.SwapWalkStep` | inline.go:167-171 | one more position drawn is one more swap on top of the walk so far |
| `Typos.CreateTyposPermutes` | inline.go:152-172 | the typos keep the length and the multiset of runes of the defaulted text |
| `Typos.CreateTypos` | inline.go:152-172 | the in-place loop gives CreateTyposOf(s, rounds, positions) and draws (1 + n/20)·rounds positions, none below two runes |
| `Typos.SwapTwice` | inline.go:168 | a swap undoes itself |
| `Typos.SwapWalkAppend` | inline.go:167-171 | a walk split in two is the second part applied after the first |
| `Typos.SwapWalkUndone` | inline.go:167-171 | retracing the positions in reverse order restores the text, so no rune is lost or added |
| `Typos.CreateTyposShort` | inline.go:159-161 | a text of fewer than two runes comes back unchanged |
| `Typos.CreateTyposOneRound` | inline.go:165-171 | one round on a text under 20 runes is a single neighbour swap |
| `Typos.CreateTyposOfEmpty` | inline.go:153-155 | an empty query is answered with the runes of "✏️ feat: add typo" in some order, and with that text itself when there are no rounds |
| `Format.GenerateMe` | inline.go:175-181 | the message has \|name\| + \|text\| + 3 runes, starts with "* " and has a space after the name |
| `Format.GenerateMeParts` | inline.go:180 | the name sits between "* " and a space, and the defaulted text fills the rest |
| `Format.GenerateMeInjective` | inline.go:180 | for one sender, different non-empty texts give different messages |
| `Format.GenerateMeExample` | inline.go:180 | ("Alice", "is testing") gives "* Alice is testing" |
| `Format.GenerateMeEmpty` | inline.go:176-178 | an empty text from Bob gives "* Bob " followed by the fallback "doesn't know what to say. 🤐" |
| `Format.Repeat` | inline.go:184-190 | the message has 3·\|t\| + 2 runes for the defaulted text t |
| `Format.RepeatPeriodic` | inline.go:189 | the message starts with t and a line break, and every rune recurs \|t\| + 1 positions later |
| `Format.RepeatNewlines` | inline.go:189 | the message has 3·count(t) + 2 line breaks |
| `Format.RepeatLines` | inline.go:189 | a text without line breaks splits into exactly three copies of itself |
| `Format.RepeatExample` | inline.go:184-190 | "hi" gives "hi\nhi\nhi" and "" gives "I repeat!" three times |
| `Flip.Reverse` | inline.go:226-234 | the in-place swap loop gives ReverseOf(s), the defaulted text back to front |
| `Flip.ReverseTwice` | inline.go:226-234 | reversing a non-empty text twice gives it back |
| `Flip.ReverseOfEmpty` | inline.go:227-229 | an empty query gives 水来自海上 |
| `Flip.Mirror` | inline.go:237-251 | the copy and the two-index loop, which writes only at indices n and above, give MirrorOf(s) |
| `Flip.MirrorPalindrome` | inline.go:243-248 | the mirror has 2n - 1 runes, starts with the text and reads the same both ways |
| `Flip.MirrorIsTextThenReverse` | inline.go:237-251 | the mirror is the text followed by its reversal minus the shared middle rune |
| `Flip.MirrorOfEmpty` | inline.go:238-240 | an empty query gives 上海自来水来自海上 |
| `Flip.MirrorAbcd` | inline.go:237-251 | "ABCD" gives "ABCDCBA" |
| `Inline.ScrambleRounds` | inline.go:61 | the scramble card's rounds 10 + IntN(10) lie in 10..19 |
| `Inline.Messages` | inline.go:32-113 | there is one message per card, ten in all |
| `Inline.RunTransforms` | inline.go:37-109 | running every transform method on the query text gives exactly the card messages |
| `Inline.Answer` | inline.go:115-124 | the results array holds the cards in order, with the query's ID and cache time 1 |
| `Inline.Handle` | inline.go:17-126 | no inline query means no answer; otherwise the answer carries the query's ID, the ten cards and cache time 1 |
| `Inline.CardIds` | inline.go:32-113 | the cards come in the fixed order addSpaces … comboRandomcaseSpaces, and no two share an ID |
| `Inline.IdsDiffer` | inline.go:34-106 | the ten IDs are pairwise different |
| `Inline.ComboSpacesRepeat` | inline.go:101 | the Spaces + Repeat combo is repeat applied to the addSpaces card's message |
| `Inline.BlankQueryCombo` | inline.go:101 | a query of only white space spaces out to "", so the combo falls back to "I repeat!" three times |
| `Inline.ScrambleSwaps` | inline.go:61 | the scramble card's step count (1 + n/20)·(10 + draw) lies between 10 and 19·(1 + n/20); it is the swap count for texts of two runes or more, and a shorter text gets no swap |

## Left out

- main.go is not part of this model. It covers flag parsing, logger set-up,
  bot start-up with retries, signal handling and the webhook server: process
  plumbing with no text logic.
- The Telegram client library is not modelled. `bot.AnswerInlineQuery` becomes
  the returned `AnswerParams` value. `models.User` is reduced to the first
  name. An update is reduced to its optional inline query.
- math/rand is not modelled: uniformity, the "probability one half" reading
  and thread safety cannot be stated here.
- Inline.Draws: the generator's draws arrive as one stream per call site, not
  as one shared stream. The model therefore does not fix how the cards'
  draws interleave.
- UTF-8 decoding is not modelled. This covers `[]rune(s)`, `range s` and
  `string(runes)`, including the U+FFFD substitution for invalid bytes. Text
  is a sequence of Unicode scalar values from the start. So createTypos
  returning `s` rather than `string(runes)` for short texts makes no
  difference here.
- The debug log call at inline.go:25-30 is left out.
- The pointers taken at inline.go:115-118 are not modelled. Under Go 1.22
  loop semantics each points at its own copy of a card, so results are
  modelled as card values.
- Go's 64-bit `int` in `(1 + len/20) * rounds` is not modelled; integers are
  unbounded.
- JumpyCase.Word: `uint64` is a bounded integer. `ri&1 == 1` is modelled as
  parity and `ri >>= 1` as halving, which is what they compute on an unsigned
  word. The bit-level operators themselves are not modelled.
- `make` plus `copy` in mirror (inline.go:243-244) is one array initialiser,
  with zero runes above the copy.
- Text.IsSpace: Go's `unicode.IsSpace` is written out as its list of white
  space runes rather than derived from Unicode tables.

/**
 * Korean particle selection (src/utils/attatchParticle.ts).
 *
 * A precomposed Hangul syllable S (U+AC00 .. U+D7A3) encodes its leading
 * consonant, vowel and optional final consonant as
 *   S = SBase + (LIndex * VCount + VIndex) * TCount + TIndex
 * (section 3.12 of The Unicode Standard); TIndex = 0 means no final consonant.
 * The source computes `(code - 0xAC00) % 28 !== 0` on the last UTF-16 code
 * unit of the word, with JavaScript's truncating `%`, and applies it to any
 * character, Hangul or not.
 */
module Particle {
  import opened JsCore

  const SBase: int := 0xAC00
  const LCount: int := 19
  const VCount: int := 21
  const TCount: int := 28
  /** The last precomposed syllable, U+D7A3. */
  const SLast: int := SBase + LCount * VCount * TCount - 1

  /** The syllable with the given leading consonant, vowel and final consonant indices. */
  function Compose(l: nat, v: nat, t: nat): (c: char)
    requires l < LCount && v < VCount && t < TCount
    ensures SBase <= c as int <= SLast
  {
    (SBase + (l * VCount + v) * TCount + t) as char
  }

  /** TIndex of a precomposed syllable. */
  function TIndex(c: char): (t: nat)
    requires SBase <= c as int <= SLast
    ensures t < TCount
  {
    (c as int - SBase) % TCount
  }

  /**
   * `hasFinalConsonant` (lines 2-6).  For the empty word `charAt(-1)` is "",
   * its `charCodeAt(0)` is NaN, and `NaN - 0xac00) % 28 !== 0` holds.
   */
  predicate HasFinalConsonant(word: string) {
    word == [] || JsRem(LastCodeUnit(word) - SBase, TCount) != 0
  }

  /** The rule in Euclidean terms: the last code unit's offset from U+AC00 is not a multiple of 28. */
  lemma HasFinalConsonantRule(word: string)
    requires word != []
    ensures HasFinalConsonant(word) <==> (LastCodeUnit(word) - SBase) % TCount != 0
  {
    JsRemZeroIff(LastCodeUnit(word) - SBase, TCount);
  }

  /** Only the last character of the word matters. */
  lemma OnlyLastCharacterMatters(w1: string, w2: string)
    requires w1 != [] && w2 != [] && w1[|w1| - 1] == w2[|w2| - 1]
    ensures HasFinalConsonant(w1) <==> HasFinalConsonant(w2)
  {
  }

  /** For a word ending in a Hangul syllable the rule is exactly "TIndex is not 0". */
  lemma HangulFinalConsonant(word: string)
    requires word != [] && SBase <= word[|word| - 1] as int <= SLast
    ensures HasFinalConsonant(word) <==> TIndex(word[|word| - 1]) != 0
  {
    JsRemOfNatural(word[|word| - 1] as int - SBase, TCount);
  }

  /** A word ending in the syllable composed from (l, v, t) has a final consonant iff t is not 0. */
  lemma ComposedFinalConsonant(word: string, l: nat, v: nat, t: nat)
    requires l < LCount && v < VCount && t < TCount
    ensures HasFinalConsonant(word + [Compose(l, v, t)]) <==> t != 0
  {
    var w := word + [Compose(l, v, t)];
    assert w[|w| - 1] == Compose(l, v, t);
    HangulFinalConsonant(w);
    var k := l * VCount + v;
    assert (k * TCount + t) % TCount == t;
  }

  /** '가' (U+AC00) has no final consonant; '각' (U+AC01) has one; so does the empty word. */
  lemma Examples()
    ensures !HasFinalConsonant("가")
    ensures HasFinalConsonant("각")
    ensures HasFinalConsonant("")
  {
    assert "가"[0] as int == 0xAC00;
    assert "각"[0] as int == 0xAC01;
  }

  /** `getSubjectParticle` (lines 9-11): 이 after a final consonant, 가 otherwise. */
  function SubjectParticle(word: string): (p: string)
    ensures p == "이" || p == "가"
    ensures p == "이" <==> HasFinalConsonant(word)
  {
    if HasFinalConsonant(word) then "이" else "가"
  }

  /** `getObjectParticle` (lines 14-16): 을 after a final consonant, 를 otherwise. */
  function ObjectParticle(word: string): (p: string)
    ensures p == "을" || p == "를"
    ensures p == "을" <==> HasFinalConsonant(word)
  {
    if HasFinalConsonant(word) then "을" else "를"
  }

  /** The two particles always agree on whether the word has a final consonant. */
  lemma ParticlesAgree(word: string)
    ensures SubjectParticle(word) == "이" <==> ObjectParticle(word) == "을"
  {
  }
}

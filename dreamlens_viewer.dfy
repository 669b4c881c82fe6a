/** What src/components/DreamLens/DreamLensViewer.tsx renders from the submitted form data. */
module DreamLensViewer {
  import opened JsCore
  import opened DreamLensTypes
  import Particle

  /**
   * `getParticle` (lines 11-16), a second copy of the subject-particle rule
   * written out inline in the component.
   */
  function GetParticle(word: string): (p: string)
    ensures p == "이" || p == "가"
  {
    var isConsonantEnding := word == [] || JsRem(LastCodeUnit(word) - 0xAC00, 28) != 0;
    if isConsonantEnding then "이" else "가"
  }

  /** The inline copy picks the same particle as `getSubjectParticle`. */
  lemma GetParticleIsSubjectParticle(word: string)
    ensures GetParticle(word) == Particle.SubjectParticle(word)
  {
  }

  const HeaderTail: string := " 된 미래의 모습입니다."

  /** The header line (line 31): the dream, its subject particle, and the fixed tail. */
  function Header(dream: string): (h: string)
    ensures StartsWith(h, dream) && |h| == |dream| + 1 + |HeaderTail|
    ensures h[|dream|..] == "이" + HeaderTail <==> Particle.HasFinalConsonant(dream)
    ensures h[|dream|..] == "가" + HeaderTail <==> !Particle.HasFinalConsonant(dream)
  {
    var h := dream + GetParticle(dream) + HeaderTail;
    assert h[|dream|..] == GetParticle(dream) + HeaderTail;
    assert ("이" + HeaderTail)[0] != ("가" + HeaderTail)[0];
    h
  }

  /** One content card: a selected suggestion (lines 37-50) or the custom text (lines 52-66). */
  datatype ContentBlock = SuggestionBlock(text: string) | CustomTextBlock(text: string)

  /** The content cards: one per selected suggestion, in order, then one for the custom text if it is non-empty. */
  function ContentBlocks(data: FormData): (blocks: seq<ContentBlock>)
    ensures |blocks| == |data.selectedSuggestions| + (if data.customText != "" then 1 else 0)
    ensures forall i :: 0 <= i < |data.selectedSuggestions| ==> blocks[i] == SuggestionBlock(data.selectedSuggestions[i])
    ensures data.customText != "" ==> blocks[|blocks| - 1] == CustomTextBlock(data.customText)
    ensures forall b :: b in blocks && b.CustomTextBlock? ==> data.customText != "" && b == blocks[|blocks| - 1]
  {
    var suggestions := seq(|data.selectedSuggestions|, i requires 0 <= i < |data.selectedSuggestions| =>
      SuggestionBlock(data.selectedSuggestions[i]));
    suggestions + (if data.customText != "" then [CustomTextBlock(data.customText)] else [])
  }
}

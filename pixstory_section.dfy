/** What src/components/PixStory/PixStorySection.tsx renders from a finished story. */
module PixStorySection {
  import opened JsCore

  /** The story metadata (`FormData` of src/components/PixStory/types.ts). */
  datatype Metadata = Metadata(characterName: string, gender: string, genre: string)

  const DefaultTitle: string := "PixStory"
  const CaptionPlaceholder: string := "이미지에 대한 설명을 생성하고 있습니다..."

  /** The heading (line 17). */
  function Title(metadata: Option<Metadata>): (title: string)
    ensures metadata.None? ==> title == DefaultTitle
    ensures metadata.Some? ==> title == metadata.value.characterName + "의 " + metadata.value.genre + " 이야기"
  {
    match metadata
    case None => DefaultTitle
    case Some(m) => m.characterName + "의 " + m.genre + " 이야기"
  }

  /** A story with metadata never shows the default heading, whatever the name and genre. */
  lemma TitleWithMetadataIsNotDefault(m: Metadata)
    ensures Title(Some(m)) != DefaultTitle
  {
    var title := Title(Some(m));
    assert title[|m.characterName|] == '의';
    assert '의' !in DefaultTitle;
  }

  /** The novel paragraph (line 19): shown, with the novel, exactly when the novel is not empty. */
  function NovelParagraph(novel: string): (shown: Option<string>)
    ensures shown.Some? <==> novel != ""
    ensures shown.Some? ==> shown.value == novel
  {
    if novel != "" then Some(novel) else None
  }

  /** The two alternating layouts of line 30. */
  datatype Layout = FlexRow | FlexRowReverse

  /** One image section: the image, its layout and the text beside it. */
  datatype Section = Section(image: string, layout: Layout, caption: string)

  /** `captions[index] || placeholder` (line 43). */
  function CaptionShown(captions: map<nat, string>, index: nat): (text: string)
    ensures text != ""
    ensures index in captions && captions[index] != "" ==> text == captions[index]
    ensures !(index in captions && captions[index] != "") ==> text == CaptionPlaceholder
  {
    if index in captions && captions[index] != "" then captions[index] else CaptionPlaceholder
  }

  function LayoutAt(index: nat): Layout {
    if index % 2 == 0 then FlexRow else FlexRowReverse
  }

  /** The sections (lines 26-48): one per image, in image order. */
  function Sections(images: seq<string>, captions: map<nat, string>): (sections: seq<Section>)
    ensures |sections| == |images|
    ensures forall i :: 0 <= i < |images| ==>
              sections[i] == Section(images[i], LayoutAt(i), CaptionShown(captions, i))
  {
    seq(|images|, i requires 0 <= i < |images| => Section(images[i], LayoutAt(i), CaptionShown(captions, i)))
  }

  /** The layout alternates: the first section is a plain row and neighbours always differ. */
  lemma SectionsAlternate(images: seq<string>, captions: map<nat, string>)
    requires images != []
    ensures Sections(images, captions)[0].layout == FlexRow
    ensures forall i :: 0 <= i < |images| - 1 ==>
              Sections(images, captions)[i].layout != Sections(images, captions)[i + 1].layout
  {
    forall i | 0 <= i < |images| - 1
      ensures LayoutAt(i) != LayoutAt(i + 1)
    {
      assert (i + 1) % 2 != i % 2;
    }
  }

  /** Every section shows some text: its own caption once it is ready, otherwise the placeholder. */
  lemma SectionsAlwaysHaveText(images: seq<string>, captions: map<nat, string>)
    ensures forall s :: s in Sections(images, captions) ==> s.caption != ""
    ensures forall s :: s in Sections(images, captions) && s.caption != CaptionPlaceholder ==> s.caption in captions.Values
  {
    var sections := Sections(images, captions);
    forall s | s in sections && s.caption != CaptionPlaceholder
      ensures s.caption in captions.Values
    {
      var i :| 0 <= i < |sections| && sections[i] == s;
      assert i in captions && captions[i] == s.caption;
    }
  }
}

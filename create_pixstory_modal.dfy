/** The story-settings dialog of src/components/PixStory/CreatePixStoryModal.tsx. */
module CreatePixStoryModal {
  import opened JsCore

  /** The genre choices (lines 9-15). */
  const Genres: seq<string> := ["판타지", "SF", "로맨스", "미스터리", "모험"]
  /** The gender choices (line 17). */
  const Genders: seq<string> := ["남성", "여성"]

  const NameRequired: string := "주인공의 이름을 입력해주세요."

  /** A callback the dialog issues, in the order it issues them. */
  datatype Effect = Alert(message: string) | Submit(characterName: string, gender: string, genre: string) | Close

  /** The choice lists hold exactly five genres and two genders, none twice. */
  lemma ChoiceLists()
    ensures |Genres| == 5 && |Genders| == 2
    ensures forall i, j :: 0 <= i < j < |Genres| ==> Genres[i] != Genres[j]
    ensures Genders[0] != Genders[1]
  {
    assert Genders[0][0] != Genders[1][0];
    assert forall i, j :: 0 <= i < j < |Genres| ==> Genres[i][0] != Genres[j][0];
  }

  class CreatePixStoryDialog {
    var characterName: string
    var gender: string
    var genre: string

    /** Only listed choices can be selected. */
    predicate Valid()
      reads this
    {
      gender in Genders && genre in Genres
    }

    /** Lines 20-22: no name yet, the first gender and the first genre. */
    constructor ()
      ensures Valid()
      ensures characterName == "" && gender == "남성" && genre == "판타지"
    {
      characterName := "";
      gender := Genders[0];
      genre := Genres[0];
    }

    /** The name field (line 55). */
    method SetCharacterName(name: string)
      modifies this`characterName
      ensures characterName == name
    {
      characterName := name;
    }

    /** A gender radio button (line 73); its value is one of the listed genders. */
    method SetGender(choice: string)
      requires Valid() && choice in Genders
      modifies this`gender
      ensures Valid() && gender == choice
    {
      gender := choice;
    }

    /** The genre select (line 89); its value is one of the listed genres. */
    method SetGenre(choice: string)
      requires Valid() && choice in Genres
      modifies this`genre
      ensures Valid() && genre == choice
    {
      genre := choice;
    }

    /**
     * `handleSubmit` (lines 24-32): a blank name only raises the alert;
     * otherwise the dialog submits the name as typed, untrimmed, with the
     * gender and genre, and then closes.
     */
    method HandleSubmit() returns (effects: seq<Effect>)
      ensures IsBlank(characterName) ==> effects == [Alert(NameRequired)]
      ensures !IsBlank(characterName) ==> effects == [Submit(characterName, gender, genre), Close]
      ensures Close in effects <==> exists e :: e in effects && e.Submit?
    {
      if IsBlank(characterName) {
        return [Alert(NameRequired)];
      }
      effects := [Submit(characterName, gender, genre), Close];
      assert effects[0].Submit?;
    }
  }
}

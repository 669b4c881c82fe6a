/** The name dialog of src/components/DreamLens/CreateStoryModal.tsx. */
module CreateStoryModal {
  import opened JsCore

  /** The genre choices (line 5). */
  const Genres: seq<string> := ["판타지", "SF", "로맨스", "미스터리", "모험"]

  const NameRequired: string := "이름을 입력해주세요."

  /** A callback the dialog issues. */
  datatype Effect = Alert(message: string) | Submit(userName: string, genre: string) | Close

  class CreateStoryDialog {
    var userName: string
    var genre: string

    predicate Valid()
      reads this
    {
      genre in Genres
    }

    /** Lines 13-14: no name yet, the first genre. */
    constructor ()
      ensures Valid()
      ensures userName == "" && genre == "판타지"
    {
      userName := "";
      genre := Genres[0];
    }

    /** The name field (line 46). */
    method SetUserName(name: string)
      modifies this`userName
      ensures userName == name
    {
      userName := name;
    }

    /** The genre select (line 59). */
    method SetGenre(choice: string)
      requires Valid() && choice in Genres
      modifies this`genre
      ensures Valid() && genre == choice
    {
      genre := choice;
    }

    /**
     * `handleSubmit` (lines 16-23): a blank name only raises the alert;
     * otherwise the name as typed and the genre are submitted.  Unlike the
     * PixStory dialog, this one does not close itself.
     */
    method HandleSubmit() returns (effects: seq<Effect>)
      ensures IsBlank(userName) ==> effects == [Alert(NameRequired)]
      ensures !IsBlank(userName) ==> effects == [Submit(userName, genre)]
      ensures Close !in effects
    {
      if IsBlank(userName) {
        return [Alert(NameRequired)];
      }
      return [Submit(userName, genre)];
    }
  }
}

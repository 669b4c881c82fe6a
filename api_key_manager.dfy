/**
 * The sidebar editor for the OpenAI key and the user name
 * (src/components/Sidebar/APIKeyManager.tsx).  The stored values are the
 * two shared atoms of src/store/atoms.ts, both '' by default.
 */
module ApiKeyManager {
  import opened JsCore

  const NotSet: string := "Not set"
  const Bullets: string := "••••••••"

  /** `s.slice(-n)`: the last `n` characters, or all of a shorter string. */
  function LastChars(s: string, n: nat): (r: string)
    ensures |r| == if |s| < n then |s| else n
    ensures r == s[|s| - |r|..]
  {
    if |s| < n then s else s[|s| - n..]
  }

  /** The key display (line 135): eight bullets and the last four characters, or "Not set". */
  function MaskedKey(key: string): (shown: string)
    ensures key == "" ==> shown == NotSet
    ensures key != "" ==> StartsWith(shown, Bullets) && shown[|Bullets|..] == LastChars(key, 4)
  {
    if key != "" then Bullets + LastChars(key, 4) else NotSet
  }

  /** The mask shows at most four characters of the key, all from its end, and hides its length beyond that. */
  lemma MaskedKeyRevealsOnlyTheEnd(key: string)
    requires key != ""
    ensures |MaskedKey(key)| == |Bullets| + (if |key| < 4 then |key| else 4)
    ensures MaskedKey(key)[|Bullets|..] == key[|key| - (|MaskedKey(key)| - |Bullets|)..]
  {
    var tail := LastChars(key, 4);
    assert MaskedKey(key) == Bullets + tail;
    assert (Bullets + tail)[|Bullets|..] == tail;
  }

  /** A stored key is never shown as "Not set". */
  lemma MaskedKeyIsSet(key: string)
    requires key != ""
    ensures MaskedKey(key) != NotSet
  {
    assert |MaskedKey(key)| >= 8 && |NotSet| == 7;
  }

  /** Two keys with the same last four characters look the same. */
  lemma MaskedKeySameEnding(k1: string, k2: string)
    requires |k1| >= 4 && |k2| >= 4 && k1[|k1| - 4..] == k2[|k2| - 4..]
    ensures MaskedKey(k1) == MaskedKey(k2)
  {
  }

  /** The name display (line 85): `userName || 'Not set'`. */
  function NameDisplay(userName: string): (shown: string)
    ensures userName != "" ==> shown == userName
    ensures userName == "" ==> shown == NotSet
  {
    if userName != "" then userName else NotSet
  }

  class ApiKeyManager {
    /** The shared atoms. */
    var openAIKey: string
    var userName: string
    var isEditingKey: bool
    var isEditingName: bool
    var tempKey: string
    var tempName: string

    /** Lines 7-12: editing starts exactly for a value that is not set yet, and the drafts start as the stored values. */
    constructor (storedKey: string, storedName: string)
      ensures openAIKey == storedKey && userName == storedName
      ensures isEditingKey == (storedKey == "") && isEditingName == (storedName == "")
      ensures tempKey == storedKey && tempName == storedName
    {
      openAIKey := storedKey;
      userName := storedName;
      isEditingKey := storedKey == "";
      isEditingName := storedName == "";
      tempKey := storedKey;
      tempName := storedName;
    }

    /** `handleSaveKey` (lines 14-19): a draft that is not blank is stored trimmed and editing ends; a blank one changes nothing. */
    method SaveKey()
      modifies this`openAIKey, this`isEditingKey
      ensures !IsBlank(tempKey) ==> openAIKey == Trim(tempKey) && !isEditingKey
      ensures IsBlank(tempKey) ==> openAIKey == old(openAIKey) && isEditingKey == old(isEditingKey)
    {
      var trimmed := Trim(tempKey);
      if trimmed != [] {
        openAIKey := trimmed;
        isEditingKey := false;
      }
    }

    /** `handleSaveName` (lines 21-26), the same rule for the name. */
    method SaveName()
      modifies this`userName, this`isEditingName
      ensures !IsBlank(tempName) ==> userName == Trim(tempName) && !isEditingName
      ensures IsBlank(tempName) ==> userName == old(userName) && isEditingName == old(isEditingName)
    {
      var trimmed := Trim(tempName);
      if trimmed != [] {
        userName := trimmed;
        isEditingName := false;
      }
    }

    /** `handleCancelKey` (lines 28-31): the draft goes back to the stored key and editing ends. */
    method CancelKey()
      modifies this`tempKey, this`isEditingKey
      ensures tempKey == openAIKey && !isEditingKey
    {
      tempKey := openAIKey;
      isEditingKey := false;
    }

    /** `handleCancelName` (lines 33-36). */
    method CancelName()
      modifies this`tempName, this`isEditingName
      ensures tempName == userName && !isEditingName
    {
      tempName := userName;
      isEditingName := false;
    }

    /** The edit button of the key (line 100). */
    method EditKey()
      modifies this`isEditingKey
      ensures isEditingKey
    {
      isEditingKey := true;
    }

    /** The edit button of the name (line 50). */
    method EditName()
      modifies this`isEditingName
      ensures isEditingName
    {
      isEditingName := true;
    }

    /** The key input (line 113). */
    method TypeKey(text: string)
      modifies this`tempKey
      ensures tempKey == text
    {
      tempKey := text;
    }

    /** The name input (line 63). */
    method TypeName(text: string)
      modifies this`tempName
      ensures tempName == text
    {
      tempName := text;
    }
  }
}

/**
 * The pure parts of src/utils/openai.ts: the data-URL payload extraction,
 * the caption corpus, the job-actions validation, the DALL·E data-URL and
 * revised-prompt construction, and the way every generator turns what its
 * `try` block throws into the error it rethrows.
 *
 * The SDK calls themselves are not modelled: each generator takes the reply
 * of its call as a function of the request it would send, and `JSON.parse`
 * is a parameter too.
 */
module OpenAi {
  import opened JsCore

  // ---------------------------------------------------------------------------
  // getBase64FromDataUrl (lines 3-17)
  // ---------------------------------------------------------------------------

  const DataImagePrefix: string := "data:image/"
  const Base64Marker: string := "base64,"
  const ImageDataError: string := "이미지 데이터 처리에 실패했습니다."

  /**
   * The text between the first "base64," and the next one (or the end), for
   * a string that starts with "data:image/".  Both inner errors are caught
   * and replaced by one message.
   */
  function GetBase64FromDataUrl(dataUrl: string): (r: Result<string, string>)
    ensures r.Failure? ==> r.error == ImageDataError
    ensures !StartsWith(dataUrl, DataImagePrefix) ==> r.Failure?
    ensures IndexOf(dataUrl, Base64Marker, 0).None? ==> r.Failure?
    ensures r.Success? ==> StartsWith(dataUrl, DataImagePrefix) && r.value != ""
  {
    if !StartsWith(dataUrl, DataImagePrefix) then Failure(ImageDataError)
    else
      var pieces := Split(dataUrl, Base64Marker);
      if |pieces| < 2 || pieces[1] == "" then Failure(ImageDataError)
      else Success(pieces[1])
  }

  /**
   * What is returned is the text after the first marker up to the next
   * marker, or to the end when there is no other: it starts right after the
   * first marker, no marker starts inside it, and it is followed by a marker
   * unless it runs to the end.
   */
  lemma GetBase64Payload(dataUrl: string)
    requires GetBase64FromDataUrl(dataUrl).Success?
    ensures IndexOf(dataUrl, Base64Marker, 0).Some?
    ensures var rest := dataUrl[IndexOf(dataUrl, Base64Marker, 0).value + |Base64Marker|..];
            var payload := GetBase64FromDataUrl(dataUrl).value;
            && StartsWith(rest, payload)
            && (forall k :: 0 <= k < |payload| ==> !MatchAt(rest, Base64Marker, k))
            && (payload == rest || MatchAt(rest, Base64Marker, |payload|))
    ensures forall k :: !MatchAt(GetBase64FromDataUrl(dataUrl).value, Base64Marker, k)
  {
    var i := IndexOf(dataUrl, Base64Marker, 0).value;
    SplitHead(dataUrl[i + |Base64Marker|..], Base64Marker);
  }

  /**
   * For a string with the right prefix and a marker, extraction fails exactly
   * when nothing follows the first marker: the string ends there or another
   * marker comes straight after it.
   */
  lemma GetBase64Fails(dataUrl: string)
    requires StartsWith(dataUrl, DataImagePrefix) && IndexOf(dataUrl, Base64Marker, 0).Some?
    ensures var rest := dataUrl[IndexOf(dataUrl, Base64Marker, 0).value + |Base64Marker|..];
            GetBase64FromDataUrl(dataUrl).Failure? <==> rest == "" || StartsWith(rest, Base64Marker)
  {
    var rest := dataUrl[IndexOf(dataUrl, Base64Marker, 0).value + |Base64Marker|..];
    var head := Split(rest, Base64Marker)[0];
    if StartsWith(rest, Base64Marker) {
      assert MatchAt(rest, Base64Marker, 0);
      assert IndexOf(rest, Base64Marker, 0) == Some(0);
    }
    if head == "" && rest != "" {
      match IndexOf(rest, Base64Marker, 0)
      case None =>
      case Some(j) =>
        assert j == 0;
    }
  }

  /**
   * Round trip: a data URL "data:image/<subtype>base64,<payload>" (the
   * subtype with its parameters, e.g. "png;") gives the payload back when
   * neither part contains a comma.
   */
  lemma GetBase64RoundTrip(subtype: string, payload: string)
    requires ',' !in subtype && ',' !in payload && payload != ""
    ensures GetBase64FromDataUrl(DataImagePrefix + subtype + Base64Marker + payload) == Success(payload)
  {
    var p := DataImagePrefix + subtype;
    var s := p + Base64Marker + payload;
    assert ',' !in p;
    assert s[..|DataImagePrefix|] == DataImagePrefix;
    assert MatchAt(s, Base64Marker, |p|) by { assert s[|p|..|p| + |Base64Marker|] == Base64Marker; }
    forall k | 0 <= k < |p| ensures !MatchAt(s, Base64Marker, k) {
      if k + |Base64Marker| <= |s| {
        assert s[k..k + |Base64Marker|][6] == s[k + 6];
        if k + 6 < |p| {
          assert s[k + 6] == p[k + 6];
        } else {
          assert s[k + 6] == Base64Marker[k + 6 - |p|];
        }
      }
    }
    assert IndexOf(s, Base64Marker, 0) == Some(|p|);
    assert s[..|p|] == p && s[|p| + |Base64Marker|..] == payload;
    assert Base64Marker[6] == ',';
    NoMatchWithoutChar(payload, Base64Marker, ',');
    SplitWithoutMatch(payload, Base64Marker);
  }

  /** The base64 alphabet of section 4 of RFC 4648, with the pad character. */
  predicate IsBase64Char(c: char) {
    ('A' <= c <= 'Z') || ('a' <= c <= 'z') || ('0' <= c <= '9') || c == '+' || c == '/' || c == '='
  }

  const PngDataUrlPrefix: string := "data:image/png;base64,"

  /** A non-empty base64 text behind the PNG prefix is extracted unchanged. */
  lemma Base64PayloadRoundTrip(payload: string)
    requires payload != "" && forall i :: 0 <= i < |payload| ==> IsBase64Char(payload[i])
    ensures GetBase64FromDataUrl(PngDataUrlPrefix + payload) == Success(payload)
  {
    assert ',' !in payload by {
      forall i | 0 <= i < |payload| ensures payload[i] != ',' {
        assert IsBase64Char(payload[i]);
      }
    }
    assert PngDataUrlPrefix == DataImagePrefix + "png;" + Base64Marker;
    GetBase64RoundTrip("png;", payload);
  }

  // ---------------------------------------------------------------------------
  // Error wrapping
  // ---------------------------------------------------------------------------

  /** What a `catch` clause receives: an `Error` with its message, or any other thrown value. */
  datatype Thrown = ErrorThrown(message: string) | OtherThrown

  /** The outcome of an SDK call: its reply, or what it threw. */
  datatype Reply<T> = Replied(value: T) | Threw(thrown: Thrown)

  /**
   * The `catch` block shared by the four generators: an `Error` is rethrown
   * with the generator's prefix before its message, anything else as the
   * generator's fixed fallback message.
   */
  function Rethrow<T>(prefix: string, fallback: string, attempt: Result<T, Thrown>): (r: Result<T, string>)
    ensures r.Success? <==> attempt.Success?
    ensures r.Success? ==> r.value == attempt.value
    ensures r.Failure? ==> StartsWith(r.error, prefix) || r.error == fallback
  {
    match attempt
    case Success(v) => Success(v)
    case Failure(ErrorThrown(m)) => Failure(prefix + m)
    case Failure(OtherThrown) => Failure(fallback)
  }

  /** A prefixed message can never be mistaken for the fallback when the fallback does not start with the prefix. */
  lemma PrefixedIsNotFallback(prefix: string, fallback: string, m: string)
    requires !StartsWith(fallback, prefix)
    ensures prefix + m != fallback
  {
    if |prefix| <= |fallback| {
      assert (prefix + m)[..|prefix|] == prefix;
    }
  }

  /** `!x` for the optional message content of a reply: missing, null or empty. */
  predicate MissingText(content: Option<string>) {
    content.None? || content.value == ""
  }

  // ---------------------------------------------------------------------------
  // generateImageCaption (lines 19-68)
  // ---------------------------------------------------------------------------

  const JpegDataUrlPrefix: string := "data:image/jpeg;base64,"
  const CaptionPrefix: string := "캡션 생성 실패: "
  const CaptionFailed: string := "캡션 생성에 실패했습니다."

  /** The image URL of the caption request (line 47). */
  function CaptionImageUrl(imageBase64: string): (r: Result<string, string>)
    ensures r.Success? <==> GetBase64FromDataUrl(imageBase64).Success?
    ensures r.Failure? ==> r.error == ImageDataError
    ensures r.Success? ==> StartsWith(r.value, JpegDataUrlPrefix)
  {
    match GetBase64FromDataUrl(imageBase64)
    case Success(payload) => Success(JpegDataUrlPrefix + payload)
    case Failure(e) => Failure(e)
  }

  /** Whatever media type the input names, the request labels the payload as JPEG. */
  lemma CaptionUrlIsAlwaysJpeg(subtype: string, payload: string)
    requires ',' !in subtype && ',' !in payload && payload != ""
    ensures CaptionImageUrl(DataImagePrefix + subtype + Base64Marker + payload) == Success(JpegDataUrlPrefix + payload)
  {
    GetBase64RoundTrip(subtype, payload);
  }

  /** The body of the `try` block, with the SDK reply as a function of the image URL. */
  function CaptionAttempt(imageBase64: string, respond: string -> Reply<Option<string>>): Result<string, Thrown> {
    match CaptionImageUrl(imageBase64)
    case Failure(e) => Failure(ErrorThrown(e))
    case Success(url) =>
      match respond(url)
      case Threw(t) => Failure(t)
      case Replied(content) =>
        if MissingText(content) then Failure(ErrorThrown(CaptionFailed)) else Success(content.value)
  }

  /** `generateImageCaption`: the caption the model replied with, or a wrapped error. */
  function GenerateImageCaption(imageBase64: string, respond: string -> Reply<Option<string>>): (r: Result<string, string>)
    ensures r.Success? <==> CaptionImageUrl(imageBase64).Success?
                            && respond(CaptionImageUrl(imageBase64).value).Replied?
                            && !MissingText(respond(CaptionImageUrl(imageBase64).value).value)
    ensures r.Success? ==> r.value == respond(CaptionImageUrl(imageBase64).value).value.value
    ensures r.Failure? ==> StartsWith(r.error, CaptionPrefix) || r.error == CaptionFailed
  {
    Rethrow(CaptionPrefix, CaptionFailed, CaptionAttempt(imageBase64, respond))
  }

  /**
   * The messages a caption failure can carry: a bad data URL and an empty
   * reply both surface with the prefix (the inner `throw` is caught by the
   * same `catch`), and the bare fallback only appears when the SDK throws
   * something that is not an `Error`.
   */
  lemma CaptionErrors(imageBase64: string, respond: string -> Reply<Option<string>>)
    ensures GetBase64FromDataUrl(imageBase64).Failure? ==>
              GenerateImageCaption(imageBase64, respond) == Failure(CaptionPrefix + ImageDataError)
    ensures CaptionImageUrl(imageBase64).Success? && respond(CaptionImageUrl(imageBase64).value).Replied?
            && MissingText(respond(CaptionImageUrl(imageBase64).value).value) ==>
              GenerateImageCaption(imageBase64, respond) == Failure(CaptionPrefix + CaptionFailed)
    ensures GenerateImageCaption(imageBase64, respond) == Failure(CaptionFailed) <==>
              CaptionImageUrl(imageBase64).Success? && respond(CaptionImageUrl(imageBase64).value) == Threw(OtherThrown)
  {
    assert CaptionFailed[5] != CaptionPrefix[5];
    var attempt := CaptionAttempt(imageBase64, respond);
    if attempt.Failure? && attempt.error.ErrorThrown? {
      PrefixedIsNotFallback(CaptionPrefix, CaptionFailed, attempt.error.message);
    }
  }

  // ---------------------------------------------------------------------------
  // generatePixStoryNovel (lines 70-133)
  // ---------------------------------------------------------------------------

  predicate IsLeast(m: nat, keys: set<nat>) {
    m in keys && forall k :: k in keys ==> m <= k
  }

  /** Every non-empty set of natural numbers has a least element. */
  lemma {:induction false} LeastKeyExists(keys: set<nat>)
    requires keys != {}
    ensures exists m :: IsLeast(m, keys)
    decreases keys
  {
    var x :| x in keys;
    var rest := keys - {x};
    assert keys == rest + {x};
    if rest == {} {
      assert IsLeast(x, keys);
    } else {
      LeastKeyExists(rest);
      var y :| IsLeast(y, rest);
      var m := if x < y then x else y;
      assert forall k :: k in keys ==> k == x || k in rest;
      assert IsLeast(m, keys);
    }
  }

  /** The smallest key of a non-empty key set. */
  function MinKey(keys: set<nat>): (m: nat)
    requires keys != {}
    ensures m in keys && forall k :: k in keys ==> m <= k
  {
    LeastKeyExists(keys);
    var m :| IsLeast(m, keys);
    m
  }

  /**
   * The keys of the captions object as `Object.entries` lists them: integer
   * keys come in ascending numeric order.
   */
  function SortedKeys(keys: set<nat>): (ks: seq<nat>)
    ensures forall i, j :: 0 <= i < j < |ks| ==> ks[i] < ks[j]
    ensures forall k :: k in keys <==> k in ks
    ensures |ks| == |keys|
    decreases keys
  {
    if keys == {} then []
    else
      var k := MinKey(keys);
      var rest := SortedKeys(keys - {k});
      assert forall j :: 0 <= j < |rest| ==> k < rest[j];
      [k] + rest
  }

  /** One corpus line (line 86): the one-based image number, then the caption. */
  function CaptionLine(key: nat, caption: string): string {
    NatToString(key + 1) + "번째 이미지: " + caption
  }

  /** The corpus lines, one per caption, in ascending key order. */
  function CorpusLines(captions: map<nat, string>): (lines: seq<string>)
    ensures |lines| == |captions|
  {
    var ks := SortedKeys(captions.Keys);
    seq(|ks|, i requires 0 <= i < |ks| => CaptionLine(ks[i], captions[ks[i]]))
  }

  /** `captionCorpus` (lines 85-87). */
  function CaptionCorpus(captions: map<nat, string>): string {
    Join(CorpusLines(captions), "\n")
  }

  /** A caption line has a line break only if its caption has one. */
  lemma CaptionLineHasNoBreak(key: nat, caption: string)
    requires '\n' !in caption
    ensures '\n' !in CaptionLine(key, caption)
  {
    var digits := NatToString(key + 1);
    forall j | 0 <= j < |digits| ensures digits[j] != '\n' {
      assert IsDigit(digits[j]);
    }
  }

  /**
   * When no caption contains a line break, the corpus splits back into
   * exactly its lines: one per caption, the i-th numbering the i-th smallest
   * key plus one.
   */
  lemma CaptionCorpusLines(captions: map<nat, string>)
    requires captions != map[]
    requires forall k :: k in captions ==> '\n' !in captions[k]
    ensures Split(CaptionCorpus(captions), "\n") == CorpusLines(captions)
    ensures forall i :: 0 <= i < |captions| ==>
              var k := SortedKeys(captions.Keys)[i]; CorpusLines(captions)[i] == CaptionLine(k, captions[k])
  {
    var ks := SortedKeys(captions.Keys);
    var lines := CorpusLines(captions);
    forall i | 0 <= i < |lines| ensures '\n' !in lines[i] {
      CaptionLineHasNoBreak(ks[i], captions[ks[i]]);
    }
    assert "\n" == ['\n'];
    assert lines != [] by { assert |lines| == |captions| > 0 by { assert ks[0] in captions; } }
    SplitJoin(lines, '\n');
  }

  /** With no captions the corpus is empty. */
  lemma EmptyCorpus()
    ensures CaptionCorpus(map[]) == ""
  {
  }

  /** What the novel request carries besides its fixed wording (lines 89-109). */
  datatype NovelRequest = NovelRequest(characterName: string, genre: string, captionCorpus: string)

  const NovelPrefix: string := "스토리 생성 실패: "
  const NovelFailed: string := "스토리 생성에 실패했습니다."

  function NovelAttempt(request: NovelRequest, respond: NovelRequest -> Reply<Option<string>>): Result<string, Thrown> {
    match respond(request)
    case Threw(t) => Failure(t)
    case Replied(content) =>
      if MissingText(content) then Failure(ErrorThrown(NovelFailed)) else Success(content.value)
  }

  /** `generatePixStoryNovel`: the story the model replied with, or a wrapped error. */
  function GeneratePixStoryNovel(captions: map<nat, string>, characterName: string, genre: string,
                                 respond: NovelRequest -> Reply<Option<string>>): (r: Result<string, string>)
    ensures var request := NovelRequest(characterName, genre, CaptionCorpus(captions));
            (r.Success? <==> respond(request).Replied? && !MissingText(respond(request).value))
            && (r.Success? ==> r.value == respond(request).value.value)
    ensures r.Failure? ==> StartsWith(r.error, NovelPrefix) || r.error == NovelFailed
  {
    Rethrow(NovelPrefix, NovelFailed, NovelAttempt(NovelRequest(characterName, genre, CaptionCorpus(captions)), respond))
  }

  /** The novel error messages: an empty reply is wrapped, and the bare fallback comes only from a non-`Error` throw. */
  lemma NovelErrors(captions: map<nat, string>, characterName: string, genre: string,
                    respond: NovelRequest -> Reply<Option<string>>)
    ensures var request := NovelRequest(characterName, genre, CaptionCorpus(captions));
            respond(request).Replied? && MissingText(respond(request).value) ==>
              GeneratePixStoryNovel(captions, characterName, genre, respond) == Failure(NovelPrefix + NovelFailed)
    ensures var request := NovelRequest(characterName, genre, CaptionCorpus(captions));
            GeneratePixStoryNovel(captions, characterName, genre, respond) == Failure(NovelFailed) <==>
              respond(request) == Threw(OtherThrown)
  {
    var attempt := NovelAttempt(NovelRequest(characterName, genre, CaptionCorpus(captions)), respond);
    assert NovelFailed[6] != NovelPrefix[6];
    if attempt.Failure? && attempt.error.ErrorThrown? {
      PrefixedIsNotFallback(NovelPrefix, NovelFailed, attempt.error.message);
    }
  }

  // ---------------------------------------------------------------------------
  // generateJobActions (lines 135-198)
  // ---------------------------------------------------------------------------

  /** A value `JSON.parse` can produce (numbers restricted to integers). */
  datatype Json =
    | JNull
    | JBool(b: bool)
    | JNumber(n: int)
    | JString(s: string)
    | JArray(elements: seq<Json>)
    | JObject(members: seq<(string, Json)>)

  /** A member of a parsed object; with duplicate names the last one wins. */
  function Member(members: seq<(string, Json)>, name: string): Option<Json>
    decreases |members|
  {
    if members == [] then None
    else if members[|members| - 1].0 == name then Some(members[|members| - 1].1)
    else Member(members[..|members| - 1], name)
  }

  /** `v.name` on a non-null value: only objects have the members read here. */
  function Property(v: Json, name: string): Option<Json>
    requires !v.JNull?
  {
    if v.JObject? then Member(v.members, name) else None
  }

  /** JavaScript truthiness of a property value, with `None` for `undefined`. */
  predicate Truthy(v: Option<Json>) {
    match v
    case None => false
    case Some(JNull) => false
    case Some(JBool(b)) => b
    case Some(JNumber(n)) => n != 0
    case Some(JString(s)) => s != ""
    case Some(JArray(_)) => true
    case Some(JObject(_)) => true
  }

  /** The shape the validation at lines 186-188 accepts. */
  predicate IsJobActionsResponse(v: Json) {
    v.JObject? && Truthy(Member(v.members, "job_title"))
    && Member(v.members, "actions").Some? && Member(v.members, "actions").value.JArray?
    && |Member(v.members, "actions").value.elements| > 0
  }

  const JobActionsPrefix: string := "직업 행동 생성 실패: "
  const JobActionsFailed: string := "직업 행동 생성에 실패했습니다."
  const InvalidResponse: string := "잘못된 응답 형식입니다."
  /** The TypeError V8 raises for `result.job_title` when the reply parses to `null`. */
  const NullJobTitle: string := "Cannot read properties of null (reading 'job_title')"

  /** Lines 186-188: reading `job_title` of `null` throws; otherwise the three checks short-circuit in order. */
  function ValidateJobActions(result: Json): (r: Result<Json, Thrown>)
    ensures r.Success? <==> IsJobActionsResponse(result)
    ensures r.Success? ==> r.value == result
    ensures r.Failure? ==> r.error == ErrorThrown(if result.JNull? then NullJobTitle else InvalidResponse)
  {
    if result.JNull? then Failure(ErrorThrown(NullJobTitle))
    else if !Truthy(Property(result, "job_title")) then Failure(ErrorThrown(InvalidResponse))
    else
      var actions := Property(result, "actions");
      if !(actions.Some? && actions.value.JArray?) || |actions.value.elements| == 0 then Failure(ErrorThrown(InvalidResponse))
      else Success(result)
  }

  function JobActionsAttempt(jobTitle: string, respond: string -> Reply<Option<string>>,
                             parse: string -> Result<Json, string>): Result<Json, Thrown> {
    match respond(jobTitle)
    case Threw(t) => Failure(t)
    case Replied(content) =>
      if MissingText(content) then Failure(ErrorThrown(JobActionsFailed))
      else
        match parse(content.value)
        case Failure(syntaxError) => Failure(ErrorThrown(syntaxError))
        case Success(result) => ValidateJobActions(result)
  }

  /**
   * `generateJobActions`: the parsed reply when it has a truthy `job_title`
   * and a non-empty `actions` array; otherwise a wrapped error.  The parsed
   * object is returned as it is: nothing checks that the actions are strings.
   */
  function GenerateJobActions(jobTitle: string, respond: string -> Reply<Option<string>>,
                              parse: string -> Result<Json, string>): (r: Result<Json, string>)
    ensures r.Success? <==> respond(jobTitle).Replied? && !MissingText(respond(jobTitle).value)
                            && parse(respond(jobTitle).value.value).Success?
                            && IsJobActionsResponse(parse(respond(jobTitle).value.value).value)
    ensures r.Success? ==> r.value == parse(respond(jobTitle).value.value).value
    ensures r.Failure? ==> StartsWith(r.error, JobActionsPrefix) || r.error == JobActionsFailed
  {
    Rethrow(JobActionsPrefix, JobActionsFailed, JobActionsAttempt(jobTitle, respond, parse))
  }

  /** A reply that parses to an object of the wrong shape is rejected with the format message. */
  lemma JobActionsRejectsBadShape(jobTitle: string, respond: string -> Reply<Option<string>>,
                                  parse: string -> Result<Json, string>)
    requires respond(jobTitle).Replied? && !MissingText(respond(jobTitle).value)
    requires parse(respond(jobTitle).value.value).Success?
    requires var v := parse(respond(jobTitle).value.value).value; !v.JNull? && !IsJobActionsResponse(v)
    ensures GenerateJobActions(jobTitle, respond, parse) == Failure(JobActionsPrefix + InvalidResponse)
  {
  }

  /** An empty job title or an empty actions array is rejected, whatever else the object holds. */
  lemma JobActionsShapeExamples(title: Json, actions: Json)
    ensures !IsJobActionsResponse(JObject([("job_title", JString("")), ("actions", actions)]))
    ensures !IsJobActionsResponse(JObject([("job_title", title), ("actions", JArray([]))]))
    ensures !IsJobActionsResponse(JObject([("job_title", title), ("actions", JString("a"))]))
    ensures IsJobActionsResponse(JObject([("job_title", JString("a")), ("actions", JArray([JString("b")]))]))
  {
    var members := [("job_title", JString("")), ("actions", actions)];
    assert "actions"[0] != "job_title"[0];
    assert members[..1] == [("job_title", JString(""))];
    assert Member(members, "job_title") == Some(JString(""));
  }

  // ---------------------------------------------------------------------------
  // generateDalle3Image (lines 200-239)
  // ---------------------------------------------------------------------------

  const PromptSuffix: string := ". The image should be photorealistic and high quality."
  const DallePrefix: string := "이미지 생성 실패: "
  const DalleFailed: string := "이미지 생성에 실패했습니다."

  /** `response.data[0]`: its base64 image and the prompt as the model revised it, each possibly absent. */
  datatype ImageDatum = ImageDatum(b64Json: Option<string>, revisedPrompt: Option<string>)

  /** The value `generateDalle3Image` resolves to. */
  datatype GeneratedImage = GeneratedImage(url: string, revisedPrompt: string)

  /** The prompt sent to the model (line 213). */
  function DallePrompt(prompt: string): (p: string)
    ensures StartsWith(p, prompt) && p[|prompt|..] == PromptSuffix
  {
    prompt + PromptSuffix
  }

  /** `revised_prompt || prompt` (line 230). */
  function RevisedPromptOr(revised: Option<string>, prompt: string): (p: string)
    ensures p == prompt || (revised.Some? && p == revised.value && p != "")
    ensures p == prompt <== MissingText(revised)
  {
    if MissingText(revised) then prompt else revised.value
  }

  function DalleAttempt(prompt: string, respond: string -> Reply<Option<ImageDatum>>): Result<GeneratedImage, Thrown> {
    match respond(DallePrompt(prompt))
    case Threw(t) => Failure(t)
    case Replied(datum) =>
      if datum.None? || MissingText(datum.value.b64Json) then Failure(ErrorThrown(DalleFailed))
      else
        var dataUrl := PngDataUrlPrefix + datum.value.b64Json.value;
        Success(GeneratedImage(dataUrl, RevisedPromptOr(datum.value.revisedPrompt, prompt)))
  }

  /** `generateDalle3Image`: a PNG data URL of the returned image and the revised prompt, or a wrapped error. */
  function GenerateDalle3Image(prompt: string, respond: string -> Reply<Option<ImageDatum>>): (r: Result<GeneratedImage, string>)
    ensures var reply := respond(DallePrompt(prompt));
            r.Success? <==> reply.Replied? && reply.value.Some? && !MissingText(reply.value.value.b64Json)
    ensures r.Success? ==> StartsWith(r.value.url, PngDataUrlPrefix)
    ensures r.Failure? ==> StartsWith(r.error, DallePrefix) || r.error == DalleFailed
  {
    Rethrow(DallePrefix, DalleFailed, DalleAttempt(prompt, respond))
  }

  /**
   * The data URL built from the reply gives the model's base64 text back
   * through `getBase64FromDataUrl`, and the revised prompt is the model's
   * own when it sent a non-empty one and the caller's otherwise.
   */
  lemma DalleImageRoundTrip(prompt: string, respond: string -> Reply<Option<ImageDatum>>)
    requires GenerateDalle3Image(prompt, respond).Success?
    ensures var datum := respond(DallePrompt(prompt)).value.value;
            var image := GenerateDalle3Image(prompt, respond).value;
            (',' !in datum.b64Json.value ==> GetBase64FromDataUrl(image.url) == Success(datum.b64Json.value))
            && image.revisedPrompt == (if MissingText(datum.revisedPrompt) then prompt else datum.revisedPrompt.value)
  {
    var datum := respond(DallePrompt(prompt)).value.value;
    if ',' !in datum.b64Json.value {
      assert PngDataUrlPrefix == DataImagePrefix + "png;" + Base64Marker;
      GetBase64RoundTrip("png;", datum.b64Json.value);
    }
  }

  /** The DALL·E error messages: an empty reply is wrapped, and the bare fallback comes only from a non-`Error` throw. */
  lemma DalleErrors(prompt: string, respond: string -> Reply<Option<ImageDatum>>)
    ensures var reply := respond(DallePrompt(prompt));
            reply.Replied? && (reply.value.None? || MissingText(reply.value.value.b64Json)) ==>
              GenerateDalle3Image(prompt, respond) == Failure(DallePrefix + DalleFailed)
    ensures GenerateDalle3Image(prompt, respond) == Failure(DalleFailed) <==>
              respond(DallePrompt(prompt)) == Threw(OtherThrown)
  {
    assert DalleFailed[6] != DallePrefix[6];
    var attempt := DalleAttempt(prompt, respond);
    if attempt.Failure? && attempt.error.ErrorThrown? {
      PrefixedIsNotFallback(DallePrefix, DalleFailed, attempt.error.message);
    }
  }

  /** The job-actions error messages, as for the other generators. */
  lemma JobActionsErrors(jobTitle: string, respond: string -> Reply<Option<string>>,
                         parse: string -> Result<Json, string>)
    ensures respond(jobTitle).Replied? && MissingText(respond(jobTitle).value) ==>
              GenerateJobActions(jobTitle, respond, parse) == Failure(JobActionsPrefix + JobActionsFailed)
    ensures GenerateJobActions(jobTitle, respond, parse) == Failure(JobActionsFailed) <==>
              respond(jobTitle) == Threw(OtherThrown)
  {
    assert JobActionsFailed[8] != JobActionsPrefix[8];
    var attempt := JobActionsAttempt(jobTitle, respond, parse);
    if attempt.Failure? && attempt.error.ErrorThrown? {
      PrefixedIsNotFallback(JobActionsPrefix, JobActionsFailed, attempt.error.message);
    }
  }
}

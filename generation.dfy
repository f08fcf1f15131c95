/**
  `MusicGenerator.generate_music`: an optional reference upload, the form
  payload for the generation endpoint, and the classification of its reply,
  whose `data.audio` hex string is decoded into the output file.
 */
module MusicGeneration {
  import opened Wrappers
  import opened Bytes
  import opened PyJson
  import opened PyText
  import opened Hex
  import opened Storage
  import opened Upload

  const Model := "music-01"
  const AudioSetting := "{\"sample_rate\":44100,\"bitrate\":256000,\"format\":\"mp3\"}"
  /** `app.config['UPLOAD_FOLDER']`. */
  const UploadFolder := "downloads"
  /** `upload_file`'s default `max_retries`, which `generate_music` does not override. */
  const UploadRetries := 3
  const UnknownError := "未知错误"

  /** The form fields POSTed to the generation endpoint. */
  datatype GenerationPayload = GenerationPayload(
    referVoice: Json,
    referInstrumental: Json,
    lyrics: string,
    model: string,
    audioSetting: string)

  /** The generation POST: it raised, or a status, the raw text, and `json.loads` of the stripped text (None: it raised). */
  datatype GenReply =
    | GenFailed
    | GenResponse(status: int, text: string, parsed: Option<Json>)

  /** Why a reply yields no audio; the source only logs these and returns None. */
  datatype GenError =
    | TransportError
    | BadStatus(code: int)
    | EmptyBody
    | MalformedJson
    | Rejected(statusMsg: Json)   // the upstream `base_resp.status_msg`, or 未知错误
    | UnexpectedShape             // an AttributeError/TypeError while navigating the reply
    | BadHex                      // bytes.fromhex raised

  datatype Generated = Audio(bytes: seq<byte>) | Failed(error: GenError)

  /** `f"##\n{lyrics}\n##"`. */
  function FramedLyrics(lyrics: string): string {
    "##\n" + lyrics + "\n##"
  }

  function Unframe(s: string): string
    requires |s| >= 6
  {
    s[3..|s| - 3]
  }

  /** Framing text that is already wrapped in `##` doubles both delimiters. */
  lemma FramedWrapped(text: string)
    ensures FramedLyrics("##" + text + "##") == "##\n##" + text + "##\n##"
  {
    assert "##\n" + "##" == "##\n##";
    assert "##" + "\n##" == "##\n##";
  }

  /** `v if v else ""`. */
  function OrEmpty(v: Json): Json {
    if Truthy(v) then v else JStr("")
  }

  /**
    The payload for the upload response's fields (None when no reference
    audio was given) and the `lyrics` argument.
   */
  function BuildPayload(uploaded: Option<map<string, Json>>, lyrics: Option<string>): (p: GenerationPayload)
    ensures p.model == "music-01"
    ensures p.audioSetting == "{\"sample_rate\":44100,\"bitrate\":256000,\"format\":\"mp3\"}"
    ensures uploaded.None? ==> p.referVoice == JStr("") && p.referInstrumental == JStr("")
    ensures Truthy(p.referVoice) || p.referVoice == JStr("")
    ensures Truthy(p.referInstrumental) || p.referInstrumental == JStr("")
    ensures uploaded.Some? && ("voice_id" !in uploaded.value || !Truthy(uploaded.value["voice_id"]))
            ==> p.referVoice == JStr("")
    ensures uploaded.Some? && "voice_id" in uploaded.value && Truthy(uploaded.value["voice_id"])
            ==> p.referVoice == uploaded.value["voice_id"]
    ensures uploaded.Some? && ("instrumental_id" !in uploaded.value || !Truthy(uploaded.value["instrumental_id"]))
            ==> p.referInstrumental == JStr("")
    ensures uploaded.Some? && "instrumental_id" in uploaded.value && Truthy(uploaded.value["instrumental_id"])
            ==> p.referInstrumental == uploaded.value["instrumental_id"]
    ensures p.lyrics == "" <==> lyrics.None? || lyrics.value == ""
    ensures p.lyrics != "" ==> p.lyrics == "##\n" + lyrics.value + "\n##"
    ensures p.lyrics != "" ==> |p.lyrics| >= 6 && Unframe(p.lyrics) == lyrics.value
  {
    var voiceId := if uploaded.Some? then Get(uploaded.value, "voice_id", JStr("")) else JNull;
    var instrumentalId := if uploaded.Some? then Get(uploaded.value, "instrumental_id", JStr("")) else JNull;
    var framed := if lyrics.Some? && lyrics.value != "" then FramedLyrics(lyrics.value) else "";
    GenerationPayload(OrEmpty(voiceId), OrEmpty(instrumentalId), framed, Model, AudioSetting)
  }

  /** `result["data"]["audio"]` when `result and result.get("data") and result["data"].get("audio")` holds and it is a string. */
  function AudioField(result: Json): Option<string> {
    if !result.JObj? || "data" !in result.fields then None
    else
      var data := result.fields["data"];
      if !Truthy(data) || !data.JObj? || "audio" !in data.fields then None
      else
        var audio := data.fields["audio"];
        if Truthy(audio) && audio.JStr? then Some(audio.s) else None
  }

  /** The reply from which the source writes an output file. */
  predicate AudioDelivered(reply: GenReply) {
    && reply.GenResponse?
    && reply.status == 200
    && Strip(reply.text) != ""
    && reply.parsed.Some?
    && AudioField(reply.parsed.value).Some?
    && FromHex(AudioField(reply.parsed.value).value).Some?
  }

  /** The else branch: `result.get('base_resp', {}).get('status_msg', '未知错误')`, or the exception it raises. */
  function Rejection(result: Json): Generated {
    if !result.JObj? then Failed(UnexpectedShape)
    else
      var base := Get(result.fields, "base_resp", JObj(map[]));
      if !base.JObj? then Failed(UnexpectedShape)
      else Failed(Rejected(Get(base.fields, "status_msg", JStr(UnknownError))))
  }

  /** The checks on a parsed 200 reply, in the order the source makes them. */
  function DecodeResult(result: Json): Generated {
    if !Truthy(result) then Rejection(result)
    else if !result.JObj? then Failed(UnexpectedShape)
    else
      var data := Get(result.fields, "data", JNull);
      if !Truthy(data) then Rejection(result)
      else if !data.JObj? then Failed(UnexpectedShape)
      else
        var audio := Get(data.fields, "audio", JNull);
        if !Truthy(audio) then Rejection(result)
        else if !audio.JStr? then Failed(UnexpectedShape)
        else match FromHex(audio.s)
          case None => Failed(BadHex)
          case Some(bytes) => Audio(bytes)
  }

  /** The reply handling of `generate_music`, check by check. */
  function ClassifyGeneration(reply: GenReply): Generated {
    match reply
    case GenFailed => Failed(TransportError)
    case GenResponse(status, text, parsed) =>
      if status != 200 then Failed(BadStatus(status))
      else if Strip(text) == "" then Failed(EmptyBody)
      else if parsed.None? then Failed(MalformedJson)
      else DecodeResult(parsed.value)
  }

  /**
    The reply yields audio exactly when it is delivered, and the audio is the
    hex decoding of `data.audio`, at most half as long as that string.
   */
  lemma AudioExactlyWhenDelivered(reply: GenReply)
    ensures var r := ClassifyGeneration(reply);
            && (r.Audio? <==> AudioDelivered(reply))
            && (r.Audio? ==> FromHex(AudioField(reply.parsed.value).value) == Some(r.bytes))
            && (r.Audio? ==> 2 * |r.bytes| <= |AudioField(reply.parsed.value).value|)
  {
    if reply.GenResponse? && reply.status == 200 && Strip(reply.text) != "" && reply.parsed.Some? {
      DecodedAudioIsAudioField(reply.parsed.value);
    }
  }

  lemma DecodedAudioIsAudioField(result: Json)
    ensures var r := DecodeResult(result);
            && (r.Audio? <==> AudioField(result).Some? && FromHex(AudioField(result).value).Some?)
            && (r.Audio? ==> FromHex(AudioField(result).value) == Some(r.bytes))
  {
    assert !Rejection(result).Audio?;
  }

  /** A reply body carrying `hex` as `data.audio`. */
  function AudioBody(hex: string): Json {
    JObj(map["data" := JObj(map["audio" := JStr(hex)])])
  }

  /** A 200 reply with a non-blank body that parses is judged by its parsed value alone. */
  lemma ClassifyParsed(text: string, result: Json)
    requires Strip(text) != ""
    ensures ClassifyGeneration(GenResponse(200, text, Some(result))) == DecodeResult(result)
  {
  }

  lemma AudioBodyField(hex: string)
    requires hex != ""
    ensures AudioField(AudioBody(hex)) == Some(hex)
  {
    var data := JObj(map["audio" := JStr(hex)]);
    assert AudioBody(hex).fields["data"] == data;
    assert data.fields["audio"] == JStr(hex);
  }

  lemma DecodeAudioBody(b: seq<byte>)
    requires b != []
    ensures DecodeResult(AudioBody(ToHex(b))) == Audio(b)
  {
    var hex := ToHex(b);
    assert hex != "" by { assert |hex| == 2 * |b|; }
    AudioBodyField(hex);
    FromHexOfToHex(b);
    DecodedAudioIsAudioField(AudioBody(hex));
  }

  /** The file receives exactly the bytes the server hex-encoded. */
  lemma GeneratedAudioIsServerBytes(b: seq<byte>, text: string)
    requires b != [] && Strip(text) != ""
    ensures ClassifyGeneration(GenResponse(200, text, Some(AudioBody(ToHex(b))))) == Audio(b)
  {
    ClassifyParsed(text, AudioBody(ToHex(b)));
    DecodeAudioBody(b);
  }

  /**
    Without whitespace in `data.audio`, the output has half as many bytes as
    the string has characters, and an odd-length string yields no audio.
   */
  lemma GeneratedAudioLength(reply: GenReply)
    requires reply.GenResponse? && reply.parsed.Some? && AudioField(reply.parsed.value).Some?
    requires var a := AudioField(reply.parsed.value).value;
             forall i :: 0 <= i < |a| ==> !IsAsciiSpace(a[i])
    ensures var a := AudioField(reply.parsed.value).value;
            && (ClassifyGeneration(reply).Audio? ==> 2 * |ClassifyGeneration(reply).bytes| == |a|)
            && (|a| % 2 == 1 ==> ClassifyGeneration(reply).Failed?)
  {
    FromHexWithoutSpaces(AudioField(reply.parsed.value).value);
  }

  /**
    A parsed reply object without `data` is a failure whose detail is the
    upstream `base_resp.status_msg`, or 未知错误 when there is none; with
    ClassifyParsed this is the verdict on a 200 reply with that body.
   */
  lemma RejectionKeepsStatusMsg(fields: map<string, Json>, base: map<string, Json>)
    requires "data" !in fields && "base_resp" in fields && fields["base_resp"] == JObj(base)
    ensures DecodeResult(JObj(fields))
         == Failed(Rejected(if "status_msg" in base then base["status_msg"] else JStr(UnknownError)))
  {
  }

  /**
    A parsed reply object with neither `data` nor `base_resp` (the falsy
    empty object among them) is a failure detailed as 未知错误.
   */
  lemma MissingBaseIsUnknownError(fields: map<string, Json>)
    requires "data" !in fields && "base_resp" !in fields
    ensures DecodeResult(JObj(fields)) == Failed(Rejected(JStr(UnknownError)))
  {
  }

  /** A parsed value that is not an object fails with no output, whatever its truthiness. */
  lemma NonObjectIsUnexpected(result: Json)
    requires !result.JObj?
    ensures DecodeResult(result) == Failed(UnexpectedShape)
  {
  }

  /** The reference audio for the generation request. */
  datatype Reference =
    | NoReference                      // voice_path is None or empty: no upload
    | Uploaded(ids: map<string, Json>) // the upload's response object
    | UploadRefused                    // the upload returned None

  function ReferenceFor(voicePath: Option<string>, fileExists: bool, uploads: nat -> Attempt): Reference {
    if voicePath.None? || voicePath.value == "" then NoReference
    else match Upload.Upload(fileExists, UploadRetries, uploads).result
      case Some(JObj(fields)) => Uploaded(fields)
      case _ => UploadRefused
  }

  /** A successful upload always yields an object, so `isinstance(upload_response, dict)` only rejects None. */
  lemma UploadedIsObject(voicePath: Option<string>, fileExists: bool, uploads: nat -> Attempt)
    requires voicePath.Some? && voicePath.value != ""
    ensures ReferenceFor(voicePath, fileExists, uploads).UploadRefused?
        <==> Upload.Upload(fileExists, UploadRetries, uploads).result.None?
  {
    UploadResultIsAcceptedReply(fileExists, UploadRetries, uploads);
  }

  function PayloadFor(ref: Reference, lyrics: Option<string>): GenerationPayload
    requires !ref.UploadRefused?
  {
    BuildPayload(if ref.Uploaded? then Some(ref.ids) else None, lyrics)
  }

  /** `os.path.join('downloads', f'generated_music_{timestamp}.mp3')`. */
  function GeneratedPath(timestamp: string): string {
    PathJoin(UploadFolder, "generated_music_" + timestamp + ".mp3")
  }

  /** The file name of the generated track, which the route serves under `/audio/`. */
  lemma GeneratedFileName(timestamp: string)
    requires '/' !in timestamp
    ensures Basename(GeneratedPath(timestamp)) == "generated_music_" + timestamp + ".mp3"
  {
    var name := "generated_music_" + timestamp + ".mp3";
    assert '/' !in name;
    BasenameOfJoin(UploadFolder, name);
  }

  /** `generate_music(voice_path, lyrics)` returns a path. */
  predicate GenerationSucceeds(voicePath: Option<string>, fileExists: bool, uploads: nat -> Attempt,
                               endpoint: GenerationPayload -> GenReply, lyrics: Option<string>) {
    var ref := ReferenceFor(voicePath, fileExists, uploads);
    !ref.UploadRefused? && ClassifyGeneration(endpoint(PayloadFor(ref, lyrics))).Audio?
  }

  /** The generation POST `generate_music` makes: none when a requested upload failed. */
  function GenerationPost(ref: Reference, lyrics: Option<string>): Option<GenerationPayload> {
    if ref.UploadRefused? then None else Some(PayloadFor(ref, lyrics))
  }

  /** What `generate_music` leaves on the disk. */
  function GenerationFiles(files: map<string, seq<byte>>, ref: Reference, endpoint: GenerationPayload -> GenReply,
                           lyrics: Option<string>, timestamp: string): map<string, seq<byte>> {
    if ref.UploadRefused? then files
    else match ClassifyGeneration(endpoint(PayloadFor(ref, lyrics)))
      case Audio(bytes) => files[GeneratedPath(timestamp) := bytes]
      case Failed(_) => files
  }

  /**
    `generate_music` touches only the generated file, and writes it with the
    decoded audio exactly when the reply delivers audio.
   */
  lemma GenerationFilesWritesOutput(files: map<string, seq<byte>>, ref: Reference,
                                    endpoint: GenerationPayload -> GenReply, lyrics: Option<string>, timestamp: string)
    ensures var after := GenerationFiles(files, ref, endpoint, lyrics, timestamp);
            && after.Keys <= files.Keys + {GeneratedPath(timestamp)}
            && files.Keys <= after.Keys
            && (forall p :: p in files && p != GeneratedPath(timestamp) ==> after[p] == files[p])
            && (!ref.UploadRefused? && ClassifyGeneration(endpoint(PayloadFor(ref, lyrics))).Audio?
                ==> GeneratedPath(timestamp) in after
                    && after[GeneratedPath(timestamp)] == ClassifyGeneration(endpoint(PayloadFor(ref, lyrics))).bytes)
            && (ref.UploadRefused? || ClassifyGeneration(endpoint(PayloadFor(ref, lyrics))).Failed? ==> after == files)
  {
  }

  /**
    `generate_music`. When a reference upload was asked for and failed, no
    generation POST is made (`sent` is None). Otherwise the payload is POSTed
    once, and the output file is written exactly when the reply delivers
    audio, with the decoded bytes. The path is returned iff that happens.
   */
  method GenerateMusic(disk: Disk, uploads: nat -> Attempt, endpoint: GenerationPayload -> GenReply,
                       voicePath: Option<string>, lyrics: Option<string>, timestamp: string)
    returns (result: Option<string>, sent: Option<GenerationPayload>)
    modifies disk
    ensures var ref := ReferenceFor(voicePath, voicePath.Some? && voicePath.value in old(disk.files), uploads);
            && sent == GenerationPost(ref, lyrics)
            && disk.files == GenerationFiles(old(disk.files), ref, endpoint, lyrics, timestamp)
    ensures result == if GenerationSucceeds(voicePath, voicePath.Some? && voicePath.value in old(disk.files), uploads, endpoint, lyrics)
                      then Some(GeneratedPath(timestamp)) else None
  {
    var uploaded: Option<map<string, Json>> := None;
    if voicePath.Some? && voicePath.value != "" {
      var response, _, _ := UploadFile(disk, voicePath.value, UploadRetries, uploads);
      if response.Some? && response.value.JObj? {
        uploaded := Some(response.value.fields);
      } else {
        return None, None;
      }
    }
    var payload := BuildPayload(uploaded, lyrics);
    sent := Some(payload);
    var outcome := ClassifyGeneration(endpoint(payload));
    if outcome.Audio? {
      var outputFile := GeneratedPath(timestamp);
      disk.WriteAll(outputFile, outcome.bytes);
      result := Some(outputFile);
    } else {
      result := None;
    }
  }
}

/**
  The `/api/generate` route: parameter validation, then download, polish and
  generation strictly in that order, each failure ending the request with its
  own message.
 */
module GenerateRoute {
  import opened Wrappers
  import opened Bytes
  import opened PyJson
  import opened PyText
  import opened Storage
  import opened Upload
  import opened SunoDownload
  import opened LyricsPolisher
  import opened MusicGeneration

  datatype Stage = DownloadStage | PolishStage | GenerationStage

  /** The stages in the order the route runs them. */
  const Pipeline := [DownloadStage, PolishStage, GenerationStage]

  /** The remote services the route reaches, each as the outcome of its call. */
  datatype Upstreams = Upstreams(
    cdn: string -> GetOutcome,
    chat: Json -> ChatReply,
    uploads: nat -> Attempt,
    generation: GenerationPayload -> GenReply)

  /** The JSON reply and its HTTP status; absent keys are None. */
  datatype Reply = Reply(
    status: int,
    success: bool,
    audioUrl: Option<string>,
    polishedLyrics: Option<string>,
    message: Option<string>)

  /** The reply, the stages entered, and the payload POSTed to the generation endpoint, if any. */
  datatype Trace = Trace(reply: Reply, stages: seq<Stage>, sent: Option<GenerationPayload>)

  const MissingParams := "请供完整的参数"

  function StageFailure(stage: Stage): string {
    match stage
    case DownloadStage => "音频下载失败"
    case PolishStage => "歌词润色失败"
    case GenerationStage => "音乐生成失败"
  }

  function Failure(status: int, message: string): Reply {
    Reply(status, false, None, None, Some(message))
  }

  /** Python's type name for a decoded JSON value; a number counts as an int when it is integral. */
  function PyTypeName(v: Json): string {
    match v
    case JNull => "NoneType"
    case JBool(_) => "bool"
    case JNum(n) => if n.Floor as real == n then "int" else "float"
    case JStr(_) => "str"
    case JArr(_) => "list"
    case JObj(_) => "dict"
  }

  /** The outer handler's message for a body that is not an object: `data.get` raised AttributeError. */
  function NoGetMessage(request: Json): string {
    "错误: '" + PyTypeName(request) + "' object has no attribute 'get'"
  }

  function SunoUrl(fields: map<string, Json>): Json {
    Get(fields, "suno_url", JNull)
  }

  function OriginalLyrics(fields: map<string, Json>): Json {
    Get(fields, "lyrics", JNull)
  }

  /** `not suno_url or not original_lyrics` is false. */
  predicate HasParams(fields: map<string, Json>) {
    Truthy(SunoUrl(fields)) && Truthy(OriginalLyrics(fields))
  }

  /** `download_suno_audio(suno_url)` returns a path; a non-string URL raises on `.split` and yields None. */
  predicate Downloaded(fields: map<string, Json>, up: Upstreams) {
    SunoUrl(fields).JStr? && DownloadSucceeds(up.cdn, SunoUrl(fields).s)
  }

  function DownloadTarget(fields: map<string, Json>): string
    requires SunoUrl(fields).JStr?
  {
    OutputPath(DefaultOutputDir, SongId(SunoUrl(fields).s))
  }

  /** `polish_lyrics(original_lyrics)`: the chat service answers the lyrics value as sent. */
  function Polished(fields: map<string, Json>, up: Upstreams): Option<string> {
    PolishLyrics(up.chat(OriginalLyrics(fields)))
  }

  /**
    What the route answers, which stages it enters and what it POSTs for
    generation. A stage is entered only after every earlier one succeeded,
    the first failing stage names itself in a 500 reply, and the reply is
    200 exactly when all three stages succeed.
   */
  function Respond(request: Json, up: Upstreams, timestamp: string): (t: Trace)
    ensures t.stages <= Pipeline
    ensures t.reply.success <==> t.reply.status == 200
    ensures t.reply.status in {200, 400, 500}
    ensures !request.JObj? ==> t.reply == Failure(500, NoGetMessage(request)) && t.stages == []
    ensures request.JObj? ==> (t.reply.status == 400 <==> !HasParams(request.fields))
    ensures t.reply.status == 400 ==> t.reply.message == Some(MissingParams) && t.stages == []
    ensures |t.stages| >= 1 ==> request.JObj? && HasParams(request.fields)
    ensures |t.stages| >= 2 ==> Downloaded(request.fields, up)
    ensures |t.stages| == 3 ==> Polished(request.fields, up).Some?
    ensures t.sent.Some? ==> t.stages == Pipeline
    ensures t.reply.status == 500 && t.stages != [] ==>
              var last := t.stages[|t.stages| - 1];
              && t.reply.message == Some(StageFailure(last))
              && (last == DownloadStage ==> !Downloaded(request.fields, up))
              && (last == PolishStage ==> Polished(request.fields, up).None?)
              && (last == GenerationStage ==>
                    !GenerationSucceeds(Some(DownloadTarget(request.fields)), true, up.uploads, up.generation,
                                        Polished(request.fields, up)))
    ensures t.reply.status == 200 <==>
              && request.JObj? && HasParams(request.fields) && Downloaded(request.fields, up)
              && Polished(request.fields, up).Some?
              && GenerationSucceeds(Some(DownloadTarget(request.fields)), true, up.uploads, up.generation,
                                    Polished(request.fields, up))
    ensures t.reply.status == 200 ==>
              && t.stages == Pipeline
              && t.reply.polishedLyrics == Polished(request.fields, up)
              && t.reply.audioUrl == Some("/audio/" + Basename(GeneratedPath(timestamp)))
              && t.sent.Some?
  {
    if !request.JObj? then Trace(Failure(500, NoGetMessage(request)), [], None)
    else
      var fields := request.fields;
      if !HasParams(fields) then Trace(Failure(400, MissingParams), [], None)
      else if !Downloaded(fields, up) then Trace(Failure(500, StageFailure(DownloadStage)), [DownloadStage], None)
      else
        var polished := Polished(fields, up);
        if polished.None? then Trace(Failure(500, StageFailure(PolishStage)), [DownloadStage, PolishStage], None)
        else
          var voicePath := DownloadTarget(fields);
          Trace(GenerationReply(voicePath, up, polished.value, timestamp), Pipeline,
                GenerationSent(voicePath, up, polished.value))
  }

  /** The payload the generation stage POSTs, once its reference upload succeeded. */
  function GenerationSent(voicePath: string, up: Upstreams, polished: string): Option<GenerationPayload> {
    GenerationPost(ReferenceFor(Some(voicePath), true, up.uploads), Some(polished))
  }

  /** The route's reply once the download and the polish succeeded. */
  function GenerationReply(voicePath: string, up: Upstreams, polished: string, timestamp: string): Reply {
    if !GenerationSucceeds(Some(voicePath), true, up.uploads, up.generation, Some(polished)) then
      Failure(500, StageFailure(GenerationStage))
    else
      Reply(200, true, Some("/audio/" + Basename(GeneratedPath(timestamp))), Some(polished), None)
  }

  /** What the generation stage leaves on the disk. */
  function GenerationWrites(files: map<string, seq<byte>>, voicePath: string, up: Upstreams, polished: string,
                            timestamp: string): map<string, seq<byte>> {
    GenerationFiles(files, ReferenceFor(Some(voicePath), true, up.uploads), up.generation, Some(polished), timestamp)
  }

  /** The URL under which the route serves the generated track. */
  lemma SuccessServesGeneratedFile(request: Json, up: Upstreams, timestamp: string)
    requires '/' !in timestamp
    requires Respond(request, up, timestamp).reply.status == 200
    ensures Respond(request, up, timestamp).reply.audioUrl
         == Some("/audio/" + ("generated_music_" + timestamp + ".mp3"))
  {
    var t := Respond(request, up, timestamp);
    assert t.reply.audioUrl == Some("/audio/" + Basename(GeneratedPath(timestamp)));
    GeneratedFileName(timestamp);
  }

  /** A generation payload is only sent after a successful polish, for the downloaded file. */
  lemma SentAfterPolish(request: Json, up: Upstreams, timestamp: string)
    requires Respond(request, up, timestamp).sent.Some?
    ensures request.JObj? && Downloaded(request.fields, up) && Polished(request.fields, up).Some?
    ensures Respond(request, up, timestamp).sent
         == GenerationSent(DownloadTarget(request.fields), up, Polished(request.fields, up).value)
  {
  }

  /** The payload carries the polished lyrics, framed. */
  lemma SentLyricsAreFramed(voicePath: string, up: Upstreams, polished: string)
    requires polished != ""
    requires GenerationSent(voicePath, up, polished).Some?
    ensures GenerationSent(voicePath, up, polished).value.lyrics == FramedLyrics(polished)
  {
  }

  /**
    The generation stage receives the already-wrapped polished lyrics and
    frames them again: `##\n##` + the stripped chat text + `##\n##`.
   */
  lemma LyricsAreWrappedTwice(request: Json, up: Upstreams, timestamp: string)
    requires Respond(request, up, timestamp).sent.Some?
    ensures var content := FirstChoiceText(up.chat(OriginalLyrics(request.fields)).body.value).value;
            Respond(request, up, timestamp).sent.value.lyrics == "##\n##" + Strip(content) + "##\n##"
  {
    SentAfterPolish(request, up, timestamp);
    var fields := request.fields;
    var reply := up.chat(OriginalLyrics(fields));
    PolishedIsWrappedContent(reply);
    var text := Strip(FirstChoiceText(reply.body.value).value);
    var polished := Polished(fields, up).value;
    assert polished == "##" + text + "##";
    SentLyricsAreFramed(DownloadTarget(fields), up, polished);
    FramedWrapped(text);
  }

  /** What the download stage leaves on the disk: the output file is created on status 200, even when the copy fails. */
  function DownloadWrites(files: map<string, seq<byte>>, sunoUrl: Json, cdn: string -> GetOutcome): map<string, seq<byte>> {
    if !sunoUrl.JStr? then files
    else
      var response := cdn(CdnUrl(SongId(sunoUrl.s)));
      if Fetched(response) then files[OutputPath(DefaultOutputDir, SongId(sunoUrl.s)) := Drain(response.body).written]
      else files
  }

  /** The files the route leaves on the disk. */
  function DiskAfter(files: map<string, seq<byte>>, request: Json, up: Upstreams, timestamp: string): map<string, seq<byte>> {
    if !request.JObj? || !HasParams(request.fields) then files
    else
      var fields := request.fields;
      var downloaded := DownloadWrites(files, SunoUrl(fields), up.cdn);
      var polished := Polished(fields, up);
      if !Downloaded(fields, up) || polished.None? then downloaded
      else GenerationWrites(downloaded, DownloadTarget(fields), up, polished.value, timestamp)
  }

  /** `after` differs from `before` at most at `paths`, and no file disappears. */
  predicate ChangedOnly(before: map<string, seq<byte>>, after: map<string, seq<byte>>, paths: set<string>) {
    && before.Keys <= after.Keys
    && after.Keys - before.Keys <= paths
    && forall p :: p in before && p !in paths ==> after[p] == before[p]
  }

  lemma ChangedOnlyCompose(a: map<string, seq<byte>>, b: map<string, seq<byte>>, c: map<string, seq<byte>>,
                           first: set<string>, second: set<string>)
    requires ChangedOnly(a, b, first) && ChangedOnly(b, c, second)
    ensures ChangedOnly(a, c, first + second)
  {
  }

  /** The paths the route may write: the generated file and, for a string URL, the download target. */
  function RoutePaths(request: Json, timestamp: string): set<string> {
    {GeneratedPath(timestamp)}
      + (if request.JObj? && SunoUrl(request.fields).JStr? then {DownloadTarget(request.fields)} else {})
  }

  lemma DownloadWritesOnlyTarget(files: map<string, seq<byte>>, sunoUrl: Json, cdn: string -> GetOutcome)
    ensures ChangedOnly(files, DownloadWrites(files, sunoUrl, cdn),
                        if sunoUrl.JStr? then {OutputPath(DefaultOutputDir, SongId(sunoUrl.s))} else {})
  {
  }

  lemma GenerationWritesOnlyOutput(files: map<string, seq<byte>>, voicePath: string, up: Upstreams,
                                   polished: string, timestamp: string)
    ensures ChangedOnly(files, GenerationWrites(files, voicePath, up, polished, timestamp), {GeneratedPath(timestamp)})
    ensures GenerationSucceeds(Some(voicePath), true, up.uploads, up.generation, Some(polished))
            ==> GeneratedPath(timestamp) in GenerationWrites(files, voicePath, up, polished, timestamp)
  {
    GenerationFilesWritesOutput(files, ReferenceFor(Some(voicePath), true, up.uploads), up.generation,
                                Some(polished), timestamp);
  }

  /** The route writes at most two files: the downloaded track and the generated one. */
  lemma RouteWritesOnlyItsFiles(files: map<string, seq<byte>>, request: Json, up: Upstreams, timestamp: string)
    ensures ChangedOnly(files, DiskAfter(files, request, up, timestamp), RoutePaths(request, timestamp))
  {
    var after := DiskAfter(files, request, up, timestamp);
    var paths := RoutePaths(request, timestamp);
    if request.JObj? && HasParams(request.fields) {
      var fields := request.fields;
      var target: set<string> := if SunoUrl(fields).JStr? then {DownloadTarget(fields)} else {};
      var downloaded := DownloadWrites(files, SunoUrl(fields), up.cdn);
      DownloadWritesOnlyTarget(files, SunoUrl(fields), up.cdn);
      if Downloaded(fields, up) && Polished(fields, up).Some? {
        GenerationWritesOnlyOutput(downloaded, DownloadTarget(fields), up, Polished(fields, up).value, timestamp);
        ChangedOnlyCompose(files, downloaded, after, target, {GeneratedPath(timestamp)});
        assert target + {GeneratedPath(timestamp)} == paths;
      } else {
        assert target <= paths;
      }
    }
  }

  /** A successful request leaves both the downloaded track and the generated one on the disk. */
  lemma SuccessLeavesBothFiles(files: map<string, seq<byte>>, request: Json, up: Upstreams, timestamp: string)
    requires Respond(request, up, timestamp).reply.status == 200
    ensures DownloadTarget(request.fields) in DiskAfter(files, request, up, timestamp)
    ensures GeneratedPath(timestamp) in DiskAfter(files, request, up, timestamp)
  {
    var fields := request.fields;
    var polished := Polished(fields, up).value;
    var downloaded := DownloadWrites(files, SunoUrl(fields), up.cdn);
    assert DownloadTarget(fields) in downloaded;
    GenerationWritesOnlyOutput(downloaded, DownloadTarget(fields), up, polished, timestamp);
  }

  /**
    The `generate` handler. It records each stage as it enters it and ends at
    the first failure; the reply, the stages and the generation payload are
    those of `Respond`, and the disk is left as `DiskAfter` says.
   */
  method HandleGenerate(disk: Disk, request: Json, up: Upstreams, timestamp: string)
    returns (reply: Reply, stages: seq<Stage>, sent: Option<GenerationPayload>)
    modifies disk
    ensures Trace(reply, stages, sent) == Respond(request, up, timestamp)
    ensures disk.files == DiskAfter(old(disk.files), request, up, timestamp)
  {
    stages := [];
    sent := None;
    if !request.JObj? {
      return Failure(500, NoGetMessage(request)), stages, sent;
    }
    var fields := request.fields;
    var sunoUrl := SunoUrl(fields);
    var originalLyrics := OriginalLyrics(fields);
    if !Truthy(sunoUrl) || !Truthy(originalLyrics) {
      return Failure(400, MissingParams), stages, sent;
    }

    stages := [DownloadStage];
    var downloadedFile := RunDownload(disk, sunoUrl, up.cdn);
    if downloadedFile.None? || downloadedFile.value == "" {
      return Failure(500, StageFailure(DownloadStage)), stages, sent;
    }

    stages := [DownloadStage, PolishStage];
    var polished := PolishLyrics(up.chat(originalLyrics));
    if polished.None? || polished.value == "" {
      return Failure(500, StageFailure(PolishStage)), stages, sent;
    }

    stages := Pipeline;
    reply, sent := RunGeneration(disk, downloadedFile.value, up, polished.value, timestamp);
  }

  /** The download stage of the handler: `download_suno_audio(suno_url)` into the default directory. */
  method RunDownload(disk: Disk, sunoUrl: Json, cdn: string -> GetOutcome) returns (downloadedFile: Option<string>)
    modifies disk
    ensures downloadedFile.Some? <==> sunoUrl.JStr? && DownloadSucceeds(cdn, sunoUrl.s)
    ensures downloadedFile.Some? ==>
              && downloadedFile.value == OutputPath(DefaultOutputDir, SongId(sunoUrl.s))
              && downloadedFile.value in disk.files
    ensures disk.files == DownloadWrites(old(disk.files), sunoUrl, cdn)
  {
    downloadedFile := None;
    if sunoUrl.JStr? {
      downloadedFile := DownloadSunoAudio(disk, cdn, sunoUrl.s, DefaultOutputDir);
    }
  }

  /**
    The generation stage of the handler: `generate_music` on the downloaded
    file and the polished lyrics, and the reply built from its result.
   */
  method RunGeneration(disk: Disk, voicePath: string, up: Upstreams, polished: string, timestamp: string)
    returns (reply: Reply, sent: Option<GenerationPayload>)
    requires voicePath in disk.files
    modifies disk
    ensures reply == GenerationReply(voicePath, up, polished, timestamp)
    ensures sent == GenerationSent(voicePath, up, polished)
    ensures disk.files == GenerationWrites(old(disk.files), voicePath, up, polished, timestamp)
  {
    var outputFile;
    outputFile, sent := GenerateMusic(disk, up.uploads, up.generation, Some(voicePath), Some(polished), timestamp);
    if outputFile.None? || outputFile.value == "" {
      return Failure(500, StageFailure(GenerationStage)), sent;
    }
    var audioUrl := "/audio/" + Basename(outputFile.value);
    reply := Reply(200, true, Some(audioUrl), Some(polished), None);
  }
}

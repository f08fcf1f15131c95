/**
  `MusicGenerator.download_suno_audio`: derive the song id from a share link,
  fetch `https://cdn1.suno.ai/<id>.mp3`, and copy the body chunk by chunk into
  `<output_dir>/suno_<id>.mp3`.
 */
module SunoDownload {
  import opened Wrappers
  import opened Bytes
  import opened PyText
  import opened Storage

  /** One `await response.content.read(8192)`. */
  datatype ReadResult =
    | Chunk(data: seq<byte>)  // b'' marks the end of the body
    | ReadFailed              // the read raised

  /** The outcome of the GET: the session raised, or a status and the successive reads of its body. */
  datatype GetOutcome =
    | GetFailed
    | GetResponse(status: int, body: seq<ReadResult>)

  const DefaultOutputDir := "downloads"
  const CdnPrefix := "https://cdn1.suno.ai/"

  /** `suno_url.split('/')[-1]`. */
  function SongId(sunoUrl: string): string {
    var parts := Split(sunoUrl, '/');
    parts[|parts| - 1]
  }

  /**
    The song id is what follows the last `/` of the link: the whole link when
    it has no `/`, and empty when it ends in one.
   */
  lemma SongIdIsLastSegment(sunoUrl: string)
    ensures var id := SongId(sunoUrl);
            && id == Basename(sunoUrl)
            && '/' !in id
            && id == sunoUrl[|sunoUrl| - |id|..]
            && (|id| < |sunoUrl| ==> sunoUrl[|sunoUrl| - |id| - 1] == '/')
    ensures '/' !in sunoUrl ==> SongId(sunoUrl) == sunoUrl
    ensures |sunoUrl| > 0 && sunoUrl[|sunoUrl| - 1] == '/' ==> SongId(sunoUrl) == ""
  {
    LastSplitIsBasename(sunoUrl);
  }

  lemma SongIdHasNoSlash(sunoUrl: string)
    ensures '/' !in SongId(sunoUrl)
  {
    var parts := Split(sunoUrl, '/');
    assert '/' !in parts[|parts| - 1];
  }

  /** A share link `<prefix>/<id>` with a `/`-free id gives back that id. */
  lemma SongIdOfShareLink(prefix: string, id: string)
    requires '/' !in id
    ensures SongId(prefix + "/" + id) == id
  {
    var url := prefix + "/" + id;
    SongIdIsLastSegment(url);
    BasenameUnique(url, id);
  }

  /** `f"https://cdn1.suno.ai/{song_id}.mp3"`. */
  function CdnUrl(songId: string): string {
    CdnPrefix + songId + ".mp3"
  }

  /** `os.path.join(output_dir, f'suno_{song_id}.mp3')`. */
  function OutputPath(outputDir: string, songId: string): string {
    PathJoin(outputDir, "suno_" + songId + ".mp3")
  }

  /** The CDN file is `<id>.mp3`: the song id names what is fetched. */
  lemma CdnUrlNamesSong(sunoUrl: string)
    ensures Basename(CdnUrl(SongId(sunoUrl))) == SongId(sunoUrl) + ".mp3"
  {
    var id := SongId(sunoUrl);
    SongIdHasNoSlash(sunoUrl);
    NoSlashInName("", id, ".mp3");
    assert CdnUrl(id) == CdnPrefix + (id + ".mp3");
    BasenameAfterSlash(CdnPrefix, id + ".mp3");
  }

  /** The output file is `suno_<id>.mp3` whatever the directory. */
  lemma OutputPathNamesSong(sunoUrl: string, outputDir: string)
    ensures Basename(OutputPath(outputDir, SongId(sunoUrl))) == "suno_" + SongId(sunoUrl) + ".mp3"
  {
    var id := SongId(sunoUrl);
    SongIdHasNoSlash(sunoUrl);
    NoSlashInName("suno_", id, ".mp3");
    BasenameOfJoin(outputDir, "suno_" + id + ".mp3");
  }

  /** With the default directory the output is `downloads/suno_<id>.mp3`. */
  lemma DefaultOutputPath(songId: string)
    ensures OutputPath(DefaultOutputDir, songId) == DefaultOutputDir + "/" + ("suno_" + songId + ".mp3")
  {
    var name := "suno_" + songId + ".mp3";
    assert name[0] == 's';
  }

  lemma NoSlashInName(prefix: string, id: string, suffix: string)
    requires '/' !in prefix && '/' !in id && '/' !in suffix
    ensures '/' !in prefix + id + suffix
  {
  }

  /** What the copy loop has written when it stops, and whether it stopped at the end of the body. */
  datatype Drained = Drained(written: seq<byte>, complete: bool)

  /** The copy loop over `body`; reading past the last element gives b''. */
  function Drain(body: seq<ReadResult>): Drained {
    if body == [] then Drained([], true)
    else match body[0]
      case ReadFailed => Drained([], false)
      case Chunk(data) =>
        if data == [] then Drained([], true)
        else
          var rest := Drain(body[1..]);
          Drained(data + rest.written, rest.complete)
  }

  /** A body delivered as the given non-empty chunks. */
  function AsChunks(data: seq<seq<byte>>): (body: seq<ReadResult>)
    ensures |body| == |data|
    ensures forall i :: 0 <= i < |data| ==> body[i] == Chunk(data[i])
  {
    if data == [] then [] else [Chunk(data[0])] + AsChunks(data[1..])
  }

  /**
    The file receives the non-empty chunks before the first empty chunk (or
    the end of the body, or a failed read), concatenated in order; nothing
    read after that point is written. The copy is complete unless it stopped
    at a failed read.
   */
  lemma {:induction false} DrainWritesChunksBeforeStop(data: seq<seq<byte>>, tail: seq<ReadResult>)
    requires forall i :: 0 <= i < |data| ==> data[i] != []
    requires tail == [] || tail[0] == Chunk([]) || tail[0] == ReadFailed
    ensures Drain(AsChunks(data) + tail) == Drained(Flatten(data), tail == [] || tail[0] != ReadFailed)
  {
    var body := AsChunks(data) + tail;
    if data == [] {
      assert body == tail;
    } else {
      assert body[0] == Chunk(data[0]);
      assert body[1..] == AsChunks(data[1..]) + tail;
      DrainWritesChunksBeforeStop(data[1..], tail);
    }
  }

  /** The response the download acts on: a 200 reply to the GET of the CDN URL. */
  predicate Fetched(response: GetOutcome) {
    response.GetResponse? && response.status == 200
  }

  /** `download_suno_audio(suno_url)` returns a path, given the CDN's answers. */
  predicate DownloadSucceeds(cdn: string -> GetOutcome, sunoUrl: string) {
    var response := cdn(CdnUrl(SongId(sunoUrl)));
    Fetched(response) && Drain(response.body).complete
  }

  /**
    The download. On a 200 reply the output file is (re)created and receives
    what Drain says, and the path is returned unless a read failed (the
    partial file then stays behind). On any other outcome the output file is
    never opened and the result is None.
   */
  method DownloadSunoAudio(disk: Disk, cdn: string -> GetOutcome, sunoUrl: string, outputDir: string)
    returns (result: Option<string>)
    modifies disk
    ensures var response := cdn(CdnUrl(SongId(sunoUrl)));
            var outputFile := OutputPath(outputDir, SongId(sunoUrl));
            if Fetched(response) then
              var drained := Drain(response.body);
              && disk.files == old(disk.files)[outputFile := drained.written]
              && result == (if drained.complete then Some(outputFile) else None)
            else
              disk.files == old(disk.files) && result == None
    ensures result.Some? <==> DownloadSucceeds(cdn, sunoUrl)
    ensures result.Some? ==> result.value in disk.files
  {
    var songId := SongId(sunoUrl);
    var audioUrl := CdnUrl(songId);
    var response := cdn(audioUrl);
    if !(response.GetResponse? && response.status == 200) {
      return None;
    }
    var outputFile := OutputPath(outputDir, songId);
    disk.Create(outputFile);
    var complete := CopyChunks(disk, outputFile, response.body);
    result := if complete then Some(outputFile) else None;
  }

  /**
    The `while True` loop over the freshly opened output file: append each
    chunk until an empty one; a failed read ends it early.
   */
  method CopyChunks(disk: Disk, outputFile: string, body: seq<ReadResult>) returns (complete: bool)
    requires outputFile in disk.files && disk.files[outputFile] == []
    modifies disk
    ensures disk.files == old(disk.files)[outputFile := Drain(body).written]
    ensures complete == Drain(body).complete
  {
    var i := 0;
    while true
      invariant 0 <= i <= |body|
      invariant outputFile in disk.files
      invariant disk.files == old(disk.files)[outputFile := disk.files[outputFile]]
      invariant Drain(body) == Drained(disk.files[outputFile] + Drain(body[i..]).written, Drain(body[i..]).complete)
      decreases |body| - i
    {
      var read := if i < |body| then body[i] else Chunk([]);
      if read.ReadFailed? {
        assert body[i..][0] == ReadFailed;
        assert disk.files[outputFile] + [] == disk.files[outputFile];
        return false;
      }
      if read.data == [] {
        assert i < |body| ==> body[i..][0] == Chunk([]);
        assert disk.files[outputFile] + [] == disk.files[outputFile];
        break;
      }
      ghost var before := disk.files[outputFile];
      disk.Append(outputFile, read.data);
      assert body[i..][1..] == body[i + 1..];
      assert before + (read.data + Drain(body[i + 1..]).written)
          == (before + read.data) + Drain(body[i + 1..]).written;
      i := i + 1;
    }
    return true;
  }
}

# Suno-to-Minimax music pipeline: a Dafny model of its decision logic

The service takes a Suno share link and a set of lyrics, downloads the Suno
track, has a chat model "polish" the lyrics, uploads the track as a reference
voice, and asks the Minimax generation endpoint for a new song, which it
serves under `/audio/`. Almost all of `music.py` is network orchestration.
This project models the decisions that sit between the network calls, with
every remote call replaced by an input:

- `upload_file` (module `Upload`): the bounded retry loop. It retries only
  on a timeout. A missing file, a failed `open`, any other transport error,
  an HTTP error or a non-zero `base_resp.status_code` end it at once. Each
  pass's file handle is closed. The k-th pass's outcome is `network(k)`.
- `download_suno_audio` (module `SunoDownload`): the song id is what follows
  the last `/` of the share link. From it come the CDN URL and
  `<dir>/suno_<id>.mp3`. The chunk loop copies reads until the first empty
  chunk. The CDN is a function from URL to outcome, and a body is the
  sequence of its reads.
- `polish_lyrics` (module `LyricsPolisher`): the status, `base_resp` and
  `choices` checks on the chat reply, then `"##" + strip(content) + "##"`.
- `generate_music` (module `MusicGeneration`):
  - the optional reference upload;
  - the form payload: `""` for missing ids and lyrics, `##\n…\n##`
    framing, fixed model and audio setting;
  - the classification of the reply: status 200, non-empty body, JSON,
    `data.audio`, then `bytes.fromhex`.
- the `/api/generate` route (module `GenerateRoute`): parameter
  validation, then download → polish → generation. It stops at the first
  failure, each failure has its own message, and the polished lyrics are
  framed a second time.

Supporting modules:

- `PyJson`: decoded JSON values, Python truthiness, `dict.get`, and the
  `status_code == 0` test (where `False == 0`).
- `PyText`: `str.strip` with Python's whitespace set, `str.split`,
  `posixpath.basename` and `posixpath.join`.
- `Hex`: `bytes.fromhex` (ASCII whitespace is allowed before each pair) and
  `bytes.hex`.
- `Storage`: the disk as a map from path to contents (`os.path.exists` is
  membership) and file handles that are opened and closed.

Inputs that stand for the outside world:

- each HTTP exchange: the exception it raised, or a status and an
  already-parsed body, where `None` means that `json.loads` raised;
- the timestamp of the generated file name;
- the initial disk.

## Model

| member | source | states |
|---|---|---|
| Upload.UploadFile | music.py:97-168 | The loop returns exactly the result and POST count of `Upload`: retry on timeout, stop on anything else. Every handle it opened is closed on exit, one per POST. |
| Upload.UploadPostsBounded | music.py:105-106 | At most `max_retries` POSTs, and none when `max_retries <= 0`. |
| Upload.UploadAllTimeouts | music.py:150-157 | When every POST times out there are exactly `max_retries` POSTs and the result is None. |
| Upload.UploadWithoutRetries | music.py:105-106 | With `max_retries <= 0` the loop body never runs: None after 0 POSTs. |
| Upload.UploadMissingFile | music.py:108-110 | A missing file gives None with 0 POSTs. |
| Upload.UploadStopsAtFirstNonTimeout | music.py:140-164 | The first pass that does not time out ends the upload with that pass's verdict. The POST count is its index + 1, or its index when `open` raised. |
| Upload.UploadRequestErrorIsFinal | music.py:159-161 | A non-timeout request error ends the upload with None after exactly one POST. |
| Upload.UploadResultIsAcceptedReply | music.py:140-148 | The result is present iff the last POST got a non-error reply whose `base_resp.status_code` is 0, and the result is that reply's body. |
| SunoDownload.SongIdIsLastSegment | music.py:314 | The song id equals `basename(url)`: the suffix after the last `/`, free of `/`. It is the whole URL when there is no `/`, and empty when the URL ends in `/`. |
| SunoDownload.SongIdHasNoSlash | music.py:314 | The song id never contains `/`. |
| SunoDownload.SongIdOfShareLink | music.py:314 | `<prefix>/<id>` yields `id` for any `/`-free id. |
| SunoDownload.CdnUrlNamesSong | music.py:314-316 | The fetched CDN file is `<song_id>.mp3`. |
| SunoDownload.OutputPathNamesSong | music.py:328 | The output file is named `suno_<song_id>.mp3` in any directory. |
| SunoDownload.DefaultOutputPath | music.py:305-328 | With the default directory the output path is `downloads/suno_<song_id>.mp3`. |
| SunoDownload.DrainWritesChunksBeforeStop | music.py:330-334 | The bytes written are the in-order concatenation of the non-empty chunks before the first empty chunk, failed read or end of body. Nothing after that is written, and the copy is complete unless a read failed. |
| SunoDownload.CopyChunks | music.py:330-334 | The copy loop leaves the output file holding exactly the drained bytes, changes no other file, and reports whether the copy completed. |
| SunoDownload.DownloadSunoAudio | music.py:305-343 | Status 200: the output file holds exactly the bytes the copy loop drained, and the path is returned iff the copy completed. Any other outcome: the disk is untouched and the result is None. A returned path exists. |
| LyricsPolisher.PolishLyrics | music.py:428-462 | Lyrics are produced iff the reply is status 200 with a JSON object whose `base_resp.status_code` is 0 and whose first choice has string content. They are `##` + the stripped content + `##`, with a trimmed middle. |
| LyricsPolisher.UnwrapWrap | music.py:449 | The `##…##` wrapping adds four characters and is undone by taking the middle. |
| LyricsPolisher.PolishedIsTruthy | music.py:449 | A polished result has length at least 4, so it is truthy even for empty content. |
| LyricsPolisher.PolishedIsWrappedContent | music.py:446-449 | Polished lyrics are exactly the wrapping of the stripped first-choice content. |
| LyricsPolisher.ReplyBodyUsable | music.py:438-446 | A reply object with `status_code` 0 and one choice passes the checks and yields its content. |
| LyricsPolisher.PolishTrimsPadding | music.py:446-449 | Content that is a trimmed text padded with whitespace on both sides yields exactly `##text##`. |
| MusicGeneration.BuildPayload | music.py:215-242 | Model `music-01` and the fixed audio setting. Each id is `""` without an upload, and also when the upload reply lacks it or it is falsy; a truthy id is passed through unchanged. Lyrics are `""` iff absent or empty, otherwise exactly `##\n` + lyrics + `\n##`, which unframing gives back. |
| MusicGeneration.AudioExactlyWhenDelivered | music.py:261-292 | Audio iff status 200, a non-blank body, valid JSON, a truthy string `data.audio` and a successful hex decode. The audio is that decoding, at most half as long as the string. |
| MusicGeneration.GeneratedAudioIsServerBytes | music.py:266-279 | When the server sends non-empty bytes hex-encoded as `data.audio`, the output file gets exactly those bytes. |
| MusicGeneration.GeneratedAudioLength | music.py:276 | With no whitespace in `data.audio`, the output is half its length, and an odd length yields no audio. |
| MusicGeneration.ClassifyParsed | music.py:261-266 | A status-200 reply whose body is not blank and parses is judged by its parsed value alone, whatever the surrounding whitespace. |
| MusicGeneration.RejectionKeepsStatusMsg | music.py:282-284 | A parsed reply object without `data` but with an object `base_resp` fails with its `status_msg`, or `未知错误` when there is none. |
| MusicGeneration.MissingBaseIsUnknownError | music.py:267-284 | A reply object with neither `data` nor `base_resp`, the falsy empty object included, fails with `未知错误`. |
| MusicGeneration.NonObjectIsUnexpected | music.py:267 | A parsed value that is not an object (a list, string, number, boolean or null) never yields audio. |
| MusicGeneration.UploadedIsObject | music.py:218-229 | When an upload was requested, generation is abandoned iff the upload returned None. A successful upload always yields an object. |
| MusicGeneration.GeneratedFileName | music.py:270 | The generated file is `generated_music_<timestamp>.mp3`. |
| MusicGeneration.FramedWrapped | music.py:231-233 | Framing an already `##`-wrapped text gives `##\n##` + text + `##\n##`. |
| MusicGeneration.GenerationFilesWritesOutput | music.py:266-284 | `generate_music` changes at most the generated file. It writes the decoded audio there exactly when the reply delivers audio, and otherwise leaves the disk as it was. |
| MusicGeneration.GenerateMusic | music.py:209-303 | When a requested upload fails: no POST, None, disk untouched. Otherwise the payload is POSTed once, and the disk changes as `GenerationFiles` says. The generated path is returned iff generation succeeds. |
| GenerateRoute.Respond | music.py:470-548 | Stages run in order, and one is entered only when every earlier one succeeded. A non-object body gives 500. Missing parameters give 400 with no stage run. The first failing stage gives 500 with its own message. 200 iff all three succeed, with the polished lyrics and `/audio/` + basename of the output. |
| GenerateRoute.SuccessServesGeneratedFile | music.py:529-534 | On success the audio URL is `/audio/generated_music_<timestamp>.mp3`. |
| GenerateRoute.SentAfterPolish | music.py:504-517 | A generation POST is made only after the download and the polish both succeeded, and it is the one `generate_music` makes for the downloaded file and the polished lyrics. |
| GenerateRoute.SentLyricsAreFramed | music.py:514-517 | The route passes the polished lyrics to `generate_music`, so the POSTed lyrics are their framing. |
| GenerateRoute.LyricsAreWrappedTwice | music.py:504-519 | The lyrics POSTed for generation are `##\n##` + the stripped chat content + `##\n##`, framed by `generate_music` on top of the polisher's wrapping. |
| GenerateRoute.DownloadWritesOnlyTarget | music.py:491 | The download stage changes at most `downloads/suno_<id>.mp3`, and nothing for a non-string URL. |
| GenerateRoute.GenerationWritesOnlyOutput | music.py:514-517 | The generation stage changes at most the generated file, and writes it when generation succeeds. |
| GenerateRoute.RouteWritesOnlyItsFiles | music.py:488-527 | The route changes at most the downloaded file and the generated file, and removes nothing. |
| GenerateRoute.SuccessLeavesBothFiles | music.py:488-534 | A successful request leaves both the downloaded track and the generated file on the disk. |
| GenerateRoute.HandleGenerate | music.py:470-548 | The handler's reply, the stages it entered and the payload it POSTed are those of `Respond`, and the disk ends as `DiskAfter` says. |
| GenerateRoute.RunDownload | music.py:488-500 | A path comes back iff the URL is a string and the download succeeds, and it is then the `downloads/suno_<id>.mp3` file on disk. A non-string URL fails without touching the disk. |
| GenerateRoute.RunGeneration | music.py:514-534 | The generation stage's reply, payload and disk effect are those the specification functions give. |
| PyText.Strip | music.py:264 | `str.strip`: the result is trimmed and no longer than the input. |
| PyText.StripKeepsInfix | music.py:264 | `str.strip` returns a contiguous slice of its input. |
| PyText.StripRemovesOnlySpace | music.py:264 | What `str.strip` removes on either side is whitespace only. |
| PyText.StripOfPadded | music.py:446 | Stripping whitespace padding off a trimmed text gives that text. |
| PyText.StripIdempotent | music.py:446 | Stripping twice is stripping once. |
| PyText.JoinSplit | music.py:314 | Joining the pieces of `str.split` with the separator gives back the string. |
| PyText.SplitJoin | music.py:314 | Splitting a join of separator-free pieces gives back the pieces. |
| PyText.LastSplitIsBasename | music.py:314 | The last piece of `split('/')` is `posixpath.basename`. |
| PyText.BasenameOfJoin | music.py:328 | `basename(join(dir, name))` is `name` for a `/`-free name. |
| Hex.FromHexOfToHex | music.py:276 | `bytes.fromhex` inverts `bytes.hex`. |
| Hex.FromHexWithoutSpaces | music.py:276 | Without whitespace, `fromhex` succeeds iff the string is an even number of hex digits, and then yields half as many bytes. |
| Hex.FromHexSkipsSpace | music.py:276 | ASCII whitespace inserted after any number of well-formed pairs does not change what `fromhex` decodes. |
| Bytes.FlattenAppend | music.py:330-334 | Writing one run of chunks and then another leaves the two runs' bytes one after the other. |
| Storage.Disk.WriteAll | music.py:277-278 | Opening with `wb` and writing leaves the file holding exactly the data, and changes nothing else. |
| Storage.FileHandle.Close | music.py:165-168 | The handle is closed afterwards. |

## Left out

- HTTP traffic (`requests`, `aiohttp`): each call is an input outcome. Headers, timeouts, the chat system prompt and sampling parameters have no behaviour to verify.
- JSON parsing: bodies arrive parsed, with `None` for a decode error. JSON numbers are reals, so Python's int/float distinction is lost.
- GenerateRoute.NoGetMessage: a number's Python type name is taken to be `int` when it is integral, which misnames a JSON float such as `1.0`.
- Flask wiring, `index` and `serve_audio`: framework shims.
- `request.json` failing on a non-JSON body (a 500 carrying Flask's error text): framework behaviour.
- The text of the exceptions caught by the route's outer handler. The only exception the route can meet is the `AttributeError` for a non-object body, and that one is modelled.
- Environment and `.env` loading, the constructors' credential checks and logging: startup configuration and output only.
- `generate_from_suno` and `separate_audio`: not on the route's path.
- `os.makedirs`, `mimetypes.guess_type` and `datetime.now()`: directories always exist, and the timestamp is an input. `open` for writing is taken to succeed. Only the upload models an `open` that raises.
- Upload.UploadFile: the source's `finally` clause also closes a handle left over from an earlier pass when the current pass's `open` raises. That second close of an already closed file has no effect and is not modelled.
- asyncio scheduling: each stage is awaited before the next starts, so the model runs them in sequence.

/**
  `LyricsPolisher.polish_lyrics`: the checks applied to the chat-completion
  reply and the `##…##` wrapping of the returned text. The request itself
  (system prompt, sampling parameters) carries no decision and is not modelled.
 */
module LyricsPolisher {
  import opened Wrappers
  import opened PyJson
  import opened PyText

  /** The POST to the chat endpoint: the session raised, or a status and the parsed body (None: json.loads raised). */
  datatype ChatReply =
    | ChatFailed
    | ChatResponse(status: int, body: Option<Json>)

  /**
    `result["choices"][0]["message"]["content"]` when `choices` is a
    non-empty list and the lookups reach a string; every other shape makes
    the source either take its "no lyrics" branch or raise, and both end in None.
   */
  function FirstChoiceText(result: Json): Option<string> {
    if !result.JObj? || "choices" !in result.fields then None
    else match result.fields["choices"]
      case JArr(items) =>
        if |items| == 0 || !items[0].JObj? || "message" !in items[0].fields then None
        else
          var message := items[0].fields["message"];
          if !message.JObj? || "content" !in message.fields || !message.fields["content"].JStr? then None
          else Some(message.fields["content"].s)
      case _ => None
  }

  /** The reply the source turns into lyrics. */
  predicate ReplyUsable(reply: ChatReply) {
    && reply.ChatResponse?
    && reply.status == 200
    && reply.body.Some?
    && StatusCodeIsZero(reply.body.value)
    && FirstChoiceText(reply.body.value).Some?
  }

  /** `"##" + text + "##"`, with no whitespace added. */
  function Wrap(text: string): string {
    "##" + text + "##"
  }

  /** The shape of every successful result: `##`, a trimmed text, `##`. */
  predicate IsPolished(s: string) {
    && |s| >= 4
    && s[..2] == "##"
    && s[|s| - 2..] == "##"
    && Trimmed(s[2..|s| - 2])
  }

  /** The text between the delimiters. */
  function Unwrap(s: string): string
    requires |s| >= 4
  {
    s[2..|s| - 2]
  }

  lemma UnwrapWrap(text: string)
    ensures |Wrap(text)| == |text| + 4
    ensures Unwrap(Wrap(text)) == text
  {
  }

  /**
    `polish_lyrics` on the given reply. It yields lyrics exactly when the
    reply is usable, and those lyrics are the stripped first choice between
    `##` delimiters.
   */
  function PolishLyrics(reply: ChatReply): (r: Option<string>)
    ensures r.Some? <==> ReplyUsable(reply)
    ensures r.Some? ==> IsPolished(r.value)
    ensures r.Some? ==> Unwrap(r.value) == Strip(FirstChoiceText(reply.body.value).value)
  {
    if reply.ChatFailed? || reply.status != 200 || reply.body.None? then None
    else if !StatusCodeIsZero(reply.body.value) then None
    else match FirstChoiceText(reply.body.value)
      case None => None
      case Some(content) =>
        var polished := Strip(content);
        UnwrapWrap(polished);
        Some(Wrap(polished))
  }

  /** Polished lyrics are never empty, so the route's `if not polished_lyrics` only sees failures. */
  lemma PolishedIsTruthy(reply: ChatReply)
    requires PolishLyrics(reply).Some?
    ensures |PolishLyrics(reply).value| >= 4
  {
  }

  /** The polished lyrics are the stripped content between `##` delimiters. */
  lemma PolishedIsWrappedContent(reply: ChatReply)
    requires PolishLyrics(reply).Some?
    ensures PolishLyrics(reply).value == Wrap(Strip(FirstChoiceText(reply.body.value).value))
  {
  }

  /** A well-formed reply body whose only choice has the given content. */
  function ReplyBody(content: string): Json {
    JObj(map[
      "base_resp" := JObj(map["status_code" := JNum(0.0)]),
      "choices" := JArr([JObj(map["message" := JObj(map["content" := JStr(content)])])])
    ])
  }

  lemma ReplyBodyUsable(content: string)
    ensures StatusCodeIsZero(ReplyBody(content))
    ensures FirstChoiceText(ReplyBody(content)) == Some(content)
  {
    var body := ReplyBody(content);
    assert body.fields["base_resp"] == JObj(map["status_code" := JNum(0.0)]);
    assert body.fields["choices"] == JArr([JObj(map["message" := JObj(map["content" := JStr(content)])])]);
  }

  /**
    A successful reply whose content is a text padded with whitespace yields
    exactly that text between `##` delimiters (so `" hi "` yields `"##hi##"`).
   */
  lemma PolishTrimsPadding(pre: string, text: string, post: string)
    requires AllSpace(pre) && AllSpace(post) && Trimmed(text)
    ensures PolishLyrics(ChatResponse(200, Some(ReplyBody(pre + text + post)))) == Some("##" + text + "##")
  {
    ReplyBodyUsable(pre + text + post);
    StripOfPadded(pre, text, post);
  }
}

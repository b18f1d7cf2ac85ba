/** `ChatGPTTTSHandler`: subscribes to the requester's response event and
    turns each received text into one speech request, then plays the clip
    that comes back. */
module TtsHandler {
  import opened Wrappers
  import opened JsonEscape
  import opened Effects

  /** The handler's own configuration: the key it loads for itself and
      whether an `AudioSource` is assigned. */
  datatype Handler = Handler(apiKey: Option<string>, hasAudioSource: bool)

  const PayloadHead: string := "{\"input\": \""
  const PayloadTail: string := "\", \"model\": \"tts-1\", \"voice\": \"onyx\", \"format\": \"mp3\"}"

  /** The speech request body: the escaped text as `input`, fixed model,
      voice and format; the text can be read back out of it unchanged. */
  function TtsPayload(text: string): (r: string)
    ensures |r| >= |PayloadHead| + |PayloadTail|
    ensures r[..|PayloadHead|] == PayloadHead
    ensures r[|r| - |PayloadTail|..] == PayloadTail
    ensures ExtractField(PayloadHead, PayloadTail, r) == Some(text)
  {
    ExtractFieldOfPayload(PayloadHead, text, PayloadTail);
    PayloadHead + EscapeJsonString(text) + PayloadTail
  }

  /** `HandleAIResponseForTTS` together with the synchronous start of
      `PostTTSRequest`: nothing without a key, otherwise exactly one speech
      request carrying the received text. */
  function HandleAiResponse(h: Handler, text: string): (r: seq<Effect>)
    ensures IsNullOrEmpty(h.apiKey) ==> r == []
    ensures !IsNullOrEmpty(h.apiKey) ==>
      |r| == 1 && r[0].TtsSent? && ExtractField(PayloadHead, PayloadTail, r[0].payload) == Some(text)
  {
    if IsNullOrEmpty(h.apiKey) then [] else [TtsSent(TtsPayload(text))]
  }

  /** The end of `PostTTSRequest`: a clip is played only on success with a
      non-null clip; a missing `AudioSource` then raises. On failure the
      error branch logs `downloadHandler.text`, which the audio-clip
      download handler refuses, so the coroutine ends with that exception. */
  function OnTtsResponse(h: Handler, outcome: Transport<Option<ClipHandle>>): (r: seq<Effect>)
    ensures forall c: ClipHandle :: ClipPlayed(c) in r <==> outcome == Delivered(Some(c)) && h.hasAudioSource
    ensures r == [] <==> outcome.Delivered? && outcome.body.None?
    ensures |r| <= 1
    ensures outcome.Failed? ==> r == [Threw(Responses.NotSupported)]
    ensures outcome.Delivered? && outcome.body.Some? && !h.hasAudioSource ==> r == [Threw(Responses.NullReference)]
  {
    match outcome
    case Failed(_) => [Threw(Responses.NotSupported)]
    case Delivered(None) => []
    case Delivered(Some(clip)) =>
      if h.hasAudioSource then [ClipPlayed(clip)] else [Threw(Responses.NullReference)]
  }
}

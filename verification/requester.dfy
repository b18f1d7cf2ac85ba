/** `ChatGPTRequester`: prompt composition, the image-prompt length limit,
    model selection, the hand-built request bodies, and the steps of the
    chat -> event -> image pipeline as functions from state to state. */
module Requester {
  import opened Wrappers
  import opened JsonEscape
  import opened Responses
  import opened Effects
  import TtsHandler

  // ---------------------------------------------------------------------
  // Prompt composition

  const TextMarker: string := ". NEGATIVE PROMPT - "
  const ImageMarker: string := ". NEGATIVE PROMPT = "

  /** The chat prompt: user text, theme instructions and the text negative
      prompt joined by fixed separators, with no escaping at this stage. */
  function ComposeTextPrompt(prompt: string, theme: string, negative: string): (r: string)
    ensures |r| == |prompt| + 2 + |theme| + |TextMarker| + |negative|
    ensures r[..|prompt|] == prompt
    ensures r[|prompt|..|prompt| + 2] == ". "
    ensures r[|prompt| + 2..|prompt| + 2 + |theme|] == theme
    ensures r[|prompt| + 2 + |theme|..|r| - |negative|] == TextMarker
    ensures r[|r| - |negative|..] == negative
  {
    prompt + ". " + theme + TextMarker + negative
  }

  /** The image prompt before truncation: the same shape, but with `=` in
      the negative-prompt marker. */
  function ComposeImagePrompt(completion: string, artStyle: string, negative: string): (r: string)
    ensures |r| == |completion| + 2 + |artStyle| + |ImageMarker| + |negative|
    ensures r[..|completion|] == completion
    ensures r[|completion|..|completion| + 2] == ". "
    ensures r[|completion| + 2..|completion| + 2 + |artStyle|] == artStyle
    ensures r[|completion| + 2 + |artStyle|..|r| - |negative|] == ImageMarker
    ensures r[|r| - |negative|..] == negative
  {
    completion + ". " + artStyle + ImageMarker + negative
  }

  /** On the same three inputs the two compositions differ in exactly one
      character: the `-` / `=` of the marker. */
  lemma TextAndImagePromptsDifferOnlyInMarker(a: string, b: string, c: string)
    ensures var t, m := ComposeTextPrompt(a, b, c), ComposeImagePrompt(a, b, c);
      |t| == |m| &&
      (forall i :: 0 <= i < |t| ==> (t[i] != m[i] <==> i == |a| + |b| + 20)) &&
      t[|a| + |b| + 20] == '-' && m[|a| + |b| + 20] == '='
  {
  }

  lemma ComposeTextPromptExample()
    ensures ComposeTextPrompt("tower", "dark", "gray") == "tower. dark. NEGATIVE PROMPT - gray"
  {
    var s := "tower" + ". " + "dark";
    assert s == "tower. dark";
    assert s + TextMarker + "gray" == "tower. dark. NEGATIVE PROMPT - gray";
  }


  // ---------------------------------------------------------------------
  // Image-prompt truncation

  const ImagePromptLimit: nat := 1000

  /** `string.LastIndexOf(char)`: the last index holding `c`, or -1. */
  function LastIndexOf(s: string, c: char): (k: int)
    ensures -1 <= k < |s|
    ensures k >= 0 ==> s[k] == c
    ensures forall j :: k < j < |s| ==> s[j] != c
  {
    if s == [] then -1
    else if s[|s| - 1] == c then |s| - 1
    else LastIndexOf(s[..|s| - 1], c)
  }

  /** The limit step of `PostDallERequest`: a prompt within the limit is
      kept; a longer one is cut to the limit and then, if the last ASCII
      space of the cut sits after index 0, cut again just before it.
      Only `' '` is a break point; a space at index 0 is ignored. */
  function TruncateImagePrompt(p: string): (r: string)
    ensures |p| <= ImagePromptLimit ==> r == p
    ensures |r| <= ImagePromptLimit
    ensures r == p[..|r|]
    ensures |p| > ImagePromptLimit && (forall j :: 0 < j < ImagePromptLimit ==> p[j] != ' ')
            ==> r == p[..ImagePromptLimit]
    ensures |p| > ImagePromptLimit && (exists j :: 0 < j < ImagePromptLimit && p[j] == ' ')
            ==> 0 < |r| < ImagePromptLimit && p[|r|] == ' '
                && forall j :: |r| < j < ImagePromptLimit ==> p[j] != ' '
  {
    if |p| <= ImagePromptLimit then p
    else
      var cut := p[..ImagePromptLimit];
      var k := LastIndexOf(cut, ' ');
      if k > 0 then cut[..k] else cut
  }

  /** Truncating an already truncated prompt changes nothing. */
  lemma TruncateImagePromptIdempotent(p: string)
    ensures TruncateImagePrompt(TruncateImagePrompt(p)) == TruncateImagePrompt(p)
  {
  }

  // ---------------------------------------------------------------------
  // Model selection and request bodies

  /** `GetModelName` on the underlying value of the `AIModel` enum field;
      a value outside the four declared members takes the default branch. */
  function ModelName(selected: int): (name: string)
    ensures name in ["gpt-3.5-turbo", "gpt-4", "gpt-4o", "gpt-4o-mini"]
    ensures 0 <= selected < 4 ==> name == ["gpt-3.5-turbo", "gpt-4", "gpt-4o", "gpt-4o-mini"][selected]
    ensures !(0 <= selected < 4) ==> name == "gpt-3.5-turbo"
  {
    match selected
    case 0 => "gpt-3.5-turbo"
    case 1 => "gpt-4"
    case 2 => "gpt-4o"
    case 3 => "gpt-4o-mini"
    case _ => "gpt-3.5-turbo"
  }

  /** The four declared models get four different names. */
  lemma ModelNamesDistinct(x: int, y: int)
    requires 0 <= x < 4 && 0 <= y < 4 && x != y
    ensures ModelName(x) != ModelName(y)
  {
  }

  function ChatHead(modelName: string): string
  {
    "{\"model\": \"" + modelName + "\", \"messages\": [{\"role\": \"user\", \"content\": \""
  }

  function ChatTail(maxTokensText: string, temperatureText: string): string
  {
    "\"}], \"max_tokens\": " + maxTokensText + ", \"temperature\": " + temperatureText + "}"
  }

  /** The chat request body; the numbers arrive already rendered as text. */
  function ChatPayload(modelName: string, prompt: string, maxTokensText: string, temperatureText: string): (r: string)
    ensures ExtractField(ChatHead(modelName), ChatTail(maxTokensText, temperatureText), r) == Some(prompt)
  {
    ExtractFieldOfPayload(ChatHead(modelName), prompt, ChatTail(maxTokensText, temperatureText));
    ChatHead(modelName) + EscapeJsonString(prompt) + ChatTail(maxTokensText, temperatureText)
  }

  const ImageHead: string := "{\"prompt\": \""
  const ImageTail: string := "\", \"n\": 1, \"size\": \"512x512\"}"

  /** The image request body: one 512x512 image for the escaped prompt. */
  function ImagePayload(prompt: string): (r: string)
    ensures ExtractField(ImageHead, ImageTail, r) == Some(prompt)
  {
    ExtractFieldOfPayload(ImageHead, prompt, ImageTail);
    ImageHead + EscapeJsonString(prompt) + ImageTail
  }

  // ---------------------------------------------------------------------
  // Pipeline

  /** A subscriber of `OnAIResponseReceived`. */
  datatype Subscriber = TtsSubscriber(handler: TtsHandler.Handler) | OtherSubscriber

  /** The requester's fields that the pipeline reads. `hasResponseText`
      and `hasDisplayImage` say whether those optional widgets are assigned. */
  datatype Config = Config(
    apiKey: Option<string>,
    selectedModel: int,
    themeInstructions: string,
    textNegativePrompt: string,
    imageNegativePrompt: string,
    artStyle: string,
    maxTokensText: string,
    temperatureText: string,
    hasResponseText: bool,
    hasDisplayImage: bool,
    subscribers: seq<Subscriber>)

  /** The response widget's text and everything done so far, in order. */
  datatype State = State(display: string, effects: seq<Effect>)

  /** `SendRequest`: with a loaded key, one chat request whose message is
      the composed prompt; without one, nothing at all. */
  function SendRequest(cfg: Config, st: State, prompt: string): (r: State)
    ensures IsNullOrEmpty(cfg.apiKey) ==> r == st
    ensures !IsNullOrEmpty(cfg.apiKey) ==>
      && r.display == st.display
      && |r.effects| == |st.effects| + 1
      && r.effects[..|st.effects|] == st.effects
      && r.effects[|st.effects|].ChatSent?
      && ExtractField(ChatHead(ModelName(cfg.selectedModel)),
                      ChatTail(cfg.maxTokensText, cfg.temperatureText),
                      r.effects[|st.effects|].payload)
         == Some(ComposeTextPrompt(prompt, cfg.themeInstructions, cfg.textNegativePrompt))
  {
    if IsNullOrEmpty(cfg.apiKey) then st
    else
      var modified := ComposeTextPrompt(prompt, cfg.themeInstructions, cfg.textNegativePrompt);
      var payload := ChatPayload(ModelName(cfg.selectedModel), modified, cfg.maxTokensText, cfg.temperatureText);
      st.(effects := st.effects + [ChatSent(payload)])
  }

  /** The prompt an image request carries for a given completion. */
  function ImagePromptFor(cfg: Config, completion: string): string
  {
    TruncateImagePrompt(ComposeImagePrompt(completion, cfg.artStyle, cfg.imageNegativePrompt))
  }

  /** The synchronous start of `PostDallERequest`: its own key guard, then
      one image request whose prompt is composed and truncated. */
  function PostDallERequest(cfg: Config, completion: string): (r: seq<Effect>)
    ensures IsNullOrEmpty(cfg.apiKey) ==> r == []
    ensures !IsNullOrEmpty(cfg.apiKey) ==>
      && |r| == 1 && r[0].ImageSent?
      && ExtractField(ImageHead, ImageTail, r[0].payload) == Some(ImagePromptFor(cfg, completion))
      && |ImagePromptFor(cfg, completion)| <= ImagePromptLimit
  {
    if IsNullOrEmpty(cfg.apiKey) then []
    else [ImageSent(ImagePayload(ImagePromptFor(cfg, completion)))]
  }

  /** What subscriber `i` does when called: it is notified, and a TTS
      handler then starts its speech request. */
  function Deliver(i: nat, s: Subscriber, content: string): (r: seq<Effect>)
    ensures |r| >= 1 && r[0] == Notified(i, content)
    ensures forall e :: e in r[1..] ==> e.TtsSent?
  {
    [Notified(i, content)] +
    (match s
     case TtsSubscriber(h) => TtsHandler.HandleAiResponse(h, content)
     case OtherSubscriber => [])
  }

  /** The number of TTS subscribers whose key is loaded. */
  function LoadedTtsSubscribers(subs: seq<Subscriber>): nat
  {
    if subs == [] then 0
    else
      LoadedTtsSubscribers(subs[..|subs| - 1]) + (if SpeaksWithKey(subs[|subs| - 1]) then 1 else 0)
  }

  /** `OnAIResponseReceived?.Invoke(content)`: every subscriber, in
      registration order, is called exactly once with the content; with no
      subscribers nothing happens. */
  function Invoke(subs: seq<Subscriber>, content: string): (r: seq<Effect>)
    ensures forall i :: 0 <= i < |subs| ==> Count(r, Notified(i, content)) == 1
    ensures forall e :: e in r ==>
      (e.Notified? && e.subscriber < |subs| && e.content == content) || e == TtsSent(TtsHandler.TtsPayload(content))
    ensures Count(r, TtsSent(TtsHandler.TtsPayload(content))) == LoadedTtsSubscribers(subs)
  {
    if subs == [] then []
    else
      var last := |subs| - 1;
      var front := Invoke(subs[..last], content);
      var tail := Deliver(last, subs[last], content);
      InvokeCounts(front, tail, last, content);
      InvokeTtsCount(front, last, subs[last], content);
      front + tail
  }

  /** Whether `s` starts a speech request when called. */
  predicate SpeaksWithKey(s: Subscriber)
  {
    s.TtsSubscriber? && !IsNullOrEmpty(s.handler.apiKey)
  }

  lemma DeliverTtsCount(i: nat, s: Subscriber, content: string)
    ensures Count(Deliver(i, s, content), TtsSent(TtsHandler.TtsPayload(content))) == if SpeaksWithKey(s) then 1 else 0
  {
    var d := Deliver(i, s, content);
    var e := TtsSent(TtsHandler.TtsPayload(content));
    assert d == [Notified(i, content)] + d[1..];
    CountAppend([Notified(i, content)], d[1..], e);
    if SpeaksWithKey(s) {
      assert d[1..] == [e];
    } else {
      assert d[1..] == [];
    }
  }

  /** Appending one subscriber's call adds one speech request iff that
      subscriber speaks with a key. */
  lemma InvokeTtsCount(front: seq<Effect>, i: nat, last: Subscriber, content: string)
    ensures Count(front + Deliver(i, last, content), TtsSent(TtsHandler.TtsPayload(content)))
         == Count(front, TtsSent(TtsHandler.TtsPayload(content))) + (if SpeaksWithKey(last) then 1 else 0)
  {
    CountAppend(front, Deliver(i, last, content), TtsSent(TtsHandler.TtsPayload(content)));
    DeliverTtsCount(i, last, content);
  }

  lemma InvokeCounts(front: seq<Effect>, tail: seq<Effect>, last: nat, content: string)
    requires forall i :: 0 <= i < last ==> Count(front, Notified(i, content)) == 1
    requires forall e :: e in front ==> (e.Notified? && e.subscriber < last) || e.TtsSent?
    requires |tail| >= 1 && tail[0] == Notified(last, content)
    requires forall e :: e in tail[1..] ==> e.TtsSent?
    ensures forall i :: 0 <= i <= last ==> Count(front + tail, Notified(i, content)) == 1
  {
    forall i | 0 <= i <= last
      ensures Count(front + tail, Notified(i, content)) == 1
    {
      CountAppend(front, tail, Notified(i, content));
      assert tail == [tail[0]] + tail[1..];
      CountAppend([tail[0]], tail[1..], Notified(i, content));
      assert Notified(i, content) !in tail[1..];
      if i == last {
        assert Notified(i, content) !in front;
      }
    }
  }

  /** The success branch of `PostChatGptRequest` once `content` has been
      read from the first choice. */
  function ChatSuccess(cfg: Config, st: State, content: string): (r: State)
    ensures |r.effects| >= |st.effects| && r.effects[..|st.effects|] == st.effects
    ensures r.display == (if cfg.hasResponseText then content else st.display)
    ensures var added := r.effects[|st.effects|..];
      && (forall i :: 0 <= i < |cfg.subscribers| ==> Count(added, Notified(i, content)) == 1)
      && ((exists k :: 0 <= k < |added| && added[k].ImageSent?)
          <==> cfg.hasDisplayImage && !IsNullOrEmpty(cfg.apiKey))
      && (forall j, k :: 0 <= j < |added| && 0 <= k < |added| && added[j].Notified? && added[k].ImageSent? ==> j < k)
    ensures var added := r.effects[|st.effects|..];
      forall e :: e in added ==>
        || (e.Notified? && e.subscriber < |cfg.subscribers| && e.content == content)
        || e == TtsSent(TtsHandler.TtsPayload(content))
        || IsImageRequestFor(e, ImagePromptFor(cfg, content))
    ensures var added := r.effects[|st.effects|..];
      cfg.hasDisplayImage && !IsNullOrEmpty(cfg.apiKey) ==>
        && |added| > 0
        && IsImageRequestFor(added[|added| - 1], ImagePromptFor(cfg, content))
        && (forall k :: 0 <= k < |added| - 1 ==> !added[k].ImageSent?)
    ensures Count(r.effects[|st.effects|..], TtsSent(TtsHandler.TtsPayload(content))) == LoadedTtsSubscribers(cfg.subscribers)
  {
    var shown := if cfg.hasResponseText then content else st.display;
    var notified := Invoke(cfg.subscribers, content);
    var image := if cfg.hasDisplayImage then PostDallERequest(cfg, content) else [];
    SuccessEffects(notified, image, |cfg.subscribers|, content);
    SuccessShape(notified, image, |cfg.subscribers|, content,
                 TtsSent(TtsHandler.TtsPayload(content)), ImagePromptFor(cfg, content));
    var added := notified + image;
    assert (st.effects + added)[..|st.effects|] == st.effects;
    assert (st.effects + added)[|st.effects|..] == added;
    State(shown, st.effects + added)
  }

  /** `PostChatGptRequest` after the response arrives. On failure the
      widget shows the error and nothing else happens. On success the
      widget shows `choices[0].message.content`, then the event fires once
      per subscriber, then an image request starts iff `displayImage` is
      assigned. A null or empty `choices` raises before the event. */
  function OnChatResponse(cfg: Config, st: State, outcome: Transport<Option<ChatResponse>>): (r: State)
    ensures |r.effects| >= |st.effects| && r.effects[..|st.effects|] == st.effects
    ensures outcome.Failed? ==>
      && r.effects == st.effects
      && r.display == (if cfg.hasResponseText then "Error: " + outcome.error else st.display)
    ensures outcome.Delivered? && FirstChoiceContent(outcome.body).Raised? ==>
      r == st.(effects := st.effects + [Threw(FirstChoiceContent(outcome.body).fault)])
    ensures forall e :: e in r.effects[|st.effects|..] && e.Notified? ==>
      outcome.Delivered? && FirstChoiceContent(outcome.body) == Found(e.content)
    ensures outcome.Delivered? && FirstChoiceContent(outcome.body).Found? ==>
      r == ChatSuccess(cfg, st, FirstChoiceContent(outcome.body).value)
  {
    match outcome
    case Failed(error) =>
      st.(display := if cfg.hasResponseText then "Error: " + error else st.display)
    case Delivered(body) =>
      match FirstChoiceContent(body)
      case Raised(fault) =>
        assert (st.effects + [Threw(fault)])[|st.effects|..] == [Threw(fault)];
        st.(effects := st.effects + [Threw(fault)])
      case Found(content) => ChatSuccess(cfg, st, content)
  }

  /** The effects of the success branch: each subscriber notified once
      with the content, then the image request iff there is one, after
      every notification. */
  lemma SuccessEffects(notified: seq<Effect>, image: seq<Effect>, subscribers: nat, content: string)
    requires forall i :: 0 <= i < subscribers ==> Count(notified, Notified(i, content)) == 1
    requires forall e :: e in notified ==> (e.Notified? && e.content == content) || e.TtsSent?
    requires forall e :: e in image ==> e.ImageSent?
    ensures var added := notified + image;
      && (forall i :: 0 <= i < subscribers ==> Count(added, Notified(i, content)) == 1)
      && (forall e :: e in added && e.Notified? ==> e.content == content)
      && ((exists k :: 0 <= k < |added| && added[k].ImageSent?) <==> |image| > 0)
      && (forall j, k :: 0 <= j < |added| && 0 <= k < |added| && added[j].Notified? && added[k].ImageSent? ==> j < k)
  {
    var added := notified + image;
    forall k | 0 <= k < |notified|
      ensures !added[k].ImageSent?
    {
      assert added[k] == notified[k];
      assert notified[k] in notified;
    }
    forall j | |notified| <= j < |added|
      ensures added[j].ImageSent?
    {
      assert added[j] == image[j - |notified|];
      assert image[j - |notified|] in image;
    }
    if |image| > 0 {
      assert added[|notified|].ImageSent?;
    }
    forall i | 0 <= i < subscribers
      ensures Count(added, Notified(i, content)) == 1
    {
      CountAppend(notified, image, Notified(i, content));
      assert Notified(i, content) !in image;
    }
  }

  /** Whether `e` is an image request whose body reads back as `prompt`. */
  predicate IsImageRequestFor(e: Effect, prompt: string)
  {
    e.ImageSent? && ExtractField(ImageHead, ImageTail, e.payload) == Some(prompt)
  }

  /** What the success branch adds and nothing else: notifications of the
      content, its speech requests, and at most one image request for
      `prompt`, which comes last. */
  lemma SuccessShape(notified: seq<Effect>, image: seq<Effect>, subscribers: nat, content: string,
                     tts: Effect, prompt: string)
    requires tts.TtsSent?
    requires forall e :: e in notified ==> (e.Notified? && e.subscriber < subscribers && e.content == content) || e == tts
    requires |image| <= 1 && forall e :: e in image ==> IsImageRequestFor(e, prompt)
    ensures var added := notified + image;
      && (forall e :: e in added ==>
            (e.Notified? && e.subscriber < subscribers && e.content == content) || e == tts || IsImageRequestFor(e, prompt))
      && (|image| > 0 ==>
            && IsImageRequestFor(added[|added| - 1], prompt)
            && (forall k :: 0 <= k < |added| - 1 ==> !added[k].ImageSent?))
      && Count(added, tts) == Count(notified, tts)
  {
    var added := notified + image;
    CountAppend(notified, image, tts);
    assert tts !in image;
    if |image| > 0 {
      assert added[|added| - 1] == image[0];
      forall k | 0 <= k < |added| - 1
        ensures !added[k].ImageSent?
      {
        assert added[k] == notified[k];
        assert notified[k] in notified;
      }
    }
  }

  /** `PostDallERequest` after the response arrives. A failure is appended
      to the widget text rather than replacing it; a success starts
      loading the first image's URL; null or empty `data` raises. */
  function OnImageResponse(cfg: Config, st: State, outcome: Transport<Option<ImageResponse>>): (r: State)
    ensures |r.effects| >= |st.effects| && r.effects[..|st.effects|] == st.effects
    ensures |r.display| >= |st.display| && r.display[..|st.display|] == st.display
    ensures outcome.Failed? && cfg.hasResponseText ==>
      r.display[|st.display|..] == "\nDALL-E Error: " + outcome.error && r.effects == st.effects
    ensures outcome.Failed? && !cfg.hasResponseText ==> r == st
    ensures outcome.Delivered? ==> r.display == st.display && |r.effects| == |st.effects| + 1
    ensures outcome.Delivered? ==>
      (r.effects[|st.effects|].TextureRequested? <==> FirstImageUrl(outcome.body).Found?)
    ensures outcome.Delivered? && FirstImageUrl(outcome.body).Found? ==>
      r.effects[|st.effects|].url == FirstImageUrl(outcome.body).value
    ensures outcome.Delivered? && FirstImageUrl(outcome.body).Raised? ==>
      r.effects == st.effects + [Threw(FirstImageUrl(outcome.body).fault)]
  {
    match outcome
    case Failed(error) =>
      if cfg.hasResponseText then st.(display := st.display + "\nDALL-E Error: " + error) else st
    case Delivered(body) =>
      match FirstImageUrl(body)
      case Raised(fault) => st.(effects := st.effects + [Threw(fault)])
      case Found(url) => st.(effects := st.effects + [TextureRequested(url)])
  }

  /** The speech handler's response step, applied to the shared log; the
      widget text is never touched by the speech branch. */
  function OnSpeechResponse(h: TtsHandler.Handler, st: State, outcome: Transport<Option<ClipHandle>>): (r: State)
    ensures r.display == st.display
    ensures |r.effects| >= |st.effects| && r.effects[..|st.effects|] == st.effects
    ensures forall c: ClipHandle ::
      (ClipPlayed(c) in r.effects[|st.effects|..] <==> outcome == Delivered(Some(c)) && h.hasAudioSource)
  {
    var added := TtsHandler.OnTtsResponse(h, outcome);
    assert (st.effects + added)[|st.effects|..] == added;
    st.(effects := st.effects + added)
  }
}

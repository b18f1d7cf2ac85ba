/** Whole runs of the pipeline, and the requester's unguarded chat step set
    against the guarded one in `ChatGPTUtility`. */
module Scenarios {
  import opened Wrappers
  import opened Responses
  import opened Effects
  import opened Requester
  import TtsHandler
  import ChatUtility

  /** A full run in which the image request fails while the speech request
      succeeds: the widget keeps the completion and gains the image error,
      the clip is still played, and the chat request came first. */
  lemma ImageFailureLeavesSpeechAlone(cfg: Config, h: TtsHandler.Handler, prompt: string,
                                      c: Choice, rest: seq<Choice>, imageError: string, clip: ClipHandle)
    requires !IsNullOrEmpty(cfg.apiKey) && cfg.hasResponseText && cfg.hasDisplayImage
    requires !IsNullOrEmpty(h.apiKey) && h.hasAudioSource
    requires cfg.subscribers == [TtsSubscriber(h)]
    ensures
      var st1 := SendRequest(cfg, State("", []), prompt);
      var st2 := OnChatResponse(cfg, st1, Delivered(Some(ChatResponse(Some([c] + rest)))));
      var st3 := OnImageResponse(cfg, st2, Failed(imageError));
      var st4 := OnSpeechResponse(h, st3, Delivered(Some(clip)));
      && st4.display == c.message.content + "\nDALL-E Error: " + imageError
      && |st4.effects| > 0 && st4.effects[0].ChatSent?
      && Count(st4.effects, Notified(0, c.message.content)) == 1
      && TtsSent(TtsHandler.TtsPayload(c.message.content)) in st4.effects
      && ClipPlayed(clip) in st4.effects
  {
    var content := c.message.content;
    var st1 := SendRequest(cfg, State("", []), prompt);
    var st2 := OnChatResponse(cfg, st1, Delivered(Some(ChatResponse(Some([c] + rest)))));
    var st3 := OnImageResponse(cfg, st2, Failed(imageError));
    assert |st1.effects| == 1 && st1.effects[0].ChatSent?;
    assert st2 == ChatSuccess(cfg, st1, content);
    SingleSpeakerChat(cfg, h, st1, content);
    assert st3.effects == st2.effects;
    SpeechStepKeeps(h, st3, Delivered(Some(clip)), Notified(0, content));
    SpeechStepKeeps(h, st3, Delivered(Some(clip)), TtsSent(TtsHandler.TtsPayload(content)));
  }

  /** The chat step with one speaking subscriber adds one notification and
      the speech request after what was already logged. */
  lemma SingleSpeakerChat(cfg: Config, h: TtsHandler.Handler, st: State, content: string)
    requires !IsNullOrEmpty(h.apiKey)
    requires cfg.subscribers == [TtsSubscriber(h)]
    requires Count(st.effects, Notified(0, content)) == 0
    ensures var r := ChatSuccess(cfg, st, content);
      && Count(r.effects, Notified(0, content)) == 1
      && TtsSent(TtsHandler.TtsPayload(content)) in r.effects
  {
    var r := ChatSuccess(cfg, st, content);
    var added := r.effects[|st.effects|..];
    var tts := TtsSent(TtsHandler.TtsPayload(content));
    assert r.effects == st.effects + added;
    CountAppend(st.effects, added, Notified(0, content));
    var inv := Invoke(cfg.subscribers, content);
    assert Count(inv, tts) == 1;
    assert added == inv + (if cfg.hasDisplayImage then PostDallERequest(cfg, content) else []);
    assert tts in inv;
  }

  /** The speech response step only appends a played clip or a fault:
      counts of and membership in anything else are unchanged. */
  lemma SpeechStepKeeps(h: TtsHandler.Handler, st: State, outcome: Transport<Option<ClipHandle>>, e: Effect)
    requires !e.ClipPlayed? && !e.Threw?
    ensures var r := OnSpeechResponse(h, st, outcome);
      && Count(r.effects, e) == Count(st.effects, e)
      && (e in r.effects <==> e in st.effects)
  {
    var r := OnSpeechResponse(h, st, outcome);
    var added := r.effects[|st.effects|..];
    assert r.effects == st.effects + added;
    CountAppend(st.effects, added, e);
    assert e !in added;
  }

  /** On the same parsed body the utility returns the trimmed text of what
      the requester writes to its widget, and null exactly where the
      requester's unguarded indexing raises. */
  lemma UtilityTrimsWhatRequesterShows(cfg: Config, st: State, key: Option<string>, prompt: string,
                                       model: string, maxTokens: int, body: Option<ChatResponse>)
    requires cfg.hasResponseText && !IsNullOrEmpty(key)
    ensures var requested := OnChatResponse(cfg, st, Delivered(body));
      var call := ChatUtility.SendChatGptRequest(key, prompt, model, maxTokens, Delivered(body));
      && (FirstChoiceContent(body).Found? ==> call.returned == Some(ChatUtility.Trim(requested.display)))
      && (FirstChoiceContent(body).Raised? ==>
            call.returned.None? && requested.display == st.display
            && requested.effects == st.effects + [Threw(FirstChoiceContent(body).fault)])
  {
  }
}

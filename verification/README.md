# Unity OpenAI suite — verified model of the pipeline core

This project models, in Dafny, the pure logic inside a small Unity/OpenAI
integration:

- **Prompt composition and the image-prompt limit** (`ChatGPTRequester`):
  the chat prompt and the image prompt are built by fixed concatenation
  with different negative-prompt markers (`-` and `=`). The image prompt is
  then held to 1000 characters by cutting back to the last ASCII space.
- **JSON string escaping** (`EscapeJsonString`, present word for word in
  both `ChatGPTRequester` and `ChatGPTTTSHandler`; one Dafny function
  serves both). It makes five `StringBuilder.Replace` passes. These are
  proved equal to a single per-character map. A matching unescape is
  proved a left and right inverse. The output is proved a valid JSON
  string body (section 7 of RFC 8259) exactly when the input holds no
  control character other than LF, CR and TAB.
- **The request pipeline** (`ChatGPTRequester`, `ChatGPTTTSHandler`):
  - key guards;
  - the chat success/failure branches;
  - the widget text, which is overwritten on chat results and appended to
    on image errors;
  - one call of the response event per subscriber;
  - the image request, issued iff `displayImage` is assigned;
  - the speech request, issued by the TTS subscriber;
  - clip playback.

  Each step is a function from a `State` (widget text plus an ordered log
  of `Effect`s) to the next `State`. Network answers are inputs of type
  `Transport` (`Delivered(body) | Failed(error)`).
- **The blocking chat helper** (`ChatGPTUtility.SendChatGPTRequest`):
  - the key guard;
  - the single-user-message request;
  - the guarded selection of the first choice, trimmed with .NET
    `string.Trim` semantics;
  - null on every failure.
- **The WAV decoder** (`WavUtility.ToAudioClip`), up to the creation of
  the runtime clip:
  - the fixed-offset 44-byte header, where only `RIFF` and `data` are
    checked;
  - short-read behaviour;
  - little-endian signed 16-bit samples.

  A canonical-file writer serves as the reference. Decoding what it writes
  is proved to give back the channel count, the rate and the samples.

Modules: `Wrappers`, `JsonEscape`, `Responses` (parsed response bodies and
the unguarded `[0]` look-ups), `Effects`, `Requester`, `TtsHandler`,
`ChatUtility`, `WavUtility`, `Scenarios` (whole runs and comparisons).

Behaviour of the code worth knowing:

- Truncation breaks only at the ASCII space `' '`. A space at index 0 is
  never a break point (`lastSpaceIndex > 0`).
- The decoder returns null (`NoClip`) when the `RIFF` or the `data` tag is
  wrong. The `WAVE` and `fmt ` tags are never checked. The sample count is
  the payload length halved, whatever the channel count.
- A `RIFF` buffer of 36 to 39 bytes yields null: the character read of the
  `data` tag comes back short and so fails the tag comparison. Shorter
  buffers, and 40–43-byte buffers that carry the tag, raise end-of-stream.
- The speech path asks for MP3 through the runtime's audio download
  handler and never calls the WAV decoder. The decoder is modelled on its
  own.
- A failed speech request ends with an exception: the error branch logs
  `downloadHandler.text`, and the runtime's audio-clip download handler
  does not support string access. The requester's failure branches use a
  buffer handler and are not affected.
- A chat response with null or empty `choices` raises inside the
  requester's coroutine. The widget is not updated and no event fires.

## Model

| member | source | states |
|---|---|---|
| JsonEscape.ReplaceChar | ChatGPTRequester.cs:279 | one replace pass leaves a string without the target unchanged, and removes every target when the replacement does not contain it |
| JsonEscape.EscapeJsonString | ChatGPTRequester.cs:276-285 | the five replace passes (the copy at ChatGPTTTSHandler.cs:106-115 is identical): text without any of the five special characters comes back unchanged, no raw TAB survives, and the result is never shorter; EscapeJsonStringIsSinglePass pins it down completely |
| JsonEscape.Escape | ChatGPTRequester.cs:276-285 | the escaped text is never shorter than the input and holds no raw LF, CR or TAB |
| JsonEscape.EscapeJsonStringIsSinglePass | ChatGPTRequester.cs:278-284 | the five sequential replace passes equal the single per-character map (`\`, `"`, LF, CR, TAB to backslash pairs) |
| JsonEscape.EscapeJsonStringAppend | ChatGPTTTSHandler.cs:106-115 | the five-pass escape distributes over concatenation |
| JsonEscape.EscapeFixesPlainText | ChatGPTRequester.cs:278-284 | text containing none of the five special characters passes through unchanged |
| JsonEscape.UnescapeEscape | ChatGPTRequester.cs:276-285 | unescaping the escape of any string gives that string back |
| JsonEscape.EscapeUnescape | ChatGPTRequester.cs:276-285 | wherever unescape succeeds, escaping its result rebuilds the input, so unescape(t) = s exactly when t = escape(s) |
| JsonEscape.EscapeIsJsonIff | ChatGPTRequester.cs:276-285 | the escape is a valid RFC 8259 string body iff the input has no control character below U+0020 other than LF, CR, TAB |
| JsonEscape.ExtractFieldOfPayload | ChatGPTRequester.cs:214 | a body built as head + escape(value) + tail gives back exactly value |
| Responses.First | ChatGPTRequester.cs:150 | `[0]` on a null array raises a null reference, on an empty one raises index-out-of-range, otherwise yields element 0 |
| Responses.FirstChoiceContent | ChatGPTRequester.cs:149-150 | `choices[0].message.content` is found iff the body and `choices` are non-null and `choices` is non-empty, and is then the first choice's content; a null body or `choices` raises a null reference, an empty `choices` raises index-out-of-range |
| Responses.FirstImageUrl | ChatGPTRequester.cs:247-248 | `data[0].url` is found iff the body and `data` are non-null and `data` is non-empty, and is then the first entry's URL; a null body or `data` raises a null reference, an empty `data` raises index-out-of-range |
| Responses.FirstChoiceIgnoresRest | ChatGPTRequester.cs:150 | only the first choice's content is read; later choices are ignored |
| Requester.ComposeTextPrompt | ChatGPTRequester.cs:104 | the chat prompt splits into prompt, ". ", theme, the `-` marker and the negative prompt, with no escaping |
| Requester.ComposeImagePrompt | ChatGPTRequester.cs:197 | the image prompt splits into completion, ". ", art style, the `=` marker and the negative prompt |
| Requester.TextAndImagePromptsDifferOnlyInMarker | ChatGPTRequester.cs:197 | on equal inputs the two prompts have equal length and differ only at the marker character (`-` against `=`) |
| Requester.ComposeTextPromptExample | ChatGPTRequester.cs:104 | "tower", "dark", "gray" compose to "tower. dark. NEGATIVE PROMPT - gray" |
| Requester.LastIndexOf | ChatGPTRequester.cs:206 | the result holds the character and nothing after it does; -1 when it is absent |
| Requester.TruncateImagePrompt | ChatGPTRequester.cs:199-211 | a prompt of at most 1000 chars is unchanged; otherwise the result is a prefix of at most 1000 chars. With no space at indices 1..999 it is exactly the first 1000 chars; otherwise it stops right before the last such space |
| Requester.TruncateImagePromptIdempotent | ChatGPTRequester.cs:200-211 | truncating an already truncated prompt changes nothing |
| Requester.ModelName | ChatGPTRequester.cs:169-184 | members 0..3 map to "gpt-3.5-turbo", "gpt-4", "gpt-4o", "gpt-4o-mini" in that order, and an enum value outside the four members gets "gpt-3.5-turbo" |
| Requester.ModelNamesDistinct | ChatGPTRequester.cs:171-180 | the four declared models map to four different names |
| Requester.ChatPayload | ChatGPTRequester.cs:114 | the chat body carries the prompt so that it reads back unchanged between the fixed head and tail |
| Requester.ImagePayload | ChatGPTRequester.cs:214 | the image body carries the (truncated) prompt so that it reads back unchanged |
| Requester.SendRequest | ChatGPTRequester.cs:94-106 | no key: state unchanged. Otherwise exactly one chat request is appended; it carries the composed text prompt and the widget is untouched |
| Requester.PostDallERequest | ChatGPTRequester.cs:187-214 | no key: nothing. Otherwise one image request whose prompt is the composed, truncated image prompt, at most 1000 chars |
| Requester.Invoke | ChatGPTRequester.cs:158 | each subscriber is called exactly once with the content; the only other effects are speech requests for that content, one per TTS subscriber with a key |
| Requester.Deliver | ChatGPTRequester.cs:158 | one subscriber call: it is notified first with the content, and anything after that is a speech request (the TTS subscriber at ChatGPTTTSHandler.cs:44-53) |
| Requester.ChatSuccess | ChatGPTRequester.cs:146-165 | the widget shows the content. Each subscriber is notified once. Every added effect is a notification with the content, a speech request for the content (one per TTS subscriber with a key), or the image request. The image request exists iff `displayImage` is assigned and the key is loaded; it is then the only one, it comes last, and its body carries the composed, truncated image prompt of the completion |
| Requester.OnChatResponse | ChatGPTRequester.cs:137-165 | the log only grows. Failure: widget shows "Error: " + error and no effect. Null or empty `choices`: one exception, widget untouched. A notification appears only on success with its content |
| Requester.SuccessEffects | ChatGPTRequester.cs:152-164 | within the success branch, notifications all precede the image request, and each subscriber's count stays one |
| Requester.SuccessShape | ChatGPTRequester.cs:158-164 | the success branch adds only notifications of the content, its speech requests and at most one image request for the given prompt, which comes last; adding the image request leaves the speech-request count unchanged |
| Requester.OnImageResponse | ChatGPTRequester.cs:235-252 | the widget text only gains a suffix. Failure appends "\nDALL-E Error: " + error. Success starts loading `data[0].url`. A null body or null or empty `data` adds exactly the raised fault and nothing else |
| Requester.OnSpeechResponse | ChatGPTTTSHandler.cs:81-102 | the speech step never touches the widget; a clip is played iff the request succeeded with a non-null clip and an audio source |
| TtsHandler.TtsPayload | ChatGPTTTSHandler.cs:58 | the speech body starts with the `input` head, ends with the fixed model/voice/format tail, and the text reads back unchanged |
| TtsHandler.HandleAiResponse | ChatGPTTTSHandler.cs:44-53 | no key: no request. Otherwise exactly one speech request, carrying the received text |
| TtsHandler.OnTtsResponse | ChatGPTTTSHandler.cs:81-102 | a null clip: nothing. Failure: reading `downloadHandler.text` on the audio-clip handler raises a not-supported exception, and that is the only effect. A clip is played iff success, non-null clip and assigned audio source. A non-null clip without an audio source raises a null reference and does nothing else |
| ChatUtility.LeadingWhiteSpace | ChatGPTUtility.cs:61 | counts exactly the leading run of `char.IsWhiteSpace` characters |
| ChatUtility.Trim | ChatGPTUtility.cs:61 | the result is a contiguous part of the input with only whitespace removed at both ends and no whitespace at either end; empty iff the input is all whitespace |
| ChatUtility.TrimIdempotent | ChatGPTUtility.cs:61 | trimming a trimmed string is a no-op |
| ChatUtility.SendChatGptRequest | ChatGPTUtility.cs:22-76 | no key: nothing sent, null. Otherwise one request with a single "user" message holding the prompt. The result is non-null iff success with at least one choice, and then it is the first choice's trimmed content |
| WavUtility.I32At | WavUtility.cs:40 | a 32-bit little-endian read lies in the signed 32-bit range |
| WavUtility.ToInt16 | WavUtility.cs:49 | the `(short)` cast lies in [-32768, 32767] and agrees with the 16-bit pattern modulo 65536 |
| WavUtility.Samples | WavUtility.cs:46-50 | the sample count is half the payload length, rounded down; sample i is the signed value of bytes 2i (low) and 2i+1 (high), within [-32768, 32767] |
| WavUtility.ToAudioClip | WavUtility.cs:6-55 | with the tags compared as raw bytes (see "Left out" for non-ASCII tag bytes): null iff `RIFF` is missing or the `data` tag is not at 36..39. End-of-stream iff a `RIFF` buffer is shorter than 36 bytes, or is 40–43 bytes long with the `data` tag in place. Negative `dataSize` raises. On success: channels from bytes 22-23, rate from 24-27, samples from bytes 44..min(44+dataSize, length) |
| WavUtility.UncheckedFieldsIgnored | WavUtility.cs:19-30 | bytes 4..21 and 28..35 (chunk size, `WAVE`, `fmt `, format size, format, byte rate, block align, bit depth) do not affect the result |
| WavUtility.SamplesOfEncodeSamples | WavUtility.cs:46-50 | decoding the samples of an encoded 16-bit sample list gives the list back |
| WavUtility.DecodeEncodeWav | WavUtility.cs:6-55 | a canonical file written from channels, rate and samples decodes to exactly those |
| WavUtility.StereoEightSamples | WavUtility.cs:26-50 | a two-channel file with eight samples decodes to two channels and eight samples |
| Scenarios.ImageFailureLeavesSpeechAlone | ChatGPTRequester.cs:239-242 | in a full run with a failed image request, the widget shows completion + image error, the subscriber is notified once, and the speech request is sent and its clip played |
| Scenarios.SingleSpeakerChat | ChatGPTRequester.cs:146-165 | with one TTS subscriber holding a key, the chat step notifies it exactly once and its speech request is logged |
| Scenarios.SpeechStepKeeps | ChatGPTTTSHandler.cs:81-102 | the speech response step leaves the count of, and membership in, every effect other than a played clip or a fault unchanged |
| Scenarios.UtilityTrimsWhatRequesterShows | ChatGPTUtility.cs:59-66 | on the same body the utility returns Trim of what the requester shows, and null exactly where the requester's indexing raises |

## Left out

- Transport: `UnityWebRequest`, coroutines and `yield`, and the busy-wait loop in `ChatGPTUtility` are not modelled. Each network answer is a `Transport` input.
- Key loading: reading the key file (`File.Exists`, `ReadAllText`, its `Trim`) is I/O. The loaded key is an `Option<string>` input.
- JSON parsing and serialisation: `JsonUtility.FromJson` / `ToJson` are foreign calls. Responses are already-parsed datatypes. `message` and `content` are taken as non-null, as the runtime's serialiser fills nested serialisable fields. `ChatUtility.ChatRequest` leaves out the float `temperature`.
- Number formatting: `maxTokens` and the float `temperature` inside the hand-built chat body are culture-dependent. `Requester.ChatPayload` takes their rendered text as inputs.
- ChatUtility.SendChatGptRequest: the C# default arguments (`model = "gpt-3.5-turbo"`, `temperature = 0.7f`, `maxTokens = 512`) are not modelled; callers pass the model and `maxTokens` explicitly, and the temperature is not modelled at all.
- Float normalisation: the `/ 32768.0f` step is not modelled. Samples stay integers; their range bound gives [-1, 1) after the division.
- Foreign Unity calls:
  - `AudioClip.Create` / `SetData`;
  - MP3 decoding in the audio download handler (a clip is an opaque `ClipHandle`);
  - the texture download in `LoadImage` and the `RawImage` assignment (the model stops at `TextureRequested(url)`).
- UI and logging: Inspector fields, `Debug.Log*`, button wiring and `SendRequestFromInputField` are not modelled.
- WavUtility.ToAudioClip: requires bytes 8..15 to be ASCII. The header's character reads decode UTF-8, and a multi-byte sequence there would shift every later offset; such buffers are not modelled.
- WavUtility.ToAudioClip: allocation failure is not modelled. `ReadBytes(dataSize)` allocates `dataSize` bytes before it reads, so a huge declared size (bytes 40..43 = FF FF FF 7F, 2147483647) can raise an out-of-memory error. The model answers `Clip` with the bytes actually present.
- WavUtility.ToAudioClip: compares the `RIFF` and `data` tags (bytes 0..3 and 36..39) as raw bytes, so it is exact only when those bytes are ASCII. With non-ASCII bytes there, the reader's stateful UTF-8 decoder can consume bytes past the tag, or be asked to write two characters into the last free slot and throw an argument exception. Examples are `RIF`, 0xC3, `A` at the start, and a 4-byte sequence starting at byte 3 or 39. The model answers `NoClip` for such buffers, so its "null iff" is not promised for them.
- Strings are sequences of Unicode scalar values. C# strings count UTF-16 code units, so lengths and the 1000-character cut agree only for text in the Basic Multilingual Plane.
- Null strings in C# concatenation behave as empty. The model's strings are never null.
- Event delivery: the subscriber list is explicit (`Subscriber`). Exceptions thrown inside a subscriber are not modelled.

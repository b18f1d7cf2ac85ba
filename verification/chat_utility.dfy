/** `ChatGPTUtility.SendChatGPTRequest`: a blocking chat call that returns
    the first choice's trimmed content, or null on every failure. */
module ChatUtility {
  import opened Wrappers
  import opened Responses

  /** `char.IsWhiteSpace`: the Unicode separators plus U+0009..U+000D and U+0085. */
  predicate IsWhiteSpace(c: char)
  {
    || ('\t' <= c <= '\r')
    || c == ' '
    || c == '\U{0085}'
    || c == '\U{00A0}'
    || c == '\U{1680}'
    || ('\U{2000}' <= c <= '\U{200A}')
    || c == '\U{2028}'
    || c == '\U{2029}'
    || c == '\U{202F}'
    || c == '\U{205F}'
    || c == '\U{3000}'
  }

  /** Length of the whitespace run at the start of `s`. */
  function LeadingWhiteSpace(s: string): (n: nat)
    ensures n <= |s|
    ensures forall i :: 0 <= i < n ==> IsWhiteSpace(s[i])
    ensures n < |s| ==> !IsWhiteSpace(s[n])
  {
    if s == [] || !IsWhiteSpace(s[0]) then 0 else 1 + LeadingWhiteSpace(s[1..])
  }

  /** Length of the whitespace run at the end of `s`. */
  function TrailingWhiteSpace(s: string): (n: nat)
    ensures n <= |s|
    ensures forall i :: |s| - n <= i < |s| ==> IsWhiteSpace(s[i])
    ensures n < |s| ==> !IsWhiteSpace(s[|s| - n - 1])
  {
    if s == [] || !IsWhiteSpace(s[|s| - 1]) then 0 else 1 + TrailingWhiteSpace(s[..|s| - 1])
  }

  /** `string.Trim()`: `s` with the whitespace at both ends removed and
      nothing else changed. */
  function Trim(s: string): (r: string)
    ensures r == [] || (!IsWhiteSpace(r[0]) && !IsWhiteSpace(r[|r| - 1]))
    ensures r == [] <==> forall i :: 0 <= i < |s| ==> IsWhiteSpace(s[i])
    ensures var a := LeadingWhiteSpace(s);
      && a + |r| <= |s|
      && r == s[a..a + |r|]
      && (forall i :: 0 <= i < a ==> IsWhiteSpace(s[i]))
      && (forall i :: a + |r| <= i < |s| ==> IsWhiteSpace(s[i]))
  {
    var a := LeadingWhiteSpace(s);
    var rest := s[a..];
    var b := TrailingWhiteSpace(rest);
    var r := rest[..|rest| - b];
    TrimFacts(s, a, rest, b, r);
    r
  }

  lemma TrimFacts(s: string, a: nat, rest: string, b: nat, r: string)
    requires a <= |s| && rest == s[a..] && b <= |rest| && r == rest[..|rest| - b]
    requires forall i :: 0 <= i < a ==> IsWhiteSpace(s[i])
    requires a < |s| ==> !IsWhiteSpace(s[a])
    requires forall i :: |rest| - b <= i < |rest| ==> IsWhiteSpace(rest[i])
    requires b < |rest| ==> !IsWhiteSpace(rest[|rest| - b - 1])
    ensures r == [] || (!IsWhiteSpace(r[0]) && !IsWhiteSpace(r[|r| - 1]))
    ensures r == [] <==> forall i :: 0 <= i < |s| ==> IsWhiteSpace(s[i])
    ensures a + |r| <= |s| && r == s[a..a + |r|]
    ensures forall i :: a + |r| <= i < |s| ==> IsWhiteSpace(s[i])
  {
    forall i | a + |r| <= i < |s|
      ensures IsWhiteSpace(s[i])
    {
      assert s[i] == rest[i - a];
    }
    if r != [] {
      assert r[0] == s[a];
      assert r[|r| - 1] == rest[|rest| - b - 1];
    }
  }

  /** Trimming twice is the same as trimming once. */
  lemma TrimIdempotent(s: string)
    ensures Trim(Trim(s)) == Trim(s)
  {
  }

  /** The request object serialised by `JsonUtility.ToJson`; the float
      `temperature` is not part of the model. */
  datatype ChatRequest = ChatRequest(model: string, messages: seq<Message>, maxTokens: int)

  /** What one call does: the request it sends, if any, and what it returns
      (`None` for null). */
  datatype Call = Call(sent: Option<ChatRequest>, returned: Option<string>)

  /** `ChatGPTUtility`'s own guard on the parsed body. */
  predicate HasChoices(body: Option<ChatResponse>)
  {
    body.Some? && body.value.choices.Some? && |body.value.choices.value| > 0
  }

  /** `SendChatGPTRequest` with the loaded key and the transport's answer as
      inputs: no key means nothing is sent and null is returned; otherwise
      one request with a single user message holding the prompt is sent;
      the result is the first choice's trimmed content, or null on a
      transport failure, a null body, or null or empty `choices`. */
  function SendChatGptRequest(apiKey: Option<string>, prompt: string, model: string, maxTokens: int,
                              outcome: Transport<Option<ChatResponse>>): (r: Call)
    ensures IsNullOrEmpty(apiKey) ==> r == Call(None, None)
    ensures !IsNullOrEmpty(apiKey) ==>
      r.sent == Some(ChatRequest(model, [Message("user", prompt)], maxTokens))
    ensures r.returned.Some? <==>
      !IsNullOrEmpty(apiKey) && outcome.Delivered? && FirstChoiceContent(outcome.body).Found?
    ensures r.returned.Some? ==>
      r.returned.value == Trim(FirstChoiceContent(outcome.body).value)
    ensures r.returned.Some? ==> Trim(r.returned.value) == r.returned.value
  {
    if IsNullOrEmpty(apiKey) then Call(None, None)
    else
      var request := ChatRequest(model, [Message("user", prompt)], maxTokens);
      match outcome
      case Failed(_) => Call(Some(request), None)
      case Delivered(body) =>
        if HasChoices(body) then
          var content := body.value.choices.value[0].message.content;
          TrimIdempotent(content);
          Call(Some(request), Some(Trim(content)))
        else Call(Some(request), None)
  }
}

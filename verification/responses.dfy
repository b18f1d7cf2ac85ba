/** Already-parsed response bodies of the chat-completion and image
    endpoints, and the unguarded `[0]` look-ups the requester performs on them. */
module Responses {
  import opened Wrappers

  datatype Message = Message(role: string, content: string)

  datatype Choice = Choice(message: Message, finishReason: string)

  /** `OpenAIResponse`: `choices` is `None` when the array is null. */
  datatype ChatResponse = ChatResponse(choices: Option<seq<Choice>>)

  datatype ImageData = ImageData(url: string)

  /** `DallEResponse`: `data` is `None` when the array is null. */
  datatype ImageResponse = ImageResponse(data: Option<seq<ImageData>>)

  /** The runtime exceptions the pipeline can raise: an unguarded member
      access or index, and reading `text` from an audio download handler,
      which does not support string access. */
  datatype Fault = NullReference | IndexOutOfRange | NotSupported

  /** The value of an unguarded look-up, or the exception it raises. */
  datatype Lookup<+T> = Found(value: T) | Raised(fault: Fault)

  /** The first element of a possibly-null array, as C# indexing `[0]` yields it. */
  function First<T>(items: Option<seq<T>>): (r: Lookup<T>)
    ensures r.Found? <==> items.Some? && |items.value| > 0
    ensures r.Found? ==> r.value == items.value[0]
    ensures r == Raised(NullReference) <==> items.None?
    ensures r == Raised(IndexOutOfRange) <==> items == Some([])
  {
    match items
    case None => Raised(NullReference)
    case Some(xs) => if |xs| == 0 then Raised(IndexOutOfRange) else Found(xs[0])
  }

  /** `response.choices[0].message.content` on a possibly-null parsed body. */
  function FirstChoiceContent(body: Option<ChatResponse>): (r: Lookup<string>)
    ensures r.Found? <==> body.Some? && body.value.choices.Some? && |body.value.choices.value| > 0
    ensures r.Found? ==> r.value == body.value.choices.value[0].message.content
    ensures r == Raised(NullReference) <==> body.None? || body.value.choices.None?
    ensures r == Raised(IndexOutOfRange) <==> body.Some? && body.value.choices == Some([])
  {
    match body
    case None => Raised(NullReference)
    case Some(resp) =>
      match First(resp.choices)
      case Raised(f) => Raised(f)
      case Found(c) => Found(c.message.content)
  }

  /** `response.data[0].url` on a possibly-null parsed body. */
  function FirstImageUrl(body: Option<ImageResponse>): (r: Lookup<string>)
    ensures r.Found? <==> body.Some? && body.value.data.Some? && |body.value.data.value| > 0
    ensures r.Found? ==> r.value == body.value.data.value[0].url
    ensures r == Raised(NullReference) <==> body.None? || body.value.data.None?
    ensures r == Raised(IndexOutOfRange) <==> body.Some? && body.value.data == Some([])
  {
    match body
    case None => Raised(NullReference)
    case Some(resp) =>
      match First(resp.data)
      case Raised(f) => Raised(f)
      case Found(d) => Found(d.url)
  }

  /** Only the first choice matters: whatever follows it is ignored. */
  lemma FirstChoiceIgnoresRest(c: Choice, rest: seq<Choice>)
    ensures FirstChoiceContent(Some(ChatResponse(Some([c] + rest)))) == Found(c.message.content)
  {
  }
}

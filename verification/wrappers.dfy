/** Small failure-carrying datatypes shared by every part of the model. */
module Wrappers {

  /** A value that may be absent; stands for a C# reference that may be null. */
  datatype Option<+T> = None | Some(value: T)

  /** What a web request hands back: the (already parsed) body on success,
      or the transport/API error text on failure. */
  datatype Transport<+T> = Delivered(body: T) | Failed(error: string)

  /** `string.IsNullOrEmpty` on a key that may be null. */
  predicate IsNullOrEmpty(s: Option<string>)
  {
    s.None? || s.value == ""
  }
}

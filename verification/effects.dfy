/** The observable things the pipeline does: requests put on the wire,
    event deliveries, playback, and exceptions that end a coroutine. */
module Effects {
  import opened Responses

  /** A handle for an `AudioClip` produced by the runtime. */
  type ClipHandle = nat

  datatype Effect =
    | ChatSent(payload: string)                  // chat-completion POST body
    | Notified(subscriber: nat, content: string) // one event subscriber called
    | ImageSent(payload: string)                 // image-generation POST body
    | TextureRequested(url: string)              // `LoadImage(url)` started
    | TtsSent(payload: string)                   // speech POST body
    | ClipPlayed(clip: ClipHandle)               // clip assigned and `Play()` called
    | Threw(fault: Fault)                        // exception ended the coroutine

  /** How many times `e` occurs in `es`: the multiplicity `multiset(es)[e]`
      (CountIsMultiplicity), written out element by element so that proofs
      about a growing effect log can step through it. */
  function Count(es: seq<Effect>, e: Effect): (n: nat)
    ensures n <= |es|
    ensures n == 0 <==> e !in es
  {
    if es == [] then 0 else (if es[0] == e then 1 else 0) + Count(es[1..], e)
  }

  lemma {:induction false} CountAppend(a: seq<Effect>, b: seq<Effect>, e: Effect)
    ensures Count(a + b, e) == Count(a, e) + Count(b, e)
  {
    if a == [] {
      assert a + b == b;
    } else {
      assert (a + b)[1..] == a[1..] + b;
      CountAppend(a[1..], b, e);
    }
  }

  lemma {:induction false} CountIsMultiplicity(es: seq<Effect>, e: Effect)
    ensures Count(es, e) == multiset(es)[e]
  {
    if es != [] {
      assert es == [es[0]] + es[1..];
      CountIsMultiplicity(es[1..], e);
    }
  }
}

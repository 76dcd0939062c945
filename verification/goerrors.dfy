/** Go error values as this library creates and inspects them: leaf errors
    that come from a library or from fmt.Errorf, and the wrappers made by
    github.com/pkg/errors. */
module GoErrors {
  import opened Results

  /** An error value. `Wrapped(m, c)` is what errors.Wrap(c, m) returns. */
  datatype Error =
    | Failure(text: string)
    | Wrapped(message: string, cause: Error)

  /** err.Error(): a wrapper prints its own message, a colon and a space, and
      then the text of the error it wraps. */
  function Text(e: Error): string
  {
    match e
    case Failure(t) => t
    case Wrapped(m, c) => m + ": " + Text(c)
  }

  /** errors.Cause: the innermost error underneath every wrapper. */
  function Cause(e: Error): (r: Error)
    ensures r.Failure?
    ensures e.Failure? ==> r == e
  {
    match e
    case Failure(_) => e
    case Wrapped(_, c) => Cause(c)
  }

  /** errors.Wrap(e, message) for a non-nil e: the result keeps e as its
      cause and prefixes e's text with the message. */
  function Wrap(e: Error, message: string): (r: Error)
    ensures Cause(r) == Cause(e)
    ensures Text(r) == message + ": " + Text(e)
    ensures Unwrap(r) == Some(e)
  {
    Wrapped(message, e)
  }

  /** One step of unwrapping; the partner of Wrap. github.com/pkg/errors
      builds a Wrap from two layers, a stack record around a message; one
      step here stands for both, since nothing in the client unwraps them
      separately. */
  function Unwrap(e: Error): Option<Error>
  {
    match e
    case Failure(_) => None
    case Wrapped(_, c) => Some(c)
  }

  /** Text of a wrapped error starts with the wrapper's message. */
  lemma WrapTextPrefix(e: Error, message: string)
    ensures |Text(Wrap(e, message))| >= |message| + 2
    ensures Text(Wrap(e, message))[..|message|] == message
  {
  }

  /** However many wrappers sit on an error, its text still ends with the
      text of its cause: wrapping only ever adds context in front. */
  lemma {:induction false} TextEndsWithCause(e: Error)
    ensures |Text(Cause(e))| <= |Text(e)|
    ensures Text(e)[|Text(e)| - |Text(Cause(e))|..] == Text(Cause(e))
  {
    match e
    case Failure(_) =>
    case Wrapped(m, c) =>
      TextEndsWithCause(c);
      var t := Text(c);
      assert Text(e) == (m + ": ") + t;
      assert Text(e)[|Text(e)| - |t|..] == t;
  }
}

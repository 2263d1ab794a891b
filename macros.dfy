/** src/macros.rs: `IntoResult`, which brings a `Result` or an `Option` to the common shape
    `Result<T, Option<E>>`, and the `unwrap_or_return!` macro built on it, which yields the
    value or runs a handler and returns from the enclosing function.

    The handlers are arbitrary closures; the model records which handler was called with what,
    in order, and whether the enclosing function goes on or returns. */
module Macros {

  import opened Wrappers

  /** `IntoResult for Result<T, E>` (lines 10-17): `map_err(Some)`. */
  function ResultIntoResult<T, E>(r: Result<T, E>): (o: Result<T, Option<E>>)
    ensures o.Ok? <==> r.Ok?
    ensures o.Ok? ==> o.value == r.value
    ensures o.Err? ==> o.error == Some(r.error)
  {
    match r
    case Ok(v) => Ok(v)
    case Err(e) => Err(Some(e))
  }

  /** `IntoResult for Option<T>` (lines 19-26): `ok_or(None)`, with `()` as the error type. */
  function OptionIntoResult<T>(opt: Option<T>): (o: Result<T, Option<()>>)
    ensures o.Ok? <==> opt.Some?
    ensures o.Ok? ==> o.value == opt.value
    ensures o.Err? ==> o.error == None
  {
    match opt
    case Some(v) => Ok(v)
    case None => Err(None)
  }

  /** Whether the code after the macro runs with the value, or the enclosing function returns. */
  datatype Flow<T> = Continue(value: T) | Return

  /** A call made by the three-argument form: the error handler with the error, or the none block. */
  datatype HandlerCall<E> = ErrorHandler(error: E) | NoneBlock

  /** `unwrap_or_return!(e, error_handle, none_handle)` (lines 44-56), on `into_result(e)`. */
  function UnwrapOrReturn<T, E>(r: Result<T, Option<E>>): (out: (Flow<T>, seq<HandlerCall<E>>))
    ensures out.0.Continue? <==> r.Ok?
    ensures r.Ok? ==> out.0.value == r.value && out.1 == []
    ensures r.Err? && r.error.Some? ==> out.1 == [ErrorHandler(r.error.value)]
    ensures r.Err? && r.error.None? ==> out.1 == [NoneBlock]
  {
    match r
    case Ok(v) => (Continue(v), [])
    case Err(Some(e)) => (Return, [ErrorHandler(e)])
    case Err(None) => (Return, [NoneBlock])
  }

  /** The argument the two-argument form's single handler receives for each call of the
      three-argument form (lines 33-43): `Some(e)` for the error, `None` for the none block. */
  function HandlerArgument<E>(c: HandlerCall<E>): Option<E>
  {
    match c
    case ErrorHandler(e) => Some(e)
    case NoneBlock => None
  }

  /** `unwrap_or_return!(e, handle)`: the calls of `handle`, with their arguments. */
  function UnwrapOrReturnWith<T, E>(r: Result<T, Option<E>>): (out: (Flow<T>, seq<Option<E>>))
    ensures out.0 == UnwrapOrReturn(r).0
    ensures r.Ok? ==> out.1 == []
    ensures r.Err? ==> out.1 == [r.error]
  {
    var (flow, calls) := UnwrapOrReturn(r);
    (flow, seq(|calls|, i requires 0 <= i < |calls| => HandlerArgument(calls[i])))
  }

  /** `unwrap_or_return!(e)` (lines 30-32): no-op handlers, so only the flow is observable. */
  function UnwrapOrReturnQuietly<T, E>(r: Result<T, Option<E>>): (flow: Flow<T>)
    ensures flow.Continue? <==> r.Ok?
    ensures flow.Continue? ==> flow.value == r.value
  {
    UnwrapOrReturn(r).0
  }

  // ----- properties -----------------------------------------------------------------------------

  /** `into_result` loses nothing: a `Result` comes back from its common shape, and so does an
      `Option`. */
  lemma IntoResultRoundTrips<T, E>(r: Result<T, E>, opt: Option<T>)
    ensures (match ResultIntoResult(r) case Ok(v) => Ok(v) case Err(e) => Err(e.value)) == r
    ensures (match OptionIntoResult(opt) case Ok(v) => Some(v) case Err(_) => None) == opt
  {
  }

  /** A `Result` never takes the none branch and an `Option` never takes the error branch: the
      error handler sees only errors of a `Result`, the none block only a missing `Option`. */
  lemma BranchesBySource<T, E>(r: Result<T, E>, opt: Option<T>)
    ensures forall c | c in UnwrapOrReturn(ResultIntoResult(r)).1 :: c.ErrorHandler?
    ensures forall c | c in UnwrapOrReturn(OptionIntoResult(opt)).1 :: c.NoneBlock?
  {
  }

  /** Each handler is called at most once, and only when the function returns. */
  lemma AtMostOneHandlerCall<T, E>(r: Result<T, Option<E>>)
    ensures |UnwrapOrReturn(r).1| <= 1
    ensures |UnwrapOrReturn(r).1| == 1 <==> UnwrapOrReturn(r).0.Return?
  {
  }
}

/** `or_else_throw`: unwrap an optional value or raise the given error. */
module OptionalHelper {
  import opened Wrappers

  /**
   * The `error` argument: an exception instance, raised as it is, or a
   * callable that builds the exception to raise.
   */
  datatype ErrorArg<E> = Instance(exception: E) | Factory(make: () -> E)

  /** The exception `raise (error() if callable(error) else error)` raises. */
  function Raised<E>(error: ErrorArg<E>): (e: E)
    ensures error.Instance? ==> e == error.exception
    ensures error.Factory? ==> e == error.make()
  {
    match error
    case Instance(exception) => exception
    case Factory(make) => make()
  }

  /** `or_else_throw(value, error)`, with `None` as `Option.None` and the raise as `Failure`. */
  function OrElseThrow<T, E>(value: Option<T>, error: ErrorArg<E>): (r: Result<T, E>)
    ensures r.Success? <==> value.Some?
    ensures value.Some? ==> r.value == value.value
    ensures value.None? && error.Instance? ==> r == Failure(error.exception)
    ensures value.None? && error.Factory? ==> r == Failure(error.make())
  {
    if value.None? then Failure(Raised(error)) else Success(value.value)
  }

  /** A present value is returned whatever the error argument is: the factory is not consulted. */
  lemma OrElseThrowIgnoresError<T, E>(value: Option<T>, e1: ErrorArg<E>, e2: ErrorArg<E>)
    requires value.Some?
    ensures OrElseThrow(value, e1) == OrElseThrow(value, e2) == Success(value.value)
  {
  }

  /** What a caller that catches the exception sees: the value, or `None` when it was raised. */
  function Caught<T, E>(r: Result<T, E>): (o: Option<T>)
    ensures o.Some? <==> r.Success?
    ensures o.Some? ==> o.value == r.value
  {
    match r
    case Success(v) => Some(v)
    case Failure(_) => None
  }

  /**
   * Catching what `or_else_throw` raises gives back the optional value it
   * was given, whatever the error argument: nothing is lost or invented.
   */
  lemma OrElseThrowRoundTrip<T, E>(value: Option<T>, error: ErrorArg<E>)
    ensures Caught(OrElseThrow(value, error)) == value
  {
  }
}

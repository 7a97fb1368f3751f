/** The swallow-and-default accessor shared by both services. */
module SafeInvoke {
  import opened Wrappers

  /** What awaiting one remote property fetch produced: a value, or an exception. */
  datatype Fetch<T> = Got(value: T) | Threw

  /**
   * SafeAsync: the fetched value, or C#'s `default` when the fetch threw. The
   * default of a reference type is null, here None; for a value type (uint,
   * long) a call site takes `.GetOr(0)`, C#'s default of that type. It never fails.
   */
  function SafeAsync<T>(fetch: Fetch<T>): (r: Option<T>)
    ensures fetch.Got? ==> r == Some(fetch.value)
    ensures fetch.Threw? ==> r == None
  {
    match fetch
    case Got(v) => Some(v)
    case Threw => None
  }
}

/** The outcome of a request handler (the record it answers with, or the
    `ApiError(status, message)` it throws) and optional values (`null`). */
module Api {

  datatype Option<T> = None | Some(value: T)

  datatype Result<T> = Ok(value: T) | Err(status: int, message: string)

  /** The `catch (error) { throw new ApiError(status, error.message || fallback) }`
      wrapper most handlers put around their body: a success passes through,
      an error keeps its message but has its status replaced. */
  function Rethrow<T>(r: Result<T>, status: int, fallback: string): (q: Result<T>)
    ensures q.Ok? <==> r.Ok?
    ensures r.Ok? ==> q == r
    ensures q.Err? ==> q.status == status
    ensures r.Err? && r.message != "" ==> q == Err(status, r.message)
    ensures r.Err? && r.message == "" ==> q == Err(status, fallback)
  {
    match r
    case Ok(_) => r
    case Err(_, m) => Err(status, if m != "" then m else fallback)
  }
}

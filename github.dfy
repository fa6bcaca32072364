/**
 * What the three GitHub mapping modules share: the service name and the translation of a
 * failed API response into the repository package's errors.
 */
module GitHub {
  import opened Wrappers
  import opened Identity

  const ServiceName: string := "github.com"
  const StatusNotFound: int := 404

  /**
   * A failed API call: the HTTP status when a response came back, and the client's error.
   * A call that succeeds carries its payload instead.
   */
  datatype Response<T> = Answered(payload: T) | Failed(status: Option<int>, err: Error)

  /** A 404 response becomes NotFound; any other failure keeps the client's error. */
  function TranslateErrorResponse(status: Option<int>, err: Error): (r: Error)
    ensures status == Some(StatusNotFound) ==> r == NotFound
    ensures status != Some(StatusNotFound) ==> r == err
  {
    if status.Some? && status.value == StatusNotFound then NotFound else err
  }
}

/** Small value types shared by every module: optional values, HTTP error
    replies, and the "server detail or fallback text" rule the front ends use. */
module Common {

  datatype Option<T> = None | Some(value: T)

  /** What a FastAPI handler produces: a JSON body, or an HTTPException with
      its status code and `detail` text. */
  datatype HttpResult<T> = Ok(value: T) | HttpError(status: int, detail: string)

  /** What an axios call reports to a React handler: success, or failure with
      the `detail` field of the error body when the response had one. */
  datatype Reply = Success | Failure(detail: Option<string>)

  /** JavaScript's `error.response?.data?.detail || fallback`: a missing or
      empty detail (both falsy) gives the fallback. */
  function DetailOr(detail: Option<string>, fallback: string): (msg: string)
    ensures detail.Some? && detail.value != "" ==> msg == detail.value
    ensures detail.None? || detail.value == "" ==> msg == fallback
  {
    if detail.Some? && detail.value != "" then detail.value else fallback
  }
}

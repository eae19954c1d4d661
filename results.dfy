/** The outcome wrappers of DomainLayer/Result.cs: every repository call, the unit of work's
    SaveChanges and every command handler answer with one of these instead of throwing. */
module Results {
  import opened Messages

  datatype Option<+T> = None | Some(value: T)

  /** `Result`: success flag, HTTP-style status code and an optional (nullable) message. */
  datatype Result = Result(success: bool, statusCode: int, message: Option<Message>)

  /** `Result<T>`: the same plus a value; `None` stands for C#'s `default(T)` (null, or
      `Guid.Empty` for a `Result<Guid>`). */
  datatype ValueResult<+T> = ValueResult(success: bool, statusCode: int, message: Option<Message>, value: Option<T>)

  const SuccessStatus: int := 200
  const DefaultFailStatus: int := 400

  /** `Result.Succeed(message = "")`. */
  function Succeed(message: Message := Blank): (r: Result)
    ensures r.success && r.statusCode == SuccessStatus
    ensures r.message == Some(message)
  {
    Result(true, 200, Some(message))
  }

  /** `Result.Fail(message = null, statusCode = 400)`. */
  function Fail(message: Option<Message> := None, statusCode: int := 400): (r: Result)
    ensures !r.success && r.statusCode == statusCode && r.message == message
  {
    Result(false, statusCode, message)
  }

  /** `Result<T>.Succeed(value, message = null)`. */
  function SucceedValue<T>(value: T, message: Option<Message> := None): (r: ValueResult<T>)
    ensures r.success && r.statusCode == SuccessStatus
    ensures r.value == Some(value) && r.message == message
  {
    ValueResult(true, 200, message, Some(value))
  }

  /** `Result<T>.Fail(message = null, statusCode = 400, value = default)`. */
  function FailValue<T>(message: Option<Message> := None, statusCode: int := 400, value: Option<T> := None): (r: ValueResult<T>)
    ensures !r.success && r.statusCode == statusCode
    ensures r.message == message && r.value == value
  {
    ValueResult(false, statusCode, message, value)
  }
}

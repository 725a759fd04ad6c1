/** The response envelope every view returns, and the verification-token
    expiry check. */
module Utils {
  import opened Python

  /** The dict handed to `Response`, and the HTTP status. */
  datatype Response = Response(body: map<string, Value>, status: int)

  /** `format_response`: `success` is always there; truthy `errors` go in and
      then `data` stays out; otherwise truthy `data` goes in; truthy
      `message` goes in. Falsy values (None, "", [], {}) are dropped. */
  function FormatResponse(data: Value := Null, message: Value := Null, statusCode: int := 200,
                          errors: Value := Null, success: bool := true): (r: Response)
    ensures "success" in r.body && r.body["success"] == Bool(success)
    ensures ("errors" in r.body) == Truthy(errors)
    ensures ("data" in r.body) == (!Truthy(errors) && Truthy(data))
    ensures ("message" in r.body) == Truthy(message)
    ensures "errors" in r.body ==> r.body["errors"] == errors
    ensures "data" in r.body ==> r.body["data"] == data
    ensures "message" in r.body ==> r.body["message"] == message
    ensures r.body.Keys <= {"success", "errors", "data", "message"}
    ensures r.status == statusCode
  {
    var base := map["success" := Bool(success)];
    var withPayload :=
      if Truthy(errors) then base["errors" := errors]
      else if Truthy(data) then base["data" := data]
      else base;
    var body := if Truthy(message) then withPayload["message" := message] else withPayload;
    Response(body, statusCode)
  }

  /** An envelope never carries both `errors` and `data`. */
  lemma ErrorsExcludeData(data: Value, message: Value, statusCode: int, errors: Value, success: bool)
    ensures var r := FormatResponse(data, message, statusCode, errors, success);
      !("errors" in r.body && "data" in r.body)
  {
  }

  /** An empty list of results is dropped: the envelope of a successful
      empty listing has no `data` key at all. */
  lemma EmptyListHasNoData(message: Value, statusCode: int)
    ensures "data" !in FormatResponse(List([]), message, statusCode, Null, true).body
  {
  }

  /** Time in microseconds, the resolution of a Python datetime. */
  const OneDay: int := 24 * 60 * 60 * 1000000

  /** `is_token_expired(created_at)` with `timezone.now()` passed in as `now`.
      A missing creation time counts as expired. */
  function IsTokenExpired(createdAt: Option<int>, now: int): (expired: bool)
    ensures createdAt.None? ==> expired
    ensures createdAt.Some? ==> (expired <==> now - createdAt.value > OneDay)
  {
    match createdAt
    case None => true
    case Some(t) => now > t + OneDay
  }

  /** Once expired a token stays expired, and a token exactly one day old is
      still valid. */
  lemma TokenExpiryMonotone(createdAt: Option<int>, now: int, later: int)
    requires now <= later
    ensures IsTokenExpired(createdAt, now) ==> IsTokenExpired(createdAt, later)
    ensures createdAt.Some? ==> !IsTokenExpired(createdAt, createdAt.value + OneDay)
  {
  }
}

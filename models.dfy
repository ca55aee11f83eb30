/**
 * The records the request commands pass around: a test case and its result
 * (models/testcase.go), and an HTTP request and response (utils/http.go).
 */
module Models {
  import opened Wrappers
  import opened Values

  /** `TestCase`; a Go nil map is the empty map. */
  datatype TestCase = TestCase(
    id: string,
    name: string,
    description: string,
    kind: string,
    data: map<string, Value>,
    expected: map<string, Value>)

  /** `TestResult`; `duration` is in milliseconds. */
  datatype TestResult = TestResult(
    testCaseId: string,
    success: bool,
    statusCode: int,
    responseBody: string,
    requestBody: string,
    error: string,
    duration: int)

  /** The zero `TestResult`, which `make` puts in every slot of a results slice. */
  const NoResult: TestResult := TestResult("", false, 0, "", "", "", 0)

  /** `HTTPRequest`; `verb` is its `Method` field, `timeout` is in seconds. */
  datatype HttpRequest = HttpRequest(
    url: string,
    verb: string,
    headers: map<string, string>,
    body: string,
    timeout: int,
    ignoreTls: bool)

  /** `HTTPResponse`; `error` holds the text of a non-nil error, `duration` is in nanoseconds. */
  datatype HttpResponse = HttpResponse(
    statusCode: int,
    headers: map<string, seq<string>>,
    body: string,
    error: Option<string>,
    duration: int)

  /** `time.Duration.Milliseconds`: nanoseconds divided by a million, truncated toward zero. */
  function Milliseconds(d: int): (r: int)
    ensures d >= 0 ==> r >= 0 && r * 1_000_000 <= d < (r + 1) * 1_000_000
    ensures d < 0 ==> r <= 0 && (r - 1) * 1_000_000 < d <= r * 1_000_000
  {
    if d >= 0 then d / 1_000_000 else -((-d) / 1_000_000)
  }

  /** The one success test both commands use: no transport error and a 2xx status. */
  predicate Succeeded(resp: HttpResponse)
  {
    resp.error.None? && 200 <= resp.statusCode < 300
  }

  /**
   * The result both commands record for a response: the case's ID, the
   * status, body and duration of the response, the error text when there is
   * one, and success exactly when `Succeeded` holds.
   */
  function ResponseResult(tc: TestCase, resp: HttpResponse): (r: TestResult)
    ensures r.success <==> Succeeded(resp)
    ensures r.success ==> r.error == ""
    ensures r.error != "" ==> resp.error == Some(r.error)
    ensures r.testCaseId == tc.id && r.requestBody == ""
  {
    var result := TestResult(tc.id, false, resp.statusCode, resp.body, "", "", Milliseconds(resp.duration));
    if resp.error.Some? then result.(error := resp.error.value)
    else result.(success := 200 <= resp.statusCode < 300)
  }
}

/**
 * Request assembly shared by the generating commands (cmd/shared.go):
 * checking the request parameters, applying the authentication settings to
 * a request's headers, building one HTTP request per test case, and turning
 * the responses into test results.
 *
 * Sending the requests, printing and saving results are left out; the map
 * walk `convertToXML` takes for each case, `json.Marshal` and base64
 * encoding come in as parameters.
 */
module Shared {
  import opened Wrappers
  import opened Text
  import opened Values
  import opened Models
  import CmdXml

  /** `RequestParams`; `verb` is its `Method` field. */
  datatype RequestParams = RequestParams(
    url: string,
    verb: string,
    save: bool,
    savePath: string,
    timeout: int,
    concurrent: int,
    debug: bool,
    authBearer: string,
    authBasic: string,
    authAPIKey: string,
    customHeaders: seq<string>,
    queryParams: seq<string>,
    isXML: bool,
    isJSON: bool)

  const NoURLError: string := "使用 -e 参数时必须在配置文件中指定 request.url"
  const NoFormatError: string := "使用 -e 参数时必须指定请求体格式（--xml 或 --json）"
  const BothFormatsError: string := "不能同时指定 --xml 和 --json 参数，请只选择一种格式"

  /**
   * `validateRequestParams`: the URL must be set and exactly one of the two
   * body formats chosen; a missing URL is reported first.
   */
  function ValidateRequestParams(p: RequestParams): (r: Option<string>)
    ensures r.None? <==> p.url != "" && p.isXML != p.isJSON
    ensures p.url == "" ==> r == Some(NoURLError)
    ensures r.Some? && p.url != "" ==> r.value == if p.isXML then BothFormatsError else NoFormatError
  {
    if p.url == "" then Some(NoURLError)
    else if !p.isXML && !p.isJSON then Some(NoFormatError)
    else if p.isXML && p.isJSON then Some(BothFormatsError)
    else None
  }

  /**
   * The body flags `executeTestCasesDirectly` derives from the parameters:
   * the content type is `xml` when XML was chosen and `json` otherwise, and
   * `(useJSON, useXML)` compare it with those two names.
   */
  function BodyFlags(isXML: bool): (r: (bool, bool))
    ensures r.0 != r.1 && r.1 == isXML
  {
    var contentType := if isXML then "xml" else "json";
    assert ToLower("xml") == "xml" && ToLower("json") == "json";
    (ToLower(contentType) == "json", ToLower(contentType) == "xml")
  }

  /** `getFormatName`: XML takes precedence over JSON. */
  function GetFormatName(isXML: bool, isJSON: bool): (r: string)
    ensures r == "XML" <==> isXML
    ensures r == "JSON" <==> !isXML && isJSON
    ensures r == "未指定" <==> !isXML && !isJSON
  {
    if isXML then "XML" else if isJSON then "JSON" else "未指定"
  }

  /**
   * `truncateString`: the string itself when it is short enough, otherwise
   * its first `maxLen` runes; a negative bound makes the slice expression panic.
   */
  function TruncateString(s: string, maxLen: int): (r: Outcome<string>)
    ensures r.Panicked? <==> maxLen < 0
    ensures r.Returned? ==> |r.value| == (if |s| <= maxLen then |s| else maxLen) && HasPrefix(s, r.value)
  {
    if |s| <= maxLen then Returned(s)
    else if maxLen < 0 then Panicked
    else Returned(s[..maxLen])
  }

  // ---------------------------------------------------------------- authentication

  /** `AuthConfig`. */
  datatype AuthConfig = AuthConfig(bearerToken: string, basicAuth: string, apiKey: string, customHeaders: seq<string>)

  function Lookup(m: map<string, string>, k: string): Option<string>
  {
    if k in m then Some(m[k]) else None
  }

  function WithBearer(h: map<string, string>, token: string): map<string, string>
  {
    if token != "" then h["Authorization" := "Bearer " + token] else h
  }

  /** Basic credentials are used only in `username:password` form; the whole text is base64-encoded. */
  function WithBasic(h: map<string, string>, basic: string, encode: string -> string): map<string, string>
  {
    if basic != "" && SplitOnce(basic, ':').Some? then h["Authorization" := "Basic " + encode(basic)] else h
  }

  /** The header an API key is sent in: `Name:Value` names its own header, anything else goes in `X-API-Key`. */
  function ApiKeyHeader(apiKey: string): (r: (string, string))
    ensures ':' in apiKey ==> apiKey == r.0 + ":" + r.1 && ':' !in r.0
    ensures ':' !in apiKey ==> r == ("X-API-Key", apiKey)
  {
    match SplitOnce(apiKey, ':')
    case Some(parts) => parts
    case None => ("X-API-Key", apiKey)
  }

  function WithAPIKey(h: map<string, string>, apiKey: string): map<string, string>
  {
    if apiKey != "" then h[ApiKeyHeader(apiKey).0 := ApiKeyHeader(apiKey).1] else h
  }

  /** The headers after the bearer, basic and API-key steps, each writing over the one before. */
  function Credentials(h: map<string, string>, a: AuthConfig, encode: string -> string): map<string, string>
  {
    WithAPIKey(WithBasic(WithBearer(h, a.bearerToken), a.basicAuth, encode), a.apiKey)
  }

  function HeaderFormatError(header: string): string
  {
    "自定义HTTP头格式错误: " + header + "，正确格式应为 'HeaderName: HeaderValue'"
  }

  function HeaderNameError(header: string): string
  {
    "自定义HTTP头名称不能为空: " + header
  }

  /** A custom header `Name: Value`: split at the first colon, both halves trimmed, the name not empty. */
  function ParseHeader(header: string): (r: Result<(string, string), string>)
  {
    match SplitOnce(header, ':')
    case None => Err(HeaderFormatError(header))
    case Some(parts) =>
      var key := TrimSpace(parts.0);
      if key == "" then Err(HeaderNameError(header)) else Ok((key, TrimSpace(parts.1)))
  }

  /** Type of a parsed custom header: its name and value, or the error it gives. */
  type Parse = Result<(string, string), string>

  /** Each custom header parsed on its own. */
  function Parsed(hs: seq<string>): (ps: seq<Parse>)
    ensures |ps| == |hs| && forall i :: 0 <= i < |hs| ==> ps[i] == ParseHeader(hs[i])
  {
    seq(|hs|, i requires 0 <= i < |hs| => ParseHeader(hs[i]))
  }

  /** The parsed custom headers, written in order until the first error. */
  function CustomApplied(h: map<string, string>, ps: seq<Parse>): (map<string, string>, Option<string>)
    decreases |ps|
  {
    if ps == [] then (h, None)
    else
      match ps[0]
      case Err(e) => (h, Some(e))
      case Ok(kv) => CustomApplied(h[kv.0 := kv.1], ps[1..])
  }

  /** `applyAuthConfig` on a header map: the headers written, and the error that stopped it, if any. */
  function AuthApplied(h: map<string, string>, a: AuthConfig, encode: string -> string): (map<string, string>, Option<string>)
  {
    CustomApplied(Credentials(h, a, encode), Parsed(a.customHeaders))
  }

  /**
   * `applyAuthConfig`.  Go updates the caller's map in place; here the map
   * comes back, with the writes made before an error kept.
   */
  method ApplyAuthConfig(headers: map<string, string>, authConfig: AuthConfig, encode: string -> string)
      returns (out: map<string, string>, err: Option<string>)
    ensures (out, err) == AuthApplied(headers, authConfig, encode)
  {
    out := headers;
    if authConfig.bearerToken != "" {
      out := out["Authorization" := "Bearer " + authConfig.bearerToken];
    }
    if authConfig.basicAuth != "" {
      var parts := SplitOnce(authConfig.basicAuth, ':');
      if parts.Some? {
        out := out["Authorization" := "Basic " + encode(authConfig.basicAuth)];
      }
    }
    if authConfig.apiKey != "" {
      var parts := SplitOnce(authConfig.apiKey, ':');
      if parts.Some? {
        out := out[parts.value.0 := parts.value.1];
      } else {
        out := out["X-API-Key" := authConfig.apiKey];
      }
    }
    var hs := authConfig.customHeaders;
    ghost var ps := Parsed(hs);
    assert CustomApplied(out, ps[0..]) == AuthApplied(headers, authConfig, encode);
    for i := 0 to |hs|
      invariant CustomApplied(out, ps[i..]) == AuthApplied(headers, authConfig, encode)
    {
      var header := hs[i];
      assert ps[i..][0] == ParseHeader(header) && ps[i..][1..] == ps[i + 1..];
      var parts := SplitOnce(header, ':');
      if parts.None? {
        return out, Some(HeaderFormatError(header));
      }
      var key := TrimSpace(parts.value.0);
      var value := TrimSpace(parts.value.1);
      if key == "" {
        return out, Some(HeaderNameError(header));
      }
      out := out[key := value];
    }
    assert ps[|hs|..] == [];
    err := None;
  }

  /** The bearer token sets `Authorization`; basic credentials in `user:password` form overwrite it. */
  lemma AuthorizationHeader(h: map<string, string>, a: AuthConfig, encode: string -> string)
    requires a.apiKey == "" || ApiKeyHeader(a.apiKey).0 != "Authorization"
    ensures Lookup(Credentials(h, a, encode), "Authorization") ==
      if a.basicAuth != "" && ':' in a.basicAuth then Some("Basic " + encode(a.basicAuth))
      else if a.bearerToken != "" then Some("Bearer " + a.bearerToken)
      else Lookup(h, "Authorization")
  {
  }

  /** A non-empty API key always ends up in its header, after the bearer and basic steps. */
  lemma ApiKeyWritten(h: map<string, string>, a: AuthConfig, encode: string -> string)
    requires a.apiKey != ""
    ensures var (name, value) := ApiKeyHeader(a.apiKey);
      name in Credentials(h, a, encode) && Credentials(h, a, encode)[name] == value
  {
  }

  /** A header written in the documented `Name: Value` form parses back to its name and value. */
  lemma ParseHeaderReadsBack(name: string, value: string)
    requires name != [] && ':' !in name && !IsSpace(name[0]) && !IsSpace(name[|name| - 1])
    requires value == [] || (!IsSpace(value[0]) && !IsSpace(value[|value| - 1]))
    ensures ParseHeader(name + ": " + value) == Ok((name, value))
  {
    assert name + ": " + value == name + [':'] + (" " + value);
    SplitOnceAt(name, " " + value, ':');
    TrimSpaceIdle(name);
    TrimAfterSpace(value);
  }

  lemma TrimAfterSpace(value: string)
    requires value == [] || (!IsSpace(value[0]) && !IsSpace(value[|value| - 1]))
    ensures TrimSpace(" " + value) == value
  {
    assert (" " + value)[1..] == value;
    assert TrimLeft(" " + value) == TrimLeft(value);
    if value != [] {
      TrimSpaceIdle(value);
    }
  }

  /** Splitting at the first colon finds the colon that follows a colon-free prefix. */
  lemma {:induction false} SplitOnceAt(a: string, b: string, c: char)
    requires c !in a
    ensures SplitOnce(a + [c] + b, c) == Some((a, b))
    decreases |a|
  {
    var s := a + [c] + b;
    if a == [] {
      assert s[0] == c && s[1..] == b;
    } else {
      assert s[0] == a[0] && s[1..] == a[1..] + [c] + b;
      SplitOnceAt(a[1..], b, c);
      assert [a[0]] + a[1..] == a;
    }
  }

  /** The position of the first custom header that does not parse, or their number when all do. */
  function FirstBad(ps: seq<Parse>): (j: nat)
    ensures j <= |ps|
    ensures forall i :: 0 <= i < j ==> ps[i].Ok?
    ensures j < |ps| ==> ps[j].Err?
    decreases |ps|
  {
    if ps == [] then 0
    else if ps[0].Err? then 0
    else 1 + FirstBad(ps[1..])
  }

  /**
   * The custom headers stop at the first one that does not parse: its error
   * is returned, and the headers before it stay written.
   */
  lemma {:induction false} CustomStopsAtFirstBad(h: map<string, string>, ps: seq<Parse>)
    ensures var j := FirstBad(ps);
      CustomApplied(h, ps).0 == CustomApplied(h, ps[..j]).0
      && CustomApplied(h, ps).1 == if j == |ps| then None else Some(ps[j].error)
    decreases |ps|
  {
    if ps != [] {
      match ps[0]
      case Err(e) =>
        assert ps[..0] == [];
      case Ok(kv) =>
        CustomStopsAtFirstBad(h[kv.0 := kv.1], ps[1..]);
        var j := FirstBad(ps[1..]);
        assert ps[..j + 1][0] == ps[0] && ps[..j + 1][1..] == ps[1..][..j];
    }
  }

  /** The value the last well-formed custom header named `k` carries, if one does. */
  function LastValue(ps: seq<Parse>, k: string): Option<string>
    decreases |ps|
  {
    if ps == [] then None
    else
      match LastValue(ps[1..], k)
      case Some(v) => Some(v)
      case None =>
        match ps[0]
        case Ok(kv) => if kv.0 == k then Some(kv.1) else None
        case Err(_) => None
  }

  /** When every custom header parses, the last one with a given name wins; other headers are untouched. */
  lemma {:induction false} CustomLastWins(h: map<string, string>, ps: seq<Parse>, k: string)
    requires forall i :: 0 <= i < |ps| ==> ps[i].Ok?
    ensures CustomApplied(h, ps).1 == None
    ensures Lookup(CustomApplied(h, ps).0, k) == if LastValue(ps, k).Some? then LastValue(ps, k) else Lookup(h, k)
    decreases |ps|
  {
    if ps != [] {
      assert ps[0].Ok?;
      var kv := ps[0].value;
      assert forall i :: 0 <= i < |ps[1..]| ==> ps[1..][i].Ok? by {
        forall i | 0 <= i < |ps[1..]| ensures ps[1..][i].Ok? {
          assert ps[1..][i] == ps[i + 1];
        }
      }
      CustomLastWins(h[kv.0 := kv.1], ps[1..], k);
    }
  }

  // ---------------------------------------------------------------- building requests

  /** The URL with `http://` in front unless it already names `http` or `https`. */
  function WithScheme(url: string): (r: string)
    ensures HasPrefix(r, "http://") || HasPrefix(r, "https://")
    ensures HasPrefix(url, "http://") || HasPrefix(url, "https://") ==> r == url
    ensures !(HasPrefix(url, "http://") || HasPrefix(url, "https://")) ==> r == "http://" + url
  {
    if !HasPrefix(url, "http://") && !HasPrefix(url, "https://") then
      assert ("http://" + url)[..7] == "http://";
      "http://" + url
    else url
  }

  /** The query parameters joined with `&`, after `?`, or after `&` when the URL already has a `?`. */
  function WithQuery(url: string, params: seq<string>): string
  {
    if |params| > 0 then url + (if ContainsStr(url, "?") then "&" else "?") + Join(params, "&") else url
  }

  /** The URL and each parameter can be read back from a query built on a URL without one. */
  lemma QueryReadsBack(url: string, params: seq<string>)
    requires |params| > 0 && '?' !in url
    requires forall p :: p in params ==> '&' !in p
    ensures SplitOnce(WithQuery(url, params), '?') == Some((url, Join(params, "&")))
    ensures Split(Join(params, "&"), '&') == params
  {
    assert !ContainsStr(url, "?");
    assert WithQuery(url, params) == url + ['?'] + Join(params, "&");
    SplitOnceAt(url, Join(params, "&"), '?');
    JoinSplit(params, '&');
  }

  /** The body of a request and the `Content-Type` it was given, if any. */
  datatype Payload = Payload(body: string, contentType: Option<string>)

  const XmlContentKey: string := "_xml_content"
  const JsonContentKey: string := "_json_content"

  /**
   * The body of a POST or GET request: the XML branch runs first, then the
   * JSON branch, so JSON wins when both flags are set; prepared content under
   * `_xml_content` or `_json_content` is used verbatim.
   */
  function FormatBody(data: map<string, Value>, order: seq<string>, useJSON: bool, useXML: bool,
                      marshal: Value -> Option<string>): (p: Payload)
    requires IsOrderOf(order, data.Keys)
    ensures p.contentType.None? <==> !useJSON && !useXML
  {
    if !useJSON then XmlPayload(data, order, useXML, marshal)
    else if JsonContentKey in data then Payload(Show(data[JsonContentKey]), Some("application/json"))
    else Payload(marshal(ObjV(data)).GetOr(""), Some("application/json"))
  }

  /** What the XML block leaves: prepared content, or the rendered document, or nothing when XML is off. */
  function XmlPayload(data: map<string, Value>, order: seq<string>, useXML: bool, marshal: Value -> Option<string>): Payload
    requires IsOrderOf(order, data.Keys)
  {
    if !useXML then Payload("", None)
    else if XmlContentKey in data then Payload(Show(data[XmlContentKey]), Some("application/xml"))
    else Payload(CmdXml.DataXml(data, order, marshal), Some("application/xml"))
  }

  /** The request built for one test case, given the URL, the uppercased method and the headers authentication wrote. */
  function CaseRequest(tc: TestCase, order: seq<string>, url: string, upper: string, timeout: int,
                       useJSON: bool, useXML: bool, auth: map<string, string>, marshal: Value -> Option<string>): HttpRequest
    requires IsOrderOf(order, tc.data.Keys)
  {
    var p := if upper == "POST" || upper == "GET" then FormatBody(tc.data, order, useJSON, useXML, marshal) else Payload("", None);
    var h := if p.contentType.Some? then auth["Content-Type" := p.contentType.value] else auth;
    var h := if upper == "POST" then h else h["Accept" := "application/json"];
    HttpRequest(url, upper, h, p.body, timeout, false)
  }

  /** When both formats are chosen, a POST or GET body is JSON and says so. */
  lemma JsonWinsOverXml(tc: TestCase, order: seq<string>, url: string, upper: string, timeout: int,
                        auth: map<string, string>, marshal: Value -> Option<string>)
    requires IsOrderOf(order, tc.data.Keys)
    requires upper == "POST" || upper == "GET"
    ensures var r := CaseRequest(tc, order, url, upper, timeout, true, true, auth, marshal);
      r.headers["Content-Type"] == "application/json"
      && r.body == if JsonContentKey in tc.data then Show(tc.data[JsonContentKey]) else marshal(ObjV(tc.data)).GetOr("")
  {
  }

  /** Prepared XML content is sent as it is; otherwise the case's data is rendered by `convertToXML`. */
  lemma XmlBody(tc: TestCase, order: seq<string>, url: string, upper: string, timeout: int,
                auth: map<string, string>, marshal: Value -> Option<string>)
    requires IsOrderOf(order, tc.data.Keys)
    requires upper == "POST" || upper == "GET"
    ensures var r := CaseRequest(tc, order, url, upper, timeout, false, true, auth, marshal);
      r.headers["Content-Type"] == "application/xml"
      && r.body == if XmlContentKey in tc.data then Show(tc.data[XmlContentKey]) else CmdXml.DataXml(tc.data, order, marshal)
  {
  }

  /**
   * The payload's `Content-Type` is written after authentication, so it
   * replaces a custom header of that name; GET and the other methods also
   * ask for JSON back.
   */
  lemma CaseHeaders(tc: TestCase, order: seq<string>, url: string, upper: string, timeout: int,
                    useJSON: bool, useXML: bool, auth: map<string, string>, marshal: Value -> Option<string>)
    requires IsOrderOf(order, tc.data.Keys)
    ensures var r := CaseRequest(tc, order, url, upper, timeout, useJSON, useXML, auth, marshal);
      (upper != "POST" ==> r.headers["Accept"] == "application/json")
      && ((upper == "POST" || upper == "GET") && (useJSON || useXML) ==>
            r.headers["Content-Type"] == (if useJSON then "application/json" else "application/xml"))
      && (forall k :: k in auth && k != "Content-Type" && k != "Accept" ==> k in r.headers && r.headers[k] == auth[k])
  {
  }

  /** Methods other than POST and GET carry no body and no `Content-Type` beyond what authentication wrote. */
  lemma OtherMethodsEmpty(tc: TestCase, order: seq<string>, url: string, upper: string, timeout: int,
                          useJSON: bool, useXML: bool, auth: map<string, string>, marshal: Value -> Option<string>)
    requires IsOrderOf(order, tc.data.Keys)
    requires upper != "POST" && upper != "GET"
    ensures var r := CaseRequest(tc, order, url, upper, timeout, useJSON, useXML, auth, marshal);
      r.body == "" && r.headers == auth["Accept" := "application/json"]
  {
  }

  /** Writing a header over a map that differs from `m` at most in that header gives the same map. */
  lemma RewriteHeader(m: map<string, string>, k: string, w: string, v: string)
    ensures m[k := w][k := v] == m[k := v]
  {
  }

  /** The XML and JSON blocks of `buildHTTPRequestsWithAuth`, writing `Content-Type` into the headers. */
  method FillBody(data: map<string, Value>, order: seq<string>, useJSON: bool, useXML: bool,
                  headers: map<string, string>, marshal: Value -> Option<string>)
      returns (body: string, out: map<string, string>)
    requires IsOrderOf(order, data.Keys)
    ensures var p := FormatBody(data, order, useJSON, useXML, marshal);
      body == p.body && out == if p.contentType.Some? then headers["Content-Type" := p.contentType.value] else headers
  {
    body := "";
    out := headers;
    if useXML {
      if XmlContentKey in data {
        body := Show(data[XmlContentKey]);
        out := out["Content-Type" := "application/xml"];
      } else {
        var xmlData, _ := ConvertToXML(data, order, marshal);
        body := xmlData;
        out := out["Content-Type" := "application/xml"];
      }
    }
    if useJSON {
      RewriteHeader(headers, "Content-Type", "application/xml", "application/json");
      if JsonContentKey in data {
        body := Show(data[JsonContentKey]);
        out := out["Content-Type" := "application/json"];
      } else {
        body := marshal(ObjV(data)).GetOr("");
        out := out["Content-Type" := "application/json"];
      }
    }
  }

  /** The body of the loop of `buildHTTPRequestsWithAuth`, after authentication: one case's request. */
  method BuildRequest(testCase: TestCase, order: seq<string>, target: string, verb: string, timeout: int,
                      useJSON: bool, useXML: bool, headers: map<string, string>, queryParams: seq<string>,
                      marshal: Value -> Option<string>)
      returns (request: HttpRequest)
    requires IsOrderOf(order, testCase.data.Keys)
    ensures request == CaseRequest(testCase, order, WithQuery(target, queryParams), ToUpper(verb), timeout,
                                   useJSON, useXML, headers, marshal)
  {
    var body := "";
    var out := headers;
    var upper := ToUpper(verb);
    if upper == "POST" {
      body, out := FillBody(testCase.data, order, useJSON, useXML, out, marshal);
    } else if upper == "GET" {
      body, out := FillBody(testCase.data, order, useJSON, useXML, out, marshal);
      out := out["Accept" := "application/json"];
    } else {
      out := out["Accept" := "application/json"];
    }
    var finalURL := target;
    if |queryParams| > 0 {
      var separator := "?";
      if ContainsStr(target, "?") {
        separator := "&";
      }
      finalURL := target + separator + Join(queryParams, "&");
    }
    request := HttpRequest(finalURL, upper, out, body, timeout, false);
  }

  /**
   * `buildHTTPRequestsWithAuth`: one request per test case, or the
   * authentication error, which the first case already meets.  `orders[i]`
   * is the walk `convertToXML` takes over the i-th case's data.
   */
  method BuildHTTPRequestsWithAuth(testCases: seq<TestCase>, url: string, verb: string, timeout: int,
                                   useJSON: bool, useXML: bool, authConfig: AuthConfig, queryParams: seq<string>,
                                   orders: seq<seq<string>>, marshal: Value -> Option<string>, encode: string -> string)
      returns (r: Result<seq<HttpRequest>, string>)
    requires |orders| == |testCases|
    requires forall i :: 0 <= i < |testCases| ==> IsOrderOf(orders[i], testCases[i].data.Keys)
    ensures r.Err? <==> |testCases| > 0 && AuthApplied(map[], authConfig, encode).1.Some?
    ensures r.Err? ==> r.error == AuthApplied(map[], authConfig, encode).1.value
    ensures r.Ok? ==> |r.value| == |testCases| && forall i :: 0 <= i < |testCases| ==>
      r.value[i] == CaseRequest(testCases[i], orders[i], WithQuery(WithScheme(url), queryParams), ToUpper(verb), timeout,
                                useJSON, useXML, AuthApplied(map[], authConfig, encode).0, marshal)
  {
    var target := url;
    if !HasPrefix(target, "http://") && !HasPrefix(target, "https://") {
      target := "http://" + target;
    }
    var requests := new HttpRequest[|testCases|];
    assert target == WithScheme(url);
    ghost var auth := AuthApplied(map[], authConfig, encode);
    ghost var u := WithQuery(WithScheme(url), queryParams);
    for i := 0 to |testCases|
      invariant i > 0 ==> auth.1.None?
      invariant forall j :: 0 <= j < i ==>
        requests[j] == CaseRequest(testCases[j], orders[j], u, ToUpper(verb), timeout, useJSON, useXML, auth.0, marshal)
    {
      var headers, err := ApplyAuthConfig(map[], authConfig, encode);
      if err.Some? {
        return Err(err.value);
      }
      var request := BuildRequest(testCases[i], orders[i], target, verb, timeout, useJSON, useXML, headers, queryParams, marshal);
      requests[i] := request;
    }
    r := Ok(requests[..]);
  }

  /**
   * `processResponses`: one result per test case; the i-th response fills
   * the i-th slot, with the body of the i-th request when there is one.
   * More responses than test cases index past the results and panic.
   */
  method ProcessResponses(testCases: seq<TestCase>, responses: seq<HttpResponse>, requests: seq<HttpRequest>)
      returns (r: Outcome<seq<TestResult>>)
    ensures r.Panicked? <==> |responses| > |testCases|
    ensures r.Returned? ==> (|r.value| == |testCases|
      && (forall i :: 0 <= i < |responses| ==> r.value[i] == ResultWithRequest(testCases[i], responses[i], requests, i))
      && (forall i :: |responses| <= i < |testCases| ==> r.value[i] == NoResult))
  {
    var results := new TestResult[|testCases|](_ => NoResult);
    for i := 0 to |responses|
      invariant i <= |testCases|
      invariant forall j :: 0 <= j < i ==> results[j] == ResultWithRequest(testCases[j], responses[j], requests, j)
      invariant forall j :: i <= j < |testCases| ==> results[j] == NoResult
    {
      if i >= |testCases| {
        return Panicked;
      }
      var response := responses[i];
      var result := TestResult(testCases[i].id, false, response.statusCode, response.body, "", "", Milliseconds(response.duration));
      if i < |requests| {
        result := result.(requestBody := requests[i].body);
      }
      if response.error.Some? {
        result := result.(success := false, error := response.error.value);
      } else {
        result := result.(success := response.statusCode >= 200 && response.statusCode < 300);
      }
      results[i] := result;
    }
    r := Returned(results[..]);
  }

  /** The result for the i-th response: the common result, plus the i-th request's body when there is one. */
  function ResultWithRequest(tc: TestCase, resp: HttpResponse, requests: seq<HttpRequest>, i: nat): (r: TestResult)
    ensures r.success <==> Succeeded(resp)
    ensures r.requestBody == if i < |requests| then requests[i].body else ""
    ensures r == ResponseResult(tc, resp).(requestBody := r.requestBody)
  {
    ResponseResult(tc, resp).(requestBody := if i < |requests| then requests[i].body else "")
  }

  /** `convertToXML`: the `<data>` document of the map; it never reports an error. */
  method ConvertToXML(data: map<string, Value>, order: seq<string>, marshal: Value -> Option<string>)
      returns (xml: string, err: Option<string>)
    requires IsOrderOf(order, data.Keys)
    ensures xml == CmdXml.DataXml(data, order, marshal) && err == None
  {
    var body := CmdXml.WriteFields(data, order, marshal);
    xml := "<?xml version=\"1.0\" encoding=\"UTF-8\"?>\n" + "<data>\n" + body + "</data>";
    err := None;
  }
}

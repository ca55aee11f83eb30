/**
 * The `request` command's own pipeline (cmd/request.go): test cases read
 * from the rows of a CSV file, one HTTP request per case, and the results
 * of the responses.  Reading the file, sending and saving are left out;
 * float parsing, JSON decoding and encoding, and the map walk of
 * `convertToXML` come in as parameters.
 */
module Request {
  import opened Wrappers
  import opened Text
  import opened Values
  import opened Models
  import CmdXml
  import Shared

  // ---------------------------------------------------------------- cell values

  /**
   * `parseValue`: an integer if `strconv.Atoi` accepts the cell, else a float
   * if `strconv.ParseFloat` does (`parseFloat` gives its `%v` text), else a
   * boolean, else the decoded JSON value, else the cell text itself.
   */
  function ParseValue(value: string, parseFloat: string -> Option<string>, decodeJSON: string -> Option<Value>): (r: Value)
    ensures ParseInt(value).Some? ==> r == IntV(Int, ParseInt(value).value)
    ensures r.StrV? ==> r == StrV(value) || decodeJSON(value) == Some(r)
  {
    match ParseInt(value)
    case Some(n) => IntV(Int, n)
    case None =>
      match parseFloat(value)
      case Some(t) => FloatV(Float64, t)
      case None =>
        match ParseBool(value)
        case Some(b) => BoolV(b)
        case None => decodeJSON(value).GetOr(StrV(value))
  }

  /** `parseFloat` accepts only what `strconv.ParseFloat` can read. */
  ghost predicate FloatParserSound(parseFloat: string -> Option<string>)
  {
    forall s :: parseFloat(s).Some? ==> IsFloatSyntax(s)
  }

  /** Every 64-bit integer written out by `strconv.Itoa` reads back as that integer. */
  lemma ParseValueInt(n: int, parseFloat: string -> Option<string>, decodeJSON: string -> Option<Value>)
    requires MinInt64 <= n <= MaxInt64
    ensures ParseValue(IntToString(n), parseFloat, decodeJSON) == IntV(Int, n)
  {
    ParseIntOfString(n);
  }

  lemma NotFloatWord(s: string)
    requires |s| > 0 && 'a' <= s[0] <= 'z' && s[0] != 'i' && s[0] != 'n'
    ensures !IsFloatSyntax(s)
  {
    assert AsciiLower(s)[0] == s[0];
    assert MantissaEnd(s, 0) == 0;
    assert s[..0] == [];
  }

  /** A lowercase word that `strconv.ParseBool` accepts is neither an integer nor a float, so it becomes a boolean. */
  lemma WordIsBool(s: string, parseFloat: string -> Option<string>, decodeJSON: string -> Option<Value>)
    requires FloatParserSound(parseFloat)
    requires |s| > 0 && 'a' <= s[0] <= 'z' && s[0] != 'i' && s[0] != 'n'
    requires ParseBool(s).Some?
    ensures ParseValue(s, parseFloat, decodeJSON) == BoolV(ParseBool(s).value)
  {
    NotFloatWord(s);
    assert !IsDigit(s[0]);
    assert !AllDigits(s);
  }

  /** `true` and `false` are booleans: neither integer nor float syntax comes first. */
  lemma ParseValueBools(parseFloat: string -> Option<string>, decodeJSON: string -> Option<Value>)
    requires FloatParserSound(parseFloat)
    ensures ParseValue("true", parseFloat, decodeJSON) == BoolV(true)
    ensures ParseValue("false", parseFloat, decodeJSON) == BoolV(false)
  {
    assert ParseBool("true") == Some(true);
    assert ParseBool("false") == Some(false);
    WordIsBool("true", parseFloat, decodeJSON);
    WordIsBool("false", parseFloat, decodeJSON);
  }

  // ---------------------------------------------------------------- CSV rows

  const TooFewRowsError: string := "CSV文件至少需要包含标题行和一行数据"

  /** The error for a data row whose width differs from the header's; `row` counts from 1 at the header. */
  function WidthError(row: nat): string
  {
    "第" + NatToString(row) + "行数据列数与标题行不匹配"
  }

  /** The parsed cells of a row, column by column. */
  function Cells(row: seq<string>, parseFloat: string -> Option<string>, decodeJSON: string -> Option<Value>): (vs: seq<Value>)
    ensures |vs| == |row|
    ensures forall j :: 0 <= j < |row| ==> vs[j] == ParseValue(row[j], parseFloat, decodeJSON)
  {
    seq(|row|, j requires 0 <= j < |row| => ParseValue(row[j], parseFloat, decodeJSON))
  }

  /** Each header names the value in its column, a later column overwriting an earlier one. */
  function Columns(headers: seq<string>, values: seq<Value>): (m: map<string, Value>)
    requires |values| == |headers|
    ensures forall h :: h in m <==> h in headers
    decreases |values|
  {
    if values == [] then map[]
    else
      var n := |values| - 1;
      assert forall h :: h in headers <==> h in headers[..n] || h == headers[n];
      Columns(headers[..n], values[..n])[headers[n] := values[n]]
  }

  /** The data of one row of cells under the header row. */
  function RowData(headers: seq<string>, row: seq<string>, parseFloat: string -> Option<string>,
                   decodeJSON: string -> Option<Value>): (m: map<string, Value>)
    requires |row| == |headers|
    ensures forall h :: h in m <==> h in headers
  {
    Columns(headers, Cells(row, parseFloat, decodeJSON))
  }

  /** A header that no later column repeats names the value in its own column. */
  lemma {:induction false} ColumnsLastWins(headers: seq<string>, values: seq<Value>, j: nat)
    requires |values| == |headers| && j < |headers|
    requires forall l :: j < l < |headers| ==> headers[l] != headers[j]
    ensures Columns(headers, values)[headers[j]] == values[j]
    decreases |values|
  {
    var n := |values| - 1;
    if j < n {
      assert headers[..n][j] == headers[j] && values[..n][j] == values[j];
      assert forall l :: j < l < n ==> headers[..n][l] != headers[..n][j];
      ColumnsLastWins(headers[..n], values[..n], j);
    }
  }

  /** So a header that no later column repeats names its own cell, parsed. */
  lemma RowDataLastColumnWins(headers: seq<string>, row: seq<string>, parseFloat: string -> Option<string>,
                              decodeJSON: string -> Option<Value>, j: nat)
    requires |row| == |headers| && j < |headers|
    requires forall l :: j < l < |headers| ==> headers[l] != headers[j]
    ensures RowData(headers, row, parseFloat, decodeJSON)[headers[j]] == ParseValue(row[j], parseFloat, decodeJSON)
  {
    ColumnsLastWins(headers, Cells(row, parseFloat, decodeJSON), j);
  }

  /** The test case made of the i-th data row (counting from 0). */
  function CsvCase(headers: seq<string>, row: seq<string>, i: nat, parseFloat: string -> Option<string>,
                   decodeJSON: string -> Option<Value>): TestCase
    requires |row| == |headers|
  {
    TestCase("test_" + NatToString(i + 1), "测试用例_" + NatToString(i + 1), "从CSV第" + NatToString(i + 2) + "行生成的测试用例",
             "auto", RowData(headers, row, parseFloat, decodeJSON), map[])
  }

  /** Different rows give test cases different IDs. */
  lemma CsvIdsDistinct(i: nat, j: nat)
    requires i != j
    ensures "test_" + NatToString(i + 1) != "test_" + NatToString(j + 1)
  {
    NatToStringInjective(i + 1, j + 1);
    PrefixCancels("test_", NatToString(i + 1), NatToString(j + 1));
  }

  lemma NatToStringInjective(m: nat, n: nat)
    requires m != n
    ensures NatToString(m) != NatToString(n)
  {
    DigitsOfNat(m);
    DigitsOfNat(n);
  }

  lemma PrefixCancels(p: string, a: string, b: string)
    requires a != b
    ensures p + a != p + b
  {
    assert (p + a)[|p|..] == a && (p + b)[|p|..] == b;
  }

  /** The first data row whose width is not `width`, or the number of rows when there is none. */
  function FirstMismatch(width: nat, rows: seq<seq<string>>): (j: nat)
    ensures j <= |rows|
    ensures forall l :: 0 <= l < j ==> |rows[l]| == width
    ensures j < |rows| ==> |rows[j]| != width
    decreases |rows|
  {
    if rows == [] then 0
    else if |rows[0]| != width then 0
    else 1 + FirstMismatch(width, rows[1..])
  }

  /** The conditions `FirstMismatch` states pin it down. */
  lemma {:induction false} FirstMismatchIs(width: nat, rows: seq<seq<string>>, j: nat)
    requires j <= |rows|
    requires forall l :: 0 <= l < j ==> |rows[l]| == width
    requires j < |rows| ==> |rows[j]| != width
    ensures FirstMismatch(width, rows) == j
    decreases |rows|
  {
    if rows != [] && j > 0 {
      assert forall l :: 0 <= l < j - 1 ==> |rows[1..][l]| == width by {
        forall l | 0 <= l < j - 1 ensures |rows[1..][l]| == width {
          assert rows[1..][l] == rows[l + 1];
        }
      }
      FirstMismatchIs(width, rows[1..], j - 1);
    }
  }

  /** The inner loop of `parseCSVToTestCases`: the parsed cells of one row under their headers. */
  method FillRow(headers: seq<string>, row: seq<string>, parseFloat: string -> Option<string>,
                 decodeJSON: string -> Option<Value>) returns (testData: map<string, Value>)
    requires |row| == |headers|
    ensures testData == RowData(headers, row, parseFloat, decodeJSON)
  {
    ghost var cells := Cells(row, parseFloat, decodeJSON);
    testData := map[];
    for j := 0 to |row|
      invariant testData == Columns(headers[..j], cells[..j])
    {
      assert headers[..j + 1][..j] == headers[..j] && cells[..j + 1][..j] == cells[..j];
      testData := testData[headers[j] := ParseValue(row[j], parseFloat, decodeJSON)];
    }
    assert headers[..|row|] == headers && cells[..|row|] == cells;
  }

  /**
   * `parseCSVToTestCases`: fewer than two rows is an error; so is the first
   * data row whose width differs from the header's, named by its line; else
   * one test case per data row, in order.
   */
  method ParseCSVToTestCases(data: seq<seq<string>>, parseFloat: string -> Option<string>,
                             decodeJSON: string -> Option<Value>) returns (r: Result<seq<TestCase>, string>)
    ensures |data| < 2 ==> r == Err(TooFewRowsError)
    ensures |data| >= 2 && FirstMismatch(|data[0]|, data[1..]) < |data| - 1 ==>
      r == Err(WidthError(FirstMismatch(|data[0]|, data[1..]) + 2))
    ensures |data| >= 2 && FirstMismatch(|data[0]|, data[1..]) == |data| - 1 ==>
      r.Ok? && |r.value| == |data| - 1
      && forall i :: 0 <= i < |data| - 1 ==> |data[i + 1]| == |data[0]| && r.value[i] == CsvCase(data[0], data[i + 1], i, parseFloat, decodeJSON)
  {
    if |data| < 2 {
      return Err(TooFewRowsError);
    }
    var headers := data[0];
    var rows := data[1..];
    var testCases: seq<TestCase> := [];
    for i := 0 to |rows|
      invariant |testCases| == i
      invariant forall l :: 0 <= l < i ==> |rows[l]| == |headers| && testCases[l] == CsvCase(headers, rows[l], l, parseFloat, decodeJSON)
    {
      var row := rows[i];
      if |row| != |headers| {
        FirstMismatchIs(|headers|, rows, i);
        return Err(WidthError(i + 2));
      }
      var testData := FillRow(headers, row, parseFloat, decodeJSON);
      var testCase := TestCase("test_" + NatToString(i + 1), "测试用例_" + NatToString(i + 1),
                               "从CSV第" + NatToString(i + 2) + "行生成的测试用例", "auto", testData, map[]);
      testCases := testCases + [testCase];
    }
    FirstMismatchIs(|headers|, rows, |rows|);
    assert forall i :: 0 <= i < |data| - 1 ==> data[i + 1] == rows[i];
    r := Ok(testCases);
  }

  // ---------------------------------------------------------------- requests and results

  /**
   * The request `buildHTTPRequests` makes for one case: a POST carries the
   * case's data as XML when the content type is `xml` (in any case) and as
   * JSON otherwise; any other method sends no body and asks for JSON back.
   */
  function PlainRequest(tc: TestCase, order: seq<string>, url: string, upper: string, timeout: int, contentType: string,
                        marshal: Value -> Option<string>): HttpRequest
    requires IsOrderOf(order, tc.data.Keys)
  {
    if upper != "POST" then HttpRequest(url, upper, map["Accept" := "application/json"], "", timeout, false)
    else if ToLower(contentType) == "xml" then
      HttpRequest(url, upper, map["Content-Type" := "application/xml"], CmdXml.DataXml(tc.data, order, marshal), timeout, false)
    else HttpRequest(url, upper, map["Content-Type" := "application/json"], marshal(ObjV(tc.data)).GetOr(""), timeout, false)
  }

  /**
   * For a POST to a URL with a scheme, without prepared content, credentials
   * or query parameters, this command's request is the one the generating
   * commands build with the flags `BodyFlags` derives.
   */
  lemma PostAgreesWithShared(tc: TestCase, order: seq<string>, url: string, timeout: int, isXML: bool,
                             marshal: Value -> Option<string>)
    requires IsOrderOf(order, tc.data.Keys)
    requires HasPrefix(url, "http://") || HasPrefix(url, "https://")
    requires Shared.XmlContentKey !in tc.data && Shared.JsonContentKey !in tc.data
    ensures var flags := Shared.BodyFlags(isXML);
      PlainRequest(tc, order, url, "POST", timeout, if isXML then "xml" else "json", marshal)
      == Shared.CaseRequest(tc, order, Shared.WithQuery(Shared.WithScheme(url), []), "POST", timeout, flags.0, flags.1,
                            Shared.AuthApplied(map[], Shared.AuthConfig("", "", "", []), _ => "").0, marshal)
  {
    assert ToLower("xml") == "xml" && ToLower("json") == "json";
    assert Shared.Parsed([]) == [];
  }

  /** Unlike the generating commands, a GET here carries no body even when a format is chosen. */
  lemma GetHasNoBody(tc: TestCase, order: seq<string>, url: string, timeout: int, contentType: string,
                     marshal: Value -> Option<string>)
    requires IsOrderOf(order, tc.data.Keys)
    ensures var r := PlainRequest(tc, order, url, "GET", timeout, contentType, marshal);
      r.body == "" && r.headers == map["Accept" := "application/json"] && r.url == url
  {
  }

  /** `buildHTTPRequests`: one request per case, to the URL as given, with the method uppercased. */
  method BuildHTTPRequests(testCases: seq<TestCase>, url: string, verb: string, timeout: int, contentType: string,
                           orders: seq<seq<string>>, marshal: Value -> Option<string>) returns (requests: seq<HttpRequest>)
    requires |orders| == |testCases|
    requires forall i :: 0 <= i < |testCases| ==> IsOrderOf(orders[i], testCases[i].data.Keys)
    ensures |requests| == |testCases|
    ensures forall i :: 0 <= i < |testCases| ==>
      requests[i] == PlainRequest(testCases[i], orders[i], url, ToUpper(verb), timeout, contentType, marshal)
  {
    var built := new HttpRequest[|testCases|];
    for i := 0 to |testCases|
      invariant forall j :: 0 <= j < i ==>
        built[j] == PlainRequest(testCases[j], orders[j], url, ToUpper(verb), timeout, contentType, marshal)
    {
      var body := "";
      var headers: map<string, string> := map[];
      var upper := ToUpper(verb);
      if upper == "POST" {
        if ToLower(contentType) == "xml" {
          var xmlData, _ := ConvertToXML(testCases[i].data, orders[i], marshal);
          body := xmlData;
          headers := headers["Content-Type" := "application/xml"];
        } else {
          body := marshal(ObjV(testCases[i].data)).GetOr("");
          headers := headers["Content-Type" := "application/json"];
        }
      } else {
        headers := headers["Accept" := "application/json"];
      }
      built[i] := HttpRequest(url, upper, headers, body, timeout, false);
    }
    requests := built[..];
  }

  /**
   * `processResponses`: one result per test case, the i-th response filling
   * the i-th slot; no request body is recorded.  More responses than test
   * cases index past the results and panic.
   */
  method ProcessResponses(testCases: seq<TestCase>, responses: seq<HttpResponse>) returns (r: Outcome<seq<TestResult>>)
    ensures r.Panicked? <==> |responses| > |testCases|
    ensures r.Returned? ==> (|r.value| == |testCases|
      && (forall i :: 0 <= i < |responses| ==> r.value[i] == ResponseResult(testCases[i], responses[i]))
      && (forall i :: |responses| <= i < |testCases| ==> r.value[i] == NoResult))
  {
    var results := new TestResult[|testCases|](_ => NoResult);
    for i := 0 to |responses|
      invariant i <= |testCases|
      invariant forall j :: 0 <= j < i ==> results[j] == ResponseResult(testCases[j], responses[j])
      invariant forall j :: i <= j < |testCases| ==> results[j] == NoResult
    {
      if i >= |testCases| {
        return Panicked;
      }
      var response := responses[i];
      var result := TestResult(testCases[i].id, false, response.statusCode, response.body, "", "", Milliseconds(response.duration));
      if response.error.Some? {
        result := result.(success := false, error := response.error.value);
      } else {
        result := result.(success := response.statusCode >= 200 && response.statusCode < 300);
      }
      results[i] := result;
    }
    r := Returned(results[..]);
  }

  /** `convertToXML`: the `<data>` document of the map; it never reports an error. */
  method ConvertToXML(data: map<string, Value>, order: seq<string>, marshal: Value -> Option<string>)
      returns (xml: string, err: Option<string>)
    requires IsOrderOf(order, data.Keys)
    ensures xml == CmdXml.DataXml(data, order, marshal) && err == None
  {
    var body := CmdXml.WriteFields(data, order, marshal);
    xml := "<?xml version=\"1.0\" encoding=\"UTF-8\"?>\n" + "<data>\n" + body + "</data>";
    err := None;
  }
}

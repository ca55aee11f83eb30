/**
 * The Dify client of `utils/dify.go`: masking of the API key, the random
 * part of the user identifier, and the fold over the server-sent events of
 * a streaming workflow run that collects the generated text.
 */
module Dify {
  import opened Wrappers
  import opened Text
  import opened Values
  import opened Random
  import Variation

  /** `maskAPIKey`: keys of at most 8 runes are fully starred, longer ones keep their first and last 4. */
  function MaskAPIKey(apiKey: string): (r: string)
    ensures |r| == |apiKey|
    ensures |apiKey| <= 8 ==> forall i :: 0 <= i < |r| ==> r[i] == '*'
    ensures |apiKey| > 8 ==> r[..4] == apiKey[..4] && r[|r| - 4..] == apiKey[|apiKey| - 4..]
    ensures |apiKey| > 8 ==> forall i :: 4 <= i < |r| - 4 ==> r[i] == '*'
  {
    if |apiKey| <= 8 then Repeat('*', |apiKey|)
    else apiKey[..4] + Repeat('*', |apiKey| - 8) + apiKey[|apiKey| - 4..]
  }

  /** The mask depends on nothing but the length and the first and last four runes of the key. */
  lemma MaskHidesMiddle(a: string, b: string)
    requires |a| == |b|
    requires |a| > 8 ==> a[..4] == b[..4] && a[|a| - 4..] == b[|b| - 4..]
    ensures MaskAPIKey(a) == MaskAPIKey(b)
  {
    var ma, mb := MaskAPIKey(a), MaskAPIKey(b);
    forall i | 0 <= i < |ma|
      ensures ma[i] == mb[i]
    {
      if |a| > 8 {
        if i < 4 {
          assert ma[i] == ma[..4][i] && mb[i] == mb[..4][i];
        } else if i >= |a| - 4 {
          assert ma[i] == ma[|ma| - 4..][i - (|ma| - 4)];
          assert mb[i] == mb[|mb| - 4..][i - (|mb| - 4)];
        }
      }
    }
  }

  /**
   * `generateRandomString(length)`. `readFails` stands for `crypto/rand.Read`
   * returning an error, `nanos` for `time.Now().UnixNano()`, and the random
   * bytes are the first `length` draws of `d.here`, each reduced to a byte.
   */
  function RandomString(length: nat, d: Draws, readFails: bool, nanos: int): (r: string)
  {
    if readFails then
      var fallback := IntToString(nanos);
      if |fallback| >= length then fallback[..length] else fallback + Repeat('0', length - |fallback|)
    else
      seq(length, i requires 0 <= i < length => Variation.Charset[Pick(d.here, i, 256) % |Variation.Charset|])
  }

  /** Both paths give exactly `length` runes; random ones are letters or digits, the fallback is decimal digits. */
  lemma RandomStringShape(length: nat, d: Draws, readFails: bool, nanos: int)
    ensures |RandomString(length, d, readFails, nanos)| == length
    ensures !readFails ==> forall i :: 0 <= i < length ==> Variation.IsAlnum(RandomString(length, d, readFails, nanos)[i])
    ensures readFails && nanos >= 0 ==> AllDigits(RandomString(length, d, readFails, nanos))
  {
    var r := RandomString(length, d, readFails, nanos);
    if !readFails {
      Variation.CharsetShape();
      forall i | 0 <= i < length
        ensures Variation.IsAlnum(r[i])
      {
        assert r[i] in Variation.Charset;
      }
    } else if nanos >= 0 {
      var fallback := IntToString(nanos);
      assert AllDigits(fallback);
      if |fallback| < length {
        forall i | 0 <= i < |r|
          ensures IsDigit(r[i])
        {
          if i >= |fallback| {
            assert r[i] == Repeat('0', length - |fallback|)[i - |fallback|];
          }
        }
      }
    }
  }

  /** The loop of `generateRandomString`: fill a byte buffer, then map each byte into the charset in place. */
  method GenerateRandomString(length: nat, d: Draws, readFails: bool, nanos: int) returns (s: string)
    ensures s == RandomString(length, d, readFails, nanos)
    ensures |s| == length
  {
    if readFails {
      var fallback := IntToString(nanos);
      if |fallback| >= length {
        return fallback[..length];
      }
      return fallback + Repeat('0', length - |fallback|);
    }
    var b := new nat[length];
    var k := 0;
    while k < length
      invariant 0 <= k <= length
      invariant forall j :: 0 <= j < k ==> b[j] == Pick(d.here, j, 256)
    {
      b[k] := Pick(d.here, k, 256);
      k := k + 1;
    }
    var out := new char[length];
    var i := 0;
    while i < length
      invariant 0 <= i <= length
      invariant forall j :: 0 <= j < length ==> b[j] == Pick(d.here, j, 256)
      invariant forall j :: 0 <= j < i ==> out[j] == Variation.Charset[Pick(d.here, j, 256) % |Variation.Charset|]
    {
      out[i] := Variation.Charset[b[i] % |Variation.Charset|];
      i := i + 1;
    }
    s := out[..];
  }

  /**
   * The fields of `DifyStreamEvent` the fold reads. `outputsOrder` is the
   * order in which Go's map iteration visits `data["outputs"]` during this run.
   */
  datatype StreamEvent = StreamEvent(
    event: string, answer: string, data: Value, status: int, code: string, message: string,
    outputsOrder: seq<string>)

  /** The state of the fold: the text collected so far and the workflow error, or how it stopped early. */
  datatype Progress = Going(collected: string, errorMsg: string) | Aborted(message: string) | Crashed

  const DataPrefix: string := "data: "

  /** The collected text after visiting the output values in `order`: a string is written only while nothing has been. */
  function FillOutputs(collected: string, outputs: map<string, Value>, order: seq<string>): (r: string)
    decreases |order|
  {
    if order == [] then collected
    else
      var c := FillOutputs(collected, outputs, order[..|order| - 1]);
      var k := order[|order| - 1];
      if k in outputs && outputs[k].StrV? && c == "" then outputs[k].s else c
  }

  /** The first non-empty string value met in `order`, or "" when there is none: an independent description. */
  function FirstText(outputs: map<string, Value>, order: seq<string>): string
  {
    if order == [] then ""
    else if order[0] in outputs && outputs[order[0]].StrV? && outputs[order[0]].s != "" then outputs[order[0]].s
    else FirstText(outputs, order[1..])
  }

  lemma {:induction false} FillOutputsKeeps(collected: string, outputs: map<string, Value>, order: seq<string>)
    requires collected != ""
    ensures FillOutputs(collected, outputs, order) == collected
    decreases |order|
  {
    if order != [] {
      FillOutputsKeeps(collected, outputs, order[..|order| - 1]);
    }
  }

  lemma {:induction false} FillOutputsSnocFirst(outputs: map<string, Value>, order: seq<string>)
    ensures FillOutputs("", outputs, order) == FirstText(outputs, order)
    decreases |order|
  {
    if order != [] {
      var front := order[..|order| - 1];
      FillOutputsSnocFirst(outputs, front);
      FirstTextSnoc(outputs, front, order[|order| - 1]);
      assert front + [order[|order| - 1]] == order;
    }
  }

  lemma {:induction false} FirstTextSnoc(outputs: map<string, Value>, order: seq<string>, k: string)
    ensures FirstText(outputs, order + [k]) ==
      if FirstText(outputs, order) != "" then FirstText(outputs, order)
      else if k in outputs && outputs[k].StrV? then outputs[k].s
      else ""
    decreases |order|
  {
    if order == [] {
      assert order + [k] == [k];
      assert [k][1..] == [];
    } else {
      assert (order + [k])[1..] == order[1..] + [k];
      FirstTextSnoc(outputs, order[1..], k);
    }
  }

  /** `workflow_finished`: a failed status with a non-nil error sets the error (a non-string one panics), then the outputs fill an empty text. */
  function WorkflowFinished(collected: string, errorMsg: string, data: Value, order: seq<string>): (p: Progress)
  {
    if !data.ObjV? then Going(collected, errorMsg)
    else
      var m := data.fields;
      var failed := "status" in m && m["status"] != StrV("succeeded") && "error" in m && !m["error"].NullV?;
      if failed && !m["error"].StrV? then Crashed
      else
        var errorMsg' := if failed then m["error"].s else errorMsg;
        var collected' :=
          if "outputs" in m && m["outputs"].ObjV? then FillOutputs(collected, m["outputs"].fields, order)
          else collected;
        Going(collected', errorMsg')
  }

  /** The Go message of an `error` event. */
  function ApiErrorMessage(e: StreamEvent): string
  {
    "API返回错误: [" + IntToString(e.status) + "] " + e.code + " - " + e.message
  }

  /** The switch on `event.Event` for one decoded event. */
  function Handle(collected: string, errorMsg: string, e: StreamEvent): Progress
  {
    if e.event == "message_replace" then
      if e.answer != "" then Going(e.answer, errorMsg) else Going(collected, errorMsg)
    else if e.event == "workflow_finished" then WorkflowFinished(collected, errorMsg, e.data, e.outputsOrder)
    else if e.event == "error" then Aborted(ApiErrorMessage(e))
    else Going(collected, errorMsg)
  }

  /** One scanned line: only non-empty `data: ` lines that decode are events; the rest are skipped. */
  function Consume(p: Progress, line: string, decode: string -> Option<StreamEvent>): Progress
  {
    if !p.Going? || !HasPrefix(line, DataPrefix) then p
    else
      var jsonData := line[|DataPrefix|..];
      if jsonData == "" then p
      else match decode(jsonData)
        case None => p
        case Some(e) => Handle(p.collected, p.errorMsg, e)
  }

  /** The state after the scanner has produced `lines`. */
  function Fold(lines: seq<string>, decode: string -> Option<StreamEvent>): Progress
  {
    if lines == [] then Going("", "")
    else Consume(Fold(lines[..|lines| - 1], decode), lines[|lines| - 1], decode)
  }

  /**
   * What `processStreamingResponse` returns: a panic, an error message, or
   * `Some(text)` when the text is handed to `saveTestCasesToCSV`
   * (`None`: nothing was generated and no file is written).
   */
  function Finish(p: Progress, readError: Option<string>): Outcome<Result<Option<string>, string>>
  {
    match p
    case Crashed => Panicked
    case Aborted(m) => Returned(Err(m))
    case Going(collected, errorMsg) =>
      if readError.Some? then Returned(Err("读取流式响应失败: " + readError.value))
      else if errorMsg != "" then Returned(Err("处理过程中出现错误: " + errorMsg))
      else if collected == "" then Returned(Ok(None))
      else Returned(Ok(Some(collected)))
  }

  /** Once the fold has stopped, later lines change nothing. */
  lemma {:induction false} FoldStops(lines: seq<string>, i: nat, decode: string -> Option<StreamEvent>)
    requires i <= |lines|
    requires !Fold(lines[..i], decode).Going?
    ensures Fold(lines, decode) == Fold(lines[..i], decode)
    decreases |lines| - i
  {
    if i < |lines| {
      assert lines[..i + 1][..i] == lines[..i];
      FoldStops(lines, i + 1, decode);
    } else {
      assert lines[..i] == lines;
    }
  }

  lemma FoldStep(lines: seq<string>, i: nat, decode: string -> Option<StreamEvent>)
    requires i < |lines|
    ensures Fold(lines[..i + 1], decode) == Consume(Fold(lines[..i], decode), lines[i], decode)
  {
    assert lines[..i + 1][..i] == lines[..i];
  }

  /** A non-empty `message_replace` answer replaces whatever was collected; an empty one changes nothing. */
  lemma ReplaceSetsText(collected: string, errorMsg: string, e: StreamEvent)
    requires e.event == "message_replace"
    ensures e.answer != "" ==> Handle(collected, errorMsg, e) == Going(e.answer, errorMsg)
    ensures e.answer == "" ==> Handle(collected, errorMsg, e) == Going(collected, errorMsg)
  {
  }

  /**
   * Workflow outputs are written only while nothing has been collected: a
   * non-empty text survives, and an empty one becomes the first non-empty
   * string output in iteration order.
   */
  lemma WorkflowOnlyWhenEmpty(collected: string, errorMsg: string, e: StreamEvent)
    requires e.event == "workflow_finished"
    requires Handle(collected, errorMsg, e).Going?
    ensures collected != "" ==> Handle(collected, errorMsg, e).collected == collected
    ensures collected == "" && e.data.ObjV? && "outputs" in e.data.fields && e.data.fields["outputs"].ObjV? ==>
      Handle(collected, errorMsg, e).collected == FirstText(e.data.fields["outputs"].fields, e.outputsOrder)
  {
    if e.data.ObjV? && "outputs" in e.data.fields && e.data.fields["outputs"].ObjV? {
      var outputs := e.data.fields["outputs"].fields;
      if collected != "" {
        FillOutputsKeeps(collected, outputs, e.outputsOrder);
      } else {
        FillOutputsSnocFirst(outputs, e.outputsOrder);
      }
    }
  }

  /** An `error` event ends the run with the API's status, code and message, whatever was collected. */
  lemma ErrorEventAborts(lines: seq<string>, i: nat, decode: string -> Option<StreamEvent>)
    requires i < |lines| && Fold(lines[..i], decode).Going?
    requires HasPrefix(lines[i], DataPrefix) && lines[i][|DataPrefix|..] != ""
    requires decode(lines[i][|DataPrefix|..]).Some?
    requires decode(lines[i][|DataPrefix|..]).value.event == "error"
    ensures Finish(Fold(lines, decode), None) ==
      Returned(Err(ApiErrorMessage(decode(lines[i][|DataPrefix|..]).value)))
  {
    ErrorFoldAborts(lines, i, decode);
  }

  lemma ErrorFoldAborts(lines: seq<string>, i: nat, decode: string -> Option<StreamEvent>)
    requires i < |lines| && Fold(lines[..i], decode).Going?
    requires HasPrefix(lines[i], DataPrefix) && lines[i][|DataPrefix|..] != ""
    requires decode(lines[i][|DataPrefix|..]).Some?
    requires decode(lines[i][|DataPrefix|..]).value.event == "error"
    ensures Fold(lines, decode) == Aborted(ApiErrorMessage(decode(lines[i][|DataPrefix|..]).value))
  {
    ErrorLine(Fold(lines[..i], decode), lines[i], decode);
    FoldStep(lines, i, decode);
    FoldStops(lines, i + 1, decode);
  }

  /** One `error` event line aborts the scan with its message. */
  lemma ErrorLine(p: Progress, line: string, decode: string -> Option<StreamEvent>)
    requires p.Going? && HasPrefix(line, DataPrefix) && line[|DataPrefix|..] != ""
    requires decode(line[|DataPrefix|..]).Some? && decode(line[|DataPrefix|..]).value.event == "error"
    ensures Consume(p, line, decode) == Aborted(ApiErrorMessage(decode(line[|DataPrefix|..]).value))
  {
    var e := decode(line[|DataPrefix|..]).value;
    assert Consume(p, line, decode) == Handle(p.collected, p.errorMsg, e);
  }

  /** Lines that are not decodable `data: ` events leave the state as it was. */
  lemma SkippedLines(p: Progress, line: string, decode: string -> Option<StreamEvent>)
    requires !HasPrefix(line, DataPrefix) || line[|DataPrefix|..] == "" || decode(line[|DataPrefix|..]).None?
    ensures Consume(p, line, decode) == p
  {
  }

  /** `message` events only echo their text: they neither collect nor clear anything. */
  lemma MessageCollectsNothing(collected: string, errorMsg: string, e: StreamEvent)
    requires e.event == "message"
    ensures Handle(collected, errorMsg, e) == Going(collected, errorMsg)
  {
  }

  /** A run that collected nothing and saw no error returns without handing anything to the CSV writer. */
  lemma EmptyTextWritesNothing(lines: seq<string>, decode: string -> Option<StreamEvent>)
    requires Fold(lines, decode) == Going("", "")
    ensures Finish(Fold(lines, decode), None) == Returned(Ok(None))
  {
  }

  /** A text is handed on only when the run completed, the stream read cleanly and no workflow error was recorded. */
  lemma SavedTextIsCollected(p: Progress, readError: Option<string>)
    ensures Finish(p, readError).Returned? && Finish(p, readError).value.Ok? && Finish(p, readError).value.value.Some?
      <==> p.Going? && readError.None? && p.errorMsg == "" && p.collected != ""
    ensures p.Going? && readError.None? && p.errorMsg == "" && p.collected != "" ==> Finish(p, readError) == Returned(Ok(Some(p.collected)))
  {
  }

  /** The outputs loop of a `workflow_finished` event. */
  method FillFromOutputs(collected: string, outputs: map<string, Value>, order: seq<string>) returns (text: string)
    ensures text == FillOutputs(collected, outputs, order)
  {
    text := collected;
    var j := 0;
    while j < |order|
      invariant 0 <= j <= |order|
      invariant text == FillOutputs(collected, outputs, order[..j])
    {
      assert order[..j + 1][..j] == order[..j];
      var k := order[j];
      if k in outputs && outputs[k].StrV? && text == "" {
        text := outputs[k].s;
      }
      j := j + 1;
    }
    assert order[..|order|] == order;
  }

  /**
   * The scanning loop of `processStreamingResponse` over the response
   * `lines`; `decode` is `json.Unmarshal` into an event and `readError` the
   * scanner's final error.
   */
  method ProcessStreamingResponse(lines: seq<string>, decode: string -> Option<StreamEvent>, readError: Option<string>)
    returns (r: Outcome<Result<Option<string>, string>>)
    ensures r == Finish(Fold(lines, decode), readError)
  {
    var collected, errorMsg := "", "";
    var i := 0;
    while i < |lines|
      invariant 0 <= i <= |lines|
      invariant Fold(lines[..i], decode) == Going(collected, errorMsg)
    {
      FoldStep(lines, i, decode);
      var line := lines[i];
      i := i + 1;
      if !HasPrefix(line, DataPrefix) {
        continue;
      }
      var jsonData := line[|DataPrefix|..];
      if jsonData == "" {
        continue;
      }
      var decoded := decode(jsonData);
      if decoded.None? {
        continue;
      }
      var event := decoded.value;
      if event.event == "message_replace" {
        if event.answer != "" {
          collected := event.answer;
        }
      } else if event.event == "workflow_finished" {
        if event.data.ObjV? {
          var m := event.data.fields;
          if "status" in m && m["status"] != StrV("succeeded") && "error" in m && !m["error"].NullV? {
            if !m["error"].StrV? {
              FoldStops(lines, i, decode);
              return Panicked;
            }
            errorMsg := m["error"].s;
          }
          if "outputs" in m && m["outputs"].ObjV? {
            collected := FillFromOutputs(collected, m["outputs"].fields, event.outputsOrder);
          }
        }
      } else if event.event == "error" {
        FoldStops(lines, i, decode);
        return Returned(Err(ApiErrorMessage(event)));
      }
    }
    assert lines[..i] == lines;
    if readError.Some? {
      return Returned(Err("读取流式响应失败: " + readError.value));
    }
    if errorMsg != "" {
      return Returned(Err("处理过程中出现错误: " + errorMsg));
    }
    if collected == "" {
      return Returned(Ok(None));
    }
    return Returned(Ok(Some(collected)));
  }
}

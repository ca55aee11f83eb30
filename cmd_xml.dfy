/**
 * The XML document the request commands send: `convertToXML`, which both
 * cmd/shared.go and cmd/request.go define with the same text.  It writes
 * a prologue, a `<data>` element and one child per entry of the map, in
 * the order Go's map walk visits them.
 */
module CmdXml {
  import opened Wrappers
  import opened Text
  import opened Values
  import opened XmlText
  import Data

  // ---------------------------------------------------------------- escaping JSON text

  /** The three replacements applied to JSON-encoded values: `&` first, then `<` and `>`; quotes stay. */
  function EscapeMarkup(j: string): string
  {
    var e := ReplaceAll(j, "&", "&amp;");
    var e := ReplaceAll(e, "<", "&lt;");
    ReplaceAll(e, ">", "&gt;")
  }

  /** The entity of `&`, `<` and `>`; every other rune, quotes included, stands for itself. */
  function MarkupRune(c: char): string
  {
    if c == '&' then "&amp;" else if c == '<' then "&lt;" else if c == '>' then "&gt;" else [c]
  }

  /** Reference definition: escaping rune by rune. */
  function MarkupRunes(v: string): string
  {
    if v == [] then [] else MarkupRune(v[0]) + MarkupRunes(v[1..])
  }

  function Markup3(v: string): string
  {
    ReplaceChar(ReplaceChar(ReplaceChar(v, '&', "&amp;"), '<', "&lt;"), '>', "&gt;")
  }

  lemma EscapeMarkupIsMarkup3(v: string)
    ensures EscapeMarkup(v) == Markup3(v)
  {
    var r1 := ReplaceChar(v, '&', "&amp;");
    var r2 := ReplaceChar(r1, '<', "&lt;");
    ReplaceAllOneRune(v, '&', "&amp;");
    ReplaceAllOneRune(r1, '<', "&lt;");
    ReplaceAllOneRune(r2, '>', "&gt;");
  }

  lemma Markup3Append(a: string, b: string)
    ensures Markup3(a + b) == Markup3(a) + Markup3(b)
  {
    var a1, b1 := ReplaceChar(a, '&', "&amp;"), ReplaceChar(b, '&', "&amp;");
    var a2, b2 := ReplaceChar(a1, '<', "&lt;"), ReplaceChar(b1, '<', "&lt;");
    ReplaceCharAppend(a, b, '&', "&amp;");
    ReplaceCharAppend(a1, b1, '<', "&lt;");
    ReplaceCharAppend(a2, b2, '>', "&gt;");
  }

  lemma Markup3Rune(c: char)
    ensures Markup3([c]) == MarkupRune(c)
  {
    ReplaceOne(c, '&', "&amp;");
    if c == '&' {
      ReplaceCharAbsent("&amp;", '<', "&lt;");
      ReplaceCharAbsent("&amp;", '>', "&gt;");
    } else {
      ReplaceOne(c, '<', "&lt;");
      if c == '<' {
        ReplaceCharAbsent("&lt;", '>', "&gt;");
      } else {
        ReplaceOne(c, '>', "&gt;");
      }
    }
  }

  lemma {:induction false} Markup3PerRune(v: string)
    ensures Markup3(v) == MarkupRunes(v)
    decreases |v|
  {
    if v != [] {
      assert v == [v[0]] + v[1..];
      Markup3Append([v[0]], v[1..]);
      Markup3Rune(v[0]);
      Markup3PerRune(v[1..]);
    }
  }

  /** The three chained replacements escape rune by rune. */
  lemma EscapeMarkupPerRune(v: string)
    ensures EscapeMarkup(v) == MarkupRunes(v)
  {
    EscapeMarkupIsMarkup3(v);
    Markup3PerRune(v);
  }

  /** A rune other than `&` decodes to itself. */
  lemma UnescapePlain(c: char, rest: string)
    requires c != '&'
    ensures Unescape([c] + rest) == [c] + Unescape(rest)
  {
    var t := [c] + rest;
    assert t[0] == c && t[1..] == rest;
    assert !HasPrefix(t, "&amp;") && !HasPrefix(t, "&lt;") && !HasPrefix(t, "&gt;");
    assert !HasPrefix(t, "&quot;") && !HasPrefix(t, "&apos;");
  }

  lemma UnescapeMarkupRune(c: char, rest: string)
    ensures Unescape(MarkupRune(c) + rest) == [c] + Unescape(rest)
  {
    if c == '&' || c == '<' || c == '>' {
      assert MarkupRune(c) == EscapeRune(c);
      UnescapeRune(c, rest);
    } else {
      UnescapePlain(c, rest);
    }
  }

  lemma {:induction false} UnescapeMarkupRunes(v: string)
    ensures Unescape(MarkupRunes(v)) == v
    decreases |v|
  {
    if v != [] {
      var tail := MarkupRunes(v[1..]);
      assert MarkupRunes(v) == MarkupRune(v[0]) + tail;
      UnescapeMarkupRune(v[0], tail);
      UnescapeMarkupRunes(v[1..]);
      assert v == [v[0]] + v[1..];
    }
  }

  lemma {:induction false} MarkupRunesNoBrackets(v: string)
    ensures '<' !in MarkupRunes(v) && '>' !in MarkupRunes(v)
    decreases |v|
  {
    if v != [] {
      MarkupRunesNoBrackets(v[1..]);
      var e := MarkupRune(v[0]);
      assert forall i :: 0 <= i < |e| ==> e[i] != '<' && e[i] != '>';
    }
  }

  /** JSON text escaped for an element leaves no `<` or `>`, and decoding the entities gives the text back. */
  lemma EscapeMarkupReadsBack(j: string)
    ensures '<' !in EscapeMarkup(j) && '>' !in EscapeMarkup(j)
    ensures Unescape(EscapeMarkup(j)) == j
  {
    EscapeMarkupPerRune(j);
    MarkupRunesNoBrackets(j);
    UnescapeMarkupRunes(j);
  }

  lemma {:induction false} MarkupRunesKeepsQuotes(v: string)
    ensures ('"' in MarkupRunes(v)) == ('"' in v) && ('\'' in MarkupRunes(v)) == ('\'' in v)
    decreases |v|
  {
    if v != [] {
      MarkupRunesKeepsQuotes(v[1..]);
      var e := MarkupRune(v[0]);
      assert ('"' in e) == (v[0] == '"') && ('\'' in e) == (v[0] == '\'');
      assert v == [v[0]] + v[1..];
    }
  }

  /** Quotes are escaped in string values but left alone in JSON text. */
  lemma QuotesOnlyInJson(v: string)
    ensures ('"' in EscapeMarkup(v)) == ('"' in v) && ('\'' in EscapeMarkup(v)) == ('\'' in v)
    ensures '"' !in EscapeXMLValue(v) && '\'' !in EscapeXMLValue(v)
  {
    EscapeMarkupPerRune(v);
    MarkupRunesKeepsQuotes(v);
    EscapeXMLValueWellEscaped(v);
    var e := EscapeXMLValue(v);
    assert forall i :: 0 <= i < |e| ==> !Special(e[i]);
  }

  // ---------------------------------------------------------------- the document

  /**
   * The content of one element, by the dynamic type of the value: strings
   * escaped, `int`, `int32`, `int64`, floats and booleans printed with `%v`,
   * anything else JSON-encoded and escaped, or printed with `%v` when
   * encoding fails.
   */
  function FieldText(v: Value, marshal: Value -> Option<string>): string
  {
    if v.StrV? then EscapeXMLValue(v.s)
    else if PrintedPlain(v) then Show(v)
    else JsonText(v, marshal)
  }

  /** The dynamic types printed with `%v`: `int`, `int32`, `int64`, `float32`, `float64` and `bool`. */
  predicate PrintedPlain(v: Value)
  {
    match v
    case IntV(k, _) => k == Int || k == Int32 || k == Int64
    case FloatV(_, _) => true
    case BoolV(_) => true
    case _ => false
  }

  function JsonText(v: Value, marshal: Value -> Option<string>): string
  {
    match marshal(v)
    case Some(j) => EscapeMarkup(j)
    case None => Show(v)
  }

  /** One child of `<data>`: the cleaned key as the tag around the value's text. */
  function Field(key: string, v: Value, marshal: Value -> Option<string>): string
  {
    "  <" + Data.CleanKey(key) + ">" + FieldText(v, marshal) + "</" + Data.CleanKey(key) + ">\n"
  }

  function Fields(data: map<string, Value>, keys: seq<string>, marshal: Value -> Option<string>): string
    requires forall k :: k in keys ==> k in data
  {
    if keys == [] then ""
    else Fields(data, keys[..|keys| - 1], marshal) + Field(keys[|keys| - 1], data[keys[|keys| - 1]], marshal)
  }

  /** The document written for `data` when the map walk visits its keys in the order `order`. */
  function DataXml(data: map<string, Value>, order: seq<string>, marshal: Value -> Option<string>): string
    requires IsOrderOf(order, data.Keys)
  {
    Data.Prologue + "<data>\n" + Fields(data, order, marshal) + "</data>"
  }

  /** Whatever the map holds, the document is the prologue and one `<data>` element. */
  lemma DataXmlFrame(data: map<string, Value>, order: seq<string>, marshal: Value -> Option<string>)
    requires IsOrderOf(order, data.Keys)
    ensures HasPrefix(DataXml(data, order, marshal), Data.Prologue + "<data>\n")
    ensures HasSuffix(DataXml(data, order, marshal), "</data>")
    ensures data == map[] ==> DataXml(data, order, marshal) == Data.Prologue + "<data>\n</data>"
  {
    Data.DocumentFrame(Data.Prologue + "<data>\n", Fields(data, order, marshal), "</data>");
    if data == map[] {
      assert |order| == 0;
    }
  }

  lemma OccursExtend(a: string, b: string, sub: string, i: int)
    requires OccursAt(a, sub, i)
    ensures OccursAt(a + b, sub, i)
  {
    assert (a + b)[i..i + |sub|] == a[i..i + |sub|];
  }

  lemma OccursShift(a: string, b: string, sub: string, i: int)
    requires OccursAt(b, sub, i)
    ensures OccursAt(a + b, sub, |a| + i)
  {
    assert (a + b)[|a| + i..|a| + i + |sub|] == b[i..i + |sub|];
  }

  /** Where the element of `k` starts in the body written for `keys`. */
  lemma {:induction false} FieldsContain(data: map<string, Value>, keys: seq<string>, k: string, marshal: Value -> Option<string>)
      returns (i: int)
    requires forall x :: x in keys ==> x in data
    requires k in keys
    ensures OccursAt(Fields(data, keys, marshal), Field(k, data[k], marshal), i)
    decreases |keys|
  {
    var init := keys[..|keys| - 1];
    var last := keys[|keys| - 1];
    var front := Fields(data, init, marshal);
    var f := Field(last, data[last], marshal);
    assert Fields(data, keys, marshal) == front + f;
    if k == last {
      OccursShift(front, f, f, 0);
      i := |front|;
    } else {
      assert k in init by {
        var j :| 0 <= j < |keys| && keys[j] == k;
        assert j < |keys| - 1 && init[j] == k;
      }
      i := FieldsContain(data, init, k, marshal);
      OccursExtend(front, f, Field(k, data[k], marshal), i);
    }
  }

  /** Every entry of the map has its element in the document, whatever order the walk takes. */
  lemma DataXmlHasEveryField(data: map<string, Value>, order: seq<string>, marshal: Value -> Option<string>, k: string)
    requires IsOrderOf(order, data.Keys)
    requires k in data
    ensures ContainsStr(DataXml(data, order, marshal), Field(k, data[k], marshal))
  {
    var head := Data.Prologue + "<data>\n";
    var body := Fields(data, order, marshal);
    var g := Field(k, data[k], marshal);
    var i := FieldsContain(data, order, k, marshal);
    OccursShift(head, body, g, i);
    OccursExtend(head + body, "</data>", g, |head| + i);
    assert DataXml(data, order, marshal) == head + body + "</data>";
  }

  /** A string value reads back: its text is well escaped and decodes to the value. */
  lemma StringFieldReadsBack(s: string, marshal: Value -> Option<string>)
    ensures WellEscaped(FieldText(StrV(s), marshal)) && Unescape(FieldText(StrV(s), marshal)) == s
  {
    EscapeXMLValueWellEscaped(s);
    UnescapeEscape(s);
  }

  /** A map, slice or null value that encodes to `j` is written as `j` with only `&`, `<`, `>` escaped. */
  lemma ComplexFieldReadsBack(v: Value, marshal: Value -> Option<string>, j: string)
    requires v.ObjV? || v.ArrV? || v.NullV?
    requires marshal(v) == Some(j)
    ensures '<' !in FieldText(v, marshal) && '>' !in FieldText(v, marshal)
    ensures Unescape(FieldText(v, marshal)) == j
  {
    EscapeMarkupReadsBack(j);
  }

  /** The loop body of `convertToXML`: one element, written by the switch on the value's type. */
  method WriteField(key: string, value: Value, marshal: Value -> Option<string>) returns (entry: string)
    ensures entry == Field(key, value, marshal)
  {
    var cleanKey := Data.CleanKey(key);
    var text: string;
    if value.StrV? {
      text := EscapeXMLValue(value.s);
    } else if PrintedPlain(value) {
      text := Show(value);
    } else {
      var encoded := marshal(value);
      if encoded.Some? {
        text := EscapeMarkup(encoded.value);
      } else {
        text := Show(value);
      }
    }
    entry := "  <" + cleanKey + ">" + text + "</" + cleanKey + ">\n";
  }

  /** The loop of `convertToXML` over the map walk `keys`. */
  method WriteFields(data: map<string, Value>, keys: seq<string>, marshal: Value -> Option<string>) returns (body: string)
    requires forall k :: k in keys ==> k in data
    ensures body == Fields(data, keys, marshal)
  {
    body := "";
    for i := 0 to |keys|
      invariant body == Fields(data, keys[..i], marshal)
    {
      assert keys[..i + 1][..i] == keys[..i];
      var entry := WriteField(keys[i], data[keys[i]], marshal);
      body := body + entry;
    }
    assert keys[..|keys|] == keys;
  }
}

/**
 * The package state of utils/data.go and the operations that read or write
 * it: recording the field order of a parsed document, fanning a document out
 * into test cases, and rendering test cases as XML, JSON and CSV rows.
 *
 * Decoding JSON and XML, `json.Marshal` and float formatting are foreign:
 * their results come in as parameters.  Where Go ranges over a map, the
 * order of that walk is a parameter too, required to list each key once.
 */
module Data {
  import opened Wrappers
  import opened Text
  import opened Values
  import opened Random
  import opened Variation
  import JsonKeys
  import XmlKeys
  import opened XmlText

  /** The iteration orders a rendering of one map uses: its own keys, and the keys of each nested map. */
  datatype MapOrder = MapOrder(top: seq<string>, nested: map<string, seq<string>>)

  predicate OrderFits(o: MapOrder, data: map<string, Value>)
  {
    IsOrderOf(o.top, data.Keys)
    && forall key :: key in data && data[key].ObjV? ==> key in o.nested && IsOrderOf(o.nested[key], data[key].fields.Keys)
  }

  // ---------------------------------------------------------------- type tags

  /** Number of characters after the first `.`, or `None` without a dot. */
  function Decimals(t: string): Option<nat>
  {
    match Index(t, ".")
    case Some(d) => Some(|t| - d - 1)
    case None => None
  }

  /** The type tag `GenerateTestCases` records for a value. */
  function TypeTag(v: Value): string
  {
    match v
    case IntV(_, _) => "int"
    case FloatV(_, t) => if Decimals(t).Some? then "float:" + NatToString(Decimals(t).value) else "float"
    case StrV(s) =>
      if ',' in s then "array-string"
      else if ParseInt(s).Some? then "int-string"
      else if IsFloatSyntax(s) then "float-string:" + NatToString(Decimals(s).GetOr(0))
      else "string"
    case BoolV(_) => "bool"
    case ArrV(_) => "array"
    case ObjV(_) => "object"
    case NullV => "unknown"
    case OtherV(_) => "unknown"
  }

  function TypesOf(data: map<string, Value>): (types: map<string, string>)
    ensures types.Keys == data.Keys
  {
    map key | key in data :: TypeTag(data[key])
  }

  /**
   * The tags starting with `int` are those of Go integers and of integer
   * strings; those starting with `float` are those of floats and of float
   * strings.
   */
  lemma TypeTagPrefixes(v: Value)
    ensures HasPrefix(TypeTag(v), "int") <==> v.IntV? || (v.StrV? && ',' !in v.s && ParseInt(v.s).Some?)
    ensures HasPrefix(TypeTag(v), "float") <==>
      v.FloatV? || (v.StrV? && ',' !in v.s && ParseInt(v.s).None? && IsFloatSyntax(v.s))
  {
    var t := TypeTag(v);
    match v
    case FloatV(_, x) =>
      assert t[..5] == "float" && t[0] == 'f';
    case StrV(x) =>
      if ',' in x {
        assert t[0] == 'a';
      } else if ParseInt(x).Some? {
        assert t[..3] == "int" && t[0] == 'i';
      } else if IsFloatSyntax(x) {
        assert t[..5] == "float" && t[0] == 'f';
      } else {
        assert t[0] == 's';
      }
    case IntV(_, _) =>
      assert t[0] == 'i';
    case BoolV(_) =>
      assert t[0] == 'b';
    case ArrV(_) =>
      assert t[0] == 'a';
    case ObjV(_) =>
      assert t[0] == 'o';
    case NullV =>
      assert t[0] == 'u';
    case OtherV(_) =>
      assert t[0] == 'u';
  }

  // ---------------------------------------------------------------- fan-out

  /**
   * Whether varying `v` panics: an integer, or an integer string without
   * commas, at or below -2 or at or above `RoundsTo2p63`, anywhere inside.
   */
  predicate Panics(v: Value)
  {
    match v
    case IntV(_, i) => i <= -2 || i >= RoundsTo2p63
    case StrV(s) => ',' !in s && ParseInt(s).Some? && (ParseInt(s).value <= -2 || ParseInt(s).value >= RoundsTo2p63)
    case ArrV(items) => exists j :: 0 <= j < |items| && Panics(items[j])
    case ObjV(m) => exists key :: key in m && Panics(m[key])
    case _ => false
  }

  /** Whether `generateVariation` panics does not depend on the draws. */
  lemma {:induction false} VaryPanicsIff(v: Value, d: Draws)
    requires WellTyped(v)
    ensures Vary(v, d).Panicked? <==> Panics(v)
    decreases v
  {
    match v
    case IntV(k, i) =>
      assert InRange(Int64, i);
      SpreadSign(i);
    case StrV(s) =>
      if ',' !in s && ParseInt(s).Some? {
        SpreadSign(ParseInt(s).value);
      }
    case ArrV(items) =>
      forall j | 0 <= j < |items|
        ensures Vary(items[j], Item(d, j)).Panicked? <==> Panics(items[j])
      {
        VaryPanicsIff(items[j], Item(d, j));
      }
    case ObjV(m) =>
      forall key | key in m
        ensures Vary(m[key], Field(d, key)).Panicked? <==> Panics(m[key])
      {
        VaryPanicsIff(m[key], Field(d, key));
      }
    case _ =>
  }

  /**
   * `GenerateTestCases(data, count)`: `count` variations of `data`, case `i`
   * drawing from `Item(d, i)`.  A negative count panics in `make`.
   */
  function Generated(data: map<string, Value>, count: int, d: Draws): Outcome<seq<map<string, Value>>>
  {
    if count < 0 then Panicked
    else if exists i :: 0 <= i < count && Vary(ObjV(data), Item(d, i)).Panicked? then Panicked
    else Returned(seq(count, i requires 0 <= i < count => Vary(ObjV(data), Item(d, i)).value.fields))
  }

  lemma GeneratedPanicAt(data: map<string, Value>, count: int, d: Draws, i: nat)
    requires i < count && Vary(ObjV(data), Item(d, i)).Panicked?
    ensures Generated(data, count, d) == Panicked
  {
  }

  /** `c` is the case varying `data` with `d` yields, without a panic. */
  predicate CaseIs(data: map<string, Value>, d: Draws, c: map<string, Value>)
  {
    Vary(ObjV(data), d).Returned? && Vary(ObjV(data), d).value.fields == c
  }

  lemma GeneratedIs(data: map<string, Value>, count: int, d: Draws, cases: seq<map<string, Value>>)
    requires count >= 0 && |cases| == count
    requires forall t :: 0 <= t < count ==> CaseIs(data, Item(d, t), cases[t])
    ensures Generated(data, count, d) == Returned(cases)
  {
    var s := seq(count, i requires 0 <= i < count => Vary(ObjV(data), Item(d, i)).value.fields);
    assert forall t :: 0 <= t < count ==> s[t] == cases[t];
    assert s == cases;
  }

  /** Exactly `count` cases, each with the key set of `data` and the shape of every value. */
  lemma GeneratedShape(data: map<string, Value>, count: int, d: Draws)
    requires Generated(data, count, d).Returned?
    ensures var cases := Generated(data, count, d).value;
      |cases| == count
      && forall i :: 0 <= i < count ==>
        cases[i].Keys == data.Keys && forall key :: key in data ==> SameShape(data[key], cases[i][key])
  {
    var cases := Generated(data, count, d).value;
    forall i | 0 <= i < count
      ensures cases[i].Keys == data.Keys && forall key :: key in data ==> SameShape(data[key], cases[i][key])
    {
      VaryKeepsShape(ObjV(data), Item(d, i));
    }
  }

  /** The fan-out panics exactly for a negative count, or for a positive count when some value panics. */
  lemma GeneratedPanics(data: map<string, Value>, count: int, d: Draws)
    requires WellTyped(ObjV(data))
    ensures Generated(data, count, d).Panicked? <==>
      count < 0 || (count > 0 && exists key :: key in data && Panics(data[key]))
  {
    if count > 0 {
      VaryPanicsIff(ObjV(data), Item(d, 0));
      forall i | 0 <= i < count
        ensures Vary(ObjV(data), Item(d, i)).Panicked? <==> Panics(ObjV(data))
      {
        VaryPanicsIff(ObjV(data), Item(d, i));
      }
    }
  }

  // ---------------------------------------------------------------- XML rendering

  const Prologue: string := "<?xml version=\"1.0\" encoding=\"UTF-8\"?>\n"

  /** A key as a tag name: spaces and hyphens become underscores. */
  function CleanKey(key: string): string
  {
    ReplaceAll(ReplaceAll(key, " ", "_"), "-", "_")
  }

  /** One nested element, or nothing for a key the map lacks. */
  function NestedLine(m: map<string, Value>, k: string): string
  {
    if k in m then "    <" + CleanKey(k) + ">" + Show(m[k]) + "</" + CleanKey(k) + ">\n" else ""
  }

  function NestedXml(m: map<string, Value>, keys: seq<string>): string
  {
    if keys == [] then "" else NestedXml(m, keys[..|keys| - 1]) + NestedLine(m, keys[|keys| - 1])
  }

  function ItemsXml(items: seq<Value>): string
  {
    if items == [] then "" else ItemsXml(items[..|items| - 1]) + "    <item>" + Show(items[|items| - 1]) + "</item>\n"
  }

  /** The content of one element: escaped text, nested elements, `<item>` elements, or the `%v` text. */
  function ValueXml(v: Value, nested: seq<string>): string
  {
    match v
    case StrV(s) => EscapeXMLValue(s)
    case ObjV(m) => "\n" + NestedXml(m, nested) + "  "
    case ArrV(items) => "\n" + ItemsXml(items) + "  "
    case _ => Show(v)
  }

  function NestedOrder(o: MapOrder, key: string): seq<string>
  {
    if key in o.nested then o.nested[key] else []
  }

  function EntryXml(key: string, v: Value, nested: seq<string>): string
  {
    "  <" + CleanKey(key) + ">" + ValueXml(v, nested) + "</" + CleanKey(key) + ">\n"
  }

  /** The elements for `keys`, in order, skipping keys missing from `data`. */
  function BodyXml(keys: seq<string>, data: map<string, Value>, o: MapOrder): string
  {
    if keys == [] then ""
    else
      var last := keys[|keys| - 1];
      BodyXml(keys[..|keys| - 1], data, o) + (if last in data then EntryXml(last, data[last], NestedOrder(o, last)) else "")
  }

  /** The document `convertMapToXML` writes, given the recorded key order. */
  function MapToXml(keyOrder: seq<string>, data: map<string, Value>, o: MapOrder): string
  {
    Prologue + "<root>\n" + BodyXml(if |keyOrder| > 0 then keyOrder else o.top, data, o) + "</root>"
  }

  function Present(keys: seq<string>, data: map<string, Value>): (r: seq<string>)
    ensures forall k :: k in r <==> k in keys && k in data
  {
    if keys == [] then []
    else
      var last := keys[|keys| - 1];
      var init := Present(keys[..|keys| - 1], data);
      assert forall k :: k in keys <==> k in keys[..|keys| - 1] || k == last;
      if last in data then init + [last] else init
  }

  /** Keys missing from the data contribute nothing: the body is that of the present keys alone. */
  lemma {:induction false} BodySkipsMissing(keys: seq<string>, data: map<string, Value>, o: MapOrder)
    ensures BodyXml(keys, data, o) == BodyXml(Present(keys, data), data, o)
  {
    if keys != [] {
      var init := keys[..|keys| - 1];
      var last := keys[|keys| - 1];
      BodySkipsMissing(init, data, o);
      if last in data {
        var p := Present(init, data) + [last];
        assert p[..|p| - 1] == Present(init, data);
      }
    }
  }

  /** Each rune of a cleaned key is the rune of the key, with `' '` and `'-'` turned into `'_'`. */
  lemma CleanKeyRunes(key: string)
    ensures var c := CleanKey(key);
      |c| == |key| && ' ' !in c && '-' !in c
      && forall i :: 0 <= i < |key| ==> c[i] == if key[i] == ' ' || key[i] == '-' then '_' else key[i]
  {
    ReplaceAllOneRune(key, ' ', "_");
    ReplaceAllOneRune(ReplaceChar(key, ' ', "_"), '-', "_");
    ReplaceUnderscore(key, ' ');
    ReplaceUnderscore(ReplaceChar(key, ' ', "_"), '-');
  }

  lemma {:induction false} ReplaceUnderscore(s: string, c: char)
    ensures var r := ReplaceChar(s, c, "_");
      |r| == |s| && forall i :: 0 <= i < |s| ==> r[i] == if s[i] == c then '_' else s[i]
    decreases |s|
  {
    if s != [] {
      ReplaceUnderscore(s[1..], c);
    }
  }

  /** A string value is written escaped, so that decoding the entities gives the value back. */
  lemma StringEntry(key: string, s: string, nested: seq<string>)
    ensures var e := EscapeXMLValue(s);
      EntryXml(key, StrV(s), nested) == "  <" + CleanKey(key) + ">" + e + "</" + CleanKey(key) + ">\n"
      && WellEscaped(e) && Unescape(e) == s
  {
    EscapeXMLValueWellEscaped(s);
    UnescapeEscape(s);
  }

  // ---------------------------------------------------------------- JSON and CSV rows

  /** `ConvertToJSONRows`: a `JSON` header and one row per case; `{}` where marshalling fails. */
  function JsonRows(cases: seq<map<string, Value>>, marshal: Value -> Option<string>): (rows: seq<seq<string>>)
  {
    if cases == [] then []
    else [["JSON"]] + seq(|cases|, i requires 0 <= i < |cases| => [marshal(ObjV(cases[i])).GetOr("{}")])
  }

  method ConvertToJSONRows(cases: seq<map<string, Value>>, marshal: Value -> Option<string>) returns (rows: seq<seq<string>>)
    ensures rows == JsonRows(cases, marshal)
    ensures |rows| == (if cases == [] then 0 else |cases| + 1)
    ensures forall i :: 0 <= i < |rows| ==> |rows[i]| == 1
  {
    if |cases| == 0 {
      return [];
    }
    rows := [["JSON"]];
    for i := 0 to |cases|
      invariant rows == JsonRows(cases, marshal)[..i + 1]
    {
      var jsonData := marshal(ObjV(cases[i]));
      var text := if jsonData.Some? then jsonData.value else "{}";
      rows := rows + [[text]];
    }
  }

  /** `%v`, or `json.Marshal` for maps and arrays when it succeeds. */
  function DefaultCell(v: Value, marshal: Value -> Option<string>): string
  {
    if v.ObjV? || v.ArrV? then marshal(v).GetOr(Show(v)) else Show(v)
  }

  /** Digits after the `:` of a `float` tag, or 2. */
  function TagPrecision(tag: string): int
  {
    var parts := Split(tag, ':');
    if |parts| > 1 && ParseInt(parts[1]).Some? then ParseInt(parts[1]).value else 2
  }

  /**
   * One CSV cell.  `fixed(t, p)` is the float printed as `t` formatted with
   * `p` decimals.  A key missing from the case reads as nil.
   */
  function Cell(types: map<string, string>, key: string, c: map<string, Value>,
                marshal: Value -> Option<string>, fixed: (string, int) -> string): string
  {
    var v := if key in c then c[key] else NullV;
    if key in types && HasPrefix(types[key], "int") && (v.FloatV? || v.IntV?) then
      if v.FloatV? then fixed(v.text, 0) else IntToString(v.i)
    else if key in types && !HasPrefix(types[key], "int") && HasPrefix(types[key], "float") && v.FloatV? then
      fixed(v.text, TagPrecision(types[key]))
    else if key in types && types[key] == "array-string" && v.StrV? then v.s
    else DefaultCell(v, marshal)
  }

  function CsvRow(keys: seq<string>, types: map<string, string>, c: map<string, Value>,
                  marshal: Value -> Option<string>, fixed: (string, int) -> string): (row: seq<string>)
    ensures |row| == |keys|
  {
    seq(|keys|, j requires 0 <= j < |keys| => Cell(types, keys[j], c, marshal, fixed))
  }

  function CsvKeys(keyOrder: seq<string>, firstOrder: seq<string>): seq<string>
  {
    if |keyOrder| > 0 then keyOrder else firstOrder
  }

  /** `ConvertToCSV`: the header row of keys, then one row per case with a cell per key. */
  function CsvRows(keyOrder: seq<string>, types: map<string, string>, cases: seq<map<string, Value>>, firstOrder: seq<string>,
                   marshal: Value -> Option<string>, fixed: (string, int) -> string): (rows: seq<seq<string>>)
  {
    if cases == [] then []
    else
      var keys := CsvKeys(keyOrder, firstOrder);
      [keys] + seq(|cases|, i requires 0 <= i < |cases| => CsvRow(keys, types, cases[i], marshal, fixed))
  }

  /**
   * The CSV has a header and a row per case, every row as wide as the header;
   * a recorded `array-string` string is written as it is and a recorded
   * integer as its decimal digits.
   */
  lemma CsvShape(keyOrder: seq<string>, types: map<string, string>, cases: seq<map<string, Value>>, firstOrder: seq<string>,
                 marshal: Value -> Option<string>, fixed: (string, int) -> string)
    requires cases != []
    ensures var rows := CsvRows(keyOrder, types, cases, firstOrder, marshal, fixed);
      var keys := CsvKeys(keyOrder, firstOrder);
      |rows| == |cases| + 1 && rows[0] == keys
      && (forall i :: 0 <= i < |rows| ==> |rows[i]| == |keys|)
      && forall i, j :: 0 <= i < |cases| && 0 <= j < |keys| ==> rows[i + 1][j] == Cell(types, keys[j], cases[i], marshal, fixed)
  {
  }

  /**
   * A value recorded as `array-string` that is still a string is written as
   * it is; one recorded as `int` that is an integer is written as its
   * decimal digits; a missing key reads as nil.
   */
  lemma CellKinds(types: map<string, string>, key: string, c: map<string, Value>,
                  marshal: Value -> Option<string>, fixed: (string, int) -> string)
    ensures key in types && types[key] == "array-string" && key in c && c[key].StrV? ==>
      Cell(types, key, c, marshal, fixed) == c[key].s
    ensures key in types && types[key] == "int" && key in c && c[key].IntV? ==>
      Cell(types, key, c, marshal, fixed) == IntToString(c[key].i)
    ensures key !in types && key !in c ==> Cell(types, key, c, marshal, fixed) == "<nil>"
  {
    var a := "array-string";
    assert a[0] == 'a';
    var i := "int";
    assert HasPrefix(i, "int");
  }

  // ---------------------------------------------------------------- the package state

  /** The cells of one CSV row, one per key. */
  method FormatCsvRow(keys: seq<string>, types: map<string, string>, c: map<string, Value>,
                      marshal: Value -> Option<string>, fixed: (string, int) -> string) returns (row: seq<string>)
    ensures row == CsvRow(keys, types, c, marshal, fixed)
  {
    var cells := new string[|keys|];
    for j := 0 to |keys|
      invariant forall t :: 0 <= t < j ==> cells[t] == Cell(types, keys[t], c, marshal, fixed)
    {
      cells[j] := Cell(types, keys[j], c, marshal, fixed);
    }
    row := cells[..];
  }

  /** Rows built header first, then one per case, are `CsvRows`. */
  lemma CsvRowsFrom(keyOrder: seq<string>, types: map<string, string>, cases: seq<map<string, Value>>, firstOrder: seq<string>,
                    marshal: Value -> Option<string>, fixed: (string, int) -> string, rows: seq<seq<string>>)
    requires cases != []
    requires |rows| == |cases| + 1 && rows[0] == CsvKeys(keyOrder, firstOrder)
    requires forall t :: 0 <= t < |cases| ==> rows[t + 1] == CsvRow(CsvKeys(keyOrder, firstOrder), types, cases[t], marshal, fixed)
    ensures rows == CsvRows(keyOrder, types, cases, firstOrder, marshal, fixed)
  {
    var want := CsvRows(keyOrder, types, cases, firstOrder, marshal, fixed);
    forall t | 0 <= t < |rows|
      ensures rows[t] == want[t]
    {
      if t > 0 {
        assert rows[(t - 1) + 1] == CsvRow(CsvKeys(keyOrder, firstOrder), types, cases[t - 1], marshal, fixed);
      }
    }
  }

  /** The root loop of `ParseXML`: the first object-valued entry in iteration order, else the whole map. */
  method FindRoot(result: map<string, Value>, rootOrder: seq<string>) returns (root: map<string, Value>)
    requires forall k :: k in rootOrder ==> k in result
    ensures root == RootOf(result, rootOrder)
  {
    var i := 0;
    while i < |rootOrder|
      invariant 0 <= i <= |rootOrder|
      invariant RootOf(result, rootOrder[i..]) == RootOf(result, rootOrder)
    {
      assert rootOrder[i..][1..] == rootOrder[i + 1..];
      var rootValue := result[rootOrder[i]];
      if rootValue.ObjV? {
        return rootValue.fields;
      }
      i := i + 1;
    }
    root := result;
  }

  /** The package variables `originalKeyOrder` and `originalValueTypes`. */
  class Globals {
    var originalKeyOrder: seq<string>
    var originalValueTypes: map<string, string>

    /** The zero values: no recorded order and no types. */
    constructor()
      ensures originalKeyOrder == [] && originalValueTypes == map[]
    {
      originalKeyOrder := [];
      originalValueTypes := map[];
    }

    /**
     * `ParseJSON`: a decoding error is returned wrapped; otherwise the keys
     * `extractJSONKeys` finds become the recorded order, when there are any.
     * `decoded` is the decoder's result after number conversion.
     */
    method ParseJSON(text: string, decoded: Result<map<string, Value>, string>) returns (r: Result<map<string, Value>, string>)
      modifies this
      ensures decoded.Err? ==> r == Err("解析JSON失败: " + decoded.error)
      ensures decoded.Ok? ==> r == Ok(decoded.value)
      ensures originalKeyOrder ==
        if decoded.Ok? && |JsonKeys.JsonKeys(text)| > 0 then JsonKeys.JsonKeys(text) else old(originalKeyOrder)
      ensures originalValueTypes == old(originalValueTypes)
    {
      if decoded.Err? {
        return Err("解析JSON失败: " + decoded.error);
      }
      var keys := JsonKeys.ExtractJSONKeys(text);
      if |keys| > 0 {
        originalKeyOrder := keys;
      }
      r := Ok(decoded.value);
    }

    /**
     * `ParseXML`: records the element names found in the text, or else the
     * decoded map's keys in `iterOrder`; returns the first map-valued entry
     * met in `rootOrder`, else the whole map.  `matches` are the tag-pattern
     * matches in the text.
     */
    method ParseXML(decoded: Result<map<string, Value>, string>, matches: seq<XmlKeys.TagMatch>,
                    iterOrder: seq<string>, rootOrder: seq<string>) returns (r: Result<map<string, Value>, string>)
      requires decoded.Ok? ==> IsOrderOf(iterOrder, decoded.value.Keys) && IsOrderOf(rootOrder, decoded.value.Keys)
      modifies this
      ensures decoded.Err? ==> r == Err("解析XML失败: " + decoded.error) && originalKeyOrder == old(originalKeyOrder)
      ensures decoded.Ok? ==> r == Ok(RootOf(decoded.value, rootOrder))
      ensures decoded.Ok? && (exists k :: k in XmlKeys.TagNames(matches) && XmlKeys.Accepted(k)) ==>
        XmlKeys.NoDuplicates(originalKeyOrder)
        && (forall k :: k in originalKeyOrder <==> k in XmlKeys.TagNames(matches) && XmlKeys.Accepted(k))
        && forall a, b :: 0 <= a < b < |originalKeyOrder| ==>
             XmlKeys.FirstIndex(XmlKeys.TagNames(matches), originalKeyOrder[a])
             < XmlKeys.FirstIndex(XmlKeys.TagNames(matches), originalKeyOrder[b])
      ensures decoded.Ok? && !(exists k :: k in XmlKeys.TagNames(matches) && XmlKeys.Accepted(k)) ==>
        originalKeyOrder == iterOrder
      ensures originalValueTypes == old(originalValueTypes)
    {
      if decoded.Err? {
        return Err("解析XML失败: " + decoded.error);
      }
      var result := decoded.value;
      var keys := XmlKeys.ExtractXMLKeys(matches);
      if |keys| > 0 {
        assert keys[0] in keys;
        originalKeyOrder := keys;
      } else {
        originalKeyOrder := iterOrder;
      }
      var root := FindRoot(result, rootOrder);
      r := Ok(root);
    }

    /**
     * `GenerateTestCases`: the cases of `Generated`; afterwards the recorded
     * order is the map walk `order` (the order the parser recovered is
     * lost) and the types are those of `data`.  A panic leaves the state
     * as it was.
     */
    method GenerateTestCases(data: map<string, Value>, count: int, order: seq<string>, d: Draws)
      returns (r: Outcome<seq<map<string, Value>>>)
      requires IsOrderOf(order, data.Keys)
      modifies this
      ensures r == Generated(data, count, d)
      ensures r.Returned? ==> originalKeyOrder == order && originalValueTypes == TypesOf(data)
      ensures r.Returned? ==> IsOrderOf(originalKeyOrder, data.Keys)
      ensures r.Panicked? ==> originalKeyOrder == old(originalKeyOrder) && originalValueTypes == old(originalValueTypes)
    {
      if count < 0 {
        return Panicked;
      }
      var keys := order;
      var types := RecordTypes(data);
      r := FanOut(data, keys, count, d);
      if r.Returned? {
        originalKeyOrder := keys;
        originalValueTypes := types;
      }
    }

    /**
     * `convertMapToXML`: the fixed prologue, a `<root>` element holding one
     * element per key of the recorded order (or of the map walk `o.top`
     * when none is recorded) that is present in `data`; it never fails.
     */
    method ConvertMapToXML(data: map<string, Value>, o: MapOrder) returns (xml: string, err: Option<string>)
      requires OrderFits(o, data)
      ensures xml == MapToXml(originalKeyOrder, data, o) && err == None
      ensures HasPrefix(xml, Prologue + "<root>\n") && HasSuffix(xml, "</root>")
    {
      var keys := originalKeyOrder;
      if |keys| == 0 {
        keys := o.top;
      }
      var body := WriteBody(keys, data, o);
      xml := Prologue + "<root>\n" + body + "</root>";
      err := None;
      DocumentFrame(Prologue + "<root>\n", body, "</root>");
    }

    /** `ConvertToXMLRows`: an `XML` header and one document per case, using the map walks in `orders`. */
    method ConvertToXMLRows(cases: seq<map<string, Value>>, orders: seq<MapOrder>) returns (rows: seq<seq<string>>)
      requires |orders| == |cases| && forall i :: 0 <= i < |cases| ==> OrderFits(orders[i], cases[i])
      ensures |rows| == (if cases == [] then 0 else |cases| + 1)
      ensures cases != [] ==> rows[0] == ["XML"]
      ensures forall i :: 0 <= i < |cases| ==> rows[i + 1] == [MapToXml(originalKeyOrder, cases[i], orders[i])]
    {
      if |cases| == 0 {
        return [];
      }
      rows := [["XML"]];
      for i := 0 to |cases|
        invariant |rows| == i + 1 && rows[0] == ["XML"]
        invariant forall t :: 0 <= t < i ==> rows[t + 1] == [MapToXml(originalKeyOrder, cases[t], orders[t])]
      {
        var xmlData, _ := ConvertMapToXML(cases[i], orders[i]);
        rows := rows + [[xmlData]];
      }
    }

    /**
     * `ConvertToCSV`: the keys are the recorded order, or the walk
     * `firstOrder` of the first case when none is recorded.
     */
    method ConvertToCSV(cases: seq<map<string, Value>>, firstOrder: seq<string>,
                        marshal: Value -> Option<string>, fixed: (string, int) -> string) returns (rows: seq<seq<string>>)
      requires cases != [] ==> IsOrderOf(firstOrder, cases[0].Keys)
      ensures rows == CsvRows(originalKeyOrder, originalValueTypes, cases, firstOrder, marshal, fixed)
    {
      if |cases| == 0 {
        return [];
      }
      var keys := originalKeyOrder;
      if |keys| == 0 {
        keys := firstOrder;
      }
      var types := originalValueTypes;
      rows := [keys];
      for i := 0 to |cases|
        invariant |rows| == i + 1 && rows[0] == keys
        invariant forall t :: 0 <= t < i ==> rows[t + 1] == CsvRow(keys, types, cases[t], marshal, fixed)
      {
        var row := FormatCsvRow(keys, types, cases[i], marshal, fixed);
        rows := rows + [row];
      }
      CsvRowsFrom(originalKeyOrder, types, cases, firstOrder, marshal, fixed, rows);
    }
  }

  /** The first map-valued entry met in `rootOrder`, or the whole map. */
  function RootOf(result: map<string, Value>, rootOrder: seq<string>): map<string, Value>
    requires forall k :: k in rootOrder ==> k in result
  {
    if rootOrder == [] then result
    else if result[rootOrder[0]].ObjV? then result[rootOrder[0]].fields
    else RootOf(result, rootOrder[1..])
  }

  /** The loop of `GenerateTestCases` that fills the `count` cases. */
  method FanOut(data: map<string, Value>, keys: seq<string>, count: nat, d: Draws) returns (r: Outcome<seq<map<string, Value>>>)
    requires IsOrderOf(keys, data.Keys)
    ensures r == Generated(data, count, d)
  {
    var testCases := new map<string, Value>[count];
    for i := 0 to count
      invariant forall t :: 0 <= t < i ==> CaseIs(data, Item(d, t), testCases[t])
    {
      var testCase, ok := VaryCase(data, keys, Item(d, i));
      if !ok {
        GeneratedPanicAt(data, count, d, i);
        return Panicked;
      }
      testCases[i] := testCase;
    }
    GeneratedIs(data, count, d, testCases[..]);
    r := Returned(testCases[..]);
  }

  /** The type tags of `data`, one entry per key, filled by walking the map. */
  method RecordTypes(data: map<string, Value>) returns (types: map<string, string>)
    ensures types == TypesOf(data)
  {
    types := map[];
    var rest := data.Keys;
    while rest != {}
      invariant rest <= data.Keys
      invariant types.Keys == data.Keys - rest
      invariant forall key :: key in types ==> types[key] == TypeTag(data[key])
      decreases rest
    {
      var key :| key in rest;
      types := types[key := TypeTag(data[key])];
      rest := rest - {key};
    }
  }

  /** Varying a map that does not panic varies each entry on its own draws. */
  lemma VaryFields(data: map<string, Value>, d: Draws)
    requires forall k :: k in data ==> Vary(data[k], Field(d, k)).Returned?
    ensures Vary(ObjV(data), d).Returned?
    ensures Vary(ObjV(data), d).value.fields.Keys == data.Keys
    ensures forall k :: k in data ==> Vary(ObjV(data), d).value.fields[k] == Vary(data[k], Field(d, k)).value
  {
  }

  lemma CasePanics(data: map<string, Value>, d: Draws, key: string)
    requires key in data && Vary(data[key], Field(d, key)).Panicked?
    ensures Vary(ObjV(data), d).Panicked?
  {
  }

  lemma CaseFromFields(data: map<string, Value>, keys: seq<string>, d: Draws, testCase: map<string, Value>)
    requires IsOrderOf(keys, data.Keys)
    requires forall t :: 0 <= t < |keys| ==> Vary(data[keys[t]], Field(d, keys[t])).Returned?
    requires forall k :: k in testCase <==> k in keys
    requires forall k :: k in testCase ==> testCase[k] == Vary(data[k], Field(d, k)).value
    ensures CaseIs(data, d, testCase)
  {
    forall k | k in data
      ensures Vary(data[k], Field(d, k)).Returned?
    {
      assert k in keys;
      var t :| 0 <= t < |keys| && keys[t] == k;
    }
    VaryFields(data, d);
  }

  /** One test case: each key in `keys` varied in turn; `ok` is false where Go would panic. */
  method VaryCase(data: map<string, Value>, keys: seq<string>, d: Draws) returns (testCase: map<string, Value>, ok: bool)
    requires IsOrderOf(keys, data.Keys)
    ensures ok <==> Vary(ObjV(data), d).Returned?
    ensures ok ==> CaseIs(data, d, testCase)
  {
    testCase := map[];
    for j := 0 to |keys|
      invariant forall t :: 0 <= t < j ==> Vary(data[keys[t]], Field(d, keys[t])).Returned?
      invariant forall k :: k in testCase <==> k in keys[..j]
      invariant forall k :: k in testCase ==> testCase[k] == Vary(data[k], Field(d, k)).value
    {
      var key := keys[j];
      var v := Vary(data[key], Field(d, key));
      if v.Panicked? {
        CasePanics(data, d, key);
        return testCase, false;
      }
      assert keys[..j + 1] == keys[..j] + [key];
      testCase := testCase[key := v.value];
    }
    assert keys[..|keys|] == keys;
    CaseFromFields(data, keys, d, testCase);
    ok := true;
  }

  /** The elements for the keys present in `data`, in the order of `keys`. */
  method WriteBody(keys: seq<string>, data: map<string, Value>, o: MapOrder) returns (b: string)
    ensures b == BodyXml(keys, data, o)
  {
    b := "";
    for i := 0 to |keys|
      invariant b == BodyXml(keys[..i], data, o)
    {
      var key := keys[i];
      assert keys[..i + 1][..i] == keys[..i];
      if key in data {
        var entry := WriteEntry(key, data[key], NestedOrder(o, key));
        b := b + entry;
      }
    }
    assert keys[..|keys|] == keys;
  }

  /** One element: the cleaned tag, the content by the value's type, the closing tag. */
  method WriteEntry(key: string, value: Value, nested: seq<string>) returns (entry: string)
    ensures entry == EntryXml(key, value, nested)
  {
    var cleanKey := CleanKey(key);
    var body: string;
    match value {
      case StrV(s) =>
        body := EscapeXMLValue(s);
      case ObjV(m) =>
        var lines := WriteNested(m, nested);
        body := "\n" + lines + "  ";
      case ArrV(items) =>
        var lines := WriteItems(items);
        body := "\n" + lines + "  ";
      case _ =>
        body := Show(value);
    }
    entry := "  <" + cleanKey + ">" + body + "</" + cleanKey + ">\n";
  }


  lemma DocumentFrame(head: string, body: string, tail: string)
    ensures HasPrefix(head + body + tail, head) && HasSuffix(head + body + tail, tail)
  {
    var doc := head + body + tail;
    assert doc[..|head|] == head;
    assert doc[|doc| - |tail|..] == tail;
  }

  method WriteNested(m: map<string, Value>, keys: seq<string>) returns (s: string)
    ensures s == NestedXml(m, keys)
  {
    s := "";
    for i := 0 to |keys|
      invariant s == NestedXml(m, keys[..i])
    {
      assert keys[..i + 1][..i] == keys[..i];
      var k := keys[i];
      if k in m {
        var cleanNestedKey := CleanKey(k);
        var line := "    <" + cleanNestedKey + ">" + Show(m[k]) + "</" + cleanNestedKey + ">\n";
        assert line == NestedLine(m, k);
        s := s + line;
      }
    }
    assert keys[..|keys|] == keys;
  }

  method WriteItems(items: seq<Value>) returns (s: string)
    ensures s == ItemsXml(items)
  {
    s := "";
    for i := 0 to |items|
      invariant s == ItemsXml(items[..i])
    {
      assert items[..i + 1][..i] == items[..i];
      s := s + "    <item>" + Show(items[i]) + "</item>\n";
    }
    assert items[..|items|] == items;
  }
}

/**
 * `extractJSONKeys` (utils/data.go): a one-pass character scanner that
 * recovers the order of the top-level field names of a JSON object, which Go's
 * `map` decoding forgets.
 */
module JsonKeys {
  import opened Text

  /**
   * The scanner's variables: the quoting flag, array and object depth, where
   * the last top-level quoted text began, the pending key, and the keys
   * emitted so far.
   */
  datatype Scan = Scan(inQuote: bool, inArray: int, inObject: int, start: nat, key: string, keys: seq<string>)

  const Init: Scan := Scan(false, 0, 0, 0, "", [])

  predicate TopLevel(st: Scan)
  {
    st.inArray == 0 && st.inObject == 0
  }

  /** The quote at `i` toggles quoting: it is a `"` not preceded by a backslash. */
  predicate Toggles(b: string, i: nat)
    requires i < |b|
  {
    b[i] == '"' && (i == 0 || b[i - 1] != '\\')
  }

  /** One iteration of the scanning loop, reading `b[i]`. */
  function Step(b: string, i: nat, st: Scan): Scan
    requires i < |b| && st.start <= i
  {
    var ch := b[i];
    if Toggles(b, i) then
      var q := !st.inQuote;
      if q && TopLevel(st) then st.(inQuote := q, start := i + 1)
      else if !q && TopLevel(st) then st.(inQuote := q, key := b[st.start..i])
      else st.(inQuote := q)
    else if ch == ':' && !st.inQuote && TopLevel(st) && st.key != "" then st.(keys := st.keys + [st.key], key := "")
    else if ch == '[' && !st.inQuote then st.(inArray := st.inArray + 1)
    else if ch == ']' && !st.inQuote then st.(inArray := st.inArray - 1)
    else if ch == '{' && !st.inQuote then st.(inObject := st.inObject + 1)
    else if ch == '}' && !st.inQuote then st.(inObject := st.inObject - 1)
    else if ch == ',' && !st.inQuote && TopLevel(st) then st.(key := "")
    else st
  }

  /** The scanner's state after reading the first `n` characters of `b`. */
  function StateAt(b: string, n: nat): (st: Scan)
    requires n <= |b|
    ensures st.start <= n
    ensures forall k :: k in st.keys ==> k != ""
  {
    if n == 0 then Init else Step(b, n - 1, StateAt(b, n - 1))
  }

  /** The text with every space, newline and tab deleted. */
  function Stripped(text: string): string
  {
    ReplaceAll(ReplaceAll(ReplaceAll(text, " ", ""), "\n", ""), "\t", "")
  }

  /**
   * What `extractJSONKeys` returns: no keys unless the stripped text starts
   * with `{` and ends with `}`; otherwise the keys the scanner emits over the
   * text between the braces.  One character cannot be both braces, so the
   * slice that drops them is always in range.
   */
  function JsonKeys(text: string): seq<string>
  {
    var t := Stripped(text);
    if !HasPrefix(t, "{") || !HasSuffix(t, "}") then []
    else
      assert t[..1][0] == '{' && t[|t| - 1..][0] == '}';
      StateAt(t[1..|t| - 1], |t| - 2).keys
  }

  /** The scanning loop of `extractJSONKeys` over the text between the braces. */
  method ScanKeys(s: string) returns (keys: seq<string>)
    ensures keys == StateAt(s, |s|).keys
  {
    keys := [];
    var inQuote := false;
    var inArray := 0;
    var inObject := 0;
    var start: nat := 0;
    var key := "";
    var i := 0;
    while i < |s|
      invariant 0 <= i <= |s|
      invariant Scan(inQuote, inArray, inObject, start, key, keys) == StateAt(s, i)
    {
      assert StateAt(s, i + 1) == Step(s, i, StateAt(s, i));
      var ch := s[i];
      if ch == '"' && (i == 0 || s[i - 1] != '\\') {
        inQuote := !inQuote;
        if inQuote && inArray == 0 && inObject == 0 {
          start := i + 1;
        } else if !inQuote && inArray == 0 && inObject == 0 {
          key := s[start..i];
        }
      }
      if ch == ':' && !inQuote && inArray == 0 && inObject == 0 && key != "" {
        keys := keys + [key];
        key := "";
      }
      if ch == '[' && !inQuote {
        inArray := inArray + 1;
      } else if ch == ']' && !inQuote {
        inArray := inArray - 1;
      }
      if ch == '{' && !inQuote {
        inObject := inObject + 1;
      } else if ch == '}' && !inQuote {
        inObject := inObject - 1;
      }
      if ch == ',' && !inQuote && inArray == 0 && inObject == 0 {
        key := "";
      }
      i := i + 1;
    }
  }

  method ExtractJSONKeys(text: string) returns (keys: seq<string>)
    ensures keys == JsonKeys(text)
  {
    var s := ReplaceAll(text, " ", "");
    s := ReplaceAll(s, "\n", "");
    s := ReplaceAll(s, "\t", "");
    if !HasPrefix(s, "{") || !HasSuffix(s, "}") {
      return [];
    }
    assert s[..1][0] == '{' && s[|s| - 1..][0] == '}';
    s := s[1..|s| - 1];
    keys := ScanKeys(s);
  }

  // ---------------------------------------------------------------- properties of the scanner

  /** Blanks never survive stripping. */
  lemma StrippedHasNoBlanks(text: string)
    ensures ' ' !in Stripped(text) && '\n' !in Stripped(text) && '\t' !in Stripped(text)
  {
    var a := ReplaceAll(text, " ", "");
    var b := ReplaceAll(a, "\n", "");
    ReplaceAllOneRune(text, ' ', "");
    ReplaceAllOneRune(a, '\n', "");
    ReplaceAllOneRune(b, '\t', "");
    ReplaceCharRemoves(text, ' ', "");
    ReplaceCharRemoves(a, '\n', "");
    ReplaceCharRemoves(b, '\t', "");
    KeepsAbsent(a, '\n', ' ');
    KeepsAbsent(b, '\t', ' ');
    KeepsAbsent(b, '\t', '\n');
  }

  lemma {:induction false} KeepsAbsent(s: string, c: char, d: char)
    requires d !in s
    ensures d !in ReplaceChar(s, c, "")
    decreases |s|
  {
    if s != [] {
      KeepsAbsent(s[1..], c, d);
    }
  }

  /** A text with no blanks is left as it is by stripping. */
  lemma StrippedIdle(text: string)
    requires ' ' !in text && '\n' !in text && '\t' !in text
    ensures Stripped(text) == text
  {
    ReplaceAllOneRune(text, ' ', "");
    ReplaceCharAbsent(text, ' ', "");
    ReplaceAllOneRune(text, '\n', "");
    ReplaceCharAbsent(text, '\n', "");
    ReplaceAllOneRune(text, '\t', "");
    ReplaceCharAbsent(text, '\t', "");
  }

  /** No keys come out unless the stripped text is wrapped in braces. */
  lemma KeysNeedBraces(text: string)
    requires JsonKeys(text) != []
    ensures HasPrefix(Stripped(text), "{") && HasSuffix(Stripped(text), "}")
  {
  }

  /** Keys are only ever appended, so the keys emitted so far are a prefix of the final list. */
  lemma {:induction false} KeysOnlyGrow(b: string, n: nat, m: nat)
    requires n <= m <= |b|
    ensures StateAt(b, n).keys <= StateAt(b, m).keys
    decreases m - n
  {
    if n < m {
      KeysOnlyGrow(b, n, m - 1);
    }
  }

  /**
   * A key is emitted exactly when a `:` is read outside quotes, at array and
   * object depth zero, with a key pending; then exactly that key is appended.
   * Colons inside nested objects or arrays therefore never emit a key.
   */
  lemma EmitsOnlyAtTopLevelColon(b: string, i: nat)
    requires i < |b|
    ensures var before := StateAt(b, i);
      StateAt(b, i + 1).keys != before.keys
      <==> b[i] == ':' && !before.inQuote && TopLevel(before) && before.key != ""
    ensures var before := StateAt(b, i);
      StateAt(b, i + 1).keys == before.keys || StateAt(b, i + 1).keys == before.keys + [before.key]
  {
  }

  /** A quote preceded by a backslash changes nothing at all. */
  lemma EscapedQuoteIgnored(b: string, i: nat)
    requires 0 < i < |b| && b[i] == '"' && b[i - 1] == '\\'
    ensures StateAt(b, i + 1) == StateAt(b, i)
  {
  }

  /** The pending key, once set by a closing quote, is the text since the matching opening quote. */
  lemma ClosingQuoteSetsKey(b: string, i: nat)
    requires i < |b| && Toggles(b, i)
    requires StateAt(b, i).inQuote && TopLevel(StateAt(b, i))
    ensures StateAt(b, i + 1).key == b[StateAt(b, i).start..i]
    ensures !StateAt(b, i + 1).inQuote
  {
  }

  // ---------------------------------------------------------------- flat objects round-trip

  /** A character the scanner reacts to in no way. */
  predicate Plain(c: char)
  {
    c !in {'"', '\\', ':', '[', ']', '{', '}', ',', ' ', '\n', '\t'}
  }

  predicate AllPlain(s: string)
  {
    forall i :: 0 <= i < |s| ==> Plain(s[i])
  }

  /** A field value written as a bare token (a number, `true`, `null`) or as a quoted string. */
  datatype Token = Bare(text: string) | Quoted(text: string)

  datatype Field = Field(name: string, value: Token)

  /** A field the scanner can read back: a non-empty plain name, and a value with no blanks that cannot close its quotes early. */
  predicate WellFormed(f: Field)
  {
    f.name != [] && AllPlain(f.name)
    && TokenOk(f.value)
  }

  function TokenText(t: Token): string
  {
    match t
    case Bare(s) => s
    case Quoted(s) => "\"" + s + "\""
  }

  function RenderField(f: Field): string
  {
    "\"" + f.name + "\":" + TokenText(f.value)
  }

  /** The fields written as `"name":value` pairs joined by commas. */
  function RenderFields(fs: seq<Field>): string
  {
    if |fs| == 0 then ""
    else if |fs| == 1 then RenderField(fs[0])
    else RenderFields(fs[..|fs| - 1]) + "," + RenderField(fs[|fs| - 1])
  }

  /** The field names, in order. */
  function Names(fs: seq<Field>): seq<string>
  {
    if fs == [] then [] else Names(fs[..|fs| - 1]) + [fs[|fs| - 1].name]
  }

  /** The characters the scanner reacts to. */
  predicate Structural(c: char)
  {
    c == '"' || c == ':' || c == '[' || c == ']' || c == '{' || c == '}' || c == ','
  }

  /** Outside quotes at array and object depth zero. */
  predicate Clean(st: Scan)
  {
    !st.inQuote && TopLevel(st)
  }

  /** Reading characters that are not quotes and not structural changes nothing. */
  lemma {:induction false} PlainRun(b: string, n: nat, m: nat)
    requires n <= m <= |b|
    requires forall i :: n <= i < m ==> !Structural(b[i])
    ensures StateAt(b, m) == StateAt(b, n)
    decreases m - n
  {
    if n < m {
      PlainRun(b, n, m - 1);
    }
  }

  /** Inside quotes, every character other than `"` changes nothing. */
  lemma {:induction false} QuotedRun(b: string, n: nat, m: nat)
    requires n <= m <= |b|
    requires StateAt(b, n).inQuote
    requires forall i :: n <= i < m ==> b[i] != '"'
    ensures StateAt(b, m) == StateAt(b, n)
    decreases m - n
  {
    if n < m {
      QuotedRun(b, n, m - 1);
    }
  }

  /** Reading `"k":` at top level appends `k`. */
  lemma NameStep(b: string, o: nat, k: string)
    requires k != [] && AllPlain(k)
    requires o + |k| + 3 <= |b|
    requires b[o] == '"' && b[o + 1..o + 1 + |k|] == k && b[o + 1 + |k|] == '"' && b[o + 2 + |k|] == ':'
    requires o == 0 || b[o - 1] != '\\'
    requires Clean(StateAt(b, o))
    ensures Clean(StateAt(b, o + 3 + |k|)) && StateAt(b, o + 3 + |k|).keys == StateAt(b, o).keys + [k]
  {
    var s1 := StateAt(b, o + 1);
    assert s1.inQuote && s1.start == o + 1 && TopLevel(s1) && s1.keys == StateAt(b, o).keys;
    forall i | o + 1 <= i < o + 1 + |k|
      ensures !Structural(b[i])
    {
      assert b[i] == k[i - o - 1];
    }
    PlainRun(b, o + 1, o + 1 + |k|);
    assert b[o + |k|] != '\\' by {
      assert b[o + |k|] == k[|k| - 1];
    }
    var s2 := StateAt(b, o + 2 + |k|);
    assert !s2.inQuote && s2.key == k && TopLevel(s2) && s2.keys == s1.keys;
  }

  predicate TokenOk(t: Token)
  {
    match t
    case Bare(s) => AllPlain(s)
    case Quoted(s) => forall i :: 0 <= i < |s| ==> s[i] != '"' && s[i] != '\\'
  }

  /** Reading a well-formed value right after a colon emits nothing and ends at top level outside quotes. */
  lemma ValueStep(b: string, v: nat, t: Token)
    requires TokenOk(t)
    requires 0 < v && v + |TokenText(t)| <= |b| && b[v - 1] == ':' && b[v..v + |TokenText(t)|] == TokenText(t)
    requires Clean(StateAt(b, v))
    ensures Clean(StateAt(b, v + |TokenText(t)|)) && StateAt(b, v + |TokenText(t)|).keys == StateAt(b, v).keys
  {
    match t
    case Bare(s) =>
      forall i | v <= i < v + |s|
        ensures !Structural(b[i])
      {
        assert b[i] == s[i - v];
      }
      PlainRun(b, v, v + |s|);
    case Quoted(s) =>
      var r := TokenText(t);
      assert b[v] == r[0] == '"';
      var s4 := StateAt(b, v + 1);
      assert s4.inQuote && TopLevel(s4) && s4.keys == StateAt(b, v).keys;
      forall i | v + 1 <= i < v + 1 + |s|
        ensures b[i] != '"'
      {
        assert b[i] == r[i - v] == s[i - v - 1];
      }
      QuotedRun(b, v + 1, v + 1 + |s|);
      assert b[v + 1 + |s|] == r[1 + |s|] == '"';
      assert b[v + |s|] != '\\' by {
        if |s| > 0 {
          assert b[v + |s|] == r[|s|] == s[|s| - 1];
        }
      }
  }

  /** `ValueStep` with the end of the value named. */
  lemma ValueStepTo(b: string, v: nat, t: Token, e: nat)
    requires TokenOk(t) && e == v + |TokenText(t)|
    requires 0 < v && e <= |b| && b[v - 1] == ':' && b[v..e] == TokenText(t)
    requires Clean(StateAt(b, v))
    ensures Clean(StateAt(b, e)) && StateAt(b, e).keys == StateAt(b, v).keys
  {
    ValueStep(b, v, t);
  }

  /** Where the parts of a rendered field sit inside a text that ends with it. */
  lemma FieldChars(b: string, o: nat, f: Field)
    requires o + |RenderField(f)| == |b| && b[o..] == RenderField(f)
    ensures var k := f.name; var tt := TokenText(f.value);
      |b| == o + 3 + |k| + |tt|
      && b[o] == '"' && b[o + 1..o + 1 + |k|] == k && b[o + 1 + |k|] == '"' && b[o + 2 + |k|] == ':'
      && b[o + 3 + |k|..] == tt
  {
    var k := f.name;
    var tt := TokenText(f.value);
    var w := b[o..];
    assert w == "\"" + k + "\":" + tt;
    assert b[o] == w[0];
    SliceOfSuffix(b, o, 1, 1 + |k|);
    assert w[1..1 + |k|] == k;
    assert b[o + 1 + |k|] == w[1 + |k|];
    assert b[o + 2 + |k|] == w[2 + |k|];
    SliceOfSuffix(b, o, 3 + |k|, |w|);
    assert w[3 + |k|..] == tt;
  }

  lemma SliceOfSuffix(b: string, o: nat, i: nat, j: nat)
    requires o <= |b| && i <= j <= |b| - o
    ensures b[o..][i..j] == b[o + i..o + j]
  {
  }

  /** Reading one well-formed `"name":value` at top level appends its name and returns to top level outside quotes. */
  lemma FieldStep(b: string, o: nat, f: Field)
    requires WellFormed(f)
    requires o + |RenderField(f)| == |b| && b[o..] == RenderField(f)
    requires o == 0 || b[o - 1] != '\\'
    requires Clean(StateAt(b, o))
    ensures var after := StateAt(b, |b|);
      Clean(after) && after.keys == StateAt(b, o).keys + [f.name]
  {
    var v := o + 3 + |f.name|;
    FieldName(b, o, f);
    ValueStepTo(b, v, f.value, |b|);
  }

  /** The name part of a rendered field: reading it appends the name, and the value text follows the colon. */
  lemma FieldName(b: string, o: nat, f: Field)
    requires WellFormed(f)
    requires o + |RenderField(f)| == |b| && b[o..] == RenderField(f)
    requires o == 0 || b[o - 1] != '\\'
    requires Clean(StateAt(b, o))
    ensures var v := o + 3 + |f.name|; var tt := TokenText(f.value);
      Clean(StateAt(b, v)) && StateAt(b, v).keys == StateAt(b, o).keys + [f.name]
      && 0 < v && v + |tt| == |b| && b[v - 1] == ':' && b[v..v + |tt|] == tt
  {
    FieldChars(b, o, f);
    NameStep(b, o, f.name);
  }

  /** One step reads the same from a text and from any extension of it. */
  lemma StepOfPrefix(p: string, x: string, i: nat, st: Scan)
    requires i < |p| && st.start <= i
    ensures Step(p + x, i, st) == Step(p, i, st)
  {
    assert (p + x)[i] == p[i];
    assert i > 0 ==> (p + x)[i - 1] == p[i - 1];
    assert (p + x)[st.start..i] == p[st.start..i];
  }

  /** The state over a prefix does not depend on what follows it. */
  lemma {:induction false} PrefixState(p: string, x: string, n: nat)
    requires n <= |p|
    ensures StateAt(p + x, n) == StateAt(p, n)
    decreases n
  {
    if n > 0 {
      PrefixState(p, x, n - 1);
      StepOfPrefix(p, x, n - 1, StateAt(p, n - 1));
    }
  }

  /** Reading a comma at top level outside quotes keeps the state clean and the keys as they were. */
  lemma CommaStep(q: string, r: string)
    requires Clean(StateAt(q, |q|))
    ensures var b := q + [','] + r;
      Clean(StateAt(b, |q| + 1)) && StateAt(b, |q| + 1).keys == StateAt(q, |q|).keys
      && b[|q|] == ',' && b[|q| + 1..] == r
  {
    var b := q + [','] + r;
    CommaJoin(q, r);
    PrefixState(q, [','] + r, |q|);
    CommaAt(b, |q|);
  }

  lemma CommaJoin(q: string, r: string)
    ensures var b := q + [','] + r;
      q + ([','] + r) == b && b[|q|] == ',' && b[|q| + 1..] == r
  {
    var b := q + [','] + r;
    assert b[|q| + 1..] == r;
  }

  lemma CommaAt(b: string, i: nat)
    requires i < |b| && b[i] == ',' && Clean(StateAt(b, i))
    ensures StateAt(b, i + 1) == StateAt(b, i).(key := "")
  {
  }

  lemma {:induction false} FieldsStep(fs: seq<Field>)
    requires forall i :: 0 <= i < |fs| ==> WellFormed(fs[i])
    ensures var b := RenderFields(fs); var after := StateAt(b, |b|);
      Clean(after) && after.keys == Names(fs)
    decreases |fs|
  {
    if |fs| == 1 {
      FieldStep(RenderFields(fs), 0, fs[0]);
    } else if |fs| > 1 {
      var init := fs[..|fs| - 1];
      var last := fs[|fs| - 1];
      FieldsStep(init);
      var q := RenderFields(init);
      var r := RenderField(last);
      CommaStep(q, r);
      FieldStep(q + [','] + r, |q| + 1, last);
    }
  }

  /**
   * For a flat object `{"k1":v1,...,"kn":vn}` written without blanks, whose
   * names are plain and whose values are bare tokens or quoted strings, the
   * scanner recovers exactly the field names, in source order.
   */
  lemma FlatObjectKeys(fs: seq<Field>)
    requires forall i :: 0 <= i < |fs| ==> WellFormed(fs[i])
    requires ' ' !in RenderFields(fs) && '\n' !in RenderFields(fs) && '\t' !in RenderFields(fs)
    ensures JsonKeys("{" + RenderFields(fs) + "}") == Names(fs)
  {
    FieldsStep(fs);
    BracedKeys(RenderFields(fs));
  }

  /** Over a blank-free text in braces, the keys are those the scanner emits over what lies between them. */
  lemma BracedKeys(body: string)
    requires ' ' !in body && '\n' !in body && '\t' !in body
    ensures JsonKeys("{" + body + "}") == StateAt(body, |body|).keys
  {
    var text := "{" + body + "}";
    BracedStripped(body);
    assert text[..1] == "{" && text[|text| - 1..] == "}";
    assert text[1..|text| - 1] == body;
  }

  lemma BracedStripped(body: string)
    requires ' ' !in body && '\n' !in body && '\t' !in body
    ensures Stripped("{" + body + "}") == "{" + body + "}"
  {
    var text := "{" + body + "}";
    assert ' ' !in text && '\n' !in text && '\t' !in text;
    StrippedIdle(text);
  }
}

/**
 * utils/constraints.go: field constraints read from a TOML file, their
 * validation (every violation is collected, not only the first), the
 * package-level configuration that a successful load replaces, the lookup
 * of the constraint for a field name, and the value generators.
 */
module Constraints {
  import opened Wrappers
  import opened Text
  import opened Values
  import opened Random

  /** One `[field]` table of the file.  The `*float64` bounds are kept as finite reals. */
  datatype FieldConstraint = FieldConstraint(
    kind: string, format: string, minDate: string, maxDate: string,
    minDatetime: string, maxDatetime: string, timezone: string,
    min: Option<real>, max: Option<real>, precision: Option<int>,
    keepOriginal: Option<bool>, description: string)

  /** The `[builtin_data]` table: the lists the generators draw from. */
  datatype BuiltinData = BuiltinData(firstNames: seq<string>, lastNames: seq<string>, addresses: seq<string>, emailDomains: seq<string>)

  datatype ConstraintConfig = ConstraintConfig(constraints: map<string, FieldConstraint>, builtin: BuiltinData)

  datatype ValidationError = ValidationError(field: string, message: string)

  /**
   * What the validators call in Go's `time` and `fmt` packages: the checks of
   * `date` and `datetime` constraints (built on time layouts),
   * `time.LoadLocation` (its error text, if any), and `%.Nf` formatting.
   */
  datatype Library = Library(
    dateErrors: (string, FieldConstraint) -> seq<ValidationError>,
    datetimeErrors: (string, FieldConstraint) -> seq<ValidationError>,
    loadLocation: string -> Option<string>,
    fixed: (real, nat) -> string)

  /**
   * What `generateDatetimeValue` learns from Go's `time` package once the
   * bounds are parsed, or defaulted to 2020-01-01T00:00:00Z and
   * 2030-12-31T23:59:59.999Z: whether the maximum is not after the minimum,
   * and both bounds as `UnixNano` values.
   */
  datatype DatetimeSpan = DatetimeSpan(empty: bool, minNanos: int, maxNanos: int)

  // ---------------------------------------------------------------- error text

  /** `ValidationError.Error`. */
  function ErrorText(e: ValidationError): (s: string)
    ensures HasPrefix(s, "字段 '" + e.field + "': ") && HasSuffix(s, e.message)
  {
    "字段 '" + e.field + "': " + e.message
  }

  function Messages(errs: seq<ValidationError>): (ms: seq<string>)
    ensures |ms| == |errs| && forall i :: 0 <= i < |errs| ==> ms[i] == ErrorText(errs[i])
  {
    seq(|errs|, i requires 0 <= i < |errs| => ErrorText(errs[i]))
  }

  function Header(n: nat): string
  {
    "发现 " + IntToString(n) + " 个配置错误:\n"
  }

  /** `ValidationErrors.Error`: a fixed text for none, the error itself for one, a counted list of lines for more. */
  function ErrorsText(errs: seq<ValidationError>): string
  {
    if |errs| == 0 then "无验证错误"
    else if |errs| == 1 then ErrorText(errs[0])
    else Header(|errs|) + Join(Messages(errs), "\n")
  }

  /** `ValidationErrors.Error` as the source writes it, collecting the messages in a loop. */
  method Error(errs: seq<ValidationError>) returns (s: string)
    ensures |errs| == 0 ==> s == "无验证错误"
    ensures |errs| == 1 ==> s == ErrorText(errs[0])
    ensures |errs| > 1 ==> s == Header(|errs|) + Join(Messages(errs), "\n")
  {
    if |errs| == 0 {
      return "无验证错误";
    }
    if |errs| == 1 {
      return ErrorText(errs[0]);
    }
    var messages: seq<string> := [];
    for i := 0 to |errs|
      invariant messages == Messages(errs[..i])
    {
      messages := messages + [ErrorText(errs[i])];
    }
    assert errs[..|errs|] == errs;
    s := Header(|errs|) + Join(messages, "\n");
  }

  /** With two or more errors whose texts are single lines, the lines after the header are exactly the errors, in order. */
  lemma ErrorsTextLines(errs: seq<ValidationError>)
    requires |errs| > 1
    requires forall i :: 0 <= i < |errs| ==> '\n' !in ErrorText(errs[i])
    ensures HasPrefix(ErrorsText(errs), Header(|errs|))
    ensures Split(ErrorsText(errs)[|Header(|errs|)|..], '\n') == Messages(errs)
  {
    var ms := Messages(errs);
    var s := ErrorsText(errs);
    assert s == Header(|errs|) + Join(ms, "\n");
    assert s[|Header(|errs|)|..] == Join(ms, "\n");
    forall p | p in ms
      ensures '\n' !in p
    {
      var i :| 0 <= i < |ms| && ms[i] == p;
    }
    JoinSplit(ms, '\n');
  }

  // ---------------------------------------------------------------- one field

  const ValidTypes: seq<string> := ["date", "datetime", "chinese_name", "phone", "email", "chinese_address", "id_card", "integer", "float", "keep_original"]

  const EmptyTypeMessage := "约束类型 'type' 不能为空"

  function InvalidTypeMessage(kind: string): string
  {
    "无效的约束类型 '" + kind + "'，支持的类型: " + Join(ValidTypes, ", ")
  }

  /** The check of the `type` key: one error when it is empty or not among the ten names. */
  function TypeErrors(name: string, kind: string): (r: seq<ValidationError>)
  {
    if kind == "" then [ValidationError(name, EmptyTypeMessage)]
    else if kind !in ValidTypes then [ValidationError(name, InvalidTypeMessage(kind))]
    else []
  }

  predicate Inverted(c: FieldConstraint)
  {
    c.min.Some? && c.max.Some? && c.max.value < c.min.value
  }

  /** `validateIntegerConstraint`: inverted bounds, and any `precision` at all, are errors. */
  function IntegerErrors(name: string, c: FieldConstraint, lib: Library): (r: seq<ValidationError>)
    ensures r == [] <==> !Inverted(c) && c.precision.None?
    ensures |r| == (if Inverted(c) then 1 else 0) + (if c.precision.Some? then 1 else 0)
    ensures forall e :: e in r ==> e.field == name
  {
    (if Inverted(c) then [ValidationError(name, "最大值 " + lib.fixed(c.max.value, 0) + " 不能小于最小值 " + lib.fixed(c.min.value, 0))] else [])
    + (if c.precision.Some? then [ValidationError(name, "整数类型不应设置 'precision' 字段")] else [])
  }

  /** `validateFloatConstraint`: inverted bounds, and a precision outside [0, 10], are errors. */
  function FloatErrors(name: string, c: FieldConstraint, lib: Library): (r: seq<ValidationError>)
    ensures r == [] <==> !Inverted(c) && (c.precision.None? || 0 <= c.precision.value <= 10)
    ensures |r| <= 2
    ensures forall e :: e in r ==> e.field == name
  {
    (if Inverted(c) then [ValidationError(name, "最大值 " + lib.fixed(c.max.value, 2) + " 不能小于最小值 " + lib.fixed(c.min.value, 2))] else [])
    + (if c.precision.Some? && (c.precision.value < 0 || c.precision.value > 10)
       then [ValidationError(name, "精度值 " + IntToString(c.precision.value) + " 超出有效范围 [0, 10]")] else [])
  }

  /** The checks that depend on the type; only four types have any. */
  function KindErrors(name: string, c: FieldConstraint, lib: Library): seq<ValidationError>
  {
    if c.kind == "date" then lib.dateErrors(name, c)
    else if c.kind == "datetime" then lib.datetimeErrors(name, c)
    else if c.kind == "integer" then IntegerErrors(name, c, lib)
    else if c.kind == "float" then FloatErrors(name, c, lib)
    else []
  }

  /** `validateFieldConstraint`: the type check first, then the checks of that type. */
  function FieldErrors(name: string, c: FieldConstraint, lib: Library): seq<ValidationError>
  {
    TypeErrors(name, c.kind) + KindErrors(name, c, lib)
  }

  /**
   * An empty type gives exactly the one error about the empty type, an
   * unknown type exactly the one error naming it, and a known type other
   * than date, datetime, integer and float no error at all.
   */
  lemma FieldErrorsDispatch(name: string, c: FieldConstraint, lib: Library)
    ensures c.kind == "" ==> FieldErrors(name, c, lib) == [ValidationError(name, EmptyTypeMessage)]
    ensures c.kind != "" && c.kind !in ValidTypes ==> FieldErrors(name, c, lib) == [ValidationError(name, InvalidTypeMessage(c.kind))]
    ensures c.kind in ValidTypes && c.kind !in ["date", "datetime", "integer", "float"] ==> FieldErrors(name, c, lib) == []
    ensures c.kind in ["date", "datetime", "integer", "float"] ==> FieldErrors(name, c, lib) == KindErrors(name, c, lib)
  {
    assert ValidTypes[0] == "date" && ValidTypes[1] == "datetime" && ValidTypes[7] == "integer" && ValidTypes[8] == "float";
    if c.kind == "" {
      assert c.kind != "date" && c.kind != "datetime" && c.kind != "integer" && c.kind != "float";
    } else if c.kind !in ValidTypes {
      assert c.kind != "date" && c.kind != "datetime" && c.kind != "integer" && c.kind != "float";
    }
  }

  method ValidateFieldConstraint(fieldName: string, constraint: FieldConstraint, lib: Library) returns (errors: seq<ValidationError>)
    ensures errors == FieldErrors(fieldName, constraint, lib)
  {
    var validTypes := ValidTypes;
    errors := [];
    if constraint.kind == "" {
      errors := errors + [ValidationError(fieldName, EmptyTypeMessage)];
    } else {
      var validType := false;
      var i := 0;
      while i < |validTypes|
        invariant 0 <= i <= |validTypes|
        invariant !validType ==> constraint.kind !in validTypes[..i]
        invariant validType ==> constraint.kind in validTypes
      {
        if constraint.kind == validTypes[i] {
          validType := true;
          break;
        }
        assert validTypes[..i + 1] == validTypes[..i] + [validTypes[i]];
        i := i + 1;
      }
      assert validTypes[..|validTypes|] == validTypes;
      if !validType {
        errors := errors + [ValidationError(fieldName, InvalidTypeMessage(constraint.kind))];
      }
    }
    if constraint.kind == "date" {
      errors := errors + lib.dateErrors(fieldName, constraint);
    } else if constraint.kind == "datetime" {
      errors := errors + lib.datetimeErrors(fieldName, constraint);
    } else if constraint.kind == "integer" {
      errors := errors + IntegerErrors(fieldName, constraint, lib);
    } else if constraint.kind == "float" {
      errors := errors + FloatErrors(fieldName, constraint, lib);
    }
  }

  // ---------------------------------------------------------------- builtin data

  /** How one list of `[builtin_data]` is checked: its error field, the text for an empty list, the noun for one entry, whether entries need a dot. */
  datatype ListRule = ListRule(field: string, emptyMessage: string, noun: string, needsDot: bool)

  const FirstNamesRule := ListRule("builtin_data.first_names", "姓氏列表不能为空", "姓氏", false)
  const LastNamesRule := ListRule("builtin_data.last_names", "名字列表不能为空", "名字", false)
  const AddressesRule := ListRule("builtin_data.addresses", "地址列表不能为空", "地址", false)
  const EmailDomainsRule := ListRule("builtin_data.email_domains", "邮箱域名列表不能为空", "邮箱域名", true)

  /** Nothing but white space, which is what `strings.TrimSpace(s) == ""` tests (`TrimSpaceEmpty`). */
  predicate Blank(s: string)
  {
    forall i :: 0 <= i < |s| ==> IsSpace(s[i])
  }

  /** An entry the rule rejects: blank, or (for domains) without a dot. */
  predicate Flawed(rule: ListRule, item: string)
  {
    Blank(item) || (rule.needsDot && '.' !in item)
  }

  /** The error for the entry at index `i`, if it has one; the message counts from 1. */
  function EntryError(rule: ListRule, i: nat, item: string): (r: seq<ValidationError>)
    ensures |r| == (if Flawed(rule, item) then 1 else 0)
  {
    if Blank(item) then [ValidationError(rule.field, "第 " + IntToString(i + 1) + " 个" + rule.noun + "不能为空")]
    else if rule.needsDot && '.' !in item then [ValidationError(rule.field, "第 " + IntToString(i + 1) + " 个" + rule.noun + " '" + item + "' 格式无效")]
    else []
  }

  function EntryErrors(rule: ListRule, items: seq<string>): (r: seq<ValidationError>)
    decreases |items|
  {
    if items == [] then []
    else EntryErrors(rule, items[..|items| - 1]) + EntryError(rule, |items| - 1, items[|items| - 1])
  }

  /** The rule on one list: one error for an empty list, else one per flawed entry. */
  function ListErrors(rule: ListRule, items: seq<string>): (r: seq<ValidationError>)
  {
    if items == [] then [ValidationError(rule.field, rule.emptyMessage)] else EntryErrors(rule, items)
  }

  /** Which entries are flawed. */
  function Flags(rule: ListRule, items: seq<string>): (r: seq<bool>)
    ensures |r| == |items| && forall i :: 0 <= i < |items| ==> r[i] == Flawed(rule, items[i])
  {
    seq(|items|, i requires 0 <= i < |items| => Flawed(rule, items[i]))
  }

  function TrueAt(flags: seq<bool>): set<nat>
  {
    set i: nat | i < |flags| && flags[i]
  }

  /** The indices of the flawed entries. */
  function FlawedAt(rule: ListRule, items: seq<string>): set<nat>
  {
    TrueAt(Flags(rule, items))
  }

  lemma TrueAtSnoc(flags: seq<bool>, b: bool)
    ensures |TrueAt(flags + [b])| == |TrueAt(flags)| + (if b then 1 else 0)
  {
    var all, before := TrueAt(flags + [b]), TrueAt(flags);
    var last: set<nat> := if b then {|flags|} else {};
    assert all == before + last by {
      forall i | i in all
        ensures i in before + last
      {
        if i < |flags| {
          assert (flags + [b])[i] == flags[i];
        }
      }
      forall i | i in before
        ensures i in all
      {
        assert (flags + [b])[i] == flags[i];
      }
    }
    assert |flags| !in before;
  }

  lemma FlagsSnoc(rule: ListRule, items: seq<string>)
    requires items != []
    ensures Flags(rule, items) == Flags(rule, items[..|items| - 1]) + [Flawed(rule, items[|items| - 1])]
  {
    var n := |items| - 1;
    var l, r := Flags(rule, items), Flags(rule, items[..n]) + [Flawed(rule, items[n])];
    forall i | 0 <= i < |l|
      ensures l[i] == r[i]
    {
      if i < n {
        assert items[..n][i] == items[i];
      }
    }
  }

  /** There are exactly as many entry errors as flawed entries. */
  lemma {:induction false} EntryErrorsCount(rule: ListRule, items: seq<string>)
    ensures |EntryErrors(rule, items)| == |FlawedAt(rule, items)|
    decreases |items|
  {
    if items != [] {
      var n := |items| - 1;
      var front := items[..n];
      var b := Flawed(rule, items[n]);
      EntryErrorsCount(rule, front);
      assert |FlawedAt(rule, items)| == |FlawedAt(rule, front)| + (if b then 1 else 0) by {
        FlagsSnoc(rule, items);
        TrueAtSnoc(Flags(rule, front), b);
      }
      assert |EntryErrors(rule, items)| == |EntryErrors(rule, front)| + (if b then 1 else 0);
    }
  }

  /** A list passes iff it is non-empty and no entry is flawed. */
  lemma ListErrorsNone(rule: ListRule, items: seq<string>)
    ensures ListErrors(rule, items) == [] <==> items != [] && forall i :: 0 <= i < |items| ==> !Flawed(rule, items[i])
  {
    if items != [] {
      EntryErrorsCount(rule, items);
      if exists i :: 0 <= i < |items| && Flawed(rule, items[i]) {
        var i :| 0 <= i < |items| && Flawed(rule, items[i]);
        assert i in FlawedAt(rule, items);
      } else {
        assert FlawedAt(rule, items) == {};
      }
    }
  }

  /** `validateBuiltinData`: the four lists in turn, each error of each list. */
  function BuiltinErrors(data: BuiltinData): seq<ValidationError>
  {
    ListErrors(FirstNamesRule, data.firstNames) + ListErrors(LastNamesRule, data.lastNames)
    + ListErrors(AddressesRule, data.addresses) + ListErrors(EmailDomainsRule, data.emailDomains)
  }

  /** Builtin data passes iff all four lists are non-empty, no entry is blank, and every domain has a dot. */
  lemma BuiltinErrorsNone(data: BuiltinData)
    ensures BuiltinErrors(data) == [] <==>
      data.firstNames != [] && data.lastNames != [] && data.addresses != [] && data.emailDomains != []
      && (forall i :: 0 <= i < |data.firstNames| ==> !Blank(data.firstNames[i]))
      && (forall i :: 0 <= i < |data.lastNames| ==> !Blank(data.lastNames[i]))
      && (forall i :: 0 <= i < |data.addresses| ==> !Blank(data.addresses[i]))
      && (forall i :: 0 <= i < |data.emailDomains| ==> !Blank(data.emailDomains[i]) && '.' in data.emailDomains[i])
  {
    ListErrorsNone(FirstNamesRule, data.firstNames);
    ListErrorsNone(LastNamesRule, data.lastNames);
    ListErrorsNone(AddressesRule, data.addresses);
    ListErrorsNone(EmailDomainsRule, data.emailDomains);
  }

  /** One list checked entry by entry, appending as it goes. */
  method CheckList(rule: ListRule, items: seq<string>) returns (errors: seq<ValidationError>)
    ensures errors == ListErrors(rule, items)
  {
    if |items| == 0 {
      return [ValidationError(rule.field, rule.emptyMessage)];
    }
    errors := [];
    for i := 0 to |items|
      invariant errors == EntryErrors(rule, items[..i])
    {
      var item := items[i];
      assert items[..i + 1][..i] == items[..i];
      TrimSpaceEmpty(item);
      if TrimSpace(item) == "" {
        errors := errors + [ValidationError(rule.field, "第 " + IntToString(i + 1) + " 个" + rule.noun + "不能为空")];
      } else if rule.needsDot && '.' !in item {
        errors := errors + [ValidationError(rule.field, "第 " + IntToString(i + 1) + " 个" + rule.noun + " '" + item + "' 格式无效")];
      }
    }
    assert items[..|items|] == items;
  }

  method ValidateBuiltinData(data: BuiltinData) returns (errors: seq<ValidationError>)
    ensures errors == BuiltinErrors(data)
  {
    errors := CheckList(FirstNamesRule, data.firstNames);
    var more := CheckList(LastNamesRule, data.lastNames);
    errors := errors + more;
    more := CheckList(AddressesRule, data.addresses);
    errors := errors + more;
    more := CheckList(EmailDomainsRule, data.emailDomains);
    errors := errors + more;
  }

  // ---------------------------------------------------------------- whole configuration

  /** The errors of the fields visited in `order` (Go's map iteration order). */
  function CollectedErrors(config: ConstraintConfig, order: seq<string>, lib: Library): seq<ValidationError>
    requires forall k :: k in order ==> k in config.constraints
    decreases |order|
  {
    if order == [] then []
    else
      var last := order[|order| - 1];
      CollectedErrors(config, order[..|order| - 1], lib) + FieldErrors(last, config.constraints[last], lib)
  }

  /** Everything `ValidateConstraintConfig` reports: all field errors, then the builtin-data errors. */
  function ConfigErrors(config: ConstraintConfig, order: seq<string>, lib: Library): seq<ValidationError>
    requires forall k :: k in order ==> k in config.constraints
  {
    CollectedErrors(config, order, lib) + BuiltinErrors(config.builtin)
  }

  /** No field and no list has anything to report. */
  predicate ConfigValid(config: ConstraintConfig, lib: Library)
  {
    BuiltinErrors(config.builtin) == [] && forall k :: k in config.constraints ==> FieldErrors(k, config.constraints[k], lib) == []
  }

  lemma {:induction false} CollectedHas(config: ConstraintConfig, order: seq<string>, lib: Library, k: string)
    requires forall k :: k in order ==> k in config.constraints
    requires k in order
    ensures forall e :: e in FieldErrors(k, config.constraints[k], lib) ==> e in CollectedErrors(config, order, lib)
    decreases |order|
  {
    var front, last := order[..|order| - 1], order[|order| - 1];
    var prev := CollectedErrors(config, front, lib);
    var mine := FieldErrors(last, config.constraints[last], lib);
    assert CollectedErrors(config, order, lib) == prev + mine;
    if k != last {
      assert k in front by {
        assert order == front + [last];
      }
      CollectedHas(config, front, lib, k);
    }
  }

  lemma {:induction false} CollectedEmpty(config: ConstraintConfig, order: seq<string>, lib: Library)
    requires forall k :: k in order ==> k in config.constraints
    ensures CollectedErrors(config, order, lib) == [] <==> forall k :: k in order ==> FieldErrors(k, config.constraints[k], lib) == []
    decreases |order|
  {
    if order != [] {
      var front, last := order[..|order| - 1], order[|order| - 1];
      assert order == front + [last];
      CollectedEmpty(config, front, lib);
    }
  }

  /**
   * Every violation of every field, and every builtin-data violation, is in
   * the report, so the report is empty exactly when the configuration is
   * valid, whatever the iteration order.
   */
  lemma ConfigErrorsComplete(config: ConstraintConfig, order: seq<string>, lib: Library)
    requires IsOrderOf(order, config.constraints.Keys)
    ensures forall k, e :: k in config.constraints && e in FieldErrors(k, config.constraints[k], lib) ==> e in ConfigErrors(config, order, lib)
    ensures forall e :: e in BuiltinErrors(config.builtin) ==> e in ConfigErrors(config, order, lib)
    ensures ConfigErrors(config, order, lib) == [] <==> ConfigValid(config, lib)
  {
    forall k | k in config.constraints
      ensures forall e :: e in FieldErrors(k, config.constraints[k], lib) ==> e in ConfigErrors(config, order, lib)
    {
      CollectedHas(config, order, lib, k);
    }
    CollectedEmpty(config, order, lib);
  }

  /** `ValidateConstraintConfig`: nil when nothing is wrong, otherwise the whole list. */
  method ValidateConstraintConfig(config: ConstraintConfig, order: seq<string>, lib: Library) returns (err: Option<seq<ValidationError>>)
    requires IsOrderOf(order, config.constraints.Keys)
    ensures err.None? <==> ConfigErrors(config, order, lib) == []
    ensures err.Some? ==> err.value == ConfigErrors(config, order, lib)
  {
    var errors: seq<ValidationError> := [];
    for i := 0 to |order|
      invariant errors == CollectedErrors(config, order[..i], lib)
    {
      var fieldName := order[i];
      assert order[..i + 1][..i] == order[..i];
      var fieldErrors := ValidateFieldConstraint(fieldName, config.constraints[fieldName], lib);
      if |fieldErrors| > 0 {
        errors := errors + fieldErrors;
      }
    }
    assert order[..|order|] == order;
    var builtinErrors := ValidateBuiltinData(config.builtin);
    if |builtinErrors| > 0 {
      errors := errors + builtinErrors;
    }
    if |errors| > 0 {
      return Some(errors);
    }
    return None;
  }

  /** What reading and decoding the TOML file produced. */
  datatype LoadInput = ReadFailed(reason: string) | DecodeFailed(reason: string) | Decoded(config: ConstraintConfig)

  /** What stays true of any configuration a load can install. */
  predicate Installable(config: ConstraintConfig)
  {
    BuiltinErrors(config.builtin) == [] && forall k :: k in config.constraints ==> TypeErrors(k, config.constraints[k].kind) == []
  }

  lemma ValidInstallable(config: ConstraintConfig, lib: Library)
    requires ConfigValid(config, lib)
    ensures Installable(config)
  {
    forall k | k in config.constraints
      ensures TypeErrors(k, config.constraints[k].kind) == []
    {
      assert FieldErrors(k, config.constraints[k], lib) == [];
    }
  }

  /** The package-level `globalConstraintConfig`, nil until a load succeeds. */
  class Registry {
    var config: Option<ConstraintConfig>

    ghost predicate Valid()
      reads this
    {
      config.Some? ==> Installable(config.value)
    }

    constructor()
      ensures config == None && Valid()
    {
      config := None;
    }

    /** The last steps of `LoadConstraintConfig`: the configuration is installed only when it validates. */
    method Load(input: LoadInput, order: seq<string>, lib: Library) returns (err: Option<string>)
      requires Valid()
      requires input.Decoded? ==> IsOrderOf(order, input.config.constraints.Keys)
      modifies this
      ensures Valid()
      ensures err.None? <==> input.Decoded? && ConfigValid(input.config, lib)
      ensures err.None? ==> config == Some(input.config)
      ensures err.Some? ==> config == old(config)
      ensures input.ReadFailed? ==> err == Some("读取约束配置文件失败: " + input.reason)
      ensures input.DecodeFailed? ==> err == Some("解析TOML配置文件失败: " + input.reason)
      ensures input.Decoded? && !ConfigValid(input.config, lib) ==>
        err == Some("约束配置验证失败: " + ErrorsText(ConfigErrors(input.config, order, lib)))
    {
      match input {
        case ReadFailed(reason) =>
          return Some("读取约束配置文件失败: " + reason);
        case DecodeFailed(reason) =>
          return Some("解析TOML配置文件失败: " + reason);
        case Decoded(c) =>
          ConfigErrorsComplete(c, order, lib);
          var errs := ValidateConstraintConfig(c, order, lib);
          if errs.Some? {
            var text := Error(errs.value);
            return Some("约束配置验证失败: " + text);
          }
          ValidInstallable(c, lib);
          config := Some(c);
          return None;
      }
    }
  }

  // ---------------------------------------------------------------- lookup

  /** The last `.`-separated segment of a name. */
  function SimpleName(name: string): (r: string)
    ensures '.' !in r && HasSuffix(name, r)
  {
    var parts := Split(name, '.');
    SplitJoin(name, '.');
    JoinLast(parts, ".");
    assert parts[|parts| - 1] in parts;
    parts[|parts| - 1]
  }

  /** The keys `FindFieldConstraint` tries, in order. */
  function Candidates(name: string): seq<string>
  {
    if '.' in name then [name, ToLower(name), SimpleName(name), ToLower(SimpleName(name))]
    else [name, ToLower(name)]
  }

  /** The constraint stored under the first of `keys` present. */
  function FirstPresent(keys: seq<string>, m: map<string, FieldConstraint>): (r: Option<FieldConstraint>)
    ensures r.None? <==> forall k :: k in keys ==> k !in m
    ensures r.Some? ==> exists k :: k in keys && k in m && r.value == m[k]
    ensures keys != [] && keys[0] in m ==> r == Some(m[keys[0]])
  {
    if keys == [] then None
    else if keys[0] in m then Some(m[keys[0]])
    else
      assert forall k :: k in keys ==> k == keys[0] || k in keys[1..];
      FirstPresent(keys[1..], m)
  }

  /** `FindFieldConstraint`: exact name, lower-cased name, then (for dotted names) the last segment as is and lower-cased. */
  function FindFieldConstraint(config: Option<ConstraintConfig>, fieldName: string): Option<FieldConstraint>
  {
    if config.None? then None
    else
      var cs := config.value.constraints;
      if fieldName in cs then Some(cs[fieldName])
      else if ToLower(fieldName) in cs then Some(cs[ToLower(fieldName)])
      else if '.' in fieldName then
        var simple := SimpleName(fieldName);
        if simple in cs then Some(cs[simple])
        else if ToLower(simple) in cs then Some(cs[ToLower(simple)])
        else None
      else None
  }

  /**
   * The lookup returns the constraint stored under the first candidate key
   * present, the stored keys being compared as they are; nothing without a
   * loaded configuration.
   */
  lemma FindIsFirstCandidate(config: Option<ConstraintConfig>, fieldName: string)
    ensures config.None? ==> FindFieldConstraint(config, fieldName) == None
    ensures config.Some? ==> FindFieldConstraint(config, fieldName) == FirstPresent(Candidates(fieldName), config.value.constraints)
  {
  }

  // ---------------------------------------------------------------- timezone offsets

  /** The text of the `*strconv.NumError` that `strconv.Atoi` returns for malformed bytes. */
  function AtoiSyntaxError(b: string): string
    requires IsBytes(b)
  {
    "strconv.Atoi: parsing " + Quote(b) + ": invalid syntax"
  }

  /** Signed minutes east of UTC of a `±HH:MM` offset whose parts parse. */
  function OffsetMinutes(sign: char, hours: int, minutes: int): int
  {
    if sign == '-' then -(hours * 60 + minutes) else hours * 60 + minutes
  }

  const OffsetFormatError := "偏移量格式错误，应为 ±HH:MM 格式"

  /**
   * `validateTimezoneOffset`: `None` when accepted, else the error text.
   * Lengths, indices and slices are Go's, over the bytes of the offset.
   */
  function ValidateTimezoneOffset(offset: string): (r: Option<string>)
    ensures ByteLen(offset) != 6 ==> r == Some(OffsetFormatError)
    ensures r.None? ==> IsAscii(offset) && Utf8Bytes(offset) == offset
  {
    var b := Utf8Bytes(offset);
    if |b| != 6 || b[3] != ':' then Some(OffsetFormatError)
    else if b[0] != '+' && b[0] != '-' then Some("偏移量符号错误，应为 + 或 -")
    else
      match ParseInt(b[1..3])
      case None => Some("小时部分格式错误: " + AtoiSyntaxError(b[1..3]))
      case Some(hours) =>
        match ParseInt(b[4..6])
        case None => Some("分钟部分格式错误: " + AtoiSyntaxError(b[4..6]))
        case Some(minutes) =>
          if hours < 0 || hours > 23 then Some("小时值超出范围 (0-23): " + IntToString(hours))
          else if minutes < 0 || minutes > 59 then Some("分钟值超出范围 (0-59): " + IntToString(minutes))
          else
            var total := OffsetMinutes(b[0], hours, minutes);
            if total < -12 * 60 || total > 14 * 60 then Some("时区偏移量超出合理范围 (-12:00 到 +14:00): " + offset)
            else OffsetBytesAscii(offset); None
  }

  /** Only ASCII gets through `strconv.Atoi`: a sign and digits. */
  lemma ParseIntAscii(t: string)
    requires ParseInt(t).Some?
    ensures IsAscii(t)
  {
    var body := if |t| > 0 && (t[0] == '+' || t[0] == '-') then t[1..] else t;
    assert AllDigits(body);
    forall i | 0 <= i < |t| ensures t[i] as int < 0x80 {
      if |t| > 0 && (t[0] == '+' || t[0] == '-') && i > 0 {
        assert t[i] == body[i - 1];
      }
    }
  }

  /** An offset of six bytes whose sign, colon and parts pass is ASCII, and so is its own byte string. */
  lemma OffsetBytesAscii(offset: string)
    requires var b := Utf8Bytes(offset);
      |b| == 6 && (b[0] == '+' || b[0] == '-') && b[3] == ':' && ParseInt(b[1..3]).Some? && ParseInt(b[4..6]).Some?
    ensures IsAscii(offset) && Utf8Bytes(offset) == offset
  {
    var b := Utf8Bytes(offset);
    ParseIntAscii(b[1..3]);
    ParseIntAscii(b[4..6]);
    forall i | 0 <= i < 6 ensures b[i] as int < 0x80 {
      if i == 1 || i == 2 {
        assert b[i] == b[1..3][i - 1];
      } else if i == 4 || i == 5 {
        assert b[i] == b[4..6][i - 4];
      }
    }
    Utf8Ascii(offset);
  }

  /** An offset of six runes whose sign, colon and parts pass is ASCII, so its bytes are its runes. */
  lemma OffsetRunesAscii(offset: string)
    requires |offset| == 6 && (offset[0] == '+' || offset[0] == '-') && offset[3] == ':'
    requires ParseInt(offset[1..3]).Some? && ParseInt(offset[4..6]).Some?
    ensures IsAscii(offset) && Utf8Bytes(offset) == offset
  {
    ParseIntAscii(offset[1..3]);
    ParseIntAscii(offset[4..6]);
    forall i | 0 <= i < 6 ensures offset[i] as int < 0x80 {
      if i == 1 || i == 2 {
        assert offset[i] == offset[1..3][i - 1];
      } else if i == 4 || i == 5 {
        assert offset[i] == offset[4..6][i - 4];
      }
    }
    Utf8Ascii(offset);
  }

  /** The `±HH:MM` shape with its hour and minute parts read as Go's `strconv.Atoi` reads them. */
  predicate OffsetShape(offset: string)
  {
    |offset| == 6 && offset[3] == ':' && (offset[0] == '+' || offset[0] == '-')
    && ParseInt(offset[1..3]).Some? && ParseInt(offset[4..6]).Some?
  }

  /**
   * The validator accepts exactly the offsets of that shape whose hours are
   * 0-23, whose minutes are 0-59, and whose signed total lies between
   * -12:00 and +14:00.
   */
  lemma TimezoneOffsetAccepts(offset: string)
    ensures ValidateTimezoneOffset(offset).None? <==>
      OffsetShape(offset)
      && 0 <= ParseInt(offset[1..3]).value <= 23 && 0 <= ParseInt(offset[4..6]).value <= 59
      && -720 <= OffsetMinutes(offset[0], ParseInt(offset[1..3]).value, ParseInt(offset[4..6]).value) <= 840
  {
    var b := Utf8Bytes(offset);
    if |b| == 6 && (b[0] == '+' || b[0] == '-') && b[3] == ':' && ParseInt(b[1..3]).Some? && ParseInt(b[4..6]).Some? {
      OffsetBytesAscii(offset);
      var hours := ParseInt(offset[1..3]).value;
      var minutes := ParseInt(offset[4..6]).value;
      ValidateShaped(offset);
    } else {
      assert ValidateTimezoneOffset(offset).Some?;
      if OffsetShape(offset) {
        OffsetRunesAscii(offset);
        assert false;
      }
    }
  }

  /** Past the shape checks only the ranges decide. */
  lemma ValidateShaped(offset: string)
    requires var b := Utf8Bytes(offset);
      |b| == 6 && (b[0] == '+' || b[0] == '-') && b[3] == ':' && ParseInt(b[1..3]).Some? && ParseInt(b[4..6]).Some?
    ensures var b := Utf8Bytes(offset);
      var hours := ParseInt(b[1..3]).value;
      var minutes := ParseInt(b[4..6]).value;
      ValidateTimezoneOffset(offset).None? <==>
        0 <= hours <= 23 && 0 <= minutes <= 59 && -720 <= OffsetMinutes(b[0], hours, minutes) <= 840
  {
  }

  /** For two-digit parts the shape is the familiar one: sign, two digits, colon, two digits. */
  lemma TwoDigitParts(offset: string)
    requires |offset| == 6 && offset[3] == ':' && (offset[0] == '+' || offset[0] == '-')
    requires IsDigit(offset[1]) && IsDigit(offset[2]) && IsDigit(offset[4]) && IsDigit(offset[5])
    ensures OffsetShape(offset)
    ensures ParseInt(offset[1..3]).value == 10 * DigitValue(offset[1]) + DigitValue(offset[2])
    ensures ParseInt(offset[4..6]).value == 10 * DigitValue(offset[4]) + DigitValue(offset[5])
  {
    TwoDigits(offset[1..3]);
    TwoDigits(offset[4..6]);
  }

  lemma TwoDigits(h: string)
    requires |h| == 2 && IsDigit(h[0]) && IsDigit(h[1])
    ensures ParseInt(h) == Some(10 * DigitValue(h[0]) + DigitValue(h[1]))
  {
    assert AllDigits(h);
    assert h[..1] == [h[0]] && [h[0]][..0] == [];
    assert DigitsValue(h[..1]) == DigitValue(h[0]);
    assert DigitsValue(h) == 10 * DigitValue(h[0]) + DigitValue(h[1]);
  }

  /** `strconv.Atoi` accepts a sign of its own, so the validator also accepts `++5:00` as five hours east. */
  lemma SignedHoursAccepted(offset: string)
    requires offset == "++5:00"
    ensures ValidateTimezoneOffset(offset) == None
  {
    assert IsAscii(offset);
    AsciiOwnBytes(offset);
    var h := offset[1..3];
    assert h == "+5" && h[1..] == "5" && "5"[..0] == [];
    assert offset[4..6] == "00" && "00"[..1] == "0" && "0"[..0] == [];
    ValidateShaped(offset);
  }

  /** `parseTimezoneOffset`: the offset in seconds east of UTC, read from the bytes of the offset. */
  function ParseTimezoneOffset(offset: string): (r: Result<int, string>)
    ensures ByteLen(offset) != 6 ==> r == Err("invalid timezone offset format: " + offset)
    ensures r.Ok? ==> r.value % 60 == 0 && -(23 * 3600 + 59 * 60) <= r.value <= 23 * 3600 + 59 * 60
  {
    var b := Utf8Bytes(offset);
    if |b| != 6 || b[3] != ':' then Err("invalid timezone offset format: " + offset)
    else if b[0] != '-' && b[0] != '+' then Err("invalid timezone offset sign: " + offset)
    else
      match ParseInt(b[1..3])
      case None => Err("invalid hours in timezone offset: " + offset)
      case Some(hours) =>
        match ParseInt(b[4..6])
        case None => Err("invalid minutes in timezone offset: " + offset)
        case Some(minutes) =>
          if hours < 0 || hours > 23 || minutes < 0 || minutes > 59 then Err("invalid timezone offset values: " + offset)
          else Ok(if b[0] == '-' then -(hours * 3600 + minutes * 60) else hours * 3600 + minutes * 60)
  }

  /** Whatever the validator accepts parses, to sixty times its signed minutes, within -12 to +14 hours. */
  lemma ParseAcceptsValidated(offset: string)
    requires ValidateTimezoneOffset(offset).None?
    ensures ParseTimezoneOffset(offset).Ok?
    ensures ParseTimezoneOffset(offset).value
      == 60 * OffsetMinutes(offset[0], ParseInt(offset[1..3]).value, ParseInt(offset[4..6]).value)
    ensures -12 * 3600 <= ParseTimezoneOffset(offset).value <= 14 * 3600
  {
  }

  /** The parser has no range check: `+23:59` parses though the validator rejects it. */
  lemma ParseWiderThanValidate(offset: string)
    requires offset == "+23:59"
    ensures ParseTimezoneOffset(offset) == Ok(23 * 3600 + 59 * 60)
    ensures ValidateTimezoneOffset(offset).Some?
  {
    assert IsAscii(offset);
    AsciiOwnBytes(offset);
    TwoDigitParts(offset);
    ValidateShaped(offset);
  }

  /** Go measures the offset in bytes: `+é0:00` has six runes but seven bytes. */
  lemma OffsetCountsBytes(offset: string)
    requires offset == "+é0:00"
    ensures ValidateTimezoneOffset(offset) == Some(OffsetFormatError)
  {
    var t := offset[2..];
    assert t == "0:00" && IsAscii(t);
    assert offset[1..][1..] == t;
    AsciiByteLen(t);
  }

  /**
   * Go slices the offset in bytes: `+é:00` is six bytes with `:` at byte 3,
   * so it fails on the two bytes of `é`, which `strconv.Quote` writes back
   * as `é`.
   */
  lemma OffsetSlicesBytes(offset: string)
    requires offset == "+é:00"
    ensures ValidateTimezoneOffset(offset) == Some("小时部分格式错误: " + AtoiSyntaxError(['\U{00C3}', '\U{00A9}']))
    ensures Quote(['\U{00C3}', '\U{00A9}']) == "\"é\""
  {
    var b := EAcuteBytes(offset);
    var h := b[1..3];
    assert h == ['\U{00C3}', '\U{00A9}'];
    assert ParseInt(h) == None by {
      assert !AllDigits(h) by { assert !IsDigit(h[0]); }
    }
    HoursSyntaxError(offset, b);
    assert Utf8Rune('é') == h;
    DecodeEncoded('é', []);
    assert h + [] == h;
    assert QuoteBody(h[2..]) == [];
  }

  /** The hours error of `validateTimezoneOffset`, once the bytes are known. */
  lemma HoursSyntaxError(offset: string, b: string)
    requires b == Utf8Bytes(offset) && |b| == 6 && b[3] == ':' && (b[0] == '+' || b[0] == '-')
    requires ParseInt(b[1..3]).None?
    ensures ValidateTimezoneOffset(offset) == Some("小时部分格式错误: " + AtoiSyntaxError(b[1..3]))
  {
  }

  lemma EAcuteBytes(offset: string) returns (b: string)
    requires offset == "+é:00"
    ensures b == Utf8Bytes(offset) && b == ['+', '\U{00C3}', '\U{00A9}', ':', '0', '0']
  {
    var u := offset[2..];
    assert u == ":00" && IsAscii(u);
    AsciiOwnBytes(u);
    var t := offset[1..];
    assert t == ['é'] + u;
    EAcuteRune(u);
    assert offset == ['+'] + t;
    Utf8Cons('+', t);
    assert Utf8Rune('+') == ['+'];
    b := ['+'] + (['\U{00C3}', '\U{00A9}'] + u);
    assert b == ['+', '\U{00C3}', '\U{00A9}', ':', '0', '0'];
  }

  lemma EAcuteRune(u: string)
    ensures Utf8Bytes(['é'] + u) == ['\U{00C3}', '\U{00A9}'] + Utf8Bytes(u)
  {
    Utf8Cons('é', u);
  }

  /** The hour bytes are quoted as Go quotes them: a `"` comes back escaped. */
  lemma OffsetQuotesHours(offset: string)
    requires offset == "+\"1:00"
    ensures ValidateTimezoneOffset(offset) == Some("小时部分格式错误: " + AtoiSyntaxError("\"1"))
    ensures Quote("\"1") == "\"\\\"1\""
  {
    assert IsAscii(offset);
    AsciiOwnBytes(offset);
    var h := offset[1..3];
    assert h == "\"1";
    assert ParseInt(h) == None by {
      assert !AllDigits(h) by { assert !IsDigit(h[0]); }
    }
    HoursSyntaxError(offset, offset);
    assert DecodeRune(h) == Some(('"', 1));
    assert EscapedRune('"') == "\\\"";
    QuoteBodyPlain(h[1..]);
    assert QuoteBody(h) == EscapedRune('"') + h[1..];
  }

  /** `ValidateTimezone`: empty, `UTC`, a valid offset, or a zone `time.LoadLocation` knows. */
  function ValidateTimezone(timezone: string, lib: Library): (r: Option<string>)
    ensures timezone == "" || timezone == "UTC" ==> r.None?
    ensures timezone != "" && (timezone[0] == '+' || timezone[0] == '-') ==> r == ValidateTimezoneOffset(timezone)
  {
    if timezone == "" || timezone == "UTC" then None
    else if HasPrefix(timezone, "+") || HasPrefix(timezone, "-") then ValidateTimezoneOffset(timezone)
    else
      match lib.loadLocation(timezone)
      case Some(e) => Some("无法加载 IANA 时区 '" + timezone + "': " + e)
      case None => None
  }

  // ---------------------------------------------------------------- generators

  const DefaultFirstNames: seq<string> := ["张", "王", "李", "赵", "刘"]
  const DefaultLastNames: seq<string> := ["伟", "芳", "娜", "敏", "静"]

  /**
   * `generateChineseName`.  When a configuration with surnames is loaded it
   * draws the given name from `LastNames` without checking that list, so
   * `rand.Intn(0)` panics when it is empty.
   */
  function ChineseName(config: Option<ConstraintConfig>, d: Draws): (r: Outcome<string>)
    ensures r.Panicked? <==> config.Some? && config.value.builtin.firstNames != [] && config.value.builtin.lastNames == []
    ensures r.Returned? && (config.None? || config.value.builtin.firstNames == []) ==>
      exists f, l :: f in DefaultFirstNames && l in DefaultLastNames && r.value == f + l
    ensures r.Returned? && config.Some? && config.value.builtin.firstNames != [] ==>
      exists f, l :: f in config.value.builtin.firstNames && l in config.value.builtin.lastNames && r.value == f + l
  {
    if config.None? || |config.value.builtin.firstNames| == 0 then
      Returned(DefaultFirstNames[Pick(d.here, 0, 5)] + DefaultLastNames[Pick(d.here, 1, 5)])
    else
      var b := config.value.builtin;
      if |b.lastNames| == 0 then Panicked
      else Returned(b.firstNames[Pick(d.here, 0, |b.firstNames|)] + b.lastNames[Pick(d.here, 1, |b.lastNames|)])
  }

  /** A configuration that a load installed has given names, so the name generator cannot panic with it. */
  lemma ChineseNameSafeWhenLoaded(r: Registry, d: Draws)
    requires r.Valid()
    ensures ChineseName(r.config, d).Returned?
  {
    if r.config.Some? {
      BuiltinErrorsNone(r.config.value.builtin);
    }
  }

  const PhonePrefixes: seq<string> := ["13", "14", "15", "16", "17", "18", "19"]

  /** `generatePhoneNumber`: a prefix from 13 to 19 and nine zero-padded digits. */
  function PhoneNumber(d: Draws): string
  {
    PhonePrefixes[Pick(d.here, 0, 7)] + PadZeros(Pick(d.here, 1, 1000000000), 9)
  }

  /** Eleven ASCII digits, the first `1`, the second 3 to 9. */
  lemma PhoneNumberShape(d: Draws)
    ensures var p := PhoneNumber(d);
      |p| == 11 && AllDigits(p) && p[0] == '1' && '3' <= p[1] <= '9'
  {
    PadZerosWidth(Pick(d.here, 1, 1000000000), 9);
  }

  const DefaultEmailDomains: seq<string> := ["qq.com", "163.com", "126.com", "gmail.com", "sina.com"]
  const Usernames: seq<string> := ["user", "demo", "test", "admin", "guest"]

  /** The domains `generateEmail` draws from: the configured ones when there are any. */
  function EmailDomains(config: Option<ConstraintConfig>): (r: seq<string>)
    ensures |r| > 0
  {
    if config.Some? && |config.value.builtin.emailDomains| > 0 then config.value.builtin.emailDomains else DefaultEmailDomains
  }

  /** `generateEmail`: `%s%d@%s` from a user name, a number below 1000 and a domain. */
  function Email(config: Option<ConstraintConfig>, d: Draws): (r: string)
    ensures exists u, n: nat, dom :: u in Usernames && n < 1000 && dom in EmailDomains(config) && r == u + IntToString(n) + "@" + dom
  {
    var domains := EmailDomains(config);
    var username := Usernames[Pick(d.here, 0, 5)];
    var number := Pick(d.here, 1, 1000);
    var domain := domains[Pick(d.here, 2, |domains|)];
    assert username in Usernames && domain in domains;
    username + IntToString(number) + "@" + domain
  }

  const DefaultAddresses: seq<string> := [
    "北京市朝阳区建国门外大街1号",
    "上海市浦东新区陆家嘴环路1000号",
    "广州市天河区珠江新城花城大道85号",
    "深圳市南山区科技园南区深南大道9988号",
    "成都市高新区天府大道中段1388号"]

  /** `generateChineseAddress`: one of the configured addresses, or of the five defaults. */
  function ChineseAddress(config: Option<ConstraintConfig>, d: Draws): (r: string)
    ensures config.Some? && |config.value.builtin.addresses| > 0 ==> r in config.value.builtin.addresses
    ensures !(config.Some? && |config.value.builtin.addresses| > 0) ==> r in DefaultAddresses
  {
    var addresses := if config.Some? && |config.value.builtin.addresses| > 0 then config.value.builtin.addresses else DefaultAddresses;
    addresses[Pick(d.here, 0, |addresses|)]
  }

  const AreaCodes: seq<string> := ["110101", "310101", "440101", "500101", "510101"]
  const CheckCodes: seq<string> := ["0", "1", "2", "3", "4", "5", "6", "7", "8", "9", "X"]

  /** `generateIDCard`: area code, `%04d%02d%02d` birthday, `%03d` sequence, random check character. */
  function IDCard(d: Draws): string
  {
    var areaCode := AreaCodes[Pick(d.here, 0, 5)];
    var year := 1980 + Pick(d.here, 1, 26);
    var month := 1 + Pick(d.here, 2, 12);
    var day := 1 + Pick(d.here, 3, 28);
    var sequence := Pick(d.here, 4, 1000);
    var checkCode := CheckCodes[Pick(d.here, 5, 11)];
    areaCode + PadZeros(year, 4) + PadZeros(month, 2) + PadZeros(day, 2) + PadZeros(sequence, 3) + checkCode
  }

  /** A run of decimal digits whose value lies in `[lo, hi]`. */
  predicate DigitsWithin(s: string, lo: nat, hi: nat)
  {
    AllDigits(s) && lo <= DigitsValue(s) <= hi
  }

  /** The shape of an ID-card number the generator produces. */
  predicate IDCardShaped(id: string)
  {
    |id| == 18 && id[..6] in AreaCodes
    && DigitsWithin(id[6..10], 1980, 2005) && DigitsWithin(id[10..12], 1, 12) && DigitsWithin(id[12..14], 1, 28)
    && AllDigits(id[14..17]) && (IsDigit(id[17]) || id[17] == 'X')
  }

  lemma PadField(n: nat, w: nat)
    requires 0 < w && n < Pow10(w)
    ensures |PadZeros(n, w)| == w && DigitsWithin(PadZeros(n, w), n, n)
  {
    PadZerosWidth(n, w);
    PadZerosValue(n, w);
  }

  /** Pieces of the right widths and ranges put together have the ID-card shape. */
  lemma Assembled(a: string, y: string, m: string, d: string, q: string, c: string)
    requires a in AreaCodes && |y| == 4 && |m| == 2 && |d| == 2 && |q| == 3 && |c| == 1
    requires DigitsWithin(y, 1980, 2005) && DigitsWithin(m, 1, 12) && DigitsWithin(d, 1, 28) && AllDigits(q)
    requires IsDigit(c[0]) || c[0] == 'X'
    ensures IDCardShaped(a + y + m + d + q + c)
  {
    var s := a + y + m + d + q + c;
    assert |a| == 6;
    assert s[..6] == a && s[6..10] == y && s[10..12] == m && s[12..14] == d && s[14..17] == q && s[17] == c[0];
  }


  /**
   * Eighteen characters: one of the five area codes, a birthday in 1980-2005
   * with month 01-12 and day 01-28, a three-digit sequence, and a digit or
   * `X`.
   */
  lemma IDCardShape(d: Draws)
    ensures IDCardShaped(IDCard(d))
  {
    var areaCode := AreaCodes[Pick(d.here, 0, 5)];
    var year := 1980 + Pick(d.here, 1, 26);
    var month := 1 + Pick(d.here, 2, 12);
    var day := 1 + Pick(d.here, 3, 28);
    var sequence := Pick(d.here, 4, 1000);
    var checkCode := CheckCodes[Pick(d.here, 5, 11)];
    assert areaCode in AreaCodes && |checkCode| == 1 && (IsDigit(checkCode[0]) || checkCode[0] == 'X');
    PadField(year, 4);
    PadField(month, 2);
    PadField(day, 2);
    PadField(sequence, 3);
    Assembled(areaCode, PadZeros(year, 4), PadZeros(month, 2), PadZeros(day, 2), PadZeros(sequence, 3), checkCode);
  }

  /** Go's `int(f)` for a float64: truncation toward zero; amd64 yields the minimum int64 when the result does not fit. */
  function ToInt(x: real): (r: int)
    ensures InRange(Int, r)
  {
    var t := if x >= 0.0 then x.Floor else -((-x).Floor);
    if InRange(Int, t) then t else -Half(Int)
  }

  /** `generateIntegerValue`: `min` (default 1) when the range is empty or a point, else `min + rand.Intn(max-min+1)`. */
  function IntegerValue(c: FieldConstraint, d: Draws): Outcome<int>
  {
    var lo := if c.min.Some? then ToInt(c.min.value) else 1;
    var hi := if c.max.Some? then ToInt(c.max.value) else 100;
    if hi <= lo then Returned(lo)
    else
      var n := Wrap(Int, hi - lo + 1);
      if n <= 0 then Panicked
      else Returned(Wrap(Int, lo + Pick(d.here, 0, n)))
  }

  /**
   * The bounds are `min` and `max` (1 and 100 when absent): an empty or
   * one-point range gives `min`; a range whose width fits in an `int` gives
   * a value inside it.
   */
  lemma IntegerValueRange(c: FieldConstraint, d: Draws)
    ensures var lo := if c.min.Some? then ToInt(c.min.value) else 1;
      var hi := if c.max.Some? then ToInt(c.max.value) else 100;
      (hi <= lo ==> IntegerValue(c, d) == Returned(lo))
      && (lo < hi && hi - lo + 1 <= MaxInt64 ==> IntegerValue(c, d).Returned? && lo <= IntegerValue(c, d).value <= hi)
  {
    var lo := if c.min.Some? then ToInt(c.min.value) else 1;
    var hi := if c.max.Some? then ToInt(c.max.value) else 100;
    if lo < hi && hi - lo + 1 <= MaxInt64 {
      WrapIdle(Int, hi - lo + 1);
      var k := Pick(d.here, 0, hi - lo + 1);
      WrapIdle(Int, lo + k);
    }
  }

  /**
   * `generateDatetimeValue` past the parsing: an empty span gives the
   * minimum; otherwise `rand.Int63n` gets the int64 sum `diff + 1`, where
   * `diff` is the int64 difference of the two `UnixNano` values, and panics
   * when that bound is not positive.  The formatted time is `d.text`.
   */
  function DatetimeValue(span: DatetimeSpan, d: Draws): Outcome<string>
  {
    if span.empty then Returned(d.text)
    else
      var diff := Wrap(Int64, span.maxNanos - span.minNanos);
      if Wrap(Int64, diff + 1) <= 0 then Panicked else Returned(d.text)
  }

  /**
   * For bounds that `UnixNano` represents, the generator panics exactly
   * when the span is at least 2^63 - 1 nanoseconds (about 292 years): the
   * difference itself wraps negative, or the added 1 does.
   */
  lemma DatetimePanicsIff(span: DatetimeSpan, d: Draws)
    requires InRange(Int64, span.minNanos) && InRange(Int64, span.maxNanos)
    requires span.empty || span.minNanos < span.maxNanos
    ensures DatetimeValue(span, d).Panicked? <==> !span.empty && span.maxNanos - span.minNanos >= MaxInt64
    ensures DatetimeValue(span, d).Returned? ==> DatetimeValue(span, d).value == d.text
  {
    if !span.empty {
      var x := span.maxNanos - span.minNanos;
      if x < MaxInt64 {
        WrapIdle(Int64, x);
        WrapIdle(Int64, x + 1);
      } else if x == MaxInt64 {
        WrapIdle(Int64, x);
        assert Wrap(Int64, x + 1) == MinInt64;
      } else {
        var w := x - 2 * Half(Int64);
        assert InRange(Int64, w) && InRange(Int64, w + 1);
        WrapShift(x, w);
        WrapIdle(Int64, w + 1);
      }
    }
  }

  lemma WrapShift(x: int, w: int)
    requires w == x - 2 * Half(Int64) && InRange(Int64, w)
    ensures Wrap(Int64, x) == w
  {
    assert (x + Half(Int64)) % (2 * Half(Int64)) == w + Half(Int64);
  }

  /**
   * A minimum of 1700-01-01T00:00:00Z under the default maximum spans more
   * than 2^63 nanoseconds, and validation lets it through, so generation
   * panics; the default span does not.
   */
  lemma DatetimeFrom1700Panics(early: DatetimeSpan, usual: DatetimeSpan, d: Draws)
    requires early == DatetimeSpan(false, -8520336000 * 1_000_000_000, 1924991999 * 1_000_000_000 + 999_000_000)
    requires usual == DatetimeSpan(false, 1577836800 * 1_000_000_000, 1924991999 * 1_000_000_000 + 999_000_000)
    ensures DatetimeValue(early, d) == Panicked
    ensures DatetimeValue(usual, d) == Returned(d.text)
  {
    DatetimePanicsIff(early, d);
    DatetimePanicsIff(usual, d);
  }

  /**
   * `GenerateConstrainedValue`.  The date and float generators are not
   * modelled: their result is the text `d.text` that Go's time and float
   * formatting would produce.  The date generator cannot panic, because
   * `Time.Sub` saturates and the dates differ by at least a day.  The
   * datetime generator is `DatetimeValue` over the parsed bounds `span(c)`.
   */
  function GenerateConstrainedValue(constraint: Option<FieldConstraint>, original: Value, config: Option<ConstraintConfig>, span: FieldConstraint -> DatetimeSpan, d: Draws): (r: Outcome<Value>)
  {
    if constraint.None? then Returned(original)
    else
      var c := constraint.value;
      if c.keepOriginal == Some(true) then Returned(original)
      else if c.kind == "keep_original" then Returned(original)
      else if c.kind == "date" then Returned(StrV(d.text))
      else if c.kind == "datetime" then
        (match DatetimeValue(span(c), d)
         case Returned(text) => Returned(StrV(text))
         case Panicked => Panicked)
      else if c.kind == "chinese_name" then
        (match ChineseName(config, d)
         case Returned(name) => Returned(StrV(name))
         case Panicked => Panicked)
      else if c.kind == "phone" then Returned(StrV(PhoneNumber(d)))
      else if c.kind == "email" then Returned(StrV(Email(config, d)))
      else if c.kind == "chinese_address" then Returned(StrV(ChineseAddress(config, d)))
      else if c.kind == "id_card" then Returned(StrV(IDCard(d)))
      else if c.kind == "integer" then
        (match IntegerValue(c, d)
         case Returned(i) => Returned(IntV(Int, i))
         case Panicked => Panicked)
      else if c.kind == "float" then Returned(FloatV(Float64, d.text))
      else Returned(original)
  }

  /**
   * The original value comes back untouched without a constraint, with
   * `keep_original = true`, with type `keep_original`, and with a type
   * outside the ten known ones; a phone or ID-card constraint gives a string
   * of that shape.
   */
  lemma GenerateKeepsOriginal(constraint: Option<FieldConstraint>, original: Value, config: Option<ConstraintConfig>, span: FieldConstraint -> DatetimeSpan, d: Draws)
    ensures constraint.None? ==> GenerateConstrainedValue(constraint, original, config, span, d) == Returned(original)
    ensures constraint.Some? && constraint.value.keepOriginal == Some(true) ==> GenerateConstrainedValue(constraint, original, config, span, d) == Returned(original)
    ensures constraint.Some? && constraint.value.kind == "keep_original" ==> GenerateConstrainedValue(constraint, original, config, span, d) == Returned(original)
    ensures constraint.Some? && constraint.value.kind !in ValidTypes ==> GenerateConstrainedValue(constraint, original, config, span, d) == Returned(original)
  {
    if constraint.Some? && constraint.value.kind !in ValidTypes {
      var k := constraint.value.kind;
      assert k != ValidTypes[0] && k != ValidTypes[1] && k != ValidTypes[2] && k != ValidTypes[3] && k != ValidTypes[4];
      assert k != ValidTypes[5] && k != ValidTypes[6] && k != ValidTypes[7] && k != ValidTypes[8] && k != ValidTypes[9];
    }
  }

  lemma GenerateShapes(c: FieldConstraint, original: Value, config: Option<ConstraintConfig>, span: FieldConstraint -> DatetimeSpan, d: Draws)
    requires c.keepOriginal != Some(true)
    ensures var r := GenerateConstrainedValue(Some(c), original, config, span, d);
      (c.kind == "phone" ==> r.Returned? && r.value.StrV? && |r.value.s| == 11 && AllDigits(r.value.s))
      && (c.kind == "id_card" ==> r.Returned? && r.value.StrV? && IDCardShaped(r.value.s))
  {
    if c.kind == "phone" {
      GeneratesPhone(c, original, config, span, d);
      PhoneNumberShape(d);
    } else if c.kind == "id_card" {
      GeneratesIDCard(c, original, config, span, d);
      IDCardShape(d);
    }
  }

  lemma GeneratesPhone(c: FieldConstraint, original: Value, config: Option<ConstraintConfig>, span: FieldConstraint -> DatetimeSpan, d: Draws)
    requires c.keepOriginal != Some(true) && c.kind == "phone"
    ensures GenerateConstrainedValue(Some(c), original, config, span, d) == Returned(StrV(PhoneNumber(d)))
  {
    assert |c.kind| == 5 && c.kind[0] == 'p';
  }

  lemma GeneratesIDCard(c: FieldConstraint, original: Value, config: Option<ConstraintConfig>, span: FieldConstraint -> DatetimeSpan, d: Draws)
    requires c.keepOriginal != Some(true) && c.kind == "id_card"
    ensures GenerateConstrainedValue(Some(c), original, config, span, d) == Returned(StrV(IDCard(d)))
  {
  }

  lemma GeneratesDatetime(c: FieldConstraint, original: Value, config: Option<ConstraintConfig>, span: FieldConstraint -> DatetimeSpan, d: Draws)
    requires c.keepOriginal != Some(true) && c.kind == "datetime"
    ensures GenerateConstrainedValue(Some(c), original, config, span, d).Panicked? <==> DatetimeValue(span(c), d).Panicked?
    ensures GenerateConstrainedValue(Some(c), original, config, span, d).Returned? ==>
      GenerateConstrainedValue(Some(c), original, config, span, d).value == StrV(DatetimeValue(span(c), d).value)
  {
    assert |c.kind| == 8 && c.kind[0] == 'd' && c.kind[4] == 't';
  }
}

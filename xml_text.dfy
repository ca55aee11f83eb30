/**
 * The two text passes of utils/data.go that act on XML as plain strings:
 * `escapeXMLValue`, five chained replacements, and `FormatXML`, which breaks
 * the line between every pair of adjacent tags.
 */
module XmlText {
  import opened Wrappers
  import opened Text

  /**
   * `escapeXMLValue`: `&` is replaced first, so that the ampersands the later
   * replacements introduce are not escaped again; then `<`, `>`, `"` and `'`.
   */
  function EscapeXMLValue(v: string): string
  {
    var e := ReplaceAll(v, "&", "&amp;");
    var e := ReplaceAll(e, "<", "&lt;");
    var e := ReplaceAll(e, ">", "&gt;");
    var e := ReplaceAll(e, "\"", "&quot;");
    ReplaceAll(e, "'", "&apos;")
  }

  /** The entity each of the five special characters becomes; every other rune stands for itself. */
  function EscapeRune(c: char): string
  {
    if c == '&' then "&amp;"
    else if c == '<' then "&lt;"
    else if c == '>' then "&gt;"
    else if c == '"' then "&quot;"
    else if c == '\'' then "&apos;"
    else [c]
  }

  /** Reference definition: escaping rune by rune. */
  function EscapeRunes(v: string): string
  {
    if v == [] then [] else EscapeRune(v[0]) + EscapeRunes(v[1..])
  }

  /** The five replacements as one-rune replacements, by stages: `Stage(k, t)` applies replacements k to 5. */
  function Stage(k: nat, t: string): string
    requires 1 <= k <= 6
    decreases 6 - k
  {
    if k == 6 then t else Stage(k + 1, ReplaceChar(t, Pattern(k), EscapeRune(Pattern(k))))
  }

  /** The rune the k-th replacement looks for. */
  function Pattern(k: nat): char
    requires 1 <= k <= 5
  {
    if k == 1 then '&' else if k == 2 then '<' else if k == 3 then '>' else if k == 4 then '"' else '\''
  }

  function Chain(v: string): string
  {
    Stage(1, v)
  }

  lemma {:induction false} StageAppend(k: nat, a: string, b: string)
    requires 1 <= k <= 6
    ensures Stage(k, a + b) == Stage(k, a) + Stage(k, b)
    decreases 6 - k
  {
    if k < 6 {
      var p := Pattern(k);
      ReplaceCharAppend(a, b, p, EscapeRune(p));
      StageAppend(k + 1, ReplaceChar(a, p, EscapeRune(p)), ReplaceChar(b, p, EscapeRune(p)));
    }
  }

  lemma ChainAppend(a: string, b: string)
    ensures Chain(a + b) == Chain(a) + Chain(b)
  {
    StageAppend(1, a, b);
  }

  /** Replacing one rune by `rep` in a one-rune string. */
  lemma ReplaceOne(c: char, d: char, rep: string)
    ensures ReplaceChar([c], d, rep) == if c == d then rep else [c]
  {
    assert [c][1..] == [];
  }

  /** Stages from `k` on leave alone a text holding none of their patterns. */
  lemma {:induction false} StageIdle(k: nat, t: string)
    requires 1 <= k <= 6
    requires forall j :: k <= j <= 5 ==> Pattern(j) !in t
    ensures Stage(k, t) == t
    decreases 6 - k
  {
    if k < 6 {
      ReplaceCharAbsent(t, Pattern(k), EscapeRune(Pattern(k)));
      StageIdle(k + 1, t);
    }
  }

  /** Stages from `k` on turn a rune into its entity, provided no earlier stage matched it. */
  lemma {:induction false} StageRune(k: nat, c: char)
    requires 1 <= k <= 6
    requires forall j :: 1 <= j < k ==> Pattern(j) != c
    ensures Stage(k, [c]) == EscapeRune(c)
    decreases 6 - k
  {
    if k == 6 {
      assert c != '&' && c != '<' && c != '>' && c != '"' && c != '\'' by {
        assert Pattern(1) != c && Pattern(2) != c && Pattern(3) != c && Pattern(4) != c && Pattern(5) != c;
      }
    } else {
      var p := Pattern(k);
      ReplaceOne(c, p, EscapeRune(p));
      if c == p {
        EntityHasNoPattern(k);
        StageIdle(k + 1, EscapeRune(p));
      } else {
        StageRune(k + 1, c);
      }
    }
  }

  /** The entity of the k-th pattern holds none of the later patterns. */
  lemma EntityHasNoPattern(k: nat)
    requires 1 <= k <= 5
    ensures forall j :: k < j <= 5 ==> Pattern(j) !in EscapeRune(Pattern(k))
  {
    var e := EscapeRune(Pattern(k));
    assert forall i :: 0 <= i < |e| ==> e[i] in "&amplgtquoas;";
  }

  lemma ChainRune(c: char)
    ensures Chain([c]) == EscapeRune(c)
  {
    StageRune(1, c);
  }

  lemma {:induction false} ChainIsPerRune(v: string)
    ensures Chain(v) == EscapeRunes(v)
    decreases |v|
  {
    if v != [] {
      assert v == [v[0]] + v[1..];
      ChainAppend([v[0]], v[1..]);
      ChainRune(v[0]);
      ChainIsPerRune(v[1..]);
    }
  }

  /** The chained replacements escape rune by rune: each special character becomes its entity. */
  lemma EscapeIsPerRune(v: string)
    ensures EscapeXMLValue(v) == EscapeRunes(v)
  {
    EscapeIsChain(v);
    ChainIsPerRune(v);
  }

  /** The five one-rune replacements, in the order `escapeXMLValue` applies them. */
  function Replaced(v: string): string
  {
    ReplaceChar(ReplaceChar(ReplaceChar(ReplaceChar(ReplaceChar(v, '&', "&amp;"), '<', "&lt;"), '>', "&gt;"), '"', "&quot;"), '\'', "&apos;")
  }

  /** The five `strings.ReplaceAll` calls are the five stages of `Chain`. */
  lemma EscapeIsChain(v: string)
    ensures EscapeXMLValue(v) == Chain(v)
  {
    EscapeIsReplaced(v);
    ChainIsReplaced(v);
  }

  lemma EscapeIsReplaced(v: string)
    ensures EscapeXMLValue(v) == Replaced(v)
  {
    var r1 := ReplaceChar(v, '&', "&amp;");
    var r2 := ReplaceChar(r1, '<', "&lt;");
    var r3 := ReplaceChar(r2, '>', "&gt;");
    var r4 := ReplaceChar(r3, '"', "&quot;");
    ReplaceAllOneRune(v, '&', "&amp;");
    ReplaceAllOneRune(r1, '<', "&lt;");
    ReplaceAllOneRune(r2, '>', "&gt;");
    ReplaceAllOneRune(r3, '"', "&quot;");
    ReplaceAllOneRune(r4, '\'', "&apos;");
  }

  lemma ChainIsReplaced(v: string)
    ensures Chain(v) == Replaced(v)
  {
    var r1 := ReplaceChar(v, '&', "&amp;");
    var r2 := ReplaceChar(r1, '<', "&lt;");
    var r3 := ReplaceChar(r2, '>', "&gt;");
    var r4 := ReplaceChar(r3, '"', "&quot;");
    assert Pattern(1) == '&' && EscapeRune('&') == "&amp;";
    assert Pattern(2) == '<' && EscapeRune('<') == "&lt;";
    assert Pattern(3) == '>' && EscapeRune('>') == "&gt;";
    assert Pattern(4) == '"' && EscapeRune('"') == "&quot;";
    assert Pattern(5) == '\'' && EscapeRune('\'') == "&apos;";
    assert Stage(1, v) == Stage(2, r1);
    assert Stage(2, r1) == Stage(3, r2);
    assert Stage(3, r2) == Stage(4, r3);
    assert Stage(4, r3) == Stage(5, r4);
  }



  predicate Special(c: char)
  {
    c == '<' || c == '>' || c == '"' || c == '\''
  }

  /** The text at the start of `t` is one of the five entities. */
  predicate StartsEntity(t: string)
  {
    HasPrefix(t, "&amp;") || HasPrefix(t, "&lt;") || HasPrefix(t, "&gt;") || HasPrefix(t, "&quot;") || HasPrefix(t, "&apos;")
  }

  /** Escaped text contains none of `<`, `>`, `"`, `'`, and every `&` in it begins an entity. */
  predicate WellEscaped(t: string)
  {
    (forall i :: 0 <= i < |t| ==> !Special(t[i]))
    && (forall i :: 0 <= i < |t| && t[i] == '&' ==> StartsEntity(t[i..]))
  }

  lemma {:induction false} EscapeRunesWellEscaped(v: string)
    ensures WellEscaped(EscapeRunes(v))
    decreases |v|
  {
    if v != [] {
      EscapeRunesWellEscaped(v[1..]);
      var head := EscapeRune(v[0]);
      var tail := EscapeRunes(v[1..]);
      var t := head + tail;
      forall i | 0 <= i < |t|
        ensures !Special(t[i])
        ensures t[i] == '&' ==> StartsEntity(t[i..])
      {
        if i < |head| {
          if t[i] == '&' {
            assert i == 0;
            assert t[0..] == t;
            assert t[..|head|] == head;
          }
        } else {
          assert t[i] == tail[i - |head|];
          assert t[i..] == tail[i - |head|..];
        }
      }
    }
  }

  /** `escapeXMLValue` leaves no `<`, `>`, `"` or `'`, and every `&` it leaves starts one of the five entities. */
  lemma EscapeXMLValueWellEscaped(v: string)
    ensures WellEscaped(EscapeXMLValue(v))
  {
    EscapeIsPerRune(v);
    EscapeRunesWellEscaped(v);
  }

  /** Decoding of the five entities, left to right. */
  function Unescape(t: string): string
    decreases |t|
  {
    if t == [] then []
    else if HasPrefix(t, "&amp;") then "&" + Unescape(t[5..])
    else if HasPrefix(t, "&lt;") then "<" + Unescape(t[4..])
    else if HasPrefix(t, "&gt;") then ">" + Unescape(t[4..])
    else if HasPrefix(t, "&quot;") then "\"" + Unescape(t[6..])
    else if HasPrefix(t, "&apos;") then "'" + Unescape(t[6..])
    else [t[0]] + Unescape(t[1..])
  }

  lemma UnescapeRune(c: char, rest: string)
    ensures Unescape(EscapeRune(c) + rest) == [c] + Unescape(rest)
  {
    var t := EscapeRune(c) + rest;
    assert t[..|EscapeRune(c)|] == EscapeRune(c);
    assert t[|EscapeRune(c)|..] == rest;
    if c == '&' {
      assert HasPrefix(t, "&amp;");
    } else if c == '<' {
      assert t[1] == 'l' && !HasPrefix(t, "&amp;");
    } else if c == '>' {
      assert t[1] == 'g' && !HasPrefix(t, "&amp;") && !HasPrefix(t, "&lt;");
    } else if c == '"' {
      assert t[1] == 'q' && !HasPrefix(t, "&amp;") && !HasPrefix(t, "&lt;") && !HasPrefix(t, "&gt;");
    } else if c == '\'' {
      assert t[1] == 'a' && t[2] == 'p' && !HasPrefix(t, "&amp;") && !HasPrefix(t, "&lt;") && !HasPrefix(t, "&gt;");
      assert !HasPrefix(t, "&quot;");
    } else {
      assert t[0] == c && t[1..] == rest;
      assert !HasPrefix(t, "&amp;") && !HasPrefix(t, "&lt;") && !HasPrefix(t, "&gt;");
      assert !HasPrefix(t, "&quot;") && !HasPrefix(t, "&apos;");
    }
  }

  /** Escaping loses nothing: decoding the entities gives back the original value. */
  lemma {:induction false} UnescapeEscape(v: string)
    ensures Unescape(EscapeXMLValue(v)) == v
    decreases |v|
  {
    EscapeIsPerRune(v);
    if v != [] {
      UnescapeRune(v[0], EscapeRunes(v[1..]));
      UnescapeEscape(v[1..]);
      EscapeIsPerRune(v[1..]);
    }
  }

  // ---------------------------------------------------------------- FormatXML

  /** `FormatXML`: a newline between every `>` directly followed by `<`. It never fails. */
  function FormatXML(x: string): Result<string, string>
  {
    Ok(ReplaceAll(x, "><", ">\n<"))
  }

  /** No `>` is directly followed by `<`. */
  predicate NoAdjacentTags(t: string)
  {
    forall i :: 0 <= i < |t| - 1 ==> !(t[i] == '>' && t[i + 1] == '<')
  }

  lemma {:induction false} BreakTagsFirst(x: string)
    requires x != []
    ensures ReplaceAll(x, "><", ">\n<") != [] && ReplaceAll(x, "><", ">\n<")[0] == x[0]
    decreases |x|
  {
  }

  lemma {:induction false} BreakTagsNoAdjacent(x: string)
    ensures NoAdjacentTags(ReplaceAll(x, "><", ">\n<"))
    decreases |x|
  {
    if |x| >= 2 {
      var t := ReplaceAll(x, "><", ">\n<");
      if x[..2] == "><" {
        var rest := ReplaceAll(x[2..], "><", ">\n<");
        BreakTagsNoAdjacent(x[2..]);
        assert t == ">\n<" + rest;
        forall i | 0 <= i < |t| - 1
          ensures !(t[i] == '>' && t[i + 1] == '<')
        {
          if i >= 3 {
            assert t[i] == rest[i - 3] && t[i + 1] == rest[i - 2];
          }
        }
      } else {
        var rest := ReplaceAll(x[1..], "><", ">\n<");
        BreakTagsNoAdjacent(x[1..]);
        BreakTagsFirst(x[1..]);
        assert t == [x[0]] + rest;
        forall i | 0 <= i < |t| - 1
          ensures !(t[i] == '>' && t[i + 1] == '<')
        {
          if i == 0 {
            assert t[1] == rest[0] == x[1];
          } else {
            assert t[i] == rest[i - 1] && t[i + 1] == rest[i];
          }
        }
      }
    }
  }

  lemma {:induction false} BreakTagsIdle(x: string)
    requires NoAdjacentTags(x)
    ensures ReplaceAll(x, "><", ">\n<") == x
    decreases |x|
  {
    if |x| >= 2 {
      assert x[..2] != "><" by {
        assert !(x[0] == '>' && x[1] == '<');
      }
      BreakTagsIdle(x[1..]);
    }
  }

  /** After formatting no tag directly follows another, so formatting a second time changes nothing. */
  lemma FormatXMLIdempotent(x: string)
    ensures NoAdjacentTags(FormatXML(x).value)
    ensures FormatXML(FormatXML(x).value) == FormatXML(x)
  {
    BreakTagsNoAdjacent(x);
    BreakTagsIdle(FormatXML(x).value);
  }
}

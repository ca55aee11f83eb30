/**
 * How `utils/dify.go` cuts the text a model generated into test cases:
 * consecutive JSON objects found by counting braces, XML documents
 * separated by `$$$$`, the lines inside Markdown code fences, and the
 * de-duplication that `parseGeneratedTestCases` applies to all of them.
 */
module DifyParse {
  import opened Wrappers
  import opened Text
  import opened XmlKeys

  // ---------------------------------------------------------------------
  // splitConsecutiveJSONObjects

  /** The scanner state of `splitConsecutiveJSONObjects`: brace depth, inside a string literal, just after a backslash. */
  datatype Lexer = Lexer(braces: int, inString: bool, escaped: bool)

  const Fresh := Lexer(0, false, false)

  /** How one rune moves the scanner: escapes and string literals hide braces from the count. */
  function Lex(l: Lexer, c: char): Lexer
  {
    if l.escaped then l.(escaped := false)
    else if c == '\\' then l.(escaped := true)
    else if c == '"' then l.(inString := !l.inString)
    else if l.inString then l
    else if c == '{' then l.(braces := l.braces + 1)
    else if c == '}' then l.(braces := l.braces - 1)
    else l
  }

  function LexAll(l: Lexer, s: string): Lexer
  {
    if s == [] then l else Lex(LexAll(l, s[..|s| - 1]), s[|s| - 1])
  }

  /** Whether the rune goes into the object being built: everything except what lies outside all braces. */
  predicate Written(l: Lexer, c: char)
  {
    l.escaped || c == '\\' || c == '"' || l.inString || c == '{' || c == '}' || l.braces > 0
  }

  /** Whether the rune is a `}` that brings the count back to 0. */
  predicate Closes(l: Lexer, c: char)
  {
    !l.escaped && !l.inString && c == '}' && l.braces == 1
  }

  /** The objects found so far, the object being built and the scanner. */
  datatype Splitter = Splitter(objects: seq<string>, current: string, lexer: Lexer)

  const Start := Splitter([], "", Fresh)

  function Feed(s: Splitter, c: char): Splitter
  {
    var current := if Written(s.lexer, c) then s.current + [c] else s.current;
    if Closes(s.lexer, c) then
      var obj := TrimSpace(current);
      Splitter(if obj != "" then s.objects + [obj] else s.objects, "", Lex(s.lexer, c))
    else Splitter(s.objects, current, Lex(s.lexer, c))
  }

  function FeedAll(s: Splitter, text: string): Splitter
  {
    if text == [] then s else Feed(FeedAll(s, text[..|text| - 1]), text[|text| - 1])
  }

  /** What `splitConsecutiveJSONObjects` returns for `text`. */
  function SplitObjects(text: string): seq<string>
  {
    FeedAll(Start, text).objects
  }

  /** An emitted piece: non-empty, trimmed, and closed by a `}`. */
  predicate Piece(o: string)
  {
    o != [] && o[|o| - 1] == '}' && TrimSpace(o) == o
  }

  /**
   * A well-formed object in the scanner's terms: it opens with `{`, its
   * brace count stays positive on every proper prefix and is 0 at the end.
   */
  predicate Object(o: string)
  {
    |o| >= 1 && o[0] == '{'
    && (forall k :: 1 <= k < |o| ==> LexAll(Fresh, o[..k]).braces > 0)
    && LexAll(Fresh, o).braces == 0
  }

  /** Text between objects: no braces, quotes or backslashes (whitespace, for one). */
  predicate Gap(g: string)
  {
    forall i :: 0 <= i < |g| ==> g[i] != '{' && g[i] != '}' && g[i] != '"' && g[i] != '\\'
  }

  /** The body of a string literal: plain runes other than `"` and `\`, or a `\` followed by any rune. */
  predicate LiteralBody(s: string)
    decreases |s|
  {
    s == []
    || (s[0] != '"' && s[0] != '\\' && LiteralBody(s[1..]))
    || (|s| >= 2 && s[0] == '\\' && LiteralBody(s[2..]))
  }

  lemma {:induction false} FeedAllAppend(s: Splitter, a: string, b: string)
    ensures FeedAll(s, a + b) == FeedAll(FeedAll(s, a), b)
    decreases |b|
  {
    if b == [] {
      assert a + b == a;
    } else {
      assert (a + b)[..|a + b| - 1] == a + b[..|b| - 1];
      FeedAllAppend(s, a, b[..|b| - 1]);
    }
  }

  lemma {:induction false} LexAllAppend(l: Lexer, a: string, b: string)
    ensures LexAll(l, a + b) == LexAll(LexAll(l, a), b)
    decreases |b|
  {
    if b == [] {
      assert a + b == a;
    } else {
      assert (a + b)[..|a + b| - 1] == a + b[..|b| - 1];
      LexAllAppend(l, a, b[..|b| - 1]);
    }
  }

  lemma FeedAllStep(s: Splitter, text: string, i: nat)
    requires i < |text|
    ensures FeedAll(s, text[..i + 1]) == Feed(FeedAll(s, text[..i]), text[i])
  {
    assert text[..i + 1][..i] == text[..i];
  }

  lemma LexAllStep(l: Lexer, text: string, i: nat)
    requires i < |text|
    ensures LexAll(l, text[..i + 1]) == Lex(LexAll(l, text[..i]), text[i])
  {
    assert text[..i + 1][..i] == text[..i];
  }

  /** Trimming a string whose last rune is not a space leaves a trimmed string with the same last rune. */
  lemma TrimKeepsLast(s: string)
    requires s != [] && !IsSpace(s[|s| - 1])
    ensures TrimSpace(s) != [] && TrimSpace(s)[|TrimSpace(s)| - 1] == s[|s| - 1]
    ensures TrimSpace(TrimSpace(s)) == TrimSpace(s)
  {
    var l := TrimLeft(s);
    assert l != [];
    assert l[|l| - 1] == s[|s| - 1];
    assert TrimRight(l) == l;
    TrimSpaceIdle(l);
  }

  lemma FeedKeepsPieces(s: Splitter, c: char)
    requires forall o :: o in s.objects ==> Piece(o)
    ensures forall o :: o in Feed(s, c).objects ==> Piece(o)
  {
    if Closes(s.lexer, c) {
      var current := s.current + [c];
      assert Written(s.lexer, c) && current[|current| - 1] == '}';
      ClosedPiece(current);
      var next := Feed(s, c);
      assert next.objects == s.objects || next.objects == s.objects + [TrimSpace(current)];
    }
  }

  /** Trimming text that ends in `}` leaves a piece. */
  lemma ClosedPiece(current: string)
    requires current != [] && current[|current| - 1] == '}'
    ensures Piece(TrimSpace(current))
  {
    assert !IsSpace('}');
    TrimKeepsLast(current);
  }

  lemma {:induction false} FeedAllKeepsPieces(s: Splitter, text: string)
    requires forall o :: o in s.objects ==> Piece(o)
    ensures forall o :: o in FeedAll(s, text).objects ==> Piece(o)
    decreases |text|
  {
    if text != [] {
      FeedAllKeepsPieces(s, text[..|text| - 1]);
      FeedKeepsPieces(FeedAll(s, text[..|text| - 1]), text[|text| - 1]);
    }
  }

  /** Every emitted piece is non-empty, trimmed and ends with `}`. */
  lemma SplitObjectsPieces(text: string)
    ensures forall o :: o in SplitObjects(text) ==> Piece(o)
  {
    FeedAllKeepsPieces(Start, text);
  }

  /** A piece is emitted exactly at a `}` that brings the count from 1 to 0, outside strings and escapes. */
  lemma EmitOnlyOnClose(s: Splitter, c: char)
    ensures |Feed(s, c).objects| > |s.objects| <==> Closes(s.lexer, c)
    ensures !Closes(s.lexer, c) ==> Feed(s, c).objects == s.objects
    ensures Closes(s.lexer, c) ==> Lex(s.lexer, c).braces == 0
  {
    if Closes(s.lexer, c) {
      assert Lex(s.lexer, c).braces == 0;
      TrimKeepsLast(s.current + [c]);
      assert |Feed(s, c).objects| > |s.objects|;
    } else {
      assert Feed(s, c).objects == s.objects;
    }
  }

  lemma {:induction false} LexAllCons(l: Lexer, c: char, s: string)
    ensures LexAll(l, [c] + s) == LexAll(Lex(l, c), s)
  {
    LexAllAppend(l, [c], s);
    assert LexAll(l, [c]) == Lex(LexAll(l, []), c) by {
      assert [c][..0] == [];
    }
  }

  lemma {:induction false} LiteralBodyLex(b: int, s: string)
    requires LiteralBody(s)
    ensures LexAll(Lexer(b, true, false), s) == Lexer(b, true, false)
    decreases |s|
  {
    var l := Lexer(b, true, false);
    if s != [] {
      if s[0] != '"' && s[0] != '\\' && LiteralBody(s[1..]) {
        assert [s[0]] + s[1..] == s;
        LexAllCons(l, s[0], s[1..]);
        LiteralBodyLex(b, s[1..]);
      } else {
        assert [s[0]] + ([s[1]] + s[2..]) == s;
        LexAllCons(l, s[0], [s[1]] + s[2..]);
        LexAllCons(l.(escaped := true), s[1], s[2..]);
        LiteralBodyLex(b, s[2..]);
      }
    }
  }

  /**
   * Braces inside a string literal, escapes included, do not change the
   * count: scanning a whole literal leaves the scanner as it found it.
   */
  lemma StringLiteralIgnored(l: Lexer, body: string)
    requires !l.escaped && !l.inString
    requires LiteralBody(body)
    ensures LexAll(l, ['"'] + body + ['"']) == l
  {
    LexAllAppend(l, ['"'] + body, ['"']);
    LexAllCons(l, '"', body);
    LiteralBodyLex(l.braces, body);
    assert ['"'][..0] == [];
  }

  lemma CloseAtZero(l: Lexer, c: char)
    ensures Closes(l, c) ==> Lex(l, c).braces == 0
  {
  }

  /** Inside an object that stays open, a rune is simply appended. */
  lemma FeedOpen(s: Splitter, c: char)
    requires s.lexer.braces > 0 && Lex(s.lexer, c).braces > 0
    ensures Feed(s, c) == Splitter(s.objects, s.current + [c], Lex(s.lexer, c))
  {
    CloseAtZero(s.lexer, c);
    assert !Closes(s.lexer, c);
  }

  lemma {:induction false} FeedInside(prev: seq<string>, o: string, k: nat)
    requires Object(o) && 1 <= k < |o|
    ensures FeedAll(Splitter(prev, "", Fresh), o[..k]) == Splitter(prev, o[..k], LexAll(Fresh, o[..k]))
    decreases k
  {
    var s := Splitter(prev, "", Fresh);
    if k == 1 {
      assert o[..1] == [o[0]] && o[..1][..0] == [];
    } else {
      FeedInside(prev, o, k - 1);
      FeedAllStep(s, o, k - 1);
      LexAllStep(Fresh, o, k - 1);
      FeedOpen(Splitter(prev, o[..k - 1], LexAll(Fresh, o[..k - 1])), o[k - 1]);
      TakeSnoc(o, k - 1);
    }
  }

  lemma SingleBrace(o: string)
    ensures |o| == 1 && o[0] == '{' ==> LexAll(Fresh, o).braces == 1
  {
    if |o| == 1 {
      assert o[..0] == [];
    }
  }

  /** A rune that takes a positive count to 0 is a closing brace, and leaves a clean scanner. */
  lemma DropToZero(l: Lexer, c: char)
    requires l.braces > 0 && Lex(l, c).braces == 0
    ensures Closes(l, c) && Lex(l, c) == Fresh
  {
  }

  /** A closing brace ends an object that needs no trimming: it is emitted whole. */
  lemma FeedClose(s: Splitter, c: char)
    requires Closes(s.lexer, c)
    requires TrimSpace(s.current + [c]) == s.current + [c]
    ensures Feed(s, c) == Splitter(s.objects + [s.current + [c]], "", Lex(s.lexer, c))
  {
  }

  lemma TakeSnoc<T>(s: seq<T>, n: nat)
    requires n < |s|
    ensures s[..n] + [s[n]] == s[..n + 1]
  {
  }

  /** The closing brace of an object emits it. */
  lemma CloseObject(prev: seq<string>, o: string)
    requires Object(o) && |o| >= 2
    ensures Feed(Splitter(prev, o[..|o| - 1], LexAll(Fresh, o[..|o| - 1])), o[|o| - 1]) == Splitter(prev + [o], "", Fresh)
  {
    var n := |o| - 1;
    var l := LexAll(Fresh, o[..n]);
    LexAllStep(Fresh, o, n);
    assert o[..n + 1] == o;
    DropToZero(l, o[n]);
    TakeSnoc(o, n);
    TrimSpaceIdle(o);
    FeedClose(Splitter(prev, o[..n], l), o[n]);
  }

  /** Scanning a whole object from a clean state emits exactly that object and leaves the state clean. */
  lemma FeedObject(prev: seq<string>, o: string)
    requires Object(o)
    ensures FeedAll(Splitter(prev, "", Fresh), o) == Splitter(prev + [o], "", Fresh)
  {
    var s := Splitter(prev, "", Fresh);
    SingleBrace(o);
    var n := |o| - 1;
    FeedInside(prev, o, n);
    FeedAllStep(s, o, n);
    CloseObject(prev, o);
    assert o[..n + 1] == o;
  }

  lemma {:induction false} FeedGap(s: Splitter, g: string)
    requires s.current == "" && s.lexer == Fresh && Gap(g)
    ensures FeedAll(s, g) == s
    decreases |g|
  {
    if g != [] {
      FeedGap(s, g[..|g| - 1]);
    }
  }

  lemma HeadTail(prev: seq<string>, objs: seq<string>)
    requires |objs| >= 1
    ensures prev + [objs[0]] + objs[1..] == prev + objs
  {
    assert [objs[0]] + objs[1..] == objs;
  }

  lemma {:induction false} FeedJoin(prev: seq<string>, objs: seq<string>, gap: string)
    requires forall o :: o in objs ==> Object(o)
    requires Gap(gap)
    ensures FeedAll(Splitter(prev, "", Fresh), Join(objs, gap)) == Splitter(prev + objs, "", Fresh)
    decreases |objs|
  {
    var s := Splitter(prev, "", Fresh);
    if |objs| == 0 {
      assert prev + objs == prev;
    } else if |objs| == 1 {
      FeedObject(prev, objs[0]);
      assert objs == [objs[0]];
    } else {
      FeedAllAppend(s, objs[0] + gap, Join(objs[1..], gap));
      FeedAllAppend(s, objs[0], gap);
      FeedObject(prev, objs[0]);
      FeedGap(Splitter(prev + [objs[0]], "", Fresh), gap);
      FeedJoin(prev + [objs[0]], objs[1..], gap);
      HeadTail(prev, objs);
      assert objs[0] + gap + Join(objs[1..], gap) == (objs[0] + gap) + Join(objs[1..], gap);
    }
  }

  /** Well-formed objects separated by gaps come back one by one, in input order. */
  lemma SplitObjectsRoundTrip(objs: seq<string>, lead: string, gap: string, trail: string)
    requires forall o :: o in objs ==> Object(o)
    requires Gap(lead) && Gap(gap) && Gap(trail)
    ensures SplitObjects(lead + Join(objs, gap) + trail) == objs
  {
    FeedAllAppend(Start, lead + Join(objs, gap), trail);
    FeedAllAppend(Start, lead, Join(objs, gap));
    FeedGap(Start, lead);
    FeedJoin([], objs, gap);
    assert [] + objs == objs;
    FeedGap(Splitter(objs, "", Fresh), trail);
  }

  /** The loop of `splitConsecutiveJSONObjects`. */
  method SplitConsecutiveJSONObjects(text: string) returns (jsonObjects: seq<string>)
    ensures jsonObjects == SplitObjects(text)
    ensures forall o :: o in jsonObjects ==> Piece(o)
  {
    jsonObjects := [];
    var current := "";
    var braceCount, inString, escaped := 0, false, false;
    var i := 0;
    while i < |text|
      invariant 0 <= i <= |text|
      invariant FeedAll(Start, text[..i]) == Splitter(jsonObjects, current, Lexer(braceCount, inString, escaped))
    {
      FeedAllStep(Start, text, i);
      var c := text[i];
      i := i + 1;
      if escaped {
        escaped := false;
        current := current + [c];
        continue;
      }
      if c == '\\' {
        escaped := true;
        current := current + [c];
        continue;
      }
      if c == '"' {
        inString := !inString;
        current := current + [c];
        continue;
      }
      if !inString {
        if c == '{' {
          braceCount := braceCount + 1;
          current := current + [c];
        } else if c == '}' {
          braceCount := braceCount - 1;
          current := current + [c];
          if braceCount == 0 {
            var jsonObj := TrimSpace(current);
            if jsonObj != "" {
              jsonObjects := jsonObjects + [jsonObj];
            }
            current := "";
          }
        } else if braceCount > 0 {
          current := current + [c];
        }
      } else {
        current := current + [c];
      }
    }
    assert text[..i] == text;
    SplitObjectsPieces(text);
  }

  // ---------------------------------------------------------------------
  // containsConsecutiveJSONObjects

  predicate Squeezable(c: char)
  {
    c == ' ' || c == '\n' || c == '\t'
  }

  /** The text with spaces, newlines and tabs removed, one `strings.ReplaceAll` after the other. */
  function Squeezed(s: string): string
  {
    ReplaceAll(ReplaceAll(ReplaceAll(s, " ", ""), "\n", ""), "\t", "")
  }

  predicate ContainsConsecutiveJSONObjects(text: string)
  {
    ContainsStr(Squeezed(text), "}{")
  }

  /** A `}` followed by a `{` with nothing but spaces, newlines and tabs between them. */
  predicate Adjoining(text: string)
  {
    exists i, j :: 0 <= i < j < |text| && text[i] == '}' && text[j] == '{' && forall k :: i < k < j ==> Squeezable(text[k])
  }

  /** The non-squeezable runes of `s`, in order. */
  function Filter(s: string): string
  {
    if s == [] then [] else (if Squeezable(s[0]) then [] else [s[0]]) + Filter(s[1..])
  }

  lemma RemoveFront(x: char, r: string, c: char)
    ensures RemoveChar([x] + r, c) == (if x == c then [] else [x]) + RemoveChar(r, c)
  {
    assert ([x] + r)[0] == x && ([x] + r)[1..] == r;
  }

  lemma RemoveOne(x: char, c: char)
    ensures RemoveChar([x], c) == if x == c then [] else [x]
  {
    RemoveFront(x, [], c);
    assert [x] + [] == [x];
  }

  lemma {:induction false} SqueezedIsFilter(s: string)
    ensures Squeezed(s) == Filter(s)
    decreases |s|
  {
    ReplaceAllOneRune(s, ' ', "");
    ReplaceAllOneRune(RemoveChar(s, ' '), '\n', "");
    ReplaceAllOneRune(RemoveChar(RemoveChar(s, ' '), '\n'), '\t', "");
    assert Squeezed(s) == RemoveChar(RemoveChar(RemoveChar(s, ' '), '\n'), '\t');
    if s != [] {
      var x, r := s[0], s[1..];
      assert [x] + r == s;
      var p1 := if x == ' ' then [] else [x];
      RemoveFront(x, r, ' ');
      ReplaceCharAppend(p1, RemoveChar(r, ' '), '\n', "");
      var p2 := RemoveChar(p1, '\n');
      ReplaceCharAppend(p2, RemoveChar(RemoveChar(r, ' '), '\n'), '\t', "");
      RemoveOne(x, '\n');
      assert RemoveChar([], '\n') == [];
      if p2 != [] {
        RemoveOne(x, '\t');
      }
      assert RemoveChar(RemoveChar(RemoveChar(s, ' '), '\n'), '\t')
        == RemoveChar(p2, '\t') + RemoveChar(RemoveChar(RemoveChar(r, ' '), '\n'), '\t');
      SqueezedIsFilter(r);
      ReplaceAllOneRune(r, ' ', "");
      ReplaceAllOneRune(RemoveChar(r, ' '), '\n', "");
      ReplaceAllOneRune(RemoveChar(RemoveChar(r, ' '), '\n'), '\t', "");
    }
  }

  lemma ContainsCons(x: char, t: string)
    ensures ContainsStr([x] + t, "}{") <==> (x == '}' && |t| >= 1 && t[0] == '{') || ContainsStr(t, "}{")
  {
    var s := [x] + t;
    if ContainsStr(s, "}{") {
      var i :| 0 <= i <= |s| && OccursAt(s, "}{", i);
      if i > 0 {
        assert s[i..i + 2] == t[i - 1..i + 1];
        assert OccursAt(t, "}{", i - 1);
      } else {
        assert s[0] == '}' && s[1] == '{';
      }
    }
    if x == '}' && |t| >= 1 && t[0] == '{' {
      assert s[0..2] == "}{";
      assert OccursAt(s, "}{", 0);
    }
    if ContainsStr(t, "}{") {
      var i :| 0 <= i <= |t| && OccursAt(t, "}{", i);
      assert s[i + 1..i + 3] == t[i..i + 2];
      assert OccursAt(s, "}{", i + 1);
    }
  }

  /** A `{` preceded only by squeezable runes. */
  predicate OpensAfterBlanks(r: string)
  {
    exists j :: 0 <= j < |r| && r[j] == '{' && forall k :: 0 <= k < j ==> Squeezable(r[k])
  }

  lemma {:induction false} FilterHead(r: string)
    ensures (Filter(r) != [] && Filter(r)[0] == '{') <==> OpensAfterBlanks(r)
    decreases |r|
  {
    if r != [] {
      FilterHead(r[1..]);
      if Squeezable(r[0]) {
        if OpensAfterBlanks(r) {
          var j :| 0 <= j < |r| && r[j] == '{' && forall k :: 0 <= k < j ==> Squeezable(r[k]);
          assert j >= 1;
          assert r[1..][j - 1] == '{';
          assert forall k :: 0 <= k < j - 1 ==> Squeezable(r[1..][k]);
        }
        if OpensAfterBlanks(r[1..]) {
          var j :| 0 <= j < |r[1..]| && r[1..][j] == '{' && forall k :: 0 <= k < j ==> Squeezable(r[1..][k]);
          assert r[j + 1] == '{';
          assert forall k :: 0 <= k < j + 1 ==> Squeezable(r[k]);
        }
      } else {
        if OpensAfterBlanks(r) {
          var j :| 0 <= j < |r| && r[j] == '{' && forall k :: 0 <= k < j ==> Squeezable(r[k]);
          assert j == 0;
        }
      }
    }
  }

  lemma AdjoiningTail(x: char, r: string)
    requires Adjoining([x] + r)
    ensures (x == '}' && OpensAfterBlanks(r)) || Adjoining(r)
  {
    var s := [x] + r;
    var i, j :| 0 <= i < j < |s| && s[i] == '}' && s[j] == '{' && forall k :: i < k < j ==> Squeezable(s[k]);
    if i == 0 {
      assert r[j - 1] == '{';
      assert forall k :: 0 <= k < j - 1 ==> Squeezable(r[k]) by {
        forall k | 0 <= k < j - 1 ensures Squeezable(r[k]) {
          assert r[k] == s[k + 1];
        }
      }
    } else {
      assert r[i - 1] == '}' && r[j - 1] == '{';
      assert forall k :: i - 1 < k < j - 1 ==> Squeezable(r[k]) by {
        forall k | i - 1 < k < j - 1 ensures Squeezable(r[k]) {
          assert r[k] == s[k + 1];
        }
      }
    }
  }

  lemma AdjoiningFirst(r: string)
    requires OpensAfterBlanks(r)
    ensures Adjoining(['}'] + r)
  {
    var s := ['}'] + r;
    var j :| 0 <= j < |r| && r[j] == '{' && forall k :: 0 <= k < j ==> Squeezable(r[k]);
    assert s[0] == '}' && s[j + 1] == '{';
    assert forall k :: 0 < k < j + 1 ==> Squeezable(s[k]) by {
      forall k | 0 < k < j + 1 ensures Squeezable(s[k]) {
        assert s[k] == r[k - 1];
      }
    }
  }

  lemma AdjoiningShift(x: char, r: string)
    requires Adjoining(r)
    ensures Adjoining([x] + r)
  {
    var s := [x] + r;
    var i, j :| 0 <= i < j < |r| && r[i] == '}' && r[j] == '{' && forall k :: i < k < j ==> Squeezable(r[k]);
    assert s[i + 1] == '}' && s[j + 1] == '{';
    assert forall k :: i + 1 < k < j + 1 ==> Squeezable(s[k]) by {
      forall k | i + 1 < k < j + 1 ensures Squeezable(s[k]) {
        assert s[k] == r[k - 1];
      }
    }
  }

  lemma AdjoiningCons(x: char, r: string)
    ensures Adjoining([x] + r) <==> (x == '}' && OpensAfterBlanks(r)) || Adjoining(r)
  {
    if Adjoining([x] + r) {
      AdjoiningTail(x, r);
    }
    if x == '}' && OpensAfterBlanks(r) {
      AdjoiningFirst(r);
    }
    if Adjoining(r) {
      AdjoiningShift(x, r);
    }
  }

  lemma {:induction false} FilterAdjoining(s: string)
    ensures ContainsStr(Filter(s), "}{") <==> Adjoining(s)
    decreases |s|
  {
    if s == [] {
      assert !OccursAt(Filter(s), "}{", 0);
    } else {
      var x, r := s[0], s[1..];
      assert [x] + r == s;
      FilterAdjoining(r);
      AdjoiningCons(x, r);
      if Squeezable(x) {
        assert Filter(s) == Filter(r);
      } else {
        assert Filter(s) == [x] + Filter(r);
        ContainsCons(x, Filter(r));
        FilterHead(r);
      }
    }
  }

  /** `containsConsecutiveJSONObjects` holds exactly when a `}` and a `{` are separated only by spaces, newlines and tabs. */
  lemma ContainsConsecutiveIff(text: string)
    ensures ContainsConsecutiveJSONObjects(text) <==> Adjoining(text)
  {
    SqueezedIsFilter(text);
    FilterAdjoining(text);
  }

  // ---------------------------------------------------------------------
  // containsXMLWithDelimiter and splitXMLObjectsByDelimiter

  const Delimiter: string := "$$$$"

  predicate ContainsXMLWithDelimiter(text: string)
  {
    ContainsStr(text, Delimiter) || (ContainsStr(text, "<") && ContainsStr(text, ">"))
  }

  lemma ContainsRune(s: string, c: char)
    ensures ContainsStr(s, [c]) <==> c in s
  {
    if c in s {
      var i :| 0 <= i < |s| && s[i] == c;
      assert s[i..i + 1] == [c];
      assert OccursAt(s, [c], i);
    }
    if ContainsStr(s, [c]) {
      var i :| 0 <= i <= |s| && OccursAt(s, [c], i);
      assert s[i] == s[i..i + 1][0];
    }
  }

  /** `containsXMLWithDelimiter` holds exactly when the text has `$$$$`, or has both a `<` and a `>`. */
  lemma ContainsXMLIff(text: string)
    ensures ContainsXMLWithDelimiter(text) <==> ContainsStr(text, Delimiter) || ('<' in text && '>' in text)
  {
    ContainsRune(text, '<');
    ContainsRune(text, '>');
  }

  /** The trimmed parts that are not blank, in order. */
  function TrimmedPieces(parts: seq<string>): (r: seq<string>)
    ensures forall o :: o in r ==> o != "" && TrimSpace(o) == o
  {
    if parts == [] then []
    else
      var t := TrimSpace(parts[|parts| - 1]);
      TrimSpaceTwice(parts[|parts| - 1]);
      TrimmedPieces(parts[..|parts| - 1]) + (if t != "" then [t] else [])
  }

  lemma TrimSpaceTwice(s: string)
    ensures TrimSpace(TrimSpace(s)) == TrimSpace(s)
  {
    var t := TrimSpace(s);
    TrimSpaceShape(s);
    if t != [] {
      TrimSpaceIdle(t);
    }
  }

  /** What `splitXMLObjectsByDelimiter` returns. */
  function XMLObjects(text: string): seq<string>
  {
    var objs := TrimmedPieces(SplitAfter(text, Delimiter));
    if |objs| == 1 && objs[0] == TrimSpace(text) then
      if ContainsStr(text, "<") && ContainsStr(text, ">") then objs else []
    else objs
  }

  lemma TrimmedPiecesStep(parts: seq<string>, i: nat)
    requires i < |parts|
    ensures TrimmedPieces(parts[..i + 1])
         == TrimmedPieces(parts[..i]) + (if TrimSpace(parts[i]) != "" then [TrimSpace(parts[i])] else [])
  {
    assert parts[..i + 1][..i] == parts[..i];
  }

  /** The loop of `splitXMLObjectsByDelimiter`. */
  method SplitXMLObjectsByDelimiter(text: string) returns (xmlObjects: seq<string>)
    ensures xmlObjects == XMLObjects(text)
  {
    var parts := SplitAfter(text, Delimiter);
    xmlObjects := [];
    var i := 0;
    while i < |parts|
      invariant 0 <= i <= |parts|
      invariant xmlObjects == TrimmedPieces(parts[..i])
    {
      TrimmedPiecesStep(parts, i);
      var part := TrimSpace(parts[i]);
      if part != "" {
        xmlObjects := xmlObjects + [part];
      }
      i := i + 1;
    }
    assert parts[..i] == parts;
    if |xmlObjects| == 1 && xmlObjects[0] == TrimSpace(text) {
      if ContainsStr(text, "<") && ContainsStr(text, ">") {
        return xmlObjects;
      }
      return [];
    }
  }

  /** Trimming keeps a suffix made of non-space runes. */
  lemma TrimKeepsSuffix(s: string, d: string)
    requires d != [] && HasSuffix(s, d)
    requires forall i :: 0 <= i < |d| ==> !IsSpace(d[i])
    ensures HasSuffix(TrimSpace(s), d)
  {
    LeftKeepsSuffix(s, d);
    var l := TrimLeft(s);
    assert l[|l| - 1] == l[|l| - |d|..][|d| - 1] == d[|d| - 1];
    assert TrimRight(l) == l;
  }

  lemma LeftKeepsSuffix(s: string, d: string)
    requires d != [] && HasSuffix(s, d) && !IsSpace(d[0])
    ensures HasSuffix(TrimLeft(s), d)
  {
    var l := TrimLeft(s);
    var k := |s| - |l|;
    assert l == s[k..];
    assert s[|s| - |d|] == d[0];
    assert |l| >= |d|;
    assert s[k..][|l| - |d|..] == s[|s| - |d|..];
  }

  /** Trimming neither adds nor removes a rune that is not a space. */
  lemma LeftKeepsRune(s: string, c: char)
    requires !IsSpace(c)
    ensures c in TrimLeft(s) <==> c in s
  {
    var l := TrimLeft(s);
    var d := |s| - |l|;
    assert l == s[d..];
    if c in s {
      var i :| 0 <= i < |s| && s[i] == c;
      assert i >= d;
      assert s[d..][i - d] == s[i];
    }
    if c in l {
      var i :| 0 <= i < |l| && l[i] == c;
      assert s[i + d] == c;
    }
  }

  lemma RightKeepsRune(s: string, c: char)
    requires !IsSpace(c)
    ensures c in TrimRight(s) <==> c in s
  {
    var r := TrimRight(s);
    if c in s {
      var i :| 0 <= i < |s| && s[i] == c;
      assert i < |r|;
      assert r[i] == c;
    }
    if c in r {
      var i :| 0 <= i < |r| && r[i] == c;
      assert s[i] == c;
    }
  }

  lemma TrimKeepsRune(s: string, c: char)
    requires !IsSpace(c)
    ensures c in TrimSpace(s) <==> c in s
  {
    LeftKeepsRune(s, c);
    RightKeepsRune(TrimLeft(s), c);
  }


  lemma {:induction false} TrimmedPiecesSuffix(parts: seq<string>)
    requires forall m :: 0 <= m < |parts| ==> HasSuffix(parts[m], Delimiter)
    ensures forall o :: o in TrimmedPieces(parts) ==> HasSuffix(o, Delimiter)
    decreases |parts|
  {
    if parts != [] {
      TrimmedPiecesSuffix(parts[..|parts| - 1]);
      TrimKeepsSuffix(parts[|parts| - 1], Delimiter);
    }
  }

  lemma {:induction false} TrimmedPiecesButLast(parts: seq<string>)
    requires forall m :: 0 <= m < |parts| - 1 ==> HasSuffix(parts[m], Delimiter)
    ensures var r := TrimmedPieces(parts); forall k :: 0 <= k < |r| - 1 ==> HasSuffix(r[k], Delimiter)
  {
    if parts != [] {
      var front := parts[..|parts| - 1];
      TrimmedPiecesSuffix(front);
      var r := TrimmedPieces(parts);
      forall k | 0 <= k < |r| - 1
        ensures HasSuffix(r[k], Delimiter)
      {
        assert r[k] in TrimmedPieces(front);
      }
    }
  }

  /**
   * Every piece is non-blank and trimmed, every piece but the last keeps
   * its `$$$$`, and a lone piece that is the whole trimmed text is dropped
   * exactly when it lacks a `<` or a `>`.
   */
  lemma XMLObjectsShape(text: string)
    ensures forall o :: o in XMLObjects(text) ==> o != "" && TrimSpace(o) == o
    ensures var r := XMLObjects(text); forall k :: 0 <= k < |r| - 1 ==> HasSuffix(r[k], Delimiter)
    ensures var objs := TrimmedPieces(SplitAfter(text, Delimiter));
      |objs| == 1 && objs[0] == TrimSpace(text) ==>
        (XMLObjects(text) == [] <==> !('<' in objs[0] && '>' in objs[0]))
  {
    var parts := SplitAfter(text, Delimiter);
    SplitAfterPieces(text, Delimiter);
    TrimmedPiecesButLast(parts);
    var objs := TrimmedPieces(parts);
    assert XMLObjects(text) == objs || XMLObjects(text) == [];
    if |objs| == 1 && objs[0] == TrimSpace(text) {
      ContainsRune(text, '<');
      ContainsRune(text, '>');
      TrimKeepsRune(text, '<');
      TrimKeepsRune(text, '>');
    }
  }

  // ---------------------------------------------------------------------
  // Lines inside Markdown code fences
  //
  // The loop trims every line before it looks at it, so the fence logic is
  // stated over the trimmed lines `Trimmed(lines)`.

  /** Every line trimmed of surrounding white space. */
  function Trimmed(lines: seq<string>): (r: seq<string>)
    ensures |r| == |lines|
    ensures forall k :: 0 <= k < |lines| ==> r[k] == TrimSpace(lines[k])
  {
    seq(|lines|, k requires 0 <= k < |lines| => TrimSpace(lines[k]))
  }

  /** A trimmed line that toggles the code block: it starts with three backquotes. */
  predicate IsFence(line: string)
  {
    HasPrefix(line, "```")
  }

  /** How many fence lines `lines` holds. */
  function Fences(lines: seq<string>): nat
  {
    if lines == [] then 0
    else Fences(lines[..|lines| - 1]) + (if IsFence(lines[|lines| - 1]) then 1 else 0)
  }

  /** Trimmed line `k` is non-empty, not a fence, and follows an odd number of fences: inside a code block. */
  predicate InBlock(lines: seq<string>, k: nat)
    requires k < |lines|
  {
    !IsFence(lines[k]) && lines[k] != "" && Fences(lines[..k]) % 2 == 1
  }

  /** The trimmed lines inside code blocks, in order. */
  function InBlockLines(lines: seq<string>): seq<string>
  {
    if lines == [] then []
    else
      var n := |lines| - 1;
      InBlockLines(lines[..n]) + (if InBlock(lines, n) then [lines[n]] else [])
  }

  lemma InBlockPrefix(lines: seq<string>, m: nat, k: nat)
    requires k < m <= |lines|
    ensures InBlock(lines[..m], k) == InBlock(lines, k)
  {
    assert lines[..m][..k] == lines[..k];
  }

  lemma {:induction false} InBlockLinesHas(lines: seq<string>, k: nat)
    requires k < |lines| && InBlock(lines, k)
    ensures lines[k] in InBlockLines(lines)
    decreases |lines|
  {
    var n := |lines| - 1;
    var front := lines[..n];
    if k < n {
      InBlockPrefix(lines, n, k);
      InBlockLinesHas(front, k);
      assert front[k] == lines[k];
    } else {
      assert InBlockLines(lines) == InBlockLines(front) + [lines[n]];
    }
  }

  lemma {:induction false} InBlockLinesFrom(lines: seq<string>, x: string)
    requires x in InBlockLines(lines)
    ensures exists k :: 0 <= k < |lines| && InBlock(lines, k) && lines[k] == x
    decreases |lines|
  {
    var n := |lines| - 1;
    var front := lines[..n];
    if x in InBlockLines(front) {
      InBlockLinesFrom(front, x);
      var k :| 0 <= k < |front| && InBlock(front, k) && front[k] == x;
      InBlockPrefix(lines, n, k);
      assert InBlock(lines, k) && lines[k] == x;
    } else {
      assert InBlock(lines, n) && lines[n] == x;
    }
  }

  /** The fenced lines are exactly the trimmed lines inside code blocks. */
  lemma InBlockLinesMembers(lines: seq<string>, x: string)
    ensures x in InBlockLines(lines) <==> exists k :: 0 <= k < |lines| && InBlock(lines, k) && lines[k] == x
  {
    if x in InBlockLines(lines) {
      InBlockLinesFrom(lines, x);
    }
    if exists k :: 0 <= k < |lines| && InBlock(lines, k) && lines[k] == x {
      var k :| 0 <= k < |lines| && InBlock(lines, k) && lines[k] == x;
      InBlockLinesHas(lines, k);
    }
  }

  /** One step of the fence loop over trimmed lines. */
  lemma InBlockLinesStep(t: seq<string>, i: nat)
    requires i < |t|
    ensures (Fences(t[..i + 1]) % 2 == 1) == ((Fences(t[..i]) % 2 == 1) != IsFence(t[i]))
    ensures InBlockLines(t[..i + 1]) == InBlockLines(t[..i]) + (if InBlock(t, i) then [t[i]] else [])
  {
    assert t[..i + 1][..i] == t[..i];
    InBlockPrefix(t, i + 1, i);
  }

  /** The fence-toggling loop that `extractConsecutiveJSONFromText` and `extractConsecutiveXMLFromText` share. */
  method CollectFencedLines(lines: seq<string>) returns (kept: seq<string>)
    ensures kept == InBlockLines(Trimmed(lines))
  {
    ghost var t := Trimmed(lines);
    kept := [];
    var inCodeBlock := false;
    var i := 0;
    while i < |lines|
      invariant 0 <= i <= |lines|
      invariant inCodeBlock == (Fences(t[..i]) % 2 == 1)
      invariant kept == InBlockLines(t[..i])
    {
      InBlockLinesStep(t, i);
      var line := TrimSpace(lines[i]);
      assert line == t[i];
      i := i + 1;
      if HasPrefix(line, "```") {
        inCodeBlock := !inCodeBlock;
        continue;
      }
      if inCodeBlock && line != "" {
        kept := kept + [line];
      }
    }
    assert t[..i] == t;
  }

  /** Whether the consecutive-JSON or the XML detector accepts `s`. */
  predicate Detects(isJSON: bool, s: string)
  {
    if isJSON then ContainsConsecutiveJSONObjects(s) else ContainsXMLWithDelimiter(s)
  }

  /**
   * `extractConsecutiveJSONFromText` (`isJSON`) and
   * `extractConsecutiveXMLFromText`: the fenced lines joined by a space if
   * the detector accepts them, else the whole trimmed text if it accepts
   * that, else nothing.
   */
  function ExtractFromText(text: string, isJSON: bool): (r: string)
    ensures r == "" || Detects(isJSON, r)
    ensures r != "" && r != TrimSpace(text) ==> r == Join(InBlockLines(Trimmed(Split(text, '\n'))), " ")
  {
    var fenced := InBlockLines(Trimmed(Split(text, '\n')));
    if |fenced| > 0 && Detects(isJSON, Join(fenced, " ")) then Join(fenced, " ")
    else if Detects(isJSON, TrimSpace(text)) then TrimSpace(text)
    else ""
  }

  /** The pieces that are not blank once trimmed and that pass `valid`, trimmed, in order. */
  function ValidTrimmed(pieces: seq<string>, valid: string -> bool): (r: seq<string>)
    ensures forall o :: o in r ==> o != "" && valid(o)
  {
    if pieces == [] then []
    else
      var t := TrimSpace(pieces[|pieces| - 1]);
      ValidTrimmed(pieces[..|pieces| - 1], valid) + (if t != "" && valid(t) then [t] else [])
  }

  /**
   * `parseConsecutiveJSONObjects` (`isJSON`, split by braces) and
   * `parseConsecutiveXMLObjects` (split on `$$$$`), with the format
   * validator `valid`.
   */
  function ParseConsecutive(text: string, isJSON: bool, valid: string -> bool): seq<string>
  {
    var objectsText := ExtractFromText(text, isJSON);
    if objectsText == "" then []
    else ValidTrimmed(if isJSON then SplitObjects(objectsText) else XMLObjects(objectsText), valid)
  }

  /** The lines that pass `valid`, in order. */
  function ValidOnly(lines: seq<string>, valid: string -> bool): (r: seq<string>)
  {
    if lines == [] then []
    else ValidOnly(lines[..|lines| - 1], valid) + (if valid(lines[|lines| - 1]) then [lines[|lines| - 1]] else [])
  }

  lemma {:induction false} ValidOnlyMembers(lines: seq<string>, valid: string -> bool, x: string)
    ensures x in ValidOnly(lines, valid) <==> x in lines && valid(x)
    decreases |lines|
  {
    if lines != [] {
      var front := lines[..|lines| - 1];
      ValidOnlyMembers(front, valid, x);
      assert lines == front + [lines[|lines| - 1]];
    }
  }

  // ---------------------------------------------------------------------
  // parseGeneratedTestCases

  /**
   * The foreign pieces `parseGeneratedTestCases` relies on:
   * `parseJSONArrayTestCases` (a JSON decoder) and the validators
   * `ValidateJSONFormat` and `ValidateXMLFormat`.
   */
  datatype Decoders = Decoders(jsonArray: string -> seq<string>, validJSON: string -> bool, validXML: string -> bool)

  /** `r` is `xs` without repeats: the same elements, each once, in order of first occurrence. */
  ghost predicate DedupOf(r: seq<string>, xs: seq<string>)
  {
    NoDuplicates(r)
    && (forall x :: x in r <==> x in xs)
    && forall a, b :: 0 <= a < b < |r| ==> FirstIndex(xs, r[a]) < FirstIndex(xs, r[b])
  }

  lemma FirstIndexExtend(s: seq<string>, t: seq<string>, y: string)
    requires y in s
    ensures FirstIndex(s + t, y) == FirstIndex(s, y)
  {
    var n := FirstIndex(s, y);
    assert (s + t)[..n] == s[..n];
    FirstIndexAt(s + t, y, n);
  }

  /** Meeting one more candidate: keep it if it is new, skip it if it was seen. */
  lemma DedupSnoc(r: seq<string>, xs: seq<string>, x: string)
    requires DedupOf(r, xs)
    ensures DedupOf(if x in r then r else r + [x], xs + [x])
  {
    var xs' := xs + [x];
    forall y | y in r
      ensures FirstIndex(xs', y) == FirstIndex(xs, y)
    {
      FirstIndexExtend(xs, [x], y);
    }
    if x !in r {
      var r' := r + [x];
      FirstIndexAt(xs', x, |xs|);
      forall a, b | 0 <= a < b < |r'|
        ensures FirstIndex(xs', r'[a]) < FirstIndex(xs', r'[b])
      {
        assert r'[a] in r;
        if b == |r| {
          assert FirstIndex(xs, r'[a]) < |xs|;
        } else {
          assert r'[b] in r;
        }
      }
    } else {
      forall a, b | 0 <= a < b < |r|
        ensures FirstIndex(xs', r[a]) < FirstIndex(xs', r[b])
      {
        assert r[a] in r && r[b] in r;
      }
    }
  }

  /** `DedupSnoc` for the prefix `xs[..i]` growing by `xs[i]`. */
  lemma DedupStep(r: seq<string>, xs: seq<string>, i: nat)
    requires i < |xs| && DedupOf(r, xs[..i])
    ensures DedupOf(if xs[i] in r then r else r + [xs[i]], xs[..i + 1])
  {
    TakeSnoc(xs, i);
    DedupSnoc(r, xs[..i], xs[i]);
  }

  /** The `seenTestCases` map marks exactly the cases kept so far. */
  ghost predicate SeenMatches(seen: map<string, bool>, testCases: seq<string>)
  {
    (forall k :: k in seen <==> k in testCases) && forall k :: k in seen ==> seen[k]
  }

  /** One `if !seenTestCases[x]` step: append `x` unless it was kept before. */
  method AddUnseen(testCases: seq<string>, seen: map<string, bool>, x: string)
    returns (testCases': seq<string>, seen': map<string, bool>)
    requires SeenMatches(seen, testCases)
    ensures testCases' == if x in testCases then testCases else testCases + [x]
    ensures SeenMatches(seen', testCases')
  {
    testCases', seen' := testCases, seen;
    if !(x in seen && seen[x]) {
      testCases' := testCases + [x];
      seen' := seen[x := true];
    }
  }

  /** The `seenTestCases` loop: append each candidate not seen before. */
  method KeepFirst(candidates: seq<string>) returns (testCases: seq<string>)
    ensures DedupOf(testCases, candidates)
  {
    testCases := [];
    var seen: map<string, bool> := map[];
    var i := 0;
    while i < |candidates|
      invariant 0 <= i <= |candidates|
      invariant SeenMatches(seen, testCases)
      invariant DedupOf(testCases, candidates[..i])
    {
      var testCase := candidates[i];
      DedupStep(testCases, candidates, i);
      testCases, seen := AddUnseen(testCases, seen, testCase);
      i := i + 1;
    }
    assert candidates[..i] == candidates;
  }

  /** The list `parseGeneratedTestCases` de-duplicates: the first strategy for `format` that finds anything, else the fenced lines. */
  function Candidates(text: string, format: string, v: Decoders): seq<string>
  {
    if format == "json" && |v.jsonArray(text)| > 0 then v.jsonArray(text)
    else if format == "json" && |ParseConsecutive(text, true, v.validJSON)| > 0 then ParseConsecutive(text, true, v.validJSON)
    else if format == "xml" && |ParseConsecutive(text, false, v.validXML)| > 0 then ParseConsecutive(text, false, v.validXML)
    else ValidOnly(InBlockLines(Trimmed(Split(text, '\n'))), if format == "xml" then v.validXML else v.validJSON)
  }

  /** In the line-based fallback, a kept case is a trimmed line inside a code block that passes the validator, and every such line is kept. */
  lemma FallbackKeeps(text: string, valid: string -> bool, x: string)
    ensures var t := Trimmed(Split(text, '\n'));
      x in ValidOnly(InBlockLines(t), valid) <==>
        valid(x) && exists k :: 0 <= k < |t| && InBlock(t, k) && t[k] == x
  {
    var t := Trimmed(Split(text, '\n'));
    ValidOnlyMembers(InBlockLines(t), valid, x);
    InBlockLinesMembers(t, x);
  }

  lemma ValidOnlySnoc(lines: seq<string>, valid: string -> bool, y: string)
    ensures ValidOnly(lines + [y], valid) == ValidOnly(lines, valid) + (if valid(y) then [y] else [])
  {
    assert (lines + [y])[..|lines|] == lines;
  }

  /** One line of the fallback loop: the valid fenced lines grow by the line exactly when it is inside a block and valid. */
  lemma ValidFencedStep(t: seq<string>, i: nat, valid: string -> bool)
    requires i < |t|
    ensures (Fences(t[..i + 1]) % 2 == 1) == ((Fences(t[..i]) % 2 == 1) != IsFence(t[i]))
    ensures ValidOnly(InBlockLines(t[..i + 1]), valid)
         == ValidOnly(InBlockLines(t[..i]), valid) + (if InBlock(t, i) && valid(t[i]) then [t[i]] else [])
  {
    InBlockLinesStep(t, i);
    var front := InBlockLines(t[..i]);
    if InBlock(t, i) {
      assert InBlockLines(t[..i + 1]) == front + [t[i]];
      ValidOnlySnoc(front, valid, t[i]);
    } else {
      assert InBlockLines(t[..i + 1]) == front;
    }
  }

  /** The last strategy of `parseGeneratedTestCases`: the valid trimmed lines inside code blocks, without repeats. */
  method KeepFencedLines(lines: seq<string>, valid: string -> bool) returns (testCases: seq<string>)
    ensures DedupOf(testCases, ValidOnly(InBlockLines(Trimmed(lines)), valid))
  {
    ghost var t := Trimmed(lines);
    testCases := [];
    var seen: map<string, bool> := map[];
    var inCodeBlock := false;
    var i := 0;
    while i < |lines|
      invariant 0 <= i <= |lines|
      invariant inCodeBlock == (Fences(t[..i]) % 2 == 1)
      invariant SeenMatches(seen, testCases)
      invariant DedupOf(testCases, ValidOnly(InBlockLines(t[..i]), valid))
    {
      ValidFencedStep(t, i, valid);
      ghost var before := ValidOnly(InBlockLines(t[..i]), valid);
      ghost var after := ValidOnly(InBlockLines(t[..i + 1]), valid);
      var line := TrimSpace(lines[i]);
      assert line == t[i];
      i := i + 1;
      if line == "" {
        assert after == before;
        continue;
      }
      if HasPrefix(line, "```") {
        inCodeBlock := !inCodeBlock;
        assert after == before;
        continue;
      }
      if !inCodeBlock {
        assert after == before;
        continue;
      }
      if valid(line) {
        assert after == before + [line];
        DedupSnoc(testCases, before, line);
        testCases, seen := AddUnseen(testCases, seen, line);
      } else {
        assert after == before;
      }
    }
    assert t[..i] == t;
  }

  /**
   * `parseGeneratedTestCases(text, format)`: JSON arrays, then consecutive
   * JSON objects, then consecutive XML documents, then the fenced lines,
   * each time without repeats and in order of first occurrence.
   */
  method ParseGeneratedTestCases(text: string, format: string, v: Decoders) returns (testCases: seq<string>)
    ensures DedupOf(testCases, Candidates(text, format, v))
  {
    if format == "json" {
      var arrayTestCases := v.jsonArray(text);
      if |arrayTestCases| > 0 {
        testCases := KeepFirst(arrayTestCases);
        return;
      }
      var consecutiveTestCases := ParseConsecutive(text, true, v.validJSON);
      if |consecutiveTestCases| > 0 {
        testCases := KeepFirst(consecutiveTestCases);
        return;
      }
    }
    if format == "xml" {
      var consecutiveTestCases := ParseConsecutive(text, false, v.validXML);
      if |consecutiveTestCases| > 0 {
        testCases := KeepFirst(consecutiveTestCases);
        return;
      }
    }
    var valid := if format == "xml" then v.validXML else v.validJSON;
    testCases := KeepFencedLines(Split(text, '\n'), valid);
  }
}

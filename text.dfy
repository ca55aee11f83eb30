/**
 * The parts of Go's `strings` and `strconv` packages that the core uses, over
 * strings of runes (`seq<char>`).  Each function is written the way the Go
 * library behaves for the arguments the core passes it (single-rune or fixed
 * separators, base-10 integers).
 */
module Text {
  import opened Wrappers

  /**
   * `unicode.IsSpace`: the Latin-1 spaces and controls, then the Unicode
   * White_Space runes above Latin-1 (Ogham space mark, the typographic
   * spaces, line and paragraph separators, and the ideographic space).
   */
  predicate IsSpace(c: char)
  {
    c == ' ' || c == '\t' || c == '\n' || c == '\r' || c == '\U{000B}' || c == '\U{000C}'
    || c == '\U{0085}' || c == '\U{00A0}'
    || c == '\U{1680}' || '\U{2000}' <= c <= '\U{200A}' || c == '\U{2028}' || c == '\U{2029}'
    || c == '\U{202F}' || c == '\U{205F}' || c == '\U{3000}'
  }

  predicate IsDigit(c: char)
  {
    '0' <= c <= '9'
  }

  predicate AllDigits(s: string)
  {
    forall i :: 0 <= i < |s| ==> IsDigit(s[i])
  }

  /** `strings.HasPrefix`. */
  predicate HasPrefix(s: string, p: string)
  {
    |p| <= |s| && s[..|p|] == p
  }

  /** `strings.HasSuffix`. */
  predicate HasSuffix(s: string, p: string)
  {
    |p| <= |s| && s[|s| - |p|..] == p
  }

  /** `sub` occurs in `s` at position `i`. */
  predicate OccursAt(s: string, sub: string, i: int)
  {
    0 <= i && i + |sub| <= |s| && s[i..i + |sub|] == sub
  }

  /** `strings.Contains`. */
  predicate ContainsStr(s: string, sub: string)
  {
    exists i :: 0 <= i <= |s| && OccursAt(s, sub, i)
  }

  /** Number of occurrences of the rune `c` in `s`. */
  function Count(s: string, c: char): nat
  {
    if s == [] then 0 else (if s[0] == c then 1 else 0) + Count(s[1..], c)
  }

  /** The first position at or after `from` where `sub` occurs (`strings.Index` when `from` is 0). */
  function IndexFrom(s: string, sub: string, from: nat): (r: Option<nat>)
    requires from <= |s|
    decreases |s| - from
    ensures r.Some? ==> from <= r.value && OccursAt(s, sub, r.value)
    ensures r.Some? ==> forall j :: from <= j < r.value ==> !OccursAt(s, sub, j)
    ensures r.None? ==> forall j :: from <= j ==> !OccursAt(s, sub, j)
  {
    if from + |sub| > |s| then None
    else if s[from..from + |sub|] == sub then Some(from)
    else IndexFrom(s, sub, from + 1)
  }

  function Index(s: string, sub: string): Option<nat>
  {
    IndexFrom(s, sub, 0)
  }

  lemma IndexNoneIffAbsent(s: string, sub: string)
    ensures Index(s, sub).None? <==> !ContainsStr(s, sub)
  {
  }

  /** Replaces every occurrence of the rune `c` by `rep`: what `strings.ReplaceAll` does for a one-rune pattern. */
  function ReplaceChar(s: string, c: char, rep: string): string
  {
    if s == [] then [] else (if s[0] == c then rep else [s[0]]) + ReplaceChar(s[1..], c, rep)
  }

  /**
   * `strings.ReplaceAll(s, pat, rep)` for a non-empty `pat`: leftmost,
   * non-overlapping occurrences, scanning from the left.
   */
  function ReplaceAll(s: string, pat: string, rep: string): string
    requires |pat| > 0
    decreases |s|
  {
    if |s| < |pat| then s
    else if s[..|pat|] == pat then rep + ReplaceAll(s[|pat|..], pat, rep)
    else [s[0]] + ReplaceAll(s[1..], pat, rep)
  }

  lemma {:induction false} ReplaceAllOneRune(s: string, c: char, rep: string)
    ensures ReplaceAll(s, [c], rep) == ReplaceChar(s, c, rep)
    decreases |s|
  {
    if s != [] {
      ReplaceAllOneRune(s[1..], c, rep);
      assert s[..1] == [c] <==> s[0] == c;
    }
  }

  lemma {:induction false} ReplaceCharAppend(a: string, b: string, c: char, rep: string)
    ensures ReplaceChar(a + b, c, rep) == ReplaceChar(a, c, rep) + ReplaceChar(b, c, rep)
    decreases |a|
  {
    if a != [] {
      assert (a + b)[1..] == a[1..] + b;
      ReplaceCharAppend(a[1..], b, c, rep);
    } else {
      assert a + b == b;
    }
  }

  lemma {:induction false} ReplaceCharAbsent(s: string, c: char, rep: string)
    requires c !in s
    ensures ReplaceChar(s, c, rep) == s
    decreases |s|
  {
    if s != [] {
      ReplaceCharAbsent(s[1..], c, rep);
    }
  }

  lemma {:induction false} ReplaceCharRemoves(s: string, c: char, rep: string)
    requires c !in rep
    ensures c !in ReplaceChar(s, c, rep)
    decreases |s|
  {
    if s != [] {
      ReplaceCharRemoves(s[1..], c, rep);
    }
  }

  /** Removes every occurrence of the rune `c` (`strings.ReplaceAll(s, c, "")`). */
  function RemoveChar(s: string, c: char): string
  {
    ReplaceChar(s, c, "")
  }

  // ---------------------------------------------------------------- trimming

  function TrimLeft(s: string): (r: string)
    ensures |r| <= |s| && r == s[|s| - |r|..]
    ensures r != [] ==> !IsSpace(r[0])
    ensures forall i :: 0 <= i < |s| - |r| ==> IsSpace(s[i])
  {
    if s != [] && IsSpace(s[0]) then TrimLeft(s[1..]) else s
  }

  function TrimRight(s: string): (r: string)
    ensures |r| <= |s| && r == s[..|r|]
    ensures r != [] ==> !IsSpace(r[|r| - 1])
    ensures forall i :: |r| <= i < |s| ==> IsSpace(s[i])
  {
    if s != [] && IsSpace(s[|s| - 1]) then TrimRight(s[..|s| - 1]) else s
  }

  /** `strings.TrimSpace`: drops leading and trailing white space. */
  function TrimSpace(s: string): string
  {
    TrimRight(TrimLeft(s))
  }

  lemma TrimSpaceShape(s: string)
    ensures var t := TrimSpace(s);
      t != [] ==> !IsSpace(t[0]) && !IsSpace(t[|t| - 1])
  {
    var l := TrimLeft(s);
    var t := TrimRight(l);
    if t != [] {
      assert t[0] == l[0];
    }
  }

  lemma TrimSpaceIdle(s: string)
    requires s != [] && !IsSpace(s[0]) && !IsSpace(s[|s| - 1])
    ensures TrimSpace(s) == s
  {
  }

  /** A string whose runes are all white space trims to the empty string, and only such a string does. */
  lemma TrimSpaceEmpty(s: string)
    ensures TrimSpace(s) == [] <==> forall i :: 0 <= i < |s| ==> IsSpace(s[i])
  {
    var l := TrimLeft(s);
    if l != [] {
      assert !IsSpace(l[0]) && TrimRight(l) != [];
    }
  }

  /** Trimming removes only white space from either end, so a trimmed string is a slice of the original. */
  lemma TrimSpaceSlice(s: string)
    ensures exists a, b :: 0 <= a <= b <= |s| && TrimSpace(s) == s[a..b]
  {
    var l := TrimLeft(s);
    var t := TrimRight(l);
    var a := |s| - |l|;
    assert t == s[a..a + |t|];
  }

  // ---------------------------------------------------------------- splitting and joining

  /** `strings.Split(s, sep)` for a one-rune separator: there is always at least one piece. */
  function Split(s: string, sep: char): (parts: seq<string>)
    ensures |parts| >= 1
  {
    if s == [] then [[]]
    else
      var rest := Split(s[1..], sep);
      if s[0] == sep then [[]] + rest else [[s[0]] + rest[0]] + rest[1..]
  }

  /** `strings.Join`. */
  function Join(parts: seq<string>, sep: string): string
  {
    if |parts| == 0 then []
    else if |parts| == 1 then parts[0]
    else parts[0] + sep + Join(parts[1..], sep)
  }

  /** Concatenation of all pieces (`strings.Join(parts, "")`). */
  function Concat(parts: seq<string>): string
  {
    if parts == [] then [] else parts[0] + Concat(parts[1..])
  }

  lemma {:induction false} SplitJoin(s: string, sep: char)
    ensures Join(Split(s, sep), [sep]) == s
    ensures forall p :: p in Split(s, sep) ==> sep !in p
    ensures |Split(s, sep)| == Count(s, sep) + 1
    decreases |s|
  {
    if s != [] {
      var rest := Split(s[1..], sep);
      SplitJoin(s[1..], sep);
      if s[0] == sep {
        assert Split(s, sep) == [[]] + rest;
        assert Join([[]] + rest, [sep]) == [] + [sep] + Join(rest, [sep]);
      } else {
        var parts := [[s[0]] + rest[0]] + rest[1..];
        if |rest| == 1 {
          assert Join(parts, [sep]) == [s[0]] + rest[0];
        } else {
          assert Join(rest, [sep]) == rest[0] + [sep] + Join(rest[1..], [sep]);
          assert parts[1..] == rest[1..];
        }
        assert rest[0] in rest;
      }
    }
  }

  /** Joining separator-free pieces with a one-rune separator yields one separator fewer than pieces. */
  lemma {:induction false} CountJoin(parts: seq<string>, sep: char)
    requires |parts| >= 1
    requires forall p :: p in parts ==> sep !in p
    ensures Count(Join(parts, [sep]), sep) == |parts| - 1
    decreases |parts|
  {
    assert parts[0] in parts;
    CountAbsent(parts[0], sep);
    if |parts| > 1 {
      assert forall p :: p in parts[1..] ==> p in parts;
      CountJoin(parts[1..], sep);
      CountAppend(parts[0], [sep] + Join(parts[1..], [sep]), sep);
      CountAppend([sep], Join(parts[1..], [sep]), sep);
      assert parts[0] + [sep] + Join(parts[1..], [sep]) == parts[0] + ([sep] + Join(parts[1..], [sep]));
    }
  }

  /** A string without the separator splits into itself. */
  lemma {:induction false} SplitAbsent(s: string, sep: char)
    requires sep !in s
    ensures Split(s, sep) == [s]
    decreases |s|
  {
    if s != [] {
      SplitAbsent(s[1..], sep);
      assert [s[0]] + s[1..] == s;
    }
  }

  /** Splitting at a separator placed between `a` and `b` splits each side on its own. */
  lemma {:induction false} SplitAround(a: string, b: string, sep: char)
    ensures Split(a + [sep] + b, sep) == Split(a, sep) + Split(b, sep)
    decreases |a|
  {
    var s := a + [sep] + b;
    if a == [] {
      assert s == [sep] + b;
      assert s[1..] == b;
    } else {
      assert s[1..] == a[1..] + [sep] + b;
      SplitAround(a[1..], b, sep);
    }
  }

  /** Joining separator-free pieces and splitting again gives the pieces back. */
  lemma {:induction false} JoinSplit(parts: seq<string>, sep: char)
    requires |parts| >= 1
    requires forall p :: p in parts ==> sep !in p
    ensures Split(Join(parts, [sep]), sep) == parts
    decreases |parts|
  {
    assert parts[0] in parts;
    SplitAbsent(parts[0], sep);
    if |parts| > 1 {
      assert forall p :: p in parts[1..] ==> p in parts;
      JoinSplit(parts[1..], sep);
      SplitAround(parts[0], Join(parts[1..], [sep]), sep);
      assert parts == [parts[0]] + parts[1..];
    }
  }

  /** A join ends with its last piece. */
  lemma {:induction false} JoinLast(parts: seq<string>, sep: string)
    requires |parts| >= 1
    ensures HasSuffix(Join(parts, sep), parts[|parts| - 1])
    decreases |parts|
  {
    if |parts| > 1 {
      JoinLast(parts[1..], sep);
      var j := Join(parts[1..], sep);
      var last := parts[|parts| - 1];
      assert Join(parts, sep) == (parts[0] + sep) + j;
      assert (parts[0] + sep + j)[|parts[0] + sep + j| - |last|..] == j[|j| - |last|..];
    }
  }

  lemma {:induction false} CountAbsent(s: string, c: char)
    requires c !in s
    ensures Count(s, c) == 0
    decreases |s|
  {
    if s != [] {
      CountAbsent(s[1..], c);
    }
  }

  lemma {:induction false} CountAppend(a: string, b: string, c: char)
    ensures Count(a + b, c) == Count(a, c) + Count(b, c)
    decreases |a|
  {
    if a != [] {
      assert (a + b)[1..] == a[1..] + b;
      CountAppend(a[1..], b, c);
    } else {
      assert a + b == b;
    }
  }

  /**
   * `strings.SplitAfter(s, d)` for a non-empty delimiter: cut after each
   * leftmost occurrence of `d`, keeping it at the end of its piece.
   */
  function SplitAfter(s: string, d: string): (parts: seq<string>)
    requires |d| > 0
    ensures |parts| >= 1
    decreases |s|
  {
    match Index(s, d)
    case None => [s]
    case Some(i) => [s[..i + |d|]] + SplitAfter(s[i + |d|..], d)
  }

  lemma {:induction false} SplitAfterConcat(s: string, d: string)
    requires |d| > 0
    ensures Concat(SplitAfter(s, d)) == s
    decreases |s|
  {
    match Index(s, d)
    case None =>
    case Some(i) =>
      var head := s[..i + |d|];
      var rest := s[i + |d|..];
      var tail := SplitAfter(rest, d);
      assert SplitAfter(s, d) == [head] + tail;
      SplitAfterConcat(rest, d);
      ConcatCons(head, tail);
      assert s == head + rest;
  }

  lemma ConcatCons(head: string, tail: seq<string>)
    ensures Concat([head] + tail) == head + Concat(tail)
  {
    assert ([head] + tail)[1..] == tail;
  }

  lemma {:induction false} SplitAfterLast(s: string, d: string)
    requires |d| > 0
    ensures !ContainsStr(SplitAfter(s, d)[|SplitAfter(s, d)| - 1], d)
    decreases |s|
  {
    match Index(s, d)
    case None =>
      IndexNoneIffAbsent(s, d);
    case Some(i) =>
      var rest := s[i + |d|..];
      SplitAfterLast(rest, d);
      var parts := SplitAfter(s, d);
      var tail := SplitAfter(rest, d);
      assert parts == [s[..i + |d|]] + tail;
      assert parts[|parts| - 1] == tail[|tail| - 1];
  }

  /** The piece that ends at the first occurrence of `d` ends with `d`. */
  lemma CutEndsWith(s: string, d: string, i: nat)
    requires OccursAt(s, d, i)
    ensures HasSuffix(s[..i + |d|], d)
  {
    assert s[..i + |d|][i..] == s[i..i + |d|];
  }

  lemma {:induction false} SplitAfterSuffixes(s: string, d: string)
    requires |d| > 0
    ensures forall k :: 0 <= k < |SplitAfter(s, d)| - 1 ==> HasSuffix(SplitAfter(s, d)[k], d)
    decreases |s|
  {
    match Index(s, d)
    case None =>
    case Some(i) =>
      var rest := s[i + |d|..];
      SplitAfterSuffixes(rest, d);
      var parts := SplitAfter(s, d);
      var tail := SplitAfter(rest, d);
      assert parts == [s[..i + |d|]] + tail;
      CutEndsWith(s, d, i);
      forall k | 0 <= k < |parts| - 1 ensures HasSuffix(parts[k], d) {
        if k > 0 {
          assert parts[k] == tail[k - 1];
        }
      }
  }


  lemma SplitAfterPieces(s: string, d: string)
    requires |d| > 0
    ensures Concat(SplitAfter(s, d)) == s
    ensures forall k :: 0 <= k < |SplitAfter(s, d)| - 1 ==> HasSuffix(SplitAfter(s, d)[k], d)
    ensures !ContainsStr(SplitAfter(s, d)[|SplitAfter(s, d)| - 1], d)
  {
    SplitAfterConcat(s, d);
    SplitAfterSuffixes(s, d);
    SplitAfterLast(s, d);
  }


  /** The part before the first `c` and the part after it, if `c` occurs: `strings.SplitN(s, c, 2)`. */
  function SplitOnce(s: string, c: char): (r: Option<(string, string)>)
    ensures r.None? <==> c !in s
    ensures r.Some? ==> s == r.value.0 + [c] + r.value.1 && c !in r.value.0
  {
    if s == [] then None
    else if s[0] == c then Some(([], s[1..]))
    else
      match SplitOnce(s[1..], c)
      case None => None
      case Some(p) => Some(([s[0]] + p.0, p.1))
  }

  // ---------------------------------------------------------------- case mapping

  /**
   * `unicode.ToLower` on ASCII and Latin-1 letters, and on the runes
   * outside Latin-1 that lower-case into it: the Kelvin sign, capital I
   * with a dot above, capital Y with diaeresis, the angstrom sign and
   * capital sharp s.
   */
  function LowerRune(c: char): char
  {
    if 'A' <= c <= 'Z' || ('\U{00C0}' <= c <= '\U{00DE}' && c != '\U{00D7}') then (c as int + 32) as char
    else if c == '\U{212A}' then 'k'
    else if c == '\U{0130}' then 'i'
    else if c == '\U{0178}' then '\U{00FF}'
    else if c == '\U{212B}' then '\U{00E5}'
    else if c == '\U{1E9E}' then '\U{00DF}'
    else c
  }

  /**
   * `unicode.ToUpper` on ASCII and Latin-1 letters (`ÿ` and `µ` leave
   * Latin-1), and on the two runes outside it that upper-case into ASCII:
   * the long s and the dotless i.
   */
  function UpperRune(c: char): char
  {
    if 'a' <= c <= 'z' || ('\U{00E0}' <= c <= '\U{00FE}' && c != '\U{00F7}') then (c as int - 32) as char
    else if c == '\U{00FF}' then '\U{0178}'
    else if c == '\U{00B5}' then '\U{039C}'
    else if c == '\U{017F}' then 'S'
    else if c == '\U{0131}' then 'I'
    else c
  }

  /** `strings.ToLower`, rune by rune. */
  function ToLower(s: string): (r: string)
    ensures |r| == |s|
    ensures forall i :: 0 <= i < |s| ==> r[i] == LowerRune(s[i])
  {
    seq(|s|, i requires 0 <= i < |s| => LowerRune(s[i]))
  }

  /** `strings.ToUpper`, rune by rune. */
  function ToUpper(s: string): (r: string)
    ensures |r| == |s|
    ensures forall i :: 0 <= i < |s| ==> r[i] == UpperRune(s[i])
  {
    seq(|s|, i requires 0 <= i < |s| => UpperRune(s[i]))
  }

  /** `strings.Repeat(string(c), n)`. */
  function Repeat(c: char, n: nat): (r: string)
    ensures |r| == n && forall i :: 0 <= i < n ==> r[i] == c
  {
    seq(n, _ => c)
  }

  // ---------------------------------------------------------------- UTF-8 length

  /** Number of bytes the UTF-8 encoding of the rune `c` takes. */
  function Utf8Width(c: char): nat
  {
    if c as int < 0x80 then 1 else if c as int < 0x800 then 2 else if c as int < 0x10000 then 3 else 4
  }

  /** Go's `len(s)`: the number of bytes of the UTF-8 encoding. */
  function ByteLen(s: string): (n: nat)
    ensures n >= |s|
  {
    if s == [] then 0 else Utf8Width(s[0]) + ByteLen(s[1..])
  }

  predicate IsAscii(s: string)
  {
    forall i :: 0 <= i < |s| ==> s[i] as int < 0x80
  }

  lemma {:induction false} AsciiByteLen(s: string)
    requires IsAscii(s)
    ensures ByteLen(s) == |s|
    decreases |s|
  {
    if s != [] {
      AsciiByteLen(s[1..]);
    }
  }

  /**
   * Go's view of a string as bytes: the UTF-8 encoding of `s`, each byte
   * held as the rune of the same value (U+0000 to U+00FF).
   */
  function Utf8Bytes(s: string): (b: string)
    ensures |b| == ByteLen(s) && IsBytes(b)
  {
    if s == [] then [] else Utf8Rune(s[0]) + Utf8Bytes(s[1..])
  }

  lemma Utf8Cons(c: char, s: string)
    ensures Utf8Bytes([c] + s) == Utf8Rune(c) + Utf8Bytes(s)
  {
    assert ([c] + s)[1..] == s;
  }

  predicate IsBytes(b: string)
  {
    forall i :: 0 <= i < |b| ==> b[i] as int < 0x100
  }

  /** The one to four bytes that encode `c`. */
  function Utf8Rune(c: char): (b: string)
    ensures |b| == Utf8Width(c) && IsBytes(b)
    ensures c as int < 0x80 ==> b == [c]
    ensures c as int >= 0x80 ==> b[0] as int >= 0xC0
  {
    var n := c as int;
    if n < 0x80 then [c]
    else if n < 0x800 then [(0xC0 + n / 64) as char, (0x80 + n % 64) as char]
    else if n < 0x10000 then
      [(0xE0 + n / 64 / 64) as char, (0x80 + n / 64 % 64) as char, (0x80 + n % 64) as char]
    else
      [(0xF0 + n / 64 / 64 / 64) as char, (0x80 + n / 64 / 64 % 64) as char, (0x80 + n / 64 % 64) as char, (0x80 + n % 64) as char]
  }

  /** A string is ASCII exactly when its bytes are, and then it is its own encoding. */
  lemma Utf8Ascii(s: string)
    ensures IsAscii(Utf8Bytes(s)) <==> IsAscii(s)
    ensures IsAscii(s) ==> Utf8Bytes(s) == s
  {
    if IsAscii(s) {
      AsciiOwnBytes(s);
    }
    if IsAscii(Utf8Bytes(s)) {
      AsciiBytesAscii(s);
    }
  }

  lemma {:induction false} AsciiOwnBytes(s: string)
    requires IsAscii(s)
    ensures Utf8Bytes(s) == s
    decreases |s|
  {
    if s != [] {
      assert s[0] as int < 0x80;
      assert IsAscii(s[1..]) by {
        forall i | 0 <= i < |s[1..]| ensures s[1..][i] as int < 0x80 {
          assert s[1..][i] == s[i + 1];
        }
      }
      AsciiOwnBytes(s[1..]);
      assert s == [s[0]] + s[1..];
    }
  }

  lemma {:induction false} AsciiBytesAscii(s: string)
    requires IsAscii(Utf8Bytes(s))
    ensures IsAscii(s)
    decreases |s|
  {
    if s != [] {
      var head := Utf8Rune(s[0]);
      var tail := Utf8Bytes(s[1..]);
      var b := Utf8Bytes(s);
      assert b == head + tail;
      assert b[0] == head[0];
      assert s[0] as int < 0x80;
      assert IsAscii(tail) by {
        forall i | 0 <= i < |tail| ensures tail[i] as int < 0x80 {
          assert b[|head| + i] == tail[i];
        }
      }
      AsciiBytesAscii(s[1..]);
      forall i | 0 <= i < |s| ensures s[i] as int < 0x80 {
        if i > 0 {
          assert s[i] == s[1..][i - 1];
        }
      }
    }
  }

  /** `utf8.DecodeRuneInString` on bytes: the rune and its width, or `None` where Go returns `RuneError` of width 1. */
  function DecodeRune(b: string): (r: Option<(char, nat)>)
    requires |b| > 0 && IsBytes(b)
    ensures r.Some? ==> 1 <= r.value.1 <= |b|
  {
    var b0 := b[0] as int;
    if b0 < 0x80 then Some((b[0], 1))
    else if 0xC2 <= b0 < 0xE0 && Cont(b, 1) then
      Some((((b0 - 0xC0) * 64 + (b[1] as int - 0x80)) as char, 2))
    else if 0xE0 <= b0 < 0xF0 && Cont(b, 1) && Cont(b, 2)
      && (b0 != 0xE0 || b[1] as int >= 0xA0) && (b0 != 0xED || b[1] as int < 0xA0) then
      Some((((b0 - 0xE0) * 4096 + (b[1] as int - 0x80) * 64 + (b[2] as int - 0x80)) as char, 3))
    else if 0xF0 <= b0 < 0xF5 && Cont(b, 1) && Cont(b, 2) && Cont(b, 3)
      && (b0 != 0xF0 || b[1] as int >= 0x90) && (b0 != 0xF4 || b[1] as int < 0x90) then
      Some((((b0 - 0xF0) * 0x40000 + (b[1] as int - 0x80) * 4096 + (b[2] as int - 0x80) * 64 + (b[3] as int - 0x80)) as char, 4))
    else None
  }

  /** A continuation byte, 10xxxxxx, at position `i`. */
  predicate Cont(b: string, i: nat)
  {
    i < |b| && 0x80 <= b[i] as int < 0xC0
  }

  /** Decoding the encoding of a rune gives the rune back, with the encoding's width. */
  lemma DecodeEncoded(c: char, rest: string)
    requires IsBytes(rest)
    ensures IsBytes(Utf8Rune(c) + rest)
    ensures DecodeRune(Utf8Rune(c) + rest) == Some((c, Utf8Width(c)))
  {
    var e := Utf8Rune(c);
    var b := e + rest;
    assert forall i :: 0 <= i < |e| ==> b[i] == e[i];
    var n := c as int;
    var q1 := n / 64;
    var q2 := q1 / 64;
    var q3 := q2 / 64;
    assert n == 64 * q1 + n % 64 && q1 == 64 * q2 + q1 % 64 && q2 == 64 * q3 + q2 % 64;
    if n < 0x80 {
    } else if n < 0x800 {
      DecodeTwo(b, n, q1, n % 64);
    } else if n < 0x10000 {
      DecodeThree(b, n, q2, q1 % 64, n % 64);
    } else {
      DecodeFour(b, n, q3, q2 % 64, q1 % 64, n % 64);
    }
  }

  lemma DecodeTwo(b: string, n: int, x0: int, x1: int)
    requires IsBytes(b) && |b| >= 2 && 0x80 <= n < 0x800
    requires n == 64 * x0 + x1 && 0 <= x1 < 64
    requires b[0] as int == 0xC0 + x0 && b[1] as int == 0x80 + x1
    ensures DecodeRune(b) == Some((n as char, 2))
  {
  }

  lemma DecodeThree(b: string, n: int, x0: int, x1: int, x2: int)
    requires IsBytes(b) && |b| >= 3 && 0x800 <= n < 0x10000 && !(0xD800 <= n < 0xE000)
    requires n == 4096 * x0 + 64 * x1 + x2 && 0 <= x1 < 64 && 0 <= x2 < 64
    requires b[0] as int == 0xE0 + x0 && b[1] as int == 0x80 + x1 && b[2] as int == 0x80 + x2
    ensures DecodeRune(b) == Some((n as char, 3))
  {
  }

  lemma DecodeFour(b: string, n: int, x0: int, x1: int, x2: int, x3: int)
    requires IsBytes(b) && |b| >= 4 && 0x10000 <= n <= 0x10FFFF
    requires n == 0x40000 * x0 + 4096 * x1 + 64 * x2 + x3 && 0 <= x1 < 64 && 0 <= x2 < 64 && 0 <= x3 < 64
    requires b[0] as int == 0xF0 + x0 && b[1] as int == 0x80 + x1 && b[2] as int == 0x80 + x2 && b[3] as int == 0x80 + x3
    ensures DecodeRune(b) == Some((n as char, 4))
  {
  }

  function HexDigit(d: nat): char
    requires d < 16
  {
    if d < 10 then ('0' as int + d) as char else ('a' as int + d - 10) as char
  }

  /** The last `width` lower-case hexadecimal digits of `n`, zero-padded. */
  function Hex(n: nat, width: nat): (h: string)
    ensures |h| == width
    decreases width
  {
    if width == 0 then [] else Hex(n / 16, width - 1) + [HexDigit(n % 16)]
  }

  /**
   * `strconv.IsPrint`: ASCII from space to `~`; not the C1 controls, the
   * no-break space, the soft hyphen or the other Unicode spaces and
   * separators; every other rune counts as printable here.
   */
  predicate IsPrintRune(r: char)
  {
    if r as int < 0x80 then ' ' <= r <= '~'
    else r as int > 0xA0 && r != '\U{00AD}' && !IsSpace(r)
  }

  /** How `strconv.Quote` writes one decoded rune. */
  function EscapedRune(r: char): string
  {
    if r == '"' || r == '\\' then ['\\', r]
    else if IsPrintRune(r) then [r]
    else if r == '\U{0007}' then "\\a"
    else if r == '\U{0008}' then "\\b"
    else if r == '\U{000C}' then "\\f"
    else if r == '\n' then "\\n"
    else if r == '\r' then "\\r"
    else if r == '\t' then "\\t"
    else if r == '\U{000B}' then "\\v"
    else if r < ' ' || r == '\U{007F}' then "\\x" + Hex(r as int, 2)
    else if r as int < 0x10000 then "\\u" + Hex(r as int, 4)
    else "\\U" + Hex(r as int, 8)
  }

  /** `strconv.Quote` on bytes, without the surrounding quotes: rune by rune, an undecodable byte as `\xNN`. */
  function QuoteBody(b: string): string
    requires IsBytes(b)
    decreases |b|
  {
    if b == [] then []
    else
      match DecodeRune(b)
      case None => "\\x" + Hex(b[0] as int, 2) + QuoteBody(b[1..])
      case Some((r, w)) => EscapedRune(r) + QuoteBody(b[w..])
  }

  /** `strconv.Quote`. */
  function Quote(b: string): (q: string)
    requires IsBytes(b)
    ensures |q| >= 2 && q[0] == '"' && q[|q| - 1] == '"'
  {
    "\"" + QuoteBody(b) + "\""
  }

  predicate PlainQuoted(b: string)
  {
    forall i :: 0 <= i < |b| ==> ' ' <= b[i] <= '~' && b[i] != '"' && b[i] != '\\'
  }

  /** Printable ASCII without quotes or backslashes is quoted as it stands. */
  lemma QuotePlain(b: string)
    requires PlainQuoted(b)
    ensures IsBytes(b) && Quote(b) == "\"" + b + "\""
  {
    QuoteBodyPlain(b);
  }

  lemma {:induction false} QuoteBodyPlain(b: string)
    requires PlainQuoted(b)
    ensures IsBytes(b) && QuoteBody(b) == b
    decreases |b|
  {
    if b != [] {
      assert PlainQuoted(b[1..]) by {
        forall i | 0 <= i < |b[1..]| ensures ' ' <= b[1..][i] <= '~' && b[1..][i] != '"' && b[1..][i] != '\\' {
          assert b[1..][i] == b[i + 1];
        }
      }
      QuoteBodyPlain(b[1..]);
      assert DecodeRune(b) == Some((b[0], 1));
      assert EscapedRune(b[0]) == [b[0]];
      assert b == [b[0]] + b[1..];
    }
  }

  // ---------------------------------------------------------------- numbers

  function DigitChar(d: nat): char
    requires d < 10
  {
    ('0' as int + d) as char
  }

  function DigitValue(c: char): nat
    requires IsDigit(c)
  {
    c as int - '0' as int
  }

  /** Decimal digits of `n`, no leading zeros (`strconv.Itoa` for `n >= 0`). */
  function NatToString(n: nat): (r: string)
    ensures |r| >= 1 && AllDigits(r)
    ensures |r| > 1 ==> r[0] != '0'
    decreases n
  {
    if n < 10 then [DigitChar(n)] else NatToString(n / 10) + [DigitChar(n % 10)]
  }

  /** `strconv.Itoa` / `fmt.Sprintf("%d", n)`. */
  function IntToString(n: int): (r: string)
  {
    if n < 0 then ['-'] + NatToString(-n) else NatToString(n)
  }

  /** The value of a string of decimal digits. */
  function DigitsValue(s: string): nat
    requires AllDigits(s)
  {
    if s == [] then 0 else DigitsValue(s[..|s| - 1]) * 10 + DigitValue(s[|s| - 1])
  }

  lemma {:induction false} DigitsOfNat(n: nat)
    ensures DigitsValue(NatToString(n)) == n
    decreases n
  {
    if n >= 10 {
      DigitsOfNat(n / 10);
      var s := NatToString(n);
      assert s[..|s| - 1] == NatToString(n / 10);
    }
  }

  /** `fmt.Sprintf("%0*d", width, n)` for `n >= 0`: zero-padded on the left to `width` runes. */
  function PadZeros(n: nat, width: nat): (r: string)
    ensures AllDigits(r)
    ensures |r| == if |NatToString(n)| < width then width else |NatToString(n)|
  {
    var ds := NatToString(n);
    if |ds| < width then Repeat('0', width - |ds|) + ds else ds
  }

  /** `NatToString(n)` has at most `w` digits when `n < 10^w`. */
  lemma {:induction false} NatToStringWidth(n: nat, w: nat)
    requires n < Pow10(w)
    ensures |NatToString(n)| <= w || (w == 0 && |NatToString(n)| == 1)
    decreases w
  {
    if w > 0 && n >= 10 {
      assert n / 10 < Pow10(w - 1);
      NatToStringWidth(n / 10, w - 1);
    }
  }

  /** Leading zeros do not change the value of a digit string. */
  lemma {:induction false} ZerosValue(k: nat, s: string)
    requires AllDigits(s)
    ensures AllDigits(Repeat('0', k) + s) && DigitsValue(Repeat('0', k) + s) == DigitsValue(s)
    decreases |s|, k
  {
    var t := Repeat('0', k) + s;
    if s == [] {
      assert t == Repeat('0', k);
      if k > 0 {
        assert t[..|t| - 1] == Repeat('0', k - 1) + [];
        ZerosValue(k - 1, []);
      }
    } else {
      assert t[..|t| - 1] == Repeat('0', k) + s[..|s| - 1];
      ZerosValue(k, s[..|s| - 1]);
    }
  }

  /** Zero padding keeps the value: `%0*d` reads back as the number. */
  lemma PadZerosValue(n: nat, width: nat)
    ensures DigitsValue(PadZeros(n, width)) == n
  {
    var ds := NatToString(n);
    DigitsOfNat(n);
    if |ds| < width {
      var zs := Repeat('0', width - |ds|) + ds;
      ZerosValue(width - |ds|, ds);
      assert DigitsValue(zs) == n;
      assert PadZeros(n, width) == zs;
    } else {
      assert PadZeros(n, width) == ds;
    }
  }

  /** A number below `10^w` pads to exactly `w` digits. */
  lemma PadZerosWidth(n: nat, w: nat)
    requires 0 < w && n < Pow10(w)
    ensures |PadZeros(n, w)| == w
  {
    NatToStringWidth(n, w);
  }

  function Pow10(w: nat): (r: nat)
    ensures r >= 1
  {
    if w == 0 then 1 else 10 * Pow10(w - 1)
  }

  function Pow2(e: nat): (r: nat)
    ensures r >= 1
  {
    if e == 0 then 1 else 2 * Pow2(e - 1)
  }

  lemma {:induction false} Pow2Add(a: nat, b: nat)
    ensures Pow2(a + b) == Pow2(a) * Pow2(b)
    decreases b
  {
    if b > 0 {
      Pow2Add(a, b - 1);
    }
  }

  lemma {:induction false} Pow2Grows(a: nat, b: nat)
    requires a <= b
    ensures Pow2(a) <= Pow2(b)
    decreases b
  {
    if a < b {
      Pow2Grows(a, b - 1);
    }
  }

  const MinInt64: int := -0x8000_0000_0000_0000
  const MaxInt64: int := 0x7FFF_FFFF_FFFF_FFFF

  /**
   * `strconv.ParseInt(s, 10, 64)` (and `strconv.Atoi` on a 64-bit platform):
   * an optional sign, at least one decimal digit, a value in the int64 range.
   */
  function ParseInt(s: string): (r: Option<int>)
    ensures r.Some? ==> MinInt64 <= r.value <= MaxInt64
  {
    var neg := |s| > 0 && s[0] == '-';
    var body := if |s| > 0 && (s[0] == '+' || s[0] == '-') then s[1..] else s;
    if body == [] || !AllDigits(body) then None
    else
      var v := if neg then -(DigitsValue(body) as int) else DigitsValue(body) as int;
      if MinInt64 <= v <= MaxInt64 then Some(v) else None
  }

  lemma ParseIntOfString(n: int)
    requires MinInt64 <= n <= MaxInt64
    ensures ParseInt(IntToString(n)) == Some(n)
  {
    if n < 0 {
      DigitsOfNat(-n);
      assert IntToString(n)[1..] == NatToString(-n);
    } else {
      DigitsOfNat(n);
    }
  }

  /** `strconv.ParseBool`. */
  function ParseBool(s: string): Option<bool>
  {
    if s in {"1", "t", "T", "TRUE", "true", "True"} then Some(true)
    else if s in {"0", "f", "F", "FALSE", "false", "False"} then Some(false)
    else None
  }

  /**
   * Whether `strconv.ParseFloat(s, 64)` accepts `s`: `inf` or `infinity`
   * in any ASCII case with an optional sign, `nan` in any ASCII case with
   * no sign, or an optionally signed decimal mantissa with at least one
   * digit and an optional exponent whose value does not round to infinity
   * (which Go rejects with `ErrRange`).
   */
  predicate IsFloatSyntax(s: string)
  {
    var signed := |s| > 0 && (s[0] == '+' || s[0] == '-');
    var body := if signed then s[1..] else s;
    AsciiLower(body) in {"inf", "infinity"} || (!signed && AsciiLower(body) == "nan")
    || (IsDecimalFloat(body) && !DecimalOverflows(body))
  }

  /** ASCII-only case folding, as `strconv` compares special names. */
  function AsciiLower(s: string): (r: string)
    ensures |r| == |s|
  {
    seq(|s|, i requires 0 <= i < |s| => if 'A' <= s[i] <= 'Z' then (s[i] as int + 32) as char else s[i])
  }

  /**
   * 2^1024 - 2^970, half a unit in the last place above the largest
   * float64: the least magnitude that rounds to infinity, which
   * `ParseFloat` reports as `ErrRange`.
   */
  const Float64Overflow: nat :=
    179769313486231580793728971405303415079934132710037826936173778980444968292764750946649017977587207096330286416692887910946555547851940402630657488671505820681908902000708383676273854845817711531764475730270069855571366959622842914819860834936475292719074168444365510704342711559699508093042880177904174497792

  /** Whether the decimal literal's value, its significand times a power of ten, is at least `Float64Overflow`. */
  predicate DecimalOverflows(s: string)
    requires IsDecimalFloat(s)
  {
    var m := MantissaEnd(s, 0);
    var sig := DigitsValue(Significand(s[..m]));
    var scale := (if m < |s| then ExponentValue(s[m + 1..]) else 0) - FractionDigits(s[..m]);
    ScaledAtLeast(sig, scale, Float64Overflow)
  }

  /** Whether `sig * 10^scale >= bound`, one power of ten at a time. */
  predicate ScaledAtLeast(sig: nat, scale: int, bound: nat)
    decreases if scale >= 0 then scale else -scale
  {
    if scale == 0 then sig >= bound
    else if scale > 0 then ScaledAtLeast(sig * 10, scale - 1, bound)
    else ScaledAtLeast(sig, scale + 1, bound * 10)
  }

  /** `ScaledAtLeast` compares `sig * 10^scale` with `bound`, scaling the bound up instead for a negative scale. */
  lemma {:induction false} ScaledAtLeastMeans(sig: nat, scale: int, bound: nat)
    ensures scale >= 0 ==> (ScaledAtLeast(sig, scale, bound) <==> sig * Pow10(scale) >= bound)
    ensures scale < 0 ==> (ScaledAtLeast(sig, scale, bound) <==> sig >= bound * Pow10(-scale))
    decreases if scale >= 0 then scale else -scale
  {
    if scale > 0 {
      ScaledAtLeastMeans(sig * 10, scale - 1, bound);
      assert sig * 10 * Pow10(scale - 1) == sig * Pow10(scale);
    } else if scale < 0 {
      ScaledAtLeastMeans(sig, scale + 1, bound * 10);
      assert bound * 10 * Pow10(-(scale + 1)) == bound * Pow10(-scale);
    }
  }

  /** The digits of a mantissa, the dot dropped. */
  function Significand(m: string): (r: string)
    ensures AllDigits(r)
  {
    if m == [] then [] else (if IsDigit(m[0]) then [m[0]] else []) + Significand(m[1..])
  }

  /** The number of runes after the dot, 0 without one. */
  function FractionDigits(m: string): nat
  {
    if m == [] then 0 else if m[0] == '.' then |m| - 1 else FractionDigits(m[1..])
  }

  /** The signed value of an exponent's digits. */
  function ExponentValue(e: string): int
    requires IsExponent(e)
  {
    var body := if e[0] == '+' || e[0] == '-' then e[1..] else e;
    if e[0] == '-' then -(DigitsValue(body) as int) else DigitsValue(body) as int
  }

  /** A sign goes with `inf` and `infinity` but not with `nan`; case is ASCII-insensitive. */
  lemma FloatSpecials()
    ensures IsFloatSyntax("NaN") && IsFloatSyntax("-Inf")
    ensures !IsFloatSyntax("+nan") && !IsFloatSyntax("-NaN")
  {
    assert AsciiLower("nan") == "nan";
    assert AsciiLower("NaN") == "nan";
    assert AsciiLower("Inf") == "inf";
  }

  predicate IsDecimalFloat(s: string)
  {
    var m := MantissaEnd(s, 0);
    var digits := CountDigits(s[..m]);
    digits > 0 && (m == |s| || ((s[m] == 'e' || s[m] == 'E') && IsExponent(s[m + 1..])))
  }

  /** End of the longest prefix made of digits and at most one dot. */
  function MantissaEnd(s: string, dots: nat): (m: nat)
    ensures m <= |s|
    decreases |s|
  {
    if s == [] then 0
    else if IsDigit(s[0]) then 1 + MantissaEnd(s[1..], dots)
    else if s[0] == '.' && dots == 0 then 1 + MantissaEnd(s[1..], 1)
    else 0
  }

  function CountDigits(s: string): nat
  {
    if s == [] then 0 else (if IsDigit(s[0]) then 1 else 0) + CountDigits(s[1..])
  }

  predicate IsExponent(s: string)
  {
    var body := if |s| > 0 && (s[0] == '+' || s[0] == '-') then s[1..] else s;
    body != [] && AllDigits(body)
  }
}

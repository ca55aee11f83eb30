/**
 * `randomizeString` and `generateVariation` (utils/data.go): the mutation
 * that turns one input document into many test cases.  Randomness comes from
 * a `Random.Draws` oracle.
 */
module Variation {
  import opened Wrappers
  import opened Text
  import opened Values
  import opened Random

  /** `n` consecutive characters starting at `first`. */
  function Letters(first: char, n: nat): (r: string)
    requires first as int + n <= 0xD800
    ensures |r| == n && forall i :: 0 <= i < n ==> r[i] as int == first as int + i
  {
    seq(n, i requires 0 <= i < n => (first as int + i) as char)
  }

  /** The 62 alphanumeric characters new characters are drawn from. */
  const Charset: string := Letters('a', 26) + Letters('A', 26) + Letters('0', 10)

  predicate IsAlnum(c: char)
  {
    'a' <= c <= 'z' || 'A' <= c <= 'Z' || '0' <= c <= '9'
  }

  lemma CharsetShape()
    ensures |Charset| == 62 && forall c :: c in Charset <==> IsAlnum(c)
  {
    var lower, upper, digits := Letters('a', 26), Letters('A', 26), Letters('0', 10);
    assert Charset == lower + upper + digits;
    forall c | IsAlnum(c)
      ensures c in Charset
    {
      if 'a' <= c <= 'z' {
        assert lower[c as int - 'a' as int] == c;
      } else if 'A' <= c <= 'Z' {
        assert upper[c as int - 'A' as int] == c;
      } else {
        assert digits[c as int - '0' as int] == c;
      }
    }
  }

  // ---------------------------------------------------------------- randomizeString, stage by stage

  /**
   * The lower bound of `randomizeString`, at least 1. The product `0.9n` is
   * taken exactly; Go's `float64` product agrees with it for byte lengths
   * below 2^49.
   */
  function MinLen(n: nat): nat
  {
    if n * 9 / 10 < 1 then 1 else n * 9 / 10
  }

  /**
   * The upper bound of `randomizeString`, at least `MinLen(n)`, with the
   * product `1.1n` taken exactly as in `MinLen`.
   */
  function MaxLen(n: nat): nat
  {
    if n * 11 / 10 < MinLen(n) then MinLen(n) else n * 11 / 10
  }

  /** The target length: the first draw picks it from `[MinLen(n), MaxLen(n)]`. */
  function NewLen(n: nat, draws: seq<nat>): (l: nat)
    ensures 1 <= MinLen(n) <= l <= MaxLen(n)
  {
    MinLen(n) + Pick(draws, 0, MaxLen(n) - MinLen(n) + 1)
  }

  /** Runes being edited, and the index of the next draw to use. */
  datatype Walk = Walk(runes: string, next: nat)

  /** `count` insertions, each drawing a position and then a character. */
  function Inserting(runes: string, count: nat, draws: seq<nat>, k: nat): Walk
    decreases count
  {
    if count == 0 then Walk(runes, k)
    else
      var p := Pick(draws, k, |runes| + 1);
      var c := Charset[Pick(draws, k + 1, |Charset|)];
      Inserting(runes[..p] + [c] + runes[p..], count - 1, draws, k + 2)
  }

  /** `count` rounds of deletion; a round deletes (and draws) only while more than one rune is left. */
  function Deleting(runes: string, count: nat, draws: seq<nat>, k: nat): Walk
    decreases count
  {
    if count == 0 then Walk(runes, k)
    else if |runes| > 1 then
      var p := Pick(draws, k, |runes|);
      Deleting(runes[..p] + runes[p + 1..], count - 1, draws, k + 1)
    else Deleting(runes, count - 1, draws, k)
  }

  /** The string after the length change: the length is measured in bytes, the edits are made on runes. */
  function Resized(s: string, draws: seq<nat>): Walk
  {
    var n := ByteLen(s);
    var l := NewLen(n, draws);
    if l > n then Inserting(s, l - n, draws, 1)
    else if l < n then Deleting(s, n - l, draws, 1)
    else Walk(s, 1)
  }

  function Range(m: nat): (r: seq<nat>)
    ensures |r| == m && forall i :: 0 <= i < m ==> r[i] == i
  {
    seq(m, i requires 0 <= i < m => i)
  }

  datatype Shuffle = Shuffle(perm: seq<nat>, next: nat)

  /** The Fisher-Yates loop from index `i` down to 1, each step swapping `i` with a drawn `j <= i`. */
  function Shuffling(p: seq<nat>, i: int, draws: seq<nat>, k: nat): (r: Shuffle)
    requires i < |p|
    ensures |r.perm| == |p| && multiset(r.perm) == multiset(p)
    decreases i
  {
    if i <= 0 then Shuffle(p, k)
    else
      var j := Pick(draws, k, i + 1);
      var q := p[i := p[j]][j := p[i]];
      assert multiset(q) == multiset(p);
      Shuffling(q, i - 1, draws, k + 1)
  }

  /** How many runes are rewritten: half, but at least one of a non-empty string. */
  function ChangeCount(m: nat): (c: nat)
    ensures c <= m && (m > 0 ==> c >= 1 && c == if m / 2 >= 1 then m / 2 else 1)
  {
    if m / 2 == 0 && m > 0 then 1 else m / 2
  }

  /** Rewriting the runes at `positions[t..]`, up to `count` of them, with drawn characters. */
  function Rewriting(runes: string, positions: seq<nat>, t: nat, count: nat, draws: seq<nat>, k: nat): (w: Walk)
    requires forall x :: x in positions ==> x < |runes|
    ensures |w.runes| == |runes|
    decreases |positions| - t
  {
    if t >= count || t >= |positions| then Walk(runes, k)
    else
      var c := Charset[Pick(draws, k, |Charset|)];
      assert positions[t] in positions;
      Rewriting(runes[positions[t] := c], positions, t + 1, count, draws, k + 1)
  }

  /** The shuffled positions of a string of `m` runes. */
  function Positions(m: nat, draws: seq<nat>, k: nat): Shuffle
  {
    Shuffling(Range(m), m - 1, draws, k)
  }

  lemma {:induction false} RangeCount(m: nat, x: nat)
    ensures multiset(Range(m))[x] == if x < m then 1 else 0
  {
    if m > 0 {
      RangeCount(m - 1, x);
      assert Range(m) == Range(m - 1) + [m - 1];
    }
  }

  /** Shuffled positions are a permutation of `0..m-1`: in range and pairwise distinct. */
  lemma PositionsPermute(m: nat, draws: seq<nat>, k: nat)
    ensures var q := Positions(m, draws, k).perm;
      |q| == m && multiset(q) == multiset(Range(m))
      && (forall a :: 0 <= a < m ==> q[a] < m)
      && (forall a, b :: 0 <= a < b < m ==> q[a] != q[b])
  {
    var q := Positions(m, draws, k).perm;
    forall a | 0 <= a < m
      ensures q[a] < m
    {
      RangeCount(m, q[a]);
      assert q[a] in multiset(q);
    }
    forall a, b | 0 <= a < b < m
      ensures q[a] != q[b]
    {
      RangeCount(m, q[a]);
      RepeatCounts(q, a, b);
    }
  }

  lemma RepeatCounts(q: seq<nat>, a: nat, b: nat)
    requires a < b < |q|
    ensures q[a] == q[b] ==> multiset(q)[q[a]] >= 2
  {
    assert q == q[..b] + [q[b]] + q[b + 1..];
    assert q[a] in q[..b];
  }

  function RewrittenPositions(m: nat, draws: seq<nat>, k: nat): seq<nat>
  {
    Positions(m, draws, k).perm[..ChangeCount(m)]
  }

  /** `randomizeString(s)` for the draws `draws`. */
  function Randomized(s: string, draws: seq<nat>): string
  {
    if ByteLen(s) == 0 then "a"
    else
      var w := Resized(s, draws);
      var m := |w.runes|;
      var sh := Positions(m, draws, w.next);
      PositionsPermute(m, draws, w.next);
      Rewriting(w.runes, sh.perm, 0, ChangeCount(m), draws, sh.next).runes
  }

  // ---------------------------------------------------------------- the method

  method RandomizeString(s: string, draws: seq<nat>) returns (r: string)
    ensures r == Randomized(s, draws)
  {
    var originalLen := ByteLen(s);
    if originalLen == 0 {
      return "a";
    }
    var runes, k := ResizeRunes(s, originalLen, draws);
    var changeCount := |runes| / 2;
    if changeCount == 0 && |runes| > 0 {
      changeCount := 1;
    }
    var positions, k' := ShufflePositions(|runes|, draws, k);
    PositionsPermute(|runes|, draws, k);
    r := RewriteRunes(runes, positions, changeCount, draws, k');
  }

  /** The length change of `randomizeString`, on a non-empty string of `originalLen` bytes. */
  method ResizeRunes(s: string, originalLen: nat, draws: seq<nat>) returns (runes: string, k: nat)
    requires originalLen == ByteLen(s)
    ensures Walk(runes, k) == Resized(s, draws)
  {
    var minLen := originalLen * 9 / 10;
    if minLen < 1 {
      minLen := 1;
    }
    var maxLen := originalLen * 11 / 10;
    if maxLen < minLen {
      maxLen := minLen;
    }
    var newLen := minLen + Pick(draws, 0, maxLen - minLen + 1);
    assert newLen == NewLen(originalLen, draws);
    runes := s;
    k := 1;
    if newLen > originalLen {
      var i := 0;
      while i < newLen - originalLen
        invariant 0 <= i <= newLen - originalLen
        invariant Inserting(runes, newLen - originalLen - i, draws, k) == Resized(s, draws)
      {
        var insertPos := Pick(draws, k, |runes| + 1);
        var newChar := Charset[Pick(draws, k + 1, |Charset|)];
        runes := runes[..insertPos] + [newChar] + runes[insertPos..];
        k := k + 2;
        i := i + 1;
      }
    } else if newLen < originalLen {
      var i := 0;
      while i < originalLen - newLen
        invariant 0 <= i <= originalLen - newLen
        invariant Deleting(runes, originalLen - newLen - i, draws, k) == Resized(s, draws)
      {
        if |runes| > 1 {
          var deletePos := Pick(draws, k, |runes|);
          runes := runes[..deletePos] + runes[deletePos + 1..];
          k := k + 1;
        }
        i := i + 1;
      }
    }
  }

  /** The positions `0..m-1`, shuffled in place by the Fisher-Yates loop. */
  method ShufflePositions(m: nat, draws: seq<nat>, k0: nat) returns (positions: array<nat>, k: nat)
    ensures fresh(positions)
    ensures Shuffle(positions[..], k) == Positions(m, draws, k0)
  {
    positions := new nat[m];
    for i := 0 to m
      invariant forall t :: 0 <= t < i ==> positions[t] == t
    {
      positions[i] := i;
    }
    assert positions[..] == Range(m);
    var i := m - 1;
    k := k0;
    while i > 0
      invariant -1 <= i < m
      invariant Shuffling(positions[..], i, draws, k) == Positions(m, draws, k0)
    {
      var j := Pick(draws, k, i + 1);
      positions[i], positions[j] := positions[j], positions[i];
      k := k + 1;
      i := i - 1;
    }
  }

  /** Rewrites the runes at the first `changeCount` entries of `positions` with drawn characters. */
  method RewriteRunes(runes0: string, positions: array<nat>, changeCount: nat, draws: seq<nat>, k0: nat) returns (runes: string)
    requires forall x :: x in positions[..] ==> x < |runes0|
    ensures runes == Rewriting(runes0, positions[..], 0, changeCount, draws, k0).runes
  {
    runes := runes0;
    var k := k0;
    var t := 0;
    while t < changeCount && t < positions.Length
      invariant 0 <= t <= positions.Length && |runes| == |runes0|
      invariant Rewriting(runes, positions[..], t, changeCount, draws, k) == Rewriting(runes0, positions[..], 0, changeCount, draws, k0)
    {
      var pos := positions[t];
      assert pos in positions[..];
      runes := runes[pos := Charset[Pick(draws, k, |Charset|)]];
      k := k + 1;
      t := t + 1;
    }
  }

  // ---------------------------------------------------------------- what randomizeString promises

  predicate FromSourceOrCharset(r: string, s: string)
  {
    forall j :: 0 <= j < |r| ==> r[j] in s || r[j] in Charset
  }

  lemma {:induction false} InsertingShape(runes: string, count: nat, draws: seq<nat>, k: nat, s: string)
    requires FromSourceOrCharset(runes, s)
    ensures var w := Inserting(runes, count, draws, k);
      |w.runes| == |runes| + count && FromSourceOrCharset(w.runes, s)
    decreases count
  {
    if count > 0 {
      var p := Pick(draws, k, |runes| + 1);
      var c := Charset[Pick(draws, k + 1, |Charset|)];
      var runes' := runes[..p] + [c] + runes[p..];
      assert forall j :: 0 <= j < |runes'| ==> runes'[j] == c || runes'[j] in runes;
      InsertingShape(runes', count - 1, draws, k + 2, s);
    }
  }

  lemma {:induction false} DeletingShape(runes: string, count: nat, draws: seq<nat>, k: nat, s: string)
    requires |runes| >= 1 && FromSourceOrCharset(runes, s)
    ensures var w := Deleting(runes, count, draws, k);
      |w.runes| == (if |runes| - count >= 1 then |runes| - count else 1) && FromSourceOrCharset(w.runes, s)
    decreases count
  {
    if count > 0 && |runes| > 1 {
      var p := Pick(draws, k, |runes|);
      var runes' := runes[..p] + runes[p + 1..];
      assert forall j :: 0 <= j < |runes'| ==> runes'[j] in runes;
      DeletingShape(runes', count - 1, draws, k + 1, s);
    } else if count > 0 {
      DeletingShape(runes, count - 1, draws, k, s);
    }
  }

  /**
   * The length change: the target length lies in `[MinLen(n), MaxLen(n)]`
   * for the byte length `n`; the rune count moves by the difference, never
   * below one rune; only characters of `s` or of the charset occur.
   */
  lemma ResizedShape(s: string, draws: seq<nat>)
    requires s != []
    ensures var n := ByteLen(s);
      var l := NewLen(n, draws);
      var w := Resized(s, draws);
      MinLen(n) <= l <= MaxLen(n)
      && |w.runes| == (if l >= n then |s| + (l - n) else if |s| - (n - l) >= 1 then |s| - (n - l) else 1)
      && FromSourceOrCharset(w.runes, s)
  {
    var n := ByteLen(s);
    var l := NewLen(n, draws);
    if l > n {
      InsertingShape(s, l - n, draws, 1, s);
    } else if l < n {
      DeletingShape(s, n - l, draws, 1, s);
    }
  }

  lemma {:induction false} RewritingSpots(runes: string, positions: seq<nat>, t: nat, count: nat, draws: seq<nat>, k: nat)
    requires forall x :: x in positions ==> x < |runes|
    requires t <= count && count <= |positions|
    ensures var r := Rewriting(runes, positions, t, count, draws, k).runes;
      forall j :: 0 <= j < |runes| ==>
        (j in positions[t..count] ==> r[j] in Charset) && (j !in positions[t..count] ==> r[j] == runes[j])
    decreases |positions| - t
  {
    if t < count {
      var c := Charset[Pick(draws, k, |Charset|)];
      assert positions[t] in positions;
      var runes' := runes[positions[t] := c];
      RewritingSpots(runes', positions, t + 1, count, draws, k + 1);
      var r := Rewriting(runes, positions, t, count, draws, k).runes;
      assert r == Rewriting(runes', positions, t + 1, count, draws, k + 1).runes;
      assert positions[t..count] == [positions[t]] + positions[t + 1..count];
      forall j | 0 <= j < |runes|
        ensures (j in positions[t..count] ==> r[j] in Charset) && (j !in positions[t..count] ==> r[j] == runes[j])
      {
        if j == positions[t] && j !in positions[t + 1..count] {
          assert r[j] == c;
        }
      }
    }
  }

  /**
   * After the length change, exactly the first `ChangeCount(m)` shuffled
   * positions are rewritten, each with a charset character, and every other
   * rune is kept.
   */
  lemma RandomizedRewrites(s: string, draws: seq<nat>)
    requires s != []
    ensures var w := Resized(s, draws);
      var m := |w.runes|;
      var spots := RewrittenPositions(m, draws, w.next);
      var r := Randomized(s, draws);
      |r| == m && |spots| == ChangeCount(m) && ChangeCount(m) >= 1
      && (forall a, b :: 0 <= a < b < |spots| ==> spots[a] != spots[b])
      && forall j :: 0 <= j < m ==>
        (j in spots ==> r[j] in Charset) && (j !in spots ==> r[j] == w.runes[j])
  {
    var w := Resized(s, draws);
    var m := |w.runes|;
    ResizedShape(s, draws);
    assert ByteLen(s) != 0;
    PositionsPermute(m, draws, w.next);
    var sh := Positions(m, draws, w.next);
    var c := ChangeCount(m);
    var spots := RewrittenPositions(m, draws, w.next);
    assert spots == sh.perm[..c] == sh.perm[0..c];
    assert forall a, b :: 0 <= a < b < |spots| ==> spots[a] != spots[b] by {
      forall a, b | 0 <= a < b < |spots| ensures spots[a] != spots[b] {
        assert spots[a] == sh.perm[a] && spots[b] == sh.perm[b];
      }
    }
    var r := Randomized(s, draws);
    assert r == Rewriting(w.runes, sh.perm, 0, c, draws, sh.next).runes;
    RewritingSpots(w.runes, sh.perm, 0, c, draws, sh.next);
  }

  /** The result is never empty, and consists of characters of `s` and of the charset. */
  lemma RandomizedChars(s: string, draws: seq<nat>)
    ensures var r := Randomized(s, draws);
      |r| >= 1 && FromSourceOrCharset(r, s)
  {
    if s == [] {
      CharsetShape();
    } else {
      ResizedShape(s, draws);
      RandomizedRewrites(s, draws);
    }
  }

  /** For an ASCII string (bytes and runes agree) the length lands in `[MinLen(n), MaxLen(n)]`. */
  lemma RandomizedAsciiLength(s: string, draws: seq<nat>)
    requires s != [] && IsAscii(s)
    ensures MinLen(|s|) <= |Randomized(s, draws)| <= MaxLen(|s|)
  {
    AsciiByteLen(s);
    ResizedShape(s, draws);
    RandomizedRewrites(s, draws);
  }

  // ---------------------------------------------------------------- generateVariation

  /** `int64(float64(v) * 0.5)` raised to 1 when it is 0: the integer branch's spread. */
  function Spread(v: int): (w: int)
    ensures v >= 0 ==> w >= 1
    ensures 0 <= v <= ExactFloatBound ==> w == (if v / 2 >= 1 then v / 2 else 1)
  {
    if TruncHalf(v) == 0 then 1 else TruncHalf(v)
  }

  /**
   * `v + rand.Int63n(2*w+1) - w` in int64 arithmetic: the bound itself
   * wraps, and `Int63n` panics unless it is positive.
   */
  function Jitter(v: int, w: int, draws: seq<nat>): Outcome<int>
  {
    var bound := Wrap(Int64, 2 * w + 1);
    if bound <= 0 then Panicked
    else Returned(Wrap(Int64, v + Pick(draws, 0, bound) - w))
  }

  /** The array-string branch: each comma-separated piece is randomized on a coin flip. */
  function VaryPieces(parts: seq<string>, d: Draws): (r: seq<string>)
    ensures |r| == |parts|
  {
    seq(|parts|, j requires 0 <= j < |parts| =>
      if Coin(d.here, j) then Randomized(parts[j], Item(d, j).here) else parts[j])
  }

  /**
   * `generateVariation(v, 0.5)`.  Float values and float strings become
   * the oracle's `text`: their arithmetic is not modelled.
   */
  function Vary(v: Value, d: Draws): Outcome<Value>
    decreases v
  {
    match v
    case IntV(k, i) =>
      (match Jitter(i, Spread(i), d.here)
       case Panicked => Panicked
       case Returned(n) => Returned(IntV(k, Wrap(k, n))))
    case FloatV(fk, _) => Returned(FloatV(fk, d.text))
    case StrV(s) =>
      if ',' in s then Returned(StrV(Join(VaryPieces(Split(s, ','), d), ",")))
      else if ParseInt(s).Some? then
        (var n := ParseInt(s).value;
         match Jitter(n, TruncHalf(n), d.here)
         case Panicked => Panicked
         case Returned(x) => Returned(StrV(IntToString(x))))
      else if IsFloatSyntax(s) then Returned(StrV(d.text))
      else Returned(StrV(Randomized(s, d.here)))
    case BoolV(b) => Returned(BoolV(if Coin(d.here, 0) then !b else b))
    case ArrV(items) =>
      if exists j :: 0 <= j < |items| && Vary(items[j], Item(d, j)).Panicked? then Panicked
      else Returned(ArrV(seq(|items|, j requires 0 <= j < |items| => Vary(items[j], Item(d, j)).value)))
    case ObjV(m) =>
      if exists key :: key in m && Vary(m[key], Field(d, key)).Panicked? then Panicked
      else Returned(ObjV(map key | key in m :: Vary(m[key], Field(d, key)).value))
    case NullV => Returned(v)
    case OtherV(_) => Returned(v)
  }

  /** `r` has the shape of `v`: the same constructor and integer kind, the same array lengths and map keys, all the way down. */
  predicate SameShape(v: Value, r: Value)
    decreases v
  {
    match v
    case IntV(k, _) => r.IntV? && r.kind == k
    case FloatV(fk, _) => r.FloatV? && r.fkind == fk
    case StrV(_) => r.StrV?
    case BoolV(_) => r.BoolV?
    case ArrV(items) =>
      r.ArrV? && |r.items| == |items| && forall j :: 0 <= j < |items| ==> SameShape(items[j], r.items[j])
    case ObjV(m) =>
      r.ObjV? && r.fields.Keys == m.Keys && forall key :: key in m ==> SameShape(m[key], r.fields[key])
    case NullV => r == v
    case OtherV(_) => r == v
  }

  /** A variation that does not panic keeps the shape of the value. */
  lemma {:induction false} VaryKeepsShape(v: Value, d: Draws)
    requires Vary(v, d).Returned?
    ensures SameShape(v, Vary(v, d).value)
    decreases v
  {
    match v
    case ArrV(items) =>
      forall j | 0 <= j < |items|
        ensures SameShape(items[j], Vary(v, d).value.items[j])
      {
        VaryKeepsShape(items[j], Item(d, j));
      }
    case ObjV(m) =>
      forall key | key in m
        ensures SameShape(m[key], Vary(v, d).value.fields[key])
      {
        VaryKeepsShape(m[key], Field(d, key));
      }
    case _ =>
  }

  /**
   * The int64 bound `2*w+1` given to `Int63n` is non-positive, with or
   * without the raise to 1, exactly for `v <= -2` and for `v` from
   * `RoundsTo2p63` on, where `float64(v)` is 2^63, `w` is 2^62 and the
   * bound wraps to -2^63 + 1.  Below that the spread is at most 2^62 - 1.
   */
  lemma SpreadSign(v: int)
    requires InRange(Int64, v)
    ensures Wrap(Int64, 2 * Spread(v) + 1) <= 0 <==> v <= -2 || v >= RoundsTo2p63
    ensures Wrap(Int64, 2 * TruncHalf(v) + 1) <= 0 <==> v <= -2 || v >= RoundsTo2p63
    ensures 0 <= v < RoundsTo2p63 ==> Spread(v) < 0x4000_0000_0000_0000
  {
    TruncHalfInt64(v);
    var w := TruncHalf(v);
    if w == 0x4000_0000_0000_0000 {
      assert Wrap(Int64, 2 * w + 1) == -0x7FFF_FFFF_FFFF_FFFF;
    } else {
      WrapIdle(Int64, 2 * w + 1);
      WrapIdle(Int64, 2 * Spread(v) + 1);
    }
  }

  /** Without overflow, and with a bound that does not wrap, the jitter stays within `w` of `v`. */
  lemma JitterWithin(v: int, w: int, draws: seq<nat>)
    requires 0 <= w < 0x4000_0000_0000_0000 && InRange(Int64, v - w) && InRange(Int64, v + w)
    ensures Jitter(v, w, draws).Returned?
    ensures v - w <= Jitter(v, w, draws).value <= v + w
  {
    WrapIdle(Int64, 2 * w + 1);
    var x := v + Pick(draws, 0, 2 * w + 1) - w;
    WrapIdle(Int64, x);
  }

  /**
   * The integer branch: the kind is kept; it panics exactly for `v <= -2`
   * and for 64-bit values from `RoundsTo2p63` on; for `v >= 0` the result
   * lies within `Spread(v)` of `v` unless `v + Spread(v)` overflows the kind.
   */
  lemma VaryInt(k: IntKind, v: int, d: Draws)
    requires InRange(k, v)
    ensures Vary(IntV(k, v), d).Panicked? <==> v <= -2 || v >= RoundsTo2p63
    ensures Vary(IntV(k, v), d).Returned? ==> Vary(IntV(k, v), d).value.IntV? && Vary(IntV(k, v), d).value.kind == k
    ensures v >= 0 && InRange(k, v + Spread(v)) ==>
      var r := Vary(IntV(k, v), d).value.i;
      v - Spread(v) <= r <= v + Spread(v)
  {
    assert InRange(Int64, v);
    SpreadSign(v);
    var w := Spread(v);
    if v >= 0 && InRange(k, v + w) {
      assert v < RoundsTo2p63;
      assert InRange(Int64, v - w) && InRange(Int64, v + w);
      JitterWithin(v, w, d.here);
      WrapIdle(k, Jitter(v, w, d.here).value);
    }
  }

  /**
   * An integer string varies by up to `TruncHalf(n)`, with no minimum
   * spread, unless the sum overflows int64; it panics exactly for values
   * `<= -2` and from `RoundsTo2p63` on.
   */
  lemma VaryIntString(s: string, d: Draws)
    requires ',' !in s && ParseInt(s).Some?
    ensures var n := ParseInt(s).value;
      var w := TruncHalf(n);
      var r := Vary(StrV(s), d);
      (r.Panicked? <==> n <= -2 || n >= RoundsTo2p63)
      && (n >= 0 && n + w <= MaxInt64 ==>
            exists x :: n - w <= x <= n + w && r == Returned(StrV(IntToString(x))))
  {
    var n := ParseInt(s).value;
    var w := TruncHalf(n);
    SpreadSign(n);
    if n >= 0 && n + w <= MaxInt64 {
      assert n < RoundsTo2p63;
      assert w <= Spread(n);
      JitterWithin(n, w, d.here);
      var x := Jitter(n, w, d.here).value;
      assert Vary(StrV(s), d) == Returned(StrV(IntToString(x)));
    }
  }

  /** A string with commas keeps its number of commas. */
  lemma VaryCommaString(s: string, d: Draws)
    requires ',' in s
    ensures Vary(StrV(s), d).Returned?
    ensures Count(Vary(StrV(s), d).value.s, ',') == Count(s, ',')
  {
    var parts := Split(s, ',');
    var pieces := VaryPieces(parts, d);
    SplitJoin(s, ',');
    CharsetShape();
    forall p | p in pieces
      ensures ',' !in p
    {
      var j :| 0 <= j < |pieces| && pieces[j] == p;
      assert parts[j] in parts;
      if Coin(d.here, j) {
        RandomizedChars(parts[j], Item(d, j).here);
      }
    }
    CountJoin(pieces, ',');
  }

  /** Booleans are kept or negated; nil and values of other types come back unchanged. */
  lemma VaryScalars(v: Value, d: Draws)
    requires v.BoolV? || v.NullV? || v.OtherV?
    ensures Vary(v, d).Returned?
    ensures v.BoolV? ==> Vary(v, d).value in {v, BoolV(!v.b)}
    ensures !v.BoolV? ==> Vary(v, d).value == v
  {
  }
}

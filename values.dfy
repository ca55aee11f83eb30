/**
 * The dynamic values the tool passes around as Go `interface{}`: what
 * decoding a JSON or XML document yields, and what the mutators return.
 */
module Values {
  import opened Text

  /** Go's signed integer types; `int` is 64 bits wide. */
  datatype IntKind = Int | Int8 | Int16 | Int32 | Int64

  datatype FloatKind = Float32 | Float64

  /**
   * A Go value held in an `interface{}`.  Floating-point numbers are kept
   * abstract: `FloatV` holds the text `fmt` prints for them.  `OtherV` stands
   * for any other dynamic type (a `json.Number` left unconverted, say) and
   * holds its printed text.
   */
  datatype Value =
    | IntV(kind: IntKind, i: int)
    | FloatV(fkind: FloatKind, text: string)
    | StrV(s: string)
    | BoolV(b: bool)
    | ArrV(items: seq<Value>)
    | ObjV(fields: map<string, Value>)
    | NullV
    | OtherV(text: string)

  /** Half the number of values of a Go integer type: 2 to the power of its width less one. */
  function Half(k: IntKind): (h: int)
    ensures h >= 128
  {
    match k
    case Int8 => 0x80
    case Int16 => 0x8000
    case Int32 => 0x8000_0000
    case Int => 0x8000_0000_0000_0000
    case Int64 => 0x8000_0000_0000_0000
  }

  predicate InRange(k: IntKind, x: int)
  {
    -Half(k) <= x < Half(k)
  }

  /** Two's-complement wrap-around of `x` into the width of `k`, as Go's integer conversions and overflow do. */
  function Wrap(k: IntKind, x: int): (r: int)
    ensures InRange(k, r)
    ensures (r - x) % (2 * Half(k)) == 0
  {
    (x + Half(k)) % (2 * Half(k)) - Half(k)
  }

  lemma WrapIdle(k: IntKind, x: int)
    requires InRange(k, x)
    ensures Wrap(k, x) == x
  {
    assert 0 <= x + Half(k) < 2 * Half(k);
  }

  /** Every integer in a value fits its Go type. */
  predicate WellTyped(v: Value)
  {
    match v
    case IntV(k, i) => InRange(k, i)
    case ArrV(items) => forall j :: 0 <= j < |items| ==> WellTyped(items[j])
    case ObjV(m) => forall key :: key in m ==> WellTyped(m[key])
    case _ => true
  }

  // ---------------------------------------------------------------- float64 conversion

  /** 2^53: every integer of at most this magnitude is a float64. */
  const ExactFloatBound: int := 0x20_0000_0000_0000

  /**
   * `a` rounded to 53 significant bits, ties to even, where `sticky` says
   * whether non-zero bits below `a` were already dropped.  Above 2^54 the
   * value is halved, a dropped 1 joining the sticky bits; in [2^53, 2^54)
   * the last bit is dropped, rounding up when it is 1 and either the sticky
   * bits are set or the rest is odd.
   */
  function RoundSticky(a: nat, sticky: bool): (f: nat)
    ensures a < ExactFloatBound ==> f == a
    ensures a >= ExactFloatBound ==> ExactFloatBound <= f <= 2 * a
    decreases a
  {
    if a < ExactFloatBound then a
    else if a < 2 * ExactFloatBound then
      var h := a / 2;
      if a % 2 == 0 || (!sticky && h % 2 == 0) then 2 * h else 2 * h + 2
    else 2 * RoundSticky(a / 2, sticky || a % 2 == 1)
  }

  /** `float64(a)` for a natural `a`, as an integer. */
  function RoundToFloat(a: nat): nat
  {
    RoundSticky(a, false)
  }

  /** `float64(x)` for an integer `x`: rounding is symmetric in the sign. */
  function ToFloat64(x: int): int
  {
    var f: int := RoundToFloat(Abs(x));
    if x >= 0 then f else -f
  }

  /**
   * `int64(float64(x) * 0.5)`: the float64 rounding of `x`, halved exactly,
   * then truncated toward zero.  Up to 2^53 in magnitude this is plain
   * halving toward zero.
   */
  function TruncHalf(x: int): (r: int)
    ensures x >= 0 ==> r >= 0
    ensures x <= 0 ==> r <= 0
    ensures -ExactFloatBound <= x <= ExactFloatBound ==>
      2 * Abs(r) <= Abs(x) <= 2 * Abs(r) + 1
  {
    if -ExactFloatBound <= x <= ExactFloatBound then RoundExact(Abs(x)); HalfToward(ToFloat64(x))
    else HalfToward(ToFloat64(x))
  }

  /** An exact halving followed by truncation toward zero. */
  function HalfToward(f: int): (r: int)
    ensures f >= 0 ==> 0 <= 2 * r <= f <= 2 * r + 1
    ensures f <= 0 ==> 2 * r - 1 <= f <= 2 * r <= 0
  {
    if f >= 0 then f / 2 else -((-f) / 2)
  }

  function Abs(x: int): nat
  {
    if x >= 0 then x else -x
  }

  /** Up to 2^53 every integer is a float64. */
  lemma RoundExact(a: nat)
    requires a <= ExactFloatBound
    ensures RoundToFloat(a) == a
  {
  }

  /** Above 2^53 the halving sees the rounded value: 2^53 + 3 becomes 2^53 + 4, whose half is 2^52 + 2, not 2^52 + 1. */
  lemma TruncHalfRounds()
    ensures TruncHalf(0x20_0000_0000_0003) == 0x10_0000_0000_0002
    ensures 0x20_0000_0000_0003 / 2 == 0x10_0000_0000_0001
  {
  }

  lemma Pow2Exact()
    ensures Pow2(53) == ExactFloatBound
  {
    assert Pow2(10) == 0x400;
    assert Pow2(20) == 0x10_0000;
    assert Pow2(30) == 0x4000_0000;
    assert Pow2(40) == 0x100_0000_0000;
    assert Pow2(50) == 0x4_0000_0000_0000;
  }

  lemma {:induction false} MulAtLeast(d: int, x: int)
    requires d > 0 && x >= 1
    ensures d * x >= d
    decreases x
  {
    if x > 1 {
      MulAtLeast(d, x - 1);
      assert d * x == d * (x - 1) + d;
    }
  }

  lemma DivUnique(a: int, d: int, q: int, r: int)
    requires d > 0 && a == d * q + r && 0 <= r < d
    ensures a / d == q && a % d == r
  {
    var q' := a / d;
    var r' := a % d;
    assert a == d * q' + r';
    if q > q' {
      MulAtLeast(d, q - q');
    } else if q < q' {
      MulAtLeast(d, q' - q);
    }
  }

  /** One binade down: the half of `a` lies in the binade below, and `a` is at least 2^54. */
  lemma HalfBinade(a: nat, k: nat)
    requires k > 0 && Pow2(53 + k) <= a < Pow2(54 + k)
    ensures Pow2(53 + (k - 1)) <= a / 2 < Pow2(54 + (k - 1))
    ensures a >= 2 * ExactFloatBound
    ensures Pow2(k) == 2 * Pow2(k - 1)
  {
    Pow2Exact();
    Pow2Grows(53, 52 + k);
  }

  /**
   * In the binade [2^(53+k), 2^(54+k)) rounding drops the low `k` bits
   * into the sticky bit and rounds what is left: for `a = 2^k * m + rem`
   * it is 2^k times the rounding of `m`, made sticky by a non-zero `rem`.
   */
  lemma {:induction false} RoundScaled(a: nat, s: bool, k: nat, m: nat, rem: nat)
    requires Pow2(53 + k) <= a < Pow2(54 + k)
    requires a == Pow2(k) * m + rem && rem < Pow2(k)
    ensures RoundSticky(a, s) == Pow2(k) * RoundSticky(m, s || rem != 0)
    decreases k
  {
    if k > 0 {
      var p := Pow2(k - 1);
      HalfBinade(a, k);
      ScaledStep(Pow2(k) * m, p * m, m, p, Pow2(k));
      assert a / 2 == p * m + rem / 2 && a % 2 == rem % 2;
      RoundScaled(a / 2, s || a % 2 == 1, k - 1, m, rem / 2);
      RoundHalving(a, s, p, Pow2(k), RoundSticky(m, s || rem != 0));
    }
  }

  /** One halving step above 2^54: doubling what the half rounds to at scale `p` gives the rounding at scale `q = 2p`. */
  lemma RoundHalving(a: nat, s: bool, p: int, q: int, x: int)
    requires a >= 2 * ExactFloatBound && q == 2 * p
    requires RoundSticky(a / 2, s || a % 2 == 1) == p * x
    ensures RoundSticky(a, s) == q * x
  {
    ScaledStep(RoundSticky(a, s), p * x, x, p, q);
  }

  lemma ScaledStep(whole: int, half: int, rest: int, p: int, q: int)
    requires half == p * rest && q == 2 * p
    ensures whole == 2 * half <==> whole == q * rest
  {
  }

  lemma DivBounds(a: nat, p: nat, lo: nat, hi: nat)
    requires p >= 1 && lo * p <= a < hi * p
    ensures lo <= a / p < hi
  {
    var q := a / p;
    assert a == p * q + a % p;
    if q < lo {
      MulAtLeast(p, lo - q);
    }
  }

  /** The last rounding step: from [2^53, 2^54) to an even neighbour, rounding down from an odd value only at an exact tie. */
  lemma RoundLastBit(a: nat, sticky: bool)
    requires ExactFloatBound <= a < 2 * ExactFloatBound
    ensures var r := RoundSticky(a, sticky);
      r == 2 * (a / 2) || (r == 2 * (a / 2) + 2 && a % 2 == 1)
    ensures RoundSticky(a, sticky) == 2 * (a / 2) && a % 2 == 1 ==> !sticky
  {
  }

  lemma Distribute(p: int, x: int, y: int)
    ensures p * (x + y) == p * x + p * y
  {
  }

  /** Scaling the last step back up by `p` keeps it within half a spacing of `2p`. */
  lemma NearestScaled(a: int, p: int, a': int, rem: int, r: int, f: int, q: int)
    requires p >= 1 && a' >= 0 && a == p * a' + rem && 0 <= rem < p
    requires r == 2 * (a' / 2) || (r == 2 * (a' / 2) + 2 && a' % 2 == 1)
    requires r == 2 * (a' / 2) && a' % 2 == 1 ==> rem == 0
    requires f == p * r && q == 2 * p
    ensures f % q == 0 && 2 * (f - a) <= q && 2 * (a - f) <= q
  {
    var h := a' / 2;
    var b := a' % 2;
    var ph := p * h;
    Distribute(p, 2 * h, b);
    Distribute(p, h, h);
    assert p * b == (if b == 0 then 0 else p);
    assert a == 2 * ph + p * b + rem;
    if r == 2 * h {
      assert (2 * p) * h == 2 * ph;
      DivUnique(p * r, 2 * p, h, 0);
    } else {
      Distribute(p, 2 * h, 2);
      Distribute(2 * p, h, 1);
      assert (2 * p) * h == 2 * ph;
      DivUnique(p * r, 2 * p, h + 1, 0);
    }
  }

  lemma DivSplit(a: int, p: int)
    requires p >= 1
    ensures a == p * (a / p) + a % p && 0 <= a % p < p
  {
  }

  /** Dropping the low `k` bits of a value in the binade [2^(53+k), 2^(54+k)) leaves a value in [2^53, 2^54). */
  lemma ScaledIntoBase(a: nat, k: nat)
    requires Pow2(53 + k) <= a < Pow2(54 + k)
    ensures ExactFloatBound <= a / Pow2(k) < 2 * ExactFloatBound
  {
    Pow2Exact();
    Pow2Add(53, k);
    Pow2Add(54, k);
    DivBounds(a, Pow2(k), ExactFloatBound, 2 * ExactFloatBound);
  }

  /**
   * In the binade [2^(53+k), 2^(54+k)), where float64 values are 2^(k+1)
   * apart, the rounding is a multiple of that spacing within half of it
   * from `a`: a nearest float64.
   */
  lemma RoundNearest(a: nat, k: nat)
    requires Pow2(53 + k) <= a < Pow2(54 + k)
    ensures var f := RoundToFloat(a);
      f % Pow2(k + 1) == 0 && 2 * (f - a) <= Pow2(k + 1) && 2 * (a - f) <= Pow2(k + 1)
  {
    var p := Pow2(k);
    ScaledIntoBase(a, k);
    var a' := a / p;
    var rem := a % p;
    DivSplit(a, p);
    RoundScaled(a, false, k, a', rem);
    var r := RoundSticky(a', rem != 0);
    RoundLastBit(a', rem != 0);
    var f := RoundToFloat(a);
    assert f == p * r;
    var q := Pow2(k + 1);
    assert q == 2 * p;
    NearestScaled(a, p, a', rem, r, f, q);
  }

  /** 2^63 - 512: the least magnitude whose float64 rounding reaches 2^63. */
  const RoundsTo2p63: int := 0x7FFF_FFFF_FFFF_FE00

  /** Rounding in the top int64 binade, where float64 values are 1024 apart. */
  lemma RoundTopBinade(a: nat, k: nat)
    requires k == 9 && 0x4000_0000_0000_0000 <= a < 0x8000_0000_0000_0000
    ensures RoundToFloat(a) <= 0x8000_0000_0000_0000
    ensures RoundToFloat(a) == 0x8000_0000_0000_0000 <==> a >= RoundsTo2p63
  {
    Pow2Exact();
    assert Pow2(k) == 512;
    Pow2Add(53, k);
    Pow2Add(54, k);
    var m := a / 512;
    var rem := a % 512;
    RoundScaled(a, false, k, m, rem);
    RoundLastBit(m, rem != 0);
    if a >= RoundsTo2p63 {
      assert m == 0x3F_FFFF_FFFF_FFFF;
    }
  }

  /** 2^63 itself is a float64. */
  lemma RoundTwoTo63(a: nat, k: nat, m: nat)
    requires a == 0x8000_0000_0000_0000 && k == 10 && m == ExactFloatBound
    ensures RoundToFloat(a) == a
  {
    Pow2Exact();
    assert Pow2(k) == 1024;
    Pow2Add(53, k);
    Pow2Add(54, k);
    RoundExact(m);
    RoundScaled(a, false, k, m, 0);
  }

  /**
   * Rounding an int64 magnitude to float64: exact up to 2^53, never above
   * 2^63, equal to 2^63 exactly from `RoundsTo2p63` on, and at least 2 when
   * the magnitude is.
   */
  lemma RoundInt64(a: nat)
    requires a <= 0x8000_0000_0000_0000
    ensures a <= ExactFloatBound ==> RoundToFloat(a) == a
    ensures RoundToFloat(a) <= 0x8000_0000_0000_0000
    ensures RoundToFloat(a) == 0x8000_0000_0000_0000 <==> a >= RoundsTo2p63
    ensures a >= 2 ==> RoundToFloat(a) >= 2
  {
    if a <= ExactFloatBound {
      RoundExact(a);
    } else if a < 0x4000_0000_0000_0000 {
    } else if a < 0x8000_0000_0000_0000 {
      RoundTopBinade(a, 9);
    } else {
      RoundTwoTo63(a, 10, ExactFloatBound);
    }
  }

  /**
   * On int64 inputs the rounded half lies in [-2^62, 2^62]; it reaches
   * 2^62 exactly from `RoundsTo2p63` on, and it is zero exactly for -1, 0, 1.
   */
  lemma TruncHalfInt64(x: int)
    requires -0x8000_0000_0000_0000 <= x <= 0x7FFF_FFFF_FFFF_FFFF
    ensures -0x4000_0000_0000_0000 <= TruncHalf(x) <= 0x4000_0000_0000_0000
    ensures TruncHalf(x) == 0x4000_0000_0000_0000 <==> x >= RoundsTo2p63
    ensures TruncHalf(x) == 0 <==> -1 <= x <= 1
    ensures x <= -2 ==> TruncHalf(x) < 0
  {
    RoundInt64(Abs(x));
    var f: int := RoundToFloat(Abs(x));
    assert ToFloat64(x) == (if x >= 0 then f else -f);
  }

  // ---------------------------------------------------------------- string order

  /** Go's string order: byte-wise, which for UTF-8 is rune-wise. */
  predicate LexLeq(a: string, b: string)
    decreases |a|
  {
    a == [] || (b != [] && (a[0] < b[0] || (a[0] == b[0] && LexLeq(a[1..], b[1..]))))
  }

  lemma {:induction false} LexRefl(a: string)
    ensures LexLeq(a, a)
    decreases |a|
  {
    if a != [] {
      LexRefl(a[1..]);
    }
  }

  lemma {:induction false} LexTotal(a: string, b: string)
    ensures LexLeq(a, b) || LexLeq(b, a)
    decreases |a|
  {
    if a != [] && b != [] && a[0] == b[0] {
      LexTotal(a[1..], b[1..]);
    }
  }

  lemma {:induction false} LexAntisym(a: string, b: string)
    requires LexLeq(a, b) && LexLeq(b, a)
    ensures a == b
    decreases |a|
  {
    if a != [] && b != [] {
      LexAntisym(a[1..], b[1..]);
      assert a == [a[0]] + a[1..];
      assert b == [b[0]] + b[1..];
    }
  }

  lemma {:induction false} LexTrans(a: string, b: string, c: string)
    requires LexLeq(a, b) && LexLeq(b, c)
    ensures LexLeq(a, c)
    decreases |a|
  {
    if a != [] && b != [] && c != [] && a[0] == b[0] && b[0] == c[0] {
      LexTrans(a[1..], b[1..], c[1..]);
    }
  }

  predicate IsLeast(k: string, s: set<string>)
  {
    k in s && forall j :: j in s ==> LexLeq(k, j)
  }

  lemma {:induction false} LeastExists(s: set<string>)
    requires s != {}
    ensures exists k :: IsLeast(k, s)
    decreases |s|
  {
    var x :| x in s;
    if s == {x} {
      LexRefl(x);
      assert IsLeast(x, s);
    } else {
      LeastExists(s - {x});
      var m :| IsLeast(m, s - {x});
      LexTotal(x, m);
      if LexLeq(x, m) {
        forall j | j in s
          ensures LexLeq(x, j)
        {
          if j == x {
            LexRefl(x);
          } else {
            LexTrans(x, m, j);
          }
        }
        assert IsLeast(x, s);
      } else {
        assert IsLeast(m, s);
      }
    }
  }

  lemma LeastUnique(s: set<string>)
    ensures forall a, b :: IsLeast(a, s) && IsLeast(b, s) ==> a == b
  {
    forall a, b | IsLeast(a, s) && IsLeast(b, s)
      ensures a == b
    {
      LexAntisym(a, b);
    }
  }

  predicate SortedStrings(r: seq<string>)
  {
    forall i, j :: 0 <= i < j < |r| ==> LexLeq(r[i], r[j])
  }

  /** The keys of a map in ascending order, as `fmt` prints them. */
  function SortedKeys(s: set<string>): (r: seq<string>)
    ensures |r| == |s| && forall k :: k in r <==> k in s
    ensures SortedStrings(r)
    decreases |s|
  {
    if s == {} then []
    else
      LeastExists(s);
      LeastUnique(s);
      var k :| IsLeast(k, s);
      var rest := SortedKeys(s - {k});
      assert forall j :: j in rest ==> j in s;
      [k] + rest
  }

  // ---------------------------------------------------------------- printing

  /** `fmt.Sprintf("%v", v)`: arrays as `[a b]`, maps as `map[k:v ...]` in key order, nil as `<nil>`. */
  function Show(v: Value): string
    decreases v, 1
  {
    match v
    case IntV(_, i) => IntToString(i)
    case FloatV(_, t) => t
    case StrV(s) => s
    case BoolV(b) => if b then "true" else "false"
    case ArrV(items) => "[" + Join(ShowItems(v, items), " ") + "]"
    case ObjV(m) => "map[" + Join(ShowFields(v, m, SortedKeys(m.Keys)), " ") + "]"
    case NullV => "<nil>"
    case OtherV(t) => t
  }

  function ShowItems(parent: Value, items: seq<Value>): (r: seq<string>)
    requires forall j :: 0 <= j < |items| ==> items[j] < parent
    ensures |r| == |items|
    decreases parent, 0, |items|
  {
    if items == [] then [] else [Show(items[0])] + ShowItems(parent, items[1..])
  }

  function ShowFields(parent: Value, m: map<string, Value>, keys: seq<string>): (r: seq<string>)
    requires forall k :: k in keys ==> k in m && m[k] < parent
    ensures |r| == |keys|
    decreases parent, 0, |keys|
  {
    if keys == [] then [] else [keys[0] + ":" + Show(m[keys[0]])] + ShowFields(parent, m, keys[1..])
  }

  // ---------------------------------------------------------------- map iteration order

  /** `order` lists each key of the set exactly once: one possible Go map iteration order. */
  predicate IsOrderOf(order: seq<string>, keys: set<string>)
  {
    |order| == |keys| && (forall k :: k in order ==> k in keys) && (forall k :: k in keys ==> k in order)
    && forall i, j :: 0 <= i < j < |order| ==> order[i] != order[j]
  }
}

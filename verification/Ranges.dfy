/** Ranges of tuning variables: numbering the values of a range, going back from a
    number to a value, and moving a value to the nearest one of the range.  The
    program computes in floating point; here the arithmetic is exact. */
module Ranges {

  datatype Bounds =
    | IntBounds(min: int, max: int, step: int)
    | RealBounds(low: real, high: real, stride: real)
    | StrBounds(members: seq<string>)

  datatype Value = IntValue(i: int) | RealValue(r: real) | StrValue(s: string)

  /** Bounds over which numbering makes sense: not inverted, and an integer range
      has a step to go by. */
  predicate WellFormed(b: Bounds) {
    match b
    case IntBounds(min, max, step) => min <= max && step > 0
    case RealBounds(low, high, _) => low <= high
    case StrBounds(members) => members != []
  }

  /** Clamp and cut off the fraction, as assigning the double to the index does. */
  function Clamped(idx: real, maxIdx: nat): (r: nat)
    ensures r <= maxIdx
  {
    if idx < 0.0 then 0 else if idx > maxIdx as real then maxIdx else idx.Floor
  }

  function Quotient(x: real, d: real): (q: real)
    requires d > 0.0
    ensures q * d == x
  {
    x / d
  }

  // ---- Integers ----------------------------------------------------------

  /** hrange_int_max_idx. */
  function IntMaxIdx(b: Bounds): nat
    requires b.IntBounds? && WellFormed(b)
  {
    (b.max - b.min) / b.step
  }

  /** hrange_int_index. */
  function IntIndex(b: Bounds, val: int): nat
    requires b.IntBounds? && WellFormed(b)
  {
    Clamped(Quotient((val - b.min) as real, b.step as real) + 0.5, IntMaxIdx(b))
  }

  /** hrange_int_value. */
  function IntAt(b: Bounds, idx: nat): int
    requires b.IntBounds? && WellFormed(b)
  {
    b.min + (if idx > IntMaxIdx(b) then IntMaxIdx(b) else idx) * b.step
  }

  /** hrange_int_nearest. */
  function IntNearest(b: Bounds, val: int): int
    requires b.IntBounds? && WellFormed(b)
  {
    b.min + IntIndex(b, val) * b.step
  }

  // ---- Reals -------------------------------------------------------------

  /** hrange_real_max_idx. */
  function RealMaxIdx(b: Bounds): (r: nat)
    requires b.RealBounds? && WellFormed(b)
  {
    if b.stride > 0.0 then
      QuotientSign(b.high - b.low, b.stride);
      Quotient(b.high - b.low, b.stride).Floor
    else 0
  }

  lemma QuotientSign(a: real, d: real)
    requires a >= 0.0 && d > 0.0
    ensures Quotient(a, d).Floor >= 0
  {}

  /** hrange_real_index. */
  function RealIndex(b: Bounds, val: real): nat
    requires b.RealBounds? && WellFormed(b) && b.stride > 0.0
  {
    Clamped(Quotient(val - b.low, b.stride) + 0.5, RealMaxIdx(b))
  }

  /** hrange_real_value. */
  function RealAt(b: Bounds, idx: nat): real
    requires b.RealBounds? && WellFormed(b)
  {
    b.low + (if idx > RealMaxIdx(b) then RealMaxIdx(b) else idx) as real * b.stride
  }

  /** hrange_real_nearest: without a step, every value between the bounds is one of
      the range. */
  function RealNearest(b: Bounds, val: real): real
    requires b.RealBounds? && WellFormed(b)
  {
    if b.stride > 0.0 then b.low + RealIndex(b, val) as real * b.stride
    else if val < b.low then b.low
    else if val > b.high then b.high
    else val
  }

  // ---- Strings -----------------------------------------------------------

  /** hrange_str_index: the first member equal to the value, or the first member. */
  function StrIndex(members: seq<string>, val: string): (r: nat)
    requires members != []
    ensures r < |members|
    ensures val in members ==> members[r] == val && forall k :: 0 <= k < r ==> members[k] != val
    ensures val !in members ==> r == 0
  {
    var k := FirstEqual(members, val, 0);
    if k < |members| then k else 0
  }

  function FirstEqual(members: seq<string>, val: string, k: nat): (r: nat)
    requires k <= |members|
    ensures k <= r <= |members| && (r < |members| ==> members[r] == val)
    ensures forall j :: k <= j < r ==> members[j] != val
    decreases |members| - k
  {
    if k == |members| || members[k] == val then k else FirstEqual(members, val, k + 1)
  }

  // ---- Which values a range has -------------------------------------------

  /** A value of the range: between the bounds and a whole number of steps above
      the lower one; anything between the bounds when there is no step. */
  ghost predicate InRange(b: Bounds, v: Value)
    requires WellFormed(b)
  {
    match b
    case IntBounds(min, max, step) => v.IntValue? && v.i <= max && exists k: nat :: v.i == IntGrid(b, k)
    case RealBounds(low, high, stride) =>
      v.RealValue? && Within(b, v.r) && (stride > 0.0 ==> exists k: nat :: v.r == RealGrid(b, k))
    case StrBounds(members) => v.StrValue? && v.s in members
  }

  function IntGrid(b: Bounds, k: nat): int
    requires b.IntBounds?
  {
    b.min + k * b.step
  }

  function RealGrid(b: Bounds, k: nat): real
    requires b.RealBounds?
  {
    GridPoint(b.low, b.stride, k)
  }

  function GridPoint(low: real, d: real, k: nat): real {
    low + k as real * d
  }

  function Abs(x: real): real {
    if x < 0.0 then -x else x
  }

  /** `a` is no further from x than `c`, and not below it when both are equally far. */
  predicate AtLeastAsClose(a: real, c: real, x: real) {
    Abs(a - x) <= Abs(c - x) && (Abs(a - x) == Abs(c - x) ==> c <= a)
  }

  predicate Within(b: Bounds, y: real)
    requires b.RealBounds?
  {
    b.low <= y <= b.high
  }

  // ---- Exact arithmetic on grids -------------------------------------------

  lemma MulBoth(x: real, y: real, d: real)
    requires d > 0.0
    ensures x <= y <==> x * d <= y * d
  {
    if x <= y {
      MulPositive(y - x, d);
    } else {
      MulPositive(x - y, d);
      assert (x - y) * d > 0.0;
    }
  }

  lemma MulPositive(x: real, d: real)
    requires d > 0.0 && x >= 0.0
    ensures x * d >= 0.0 && (x > 0.0 ==> x * d > 0.0)
  {}

  lemma AbsScaled(x: real, d: real)
    requires d > 0.0
    ensures Abs(x * d) == Abs(x) * d
  {
    if x < 0.0 {
      MulPositive(-x, d);
      assert (-x) * d == -(x * d);
    } else {
      MulPositive(x, d);
    }
  }

  /** Rounding half up and clamping gives the number closest to q among 0..n, and
      the larger of two that are equally close. */
  lemma RoundedIsClosest(q: real, n: nat, k: nat)
    requires k <= n
    ensures AtLeastAsClose(Clamped(q + 0.5, n) as real, k as real, q)
  {
    var i := Clamped(q + 0.5, n);
    var x, y := i as real, k as real;
    assert i == 0 || x <= q + 0.5;
    assert i == n || q + 0.5 < x + 1.0;
    assert k <= i ==> y <= x;
    assert k > i ==> y >= x + 1.0;
    assert k < i ==> y <= x - 1.0;
    hide Clamped;
    RealsClosest(q, x, y, i == 0, i == n);
  }

  lemma RealsClosest(q: real, x: real, y: real, lowest: bool, highest: bool)
    requires (lowest || x <= q + 0.5) && (highest || q + 0.5 < x + 1.0)
    requires (lowest ==> y >= x) && (highest ==> y <= x) && (y <= x || y >= x + 1.0)
    requires y < x ==> y <= x - 1.0
    ensures AtLeastAsClose(x, y, q)
  {}

  lemma RoundedExact(i: nat, n: nat)
    requires i <= n
    ensures Clamped(i as real + 0.5, n) == i
  {}

  /** The same for the points low, low + d, low + 2d and so on. */
  lemma GridClosest(low: real, d: real, x: real, n: nat, k: nat)
    requires d > 0.0 && k <= n
    ensures var i := Clamped(Quotient(x - low, d) + 0.5, n);
            AtLeastAsClose(GridPoint(low, d, i), GridPoint(low, d, k), x)
  {
    var q := Quotient(x - low, d);
    var i := Clamped(q + 0.5, n);
    RoundedIsClosest(q, n, k);
    hide Clamped, Quotient;
    ScaledOrder(low, d, x, q, i, k);
  }

  lemma ScaledOrder(low: real, d: real, x: real, q: real, i: nat, k: nat)
    requires d > 0.0 && q * d == x - low
    requires AtLeastAsClose(i as real, k as real, q)
    ensures AtLeastAsClose(GridPoint(low, d, i), GridPoint(low, d, k), x)
  {
    hide Scaled, GridPoint;
    Shift(low, d, x, q, i);
    Shift(low, d, x, q, k);
    ScaledIff(Abs(i as real - q), Abs(k as real - q), d);
    ScaledIff(Abs(k as real - q), Abs(i as real - q), d);
    GridOrder(low, d, i, k);
  }

  lemma GridOrder(low: real, d: real, i: nat, k: nat)
    requires d > 0.0
    ensures k <= i ==> GridPoint(low, d, k) <= GridPoint(low, d, i)
  {
    if k <= i {
      MulBoth(k as real, i as real, d);
    }
  }

  function Scaled(x: real, d: real): real {
    x * d
  }

  lemma ScaledIff(x: real, y: real, d: real)
    requires d > 0.0
    ensures x <= y <==> Scaled(x, d) <= Scaled(y, d)
  {
    MulBoth(x, y, d);
  }

  lemma Shift(low: real, d: real, x: real, q: real, k: nat)
    requires d > 0.0 && q * d == x - low
    ensures Abs(GridPoint(low, d, k) - x) == Scaled(Abs(k as real - q), d)
  {
    assert (k as real - q) * d == k as real * d - q * d;
    AbsScaled(k as real - q, d);
  }

  /** A grid point is under the upper bound exactly when its number is. */
  lemma GridBoundIff(low: real, high: real, d: real, k: nat)
    requires d > 0.0 && low <= high
    ensures GridPoint(low, d, k) <= high <==> k <= Quotient(high - low, d).Floor
  {
    var q := Quotient(high - low, d);
    hide Quotient;
    MulBoth(k as real, q, d);
  }

  /** Dividing by the step undoes multiplying by it. */
  lemma GridQuotient(low: real, d: real, k: nat)
    requires d > 0.0
    ensures Quotient(GridPoint(low, d, k) - low, d) == k as real
  {
    var q := Quotient(GridPoint(low, d, k) - low, d);
    hide Quotient;
    MulBoth(q, k as real, d);
    MulBoth(k as real, q, d);
  }

  // ---- Integer ranges ----------------------------------------------------

  lemma IntBoundIff(b: Bounds, k: nat)
    requires b.IntBounds? && WellFormed(b)
    ensures IntGrid(b, k) <= b.max <==> k <= IntMaxIdx(b)
  {
    QuotientIff(b.max - b.min, b.step, k);
  }

  lemma QuotientIff(a: int, d: int, k: nat)
    requires a >= 0 && d > 0
    ensures k * d <= a <==> k <= a / d
  {
    var q := a / d;
    assert q * d <= a < q * d + d;
    if k <= q {
      MulInt(k, q, d);
    } else {
      MulInt(q + 1, k, d);
    }
  }

  lemma MulInt(x: int, y: int, d: int)
    requires x <= y && d > 0
    ensures x * d <= y * d
  {}

  lemma IntGridReal(b: Bounds, k: nat)
    requires b.IntBounds?
    ensures IntGrid(b, k) as real == GridPoint(b.min as real, b.step as real, k)
  {
    assert (k * b.step) as real == k as real * b.step as real;
  }

  /** The value given is one of the range, none of the range is closer, and of two
      equally close ones it is the larger. */
  lemma IntNearestIsNearest(b: Bounds, val: int)
    requires b.IntBounds? && WellFormed(b)
    ensures b.min <= IntNearest(b, val) <= b.max
    ensures InRange(b, IntValue(IntNearest(b, val)))
    ensures forall k: nat :: IntGrid(b, k) <= b.max ==>
              AtLeastAsClose(IntNearest(b, val) as real, IntGrid(b, k) as real, val as real)
  {
    var i := IntIndex(b, val);
    assert i <= IntMaxIdx(b);
    hide Clamped, IntMaxIdx, AtLeastAsClose, Quotient, GridPoint;
    IntBoundIff(b, i);
    assert IntNearest(b, val) == IntGrid(b, i);
    MulInt(0, i, b.step);
    forall k: nat | IntGrid(b, k) <= b.max
      ensures AtLeastAsClose(IntNearest(b, val) as real, IntGrid(b, k) as real, val as real)
    {
      IntBoundIff(b, k);
      IntGridReal(b, i);
      IntGridReal(b, k);
      assert (val - b.min) as real == val as real - b.min as real;
      GridClosest(b.min as real, b.step as real, val as real, IntMaxIdx(b), k);
    }
  }

  /** Numbering undoes giving the value of a number. */
  lemma IntIndexOfValue(b: Bounds, idx: nat)
    requires b.IntBounds? && WellFormed(b)
    ensures IntIndex(b, IntAt(b, idx)) == if idx <= IntMaxIdx(b) then idx else IntMaxIdx(b)
    ensures InRange(b, IntValue(IntAt(b, idx)))
  {
    var k := if idx <= IntMaxIdx(b) then idx else IntMaxIdx(b);
    IntBoundIff(b, k);
    assert IntAt(b, idx) == IntGrid(b, k);
    IntIndexOfGrid(b, k);
  }

  lemma IntIndexOfGrid(b: Bounds, k: nat)
    requires b.IntBounds? && WellFormed(b) && k <= IntMaxIdx(b)
    ensures IntIndex(b, IntGrid(b, k)) == k
  {
    GridQuotient(b.min as real, b.step as real, k);
    IntGridReal(b, k);
    assert (IntGrid(b, k) - b.min) as real == IntGrid(b, k) as real - b.min as real;
    RoundedExact(k, IntMaxIdx(b));
    hide Clamped, IntMaxIdx, Quotient, GridPoint;
  }

  // ---- Real ranges -------------------------------------------------------

  lemma RealNearestIsNearest(b: Bounds, val: real)
    requires b.RealBounds? && WellFormed(b)
    ensures InRange(b, RealValue(RealNearest(b, val)))
    ensures b.stride > 0.0 ==>
              forall k: nat :: RealGrid(b, k) <= b.high ==> AtLeastAsClose(RealNearest(b, val), RealGrid(b, k), val)
    ensures b.stride <= 0.0 ==>
              forall y :: Within(b, y) ==> AtLeastAsClose(RealNearest(b, val), y, val)
  {
    if b.stride > 0.0 {
      RealNearestOnGrid(b, val);
    } else {
      forall y | Within(b, y)
        ensures AtLeastAsClose(RealNearest(b, val), y, val)
      {
      }
    }
  }

  lemma RealNearestOnGrid(b: Bounds, val: real)
    requires b.RealBounds? && WellFormed(b) && b.stride > 0.0
    ensures InRange(b, RealValue(RealNearest(b, val)))
    ensures forall k: nat :: RealGrid(b, k) <= b.high ==> AtLeastAsClose(RealNearest(b, val), RealGrid(b, k), val)
  {
    var i := RealIndex(b, val);
    assert i <= RealMaxIdx(b);
    assert RealNearest(b, val) == RealGrid(b, i);
    GridBoundIff(b.low, b.high, b.stride, i);
    MulPositive(i as real, b.stride);
    assert b.low <= RealGrid(b, i);
    hide Clamped, AtLeastAsClose, Quotient, GridPoint;
    forall k: nat | RealGrid(b, k) <= b.high
      ensures AtLeastAsClose(RealNearest(b, val), RealGrid(b, k), val)
    {
      GridBoundIff(b.low, b.high, b.stride, k);
      GridClosest(b.low, b.stride, val, RealMaxIdx(b), k);
    }
  }

  lemma RealIndexOfValue(b: Bounds, idx: nat)
    requires b.RealBounds? && WellFormed(b) && b.stride > 0.0
    ensures RealIndex(b, RealAt(b, idx)) == if idx <= RealMaxIdx(b) then idx else RealMaxIdx(b)
    ensures InRange(b, RealValue(RealAt(b, idx)))
  {
    var k := if idx <= RealMaxIdx(b) then idx else RealMaxIdx(b);
    GridBoundIff(b.low, b.high, b.stride, k);
    MulPositive(k as real, b.stride);
    assert RealAt(b, idx) == RealGrid(b, k);
    RealIndexOfGrid(b, k);
  }

  lemma RealIndexOfGrid(b: Bounds, k: nat)
    requires b.RealBounds? && WellFormed(b) && b.stride > 0.0 && k <= RealMaxIdx(b)
    ensures RealIndex(b, RealGrid(b, k)) == k
  {
    GridQuotient(b.low, b.stride, k);
    RoundedExact(k, RealMaxIdx(b));
    hide Clamped, RealMaxIdx, Quotient, GridPoint;
  }

  // ---- Points ------------------------------------------------------------

  /** Whether a value is of the range's type. */
  predicate SameType(b: Bounds, v: Value) {
    match b
    case IntBounds(_, _, _) => v.IntValue?
    case RealBounds(_, _, _) => v.RealValue?
    case StrBounds(_) => v.StrValue?
  }

  /** What a coordinate becomes. */
  function Aligned(b: Bounds, v: Value): Value
    requires WellFormed(b) && SameType(b, v)
  {
    match b
    case IntBounds(_, _, _) => IntValue(IntNearest(b, v.i))
    case RealBounds(_, _, _) => RealValue(RealNearest(b, v.r))
    case StrBounds(members) => StrValue(members[StrIndex(members, v.s)])
  }

  /** Every coordinate lands in its range. */
  lemma AlignedInRange(b: Bounds, v: Value)
    requires WellFormed(b) && SameType(b, v)
    ensures InRange(b, Aligned(b, v)) && SameType(b, Aligned(b, v))
  {
    match b
    case IntBounds(_, _, _) => IntNearestIsNearest(b, v.i);
    case RealBounds(_, _, _) => RealNearestIsNearest(b, v.r);
    case StrBounds(_) =>
  }

  /** A coordinate is left alone exactly when it is in its range already. */
  lemma AlignedFixedIff(b: Bounds, v: Value)
    requires WellFormed(b) && SameType(b, v)
    ensures Aligned(b, v) == v <==> InRange(b, v)
  {
    AlignedInRange(b, v);
    if InRange(b, v) {
      match b
      case IntBounds(_, _, _) =>
        var k: nat :| v.i == IntGrid(b, k);
        IntBoundIff(b, k);
        IntIndexOfGrid(b, k);
      case RealBounds(_, _, _) =>
        if b.stride > 0.0 {
          var k: nat :| v.r == RealGrid(b, k);
          GridBoundIff(b.low, b.high, b.stride, k);
          RealIndexOfGrid(b, k);
        }
      case StrBounds(_) =>
    }
  }

  /** So aligning twice is aligning once. */
  lemma AlignedIdempotent(b: Bounds, v: Value)
    requires WellFormed(b) && SameType(b, v)
    ensures SameType(b, Aligned(b, v)) && Aligned(b, Aligned(b, v)) == Aligned(b, v)
  {
    AlignedInRange(b, v);
    AlignedFixedIff(b, Aligned(b, v));
  }

  /** The first coordinate whose type is not its range's. */
  function FirstMismatch(sig: seq<Bounds>, vals: seq<Value>, i: nat): (r: nat)
    requires |sig| == |vals| && i <= |vals|
    ensures i <= r <= |vals| && (r < |vals| ==> !SameType(sig[r], vals[r]))
    ensures forall k :: i <= k < r ==> SameType(sig[k], vals[k])
    decreases |vals| - i
  {
    if i == |vals| || !SameType(sig[i], vals[i]) then i else FirstMismatch(sig, vals, i + 1)
  }

  /** hpoint_align: 0, or -1 when the point does not fit the signature.  A value of
      the wrong type is only noticed when its turn comes, so the ones in front of it
      have been moved by then. */
  method Align(vals: array<Value>, sig: seq<Bounds>) returns (r: int)
    requires forall b :: b in sig ==> WellFormed(b)
    modifies vals
    ensures vals.Length != |sig| ==> r == -1 && vals[..] == old(vals[..])
    ensures vals.Length == |sig| ==>
              var m := FirstMismatch(sig, old(vals[..]), 0);
              && r == (if m == |sig| then 0 else -1)
              && (forall k :: 0 <= k < m ==> vals[k] == Aligned(sig[k], old(vals[k])))
              && (forall k :: m <= k < |sig| ==> vals[k] == old(vals[k]))
  {
    if vals.Length != |sig| {
      return -1;
    }
    ghost var was := vals[..];
    var i := 0;
    while i < vals.Length
      invariant 0 <= i <= vals.Length && vals.Length == |sig|
      invariant FirstMismatch(sig, was, 0) == FirstMismatch(sig, was, i)
      invariant forall k :: 0 <= k < i ==> SameType(sig[k], was[k]) && vals[k] == Aligned(sig[k], was[k])
      invariant forall k :: i <= k < |sig| ==> vals[k] == was[k]
    {
      assert sig[i] in sig;
      if !SameType(sig[i], vals[i]) {
        return -1;
      }
      vals[i] := Aligned(sig[i], vals[i]);
      i := i + 1;
    }
    r := 0;
  }
}

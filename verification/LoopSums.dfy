/** Sums over boxes of a four-dimensional iteration space.  A loop nest that
    executes a statement once for every point of a box, in whatever order,
    contributes the box's sum; boxes can be cut along any dimension. */
module LoopSums {

  /** A weight for every point (stencil entry, plane, row, column). */
  type Weight = (int, int, int, int) -> real

  /** A box: half-open ranges of stencil entries, planes, rows and columns. */
  datatype Region = Region(s0: int, s1: int, k0: int, k1: int, j0: int, j1: int, i0: int, i1: int)

  function Columns(w: Weight, s: int, k: int, j: int, i0: int, i1: int): real
    decreases i1 - i0
  {
    if i0 >= i1 then 0.0 else Columns(w, s, k, j, i0, i1 - 1) + w(s, k, j, i1 - 1)
  }

  function Rows(w: Weight, s: int, k: int, j0: int, j1: int, i0: int, i1: int): real
    decreases j1 - j0
  {
    if j0 >= j1 then 0.0 else Rows(w, s, k, j0, j1 - 1, i0, i1) + Columns(w, s, k, j1 - 1, i0, i1)
  }

  function Planes(w: Weight, s: int, k0: int, k1: int, j0: int, j1: int, i0: int, i1: int): real
    decreases k1 - k0
  {
    if k0 >= k1 then 0.0 else Planes(w, s, k0, k1 - 1, j0, j1, i0, i1) + Rows(w, s, k1 - 1, j0, j1, i0, i1)
  }

  function Stencil(w: Weight, s0: int, s1: int, k0: int, k1: int, j0: int, j1: int, i0: int, i1: int): real
    decreases s1 - s0
  {
    if s0 >= s1 then 0.0
    else Stencil(w, s0, s1 - 1, k0, k1, j0, j1, i0, i1) + Planes(w, s1 - 1, k0, k1, j0, j1, i0, i1)
  }

  /** The sum over a box. */
  function Box(w: Weight, r: Region): real {
    Stencil(w, r.s0, r.s1, r.k0, r.k1, r.j0, r.j1, r.i0, r.i1)
  }

  /** `r` is `a` followed by `b` along one of the dimensions. */
  predicate Cut(r: Region, a: Region, b: Region) {
    || (a.s1 == b.s0 && r.s0 <= a.s1 <= r.s1 && a == r.(s1 := a.s1) && b == r.(s0 := a.s1))
    || (a.k1 == b.k0 && r.k0 <= a.k1 <= r.k1 && a == r.(k1 := a.k1) && b == r.(k0 := a.k1))
    || (a.j1 == b.j0 && r.j0 <= a.j1 <= r.j1 && a == r.(j1 := a.j1) && b == r.(j0 := a.j1))
    || (a.i1 == b.i0 && r.i0 <= a.i1 <= r.i1 && a == r.(i1 := a.i1) && b == r.(i0 := a.i1))
  }

  lemma {:induction false} CutColumns(w: Weight, s: int, k: int, j: int, i0: int, m: int, i1: int)
    requires i0 <= m <= i1
    ensures Columns(w, s, k, j, i0, i1) == Columns(w, s, k, j, i0, m) + Columns(w, s, k, j, m, i1)
    decreases i1 - m
  {
    if m < i1 {
      CutColumns(w, s, k, j, i0, m, i1 - 1);
    }
  }

  lemma {:induction false} CutRowsI(w: Weight, s: int, k: int, j0: int, j1: int, i0: int, m: int, i1: int)
    requires i0 <= m <= i1
    ensures Rows(w, s, k, j0, j1, i0, i1) == Rows(w, s, k, j0, j1, i0, m) + Rows(w, s, k, j0, j1, m, i1)
    decreases j1 - j0
  {
    if j0 < j1 {
      CutRowsI(w, s, k, j0, j1 - 1, i0, m, i1);
      CutColumns(w, s, k, j1 - 1, i0, m, i1);
    }
  }

  lemma {:induction false} CutRowsJ(w: Weight, s: int, k: int, j0: int, m: int, j1: int, i0: int, i1: int)
    requires j0 <= m <= j1
    ensures Rows(w, s, k, j0, j1, i0, i1) == Rows(w, s, k, j0, m, i0, i1) + Rows(w, s, k, m, j1, i0, i1)
    decreases j1 - m
  {
    if m < j1 {
      CutRowsJ(w, s, k, j0, m, j1 - 1, i0, i1);
    }
  }

  lemma {:induction false} CutPlanesI(w: Weight, s: int, k0: int, k1: int, j0: int, j1: int, i0: int, m: int, i1: int)
    requires i0 <= m <= i1
    ensures Planes(w, s, k0, k1, j0, j1, i0, i1) ==
            Planes(w, s, k0, k1, j0, j1, i0, m) + Planes(w, s, k0, k1, j0, j1, m, i1)
    decreases k1 - k0
  {
    if k0 < k1 {
      CutPlanesI(w, s, k0, k1 - 1, j0, j1, i0, m, i1);
      CutRowsI(w, s, k1 - 1, j0, j1, i0, m, i1);
    }
  }

  lemma {:induction false} CutPlanesJ(w: Weight, s: int, k0: int, k1: int, j0: int, m: int, j1: int, i0: int, i1: int)
    requires j0 <= m <= j1
    ensures Planes(w, s, k0, k1, j0, j1, i0, i1) ==
            Planes(w, s, k0, k1, j0, m, i0, i1) + Planes(w, s, k0, k1, m, j1, i0, i1)
    decreases k1 - k0
  {
    if k0 < k1 {
      CutPlanesJ(w, s, k0, k1 - 1, j0, m, j1, i0, i1);
      CutRowsJ(w, s, k1 - 1, j0, m, j1, i0, i1);
    }
  }

  lemma {:induction false} CutPlanesK(w: Weight, s: int, k0: int, m: int, k1: int, j0: int, j1: int, i0: int, i1: int)
    requires k0 <= m <= k1
    ensures Planes(w, s, k0, k1, j0, j1, i0, i1) ==
            Planes(w, s, k0, m, j0, j1, i0, i1) + Planes(w, s, m, k1, j0, j1, i0, i1)
    decreases k1 - m
  {
    if m < k1 {
      CutPlanesK(w, s, k0, m, k1 - 1, j0, j1, i0, i1);
    }
  }

  lemma {:induction false} CutS(w: Weight, r: Region, m: int)
    requires r.s0 <= m <= r.s1
    ensures Box(w, r) == Box(w, r.(s1 := m)) + Box(w, r.(s0 := m))
    decreases r.s1 - m
  {
    if m < r.s1 {
      CutS(w, r.(s1 := r.s1 - 1), m);
    }
  }

  lemma {:induction false} CutK(w: Weight, r: Region, m: int)
    requires r.k0 <= m <= r.k1
    ensures Box(w, r) == Box(w, r.(k1 := m)) + Box(w, r.(k0 := m))
    decreases r.s1 - r.s0
  {
    if r.s0 < r.s1 {
      CutK(w, r.(s1 := r.s1 - 1), m);
      CutPlanesK(w, r.s1 - 1, r.k0, m, r.k1, r.j0, r.j1, r.i0, r.i1);
    }
  }

  lemma {:induction false} CutJ(w: Weight, r: Region, m: int)
    requires r.j0 <= m <= r.j1
    ensures Box(w, r) == Box(w, r.(j1 := m)) + Box(w, r.(j0 := m))
    decreases r.s1 - r.s0
  {
    if r.s0 < r.s1 {
      CutJ(w, r.(s1 := r.s1 - 1), m);
      CutPlanesJ(w, r.s1 - 1, r.k0, r.k1, r.j0, m, r.j1, r.i0, r.i1);
    }
  }

  lemma {:induction false} CutI(w: Weight, r: Region, m: int)
    requires r.i0 <= m <= r.i1
    ensures Box(w, r) == Box(w, r.(i1 := m)) + Box(w, r.(i0 := m))
    decreases r.s1 - r.s0
  {
    if r.s0 < r.s1 {
      CutI(w, r.(s1 := r.s1 - 1), m);
      CutPlanesI(w, r.s1 - 1, r.k0, r.k1, r.j0, r.j1, r.i0, m, r.i1);
    }
  }

  /** A box's sum is the sum over its two parts, whichever way it is cut: tiling
      any loop and running the tiles in any order changes no sum. */
  lemma CutBox(w: Weight, r: Region, a: Region, b: Region)
    requires Cut(r, a, b)
    ensures Box(w, r) == Box(w, a) + Box(w, b)
  {
    if a == r.(s1 := a.s1) && b == r.(s0 := a.s1) && r.s0 <= a.s1 <= r.s1 {
      CutS(w, r, a.s1);
    } else if a == r.(k1 := a.k1) && b == r.(k0 := a.k1) && r.k0 <= a.k1 <= r.k1 {
      CutK(w, r, a.k1);
    } else if a == r.(j1 := a.j1) && b == r.(j0 := a.j1) && r.j0 <= a.j1 <= r.j1 {
      CutJ(w, r, a.j1);
    } else {
      CutI(w, r, a.i1);
    }
  }

  predicate IsEmpty(r: Region) {
    r.s0 >= r.s1 || r.k0 >= r.k1 || r.j0 >= r.j1 || r.i0 >= r.i1
  }

  lemma {:induction false} EmptyRows(w: Weight, s: int, k: int, j0: int, j1: int, i0: int, i1: int)
    requires j0 >= j1 || i0 >= i1
    ensures Rows(w, s, k, j0, j1, i0, i1) == 0.0
    decreases j1 - j0
  {
    if j0 < j1 {
      EmptyRows(w, s, k, j0, j1 - 1, i0, i1);
    }
  }

  lemma {:induction false} EmptyPlanes(w: Weight, s: int, k0: int, k1: int, j0: int, j1: int, i0: int, i1: int)
    requires k0 >= k1 || j0 >= j1 || i0 >= i1
    ensures Planes(w, s, k0, k1, j0, j1, i0, i1) == 0.0
    decreases k1 - k0
  {
    if k0 < k1 {
      EmptyPlanes(w, s, k0, k1 - 1, j0, j1, i0, i1);
      EmptyRows(w, s, k1 - 1, j0, j1, i0, i1);
    }
  }

  lemma {:induction false} EmptyBox(w: Weight, r: Region)
    requires IsEmpty(r)
    ensures Box(w, r) == 0.0
    decreases r.s1 - r.s0
  {
    if r.s0 < r.s1 {
      EmptyBox(w, r.(s1 := r.s1 - 1));
      EmptyPlanes(w, r.s1 - 1, r.k0, r.k1, r.j0, r.j1, r.i0, r.i1);
    }
  }

  function Point(s: int, k: int, j: int, i: int): Region {
    Region(s, s + 1, k, k + 1, j, j + 1, i, i + 1)
  }

  lemma PointBox(w: Weight, s: int, k: int, j: int, i: int)
    ensures Box(w, Point(s, k, j, i)) == w(s, k, j, i)
  {
    assert Columns(w, s, k, j, i, i + 1) == Columns(w, s, k, j, i, i) + w(s, k, j, i);
    assert Rows(w, s, k, j, j + 1, i, i + 1) == Rows(w, s, k, j, j, i, i + 1) + Columns(w, s, k, j, i, i + 1);
    assert Planes(w, s, k, k + 1, j, j + 1, i, i + 1) ==
           Planes(w, s, k, k, j, j + 1, i, i + 1) + Rows(w, s, k, j, j + 1, i, i + 1);
    assert Stencil(w, s, s + 1, k, k + 1, j, j + 1, i, i + 1) ==
           Stencil(w, s, s, k, k + 1, j, j + 1, i, i + 1) + Planes(w, s, k, k + 1, j, j + 1, i, i + 1);
  }

  // ---- Counting executions -----------------------------------------------

  predicate Inside(r: Region, s: int, k: int, j: int, i: int) {
    r.s0 <= s < r.s1 && r.k0 <= k < r.k1 && r.j0 <= j < r.j1 && r.i0 <= i < r.i1
  }

  /** One at a single point, nothing elsewhere. */
  function Only(s: int, k: int, j: int, i: int): Weight {
    (s', k', j', i') => if s' == s && k' == k && j' == j && i' == i then 1.0 else 0.0
  }

  lemma {:induction false} OnlyColumns(s: int, k: int, j: int, i: int, s': int, k': int, j': int, i0: int, i1: int)
    ensures Columns(Only(s, k, j, i), s', k', j', i0, i1) ==
            if s' == s && k' == k && j' == j && i0 <= i < i1 then 1.0 else 0.0
    decreases i1 - i0
  {
    if i0 < i1 {
      OnlyColumns(s, k, j, i, s', k', j', i0, i1 - 1);
    }
  }

  lemma {:induction false} OnlyRows(s: int, k: int, j: int, i: int, s': int, k': int,
                                    j0: int, j1: int, i0: int, i1: int)
    ensures Rows(Only(s, k, j, i), s', k', j0, j1, i0, i1) ==
            if s' == s && k' == k && j0 <= j < j1 && i0 <= i < i1 then 1.0 else 0.0
    decreases j1 - j0
  {
    if j0 < j1 {
      OnlyRows(s, k, j, i, s', k', j0, j1 - 1, i0, i1);
      OnlyColumns(s, k, j, i, s', k', j1 - 1, i0, i1);
    }
  }

  lemma {:induction false} OnlyPlanes(s: int, k: int, j: int, i: int, s': int,
                                      k0: int, k1: int, j0: int, j1: int, i0: int, i1: int)
    ensures Planes(Only(s, k, j, i), s', k0, k1, j0, j1, i0, i1) ==
            if s' == s && k0 <= k < k1 && j0 <= j < j1 && i0 <= i < i1 then 1.0 else 0.0
    decreases k1 - k0
  {
    if k0 < k1 {
      OnlyPlanes(s, k, j, i, s', k0, k1 - 1, j0, j1, i0, i1);
      OnlyRows(s, k, j, i, s', k1 - 1, j0, j1, i0, i1);
    }
  }

  /** Every point of a box is counted exactly once in its sum, and no other
      point is. */
  lemma {:induction false} CountedOnce(r: Region, s: int, k: int, j: int, i: int)
    ensures Box(Only(s, k, j, i), r) == if Inside(r, s, k, j, i) then 1.0 else 0.0
    decreases r.s1 - r.s0
  {
    if r.s0 < r.s1 {
      CountedOnce(r.(s1 := r.s1 - 1), s, k, j, i);
      OnlyPlanes(s, k, j, i, r.s1 - 1, r.k0, r.k1, r.j0, r.j1, r.i0, r.i1);
    }
  }

  /** No point of the box but this one has any weight. */
  ghost predicate ZeroElsewhere(w: Weight, r: Region, s: int, k: int, j: int, i: int) {
    forall s', k', j', i' :: Inside(r, s', k', j', i') && !(s' == s && k' == k && j' == j && i' == i) ==>
                               w(s', k', j', i') == 0.0
  }

  lemma {:induction false} OneColumn(w: Weight, r: Region, s: int, k: int, j: int, i: int,
                                     s': int, k': int, j': int, i1: int)
    requires ZeroElsewhere(w, r, s, k, j, i)
    requires r.s0 <= s' < r.s1 && r.k0 <= k' < r.k1 && r.j0 <= j' < r.j1 && i1 <= r.i1
    ensures Columns(w, s', k', j', r.i0, i1) ==
            if s' == s && k' == k && j' == j && r.i0 <= i < i1 then w(s, k, j, i) else 0.0
    decreases i1 - r.i0
  {
    if r.i0 < i1 {
      OneColumn(w, r, s, k, j, i, s', k', j', i1 - 1);
      assert Inside(r, s', k', j', i1 - 1);
    }
  }

  lemma {:induction false} OneRow(w: Weight, r: Region, s: int, k: int, j: int, i: int, s': int, k': int, j1: int)
    requires ZeroElsewhere(w, r, s, k, j, i) && r.s0 <= s' < r.s1 && r.k0 <= k' < r.k1 && j1 <= r.j1
    ensures Rows(w, s', k', r.j0, j1, r.i0, r.i1) ==
            if s' == s && k' == k && r.j0 <= j < j1 && r.i0 <= i < r.i1 then w(s, k, j, i) else 0.0
    decreases j1 - r.j0
  {
    if r.j0 < j1 {
      OneRow(w, r, s, k, j, i, s', k', j1 - 1);
      OneColumn(w, r, s, k, j, i, s', k', j1 - 1, r.i1);
    }
  }

  lemma {:induction false} OnePlane(w: Weight, r: Region, s: int, k: int, j: int, i: int, s': int, k1: int)
    requires ZeroElsewhere(w, r, s, k, j, i) && r.s0 <= s' < r.s1 && k1 <= r.k1
    ensures Planes(w, s', r.k0, k1, r.j0, r.j1, r.i0, r.i1) ==
            if s' == s && r.k0 <= k < k1 && r.j0 <= j < r.j1 && r.i0 <= i < r.i1 then w(s, k, j, i) else 0.0
    decreases k1 - r.k0
  {
    if r.k0 < k1 {
      OnePlane(w, r, s, k, j, i, s', k1 - 1);
      OneRow(w, r, s, k, j, i, s', k1 - 1, r.j1);
    }
  }

  /** If only one point of a box has any weight, that is the box's sum. */
  lemma {:induction false} OneTerm(w: Weight, r: Region, s: int, k: int, j: int, i: int, s1: int)
    requires ZeroElsewhere(w, r, s, k, j, i) && s1 <= r.s1
    ensures Box(w, r.(s1 := s1)) == if Inside(r.(s1 := s1), s, k, j, i) then w(s, k, j, i) else 0.0
    decreases s1 - r.s0
  {
    if r.s0 < s1 {
      OneTerm(w, r, s, k, j, i, s1 - 1);
      OnePlane(w, r, s, k, j, i, s1 - 1, r.k1);
    }
  }

  /** Two boxes have the same sum for all weights exactly when they have the same
      points. */
  lemma SameSumsIff(a: Region, b: Region)
    requires b == a.(k1 := b.k1)
    ensures (forall w: Weight :: Box(w, a) == Box(w, b)) <==>
            a.k1 == b.k1 || (IsEmpty(a) && IsEmpty(b))
  {
    if a.k1 == b.k1 {
    } else if IsEmpty(a) && IsEmpty(b) {
      forall w: Weight
        ensures Box(w, a) == Box(w, b)
      {
        EmptyBox(w, a);
        EmptyBox(w, b);
      }
    } else {
      var k := if a.k1 < b.k1 then b.k1 - 1 else a.k1 - 1;
      var w := Only(a.s0, k, a.j0, a.i0);
      CountedOnce(a, a.s0, k, a.j0, a.i0);
      CountedOnce(b, a.s0, k, a.j0, a.i0);
      assert Box(w, a) != Box(w, b);
    }
  }

  // ---- Weights that are never negative -------------------------------------

  ghost predicate NonNegative(w: Weight) {
    forall s, k, j, i :: w(s, k, j, i) >= 0.0
  }

  lemma {:induction false} ColumnsAtLeast(w: Weight, s: int, k: int, j: int, i0: int, i1: int, i: int)
    requires NonNegative(w)
    ensures Columns(w, s, k, j, i0, i1) >= if i0 <= i < i1 then w(s, k, j, i) else 0.0
    decreases i1 - i0
  {
    if i0 < i1 {
      ColumnsAtLeast(w, s, k, j, i0, i1 - 1, i);
    }
  }

  lemma {:induction false} RowsAtLeast(w: Weight, s: int, k: int, j0: int, j1: int, i0: int, i1: int, j: int, i: int)
    requires NonNegative(w)
    ensures Rows(w, s, k, j0, j1, i0, i1) >= if j0 <= j < j1 && i0 <= i < i1 then w(s, k, j, i) else 0.0
    decreases j1 - j0
  {
    if j0 < j1 {
      RowsAtLeast(w, s, k, j0, j1 - 1, i0, i1, j, i);
      ColumnsAtLeast(w, s, k, j1 - 1, i0, i1, i);
    }
  }

  lemma {:induction false} PlanesAtLeast(w: Weight, s: int, k0: int, k1: int, j0: int, j1: int, i0: int, i1: int,
                                         k: int, j: int, i: int)
    requires NonNegative(w)
    ensures Planes(w, s, k0, k1, j0, j1, i0, i1) >=
            if k0 <= k < k1 && j0 <= j < j1 && i0 <= i < i1 then w(s, k, j, i) else 0.0
    decreases k1 - k0
  {
    if k0 < k1 {
      PlanesAtLeast(w, s, k0, k1 - 1, j0, j1, i0, i1, k, j, i);
      RowsAtLeast(w, s, k1 - 1, j0, j1, i0, i1, j, i);
    }
  }

  /** Then a box's sum is at least the weight of any of its points. */
  lemma {:induction false} BoxAtLeast(w: Weight, r: Region, s: int, k: int, j: int, i: int)
    requires NonNegative(w)
    ensures Box(w, r) >= if Inside(r, s, k, j, i) then w(s, k, j, i) else 0.0
    decreases r.s1 - r.s0
  {
    if r.s0 < r.s1 {
      BoxAtLeast(w, r.(s1 := r.s1 - 1), s, k, j, i);
      PlanesAtLeast(w, r.s1 - 1, r.k0, r.k1, r.j0, r.j1, r.i0, r.i1, k, j, i);
    }
  }

  /** And a box with more planes has a larger sum, if some point of the planes
      added has a positive weight. */
  lemma MorePlanes(w: Weight, a: Region, b: Region, s: int, k: int, j: int, i: int)
    requires NonNegative(w) && b == a.(k1 := b.k1) && a.k1 <= b.k1
    requires Inside(b, s, k, j, i) && !Inside(a, s, k, j, i) && w(s, k, j, i) > 0.0
    ensures Box(w, a) < Box(w, b)
  {
    if a.k0 <= a.k1 {
      CutK(w, b, a.k1);
      BoxAtLeast(w, b.(k0 := a.k1), s, k, j, i);
    } else {
      EmptyBox(w, a);
      BoxAtLeast(w, b, s, k, j, i);
    }
  }
}

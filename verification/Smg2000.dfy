/** The semicoarsening kernel: the original loop nest, the nest tiled by 12 and
    unrolled by 2, and the nest tiled by 48 and unrolled 12 by 12.  All three
    subtract, from cells of one array, products read from two others. */
module Smg2000 {
  import opened LoopSums
  import opened Numbers

  /** The kernel's arguments.  `ap` and `xp` are what the two input pointers see;
      they are not written, so they do not overlap the array that is. */
  datatype Kernel = Kernel(
    ri: int, size: int, mx: int, my: int, mz: int,
    sy1: int, sz1: int, sy2: int, sz2: int, sy3: int, sz3: int,
    dataIndex: int -> int, dxp: int -> int, ap: int -> real, xp: int -> real)

  function Target(e: Kernel, k: int, j: int, i: int): int {
    e.ri + i + j * e.sy3 + k * e.sz3
  }

  function Term(e: Kernel, s: int, k: int, j: int, i: int): real {
    e.ap(i + j * e.sy1 + k * e.sz1 + e.dataIndex(s)) * e.xp(i + j * e.sy2 + k * e.sz2 + e.dxp(s))
  }

  /** What each point of the iteration space takes from cell c. */
  function Takes(e: Kernel, c: int): Weight {
    (s, k, j, i) => if Target(e, k, j, i) == c then Term(e, s, k, j, i) else 0.0
  }

  /** The cells a box of iterations writes exist. */
  ghost predicate Fits(e: Kernel, len: int, r: Region) {
    forall k, j, i :: r.k0 <= k < r.k1 && r.j0 <= j < r.j1 && r.i0 <= i < r.i1 ==> 0 <= Target(e, k, j, i) < len
  }

  /** `now` is `was` with the sum over the box taken from every cell. */
  ghost predicate Taken(e: Kernel, was: seq<real>, now: seq<real>, r: Region) {
    |now| == |was| && forall c :: 0 <= c < |was| ==> now[c] == was[c] - Box(Takes(e, c), r)
  }

  lemma TakenNothing(e: Kernel, was: seq<real>, r: Region)
    requires IsEmpty(r)
    ensures Taken(e, was, was, r)
  {
    forall c | 0 <= c < |was|
      ensures Box(Takes(e, c), r) == 0.0
    {
      EmptyBox(Takes(e, c), r);
    }
  }

  lemma TakenNeither(e: Kernel, was: seq<real>, now: seq<real>, a: Region, b: Region)
    requires IsEmpty(a) && IsEmpty(b) && Taken(e, was, now, a)
    ensures Taken(e, was, now, b)
  {
    forall c | 0 <= c < |was|
      ensures Box(Takes(e, c), a) == Box(Takes(e, c), b)
    {
      EmptyBox(Takes(e, c), a);
      EmptyBox(Takes(e, c), b);
    }
  }

  lemma TakenBoth(e: Kernel, was: seq<real>, mid: seq<real>, now: seq<real>, a: Region, b: Region, r: Region)
    requires Taken(e, was, mid, a) && Taken(e, mid, now, b) && Cut(r, a, b)
    ensures Taken(e, was, now, r)
  {
    forall c | 0 <= c < |was|
      ensures now[c] == was[c] - Box(Takes(e, c), r)
    {
      CutBox(Takes(e, c), r, a, b);
    }
  }

  /** The remainder as C computes it: it has the sign of the dividend. */
  function Rem(a: int, b: int): int
    requires b > 0
  {
    if a >= 0 then a % b else -((-a) % b)
  }

  /** The whole iteration space. */
  function Whole(e: Kernel): Region {
    Region(0, e.size, 0, e.mz, 0, e.my, 0, e.mx)
  }

  /** Which cells an iteration reads and writes: if `ap` is one at the place it reads and
      zero elsewhere, and no other iteration reads that place, exactly the cell it writes
      changes, by the value of `xp` it reads. */
  lemma TakenOnce(e: Kernel, was: seq<real>, now: seq<real>, s: int, k: int, j: int, i: int, c: nat)
    requires Taken(e, was, now, Whole(e)) && c < |was|
    requires 0 <= s < e.size && 0 <= k < e.mz && 0 <= j < e.my && 0 <= i < e.mx
    requires forall a :: e.ap(a) == if a == i + j * e.sy1 + k * e.sz1 + e.dataIndex(s) then 1.0 else 0.0
    requires forall s', k', j', i' {:trigger Inside(Whole(e), s', k', j', i')} ::
               (&& 0 <= s' < e.size && 0 <= k' < e.mz && 0 <= j' < e.my && 0 <= i' < e.mx
                && i' + j' * e.sy1 + k' * e.sz1 + e.dataIndex(s') == i + j * e.sy1 + k * e.sz1 + e.dataIndex(s)) ==>
                 s' == s && k' == k && j' == j && i' == i
    ensures |now| == |was|
    ensures now[c] == if c == e.ri + i + j * e.sy3 + k * e.sz3
                      then was[c] - e.xp(i + j * e.sy2 + k * e.sz2 + e.dxp(s)) else was[c]
  {
    var w := Takes(e, c);
    forall s', k', j', i' | Inside(Whole(e), s', k', j', i') && !(s' == s && k' == k && j' == j && i' == i)
      ensures w(s', k', j', i') == 0.0
    {
      assert Term(e, s', k', j', i') == 0.0;
    }
    OneTerm(w, Whole(e), s, k, j, i, e.size);
  }

  /** The one statement of every nest. */
  method Statement(e: Kernel, rp: array<real>, s: int, k: int, j: int, i: int)
    requires 0 <= Target(e, k, j, i) < rp.Length
    modifies rp
    ensures Taken(e, old(rp[..]), rp[..], Point(s, k, j, i))
  {
    ghost var was := rp[..];
    rp[Target(e, k, j, i)] := rp[Target(e, k, j, i)] - Term(e, s, k, j, i);
    forall c | 0 <= c < |was|
      ensures rp[c] == was[c] - Box(Takes(e, c), Point(s, k, j, i))
    {
      PointBox(Takes(e, c), s, k, j, i);
    }
  }

  // ---- The original nest -------------------------------------------------

  method OriginalRow(e: Kernel, rp: array<real>, s: int, k: int, j: int)
    requires Fits(e, rp.Length, Region(s, s + 1, k, k + 1, j, j + 1, 0, e.mx))
    modifies rp
    ensures Taken(e, old(rp[..]), rp[..], Region(s, s + 1, k, k + 1, j, j + 1, 0, e.mx))
  {
    hide Taken, Target;
    ghost var was := rp[..];
    var ii := 0;
    TakenNothing(e, was, Region(s, s + 1, k, k + 1, j, j + 1, 0, ii));
    while ii < e.mx
      invariant 0 <= ii <= Max(0, e.mx)
      invariant Taken(e, was, rp[..], Region(s, s + 1, k, k + 1, j, j + 1, 0, ii))
    {
      ghost var mid := rp[..];
      Statement(e, rp, s, k, j, ii);
      TakenBoth(e, was, mid, rp[..], Region(s, s + 1, k, k + 1, j, j + 1, 0, ii), Point(s, k, j, ii),
                Region(s, s + 1, k, k + 1, j, j + 1, 0, ii + 1));
      ii := ii + 1;
    }
    if e.mx < 0 {
      TakenNeither(e, was, rp[..], Region(s, s + 1, k, k + 1, j, j + 1, 0, ii),
                   Region(s, s + 1, k, k + 1, j, j + 1, 0, e.mx));
    }
  }

  method OriginalPlane(e: Kernel, rp: array<real>, s: int, k: int)
    requires Fits(e, rp.Length, Region(s, s + 1, k, k + 1, 0, e.my, 0, e.mx))
    modifies rp
    ensures Taken(e, old(rp[..]), rp[..], Region(s, s + 1, k, k + 1, 0, e.my, 0, e.mx))
  {
    hide Taken, Target;
    ghost var was := rp[..];
    var jj := 0;
    TakenNothing(e, was, Region(s, s + 1, k, k + 1, 0, jj, 0, e.mx));
    while jj < e.my
      invariant 0 <= jj <= Max(0, e.my)
      invariant Taken(e, was, rp[..], Region(s, s + 1, k, k + 1, 0, jj, 0, e.mx))
    {
      ghost var mid := rp[..];
      OriginalRow(e, rp, s, k, jj);
      TakenBoth(e, was, mid, rp[..], Region(s, s + 1, k, k + 1, 0, jj, 0, e.mx),
                Region(s, s + 1, k, k + 1, jj, jj + 1, 0, e.mx), Region(s, s + 1, k, k + 1, 0, jj + 1, 0, e.mx));
      jj := jj + 1;
    }
    if e.my < 0 {
      TakenNeither(e, was, rp[..], Region(s, s + 1, k, k + 1, 0, jj, 0, e.mx),
                   Region(s, s + 1, k, k + 1, 0, e.my, 0, e.mx));
    }
  }

  method OriginalVolume(e: Kernel, rp: array<real>, s: int)
    requires Fits(e, rp.Length, Whole(e))
    modifies rp
    ensures Taken(e, old(rp[..]), rp[..], Whole(e).(s0 := s, s1 := s + 1))
  {
    hide Taken, Target;
    ghost var was := rp[..];
    var kk := 0;
    TakenNothing(e, was, Region(s, s + 1, 0, kk, 0, e.my, 0, e.mx));
    while kk < e.mz
      invariant 0 <= kk <= Max(0, e.mz)
      invariant Taken(e, was, rp[..], Region(s, s + 1, 0, kk, 0, e.my, 0, e.mx))
    {
      ghost var mid := rp[..];
      OriginalPlane(e, rp, s, kk);
      TakenBoth(e, was, mid, rp[..], Region(s, s + 1, 0, kk, 0, e.my, 0, e.mx),
                Region(s, s + 1, kk, kk + 1, 0, e.my, 0, e.mx), Region(s, s + 1, 0, kk + 1, 0, e.my, 0, e.mx));
      kk := kk + 1;
    }
    if e.mz < 0 {
      TakenNeither(e, was, rp[..], Region(s, s + 1, 0, kk, 0, e.my, 0, e.mx),
                   Region(s, s + 1, 0, e.mz, 0, e.my, 0, e.mx));
    }
  }

  /** The original loop nest: stencil entries outermost, columns innermost. */
  method Original(e: Kernel, rp: array<real>)
    requires Fits(e, rp.Length, Whole(e))
    modifies rp
    ensures Taken(e, old(rp[..]), rp[..], Whole(e))
  {
    hide Taken, Target;
    ghost var was := rp[..];
    var si := 0;
    TakenNothing(e, was, Whole(e).(s1 := si));
    while si < e.size
      invariant 0 <= si <= Max(0, e.size)
      invariant Taken(e, was, rp[..], Whole(e).(s1 := si))
    {
      ghost var mid := rp[..];
      OriginalVolume(e, rp, si);
      TakenBoth(e, was, mid, rp[..], Whole(e).(s1 := si), Whole(e).(s0 := si, s1 := si + 1), Whole(e).(s1 := si + 1));
      si := si + 1;
    }
    if e.size < 0 {
      TakenNeither(e, was, rp[..], Whole(e).(s1 := si), Whole(e));
    }
  }

  // ---- Tiled by 12, unrolled by 2 ----------------------------------------

  /** The two unrolled statements, over the columns of one tile. */
  method PairOverTile(e: Kernel, rp: array<real>, t8: int, t10: int, t12: int, t6: int)
    requires t6 < e.mx && Fits(e, rp.Length, Region(t12, t12 + 2, t8, t8 + 1, t10, t10 + 1, t6, Min(t6 + 12, e.mx)))
    modifies rp
    ensures Taken(e, old(rp[..]), rp[..], Region(t12, t12 + 2, t8, t8 + 1, t10, t10 + 1, t6, Min(t6 + 12, e.mx)))
  {
    hide Taken, Target;
    ghost var was := rp[..];
    ghost var r := Region(t12, t12 + 2, t8, t8 + 1, t10, t10 + 1, t6, t6);
    var t14 := t6;
    TakenNothing(e, was, r);
    while t14 <= Min(e.mx - 1, t6 + 11)
      invariant t6 <= t14 <= Min(t6 + 12, e.mx)
      invariant Taken(e, was, rp[..], r.(i1 := t14))
    {
      ghost var a := rp[..];
      Statement(e, rp, t12, t8, t10, t14);
      ghost var b := rp[..];
      Statement(e, rp, t12 + 1, t8, t10, t14);
      ghost var both := r.(i0 := t14, i1 := t14 + 1);
      TakenBoth(e, a, b, rp[..], Point(t12, t8, t10, t14), Point(t12 + 1, t8, t10, t14), both);
      TakenBoth(e, was, a, rp[..], r.(i1 := t14), both, r.(i1 := t14 + 1));
      t14 := t14 + 1;
    }
  }

  /** One statement over the columns of one tile. */
  method SingleOverTile(e: Kernel, rp: array<real>, t8: int, t10: int, s: int, t6: int, width: nat)
    requires t6 < e.mx && 0 < width
    requires Fits(e, rp.Length, Region(s, s + 1, t8, t8 + 1, t10, t10 + 1, t6, Min(t6 + width, e.mx)))
    modifies rp
    ensures Taken(e, old(rp[..]), rp[..], Region(s, s + 1, t8, t8 + 1, t10, t10 + 1, t6, Min(t6 + width, e.mx)))
  {
    hide Taken, Target;
    ghost var was := rp[..];
    ghost var r := Region(s, s + 1, t8, t8 + 1, t10, t10 + 1, t6, t6);
    var t14 := t6;
    TakenNothing(e, was, r);
    while t14 <= Min(e.mx - 1, t6 + width - 1)
      invariant t6 <= t14 <= Min(t6 + width, e.mx)
      invariant Taken(e, was, rp[..], r.(i1 := t14))
    {
      ghost var a := rp[..];
      Statement(e, rp, s, t8, t10, t14);
      TakenBoth(e, was, a, rp[..], r.(i1 := t14), Point(s, t8, t10, t14), r.(i1 := t14 + 1));
      t14 := t14 + 1;
    }
  }

  /** All stencil entries for one row of a tile: pairs, then an odd one left over. */
  method TiledRow(e: Kernel, rp: array<real>, t8: int, t10: int, t6: int)
    requires t6 < e.mx && Fits(e, rp.Length, Region(0, e.size, t8, t8 + 1, t10, t10 + 1, t6, Min(t6 + 12, e.mx)))
    modifies rp
    ensures Taken(e, old(rp[..]), rp[..], Region(0, e.size, t8, t8 + 1, t10, t10 + 1, t6, Min(t6 + 12, e.mx)))
  {
    hide Taken, Target;
    ghost var was := rp[..];
    ghost var r := Region(0, 0, t8, t8 + 1, t10, t10 + 1, t6, Min(t6 + 12, e.mx));
    var over1 := Rem(e.size, 2);
    var t12 := 0;
    TakenNothing(e, was, r);
    while t12 <= e.size - over1 - 1
      invariant 0 <= t12 && t12 % 2 == 0 && (t12 <= e.size - over1 || t12 == 0)
      invariant Taken(e, was, rp[..], r.(s1 := t12))
    {
      ghost var a := rp[..];
      PairOverTile(e, rp, t8, t10, t12, t6);
      TakenBoth(e, was, a, rp[..], r.(s1 := t12), r.(s0 := t12, s1 := t12 + 2), r.(s1 := t12 + 2));
      t12 := t12 + 2;
    }
    if 1 <= over1 {
      ghost var a := rp[..];
      assert t12 == e.size - 1;
      SingleOverTile(e, rp, t8, t10, e.size - 1, t6, 12);
      TakenBoth(e, was, a, rp[..], r.(s1 := t12), r.(s0 := t12, s1 := e.size), r.(s1 := e.size));
    }
    if e.size < 0 {
      TakenNeither(e, was, rp[..], r.(s1 := t12), r.(s1 := e.size));
    }
  }

  method TiledRows(e: Kernel, rp: array<real>, t8: int, t4: int, t6: int)
    requires t4 < e.my && t6 < e.mx
    requires Fits(e, rp.Length, Region(0, e.size, t8, t8 + 1, t4, Min(t4 + 12, e.my), t6, Min(t6 + 12, e.mx)))
    modifies rp
    ensures Taken(e, old(rp[..]), rp[..],
                  Region(0, e.size, t8, t8 + 1, t4, Min(t4 + 12, e.my), t6, Min(t6 + 12, e.mx)))
  {
    hide Taken, Target;
    ghost var was := rp[..];
    ghost var r := Region(0, e.size, t8, t8 + 1, t4, t4, t6, Min(t6 + 12, e.mx));
    var t10 := t4;
    TakenNothing(e, was, r);
    while t10 <= Min(t4 + 11, e.my - 1)
      invariant t4 <= t10 <= Min(t4 + 12, e.my)
      invariant Taken(e, was, rp[..], r.(j1 := t10))
    {
      ghost var a := rp[..];
      TiledRow(e, rp, t8, t10, t6);
      TakenBoth(e, was, a, rp[..], r.(j1 := t10), r.(j0 := t10, j1 := t10 + 1), r.(j1 := t10 + 1));
      t10 := t10 + 1;
    }
  }

  method Tile(e: Kernel, rp: array<real>, t2: int, t4: int, t6: int)
    requires t2 < e.mz && t4 < e.my && t6 < e.mx
    requires Fits(e, rp.Length,
                  Region(0, e.size, t2, Min(t2 + 12, e.mz), t4, Min(t4 + 12, e.my), t6, Min(t6 + 12, e.mx)))
    modifies rp
    ensures Taken(e, old(rp[..]), rp[..],
                  Region(0, e.size, t2, Min(t2 + 12, e.mz), t4, Min(t4 + 12, e.my), t6, Min(t6 + 12, e.mx)))
  {
    hide Taken, Target;
    ghost var was := rp[..];
    ghost var r := Region(0, e.size, t2, t2, t4, Min(t4 + 12, e.my), t6, Min(t6 + 12, e.mx));
    var t8 := t2;
    TakenNothing(e, was, r);
    while t8 <= Min(t2 + 11, e.mz - 1)
      invariant t2 <= t8 <= Min(t2 + 12, e.mz)
      invariant Taken(e, was, rp[..], r.(k1 := t8))
    {
      ghost var a := rp[..];
      TiledRows(e, rp, t8, t4, t6);
      TakenBoth(e, was, a, rp[..], r.(k1 := t8), r.(k0 := t8, k1 := t8 + 1), r.(k1 := t8 + 1));
      t8 := t8 + 1;
    }
  }

  method TileColumns(e: Kernel, rp: array<real>, t2: int, t4: int)
    requires t2 < e.mz && t4 < e.my
    requires Fits(e, rp.Length, Region(0, e.size, t2, Min(t2 + 12, e.mz), t4, Min(t4 + 12, e.my), 0, e.mx))
    modifies rp
    ensures Taken(e, old(rp[..]), rp[..], Region(0, e.size, t2, Min(t2 + 12, e.mz), t4, Min(t4 + 12, e.my), 0, e.mx))
  {
    hide Taken, Target;
    ghost var was := rp[..];
    ghost var r := Region(0, e.size, t2, Min(t2 + 12, e.mz), t4, Min(t4 + 12, e.my), 0, 0);
    var t6 := 0;
    TakenNothing(e, was, r);
    while t6 <= e.mx - 1
      invariant 0 <= t6
      invariant Taken(e, was, rp[..], r.(i1 := Min(t6, Max(0, e.mx))))
    {
      ghost var a := rp[..];
      Tile(e, rp, t2, t4, t6);
      TakenBoth(e, was, a, rp[..], r.(i1 := t6), r.(i0 := t6, i1 := Min(t6 + 12, e.mx)), r.(i1 := Min(t6 + 12, e.mx)));
      t6 := t6 + 12;
    }
    if e.mx < 0 {
      TakenNeither(e, was, rp[..], r.(i1 := Min(t6, Max(0, e.mx))), r.(i1 := e.mx));
    }
  }

  method TileRows(e: Kernel, rp: array<real>, t2: int)
    requires t2 < e.mz && Fits(e, rp.Length, Region(0, e.size, t2, Min(t2 + 12, e.mz), 0, e.my, 0, e.mx))
    modifies rp
    ensures Taken(e, old(rp[..]), rp[..], Region(0, e.size, t2, Min(t2 + 12, e.mz), 0, e.my, 0, e.mx))
  {
    hide Taken, Target;
    ghost var was := rp[..];
    ghost var r := Region(0, e.size, t2, Min(t2 + 12, e.mz), 0, 0, 0, e.mx);
    var t4 := 0;
    TakenNothing(e, was, r);
    while t4 <= e.my - 1
      invariant 0 <= t4
      invariant Taken(e, was, rp[..], r.(j1 := Min(t4, Max(0, e.my))))
    {
      ghost var a := rp[..];
      TileColumns(e, rp, t2, t4);
      TakenBoth(e, was, a, rp[..], r.(j1 := t4), r.(j0 := t4, j1 := Min(t4 + 12, e.my)), r.(j1 := Min(t4 + 12, e.my)));
      t4 := t4 + 12;
    }
    if e.my < 0 {
      TakenNeither(e, was, rp[..], r.(j1 := Min(t4, Max(0, e.my))), r.(j1 := e.my));
    }
  }

  /** The nest tiled by 12 in three dimensions with the stencil loop unrolled by
      two: for all extents, strides and stencil sizes it takes from every cell
      exactly what the original nest takes. */
  method Tiled(e: Kernel, rp: array<real>)
    requires Fits(e, rp.Length, Whole(e))
    modifies rp
    ensures Taken(e, old(rp[..]), rp[..], Whole(e))
  {
    hide Taken, Target;
    ghost var was := rp[..];
    ghost var r := Whole(e).(k1 := 0);
    var t2 := 0;
    TakenNothing(e, was, r);
    while t2 <= e.mz - 1
      invariant 0 <= t2
      invariant Taken(e, was, rp[..], r.(k1 := Min(t2, Max(0, e.mz))))
    {
      ghost var a := rp[..];
      TileRows(e, rp, t2);
      TakenBoth(e, was, a, rp[..], r.(k1 := t2), r.(k0 := t2, k1 := Min(t2 + 12, e.mz)), r.(k1 := Min(t2 + 12, e.mz)));
      t2 := t2 + 12;
    }
    if e.mz < 0 {
      TakenNeither(e, was, rp[..], r.(k1 := Min(t2, Max(0, e.mz))), Whole(e));
    }
  }

  // ---- Tiled by 48, unrolled 12 by 12 ------------------------------------

  /** Twelve statements, one per stencil entry, for one column. */
  method TwelveEntries(e: Kernel, rp: array<real>, t8: int, t10: int, t12: int, t14: int)
    requires 0 <= Target(e, t8, t10, t14) < rp.Length
    modifies rp
    ensures Taken(e, old(rp[..]), rp[..], Region(t12, t12 + 12, t8, t8 + 1, t10, t10 + 1, t14, t14 + 1))
  {
    hide Taken, Target;
    ghost var was := rp[..];
    var p := Point(t12, t8, t10, t14);
    Statement(e, rp, t12, t8, t10, t14);
    Next(e, rp, was, p, 1);
    Next(e, rp, was, p, 2);
    Next(e, rp, was, p, 3);
    Next(e, rp, was, p, 4);
    Next(e, rp, was, p, 5);
    Next(e, rp, was, p, 6);
    Next(e, rp, was, p, 7);
    Next(e, rp, was, p, 8);
    Next(e, rp, was, p, 9);
    Next(e, rp, was, p, 10);
    Next(e, rp, was, p, 11);
  }

  /** The statement for the n-th entry after the first, following the ones before it. */
  method Next(e: Kernel, rp: array<real>, ghost was: seq<real>, p: Region, n: nat)
    requires p == Point(p.s0, p.k0, p.j0, p.i0) && 0 <= Target(e, p.k0, p.j0, p.i0) < rp.Length
    requires 0 < n && Taken(e, was, rp[..], p.(s1 := p.s0 + n))
    modifies rp
    ensures Taken(e, was, rp[..], p.(s1 := p.s0 + n + 1))
  {
    hide Taken, Target;
    ghost var a := rp[..];
    Statement(e, rp, p.s0 + n, p.k0, p.j0, p.i0);
    TakenBoth(e, was, a, rp[..], p.(s1 := p.s0 + n), p.(s0 := p.s0 + n, s1 := p.s0 + n + 1), p.(s1 := p.s0 + n + 1));
  }

  /** The unrolled block: twelve columns of twelve entries each. */
  method Block(e: Kernel, rp: array<real>, t8: int, t10: int, t12: int, t14: int)
    requires Fits(e, rp.Length, Region(t12, t12 + 12, t8, t8 + 1, t10, t10 + 1, t14, t14 + 12))
    modifies rp
    ensures Taken(e, old(rp[..]), rp[..], Region(t12, t12 + 12, t8, t8 + 1, t10, t10 + 1, t14, t14 + 12))
  {
    hide Taken, Target;
    ghost var was := rp[..];
    var r := Region(t12, t12 + 12, t8, t8 + 1, t10, t10 + 1, t14, t14 + 1);
    TwelveEntries(e, rp, t8, t10, t12, t14);
    NextColumn(e, rp, was, r, 1);
    NextColumn(e, rp, was, r, 2);
    NextColumn(e, rp, was, r, 3);
    NextColumn(e, rp, was, r, 4);
    NextColumn(e, rp, was, r, 5);
    NextColumn(e, rp, was, r, 6);
    NextColumn(e, rp, was, r, 7);
    NextColumn(e, rp, was, r, 8);
    NextColumn(e, rp, was, r, 9);
    NextColumn(e, rp, was, r, 10);
    NextColumn(e, rp, was, r, 11);
  }

  /** The n-th column after the first, following the ones before it. */
  method NextColumn(e: Kernel, rp: array<real>, ghost was: seq<real>, r: Region, n: nat)
    requires r == Region(r.s0, r.s0 + 12, r.k0, r.k0 + 1, r.j0, r.j0 + 1, r.i0, r.i0 + 1) && 0 < n
    requires 0 <= Target(e, r.k0, r.j0, r.i0 + n) < rp.Length && Taken(e, was, rp[..], r.(i1 := r.i0 + n))
    modifies rp
    ensures Taken(e, was, rp[..], r.(i1 := r.i0 + n + 1))
  {
    hide Taken, Target;
    ghost var a := rp[..];
    TwelveEntries(e, rp, r.k0, r.j0, r.s0, r.i0 + n);
    TakenBoth(e, was, a, rp[..], r.(i1 := r.i0 + n), r.(i0 := r.i0 + n, i1 := r.i0 + n + 1), r.(i1 := r.i0 + n + 1));
  }

  predicate Twelves(a: int) {
    a % 12 == 0
  }

  lemma NextTwelve(a: int, b: int)
    requires Twelves(a) && Twelves(b)
    ensures Twelves(a + 12) && (a < b ==> a + 12 <= b)
  {}

  lemma RemTwelve(a: int)
    requires 0 < a
    ensures 0 <= Rem(a, 12) <= a && Twelves(a - Rem(a, 12))
  {}

  lemma TileTwelves(a: int)
    requires Twelves(a)
    ensures Twelves(a + 36) && Twelves(a + 48)
  {}

  /** Twelve stencil entries over the whole blocks of twelve columns in one tile. */
  method BlocksOverTile(e: Kernel, rp: array<real>, t8: int, t10: int, t12: int, t6: int, over2: int)
    returns (ghost stop: int)
    requires 0 <= t6 < e.mx && Twelves(t6) && 0 <= over2 <= e.mx && Twelves(e.mx - over2)
    requires Fits(e, rp.Length, Region(t12, t12 + 12, t8, t8 + 1, t10, t10 + 1, t6, Min(t6 + 48, e.mx)))
    modifies rp
    ensures stop == Max(t6, Min(e.mx - over2, t6 + 48))
    ensures Taken(e, old(rp[..]), rp[..], Region(t12, t12 + 12, t8, t8 + 1, t10, t10 + 1, t6, stop))
  {
    hide Taken, Target, Twelves;
    ghost var was := rp[..];
    ghost var r := Region(t12, t12 + 12, t8, t8 + 1, t10, t10 + 1, t6, t6);
    var t14 := t6;
    TakenNothing(e, was, r);
    TileTwelves(t6);
    while t14 <= Min(e.mx - over2 - 1, t6 + 36)
      invariant t6 <= t14 && Twelves(t14) && t14 <= Max(t6, Min(e.mx - over2, t6 + 48))
      invariant Taken(e, was, rp[..], r.(i1 := t14))
    {
      NextTwelve(t14, e.mx - over2);
      NextTwelve(t14, t6 + 48);
      ghost var a := rp[..];
      Block(e, rp, t8, t10, t12, t14);
      TakenBoth(e, was, a, rp[..], r.(i1 := t14), r.(i0 := t14, i1 := t14 + 12), r.(i1 := t14 + 12));
      t14 := t14 + 12;
    }
    NextTwelve(t6 + 36, t14);
    stop := t14;
  }

  /** Twelve stencil entries over the columns left over at the end of the row,
      if this tile reaches it. */
  method LeftoverOfTile(e: Kernel, rp: array<real>, t8: int, t10: int, t12: int, t6: int, over2: int, ghost stop: int)
    requires 0 <= t6 < e.mx && 0 <= over2 <= e.mx && stop == Max(t6, Min(e.mx - over2, t6 + 48))
    requires Fits(e, rp.Length, Region(t12, t12 + 12, t8, t8 + 1, t10, t10 + 1, t6, Min(t6 + 48, e.mx)))
    modifies rp
    ensures Taken(e, old(rp[..]), rp[..], Region(t12, t12 + 12, t8, t8 + 1, t10, t10 + 1, stop, Min(t6 + 48, e.mx)))
  {
    hide Taken, Target;
    ghost var was := rp[..];
    ghost var r := Region(t12, t12 + 12, t8, t8 + 1, t10, t10 + 1, stop, stop);
    var t14 := Max(e.mx - over2, t6);
    TakenNothing(e, was, r);
    while t14 <= Min(e.mx - 1, t6 + 47)
      invariant t14 >= stop && (t14 <= Min(e.mx, t6 + 48) || stop == t6 + 48)
      invariant Taken(e, was, rp[..], r.(i1 := Min(t14, Min(t6 + 48, e.mx))))
    {
      ghost var a := rp[..];
      TwelveEntries(e, rp, t8, t10, t12, t14);
      TakenBoth(e, was, a, rp[..], r.(i1 := t14), r.(i0 := t14, i1 := t14 + 1), r.(i1 := t14 + 1));
      t14 := t14 + 1;
    }
  }

  /** Twelve stencil entries over the columns of one tile. */
  method TwelveOverTile(e: Kernel, rp: array<real>, t8: int, t10: int, t12: int, t6: int)
    requires 0 <= t6 < e.mx && Twelves(t6)
    requires Fits(e, rp.Length, Region(t12, t12 + 12, t8, t8 + 1, t10, t10 + 1, t6, Min(t6 + 48, e.mx)))
    modifies rp
    ensures Taken(e, old(rp[..]), rp[..], Region(t12, t12 + 12, t8, t8 + 1, t10, t10 + 1, t6, Min(t6 + 48, e.mx)))
  {
    hide Taken, Target, Twelves, Rem;
    ghost var was := rp[..];
    ghost var r := Region(t12, t12 + 12, t8, t8 + 1, t10, t10 + 1, t6, Min(t6 + 48, e.mx));
    var over2 := Rem(e.mx, 12);
    RemTwelve(e.mx);
    ghost var stop := BlocksOverTile(e, rp, t8, t10, t12, t6, over2);
    ghost var mid := rp[..];
    LeftoverOfTile(e, rp, t8, t10, t12, t6, over2, stop);
    TakenBoth(e, was, mid, rp[..], r.(i1 := stop), r.(i0 := stop), r);
  }

  /** Whole groups of twelve stencil entries for one row of a tile. */
  method EntriesByTwelve(e: Kernel, rp: array<real>, t8: int, t10: int, t6: int, over1: int)
    requires 0 <= t6 < e.mx && Twelves(t6) && 0 <= over1 <= e.size && Twelves(e.size - over1)
    requires Fits(e, rp.Length, Region(0, e.size, t8, t8 + 1, t10, t10 + 1, t6, Min(t6 + 48, e.mx)))
    modifies rp
    ensures Taken(e, old(rp[..]), rp[..], Region(0, e.size - over1, t8, t8 + 1, t10, t10 + 1, t6, Min(t6 + 48, e.mx)))
  {
    assert Twelves(0);
    hide Taken, Target, Twelves;
    ghost var was := rp[..];
    ghost var r := Region(0, 0, t8, t8 + 1, t10, t10 + 1, t6, Min(t6 + 48, e.mx));
    var t12 := 0;
    TakenNothing(e, was, r);
    while t12 <= -over1 + e.size - 1
      invariant 0 <= t12 <= e.size - over1 && Twelves(t12)
      invariant Taken(e, was, rp[..], r.(s1 := t12))
    {
      NextTwelve(t12, e.size - over1);
      ghost var a := rp[..];
      TwelveOverTile(e, rp, t8, t10, t12, t6);
      TakenBoth(e, was, a, rp[..], r.(s1 := t12), r.(s0 := t12, s1 := t12 + 12), r.(s1 := t12 + 12));
      t12 := t12 + 12;
    }
  }

  /** The stencil entries left over, one at a time. */
  method LeftoverEntries(e: Kernel, rp: array<real>, t8: int, t10: int, t6: int, over1: int)
    requires 0 <= t6 < e.mx && 0 <= over1 <= e.size
    requires Fits(e, rp.Length, Region(0, e.size, t8, t8 + 1, t10, t10 + 1, t6, Min(t6 + 48, e.mx)))
    modifies rp
    ensures Taken(e, old(rp[..]), rp[..],
                  Region(e.size - over1, e.size, t8, t8 + 1, t10, t10 + 1, t6, Min(t6 + 48, e.mx)))
  {
    hide Taken, Target;
    ghost var was := rp[..];
    ghost var r := Region(e.size - over1, e.size - over1, t8, t8 + 1, t10, t10 + 1, t6, Min(t6 + 48, e.mx));
    var t12 := Max(-over1 + e.size, 0);
    TakenNothing(e, was, r);
    while t12 <= e.size - 1
      invariant e.size - over1 <= t12 <= e.size
      invariant Taken(e, was, rp[..], r.(s1 := t12))
    {
      ghost var a := rp[..];
      SingleOverTile(e, rp, t8, t10, t12, t6, 48);
      TakenBoth(e, was, a, rp[..], r.(s1 := t12), r.(s0 := t12, s1 := t12 + 1), r.(s1 := t12 + 1));
      t12 := t12 + 1;
    }
  }

  /** All stencil entries for one row of a tile: twelve at a time, then the rest. */
  method UnrolledRow(e: Kernel, rp: array<real>, t8: int, t10: int, t6: int)
    requires 1 <= e.size && 0 <= t6 < e.mx && Twelves(t6)
    requires Fits(e, rp.Length, Region(0, e.size, t8, t8 + 1, t10, t10 + 1, t6, Min(t6 + 48, e.mx)))
    modifies rp
    ensures Taken(e, old(rp[..]), rp[..], Region(0, e.size, t8, t8 + 1, t10, t10 + 1, t6, Min(t6 + 48, e.mx)))
  {
    hide Taken, Target, Twelves, Rem;
    ghost var was := rp[..];
    ghost var r := Region(0, e.size, t8, t8 + 1, t10, t10 + 1, t6, Min(t6 + 48, e.mx));
    var over1 := Rem(e.size, 12);
    RemTwelve(e.size);
    EntriesByTwelve(e, rp, t8, t10, t6, over1);
    ghost var mid := rp[..];
    LeftoverEntries(e, rp, t8, t10, t6, over1);
    TakenBoth(e, was, mid, rp[..], r.(s1 := e.size - over1), r.(s0 := e.size - over1), r);
  }

  method UnrolledRows(e: Kernel, rp: array<real>, t8: int, t4: int, t6: int)
    requires 1 <= e.size && 0 <= t6 < e.mx && Twelves(t6) && t4 < e.my
    requires Fits(e, rp.Length, Region(0, e.size, t8, t8 + 1, t4, Min(t4 + 48, e.my), t6, Min(t6 + 48, e.mx)))
    modifies rp
    ensures Taken(e, old(rp[..]), rp[..],
                  Region(0, e.size, t8, t8 + 1, t4, Min(t4 + 48, e.my), t6, Min(t6 + 48, e.mx)))
  {
    hide Taken, Target, Twelves;
    ghost var was := rp[..];
    ghost var r := Region(0, e.size, t8, t8 + 1, t4, t4, t6, Min(t6 + 48, e.mx));
    var t10 := t4;
    TakenNothing(e, was, r);
    while t10 <= Min(e.my - 1, t4 + 47)
      invariant t4 <= t10 <= Min(t4 + 48, e.my)
      invariant Taken(e, was, rp[..], r.(j1 := t10))
    {
      ghost var a := rp[..];
      UnrolledRow(e, rp, t8, t10, t6);
      TakenBoth(e, was, a, rp[..], r.(j1 := t10), r.(j0 := t10, j1 := t10 + 1), r.(j1 := t10 + 1));
      t10 := t10 + 1;
    }
  }

  /** The ten planes the generated code runs over, whatever hypre__mz is. */
  method TenPlanes(e: Kernel, rp: array<real>, t4: int, t6: int)
    requires 1 <= e.size && 0 <= t6 < e.mx && Twelves(t6) && t4 < e.my
    requires Fits(e, rp.Length, Region(0, e.size, 0, 10, t4, Min(t4 + 48, e.my), t6, Min(t6 + 48, e.mx)))
    modifies rp
    ensures Taken(e, old(rp[..]), rp[..], Region(0, e.size, 0, 10, t4, Min(t4 + 48, e.my), t6, Min(t6 + 48, e.mx)))
  {
    hide Taken, Target, Twelves;
    ghost var was := rp[..];
    ghost var r := Region(0, e.size, 0, 0, t4, Min(t4 + 48, e.my), t6, Min(t6 + 48, e.mx));
    var t8 := 0;
    TakenNothing(e, was, r);
    while t8 <= 9
      invariant 0 <= t8 <= 10
      invariant Taken(e, was, rp[..], r.(k1 := t8))
    {
      ghost var a := rp[..];
      UnrolledRows(e, rp, t8, t4, t6);
      TakenBoth(e, was, a, rp[..], r.(k1 := t8), r.(k0 := t8, k1 := t8 + 1), r.(k1 := t8 + 1));
      t8 := t8 + 1;
    }
  }

  method UnrolledColumns(e: Kernel, rp: array<real>, t4: int)
    requires 1 <= e.size && 1 <= e.mx && t4 < e.my
    requires Fits(e, rp.Length, Region(0, e.size, 0, 10, t4, Min(t4 + 48, e.my), 0, e.mx))
    modifies rp
    ensures Taken(e, old(rp[..]), rp[..], Region(0, e.size, 0, 10, t4, Min(t4 + 48, e.my), 0, e.mx))
  {
    assert Twelves(0);
    hide Taken, Target, Twelves;
    ghost var was := rp[..];
    ghost var r := Region(0, e.size, 0, 10, t4, Min(t4 + 48, e.my), 0, 0);
    var t6 := 0;
    TakenNothing(e, was, r);
    while t6 <= e.mx - 1
      invariant 0 <= t6 && Twelves(t6)
      invariant Taken(e, was, rp[..], r.(i1 := Min(t6, e.mx)))
    {
      ghost var a := rp[..];
      TenPlanes(e, rp, t4, t6);
      TakenBoth(e, was, a, rp[..], r.(i1 := t6), r.(i0 := t6, i1 := Min(t6 + 48, e.mx)), r.(i1 := Min(t6 + 48, e.mx)));
      TileTwelves(t6);
      t6 := t6 + 48;
    }
  }

  /** What the nest unrolled 12 by 12 runs over: ten planes. */
  function WholeOfTen(e: Kernel): Region {
    Whole(e).(k1 := 10)
  }

  /** The nest tiled by 48 and unrolled 12 by 12: it takes from every cell what
      the original nest takes over ten planes. */
  method Unrolled(e: Kernel, rp: array<real>)
    requires Fits(e, rp.Length, WholeOfTen(e))
    modifies rp
    ensures Taken(e, old(rp[..]), rp[..], WholeOfTen(e))
  {
    hide Taken, Target;
    ghost var was := rp[..];
    if !(!(1 <= e.size) || !(1 <= e.mx)) {
      ghost var r := WholeOfTen(e).(j1 := 0);
      var t4 := 0;
      TakenNothing(e, was, r);
      while t4 <= e.my - 1
        invariant 0 <= t4
        invariant Taken(e, was, rp[..], r.(j1 := Min(t4, Max(0, e.my))))
      {
        ghost var a := rp[..];
        UnrolledColumns(e, rp, t4);
        TakenBoth(e, was, a, rp[..], r.(j1 := t4), r.(j0 := t4, j1 := Min(t4 + 48, e.my)),
                  r.(j1 := Min(t4 + 48, e.my)));
        t4 := t4 + 48;
      }
      if e.my < 0 {
        TakenNeither(e, was, rp[..], r.(j1 := Min(t4, Max(0, e.my))), WholeOfTen(e));
      }
    } else {
      TakenNothing(e, was, WholeOfTen(e));
    }
  }

  // ---- What the contracts mean together ----------------------------------

  /** The contracts determine the result, so nests with the same contract leave
      the same array. */
  lemma TakenDetermines(e: Kernel, was: seq<real>, a: seq<real>, b: seq<real>, r: Region)
    requires Taken(e, was, a, r) && Taken(e, was, b, r)
    ensures a == b
  {}

  /** Whatever the two input pointers see, and whatever the array holds before, the
      original nest and the 12-by-12 one leave the same array. */
  ghost predicate AgreeOnAllData(e: Kernel, len: nat) {
    forall ap: int -> real, xp: int -> real, was: seq<real>, a: seq<real>, b: seq<real> ::
      |was| == len && Leave(e.(ap := ap, xp := xp), was, a, b) ==> a == b
  }

  /** Run on `was`, the original nest leaves `a` and the 12-by-12 one `b`. */
  ghost predicate Leave(e: Kernel, was: seq<real>, a: seq<real>, b: seq<real>) {
    Taken(e, was, a, Whole(e)) && Taken(e, was, b, WholeOfTen(e))
  }

  /** What the nest takes from each cell. */
  function After(e: Kernel, was: seq<real>, r: Region): (now: seq<real>)
    ensures |now| == |was| && forall c :: 0 <= c < |was| ==> now[c] == was[c] - Box(Takes(e, c), r)
  {
    seq(|was|, c requires 0 <= c < |was| => was[c] - Box(Takes(e, c), r))
  }

  /** For given extents and strides the two agree on all data exactly when
      hypre__mz is ten or neither has anything to do. */
  lemma UnrolledAgreesIff(e: Kernel, len: nat)
    requires Fits(e, len, Whole(e)) && Fits(e, len, WholeOfTen(e))
    ensures AgreeOnAllData(e, len) <==> e.mz == 10 || e.size <= 0 || e.my <= 0 || e.mx <= 0
  {
    if e.mz == 10 || e.size <= 0 || e.my <= 0 || e.mx <= 0 {
      forall ap: int -> real, xp: int -> real, was: seq<real>, a: seq<real>, b: seq<real> |
        |was| == len && Leave(e.(ap := ap, xp := xp), was, a, b)
        ensures a == b
      {
        UnrolledOfTen(e.(ap := ap, xp := xp), was, a, b);
      }
    } else {
      OnesDiffer(e, len);
    }
  }

  /** Otherwise inputs of ones show a difference: the cell of the last plane that
      only one of the two nests runs over. */
  lemma OnesDiffer(e: Kernel, len: nat)
    requires Fits(e, len, Whole(e)) && Fits(e, len, WholeOfTen(e))
    requires e.mz != 10 && e.size > 0 && e.my > 0 && e.mx > 0
    ensures !AgreeOnAllData(e, len)
  {
    var f := e.(ap := _ => 1.0, xp := _ => 1.0);
    var k := if e.mz < 10 then 9 else e.mz - 1;
    var c := Target(e, k, 0, 0);
    assert 0 <= c < len;
    var w := Takes(f, c);
    assert w(0, k, 0, 0) == 1.0 && NonNegative(w);
    if e.mz < 10 {
      MorePlanes(w, Whole(e), WholeOfTen(e), 0, k, 0, 0);
    } else {
      MorePlanes(w, WholeOfTen(e), Whole(e), 0, k, 0, 0);
    }
    hide Target, Box;
    var was := seq(len, _ => 0.0);
    var a, b := After(f, was, Whole(e)), After(f, was, WholeOfTen(e));
    assert a[c] != b[c];
    assert Leave(f, was, a, b);
    assert f == e.(ap := f.ap, xp := f.xp);
  }

  /** With ten planes the two leave the same array on all data. */
  lemma UnrolledOfTen(e: Kernel, was: seq<real>, a: seq<real>, b: seq<real>)
    requires e.mz == 10 || e.size <= 0 || e.my <= 0 || e.mx <= 0
    requires Taken(e, was, a, Whole(e)) && Taken(e, was, b, WholeOfTen(e))
    ensures a == b
  {
    SameSumsIff(Whole(e), WholeOfTen(e));
    forall c | 0 <= c < |was|
      ensures a[c] == b[c]
    {
      assert Box(Takes(e, c), Whole(e)) == Box(Takes(e, c), WholeOfTen(e));
    }
  }
}

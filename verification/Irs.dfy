/** The 27-point matrix-vector kernel: the original loop nest and the nest tiled
    54 by 71 by 15 with the loops reordered.  Both assign, to cells of one array,
    a sum of products read from others. */
module Irs {
  import opened LoopSums
  import opened Numbers

  /** The domain: exclusive loop bounds, row and plane strides, the 27 coefficient
      arrays by the neighbour they belong to, and the vector.  Nothing read here
      overlaps the array written. */
  datatype Domain = Domain(
    imax: int, jmax: int, kmax: int, jp: int, kp: int,
    coefficient: (int, int, int, int) -> real, x: int -> real)

  function Cell(g: Domain, k: int, j: int, i: int): int {
    i + j * g.jp + k * g.kp
  }

  /** The coefficient of neighbour (dk, dj, di) at cell c times that neighbour's
      value, reached through the pointer offset for it. */
  function Product(g: Domain, dk: int, dj: int, di: int, c: int): real {
    g.coefficient(dk, dj, di, c) * g.x(c + dk * g.kp + dj * g.jp + di)
  }

  function Line(g: Domain, dk: int, dj: int, c: int): real {
    Product(g, dk, dj, -1, c) + Product(g, dk, dj, 0, c) + Product(g, dk, dj, 1, c)
  }

  /** The 27 products of one cell: below, centre and above; back, centre and
      front; left, centre and right. */
  function Stencil(g: Domain, c: int): real {
    Line(g, -1, -1, c) + Line(g, -1, 0, c) + Line(g, -1, 1, c) +
    Line(g, 0, -1, c) + Line(g, 0, 0, c) + Line(g, 0, 1, c) +
    Line(g, 1, -1, c) + Line(g, 1, 0, c) + Line(g, 1, 1, c)
  }

  ghost predicate Fits(g: Domain, len: int, r: Region) {
    forall k, j, i :: Inside(r, 0, k, j, i) ==> 0 <= Cell(g, k, j, i) < len
  }

  /** Some iteration of the box assigns cell c. */
  ghost predicate Hit(g: Domain, r: Region, c: int) {
    exists k, j, i :: Inside(r, 0, k, j, i) && Cell(g, k, j, i) == c
  }

  /** Every cell a box of iterations hits holds its stencil value; every other
      cell is untouched. */
  ghost predicate Written(g: Domain, was: seq<real>, now: seq<real>, r: Region) {
    |now| == |was| && forall c :: 0 <= c < |was| ==> now[c] == if Hit(g, r, c) then Stencil(g, c) else was[c]
  }

  lemma HitBoth(g: Domain, a: Region, b: Region, r: Region, c: int)
    requires Cut(r, a, b)
    ensures Hit(g, r, c) <==> Hit(g, a, c) || Hit(g, b, c)
  {
    hide Cell;
    if Hit(g, r, c) {
      var k, j, i :| Inside(r, 0, k, j, i) && Cell(g, k, j, i) == c;
      assert Inside(a, 0, k, j, i) || Inside(b, 0, k, j, i);
    }
    if Hit(g, a, c) {
      var k, j, i :| Inside(a, 0, k, j, i) && Cell(g, k, j, i) == c;
      assert Inside(r, 0, k, j, i);
    }
    if Hit(g, b, c) {
      var k, j, i :| Inside(b, 0, k, j, i) && Cell(g, k, j, i) == c;
      assert Inside(r, 0, k, j, i);
    }
  }

  /** Running one part of a box and then the rest writes the whole, whichever way
      the box is cut. */
  lemma WrittenBoth(g: Domain, was: seq<real>, mid: seq<real>, now: seq<real>, a: Region, b: Region, r: Region)
    requires Written(g, was, mid, a) && Written(g, mid, now, b) && Cut(r, a, b)
    ensures Written(g, was, now, r)
  {
    forall c | 0 <= c < |was|
      ensures now[c] == if Hit(g, r, c) then Stencil(g, c) else was[c]
    {
      HitBoth(g, a, b, r, c);
    }
  }

  lemma WrittenNothing(g: Domain, was: seq<real>, r: Region)
    requires IsEmpty(r)
    ensures Written(g, was, was, r)
  {}

  lemma WrittenNeither(g: Domain, was: seq<real>, now: seq<real>, a: Region, b: Region)
    requires IsEmpty(a) && IsEmpty(b) && Written(g, was, now, a)
    ensures Written(g, was, now, b)
  {
    assert forall c :: !Hit(g, a, c) && !Hit(g, b, c);
  }

  /** The contract determines the result, so nests with the same contract leave
      the same array. */
  lemma WrittenDetermines(g: Domain, was: seq<real>, a: seq<real>, b: seq<real>, r: Region)
    requires Written(g, was, a, r) && Written(g, was, b, r)
    ensures a == b
  {
    hide Stencil, Hit;
    forall c | 0 <= c < |was|
      ensures a[c] == b[c]
    {
    }
  }

  /** The interior of the domain. */
  function Whole(g: Domain): Region {
    Region(0, 1, 2, g.kmax, 2, g.jmax, 2, g.imax)
  }

  /** The cell of an iteration of the whole box holds the sum of its 27 products. */
  lemma WrittenAt(g: Domain, was: seq<real>, now: seq<real>, k: int, j: int, i: int)
    requires Written(g, was, now, Whole(g)) && 2 <= k < g.kmax && 2 <= j < g.jmax && 2 <= i < g.imax
    requires 0 <= i + j * g.jp + k * g.kp < |was|
    ensures |now| == |was| && now[i + j * g.jp + k * g.kp] == Stencil(g, i + j * g.jp + k * g.kp)
  {
    hide Stencil;
    assert Inside(Whole(g), 0, k, j, i) && Cell(g, k, j, i) == i + j * g.jp + k * g.kp;
  }

  /** A cell of no iteration is untouched. */
  lemma NotWritten(g: Domain, was: seq<real>, now: seq<real>, c: nat)
    requires Written(g, was, now, Whole(g)) && c < |was|
    requires forall k, j, i {:trigger Inside(Whole(g), 0, k, j, i)} ::
               2 <= k < g.kmax && 2 <= j < g.jmax && 2 <= i < g.imax ==> i + j * g.jp + k * g.kp != c
    ensures now[c] == was[c]
  {
    hide Stencil;
    forall k, j, i | Inside(Whole(g), 0, k, j, i)
      ensures Cell(g, k, j, i) != c
    {}
  }

  /** A step in every direction is at most one. */
  predicate Near(dk: int, dj: int, di: int) {
    -1 <= dk <= 1 && -1 <= dj <= 1 && -1 <= di <= 1
  }

  /** No other neighbour is at the same distance. */
  ghost predicate Apart(g: Domain, dk: int, dj: int, di: int) {
    forall ek, ej, ei :: Near(ek, ej, ei) && ek * g.kp + ej * g.jp + ei == dk * g.kp + dj * g.jp + di ==>
                           ek == dk && ej == dj && ei == di
  }

  /** A vector that is one at a neighbour of cell c and zero elsewhere. */
  ghost predicate UnitAt(g: Domain, dk: int, dj: int, di: int, c: int) {
    forall a :: g.x(a) == if a == c + dk * g.kp + dj * g.jp + di then 1.0 else 0.0
  }

  lemma ProductOfUnit(g: Domain, dk: int, dj: int, di: int, c: int, ek: int, ej: int, ei: int)
    requires Near(dk, dj, di) && Near(ek, ej, ei) && Apart(g, dk, dj, di) && UnitAt(g, dk, dj, di, c)
    ensures Product(g, ek, ej, ei, c) == if ek == dk && ej == dj && ei == di then g.coefficient(dk, dj, di, c) else 0.0
  {
    assert g.x(c + ek * g.kp + ej * g.jp + ei) == if ek == dk && ej == dj && ei == di then 1.0 else 0.0;
  }

  lemma LineOfUnit(g: Domain, dk: int, dj: int, di: int, c: int, ek: int, ej: int)
    requires Near(dk, dj, di) && Near(ek, ej, 0) && Apart(g, dk, dj, di) && UnitAt(g, dk, dj, di, c)
    ensures Line(g, ek, ej, c) == if ek == dk && ej == dj then g.coefficient(dk, dj, di, c) else 0.0
  {
    ProductOfUnit(g, dk, dj, di, c, ek, ej, -1);
    ProductOfUnit(g, dk, dj, di, c, ek, ej, 0);
    ProductOfUnit(g, dk, dj, di, c, ek, ej, 1);
    hide Product, Apart, UnitAt;
  }

  /** Of a vector that is one at a single neighbour of a cell the cell's value is the
      coefficient for that neighbour: one plane up or down is kp cells away, one row jp
      cells, one column one cell. */
  lemma StencilOfUnit(g: Domain, dk: int, dj: int, di: int, c: int)
    requires Near(dk, dj, di) && Apart(g, dk, dj, di)
    requires forall a :: g.x(a) == if a == c + dk * g.kp + dj * g.jp + di then 1.0 else 0.0
    ensures Stencil(g, c) == g.coefficient(dk, dj, di, c)
  {
    assert UnitAt(g, dk, dj, di, c);
    hide Line, Apart, UnitAt;
    LineOfUnit(g, dk, dj, di, c, -1, -1);
    LineOfUnit(g, dk, dj, di, c, -1, 0);
    LineOfUnit(g, dk, dj, di, c, -1, 1);
    LineOfUnit(g, dk, dj, di, c, 0, -1);
    LineOfUnit(g, dk, dj, di, c, 0, 0);
    LineOfUnit(g, dk, dj, di, c, 0, 1);
    LineOfUnit(g, dk, dj, di, c, 1, -1);
    LineOfUnit(g, dk, dj, di, c, 1, 0);
    LineOfUnit(g, dk, dj, di, c, 1, 1);
  }

  /** The one statement of both nests. */
  method Assign(g: Domain, b: array<real>, k: int, j: int, i: int)
    requires 0 <= Cell(g, k, j, i) < b.Length
    modifies b
    ensures Written(g, old(b[..]), b[..], Point(0, k, j, i))
  {
    hide Stencil, Cell;
    var c := Cell(g, k, j, i);
    b[c] := Stencil(g, c);
    assert Inside(Point(0, k, j, i), 0, k, j, i);
  }

  // ---- The original nest: planes, rows, columns ---------------------------

  /** One row, column by column. */
  method OriginalRow(g: Domain, b: array<real>, kk: int, jj: int)
    requires Fits(g, b.Length, Region(0, 1, kk, kk + 1, jj, jj + 1, 2, g.imax))
    modifies b
    ensures Written(g, old(b[..]), b[..], Region(0, 1, kk, kk + 1, jj, jj + 1, 2, g.imax))
  {
    hide Written, Cell;
    ghost var was := b[..];
    ghost var r := Region(0, 1, kk, kk + 1, jj, jj + 1, 2, g.imax);
    var ii := 2;
    WrittenNothing(g, was, r.(i1 := 2));
    while ii < g.imax
      invariant 2 <= ii <= Max(2, g.imax)
      invariant Written(g, was, b[..], r.(i1 := ii))
    {
      ghost var a := b[..];
      Assign(g, b, kk, jj, ii);
      WrittenBoth(g, was, a, b[..], r.(i1 := ii), r.(i0 := ii, i1 := ii + 1), r.(i1 := ii + 1));
      ii := ii + 1;
    }
    if g.imax < 2 {
      WrittenNeither(g, was, b[..], r.(i1 := ii), r);
    }
  }

  /** One plane, row by row. */
  method OriginalPlane(g: Domain, b: array<real>, kk: int)
    requires Fits(g, b.Length, Region(0, 1, kk, kk + 1, 2, g.jmax, 2, g.imax))
    modifies b
    ensures Written(g, old(b[..]), b[..], Region(0, 1, kk, kk + 1, 2, g.jmax, 2, g.imax))
  {
    hide Written, Cell;
    ghost var was := b[..];
    ghost var r := Region(0, 1, kk, kk + 1, 2, g.jmax, 2, g.imax);
    var jj := 2;
    WrittenNothing(g, was, r.(j1 := 2));
    while jj < g.jmax
      invariant 2 <= jj <= Max(2, g.jmax)
      invariant Written(g, was, b[..], r.(j1 := jj))
    {
      ghost var a := b[..];
      OriginalRow(g, b, kk, jj);
      WrittenBoth(g, was, a, b[..], r.(j1 := jj), r.(j0 := jj, j1 := jj + 1), r.(j1 := jj + 1));
      jj := jj + 1;
    }
    if g.jmax < 2 {
      WrittenNeither(g, was, b[..], r.(j1 := jj), r);
    }
  }

  /** The original nest. */
  method Original(g: Domain, b: array<real>)
    requires Fits(g, b.Length, Whole(g))
    modifies b
    ensures Written(g, old(b[..]), b[..], Whole(g))
  {
    hide Written, Cell;
    ghost var was := b[..];
    ghost var r := Whole(g);
    var kk := 2;
    WrittenNothing(g, was, r.(k1 := 2));
    while kk < g.kmax
      invariant 2 <= kk <= Max(2, g.kmax)
      invariant Written(g, was, b[..], r.(k1 := kk))
    {
      ghost var a := b[..];
      OriginalPlane(g, b, kk);
      WrittenBoth(g, was, a, b[..], r.(k1 := kk), r.(k0 := kk, k1 := kk + 1), r.(k1 := kk + 1));
      kk := kk + 1;
    }
    if g.kmax < 2 {
      WrittenNeither(g, was, b[..], r.(k1 := kk), r);
    }
  }

  // ---- The tiled nest: column tiles, plane tiles, row tiles ---------------

  /** The columns of one tile. */
  method TiledRow(g: Domain, b: array<real>, t8: int, t10: int, t2: int)
    requires t2 < g.imax && Fits(g, b.Length, Region(0, 1, t8, t8 + 1, t10, t10 + 1, t2, Min(t2 + 54, g.imax)))
    modifies b
    ensures Written(g, old(b[..]), b[..], Region(0, 1, t8, t8 + 1, t10, t10 + 1, t2, Min(t2 + 54, g.imax)))
  {
    hide Written, Cell;
    ghost var was := b[..];
    ghost var r := Region(0, 1, t8, t8 + 1, t10, t10 + 1, t2, Min(t2 + 54, g.imax));
    var t12 := t2;
    WrittenNothing(g, was, r.(i1 := t2));
    while t12 <= Min(g.imax - 1, t2 + 53)
      invariant t2 <= t12 <= Min(t2 + 54, g.imax)
      invariant Written(g, was, b[..], r.(i1 := t12))
    {
      ghost var a := b[..];
      Assign(g, b, t8, t10, t12);
      WrittenBoth(g, was, a, b[..], r.(i1 := t12), r.(i0 := t12, i1 := t12 + 1), r.(i1 := t12 + 1));
      t12 := t12 + 1;
    }
  }

  /** The rows of one tile. */
  method TiledRows(g: Domain, b: array<real>, t8: int, t6: int, t2: int)
    requires t2 < g.imax && t6 < g.jmax
    requires Fits(g, b.Length, Region(0, 1, t8, t8 + 1, t6, Min(t6 + 15, g.jmax), t2, Min(t2 + 54, g.imax)))
    modifies b
    ensures Written(g, old(b[..]), b[..], Region(0, 1, t8, t8 + 1, t6, Min(t6 + 15, g.jmax), t2, Min(t2 + 54, g.imax)))
  {
    hide Written, Cell;
    ghost var was := b[..];
    ghost var r := Region(0, 1, t8, t8 + 1, t6, Min(t6 + 15, g.jmax), t2, Min(t2 + 54, g.imax));
    var t10 := t6;
    WrittenNothing(g, was, r.(j1 := t6));
    while t10 <= Min(g.jmax - 1, t6 + 14)
      invariant t6 <= t10 <= Min(t6 + 15, g.jmax)
      invariant Written(g, was, b[..], r.(j1 := t10))
    {
      ghost var a := b[..];
      TiledRow(g, b, t8, t10, t2);
      WrittenBoth(g, was, a, b[..], r.(j1 := t10), r.(j0 := t10, j1 := t10 + 1), r.(j1 := t10 + 1));
      t10 := t10 + 1;
    }
  }

  /** The planes of one tile. */
  method Tile(g: Domain, b: array<real>, t4: int, t6: int, t2: int)
    requires t2 < g.imax && t6 < g.jmax && t4 < g.kmax
    requires Fits(g, b.Length,
                  Region(0, 1, t4, Min(t4 + 71, g.kmax), t6, Min(t6 + 15, g.jmax), t2, Min(t2 + 54, g.imax)))
    modifies b
    ensures Written(g, old(b[..]), b[..],
                    Region(0, 1, t4, Min(t4 + 71, g.kmax), t6, Min(t6 + 15, g.jmax), t2, Min(t2 + 54, g.imax)))
  {
    hide Written, Cell;
    ghost var was := b[..];
    ghost var r := Region(0, 1, t4, Min(t4 + 71, g.kmax), t6, Min(t6 + 15, g.jmax), t2, Min(t2 + 54, g.imax));
    var t8 := t4;
    WrittenNothing(g, was, r.(k1 := t4));
    while t8 <= Min(g.kmax - 1, t4 + 70)
      invariant t4 <= t8 <= Min(t4 + 71, g.kmax)
      invariant Written(g, was, b[..], r.(k1 := t8))
    {
      ghost var a := b[..];
      TiledRows(g, b, t8, t6, t2);
      WrittenBoth(g, was, a, b[..], r.(k1 := t8), r.(k0 := t8, k1 := t8 + 1), r.(k1 := t8 + 1));
      t8 := t8 + 1;
    }
  }

  /** The row tiles of one column tile and one plane tile. */
  method RowTiles(g: Domain, b: array<real>, t4: int, t2: int)
    requires t2 < g.imax && t4 < g.kmax
    requires Fits(g, b.Length, Region(0, 1, t4, Min(t4 + 71, g.kmax), 2, g.jmax, t2, Min(t2 + 54, g.imax)))
    modifies b
    ensures Written(g, old(b[..]), b[..], Region(0, 1, t4, Min(t4 + 71, g.kmax), 2, g.jmax, t2, Min(t2 + 54, g.imax)))
  {
    hide Written, Cell;
    ghost var was := b[..];
    ghost var r := Region(0, 1, t4, Min(t4 + 71, g.kmax), 2, g.jmax, t2, Min(t2 + 54, g.imax));
    var t6 := 2;
    WrittenNothing(g, was, r.(j1 := 2));
    while t6 <= g.jmax - 1
      invariant 2 <= t6
      invariant Written(g, was, b[..], r.(j1 := Min(t6, Max(2, g.jmax))))
    {
      ghost var a := b[..];
      Tile(g, b, t4, t6, t2);
      WrittenBoth(g, was, a, b[..], r.(j1 := t6),
                  r.(j0 := t6, j1 := Min(t6 + 15, g.jmax)), r.(j1 := Min(t6 + 15, g.jmax)));
      t6 := t6 + 15;
    }
    if g.jmax < 2 {
      WrittenNeither(g, was, b[..], r.(j1 := Min(t6, Max(2, g.jmax))), r);
    }
  }

  /** The plane tiles of one column tile. */
  method PlaneTiles(g: Domain, b: array<real>, t2: int)
    requires t2 < g.imax && Fits(g, b.Length, Region(0, 1, 2, g.kmax, 2, g.jmax, t2, Min(t2 + 54, g.imax)))
    modifies b
    ensures Written(g, old(b[..]), b[..], Region(0, 1, 2, g.kmax, 2, g.jmax, t2, Min(t2 + 54, g.imax)))
  {
    hide Written, Cell;
    ghost var was := b[..];
    ghost var r := Region(0, 1, 2, g.kmax, 2, g.jmax, t2, Min(t2 + 54, g.imax));
    var t4 := 2;
    WrittenNothing(g, was, r.(k1 := 2));
    while t4 <= g.kmax - 1
      invariant 2 <= t4
      invariant Written(g, was, b[..], r.(k1 := Min(t4, Max(2, g.kmax))))
    {
      ghost var a := b[..];
      RowTiles(g, b, t4, t2);
      WrittenBoth(g, was, a, b[..], r.(k1 := t4),
                  r.(k0 := t4, k1 := Min(t4 + 71, g.kmax)), r.(k1 := Min(t4 + 71, g.kmax)));
      t4 := t4 + 71;
    }
    if g.kmax < 2 {
      WrittenNeither(g, was, b[..], r.(k1 := Min(t4, Max(2, g.kmax))), r);
    }
  }

  /** The tiled and reordered nest: for all bounds and strides it writes what the
      original nest writes. */
  method Tiled(g: Domain, b: array<real>)
    requires Fits(g, b.Length, Whole(g))
    modifies b
    ensures Written(g, old(b[..]), b[..], Whole(g))
  {
    hide Written, Cell;
    ghost var was := b[..];
    ghost var r := Whole(g);
    var t2 := 2;
    WrittenNothing(g, was, r.(i1 := 2));
    while t2 <= g.imax - 1
      invariant 2 <= t2
      invariant Written(g, was, b[..], r.(i1 := Min(t2, Max(2, g.imax))))
    {
      ghost var a := b[..];
      PlaneTiles(g, b, t2);
      WrittenBoth(g, was, a, b[..], r.(i1 := t2),
                  r.(i0 := t2, i1 := Min(t2 + 54, g.imax)), r.(i1 := Min(t2 + 54, g.imax)));
      t2 := t2 + 54;
    }
    if g.imax < 2 {
      WrittenNeither(g, was, b[..], r.(i1 := Min(t2, Max(2, g.imax))), r);
    }
  }
}

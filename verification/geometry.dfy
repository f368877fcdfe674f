/**
 Coordinates on a `w × h` board, the set of all of them, and the clipped
 Moore neighbourhood that mine placement, adjacency counting, flood fill and
 chording all share.
 */
module Geometry {

  /** A board coordinate: `x` is the column, `y` the row. */
  datatype Pos = Pos(x: int, y: int)

  predicate InBounds(w: int, h: int, x: int, y: int) {
    0 <= x < w && 0 <= y < h
  }

  /** Every coordinate of a `w × h` board. */
  function Cells(w: int, h: int): (cs: set<Pos>)
    ensures forall p :: p in cs <==> InBounds(w, h, p.x, p.y)
  {
    set x, y | 0 <= x < w && 0 <= y < h :: Pos(x, y)
  }

  /** The cells of row `y` with column below `w`. */
  function Row(w: int, y: int): (cs: set<Pos>)
    ensures forall p :: p in cs <==> p.y == y && 0 <= p.x < w
  {
    set x | 0 <= x < w :: Pos(x, y)
  }

  lemma {:induction false} RowCard(w: nat, y: int)
    ensures |Row(w, y)| == w
  {
    if w > 0 {
      RowCard(w - 1, y);
      assert Row(w, y) == Row(w - 1, y) + {Pos(w - 1, y)};
    }
  }

  lemma CellsSplit(w: int, h: int)
    requires h > 0
    ensures Cells(w, h) == Cells(w, h - 1) + Row(w, h - 1)
    ensures Cells(w, h - 1) * Row(w, h - 1) == {}
  {
    forall p ensures p in Cells(w, h) <==> p in Cells(w, h - 1) || p in Row(w, h - 1) {
    }
  }

  /** A board has exactly `w * h` cells. */
  lemma {:induction false} CellsCard(w: nat, h: nat)
    ensures |Cells(w, h)| == w * h
  {
    if h > 0 {
      CellsCard(w, h - 1);
      RowCard(w, h - 1);
      CellsSplit(w, h);
      var a, b := Cells(w, h - 1), Row(w, h - 1);
      assert |a + b| == |a| + |b|;
      assert w * (h - 1) + w == w * h;
    }
  }

  /** `q` lies in the Moore neighbourhood of `p`: at most one step away in each axis, and not `p` itself. */
  predicate Adjacent(p: Pos, q: Pos) {
    q != p && -1 <= q.x - p.x <= 1 && -1 <= q.y - p.y <= 1
  }

  predicate Distinct<T(==)>(s: seq<T>) {
    forall i, j :: 0 <= i < j < |s| ==> s[i] != s[j]
  }

  /** The offsets the source scans in each axis, in order. */
  const Steps: seq<int> := [-1, 0, 1]

  lemma StepsExact(d: int)
    ensures d in Steps <==> -1 <= d <= 1
  {
    if -1 <= d <= 1 {
      assert d == Steps[d + 1];
    }
  }

  /** The inner loop of the scan: the in-bounds cells `(p.x + dx, p.y + dy)` for `dx` in `dxs`, skipping `p` itself. */
  function ScanRow(w: int, h: int, p: Pos, dy: int, dxs: seq<int>): (ns: seq<Pos>)
    ensures |ns| <= |dxs|
    ensures dy == 0 && 0 in dxs ==> |ns| < |dxs|
    ensures forall q :: q in ns <==> InBounds(w, h, q.x, q.y) && q.y == p.y + dy && q.x - p.x in dxs && q != p
    ensures Distinct(dxs) ==> Distinct(ns)
  {
    if |dxs| == 0 then []
    else
      var q := Pos(p.x + dxs[0], p.y + dy);
      var rest := ScanRow(w, h, p, dy, dxs[1..]);
      assert forall d :: d in dxs <==> d == dxs[0] || d in dxs[1..];
      if (dxs[0] != 0 || dy != 0) && InBounds(w, h, q.x, q.y) then [q] + rest else rest
  }

  /** The outer loop of the scan: one `ScanRow` over `Steps` for each `dy` in `dys`. */
  function ScanRows(w: int, h: int, p: Pos, dys: seq<int>): (ns: seq<Pos>)
    ensures |ns| <= 3 * |dys| - (if 0 in dys then 1 else 0)
    ensures forall q :: q in ns <==> InBounds(w, h, q.x, q.y) && q.y - p.y in dys && q.x - p.x in Steps && q != p
    ensures Distinct(dys) ==> Distinct(ns)
  {
    if |dys| == 0 then []
    else
      var row := ScanRow(w, h, p, dys[0], Steps);
      var rest := ScanRows(w, h, p, dys[1..]);
      assert forall d :: d in dys <==> d == dys[0] || d in dys[1..];
      assert 0 in Steps;
      assert Distinct(dys) ==> Distinct(row + rest) by {
        if Distinct(dys) {
          assert dys[0] !in dys[1..];
          DistinctConcat(row, rest);
        }
      }
      row + rest
  }

  lemma DistinctConcat<T>(a: seq<T>, b: seq<T>)
    requires Distinct(a) && Distinct(b)
    requires forall x :: x in a ==> x !in b
    ensures Distinct(a + b)
  {
    forall i, j | 0 <= i < j < |a + b| ensures (a + b)[i] != (a + b)[j] {
      if i < |a| && j >= |a| {
        assert (a + b)[i] in a && (a + b)[j] in b;
      }
    }
  }

  /**
   The clipped Moore neighbourhood of `p` on a `w × h` board, in the order the
   source yields it (rows `dy` outer, columns `dx` inner). Only membership
   matters to its callers.
   */
  function Neighbors(w: int, h: int, p: Pos): (ns: seq<Pos>)
    ensures |ns| <= 8
    ensures Distinct(ns)
    ensures forall q :: q in ns <==> InBounds(w, h, q.x, q.y) && Adjacent(p, q)
  {
    var ns := ScanRows(w, h, p, Steps);
    assert forall q :: q in ns <==> InBounds(w, h, q.x, q.y) && Adjacent(p, q) by {
      forall q ensures q in ns <==> InBounds(w, h, q.x, q.y) && Adjacent(p, q) {
        StepsExact(q.x - p.x);
        StepsExact(q.y - p.y);
      }
    }
    ns
  }

  /** The neighbour relation is symmetric. */
  lemma NeighborsSymmetric(w: int, h: int, p: Pos, q: Pos)
    requires InBounds(w, h, p.x, p.y) && InBounds(w, h, q.x, q.y)
    ensures q in Neighbors(w, h, p) <==> p in Neighbors(w, h, q)
  {
  }

  /** The number of positions of `s` whose element belongs to `m`, counted from the back. */
  function CountIn<T>(s: seq<T>, m: set<T>): (n: nat)
    ensures n <= |s|
  {
    if |s| == 0 then 0
    else CountIn(s[..|s| - 1], m) + (if s[|s| - 1] in m then 1 else 0)
  }

  /** Counting one more position of a sequence. */
  lemma CountInStep<T>(s: seq<T>, i: int, m: set<T>)
    requires 0 <= i < |s|
    ensures CountIn(s[..i + 1], m) == CountIn(s[..i], m) + (if s[i] in m then 1 else 0)
  {
    assert s[..i + 1][..i] == s[..i];
  }

  /** The members of `m` in a sequence, one element longer. */
  lemma MembersSnoc<T>(init: seq<T>, last: T, m: set<T>)
    ensures (set x | x in init + [last] && x in m) == (set x | x in init && x in m) + (if last in m then {last} else {})
  {
  }

  /** For a sequence without repeats, counting positions is counting the members of `m` it contains. */
  lemma {:induction false} CountInDistinct<T>(s: seq<T>, m: set<T>)
    requires Distinct(s)
    ensures CountIn(s, m) == |set x | x in s && x in m|
  {
    if |s| > 0 {
      var init, last := s[..|s| - 1], s[|s| - 1];
      assert s == init + [last];
      assert Distinct(init);
      CountInDistinct(init, m);
      assert last !in init;
      MembersSnoc(init, last, m);
    }
  }

  lemma SubsetCard<T>(a: set<T>, b: set<T>)
    requires a <= b
    ensures |a| <= |b|
    ensures |b - a| == |b| - |a|
  {
    assert b == a + (b - a);
    assert a * (b - a) == {};
  }

  /** The members of a sequence are no more than its length. */
  lemma {:induction false} ElementsCard<T>(s: seq<T>)
    ensures |set x | x in s| <= |s|
  {
    if |s| > 0 {
      ElementsCard(s[1..]);
      assert (set x | x in s) == {s[0]} + (set x | x in s[1..]);
    }
  }
}

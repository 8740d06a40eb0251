/** The coordinate expander (`expand_from_galaxies`): per axis, a cursor walks the
    original range of coordinates; at every empty line every galaxy beyond the
    cursor moves `factor - 1` further out. */
module CoordinateExpansion {
  import opened Galaxies

  /** Smallest coordinate along `a` (the `min_by` of the source). */
  function MinCoord(gs: seq<Galaxy>, a: Axis): (m: nat)
    requires |gs| > 0
    ensures forall k :: 0 <= k < |gs| ==> m <= Coord(gs[k], a)
    ensures exists k :: 0 <= k < |gs| && Coord(gs[k], a) == m
  {
    if |gs| == 1 then Coord(gs[0], a)
    else
      var m := MinCoord(gs[1..], a);
      assert forall k :: 1 <= k < |gs| ==> gs[k] == gs[1..][k - 1];
      if Coord(gs[0], a) <= m then Coord(gs[0], a) else m
  }

  /** Largest coordinate along `a` (the `max_by` of the source). */
  function MaxCoord(gs: seq<Galaxy>, a: Axis): (m: nat)
    requires |gs| > 0
    ensures forall k :: 0 <= k < |gs| ==> Coord(gs[k], a) <= m
    ensures exists k :: 0 <= k < |gs| && Coord(gs[k], a) == m
  {
    if |gs| == 1 then Coord(gs[0], a)
    else
      var m := MaxCoord(gs[1..], a);
      assert forall k :: 1 <= k < |gs| ==> gs[k] == gs[1..][k - 1];
      if Coord(gs[0], a) >= m then Coord(gs[0], a) else m
  }

  /** Some galaxy sits on line `v` of axis `a`. */
  predicate Occupied(gs: seq<Galaxy>, a: Axis, v: nat)
  {
    exists k :: 0 <= k < |gs| && Coord(gs[k], a) == v
  }

  /** Number of lines in [lo, hi) of axis `a` on which no galaxy sits. */
  function EmptyLines(gs: seq<Galaxy>, a: Axis, lo: nat, hi: nat): nat
    decreases hi
  {
    if hi <= lo then 0
    else EmptyLines(gs, a, lo, hi - 1) + (if Occupied(gs, a, hi - 1) then 0 else 1)
  }

  /** Where line `v` of axis `a` ends up: every empty line from the smallest
      occupied one up to `v` counts `factor` times instead of once. */
  function Image(gs: seq<Galaxy>, a: Axis, factor: nat, v: nat): nat
    requires |gs| > 0 && factor >= 1
  {
    v + (factor - 1) * EmptyLines(gs, a, MinCoord(gs, a), v)
  }

  /** The galaxies after both passes: same ids, same order, both coordinates moved. */
  function Dilated(gs: seq<Galaxy>, factor: nat): (r: seq<Galaxy>)
    requires |gs| > 0 && factor >= 1
    ensures |r| == |gs| && forall k :: 0 <= k < |gs| ==> r[k].id == gs[k].id
  {
    seq(|gs|, k requires 0 <= k < |gs| =>
      Galaxy(gs[k].id, Index(Image(gs, Row, factor, gs[k].index.row), Image(gs, Col, factor, gs[k].index.col))))
  }

  /** `expand_from_galaxies`: copy the list, run the row pass, then the column pass. */
  method ExpandFromGalaxies(galaxies: seq<Galaxy>, factor: nat) returns (res: seq<Galaxy>)
    requires |galaxies| > 0 && factor >= 1
    ensures res == Dilated(galaxies, factor)
  {
    var arr := new Galaxy[|galaxies|](k requires 0 <= k < |galaxies| => galaxies[k]);
    var minRow, maxRow := MinCoord(galaxies, Row), MaxCoord(galaxies, Row);
    var minCol, maxCol := MinCoord(galaxies, Col), MaxCoord(galaxies, Col);
    assert arr[..] == galaxies;
    ShiftAxis(arr, Row, minRow, maxRow, factor);
    ghost var rowShifted := arr[..];
    SameAxis(galaxies, rowShifted, Col);
    ShiftAxis(arr, Col, minCol, maxCol, factor);
    forall k | 0 <= k < |galaxies|
      ensures arr[k] == Dilated(galaxies, factor)[k]
    {
      assert Image(rowShifted, Col, factor, galaxies[k].index.col) == Image(galaxies, Col, factor, galaxies[k].index.col);
    }
    res := arr[..];
  }

  /** A coordinate after the first `step` iterations of the cursor loop: lines
      below the cursor's original line have their final image; lines at or beyond
      it have moved by the empty lines passed so far. */
  function Partial(orig: seq<Galaxy>, a: Axis, factor: nat, lo: nat, step: nat, v: nat): nat
    requires factor >= 1
  {
    v + (factor - 1) * EmptyLines(orig, a, lo, if v < lo + step then v else lo + step)
  }

  /** One axis of `expand_from_galaxies`: the cursor loop over `lo..=hi`. */
  method ShiftAxis(res: array<Galaxy>, a: Axis, lo: nat, hi: nat, factor: nat)
    requires res.Length > 0 && factor >= 1
    requires lo == MinCoord(res[..], a) && hi == MaxCoord(res[..], a)
    modifies res
    ensures forall i :: 0 <= i < res.Length ==>
      res[i] == WithCoord(old(res[i]), a, Image(old(res[..]), a, factor, Coord(old(res[i]), a)))
  {
    ghost var orig := res[..];
    var running := lo;
    for step := 0 to hi - lo + 1
      invariant running == Cursor(orig, a, factor, lo, step)
      invariant forall i :: 0 <= i < res.Length ==>
        res[i] == WithCoord(orig[i], a, Partial(orig, a, factor, lo, step, Coord(orig[i], a)))
    {
      running := CursorIteration(res, a, factor, running, orig, lo, step);
    }
    forall i | 0 <= i < res.Length
      ensures Partial(orig, a, factor, lo, hi - lo + 1, Coord(orig[i], a)) == Image(orig, a, factor, Coord(orig[i], a))
    {
    }
  }

  /** The body of the cursor loop: an occupied line advances the cursor by one; an
      empty line moves every galaxy beyond the cursor `factor - 1` further and
      advances the cursor by `factor`. */
  method CursorIteration(res: array<Galaxy>, a: Axis, factor: nat, running: nat,
                         ghost orig: seq<Galaxy>, ghost lo: nat, ghost step: nat) returns (next: nat)
    requires factor >= 1 && res.Length == |orig|
    requires running == Cursor(orig, a, factor, lo, step)
    requires forall i :: 0 <= i < res.Length ==>
      res[i] == WithCoord(orig[i], a, Partial(orig, a, factor, lo, step, Coord(orig[i], a)))
    modifies res
    ensures next == Cursor(orig, a, factor, lo, step + 1)
    ensures forall i :: 0 <= i < res.Length ==>
      res[i] == WithCoord(orig[i], a, Partial(orig, a, factor, lo, step + 1, Coord(orig[i], a)))
  {
    forall i | 0 <= i < res.Length
      ensures Coord(res[i], a) == running <==> Coord(orig[i], a) == lo + step
      ensures Coord(res[i], a) > running <==> Coord(orig[i], a) > lo + step
    {
      CursorSeparates(orig, a, factor, lo, step, Coord(orig[i], a));
    }
    CursorStep(orig, a, factor, lo, step, lo);
    assert Occupied(orig, a, lo + step) <==> Occupied(res[..], a, running);
    if Occupied(res[..], a, running) {
      next := running + 1;
    } else {
      ShiftBeyond(res, a, running, factor - 1);
      next := running + factor;
    }
    forall i | 0 <= i < res.Length
      ensures res[i] == WithCoord(orig[i], a, Partial(orig, a, factor, lo, step + 1, Coord(orig[i], a)))
    {
      CursorStep(orig, a, factor, lo, step, Coord(orig[i], a));
    }
  }

  /** Every galaxy strictly beyond line `running` of axis `a` moves `amount` further. */
  method ShiftBeyond(res: array<Galaxy>, a: Axis, running: nat, amount: nat)
    modifies res
    ensures forall i :: 0 <= i < res.Length ==>
      res[i] == if Coord(old(res[i]), a) > running
        then WithCoord(old(res[i]), a, Coord(old(res[i]), a) + amount) else old(res[i])
  {
    for i := 0 to res.Length
      invariant forall i' :: 0 <= i' < i ==>
        res[i'] == if Coord(old(res[i']), a) > running
          then WithCoord(old(res[i']), a, Coord(old(res[i']), a) + amount) else old(res[i'])
      invariant forall i' :: i <= i' < res.Length ==> res[i'] == old(res[i'])
    {
      if Coord(res[i], a) > running {
        res[i] := WithCoord(res[i], a, Coord(res[i], a) + amount);
      }
    }
  }

  /** The cursor after `step` iterations: the image of line `lo + step`. */
  function Cursor(orig: seq<Galaxy>, a: Axis, factor: nat, lo: nat, step: nat): nat
    requires factor >= 1
  {
    lo + step + (factor - 1) * EmptyLines(orig, a, lo, lo + step)
  }

  /** One iteration of the cursor loop: on an occupied line nothing moves and the
      cursor advances by one; on an empty line the galaxies beyond the cursor move
      `factor - 1` and the cursor advances by `factor`. Either way the loop's
      description of the coordinates holds one step further. */
  lemma CursorStep(orig: seq<Galaxy>, a: Axis, factor: nat, lo: nat, step: nat, v: nat)
    requires factor >= 1
    ensures var cur := Partial(orig, a, factor, lo, step, v);
      var running := Cursor(orig, a, factor, lo, step);
      if Occupied(orig, a, lo + step) then
        && Partial(orig, a, factor, lo, step + 1, v) == cur
        && Cursor(orig, a, factor, lo, step + 1) == running + 1
      else
        && Partial(orig, a, factor, lo, step + 1, v) == (if cur > running then cur + (factor - 1) else cur)
        && Cursor(orig, a, factor, lo, step + 1) == running + factor
  {
    CursorSeparates(orig, a, factor, lo, step, v);
    if Occupied(orig, a, lo + step) {
      CursorStepOccupied(orig, a, factor, lo, step, v);
    } else {
      CursorStepEmpty(orig, a, factor, lo, step, v);
    }
  }

  lemma CursorStepOccupied(orig: seq<Galaxy>, a: Axis, factor: nat, lo: nat, step: nat, v: nat)
    requires factor >= 1 && Occupied(orig, a, lo + step)
    ensures Partial(orig, a, factor, lo, step + 1, v) == Partial(orig, a, factor, lo, step, v)
    ensures Cursor(orig, a, factor, lo, step + 1) == Cursor(orig, a, factor, lo, step) + 1
  {
    var e := EmptyLines(orig, a, lo, lo + step);
    assert EmptyLines(orig, a, lo, lo + step + 1) == e;
  }

  lemma CursorStepEmpty(orig: seq<Galaxy>, a: Axis, factor: nat, lo: nat, step: nat, v: nat)
    requires factor >= 1 && !Occupied(orig, a, lo + step)
    ensures Partial(orig, a, factor, lo, step + 1, v) ==
      if v > lo + step then Partial(orig, a, factor, lo, step, v) + (factor - 1) else Partial(orig, a, factor, lo, step, v)
    ensures Cursor(orig, a, factor, lo, step + 1) == Cursor(orig, a, factor, lo, step) + factor
  {
    var e := EmptyLines(orig, a, lo, lo + step);
    assert EmptyLines(orig, a, lo, lo + step + 1) == e + 1;
    MulAdd(factor - 1, e, 1);
  }

  /** The empty-line count only grows as the upper end grows. */
  lemma {:induction false} EmptyLinesMonotone(gs: seq<Galaxy>, a: Axis, lo: nat, u: nat, v: nat)
    requires u <= v
    ensures EmptyLines(gs, a, lo, u) <= EmptyLines(gs, a, lo, v)
    decreases v - u
  {
    if u < v {
      EmptyLinesMonotone(gs, a, lo, u, v - 1);
    }
  }

  lemma MulMonotone(f: nat, x: nat, y: nat)
    requires x <= y
    ensures f * x <= f * y
  {
  }

  /** After `step` iterations the cursor sits strictly above the coordinates of
      lines below `lo + step`, on the coordinate of line `lo + step`, and strictly
      below the coordinates of the lines beyond it. */
  lemma CursorSeparates(orig: seq<Galaxy>, a: Axis, factor: nat, lo: nat, step: nat, v: nat)
    requires factor >= 1
    ensures var running := Cursor(orig, a, factor, lo, step);
      && (Partial(orig, a, factor, lo, step, v) < running <==> v < lo + step)
      && (Partial(orig, a, factor, lo, step, v) == running <==> v == lo + step)
      && (Partial(orig, a, factor, lo, step, v) > running <==> v > lo + step)
  {
    if v < lo + step {
      EmptyLinesMonotone(orig, a, lo, v, lo + step);
      MulMonotone(factor - 1, EmptyLines(orig, a, lo, v), EmptyLines(orig, a, lo, lo + step));
    }
  }

  /** Lists that agree on axis `a` agree on everything computed from axis `a`. */
  lemma SameAxis(s1: seq<Galaxy>, s2: seq<Galaxy>, a: Axis)
    requires |s1| == |s2| > 0
    requires forall k :: 0 <= k < |s1| ==> Coord(s1[k], a) == Coord(s2[k], a)
    ensures MinCoord(s1, a) == MinCoord(s2, a) && MaxCoord(s1, a) == MaxCoord(s2, a)
    ensures forall v: nat :: EmptyLines(s1, a, MinCoord(s1, a), v) == EmptyLines(s2, a, MinCoord(s2, a), v)
  {
    SameMin(s1, s2, a);
    SameMax(s1, s2, a);
    var m1 := MinCoord(s1, a);
    forall v: nat
      ensures EmptyLines(s1, a, m1, v) == EmptyLines(s2, a, m1, v)
    {
      SameEmptyLines(s1, s2, a, m1, v);
    }
  }

  lemma SameMin(s1: seq<Galaxy>, s2: seq<Galaxy>, a: Axis)
    requires |s1| == |s2| > 0
    requires forall k :: 0 <= k < |s1| ==> Coord(s1[k], a) == Coord(s2[k], a)
    ensures MinCoord(s1, a) == MinCoord(s2, a)
  {
    var m1, m2 := MinCoord(s1, a), MinCoord(s2, a);
    var k1 :| 0 <= k1 < |s1| && Coord(s1[k1], a) == m1;
    var k2 :| 0 <= k2 < |s2| && Coord(s2[k2], a) == m2;
    assert m1 <= Coord(s1[k2], a) && m2 <= Coord(s2[k1], a);
  }

  lemma SameMax(s1: seq<Galaxy>, s2: seq<Galaxy>, a: Axis)
    requires |s1| == |s2| > 0
    requires forall k :: 0 <= k < |s1| ==> Coord(s1[k], a) == Coord(s2[k], a)
    ensures MaxCoord(s1, a) == MaxCoord(s2, a)
  {
    var x1, x2 := MaxCoord(s1, a), MaxCoord(s2, a);
    var j1 :| 0 <= j1 < |s1| && Coord(s1[j1], a) == x1;
    var j2 :| 0 <= j2 < |s2| && Coord(s2[j2], a) == x2;
    assert x1 >= Coord(s1[j2], a) && x2 >= Coord(s2[j1], a);
  }

  lemma {:induction false} SameEmptyLines(s1: seq<Galaxy>, s2: seq<Galaxy>, a: Axis, lo: nat, hi: nat)
    requires |s1| == |s2|
    requires forall k :: 0 <= k < |s1| ==> Coord(s1[k], a) == Coord(s2[k], a)
    ensures EmptyLines(s1, a, lo, hi) == EmptyLines(s2, a, lo, hi)
    decreases hi
  {
    if hi > lo {
      SameEmptyLines(s1, s2, a, lo, hi - 1);
      assert Occupied(s1, a, hi - 1) == Occupied(s2, a, hi - 1) by {
        if Occupied(s1, a, hi - 1) {
          var k :| 0 <= k < |s1| && Coord(s1[k], a) == hi - 1;
          assert Coord(s2[k], a) == hi - 1;
        }
        if Occupied(s2, a, hi - 1) {
          var k :| 0 <= k < |s2| && Coord(s2[k], a) == hi - 1;
          assert Coord(s1[k], a) == hi - 1;
        }
      }
    }
  }

  // ---------------------------------------------------------------------
  // What the coordinate expansion does to distances.
  // ---------------------------------------------------------------------

  /** With factor 1 nothing moves. */
  lemma DilatedFactorOne(gs: seq<Galaxy>)
    requires |gs| > 0
    ensures Dilated(gs, 1) == gs
  {
    assert forall k :: 0 <= k < |gs| ==> Dilated(gs, 1)[k] == gs[k];
  }

  lemma {:induction false} EmptyLinesSplit(gs: seq<Galaxy>, a: Axis, lo: nat, mid: nat, hi: nat)
    requires lo <= mid <= hi
    ensures EmptyLines(gs, a, lo, hi) == EmptyLines(gs, a, lo, mid) + EmptyLines(gs, a, mid, hi)
    decreases hi
  {
    if mid < hi {
      EmptyLinesSplit(gs, a, lo, mid, hi - 1);
    }
  }

  /** Number of empty lines from the lower of two lines (included) up to the higher (excluded). */
  function Gap(gs: seq<Galaxy>, a: Axis, u: nat, v: nat): nat
  {
    if u <= v then EmptyLines(gs, a, u, v) else EmptyLines(gs, a, v, u)
  }

  /** Two lines at or beyond the smallest occupied one end up as far apart as they
      were, plus `factor - 1` for each empty line between them. */
  lemma ImageDistance(gs: seq<Galaxy>, a: Axis, factor: nat, u: nat, v: nat)
    requires |gs| > 0 && factor >= 1
    requires MinCoord(gs, a) <= u && MinCoord(gs, a) <= v
    ensures AbsDiff(Image(gs, a, factor, u), Image(gs, a, factor, v)) ==
      AbsDiff(u, v) + (factor - 1) * Gap(gs, a, u, v)
    ensures u < v ==> Image(gs, a, factor, u) < Image(gs, a, factor, v)
  {
    if u <= v {
      ImageDistanceUp(gs, a, factor, u, v);
    } else {
      ImageDistanceUp(gs, a, factor, v, u);
    }
  }

  lemma ImageDistanceUp(gs: seq<Galaxy>, a: Axis, factor: nat, u: nat, v: nat)
    requires |gs| > 0 && factor >= 1
    requires MinCoord(gs, a) <= u <= v
    ensures AbsDiff(Image(gs, a, factor, u), Image(gs, a, factor, v)) == (v - u) + (factor - 1) * EmptyLines(gs, a, u, v)
    ensures AbsDiff(Image(gs, a, factor, v), Image(gs, a, factor, u)) == (v - u) + (factor - 1) * EmptyLines(gs, a, u, v)
    ensures u < v ==> Image(gs, a, factor, u) < Image(gs, a, factor, v)
  {
    ImageGap(gs, a, factor, u, v);
    MulNonNegative(factor - 1, EmptyLines(gs, a, u, v));
    AbsDiffApart(Image(gs, a, factor, u), Image(gs, a, factor, v), v - u, (factor - 1) * EmptyLines(gs, a, u, v));
  }

  lemma MulNonNegative(k: nat, x: nat)
    ensures k * x >= 0
  {
  }

  lemma AbsDiffApart(x: nat, y: nat, d: nat, p: nat)
    requires y == x + d + p
    ensures AbsDiff(x, y) == d + p && AbsDiff(y, x) == d + p
  {
  }

  /** Going up from line `u` to line `v`, the image grows by the distance plus
      `factor - 1` for every empty line passed. */
  lemma ImageGap(gs: seq<Galaxy>, a: Axis, factor: nat, u: nat, v: nat)
    requires |gs| > 0 && factor >= 1
    requires MinCoord(gs, a) <= u <= v
    ensures Image(gs, a, factor, v) == Image(gs, a, factor, u) + (v - u) + (factor - 1) * EmptyLines(gs, a, u, v)
  {
    ImageSplit(gs, a, factor - 1, MinCoord(gs, a), u, v);
  }

  lemma ImageSplit(gs: seq<Galaxy>, a: Axis, k: nat, m: nat, u: nat, v: nat)
    requires m <= u <= v
    ensures v + k * EmptyLines(gs, a, m, v) == u + k * EmptyLines(gs, a, m, u) + (v - u) + k * EmptyLines(gs, a, u, v)
  {
    EmptyLinesSplit(gs, a, m, u, v);
    MulAdd(k, EmptyLines(gs, a, m, u), EmptyLines(gs, a, u, v));
  }

  lemma MulAdd(k: nat, x: nat, y: nat)
    ensures k * (x + y) == k * x + k * y
  {
  }

  /** The distance of two galaxies after the expansion: their original distance plus
      `factor - 1` for every empty row and every empty column between them. */
  lemma DilatedDistance(gs: seq<Galaxy>, factor: nat, i: nat, j: nat)
    requires |gs| > 0 && factor >= 1 && i < |gs| && j < |gs|
    ensures var d := Dilated(gs, factor);
      ShortestPath(d[i], d[j]) == ShortestPath(gs[i], gs[j]) +
        (factor - 1) * (Gap(gs, Row, gs[i].index.row, gs[j].index.row) + Gap(gs, Col, gs[i].index.col, gs[j].index.col))
  {
    var d := Dilated(gs, factor);
    var ri, rj, ci, cj := gs[i].index.row, gs[j].index.row, gs[i].index.col, gs[j].index.col;
    assert d[i].index == Index(Image(gs, Row, factor, ri), Image(gs, Col, factor, ci));
    assert d[j].index == Index(Image(gs, Row, factor, rj), Image(gs, Col, factor, cj));
    ImageDistance(gs, Row, factor, ri, rj);
    ImageDistance(gs, Col, factor, ci, cj);
    MulAdd(factor - 1, Gap(gs, Row, ri, rj), Gap(gs, Col, ci, cj));
  }

  /** A larger factor never brings two galaxies closer. */
  lemma DilatedDistanceMonotone(gs: seq<Galaxy>, f1: nat, f2: nat, i: nat, j: nat)
    requires |gs| > 0 && 1 <= f1 <= f2 && i < |gs| && j < |gs|
    ensures ShortestPath(Dilated(gs, f1)[i], Dilated(gs, f1)[j]) <= ShortestPath(Dilated(gs, f2)[i], Dilated(gs, f2)[j])
  {
    DilatedDistance(gs, f1, i, j);
    DilatedDistance(gs, f2, i, j);
    var g := Gap(gs, Row, gs[i].index.row, gs[j].index.row) + Gap(gs, Col, gs[i].index.col, gs[j].index.col);
    MulMonotone(g, f1 - 1, f2 - 1);
    assert (f1 - 1) * g == g * (f1 - 1) && (f2 - 1) * g == g * (f2 - 1);
  }
}

/** The structural expander (`Universe::expand_from_map`): every all-empty row and
    then every all-empty column of the table is emitted twice, and every galaxy is
    then told the cell it now occupies. */
module StructuralExpansion {
  import opened Galaxies
  import opened Extraction

  /** A row holds a galaxy exactly when extracting its galaxies finds one. */
  predicate RowHasGalaxy(row: seq<Option<Galaxy>>): (has: bool)
    ensures has <==> |RowGalaxies(row)| > 0
  {
    SomeCellIffGalaxy(row);
    exists c :: 0 <= c < |row| && row[c].Some?
  }

  lemma SomeCellIffGalaxy(row: seq<Option<Galaxy>>)
    ensures (exists c :: 0 <= c < |row| && row[c].Some?) <==> |RowGalaxies(row)| > 0
  {
    var gs := RowGalaxies(row);
    if c :| 0 <= c < |row| && row[c].Some? {
      assert Some(row[c].value) in row;
      assert row[c].value in gs;
    }
    if |gs| > 0 {
      assert gs[0] in gs;
      var c :| 0 <= c < |row| && row[c] == Some(gs[0]);
    }
  }

  /** A column holds a galaxy only where some row does too. */
  predicate ColHasGalaxy(g: Grid, c: nat): (has: bool)
    ensures has ==> exists r :: 0 <= r < |g| && RowHasGalaxy(g[r])
  {
    exists r :: 0 <= r < |g| && c < |g[r]| && g[r][c].Some?
  }

  /** For each row: does it hold a galaxy? */
  function RowOccupancy(g: Grid): seq<bool>
  {
    seq(|g|, r requires 0 <= r < |g| => RowHasGalaxy(g[r]))
  }

  /** For each of the first `w` columns: does it hold a galaxy? */
  function ColOccupancy(g: Grid, w: nat): seq<bool>
  {
    seq(w, c requires 0 <= c < w => ColHasGalaxy(g, c))
  }

  /** Number of empty lines in an occupancy list. */
  function CountFalse(occ: seq<bool>): nat
  {
    if occ == [] then 0 else CountFalse(occ[..|occ| - 1]) + (if occ[|occ| - 1] then 0 else 1)
  }

  /** Number of empty lines before line `v`. */
  function EmptyBefore(occ: seq<bool>, v: nat): nat
  {
    CountFalse(occ[..if v <= |occ| then v else |occ|])
  }

  /** The source line behind each line of the expanded axis: an occupied line
      once, an empty line twice, in order. */
  function Plan(occ: seq<bool>): (p: seq<nat>)
    ensures |p| == |occ| + CountFalse(occ)
    ensures forall k :: 0 <= k < |p| ==> p[k] < |occ|
  {
    if occ == [] then []
    else
      var n := |occ| - 1;
      Plan(occ[..n]) + (if occ[n] then [n] else [n, n])
  }

  /** Line `v` starts at position `v + (empty lines before v)` of the plan; it fills
      that one position when occupied, that one and the next when empty, and no other. */
  lemma {:induction false} PlanBlocks(occ: seq<bool>, v: nat)
    requires v < |occ|
    ensures var s := v + CountFalse(occ[..v]);
      && s < |Plan(occ)| && Plan(occ)[s] == v
      && (!occ[v] ==> s + 1 < |Plan(occ)| && Plan(occ)[s + 1] == v)
      && forall k :: 0 <= k < |Plan(occ)| && Plan(occ)[k] == v ==> k == s || (!occ[v] && k == s + 1)
    decreases |occ|
  {
    var n := |occ| - 1;
    var init := occ[..n];
    if v < n {
      assert init[..v] == occ[..v];
      PlanBlocks(init, v);
    } else {
      assert occ[..v] == init;
    }
  }

  /** A position of the plan whose line is occupied sits after exactly
      `line + (empty lines before it)` positions. */
  lemma PlanInverse(occ: seq<bool>, i: nat)
    requires i < |Plan(occ)| && occ[Plan(occ)[i]]
    ensures i == Plan(occ)[i] + CountFalse(occ[..Plan(occ)[i]])
  {
    PlanBlocks(occ, Plan(occ)[i]);
  }

  function Blank(w: nat): (row: seq<Option<Galaxy>>)
    ensures |row| == w && !RowHasGalaxy(row)
  {
    seq(w, _ => None)
  }

  /** The table with a column appended. */
  function PushColumn(t: Grid, col: seq<Option<Galaxy>>): Grid
    requires |col| == |t|
  {
    seq(|t|, i requires 0 <= i < |t| => t[i] + [col[i]])
  }

  /** Column `c` of the table. */
  function Column(t: Grid, c: nat): seq<Option<Galaxy>>
    requires forall i :: 0 <= i < |t| ==> c < |t[i]|
  {
    seq(|t|, i requires 0 <= i < |t| => t[i][c])
  }

  /** A cell's content after it has been told that it sits at (i, j). */
  function Relocate(cell: Option<Galaxy>, i: nat, j: nat): (r: Option<Galaxy>)
    ensures r.Some? <==> cell.Some?
    ensures r.Some? ==> r.value.id == cell.value.id && r.value.index == Index(i, j)
  {
    match cell
    case None => None
    case Some(x) => Some(x.(index := Index(i, j)))
  }

  /** The expanded table: row i, column j holds the cell of source row `rp[i]`,
      source column `cp[j]`, relocated to (i, j). */
  function ExpandedMap(g: Grid): (e: Grid)
    requires Rectangular(g)
    ensures |e| == |g| + CountFalse(RowOccupancy(g))
    ensures forall i :: 0 <= i < |e| ==> |e[i]| == Width(g) + CountFalse(ColOccupancy(g, Width(g)))
    ensures Consistent(e)
  {
    var rp := Plan(RowOccupancy(g));
    var cp := Plan(ColOccupancy(g, Width(g)));
    seq(|rp|, i requires 0 <= i < |rp| =>
      seq(|cp|, j requires 0 <= j < |cp| => Relocate(g[rp[i]][cp[j]], i, j)))
  }

  /** A galaxy's position after the expansion: shifted down by the empty rows above
      it and right by the empty columns left of it. */
  function Shifted(rowOcc: seq<bool>, colOcc: seq<bool>, x: Galaxy): (y: Galaxy)
    ensures y.id == x.id
  {
    Galaxy(x.id, Index(x.index.row + EmptyBefore(rowOcc, x.index.row), x.index.col + EmptyBefore(colOcc, x.index.col)))
  }

  /** The universe: a table that its methods replace. */
  class Universe {
    var table: Grid

    predicate Valid()
      reads this
    {
      Rectangular(table)
    }

    constructor (table: Grid)
      requires Rectangular(table)
      ensures Valid() && this.table == table
    {
      this.table := table;
    }

    /** `expand_from_map`. */
    method ExpandFromMap()
      requires Valid()
      modifies this
      ensures Valid()
      ensures table == ExpandedMap(old(table))
    {
      var g := table;
      var width := Width(g);
      var stageOne := DoubleEmptyRows(g, width);
      ExpansionKeepsColumns(g, stageOne);
      var stageTwo := DoubleEmptyColumns(stageOne, width);
      var expanded := RelocateAll(stageTwo);
      ghost var rp, cp := Plan(RowOccupancy(g)), Plan(ColOccupancy(g, width));
      ghost var e := ExpandedMap(g);
      assert |e| == |expanded|;
      forall i | 0 <= i < |e|
        ensures expanded[i] == e[i]
      {
        forall j | 0 <= j < |e[i]|
          ensures expanded[i][j] == e[i][j]
        {
          assert e[i][j] == Relocate(g[rp[i]][cp[j]], i, j);
        }
      }
      table := expanded;
    }
  }

  /** The row pass: each row holding a galaxy once, each empty row as two blank rows. */
  method DoubleEmptyRows(g: Grid, width: nat) returns (stageOne: Grid)
    requires Rectangular(g) && width == Width(g)
    ensures |stageOne| == |Plan(RowOccupancy(g))|
    ensures forall i :: 0 <= i < |stageOne| ==> stageOne[i] == g[Plan(RowOccupancy(g))[i]]
  {
    ghost var rowOcc := RowOccupancy(g);
    stageOne := [];
    for r := 0 to |g|
      invariant |stageOne| == |Plan(rowOcc[..r])|
      invariant forall i :: 0 <= i < |stageOne| ==> stageOne[i] == g[Plan(rowOcc[..r])[i]]
    {
      assert rowOcc[..r + 1][..r] == rowOcc[..r];
      if RowHasGalaxy(g[r]) {
        stageOne := stageOne + [g[r]];
      } else {
        assert g[r] == Blank(width);
        stageOne := stageOne + [Blank(width)];
        stageOne := stageOne + [Blank(width)];
      }
    }
    assert rowOcc[..|g|] == rowOcc;
  }

  /** The column pass: each column holding a galaxy once, each empty column as two blank columns. */
  method DoubleEmptyColumns(stageOne: Grid, width: nat) returns (stageTwo: Grid)
    requires forall i :: 0 <= i < |stageOne| ==> |stageOne[i]| == width
    ensures |stageTwo| == |stageOne|
    ensures forall i :: 0 <= i < |stageTwo| ==> |stageTwo[i]| == |Plan(ColOccupancy(stageOne, width))|
    ensures forall i, j :: 0 <= i < |stageTwo| && 0 <= j < |stageTwo[i]| ==>
      stageTwo[i][j] == stageOne[i][Plan(ColOccupancy(stageOne, width))[j]]
  {
    var rows := |stageOne|;
    ghost var colOcc := ColOccupancy(stageOne, width);
    stageTwo := seq(rows, _ => []);
    for c := 0 to width
      invariant |stageTwo| == rows
      invariant forall i :: 0 <= i < rows ==> |stageTwo[i]| == |Plan(colOcc[..c])|
      invariant forall i, j :: 0 <= i < rows && 0 <= j < |stageTwo[i]| ==>
        stageTwo[i][j] == stageOne[i][Plan(colOcc[..c])[j]]
    {
      assert colOcc[..c + 1][..c] == colOcc[..c];
      if ColHasGalaxy(stageOne, c) {
        stageTwo := PushColumn(stageTwo, Column(stageOne, c));
      } else {
        stageTwo := PushColumn(stageTwo, Blank(rows));
        stageTwo := PushColumn(stageTwo, Blank(rows));
      }
    }
    assert colOcc[..width] == colOcc;
  }

  /** The re-indexing pass: every galaxy is told the cell it sits in. */
  method RelocateAll(t: Grid) returns (s: Grid)
    ensures |s| == |t|
    ensures forall i :: 0 <= i < |t| ==> |s[i]| == |t[i]|
    ensures forall i, j :: 0 <= i < |t| && 0 <= j < |t[i]| ==> s[i][j] == Relocate(t[i][j], i, j)
  {
    s := t;
    for i := 0 to |t|
      invariant |s| == |t|
      invariant forall i' :: 0 <= i' < |t| ==> |s[i']| == |t[i']|
      invariant forall i', j :: 0 <= i' < i && 0 <= j < |t[i']| ==> s[i'][j] == Relocate(t[i'][j], i', j)
      invariant forall i' :: i <= i' < |t| ==> s[i'] == t[i']
    {
      for j := 0 to |t[i]|
        invariant |s| == |t|
        invariant forall i' :: 0 <= i' < |t| ==> |s[i']| == |t[i']|
        invariant forall i', j' :: 0 <= i' < i && 0 <= j' < |t[i']| ==> s[i'][j'] == Relocate(t[i'][j'], i', j')
        invariant forall j' :: 0 <= j' < j ==> s[i][j'] == Relocate(t[i][j'], i, j')
        invariant forall j' :: j <= j' < |t[i]| ==> s[i][j'] == t[i][j']
        invariant forall i' :: i < i' < |t| ==> s[i'] == t[i']
      {
        if s[i][j].Some? {
          var galaxy := s[i][j].value;
          s := s[i := s[i][j := Some(galaxy.(index := Index(i, j)))]];
        }
      }
    }
  }

  /** The row pass leaves the column occupancy as it was. */
  lemma ExpansionKeepsColumns(g: Grid, stageOne: Grid)
    requires Rectangular(g)
    requires |stageOne| == |Plan(RowOccupancy(g))|
    requires forall i :: 0 <= i < |stageOne| ==> stageOne[i] == g[Plan(RowOccupancy(g))[i]]
    ensures forall i :: 0 <= i < |stageOne| ==> |stageOne[i]| == Width(g)
    ensures ColOccupancy(stageOne, Width(g)) == ColOccupancy(g, Width(g))
  {
    var occ := RowOccupancy(g);
    forall c | 0 <= c < Width(g)
      ensures ColHasGalaxy(stageOne, c) == ColHasGalaxy(g, c)
    {
      if ColHasGalaxy(g, c) {
        var r :| 0 <= r < |g| && c < |g[r]| && g[r][c].Some?;
        assert RowHasGalaxy(g[r]);
        PlanBlocks(occ, r);
        var s := r + CountFalse(occ[..r]);
        assert stageOne[s][c].Some?;
      }
    }
  }

  // ---------------------------------------------------------------------
  // What the expansion does to the galaxies.
  // ---------------------------------------------------------------------

  /** The entries of `s` at the positions `p` lists, in that order. */
  function Select<T>(s: seq<T>, p: seq<nat>): seq<T>
    requires forall k :: 0 <= k < |p| ==> p[k] < |s|
  {
    seq(|p|, k requires 0 <= k < |p| => s[p[k]])
  }

  /** Doubling the empty cells of a row does not change its galaxies. */
  lemma {:induction false} SelectColumnsGalaxies(row: seq<Option<Galaxy>>, occ: seq<bool>)
    requires |occ| == |row|
    requires forall c :: 0 <= c < |row| && !occ[c] ==> row[c] == None
    ensures RowGalaxies(Select(row, Plan(occ))) == RowGalaxies(row)
    decreases |occ|
  {
    if occ != [] {
      var n := |occ| - 1;
      var p' := Plan(occ[..n]);
      var block: seq<nat> := if occ[n] then [n] else [n, n];
      assert Plan(occ) == p' + block;
      SelectSplit(row, n, p', block);
      SelectColumnsGalaxies(row[..n], occ[..n]);
      BlockGalaxies(row, n, block, occ[n]);
      RowGalaxiesAppend(Select(row[..n], p'), Select(row, block));
      RowGalaxiesLast(row);
    }
  }

  lemma RowGalaxiesLast(row: seq<Option<Galaxy>>)
    requires row != []
    ensures RowGalaxies(row) == RowGalaxies(row[..|row| - 1]) + RowGalaxies([row[|row| - 1]])
  {
    var n := |row| - 1;
    RowGalaxiesAppend(row[..n], [row[n]]);
    assert row[..n] + [row[n]] == row;
  }

  /** The block of one cell: the cell once, or an empty cell twice. */
  lemma BlockGalaxies(row: seq<Option<Galaxy>>, n: nat, block: seq<nat>, occupied: bool)
    requires n < |row|
    requires block == if occupied then [n] else [n, n]
    requires !occupied ==> row[n] == None
    ensures RowGalaxies(Select(row, block)) == RowGalaxies([row[n]])
  {
    if occupied {
      assert Select(row, block) == [row[n]];
    } else {
      assert Select(row, block) == [None] + [None];
      RowGalaxiesAppend([None], [None]);
    }
  }

  /** Selecting by a plan that ends with a block for the last line: the earlier
      part selects from the shorter row. */
  lemma SelectSplit<T>(s: seq<T>, n: nat, p': seq<nat>, block: seq<nat>)
    requires n < |s| && |s| == n + 1
    requires forall k :: 0 <= k < |p'| ==> p'[k] < n
    requires forall k :: 0 <= k < |block| ==> block[k] == n
    ensures Select(s, p' + block) == Select(s[..n], p') + Select(s, block)
  {
  }

  /** Doubling the rows without galaxies does not change the galaxies of a table. */
  lemma {:induction false} SelectRowsGalaxies(t: Grid, occ: seq<bool>)
    requires |occ| == |t|
    requires forall r :: 0 <= r < |t| && !occ[r] ==> RowGalaxies(t[r]) == []
    ensures LocateGalaxies(Select(t, Plan(occ))) == LocateGalaxies(t)
    decreases |occ|
  {
    if occ != [] {
      var n := |occ| - 1;
      var p' := Plan(occ[..n]);
      var block: seq<nat> := if occ[n] then [n] else [n, n];
      assert Plan(occ) == p' + block;
      SelectSplit(t, n, p', block);
      SelectRowsGalaxies(t[..n], occ[..n]);
      BlockRows(t, n, block, occ[n]);
      LocateGalaxiesAppend(Select(t[..n], p'), Select(t, block));
      LocateSingle(t[n]);
    }
  }

  /** The block of one row: the row once, or a row without galaxies twice. */
  lemma BlockRows(t: Grid, n: nat, block: seq<nat>, occupied: bool)
    requires n < |t|
    requires block == if occupied then [n] else [n, n]
    requires !occupied ==> RowGalaxies(t[n]) == []
    ensures LocateGalaxies(Select(t, block)) == LocateGalaxies([t[n]])
  {
    LocateSingle(t[n]);
    if occupied {
      assert Select(t, block) == [t[n]];
    } else {
      assert Select(t, block) == [t[n]] + [t[n]];
      LocateGalaxiesAppend([t[n]], [t[n]]);
    }
  }

  lemma LocateSingle(row: seq<Option<Galaxy>>)
    ensures LocateGalaxies([row]) == RowGalaxies(row)
  {
    assert [row][..0] == [];
  }

  /** Tables whose rows hold the same galaxies hold the same galaxy list. */
  lemma {:induction false} LocateRowwise(t: Grid, g: Grid)
    requires |t| == |g|
    requires forall r :: 0 <= r < |g| ==> RowGalaxies(t[r]) == RowGalaxies(g[r])
    ensures LocateGalaxies(t) == LocateGalaxies(g)
    decreases |g|
  {
    if g != [] {
      LocateRowwise(t[..|t| - 1], g[..|g| - 1]);
    }
  }

  /** Every row of the table restricted to (and repeating) the columns `cp`. */
  function SelectColumns(g: Grid, cp: seq<nat>): Grid
    requires forall r, k :: 0 <= r < |g| && 0 <= k < |cp| ==> cp[k] < |g[r]|
  {
    seq(|g|, r requires 0 <= r < |g| => Select(g[r], cp))
  }

  /** A row without galaxies yields none. */
  lemma {:induction false} NoGalaxyRow(row: seq<Option<Galaxy>>)
    requires !RowHasGalaxy(row)
    ensures RowGalaxies(row) == []
    decreases |row|
  {
    if row != [] {
      var n := |row| - 1;
      assert !RowHasGalaxy(row[..n]) by {
        forall c | 0 <= c < n ensures row[..n][c] == row[c] { }
      }
      NoGalaxyRow(row[..n]);
    }
  }

  /** Doubling the empty rows and columns, before relocation, keeps the galaxy list. */
  lemma DoubledGalaxies(g: Grid)
    requires Rectangular(g)
    ensures var t := SelectColumns(g, Plan(ColOccupancy(g, Width(g))));
      LocateGalaxies(Select(t, Plan(RowOccupancy(g)))) == LocateGalaxies(g)
  {
    var co := ColOccupancy(g, Width(g));
    var ro := RowOccupancy(g);
    var t := SelectColumns(g, Plan(co));
    forall r | 0 <= r < |g|
      ensures RowGalaxies(t[r]) == RowGalaxies(g[r])
    {
      SelectColumnsGalaxies(g[r], co);
    }
    LocateRowwise(t, g);
    forall r | 0 <= r < |t| && !ro[r]
      ensures RowGalaxies(t[r]) == []
    {
      NoGalaxyRow(g[r]);
    }
    SelectRowsGalaxies(t, ro);
  }

  /** A galaxy of the consistent table lands, in the expanded one, where `Shifted` puts it. */
  lemma ExpandedCell(g: Grid, i: nat, j: nat)
    requires Rectangular(g) && Consistent(g)
    requires i < |Plan(RowOccupancy(g))| && j < |Plan(ColOccupancy(g, Width(g)))|
    ensures var ro, co := RowOccupancy(g), ColOccupancy(g, Width(g));
      ExpandedMap(g)[i][j] == MapCell(x => Shifted(ro, co, x), g[Plan(ro)[i]][Plan(co)[j]])
  {
    var ro, co := RowOccupancy(g), ColOccupancy(g, Width(g));
    var r, c := Plan(ro)[i], Plan(co)[j];
    var e := ExpandedMap(g);
    assert e[i][j] == Relocate(g[r][c], i, j);
    match g[r][c]
    case None =>
    case Some(x) =>
      assert x.index == Index(r, c);
      assert RowHasGalaxy(g[r]);
      assert ColHasGalaxy(g, c);
      PlanInverse(ro, i);
      PlanInverse(co, j);
      assert Shifted(ro, co, x).index == Index(i, j);
  }

  /** After the expansion the table lists the same galaxies in the same order, each
      moved down by the empty rows above it and right by the empty columns left of it. */
  lemma ExpandedGalaxies(g: Grid)
    requires Rectangular(g) && Consistent(g)
    ensures LocateGalaxies(ExpandedMap(g)) ==
      MapList(x => Shifted(RowOccupancy(g), ColOccupancy(g, Width(g)), x), LocateGalaxies(g))
  {
    var ro, co := RowOccupancy(g), ColOccupancy(g, Width(g));
    var rp, cp := Plan(ro), Plan(co);
    var f := x => Shifted(ro, co, x);
    var s := Select(SelectColumns(g, cp), rp);
    DoubledGalaxies(g);
    var e := ExpandedMap(g);
    forall i, j | 0 <= i < |s| && 0 <= j < |s[i]|
      ensures e[i][j] == MapCell(f, s[i][j])
    {
      ExpandedCell(g, i, j);
    }
    LocateGalaxiesMap(s, e, f);
  }

  /** The expansion changes no id and no order: the expanded table lists the same ids. */
  lemma ExpandedIds(g: Grid)
    requires Rectangular(g) && Consistent(g)
    ensures |LocateGalaxies(ExpandedMap(g))| == |LocateGalaxies(g)|
    ensures forall k :: 0 <= k < |LocateGalaxies(g)| ==> LocateGalaxies(ExpandedMap(g))[k].id == LocateGalaxies(g)[k].id
  {
    ExpandedGalaxies(g);
  }
}

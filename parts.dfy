/** The two puzzle answers, and how the two expansion strategies relate. */
module Parts {
  import opened Galaxies
  import opened Extraction
  import opened Parsing
  import opened StructuralExpansion
  import opened CoordinateExpansion
  import opened ShortestPaths

  /** A galaxy of the table's list sits inside the table, in the cell it records. */
  lemma GalaxyInTable(g: Grid, x: Galaxy)
    requires Rectangular(g) && Consistent(g) && x in LocateGalaxies(g)
    ensures x.index.row < |g| && x.index.col < Width(g)
    ensures g[x.index.row][x.index.col] == Some(x)
  {
    var r :| 0 <= r < |g| && Some(x) in g[r];
    var c :| 0 <= c < |g[r]| && g[r][c] == Some(x);
  }

  /** A row of the table is occupied exactly when some galaxy of the list sits on it. */
  lemma RowOccupancyMatches(g: Grid, r: nat)
    requires Rectangular(g) && Consistent(g) && r < |g|
    ensures RowOccupancy(g)[r] <==> Occupied(LocateGalaxies(g), Row, r)
  {
    var gs := LocateGalaxies(g);
    if RowHasGalaxy(g[r]) {
      var c :| 0 <= c < |g[r]| && g[r][c].Some?;
      var x := g[r][c].value;
      assert Some(x) in g[r];
      assert x in gs;
      var k :| 0 <= k < |gs| && gs[k] == x;
      assert Coord(gs[k], Row) == r;
    }
    if Occupied(gs, Row, r) {
      var k :| 0 <= k < |gs| && Coord(gs[k], Row) == r;
      GalaxyInTable(g, gs[k]);
      assert g[r][gs[k].index.col].Some?;
    }
  }

  /** A column of the table is occupied exactly when some galaxy of the list sits on it. */
  lemma ColOccupancyMatches(g: Grid, c: nat)
    requires Rectangular(g) && Consistent(g) && c < Width(g)
    ensures ColOccupancy(g, Width(g))[c] <==> Occupied(LocateGalaxies(g), Col, c)
  {
    var gs := LocateGalaxies(g);
    if ColHasGalaxy(g, c) {
      var r :| 0 <= r < |g| && c < |g[r]| && g[r][c].Some?;
      var x := g[r][c].value;
      assert Some(x) in g[r];
      assert x in gs;
      var k :| 0 <= k < |gs| && gs[k] == x;
      assert Coord(gs[k], Col) == c;
    }
    if Occupied(gs, Col, c) {
      var k :| 0 <= k < |gs| && Coord(gs[k], Col) == c;
      GalaxyInTable(g, gs[k]);
      assert g[gs[k].index.row][c].Some?;
    }
  }

  /** Counting the empty entries of an occupancy list is counting empty lines. */
  lemma {:induction false} CountFalseIsEmptyLines(occ: seq<bool>, gs: seq<Galaxy>, a: Axis, v: nat)
    requires v <= |occ|
    requires forall u :: 0 <= u < |occ| ==> (occ[u] <==> Occupied(gs, a, u))
    ensures CountFalse(occ[..v]) == EmptyLines(gs, a, 0, v)
  {
    if v > 0 {
      assert occ[..v][..v - 1] == occ[..v - 1];
      CountFalseIsEmptyLines(occ, gs, a, v - 1);
    }
  }

  /** Every line before the smallest occupied one is empty. */
  lemma {:induction false} BelowMinimumEmpty(gs: seq<Galaxy>, a: Axis, v: nat)
    requires |gs| > 0 && v <= MinCoord(gs, a)
    ensures EmptyLines(gs, a, 0, v) == v
  {
    if v > 0 {
      BelowMinimumEmpty(gs, a, v - 1);
      assert !Occupied(gs, a, v - 1);
    }
  }

  /** Empty lines before `v`, counted from line 0, are the lines before the smallest
      occupied one plus the empty lines from there on. */
  lemma EmptyFromZero(gs: seq<Galaxy>, a: Axis, v: nat)
    requires |gs| > 0 && MinCoord(gs, a) <= v
    ensures EmptyLines(gs, a, 0, v) == MinCoord(gs, a) + EmptyLines(gs, a, MinCoord(gs, a), v)
  {
    BelowMinimumEmpty(gs, a, MinCoord(gs, a));
    EmptyLinesSplit(gs, a, 0, MinCoord(gs, a), v);
  }

  /** Where the table expansion puts one galaxy: its factor-2 image under the list
      expansion, moved down by the smallest occupied row and right by the smallest
      occupied column. */
  lemma ShiftedIsTranslatedImage(g: Grid, x: Galaxy)
    requires Rectangular(g) && Consistent(g) && x in LocateGalaxies(g)
    ensures var gs := LocateGalaxies(g);
      Shifted(RowOccupancy(g), ColOccupancy(g, Width(g)), x) ==
        Galaxy(x.id, Index(Image(gs, Row, 2, x.index.row) + MinCoord(gs, Row),
                           Image(gs, Col, 2, x.index.col) + MinCoord(gs, Col)))
  {
    RowShift(g, x);
    ColShift(g, x);
  }

  lemma RowShift(g: Grid, x: Galaxy)
    requires Rectangular(g) && Consistent(g) && x in LocateGalaxies(g)
    ensures var gs := LocateGalaxies(g);
      x.index.row + EmptyBefore(RowOccupancy(g), x.index.row) == Image(gs, Row, 2, x.index.row) + MinCoord(gs, Row)
  {
    var gs := LocateGalaxies(g);
    var ro := RowOccupancy(g);
    GalaxyInTable(g, x);
    var k :| 0 <= k < |gs| && gs[k] == x;
    assert MinCoord(gs, Row) <= Coord(gs[k], Row);
    forall u | 0 <= u < |ro| ensures ro[u] <==> Occupied(gs, Row, u) {
      RowOccupancyMatches(g, u);
    }
    CountFalseIsEmptyLines(ro, gs, Row, x.index.row);
    EmptyFromZero(gs, Row, x.index.row);
  }

  lemma ColShift(g: Grid, x: Galaxy)
    requires Rectangular(g) && Consistent(g) && x in LocateGalaxies(g)
    ensures var gs := LocateGalaxies(g);
      x.index.col + EmptyBefore(ColOccupancy(g, Width(g)), x.index.col) == Image(gs, Col, 2, x.index.col) + MinCoord(gs, Col)
  {
    var gs := LocateGalaxies(g);
    var co := ColOccupancy(g, Width(g));
    GalaxyInTable(g, x);
    var k :| 0 <= k < |gs| && gs[k] == x;
    assert MinCoord(gs, Col) <= Coord(gs[k], Col);
    forall u | 0 <= u < |co| ensures co[u] <==> Occupied(gs, Col, u) {
      ColOccupancyMatches(g, u);
    }
    CountFalseIsEmptyLines(co, gs, Col, x.index.col);
    EmptyFromZero(gs, Col, x.index.col);
  }

  /** `e` is `d` moved down by `dr` and right by `dc`, galaxy by galaxy. */
  predicate Translated(e: seq<Galaxy>, d: seq<Galaxy>, dr: nat, dc: nat)
  {
    |e| == |d| && forall k :: 0 <= k < |e| ==> MovedBy(e[k], d[k], dr, dc)
  }

  /** `x` is `y` moved down by `dr` and right by `dc`. */
  predicate MovedBy(x: Galaxy, y: Galaxy, dr: nat, dc: nat)
  {
    x.id == y.id && x.index == Index(y.index.row + dr, y.index.col + dc)
  }

  /** Moving every galaxy by the same offset keeps the total. */
  lemma TranslatedSameTotal(e: seq<Galaxy>, d: seq<Galaxy>, dr: nat, dc: nat)
    requires Translated(e, d, dr, dc)
    ensures PairSum(e) == PairSum(d)
  {
    forall i, j | 0 <= i < j < |e|
      ensures ShortestPath(e[i], e[j]) == ShortestPath(d[i], d[j])
    {
      ShortestPathTranslate(d[i], d[j], e[i], e[j], dr, dc);
    }
    PairSumEqual(e, d);
  }

  /** The table expansion and the list expansion at factor 2 agree up to a fixed
      offset: the list expansion measures lines from the smallest occupied one, the
      table expansion from line 0. Same galaxies, same order. */
  lemma StructuralMatchesCoordinate(g: Grid)
    requires Rectangular(g) && Consistent(g) && |LocateGalaxies(g)| > 0
    ensures var gs := LocateGalaxies(g);
      Translated(LocateGalaxies(ExpandedMap(g)), Dilated(gs, 2), MinCoord(gs, Row), MinCoord(gs, Col))
  {
    var gs := LocateGalaxies(g);
    var e := LocateGalaxies(ExpandedMap(g));
    var d := Dilated(gs, 2);
    var dr, dc := MinCoord(gs, Row), MinCoord(gs, Col);
    ExpandedIds(g);
    forall k | 0 <= k < |e|
      ensures MovedBy(e[k], d[k], dr, dc)
    {
      ElementMatches(g, k);
    }
  }

  lemma ElementMatches(g: Grid, k: nat)
    requires Rectangular(g) && Consistent(g) && k < |LocateGalaxies(g)|
    ensures var gs := LocateGalaxies(g);
      var e := LocateGalaxies(ExpandedMap(g));
      var d := Dilated(gs, 2);
      k < |e| && k < |d| && MovedBy(e[k], d[k], MinCoord(gs, Row), MinCoord(gs, Col))
  {
    var gs := LocateGalaxies(g);
    ExpandedGalaxies(g);
    ShiftedIsTranslatedImage(g, gs[k]);
  }

  /** Hence both expansions give the same total of shortest paths. */
  lemma FactorTwoTotalsAgree(g: Grid)
    requires Rectangular(g) && Consistent(g) && |LocateGalaxies(g)| > 0
    ensures PairSum(LocateGalaxies(ExpandedMap(g))) == PairSum(Dilated(LocateGalaxies(g), 2))
  {
    var gs := LocateGalaxies(g);
    StructuralMatchesCoordinate(g);
    TranslatedSameTotal(LocateGalaxies(ExpandedMap(g)), Dilated(gs, 2), MinCoord(gs, Row), MinCoord(gs, Col));
  }

  /** The total grows with the expansion factor. */
  lemma DilatedTotalMonotone(gs: seq<Galaxy>, f1: nat, f2: nat)
    requires |gs| > 0 && 1 <= f1 <= f2
    ensures PairSum(Dilated(gs, f1)) <= PairSum(Dilated(gs, f2))
  {
    var d1, d2 := Dilated(gs, f1), Dilated(gs, f2);
    forall i, j | 0 <= i < j < |d1|
      ensures ShortestPath(d1[i], d1[j]) <= ShortestPath(d2[i], d2[j])
    {
      DilatedDistanceMonotone(gs, f1, f2, i, j);
    }
    PairSumMonotone(d1, d2);
  }

  /** A successfully parsed universe meets what both parts expect of their input,
      apart from holding at least one galaxy. */
  lemma ParsedUniverseWellFormed(lines: seq<string>, g: Grid)
    requires ParseSpec(lines) == Ok(g)
    ensures Rectangular(g) && Consistent(g) && UniqueIds(LocateGalaxies(g))
    ensures |LocateGalaxies(g)| > 0 <==> HashesBefore(lines, |lines|) > 0
  {
    ParseCells(lines, g);
    ParseIds(lines, g);
  }

  /**
   * Part one: expand the table (every empty row and column doubled), list the
   * galaxies, build the table of shortest paths and add up its values. The
   * universe must hold a galaxy, since the path extraction starts from the list
   * length minus one.
   */
  method Part1(g: Grid) returns (total: nat)
    requires Rectangular(g) && Consistent(g) && UniqueIds(LocateGalaxies(g))
    requires |LocateGalaxies(g)| > 0
    ensures total == PairSum(Dilated(LocateGalaxies(g), 2))
  {
    var universe := new Universe(g);
    universe.ExpandFromMap();
    var galaxies := LocateGalaxies(universe.table);
    ExpandedIds(g);
    var shortestPaths := ExtractShortestPaths(galaxies);
    total := SumValues(shortestPaths);
    FactorTwoTotalsAgree(g);
  }

  /**
   * Part two: list the galaxies, expand their coordinates by a factor of one
   * million, build the table of shortest paths and add up its values.
   */
  method Part2(g: Grid) returns (total: nat)
    requires UniqueIds(LocateGalaxies(g))
    requires |LocateGalaxies(g)| > 0
    ensures total == PairSum(Dilated(LocateGalaxies(g), 1000000))
  {
    var galaxies := LocateGalaxies(g);
    var expanded := ExpandFromGalaxies(galaxies, 1000000);
    var shortestPaths := ExtractShortestPaths(expanded);
    total := SumValues(shortestPaths);
  }

  /** Part two's answer is never below part one's. */
  lemma Part2AtLeastPart1(g: Grid)
    requires |LocateGalaxies(g)| > 0
    ensures PairSum(Dilated(LocateGalaxies(g), 2)) <= PairSum(Dilated(LocateGalaxies(g), 1000000))
  {
    DilatedTotalMonotone(LocateGalaxies(g), 2, 1000000);
  }
}

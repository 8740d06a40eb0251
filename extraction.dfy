/** Flattening the table into the row-major list of the galaxies present. */
module Extraction {
  import opened Galaxies

  /** The galaxies of one row, left to right. */
  function RowGalaxies(row: seq<Option<Galaxy>>): (gs: seq<Galaxy>)
    ensures |gs| <= |row|
    ensures forall x :: x in gs <==> Some(x) in row
  {
    if row == [] then []
    else
      var init := row[..|row| - 1];
      assert row == init + [row[|row| - 1]];
      match row[|row| - 1]
      case None => RowGalaxies(init)
      case Some(x) => RowGalaxies(init) + [x]
  }

  /** The galaxies of the table in row-major order. */
  function LocateGalaxies(g: Grid): (gs: seq<Galaxy>)
    ensures forall x :: x in gs <==> exists r :: 0 <= r < |g| && Some(x) in g[r]
  {
    if g == [] then []
    else
      var init := g[..|g| - 1];
      assert forall r :: 0 <= r < |init| ==> init[r] == g[r];
      LocateGalaxies(init) + RowGalaxies(g[|g| - 1])
  }

  lemma RowGalaxiesAppend(a: seq<Option<Galaxy>>, b: seq<Option<Galaxy>>)
    ensures RowGalaxies(a + b) == RowGalaxies(a) + RowGalaxies(b)
    decreases |b|
  {
    if b != [] {
      var n := |b| - 1;
      assert (a + b)[..|a + b| - 1] == a + b[..n];
      assert b[..|b| - 1] == b[..n];
      RowGalaxiesAppend(a, b[..n]);
    } else {
      assert a + b == a;
    }
  }

  lemma LocateGalaxiesAppend(g: Grid, h: Grid)
    ensures LocateGalaxies(g + h) == LocateGalaxies(g) + LocateGalaxies(h)
    decreases |h|
  {
    if h != [] {
      var n := |h| - 1;
      assert (g + h)[..|g + h| - 1] == g + h[..n];
      LocateGalaxiesAppend(g, h[..n]);
    } else {
      assert g + h == g;
    }
  }

  /** Applying `f` to every galaxy of the table maps the extracted list by `f`. */
  lemma {:induction false} RowGalaxiesMap(row: seq<Option<Galaxy>>, row': seq<Option<Galaxy>>, f: Galaxy -> Galaxy)
    requires |row'| == |row|
    requires forall c :: 0 <= c < |row| ==> row'[c] == MapCell(f, row[c])
    ensures RowGalaxies(row') == MapList(f, RowGalaxies(row))
    decreases |row|
  {
    if row != [] {
      var n := |row| - 1;
      RowGalaxiesMap(row[..n], row'[..n], f);
    }
  }

  lemma {:induction false} LocateGalaxiesMap(g: Grid, g': Grid, f: Galaxy -> Galaxy)
    requires |g'| == |g|
    requires forall r :: 0 <= r < |g| ==> |g'[r]| == |g[r]|
    requires forall r, c :: 0 <= r < |g| && 0 <= c < |g[r]| ==> g'[r][c] == MapCell(f, g[r][c])
    ensures LocateGalaxies(g') == MapList(f, LocateGalaxies(g))
    decreases |g|
  {
    if g != [] {
      var n := |g| - 1;
      LocateGalaxiesMap(g[..n], g'[..n], f);
      RowGalaxiesMap(g[n], g'[n], f);
      MapListAppend(f, LocateGalaxies(g[..n]), RowGalaxies(g[n]));
    }
  }

  function MapCell(f: Galaxy -> Galaxy, cell: Option<Galaxy>): Option<Galaxy>
  {
    match cell
    case None => None
    case Some(x) => Some(f(x))
  }

  function MapList(f: Galaxy -> Galaxy, gs: seq<Galaxy>): seq<Galaxy>
  {
    seq(|gs|, k requires 0 <= k < |gs| => f(gs[k]))
  }

  lemma MapListAppend(f: Galaxy -> Galaxy, a: seq<Galaxy>, b: seq<Galaxy>)
    ensures MapList(f, a + b) == MapList(f, a) + MapList(f, b)
  {
  }
}

/** Turning the input lines into the universe's table (`Universe::from`). */
module Parsing {
  import opened Galaxies
  import opened Extraction

  /** Why the input lines do not describe a universe. */
  datatype ParseError =
    | EmptyInput                     // there is no first line to take the width from
    | UnknownSymbol(row: nat, col: nat)  // a character other than '.' and '#'
    | RowLengthMismatch(row: nat)    // a line whose length differs from the first line's

  /** The id counter: hands out 0, 1, 2, ... */
  class Incrementer {
    var state: nat

    constructor ()
      ensures state == 0
    {
      state := 0;
    }

    method GetId() returns (id: nat)
      modifies this
      ensures id == old(state) && state == old(state) + 1
    {
      id := state;
      state := state + 1;
    }
  }

  predicate IsSymbol(ch: char)
  {
    ch == '.' || ch == '#'
  }

  /** Number of '#' in a line. */
  function Hashes(line: string): nat
  {
    if line == [] then 0
    else Hashes(line[..|line| - 1]) + (if line[|line| - 1] == '#' then 1 else 0)
  }

  /** Number of '#' in the first `r` lines: the first id handed out in line `r`. */
  function HashesBefore(lines: seq<string>, r: nat): nat
    requires r <= |lines|
  {
    if r == 0 then 0 else HashesBefore(lines, r - 1) + Hashes(lines[r - 1])
  }

  /** Position of the first character that is neither '.' nor '#', or the line's length. */
  function FirstUnknown(line: string): (k: nat)
    ensures k <= |line|
    ensures forall c :: 0 <= c < k ==> IsSymbol(line[c])
    ensures k < |line| ==> !IsSymbol(line[k])
  {
    if line == [] || !IsSymbol(line[0]) then 0 else 1 + FirstUnknown(line[1..])
  }

  /** The cell that character `c` of line `row` becomes, when line `row` starts at id `first`. */
  function Cell(line: string, row: nat, first: nat, c: nat): Option<Galaxy>
    requires c < |line|
  {
    if line[c] == '#' then Some(Galaxy(first + Hashes(line[..c]), Index(row, c))) else None
  }

  function ParsedRow(line: string, row: nat, first: nat): seq<Option<Galaxy>>
  {
    seq(|line|, c requires 0 <= c < |line| => Cell(line, row, first, c))
  }

  /** One line: either an unknown symbol (the first one) or its cells. */
  function ParseLine(line: string, row: nat, first: nat): Result<seq<Option<Galaxy>>, ParseError>
  {
    var k := FirstUnknown(line);
    if k < |line| then Err(UnknownSymbol(row, k)) else Ok(ParsedRow(line, row, first))
  }

  /** The first `n` lines, folded into a table row by row; the first failure wins. */
  function ParseRows(lines: seq<string>, n: nat): (r: Result<Grid, ParseError>)
    requires 0 < |lines| && n <= |lines|
    ensures r.Ok? ==> |r.value| == n
    ensures r.Err? ==> !r.error.EmptyInput? && r.error.row < n
  {
    if n == 0 then Ok([])
    else
      match ParseRows(lines, n - 1)
      case Err(e) => Err(e)
      case Ok(table) =>
        match ParseLine(lines[n - 1], n - 1, HashesBefore(lines, n - 1))
        case Err(e) => Err(e)
        case Ok(cells) =>
          if |cells| != |lines[0]| then Err(RowLengthMismatch(n - 1)) else Ok(table + [cells])
  }

  /** The table the input lines describe, or the first reason they do not describe one. */
  function ParseSpec(lines: seq<string>): (r: Result<Grid, ParseError>)
    ensures r == Err(EmptyInput) <==> |lines| == 0
    ensures r.Ok? ==> |r.value| == |lines|
    ensures r.Err? && !r.error.EmptyInput? ==> r.error.row < |lines|
  {
    if |lines| == 0 then Err(EmptyInput) else ParseRows(lines, |lines|)
  }

  /** Lines a universe can be parsed from: at least one, all over '.' and '#', all as long as the first. */
  predicate WellFormed(lines: seq<string>)
  {
    && |lines| > 0
    && (forall r, c :: 0 <= r < |lines| && 0 <= c < |lines[r]| ==> IsSymbol(lines[r][c]))
    && (forall r :: 0 <= r < |lines| ==> |lines[r]| == |lines[0]|)
  }

  /** `Universe::from`: scans the lines top to bottom and left to right, drawing
      an id from the counter for every '#'. */
  method FromLines(lines: seq<string>) returns (result: Result<Grid, ParseError>)
    ensures result == ParseSpec(lines)
  {
    if |lines| == 0 {
      return Err(EmptyInput);
    }
    var width := |lines[0]|;
    var incrementer := new Incrementer();
    var table: Grid := [];
    for row := 0 to |lines|
      invariant ParseRows(lines, row) == Ok(table)
      invariant incrementer.state == HashesBefore(lines, row)
    {
      var line := lines[row];
      ghost var first := HashesBefore(lines, row);
      var cells: seq<Option<Galaxy>> := [];
      for col := 0 to |line|
        invariant |cells| == col
        invariant forall c :: 0 <= c < col ==> cells[c] == Cell(line, row, first, c)
        invariant forall c :: 0 <= c < col ==> IsSymbol(line[c])
        invariant incrementer.state == first + Hashes(line[..col])
      {
        assert line[..col + 1][..col] == line[..col];
        match line[col]
        case '.' =>
          cells := cells + [None];
        case '#' =>
          var id := incrementer.GetId();
          cells := cells + [Some(Galaxy(id, Index(row, col)))];
        case _ =>
          ParseRowsOk(lines, row);
          ParseUnknownSymbol(lines, row, col);
          return Err(UnknownSymbol(row, col));
      }
      assert line[..|line|] == line;
      assert cells == ParsedRow(line, row, first);
      if |cells| != width {
        ParseRowsOk(lines, row);
        ParseLengthMismatch(lines, row);
        return Err(RowLengthMismatch(row));
      }
      table := table + [cells];
    }
    return Ok(table);
  }

  // ---------------------------------------------------------------------
  // What parsing promises.
  // ---------------------------------------------------------------------

  lemma {:induction false} ParseRowsOk(lines: seq<string>, n: nat)
    requires 0 < |lines| && n <= |lines|
    ensures ParseRows(lines, n).Ok? <==>
      forall r :: 0 <= r < n ==> |lines[r]| == |lines[0]| && FirstUnknown(lines[r]) == |lines[r]|
  {
    if n > 0 {
      ParseRowsOk(lines, n - 1);
    }
  }

  /** Parsing succeeds exactly on well-formed lines, and fails on no lines with `EmptyInput`. */
  lemma ParseSucceedsIff(lines: seq<string>)
    ensures ParseSpec(lines).Ok? <==> WellFormed(lines)
    ensures |lines| == 0 ==> ParseSpec(lines) == Err(EmptyInput)
  {
    if |lines| > 0 {
      ParseRowsOk(lines, |lines|);
      if WellFormed(lines) {
        forall r | 0 <= r < |lines|
          ensures FirstUnknown(lines[r]) == |lines[r]|
        {
        }
      }
    }
  }

  /** An unknown symbol in line `r`, when the lines before it parse, fails with that line and column. */
  lemma {:induction false} ParseUnknownSymbol(lines: seq<string>, r: nat, c: nat)
    requires r < |lines| && c < |lines[r]|
    requires forall r' :: 0 <= r' < r ==> |lines[r']| == |lines[0]| && FirstUnknown(lines[r']) == |lines[r']|
    requires !IsSymbol(lines[r][c]) && forall c' :: 0 <= c' < c ==> IsSymbol(lines[r][c'])
    ensures ParseSpec(lines) == Err(UnknownSymbol(r, c))
  {
    ParseRowsOk(lines, r);
    ParseRowsFailureStays(lines, r + 1, |lines|);
  }

  /** A line over '.' and '#' of the wrong length, when the lines before it parse, fails with that line. */
  lemma {:induction false} ParseLengthMismatch(lines: seq<string>, r: nat)
    requires r < |lines| && |lines[r]| != |lines[0]|
    requires forall r' :: 0 <= r' < r ==> |lines[r']| == |lines[0]| && FirstUnknown(lines[r']) == |lines[r']|
    requires forall c :: 0 <= c < |lines[r]| ==> IsSymbol(lines[r][c])
    ensures ParseSpec(lines) == Err(RowLengthMismatch(r))
  {
    ParseRowsOk(lines, r);
    assert FirstUnknown(lines[r]) == |lines[r]|;
    ParseRowsFailureStays(lines, r + 1, |lines|);
  }

  lemma {:induction false} ParseRowsFailureStays(lines: seq<string>, n: nat, m: nat)
    requires 0 < |lines| && n <= m <= |lines| && ParseRows(lines, n).Err?
    ensures ParseRows(lines, m) == ParseRows(lines, n)
    decreases m - n
  {
    if n < m {
      ParseRowsFailureStays(lines, n, m - 1);
    }
  }

  /** The cells of a successful parse: '#' becomes a galaxy at its own cell, '.' an empty cell. */
  lemma {:induction false} ParseRowsCells(lines: seq<string>, n: nat, table: Grid)
    requires 0 < |lines| && n <= |lines| && ParseRows(lines, n) == Ok(table)
    ensures |table| == n
    ensures forall r :: 0 <= r < n ==> table[r] == ParsedRow(lines[r], r, HashesBefore(lines, r))
    ensures forall r :: 0 <= r < n ==> |table[r]| == |lines[0]|
  {
    if n > 0 {
      var prev :| ParseRows(lines, n - 1) == Ok(prev);
      ParseRowsCells(lines, n - 1, prev);
      var cells := ParsedRow(lines[n - 1], n - 1, HashesBefore(lines, n - 1));
      assert ParseLine(lines[n - 1], n - 1, HashesBefore(lines, n - 1)) == Ok(cells);
      assert |cells| == |lines[n - 1]|;
      assert table == prev + [cells];
    }
  }

  /** Parsing puts a galaxy at (r, c) exactly when character c of line r is '#';
      that galaxy records (r, c); the table is rectangular and consistent. */
  lemma ParseCells(lines: seq<string>, g: Grid)
    requires ParseSpec(lines) == Ok(g)
    ensures |g| == |lines| && Rectangular(g) && Consistent(g)
    ensures forall r, c :: 0 <= r < |g| && 0 <= c < |g[r]| ==>
      |g[r]| == |lines[r]| && (g[r][c].Some? <==> lines[r][c] == '#')
    ensures forall r, c :: 0 <= r < |g| && 0 <= c < |g[r]| && g[r][c].Some? ==> g[r][c].value.index == Index(r, c)
  {
    ParseRowsCells(lines, |lines|, g);
  }

  /** The galaxies of a parsed line carry the ids first, first + 1, ... in column order. */
  lemma {:induction false} ParsedRowIds(line: string, row: nat, first: nat)
    ensures |RowGalaxies(ParsedRow(line, row, first))| == Hashes(line)
    ensures forall k :: 0 <= k < Hashes(line) ==> RowGalaxies(ParsedRow(line, row, first))[k].id == first + k
    decreases |line|
  {
    if line != [] {
      var n := |line| - 1;
      var cells := ParsedRow(line, row, first);
      var init := line[..n];
      ParsedRowIds(init, row, first);
      forall c | 0 <= c < n
        ensures cells[..n][c] == ParsedRow(init, row, first)[c]
      {
        assert init[..c] == line[..c];
      }
      assert cells[..n] == ParsedRow(init, row, first);
      assert line[..n] == init;
    }
  }

  lemma {:induction false} ParseRowsIds(lines: seq<string>, n: nat, table: Grid)
    requires 0 < |lines| && n <= |lines| && ParseRows(lines, n) == Ok(table)
    ensures |LocateGalaxies(table)| == HashesBefore(lines, n)
    ensures forall k :: 0 <= k < |LocateGalaxies(table)| ==> LocateGalaxies(table)[k].id == k
  {
    if n > 0 {
      var prev :| ParseRows(lines, n - 1) == Ok(prev);
      ParseRowsIds(lines, n - 1, prev);
      var first := HashesBefore(lines, n - 1);
      var cells := ParsedRow(lines[n - 1], n - 1, first);
      assert ParseLine(lines[n - 1], n - 1, first) == Ok(cells);
      assert table == prev + [cells];
      ParsedRowIds(lines[n - 1], n - 1, first);
      LocateGalaxiesAppend(prev, [cells]);
      assert LocateGalaxies([cells]) == RowGalaxies(cells);
      assert LocateGalaxies(table) == LocateGalaxies(prev) + RowGalaxies(cells);
      IdsAppend(LocateGalaxies(prev), RowGalaxies(cells));
    }
  }

  /** Numbered lists stay numbered when the second continues where the first stops. */
  lemma IdsAppend(before: seq<Galaxy>, row: seq<Galaxy>)
    requires forall k :: 0 <= k < |before| ==> before[k].id == k
    requires forall k :: 0 <= k < |row| ==> row[k].id == |before| + k
    ensures forall k :: 0 <= k < |before + row| ==> (before + row)[k].id == k
  {
  }

  /** Ids are handed out 0, 1, 2, ... in row-major order: the extracted list of a
      parsed table has the id k at position k, one per '#'. */
  lemma ParseIds(lines: seq<string>, g: Grid)
    requires ParseSpec(lines) == Ok(g)
    ensures |LocateGalaxies(g)| == HashesBefore(lines, |lines|)
    ensures forall k :: 0 <= k < |LocateGalaxies(g)| ==> LocateGalaxies(g)[k].id == k
    ensures UniqueIds(LocateGalaxies(g))
  {
    ParseRowsIds(lines, |lines|, g);
  }
}

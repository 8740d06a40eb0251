# Cosmic expansion: a verified model

This project models the solver for the "cosmic expansion" puzzle (Advent of Code 2023,
day 11). The input is a picture of the sky: `.` is empty space and `#` is a galaxy. The
solver numbers the galaxies in reading order. It then expands the universe: every row and
every column without a galaxy grows. Finally it sums the shortest rectilinear (Manhattan)
distances over all pairs of galaxies.

- Part one doubles each empty line. It does this by rebuilding the two-dimensional table.
- Part two multiplies each empty line by one million. It does this by moving the
  coordinates of the galaxy list.

The model is split into modules:

| file | module | models |
|---|---|---|
| `galaxies.dfy` | `Galaxies` | `Index`, `Galaxy`, the table, the order-insensitive pair and its hash key, `calculate_shortest_path` |
| `parsing.dfy` | `Parsing` | `Incrementer` (a class), `Universe::from` as a method over the lines, with its failure cases |
| `extraction.dfy` | `Extraction` | `locate_galaxies` (row-major flattening) |
| `structural.dfy` | `StructuralExpansion` | `Universe` (a class holding the table) and `expand_from_map` |
| `coordinate.dfy` | `CoordinateExpansion` | `expand_from_galaxies`, an in-place pass over an array of galaxies |
| `paths.dfy` | `ShortestPaths` | `extract_shortest_paths` (the pair hash map) and the sum of its values |
| `parts.dfy` | `Parts` | `part1`, `part2`, and how the two expansion strategies relate |

Each method is proved against a specification function:

- `FromLines` against `ParseSpec`.
- `ExpandFromMap` against `ExpandedMap`.
- `ExpandFromGalaxies` against `Dilated`.
- `ExtractShortestPaths` and `SumValues` against `PairSum` / `MapSum`.

Lemmas then state what those functions mean. For example:

- Parsing succeeds exactly on well-formed input.
- The galaxies are numbered 0, 1, 2, … in reading order.
- Every galaxy's position after an expansion is its old position plus `factor - 1` for
  every empty line between the smallest occupied line and it (for the table expansion:
  every empty line before it).
- Distances grow by `factor - 1` per empty line crossed.
- The two expansion strategies give the same total at factor 2.
- The total is monotone in the factor.

The two expanders do not place galaxies identically, contrary to what one might expect.
`expand_from_map` counts empty lines from row/column 0. `expand_from_galaxies` starts
its cursor at the smallest occupied row/column (`src/main.rs:166-168`), so it skips the
empty lines above and to the left of every galaxy. At factor 2 the structural result is
therefore the coordinate result moved by (smallest occupied row, smallest occupied
column) (`Parts.StructuralMatchesCoordinate`). Pairwise distances, and so the answers,
agree (`Parts.FactorTwoTotalsAgree`). The model follows the code.

## Model

| member | source | states |
|---|---|---|
| Galaxies.MinById | src/main.rs:51-55 | the smaller galaxy by id alone, and the first argument on a tie, as `min` does with the id-only `Ord` |
| Galaxies.MaxById | src/main.rs:51-55 | the larger galaxy by id, and the second argument on a tie, as `max` does |
| Galaxies.PairKey | src/main.rs:6-11 | the hash key of a pair is its two ids in ascending order, whichever order the pair is in |
| Galaxies.PairEq | src/main.rs:19-21 | pairs are equal componentwise or crosswise, and equal pairs have the same hash key, as `Hash` must agree with `Eq` |
| Galaxies.PairSwap | src/main.rs:6-21 | a pair equals its swap and hashes like it |
| Galaxies.PairEqEquivalence | src/main.rs:13-23 | the pair equality is reflexive, symmetric and transitive, as `Eq` requires |
| Galaxies.PairKeyMatchesEq | src/main.rs:5-23 | equal pairs have equal keys; when ids identify galaxies, equal keys mean equal pairs |
| Galaxies.ShortestPath | src/main.rs:206-208 | the distance is zero exactly for the same cell, and at least the row gap and at least the column gap |
| Galaxies.ShortestPathSymmetric | src/main.rs:206-208 | the distance does not depend on argument order |
| Galaxies.ShortestPathTranslate | src/main.rs:206-208 | moving both galaxies by the same offset keeps their distance |
| Galaxies.WithCoord | src/main.rs:173-185 | moving a galaxy along one axis keeps its id and its other coordinate |
| Parsing.Incrementer.constructor | src/main.rs:75-77 | a new counter starts at zero |
| Parsing.Incrementer.GetId | src/main.rs:79-83 | returns the current counter and advances it by one |
| Parsing.FirstUnknown | src/main.rs:137-142 | the position of the first character that is neither `.` nor `#`, or the line length |
| Parsing.ParseRows | src/main.rs:136-148 | folding the first n lines gives a table of n rows, or an error naming one of those rows, never the empty-input error |
| Parsing.ParseSpec | src/main.rs:129-151 | the empty-input error is reported exactly when there are no lines; a table has one row per line; any other error names an existing row |
| Parsing.FromLines | src/main.rs:131-151 | the row-by-row, cell-by-cell parse, with its counter, equals `ParseSpec`, including which error comes first |
| Parsing.ParseSucceedsIff | src/main.rs:131-151 | parsing succeeds exactly when there is a line, every character is `.` or `#`, and every line is as long as the first; no lines is `EmptyInput` |
| Parsing.ParseUnknownSymbol | src/main.rs:137-141 | the first bad character, in reading order, before any length mismatch in its row, is the reported error |
| Parsing.ParseLengthMismatch | src/main.rs:135-146 | a row of good characters but the wrong length, after good rows, is the reported error |
| Parsing.ParseRowsFailureStays | src/main.rs:145-148 | once a row fails, later rows do not change the error |
| Parsing.ParseCells | src/main.rs:136-148 | the table has one row per line and is rectangular; a cell holds a galaxy exactly where the line has `#`; that galaxy records its own row and column |
| Parsing.ParseIds | src/main.rs:133-143 | galaxy k in reading order has id k, one per `#`, so the ids are distinct |
| Extraction.RowGalaxies | src/main.rs:154-156 | a row's galaxies are exactly the galaxies in its cells, no more than its length |
| Extraction.LocateGalaxies | src/main.rs:154-156 | the list holds exactly the galaxies found in some row of the table |
| Extraction.LocateGalaxiesAppend | src/main.rs:154-156 | flattening a table split in two is flattening each part and concatenating |
| Extraction.LocateGalaxiesMap | src/main.rs:154-156 | changing every galaxy of the table in place changes the list the same way, in the same order |
| StructuralExpansion.Plan | src/main.rs:98-117 | the source line behind each output line: the output has one line per occupied line and two per empty one, each from an existing line |
| StructuralExpansion.RowHasGalaxy | src/main.rs:99 | a row is occupied exactly when extracting its galaxies finds one |
| StructuralExpansion.ColHasGalaxy | src/main.rs:111 | a column is occupied only if some row is occupied too |
| StructuralExpansion.PlanBlocks | src/main.rs:98-117 | line v lands at v plus the number of empty lines before it; an empty line fills that position and the next one |
| StructuralExpansion.PlanInverse | src/main.rs:98-117 | an output line that comes from an occupied line is at that line's position plus the number of empty lines before it |
| StructuralExpansion.ExpandedMap | src/main.rs:93-126 | the expanded table has one row per row plan entry and one column per column plan entry, and every galaxy records its new cell |
| StructuralExpansion.Universe.constructor | src/main.rs:87-89 | a universe holds a rectangular table |
| StructuralExpansion.Universe.ExpandFromMap | src/main.rs:93-126 | replaces the table by `ExpandedMap` of the old one and keeps it rectangular |
| StructuralExpansion.DoubleEmptyRows | src/main.rs:95-105 | row i of stage one is the original row `Plan(rows)[i]` |
| StructuralExpansion.DoubleEmptyColumns | src/main.rs:107-117 | cell (i, j) of stage two is stage one's cell in column `Plan(columns)[j]` |
| StructuralExpansion.RelocateAll | src/main.rs:119-123 | every galaxy gets the index of the cell it sits in; empty cells stay empty |
| StructuralExpansion.Relocate | src/main.rs:119-123 | a cell keeps its emptiness; a galaxy keeps its id and takes the given index |
| StructuralExpansion.ExpansionKeepsColumns | src/main.rs:107-110 | doubling rows changes neither the width nor which columns hold a galaxy |
| StructuralExpansion.ExpandedGalaxies | src/main.rs:93-126 | after expansion the galaxy list is the old list, in the same order, each galaxy moved by the number of empty rows above it and empty columns left of it |
| StructuralExpansion.ExpandedIds | src/main.rs:93-126 | expansion keeps the number of galaxies and their ids, position by position |
| CoordinateExpansion.MinCoord | src/main.rs:161-163 | the smallest coordinate on an axis: a lower bound that some galaxy attains |
| CoordinateExpansion.MaxCoord | src/main.rs:162-164 | the largest coordinate on an axis: an upper bound that some galaxy attains |
| CoordinateExpansion.Dilated | src/main.rs:158-191 | the expanded list has the same length and the same ids, position by position |
| CoordinateExpansion.ExpandFromGalaxies | src/main.rs:158-191 | the in-place row pass then column pass over a copy of the list yields `Dilated` |
| CoordinateExpansion.ShiftAxis | src/main.rs:166-176 | after the cursor loop on one axis, each galaxy's coordinate is its image, and its other coordinate is unchanged |
| CoordinateExpansion.CursorIteration | src/main.rs:170-175 | one loop step: the cursor advances by 1 past an occupied line, or by `factor` past an empty one, shifting every galaxy beyond it |
| CoordinateExpansion.ShiftBeyond | src/main.rs:173 | exactly the galaxies strictly beyond the cursor move by the given amount |
| CoordinateExpansion.CursorStep | src/main.rs:168-175 | one step keeps the relation between the cursor, the lines passed and the galaxy positions |
| CoordinateExpansion.CursorStepOccupied | src/main.rs:169-170 | past an occupied line the cursor advances by one and no galaxy's target moves |
| CoordinateExpansion.CursorStepEmpty | src/main.rs:171-174 | past an empty line the cursor advances by `factor` and exactly the galaxies beyond it gain `factor - 1` |
| CoordinateExpansion.CursorSeparates | src/main.rs:170-173 | a galaxy is before, at or beyond the cursor exactly as its original line is before, at or beyond the current line |
| CoordinateExpansion.SameAxis | src/main.rs:177-188 | the row pass does not change column minima, maxima or empty columns, so the column pass sees what the original list has |
| CoordinateExpansion.SameMin | src/main.rs:161-163 | lists with the same coordinates on an axis have the same minimum there |
| CoordinateExpansion.SameMax | src/main.rs:162-164 | lists with the same coordinates on an axis have the same maximum there |
| CoordinateExpansion.DilatedFactorOne | src/main.rs:158-191 | with factor 1 nothing moves |
| CoordinateExpansion.EmptyLinesSplit | src/main.rs:166-176 | empty lines over adjacent ranges add up |
| CoordinateExpansion.ImageDistance | src/main.rs:166-188 | two lines at or after the minimum end up as far apart as before plus `factor - 1` per empty line between them, in the same order |
| CoordinateExpansion.DilatedDistance | src/main.rs:158-208 | after expansion, a pair's distance is the old one plus `factor - 1` per empty row and per empty column between them |
| CoordinateExpansion.DilatedDistanceMonotone | src/main.rs:158-208 | a larger factor never brings two galaxies closer |
| ShortestPaths.KeyInjective | src/main.rs:193-204 | with distinct ids, two visited index pairs have the same key only if they are the same pair |
| ShortestPaths.ExtractShortestPaths | src/main.rs:193-204 | the nested loops build exactly `PathTable` at the last position: every visited pair (i ≤ j, i below the last position) is stored under its key with its distance, no other key is present, and the values sum to the total over all pairs |
| ShortestPaths.PathTableKeys | src/main.rs:197-201 | with distinct ids, a pair's key is in the partial table exactly when the loops have already visited that pair |
| ShortestPaths.PathTableValues | src/main.rs:200 | every visited pair is stored with its own distance; a later insertion never overwrites an earlier pair |
| ShortestPaths.PathTableOnlyVisited | src/main.rs:197-201 | the partial table holds no key but those of visited pairs |
| ShortestPaths.PathTableSum | src/main.rs:197-201 | the values of the partial table add up to the distances of the pairs visited so far |
| ShortestPaths.SumValues | src/main.rs:216 | adding the values in any key order gives `MapSum` |
| ShortestPaths.MapSumRemove | src/main.rs:225 | the sum of a map's values does not depend on which key is taken first |
| ShortestPaths.MapSumInsert | src/main.rs:200 | inserting a fresh key adds its value to the sum |
| ShortestPaths.ExtractedSumIsPairSum | src/main.rs:197-198 | the self-pairs and the skipped last row change nothing: the visited pairs sum to the all-pairs total |
| ShortestPaths.VisitedSumIsPairSum | src/main.rs:197-198 | counting each row from the galaxy itself rather than the next one gives the same sum |
| ShortestPaths.PairSumMonotone | src/main.rs:193-208 | if no pair gets closer, the total does not decrease |
| ShortestPaths.PairSumEqual | src/main.rs:193-208 | lists with the same pairwise distances have the same total |
| Parts.RowOccupancyMatches | src/main.rs:99 | a table row holds a galaxy exactly when a galaxy of the list sits on that row |
| Parts.ColOccupancyMatches | src/main.rs:111 | a table column holds a galaxy exactly when a galaxy of the list sits on that column |
| Parts.ShiftedIsTranslatedImage | src/main.rs:93-191 | a galaxy's position after the table expansion is its factor-2 image under the list expansion, moved by the smallest occupied row and column |
| Parts.StructuralMatchesCoordinate | src/main.rs:93-191 | the table expansion's galaxy list is the factor-2 list expansion, in the same order with the same ids, moved by (smallest occupied row, smallest occupied column) |
| Parts.FactorTwoTotalsAgree | src/main.rs:210-226 | both expansion strategies give the same total at factor 2 |
| Parts.TranslatedSameTotal | src/main.rs:206-208 | moving every galaxy by one offset keeps the total |
| Parts.DilatedTotalMonotone | src/main.rs:158-208 | the total grows with the expansion factor |
| Parts.ParsedUniverseWellFormed | src/main.rs:129-156 | a parsed universe is rectangular, each galaxy records its cell, the ids are distinct, and there is a galaxy exactly when the input has a `#` |
| Parts.Part1 | src/main.rs:210-217 | the answer is the sum of shortest paths over all pairs after doubling every empty row and column |
| Parts.Part2 | src/main.rs:219-226 | the answer is the sum of shortest paths over all pairs after making every empty line a million lines wide |
| Parts.Part2AtLeastPart1 | src/main.rs:210-226 | part two's answer is never below part one's |

## Left out

- StructuralExpansion.ColHasGalaxy: its own contract says only that an occupied column implies an occupied row; which galaxies make a column occupied is stated by `Parts.ColOccupancyMatches`, because that needs the galaxies to record their own cells.
- `main` is not modelled. It reads the input file, splits it into lines and prints the answers.
- The `From<(usize, usize)>` and `Into` conversions of `Index` are not modelled. They are unused repackaging.
- Machine integers are not modelled: `usize` counters, coordinates and sums are unbounded `nat`s. Overflow of `usize` in the sum, or in coordinates at factor one million, is not modelled.
- The `Hasher` is not modelled. The hash map is a `map` keyed by `PairKey`, the two ids in order, which is what `Hash` feeds to the hasher.
- Parts.Part1, Parts.Part2 and ShortestPaths.ExtractShortestPaths require distinct ids. Rust's map tells apart galaxies with equal ids but different cells, and the id-keyed model would merge them. Every parsed universe has distinct ids (`Parts.ParsedUniverseWellFormed`).
- Parts.Part1 also requires a rectangular table whose galaxies record their own cells. `Universe::from` establishes both, and nothing in the source breaks them.
- A universe with no galaxy is excluded: `part1` and `part2` panic on it. `expand_from_galaxies` unwraps the minimum of an empty list, and `extract_shortest_paths` computes `len() - 1`. The methods require at least one galaxy.
- A table with zero rows is not modelled. `lines[0]` panics on empty input; the model reports `EmptyInput` instead. A zero-row table's width has no meaning in a `seq` of rows.
- Panics are modelled as error values. Parsing errors carry a row and column, which the source's panic message does not.
- `lines[0].len()` counts bytes, not characters. A non-ASCII character is reported as an unknown symbol before any length check in its row, so the model compares character counts.
- The ndarray `push_row`/`push_column` machinery is not modelled. Only its effect is: rows and columns are appended, and the row lengths are checked.
- The iteration order of `HashMap::values` is not modelled. `SumValues` takes keys in an arbitrary order, and the result is proved not to depend on it.

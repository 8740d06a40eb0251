/** Value types shared by every stage: cells, galaxies, the table, the
    order-insensitive pair key and the Manhattan distance. */
module Galaxies {

  datatype Option<T> = None | Some(value: T)

  datatype Result<T, E> = Ok(value: T) | Err(error: E)

  /** A cell coordinate of the table. */
  datatype Index = Index(row: nat, col: nat)

  /** A galaxy: an id fixed at parse time and the cell it currently occupies. */
  datatype Galaxy = Galaxy(id: nat, index: Index)

  /** The universe's table, row-major: `Grid[r][c]` is the cell at row r, column c. */
  type Grid = seq<seq<Option<Galaxy>>>

  /** One of the two axes the expanders work along. */
  datatype Axis = Row | Col

  function Coord(x: Galaxy, a: Axis): nat
  {
    match a
    case Row => x.index.row
    case Col => x.index.col
  }

  function Other(a: Axis): Axis
  {
    match a
    case Row => Col
    case Col => Row
  }

  /** `x` moved along axis `a` to coordinate `v`; its id and other coordinate stay. */
  function WithCoord(x: Galaxy, a: Axis, v: nat): (y: Galaxy)
    ensures y.id == x.id
    ensures Coord(y, a) == v && Coord(y, Other(a)) == Coord(x, Other(a))
  {
    match a
    case Row => x.(index := x.index.(row := v))
    case Col => x.(index := x.index.(col := v))
  }

  /** Number of columns of the table (the table has at least one row when it matters). */
  function Width(g: Grid): nat
  {
    if g == [] then 0 else |g[0]|
  }

  /** Every row has the same length: the shape invariant of a two-dimensional array. */
  predicate Rectangular(g: Grid)
  {
    forall r :: 0 <= r < |g| ==> |g[r]| == Width(g)
  }

  /** Every galaxy in the table records the cell it sits in. */
  predicate Consistent(g: Grid)
  {
    forall r, c :: 0 <= r < |g| && 0 <= c < |g[r]| && g[r][c].Some? ==> g[r][c].value.index == Index(r, c)
  }

  /** No two galaxies of the list share an id. */
  predicate UniqueIds(gs: seq<Galaxy>)
  {
    forall i, j :: 0 <= i < j < |gs| ==> gs[i].id != gs[j].id
  }

  // ---------------------------------------------------------------------
  // Ordering of galaxies by id alone, and the order-insensitive pair.
  // ---------------------------------------------------------------------

  /** The smaller of two galaxies by id; on a tie the first argument. */
  function MinById(a: Galaxy, b: Galaxy): (m: Galaxy)
    ensures m == a || m == b
    ensures m.id <= a.id && m.id <= b.id
    ensures a.id == b.id ==> m == a
  {
    if a.id <= b.id then a else b
  }

  /** The larger of two galaxies by id; on a tie the second argument. */
  function MaxById(a: Galaxy, b: Galaxy): (m: Galaxy)
    ensures m == a || m == b
    ensures m.id >= a.id && m.id >= b.id
    ensures a.id == b.id ==> m == b
  {
    if a.id <= b.id then b else a
  }

  /** A pair of galaxies that compares equal to its own swap. */
  datatype UnorderedPair = UnorderedPair(first: Galaxy, second: Galaxy)

  /** Equality of pairs: componentwise, or componentwise after swapping one side. */
  predicate PairEq(p: UnorderedPair, q: UnorderedPair): (eq: bool)
    ensures eq ==> PairKey(p) == PairKey(q)
  {
    (p.first == q.first && p.second == q.second) || (p.first == q.second && p.second == q.first)
  }

  /** What the pair hashes: the ids of its smaller and its larger galaxy. */
  function PairKey(p: UnorderedPair): (k: (nat, nat))
    ensures k.0 <= k.1
    ensures (k.0 == p.first.id && k.1 == p.second.id) || (k.0 == p.second.id && k.1 == p.first.id)
  {
    (MinById(p.first, p.second).id, MaxById(p.first, p.second).id)
  }

  /** The pair and its swap are equal and have the same key. */
  lemma PairSwap(a: Galaxy, b: Galaxy)
    ensures PairEq(UnorderedPair(a, b), UnorderedPair(b, a))
    ensures PairKey(UnorderedPair(a, b)) == PairKey(UnorderedPair(b, a))
  {
  }

  /** Pair equality is an equivalence relation, as `Eq` demands. */
  lemma PairEqEquivalence(p: UnorderedPair, q: UnorderedPair, s: UnorderedPair)
    ensures PairEq(p, p)
    ensures PairEq(p, q) ==> PairEq(q, p)
    ensures PairEq(p, q) && PairEq(q, s) ==> PairEq(p, s)
  {
  }

  /** The hash agrees with equality: equal pairs have equal keys, and when ids
      identify galaxies, equal keys mean equal pairs. */
  lemma PairKeyMatchesEq(p: UnorderedPair, q: UnorderedPair)
    ensures PairEq(p, q) ==> PairKey(p) == PairKey(q)
    ensures PairKey(p) == PairKey(q) && IdsIdentify({p.first, p.second, q.first, q.second}) ==> PairEq(p, q)
  {
  }

  /** Within `s`, a galaxy is determined by its id. */
  predicate IdsIdentify(s: set<Galaxy>)
  {
    forall x, y :: x in s && y in s && x.id == y.id ==> x == y
  }

  // ---------------------------------------------------------------------
  // Distance.
  // ---------------------------------------------------------------------

  function AbsDiff(a: nat, b: nat): nat
  {
    if a <= b then b - a else a - b
  }

  /** Length of a shortest rectilinear path between the cells of two galaxies. */
  function ShortestPath(g1: Galaxy, g2: Galaxy): (d: nat)
    ensures d == 0 <==> g1.index == g2.index
    ensures d >= AbsDiff(g1.index.row, g2.index.row) && d >= AbsDiff(g1.index.col, g2.index.col)
  {
    AbsDiff(g1.index.row, g2.index.row) + AbsDiff(g1.index.col, g2.index.col)
  }

  /** The distance does not depend on the order of its arguments. */
  lemma ShortestPathSymmetric(g1: Galaxy, g2: Galaxy)
    ensures ShortestPath(g1, g2) == ShortestPath(g2, g1)
  {
  }

  /** Moving two galaxies by the same offset keeps their distance. */
  lemma ShortestPathTranslate(g1: Galaxy, g2: Galaxy, h1: Galaxy, h2: Galaxy, dr: nat, dc: nat)
    requires h1.index == Index(g1.index.row + dr, g1.index.col + dc)
    requires h2.index == Index(g2.index.row + dr, g2.index.col + dc)
    ensures ShortestPath(h1, h2) == ShortestPath(g1, g2)
  {
  }
}

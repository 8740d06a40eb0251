/** The table of pairwise shortest paths and the sum of its values. */
module ShortestPaths {
  import opened Galaxies

  /** The hash-map key of the pair made of the i-th and the j-th galaxy. */
  function KeyOf(gs: seq<Galaxy>, i: nat, j: nat): (nat, nat)
    requires i < |gs| && j < |gs|
  {
    PairKey(UnorderedPair(gs[i], gs[j]))
  }

  /** Pair (i', j') is inserted before pair (i, j) by the nested loops, which visit
      every i' below the last position and every j' from i' on. */
  predicate Before(n: nat, i': nat, j': nat, i: nat, j: nat)
  {
    i' <= j' < n && (i' < i || (i' == i && j' < j))
  }

  /** Sum of the distances from the i-th galaxy to the galaxies at positions lo..hi-1. */
  function RowSum(gs: seq<Galaxy>, i: nat, lo: nat, hi: nat): nat
    requires i < |gs| && hi <= |gs|
    decreases hi
  {
    if hi <= lo then 0 else RowSum(gs, i, lo, hi - 1) + ShortestPath(gs[i], gs[hi - 1])
  }

  /** Sum over the first r rows of the pairs (i, j) with i < j: every unordered pair
      of distinct positions once. */
  function PairSumUpTo(gs: seq<Galaxy>, r: nat): nat
    requires r <= |gs|
  {
    if r == 0 then 0 else PairSumUpTo(gs, r - 1) + RowSum(gs, r - 1, r, |gs|)
  }

  /** The sum of the shortest paths between all pairs of galaxies. */
  function PairSum(gs: seq<Galaxy>): nat
  {
    PairSumUpTo(gs, |gs|)
  }

  /** Sum over the first r rows of the pairs (i, j) with i <= j: what the nested
      loops have inserted once they finished row r - 1. */
  function VisitedSum(gs: seq<Galaxy>, r: nat): nat
    requires r <= |gs|
  {
    if r == 0 then 0 else VisitedSum(gs, r - 1) + RowSum(gs, r - 1, r - 1, |gs|)
  }

  /** If no pair of `hs` is closer than the same pair of `gs`, the total of `hs`
      is at least that of `gs`. */
  lemma PairSumMonotone(gs: seq<Galaxy>, hs: seq<Galaxy>)
    requires |gs| == |hs|
    requires forall i, j :: 0 <= i < j < |gs| ==> ShortestPath(gs[i], gs[j]) <= ShortestPath(hs[i], hs[j])
    ensures PairSum(gs) <= PairSum(hs)
  {
    PairSumUpToMonotone(gs, hs, |gs|);
  }

  /** Lists whose pairwise distances agree have the same total. */
  lemma PairSumEqual(gs: seq<Galaxy>, hs: seq<Galaxy>)
    requires |gs| == |hs|
    requires forall i, j :: 0 <= i < j < |gs| ==> ShortestPath(gs[i], gs[j]) == ShortestPath(hs[i], hs[j])
    ensures PairSum(gs) == PairSum(hs)
  {
    PairSumMonotone(gs, hs);
    PairSumMonotone(hs, gs);
  }

  lemma {:induction false} PairSumUpToMonotone(gs: seq<Galaxy>, hs: seq<Galaxy>, r: nat)
    requires |gs| == |hs| && r <= |gs|
    requires forall i, j :: 0 <= i < j < |gs| ==> ShortestPath(gs[i], gs[j]) <= ShortestPath(hs[i], hs[j])
    ensures PairSumUpTo(gs, r) <= PairSumUpTo(hs, r)
  {
    if r > 0 {
      PairSumUpToMonotone(gs, hs, r - 1);
      RowSumMonotone(gs, hs, r - 1, r, |gs|);
    }
  }

  lemma {:induction false} RowSumMonotone(gs: seq<Galaxy>, hs: seq<Galaxy>, i: nat, lo: nat, hi: nat)
    requires |gs| == |hs| && i < lo && i < |gs| && hi <= |gs|
    requires forall i, j :: 0 <= i < j < |gs| ==> ShortestPath(gs[i], gs[j]) <= ShortestPath(hs[i], hs[j])
    ensures RowSum(gs, i, lo, hi) <= RowSum(hs, i, lo, hi)
    decreases hi
  {
    if hi > lo {
      RowSumMonotone(gs, hs, i, lo, hi - 1);
    }
  }

  /** Sum of the values of a map, taking the keys in an arbitrary fixed order. */
  ghost function MapSum(m: map<(nat, nat), nat>): nat
    decreases m.Keys
  {
    if m.Keys == {} then 0
    else
      var k := PickKey(m);
      m[k] + MapSum(m - {k})
  }

  ghost function PickKey(m: map<(nat, nat), nat>): (k: (nat, nat))
    requires m.Keys != {}
    ensures k in m
  {
    var k :| k in m.Keys; k
  }

  /** Taking any one key first gives the same sum. */
  lemma {:induction false} MapSumRemove(m: map<(nat, nat), nat>, k: (nat, nat))
    requires k in m
    ensures MapSum(m) == m[k] + MapSum(m - {k})
    decreases m.Keys
  {
    var p := PickKey(m);
    if p != k {
      MapSumRemove(m - {p}, k);
      MapSumRemove(m - {k}, p);
      assert m - {p} - {k} == m - {k} - {p};
    }
  }

  /** Inserting a fresh key adds its value to the sum. */
  lemma MapSumInsert(m: map<(nat, nat), nat>, k: (nat, nat), v: nat)
    requires k !in m
    ensures MapSum(m[k := v]) == MapSum(m) + v
  {
    MapSumRemove(m[k := v], k);
    assert m[k := v] - {k} == m;
  }

  /** With distinct ids, two visited pairs share a key only when they are the same
      pair of positions. */
  lemma KeyInjective(gs: seq<Galaxy>, i: nat, j: nat, i': nat, j': nat)
    requires UniqueIds(gs)
    requires i <= j < |gs| && i' <= j' < |gs|
    ensures KeyOf(gs, i, j) == KeyOf(gs, i', j') <==> i == i' && j == j'
  {
    if KeyOf(gs, i, j) == KeyOf(gs, i', j') {
      if gs[i].id == gs[i'].id {
        IdIdentifies(gs, i, i');
        IdIdentifies(gs, j, j');
      } else {
        IdIdentifies(gs, i, j');
        IdIdentifies(gs, j, i');
      }
    }
  }

  lemma IdIdentifies(gs: seq<Galaxy>, x: nat, y: nat)
    requires UniqueIds(gs) && x < |gs| && y < |gs|
    ensures gs[x].id == gs[y].id <==> x == y
  {
    if x < y {
      assert gs[x].id != gs[y].id;
    } else if y < x {
      assert gs[y].id != gs[x].id;
    }
  }

  /** The distance to itself adds nothing to a row's sum. */
  lemma {:induction false} RowSumSelf(gs: seq<Galaxy>, i: nat, hi: nat)
    requires i < hi <= |gs|
    ensures RowSum(gs, i, i, hi) == RowSum(gs, i, i + 1, hi)
    decreases hi
  {
    if hi > i + 1 {
      RowSumSelf(gs, i, hi - 1);
    }
  }

  /** Including the self-pairs does not change the total. */
  lemma {:induction false} VisitedSumIsPairSum(gs: seq<Galaxy>, r: nat)
    requires r <= |gs|
    ensures VisitedSum(gs, r) == PairSumUpTo(gs, r)
  {
    if r > 0 {
      VisitedSumIsPairSum(gs, r - 1);
      RowSumSelf(gs, r - 1, |gs|);
    }
  }

  /** Leaving out the last row, as the outer loop does, loses nothing: that row
      holds no pair of distinct positions. */
  lemma ExtractedSumIsPairSum(gs: seq<Galaxy>)
    requires |gs| > 0
    ensures VisitedSum(gs, |gs| - 1) == PairSum(gs)
  {
    VisitedSumIsPairSum(gs, |gs| - 1);
  }

  /** The map once the nested loops have inserted every pair before (i, j). */
  function PathTable(gs: seq<Galaxy>, i: nat, j: nat): map<(nat, nat), nat>
    requires i <= j <= |gs|
    decreases i, j
  {
    if j > i then PathTable(gs, i, j - 1)[KeyOf(gs, i, j - 1) := ShortestPath(gs[i], gs[j - 1])]
    else if i == 0 then map[]
    else PathTable(gs, i - 1, |gs|)
  }

  /** With distinct ids, the key of a pair is in the partial table exactly when the
      loops have already visited that pair. */
  lemma {:induction false} PathTableKeys(gs: seq<Galaxy>, i: nat, j: nat)
    requires UniqueIds(gs) && i <= j <= |gs|
    ensures forall i': nat, j': nat :: i' <= j' < |gs| ==>
      (KeyOf(gs, i', j') in PathTable(gs, i, j) <==> Before(|gs|, i', j', i, j))
    decreases i, j
  {
    if j > i {
      PathTableKeys(gs, i, j - 1);
      forall i': nat, j': nat | i' <= j' < |gs| && KeyOf(gs, i', j') == KeyOf(gs, i, j - 1)
        ensures i' == i && j' == j - 1
      {
        KeyInjective(gs, i, j - 1, i', j');
      }
    } else if i > 0 {
      PathTableKeys(gs, i - 1, |gs|);
    }
  }

  /** Each visited pair is stored with its own distance. */
  lemma {:induction false} PathTableValues(gs: seq<Galaxy>, i: nat, j: nat)
    requires UniqueIds(gs) && i <= j <= |gs|
    ensures forall i': nat, j': nat :: Before(|gs|, i', j', i, j) ==>
      KeyOf(gs, i', j') in PathTable(gs, i, j) && PathTable(gs, i, j)[KeyOf(gs, i', j')] == ShortestPath(gs[i'], gs[j'])
    decreases i, j
  {
    if j > i {
      PathTableValues(gs, i, j - 1);
      var m := PathTable(gs, i, j - 1);
      var key := KeyOf(gs, i, j - 1);
      assert PathTable(gs, i, j) == m[key := ShortestPath(gs[i], gs[j - 1])];
      forall i': nat, j': nat | Before(|gs|, i', j', i, j)
        ensures KeyOf(gs, i', j') in PathTable(gs, i, j)
        ensures PathTable(gs, i, j)[KeyOf(gs, i', j')] == ShortestPath(gs[i'], gs[j'])
      {
        if i' == i && j' == j - 1 {
        } else {
          assert Before(|gs|, i', j', i, j - 1);
          KeyInjective(gs, i, j - 1, i', j');
        }
      }
    } else if i > 0 {
      PathTableValues(gs, i - 1, |gs|);
      assert PathTable(gs, i, j) == PathTable(gs, i - 1, |gs|);
    }
  }

  /** The partial table holds no key but those of visited pairs. */
  lemma {:induction false} PathTableOnlyVisited(gs: seq<Galaxy>, i: nat, j: nat)
    requires i <= j <= |gs|
    ensures forall k :: k in PathTable(gs, i, j) ==>
      exists i': nat, j': nat :: Before(|gs|, i', j', i, j) && k == KeyOf(gs, i', j')
    decreases i, j
  {
    if j > i {
      PathTableOnlyVisited(gs, i, j - 1);
      assert PathTable(gs, i, j) == PathTable(gs, i, j - 1)[KeyOf(gs, i, j - 1) := ShortestPath(gs[i], gs[j - 1])];
      forall k | k in PathTable(gs, i, j)
        ensures exists i': nat, j': nat :: Before(|gs|, i', j', i, j) && k == KeyOf(gs, i', j')
      {
        if k == KeyOf(gs, i, j - 1) {
          assert Before(|gs|, i, j - 1, i, j);
        } else {
          var i': nat, j': nat :| Before(|gs|, i', j', i, j - 1) && k == KeyOf(gs, i', j');
          assert Before(|gs|, i', j', i, j);
        }
      }
    } else if i > 0 {
      PathTableOnlyVisited(gs, i - 1, |gs|);
      assert PathTable(gs, i, j) == PathTable(gs, i - 1, |gs|);
      forall k | k in PathTable(gs, i, j)
        ensures exists i': nat, j': nat :: Before(|gs|, i', j', i, j) && k == KeyOf(gs, i', j')
      {
        var i': nat, j': nat :| Before(|gs|, i', j', i - 1, |gs|) && k == KeyOf(gs, i', j');
        assert Before(|gs|, i', j', i, j);
      }
    }
  }

  /** The values of the partial table add up to the distances of the pairs
      visited so far. */
  lemma {:induction false} PathTableSum(gs: seq<Galaxy>, i: nat, j: nat)
    requires UniqueIds(gs) && i <= j <= |gs| && i < |gs|
    ensures MapSum(PathTable(gs, i, j)) == VisitedSum(gs, i) + RowSum(gs, i, i, j)
    decreases i, j
  {
    if j > i {
      var m := PathTable(gs, i, j - 1);
      PathTableSum(gs, i, j - 1);
      PathTableKeys(gs, i, j - 1);
      MapSumInsert(m, KeyOf(gs, i, j - 1), ShortestPath(gs[i], gs[j - 1]));
    } else if i > 0 {
      PathTableSum(gs, i - 1, |gs|);
    }
  }

  /**
   * Builds the map from every pair of galaxies to its shortest path. The outer
   * loop runs over all positions but the last, the inner one from the outer
   * position to the end, so self-pairs (of distance 0) are inserted too, except
   * for the last galaxy. The list must not be empty.
   */
  method ExtractShortestPaths(gs: seq<Galaxy>) returns (m: map<(nat, nat), nat>)
    requires |gs| > 0 && UniqueIds(gs)
    ensures m == PathTable(gs, |gs| - 1, |gs| - 1)
    ensures forall i: nat, j: nat :: Before(|gs|, i, j, |gs| - 1, |gs| - 1) ==>
      KeyOf(gs, i, j) in m && m[KeyOf(gs, i, j)] == ShortestPath(gs[i], gs[j])
    ensures forall k :: k in m ==> exists i: nat, j: nat :: Before(|gs|, i, j, |gs| - 1, |gs| - 1) && k == KeyOf(gs, i, j)
    ensures MapSum(m) == PairSum(gs)
  {
    m := map[];
    var n := |gs|;
    for i := 0 to n - 1
      invariant m == PathTable(gs, i, i)
    {
      for j := i to n
        invariant m == PathTable(gs, i, j)
      {
        var shortestPath := ShortestPath(gs[i], gs[j]);
        m := m[KeyOf(gs, i, j) := shortestPath];
      }
    }
    PathTableValues(gs, n - 1, n - 1);
    PathTableOnlyVisited(gs, n - 1, n - 1);
    PathTableSum(gs, n - 1, n - 1);
    ExtractedSumIsPairSum(gs);
  }

  /** Adds up the values of the map, visiting its keys in an arbitrary order. */
  method SumValues(m: map<(nat, nat), nat>) returns (total: nat)
    ensures total == MapSum(m)
  {
    total := 0;
    var rest := m;
    while rest.Keys != {}
      invariant total + MapSum(rest) == MapSum(m)
      decreases rest.Keys
    {
      var k :| k in rest;
      MapSumRemove(rest, k);
      total := total + rest[k];
      rest := rest - {k};
    }
  }
}

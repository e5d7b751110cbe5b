/**
  Path resolution on a snapshot of the grid (src/tachyon.rs
  `calculate_possible_paths_here` and `get_total_possible_paths`): a node
  adds the path counts of its parents to its own and forgets its parents.
  Visiting the nodes in row-major order, every parent is visited before its
  children, so each node ends with its `Resolved` count.
 */
module Resolution {
  import opened Grid
  import opened Nodes
  import opened Round

  /** Every parent a node lists is itself a node, in a row above it. */
  ghost predicate Grounded(m: NodeMap) {
    forall q, p :: q in m && p in m[q].parents ==> p in m && p.0 < q.0
  }

  /** The count `q` holds once resolved: its own count plus the resolved
      counts of its parents. */
  ghost function Resolved(m: NodeMap, q: Coord): nat
    requires Grounded(m) && q in m
    decreases q.0, 1
  {
    m[q].pathsToGetHere + SumResolved(m, m[q].parents, q.0)
  }

  /** The resolved counts of the nodes `ps`, all in rows above `bound`, added up. */
  ghost function SumResolved(m: NodeMap, ps: seq<Coord>, bound: nat): nat
    requires Grounded(m) && forall p :: p in ps ==> p in m && p.0 < bound
    decreases bound, 0, |ps|
  {
    if ps == [] then 0
    else SumResolved(m, ps[..|ps| - 1], bound) + Resolved(m, ps[|ps| - 1])
  }

  /** The node at `q` once resolved: it holds its resolved count and no parents. */
  ghost function Settled(m: NodeMap, q: Coord): (n: Node)
    requires Grounded(m) && q in m
    ensures n.coord == m[q].coord && n.state == m[q].state && n.parents == []
    ensures n.pathsToGetHere == Resolved(m, q)
  {
    m[q].(pathsToGetHere := Resolved(m, q), parents := [])
  }

  /** Every node resolved. */
  ghost function Resolve(m: NodeMap): (r: NodeMap)
    requires Grounded(m)
    ensures r.Keys == m.Keys && Grounded(r)
    ensures forall q :: q in r ==> r[q] == Settled(m, q)
  {
    map q | q in m :: Settled(m, q)
  }

  /** The current path counts of the nodes `ps`, added up. */
  function ParentSum(m: NodeMap, ps: seq<Coord>): nat
    requires forall p :: p in ps ==> p in m
  {
    if ps == [] then 0 else ParentSum(m, ps[..|ps| - 1]) + m[ps[|ps| - 1]].pathsToGetHere
  }

  /** The resolved counts of the nodes of row `row` in its first `n` columns,
      added up. */
  ghost function CollectorSum(m: NodeMap, row: nat, n: nat): nat
    requires Grounded(m) && forall c: nat :: c < n ==> (row, c) in m
  {
    if n == 0 then 0 else CollectorSum(m, row, n - 1) + Resolved(m, (row, n - 1))
  }

  /** The current counts of the nodes of row `row` in its first `n` columns,
      added up; a cell without a node counts nothing. */
  ghost function RowCount(m: NodeMap, row: nat, n: nat): nat {
    if n == 0 then 0
    else RowCount(m, row, n - 1) + (if (row, n - 1) in m then m[(row, n - 1)].pathsToGetHere else 0)
  }

  /** Once resolved, the current counts of a row of nodes are their resolved
      counts. */
  lemma {:induction false} RowCountResolved(m: NodeMap, row: nat, n: nat)
    requires Grounded(m) && forall c: nat :: c < n ==> (row, c) in m
    ensures RowCount(Resolve(m), row, n) == CollectorSum(m, row, n)
  {
    if n > 0 {
      RowCountResolved(m, row, n - 1);
    }
  }

  /** Every cell of the collector row holds a node. */
  lemma CollectorCells(lines: seq<seq<char>>, m: NodeMap)
    requires Shaped(lines, m)
    ensures forall c: nat :: c < Width(lines) ==> (|lines|, c) in m
  {
  }

  /** `m` is `m0` with exactly the nodes before (row, col) in row-major order
      resolved. */
  ghost predicate ResolvedUpTo(m0: NodeMap, m: NodeMap, row: nat, col: nat) {
    && Grounded(m0) && m.Keys == m0.Keys
    && forall q :: q in m0 ==> m[q] == (if Before(q, row, col) then Settled(m0, q) else m0[q])
  }

  /** Once the parents of `ps` are resolved, their current counts add up to
      their resolved counts. */
  lemma {:induction false} SettledParentSum(m0: NodeMap, m: NodeMap, ps: seq<Coord>, bound: nat)
    requires Grounded(m0) && forall p :: p in ps ==> p in m0 && p.0 < bound
    requires forall p :: p in ps ==> p in m && m[p].pathsToGetHere == Resolved(m0, p)
    ensures ParentSum(m, ps) == SumResolved(m0, ps, bound)
    decreases |ps|
  {
    if ps != [] {
      var init := ps[..|ps| - 1];
      assert forall p :: p in init ==> p in ps;
      SettledParentSum(m0, m, init, bound);
    }
  }

  /** Resolving the node at (row, col) the way `calculate_possible_paths_here`
      does, with every node before it already resolved, gives its resolved
      count; a cell without a node is skipped. */
  lemma SettleStep(m0: NodeMap, m: NodeMap, row: nat, col: nat)
    requires ResolvedUpTo(m0, m, row, col)
    ensures (row, col) in m0 ==>
      && m[(row, col)] == m0[(row, col)]
      && (forall p :: p in m[(row, col)].parents ==> p in m)
      && ResolvedUpTo(m0, m[(row, col) := m[(row, col)].(
           pathsToGetHere := m[(row, col)].pathsToGetHere + ParentSum(m, m[(row, col)].parents),
           parents := [])], row, col + 1)
    ensures (row, col) !in m0 ==> ResolvedUpTo(m0, m, row, col + 1)
  {
    var q := (row, col);
    if q in m0 {
      var ps := m0[q].parents;
      forall p | p in ps ensures p in m && m[p].pathsToGetHere == Resolved(m0, p) {
        assert Before(p, row, col);
      }
      SettledParentSum(m0, m, ps, q.0);
    }
  }

  /** Past the last column of a row is the start of the next. */
  lemma NextRow(m0: NodeMap, m: NodeMap, row: nat, cols: nat)
    requires ResolvedUpTo(m0, m, row, cols)
    requires forall q :: q in m0 ==> q.1 < cols
    ensures ResolvedUpTo(m0, m, row + 1, 0)
  {
    forall q | q in m0 ensures Before(q, row, cols) == Before(q, row + 1, 0) {
    }
  }

  /** Past the last row, every node is resolved. */
  lemma AllResolved(m0: NodeMap, m: NodeMap, rows: nat)
    requires ResolvedUpTo(m0, m, rows, 0)
    requires forall q :: q in m0 ==> q.0 < rows
    ensures m == Resolve(m0)
  {
  }

  /** Resolving again changes nothing: a resolved node has no parents left,
      so it keeps the count it holds. */
  lemma ResolveAgain(m: NodeMap, q: Coord)
    requires Grounded(m) && q in m
    ensures Resolved(Resolve(m), q) == Resolved(m, q)
    ensures Settled(Resolve(m), q) == Settled(m, q)
  {
    assert Resolve(m)[q].parents == [];
  }

  /** Resolving a resolved snapshot leaves it as it is. */
  lemma ResolveIdempotent(m: NodeMap)
    requires Grounded(m)
    ensures Resolve(Resolve(m)) == Resolve(m)
  {
    forall q | q in m ensures Resolve(Resolve(m))[q] == Resolve(m)[q] {
      ResolveAgain(m, q);
    }
  }

  /** So a second resolution finds the same collector total. */
  lemma {:induction false} CollectorSumAgain(m: NodeMap, row: nat, n: nat)
    requires Grounded(m) && forall c: nat :: c < n ==> (row, c) in m
    ensures CollectorSum(Resolve(m), row, n) == CollectorSum(m, row, n)
  {
    if n > 0 {
      CollectorSumAgain(m, row, n - 1);
      ResolveAgain(m, (row, n - 1));
    }
  }

  /** Resolution changes counts and parent lists only, so it keeps the
      snapshot's shape. */
  lemma ResolveKeepsShape(lines: seq<seq<char>>, m: NodeMap, q: Coord, n: Node)
    requires Shaped(lines, m) && q in m && n.state == m[q].state && n.coord == m[q].coord
    ensures Shaped(lines, m[q := n])
  {
  }
}

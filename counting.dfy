/**
  What the path counts of a finished round mean: once every splitter the
  round reaches has been split, resolving the recorded parents gives every
  splitter and collector the number of routes from the source that reach
  it (`Routes.Arrivals`), and the collector row adds up to the number of
  routes out of the grid (`Routes.ExitRoutes`).
 */
module Counting {
  import opened Grid
  import opened Nodes
  import opened Propagation
  import opened Routes
  import opened Round
  import opened Totals
  import opened Resolution

  /** The cells that can feed `q`: the cells left and right of its column in
      the rows above row `k`, row by row, in the order `Routes.Inflow` adds
      them up. */
  function Upstream(q: Coord, k: nat): seq<Coord>
  {
    if k == 0 then []
    else Upstream(q, k - 1) + (if q.1 > 0 then [(k - 1, q.1 - 1)] else []) + [(k - 1, q.1 + 1)]
  }

  /** The cells listed are exactly those in a row above `k` next to the
      column of `q`. */
  lemma {:induction false} UpstreamHolds(q: Coord, k: nat, p: Coord)
    ensures p in Upstream(q, k) <==> p.0 < k && (p.1 + 1 == q.1 || p.1 == q.1 + 1)
  {
    if k > 0 {
      UpstreamHolds(q, k - 1, p);
    }
  }

  /** No cell is listed twice: each row adds cells of its own. */
  lemma {:induction false} UpstreamDistinct(q: Coord, k: nat)
    ensures Distinct(Upstream(q, k))
  {
    if k > 0 {
      UpstreamDistinct(q, k - 1);
      var above := Upstream(q, k - 1);
      var ps := Upstream(q, k);
      forall i, j | 0 <= i < j < |ps| ensures ps[i] != ps[j] {
        if j >= |above| {
          assert ps[j].0 == k - 1;
          if i < |above| {
            assert ps[i] in above;
            UpstreamHolds(q, k - 1, ps[i]);
          }
        }
      }
    }
  }

  /** The routes into `q` through the cell `p`: those of `p`, when `p` is a
      splitter whose split lands on `q`. */
  ghost function Into(lines: seq<seq<char>>, s: Coord, q: Coord): Coord -> nat {
    p => if s.0 < |lines| && IsSplitter(lines, p) && Fires(lines, p, q) then Arrivals(lines, s, p) else 0
  }

  /** The one path the source beam itself brings to `q`, counted at the
      source when it has been recorded as a parent. */
  ghost function FromSource(lines: seq<seq<char>>, s: Coord, q: Coord): Coord -> nat {
    p => if s.0 < |lines| && p == s && s.0 != 0 && q == SourceTarget(lines, s) then 1 else 0
  }

  /** The resolved count of each node. */
  ghost function ResolvedOf(m: NodeMap): Coord -> nat {
    p => if Grounded(m) && p in m then Resolved(m, p) else 0
  }

  /** The routes through one cell above `q` are what `Routes.Through` counts. */
  lemma IntoThrough(lines: seq<seq<char>>, s: Coord, q: Coord, k: nat, c: nat)
    requires s.0 < |lines| && k < q.0
    ensures Into(lines, s, q)((k, c)) == Through(lines, s, q, k, c)
  {
  }

  /** Row `k - 1` adds the cells on either side of the column of `q` to the
      sum over the cells that can feed it. */
  lemma UpstreamStep(q: Coord, k: nat, f: Coord -> nat)
    requires k > 0
    ensures Total(Upstream(q, k), f)
      == Total(Upstream(q, k - 1), f) + (if q.1 > 0 then f((k - 1, q.1 - 1)) else 0) + f((k - 1, q.1 + 1))
  {
    var left: seq<Coord> := if q.1 > 0 then [(k - 1, q.1 - 1)] else [];
    var right := [(k - 1, q.1 + 1)];
    assert Upstream(q, k) == Upstream(q, k - 1) + (left + right);
    TotalAppend(Upstream(q, k - 1), left + right, f);
    TotalAppend(left, right, f);
    TotalOne((k - 1, q.1 + 1), f);
    if q.1 > 0 {
      TotalOne((k - 1, q.1 - 1), f);
    }
  }

  /** `Routes.Inflow` adds up the routes through the cells that can feed `q`. */
  lemma {:induction false} InflowTotal(lines: seq<seq<char>>, s: Coord, q: Coord, k: nat)
    requires s.0 < |lines| && k <= q.0
    ensures Inflow(lines, s, q, k) == Total(Upstream(q, k), Into(lines, s, q))
  {
    if k > 0 {
      InflowTotal(lines, s, q, k - 1);
      UpstreamStep(q, k, Into(lines, s, q));
      IntoThrough(lines, s, q, k - 1, q.1 + 1);
      if q.1 > 0 {
        IntoThrough(lines, s, q, k - 1, q.1 - 1);
      }
    }
  }

  /** The resolved counts of a list of nodes are their sum. */
  lemma {:induction false} SumResolvedTotal(m: NodeMap, ps: seq<Coord>, bound: nat)
    requires Grounded(m) && forall p :: p in ps ==> p in m && p.0 < bound
    ensures SumResolved(m, ps, bound) == Total(ps, ResolvedOf(m))
  {
    if ps != [] {
      var init := ps[..|ps| - 1];
      assert forall p :: p in init ==> p in ps;
      SumResolvedTotal(m, init, bound);
    }
  }

  /** A recorded dependency graph is grounded: every parent is a split
      splitter or the source, above the node it lands on. */
  lemma WiredGrounded(lines: seq<seq<char>>, s: Coord, m: NodeMap, log: seq<Coord>, fired: bool)
    requires IsSource(lines, s) && Shaped(lines, m) && Wired(lines, s, m, log, fired)
    requires forall i :: 0 <= i < |log| ==> IsSplitter(lines, log[i])
    ensures Grounded(m)
  {
    forall q, p | q in m && p in m[q].parents ensures p in m && p.0 < q.0 {
      assert Feeds(lines, s, log, fired, p, q);
      if p in log {
        assert IsSplitter(lines, p);
      }
    }
  }

  /** After a round the source holds one path and no parent: no reached
      splitter lies above it. */
  lemma SourceResolved(lines: seq<seq<char>>, s: Coord, m: NodeMap, log: seq<Coord>)
    requires IsSource(lines, s) && Shaped(lines, m) && Grounded(m) && Wired(lines, s, m, log, true)
    requires (set p | p in log) == Reach(lines, s)
    ensures s in m && Resolved(m, s) == 1
  {
    ReachBelowSource(lines, s);
    assert forall p :: p in m[s].parents ==> Feeds(lines, s, log, true, p, s);
    HeadListed(m[s].parents);
  }

  /** A non-empty list holds its first entry. */
  lemma HeadListed(xs: seq<Coord>)
    ensures xs == [] || xs[0] in xs
  {
  }

  /** After a round, the source is a parent of `q` exactly when it lies below
      row 0 and its beam first stops at `q`; so the source's share of the
      parents' sum is that one path. */
  lemma ParentsFromSource(lines: seq<seq<char>>, s: Coord, m: NodeMap, log: seq<Coord>, q: Coord)
    requires IsLastSource(lines, s) && Shaped(lines, m) && Wired(lines, s, m, log, true)
    requires q in m
    ensures Total(m[q].parents, FromSource(lines, s, q)) == if s.0 != 0 && q == SourceTarget(lines, s) then 1 else 0
  {
    var ps := m[q].parents;
    TotalSingle(ps, FromSource(lines, s, q), s);
    assert s in ps <==> Feeds(lines, s, log, true, s, q);
  }

  /** After a round, the split splitters among the parents of `q` carry all
      the routes into `q` through splitters. */
  lemma ParentsFromSplitters(lines: seq<seq<char>>, s: Coord, m: NodeMap, log: seq<Coord>, q: Coord)
    requires IsLastSource(lines, s) && Shaped(lines, m) && Wired(lines, s, m, log, true)
    requires (set p | p in log) == Reach(lines, s)
    requires q in m
    ensures Total(m[q].parents, Into(lines, s, q)) == Inflow(lines, s, q, q.0)
  {
    var ps, f := m[q].parents, Into(lines, s, q);
    forall p | f(p) != 0 ensures p in ps <==> p in Upstream(q, q.0) {
      UpstreamHolds(q, q.0, p);
      RoutedSplitterReached(lines, s, p);
      assert Feeds(lines, s, log, true, p, q);
    }
    UpstreamDistinct(q, q.0);
    TotalSame(ps, Upstream(q, q.0), f);
    InflowTotal(lines, s, q, q.0);
  }

  /** After a round, each parent of `q` contributes its resolved count: the
      routes through it when it is a split splitter (given for the splitters
      above `q`), the one path of the source when it is the source. */
  lemma ParentsShare(lines: seq<seq<char>>, s: Coord, m: NodeMap, log: seq<Coord>, q: Coord)
    requires IsLastSource(lines, s) && Shaped(lines, m) && Grounded(m) && Wired(lines, s, m, log, true)
    requires (set p | p in log) == Reach(lines, s)
    requires q in m
    requires forall p :: p in m && IsSplitter(lines, p) && p.0 < q.0 ==> Resolved(m, p) == Arrivals(lines, s, p)
    ensures Total(m[q].parents, ResolvedOf(m))
      == Total(m[q].parents, Into(lines, s, q)) + Total(m[q].parents, FromSource(lines, s, q))
  {
    var ps := m[q].parents;
    var f, g, h := Into(lines, s, q), FromSource(lines, s, q), ResolvedOf(m);
    forall p | p in ps ensures h(p) == f(p) + g(p) {
      ParentShare(lines, s, m, log, q, p);
    }
    TotalSplit(ps, f, g, h);
  }

  /** What one parent of `q` contributes, as in `ParentsShare`. */
  lemma ParentShare(lines: seq<seq<char>>, s: Coord, m: NodeMap, log: seq<Coord>, q: Coord, p: Coord)
    requires IsLastSource(lines, s) && Shaped(lines, m) && Grounded(m) && Wired(lines, s, m, log, true)
    requires (set p | p in log) == Reach(lines, s)
    requires q in m && p in m[q].parents
    requires forall p :: p in m && IsSplitter(lines, p) && p.0 < q.0 ==> Resolved(m, p) == Arrivals(lines, s, p)
    ensures ResolvedOf(m)(p) == Into(lines, s, q)(p) + FromSource(lines, s, q)(p)
  {
    assert Feeds(lines, s, log, true, p, q);
    if p == s {
      SourceResolved(lines, s, m, log);
    } else {
      assert p in Reach(lines, s);
    }
  }

  /** After a round, resolving gives every splitter and collector the number
      of routes from the source that reach it. */
  lemma {:induction false} ResolvedArrivals(lines: seq<seq<char>>, s: Coord, m: NodeMap, log: seq<Coord>, q: Coord)
    requires IsLastSource(lines, s) && Shaped(lines, m) && Grounded(m) && Wired(lines, s, m, log, true)
    requires (set p | p in log) == Reach(lines, s)
    requires q in m && !IsSource(lines, q)
    ensures Resolved(m, q) == Arrivals(lines, s, q)
    decreases q.0
  {
    forall p | p in m && IsSplitter(lines, p) && p.0 < q.0 ensures Resolved(m, p) == Arrivals(lines, s, p) {
      ResolvedArrivals(lines, s, m, log, p);
    }
    ParentsShare(lines, s, m, log, q);
    SumResolvedTotal(m, m[q].parents, q.0);
    ParentsFromSource(lines, s, m, log, q);
    ParentsFromSplitters(lines, s, m, log, q);
  }

  /** After a round, the resolved collector row adds up to the number of
      routes out of the grid. */
  lemma {:induction false} CollectorsCountExits(lines: seq<seq<char>>, s: Coord, m: NodeMap, log: seq<Coord>, n: nat)
    requires IsLastSource(lines, s) && Shaped(lines, m) && Grounded(m) && Wired(lines, s, m, log, true)
    requires (set p | p in log) == Reach(lines, s)
    requires n <= Width(lines)
    ensures forall c: nat :: c < n ==> (|lines|, c) in m
    ensures CollectorSum(m, |lines|, n) == ExitRoutes(lines, s, n)
  {
    if n > 0 {
      CollectorsCountExits(lines, s, m, log, n - 1);
      ResolvedArrivals(lines, s, m, log, (|lines|, n - 1));
    }
  }
}

/**
  How many distinct routes a beam from the source can take to each node,
  stated on the input alone.  A route starts at the source, goes down its
  column to the first node, and at every splitter it stops at continues down
  one of the two neighbour columns; it ends at the first node that is not a
  splitter (another source marker or a collector of the exit row).
 */
module Routes {
  import opened Grid
  import opened Propagation

  /** Number of distinct routes from the source `s` that end at node `q`: one
      if `q` is where the source beam first stops, plus the routes through
      every splitter whose split lands on `q`. */
  ghost function Arrivals(lines: seq<seq<char>>, s: Coord, q: Coord): nat
    requires s.0 < |lines|
    decreases q.0, 1
  {
    (if q == SourceTarget(lines, s) then 1 else 0) + Inflow(lines, s, q, q.0)
  }

  /** The routes into `q` through a splitter at (k, c), or none when there is
      no splitter there or its split in the direction of `q` stops elsewhere. */
  ghost function Through(lines: seq<seq<char>>, s: Coord, q: Coord, k: nat, c: nat): nat
    requires s.0 < |lines| && k < q.0
    decreases q.0, 0, k, 1
  {
    if IsSplitter(lines, (k, c)) && Fires(lines, (k, c), q) then Arrivals(lines, s, (k, c)) else 0
  }

  /** The routes into `q` through splitters in the rows above row `k`. */
  ghost function Inflow(lines: seq<seq<char>>, s: Coord, q: Coord, k: nat): nat
    requires s.0 < |lines| && k <= q.0
    decreases q.0, 0, k, 0
  {
    if k == 0 then 0
    else
      Inflow(lines, s, q, k - 1)
      + (if q.1 > 0 then Through(lines, s, q, k - 1, q.1 - 1) else 0)
      + Through(lines, s, q, k - 1, q.1 + 1)
  }

  /** The routes that leave the grid through the first `n` columns of the exit row. */
  ghost function ExitRoutes(lines: seq<seq<char>>, s: Coord, n: nat): nat
    requires s.0 < |lines|
  {
    if n == 0 then 0 else ExitRoutes(lines, s, n - 1) + Arrivals(lines, s, (|lines|, n - 1))
  }

  /** Routes into `q` through rows above `k` exist only if a splitter that
      lands on `q` has a route of its own. */
  lemma {:induction false} InflowWitness(lines: seq<seq<char>>, s: Coord, q: Coord, k: nat)
    requires s.0 < |lines| && k <= q.0
    requires Inflow(lines, s, q, k) > 0
    ensures exists p: Coord :: p.0 < k && IsSplitter(lines, p) && Fires(lines, p, q) && Arrivals(lines, s, p) > 0
  {
    if Through(lines, s, q, k - 1, q.1 + 1) > 0 {
      var p := (k - 1, q.1 + 1);
      assert p.0 < k && IsSplitter(lines, p) && Fires(lines, p, q) && Arrivals(lines, s, p) > 0;
    } else if q.1 > 0 && Through(lines, s, q, k - 1, q.1 - 1) > 0 {
      var p := (k - 1, q.1 - 1);
      assert p.0 < k && IsSplitter(lines, p) && Fires(lines, p, q) && Arrivals(lines, s, p) > 0;
    } else {
      InflowWitness(lines, s, q, k - 1);
    }
  }

  /** A splitter that some route reaches is one that propagation reaches. */
  lemma {:induction false} RoutedSplitterReached(lines: seq<seq<char>>, s: Coord, q: Coord)
    requires s.0 < |lines|
    requires IsSplitter(lines, q) && Arrivals(lines, s, q) > 0
    ensures q in Reach(lines, s)
    decreases q.0
  {
    if q != SourceTarget(lines, s) {
      InflowWitness(lines, s, q, q.0);
      var p: Coord :| p.0 < q.0 && IsSplitter(lines, p) && Fires(lines, p, q) && Arrivals(lines, s, p) > 0;
      RoutedSplitterReached(lines, s, p);
    }
  }

  /** A splitter that propagation never reaches has no route to it. */
  lemma UnreachedSplitterHasNoRoute(lines: seq<seq<char>>, s: Coord, q: Coord)
    requires s.0 < |lines|
    requires IsSplitter(lines, q) && q !in Reach(lines, s)
    ensures Arrivals(lines, s, q) == 0
  {
    if Arrivals(lines, s, q) > 0 {
      RoutedSplitterReached(lines, s, q);
    }
  }
}

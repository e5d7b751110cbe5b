/**
  The puzzle drivers of src/lib.rs: each builds an engine from the input,
  runs one round of propagation and reads off the answers.  Part one is the
  number of splits, which is the number of splitters propagation from the
  source reaches; part two is the number of distinct routes a beam can take
  from the source out of the bottom of the grid.
 */
module Solver {
  import opened Grid
  import opened Nodes
  import opened Propagation
  import opened Routes
  import opened Round
  import opened Resolution
  import opened Counting
  import opened Engine

  /** What the drivers demand of the input: at least one row, no row shorter
      than the first, an `S`, and no reached splitter on the grid's left or
      right edge (the engine panics otherwise). */
  ghost predicate Solvable(input: seq<seq<char>>) {
    && WellFormed(input)
    && (exists q :: IsSource(input, q))
    && EdgeSafe(input, LastSource(input).value)
  }

  /** A fresh engine with one round run on it. */
  method Propagated(input: seq<seq<char>>) returns (t: Tachyon)
    requires Solvable(input)
    ensures fresh(t) && fresh(t.grid) && t.Valid() && t.fired
    ensures t.lines == input && t.start == LastSource(input).value
    ensures t.splits == |Reach(input, t.start)|
    ensures (set q | q in t.splitLog) == Reach(input, t.start)
    ensures Grounded(t.nodes) && t.WiringHolds()
    ensures CountTrue(t.colsOut[..]) == 0
  {
    t := new Tachyon(input);
    LastSourceUnique(input, t.start, LastSource(input).value);
    t.ExecuteRound();
    forall i | 0 <= i < |t.splitLog| ensures IsSplitter(input, t.splitLog[i]) {
      assert t.splitLog[i] in Reach(input, t.start);
    }
    WiredGrounded(input, t.start, t.nodes, t.splitLog, true);
    CountTrueZero(t.colsOut[..]);
  }

  /** Part one (src/lib.rs `solve_pt1`): the number of splits of one round,
      which is the number of splitters reached from the source. */
  method SolvePt1(input: seq<seq<char>>) returns (splits: nat)
    requires Solvable(input)
    ensures splits == |Reach(input, LastSource(input).value)|
    ensures splits <= |Splitters(input)|
  {
    var t := Propagated(input);
    splits := t.splits;
    ReachBound(input, t.start);
  }

  /** Part two (src/lib.rs `solve_pt2`): after one round, the resolved path
      counts of the collector row add up to the number of routes out of the
      grid. */
  method SolvePt2(input: seq<seq<char>>) returns (paths: nat)
    requires Solvable(input)
    ensures paths == ExitRoutes(input, LastSource(input).value, Width(input))
  {
    var t := Propagated(input);
    paths := TotalPaths(t);
  }

  /** The shared tail of part two: resolves the recorded dependency graph of
      a finished round and adds up the collector row. */
  method TotalPaths(t: Tachyon) returns (paths: nat)
    requires t.Valid() && t.fired && Grounded(t.nodes) && t.WiringHolds()
    requires (set q | q in t.splitLog) == Reach(t.lines, t.start)
    modifies t.grid, t`nodes
    ensures paths == ExitRoutes(t.lines, t.start, Width(t.lines))
  {
    ghost var m := t.nodes;
    CollectorsCountExits(t.lines, t.start, m, t.splitLog, Width(t.lines));
    paths := t.GetTotalPossiblePaths();
  }

  /** Both parts from one engine (src/lib.rs `solve`).  The exit count it
      asks for in between is discarded; no beam is ever fired from the
      collector row, so it is zero. */
  method Solve(input: seq<seq<char>>) returns (part1: nat, part2: nat)
    requires Solvable(input)
    ensures part1 == |Reach(input, LastSource(input).value)|
    ensures part2 == ExitRoutes(input, LastSource(input).value, Width(input))
  {
    var t := Propagated(input);
    var exits := t.GetOutputs();
    assert exits == 0;
    part1 := t.splits;
    part2 := TotalPaths(t);
  }
}

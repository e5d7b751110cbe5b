/**
  The propagation engine of src/tachyon.rs.  A `Tachyon` owns a grid of
  `rows + 1` rows by `cols` columns: one node per source and splitter of the
  input, nothing elsewhere, and a full row of collectors below the last input
  row.  `ExecuteRound` fires the source beam and splits every splitter it
  reaches, breadth-wise through a worklist, recording for every node the
  coordinates of the nodes whose beams reached it;
  `GetTotalPossiblePaths` then resolves path counts row by row and sums the
  collector row.

  The Rust code keeps parent references as raw pointers into the grid; here a
  parent is its coordinate.
 */
module Engine {
  import opened Grid
  import opened Nodes
  import opened Propagation
  import opened Round
  import opened Resolution

  /** What the constructor puts in text cell (r, c). */
  function InitialCell(lines: seq<seq<char>>, r: nat, c: nat): (cell: Option<Node>)
    requires r < |lines| && c < |lines[r]|
    ensures cell.Some? <==> IsNodeChar(lines[r][c])
    ensures lines[r][c] == 'S' ==> cell == Some(NewStarter((r, c)))
    ensures lines[r][c] == '^' ==> cell == Some(NewSplitter((r, c)))
  {
    match lines[r][c]
    case 'S' => Some(NewStarter((r, c)))
    case '^' => Some(NewSplitter((r, c)))
    case _ => None
  }

  /** `found` is the last source marker among the cells before (row, col). */
  ghost predicate LastSourceSoFar(lines: seq<seq<char>>, found: Option<Coord>, row: nat, col: nat) {
    && (found.None? ==> forall q :: IsSource(lines, q) ==> !Before(q, row, col))
    && (found.Some? ==>
         && IsSource(lines, found.value) && Before(found.value, row, col)
         && forall q :: IsSource(lines, q) && Before(q, row, col) ==> NoLater(q, found.value))
  }

  /** The constructor's nested loops: one node per `S` and `^` of the input,
      a full collector row below it, and the last `S` in row-major order. */
  method BuildGrid(input: seq<seq<char>>) returns (g: array2<Option<Node>>, start: Coord)
    requires WellFormed(input)
    requires exists q :: IsSource(input, q)
    ensures fresh(g) && g.Length0 == |input| + 1 && g.Length1 == Width(input)
    ensures forall r, c :: 0 <= r <= |input| && 0 <= c < Width(input) ==>
      g[r, c] == (if (r, c) in InitialNodes(input) then Some(InitialNodes(input)[(r, c)]) else None)
    ensures IsLastSource(input, start)
  {
    var rowCount := |input|;
    var colCount := |input[0]|;
    g := new Option<Node>[rowCount + 1, colCount]((_, _) => None);
    var found: Option<Coord> := None;
    var row := 0;
    while row < rowCount
      invariant 0 <= row <= rowCount
      invariant forall r, c :: 0 <= r < row && 0 <= c < colCount ==> g[r, c] == InitialCell(input, r, c)
      invariant forall r, c :: row <= r <= rowCount && 0 <= c < colCount ==> g[r, c] == None
      invariant LastSourceSoFar(input, found, row, 0)
    {
      found := FillRow(g, input, row, found);
      row := row + 1;
    }
    var col := 0;
    while col < colCount
      invariant 0 <= col <= colCount
      invariant forall r, c :: 0 <= r < rowCount && 0 <= c < colCount ==> g[r, c] == InitialCell(input, r, c)
      invariant forall c :: 0 <= c < col ==> g[rowCount, c] == Some(NewCollector((rowCount, c)))
    {
      g[rowCount, col] := Some(NewCollector((rowCount, col)));
      col := col + 1;
    }
    assert found.Some? by {
      var q :| IsSource(input, q);
      assert Before(q, rowCount, 0);
    }
    start := found.value;
    GridHoldsInitialNodes(g, input);
  }

  /** A grid filled cell by cell as the constructor fills it holds exactly
      the nodes of `InitialNodes`. */
  lemma GridHoldsInitialNodes(g: array2<Option<Node>>, input: seq<seq<char>>)
    requires WellFormed(input) && g.Length0 == |input| + 1 && g.Length1 == Width(input)
    requires forall r, c :: 0 <= r < |input| && 0 <= c < Width(input) ==> g[r, c] == InitialCell(input, r, c)
    requires forall c :: 0 <= c < Width(input) ==> g[|input|, c] == Some(NewCollector((|input|, c)))
    ensures forall r, c :: 0 <= r <= |input| && 0 <= c < Width(input) ==>
      g[r, c] == (if (r, c) in InitialNodes(input) then Some(InitialNodes(input)[(r, c)]) else None)
  {
  }

  /** The inner loop of the constructor over one input row. */
  method FillRow(g: array2<Option<Node>>, input: seq<seq<char>>, row: nat, found: Option<Coord>)
      returns (found': Option<Coord>)
    requires WellFormed(input) && row < |input|
    requires g.Length0 == |input| + 1 && g.Length1 == Width(input)
    requires forall c :: 0 <= c < Width(input) ==> g[row, c] == None
    requires LastSourceSoFar(input, found, row, 0)
    modifies g
    ensures forall c :: 0 <= c < Width(input) ==> g[row, c] == InitialCell(input, row, c)
    ensures forall r, c :: 0 <= r < g.Length0 && r != row && 0 <= c < g.Length1 ==> g[r, c] == old(g[r, c])
    ensures LastSourceSoFar(input, found', row + 1, 0)
  {
    found' := found;
    var col := 0;
    while col < |input[0]|
      invariant 0 <= col <= |input[0]|
      invariant forall c :: 0 <= c < col ==> g[row, c] == InitialCell(input, row, c)
      invariant forall c :: col <= c < |input[0]| ==> g[row, c] == None
      invariant forall r, c :: 0 <= r < g.Length0 && r != row && 0 <= c < g.Length1 ==> g[r, c] == old(g[r, c])
      invariant LastSourceSoFar(input, found', row, col)
    {
      match input[row][col] {
        case 'S' =>
          g[row, col] := Some(NewStarter((row, col)));
          found' := Some((row, col));
        case '^' =>
          g[row, col] := Some(NewSplitter((row, col)));
        case _ =>
      }
      col := col + 1;
    }
    assert forall q: Coord :: Before(q, row, |input[0]|) && q.1 < |input[0]| ==> Before(q, row + 1, 0);
  }

  /** The node the constructor puts in a cell that holds one. */
  function InitialNode(lines: seq<seq<char>>, r: nat, c: nat): (n: Node)
    requires WellFormed(lines) && r <= |lines| && c < Width(lines) && HasNode(lines, r, c)
    ensures r == |lines| ==> n == NewCollector((r, c))
    ensures r < |lines| ==> Some(n) == InitialCell(lines, r, c)
  {
    if r == |lines| then NewCollector((r, c))
    else if lines[r][c] == 'S' then NewStarter((r, c))
    else NewSplitter((r, c))
  }

  /** The snapshot of the grid the constructor builds. */
  function InitialNodes(lines: seq<seq<char>>): (m: NodeMap)
    requires WellFormed(lines)
    ensures Shaped(lines, m)
    ensures forall q :: q in m ==> m[q] == InitialNode(lines, q.0, q.1)
  {
    map q | q in NodeCells(lines) :: InitialNode(lines, q.0, q.1)
  }

  /** Before the first round nothing is pending, split or fired. */
  lemma InitialBooked(lines: seq<seq<char>>, s: Coord, reached: set<Coord>)
    requires WellFormed(lines) && s.0 < |lines|
    ensures Booked(lines, s, reached, InitialNodes(lines), [], [], false)
  {
  }

  /** Before the first round no node has a parent, and only sources carry a
      path. */
  lemma InitialWired(lines: seq<seq<char>>, s: Coord)
    requires WellFormed(lines) && s.0 < |lines|
    ensures Wired(lines, s, InitialNodes(lines), [], false)
  {
  }

  /** The exit flags of a fresh engine: one per column, none set. */
  method NoExits(n: nat) returns (flags: array<bool>)
    ensures fresh(flags) && flags.Length == n
    ensures forall c :: 0 <= c < n ==> !flags[c]
  {
    flags := new bool[n](_ => false);
  }

  /** The number of set flags. */
  function CountTrue(flags: seq<bool>): (n: nat)
    ensures n <= |flags|
  {
    if flags == [] then 0 else CountTrue(flags[..|flags| - 1]) + (if flags[|flags| - 1] then 1 else 0)
  }

  /** No flag is counted exactly when none is set. */
  lemma {:induction false} CountTrueZero(flags: seq<bool>)
    ensures CountTrue(flags) == 0 <==> forall i :: 0 <= i < |flags| ==> !flags[i]
  {
    if flags != [] {
      var init := flags[..|flags| - 1];
      CountTrueZero(init);
      assert forall i :: 0 <= i < |init| ==> init[i] == flags[i];
    }
  }

  class Tachyon {
    /** The input rows the engine was built from. */
    ghost const lines: seq<seq<char>>
    ghost const rows: nat
    ghost const cols: nat

    const grid: array2<Option<Node>>
    const colsOut: array<bool>
    var nodesToBeEvaluated: seq<Coord>
    const start: Coord
    var splits: nat

    /** The nodes of the grid by coordinate, kept in step with `grid`. */
    ghost var nodes: NodeMap
    /** The splitters split so far, in order. */
    ghost var splitLog: seq<Coord>
    /** Whether the source beam has been fired. */
    ghost var fired: bool
    /** The splitters a round from the source splits (see `Propagation.Reach`). */
    ghost const reach: set<Coord>

    /** The shape of the engine: its dimensions, the source, a node exactly in
        the cells of the collector row and the cells marked `S` or `^`, and
        the grid holding exactly the nodes of `nodes`. */
    ghost predicate Valid()
      reads this`nodes, grid
    {
      && WellFormed(lines) && rows == |lines| && cols == Width(lines)
      && grid.Length0 == rows + 1 && grid.Length1 == cols && colsOut.Length == cols
      && IsLastSource(lines, start)
      && Shaped(lines, nodes)
      && forall r, c {:trigger grid[r, c]} :: 0 <= r <= rows && 0 <= c < cols ==>
           grid[r, c] == (if (r, c) in nodes then Some(nodes[(r, c)]) else None)
    }

    /** The progress of the current round (see `Round.Booked`), with `splits`
        counting the splits. */
    ghost predicate BookkeepingHolds(pending: seq<Coord>)
      reads this`nodes, this`splits, this`splitLog, this`fired, grid
      requires Valid()
    {
      splits == |splitLog| && Booked(lines, start, reach, nodes, splitLog, pending, fired)
    }

    /** The dependency graph recorded so far (see `Round.Wired`). */
    ghost predicate WiringHolds()
      reads this`nodes, this`splitLog, this`fired, grid
      requires Valid()
    {
      Wired(lines, start, nodes, splitLog, fired)
    }

    /** Builds the engine from the input rows (src/tachyon.rs `new`); the
        Rust code panics on empty input and when there is no `S`. */
    constructor (input: seq<seq<char>>)
      requires WellFormed(input)
      requires exists q :: IsSource(input, q)
      ensures Valid() && fresh(grid) && fresh(colsOut)
      ensures lines == input && nodes == InitialNodes(input)
      ensures forall c :: 0 <= c < cols ==> !colsOut[c]
      ensures nodesToBeEvaluated == [] && splits == 0 && IsLastSource(input, start)
      ensures splitLog == [] && !fired && reach == Reach(lines, start)
      ensures BookkeepingHolds([]) && WiringHolds()
    {
      var g, found := BuildGrid(input);
      var flags := NoExits(|input[0]|);
      lines, rows, cols := input, |input|, |input[0]|;
      grid := g;
      colsOut := flags;
      nodesToBeEvaluated := [];
      start := found;
      splits := 0;
      nodes := InitialNodes(input);
      splitLog, fired := [], false;
      reach := Reach(input, found);
      InitialBooked(input, found, Reach(input, found));
      InitialWired(input, found);
    }

    /** The part of `fire` that acts on the node found at `t`
        (src/tachyon.rs `fire`, the found branch): it takes `parent` as a
        parent, or one path when the parent is in row 0, and is queued if
        this energized it. */
    method Deliver(parent: Coord, t: Coord)
      requires Valid() && t in nodes
      requires parent.0 != 0 ==> parent.0 < t.0 && parent in nodes
      modifies grid, this`nodes, this`nodesToBeEvaluated
      ensures Valid()
      ensures nodes == Land(old(nodes), parent, t).0
      ensures nodesToBeEvaluated == old(nodesToBeEvaluated) + Land(old(nodes), parent, t).1
    {
      var detected := grid[t.0, t.1].value;
      if parent.0 != 0 {
        detected := detected.RegisterParent(parent);
      } else {
        detected := detected.(pathsToGetHere := 1);
      }
      var (energized, wasReady) := detected.Energize();
      assert energized == Fed(nodes[t], parent);
      LandKeepsShape(lines, nodes, parent, t);
      grid[t.0, t.1] := Some(energized);
      nodes := nodes[t := energized];
      if wasReady {
        nodesToBeEvaluated := nodesToBeEvaluated + [t];
      }
    }

    /** Fires a beam from `parent` down column `origin.1`, starting below row
        `origin.0` (src/tachyon.rs `fire`).  The first node below takes the
        beam (see `Deliver`).  Only a beam fired from the collector row finds
        no node, and marks its column as an exit column. */
    method Fire(parent: Coord, origin: Coord)
      requires Valid()
      requires origin.0 <= rows && origin.1 < cols
      requires parent.0 != 0 ==> parent.0 <= origin.0 && parent in nodes
      modifies grid, colsOut, this`nodes, this`nodesToBeEvaluated
      ensures Valid()
      ensures origin.0 < rows ==>
        var t := (FirstBelow(lines, origin.0, origin.1), origin.1);
        && t in old(nodes)
        && nodes == Land(old(nodes), parent, t).0
        && nodesToBeEvaluated == old(nodesToBeEvaluated) + Land(old(nodes), parent, t).1
        && unchanged(colsOut)
      ensures origin.0 == rows ==>
        && nodes == old(nodes)
        && nodesToBeEvaluated == old(nodesToBeEvaluated)
        && colsOut[..] == old(colsOut[..])[origin.1 := true]
    {
      var c := origin.1;
      var r := origin.0 + 1;
      while r < grid.Length0
        invariant origin.0 < r <= grid.Length0
        invariant forall k :: origin.0 < k < r ==> !HasNode(lines, k, c)
      {
        if grid[r, c].Some? {
          assert FirstBelow(lines, origin.0, c) == r;
          Deliver(parent, (r, c));
          return;
        }
        r := r + 1;
      }
      assert origin.0 == rows by {
        assert grid[rows, c].Some?;
      }
      colsOut[c] := true;
    }

    /** The first step of `split`: the node at `origin` is executed, which
        turns an Energized node Spent and reports whether it did. */
    method ExecuteAt(origin: Coord) returns (wasEnergized: bool)
      requires Valid() && origin in nodes
      modifies grid, this`nodes
      ensures Valid()
      ensures wasEnergized <==> old(nodes[origin].state) == Energized
      ensures wasEnergized ==> nodes == old(nodes)[origin := old(nodes)[origin].(state := Spent)]
      ensures !wasEnergized ==> nodes == old(nodes)
    {
      var outcome := grid[origin.0, origin.1].value.Execute();
      var executed := outcome.0;
      wasEnergized := outcome.1;
      if wasEnergized {
        ExecuteKeepsShape(lines, nodes, origin);
        grid[origin.0, origin.1] := Some(executed);
        nodes := nodes[origin := executed];
      }
    }

    /** The two `fire` calls of `split`: beams down the columns on either
        side of `origin`, starting below its row. */
    method Scatter(origin: Coord)
      requires Valid() && origin in nodes && origin.0 < rows && 0 < origin.1 && origin.1 + 1 < cols
      modifies grid, colsOut, this`nodes, this`nodesToBeEvaluated
      ensures Valid()
      ensures unchanged(colsOut)
      ensures nodes == Scattered(lines, old(nodes), origin).0
      ensures nodesToBeEvaluated == old(nodesToBeEvaluated) + Scattered(lines, old(nodes), origin).1
    {
      ghost var w0 := nodesToBeEvaluated;
      ghost var left := Land(nodes, origin, LeftTarget(lines, origin));
      Fire(origin, (origin.0, origin.1 - 1));
      ghost var right := Land(left.0, origin, RightTarget(lines, origin));
      Fire(origin, (origin.0, origin.1 + 1));
      AppendTwice(w0, left.1, right.1);
    }

    /** Splits the splitter at `origin` if it is Energized (src/tachyon.rs
        `split`): it becomes Spent, `splits` grows by one, and beams are fired
        down the columns on either side, starting below its row.  The Rust
        code panics when such a splitter is in the first or last column. */
    method Split(origin: Coord)
      requires Valid()
      requires origin in nodes
      requires nodes[origin].state == Energized ==> 0 < origin.1 && origin.1 + 1 < cols
      modifies grid, colsOut, this`nodes, this`nodesToBeEvaluated, this`splits, this`splitLog
      ensures Valid()
      ensures unchanged(colsOut)
      ensures old(nodes[origin].state) != Energized ==>
        && nodes == old(nodes)
        && splits == old(splits) && splitLog == old(splitLog) && nodesToBeEvaluated == old(nodesToBeEvaluated)
      ensures old(nodes[origin].state) == Energized ==>
        && origin.0 < rows
        && nodes == SplitAt(lines, old(nodes), origin).0
        && nodesToBeEvaluated == old(nodesToBeEvaluated) + SplitAt(lines, old(nodes), origin).1
        && splits == old(splits) + 1 && splitLog == old(splitLog) + [origin]
    {
      var wasEnergized := ExecuteAt(origin);
      if !wasEnergized {
        return;
      }
      splits := splits + 1;
      splitLog := splitLog + [origin];
      assert origin.0 < rows by {
        assert StateOk(lines, origin, old(nodes)[origin].state);
      }
      Scatter(origin);
    }

    /** One round of propagation (src/tachyon.rs `execute_round`): the
        source beam is fired, then the worklist is drained batch by batch,
        splitting every entry.  Afterwards the splitters split are exactly
        those propagation reaches, each split once, and every node lists
        exactly the nodes whose beams reached it. */
    method ExecuteRound()
      requires Valid() && !fired && reach == Reach(lines, start) && EdgeSafe(lines, start)
      requires BookkeepingHolds(nodesToBeEvaluated) && WiringHolds()
      modifies grid, colsOut, this`nodes, this`nodesToBeEvaluated, this`splits, this`splitLog, this`fired
      ensures Valid() && fired && nodesToBeEvaluated == []
      ensures BookkeepingHolds([]) && WiringHolds()
      ensures Distinct(splitLog) && (set q | q in splitLog) == Reach(lines, start)
      ensures splits == |Reach(lines, start)|
      ensures forall q :: q in nodes ==> nodes[q].coord == q && (IsSource(lines, q) ==> nodes[q].state == Energized)
      ensures unchanged(colsOut)
    {
      ReachRegion(lines, start);
      FireSource();
      Drain();
      RoundComplete(lines, start, reach, nodes, splitLog);
    }

    /** The `while` loop of a round: batches are taken from the worklist and
        split until the worklist is empty. */
    method Drain()
      requires Valid() && fired && Region(lines, start, reach)
      requires BookkeepingHolds(nodesToBeEvaluated) && WiringHolds()
      modifies grid, colsOut, this`nodes, this`nodesToBeEvaluated, this`splits, this`splitLog
      ensures Valid() && fired && nodesToBeEvaluated == []
      ensures BookkeepingHolds([]) && WiringHolds()
      ensures unchanged(colsOut)
    {
      while nodesToBeEvaluated != []
        invariant Valid() && fired
        invariant BookkeepingHolds(nodesToBeEvaluated) && WiringHolds()
        invariant unchanged(colsOut)
        decreases |reach| - |splitLog|
      {
        LogBound(lines, start, reach, nodes, splitLog, nodesToBeEvaluated, fired);
        var batch := nodesToBeEvaluated;
        nodesToBeEvaluated := [];
        assert batch + nodesToBeEvaluated == batch;
        SplitBatch(batch);
        LogBound(lines, start, reach, nodes, splitLog, nodesToBeEvaluated, fired);
      }
    }

    /** The first step of a round: the source fires down its own column, and
        is recorded as the parent of where its beam lands. */
    method FireSource()
      requires Valid() && !fired && Region(lines, start, reach)
      requires BookkeepingHolds(nodesToBeEvaluated) && WiringHolds()
      modifies grid, colsOut, this`nodes, this`nodesToBeEvaluated, this`fired
      ensures Valid() && fired && splits == old(splits) && splitLog == old(splitLog)
      ensures SourceTarget(lines, start) in old(nodes)
      ensures nodes == Land(old(nodes), start, SourceTarget(lines, start)).0
      ensures nodesToBeEvaluated == old(nodesToBeEvaluated) + Land(old(nodes), start, SourceTarget(lines, start)).1
      ensures BookkeepingHolds(nodesToBeEvaluated) && WiringHolds()
      ensures unchanged(colsOut)
    {
      SourceFired(lines, start, reach, nodes, splitLog, nodesToBeEvaluated);
      Fire(start, start);
      fired := true;
    }

    /** The `for` loop of a round over one batch taken from the worklist:
        every entry is split, and the entries this adds are queued behind
        the (emptied) worklist. */
    method SplitBatch(batch: seq<Coord>)
      requires Valid() && fired && Region(lines, start, reach)
      requires BookkeepingHolds(batch + nodesToBeEvaluated) && WiringHolds()
      modifies grid, colsOut, this`nodes, this`nodesToBeEvaluated, this`splits, this`splitLog
      ensures Valid() && fired
      ensures BookkeepingHolds(nodesToBeEvaluated) && WiringHolds()
      ensures unchanged(colsOut)
      ensures splitLog == old(splitLog) + batch
    {
      ghost var log := splitLog;
      var i := 0;
      assert batch[i..] == batch;
      while i < |batch|
        invariant 0 <= i <= |batch|
        invariant Valid() && fired
        invariant BookkeepingHolds(batch[i..] + nodesToBeEvaluated) && WiringHolds()
        invariant unchanged(colsOut)
        invariant splitLog == log + batch[..i]
      {
        SplitEntry(batch, i, log);
        i := i + 1;
      }
      assert batch[..i] == batch;
      assert batch[i..] + nodesToBeEvaluated == nodesToBeEvaluated;
    }

    /** One turn of that `for` loop: the entry at `i` of the batch is split. */
    method SplitEntry(batch: seq<Coord>, i: nat, ghost log: seq<Coord>)
      requires Valid() && fired && Region(lines, start, reach) && i < |batch|
      requires BookkeepingHolds(batch[i..] + nodesToBeEvaluated) && WiringHolds()
      requires splitLog == log + batch[..i]
      modifies grid, colsOut, this`nodes, this`nodesToBeEvaluated, this`splits, this`splitLog
      ensures Valid() && fired
      ensures BookkeepingHolds(batch[i + 1..] + nodesToBeEvaluated) && WiringHolds()
      ensures unchanged(colsOut)
      ensures splitLog == old(splitLog) + [batch[i]] == log + batch[..i + 1]
      ensures && batch[i] in old(nodes) && old(nodes[batch[i]].state) == Energized
              && batch[i].0 < rows && 0 < batch[i].1 && batch[i].1 + 1 < cols
      ensures nodes == SplitAt(lines, old(nodes), batch[i]).0
      ensures nodesToBeEvaluated == old(nodesToBeEvaluated) + SplitAt(lines, old(nodes), batch[i]).1
    {
      LogStep(log, batch, i);
      BatchStep(lines, start, reach, nodes, splitLog, batch, i, nodesToBeEvaluated, fired);
      Split(batch[i]);
    }

    /** Counts the exit columns, those whose flag a beam fired from the
        collector row has set (src/tachyon.rs `get_outputs`). */
    method GetOutputs() returns (count: nat)
      requires Valid()
      ensures count == CountTrue(colsOut[..]) && count <= cols
    {
      count := 0;
      var i := 0;
      while i < colsOut.Length
        invariant 0 <= i <= colsOut.Length
        invariant count == CountTrue(colsOut[..i])
      {
        assert colsOut[..i + 1][..i] == colsOut[..i];
        if colsOut[i] {
          count := count + 1;
        }
        i := i + 1;
      }
      assert colsOut[..i] == colsOut[..];
    }

    /** Resolves the node at `q` (src/tachyon.rs
        `calculate_possible_paths_here`): it adds the current path counts of
        its parents to its own and forgets its parents; nothing else changes. */
    method CalculatePossiblePathsHere(q: Coord)
      requires Valid() && q in nodes
      requires forall p :: p in nodes[q].parents ==> p in nodes
      modifies grid, this`nodes
      ensures Valid()
      ensures nodes == old(nodes)[q := old(nodes)[q].(
        pathsToGetHere := old(nodes)[q].pathsToGetHere + ParentSum(old(nodes), old(nodes)[q].parents),
        parents := [])]
    {
      var node := grid[q.0, q.1].value;
      var paths := node.pathsToGetHere;
      var i := 0;
      while i < |node.parents|
        invariant 0 <= i <= |node.parents|
        invariant paths == node.pathsToGetHere + ParentSum(nodes, node.parents[..i])
      {
        var parent := node.parents[i];
        assert node.parents[..i + 1][..i] == node.parents[..i];
        paths := paths + grid[parent.0, parent.1].value.pathsToGetHere;
        i := i + 1;
      }
      assert node.parents[..i] == node.parents;
      node := node.(pathsToGetHere := paths, parents := []);
      ResolveKeepsShape(lines, nodes, q, node);
      grid[q.0, q.1] := Some(node);
      nodes := nodes[q := node];
    }

    /** Resolves every node, row by row from the top, then adds up the
        collector row (src/tachyon.rs `get_total_possible_paths`).  Every
        parent lies in a row above its child, so each node adds up counts
        that are already resolved. */
    method GetTotalPossiblePaths() returns (total: nat)
      requires Valid() && Grounded(nodes)
      modifies grid, this`nodes
      ensures Valid() && nodes == Resolve(old(nodes))
      ensures total == CollectorSum(old(nodes), rows, cols)
    {
      ghost var m0 := nodes;
      var row := 0;
      while row < grid.Length0
        invariant 0 <= row <= grid.Length0
        invariant Valid() && ResolvedUpTo(m0, nodes, row, 0)
      {
        ResolveRow(m0, row);
        row := row + 1;
      }
      AllResolved(m0, nodes, rows + 1);
      total := CollectorTotal();
      CollectorCells(lines, m0);
      RowCountResolved(m0, rows, cols);
    }

    /** The inner loop of `get_total_possible_paths`: resolves the nodes of
        one row from left to right. */
    method ResolveRow(ghost m0: NodeMap, row: nat)
      requires Valid() && row <= rows && ResolvedUpTo(m0, nodes, row, 0)
      modifies grid, this`nodes
      ensures Valid() && ResolvedUpTo(m0, nodes, row + 1, 0)
    {
      var col := 0;
      while col < grid.Length1
        invariant 0 <= col <= grid.Length1
        invariant Valid() && ResolvedUpTo(m0, nodes, row, col)
      {
        ResolveCell(m0, row, col);
        col := col + 1;
      }
      NextRow(m0, nodes, row, cols);
    }

    /** One step of that loop: resolves the node at (row, col), if any. */
    method ResolveCell(ghost m0: NodeMap, row: nat, col: nat)
      requires Valid() && row <= rows && col < cols && ResolvedUpTo(m0, nodes, row, col)
      modifies grid, this`nodes
      ensures Valid() && ResolvedUpTo(m0, nodes, row, col + 1)
    {
      SettleStep(m0, nodes, row, col);
      if grid[row, col].Some? {
        CalculatePossiblePathsHere((row, col));
      }
    }

    /** The final loop of `get_total_possible_paths`: adds up the current
        counts of the collector row; nothing changes. */
    method CollectorTotal() returns (total: nat)
      requires Valid()
      ensures total == RowCount(nodes, rows, cols)
    {
      total := 0;
      var c := 0;
      while c < grid.Length1
        invariant 0 <= c <= grid.Length1
        invariant total == RowCount(nodes, rows, c)
      {
        assert (rows, c) in nodes;
        total := total + grid[grid.Length0 - 1, c].value.pathsToGetHere;
        c := c + 1;
      }
    }
  }
}

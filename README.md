# Tachyon manifold: a verified model of the beam-splitting engine

This project models the beam-splitting engine of a tachyon manifold
(`src/tachyon.rs`) and the puzzle drivers that run it (`src/lib.rs`).

The input is a grid of text rows:
- `S` marks the source.
- `^` marks a splitter.

**Construction.** The engine builds a grid of nodes with one extra row of
collectors below the last text row.

**One round of propagation.**
- A beam goes down from the source to the first node below it.
- A splitter that a beam reaches is energized and queued.
- Splitting a queued splitter fires two beams, one down each neighbouring
  column.
- The round counts the splits and records, for every node, which nodes'
  beams reached it (its parents).

**Path counting.** A second pass adds up path counts through those parent
lists, row by row. The collector row then holds the number of routes out of
the grid.

**Model form.**
- The engine is a Dafny class, `Engine.Tachyon`.
- Its grid is an `array2<Option<Node>>` of `rows + 1` by `cols`.
- The exit flags are an `array<bool>`.
- The worklist is a `seq<Coord>` field.
- The split counter is a `nat` field.
- A node is a datatype value stored in its cell. The Rust code's `&mut self`
  node methods become functions that return the updated node, and the
  engine writes it back.
- A parent is its coordinate, where the Rust code stores a raw pointer.
- A ghost map `nodes` mirrors the grid, so that contracts can speak of the
  grid as a value.

**What is proved, against definitions on the input alone.**
- `Propagation.Reach` is the least set of splitters that holds the source
  beam's first stop and everything a split of one of its members lands on.
- A round splits exactly the splitters in `Reach`, each once.
  - So part one, `splits`, is `|Reach|`.
  - `|Reach|` is at most the number of splitters.
- `Routes.Arrivals` counts the distinct routes from the source to a node.
  `Routes.ExitRoutes` adds those up over the collector row.
- After one round, resolving the parent lists gives every splitter and
  collector its `Arrivals` count.
  - So part two is `ExitRoutes`.
  - Resolving a second time changes nothing and gives the same total.

Modules, one file each:
- `grid.dfy`: input layout.
- `nodes.dfy`: the node state machine.
- `reach.dfy`: reached splitters.
- `routes.dfy`: route counts.
- `round.dfy`: invariants of a round, stated on a snapshot map.
- `totals.dfy`: sums over lists.
- `resolution.dfy`: path resolution on a snapshot.
- `counting.dfy`: what resolved counts mean.
- `tachyon.dfy`: the engine.
- `lib.dfy`: the drivers.

## Model

| member | source | states |
|---|---|---|
| Nodes.Node.Energize | src/tachyon.rs:59-65 | a Ready node becomes Energized and the flag is true; in any other state the node is unchanged and the flag is false; nothing but the state changes |
| Nodes.Node.Execute | src/tachyon.rs:51-57 | an Energized node becomes Spent and the flag is true; otherwise the node is unchanged and the flag is false |
| Nodes.Node.RegisterParent | src/tachyon.rs:78-80 | the parent is appended to the parent list; state and count are unchanged |
| Nodes.NewSplitter | src/tachyon.rs:24-31 | a splitter starts Ready with no paths and no parents |
| Nodes.NewStarter | src/tachyon.rs:33-40 | a source starts Energized with one path and no parents |
| Nodes.NewCollector | src/tachyon.rs:42-49 | a collector starts Spent with no paths and no parents |
| Nodes.Fed | src/tachyon.rs:180-192 | a node a beam lands on takes the firer as a parent, or holds one path when the firer is in row 0, and is no longer Ready if it was |
| Nodes.StateOnlyMovesForward | src/tachyon.rs:51-65 | energizing or executing twice does nothing the second time; states only move Ready, Energized, Spent, so a node is split at most once |
| Grid.FirstBelow | src/tachyon.rs:175-178 | a beam fired down a column stops at the first node strictly below its row, and one always exists because of the collector row |
| Grid.LastSource | src/tachyon.rs:99-106 | the source is found exactly when the input has an `S`, and it is the last `S` in row-major order |
| Grid.SourceTarget | src/tachyon.rs:129 | the source beam stops in the source's column, strictly below it, at a node |
| Propagation.Reach | src/tachyon.rs:128-140 | the reached splitters are splitters and are closed under propagation from the source |
| Propagation.ReachLeast | src/tachyon.rs:128-140 | `Reach` lies inside every set closed under propagation |
| Propagation.ReachBelowSource | src/tachyon.rs:174-178 | every reached splitter lies strictly below the source |
| Propagation.ReachBound | src/tachyon.rs:204 | no more splitters are reached than the grid holds |
| Propagation.ReachRegion | src/tachyon.rs:206-207 | when no reached splitter is on the grid's edge, the reached set is a region the round's bookkeeping can use |
| Routes.RoutedSplitterReached | src/tachyon.rs:199-208 | a splitter with a route from the source to it is a reached splitter |
| Routes.UnreachedSplitterHasNoRoute | src/tachyon.rs:199-208 | a splitter outside `Reach` has no route to it |
| Round.LeftTarget | src/tachyon.rs:206 | the left beam of a split stops at the first node below, one column to the left |
| Round.RightTarget | src/tachyon.rs:207 | the right beam of a split stops at the first node below, one column to the right |
| Round.FiresOnTargets | src/tachyon.rs:206-207 | a split lands on exactly its two targets |
| Round.NodeCells | src/tachyon.rs:98-117 | the cells holding a node are the `S` and `^` cells and the whole collector row |
| Round.SplitCells | src/tachyon.rs:199-208 | a split turns the splitter Spent; each target takes the splitter as a parent and is queued if it was Ready; no other node changes |
| Round.SplitAdvances | src/tachyon.rs:199-208 | a split moves no node back, only the splitter becomes Spent, and only queued nodes become Energized |
| Round.SourcesKept | src/tachyon.rs:199-202 | a split executes only its own splitter, so every `S` node stays Energized |
| Round.SplitKeepsBooked | src/tachyon.rs:136-138 | splitting the first waiting splitter moves it to the log and queues what it energizes, keeping the round's bookkeeping |
| Round.WiredAfterSplit | src/tachyon.rs:180-184 | a split adds the splitter as a parent of exactly its two targets, once each, and changes no count |
| Round.SplitKeepsWired | src/tachyon.rs:199-208 | splitting the first waiting splitter keeps the recorded dependency graph exact |
| Round.BatchStep | src/tachyon.rs:134-138 | one entry of a batch taken off the worklist is the next waiting splitter, and splitting it keeps bookkeeping and graph |
| Round.SourceFired | src/tachyon.rs:129 | firing the source beam keeps bookkeeping and graph, and queues its target if it energized it |
| Round.LogClosed | src/tachyon.rs:130-139 | once the worklist is empty, the split splitters are closed under propagation |
| Round.LogBound | src/tachyon.rs:130-139 | the splits so far never outnumber the reached splitters, which bounds the drain loop |
| Round.RoundComplete | src/tachyon.rs:128-140 | at the end of a round the split splitters are exactly `Reach`, each split once |
| Resolution.Settled | src/tachyon.rs:71-76 | a resolved node holds its resolved count and no parents |
| Resolution.Resolve | src/tachyon.rs:152-162 | resolving keeps every node and leaves each settled |
| Resolution.SettleStep | src/tachyon.rs:158-160 | resolving the next node in row-major order, with every earlier node resolved, gives its resolved count |
| Resolution.NextRow | src/tachyon.rs:156-157 | the end of one row is the start of the next |
| Resolution.AllResolved | src/tachyon.rs:156-162 | after the last row every node is resolved |
| Resolution.RowCountResolved | src/tachyon.rs:164-170 | after resolution, the collector row's current counts add up to its resolved counts |
| Resolution.CollectorCells | src/tachyon.rs:115-117 | every cell of the collector row holds a node |
| Resolution.ResolveIdempotent | src/tachyon.rs:71-76 | resolving a resolved snapshot changes nothing, because no parents are left |
| Resolution.CollectorSumAgain | src/tachyon.rs:152-172 | a second resolution finds the same collector total |
| Counting.InflowTotal | src/tachyon.rs:206-207 | routes into a node through splitters are the sum over the cells beside its column in the rows above |
| Counting.WiredGrounded | src/tachyon.rs:180-184 | every recorded parent is a node in a row above its child, so row-major resolution sees parents first |
| Counting.SourceResolved | src/tachyon.rs:33-40 | after a round the source keeps its one path and has no parents |
| Counting.ParentsFromSource | src/tachyon.rs:180-186 | the source is a parent of a node exactly when it is below row 0 and its beam stops there |
| Counting.ParentsFromSplitters | src/tachyon.rs:180-184 | the split splitters among a node's parents carry all routes into it through splitters |
| Counting.ParentsShare | src/tachyon.rs:72-74 | each parent contributes its resolved count: its routes if a splitter, one path if the source |
| Counting.ResolvedArrivals | src/tachyon.rs:71-76 | after a round, resolving gives every splitter and collector its number of routes from the source |
| Counting.CollectorsCountExits | src/tachyon.rs:164-170 | after a round, the resolved collector row adds up to the number of routes out of the grid |
| Engine.InitialCell | src/tachyon.rs:102-111 | an `S` cell holds a new starter, a `^` cell a new splitter, any other cell nothing |
| Engine.BuildGrid | src/tachyon.rs:98-117 | the grid is `rows + 1` by `cols`, holds exactly the initial nodes, and the start is the last `S` |
| Engine.FillRow | src/tachyon.rs:101-112 | one text row is filled cell by cell, other rows are untouched, and the last `S` so far is tracked |
| Engine.InitialNode | src/tachyon.rs:102-117 | a collector in the extra row; otherwise the node its character calls for |
| Engine.InitialNodes | src/tachyon.rs:92-117 | the initial snapshot has a node in exactly the node cells, each in a state it may have and carrying its own coordinate |
| Engine.InitialBooked | src/tachyon.rs:119-125 | before a round nothing is queued, split or fired |
| Engine.InitialWired | src/tachyon.rs:119-125 | before a round no node has a parent, and only sources hold a path |
| Engine.NoExits | src/tachyon.rs:121 | the exit flags are one per column, all false |
| Engine.CountTrueZero | src/tachyon.rs:142-150 | no flag is counted exactly when none is set |
| Engine.Tachyon.constructor | src/tachyon.rs:92-126 | the grid holds the initial nodes, exit flags are false, the worklist is empty, splits is 0, and the start is the last `S` |
| Engine.Tachyon.Deliver | src/tachyon.rs:178-193 | the node found takes the firer as a parent, or one path from row 0, and is pushed only if it was energized |
| Engine.Tachyon.Fire | src/tachyon.rs:174-197 | below the collector row a beam lands on the first node below and leaves the exit flags alone; only from the collector row does it set an exit flag |
| Engine.Tachyon.ExecuteAt | src/tachyon.rs:200-202 | the node is executed and the result says whether it was Energized |
| Engine.Tachyon.Scatter | src/tachyon.rs:206-207 | beams land on both neighbour columns below the splitter, left then right |
| Engine.Tachyon.Split | src/tachyon.rs:199-208 | a node that is not Energized changes nothing; an Energized one is split once, and splits grows by one |
| Engine.Tachyon.FireSource | src/tachyon.rs:129 | the source beam lands on the first node below the source: that node alone is fed, and the worklist gains it exactly when it was Ready; bookkeeping and graph are kept |
| Engine.Tachyon.Drain | src/tachyon.rs:130-139 | the worklist is drained to empty, keeping bookkeeping, graph and exit flags |
| Engine.Tachyon.SplitBatch | src/tachyon.rs:131-138 | the entries of a swapped-out batch are split in order, so the log grows by exactly the batch; new entries are queued and bookkeeping and graph are kept |
| Engine.Tachyon.SplitEntry | src/tachyon.rs:136-138 | the entry is an Energized splitter away from the edges; the snapshot becomes the split of that entry, the worklist gains exactly what the split energizes, and the entry is appended to the log |
| Engine.Tachyon.ExecuteRound | src/tachyon.rs:128-140 | the worklist ends empty; the splitters split are exactly `Reach`, each once; `splits` is `|Reach|`; every node lists exactly the nodes whose beams reached it and keeps its coordinate; every `S` node is still Energized; exit flags are unchanged |
| Engine.Tachyon.GetOutputs | src/tachyon.rs:142-150 | the count is the number of set exit flags, at most `cols` |
| Engine.Tachyon.CalculatePossiblePathsHere | src/tachyon.rs:71-76 | the node adds its parents' current counts to its own and forgets its parents; nothing else changes |
| Engine.Tachyon.GetTotalPossiblePaths | src/tachyon.rs:152-172 | every node ends resolved, and the total is the sum of the collector row's resolved counts |
| Engine.Tachyon.ResolveRow | src/tachyon.rs:157-161 | one row is resolved left to right |
| Engine.Tachyon.ResolveCell | src/tachyon.rs:158-160 | the node at one cell, if any, is resolved |
| Engine.Tachyon.CollectorTotal | src/tachyon.rs:164-170 | the total is the sum of the collector row's current counts; nothing changes |
| Solver.Propagated | src/lib.rs:15-16 | a fresh engine after one round: start is the last `S`, splits is `|Reach|`, the graph is grounded, and no exit flag is set |
| Solver.SolvePt1 | src/lib.rs:14-18 | part one is the number of reached splitters, at most the number of splitters |
| Solver.TotalPaths | src/lib.rs:23 | after a round, the total path count is the number of routes out of the grid |
| Solver.SolvePt2 | src/lib.rs:20-24 | part two is the number of routes from the source out of the bottom of the grid |
| Solver.Solve | src/lib.rs:26-31 | the pair is part one and part two; the exit count read in between is zero and does not affect them |

## Left out

- Reading the input file (`FileParser`, `src/lib.rs:8-9`) and splitting it into lines are not modelled. The input is a sequence of rows, already split.
- `src/tachyon.rs:100-102` indexes the bytes of each row. The model reads characters, which agrees for the ASCII grids the puzzle uses.
- Counts are unbounded naturals; the 64-bit wrap-around of `u64` is not modelled.
  - Engine.Tachyon.GetTotalPossiblePaths: does not model `u64` overflow of a path count.
  - Solver.SolvePt2: does not model `u64` overflow of the total. The expected totals in `src/lib.rs:37-40` are far below 2^64.
- Parent references are raw pointers into the grid (`src/tachyon.rs:180-184`). Here a parent is its coordinate, read back from the grid. `Engine.Tachyon.CalculatePossiblePathsHere` is therefore an engine method rather than a node method.
- `get_possible_paths_here` (`src/tachyon.rs:67-69`) is a plain getter; it is modelled as a read of the node's `pathsToGetHere` field.
- The Rust code panics in several cases. These are preconditions (`Solver.Solvable` and the engine's `requires`), not error results:
  - input without rows;
  - a row shorter than the first;
  - no `S`;
  - a reached splitter in the first or last column, whose split fires outside the grid.
- Engine.Tachyon.ExecuteRound: specified for the single round each driver runs on a fresh engine. A second call on the same engine is not specified.
- Engine.Tachyon.GetTotalPossiblePaths: requires every recorded parent to lie above its child. This holds before a round and after one (`Counting.WiredGrounded`).
- The test data files and their expected results (`src/lib.rs:37-71`) are not part of this model. No concrete grid is worked through.
- Capacity hints (`with_capacity`) and the buffer swap are modelled as plain sequence assignments.
- The unused imports (`Arc`, `AtomicU64`, `thread`, `Ordering`, `Rc`, `BTreeSet`, `io::Split`) and the commented-out test module are left out.
- The "no node found" branch of `fire` (`src/tachyon.rs:196`) is modelled in `Engine.Tachyon.Fire`. It is reached only by a beam fired from the collector row, which never happens, so `get_outputs` is always zero after a round.
- An edge splitter is not treated as a beam leaving the grid sideways. The code panics there, and the model follows the code with a precondition.

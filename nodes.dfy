/**
  A node of the engine's grid (src/tachyon.rs, `SplitterState` and `Node`):
  a source, a splitter or a collector, with its three-state signal state,
  the number of paths found to reach it, and the coordinates of the nodes
  whose beams reached it (its parents).

  `Node` is a value stored in its grid cell; the Rust code's `&mut self`
  methods become functions returning the updated node (and the flag the
  Rust method returns), which the engine writes back into the cell.
 */
module Nodes {
  import opened Grid

  datatype SplitterState = Ready | Energized | Spent

  /** The position of a state in the only order states may change in. */
  function Stage(s: SplitterState): nat {
    match s
    case Ready => 0
    case Energized => 1
    case Spent => 2
  }

  datatype Node = Node(coord: Coord, state: SplitterState, pathsToGetHere: nat, parents: seq<Coord>)
  {
    /** A splitter hit by a beam for the first time is energized: Ready becomes
        Energized and the result flag is true; any other state stays as it is
        and the flag is false. */
    function Energize(): (r: (Node, bool))
      ensures r.1 <==> state == Ready
      ensures r.1 ==> r.0.state == Energized
      ensures !r.1 ==> r.0 == this
      ensures Stage(r.0.state) >= Stage(state)
      ensures r.0.coord == coord && r.0.pathsToGetHere == pathsToGetHere && r.0.parents == parents
    {
      if state == Ready then (this.(state := Energized), true) else (this, false)
    }

    /** An energized node is executed: Energized becomes Spent and the flag
        is true; any other state stays as it is and the flag is false. */
    function Execute(): (r: (Node, bool))
      ensures r.1 <==> state == Energized
      ensures r.1 ==> r.0.state == Spent
      ensures !r.1 ==> r.0 == this
      ensures Stage(r.0.state) >= Stage(state)
      ensures r.0.coord == coord && r.0.pathsToGetHere == pathsToGetHere && r.0.parents == parents
    {
      if state == Energized then (this.(state := Spent), true) else (this, false)
    }

    /** Records `other` as one more node whose beam reached this one. */
    function RegisterParent(other: Coord): (n: Node)
      ensures n.parents == parents + [other] && |n.parents| == |parents| + 1
      ensures n.coord == coord && n.state == state && n.pathsToGetHere == pathsToGetHere
    {
      this.(parents := parents + [other])
    }
  }

  /** A splitter starts Ready, with no path found yet and no parents. */
  function NewSplitter(coord: Coord): (n: Node)
    ensures n.coord == coord && n.state == Ready && n.pathsToGetHere == 0 && n.parents == []
  {
    Node(coord, Ready, 0, [])
  }

  /** A source starts Energized, reached by exactly one path, with no parents. */
  function NewStarter(coord: Coord): (n: Node)
    ensures n.coord == coord && n.state == Energized && n.pathsToGetHere == 1 && n.parents == []
  {
    Node(coord, Energized, 1, [])
  }

  /** A collector of the exit row starts Spent, so it is never split. */
  function NewCollector(coord: Coord): (n: Node)
    ensures n.coord == coord && n.state == Spent && n.pathsToGetHere == 0 && n.parents == []
  {
    Node(coord, Spent, 0, [])
  }

  /** The node a beam fired from `parent` lands on, once `fire` has recorded
      the parent (or, for a beam fired from row 0, seeded one path) and
      energized it. */
  function Fed(n: Node, parent: Coord): (m: Node)
    ensures m.coord == n.coord
    ensures m.state == (if n.state == Ready then Energized else n.state)
    ensures parent.0 != 0 ==> m.parents == n.parents + [parent] && m.pathsToGetHere == n.pathsToGetHere
    ensures parent.0 == 0 ==> m.parents == n.parents && m.pathsToGetHere == 1
  {
    (if parent.0 != 0 then n.RegisterParent(parent) else n.(pathsToGetHere := 1)).Energize().0
  }

  /** Energizing and executing never move a node back: a node is energized
      at most once and executed at most once, so each node is split at most
      once. */
  lemma StateOnlyMovesForward(n: Node)
    ensures !n.Energize().0.Energize().1
    ensures !n.Execute().0.Execute().1
    ensures n.Execute().1 ==> !n.Execute().0.Energize().1
    ensures Stage(n.Energize().0.Execute().0.state) >= Stage(n.state)
  {
  }
}

/**
  The progress of a round of propagation, stated on a snapshot of the
  engine's grid: a map from the coordinates of the cells that hold a node to
  that node.  The engine's methods state their effect on the snapshot, and
  the lemmas here show that every step of a round keeps its invariants.
 */
module Round {
  import opened Grid
  import opened Nodes
  import opened Propagation

  /** The nodes of a grid by coordinate. */
  type NodeMap = map<Coord, Node>

  /** A beam has landed on `q`: there is a node and it is no longer Ready. */
  predicate Landed(m: NodeMap, q: Coord) {
    q in m && m[q].state != Ready
  }

  /** Where the left beam of a split at `p` stops. */
  function LeftTarget(lines: seq<seq<char>>, p: Coord): (t: Coord)
    requires p.0 < |lines| && 0 < p.1
    ensures Fires(lines, p, t) && t.1 + 1 == p.1 && p.0 < t.0 <= |lines| && HasNode(lines, t.0, t.1)
  {
    (FirstBelow(lines, p.0, p.1 - 1), p.1 - 1)
  }

  /** Where the right beam of a split at `p` stops. */
  function RightTarget(lines: seq<seq<char>>, p: Coord): (t: Coord)
    requires p.0 < |lines|
    ensures Fires(lines, p, t) && t.1 == p.1 + 1 && p.0 < t.0 <= |lines| && HasNode(lines, t.0, t.1)
  {
    (FirstBelow(lines, p.0, p.1 + 1), p.1 + 1)
  }

  /** A split lands on exactly its two targets. */
  lemma FiresOnTargets(lines: seq<seq<char>>, p: Coord, q: Coord)
    requires p.0 < |lines| && 0 < p.1
    ensures Fires(lines, p, q) <==> q == LeftTarget(lines, p) || q == RightTarget(lines, p)
  {
  }

  /** The cells that hold a node: the cells marked `S` or `^` and every
      cell of the collector row. */
  function NodeCells(lines: seq<seq<char>>): (cells: set<Coord>)
    requires |lines| > 0
    ensures forall q: Coord :: q in cells <==> q.0 <= |lines| && q.1 < Width(lines) && HasNode(lines, q.0, q.1)
  {
    CellsAbove(lines, |lines| + 1)
  }

  /** The cells holding a node in the rows above row `k`. */
  function CellsAbove(lines: seq<seq<char>>, k: nat): (cells: set<Coord>)
    requires |lines| > 0 && k <= |lines| + 1
    ensures forall q: Coord :: q in cells <==> q.0 < k && q.1 < Width(lines) && HasNode(lines, q.0, q.1)
  {
    if k == 0 then {} else CellsAbove(lines, k - 1) + CellsInRow(lines, k - 1, Width(lines))
  }

  /** The cells holding a node in row `r`, left of column `n`. */
  function CellsInRow(lines: seq<seq<char>>, r: nat, n: nat): (cells: set<Coord>)
    ensures forall q: Coord :: q in cells <==> q.0 == r && q.1 < n && HasNode(lines, q.0, q.1)
  {
    if n == 0 then {}
    else CellsInRow(lines, r, n - 1) + (if HasNode(lines, r, n - 1) then {(r, n - 1)} else {})
  }

  /** The state a node at `q` may have at any time: only splitters are ever
      Ready, and collectors are always Spent. */
  predicate StateOk(lines: seq<seq<char>>, q: Coord, st: SplitterState) {
    && (st == Ready ==> IsSplitter(lines, q))
    && (q.0 == |lines| ==> st == Spent)
  }

  /** The snapshot has a node exactly in the node cells, each in a state it
      may have and carrying its own coordinate. */
  ghost predicate Shaped(lines: seq<seq<char>>, m: NodeMap) {
    && WellFormed(lines)
    && m.Keys == NodeCells(lines)
    && (forall q :: q in m ==> StateOk(lines, q, m[q].state) && m[q].coord == q)
  }

  /** Both beams of a split at `p` have landed. */
  predicate Swept(lines: seq<seq<char>>, m: NodeMap, p: Coord) {
    && p.0 < |lines| && 0 < p.1
    && Landed(m, LeftTarget(lines, p)) && Landed(m, RightTarget(lines, p))
  }

  /** The progress of a round from the source `s`, with `log` the splitters
      split so far and `pending` the energized splitters waiting to be split:
      every split and every waiting splitter is in `reached`, the splitters
      that propagation reaches;
      the split ones are Spent and both their beams have landed; the waiting
      ones are Energized; no splitter is Energized or Spent without being
      listed; every source marker stays Energized; and once the source beam
      is fired, it has landed. */
  ghost predicate Booked(lines: seq<seq<char>>, s: Coord, reached: set<Coord>, m: NodeMap, log: seq<Coord>, pending: seq<Coord>, fired: bool)
    requires s.0 < |lines|
  {
    && Distinct(log) && Distinct(pending)
    && (forall i :: 0 <= i < |log| ==>
          log[i] in reached && log[i] in m && m[log[i]].state == Spent && Swept(lines, m, log[i]))
    && (forall i :: 0 <= i < |pending| ==>
          pending[i] in reached && pending[i] in m && m[pending[i]].state == Energized)
    && (forall q :: q in m && IsSplitter(lines, q) && m[q].state == Energized ==> q in pending)
    && (forall q :: q in m && IsSplitter(lines, q) && m[q].state == Spent ==> q in log)
    && (forall q :: q in m && IsSource(lines, q) ==> m[q].state == Energized)
    && (fired ==> Landed(m, SourceTarget(lines, s)))
  }

  /** `p` is a parent `q` should have by now: a splitter already split whose
      beam lands on `q`, or the source once its beam has been fired (a source
      in row 0 seeds a path instead). */
  ghost predicate Feeds(lines: seq<seq<char>>, s: Coord, log: seq<Coord>, fired: bool, p: Coord, q: Coord)
    requires s.0 < |lines|
  {
    || (p in log && Fires(lines, p, q))
    || (fired && s.0 != 0 && p == s && q == SourceTarget(lines, s))
  }

  /** The path count a node holds before resolution: one for a source marker,
      one for the node that the beam of a source in row 0 lands on, none
      otherwise. */
  ghost function Seed(lines: seq<seq<char>>, s: Coord, fired: bool, q: Coord): nat
    requires s.0 < |lines|
  {
    if IsSource(lines, q) then 1
    else if fired && s.0 == 0 && q == SourceTarget(lines, s) then 1
    else 0
  }

  /** The dependency graph recorded so far: every node lists each of its
      parents exactly once, and holds its seed count. */
  ghost predicate Wired(lines: seq<seq<char>>, s: Coord, m: NodeMap, log: seq<Coord>, fired: bool)
    requires s.0 < |lines|
  {
    forall q :: q in m ==>
      && Distinct(m[q].parents)
      && (forall p :: p in m[q].parents <==> Feeds(lines, s, log, fired, p, q))
      && m[q].pathsToGetHere == Seed(lines, s, fired, q)
  }

  /** A beam from `parent` lands on the node at `t`: the new snapshot, and
      the worklist entries this adds. */
  function Land(m: NodeMap, parent: Coord, t: Coord): (r: (NodeMap, seq<Coord>))
    requires t in m
    ensures r.0.Keys == m.Keys
  {
    (m[t := Fed(m[t], parent)], if m[t].state == Ready then [t] else [])
  }

  /** Appending two worklist extensions one after the other is appending
      them together. */
  lemma AppendTwice(w: seq<Coord>, a: seq<Coord>, b: seq<Coord>)
    ensures (w + a) + b == w + (a + b)
  {
  }

  /** Logging entry `i` of a batch extends the log of its first `i` entries
      by one. */
  lemma LogStep(log: seq<Coord>, batch: seq<Coord>, i: nat)
    requires i < |batch|
    ensures (log + batch[..i]) + [batch[i]] == log + batch[..i + 1]
  {
    assert batch[..i + 1] == batch[..i] + [batch[i]];
  }

  /** Beams from `o` land on its two targets: the new snapshot, and the
      worklist entries this adds. */
  function Scattered(lines: seq<seq<char>>, m: NodeMap, o: Coord): (r: (NodeMap, seq<Coord>))
    requires |lines| > 0 && o.0 < |lines| && 0 < o.1 && o.1 + 1 < Width(lines)
    requires NodeCells(lines) <= m.Keys
    ensures r.0.Keys == m.Keys
  {
    var left := Land(m, o, LeftTarget(lines, o));
    var right := Land(left.0, o, RightTarget(lines, o));
    (right.0, left.1 + right.1)
  }

  /** The splitter at `o` is executed and beams land on its two targets: the
      new snapshot, and the worklist entries this adds. */
  function SplitAt(lines: seq<seq<char>>, m: NodeMap, o: Coord): (r: (NodeMap, seq<Coord>))
    requires |lines| > 0 && o.0 < |lines| && 0 < o.1 && o.1 + 1 < Width(lines) && o in m
    requires NodeCells(lines) <= m.Keys
    ensures r.0.Keys == m.Keys
  {
    Scattered(lines, m[o := m[o].(state := Spent)], o)
  }

  /** The effect of a split at `o` from `m` to `m'`, cell by cell, with
      `pushed` added to the waiting list: the splitter becomes Spent, each
      target takes the splitter as a parent and is pushed if it was Ready,
      and nothing else changes. */
  ghost predicate SplitEffect(lines: seq<seq<char>>, m: NodeMap, m': NodeMap, o: Coord, pushed: seq<Coord>)
    requires o.0 < |lines| && 0 < o.1
  {
    var L, R := LeftTarget(lines, o), RightTarget(lines, o);
    && m'.Keys == m.Keys && o in m && L in m && R in m
    && L != o && R != o && L != R
    && m'[o] == m[o].(state := Spent)
    && m'[L] == Fed(m[L], o) && m'[R] == Fed(m[R], o)
    && (forall q :: q in m && q != o && q != L && q != R ==> m'[q] == m[q])
    && pushed == (if m[L].state == Ready then [L] else []) + (if m[R].state == Ready then [R] else [])
  }

  /** `SplitAt` has that effect on an Energized splitter. */
  lemma SplitCells(lines: seq<seq<char>>, m: NodeMap, o: Coord)
    requires |lines| > 0 && o.0 < |lines| && 0 < o.1 && o.1 + 1 < Width(lines) && o in m
    requires NodeCells(lines) <= m.Keys
    requires m[o].state == Energized
    ensures SplitEffect(lines, m, SplitAt(lines, m, o).0, o, SplitAt(lines, m, o).1)
  {
  }

  /** How a split at `o` moves the snapshot from `m` to `m'`, adding
      `pushed` to the waiting list: no node moves back or changes its
      coordinate; only `o` becomes
      Spent; a node becomes Energized only if it was Ready and is pushed;
      the pushed nodes are distinct splitters the split lands on; and both
      beams of the split have landed. */
  ghost predicate Advanced(lines: seq<seq<char>>, m: NodeMap, m': NodeMap, o: Coord, pushed: seq<Coord>) {
    && m'.Keys == m.Keys && o in m && m'[o].state == Spent && Swept(lines, m', o)
    && (forall q :: q in m ==> Stage(m'[q].state) >= Stage(m[q].state) && m'[q].coord == m[q].coord)
    && (forall q :: q in m && m'[q].state == Spent ==> q == o || m[q].state == Spent)
    && (forall q :: q in m && m'[q].state == Energized ==>
          (m[q].state == Energized && q != o) || (q in pushed && m[q].state == Ready))
    && Distinct(pushed)
    && (forall i :: 0 <= i < |pushed| ==>
          pushed[i] in m && m[pushed[i]].state == Ready && m'[pushed[i]].state == Energized && Fires(lines, o, pushed[i]))
  }

  /** A split with that effect advances the snapshot. */
  lemma SplitAdvances(lines: seq<seq<char>>, m: NodeMap, m': NodeMap, o: Coord, pushed: seq<Coord>)
    requires o.0 < |lines| && 0 < o.1 && SplitEffect(lines, m, m', o, pushed)
    ensures Advanced(lines, m, m', o, pushed)
  {
    var L, R := LeftTarget(lines, o), RightTarget(lines, o);
    assert Landed(m', L) && Landed(m', R);
    forall q | q in m
      ensures Stage(m'[q].state) >= Stage(m[q].state)
      ensures m'[q].state == Spent ==> q == o || m[q].state == Spent
      ensures m'[q].state == Energized ==> (m[q].state == Energized && q != o) || (q in pushed && m[q].state == Ready)
    {
      if q == L || q == R {
        assert m'[q] == Fed(m[q], o);
      } else if q != o {
        assert m'[q] == m[q];
      }
    }
    forall i | 0 <= i < |pushed|
      ensures pushed[i] in m && m[pushed[i]].state == Ready && m'[pushed[i]].state == Energized && Fires(lines, o, pushed[i])
    {
      assert pushed[i] == L || pushed[i] == R;
    }
  }

  /** The log part of the bookkeeping survives a split of `o`. */
  lemma LogKept(lines: seq<seq<char>>, s: Coord, reached: set<Coord>, m: NodeMap, m': NodeMap, log: seq<Coord>, o: Coord, pushed: seq<Coord>)
    requires s.0 < |lines| && Advanced(lines, m, m', o, pushed)
    requires Distinct(log) && o !in log && o in reached
    requires forall i :: 0 <= i < |log| ==>
      log[i] in reached && log[i] in m && m[log[i]].state == Spent && Swept(lines, m, log[i])
    ensures Distinct(log + [o])
    ensures forall i :: 0 <= i < |log + [o]| ==>
      (log + [o])[i] in reached && (log + [o])[i] in m' && m'[(log + [o])[i]].state == Spent && Swept(lines, m', (log + [o])[i])
  {
    forall i | 0 <= i < |log + [o]|
      ensures (log + [o])[i] in reached && (log + [o])[i] in m' && m'[(log + [o])[i]].state == Spent && Swept(lines, m', (log + [o])[i])
    {
      if i < |log| {
        assert (log + [o])[i] == log[i];
        assert Swept(lines, m, log[i]);
      }
    }
  }

  /** The waiting part of the bookkeeping survives a split of `o`. */
  lemma PendingKept(lines: seq<seq<char>>, s: Coord, reached: set<Coord>, m: NodeMap, m': NodeMap, o: Coord, rest: seq<Coord>, pushed: seq<Coord>)
    requires s.0 < |lines| && Shaped(lines, m) && Advanced(lines, m, m', o, pushed) && Region(lines, s, reached)
    requires Distinct(rest) && o !in rest && o in reached
    requires forall i :: 0 <= i < |rest| ==> rest[i] in reached && rest[i] in m && m[rest[i]].state == Energized
    ensures Distinct(rest + pushed)
    ensures forall i :: 0 <= i < |rest + pushed| ==>
      (rest + pushed)[i] in reached && (rest + pushed)[i] in m' && m'[(rest + pushed)[i]].state == Energized
  {
    forall i | 0 <= i < |rest + pushed|
      ensures (rest + pushed)[i] in reached && (rest + pushed)[i] in m' && m'[(rest + pushed)[i]].state == Energized
    {
      if i < |rest| {
        assert (rest + pushed)[i] == rest[i];
        assert Stage(m'[rest[i]].state) >= 1;
        assert m'[rest[i]].state != Spent;
      } else {
        var q := pushed[i - |rest|];
        assert (rest + pushed)[i] == q;
        assert IsSplitter(lines, q) && Fires(lines, o, q);
      }
    }
    forall i, j | 0 <= i < j < |rest + pushed| ensures (rest + pushed)[i] != (rest + pushed)[j] {
      if i < |rest| && |rest| <= j {
        assert m[(rest + pushed)[i]].state == Energized;
        assert m[(rest + pushed)[j]].state == Ready;
      }
    }
  }

  /** Every Energized or Spent splitter stays listed after a split of `o`. */
  lemma CoverKept(lines: seq<seq<char>>, s: Coord, m: NodeMap, m': NodeMap, log: seq<Coord>, o: Coord, rest: seq<Coord>, pushed: seq<Coord>)
    requires s.0 < |lines| && Advanced(lines, m, m', o, pushed)
    requires forall q :: q in m && IsSplitter(lines, q) && m[q].state == Energized ==> q in [o] + rest
    requires forall q :: q in m && IsSplitter(lines, q) && m[q].state == Spent ==> q in log
    ensures forall q :: q in m' && IsSplitter(lines, q) && m'[q].state == Energized ==> q in rest + pushed
    ensures forall q :: q in m' && IsSplitter(lines, q) && m'[q].state == Spent ==> q in log + [o]
  {
  }

  /** A split keeps the snapshot's shape. */
  lemma ShapeKept(lines: seq<seq<char>>, m: NodeMap, m': NodeMap, o: Coord, pushed: seq<Coord>)
    requires Shaped(lines, m) && Advanced(lines, m, m', o, pushed)
    ensures Shaped(lines, m')
  {
  }

  /** A split leaves every source marker Energized: only the splitter it
      executes becomes Spent. */
  lemma SourcesKept(lines: seq<seq<char>>, m: NodeMap, m': NodeMap, o: Coord, pushed: seq<Coord>)
    requires Advanced(lines, m, m', o, pushed) && IsSplitter(lines, o)
    requires forall q :: q in m && IsSource(lines, q) ==> m[q].state == Energized
    ensures forall q :: q in m' && IsSource(lines, q) ==> m'[q].state == Energized
  {
  }

  /** What the bookkeeping says about the first waiting splitter and the
      ones after it. */
  lemma FirstWaiting(lines: seq<seq<char>>, s: Coord, reached: set<Coord>, m: NodeMap, log: seq<Coord>, o: Coord, rest: seq<Coord>, fired: bool)
    requires s.0 < |lines| && Region(lines, s, reached) && Booked(lines, s, reached, m, log, [o] + rest, fired)
    ensures o in reached && IsSplitter(lines, o) && o in m && m[o].state == Energized
    ensures o !in log && o !in rest && Distinct(rest)
    ensures forall i :: 0 <= i < |rest| ==> rest[i] in reached && rest[i] in m && m[rest[i]].state == Energized
  {
    var pending := [o] + rest;
    assert pending[0] == o;
    forall i | 0 <= i < |rest| ensures rest[i] == pending[i + 1] {
    }
  }

  /** Splitting the first waiting splitter keeps the round's bookkeeping: it
      moves from the waiting list to the log, and the targets its beams
      energize join the end of the waiting list. */
  lemma SplitKeepsBooked(lines: seq<seq<char>>, s: Coord, reached: set<Coord>, m: NodeMap, log: seq<Coord>, o: Coord, rest: seq<Coord>, fired: bool)
    requires s.0 < |lines| && Shaped(lines, m) && 0 < o.1 && o.1 + 1 < Width(lines) && Region(lines, s, reached)
    requires Booked(lines, s, reached, m, log, [o] + rest, fired)
    ensures IsSplitter(lines, o) && o in m && m[o].state == Energized && o !in log && o !in rest
    ensures var r := SplitAt(lines, m, o);
      Shaped(lines, r.0) && Booked(lines, s, reached, r.0, log + [o], rest + r.1, fired)
  {
    FirstWaiting(lines, s, reached, m, log, o, rest, fired);
    var r := SplitAt(lines, m, o);
    SplitCells(lines, m, o);
    SplitAdvances(lines, m, r.0, o, r.1);
    LogKept(lines, s, reached, m, r.0, log, o, r.1);
    PendingKept(lines, s, reached, m, r.0, o, rest, r.1);
    CoverKept(lines, s, m, r.0, log, o, rest, r.1);
    ShapeKept(lines, m, r.0, o, r.1);
    SourcesKept(lines, m, r.0, o, r.1);
    if fired {
      assert Landed(m, SourceTarget(lines, s));
      assert Landed(r.0, SourceTarget(lines, s));
    }
  }

  /** A split records the splitter as a parent of exactly its two targets,
      once each, and leaves every path count as it was. */
  lemma WiredAfterSplit(lines: seq<seq<char>>, s: Coord, m: NodeMap, m': NodeMap, log: seq<Coord>, o: Coord, pushed: seq<Coord>, fired: bool)
    requires s.0 < |lines| && o.0 < |lines| && 0 < o.1 && SplitEffect(lines, m, m', o, pushed)
    requires o.0 != 0 && o != s && o !in log && Wired(lines, s, m, log, fired)
    ensures Wired(lines, s, m', log + [o], fired)
  {
    var L, R := LeftTarget(lines, o), RightTarget(lines, o);
    forall q | q in m'
      ensures Distinct(m'[q].parents)
      ensures forall p :: p in m'[q].parents <==> Feeds(lines, s, log + [o], fired, p, q)
      ensures m'[q].pathsToGetHere == Seed(lines, s, fired, q)
    {
      FiresOnTargets(lines, o, q);
      if q == L || q == R {
        assert !Feeds(lines, s, log, fired, o, q);
        assert o !in m[q].parents;
        assert m'[q].parents == m[q].parents + [o];
      } else if q != o {
        assert m'[q] == m[q];
      }
    }
  }

  /** Splitting the first waiting splitter keeps the dependency graph. */
  lemma SplitKeepsWired(lines: seq<seq<char>>, s: Coord, reached: set<Coord>, m: NodeMap, log: seq<Coord>, o: Coord, rest: seq<Coord>, fired: bool)
    requires s.0 < |lines| && Shaped(lines, m) && 0 < o.1 && o.1 + 1 < Width(lines) && Region(lines, s, reached)
    requires Booked(lines, s, reached, m, log, [o] + rest, fired) && Wired(lines, s, m, log, fired)
    ensures IsSplitter(lines, o) && o in m
    ensures Wired(lines, s, SplitAt(lines, m, o).0, log + [o], fired)
  {
    FirstWaiting(lines, s, reached, m, log, o, rest, fired);
    var r := SplitAt(lines, m, o);
    SplitCells(lines, m, o);
    WiredAfterSplit(lines, s, m, r.0, log, o, r.1, fired);
  }

  /** One step of the drain loop: the entry at `i` of the batch taken from
      the worklist is the next one waiting; splitting it keeps the round's
      progress and dependency graph exact, with the entries it adds queued
      behind the worklist `w`. */
  lemma BatchStep(lines: seq<seq<char>>, s: Coord, reached: set<Coord>, m: NodeMap, log: seq<Coord>, batch: seq<Coord>, i: nat, w: seq<Coord>, fired: bool)
    requires s.0 < |lines| && Shaped(lines, m) && Region(lines, s, reached) && i < |batch|
    requires Booked(lines, s, reached, m, log, batch[i..] + w, fired) && Wired(lines, s, m, log, fired)
    ensures batch[i] in m && m[batch[i]].state == Energized && 0 < batch[i].1 && batch[i].1 + 1 < Width(lines)
    ensures var r := SplitAt(lines, m, batch[i]);
      && Shaped(lines, r.0)
      && Booked(lines, s, reached, r.0, log + [batch[i]], batch[i + 1..] + (w + r.1), fired)
      && Wired(lines, s, r.0, log + [batch[i]], fired)
  {
    var o, rest := batch[i], batch[i + 1..] + w;
    assert batch[i..] + w == [o] + rest by {
      assert batch[i..] == [o] + batch[i + 1..];
      AppendTwice([o], batch[i + 1..], w);
    }
    assert o in reached by {
      assert ([o] + rest)[0] == o;
    }
    SplitKeepsBooked(lines, s, reached, m, log, o, rest, fired);
    SplitKeepsWired(lines, s, reached, m, log, o, rest, fired);
    AppendTwice(batch[i + 1..], w, SplitAt(lines, m, o).1);
  }

  /** How a beam landing on `t` moves the snapshot from `m` to `m'`, adding
      `pushed` to the waiting list: `t` is no longer Ready, and no other node
      changes state. */
  ghost predicate Lands(m: NodeMap, m': NodeMap, t: Coord, pushed: seq<Coord>) {
    && m'.Keys == m.Keys && t in m && Landed(m', t)
    && (forall q :: q in m ==> Stage(m'[q].state) >= Stage(m[q].state) && m'[q].coord == m[q].coord)
    && (forall q :: q in m && m'[q].state != m[q].state ==> q == t && m[q].state == Ready && m'[q].state == Energized)
    && pushed == (if m[t].state == Ready then [t] else [])
  }

  /** `Land` moves the snapshot that way. */
  lemma LandLands(m: NodeMap, parent: Coord, t: Coord)
    requires t in m
    ensures Lands(m, Land(m, parent, t).0, t, Land(m, parent, t).1)
  {
    var m' := Land(m, parent, t).0;
    forall q | q in m
      ensures Stage(m'[q].state) >= Stage(m[q].state)
      ensures m'[q].state != m[q].state ==> q == t && m[q].state == Ready && m'[q].state == Energized
    {
      if q != t {
        assert m'[q] == m[q];
      }
    }
  }

  /** The beam of the source lands on `t`: the rest of the bookkeeping
      survives, and `t` joins the waiting list if it was a Ready splitter. */
  lemma BookedAfterSourceFire(lines: seq<seq<char>>, s: Coord, reached: set<Coord>, m: NodeMap, m': NodeMap, t: Coord, log: seq<Coord>, pending: seq<Coord>, pushed: seq<Coord>, fired: bool)
    requires s.0 < |lines| && t == SourceTarget(lines, s) && Shaped(lines, m) && Lands(m, m', t, pushed) && Region(lines, s, reached)
    requires Booked(lines, s, reached, m, log, pending, fired)
    ensures Booked(lines, s, reached, m', log, pending + pushed, true)
  {
    var pending' := pending + pushed;
    if m[t].state == Ready {
      assert IsSplitter(lines, t);
      assert t !in pending;
    }
    forall i | 0 <= i < |pending'|
      ensures pending'[i] in reached && pending'[i] in m' && m'[pending'[i]].state == Energized
    {
      if i < |pending| {
        assert pending'[i] == pending[i];
      }
    }
    LandKeepsLog(lines, m, m', t, pushed, log);
    LandKeepsSources(lines, m, m', t, pushed);
  }

  /** A landing beam keeps every split splitter Spent with both beams
      landed. */
  lemma LandKeepsLog(lines: seq<seq<char>>, m: NodeMap, m': NodeMap, t: Coord, pushed: seq<Coord>, log: seq<Coord>)
    requires Lands(m, m', t, pushed)
    requires forall i :: 0 <= i < |log| ==> log[i] in m && m[log[i]].state == Spent && Swept(lines, m, log[i])
    ensures forall i :: 0 <= i < |log| ==> log[i] in m' && m'[log[i]].state == Spent && Swept(lines, m', log[i])
  {
    forall i | 0 <= i < |log|
      ensures log[i] in m' && m'[log[i]].state == Spent && Swept(lines, m', log[i])
    {
      assert Swept(lines, m, log[i]);
    }
  }

  /** A landing beam leaves every source marker Energized. */
  lemma LandKeepsSources(lines: seq<seq<char>>, m: NodeMap, m': NodeMap, t: Coord, pushed: seq<Coord>)
    requires Lands(m, m', t, pushed)
    requires forall q :: q in m && IsSource(lines, q) ==> m[q].state == Energized
    ensures forall q :: q in m' && IsSource(lines, q) ==> m'[q].state == Energized
  {
  }

  /** Firing the source beam keeps the round's bookkeeping. */
  lemma SourceFireKeepsBooked(lines: seq<seq<char>>, s: Coord, reached: set<Coord>, m: NodeMap, log: seq<Coord>, pending: seq<Coord>, fired: bool)
    requires IsSource(lines, s) && Shaped(lines, m) && Region(lines, s, reached) && Booked(lines, s, reached, m, log, pending, fired)
    ensures SourceTarget(lines, s) in m
    ensures var r := Land(m, s, SourceTarget(lines, s));
      Shaped(lines, r.0) && Booked(lines, s, reached, r.0, log, pending + r.1, true)
  {
    var t := SourceTarget(lines, s);
    var r := Land(m, s, t);
    LandLands(m, s, t);
    BookedAfterSourceFire(lines, s, reached, m, r.0, t, log, pending, r.1, fired);
  }

  /** The beam of the source lands on `t`, which takes the source as a parent
      (or, from row 0, one path); every other node is as it was. */
  lemma WiredAfterSourceFire(lines: seq<seq<char>>, s: Coord, m: NodeMap, m': NodeMap, t: Coord, log: seq<Coord>)
    requires s.0 < |lines| && t == SourceTarget(lines, s) && t in m && m' == m[t := Fed(m[t], s)]
    requires s !in log && Wired(lines, s, m, log, false)
    ensures Wired(lines, s, m', log, true)
  {
    forall q | q in m'
      ensures Distinct(m'[q].parents)
      ensures forall p :: p in m'[q].parents <==> Feeds(lines, s, log, true, p, q)
      ensures m'[q].pathsToGetHere == Seed(lines, s, true, q)
    {
      if q == t {
        assert !Feeds(lines, s, log, false, s, q);
      } else {
        assert m'[q] == m[q];
      }
    }
  }

  /** Firing the source beam, the first time, keeps the dependency graph. */
  lemma SourceFireKeepsWired(lines: seq<seq<char>>, s: Coord, reached: set<Coord>, m: NodeMap, log: seq<Coord>, pending: seq<Coord>)
    requires IsSource(lines, s) && Shaped(lines, m) && Region(lines, s, reached)
    requires Booked(lines, s, reached, m, log, pending, false) && Wired(lines, s, m, log, false)
    ensures SourceTarget(lines, s) in m
    ensures Wired(lines, s, Land(m, s, SourceTarget(lines, s)).0, log, true)
  {
    assert forall i :: 0 <= i < |log| ==> IsSplitter(lines, log[i]);
    assert !IsSplitter(lines, s);
    assert s !in log;
    WiredAfterSourceFire(lines, s, m, Land(m, s, SourceTarget(lines, s)).0, SourceTarget(lines, s), log);
  }

  /** The first step of a round keeps the round's progress and dependency
      graph exact: the source beam lands, and what it energizes is queued. */
  lemma SourceFired(lines: seq<seq<char>>, s: Coord, reached: set<Coord>, m: NodeMap, log: seq<Coord>, pending: seq<Coord>)
    requires IsSource(lines, s) && Shaped(lines, m) && Region(lines, s, reached)
    requires Booked(lines, s, reached, m, log, pending, false) && Wired(lines, s, m, log, false)
    ensures SourceTarget(lines, s) in m
    ensures var r := Land(m, s, SourceTarget(lines, s));
      Shaped(lines, r.0) && Booked(lines, s, reached, r.0, log, pending + r.1, true) && Wired(lines, s, r.0, log, true)
  {
    SourceFireKeepsBooked(lines, s, reached, m, log, pending, false);
    SourceFireKeepsWired(lines, s, reached, m, log, pending);
  }

  /** Once the source beam is fired and nothing waits, the splitters in the
      log are closed under propagation. */
  lemma LogClosed(lines: seq<seq<char>>, s: Coord, reached: set<Coord>, m: NodeMap, log: seq<Coord>)
    requires s.0 < |lines| && Shaped(lines, m) && Booked(lines, s, reached, m, log, [], true)
    ensures Closed(lines, s, set q | q in log)
  {
    var c := set q | q in log;
    var t := SourceTarget(lines, s);
    if IsSplitter(lines, t) {
      assert Landed(m, t);
    }
    forall p, q | p in c && IsSplitter(lines, q) && Fires(lines, p, q) ensures q in c {
      var i :| 0 <= i < |log| && log[i] == p;
      assert Swept(lines, m, p);
      FiresOnTargets(lines, p, q);
    }
  }

  /** The splits recorded so far never outnumber the reached splitters. */
  lemma LogBound(lines: seq<seq<char>>, s: Coord, reached: set<Coord>, m: NodeMap, log: seq<Coord>, pending: seq<Coord>, fired: bool)
    requires s.0 < |lines| && Booked(lines, s, reached, m, log, pending, fired)
    ensures |log| <= |reached|
  {
    DistinctElementsCard(log);
    SubsetCard((set q | q in log), reached);
  }

  /** Once the source beam is fired and nothing waits, the log holds exactly
      the splitters propagation reaches, each once. */
  lemma RoundComplete(lines: seq<seq<char>>, s: Coord, reached: set<Coord>, m: NodeMap, log: seq<Coord>)
    requires s.0 < |lines| && Shaped(lines, m) && reached == Reach(lines, s)
    requires Booked(lines, s, reached, m, log, [], true)
    ensures (set q | q in log) == Reach(lines, s)
    ensures |log| == |Reach(lines, s)|
  {
    LogClosed(lines, s, reached, m, log);
    ReachLeast(lines, s, set q | q in log);
    DistinctElementsCard(log);
  }

  /** Executing an Energized node keeps the snapshot's shape. */
  lemma ExecuteKeepsShape(lines: seq<seq<char>>, m: NodeMap, o: Coord)
    requires Shaped(lines, m) && o in m && m[o].state == Energized
    ensures Shaped(lines, m[o := m[o].(state := Spent)])
  {
  }

  /** A landing beam keeps the snapshot's shape. */
  lemma LandKeepsShape(lines: seq<seq<char>>, m: NodeMap, parent: Coord, t: Coord)
    requires Shaped(lines, m) && t in m
    ensures Shaped(lines, Land(m, parent, t).0)
  {
    var m' := Land(m, parent, t).0;
    assert forall q :: q in m && q != t ==> m'[q] == m[q];
  }
}

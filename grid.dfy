/**
  The input layout of the manifold: rows of text, `S` marking the source and
  `^` marking a splitter, and the geometry a downward beam follows over it.
  Row `|lines|` is the virtual collector row that the engine appends below
  the last text row; every column has a node there.
 */
module Grid {

  datatype Option<T> = None | Some(value: T)

  /** (row, column); rows grow downward, columns to the right. */
  type Coord = (nat, nat)

  /** Characters that become a node of the engine's grid. */
  predicate IsNodeChar(ch: char) {
    ch == 'S' || ch == '^'
  }

  /** The width of the grid is the length of the first row. */
  function Width(lines: seq<seq<char>>): nat
    requires |lines| > 0
  {
    |lines[0]|
  }

  /** At least one row, and no row shorter than the first (the Rust code indexes
      every row up to the first row's length). */
  predicate WellFormed(lines: seq<seq<char>>) {
    |lines| > 0 && forall r :: 0 <= r < |lines| ==> |lines[r]| >= |lines[0]|
  }

  /** Is there a node at (r, c)?  Every cell of the collector row holds one. */
  predicate HasNode(lines: seq<seq<char>>, r: nat, c: nat) {
    r == |lines| || (r < |lines| && c < |lines[r]| && IsNodeChar(lines[r][c]))
  }

  /** The row of the first node strictly below row `r` in column `c`: where a
      beam fired down that column from row `r` stops.  It always exists,
      because the collector row lies below every text row. */
  function FirstBelow(lines: seq<seq<char>>, r: nat, c: nat): (h: nat)
    requires r < |lines|
    ensures r < h <= |lines| && HasNode(lines, h, c)
    ensures forall k :: r < k < h ==> !HasNode(lines, k, c)
    decreases |lines| - r
  {
    if HasNode(lines, r + 1, c) then r + 1 else FirstBelow(lines, r + 1, c)
  }

  /** A text cell holding a splitter. */
  predicate IsSplitter(lines: seq<seq<char>>, q: Coord) {
    |lines| > 0 && q.0 < |lines| && q.1 < |lines[0]| && q.1 < |lines[q.0]| && lines[q.0][q.1] == '^'
  }

  /** A text cell holding a source marker. */
  predicate IsSource(lines: seq<seq<char>>, q: Coord) {
    |lines| > 0 && q.0 < |lines| && q.1 < |lines[0]| && q.1 < |lines[q.0]| && lines[q.0][q.1] == 'S'
  }

  /** All splitter cells. */
  function Splitters(lines: seq<seq<char>>): (s: set<Coord>)
    ensures forall q :: q in s <==> IsSplitter(lines, q)
  {
    SplittersAbove(lines, |lines|)
  }

  /** The splitter cells in the rows above row `k`. */
  function SplittersAbove(lines: seq<seq<char>>, k: nat): (s: set<Coord>)
    requires k <= |lines|
    ensures forall q :: q in s <==> q.0 < k && IsSplitter(lines, q)
  {
    if k == 0 then {} else SplittersAbove(lines, k - 1) + SplittersInRow(lines, k - 1, |lines[0]|)
  }

  /** The splitter cells in row `r`, left of column `n`. */
  function SplittersInRow(lines: seq<seq<char>>, r: nat, n: nat): (s: set<Coord>)
    ensures forall q :: q in s <==> q.0 == r && q.1 < n && IsSplitter(lines, q)
  {
    if n == 0 then {}
    else SplittersInRow(lines, r, n - 1) + (if IsSplitter(lines, (r, n - 1)) then {(r, n - 1)} else {})
  }

  /** No coordinate occurs twice. */
  predicate Distinct(s: seq<Coord>) {
    forall i, j :: 0 <= i < j < |s| ==> s[i] != s[j]
  }

  /** Row-major order of cells: (a.0, a.1) comes no later than (b.0, b.1). */
  predicate NoLater(a: Coord, b: Coord) {
    a.0 < b.0 || (a.0 == b.0 && a.1 <= b.1)
  }

  /** q comes strictly before (row, col) in row-major order. */
  predicate Before(q: Coord, row: nat, col: nat) {
    q.0 < row || (q.0 == row && q.1 < col)
  }

  /** `s` is the last source marker in row-major order within the grid width. */
  ghost predicate IsLastSource(lines: seq<seq<char>>, s: Coord) {
    IsSource(lines, s) && forall q :: IsSource(lines, q) ==> NoLater(q, s)
  }

  /** The last index below `n` in `row` that holds a source marker. */
  function LastSourceInRow(row: seq<char>, n: nat): (k: Option<nat>)
    requires n <= |row|
    ensures k.Some? ==> k.value < n && row[k.value] == 'S'
    ensures k.Some? ==> forall j :: k.value < j < n ==> row[j] != 'S'
    ensures k.None? ==> forall j :: 0 <= j < n ==> row[j] != 'S'
  {
    if n == 0 then None
    else if row[n - 1] == 'S' then Some(n - 1)
    else LastSourceInRow(row, n - 1)
  }

  /** The last source marker among the first `m` rows, in row-major order. */
  function LastSourceAbove(lines: seq<seq<char>>, m: nat): (s: Option<Coord>)
    requires WellFormed(lines) && m <= |lines|
    ensures s.Some? ==> s.value.0 < m && IsLastSource(lines[..m], s.value)
    ensures s.None? ==> forall q: Coord :: q.0 < m ==> !IsSource(lines, q)
  {
    if m == 0 then None
    else match LastSourceInRow(lines[m - 1], Width(lines))
      case Some(c) => Some((m - 1, c))
      case None =>
        var s := LastSourceAbove(lines, m - 1);
        if s.Some? then
          assert forall q: Coord :: IsSource(lines[..m], q) ==> q.0 < m - 1 ==> IsSource(lines[..m - 1], q);
          Some(s.value)
        else None
  }

  /** The source the engine starts from: the last `S` of the grid. */
  function LastSource(lines: seq<seq<char>>): (s: Option<Coord>)
    requires WellFormed(lines)
    ensures s.Some? <==> exists q :: IsSource(lines, q)
    ensures s.Some? ==> IsLastSource(lines, s.value)
  {
    var s := LastSourceAbove(lines, |lines|);
    assert lines[..|lines|] == lines;
    s
  }

  /** Two cells that are both the last source marker are the same cell. */
  lemma LastSourceUnique(lines: seq<seq<char>>, s: Coord, t: Coord)
    requires IsLastSource(lines, s) && IsLastSource(lines, t)
    ensures s == t
  {
  }

  /** Where the beam from the source `s` first stops: the first node below
      it in its own column. */
  function SourceTarget(lines: seq<seq<char>>, s: Coord): (t: Coord)
    requires s.0 < |lines|
    ensures t.1 == s.1 && s.0 < t.0 <= |lines| && HasNode(lines, t.0, t.1)
  {
    (FirstBelow(lines, s.0, s.1), s.1)
  }

  /** A split at `p` sends a beam down a neighbour column of `p`, starting
      below `p`'s row, and that beam stops at node `q`. */
  predicate Fires(lines: seq<seq<char>>, p: Coord, q: Coord) {
    p.0 < |lines| && (q.1 + 1 == p.1 || q.1 == p.1 + 1) && q.0 == FirstBelow(lines, p.0, q.1)
  }
}

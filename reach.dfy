/**
  Which splitters a round of propagation splits, stated on the input alone:
  the least set of splitters that holds the source beam's first stop and
  everything a split from one of its members lands on.
 */
module Propagation {
  import opened Grid

  /** `c` is closed under propagation from the source `s`: the source beam's
      first stop, when it is a splitter, is in `c`, and so is every splitter
      that a split from a member of `c` lands on. */
  ghost predicate Closed(lines: seq<seq<char>>, s: Coord, c: set<Coord>)
    requires s.0 < |lines|
  {
    && (IsSplitter(lines, SourceTarget(lines, s)) ==> SourceTarget(lines, s) in c)
    && forall p, q :: p in c && IsSplitter(lines, q) && Fires(lines, p, q) ==> q in c
  }

  /** One more round of propagation added to the splitters `r` reached so far. */
  ghost function Step(lines: seq<seq<char>>, s: Coord, r: set<Coord>): (r': set<Coord>)
    requires s.0 < |lines|
    ensures r <= r'
    ensures forall q :: q in r' - r ==> IsSplitter(lines, q)
  {
    r + set q | q in Splitters(lines) && (q == SourceTarget(lines, s) || exists p :: p in r && Fires(lines, p, q))
  }

  lemma StrictSubsetCard(a: set<Coord>, b: set<Coord>)
    requires a < b
    ensures |a| < |b|
  {
    var d := b - a;
    assert exists x :: x in b && x !in a;
    var x :| x in b && x !in a;
    assert x in d;
    assert b == a + d && a !! d;
    assert |b| == |a| + |d|;
  }

  lemma SubsetCard(a: set<Coord>, b: set<Coord>)
    requires a <= b
    ensures |a| <= |b|
  {
    assert b == a + (b - a) && a !! (b - a);
  }

  /** A list without repetitions has as many elements as the set of them. */
  lemma {:induction false} DistinctElementsCard(s: seq<Coord>)
    requires Distinct(s)
    ensures |(set q | q in s)| == |s|
  {
    if s != [] {
      var init := s[..|s| - 1];
      DistinctElementsCard(init);
      assert (set q | q in s) == (set q | q in init) + {s[|s| - 1]};
    }
  }

  /** Propagation repeated from `r` until nothing new is reached. */
  ghost function ReachFrom(lines: seq<seq<char>>, s: Coord, r: set<Coord>): (res: set<Coord>)
    requires s.0 < |lines|
    requires r <= Splitters(lines)
    ensures r <= res <= Splitters(lines)
    ensures Closed(lines, s, res)
    decreases |Splitters(lines) - r|
  {
    var r' := Step(lines, s, r);
    if r' == r then r
    else
      StrictSubsetCard(Splitters(lines) - r', Splitters(lines) - r);
      ReachFrom(lines, s, r')
  }

  /** The splitters that a round started from the source `s` splits. */
  ghost function Reach(lines: seq<seq<char>>, s: Coord): (res: set<Coord>)
    requires s.0 < |lines|
    ensures res <= Splitters(lines) && Closed(lines, s, res)
  {
    ReachFrom(lines, s, {})
  }

  /** Iterating from inside a closed set never leaves it. */
  lemma {:induction false} ReachFromLeast(lines: seq<seq<char>>, s: Coord, r: set<Coord>, c: set<Coord>)
    requires s.0 < |lines| && r <= Splitters(lines)
    requires r <= c && Closed(lines, s, c)
    ensures ReachFrom(lines, s, r) <= c
    decreases |Splitters(lines) - r|
  {
    var r' := Step(lines, s, r);
    assert r' <= c;
    if r' != r {
      StrictSubsetCard(Splitters(lines) - r', Splitters(lines) - r);
      ReachFromLeast(lines, s, r', c);
    }
  }

  /** `Reach` is the least closed set: it lies inside every closed set. */
  lemma ReachLeast(lines: seq<seq<char>>, s: Coord, c: set<Coord>)
    requires s.0 < |lines| && Closed(lines, s, c)
    ensures Reach(lines, s) <= c
  {
    ReachFromLeast(lines, s, {}, c);
  }

  /** Every reached splitter lies strictly below the source. */
  lemma ReachBelowSource(lines: seq<seq<char>>, s: Coord)
    requires s.0 < |lines|
    ensures forall q :: q in Reach(lines, s) ==> q.0 > s.0
  {
    var all := Reach(lines, s);
    var below := set q | q in all && q.0 > s.0;
    assert Closed(lines, s, below) by {
      forall p, q | p in below && IsSplitter(lines, q) && Fires(lines, p, q)
        ensures q in below
      {
        assert q in all;
      }
    }
    ReachLeast(lines, s, below);
  }

  /** A round never splits more splitters than the grid holds. */
  lemma ReachBound(lines: seq<seq<char>>, s: Coord)
    requires s.0 < |lines|
    ensures |Reach(lines, s)| <= |Splitters(lines)|
  {
    SubsetCard(Reach(lines, s), Splitters(lines));
  }

  /** Every splitter the round from `s` reaches has a column on either side,
      so neither of its beams leaves the grid sideways. */
  ghost predicate EdgeSafe(lines: seq<seq<char>>, s: Coord)
    requires s.0 < |lines|
  {
    forall q :: q in Reach(lines, s) ==> 0 < q.1 && q.1 + 1 < |lines[0]|
  }

  /** `c` is closed under propagation from `s` and holds only splitters
      strictly below `s` with a column on either side: what the round's
      bookkeeping needs to know of the set of reached splitters. */
  ghost predicate Region(lines: seq<seq<char>>, s: Coord, c: set<Coord>)
    requires s.0 < |lines|
  {
    && Closed(lines, s, c)
    && forall q :: q in c ==> IsSplitter(lines, q) && q.0 > s.0 && 0 < q.1 && q.1 + 1 < |lines[0]|
  }

  /** When no reached splitter sits on the grid's edge, the reached splitters
      form such a region. */
  lemma ReachRegion(lines: seq<seq<char>>, s: Coord)
    requires s.0 < |lines| && EdgeSafe(lines, s)
    ensures Region(lines, s, Reach(lines, s))
  {
    ReachBelowSource(lines, s);
  }
}

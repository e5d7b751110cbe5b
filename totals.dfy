/**
  Sums of a count over a list of coordinates, and when two lists give the
  same sum.  Path counts are such sums: a node adds up the counts of its
  parents, and the number of routes into a node adds up the routes through
  the cells that can feed it.
 */
module Totals {
  import opened Grid

  /** The sum of `f` over the entries of `xs`, in order. */
  function Total(xs: seq<Coord>, f: Coord -> nat): (t: nat)
    ensures xs == [] ==> t == 0
  {
    if xs == [] then 0 else Total(xs[..|xs| - 1], f) + f(xs[|xs| - 1])
  }

  /** The sum over a concatenation is the sum of the sums. */
  lemma {:induction false} TotalAppend(xs: seq<Coord>, ys: seq<Coord>, f: Coord -> nat)
    ensures Total(xs + ys, f) == Total(xs, f) + Total(ys, f)
    decreases |ys|
  {
    if ys == [] {
      assert xs + ys == xs;
    } else {
      var init := ys[..|ys| - 1];
      assert (xs + ys)[..|xs + ys| - 1] == xs + init;
      TotalAppend(xs, init, f);
    }
  }

  /** The sum over one entry is its value. */
  lemma TotalOne(x: Coord, f: Coord -> nat)
    ensures Total([x], f) == f(x)
  {
    assert [x][..0] == [];
  }

  /** A sum of values that add up entry by entry is the sum of the sums. */
  lemma {:induction false} TotalSplit(xs: seq<Coord>, f: Coord -> nat, g: Coord -> nat, h: Coord -> nat)
    requires forall x :: x in xs ==> h(x) == f(x) + g(x)
    ensures Total(xs, h) == Total(xs, f) + Total(xs, g)
  {
    if xs != [] {
      var init := xs[..|xs| - 1];
      assert forall x :: x in init ==> x in xs;
      TotalSplit(init, f, g, h);
    }
  }

  /** Entries on which `f` is zero add nothing. */
  lemma {:induction false} TotalZero(xs: seq<Coord>, f: Coord -> nat)
    requires forall x :: x in xs ==> f(x) == 0
    ensures Total(xs, f) == 0
  {
    if xs != [] {
      var init := xs[..|xs| - 1];
      assert forall x :: x in init ==> x in xs;
      TotalZero(init, f);
    }
  }

  /** Taking the entry at `i` out of a list takes its value out of the sum. */
  lemma TotalRemove(xs: seq<Coord>, i: nat, f: Coord -> nat)
    requires i < |xs|
    ensures Total(xs, f) == Total(xs[..i] + xs[i + 1..], f) + f(xs[i])
  {
    assert xs == xs[..i] + ([xs[i]] + xs[i + 1..]);
    TotalAppend(xs[..i], [xs[i]] + xs[i + 1..], f);
    TotalAppend([xs[i]], xs[i + 1..], f);
    TotalAppend(xs[..i], xs[i + 1..], f);
  }

  /** A sum where only `a` can count is the value at `a`, once, if `a` is listed. */
  lemma {:induction false} TotalSingle(xs: seq<Coord>, f: Coord -> nat, a: Coord)
    requires Distinct(xs)
    requires forall x :: x in xs && x != a ==> f(x) == 0
    ensures Total(xs, f) == if a in xs then f(a) else 0
  {
    if a in xs {
      var i :| 0 <= i < |xs| && xs[i] == a;
      TotalRemove(xs, i, f);
      var rest := xs[..i] + xs[i + 1..];
      forall x | x in rest ensures f(x) == 0 {
        var j :| 0 <= j < |rest| && rest[j] == x;
        if j < i {
          assert x == xs[j];
        } else {
          assert x == xs[j + 1];
        }
      }
      TotalZero(rest, f);
    } else {
      TotalZero(xs, f);
    }
  }

  /** Taking the entry at `i` out of a list without repetitions leaves a
      list without repetitions that holds every other entry. */
  lemma RemoveAt(b: seq<Coord>, i: nat)
    requires Distinct(b) && i < |b|
    ensures Distinct(b[..i] + b[i + 1..])
    ensures forall x :: x in b[..i] + b[i + 1..] <==> x in b && x != b[i]
  {
    var rest := b[..i] + b[i + 1..];
    forall x ensures x in rest <==> x in b && x != b[i] {
      if x in rest {
        var j :| 0 <= j < |rest| && rest[j] == x;
        if j < i { assert b[j] == x; } else { assert b[j + 1] == x; }
      }
      if x in b && x != b[i] {
        var j :| 0 <= j < |b| && b[j] == x;
        if j < i { assert rest[j] == x; } else { assert rest[j - 1] == x; }
      }
    }
    forall j, k | 0 <= j < k < |rest| ensures rest[j] != rest[k] {
      var j' := if j < i then j else j + 1;
      var k' := if k < i then k else k + 1;
      assert rest[j] == b[j'] && rest[k] == b[k'];
    }
  }

  /** Two lists without repetitions that hold the same entries on which `f`
      is not zero have the same sum, whatever their order. */
  lemma {:induction false} TotalSame(a: seq<Coord>, b: seq<Coord>, f: Coord -> nat)
    requires Distinct(a) && Distinct(b)
    requires forall x :: f(x) != 0 ==> (x in a <==> x in b)
    ensures Total(a, f) == Total(b, f)
    decreases |a|
  {
    if a == [] {
      TotalZero(b, f);
    } else {
      var last, init := a[|a| - 1], a[..|a| - 1];
      assert forall x :: x in a <==> x in init || x == last;
      assert last !in init;
      if f(last) == 0 {
        TotalSame(init, b, f);
      } else {
        var i :| 0 <= i < |b| && b[i] == last;
        TotalRemove(b, i, f);
        RemoveAt(b, i);
        TotalSame(init, b[..i] + b[i + 1..], f);
      }
    }
  }
}

/** Adding up the multisets that the elements of a sequence hold. */
module Bags {

  function Gather<X, T>(xs: seq<X>, f: X -> multiset<T>): multiset<T> {
    if xs == [] then multiset{} else f(xs[0]) + Gather(xs[1..], f)
  }

  lemma GatherFirst<X, T>(xs: seq<X>, f: X -> multiset<T>)
    requires xs != []
    ensures Gather(xs, f) == f(xs[0]) + Gather(xs[1..], f)
  {
  }

  /** Replacing one element replaces what it holds. */
  lemma {:induction false} GatherUpdate<X, T>(xs: seq<X>, f: X -> multiset<T>, i: nat, x: X)
    requires i < |xs|
    ensures Gather(xs[i := x], f) + f(xs[i]) == Gather(xs, f) + f(x)
    decreases |xs|
  {
    hide Gather;
    var rest := xs[1..];
    GatherFirst(xs, f);
    GatherFirst(xs[i := x], f);
    if i == 0 {
      assert xs[i := x][1..] == rest;
    } else {
      assert xs[i := x][1..] == rest[i - 1 := x];
      GatherUpdate(rest, f, i - 1, x);
      Regroup(f(xs[0]), Gather(rest[i - 1 := x], f), f(xs[i]), Gather(rest, f), f(x));
    }
  }

  lemma Regroup<T>(a: multiset<T>, b: multiset<T>, c: multiset<T>, d: multiset<T>, e: multiset<T>)
    requires b + c == d + e
    ensures (a + b) + c == (a + d) + e
  {
    assert (a + b) + c == a + (b + c);
    assert (a + d) + e == a + (d + e);
  }

  lemma {:induction false} GatherSnoc<X, T>(xs: seq<X>, f: X -> multiset<T>, x: X)
    ensures Gather(xs + [x], f) == Gather(xs, f) + f(x)
    decreases |xs|
  {
    if xs == [] {
      assert xs + [x] == [x];
    } else {
      assert (xs + [x])[1..] == xs[1..] + [x];
      GatherSnoc(xs[1..], f, x);
    }
  }

  /** Sequences whose elements hold the same, one by one, hold the same together. */
  lemma {:induction false} GatherAgree<X, T>(xs: seq<X>, ys: seq<X>, f: X -> multiset<T>, g: X -> multiset<T>)
    requires |xs| == |ys| && forall i :: 0 <= i < |xs| ==> f(xs[i]) == g(ys[i])
    ensures Gather(xs, f) == Gather(ys, g)
    decreases |xs|
  {
    if xs != [] { GatherAgree(xs[1..], ys[1..], f, g); }
  }

  /** A sequence holds an element when one of its members does. */
  lemma {:induction false} GatherHolds<X, T>(xs: seq<X>, f: X -> multiset<T>, t: T)
    ensures t in Gather(xs, f) <==> exists i :: 0 <= i < |xs| && t in f(xs[i])
    decreases |xs|
  {
    if xs != [] {
      GatherHolds(xs[1..], f, t);
      if i :| 0 <= i < |xs| && t in f(xs[i]) { assert i > 0 ==> xs[1..][i - 1] == xs[i]; }
      if i :| 0 <= i < |xs[1..]| && t in f(xs[1..][i]) { assert xs[i + 1] == xs[1..][i]; }
    }
  }

  lemma GatherNothing<X, T>(xs: seq<X>, f: X -> multiset<T>)
    requires forall i :: 0 <= i < |xs| ==> f(xs[i]) == multiset{}
    ensures Gather(xs, f) == multiset{}
  {
    forall t ensures t !in Gather(xs, f) { GatherHolds(xs, f, t); }
  }

  /** Each element holds one part as f and the other as g. */
  lemma {:induction false} GatherSplit<X, T>(xs: seq<X>, f: X -> multiset<T>, g: X -> multiset<T>, h: X -> multiset<T>)
    requires forall i :: 0 <= i < |xs| ==> h(xs[i]) == f(xs[i]) + g(xs[i])
    ensures Gather(xs, h) == Gather(xs, f) + Gather(xs, g)
    decreases |xs|
  {
    if xs != [] {
      GatherSplit(xs[1..], f, g, h);
      var f0, g0, fs, gs := f(xs[0]), g(xs[0]), Gather(xs[1..], f), Gather(xs[1..], g);
      assert (f0 + g0) + (fs + gs) == (f0 + fs) + (g0 + gs);
    }
  }
}

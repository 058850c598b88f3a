/** Account names in ascending order, the order in which the by-account
    index and a `std::set<name>` are walked. */
module NameOrder {
  import opened Chain

  predicate Ascending(xs: seq<Name>)
  {
    forall i, j | 0 <= i < j < |xs| :: xs[i] < xs[j]
  }

  /** The least name of a non-empty set. */
  ghost function Least(s: set<Name>): (m: Name)
    requires s != {}
    ensures m in s && forall x | x in s :: m <= x
  {
    var x :| x in s;
    if s == {x} then
      x
    else
      var y := Least(s - {x});
      assert forall z | z in s :: z == x || z in s - {x};
      if x <= y then x else y
  }

  /** The names of `s`, each once, in ascending order. */
  ghost function Sorted(s: set<Name>): (xs: seq<Name>)
    ensures Ascending(xs)
    ensures forall x :: x in xs <==> x in s
    ensures |xs| == |s|
    decreases s
  {
    if s == {} then []
    else
      var m := Least(s);
      [m] + Sorted(s - {m})
  }

  /** Two ascending sequences with the same elements are equal: the order of
      a set's walk is determined by the set alone. */
  lemma {:induction false} AscendingUnique(xs: seq<Name>, ys: seq<Name>)
    requires Ascending(xs) && Ascending(ys)
    requires forall x :: x in xs <==> x in ys
    ensures xs == ys
  {
    if xs == [] {
      assert forall i | 0 <= i < |ys| :: ys[i] in xs;
      assert |ys| == 0;
    } else {
      assert ys != [] by { assert xs[0] in ys; }
      assert xs[0] == ys[0] by {
        assert xs[0] in ys;
        assert ys[0] in xs;
      }
      forall x
        ensures x in xs[1..] <==> x in ys[1..]
      {
        if x in xs[1..] {
          assert x in ys;
          assert x != ys[0];
        }
        if x in ys[1..] {
          assert x in xs;
          assert x != xs[0];
        }
      }
      AscendingUnique(xs[1..], ys[1..]);
    }
  }
}

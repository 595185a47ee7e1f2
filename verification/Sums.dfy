/**
 Sums of a measure over a sequence, with one rule for changing one element. The runtimes of
 this project own every coroutine handle and every job exactly once; that is stated by adding
 up how often a handle occurs in each place it can be in.
 */
module Sums {

  function Sum<A>(f: A -> nat, xs: seq<A>): nat {
    if xs == [] then 0 else f(xs[0]) + Sum(f, xs[1..])
  }

  /** Replacing one element changes the sum by the difference. */
  lemma {:induction false} SumUpdate<A>(f: A -> nat, xs: seq<A>, i: nat, x: A)
    requires i < |xs|
    ensures Sum(f, xs[i := x]) + f(xs[i]) == Sum(f, xs) + f(x)
  {
    if i == 0 {
      assert xs[0 := x][1..] == xs[1..];
    } else {
      assert xs[i := x][1..] == xs[1..][i - 1 := x];
      SumUpdate(f, xs[1..], i - 1, x);
    }
  }

  lemma {:induction false} SumAppend<A>(f: A -> nat, xs: seq<A>, x: A)
    ensures Sum(f, xs + [x]) == Sum(f, xs) + f(x)
  {
    if xs == [] {
      assert xs + [x] == [x];
    } else {
      assert (xs + [x])[1..] == xs[1..] + [x];
      SumAppend(f, xs[1..], x);
    }
  }

  /** Every element counts. */
  lemma {:induction false} SumHas<A>(f: A -> nat, xs: seq<A>, i: nat)
    requires i < |xs|
    ensures f(xs[i]) <= Sum(f, xs)
  {
    if i != 0 {
      SumHas(f, xs[1..], i - 1);
    }
  }

  /** Two different elements count separately. */
  lemma {:induction false} SumHasTwo<A>(f: A -> nat, xs: seq<A>, i: nat, j: nat)
    requires i < |xs| && j < |xs| && i != j
    ensures f(xs[i]) + f(xs[j]) <= Sum(f, xs)
  {
    if i == 0 {
      SumHas(f, xs[1..], j - 1);
    } else if j == 0 {
      SumHas(f, xs[1..], i - 1);
    } else {
      SumHasTwo(f, xs[1..], i - 1, j - 1);
    }
  }

  /** A positive sum has a positive element. */
  lemma {:induction false} SumWitness<A>(f: A -> nat, xs: seq<A>) returns (i: nat)
    requires Sum(f, xs) > 0
    ensures i < |xs| && f(xs[i]) > 0
  {
    if f(xs[0]) > 0 {
      i := 0;
    } else {
      var k := SumWitness(f, xs[1..]);
      i := k + 1;
    }
  }

  lemma {:induction false} SumZero<A>(f: A -> nat, xs: seq<A>)
    requires forall i :: 0 <= i < |xs| ==> f(xs[i]) == 0
    ensures Sum(f, xs) == 0
  {
    if xs != [] {
      SumZero(f, xs[1..]);
    }
  }

  /** Taking one element out. */
  lemma {:induction false} SumRemove<A>(f: A -> nat, xs: seq<A>, i: nat)
    requires i < |xs|
    ensures Sum(f, xs) == Sum(f, xs[..i] + xs[i + 1..]) + f(xs[i])
  {
    if i == 0 {
      assert xs[..0] + xs[1..] == xs[1..];
    } else {
      assert (xs[..i] + xs[i + 1..])[1..] == xs[1..][..i - 1] + xs[1..][i..];
      SumRemove(f, xs[1..], i - 1);
    }
  }

  /** A zero sum has only zero elements. */
  lemma SumNone<A>(f: A -> nat, xs: seq<A>)
    requires Sum(f, xs) == 0
    ensures forall i :: 0 <= i < |xs| ==> f(xs[i]) == 0
  {
    forall i | 0 <= i < |xs| ensures f(xs[i]) == 0 {
      SumHas(f, xs, i);
    }
  }

  /** An element counts in the multiset of a sequence, and twice if it is there twice. */
  lemma OneSlot<A>(xs: seq<A>, i: nat, x: A)
    requires i < |xs| && xs[i] == x
    ensures multiset(xs)[x] >= 1
    ensures forall j :: 0 <= j < |xs| && j != i && xs[j] == x ==> multiset(xs)[x] >= 2
  {
    assert xs == xs[..i] + [x] + xs[i + 1..];
    forall j | 0 <= j < |xs| && j != i && xs[j] == x ensures multiset(xs)[x] >= 2 {
      if j < i {
        assert xs[..i][j] == x;
      } else {
        assert xs[i + 1..][j - i - 1] == x;
      }
    }
  }
}

/** Finite sums over sets of keys, independent of the order in which a map is walked. */
module Sums {

  ghost function Sum(S: set<nat>, f: nat -> int): int
    decreases S
  {
    if S == {} then 0 else
      var x :| x in S;
      f(x) + Sum(S - {x}, f)
  }

  lemma {:induction false} SumRemove(S: set<nat>, f: nat -> int, x: nat)
    requires x in S
    ensures Sum(S, f) == f(x) + Sum(S - {x}, f)
    decreases S
  {
    var y :| y in S && Sum(S, f) == f(y) + Sum(S - {y}, f);
    if y != x {
      SumRemove(S - {y}, f, x);
      SumRemove(S - {x}, f, y);
      assert S - {y} - {x} == S - {x} - {y};
    }
  }

  lemma {:induction false} SumSame(S: set<nat>, f: nat -> int, g: nat -> int)
    requires forall x :: x in S ==> f(x) == g(x)
    ensures Sum(S, f) == Sum(S, g)
    decreases S
  {
    if S != {} {
      var x :| x in S;
      SumRemove(S, f, x);
      SumRemove(S, g, x);
      SumSame(S - {x}, f, g);
    }
  }

  lemma {:induction false} SumAtMost(S: set<nat>, f: nat -> int, g: nat -> int)
    requires forall x :: x in S ==> f(x) <= g(x)
    ensures Sum(S, f) <= Sum(S, g)
    decreases S
  {
    if S != {} {
      var x :| x in S;
      SumRemove(S, f, x);
      SumRemove(S, g, x);
      SumAtMost(S - {x}, f, g);
    }
  }

  lemma {:induction false} SumEqualIff(S: set<nat>, f: nat -> int, g: nat -> int)
    requires forall x :: x in S ==> f(x) <= g(x)
    ensures Sum(S, f) == Sum(S, g) <==> forall x :: x in S ==> f(x) == g(x)
    decreases S
  {
    if S != {} {
      var x :| x in S;
      SumRemove(S, f, x);
      SumRemove(S, g, x);
      SumAtMost(S - {x}, f, g);
      SumEqualIff(S - {x}, f, g);
      assert forall y :: y in S <==> y == x || y in S - {x};
    }
  }

  lemma {:induction false} SumOfSum(S: set<nat>, f: nat -> int, g: nat -> int, h: nat -> int)
    requires forall x :: x in S ==> h(x) == f(x) + g(x)
    ensures Sum(S, h) == Sum(S, f) + Sum(S, g)
    decreases S
  {
    if S != {} {
      var x :| x in S;
      SumRemove(S, f, x);
      SumRemove(S, g, x);
      SumRemove(S, h, x);
      SumOfSum(S - {x}, f, g, h);
    }
  }

  /** Terms of zero or one add up to at most their number, and to nothing exactly when all are zero. */
  lemma {:induction false} SumOfUnits(S: set<nat>, f: nat -> int)
    requires forall x :: x in S ==> 0 <= f(x) <= 1
    ensures 0 <= Sum(S, f) <= |S|
    ensures Sum(S, f) == 0 <==> forall x :: x in S ==> f(x) == 0
    decreases S
  {
    if S != {} {
      var x :| x in S;
      SumRemove(S, f, x);
      SumOfUnits(S - {x}, f);
      assert |S| == |S - {x}| + 1;
      assert forall y :: y in S <==> y == x || y in S - {x};
    }
  }

  /** Keys whose term is zero do not matter. */
  lemma {:induction false} SumSubset(S: set<nat>, T: set<nat>, f: nat -> int)
    requires S <= T && forall x :: x in T - S ==> f(x) == 0
    ensures Sum(S, f) == Sum(T, f)
    decreases T
  {
    if T - S == {} {
      assert forall x :: x in T ==> x in S || x in T - S;
      assert S == T;
    } else {
      var x :| x in T - S;
      SumRemove(T, f, x);
      SumSubset(S, T - {x}, f);
    }
  }

  lemma SubsetSize<T>(a: set<T>, b: set<T>)
    requires a <= b
    ensures |a| <= |b|
  {
    assert b == a + (b - a);
  }
}

/**
 The sum of a natural-valued function over a finite set.

 It is defined as the number of units that the elements contribute, which makes it independent of
 any order in which the elements might be visited. The lemmas say how the sum behaves when an
 element is added or removed, when the set is a disjoint union, and when the function changes at
 one element; those are the steps in which the loops of the other modules proceed, one warehouse,
 order or attempt at a time.
*/
module SetSums {

  ghost function Units<T>(s: set<T>, f: T -> nat): set<(T, int)> {
    set x, i | x in s && 0 <= i < f(x) :: (x, i)
  }

  ghost function SumOver<T>(s: set<T>, f: T -> nat): nat { |Units(s, f)| }

  ghost function Block<T>(x: T, n: nat): set<(T, int)> {
    set i | 0 <= i < n :: (x, i)
  }

  lemma {:induction false} BlockSize<T>(x: T, n: nat)
    ensures |Block(x, n)| == n
  {
    if n > 0 {
      BlockSize(x, n - 1);
      assert Block(x, n) == Block(x, n - 1) + {(x, n - 1)};
    }
  }

  lemma SumEmpty<T>(f: T -> nat)
    ensures SumOver({}, f) == 0
  {
    assert Units({}, f) == {};
  }

  lemma SumUnion<T>(s: set<T>, t: set<T>, f: T -> nat)
    requires s !! t
    ensures SumOver(s + t, f) == SumOver(s, f) + SumOver(t, f)
  {
    assert Units(s + t, f) == Units(s, f) + Units(t, f);
    assert Units(s, f) !! Units(t, f);
  }

  lemma SumOne<T>(x: T, f: T -> nat)
    ensures SumOver({x}, f) == f(x)
  {
    assert Units({x}, f) == Block(x, f(x));
    BlockSize(x, f(x));
  }

  lemma SumRemove<T>(s: set<T>, f: T -> nat, x: T)
    requires x in s
    ensures SumOver(s, f) == f(x) + SumOver(s - {x}, f)
  {
    assert s == (s - {x}) + {x};
    SumUnion(s - {x}, {x}, f);
    SumOne(x, f);
  }

  lemma SumAdd<T>(s: set<T>, f: T -> nat, x: T)
    requires x !in s
    ensures SumOver(s + {x}, f) == f(x) + SumOver(s, f)
  {
    SumUnion(s, {x}, f);
    SumOne(x, f);
  }

  lemma SumAgree<T>(s: set<T>, f: T -> nat, g: T -> nat)
    requires forall x | x in s :: f(x) == g(x)
    ensures SumOver(s, f) == SumOver(s, g)
  {
    assert Units(s, f) == Units(s, g);
  }

  /** Changing the function at one element changes the sum by that difference. */
  lemma SumChange<T>(s: set<T>, f: T -> nat, g: T -> nat, x: T)
    requires x in s && forall y | y in s && y != x :: f(y) == g(y)
    ensures SumOver(s, g) == SumOver(s, f) - f(x) + g(x)
  {
    SumRemove(s, f, x);
    SumRemove(s, g, x);
    SumAgree(s - {x}, f, g);
  }

  lemma SumZero<T>(s: set<T>, f: T -> nat)
    requires forall x | x in s :: f(x) == 0
    ensures SumOver(s, f) == 0
  {
    assert Units(s, f) == {};
  }
}

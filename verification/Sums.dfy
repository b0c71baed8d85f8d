/** Finite sums over sets, used for the SQL `SUM` of a ledger, for totals over all
    accounts and for the relay's remaining-attempt budget. */
module Sums {

  ghost function Sum<T(!new)>(s: set<T>, f: T -> int): int
  {
    if s == {} then 0
    else
      var x :| x in s;
      f(x) + Sum(s - {x}, f)
  }

  lemma SubsetCount<T>(a: set<T>, b: set<T>)
    requires a <= b
    ensures |a| <= |b|
    ensures a != b ==> |a| < |b|
  {
    assert b == a + (b - a);
    assert |b| == |a| + |b - a|;
  }

  /** The sum does not depend on the order in which elements are taken. */
  lemma {:induction false} SumTake<T(!new)>(s: set<T>, f: T -> int, x: T)
    requires x in s
    ensures Sum(s, f) == f(x) + Sum(s - {x}, f)
    decreases |s|
  {
    var y :| y in s && Sum(s, f) == f(y) + Sum(s - {y}, f);
    if y != x {
      SumTake(s - {y}, f, x);
      SumTake(s - {x}, f, y);
      assert s - {y} - {x} == s - {x} - {y};
    }
  }

  lemma {:induction false} SumSame<T(!new)>(s: set<T>, f: T -> int, g: T -> int)
    requires forall x <- s :: f(x) == g(x)
    ensures Sum(s, f) == Sum(s, g)
    decreases |s|
  {
    if s != {} {
      var x :| x in s;
      SumTake(s, f, x);
      SumTake(s, g, x);
      SumSame(s - {x}, f, g);
    }
  }

  lemma {:induction false} SumZero<T(!new)>(s: set<T>, f: T -> int)
    requires forall x <- s :: f(x) == 0
    ensures Sum(s, f) == 0
    decreases |s|
  {
    if s != {} {
      var x :| x in s;
      SumTake(s, f, x);
      SumZero(s - {x}, f);
    }
  }

  /** Changing the summand at one element shifts the sum by the difference. */
  lemma SumChange<T(!new)>(s: set<T>, f: T -> int, g: T -> int, x: T)
    requires x in s
    requires forall y <- s :: y != x ==> f(y) == g(y)
    ensures Sum(s, g) == Sum(s, f) - f(x) + g(x)
  {
    SumTake(s, f, x);
    SumTake(s, g, x);
    SumSame(s - {x}, f, g);
  }

  /** Elements whose summand is zero can be dropped. */
  lemma {:induction false} SumSupport<T(!new)>(s: set<T>, t: set<T>, f: T -> int)
    requires t <= s
    requires forall x <- s :: x !in t ==> f(x) == 0
    ensures Sum(s, f) == Sum(t, f)
    decreases |s|
  {
    if s == t {
    } else {
      var x :| x in s && x !in t;
      SumTake(s, f, x);
      SumSupport(s - {x}, t, f);
    }
  }

  lemma {:induction false} SumPlus<T(!new)>(s: set<T>, f: T -> int, g: T -> int, h: T -> int)
    requires forall x <- s :: h(x) == f(x) + g(x)
    ensures Sum(s, h) == Sum(s, f) + Sum(s, g)
    decreases |s|
  {
    if s != {} {
      var x :| x in s;
      SumTake(s, f, x);
      SumTake(s, g, x);
      SumTake(s, h, x);
      SumPlus(s - {x}, f, g, h);
    }
  }

  /** `f` exceeds `g` everywhere on `s`, by at least one on `d`. */
  lemma {:induction false} SumDrops<T(!new)>(s: set<T>, d: set<T>, f: T -> int, g: T -> int)
    requires d <= s
    requires forall x <- s :: g(x) <= f(x)
    requires forall x <- d :: g(x) + 1 <= f(x)
    ensures Sum(s, g) + |d| <= Sum(s, f)
    decreases |s|
  {
    if s != {} {
      var x :| x in s;
      SumTake(s, f, x);
      SumTake(s, g, x);
      SumDrops(s - {x}, d - {x}, f, g);
      assert x in d ==> |d - {x}| == |d| - 1;
      assert x !in d ==> d - {x} == d;
    }
  }

  /** Exchange of a double sum: `f(a)` lists row `a` of a matrix over `t`, `g(b)` its column `b` over `s`. */
  lemma {:induction false} SumExchange<A(!new), B(!new)>(s: set<A>, t: set<B>, f: A -> B -> int, g: B -> A -> int,
                                                        rows: A -> int, cols: B -> int)
    requires forall a <- s, b <- t :: f(a)(b) == g(b)(a)
    requires forall a <- s :: rows(a) == Sum(t, f(a))
    requires forall b <- t :: cols(b) == Sum(s, g(b))
    ensures Sum(s, rows) == Sum(t, cols)
    decreases |s|
  {
    if s == {} {
      SumZero(t, cols);
    } else {
      var a0 :| a0 in s;
      var rest := b => cols(b) - f(a0)(b);
      forall b | b in t ensures rest(b) == Sum(s - {a0}, g(b)) {
        SumTake(s, g(b), a0);
      }
      SumExchange(s - {a0}, t, f, g, rows, rest);
      SumPlus(t, rest, f(a0), cols);
      SumTake(s, rows, a0);
    }
  }
}

/** Finite sums over sets, independent of the order the elements are taken in. */
module Sums {

  ghost function Sum<K>(s: set<K>, f: K -> int): int {
    if s == {} then 0 else var x :| x in s; f(x) + Sum(s - {x}, f)
  }

  /** Any element may be taken out first. */
  lemma {:induction false} SumPick<K>(s: set<K>, f: K -> int, x: K)
    requires x in s
    ensures Sum(s, f) == f(x) + Sum(s - {x}, f)
    decreases s
  {
    var y :| y in s && Sum(s, f) == f(y) + Sum(s - {y}, f);
    if y != x {
      SumPick(s - {y}, f, x);
      SumPick(s - {x}, f, y);
      assert s - {y} - {x} == s - {x} - {y};
    }
  }

  lemma {:induction false} SumSame<K>(s: set<K>, f: K -> int, g: K -> int)
    requires forall x :: x in s ==> f(x) == g(x)
    ensures Sum(s, f) == Sum(s, g)
    decreases s
  {
    if s != {} {
      var x :| x in s;
      SumPick(s, f, x);
      SumPick(s, g, x);
      SumSame(s - {x}, f, g);
    }
  }

  /** Changing the summand at one element changes the sum by the difference. */
  lemma SumChange<K>(s: set<K>, f: K -> int, g: K -> int, x: K)
    requires x in s && forall y :: y in s && y != x ==> f(y) == g(y)
    ensures Sum(s, g) == Sum(s, f) - f(x) + g(x)
  {
    SumPick(s, f, x);
    SumPick(s, g, x);
    SumSame(s - {x}, f, g);
  }

  /** Elements whose summand is zero do not count. */
  lemma {:induction false} SumExtend<K>(s: set<K>, t: set<K>, f: K -> int)
    requires s <= t && forall x :: x in t - s ==> f(x) == 0
    ensures Sum(t, f) == Sum(s, f)
    decreases t
  {
    if t <= s {
      assert s == t;
    } else {
      var x :| x in t && x !in s;
      SumPick(t, f, x);
      SumExtend(s, t - {x}, f);
    }
  }

  lemma {:induction false} SumDisjoint<K>(s: set<K>, t: set<K>, f: K -> int)
    requires s !! t
    ensures Sum(s + t, f) == Sum(s, f) + Sum(t, f)
    decreases s
  {
    if s == {} {
      assert s + t == t;
    } else {
      var x :| x in s;
      SumPick(s, f, x);
      SumPick(s + t, f, x);
      assert s + t - {x} == (s - {x}) + t;
      SumDisjoint(s - {x}, t, f);
    }
  }

  lemma {:induction false} SumPlus<K>(s: set<K>, f: K -> int, g: K -> int, h: K -> int)
    requires forall x :: x in s ==> h(x) == f(x) + g(x)
    ensures Sum(s, h) == Sum(s, f) + Sum(s, g)
    decreases s
  {
    if s != {} {
      var x :| x in s;
      SumPick(s, f, x);
      SumPick(s, g, x);
      SumPick(s, h, x);
      SumPlus(s - {x}, f, g, h);
    }
  }

  lemma {:induction false} SumAtMost<K>(s: set<K>, f: K -> int, high: int)
    requires forall x :: x in s ==> f(x) <= high
    ensures Sum(s, f) <= high * |s|
    decreases s
  {
    if s != {} {
      var x :| x in s;
      SumPick(s, f, x);
      SumAtMost(s - {x}, f, high);
      assert high * |s| == high * |s - {x}| + high;
    }
  }

  lemma {:induction false} SumNonNegative<K>(s: set<K>, f: K -> int)
    requires forall x :: x in s ==> 0 <= f(x)
    ensures 0 <= Sum(s, f)
    decreases s
  {
    if s != {} {
      var x :| x in s;
      SumPick(s, f, x);
      SumNonNegative(s - {x}, f);
    }
  }

  lemma {:induction false} SumMonotone<K>(s: set<K>, f: K -> int, g: K -> int)
    requires forall x :: x in s ==> f(x) <= g(x)
    ensures Sum(s, f) <= Sum(s, g)
    decreases s
  {
    if s != {} {
      var x :| x in s;
      SumPick(s, f, x);
      SumPick(s, g, x);
      SumMonotone(s - {x}, f, g);
    }
  }

  /** At most one element counts: the sum is its summand. */
  lemma SumSingle<K>(s: set<K>, f: K -> int, x: K)
    requires x in s && forall y :: y in s && y != x ==> f(y) == 0
    ensures Sum(s, f) == f(x)
  {
    SumExtend({x}, s, f);
    SumPick({x}, f, x);
    assert {x} - {x} == {};
  }

  /** Exchanging the order of a double sum: f by rows, g by columns. */
  lemma {:induction false} SumSwap<A, B>(s: set<A>, t: set<B>, f: A -> B -> int, g: B -> A -> int, rows: A -> int, columns: B -> int)
    requires forall a, b :: a in s && b in t ==> f(a)(b) == g(b)(a)
    requires forall a :: a in s ==> rows(a) == Sum(t, f(a))
    requires forall b :: b in t ==> columns(b) == Sum(s, g(b))
    ensures Sum(s, rows) == Sum(t, columns)
    decreases s
  {
    if s == {} {
      SumExtend({}, t, columns);
    } else {
      var x :| x in s;
      var rest := s - {x};
      var without := (b: B) => Sum(rest, g(b));
      SumPick(s, rows, x);
      forall b | b in t ensures columns(b) == f(x)(b) + without(b) {
        SumPick(s, g(b), x);
      }
      SumSwap(rest, t, f, g, rows, without);
      SumPlus(t, f(x), without, columns);
    }
  }
}

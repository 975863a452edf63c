/** SUM over a set of rows, in exact numeric: what the derived tables and views aggregate with. */
module Sums {

  ghost function Sum<T(!new)>(keys: set<T>, f: T -> real): real
    decreases |keys|
  {
    if keys == {} then 0.0 else var k :| k in keys; f(k) + Sum(keys - {k}, f)
  }

  /** Any row may be the one taken out, so the order the rows come in does not matter. */
  lemma {:induction false} SumPull<T(!new)>(keys: set<T>, k: T, f: T -> real)
    requires k in keys
    ensures Sum(keys, f) == f(k) + Sum(keys - {k}, f)
    decreases |keys|
  {
    var first :| first in keys && Sum(keys, f) == f(first) + Sum(keys - {first}, f);
    if first != k {
      SumPull(keys - {first}, k, f);
      SumPull(keys - {k}, first, f);
      assert keys - {first} - {k} == keys - {k} - {first};
    }
  }

  lemma {:induction false} SumSame<T(!new)>(keys: set<T>, f: T -> real, g: T -> real)
    requires forall k :: k in keys ==> f(k) == g(k)
    ensures Sum(keys, f) == Sum(keys, g)
    decreases |keys|
  {
    if keys != {} {
      var k :| k in keys;
      SumPull(keys, k, f);
      SumPull(keys, k, g);
      SumSame(keys - {k}, f, g);
    }
  }

  lemma {:induction false} SumPlus<T(!new)>(keys: set<T>, f: T -> real, g: T -> real, both: T -> real)
    requires forall k :: k in keys ==> both(k) == f(k) + g(k)
    ensures Sum(keys, both) == Sum(keys, f) + Sum(keys, g)
    decreases |keys|
  {
    if keys != {} {
      var k :| k in keys;
      SumPull(keys, k, f);
      SumPull(keys, k, g);
      SumPull(keys, k, both);
      SumPlus(keys - {k}, f, g, both);
    }
  }

  lemma {:induction false} SumUnion<T(!new)>(some: set<T>, more: set<T>, f: T -> real)
    requires some !! more
    ensures Sum(some + more, f) == Sum(some, f) + Sum(more, f)
    decreases |more|
  {
    if more == {} {
      assert some + more == some;
    } else {
      var k :| k in more;
      SumPull(more, k, f);
      SumPull(some + more, k, f);
      SumUnion(some, more - {k}, f);
      assert some + more - {k} == some + (more - {k});
    }
  }

  lemma {:induction false} SumZero<T(!new)>(keys: set<T>, f: T -> real)
    requires forall k :: k in keys ==> f(k) == 0.0
    ensures Sum(keys, f) == 0.0
    decreases |keys|
  {
    if keys != {} {
      var k :| k in keys;
      SumPull(keys, k, f);
      SumZero(keys - {k}, f);
    }
  }

  lemma {:induction false} SumNotNegative<T(!new)>(keys: set<T>, f: T -> real)
    requires forall k :: k in keys ==> f(k) >= 0.0
    ensures Sum(keys, f) >= 0.0
    decreases |keys|
  {
    if keys != {} {
      var k :| k in keys;
      SumPull(keys, k, f);
      SumNotNegative(keys - {k}, f);
    }
  }

  /** Rows that add nothing may be left in or out. */
  lemma {:induction false} SumOverMore<T(!new)>(some: set<T>, all: set<T>, f: T -> real)
    requires some <= all
    requires forall k :: k in all - some ==> f(k) == 0.0
    ensures Sum(all, f) == Sum(some, f)
  {
    SumUnion(some, all - some, f);
    SumZero(all - some, f);
    assert some + (all - some) == all;
  }
}

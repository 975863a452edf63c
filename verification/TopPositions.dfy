/** A filer's ten largest positions (mv_filer_summary's ranking): what row_number() picks, and that no other
    ten, nor any other way to break a tie, comes to more. */
module TopPositions {
  import opened Wrappers
  import opened Sums
  import opened PositionChange
  import opened Flows

  /** The ranking order: larger first, and between equals the lower id. */
  predicate Before(p: Portfolio, a: nat, b: nat)
    requires a in p && b in p
  {
    p[a].value > p[b].value || (p[a].value == p[b].value && a < b)
  }

  function Ahead(p: Portfolio, keys: set<nat>, s: nat): set<nat>
    requires keys <= p.Keys && s in p
  {
    set k | k in keys && Before(p, k, s)
  }

  /** The rows of a partition whose row_number() is at most so many. */
  function Top(p: Portfolio, keys: set<nat>, places: nat): set<nat>
    requires keys <= p.Keys
  {
    set s | s in keys && |Ahead(p, keys, s)| < places
  }

  /** place <= 10. */
  function TopTen(p: Portfolio): set<nat> {
    Top(p, p.Keys, 10)
  }

  function Least(a: nat, b: nat): nat {
    if a < b then a else b
  }

  lemma {:induction false} SubsetsCount(some: set<nat>, all: set<nat>)
    requires some <= all
    ensures |some| <= |all|
  {
    assert all == some + (all - some);
  }

  predicate IsLast(p: Portfolio, keys: set<nat>, last: nat)
    requires keys <= p.Keys
  {
    last in keys && forall k :: k in keys && k != last ==> Before(p, k, last)
  }

  lemma {:induction false} Chain(p: Portfolio, a: nat, b: nat, c: nat)
    requires a in p && b in p && c in p && Before(p, a, b) && Before(p, b, c)
    ensures Before(p, a, c)
  {
  }

  lemma {:induction false} LastIsLater(p: Portfolio, rest: set<nat>, other: nat, k: nat)
    requires rest <= p.Keys && k in p && k !in rest && IsLast(p, rest, other)
    ensures Before(p, k, other) ==> IsLast(p, rest + {k}, other)
    ensures !Before(p, k, other) ==> IsLast(p, rest + {k}, k)
  {
    if !Before(p, k, other) {
      assert Before(p, other, k);
      forall j | j in rest && j != other ensures Before(p, j, k) {
        Chain(p, j, other, k);
      }
    }
  }

  lemma {:induction false} LastOf(p: Portfolio, keys: set<nat>) returns (last: nat)
    requires keys <= p.Keys && keys != {}
    ensures IsLast(p, keys, last)
    decreases |keys|
  {
    var k :| k in keys;
    var rest := keys - {k};
    assert keys == rest + {k};
    last := k;
    if rest != {} {
      var other := LastOf(p, rest);
      LastIsLater(p, rest, other, k);
      if Before(p, k, other) {
        last := other;
      }
    }
  }

  /** The places are numbered from one with none left out: so many rows have one of the first so many. */
  lemma {:induction false} TopCounts(p: Portfolio, keys: set<nat>, places: nat)
    requires keys <= p.Keys
    ensures |Top(p, keys, places)| == Least(places, |keys|)
    decreases |keys|
  {
    if keys != {} {
      var last := LastOf(p, keys);
      var rest := keys - {last};
      TopCounts(p, rest, places);
      forall s | s in rest ensures Ahead(p, keys, s) == Ahead(p, rest, s) {
        assert Before(p, s, last);
      }
      assert Ahead(p, keys, last) == rest;
      var top, fewer := Top(p, keys, places), Top(p, rest, places);
      SubsetsCount(fewer, rest);
      assert top == if |rest| < places then fewer + {last} else fewer;
    }
  }

  lemma {:induction false} TopIsLargest(p: Portfolio, places: nat, t: nat, s: nat)
    requires t in Top(p, p.Keys, places) && s in p.Keys - Top(p, p.Keys, places)
    ensures p[t].value >= p[s].value
  {
    if p[t].value < p[s].value {
      SubsetsCount(Ahead(p, p.Keys, s), Ahead(p, p.Keys, t));
    }
  }

  /** Positions exchanged one for one, each for one at least as large. */
  lemma {:induction false} Exchange(p: Portfolio, some: set<nat>, better: set<nat>)
    requires some <= p.Keys && better <= p.Keys && |some| <= |better|
    requires forall s, b :: s in some && b in better ==> p[s].value <= p[b].value
    requires forall s :: s in p ==> p[s].value >= 0.0
    ensures Sum(some, ValueOf(p)) <= Sum(better, ValueOf(p))
    decreases |some|
  {
    if some == {} {
      SumNotNegative(better, ValueOf(p));
    } else {
      var s :| s in some;
      var b :| b in better;
      SumPull(some, s, ValueOf(p));
      SumPull(better, b, ValueOf(p));
      Exchange(p, some - {s}, better - {b});
    }
  }

  /** Ten positions, or all there are, none of them smaller than one left out: however ties are broken. */
  predicate Largest(p: Portfolio, chosen: set<nat>, places: nat) {
    && chosen <= p.Keys && |chosen| == Least(places, |p|)
    && forall t, s :: t in chosen && s in p.Keys - chosen ==> p[t].value >= p[s].value
  }

  lemma {:induction false} Differences(chosen: set<nat>, others: set<nat>)
    ensures |chosen - others| + |chosen * others| == |chosen| && |others - chosen| + |chosen * others| == |others|
  {
    assert chosen == chosen * others + (chosen - others) && others == chosen * others + (others - chosen);
  }

  lemma {:induction false} LargestIsMost(p: Portfolio, chosen: set<nat>, others: set<nat>, places: nat)
    requires Largest(p, chosen, places) && others <= p.Keys && |others| <= places
    requires forall s :: s in p ==> p[s].value >= 0.0
    ensures Sum(others, ValueOf(p)) <= Sum(chosen, ValueOf(p))
  {
    SubsetsCount(others, p.Keys);
    Differences(chosen, others);
    Exchange(p, others - chosen, chosen - others);
    SharedToo(chosen, others, ValueOf(p));
  }

  lemma {:induction false} SharedToo(chosen: set<nat>, others: set<nat>, f: nat -> real)
    ensures Sum(chosen, f) - Sum(others, f) == Sum(chosen - others, f) - Sum(others - chosen, f)
  {
    SumUnion(chosen * others, chosen - others, f);
    SumUnion(chosen * others, others - chosen, f);
    assert chosen == chosen * others + (chosen - others) && others == chosen * others + (others - chosen);
  }

  lemma {:induction false} TopIsLargestSet(p: Portfolio, places: nat)
    ensures Largest(p, Top(p, p.Keys, places), places)
  {
    TopCounts(p, p.Keys, places);
    forall t, s | t in Top(p, p.Keys, places) && s in p.Keys - Top(p, p.Keys, places) ensures p[t].value >= p[s].value {
      TopIsLargest(p, places, t, s);
    }
  }

  /** top10_value_usd is the most any ten of the filer's positions come to. */
  lemma {:induction false} TopTenIsTheMost(p: Portfolio, others: set<nat>)
    requires others <= p.Keys && |others| <= 10
    requires forall s :: s in p ==> p[s].value >= 0.0
    ensures |TopTen(p)| <= 10 && Sum(others, ValueOf(p)) <= Sum(TopTen(p), ValueOf(p))
  {
    TopIsLargestSet(p, 10);
    LargestIsMost(p, TopTen(p), others, 10);
  }

  /** Any ten that leave out nothing larger have the sum of the ten the query picks, whatever it does with equals. */
  lemma {:induction false} TiesDoNotMatter(p: Portfolio, chosen: set<nat>)
    requires Largest(p, chosen, 10)
    requires forall s :: s in p ==> p[s].value >= 0.0
    ensures Sum(chosen, ValueOf(p)) == Sum(TopTen(p), ValueOf(p))
  {
    TopIsLargestSet(p, 10);
    LargestIsMost(p, chosen, TopTen(p), 10);
    LargestIsMost(p, TopTen(p), chosen, 10);
  }

  /** top10_weight_pct: null for a portfolio worth nothing. */
  ghost function TopTenWeight(p: Portfolio): Option<real> {
    if Worth(p) == 0.0 then None else Some(Round(Sum(TopTen(p), ValueOf(p)) * 100.0 / Worth(p), 1_000_000.0))
  }

  /** It is undefined for a portfolio worth nothing, and else the ten's share of it in percent, to the millionth. */
  lemma {:induction false} WeightIs(p: Portfolio)
    ensures TopTenWeight(p).None? <==> Worth(p) == 0.0
    ensures TopTenWeight(p).Some? ==> TopTenWeight(p).value == Round(Sum(TopTen(p), ValueOf(p)) / Worth(p) * 100.0, 1_000_000.0)
  {
    if Worth(p) != 0.0 {
      assert Sum(TopTen(p), ValueOf(p)) * 100.0 / Worth(p) == Sum(TopTen(p), ValueOf(p)) / Worth(p) * 100.0;
    }
  }

  /** One of equals is in the ten before another exactly when its id is lower. */
  lemma {:induction false} TiesGoToTheLower(p: Portfolio, a: nat, b: nat)
    requires a in p && b in p && a != b && p[a].value == p[b].value
    ensures a < b && b in TopTen(p) ==> a in TopTen(p)
  {
    if a < b && b in TopTen(p) {
      SubsetsCount(Ahead(p, p.Keys, a), Ahead(p, p.Keys, b));
    }
  }

  lemma {:induction false} RoundedPercentage(x: real)
    requires 0.0 <= x <= 100.0
    ensures 0.0 <= Round(x, 1_000_000.0) <= 100.0
  {
    var n := (x * 1_000_000.0 + 0.5).Floor;
    assert 0 <= n <= 100_000_000;
  }

  lemma {:induction false} PercentageOf(part: real, whole: real)
    requires 0.0 <= part <= whole && whole != 0.0
    ensures 0.0 <= part * 100.0 / whole <= 100.0
  {
  }

  lemma {:induction false} TopTenIsPart(p: Portfolio)
    requires forall s :: s in p ==> p[s].value >= 0.0
    ensures 0.0 <= Sum(TopTen(p), ValueOf(p)) <= Worth(p)
    ensures |p| <= 10 ==> TopTen(p) == p.Keys
  {
    var top, rest := TopTen(p), p.Keys - TopTen(p);
    SumUnion(top, rest, ValueOf(p));
    assert top + rest == p.Keys;
    SumNotNegative(top, ValueOf(p));
    SumNotNegative(rest, ValueOf(p));
    FewAreAllInTheTen(p);
  }

  lemma {:induction false} FewAreAllInTheTen(p: Portfolio)
    ensures |p| <= 10 ==> TopTen(p) == p.Keys
  {
    TopCounts(p, p.Keys, 10);
    if |p| <= 10 {
      WholeOf(TopTen(p), p.Keys);
    }
  }

  /** A weight between nothing and a hundred percent, and a hundred for a filer of ten positions or fewer. */
  lemma {:induction false} WeightIsAPercentage(p: Portfolio)
    requires forall s :: s in p ==> p[s].value >= 0.0
    ensures TopTenWeight(p).Some? ==> 0.0 <= TopTenWeight(p).value <= 100.0
    ensures TopTenWeight(p).Some? && |p| <= 10 ==> TopTenWeight(p).value == 100.0
  {
    var ten, all := Sum(TopTen(p), ValueOf(p)), Worth(p);
    TopTenIsPart(p);
    if all != 0.0 {
      PercentageOf(ten, all);
      RoundedPercentage(ten * 100.0 / all);
      Hundred(all);
    }
  }

  lemma {:induction false} Hundred(all: real)
    requires all != 0.0
    ensures Round(all * 100.0 / all, 1_000_000.0) == 100.0
  {
    assert all * 100.0 / all == 100.0;
    assert (100.0 * 1_000_000.0 + 0.5).Floor == 100_000_000;
  }

  lemma {:induction false} WholeOf(some: set<nat>, all: set<nat>)
    requires some <= all && |some| == |all|
    ensures some == all
  {
    var rest := all - some;
    assert all == some + rest;
    assert |rest| == 0;
  }
}

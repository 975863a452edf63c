/** The process's catalog: built from the plans' rows, replaced by every load that succeeds and kept by every
    one that does not, and asked what someone may do. */
module EntitlementsService {
  import opened Wrappers
  import opened Entitlements

  /** A gap that Catalog.build names. */
  datatype Problem = NoFree | Missing(slug: string, keys: seq<string>) | Misfit(slug: string, key: string, value: Value)

  /** The gap is really there. */
  predicate IsGap(plans: seq<PlanTerms>, p: Problem) {
    match p
    case NoFree => FREE !in BySlug(plans)
    case Missing(slug, keys) =>
      keys != [] && exists i :: 0 <= i < |plans| && plans[i].slug == slug && forall key :: key in keys ==> key in ENTITLEMENT_KEYS && key !in plans[i].values
    case Misfit(slug, key, value) =>
      exists i :: 0 <= i < |plans| && plans[i].slug == slug && key in plans[i].values && plans[i].values[key] == value && !Fits(key, value)
  }

  predicate NamesMissing(problems: seq<Problem>, slug: string, key: string) {
    exists k :: 0 <= k < |problems| && problems[k].Missing? && problems[k].slug == slug && key in problems[k].keys
  }

  /** Every gap of the first n plans is named. */
  predicate NamesGapsOf(plans: seq<PlanTerms>, n: nat, problems: seq<Problem>)
    requires n <= |plans|
  {
    && (FREE !in BySlug(plans) ==> NoFree in problems)
    && (forall i, key :: 0 <= i < n && key in ENTITLEMENT_KEYS && key !in plans[i].values ==> NamesMissing(problems, plans[i].slug, key))
    && (forall i, key :: 0 <= i < n && key in plans[i].values && !Fits(key, plans[i].values[key])
          ==> Misfit(plans[i].slug, key, plans[i].values[key]) in problems)
  }

  lemma {:induction false} MoreNamesMissing(problems: seq<Problem>, more: seq<Problem>, slug: string, key: string)
    requires NamesMissing(problems, slug, key)
    ensures NamesMissing(problems + more, slug, key)
  {
    var k :| 0 <= k < |problems| && problems[k].Missing? && problems[k].slug == slug && key in problems[k].keys;
    assert (problems + more)[k] == problems[k];
  }

  lemma {:induction false} MoreNamesGaps(plans: seq<PlanTerms>, n: nat, problems: seq<Problem>, more: seq<Problem>)
    requires n <= |plans| && NamesGapsOf(plans, n, problems)
    ensures NamesGapsOf(plans, n, problems + more)
  {
    forall i, key | 0 <= i < n && key in ENTITLEMENT_KEYS && key !in plans[i].values
      ensures NamesMissing(problems + more, plans[i].slug, key)
    {
      MoreNamesMissing(problems, more, plans[i].slug, key);
    }
  }

  lemma {:induction false} BySlugIsSound(plans: seq<PlanTerms>)
    requires forall i :: 0 <= i < |plans| ==> Complete(plans[i])
    ensures forall slug :: slug in BySlug(plans) ==> BySlug(plans)[slug].slug == slug && Complete(BySlug(plans)[slug])
    ensures forall i :: 0 <= i < |plans| ==> plans[i].slug in BySlug(plans)
  {
    if plans != [] {
      BySlugIsSound(plans[..|plans| - 1]);
    }
  }

  /** Slugs are unique in the table, so the catalog holds every plan under its own. */
  lemma {:induction false} EveryPlanIsInCatalog(plans: seq<PlanTerms>, i: nat)
    requires i < |plans| && forall j, k :: 0 <= j < k < |plans| ==> plans[j].slug != plans[k].slug
    ensures plans[i].slug in BySlug(plans) && BySlug(plans)[plans[i].slug] == plans[i]
  {
    if i < |plans| - 1 {
      EveryPlanIsInCatalog(plans[..|plans| - 1], i);
    }
  }

  /** The keys of the list the plan has no value for. */
  method MissingKeys(plan: PlanTerms) returns (missing: seq<string>)
    ensures forall key :: key in missing <==> key in ENTITLEMENT_KEYS && key !in plan.values
  {
    missing := [];
    for i := 0 to |ENTITLEMENT_KEYS|
      invariant forall key :: key in missing <==> key in ENTITLEMENT_KEYS[..i] && key !in plan.values
    {
      assert ENTITLEMENT_KEYS[..i + 1] == ENTITLEMENT_KEYS[..i] + [ENTITLEMENT_KEYS[i]];
      if ENTITLEMENT_KEYS[i] !in plan.values {
        missing := missing + [ENTITLEMENT_KEYS[i]];
      }
    }
    assert ENTITLEMENT_KEYS[..|ENTITLEMENT_KEYS|] == ENTITLEMENT_KEYS;
  }

  /** The plan's values that do not fit their keys. */
  method Misfits(plan: PlanTerms) returns (problems: seq<Problem>)
    ensures forall p :: p in problems ==>
              p.Misfit? && p.slug == plan.slug && p.key in plan.values && p.value == plan.values[p.key] && !Fits(p.key, p.value)
    ensures forall key :: key in plan.values && !Fits(key, plan.values[key]) ==> Misfit(plan.slug, key, plan.values[key]) in problems
  {
    problems := [];
    var rest := plan.values.Keys;
    while rest != {}
      invariant rest <= plan.values.Keys
      invariant forall p :: p in problems ==>
                  p.Misfit? && p.slug == plan.slug && p.key in plan.values && p.value == plan.values[p.key] && !Fits(p.key, p.value)
      invariant forall key :: key in plan.values && key !in rest && !Fits(key, plan.values[key]) ==>
                  Misfit(plan.slug, key, plan.values[key]) in problems
    {
      var key :| key in rest;
      if !Fits(key, plan.values[key]) {
        problems := problems + [Misfit(plan.slug, key, plan.values[key])];
      }
      rest := rest - {key};
    }
  }

  /** The problems name every gap of this one plan, and only those. */
  predicate NamesGapsIn(plan: PlanTerms, problems: seq<Problem>) {
    && (forall key :: key in ENTITLEMENT_KEYS && key !in plan.values ==> NamesMissing(problems, plan.slug, key))
    && (forall key :: key in plan.values && !Fits(key, plan.values[key]) ==> Misfit(plan.slug, key, plan.values[key]) in problems)
    && (forall p :: p in problems ==> IsGap([plan], p) && !p.NoFree?)
  }

  method GapsIn(plan: PlanTerms) returns (problems: seq<Problem>)
    ensures NamesGapsIn(plan, problems)
    ensures problems == [] <==> Complete(plan)
  {
    var missing := MissingKeys(plan);
    var misfits := Misfits(plan);
    assert [plan][0] == plan;
    var first := if missing == [] then [] else [Missing(plan.slug, missing)];
    problems := first + misfits;
    forall key | key in ENTITLEMENT_KEYS && key !in plan.values ensures NamesMissing(problems, plan.slug, key) {
      assert key in missing && problems[0] == Missing(plan.slug, missing);
    }
    assert missing != [] ==> missing[0] in missing;
    assert misfits != [] ==> misfits[0] in misfits;
    forall p | p in problems ensures IsGap([plan], p) && !p.NoFree? {
      assert p in first || p in misfits;
    }
  }

  /** The next plan's gaps, after those of the plans before it, are the gaps of all of them. */
  lemma {:induction false} GapsAddUp(plans: seq<PlanTerms>, n: nat, problems: seq<Problem>, more: seq<Problem>)
    requires n < |plans| && NamesGapsOf(plans, n, problems) && NamesGapsIn(plans[n], more)
    requires forall p :: p in problems ==> IsGap(plans, p)
    ensures NamesGapsOf(plans, n + 1, problems + more)
    ensures forall p :: p in problems + more ==> IsGap(plans, p)
  {
    MoreNamesGaps(plans, n, problems, more);
    forall key | key in ENTITLEMENT_KEYS && key !in plans[n].values ensures NamesMissing(problems + more, plans[n].slug, key) {
      var k :| 0 <= k < |more| && more[k].Missing? && more[k].slug == plans[n].slug && key in more[k].keys;
      assert (problems + more)[|problems| + k] == more[k];
    }
    forall p | p in problems + more ensures IsGap(plans, p) {
      if p !in problems {
        assert p in more && IsGap([plans[n]], p);
        assert plans[n].slug == p.slug;
      }
    }
  }

  /** The catalog of the plans, or every gap in them. */
  method Build(plans: seq<PlanTerms>) returns (built: Result<Catalog, seq<Problem>>)
    ensures built.Success? <==> FREE in BySlug(plans) && forall i :: 0 <= i < |plans| ==> Complete(plans[i])
    ensures built.Success? ==> built.value == BySlug(plans) && Sound(built.value)
    ensures built.Failure? ==>
              built.error != [] && NamesGapsOf(plans, |plans|, built.error) && forall p :: p in built.error ==> IsGap(plans, p)
  {
    var problems: seq<Problem> := if FREE in BySlug(plans) then [] else [NoFree];
    for n := 0 to |plans|
      invariant NamesGapsOf(plans, n, problems)
      invariant forall p :: p in problems ==> IsGap(plans, p)
      invariant problems == [] <==> FREE in BySlug(plans) && forall i :: 0 <= i < n ==> Complete(plans[i])
    {
      var gaps := GapsIn(plans[n]);
      GapsAddUp(plans, n, problems, gaps);
      problems := problems + gaps;
    }
    if problems != [] {
      return Failure(problems);
    }
    BySlugIsSound(plans);
    return Success(BySlug(plans));
  }

  // ----- the order of offers -----

  /** Text in code-point order. */
  predicate TextLess(a: string, b: string) {
    if b == [] then false
    else if a == [] then true
    else a[0] < b[0] || (a[0] == b[0] && TextLess(a[1..], b[1..]))
  }

  lemma {:induction false} TextLessIsAnOrder(a: string, b: string, c: string)
    ensures !(TextLess(a, b) && TextLess(b, a))
    ensures a != b ==> TextLess(a, b) || TextLess(b, a)
    ensures TextLess(a, b) && TextLess(b, c) ==> TextLess(a, c)
  {
    if a != [] && b != [] {
      TextLessIsAnOrder(a[1..], b[1..], if c == [] then [] else c[1..]);
      assert a == [a[0]] + a[1..] && b == [b[0]] + b[1..];
    }
  }

  /** The texts differ first at k: there the one ends, or has the lower character. */
  predicate ComesFirstAt(a: string, b: string, k: nat) {
    k <= |a| && k < |b| && a[..k] == b[..k] && (k == |a| || a[k] < b[k])
  }

  lemma {:induction false} FirstIsLess(a: string, b: string, k: nat)
    requires ComesFirstAt(a, b, k)
    ensures TextLess(a, b)
  {
    if k > 0 {
      assert a[0] == a[..k][0] == b[..k][0] == b[0];
      assert a[1..][..k - 1] == a[..k][1..] && b[1..][..k - 1] == b[..k][1..];
      FirstIsLess(a[1..], b[1..], k - 1);
    }
  }

  lemma {:induction false} LessIsFirst(a: string, b: string) returns (k: nat)
    requires TextLess(a, b)
    ensures ComesFirstAt(a, b, k)
  {
    k := 0;
    if a != [] && a[0] == b[0] {
      var rest := LessIsFirst(a[1..], b[1..]);
      k := rest + 1;
      assert a[..k] == [a[0]] + a[1..][..rest] && b[..k] == [b[0]] + b[1..][..rest];
    }
  }

  lemma {:induction false} TextLessIff(a: string, b: string)
    ensures TextLess(a, b) <==> exists k :: ComesFirstAt(a, b, k)
  {
    if TextLess(a, b) {
      var k := LessIsFirst(a, b);
    }
    forall k | ComesFirstAt(a, b, k) ensures TextLess(a, b) {
      FirstIsLess(a, b, k);
    }
  }

  /** Cheaper, or as cheap and first by slug. */
  predicate Before(a: PlanTerms, b: PlanTerms) {
    a.price < b.price || (a.price == b.price && TextLess(a.slug, b.slug))
  }

  /** A public paid plan whose limit reaches what is needed. */
  predicate Offers(plan: PlanTerms, key: string, needed: nat) {
    && plan.slug != FREE && plan.public && key in plan.values
    && (plan.values[key].Unlimited? || (plan.values[key].Number? && plan.values[key].n >= needed))
  }

  /** What is offered: a plan that is public and not Free, and whose value of the key is no limit or one that reaches; a
      cheaper one first, and of equals the one whose slug is first. */
  lemma {:induction false} OfferIs(plan: PlanTerms, other: PlanTerms, key: string, needed: nat)
    ensures Offers(plan, key, needed)
            <==> plan.public && plan.slug != "free" && key in plan.values
                 && match plan.values[key]
                    case Unlimited => true
                    case Number(n) => needed <= n
                    case Flag(_) => false
                    case Other => false
    ensures Before(plan, other)
            <==> plan.price < other.price
                 || (plan.price == other.price && exists k :: ComesFirstAt(plan.slug, other.slug, k))
  {
    TextLessIff(plan.slug, other.slug);
  }

  /** What fits a key: of nine, no limit or a number that is not negative; of three, yes or no; and of any other nothing. */
  lemma {:induction false} FitsIs(key: string, value: Value)
    ensures var limits := {"history_quarters", "insider_months", "watchlist_items", "screener_saved_filters", "alert_rules",
                           "api_calls_month", "mcp_calls_month", "export_rows", "exports_month"};
            var flags := {"export_enabled", "alerts_instant", "mcp_enabled"};
            && (key in ENTITLEMENT_KEYS <==> key in limits || key in flags)
            && (Fits(key, value) <==> (key in limits && (value.Unlimited? || (value.Number? && 0 <= value.n))) || (key in flags && value.Flag?))
  {
    KeysAre(key);
    if key in LIMIT_KEYS {
      LimitKeysAreNoFlags(key);
    }
  }

  lemma {:induction false} KeysAre(key: string)
    ensures key in LIMIT_KEYS
            <==> key in {"history_quarters", "insider_months", "watchlist_items", "screener_saved_filters", "alert_rules",
                         "api_calls_month", "mcp_calls_month", "export_rows", "exports_month"}
    ensures key in FLAG_KEYS <==> key in {"export_enabled", "alerts_instant", "mcp_enabled"}
    ensures key in ENTITLEMENT_KEYS <==> key in LIMIT_KEYS || key in FLAG_KEYS
  {
  }

  /** Every plan that reaches as far. */
  method Offered(catalog: Catalog, key: string, needed: nat) returns (offers: seq<PlanTerms>)
    requires forall slug :: slug in catalog ==> catalog[slug].slug == slug && key in catalog[slug].values && !catalog[slug].values[key].Flag? && !catalog[slug].values[key].Other?
    ensures forall p :: p in offers <==> p.slug in catalog && catalog[p.slug] == p && Offers(p, key, needed)
  {
    offers := [];
    var rest := catalog.Keys;
    while rest != {}
      invariant rest <= catalog.Keys
      invariant forall p :: p in offers ==> p.slug in catalog && catalog[p.slug] == p && Offers(p, key, needed)
      invariant forall slug :: slug in catalog && slug !in rest && Offers(catalog[slug], key, needed) ==> catalog[slug] in offers
    {
      var slug :| slug in rest;
      var plan := catalog[slug];
      var value := plan.values[key];
      if plan.slug != FREE && plan.public && (value.Unlimited? || value.n >= needed) {
        offers := offers + [plan];
      }
      rest := rest - {slug};
    }
  }

  /** The offer every other comes after. */
  method Cheapest(offers: seq<PlanTerms>) returns (least: PlanTerms)
    requires offers != [] && forall p, q :: p in offers && q in offers && p.slug == q.slug ==> p == q
    ensures least in offers
    ensures forall p :: p in offers && p.slug != least.slug ==> Before(least, p)
  {
    least := offers[0];
    for i := 1 to |offers|
      invariant least in offers
      invariant forall j :: 0 <= j < i && offers[j].slug != least.slug ==> Before(least, offers[j])
    {
      var challenger := offers[i];
      TextLessIsAnOrder(challenger.slug, least.slug, "");
      if Before(challenger, least) {
        forall j | 0 <= j < i && offers[j].slug != challenger.slug ensures Before(challenger, offers[j]) {
          TextLessIsAnOrder(challenger.slug, least.slug, offers[j].slug);
        }
        least := challenger;
      }
    }
  }

  /** What a refusal offers: the plan no other that reaches as far comes before; None when none reaches. */
  method LiftingPlan(catalog: Catalog, key: string, needed: nat) returns (offer: Option<PlanTerms>)
    requires Sound(catalog) && key in LIMIT_KEYS
    ensures offer.Some? ==> offer.value.slug in catalog && catalog[offer.value.slug] == offer.value && Offers(offer.value, key, needed)
    ensures offer.Some? ==> forall slug :: slug in catalog && Offers(catalog[slug], key, needed) && slug != offer.value.slug ==> Before(offer.value, catalog[slug])
    ensures offer.None? <==> forall slug :: slug in catalog ==> !Offers(catalog[slug], key, needed)
  {
    LimitsAreNumbers(catalog, key);
    var offers := Offered(catalog, key, needed);
    if offers == [] {
      assert forall slug :: slug in catalog && Offers(catalog[slug], key, needed) ==> catalog[slug] in offers;
      return None;
    }
    var least := Cheapest(offers);
    assert forall slug :: slug in catalog && Offers(catalog[slug], key, needed) ==> catalog[slug] in offers;
    return Some(least);
  }

  lemma {:induction false} LimitsAreNumbers(catalog: Catalog, key: string)
    requires Sound(catalog) && key in LIMIT_KEYS
    ensures forall slug :: slug in catalog ==>
              key in catalog[slug].values && !catalog[slug].values[key].Flag? && !catalog[slug].values[key].Other?
  {
    LimitKeysAreNoFlags(key);
    assert key in ENTITLEMENT_KEYS;
    forall slug | slug in catalog ensures key in catalog[slug].values && Fits(key, catalog[slug].values[key]) {
      assert Complete(catalog[slug]);
    }
  }

  /** Being on the plan a refusal offers, with no terms of one's own, is enough. */
  lemma {:induction false} OfferLifts(catalog: Catalog, offer: PlanTerms, key: string, needed: nat, startedAt: Option<Time>, at: Time)
    requires Sound(catalog) && key in LIMIT_KEYS
    requires offer.slug in catalog && catalog[offer.slug] == offer && Offers(offer, key, needed)
    ensures key in ENTITLEMENT_KEYS
    ensures var grant := Grant(Some(offer.slug), None, map[], None, startedAt, None, None);
            var value := Answer(catalog, Some(grant), key, at, at);
            value.Unlimited? || (value.Number? && value.n >= needed)
  {
    assert key in ENTITLEMENT_KEYS;
  }

  // ----- the process -----

  class Registry {
    var catalog: Option<Catalog>

    predicate Valid()
      reads this
    {
      catalog.Some? ==> Sound(catalog.value)
    }

    constructor ()
      ensures Valid() && catalog.None?
    {
      catalog := None;
    }

    /** A load of the plans: a catalog with a gap is refused, and the one in force stays. */
    method Reload(plans: seq<PlanTerms>) returns (problems: seq<Problem>)
      requires Valid()
      modifies this
      ensures Valid()
      ensures problems == [] <==> FREE in BySlug(plans) && forall i :: 0 <= i < |plans| ==> Complete(plans[i])
      ensures catalog == if problems == [] then Some(BySlug(plans)) else old(catalog)
    {
      var built := Build(plans);
      if built.Failure? {
        return built.error;
      }
      catalog := Some(built.value);
      return [];
    }

    /** The allowance under a limit key, absent when unlimited. Fails only while no catalog is installed. */
    method Limit(grant: Option<Grant>, key: string, judged: Time, resolved: Time) returns (limit: Result<Option<nat>, ()>)
      requires Valid() && key in LIMIT_KEYS && (grant.Some? ==> OwnValuesFit(grant.value))
      ensures key in ENTITLEMENT_KEYS
      ensures limit.Failure? <==> catalog.None?
      ensures limit.Success? ==>
                Answer(catalog.value, grant, key, judged, resolved) == if limit.value.Some? then Number(limit.value.value) else Unlimited
    {
      assert key in ENTITLEMENT_KEYS;
      if catalog.None? {
        return Failure(());
      }
      var value := Answer(catalog.value, grant, key, judged, resolved);
      LimitKeysAreNoFlags(key);
      EveryKeyResolves(catalog.value, grant, key, judged, resolved);
      assert value.Unlimited? || value.Number?;
      return Success(if value.Unlimited? then None else Some(value.n));
    }

    /** Whether the grant allows the key. */
    method Can(grant: Option<Grant>, key: string, judged: Time, resolved: Time) returns (can: Result<bool, ()>)
      requires Valid() && key in FLAG_KEYS && (grant.Some? ==> OwnValuesFit(grant.value))
      ensures key in ENTITLEMENT_KEYS
      ensures can.Failure? <==> catalog.None?
      ensures can.Success? ==> Answer(catalog.value, grant, key, judged, resolved) == Flag(can.value)
    {
      assert key in ENTITLEMENT_KEYS;
      if catalog.None? {
        return Failure(());
      }
      var value := Answer(catalog.value, grant, key, judged, resolved);
      EveryKeyResolves(catalog.value, grant, key, judged, resolved);
      return Success(value.on);
    }
  }

  lemma {:induction false} LimitKeysAreNoFlags(key: string)
    requires key in LIMIT_KEYS
    ensures key !in FLAG_KEYS
  {
    forall i, j | 0 <= i < |LIMIT_KEYS| && 0 <= j < |FLAG_KEYS| ensures LIMIT_KEYS[i] != FLAG_KEYS[j] {
      assert |LIMIT_KEYS[i]| == 14 ==> LIMIT_KEYS[i][0] == 'i';
      assert |LIMIT_KEYS[i]| == 11 ==> LIMIT_KEYS[i][0] != 'm';
      assert (|FLAG_KEYS[j]| == 14 && FLAG_KEYS[j][0] != 'i') || (|FLAG_KEYS[j]| == 11 && FLAG_KEYS[j][0] == 'm');
    }
  }
}

/** Entitlements (app/accounts/entitlements.py): plans by slug, the grant read from an account's rows or kept by
    its session, and the value of a key under either. */
module Entitlements {
  import opened Wrappers

  type Time = int

  const LIMIT_KEYS: seq<string> := [
    "history_quarters", "insider_months", "watchlist_items", "screener_saved_filters", "alert_rules",
    "api_calls_month", "mcp_calls_month", "export_rows", "exports_month"]

  const FLAG_KEYS: seq<string> := ["export_enabled", "alerts_instant", "mcp_enabled"]

  const ENTITLEMENT_KEYS: seq<string> := LIMIT_KEYS + FLAG_KEYS

  const FREE := "free"

  /** A JSON value: null, a whole number, a boolean, or anything else. */
  datatype Value = Unlimited | Number(n: int) | Flag(on: bool) | Other

  /** value_problem answers None: the value is of the key's kind. */
  predicate Fits(key: string, value: Value) {
    if key in FLAG_KEYS then value.Flag?
    else if key in LIMIT_KEYS then value.Unlimited? || (value.Number? && value.n >= 0)
    else false
  }

  datatype PlanTerms = PlanTerms(slug: string, price: nat, public: bool, values: map<string, Value>)

  /** Every key has a value of its kind, and nothing else has one. */
  predicate Complete(plan: PlanTerms) {
    && (forall key :: key in ENTITLEMENT_KEYS ==> key in plan.values)
    && (forall key :: key in plan.values ==> Fits(key, plan.values[key]))
  }

  type Catalog = map<string, PlanTerms>

  /** What Catalog.build promises: Free is there, and every plan is complete under its own slug. */
  predicate Sound(catalog: Catalog) {
    && FREE in catalog
    && forall slug :: slug in catalog ==> catalog[slug].slug == slug && Complete(catalog[slug])
  }

  function BySlug(plans: seq<PlanTerms>): Catalog {
    if plans == [] then map[] else BySlug(plans[..|plans| - 1])[plans[|plans| - 1].slug := plans[|plans| - 1]]
  }

  // ----- the grant -----

  datatype Grant = Grant(
    plan: Option<string>,
    grandfathered: Option<string>,
    own: map<string, Value>,
    endsAt: Option<Time>,
    startedAt: Option<Time>,
    override: Option<string>,
    overrideEndsAt: Option<Time>)
  {
    predicate Subscribed(at: Time) {
      plan.Some? && (endsAt.None? || at < endsAt.value)
    }

    predicate Overridden(at: Time) {
      override.Some? && (overrideEndsAt.None? || at < overrideEndsAt.value)
    }

    predicate Live(at: Time) {
      Subscribed(at) || Overridden(at)
    }
  }

  /** A subscription row, its plans by their slugs. */
  datatype SubRow = SubRow(
    user: nat,
    liveStatus: bool,
    plan: string,
    grandfathered: Option<string>,
    cancelAt: Option<Time>,
    graceEndsAt: Option<Time>,
    createdAt: Time,
    own: map<string, Value>)

  datatype OverrideRow = OverrideRow(user: nat, plan: string, startsAt: Time, expiresAt: Time, endedAt: Option<Time>)

  /** The rows a grant is read from; an override's id is its place, an account's value when it was made. */
  datatype Rows = Rows(subs: seq<SubRow>, overrides: seq<OverrideRow>, users: map<nat, Time>)

  predicate SubscriptionIsLive(row: SubRow, at: Time) {
    && row.liveStatus
    && (row.cancelAt.None? || at < row.cancelAt.value)
    && (row.graceEndsAt.None? || at < row.graceEndsAt.value)
  }

  predicate OverrideIsLive(row: OverrideRow, at: Time) {
    row.endedAt.None? && row.startsAt <= at < row.expiresAt
  }

  /** LEAST, which ignores nulls. */
  function Least(a: Option<Time>, b: Option<Time>): Option<Time> {
    if a.None? then b else if b.None? || a.value <= b.value then a else b
  }

  /** The unique index on a user's live subscription. */
  predicate OneLiveEach(subs: seq<SubRow>) {
    forall i, j :: 0 <= i < j < |subs| && subs[i].liveStatus && subs[j].liveStatus ==> subs[i].user != subs[j].user
  }

  /** The subscription in force at an instant, if any. */
  function LiveSub(subs: seq<SubRow>, user: nat, at: Time): (found: Option<SubRow>)
    ensures found.Some? ==> found.value in subs && found.value.user == user && SubscriptionIsLive(found.value, at)
    ensures found.None? ==> forall row :: row in subs && row.user == user ==> !SubscriptionIsLive(row, at)
  {
    if subs == [] then None
    else
      var last := subs[|subs| - 1];
      if last.user == user && SubscriptionIsLive(last, at) then Some(last) else LiveSub(subs[..|subs| - 1], user, at)
  }

  /** The user's newest override that is live. */
  function LiveOverride(overrides: seq<OverrideRow>, user: nat, at: Time): (found: Option<nat>)
    ensures found.Some? ==> found.value < |overrides| && overrides[found.value].user == user && OverrideIsLive(overrides[found.value], at)
    ensures forall i :: (if found.Some? then found.value + 1 else 0) <= i < |overrides| ==>
              !(overrides[i].user == user && OverrideIsLive(overrides[i], at))
  {
    if overrides == [] then None
    else
      var last := |overrides| - 1;
      if overrides[last].user == user && OverrideIsLive(overrides[last], at) then Some(last)
      else LiveOverride(overrides[..last], user, at)
  }

  /** The user's grant as the rows say it at an instant; None is Free. */
  function GrantFor(rows: Rows, user: nat, at: Time): Option<Grant> {
    if user !in rows.users then None
    else
      var sub := LiveSub(rows.subs, user, at);
      var over := LiveOverride(rows.overrides, user, at);
      if sub.None? && over.None? then None
      else
        Some(Grant(
          if sub.Some? then Some(sub.value.plan) else None,
          if sub.Some? then sub.value.grandfathered else None,
          if sub.Some? then sub.value.own else map[],
          if sub.Some? then Least(sub.value.cancelAt, sub.value.graceEndsAt) else None,
          Some(if sub.Some? then sub.value.createdAt else rows.users[user]),
          if over.Some? then Some(rows.overrides[over.value].plan) else None,
          if over.Some? then Some(rows.overrides[over.value].expiresAt) else None))
  }

  // ----- resolving -----

  function LiveGrant(grant: Option<Grant>, at: Time): Option<Grant> {
    if grant.Some? && grant.value.Live(at) then grant else None
  }

  predicate Has(catalog: Catalog, slug: Option<string>, key: string) {
    slug.Some? && slug.value in catalog && key in catalog[slug.value].values
  }

  /** The first of the override's plan, the subscription's own value, its grandfathered plan and its plan that
      has the key; Free's for a grant that is not live, or that none of them answers. */
  function Resolve(catalog: Catalog, grant: Option<Grant>, key: string, at: Time): Value
    requires Sound(catalog) && key in ENTITLEMENT_KEYS
  {
    var free := catalog[FREE].values[key];
    if grant.None? then free
    else
      var g := grant.value;
      if g.Overridden(at) && Has(catalog, g.override, key) then catalog[g.override.value].values[key]
      else if !g.Subscribed(at) then free
      else if key in g.own then g.own[key]
      else if Has(catalog, g.grandfathered, key) then catalog[g.grandfathered.value].values[key]
      else if Has(catalog, g.plan, key) then catalog[g.plan.value].values[key]
      else free
  }

  /** The answer a request gets: the grant is judged live by one reading of the clock, the key by the next. */
  function Answer(catalog: Catalog, grant: Option<Grant>, key: string, judged: Time, resolved: Time): Value
    requires Sound(catalog) && key in ENTITLEMENT_KEYS
  {
    Resolve(catalog, LiveGrant(grant, judged), key, resolved)
  }

  /** Which plan's name the account page carries. */
  function PlanOf(catalog: Catalog, grant: Option<Grant>, at: Time): PlanTerms
    requires Sound(catalog)
  {
    var live := LiveGrant(grant, at);
    var slug :=
      if live.None? then None
      else if live.value.Overridden(at) then live.value.override
      else if live.value.Subscribed(at) then live.value.plan
      else None;
    if slug.Some? && slug.value in catalog then catalog[slug.value] else catalog[FREE]
  }

  // ----- every key resolves -----

  /** The table's check on a subscription's own values. */
  predicate OwnValuesFit(grant: Grant) {
    forall key :: key in grant.own ==> Fits(key, grant.own[key])
  }

  /** With a catalog that was built and own values the table allows, every key resolves to a value of its kind
      for every grant at every instant: the assertions of limit and can never fail. */
  lemma {:induction false} EveryKeyResolves(catalog: Catalog, grant: Option<Grant>, key: string, judged: Time, resolved: Time)
    requires Sound(catalog) && key in ENTITLEMENT_KEYS
    requires grant.Some? ==> OwnValuesFit(grant.value)
    ensures Fits(key, Answer(catalog, grant, key, judged, resolved))
  {
    var live := LiveGrant(grant, judged);
    forall slug | slug in catalog ensures Fits(key, catalog[slug].values[key]) {
      assert Complete(catalog[slug]);
    }
  }

  /** Who may speak for a key, first to last. */
  datatype Level = OverridePlanLevel | OwnLevel | GrandfatheredLevel | PlanLevel

  const LEVELS: seq<Level> := [OverridePlanLevel, OwnLevel, GrandfatheredLevel, PlanLevel]

  function PlanValue(catalog: Catalog, slug: Option<string>, key: string): Option<Value> {
    if Has(catalog, slug, key) then Some(catalog[slug.value].values[key]) else None
  }

  /** What a level says at an instant: an override until it expires, the rest until the subscription does. */
  function Says(catalog: Catalog, g: Grant, level: Level, key: string, at: Time): Option<Value> {
    if level.OverridePlanLevel? then
      (if g.override.Some? && (g.overrideEndsAt.None? || at < g.overrideEndsAt.value) then PlanValue(catalog, g.override, key) else None)
    else if g.plan.None? || (g.endsAt.Some? && g.endsAt.value <= at) then None
    else
      match level
      case OwnLevel => if key in g.own then Some(g.own[key]) else None
      case GrandfatheredLevel => PlanValue(catalog, g.grandfathered, key)
      case PlanLevel => PlanValue(catalog, g.plan, key)
      case OverridePlanLevel => None
  }

  predicate FirstToSpeak(catalog: Catalog, g: Grant, i: nat, key: string, at: Time)
    requires i <= |LEVELS|
  {
    && (i < |LEVELS| ==> Says(catalog, g, LEVELS[i], key, at).Some?)
    && forall j :: 0 <= j < i ==> Says(catalog, g, LEVELS[j], key, at).None?
  }

  /** The precedence: the first level that says anything of the key answers, and Free's plan when none does. */
  lemma {:induction false} FirstLevelAnswers(catalog: Catalog, g: Grant, i: nat, key: string, at: Time)
    requires Sound(catalog) && key in ENTITLEMENT_KEYS
    requires i <= |LEVELS| && FirstToSpeak(catalog, g, i, key, at)
    ensures Answer(catalog, Some(g), key, at, at)
            == if i == |LEVELS| then catalog[FREE].values[key] else Says(catalog, g, LEVELS[i], key, at).value
  {
    assert i > 0 ==> Says(catalog, g, LEVELS[0], key, at).None?;
    assert i > 1 ==> Says(catalog, g, LEVELS[1], key, at).None?;
    assert i > 2 ==> Says(catalog, g, LEVELS[2], key, at).None?;
    assert i > 3 ==> Says(catalog, g, LEVELS[3], key, at).None?;
  }

  /** The two readings of the clock are as one: a grant that ends between them is Free by the second. */
  lemma {:induction false} OneClockIsEnough(catalog: Catalog, grant: Option<Grant>, key: string, judged: Time, resolved: Time)
    requires Sound(catalog) && key in ENTITLEMENT_KEYS && judged <= resolved
    ensures Answer(catalog, grant, key, judged, resolved) == Answer(catalog, grant, key, resolved, resolved)
  {
  }

  // ----- what the rows grant -----

  /** The user's subscription in force at an instant: live by its status, neither cancelled nor past its grace; or that
      there is none. */
  predicate InForce(rows: Rows, user: nat, at: Time, sub: Option<SubRow>) {
    match sub
    case Some(row) =>
      && row in rows.subs && row.user == user && row.liveStatus
      && (row.cancelAt.Some? ==> at < row.cancelAt.value) && (row.graceEndsAt.Some? ==> at < row.graceEndsAt.value)
    case None =>
      forall row :: row in rows.subs && row.user == user && row.liveStatus ==>
        (row.cancelAt.Some? && row.cancelAt.value <= at) || (row.graceEndsAt.Some? && row.graceEndsAt.value <= at)
  }

  /** The override row given to the user, begun, neither ended nor expired. */
  predicate Gives(row: OverrideRow, user: nat, at: Time) {
    row.user == user && row.endedAt.None? && row.startsAt <= at && at < row.expiresAt
  }

  /** The newest override the user is given at an instant; or that there is none. */
  predicate Given(rows: Rows, user: nat, at: Time, over: Option<nat>) {
    match over
    case Some(i) => i < |rows.overrides| && Gives(rows.overrides[i], user, at)
                    && forall j :: i < j < |rows.overrides| ==> !Gives(rows.overrides[j], user, at)
    case None => forall j :: 0 <= j < |rows.overrides| ==> !Gives(rows.overrides[j], user, at)
  }

  /** The earlier of two dates, one of which may be missing. */
  predicate IsFirstOf(end: Option<Time>, a: Option<Time>, b: Option<Time>) {
    && (end == a || end == b)
    && (a.Some? ==> end.Some? && end.value <= a.value) && (b.Some? ==> end.Some? && end.value <= b.value)
  }

  lemma {:induction false} FoundInRows(rows: Rows, user: nat, at: Time, sub: Option<SubRow>, over: Option<nat>)
    requires OneLiveEach(rows.subs) && InForce(rows, user, at, sub) && Given(rows, user, at, over)
    ensures LiveSub(rows.subs, user, at) == sub && LiveOverride(rows.overrides, user, at) == over
  {
    if sub.Some? {
      LiveSubIsUnique(rows.subs, user, at, sub.value);
    } else {
      var found := LiveSub(rows.subs, user, at);
      assert found.Some? ==> SubscriptionIsLive(found.value, at);
    }
    var found := LiveOverride(rows.overrides, user, at);
    if over.Some? {
      assert OverrideIsLive(rows.overrides[over.value], at);
    }
    if found.Some? {
      assert Gives(rows.overrides[found.value], user, at);
    }
  }

  /** An account's grant, field by field. */
  lemma {:induction false} GrantOfRows(rows: Rows, user: nat, at: Time, sub: Option<SubRow>, over: Option<nat>)
    requires OneLiveEach(rows.subs) && InForce(rows, user, at, sub) && Given(rows, user, at, over)
    ensures var grant := GrantFor(rows, user, at);
            && (grant.None? <==> user !in rows.users || (sub.None? && over.None?))
            && (grant.Some? && sub.Some? ==>
                  && grant.value.plan == Some(sub.value.plan) && grant.value.grandfathered == sub.value.grandfathered
                  && grant.value.own == sub.value.own && grant.value.startedAt == Some(sub.value.createdAt)
                  && IsFirstOf(grant.value.endsAt, sub.value.cancelAt, sub.value.graceEndsAt))
            && (grant.Some? && sub.None? ==>
                  && grant.value.plan.None? && grant.value.grandfathered.None? && grant.value.own == map[]
                  && grant.value.startedAt == Some(rows.users[user]) && grant.value.endsAt.None?)
            && (grant.Some? ==>
                  && grant.value.override == (if over.Some? then Some(rows.overrides[over.value].plan) else None)
                  && grant.value.overrideEndsAt == (if over.Some? then Some(rows.overrides[over.value].expiresAt) else None))
  {
    FoundInRows(rows, user, at, sub, over);
  }

  /** What a plan says of a key, if there is such a plan. */
  function ByPlan(catalog: Catalog, slug: string, key: string, otherwise: Value): Value
    requires Sound(catalog) && key in ENTITLEMENT_KEYS
  {
    if slug in catalog then assert Complete(catalog[slug]); catalog[slug].values[key] else otherwise
  }

  /** What a subscription says of one: its own value, else that of the plan it was promised, else that of its plan. */
  function BySubscription(catalog: Catalog, sub: Option<SubRow>, key: string): Value
    requires Sound(catalog) && key in ENTITLEMENT_KEYS
  {
    var free := ByPlan(catalog, "free", key, Other);
    match sub
    case None => free
    case Some(row) =>
      if key in row.own then row.own[key]
      else
        var planned := ByPlan(catalog, row.plan, key, free);
        if row.grandfathered.Some? then ByPlan(catalog, row.grandfathered.value, key, planned) else planned
  }

  lemma {:induction false} SubscriptionAnswers(catalog: Catalog, grant: Grant, sub: Option<SubRow>, key: string, t: Time)
    requires Sound(catalog) && key in ENTITLEMENT_KEYS
    requires !grant.Overridden(t) || !Has(catalog, grant.override, key)
    requires if sub.None? then grant.plan.None?
             else grant.plan == Some(sub.value.plan) && grant.grandfathered == sub.value.grandfathered && grant.own == sub.value.own
                  && (grant.endsAt.Some? ==> t < grant.endsAt.value)
    ensures Answer(catalog, Some(grant), key, t, t) == BySubscription(catalog, sub, key)
  {
    forall slug | slug in catalog ensures key in catalog[slug].values {
      assert Complete(catalog[slug]);
    }
  }

  /** From the rows to the answer: the plan of the newest override the account is given, else what its subscription in
      force says, else Free; a plan the catalog has not got is passed over. */
  lemma {:induction false} RowsAnswer(catalog: Catalog, rows: Rows, user: nat, key: string, t: Time, sub: Option<SubRow>, over: Option<nat>)
    requires Sound(catalog) && key in ENTITLEMENT_KEYS
    requires OneLiveEach(rows.subs) && user in rows.users && InForce(rows, user, t, sub) && Given(rows, user, t, over)
    ensures Answer(catalog, GrantFor(rows, user, t), key, t, t)
            == (if over.Some? then ByPlan(catalog, rows.overrides[over.value].plan, key, BySubscription(catalog, sub, key))
                else BySubscription(catalog, sub, key))
  {
    GrantOfRows(rows, user, t, sub, over);
    var grant := GrantFor(rows, user, t);
    if grant.Some? {
      if over.Some? && rows.overrides[over.value].plan in catalog {
        assert Complete(catalog[rows.overrides[over.value].plan]);
      } else {
        SubscriptionAnswers(catalog, grant.value, sub, key, t);
      }
    }
  }

  /** And the name on the account page is that of the override's plan, else of the subscription's, else Free's. */
  lemma {:induction false} RowsName(catalog: Catalog, rows: Rows, user: nat, t: Time, sub: Option<SubRow>, over: Option<nat>)
    requires Sound(catalog)
    requires OneLiveEach(rows.subs) && user in rows.users && InForce(rows, user, t, sub) && Given(rows, user, t, over)
    ensures var slug := if over.Some? then rows.overrides[over.value].plan else if sub.Some? then sub.value.plan else "free";
            PlanOf(catalog, GrantFor(rows, user, t), t) == catalog[if slug in catalog then slug else "free"]
  {
    GrantOfRows(rows, user, t, sub, over);
  }

  // ----- a grant read earlier -----

  predicate Pending(row: OverrideRow, user: nat, r: Time, t: Time) {
    row.user == user && row.endedAt.None? && row.startsAt <= t && r < row.expiresAt
  }

  /** Of the user's overrides not ended, at most one has any time between r and t, and it had begun by r. */
  predicate OneOverride(overrides: seq<OverrideRow>, user: nat, r: Time, t: Time) {
    && (forall i :: 0 <= i < |overrides| && Pending(overrides[i], user, r, t) ==> overrides[i].startsAt <= r)
    && (forall i, j :: 0 <= i < j < |overrides| ==> !(Pending(overrides[i], user, r, t) && Pending(overrides[j], user, r, t)))
  }

  /** The plan an admin's override gives at an instant, as a grant has it. */
  function OverridePlan(grant: Option<Grant>, at: Time): Option<string> {
    if grant.Some? && grant.value.Overridden(at) then grant.value.override else None
  }

  /** The subscription's part of a grant at an instant. */
  function SubscriptionTerms(grant: Option<Grant>, at: Time): Option<(string, Option<string>, map<string, Value>)> {
    if grant.Some? && grant.value.Subscribed(at) then Some((grant.value.plan.value, grant.value.grandfathered, grant.value.own)) else None
  }

  /** An answer depends on the override's plan and the subscription's terms, and nothing else of the grant. */
  lemma {:induction false} AnswerIsOfTerms(catalog: Catalog, a: Option<Grant>, b: Option<Grant>, key: string, at: Time)
    requires Sound(catalog) && key in ENTITLEMENT_KEYS
    requires OverridePlan(a, at) == OverridePlan(b, at) && SubscriptionTerms(a, at) == SubscriptionTerms(b, at)
    ensures Answer(catalog, a, key, at, at) == Answer(catalog, b, key, at, at)
  {
  }

  lemma {:induction false} OneLiveRow(subs: seq<SubRow>, row: SubRow, other: SubRow)
    requires OneLiveEach(subs) && row in subs && other in subs && row.user == other.user && row.liveStatus && other.liveStatus
    ensures row == other
  {
    var i :| 0 <= i < |subs| && subs[i] == row;
    var j :| 0 <= j < |subs| && subs[j] == other;
  }

  lemma {:induction false} LiveSubIsUnique(subs: seq<SubRow>, user: nat, at: Time, row: SubRow)
    requires OneLiveEach(subs) && row in subs && row.user == user && SubscriptionIsLive(row, at)
    ensures LiveSub(subs, user, at) == Some(row)
  {
    var found := LiveSub(subs, user, at);
    assert found.Some?;
    OneLiveRow(subs, row, found.value);
  }

  /** However stale a session's grant, its subscription says at t what the rows say at t. */
  lemma {:induction false} CachedSubscription(rows: Rows, user: nat, r: Time, t: Time)
    requires OneLiveEach(rows.subs) && r <= t
    ensures SubscriptionTerms(GrantFor(rows, user, r), t) == SubscriptionTerms(GrantFor(rows, user, t), t)
  {
    var was, now := LiveSub(rows.subs, user, r), LiveSub(rows.subs, user, t);
    if now.Some? {
      LiveSubIsUnique(rows.subs, user, r, now.value);
    } else if was.Some? {
      assert !SubscriptionIsLive(was.value, t);
    }
  }

  /** A cached override says what the rows say exactly when none is live now, or the one that was live then is
      live now and gives the plan of the newest that is. */
  lemma {:induction false} CachedOverrideIff(rows: Rows, user: nat, r: Time, t: Time)
    requires r <= t && user in rows.users
    ensures var was, now := LiveOverride(rows.overrides, user, r), LiveOverride(rows.overrides, user, t);
            OverridePlan(GrantFor(rows, user, r), t) == OverridePlan(GrantFor(rows, user, t), t)
            <==> now.None?
                 || (was.Some? && OverrideIsLive(rows.overrides[was.value], t)
                     && rows.overrides[was.value].plan == rows.overrides[now.value].plan)
  {
    var was, now := LiveOverride(rows.overrides, user, r), LiveOverride(rows.overrides, user, t);
    if was.Some? {
      var o := rows.overrides[was.value];
      assert OverridePlan(GrantFor(rows, user, r), t) == if t < o.expiresAt then Some(o.plan) else None;
    }
    if now.Some? {
      assert OverridePlan(GrantFor(rows, user, t), t) == Some(rows.overrides[now.value].plan);
    }
  }

  /** One override at most, begun by then, says at t what it said when the grant was read. */
  lemma {:induction false} CachedOverride(rows: Rows, user: nat, r: Time, t: Time)
    requires r <= t && OneOverride(rows.overrides, user, r, t)
    ensures OverridePlan(GrantFor(rows, user, r), t) == OverridePlan(GrantFor(rows, user, t), t)
  {
    if user in rows.users {
      CachedOverrideIff(rows, user, r, t);
      SameOverride(rows.overrides, user, r, t);
    }
  }

  lemma {:induction false} SameOverride(overrides: seq<OverrideRow>, user: nat, r: Time, t: Time)
    requires r <= t && OneOverride(overrides, user, r, t)
    ensures var was, now := LiveOverride(overrides, user, r), LiveOverride(overrides, user, t);
            now.Some? ==> was == now
  {
    var was, now := LiveOverride(overrides, user, r), LiveOverride(overrides, user, t);
    if now.Some? {
      assert Pending(overrides[now.value], user, r, t);
      assert OverrideIsLive(overrides[now.value], r);
      assert was.Some? && Pending(overrides[was.value], user, r, t);
    }
  }

  /** A session that keeps its grant answers every key at t as one that has just read it, for every catalog. */
  lemma {:induction false} CacheAgrees(catalog: Catalog, rows: Rows, user: nat, key: string, r: Time, t: Time)
    requires Sound(catalog) && key in ENTITLEMENT_KEYS
    requires OneLiveEach(rows.subs) && r <= t && OneOverride(rows.overrides, user, r, t)
    ensures Answer(catalog, GrantFor(rows, user, r), key, t, t) == Answer(catalog, GrantFor(rows, user, t), key, t, t)
  {
    CachedSubscription(rows, user, r, t);
    CachedOverride(rows, user, r, t);
    AnswerIsOfTerms(catalog, GrantFor(rows, user, r), GrantFor(rows, user, t), key, t);
  }

  /** Two overrides that overlap, were there ever two, are seen one at a time: a grant read while the newer was live says nothing of
      the older once the newer has expired. */
  lemma {:induction false} OverlappingOverridesDisagree(user: nat)
    ensures var rows := Rows([], [OverrideRow(user, "pro", 0, 100, None), OverrideRow(user, "api_pro", 0, 10, None)], map[user := 0]);
            && OverridePlan(GrantFor(rows, user, 5), 20) == None
            && OverridePlan(GrantFor(rows, user, 20), 20) == Some("pro")
  {
    var overrides := [OverrideRow(user, "pro", 0, 100, None), OverrideRow(user, "api_pro", 0, 10, None)];
    var rows := Rows([], overrides, map[user := 0]);
    assert LiveOverride(overrides, user, 5) == Some(1);
    assert overrides[..1] == [overrides[0]];
    assert LiveOverride(overrides, user, 20) == Some(0);
  }

  /** From the end of its grace an unpaid account is Free, whatever its session keeps and though no job ever runs. */
  lemma {:induction false} UnpaidIsFreeFromGraceEnd(catalog: Catalog, rows: Rows, user: nat, key: string, r: Time, t: Time, row: SubRow)
    requires Sound(catalog) && key in ENTITLEMENT_KEYS
    requires OneLiveEach(rows.subs) && r <= t
    requires row in rows.subs && row.user == user && row.liveStatus && row.graceEndsAt.Some? && row.graceEndsAt.value <= t
    requires OverridePlan(GrantFor(rows, user, r), t).None?
    ensures Answer(catalog, GrantFor(rows, user, r), key, t, t) == catalog[FREE].values[key]
    ensures PlanOf(catalog, GrantFor(rows, user, r), t) == catalog[FREE]
  {
    CachedSubscription(rows, user, r, t);
    var now := LiveSub(rows.subs, user, t);
    if now.Some? {
      OneLiveRow(rows.subs, row, now.value);
    }
  }

  // ----- what a session stores -----

  datatype Json = Null | Text(text: string) | Values(values: map<string, Value>)

  function WriteSlug(slug: Option<string>): Json {
    if slug.Some? then Text(slug.value) else Null
  }

  function WriteTime(at: Option<Time>, iso: Time -> string): Json {
    if at.Some? then Text(iso(at.value)) else Null
  }

  function ToJson(grant: Grant, iso: Time -> string): map<string, Json> {
    map["plan" := WriteSlug(grant.plan),
        "grandfathered" := WriteSlug(grant.grandfathered),
        "overrides" := Values(grant.own),
        "ends_at" := WriteTime(grant.endsAt, iso),
        "started_at" := WriteTime(grant.startedAt, iso),
        "override" := WriteSlug(grant.override),
        "override_ends_at" := WriteTime(grant.overrideEndsAt, iso)]
  }

  function ReadTime(stored: map<string, Json>, name: string, parse: string -> Time): Option<Time> {
    if name in stored && stored[name].Text? && stored[name].text != "" then Some(parse(stored[name].text)) else None
  }

  function ReadSlug(stored: map<string, Json>, name: string): Option<string> {
    if name in stored && stored[name].Text? then Some(stored[name].text) else None
  }

  function FromJson(stored: map<string, Json>, parse: string -> Time): Grant
    requires "overrides" in stored && stored["overrides"].Values?
  {
    Grant(ReadSlug(stored, "plan"), ReadSlug(stored, "grandfathered"), stored["overrides"].values,
          ReadTime(stored, "ends_at", parse), ReadTime(stored, "started_at", parse),
          ReadSlug(stored, "override"), ReadTime(stored, "override_ends_at", parse))
  }

  lemma {:induction false} TimeReadsBack(at: Option<Time>, stored: map<string, Json>, name: string, iso: Time -> string, parse: string -> Time)
    requires forall t :: iso(t) != "" && parse(iso(t)) == t
    requires name in stored && stored[name] == WriteTime(at, iso)
    ensures ReadTime(stored, name, parse) == at
  {
    if at.Some? {
      assert iso(at.value) != "" && parse(iso(at.value)) == at.value;
    }
  }

  /** A grant read back from a session is the grant that was stored, given that instants print and parse. */
  lemma {:induction false} StoredGrantReadsBack(grant: Grant, iso: Time -> string, parse: string -> Time)
    requires forall t :: iso(t) != "" && parse(iso(t)) == t
    ensures FromJson(ToJson(grant, iso), parse) == grant
  {
    var stored := ToJson(grant, iso);
    TimeReadsBack(grant.endsAt, stored, "ends_at", iso, parse);
    TimeReadsBack(grant.startedAt, stored, "started_at", iso, parse);
    TimeReadsBack(grant.overrideEndsAt, stored, "override_ends_at", iso, parse);
  }
}

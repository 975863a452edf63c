/** What the billing tables grant: the subscription rows that webhooks and the hourly job write
    (app/accounts/billing.py), read as entitlements (app/accounts/entitlements.py). */
module BillingEntitlements {
  import opened Wrappers
  import opened Billing
  import opened BillingInvariants
  import opened BillingConfluence
  import E = Entitlements

  function SlugOf(plans: seq<Plan>, plan: nat): string {
    if plan < |plans| then plans[plan].slug else ""
  }

  /** One row of the subscription table, with the values of its own that the account was given. */
  function Granting(plans: seq<Plan>, row: Subscription, own: map<string, E.Value>): E.SubRow {
    E.SubRow(row.user, Live(row.status), SlugOf(plans, row.plan),
             if row.grandfathered.Some? then Some(SlugOf(plans, row.grandfathered.value)) else None,
             row.cancelAt, row.graceEndsAt, row.createdAt, own)
  }

  /** The rows grants are read from; nothing in billing writes the own values, or the overrides. */
  function RowsOf(db: Database, own: nat -> map<string, E.Value>, overrides: seq<E.OverrideRow>, since: map<nat, E.Time>): E.Rows {
    E.Rows(seq(|db.subs|, i requires 0 <= i < |db.subs| => Granting(db.plans, db.subs[i], own(i))), overrides, since)
  }

  lemma {:induction false} OneLiveRowEach(db: Database, own: nat -> map<string, E.Value>, overrides: seq<E.OverrideRow>, since: map<nat, E.Time>)
    requires UniqueLive(db.subs)
    ensures E.OneLiveEach(RowsOf(db, own, overrides, since).subs)
  {
    var subs := RowsOf(db, own, overrides, since).subs;
    forall i, j | 0 <= i < j < |subs| && subs[i].liveStatus && subs[j].liveStatus ensures subs[i].user != subs[j].user {
      assert subs[i] == Granting(db.plans, db.subs[i], own(i));
      assert subs[j] == Granting(db.plans, db.subs[j], own(j));
    }
  }

  /** After any run of webhooks, jobs, cancellations and deletions, whether or not the job ever ran: an account in
      dunning has Free's answer for every key from the moment its grace ends, by a grant read from the rows before that
      moment or after it. */
  lemma {:induction false} DunnedIsFreeFromGraceEnd(settings: Settings, start: Database, run: seq<Step>, i: nat,
      own: nat -> map<string, E.Value>, overrides: seq<E.OverrideRow>, since: map<nat, E.Time>,
      catalog: E.Catalog, key: string, r: E.Time, t: E.Time)
    requires Inv(settings, start) && E.Sound(catalog) && key in E.ENTITLEMENT_KEYS && r <= t
    requires var db := Play(settings, start, run);
             && i < |db.subs| && Dunning(db.subs[i]) && db.subs[i].graceEndsAt.Some? && db.subs[i].graceEndsAt.value <= t
             && E.OverridePlan(E.GrantFor(RowsOf(db, own, overrides, since), db.subs[i].user, r), t).None?
    ensures var db := Play(settings, start, run);
            var grant := E.GrantFor(RowsOf(db, own, overrides, since), db.subs[i].user, r);
            && E.Answer(catalog, grant, key, t, t) == catalog[E.FREE].values[key]
            && E.PlanOf(catalog, grant, t) == catalog[E.FREE]
  {
    var db := Play(settings, start, run);
    EveryRunKeepsInv(settings, start, run);
    assert RowOk(settings, db.plans, db.subs[i]);
    var rows := RowsOf(db, own, overrides, since);
    OneLiveRowEach(db, own, overrides, since);
    assert rows.subs[i] == Granting(db.plans, db.subs[i], own(i));
    E.UnpaidIsFreeFromGraceEnd(catalog, rows, db.subs[i].user, key, r, t, rows.subs[i]);
  }

  /** And by one its session has kept, if it was read at any point of the dunning: the grace has not moved since. */
  lemma {:induction false} KeptGrantIsFreeFromGraceEnd(settings: Settings, start: Database, before: seq<Step>, later: seq<Step>, i: nat,
      own: nat -> map<string, E.Value>, overrides: seq<E.OverrideRow>, since: map<nat, E.Time>,
      catalog: E.Catalog, key: string, r: E.Time, t: E.Time)
    requires Inv(settings, start) && E.Sound(catalog) && key in E.ENTITLEMENT_KEYS && r <= t
    requires var read := Play(settings, start, before);
             && i < |read.subs| && DunnedThroughout(settings, read, later, i)
             && E.OverridePlan(E.GrantFor(RowsOf(read, own, overrides, since), read.subs[i].user, r), t).None?
    requires var now := Play(settings, Play(settings, start, before), later).subs[i];
             now.graceEndsAt.Some? && now.graceEndsAt.value <= t
    ensures var read := Play(settings, start, before);
            var kept := E.GrantFor(RowsOf(read, own, overrides, since), read.subs[i].user, r);
            E.Answer(catalog, kept, key, t, t) == catalog[E.FREE].values[key] && E.PlanOf(catalog, kept, t) == catalog[E.FREE]
  {
    EveryRunKeepsInv(settings, start, before);
    GraceStandsWhileDunned(settings, Play(settings, start, before), later, i);
    DunnedIsFreeFromGraceEnd(settings, start, before, i, own, overrides, since, catalog, key, r, t);
  }

  /** And so an account whose renewal was paid, but whose past_due event came late, is Free from the grace's end for
      as long as every event says it is paid. */
  lemma {:induction false} PaidButFree(settings: Settings, db: Database, run: seq<Step>, i: nat, grace: Time,
      own: nat -> map<string, E.Value>, overrides: seq<E.OverrideRow>, since: map<nat, E.Time>,
      catalog: E.Catalog, key: string, r: E.Time, t: E.Time)
    requires Inv(settings, db) && Stuck(db.subs, i, grace)
    requires forall k :: 0 <= k < |run| ==>
               i < |Play(settings, db, run[..k]).subs| && !MayFree(settings, Play(settings, db, run[..k]), run[k], i)
    requires E.Sound(catalog) && key in E.ENTITLEMENT_KEYS && r <= t && grace <= t
    requires i < |Play(settings, db, run).subs|
    requires var now := Play(settings, db, run);
             E.OverridePlan(E.GrantFor(RowsOf(now, own, overrides, since), now.subs[i].user, r), t).None?
    ensures var now := Play(settings, db, run);
            && Paid(now.subs[i].status)
            && E.Answer(catalog, E.GrantFor(RowsOf(now, own, overrides, since), now.subs[i].user, r), key, t, t)
               == catalog[E.FREE].values[key]
  {
    StuckForGood(settings, db, run, i, grace);
    DunnedIsFreeFromGraceEnd(settings, db, run, i, own, overrides, since, catalog, key, r, t);
  }
}

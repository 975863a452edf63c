/** The mirrored columns converge: whatever order Paddle's webhooks arrive in and however often, a
    subscription ends as its newest event says. The dunning columns do not, and this says exactly when. */
module BillingConfluence {
  import opened Wrappers
  import opened Billing
  import opened BillingInvariants

  /** What is overwritten from scratch at every event, and so can converge. */
  datatype Mirror = Mirror(plan: nat, status: Status, periodEnd: Option<Time>, cancelAt: Option<Time>, eventAt: Option<Time>)

  function MirrorOf(row: Subscription): Mirror {
    Mirror(row.plan, row.status, row.periodEnd, row.cancelAt, row.eventAt)
  }

  predicate Legible(settings: Settings, plans: seq<Plan>, e: Notification) {
    Terms(settings, plans, e.data).Success? && Readable(e.data, false)
  }

  /** What the event says of the subscription, with no database in sight. */
  function Intended(settings: Settings, plans: seq<Plan>, e: Notification): Mirror
    requires Legible(settings, plans, e)
  {
    var (status, plan) := Terms(settings, plans, e.data).value;
    Mirror(plan, status, ParseTime(e.data.periodEnds), CancelDate(e.data), Some(e.occurredAt))
  }

  /** A subscription event of the Paddle id that committed, whether it was applied or stale. */
  predicate Accepts(settings: Settings, db: Database, step: Step, p: string) {
    && step.Webhook?
    && step.e.eventType in SUBSCRIPTION_EVENTS && step.e.data.id == Some(p)
    && step.e.id !in db.events
    && ApplySubscription(settings, db, step.e, step.now).Success?
    && ApplySubscription(settings, db, step.e, step.now).value.1.outcome in {Applied, Stale}
  }

  /** The subscription events of the Paddle id a run accepted, in order of arrival. */
  function Accepted(settings: Settings, db: Database, run: seq<Step>, p: string): seq<Notification> {
    if run == [] then []
    else
      var earlier, step := run[..|run| - 1], run[|run| - 1];
      Accepted(settings, db, earlier, p)
      + (if Accepts(settings, Play(settings, db, earlier), step, p) then [step.e] else [])
  }

  /** The last to arrive among the newest by Paddle's clock. */
  function Newest(h: seq<Notification>): Notification
    requires h != []
  {
    var last := h[|h| - 1];
    if |h| == 1 then last
    else
      var before := Newest(h[..|h| - 1]);
      if last.occurredAt < before.occurredAt then before else last
  }

  lemma {:induction false} NewestIsNewest(h: seq<Notification>)
    requires h != []
    ensures Newest(h) in h
    ensures forall e :: e in h ==> e.occurredAt <= Newest(h).occurredAt
  {
    if |h| > 1 {
      NewestIsNewest(h[..|h| - 1]);
    }
  }

  lemma {:induction false} LocatedAt(subs: seq<Subscription>, p: string, i: nat)
    requires UniquePaddleIds(subs)
    requires i < |subs| && subs[i].paddleId == Some(p)
    ensures Locate(subs, p) == Some(i)
  {
  }

  /** The mirror of the row of the Paddle id, when there is one. */
  function Seen(subs: seq<Subscription>, p: string): Option<Mirror> {
    var at := Locate(subs, p);
    if at.Some? then Some(MirrorOf(subs[at.value])) else None
  }

  lemma {:induction false} SameMirror(before: seq<Subscription>, after: seq<Subscription>, p: string)
    requires UniquePaddleIds(before) && UniquePaddleIds(after) && |before| <= |after|
    requires forall i :: 0 <= i < |before| ==> after[i].paddleId == before[i].paddleId
    requires forall i :: 0 <= i < |before| && before[i].paddleId == Some(p) ==> MirrorOf(after[i]) == MirrorOf(before[i])
    requires forall i :: |before| <= i < |after| ==> after[i].paddleId != Some(p)
    ensures Seen(after, p) == Seen(before, p)
  {
    var at := Locate(before, p);
    if at.Some? {
      LocatedAt(after, p, at.value);
    }
  }

  /** A step that applies a subscription event; every other one leaves the rows' mirrors alone. */
  predicate Applies(settings: Settings, db: Database, step: Step) {
    && step.Webhook?
    && step.e.eventType in SUBSCRIPTION_EVENTS
    && step.e.id !in db.events
    && ApplySubscription(settings, db, step.e, step.now).Success?
    && ApplySubscription(settings, db, step.e, step.now).value.1.outcome == Applied
  }

  predicate OnlyDunningDiffers(before: seq<Subscription>, after: seq<Subscription>) {
    && |after| == |before|
    && forall i :: 0 <= i < |before| ==>
         after[i] == before[i].(pastDueSince := after[i].pastDueSince, graceEndsAt := after[i].graceEndsAt, notified := after[i].notified)
  }

  lemma {:induction false} OthersTouchDunningOnly(settings: Settings, db: Database, step: Step)
    requires !step.Cancel? && !Applies(settings, db, step)
    ensures OnlyDunningDiffers(db.subs, Perform(settings, db, step).0.subs)
    ensures Perform(settings, db, step).0.plans == db.plans && Perform(settings, db, step).0.users.Keys == db.users.Keys
    ensures step.Webhook? && step.e.eventType == PAYMENT_FAILED ==> Perform(settings, db, step).0.events.Keys == db.events.Keys + {step.e.id}
    ensures !step.Webhook? ==> Perform(settings, db, step).0.events == db.events
  {
    match step
    case Webhook(e, now) =>
      if e.eventType == PAYMENT_FAILED {
        FailedPaymentTouchesDunningOnly(settings, db, e);
      }
    case Dun(now) =>
    case SetDeleted(user, deleted) =>
  }

  lemma {:induction false} FailedPaymentTouchesDunningOnly(settings: Settings, db: Database, e: Notification)
    ensures OnlyDunningDiffers(db.subs, ApplyPaymentFailed(settings, db, e).0)
  {
  }

  lemma {:induction false} OthersKeepMirror(settings: Settings, db: Database, step: Step, p: string)
    requires Inv(settings, db) && !step.Cancel? && !Applies(settings, db, step)
    ensures Seen(Perform(settings, db, step).0.subs, p) == Seen(db.subs, p)
  {
    InvKept(settings, db, step);
    OthersTouchDunningOnly(settings, db, step);
    SameMirror(db.subs, Perform(settings, db, step).0.subs, p);
  }

  lemma {:induction false} AppliedKeepsOthers(settings: Settings, db: Database, e: Notification, now: Time, p: string)
    requires Inv(settings, db) && Applies(settings, db, Webhook(e, now)) && e.data.id != Some(p)
    ensures Seen(Deliver(settings, db, e, now).db.subs, p) == Seen(db.subs, p)
  {
    WebhookKeepsInv(settings, db, e, now);
    SubscriptionApplied(settings, db, e, now);
    SameMirror(db.subs, Deliver(settings, db, e, now).db.subs, p);
  }

  /** One step: the row of the Paddle id mirrors the event accepted unless it is older; no other step touches the mirror. */
  lemma {:induction false} StepMirrors(settings: Settings, db: Database, step: Step, p: string)
    requires Inv(settings, db) && !step.Cancel?
    ensures var after := Perform(settings, db, step).0;
            && after.plans == db.plans
            && if Accepts(settings, db, step, p) then
                 var seen := Seen(db.subs, p);
                 if seen.Some? && seen.value.eventAt.Some? && step.e.occurredAt < seen.value.eventAt.value
                 then Seen(after.subs, p) == seen
                 else Legible(settings, db.plans, step.e) && Seen(after.subs, p) == Some(Intended(settings, db.plans, step.e))
               else Seen(after.subs, p) == Seen(db.subs, p)
  {
    if !Applies(settings, db, step) {
      OthersKeepMirror(settings, db, step, p);
    } else if step.e.data.id != Some(p) {
      AppliedKeepsOthers(settings, db, step.e, step.now, p);
    } else {
      WebhookKeepsInv(settings, db, step.e, step.now);
      SubscriptionApplied(settings, db, step.e, step.now);
      AppliedMirrors(settings, db, step.e, step.now);
      var at := Locate(db.subs, p);
      LocatedAt(Perform(settings, db, step).0.subs, p, if at.Some? then at.value else |db.subs|);
    }
  }

  lemma {:induction false} AppliedMirrors(settings: Settings, db: Database, e: Notification, now: Time)
    requires ApplySubscription(settings, db, e, now).Success?
    requires ApplySubscription(settings, db, e, now).value.1.outcome == Applied
    ensures var at := Locate(db.subs, e.data.id.value);
            var place := if at.Some? then at.value else |db.subs|;
            && Legible(settings, db.plans, e)
            && place < |ApplySubscription(settings, db, e, now).value.0|
            && MirrorOf(ApplySubscription(settings, db, e, now).value.0[place]) == Intended(settings, db.plans, e)
            && (at.Some? && db.subs[place].eventAt.Some? ==> db.subs[place].eventAt.value <= e.occurredAt)
  {
  }

  /** The mirror is what the newest of the events says, and there is none while there are none. */
  predicate MirrorsThe(settings: Settings, plans: seq<Plan>, seen: Option<Mirror>, h: seq<Notification>) {
    if h == [] then seen.None?
    else Legible(settings, plans, Newest(h)) && seen == Some(Intended(settings, plans, Newest(h)))
  }

  lemma {:induction false} OneMoreAccepted(settings: Settings, plans: seq<Plan>, seen: Option<Mirror>, after: Option<Mirror>, h: seq<Notification>, e: Notification)
    requires MirrorsThe(settings, plans, seen, h)
    requires if seen.Some? && seen.value.eventAt.Some? && e.occurredAt < seen.value.eventAt.value then after == seen
             else Legible(settings, plans, e) && after == Some(Intended(settings, plans, e))
    ensures MirrorsThe(settings, plans, after, h + [e])
  {
    var longer := h + [e];
    assert longer[..|longer| - 1] == h;
  }

  lemma {:induction false} MirrorFollows(settings: Settings, db: Database, step: Step, p: string, h: seq<Notification>)
    requires Inv(settings, db) && !step.Cancel?
    requires MirrorsThe(settings, db.plans, Seen(db.subs, p), h)
    ensures var after := Perform(settings, db, step).0;
            && after.plans == db.plans
            && MirrorsThe(settings, db.plans, Seen(after.subs, p), h + (if Accepts(settings, db, step, p) then [step.e] else []))
  {
    StepMirrors(settings, db, step, p);
    if Accepts(settings, db, step, p) {
      OneMoreAccepted(settings, db.plans, Seen(db.subs, p), Seen(Perform(settings, db, step).0.subs, p), h, step.e);
    } else {
      assert h + [] == h;
    }
  }

  /** Over every run without a cancellation, the row of a Paddle id mirrors the newest event accepted for it,
      the last to arrive should two have happened at one instant; while none is accepted there is no row. */
  lemma {:induction false} MirrorsNewest(settings: Settings, db: Database, run: seq<Step>, p: string)
    requires Inv(settings, db) && Locate(db.subs, p).None?
    requires forall k :: 0 <= k < |run| ==> !run[k].Cancel?
    ensures Play(settings, db, run).plans == db.plans
    ensures MirrorsThe(settings, db.plans, Seen(Play(settings, db, run).subs, p), Accepted(settings, db, run, p))
  {
    if run != [] {
      var earlier, step := run[..|run| - 1], run[|run| - 1];
      MirrorsNewest(settings, db, earlier, p);
      EveryRunKeepsInv(settings, db, earlier);
      MirrorFollows(settings, Play(settings, db, earlier), step, p, Accepted(settings, db, earlier, p));
    }
  }

  // ----- a set of events, delivered in any order -----

  /** An event that can be read and placed: its status, price, plan and times are known, and it names an account
      there is. */
  predicate Clean(settings: Settings, db: Database, p: string, e: Notification) {
    && e.eventType in SUBSCRIPTION_EVENTS && e.data.id == Some(p)
    && Terms(settings, db.plans, e.data).Success? && Readable(e.data, true)
    && e.data.userId.Some? && e.data.userId.value in db.users
  }

  predicate OneIdEach(events: set<Notification>) {
    forall a, b :: a in events && b in events && a.id == b.id ==> a == b
  }

  /** An event of another of Paddle's subscriptions. */
  predicate OfAnother(step: Step, p: string) {
    step.Webhook? && step.e.eventType in SUBSCRIPTION_EVENTS && step.e.data.id != Some(p)
  }

  /** The events; others, of other types or of other subscriptions; the job, and accounts deleted or restored: in any
      order, with any repeats. */
  predicate Delivers(events: set<Notification>, run: seq<Step>, p: string) {
    forall k :: 0 <= k < |run| ==>
      match run[k]
      case Webhook(e, _) =>
        e in events || ((e.eventType !in SUBSCRIPTION_EVENTS || e.data.id != Some(p)) && forall d :: d in events ==> d.id != e.id)
      case Dun(_) => true
      case SetDeleted(_, _) => true
      case Cancel(_, _) => false
  }

  predicate Delivered(run: seq<Step>, e: Notification) {
    exists k :: 0 <= k < |run| && run[k].Webhook? && run[k].e == e
  }

  /** No account the events name has another live subscription. */
  predicate Alone(subs: seq<Subscription>, events: set<Notification>, p: string) {
    forall e :: e in events && e.data.userId.Some? ==> !HasOtherLive(subs, e.data.userId.value, p)
  }

  /** None has at the start, and no event of another subscription gives it one. */
  predicate StaysAlone(settings: Settings, db: Database, events: set<Notification>, run: seq<Step>, p: string) {
    if run == [] then Alone(db.subs, events, p)
    else
      && StaysAlone(settings, db, events, run[..|run| - 1], p)
      && (OfAnother(run[|run| - 1], p) ==> Alone(Play(settings, db, run).subs, events, p))
  }

  /** The row of the Paddle id, when there is one, is of an account the events name. */
  predicate Named(subs: seq<Subscription>, events: set<Notification>, p: string) {
    var at := Locate(subs, p);
    at.Some? ==> exists e :: e in events && e.data.userId == Some(subs[at.value].user)
  }

  /** Part way through a run. */
  predicate Undisturbed(db: Database, now: Database, events: set<Notification>, p: string) {
    && now.plans == db.plans && now.users.Keys == db.users.Keys
    && Alone(now.subs, events, p) && Named(now.subs, events, p)
  }

  /** Every row of another subscription was there, as live and of the same account. */
  predicate OthersAlike(before: seq<Subscription>, after: seq<Subscription>, p: string) {
    forall i :: 0 <= i < |after| && after[i].paddleId != Some(p) ==>
      i < |before| && before[i].user == after[i].user && before[i].status == after[i].status && before[i].paddleId == after[i].paddleId
  }

  lemma {:induction false} OtherWasLive(before: seq<Subscription>, after: seq<Subscription>, user: nat, p: string)
    requires OthersAlike(before, after, p)
    ensures HasOtherLive(after, user, p) ==> HasOtherLive(before, user, p)
  {
    if HasOtherLive(after, user, p) {
      var i :| 0 <= i < |after| && after[i].user == user && Live(after[i].status) && after[i].paddleId != Some(p);
      assert Live(before[i].status);
    }
  }

  lemma {:induction false} StillAlone(before: seq<Subscription>, after: seq<Subscription>, events: set<Notification>, p: string)
    requires OthersAlike(before, after, p) && Alone(before, events, p)
    ensures Alone(after, events, p)
  {
    forall e | e in events && e.data.userId.Some? ensures !HasOtherLive(after, e.data.userId.value, p) {
      OtherWasLive(before, after, e.data.userId.value, p);
    }
  }

  /** A clean event not yet delivered is accepted. */
  lemma {:induction false} CleanIsAccepted(settings: Settings, db: Database, now: Database, events: set<Notification>, p: string, e: Notification, at: Time)
    requires Inv(settings, now)
    requires forall d :: d in events ==> Clean(settings, db, p, d)
    requires Undisturbed(db, now, events, p) && e in events && e.id !in now.events
    ensures Accepts(settings, now, Webhook(e, at), p)
  {
    var there := Locate(now.subs, p);
    assert Clean(settings, db, p, e);
    if there.Some? {
      var d :| d in events && d.data.userId == Some(now.subs[there.value].user);
      assert !HasOtherLive(now.subs, d.data.userId.value, p);
    } else {
      assert Owner(now, e.data) == e.data.userId;
    }
  }

  /** And it leaves the run undisturbed. */
  lemma {:induction false} CleanDisturbsNone(settings: Settings, db: Database, now: Database, events: set<Notification>, p: string, e: Notification, at: Time)
    requires Inv(settings, now) && Undisturbed(db, now, events, p) && e in events && Clean(settings, db, p, e)
    requires Accepts(settings, now, Webhook(e, at), p)
    ensures Undisturbed(db, Deliver(settings, now, e, at).db, events, p)
    ensures Deliver(settings, now, e, at).db.events.Keys == now.events.Keys + {e.id}
  {
    SubscriptionApplied(settings, now, e, at);
    var (subs, handled) := ApplySubscription(settings, now, e, at).value;
    if handled.outcome == Applied {
      var there := Locate(now.subs, p);
      var place := if there.Some? then there.value else |now.subs|;
      StillAlone(now.subs, subs, events, p);
      WebhookKeepsInv(settings, now, e, at);
      LocatedAt(subs, p, place);
      if there.None? {
        NewRowIsOwners(settings, now, e, at);
        assert subs[place].user == e.data.userId.value;
      }
    }
  }

  lemma {:induction false} NewRowIsOwners(settings: Settings, db: Database, e: Notification, now: Time)
    requires ApplySubscription(settings, db, e, now).Success?
    requires ApplySubscription(settings, db, e, now).value.1.outcome == Applied && Locate(db.subs, e.data.id.value).None?
    ensures var subs := ApplySubscription(settings, db, e, now).value.0;
            |subs| == |db.subs| + 1 && Owner(db, e.data) == Some(subs[|db.subs|].user)
  {
  }

  lemma {:induction false} DeliveredOneMore(earlier: seq<Step>, step: Step, e: Notification)
    ensures Delivered(earlier + [step], e) <==> Delivered(earlier, e) || (step.Webhook? && step.e == e)
  {
    var run := earlier + [step];
    assert run[|earlier|] == step;
    if Delivered(earlier, e) {
      var k :| 0 <= k < |earlier| && earlier[k].Webhook? && earlier[k].e == e;
      assert run[k] == earlier[k];
    }
  }

  /** What has been delivered so far of the set is what the event log knows of it. */
  predicate KnowsDelivered(db: Database, events: set<Notification>, run: seq<Step>) {
    forall e :: e in events ==> (e.id in db.events <==> Delivered(run, e))
  }

  lemma {:induction false} SameNamed(before: seq<Subscription>, after: seq<Subscription>, events: set<Notification>, p: string)
    requires UniquePaddleIds(before) && UniquePaddleIds(after) && |before| <= |after| && Named(before, events, p)
    requires forall i :: 0 <= i < |before| ==> after[i].paddleId == before[i].paddleId && after[i].user == before[i].user
    requires forall i :: |before| <= i < |after| ==> after[i].paddleId != Some(p)
    ensures Named(after, events, p)
  {
    var at := Locate(before, p);
    if at.Some? {
      LocatedAt(after, p, at.value);
    }
  }

  lemma {:induction false} StepKnows(settings: Settings, db: Database, step: Step)
    ensures var after := Perform(settings, db, step).0;
            after.plans == db.plans && after.users.Keys == db.users.Keys
            && db.events.Keys <= after.events.Keys <= db.events.Keys + (if step.Webhook? then {step.e.id} else {})
  {
  }

  /** A step of anything else accepts nothing of the Paddle id, and leaves the run undisturbed. */
  lemma {:induction false} OtherStepIsNotAccepted(settings: Settings, db: Database, before: Database, events: set<Notification>, step: Step, p: string)
    requires Inv(settings, before) && Undisturbed(db, before, events, p)
    requires !step.Cancel? && (step.Webhook? ==> step.e.eventType !in SUBSCRIPTION_EVENTS || step.e.data.id != Some(p))
    requires OfAnother(step, p) ==> Alone(Perform(settings, before, step).0.subs, events, p)
    ensures !Accepts(settings, before, step, p)
    ensures Undisturbed(db, Perform(settings, before, step).0, events, p)
  {
    var after := Perform(settings, before, step).0;
    StepKnows(settings, before, step);
    InvKept(settings, before, step);
    if Applies(settings, before, step) {
      SubscriptionApplied(settings, before, step.e, step.now);
    } else {
      OthersTouchDunningOnly(settings, before, step);
      StillAlone(before.subs, after.subs, events, p);
    }
    SameNamed(before.subs, after.subs, events, p);
  }

  /** A step's event is accepted when it is the first delivery of one of the set, and then only. */
  lemma {:induction false} StepAccepts(settings: Settings, db: Database, before: Database, events: set<Notification>,
                                       earlier: seq<Step>, step: Step, p: string)
    requires Inv(settings, before) && OneIdEach(events)
    requires forall e :: e in events ==> Clean(settings, db, p, e)
    requires Undisturbed(db, before, events, p) && KnowsDelivered(before, events, earlier) && Delivers(events, [step], p)
    requires OfAnother(step, p) ==> Alone(Perform(settings, before, step).0.subs, events, p)
    ensures var after := Perform(settings, before, step).0;
            && Undisturbed(db, after, events, p) && KnowsDelivered(after, events, earlier + [step])
            && (Accepts(settings, before, step, p) <==> step.Webhook? && step.e in events && !Delivered(earlier, step.e))
  {
    assert [step][0] == step;
    forall e ensures Delivered(earlier + [step], e) <==> Delivered(earlier, e) || (step.Webhook? && step.e == e) {
      DeliveredOneMore(earlier, step, e);
    }
    StepKnows(settings, before, step);
    if step.Webhook? && step.e in events {
      if step.e.id !in before.events {
        CleanIsAccepted(settings, db, before, events, p, step.e, step.now);
        CleanDisturbsNone(settings, db, before, events, p, step.e, step.now);
      }
    } else {
      OtherStepIsNotAccepted(settings, db, before, events, step, p);
    }
  }

  /** The deliveries that are accepted are each event's first. */
  lemma {:induction false} RunAcceptsAll(settings: Settings, db: Database, events: set<Notification>, run: seq<Step>, p: string)
    requires Inv(settings, db) && Locate(db.subs, p).None?
    requires OneIdEach(events) && forall e :: e in events ==> Clean(settings, db, p, e) && e.id !in db.events
    requires Delivers(events, run, p) && StaysAlone(settings, db, events, run, p)
    ensures Undisturbed(db, Play(settings, db, run), events, p) && KnowsDelivered(Play(settings, db, run), events, run)
    ensures forall e :: e in Accepted(settings, db, run, p) <==> e in events && Delivered(run, e)
  {
    if run != [] {
      var earlier, step := run[..|run| - 1], run[|run| - 1];
      RunAcceptsAll(settings, db, events, earlier, p);
      EveryRunKeepsInv(settings, db, earlier);
      assert run == earlier + [step];
      StepAccepts(settings, db, Play(settings, db, earlier), events, earlier, step, p);
      forall e ensures Delivered(run, e) <==> Delivered(earlier, e) || (step.Webhook? && step.e == e) {
        DeliveredOneMore(earlier, step, e);
      }
    }
  }

  /** Confluence: any two deliveries of the same clean events, each in its own order and with its own repeats, and with
      other events, job runs and deletions in between, leave the plan, status, period end, cancellation date and event
      time the newest event says, while no event of another subscription gives the account a second live one. */
  lemma {:induction false} Confluence(settings: Settings, db: Database, events: set<Notification>, newest: Notification, run: seq<Step>, p: string)
    requires Inv(settings, db) && Locate(db.subs, p).None?
    requires OneIdEach(events) && forall e :: e in events ==> Clean(settings, db, p, e) && e.id !in db.events
    requires newest in events && forall e :: e in events && e != newest ==> e.occurredAt < newest.occurredAt
    requires Delivers(events, run, p) && StaysAlone(settings, db, events, run, p)
    requires forall e :: e in events ==> Delivered(run, e)
    ensures Legible(settings, db.plans, newest)
    ensures Seen(Play(settings, db, run).subs, p) == Some(Intended(settings, db.plans, newest))
  {
    RunAcceptsAll(settings, db, events, run, p);
    assert forall k :: 0 <= k < |run| ==> !run[k].Cancel?;
    MirrorsNewest(settings, db, run, p);
    var h := Accepted(settings, db, run, p);
    assert newest in h;
    NewestIsNewest(h);
  }

  // ----- the dunning does not converge -----

  /** An applied event that pays ends the row's dunning exactly when the event before it said past_due. A dunning
      that a failed payment started, whose past_due event has not been applied, outlives the recovery. */
  lemma {:induction false} PaidEndsDunningIff(settings: Settings, db: Database, e: Notification, now: Time)
    requires Inv(settings, db) && Applies(settings, db, Webhook(e, now))
    requires Locate(db.subs, e.data.id.value).Some? && ParseStatus(e.data.status).Some? && Paid(ParseStatus(e.data.status).value)
    ensures var i := Locate(db.subs, e.data.id.value).value;
            Dunning(db.subs[i]) ==>
              (!Dunning(Deliver(settings, db, e, now).db.subs[i]) <==> db.subs[i].status == PastDue)
  {
  }

  /** The row is dunned, paid for, and never said to be past due. */
  predicate Stuck(subs: seq<Subscription>, i: nat, grace: Time) {
    i < |subs| && Dunning(subs[i]) && Paid(subs[i].status) && subs[i].paddleId.Some? && subs[i].graceEndsAt == Some(grace)
  }

  /** A step that could free it: a cancellation, or an event for it that says anything but paid. */
  predicate MayFree(settings: Settings, db: Database, step: Step, i: nat)
    requires i < |db.subs|
  {
    || step.Cancel?
    || (Applies(settings, db, step) && step.e.data.id == db.subs[i].paddleId && !Paid(ParseStatus(step.e.data.status).value))
  }

  lemma {:induction false} StuckStays(settings: Settings, db: Database, step: Step, i: nat, grace: Time)
    requires Inv(settings, db) && Stuck(db.subs, i, grace) && !MayFree(settings, db, step, i)
    ensures Stuck(Perform(settings, db, step).0.subs, i, grace)
  {
    OwnersAndGraceKept(settings, db, step);
    if Applies(settings, db, step) {
      SubscriptionApplied(settings, db, step.e, step.now);
      if step.e.data.id == db.subs[i].paddleId {
        LocatedAt(db.subs, step.e.data.id.value, i);
        PaidEndsDunningIff(settings, db, step.e, step.now);
        AppliedMirrors(settings, db, step.e, step.now);
      }
    } else {
      StuckWithoutEvent(settings, db, step, i);
    }
  }

  lemma {:induction false} StuckWithoutEvent(settings: Settings, db: Database, step: Step, i: nat)
    requires Inv(settings, db) && !step.Cancel? && !Applies(settings, db, step)
    requires i < |db.subs| && Dunning(db.subs[i])
    ensures var after := Perform(settings, db, step).0.subs;
            i < |after| && Dunning(after[i]) && after[i].status == db.subs[i].status
  {
    OthersTouchDunningOnly(settings, db, step);
    if step.Webhook? && step.e.eventType == PAYMENT_FAILED && step.e.id !in db.events {
      assert ApplyPaymentFailed(settings, db, step.e).0[i].pastDueSince.Some?;
    }
  }

  /** However many later events say the subscription is paid, its plan still stops at the grace's end. */
  lemma {:induction false} StuckForGood(settings: Settings, db: Database, run: seq<Step>, i: nat, grace: Time)
    requires Inv(settings, db) && Stuck(db.subs, i, grace)
    requires forall k :: 0 <= k < |run| ==>
               i < |Play(settings, db, run[..k]).subs| && !MayFree(settings, Play(settings, db, run[..k]), run[k], i)
    ensures Stuck(Play(settings, db, run).subs, i, grace)
  {
    if run != [] {
      var earlier := run[..|run| - 1];
      forall k | 0 <= k < |earlier|
        ensures i < |Play(settings, db, earlier[..k]).subs| && !MayFree(settings, Play(settings, db, earlier[..k]), earlier[k], i)
      {
        assert earlier[..k] == run[..k];
      }
      StuckForGood(settings, db, earlier, i, grace);
      EveryRunKeepsInv(settings, db, earlier);
      StuckStays(settings, Play(settings, db, earlier), run[|run| - 1], i, grace);
    }
  }

  // One renewal that failed and recovered, as Paddle tells it.

  const SHOP := Settings([("pro", "pri_pro")], 7, 2)

  const EMPTY := Database(map[], [], map[1 := Account(false)], [Plan("pro", None)])

  function Told(id: string, at: Time, status: string): Notification {
    Notification(id, "subscription.updated", at,
                 Data(Some("sub_1"), status, ["pri_pro"], Some(1), None, Null, "", Null, Null, Null, None, ""))
  }

  const CREATED := Told("evt_1", 10, "active")
  const FAILED := Notification("evt_2", PAYMENT_FAILED, 20,
                               Data(Some("txn_1"), "", [], None, None, Null, "", Null, Null, Null, Some("sub_1"), RENEWAL_ORIGIN))
  const LAPSED := Told("evt_3", 30, "past_due")
  const RECOVERED := Told("evt_4", 40, "active")

  function After4(a: Notification, b: Notification, c: Notification, d: Notification): Database {
    var one := Deliver(SHOP, EMPTY, a, 0).db;
    var two := Deliver(SHOP, one, b, 0).db;
    var three := Deliver(SHOP, two, c, 0).db;
    Deliver(SHOP, three, d, 0).db
  }

  /** A database of the one subscription. */
  predicate OnlyRow(db: Database, row: Subscription) {
    db.subs == [row] && row.user == 1 && row.plan == 0 && row.paddleId == Some("sub_1") && db.users == EMPTY.users && db.plans == EMPTY.plans
  }

  lemma {:induction false} Sold(status: string)
    requires ParseStatus(status).Some?
    ensures Terms(SHOP, EMPTY.plans, Told("", 0, status).data) == Success((ParseStatus(status).value, 0))
  {
    assert FirstSold(SHOP, ["pri_pro"]) == Some("pro");
    assert PlanNamed(EMPTY.plans, "pro") == Some(0);
  }

  lemma {:induction false} FirstTold()
    ensures OnlyRow(Deliver(SHOP, EMPTY, CREATED, 0).db, NewRow(1, "sub_1", Active, 0, 0).(eventAt := Some(10)))
    ensures Deliver(SHOP, EMPTY, CREATED, 0).db.events.Keys == {"evt_1"}
  {
    Sold("active");
  }

  lemma {:induction false} ThenFailed(db: Database, row: Subscription)
    requires OnlyRow(db, row) && "evt_2" !in db.events && row.status == Active && row.eventAt == Some(10) && !Dunning(row)
    ensures OnlyRow(Deliver(SHOP, db, FAILED, 0).db, Dunned(SHOP, row, true, 20))
    ensures Deliver(SHOP, db, FAILED, 0).db.events.Keys == db.events.Keys + {"evt_2"}
  {
    assert FAILED.eventType !in SUBSCRIPTION_EVENTS;
  }

  /** Any later event of it rewrites the row as it says, and starts or ends the dunning as the status does. */
  lemma {:induction false} ThenTold(db: Database, row: Subscription, e: Notification, status: string)
    requires OnlyRow(db, row) && e == Told(e.id, e.occurredAt, status) && e.id !in db.events && ParseStatus(status).Some?
    requires row.eventAt.Some? && row.eventAt.value <= e.occurredAt
    requires row.grandfathered.None? && row.periodEnd.None? && row.cancelAt.None?
    ensures var told := row.(status := ParseStatus(status).value, eventAt := Some(e.occurredAt));
            OnlyRow(Deliver(SHOP, db, e, 0).db, DunningOf(SHOP, told, Some(row.status), true, e.occurredAt).0)
    ensures Deliver(SHOP, db, e, 0).db.events.Keys == db.events.Keys + {e.id}
  {
    Sold(status);
    assert !HasOtherLive(db.subs, 1, "sub_1");
    assert Mailable(db.users, 1);
  }

  lemma {:induction false} ThenStale(db: Database, row: Subscription, e: Notification, status: string)
    requires OnlyRow(db, row) && e == Told(e.id, e.occurredAt, status) && e.id !in db.events
    requires row.eventAt.Some? && e.occurredAt < row.eventAt.value
    ensures OnlyRow(Deliver(SHOP, db, e, 0).db, row)
  {
  }

  const STARTED := NewRow(1, "sub_1", Active, 0, 0).(eventAt := Some(10))

  function FirstTwo(): Database {
    Deliver(SHOP, Deliver(SHOP, EMPTY, CREATED, 0).db, FAILED, 0).db
  }

  lemma {:induction false} CreatedThenFailed()
    ensures OnlyRow(FirstTwo(), Dunned(SHOP, STARTED, true, 20))
    ensures FirstTwo().events.Keys == {"evt_1", "evt_2"}
  {
    FirstTold();
    ThenFailed(Deliver(SHOP, EMPTY, CREATED, 0).db, STARTED);
  }

  lemma {:induction false} LapsedThenRecovered()
    ensures OnlyRow(After4(CREATED, FAILED, LAPSED, RECOVERED), STARTED.(eventAt := Some(40)))
  {
    CreatedThenFailed();
    var failed := Dunned(SHOP, STARTED, true, 20);
    ThenTold(FirstTwo(), failed, LAPSED, "past_due");
    ThenTold(Deliver(SHOP, FirstTwo(), LAPSED, 0).db, failed.(status := PastDue, eventAt := Some(30)), RECOVERED, "active");
  }

  lemma {:induction false} RecoveredThenLapsed()
    ensures OnlyRow(After4(CREATED, FAILED, RECOVERED, LAPSED), Dunned(SHOP, STARTED, true, 20).(eventAt := Some(40)))
  {
    CreatedThenFailed();
    var failed := Dunned(SHOP, STARTED, true, 20);
    ThenTold(FirstTwo(), failed, RECOVERED, "active");
    ThenStale(Deliver(SHOP, FirstTwo(), RECOVERED, 0).db, failed.(eventAt := Some(40)), LAPSED, "past_due");
  }

  /** The same four events, the last two the other way round: the mirrors agree, and only one account is still
      being dunned for a renewal that was paid. */
  lemma {:induction false} DunningDependsOnOrder()
    ensures Seen(After4(CREATED, FAILED, LAPSED, RECOVERED).subs, "sub_1")
            == Seen(After4(CREATED, FAILED, RECOVERED, LAPSED).subs, "sub_1")
    ensures var told, late := After4(CREATED, FAILED, LAPSED, RECOVERED).subs, After4(CREATED, FAILED, RECOVERED, LAPSED).subs;
            && |told| == 1 && told[0].graceEndsAt == None
            && |late| == 1 && late[0].status == Active && late[0].graceEndsAt == Some(20 + 7 * DAY)
  {
    LapsedThenRecovered();
    RecoveredThenLapsed();
    OneMirror(After4(CREATED, FAILED, LAPSED, RECOVERED), STARTED.(eventAt := Some(40)));
    OneMirror(After4(CREATED, FAILED, RECOVERED, LAPSED), Dunned(SHOP, STARTED, true, 20).(eventAt := Some(40)));
  }

  lemma {:induction false} OneMirror(db: Database, row: Subscription)
    requires OnlyRow(db, row)
    ensures Seen(db.subs, "sub_1") == Some(MirrorOf(row))
  {
  }
}

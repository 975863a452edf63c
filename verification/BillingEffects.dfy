/** What each transaction of app/accounts/billing.py leaves behind, column by column and email by email, said of the
    tables before and after and of what the notification or Paddle said. */
module BillingEffects {
  import opened Wrappers
  import opened Billing
  import opened BillingInvariants
  import opened BillingDunning

  // ----- the vocabulary -----

  /** Each status as Paddle writes it. */
  function StatusName(s: Status): string {
    match s
    case Trialing => "trialing"
    case Active => "active"
    case PastDue => "past_due"
    case Paused => "paused"
    case Unpaid => "unpaid"
    case Canceled => "canceled"
    case Incomplete => "incomplete"
    case IncompleteExpired => "incomplete_expired"
  }

  /** A status is read from its own name and from no other. */
  lemma {:induction false} StatusReadsBack(name: string, s: Status)
    ensures ParseStatus(name) == Some(s) <==> name == StatusName(s)
  {
  }

  /** An email may be written to the account: it is there and not deleted. */
  predicate MayBeWrittenTo(db: Database, user: nat) {
    user in db.users && !db.users[user].deleted
  }

  /** No subscription but that of place i, of the user's, is trialing, active or past due. */
  predicate NoneLiveBut(subs: seq<Subscription>, user: nat, i: nat) {
    forall x :: 0 <= x < |subs| && x != i && subs[x].user == user ==> subs[x].status !in {Trialing, Active, PastDue}
  }

  lemma {:induction false} NoOtherLiveIff(subs: seq<Subscription>, user: nat, p: string, i: nat)
    requires UniquePaddleIds(subs)
    requires if i < |subs| then subs[i].paddleId == Some(p) else forall x :: 0 <= x < |subs| ==> subs[x].paddleId != Some(p)
    ensures HasOtherLive(subs, user, p) <==> !NoneLiveBut(subs, user, i)
  {
    if !NoneLiveBut(subs, user, i) {
      var x :| 0 <= x < |subs| && x != i && subs[x].user == user && subs[x].status in {Trialing, Active, PastDue};
      assert subs[x].paddleId != Some(p);
    }
  }

  /** The plan a subscription is sold as: that of the first of its prices that is sold, by the first setting that sells
      it, under that setting's slug. */
  predicate SoldAs(settings: Settings, plans: seq<Plan>, prices: seq<string>, k: nat, j: nat, plan: nat) {
    && FirstSoldAt(settings, prices, k, j)
    && plan < |plans| && plans[plan].slug == settings.prices[j].0
    && (forall q :: 0 <= q < |plans| && plans[q].slug == settings.prices[j].0 ==> q == plan)
  }

  predicate FirstSoldAt(settings: Settings, prices: seq<string>, k: nat, j: nat) {
    && k < |prices| && j < |settings.prices| && settings.prices[j].1 == prices[k]
    && (forall a, b :: 0 <= a < k && 0 <= b < |settings.prices| ==> settings.prices[b].1 != prices[a])
    && (forall b :: 0 <= b < j ==> settings.prices[b].1 != prices[k])
  }

  lemma {:induction false} SlugOfFirstSold(settings: Settings, prices: seq<string>, k: nat, j: nat)
    requires FirstSoldAt(settings, prices, k, j)
    ensures FirstSold(settings, prices) == Some(settings.prices[j].0)
  {
    FirstSoldIsFirst(settings, prices);
    PlanOfPrice(settings.prices, prices[k]);
    assert IsSold(settings, prices[k]);
  }

  lemma {:induction false} TermsAreRead(settings: Settings, plans: seq<Plan>, data: Data, status: Status, k: nat, j: nat, plan: nat)
    requires data.status == StatusName(status) && SoldAs(settings, plans, data.prices, k, j, plan)
    ensures Terms(settings, plans, data) == Success((status, plan))
  {
    StatusReadsBack(data.status, status);
    SlugOfFirstSold(settings, data.prices, k, j);
  }

  /** A subscription event seen for the first time. */
  predicate FirstSight(db: Database, e: Notification) {
    && e.id !in db.events
    && e.eventType in {"subscription.created", "subscription.updated", "subscription.activated", "subscription.trialing",
                       "subscription.past_due", "subscription.paused", "subscription.resumed", "subscription.canceled",
                       "subscription.imported"}
  }

  /** The times a row is rewritten from can be read. */
  predicate TimesRead(data: Data) {
    !data.periodEnds.Malformed? && (data.scheduledAction == "cancel" ==> !data.scheduledAt.Malformed?)
  }

  /** And those a new row is dated from. */
  predicate StartReads(data: Data) {
    !data.startedAt.Malformed? && (data.startedAt.Null? ==> !data.createdAt.Malformed?)
  }

  // ----- a subscription event, column by column -----

  /** What the event says of the subscription is what the row says after. */
  predicate Says(row: Subscription, e: Notification, status: Status, plan: nat) {
    && row.paddleId == e.data.id && row.plan == plan && row.status == status
    && row.periodEnd == (if e.data.periodEnds.At? then Some(e.data.periodEnds.time) else None)
    && row.cancelAt == (if e.data.scheduledAction == "cancel" && e.data.scheduledAt.At? then Some(e.data.scheduledAt.time) else None)
    && row.eventAt == Some(e.occurredAt)
  }

  /** Nothing is due of the row. */
  predicate NotDunned(row: Subscription) {
    row.pastDueSince.None? && row.graceEndsAt.None? && row.notified.None?
  }

  predicate SameDunning(row: Subscription, was: Subscription) {
    row.pastDueSince == was.pastDueSince && row.graceEndsAt == was.graceEndsAt && row.notified == was.notified
  }

  /** A dunning that starts at an instant: its grace the configured days, its claim made if its owner is written to. */
  predicate DunnedFrom(settings: Settings, db: Database, row: Subscription, at: Time) {
    && row.pastDueSince == Some(at) && row.graceEndsAt == Some(at + settings.graceDays * 86400)
    && row.notified == (if MayBeWrittenTo(db, row.user) then Some(PaymentFailed) else None)
  }

  /** The dunning a status leaves: past due starts one or lets it run, paid ends it if the row was past due and leaves
      it if not, and any other ends it. */
  predicate DunningFollows(settings: Settings, db: Database, was: Subscription, row: Subscription, at: Time) {
    if row.status == PastDue then
      if was.pastDueSince.Some? then SameDunning(row, was) else DunnedFrom(settings, db, row, at)
    else if row.status in {Trialing, Active} && was.status != PastDue then SameDunning(row, was)
    else NotDunned(row)
  }

  /** The snapshot of another plan goes, and any other grandfathering stays. */
  function GrandfatheredAfter(plans: seq<Plan>, was: Subscription, plan: nat): Option<nat> {
    match was.grandfathered
    case None => None
    case Some(g) =>
      if was.plan != plan && g < |plans| && plans[g].snapshotOf.Some? && plans[g].snapshotOf.value != plan then None else Some(g)
  }

  lemma {:induction false} MirrorSays(plans: seq<Plan>, before: Subscription, status: Status, plan: nat, e: Notification, isNew: bool)
    requires TimesRead(e.data) && (isNew ==> StartReads(e.data)) && before.paddleId == e.data.id
    ensures var mirrored := Mirrored(plans, before, status, plan, e, isNew);
            && Says(mirrored, e, status, plan) && SameDunning(mirrored, before)
            && mirrored.user == before.user && mirrored.grandfathered == GrandfatheredAfter(plans, before, plan)
            && mirrored.customer == (if e.data.customer.Some? then e.data.customer else before.customer)
            && mirrored.createdAt == (if isNew && e.data.startedAt.At? then e.data.startedAt.time
                                      else if isNew && e.data.createdAt.At? then e.data.createdAt.time else before.createdAt)
  {
  }

  /** The database with one row written, and the event logged as applied. */
  predicate WritesRow(db: Database, after: Database, e: Notification, i: nat, row: Subscription) {
    && i <= |db.subs| && after.subs == (if i < |db.subs| then db.subs[i := row] else db.subs + [row])
    && after.users == db.users && after.plans == db.plans
    && after.events == db.events[e.id := EventRow(e.eventType, e.occurredAt, e.data.id, Applied)]
  }

  predicate AnswersApplied(delivery: Delivery, user: nat) {
    && delivery.reply.Success? && delivery.reply.value.outcome == Applied && !delivery.reply.value.duplicate
    && delivery.reply.value.users == {user}
  }

  lemma {:induction false} StatusLeaves(settings: Settings, db: Database, was: Subscription, mirrored: Subscription, at: Time)
    requires SameDunning(mirrored, was) && (was.pastDueSince.None? ==> NotDunned(was))
    ensures var row := DunningOf(settings, mirrored, Some(was.status), MayBeWrittenTo(db, mirrored.user), at).0;
            && DunningFollows(settings, db, was, row, at)
            && row == mirrored.(pastDueSince := row.pastDueSince, graceEndsAt := row.graceEndsAt, notified := row.notified)
  {
  }

  lemma {:induction false} StatusStarts(settings: Settings, db: Database, mirrored: Subscription, at: Time)
    requires NotDunned(mirrored)
    ensures var row := DunningOf(settings, mirrored, None, MayBeWrittenTo(db, mirrored.user), at).0;
            && (if mirrored.status == PastDue then DunnedFrom(settings, db, row, at) else NotDunned(row))
            && row == mirrored.(pastDueSince := row.pastDueSince, graceEndsAt := row.graceEndsAt, notified := row.notified)
  {
  }

  /** With nothing to refuse it, an event is applied to the row of its subscription. */
  lemma {:induction false} AppliedIs(settings: Settings, db: Database, e: Notification, now: Time, status: Status, plan: nat, owner: nat)
    requires e.id !in db.events && e.eventType in SUBSCRIPTION_EVENTS && e.data.id.Some?
    requires Terms(settings, db.plans, e.data) == Success((status, plan))
    requires var at := Locate(db.subs, e.data.id.value);
             && Readable(e.data, at.None?)
             && (if at.Some? then db.subs[at.value].user == owner && (db.subs[at.value].eventAt.Some? ==> db.subs[at.value].eventAt.value <= e.occurredAt)
                 else Owner(db, e.data) == Some(owner))
    requires Live(status) ==> !HasOtherLive(db.subs, owner, e.data.id.value)
    ensures var at := Locate(db.subs, e.data.id.value);
            var before := if at.Some? then db.subs[at.value] else NewRow(owner, e.data.id.value, status, plan, now);
            var mirrored := Mirrored(db.plans, before, status, plan, e, at.None?);
            var row := DunningOf(settings, mirrored, if at.Some? then Some(before.status) else None, MayBeWrittenTo(db, owner), e.occurredAt).0;
            WritesRow(db, Deliver(settings, db, e, now).db, e, if at.Some? then at.value else |db.subs|, row)
    ensures AnswersApplied(Deliver(settings, db, e, now), owner)
  {
  }

  /** An event not older than the row, that can be read and gives the owner no second live subscription, rewrites the
      row of its subscription and no other: the columns it speaks of as it says, and the dunning as the status has it. */
  lemma {:induction false} EventRewritesRow(settings: Settings, db: Database, e: Notification, now: Time, i: nat, status: Status, k: nat, j: nat, plan: nat)
    returns (row: Subscription)
    requires Inv(settings, db) && FirstSight(db, e) && TimesRead(e.data)
    requires i < |db.subs| && e.data.id.Some? && db.subs[i].paddleId == e.data.id
    requires db.subs[i].eventAt.Some? ==> db.subs[i].eventAt.value <= e.occurredAt
    requires e.data.status == StatusName(status) && SoldAs(settings, db.plans, e.data.prices, k, j, plan)
    requires status in {Trialing, Active, PastDue} ==> NoneLiveBut(db.subs, db.subs[i].user, i)
    ensures WritesRow(db, Perform(settings, db, Webhook(e, now)).0, e, i, row)
    ensures AnswersApplied(Deliver(settings, db, e, now), db.subs[i].user)
    ensures var was := db.subs[i];
            && Says(row, e, status, plan)
            && row.user == was.user && row.createdAt == was.createdAt
            && row.customer == (if e.data.customer.Some? then e.data.customer else was.customer)
            && row.grandfathered == GrandfatheredAfter(db.plans, was, plan)
            && DunningFollows(settings, db, was, row, e.occurredAt)
  {
    var was := db.subs[i];
    TermsAreRead(settings, db.plans, e.data, status, k, j, plan);
    LocatedHere(db.subs, e.data.id.value, i);
    NoOtherLiveIff(db.subs, was.user, e.data.id.value, i);
    assert RowOk(settings, db.plans, was);
    var mirrored := Mirrored(db.plans, was, status, plan, e, false);
    row := DunningOf(settings, mirrored, Some(was.status), MayBeWrittenTo(db, was.user), e.occurredAt).0;
    AppliedIs(settings, db, e, now, status, plan, was.user);
    MirrorSays(db.plans, was, status, plan, e, false);
    StatusLeaves(settings, db, was, mirrored, e.occurredAt);
  }

  lemma {:induction false} LocatedHere(subs: seq<Subscription>, p: string, i: nat)
    requires UniquePaddleIds(subs) && i < |subs| && subs[i].paddleId == Some(p)
    ensures Locate(subs, p) == Some(i)
  {
  }

  /** The account a new subscription belongs to: the one its event names, else that of the last row of its customer. */
  predicate BelongsTo(db: Database, data: Data, user: nat, paid: nat) {
    if data.userId.Some? && data.userId.value in db.users then data.userId == Some(user)
    else data.customer.Some? && LastOfCustomer(db.subs, paid, data.customer.value) && db.subs[paid].user == user
  }

  predicate BelongsToNobody(db: Database, data: Data) {
    && !(data.userId.Some? && data.userId.value in db.users)
    && (data.customer.Some? ==> forall x :: 0 <= x < |db.subs| ==> db.subs[x].customer != data.customer)
  }

  /** An event of a subscription with no row adds one, of its owner's, dated from when it started, else from when it was
      made, else from now. */
  lemma {:induction false} EventAddsRow(settings: Settings, db: Database, e: Notification, now: Time, user: nat, paid: nat,
                                        status: Status, k: nat, j: nat, plan: nat)
    returns (row: Subscription)
    requires Inv(settings, db) && FirstSight(db, e) && TimesRead(e.data) && StartReads(e.data)
    requires e.data.id.Some? && forall x :: 0 <= x < |db.subs| ==> db.subs[x].paddleId != e.data.id
    requires BelongsTo(db, e.data, user, paid)
    requires e.data.status == StatusName(status) && SoldAs(settings, db.plans, e.data.prices, k, j, plan)
    requires status in {Trialing, Active, PastDue} ==> NoneLiveBut(db.subs, user, |db.subs|)
    ensures WritesRow(db, Perform(settings, db, Webhook(e, now)).0, e, |db.subs|, row)
    ensures AnswersApplied(Deliver(settings, db, e, now), user)
    ensures && Says(row, e, status, plan)
            && row.user == user && row.customer == e.data.customer && row.grandfathered.None?
            && row.createdAt == (if e.data.startedAt.At? then e.data.startedAt.time
                                 else if e.data.createdAt.At? then e.data.createdAt.time else now)
            && (if status == PastDue then DunnedFrom(settings, db, row, e.occurredAt) else NotDunned(row))
  {
    TermsAreRead(settings, db.plans, e.data, status, k, j, plan);
    NoOtherLiveIff(db.subs, user, e.data.id.value, |db.subs|);
    OwnerIsNamedOrPaidLast(db, e.data, paid);
    assert Locate(db.subs, e.data.id.value).None?;
    var before := NewRow(user, e.data.id.value, status, plan, now);
    var mirrored := Mirrored(db.plans, before, status, plan, e, true);
    row := DunningOf(settings, mirrored, None, MayBeWrittenTo(db, user), e.occurredAt).0;
    AppliedIs(settings, db, e, now, status, plan, user);
    MirrorSays(db.plans, before, status, plan, e, true);
    StatusStarts(settings, db, mirrored, e.occurredAt);
  }

  /** An event older than the row it is about changes no subscription, and is logged as stale. */
  lemma {:induction false} OlderIsStale(settings: Settings, db: Database, e: Notification, now: Time, i: nat)
    requires Inv(settings, db) && FirstSight(db, e)
    requires i < |db.subs| && e.data.id.Some? && db.subs[i].paddleId == e.data.id
    requires db.subs[i].eventAt.Some? && e.occurredAt < db.subs[i].eventAt.value
    ensures Deliver(settings, db, e, now)
            == Delivery(db.(events := db.events[e.id := EventRow(e.eventType, e.occurredAt, e.data.id, Stale)]),
                        Success(Handled(Stale, false, {}, [])))
  {
    LocatedHere(db.subs, e.data.id.value, i);
  }

  /** The row an event is about is older than it, or there is none. */
  predicate NotOlder(db: Database, e: Notification) {
    forall x :: 0 <= x < |db.subs| && db.subs[x].paddleId == e.data.id && db.subs[x].eventAt.Some? ==>
      db.subs[x].eventAt.value <= e.occurredAt
  }

  /** An event that names no subscription, a status, price or plan nobody knows, is refused as such, in that order. */
  lemma {:induction false} UnknownIsRefused(settings: Settings, db: Database, e: Notification, now: Time, status: Status, k: nat, j: nat)
    requires Inv(settings, db) && FirstSight(db, e) && NotOlder(db, e)
    ensures var reply := Deliver(settings, db, e, now).reply;
            && (e.data.id.None? ==> reply == Failure(NoEntity))
            && (e.data.id.Some? && (forall s :: StatusName(s) != e.data.status) ==> reply == Failure(UnknownStatus))
            && (e.data.id.Some? && e.data.status == StatusName(status)
                && (forall a, b :: 0 <= a < |e.data.prices| && 0 <= b < |settings.prices| ==> settings.prices[b].1 != e.data.prices[a])
                ==> reply == Failure(NotSold))
            && (e.data.id.Some? && e.data.status == StatusName(status) && FirstSoldAt(settings, e.data.prices, k, j)
                && (forall q :: 0 <= q < |db.plans| ==> db.plans[q].slug != settings.prices[j].0)
                ==> reply == Failure(NoSuchPlan))
  {
    if e.data.id.Some? {
      var read := ParseStatus(e.data.status);
      if read.Some? {
        StatusReadsBack(e.data.status, read.value);
      }
      StatusReadsBack(e.data.status, status);
      FirstSoldIsFirst(settings, e.data.prices);
      if FirstSoldAt(settings, e.data.prices, k, j) {
        SlugOfFirstSold(settings, e.data.prices, k, j);
      }
    }
  }

  /** A new one that nobody owns is logged as unmatched, and changes no subscription. */
  lemma {:induction false} NobodysIsUnmatched(settings: Settings, db: Database, e: Notification, now: Time, status: Status, k: nat, j: nat, plan: nat)
    requires Inv(settings, db) && FirstSight(db, e)
    requires e.data.id.Some? && forall x :: 0 <= x < |db.subs| ==> db.subs[x].paddleId != e.data.id
    requires e.data.status == StatusName(status) && SoldAs(settings, db.plans, e.data.prices, k, j, plan)
    requires BelongsToNobody(db, e.data)
    ensures Deliver(settings, db, e, now)
            == Delivery(db.(events := db.events[e.id := EventRow(e.eventType, e.occurredAt, e.data.id, Unmatched)]),
                        Success(Handled(Unmatched, false, {}, [])))
  {
    TermsAreRead(settings, db.plans, e.data, status, k, j, plan);
    OwnerIsNamedOrPaidLast(db, e.data, 0);
    assert Locate(db.subs, e.data.id.value).None?;
  }

  /** One that would give its owner a second live subscription is refused, and then one with a time that cannot be
      read. */
  lemma {:induction false} UnfitIsRefused(settings: Settings, db: Database, e: Notification, now: Time, user: nat, paid: nat,
                                          status: Status, k: nat, j: nat, plan: nat)
    requires Inv(settings, db) && FirstSight(db, e)
    requires e.data.id.Some? && forall x :: 0 <= x < |db.subs| ==> db.subs[x].paddleId != e.data.id
    requires e.data.status == StatusName(status) && SoldAs(settings, db.plans, e.data.prices, k, j, plan)
    requires BelongsTo(db, e.data, user, paid)
    ensures var reply := Deliver(settings, db, e, now).reply;
            if status in {Trialing, Active, PastDue} && !NoneLiveBut(db.subs, user, |db.subs|) then reply == Failure(SecondLive)
            else !(TimesRead(e.data) && StartReads(e.data)) ==> reply == Failure(BadTimestamp)
  {
    TermsAreRead(settings, db.plans, e.data, status, k, j, plan);
    NoOtherLiveIff(db.subs, user, e.data.id.value, |db.subs|);
    OwnerIsNamedOrPaidLast(db, e.data, paid);
    assert Locate(db.subs, e.data.id.value).None?;
  }

  /** And so of a subscription that has a row. */
  lemma {:induction false} UnfitRowIsRefused(settings: Settings, db: Database, e: Notification, now: Time, i: nat, status: Status, k: nat, j: nat, plan: nat)
    requires Inv(settings, db) && FirstSight(db, e) && NotOlder(db, e)
    requires i < |db.subs| && e.data.id.Some? && db.subs[i].paddleId == e.data.id
    requires e.data.status == StatusName(status) && SoldAs(settings, db.plans, e.data.prices, k, j, plan)
    ensures var reply := Deliver(settings, db, e, now).reply;
            if status in {Trialing, Active, PastDue} && !NoneLiveBut(db.subs, db.subs[i].user, i) then reply == Failure(SecondLive)
            else !TimesRead(e.data) ==> reply == Failure(BadTimestamp)
  {
    TermsAreRead(settings, db.plans, e.data, status, k, j, plan);
    LocatedHere(db.subs, e.data.id.value, i);
    NoOtherLiveIff(db.subs, db.subs[i].user, e.data.id.value, i);
  }

  // ----- a failed renewal -----

  /** A failed payment that says it is of a renewal and of which subscription, seen for the first time. */
  predicate FailsRenewal(db: Database, e: Notification, p: string) {
    && e.id !in db.events && e.eventType == "transaction.payment_failed"
    && e.data.subscriptionId == Some(p) && p != "" && e.data.origin == "subscription_recurring"
  }

  /** It starts a dunning of the row exactly when the event is not older than the row, the row is trialing, active or
      past due, and it is not dunned already; it changes nothing else. */
  lemma {:induction false} FailedRenewalDuns(settings: Settings, db: Database, e: Notification, now: Time, p: string, i: nat)
    requires Inv(settings, db) && FailsRenewal(db, e, p) && i < |db.subs| && db.subs[i].paddleId == Some(p)
    ensures var was, after := db.subs[i], Perform(settings, db, Webhook(e, now)).0;
            && after.subs == db.subs[i := after.subs[i]]
            && (if (was.eventAt.Some? ==> was.eventAt.value <= e.occurredAt) && was.status in {Trialing, Active, PastDue} && was.pastDueSince.None?
                then after.subs[i] == was.(pastDueSince := after.subs[i].pastDueSince, graceEndsAt := after.subs[i].graceEndsAt,
                                           notified := after.subs[i].notified)
                     && DunnedFrom(settings, db, after.subs[i], e.occurredAt)
                else after.subs[i] == was)
            && var stale := was.eventAt.Some? && e.occurredAt < was.eventAt.value;
               var reply := Deliver(settings, db, e, now).reply;
               && after.events[e.id].outcome == (if stale then Stale else Applied)
               && reply.Success? && reply.value.outcome == (if stale then Stale else Applied) && !reply.value.duplicate
               && reply.value.users == (if stale then {} else {was.user})
  {
    LocatedHere(db.subs, p, i);
    assert RowOk(settings, db.plans, db.subs[i]);
  }

  /** A payment of anything else, or of no row, changes no subscription; nor does an event of any other type. */
  lemma {:induction false} OtherEventsChangeNothing(settings: Settings, db: Database, e: Notification, now: Time)
    requires e.id !in db.events
    requires || (e.eventType == "transaction.payment_failed"
                 && (e.data.origin != "subscription_recurring" || e.data.subscriptionId.None? || e.data.subscriptionId == Some("")
                     || forall x :: 0 <= x < |db.subs| ==> db.subs[x].paddleId != e.data.subscriptionId))
             || (e.eventType != "transaction.payment_failed" && !FirstSight(db, e))
    ensures var outcome := if e.eventType == "transaction.payment_failed" && e.data.origin == "subscription_recurring"
                              && e.data.subscriptionId.Some? && e.data.subscriptionId != Some("") then Unmatched else Ignored;
            Deliver(settings, db, e, now)
            == Delivery(db.(events := db.events[e.id := EventRow(e.eventType, e.occurredAt, e.data.id, outcome)]),
                        Success(Handled(outcome, false, {}, [])))
  {
  }

  // ----- the emails of a webhook -----

  /** The email and the dunning a status brings, of the row as rewritten and what it was. */
  lemma {:induction false} StatusMails(settings: Settings, db: Database, mirrored: Subscription, previous: Option<Status>, at: Time)
    requires mirrored.pastDueSince.None? ==> mirrored.notified.None?
    ensures var (row, kind) := DunningOf(settings, mirrored, previous, MayBeWrittenTo(db, mirrored.user), at);
            && row.user == mirrored.user && row.status == mirrored.status
            && (mirrored.pastDueSince.None? && row.pastDueSince.Some? ==>
                  DunnedFrom(settings, db, row, at) && kind == (if MayBeWrittenTo(db, row.user) then Some(PaymentFailedMail) else None))
            && (mirrored.pastDueSince.Some? && previous == Some(PastDue) && mirrored.status in {Trialing, Active} ==>
                  NotDunned(row) && kind == (if mirrored.notified.Some? && MayBeWrittenTo(db, row.user) then Some(PaymentRecoveredMail) else None))
            && (kind.Some? ==>
                  if kind.value == PaymentRecoveredMail
                  then mirrored.pastDueSince.Some? && previous == Some(PastDue) && row.status in {Trialing, Active}
                  else kind.value == PaymentFailedMail && mirrored.pastDueSince.None? && row.pastDueSince.Some?)
  {
  }

  /** What an applied event did to the row it is about, at place i. */
  lemma {:induction false} AppliedMails(settings: Settings, db: Database, e: Notification, now: Time)
    requires Inv(settings, db) && ApplySubscription(settings, db, e, now).Success?
    requires ApplySubscription(settings, db, e, now).value.1.outcome == Applied
    ensures var (subs, handled) := ApplySubscription(settings, db, e, now).value;
            var at := Locate(db.subs, e.data.id.value);
            var i := if at.Some? then at.value else |db.subs|;
            var dunned := at.Some? && db.subs[i].pastDueSince.Some?;
            && i < |subs| && subs == Written(db.subs, i, subs[i])
            && (!dunned && subs[i].pastDueSince.Some? ==>
                  DunnedFrom(settings, db, subs[i], e.occurredAt)
                  && handled.mail == (if MayBeWrittenTo(db, subs[i].user) then [Mail(PaymentFailedMail, i, subs[i].user)] else []))
            && (dunned && db.subs[i].status == PastDue && subs[i].status in {Trialing, Active} ==>
                  NotDunned(subs[i]) && subs[i].user == db.subs[i].user
                  && handled.mail == (if db.subs[i].notified.Some? && MayBeWrittenTo(db, subs[i].user)
                                      then [Mail(PaymentRecoveredMail, i, subs[i].user)] else []))
            && |handled.mail| <= 1
            && (forall m :: m in handled.mail ==> m.row == i)
            && (forall m :: m in handled.mail ==>
                  if m.kind == PaymentRecoveredMail then dunned && db.subs[i].status == PastDue && subs[i].status in {Trialing, Active}
                  else m.kind == PaymentFailedMail && !dunned && subs[i].pastDueSince.Some?)
  {
    var p := e.data.id.value;
    var at := Locate(db.subs, p);
    var (status, plan) := Terms(settings, db.plans, e.data).value;
    var owner := if at.Some? then db.subs[at.value].user else Owner(db, e.data).value;
    var before := if at.Some? then db.subs[at.value] else NewRow(owner, p, status, plan, now);
    if at.Some? {
      assert RowOk(settings, db.plans, before);
    }
    var mirrored := Mirrored(db.plans, before, status, plan, e, at.None?);
    StatusMails(settings, db, mirrored, if at.Some? then Some(before.status) else None, e.occurredAt);
  }

  predicate BecomesPaid(before: Database, after: Database, i: nat) {
    && i < |before.subs| && i < |after.subs|
    && before.subs[i].status == PastDue && before.subs[i].pastDueSince.Some? && after.subs[i].status in {Trialing, Active}
  }

  /** A past-due row that an event says is paid is dunned no more, and its owner is told so, once, exactly when there
      was something told before and there is still someone to tell. */
  lemma {:induction false} RecoveryIsMailed(settings: Settings, db: Database, e: Notification, now: Time, i: nat)
    requires Inv(settings, db)
    requires BecomesPaid(db, Perform(settings, db, Webhook(e, now)).0, i)
    ensures var was, (after, mail) := db.subs[i], Perform(settings, db, Webhook(e, now));
            && NotDunned(after.subs[i])
            && mail == (if was.notified.Some? && MayBeWrittenTo(db, was.user) then [Mail(PaymentRecoveredMail, i, was.user)] else [])
            && MailAbout(mail, i) == (if was.notified.Some? && MayBeWrittenTo(db, was.user) then [PaymentRecoveredMail] else [])
  {
    if e.eventType in SUBSCRIPTION_EVENTS {
      AppliedMails(settings, db, e, now);
    } else {
      OthersTouchNoStatus(settings, db, e, now);
    }
    MailOfOne(Mail(PaymentRecoveredMail, i, db.subs[i].user), i);
  }

  lemma {:induction false} OthersTouchNoStatus(settings: Settings, db: Database, e: Notification, now: Time)
    requires e.eventType !in SUBSCRIPTION_EVENTS
    ensures var after := Perform(settings, db, Webhook(e, now)).0.subs;
            |after| == |db.subs| && forall i :: 0 <= i < |after| ==> after[i].status == db.subs[i].status
  {
  }

  predicate BecomesDunned(before: Database, after: Database, i: nat) {
    i < |after.subs| && after.subs[i].pastDueSince.Some? && (i < |before.subs| ==> before.subs[i].pastDueSince.None?)
  }

  lemma {:induction false} FailedPaymentMails(settings: Settings, db: Database, e: Notification, i: nat)
    requires Inv(settings, db)
    requires BecomesDunned(db, db.(subs := ApplyPaymentFailed(settings, db, e).0), i)
    ensures var (subs, handled) := ApplyPaymentFailed(settings, db, e);
            && DunnedFrom(settings, db, subs[i], e.occurredAt)
            && handled.mail == (if MayBeWrittenTo(db, subs[i].user) then [Mail(PaymentFailedMail, i, subs[i].user)] else [])
  {
    assert RowOk(settings, db.plans, db.subs[i]);
  }

  lemma {:induction false} EventMails(settings: Settings, db: Database, e: Notification, now: Time, i: nat)
    requires Inv(settings, db) && e.eventType in SUBSCRIPTION_EVENTS
    requires BecomesDunned(db, Deliver(settings, db, e, now).db, i)
    ensures var delivery := Deliver(settings, db, e, now);
            && delivery.reply.Success?
            && DunnedFrom(settings, db, delivery.db.subs[i], e.occurredAt)
            && delivery.reply.value.mail
               == (if MayBeWrittenTo(db, delivery.db.subs[i].user) then [Mail(PaymentFailedMail, i, delivery.db.subs[i].user)] else [])
  {
    AppliedMails(settings, db, e, now);
  }

  /** Whichever event starts a dunning, its owner is told so, once, and that it was is claimed, exactly when there is
      someone to tell. */
  lemma {:induction false} FailureIsMailed(settings: Settings, db: Database, e: Notification, now: Time, i: nat)
    requires Inv(settings, db)
    requires BecomesDunned(db, Perform(settings, db, Webhook(e, now)).0, i)
    ensures var (after, mail) := Perform(settings, db, Webhook(e, now));
            var row := after.subs[i];
            && DunnedFrom(settings, db, row, e.occurredAt)
            && mail == (if MayBeWrittenTo(db, row.user) then [Mail(PaymentFailedMail, i, row.user)] else [])
            && MailAbout(mail, i) == (if MayBeWrittenTo(db, row.user) then [PaymentFailedMail] else [])
  {
    if e.eventType in SUBSCRIPTION_EVENTS {
      EventMails(settings, db, e, now, i);
    } else {
      FailedPaymentMails(settings, db, e, i);
    }
    MailOfOne(Mail(PaymentFailedMail, i, Deliver(settings, db, e, now).db.subs[i].user), i);
  }

  /** And a webhook writes no other email than those. */
  lemma {:induction false} WebhookMailsNothingElse(settings: Settings, db: Database, e: Notification, now: Time)
    requires Inv(settings, db)
    ensures var (after, mail) := Perform(settings, db, Webhook(e, now));
            |mail| <= 1 && forall m :: m in mail ==>
              if m.kind == PaymentRecoveredMail then BecomesPaid(db, after, m.row)
              else m.kind == PaymentFailedMail && BecomesDunned(db, after, m.row)
  {
    if e.id !in db.events && e.eventType in SUBSCRIPTION_EVENTS && ApplySubscription(settings, db, e, now).Success? {
      SubscriptionApplied(settings, db, e, now);
      if ApplySubscription(settings, db, e, now).value.1.outcome == Applied {
        AppliedMails(settings, db, e, now);
      }
    }
  }

  // ----- the hourly job -----

  /** A dunning the job looks at: one with a grace, of a subscription trialing, active or past due. */
  predicate Watched(row: Subscription) {
    row.graceEndsAt.Some? && row.status in {Trialing, Active, PastDue}
  }

  /** The claim the job makes of a row, if it makes one: the reminder in the configured days before the grace's end,
      unless it or the downgrade has been claimed; the downgrade from the end on, unless it has. */
  function JobClaims(settings: Settings, row: Subscription, now: Time): Option<Notified> {
    if !Watched(row) then None
    else if now < row.graceEndsAt.value then
      if row.graceEndsAt.value <= now + settings.reminderDays * 86400 && (row.notified.None? || row.notified == Some(PaymentFailed))
      then Some(GraceEnding) else None
    else if row.notified != Some(Downgraded) then Some(Downgraded)
    else None
  }

  /** One run of the job, row by row: the claim is written and nothing else, and told to an owner there is to tell. */
  lemma {:induction false} JobDoesRow(settings: Settings, db: Database, now: Time, i: nat)
    requires Inv(settings, db) && i < |db.subs|
    ensures var (after, mail) := Perform(settings, db, Dun(now));
            var row, claim := db.subs[i], JobClaims(settings, db.subs[i], now);
            && |after.subs| == |db.subs| && after.users == db.users && after.plans == db.plans && after.events == db.events
            && after.subs[i] == (if claim.None? then row else row.(notified := claim))
            && MailAbout(mail, i)
               == (if claim.None? || !MayBeWrittenTo(db, row.user) then []
                   else if claim == Some(GraceEnding) then [GraceEndingMail] else [DowngradedMail])
  {
    assert RowOk(settings, db.plans, db.subs[i]);
    MailOfJob(settings, db, now, i);
  }

  /** How many rows a run of the job claims. */
  function ClaimedOf(settings: Settings, subs: seq<Subscription>, now: Time, claim: Notified): nat {
    if subs == [] then 0
    else ClaimedOf(settings, subs[..|subs| - 1], now, claim)
         + (if JobClaims(settings, subs[|subs| - 1], now) == Some(claim) then 1 else 0)
  }

  lemma {:induction false} CountIsOfClaims(settings: Settings, subs: seq<Subscription>, now: Time, due: seq<bool>, claim: Notified)
    requires |due| == |subs| && forall i :: 0 <= i < |subs| ==> due[i] == (JobClaims(settings, subs[i], now) == Some(claim))
    ensures Count(due) == ClaimedOf(settings, subs, now, claim)
  {
    if subs != [] {
      CountIsOfClaims(settings, subs[..|subs| - 1], now, due[..|due| - 1], claim);
    }
  }

  /** Its two counts are of the rows it claimed. */
  lemma {:induction false} JobCounts(settings: Settings, db: Database, now: Time)
    ensures var run := RunDunning(settings, db, now).1;
            && run.reminded == ClaimedOf(settings, db.subs, now, GraceEnding)
            && run.downgraded == ClaimedOf(settings, db.subs, now, Downgraded)
  {
    CountIsOfClaims(settings, db.subs, now, Reminders(settings, db.subs, now), GraceEnding);
    CountIsOfClaims(settings, db.subs, now, Downgrades(settings, db.subs, now), Downgraded);
  }

  /** Reminders before downgrades, and each in the order of the rows. */
  predicate JobOrder(a: Mail, b: Mail) {
    (a.kind == b.kind && a.row < b.row) || (a.kind == GraceEndingMail && b.kind == DowngradedMail)
  }

  lemma {:induction false} LettersInOrder(db: Database, kind: MailKind, due: seq<bool>)
    requires |due| <= |db.subs|
    ensures var mail := Letters(db, kind, due);
            && (forall m :: m in mail ==> m.kind == kind && m.row < |due|)
            && forall a, b :: 0 <= a < b < |mail| ==> mail[a].row < mail[b].row
  {
    if due != [] {
      var init, mail := Letters(db, kind, due[..|due| - 1]), Letters(db, kind, due);
      LettersInOrder(db, kind, due[..|due| - 1]);
      LastLetter(db, kind, due);
      forall a, b | 0 <= a < b < |mail| ensures mail[a].row < mail[b].row {
        assert mail[a] == init[a] && init[a] in init;
        assert b < |init| ==> mail[b] == init[b];
      }
    }
  }

  lemma {:induction false} JobMailInOrder(settings: Settings, db: Database, now: Time)
    ensures var mail := RunDunning(settings, db, now).1.mail;
            forall a, b :: 0 <= a < b < |mail| ==> JobOrder(mail[a], mail[b])
  {
    var first, then_ := Letters(db, GraceEndingMail, Reminders(settings, db.subs, now)), Letters(db, DowngradedMail, Downgrades(settings, db.subs, now));
    LettersInOrder(db, GraceEndingMail, Reminders(settings, db.subs, now));
    LettersInOrder(db, DowngradedMail, Downgrades(settings, db.subs, now));
    forall a, b | 0 <= a < b < |first + then_| ensures JobOrder((first + then_)[a], (first + then_)[b]) {
      assert (first + then_)[a] == if a < |first| then first[a] else then_[a - |first|];
      assert (first + then_)[b] == if b < |first| then first[b] else then_[b - |first|];
    }
  }

  // ----- every email owed, and no other -----

  function EmailOf(claim: Notified): MailKind {
    match claim case PaymentFailed => PaymentFailedMail case GraceEnding => GraceEndingMail case Downgraded => DowngradedMail
  }

  /** What a step owes the owner of a row: an email for the claim it makes, and one for a dunning it ends by payment that
      had a claim; each only while the owner may be written to. */
  function Owed(db: Database, before: Option<Subscription>, after: Option<Subscription>): seq<MailKind> {
    if after.None? || !MayBeWrittenTo(db, after.value.user) then []
    else if after.value.notified.Some? && (before.None? || before.value.notified != after.value.notified) then
      [EmailOf(after.value.notified.value)]
    else if before.Some? && before.value.pastDueSince.Some? && before.value.notified.Some?
            && after.value.pastDueSince.None? && after.value.status in {Trialing, Active} then
      [PaymentRecoveredMail]
    else []
  }

  lemma {:induction false} WebhookTells(settings: Settings, db: Database, e: Notification, now: Time, i: nat)
    requires Inv(settings, db)
    ensures var (after, mail) := Perform(settings, db, Webhook(e, now));
            MailAbout(mail, i) == Owed(db, RowAt(db, i), RowAt(after, i))
  {
    var (after, mail) := Perform(settings, db, Webhook(e, now));
    WebhookMailsNothingElse(settings, db, e, now);
    OwnersAndGraceKept(settings, db, Webhook(e, now));
    if BecomesDunned(db, after, i) {
      FailureIsMailed(settings, db, e, now, i);
    } else if BecomesPaid(db, after, i) {
      RecoveryIsMailed(settings, db, e, now, i);
    } else {
      NoneAbout(mail, i);
      WebhookIsQuiet(settings, db, e, now, i);
    }
  }

  lemma {:induction false} NoneAbout(mail: seq<Mail>, i: nat)
    requires forall m :: m in mail ==> m.row != i
    ensures MailAbout(mail, i) == []
  {
    if mail != [] {
      NoneAbout(mail[..|mail| - 1], i);
    }
  }

  lemma {:induction false} WebhookIsQuiet(settings: Settings, db: Database, e: Notification, now: Time, i: nat)
    requires Inv(settings, db)
    requires !BecomesDunned(db, Perform(settings, db, Webhook(e, now)).0, i) && !BecomesPaid(db, Perform(settings, db, Webhook(e, now)).0, i)
    ensures Owed(db, RowAt(db, i), RowAt(Perform(settings, db, Webhook(e, now)).0, i)) == []
  {
    InvKept(settings, db, Webhook(e, now));
    var after := Perform(settings, db, Webhook(e, now)).0;
    if i < |after.subs| {
      assert RowOk(settings, db.plans, after.subs[i]);
    }
    if i < |db.subs| {
      assert RowOk(settings, db.plans, db.subs[i]);
      WebhookMoves(settings, db, e, now, i);
    }
  }

  lemma {:induction false} ClaimIsOwed(settings: Settings, plans: seq<Plan>, db: Database, row: Subscription, now: Time)
    requires RowOk(settings, plans, row)
    ensures var claim := JobClaims(settings, row, now);
            Owed(db, Some(row), Some(if claim.None? then row else row.(notified := claim)))
            == (if claim.None? || !MayBeWrittenTo(db, row.user) then []
                else if claim == Some(GraceEnding) then [GraceEndingMail] else [DowngradedMail])
  {
  }

  lemma {:induction false} JobTells(settings: Settings, db: Database, now: Time, i: nat)
    requires Inv(settings, db)
    ensures var (after, mail) := Perform(settings, db, Dun(now));
            MailAbout(mail, i) == Owed(db, RowAt(db, i), RowAt(after, i))
  {
    if i < |db.subs| {
      JobDoesRow(settings, db, now, i);
      ClaimIsOwed(settings, db.plans, db, db.subs[i], now);
    } else {
      NoMailBeyond(settings, db, now, i);
    }
  }

  lemma {:induction false} CancelTellsNobody(settings: Settings, db: Database, only: Option<nat>, answers: map<string, Answer>, i: nat)
    requires Inv(settings, db)
    ensures Owed(db, RowAt(db, i), RowAt(Perform(settings, db, Cancel(only, answers)).0, i)) == []
  {
    if i < |db.subs| {
      assert RowOk(settings, db.plans, db.subs[i]);
    }
  }

  /** Every step writes, about every row, exactly the email it owes. */
  lemma {:induction false} StepTells(settings: Settings, db: Database, step: Step, i: nat)
    requires Inv(settings, db)
    ensures var (after, mail) := Perform(settings, db, step);
            MailAbout(mail, i) == Owed(db, RowAt(db, i), RowAt(after, i))
  {
    match step
    case Webhook(e, now) => WebhookTells(settings, db, e, now, i);
    case Dun(now) => JobTells(settings, db, now, i);
    case Cancel(only, answers) => CancelTellsNobody(settings, db, only, answers, i);
    case SetDeleted(_, _) =>
  }

  /** The emails a run writes about a row. */
  function Told(settings: Settings, db: Database, run: seq<Step>, i: nat): seq<MailKind> {
    if run == [] then []
    else
      var earlier, step := run[..|run| - 1], run[|run| - 1];
      Told(settings, db, earlier, i) + MailAbout(Perform(settings, Play(settings, db, earlier), step).1, i)
  }

  /** And those it owes. */
  function OwedOver(settings: Settings, db: Database, run: seq<Step>, i: nat): seq<MailKind> {
    if run == [] then []
    else
      var earlier := run[..|run| - 1];
      var before := Play(settings, db, earlier);
      OwedOver(settings, db, earlier, i) + Owed(before, RowAt(before, i), RowAt(Play(settings, db, run), i))
  }

  /** Over every run an account is written, about each of its subscriptions, exactly the emails it is owed, in order. */
  lemma {:induction false} EveryRunTells(settings: Settings, db: Database, run: seq<Step>, i: nat)
    requires Inv(settings, db)
    ensures Told(settings, db, run, i) == OwedOver(settings, db, run, i)
  {
    if run != [] {
      var earlier := run[..|run| - 1];
      EveryRunTells(settings, db, earlier, i);
      EveryRunKeepsInv(settings, db, earlier);
      StepTells(settings, Play(settings, db, earlier), run[|run| - 1], i);
    }
  }

  // ----- deleted accounts -----

  /** A subscription Paddle may still charge a deleted account for. */
  predicate StillCharged(db: Database, row: Subscription) {
    && row.user in db.users && db.users[row.user].deleted
    && row.paddleId.Some? && row.status in {Trialing, Active, PastDue, Paused}
  }

  /** Paddle answered its cancellation, with a status of that name; one it leaves out is a cancellation. */
  predicate Answered(answers: map<string, Answer>, row: Subscription, status: Status) {
    && row.paddleId.Some? && row.paddleId.value in answers
    && (answers[row.paddleId.value] == Answer.Says(StatusName(status)) || (answers[row.paddleId.value] == Answer.Says("") && status == Canceled))
  }

  predicate AnsweredAtAll(answers: map<string, Answer>, row: Subscription) {
    row.paddleId.Some? && row.paddleId.value in answers && answers[row.paddleId.value].Says?
  }

  /** A cancellation rewrites exactly the rows still charged, of the account asked for if one is, that Paddle answered:
      their status as answered, their end and their dunning gone. */
  lemma {:induction false} CancelDoesRow(db: Database, only: Option<nat>, answers: map<string, Answer>, i: nat, status: Status)
    requires i < |db.subs| && CancelForDeleted(db, only, answers).Some?
    ensures var was, row := db.subs[i], CancelForDeleted(db, only, answers).value[i];
            var asked := StillCharged(db, was) && (only.None? || only == Some(was.user));
            && |CancelForDeleted(db, only, answers).value| == |db.subs|
            && (!asked || !AnsweredAtAll(answers, was) ==> row == was)
            && (asked && Answered(answers, was, status) ==>
                  row == was.(status := status, cancelAt := None, pastDueSince := None, graceEndsAt := None, notified := None))
            && (asked && AnsweredAtAll(answers, was) ==> Answered(answers, was, row.status))
  {
    var was := db.subs[i];
    StatusReadsBack(if AnsweredAtAll(answers, was) then answers[was.paddleId.value].status else "", status);
    if AnsweredAtAll(answers, was) && ParseStatus(answers[was.paddleId.value].status).Some? {
      StatusReadsBack(answers[was.paddleId.value].status, ParseStatus(answers[was.paddleId.value].status).value);
    }
  }

  predicate NamesNoStatus(name: string) {
    name !in {"trialing", "active", "past_due", "paused", "unpaid", "canceled", "incomplete", "incomplete_expired"}
  }

  /** Paddle's answer for a row still charged is a status there is not. */
  predicate Unnamed(db: Database, only: Option<nat>, answers: map<string, Answer>, row: Subscription) {
    && StillCharged(db, row) && (only.None? || only == Some(row.user))
    && AnsweredAtAll(answers, row) && answers[row.paddleId.value].status != "" && NamesNoStatus(answers[row.paddleId.value].status)
  }

  lemma {:induction false} UnnamedIsRefused(db: Database, only: Option<nat>, answers: map<string, Answer>, row: Subscription)
    ensures Unnamed(db, only, answers, row) <==> AfterCancel(db, row, only, answers).None?
  {
  }

  /** The status a row is left with. */
  function StatusLeft(db: Database, only: Option<nat>, answers: map<string, Answer>, row: Subscription): (s: Status)
    ensures !(StillCharged(db, row) && (only.None? || only == Some(row.user)) && AnsweredAtAll(answers, row)) ==> s == row.status
    ensures StillCharged(db, row) && (only.None? || only == Some(row.user)) && AnsweredAtAll(answers, row) && !Unnamed(db, only, answers, row)
            ==> Answered(answers, row, s)
  {
    UnnamedIsRefused(db, only, answers, row);
    if !(StillCharged(db, row) && (only.None? || only == Some(row.user)) && AnsweredAtAll(answers, row)) then row.status
    else if answers[row.paddleId.value].status == "" then Canceled
    else
      var named := ParseStatus(answers[row.paddleId.value].status);
      if named.Some? then StatusReadsBack(answers[row.paddleId.value].status, named.value); named.value else row.status
  }

  /** The status of a row with those before k written and the rest not. */
  function StatusAt(db: Database, only: Option<nat>, answers: map<string, Answer>, k: nat, x: nat): Status
    requires x < |db.subs|
  {
    if x < k then StatusLeft(db, only, answers, db.subs[x]) else db.subs[x].status
  }

  /** Then two rows of one account are trialing, active or past due. */
  predicate ClashesAt(db: Database, only: Option<nat>, answers: map<string, Answer>, k: nat) {
    exists x, y :: 0 <= x < y < |db.subs| && db.subs[x].user == db.subs[y].user
      && StatusAt(db, only, answers, k, x) in {Trialing, Active, PastDue} && StatusAt(db, only, answers, k, y) in {Trialing, Active, PastDue}
  }

  lemma {:induction false} LeavesItsStatus(db: Database, only: Option<nat>, answers: map<string, Answer>, row: Subscription)
    requires AfterCancel(db, row, only, answers).Some?
    ensures AfterCancel(db, row, only, answers).value.status == StatusLeft(db, only, answers, row)
    ensures AfterCancel(db, row, only, answers).value.user == row.user
  {
    UnnamedIsRefused(db, only, answers, row);
    var said := StatusLeft(db, only, answers, row);
    if AnsweredAtAll(answers, row) {
      StatusReadsBack(answers[row.paddleId.value].status, said);
    }
  }

  predicate PassesAt(before: seq<Subscription>, after: seq<Subscription>, j: nat)
    requires j <= |before| == |after|
  {
    UniqueLive(PartWay(before, after, j))
  }

  lemma {:induction false} PassesNext(before: seq<Subscription>, after: seq<Subscription>, k: nat)
    requires k <= |before| == |after|
    ensures FlushPasses(before, after, k) <==> PassesAt(before, after, k) && (k > 0 ==> FlushPasses(before, after, k - 1))
  {
  }

  lemma {:induction false} PassesEverywhere(before: seq<Subscription>, after: seq<Subscription>, k: nat, j: nat)
    requires j <= k <= |before| == |after| && FlushPasses(before, after, k)
    ensures PassesAt(before, after, j)
  {
    PassesNext(before, after, k);
    if j < k {
      PassesEverywhere(before, after, k - 1, j);
    }
  }

  lemma {:induction false} BreaksSomewhere(before: seq<Subscription>, after: seq<Subscription>, k: nat) returns (j: nat)
    requires k <= |before| == |after| && !FlushPasses(before, after, k)
    ensures j <= k && !PassesAt(before, after, j)
  {
    PassesNext(before, after, k);
    if !PassesAt(before, after, k) {
      j := k;
    } else {
      j := BreaksSomewhere(before, after, k - 1);
    }
  }

  lemma {:induction false} RowPartWay(db: Database, only: Option<nat>, answers: map<string, Answer>, k: nat, x: nat)
    requires k <= |db.subs| && x < |db.subs| && forall i :: 0 <= i < |db.subs| ==> AfterCancel(db, db.subs[i], only, answers).Some?
    ensures var row := PartWay(db.subs, Cancelled(db, only, answers), k)[x];
            row.user == db.subs[x].user && row.status == StatusAt(db, only, answers, k, x)
  {
    LeavesItsStatus(db, only, answers, db.subs[x]);
    assert PartWay(db.subs, Cancelled(db, only, answers), k)[x] == if x < k then Cancelled(db, only, answers)[x] else db.subs[x];
  }

  lemma {:induction false} ClashBreaks(db: Database, only: Option<nat>, answers: map<string, Answer>, k: nat)
    requires k <= |db.subs| && forall i :: 0 <= i < |db.subs| ==> AfterCancel(db, db.subs[i], only, answers).Some?
    requires ClashesAt(db, only, answers, k)
    ensures !PassesAt(db.subs, Cancelled(db, only, answers), k)
  {
    var x, y :| 0 <= x < y < |db.subs| && db.subs[x].user == db.subs[y].user
      && StatusAt(db, only, answers, k, x) in {Trialing, Active, PastDue} && StatusAt(db, only, answers, k, y) in {Trialing, Active, PastDue};
    RowPartWay(db, only, answers, k, x);
    RowPartWay(db, only, answers, k, y);
  }

  lemma {:induction false} BreakClashes(db: Database, only: Option<nat>, answers: map<string, Answer>, k: nat)
    requires k <= |db.subs| && forall i :: 0 <= i < |db.subs| ==> AfterCancel(db, db.subs[i], only, answers).Some?
    requires !PassesAt(db.subs, Cancelled(db, only, answers), k)
    ensures ClashesAt(db, only, answers, k)
  {
    var table := PartWay(db.subs, Cancelled(db, only, answers), k);
    var x, y :| 0 <= x < y < |table| && Live(table[x].status) && Live(table[y].status) && table[x].user == table[y].user;
    RowPartWay(db, only, answers, k, x);
    RowPartWay(db, only, answers, k, y);
  }

  lemma {:induction false} FlushClashes(db: Database, only: Option<nat>, answers: map<string, Answer>)
    requires forall i :: 0 <= i < |db.subs| ==> AfterCancel(db, db.subs[i], only, answers).Some?
    ensures !FlushPasses(db.subs, Cancelled(db, only, answers), |db.subs|) <==> exists k :: 0 <= k <= |db.subs| && ClashesAt(db, only, answers, k)
  {
    var after := Cancelled(db, only, answers);
    if !FlushPasses(db.subs, after, |db.subs|) {
      var k := BreaksSomewhere(db.subs, after, |db.subs|);
      BreakClashes(db, only, answers, k);
    } else {
      forall k | 0 <= k <= |db.subs| ensures !ClashesAt(db, only, answers, k) {
        PassesEverywhere(db.subs, after, |db.subs|, k);
        if ClashesAt(db, only, answers, k) {
          ClashBreaks(db, only, answers, k);
        }
      }
    }
  }

  /** It is refused, and nothing of it kept, exactly when Paddle answers with a status there is not, or when, with the
      rows written up to some place, an account has two that are trialing, active or past due. */
  lemma {:induction false} CancelRefusedIff(db: Database, only: Option<nat>, answers: map<string, Answer>)
    ensures CancelForDeleted(db, only, answers).None?
            <==> (exists i :: 0 <= i < |db.subs| && Unnamed(db, only, answers, db.subs[i]))
                 || (exists k :: 0 <= k <= |db.subs| && ClashesAt(db, only, answers, k))
  {
    forall i | 0 <= i < |db.subs|
      ensures Unnamed(db, only, answers, db.subs[i]) <==> AfterCancel(db, db.subs[i], only, answers).None?
    {
      UnnamedIsRefused(db, only, answers, db.subs[i]);
    }
    if forall i :: 0 <= i < |db.subs| ==> AfterCancel(db, db.subs[i], only, answers).Some? {
      FlushClashes(db, only, answers);
    }
  }
}

/** Paddle's view of each subscription, kept in step with its webhooks, and what happens when a renewal is not
    paid (app/accounts/billing.py). This module says what each transaction does to the database as a
    function of its contents; module BillingService performs them step by step, and modules
    BillingInvariants, BillingDunning and BillingConfluence prove what every run of them keeps. */
module Billing {
  import opened Wrappers

  /** Instants and durations, in seconds. */
  type Time = int

  const DAY: Time := 86400

  datatype Status = Trialing | Active | PastDue | Paused | Unpaid | Canceled | Incomplete | IncompleteExpired

  predicate Live(s: Status) {
    s in {Trialing, Active, PastDue}
  }

  predicate Paid(s: Status) {
    s in {Trialing, Active}
  }

  /** Money may yet be taken: a paused subscription can resume. */
  predicate Billable(s: Status) {
    Live(s) || s == Paused
  }

  function ParseStatus(name: string): Option<Status> {
    match name
    case "trialing" => Some(Trialing)
    case "active" => Some(Active)
    case "past_due" => Some(PastDue)
    case "paused" => Some(Paused)
    case "unpaid" => Some(Unpaid)
    case "canceled" => Some(Canceled)
    case "incomplete" => Some(Incomplete)
    case "incomplete_expired" => Some(IncompleteExpired)
    case _ => None
  }

  /** The last email of a dunning: the column dunning_notified. */
  datatype Notified = PaymentFailed | GraceEnding | Downgraded

  /** One row of the subscription table. A row's id is its place in the table. */
  datatype Subscription = Subscription(
    user: nat,
    plan: nat,
    status: Status,
    periodEnd: Option<Time>,
    cancelAt: Option<Time>,
    grandfathered: Option<nat>,
    paddleId: Option<string>,
    customer: Option<string>,
    eventAt: Option<Time>,
    pastDueSince: Option<Time>,
    graceEndsAt: Option<Time>,
    notified: Option<Notified>,
    createdAt: Time)

  datatype Account = Account(deleted: bool)

  /** A plan's id is its place in the table. */
  datatype Plan = Plan(slug: string, snapshotOf: Option<nat>)

  /** PADDLE_PRICES, slug and price in the order configured, and the two dunning periods. */
  datatype Settings = Settings(prices: seq<(string, string)>, graceDays: nat, reminderDays: nat)

  datatype Outcome = Ignored | Applied | Stale | Unmatched

  datatype EventRow = EventRow(eventType: string, occurredAt: Time, entity: Option<string>, outcome: Outcome)

  /** Every table a transaction reads or writes. */
  datatype Database = Database(
    events: map<string, EventRow>,
    subs: seq<Subscription>,
    users: map<nat, Account>,
    plans: seq<Plan>)

  /** A timestamp as a notification carries it: null, readable, or something parse_time refuses. */
  datatype Stamp = Null | At(time: Time) | Malformed

  /** What a notification's data says, by the names Paddle gives it. */
  datatype Data = Data(
    id: Option<string>,
    status: string,
    prices: seq<string>,
    userId: Option<nat>,
    customer: Option<string>,
    periodEnds: Stamp,
    scheduledAction: string,
    scheduledAt: Stamp,
    startedAt: Stamp,
    createdAt: Stamp,
    subscriptionId: Option<string>,
    origin: string)

  datatype Notification = Notification(id: string, eventType: string, occurredAt: Time, data: Data)

  const SUBSCRIPTION_EVENTS: set<string> := {
    "subscription.created", "subscription.updated", "subscription.activated", "subscription.trialing",
    "subscription.past_due", "subscription.paused", "subscription.resumed", "subscription.canceled",
    "subscription.imported"}

  const PAYMENT_FAILED := "transaction.payment_failed"

  const RENEWAL_ORIGIN := "subscription_recurring"

  datatype MailKind = PaymentFailedMail | GraceEndingMail | DowngradedMail | PaymentRecoveredMail

  /** A dunning email, with the row of the subscription it is about. */
  datatype Mail = Mail(kind: MailKind, row: nat, to: nat)

  datatype Handled = Handled(outcome: Outcome, duplicate: bool, users: set<nat>, mail: seq<Mail>)

  /** Why a webhook is answered 500: BillingError, or the ValueError of a malformed timestamp. */
  datatype Problem = NoEntity | UnknownStatus | NotSold | NoSuchPlan | SecondLive | BadTimestamp

  // ----- the reads -----

  function PlanForPrice(prices: seq<(string, string)>, price: string): Option<string> {
    if prices == [] then None
    else if prices[0].1 == price then Some(prices[0].0)
    else PlanForPrice(prices[1..], price)
  }

  /** The first hit among the prices, unsold ones skipped. */
  function FirstSold(settings: Settings, prices: seq<string>): Option<string> {
    if prices == [] then None
    else if PlanForPrice(settings.prices, prices[0]).Some? then PlanForPrice(settings.prices, prices[0])
    else FirstSold(settings, prices[1..])
  }

  function PlanNamed(plans: seq<Plan>, slug: string): (id: Option<nat>)
    ensures id.Some? ==> id.value < |plans| && plans[id.value].slug == slug
    ensures id.None? ==> forall i :: 0 <= i < |plans| ==> plans[i].slug != slug
  {
    if plans == [] then None
    else if plans[|plans| - 1].slug == slug then Some(|plans| - 1)
    else PlanNamed(plans[..|plans| - 1], slug)
  }

  /** Where the row mirroring the Paddle subscription is, from place `from` on. */
  function Locate(subs: seq<Subscription>, paddleId: string): (at: Option<nat>)
    ensures at.Some? ==> at.value < |subs| && subs[at.value].paddleId == Some(paddleId)
    ensures at.None? ==> forall i :: 0 <= i < |subs| ==> subs[i].paddleId != Some(paddleId)
  {
    if subs == [] then None
    else if subs[|subs| - 1].paddleId == Some(paddleId) then Some(|subs| - 1)
    else Locate(subs[..|subs| - 1], paddleId)
  }

  /** Who last paid as the customer. */
  function PaidBefore(subs: seq<Subscription>, customer: string): Option<nat> {
    if subs == [] then None
    else if subs[|subs| - 1].customer == Some(customer) then Some(subs[|subs| - 1].user)
    else PaidBefore(subs[..|subs| - 1], customer)
  }

  /** Whose a first-seen subscription is: the account named in it, or the customer's latest payer. */
  function Owner(db: Database, data: Data): Option<nat> {
    if data.userId.Some? && data.userId.value in db.users then data.userId
    else if data.customer.None? then None
    else PaidBefore(db.subs, data.customer.value)
  }

  /** Whether the user has a live subscription other than this Paddle one. */
  predicate HasOtherLive(subs: seq<Subscription>, user: nat, paddleId: string) {
    exists i :: 0 <= i < |subs| && subs[i].user == user && Live(subs[i].status) && subs[i].paddleId != Some(paddleId)
  }

  predicate Mailable(users: map<nat, Account>, user: nat) {
    user in users && !users[user].deleted
  }

  function ParseTime(stamp: Stamp): Option<Time>
    requires !stamp.Malformed?
  {
    if stamp.At? then Some(stamp.time) else None
  }

  // ----- one webhook -----

  /** A database after a transaction, and what the transaction answered. */
  datatype Delivery = Delivery(db: Database, reply: Result<Handled, Problem>)

  function Terms(settings: Settings, plans: seq<Plan>, data: Data): Result<(Status, nat), Problem> {
    if ParseStatus(data.status).None? then Failure(UnknownStatus)
    else
      var slug := FirstSold(settings, data.prices);
      if slug.None? then Failure(NotSold)
      else
        var plan := PlanNamed(plans, slug.value);
        if plan.None? then Failure(NoSuchPlan)
        else Success((ParseStatus(data.status).value, plan.value))
  }

  /** The timestamps a row is written from are all readable: parse_time raises nothing. */
  predicate Readable(data: Data, isNew: bool) {
    && !data.periodEnds.Malformed?
    && (data.scheduledAction == "cancel" ==> !data.scheduledAt.Malformed?)
    && (isNew ==> !data.startedAt.Malformed? && (data.startedAt.Null? ==> !data.createdAt.Malformed?))
  }

  /** The scheduled cancellation's date; any other scheduled change is no cancellation. */
  function CancelDate(data: Data): Option<Time>
    requires data.scheduledAction == "cancel" ==> !data.scheduledAt.Malformed?
  {
    if data.scheduledAction == "cancel" then ParseTime(data.scheduledAt) else None
  }

  /** A changed plan loses a snapshot taken of some other plan, and keeps any other grandfathering. */
  function KeptGrandfathering(plans: seq<Plan>, row: Subscription, plan: nat): Option<nat> {
    if row.grandfathered.Some? && row.plan != plan && row.grandfathered.value < |plans|
       && plans[row.grandfathered.value].snapshotOf.Some? && plans[row.grandfathered.value].snapshotOf.value != plan
    then None
    else row.grandfathered
  }

  /** A row as it is first made: everything a webhook does not say is null. */
  function NewRow(user: nat, paddleId: string, status: Status, plan: nat, now: Time): Subscription {
    Subscription(user, plan, status, None, None, None, Some(paddleId), None, None, None, None, None, now)
  }

  /** The row with everything the event mirrors, and nothing of the dunning, rewritten. */
  function Mirrored(plans: seq<Plan>, row: Subscription, status: Status, plan: nat, e: Notification, isNew: bool): Subscription
    requires Readable(e.data, isNew)
  {
    row.(plan := plan,
         status := status,
         grandfathered := KeptGrandfathering(plans, row, plan),
         customer := if e.data.customer.Some? then e.data.customer else row.customer,
         periodEnd := ParseTime(e.data.periodEnds),
         cancelAt := CancelDate(e.data),
         eventAt := Some(e.occurredAt),
         createdAt := if isNew && e.data.startedAt.At? then e.data.startedAt.time
                      else if isNew && e.data.createdAt.At? then e.data.createdAt.time
                      else row.createdAt)
  }

  function Dunned(settings: Settings, row: Subscription, mailable: bool, at: Time): Subscription {
    row.(pastDueSince := Some(at),
         graceEndsAt := Some(at + settings.graceDays * DAY),
         notified := if mailable then Some(PaymentFailed) else row.notified)
  }

  function Undunned(row: Subscription): Subscription {
    row.(pastDueSince := None, graceEndsAt := None, notified := None)
  }

  /** The row once the event's status has started, kept or ended its dunning, and the email that goes with it. */
  function DunningOf(settings: Settings, row: Subscription, previous: Option<Status>, mailable: bool, at: Time)
    : (Subscription, Option<MailKind>)
  {
    if row.status == PastDue then
      if row.pastDueSince.None? then
        (Dunned(settings, row, mailable, at), if mailable then Some(PaymentFailedMail) else None)
      else (row, None)
    else if Paid(row.status) then
      if row.pastDueSince.Some? && previous == Some(PastDue) then
        (Undunned(row), if row.notified.Some? && mailable then Some(PaymentRecoveredMail) else None)
      else (row, None)
    else (Undunned(row), None)
  }

  function Letter(kind: Option<MailKind>, row: nat, to: nat): seq<Mail> {
    if kind.Some? then [Mail(kind.value, row, to)] else []
  }

  /** The table with row `at` written: replaced, or appended when it is the next place. */
  function Written(subs: seq<Subscription>, at: nat, row: Subscription): seq<Subscription>
    requires at <= |subs|
  {
    if at < |subs| then subs[at := row] else subs + [row]
  }

  /** The webhook of a subscription event, once claimed: either the whole change or a problem. */
  function ApplySubscription(settings: Settings, db: Database, e: Notification, now: Time): Result<(seq<Subscription>, Handled), Problem> {
    if e.data.id.None? then Failure(NoEntity)
    else
      var paddleId := e.data.id.value;
      var at := Locate(db.subs, paddleId);
      if at.Some? && db.subs[at.value].eventAt.Some? && e.occurredAt < db.subs[at.value].eventAt.value then
        Success((db.subs, Handled(Stale, false, {}, [])))
      else
        var terms := Terms(settings, db.plans, e.data);
        if terms.Failure? then Failure(terms.error)
        else
          var (status, plan) := terms.value;
          var owner := if at.Some? then Some(db.subs[at.value].user) else Owner(db, e.data);
          if owner.None? then Success((db.subs, Handled(Unmatched, false, {}, [])))
          else if Live(status) && HasOtherLive(db.subs, owner.value, paddleId) then Failure(SecondLive)
          else if !Readable(e.data, at.None?) then Failure(BadTimestamp)
          else
            var before := if at.Some? then db.subs[at.value] else NewRow(owner.value, paddleId, status, plan, now);
            var mirrored := Mirrored(db.plans, before, status, plan, e, at.None?);
            var (after, kind) := DunningOf(settings, mirrored, if at.Some? then Some(before.status) else None,
                                           Mailable(db.users, owner.value), e.occurredAt);
            var place := if at.Some? then at.value else |db.subs|;
            Success((Written(db.subs, place, after), Handled(Applied, false, {owner.value}, Letter(kind, place, owner.value))))
  }

  /** The webhook of a failed renewal, once claimed. */
  function ApplyPaymentFailed(settings: Settings, db: Database, e: Notification): (seq<Subscription>, Handled) {
    if e.data.subscriptionId.None? || e.data.subscriptionId.value == "" || e.data.origin != RENEWAL_ORIGIN then
      (db.subs, Handled(Ignored, false, {}, []))
    else
      var at := Locate(db.subs, e.data.subscriptionId.value);
      if at.None? then (db.subs, Handled(Unmatched, false, {}, []))
      else
        var row := db.subs[at.value];
        if row.eventAt.Some? && e.occurredAt < row.eventAt.value then (db.subs, Handled(Stale, false, {}, []))
        else if row.pastDueSince.None? && Live(row.status) then
          var mailable := Mailable(db.users, row.user);
          (db.subs[at.value := Dunned(settings, row, mailable, e.occurredAt)],
           Handled(Applied, false, {row.user}, Letter(if mailable then Some(PaymentFailedMail) else None, at.value, row.user)))
        else (db.subs, Handled(Applied, false, {row.user}, []))
  }

  /** What a claimed event does to the subscriptions, by its type; one of no other type does nothing. */
  function Apply(settings: Settings, db: Database, e: Notification, now: Time): Result<(seq<Subscription>, Handled), Problem> {
    if e.eventType in SUBSCRIPTION_EVENTS then ApplySubscription(settings, db, e, now)
    else if e.eventType == PAYMENT_FAILED then Success(ApplyPaymentFailed(settings, db, e))
    else Success((db.subs, Handled(Ignored, false, {}, [])))
  }

  /** A delivery whose event has been applied: the subscriptions and the log of it together, or neither. */
  function Committed(db: Database, e: Notification, applied: Result<(seq<Subscription>, Handled), Problem>): Delivery {
    if applied.Failure? then Delivery(db, Failure(applied.error))
    else
      var (subs, handled) := applied.value;
      var row := EventRow(e.eventType, e.occurredAt, e.data.id, handled.outcome);
      Delivery(db.(subs := subs, events := db.events[e.id := row]), Success(handled))
  }

  /** One webhook request: claimed, applied and committed, or rolled back whole. */
  function Deliver(settings: Settings, db: Database, e: Notification, now: Time): Delivery {
    if e.id in db.events then Delivery(db, Success(Handled(Ignored, true, {}, [])))
    else Committed(db, e, Apply(settings, db, e, now))
  }

  // ----- the hourly job -----

  predicate InDunning(row: Subscription) {
    row.graceEndsAt.Some? && Live(row.status)
  }

  predicate ReminderDue(settings: Settings, row: Subscription, now: Time) {
    && InDunning(row)
    && now < row.graceEndsAt.value <= now + settings.reminderDays * DAY
    && (row.notified.None? || row.notified.value == PaymentFailed)
  }

  predicate DowngradeDue(row: Subscription, now: Time) {
    && InDunning(row)
    && row.graceEndsAt.value <= now
    && (row.notified.None? || row.notified.value != Downgraded)
  }

  function AfterReminder(settings: Settings, row: Subscription, now: Time): Subscription {
    if ReminderDue(settings, row, now) then row.(notified := Some(GraceEnding)) else row
  }

  function AfterDowngrade(row: Subscription, now: Time): Subscription {
    if DowngradeDue(row, now) then row.(notified := Some(Downgraded)) else row
  }

  function AfterDunning(settings: Settings, row: Subscription, now: Time): Subscription {
    AfterDowngrade(AfterReminder(settings, row, now), now)
  }

  /** The emails of one kind to the owners of the due rows that can be mailed, in row order. */
  function Letters(db: Database, kind: MailKind, due: seq<bool>): seq<Mail>
    requires |due| <= |db.subs|
  {
    if due == [] then []
    else
      var i := |due| - 1;
      Letters(db, kind, due[..i])
      + (if due[i] && Mailable(db.users, db.subs[i].user) && db.subs[i].plan < |db.plans| then [Mail(kind, i, db.subs[i].user)] else [])
  }

  function Reminders(settings: Settings, subs: seq<Subscription>, now: Time): (due: seq<bool>)
    ensures |due| == |subs|
  {
    seq(|subs|, i requires 0 <= i < |subs| => ReminderDue(settings, subs[i], now))
  }

  function Downgrades(settings: Settings, subs: seq<Subscription>, now: Time): (due: seq<bool>)
    ensures |due| == |subs|
  {
    seq(|subs|, i requires 0 <= i < |subs| => DowngradeDue(AfterReminder(settings, subs[i], now), now))
  }

  function Count(due: seq<bool>): nat {
    if due == [] then 0 else Count(due[..|due| - 1]) + (if due[|due| - 1] then 1 else 0)
  }

  datatype DunningRun = DunningRun(reminded: nat, downgraded: nat, mail: seq<Mail>)

  function RunDunning(settings: Settings, db: Database, now: Time): (Database, DunningRun) {
    var reminded, downgraded := Reminders(settings, db.subs, now), Downgrades(settings, db.subs, now);
    (db.(subs := seq(|db.subs|, i requires 0 <= i < |db.subs| => AfterDunning(settings, db.subs[i], now))),
     DunningRun(Count(reminded), Count(downgraded),
                Letters(db, GraceEndingMail, reminded) + Letters(db, DowngradedMail, downgraded)))
  }

  // ----- deleted accounts -----

  /** What Paddle answers a cancellation: no answer or a refusal, or the subscription's status now. */
  datatype Answer = Unreachable | Says(status: string)

  predicate ToCancel(db: Database, row: Subscription, only: Option<nat>) {
    && row.user in db.users && db.users[row.user].deleted
    && row.paddleId.Some?
    && Billable(row.status)
    && (only.None? || only.value == row.user)
  }

  function AnswerFor(answers: map<string, Answer>, row: Subscription): Answer
    requires row.paddleId.Some?
  {
    if row.paddleId.value in answers then answers[row.paddleId.value] else Unreachable
  }

  function SaidStatus(answer: Answer): Option<Status>
    requires answer.Says?
  {
    if answer.status == "" then Some(Canceled) else ParseStatus(answer.status)
  }

  /** The row after its cancellation; None when Paddle's status is one the table's check refuses. */
  function AfterCancel(db: Database, row: Subscription, only: Option<nat>, answers: map<string, Answer>): Option<Subscription> {
    if !ToCancel(db, row, only) || AnswerFor(answers, row).Unreachable? then Some(row)
    else
      var said := SaidStatus(AnswerFor(answers, row));
      if said.None? then None else Some(Undunned(row).(status := said.value, cancelAt := None))
  }

  predicate UniqueLive(subs: seq<Subscription>) {
    forall i, j :: 0 <= i < j < |subs| && Live(subs[i].status) && Live(subs[j].status) ==> subs[i].user != subs[j].user
  }

  /** The table with every cancellation Paddle answered mirrored. */
  function Cancelled(db: Database, only: Option<nat>, answers: map<string, Answer>): (after: seq<Subscription>)
    requires forall i :: 0 <= i < |db.subs| ==> AfterCancel(db, db.subs[i], only, answers).Some?
    ensures |after| == |db.subs|
  {
    seq(|db.subs|, i requires 0 <= i < |db.subs| && AfterCancel(db, db.subs[i], only, answers).Some? =>
      AfterCancel(db, db.subs[i], only, answers).value)
  }

  /** The table part way through a flush: the first k rows written, the rest as they were. */
  function PartWay(before: seq<Subscription>, after: seq<Subscription>, k: nat): (table: seq<Subscription>)
    requires k <= |before| == |after|
    ensures |table| == |before|
  {
    after[..k] + before[k..]
  }

  /** The unique index is tested as each row is written, not once at the end. */
  predicate FlushPasses(before: seq<Subscription>, after: seq<Subscription>, k: nat)
    requires k <= |before| == |after|
  {
    UniqueLive(PartWay(before, after, k)) && (k > 0 ==> FlushPasses(before, after, k - 1))
  }

  /** The table after every cancellation, or None when the flush would break one of its constraints: a status the
      check refuses, or, once any row is written, a second live subscription of one user. */
  function CancelForDeleted(db: Database, only: Option<nat>, answers: map<string, Answer>): Option<seq<Subscription>> {
    if exists i :: 0 <= i < |db.subs| && AfterCancel(db, db.subs[i], only, answers).None? then None
    else if FlushPasses(db.subs, Cancelled(db, only, answers), |db.subs|) then Some(Cancelled(db, only, answers))
    else None
  }
}

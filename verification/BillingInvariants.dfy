/** What every run of webhooks, dunning jobs, cancellations and account deletions keeps. */
module BillingInvariants {
  import opened Wrappers
  import opened Billing

  datatype Step =
    | Webhook(e: Notification, now: Time)
    | Dun(now: Time)
    | Cancel(only: Option<nat>, answers: map<string, Answer>)
    | SetDeleted(user: nat, deleted: bool)

  /** The database after a step and the mail the step sends once it is committed. */
  function Perform(settings: Settings, db: Database, step: Step): (Database, seq<Mail>) {
    match step
    case Webhook(e, now) =>
      var d := Deliver(settings, db, e, now);
      (d.db, if d.reply.Success? then d.reply.value.mail else [])
    case Dun(now) =>
      var (after, run) := RunDunning(settings, db, now);
      (after, run.mail)
    case Cancel(only, answers) =>
      var after := CancelForDeleted(db, only, answers);
      (if after.Some? then db.(subs := after.value) else db, [])
    case SetDeleted(user, deleted) =>
      (if user in db.users then db.(users := db.users[user := Account(deleted)]) else db, [])
  }

  function Play(settings: Settings, db: Database, run: seq<Step>): Database {
    if run == [] then db
    else Perform(settings, Play(settings, db, run[..|run| - 1]), run[|run| - 1]).0
  }

  // ----- the invariant -----

  predicate Dunning(row: Subscription) {
    row.pastDueSince.Some?
  }

  predicate SnapshotIsOfItsPlan(plans: seq<Plan>, row: Subscription) {
    row.grandfathered.Some? && row.grandfathered.value < |plans| && plans[row.grandfathered.value].snapshotOf.Some?
    ==> plans[row.grandfathered.value].snapshotOf.value == row.plan
  }

  predicate RowOk(settings: Settings, plans: seq<Plan>, row: Subscription) {
    && row.plan < |plans|
    && (row.graceEndsAt.Some? <==> Dunning(row))
    && (Dunning(row) ==> row.graceEndsAt.value == row.pastDueSince.value + settings.graceDays * DAY)
    && (Dunning(row) ==> Live(row.status))
    && (row.notified.Some? ==> Dunning(row))
    && SnapshotIsOfItsPlan(plans, row)
  }

  predicate UniquePaddleIds(subs: seq<Subscription>) {
    forall i, j :: 0 <= i < j < |subs| && subs[i].paddleId.Some? ==> subs[i].paddleId != subs[j].paddleId
  }

  predicate Inv(settings: Settings, db: Database) {
    && (forall i :: 0 <= i < |db.subs| ==> RowOk(settings, db.plans, db.subs[i]))
    && UniqueLive(db.subs)
    && UniquePaddleIds(db.subs)
  }

  predicate PastDueIsDunned(subs: seq<Subscription>) {
    forall i :: 0 <= i < |subs| && subs[i].status == PastDue ==> Dunning(subs[i])
  }

  // ----- one step -----

  lemma {:induction false} DunningOfKeepsRow(settings: Settings, plans: seq<Plan>, row: Subscription, previous: Option<Status>, mailable: bool, at: Time)
    requires row.plan < |plans| && SnapshotIsOfItsPlan(plans, row)
    requires row.graceEndsAt.Some? <==> Dunning(row)
    requires Dunning(row) ==> row.graceEndsAt.value == row.pastDueSince.value + settings.graceDays * DAY
    requires row.notified.Some? ==> Dunning(row)
    ensures var after := DunningOf(settings, row, previous, mailable, at).0;
            && RowOk(settings, plans, after)
            && (after.status == PastDue ==> Dunning(after))
            && after == row.(pastDueSince := after.pastDueSince, graceEndsAt := after.graceEndsAt, notified := after.notified)
            && (Dunning(row) && Dunning(after) ==> after == row)
  {
  }

  /** What a subscription event that is applied does: it writes one row, the one of its Paddle id. */
  lemma {:induction false} SubscriptionApplied(settings: Settings, db: Database, e: Notification, now: Time)
    requires Inv(settings, db)
    requires ApplySubscription(settings, db, e, now).Success?
    ensures var (subs, handled) := ApplySubscription(settings, db, e, now).value;
            if handled.outcome != Applied then subs == db.subs && handled.mail == []
            else
              var at := Locate(db.subs, e.data.id.value);
              var place := if at.Some? then at.value else |db.subs|;
              && |subs| >= |db.subs| && place < |subs|
              && subs == Written(db.subs, place, subs[place])
              && RowOk(settings, db.plans, subs[place])
              && subs[place].paddleId == e.data.id
              && (subs[place].status == PastDue ==> Dunning(subs[place]))
              && (at.Some? ==> subs[place].user == db.subs[place].user)
              && (at.Some? && Dunning(db.subs[place]) && Dunning(subs[place]) ==>
                    subs[place].pastDueSince == db.subs[place].pastDueSince && subs[place].graceEndsAt == db.subs[place].graceEndsAt)
              && (Live(subs[place].status) ==> !HasOtherLive(db.subs, subs[place].user, e.data.id.value))
              && handled.users == {subs[place].user}
  {
    var (subs, handled) := ApplySubscription(settings, db, e, now).value;
    if handled.outcome == Applied {
      var paddleId := e.data.id.value;
      var at := Locate(db.subs, paddleId);
      var (status, plan) := Terms(settings, db.plans, e.data).value;
      var owner := if at.Some? then Some(db.subs[at.value].user) else Owner(db, e.data);
      var before := if at.Some? then db.subs[at.value] else NewRow(owner.value, paddleId, status, plan, now);
      var mirrored := Mirrored(db.plans, before, status, plan, e, at.None?);
      var previous := if at.Some? then Some(before.status) else None;
      DunningOfKeepsRow(settings, db.plans, mirrored, previous, Mailable(db.users, owner.value), e.occurredAt);
    }
  }

  lemma {:induction false} WrittenKeepsUnique(subs: seq<Subscription>, place: nat, row: Subscription)
    requires place <= |subs| && row.paddleId.Some?
    requires UniqueLive(subs) && UniquePaddleIds(subs)
    requires place < |subs| ==> subs[place].paddleId == row.paddleId
    requires place == |subs| ==> Locate(subs, row.paddleId.value).None?
    requires Live(row.status) ==> !HasOtherLive(subs, row.user, row.paddleId.value)
    ensures UniqueLive(Written(subs, place, row)) && UniquePaddleIds(Written(subs, place, row))
  {
    var after := Written(subs, place, row);
    forall i, j | 0 <= i < j < |after| && Live(after[i].status) && Live(after[j].status)
      ensures after[i].user != after[j].user
    {
      if i == place {
        assert subs[j].paddleId != row.paddleId;
      } else if j == place {
        assert subs[i].paddleId != row.paddleId;
      }
    }
  }

  lemma {:induction false} WebhookKeepsInv(settings: Settings, db: Database, e: Notification, now: Time)
    requires Inv(settings, db)
    ensures Inv(settings, Deliver(settings, db, e, now).db)
  {
    if e.id !in db.events && e.eventType in SUBSCRIPTION_EVENTS && ApplySubscription(settings, db, e, now).Success? {
      SubscriptionApplied(settings, db, e, now);
      var (subs, handled) := ApplySubscription(settings, db, e, now).value;
      if handled.outcome == Applied {
        var at := Locate(db.subs, e.data.id.value);
        var place := if at.Some? then at.value else |db.subs|;
        WrittenKeepsUnique(db.subs, place, subs[place]);
      }
    } else if e.id !in db.events && e.eventType == PAYMENT_FAILED {
      FailedPaymentKeepsInv(settings, db, e);
    }
  }

  lemma {:induction false} FailedPaymentKeepsInv(settings: Settings, db: Database, e: Notification)
    requires Inv(settings, db)
    ensures Inv(settings, db.(subs := ApplyPaymentFailed(settings, db, e).0))
  {
    SameKeysKeepUnique(db.subs, ApplyPaymentFailed(settings, db, e).0);
  }

  /** Uniqueness only looks at the owner, the Paddle id and whether the row is live. */
  lemma {:induction false} SameKeysKeepUnique(before: seq<Subscription>, after: seq<Subscription>)
    requires UniqueLive(before) && UniquePaddleIds(before)
    requires |before| == |after|
    requires forall i :: 0 <= i < |before| ==>
               after[i].user == before[i].user && after[i].paddleId == before[i].paddleId && after[i].status == before[i].status
    ensures UniqueLive(after) && UniquePaddleIds(after)
  {
    forall i, j | 0 <= i < j < |after| && Live(after[i].status) && Live(after[j].status)
      ensures after[i].user != after[j].user
    {
      assert before[i].status == after[i].status && before[j].status == after[j].status;
    }
  }

  lemma {:induction false} JobKeepsInv(settings: Settings, db: Database, now: Time)
    requires Inv(settings, db)
    ensures Inv(settings, RunDunning(settings, db, now).0)
  {
    SameKeysKeepUnique(db.subs, RunDunning(settings, db, now).0.subs);
  }

  lemma {:induction false} CancelKeepsInv(settings: Settings, db: Database, only: Option<nat>, answers: map<string, Answer>)
    requires Inv(settings, db) && CancelForDeleted(db, only, answers).Some?
    ensures Inv(settings, db.(subs := CancelForDeleted(db, only, answers).value))
  {
    var after := Cancelled(db, only, answers);
    assert after == PartWay(db.subs, after, |db.subs|);
    forall i | 0 <= i < |after| ensures RowOk(settings, db.plans, after[i]) && after[i].paddleId == db.subs[i].paddleId {
      assert RowOk(settings, db.plans, db.subs[i]);
    }
  }

  /** Every step, whatever it is, keeps the invariant. */
  lemma {:induction false} InvKept(settings: Settings, db: Database, step: Step)
    requires Inv(settings, db)
    ensures Inv(settings, Perform(settings, db, step).0)
  {
    match step
    case Webhook(e, now) =>
      WebhookKeepsInv(settings, db, e, now);
    case Dun(now) =>
      JobKeepsInv(settings, db, now);
    case Cancel(only, answers) =>
      if CancelForDeleted(db, only, answers).Some? {
        CancelKeepsInv(settings, db, only, answers);
      }
    case SetDeleted(user, deleted) =>
  }

  /** Every reachable database satisfies the invariant: at most one live subscription per user, a grace
      that is exactly the configured days, a dunning only while live, no snapshot of another plan. */
  lemma {:induction false} EveryRunKeepsInv(settings: Settings, db: Database, run: seq<Step>)
    requires Inv(settings, db)
    ensures Inv(settings, Play(settings, db, run))
  {
    if run != [] {
      EveryRunKeepsInv(settings, db, run[..|run| - 1]);
      InvKept(settings, Play(settings, db, run[..|run| - 1]), run[|run| - 1]);
    }
  }

  /** A row's owner and its Paddle id never change, and no row is lost. */
  predicate SameOwners(before: seq<Subscription>, after: seq<Subscription>) {
    && |before| <= |after|
    && forall i :: 0 <= i < |before| ==> after[i].user == before[i].user && after[i].paddleId == before[i].paddleId
  }

  /** Within one dunning the grace is never moved: it ends when it was said to, however often the payment fails. */
  predicate GraceNotExtended(before: seq<Subscription>, after: seq<Subscription>) {
    && |before| <= |after|
    && forall i :: 0 <= i < |before| && Dunning(before[i]) && Dunning(after[i]) ==>
         after[i].pastDueSince == before[i].pastDueSince && after[i].graceEndsAt == before[i].graceEndsAt
  }

  lemma {:induction false} WebhookKeepsOwners(settings: Settings, db: Database, e: Notification, now: Time)
    requires Inv(settings, db)
    ensures SameOwners(db.subs, Deliver(settings, db, e, now).db.subs)
    ensures GraceNotExtended(db.subs, Deliver(settings, db, e, now).db.subs)
  {
    if e.id !in db.events && e.eventType in SUBSCRIPTION_EVENTS && ApplySubscription(settings, db, e, now).Success? {
      SubscriptionApplied(settings, db, e, now);
    }
  }

  lemma {:induction false} CancelKeepsOwners(db: Database, only: Option<nat>, answers: map<string, Answer>)
    requires CancelForDeleted(db, only, answers).Some?
    ensures SameOwners(db.subs, CancelForDeleted(db, only, answers).value)
    ensures GraceNotExtended(db.subs, CancelForDeleted(db, only, answers).value)
  {
  }

  lemma {:induction false} OwnersAndGraceKept(settings: Settings, db: Database, step: Step)
    requires Inv(settings, db)
    ensures SameOwners(db.subs, Perform(settings, db, step).0.subs)
    ensures GraceNotExtended(db.subs, Perform(settings, db, step).0.subs)
  {
    match step
    case Webhook(e, now) => WebhookKeepsOwners(settings, db, e, now);
    case Dun(now) =>
    case Cancel(only, answers) =>
      if CancelForDeleted(db, only, answers).Some? {
        CancelKeepsOwners(db, only, answers);
      }
    case SetDeleted(user, deleted) =>
  }

  lemma {:induction false} EveryRunKeepsOwners(settings: Settings, db: Database, run: seq<Step>)
    requires Inv(settings, db)
    ensures SameOwners(db.subs, Play(settings, db, run).subs)
  {
    if run != [] {
      var earlier := run[..|run| - 1];
      EveryRunKeepsOwners(settings, db, earlier);
      EveryRunKeepsInv(settings, db, earlier);
      OwnersAndGraceKept(settings, Play(settings, db, earlier), run[|run| - 1]);
    }
  }

  /** Row i is being dunned at every point of the run, its start and its end included. */
  predicate DunnedThroughout(settings: Settings, db: Database, run: seq<Step>, i: nat) {
    var now := Play(settings, db, run).subs;
    i < |now| && Dunning(now[i]) && (run != [] ==> DunnedThroughout(settings, db, run[..|run| - 1], i))
  }

  /** However long one dunning lasts, through whatever run of steps, its grace ends when it was first said to. */
  lemma {:induction false} GraceStandsWhileDunned(settings: Settings, db: Database, run: seq<Step>, i: nat)
    requires Inv(settings, db) && i < |db.subs| && DunnedThroughout(settings, db, run, i)
    ensures var row, now := db.subs[i], Play(settings, db, run).subs[i];
            now.pastDueSince == row.pastDueSince && now.graceEndsAt == row.graceEndsAt
  {
    if run != [] {
      var earlier := run[..|run| - 1];
      GraceStandsWhileDunned(settings, db, earlier, i);
      EveryRunKeepsInv(settings, db, earlier);
      OwnersAndGraceKept(settings, Play(settings, db, earlier), run[|run| - 1]);
    }
  }

  // ----- past due means dunned -----

  lemma {:induction false} PastDueDunnedKept(settings: Settings, db: Database, step: Step)
    requires Inv(settings, db) && PastDueIsDunned(db.subs)
    requires !step.Cancel?
    ensures PastDueIsDunned(Perform(settings, db, step).0.subs)
  {
    if step.Webhook? && step.e.id !in db.events && step.e.eventType in SUBSCRIPTION_EVENTS
       && ApplySubscription(settings, db, step.e, step.now).Success? {
      SubscriptionApplied(settings, db, step.e, step.now);
    }
  }

  /** The one way to a past-due row nobody is dunned for: Paddle answers a cancellation with past_due. */
  lemma {:induction false} CancelLeavesPastDueUndunned(settings: Settings, db: Database, only: Option<nat>, answers: map<string, Answer>)
    requires Inv(settings, db) && PastDueIsDunned(db.subs)
    requires CancelForDeleted(db, only, answers).Some?
    ensures PastDueIsDunned(CancelForDeleted(db, only, answers).value)
            <==> !exists i :: 0 <= i < |db.subs| && ToCancel(db, db.subs[i], only)
                   && AnswerFor(answers, db.subs[i]) == Says("past_due")
  {
    var after := CancelForDeleted(db, only, answers).value;
    forall i | 0 <= i < |db.subs| && ToCancel(db, db.subs[i], only) && AnswerFor(answers, db.subs[i]) == Says("past_due")
      ensures after[i].status == PastDue && !Dunning(after[i])
    {
      assert SaidStatus(Says("past_due")) == Some(PastDue);
    }
    forall i | 0 <= i < |after| && after[i].status == PastDue && !Dunning(after[i])
      ensures ToCancel(db, db.subs[i], only) && AnswerFor(answers, db.subs[i]) == Says("past_due")
    {
      OnlyPastDueReadsPastDue(AnswerFor(answers, db.subs[i]));
    }
  }

  /** The step cancels a row, and Paddle's answer says it is past due. */
  predicate LeavesPastDue(db: Database, step: Step) {
    && step.Cancel? && CancelForDeleted(db, step.only, step.answers).Some?
    && exists i :: 0 <= i < |db.subs| && ToCancel(db, db.subs[i], step.only)
         && AnswerFor(step.answers, db.subs[i]) == Says("past_due")
  }

  lemma {:induction false} PastDueDunnedIff(settings: Settings, db: Database, step: Step)
    requires Inv(settings, db) && PastDueIsDunned(db.subs)
    ensures PastDueIsDunned(Perform(settings, db, step).0.subs) <==> !LeavesPastDue(db, step)
  {
    if !step.Cancel? {
      PastDueDunnedKept(settings, db, step);
    } else if CancelForDeleted(db, step.only, step.answers).Some? {
      CancelLeavesPastDueUndunned(settings, db, step.only, step.answers);
    }
  }

  /** At every point of the run, its start and its end included. */
  predicate AlwaysDunned(settings: Settings, db: Database, run: seq<Step>) {
    PastDueIsDunned(Play(settings, db, run).subs) && (run != [] ==> AlwaysDunned(settings, db, run[..|run| - 1]))
  }

  predicate NeverAnsweredPastDue(settings: Settings, db: Database, run: seq<Step>) {
    run != [] ==>
      && !LeavesPastDue(Play(settings, db, run[..|run| - 1]), run[|run| - 1])
      && NeverAnsweredPastDue(settings, db, run[..|run| - 1])
  }

  /** All along a run every past-due row is being dunned, if and only if no cancellation in it is answered with
      past_due for a row it cancels. */
  lemma {:induction false} EveryRunDunsPastDueIff(settings: Settings, db: Database, run: seq<Step>)
    requires Inv(settings, db) && PastDueIsDunned(db.subs)
    ensures AlwaysDunned(settings, db, run) <==> NeverAnsweredPastDue(settings, db, run)
  {
    if run != [] {
      var earlier := run[..|run| - 1];
      EveryRunDunsPastDueIff(settings, db, earlier);
      EveryRunKeepsInv(settings, db, earlier);
      if AlwaysDunned(settings, db, earlier) {
        PastDueDunnedIff(settings, Play(settings, db, earlier), run[|run| - 1]);
      }
    }
  }

  /** Such an answer, and the row it leaves: owed for, and nobody dunned. */
  lemma {:induction false} PastDueAnswerLeavesUndunned(settings: Settings)
    ensures var row := Subscription(1, 0, Active, None, None, None, Some("sub_1"), None, None, None, None, None, 0);
            var db := Database(map[], [row], map[1 := Account(true)], [Plan("pro", None)]);
            var after := CancelForDeleted(db, None, map["sub_1" := Says("past_due")]);
            && Inv(settings, db) && PastDueIsDunned(db.subs)
            && after == Some([row.(status := PastDue)]) && !PastDueIsDunned(after.value)
  {
    var row := Subscription(1, 0, Active, None, None, None, Some("sub_1"), None, None, None, None, None, 0);
    var db := Database(map[], [row], map[1 := Account(true)], [Plan("pro", None)]);
    var answers := map["sub_1" := Says("past_due")];
    assert AfterCancel(db, row, None, answers) == Some(row.(status := PastDue));
    assert Cancelled(db, None, answers) == [row.(status := PastDue)];
    var after := Cancelled(db, None, answers);
    assert after[0].status == PastDue && !Dunning(after[0]);
  }

  lemma {:induction false} OnlyPastDueReadsPastDue(answer: Answer)
    requires answer.Says?
    ensures SaidStatus(answer) == Some(PastDue) ==> answer == Says("past_due")
  {
  }

  predicate SaysCanceled(answer: Answer) {
    answer == Says("canceled") || answer == Says("")
  }

  /** One row cancelled as Paddle says, and left alone by every cancellation after. */
  lemma {:induction false} RowIsDone(settings: Settings, db: Database, row: Subscription, only: Option<nat>, answers: map<string, Answer>, again: map<string, Answer>)
    requires RowOk(settings, db.plans, row)
    requires ToCancel(db, row, only) ==> SaysCanceled(AnswerFor(answers, row))
    ensures AfterCancel(db, row, only, answers).Some?
    ensures var after := AfterCancel(db, row, only, answers).value;
            && (if ToCancel(db, row, only) then after.status == Canceled && !Dunning(after) else after == row)
            && (Live(after.status) ==> after == row)
            && !ToCancel(db, after, only)
            && AfterCancel(db, after, only, again) == Some(after)
  {
    assert ToCancel(db, row, only) ==> SaidStatus(AnswerFor(answers, row)) == Some(Canceled);
  }

  /** Once Paddle has said of each subscription to cancel that it is cancelled, no deleted account has one still
      billing, every other row is as it was, and cancelling again finds nothing to do. */
  lemma {:induction false} CancelledIsDone(settings: Settings, db: Database, only: Option<nat>, answers: map<string, Answer>, again: map<string, Answer>)
    requires Inv(settings, db)
    requires forall i :: 0 <= i < |db.subs| && ToCancel(db, db.subs[i], only) ==> SaysCanceled(AnswerFor(answers, db.subs[i]))
    ensures CancelForDeleted(db, only, answers).Some?
    ensures var after := db.(subs := CancelForDeleted(db, only, answers).value);
            && |after.subs| == |db.subs|
            && (forall i :: 0 <= i < |db.subs| ==>
                  && !ToCancel(after, after.subs[i], only)
                  && if ToCancel(db, db.subs[i], only) then after.subs[i].status == Canceled && !Dunning(after.subs[i])
                     else after.subs[i] == db.subs[i])
            && CancelForDeleted(after, only, again) == Some(after.subs)
  {
    forall i | 0 <= i < |db.subs|
      ensures AfterCancel(db, db.subs[i], only, answers).Some?
      ensures var after := AfterCancel(db, db.subs[i], only, answers).value;
              && (if ToCancel(db, db.subs[i], only) then after.status == Canceled && !Dunning(after) else after == db.subs[i])
              && (Live(after.status) ==> after == db.subs[i])
              && !ToCancel(db, after, only) && AfterCancel(db, after, only, again) == Some(after)
    {
      RowIsDone(settings, db, db.subs[i], only, answers, again);
    }
    var subs := Cancelled(db, only, answers);
    FewerLive(db.subs, subs, |subs|);
    assert subs == PartWay(db.subs, subs, |subs|);
    NothingToCancel(db.(subs := subs), only, again);
  }

  /** Rows that only stop being live pass the index however far the flush has come. */
  lemma {:induction false} FewerLive(before: seq<Subscription>, after: seq<Subscription>, k: nat)
    requires UniqueLive(before) && k <= |after| == |before|
    requires forall i :: 0 <= i < |after| && Live(after[i].status) ==> after[i] == before[i]
    ensures FlushPasses(before, after, k)
  {
    FewerLiveStillOne(before, PartWay(before, after, k));
    if k > 0 {
      FewerLive(before, after, k - 1);
    }
  }

  lemma {:induction false} FewerLiveStillOne(before: seq<Subscription>, after: seq<Subscription>)
    requires UniqueLive(before) && |after| == |before|
    requires forall i :: 0 <= i < |after| && Live(after[i].status) ==> after[i] == before[i]
    ensures UniqueLive(after)
  {
  }

  lemma {:induction false} NothingToCancel(db: Database, only: Option<nat>, answers: map<string, Answer>)
    requires UniqueLive(db.subs) && forall i :: 0 <= i < |db.subs| ==> !ToCancel(db, db.subs[i], only)
    ensures CancelForDeleted(db, only, answers) == Some(db.subs)
  {
    assert Cancelled(db, only, answers) == db.subs;
    FewerLive(db.subs, db.subs, |db.subs|);
  }

  // ----- who is mailed -----

  predicate ToLiveOwners(users: map<nat, Account>, subs: seq<Subscription>, mail: seq<Mail>) {
    forall m :: m in mail ==> m.row < |subs| && m.to == subs[m.row].user && Mailable(users, m.to)
  }

  lemma {:induction false} WebhookMailsOwner(settings: Settings, db: Database, e: Notification, now: Time)
    requires Inv(settings, db) && ApplySubscription(settings, db, e, now).Success?
    ensures var (subs, handled) := ApplySubscription(settings, db, e, now).value;
            ToLiveOwners(db.users, subs, handled.mail)
  {
    SubscriptionApplied(settings, db, e, now);
  }

  lemma {:induction false} JobMailsOwners(settings: Settings, db: Database, now: Time)
    ensures var (after, run) := RunDunning(settings, db, now);
            ToLiveOwners(db.users, after.subs, run.mail)
  {
    LettersGoToOwners(db, GraceEndingMail, Reminders(settings, db.subs, now));
    LettersGoToOwners(db, DowngradedMail, Downgrades(settings, db.subs, now));
  }

  /** No dunning email is ever written to an account deleted by then, nor to anyone but the row's owner. */
  lemma {:induction false} MailGoesToLiveOwners(settings: Settings, db: Database, step: Step)
    requires Inv(settings, db)
    ensures var (after, mail) := Perform(settings, db, step);
            forall m :: m in mail ==>
              m.row < |after.subs| && m.to == after.subs[m.row].user && Mailable(db.users, m.to)
  {
    match step
    case Webhook(e, now) =>
      if e.id !in db.events && e.eventType in SUBSCRIPTION_EVENTS && ApplySubscription(settings, db, e, now).Success? {
        WebhookMailsOwner(settings, db, e, now);
      }
    case Dun(now) => JobMailsOwners(settings, db, now);
    case Cancel(only, answers) =>
    case SetDeleted(user, deleted) =>
  }

  lemma {:induction false} LettersGoToOwners(db: Database, kind: MailKind, due: seq<bool>)
    requires |due| <= |db.subs|
    ensures forall m :: m in Letters(db, kind, due) ==>
              m.row < |due| && due[m.row] && m.kind == kind && m.to == db.subs[m.row].user && Mailable(db.users, m.to)
  {
    if due != [] {
      var i := |due| - 1;
      LettersGoToOwners(db, kind, due[..i]);
    }
  }

  // ----- whose it is, and of what plan -----

  predicate IsSold(settings: Settings, price: string) {
    exists k :: 0 <= k < |settings.prices| && settings.prices[k].1 == price
  }

  lemma {:induction false} PlanOfPrice(prices: seq<(string, string)>, price: string)
    ensures PlanForPrice(prices, price).None? <==> forall k :: 0 <= k < |prices| ==> prices[k].1 != price
    ensures forall k :: 0 <= k < |prices| && prices[k].1 == price && (forall j :: 0 <= j < k ==> prices[j].1 != price) ==>
              PlanForPrice(prices, price) == Some(prices[k].0)
  {
    if prices != [] && prices[0].1 != price {
      var rest := prices[1..];
      PlanOfPrice(rest, price);
      assert forall k :: 0 < k < |prices| ==> prices[k] == rest[k - 1];
      forall k | 0 <= k < |prices| && prices[k].1 == price && (forall j :: 0 <= j < k ==> prices[j].1 != price)
        ensures PlanForPrice(prices, price) == Some(prices[k].0)
      {
        assert rest[k - 1] == prices[k];
        assert forall j :: 0 <= j < k - 1 ==> rest[j] == prices[j + 1];
      }
    }
  }

  /** Unsold items are passed over, in order; only when all are unsold is there no plan. */
  lemma {:induction false} FirstSoldIsFirst(settings: Settings, prices: seq<string>)
    ensures FirstSold(settings, prices).None? <==> forall k :: 0 <= k < |prices| ==> !IsSold(settings, prices[k])
    ensures forall k :: 0 <= k < |prices| && IsSold(settings, prices[k]) && (forall j :: 0 <= j < k ==> !IsSold(settings, prices[j])) ==>
              FirstSold(settings, prices) == PlanForPrice(settings.prices, prices[k])
  {
    if prices != [] {
      PlanOfPrice(settings.prices, prices[0]);
      var rest := prices[1..];
      FirstSoldIsFirst(settings, rest);
      assert forall k :: 0 < k < |prices| ==> prices[k] == rest[k - 1];
      forall k | 0 < k < |prices| && IsSold(settings, prices[k]) && (forall j :: 0 <= j < k ==> !IsSold(settings, prices[j]))
        ensures FirstSold(settings, prices) == PlanForPrice(settings.prices, prices[k])
      {
        assert rest[k - 1] == prices[k];
        assert forall j :: 0 <= j < k - 1 ==> rest[j] == prices[j + 1];
      }
    }
  }

  predicate LastOfCustomer(subs: seq<Subscription>, i: nat, customer: string) {
    && i < |subs| && subs[i].customer == Some(customer)
    && forall j :: i < j < |subs| ==> subs[j].customer != Some(customer)
  }

  lemma {:induction false} PaidBeforeIsLast(subs: seq<Subscription>, customer: string, i: nat)
    ensures PaidBefore(subs, customer).None? <==> forall j :: 0 <= j < |subs| ==> subs[j].customer != Some(customer)
    ensures LastOfCustomer(subs, i, customer) ==> PaidBefore(subs, customer) == Some(subs[i].user)
  {
    if subs != [] && subs[|subs| - 1].customer != Some(customer) {
      var init := subs[..|subs| - 1];
      PaidBeforeIsLast(init, customer, i);
      assert LastOfCustomer(subs, i, customer) ==> LastOfCustomer(init, i, customer);
    }
  }

  /** An owner is found by the id the event carries if that account exists, by the last payment of the same customer
      if not, and is missing exactly when both fail. */
  lemma {:induction false} OwnerIsNamedOrPaidLast(db: Database, data: Data, i: nat)
    ensures var named := data.userId.Some? && data.userId.value in db.users;
            && (named ==> Owner(db, data) == data.userId)
            && (!named && data.customer.Some? && LastOfCustomer(db.subs, i, data.customer.value) ==>
                  Owner(db, data) == Some(db.subs[i].user))
            && (Owner(db, data).None? <==>
                  !named && (data.customer.Some? ==> forall j :: 0 <= j < |db.subs| ==> db.subs[j].customer != data.customer))
  {
    if data.customer.Some? {
      PaidBeforeIsLast(db.subs, data.customer.value, i);
    }
  }

  // ----- repeats and failures -----

  predicate LogGrows(before: map<string, EventRow>, after: map<string, EventRow>) {
    forall id :: id in before ==> id in after && after[id] == before[id]
  }

  /** No step takes an event out of the log, or rewrites what came of it. */
  lemma {:induction false} StepGrowsLog(settings: Settings, db: Database, step: Step)
    ensures LogGrows(db.events, Perform(settings, db, step).0.events)
  {
    match step
    case Webhook(e, now) =>
      var after := Deliver(settings, db, e, now).db.events;
      assert forall id :: id in after && id !in db.events ==> id == e.id;
    case Dun(_) =>
    case Cancel(_, _) =>
    case SetDeleted(_, _) =>
  }

  lemma {:induction false} EveryRunGrowsLog(settings: Settings, db: Database, run: seq<Step>)
    ensures LogGrows(db.events, Play(settings, db, run).events)
  {
    if run != [] {
      EveryRunGrowsLog(settings, db, run[..|run| - 1]);
      StepGrowsLog(settings, Play(settings, db, run[..|run| - 1]), run[|run| - 1]);
    }
  }

  /** An event that cannot be applied leaves every table as it was, its id unclaimed. One that was answered is
      claimed for good: after whatever run, a delivery under its id, whatever else it says, changes no table and
      is answered as the duplicate it is. */
  lemma {:induction false} RepeatsAndFailuresChangeNothing(settings: Settings, db: Database, e: Notification, now: Time,
                                                           run: seq<Step>, again: Notification, later: Time)
    requires again.id == e.id
    ensures var first := Deliver(settings, db, e, now);
            if first.reply.Failure? then first.db == db && e.id !in db.events
            else var since := Play(settings, first.db, run);
                 Deliver(settings, since, again, later) == Delivery(since, Success(Handled(Ignored, true, {}, [])))
  {
    var first := Deliver(settings, db, e, now);
    if first.reply.Success? {
      assert e.id in first.db.events;
      EveryRunGrowsLog(settings, first.db, run);
    }
  }
}

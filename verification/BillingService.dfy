/** The transactions of app/accounts/billing.py as they run: fields rewritten one after the other,
    a rollback when an event cannot be applied, loops over the rows a statement returned. Each is
    proved to do exactly what module Billing says of it. */
module BillingService {
  import opened Wrappers
  import opened Billing

  class Service {
    const settings: Settings
    var events: map<string, EventRow>
    var subs: seq<Subscription>
    var users: map<nat, Account>
    var plans: seq<Plan>

    ghost function Db(): Database
      reads this
    {
      Database(events, subs, users, plans)
    }

    constructor (settings: Settings, users: map<nat, Account>, plans: seq<Plan>)
      ensures this.settings == settings
      ensures Db() == Database(map[], [], users, plans)
    {
      this.settings := settings;
      this.events, this.subs, this.users, this.plans := map[], [], users, plans;
    }

    /** A webhook request: commits what the event did, or rolls it all back. */
    method Webhook(e: Notification, now: Time) returns (reply: Result<Handled, Problem>)
      modifies this
      ensures Delivery(Db(), reply) == Deliver(settings, old(Db()), e, now)
    {
      var savedEvents, savedSubs := events, subs;
      reply := Handle(e, now);
      if reply.Failure? {
        events, subs := savedEvents, savedSubs;
      }
    }

    /** Claim the event by its id, apply it, and record what came of it. */
    method Handle(e: Notification, now: Time) returns (reply: Result<Handled, Problem>)
      modifies this
      ensures users == old(users) && plans == old(plans)
      ensures var d := Deliver(settings, old(Db()), e, now);
              reply == d.reply && (reply.Success? ==> Db() == d.db)
    {
      if e.id in events {
        return Success(Handled(Ignored, true, {}, []));
      }
      ghost var before := Db();
      events := events[e.id := EventRow(e.eventType, e.occurredAt, e.data.id, Ignored)];
      ghost var applied: Result<(seq<Subscription>, Handled), Problem>;
      reply, applied := Dispatch(e, now);
      SameApplied(settings, before, events, e, now);
      if reply.Success? {
        NotedOnce(events, before.events, e.id, EventRow(e.eventType, e.occurredAt, e.data.id, Ignored), reply.value.outcome);
        events := events[e.id := events[e.id].(outcome := reply.value.outcome)];
      }
    }

    /** Do what events of its type do. */
    method Dispatch(e: Notification, now: Time) returns (reply: Result<Handled, Problem>, ghost applied: Result<(seq<Subscription>, Handled), Problem>)
      modifies this`subs
      ensures applied == Apply(settings, old(Db()), e, now)
      ensures match applied
              case Failure(problem) => reply == Failure(problem)
              case Success(done) => reply == Success(done.1) && subs == done.0
    {
      applied := Apply(settings, Db(), e, now);
      if e.eventType in SUBSCRIPTION_EVENTS {
        reply := ApplySubscriptionEvent(e, now);
      } else if e.eventType == PAYMENT_FAILED {
        var handled := ApplyFailedPayment(e);
        reply := Success(handled);
      } else {
        reply := Success(Handled(Ignored, false, {}, []));
      }
    }

    method ApplySubscriptionEvent(e: Notification, now: Time) returns (reply: Result<Handled, Problem>)
      modifies this`subs
      ensures match ApplySubscription(settings, old(Db()), e, now)
              case Failure(problem) => reply == Failure(problem)
              case Success(done) => reply == Success(done.1) && subs == done.0
    {
      if e.data.id.None? {
        return Failure(NoEntity);
      }
      var paddleId := e.data.id.value;
      var at := Locate(subs, paddleId);
      if at.Some? && subs[at.value].eventAt.Some? && e.occurredAt < subs[at.value].eventAt.value {
        return Success(Handled(Stale, false, {}, []));
      }
      var status := ParseStatus(e.data.status);
      if status.None? {
        return Failure(UnknownStatus);
      }
      var slug := FirstSold(settings, e.data.prices);
      if slug.None? {
        return Failure(NotSold);
      }
      var plan := PlanNamed(plans, slug.value);
      if plan.None? {
        return Failure(NoSuchPlan);
      }
      var row: Subscription;
      var previous: Option<Status>;
      if at.None? {
        var owner := Owner(Database(events, subs, users, plans), e.data);
        if owner.None? {
          return Success(Handled(Unmatched, false, {}, []));
        }
        row, previous := NewRow(owner.value, paddleId, status.value, plan.value, now), None;
      } else {
        row, previous := subs[at.value], Some(subs[at.value].status);
      }
      if Live(status.value) && HasOtherLive(subs, row.user, paddleId) {
        return Failure(SecondLive);
      }
      if !Readable(e.data, at.None?) {
        return Failure(BadTimestamp);
      }
      row := Rewrite(row, status.value, plan.value, e, at.None?);
      var place := if at.Some? then at.value else |subs|;
      var mail;
      row, mail := FollowStatus(row, previous, place, e.occurredAt);
      subs := if place < |subs| then subs[place := row] else subs + [row];
      return Success(Handled(Applied, false, {row.user}, mail));
    }

    /** Rewrite what the event mirrors, field by field. */
    method Rewrite(before: Subscription, status: Status, plan: nat, e: Notification, isNew: bool) returns (row: Subscription)
      requires Readable(e.data, isNew)
      ensures row == Mirrored(plans, before, status, plan, e, isNew)
    {
      row := before;
      if row.grandfathered.Some? && row.plan != plan {
        row := EndSnapshot(row, plan);
      }
      assert row == before.(grandfathered := KeptGrandfathering(plans, before, plan));
      row := row.(plan := plan);
      row := row.(status := status);
      if e.data.customer.Some? {
        row := row.(customer := e.data.customer);
      }
      row := SetTimes(row, e, isNew);
    }

    /** When the period ends, when the subscription does, when the event was, and for a new row when it began. */
    method SetTimes(before: Subscription, e: Notification, isNew: bool) returns (row: Subscription)
      requires Readable(e.data, isNew)
      ensures row == before.(periodEnd := ParseTime(e.data.periodEnds), cancelAt := CancelDate(e.data), eventAt := Some(e.occurredAt),
                             createdAt := if isNew && e.data.startedAt.At? then e.data.startedAt.time
                                          else if isNew && e.data.createdAt.At? then e.data.createdAt.time
                                          else before.createdAt)
    {
      row := before.(periodEnd := ParseTime(e.data.periodEnds));
      row := row.(cancelAt := if e.data.scheduledAction == "cancel" then ParseTime(e.data.scheduledAt) else None);
      row := row.(eventAt := Some(e.occurredAt));
      if isNew {
        row := SetStarted(row, e.data);
      }
    }

    /** A new row dates from when the subscription started, else from when it was made, else from now. */
    method SetStarted(before: Subscription, data: Data) returns (row: Subscription)
      requires Readable(data, true)
      ensures row == before.(createdAt := if data.startedAt.At? then data.startedAt.time
                                          else if data.createdAt.At? then data.createdAt.time
                                          else before.createdAt)
    {
      row := before;
      var started := if data.startedAt.At? then ParseTime(data.startedAt) else ParseTime(data.createdAt);
      if started.Some? {
        row := row.(createdAt := started.value);
      }
    }

    /** Start, keep or end the dunning as the rewritten status says. */
    method FollowStatus(before: Subscription, previous: Option<Status>, place: nat, at: Time)
      returns (row: Subscription, mail: seq<Mail>)
      ensures var (after, kind) := DunningOf(settings, before, previous, Mailable(users, before.user), at);
              row == after && mail == Letter(kind, place, before.user)
    {
      row, mail := before, [];
      if row.status == PastDue {
        if row.pastDueSince.None? {
          row, mail := StartDunning(row, place, at);
        }
      } else if Paid(row.status) {
        if row.pastDueSince.Some? && previous == Some(PastDue) {
          if row.notified.Some? && Mailable(users, row.user) {
            mail := [Mail(PaymentRecoveredMail, place, row.user)];
          }
          row := EndDunning(row);
        }
      } else {
        row := EndDunning(row);
      }
    }

    method EndSnapshot(row: Subscription, plan: nat) returns (after: Subscription)
      requires row.grandfathered.Some? && row.plan != plan
      ensures after == row.(grandfathered := KeptGrandfathering(plans, row, plan))
    {
      after := row;
      var kept := row.grandfathered.value;
      if kept < |plans| && plans[kept].snapshotOf.Some? && plans[kept].snapshotOf.value != plan {
        after := after.(grandfathered := None);
      }
    }

    method StartDunning(row: Subscription, place: nat, at: Time) returns (after: Subscription, mail: seq<Mail>)
      ensures after == Dunned(settings, row, Mailable(users, row.user), at)
      ensures mail == Letter(if Mailable(users, row.user) then Some(PaymentFailedMail) else None, place, row.user)
    {
      after := row.(pastDueSince := Some(at));
      after := after.(graceEndsAt := Some(at + settings.graceDays * DAY));
      if !Mailable(users, row.user) {
        return after, [];
      }
      after := after.(notified := Some(PaymentFailed));
      return after, [Mail(PaymentFailedMail, place, row.user)];
    }

    /** No dunning is left, and every other column is as it was. */
    method EndDunning(row: Subscription) returns (after: Subscription)
      ensures after == Undunned(row)
      ensures after.pastDueSince.None? && after.graceEndsAt.None? && after.notified.None?
      ensures after.(pastDueSince := row.pastDueSince, graceEndsAt := row.graceEndsAt, notified := row.notified) == row
    {
      after := row.(pastDueSince := None, graceEndsAt := None, notified := None);
    }

    method ApplyFailedPayment(e: Notification) returns (handled: Handled)
      modifies this`subs
      ensures (subs, handled) == ApplyPaymentFailed(settings, old(Db()), e)
    {
      if e.data.subscriptionId.None? || e.data.subscriptionId.value == "" || e.data.origin != RENEWAL_ORIGIN {
        return Handled(Ignored, false, {}, []);
      }
      var at := Locate(subs, e.data.subscriptionId.value);
      if at.None? {
        return Handled(Unmatched, false, {}, []);
      }
      var row := subs[at.value];
      if row.eventAt.Some? && e.occurredAt < row.eventAt.value {
        return Handled(Stale, false, {}, []);
      }
      handled := Handled(Applied, false, {row.user}, []);
      if row.pastDueSince.None? && Live(row.status) {
        var mail;
        row, mail := StartDunning(row, at.value, e.occurredAt);
        handled := handled.(mail := mail);
        subs := subs[at.value := row];
      }
    }

    /** Claim the reminders due, then the downgrade notices due, then write the mail of each. */
    method Dun(now: Time) returns (run: DunningRun)
      modifies this`subs
      ensures (Db(), run) == RunDunning(settings, old(Db()), now)
    {
      ghost var before := subs;
      ghost var reminders, downgrades := Reminders(settings, subs, now), Downgrades(settings, subs, now);
      var reminded: seq<bool> := [];
      for i := 0 to |subs|
        invariant |subs| == |before| && |reminded| == i
        invariant reminded == reminders[..i]
        invariant forall j :: 0 <= j < i ==> subs[j] == AfterReminder(settings, before[j], now)
        invariant forall j :: i <= j < |subs| ==> subs[j] == before[j]
      {
        reminded := reminded + [ReminderDue(settings, subs[i], now)];
        if reminded[i] {
          subs := subs[i := subs[i].(notified := Some(GraceEnding))];
        }
      }
      var downgraded: seq<bool> := [];
      for i := 0 to |subs|
        invariant |subs| == |before| && |downgraded| == i
        invariant downgraded == downgrades[..i]
        invariant forall j :: 0 <= j < i ==> subs[j] == AfterDunning(settings, before[j], now)
        invariant forall j :: i <= j < |subs| ==> subs[j] == AfterReminder(settings, before[j], now)
      {
        downgraded := downgraded + [DowngradeDue(subs[i], now)];
        if downgraded[i] {
          subs := subs[i := subs[i].(notified := Some(Downgraded))];
        }
      }
      assert reminded == reminders && downgraded == downgrades;
      assert subs == RunDunning(settings, old(Db()), now).0.subs;
      var first := Write(GraceEndingMail, reminded);
      var second := Write(DowngradedMail, downgraded);
      SameRecipients(old(Db()), Db(), GraceEndingMail, reminded);
      SameRecipients(old(Db()), Db(), DowngradedMail, downgraded);
      run := DunningRun(Count(reminded), Count(downgraded), first + second);
    }

    method Write(kind: MailKind, due: seq<bool>) returns (mail: seq<Mail>)
      requires |due| == |subs|
      ensures mail == Letters(Db(), kind, due)
    {
      mail := [];
      for i := 0 to |due|
        invariant mail == Letters(Db(), kind, due[..i])
      {
        assert due[..i + 1][..i] == due[..i];
        if due[i] && Mailable(users, subs[i].user) && subs[i].plan < |plans| {
          mail := mail + [Mail(kind, i, subs[i].user)];
        }
      }
      assert due[..|due|] == due;
    }

    /** The rows written one UPDATE after the other, the unique index tested at each. */
    static method Flush(before: seq<Subscription>, after: seq<Subscription>) returns (passed: bool)
      requires |after| == |before|
      ensures passed <==> FlushPasses(before, after, |before|)
    {
      var table := before;
      FlushStarts(before, after);
      passed := UniqueLive(table);
      for i := 0 to |before|
        invariant table == PartWay(before, after, i)
        invariant passed == FlushPasses(before, after, i)
      {
        OneMoreRow(before, after, i);
        table := table[i := after[i]];
        var still := UniqueLive(table);
        passed := passed && still;
      }
    }

    /** Walk the rows of deleted accounts, write what Paddle answers to each, and flush them all or none. */
    method Cancel(only: Option<nat>, answers: map<string, Answer>) returns (committed: bool)
      modifies this`subs
      ensures match CancelForDeleted(old(Db()), only, answers)
              case None => !committed && subs == old(subs)
              case Some(after) => committed && subs == after
    {
      var before := subs;
      ghost var db := Db();
      committed := true;
      for i := 0 to |before|
        invariant |subs| == |before|
        invariant forall j :: i <= j < |before| ==> subs[j] == before[j]
        invariant committed <==> forall j :: 0 <= j < i ==> AfterCancel(db, before[j], only, answers).Some?
        invariant committed ==> forall j :: 0 <= j < i ==> Some(subs[j]) == AfterCancel(db, before[j], only, answers)
      {
        var row := subs[i];
        if row.user in users && users[row.user].deleted && row.paddleId.Some? && Billable(row.status)
           && (only.None? || only.value == row.user) {
          var answer := AnswerFor(answers, row);
          if answer.Says? {
            var said := SaidStatus(answer);
            if said.None? {
              committed := false;
            } else {
              row := row.(status := said.value);
              row := row.(cancelAt := None);
              row := EndDunning(row);
              subs := subs[i := row];
            }
          }
        }
      }
      if committed {
        assert subs == Cancelled(db, only, answers);
        committed := Flush(before, subs);
      }
      if !committed {
        subs := before;
      }
    }
  }

  lemma {:induction false} FlushStarts(before: seq<Subscription>, after: seq<Subscription>)
    requires |after| == |before|
    ensures PartWay(before, after, 0) == before && FlushPasses(before, after, 0) == UniqueLive(before)
  {
    assert PartWay(before, after, 0) == before;
  }

  lemma {:induction false} OneMoreRow(before: seq<Subscription>, after: seq<Subscription>, k: nat)
    requires k < |before| == |after|
    ensures var table := PartWay(before, after, k)[k := after[k]];
            && table == PartWay(before, after, k + 1)
            && FlushPasses(before, after, k + 1) == (FlushPasses(before, after, k) && UniqueLive(table))
  {
    assert PartWay(before, after, k)[k := after[k]] == PartWay(before, after, k + 1);
  }

  /** What an event does to the subscriptions does not look at the event log. */
  lemma {:induction false} SameApplied(settings: Settings, db: Database, events: map<string, EventRow>, e: Notification, now: Time)
    ensures Apply(settings, db.(events := events), e, now) == Apply(settings, db, e, now)
  {
  }

  /** A claim is made with one outcome and rewritten with another: the log has the last. */
  lemma {:induction false} NotedOnce(claimed: map<string, EventRow>, before: map<string, EventRow>, id: string, row: EventRow, outcome: Outcome)
    requires id !in before && claimed == before[id := row]
    ensures claimed[id := claimed[id].(outcome := outcome)] == before[id := row.(outcome := outcome)]
  {
  }

  /** Claiming dunning steps changes neither who a row's mail goes to nor whether it may go. */
  lemma {:induction false} SameRecipients(before: Database, after: Database, kind: MailKind, due: seq<bool>)
    requires |due| <= |before.subs| == |after.subs|
    requires before.users == after.users && before.plans == after.plans
    requires forall i :: 0 <= i < |before.subs| ==> before.subs[i].user == after.subs[i].user && before.subs[i].plan == after.subs[i].plan
    ensures Letters(before, kind, due) == Letters(after, kind, due)
  {
    if due != [] {
      SameRecipients(before, after, kind, due[..|due| - 1]);
    }
  }
}

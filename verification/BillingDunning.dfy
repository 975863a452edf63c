/** The emails of one payment failure, over every run: each at most once, in order, and the downgrade
    notice claimed exactly when the job has run after the grace ended. */
module BillingDunning {
  import opened Wrappers
  import opened Billing
  import opened BillingInvariants

  /** One payment failure of one row: the steps claimed, the emails sent, and whether the hourly job
      ran at or after the grace's end while it lasted. */
  datatype Episode = Episode(claims: seq<Notified>, mails: seq<MailKind>, overdue: bool)

  function RowAt(db: Database, i: nat): Option<Subscription> {
    if i < |db.subs| then Some(db.subs[i]) else None
  }

  predicate Running(row: Option<Subscription>) {
    row.Some? && Dunning(row.value)
  }

  function MailAbout(mail: seq<Mail>, i: nat): seq<MailKind> {
    if mail == [] then []
    else MailAbout(mail[..|mail| - 1], i) + (if mail[|mail| - 1].row == i then [mail[|mail| - 1].kind] else [])
  }

  /** What a step claims for a row: the column dunning_notified given a new value. */
  function Claim(before: Option<Subscription>, after: Option<Subscription>): seq<Notified> {
    if after.Some? && after.value.notified.Some? && (before.None? || before.value.notified != after.value.notified)
    then [after.value.notified.value]
    else []
  }

  /** Whether the step is the job running once the row's grace has ended. */
  predicate Overdue(step: Step, before: Option<Subscription>) {
    step.Dun? && Running(before) && before.value.graceEndsAt.Some? && before.value.graceEndsAt.value <= step.now
  }

  /** The row's history after a step: a new episode when its dunning starts, else the last one goes on. */
  function Advance(episodes: seq<Episode>, before: Option<Subscription>, after: Option<Subscription>,
                   mails: seq<MailKind>, overdue: bool): seq<Episode>
  {
    var claims := Claim(before, after);
    if Running(after) && !Running(before) then episodes + [Episode(claims, mails, overdue)]
    else if episodes == [] then if mails == [] then [] else [Episode(claims, mails, overdue)]
    else
      var last := episodes[|episodes| - 1];
      episodes[|episodes| - 1 := Episode(last.claims + claims, last.mails + mails, last.overdue || overdue)]
  }

  /** The history of row i over a run. */
  function History(settings: Settings, db: Database, run: seq<Step>, i: nat): seq<Episode> {
    if run == [] then []
    else
      var earlier, step := run[..|run| - 1], run[|run| - 1];
      var before := Play(settings, db, earlier);
      var (after, mail) := Perform(settings, before, step);
      Advance(History(settings, db, earlier, i), RowAt(before, i), RowAt(after, i), MailAbout(mail, i),
              Overdue(step, RowAt(before, i)))
  }

  // ----- what an episode may look like -----

  function ClaimRank(step: Notified): nat {
    match step case PaymentFailed => 1 case GraceEnding => 2 case Downgraded => 3
  }

  function MailRank(kind: MailKind): nat {
    match kind case PaymentFailedMail => 1 case GraceEndingMail => 2 case DowngradedMail => 3 case PaymentRecoveredMail => 4
  }

  function RankOf(notified: Option<Notified>): nat {
    if notified.Some? then ClaimRank(notified.value) else 0
  }

  predicate ClaimsInOrder(claims: seq<Notified>) {
    forall a, b :: 0 <= a < b < |claims| ==> ClaimRank(claims[a]) < ClaimRank(claims[b])
  }

  /** Strictly in the order payment_failed, grace_ending, downgraded, payment_recovered: a subsequence of those. */
  predicate MailsInOrder(mails: seq<MailKind>) {
    forall a, b :: 0 <= a < b < |mails| ==> MailRank(mails[a]) < MailRank(mails[b])
  }

  predicate EpisodeOk(ep: Episode) {
    && ClaimsInOrder(ep.claims)
    && MailsInOrder(ep.mails)
    && (Downgraded in ep.claims <==> ep.overdue)
    && (PaymentFailedMail in ep.mails ==> PaymentFailed in ep.claims)
    && (GraceEndingMail in ep.mails ==> GraceEnding in ep.claims)
    && (DowngradedMail in ep.mails ==> Downgraded in ep.claims)
    && (PaymentRecoveredMail in ep.mails ==> ep.claims != [])
  }

  /** The episode of a running dunning: its last claim is the column, and it is not yet recovered. */
  predicate Current(row: Subscription, ep: Episode) {
    && (if ep.claims == [] then row.notified.None? else row.notified == Some(ep.claims[|ep.claims| - 1]))
    && (forall k :: 0 <= k < |ep.mails| ==> MailRank(ep.mails[k]) <= RankOf(row.notified))
  }

  predicate HistoryOk(row: Option<Subscription>, episodes: seq<Episode>) {
    && (forall k :: 0 <= k < |episodes| ==> EpisodeOk(episodes[k]))
    && (Running(row) ==> episodes != [] && Current(row.value, episodes[|episodes| - 1]))
  }

  // ----- what a step may do to a row -----

  predicate Optional(mails: seq<MailKind>, kind: MailKind) {
    mails == [] || mails == [kind]
  }

  predicate Quiet(before: Option<Subscription>, after: Option<Subscription>, mails: seq<MailKind>, overdue: bool) {
    && mails == []
    && (Running(before) <==> Running(after))
    && (after.Some? ==> if before.Some? then after.value.notified == before.value.notified else after.value.notified.None?)
    && (overdue ==> before.Some? && before.value.notified == Some(Downgraded))
  }

  predicate Starts(before: Option<Subscription>, after: Option<Subscription>, mails: seq<MailKind>, overdue: bool) {
    && !Running(before) && Running(after) && !overdue
    && (before.Some? ==> before.value.notified.None?)
    && after.value.notified == (if mails == [] then None else Some(PaymentFailed))
    && Optional(mails, PaymentFailedMail)
  }

  predicate Claims(before: Option<Subscription>, after: Option<Subscription>, mails: seq<MailKind>, overdue: bool) {
    && Running(before) && Running(after)
    && RankOf(before.value.notified) < RankOf(after.value.notified)
    && (if overdue then after.value.notified == Some(Downgraded) && Optional(mails, DowngradedMail)
        else after.value.notified == Some(GraceEnding) && Optional(mails, GraceEndingMail))
  }

  predicate Ends(before: Option<Subscription>, after: Option<Subscription>, mails: seq<MailKind>, overdue: bool) {
    && Running(before) && after.Some? && !Running(after) && !overdue
    && after.value.notified.None?
    && Optional(mails, PaymentRecoveredMail)
    && (mails != [] ==> before.value.notified.Some?)
  }

  predicate Moves(before: Option<Subscription>, after: Option<Subscription>, mails: seq<MailKind>, overdue: bool) {
    || Quiet(before, after, mails, overdue)
    || Starts(before, after, mails, overdue)
    || Claims(before, after, mails, overdue)
    || Ends(before, after, mails, overdue)
  }

  lemma {:induction false} WebhookMoves(settings: Settings, db: Database, e: Notification, now: Time, i: nat)
    requires Inv(settings, db)
    ensures var (after, mail) := Perform(settings, db, Webhook(e, now));
            Moves(RowAt(db, i), RowAt(after, i), MailAbout(mail, i), false)
  {
    if e.id !in db.events {
      if e.eventType in SUBSCRIPTION_EVENTS {
        if ApplySubscription(settings, db, e, now).Success? {
          SubscriptionApplied(settings, db, e, now);
          SubscriptionMoves(settings, db, e, now, i);
        }
      } else if e.eventType == PAYMENT_FAILED {
        FailedPaymentMoves(settings, db, e, i);
      }
    }
  }

  lemma {:induction false} FailedPaymentMoves(settings: Settings, db: Database, e: Notification, i: nat)
    requires Inv(settings, db)
    ensures var (subs, handled) := ApplyPaymentFailed(settings, db, e);
            Moves(RowAt(db, i), RowAt(db.(subs := subs), i), MailAbout(handled.mail, i), false)
  {
  }

  /** The dunning of the row an event rewrote, from that of the row as it was. */
  lemma {:induction false} DunningMoves(settings: Settings, before: Option<Subscription>, row: Subscription, mailable: bool, at: Time)
    requires before.Some? ==>
               && row.pastDueSince == before.value.pastDueSince && row.notified == before.value.notified
               && (before.value.notified.Some? ==> Dunning(before.value))
    requires before.None? ==> !Dunning(row) && row.notified.None?
    ensures var (after, kind) := DunningOf(settings, row, if before.Some? then Some(before.value.status) else None, mailable, at);
            Moves(before, Some(after), if kind.Some? then [kind.value] else [], false)
  {
  }

  lemma {:induction false} SubscriptionMoves(settings: Settings, db: Database, e: Notification, now: Time, i: nat)
    requires Inv(settings, db)
    requires ApplySubscription(settings, db, e, now).Success?
    ensures var (subs, handled) := ApplySubscription(settings, db, e, now).value;
            Moves(RowAt(db, i), RowAt(db.(subs := subs), i), MailAbout(handled.mail, i), false)
  {
    var (subs, handled) := ApplySubscription(settings, db, e, now).value;
    MailOfOne(Mail(PaymentFailedMail, 0, 0), i);
    if handled.outcome == Applied {
      var paddleId := e.data.id.value;
      var at := Locate(db.subs, paddleId);
      var (status, plan) := Terms(settings, db.plans, e.data).value;
      var owner := if at.Some? then db.subs[at.value].user else Owner(db, e.data).value;
      var before := if at.Some? then db.subs[at.value] else NewRow(owner, paddleId, status, plan, now);
      var mirrored := Mirrored(db.plans, before, status, plan, e, at.None?);
      var place := if at.Some? then at.value else |db.subs|;
      var kind := DunningOf(settings, mirrored, if at.Some? then Some(before.status) else None, Mailable(db.users, owner), e.occurredAt).1;
      DunningMoves(settings, if at.Some? then Some(before) else None, mirrored, Mailable(db.users, owner), e.occurredAt);
      if kind.Some? {
        MailOfOne(Mail(kind.value, place, owner), i);
      }
    }
  }

  lemma {:induction false} MailOfOne(mail: Mail, i: nat)
    ensures MailAbout([mail], i) == (if mail.row == i then [mail.kind] else []) && MailAbout([], i) == []
  {
    assert [mail][..0] == [];
  }

  /** Whether the owner of row k is written to when it is due. */
  predicate WrittenTo(db: Database, due: seq<bool>, k: nat)
    requires k < |due| <= |db.subs|
  {
    due[k] && Mailable(db.users, db.subs[k].user) && db.subs[k].plan < |db.plans|
  }

  lemma {:induction false} LastLetter(db: Database, kind: MailKind, due: seq<bool>)
    requires 0 < |due| <= |db.subs|
    ensures var k := |due| - 1;
            Letters(db, kind, due)
            == Letters(db, kind, due[..k]) + (if WrittenTo(db, due, k) then [Mail(kind, k, db.subs[k].user)] else [])
  {
  }

  lemma {:induction false} MailOfRow(db: Database, kind: MailKind, due: seq<bool>, i: nat)
    requires |due| <= |db.subs|
    ensures MailAbout(Letters(db, kind, due), i) == if i < |due| && WrittenTo(db, due, i) then [kind] else []
  {
    if due != [] {
      var k := |due| - 1;
      var mail := Mail(kind, k, db.subs[k].user);
      MailOfRow(db, kind, due[..k], i);
      assert i < k ==> WrittenTo(db, due[..k], i) == WrittenTo(db, due, i);
      MailOfOne(mail, i);
      LastLetter(db, kind, due);
      MailAboutConcat(Letters(db, kind, due[..k]), if WrittenTo(db, due, k) then [mail] else [], i);
    }
  }

  lemma {:induction false} MailAboutConcat(a: seq<Mail>, b: seq<Mail>, i: nat)
    ensures MailAbout(a + b, i) == MailAbout(a, i) + MailAbout(b, i)
  {
    if b == [] {
      assert a + b == a;
    } else {
      MailAboutConcat(a, b[..|b| - 1], i);
      assert (a + b)[..|a + b| - 1] == a + b[..|b| - 1];
    }
  }

  /** One row under the job: at most one of the two statements claims it. */
  lemma {:induction false} RowDuns(settings: Settings, plans: seq<Plan>, row: Subscription, mailable: bool, now: Time)
    requires RowOk(settings, plans, row)
    ensures var reminded := if ReminderDue(settings, row, now) && mailable then [GraceEndingMail] else [];
            var downgraded := if DowngradeDue(AfterReminder(settings, row, now), now) && mailable then [DowngradedMail] else [];
            Moves(Some(row), Some(AfterDunning(settings, row, now)), reminded + downgraded, Overdue(Dun(now), Some(row)))
  {
    if ReminderDue(settings, row, now) {
      assert !DowngradeDue(AfterReminder(settings, row, now), now);
    }
  }

  /** The mail of one run of the job about one row. */
  lemma {:induction false} MailOfJob(settings: Settings, db: Database, now: Time, i: nat)
    requires Inv(settings, db) && i < |db.subs|
    ensures var row, mailable := db.subs[i], Mailable(db.users, db.subs[i].user);
            MailAbout(RunDunning(settings, db, now).1.mail, i)
            == (if ReminderDue(settings, row, now) && mailable then [GraceEndingMail] else [])
               + (if DowngradeDue(AfterReminder(settings, row, now), now) && mailable then [DowngradedMail] else [])
  {
    assert RowOk(settings, db.plans, db.subs[i]);
    var reminders, downgrades := Reminders(settings, db.subs, now), Downgrades(settings, db.subs, now);
    MailOfRow(db, GraceEndingMail, reminders, i);
    MailOfRow(db, DowngradedMail, downgrades, i);
    MailAboutConcat(Letters(db, GraceEndingMail, reminders), Letters(db, DowngradedMail, downgrades), i);
  }

  lemma {:induction false} NoMailBeyond(settings: Settings, db: Database, now: Time, i: nat)
    requires i >= |db.subs|
    ensures MailAbout(RunDunning(settings, db, now).1.mail, i) == []
  {
    var reminders, downgrades := Reminders(settings, db.subs, now), Downgrades(settings, db.subs, now);
    MailOfRow(db, GraceEndingMail, reminders, i);
    MailOfRow(db, DowngradedMail, downgrades, i);
    MailAboutConcat(Letters(db, GraceEndingMail, reminders), Letters(db, DowngradedMail, downgrades), i);
  }

  lemma {:induction false} DunMoves(settings: Settings, db: Database, now: Time, i: nat)
    requires Inv(settings, db)
    ensures var (after, mail) := Perform(settings, db, Dun(now));
            Moves(RowAt(db, i), RowAt(after, i), MailAbout(mail, i), Overdue(Dun(now), RowAt(db, i)))
  {
    if i < |db.subs| {
      assert RowOk(settings, db.plans, db.subs[i]);
      MailOfJob(settings, db, now, i);
      RowDuns(settings, db.plans, db.subs[i], Mailable(db.users, db.subs[i].user), now);
    } else {
      NoMailBeyond(settings, db, now, i);
    }
  }

  lemma {:induction false} StepMoves(settings: Settings, db: Database, step: Step, i: nat)
    requires Inv(settings, db)
    ensures var (after, mail) := Perform(settings, db, step);
            Moves(RowAt(db, i), RowAt(after, i), MailAbout(mail, i), Overdue(step, RowAt(db, i)))
  {
    match step
    case Webhook(e, now) => WebhookMoves(settings, db, e, now, i);
    case Dun(now) => DunMoves(settings, db, now, i);
    case Cancel(only, answers) =>
      if i < |db.subs| {
        assert RowOk(settings, db.plans, db.subs[i]);
      }
    case SetDeleted(user, deleted) =>
  }

  function Extended(ep: Episode, claims: seq<Notified>, mails: seq<MailKind>, overdue: bool): Episode {
    Episode(ep.claims + claims, ep.mails + mails, ep.overdue || overdue)
  }

  lemma {:induction false} StartIsOk(before: Option<Subscription>, after: Option<Subscription>, mails: seq<MailKind>)
    requires Starts(before, after, mails, false)
    ensures EpisodeOk(Episode(Claim(before, after), mails, false)) && Current(after.value, Episode(Claim(before, after), mails, false))
  {
  }

  lemma {:induction false} ClaimsGrow(claims: seq<Notified>, claim: Notified)
    requires ClaimsInOrder(claims) && forall k :: 0 <= k < |claims| ==> ClaimRank(claims[k]) < ClaimRank(claim)
    ensures ClaimsInOrder(claims + [claim])
  {
  }

  lemma {:induction false} MailsGrow(mails: seq<MailKind>, more: seq<MailKind>, kind: MailKind)
    requires MailsInOrder(mails) && Optional(more, kind)
    requires forall k :: 0 <= k < |mails| ==> MailRank(mails[k]) < MailRank(kind)
    ensures MailsInOrder(mails + more)
    ensures forall k :: 0 <= k < |mails + more| ==> MailRank((mails + more)[k]) <= MailRank(kind)
  {
  }

  lemma {:induction false} ClaimIsOk(ep: Episode, before: Option<Subscription>, after: Option<Subscription>, mails: seq<MailKind>, overdue: bool)
    requires EpisodeOk(ep) && Claims(before, after, mails, overdue) && Current(before.value, ep)
    ensures var next := Extended(ep, Claim(before, after), mails, overdue);
            EpisodeOk(next) && Current(after.value, next)
  {
    var claim := after.value.notified.value;
    var next := Extended(ep, Claim(before, after), mails, overdue);
    assert next.claims == ep.claims + [claim];
    LastClaimIsHighest(ep.claims, before.value.notified);
    ClaimsGrow(ep.claims, claim);
    MailsGrow(ep.mails, mails, if overdue then DowngradedMail else GraceEndingMail);
    forall k | k in next.claims ensures k in ep.claims || k == claim {}
    forall k | k in next.mails ensures k in ep.mails || k in mails {}
    assert claim in next.claims;
  }

  lemma {:induction false} LastClaimIsHighest(claims: seq<Notified>, notified: Option<Notified>)
    requires ClaimsInOrder(claims)
    requires if claims == [] then notified.None? else notified == Some(claims[|claims| - 1])
    ensures forall k :: 0 <= k < |claims| ==> ClaimRank(claims[k]) <= RankOf(notified)
  {
  }

  lemma {:induction false} EndIsOk(ep: Episode, before: Option<Subscription>, after: Option<Subscription>, mails: seq<MailKind>)
    requires EpisodeOk(ep) && Ends(before, after, mails, false) && Current(before.value, ep)
    ensures EpisodeOk(Extended(ep, [], mails, false))
  {
    var next := Extended(ep, [], mails, false);
    assert next.claims == ep.claims;
    forall k | k in next.mails ensures k in ep.mails || k in mails {}
  }

  lemma {:induction false} QuietIsOk(ep: Episode, before: Option<Subscription>, after: Option<Subscription>, overdue: bool)
    requires EpisodeOk(ep) && Quiet(before, after, [], overdue)
    requires overdue ==> Running(before) && Current(before.value, ep)
    ensures Extended(ep, [], [], overdue) == ep
  {
    assert ep.claims + [] == ep.claims && ep.mails + [] == ep.mails;
  }

  /** The last episode, gone on with. */
  lemma {:induction false} LastGoesOn(episodes: seq<Episode>, after: Option<Subscription>, next: Episode)
    requires episodes != [] && (forall k :: 0 <= k < |episodes| ==> EpisodeOk(episodes[k]))
    requires EpisodeOk(next) && (Running(after) ==> Current(after.value, next))
    ensures HistoryOk(after, episodes[|episodes| - 1 := next])
  {
  }

  /** What the last episode goes on as, by what the step did. */
  lemma {:induction false} MoveKeepsLast(last: Episode, before: Option<Subscription>, after: Option<Subscription>,
                                         mails: seq<MailKind>, overdue: bool)
    requires EpisodeOk(last) && (Running(before) ==> Current(before.value, last))
    requires Moves(before, after, mails, overdue) && !Starts(before, after, mails, overdue)
    requires overdue ==> Running(before)
    requires before.Some? && !Running(before) ==> before.value.notified.None?
    ensures var next := Extended(last, Claim(before, after), mails, overdue);
            EpisodeOk(next) && (Running(after) ==> Current(after.value, next))
  {
    if Claims(before, after, mails, overdue) {
      ClaimIsOk(last, before, after, mails, overdue);
    } else if Ends(before, after, mails, overdue) {
      EndIsOk(last, before, after, mails);
    } else {
      QuietIsOk(last, before, after, overdue);
    }
  }

  lemma {:induction false} MoveKeepsHistory(episodes: seq<Episode>, before: Option<Subscription>, after: Option<Subscription>,
                                            mails: seq<MailKind>, overdue: bool)
    requires HistoryOk(before, episodes)
    requires Moves(before, after, mails, overdue)
    requires overdue ==> Running(before)
    requires before.Some? && !Running(before) ==> before.value.notified.None?
    requires before.Some? ==> after.Some?
    ensures HistoryOk(after, Advance(episodes, before, after, mails, overdue))
  {
    if Starts(before, after, mails, overdue) {
      StartIsOk(before, after, mails);
    } else if episodes != [] {
      var last := episodes[|episodes| - 1];
      MoveKeepsLast(last, before, after, mails, overdue);
      LastGoesOn(episodes, after, Extended(last, Claim(before, after), mails, overdue));
    }
  }

  /** Over every run from a database without a dunning, the emails of each payment failure are a subsequence
      of payment_failed, grace_ending, downgraded, payment_recovered, each sent at most once and none but the
      last without its claim; and `downgraded` is claimed in exactly the failures that the job saw past their grace. */
  lemma {:induction false} EveryEpisodeInOrder(settings: Settings, db: Database, run: seq<Step>, i: nat)
    requires Inv(settings, db)
    requires forall j :: 0 <= j < |db.subs| ==> !Dunning(db.subs[j])
    ensures HistoryOk(RowAt(Play(settings, db, run), i), History(settings, db, run, i))
  {
    if run != [] {
      var earlier, step := run[..|run| - 1], run[|run| - 1];
      EveryEpisodeInOrder(settings, db, earlier, i);
      EveryRunKeepsInv(settings, db, earlier);
      var before := Play(settings, db, earlier);
      var (after, mail) := Perform(settings, before, step);
      StepMoves(settings, before, step, i);
      OwnersAndGraceKept(settings, before, step);
      MoveKeepsHistory(History(settings, db, earlier, i), RowAt(before, i), RowAt(after, i), MailAbout(mail, i),
                       Overdue(step, RowAt(before, i)));
    }
  }

  /** Each email of an episode is sent once at most, and a recovery closes it. */
  lemma {:induction false} OnceEach(ep: Episode, kind: MailKind)
    requires EpisodeOk(ep)
    ensures multiset(ep.mails)[kind] <= 1
    ensures PaymentRecoveredMail in ep.mails ==> ep.mails[|ep.mails| - 1] == PaymentRecoveredMail
    ensures multiset(ep.claims)[Downgraded] == if ep.overdue then 1 else 0
  {
    DistinctOnce(ep.mails, kind);
    DistinctOnce(ep.claims, Downgraded);
    if PaymentRecoveredMail in ep.mails {
      var k :| 0 <= k < |ep.mails| && ep.mails[k] == PaymentRecoveredMail;
      if k < |ep.mails| - 1 {
        assert MailRank(ep.mails[k]) < MailRank(ep.mails[|ep.mails| - 1]);
      }
    }
  }

  lemma {:induction false} DistinctOnce<T>(s: seq<T>, x: T)
    requires forall a, b :: 0 <= a < b < |s| ==> s[a] != s[b]
    ensures multiset(s)[x] == if x in s then 1 else 0
  {
    if s != [] {
      var init := s[..|s| - 1];
      assert s == init + [s[|s| - 1]];
      DistinctOnce(init, x);
    }
  }

  /** The job run at or after the end of a grace leaves the row claimed `downgraded`, whether or not a mail goes. */
  lemma {:induction false} JobClaimsDowngrade(settings: Settings, db: Database, now: Time, i: nat)
    requires Inv(settings, db)
    requires i < |db.subs| && Dunning(db.subs[i]) && db.subs[i].graceEndsAt.value <= now
    ensures RunDunning(settings, db, now).0.subs[i].notified == Some(Downgraded)
    ensures var mail := RunDunning(settings, db, now).1.mail;
            MailAbout(mail, i) == if Mailable(db.users, db.subs[i].user) && db.subs[i].notified != Some(Downgraded)
                                  then [DowngradedMail] else []
  {
    assert RowOk(settings, db.plans, db.subs[i]);
    MailOfJob(settings, db, now, i);
  }

  /** The job leaves a grace alone until the reminder's days before its end; from then to the end it has claimed
      at least the reminder, mailing it once. */
  lemma {:induction false} JobRemindsInItsDays(settings: Settings, db: Database, now: Time, i: nat)
    requires Inv(settings, db)
    requires i < |db.subs| && Dunning(db.subs[i]) && now < db.subs[i].graceEndsAt.value
    ensures var row, (after, run) := db.subs[i], RunDunning(settings, db, now);
            if row.graceEndsAt.value > now + settings.reminderDays * DAY
            then after.subs[i] == row && MailAbout(run.mail, i) == []
            else && RankOf(after.subs[i].notified) >= ClaimRank(GraceEnding)
                 && MailAbout(run.mail, i) == if Mailable(db.users, row.user) && RankOf(row.notified) < ClaimRank(GraceEnding)
                                              then [GraceEndingMail] else []
  {
    MailOfJob(settings, db, now, i);
    RowReminded(settings, db.plans, db.subs[i], now);
  }

  lemma {:induction false} RowReminded(settings: Settings, plans: seq<Plan>, row: Subscription, now: Time)
    requires RowOk(settings, plans, row) && Dunning(row) && now < row.graceEndsAt.value
    ensures !DowngradeDue(AfterReminder(settings, row, now), now)
    ensures ReminderDue(settings, row, now) <==>
              row.graceEndsAt.value <= now + settings.reminderDays * DAY && RankOf(row.notified) < ClaimRank(GraceEnding)
    ensures AfterDunning(settings, row, now) == if ReminderDue(settings, row, now) then row.(notified := Some(GraceEnding)) else row
  {
  }
}

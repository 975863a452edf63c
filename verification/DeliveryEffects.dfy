/** What each transaction of app/accounts/delivery.py leaves behind, said of the tables before and after and of the
    message, the answer or the event: which rows move, which addresses are stopped, and what is refused since. */
module DeliveryEffects {
  import opened Wrappers
  import opened Delivery
  import opened DeliveryProofs
  import EmailLists

  // ----- one mailbox -----

  predicate AllBlank(s: string) {
    forall k :: 0 <= k < |s| ==> s[k] in {' ', '\t', '\n', '\r', '\U{b}', '\U{c}', '\U{1c}', '\U{1d}', '\U{1e}', '\U{1f}'}
  }

  /** It begins and ends in something. */
  predicate Trim(s: string) {
    s != [] && !AllBlank([s[0]]) && !AllBlank([s[|s| - 1]])
  }

  lemma {:induction false} BlankIsSpace(c: char)
    ensures AllBlank([c]) <==> Blank(c)
  {
    assert AllBlank([c]) <==> [c][0] in {' ', '\t', '\n', '\r', '\U{b}', '\U{c}', '\U{1c}', '\U{1d}', '\U{1e}', '\U{1f}'};
    CodesOfBlanks(c);
  }

  lemma {:induction false} CodesOfBlanks(c: char)
    ensures c in {' ', '\t', '\n', '\r', '\U{b}', '\U{c}', '\U{1c}', '\U{1d}', '\U{1e}', '\U{1f}'} <==> Blank(c)
  {
    if Blank(c) {
      var n := c as int;
      assert n in {9, 10, 11, 12, 13, 28, 29, 30, 31, 32};
      assert c == n as char;
    }
  }

  lemma {:induction false} LeftGoes(left: string, s: string)
    requires AllBlank(left) && (s == [] || !AllBlank([s[0]]))
    ensures TrimmedLeft(left + s) == s
  {
    if left == [] {
      assert left + s == s;
      if s != [] {
        BlankIsSpace(s[0]);
      }
    } else {
      CodesOfBlanks(left[0]);
      assert (left + s)[1..] == left[1..] + s;
      LeftGoes(left[1..], s);
    }
  }

  lemma {:induction false} RightGoes(s: string, right: string)
    requires AllBlank(right) && (s == [] || !AllBlank([s[|s| - 1]]))
    ensures TrimmedRight(s + right) == s
  {
    if right == [] {
      assert s + right == s;
      if s != [] {
        BlankIsSpace(s[|s| - 1]);
      }
    } else {
      CodesOfBlanks(right[|right| - 1]);
      assert (s + right)[..|s + right| - 1] == s + right[..|right| - 1];
      RightGoes(s, right[..|right| - 1]);
    }
  }

  /** An address is known without the blanks around it, its capitals small and nothing else of it changed. */
  lemma {:induction false} KeyOfSpelling(left: string, address: string, right: string)
    requires AllBlank(left) && AllBlank(right) && Trim(address)
    ensures var key := Key(left + address + right);
            && |key| == |address|
            && forall k :: 0 <= k < |key| ==>
                 key[k] == if 'A' <= address[k] <= 'Z' then (address[k] as int + 32) as char else address[k]
  {
    assert left + address + right == left + (address + right);
    assert (address + right)[0] == address[0];
    LeftGoes(left, address + right);
    RightGoes(address, right);
  }

  // ----- the check -----

  /** A message is refused exactly for an address suppressed for everything, or for broadcasts when it is one, and else
      for a list its user is not on; and is logged as that, or as sending and then to be handed over. */
  lemma {:induction false} CheckLogs(t: Tables, m: Message)
    ensures var entry := Entry(t, Key(m.to));
            var stopped := entry.Some? && (entry.value.scope == All || m.stream == Broadcast);
            var left := m.unsubscribe.Some? && !EmailLists.IsSubscribed(t.lists, m.user, m.unsubscribe.value);
            var after := Perform(t, Opening(m));
            && after.log == t.log + [after.log[|t.log|]] && after.suppressed == t.suppressed && after.lists == t.lists
            && after.log[|t.log|] ==
               (if stopped then LogRow(m.user, m.stream, Suppressed, None, Some(Refused(AddressSuppressed(entry.value))))
                else if left then LogRow(m.user, m.stream, Suppressed, None, Some(Refused(NotOn(m.unsubscribe.value))))
                else LogRow(m.user, m.stream, Sending, None, None))
            && after.inFlight == (if stopped || left then t.inFlight else t.inFlight[|t.log| := Flight(m, false)])
  {
  }

  // ----- the provider's answer -----

  /** Another row has the provider's id. */
  predicate Taken(log: seq<LogRow>, row: nat, id: Option<string>) {
    id.Some? && exists k :: 0 <= k < |log| && k != row && log[k].providerId == id
  }

  /** Its answer is written over `sending` and nothing else, its id where there is none; an address it has stopped is
      suppressed on the stream of the message. It is not written when its id is another row's. */
  lemma {:induction false} AnswerWrites(t: Tables, row: nat, a: Answer)
    requires Awaited(t, row) && row < |t.log|
    ensures var was, m, after := t.log[row], t.inFlight[row].message, Perform(t, Answering(row, a));
            var id := if was.providerId.Some? then was.providerId else if a.Accepted? then a.id else None;
            && after.inFlight == t.inFlight - {row} && after.lists == t.lists
            && if Taken(t.log, row, id) then after.log == t.log && after.suppressed == t.suppressed
               else
                 && after.log == t.log[row := after.log[row]]
                 && after.log[row] == (if was.status != Sending then was.(providerId := id)
                                       else match a
                                            case Accepted(_) => was.(providerId := id, status := Sent, detail := None)
                                            case Inactive(said) => was.(providerId := id, status := Suppressed, detail := Some(Says(said)))
                                            case Unsent(said) => was.(providerId := id, status := Failed, detail := Some(Says(said))))
                 && (forall key :: Entry(after, key) ==
                       if a.Inactive? && key == Key(m.to) then Wider(Entry(t, key), if m.stream == Broadcast then BroadcastOnly else All, Provider)
                       else Entry(t, key))
  {
    var was := t.log[row];
    var id := if was.providerId.Some? then was.providerId else if a.Accepted? then a.id else None;
    assert Taken(t.log, row, id) <==> !IdIsFree(t.log, row, id);
  }

  /** An entry asked to stop a scope: new, or widened to everything with the reason that asks for it. */
  function Wider(entry: Option<Suppression>, scope: Scope, reason: Reason): Option<Suppression> {
    match entry
    case None => Some(Suppression(scope, reason))
    case Some(was) => if was.scope == BroadcastOnly && scope == All then Some(Suppression(All, reason)) else Some(was)
  }

  // ----- a webhook and the log -----

  /** The row an event is about: the one its metadata names, when there is one, else the one with its provider's id. */
  predicate IsOf(log: seq<LogRow>, e: Event, row: nat) {
    && row < |log|
    && if e.reference.Some? && e.reference.value < |log| then e.reference == Some(row)
       else e.messageId.Some? && log[row].providerId == e.messageId
  }

  lemma {:induction false} FoundIff(log: seq<LogRow>, e: Event, row: nat)
    requires UniqueIds(log)
    ensures Find(log, e) == Some(row) <==> IsOf(log, e, row)
  {
    if IsOf(log, e, row) && !(e.reference.Some? && e.reference.value < |log|) {
      var found := ByProvider(log, e.messageId.value);
      assert found.Some?;
      assert log[found.value].providerId == log[row].providerId;
    }
  }

  /** How far an event takes a message that stands at a status. */
  function Onto(kind: EventKind, was: Status): Status {
    match kind
    case DeliveryEvent => if was in {Sending, Failed, Sent, SoftBounced} then Delivered else was
    case SoftBounceEvent => if was in {Sending, Failed, Sent} then SoftBounced else was
    case HardBounceEvent => if was in {Sending, Failed, Sent, SoftBounced, Delivered} then Bounced else was
    case ComplaintEvent => if was in {Sending, Failed, Sent, SoftBounced, Delivered, Bounced} then Complained else was
    case SuppressedEvent => was
    case ReactivatedEvent => was
    case IgnoredEvent => was
  }

  /** A webhook is refused whole exactly when a suppression gives no reason, or the row it moves would take an id
      another row has. */
  lemma {:induction false} WebhookRefusedIff(t: Tables, e: Event, row: nat)
    requires UniqueIds(t.log)
    ensures !EventCommits(t, e) ==> Perform(t, Webhook(e)) == t
    ensures IsOf(t.log, e, row) ==>
              (!EventCommits(t, e)
               <==> (e.kind == SuppressedEvent && e.recipient.Some? && e.reason.None?)
                    || (Onto(e.kind, t.log[row].status) != t.log[row].status && t.log[row].providerId.None? && Taken(t.log, row, e.messageId)))
    ensures (forall k :: !IsOf(t.log, e, k)) ==>
              (!EventCommits(t, e) <==> e.kind == SuppressedEvent && e.recipient.Some? && e.reason.None?)
  {
    FoundIff(t.log, e, row);
    var found := Find(t.log, e);
    if found.Some? {
      FoundIff(t.log, e, found.value);
    }
    if IsOf(t.log, e, row) {
      OntoIsUp(e.kind, t.log[row].status);
      var was := t.log[row];
      assert Taken(t.log, row, e.messageId) <==> !IdIsFree(t.log, row, e.messageId);
    }
  }

  lemma {:induction false} OntoIsUp(kind: EventKind, was: Status)
    ensures Onto(kind, was) == if Target(kind).Some? && Rank(was) < Rank(Target(kind).value) then Target(kind).value else was
    ensures Onto(kind, was) != was <==> Target(kind).Some? && Rank(was) < Rank(Target(kind).value)
  {
  }

  /** One that is not moves the row it is about as far as it takes it, with its detail, and its provider's id when the
      row had none; and no other row. */
  lemma {:induction false} WebhookMovesRow(t: Tables, e: Event, row: nat)
    requires UniqueIds(t.log) && EventCommits(t, e)
    ensures var after := Perform(t, Webhook(e)).log;
            && |after| == |t.log|
            && (forall k :: 0 <= k < |after| && !IsOf(t.log, e, k) ==> after[k] == t.log[k])
            && (IsOf(t.log, e, row) ==>
                  var was := t.log[row];
                  after[row] == (if Onto(e.kind, was.status) == was.status then was
                                 else LogRow(was.user, was.stream, Onto(e.kind, was.status),
                                             if was.providerId.Some? then was.providerId else e.messageId,
                                             if e.detail.Some? then Some(Says(e.detail.value)) else None)))
  {
    FoundIff(t.log, e, row);
    var found := Find(t.log, e);
    if found.Some? {
      FoundIff(t.log, e, found.value);
    }
    if IsOf(t.log, e, row) {
      OntoIsUp(e.kind, t.log[row].status);
    }
  }

  // ----- a webhook and the addresses -----

  /** A webhook that commits changes no address but its recipient's. A hard bounce stops everything to it. A complaint, or
      the provider's own stop for any reason but a hard bounce, stops everything when it is about the account's own
      mail or a stream nobody knows, and broadcasts when it is about one. A reactivation of a broadcast stream lifts a
      stop of broadcasts, and any other lifts whatever there is. No other event changes any. */
  lemma {:induction false} WebhookStops(t: Tables, e: Event, key: string)
    requires EventCommits(t, e)
    ensures var was, entry := Entry(t, key), Entry(Perform(t, Webhook(e)), key);
            var about := if e.stream == Some(Broadcast) then BroadcastOnly else All;
            if e.recipient.None? || key != Key(e.recipient.value) then entry == was
            else
              match e.kind
              case HardBounceEvent => entry == Wider(was, All, HardBounce)
              case ComplaintEvent => entry == Wider(was, about, Complaint)
              case SuppressedEvent => e.reason.Some? && entry == Wider(was, if e.reason == Some(HardBounce) then All else about, e.reason.value)
              case ReactivatedEvent => entry == (if was.Some? && about == BroadcastOnly && was.value.scope == All then was else None)
              case DeliveryEvent => entry == was
              case SoftBounceEvent => entry == was
              case IgnoredEvent => entry == was
  {
  }

  /** The event stops the stream to its recipient. */
  predicate StopsStream(e: Event, stream: Stream) {
    match e.kind
    case HardBounceEvent => true
    case ComplaintEvent => e.stream != Some(Broadcast) || stream == Broadcast
    case SuppressedEvent => e.reason == Some(HardBounce) || e.stream != Some(Broadcast) || stream == Broadcast
    case _ => false
  }

  /** Once it has committed, a message is refused exactly when it was before, or the event stops its stream to its
      address; a reactivation apart. */
  lemma {:induction false} RefusedSince(t: Tables, e: Event, m: Message)
    requires EventCommits(t, e) && e.kind != ReactivatedEvent
    ensures RefusalOf(Perform(t, Webhook(e)), m).Some?
            <==> RefusalOf(t, m).Some?
                 || (e.recipient.Some? && Key(m.to) == Key(e.recipient.value) && StopsStream(e, m.stream))
  {
    WebhookStops(t, e, Key(m.to));
  }

  /** And from then on, over every run that does not lift it, nothing the event stops is handed to the provider but what
      had been checked before it. */
  lemma {:induction false} StoppedByWebhook(t: Tables, e: Event, run: seq<Step>, stream: Stream)
    requires EventCommits(t, e) && e.recipient.Some? && StopsStream(e, stream)
    requires forall k :: 0 <= k < |run| ==> Lifts(run[k], Key(e.recipient.value)).None?
    ensures var since := Perform(t, Webhook(e));
            CheckedBefore(since, Play(since, run), Handed(since, run), ToAddress(Key(e.recipient.value), stream))
  {
    WebhookStops(t, e, Key(e.recipient.value));
    var since := Perform(t, Webhook(e));
    forall k | 0 <= k < |run| ensures !Frees(Play(since, run[..k]), run[k], Key(e.recipient.value)) {
      assert Lifts(run[k], Key(e.recipient.value)).None?;
    }
    SuppressedIsNotSent(since, run, Key(e.recipient.value), stream);
  }

  /** An operator's lift of broadcasts lifts a stop of broadcasts, and of everything whatever there is, at the address
      and at no other. */
  lemma {:induction false} LiftLifts(t: Tables, address: string, scope: Scope, key: string)
    ensures var was, after := Entry(t, key), Perform(t, Lifting(address, scope));
            && after.log == t.log && after.inFlight == t.inFlight && after.lists == t.lists
            && Entry(after, key) == (if key != Key(address) || (was.Some? && scope == BroadcastOnly && was.value.scope == All) then was else None)
  {
  }

  /** What a webhook answers is what it changed: the row it is about and its status if that is new, what it stopped, and
      whether it lifted anything. */
  lemma {:induction false} ReportIsTrue(t: Tables, e: Event, row: nat)
    requires UniqueIds(t.log) && EventCommits(t, e)
    ensures var report, after := ReportOf(t, e), Perform(t, Webhook(e));
            && (report.row == Some(row) <==> IsOf(t.log, e, row))
            && (IsOf(t.log, e, row) ==>
                  report.status == (if after.log[row].status == t.log[row].status then None else Some(after.log[row].status)))
            && (report.suppression.Some? <==> e.recipient.Some? && StopsStream(e, Broadcast))
            && (report.suppression == Some(All) <==> e.recipient.Some? && StopsStream(e, Transactional))
            && (report.lifted <==>
                  e.kind == ReactivatedEvent && e.recipient.Some? && Entry(after, Key(e.recipient.value)) != Entry(t, Key(e.recipient.value)))
  {
    FoundIff(t.log, e, row);
    WebhookMovesRow(t, e, row);
    if IsOf(t.log, e, row) {
      OntoIsUp(e.kind, t.log[row].status);
    }
  }
}

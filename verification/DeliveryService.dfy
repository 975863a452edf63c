/** The email tables and the transactions that write them, statement by statement. */
module DeliveryService {
  import opened Wrappers
  import opened Delivery
  import EmailLists

  class Post {
    const lists: EmailLists.Store
    var log: seq<LogRow>
    var suppressed: map<string, Suppression>
    var inFlight: map<nat, Flight>

    ghost function State(): Tables
      reads this, lists
    {
      Tables(log, suppressed, lists.State(), inFlight)
    }

    constructor (lists: EmailLists.Store)
      ensures this.lists == lists
      ensures State() == Tables([], map[], lists.State(), map[])
    {
      this.lists, log, suppressed, inFlight := lists, [], map[], map[];
    }

    /** An upsert that only widens: a broader scope brings its reason with it. */
    method SuppressAddress(address: string, scope: Scope, reason: Reason)
      modifies this`suppressed
      ensures suppressed == Suppress(old(suppressed), Key(address), scope, reason)
    {
      var key := Key(address);
      if key !in suppressed {
        suppressed := suppressed[key := Suppression(scope, reason)];
      } else {
        var widens := scope == All && suppressed[key].scope != All;
        var row := suppressed[key];
        row := row.(scope := if widens then scope else row.scope);
        row := row.(reason := if widens then reason else row.reason);
        suppressed := suppressed[key := row];
        assert !widens ==> suppressed == old(suppressed);
      }
    }

    method LiftAddress(address: string, scope: Scope) returns (lifted: bool)
      modifies this`suppressed
      ensures suppressed == Lift(old(suppressed), Key(address), scope)
      ensures lifted <==> suppressed != old(suppressed)
    {
      var key := Key(address);
      lifted := key in suppressed;
      if scope == BroadcastOnly {
        lifted := lifted && suppressed[key].scope == BroadcastOnly;
      }
      if lifted {
        suppressed := suppressed - {key};
      }
    }

    /** The courier's first transaction: check, then log the message as sending or refused. */
    method OpenSend(m: Message) returns (row: nat, goes: bool)
      modifies this
      ensures State() == Open(old(State()), m)
      ensures row == old(|log|)
      ensures goes <==> RefusalOf(old(State()), m).None?
    {
      var refusal: Option<Refusal> := None;
      var key := Key(m.to);
      if key in suppressed && (suppressed[key].scope == All || m.stream == Broadcast) {
        refusal := Some(AddressSuppressed(suppressed[key]));
      } else if m.unsubscribe.Some? {
        var on := lists.Subscribed(m.user, m.unsubscribe.value);
        if !on {
          refusal := Some(NotOn(m.unsubscribe.value));
        }
      }
      row, goes := |log|, refusal.None?;
      log := log + [LogRow(m.user, m.stream, if refusal.Some? then Suppressed else Sending, None,
                           if refusal.Some? then Some(Refused(refusal.value)) else None)];
      if goes {
        inFlight := inFlight[row := Flight(m, false)];
      }
    }

    /** Hand the message over, as it was checked: the tables are not read again. */
    method HandToProvider(row: nat) returns (m: Message)
      requires Waits(State(), row)
      modifies this`inFlight
      ensures State() == HandOver(old(State()), row)
      ensures m == old(inFlight)[row].message
    {
      m := inFlight[row].message;
      inFlight := inFlight[row := Flight(m, true)];
    }

    /** The courier's second transaction: write the provider's answer, over `sending` and nothing else. */
    method CloseSend(row: nat, a: Answer) returns (committed: bool)
      requires Awaited(State(), row)
      modifies this
      ensures State() == Close(old(State()), row, a)
      ensures committed == CloseCommits(old(State()), row, a)
    {
      var m := inFlight[row].message;
      inFlight := inFlight - {row};
      if row >= |log| {
        return false;
      }
      var was := log[row];
      var id := Coalesce(was.providerId, AnswerId(a));
      if !IdIsFree(log, row, id) {
        return false;
      }
      if AnswerStatus(a) == Suppressed {
        SuppressAddress(m.to, StreamScope(Some(m.stream)), Provider);
      }
      var now := was.(providerId := id);
      if was.status == Sending {
        now := now.(status := AnswerStatus(a), detail := AnswerDetail(a));
      }
      log := log[row := now];
      return true;
    }

    /** One send, the provider answering in between: how far the message got, or None when its answer could
        not be written. */
    method Send(m: Message, a: Answer) returns (status: Option<Status>)
      modifies this
      ensures var first := Open(old(State()), m);
              if RefusalOf(old(State()), m).Some? then status == Some(Suppressed) && State() == first
              else var handed := HandOver(first, old(|log|));
                   status == (if CloseCommits(handed, old(|log|), a) then Some(AnswerStatus(a)) else None)
                   && State() == Close(handed, old(|log|), a)
    {
      var row, goes := OpenSend(m);
      if !goes {
        return Some(Suppressed);
      }
      var handed := HandToProvider(row);
      var committed := CloseSend(row, a);
      return if committed then Some(AnswerStatus(a)) else None;
    }

    /** Apply one webhook: move the row it names up, then suppress or lift its recipient. */
    method RecordEvent(e: Event) returns (reply: Result<Recorded, ()>)
      modifies this
      ensures State() == Record(old(State()), e)
      ensures reply == if EventCommits(old(State()), e) then Success(ReportOf(old(State()), e)) else Failure(())
    {
      ghost var before := State();
      if e.kind == SuppressedEvent && e.recipient.Some? && e.reason.None? {
        return Failure(());
      }
      var row := Find(log, e);
      var target := Target(e.kind);
      var status: Option<Status> := None;
      if row.Some? && target.Some? {
        var was := log[row.value];
        if Rank(was.status) < Rank(target.value) {
          var id := Coalesce(was.providerId, e.messageId);
          if !IdIsFree(log, row.value, id) {
            return Failure(());
          }
          log := log[row.value := was.(status := target.value, detail := DetailOf(e), providerId := id)];
          status := target;
        }
      }
      var scope: Option<Scope> := None;
      var lifted := false;
      if e.recipient.Some? {
        match e.kind {
          case HardBounceEvent =>
            scope := Some(All);
            SuppressAddress(e.recipient.value, All, HardBounce);
          case ComplaintEvent =>
            scope := Some(StreamScope(e.stream));
            SuppressAddress(e.recipient.value, StreamScope(e.stream), Complaint);
          case SuppressedEvent =>
            scope := Some(if e.reason == Some(HardBounce) then All else StreamScope(e.stream));
            SuppressAddress(e.recipient.value, scope.value, e.reason.value);
          case ReactivatedEvent =>
            lifted := LiftAddress(e.recipient.value, StreamScope(e.stream));
          case _ =>
        }
      }
      return Success(Recorded(row, status, scope, lifted));
    }
  }
}

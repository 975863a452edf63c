/** Every interleaving of checks, hand-overs, provider answers, webhooks, lifts, departures and changes of rules:
    what it does to one message's row, to one address's suppression, and to who is ever emailed. */
module DeliveryProofs {
  import opened Wrappers
  import opened Delivery
  import EmailLists

  datatype Step =
    | Opening(m: Message)
    | HandingOver(row: nat)
    | Answering(row: nat, a: Answer)
    | Webhook(e: Event)
    | Lifting(address: string, scope: Scope)
    | Leaving(user: nat, list: EmailLists.MailingList)
    | Changing(lists: EmailLists.Lists)

  function Perform(t: Tables, step: Step): Tables {
    match step
    case Opening(m) => Open(t, m)
    case HandingOver(row) => if Waits(t, row) then HandOver(t, row) else t
    case Answering(row, a) => if Awaited(t, row) then Close(t, row, a) else t
    case Webhook(e) => Record(t, e)
    case Lifting(address, scope) => t.(suppressed := Lift(t.suppressed, Key(address), scope))
    case Leaving(user, list) =>
      var after := EmailLists.Left(t.lists, user, list);
      if after.Success? then t.(lists := after.value) else t
    case Changing(lists) => t.(lists := lists)
  }

  function Play(t: Tables, run: seq<Step>): Tables {
    if run == [] then t else Perform(Play(t, run[..|run| - 1]), run[|run| - 1])
  }

  // ----- one row -----

  /** What a row may become: further along, under the same provider id once it has one, for the same account. */
  predicate Onward(before: LogRow, after: LogRow) {
    && Rank(before.status) <= Rank(after.status)
    && (before.providerId.Some? ==> after.providerId == before.providerId)
    && after.user == before.user && after.stream == before.stream
    && (before.status != Sending ==> after.status != Sending)
  }

  predicate UniqueIds(log: seq<LogRow>) {
    forall i, j :: 0 <= i < j < |log| && log[i].providerId.Some? ==> log[i].providerId != log[j].providerId
  }

  lemma {:induction false} StepIsOnward(t: Tables, step: Step)
    requires UniqueIds(t.log)
    ensures |t.log| <= |Perform(t, step).log| && UniqueIds(Perform(t, step).log)
    ensures forall i :: 0 <= i < |t.log| ==> Onward(t.log[i], Perform(t, step).log[i])
  {
  }

  /** In every interleaving a message never falls in rank, its provider's id is written once and never
      changes, and no two messages share one. */
  lemma {:induction false} EveryRunIsOnward(t: Tables, run: seq<Step>)
    requires UniqueIds(t.log)
    ensures |t.log| <= |Play(t, run).log| && UniqueIds(Play(t, run).log)
    ensures forall i :: 0 <= i < |t.log| ==> Onward(t.log[i], Play(t, run).log[i])
  {
    if run != [] {
      EveryRunIsOnward(t, run[..|run| - 1]);
      StepIsOnward(Play(t, run[..|run| - 1]), run[|run| - 1]);
    }
  }

  /** What happens to a row: the courier hears the provider's answer, or a webhook tells of a status. */
  datatype Happening = Heard(status: Status, detail: Option<Detail>) | Told(status: Status, detail: Option<Detail>)

  function HappeningTo(t: Tables, step: Step, id: nat): seq<Happening> {
    if step.Answering? && step.row == id && Awaited(t, id) && CloseCommits(t, id, step.a) then
      [Heard(AnswerStatus(step.a), AnswerDetail(step.a))]
    else if step.Webhook? && EventCommits(t, step.e) && Find(t.log, step.e) == Some(id) && Target(step.e.kind).Some? then
      [Told(Target(step.e.kind).value, DetailOf(step.e))]
    else []
  }

  function History(t: Tables, run: seq<Step>, id: nat): seq<Happening> {
    if run == [] then []
    else History(t, run[..|run| - 1], id) + HappeningTo(Play(t, run[..|run| - 1]), run[|run| - 1], id)
  }

  predicate IsWebhookStatus(s: Status) {
    s in {SoftBounced, Delivered, Bounced, Complained}
  }

  predicate IsAnswerStatus(s: Status) {
    s in {Sent, Suppressed, Failed}
  }

  predicate HasTold(h: seq<Happening>) {
    exists k :: 0 <= k < |h| && h[k].Told?
  }

  predicate HasHeard(h: seq<Happening>) {
    exists k :: 0 <= k < |h| && h[k].Heard?
  }

  /** A row hears its answer once. */
  predicate Proper(h: seq<Happening>) {
    && (forall k :: 0 <= k < |h| ==> if h[k].Told? then IsWebhookStatus(h[k].status) else IsAnswerStatus(h[k].status))
    && (forall j, k :: 0 <= j < k < |h| && h[j].Heard? ==> h[k].Told?)
  }

  /** The first to arrive of the highest-ranked webhooks. */
  function Highest(h: seq<Happening>): Option<Happening> {
    if h == [] then None
    else
      var before, x := Highest(h[..|h| - 1]), h[|h| - 1];
      if x.Told? && (before.None? || Rank(before.value.status) < Rank(x.status)) then Some(x) else before
  }

  /** The provider said first that it has stopped the address: before any webhook told of the message. */
  predicate StoppedFirst(h: seq<Happening>) {
    h != [] && h[0].Heard? && h[0].status == Suppressed
  }

  /** Where a history leaves a message, whatever order it came in. */
  function Verdict(h: seq<Happening>): (Status, Option<Detail>)
    requires Proper(h)
  {
    if StoppedFirst(h) then (Suppressed, h[0].detail)
    else if Highest(h).Some? then (Highest(h).value.status, Highest(h).value.detail)
    else if h != [] then (h[0].status, h[0].detail)
    else (Sending, None)
  }

  lemma {:induction false} HighestIsHighest(h: seq<Happening>)
    requires Proper(h)
    ensures Highest(h).Some? <==> HasTold(h)
    ensures Highest(h).Some? ==> Highest(h).value in h && Highest(h).value.Told? && IsWebhookStatus(Highest(h).value.status)
    ensures forall x :: x in h && x.Told? ==> Rank(x.status) <= Rank(Highest(h).value.status)
  {
    if h != [] {
      HighestIsHighest(h[..|h| - 1]);
    }
  }

  lemma {:induction false} UntoldIsOne(h: seq<Happening>)
    requires Proper(h) && !HasTold(h) && h != []
    ensures |h| == 1 && h[0].Heard?
  {
    var k := if |h| > 1 then 1 else 0;
    assert h[0].Heard? && h[k].Heard?;
  }

  /** One more happening moves the row from the verdict on the history to the verdict on the longer one. */
  lemma {:induction false} VerdictFollows(h: seq<Happening>, x: Happening)
    requires Proper(h) && Proper(h + [x])
    ensures var (status, detail) := Verdict(h);
            Verdict(h + [x]) ==
              if x.Heard? then (if status == Sending then (x.status, x.detail) else (status, detail))
              else if Rank(status) < Rank(x.status) then (x.status, x.detail) else (status, detail)
  {
    var longer := h + [x];
    assert longer[..|longer| - 1] == h;
    HighestIsHighest(h);
    if h != [] {
      assert longer[0] == h[0];
      if Highest(h).None? {
        UntoldIsOne(h);
      }
    }
  }

  predicate At(t: Tables, id: nat, status: Status, detail: Option<Detail>) {
    id < |t.log| && t.log[id].status == status && t.log[id].detail == detail
  }

  lemma {:induction false} StepFollows(t: Tables, step: Step, id: nat)
    requires id < |t.log|
    ensures id < |Perform(t, step).log|
    ensures var h := HappeningTo(t, step, id);
            var row, after := t.log[id], Perform(t, step).log[id];
            && |h| <= 1
            && (h == [] ==> after.status == row.status && after.detail == row.detail)
            && (h != [] && h[0].Heard? ==>
                  IsAnswerStatus(h[0].status) && id in t.inFlight
                  && (after.status, after.detail) == if row.status == Sending then (h[0].status, h[0].detail) else (row.status, row.detail))
            && (h != [] && h[0].Told? ==>
                  IsWebhookStatus(h[0].status)
                  && (after.status, after.detail) == if Rank(row.status) < Rank(h[0].status) then (h[0].status, h[0].detail) else (row.status, row.detail))
    ensures id in Perform(t, step).inFlight ==> id in t.inFlight
    ensures HappeningTo(t, step, id) != [] && HappeningTo(t, step, id)[0].Heard? ==> id !in Perform(t, step).inFlight
  {
  }

  lemma {:induction false} ProperGrows(h: seq<Happening>, x: Happening)
    requires Proper(h) && (if x.Told? then IsWebhookStatus(x.status) else IsAnswerStatus(x.status))
    requires x.Heard? ==> !HasHeard(h)
    ensures Proper(h + [x]) && (HasHeard(h + [x]) <==> HasHeard(h) || x.Heard?)
  {
    var longer := h + [x];
    assert longer[|h|] == x;
    assert forall k :: 0 <= k < |h| ==> longer[k] == h[k];
  }

  /** The row of a message that has passed the check is always where its history's verdict says. */
  lemma {:induction false} RowIsItsVerdict(t: Tables, run: seq<Step>, id: nat)
    requires At(t, id, Sending, None)
    ensures var h := History(t, run, id);
            && Proper(h)
            && At(Play(t, run), id, Verdict(h).0, Verdict(h).1)
            && (HasHeard(h) ==> id !in Play(t, run).inFlight)
  {
    if run != [] {
      var earlier, step := run[..|run| - 1], run[|run| - 1];
      RowIsItsVerdict(t, earlier, id);
      var before := Play(t, earlier);
      StepFollows(before, step, id);
      var h, more := History(t, earlier, id), HappeningTo(before, step, id);
      if more == [] {
        assert h + more == h;
      } else {
        assert more == [more[0]];
        ProperGrows(h, more[0]);
        VerdictFollows(h, more[0]);
      }
    }
  }

  /** Once all are in: the highest-ranked webhook is what the row says, unless the provider had said before any
      of them that it stopped the address; with no webhook, the courier's own answer; with neither, sending. */
  lemma {:induction false} HighestWebhookWins(t: Tables, run: seq<Step>, id: nat)
    requires At(t, id, Sending, None)
    ensures var h := History(t, run, id);
            var now := Play(t, run).log;
            && id < |now|
            && (HasTold(h) && !StoppedFirst(h) ==>
                  && Told(now[id].status, now[id].detail) in h
                  && forall x :: x in h && x.Told? ==> Rank(x.status) <= Rank(now[id].status))
            && (StoppedFirst(h) ==> now[id].status == Suppressed)
            && (!HasTold(h) && HasHeard(h) ==> h == [Heard(now[id].status, now[id].detail)])
            && (h == [] ==> now[id].status == Sending)
  {
    var h := History(t, run, id);
    RowIsItsVerdict(t, run, id);
    HighestIsHighest(h);
    if HasTold(h) && !StoppedFirst(h) {
      var top := Highest(h).value;
      assert top == Told(top.status, top.detail);
    }
    if !HasTold(h) && h != [] {
      UntoldIsOne(h);
    }
  }

  predicate Stopped(h: seq<Happening>) {
    exists k :: 0 <= k < |h| && h[k].Heard? && h[k].status == Suppressed
  }

  /** The same happenings in any two orders leave the same status, so long as none is the provider's stop. */
  lemma {:induction false} OrderDoesNotMatter(g: seq<Happening>, h: seq<Happening>)
    requires Proper(g) && Proper(h) && multiset(g) == multiset(h) && !Stopped(g)
    ensures Verdict(g).0 == Verdict(h).0
  {
    HighestIsHighest(g);
    HighestIsHighest(h);
    SameMembers(g, h);
    if HasTold(g) {
      RanksAreDistinct(Highest(g).value.status, Highest(h).value.status);
    } else if g != [] {
      UntoldIsOne(g);
      UntoldIsOne(h);
      assert h[0] in g;
    }
  }

  lemma {:induction false} SameMembers(g: seq<Happening>, h: seq<Happening>)
    requires multiset(g) == multiset(h)
    ensures forall x :: x in g <==> x in h
    ensures HasTold(g) <==> HasTold(h)
    ensures Stopped(h) ==> Stopped(g)
    ensures |g| == |h|
  {
    forall x ensures x in g <==> x in h {
      assert x in multiset(g) <==> x in multiset(h);
    }
    if HasTold(g) {
      var k :| 0 <= k < |g| && g[k].Told?;
      assert g[k] in h;
    }
    if HasTold(h) {
      var k :| 0 <= k < |h| && h[k].Told?;
      assert h[k] in g;
    }
    if Stopped(h) {
      var k :| 0 <= k < |h| && h[k].Heard? && h[k].status == Suppressed;
      assert h[k] in g;
    }
    assert |multiset(g)| == |multiset(h)|;
  }

  lemma {:induction false} RanksAreDistinct(a: Status, b: Status)
    requires IsWebhookStatus(a) && IsWebhookStatus(b) && Rank(a) == Rank(b)
    ensures a == b
  {
  }

  lemma {:induction false} ProperIsTold(h: seq<Happening>, stop: nat, k: nat)
    requires Proper(h) && stop < |h| && h[stop].Heard? && k < |h| && k != stop
    ensures h[k].Told?
  {
  }

  /** The stop taken out of a history, and put first or last. */
  function Rest(h: seq<Happening>, stop: nat): seq<Happening>
    requires stop < |h|
  {
    h[..stop] + h[stop + 1..]
  }

  lemma {:induction false} StopMoved(h: seq<Happening>, stop: nat)
    requires Proper(h) && stop < |h| && h[stop].Heard?
    ensures var rest, x := Rest(h, stop), h[stop];
            && Proper([x] + rest) && Proper(rest + [x])
            && multiset([x] + rest) == multiset(h) && multiset(rest + [x]) == multiset(h)
            && (forall k :: 0 <= k < |rest| ==> rest[k].Told?)
  {
    var rest, x := Rest(h, stop), h[stop];
    forall k | 0 <= k < |rest| ensures rest[k].Told? && IsWebhookStatus(rest[k].status) {
      var at := if k < stop then k else k + 1;
      assert rest[k] == h[at];
      ProperIsTold(h, stop, at);
    }
    assert h == h[..stop] + [x] + h[stop + 1..];
  }

  /** With a stop and a webhook both, the stop first and the stop last leave different statuses. */
  lemma {:induction false} StopFirstOrLast(h: seq<Happening>, stop: nat)
    requires Proper(h) && stop < |h| && h[stop].Heard? && h[stop].status == Suppressed && |h| > 1
    ensures var first, last := [h[stop]] + Rest(h, stop), Rest(h, stop) + [h[stop]];
            && Proper(first) && Proper(last) && multiset(first) == multiset(h) && multiset(last) == multiset(h)
            && Verdict(first).0 == Suppressed && Verdict(last).0 != Suppressed
  {
    StopMoved(h, stop);
    var rest := Rest(h, stop);
    var last := rest + [h[stop]];
    assert last[0] == rest[0] && last[0].Told?;
    HighestIsHighest(last);
  }

  /** Two orders of one history end differently. */
  ghost predicate Disagree(h: seq<Happening>, a: seq<Happening>, b: seq<Happening>) {
    && multiset(a) == multiset(h) && multiset(b) == multiset(h)
    && Proper(a) && Proper(b) && Verdict(a).0 != Verdict(b).0
  }

  /** Order matters to a history if and only if the provider's stop is in it and a webhook is too. */
  lemma {:induction false} OrderMattersIff(h: seq<Happening>)
    requires Proper(h)
    ensures (exists a, b :: Disagree(h, a, b)) <==> Stopped(h) && HasTold(h)
  {
    if Stopped(h) && HasTold(h) {
      var stop :| 0 <= stop < |h| && h[stop].Heard? && h[stop].status == Suppressed;
      StopFirstOrLast(h, stop);
      assert Disagree(h, [h[stop]] + Rest(h, stop), Rest(h, stop) + [h[stop]]);
    }
    forall a, b | Disagree(h, a, b) ensures Stopped(h) && HasTold(h) {
      SameMembers(a, h);
      SameMembers(h, a);
      if !Stopped(h) {
        OrderDoesNotMatter(a, b);
      } else if !HasTold(h) {
        OnlyOrder(h, a);
        SameMembers(h, b);
        OnlyOrder(h, b);
      }
    }
  }

  lemma {:induction false} OnlyOrder(h: seq<Happening>, a: seq<Happening>)
    requires Proper(h) && Proper(a) && multiset(a) == multiset(h) && !HasTold(h)
    ensures a == h
  {
    SameMembers(a, h);
    if h != [] {
      UntoldIsOne(h);
      assert a[0] in h;
    }
  }

  lemma {:induction false} StopThenTold(t: Tables, id: nat, said: string, e: Event)
    requires At(t, id, Sending, None) && Awaited(t, id) && t.log[id].providerId.None?
    requires e.reference == Some(id) && e.messageId.None? && Target(e.kind).Some?
    ensures At(Play(t, [Answering(id, Inactive(said)), Webhook(e)]), id, Suppressed, Some(Says(said)))
  {
    PlayTwo(t, Answering(id, Inactive(said)), Webhook(e));
    var middle := Perform(t, Answering(id, Inactive(said)));
    assert At(middle, id, Suppressed, Some(Says(said)));
    assert Find(middle.log, e) == Some(id);
  }

  lemma {:induction false} ToldMoves(t: Tables, id: nat, e: Event)
    requires At(t, id, Sending, None) && t.log[id].providerId.None?
    requires e.reference == Some(id) && e.messageId.None? && Target(e.kind).Some?
    ensures var after := Perform(t, Webhook(e));
            At(after, id, Target(e.kind).value, DetailOf(e)) && after.inFlight == t.inFlight
  {
    assert Find(t.log, e) == Some(id);
  }

  lemma {:induction false} AnswerStaysUnder(t: Tables, id: nat, a: Answer, status: Status, detail: Option<Detail>)
    requires At(t, id, status, detail) && status != Sending
    ensures At(Perform(t, Answering(id, a)), id, status, detail)
  {
  }

  lemma {:induction false} ToldThenStop(t: Tables, id: nat, said: string, e: Event)
    requires At(t, id, Sending, None) && Awaited(t, id) && t.log[id].providerId.None?
    requires e.reference == Some(id) && e.messageId.None? && Target(e.kind).Some?
    ensures At(Play(t, [Webhook(e), Answering(id, Inactive(said))]), id, Target(e.kind).value, DetailOf(e))
  {
    PlayTwo(t, Webhook(e), Answering(id, Inactive(said)));
    ToldMoves(t, id, e);
    AnswerStaysUnder(Perform(t, Webhook(e)), id, Inactive(said), Target(e.kind).value, DetailOf(e));
  }

  /** The two orders as they run, for any message handed over: the answer written before the webhook arrives
      leaves the stop, and after it the webhook's status. */
  lemma {:induction false} StopRunsDependOnOrder(t: Tables, id: nat, said: string, e: Event)
    requires At(t, id, Sending, None) && Awaited(t, id) && t.log[id].providerId.None?
    requires e.reference == Some(id) && e.messageId.None? && Target(e.kind).Some?
    ensures var stop, told := Answering(id, Inactive(said)), Webhook(e);
            && At(Play(t, [stop, told]), id, Suppressed, Some(Says(said)))
            && At(Play(t, [told, stop]), id, Target(e.kind).value, DetailOf(e))
            && Target(e.kind).value != Suppressed
  {
    StopThenTold(t, id, said, e);
    ToldThenStop(t, id, said, e);
  }

  lemma {:induction false} PlayTwo(t: Tables, a: Step, b: Step)
    ensures Play(t, [a, b]) == Perform(Perform(t, a), b)
  {
    assert [a, b][..1] == [a] && [a][..0] == [];
    assert Play(t, [a]) == Perform(Play(t, []), a);
  }

  // ----- one address -----

  /** What a step asks to be suppressed for the address. */
  function Asks(t: Tables, step: Step, key: string): seq<(Scope, Reason)> {
    if step.Answering? && Awaited(t, step.row) && CloseCommits(t, step.row, step.a) && step.a.Inactive? && Key(t.inFlight[step.row].message.to) == key then
      [(StreamScope(Some(t.inFlight[step.row].message.stream)), Provider)]
    else if step.Webhook? && EventCommits(t, step.e) && Suppresses(step.e).Some? && Key(step.e.recipient.value) == key then
      [Suppresses(step.e).value]
    else []
  }

  /** The scope a step would lift for the address: a reactivation's, or an operator's. */
  function Lifts(step: Step, key: string): Option<Scope> {
    if step.Lifting? && Key(step.address) == key then Some(step.scope)
    else if step.Webhook? && step.e.kind == ReactivatedEvent && step.e.recipient.Some? && Key(step.e.recipient.value) == key then
      Some(StreamScope(step.e.stream))
    else None
  }

  function Entry(t: Tables, key: string): Option<Suppression> {
    if key in t.suppressed then Some(t.suppressed[key]) else None
  }

  function Asked(t: Tables, run: seq<Step>, key: string): seq<(Scope, Reason)> {
    if run == [] then []
    else Asked(t, run[..|run| - 1], key) + Asks(Play(t, run[..|run| - 1]), run[|run| - 1], key)
  }

  function FirstAll(asked: seq<(Scope, Reason)>): Option<Reason> {
    if asked == [] then None
    else if FirstAll(asked[..|asked| - 1]).Some? then FirstAll(asked[..|asked| - 1])
    else if asked[|asked| - 1].0 == All then Some(asked[|asked| - 1].1)
    else None
  }

  /** The join of everything asked: the widest scope, with the reason of whoever first asked for it. */
  function Join(asked: seq<(Scope, Reason)>): Option<Suppression> {
    if asked == [] then None
    else if FirstAll(asked).Some? then Some(Suppression(All, FirstAll(asked).value))
    else Some(Suppression(BroadcastOnly, asked[0].1))
  }

  /** Until it is lifted, an address's suppression is the join of every suppression asked for it; the reason is
      rewritten only when the scope widens. */
  lemma {:induction false} SuppressionIsJoin(t: Tables, run: seq<Step>, key: string)
    requires key !in t.suppressed
    requires forall k :: 0 <= k < |run| ==> Lifts(run[k], key).None?
    ensures Entry(Play(t, run), key) == Join(Asked(t, run, key))
  {
    if run != [] {
      var earlier, step := run[..|run| - 1], run[|run| - 1];
      SuppressionIsJoin(t, earlier, key);
      var asked, more := Asked(t, earlier, key), Asks(Play(t, earlier), step, key);
      StepWidens(Play(t, earlier), step, key);
      if more == [] {
        assert asked + more == asked;
      } else {
        JoinGrows(asked, more[0]);
        assert more == [more[0]];
      }
    }
  }

  function Widened(entry: Option<Suppression>, ask: (Scope, Reason)): Option<Suppression> {
    if entry.None? || (ask.0 == All && entry.value.scope != All) then Some(Suppression(ask.0, ask.1)) else entry
  }

  lemma {:induction false} StepWidens(t: Tables, step: Step, key: string)
    requires Lifts(step, key).None?
    ensures var asks := Asks(t, step, key);
            |asks| <= 1 && Entry(Perform(t, step), key) == if asks == [] then Entry(t, key) else Widened(Entry(t, key), asks[0])
  {
  }

  lemma {:induction false} JoinGrows(asked: seq<(Scope, Reason)>, ask: (Scope, Reason))
    ensures Join(asked + [ask]) == Widened(Join(asked), ask)
  {
    var longer := asked + [ask];
    assert longer != [];
    FirstAllGrows(asked, ask);
    assert longer[0] == if asked == [] then ask else asked[0];
  }

  lemma {:induction false} FirstAllGrows(asked: seq<(Scope, Reason)>, ask: (Scope, Reason))
    ensures FirstAll(asked + [ask])
            == if FirstAll(asked).Some? then FirstAll(asked) else if ask.0 == All then Some(ask.1) else None
  {
    assert (asked + [ask])[..|asked|] == asked;
  }

  /** The scope is the same in whatever order they are asked. */
  lemma {:induction false} ScopeIgnoresOrder(a: seq<(Scope, Reason)>, b: seq<(Scope, Reason)>)
    requires multiset(a) == multiset(b) && a != []
    ensures b != [] && Join(a).value.scope == Join(b).value.scope
  {
    assert a[0] in multiset(a);
    FirstAllIff(a);
    FirstAllIff(b);
    forall x ensures x in a <==> x in b {
      assert x in multiset(a) <==> x in multiset(b);
    }
  }

  lemma {:induction false} FirstAllIff(asked: seq<(Scope, Reason)>)
    ensures FirstAll(asked).Some? <==> exists x :: x in asked && x.0 == All
  {
    if asked != [] {
      var init := asked[..|asked| - 1];
      FirstAllIff(init);
      assert asked == init + [asked[|asked| - 1]];
    }
  }

  // ----- who is emailed -----

  /** What a step hands to the provider, and its row. */
  function HandedBy(t: Tables, step: Step): seq<(nat, Message)> {
    if step.HandingOver? && Waits(t, step.row) then [(step.row, t.inFlight[step.row].message)] else []
  }

  /** The messages a run hands to the provider, each with its row. */
  function Handed(t: Tables, run: seq<Step>): seq<(nat, Message)> {
    if run == [] then []
    else Handed(t, run[..|run| - 1]) + HandedBy(Play(t, run[..|run| - 1]), run[|run| - 1])
  }

  /** It had passed the check when the run began, and had not been handed over. */
  predicate Waited(t: Tables, row: nat, m: Message) {
    Waits(t, row) && t.inFlight[row].message == m
  }

  /** What a stop covers: the mail of a stream to an address, or of a list to a user. */
  datatype Cover = ToAddress(key: string, stream: Stream) | OnList(user: nat, list: EmailLists.MailingList)

  predicate Covers(cover: Cover, m: Message) {
    match cover
    case ToAddress(key, stream) => Key(m.to) == key && m.stream == stream
    case OnList(user, list) => m.user == user && m.unsubscribe == Some(list)
  }

  /** Of the messages the courier holds, and of those handed over, the ones covered had been checked before. */
  predicate CheckedBefore(t: Tables, now: Tables, handed: seq<(nat, Message)>, cover: Cover) {
    && (forall row :: row in now.inFlight && Waits(now, row) && Covers(cover, now.inFlight[row].message) ==>
          Waited(t, row, now.inFlight[row].message))
    && (forall x :: x in handed && Covers(cover, x.1) ==> Waited(t, x.0, x.1))
  }

  /** What waits after a step waited before it, or has just passed the check; what it hands over no longer waits. */
  lemma {:induction false} StepWaits(t: Tables, step: Step, row: nat)
    ensures Waits(Perform(t, step), row) ==>
              || Waited(t, row, Perform(t, step).inFlight[row].message)
              || (step.Opening? && RefusalOf(t, step.m).None? && row == |t.log| && Perform(t, step).inFlight[row].message == step.m)
    ensures forall x :: x in HandedBy(t, step) ==> Waited(t, x.0, x.1) && !Waits(Perform(t, step), x.0)
  {
  }

  /** One more step lets nothing covered past the check, if the check would refuse it. */
  lemma {:induction false} StepChecksNone(t: Tables, now: Tables, handed: seq<(nat, Message)>, step: Step, cover: Cover)
    requires CheckedBefore(t, now, handed, cover)
    requires step.Opening? && Covers(cover, step.m) ==> RefusalOf(now, step.m).Some?
    ensures CheckedBefore(t, Perform(now, step), handed + HandedBy(now, step), cover)
  {
    var after, more := Perform(now, step), handed + HandedBy(now, step);
    forall row | row in after.inFlight && Waits(after, row) && Covers(cover, after.inFlight[row].message)
      ensures Waited(t, row, after.inFlight[row].message)
    {
      StepWaits(now, step, row);
    }
    forall x | x in more && Covers(cover, x.1) ensures Waited(t, x.0, x.1) {
      if x !in handed {
        StepWaits(now, step, x.0);
      }
    }
  }

  /** A step that lets the stream through to the address again. */
  predicate Frees(t: Tables, step: Step, key: string) {
    var lifts := Lifts(step, key);
    lifts.Some? && (lifts.value == All || (key in t.suppressed && t.suppressed[key].scope == BroadcastOnly))
  }

  lemma {:induction false} StopsUntilFreed(t: Tables, step: Step, key: string, stream: Stream)
    requires Stops(t.suppressed, key, stream) && !Frees(t, step, key)
    ensures Stops(Perform(t, step).suppressed, key, stream)
  {
  }

  /** Once a suppression has committed no message it covers passes the check until it is lifted, whatever else
      happens and in whatever order: one handed over to the provider had been checked before it committed. */
  lemma {:induction false} SuppressedIsNotSent(t: Tables, run: seq<Step>, key: string, stream: Stream)
    requires Stops(t.suppressed, key, stream)
    requires forall k :: 0 <= k < |run| ==> !Frees(Play(t, run[..k]), run[k], key)
    ensures Stops(Play(t, run).suppressed, key, stream)
    ensures CheckedBefore(t, Play(t, run), Handed(t, run), ToAddress(key, stream))
  {
    if run != [] {
      var earlier := run[..|run| - 1];
      forall k | 0 <= k < |earlier| ensures !Frees(Play(t, earlier[..k]), earlier[k], key) {
        assert earlier[..k] == run[..k];
      }
      SuppressedIsNotSent(t, earlier, key, stream);
      StopsUntilFreed(Play(t, earlier), run[|run| - 1], key, stream);
      StepChecksNone(t, Play(t, earlier), Handed(t, earlier), run[|run| - 1], ToAddress(key, stream));
    }
  }

  /** Once off a list, no email on it passes the check until something other than leaving puts the user back: one
      handed over had been checked before. */
  lemma {:induction false} LeftIsNotSent(t: Tables, run: seq<Step>, user: nat, list: EmailLists.MailingList)
    requires !EmailLists.IsSubscribed(t.lists, user, list)
    requires forall k :: 0 <= k < |run| && run[k].Changing? ==> !EmailLists.IsSubscribed(run[k].lists, user, list)
    ensures !EmailLists.IsSubscribed(Play(t, run).lists, user, list)
    ensures CheckedBefore(t, Play(t, run), Handed(t, run), OnList(user, list))
  {
    if run != [] {
      var earlier, step := run[..|run| - 1], run[|run| - 1];
      LeftIsNotSent(t, earlier, user, list);
      StaysOff(Play(t, earlier), step, user, list);
      StepChecksNone(t, Play(t, earlier), Handed(t, earlier), step, OnList(user, list));
    }
  }

  lemma {:induction false} StaysOff(t: Tables, step: Step, user: nat, list: EmailLists.MailingList)
    requires !EmailLists.IsSubscribed(t.lists, user, list)
    requires step.Changing? ==> !EmailLists.IsSubscribed(step.lists, user, list)
    ensures !EmailLists.IsSubscribed(Perform(t, step).lists, user, list)
  {
    if step.Leaving? && EmailLists.Left(t.lists, step.user, step.list).Success? {
      EmailLists.LeavingLeaves(t.lists, step.user, step.list);
    }
  }

  /** The courier holds only messages it has logged, and those it has handed over wait no more. */
  predicate HandedAreGone(t: Tables, handed: seq<(nat, Message)>) {
    && (forall row :: row in t.inFlight ==> row < |t.log|)
    && (forall x :: x in handed ==> x.0 < |t.log| && !Waits(t, x.0))
  }

  lemma {:induction false} StepHandsOnce(t: Tables, handed: seq<(nat, Message)>, step: Step)
    requires HandedAreGone(t, handed)
    ensures forall x, y :: x in handed && y in HandedBy(t, step) ==> x.0 != y.0
    ensures HandedAreGone(Perform(t, step), handed + HandedBy(t, step))
  {
    forall x | x in handed + HandedBy(t, step) ensures x.0 < |Perform(t, step).log| && !Waits(Perform(t, step), x.0) {
      StepWaits(t, step, x.0);
    }
  }

  /** Over every run nothing is handed over twice. */
  lemma {:induction false} HandedOnce(t: Tables, run: seq<Step>)
    requires forall row :: row in t.inFlight ==> row < |t.log|
    ensures forall i, j :: 0 <= i < j < |Handed(t, run)| ==> Handed(t, run)[i].0 != Handed(t, run)[j].0
    ensures HandedAreGone(Play(t, run), Handed(t, run))
  {
    if run != [] {
      var earlier, step := run[..|run| - 1], run[|run| - 1];
      HandedOnce(t, earlier);
      StepHandsOnce(Play(t, earlier), Handed(t, earlier), step);
    }
  }

  /** Between the check and the hand-over there is room for a stop: a bounce of the address that commits there does
      not keep the message from the provider. */
  lemma {:induction false} StopAfterTheCheckIsTooLate(t: Tables, m: Message, e: Event)
    requires RefusalOf(t, m).None?
    requires e.kind == HardBounceEvent && e.recipient == Some(m.to) && e.reference.None? && e.messageId.None?
    ensures var run := [Opening(m), Webhook(e), HandingOver(|t.log|)];
            && Stops(Play(t, run[..2]).suppressed, Key(m.to), m.stream)
            && Handed(t, run) == [(|t.log|, m)]
  {
    var run := [Opening(m), Webhook(e), HandingOver(|t.log|)];
    assert run[..2] == [Opening(m), Webhook(e)];
    PlayTwo(t, Opening(m), Webhook(e));
    var middle := Perform(t, Opening(m));
    assert Find(middle.log, e).None?;
    assert run[..2][..1] == [Opening(m)] && [Opening(m)][..0] == [];
    assert Handed(t, [Opening(m)]) == [];
  }

  /** The account's own mail is stopped by a suppression of everything and by nothing else: no complaint about a
      broadcast and no departure from a list reaches it. */
  lemma {:induction false} OwnMailStopsOnlyForAll(t: Tables, m: Message)
    requires m.stream == Transactional
    ensures RefusalOf(t, m).Some? <==> Entry(t, Key(m.to)).Some? && Entry(t, Key(m.to)).value.scope == All
  {
  }
}

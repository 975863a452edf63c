/** The courier's two transactions around the provider, the provider's webhooks, and the addresses they
    suppress (app/accounts/delivery.py), as functions of the email tables. Module DeliveryService performs
    them; module DeliveryProofs follows one message, one address and one list through every interleaving. */
module Delivery {
  import opened Wrappers
  import EmailLists

  datatype Stream = Transactional | Broadcast

  datatype Status = Sending | Failed | Sent | SoftBounced | Delivered | Bounced | Complained | Suppressed

  /** The ratchet's order; the first two stand level. */
  function Rank(s: Status): nat {
    match s
    case Sending => 0
    case Failed => 0
    case Sent => 1
    case SoftBounced => 2
    case Delivered => 3
    case Bounced => 4
    case Complained => 5
    case Suppressed => 9
  }

  datatype Scope = All | BroadcastOnly

  datatype Reason = HardBounce | Complaint | Provider

  datatype Suppression = Suppression(scope: Scope, reason: Reason)

  datatype Refusal = AddressSuppressed(entry: Suppression) | NotOn(list: EmailLists.MailingList)

  datatype Detail = Refused(why: Refusal) | Says(text: string)

  datatype LogRow = LogRow(user: nat, stream: Stream, status: Status, providerId: Option<string>, detail: Option<Detail>)

  /** A message, with the list it can be left by: a broadcast one always, the account's own mail never. */
  datatype Draft = Draft(to: string, user: nat, stream: Stream, unsubscribe: Option<EmailLists.MailingList>)

  type Message = m: Draft | m.unsubscribe.Some? <==> m.stream == Broadcast
    witness Draft("", 0, Transactional, None)

  /** A message between the courier's two transactions: checked, and then handed to the provider or not yet. */
  datatype Flight = Flight(message: Message, handed: bool)

  /** The tables: the log, its rows' ids their places; the suppressions, by address; the lists; and the
      messages the courier has in hand, which have passed the check and whose answer has not been written. */
  datatype Tables = Tables(
    log: seq<LogRow>,
    suppressed: map<string, Suppression>,
    lists: EmailLists.Lists,
    inFlight: map<nat, Flight>)

  // ----- addresses -----

  function Lowered(c: char): char {
    if 'A' <= c <= 'Z' then (c as int + 32) as char else c
  }

  /** str.isspace, of ASCII. */
  predicate Blank(c: char) {
    '\t' <= c <= '\r' || '\U{1c}' <= c <= ' '
  }

  function TrimmedLeft(s: string): string {
    if s != [] && Blank(s[0]) then TrimmedLeft(s[1..]) else s
  }

  function TrimmedRight(s: string): string {
    if s != [] && Blank(s[|s| - 1]) then TrimmedRight(s[..|s| - 1]) else s
  }

  /** Two spellings of one mailbox share a key. */
  function Key(address: string): string {
    var trimmed := TrimmedRight(TrimmedLeft(address));
    seq(|trimmed|, i requires 0 <= i < |trimmed| => Lowered(trimmed[i]))
  }

  // ----- suppressions -----

  /** The scope a complaint or a provider's refusal on the stream sets; an unknown stream is the account's. */
  function StreamScope(stream: Option<Stream>): Scope {
    if stream == Some(Broadcast) then BroadcastOnly else All
  }

  function Suppress(table: map<string, Suppression>, key: string, scope: Scope, reason: Reason): map<string, Suppression> {
    if key !in table || (scope == All && table[key].scope != All) then table[key := Suppression(scope, reason)] else table
  }

  function Lift(table: map<string, Suppression>, key: string, scope: Scope): map<string, Suppression> {
    if key in table && (scope == All || table[key].scope == BroadcastOnly) then table - {key} else table
  }

  predicate Stops(table: map<string, Suppression>, key: string, stream: Stream) {
    key in table && (table[key].scope == All || stream == Broadcast)
  }

  /** The obstacle to sending, if there is one: the address first, then the list. */
  function RefusalOf(t: Tables, m: Message): Option<Refusal> {
    if Stops(t.suppressed, Key(m.to), m.stream) then Some(AddressSuppressed(t.suppressed[Key(m.to)]))
    else if m.unsubscribe.Some? && !EmailLists.IsSubscribed(t.lists, m.user, m.unsubscribe.value) then Some(NotOn(m.unsubscribe.value))
    else None
  }

  // ----- the courier's first transaction -----

  function Open(t: Tables, m: Message): Tables {
    var refusal := RefusalOf(t, m);
    var row := LogRow(m.user, m.stream, if refusal.Some? then Suppressed else Sending, None,
                      if refusal.Some? then Some(Refused(refusal.value)) else None);
    t.(log := t.log + [row], inFlight := if refusal.Some? then t.inFlight else t.inFlight[|t.log| := Flight(m, false)])
  }

  // ----- between the two -----

  /** The first transaction has committed and nothing looks at the tables again before the provider has it. */
  predicate Waits(t: Tables, row: nat) {
    row in t.inFlight && !t.inFlight[row].handed
  }

  /** The provider has the message. */
  predicate Awaited(t: Tables, row: nat) {
    row in t.inFlight && t.inFlight[row].handed
  }

  function HandOver(t: Tables, row: nat): Tables
    requires row in t.inFlight
  {
    t.(inFlight := t.inFlight[row := t.inFlight[row].(handed := true)])
  }

  // ----- the courier's second transaction -----

  /** What the provider answered: accepted, under its id when it gave one; the address is one it has
      stopped; or refused, or not reached. */
  datatype Answer = Accepted(id: Option<string>) | Inactive(said: string) | Unsent(said: string)

  function AnswerStatus(a: Answer): Status {
    match a case Accepted(_) => Sent case Inactive(_) => Suppressed case Unsent(_) => Failed
  }

  function AnswerDetail(a: Answer): Option<Detail> {
    match a case Accepted(_) => None case Inactive(said) => Some(Says(said)) case Unsent(said) => Some(Says(said))
  }

  function AnswerId(a: Answer): Option<string> {
    if a.Accepted? then a.id else None
  }

  function Coalesce<T>(a: Option<T>, b: Option<T>): Option<T> {
    if a.Some? then a else b
  }

  /** The unique index on provider_id would let the row have this one. */
  predicate IdIsFree(log: seq<LogRow>, row: nat, id: Option<string>) {
    id.Some? ==> forall k :: 0 <= k < |log| && k != row ==> log[k].providerId != id
  }

  function Answered(row: LogRow, a: Answer): LogRow {
    row.(providerId := Coalesce(row.providerId, AnswerId(a)),
         status := if row.status == Sending then AnswerStatus(a) else row.status,
         detail := if row.status == Sending then AnswerDetail(a) else row.detail)
  }

  predicate CloseCommits(t: Tables, row: nat, a: Answer) {
    row < |t.log| && IdIsFree(t.log, row, Answered(t.log[row], a).providerId)
  }

  function Close(t: Tables, row: nat, a: Answer): Tables
    requires Awaited(t, row)
  {
    var m := t.inFlight[row].message;
    var rest := t.(inFlight := t.inFlight - {row});
    if !CloseCommits(t, row, a) then rest
    else
      rest.(log := t.log[row := Answered(t.log[row], a)],
            suppressed := if a.Inactive? then Suppress(t.suppressed, Key(m.to), StreamScope(Some(m.stream)), Provider)
                          else t.suppressed)
  }

  // ----- a webhook -----

  datatype EventKind = DeliveryEvent | SoftBounceEvent | HardBounceEvent | ComplaintEvent | SuppressedEvent | ReactivatedEvent | IgnoredEvent

  datatype Event = Event(
    kind: EventKind,
    recipient: Option<string>,
    messageId: Option<string>,
    reference: Option<nat>,
    stream: Option<Stream>,
    detail: Option<string>,
    reason: Option<Reason>)

  function Target(kind: EventKind): Option<Status> {
    match kind
    case DeliveryEvent => Some(Delivered)
    case SoftBounceEvent => Some(SoftBounced)
    case HardBounceEvent => Some(Bounced)
    case ComplaintEvent => Some(Complained)
    case _ => None
  }

  function ByProvider(log: seq<LogRow>, id: string): (row: Option<nat>)
    ensures row.Some? ==> row.value < |log| && log[row.value].providerId == Some(id)
    ensures row.None? ==> forall k :: 0 <= k < |log| ==> log[k].providerId != Some(id)
  {
    if log == [] then None
    else if log[|log| - 1].providerId == Some(id) then Some(|log| - 1)
    else ByProvider(log[..|log| - 1], id)
  }

  /** The row an event is about: the one its metadata names, else the one with its provider's id. */
  function Find(log: seq<LogRow>, e: Event): (row: Option<nat>)
    ensures row.Some? ==> row.value < |log|
  {
    if e.reference.Some? && e.reference.value < |log| then e.reference
    else if e.messageId.Some? then ByProvider(log, e.messageId.value)
    else None
  }

  function DetailOf(e: Event): Option<Detail> {
    if e.detail.Some? then Some(Says(e.detail.value)) else None
  }

  function Moved(row: LogRow, e: Event): LogRow
    requires Target(e.kind).Some?
  {
    if Rank(row.status) < Rank(Target(e.kind).value) then
      row.(status := Target(e.kind).value, detail := DetailOf(e), providerId := Coalesce(row.providerId, e.messageId))
    else row
  }

  /** The event finds a row that is not as far along as its target. */
  predicate Advances(log: seq<LogRow>, e: Event) {
    var row := Find(log, e);
    row.Some? && Target(e.kind).Some? && Rank(log[row.value].status) < Rank(Target(e.kind).value)
  }

  /** What the event suppresses its recipient for, and why. */
  function Suppresses(e: Event): Option<(Scope, Reason)> {
    if e.recipient.None? then None
    else
      match e.kind
      case HardBounceEvent => Some((All, HardBounce))
      case ComplaintEvent => Some((StreamScope(e.stream), Complaint))
      case SuppressedEvent =>
        if e.reason.None? then None
        else Some((if e.reason == Some(HardBounce) then All else StreamScope(e.stream), e.reason.value))
      case _ => None
  }

  /** Nothing stops the webhook: a suppression says why, and the row's provider id stays its own. */
  predicate EventCommits(t: Tables, e: Event) {
    && (e.kind == SuppressedEvent && e.recipient.Some? ==> e.reason.Some?)
    && (Advances(t.log, e) ==> IdIsFree(t.log, Find(t.log, e).value, Moved(t.log[Find(t.log, e).value], e).providerId))
  }

  function Record(t: Tables, e: Event): Tables {
    if !EventCommits(t, e) then t
    else
      var row := Find(t.log, e);
      t.(log := if Advances(t.log, e) then t.log[row.value := Moved(t.log[row.value], e)] else t.log,
         suppressed := if Suppresses(e).Some? then Suppress(t.suppressed, Key(e.recipient.value), Suppresses(e).value.0, Suppresses(e).value.1)
                       else if e.kind == ReactivatedEvent && e.recipient.Some? then Lift(t.suppressed, Key(e.recipient.value), StreamScope(e.stream))
                       else t.suppressed)
  }

  /** What a webhook reports it changed. */
  datatype Recorded = Recorded(row: Option<nat>, status: Option<Status>, suppression: Option<Scope>, lifted: bool)

  function ReportOf(t: Tables, e: Event): Recorded {
    var row := Find(t.log, e);
    Recorded(row,
             if Advances(t.log, e) then Target(e.kind) else None,
             if Suppresses(e).Some? then Some(Suppresses(e).value.0) else None,
             e.kind == ReactivatedEvent && e.recipient.Some?
             && Lift(t.suppressed, Key(e.recipient.value), StreamScope(e.stream)) != t.suppressed)
  }
}

/** Overrides as admins give and end them (app/admin/plans.py): of one account's, no two ever overlap, so a grant a
    session keeps and the rows never disagree about them. */
module Overrides {
  import opened Wrappers
  import opened Entitlements

  /** One committed change, at its instant. */
  datatype Change = Give(user: nat, plan: string, expiresAt: Time, at: Time) | End(user: nat, at: Time)

  function Ended(row: OverrideRow, user: nat, at: Time): OverrideRow {
    if row.user == user && row.endedAt.None? && row.expiresAt > at then row.(endedAt := Some(at)) else row
  }

  /** Whatever the account has still to run ends now. */
  function EndLive(overrides: seq<OverrideRow>, user: nat, at: Time): (after: seq<OverrideRow>)
    ensures |after| == |overrides|
  {
    seq(|overrides|, i requires 0 <= i < |overrides| => Ended(overrides[i], user, at))
  }

  /** The account is locked, what it had is ended, and the new one begins; one that would expire by now is refused. */
  function Perform(overrides: seq<OverrideRow>, change: Change): seq<OverrideRow> {
    match change
    case Give(user, plan, expiresAt, at) =>
      if expiresAt <= at then overrides else EndLive(overrides, user, at) + [OverrideRow(user, plan, at, expiresAt, None)]
    case End(user, at) => EndLive(overrides, user, at)
  }

  function Play(overrides: seq<OverrideRow>, changes: seq<Change>): seq<OverrideRow> {
    if changes == [] then overrides
    else Perform(Play(overrides, changes[..|changes| - 1]), changes[|changes| - 1])
  }

  class Admin {
    var overrides: seq<OverrideRow>

    constructor (overrides: seq<OverrideRow>)
      ensures this.overrides == overrides
    {
      this.overrides := overrides;
    }

    /** Nothing of the account's runs on; no other row is touched, and none of its that had expired or ended. */
    method EndRunning(user: nat, at: Time)
      modifies this
      ensures overrides == EndLive(old(overrides), user, at)
      ensures forall i :: 0 <= i < |overrides| && overrides[i].user == user && overrides[i].endedAt.None? ==> overrides[i].expiresAt <= at
      ensures forall i :: 0 <= i < |overrides| && (overrides[i].user != user || old(overrides)[i].expiresAt <= at) ==>
                overrides[i] == old(overrides)[i]
    {
      overrides := EndLive(overrides, user, at);
    }

    /** Give the account the plan until then, or refuse an expiry that has passed. */
    method Set(user: nat, plan: string, expiresAt: Time, at: Time) returns (given: bool)
      modifies this
      ensures overrides == Perform(old(overrides), Give(user, plan, expiresAt, at))
      ensures given <==> at < expiresAt
    {
      given := at < expiresAt;
      if given {
        EndRunning(user, at);
        overrides := overrides + [OverrideRow(user, plan, at, expiresAt, None)];
      }
    }
  }

  /** What a change writes: of the account's rows those still to run are ended at its time, and a gift that has time to
      run begins then; a gift that has none changes nothing. */
  lemma {:induction false} ChangeDoes(overrides: seq<OverrideRow>, change: Change)
    ensures var after := Perform(overrides, change);
            if change.Give? && change.expiresAt <= change.at then after == overrides
            else
              && |after| == |overrides| + (if change.Give? then 1 else 0)
              && (change.Give? ==> after[|overrides|] == OverrideRow(change.user, change.plan, change.at, change.expiresAt, None))
              && forall i :: 0 <= i < |overrides| ==>
                   after[i] == if overrides[i].user == change.user && overrides[i].endedAt.None? && change.at < overrides[i].expiresAt
                               then overrides[i].(endedAt := Some(change.at)) else overrides[i]
  {
  }

  /** Of one account's, both not ended, the first had expired when the second began. */
  predicate Apart(a: OverrideRow, b: OverrideRow) {
    a.user == b.user && a.endedAt.None? && b.endedAt.None? ==> a.expiresAt <= b.startsAt
  }

  /** Of one account's that were not ended, each had expired when the next began. */
  predicate OneAtATime(overrides: seq<OverrideRow>) {
    forall i, j :: 0 <= i < j < |overrides| ==> Apart(overrides[i], overrides[j])
  }

  predicate BegunBy(overrides: seq<OverrideRow>, at: Time) {
    forall i :: 0 <= i < |overrides| ==> overrides[i].startsAt <= at
  }

  lemma {:induction false} ChangeKeepsOne(overrides: seq<OverrideRow>, change: Change)
    requires OneAtATime(overrides)
    ensures OneAtATime(Perform(overrides, change))
  {
  }

  /** However admins give and end overrides, and in whatever order of their times the locks let them, an account never
      has two at once. */
  lemma {:induction false} EveryRunKeepsOne(overrides: seq<OverrideRow>, changes: seq<Change>)
    requires OneAtATime(overrides)
    ensures OneAtATime(Play(overrides, changes))
  {
    if changes != [] {
      EveryRunKeepsOne(overrides, changes[..|changes| - 1]);
      ChangeKeepsOne(Play(overrides, changes[..|changes| - 1]), changes[|changes| - 1]);
    }
  }

  lemma {:induction false} EveryRunHasBegun(overrides: seq<OverrideRow>, changes: seq<Change>, at: Time)
    requires BegunBy(overrides, at) && forall i :: 0 <= i < |changes| ==> changes[i].at <= at
    ensures BegunBy(Play(overrides, changes), at)
  {
    if changes != [] {
      EveryRunHasBegun(overrides, changes[..|changes| - 1], at);
    }
  }

  lemma {:induction false} OneAtATimeIsOne(overrides: seq<OverrideRow>, user: nat, r: Time, t: Time)
    requires OneAtATime(overrides) && BegunBy(overrides, r) && r <= t
    ensures OneOverride(overrides, user, r, t)
  {
  }

  /** So after any changes admins made, a session's grant read since then answers every key at every later instant
      as one read at that instant. */
  lemma {:induction false} KeptGrantNeverDiffers(catalog: Catalog, overrides: seq<OverrideRow>, changes: seq<Change>, subs: seq<SubRow>,
                                                 users: map<nat, Time>, user: nat, key: string, r: Time, t: Time)
    requires Sound(catalog) && key in ENTITLEMENT_KEYS && OneLiveEach(subs)
    requires OneAtATime(overrides) && BegunBy(overrides, r)
    requires (forall i :: 0 <= i < |changes| ==> changes[i].at <= r) && r <= t
    ensures var rows := Rows(subs, Play(overrides, changes), users);
            Answer(catalog, GrantFor(rows, user, r), key, t, t) == Answer(catalog, GrantFor(rows, user, t), key, t, t)
  {
    EveryRunKeepsOne(overrides, changes);
    EveryRunHasBegun(overrides, changes, r);
    OneAtATimeIsOne(Play(overrides, changes), user, r, t);
    CacheAgrees(catalog, Rows(subs, Play(overrides, changes), users), user, key, r, t);
  }
}

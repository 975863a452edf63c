/** API keys (app/accounts/api_keys.py): a request by a live key is let in and, at most so often, written down, as
    one with a session is (app/accounts/sessions.py); a key lets in nothing again exactly once it is revoked. */
module ApiKeys {
  import opened Wrappers
  import opened Activity

  const KEY_PREFIX: string := "ww_"

  /** Five minutes, and five minutes. */
  const LAST_USED_EVERY: int := 300_000_000
  const LAST_SEEN_EVERY: int := 300_000_000

  datatype ApiKey = ApiKey(user: nat, hash: string, lastUsed: Option<int>, revokedAt: Option<int>)

  /** api_key, whose ids are its places; of app_user, when each was last seen and which are deleted; and
      user_activity_day. */
  datatype State = State(keys: seq<ApiKey>, seen: map<nat, int>, deleted: set<nat>, days: Days)

  /** The one-way hash that stands for a key in the table. */
  type Digest = string -> string

  predicate Live(s: State, k: nat)
    requires k < |s.keys|
  {
    s.keys[k].revokedAt.None? && s.keys[k].user !in s.deleted
  }

  function SeenAt(s: State, user: nat): Option<int> {
    if user in s.seen then Some(s.seen[user]) else None
  }

  predicate UniqueHashes(keys: seq<ApiKey>) {
    forall i, j :: 0 <= i < j < |keys| ==> keys[i].hash != keys[j].hash
  }

  /** The unique index on token_hash, and every last use and last sight on a day that was marked. */
  predicate Valid(s: State) {
    && UniqueHashes(s.keys)
    && (forall k :: 0 <= k < |s.keys| && s.keys[k].lastUsed.Some? ==>
          (s.keys[k].user, UtcDay(s.keys[k].lastUsed.value)) in s.days)
    && (forall user :: user in s.seen ==> (user, UtcDay(s.seen[user])) in s.days)
  }

  function KeyOf(s: State, hash: string, among: nat): (k: Option<nat>)
    requires among <= |s.keys|
    ensures k.Some? ==> k.value < among && s.keys[k.value].hash == hash && Live(s, k.value)
    ensures k.None? ==> forall i :: 0 <= i < among && s.keys[i].hash == hash ==> !Live(s, i)
  {
    if among == 0 then None
    else if s.keys[among - 1].hash == hash && Live(s, among - 1) then Some(among - 1)
    else KeyOf(s, hash, among - 1)
  }

  /** The live key a token is, if any. */
  function Found(s: State, digest: Digest, token: string): (k: Option<nat>)
    ensures k.Some? ==> k.value < |s.keys| && Live(s, k.value)
  {
    if !(KEY_PREFIX <= token) then None else KeyOf(s, digest(token), |s.keys|)
  }

  function Used(s: State, k: nat, at: int): State
    requires k < |s.keys|
  {
    if Due(s.keys[k].lastUsed, at, LAST_USED_EVERY)
    then s.(keys := s.keys[k := s.keys[k].(lastUsed := Some(at))], days := MarkActive(s.days, s.keys[k].user, at))
    else s
  }

  predicate Mine(key: ApiKey, user: nat) {
    key.user == user && key.revokedAt.None?
  }

  function Revoked(key: ApiKey, user: nat, at: int): ApiKey {
    if Mine(key, user) then key.(revokedAt := Some(at)) else key
  }

  /** The table with all of one account's keys stopped. */
  function AllRevoked(keys: seq<ApiKey>, user: nat, at: int): (after: seq<ApiKey>)
    ensures |after| == |keys|
  {
    seq(|keys|, k requires 0 <= k < |keys| => Revoked(keys[k], user, at))
  }

  predicate HashIsFree(keys: seq<ApiKey>, hash: string) {
    forall k :: 0 <= k < |keys| ==> keys[k].hash != hash
  }

  /** One committed transaction. That the account is signed in was looked up before the one that makes its key or
      marks it seen, and neither looks again whether it is deleted. Restoring is refused while another live account
      has the address. */
  datatype Step =
    | Request(token: string, at: int)
    | Visit(user: nat, at: int)
    | SignIn(user: nat, at: int)
    | Create(user: nat, hash: string)
    | RevokeKey(user: nat, key: nat, at: int)
    | RevokeAll(user: nat, at: int)
    | Delete(user: nat, at: int)
    | Restore(user: nat, taken: bool)
    | Export(user: nat, at: int)

  function SeenNow(s: State, user: nat, at: int): State {
    s.(seen := s.seen[user := at], days := MarkActive(s.days, user, at))
  }

  function Perform(s: State, digest: Digest, step: Step): State {
    match step
    case Request(token, at) =>
      var k := Found(s, digest, token);
      if k.None? then s else Used(s, k.value, at)
    case Visit(user, at) => if Due(SeenAt(s, user), at, LAST_SEEN_EVERY) then SeenNow(s, user, at) else s
    case SignIn(user, at) => SeenNow(s, user, at)
    case Create(user, hash) =>
      if HashIsFree(s.keys, hash) then s.(keys := s.keys + [ApiKey(user, hash, None, None)]) else s
    case RevokeKey(user, key, at) =>
      if key < |s.keys| then s.(keys := s.keys[key := Revoked(s.keys[key], user, at)]) else s
    case RevokeAll(user, at) =>
      s.(keys := AllRevoked(s.keys, user, at))
    case Delete(user, at) => s.(deleted := s.deleted + {user}, keys := AllRevoked(s.keys, user, at))
    case Restore(user, taken) => if taken then s else s.(deleted := s.deleted - {user})
    case Export(user, at) => s.(days := CountExport(s.days, user, at))
  }

  function Play(s: State, digest: Digest, run: seq<Step>): State {
    if run == [] then s else Perform(Play(s, digest, run[..|run| - 1]), digest, run[|run| - 1])
  }

  // ----- the tables, as the requests change them -----

  class Service {
    var keys: seq<ApiKey>
    var seen: map<nat, int>
    var deleted: set<nat>
    var days: Days

    ghost function View(): State
      reads this
    {
      State(keys, seen, deleted, days)
    }

    constructor (keys: seq<ApiKey>, seen: map<nat, int>, deleted: set<nat>, days: Days)
      ensures View() == State(keys, seen, deleted, days)
    {
      this.keys, this.seen, this.deleted, this.days := keys, seen, deleted, days;
    }

    /** The live key the token is, marked used, and its account active that day, when that is due. */
    method FindKey(digest: Digest, token: string, at: int) returns (found: Option<nat>)
      modifies this
      ensures found == Found(old(View()), digest, token)
      ensures View() == Perform(old(View()), digest, Request(token, at))
    {
      if !(KEY_PREFIX <= token) {
        return None;
      }
      found := KeyOf(State(keys, seen, deleted, days), digest(token), |keys|);
      if found.None? {
        return;
      }
      var key := keys[found.value];
      if Due(key.lastUsed, at, LAST_USED_EVERY) {
        keys := keys[found.value := key.(lastUsed := Some(at))];
        if (key.user, UtcDay(at)) !in days {
          days := days[(key.user, UtcDay(at)) := 0];
        }
      }
    }

    /** Mark the account seen, and active that day, when that is due. */
    method Touch(digest: Digest, user: nat, at: int)
      modifies this
      ensures View() == Perform(old(View()), digest, Visit(user, at))
    {
      if user !in seen || at - seen[user] >= LAST_SEEN_EVERY || UtcDay(seen[user]) != UtcDay(at) {
        seen := seen[user := at];
        if (user, UtcDay(at)) !in days {
          days := days[(user, UtcDay(at)) := 0];
        }
      }
    }

    /** A new key for the account, deleted since it was looked up or not; none of a hash there is already. */
    method CreateKey(digest: Digest, user: nat, hash: string) returns (made: Option<nat>)
      modifies this`keys
      ensures View() == Perform(old(View()), digest, Create(user, hash))
      ensures made == if HashIsFree(old(keys), hash) then Some(|old(keys)|) else None
    {
      if !HashIsFree(keys, hash) {
        return None;
      }
      made := Some(|keys|);
      keys := keys + [ApiKey(user, hash, None, None)];
    }

    method Revoke(digest: Digest, user: nat, key: nat, at: int)
      modifies this`keys
      ensures View() == Perform(old(View()), digest, RevokeKey(user, key, at))
    {
      if key < |keys| && Mine(keys[key], user) {
        keys := keys[key := keys[key].(revokedAt := Some(at))];
      }
    }

    /** None of the account's keys works any more; no other key is touched, nor one already revoked. */
    method RevokeEvery(digest: Digest, user: nat, at: int)
      modifies this`keys
      ensures View() == Perform(old(View()), digest, RevokeAll(user, at))
      ensures |keys| == |old(keys)|
      ensures forall k :: 0 <= k < |keys| && keys[k].user == user ==> !Live(View(), k)
      ensures forall k :: 0 <= k < |keys| && (keys[k].user != user || old(keys)[k].revokedAt.Some?) ==> keys[k] == old(keys)[k]
    {
      var before := keys;
      keys := seq(|before|, k requires 0 <= k < |before| => Revoked(before[k], user, at));
    }

    /** Mark the account deleted, and revoke its keys with it. */
    method DeleteAccount(digest: Digest, user: nat, at: int)
      modifies this
      ensures View() == Perform(old(View()), digest, Delete(user, at))
      ensures forall k :: 0 <= k < |keys| && keys[k].user == user ==> keys[k].revokedAt.Some?
    {
      deleted := deleted + {user};
      RevokeEvery(digest, user, at);
    }

    /** Undo a deletion, unless another live account has the address now: the account is back, with none of its keys
        but those never revoked. */
    method RestoreAccount(digest: Digest, user: nat, taken: bool) returns (restored: bool)
      modifies this`deleted
      ensures View() == Perform(old(View()), digest, Restore(user, taken))
      ensures restored <==> user in old(deleted) && !taken
      ensures restored ==> forall k :: 0 <= k < |keys| && keys[k].user == user ==> (Live(View(), k) <==> keys[k].revokedAt.None?)
    {
      restored := user in deleted && !taken;
      if restored {
        deleted := deleted - {user};
      }
    }

    method CountDataExport(digest: Digest, user: nat, at: int)
      modifies this`days
      ensures View() == Perform(old(View()), digest, Export(user, at))
    {
      var day := (user, UtcDay(at));
      if day in days {
        days := days[day := days[day] + 1];
      } else {
        days := days[day := 1];
      }
    }
  }

  // ----- what each transaction does -----

  /** A token finds a key exactly when it has the prefix and the key's digest, and neither the key is revoked nor its
      account deleted. */
  lemma {:induction false} FoundIff(s: State, digest: Digest, token: string, k: nat)
    requires UniqueHashes(s.keys)
    ensures Found(s, digest, token) == Some(k)
            <==> |token| >= 3 && token[..3] == "ww_" && k < |s.keys| && s.keys[k].hash == digest(token)
                 && s.keys[k].revokedAt.None? && s.keys[k].user !in s.deleted
  {
    assert |KEY_PREFIX| == 3;
    assert KEY_PREFIX <= token <==> |token| >= 3 && token[..3] == "ww_";
  }

  /** Five minutes have gone since, or it is another day, or there is nothing to have gone since. */
  predicate IsDue(last: Option<int>, at: int) {
    last.None? || last.value + 5 * 60 * 1_000_000 <= at || last.value / 86_400_000_000 != at / 86_400_000_000
  }

  function Marked(days: Days, user: nat, at: int): Days {
    map day | day in days.Keys + {(user, at / 86_400_000_000)} :: if day in days then days[day] else 0
  }

  /** A request by a key writes its last use and its account's day when they are due, and else nothing; one of a session
      the same of the account, and a sign-in always. An export adds one to its day. */
  lemma {:induction false} UseIsWritten(s: State, digest: Digest, token: string, k: nat, user: nat, at: int)
    requires UniqueHashes(s.keys)
    ensures Found(s, digest, token) == Some(k) ==>
              Perform(s, digest, Request(token, at))
              == (if IsDue(s.keys[k].lastUsed, at)
                  then s.(keys := s.keys[k := s.keys[k].(lastUsed := Some(at))], days := Marked(s.days, s.keys[k].user, at)) else s)
    ensures Found(s, digest, token) == None ==> Perform(s, digest, Request(token, at)) == s
    ensures Perform(s, digest, Visit(user, at))
            == (if IsDue(SeenAt(s, user), at) then s.(seen := s.seen[user := at], days := Marked(s.days, user, at)) else s)
    ensures Perform(s, digest, SignIn(user, at)) == s.(seen := s.seen[user := at], days := Marked(s.days, user, at))
    ensures Perform(s, digest, Export(user, at))
            == s.(days := Marked(s.days, user, at)[(user, at / 86_400_000_000) := ExportsIn(s.days, (user, at / 86_400_000_000)) + 1])
  {
    MarkedIs(s.days, user, at);
    if Found(s, digest, token) == Some(k) {
      MarkedIs(s.days, s.keys[k].user, at);
    }
    var day := (user, UtcDay(at));
    assert CountExport(s.days, user, at) == Marked(s.days, user, at)[day := ExportsIn(s.days, day) + 1];
  }

  lemma {:induction false} MarkedIs(days: Days, user: nat, at: int)
    ensures MarkActive(days, user, at) == Marked(days, user, at)
  {
    assert UtcDay(at) == at / 86_400_000_000;
  }

  /** Keys as each step leaves them: a new one is the account's, never used and not revoked; a revocation is of the
      account's own that are not revoked, the one named or all; a deletion revokes all; nothing else touches them. */
  lemma {:induction false} KeysAreWritten(s: State, digest: Digest, user: nat, hash: string, key: nat, at: int, k: nat)
    requires k < |s.keys|
    ensures Perform(s, digest, Create(user, hash)).keys
            == s.keys + (if exists j :: 0 <= j < |s.keys| && s.keys[j].hash == hash then [] else [ApiKey(user, hash, None, None)])
    ensures var mine := s.keys[k].user == user && s.keys[k].revokedAt.None?;
            var stopped := s.keys[k].(revokedAt := Some(at));
            && |Perform(s, digest, RevokeKey(user, key, at)).keys| == |s.keys|
            && Perform(s, digest, RevokeKey(user, key, at)).keys[k] == (if mine && k == key then stopped else s.keys[k])
            && |Perform(s, digest, RevokeAll(user, at)).keys| == |s.keys|
            && Perform(s, digest, RevokeAll(user, at)).keys[k] == (if mine then stopped else s.keys[k])
            && Perform(s, digest, Delete(user, at)).keys == Perform(s, digest, RevokeAll(user, at)).keys
            && Perform(s, digest, Delete(user, at)).deleted == s.deleted + {user}
            && Perform(s, digest, Restore(user, false)) == s.(deleted := s.deleted - {user})
            && Perform(s, digest, Restore(user, true)) == s
  {
  }

  // ----- every run -----

  /** A key is whose and which it was, and once revoked as it was revoked. */
  predicate Keeps(before: seq<ApiKey>, after: seq<ApiKey>) {
    && |before| <= |after|
    && forall k :: 0 <= k < |before| ==>
         && after[k].user == before[k].user && after[k].hash == before[k].hash
         && (before[k].revokedAt.Some? ==> after[k].revokedAt == before[k].revokedAt)
  }

  lemma {:induction false} StepKeeps(s: State, digest: Digest, step: Step)
    requires Valid(s)
    ensures var after := Perform(s, digest, step);
            Valid(after) && Keeps(s.keys, after.keys)
  {
    match step
    case Request(token, at) =>
      if Found(s, digest, token).Some? {
        UsedKeeps(s, Found(s, digest, token).value, at);
      }
    case Visit(user, at) => SeenKeeps(s, user, at);
    case SignIn(user, at) => SeenKeeps(s, user, at);
    case Create(user, hash) =>
    case RevokeKey(user, key, at) => RevokingOneKeeps(s, user, key, at);
    case RevokeAll(user, at) => RevokingAllKeeps(s, user, at);
    case Delete(user, at) => RevokingAllKeeps(s, user, at);
    case Restore(user, taken) =>
    case Export(user, at) =>
  }

  lemma {:induction false} UsedKeeps(s: State, k: nat, at: int)
    requires Valid(s) && k < |s.keys|
    ensures Valid(Used(s, k, at)) && Keeps(s.keys, Used(s, k, at).keys)
  {
  }

  lemma {:induction false} SeenKeeps(s: State, user: nat, at: int)
    requires Valid(s)
    ensures Valid(SeenNow(s, user, at))
  {
  }

  lemma {:induction false} RevokingAllKeeps(s: State, user: nat, at: int)
    requires Valid(s)
    ensures Valid(s.(keys := AllRevoked(s.keys, user, at))) && Keeps(s.keys, AllRevoked(s.keys, user, at))
  {
  }

  lemma {:induction false} RevokingOneKeeps(s: State, user: nat, key: nat, at: int)
    requires Valid(s)
    ensures key < |s.keys| ==>
              var after := s.keys[key := Revoked(s.keys[key], user, at)];
              Valid(s.(keys := after)) && Keeps(s.keys, after)
  {
  }

  lemma {:induction false} RunKeeps(s: State, digest: Digest, run: seq<Step>)
    requires Valid(s)
    ensures var after := Play(s, digest, run);
            Valid(after) && Keeps(s.keys, after.keys)
  {
    if run != [] {
      RunKeeps(s, digest, run[..|run| - 1]);
      StepKeeps(Play(s, digest, run[..|run| - 1]), digest, run[|run| - 1]);
    }
  }

  /** The key that lets in the request a run comes to at i, if it is one and any does. */
  function LetIn(s: State, digest: Digest, run: seq<Step>, i: nat): Option<nat>
    requires i < |run|
  {
    if run[i].Request? then Found(Play(s, digest, run[..i]), digest, run[i].token) else None
  }

  lemma {:induction false} RevokedIsNotFound(s: State, digest: Digest, token: string, k: nat)
    requires Valid(s) && k < |s.keys| && s.keys[k].revokedAt.Some?
    ensures Found(s, digest, token) != Some(k)
    ensures digest(token) == s.keys[k].hash ==> Found(s, digest, token) == None
  {
  }

  /** A revoked key lets in nothing ever again, and its token finds no other. */
  lemma {:induction false} RevokedForGood(s: State, digest: Digest, run: seq<Step>, i: nat, k: nat)
    requires Valid(s) && i < |run| && k < |s.keys| && s.keys[k].revokedAt.Some?
    ensures LetIn(s, digest, run, i) != Some(k)
    ensures run[i].Request? && digest(run[i].token) == s.keys[k].hash ==> LetIn(s, digest, run, i) == None
  {
    RunKeeps(s, digest, run[..i]);
    if run[i].Request? {
      RevokedIsNotFound(Play(s, digest, run[..i]), digest, run[i].token, k);
    }
  }

  lemma {:induction false} PlayTwo(s: State, digest: Digest, a: Step, b: Step)
    ensures Play(s, digest, [a, b]) == Perform(Perform(s, digest, a), digest, b)
  {
    assert [a, b][..1] == [a] && [a][..0] == [];
    assert Play(s, digest, [a]) == Perform(Play(s, digest, []), digest, a);
  }

  lemma {:induction false} LiveIsFound(s: State, digest: Digest, token: string, k: nat)
    requires Valid(s) && k < |s.keys| && Live(s, k) && KEY_PREFIX <= token && digest(token) == s.keys[k].hash
    ensures Found(s, digest, token) == Some(k)
  {
  }

  /** The key has a request ahead of it, in some run. */
  ghost predicate MayYetLetIn(s: State, digest: Digest, k: nat) {
    exists run: seq<Step>, i: nat :: i < |run| && LetIn(s, digest, run, i) == Some(k)
  }

  /** A key lets in nothing ever again if and only if it is revoked: whether its account is deleted is not enough. */
  lemma {:induction false} LetsInNothingIffRevoked(s: State, digest: Digest, token: string, k: nat)
    requires Valid(s) && k < |s.keys| && KEY_PREFIX <= token && digest(token) == s.keys[k].hash
    ensures !MayYetLetIn(s, digest, k) <==> s.keys[k].revokedAt.Some?
  {
    if s.keys[k].revokedAt.Some? {
      forall run: seq<Step>, i: nat | i < |run| ensures LetIn(s, digest, run, i) != Some(k) {
        RevokedForGood(s, digest, run, i, k);
      }
    } else {
      var back := Restore(s.keys[k].user, false);
      var run := [back, Request(token, 0)];
      assert run[..1] == [back] && [back][..0] == [];
      LiveIsFound(Perform(s, digest, back), digest, token, k);
      assert Play(s, digest, [back]) == Perform(Play(s, digest, []), digest, back);
      assert LetIn(s, digest, run, 1) == Some(k);
    }
  }

  /** After an account is deleted, and whatever else happens before it is restored, the keys it is back with are those
      made since and not revoked since: of the keys it had, none. */
  lemma {:induction false} RestoredWithKeysMadeSince(s: State, digest: Digest, user: nat, at: int, run: seq<Step>, k: nat)
    requires Valid(s)
    requires var now := Play(Perform(s, digest, Delete(user, at)), digest, run);
             k < |now.keys| && now.keys[k].user == user
    ensures var now := Play(Perform(s, digest, Delete(user, at)), digest, run);
            Live(Perform(now, digest, Restore(user, false)), k) <==> |s.keys| <= k && now.keys[k].revokedAt.None?
  {
    var gone := Perform(s, digest, Delete(user, at));
    StepKeeps(s, digest, Delete(user, at));
    RunKeeps(gone, digest, run);
    if k < |s.keys| {
      assert gone.keys[k].user == user && gone.keys[k].revokedAt.Some?;
    }
  }

  /** There may be such a key: one made, by a request that found the session just before, once the account is deleted.
      It works again when the account does. */
  lemma {:induction false} KeyMadeOnceDeleted(s: State, digest: Digest, user: nat, token: string, at: int)
    requires Valid(s) && KEY_PREFIX <= token && HashIsFree(s.keys, digest(token))
    ensures var gone := Play(s, digest, [Delete(user, at), Create(user, digest(token))]);
            && Found(gone, digest, token) == None
            && Found(Perform(gone, digest, Restore(user, false)), digest, token) == Some(|s.keys|)
  {
    var deleted := Perform(s, digest, Delete(user, at));
    PlayTwo(s, digest, Delete(user, at), Create(user, digest(token)));
    StepKeeps(s, digest, Delete(user, at));
    assert forall k :: 0 <= k < |s.keys| ==> deleted.keys[k].hash == s.keys[k].hash;
    var gone := Perform(deleted, digest, Create(user, digest(token)));
    StepKeeps(deleted, digest, Create(user, digest(token)));
    LiveIsFound(Perform(gone, digest, Restore(user, false)), digest, token, |s.keys|);
  }

  /** The account whose day a step is a reason to record, and the time. */
  function ActiveIn(s: State, digest: Digest, run: seq<Step>, i: nat): Option<(nat, int)>
    requires i < |run|
  {
    var before := Play(s, digest, run[..i]);
    var k := LetIn(s, digest, run, i);
    if run[i].Export? || run[i].Visit? || run[i].SignIn? then Some((run[i].user, UtcDay(run[i].at)))
    else if k.Some? then Some((before.keys[k.value].user, UtcDay(run[i].at)))
    else None
  }

  lemma {:induction false} StepRecordsItsDay(s: State, digest: Digest, step: Step)
    requires Valid(s)
    ensures Perform(s, digest, step).days.Keys == s.days.Keys + (
      if step.Export? || step.Visit? || step.SignIn? then {(step.user, UtcDay(step.at))}
      else if step.Request? && Found(s, digest, step.token).Some?
      then {(s.keys[Found(s, digest, step.token).value].user, UtcDay(step.at))}
      else {})
  {
  }

  /** Though most requests write nothing, the days recorded are exactly those there were, those of a request let in,
      by the account's session or any of its keys, and those of an export: in any run, whatever order its times come
      in. */
  lemma {:induction false} DaysAreExactlyThoseActive(s: State, digest: Digest, run: seq<Step>, day: (nat, int))
    requires Valid(s)
    ensures day in Play(s, digest, run).days
            <==> day in s.days || exists i :: 0 <= i < |run| && ActiveIn(s, digest, run, i) == Some(day)
  {
    if run != [] {
      var last := |run| - 1;
      var init := run[..last];
      DaysAreExactlyThoseActive(s, digest, init, day);
      RunKeeps(s, digest, init);
      StepRecordsItsDay(Play(s, digest, init), digest, run[last]);
      forall i | 0 <= i < last ensures ActiveIn(s, digest, init, i) == ActiveIn(s, digest, run, i) {
        assert init[..i] == run[..i];
      }
      assert day in Play(s, digest, run).days
        <==> day in Play(s, digest, init).days || ActiveIn(s, digest, run, last) == Some(day);
    }
  }

  /** The exports of the account's on the day, in a run. */
  function ExportsOn(run: seq<Step>, day: (nat, int)): nat {
    if run == [] then 0
    else
      var step := run[|run| - 1];
      ExportsOn(run[..|run| - 1], day) + (if step.Export? && (step.user, UtcDay(step.at)) == day then 1 else 0)
  }

  function ExportsIn(days: Days, day: (nat, int)): nat {
    if day in days then days[day] else 0
  }

  /** Every export is counted, once, on its day; no request is. */
  lemma {:induction false} ExportsAreCounted(s: State, digest: Digest, run: seq<Step>, day: (nat, int))
    ensures ExportsIn(Play(s, digest, run).days, day) == ExportsIn(s.days, day) + ExportsOn(run, day)
  {
    if run != [] {
      ExportsAreCounted(s, digest, run[..|run| - 1], day);
    }
  }

  /** The times of the requests one key let in. */
  function TimesOf(s: State, digest: Digest, run: seq<Step>, k: nat): seq<int> {
    if run == [] then []
    else
      var init := run[..|run| - 1];
      TimesOf(s, digest, init, k) + (if LetIn(s, digest, run, |run| - 1) == Some(k) then [run[|run| - 1].at] else [])
  }

  /** In any run, with other keys' requests among its own, a key's last use is what its own requests make it. */
  lemma {:induction false} LastUseIsItsOwn(s: State, digest: Digest, run: seq<Step>, k: nat)
    requires Valid(s) && k < |s.keys|
    ensures k < |Play(s, digest, run).keys|
    ensures Play(s, digest, run).keys[k].lastUsed == LastWritten(s.keys[k].lastUsed, TimesOf(s, digest, run, k), LAST_USED_EVERY)
  {
    if run != [] {
      var init, step := run[..|run| - 1], run[|run| - 1];
      LastUseIsItsOwn(s, digest, init, k);
      RunKeeps(s, digest, init);
      StepKeeps(Play(s, digest, init), digest, step);
      StepUses(Play(s, digest, init), digest, step, k);
      var times := TimesOf(s, digest, init, k);
      if LetIn(s, digest, run, |run| - 1) == Some(k) {
        assert (times + [step.at])[..|times|] == times;
      } else {
        assert times + [] == times;
      }
    }
  }

  lemma {:induction false} StepUses(s: State, digest: Digest, step: Step, k: nat)
    requires k < |s.keys|
    ensures var after := Perform(s, digest, step);
            && k < |after.keys|
            && after.keys[k].lastUsed
               == if step.Request? && Found(s, digest, step.token) == Some(k) && Due(s.keys[k].lastUsed, step.at, LAST_USED_EVERY)
                  then Some(step.at) else s.keys[k].lastUsed
  {
  }

  /** The rows a run writes to one key for being used. */
  function WritesTo(s: State, digest: Digest, run: seq<Step>, k: nat): nat
    requires Valid(s) && k < |s.keys|
  {
    if run == [] then 0
    else
      var init, step := run[..|run| - 1], run[|run| - 1];
      RunKeeps(s, digest, init);
      WritesTo(s, digest, init, k)
      + (if LetIn(s, digest, run, |run| - 1) == Some(k) && Due(Play(s, digest, init).keys[k].lastUsed, step.at, LAST_USED_EVERY)
         then 1 else 0)
  }

  lemma {:induction false} WritesAreItsOwn(s: State, digest: Digest, run: seq<Step>, k: nat)
    requires Valid(s) && k < |s.keys|
    ensures WritesTo(s, digest, run, k) == Writes(s.keys[k].lastUsed, TimesOf(s, digest, run, k), LAST_USED_EVERY)
  {
    if run != [] {
      var init, step := run[..|run| - 1], run[|run| - 1];
      WritesAreItsOwn(s, digest, init, k);
      LastUseIsItsOwn(s, digest, init, k);
      var times := TimesOf(s, digest, init, k);
      if LetIn(s, digest, run, |run| - 1) == Some(k) {
        assert (times + [step.at])[..|times|] == times;
      } else {
        assert times + [] == times;
      }
    }
  }

  /** In any run in which a key is used in order of time it is written to once, and then at most once for each five
      minutes between its first use and its last, and once for each midnight; used before, it has no first one over. */
  lemma {:induction false} KeyWritesAreBounded(s: State, digest: Digest, run: seq<Step>, k: nat)
    requires Valid(s) && k < |s.keys| && InOrder(TimesOf(s, digest, run, k))
    ensures var times, last := TimesOf(s, digest, run, k), s.keys[k].lastUsed;
            && WritesTo(s, digest, run, k) <= (if times == [] then 0 else 1 + Spans(times[0], times[|times| - 1], LAST_USED_EVERY))
            && (times != [] && last.Some? && last.value <= times[0] ==>
                  WritesTo(s, digest, run, k) <= Spans(last.value, times[|times| - 1], LAST_USED_EVERY))
  {
    var times, last := TimesOf(s, digest, run, k), s.keys[k].lastUsed;
    WritesAreItsOwn(s, digest, run, k);
    if times != [] {
      WritesAreBounded(last, times, LAST_USED_EVERY);
      if last.Some? && last.value <= times[0] {
        WritesSinceAreBounded(last.value, times, LAST_USED_EVERY);
      }
    }
  }

  /** And what is written of the last use is of the same day, and less than five minutes before. */
  lemma {:induction false} LastUseIsFresh(s: State, digest: Digest, token: string, at: int)
    requires Found(s, digest, token).Some?
    ensures var k := Found(s, digest, token).value;
            var used := Perform(s, digest, Request(token, at)).keys[k].lastUsed;
            used.Some? && UtcDay(used.value) == UtcDay(at) && at - used.value < LAST_USED_EVERY
  {
  }
}

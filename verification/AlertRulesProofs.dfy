/** What following and unfollowing keep, in any order and under any plan: two caps, one rule per kind and
    target, and every setting the user made. */
module AlertRulesProofs {
  import opened Wrappers
  import opened AlertRules
  import EmailLists

  /** Only the off switch differs, row by row; rules are added at the end and none goes. */
  predicate KeepsSettings(before: seq<Rule>, after: seq<Rule>) {
    && |before| <= |after|
    && forall i :: 0 <= i < |before| ==> after[i] == before[i].(active := after[i].active)
  }

  function One(b: bool): nat {
    if b then 1 else 0
  }

  lemma {:induction false} OnWithRow(rules: seq<Rule>, i: nat, row: Rule, user: nat, instant: bool)
    requires i < |rules|
    ensures RulesOn(rules[i := row], user, instant) + One(CountsAsOn(rules[i], user, instant))
            == RulesOn(rules, user, instant) + One(CountsAsOn(row, user, instant))
    ensures RulesKept(rules[i := row], user) + One(rules[i].user == user) == RulesKept(rules, user) + One(row.user == user)
  {
    var last := |rules| - 1;
    if i == last {
      assert rules[i := row][..last] == rules[..last];
    } else {
      OnWithRow(rules[..last], i, row, user, instant);
      assert rules[i := row][..last] == rules[..last][i := row];
    }
  }

  lemma {:induction false} OnWithMore(rules: seq<Rule>, row: Rule, user: nat, instant: bool)
    ensures RulesOn(rules + [row], user, instant) == RulesOn(rules, user, instant) + One(CountsAsOn(row, user, instant))
    ensures RulesKept(rules + [row], user) == RulesKept(rules, user) + One(row.user == user)
  {
    assert (rules + [row])[..|rules|] == rules;
  }

  lemma {:induction false} FindIs(rules: seq<Rule>, user: nat, kind: Kind, target: Target, i: nat)
    requires Unique(rules) && i < |rules| && IsAbout(rules[i], user, kind, target)
    ensures Find(rules, user, kind, target) == Some(i)
  {
  }

  /** The rows of one kind and target of the user's may have changed their switch, or have been added; no other has. */
  predicate OnlyTouches(before: seq<Rule>, after: seq<Rule>, user: nat, kinds: set<Kind>, target: Target) {
    && KeepsSettings(before, after)
    && (forall i :: 0 <= i < |before| && after[i] != before[i] ==>
          before[i].user == user && before[i].target == target && before[i].kind in kinds && !before[i].active && after[i].active)
    && (forall i :: |before| <= i < |after| ==> after[i].user == user && after[i].target == target && after[i].kind in kinds)
  }

  function Kinds(presets: seq<Preset>): set<Kind> {
    set p | p in presets :: p.kind
  }

  lemma {:induction false} TouchesAdd(a: seq<Rule>, b: seq<Rule>, c: seq<Rule>, user: nat, some: set<Kind>, more: set<Kind>, target: Target)
    requires OnlyTouches(a, b, user, some, target) && OnlyTouches(b, c, user, more, target)
    ensures OnlyTouches(a, c, user, some + more, target)
  {
  }

  lemma {:induction false} UpsertTouches(rules: seq<Rule>, user: nat, preset: Preset, target: Target)
    requires Unique(rules)
    ensures Unique(Upsert(rules, user, preset, target))
    ensures OnlyTouches(rules, Upsert(rules, user, preset, target), user, {preset.kind}, target)
  {
  }

  /** One preset turned on: one rule more is on if it was pending, one more is kept if it was missing. */
  lemma {:induction false} UpsertCounts(rules: seq<Rule>, user: nat, preset: Preset, target: Target, instant: bool)
    requires Unique(rules) && Sends(instant, preset.kind)
    ensures var after := Upsert(rules, user, preset, target);
            && RulesKept(after, user) == RulesKept(rules, user) + One(IsMissing(rules, user, preset, target))
            && RulesOn(after, user, instant) == RulesOn(rules, user, instant) + One(IsPending(rules, user, preset, target, true))
            && !IsPending(after, user, preset, target, true)
  {
    var after, at := Upsert(rules, user, preset, target), Find(rules, user, preset.kind, target);
    UpsertTouches(rules, user, preset, target);
    if at.Some? {
      OnWithRow(rules, at.value, after[at.value], user, instant);
      FindIs(after, user, preset.kind, target, at.value);
    } else {
      OnWithMore(rules, after[|rules|], user, instant);
      FindIs(after, user, preset.kind, target, |rules|);
    }
  }

  predicate DistinctKinds(presets: seq<Preset>) {
    forall i, j :: 0 <= i < j < |presets| ==> presets[i].kind != presets[j].kind
  }

  lemma {:induction false} WriteTouches(rules: seq<Rule>, user: nat, presets: seq<Preset>, target: Target)
    requires Unique(rules)
    ensures Unique(Write(rules, user, presets, target))
    ensures OnlyTouches(rules, Write(rules, user, presets, target), user, Kinds(presets), target)
  {
    if presets != [] {
      var init, last := presets[..|presets| - 1], presets[|presets| - 1];
      WriteTouches(rules, user, init, target);
      var middle := Write(rules, user, init, target);
      UpsertTouches(middle, user, last, target);
      TouchesAdd(rules, middle, Upsert(middle, user, last, target), user, Kinds(init), {last.kind}, target);
      assert presets == init + [last];
      assert Kinds(presets) == Kinds(init) + {last.kind};
    }
  }

  /** A preset none of whose rules was touched is as pending, and as missing, as it was. */
  lemma {:induction false} UntouchedStands(before: seq<Rule>, after: seq<Rule>, user: nat, kinds: set<Kind>, target: Target, p: Preset, about: Target)
    requires Unique(after) && OnlyTouches(before, after, user, kinds, target) && (p.kind !in kinds || about != target)
    ensures Find(after, user, p.kind, about) == Find(before, user, p.kind, about)
    ensures IsMissing(after, user, p, about) == IsMissing(before, user, p, about)
    ensures forall reactivate :: IsPending(after, user, p, about, reactivate) == IsPending(before, user, p, about, reactivate)
  {
    var was := Find(before, user, p.kind, about);
    if was.Some? {
      FindIs(after, user, p.kind, about, was.value);
    }
  }

  lemma {:induction false} DistinctInit(init: seq<Preset>, last: Preset)
    requires DistinctKinds(init + [last])
    ensures DistinctKinds(init) && last.kind !in Kinds(init)
  {
    forall i | 0 <= i < |init| ensures init[i].kind != last.kind {
      assert (init + [last])[i] == init[i] && (init + [last])[|init|] == last;
    }
    forall i, j | 0 <= i < j < |init| ensures init[i].kind != init[j].kind {
      assert (init + [last])[i] == init[i] && (init + [last])[j] == init[j];
    }
  }

  /** Presets written one after the other: each is one more on, each that was missing one more kept. */
  lemma {:induction false} WriteCounts(rules: seq<Rule>, user: nat, presets: seq<Preset>, target: Target, instant: bool)
    requires Unique(rules) && DistinctKinds(presets)
    requires forall p :: p in presets ==> Sends(instant, p.kind) && IsPending(rules, user, p, target, true)
    ensures var after := Write(rules, user, presets, target);
            && RulesKept(after, user) == RulesKept(rules, user) + |WithRule(rules, user, presets, target, false)|
            && RulesOn(after, user, instant) == RulesOn(rules, user, instant) + |presets|
            && (forall p :: p in presets ==> !IsPending(after, user, p, target, true))
  {
    if presets != [] {
      var init, last := presets[..|presets| - 1], presets[|presets| - 1];
      assert presets == init + [last];
      DistinctInit(init, last);
      WriteCounts(rules, user, init, target, instant);
      WriteTouches(rules, user, init, target);
      var middle := Write(rules, user, init, target);
      UntouchedStands(rules, middle, user, Kinds(init), target, last, target);
      UpsertCounts(middle, user, last, target, instant);
      OneMissing(rules, user, init, last, target);
      StillOn(middle, user, init, last, target);
    }
  }

  lemma {:induction false} OneMissing(rules: seq<Rule>, user: nat, init: seq<Preset>, last: Preset, target: Target)
    ensures |WithRule(rules, user, init + [last], target, false)|
            == |WithRule(rules, user, init, target, false)| + One(IsMissing(rules, user, last, target))
  {
    WithRuleConcat(rules, user, init, [last], target, false);
    assert [last][1..] == [];
  }

  /** Turning on one more rule leaves those turned on before as they are. */
  lemma {:induction false} StillOn(rules: seq<Rule>, user: nat, init: seq<Preset>, last: Preset, target: Target)
    requires Unique(rules) && last.kind !in Kinds(init) && forall p :: p in init ==> !IsPending(rules, user, p, target, true)
    ensures forall p :: p in init ==> !IsPending(Upsert(rules, user, last, target), user, p, target, true)
  {
    UpsertTouches(rules, user, last, target);
    forall p | p in init ensures !IsPending(Upsert(rules, user, last, target), user, p, target, true) {
      UntouchedStands(rules, Upsert(rules, user, last, target), user, {last.kind}, target, p, target);
    }
  }

  lemma {:induction false} Regroup(first: seq<Preset>, some: seq<Preset>, more: seq<Preset>)
    ensures first + (some + more) == first + some + more
  {
  }

  function KeptOf(rules: seq<Rule>, user: nat, preset: Preset, target: Target, has: bool): seq<Preset> {
    if IsMissing(rules, user, preset, target) != has then [preset] else []
  }

  lemma {:induction false} WithRuleConcat(rules: seq<Rule>, user: nat, a: seq<Preset>, b: seq<Preset>, target: Target, has: bool)
    ensures WithRule(rules, user, a + b, target, has) == WithRule(rules, user, a, target, has) + WithRule(rules, user, b, target, has)
  {
    if a == [] {
      assert a + b == b;
    } else {
      var rest := a[1..];
      WithRuleConcat(rules, user, rest, b, target, has);
      assert (a + b)[1..] == rest + b;
      Regroup(KeptOf(rules, user, a[0], target, has), WithRule(rules, user, rest, target, has), WithRule(rules, user, b, target, has));
    }
  }

  lemma {:induction false} DistinctWith(first: Preset, rest: seq<Preset>, selected: seq<Preset>)
    requires DistinctKinds([first] + rest) && DistinctKinds(selected) && forall p :: p in selected ==> p in rest
    ensures DistinctKinds([first] + selected)
  {
    forall j | 0 <= j < |selected| ensures selected[j].kind != first.kind {
      assert selected[j] in selected;
      var k :| 0 <= k < |rest| && rest[k] == selected[j];
      assert ([first] + rest)[k + 1] == rest[k] && ([first] + rest)[0] == first;
    }
  }

  lemma {:induction false} DistinctRest(first: Preset, rest: seq<Preset>)
    requires DistinctKinds([first] + rest)
    ensures DistinctKinds(rest)
  {
    forall i, j | 0 <= i < j < |rest| ensures rest[i].kind != rest[j].kind {
      assert ([first] + rest)[i + 1] == rest[i] && ([first] + rest)[j + 1] == rest[j];
    }
  }

  /** A selection has only what it selects. */
  lemma {:induction false} WithRuleSelects(rules: seq<Rule>, user: nat, presets: seq<Preset>, target: Target, has: bool)
    ensures forall p :: p in WithRule(rules, user, presets, target, has) <==> p in presets && IsMissing(rules, user, p, target) != has
    ensures |WithRule(rules, user, presets, target, has)| <= |presets|
  {
    if presets != [] {
      WithRuleSelects(rules, user, presets[1..], target, has);
      assert presets == [presets[0]] + presets[1..];
    }
  }

  /** And keeps its members' kinds apart. */
  lemma {:induction false} WithRuleDistinct(rules: seq<Rule>, user: nat, presets: seq<Preset>, target: Target, has: bool)
    requires DistinctKinds(presets)
    ensures DistinctKinds(WithRule(rules, user, presets, target, has))
  {
    if presets != [] {
      var first, rest := presets[0], presets[1..];
      assert presets == [first] + rest;
      DistinctRest(first, rest);
      WithRuleDistinct(rules, user, rest, target, has);
      WithRuleSelects(rules, user, rest, target, has);
      DistinctWith(first, rest, WithRule(rules, user, rest, target, has));
      assert [] + WithRule(rules, user, rest, target, has) == WithRule(rules, user, rest, target, has);
    }
  }

  lemma {:induction false} PendingSelects(rules: seq<Rule>, user: nat, presets: seq<Preset>, target: Target, reactivate: bool)
    ensures forall p :: p in Pending(rules, user, presets, target, reactivate) <==> p in presets && IsPending(rules, user, p, target, reactivate)
  {
    if presets != [] {
      PendingSelects(rules, user, presets[1..], target, reactivate);
      assert presets == [presets[0]] + presets[1..];
    }
  }

  lemma {:induction false} PendingDistinct(rules: seq<Rule>, user: nat, presets: seq<Preset>, target: Target, reactivate: bool)
    requires DistinctKinds(presets)
    ensures DistinctKinds(Pending(rules, user, presets, target, reactivate))
  {
    if presets != [] {
      var first, rest := presets[0], presets[1..];
      var pending := Pending(rules, user, rest, target, reactivate);
      assert presets == [first] + rest;
      DistinctRest(first, rest);
      PendingDistinct(rules, user, rest, target, reactivate);
      PendingSelects(rules, user, rest, target, reactivate);
      DistinctWith(first, rest, pending);
      assert [] + pending == pending;
    }
  }

  /** What fits is a selection of what is pending: of kinds the plan sends, and no more than there is room for. */
  lemma {:induction false} FitsArePending(rules: seq<Rule>, user: nat, may: Allowance, presets: seq<Preset>, target: Target, reactivate: bool)
    requires DistinctKinds(presets)
    ensures var fits := Fits(rules, user, may, Pending(rules, user, presets, target, reactivate), target);
            && DistinctKinds(fits)
            && (forall p :: p in fits ==> p in presets && IsPending(rules, user, p, target, reactivate))
            && (may.rules.Some? ==> |fits| <= Room(rules, user, may).value)
  {
    var todo := Pending(rules, user, presets, target, reactivate);
    var first := Prefix(todo, Room(rules, user, may));
    PendingSelects(rules, user, presets, target, reactivate);
    PendingDistinct(rules, user, presets, target, reactivate);
    WithRuleSelects(rules, user, first, target, true);
    WithRuleDistinct(rules, user, first, target, true);
    assert forall p :: p in first ==> p in todo;
  }

  /** Making the rules that fit and are missing keeps within the bound, or there are none to make. */
  lemma {:induction false} FitsKeepBound(rules: seq<Rule>, user: nat, may: Allowance, todo: seq<Preset>, target: Target)
    ensures var missing := WithRule(rules, user, Fits(rules, user, may, todo, target), target, false);
            RulesKept(rules, user) + |missing| <= MAX_ALERT_RULES || missing == []
  {
    var first := Prefix(todo, Room(rules, user, may));
    var rest := todo[|first|..];
    assert todo == first + rest;
    WithRuleConcat(rules, user, first, rest, target, false);
    WithRuleSelects(rules, user, first, target, true);
    NoneMissing(rules, user, WithRule(rules, user, first, target, true), target);
  }

  lemma {:induction false} NoneMissing(rules: seq<Rule>, user: nat, presets: seq<Preset>, target: Target)
    requires forall p :: p in presets ==> !IsMissing(rules, user, p, target)
    ensures WithRule(rules, user, presets, target, false) == []
  {
    if presets != [] {
      NoneMissing(rules, user, presets[1..], target);
    }
  }

  lemma {:induction false} PresetsAreSent(may: Allowance)
    ensures DistinctKinds(PresetsFor(may)) && forall p :: p in PresetsFor(may) ==> Sends(may.instant, p.kind)
  {
  }

  function Max(a: nat, b: nat): nat {
    if a < b then b else a
  }

  /** Following turns on rules of the user's about what was followed, or the digest, and touches nothing else. */
  lemma {:induction false} FollowTouches(rules: seq<Rule>, user: nat, may: Allowance, target: Target)
    requires Unique(rules)
    ensures Unique(OnFollow(rules, user, may, target))
    ensures OnlyTouches(rules, OnFollow(rules, user, may, target), user, Kinds(PresetsFor(may)), TargetFor(may, target))
  {
    if target.OfFiler? {
      var about := TargetFor(may, target);
      var todo := Pending(rules, user, PresetsFor(may), about, Sends(may.instant, FilerFiled));
      var fits := Fits(rules, user, may, todo, about);
      PresetsAreSent(may);
      FitsArePending(rules, user, may, PresetsFor(may), about, Sends(may.instant, FilerFiled));
      WriteTouches(rules, user, fits, about);
      assert Kinds(fits) <= Kinds(PresetsFor(may));
    }
  }

  /** Following raises neither count above the larger of what it was and its cap. */
  lemma {:induction false} FollowKeepsCaps(rules: seq<Rule>, user: nat, may: Allowance, target: Target)
    requires Unique(rules)
    ensures var after := OnFollow(rules, user, may, target);
            && (may.rules.Some? ==> RulesOn(after, user, may.instant) <= Max(RulesOn(rules, user, may.instant), may.rules.value))
            && RulesKept(after, user) <= Max(RulesKept(rules, user), MAX_ALERT_RULES)
  {
    if target.OfFiler? {
      PresetsAreSent(may);
      WritingKeepsCaps(rules, user, may, PresetsFor(may), TargetFor(may, target), Sends(may.instant, FilerFiled));
    }
  }

  lemma {:induction false} WritingKeepsCaps(rules: seq<Rule>, user: nat, may: Allowance, presets: seq<Preset>, about: Target, reactivate: bool)
    requires Unique(rules) && DistinctKinds(presets) && forall p :: p in presets ==> Sends(may.instant, p.kind)
    ensures var after := Write(rules, user, Fits(rules, user, may, Pending(rules, user, presets, about, reactivate), about), about);
            && (may.rules.Some? ==> RulesOn(after, user, may.instant) <= Max(RulesOn(rules, user, may.instant), may.rules.value))
            && RulesKept(after, user) <= Max(RulesKept(rules, user), MAX_ALERT_RULES)
  {
    var todo := Pending(rules, user, presets, about, reactivate);
    FitsArePending(rules, user, may, presets, about, reactivate);
    FitsKeepBound(rules, user, may, todo, about);
    AffordableKeepsCaps(rules, user, may, Fits(rules, user, may, todo, about), about);
  }

  /** What is within the room left and the bound may be written. */
  lemma {:induction false} AffordableKeepsCaps(rules: seq<Rule>, user: nat, may: Allowance, fits: seq<Preset>, about: Target)
    requires Unique(rules) && DistinctKinds(fits)
    requires forall p :: p in fits ==> Sends(may.instant, p.kind) && IsPending(rules, user, p, about, true)
    requires may.rules.Some? ==> |fits| <= Room(rules, user, may).value
    requires var missing := WithRule(rules, user, fits, about, false);
             RulesKept(rules, user) + |missing| <= MAX_ALERT_RULES || missing == []
    ensures var after := Write(rules, user, fits, about);
            && (may.rules.Some? ==> RulesOn(after, user, may.instant) <= Max(RulesOn(rules, user, may.instant), may.rules.value))
            && RulesKept(after, user) <= Max(RulesKept(rules, user), MAX_ALERT_RULES)
  {
    WriteCounts(rules, user, fits, about, may.instant);
  }

  /** A digest turned off is never turned back on by following. */
  lemma {:induction false} DigestStaysOff(rules: seq<Rule>, user: nat, may: Allowance, target: Target, i: nat)
    requires Unique(rules) && i < |rules| && rules[i].kind == SeasonDigest && rules[i].target == NoTarget
    ensures i < |OnFollow(rules, user, may, target)| && OnFollow(rules, user, may, target)[i] == rules[i]
  {
    FollowTouches(rules, user, may, target);
    if may.instant && target.OfFiler? {
      assert OnFollow(rules, user, may, target)[i] == rules[i];
    } else if target.OfFiler? {
      DigestIsNotPending(rules, user, may, i);
    }
  }

  lemma {:induction false} DigestIsNotPending(rules: seq<Rule>, user: nat, may: Allowance, i: nat)
    requires Unique(rules) && i < |rules| && rules[i].kind == SeasonDigest && rules[i].target == NoTarget && !may.instant
    ensures rules[i].user == user ==> Pending(rules, user, DIGEST_PRESETS, NoTarget, false) == []
  {
    if rules[i].user == user {
      FindIs(rules, user, SeasonDigest, NoTarget, i);
    }
  }

  // ----- following again -----

  lemma {:induction false} PendingAfter(rules: seq<Rule>, after: seq<Rule>, user: nat, presets: seq<Preset>, target: Target, reactivate: bool, done: seq<Preset>)
    requires forall p :: p in presets ==>
               IsPending(after, user, p, target, reactivate) == (IsPending(rules, user, p, target, reactivate) && p !in done)
    ensures Pending(after, user, presets, target, reactivate) == Without(Pending(rules, user, presets, target, reactivate), done)
  {
    if presets != [] {
      assert presets[0] in presets;
      PendingAfter(rules, after, user, presets[1..], target, reactivate, done);
      WithoutConcat(if IsPending(rules, user, presets[0], target, reactivate) then [presets[0]] else [],
                    Pending(rules, user, presets[1..], target, reactivate), done);
    }
  }

  function Without(presets: seq<Preset>, done: seq<Preset>): seq<Preset> {
    if presets == [] then []
    else (if presets[0] in done then [] else [presets[0]]) + Without(presets[1..], done)
  }

  lemma {:induction false} WithoutConcat(a: seq<Preset>, b: seq<Preset>, done: seq<Preset>)
    ensures Without(a + b, done) == Without(a, done) + Without(b, done)
  {
    if a == [] {
      assert a + b == b;
    } else {
      WithoutConcat(a[1..], b, done);
      assert (a + b)[1..] == a[1..] + b;
      Regroup(if a[0] in done then [] else [a[0]], Without(a[1..], done), Without(b, done));
    }
  }

  lemma {:induction false} WithoutAll(presets: seq<Preset>, done: seq<Preset>)
    requires forall p :: p in presets ==> p in done
    ensures Without(presets, done) == []
  {
    if presets != [] {
      WithoutAll(presets[1..], done);
    }
  }

  lemma {:induction false} WithoutNone(presets: seq<Preset>, done: seq<Preset>)
    requires forall p :: p in presets ==> p !in done
    ensures Without(presets, done) == presets
  {
    if presets != [] {
      WithoutNone(presets[1..], done);
    }
  }

  /** Taking out those that have a rule leaves those that have not. */
  lemma {:induction false} WithoutThoseWithRule(rules: seq<Rule>, user: nat, presets: seq<Preset>, target: Target, done: seq<Preset>)
    requires forall p :: p in presets ==> (p in done <==> !IsMissing(rules, user, p, target))
    ensures Without(presets, done) == WithRule(rules, user, presets, target, false)
    ensures |presets| == |WithRule(rules, user, presets, target, false)| + |WithRule(rules, user, presets, target, true)|
  {
    if presets != [] {
      WithoutThoseWithRule(rules, user, presets[1..], target, done);
    }
  }

  lemma {:induction false} NoneOfTheMissing(rules: seq<Rule>, user: nat, presets: seq<Preset>, target: Target)
    requires forall p :: p in presets ==> IsMissing(rules, user, p, target)
    ensures WithRule(rules, user, presets, target, true) == [] && WithRule(rules, user, presets, target, false) == presets
  {
    if presets != [] {
      NoneOfTheMissing(rules, user, presets[1..], target);
    }
  }

  lemma {:induction false} SameSelection(rules: seq<Rule>, after: seq<Rule>, user: nat, presets: seq<Preset>, target: Target, has: bool)
    requires forall p :: p in presets ==> IsMissing(after, user, p, target) == IsMissing(rules, user, p, target)
    ensures WithRule(after, user, presets, target, has) == WithRule(rules, user, presets, target, has)
  {
    if presets != [] {
      SameSelection(rules, after, user, presets[1..], target, has);
    }
  }

  /** What a second follow finds pending: what the first found, but for what the first turned on. */
  lemma {:induction false} PendingAgain(rules: seq<Rule>, user: nat, presets: seq<Preset>, about: Target, reactivate: bool, fits: seq<Preset>, instant: bool)
    requires Unique(rules) && DistinctKinds(presets) && DistinctKinds(fits)
    requires forall p :: p in presets ==> Sends(instant, p.kind)
    requires forall p :: p in fits ==> p in presets && IsPending(rules, user, p, about, reactivate)
    ensures var after := Write(rules, user, fits, about);
            Pending(after, user, presets, about, reactivate) == Without(Pending(rules, user, presets, about, reactivate), fits)
  {
    var after := Write(rules, user, fits, about);
    WriteCounts(rules, user, fits, about, instant);
    WriteTouches(rules, user, fits, about);
    forall p | p in presets
      ensures IsPending(after, user, p, about, reactivate) == (IsPending(rules, user, p, about, reactivate) && p !in fits)
    {
      if p !in fits {
        NotAmongKinds(presets, fits, p);
        UntouchedStands(rules, after, user, Kinds(fits), about, p, about);
      }
    }
    PendingAfter(rules, after, user, presets, about, reactivate, fits);
  }

  lemma {:induction false} NotAmongKinds(presets: seq<Preset>, fits: seq<Preset>, p: Preset)
    requires DistinctKinds(presets) && p in presets && p !in fits && forall q :: q in fits ==> q in presets
    ensures p.kind !in Kinds(fits)
  {
    forall q | q in fits ensures q.kind != p.kind {
      var i :| 0 <= i < |presets| && presets[i] == p;
      var j :| 0 <= j < |presets| && presets[j] == q;
    }
  }

  lemma {:induction false} NothingToFit(rules: seq<Rule>, user: nat, may: Allowance, todo: seq<Preset>, about: Target)
    requires Prefix(todo, Room(rules, user, may)) == []
    ensures Fits(rules, user, may, todo, about) == []
  {
  }

  lemma {:induction false} RoomAfter(rules: seq<Rule>, after: seq<Rule>, user: nat, may: Allowance, n: nat)
    requires RulesOn(after, user, may.instant) == RulesOn(rules, user, may.instant) + n
    requires may.rules.Some? ==> n <= Room(rules, user, may).value
    ensures may.rules.Some? ==> Room(after, user, may) == Some(Room(rules, user, may).value - n)
  {
  }

  /** After a follow that was not held back by the bound, nothing fits: all is on, or there is no more room. */
  lemma {:induction false} NothingFitsAgain(rules: seq<Rule>, user: nat, may: Allowance, presets: seq<Preset>, about: Target, reactivate: bool)
    requires Unique(rules) && DistinctKinds(presets) && forall p :: p in presets ==> Sends(may.instant, p.kind)
    ensures var todo := Pending(rules, user, presets, about, reactivate);
            var fits := Fits(rules, user, may, todo, about);
            var after := Write(rules, user, fits, about);
            fits == Prefix(todo, Room(rules, user, may)) ==>
              Fits(after, user, may, Pending(after, user, presets, about, reactivate), about) == []
  {
    var todo := Pending(rules, user, presets, about, reactivate);
    var fits := Fits(rules, user, may, todo, about);
    FitsArePending(rules, user, may, presets, about, reactivate);
    if fits == Prefix(todo, Room(rules, user, may)) {
      FullAgain(rules, user, may, presets, about, reactivate, fits);
    }
  }

  lemma {:induction false} FullAgain(rules: seq<Rule>, user: nat, may: Allowance, presets: seq<Preset>, about: Target, reactivate: bool, fits: seq<Preset>)
    requires Unique(rules) && DistinctKinds(presets) && forall p :: p in presets ==> Sends(may.instant, p.kind)
    requires DistinctKinds(fits) && forall p :: p in fits ==> p in presets && IsPending(rules, user, p, about, reactivate)
    requires fits == Prefix(Pending(rules, user, presets, about, reactivate), Room(rules, user, may))
    ensures var after := Write(rules, user, fits, about);
            Fits(after, user, may, Pending(after, user, presets, about, reactivate), about) == []
  {
    var todo, after := Pending(rules, user, presets, about, reactivate), Write(rules, user, fits, about);
    WriteCounts(rules, user, fits, about, may.instant);
    PendingAgain(rules, user, presets, about, reactivate, fits, may.instant);
    var again := Without(todo, fits);
    RoomAfter(rules, after, user, may, |fits|);
    if fits == todo {
      WithoutAll(todo, todo);
    }
    NothingToFit(after, user, may, again, about);
  }

  predicate HeldBack(rules: seq<Rule>, user: nat, todo: seq<Preset>, about: Target) {
    var missing := |WithRule(rules, user, todo, about, false)|;
    missing > 0 && RulesKept(rules, user) + missing > MAX_ALERT_RULES
  }

  /** After a follow that the bound held back, the rules still pending and in reach are those it would not make. */
  lemma {:induction false} HeldBackAgain(rules: seq<Rule>, user: nat, may: Allowance, presets: seq<Preset>, about: Target, reactivate: bool)
    requires Unique(rules) && DistinctKinds(presets) && forall p :: p in presets ==> Sends(may.instant, p.kind)
    ensures var todo := Pending(rules, user, presets, about, reactivate);
            var after := Write(rules, user, Fits(rules, user, may, todo, about), about);
            HeldBack(rules, user, todo, about) ==>
              Fits(after, user, may, Pending(after, user, presets, about, reactivate), about) == []
  {
    var todo := Pending(rules, user, presets, about, reactivate);
    if HeldBack(rules, user, todo, about) {
      var first := Prefix(todo, Room(rules, user, may));
      var rest := todo[|first|..];
      assert todo == first + rest;
      var fits := WithRule(rules, user, first, about, true);
      assert fits == Fits(rules, user, may, todo, about);
      FitsArePending(rules, user, may, presets, about, reactivate);
      MadeNone(rules, user, may, presets, about, reactivate, fits, first);
      PendingAgain(rules, user, presets, about, reactivate, fits, may.instant);
      PendingDistinct(rules, user, presets, about, reactivate);
      StillPending(rules, user, first, rest, about, fits);
      PendingSelects(rules, user, presets, about, reactivate);
      HeldBackStill(rules, Write(rules, user, fits, about), user, may, first, rest, about, |fits|);
    }
  }

  /** Turning on rules there are makes none, and leaves those missing missing. */
  lemma {:induction false} MadeNone(rules: seq<Rule>, user: nat, may: Allowance, presets: seq<Preset>, about: Target, reactivate: bool,
                                    fits: seq<Preset>, first: seq<Preset>)
    requires Unique(rules) && DistinctKinds(presets) && forall p :: p in presets ==> Sends(may.instant, p.kind)
    requires DistinctKinds(fits) && forall p :: p in fits ==> p in presets && IsPending(rules, user, p, about, reactivate)
    requires fits == WithRule(rules, user, first, about, true)
    ensures var after := Write(rules, user, fits, about);
            && RulesKept(after, user) == RulesKept(rules, user)
            && RulesOn(after, user, may.instant) == RulesOn(rules, user, may.instant) + |fits|
            && forall p :: p in presets ==> IsMissing(after, user, p, about) == IsMissing(rules, user, p, about)
  {
    WithRuleSelects(rules, user, first, about, true);
    WriteCounts(rules, user, fits, about, may.instant);
    NoneMissing(rules, user, fits, about);
    StillMissing(rules, user, presets, fits, about);
  }

  lemma {:induction false} HeldBackStill(rules: seq<Rule>, after: seq<Rule>, user: nat, may: Allowance, first: seq<Preset>,
                                         rest: seq<Preset>, about: Target, made: nat)
    requires HeldBack(rules, user, first + rest, about) && first == Prefix(first + rest, Room(rules, user, may))
    requires RulesKept(after, user) == RulesKept(rules, user)
    requires RulesOn(after, user, may.instant) == RulesOn(rules, user, may.instant) + made
    requires forall p :: p in first + rest ==> IsMissing(after, user, p, about) == IsMissing(rules, user, p, about)
    requires |first| == |WithRule(rules, user, first, about, false)| + made
    ensures Fits(after, user, may, WithRule(rules, user, first, about, false) + rest, about) == []
  {
    StillHeldBack(rules, after, user, first, rest, about);
    RoomAfter(rules, after, user, may, made);
    OutOfReach(after, user, may, WithRule(rules, user, first, about, false), rest, about);
  }

  /** What is still pending: the missing ones of the first stretch, then the rest. */
  lemma {:induction false} StillPending(rules: seq<Rule>, user: nat, first: seq<Preset>, rest: seq<Preset>, about: Target, fits: seq<Preset>)
    requires DistinctKinds(first + rest) && fits == WithRule(rules, user, first, about, true)
    ensures Without(first + rest, fits) == WithRule(rules, user, first, about, false) + rest
    ensures |first| == |WithRule(rules, user, first, about, false)| + |fits|
  {
    WithRuleSelects(rules, user, first, about, true);
    WithoutConcat(first, rest, fits);
    WithoutThoseWithRule(rules, user, first, about, fits);
    DisjointHalves(first, rest, fits);
    WithoutNone(rest, fits);
  }

  /** As many are missing as before and as many kept, so the bound holds them back as before. */
  lemma {:induction false} StillHeldBack(rules: seq<Rule>, after: seq<Rule>, user: nat, first: seq<Preset>, rest: seq<Preset>, about: Target)
    requires HeldBack(rules, user, first + rest, about) && RulesKept(after, user) == RulesKept(rules, user)
    requires forall p :: p in first + rest ==> IsMissing(after, user, p, about) == IsMissing(rules, user, p, about)
    ensures var unmade := WithRule(rules, user, first, about, false);
            HeldBack(after, user, unmade + rest, about) && forall p :: p in unmade ==> IsMissing(after, user, p, about)
  {
    var unmade := WithRule(rules, user, first, about, false);
    WithRuleSelects(rules, user, first, about, false);
    WithRuleConcat(rules, user, unmade, rest, about, false);
    WithRuleConcat(rules, user, first, rest, about, false);
    NoneOfTheMissing(rules, user, unmade, about);
    assert forall p :: p in unmade + rest ==> p in first + rest;
    SameSelection(rules, after, user, unmade + rest, about, false);
  }

  /** There is room for the missing ones of the first stretch alone, or there was for all: and none has a rule. */
  lemma {:induction false} OutOfReach(rules: seq<Rule>, user: nat, may: Allowance, unmade: seq<Preset>, rest: seq<Preset>, about: Target)
    requires HeldBack(rules, user, unmade + rest, about) && forall p :: p in unmade ==> IsMissing(rules, user, p, about)
    requires rest == [] || Room(rules, user, may) == Some(|unmade|)
    ensures Fits(rules, user, may, unmade + rest, about) == []
  {
    var reach := Prefix(unmade + rest, Room(rules, user, may));
    assert forall p :: p in reach ==> p in unmade;
    NoneOfTheMissing(rules, user, reach, about);
  }

  lemma {:induction false} StillMissing(rules: seq<Rule>, user: nat, presets: seq<Preset>, fits: seq<Preset>, about: Target)
    requires Unique(rules) && DistinctKinds(presets)
    requires forall p :: p in fits ==> p in presets && !IsMissing(rules, user, p, about)
    ensures forall p :: p in presets ==> IsMissing(Write(rules, user, fits, about), user, p, about) == IsMissing(rules, user, p, about)
  {
    var after := Write(rules, user, fits, about);
    WriteTouches(rules, user, fits, about);
    forall p | p in presets ensures IsMissing(after, user, p, about) == IsMissing(rules, user, p, about) {
      if p in fits {
        FindIs(after, user, p.kind, about, Find(rules, user, p.kind, about).value);
      } else {
        NotAmongKinds(presets, fits, p);
        UntouchedStands(rules, after, user, Kinds(fits), about, p, about);
      }
    }
  }

  lemma {:induction false} DisjointHalves(first: seq<Preset>, rest: seq<Preset>, fits: seq<Preset>)
    requires DistinctKinds(first + rest) && forall p :: p in fits ==> p in first
    ensures forall p :: p in rest ==> p !in fits
  {
    forall p | p in rest ensures p !in first {
      var j :| 0 <= j < |rest| && rest[j] == p;
      assert (first + rest)[|first| + j] == p;
      assert forall i :: 0 <= i < |first| ==> (first + rest)[i] == first[i];
    }
  }

  /** Following twice is following once. */
  lemma {:induction false} FollowingTwice(rules: seq<Rule>, user: nat, may: Allowance, target: Target)
    requires Unique(rules)
    ensures OnFollow(OnFollow(rules, user, may, target), user, may, target) == OnFollow(rules, user, may, target)
  {
    if target.OfFiler? {
      PresetsAreSent(may);
      NothingFitsAgain(rules, user, may, PresetsFor(may), TargetFor(may, target), Sends(may.instant, FilerFiled));
      HeldBackAgain(rules, user, may, PresetsFor(may), TargetFor(may, target), Sends(may.instant, FilerFiled));
    }
  }

  // ----- any sequence of follows and unfollows -----

  /** A follow, under whatever plan the account has then, or an unfollow. */
  datatype Step = Following(user: nat, may: Allowance, target: Target) | Unfollowing(user: nat, target: Target)

  function Perform(rules: seq<Rule>, step: Step): seq<Rule> {
    match step
    case Following(user, may, target) => OnFollow(rules, user, may, target)
    case Unfollowing(user, target) => OnUnfollow(rules, user, target)
  }

  function Play(rules: seq<Rule>, run: seq<Step>): seq<Rule> {
    if run == [] then rules else Perform(Play(rules, run[..|run| - 1]), run[|run| - 1])
  }

  /** An unfollow flips the switch of exactly the user's active rules on that target; no other row or column moves. A rule
      about nothing, the digest, is on no target. */
  lemma {:induction false} UnfollowTurnsOff(rules: seq<Rule>, user: nat, target: Target)
    ensures var after := OnUnfollow(rules, user, target);
            && |after| == |rules|
            && (forall i :: 0 <= i < |rules| ==>
                  after[i] == rules[i].(active := rules[i].active && !(rules[i].user == user && rules[i].target == target && target != NoTarget)))
  {
  }

  lemma {:induction false} UnfollowCounts(rules: seq<Rule>, user: nat, target: Target, counted: nat, instant: bool)
    ensures RulesOn(OnUnfollow(rules, user, target), counted, instant) <= RulesOn(rules, counted, instant)
    ensures RulesKept(OnUnfollow(rules, user, target), counted) == RulesKept(rules, counted)
  {
    if rules != [] && !target.NoTarget? {
      var last := |rules| - 1;
      UnfollowCounts(rules[..last], user, target, counted, instant);
      assert OnUnfollow(rules, user, target)[..last] == OnUnfollow(rules[..last], user, target);
    }
  }

  /** Another account's rules are neither counted nor kept by a follow. */
  lemma {:induction false} OthersCount(before: seq<Rule>, after: seq<Rule>, other: nat, instant: bool)
    requires |before| <= |after|
    requires forall i :: 0 <= i < |before| && before[i].user == other ==> after[i] == before[i]
    requires forall i :: 0 <= i < |before| && before[i].user != other ==> after[i].user != other
    requires forall i :: |before| <= i < |after| ==> after[i].user != other
    ensures RulesOn(after, other, instant) == RulesOn(before, other, instant)
    ensures RulesKept(after, other) == RulesKept(before, other)
  {
    if after != [] {
      var last := |after| - 1;
      OthersCount(if |before| == |after| then before[..last] else before, after[..last], other, instant);
    }
  }

  lemma {:induction false} FollowKeepsRules(rules: seq<Rule>, follower: nat, may: Allowance, target: Target, user: nat)
    requires Unique(rules)
    ensures var after := OnFollow(rules, follower, may, target);
            && Unique(after) && KeepsSettings(rules, after)
            && RulesKept(after, user) <= Max(RulesKept(rules, user), MAX_ALERT_RULES)
  {
    FollowTouches(rules, follower, may, target);
    if follower == user {
      FollowKeepsCaps(rules, user, may, target);
    } else {
      OthersCount(rules, OnFollow(rules, follower, may, target), user, true);
    }
  }

  lemma {:induction false} UnfollowKeepsRules(rules: seq<Rule>, user: nat, target: Target)
    requires Unique(rules)
    ensures Unique(OnUnfollow(rules, user, target)) && KeepsSettings(rules, OnUnfollow(rules, user, target))
  {
    if !target.NoTarget? {
      UnfollowTurnsOff(rules, user, target);
    }
  }

  /** Whatever is followed and unfollowed, under whatever plans, in whatever order: no rule is lost, doubled or
      resettled. Its threshold, its channels and what it is about are as they were made, so a follow after an
      unfollow finds them; and no account ever keeps more rules than the bound, unless it already did. */
  lemma {:induction false} EveryRunKeepsRules(rules: seq<Rule>, run: seq<Step>, user: nat)
    requires Unique(rules)
    ensures Unique(Play(rules, run)) && KeepsSettings(rules, Play(rules, run))
    ensures RulesKept(Play(rules, run), user) <= Max(RulesKept(rules, user), MAX_ALERT_RULES)
  {
    if run != [] {
      EveryRunKeepsRules(rules, run[..|run| - 1], user);
      var before, step := Play(rules, run[..|run| - 1]), run[|run| - 1];
      match step {
        case Following(follower, may, target) =>
          FollowKeepsRules(before, follower, may, target, user);
        case Unfollowing(follower, target) =>
          UnfollowKeepsRules(before, follower, target);
          UnfollowCounts(before, follower, target, user, true);
      }
      SettingsStayKept(rules, before, Perform(before, step));
    }
  }

  lemma {:induction false} SettingsStayKept(a: seq<Rule>, b: seq<Rule>, c: seq<Rule>)
    requires KeepsSettings(a, b) && KeepsSettings(b, c)
    ensures KeepsSettings(a, c)
  {
  }

  /** And while an account stays on one plan, its rules that are on never outnumber the plan's limit, unless
      they already did. */
  lemma {:induction false} EveryRunKeepsLimit(rules: seq<Rule>, run: seq<Step>, user: nat, may: Allowance)
    requires Unique(rules) && may.rules.Some?
    requires forall k :: 0 <= k < |run| && run[k].Following? && run[k].user == user ==> run[k].may == may
    ensures RulesOn(Play(rules, run), user, may.instant) <= Max(RulesOn(rules, user, may.instant), may.rules.value)
  {
    if run != [] {
      var earlier, step := run[..|run| - 1], run[|run| - 1];
      EveryRunKeepsLimit(rules, earlier, user, may);
      EveryRunKeepsRules(rules, earlier, user);
      var before := Play(rules, earlier);
      match step {
        case Following(follower, plan, target) =>
          FollowTouches(before, follower, plan, target);
          if follower == user {
            FollowKeepsCaps(before, user, may, target);
          } else {
            OthersCount(before, Perform(before, step), user, may.instant);
          }
        case Unfollowing(follower, target) =>
          UnfollowCounts(before, follower, target, user, may.instant);
      }
    }
  }

  // ----- channels -----

  predicate AllOneOfEach(rules: seq<Rule>) {
    forall i :: 0 <= i < |rules| ==> EmailLists.OneOfEach(rules[i].channels)
  }

  predicate PresetsOneOfEach(presets: seq<Preset>) {
    forall p :: p in presets ==> EmailLists.OneOfEach(p.channels)
  }

  lemma {:induction false} WriteKeepsOneOfEach(rules: seq<Rule>, user: nat, presets: seq<Preset>, target: Target)
    requires AllOneOfEach(rules) && PresetsOneOfEach(presets)
    ensures AllOneOfEach(Write(rules, user, presets, target))
  {
    if presets != [] {
      WriteKeepsOneOfEach(rules, user, presets[..|presets| - 1], target);
    }
  }

  lemma {:induction false} StepKeepsOneOfEach(rules: seq<Rule>, step: Step)
    requires AllOneOfEach(rules)
    ensures AllOneOfEach(Perform(rules, step))
  {
    if step.Following? && step.target.OfFiler? {
      var presets, about, again := PresetsFor(step.may), TargetFor(step.may, step.target), Sends(step.may.instant, FilerFiled);
      var fits := Fits(rules, step.user, step.may, Pending(rules, step.user, presets, about, again), about);
      PresetsAreSent(step.may);
      FitsArePending(rules, step.user, step.may, presets, about, again);
      PresetsListOnce(step.may);
      WriteKeepsOneOfEach(rules, step.user, fits, about);
    }
  }

  lemma {:induction false} PresetsListOnce(may: Allowance)
    ensures PresetsOneOfEach(PresetsFor(may))
  {
  }

  /** No follow or unfollow ever makes a rule that lists a channel twice, so none stands in the way of leaving the
      lists its email goes out under. */
  lemma {:induction false} EveryRunKeepsOneOfEach(rules: seq<Rule>, run: seq<Step>)
    requires AllOneOfEach(rules)
    ensures AllOneOfEach(Play(rules, run))
  {
    if run != [] {
      EveryRunKeepsOneOfEach(rules, run[..|run| - 1]);
      StepKeepsOneOfEach(Play(rules, run[..|run| - 1]), run[|run| - 1]);
    }
  }

  /** The rules as the mailing lists see them. */
  function Listed(rules: seq<Rule>): seq<Option<EmailLists.Rule>> {
    seq(|rules|, i requires 0 <= i < |rules| => Some(EmailLists.Rule(rules[i].user, rules[i].active, rules[i].channels)))
  }

  /** After any run, any list can be left by anyone. */
  lemma {:induction false} EveryListCanBeLeft(rules: seq<Rule>, run: seq<Step>, consents: map<(nat, EmailLists.Purpose), bool>,
                                              users: map<nat, bool>, user: nat, list: EmailLists.MailingList)
    requires AllOneOfEach(rules)
    ensures EmailLists.Left(EmailLists.Lists(Listed(Play(rules, run)), consents, users), user, list).Success?
  {
    EveryRunKeepsOneOfEach(rules, run);
    EmailLists.LeavingIsNotRefused(EmailLists.Lists(Listed(Play(rules, run)), consents, users), user, list);
  }
}

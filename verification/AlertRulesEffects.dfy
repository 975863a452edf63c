/** What following a filer turns on, exactly, and what following again after unfollowing does
    (app/accounts/alert_rules.py). */
module AlertRulesEffects {
  import opened Wrappers
  import opened AlertRules
  import opened AlertRulesProofs
  import EmailLists

  // ----- the two counts -----

  /** The user's rules that are on, of the kinds the plan sends. */
  function OnOf(rules: seq<Rule>, user: nat, instant: bool): set<nat> {
    set i: nat | i < |rules| && rules[i].user == user && rules[i].active && (instant || rules[i].kind == SeasonDigest)
  }

  function KeptBy(rules: seq<Rule>, user: nat): set<nat> {
    set i: nat | i < |rules| && rules[i].user == user
  }

  lemma {:induction false} OnOfGrows(init: seq<Rule>, row: Rule, user: nat, instant: bool)
    ensures OnOf(init + [row], user, instant)
            == OnOf(init, user, instant) + (if row.user == user && row.active && (instant || row.kind == SeasonDigest) then {|init|} else {})
  {
  }

  lemma {:induction false} RulesOnIsCount(rules: seq<Rule>, user: nat, instant: bool)
    ensures RulesOn(rules, user, instant) == |OnOf(rules, user, instant)|
  {
    if rules != [] {
      var init, row := rules[..|rules| - 1], rules[|rules| - 1];
      RulesOnIsCount(init, user, instant);
      OnOfGrows(init, row, user, instant);
      assert rules == init + [row];
      assert |init| !in OnOf(init, user, instant);
    }
  }

  lemma {:induction false} KeptByGrows(init: seq<Rule>, row: Rule, user: nat)
    ensures KeptBy(init + [row], user) == KeptBy(init, user) + (if row.user == user then {|init|} else {})
  {
  }

  lemma {:induction false} RulesKeptIsCount(rules: seq<Rule>, user: nat)
    ensures RulesKept(rules, user) == |KeptBy(rules, user)|
  {
    if rules != [] {
      var init, row := rules[..|rules| - 1], rules[|rules| - 1];
      RulesKeptIsCount(init, user);
      KeptByGrows(init, row, user);
      assert rules == init + [row];
      assert |init| !in KeptBy(init, user);
    }
  }

  // ----- one rule -----

  predicate Made(rules: seq<Rule>, user: nat, kind: Kind, target: Target) {
    exists i :: 0 <= i < |rules| && IsAbout(rules[i], user, kind, target)
  }

  predicate IsOn(rules: seq<Rule>, user: nat, kind: Kind, target: Target) {
    exists i :: 0 <= i < |rules| && IsAbout(rules[i], user, kind, target) && rules[i].active
  }

  /** The rule is on after: the one there was, its settings kept, or a new one with these settings. */
  predicate TurnedOn(before: seq<Rule>, after: seq<Rule>, user: nat, kind: Kind, target: Target, minValue: Option<nat>, channels: seq<Channel>) {
    exists i :: 0 <= i < |after|
      && after[i] == (if i < |before| then before[i].(active := true) else Rule(user, kind, target, minValue, channels, true))
      && IsAbout(after[i], user, kind, target)
  }

  /** The rule is as it was, or as absent as it was. */
  predicate LeftAlone(before: seq<Rule>, after: seq<Rule>, user: nat, kind: Kind, target: Target) {
    && |before| <= |after|
    && forall i :: 0 <= i < |after| && IsAbout(after[i], user, kind, target) ==> i < |before| && after[i] == before[i]
  }

  lemma {:induction false} FindIff(rules: seq<Rule>, user: nat, kind: Kind, target: Target)
    requires Unique(rules)
    ensures var at := Find(rules, user, kind, target);
            && (at.Some? <==> Made(rules, user, kind, target))
            && (at.Some? && rules[at.value].active <==> IsOn(rules, user, kind, target))
  {
    if IsOn(rules, user, kind, target) {
      var i :| 0 <= i < |rules| && IsAbout(rules[i], user, kind, target) && rules[i].active;
      FindIs(rules, user, kind, target, i);
    }
  }

  lemma {:induction false} UpsertTurnsOn(rules: seq<Rule>, user: nat, preset: Preset, target: Target)
    requires Unique(rules)
    ensures TurnedOn(rules, Upsert(rules, user, preset, target), user, preset.kind, target, preset.minValue, preset.channels)
    ensures forall kind :: kind != preset.kind ==> LeftAlone(rules, Upsert(rules, user, preset, target), user, kind, target)
  {
    var after := Upsert(rules, user, preset, target);
    var at := Find(rules, user, preset.kind, target);
    var i := if at.Some? then at.value else |rules|;
    assert IsAbout(after[i], user, preset.kind, target);
    forall kind, k | kind != preset.kind && 0 <= k < |after| && IsAbout(after[k], user, kind, target) ensures k < |rules| && after[k] == rules[k] {
      assert k != i;
    }
  }

  lemma {:induction false} WriteNone(rules: seq<Rule>, user: nat, target: Target)
    ensures Write(rules, user, [], target) == rules
  {
  }

  lemma {:induction false} WriteOne(rules: seq<Rule>, user: nat, p: Preset, target: Target)
    ensures Write(rules, user, [p], target) == Upsert(rules, user, p, target)
  {
    assert [p][..0] == [];
    WriteNone(rules, user, target);
  }

  lemma {:induction false} WriteTwo(rules: seq<Rule>, user: nat, p: Preset, q: Preset, target: Target)
    ensures Write(rules, user, [p, q], target) == Upsert(Upsert(rules, user, p, target), user, q, target)
  {
    assert [p, q][..1] == [p];
    WriteOne(rules, user, p, target);
  }

  /** What two writes turn on stays on: the second touches another rule. */
  lemma {:induction false} TurnedOnStays(before: seq<Rule>, middle: seq<Rule>, after: seq<Rule>, user: nat, kind: Kind, target: Target,
                                         minValue: Option<nat>, channels: seq<Channel>)
    requires TurnedOn(before, middle, user, kind, target, minValue, channels) && |before| <= |middle| <= |after|
    requires forall i :: 0 <= i < |middle| && IsAbout(middle[i], user, kind, target) ==> after[i] == middle[i]
    ensures TurnedOn(before, after, user, kind, target, minValue, channels)
  {
    var i :| 0 <= i < |middle|
      && middle[i] == (if i < |before| then before[i].(active := true) else Rule(user, kind, target, minValue, channels, true))
      && IsAbout(middle[i], user, kind, target);
    assert after[i] == middle[i];
  }

  // ----- following on a plan with instant alerts -----

  const FILED: Preset := Preset(FilerFiled, [EmailLists.InApp, EmailLists.Email], None)
  const CHANGED: Preset := Preset(FilerPositionChange, [EmailLists.InApp], Some(1_000_000))

  /** The plan's limit has room for n more rules. */
  predicate HasRoom(rules: seq<Rule>, user: nat, may: Allowance, n: nat) {
    may.rules.Some? ==> |OnOf(rules, user, may.instant)| + n <= may.rules.value
  }

  /** Making those of the two rules that are missing would break the bound on rules kept. */
  predicate PastBound(rules: seq<Rule>, user: nat, target: Target) {
    var missing := (if Made(rules, user, FilerFiled, target) then 0 else 1) + (if Made(rules, user, FilerPositionChange, target) then 0 else 1);
    missing > 0 && |KeptBy(rules, user)| + missing > 1001
  }

  /** The rule on filings is turned on: it is not, the limit has room for one, and it need not be made past the bound. */
  predicate TurnsOnFiled(rules: seq<Rule>, user: nat, may: Allowance, target: Target) {
    && !IsOn(rules, user, FilerFiled, target) && HasRoom(rules, user, may, 1)
    && (Made(rules, user, FilerFiled, target) || !PastBound(rules, user, target))
  }

  /** And so the rule on changes, for which there must be room after the other when that was due. */
  predicate TurnsOnChanged(rules: seq<Rule>, user: nat, may: Allowance, target: Target) {
    && !IsOn(rules, user, FilerPositionChange, target)
    && HasRoom(rules, user, may, if IsOn(rules, user, FilerFiled, target) then 1 else 2)
    && (Made(rules, user, FilerPositionChange, target) || !PastBound(rules, user, target))
  }

  /** The presets that are due, in order. */
  function DueOf(rules: seq<Rule>, user: nat, target: Target): seq<Preset> {
    (if IsOn(rules, user, FilerFiled, target) then [] else [FILED]) + (if IsOn(rules, user, FilerPositionChange, target) then [] else [CHANGED])
  }

  lemma {:induction false} PendingIsDue(rules: seq<Rule>, user: nat, target: Target)
    requires Unique(rules)
    ensures Pending(rules, user, INVESTOR_PRESETS, target, true) == DueOf(rules, user, target)
  {
    FindIff(rules, user, FilerFiled, target);
    FindIff(rules, user, FilerPositionChange, target);
    assert INVESTOR_PRESETS == [FILED, CHANGED] && INVESTOR_PRESETS[1..] == [CHANGED] && [CHANGED][1..] == [];
    assert Pending(rules, user, [CHANGED], target, true) == (if IsPending(rules, user, CHANGED, target, true) then [CHANGED] else []) + [];
  }

  lemma {:induction false} WithRuleOne(rules: seq<Rule>, user: nat, p: Preset, target: Target, has: bool)
    requires Unique(rules)
    ensures WithRule(rules, user, [p], target, has) == if Made(rules, user, p.kind, target) == has then [p] else []
    ensures WithRule(rules, user, [], target, has) == []
  {
    FindIff(rules, user, p.kind, target);
    assert [p][1..] == [];
  }

  lemma {:induction false} WithRuleTwo(rules: seq<Rule>, user: nat, p: Preset, q: Preset, target: Target, has: bool)
    requires Unique(rules)
    ensures WithRule(rules, user, [p, q], target, has)
            == (if Made(rules, user, p.kind, target) == has then [p] else []) + (if Made(rules, user, q.kind, target) == has then [q] else [])
  {
    FindIff(rules, user, p.kind, target);
    assert [p, q][1..] == [q];
    WithRuleOne(rules, user, q, target, has);
  }

  lemma {:induction false} RoomIff(rules: seq<Rule>, user: nat, may: Allowance, n: nat)
    ensures n > 0 ==> (HasRoom(rules, user, may, n) <==> Room(rules, user, may).None? || n <= Room(rules, user, may).value)
  {
    RulesOnIsCount(rules, user, may.instant);
  }

  lemma {:induction false} OnIsMade(rules: seq<Rule>, user: nat, kind: Kind, target: Target)
    ensures IsOn(rules, user, kind, target) ==> Made(rules, user, kind, target)
  {
  }

  lemma {:induction false} FitsNone(rules: seq<Rule>, user: nat, may: Allowance, target: Target)
    ensures Fits(rules, user, may, [], target) == []
  {
  }

  lemma {:induction false} FitsOne(rules: seq<Rule>, user: nat, may: Allowance, p: Preset, target: Target)
    requires Unique(rules)
    ensures Fits(rules, user, may, [p], target)
            == if HasRoom(rules, user, may, 1) && (Made(rules, user, p.kind, target) || |KeptBy(rules, user)| + 1 <= 1001) then [p] else []
  {
    RoomIff(rules, user, may, 1);
    RulesKeptIsCount(rules, user);
    WithRuleOne(rules, user, p, target, true);
    WithRuleOne(rules, user, p, target, false);
    assert [p][..0] == [];
  }

  function Two(filed: bool, changed: bool): seq<Preset> {
    (if filed then [FILED] else []) + (if changed then [CHANGED] else [])
  }

  lemma {:induction false} TwoCut(rules: seq<Rule>, user: nat, may: Allowance)
    ensures Prefix([FILED, CHANGED], Room(rules, user, may)) == Two(HasRoom(rules, user, may, 1), HasRoom(rules, user, may, 2))
  {
    RoomIff(rules, user, may, 1);
    RoomIff(rules, user, may, 2);
    assert [FILED, CHANGED][..1] == [FILED] && [FILED, CHANGED][..0] == [];
    assert [FILED] + [CHANGED] == [FILED, CHANGED] && [FILED] + [] == [FILED];
  }

  lemma {:induction false} TwoWithRule(rules: seq<Rule>, user: nat, target: Target, filed: bool, changed: bool, has: bool)
    requires Unique(rules)
    ensures WithRule(rules, user, Two(filed, changed), target, has)
            == Two(filed && Made(rules, user, FilerFiled, target) == has, changed && Made(rules, user, FilerPositionChange, target) == has)
  {
    WithRuleOne(rules, user, FILED, target, has);
    WithRuleOne(rules, user, CHANGED, target, has);
    WithRuleTwo(rules, user, FILED, CHANGED, target, has);
    assert Two(true, true) == [FILED, CHANGED] && Two(true, false) == [FILED] && Two(false, true) == [CHANGED] && Two(false, false) == [];
  }

  lemma {:induction false} PastBoundIff(rules: seq<Rule>, user: nat, target: Target)
    requires Unique(rules)
    ensures var missing := |WithRule(rules, user, [FILED, CHANGED], target, false)|;
            PastBound(rules, user, target) <==> missing > 0 && RulesKept(rules, user) + missing > MAX_ALERT_RULES
  {
    RulesKeptIsCount(rules, user);
    WithRuleTwo(rules, user, FILED, CHANGED, target, false);
  }

  lemma {:induction false} FitsTwo(rules: seq<Rule>, user: nat, may: Allowance, target: Target)
    requires Unique(rules)
    ensures Fits(rules, user, may, [FILED, CHANGED], target)
            == Two(HasRoom(rules, user, may, 1) && (Made(rules, user, FilerFiled, target) || !PastBound(rules, user, target)),
                   HasRoom(rules, user, may, 2) && (Made(rules, user, FilerPositionChange, target) || !PastBound(rules, user, target)))
  {
    TwoCut(rules, user, may);
    PastBoundIff(rules, user, target);
    TwoWithRule(rules, user, target, HasRoom(rules, user, may, 1), HasRoom(rules, user, may, 2), true);
  }

  /** What fits of what is due. */
  lemma {:induction false} FitsIs(rules: seq<Rule>, user: nat, may: Allowance, target: Target)
    requires Unique(rules)
    ensures Fits(rules, user, may, DueOf(rules, user, target), target)
            == (if TurnsOnFiled(rules, user, may, target) then [FILED] else [])
               + (if TurnsOnChanged(rules, user, may, target) then [CHANGED] else [])
  {
    OnIsMade(rules, user, FilerFiled, target);
    OnIsMade(rules, user, FilerPositionChange, target);
    if IsOn(rules, user, FilerFiled, target) {
      if IsOn(rules, user, FilerPositionChange, target) {
        FitsNone(rules, user, may, target);
      } else {
        FitsOne(rules, user, may, CHANGED, target);
        assert DueOf(rules, user, target) == [CHANGED] && [] + [CHANGED] == [CHANGED];
      }
    } else if IsOn(rules, user, FilerPositionChange, target) {
      FitsOne(rules, user, may, FILED, target);
      assert DueOf(rules, user, target) == [FILED] && [FILED] + [] == [FILED];
    } else {
      FitsTwo(rules, user, may, target);
      assert DueOf(rules, user, target) == [FILED, CHANGED];
    }
  }

  /** Following a filer on a plan with instant alerts: each of its two rules is turned on, or left alone, as room and
      bound allow, the one on filings first. */
  lemma {:induction false} FollowTurnsOn(rules: seq<Rule>, user: nat, may: Allowance, target: Target)
    requires Unique(rules) && may.instant && target.OfFiler?
    ensures var after := OnFollow(rules, user, may, target);
            && (if TurnsOnFiled(rules, user, may, target)
                then TurnedOn(rules, after, user, FilerFiled, target, None, [EmailLists.InApp, EmailLists.Email])
                else LeftAlone(rules, after, user, FilerFiled, target))
            && (if TurnsOnChanged(rules, user, may, target)
                then TurnedOn(rules, after, user, FilerPositionChange, target, Some(1_000_000), [EmailLists.InApp])
                else LeftAlone(rules, after, user, FilerPositionChange, target))
  {
    PendingIsDue(rules, user, target);
    FitsIs(rules, user, may, target);
    var fits := Fits(rules, user, may, DueOf(rules, user, target), target);
    assert OnFollow(rules, user, may, target) == Write(rules, user, fits, target);
    WrittenOf(rules, user, target, TurnsOnFiled(rules, user, may, target), TurnsOnChanged(rules, user, may, target));
  }

  /** A rule turned on by the second write was as it is before the first, which touches another kind. */
  lemma {:induction false} TurnedOnSince(before: seq<Rule>, middle: seq<Rule>, after: seq<Rule>, user: nat, kind: Kind, other: Kind, target: Target,
                                         minValue: Option<nat>, channels: seq<Channel>)
    requires TurnedOn(middle, after, user, kind, target, minValue, channels)
    requires OnlyTouches(before, middle, user, {other}, target) && other != kind
    ensures TurnedOn(before, after, user, kind, target, minValue, channels)
  {
    var i :| 0 <= i < |after|
      && after[i] == (if i < |middle| then middle[i].(active := true) else Rule(user, kind, target, minValue, channels, true))
      && IsAbout(after[i], user, kind, target);
    assert i < |middle| ==> middle[i].kind == kind;
    assert i < |before| ==> middle[i] == before[i];
  }

  lemma {:induction false} BothTurnedOn(rules: seq<Rule>, user: nat, target: Target)
    requires Unique(rules)
    ensures var after := Upsert(Upsert(rules, user, FILED, target), user, CHANGED, target);
            && TurnedOn(rules, after, user, FilerFiled, target, None, [EmailLists.InApp, EmailLists.Email])
            && TurnedOn(rules, after, user, FilerPositionChange, target, Some(1_000_000), [EmailLists.InApp])
  {
    var middle := Upsert(rules, user, FILED, target);
    var after := Upsert(middle, user, CHANGED, target);
    UpsertTurnsOn(rules, user, FILED, target);
    UpsertTouches(rules, user, FILED, target);
    UpsertTurnsOn(middle, user, CHANGED, target);
    UpsertTouches(middle, user, CHANGED, target);
    TurnedOnStays(rules, middle, after, user, FilerFiled, target, None, [EmailLists.InApp, EmailLists.Email]);
    TurnedOnSince(rules, middle, after, user, FilerPositionChange, FilerFiled, target, Some(1_000_000), [EmailLists.InApp]);
  }

  lemma {:induction false} WrittenOf(rules: seq<Rule>, user: nat, target: Target, filed: bool, changed: bool)
    requires Unique(rules)
    ensures var after := Write(rules, user, (if filed then [FILED] else []) + (if changed then [CHANGED] else []), target);
            && (if filed then TurnedOn(rules, after, user, FilerFiled, target, None, [EmailLists.InApp, EmailLists.Email])
                else LeftAlone(rules, after, user, FilerFiled, target))
            && (if changed then TurnedOn(rules, after, user, FilerPositionChange, target, Some(1_000_000), [EmailLists.InApp])
                else LeftAlone(rules, after, user, FilerPositionChange, target))
  {
    var first := Upsert(rules, user, FILED, target);
    UpsertTurnsOn(rules, user, FILED, target);
    UpsertTurnsOn(rules, user, CHANGED, target);
    if filed && changed {
      assert [FILED] + [CHANGED] == [FILED, CHANGED];
      WriteTwo(rules, user, FILED, CHANGED, target);
      BothTurnedOn(rules, user, target);
    } else if filed {
      assert [FILED] + [] == [FILED];
      WriteOne(rules, user, FILED, target);
    } else if changed {
      assert [] + [CHANGED] == [CHANGED];
      WriteOne(rules, user, CHANGED, target);
    } else {
      WriteNone(rules, user, target);
    }
  }

  // ----- following on any other plan -----

  /** On a plan without them, following makes the season digest, once: when the user has none, the limit has room for it
      and it is not past the bound. Nothing else changes, and nothing at all for what is no filer. */
  lemma {:induction false} FollowMakesDigest(rules: seq<Rule>, user: nat, may: Allowance, target: Target)
    requires Unique(rules)
    ensures var after := OnFollow(rules, user, may, target);
            && (!target.OfFiler? ==> after == rules)
            && (target.OfFiler? && !may.instant ==>
                  after == if !Made(rules, user, SeasonDigest, NoTarget) && HasRoom(rules, user, may, 1) && |KeptBy(rules, user)| + 1 <= 1001
                           then rules + [Rule(user, SeasonDigest, NoTarget, None, [EmailLists.InApp, EmailLists.Email], true)]
                           else rules)
  {
    if target.OfFiler? && !may.instant {
      var digest := DIGEST_PRESETS[0];
      assert DIGEST_PRESETS == [digest] && [digest][1..] == [] && [digest][..0] == [];
      FindIff(rules, user, SeasonDigest, NoTarget);
      RoomIff(rules, user, may, 1);
      RulesKeptIsCount(rules, user);
      WithRuleOne(rules, user, digest, NoTarget, true);
      WithRuleOne(rules, user, digest, NoTarget, false);
      WriteOne(rules, user, digest, NoTarget);
      WriteNone(rules, user, NoTarget);
      assert Pending(rules, user, [digest], NoTarget, false) == (if Made(rules, user, SeasonDigest, NoTarget) then [] else [digest]) + [];
    }
  }

  // ----- following again -----

  /** The user's rules about a filer are of the two kinds following turns on, as the table has it. */
  predicate OnlyTheTwo(rules: seq<Rule>, user: nat, target: Target) {
    forall i :: 0 <= i < |rules| && rules[i].user == user && rules[i].target == target ==>
      rules[i].kind == FilerFiled || rules[i].kind == FilerPositionChange
  }

  /** How many of the two are on. */
  function TwoOn(rules: seq<Rule>, user: nat, target: Target): nat {
    (if IsOn(rules, user, FilerFiled, target) then 1 else 0) + (if IsOn(rules, user, FilerPositionChange, target) then 1 else 0)
  }

  lemma {:induction false} UnfollowedTable(rules: seq<Rule>, user: nat, target: Target)
    requires target != NoTarget
    ensures var after := OnUnfollow(rules, user, target);
            && |after| == |rules|
            && (forall i :: 0 <= i < |rules| ==>
                  after[i] == if rules[i].user == user && rules[i].target == target then rules[i].(active := false) else rules[i])
  {
  }

  lemma {:induction false} SameKeys(rules: seq<Rule>, after: seq<Rule>, user: nat, kind: Kind, target: Target)
    requires |after| == |rules|
    requires forall i :: 0 <= i < |rules| ==>
               after[i].user == rules[i].user && after[i].kind == rules[i].kind && after[i].target == rules[i].target
    ensures Unique(rules) ==> Unique(after)
    ensures Made(after, user, kind, target) <==> Made(rules, user, kind, target)
    ensures KeptBy(after, user) == KeptBy(rules, user)
  {
    if Made(rules, user, kind, target) {
      var i :| 0 <= i < |rules| && IsAbout(rules[i], user, kind, target);
      assert IsAbout(after[i], user, kind, target);
    }
    if Made(after, user, kind, target) {
      var i :| 0 <= i < |after| && IsAbout(after[i], user, kind, target);
      assert IsAbout(rules[i], user, kind, target);
    }
  }

  lemma {:induction false} UnfollowedRow(rules: seq<Rule>, user: nat, target: Target, kind: Kind)
    requires target != NoTarget
    ensures var after := OnUnfollow(rules, user, target);
            && |after| == |rules| && (Unique(rules) ==> Unique(after))
            && (Made(after, user, kind, target) <==> Made(rules, user, kind, target)) && !IsOn(after, user, kind, target)
            && KeptBy(after, user) == KeptBy(rules, user)
  {
    UnfollowedTable(rules, user, target);
    SameKeys(rules, OnUnfollow(rules, user, target), user, kind, target);
  }

  /** The places of the two that are on. */
  function PlacesOn(rules: seq<Rule>, user: nat, target: Target): set<nat> {
    set i: nat | i < |rules| && rules[i].active && rules[i].user == user && rules[i].target == target
  }

  lemma {:induction false} SizesAdd(all: set<nat>, some: set<nat>, others: set<nat>)
    requires forall x :: x in all <==> x in some || x in others
    requires forall x :: x in some ==> x !in others
    ensures |all| == |some| + |others|
  {
    assert all == some + others && some !! others;
  }

  lemma {:induction false} TwoOnIsCount(rules: seq<Rule>, user: nat, target: Target)
    requires Unique(rules) && OnlyTheTwo(rules, user, target)
    ensures |PlacesOn(rules, user, target)| == TwoOn(rules, user, target)
  {
    var places := PlacesOn(rules, user, target);
    var filed := set i | i in places && rules[i].kind == FilerFiled;
    var changed := set i | i in places && rules[i].kind == FilerPositionChange;
    SizesAdd(places, filed, changed);
    OneAtMost(rules, user, FilerFiled, target, filed);
    OneAtMost(rules, user, FilerPositionChange, target, changed);
  }

  lemma {:induction false} OneAtMost(rules: seq<Rule>, user: nat, kind: Kind, target: Target, places: set<nat>)
    requires Unique(rules)
    requires forall i :: i in places <==> 0 <= i < |rules| && IsAbout(rules[i], user, kind, target) && rules[i].active
    ensures |places| == if IsOn(rules, user, kind, target) then 1 else 0
  {
    if IsOn(rules, user, kind, target) {
      var i :| 0 <= i < |rules| && IsAbout(rules[i], user, kind, target) && rules[i].active;
      assert places == {i};
    } else {
      assert places == {};
    }
  }

  lemma {:induction false} UnfollowedOn(rules: seq<Rule>, user: nat, target: Target)
    requires Unique(rules) && OnlyTheTwo(rules, user, target) && target != NoTarget
    ensures |OnOf(OnUnfollow(rules, user, target), user, true)| + TwoOn(rules, user, target) == |OnOf(rules, user, true)|
  {
    TwoOnIsCount(rules, user, target);
    var after, places := OnUnfollow(rules, user, target), PlacesOn(rules, user, target);
    SizesAdd(OnOf(rules, user, true), OnOf(after, user, true), places);
  }

  /** Following leaves nothing it could still turn on. */
  predicate Settled(rules: seq<Rule>, user: nat, may: Allowance, target: Target) {
    !TurnsOnFiled(rules, user, may, target) && !TurnsOnChanged(rules, user, may, target)
  }

  lemma {:induction false} TurnedOnIsOn(before: seq<Rule>, after: seq<Rule>, user: nat, kind: Kind, target: Target, minValue: Option<nat>, channels: seq<Channel>)
    requires TurnedOn(before, after, user, kind, target, minValue, channels)
    ensures IsOn(after, user, kind, target)
  {
  }

  lemma {:induction false} FollowSettles(rules: seq<Rule>, user: nat, may: Allowance, target: Target)
    requires Unique(rules) && may.instant && target.OfFiler?
    ensures Unique(OnFollow(rules, user, may, target)) && Settled(OnFollow(rules, user, may, target), user, may, target)
  {
    var first := OnFollow(rules, user, may, target);
    FollowTouches(rules, user, may, target);
    FollowingTwice(rules, user, may, target);
    FollowTurnsOn(first, user, may, target);
    if TurnsOnFiled(first, user, may, target) {
      TurnedOnIsOn(first, first, user, FilerFiled, target, None, [EmailLists.InApp, EmailLists.Email]);
    }
    if TurnsOnChanged(first, user, may, target) {
      TurnedOnIsOn(first, first, user, FilerPositionChange, target, Some(1_000_000), [EmailLists.InApp]);
    }
  }

  /** The limit gives back what the first follow had: nothing was on, or the rules on are within it, with one to spare
      when only the second of the two is on. */
  predicate GivesBack(rules: seq<Rule>, user: nat, may: Allowance, target: Target) {
    if IsOn(rules, user, FilerFiled, target) then HasRoom(rules, user, may, 0)
    else IsOn(rules, user, FilerPositionChange, target) ==> HasRoom(rules, user, may, 1)
  }

  lemma {:induction false} AgainTurnsOn(rules: seq<Rule>, user: nat, may: Allowance, target: Target)
    requires Unique(rules) && may.instant && target.OfFiler? && OnlyTheTwo(rules, user, target) && Settled(rules, user, may, target)
    ensures var off := OnUnfollow(rules, user, target);
            GivesBack(rules, user, may, target)
            <==> TurnsOnFiled(off, user, may, target) == IsOn(rules, user, FilerFiled, target)
                 && TurnsOnChanged(off, user, may, target) == IsOn(rules, user, FilerPositionChange, target)
  {
    UnfollowedRow(rules, user, target, FilerFiled);
    UnfollowedRow(rules, user, target, FilerPositionChange);
    UnfollowedOn(rules, user, target);
    OnIsMade(rules, user, FilerFiled, target);
    OnIsMade(rules, user, FilerPositionChange, target);
  }

  lemma {:induction false} SamePlace(again: seq<Rule>, user: nat, kind: Kind, target: Target, i: nat, j: nat)
    requires Unique(again) && i < |again| && j < |again| && IsAbout(again[i], user, kind, target) && IsAbout(again[j], user, kind, target)
    ensures i == j
  {
  }

  /** A rule that was on, was turned off and is turned on again is where and as it was, and the only one. */
  lemma {:induction false} OnAgain(rules: seq<Rule>, again: seq<Rule>, user: nat, target: Target, kind: Kind, minValue: Option<nat>, channels: seq<Channel>)
    requires Unique(rules) && Unique(again) && target != NoTarget && KeepsSettings(OnUnfollow(rules, user, target), again)
    requires TurnedOn(OnUnfollow(rules, user, target), again, user, kind, target, minValue, channels) && IsOn(rules, user, kind, target)
    ensures forall i :: 0 <= i < |rules| && IsAbout(rules[i], user, kind, target) ==> again[i] == rules[i]
    ensures forall i :: |rules| <= i < |again| ==> !IsAbout(again[i], user, kind, target)
  {
    var off := OnUnfollow(rules, user, target);
    var was :| 0 <= was < |rules| && IsAbout(rules[was], user, kind, target) && rules[was].active;
    var i :| 0 <= i < |again|
      && again[i] == (if i < |off| then off[i].(active := true) else Rule(user, kind, target, minValue, channels, true))
      && IsAbout(again[i], user, kind, target);
    assert off[was] == rules[was].(active := false) && IsAbout(again[was], user, kind, target);
    SamePlace(again, user, kind, target, i, was);
    forall k | 0 <= k < |again| && IsAbout(again[k], user, kind, target) ensures k == was {
      SamePlace(again, user, kind, target, k, was);
    }
    forall k | 0 <= k < |rules| && IsAbout(rules[k], user, kind, target) ensures k == was {
      SamePlace(rules, user, kind, target, k, was);
    }
  }

  /** One of the two: it is on after exactly when it is turned on, and as it was if it then was on and not otherwise. */
  lemma {:induction false} KindIsAsBefore(rules: seq<Rule>, again: seq<Rule>, user: nat, target: Target, kind: Kind, turned: bool,
                                          minValue: Option<nat>, channels: seq<Channel>)
    requires Unique(rules) && Unique(again) && target != NoTarget && KeepsSettings(OnUnfollow(rules, user, target), again)
    requires var off := OnUnfollow(rules, user, target);
             if turned then TurnedOn(off, again, user, kind, target, minValue, channels) else LeftAlone(off, again, user, kind, target)
    ensures IsOn(again, user, kind, target) == turned
    ensures turned == IsOn(rules, user, kind, target) ==>
              && (forall i :: 0 <= i < |rules| && IsAbout(rules[i], user, kind, target) ==> again[i] == rules[i])
              && (forall i :: |rules| <= i < |again| ==> !IsAbout(again[i], user, kind, target))
  {
    var off := OnUnfollow(rules, user, target);
    if turned {
      TurnedOnIsOn(off, again, user, kind, target, minValue, channels);
      if IsOn(rules, user, kind, target) {
        OnAgain(rules, again, user, target, kind, minValue, channels);
      }
    } else {
      UnfollowedRow(rules, user, target, kind);
    }
  }

  /** After both, the rules are as they were exactly when the ones turned on are the ones that were on. */
  lemma {:induction false} AgainIsAsBefore(rules: seq<Rule>, user: nat, may: Allowance, target: Target)
    requires Unique(rules) && may.instant && target.OfFiler? && OnlyTheTwo(rules, user, target)
    ensures var off := OnUnfollow(rules, user, target);
            OnFollow(off, user, may, target) == rules
            <==> TurnsOnFiled(off, user, may, target) == IsOn(rules, user, FilerFiled, target)
                 && TurnsOnChanged(off, user, may, target) == IsOn(rules, user, FilerPositionChange, target)
  {
    var off := OnUnfollow(rules, user, target);
    var again := OnFollow(off, user, may, target);
    UnfollowedRow(rules, user, target, FilerFiled);
    FollowTurnsOn(off, user, may, target);
    FollowTouches(off, user, may, target);
    KindIsAsBefore(rules, again, user, target, FilerFiled, TurnsOnFiled(off, user, may, target), None, [EmailLists.InApp, EmailLists.Email]);
    KindIsAsBefore(rules, again, user, target, FilerPositionChange, TurnsOnChanged(off, user, may, target), Some(1_000_000), [EmailLists.InApp]);
    if TurnsOnFiled(off, user, may, target) == IsOn(rules, user, FilerFiled, target)
       && TurnsOnChanged(off, user, may, target) == IsOn(rules, user, FilerPositionChange, target) {
      AllAsBefore(rules, again, user, target, Kinds(INVESTOR_PRESETS));
    }
  }

  lemma {:induction false} AllAsBefore(rules: seq<Rule>, again: seq<Rule>, user: nat, target: Target, kinds: set<Kind>)
    requires target != NoTarget && OnlyTheTwo(rules, user, target) && kinds <= {FilerFiled, FilerPositionChange}
    requires OnlyTouches(OnUnfollow(rules, user, target), again, user, kinds, target)
    requires forall kind, i :: kind in {FilerFiled, FilerPositionChange} && 0 <= i < |rules| && IsAbout(rules[i], user, kind, target) ==> again[i] == rules[i]
    requires forall kind, i :: kind in {FilerFiled, FilerPositionChange} && |rules| <= i < |again| ==> !IsAbout(again[i], user, kind, target)
    ensures again == rules
  {
    var off := OnUnfollow(rules, user, target);
    assert |off| == |rules|;
    forall i | 0 <= i < |rules| ensures again[i] == rules[i] {
      if rules[i].user == user && rules[i].target == target {
        assert IsAbout(rules[i], user, rules[i].kind, target);
      } else {
        assert off[i] == rules[i];
      }
    }
    if |again| > |rules| {
      assert IsAbout(again[|rules|], user, again[|rules|].kind, target);
    }
  }

  lemma {:induction false} FollowKeepsTheTwo(rules: seq<Rule>, user: nat, may: Allowance, target: Target)
    requires Unique(rules) && may.instant && target.OfFiler? && OnlyTheTwo(rules, user, target)
    ensures OnlyTheTwo(OnFollow(rules, user, may, target), user, target)
  {
    FollowTouches(rules, user, may, target);
    assert Kinds(INVESTOR_PRESETS) <= {FilerFiled, FilerPositionChange};
  }

  /** Follow, unfollow, follow: the rules are those the first follow left exactly when the limit gives back what it
      had. With no limit it always does. */
  lemma {:induction false} FollowAgainIff(rules: seq<Rule>, user: nat, may: Allowance, target: Target)
    requires Unique(rules) && may.instant && target.OfFiler? && OnlyTheTwo(rules, user, target)
    ensures var first := Play(rules, [Following(user, may, target)]);
            Play(rules, [Following(user, may, target), Unfollowing(user, target), Following(user, may, target)]) == first
            <==> GivesBack(first, user, may, target)
  {
    var follow, unfollow := Following(user, may, target), Unfollowing(user, target);
    var run := [follow, unfollow, follow];
    assert run[..2] == [follow, unfollow] && run[..2][..1] == [follow] && [follow][..0] == [];
    var first := OnFollow(rules, user, may, target);
    assert Play(rules, [follow]) == first;
    assert Play(rules, [follow, unfollow]) == OnUnfollow(first, user, target);
    FollowSettles(rules, user, may, target);
    FollowKeepsTheTwo(rules, user, may, target);
    AgainTurnsOn(first, user, may, target);
    AgainIsAsBefore(first, user, may, target);
  }

  /** It may not: a limit of one, taken by the rule on changes, goes to the rule on filings the second time. */
  lemma {:induction false} FollowAgainMayDiffer()
    ensures var rules := [Rule(1, FilerPositionChange, OfFiler(5), None, [EmailLists.InApp], true)];
            var may := Allowance(true, Some(1));
            && OnFollow(rules, 1, may, OfFiler(5)) == rules
            && !IsOn(OnFollow(OnUnfollow(rules, 1, OfFiler(5)), 1, may, OfFiler(5)), 1, FilerPositionChange, OfFiler(5))
  {
    var rules := [Rule(1, FilerPositionChange, OfFiler(5), None, [EmailLists.InApp], true)];
    var may := Allowance(true, Some(1));
    assert rules[0].active && OnOf(rules, 1, true) == {0};
    assert IsOn(rules, 1, FilerPositionChange, OfFiler(5)) && !Made(rules, 1, FilerFiled, OfFiler(5));
    assert Settled(rules, 1, may, OfFiler(5));
    PendingIsDue(rules, 1, OfFiler(5));
    FitsIs(rules, 1, may, OfFiler(5));
    WriteNone(rules, 1, OfFiler(5));
    var off := OnUnfollow(rules, 1, OfFiler(5));
    assert off == [rules[0].(active := false)];
    assert OnOf(off, 1, true) == {};
    assert !IsOn(off, 1, FilerFiled, OfFiler(5)) && !HasRoom(off, 1, may, 2);
    FollowTurnsOn(off, 1, may, OfFiler(5));
  }
}

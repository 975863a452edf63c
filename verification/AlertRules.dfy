/** Following and unfollowing under two caps (app/accounts/alert_rules.py): what each does to the table of
    alert rules, and what no sequence of them can do. */
module AlertRules {
  import opened Wrappers
  import EmailLists

  datatype Kind = FilerFiled | FilerPositionChange | StockOwnershipChange | InsiderCluster | SeasonDigest | SavedFilterMatch

  type Channel = EmailLists.Channel

  /** A rule's subject; only the digest has none. */
  datatype Target = OfFiler(id: nat) | OfSecurity(id: nat) | OfSavedFilter(id: nat) | NoTarget

  datatype Rule = Rule(user: nat, kind: Kind, target: Target, minValue: Option<nat>, channels: seq<Channel>, active: bool)

  datatype Preset = Preset(kind: Kind, channels: seq<Channel>, minValue: Option<nat>)

  const MAX_WATCHLIST_ITEMS: nat := 500

  const MAX_ALERT_RULES: nat := 2 * MAX_WATCHLIST_ITEMS + 1

  const LARGE_CHANGE: nat := 1_000_000

  const INVESTOR_PRESETS: seq<Preset> := [
    Preset(FilerFiled, [EmailLists.InApp, EmailLists.Email], None),
    Preset(FilerPositionChange, [EmailLists.InApp], Some(LARGE_CHANGE))]

  const DIGEST_PRESETS: seq<Preset> := [Preset(SeasonDigest, [EmailLists.InApp, EmailLists.Email], None)]

  /** What the account's plan answers: the flag alerts_instant, and the limit alert_rules, None for no limit. */
  datatype Allowance = Allowance(instant: bool, rules: Option<nat>)

  /** A plan with instant alerts delivers all kinds; any other plan delivers the digest alone. */
  predicate Sends(instant: bool, kind: Kind) {
    instant || kind == SeasonDigest
  }

  /** The unique index: one rule per user, kind and target. */
  predicate Unique(rules: seq<Rule>) {
    forall i, j :: 0 <= i < j < |rules| ==>
      !(rules[i].user == rules[j].user && rules[i].kind == rules[j].kind && rules[i].target == rules[j].target)
  }

  predicate IsAbout(rule: Rule, user: nat, kind: Kind, target: Target) {
    rule.user == user && rule.kind == kind && rule.target == target
  }

  function Find(rules: seq<Rule>, user: nat, kind: Kind, target: Target): (at: Option<nat>)
    ensures at.Some? ==> at.value < |rules| && IsAbout(rules[at.value], user, kind, target)
    ensures at.None? ==> forall i :: 0 <= i < |rules| ==> !IsAbout(rules[i], user, kind, target)
  {
    if rules == [] then None
    else if IsAbout(rules[|rules| - 1], user, kind, target) then Some(|rules| - 1)
    else Find(rules[..|rules| - 1], user, kind, target)
  }

  predicate CountsAsOn(rule: Rule, user: nat, instant: bool) {
    rule.user == user && rule.active && Sends(instant, rule.kind)
  }

  /** How much of the plan's limit is used up. */
  function RulesOn(rules: seq<Rule>, user: nat, instant: bool): nat {
    if rules == [] then 0
    else RulesOn(rules[..|rules| - 1], user, instant) + (if CountsAsOn(rules[|rules| - 1], user, instant) then 1 else 0)
  }

  /** How much of the fixed bound is used up, by active and inactive rules alike. */
  function RulesKept(rules: seq<Rule>, user: nat): nat {
    if rules == [] then 0
    else RulesKept(rules[..|rules| - 1], user) + (if rules[|rules| - 1].user == user then 1 else 0)
  }

  predicate IsMissing(rules: seq<Rule>, user: nat, preset: Preset, target: Target) {
    Find(rules, user, preset.kind, target).None?
  }

  /** The preset's rule is missing, or off and to be turned on. */
  predicate IsPending(rules: seq<Rule>, user: nat, preset: Preset, target: Target, reactivate: bool) {
    var at := Find(rules, user, preset.kind, target);
    at.None? || (reactivate && !rules[at.value].active)
  }

  function Pending(rules: seq<Rule>, user: nat, presets: seq<Preset>, target: Target, reactivate: bool): seq<Preset> {
    if presets == [] then []
    else
      (if IsPending(rules, user, presets[0], target, reactivate) then [presets[0]] else [])
      + Pending(rules, user, presets[1..], target, reactivate)
  }

  /** The presets that have, or that have not, a rule to turn on. */
  function WithRule(rules: seq<Rule>, user: nat, presets: seq<Preset>, target: Target, has: bool): seq<Preset> {
    if presets == [] then []
    else
      (if IsMissing(rules, user, presets[0], target) != has then [presets[0]] else [])
      + WithRule(rules, user, presets[1..], target, has)
  }

  /** A rule that exists is switched on and nothing more; one that does not is made from the preset. */
  function Upsert(rules: seq<Rule>, user: nat, preset: Preset, target: Target): seq<Rule> {
    var at := Find(rules, user, preset.kind, target);
    if at.Some? then rules[at.value := rules[at.value].(active := true)]
    else rules + [Rule(user, preset.kind, target, preset.minValue, preset.channels, true)]
  }

  function Write(rules: seq<Rule>, user: nat, presets: seq<Preset>, target: Target): seq<Rule> {
    if presets == [] then rules
    else Upsert(Write(rules, user, presets[..|presets| - 1], target), user, presets[|presets| - 1], target)
  }

  /** What is left of the plan's limit, if it has one. */
  function Room(rules: seq<Rule>, user: nat, may: Allowance): Option<nat> {
    if may.rules.None? then None
    else
      var on := RulesOn(rules, user, may.instant);
      Some(if on < may.rules.value then may.rules.value - on else 0)
  }

  function Prefix(presets: seq<Preset>, space: Option<nat>): seq<Preset> {
    if space.Some? && space.value < |presets| then presets[..space.value] else presets
  }

  /** What a follow can afford: the front of the list, cut to the room left; and of that only the rules that exist,
      if making everything absent would break the bound. */
  function Fits(rules: seq<Rule>, user: nat, may: Allowance, todo: seq<Preset>, target: Target): seq<Preset> {
    var missing := |WithRule(rules, user, todo, target, false)|;
    var first := Prefix(todo, Room(rules, user, may));
    if missing > 0 && RulesKept(rules, user) + missing > MAX_ALERT_RULES
    then WithRule(rules, user, first, target, true)
    else first
  }

  /** The investor's two presets where the plan can deliver them, and the one digest where it cannot. */
  function PresetsFor(may: Allowance): seq<Preset> {
    if Sends(may.instant, FilerFiled) then INVESTOR_PRESETS else DIGEST_PRESETS
  }

  function TargetFor(may: Allowance, target: Target): Target {
    if Sends(may.instant, FilerFiled) then target else NoTarget
  }

  function OnFollow(rules: seq<Rule>, user: nat, may: Allowance, target: Target): seq<Rule> {
    if !target.OfFiler? then rules
    else
      var presets, about := PresetsFor(may), TargetFor(may, target);
      var todo := Pending(rules, user, presets, about, Sends(may.instant, FilerFiled));
      Write(rules, user, Fits(rules, user, may, todo, about), about)
  }

  function TurnedOff(rule: Rule, user: nat, target: Target): Rule {
    if rule.user == user && rule.active && rule.target == target then rule.(active := false) else rule
  }

  function OnUnfollow(rules: seq<Rule>, user: nat, target: Target): seq<Rule> {
    if target.NoTarget? then rules
    else seq(|rules|, i requires 0 <= i < |rules| => TurnedOff(rules[i], user, target))
  }

  // ----- the table, as the transactions change it -----

  class Store {
    var rules: seq<Rule>

    constructor (rules: seq<Rule>)
      ensures this.rules == rules
    {
      this.rules := rules;
    }

    method CountOn(user: nat, instant: bool) returns (n: nat)
      ensures n == RulesOn(rules, user, instant)
    {
      n := 0;
      for i := 0 to |rules|
        invariant n == RulesOn(rules[..i], user, instant)
      {
        assert rules[..i + 1][..i] == rules[..i];
        if rules[i].user == user && rules[i].active && Sends(instant, rules[i].kind) {
          n := n + 1;
        }
      }
      assert rules[..|rules|] == rules;
    }

    method CountKept(user: nat) returns (n: nat)
      ensures n == RulesKept(rules, user)
    {
      n := 0;
      for i := 0 to |rules|
        invariant n == RulesKept(rules[..i], user)
      {
        assert rules[..i + 1][..i] == rules[..i];
        if rules[i].user == user {
          n := n + 1;
        }
      }
      assert rules[..|rules|] == rules;
    }

    method WriteAll(user: nat, presets: seq<Preset>, target: Target)
      modifies this
      ensures rules == Write(old(rules), user, presets, target)
    {
      for i := 0 to |presets|
        invariant rules == Write(old(rules), user, presets[..i], target)
      {
        assert presets[..i + 1][..i] == presets[..i];
        var at := Find(rules, user, presets[i].kind, target);
        if at.Some? {
          rules := rules[at.value := rules[at.value].(active := true)];
        } else {
          rules := rules + [Rule(user, presets[i].kind, target, presets[i].minValue, presets[i].channels, true)];
        }
      }
      assert presets[..|presets|] == presets;
    }

    /** Cut the list down to what both caps can take. */
    method Fitting(user: nat, may: Allowance, todo: seq<Preset>, about: Target) returns (fits: seq<Preset>)
      ensures fits == Fits(rules, user, may, todo, about)
    {
      fits := todo;
      if may.rules.Some? {
        var on := CountOn(user, may.instant);
        var space := if on < may.rules.value then may.rules.value - on else 0;
        fits := if space < |fits| then fits[..space] else fits;
      }
      var missing := |WithRule(rules, user, todo, about, false)|;
      if missing > 0 {
        var kept := CountKept(user);
        if kept + missing > MAX_ALERT_RULES {
          fits := WithRule(rules, user, fits, about, true);
        }
      }
    }

    /** One follow, whole. It has no way to fail: what does not fit is left out. */
    method Follow(user: nat, may: Allowance, target: Target)
      modifies this
      ensures rules == OnFollow(old(rules), user, may, target)
    {
      if !target.OfFiler? {
        return;
      }
      var presets, reactivate, about := INVESTOR_PRESETS, true, target;
      if !Sends(may.instant, FilerFiled) {
        presets, reactivate, about := DIGEST_PRESETS, false, NoTarget;
      }
      var todo := Pending(rules, user, presets, about, reactivate);
      var fits := Fitting(user, may, todo, about);
      WriteAll(user, fits, about);
    }

    method Unfollow(user: nat, target: Target)
      modifies this
      ensures rules == OnUnfollow(old(rules), user, target)
    {
      if target.NoTarget? {
        return;
      }
      var before := rules;
      for i := 0 to |before|
        invariant |rules| == |before|
        invariant forall j :: 0 <= j < i ==> rules[j] == TurnedOff(before[j], user, target)
        invariant forall j :: i <= j < |before| ==> rules[j] == before[j]
      {
        if rules[i].user == user && rules[i].active && rules[i].target == target {
          rules := rules[i := rules[i].(active := false)];
        }
      }
    }
  }
}

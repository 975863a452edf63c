/** Mailing lists as switches over rules and consents, and unsubscribing as turning them
    (app/accounts/email_lists.py); and which list a batch of alerts goes out under (app/accounts/mail.py). */
module EmailLists {
  import opened Wrappers

  datatype Channel = InApp | Email

  datatype Rule = Rule(user: nat, active: bool, channels: seq<Channel>)

  datatype Purpose = ProductEmail | MarketingEmail

  datatype MailingList = OfRule(rule: nat) | AlertEmail | OfPurpose(purpose: Purpose)

  /** The rules, a deleted one leaving its id behind; each user's latest answer per purpose; which
      accounts there are, and whether each is deleted. */
  datatype Lists = Lists(rules: seq<Option<Rule>>, consents: map<(nat, Purpose), bool>, users: map<nat, bool>)

  /** The table's check channels_are_known: at least one channel. */
  datatype Refused = NoChannelLeft

  predicate LiveUser(lists: Lists, user: nat) {
    user in lists.users && !lists.users[user]
  }

  predicate Emails(rule: Rule) {
    rule.active && Email in rule.channels
  }

  predicate Owns(lists: Lists, user: nat, id: nat) {
    id < |lists.rules| && lists.rules[id].Some? && lists.rules[id].value.user == user
  }

  /** Membership: a live account, and a rule or a consent that still wants email. */
  predicate IsSubscribed(lists: Lists, user: nat, list: MailingList) {
    && LiveUser(lists, user)
    && match list
       case OfRule(id) => Owns(lists, user, id) && Emails(lists.rules[id].value)
       case AlertEmail => exists id :: 0 <= id < |lists.rules| && Owns(lists, user, id) && Emails(lists.rules[id].value)
       case OfPurpose(purpose) => (user, purpose) in lists.consents && lists.consents[(user, purpose)]
  }

  function WithoutEmail(channels: seq<Channel>): (rest: seq<Channel>)
    ensures Email !in rest
    ensures InApp in rest <==> InApp in channels
    ensures rest == [] <==> forall k :: 0 <= k < |channels| ==> channels[k] == Email
    ensures Email !in channels ==> rest == channels
  {
    if channels == [] then []
    else if channels[0] == Email then WithoutEmail(channels[1..])
    else [channels[0]] + WithoutEmail(channels[1..])
  }

  /** Email goes and nothing else does: every other channel is there as often as it was, and with one other there
      is, that is the order too. */
  lemma {:induction false} OnlyEmailGoes(channels: seq<Channel>)
    ensures multiset(WithoutEmail(channels)) == multiset(channels)[Email := 0]
    ensures forall k :: 0 <= k < |WithoutEmail(channels)| ==> WithoutEmail(channels)[k] == InApp
  {
    if channels != [] {
      var rest := channels[1..];
      OnlyEmailGoes(rest);
      assert channels == [channels[0]] + rest;
    }
  }

  /** Email is struck from the channels; a rule with no other channel goes inactive and keeps it. */
  function Stopped(rule: Rule): Rule {
    if Email !in rule.channels then rule
    else if rule.channels == [Email] then rule.(active := false)
    else rule.(channels := WithoutEmail(rule.channels))
  }

  /** Whether leaving the list reaches the rule. */
  predicate Reaches(lists: Lists, user: nat, list: MailingList, id: nat) {
    && Owns(lists, user, id)
    && (list == OfRule(id) || list == AlertEmail)
  }

  /** Whether the stopped rule passes the table's check on channels. */
  predicate Stoppable(rule: Rule) {
    Stopped(rule).channels != [] || rule.channels == []
  }

  function RuleAfter(lists: Lists, user: nat, list: MailingList, id: nat): Option<Rule>
    requires id < |lists.rules|
  {
    if Reaches(lists, user, list, id) then Some(Stopped(lists.rules[id].value)) else lists.rules[id]
  }

  /** The lists after the user leaves one, or the check that refused it, changing nothing. */
  function Left(lists: Lists, user: nat, list: MailingList): (left: Result<Lists, Refused>)
    ensures left.Success? ==> |left.value.rules| == |lists.rules| && left.value.users == lists.users
  {
    if exists id :: 0 <= id < |lists.rules| && Reaches(lists, user, list, id) && !Stoppable(lists.rules[id].value) then
      Failure(NoChannelLeft)
    else
      Success(lists.(rules := seq(|lists.rules|, id requires 0 <= id < |lists.rules| => RuleAfter(lists, user, list, id)),
                     consents := if list.OfPurpose? && LiveUser(lists, user) then lists.consents[(user, list.purpose) := false]
                                 else lists.consents))
  }

  /** The lists as the database keeps them. */
  class Store {
    var rules: seq<Option<Rule>>
    var consents: map<(nat, Purpose), bool>
    var users: map<nat, bool>

    ghost function State(): Lists
      reads this
    {
      Lists(rules, consents, users)
    }

    constructor (lists: Lists)
      ensures State() == lists
    {
      rules, consents, users := lists.rules, lists.consents, lists.users;
    }

    method Subscribed(user: nat, list: MailingList) returns (yes: bool)
      ensures yes == IsSubscribed(State(), user, list)
    {
      yes := false;
      if user !in users || users[user] {
        return;
      }
      match list {
        case OfRule(id) =>
          if id < |rules| && rules[id].Some? {
            var rule := rules[id].value;
            yes := rule.user == user && rule.active && Email in rule.channels;
          }
        case AlertEmail =>
          for id := 0 to |rules|
            invariant yes <==> exists k :: 0 <= k < id && Owns(State(), user, k) && Emails(rules[k].value)
          {
            if rules[id].Some? && rules[id].value.user == user && rules[id].value.active && Email in rules[id].value.channels {
              assert Owns(State(), user, id);
              yes := true;
            }
          }
        case OfPurpose(purpose) =>
          yes := (user, purpose) in consents && consents[(user, purpose)];
      }
    }

    /** Take the email out of one rule, or turn it off. */
    method StopEmailing(id: nat) returns (kept: bool)
      requires id < |rules| && rules[id].Some?
      modifies this`rules
      ensures rules == old(rules)[id := Some(Stopped(old(rules[id].value)))]
      ensures kept == Stoppable(old(rules[id].value))
    {
      var rule := rules[id].value;
      if Email !in rule.channels {
        assert rules == old(rules)[id := Some(rule)];
        return true;
      }
      if rule.channels == [Email] {
        rule := rule.(active := false);
      } else {
        rule := rule.(channels := WithoutEmail(rule.channels));
      }
      rules := rules[id := Some(rule)];
      kept := rule.channels != [];
    }

    /** Leave a list: one rule's, every rule that emails, or a purpose. */
    method Leave(user: nat, list: MailingList) returns (committed: bool)
      modifies this
      ensures match Left(old(State()), user, list)
              case Failure(_) => !committed && State() == old(State())
              case Success(after) => committed && State() == after
    {
      var before := rules;
      ghost var lists := State();
      committed := true;
      match list {
        case OfRule(rule) =>
          if rule < |rules| && rules[rule].Some? && rules[rule].value.user == user {
            committed := StopEmailing(rule);
          }
        case AlertEmail =>
          for id := 0 to |rules|
            invariant |rules| == |before| && consents == old(consents) && users == old(users)
            invariant forall k :: 0 <= k < id ==> rules[k] == RuleAfter(lists, user, list, k)
            invariant forall k :: id <= k < |rules| ==> rules[k] == before[k]
            invariant committed <==> forall k :: 0 <= k < id && Reaches(lists, user, list, k) ==> Stoppable(before[k].value)
          {
            if rules[id].Some? && rules[id].value.user == user && Email in rules[id].value.channels {
              var kept := StopEmailing(id);
              committed := committed && kept;
            }
          }
        case OfPurpose(purpose) =>
          if user in users && !users[user] && !((user, purpose) in consents && !consents[(user, purpose)]) {
            consents := consents[(user, purpose) := false];
          }
      }
      if !committed {
        rules := before;
      } else {
        assert rules == seq(|lists.rules|, id requires 0 <= id < |lists.rules| => RuleAfter(lists, user, list, id));
        assert list.OfPurpose? && LiveUser(lists, user) ==> consents == lists.consents[(user, list.purpose) := false];
      }
    }
  }

  // ----- what leaving does -----

  /** A user is on a list while the account stands and the rule, any of its rules, or its consent asks for email. */
  lemma {:induction false} SubscribedIff(lists: Lists, user: nat, list: MailingList)
    ensures IsSubscribed(lists, user, list)
            <==> user in lists.users && !lists.users[user]
                 && match list
                    case OfRule(id) => id < |lists.rules| && AsksForEmail(lists.rules[id], user)
                    case AlertEmail => exists id :: 0 <= id < |lists.rules| && AsksForEmail(lists.rules[id], user)
                    case OfPurpose(purpose) => (user, purpose) in lists.consents.Keys && lists.consents[(user, purpose)]
  {
    if list.AlertEmail? {
      forall id | 0 <= id < |lists.rules| ensures AsksForEmail(lists.rules[id], user) <==> Owns(lists, user, id) && Emails(lists.rules[id].value) {
      }
    }
  }

  /** The user's, on, and with email among its channels. */
  predicate AsksForEmail(rule: Option<Rule>, user: nat) {
    rule.Some? && rule.value.user == user && rule.value.active && exists k :: 0 <= k < |rule.value.channels| && rule.value.channels[k] == Email
  }

  /** What leaving writes: of the user's rules on the list, one that is only email is turned off and keeps it, and any
      other loses its email and nothing else; the consent of a standing account is withdrawn; nothing else changes. */
  lemma {:induction false} LeavingDoes(lists: Lists, user: nat, list: MailingList)
    requires Left(lists, user, list).Success?
    ensures var after := Left(lists, user, list).value;
            && after.users == lists.users && |after.rules| == |lists.rules|
            && (forall id :: 0 <= id < |lists.rules| ==>
                  var was, now := lists.rules[id], after.rules[id];
                  if was.None? || was.value.user != user || (list != AlertEmail && list != OfRule(id)) then now == was
                  else now == Some(if was.value.channels == [Email] then was.value.(active := false)
                                   else was.value.(channels := WithoutEmail(was.value.channels))))
            && after.consents
               == (if list.OfPurpose? && user in lists.users && !lists.users[user] then lists.consents[(user, list.purpose) := false]
                   else lists.consents)
  {
  }

  /** Leaving is refused exactly when a rule it reaches lists email more than once and nothing else. */
  lemma {:induction false} LeavingRefusedIff(lists: Lists, user: nat, list: MailingList)
    ensures Left(lists, user, list).Failure?
            <==> exists id :: 0 <= id < |lists.rules| && Reaches(lists, user, list, id)
                   && |lists.rules[id].value.channels| >= 2
                   && forall k :: 0 <= k < |lists.rules[id].value.channels| ==> lists.rules[id].value.channels[k] == Email
  {
    forall id | 0 <= id < |lists.rules| && lists.rules[id].Some?
      ensures !Stoppable(lists.rules[id].value)
              <==> |lists.rules[id].value.channels| >= 2
                   && forall k :: 0 <= k < |lists.rules[id].value.channels| ==> lists.rules[id].value.channels[k] == Email
    {
      StoppableIff(lists.rules[id].value);
    }
  }

  lemma {:induction false} StoppableIff(rule: Rule)
    ensures !Stoppable(rule) <==> |rule.channels| >= 2 && forall k :: 0 <= k < |rule.channels| ==> rule.channels[k] == Email
  {
    if |rule.channels| == 1 && rule.channels[0] == Email {
      assert rule.channels == [Email];
    }
    if |rule.channels| >= 2 && forall k :: 0 <= k < |rule.channels| ==> rule.channels[k] == Email {
      assert rule.channels[0] == Email;
    }
  }

  /** After leaving, the user is off the list; and nobody is on any list who was not before. */
  lemma {:induction false} LeavingLeaves(lists: Lists, user: nat, list: MailingList)
    requires Left(lists, user, list).Success?
    ensures !IsSubscribed(Left(lists, user, list).value, user, list)
    ensures forall other, elsewhere :: IsSubscribed(Left(lists, user, list).value, other, elsewhere) ==> IsSubscribed(lists, other, elsewhere)
  {
    var after := Left(lists, user, list).value;
    forall id | 0 <= id < |lists.rules| && lists.rules[id].Some?
      ensures after.rules[id].Some? && after.rules[id].value.user == lists.rules[id].value.user
      ensures Emails(after.rules[id].value) ==> Emails(lists.rules[id].value) && !Reaches(lists, user, list, id)
    {
    }
    forall other, elsewhere | IsSubscribed(after, other, elsewhere)
      ensures IsSubscribed(lists, other, elsewhere)
    {
      if elsewhere.AlertEmail? {
        var id :| 0 <= id < |after.rules| && Owns(after, other, id) && Emails(after.rules[id].value);
        assert Owns(lists, other, id) && Emails(lists.rules[id].value);
      }
    }
  }

  /** Leaving twice is leaving once. */
  lemma {:induction false} LeavingTwice(lists: Lists, user: nat, list: MailingList)
    requires Left(lists, user, list).Success?
    ensures Left(Left(lists, user, list).value, user, list) == Left(lists, user, list)
  {
    var after := Left(lists, user, list).value;
    forall id | 0 <= id < |lists.rules|
      ensures Reaches(after, user, list, id) ==> Stoppable(after.rules[id].value)
      ensures RuleAfter(after, user, list, id) == after.rules[id]
    {
      if Reaches(lists, user, list, id) {
        StoppedTwice(lists.rules[id].value);
      }
    }
    assert Left(after, user, list).Success?;
    assert Left(after, user, list).value.rules == after.rules;
    assert Left(after, user, list).value.consents == after.consents;
  }

  lemma {:induction false} StoppedTwice(rule: Rule)
    requires Stoppable(rule)
    ensures Stopped(Stopped(rule)) == Stopped(rule) && Stoppable(Stopped(rule))
  {
  }

  /** The damage is confined: the in-app channel and the rule it keeps alive survive, a rule the list does not reach
      is identical, and no rule ends up channelless or gains a channel. */
  lemma {:induction false} RulesKept(lists: Lists, user: nat, list: MailingList, id: nat)
    requires Left(lists, user, list).Success? && id < |lists.rules| && lists.rules[id].Some?
    ensures var before, after := lists.rules[id].value, Left(lists, user, list).value.rules[id];
            && after.Some? && after.value.user == before.user
            && (InApp in after.value.channels <==> InApp in before.channels)
            && (InApp in before.channels ==> after.value.active == before.active)
            && (after.value.active ==> before.active)
            && (before.channels != [] ==> after.value.channels != [])
            && (!Reaches(lists, user, list, id) ==> after.value == before)
  {
    var rule := lists.rules[id].value;
    if Reaches(lists, user, list, id) {
      assert Stoppable(rule);
    }
  }

  // ----- the list an alert email is on -----

  /** Alerts of a single rule go out under that rule; alerts of several under the list of all alerts. */
  function ListOf(rules: seq<nat>): MailingList
    requires rules != []
  {
    if forall k :: 0 <= k < |rules| ==> rules[k] == rules[0] then OfRule(rules[0]) else AlertEmail
  }

  /** An email about one rule is on that rule's list, and one about several on that of all alerts. */
  lemma {:induction false} ListIsOfItsRules(rules: seq<nat>, rule: nat)
    requires rules != []
    ensures ListOf(rules) == OfRule(rule) <==> forall r :: r in rules ==> r == rule
    ensures ListOf(rules) == AlertEmail <==> exists i, j :: 0 <= i < |rules| && 0 <= j < |rules| && rules[i] != rules[j]
  {
    assert rules[0] in rules;
    if forall r :: r in rules ==> r == rule {
      forall k | 0 <= k < |rules| ensures rules[k] == rules[0] {
        assert rules[k] in rules;
      }
    }
  }

  /** A digest joins its two parts before choosing. */
  function DigestListOf(filed: seq<nat>, overflow: seq<nat>): MailingList
    requires filed != [] || overflow != []
  {
    ListOf(filed + overflow)
  }

  /** The unsubscribe link of an alert, a batch or a digest does what its reader expects: after it, none of the
      rules the email was about still emails. */
  lemma {:induction false} LeavingAnEmailStopsItsRules(lists: Lists, user: nat, rules: seq<nat>, k: nat)
    requires rules != [] && k < |rules|
    requires forall j :: 0 <= j < |rules| ==> Owns(lists, user, rules[j])
    requires Left(lists, user, ListOf(rules)).Success?
    ensures Owns(Left(lists, user, ListOf(rules)).value, user, rules[k])
    ensures !Emails(Left(lists, user, ListOf(rules)).value.rules[rules[k]].value)
    ensures !IsSubscribed(Left(lists, user, ListOf(rules)).value, user, OfRule(rules[k]))
  {
    assert Reaches(lists, user, ListOf(rules), rules[k]);
  }

  /** The same of the evening digest, whichever of its two parts an alert was in. */
  lemma {:induction false} LeavingADigestStopsItsRules(lists: Lists, user: nat, filed: seq<nat>, overflow: seq<nat>, rule: nat)
    requires rule in filed || rule in overflow
    requires forall r :: r in filed || r in overflow ==> Owns(lists, user, r)
    requires Left(lists, user, DigestListOf(filed, overflow)).Success?
    ensures Owns(Left(lists, user, DigestListOf(filed, overflow)).value, user, rule)
    ensures !Emails(Left(lists, user, DigestListOf(filed, overflow)).value.rules[rule].value)
    ensures !IsSubscribed(Left(lists, user, DigestListOf(filed, overflow)).value, user, OfRule(rule))
  {
    var all := filed + overflow;
    assert rule in all;
    var k :| 0 <= k < |all| && all[k] == rule;
    LeavingAnEmailStopsItsRules(lists, user, all, k);
  }

  // ----- channels as they are written -----

  /** One of each: all that the API writes, and what every preset is. */
  predicate OneOfEach(channels: seq<Channel>) {
    forall i, j :: 0 <= i < j < |channels| ==> channels[i] != channels[j]
  }

  predicate AllOneOfEach(lists: Lists) {
    forall id :: 0 <= id < |lists.rules| && lists.rules[id].Some? ==> OneOfEach(lists.rules[id].value.channels)
  }

  lemma {:induction false} AllBells(channels: seq<Channel>)
    requires forall k :: 0 <= k < |channels| ==> channels[k] == InApp
    ensures multiset(channels)[InApp] == |channels|
  {
    if channels != [] {
      AllBells(channels[1..]);
      assert channels == [channels[0]] + channels[1..];
    }
  }

  lemma {:induction false} StoppedKeepsOneOfEach(rule: Rule)
    requires OneOfEach(rule.channels)
    ensures OneOfEach(Stopped(rule).channels) && Stoppable(rule)
  {
    OnlyEmailGoes(rule.channels);
    OneAtMost(rule.channels, InApp);
    AllBells(WithoutEmail(rule.channels));
    StoppableIff(rule);
  }

  lemma {:induction false} OneAtMost(channels: seq<Channel>, c: Channel)
    requires OneOfEach(channels)
    ensures multiset(channels)[c] <= 1
  {
    if channels != [] {
      var last := |channels| - 1;
      var init := channels[..last];
      assert channels == init + [channels[last]];
      OneAtMost(init, c);
      if c in init {
        var i :| 0 <= i < last && init[i] == c;
        assert channels[i] != channels[last];
      }
    }
  }

  /** While no rule lists a channel twice, leaving any list is never refused, and no rule lists one twice after. */
  lemma {:induction false} LeavingIsNotRefused(lists: Lists, user: nat, list: MailingList)
    requires AllOneOfEach(lists)
    ensures Left(lists, user, list).Success? && AllOneOfEach(Left(lists, user, list).value)
  {
    forall id | 0 <= id < |lists.rules| && lists.rules[id].Some?
      ensures Stoppable(lists.rules[id].value) && OneOfEach(Stopped(lists.rules[id].value).channels)
    {
      StoppedKeepsOneOfEach(lists.rules[id].value);
    }
  }
}

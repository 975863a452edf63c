/** What Python's int makes of a header's ts: exactly which text it reads, and as which number. */
module PaddleNumbers {
  import opened Wrappers
  import opened Paddle

  /** The characters Python's int passes over around a number. */
  predicate PassedOver(code: int) {
    code in {9, 10, 11, 12, 13, 32, 0x85, 0xA0, 0x1680, 0x2000, 0x2001, 0x2002, 0x2003, 0x2004, 0x2005, 0x2006, 0x2007, 0x2008,
             0x2009, 0x200A, 0x2028, 0x2029, 0x202F, 0x205F, 0x3000}
  }

  predicate AroundNumbers(s: string) {
    forall i :: 0 <= i < |s| ==> PassedOver(s[i] as int)
  }

  lemma {:induction false} CodesOfSpace(c: char)
    ensures PassedOver(c as int) <==> IsIntSpace(c)
    ensures IsSpace(c) <==> PassedOver(c as int) || c as int in {28, 29, 30, 31}
  {
  }

  lemma {:induction false} AroundIsSpace(s: string)
    ensures AroundNumbers(s) <==> AllOf(s, IsIntSpace)
  {
    forall i | 0 <= i < |s| ensures IsIntSpace(s[i]) <==> PassedOver(s[i] as int) {
      CodesOfSpace(s[i]);
    }
  }

  /** Digits in groups, none of them empty. */
  predicate AreGroups(groups: seq<string>) {
    groups != [] && forall k :: 0 <= k < |groups| ==> AllDigits(groups[k])
  }

  function Flat(groups: seq<string>): string {
    if groups == [] then [] else groups[0] + Flat(groups[1..])
  }

  lemma {:induction false} CountsAdd(a: string, b: string)
    ensures DigitCount(a + b) == DigitCount(a) + DigitCount(b)
  {
    if b == [] {
      assert a + b == a;
    } else {
      var init := b[..|b| - 1];
      CountsAdd(a, init);
      assert (a + b)[..|a + b| - 1] == a + init;
    }
  }

  lemma {:induction false} CountOfDigits(s: string)
    requires forall i :: 0 <= i < |s| ==> IsDigit(s[i])
    ensures DigitCount(s) == |s|
  {
    if s != [] {
      CountOfDigits(s[..|s| - 1]);
    }
  }

  lemma {:induction false} ValueAfter(a: string, c: string, b: string)
    requires Value(a) == Value(c)
    ensures Value(a + b) == Value(c + b)
  {
    if b == [] {
      assert a + b == a && c + b == c;
    } else {
      var init := b[..|b| - 1];
      ValueAfter(a, c, init);
      assert (a + b)[..|a + b| - 1] == a + init && (c + b)[..|c + b| - 1] == c + init;
    }
  }

  lemma {:induction false} JoinedNext(prefix: string, groups: seq<string>)
    requires |groups| > 1
    ensures prefix + Join(groups, '_') == prefix + groups[0] + ['_'] + Join(groups[1..], '_')
    ensures prefix + Flat(groups) == prefix + groups[0] + Flat(groups[1..])
  {
    Regrouped(prefix, groups[0], Join(groups[1..], '_'), Flat(groups[1..]));
  }

  lemma {:induction false} Regrouped(prefix: string, first: string, joined: string, flat: string)
    ensures prefix + (first + ['_'] + joined) == prefix + first + ['_'] + joined
    ensures prefix + (first + flat) == prefix + first + flat
  {
  }

  lemma {:induction false} UnderscoreIsNothing(s: string)
    ensures Value(s + ['_']) == Value(s) && DigitCount(s + ['_']) == DigitCount(s)
  {
    assert (s + ['_'])[..|s|] == s;
  }

  /** Underscores between the groups do not change the value. */
  lemma {:induction false} GroupsAreRead(prefix: string, groups: seq<string>)
    requires AreGroups(groups)
    ensures Value(prefix + Join(groups, '_')) == Value(prefix + Flat(groups))
    decreases |groups|
  {
    if |groups| == 1 {
      assert Flat(groups[1..]) == [] && groups[0] + [] == groups[0];
    } else {
      JoinedNext(prefix, groups);
      GroupsAreRead(prefix + groups[0] + ['_'], groups[1..]);
      UnderscoreIsNothing(prefix + groups[0]);
      ValueAfter(prefix + groups[0] + ['_'], prefix + groups[0], Flat(groups[1..]));
    }
  }

  /** Nor how many digits there are. */
  lemma {:induction false} GroupsAreCounted(groups: seq<string>)
    requires AreGroups(groups)
    ensures DigitCount(Join(groups, '_')) == |Flat(groups)|
    decreases |groups|
  {
    CountOfDigits(groups[0]);
    if |groups| == 1 {
      assert Flat(groups[1..]) == [];
    } else {
      GroupsAreCounted(groups[1..]);
      UnderscoreIsNothing(groups[0]);
      CountsAdd(groups[0] + ['_'], Join(groups[1..], '_'));
    }
  }

  lemma {:induction false} GroupsAreNumerals(groups: seq<string>)
    requires AreGroups(groups)
    ensures IsNumeral(Join(groups, '_'))
  {
    if |groups| > 1 {
      GroupsAreNumerals(groups[1..]);
      var first, rest := groups[0], Join(groups[1..], '_');
      NumeralsJoin(first, rest);
    }
  }

  lemma {:induction false} NumeralsJoin(first: string, rest: string)
    requires AllDigits(first) && IsNumeral(rest)
    ensures IsNumeral(first + ['_'] + rest)
  {
    var s := first + ['_'] + rest;
    forall i | 0 <= i < |s| ensures IsDigit(s[i]) || s[i] == '_' {
      assert s[i] == if i < |first| then first[i] else if i == |first| then '_' else rest[i - |first| - 1];
    }
    forall i | 0 < i < |s| ensures IsDigit(s[i - 1]) || IsDigit(s[i]) {
      assert s[i] == if i < |first| then first[i] else if i == |first| then '_' else rest[i - |first| - 1];
      assert s[i - 1] == if i - 1 < |first| then first[i - 1] else if i - 1 == |first| then '_' else rest[i - |first| - 2];
    }
  }

  lemma {:induction false} NumeralIsGroups(s: string) returns (groups: seq<string>)
    requires IsNumeral(s)
    ensures AreGroups(groups) && Join(groups, '_') == s
  {
    if |s| == 1 {
      groups := [s];
    } else if IsDigit(s[1]) {
      var more := NumeralIsGroups(s[1..]);
      groups := [[s[0]] + more[0]] + more[1..];
      JoinFirst(more, s[0], '_');
      assert s == [s[0]] + s[1..];
    } else {
      assert s[1] == '_' && IsDigit(s[2]);
      var more := NumeralIsGroups(s[2..]);
      groups := [[s[0]]] + more;
      assert groups[1..] == more;
      assert s == [s[0]] + ['_'] + s[2..];
    }
  }

  predicate IsSign(sign: string) {
    sign == "" || sign == "+" || sign == "-"
  }

  lemma {:induction false} IntOfSigned(sign: string, numeral: string)
    requires IsSign(sign) && IsNumeral(numeral) && DigitCount(numeral) <= MAX_DIGITS
    ensures IntOf(sign + numeral) == Some(if sign == "-" then -(Value(numeral) as int) else Value(numeral))
  {
    var s := sign + numeral;
    if sign == "" {
      assert s == numeral;
    } else {
      assert s[0] == sign[0] && s[1..] == numeral;
    }
  }

  lemma {:induction false} IntOfIsSigned(s: string) returns (sign: string, numeral: string)
    requires IntOf(s).Some?
    ensures IsSign(sign) && IsNumeral(numeral) && DigitCount(numeral) <= MAX_DIGITS && s == sign + numeral
  {
    if s[0] == '-' || s[0] == '+' {
      sign, numeral := [s[0]], s[1..];
    } else {
      sign, numeral := "", s;
    }
  }

  lemma {:induction false} SignedIsTight(sign: string, numeral: string)
    requires IsSign(sign) && IsNumeral(numeral)
    ensures var s := sign + numeral;
            s != [] && !IsIntSpace(s[0]) && !IsIntSpace(s[|s| - 1])
  {
    var s := sign + numeral;
    assert s[|s| - 1] == numeral[|numeral| - 1];
    assert s[0] == if sign == "" then numeral[0] else sign[0];
  }

  lemma {:induction false} SpaceIsPassedOver(left: string, s: string, right: string)
    requires AroundNumbers(left) && AroundNumbers(right) && s != [] && !IsIntSpace(s[0]) && !IsIntSpace(s[|s| - 1])
    ensures ParseInt(left + s + right) == IntOf(s)
  {
    AroundIsSpace(left);
    AroundIsSpace(right);
    StripsBlank(left, s, right, IsIntSpace);
  }

  lemma {:induction false} GroupsHaveValue(groups: seq<string>)
    requires AreGroups(groups)
    ensures Value(Join(groups, '_')) == Value(Flat(groups))
  {
    GroupsAreRead([], groups);
    assert [] + Join(groups, '_') == Join(groups, '_');
    assert [] + Flat(groups) == Flat(groups);
  }

  lemma {:induction false} IntOfValue(sign: string, numeral: string, value: nat, digits: nat)
    requires IsSign(sign) && IsNumeral(numeral) && DigitCount(numeral) == digits <= MAX_DIGITS && Value(numeral) == value
    ensures IntOf(sign + numeral) == Some(if sign == "-" then -(value as int) else value)
  {
    IntOfSigned(sign, numeral);
  }

  lemma {:induction false} IntOfGroups(sign: string, groups: seq<string>)
    requires IsSign(sign) && AreGroups(groups) && |Flat(groups)| <= 4300
    ensures IntOf(sign + Join(groups, '_')) == Some(if sign == "-" then -(Value(Flat(groups)) as int) else Value(Flat(groups)))
  {
    GroupsAreNumerals(groups);
    GroupsAreCounted(groups);
    GroupsHaveValue(groups);
    IntOfValue(sign, Join(groups, '_'), Value(Flat(groups)), |Flat(groups)|);
  }

  /** int reads digits, with one underscore between any two or none, after one sign or none, with space around them: no
      more than 4300 of them, as the number they are. */
  lemma {:induction false} IntReads(left: string, sign: string, groups: seq<string>, right: string)
    requires AroundNumbers(left) && AroundNumbers(right) && IsSign(sign) && AreGroups(groups) && |Flat(groups)| <= 4300
    ensures ParseInt(left + (sign + Join(groups, '_')) + right)
            == Some(if sign == "-" then -(Value(Flat(groups)) as int) else Value(Flat(groups)))
  {
    GroupsAreNumerals(groups);
    SignedIsTight(sign, Join(groups, '_'));
    SpaceIsPassedOver(left, sign + Join(groups, '_'), right);
    IntOfGroups(sign, groups);
  }

  lemma {:induction false} SpaceAround(value: string) returns (left: string, right: string)
    ensures AroundNumbers(left) && AroundNumbers(right) && value == left + Strip(value, IsIntSpace) + right
  {
    left := StrippedLeft(value, IsIntSpace);
    right := StrippedRight(StripLeft(value, IsIntSpace), IsIntSpace);
    AroundIsSpace(left);
    AroundIsSpace(right);
  }

  /** And nothing else. */
  lemma {:induction false} IntReadsNothingElse(value: string) returns (left: string, sign: string, groups: seq<string>, right: string)
    requires ParseInt(value).Some?
    ensures AroundNumbers(left) && AroundNumbers(right) && IsSign(sign) && AreGroups(groups) && |Flat(groups)| <= 4300
    ensures value == left + (sign + Join(groups, '_')) + right
  {
    left, right := SpaceAround(value);
    var numeral;
    sign, numeral := IntOfIsSigned(Strip(value, IsIntSpace));
    groups := NumeralIsGroups(numeral);
    GroupsAreCounted(groups);
  }

  // ----- the number itself -----

  /** Its digits in base ten, from the last. */
  function Tens(digits: string): nat
    requires forall i :: 0 <= i < |digits| ==> '0' <= digits[i] <= '9'
  {
    if digits == [] then 0
    else Tens(digits[..|digits| - 1]) * 10 + (digits[|digits| - 1] as int - 48)
  }

  lemma {:induction false} ValueIsTens(digits: string)
    requires forall i :: 0 <= i < |digits| ==> '0' <= digits[i] <= '9'
    ensures Value(digits) == Tens(digits)
  {
    if digits != [] {
      ValueIsTens(digits[..|digits| - 1]);
    }
  }
}

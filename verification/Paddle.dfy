/** The Paddle-Signature header (app/accounts/paddle.py): how it is written, how it is read, and which are
    accepted. HMAC-SHA256 (section 2 of RFC 2104) is a parameter; nothing is claimed of it but what its
    hexadecimal digests are written in. */
module Paddle {
  import opened Wrappers

  datatype SignatureError =
    | NoHeader
    | TsIsNotANumber
    | NeedsTsAndH1
    | TooOld
    | NoH1Matches
    | NotAscii  // compare_digest's own TypeError, on a string beyond ASCII: not caught
    | Overflow  // int(now - ts)'s own OverflowError, on a ts no float holds: not caught

  datatype Verdict = Accepted | Refused(error: SignatureError)

  // ----- Python's strings -----

  /** str.isspace. */
  predicate IsSpace(c: char) {
    || '\t' <= c <= '\r' || '\U{1c}' <= c <= ' ' || c == '\U{85}' || c == '\U{a0}' || c == '\U{1680}'
    || '\U{2000}' <= c <= '\U{200a}' || c == '\U{2028}' || c == '\U{2029}' || c == '\U{202f}' || c == '\U{205f}' || c == '\U{3000}'
  }

  /** The space int takes off around a number: not the four separators. */
  predicate IsIntSpace(c: char) {
    IsSpace(c) && !('\U{1c}' <= c <= '\U{1f}')
  }

  function StripLeft(s: string, space: char -> bool): string {
    if s != [] && space(s[0]) then StripLeft(s[1..], space) else s
  }

  function StripRight(s: string, space: char -> bool): string {
    if s != [] && space(s[|s| - 1]) then StripRight(s[..|s| - 1], space) else s
  }

  function Strip(s: string, space: char -> bool): string {
    StripRight(StripLeft(s, space), space)
  }

  /** str.split on one character. */
  function Split(s: string, at: char): (parts: seq<string>)
    ensures parts != []
  {
    if s == [] then [[]]
    else
      var rest := Split(s[1..], at);
      if s[0] == at then [[]] + rest else [[s[0]] + rest[0]] + rest[1..]
  }

  function Join(parts: seq<string>, at: char): string {
    if parts == [] then []
    else if |parts| == 1 then parts[0]
    else parts[0] + [at] + Join(parts[1..], at)
  }

  /** str.partition: around the first place the separator is found. */
  function Partition(s: string, separator: string): (string, string) {
    if separator <= s then ([], s[|separator|..])
    else if s == [] then ([], [])
    else
      var rest := Partition(s[1..], separator);
      ([s[0]] + rest.0, rest.1)
  }

  // ----- Python's integers -----

  predicate IsDigit(c: char) {
    '0' <= c <= '9'
  }

  /** int's own limit on the digits it reads. */
  const MAX_DIGITS: nat := 4300

  /** Digits, with an underscore between any two. */
  predicate IsNumeral(s: string) {
    && s != [] && IsDigit(s[0]) && IsDigit(s[|s| - 1])
    && (forall i :: 0 <= i < |s| ==> IsDigit(s[i]) || s[i] == '_')
    && (forall i :: 0 < i < |s| ==> IsDigit(s[i - 1]) || IsDigit(s[i]))
  }

  function DigitCount(s: string): nat {
    if s == [] then 0 else DigitCount(s[..|s| - 1]) + (if IsDigit(s[|s| - 1]) then 1 else 0)
  }

  function Value(s: string): nat {
    if s == [] then 0
    else
      var last := s[|s| - 1];
      if IsDigit(last) then Value(s[..|s| - 1]) * 10 + (last as int - '0' as int) else Value(s[..|s| - 1])
  }

  /** What is left of it, once the space around it is gone, as a number. */
  function IntOf(s: string): Option<int> {
    var signed := s != [] && (s[0] == '-' || s[0] == '+');
    var digits := if signed then s[1..] else s;
    var size: int := Value(digits);
    if !IsNumeral(digits) || DigitCount(digits) > MAX_DIGITS then None
    else Some(if signed && s[0] == '-' then -size else size)
  }

  /** int(value), of a header's characters: None for a ValueError. */
  function ParseInt(value: string): Option<int> {
    IntOf(Strip(value, IsIntSpace))
  }

  function Digits(n: nat): string {
    (if n < 10 then [] else Digits(n / 10)) + [('0' as int + n % 10) as char]
  }

  /** f"{ts}". */
  function Decimal(n: int): string {
    if n < 0 then "-" + Digits(-n) else Digits(n)
  }

  // ----- writing a signature -----

  /** The digest of a message under a secret, in hexadecimal. */
  type Hmac = (string, string) -> string

  predicate IsHex(s: string) {
    s != [] && forall i :: 0 <= i < |s| ==> IsDigit(s[i]) || 'a' <= s[i] <= 'f'
  }

  ghost predicate WritesHex(hmac: Hmac) {
    forall secret, message :: IsHex(hmac(secret, message))
  }

  function Message(body: string, ts: int): string {
    Decimal(ts) + ":" + body
  }

  function Sign(hmac: Hmac, body: string, secret: string, ts: int): string {
    "ts=" + Decimal(ts) + ";h1=" + hmac(secret, Message(body, ts))
  }

  // ----- reading one -----

  /** The last ts, and every h1 that is not empty, in order. */
  datatype Read = Read(ts: Option<int>, signatures: seq<string>)

  function Take(read: Read, part: string): Result<Read, SignatureError> {
    var field := Partition(Strip(part, IsSpace), "=");
    if field.0 == "ts" then
      match ParseInt(field.1)
      case None => Failure(TsIsNotANumber)
      case Some(ts) => Success(read.(ts := Some(ts)))
    else if field.0 == "h1" && field.1 != [] then Success(read.(signatures := read.signatures + [field.1]))
    else Success(read)
  }

  function Scan(parts: seq<string>): Result<Read, SignatureError> {
    if parts == [] then Success(Read(None, []))
    else
      match Scan(parts[..|parts| - 1])
      case Failure(e) => Failure(e)
      case Success(read) => Take(read, parts[|parts| - 1])
  }

  predicate IsAscii(s: string) {
    forall i :: 0 <= i < |s| ==> s[i] < '\U{80}'
  }

  /** any(compare_digest(...)): the candidates in order, until one matches. */
  function Match(expected: string, candidates: seq<string>): Verdict {
    if candidates == [] then Refused(NoH1Matches)
    else if !IsAscii(candidates[0]) then Refused(NotAscii)
    else if candidates[0] == expected then Accepted
    else Match(expected, candidates[1..])
  }

  /** The first integer that rounds past the largest float: 2 to the 1024th less 2 to the 970th. */
  const FLOAT_LIMIT: int := 0xFFFFFFFFFFFFFC00000000000000000000000000000000000000000000000000000000000000000000000000000000000000000000000000000000000000000000000000000000000000000000000000000000000000000000000000000000000000000000000000000000000000000000000000000000000000000000000000

  /** Saying how old a signature is takes the ts from the time, a float: one no float holds cannot be said. */
  function TooOldFor(ts: int): SignatureError {
    if -FLOAT_LIMIT < ts < FLOAT_LIMIT then TooOld else Overflow
  }

  function Expected(hmac: Hmac, body: string, secret: string, ts: int): string {
    Partition(Sign(hmac, body, secret, ts), "h1=").1
  }

  function Verify(hmac: Hmac, header: Option<string>, body: string, secret: string, now: real, tolerance: int): Verdict {
    if header.None? || header.value == [] then Refused(NoHeader)
    else
      match Scan(Split(header.value, ';'))
      case Failure(e) => Refused(e)
      case Success(read) =>
        if read.ts.None? || read.signatures == [] then Refused(NeedsTsAndH1)
        else if now > (read.ts.value + tolerance) as real then Refused(TooOldFor(read.ts.value))
        else Match(Expected(hmac, body, secret, read.ts.value), read.signatures)
  }

  lemma {:induction false} ScanFails(parts: seq<string>, i: nat, e: SignatureError)
    requires i <= |parts| && Scan(parts[..i]) == Failure(e)
    ensures Scan(parts) == Failure(e)
  {
    if i == |parts| {
      assert parts[..i] == parts;
    } else {
      assert parts[..|parts| - 1][..i] == parts[..i];
      ScanFails(parts[..|parts| - 1], i, e);
    }
  }

  method MatchAny(expected: string, candidates: seq<string>) returns (verdict: Verdict)
    ensures verdict == Match(expected, candidates)
  {
    for i := 0 to |candidates|
      invariant Match(expected, candidates) == Match(expected, candidates[i..])
    {
      assert candidates[i..][1..] == candidates[i + 1..];
      if !IsAscii(candidates[i]) {
        return Refused(NotAscii);
      }
      if candidates[i] == expected {
        return Accepted;
      }
    }
    return Refused(NoH1Matches);
  }

  method ReadParts(parts: seq<string>) returns (read: Result<Read, SignatureError>)
    ensures read == Scan(parts)
  {
    var ts: Option<int>, signatures: seq<string> := None, [];
    for i := 0 to |parts|
      invariant Scan(parts[..i]) == Success(Read(ts, signatures))
    {
      assert parts[..i + 1][..i] == parts[..i];
      var field := Partition(Strip(parts[i], IsSpace), "=");
      if field.0 == "ts" {
        ts := ParseInt(field.1);
        if ts.None? {
          ScanFails(parts, i + 1, TsIsNotANumber);
          return Failure(TsIsNotANumber);
        }
      } else if field.0 == "h1" && field.1 != [] {
        signatures := signatures + [field.1];
      }
    }
    assert parts[..|parts|] == parts;
    return Success(Read(ts, signatures));
  }

  method VerifySignature(hmac: Hmac, header: Option<string>, body: string, secret: string, now: real, tolerance: int)
    returns (verdict: Verdict)
    ensures verdict == Verify(hmac, header, body, secret, now, tolerance)
  {
    if header.None? || header.value == [] {
      return Refused(NoHeader);
    }
    var read := ReadParts(Split(header.value, ';'));
    if read.Failure? {
      return Refused(read.error);
    }
    var (ts, signatures) := (read.value.ts, read.value.signatures);
    if ts.None? || signatures == [] {
      return Refused(NeedsTsAndH1);
    }
    if now > (ts.value + tolerance) as real {
      return Refused(if -FLOAT_LIMIT < ts.value < FLOAT_LIMIT then TooOld else Overflow);
    }
    verdict := MatchAny(Expected(hmac, body, secret, ts.value), signatures);
  }

  // ----- numbers read back -----

  predicate AllDigits(s: string) {
    s != [] && forall i :: 0 <= i < |s| ==> IsDigit(s[i])
  }

  lemma {:induction false} OneMoreDigit(s: string, d: nat)
    requires d < 10
    ensures var more := s + [('0' as int + d) as char];
            Value(more) == Value(s) * 10 + d && DigitCount(more) == DigitCount(s) + 1
  {
    var more := s + [('0' as int + d) as char];
    assert more[..|more| - 1] == s;
  }

  lemma {:induction false} DigitIsRead(d: nat)
    requires d < 10
    ensures Digits(d) == [('0' as int + d) as char] && Value(Digits(d)) == d && DigitCount(Digits(d)) == 1
  {
    OneMoreDigit([], d);
    assert [] + [('0' as int + d) as char] == Digits(d);
  }

  lemma {:induction false} DigitsAreDigits(n: nat)
    ensures AllDigits(Digits(n))
    decreases n
  {
    if n >= 10 {
      DigitsAreDigits(n / 10);
    }
  }

  lemma {:induction false} AllDigitsAreNumerals(s: string)
    requires AllDigits(s)
    ensures IsNumeral(s)
  {
  }

  lemma {:induction false} DigitsAreRead(n: nat)
    ensures Value(Digits(n)) == n && DigitCount(Digits(n)) == |Digits(n)|
    decreases n
  {
    if n >= 10 {
      DigitsAreRead(n / 10);
      OneMoreDigit(Digits(n / 10), n % 10);
    } else {
      DigitIsRead(n);
    }
  }

  lemma {:induction false} DigitsReadBack(n: nat)
    ensures AllDigits(Digits(n)) && IsNumeral(Digits(n))
    ensures Value(Digits(n)) == n && DigitCount(Digits(n)) == |Digits(n)|
  {
    DigitsAreDigits(n);
    AllDigitsAreNumerals(Digits(n));
    DigitsAreRead(n);
  }

  lemma {:induction false} StripsNothing(s: string, space: char -> bool)
    requires s != [] ==> !space(s[0]) && !space(s[|s| - 1])
    ensures Strip(s, space) == s
  {
  }

  lemma {:induction false} NumeralsAreRead(digits: string)
    requires IsNumeral(digits) && DigitCount(digits) <= MAX_DIGITS
    ensures ParseInt(digits) == Some(Value(digits)) && ParseInt("-" + digits) == Some(-(Value(digits) as int))
  {
    StripsNothing(digits, IsIntSpace);
    StripsNothing("-" + digits, IsIntSpace);
    assert ("-" + digits)[1..] == digits;
  }

  predicate Readable(n: int) {
    |Digits(if n < 0 then -n else n)| <= MAX_DIGITS
  }

  /** A number is read back as it was written, whatever its sign. */
  lemma {:induction false} NumbersReadBack(n: int)
    requires Readable(n)
    ensures ParseInt(Decimal(n)) == Some(n)
  {
    var size := if n < 0 then -n else n;
    DigitsReadBack(size);
    NumeralsAreRead(Digits(size));
  }

  // ----- headers read back -----

  lemma {:induction false} SplitsJoined(parts: seq<string>, at: char)
    requires parts != [] && forall i :: 0 <= i < |parts| ==> at !in parts[i]
    ensures Split(Join(parts, at), at) == parts
  {
    var rest := if |parts| == 1 then [] else [at] + Join(parts[1..], at);
    assert Join(parts, at) == parts[0] + rest;
    if |parts| > 1 {
      SplitsJoined(parts[1..], at);
      assert rest[1..] == Join(parts[1..], at);
      assert Split(rest, at) == [[]] + parts[1..];
    } else {
      assert Split(rest, at) == [[]] + parts[1..];
    }
    SplitsAfter(parts[0], rest, at);
    assert parts[0] + [] == parts[0];
    assert parts == [parts[0]] + parts[1..];
  }

  lemma {:induction false} SplitsOneMore(c: char, s: string, at: char)
    requires c != at
    ensures Split([c] + s, at) == [[c] + Split(s, at)[0]] + Split(s, at)[1..]
  {
    assert ([c] + s)[1..] == s;
  }

  lemma {:induction false} SplitsAfter(part: string, rest: string, at: char)
    requires at !in part
    ensures Split(part + rest, at) == [part + Split(rest, at)[0]] + Split(rest, at)[1..]
  {
    if part == [] {
      assert part + rest == rest;
      assert part + Split(rest, at)[0] == Split(rest, at)[0];
    } else {
      var more := part[1..];
      SplitsAfter(more, rest, at);
      assert part + rest == [part[0]] + (more + rest);
      SplitsOneMore(part[0], more + rest, at);
      assert [part[0]] + (more + Split(rest, at)[0]) == part + Split(rest, at)[0];
    }
  }

  lemma {:induction false} StartsOtherwise(s: string, start: string)
    requires s != [] && start != [] && s[0] != start[0]
    ensures !(start <= s)
  {
  }

  /** A separator that starts nowhere in the text before it is found after that text. */
  lemma {:induction false} PartitionsAt(before: string, separator: string, after: string)
    requires separator != [] && forall i :: 0 <= i < |before| ==> before[i] != separator[0]
    ensures Partition(before + separator + after, separator) == (before, after)
  {
    var s := before + separator + after;
    if before == [] {
      assert s == separator + after;
      assert s[|separator|..] == after;
    } else {
      assert s[0] == before[0];
      StartsOtherwise(s, separator);
      assert s[1..] == before[1..] + separator + after;
      PartitionsAt(before[1..], separator, after);
      assert [before[0]] + before[1..] == before;
    }
  }

  lemma {:induction false} DecimalIsPlain(n: int)
    ensures Decimal(n) != [] && forall i :: 0 <= i < |Decimal(n)| ==> IsDigit(Decimal(n)[i]) || Decimal(n)[i] == '-'
  {
    DigitsReadBack(if n < 0 then -n else n);
  }

  /** What is compared with each h1 is the digest, and nothing else of the header Paddle would send. */
  lemma {:induction false} ExpectedIsTheDigest(hmac: Hmac, body: string, secret: string, ts: int)
    ensures Expected(hmac, body, secret, ts) == hmac(secret, Message(body, ts)) == hmac(secret, Decimal(ts) + ":" + body)
  {
    var before := "ts=" + Decimal(ts) + ";";
    DecimalIsPlain(ts);
    PartitionsAt(before, "h1=", hmac(secret, Message(body, ts)));
    assert before + "h1=" + hmac(secret, Message(body, ts)) == Sign(hmac, body, secret, ts);
  }

  /** No two bodies and times are signed as one message. */
  lemma {:induction false} MessagesDiffer(body: string, ts: int, other: string, otherTs: int)
    requires Message(body, ts) == Message(other, otherTs)
    ensures body == other && ts == otherTs
  {
    DecimalIsPlain(ts);
    DecimalIsPlain(otherTs);
    PartitionsAt(Decimal(ts), ":", body);
    PartitionsAt(Decimal(otherTs), ":", other);
    DecimalsDiffer(ts, otherTs);
  }

  lemma {:induction false} DecimalsDiffer(a: int, b: int)
    requires Decimal(a) == Decimal(b)
    ensures a == b
  {
    DigitsReadBack(if a < 0 then -a else a);
    DigitsReadBack(if b < 0 then -b else b);
    assert a < 0 ==> Decimal(a)[0] == '-' && Decimal(a)[1..] == Digits(-a);
    assert b < 0 ==> Decimal(b)[0] == '-' && Decimal(b)[1..] == Digits(-b);
  }

  // ----- any header, by its fields -----

  /** A field of a header. A ts is whatever is written for one, a number or not; one h1 may follow another, while a
      secret is rotated; what is neither, an empty field among them, is passed over. */
  datatype Field = Ts(numeral: string) | BareTs | H1(value: string) | Other(text: string)

  /** A field as written, with the space around it that reading takes off. */
  datatype Written = Written(left: string, field: Field, right: string)

  function Text(field: Field): string {
    match field
    case Ts(numeral) => "ts=" + numeral
    case BareTs => "ts"
    case H1(value) => "h1=" + value
    case Other(text) => text
  }

  function Render(w: Written): string {
    w.left + Text(w.field) + w.right
  }

  predicate Blank(s: string) {
    forall i :: 0 <= i < |s| ==> IsSpace(s[i])
  }

  predicate Tight(s: string) {
    s != [] ==> !IsSpace(s[0]) && !IsSpace(s[|s| - 1])
  }

  /** What other fields are: not a ts, nor an h1 that says anything. */
  predicate IsOther(text: string) {
    var field := Partition(text, "=");
    field.0 != "ts" && (field.0 == "h1" ==> field.1 == [])
  }

  /** What a field may be written as: its space is space, it neither begins nor ends in space, nor goes on into
      the next. Every header is of such fields. */
  predicate Writable(w: Written) {
    var text := Text(w.field);
    && Blank(w.left) && Blank(w.right)
    && ';' !in text && Tight(text)
    && (w.field.Other? ==> IsOther(text))
  }

  function Rendered(fields: seq<Written>): (parts: seq<string>)
    ensures |parts| == |fields|
  {
    seq(|fields|, i requires 0 <= i < |fields| => Render(fields[i]))
  }

  function Header(fields: seq<Written>): string {
    Join(Rendered(fields), ';')
  }

  /** The ts a field says, if it is one and a number. */
  function TsOf(field: Field): Option<int> {
    if field.Ts? then ParseInt(field.numeral) else None
  }

  predicate IsLegible(field: Field) {
    !field.BareTs? && (field.Ts? ==> TsOf(field).Some?)
  }

  predicate Legible(fields: seq<Written>) {
    forall i :: 0 <= i < |fields| ==> IsLegible(fields[i].field)
  }

  function SaidBy(field: Field): seq<string> {
    if field.H1? && field.value != [] then [field.value] else []
  }

  /** The values of the h1s that are not empty, in order. */
  function H1s(fields: seq<Written>): seq<string> {
    if fields == [] then [] else H1s(fields[..|fields| - 1]) + SaidBy(fields[|fields| - 1].field)
  }

  /** The ts that counts: the last. */
  function LastTs(fields: seq<Written>): Option<int> {
    if fields == [] then None
    else
      var last := fields[|fields| - 1].field;
      if last.Ts? then TsOf(last) else LastTs(fields[..|fields| - 1])
  }

  predicate AllOf(s: string, space: char -> bool) {
    forall i :: 0 <= i < |s| ==> space(s[i])
  }

  lemma {:induction false} StripLeftBlank(left: string, s: string, space: char -> bool)
    requires AllOf(left, space)
    ensures StripLeft(left + s, space) == StripLeft(s, space)
  {
    if left == [] {
      assert left + s == s;
    } else {
      assert (left + s)[1..] == left[1..] + s;
      StripLeftBlank(left[1..], s, space);
    }
  }

  lemma {:induction false} StripRightBlank(s: string, right: string, space: char -> bool)
    requires AllOf(right, space)
    ensures StripRight(s + right, space) == StripRight(s, space)
  {
    if right == [] {
      assert s + right == s;
    } else {
      var most := right[..|right| - 1];
      assert (s + right)[..|s + right| - 1] == s + most;
      StripRightBlank(s, most, space);
    }
  }

  lemma {:induction false} StripsBlank(left: string, s: string, right: string, space: char -> bool)
    requires AllOf(left, space) && AllOf(right, space) && (s != [] ==> !space(s[0]) && !space(s[|s| - 1]))
    ensures Strip(left + s + right, space) == s
  {
    assert left + s + right == left + (s + right);
    StripLeftBlank(left, s + right, space);
    if s == [] {
      assert s + right == right && right + [] == right;
      StripLeftBlank(right, [], space);
    } else {
      StripRightBlank(s, right, space);
    }
  }

  lemma {:induction false} FieldSplits(name: string, value: string)
    requires '=' !in name && name != [] && !IsSpace(name[0])
    requires value != [] ==> !IsSpace(value[|value| - 1])
    ensures Partition(Strip(name + "=" + value, IsSpace), "=") == (name, value)
  {
    StripsNothing(name + "=" + value, IsSpace);
    PartitionsAt(name, "=", value);
  }

  /** What a field adds to what has been read, or the refusal of a ts that is no number. */
  function Added(read: Read, field: Field): Result<Read, SignatureError> {
    if !IsLegible(field) then Failure(TsIsNotANumber)
    else Success(Read(if field.Ts? then TsOf(field) else read.ts, read.signatures + SaidBy(field)))
  }

  lemma {:induction false} TsReadsBack(read: Read, numeral: string)
    requires Tight("ts=" + numeral)
    ensures Take(read, "ts=" + numeral) == Added(read, Ts(numeral))
  {
    if numeral != [] {
      assert ("ts=" + numeral)[|"ts=" + numeral| - 1] == numeral[|numeral| - 1];
    }
    FieldSplits("ts", numeral);
    assert "ts=" == "ts" + "=";
    assert read.signatures + [] == read.signatures;
  }

  lemma {:induction false} BareTsReadsBack(read: Read)
    ensures Take(read, "ts") == Failure(TsIsNotANumber)
  {
    NoSeparator("ts", '=');
    StripsNothing("ts", IsSpace);
    StripsNothing("", IsIntSpace);
  }

  lemma {:induction false} H1ReadsBack(read: Read, value: string)
    requires Tight("h1=" + value)
    ensures Take(read, "h1=" + value) == Added(read, H1(value))
  {
    if value != [] {
      assert ("h1=" + value)[|"h1=" + value| - 1] == value[|value| - 1];
    }
    FieldSplits("h1", value);
    assert "h1=" == "h1" + "=";
    assert read.signatures + [] == read.signatures;
  }

  lemma {:induction false} TextReadsBack(read: Read, field: Field)
    requires Tight(Text(field)) && (field.Other? ==> IsOther(field.text))
    ensures Take(read, Text(field)) == Added(read, field)
  {
    match field {
      case Ts(numeral) => TsReadsBack(read, numeral);
      case BareTs => BareTsReadsBack(read);
      case H1(value) => H1ReadsBack(read, value);
      case Other(text) =>
        StripsNothing(text, IsSpace);
        assert read.signatures + [] == read.signatures;
    }
  }

  /** One field read: the ts it says, or its value among the signatures unless it is empty. */
  lemma {:induction false} FieldReadsBack(read: Read, w: Written)
    requires Writable(w)
    ensures Take(read, Render(w)) == Added(read, w.field)
    ensures ';' !in Render(w)
  {
    var text := Text(w.field);
    assert forall c :: c in w.left || c in w.right ==> IsSpace(c);
    StripsBlank(w.left, text, w.right, IsSpace);
    StripsNothing(text, IsSpace);
    assert Take(read, Render(w)) == Take(read, text);
    TextReadsBack(read, w.field);
  }

  lemma {:induction false} FieldsReadBack(fields: seq<Written>)
    requires forall i :: 0 <= i < |fields| ==> Writable(fields[i])
    ensures Scan(Rendered(fields))
            == if Legible(fields) then Success(Read(LastTs(fields), H1s(fields))) else Failure(TsIsNotANumber)
  {
    if fields != [] {
      var init := fields[..|fields| - 1];
      FieldsReadBack(init);
      OneMoreField(fields);
    }
  }

  lemma {:induction false} OneMoreField(fields: seq<Written>)
    requires fields != [] && Writable(fields[|fields| - 1])
    requires var init := fields[..|fields| - 1];
             Scan(Rendered(init)) == if Legible(init) then Success(Read(LastTs(init), H1s(init))) else Failure(TsIsNotANumber)
    ensures Scan(Rendered(fields))
            == if Legible(fields) then Success(Read(LastTs(fields), H1s(fields))) else Failure(TsIsNotANumber)
  {
    var init, last := fields[..|fields| - 1], fields[|fields| - 1];
    LegibleInit(fields);
    if Legible(init) {
      FieldReadsBack(Read(LastTs(init), H1s(init)), last);
    }
  }

  lemma {:induction false} LegibleInit(fields: seq<Written>)
    requires fields != []
    ensures var init, last := fields[..|fields| - 1], fields[|fields| - 1];
            && (Legible(fields) <==> Legible(init) && IsLegible(last.field))
            && Rendered(fields)[..|fields| - 1] == Rendered(init) && Rendered(fields)[|fields| - 1] == Render(last)
  {
    assert fields == fields[..|fields| - 1] + [fields[|fields| - 1]];
  }

  /** Some candidate is the expected one, and none before it is beyond ASCII. */
  predicate Reaches(expected: string, candidates: seq<string>) {
    exists i :: 0 <= i < |candidates| && candidates[i] == expected && NoneBeyondAscii(candidates[..i])
  }

  predicate NoneBeyondAscii(texts: seq<string>) {
    forall text, c :: text in texts && c in text ==> c as int <= 127
  }

  lemma {:induction false} MatchesIff(expected: string, candidates: seq<string>)
    requires IsAscii(expected)
    ensures Match(expected, candidates) == Accepted <==> Reaches(expected, candidates)
  {
    if candidates != [] {
      AsciiIff(candidates[0]);
      if !IsAscii(candidates[0]) {
        NotReached(expected, candidates);
      } else if candidates[0] == expected {
        assert candidates[0] == expected && NoneBeyondAscii(candidates[..0]);
      } else {
        MatchesIff(expected, candidates[1..]);
        ReachedLater(expected, candidates);
      }
    }
  }

  lemma {:induction false} AsciiIff(s: string)
    ensures IsAscii(s) <==> forall c :: c in s ==> c as int <= 127
  {
    if !IsAscii(s) {
      var i :| 0 <= i < |s| && s[i] >= '\U{80}';
      assert s[i] in s;
    }
  }

  lemma {:induction false} NotReached(expected: string, candidates: seq<string>)
    requires IsAscii(expected) && candidates != [] && !IsAscii(candidates[0])
    ensures !Reaches(expected, candidates)
  {
    forall i | 0 < i < |candidates| ensures !NoneBeyondAscii(candidates[..i]) {
      assert candidates[..i][0] == candidates[0];
      AsciiIff(candidates[0]);
    }
  }

  lemma {:induction false} ReachedLater(expected: string, candidates: seq<string>)
    requires candidates != [] && IsAscii(candidates[0]) && candidates[0] != expected
    ensures Reaches(expected, candidates) <==> Reaches(expected, candidates[1..])
  {
    var rest := candidates[1..];
    AsciiIff(candidates[0]);
    forall i | 0 <= i < |rest| ensures NoneBeyondAscii(rest[..i]) <==> NoneBeyondAscii(candidates[..i + 1]) {
      assert candidates[..i + 1] == [candidates[0]] + rest[..i];
    }
    if i :| 0 <= i < |rest| && rest[i] == expected && NoneBeyondAscii(rest[..i]) {
      assert candidates[i + 1] == expected;
    }
    if i :| 0 <= i < |candidates| && candidates[i] == expected && NoneBeyondAscii(candidates[..i]) {
      assert rest[i - 1] == expected;
    }
  }

  lemma {:induction false} HexIsAscii(s: string)
    requires IsHex(s)
    ensures IsAscii(s)
  {
  }

  /** A header is read as the fields it was written from. */
  lemma {:induction false} HeaderReadsBack(fields: seq<Written>)
    requires fields != [] && forall i :: 0 <= i < |fields| ==> Writable(fields[i])
    ensures Scan(Split(Header(fields), ';'))
            == if Legible(fields) then Success(Read(LastTs(fields), H1s(fields))) else Failure(TsIsNotANumber)
  {
    forall i | 0 <= i < |fields| ensures ';' !in Rendered(fields)[i] {
      FieldReadsBack(Read(None, []), fields[i]);
    }
    SplitsJoined(Rendered(fields), ';');
    FieldsReadBack(fields);
  }

  // ----- every header is of such fields -----

  lemma {:induction false} PartsLackSeparator(s: string, at: char)
    ensures forall i :: 0 <= i < |Split(s, at)| ==> at !in Split(s, at)[i]
  {
    if s != [] {
      var rest := Split(s[1..], at);
      PartsLackSeparator(s[1..], at);
      assert at !in rest[0] && (s[0] != at ==> at !in [s[0]] + rest[0]);
    }
  }

  lemma {:induction false} JoinsSplit(s: string, at: char)
    ensures Join(Split(s, at), at) == s
  {
    if s != [] {
      var rest := Split(s[1..], at);
      JoinsSplit(s[1..], at);
      assert s == [s[0]] + s[1..];
      if s[0] == at {
        JoinEmptyFirst(rest, at);
      } else {
        JoinFirst(rest, s[0], at);
      }
    }
  }

  lemma {:induction false} JoinEmptyFirst(parts: seq<string>, at: char)
    requires parts != []
    ensures Join([[]] + parts, at) == [at] + Join(parts, at)
  {
    assert ([[]] + parts)[1..] == parts;
  }

  lemma {:induction false} JoinFirst(parts: seq<string>, c: char, at: char)
    requires parts != []
    ensures Join([[c] + parts[0]] + parts[1..], at) == [c] + Join(parts, at)
  {
    var more := [[c] + parts[0]] + parts[1..];
    if |parts| > 1 {
      assert more[1..] == parts[1..];
      assert [c] + parts[0] + [at] + Join(parts[1..], at) == [c] + (parts[0] + [at] + Join(parts[1..], at));
    }
  }

  lemma {:induction false} StrippedLeft(s: string, space: char -> bool) returns (left: string)
    ensures AllOf(left, space) && s == left + StripLeft(s, space)
    ensures StripLeft(s, space) != [] ==> !space(StripLeft(s, space)[0])
  {
    if s != [] && space(s[0]) {
      var more := StrippedLeft(s[1..], space);
      left := [s[0]] + more;
      assert s == [s[0]] + s[1..];
    } else {
      left := [];
    }
  }

  lemma {:induction false} OneMoreAtTheEnd(s: string, most: string, more: string)
    requires s != [] && s[..|s| - 1] == most + more
    ensures s == most + (more + [s[|s| - 1]])
  {
    assert s == s[..|s| - 1] + [s[|s| - 1]];
  }

  lemma {:induction false} StrippedRight(s: string, space: char -> bool) returns (right: string)
    ensures AllOf(right, space) && s == StripRight(s, space) + right
    ensures StripRight(s, space) != [] ==> !space(StripRight(s, space)[|StripRight(s, space)| - 1]) && StripRight(s, space)[0] == s[0]
  {
    if s != [] && space(s[|s| - 1]) {
      var init := s[..|s| - 1];
      var more := StrippedRight(init, space);
      right := more + [s[|s| - 1]];
      OneMoreAtTheEnd(s, StripRight(init, space), more);
    } else {
      right := [];
    }
  }

  /** Text without the separator is all before it. */
  lemma {:induction false} NoSeparator(s: string, at: char)
    requires at !in s
    ensures Partition(s, [at]) == (s, [])
  {
    if s != [] {
      StartsOtherwise(s, [at]);
      NoSeparator(s[1..], at);
      assert [s[0]] + s[1..] == s;
    }
  }

  /** And text with it is what is before, the separator, and what is after. */
  lemma {:induction false} PartitionJoins(s: string, at: char)
    requires at in s
    ensures s == Partition(s, [at]).0 + [at] + Partition(s, [at]).1
  {
    if s[0] == at {
      assert [at] <= s;
      assert s == [at] + s[1..];
    } else {
      StartsOtherwise(s, [at]);
      assert s == [s[0]] + s[1..];
      PartitionJoins(s[1..], at);
    }
  }

  function FieldOf(text: string): Field {
    var field := Partition(text, "=");
    if text == "ts" then BareTs
    else if field.0 == "ts" then Ts(field.1)
    else if field.0 == "h1" && field.1 != [] then H1(field.1)
    else Other(text)
  }

  lemma {:induction false} FieldOfText(text: string)
    ensures Text(FieldOf(text)) == text
    ensures FieldOf(text).Other? ==> IsOther(text)
  {
    if '=' in text {
      PartitionJoins(text, '=');
      assert "ts=" == "ts" + ['='] && "h1=" == "h1" + ['='];
    } else {
      NoSeparator(text, '=');
    }
  }

  lemma {:induction false} PartIsWritten(part: string) returns (w: Written)
    requires ';' !in part
    ensures Writable(w) && Render(w) == part
  {
    var left := StrippedLeft(part, IsSpace);
    var right := StrippedRight(StripLeft(part, IsSpace), IsSpace);
    var text := Strip(part, IsSpace);
    FieldOfText(text);
    w := Written(left, FieldOf(text), right);
    assert part == left + text + right;
    assert forall c :: c in text ==> c in part;
  }

  lemma {:induction false} PartsAreWritten(parts: seq<string>) returns (fields: seq<Written>)
    requires forall i :: 0 <= i < |parts| ==> ';' !in parts[i]
    ensures |fields| == |parts| && Rendered(fields) == parts
    ensures forall i :: 0 <= i < |fields| ==> Writable(fields[i])
  {
    fields := [];
    if parts != [] {
      var init := PartsAreWritten(parts[..|parts| - 1]);
      var last := PartIsWritten(parts[|parts| - 1]);
      fields := init + [last];
      OneMoreWritten(init, last);
      assert parts == parts[..|parts| - 1] + [parts[|parts| - 1]];
    }
  }

  lemma {:induction false} OneMoreWritten(init: seq<Written>, last: Written)
    ensures Rendered(init + [last]) == Rendered(init) + [Render(last)]
  {
  }

  /** Whatever a header is, it is some fields, written one after the other. */
  lemma {:induction false} EveryHeaderIsFields(header: string) returns (fields: seq<Written>)
    ensures fields != [] && Header(fields) == header && forall i :: 0 <= i < |fields| ==> Writable(fields[i])
  {
    JoinsSplit(header, ';');
    PartsLackSeparator(header, ';');
    fields := PartsAreWritten(Split(header, ';'));
  }

  lemma {:induction false} VerdictOnRead(hmac: Hmac, header: string, ts: int, signatures: seq<string>, body: string, secret: string, now: real, tolerance: int)
    requires header != [] && signatures != [] && Scan(Split(header, ';')) == Success(Read(Some(ts), signatures))
    ensures Verify(hmac, Some(header), body, secret, now, tolerance)
            == if now > (ts + tolerance) as real then Refused(TooOldFor(ts)) else Match(hmac(secret, Message(body, ts)), signatures)
  {
    ExpectedIsTheDigest(hmac, body, secret, ts);
  }

  /** Whatever a header is, by the fields it is of, in whatever order and however spaced: it is accepted exactly when
      every ts in it is a number, the last is not too old, and some h1 is the digest of the body at that ts, with
      none before it that the comparison itself refuses. */
  lemma {:induction false} HeaderAcceptedIff(hmac: Hmac, fields: seq<Written>, body: string, secret: string, now: real, tolerance: int)
    requires WritesHex(hmac) && fields != [] && forall i :: 0 <= i < |fields| ==> Writable(fields[i])
    ensures Verify(hmac, Some(Header(fields)), body, secret, now, tolerance) == Accepted
            <==> var ts := LastTs(fields);
                 && Legible(fields) && ts.Some? && now <= (ts.value + tolerance) as real
                 && Reaches(hmac(secret, Message(body, ts.value)), H1s(fields))
  {
    HeaderReadsBack(fields);
    if Header(fields) == [] {
      NothingIsRead();
    } else if Legible(fields) && LastTs(fields).Some? && H1s(fields) != [] {
      var ts := LastTs(fields).value;
      VerdictOnRead(hmac, Header(fields), ts, H1s(fields), body, secret, now, tolerance);
      HexIsAscii(hmac(secret, Message(body, ts)));
      MatchesIff(hmac(secret, Message(body, ts)), H1s(fields));
    }
  }

  lemma {:induction false} NothingIsRead()
    ensures Scan(Split([], ';')) == Success(Read(None, []))
  {
    var parts: seq<string> := [[]];
    NoSeparator([], '=');
    assert Split([], ';') == parts && parts[..0] == [];
  }

  /** Among h1s that are all ASCII, which come first does not matter: one of them is the digest, or none is. */
  lemma {:induction false} OrderOfH1sDoesNotMatter(expected: string, some: seq<string>, others: seq<string>)
    requires IsAscii(expected) && multiset(some) == multiset(others) && forall s :: s in some ==> IsAscii(s)
    ensures Match(expected, some) == Match(expected, others)
  {
    AsciiMatches(expected, some);
    forall s | s in others ensures s in some {
      assert s in multiset(others);
      assert s in multiset(some);
    }
    AsciiMatches(expected, others);
    assert expected in some <==> expected in multiset(some);
    assert expected in others <==> expected in multiset(others);
  }

  lemma {:induction false} AsciiMatches(expected: string, candidates: seq<string>)
    requires forall s :: s in candidates ==> IsAscii(s)
    ensures Match(expected, candidates) == if expected in candidates then Accepted else Refused(NoH1Matches)
  {
    if candidates != [] {
      AsciiMatches(expected, candidates[1..]);
      assert candidates == [candidates[0]] + candidates[1..];
    }
  }

  lemma {:induction false} HexIsPlain(s: string)
    requires IsHex(s)
    ensures ';' !in s && forall i :: 0 <= i < |s| ==> !IsSpace(s[i])
  {
  }

  /** A prefix without space or semicolon, before a value without either, is a field as it stands. */
  lemma {:induction false} PlainFieldIsTight(prefix: string, value: string)
    requires prefix != [] && value != [] && ';' !in prefix && ';' !in value
    requires !IsSpace(prefix[0]) && !IsSpace(value[|value| - 1])
    ensures ';' !in prefix + value && Tight(prefix + value)
  {
  }

  lemma {:induction false} SentFieldsAreWritable(ts: int, digest: string)
    requires Readable(ts) && IsHex(digest)
    ensures Writable(Written([], Ts(Decimal(ts)), [])) && Writable(Written([], H1(digest), []))
  {
    HexIsPlain(digest);
    DecimalIsPlain(ts);
    PlainFieldIsTight("ts=", Decimal(ts));
    PlainFieldIsTight("h1=", digest);
  }

  /** The header Paddle sends, as fields. */
  lemma {:induction false} SignIsHeader(hmac: Hmac, body: string, secret: string, ts: int, fields: seq<Written>)
    requires fields == [Written([], Ts(Decimal(ts)), []), Written([], H1(hmac(secret, Message(body, ts))), [])]
    ensures Header(fields) == Sign(hmac, body, secret, ts)
  {
    var digest := hmac(secret, Message(body, ts));
    var parts := Rendered(fields);
    assert parts[0] == "ts=" + Decimal(ts) && parts[1] == "h1=" + digest;
    JoinTwo(parts, ';');
    TwoFields("ts=" + Decimal(ts), digest);
  }

  lemma {:induction false} JoinTwo(parts: seq<string>, at: char)
    requires |parts| == 2
    ensures Join(parts, at) == parts[0] + [at] + parts[1]
  {
    assert Join(parts[1..], at) == parts[1];
  }

  lemma {:induction false} TwoFields(first: string, digest: string)
    ensures first + [';'] + ("h1=" + digest) == first + ";h1=" + digest
  {
    assert [';'] + "h1=" == ";h1=";
  }

  lemma {:induction false} SentFieldsRead(ts: int, digest: string)
    requires digest != [] && Readable(ts)
    ensures var fields := [Written([], Ts(Decimal(ts)), []), Written([], H1(digest), [])];
            Legible(fields) && LastTs(fields) == Some(ts) && H1s(fields) == [digest]
  {
    var fields := [Written([], Ts(Decimal(ts)), []), Written([], H1(digest), [])];
    NumbersReadBack(ts);
    assert fields[..1] == [fields[0]] && fields[..1][..0] == [];
    assert LastTs(fields[..1]) == Some(ts) && H1s(fields[..1]) == [];
  }

  lemma {:induction false} HeaderScans(fields: seq<Written>, header: string, ts: int, signatures: seq<string>)
    requires fields != [] && (forall i :: 0 <= i < |fields| ==> Writable(fields[i])) && Header(fields) == header
    requires Legible(fields) && LastTs(fields) == Some(ts) && H1s(fields) == signatures
    ensures Scan(Split(header, ';')) == Success(Read(Some(ts), signatures))
  {
    HeaderReadsBack(fields);
  }

  lemma {:induction false} AllWritable(fields: seq<Written>)
    requires |fields| == 2 || |fields| == 3
    requires Writable(fields[0]) && Writable(fields[1]) && (|fields| == 3 ==> Writable(fields[2]))
    ensures forall i :: 0 <= i < |fields| ==> Writable(fields[i])
  {
  }

  lemma {:induction false} SentScans(hmac: Hmac, body: string, secret: string, ts: int)
    requires WritesHex(hmac) && Readable(ts)
    ensures Scan(Split(Sign(hmac, body, secret, ts), ';')) == Success(Read(Some(ts), [hmac(secret, Message(body, ts))]))
  {
    var digest := hmac(secret, Message(body, ts));
    var fields := [Written([], Ts(Decimal(ts)), []), Written([], H1(digest), [])];
    SignIsHeader(hmac, body, secret, ts, fields);
    SentFieldsAreWritable(ts, digest);
    SentFieldsRead(ts, digest);
    AllWritable(fields);
    HeaderScans(fields, Sign(hmac, body, secret, ts), ts, [digest]);
  }

  /** Paddle's own signature is accepted until the tolerance after it was made; then it is refused as too old, or,
      of a time so long ago that no float holds it, by the failure to say how old. */
  lemma {:induction false} SignedIsAcceptedIff(hmac: Hmac, body: string, secret: string, ts: int, now: real, tolerance: int)
    requires WritesHex(hmac) && Readable(ts)
    ensures Verify(hmac, Some(Sign(hmac, body, secret, ts)), body, secret, now, tolerance)
            == if now <= (ts + tolerance) as real then Accepted
               else if -FLOAT_LIMIT < ts < FLOAT_LIMIT then Refused(TooOld) else Refused(Overflow)
  {
    var digest := hmac(secret, Message(body, ts));
    SentScans(hmac, body, secret, ts);
    VerdictOnRead(hmac, Sign(hmac, body, secret, ts), ts, [digest], body, secret, now, tolerance);
    HexIsAscii(digest);
    assert Match(digest, [digest]) == Accepted;
  }

  // ----- an h1 the comparison refuses -----

  /** A header of a ts and two h1s, as while a secret is rotated. */
  function TwoH1s(ts: int, a: string, b: string): string {
    "ts=" + Decimal(ts) + ";h1=" + a + ";h1=" + b
  }

  /** What an h1 may be to be read as it stands. */
  predicate Plain(value: string) {
    value != [] && ';' !in value && !IsSpace(value[|value| - 1])
  }

  lemma {:induction false} JoinThree(parts: seq<string>, at: char)
    requires |parts| == 3
    ensures Join(parts, at) == parts[0] + [at] + (parts[1] + [at] + parts[2])
  {
    JoinTwo(parts[1..], at);
  }

  lemma {:induction false} ThreeFields(first: string, a: string, b: string)
    ensures first + [';'] + ("h1=" + a + [';'] + ("h1=" + b)) == first + ";h1=" + a + ";h1=" + b
  {
    TwoFields(first + ";h1=" + a, b);
    TwoFields(first, a);
    Regrouped(first, "h1=" + a, "h1=" + b, [';']);
  }

  lemma {:induction false} Regrouped(x: string, y: string, z: string, at: string)
    ensures x + at + (y + at + z) == x + at + y + at + z
  {
  }

  lemma {:induction false} RendersText(field: Field)
    ensures Render(Written([], field, [])) == Text(field)
  {
  }

  lemma {:induction false} TwoH1sAreFields(ts: int, a: string, b: string, fields: seq<Written>)
    requires fields == [Written([], Ts(Decimal(ts)), []), Written([], H1(a), []), Written([], H1(b), [])]
    ensures Header(fields) == TwoH1s(ts, a, b)
  {
    var parts := Rendered(fields);
    RendersText(Ts(Decimal(ts)));
    RendersText(H1(a));
    RendersText(H1(b));
    JoinThree(parts, ';');
    ThreeFields("ts=" + Decimal(ts), a, b);
  }

  lemma {:induction false} TwoH1sAreWritable(ts: int, a: string, b: string)
    requires Readable(ts) && Plain(a) && Plain(b)
    ensures Writable(Written([], Ts(Decimal(ts)), [])) && Writable(Written([], H1(a), [])) && Writable(Written([], H1(b), []))
  {
    DecimalIsPlain(ts);
    PlainFieldIsTight("ts=", Decimal(ts));
    PlainFieldIsTight("h1=", a);
    PlainFieldIsTight("h1=", b);
  }

  lemma {:induction false} TwoH1sRead(ts: int, a: string, b: string, fields: seq<Written>)
    requires a != [] && b != [] && Readable(ts)
    requires fields == [Written([], Ts(Decimal(ts)), []), Written([], H1(a), []), Written([], H1(b), [])]
    ensures Legible(fields) && LastTs(fields) == Some(ts) && H1s(fields) == [a, b]
  {
    SentFieldsRead(ts, a);
    assert fields[..2] == [Written([], Ts(Decimal(ts)), []), Written([], H1(a), [])];
    assert [a] + [b] == [a, b];
  }

  lemma {:induction false} TwoH1sScan(ts: int, a: string, b: string)
    requires Readable(ts) && Plain(a) && Plain(b)
    ensures Scan(Split(TwoH1s(ts, a, b), ';')) == Success(Read(Some(ts), [a, b]))
  {
    var fields := [Written([], Ts(Decimal(ts)), []), Written([], H1(a), []), Written([], H1(b), [])];
    TwoH1sAreFields(ts, a, b, fields);
    TwoH1sRead(ts, a, b, fields);
    TwoH1sAreWritable(ts, a, b);
    AllWritable(fields);
    HeaderScans(fields, TwoH1s(ts, a, b), ts, [a, b]);
  }

  lemma {:induction false} TwoH1sVerdict(hmac: Hmac, ts: int, a: string, b: string, body: string, secret: string, now: real, tolerance: int)
    requires Readable(ts) && Plain(a) && Plain(b) && now <= (ts + tolerance) as real
    ensures Verify(hmac, Some(TwoH1s(ts, a, b)), body, secret, now, tolerance) == Match(hmac(secret, Message(body, ts)), [a, b])
  {
    TwoH1sScan(ts, a, b);
    VerdictOnRead(hmac, TwoH1s(ts, a, b), ts, [a, b], body, secret, now, tolerance);
  }

  /** A right h1 after one that is not ASCII is never reached, and before it is: of two headers with the same h1s, and a
      ts in time, one is accepted and one is not. */
  lemma {:induction false} RightH1MayNotBeReached(hmac: Hmac, ts: int, body: string, secret: string, now: real, tolerance: int)
    requires WritesHex(hmac) && Readable(ts) && now <= (ts + tolerance) as real
    ensures var digest := hmac(secret, Message(body, ts));
            && Verify(hmac, Some(TwoH1s(ts, "\U{e9}", digest)), body, secret, now, tolerance) == Refused(NotAscii)
            && Verify(hmac, Some(TwoH1s(ts, digest, "\U{e9}")), body, secret, now, tolerance) == Accepted
  {
    var digest := hmac(secret, Message(body, ts));
    HexIsPlain(digest);
    HexIsAscii(digest);
    assert Plain("\U{e9}") && "\U{e9}"[0] >= '\U{80}';
    TwoH1sVerdict(hmac, ts, "\U{e9}", digest, body, secret, now, tolerance);
    TwoH1sVerdict(hmac, ts, digest, "\U{e9}", body, secret, now, tolerance);
  }
}

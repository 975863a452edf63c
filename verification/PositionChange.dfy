/** Consecutive portfolios compared, position by position (app/derived/position_change.py). */
module PositionChange {
  import opened Wrappers

  /** A row of position_snapshot. The loaded filings' checks keep both figures from being negative. */
  datatype Holding = Holding(shares: real, value: real)

  /** A published period of a filer's: the securities it holds. */
  type Portfolio = map<nat, Holding>

  /** A filer's published periods, oldest first. */
  type History = seq<Portfolio>

  type Count = n: nat | n > 0 witness 1

  /** A split, or several multiplied: new shares per old. */
  datatype Ratio = Ratio(numerator: Count, denominator: Count)

  /** By security and period: the splits since the filer's period before. */
  type Splits = map<(nat, nat), Ratio>

  /** A row of the `compared` query. */
  datatype Compared = Compared(exited: bool, now: Holding, prev: Option<Holding>, split: Option<Ratio>, first: bool)

  datatype Action = New | Add | Trim | Hold | Exit

  const NOTHING := Holding(0.0, 0.0)

  predicate NotNegative(h: Holding) {
    h.shares >= 0.0 && h.value >= 0.0
  }

  predicate Plausible(history: History) {
    forall t, s :: 0 <= t < |history| && s in history[t] ==> NotNegative(history[t][s])
  }

  // ----- the rows -----

  /** The window function: how far back the security was last on the books, if ever. */
  function Lag(history: History, security: nat, t: nat): (last: Option<nat>)
    requires t <= |history|
    ensures last.Some? ==> last.value < t && security in history[last.value]
  {
    if t == 0 then None
    else if security in history[t - 1] then Some(t - 1)
    else Lag(history, security, t - 1)
  }

  function PreviousPeriod(t: nat): Option<nat> {
    if t == 0 then None else Some(t - 1)
  }

  function SplitSince(splits: Splits, security: nat, t: nat): Option<Ratio> {
    if t > 0 && (security, t) in splits then Some(splits[(security, t)]) else None
  }

  /** A holding beside what the window found, which is dropped unless it is exactly one period old. */
  function ComparedAt(history: History, splits: Splits, security: nat, t: nat): Compared
    requires t < |history| && security in history[t]
  {
    var last := Lag(history, security, t);
    var lagged := if last.Some? && last == PreviousPeriod(t) then Some(history[last.value][security]) else None;
    Compared(false, history[t][security], lagged, SplitSince(splits, security, t), PreviousPeriod(t).None?)
  }

  /** The row for a security that disappears: empty on this side, as filed on the other, no split applied. */
  function ExitedFrom(history: History, security: nat, from: nat): Compared
    requires from < |history| && security in history[from]
  {
    Compared(true, NOTHING, Some(history[from][security]), None, false)
  }

  /** position_change's rows in one period, by security: the positions compared, and the exits whose last
      period this is the next after. */
  ghost function Rows(history: History, splits: Splits, t: nat): map<nat, Compared>
    requires t < |history|
  {
    var compared := map s | s in history[t] :: ComparedAt(history, splits, s, t);
    if t == 0 then compared
    else compared + map s | s in history[t - 1] && s !in history[t] :: ExitedFrom(history, s, t - 1)
  }

  /** Numeric rounding, half away from zero, to one part in `parts`. */
  function Round(x: real, parts: real): real
    requires parts > 0.0
  {
    if x < 0.0 then -((-x * parts + 0.5).Floor as real / parts) else (x * parts + 0.5).Floor as real / parts
  }

  predicate IsSplit(row: Compared) {
    row.prev.Some? && row.split.Some?
  }

  /** Shares of before a split as shares of after it. */
  function Scaled(shares: real, split: Ratio): real {
    shares * split.numerator as real / split.denominator as real
  }

  /** The count this period's is compared with: the old one, scaled by any split and rounded as stored. */
  function Since(row: Compared): real
  {
    if row.prev.None? then 0.0
    else if row.split.None? then row.prev.value.shares
    else Round(Scaled(row.prev.value.shares, row.split.value), 10_000.0)
  }

  function Size(x: real): real {
    if x < 0.0 then -x else x
  }

  /** The five actions, tried in the order the query tries them. */
  function Classify(row: Compared): Action
  {
    if row.exited then Exit
    else if row.prev.None? then New
    else if Size(row.now.shares - Since(row)) * 100.0 <= Since(row) * 0.01 then Hold
    else if row.now.shares > Since(row) then Add
    else Trim
  }

  function SharesDelta(row: Compared): real
  {
    row.now.shares - Since(row)
  }

  function PrevValue(row: Compared): real {
    if row.prev.Some? then row.prev.value.value else 0.0
  }

  function ValueDelta(row: Compared): real {
    row.now.value - PrevValue(row)
  }

  /** What the table's checks, and the loaded filings', make of a row. */
  predicate Sound(row: Compared) {
    && NotNegative(row.now)
    && (row.prev.Some? ==> NotNegative(row.prev.value))
    && (row.exited ==> row.now == NOTHING && row.prev.Some? && row.split.None? && !row.first)
    && (row.first ==> row.prev.None?)
  }

  /** What one row is, by the two periods it stands between. */
  predicate Stands(row: Compared, history: History, s: nat, t: nat)
    requires t < |history|
  {
    && Sound(row)
    && row.now == (if s in history[t] then history[t][s] else NOTHING)
    && row.prev == (if t > 0 && s in history[t - 1] then Some(history[t - 1][s]) else None)
    && (row.exited <==> s !in history[t])
    && (row.first <==> t == 0)
  }

  lemma {:induction false} RowStands(history: History, splits: Splits, t: nat, s: nat)
    requires t < |history| && Plausible(history)
    ensures s in Rows(history, splits, t) <==> s in history[t] || (t > 0 && s in history[t - 1])
    ensures s in Rows(history, splits, t) ==> Stands(Rows(history, splits, t)[s], history, s, t)
  {
    if s in history[t] {
      var row := ComparedAt(history, splits, s, t);
      assert row.prev == (if t > 0 && s in history[t - 1] then Some(history[t - 1][s]) else None);
      assert Stands(row, history, s, t);
    } else if t > 0 && s in history[t - 1] {
      assert Stands(ExitedFrom(history, s, t - 1), history, s, t);
    }
  }

  /** The lag over a security's whole history, kept only where it is from the period before, is the period
      before: one row for every security in either, with the figures of both, an exit exactly where it is gone. */
  lemma {:induction false} RowsCompareWithPreviousPeriod(history: History, splits: Splits, t: nat)
    requires t < |history| && Plausible(history)
    ensures Rows(history, splits, t).Keys == history[t].Keys + (if t == 0 then {} else history[t - 1].Keys)
    ensures forall s :: s in Rows(history, splits, t) ==> Stands(Rows(history, splits, t)[s], history, s, t)
  {
    forall s ensures s in Rows(history, splits, t) <==> s in history[t] || (t > 0 && s in history[t - 1])
             ensures s in Rows(history, splits, t) ==> Stands(Rows(history, splits, t)[s], history, s, t)
    {
      RowStands(history, splits, t, s);
    }
  }

  /** The three checks the table declares, of every row the query makes. */
  lemma {:induction false} RowsPassTheChecks(history: History, splits: Splits, t: nat, s: nat)
    requires t < |history| && Plausible(history) && s in Rows(history, splits, t)
    ensures var row := Rows(history, splits, t)[s];
            && Sound(row)
            && (Classify(row) == New <==> row.prev.None?)
            && (Classify(row) == Exit ==> row.now == NOTHING)
            && (IsSplit(row) ==> Classify(row) != New && Classify(row) != Exit)
  {
    RowsCompareWithPreviousPeriod(history, splits, t);
  }

  /** Without a split, more shares than before is never a trim, nor fewer an add; and only a change of at most
      one part in ten thousand is a hold. */
  lemma {:induction false} ActionsMeanWhatTheySay(row: Compared)
    requires Sound(row) && !row.exited && row.prev.Some? && row.split.None?
    ensures var was, now := row.prev.value.shares, row.now.shares;
            && (Classify(row) == Add <==> now - was > was / 10_000.0)
            && (Classify(row) == Trim <==> was - now > was / 10_000.0)
            && (Classify(row) == Hold <==> Size(now - was) <= was / 10_000.0)
  {
  }

  /** Rounded: a whole number of parts, the nearest there is, and of two as near the one further from nothing. */
  lemma {:induction false} RoundIs(x: real, parts: real) returns (n: int)
    requires parts > 0.0
    ensures Round(x, parts) == n as real / parts
    ensures var scaled := x * parts;
            if x < 0.0 then n as real - 0.5 < scaled <= n as real + 0.5 else n as real - 0.5 <= scaled < n as real + 0.5
  {
    if x < 0.0 {
      var m := (-x * parts + 0.5).Floor;
      n := -m;
      Opposites(x, parts);
      NegatedOver(m as real, parts);
    } else {
      n := (x * parts + 0.5).Floor;
    }
  }

  lemma {:induction false} Opposites(x: real, parts: real)
    ensures -x * parts == -(x * parts)
  {
  }

  lemma {:induction false} NegatedOver(m: real, parts: real)
    requires parts > 0.0
    ensures -(m / parts) == -m / parts
  {
  }

  /** The count a position is compared with: none when there was none, the previous one without a split, and with one,
      a whole number of ten-thousandths within half of one of the previous times new shares over old. */
  lemma {:induction false} SinceIs(row: Compared)
    ensures row.prev.None? ==> Since(row) == 0.0
    ensures row.prev.Some? && row.split.None? ==> Since(row) == row.prev.value.shares
    ensures row.prev.Some? && row.split.Some? ==>
              && -0.00005 <= Since(row) - Scaled(row.prev.value.shares, row.split.value) <= 0.00005
              && IsWhole(Since(row) * 10_000.0)
  {
    if row.prev.Some? && row.split.Some? {
      RoundedNear(Scaled(row.prev.value.shares, row.split.value));
    }
  }

  predicate IsWhole(x: real) {
    x == x.Floor as real
  }

  lemma {:induction false} RoundedNear(x: real)
    ensures -0.00005 <= Round(x, 10_000.0) - x <= 0.00005
    ensures IsWhole(Round(x, 10_000.0) * 10_000.0)
  {
    var n := RoundIs(x, 10_000.0);
    assert Round(x, 10_000.0) * 10_000.0 == n as real;
  }

  /** The split of a row is the one since the period before, of a security still held. */
  lemma {:induction false} RowSplits(history: History, splits: Splits, t: nat, s: nat)
    requires t < |history| && Plausible(history) && s in Rows(history, splits, t)
    ensures Rows(history, splits, t)[s].split == if s in history[t] && t > 0 && (s, t) in splits then Some(splits[(s, t)]) else None
  {
    RowStands(history, splits, t, s);
  }

  /** Each action, of every row: gone, or not there before, or within one part in ten thousand of what its previous
      shares are now, or more than that above it, or below. */
  lemma {:induction false} ActionIs(row: Compared)
    requires Sound(row)
    ensures var since, now := Since(row), row.now.shares;
            && (Classify(row) == Exit <==> row.exited)
            && (Classify(row) == New <==> row.prev.None?)
            && (Classify(row) == Hold <==> !row.exited && row.prev.Some? && -since / 10_000.0 <= now - since <= since / 10_000.0)
            && (Classify(row) == Add <==> !row.exited && row.prev.Some? && now - since > since / 10_000.0)
            && (Classify(row) == Trim <==> !row.exited && row.prev.Some? && since - now > since / 10_000.0)
  {
    SinceNotNegative(row);
  }

  // ----- the deltas add up -----

  function SharesAt(history: History, s: nat, t: nat): real
    requires t < |history|
  {
    if s in history[t] then history[t][s].shares else 0.0
  }

  function ValueAt(history: History, s: nat, t: nat): real
    requires t < |history|
  {
    if s in history[t] then history[t][s].value else 0.0
  }

  ghost function RowAt(history: History, splits: Splits, s: nat, t: nat): (row: Option<Compared>)
    requires t < |history| && Plausible(history)
    ensures row.Some? <==> s in history[t] || (t > 0 && s in history[t - 1])
    ensures row.Some? ==> Stands(row.value, history, s, t)
  {
    RowStands(history, splits, t, s);
    if s in Rows(history, splits, t) then Some(Rows(history, splits, t)[s]) else None
  }

  function SharesDeltaOf(row: Option<Compared>): real
  {
    if row.Some? then SharesDelta(row.value) else 0.0
  }

  function ValueDeltaOf(row: Option<Compared>): real {
    if row.Some? then ValueDelta(row.value) else 0.0
  }

  /** The shares that a split alone made of the previous ones: not traded, and in no delta. */
  function SplitSharesOf(row: Option<Compared>): real
  {
    if row.Some? && row.value.prev.Some? then Since(row.value) - row.value.prev.value.shares else 0.0
  }

  /** One security's share deltas in one filer's rows, totalled from the first period to t. */
  ghost function SharesMoved(history: History, splits: Splits, s: nat, t: nat): real
    requires t < |history| && Plausible(history)
  {
    SharesDeltaOf(RowAt(history, splits, s, t)) + (if t == 0 then 0.0 else SharesMoved(history, splits, s, t - 1))
  }

  ghost function ValueMoved(history: History, splits: Splits, s: nat, t: nat): real
    requires t < |history| && Plausible(history)
  {
    ValueDeltaOf(RowAt(history, splits, s, t)) + (if t == 0 then 0.0 else ValueMoved(history, splits, s, t - 1))
  }

  ghost function SharesFromSplits(history: History, splits: Splits, s: nat, t: nat): real
    requires t < |history| && Plausible(history)
  {
    SplitSharesOf(RowAt(history, splits, s, t)) + (if t == 0 then 0.0 else SharesFromSplits(history, splits, s, t - 1))
  }

  /** One row moves its position from the one period's figures to the other's. */
  lemma {:induction false} RowMoves(row: Option<Compared>, history: History, s: nat, t: nat)
    requires t < |history|
    requires row.Some? <==> s in history[t] || (t > 0 && s in history[t - 1])
    requires row.Some? ==> Stands(row.value, history, s, t)
    ensures ValueDeltaOf(row) == ValueAt(history, s, t) - (if t == 0 then 0.0 else ValueAt(history, s, t - 1))
    ensures SharesDeltaOf(row) + SplitSharesOf(row) == SharesAt(history, s, t) - (if t == 0 then 0.0 else SharesAt(history, s, t - 1))
  {
  }

  /** A position's deltas, from the filer's first period to any other, add up to what it holds then, gaps,
      exits and returns included: the value always, the shares with those that splits added. */
  lemma {:induction false} DeltasAddUp(history: History, splits: Splits, s: nat, t: nat)
    requires t < |history| && Plausible(history)
    ensures ValueMoved(history, splits, s, t) == ValueAt(history, s, t)
    ensures SharesMoved(history, splits, s, t) + SharesFromSplits(history, splits, s, t) == SharesAt(history, s, t)
  {
    RowMoves(RowAt(history, splits, s, t), history, s, t);
    if t > 0 {
      DeltasAddUp(history, splits, s, t - 1);
    }
  }

  lemma {:induction false} UnsplitRow(history: History, splits: Splits, s: nat, t: nat)
    requires t < |history| && Plausible(history) && (s, t) !in splits
    ensures SplitSharesOf(RowAt(history, splits, s, t)) == 0.0
  {
    assert t > 0 ==> SplitSince(splits, s, t).None?;
  }

  lemma {:induction false} NoSplitAddsNothing(history: History, splits: Splits, s: nat, t: nat)
    requires t < |history| && Plausible(history)
    requires forall u :: 0 <= u <= t ==> (s, u) !in splits
    ensures SharesFromSplits(history, splits, s, t) == 0.0
  {
    UnsplitRow(history, splits, s, t);
    if t > 0 {
      NoSplitAddsNothing(history, splits, s, t - 1);
    }
  }

  /** The share deltas alone are what the filer holds exactly when its splits added, on balance, no share: and so
      wherever the security never split. */
  lemma {:induction false} ShareDeltasAddUpIff(history: History, splits: Splits, s: nat, t: nat)
    requires t < |history| && Plausible(history)
    ensures SharesMoved(history, splits, s, t) == SharesAt(history, s, t) <==> SharesFromSplits(history, splits, s, t) == 0.0
    ensures (forall u :: 0 <= u <= t ==> (s, u) !in splits) ==> SharesMoved(history, splits, s, t) == SharesAt(history, s, t)
  {
    DeltasAddUp(history, splits, s, t);
    if forall u :: 0 <= u <= t ==> (s, u) !in splits {
      NoSplitAddsNothing(history, splits, s, t);
    }
  }

  /** A position held through any split, its shares today's for the previous ones, is a hold that moved nothing. */
  lemma {:induction false} SplitHeldThroughIsAHold(row: Compared)
    requires Sound(row) && !row.exited && IsSplit(row) && row.now.shares == Since(row)
    ensures Classify(row) == Hold && SharesDelta(row) == 0.0
    ensures SplitSharesOf(Some(row)) == row.now.shares - row.prev.value.shares
  {
    SinceNotNegative(row);
  }

  lemma {:induction false} SinceNotNegative(row: Compared)
    requires Sound(row)
    ensures Since(row) >= 0.0
  {
    if row.prev.Some? && row.split.Some? {
      var x := Scaled(row.prev.value.shares, row.split.value);
      assert x >= 0.0;
      assert (x * 10_000.0 + 0.5).Floor >= 0;
    }
  }

  /** So of 100 shares that split ten for one and were held, 900 are in no delta. */
  lemma {:induction false} TenForOneIsInNoDelta()
    ensures var history: History := [map[7 := Holding(100.0, 5_000.0)], map[7 := Holding(1_000.0, 5_000.0)]];
            var splits: Splits := map[(7, 1) := Ratio(10, 1)];
            && Plausible(history)
            && SharesMoved(history, splits, 7, 1) == 100.0 && SharesAt(history, 7, 1) == 1_000.0
  {
    var history: History := [map[7 := Holding(100.0, 5_000.0)], map[7 := Holding(1_000.0, 5_000.0)]];
    var splits: Splits := map[(7, 1) := Ratio(10, 1)];
    assert RowAt(history, splits, 7, 0) == Some(Compared(false, Holding(100.0, 5_000.0), None, None, true));
    assert RowAt(history, splits, 7, 1)
        == Some(Compared(false, Holding(1_000.0, 5_000.0), Some(Holding(100.0, 5_000.0)), Some(Ratio(10, 1)), false));
    assert Since(RowAt(history, splits, 7, 1).value) == Round(1_000.0, 10_000.0) == 1_000.0;
    assert SharesMoved(history, splits, 7, 0) == 100.0;
  }
}

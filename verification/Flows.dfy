/** Dollars out of share counts (alembic/versions/20261001_0014_materialised_views.py): how much each change traded,
    what a security's quarter and a filer's period add up to, and how those relate to what portfolios are worth. */
module Flows {
  import opened Wrappers
  import opened Sums
  import opened PositionChange

  /** So many shares at the price of a holding. */
  function Priced(shares: real, h: Holding): real
    requires h.shares > 0.0
  {
    shares * h.value / h.shares
  }

  /** TRADED_USD: the size of the share delta at this period's price; with no shares now, at the previous price. */
  function TradedUsd(delta: real, now: Holding, prev: Option<Holding>): real {
    if now.shares > 0.0 then Priced(Size(delta), now)
    else if prev.Some? && prev.value.shares > 0.0 then Priced(Size(delta), prev.value)
    else 0.0
  }

  function Traded(row: Compared): real {
    TradedUsd(SharesDelta(row), row.now, row.prev)
  }

  predicate Buys(row: Compared) {
    Classify(row) == New || Classify(row) == Add
  }

  predicate Sells(row: Compared) {
    Classify(row) == Trim || Classify(row) == Exit
  }

  function BoughtIn(row: Compared): real {
    if Buys(row) then Traded(row) else 0.0
  }

  function SoldIn(row: Compared): real {
    if Sells(row) then Traded(row) else 0.0
  }

  /** The few shares a hold drifted by, at the price: in no view's dollars. */
  function DriftIn(row: Compared): real {
    if Classify(row) != Hold then 0.0 else if SharesDelta(row) < 0.0 then -Traded(row) else Traded(row)
  }

  function ValueBefore(prev: Option<Holding>): real {
    if prev.Some? then prev.value.value else 0.0
  }

  /** What the shares held before are worth now, over what they were: at the price now, or, of a position
      listed without shares, which has no price, what is listed for nothing. */
  function RepricedUsd(since: real, now: Holding, prev: Option<Holding>): real {
    if now.shares > 0.0 then since * now.value / now.shares - ValueBefore(prev)
    else now.value - (if prev.Some? && prev.value.shares > 0.0 then 0.0 else ValueBefore(prev))
  }

  function Repriced(row: Compared): real {
    RepricedUsd(Since(row), row.now, row.prev)
  }

  function Signed(delta: real, usd: real): real {
    if delta < 0.0 then -usd else usd
  }

  // ----- one row -----

  /** A filer that still lists, at no shares, a position that split: TRADED_USD values shares of after the
      split at the price of before it. */
  predicate MixesPrices(row: Compared) {
    && IsSplit(row) && row.now.shares == 0.0
    && Since(row) != row.prev.value.shares && row.prev.value.value != 0.0
  }

  lemma {:induction false} PartsOf(whole: real, part: real, value: real)
    requires whole > 0.0
    ensures (whole - part) * value / whole == value - part * value / whole
    ensures (part - whole) * value / whole == part * value / whole - value
    ensures whole * value / whole == value
  {
    assert (whole - part) * value == whole * value - part * value;
    assert (part - whole) * value == part * value - whole * value;
  }

  lemma {:induction false} PartIsWhole(whole: real, part: real, value: real)
    requires whole > 0.0
    ensures part * value / whole == value <==> part == whole || value == 0.0
  {
    if part * value / whole == value {
      assert part * value == value * whole;
      assert (part - whole) * value == 0.0;
    }
  }

  lemma {:induction false} SignedTrade(row: Compared)
    requires Sound(row)
    ensures BoughtIn(row) - SoldIn(row) + DriftIn(row) == Signed(SharesDelta(row), Traded(row))
  {
    if SharesDelta(row) == 0.0 {
      assert Size(SharesDelta(row)) == 0.0;
      assert Traded(row) == 0.0;
    }
  }

  /** So many shares more, or fewer, at the price, whichever way they went. */
  lemma {:induction false} SignedShare(whole: real, part: real, value: real)
    requires whole > 0.0
    ensures Signed(whole - part, Size(whole - part) * value / whole) == value - part * value / whole
  {
    PartsOf(whole, part, value);
    if whole - part < 0.0 {
      assert Size(whole - part) * value / whole == (part - whole) * value / whole;
    }
  }

  lemma {:induction false} WithShares(since: real, now: Holding, prev: Option<Holding>)
    requires now.shares > 0.0
    ensures now.value - ValueBefore(prev)
            == Signed(now.shares - since, TradedUsd(now.shares - since, now, prev)) + RepricedUsd(since, now, prev)
  {
    var whole, value := now.shares, now.value;
    SignedShare(whole, since, value);
    assert TradedUsd(whole - since, now, prev) == Size(whole - since) * value / whole;
    assert RepricedUsd(since, now, prev) == since * value / whole - ValueBefore(prev);
  }

  lemma {:induction false} WithoutShares(since: real, now: Holding, prev: Option<Holding>)
    requires now.shares == 0.0 && since >= 0.0
    ensures (now.value - ValueBefore(prev) == Signed(-since, TradedUsd(-since, now, prev)) + RepricedUsd(since, now, prev))
            <==> !(prev.Some? && prev.value.shares > 0.0 && since != prev.value.shares && prev.value.value != 0.0)
  {
    assert Size(-since) == since;
    if prev.Some? && prev.value.shares > 0.0 {
      var whole, value := prev.value.shares, prev.value.value;
      PartIsWhole(whole, since, value);
      if since == 0.0 {
        assert since * value / whole == 0.0;
      }
    }
  }

  lemma {:induction false} NothingSince(row: Compared)
    requires Sound(row) && !(row.prev.Some? && row.prev.value.shares > 0.0)
    ensures Since(row) == 0.0
  {
    if row.prev.Some? && row.split.Some? {
      assert Scaled(row.prev.value.shares, row.split.value) == 0.0;
      assert Round(0.0, 10_000.0) == 0.0;
    }
  }

  /** A position's change in value is what was bought less what was sold, its drift, and the new price of what
      was held before; exactly where the one price is not taken for the other's shares. */
  lemma {:induction false} RowDecomposesIff(row: Compared)
    requires Sound(row)
    ensures ValueDelta(row) == BoughtIn(row) - SoldIn(row) + DriftIn(row) + Repriced(row) <==> !MixesPrices(row)
  {
    SignedTrade(row);
    var since := Since(row);
    SinceNotNegative(row);
    if row.now.shares > 0.0 {
      WithShares(since, row.now, row.prev);
    } else {
      WithoutShares(since, row.now, row.prev);
      if !(row.prev.Some? && row.prev.value.shares > 0.0) {
        NothingSince(row);
      }
    }
  }

  lemma {:induction false} WholePriced(h: Holding)
    requires h.shares > 0.0
    ensures Priced(h.shares, h) == h.value
  {
    PartsOf(h.shares, 0.0, h.value);
  }

  /** The two ends of a holding: entering it costs what it is worth now, leaving it raises what it was worth. */
  lemma {:induction false} WholeTrades(row: Compared)
    requires Sound(row)
    ensures Classify(row) == New && row.now.shares > 0.0 ==> Traded(row) == row.now.value
    ensures Classify(row) == Exit && row.prev.value.shares > 0.0 ==> Traded(row) == row.prev.value.value
  {
    var whole := if Classify(row) == New then row.now else if row.exited then row.prev.value else NOTHING;
    if whole.shares > 0.0 {
      assert Size(SharesDelta(row)) == whole.shares;
      WholePriced(whole);
    }
  }

  /** It happens: 100 shares split ten for one, then listed at none, are worth a trade of ten times what they were. */
  lemma {:induction false} MixedPricesOvervalueTheTrade()
    ensures var history: History := [map[7 := Holding(100.0, 5_000.0)], map[7 := NOTHING]];
            var row := RowAt(history, map[(7, 1) := Ratio(10, 1)], 7, 1);
            && Plausible(history) && row.Some? && MixesPrices(row.value)
            && SoldIn(row.value) == 50_000.0 && ValueDelta(row.value) == -5_000.0
  {
    var history: History := [map[7 := Holding(100.0, 5_000.0)], map[7 := NOTHING]];
    var splits: Splits := map[(7, 1) := Ratio(10, 1)];
    var row := RowAt(history, splits, 7, 1);
    assert row == Some(Compared(false, NOTHING, Some(Holding(100.0, 5_000.0)), Some(Ratio(10, 1)), false));
    assert Since(row.value) == Round(1_000.0, 10_000.0) == 1_000.0;
    assert Classify(row.value) == Trim;
    assert Traded(row.value) == 1_000.0 * 5_000.0 / 100.0;
  }

  // ----- rows together -----

  /** One security's rows in a period by filer, or one filer's by security. */
  type Changes = map<nat, Compared>

  ghost function Of(rows: Changes, amount: Compared -> real): nat -> real {
    (k: nat) => if k in rows then amount(rows[k]) else 0.0
  }

  ghost function Total(rows: Changes, amount: Compared -> real): real {
    Sum(rows.Keys, Of(rows, amount))
  }

  ghost predicate AllSound(rows: Changes) {
    forall k :: k in rows ==> Sound(rows[k]) && !MixesPrices(rows[k])
  }

  ghost function Parts(rows: Changes, keys: set<nat>): real {
    Sum(keys, Of(rows, BoughtIn)) - Sum(keys, Of(rows, SoldIn)) + Sum(keys, Of(rows, DriftIn)) + Sum(keys, Of(rows, Repriced))
  }

  lemma {:induction false} PartsAddUp(rows: Changes, keys: set<nat>)
    requires AllSound(rows) && keys <= rows.Keys
    ensures Sum(keys, Of(rows, ValueDelta)) == Parts(rows, keys)
    decreases |keys|
  {
    if keys != {} {
      var k :| k in keys;
      PartsAddUp(rows, keys - {k});
      PartsPull(rows, keys, k);
      RowDecomposesIff(rows[k]);
    }
  }

  lemma {:induction false} PartsPull(rows: Changes, keys: set<nat>, k: nat)
    requires k in keys && k in rows
    ensures Sum(keys, Of(rows, ValueDelta)) == ValueDelta(rows[k]) + Sum(keys - {k}, Of(rows, ValueDelta))
    ensures var row := rows[k];
            Parts(rows, keys) == BoughtIn(row) - SoldIn(row) + DriftIn(row) + Repriced(row) + Parts(rows, keys - {k})
  {
    SumPull(keys, k, Of(rows, ValueDelta));
    SumPull(keys, k, Of(rows, BoughtIn));
    SumPull(keys, k, Of(rows, SoldIn));
    SumPull(keys, k, Of(rows, DriftIn));
    SumPull(keys, k, Of(rows, Repriced));
  }

  // ----- a filer's period -----

  ghost function ValueOf(p: Portfolio): nat -> real {
    (s: nat) => if s in p then p[s].value else 0.0
  }

  ghost function Worth(p: Portfolio): real {
    Sum(p.Keys, ValueOf(p))
  }

  /** Turnover's denominator: the sum over a period's changes of the previous values is the whole of the previous
      portfolio, held on or exited. */
  lemma {:induction false} PrevValuesAreThePreviousPortfolio(history: History, splits: Splits, t: nat)
    requires 0 < t < |history| && Plausible(history)
    ensures Total(Rows(history, splits, t), PrevValue) == Worth(history[t - 1])
  {
    var rows, was := Rows(history, splits, t), history[t - 1];
    RowsCompareWithPreviousPeriod(history, splits, t);
    forall s | s in rows.Keys - was.Keys ensures Of(rows, PrevValue)(s) == 0.0 {
      assert Stands(rows[s], history, s, t);
      assert rows[s].prev.None?;
      assert PrevValue(rows[s]) == 0.0;
    }
    SumOverMore(was.Keys, rows.Keys, Of(rows, PrevValue));
    SumSame(was.Keys, Of(rows, PrevValue), ValueOf(was));
  }

  function NowValue(row: Compared): real {
    row.now.value
  }

  lemma {:induction false} NowValuesAreThePortfolio(history: History, splits: Splits, t: nat)
    requires t < |history| && Plausible(history)
    ensures Total(Rows(history, splits, t), NowValue) == Worth(history[t])
  {
    var rows := Rows(history, splits, t);
    RowsCompareWithPreviousPeriod(history, splits, t);
    SumOverMore(history[t].Keys, rows.Keys, Of(rows, NowValue));
    SumSame(history[t].Keys, Of(rows, NowValue), ValueOf(history[t]));
  }

  /** Between any two published periods, what a filer's portfolio gained is what it bought less what it sold,
      the drift of what it held, and the prices' move on what it already had: no dollar twice, none left out. */
  lemma {:induction false} PortfolioChangeDecomposes(history: History, splits: Splits, t: nat)
    requires 0 < t < |history| && Plausible(history)
    requires forall s :: s in Rows(history, splits, t) ==> !MixesPrices(Rows(history, splits, t)[s])
    ensures var rows := Rows(history, splits, t);
            Worth(history[t]) - Worth(history[t - 1])
            == Total(rows, BoughtIn) - Total(rows, SoldIn) + Total(rows, DriftIn) + Total(rows, Repriced)
  {
    var rows := Rows(history, splits, t);
    RowsCompareWithPreviousPeriod(history, splits, t);
    PartsAddUp(rows, rows.Keys);
    PrevValuesAreThePreviousPortfolio(history, splits, t);
    NowValuesAreThePortfolio(history, splits, t);
    SumPlus(rows.Keys, Of(rows, ValueDelta), Of(rows, PrevValue), Of(rows, NowValue));
  }

  /** A row's part in a filer's turnover. */
  function TradedIn(row: Compared): real {
    if Classify(row) == Hold then 0.0 else Traded(row)
  }

  /** turnover_pct: undefined over no previous rows, or over previous rows worth zero. */
  ghost function Turnover(rows: Changes): Option<real> {
    if (forall k :: k in rows ==> rows[k].prev.None?) || Total(rows, PrevValue) == 0.0 then None
    else Some(Round(Total(rows, TradedIn) * 100.0 / 2.0 / Total(rows, PrevValue), 1_000_000.0))
  }

  lemma {:induction false} TradedIsBoughtAndSold(rows: Changes)
    ensures Total(rows, TradedIn) == Total(rows, BoughtIn) + Total(rows, SoldIn)
  {
    forall k | k in rows ensures Of(rows, TradedIn)(k) == Of(rows, BoughtIn)(k) + Of(rows, SoldIn)(k) {
      EachActionOnce(rows[k]);
    }
    SumPlus(rows.Keys, Of(rows, BoughtIn), Of(rows, SoldIn), Of(rows, TradedIn));
  }

  lemma {:induction false} EachActionOnce(row: Compared)
    ensures TradedIn(row) == BoughtIn(row) + SoldIn(row)
  {
  }

  /** Exactly when turnover is undefined, in terms of the portfolios themselves. */
  lemma {:induction false} TurnoverNullIff(history: History, splits: Splits, t: nat)
    requires t < |history| && Plausible(history) && forall u :: 0 <= u < |history| ==> history[u] != map[]
    ensures Turnover(Rows(history, splits, t)).None? <==> t == 0 || Worth(history[t - 1]) == 0.0
  {
    var rows := Rows(history, splits, t);
    RowsCompareWithPreviousPeriod(history, splits, t);
    if t > 0 {
      PrevValuesAreThePreviousPortfolio(history, splits, t);
      var s :| s in history[t - 1];
      RowStands(history, splits, t, s);
      assert s in rows && rows[s].prev.Some?;
    } else {
      assert forall k :: k in rows ==> rows[k].prev.None?;
    }
  }

  /** The two sides of the trading, averaged, as a percentage of what the portfolio was worth before. */
  lemma {:induction false} TurnoverIsHalfOfWhatTraded(history: History, splits: Splits, t: nat)
    requires 0 < t < |history| && Plausible(history)
    ensures var rows, turnover := Rows(history, splits, t), Turnover(Rows(history, splits, t));
            turnover.Some? ==>
              && Worth(history[t - 1]) != 0.0
              && turnover.value
                 == Round((Total(rows, BoughtIn) + Total(rows, SoldIn)) / 2.0 * 100.0 / Worth(history[t - 1]), 1_000_000.0)
  {
    PrevValuesAreThePreviousPortfolio(history, splits, t);
    TradedIsBoughtAndSold(Rows(history, splits, t));
  }

  /** Whatever prices did, a period in which everything was held on turned over nothing and flowed nowhere. */
  lemma {:induction false} HoldsTradeNothing(rows: Changes)
    requires forall k :: k in rows ==> Classify(rows[k]) == Hold
    ensures Total(rows, BoughtIn) == 0.0 && Total(rows, SoldIn) == 0.0
    ensures Turnover(rows).Some? ==> Turnover(rows) == Some(0.0)
  {
    forall k | k in rows ensures Of(rows, BoughtIn)(k) == 0.0 && Of(rows, SoldIn)(k) == 0.0 {
      assert BoughtIn(rows[k]) == 0.0 && SoldIn(rows[k]) == 0.0;
    }
    SumZero(rows.Keys, Of(rows, BoughtIn));
    SumZero(rows.Keys, Of(rows, SoldIn));
    TradedIsBoughtAndSold(rows);
    var prev := Total(rows, PrevValue);
    if prev != 0.0 {
      NoneOf(prev);
    }
  }

  lemma {:induction false} NoneOf(whole: real)
    requires whole != 0.0
    ensures Round(0.0 * 100.0 / 2.0 / whole, 1_000_000.0) == 0.0
  {
    assert 0.0 / whole == 0.0;
    assert Round(0.0, 1_000_000.0) == 0.0;
  }

  /** A filer that replaced its whole book bought all it has and sold all it had. */
  lemma {:induction false} WholeBookReplaced(history: History, splits: Splits, t: nat)
    requires 0 < t < |history| && Plausible(history)
    requires history[t].Keys !! history[t - 1].Keys
    requires forall u, s :: t - 1 <= u <= t && s in history[u] ==> history[u][s].shares > 0.0
    ensures var rows := Rows(history, splits, t);
            Total(rows, BoughtIn) == Worth(history[t]) && Total(rows, SoldIn) == Worth(history[t - 1])
  {
    var rows := Rows(history, splits, t);
    RowsCompareWithPreviousPeriod(history, splits, t);
    forall s | s in rows ensures BoughtIn(rows[s]) == NowValue(rows[s]) && SoldIn(rows[s]) == PrevValue(rows[s]) {
      WholeTrades(rows[s]);
      assert s in history[t] || s in history[t - 1];
    }
    SumSame(rows.Keys, Of(rows, BoughtIn), Of(rows, NowValue));
    SumSame(rows.Keys, Of(rows, SoldIn), Of(rows, PrevValue));
    PrevValuesAreThePreviousPortfolio(history, splits, t);
    NowValuesAreThePortfolio(history, splits, t);
  }

  // ----- a security's quarter -----

  /** The rows that count as flow: those with a period to compare against. */
  ghost function NotFirst(rows: Changes): Changes {
    map k | k in rows && !rows[k].first :: rows[k]
  }

  ghost function BoughtDollars(rows: Changes): real {
    Round(Total(NotFirst(rows), BoughtIn), 100.0)
  }

  ghost function SoldDollars(rows: Changes): real {
    Round(Total(NotFirst(rows), SoldIn), 100.0)
  }

  /** A quarter's bought dollars are of its rows that entered or added, each filer's first period apart, and its sold ones
      of those that trimmed or left: each trade the change in shares at the price now, or, with no shares now, at the
      price before. */
  lemma {:induction false} DollarsAre(rows: Changes, bought: nat -> real, sold: nat -> real)
    requires forall k :: k in rows ==> Sound(rows[k])
    requires forall k :: k in rows ==> bought(k) == BuysAt(rows[k]) && sold(k) == SellsAt(rows[k])
    ensures BoughtDollars(rows) == Round(Sum(rows.Keys, bought), 100.0)
    ensures SoldDollars(rows) == Round(Sum(rows.Keys, sold), 100.0)
  {
    var counted := NotFirst(rows);
    forall k | k in rows ensures bought(k) == (if k in counted then BoughtIn(rows[k]) else 0.0) {
      BuysAndSells(rows[k]);
    }
    forall k | k in rows ensures sold(k) == (if k in counted then SoldIn(rows[k]) else 0.0) {
      BuysAndSells(rows[k]);
    }
    SumSame(counted.Keys, bought, Of(counted, BoughtIn));
    SumSame(counted.Keys, sold, Of(counted, SoldIn));
    SumOverMore(counted.Keys, rows.Keys, bought);
    SumOverMore(counted.Keys, rows.Keys, sold);
  }

  /** Shares at the price of a period, or of the one before when there are none now. */
  function AtPrice(row: Compared, shares: real): real {
    if row.now.shares > 0.0 then Priced(shares, row.now)
    else if row.prev.Some? && row.prev.value.shares > 0.0 then Priced(shares, row.prev.value)
    else 0.0
  }

  function BuysAt(row: Compared): real {
    if row.first || row.exited then 0.0
    else if row.prev.None? || row.now.shares - Since(row) > Since(row) / 10_000.0 then AtPrice(row, Size(row.now.shares - Since(row)))
    else 0.0
  }

  function SellsAt(row: Compared): real {
    if row.first || row.prev.None? then 0.0
    else if row.exited || Since(row) - row.now.shares > Since(row) / 10_000.0 then AtPrice(row, Size(row.now.shares - Since(row)))
    else 0.0
  }

  lemma {:induction false} SidesIff(row: Compared)
    requires Sound(row)
    ensures Buys(row) <==> !row.exited && (row.prev.None? || row.now.shares - Since(row) > Since(row) / 10_000.0)
    ensures Sells(row) <==> row.prev.Some? && (row.exited || Since(row) - row.now.shares > Since(row) / 10_000.0)
  {
    ActionIs(row);
    SinceNotNegative(row);
  }

  lemma {:induction false} TradeIsAtPrice(row: Compared)
    ensures Traded(row) == AtPrice(row, Size(row.now.shares - Since(row)))
  {
  }

  lemma {:induction false} BuysAndSells(row: Compared)
    requires Sound(row)
    ensures BuysAt(row) == if row.first then 0.0 else BoughtIn(row)
    ensures SellsAt(row) == if row.first then 0.0 else SoldIn(row)
  {
    SidesIff(row);
    TradeIsAtPrice(row);
  }

  lemma {:induction false} CentsNear(y: real)
    requires y >= 0.0
    ensures -0.005 <= Round(y, 100.0) - y <= 0.005
  {
    var n := (y * 100.0 + 0.5).Floor;
    assert n as real <= y * 100.0 + 0.5 < n as real + 1.0;
    assert Round(y, 100.0) == n as real / 100.0;
  }

  lemma {:induction false} CentsAreNear(x: real)
    ensures -0.005 <= Round(x, 100.0) - x <= 0.005
  {
    if x < 0.0 {
      CentsNear(-x);
      assert Round(x, 100.0) == -Round(-x, 100.0);
    } else {
      CentsNear(x);
    }
  }

  /** A quarter's net flow is, to the cent, the change in what the filers hold that neither the price nor the
      drift made. */
  lemma {:induction false} NetFlowIsNotPriceMove(rows: Changes)
    requires AllSound(rows)
    ensures var counted := NotFirst(rows);
            var moved := Total(counted, ValueDelta) - Total(counted, DriftIn) - Total(counted, Repriced);
            -0.01 <= BoughtDollars(rows) - SoldDollars(rows) - moved <= 0.01
  {
    var counted := NotFirst(rows);
    PartsAddUp(counted, counted.Keys);
    CentsAreNear(Total(counted, BoughtIn));
    CentsAreNear(Total(counted, SoldIn));
  }
}

/** A year of flows ending at each quarter end (alembic/versions/20261003_0019_market_views.py): which quarters
    are in it, the dollars of one year against the next's, and who is counted once. */
module YearFlows {
  import opened Sums
  import opened PositionChange
  import opened Flows

  // ----- the window, on the calendar -----

  datatype Date = Date(year: int, month: nat, day: nat)

  predicate Leap(year: int) {
    year % 4 == 0 && (year % 100 != 0 || year % 400 == 0)
  }

  function DaysIn(year: int, month: nat): nat {
    if month == 2 then (if Leap(year) then 29 else 28)
    else if month in {4, 6, 9, 11} then 30
    else 31
  }

  predicate Earlier(a: Date, b: Date) {
    a.year < b.year || (a.year == b.year && (a.month < b.month || (a.month == b.month && a.day < b.day)))
  }

  /** Subtracting a year from a date; February 29th lands on the 28th. */
  function YearBefore(d: Date): Date {
    var last := DaysIn(d.year - 1, d.month);
    Date(d.year - 1, d.month, if d.day > last then last else d.day)
  }

  /** IN_YEAR: a window open at its far end and closed at the near one. */
  predicate InYear(period: Date, end: Date) {
    !Earlier(end, period) && Earlier(YearBefore(end), period)
  }

  /** The quarter ends, numbered: four a year, a 13F's only periods. */
  function QuarterEnd(q: nat): Date {
    var month := (q % 4 + 1) * 3;
    Date(q / 4, month, DaysIn(q / 4, month))
  }

  /** March 31st, June 30th, September 30th and December 31st. */
  lemma {:induction false} QuarterEndIs(q: nat)
    ensures QuarterEnd(q) == Date(q / 4, [3, 6, 9, 12][q % 4], [31, 30, 30, 31][q % 4])
  {
    assert q % 4 == 0 || q % 4 == 1 || q % 4 == 2 || q % 4 == 3;
  }

  /** A day that its month can have is the same day a year earlier, except that February 29th is the 28th of a year
      that is not one by four, or is one by a hundred and not by four hundred. */
  lemma {:induction false} YearBeforeIs(d: Date)
    requires 1 <= d.day <= 31 && (d.month in {4, 6, 9, 11} ==> d.day <= 30) && (d.month == 2 ==> d.day <= 29)
    ensures var earlier := d.year - 1;
            var leap := if earlier % 100 == 0 then earlier % 400 == 0 else earlier % 4 == 0;
            YearBefore(d) == Date(earlier, d.month, if d.month == 2 && d.day == 29 && !leap then 28 else d.day)
  {
    HundredsAreFours(d.year - 1);
  }

  lemma {:induction false} HundredsAreFours(year: int)
    ensures year % 100 == 0 ==> year % 4 == 0
  {
    var hundreds := year / 100;
    assert year % 100 == 0 ==> year == 4 * (25 * hundreds);
  }

  /** A year is exactly the four quarters up to and including its end: March 31st's and December 31st's too. */
  lemma {:induction false} YearIsFourQuarters(q: nat, end: nat)
    ensures InYear(QuarterEnd(q), QuarterEnd(end)) <==> end < q + 4 && q <= end
  {
    assert end == end / 4 * 4 + end % 4 && q == q / 4 * 4 + q % 4;
    var last := QuarterEnd(end);
    assert last.month in {3, 6, 9, 12};
    assert YearBefore(last) == Date(end / 4 - 1, last.month, last.day);
  }

  ghost predicate IsQuarterEnd(d: Date) {
    exists q :: d == QuarterEnd(q)
  }

  lemma {:induction false} QuarterEndsDiffer(p: nat, q: nat)
    requires p != q
    ensures QuarterEnd(p) != QuarterEnd(q)
  {
    assert p == p / 4 * 4 + p % 4 && q == q / 4 * 4 + q % 4;
  }

  // ----- one security's rows, by filer and period -----

  /** position_change's rows of one security, by its key: the filer and the period. */
  type Market = map<(nat, Date), Compared>

  ghost predicate OnQuarterEnds(market: Market) {
    forall key :: key in market ==> IsQuarterEnd(key.1)
  }

  /** The rows of one quarter that the flows are over. */
  function Quarter(market: Market, period: Date): Changes {
    map key | key in market && key.1 == period && !market[key].first :: key.0 := market[key]
  }

  /** The quarters with flows. */
  function Quarters(market: Market): set<Date> {
    set key | key in market && !market[key].first :: key.1
  }

  function YearQuarters(market: Market, end: Date): set<Date> {
    set period | period in Quarters(market) && InYear(period, end)
  }

  ghost function QuarterBought(market: Market): Date -> real {
    (period: Date) => BoughtDollars(Quarter(market, period))
  }

  ghost function QuarterSold(market: Market): Date -> real {
    (period: Date) => SoldDollars(Quarter(market, period))
  }

  ghost function QuarterNetShares(market: Market): Date -> real {
    (period: Date) => Total(Quarter(market, period), SharesDelta)
  }

  /** A column of the year's row: the sum over its quarters of the quarter's. */
  ghost function YearSum(market: Market, end: Date, column: Date -> real): real {
    Sum(YearQuarters(market, end), column)
  }

  ghost function YearNet(market: Market, end: Date): real {
    YearSum(market, end, QuarterBought(market)) - YearSum(market, end, QuarterSold(market))
  }

  lemma {:induction false} NoRowsNoFlow(market: Market, period: Date)
    requires period !in Quarters(market)
    ensures QuarterBought(market)(period) == 0.0 && QuarterSold(market)(period) == 0.0
    ensures QuarterNetShares(market)(period) == 0.0
  {
    assert Quarter(market, period).Keys == {};
    assert NotFirst(Quarter(market, period)).Keys == {};
    assert Round(0.0, 100.0) == 0.0;
  }

  /** The column has nothing for a quarter without rows. */
  ghost predicate NeedsRows(market: Market, column: Date -> real) {
    forall period :: period !in Quarters(market) ==> column(period) == 0.0
  }

  lemma {:induction false} ColumnsNeedRows(market: Market)
    ensures NeedsRows(market, QuarterBought(market)) && NeedsRows(market, QuarterSold(market))
    ensures NeedsRows(market, QuarterNetShares(market))
  {
    forall period | period !in Quarters(market)
      ensures QuarterBought(market)(period) == 0.0 && QuarterSold(market)(period) == 0.0 && QuarterNetShares(market)(period) == 0.0
    {
      NoRowsNoFlow(market, period);
    }
  }

  function LastFour(end: nat): (four: seq<Date>)
    requires end >= 3
    ensures |four| == 4
  {
    [QuarterEnd(end - 3), QuarterEnd(end - 2), QuarterEnd(end - 1), QuarterEnd(end)]
  }

  lemma {:induction false} LastFourDiffer(end: nat)
    requires end >= 3
    ensures forall i, j :: 0 <= i < j < 4 ==> LastFour(end)[i] != LastFour(end)[j]
  {
    QuarterEndsDiffer(end - 3, end - 2);
    QuarterEndsDiffer(end - 3, end - 1);
    QuarterEndsDiffer(end - 3, end);
    QuarterEndsDiffer(end - 2, end - 1);
    QuarterEndsDiffer(end - 2, end);
    QuarterEndsDiffer(end - 1, end);
  }

  lemma {:induction false} IsOneOfLastFour(q: nat, end: nat)
    requires end >= 3
    ensures QuarterEnd(q) in LastFour(end) <==> q == end - 3 || q == end - 2 || q == end - 1 || q == end
  {
    var d, four := QuarterEnd(q), LastFour(end);
    assert d in four <==> d == four[0] || d == four[1] || d == four[2] || d == four[3];
    Same(q, end - 3);
    Same(q, end - 2);
    Same(q, end - 1);
    Same(q, end);
  }

  lemma {:induction false} Same(p: nat, q: nat)
    ensures QuarterEnd(p) == QuarterEnd(q) <==> p == q
  {
    if p != q {
      QuarterEndsDiffer(p, q);
    }
  }

  lemma {:induction false} InYearIsLastFour(period: Date, end: nat)
    requires end >= 3 && IsQuarterEnd(period)
    ensures InYear(period, QuarterEnd(end)) <==> period in LastFour(end)
  {
    var q: nat :| period == QuarterEnd(q);
    YearIsFourQuarters(q, end);
    IsOneOfLastFour(q, end);
  }

  function Four(dates: seq<Date>, f: Date -> real): real
    requires |dates| == 4
  {
    f(dates[0]) + f(dates[1]) + f(dates[2]) + f(dates[3])
  }

  lemma {:induction false} FourTerms(dates: seq<Date>, f: Date -> real)
    requires |dates| == 4 && forall i, j :: 0 <= i < j < 4 ==> dates[i] != dates[j]
    ensures Sum({dates[0], dates[1], dates[2], dates[3]}, f) == Four(dates, f)
  {
    var all := {dates[0], dates[1], dates[2], dates[3]};
    SumPull(all, dates[0], f);
    SumPull(all - {dates[0]}, dates[1], f);
    SumPull(all - {dates[0]} - {dates[1]}, dates[2], f);
    SumPull(all - {dates[0]} - {dates[1]} - {dates[2]}, dates[3], f);
    assert all - {dates[0]} - {dates[1]} - {dates[2]} - {dates[3]} == {};
  }

  lemma {:induction false} FourOf(quarters: set<Date>, present: set<Date>, dates: seq<Date>, f: Date -> real)
    requires |dates| == 4 && forall i, j :: 0 <= i < j < 4 ==> dates[i] != dates[j]
    requires forall d :: d in quarters <==> d in present && d in dates
    requires forall d :: d !in present ==> f(d) == 0.0
    ensures Sum(quarters, f) == Four(dates, f)
  {
    var four := {dates[0], dates[1], dates[2], dates[3]};
    assert forall d :: d in four <==> d in dates;
    SumOverMore(quarters, four, f);
    FourTerms(dates, f);
  }

  lemma {:induction false} YearQuartersAreFour(market: Market, end: nat)
    requires end >= 3 && OnQuarterEnds(market)
    ensures forall d :: d in YearQuarters(market, QuarterEnd(end)) <==> d in Quarters(market) && d in LastFour(end)
  {
    forall d | d in Quarters(market) ensures InYear(d, QuarterEnd(end)) <==> d in LastFour(end) {
      InYearIsLastFour(d, end);
    }
  }

  /** A year is the sum of four quarters, whichever of them have a row. */
  lemma {:induction false} YearIsTheSumOfFour(market: Market, end: nat, column: Date -> real)
    requires end >= 3 && OnQuarterEnds(market) && NeedsRows(market, column)
    ensures YearSum(market, QuarterEnd(end), column) == Four(LastFour(end), column)
  {
    YearQuartersAreFour(market, end);
    LastFourDiffer(end);
    FourOf(YearQuarters(market, QuarterEnd(end)), Quarters(market), LastFour(end), column);
  }

  /** The year's dollars are the sums of the quarters' as those round, and its net is the sum of their nets: what
      the four quarters show adds up to what the year does. */
  lemma {:induction false} YearAddsUpItsQuarters(market: Market, end: nat)
    requires end >= 3 && OnQuarterEnds(market)
    ensures var year, four := QuarterEnd(end), LastFour(end);
            && YearSum(market, year, QuarterBought(market)) == Four(four, QuarterBought(market))
            && YearSum(market, year, QuarterSold(market)) == Four(four, QuarterSold(market))
            && YearSum(market, year, QuarterNetShares(market)) == Four(four, QuarterNetShares(market))
            && YearNet(market, year) == Four(four, (d: Date) => QuarterBought(market)(d) - QuarterSold(market)(d))
  {
    ColumnsNeedRows(market);
    YearIsTheSumOfFour(market, end, QuarterBought(market));
    YearIsTheSumOfFour(market, end, QuarterSold(market));
    YearIsTheSumOfFour(market, end, QuarterNetShares(market));
  }

  /** One year differs from the year before it by the quarter that came in less the one that went out. */
  lemma {:induction false} YearRolls(market: Market, end: nat, column: Date -> real)
    requires end >= 3 && OnQuarterEnds(market) && NeedsRows(market, column)
    ensures YearSum(market, QuarterEnd(end + 1), column) - YearSum(market, QuarterEnd(end), column)
            == column(QuarterEnd(end + 1)) - column(QuarterEnd(end - 3))
  {
    YearIsTheSumOfFour(market, end, column);
    YearIsTheSumOfFour(market, end + 1, column);
    LastFourRolls(end);
    FourRolls(LastFour(end), LastFour(end + 1), column);
  }

  lemma {:induction false} LastFourRolls(end: nat)
    requires end >= 3
    ensures LastFour(end)[1..] == LastFour(end + 1)[..3]
    ensures LastFour(end)[0] == QuarterEnd(end - 3) && LastFour(end + 1)[3] == QuarterEnd(end + 1)
  {
  }

  lemma {:induction false} FourRolls(now: seq<Date>, next: seq<Date>, f: Date -> real)
    requires |now| == |next| == 4 && now[1..] == next[..3]
    ensures Four(next, f) - Four(now, f) == f(next[3]) - f(now[0])
  {
    assert now[1..][0] == next[..3][0] && now[1..][1] == next[..3][1] && now[1..][2] == next[..3][2];
  }

  lemma {:induction false} DollarsRoll(market: Market, end: nat)
    requires end >= 3 && OnQuarterEnds(market)
    ensures var year, next, out := QuarterEnd(end), QuarterEnd(end + 1), QuarterEnd(end - 3);
            && YearSum(market, next, QuarterBought(market)) - YearSum(market, year, QuarterBought(market))
               == QuarterBought(market)(next) - QuarterBought(market)(out)
            && YearSum(market, next, QuarterSold(market)) - YearSum(market, year, QuarterSold(market))
               == QuarterSold(market)(next) - QuarterSold(market)(out)
            && YearSum(market, next, QuarterNetShares(market)) - YearSum(market, year, QuarterNetShares(market))
               == QuarterNetShares(market)(next) - QuarterNetShares(market)(out)
  {
    ColumnsNeedRows(market);
    YearRolls(market, end, QuarterBought(market));
    YearRolls(market, end, QuarterSold(market));
    YearRolls(market, end, QuarterNetShares(market));
  }

  // ----- filers, counted once -----

  /** What a count is filtered to: buyers, sellers, new positions, exits. None counts a hold. */
  datatype Side = Buyers | Sellers | NewPositions | Exits

  predicate Counts(side: Side, row: Compared) {
    match side
    case Buyers => Buys(row)
    case Sellers => Sells(row)
    case NewPositions => Classify(row) == New
    case Exits => Classify(row) == Exit
  }

  predicate IsCounted(market: Market, filer: nat, period: Date, side: Side) {
    (filer, period) in market && !market[(filer, period)].first && Counts(side, market[(filer, period)])
  }

  /** The filers behind count(*) FILTER in the quarter's row: one row per filer, so rows are filers. */
  function QuarterFilers(market: Market, period: Date, side: Side): set<nat> {
    set filer | filer in Quarter(market, period) && Counts(side, Quarter(market, period)[filer])
  }

  /** The filers behind count(DISTINCT filer_id) FILTER in the year's row. */
  function YearFilers(market: Market, end: Date, side: Side): set<nat> {
    set key | key in market && InYear(key.1, end)
              && !market[key].first && Classify(market[key]) != Hold && Counts(side, market[key]) :: key.0
  }

  /** Who is counted on each side of a quarter, of a filer with a period before it: a buyer entered the position or holds
      more of it, a seller left it or holds less, and a new position and an exit are what they say. Nobody is for a
      hold. */
  lemma {:induction false} CountedIff(market: Market, filer: nat, period: Date, side: Side)
    requires forall key :: key in market ==> Sound(market[key])
    ensures IsCounted(market, filer, period, side)
            <==> && (filer, period) in market && !market[(filer, period)].first
                 && var row := market[(filer, period)];
                    var entered, left := row.prev.None?, row.exited;
                    var more, fewer := row.now.shares - Since(row) > Since(row) / 10_000.0, Since(row) - row.now.shares > Since(row) / 10_000.0;
                    match side
                    case Buyers => entered || (!left && more)
                    case Sellers => left || (!entered && fewer)
                    case NewPositions => entered
                    case Exits => left
  {
    if (filer, period) in market {
      ActionIs(market[(filer, period)]);
    }
  }

  lemma {:induction false} FilerInQuarter(market: Market, period: Date, side: Side, filer: nat)
    ensures filer in QuarterFilers(market, period, side) <==> IsCounted(market, filer, period, side)
  {
    var key := (filer, period);
    if key in market && !market[key].first {
      assert Quarter(market, period)[key.0] == market[key];
    }
  }

  lemma {:induction false} FilerInYear(market: Market, end: Date, side: Side, filer: nat)
    ensures filer in YearFilers(market, end, side) <==> exists d :: IsCounted(market, filer, d, side) && InYear(d, end)
  {
    if d :| IsCounted(market, filer, d, side) && InYear(d, end) {
      assert (filer, d).0 == filer;
    }
    if filer in YearFilers(market, end, side) {
      var key :| key in market && InYear(key.1, end)
                 && !market[key].first && Classify(market[key]) != Hold && Counts(side, market[key]) && key.0 == filer;
      assert key == (filer, key.1);
      assert IsCounted(market, filer, key.1, side);
    }
  }

  /** The four quarters' filers, oldest quarter first. */
  function QuarterByQuarter(market: Market, dates: seq<Date>, side: Side): (sets: seq<set<nat>>)
    requires |dates| == 4
    ensures |sets| == 4
  {
    [QuarterFilers(market, dates[0], side), QuarterFilers(market, dates[1], side),
     QuarterFilers(market, dates[2], side), QuarterFilers(market, dates[3], side)]
  }

  function Together(sets: seq<set<nat>>): set<nat>
    requires |sets| == 4
  {
    sets[0] + sets[1] + sets[2] + sets[3]
  }

  function InFour(market: Market, dates: seq<Date>, side: Side): set<nat>
    requires |dates| == 4
  {
    Together(QuarterByQuarter(market, dates, side))
  }

  lemma {:induction false} IsOneOf(dates: seq<Date>, d: Date)
    requires |dates| == 4
    ensures d in dates <==> d == dates[0] || d == dates[1] || d == dates[2] || d == dates[3]
  {
  }

  ghost predicate CountedOn(market: Market, filer: nat, side: Side, dates: seq<Date>) {
    exists d :: IsCounted(market, filer, d, side) && d in dates
  }

  lemma {:induction false} CountedOnOneOf(market: Market, filer: nat, side: Side, dates: seq<Date>)
    requires |dates| == 4
    ensures CountedOn(market, filer, side, dates)
            <==> || IsCounted(market, filer, dates[0], side) || IsCounted(market, filer, dates[1], side)
                 || IsCounted(market, filer, dates[2], side) || IsCounted(market, filer, dates[3], side)
  {
    forall d ensures d in dates <==> d == dates[0] || d == dates[1] || d == dates[2] || d == dates[3] {
      IsOneOf(dates, d);
    }
  }

  lemma {:induction false} FilerInFour(market: Market, dates: seq<Date>, side: Side, filer: nat)
    requires |dates| == 4
    ensures filer in InFour(market, dates, side) <==> CountedOn(market, filer, side, dates)
  {
    var sets := QuarterByQuarter(market, dates, side);
    FilerInQuarter(market, dates[0], side, filer);
    FilerInQuarter(market, dates[1], side, filer);
    FilerInQuarter(market, dates[2], side, filer);
    FilerInQuarter(market, dates[3], side, filer);
    CountedOnOneOf(market, filer, side, dates);
    InTogether(sets, filer);
  }

  lemma {:induction false} InTogether(sets: seq<set<nat>>, x: nat)
    requires |sets| == 4
    ensures x in Together(sets) <==> x in sets[0] || x in sets[1] || x in sets[2] || x in sets[3]
  {
  }

  lemma {:induction false} YearFilersAreTheQuarters(market: Market, end: nat, side: Side)
    requires end >= 3 && OnQuarterEnds(market)
    ensures YearFilers(market, QuarterEnd(end), side) == InFour(market, LastFour(end), side)
  {
    forall filer ensures filer in YearFilers(market, QuarterEnd(end), side) <==> filer in InFour(market, LastFour(end), side) {
      FilerInYear(market, QuarterEnd(end), side, filer);
      FilerInFour(market, LastFour(end), side, filer);
      forall d | IsCounted(market, filer, d, side) ensures InYear(d, QuarterEnd(end)) <==> d in LastFour(end) {
        assert IsQuarterEnd((filer, d).1);
        InYearIsLastFour(d, end);
      }
    }
  }

  lemma {:induction false} UnionCounts(a: set<nat>, b: set<nat>)
    ensures |a + b| == |a| + |b| - |a * b|
    ensures |a| <= |a + b| && |b| <= |a + b| && |a + b| <= |a| + |b|
    ensures |a + b| == |a| + |b| <==> a !! b
  {
    assert a + b == a + (b - a) && b == (b - a) + (a * b);
    assert |a + b| == |a| + |b - a| && |b| == |b - a| + |a * b|;
    assert a + b == b + (a - b);
  }

  predicate Apart(sets: seq<set<nat>>) {
    forall i, j :: 0 <= i < j < |sets| ==> sets[i] !! sets[j]
  }

  lemma {:induction false} ApartFour(sets: seq<set<nat>>)
    requires |sets| == 4
    ensures Apart(sets) <==> sets[0] !! sets[1] && (sets[0] + sets[1]) !! sets[2] && (sets[0] + sets[1] + sets[2]) !! sets[3]
  {
    var a, b, c, d := sets[0], sets[1], sets[2], sets[3];
    assert (a + b) !! c <==> a !! c && b !! c;
    assert (a + b + c) !! d <==> a !! d && b !! d && c !! d;
    if a !! b && a !! c && a !! d && b !! c && b !! d && c !! d {
      forall i, j | 0 <= i < j < 4 ensures sets[i] !! sets[j] {
        assert i == 0 || i == 1 || i == 2;
        assert j == 1 || j == 2 || j == 3;
      }
    }
  }

  lemma {:induction false} UnionOfFour(sets: seq<set<nat>>)
    requires |sets| == 4
    ensures forall i :: 0 <= i < 4 ==> |sets[i]| <= |Together(sets)|
    ensures |Together(sets)| <= |sets[0]| + |sets[1]| + |sets[2]| + |sets[3]|
    ensures |Together(sets)| == |sets[0]| + |sets[1]| + |sets[2]| + |sets[3]| <==> Apart(sets)
  {
    UnionCounts(sets[0], sets[1]);
    UnionCounts(sets[0] + sets[1], sets[2]);
    UnionCounts(sets[0] + sets[1] + sets[2], sets[3]);
    ApartFour(sets);
  }

  /** The year's count of filers is no quarter's less, and no more than the four together; it is the four
      together exactly when no filer is counted in two of them. */
  lemma {:induction false} FilersCountedOnce(market: Market, end: nat, side: Side)
    requires end >= 3 && OnQuarterEnds(market)
    ensures var n, quarters := |YearFilers(market, QuarterEnd(end), side)|, QuarterByQuarter(market, LastFour(end), side);
            var sum := |quarters[0]| + |quarters[1]| + |quarters[2]| + |quarters[3]|;
            && (forall i :: 0 <= i < 4 ==> |quarters[i]| <= n)
            && n <= sum
            && (n == sum <==> Apart(quarters))
  {
    YearFilersAreTheQuarters(market, end, side);
    UnionOfFour(QuarterByQuarter(market, LastFour(end), side));
  }
}

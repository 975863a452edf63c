/** Which days an account was active (app/accounts/activity.py): what a throttled write misses, and how often
    it writes. Times are microseconds, as Python's datetime keeps them. */
module Activity {
  import opened Wrappers

  const DAY: int := 86_400_000_000

  /** The UTC day, before 1970 too: division rounds down. */
  function UtcDay(at: int): int {
    at / DAY
  }

  /** A write is owed on first use, once the interval is up, and whenever midnight has passed since the last. */
  predicate Due(last: Option<int>, at: int, every: int) {
    last.None? || at - last.value >= every || UtcDay(last.value) != UtcDay(at)
  }

  /** user_activity_day: by account and day, the data exports it took. */
  type Days = map<(nat, int), nat>

  function MarkActive(days: Days, user: nat, at: int): Days {
    if (user, UtcDay(at)) in days then days else days[(user, UtcDay(at)) := 0]
  }

  function CountExport(days: Days, user: nat, at: int): Days {
    var day := (user, UtcDay(at));
    days[day := (if day in days then days[day] else 0) + 1]
  }

  /** What was last written, after requests at these times. */
  function LastWritten(last: Option<int>, times: seq<int>, every: int): Option<int> {
    if times == [] then last
    else
      var before := LastWritten(last, times[..|times| - 1], every);
      if Due(before, times[|times| - 1], every) then Some(times[|times| - 1]) else before
  }

  /** How many of the requests wrote. */
  function Writes(last: Option<int>, times: seq<int>, every: int): nat {
    if times == [] then 0
    else
      var init, at := times[..|times| - 1], times[|times| - 1];
      Writes(last, init, every) + (if Due(LastWritten(last, init, every), at, every) then 1 else 0)
  }

  predicate InOrder(times: seq<int>) {
    forall i, j :: 0 <= i < j < |times| ==> times[i] <= times[j]
  }

  /** Whole spans of `every`, and midnights, between two times. */
  function Spans(from: int, to: int, every: int): int
    requires every > 0
  {
    (to - from) / every + (UtcDay(to) - UtcDay(from))
  }

  lemma {:induction false} SpansAdd(from: int, middle: int, to: int, every: int)
    requires every > 0 && from <= middle <= to
    ensures Spans(from, middle, every) + (if Due(Some(middle), to, every) then 1 else 0) <= Spans(from, to, every)
  {
    SpanAdds(middle - from, to - middle, every);
    assert UtcDay(middle) <= UtcDay(to);
  }

  lemma {:induction false} SpanAdds(a: int, b: int, every: int)
    requires every > 0 && b >= 0
    ensures a / every <= (a + b) / every
    ensures b >= every ==> a / every + 1 <= (a + b) / every
  {
    var q, p := a / every, (a + b) / every;
    assert q * every <= a && a + b < (p + 1) * every;
    Times(q, p + 1, every);
    if b >= every {
      Times(q + 1, p + 1, every);
    }
  }

  lemma {:induction false} Times(a: int, b: int, every: int)
    requires every > 0 && a * every < b * every
    ensures a < b
  {
  }

  /** Requests in order of time, whatever was last written before them: they write once, and then no more often than
      once for each `every` there is between the first and the last, and once for each midnight. */
  lemma {:induction false} WritesAreBounded(last: Option<int>, times: seq<int>, every: int)
    requires every > 0 && times != [] && InOrder(times)
    ensures Writes(last, times, every) <= 1 + Spans(times[0], times[|times| - 1], every)
    ensures var now := LastWritten(last, times, every);
            || (Writes(last, times, every) == 0 && now == last)
            || (now.Some? && times[0] <= now.value <= times[|times| - 1]
                && Writes(last, times, every) <= 1 + Spans(times[0], now.value, every))
  {
    var init, at := times[..|times| - 1], times[|times| - 1];
    var from := if init == [] then last else LastWritten(last, init, every);
    assert Spans(at, at, every) == 0;
    if init != [] {
      WritesAreBounded(last, init, every);
      assert times[0] <= init[|init| - 1] <= at;
      if from.Some? && times[0] <= from.value <= at {
        SpansAdd(times[0], from.value, at, every);
      }
    }
    SpansAdd(times[0], times[0], at, every);
    var now := LastWritten(last, times, every);
    if now.Some? && times[0] <= now.value <= at {
      SpansAdd(times[0], now.value, at, every);
    }
  }

  /** And when the last written was before them all, there is no first one over. */
  lemma {:induction false} WritesSinceAreBounded(last: int, times: seq<int>, every: int)
    requires every > 0 && times != [] && InOrder(times) && last <= times[0]
    ensures Writes(Some(last), times, every) <= Spans(last, times[|times| - 1], every)
    ensures var now := LastWritten(Some(last), times, every);
            now.Some? && last <= now.value <= times[|times| - 1] && Writes(Some(last), times, every) <= Spans(last, now.value, every)
  {
    var init, at := times[..|times| - 1], times[|times| - 1];
    assert Spans(last, last, every) == 0;
    if init == [] {
      assert LastWritten(Some(last), init, every) == Some(last);
      SpansAdd(last, last, at, every);
    } else {
      WritesSinceAreBounded(last, init, every);
      assert init[|init| - 1] <= at;
      SpansAdd(last, LastWritten(Some(last), init, every).value, at, every);
    }
    SpansAdd(last, LastWritten(Some(last), times, every).value, at, every);
  }
}

/** The admin log (app/admin/log.py): rows written once and never changed, read newest first a page at a time
    (app/api/routers/admin.py), while more are written between one page and the next. */
module AdminLog {
  import opened Wrappers

  datatype Source = Console | Cli

  datatype Action = Action(source: Source, adminId: Option<nat>, kind: string, userId: Option<nat>,
                           targetAdminId: Option<nat>, requestId: Option<string>, detail: map<string, string>)

  /** The table, by id. */
  type Rows = map<nat, Action>

  /** What a page is filtered to. */
  datatype Filter = Filter(userId: Option<nat>, adminId: Option<nat>)

  predicate Matches(f: Filter, row: Action) {
    && (f.userId.Some? ==> row.userId == f.userId)
    && (f.adminId.Some? ==> row.adminId == f.adminId)
  }

  /** No row is changed or removed. */
  predicate Grows(before: Rows, after: Rows) {
    forall id :: id in before ==> id in after && after[id] == before[id]
  }

  /** And the rows added came after every one there was. */
  predicate GrowsInOrder(before: Rows, after: Rows) {
    Grows(before, after) && forall id, was :: id in after && id !in before && was in before ==> was < id
  }

  function Eligible(rows: Rows, f: Filter, before: Option<nat>): set<nat> {
    set id | id in rows && Matches(f, rows[id]) && (before.Some? ==> id < before.value)
  }

  ghost predicate IsLargest(max: nat, ids: set<nat>) {
    max in ids && forall id :: id in ids ==> id <= max
  }

  ghost function Largest(ids: set<nat>): (max: nat)
    requires ids != {}
    ensures IsLargest(max, ids)
    decreases |ids|
  {
    var first :| first in ids;
    var rest := ids - {first};
    assert ids == rest + {first};
    if rest == {} then first else var other := Largest(rest); if other > first then other else first
  }

  /** ORDER BY id DESC LIMIT. */
  ghost function Newest(ids: set<nat>, limit: nat): (page: seq<nat>)
    ensures |page| <= limit
    decreases limit
  {
    if ids == {} || limit == 0 then [] else [Largest(ids)] + Newest(ids - {Largest(ids)}, limit - 1)
  }

  /** One page: what passes the filter and the cursor, cut to the limit. */
  ghost function Recent(rows: Rows, f: Filter, before: Option<nat>, limit: nat): seq<nat> {
    Newest(Eligible(rows, f, before), limit)
  }

  // ----- the log, as its transactions change it -----

  class Log {
    var rows: Rows
    var next: nat

    ghost predicate Valid()
      reads this
    {
      forall id :: id in rows ==> id < next && (rows[id].source.Console? <==> rows[id].adminId.Some?)
    }

    constructor ()
      ensures Valid() && rows == map[]
    {
      rows, next := map[], 1;
    }

    /** By an admin from the console, or from the command line by none. */
    method Record(kind: string, adminId: Option<nat>, userId: Option<nat>, targetAdminId: Option<nat>,
                  requestId: Option<string>, detail: Option<map<string, string>>) returns (id: nat)
      requires Valid()
      modifies this
      ensures Valid() && GrowsInOrder(old(rows), rows)
      ensures id !in old(rows) && rows.Keys == old(rows).Keys + {id}
      ensures rows[id] == Action(if adminId.Some? then Console else Cli, adminId, kind, userId, targetAdminId, requestId,
                                 if detail.Some? then detail.value else map[])
    {
      id := next;
      rows := rows[id := Action(if adminId.Some? then Console else Cli, adminId, kind, userId, targetAdminId, requestId,
                                if detail.Some? then detail.value else map[])];
      next := next + 1;
    }
  }

  // ----- one page -----

  predicate Descends(ids: seq<nat>) {
    forall i, j :: 0 <= i < j < |ids| ==> ids[i] > ids[j]
  }

  /** A page is in order, holds only what it was asked for, and leaves out only what is older than all of it, and
      that only when it is full. */
  predicate IsPage(ids: set<nat>, page: seq<nat>, limit: nat) {
    && Descends(page)
    && (forall id :: id in page ==> id in ids)
    && (forall id, k :: id in ids && id !in page && 0 <= k < |page| ==> id < page[k])
    && (|page| < limit ==> forall id :: id in ids ==> id in page)
  }

  /** What a page is asked for: rows about the user, by the admin, older than the cursor, whichever are given. */
  predicate IsAskedFor(rows: Rows, f: Filter, before: Option<nat>, id: nat) {
    && id in rows
    && (f.userId.Some? ==> rows[id].userId == f.userId) && (f.adminId.Some? ==> rows[id].adminId == f.adminId)
    && (before.Some? ==> id < before.value)
  }

  /** A page holds, newest first, rows that were asked for and no more than the limit; and leaves one out only when it
      is full and the row is older than all of it. */
  lemma {:induction false} PageHolds(rows: Rows, f: Filter, before: Option<nat>, limit: nat)
    ensures var page := Recent(rows, f, before, limit);
            && |page| <= limit && Descends(page)
            && (forall id :: id in page ==> IsAskedFor(rows, f, before, id))
            && (forall id :: IsAskedFor(rows, f, before, id) && id !in page ==> |page| == limit && forall k :: 0 <= k < |page| ==> id < page[k])
  {
    PageIsNewest(Eligible(rows, f, before), limit);
    forall id ensures IsAskedFor(rows, f, before, id) <==> id in Eligible(rows, f, before) {
    }
  }

  lemma {:induction false} PageWithLargest(ids: set<nat>, max: nat, more: seq<nat>, limit: nat)
    requires IsLargest(max, ids) && IsPage(ids - {max}, more, limit)
    ensures IsPage(ids, [max] + more, limit + 1)
  {
    var page := [max] + more;
    forall j | 0 < j < |page| ensures page[j] < max {
      assert page[j] == more[j - 1] && more[j - 1] in ids - {max};
    }
    forall i, j | 0 < i < j < |page| ensures page[i] > page[j] {
      assert page[i] == more[i - 1] && page[j] == more[j - 1];
    }
    forall id, k | id in ids && id !in page && 0 <= k < |page| ensures id < page[k] {
      assert id in ids - {max} && id !in more;
      assert k > 0 ==> page[k] == more[k - 1];
    }
  }

  lemma {:induction false} PageIsNewest(ids: set<nat>, limit: nat)
    ensures IsPage(ids, Newest(ids, limit), limit)
    decreases limit
  {
    if ids != {} && limit > 0 {
      PageIsNewest(ids - {Largest(ids)}, limit - 1);
      PageWithLargest(ids, Largest(ids), Newest(ids - {Largest(ids)}, limit - 1), limit - 1);
    }
  }

  /** Everything, newest first. */
  ghost function Listing(ids: set<nat>): seq<nat> {
    Newest(ids, |ids|)
  }

  lemma {:induction false} ListingStarts(ids: set<nat>)
    requires ids != {}
    ensures Listing(ids) == [Largest(ids)] + Listing(ids - {Largest(ids)})
  {
    assert |ids - {Largest(ids)}| == |ids| - 1;
  }

  function Older(ids: set<nat>, than: nat): set<nat> {
    set id | id in ids && id < than
  }

  lemma {:induction false} OlderThanNone(ids: set<nat>, max: nat, last: nat)
    requires IsLargest(max, ids) && last in ids
    ensures Older(ids, last) == Older(ids - {max}, last) && Older(ids, max) == ids - {max}
  {
  }

  lemma {:induction false} OneFirst(max: nat, more: seq<nat>, tail: seq<nat>)
    ensures [max] + (more + tail) == [max] + more + tail
  {
  }

  /** A full page, then all that is older than its last, is everything; a page not full is everything itself. */
  lemma {:induction false} PageThenOlder(ids: set<nat>, limit: nat)
    requires limit > 0
    ensures var page := Newest(ids, limit);
            Listing(ids) == if |page| == limit then page + Listing(Older(ids, page[limit - 1])) else page
    decreases limit
  {
    if ids != {} {
      var max := Largest(ids);
      var rest := ids - {max};
      ListingStarts(ids);
      if limit == 1 {
        OlderThanNone(ids, max, max);
        assert Newest(ids, 1) == [max];
      } else {
        var more := Newest(rest, limit - 1);
        assert Newest(ids, limit) == [max] + more;
        PageThenOlder(rest, limit - 1);
        if |more| == limit - 1 {
          var last := more[limit - 2];
          PageIsNewest(rest, limit - 1);
          assert last in more;
          OlderThanNone(ids, max, last);
          OneFirst(max, more, Listing(Older(rest, last)));
        }
      }
    }
  }

  // ----- the walk, page after page -----

  /** The client's walk: each page asks for what is older than the last id of the page before, of the log as it is
      by then; it ends at a page that is not full, which says there is no next. */
  ghost function Walk(logs: seq<Rows>, f: Filter, before: Option<nat>, limit: nat): seq<nat> {
    if logs == [] then []
    else
      var page := Recent(logs[0], f, before, limit);
      if limit > 0 && |page| == limit then page + Walk(logs[1..], f, Some(page[limit - 1]), limit) else page
  }

  ghost predicate Ends(logs: seq<Rows>, f: Filter, before: Option<nat>, limit: nat) {
    logs != [] &&
    var page := Recent(logs[0], f, before, limit);
    limit > 0 && |page| == limit ==> Ends(logs[1..], f, Some(page[limit - 1]), limit)
  }

  /** Every row the walk's first page may hold is numbered below the bound. */
  ghost predicate StartsBelow(rows: Rows, f: Filter, before: Option<nat>, bound: nat) {
    forall id :: id in Eligible(rows, f, before) ==> id < bound
  }

  /** A walk ends, however much is written meanwhile, from its first page or from any cursor: each page's last row is
      numbered below the last one's, so it takes no more pages than there were numbers to begin with. */
  lemma {:induction false} WalkEnds(logs: seq<Rows>, f: Filter, before: Option<nat>, limit: nat, bound: nat)
    requires |logs| > bound && StartsBelow(logs[0], f, before, bound)
    ensures Ends(logs, f, before, limit)
    decreases bound
  {
    var page := Recent(logs[0], f, before, limit);
    if limit > 0 && |page| == limit {
      PageIsNewest(Eligible(logs[0], f, before), limit);
      assert page[limit - 1] in Eligible(logs[0], f, before);
      WalkEnds(logs[1..], f, Some(page[limit - 1]), limit, page[limit - 1]);
    }
  }

  predicate KeepsGrowingInOrder(logs: seq<Rows>) {
    forall i :: 0 < i < |logs| ==> GrowsInOrder(logs[i - 1], logs[i])
  }

  lemma {:induction false} GrowsOnInOrder(logs: seq<Rows>)
    requires KeepsGrowingInOrder(logs) && |logs| > 1
    ensures KeepsGrowingInOrder(logs[1..]) && GrowsInOrder(logs[0], logs[1])
  {
    forall i | 0 < i < |logs| - 1 ensures GrowsInOrder(logs[1..][i - 1], logs[1..][i]) {
      assert GrowsInOrder(logs[i], logs[i + 1]);
    }
  }

  lemma {:induction false} NothingSlipsIn(rows: Rows, later: Rows, f: Filter, before: Option<nat>, last: nat)
    requires GrowsInOrder(rows, later) && last in Eligible(rows, f, before)
    ensures Eligible(later, f, Some(last)) == Older(Eligible(rows, f, before), last)
  {
  }

  /** Rows written while it is walked, in order as the table numbers them, are after the first page's; the walk is
      the log as it was, newest first, every row of it once. */
  lemma {:induction false} WalkIsTheLogAsItWas(logs: seq<Rows>, f: Filter, before: Option<nat>, limit: nat)
    requires limit > 0 && Ends(logs, f, before, limit)
    requires KeepsGrowingInOrder(logs)
    ensures Walk(logs, f, before, limit) == Listing(Eligible(logs[0], f, before))
  {
    var ids := Eligible(logs[0], f, before);
    var page := Recent(logs[0], f, before, limit);
    PageThenOlder(ids, limit);
    PageIsNewest(ids, limit);
    if |page| == limit {
      var last := page[limit - 1];
      assert last in ids;
      GrowsOnInOrder(logs);
      WalkIsTheLogAsItWas(logs[1..], f, Some(last), limit);
      NothingSlipsIn(logs[0], logs[1], f, before, last);
    }
  }

  lemma {:induction false} OlderThan(page: seq<nat>, more: seq<nat>, last: nat)
    requires Descends(page) && Descends(more) && page != [] && page[|page| - 1] == last
    requires forall id :: id in more ==> id < last
    ensures Descends(page + more)
  {
    forall i, j | 0 <= i < j < |page + more| ensures (page + more)[i] > (page + more)[j] {
      if j >= |page| {
        assert more[j - |page|] in more;
        assert i < |page| ==> page[i] >= last;
      }
    }
  }

  predicate KeepsGrowing(logs: seq<Rows>) {
    forall i :: 0 < i < |logs| ==> Grows(logs[i - 1], logs[i])
  }

  lemma {:induction false} GrowsOn(logs: seq<Rows>)
    requires KeepsGrowing(logs) && |logs| > 1
    ensures KeepsGrowing(logs[1..]) && Grows(logs[0], logs[1]) && logs[1..][|logs| - 2] == logs[|logs| - 1]
  {
    forall i | 0 < i < |logs| - 1 ensures Grows(logs[1..][i - 1], logs[1..][i]) {
      assert Grows(logs[i], logs[i + 1]);
    }
  }

  /** And if transactions commit out of the order they were numbered in, still no row is seen twice, none there at
      the start is missed, and none is seen that is not there at the end. */
  lemma {:induction false} WalkMissesNothing(logs: seq<Rows>, f: Filter, before: Option<nat>, limit: nat)
    requires limit > 0 && Ends(logs, f, before, limit)
    requires KeepsGrowing(logs)
    ensures var seen := Walk(logs, f, before, limit);
            && Descends(seen)
            && (forall id :: id in Eligible(logs[0], f, before) ==> id in seen)
            && (forall id :: id in seen ==> id in Eligible(logs[|logs| - 1], f, before))
  {
    var ids, page := Eligible(logs[0], f, before), Recent(logs[0], f, before, limit);
    PageIsNewest(ids, limit);
    GrownAtTheEnd(logs, 0);
    StillEligible(logs[0], logs[|logs| - 1], f, before);
    if |page| == limit {
      var last := page[limit - 1];
      assert last in ids;
      GrowsOn(logs);
      WalkMissesNothing(logs[1..], f, Some(last), limit);
      PageThenWalk(logs[0], logs[1], logs[|logs| - 1], f, before, page, Walk(logs[1..], f, Some(last), limit));
    }
  }

  lemma {:induction false} StillEligible(rows: Rows, later: Rows, f: Filter, before: Option<nat>)
    requires Grows(rows, later)
    ensures Eligible(rows, f, before) <= Eligible(later, f, before)
  {
  }

  lemma {:induction false} Onward(ids: set<nat>, atEnd: set<nat>, page: seq<nat>, more: seq<nat>, last: nat)
    requires page != [] && page[|page| - 1] == last && IsPage(ids, page, |page|) && ids <= atEnd
    requires Descends(more) && forall id :: id in more ==> id < last && id in atEnd
    requires forall id :: id in Older(ids, last) ==> id in more
    ensures Descends(page + more)
    ensures forall id :: id in ids ==> id in page + more
    ensures forall id :: id in page + more ==> id in atEnd
  {
    OlderThan(page, more, last);
  }

  /** A page of the log as it was, and what a walk of the log as it came to be goes on to see. */
  lemma {:induction false} PageThenWalk(rows: Rows, next: Rows, end: Rows, f: Filter, before: Option<nat>, page: seq<nat>, more: seq<nat>)
    requires Grows(rows, next) && Grows(rows, end)
    requires page != [] && IsPage(Eligible(rows, f, before), page, |page|)
    requires var last := page[|page| - 1];
             && Descends(more)
             && (forall id :: id in Eligible(next, f, Some(last)) ==> id in more)
             && (forall id :: id in more ==> id in Eligible(end, f, Some(last)))
    ensures Descends(page + more)
    ensures forall id :: id in Eligible(rows, f, before) ==> id in page + more
    ensures forall id :: id in page + more ==> id in Eligible(end, f, before)
  {
    var last := page[|page| - 1];
    assert last in Eligible(rows, f, before);
    StillEligible(rows, next, f, Some(last));
    StillEligible(rows, end, f, before);
    Onward(Eligible(rows, f, before), Eligible(end, f, before), page, more, last);
  }

  lemma {:induction false} GrownAtTheEnd(logs: seq<Rows>, i: nat)
    requires i < |logs| && KeepsGrowing(logs)
    ensures Grows(logs[i], logs[|logs| - 1])
    decreases |logs| - i
  {
    if i < |logs| - 1 {
      assert Grows(logs[i], logs[i + 1]);
      GrownAtTheEnd(logs, i + 1);
    }
  }
}

/** Which 13F filings count for a filer's quarter: the views effective_filing_by_cik and effective_filing
    (alembic/versions/20260930_0006_effective_filing.py), over a table as a set of filings. */
module EffectiveFiling {
  import opened Wrappers

  datatype Amendment = Restatement | NewHoldings

  datatype ParseStatus = Pending | Ok | Suspect | Failed

  /** A filing; accession numbers have one width, so their text order is the order of the numbers. */
  datatype Filing = Filing(
    accession: nat,
    filer: Option<nat>,
    cik: nat,
    period: int,
    filedAt: int,
    form: string,
    amendment: Option<Amendment>,
    parsed: ParseStatus)

  function UpperChar(c: char): char {
    if 'a' <= c <= 'z' then (c as int - 32) as char else c
  }

  function Upper(s: string): string {
    seq(|s|, i requires 0 <= i < |s| => UpperChar(s[i]))
  }

  predicate AccessionsUnique(table: set<Filing>) {
    forall f, g :: f in table && g in table && f.accession == g.accession ==> f == g
  }

  // ----- effective_filing_by_cik -----

  predicate Candidate(f: Filing) {
    && f.filer.Some?
    && f.parsed in {Ok, Suspect}
    && (Upper(f.form) == "13F-HR" || (Upper(f.form) == "13F-HR/A" && f.amendment.Some?))
  }

  predicate ReplacesPeriod(f: Filing) {
    Upper(f.form) == "13F-HR" || f.amendment == Some(Restatement)
  }

  predicate SameKey(f: Filing, g: Filing) {
    f.filer == g.filer && f.cik == g.cik && f.period == g.period
  }

  predicate Later(f: Filing, g: Filing) {
    f.filedAt > g.filedAt || (f.filedAt == g.filedAt && f.accession > g.accession)
  }

  /** The row DISTINCT ON keeps for c's key: the last filed of the candidates that replace the period. */
  predicate IsBase(table: set<Filing>, c: Filing, b: Filing) {
    && b in table && Candidate(b) && ReplacesPeriod(b) && SameKey(b, c)
    && forall g :: g in table && Candidate(g) && ReplacesPeriod(g) && SameKey(g, c) && g != b ==> Later(b, g)
  }

  /** A row of the view: a candidate that has no base to join, is the base, or adds to it. */
  predicate InView(table: set<Filing>, c: Filing) {
    && c in table && Candidate(c)
    && ((forall b :: b in table ==> !IsBase(table, c, b))
        || exists b :: b in table && IsBase(table, c, b)
             && (c.accession == b.accession || (!ReplacesPeriod(c) && Later(c, b))))
  }

  // ----- what the view amounts to -----

  /** A later filing of the whole period. */
  predicate Superseded(table: set<Filing>, c: Filing) {
    exists g :: g in table && Candidate(g) && ReplacesPeriod(g) && SameKey(g, c) && Later(g, c)
  }

  lemma {:induction false} LaterIsAnOrder(f: Filing, g: Filing, h: Filing)
    ensures f.accession != g.accession ==> Later(f, g) || Later(g, f)
    ensures !(Later(f, g) && Later(g, f))
    ensures Later(f, g) && Later(g, h) ==> Later(f, h)
  {
  }

  /** The replacing candidates of c's key. */
  function Replacing(table: set<Filing>, c: Filing): set<Filing> {
    set g | g in table && Candidate(g) && ReplacesPeriod(g) && SameKey(g, c)
  }

  lemma {:induction false} LatestExists(s: set<Filing>) returns (b: Filing)
    requires s != {} && AccessionsUnique(s)
    ensures b in s && forall g :: g in s && g != b ==> Later(b, g)
  {
    var f :| f in s;
    var rest := s - {f};
    assert s == rest + {f};
    if rest == {} {
      b := f;
    } else {
      var r := LatestExists(rest);
      b := if Later(f, r) then f else r;
      forall g | g in s && g != b ensures Later(b, g) {
        LaterIsAnOrder(f, r, g);
        LaterIsAnOrder(b, r, g);
      }
    }
  }

  /** A candidate counts exactly when no whole-period filing of its filer, CIK and quarter was filed after it:
      one rule for originals, restatements and additions, with or without a base. */
  lemma {:induction false} CountsIffNotSuperseded(table: set<Filing>, c: Filing)
    requires AccessionsUnique(table) && c in table && Candidate(c)
    ensures InView(table, c) <==> !Superseded(table, c)
  {
    var replacing := Replacing(table, c);
    if replacing == {} {
      assert forall b :: b in table ==> !IsBase(table, c, b) by {
        forall b | b in table ensures !IsBase(table, c, b) {
          assert b !in replacing;
        }
      }
      assert !Superseded(table, c) by {
        forall g | g in table ensures !(Candidate(g) && ReplacesPeriod(g) && SameKey(g, c) && Later(g, c)) {
          assert g !in replacing;
        }
      }
    } else {
      var b := LatestExists(replacing);
      assert IsBase(table, c, b);
      forall d | d in table && IsBase(table, c, d) ensures d == b {
        assert d in replacing;
        LaterIsAnOrder(b, d, c);
      }
      forall g | g in replacing && Later(g, c) ensures Later(b, c) {
        LaterIsAnOrder(b, g, c);
      }
      assert Superseded(table, c) <==> Later(b, c);
      LaterIsAnOrder(b, c, c);
      if ReplacesPeriod(c) {
        assert c in replacing;
      }
    }
  }

  // ----- by form, amendment and parse -----

  /** The form is of that name, in whatever case. */
  predicate IsNamed(form: string, name: string) {
    |form| == |name| && forall k :: 0 <= k < |name| ==>
      form[k] == name[k] || ('A' <= name[k] <= 'Z' && form[k] as int == name[k] as int + 32)
  }

  lemma {:induction false} UpperIsNamed(form: string, name: string)
    requires forall k :: 0 <= k < |name| ==> !('a' <= name[k] <= 'z')
    ensures Upper(form) == name <==> IsNamed(form, name)
  {
    if IsNamed(form, name) {
      forall k | 0 <= k < |name| ensures UpperChar(form[k]) == name[k] {
        CharIsNamed(form[k], name[k]);
      }
    }
    if Upper(form) == name {
      forall k | 0 <= k < |name| ensures form[k] == name[k] || ('A' <= name[k] <= 'Z' && form[k] as int == name[k] as int + 32) {
        assert Upper(form)[k] == name[k];
        CharIsNamed(form[k], name[k]);
      }
    }
  }

  lemma {:induction false} CharIsNamed(c: char, name: char)
    requires !('a' <= name <= 'z')
    ensures UpperChar(c) == name <==> c == name || ('A' <= name <= 'Z' && c as int == name as int + 32)
  {
    if 'a' <= c <= 'z' {
      assert (c as int - 32) as char as int == c as int - 32;
    }
  }

  /** It was read, in full or with doubts, and is some filer's. */
  predicate WasRead(f: Filing) {
    f.filer.Some? && (f.parsed == Ok || f.parsed == Suspect)
  }

  /** The whole of a portfolio: an original, or an amendment that restates it. */
  predicate TellsWhole(f: Filing) {
    WasRead(f) && (IsNamed(f.form, "13F-HR") || (IsNamed(f.form, "13F-HR/A") && f.amendment == Some(Restatement)))
  }

  /** An amendment that adds to one. */
  predicate AddsTo(f: Filing) {
    WasRead(f) && IsNamed(f.form, "13F-HR/A") && f.amendment == Some(NewHoldings)
  }

  predicate FiledAfter(g: Filing, f: Filing) {
    g.filedAt > f.filedAt || (g.filedAt == f.filedAt && g.accession > f.accession)
  }

  /** The whole was told again, of the same filer, CIK and quarter. */
  predicate ToldAgain(table: set<Filing>, f: Filing) {
    exists g :: g in table && TellsWhole(g) && g.filer == f.filer && g.cik == f.cik && g.period == f.period && FiledAfter(g, f)
  }

  lemma {:induction false} CandidateByForm(f: Filing)
    ensures Candidate(f) <==> TellsWhole(f) || AddsTo(f)
    ensures Candidate(f) && ReplacesPeriod(f) <==> TellsWhole(f)
  {
    UpperIsNamed(f.form, "13F-HR");
    UpperIsNamed(f.form, "13F-HR/A");
    assert f.amendment.Some? ==> f.amendment.value == Restatement || f.amendment.value == NewHoldings;
  }

  /** What counts: an original, a restatement or an addition, read, unless the whole was told again after it. So no
      addition takes another filing away, and a filing of no filer, not read, of another form, or an amendment of no
      stated kind never counts. */
  lemma {:induction false} CountsByForm(table: set<Filing>, f: Filing)
    requires AccessionsUnique(table)
    ensures InView(table, f) <==> f in table && (TellsWhole(f) || AddsTo(f)) && !ToldAgain(table, f)
  {
    CandidateByForm(f);
    if f in table && Candidate(f) {
      CountsIffNotSuperseded(table, f);
      forall g | g in table ensures Candidate(g) && ReplacesPeriod(g) <==> TellsWhole(g) {
        CandidateByForm(g);
      }
      assert Superseded(table, f) <==> ToldAgain(table, f);
    }
  }

  /** A quarter never counts the whole portfolio of one CIK twice. */
  lemma {:induction false} OneWholePeriodFiling(table: set<Filing>, f: Filing, g: Filing)
    requires AccessionsUnique(table)
    requires InView(table, f) && InView(table, g) && SameKey(f, g) && TellsWhole(f) && TellsWhole(g)
    ensures f == g
  {
    CountsByForm(table, f);
    CountsByForm(table, g);
    LaterIsAnOrder(f, g, f);
  }

  // ----- the same, one filing at a time -----

  /** All that has to be remembered of a key to know what counts: the latest whole-period filing, and the
      additions filed since. */
  datatype Kept = Kept(base: Option<Filing>, additions: set<Filing>)

  function Absorb(key: Filing, kept: Kept, f: Filing): Kept {
    if !Candidate(f) || !SameKey(f, key) then kept
    else if ReplacesPeriod(f) then
      if kept.base.None? || Later(f, kept.base.value) then Kept(Some(f), set a | a in kept.additions && Later(a, f))
      else kept
    else if kept.base.None? || Later(f, kept.base.value) then kept.(additions := kept.additions + {f})
    else kept
  }

  function AbsorbAll(key: Filing, arrived: seq<Filing>): Kept {
    if arrived == [] then Kept(None, {})
    else Absorb(key, AbsorbAll(key, arrived[..|arrived| - 1]), arrived[|arrived| - 1])
  }

  function Counting(kept: Kept): set<Filing> {
    (if kept.base.Some? then {kept.base.value} else {}) + kept.additions
  }

  function Arrived(arrived: seq<Filing>): set<Filing> {
    set f | f in arrived
  }

  /** What the maintainer keeps, said of the table it has been fed. */
  ghost predicate Maintains(key: Filing, kept: Kept, table: set<Filing>) {
    && (kept.base.None? ==> Replacing(table, key) == {})
    && (kept.base.Some? ==> IsBase(table, key, kept.base.value))
    && (forall a :: a in kept.additions <==>
          a in table && Candidate(a) && SameKey(a, key) && !ReplacesPeriod(a)
          && (kept.base.Some? ==> Later(a, kept.base.value)))
  }

  lemma {:induction false} AbsorbMaintains(key: Filing, kept: Kept, table: set<Filing>, f: Filing)
    requires Maintains(key, kept, table) && AccessionsUnique(table + {f})
    ensures Maintains(key, Absorb(key, kept, f), table + {f})
  {
    var after, grown := Absorb(key, kept, f), table + {f};
    if Candidate(f) && SameKey(f, key) && ReplacesPeriod(f) {
      if kept.base.Some? {
        var b := kept.base.value;
        LaterIsAnOrder(f, b, f);
        if Later(f, b) {
          forall g | g in grown && Candidate(g) && ReplacesPeriod(g) && SameKey(g, key) && g != f ensures Later(f, g) {
            if g != b { LaterIsAnOrder(f, b, g); }
          }
          forall a | a in table && Later(a, f) ensures Later(a, b) {
            LaterIsAnOrder(a, f, b);
          }
        }
      } else {
        assert forall g :: g in table && Candidate(g) && ReplacesPeriod(g) && SameKey(g, key) ==> g in Replacing(table, key);
      }
    } else {
      assert Replacing(grown, key) == Replacing(table, key);
    }
  }

  lemma {:induction false} AbsorbAllMaintains(key: Filing, arrived: seq<Filing>)
    requires AccessionsUnique(Arrived(arrived))
    ensures Maintains(key, AbsorbAll(key, arrived), Arrived(arrived))
  {
    if arrived != [] {
      var init, last := arrived[..|arrived| - 1], arrived[|arrived| - 1];
      assert arrived == init + [last];
      assert Arrived(arrived) == Arrived(init) + {last};
      AbsorbAllMaintains(key, init);
      AbsorbMaintains(key, AbsorbAll(key, init), Arrived(init), last);
    }
  }

  /** Fed the filings in any order, with any repeats, the maintainer counts exactly what the view does. */
  lemma {:induction false} MaintainerAgreesWithView(key: Filing, arrived: seq<Filing>, f: Filing)
    requires AccessionsUnique(Arrived(arrived)) && SameKey(f, key)
    ensures f in Counting(AbsorbAll(key, arrived)) <==> InView(Arrived(arrived), f)
  {
    var table, kept := Arrived(arrived), AbsorbAll(key, arrived);
    AbsorbAllMaintains(key, arrived);
    if f in table && Candidate(f) {
      CountsIffNotSuperseded(table, f);
      if kept.base.Some? {
        var b := kept.base.value;
        LaterIsAnOrder(b, f, f);
        forall g | g in table && Candidate(g) && ReplacesPeriod(g) && SameKey(g, f) && Later(g, f) ensures Later(b, f) {
          if g != b { LaterIsAnOrder(b, g, f); }
        }
      } else {
        assert forall g :: g in table && Candidate(g) && ReplacesPeriod(g) && SameKey(g, f) ==> g in Replacing(table, key);
      }
    }
  }

  // ----- effective_filing -----

  datatype Overlap = Successor | Sum

  /** filer.overlap, and filer_cik.priority by filer and CIK. */
  datatype Curation = Curation(overlap: map<nat, Overlap>, priority: map<(nat, nat), int>)

  function PriorityOf(cur: Curation, filer: nat, cik: nat): int {
    if (filer, cik) in cur.priority then cur.priority[(filer, cik)] else -1
  }

  /** ORDER BY coalesce(priority, -1) DESC, cik DESC: whether the first CIK sorts before the second. */
  predicate Outranks(cur: Curation, filer: nat, cik: nat, other: nat) {
    || PriorityOf(cur, filer, cik) > PriorityOf(cur, filer, other)
    || (PriorityOf(cur, filer, cik) == PriorityOf(cur, filer, other) && cik > other)
  }

  /** The CIKs with a row of the view for the filer's quarter. */
  function CiksWith(table: set<Filing>, filer: nat, period: int): set<nat> {
    set f | f in table && InView(table, f) && f.filer == Some(filer) && f.period == period :: f.cik
  }

  function DenseRank(cur: Curation, table: set<Filing>, filer: nat, period: int, cik: nat): nat {
    1 + |set other | other in CiksWith(table, filer, period) && Outranks(cur, filer, other, cik)|
  }

  predicate Effective(cur: Curation, table: set<Filing>, f: Filing) {
    && InView(table, f)
    && f.filer.value in cur.overlap
    && (cur.overlap[f.filer.value] == Sum || DenseRank(cur, table, f.filer.value, f.period, f.cik) == 1)
  }

  function EffectiveCiks(cur: Curation, table: set<Filing>, filer: nat, period: int): set<nat> {
    set f | f in table && Effective(cur, table, f) && f.filer == Some(filer) && f.period == period :: f.cik
  }

  lemma {:induction false} TopCik(cur: Curation, filer: nat, ciks: set<nat>) returns (top: nat)
    requires ciks != {}
    ensures top in ciks && forall c :: c in ciks && c != top ==> Outranks(cur, filer, top, c)
  {
    var c :| c in ciks;
    var rest := ciks - {c};
    assert ciks == rest + {c};
    if rest == {} {
      top := c;
    } else {
      var r := TopCik(cur, filer, rest);
      top := if Outranks(cur, filer, c, r) then c else r;
      forall x | x in ciks && x != top ensures Outranks(cur, filer, top, x) {
        assert x == c || x == r || Outranks(cur, filer, r, x);
      }
    }
  }

  /** Under successor exactly one CIK counts for a quarter with any counting filing; under sum every one does. */
  lemma {:induction false} OneCikUnderSuccessor(cur: Curation, table: set<Filing>, filer: nat, period: int)
    requires filer in cur.overlap
    ensures cur.overlap[filer] == Successor && CiksWith(table, filer, period) != {} ==>
              |EffectiveCiks(cur, table, filer, period)| == 1
    ensures cur.overlap[filer] == Sum ==> EffectiveCiks(cur, table, filer, period) == CiksWith(table, filer, period)
  {
    var ciks, effective := CiksWith(table, filer, period), EffectiveCiks(cur, table, filer, period);
    if cur.overlap[filer] == Successor && ciks != {} {
      var top := TopCik(cur, filer, ciks);
      forall cik | cik in ciks ensures DenseRank(cur, table, filer, period, cik) == 1 <==> cik == top {
        var above := set other | other in ciks && Outranks(cur, filer, other, cik);
        if cik == top {
          assert above == {} by {
            forall other | other in ciks ensures !Outranks(cur, filer, other, cik) {
              assert other != top ==> Outranks(cur, filer, top, other);
            }
          }
        } else {
          assert top in above;
        }
      }
      assert effective == {top} by {
        forall cik ensures cik in effective <==> cik == top {
          if cik in effective {
            assert cik in ciks;
          }
          if cik == top {
            var f :| f in table && InView(table, f) && f.filer == Some(filer) && f.period == period && f.cik == top;
            assert Effective(cur, table, f);
          }
        }
      }
    }
    if cur.overlap[filer] == Sum {
      forall f | f in table && InView(table, f) && f.filer == Some(filer) ensures Effective(cur, table, f) {}
    }
  }

  /** The CIK comes first for the filer's quarter: of those with a counting filing its priority is highest, a CIK with
      none having -1, and of equals it is the highest number. */
  predicate ComesFirst(cur: Curation, table: set<Filing>, filer: nat, period: int, cik: nat) {
    && cik in CiksWith(table, filer, period)
    && forall other :: other in CiksWith(table, filer, period) && other != cik ==>
         var mine := if (filer, cik) in cur.priority then cur.priority[(filer, cik)] else -1;
         var its := if (filer, other) in cur.priority then cur.priority[(filer, other)] else -1;
         mine > its || (mine == its && cik > other)
  }

  /** A filing is effective when it counts and its filer is curated: under sum that is all, and under successor its CIK
      comes first. */
  lemma {:induction false} EffectiveIff(cur: Curation, table: set<Filing>, f: Filing)
    requires f.filer.Some?
    ensures Effective(cur, table, f)
            <==> InView(table, f) && f.filer.value in cur.overlap
                 && (cur.overlap[f.filer.value] == Sum || ComesFirst(cur, table, f.filer.value, f.period, f.cik))
  {
    if InView(table, f) {
      var filer, ciks := f.filer.value, CiksWith(table, f.filer.value, f.period);
      assert f.cik in ciks;
      var above := set other | other in ciks && Outranks(cur, filer, other, f.cik);
      if ComesFirst(cur, table, filer, f.period, f.cik) {
        assert above == {};
      } else {
        var other :| other in ciks && other != f.cik && Outranks(cur, filer, other, f.cik);
        assert other in above;
      }
    }
  }

  /** No quarter of a successor filer adds up two whole portfolios, whichever of its CIKs filed them. */
  lemma {:induction false} NeverCountedTwice(cur: Curation, table: set<Filing>, f: Filing, g: Filing)
    requires AccessionsUnique(table)
    requires Effective(cur, table, f) && Effective(cur, table, g) && f.filer == g.filer && f.period == g.period
    requires cur.overlap[f.filer.value] == Successor && TellsWhole(f) && TellsWhole(g)
    ensures f == g
  {
    EffectiveIff(cur, table, f);
    EffectiveIff(cur, table, g);
    OneWholePeriodFiling(table, f, g);
  }
}

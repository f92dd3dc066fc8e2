// Selection of coverage signals: nearest first, dropping signals redundant with one already chosen,
// up to an exact number of bits.
module Selector {
  import opened Basics

  datatype Row = Row(name: string, width: nat, regDepth: nat, depth: nat)

  // A chosen signal and how many of its bits are used.
  datatype Pick = Pick(name: string, width: nat, partial: bool)
  // The sampled signals, and the normalized mutual information of two of them.
  datatype Samples = Samples(columns: seq<string>, nmi: (string, string) -> real)

  const REDUNDANT: real := 0.7

  // Python's `needle in hay`.
  predicate Contains(hay: string, needle: string) {
    exists i | 0 <= i <= |hay| - |needle| :: OccursAt(hay, needle, i)
  }

  predicate OccursAt(hay: string, needle: string, i: nat) {
    i + |needle| <= |hay| && hay[i..i + |needle|] == needle
  }

  // ---- sort_by_distance: a stable sort on (reg_depth, depth) ----

  predicate Nearer(a: Row, b: Row) { a.regDepth < b.regDepth || (a.regDepth == b.regDepth && a.depth <= b.depth) }

  predicate Ascending(rows: seq<Row>) { forall i, j | 0 <= i < j < |rows| :: Nearer(rows[i], rows[j]) }

  function Insert(r: Row, rows: seq<Row>): seq<Row> {
    if rows == [] || Nearer(r, rows[0]) then [r] + rows else [rows[0]] + Insert(r, rows[1..])
  }

  function SortByDistance(rows: seq<Row>): seq<Row> {
    if rows == [] then [] else Insert(rows[0], SortByDistance(rows[1..]))
  }

  lemma {:induction false} InsertSorts(r: Row, rows: seq<Row>)
    requires Ascending(rows)
    ensures Ascending(Insert(r, rows)) && multiset(Insert(r, rows)) == multiset(rows) + multiset{r}
  {
    if rows != [] && !Nearer(r, rows[0]) {
      var t := Insert(r, rows[1..]);
      InsertSorts(r, rows[1..]);
      assert rows == [rows[0]] + rows[1..];
      forall j | 0 <= j < |t|
        ensures Nearer(rows[0], t[j])
      {
        assert t[j] in multiset(t);
        assert t[j] == r || t[j] in rows[1..];
      }
    }
  }

  lemma {:induction false} SortSorts(rows: seq<Row>)
    ensures Ascending(SortByDistance(rows)) && multiset(SortByDistance(rows)) == multiset(rows)
  {
    if rows != [] {
      SortSorts(rows[1..]);
      InsertSorts(rows[0], SortByDistance(rows[1..]));
      assert rows == [rows[0]] + rows[1..];
    }
  }

  // ---- What the selection means ----

  predicate Chosen(picks: seq<Pick>, name: string) { exists p | p in picks :: p.name == name }

  // calc_nmi leaves out every column whose name contains the compared name, itself included.
  predicate Comparable(data: Samples, name: string, target: string) {
    name in data.columns && !Contains(name, target)
  }

  predicate Redundant(data: Samples, name: string, target: string) { data.nmi(name, target) > REDUNDANT }

  // No later pick that was compared with an earlier one is redundant with it.
  ghost predicate LowRedundancy(data: Samples, picks: seq<Pick>) {
    forall i, j | 0 <= i < j < |picks| ::
      Contains(picks[j].name, picks[i].name) || !Redundant(data, picks[j].name, picks[i].name)
  }

  function TotalWidth(picks: seq<Pick>): nat {
    if picks == [] then 0 else TotalWidth(picks[..|picks| - 1]) + picks[|picks| - 1].width
  }

  // Names that do not hide one another.
  ghost predicate NoneHidden(rows: seq<Row>, start: string) {
    && (forall r, s | r in rows && s in rows && r.name != s.name :: !Contains(r.name, s.name))
    && (forall r | r in rows && r.name != start :: !Contains(r.name, start))
  }

  predicate Skipped(data: Samples, r: Row, picks: seq<Pick>) {
    Chosen(picks, r.name) || r.name !in data.columns || exists p | p in picks :: Redundant(data, r.name, p.name)
  }

  // The pick of row r with bits to spare, or its low bits if they fill the budget.
  function PickOf(r: Row, sum: nat, covBit: nat): Pick
    requires sum < covBit
  {
    if sum + r.width <= covBit then Pick(r.name, r.width, false) else Pick(r.name, covBit - sum, true)
  }

  // The reference selection: one pass over the rows, nearest first, taking every sampled row that is
  // redundant with no earlier pick, until the budget is filled.
  function Greedy(data: Samples, rows: seq<Row>, picks: seq<Pick>, sum: nat, covBit: nat): seq<Pick>
    decreases |rows|
  {
    if sum >= covBit || rows == [] then picks
    else if Skipped(data, rows[0], picks) then Greedy(data, rows[1..], picks, sum, covBit)
    else
      var p := PickOf(rows[0], sum, covBit);
      Greedy(data, rows[1..], picks + [p], sum + p.width, covBit)
  }

  lemma {:induction false} GreedySkips(data: Samples, rows: seq<Row>, n: nat, picks: seq<Pick>, sum: nat, covBit: nat)
    requires n <= |rows| && sum < covBit
    requires forall i | 0 <= i < n :: Skipped(data, rows[i], picks)
    ensures Greedy(data, rows, picks, sum, covBit) == Greedy(data, rows[n..], picks, sum, covBit)
  {
    hide Skipped;
    if n > 0 {
      GreedySkips(data, rows[1..], n - 1, picks, sum, covBit);
      assert rows[1..][n - 1..] == rows[n..];
    } else {
      assert rows[0..] == rows;
    }
  }

  // ---- select_coverage_sigs_using_mi ----

  // Diverges: some iteration has no candidate left to compare, so nothing changes any more.
  // Missing: the start signal has no row or no samples.
  datatype Outcome = Selected(picks: seq<Pick>) | Diverges(picks: seq<Pick>) | Missing

  function WidthOf(rows: seq<Row>, name: string): Option<nat> {
    if rows == [] then None else if rows[0].name == name then Some(rows[0].width) else WidthOf(rows[1..], name)
  }

  predicate Candidate(r: Row, picks: seq<Pick>, rejected: set<string>) {
    !Chosen(picks, r.name) && r.name !in rejected
  }

  function Filter(data: Samples, rows: seq<Row>, picks: seq<Pick>, rejected: set<string>, target: string): seq<Row> {
    if rows == [] then []
    else (if Candidate(rows[0], picks, rejected) && Comparable(data, rows[0].name, target) then [rows[0]] else [])
         + Filter(data, rows[1..], picks, rejected, target)
  }

  lemma {:induction false} FilterHolds(data: Samples, rows: seq<Row>, picks: seq<Pick>, rejected: set<string>,
                                       target: string)
    ensures forall r :: r in Filter(data, rows, picks, rejected, target)
                   <==> r in rows && Candidate(r, picks, rejected) && Comparable(data, r.name, target)
  {
    hide Candidate, Comparable;
    if rows != [] {
      FilterHolds(data, rows[1..], picks, rejected, target);
    }
  }

  // What the rejections so far say about a row that is neither picked nor rejected: compared with
  // all picks but the last n, it was not redundant.
  ghost predicate PassedAll(data: Samples, rows: seq<Row>, picks: seq<Pick>, rejected: set<string>, n: nat) {
    forall r, i | r in rows && Candidate(r, picks, rejected) && r.name in data.columns && 0 <= i < |picks| - n ::
      Contains(r.name, picks[i].name) || !Redundant(data, r.name, picks[i].name)
  }

  // Every rejected name was redundant with some pick.
  ghost predicate RejectedRight(data: Samples, picks: seq<Pick>, rejected: set<string>) {
    forall n | n in rejected :: exists p | p in picks :: Redundant(data, n, p.name)
  }

  // The progress of the selection against the reference: the rows before n are settled.
  ghost predicate Tracks(data: Samples, rows: seq<Row>, start: Pick, picks: seq<Pick>, rejected: set<string>, n: nat,
                         covBit: nat) {
    && n <= |rows|
    && Greedy(data, rows, [start], start.width, covBit) == Greedy(data, rows[n..], picks, TotalWidth(picks), covBit)
    && Settled(data, rows, n, picks, rejected)
  }

  // The rows before n are picked, rejected or not sampled.
  predicate Settled(data: Samples, rows: seq<Row>, n: nat, picks: seq<Pick>, rejected: set<string>) {
    n <= |rows| && forall i | 0 <= i < n :: !Candidate(rows[i], picks, rejected) || rows[i].name !in data.columns
  }

  predicate AllSkipped(data: Samples, rows: seq<Row>, n: nat, picks: seq<Pick>) {
    n <= |rows| && forall i | 0 <= i < n :: Skipped(data, rows[i], picks)
  }

  lemma TotalWidthMore(picks: seq<Pick>, p: Pick)
    ensures TotalWidth(picks + [p]) == TotalWidth(picks) + p.width
  {
    assert (picks + [p])[..|picks|] == picks;
  }

  // The names still to be decided on.
  function Pool(rows: seq<Row>, picks: seq<Pick>, rejected: set<string>): set<string> {
    set r | r in rows && Candidate(r, picks, rejected) :: r.name
  }

  lemma PoolShrinks(rows: seq<Row>, picks: seq<Pick>, rejected: set<string>, picks': seq<Pick>, rejected': set<string>,
                    r: Row)
    requires r in rows && Candidate(r, picks, rejected) && !Candidate(r, picks', rejected')
    requires rejected <= rejected' && forall p | p in picks :: p in picks'
    ensures |Pool(rows, picks', rejected')| < |Pool(rows, picks, rejected)|
  {
    var a, b := Pool(rows, picks, rejected), Pool(rows, picks', rejected');
    forall n | n in b
      ensures n in a - {r.name}
    {
      var s :| s in rows && Candidate(s, picks', rejected') && s.name == n;
      assert Candidate(s, picks, rejected);
    }
    SubsetSize(b, a - {r.name});
  }

  function Accepted(withNmi: seq<Row>, rejected: set<string>): Option<Row> {
    if withNmi == [] then None
    else if withNmi[0].name !in rejected then Some(withNmi[0]) else Accepted(withNmi[1..], rejected)
  }

  lemma {:induction false} AcceptedAt(withNmi: seq<Row>, rejected: set<string>, index: nat)
    requires index <= |withNmi| && forall i | 0 <= i < index :: withNmi[i].name in rejected
    requires index < |withNmi| ==> withNmi[index].name !in rejected
    ensures Accepted(withNmi, rejected) == if index < |withNmi| then Some(withNmi[index]) else None
  {
    if index > 0 {
      AcceptedAt(withNmi[1..], rejected, index - 1);
    }
  }

  function Rejecting(data: Samples, withNmi: seq<Row>, target: string, rejected: set<string>): set<string> {
    rejected + set r | r in withNmi && Redundant(data, r.name, target) :: r.name
  }

  // What an iteration with comparable candidates makes of the picks and the rejections.
  function NextPicks(withNmi: seq<Row>, picks: seq<Pick>, rejected: set<string>, sum: nat, covBit: nat): seq<Pick>
    requires sum < covBit
  {
    match Accepted(withNmi, rejected)
    case None => picks
    case Some(row) => picks + [PickOf(row, sum, covBit)]
  }

  // The loop of the selection. Every iteration with a comparable candidate rejects or picks one.
  ghost function Loop(data: Samples, rows: seq<Row>, picks: seq<Pick>, rejected: set<string>, sum: nat,
                      covBit: nat): Outcome
    requires picks != [] && sum == TotalWidth(picks)
    decreases |Pool(rows, picks, rejected)|
  {
    var target := picks[|picks| - 1].name;
    var f := Filter(data, rows, picks, rejected, target);
    var rejected' := Rejecting(data, f, target, rejected);
    if sum >= covBit then Selected(picks)
    else if target !in data.columns && SamplesNeeded(data, target) then Missing
    else if f == [] then Diverges(picks)
    else
      var picks' := NextPicks(f, picks, rejected', sum, covBit);
      StepShrinks(data, rows, picks, rejected, covBit);
      Loop(data, rows, picks', rejected', TotalWidth(picks'), covBit)
  }

  lemma StepShrinks(data: Samples, rows: seq<Row>, picks: seq<Pick>, rejected: set<string>, covBit: nat)
    requires picks != [] && TotalWidth(picks) < covBit
    requires Filter(data, rows, picks, rejected, picks[|picks| - 1].name) != []
    ensures var target := picks[|picks| - 1].name;
            var f := Filter(data, rows, picks, rejected, target);
            var rejected' := Rejecting(data, f, target, rejected);
            |Pool(rows, NextPicks(f, picks, rejected', TotalWidth(picks), covBit), rejected')| < |Pool(rows, picks,
                rejected)|
  {
    hide Filter, Pool, Redundant, Comparable, TotalWidth;
    var target := picks[|picks| - 1].name;
    var f := Filter(data, rows, picks, rejected, target);
    var rejected' := Rejecting(data, f, target, rejected);
    var picks' := NextPicks(f, picks, rejected', TotalWidth(picks), covBit);
    AcceptedIsOne(f, rejected');
    FilterHolds(data, rows, picks, rejected, target);
    var r := if Accepted(f, rejected').Some? then Accepted(f, rejected').value else f[0];
    assert r in f;
    if Accepted(f, rejected').Some? {
      assert picks'[|picks|].name == r.name && picks'[|picks|] in picks';
    }
    PoolShrinks(rows, picks, rejected, picks', rejected', r);
  }

  lemma {:induction false} AcceptedIsOne(withNmi: seq<Row>, rejected: set<string>)
    ensures match Accepted(withNmi, rejected)
            case None => forall r | r in withNmi :: r.name in rejected
            case Some(row) => row in withNmi && row.name !in rejected
  {
    if withNmi != [] {
      AcceptedIsOne(withNmi[1..], rejected);
    }
  }

  // The first loop of an iteration: reject what is redundant with the last pick.
  method Reject(data: Samples, withNmi: seq<Row>, target: string, rejected0: set<string>)
    returns (rejected: set<string>)
    ensures rejected == Rejecting(data, withNmi, target, rejected0) && rejected0 <= rejected
  {
    hide Redundant;
    rejected := rejected0;
    for i := 0 to |withNmi|
      invariant rejected == rejected0 + set r | r in withNmi[..i] && Redundant(data, r.name, target) :: r.name
    {
      assert withNmi[..i + 1] == withNmi[..i] + [withNmi[i]];
      if Redundant(data, withNmi[i].name, target) {
        rejected := rejected + {withNmi[i].name};
      }
    }
    assert withNmi[..|withNmi|] == withNmi;
  }

  // The second loop: the first candidate that is not rejected.
  method FirstAccepted(withNmi: seq<Row>, rejected: set<string>) returns (index: nat)
    ensures index <= |withNmi| && forall i | 0 <= i < index :: withNmi[i].name in rejected
    ensures index < |withNmi| ==> withNmi[index].name !in rejected
    ensures Accepted(withNmi, rejected) == if index < |withNmi| then Some(withNmi[index]) else None
  {
    for i := 0 to |withNmi|
      invariant forall k | 0 <= k < i :: withNmi[k].name in rejected
    {
      if withNmi[i].name !in rejected {
        AcceptedAt(withNmi, rejected, i);
        return i;
      }
    }
    AcceptedAt(withNmi, rejected, |withNmi|);
    return |withNmi|;
  }

  lemma AfterReject(data: Samples, rows: seq<Row>, picks: seq<Pick>, rejected: set<string>, rejected': set<string>,
                    target: string)
    requires picks != [] && target == picks[|picks| - 1].name
    requires PassedAll(data, rows, picks, rejected, 1) && RejectedRight(data, picks, rejected)
    requires rejected' == Rejecting(data, Filter(data, rows, picks, rejected, target), target, rejected)
    ensures PassedAll(data, rows, picks, rejected', 0) && RejectedRight(data, picks, rejected')
  {
    hide Redundant, Contains, Filter;
    FilterHolds(data, rows, picks, rejected, target);
    forall r, i | r in rows && Candidate(r, picks, rejected') && r.name in data.columns && 0 <= i < |picks|
      ensures Contains(r.name, picks[i].name) || !Redundant(data, r.name, picks[i].name)
    {
      assert Candidate(r, picks, rejected);
      if i == |picks| - 1 && !Contains(r.name, target) {
        assert r in Filter(data, rows, picks, rejected, target);
      }
    }
    assert picks[|picks| - 1] in picks;
  }

  // A row that was compared with all picks and passed joins without redundancy.
  lemma PickKeeps(data: Samples, rows: seq<Row>, picks: seq<Pick>, rejected: set<string>, r: Row, p: Pick)
    requires LowRedundancy(data, picks) && PassedAll(data, rows, picks, rejected, 0)
    requires RejectedRight(data, picks, rejected)
    requires r in rows && Candidate(r, picks, rejected) && r.name in data.columns && p.name == r.name
    ensures LowRedundancy(data, picks + [p]) && PassedAll(data, rows, picks + [p], rejected, 1)
    ensures RejectedRight(data, picks + [p], rejected)
  {
    hide Redundant, Contains;
    var more := picks + [p];
    forall i, j | 0 <= i < j < |more|
      ensures Contains(more[j].name, more[i].name) || !Redundant(data, more[j].name, more[i].name)
    {
    }
    forall s, i | s in rows && Candidate(s, more, rejected) && s.name in data.columns && 0 <= i < |more| - 1
      ensures Contains(s.name, more[i].name) || !Redundant(data, s.name, more[i].name)
    {
      assert forall q | q in picks :: q in more;
      assert Candidate(s, picks, rejected);
    }
    forall n | n in rejected
      ensures exists q | q in more :: Redundant(data, n, q.name)
    {
      var q :| q in picks && Redundant(data, n, q.name);
      assert q in more;
    }
  }

  // Row r cannot be accepted, or it is one of the candidates already passed.
  predicate Unaccepted(data: Samples, r: Row, picks: seq<Pick>, rejected: set<string>, target: string,
                       passed: seq<Row>) {
    !Candidate(r, picks, rejected) || !Comparable(data, r.name, target) || r in passed
  }

  predicate AllUnaccepted(data: Samples, rows: seq<Row>, q: nat, picks: seq<Pick>, rejected: set<string>,
                          target: string, passed: seq<Row>) {
    q <= |rows| && forall i | 0 <= i < q :: Unaccepted(data, rows[i], picks, rejected, target, passed)
  }

  lemma UnacceptedFirst(data: Samples, rows: seq<Row>, q: nat, picks: seq<Pick>, rejected: set<string>, target: string,
                        passed: seq<Row>, passed': seq<Row>)
    requires rows != [] && AllUnaccepted(data, rows[1..], q, picks, rejected, target, passed)
    requires Unaccepted(data, rows[0], picks, rejected, target, passed') && forall r | r in passed :: r in passed'
    ensures AllUnaccepted(data, rows, q + 1, picks, rejected, target, passed')
  {
    hide Candidate, Comparable;
    forall i | 0 <= i < q + 1
      ensures Unaccepted(data, rows[i], picks, rejected, target, passed')
    {
      if i > 0 {
        assert rows[i] == rows[1..][i - 1];
      }
    }
  }

  // Candidate k of the filtered rows f, or their end, stands at q among all rows, and no row before q
  // could have been accepted unless it was passed as a candidate.
  ghost predicate StandsAt(data: Samples, rows: seq<Row>, picks: seq<Pick>, rejected: set<string>, target: string,
                           f: seq<Row>, k: nat, q: nat) {
    && k <= |f| && (k < |f| ==> q < |rows| && rows[q] == f[k]) && (k == |f| ==> q == |rows|)
    && AllUnaccepted(data, rows, q, picks, rejected, target, f[..k])
  }

  lemma {:induction false} FilterIndex(data: Samples, rows: seq<Row>, picks: seq<Pick>, rejected: set<string>,
                                       target: string, k: nat)
    returns (q: nat)
    requires k <= |Filter(data, rows, picks, rejected, target)|
    ensures StandsAt(data, rows, picks, rejected, target, Filter(data, rows, picks, rejected, target), k, q)
  {
    hide Candidate, Comparable, AllUnaccepted, StandsAt;
    if rows == [] {
      q := 0;
      FirstStands(data, rows, picks, rejected, target, []);
    } else {
      var g := Filter(data, rows[1..], picks, rejected, target);
      if !(Candidate(rows[0], picks, rejected) && Comparable(data, rows[0].name, target)) {
        var p := FilterIndex(data, rows[1..], picks, rejected, target, k);
        q := p + 1;
        DroppedStands(data, rows, picks, rejected, target, g, k, p);
      } else if k == 0 {
        q := 0;
        FirstStands(data, rows, picks, rejected, target, [rows[0]] + g);
      } else {
        var p := FilterIndex(data, rows[1..], picks, rejected, target, k - 1);
        q := p + 1;
        KeptStands(data, rows, picks, rejected, target, g, k, p);
      }
    }
  }

  lemma FirstStands(data: Samples, rows: seq<Row>, picks: seq<Pick>, rejected: set<string>, target: string, f: seq<Row>)
    requires if f == [] then rows == [] else rows != [] && rows[0] == f[0]
    ensures StandsAt(data, rows, picks, rejected, target, f, 0, 0)
  {
  }

  lemma DroppedStands(data: Samples, rows: seq<Row>, picks: seq<Pick>, rejected: set<string>, target: string,
                      g: seq<Row>, k: nat, p: nat)
    requires rows != [] && !(Candidate(rows[0], picks, rejected) && Comparable(data, rows[0].name, target))
    requires StandsAt(data, rows[1..], picks, rejected, target, g, k, p)
    ensures StandsAt(data, rows, picks, rejected, target, [] + g, k, p + 1)
  {
    hide Candidate, Comparable, AllUnaccepted;
    assert [] + g == g;
    UnacceptedFirst(data, rows, p, picks, rejected, target, g[..k], g[..k]);
  }

  lemma KeptStands(data: Samples, rows: seq<Row>, picks: seq<Pick>, rejected: set<string>, target: string, g: seq<Row>,
                   k: nat, p: nat)
    requires rows != [] && k > 0 && StandsAt(data, rows[1..], picks, rejected, target, g, k - 1, p)
    ensures StandsAt(data, rows, picks, rejected, target, [rows[0]] + g, k, p + 1)
  {
    hide Candidate, Comparable, AllUnaccepted;
    var f := [rows[0]] + g;
    assert f[..k] == [rows[0]] + g[..k - 1];
    UnacceptedFirst(data, rows, p, picks, rejected, target, g[..k - 1], f[..k]);
  }

  // Picks after the first name rows.
  ghost predicate FromRows(rows: seq<Row>, picks: seq<Pick>) {
    forall i | 0 < i < |picks| :: exists r | r in rows :: r.name == picks[i].name
  }

  // When no name hides another, a row that did not make it to the accepted one is skipped by the
  // reference pass.
  lemma UnacceptedIsSkipped(data: Samples, rows: seq<Row>, start: string, picks: seq<Pick>, rejected: set<string>,
                            rejected': set<string>, r: Row)
    requires NoneHidden(rows, start) && FromRows(rows, picks) && picks != [] && picks[0].name == start && r in rows
    requires rejected <= rejected' && RejectedRight(data, picks, rejected')
    requires !Candidate(r, picks, rejected) || !Comparable(data, r.name, picks[|picks| - 1].name) || r.name in rejected'
    ensures Skipped(data, r, picks) && (!Candidate(r, picks, rejected') || r.name !in data.columns)
  {
    hide Redundant, Contains;
    var last := picks[|picks| - 1];
    assert last in picks;
    if r.name != last.name {
      LastNotHidden(rows, start, picks, r);
    }
  }

  lemma LastNotHidden(rows: seq<Row>, start: string, picks: seq<Pick>, r: Row)
    requires NoneHidden(rows, start) && FromRows(rows, picks) && picks != [] && picks[0].name == start && r in rows
    requires r.name != picks[|picks| - 1].name
    ensures !Contains(r.name, picks[|picks| - 1].name)
  {
    hide Contains;
    if |picks| > 1 {
      var s :| s in rows && s.name == picks[|picks| - 1].name;
    }
  }

  // A row that passed all comparisons is one the reference pass takes.
  lemma AcceptedIsTaken(data: Samples, rows: seq<Row>, start: string, picks: seq<Pick>, rejected: set<string>, r: Row)
    requires NoneHidden(rows, start) && FromRows(rows, picks) && picks != [] && picks[0].name == start && r in rows
    requires PassedAll(data, rows, picks, rejected, 0) && Candidate(r, picks, rejected) && r.name in data.columns
    ensures !Skipped(data, r, picks)
  {
    hide Redundant, Contains;
    forall p | p in picks
      ensures !Redundant(data, r.name, p.name)
    {
      var i :| 0 <= i < |picks| && picks[i] == p;
      assert r.name != p.name;
      if i > 0 {
        var s :| s in rows && s.name == p.name;
      }
      assert !Contains(r.name, p.name);
    }
  }

  // The reference pass reaches the same pick.
  lemma TrackPick(data: Samples, rows: seq<Row>, start: Pick, picks: seq<Pick>, rejected: set<string>,
                  rejected': set<string>, n: nat, q: nat, covBit: nat)
    requires Tracks(data, rows, start, picks, rejected, n, covBit) && rejected <= rejected'
    requires NoneHidden(rows, start.name) && FromRows(rows, picks) && picks != [] && picks[0] == start
    requires PassedAll(data, rows, picks, rejected', 0) && RejectedRight(data, picks, rejected')
    requires q < |rows| && Candidate(rows[q], picks, rejected') && rows[q].name in data.columns
    requires forall i | 0 <= i < q ::
      !Candidate(rows[i], picks, rejected) || !Comparable(data, rows[i].name, picks[|picks| - 1].name) ||
        rows[i].name in rejected'
    requires TotalWidth(picks) < covBit
    ensures Tracks(data, rows, start, picks + [PickOf(rows[q], TotalWidth(picks), covBit)], rejected', q + 1, covBit)
  {
    hide NoneHidden, FromRows, PassedAll, RejectedRight, Comparable, Skipped, Candidate, Greedy, TotalWidth, Tracks,
         Settled, AllSkipped;
    var sum := TotalWidth(picks);
    var p := PickOf(rows[q], sum, covBit);
    CandidateStays(rows[q], picks, rejected, rejected');
    NotSettled(data, rows, start, picks, rejected, n, covBit, q);
    UnacceptedAreSkipped(data, rows, start.name, picks, rejected, rejected', q);
    AcceptedIsTaken(data, rows, start.name, picks, rejected', rows[q]);
    GreedyTakes(data, rows, n, q, picks, sum, covBit);
    TotalWidthMore(picks, p);
    SettledMore(data, rows, q, picks, p, rejected');
    TracksOn(data, rows, start, picks, rejected, n, picks + [p], rejected', q + 1, covBit);
  }

  lemma UnacceptedAreSkipped(data: Samples, rows: seq<Row>, start: string, picks: seq<Pick>, rejected: set<string>,
                             rejected': set<string>, q: nat)
    requires NoneHidden(rows, start) && FromRows(rows, picks) && picks != [] && picks[0].name == start && q <= |rows|
    requires rejected <= rejected' && RejectedRight(data, picks, rejected')
    requires forall i | 0 <= i < q ::
      !Candidate(rows[i], picks, rejected) || !Comparable(data, rows[i].name, picks[|picks| - 1].name) ||
        rows[i].name in rejected'
    ensures AllSkipped(data, rows, q, picks) && Settled(data, rows, q, picks, rejected')
  {
    hide NoneHidden, FromRows, RejectedRight, Comparable, Skipped, Candidate;
    forall i | 0 <= i < q
      ensures Skipped(data, rows[i], picks) && (!Candidate(rows[i], picks, rejected') || rows[i].name !in data.columns)
    {
      UnacceptedIsSkipped(data, rows, start, picks, rejected, rejected', rows[i]);
    }
  }

  lemma SettledMore(data: Samples, rows: seq<Row>, q: nat, picks: seq<Pick>, p: Pick, rejected: set<string>)
    requires Settled(data, rows, q, picks, rejected) && q < |rows| && p.name == rows[q].name
    ensures Settled(data, rows, q + 1, picks + [p], rejected)
  {
    hide Candidate;
    forall i | 0 <= i < q + 1
      ensures !Candidate(rows[i], picks + [p], rejected) || rows[i].name !in data.columns
    {
      PickedIsNoCandidate(rows[i], picks, p, rejected);
    }
  }

  lemma NotSettled(data: Samples, rows: seq<Row>, start: Pick, picks: seq<Pick>, rejected: set<string>, n: nat,
                   covBit: nat, q: nat)
    requires Tracks(data, rows, start, picks, rejected, n, covBit)
    requires q < |rows| && Candidate(rows[q], picks, rejected) && rows[q].name in data.columns
    ensures n <= q
  {
    hide Candidate, Greedy, TotalWidth;
  }

  lemma TracksOn(data: Samples, rows: seq<Row>, start: Pick, picks: seq<Pick>, rejected: set<string>, n: nat,
                 picks': seq<Pick>, rejected': set<string>, m: nat, covBit: nat)
    requires Tracks(data, rows, start, picks, rejected, n, covBit) && n <= |rows| && m <= |rows|
    requires Greedy(data, rows[n..], picks, TotalWidth(picks), covBit) ==
      Greedy(data, rows[m..], picks', TotalWidth(picks'), covBit)
    requires Settled(data, rows, m, picks', rejected')
    ensures Tracks(data, rows, start, picks', rejected', m, covBit)
  {
    hide Settled, Greedy, TotalWidth;
  }

  lemma CandidateStays(r: Row, picks: seq<Pick>, rejected: set<string>, rejected': set<string>)
    requires Candidate(r, picks, rejected') && rejected <= rejected'
    ensures Candidate(r, picks, rejected)
  {
  }

  lemma PickedIsNoCandidate(r: Row, picks: seq<Pick>, p: Pick, rejected: set<string>)
    ensures !Candidate(r, picks, rejected) || p.name == r.name ==> !Candidate(r, picks + [p], rejected)
  {
    var more := picks + [p];
    assert p == more[|picks|] && p in more && forall x | x in picks :: x in more;
  }

  // The reference pass skips everything from n to q and takes q.
  lemma GreedyTakes(data: Samples, rows: seq<Row>, n: nat, q: nat, picks: seq<Pick>, sum: nat, covBit: nat)
    requires n <= q < |rows| && sum < covBit && !Skipped(data, rows[q], picks)
    requires AllSkipped(data, rows, q, picks)
    ensures var p := PickOf(rows[q], sum, covBit);
            Greedy(data, rows[n..], picks, sum, covBit) ==
              Greedy(data, rows[q + 1..], picks + [p], sum + p.width, covBit)
  {
    hide Skipped;
    GreedySkips(data, rows[n..], q - n, picks, sum, covBit);
    assert rows[n..][q - n..] == rows[q..];
    assert rows[q..][0] == rows[q] && rows[q..][1..] == rows[q + 1..];
  }

  // With nothing left to accept, the reference pass ends where the selection stands.
  lemma TrackEnd(data: Samples, rows: seq<Row>, start: Pick, picks: seq<Pick>, rejected: set<string>, n: nat,
                 covBit: nat)
    requires Tracks(data, rows, start, picks, rejected, n, covBit) && TotalWidth(picks) < covBit
    requires NoneHidden(rows, start.name) && FromRows(rows, picks) && picks != [] && picks[0] == start
    requires RejectedRight(data, picks, rejected)
    requires Filter(data, rows, picks, rejected, picks[|picks| - 1].name) == []
    ensures Greedy(data, rows, [start], start.width, covBit) == picks
  {
    hide NoneHidden, FromRows, RejectedRight, Comparable, Candidate, Skipped, Filter;
    forall i | n <= i < |rows|
      ensures Skipped(data, rows[i], picks)
    {
      FilterHolds(data, rows, picks, rejected, picks[|picks| - 1].name);
      assert rows[i] !in Filter(data, rows, picks, rejected, picks[|picks| - 1].name);
      UnacceptedIsSkipped(data, rows, start.name, picks, rejected, rejected, rows[i]);
    }
    GreedySkips(data, rows[n..], |rows| - n, picks, TotalWidth(picks), covBit);
    assert rows[n..][|rows| - n..] == [];
  }

  // What every iteration keeps.
  ghost predicate Selecting(data: Samples, rows: seq<Row>, start: Pick, picks: seq<Pick>, rejected: set<string>,
                            n: nat, covBit: nat) {
    && picks != [] && picks[0] == start && FromRows(rows, picks)
    && LowRedundancy(data, picks) && PassedAll(data, rows, picks, rejected, 1) && RejectedRight(data, picks, rejected)
    && (NoneHidden(rows, start.name) ==> Tracks(data, rows, start, picks, rejected, n, covBit))
  }

  lemma SelectingStart(data: Samples, rows: seq<Row>, start: Pick, covBit: nat)
    ensures Selecting(data, rows, start, [start], {}, 0, covBit) && TotalWidth([start]) == start.width
  {
    assert rows[0..] == rows;
    assert [start][..0] == [];
  }

  // One iteration with at least one comparable candidate.
  method Iterate(data: Samples, rows: seq<Row>, ghost start: Pick, picks0: seq<Pick>, rejected0: set<string>,
                 ghost n0: nat, sum0: nat, covBit: nat)
    returns (picks: seq<Pick>, rejected: set<string>, sum: nat, ghost n: nat)
    requires Selecting(data, rows, start, picks0, rejected0, n0, covBit) && picks0 != []
    requires sum0 == TotalWidth(picks0) < covBit
    requires Filter(data, rows, picks0, rejected0, picks0[|picks0| - 1].name) != []
    ensures Selecting(data, rows, start, picks, rejected, n, covBit) && sum == TotalWidth(picks) <= covBit
    ensures |Pool(rows, picks, rejected)| < |Pool(rows, picks0, rejected0)|
    ensures var target := picks0[|picks0| - 1].name;
            var f := Filter(data, rows, picks0, rejected0, target);
            rejected == Rejecting(data, f, target, rejected0) && picks == NextPicks(f, picks0, rejected, sum0, covBit)
    ensures picks == picks0 || (picks != [] && picks[|picks| - 1].name in data.columns)
  {
    hide Selecting, PassedAll, RejectedRight, Tracks, NoneHidden, FromRows, LowRedundancy, Comparable, Redundant,
         Pool, Greedy, Filter, TotalWidth, Rejecting, Accepted;
    var target := picks0[|picks0| - 1].name;
    var withNmi := Filter(data, rows, picks0, rejected0, target);
    rejected := Reject(data, withNmi, target, rejected0);
    IterateReject(data, rows, start, picks0, rejected0, rejected, n0, covBit);
    var index := FirstAccepted(withNmi, rejected);
    if index < |withNmi| {
      var row := withNmi[index];
      picks := picks0 + [PickOf(row, sum0, covBit)];
      sum := sum0 + PickOf(row, sum0, covBit).width;
      TotalWidthMore(picks0, PickOf(row, sum0, covBit));
      n := IteratePick(data, rows, start, picks0, rejected0, rejected, n0, index, covBit);
      CandidateSampled(data, rows, picks0, rejected0, target, row);
    } else {
      picks, sum, n := picks0, sum0, n0;
    }
    StepShrinks(data, rows, picks0, rejected0, covBit);
  }

  lemma CandidateSampled(data: Samples, rows: seq<Row>, picks: seq<Pick>, rejected: set<string>, target: string, r: Row)
    requires r in Filter(data, rows, picks, rejected, target)
    ensures r.name in data.columns
  {
    hide Filter, Contains, Candidate;
    FilterHolds(data, rows, picks, rejected, target);
  }

  lemma IterateReject(data: Samples, rows: seq<Row>, start: Pick, picks: seq<Pick>, rejected: set<string>,
                      rejected': set<string>, n: nat, covBit: nat)
    requires Selecting(data, rows, start, picks, rejected, n, covBit)
    requires var target := picks[|picks| - 1].name;
             rejected' == Rejecting(data, Filter(data, rows, picks, rejected, target), target, rejected)
    ensures PassedAll(data, rows, picks, rejected', 0) && RejectedRight(data, picks, rejected')
    ensures Selecting(data, rows, start, picks, rejected', n, covBit)
  {
    AfterReject(data, rows, picks, rejected, rejected', picks[|picks| - 1].name);
    PassedFewer(data, rows, picks, rejected');
    hide PassedAll, RejectedRight, NoneHidden, FromRows, LowRedundancy, Greedy, Filter, Redundant;
    if NoneHidden(rows, start.name) {
      assert Tracks(data, rows, start, picks, rejected, n, covBit);
    }
  }

  lemma PassedFewer(data: Samples, rows: seq<Row>, picks: seq<Pick>, rejected: set<string>)
    requires PassedAll(data, rows, picks, rejected, 0)
    ensures PassedAll(data, rows, picks, rejected, 1)
  {
  }

  lemma IteratePick(data: Samples, rows: seq<Row>, start: Pick, picks: seq<Pick>, rejected: set<string>,
                    rejected': set<string>, n: nat, index: nat, covBit: nat)
    returns (m: nat)
    requires Selecting(data, rows, start, picks, rejected, n, covBit) && TotalWidth(picks) < covBit
    requires rejected <= rejected'
    requires PassedAll(data, rows, picks, rejected', 0) && RejectedRight(data, picks, rejected')
    requires var f := Filter(data, rows, picks, rejected, picks[|picks| - 1].name);
             index < |f| && f[index].name !in rejected' && forall i | 0 <= i < index :: f[i].name in rejected'
    ensures var f := Filter(data, rows, picks, rejected, picks[|picks| - 1].name);
            Selecting(data, rows, start, picks + [PickOf(f[index], TotalWidth(picks), covBit)], rejected', m, covBit)
  {
    var target := picks[|picks| - 1].name;
    var f := Filter(data, rows, picks, rejected, target);
    var row := f[index];
    FilterHolds(data, rows, picks, rejected, target);
    assert row in f;
    var p := PickOf(row, TotalWidth(picks), covBit);
    PickKeeps(data, rows, picks, rejected', row, p);
    TotalWidthMore(picks, p);
    var q := FilterIndex(data, rows, picks, rejected, target, index);
    m := q + 1;
    PassedAreRejected(data, rows, q, picks, rejected, target, f[..index], rejected');
    FromRowsMore(rows, picks, p, row);
    hide PassedAll, RejectedRight, NoneHidden, FromRows, LowRedundancy, Filter, Comparable, Tracks, TotalWidth;
    if NoneHidden(rows, start.name) {
      TrackPick(data, rows, start, picks, rejected, rejected', n, q, covBit);
    }
  }

  lemma PassedAreRejected(data: Samples, rows: seq<Row>, q: nat, picks: seq<Pick>, rejected: set<string>,
                          target: string, passed: seq<Row>, rejected': set<string>)
    requires AllUnaccepted(data, rows, q, picks, rejected, target, passed) && forall r | r in passed ::
      r.name in rejected'
    ensures forall i | 0 <= i < q ::
      !Candidate(rows[i], picks, rejected) || !Comparable(data, rows[i].name, target) || rows[i].name in rejected'
  {
    hide Candidate, Comparable;
    assert forall i | 0 <= i < q :: Unaccepted(data, rows[i], picks, rejected, target, passed);
  }

  lemma FromRowsMore(rows: seq<Row>, picks: seq<Pick>, p: Pick, r: Row)
    requires FromRows(rows, picks) && r in rows && r.name == p.name
    ensures FromRows(rows, picks + [p])
  {
  }

  // The set of comparable columns is empty only if every column contains the target; otherwise the
  // target's samples are needed.
  predicate SamplesNeeded(data: Samples, target: string) {
    exists c | c in data.columns :: !Contains(c, target)
  }

  // The start signal's column is asked for and not there.
  predicate Unsampled(data: Samples, name: string) { name !in data.columns && SamplesNeeded(data, name) }

  // The total width of the sampled rows that are not picked.
  function Reserve(data: Samples, rows: seq<Row>, picks: seq<Pick>): nat {
    if rows == [] then 0
    else (if rows[0].name in data.columns && !Chosen(picks, rows[0].name) then rows[0].width else 0)
         + Reserve(data, rows[1..], picks)
  }

  lemma {:induction false} ReserveShrinks(data: Samples, rows: seq<Row>, picks: seq<Pick>, p: Pick)
    ensures Reserve(data, rows, picks + [p]) <= Reserve(data, rows, picks)
    ensures forall r | r in rows && r.name == p.name && r.name in data.columns && !Chosen(picks, r.name) &&
      p.width <= r.width ::
              Reserve(data, rows, picks + [p]) + p.width <= Reserve(data, rows, picks)
  {
    if rows != [] {
      ReserveShrinks(data, rows[1..], picks, p);
      ChosenMore(picks, p, rows[0].name);
      hide Chosen;
    }
  }

  lemma ChosenMore(picks: seq<Pick>, p: Pick, name: string)
    ensures Chosen(picks + [p], name) <==> Chosen(picks, name) || p.name == name
  {
    var more := picks + [p];
    assert p == more[|picks|] && p in more && forall x | x in picks :: x in more;
  }

  // The budget can only be filled from the start signal and the sampled rows.
  lemma {:induction false} LoopWithinReserve(data: Samples, rows: seq<Row>, picks: seq<Pick>, rejected: set<string>,
                                             sum: nat, covBit: nat)
    requires picks != [] && sum == TotalWidth(picks)
    ensures Loop(data, rows, picks, rejected, sum, covBit).Selected? ==> covBit <= sum + Reserve(data, rows, picks)
    decreases |Pool(rows, picks, rejected)|
  {
    hide Filter, Pool, TotalWidth, Reserve, Rejecting, SamplesNeeded, Contains;
    var target := picks[|picks| - 1].name;
    var f := Filter(data, rows, picks, rejected, target);
    var rejected' := Rejecting(data, f, target, rejected);
    if sum < covBit && f != [] {
      var picks' := NextPicks(f, picks, rejected', sum, covBit);
      StepShrinks(data, rows, picks, rejected, covBit);
      LoopWithinReserve(data, rows, picks', rejected', TotalWidth(picks'), covBit);
      NextReserve(data, rows, picks, rejected, rejected', sum, covBit);
    }
  }

  lemma NextReserve(data: Samples, rows: seq<Row>, picks: seq<Pick>, rejected: set<string>, rejected': set<string>,
                    sum: nat, covBit: nat)
    requires picks != [] && sum == TotalWidth(picks) < covBit
    ensures var f := Filter(data, rows, picks, rejected, picks[|picks| - 1].name);
            var picks' := NextPicks(f, picks, rejected', sum, covBit);
            TotalWidth(picks') + Reserve(data, rows, picks') <= sum + Reserve(data, rows, picks)
  {
    hide Filter, TotalWidth, Reserve, Accepted, Contains, Chosen;
    var f := Filter(data, rows, picks, rejected, picks[|picks| - 1].name);
    AcceptedIsOne(f, rejected');
    FilterHolds(data, rows, picks, rejected, picks[|picks| - 1].name);
    if Accepted(f, rejected').Some? {
      var r := Accepted(f, rejected').value;
      var p := PickOf(r, sum, covBit);
      TotalWidthMore(picks, p);
      ReserveShrinks(data, rows, picks, p);
    }
  }

  // What the script makes of its tables.
  ghost function Selection(instRows: seq<Row>, data: Samples, startName: string, covBit: nat): Outcome {
    match WidthOf(instRows, startName)
    case None => Missing
    case Some(width) =>
      var start := Pick(startName, width, false);
      assert TotalWidth([start]) == width by { assert [start][..0] == []; }
      Loop(data, SortByDistance(instRows), [start], {}, width, covBit)
  }

  // select_coverage_sigs_using_mi
  method SelectUsingMi(instRows: seq<Row>, data: Samples, startName: string, covBit: nat) returns (r: Outcome)
    ensures r == Selection(instRows, data, startName, covBit)
    ensures var width := WidthOf(instRows, startName);
            r.Missing? <==> width.None? || (width.value < covBit && Unsampled(data, startName))
    ensures !r.Missing? ==> WidthOf(instRows, startName).Some? && r.picks != []
    ensures !r.Missing? ==> r.picks[0] == Pick(startName, WidthOf(instRows, startName).value, false)
    ensures !r.Missing? ==> LowRedundancy(data, r.picks)
    ensures r.Selected? ==> TotalWidth(r.picks) == (if r.picks[0].width > covBit then r.picks[0].width else covBit)
    ensures r.Diverges? ==> TotalWidth(r.picks) < covBit
    ensures !r.Missing? && NoneHidden(SortByDistance(instRows), startName)
            ==> r.picks == Greedy(data, SortByDistance(instRows), [r.picks[0]], r.picks[0].width, covBit)
    ensures !r.Missing? && NoneHidden(SortByDistance(instRows), startName)
            ==> (r.Selected? <==>
                 TotalWidth(Greedy(data, SortByDistance(instRows), [r.picks[0]], r.picks[0].width, covBit)) >= covBit)
    ensures r.Selected? ==> covBit <= r.picks[0].width + Reserve(data, SortByDistance(instRows), [r.picks[0]])
  {
    hide Selecting, SamplesNeeded, SortByDistance, Greedy, NoneHidden, LowRedundancy, Pool, Filter, Contains,
         Accepted, Rejecting, NextPicks, WidthOf, Reserve, TotalWidth;
    var rows := SortByDistance(instRows);
    var width := WidthOf(instRows, startName);
    if width.None? {
      return Missing;
    }
    ghost var start := Pick(startName, width.value, false);
    var picks := [Pick(startName, width.value, false)];
    var rejected: set<string> := {};
    var sum := width.value;
    ghost var n := 0;
    SelectingStart(data, rows, start, covBit);
    LoopWithinReserve(data, rows, [start], {}, start.width, covBit);
    while sum < covBit
      invariant Selecting(data, rows, start, picks, rejected, n, covBit) && picks != [] && sum == TotalWidth(picks)
      invariant sum == width.value || (width.value < covBit && sum <= covBit)
      invariant Loop(data, rows, picks, rejected, sum, covBit) == Loop(data, rows, [start], {}, start.width, covBit)
      invariant picks == [start] || (!Unsampled(data, startName) && picks[|picks| - 1].name in data.columns)
      decreases |Pool(rows, picks, rejected)|
    {
      var target := picks[|picks| - 1].name;
      if target !in data.columns && SamplesNeeded(data, target) {
        return Missing;
      }
      var withNmi := Filter(data, rows, picks, rejected, target);
      if withNmi == [] {
        SelectingEnd(data, rows, start, picks, rejected, n, covBit);
        return Diverges(picks);
      }
      picks, rejected, sum, n := Iterate(data, rows, start, picks, rejected, n, sum, covBit);
      StillPicks(data, rows, start, picks, rejected, n, covBit);
    }
    SelectingEnd(data, rows, start, picks, rejected, n, covBit);
    return Selected(picks);
  }

  lemma StillPicks(data: Samples, rows: seq<Row>, start: Pick, picks: seq<Pick>, rejected: set<string>, n: nat,
                   covBit: nat)
    requires Selecting(data, rows, start, picks, rejected, n, covBit)
    ensures picks != []
  {
  }

  lemma SelectingEnd(data: Samples, rows: seq<Row>, start: Pick, picks: seq<Pick>, rejected: set<string>, n: nat,
                     covBit: nat)
    requires Selecting(data, rows, start, picks, rejected, n, covBit) && picks != []
    requires TotalWidth(picks) < covBit ==> Filter(data, rows, picks, rejected, picks[|picks| - 1].name) == []
    ensures picks[0] == start && LowRedundancy(data, picks)
    ensures NoneHidden(rows, start.name) ==> picks == Greedy(data, rows, [start], start.width, covBit)
  {
    hide NoneHidden, LowRedundancy, Filter, PassedAll, RejectedRight, FromRows;
    if NoneHidden(rows, start.name) && TotalWidth(picks) < covBit {
      TrackEnd(data, rows, start, picks, rejected, n, covBit);
    }
  }

  // ---- What the reference pass selects ----

  // The rows behind the picks of a pass over rows that began with picks `first`: their positions
  // ascend, each is taken in full or to the last free bit, none is redundant with an earlier pick,
  // and a row passed over on the way is skipped because of picks made before it.
  ghost predicate Trace(data: Samples, rows: seq<Row>, first: seq<Pick>, result: seq<Pick>, ix: seq<nat>, covBit: nat) {
    && |result| == |first| + |ix| && first == result[..|first|]
    && Climbs(ix)
    && AllTaken(data, rows, |first|, result, ix, covBit)
    && AllPassed(data, rows, |first|, result, ix, covBit)
  }

  ghost predicate AllTaken(data: Samples, rows: seq<Row>, base: nat, result: seq<Pick>, ix: seq<nat>, covBit: nat) {
    forall k | 0 <= k < |ix| :: ix[k] < |rows| && Taken(data, rows[ix[k]], result, base + k, covBit)
  }

  ghost predicate AllPassed(data: Samples, rows: seq<Row>, base: nat, result: seq<Pick>, ix: seq<nat>, covBit: nat) {
    forall i | 0 <= i < |rows| && i !in ix && Reached(result, ix, i, covBit) ::
      PassedOver(data, rows[i], i, base, result, ix)
  }

  predicate Climbs(ix: seq<nat>) { forall j, k | 0 <= j < k < |ix| :: ix[j] < ix[k] }

  // Row i comes before the last pick, or the budget was never filled.
  predicate Reached(result: seq<Pick>, ix: seq<nat>, i: nat, covBit: nat) {
    TotalWidth(result) < covBit || exists k | 0 <= k < |ix| :: i < ix[k]
  }

  ghost predicate Taken(data: Samples, r: Row, result: seq<Pick>, m: nat, covBit: nat) {
    m < |result| && var before := result[..m];
    TotalWidth(before) < covBit && result[m] == PickOf(r, TotalWidth(before), covBit) && !Skipped(data, r, before)
  }

  ghost predicate PassedOver(data: Samples, r: Row, i: nat, base: nat, result: seq<Pick>, ix: seq<nat>) {
    exists m :: PassedAt(data, r, i, base, result, ix, m)
  }

  ghost predicate PassedAt(data: Samples, r: Row, i: nat, base: nat, result: seq<Pick>, ix: seq<nat>, m: nat) {
    base <= m <= |result| && Skipped(data, r, result[..m]) && forall k | 0 <= k < |ix| && base + k < m :: ix[k] < i
  }

  function Shifted(ix: seq<nat>): (r: seq<nat>)
    ensures |r| == |ix| && forall k | 0 <= k < |ix| :: r[k] == ix[k] + 1
  {
    seq(|ix|, k requires 0 <= k < |ix| => ix[k] + 1)
  }

  lemma {:induction false} GreedyTrace(data: Samples, rows: seq<Row>, picks: seq<Pick>, covBit: nat)
    returns (ix: seq<nat>)
    ensures Trace(data, rows, picks, Greedy(data, rows, picks, TotalWidth(picks), covBit), ix, covBit)
    decreases |rows|
  {
    hide TotalWidth, Skipped;
    var sum := TotalWidth(picks);
    var g := Greedy(data, rows, picks, sum, covBit);
    if sum >= covBit || rows == [] {
      ix := [];
    } else if Skipped(data, rows[0], picks) {
      var jx := GreedyTrace(data, rows[1..], picks, covBit);
      ix := Shifted(jx);
      TraceSkip(data, rows, picks, g, jx, covBit);
    } else {
      var p := PickOf(rows[0], sum, covBit);
      TotalWidthMore(picks, p);
      var jx := GreedyTrace(data, rows[1..], picks + [p], covBit);
      ix := [0] + Shifted(jx);
      TraceTake(data, rows, picks, p, g, jx, covBit);
    }
  }

  lemma TraceSkip(data: Samples, rows: seq<Row>, first: seq<Pick>, g: seq<Pick>, jx: seq<nat>, covBit: nat)
    requires rows != [] && Skipped(data, rows[0], first) && Trace(data, rows[1..], first, g, jx, covBit)
    ensures Trace(data, rows, first, g, Shifted(jx), covBit)
  {
    hide TotalWidth, Skipped, Taken;
    var ix := Shifted(jx);
    forall i | 0 <= i < |rows| && i !in ix && Reached(g, ix, i, covBit)
      ensures PassedOver(data, rows[i], i, |first|, g, ix)
    {
      if i == 0 {
        assert PassedAt(data, rows[0], 0, |first|, g, ix, |first|);
      } else {
        NotShifted(jx, i);
        assert rows[i] == rows[1..][i - 1];
        var m :| PassedAt(data, rows[i], i - 1, |first|, g, jx, m);
        assert PassedAt(data, rows[i], i, |first|, g, ix, m);
      }
    }
  }

  lemma TraceTake(data: Samples, rows: seq<Row>, first: seq<Pick>, p: Pick, g: seq<Pick>, jx: seq<nat>, covBit: nat)
    requires rows != [] && !Skipped(data, rows[0], first) && TotalWidth(first) < covBit
    requires p == PickOf(rows[0], TotalWidth(first), covBit)
    requires Trace(data, rows[1..], first + [p], g, jx, covBit)
    ensures Trace(data, rows, first, g, [0] + Shifted(jx), covBit)
  {
    hide TotalWidth, Skipped, Taken, Climbs, AllTaken, AllPassed;
    ClimbsMore(jx);
    assert g[..|first|] == g[..|first| + 1][..|first|] == first;
    assert g[|first|] == g[..|first| + 1][|first|] == p;
    FirstTaken(data, rows[0], first, g, covBit);
    TakenLater(data, rows, |first|, g, jx, covBit);
    AllPassedLater(data, rows, |first|, g, jx, covBit);
  }

  lemma TakenLater(data: Samples, rows: seq<Row>, base: nat, g: seq<Pick>, jx: seq<nat>, covBit: nat)
    requires rows != [] && Taken(data, rows[0], g, base, covBit) && AllTaken(data, rows[1..], base + 1, g, jx, covBit)
    ensures AllTaken(data, rows, base, g, [0] + Shifted(jx), covBit)
  {
    hide Taken;
    var ix := [0] + Shifted(jx);
    forall k | 0 <= k < |ix|
      ensures ix[k] < |rows| && Taken(data, rows[ix[k]], g, base + k, covBit)
    {
      if k > 0 {
        assert rows[1..][jx[k - 1]] == rows[ix[k]];
        assert Taken(data, rows[1..][jx[k - 1]], g, base + 1 + (k - 1), covBit);
      }
    }
  }

  lemma AllPassedLater(data: Samples, rows: seq<Row>, base: nat, g: seq<Pick>, jx: seq<nat>, covBit: nat)
    requires rows != [] && AllPassed(data, rows[1..], base + 1, g, jx, covBit)
    ensures AllPassed(data, rows, base, g, [0] + Shifted(jx), covBit)
  {
    hide PassedOver, Reached;
    var ix := [0] + Shifted(jx);
    forall i | 0 <= i < |rows| && i !in ix && Reached(g, ix, i, covBit)
      ensures PassedOver(data, rows[i], i, base, g, ix)
    {
      assert i != 0 by { assert ix[0] == 0; }
      NotShifted(jx, i);
      ReachedLater(g, jx, i, covBit);
      assert rows[1..][i - 1] == rows[i];
      PassedLater(data, rows[i], i, base, g, jx);
    }
  }

  lemma FirstTaken(data: Samples, r: Row, first: seq<Pick>, g: seq<Pick>, covBit: nat)
    requires TotalWidth(first) < covBit && !Skipped(data, r, first)
    requires |first| < |g| && g[..|first|] == first && g[|first|] == PickOf(r, TotalWidth(first), covBit)
    ensures Taken(data, r, g, |first|, covBit)
  {
  }

  lemma NotShifted(jx: seq<nat>, i: nat)
    requires i > 0 && i !in [0] + Shifted(jx)
    ensures i - 1 !in jx
  {
    assert forall k {:trigger jx[k]} | 0 <= k < |jx| :: ([0] + Shifted(jx))[k + 1] == jx[k] + 1;
  }

  lemma ReachedLater(g: seq<Pick>, jx: seq<nat>, i: nat, covBit: nat)
    requires i > 0 && Reached(g, [0] + Shifted(jx), i, covBit)
    ensures Reached(g, jx, i - 1, covBit)
  {
    hide TotalWidth;
    var ix := [0] + Shifted(jx);
    if TotalWidth(g) >= covBit {
      var k :| 0 <= k < |ix| && i < ix[k];
      assert i - 1 < jx[k - 1];
    }
  }

  lemma ClimbsMore(jx: seq<nat>)
    requires Climbs(jx)
    ensures Climbs([0] + Shifted(jx))
  {
  }

  lemma PassedLater(data: Samples, r: Row, i: nat, base: nat, g: seq<Pick>, jx: seq<nat>)
    requires i > 0 && PassedOver(data, r, i - 1, base + 1, g, jx)
    ensures PassedOver(data, r, i, base, g, [0] + Shifted(jx))
  {
    hide Skipped;
    var m :| PassedAt(data, r, i - 1, base + 1, g, jx, m);
    var ix := [0] + Shifted(jx);
    forall k | 0 <= k < |ix| && base + k < m
      ensures ix[k] < i
    {
      assert k == 0 || ix[k] == jx[k - 1] + 1;
    }
    assert PassedAt(data, r, i, base, g, ix, m);
  }

  // The selection follows the distance from the start signal.
  lemma GreedyInOrder(data: Samples, instRows: seq<Row>, start: Pick, covBit: nat) returns (ix: seq<nat>)
    ensures var rows := SortByDistance(instRows);
            && Trace(data, rows, [start], Greedy(data, rows, [start], start.width, covBit), ix, covBit)
            && forall j, k | 0 <= j < k < |ix| :: Nearer(rows[ix[j]], rows[ix[k]])
  {
    hide Greedy;
    SortSorts(instRows);
    assert [start][..0] == [];
    assert TotalWidth([start]) == start.width;
    ix := GreedyTrace(data, SortByDistance(instRows), [start], covBit);
  }

  // ---- Hidden names ----

  lemma LettersApart(a: char, b: char, c: char)
    ensures c != a ==> !Contains([a], [c])
    ensures c != a && c != b ==> !Contains([a, b], [c])
    ensures Contains([a], [a]) && Contains([a, b], [a])
  {
    assert OccursAt([a], [a], 0) && OccursAt([a, b], [a], 0);
    forall i: nat | OccursAt([a], [c], i) ensures c == a { assert [a][i..i + 1][0] == [c][0]; }
    forall i: nat | OccursAt([a, b], [c], i) ensures c == a || c == b { assert [a, b][i..i + 1][0] == [c][0]; }
  }

  function HidingSamples(): Samples {
    Samples(["s", "a", "ab", "c"], (x, y) => if x == "ab" && y == "a" then 1.0 else 0.0)
  }

  function HidingRow(name: string): Row { Row(name, 1, 0,
                     if name == "s" then 0 else if name == "a" then 1 else if name == "ab" then 2 else 3) }

  function HidingRows(): seq<Row> { [HidingRow("s"), HidingRow("a"), HidingRow("ab"), HidingRow("c")] }

  function Kept(r: Row, picks: seq<Pick>, target: string): seq<Row> {
    if Candidate(r, picks, {}) && Comparable(HidingSamples(), r.name, target) then [r] else []
  }

  lemma FilterOne(r: Row, rest: seq<Row>, picks: seq<Pick>, target: string)
    ensures Filter(HidingSamples(), [r] + rest, picks, {}, target) ==
      Kept(r, picks, target) + Filter(HidingSamples(), rest, picks, {}, target)
  {
    assert ([r] + rest)[1..] == rest;
  }

  lemma FilterFour(a: Row, b: Row, c: Row, d: Row, picks: seq<Pick>, target: string)
    ensures Filter(HidingSamples(), [a, b, c, d], picks, {}, target)
         == Kept(a, picks, target) + (Kept(b, picks, target) + (Kept(c, picks, target) + Kept(d, picks, target)))
  {
    hide Candidate, Comparable, Kept, HidingSamples, Filter;
    FilterOne(a, [b, c, d], picks, target);
    FilterOne(b, [c, d], picks, target);
    FilterOne(c, [d], picks, target);
    FilterLast(d, picks, target);
    assert [a, b, c, d] == [a] + [b, c, d];
    assert [b, c, d] == [b] + [c, d];
    assert [c, d] == [c] + [d];
  }

  lemma FilterLast(r: Row, picks: seq<Pick>, target: string)
    ensures Filter(HidingSamples(), [r], picks, {}, target) == Kept(r, picks, target)
  {
    assert [r][1..] == [];
  }

  function HidingPicks(names: seq<string>): (r: seq<Pick>)
    ensures |r| == |names| && forall i | 0 <= i < |names| :: r[i] == Pick(names[i], 1, false)
  {
    seq(|names|, i requires 0 <= i < |names| => Pick(names[i], 1, false))
  }

  lemma ChosenNames(names: seq<string>, name: string)
    ensures Chosen(HidingPicks(names), name) == (name in names)
  {
    if name in names {
      var i :| 0 <= i < |names| && names[i] == name;
      assert HidingPicks(names)[i] in HidingPicks(names);
    }
  }

  lemma HidingKept(names: seq<string>, target: string, name: string)
    requires name in ["s", "a", "ab", "c"] && target in ["s", "a", "ab", "c"]
    ensures Kept(HidingRow(name), HidingPicks(names), target)
         == if name !in names && name != target && (name != "ab" || target != "a") then [HidingRow(name)] else []
  {
    ChosenNames(names, name);
    LettersApart('s', 'a', 'c');
    ContainsHere(name, target);
    hide Contains;
  }

  // Of the four names, each contains itself, "ab" contains "a", and that is all.
  lemma ContainsHere(name: string, target: string)
    requires name in ["s", "a", "ab", "c"] && target in ["s", "a", "ab", "c"]
    ensures Contains(name, target) == (name == target || (name == "ab" && target == "a"))
  {
    if name == target {
      assert OccursAt(name, target, 0);
    } else if name == "ab" {
      if target != "ab" {
        LettersApart('a', 'b', target[0]);
      }
    } else if target != "ab" {
      LettersApart(name[0], 'b', target[0]);
    }
  }

  // The candidates after the given picks: every other name but "ab" when "a" was the last.
  lemma HidingFilter(names: seq<string>, target: string)
    requires target in ["s", "a", "ab", "c"]
    ensures Filter(HidingSamples(), HidingRows(), HidingPicks(names), {}, target)
         == LeftAll(names, target)
  {
    hide Kept, Filter;
    FilterFour(HidingRow("s"), HidingRow("a"), HidingRow("ab"), HidingRow("c"), HidingPicks(names), target);
    HidingKept(names, target, "s");
    HidingKept(names, target, "a");
    HidingKept(names, target, "ab");
    HidingKept(names, target, "c");
  }

  function Left(name: string, names: seq<string>, target: string): seq<Row> {
    if name !in names && name != target && (name != "ab" || target != "a") then [HidingRow(name)] else []
  }

  ghost function HidingLoop(names: seq<string>, covBit: nat): Outcome
    requires names != [] && TotalWidth(HidingPicks(names)) == |names|
  {
    Loop(HidingSamples(), HidingRows(), HidingPicks(names), {}, |names|, covBit)
  }

  function LeftAll(names: seq<string>, target: string): seq<Row> {
    Left("s", names, target) + (Left("a", names, target) + (Left("ab", names, target) + Left("c", names, target)))
  }

  lemma HidingStep(names: seq<string>, target: string, covBit: nat)
    requires names != [] && target == names[|names| - 1] && target in ["s", "a", "ab", "c"]
    requires TotalWidth(HidingPicks(names)) == |names| < covBit && LeftAll(names, target) != []
    ensures var more := names + [LeftAll(names, target)[0].name];
            TotalWidth(HidingPicks(more)) == |more| && HidingLoop(names, covBit) == HidingLoop(more, covBit)
  {
    hide Filter, Pool, TotalWidth, Left, HidingRows;
    var data, rows, picks, f := HidingSamples(), HidingRows(), HidingPicks(names), LeftAll(names, target);
    HidingFilter(names, target);
    LeftIsFresh(names, target);
    assert Rejecting(data, f, target, {}) == {};
    assert f[0].name !in Rejecting(data, f, target, {}) && f[0] in f;
    assert picks + [Pick(f[0].name, 1, false)] == HidingPicks(names + [f[0].name]);
    TotalWidthMore(picks, Pick(f[0].name, 1, false));
  }

  lemma LeftIsFresh(names: seq<string>, target: string)
    ensures forall r | r in LeftAll(names, target) :: r.width == 1 && !Redundant(HidingSamples(), r.name, target)
  {
  }

  // Both "a" and "ab" are selected although they are fully redundant: "ab" contains "a", so the two
  // are never compared. With one more bit to fill, the loop has nothing left to compare.
  lemma HiddenPairIsSelected()
    ensures var data, rows, picks := HidingSamples(), HidingRows(), HidingPicks(["s", "a", "c", "ab"]);
            && Selection(rows, data, "s", 4) == Selected(picks)
            && Selection(rows, data, "s", 5) == Diverges(picks)
            && Redundant(data, picks[3].name, picks[1].name)
  {
    hide Pool, Filter, SortByDistance, WidthOf;
    HidingIsSorted();
    assert HidingPicks(["s"]) == [Pick("s", 1, false)];
    assert [Pick("s", 1, false)][..0] == [];
    FourPicks(4);
    FourPicks(5);
    HidingFilter(["s", "a", "c", "ab"], "ab");
  }

  // The rows come in the order of their distance, so sorting leaves them as they are.
  lemma HidingIsSorted()
    ensures SortByDistance(HidingRows()) == HidingRows() && WidthOf(HidingRows(), "s") == Some(1)
  {
    var a, b, c, d := HidingRow("s"), HidingRow("a"), HidingRow("ab"), HidingRow("c");
    SortFirst(d, []);
    SortFirst(c, [d]);
    SortFirst(b, [c, d]);
    SortFirst(a, [b, c, d]);
    assert [d] == [d] + [] && [c, d] == [c] + [d] && [b, c, d] == [b] + [c, d] && HidingRows() == [a] + [b, c, d];
  }

  lemma SortFirst(r: Row, rest: seq<Row>)
    requires SortByDistance(rest) == rest && (rest != [] ==> Nearer(r, rest[0]))
    ensures SortByDistance([r] + rest) == [r] + rest
  {
    assert ([r] + rest)[1..] == rest;
  }

  lemma FourPicks(covBit: nat)
    requires covBit >= 4 && TotalWidth(HidingPicks(["s"])) == 1
    ensures TotalWidth(HidingPicks(["s", "a", "c", "ab"])) == 4
    ensures HidingLoop(["s"], covBit) == HidingLoop(["s", "a", "c", "ab"], covBit)
  {
    hide Filter, Pool, TotalWidth, HidingRows, HidingLoop, HidingSamples;
    assert ["s"] + ["a"] == ["s", "a"] && ["s", "a"] + ["c"] == ["s", "a", "c"] &&
      ["s", "a", "c"] + ["ab"] == ["s", "a", "c", "ab"];
    HidingStep(["s"], "s", covBit);
    HidingStep(["s", "a"], "a", covBit);
    HidingStep(["s", "a", "c"], "c", covBit);
  }
}

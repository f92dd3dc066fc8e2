// A fuzzing campaign as a state machine over fuzz_one, for any of the coverage methods: what holds
// in every reachable state.
module Campaign {
  import opened Coverage

  // A corpus member. points are the points its own run covered.
  datatype Member = Member(id: nat, pid: nat, points: set<Point>)

  // runs are the points of every executed input, kept or not.
  datatype State = State(members: seq<Member>, covered: set<Point>, runs: seq<set<Point>>)

  const START := State([], {}, [])

  // One fuzz_one with this run. While the corpus is below the initial seed count the input is kept
  // as an initial seed; afterwards it descends from the member at parent and is kept if it is new.
  ghost predicate Next(initialSeeds: nat, s: State, run: set<Point>, parent: nat, t: State) {
    && t.covered == s.covered + run
    && t.runs == s.runs + [run]
    && if |s.members| < initialSeeds then t.members == s.members + [Member(0, 0, run)]
       else
         && parent < |s.members|
         && t.members == s.members + if run <= s.covered then [] else [Member(|s.members|, s.members[parent].id, run)]
  }

  // The members that join after a run judged new or not.
  function Kept(initialSeeds: nat, ms: seq<Member>, run: set<Point>, parent: nat, isNew: bool): seq<Member>
    requires |ms| < initialSeeds || parent < |ms|
  {
    if |ms| < initialSeeds then [Member(0, 0, run)]
    else if isNew then [Member(|ms|, ms[parent].id, run)]
    else []
  }

  // What fuzz_one leaves when the execution of the input was judged to be new or not.
  function After(initialSeeds: nat, s: State, run: set<Point>, parent: nat, isNew: bool): State
    requires |s.members| < initialSeeds || parent < |s.members|
  {
    State(s.members + Kept(initialSeeds, s.members, run, parent, isNew), s.covered + run, s.runs + [run])
  }

  // Judged rightly, it is a step of the campaign.
  lemma AfterIsNext(initialSeeds: nat, s: State, run: set<Point>, parent: nat, isNew: bool)
    requires |s.members| < initialSeeds || parent < |s.members|
    requires isNew <==> !(run <= s.covered)
    ensures Next(initialSeeds, s, run, parent, After(initialSeeds, s, run, parent, isNew))
  {
  }

  datatype Step = Step(run: set<Point>, parent: nat)

  ghost predicate Reachable(initialSeeds: nat, steps: seq<Step>, s: State)
    decreases |steps|, 1
  {
    if steps == [] then s == START
    else exists r :: Leads(initialSeeds, steps, r, s)
  }

  ghost predicate Leads(initialSeeds: nat, steps: seq<Step>, r: State, s: State)
    requires steps != []
    decreases |steps|, 0
  {
    var n := |steps| - 1;
    Reachable(initialSeeds, steps[..n], r) && Next(initialSeeds, r, steps[n].run, steps[n].parent, s)
  }

  function Union(runs: seq<set<Point>>): set<Point> {
    if runs == [] then {} else Union(runs[..|runs| - 1]) + runs[|runs| - 1]
  }

  function MemberUnion(ms: seq<Member>): set<Point> {
    if ms == [] then {} else MemberUnion(ms[..|ms| - 1]) + ms[|ms| - 1].points
  }

  // Initial seeds have id 0; every other id is the index of its member, and its parent's id is
  // smaller and names a member.
  ghost predicate Lineage(initialSeeds: nat, ms: seq<Member>) {
    forall i | 0 <= i < |ms| :: Descends(initialSeeds, ms, i)
  }

  ghost predicate Descends(initialSeeds: nat, ms: seq<Member>, i: nat)
    requires i < |ms|
  {
    if i < initialSeeds then ms[i].id == 0 && ms[i].pid == 0
    else ms[i].id == i && ms[i].pid < i && ms[ms[i].pid].id == ms[i].pid
  }

  ghost predicate Invariant(initialSeeds: nat, s: State) {
    && s.covered == Union(s.runs)
    && s.covered == MemberUnion(s.members)
    && Lineage(initialSeeds, s.members)
    && (|s.members| <= initialSeeds || |s.members| - initialSeeds <= |s.covered|)
  }

  lemma NextKeepsLineage(initialSeeds: nat, s: State, run: set<Point>, parent: nat, t: State)
    requires initialSeeds > 0 && Lineage(initialSeeds, s.members) && Next(initialSeeds, s, run, parent, t)
    ensures Lineage(initialSeeds, t.members)
  {
    forall i | 0 <= i < |t.members|
      ensures Descends(initialSeeds, t.members, i)
    {
      if i < |s.members| {
        assert Descends(initialSeeds, s.members, i);
      } else if i >= initialSeeds {
        assert Descends(initialSeeds, s.members, parent) && Descends(initialSeeds, s.members, 0);
        assert t.members[i].pid == 0 || t.members[i].pid == parent;
      }
    }
  }

  lemma NextKeepsInvariant(initialSeeds: nat, s: State, run: set<Point>, parent: nat, t: State)
    requires initialSeeds > 0 && Invariant(initialSeeds, s) && Next(initialSeeds, s, run, parent, t)
    ensures Invariant(initialSeeds, t)
  {
    NextKeepsLineage(initialSeeds, s, run, parent, t);
    hide Lineage;
    assert t.runs[..|t.runs| - 1] == s.runs;
    if |t.members| > |s.members| {
      assert t.members[..|t.members| - 1] == s.members;
      if |s.members| >= initialSeeds {
        var x :| x in run && x !in s.covered;
        Coverage.PointsGrow(s.covered, t.covered, x);
      }
    } else {
      assert t.members == s.members && t.covered == s.covered;
    }
  }

  // In every reachable state: the global coverage is the union of all executed runs and also of the
  // corpus alone, the seeds' lineage is sound, and the corpus is bounded by what is covered.
  lemma {:induction false} ReachableInvariant(initialSeeds: nat, steps: seq<Step>, s: State)
    requires initialSeeds > 0 && Reachable(initialSeeds, steps, s)
    ensures Invariant(initialSeeds, s)
  {
    if steps != [] {
      var r :| Leads(initialSeeds, steps, r, s);
      var n := |steps| - 1;
      ReachableInvariant(initialSeeds, steps[..n], r);
      NextKeepsInvariant(initialSeeds, r, steps[n].run, steps[n].parent, s);
    }
  }

  // The assertion of get_next_seed, that the corpus is not empty when no initial seed is due, holds
  // in every reachable state exactly when the initial seed count is positive.
  lemma NextSeedExists(initialSeeds: nat)
    ensures initialSeeds > 0 <==>
              forall steps, s | Reachable(initialSeeds, steps, s) && |s.members| >= initialSeeds :: s.members != []
  {
    if initialSeeds == 0 {
      assert Reachable(initialSeeds, [], START);
    }
  }

  // The ids from a member up to its oldest ancestor.
  function Ancestry(initialSeeds: nat, ms: seq<Member>, id: nat): (chain: seq<nat>)
    requires Lineage(initialSeeds, ms) && initialSeeds > 0 && id < |ms| && ms[id].id == id
    ensures chain != [] && chain[0] == id && chain[|chain| - 1] == 0
    ensures forall i | 0 < i < |chain| :: chain[i] < chain[i - 1]
  {
    assert Descends(initialSeeds, ms, id);
    if id == 0 then [0] else [id] + Ancestry(initialSeeds, ms, ms[id].pid)
  }

  // Every member descends from id 0, along strictly smaller ids.
  lemma EveryMemberDescends(initialSeeds: nat, steps: seq<Step>, s: State, i: nat)
    requires initialSeeds > 0 && Reachable(initialSeeds, steps, s) && i < |s.members|
    ensures Lineage(initialSeeds, s.members)
    ensures s.members[i].id < |s.members| && s.members[s.members[i].id].id == s.members[i].id
    ensures var chain := Ancestry(initialSeeds, s.members, s.members[i].id);
            chain[|chain| - 1] == 0 && forall k | 0 < k < |chain| :: chain[k] < chain[k - 1]
  {
    ReachableInvariant(initialSeeds, steps, s);
    assert Descends(initialSeeds, s.members, 0) && Descends(initialSeeds, s.members, i);
  }
}

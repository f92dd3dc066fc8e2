// The fuzzing loop with the SurgeFuzz coverage method, step by step: every fuzz_one takes the
// campaign from one reachable state to the next.
module Fuzzer {
  import opened Basics
  import opened SurgeScore
  import opened Instruction
  import opened Programs
  import opened Coverage
  import Campaign
  import Surge

  // One simulated cycle as the driver sees it.
  datatype Cycle = Cycle(coverage: nat, target: nat)

  function Targets(trace: seq<Cycle>): (r: seq<nat>)
    ensures |r| == |trace| && forall t | 0 <= t < |trace| :: r[t] == trace[t].target
  {
    seq(|trace|, t requires 0 <= t < |trace| => trace[t].target)
  }

  // SurgeFuzz::update_bitmap: the low four bits of the score extend the coverage signal, except for
  // COUNT annotations.
  function CoverageIndex(kind: Annotation, coverage: nat, score: nat): nat {
    if kind.Count? then coverage else coverage * 16 + score % 16
  }

  // Two cycles mark one point exactly if their coverage signals agree and, unless the annotation is
  // COUNT, so do the last four bits of their scores.
  lemma SamePoint(kind: Annotation, c: nat, score: nat, c': nat, score': nat)
    ensures CoverageIndex(kind, c, score) == CoverageIndex(kind, c', score') <==>
              c == c' && (kind.Count? || score % 16 == score' % 16)
    ensures !kind.Count? ==> CoverageIndex(kind, c, score) / 16 == c && CoverageIndex(kind, c, score) % 16 == score % 16
  {
  }

  function IndexAt(kind: Annotation, trace: seq<Cycle>, t: nat): nat
    requires t < |trace|
  {
    CoverageIndex(kind, trace[t].coverage, Scores(kind, Targets(trace))[t])
  }

  // A simulation that passes the driver's assertions and stays inside the coverage bitmap.
  ghost predicate Runs(kind: Annotation, size: nat, trace: seq<Cycle>) {
    && trace != [] && IsHistory(kind, Targets(trace))
    && forall t | 0 <= t < |trace| :: IndexAt(kind, trace, t) < size
  }

  ghost function RunPoints(kind: Annotation, trace: seq<Cycle>): set<Point> {
    set t | 0 <= t < |trace| :: Point(0, IndexAt(kind, trace, t), 0)
  }

  // The driver's coverage updates, one a cycle, into a cleared bitmap.
  method DriveCoverage(kind: Annotation, bitmap: array<bv8>, trace: seq<Cycle>)
    requires Runs(kind, bitmap.Length, trace) && forall i | 0 <= i < bitmap.Length :: bitmap[i] == 0
    modifies bitmap
    ensures BytePoints(bitmap[..]) == RunPoints(kind, trace)
  {
    hide Scores, CoverageIndex;
    for t := 0 to |trace|
      invariant forall i | 0 <= i < bitmap.Length :: bitmap[i] != 0 <==>
        exists u | 0 <= u < t :: IndexAt(kind, trace, u) == i
    {
      bitmap[IndexAt(kind, trace, t)] := 1;
    }
  }

  // ---- Corpus ----

  class Seed {
    const program: seq<BlockData>
    const id: nat
    const pid: nat
    const score: nat
    const cycle: nat
    var usedCount: nat
    ghost const points: set<Point>

    constructor (program: seq<BlockData>, id: nat, pid: nat, score: nat, cycle: nat, ghost points: set<Point>)
      ensures this.program == program && this.id == id && this.pid == pid && this.score == score && this.cycle == cycle
      ensures usedCount == 0 && this.points == points
    {
      this.program, this.id, this.pid, this.score, this.cycle := program, id, pid, score, cycle;
      this.points := points;
      usedCount := 0;
    }

    method Used()
      modifies this`usedCount
      ensures usedCount == old(usedCount) + 1
    {
      usedCount := usedCount + 1;
    }
  }

  datatype SeedId = NoSeed | SeedId(id: nat)

  // At most one seed joined, with this program, points and, unless it is an initial seed, parent.
  ghost predicate Joined(initialSeedCount: nat, seeds: seq<Seed>, more: seq<Seed>, parent: nat,
                         program: seq<BlockData>, run: set<Point>) {
    && |seeds| <= |more| <= |seeds| + 1 && more[..|seeds|] == seeds
    && forall i | |seeds| <= i < |more| ::
         && more[i].program == program && more[i].points == run
         && (|seeds| >= initialSeedCount ==> parent < |seeds| && more[i].pid == seeds[parent].id)
  }

  class Corpus {
    var corpus: seq<Seed>

    ghost function Members(): (ms: seq<Campaign.Member>)
      reads this
      ensures |ms| == |corpus|
      ensures forall i | 0 <= i < |ms| :: ms[i] == Campaign.Member(corpus[i].id, corpus[i].pid, corpus[i].points)
    {
      seq(|corpus|,
          i requires 0 <= i < |corpus| reads this => Campaign.Member(corpus[i].id, corpus[i].pid, corpus[i].points))
    }

    constructor ()
      ensures corpus == []
    {
      corpus := [];
    }

    // Any member may be drawn, with or without a power schedule. The caller must see to it that there
    // is one.
    method GetNextSeed() returns (seed: Seed, ghost index: nat)
      requires corpus != []
      ensures index < |corpus| && seed == corpus[index]
    {
      var idx := Rnd(0, |corpus|);
      seed, index := corpus[idx], idx;
    }

    // Only the first initialSeedCount inputs may come without a seed.
    method AddNewInput(program: seq<BlockData>, score: nat, cycle: nat, seedId: SeedId, ghost points: set<Point>,
                       ghost initialSeedCount: nat)
      requires seedId.NoSeed? ==> |corpus| < initialSeedCount
      modifies this
      ensures |corpus| == |old(corpus)| + 1 && corpus[..|old(corpus)|] == old(corpus) && fresh(corpus[|old(corpus)|])
      ensures var s := corpus[|old(corpus)|];
              && s.program == program && s.points == points && s.score == score && s.cycle == cycle && s.usedCount == 0
              && if seedId.SeedId? then s.id == |old(corpus)| && s.pid == seedId.id else s.id == 0 && s.pid == 0
    {
      var s;
      if seedId.SeedId? {
        s := new Seed(program, |corpus|, seedId.id, score, cycle, points);
      } else {
        s := new Seed(program, 0, 0, score, cycle, points);
      }
      corpus := corpus + [s];
    }

    // An input joins if it is new or an initial seed.
    method Keep(program: seq<BlockData>, score: nat, cycle: nat, seedId: SeedId, isNew: bool, ghost run: set<Point>,
                ghost initialSeedCount: nat, ghost parent: nat)
      requires seedId.SeedId? <==> |corpus| >= initialSeedCount
      requires seedId.SeedId? ==> parent < |corpus| && seedId.id == corpus[parent].id
      modifies this
      ensures Members() == old(Members()) + Campaign.Kept(initialSeedCount, old(Members()), run, parent, isNew)
      ensures |old(corpus)| <= |corpus| && corpus[..|old(corpus)|] == old(corpus)
      ensures forall i | |old(corpus)| <= i < |corpus| ::
        fresh(corpus[i]) && corpus[i].program == program && corpus[i].score == score && corpus[i].cycle == cycle
      ensures Joined(initialSeedCount, old(corpus), corpus, parent, program, run)
    {
      if isNew || seedId.NoSeed? {
        AddNewInput(program, score, cycle, seedId, run, initialSeedCount);
      }
    }
  }

  // ---- Where the programs of the corpus come from ----

  // After the initial seeds, every member's program is a mutation of an earlier member's, whose id is
  // the parent id kept.
  ghost predicate Bred(cfg: Config, initialSeedCount: nat, seeds: seq<Seed>) {
    forall i | initialSeedCount <= i < |seeds| :: HasParent(cfg, seeds, i)
  }

  ghost predicate HasParent(cfg: Config, seeds: seq<Seed>, i: nat)
    requires i < |seeds|
  {
    exists j | 0 <= j < i :: seeds[j].id == seeds[i].pid && Mutated(cfg, seeds[j].program, seeds[i].program)
  }

  // Every member holds an input that was executed, with the points of that execution.
  ghost predicate Executed(seeds: seq<Seed>, inputs: seq<seq<BlockData>>, runs: seq<set<Point>>) {
    |inputs| == |runs| && forall i | 0 <= i < |seeds| :: WasRun(seeds[i], inputs, runs)
  }

  ghost predicate WasRun(seed: Seed, inputs: seq<seq<BlockData>>, runs: seq<set<Point>>)
    requires |inputs| == |runs|
  {
    exists k | 0 <= k < |inputs| :: inputs[k] == seed.program && runs[k] == seed.points
  }

  lemma JoinedIsBred(cfg: Config, initialSeedCount: nat, seeds: seq<Seed>, more: seq<Seed>, parent: nat,
                     program: seq<BlockData>, run: set<Point>)
    requires Bred(cfg, initialSeedCount, seeds) && Joined(initialSeedCount, seeds, more, parent, program, run)
    requires |seeds| >= initialSeedCount ==> parent < |seeds| && Mutated(cfg, seeds[parent].program, program)
    ensures Bred(cfg, initialSeedCount, more)
  {
    hide Mutated;
    forall i | initialSeedCount <= i < |more|
      ensures HasParent(cfg, more, i)
    {
      assert forall j | 0 <= j < |seeds| :: more[j] == more[..|seeds|][j];
      if i < |seeds| {
        assert HasParent(cfg, seeds, i);
      } else {
        assert more[parent] == seeds[parent];
      }
    }
  }

  lemma JoinedIsExecuted(initialSeedCount: nat, seeds: seq<Seed>, more: seq<Seed>, parent: nat,
                         inputs: seq<seq<BlockData>>, runs: seq<set<Point>>, program: seq<BlockData>, run: set<Point>)
    requires Executed(seeds, inputs, runs) && Joined(initialSeedCount, seeds, more, parent, program, run)
    ensures Executed(more, inputs + [program], runs + [run])
  {
    forall i | 0 <= i < |more|
      ensures WasRun(more[i], inputs + [program], runs + [run])
    {
      if i < |seeds| {
        assert more[i] == more[..|seeds|][i] == seeds[i];
        var k :| 0 <= k < |inputs| && inputs[k] == seeds[i].program && runs[k] == seeds[i].points;
        assert (inputs + [program])[k] == inputs[k] && (runs + [run])[k] == runs[k];
      } else {
        assert (inputs + [program])[|inputs|] == program && (runs + [run])[|inputs|] == run;
      }
    }
  }

  // ---- The loop ----

  class Fuzzer {
    const cfg: Config
    const kind: Annotation
    const initialSeedCount: nat
    const corpus: Corpus
    const coverage: SurgeFuzz
    const surge: Surge.Surge
    ghost var runs: seq<set<Point>>
    ghost var steps: seq<Campaign.Step>
    // The programs executed, one a step.
    ghost var inputs: seq<seq<BlockData>>

    ghost function State(): Campaign.State
      reads this, corpus, coverage.bitmap
    {
      Campaign.State(corpus.Members(), BytePoints(coverage.bitmap[..]), runs)
    }

    ghost predicate Valid()
      reads this, corpus, coverage.bitmap, surge, surge.bitmap
    {
      && cfg.Valid() && coverage.Valid() && surge.Valid() && Separate()
      && Campaign.Reachable(initialSeedCount, steps, State())
      && |surge.runs| == |runs| == |steps|
      && (forall i | 0 <= i < |corpus.corpus| :: GoodProgram(cfg, corpus.corpus[i].program))
      && Bred(cfg, initialSeedCount, corpus.corpus) && Executed(corpus.corpus, inputs, runs)
    }

    // The four bitmaps are different memory.
    ghost predicate Separate() {
      && coverage.bitmap != surge.bitmap && coverage.bitmap != surge.localBitmap
      && coverage.localBitmap != surge.bitmap && coverage.localBitmap != surge.localBitmap
    }

    constructor (cfg: Config, kind: Annotation, initialSeedCount: nat, bitmapByteSize: nat)
      requires cfg.Valid()
      ensures Valid() && steps == [] && State() == Campaign.START
      ensures this.cfg == cfg && this.kind == kind && this.initialSeedCount == initialSeedCount
      ensures fresh(corpus) && fresh(coverage.bitmap) && fresh(coverage.localBitmap)
      ensures fresh(surge) && fresh(surge.bitmap) && fresh(surge.localBitmap)
      ensures coverage.bitmap.Length == bitmapByteSize
    {
      this.cfg, this.kind, this.initialSeedCount := cfg, kind, initialSeedCount;
      corpus := new Corpus();
      coverage := new SurgeFuzz(bitmapByteSize);
      surge := new Surge.Surge();
      runs, steps, inputs := [], [], [];
    }

    // The next input: a fresh program while the corpus is below the initial seed count, otherwise a
    // mutated copy of some seed's program.
    method NextInput() returns (input: seq<BlockData>, seedId: SeedId, ghost parent: nat)
      requires Valid() && initialSeedCount > 0
      modifies corpus.corpus
      ensures GoodProgram(cfg, input)
      ensures seedId.SeedId? <==> |corpus.corpus| >= initialSeedCount
      ensures seedId.SeedId? ==> parent < |corpus.corpus| && seedId.id == corpus.corpus[parent].id
      ensures seedId.SeedId? ==> Mutated(cfg, corpus.corpus[parent].program, input)
      ensures forall s | s in corpus.corpus ::
        s.usedCount == old(s.usedCount) + if seedId.SeedId? && s == corpus.corpus[parent] then 1 else 0
    {
      hide Campaign.Reachable, GoodProgram, Mutated, Surge.Surge.Valid;
      if |corpus.corpus| >= initialSeedCount {
        var seed;
        seed, parent := corpus.GetNextSeed();
        var program := new Program.Copy(seed.program);
        program.Mutate(cfg);
        input := program.Save();
        seedId := SeedId(seed.id);
        seed.Used();
      } else {
        var program := new Program(cfg);
        input := program.Save();
        seedId, parent := NoSeed, 0;
      }
    }

    // Executor::run: reset, simulate, test for new coverage, and only then merge.
    method Execute(trace: seq<Cycle>) returns (isNew: bool, score: nat)
      requires coverage.Valid() && surge.Valid() && Separate() && Runs(kind, coverage.bitmap.Length, trace)
      modifies coverage.bitmap, coverage.localBitmap, surge, surge.bitmap, surge.localBitmap
      ensures surge.Valid() && |surge.runs| == |old(surge.runs)| + 1
      ensures isNew <==> !(RunPoints(kind, trace) <= old(BytePoints(coverage.bitmap[..])))
      ensures BytePoints(coverage.bitmap[..]) == old(BytePoints(coverage.bitmap[..])) + RunPoints(kind, trace)
      ensures !kind.Count? ==> score == Min(MaxOf(Scores(kind, Targets(trace))), 255)
      ensures RunScore(kind, Targets(trace), score)
    {
      hide RunScore, BytePoints, RunPoints, IsHistory, Scores, MaxOf, IndexAt, Marked, Surge.Surge.Valid;
      coverage.Reset();
      DriveCoverage(kind, coverage.localBitmap, trace);
      ghost var local := coverage.localBitmap[..];
      score := surge.Simulate(kind, Targets(trace));
      assert coverage.localBitmap[..] == local && coverage.bitmap[..] == old(coverage.bitmap[..]);
      isNew := coverage.NewCoverage();
      coverage.Apply();
    }

    // One fuzz_one, on whatever the simulator does with the input. The results are the surge score and
    // the input executed; the step's parent is the member whose program was drawn and mutated.
    method FuzzOne(fuzzCycle: nat, trace: seq<Cycle>) returns (score: nat, input: seq<BlockData>)
      requires Valid() && initialSeedCount > 0 && Runs(kind, coverage.bitmap.Length, trace)
      modifies this, corpus, corpus.corpus, coverage.bitmap, coverage.localBitmap, surge, surge.bitmap,
          surge.localBitmap
      ensures Valid()
      ensures |steps| == |old(steps)| + 1 && steps[..|old(steps)|] == old(steps)
      ensures steps[|old(steps)|].run == RunPoints(kind, trace)
      ensures Campaign.Next(initialSeedCount, old(State()), RunPoints(kind, trace), steps[|old(steps)|].parent, State())
      ensures !kind.Count? ==> score == Min(MaxOf(Scores(kind, Targets(trace))), 255)
      ensures RunScore(kind, Targets(trace), score)
      ensures forall s | s in corpus.corpus :: s in old(corpus.corpus) || fresh(s)
      ensures |corpus.corpus| > |old(corpus.corpus)| ==>
        var s := corpus.corpus[|old(corpus.corpus)|]; s.score == score && s.cycle == fuzzCycle && s.program == input
      ensures GoodProgram(cfg, input) && inputs == old(inputs) + [input]
      ensures Joined(initialSeedCount, old(corpus.corpus), corpus.corpus, steps[|old(steps)|].parent, input,
                     RunPoints(kind, trace))
      ensures |old(corpus.corpus)| >= initialSeedCount ==>
        var parent := steps[|old(steps)|].parent;
        parent < |old(corpus.corpus)| && Mutated(cfg, old(corpus.corpus)[parent].program, input)
      ensures forall s | s in old(corpus.corpus) ::
        s.usedCount == old(s.usedCount) +
          if |old(corpus.corpus)| >= initialSeedCount && s == old(corpus.corpus)[steps[|old(steps)|].parent] then 1
          else 0
    {
      hide Campaign.Reachable, GoodProgram, Mutated, Surge.Surge.Valid, BytePoints, RunPoints, Scores, MaxOf, Runs,
           RunScore, Bred, Executed, Joined, Campaign.Kept, Separate, SurgeFuzz.Valid, Targets, Config.Valid;
      var seedId, isNew;
      ghost var parent;
      input, seedId, parent := NextInput();
      isNew, score := Execute(trace);
      ghost var points := RunPoints(kind, trace);
      corpus.Keep(input, score, fuzzCycle, seedId, isNew, points, initialSeedCount, parent);
      JoinedIsBred(cfg, initialSeedCount, old(corpus.corpus), corpus.corpus, parent, input, points);
      JoinedIsExecuted(initialSeedCount, old(corpus.corpus), corpus.corpus, parent, inputs, runs, input, points);
      runs, inputs := runs + [points], inputs + [input];
      ghost var step := Campaign.Step(points, parent);
      assert State() == Campaign.After(initialSeedCount, old(State()), points, parent, isNew);
      Campaign.AfterIsNext(initialSeedCount, old(State()), points, parent, isNew);
      hide Campaign.After, Campaign.Next;
      StepReachable(old(steps), step, old(State()), State());
      steps := steps + [step];
    }

    lemma StepReachable(steps: seq<Campaign.Step>, step: Campaign.Step, s: Campaign.State, t: Campaign.State)
      requires Campaign.Reachable(initialSeedCount, steps, s)
      requires Campaign.Next(initialSeedCount, s, step.run, step.parent, t)
      ensures Campaign.Reachable(initialSeedCount, steps + [step], t)
    {
      var more := steps + [step];
      assert more[..|more| - 1] == steps;
      assert Campaign.Leads(initialSeedCount, more, s, t);
    }

    // fuzz_loop for as many cycles as its limits allow.
    method FuzzLoop(traces: seq<seq<Cycle>>)
      requires Valid() && initialSeedCount > 0
      requires forall c | 0 <= c < |traces| :: Runs(kind, coverage.bitmap.Length, traces[c])
      modifies this, corpus, corpus.corpus, coverage.bitmap, coverage.localBitmap, surge, surge.bitmap,
          surge.localBitmap
      ensures Valid() && Campaign.Invariant(initialSeedCount, State())
      ensures Bred(cfg, initialSeedCount, corpus.corpus) && Executed(corpus.corpus, inputs, runs)
      ensures |steps| == |old(steps)| + |traces|
      ensures forall c | 0 <= c < |traces| :: steps[|old(steps)| + c].run == RunPoints(kind, traces[c])
    {
      hide Valid, RunPoints, Runs, Campaign.Next, Campaign.Invariant, Bred, Executed, Joined, RunScore, Mutated;
      for fuzzCycle := 0 to |traces|
        invariant Valid() && |steps| == |old(steps)| + fuzzCycle
        invariant forall s | s in corpus.corpus :: s in old(corpus.corpus) || fresh(s)
        invariant forall i | 0 <= i < |corpus.corpus| ::
          corpus.corpus[i] in old(corpus.corpus) || fresh(corpus.corpus[i])
        invariant forall c | 0 <= c < fuzzCycle :: steps[|old(steps)| + c].run == RunPoints(kind, traces[c])
      {
        var score, input := FuzzOne(fuzzCycle + 1, traces[fuzzCycle]);
      }
      ValidReachable();
      Campaign.ReachableInvariant(initialSeedCount, steps, State());
    }

    lemma ValidReachable()
      requires Valid()
      ensures Campaign.Reachable(initialSeedCount, steps, State())
      ensures Bred(cfg, initialSeedCount, corpus.corpus) && Executed(corpus.corpus, inputs, runs)
    {
    }
  }

  // In every reachable state: a member after the initial seeds holds a mutation of the program of the
  // member its parent id names, which for id 0 is some initial seed.
  lemma MutantsOfTheirParents(fuzzer: Fuzzer, i: nat)
    requires fuzzer.Valid() && fuzzer.initialSeedCount > 0 && fuzzer.initialSeedCount <= i < |fuzzer.corpus.corpus|
    ensures var seeds := fuzzer.corpus.corpus;
            var pid := seeds[i].pid;
            if pid == 0 then
              exists j | 0 <= j < fuzzer.initialSeedCount :: Mutated(fuzzer.cfg, seeds[j].program, seeds[i].program)
            else pid < i && seeds[pid].id == pid && Mutated(fuzzer.cfg, seeds[pid].program, seeds[i].program)
  {
    hide Mutated, Campaign.Reachable, GoodProgram, Executed;
    var seeds, count, ms := fuzzer.corpus.corpus, fuzzer.initialSeedCount, fuzzer.corpus.Members();
    assert HasParent(fuzzer.cfg, seeds, i);
    var j :| 0 <= j < i && seeds[j].id == seeds[i].pid && Mutated(fuzzer.cfg, seeds[j].program, seeds[i].program);
    Campaign.ReachableInvariant(count, fuzzer.steps, fuzzer.State());
    assert Campaign.Descends(count, ms, i) && Campaign.Descends(count, ms, j);
  }

  // n calls of Program::mutate.
  ghost predicate MutatedTimes(cfg: Config, n: nat, p: seq<BlockData>, q: seq<BlockData>) {
    if n == 0 then q == p else exists r :: MutatedTimes(cfg, n - 1, p, r) && Mutated(cfg, r, q)
  }

  // So every program of the corpus comes from an initial seed by mutation alone.
  lemma {:induction false} ProgramsDescend(cfg: Config, initialSeedCount: nat, seeds: seq<Seed>, i: nat)
    returns (j: nat, n: nat)
    requires Bred(cfg, initialSeedCount, seeds) && initialSeedCount > 0 && i < |seeds|
    ensures j < initialSeedCount && j <= i && MutatedTimes(cfg, n, seeds[j].program, seeds[i].program)
  {
    hide Mutated;
    if i < initialSeedCount {
      j, n := i, 0;
    } else {
      assert HasParent(cfg, seeds, i);
      var k :| 0 <= k < i && seeds[k].id == seeds[i].pid && Mutated(cfg, seeds[k].program, seeds[i].program);
      j, n := ProgramsDescend(cfg, initialSeedCount, seeds, k);
      n := n + 1;
    }
  }

  // The corpus never outgrows the initial seeds by more than the size of the bitmap.
  lemma CorpusBound(fuzzer: Fuzzer)
    requires fuzzer.Valid() && fuzzer.initialSeedCount > 0
    ensures |fuzzer.corpus.corpus| <= fuzzer.initialSeedCount + fuzzer.coverage.bitmap.Length
  {
    Campaign.ReachableInvariant(fuzzer.initialSeedCount, fuzzer.steps, fuzzer.State());
    BytePointsBound(fuzzer.coverage.bitmap[..]);
  }

  lemma {:induction false} BytePointsBound(b: seq<bv8>)
    ensures |BytePoints(b)| <= |b|
  {
    if b != [] {
      var n := |b| - 1;
      var front := b[..n];
      BytePointsBound(front);
      var more := BytePoints(front) + {Point(0, n, 0)};
      assert BytePoints(b) <= more;
      SubsetSize(BytePoints(b), more);
    }
  }
}

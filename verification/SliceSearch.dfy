// The backward search end to end: what a run of it has found, and when nothing cuts it short.
module SliceSearch {
  import opened Basics
  import opened Netlist
  import opened Dataflow
  import opened Circuit
  import opened DependentSearch
  import opened SliceSoundness
  import opened SearchProgress
  import opened SearchDepth

  // Equal collected bits and equal undriven signals give equal values of the signal.
  ghost predicate DeterminesSignal(net: Netlist, collected: set<Bit>, s: Sig) {
    forall rank: Bit -> nat, v: Valuation, w: Valuation |
      Acyclic(net, s, rank) && Consistent(net, v) && Consistent(net, w) && AgreeOn(collected, v, w) &&
        AgreeFree(net, v, w) ::
      Vals(v, s) == Vals(w, s)
  }

  // Equal collected bits at the start of two runs, with the same undriven signals and resets
  // throughout, give equal values of the signal in every cycle.
  ghost predicate DeterminesRuns(net: Netlist, collected: set<Bit>, s: Sig) {
    forall rank: Bit -> nat, law: Law, v: Run, w: Run, t: nat |
      && Acyclic(net, s, rank) && IsRunOf(net, law, v) && IsRunOf(net, law, w) && AgreeOn(collected, v(0), w(0))
      && SameOutside(net, s, v, w) ::
      Vals(v(t), s) == Vals(w(t), s)
  }

  ghost predicate SameOutside(net: Netlist, s: Sig, v: Run, w: Run) {
    forall i: nat :: AgreeFree(net, v(i), w(i)) && SameResets(net, s, v(i), w(i))
  }

  lemma RecordsFromFFs(net: Netlist, start: Sig, rs: seq<Record>)
    requires RecordsTrue(net, start, rs)
    ensures CollectedFromFFs(net, RecordedSigs(rs), RecordedBits(rs))
  {
    hide Drives, Path.In;
    forall b | b in RecordedBits(rs)
      ensures exists s, c ::
        s in RecordedSigs(rs) && b in s && b.Wire? && c in net.cells && c.kind.IsFF() && Drives(c, s)
    {
      var r := RecordOfBit(rs, b);
      SigOfRecord(rs, r);
      assert RecordTrue(net, start, r);
    }
  }

  lemma {:induction false} SigOfRecord(rs: seq<Record>, r: Record)
    requires r in rs
    ensures r.sig in RecordedSigs(rs)
  {
    if r != rs[|rs| - 1] {
      SigOfRecord(rs[..|rs| - 1], r);
    }
  }

  lemma CompletedDetermines(net: Netlist, start: Sig, processed: set<Sig>, visited: set<Sig>, collected: set<Bit>,
                            sigs: set<Sig>)
    requires Sliceable(net, start) && Aligned(net, start)
    requires CompletedSearch(net, start, processed, visited, collected, sigs) && CollectedFromFFs(net, sigs, collected)
    ensures DeterminesSignal(net, collected, start)
    ensures NoLatch(net, start) ==> DeterminesRuns(net, collected, start)
  {
    hide Sliceable, Aligned, CompletedSearch, CollectedFromFFs, Acyclic, Consistent, AgreeOn, AgreeFree, IsRunOf,
         SameResets, NoLatch;
    forall rank: Bit -> nat, v: Valuation, w: Valuation |
      Acyclic(net, start, rank) && Consistent(net, v) && Consistent(net, w) && AgreeOn(collected, v, w) &&
        AgreeFree(net, v, w)
      ensures Vals(v, start) == Vals(w, start)
    {
      SliceDeterminesSignal(net, start, processed, visited, collected, sigs, rank, v, w);
    }
    if NoLatch(net, start) {
      forall rank: Bit -> nat, law: Law, v: Run, w: Run, t: nat |
        && Acyclic(net, start, rank) && IsRunOf(net, law, v) && IsRunOf(net, law, w) && AgreeOn(collected, v(0), w(0))
        && SameOutside(net, start, v, w)
        ensures Vals(v(t), start) == Vals(w(t), start)
      {
        SliceDeterminesRun(net, start, processed, visited, collected, sigs, rank, law, v, w, t);
      }
    }
  }

  ghost predicate TooDeep(left: seq<State>, maxDepth: nat) { exists st | st in left :: st.depth >= maxDepth }

  // search_dependents as execute calls it. It is complete unless the bit budget is used up or it met a
  // state too deep, a memory read or a failing assertion; the last two do not occur on well-sized
  // netlists, nor the first two with large budgets. A complete search has collected registers that
  // determine the annotated signal.
  method SearchDependents(net: Netlist, startSig: Sig, maxDepth: nat, maxBit: nat) returns (search: DependentSearch)
    requires net.Valid()
    ensures fresh(search) && search.Valid() && search.net == net && search.start == net.Canon(startSig)
    ensures |search.manager.dependents| <= maxBit + 31
    ensures History(net, search.start, search.dequeued, search.queue, search.visited)
    ensures WithinDepth(search.dequeued, search.queue, search.manager.records, maxDepth)
    ensures CollectedAbove(net, search.start, maxDepth, search.manager.dependents)
    ensures search.queue == [] || |search.manager.dependents| >= maxBit || search.failed
    ensures search.queue == [] && !search.failed && !search.memoryCut ==>
      FollowedTo(net, search.start, search.dequeued, search.visited, search.manager.dependents, maxDepth)
    ensures search.Complete() ==>
      Closed(net, search.start, search.processed, search.visited, search.manager.dependents,
             search.manager.dependentPool)
    ensures search.Complete() || |search.manager.dependents| >= maxBit || Stopped(net, search.dequeued, maxDepth)
    ensures WellSized(net, search.start) ==> !search.failed && !search.memoryCut
    ensures WellSized(net, search.start) ==>
              search.Complete() || |search.manager.dependents| >= maxBit || TooDeep(search.dequeued, maxDepth)
    ensures WellSized(net, search.start) && maxDepth > |Universe(net)| && maxBit > |RegisterBits(net)| ==>
      search.Complete()
    ensures search.Complete() && Sliceable(net, search.start) && Aligned(net, search.start) ==>
              DeterminesSignal(net, search.manager.dependents, search.start)
    ensures search.Complete() && Sliceable(net, search.start) && Aligned(net, search.start) &&
            NoLatch(net, search.start) ==>
              DeterminesRuns(net, search.manager.dependents, search.start)
  {
    hide Sliceable, Aligned, WellSized, Closed, CompletedSearch, CollectedFromFFs, DeterminesSignal, DeterminesRuns,
         History, Stopped, TooDeep, Universe, RegisterBits, NoLatch, WithinDepth, CollectedAbove, FollowedTo, Spread,
         Halted;
    search := new DependentSearch(net, startSig);
    search.Run(maxDepth, maxBit);
    DepthFacts(search, maxDepth);
    if search.Complete() && Sliceable(net, search.start) && Aligned(net, search.start) {
      SearchFacts(search);
      CompletedDetermines(net, search.start, search.processed, search.visited, search.manager.dependents,
          search.manager.dependentPool);
    }
    if WellSized(net, search.start) {
      Unstopped(search, maxDepth);
      if maxBit > |RegisterBits(net)| {
        WithinBits(search);
      }
    }
  }

  lemma DepthFacts(search: DependentSearch, maxDepth: nat)
    requires search.Valid() && search.ObeysDepth(maxDepth)
    ensures WithinDepth(search.dequeued, search.queue, search.manager.records, maxDepth)
    ensures CollectedAbove(search.net, search.start, maxDepth, search.manager.dependents)
    ensures search.queue == [] && !search.failed && !search.memoryCut ==>
      FollowedTo(search.net, search.start, search.dequeued, search.visited, search.manager.dependents, maxDepth)
  {
    hide WithinDepth, CollectedAbove, FollowedTo, Spread, QueueTrue, EdgesTrue, RecordsTrue, Universe, Faithful,
         CircuitGraph.Valid, Netlist.Valid, VisitedTrue;
    RecordsAbove(search.net, search.start, search.dequeued, search.queue, search.manager.records, maxDepth);
    if search.queue == [] && !search.failed && !search.memoryCut {
      PathsFollowed(search.net, search.start, search.dequeued, search.visited, search.manager.dependents, maxDepth);
    }
  }

  lemma SearchFacts(search: DependentSearch)
    requires search.Valid()
    requires Closed(search.net, search.start, search.processed, search.visited, search.manager.dependents,
        search.manager.dependentPool)
    ensures CompletedSearch(search.net, search.start, search.processed, search.visited, search.manager.dependents,
        search.manager.dependentPool)
    ensures CollectedFromFFs(search.net, search.manager.dependentPool, search.manager.dependents)
  {
    hide Closed, CollectedFromFFs, QueueTrue, EdgesTrue, RecordsTrue, Universe, Plain, Faithful, CircuitGraph.Valid,
         Netlist.Valid, Reaches;
    RecordsFromFFs(search.net, search.start, search.manager.records);
  }

  lemma Unstopped(search: DependentSearch, maxDepth: nat)
    requires search.Valid() && WellSized(search.net, search.start)
    requires History(search.net, search.start, search.dequeued, search.queue, search.visited)
    ensures !Halted(search.net, search.dequeued)
    ensures Stopped(search.net, search.dequeued, maxDepth) ==> TooDeep(search.dequeued, maxDepth)
    ensures maxDepth > |Universe(search.net)| ==> !TooDeep(search.dequeued, maxDepth)
  {
    hide QueueTrue, EdgesTrue, RecordsTrue, Universe, Faithful, CircuitGraph.Valid, DependentManager.Valid,
         Netlist.Valid, WellSized, Travelled, Stopped, Halted, Shallow, Levels, VisitedTrue;
    NeverHalted(search.net, search.start, search.dequeued);
    if Stopped(search.net, search.dequeued, maxDepth) {
      StoppedIsTooDeep(search.net, search.start, search.dequeued, maxDepth);
    }
    if maxDepth > |Universe(search.net)| {
      DepthBound(search.net, search.start, search.dequeued, search.visited, maxDepth);
    }
  }

  lemma WithinBits(search: DependentSearch)
    requires search.Valid()
    ensures |search.manager.dependents| <= |RegisterBits(search.net)|
  {
    hide QueueTrue, EdgesTrue, RecordsTrue, Faithful, CircuitGraph.Valid, Netlist.Valid, VisitedTrue, RegisterBits;
    CollectedAreRegisters(search.net, search.start, search.manager.records);
    SubsetSize(search.manager.dependents, RegisterBits(search.net));
  }
}

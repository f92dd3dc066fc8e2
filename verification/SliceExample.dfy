// A netlist that meets every condition of the slice theorems: a register that toggles through an
// inverter. The completed search collects the register, and the netlist has a run.
module SliceExample {
  import opened Basics
  import opened Netlist
  import opened Dataflow
  import opened Circuit
  import opened DependentSearch
  import opened SliceSoundness
  import opened SearchProgress
  import opened SearchDepth
  import opened SliceSearch

  const Y0 := Wire(0, 0)
  const Q0 := Wire(1, 0)
  const INVERTER := Cell("inv", Not, map[A := [Q0], Y := [Y0]])
  const REGISTER := Cell("reg", Dff, map[D := [Y0], Q := [Q0]])
  const TOGGLE := Netlist({INVERTER, REGISTER}, map[])

  lemma OneBit(b: Bit)
    requires b.Wire?
    ensures Chunks([b]) == [[b]] && TOGGLE.Canon([b]) == [b] && Extract([b], [b]) == [b]
    ensures ExtractOffset([b], [b]) == Some(0)
  {
    assert [b][1..] == [];
    assert [b][0..1] == [b];
    assert SliceAt([b], [b], 0);
  }

  lemma WhoDrives()
    ensures Drives(INVERTER, [Y0]) && !Drives(INVERTER, [Q0]) && Drives(REGISTER, [Q0]) && !Drives(REGISTER, [Y0])
  {
    OneBit(Y0);
    OneBit(Q0);
    assert Extract([Y0], [Q0]) == [] && Extract([Q0], [Y0]) == [];
    assert INVERTER.Out() == Some([Y0]) && REGISTER.Out() == Some([Q0]);
    hide Extract, Cell.Out;
  }

  lemma ToggleValid()
    ensures TOGGLE.Valid()
  {
    assert INVERTER.name != REGISTER.name;
    PortsKnown(INVERTER);
    PortsKnown(REGISTER);
    hide CellKind.Input, CellKind.Output;
  }

  lemma PortsKnown(c: Cell)
    requires c == INVERTER || c == REGISTER
    ensures forall p | p in c.conns :: c.kind.Input(p) || c.kind.Output(p)
  {
  }

  lemma ToggleCell(c: Cell, p: Port, b: Bit)
    requires c in TOGGLE.cells && p in c.conns && c.kind.Input(p)
    requires b == if c == INVERTER then Q0 else Y0
    ensures TOGGLE.In(c, p) == [b] && Chunks(TOGGLE.In(c, p)) == [[b]] && DataflowLevel(c, p) == Some(BitLevel)
    ensures p == if c == INVERTER then A else D
  {
    OneBit(b);
    hide Chunks;
  }

  lemma ToggleSliceable()
    ensures Sliceable(TOGGLE, [Y0]) && Aligned(TOGGLE, [Y0]) && NoLatch(TOGGLE, [Y0])
  {
    hide Drives, Netlist.Valid, SliceableCell, Aligned, Reaches;
    ToggleValid();
    BitsAligned();
    CellSliceable(INVERTER, [Y0], Q0);
    CellSliceable(REGISTER, [Q0], Y0);
  }

  lemma BitsAligned()
    ensures Aligned(TOGGLE, [Y0]) && Aligned(TOGGLE, [Q0])
  {
    hide Drives;
    WhoDrives();
  }

  lemma CellSliceable(c: Cell, out: Sig, b: Bit)
    requires (c == INVERTER && out == [Y0] && b == Q0) || (c == REGISTER && out == [Q0] && b == Y0)
    ensures SliceableCell(TOGGLE, c)
  {
    hide Drives, Chunks, DataflowLevel, Netlist.In, Aligned;
    OneBit(out[0]);
    BitsAligned();
    forall p | p in c.conns && c.kind.Input(p)
      ensures SliceablePort(TOGGLE, c, p)
    {
      ToggleCell(c, p, b);
    }
  }

  function Rank(b: Bit): nat { if b == Y0 then 1 else 0 }

  lemma ToggleAcyclic()
    ensures Acyclic(TOGGLE, [Y0], Rank)
  {
    hide Reaches, Drives, Descends;
    InverterDescends();
    assert Descends(TOGGLE, REGISTER, Rank) by { RegisterDescends(); }
  }

  lemma RegisterDescends()
    ensures Descends(TOGGLE, REGISTER, Rank)
  {
  }

  lemma InverterDescends()
    ensures Descends(TOGGLE, INVERTER, Rank)
  {
    hide DataflowLevel, Netlist.In, Chunks;
    OneBit(Y0);
    OneBit(Q0);
    forall p | p in INVERTER.conns && INVERTER.kind.Input(p)
      ensures TOGGLE.In(INVERTER, p) == [Q0]
    {
      ToggleCell(INVERTER, p, Q0);
    }
  }

  // The search from Y goes through the inverter to the register, collects it, and comes back to Y.
  lemma ToggleCompleted()
    ensures CompletedSearch(TOGGLE, [Y0], {[Y0], [Q0]}, {[Y0], [Q0]}, {Q0}, {[Q0]})
    ensures CollectedFromFFs(TOGGLE, {[Q0]}, {Q0})
  {
    hide Drives, Reaches, Covered, Chunks, ExtractOffset, DataflowLevel;
    WhoDrives();
    ToggleCovered(INVERTER, [Y0], A, Q0);
    ToggleCovered(REGISTER, [Q0], D, Y0);
    ToggleReaches();
    assert Q0 in [Q0];
  }

  lemma ToggleReaches()
    ensures Reaches(TOGGLE, [Y0], [Q0]) && Reaches(TOGGLE, [Y0], [Y0])
  {
    hide StepsTo;
    StartReached(TOGGLE, [Y0]);
    ToggleStep(INVERTER, A, [Y0], Q0);
    StepReached(TOGGLE, [Y0], Origin([Y0]), INVERTER, A, [Q0]);
  }

  lemma ToggleStep(c: Cell, p: Port, s: Sig, b: Bit)
    requires (c == INVERTER && s == [Y0] && p == A && b == Q0) || (c == REGISTER && s == [Q0] && p == D && b == Y0)
    ensures StepsTo(TOGGLE, c, p, s, [b]) && SliceOf([b], s, 0) == [b]
  {
    assert c.kind.Input(p);
    hide Drives, Chunks, DataflowLevel, ExtractOffset, Netlist.In, CellKind.Input, ReachesFrom;
    WhoDrives();
    assert [b][0..1] == [b];
    ToggleCell(c, p, b);
    ToggleReach(c, p, s, b);
    assert [b] in Chunks(TOGGLE.In(c, p));
  }

  lemma ToggleReach(c: Cell, p: Port, s: Sig, b: Bit)
    requires (c == INVERTER && s == [Y0] && b == Q0) || (c == REGISTER && s == [Q0] && b == Y0)
    requires DataflowLevel(c, p) == Some(BitLevel) && SliceOf([b], s, 0) == [b]
    ensures ReachesFrom(c, p, s, [b], [b])
  {
    hide DataflowLevel, ExtractOffset;
    OneBit(s[0]);
    assert !IsConst([b]) by { assert b in [b]; }
    assert c.Out() == Some(s);
  }

  lemma ToggleCovered(c: Cell, s: Sig, p: Port, b: Bit)
    requires (c == INVERTER && s == [Y0] && p == A && b == Q0) || (c == REGISTER && s == [Q0] && p == D && b == Y0)
    ensures Covered(TOGGLE, s, {[Y0], [Q0]}, {Q0})
  {
    hide Drives, CellCovered;
    WhoDrives();
    CellIsCovered(c, s, p, b);
  }

  lemma CellIsCovered(c: Cell, s: Sig, p: Port, b: Bit)
    requires (c == INVERTER && s == [Y0] && p == A && b == Q0) || (c == REGISTER && s == [Q0] && p == D && b == Y0)
    ensures CellCovered(TOGGLE, c, s, {[Y0], [Q0]}, {Q0})
  {
    hide PortCovered, Chunks, DataflowLevel, Netlist.In;
    OnlyInput(c, p);
    hide CellKind.Input, CellKind.Output;
    ToggleCell(c, p, b);
    PortIsCovered(c, s, p, b);
  }

  lemma OnlyInput(c: Cell, p: Port)
    requires (c == INVERTER && p == A) || (c == REGISTER && p == D)
    ensures c.kind.Input(p) && forall q | q in c.conns && !c.kind.Output(q) :: q == p
  {
  }

  lemma PortIsCovered(c: Cell, s: Sig, p: Port, b: Bit)
    requires c in TOGGLE.cells && p in c.conns && Chunks(TOGGLE.In(c, p)) == [[b]] && (b == Y0 || b == Q0)
    ensures PortCovered(TOGGLE, c, p, s, {[Y0], [Q0]})
  {
    hide Chunks, Netlist.In;
  }

  // ---- The search itself ----

  lemma ToggleWellSized()
    ensures WellSized(TOGGLE, [Y0])
  {
    hide Reaches, Drives, Chunks, WellSizedCell, Netlist.CellsOn, Near, Cell.Out, CellKind.IsMemRead;
    OneBit(Y0);
    CellWellSized(INVERTER, Q0);
    CellWellSized(REGISTER, Y0);
    InverterOn();
    forall c | Near(TOGGLE, [Y0], c)
      ensures c.Out().Some? && !c.kind.IsMemRead()
    {
      NearHasOutput(c);
    }
    assert TOGGLE.CellsOn([Y0]) != {};
  }

  lemma NearHasOutput(c: Cell)
    requires Near(TOGGLE, [Y0], c)
    ensures c.Out().Some? && !c.kind.IsMemRead()
  {
    hide Reaches, Netlist.CellsOn;
    var s :| Reaches(TOGGLE, [Y0], s) && c in TOGGLE.CellsOn(s);
    OnSignal(TOGGLE, c, s);
    assert c == INVERTER || c == REGISTER;
  }

  lemma InverterOn()
    ensures INVERTER in TOGGLE.CellsOn([Y0])
  {
    OneBit(Y0);
    assert Overlap(TOGGLE.Canon(INVERTER.conns[Y]), [Y0]) by { assert Y0 in [Y0]; }
    assert CellKind.Not.Output(Y);
    hide CellKind.Input, CellKind.Output;
  }

  lemma CellWellSized(c: Cell, b: Bit)
    requires (c == INVERTER && b == Q0) || (c == REGISTER && b == Y0)
    ensures WellSizedCell(c)
  {
    hide DataflowLevel, Netlist.In, Chunks;
    forall p | p in c.conns && c.kind.Input(p)
      ensures DataflowLevel(c, p).Some?
    {
      ToggleCell(c, p, b);
    }
  }

  lemma ToggleUniverse()
    ensures |Universe(TOGGLE)| <= 2
  {
    forall s | s in Universe(TOGGLE)
      ensures s == [Y0] || s == [Q0]
    {
      InUniverse(s);
    }
    SubsetSize(Universe(TOGGLE), {[Y0], [Q0]});
  }

  lemma InUniverse(s: Sig)
    requires s in Universe(TOGGLE)
    ensures s == [Y0] || s == [Q0]
  {
    hide Chunks, Netlist.In, DataflowLevel, IsConst, CellKind.Input, TOGGLE;
    var c, p, chunk, i, j :|
      && c in TOGGLE.cells && p in c.conns && c.kind.Input(p)
      && chunk in Chunks(TOGGLE.In(c, p)) && !IsConst(chunk) && 0 <= i < j <= |chunk| && s == chunk[i..j];
    ToggleChunk(c, p, chunk);
  }

  lemma ToggleChunk(c: Cell, p: Port, chunk: Sig)
    requires c in TOGGLE.cells && p in c.conns && c.kind.Input(p) && chunk in Chunks(TOGGLE.In(c, p))
    ensures chunk == [Y0] || chunk == [Q0]
  {
    hide Chunks, Netlist.In, DataflowLevel;
    ToggleCell(c, p, if c == INVERTER then Q0 else Y0);
  }

  lemma ToggleRegisters()
    ensures RegisterBits(TOGGLE) == {Q0}
  {
    assert REGISTER.Out() == Some([Q0]) && Q0 in [Q0];
    forall b
      ensures b in RegisterBits(TOGGLE) <==> b == Q0
    {
      if b in RegisterBits(TOGGLE) {
        var c: Cell :| c in TOGGLE.cells && c.kind.IsFF() && c.Out().Some? && b in c.Out().value;
        assert c == REGISTER;
      }
      assert REGISTER in TOGGLE.cells && REGISTER.kind.IsFF();
    }
  }

  // Whatever is closed from Y holds the register.
  lemma ClosedHasRegister(processed: set<Sig>, visited: set<Sig>, collected: set<Bit>, sigs: set<Sig>)
    requires Closed(TOGGLE, [Y0], processed, visited, collected, sigs)
    ensures Q0 in collected
  {
    hide Drives, CellCovered;
    WhoDrives();
    assert CellCovered(TOGGLE, INVERTER, [Y0], visited, collected);
    InverterFollowed(visited, collected);
    assert CellCovered(TOGGLE, REGISTER, [Q0], visited, collected);
    RegisterCollected(visited, collected);
  }

  lemma InverterFollowed(visited: set<Sig>, collected: set<Bit>)
    requires CellCovered(TOGGLE, INVERTER, [Y0], visited, collected)
    ensures [Q0] in visited
  {
    ToggleCell(INVERTER, A, Q0);
    ToggleStep(INVERTER, A, [Y0], Q0);
    OneBit(Y0);
    hide Drives, Chunks, DataflowLevel, ExtractOffset, Netlist.In, StepsTo;
    assert PortCovered(TOGGLE, INVERTER, A, [Y0], visited);
    assert [Q0] in Chunks(TOGGLE.In(INVERTER, A));
    assert !IsConst([Q0]) by { assert Q0 in [Q0]; }
  }

  lemma RegisterCollected(visited: set<Sig>, collected: set<Bit>)
    requires CellCovered(TOGGLE, REGISTER, [Q0], visited, collected)
    ensures Q0 in collected
  {
    hide PortCovered;
    assert Q0 in Bits([Q0]) by { assert Q0 in [Q0]; }
  }

  // With three rounds and two bits to spend, the search is complete and has collected the register.
  method ToggleSearch(maxDepth: nat, maxBit: nat) returns (search: DependentSearch)
    requires maxDepth > 2 && maxBit > 1
    ensures fresh(search) && search.Valid() && search.net == TOGGLE && search.start == [Y0]
    ensures search.Complete() && search.manager.dependents == {Q0}
  {
    hide WellSized, Universe, RegisterBits, Sliceable, Aligned, Closed, NoLatch, DeterminesSignal, DeterminesRuns,
         Netlist.Valid, History, Stopped, TooDeep, WithinDepth, CollectedAbove, FollowedTo, DependentSearch.Valid;
    ToggleValid();
    OneBit(Y0);
    ToggleWellSized();
    ToggleUniverse();
    ToggleRegisters();
    search := SearchDependents(TOGGLE, [Y0], maxDepth, maxBit);
    ClosedHasRegister(search.processed, search.visited, search.manager.dependents, search.manager.dependentPool);
    WithinRegisters(search);
  }

  lemma WithinRegisters(search: DependentSearch)
    requires search.Valid()
    ensures search.manager.dependents <= RegisterBits(search.net)
  {
    hide QueueTrue, EdgesTrue, RecordsTrue, Faithful, CircuitGraph.Valid, Netlist.Valid, VisitedTrue, RegisterBits;
    CollectedAreRegisters(search.net, search.start, search.manager.records);
  }

  // ---- Its runs ----

  // The register takes its data bit.
  function TakeData(c: Cell, k: nat, was: bool, data: bool, en: seq<bool>, srst: seq<bool>,
                    arst: seq<bool>): bool { data }

  function Toggling(t: nat): Valuation { b => (b == Q0 && t % 2 == 1) || (b == Y0 && t % 2 == 0) }

  lemma ToggleRuns()
    ensures IsRunOf(TOGGLE, TakeData, Toggling)
  {
    hide Consistent, Clocked, Toggling;
    forall t: nat
      ensures Consistent(TOGGLE, Toggling(t)) && Clocked(TOGGLE, TakeData, Toggling(t), Toggling(t + 1))
    {
      ToggleConsistent(t);
      ToggleClocked(t);
    }
  }

  lemma ToggleConsistent(t: nat)
    ensures Consistent(TOGGLE, Toggling(t))
  {
    hide CellHolds;
    InverterHolds(t);
    assert CellHolds(TOGGLE, REGISTER, Toggling(t)) by { RegisterHolds(Toggling(t)); }
  }

  lemma RegisterHolds(v: Valuation)
    ensures CellHolds(TOGGLE, REGISTER, v)
  {
  }

  lemma InverterHolds(t: nat)
    ensures CellHolds(TOGGLE, INVERTER, Toggling(t))
  {
    OneBit(Q0);
    OneBit(Y0);
  }

  lemma ToggleClocked(t: nat)
    ensures Clocked(TOGGLE, TakeData, Toggling(t), Toggling(t + 1))
  {
    OneBit(Q0);
    OneBit(Y0);
    assert (t + 1) % 2 != t % 2;
  }

  // The theorem at work: every run whose register starts at 0 shows a 1 at Y in every other cycle.
  lemma ToggleDetermined(w: Run, t: nat)
    requires IsRunOf(TOGGLE, TakeData, w) && !w(0)(Q0)
    requires forall i: nat, b | b != Y0 && b != Q0 :: !w(i)(b)
    ensures w(t)(Y0) == (t % 2 == 0)
  {
    hide Sliceable, Aligned, Acyclic, CompletedSearch, CollectedFromFFs, IsRunOf, AgreeFree, SameResets, NoLatch;
    ToggleSliceable();
    ToggleAcyclic();
    ToggleCompleted();
    ToggleRuns();
    forall i: nat
      ensures AgreeFree(TOGGLE, Toggling(i), w(i)) && SameResets(TOGGLE, [Y0], Toggling(i), w(i))
    {
      OutsideAgrees(Toggling(i), w(i));
    }
    SliceDeterminesRun(TOGGLE, [Y0], {[Y0], [Q0]}, {[Y0], [Q0]}, {Q0}, {[Q0]}, Rank, TakeData, Toggling, w, t);
    assert Vals(w(t), [Y0])[0] == Vals(Toggling(t), [Y0])[0];
  }

  lemma OutsideAgrees(v: Valuation, w: Valuation)
    requires forall b | b != Y0 && b != Q0 :: v(b) == w(b)
    ensures AgreeFree(TOGGLE, v, w) && SameResets(TOGGLE, [Y0], v, w)
  {
    hide Free, SameReset, Reaches, Drives;
    DrivenNotFree(INVERTER, Y0);
    DrivenNotFree(REGISTER, Q0);
    NoResets(v, w);
  }

  lemma DrivenNotFree(c: Cell, b: Bit)
    requires (c == INVERTER && b == Y0) || (c == REGISTER && b == Q0)
    ensures !Free(TOGGLE, b)
  {
    OneBit(b);
    assert c.Out() == Some([b]) && b in [b];
  }

  lemma NoResets(v: Valuation, w: Valuation)
    ensures SameReset(TOGGLE, REGISTER, v, w)
  {
    assert TOGGLE.In(REGISTER, SRST) == [] && TOGGLE.In(REGISTER, ARST) == [];
    hide Netlist.In;
  }
}

// Why the slice theorems ask what they ask of a netlist: four small netlists, one for each condition,
// on which a search that nothing cuts short collects no register although the annotated signal
// depends on one.
module SliceLimits {
  import opened Basics
  import opened Netlist
  import opened Dataflow
  import opened Circuit
  import opened DependentSearch
  import opened SliceSoundness

  // The start signal alone is closed under the search with nothing collected, yet two valuations that
  // agree on all undriven signals give it different values.
  ghost predicate Misses(net: Netlist, start: Sig) {
    && net.Valid()
    && CompletedSearch(net, start, {start}, {}, {}, {}) && start != [] && start[0].Wire?
    && exists v, w ::
      Consistent(net, v) && Consistent(net, w) && AgreeFree(net, v, w) && Vals(v, start) != Vals(w, start)
  }

  const Y0 := Wire(0, 0)
  const Y1 := Wire(0, 1)

  lemma MissesIf(net: Netlist, start: Sig, k: nat, v: Valuation, w: Valuation)
    requires net.Valid() && Covered(net, start, {}, {})
    requires Consistent(net, v) && Consistent(net, w) && AgreeFree(net, v, w)
    requires k < |start| && start[0].Wire? && Val(v, start[k]) != Val(w, start[k])
    ensures Misses(net, start)
  {
    hide Consistent, AgreeFree, Covered, Netlist.Valid, Reaches;
    assert Vals(v, start)[k] != Vals(w, start)[k];
  }

  // Whatever its budgets and however far it is, a search from such a signal has collected nothing.
  lemma NothingCollected(net: Netlist, start: Sig, search: DependentSearch)
    requires Misses(net, start) && search.Valid() && search.net == net && search.start == start
    ensures search.manager.dependents == {}
  {
    hide QueueTrue, EdgesTrue, Faithful, CircuitGraph.Valid, Netlist.Valid, VisitedTrue, Consistent, AgreeFree,
         Covered, NamesNoted, RecordTrue;
    var rs := search.manager.records;
    if rs != [] {
      assert rs[0] in rs && RecordTrue(net, start, rs[0]);
      NoRecord(net, start, rs[0]);
    }
  }

  lemma NoRecord(net: Netlist, start: Sig, r: Record)
    requires net.Valid() && Covered(net, start, {}, {}) && start != [] && start[0].Wire?
    ensures !RecordTrue(net, start, r)
  {
    hide StepsTo, Drives, Netlist.Valid;
    forall p: Path | p.In(net, start)
      ensures p.sig == start
    {
      PathStays(net, start, p);
    }
    forall c | c in net.cells && c.kind.IsFF() && Drives(c, start)
      ensures |start| > 32
    {
      assert start[0] in Bits(start) by { assert start[0] in start; }
      assert CellCovered(net, c, start, {}, {});
    }
  }

  lemma {:induction false} PathStays(net: Netlist, start: Sig, p: Path)
    requires Covered(net, start, {}, {}) && p.In(net, start)
    ensures p.sig == start
  {
    hide Covered, StepsTo;
    if p.Back? {
      PathStays(net, start, p.prev);
      NoStep(net, start, p.cell, p.port, p.sig);
    }
  }

  lemma NoStep(net: Netlist, s: Sig, c: Cell, p: Port, t: Sig)
    requires Covered(net, s, {}, {})
    ensures !StepsTo(net, c, p, s, t)
  {
    hide Drives, Chunks, ChunkCovered, ReachesFrom, Netlist.In, CellKind.Output;
    if c in net.cells && Drives(c, s) && p in c.conns {
      forall chunk | chunk in Chunks(net.In(c, p))
        ensures !ReachesFrom(c, p, s, chunk, t)
      {
        if !c.kind.Output(p) {
          assert PortCovered(net, c, p, s, {});
          NothingFrom(c, p, s, chunk, t);
        } else {
          OutputIsNoInput(c, p, s, chunk, t);
        }
      }
    }
  }

  lemma NothingFrom(c: Cell, p: Port, s: Sig, chunk: Sig, t: Sig)
    requires ChunkCovered(c, p, s, chunk, {})
    ensures !ReachesFrom(c, p, s, chunk, t)
  {
    hide DataflowLevel, ExtractOffset, IsConst;
  }

  lemma OutputIsNoInput(c: Cell, p: Port, s: Sig, chunk: Sig, t: Sig)
    requires c.kind.Output(p)
    ensures !ReachesFrom(c, p, s, chunk, t)
  {
    InputIsNoOutput(c, p);
    if DataflowLevel(c, p).Some? {
      LevelNeedsInput(c, p);
    }
    hide CellKind.Input, CellKind.Output, ExtractOffset, DataflowLevel;
  }

  lemma InputIsNoOutput(c: Cell, p: Port)
    ensures !c.kind.Input(p) || !c.kind.Output(p)
  {
  }

  // ---- A signal that two cells drive together ----

  const LEFT := Cell("left", Dff, map[D := [Const(false)], Q := [Y0]])
  const RIGHT := Cell("right", Dff, map[D := [Const(false)], Q := [Y1]])
  const SPLIT := Netlist({LEFT, RIGHT}, map[])

  // Neither register drives all of Y, so the search follows none.
  lemma SplitDriverMisses()
    ensures Misses(SPLIT, [Y0, Y1])
  {
    hide Consistent, AgreeFree, Netlist.Valid, Covered, Free;
    RegistersValid(SPLIT);
    assert Covered(SPLIT, [Y0, Y1], {}, {}) by { SplitCovered(); }
    var v: Valuation := x => false;
    var w: Valuation := x => x == Y0;
    assert !Free(SPLIT, Y0) by { SplitNotFree(); }
    DifferAtDriven(SPLIT, Y0, v, w);
    RegistersConsistent(SPLIT, v);
    RegistersConsistent(SPLIT, w);
    MissesIf(SPLIT, [Y0, Y1], 0, v, w);
  }

  lemma SplitNotDriven()
    ensures !Drives(LEFT, [Y0, Y1]) && !Drives(RIGHT, [Y0, Y1])
  {
    ExtractShorter([Y0], [Y0, Y1]);
    ExtractShorter([Y1], [Y0, Y1]);
  }

  lemma SplitCovered()
    ensures Covered(SPLIT, [Y0, Y1], {}, {})
  {
    hide Drives;
    SplitNotDriven();
  }

  lemma SplitNotFree()
    ensures !Free(SPLIT, Y0)
  {
    assert SPLIT.Canon([Y0]) == [Y0] && Y0 in [Y0];
    assert LEFT.Out().value == [Y0];
  }

  lemma DifferAtDriven(net: Netlist, b: Bit, v: Valuation, w: Valuation)
    requires !Free(net, b) && forall x | x != b :: v(x) == w(x)
    ensures AgreeFree(net, v, w)
  {
  }

  lemma SplitDriverIsMissed(search: DependentSearch)
    requires search.Valid() && search.net == SPLIT && search.start == [Y0, Y1]
    ensures Misses(SPLIT, [Y0, Y1]) && search.manager.dependents == {}
  {
    hide DependentSearch.Valid, Misses;
    SplitDriverMisses();
    NothingCollected(SPLIT, [Y0, Y1], search);
  }

  // ---- A register whose output is not the canonical name of its signal ----

  const ALIAS := Wire(3, 0)
  const ALIASED_REG := Cell("reg", Dff, map[D := [Const(false)], Q := [ALIAS]])
  const ALIASED := Netlist({ALIASED_REG}, map[ALIAS := Y0])

  // The pass compares the canonical signal with the cell's output as it stands.
  lemma AliasedOutputMisses()
    ensures Misses(ALIASED, [Y0])
  {
    hide Consistent, AgreeFree, Netlist.Valid, Covered, Free;
    RegistersValid(ALIASED);
    AliasedFacts();
    var v: Valuation := x => false;
    var w: Valuation := x => x == Y0;
    DifferAtDriven(ALIASED, Y0, v, w);
    RegistersConsistent(ALIASED, v);
    RegistersConsistent(ALIASED, w);
    MissesIf(ALIASED, [Y0], 0, v, w);
  }

  lemma AliasedFacts()
    ensures Covered(ALIASED, [Y0], {}, {}) && !Free(ALIASED, Y0)
  {
    assert Extract([ALIAS], [Y0]) == [];
    assert !Drives(ALIASED_REG, [Y0]);
    assert ALIASED.Canon([ALIAS]) == [Y0] && Y0 in [Y0];
    assert ALIASED_REG.Out().value == [ALIAS];
  }

  lemma AliasedOutputIsMissed(search: DependentSearch)
    requires search.Valid() && search.net == ALIASED && search.start == [Y0]
    ensures Misses(ALIASED, [Y0]) && search.manager.dependents == {}
  {
    hide DependentSearch.Valid, Misses;
    AliasedOutputMisses();
    NothingCollected(ALIASED, [Y0], search);
  }

  // ---- A register of more than 32 bits ----

  function Bus(n: nat): (s: Sig)
    ensures |s| == n && forall i | 0 <= i < n :: s[i] == Wire(0, i)
  {
    seq(n, i requires 0 <= i < n => Wire(0, i))
  }

  function WideReg(): Cell { Cell("reg", Dff, map[D := [Const(false)], Q := Bus(33)]) }

  function Wide(): Netlist { Netlist({WideReg()}, map[]) }

  // The register drives the signal, but is too wide to be collected.
  lemma WideRegisterMisses()
    ensures Misses(Wide(), Bus(33)) && Drives(WideReg(), Bus(33))
  {
    hide Consistent, AgreeFree, Netlist.Valid, Covered, Free, Drives;
    RegistersValid(Wide());
    WideDrives();
    assert Covered(Wide(), Bus(33), {}, {}) by { ConstDataCovered(Wide(), WideReg(), Bus(33)); }
    WideNotFree();
    hide Wide, Bus, WideReg;
    var v: Valuation := x => false;
    var w: Valuation := x => x == Y0;
    DifferAtDriven(Wide(), Y0, v, w);
    WideConsistent(v);
    WideConsistent(w);
    MissesIf(Wide(), Bus(33), 0, v, w);
  }

  lemma WideConsistent(v: Valuation)
    ensures Consistent(Wide(), v)
  {
    RegistersConsistent(Wide(), v);
  }

  lemma WideDrives()
    ensures Drives(WideReg(), Bus(33))
  {
    assert Bus(33)[0..33] == Bus(33);
    ExtractSlice(Bus(33), 0, 33);
  }

  lemma WideNotFree()
    ensures !Free(Wide(), Y0)
  {
    var s := Bus(33);
    assert Wide().Canon(s) == s && s[0] == Y0 && Y0 in s;
    assert WideReg().Out().value == s;
  }

  // A register fed by a constant leaves nothing to follow.
  lemma ConstDataCovered(net: Netlist, c: Cell, s: Sig)
    requires net.cells == {c} && c.kind == Dff && c.conns.Keys == {D, Q} && c.conns[D] == [Const(false)]
    requires net.alias == map[]
    requires |s| > 32
    ensures Covered(net, s, {}, {})
  {
    hide Drives, PortCovered;
    ConstPortCovered(net, c, D, s);
  }

  lemma ConstPortCovered(net: Netlist, c: Cell, p: Port, s: Sig)
    requires net.alias == map[] && p in c.conns && c.conns[p] == [Const(false)]
    ensures PortCovered(net, c, p, s, {})
  {
    assert net.In(c, p) == [Const(false)];
    assert [Const(false)][1..] == [];
    assert Chunks([Const(false)]) == [[Const(false)]];
  }

  lemma WideRegisterIsMissed(search: DependentSearch)
    requires search.Valid() && search.net == Wide() && search.start == Bus(33)
    ensures Misses(Wide(), Bus(33)) && search.manager.dependents == {}
  {
    hide DependentSearch.Valid, Misses;
    WideRegisterMisses();
    NothingCollected(Wide(), Bus(33), search);
  }

  // ---- A bit-level port of two signal chunks ----

  // Y[1] of an inverter on {a, b}: the offset 1 of Y[1] in Y is applied to the one-bit chunks a and
  // b of the port, so the search follows neither, and the register b is missed.
  const PART_A := Wire(1, 0)
  const PART_B := Wire(2, 0)
  const INVERTER := Cell("inv", Not, map[A := [PART_A, PART_B], Y := [Y0, Y1]])
  const REGISTER := Cell("reg", Dff, map[D := [Const(false)], Q := [PART_B]])
  const PARTS := Netlist({INVERTER, REGISTER}, map[])

  lemma TwoChunkPortMisses()
    ensures Misses(PARTS, [Y1])
  {
    hide Covered, Consistent, AgreeFree, Netlist.Valid;
    PartsValid();
    PartsCovered();
    var v: Valuation := x => x == Y0 || x == Y1;
    var w: Valuation := x => x == Y0 || x == PART_B;
    PartsConsistent(v);
    PartsConsistent(w);
    PartsAgree(v, w);
    MissesIf(PARTS, [Y1], 0, v, w);
  }

  lemma PartsCovered()
    ensures Covered(PARTS, [Y1], {}, {})
  {
    hide Drives, PortCovered;
    assert !Drives(REGISTER, [Y1]) by { PartsRegister(); }
    PartsPort();
  }

  lemma PartsRegister()
    ensures !Drives(REGISTER, [Y1])
  {
    assert Extract([PART_B], [Y1]) == [];
  }

  lemma PartsPort()
    ensures PortCovered(PARTS, INVERTER, A, [Y1], {})
  {
    PartsOffset();
    PartsChunks();
    hide ExtractOffset, Chunks;
    assert PARTS.Canon([PART_A, PART_B]) == [PART_A, PART_B];
  }

  lemma PartsChunks()
    ensures Chunks([PART_A, PART_B]) == [[PART_A], [PART_B]]
  {
    assert [PART_A, PART_B][1..] == [PART_B] && [PART_B][1..] == [];
    assert Chunks([PART_B]) == [[PART_B]];
  }

  lemma PartsOffset()
    ensures ExtractOffset([Y1], [Y0, Y1]) == Some(1)
  {
    assert [Y0, Y1][1..] == [Y1] && [Y1][1..] == [];
    assert Chunks([Y1]) == [[Y1]];
    assert [Y0, Y1][1..2] == [Y1] && [Y0, Y1][0..1] == [Y0];
    ExtractSlice([Y0, Y1], 1, 2);
    assert SliceAt([Y1], [Y0, Y1], 1);
    assert !SliceAt([Y1], [Y0, Y1], 0) by { assert [Y0][0] != [Y1][0]; }
  }

  lemma PartsValid()
    ensures PARTS.Valid()
  {
    assert INVERTER.name != REGISTER.name;
    PartsKnown(INVERTER);
    PartsKnown(REGISTER);
    hide CellKind.Input, CellKind.Output;
  }

  lemma PartsKnown(c: Cell)
    requires c == INVERTER || c == REGISTER
    ensures forall p | p in c.conns :: c.kind.Input(p) || c.kind.Output(p)
  {
  }

  lemma PartsConsistent(v: Valuation)
    requires v(Y0) == !v(PART_A) && v(Y1) == !v(PART_B)
    ensures Consistent(PARTS, v)
  {
    hide CellHolds;
    PartsInverter(v);
    assert CellHolds(PARTS, REGISTER, v) by { RegisterHolds(PARTS, REGISTER, v); }
  }

  lemma RegisterHolds(net: Netlist, c: Cell, v: Valuation)
    requires c.kind == Dff
    ensures CellHolds(net, c, v)
  {
  }

  lemma PartsInverter(v: Valuation)
    requires v(Y0) == !v(PART_A) && v(Y1) == !v(PART_B)
    ensures CellHolds(PARTS, INVERTER, v)
  {
    var a := [PART_A, PART_B];
    assert PARTS.Canon(a) == a;
  }

  lemma PartsAgree(v: Valuation, w: Valuation)
    requires forall b | b != PART_B && b != Y1 :: v(b) == w(b)
    ensures AgreeFree(PARTS, v, w)
  {
    var y := [Y0, Y1];
    assert PARTS.Canon(y) == y && PARTS.Canon([PART_B]) == [PART_B];
    assert y[1] in y && [PART_B][0] in [PART_B];
    assert INVERTER.Out().value == y && REGISTER.Out().value == [PART_B];
    assert !Free(PARTS, Y1) && !Free(PARTS, PART_B);
  }

  lemma TwoChunkPortIsMissed(search: DependentSearch)
    requires search.Valid() && search.net == PARTS && search.start == [Y1]
    ensures Misses(PARTS, [Y1]) && search.manager.dependents == {}
  {
    hide DependentSearch.Valid, Misses;
    TwoChunkPortMisses();
    NothingCollected(PARTS, [Y1], search);
  }

  // ---- Netlists of plain registers ----

  lemma RegistersValid(net: Netlist)
    requires forall c | c in net.cells :: c.kind == Dff && c.conns.Keys == {D, Q}
    requires forall c, d | c in net.cells && d in net.cells && c.name == d.name :: c == d
    requires forall b | b in net.alias :: net.alias[b] !in net.alias
    ensures net.Valid()
  {
    assert Dff.Input(D) && Dff.Output(Q);
    hide CellKind.Input, CellKind.Output;
  }

  lemma RegistersConsistent(net: Netlist, v: Valuation)
    requires forall c | c in net.cells :: c.kind == Dff
    ensures Consistent(net, v)
  {
  }
}

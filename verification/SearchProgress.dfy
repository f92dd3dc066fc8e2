// When nothing stops the backward search: on netlists without memory reads whose cells and ports are
// sized as the pass asserts, only the two budgets can cut it short, and large budgets do not.
module SearchProgress {
  import opened Basics
  import opened Netlist
  import opened Dataflow
  import opened Circuit
  import opened DependentSearch
  import opened SliceSoundness

  // The cells the search looks at: those with a port on a signal of a backward path.
  ghost predicate Near(net: Netlist, start: Sig, c: Cell) { exists s :: Reaches(net, start, s) && c in net.CellsOn(s) }

  ghost predicate WellSized(net: Netlist, start: Sig) {
    && |Chunks(start)| == 1 && net.CellsOn(start) != {}
    && (forall c | Near(net, start, c) :: c.Out().Some? && !c.kind.IsMemRead())
    && (forall c | InCone(net, start, c) :: WellSizedCell(c))
  }

  // The output is a run of one wire, and the port sizes pass the assertions on data flow.
  ghost predicate WellSizedCell(c: Cell) {
    && c.Out().Some? && IsSpan(c.Out().value)
    && forall p | p in c.conns && c.kind.Input(p) :: DataflowLevel(c, p).Some?
  }

  lemma {:induction false} PathIsPlain(net: Netlist, start: Sig, p: Path)
    requires net.Valid() && Plain(net, start) && net.CellsOn(start) != {} && p.In(net, start)
    ensures Plain(net, p.sig) && net.CellsOn(p.sig) != {}
  {
    hide Plain, StepsTo, Netlist.Valid, Netlist.CellsOn;
    if p.Back? {
      PathIsPlain(net, start, p.prev);
      assert p.prev.sig != [] by { PlainNotEmpty(net, p.prev.sig); }
      StepFacts(net, p.cell, p.port, p.prev.sig, p.sig);
      OnItsPort(net, p.cell, p.port, p.sig);
    }
  }

  lemma PlainNotEmpty(net: Netlist, s: Sig)
    requires Plain(net, s)
    ensures s != [] && IsSpan(s)
  {
  }

  lemma OnItsPort(net: Netlist, c: Cell, p: Port, s: Sig)
    requires c in net.cells && p in c.conns && c.kind.Input(p) && Plain(net, s) && forall b | b in s ::
      b in net.In(c, p)
    ensures c in net.CellsOn(s)
  {
    hide CellKind.Input, CellKind.Output;
    assert s[0] in s && s[0].Wire?;
    assert Overlap(net.Canon(c.conns[p]), s);
  }

  // A span whose ends lie in another span stands in it at some offset.
  lemma SpanStands(s: Sig, out: Sig) returns (i: nat)
    requires IsSpan(s) && s != [] && IsSpan(out) && s[0] in out && s[|s| - 1] in out
    ensures SliceAt(s, out, i)
  {
    i :| 0 <= i < |out| && out[i] == s[0];
    var j :| 0 <= j < |out| && out[j] == s[|s| - 1];
    assert j == i + |s| - 1;
    forall k | 0 <= k < |s|
      ensures out[i + k] == s[k]
    {
    }
    assert out[i..i + |s|] == s;
  }

  lemma OffsetFound(s: Sig, out: Sig)
    requires IsSpan(s) && s != [] && IsSpan(out) && Extract(out, s) == s
    ensures ExtractOffset(s, out).Some?
  {
    SpanIsOneChunk(s);
    ExtractShorter(out, s);
    ExtractMember(out, s, s[0]);
    ExtractMember(out, s, s[|s| - 1]);
    hide Chunks, Extract, IsSpan, SliceAt;
    var i := SpanStands(s, out);
  }

  // No assertion fails at a signal the search reaches, and no memory read is on it.
  lemma ReachedIsFollowed(net: Netlist, start: Sig, s: Sig)
    requires net.Valid() && net.Canon(start) == start && WellSized(net, start) && Reaches(net, start, s)
    ensures !Refused(net, s) && !ReadsMemory(net, s)
  {
    hide Plain, Chunks, Netlist.CellsOn, Path.In, Netlist.Valid, WellSizedCell, Drives, RefusesCell;
    var p: Path :| p.In(net, start) && p.sig == s;
    OneChunkIsPlain(net, start);
    PathIsPlain(net, start, p);
    PlainNotEmpty(net, s);
    SpanIsOneChunk(s);
    forall c | c in net.CellsOn(s)
      ensures c.Out().Some? && !c.kind.IsMemRead() && !RefusesCell(net, c, s)
    {
      assert Near(net, start, c);
      if Drives(c, s) {
        OnSignal(net, c, s);
        assert InCone(net, start, c);
        CellFollowed(net, c, s);
      } else {
        ReaderFollowed(net, c, s);
      }
    }
  }

  lemma ReaderFollowed(net: Netlist, c: Cell, s: Sig)
    requires c.Out().Some? && !Drives(c, s)
    ensures !RefusesCell(net, c, s)
  {
  }

  lemma CellFollowed(net: Netlist, c: Cell, s: Sig)
    requires net.Valid() && c in net.cells && WellSizedCell(c) && Drives(c, s) && IsSpan(s) && s != []
    ensures !RefusesCell(net, c, s)
  {
    OffsetFound(s, c.Out().value);
    hide ExtractOffset, Chunks, DataflowLevel, Extract, IsSpan, IsConst, CellKind.Input, CellKind.Output;
  }

  // ---- Budgets ----

  // The bits that some flip-flop drives.
  ghost function RegisterBits(net: Netlist): set<Bit> {
    set c, b | c in net.cells && c.kind.IsFF() && c.Out().Some? && b in c.Out().value && b.Wire? :: b
  }

  lemma CollectedAreRegisters(net: Netlist, start: Sig, rs: seq<Record>)
    requires RecordsTrue(net, start, rs)
    ensures RecordedBits(rs) <= RegisterBits(net)
  {
    hide Path.In;
    forall b | b in RecordedBits(rs)
      ensures b in RegisterBits(net)
    {
      var r := RecordOfBit(rs, b);
      assert RecordTrue(net, start, r);
      var c: Cell :| c in net.cells && c.kind.IsFF() && Drives(c, r.sig);
      ExtractMember(c.Out().value, r.sig, b);
    }
  }

  // A search that stopped short of completion ran out of a budget.
  lemma StoppedIsTooDeep(net: Netlist, start: Sig, left: seq<State>, maxDepth: nat)
    requires net.Valid() && net.Canon(start) == start && WellSized(net, start)
    requires Travelled(net, start, left) && Stopped(net, left, maxDepth)
    ensures exists st | st in left :: st.depth >= maxDepth
  {
    hide Refused, ReadsMemory, WellSized, Netlist.Valid, Witnessed;
    var st :| st in left && StopsAt(net, st, maxDepth);
    assert HasPath(net, start, st);
    var p :| Witnessed(net, start, st, p);
    assert Reaches(net, start, st.sig) by { WitnessReaches(net, start, st, p); }
    hide Reaches;
    ReachedIsFollowed(net, start, st.sig);
  }

  lemma NeverHalted(net: Netlist, start: Sig, left: seq<State>)
    requires net.Valid() && net.Canon(start) == start && WellSized(net, start) && Travelled(net, start, left)
    ensures !Halted(net, left)
  {
    hide Refused, ReadsMemory, WellSized, Netlist.Valid, Witnessed;
    forall st | st in left
      ensures !Halts(net, st)
    {
      assert HasPath(net, start, st);
      var p :| Witnessed(net, start, st, p);
      WitnessReaches(net, start, st, p);
      ReachedIsFollowed(net, start, st.sig);
    }
  }

  lemma WitnessReaches(net: Netlist, start: Sig, st: State, p: Path)
    requires Witnessed(net, start, st, p)
    ensures Reaches(net, start, st.sig)
  {
    hide Path.In;
  }

  lemma DepthBound(net: Netlist, start: Sig, left: seq<State>, visited: set<Sig>, maxDepth: nat)
    requires Shallow(left, visited) && VisitedTrue(net, start, visited) && maxDepth > |Universe(net)|
    ensures forall st | st in left :: st.depth < maxDepth
  {
    hide Universe, Plain, Reaches;
    SubsetSize(visited, Universe(net));
  }
}

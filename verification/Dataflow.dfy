// How one backward step of the SurgeFuzz pass maps a signal at a cell's output to signals at its inputs.
module Dataflow {
  import opened Basics
  import opened Netlist

  datatype Level = All | BitLevel | NoLevel

  // get_cell_dataflow_level; None is a failed assertion (or a getPort exception).
  function DataflowLevel(c: Cell, p: Port): Option<Level> {
    if p !in c.conns || !c.kind.Input(p) then None
    else
      var w := |c.conns[p]|;
      match c.kind
      case Not | Neg => if Y in c.conns && |c.conns[Y]| == w then Some(BitLevel) else None
      case And | Or | Xor | Xnor => if Y in c.conns && |c.conns[Y]| >= w then Some(BitLevel) else None
      case ReduceAnd | ReduceOr | ReduceXor | ReduceXnor | ReduceBool =>
        if Y in c.conns && |c.conns[Y]| == 1 <= w then Some(All) else None
      case Lt | Le | Eq | Ne | Ge | Gt | LogicAnd | LogicOr | LogicNot => Some(All)
      case Add | Sub | Mul | Div | Shl | Shr | Shift | Shiftx => Some(BitLevel)
      case Mux =>
        if p == S then if w == 1 then Some(All) else None
        else if Y in c.conns && |c.conns[Y]| == w then Some(BitLevel) else None
      case Dff | Dffe | Sdff | Sdffe | Adff | Dlatch =>
        if p == D then if Q in c.conns && |c.conns[Q]| == w then Some(BitLevel) else None
        else if p == EN then Some(All)
        else Some(NoLevel)
      case _ => None
  }

  lemma LevelNeedsInput(c: Cell, p: Port)
    requires DataflowLevel(c, p).Some?
    ensures p in c.conns && c.kind.Input(p)
  {
  }

  // The driver table leads to known cells only.
  lemma OnSignal(net: Netlist, c: Cell, s: Sig)
    requires c in net.CellsOn(s)
    ensures c in net.cells && c.kind.Known()
  {
    hide Overlap, Netlist.Canon;
  }

  // A cell is a search target for s only if its output holds every bit of s.
  predicate Drives(c: Cell, s: Sig) {
    c.kind.Known() && c.Out().Some? && Extract(c.Out().value, s) == s
  }

  predicate SliceAt(s: Sig, wider: Sig, o: nat) {
    o + |s| <= |wider| && wider[o..o + |s|] == s
  }

  function FirstSlice(s: Sig, wider: Sig, offset: nat): (r: Option<nat>)
    ensures r.Some? ==> offset <= r.value && SliceAt(s, wider, r.value)
    ensures forall o: nat | offset <= o && SliceAt(s, wider, o) :: r.Some? && r.value <= o
    decreases |wider| - offset
  {
    if SliceAt(s, wider, offset) then Some(offset)
    else if offset >= |wider| then None
    else FirstSlice(s, wider, offset + 1)
  }

  // get_extract_offset: the position of s in the port it was taken from.
  function ExtractOffset(s: Sig, wider: Sig): Option<nat> {
    if |s| <= |wider| && |Chunks(s)| == 1 && Extract(wider, s) == s then FirstSlice(s, wider, 0) else None
  }

  method GetExtractOffset(s: Sig, wider: Sig) returns (r: Option<nat>)
    ensures r == ExtractOffset(s, wider)
  {
    if !(|s| <= |wider| && |Chunks(s)| == 1 && Extract(wider, s) == s) {
      return None;
    }
    for offset := 0 to |wider| - |s| + 1
      invariant FirstSlice(s, wider, 0) == FirstSlice(s, wider, offset)
    {
      if wider[offset..offset + |s|] == s {
        return Some(offset);
      }
    }
    return None;
  }

  // What a chunk at an input port contributes when the search stands on s, an output signal at
  // position offset. The offset is the one in the whole port, applied to the chunk.
  function SliceOf(chunk: Sig, s: Sig, offset: nat): Sig
    requires offset < |chunk|
  {
    chunk[offset..offset + Min(|s|, |chunk| - offset)]
  }

  // t is what one backward step from s through port p of c reaches.
  ghost predicate StepsTo(net: Netlist, c: Cell, p: Port, s: Sig, t: Sig) {
    && c in net.cells && Drives(c, s) && p in c.conns
    && exists chunk | chunk in Chunks(net.In(c, p)) :: ReachesFrom(c, p, s, chunk, t)
  }

  ghost predicate ReachesFrom(c: Cell, p: Port, s: Sig, chunk: Sig, t: Sig) {
    && !IsConst(chunk) && c.Out().Some?
    && var level := DataflowLevel(c, p);
       || (level == Some(All) && t == chunk)
       || (level == Some(BitLevel) &&
           var o := ExtractOffset(s, c.Out().value);
           o.Some? && o.value < |chunk| && t == SliceOf(chunk, s, o.value))
  }

  // A step through a bit-level port reaches at most as many bits as s has: those of one chunk at the
  // positions where s stands in the output, up to the end of the chunk.
  lemma BitStepInLine(net: Netlist, c: Cell, p: Port, s: Sig, t: Sig) returns (chunk: Sig, o: nat)
    requires StepsTo(net, c, p, s, t) && DataflowLevel(c, p) == Some(BitLevel)
    ensures c.Out().Some? && SliceAt(s, c.Out().value, o) && chunk in Chunks(net.In(c, p))
    ensures |t| <= |s| && o + |t| <= |chunk| && t == chunk[o..o + |t|] && (|t| == |s| || o + |t| == |chunk|)
  {
    hide Drives, DataflowLevel, Chunks, IsConst, Netlist.In, SliceAt;
    chunk :| chunk in Chunks(net.In(c, p)) && ReachesFrom(c, p, s, chunk, t);
    o := ExtractOffset(s, c.Out().value).value;
  }

  // A step through a port of level All reaches a whole chunk.
  lemma WholeStep(net: Netlist, c: Cell, p: Port, s: Sig, t: Sig)
    requires StepsTo(net, c, p, s, t) && DataflowLevel(c, p) == Some(All)
    ensures t in Chunks(net.In(c, p))
  {
    hide Drives, DataflowLevel, Chunks, IsConst, Netlist.In, ExtractOffset;
  }

  // Arithmetic and shifts are followed bit by bit, though a bit of their result need not depend only on
  // the bits in line with it; comparisons, reductions and selects are followed to whole chunks.
  lemma ArithmeticIsFollowed(net: Netlist, c: Cell, p: Port, s: Sig, chunk: Sig, o: nat)
    requires c in net.cells && Drives(c, s) && p in c.conns && c.kind.Input(p)
    requires c.kind.Add? || c.kind.Sub? || c.kind.Mul? || c.kind.Div? || c.kind.Shl? || c.kind.Shr? || c.kind.Shift? ||
             c.kind.Shiftx?
    requires chunk in Chunks(net.In(c, p)) && !IsConst(chunk)
    requires ExtractOffset(s, c.Out().value) == Some(o) && o < |chunk|
    ensures StepsTo(net, c, p, s, chunk[o..o + Min(|s|, |chunk| - o)])
  {
    hide Chunks, IsConst, ExtractOffset, Extract, CellKind.Input;
    assert ReachesFrom(c, p, s, chunk, chunk[o..o + Min(|s|, |chunk| - o)]);
  }

  // The search owes nothing more to this chunk.
  ghost predicate ChunkCovered(c: Cell, p: Port, s: Sig, chunk: Sig, visited: set<Sig>) {
    || IsConst(chunk)
    || chunk in visited
    || DataflowLevel(c, p) == Some(NoLevel)
    || (DataflowLevel(c, p) == Some(BitLevel) && c.Out().Some? &&
        var o := ExtractOffset(s, c.Out().value);
        o.Some? && (|chunk| <= o.value || SliceOf(chunk, s, o.value) in visited))
  }

  ghost predicate PortCovered(net: Netlist, c: Cell, p: Port, s: Sig, visited: set<Sig>) {
    forall chunk | chunk in Chunks(net.In(c, p)) :: ChunkCovered(c, p, s, chunk, visited)
  }

  // Every driver of s has been followed backwards, and s collected if a flip-flop drives it.
  ghost predicate CellCovered(net: Netlist, c: Cell, s: Sig, visited: set<Sig>, collected: set<Bit>) {
    && (c.kind.IsFF() && |s| <= 32 ==> Bits(s) <= collected)
    && forall p | p in c.conns && !c.kind.Output(p) :: PortCovered(net, c, p, s, visited)
  }

  ghost predicate Covered(net: Netlist, s: Sig, visited: set<Sig>, collected: set<Bit>) {
    forall c | c in net.cells && Drives(c, s) :: CellCovered(net, c, s, visited, collected)
  }

  // ---- Where the search stops ----

  // An assertion of the pass fails at this chunk.
  ghost predicate RefusesChunk(c: Cell, p: Port, s: Sig, chunk: Sig) {
    !IsConst(chunk) &&
    match DataflowLevel(c, p)
    case None => true
    case Some(level) => level == BitLevel && c.Out().Some? && ExtractOffset(s, c.Out().value).None?
  }

  ghost predicate RefusesPort(net: Netlist, c: Cell, p: Port, s: Sig) {
    exists chunk | chunk in Chunks(net.In(c, p)) :: RefusesChunk(c, p, s, chunk)
  }

  // The cell lacks the output the pass asks for, or drives s and has an input where an assertion fails.
  ghost predicate RefusesCell(net: Netlist, c: Cell, s: Sig) {
    c.Out().None? || (Drives(c, s) && exists p | p in c.conns && !c.kind.Output(p) :: RefusesPort(net, c, p, s))
  }

  // The pass gives up at s.
  ghost predicate Refused(net: Netlist, s: Sig) {
    |Chunks(s)| != 1 || net.CellsOn(s) == {} || exists c | c in net.CellsOn(s) :: RefusesCell(net, c, s)
  }

  ghost predicate ReadsMemory(net: Netlist, s: Sig) { exists c | c in net.CellsOn(s) :: c.kind.IsMemRead() }

  // What is covered stays covered as the search goes on.
  lemma ChunkCoveredMono(c: Cell, p: Port, s: Sig, chunk: Sig, v: set<Sig>, w: set<Sig>)
    requires ChunkCovered(c, p, s, chunk, v) && v <= w
    ensures ChunkCovered(c, p, s, chunk, w)
  {
  }

  lemma PortCoveredMono(net: Netlist, c: Cell, p: Port, s: Sig, v: set<Sig>, w: set<Sig>)
    requires PortCovered(net, c, p, s, v) && v <= w
    ensures PortCovered(net, c, p, s, w)
  {
    hide ChunkCovered;
    forall chunk | chunk in Chunks(net.In(c, p))
      ensures ChunkCovered(c, p, s, chunk, w)
    {
      ChunkCoveredMono(c, p, s, chunk, v, w);
    }
  }

  lemma CellCoveredMono(net: Netlist, c: Cell, s: Sig, v: set<Sig>, w: set<Sig>, d: set<Bit>, e: set<Bit>)
    requires CellCovered(net, c, s, v, d) && v <= w && d <= e
    ensures CellCovered(net, c, s, w, e)
  {
    hide PortCovered;
    forall p | p in c.conns && !c.kind.Output(p)
      ensures PortCovered(net, c, p, s, w)
    {
      PortCoveredMono(net, c, p, s, v, w);
    }
  }

  lemma CoveredMono(net: Netlist, s: Sig, v: set<Sig>, w: set<Sig>, d: set<Bit>, e: set<Bit>)
    requires Covered(net, s, v, d) && v <= w && d <= e
    ensures Covered(net, s, w, e)
  {
    hide CellCovered, Drives;
    forall c | c in net.cells && Drives(c, s)
      ensures CellCovered(net, c, s, w, e)
    {
      CellCoveredMono(net, c, s, v, w, d, e);
    }
  }

  // The search has reached its fixed point from start: everything reached is expanded and covered,
  // and the collected bits are those of expanded signals in the pool.
  ghost predicate Closed(net: Netlist, start: Sig, processed: set<Sig>, visited: set<Sig>, collected: set<Bit>,
                         sigs: set<Sig>) {
    && processed == visited + {start}
    && (forall s | s in processed :: Covered(net, s, visited, collected))
    && sigs <= processed
  }

  // All signals a search can ever visit: the slices of wire chunks at input ports.
  ghost function Universe(net: Netlist): set<Sig> {
    set c, p, chunk, i, j |
      && c in net.cells && p in c.conns && c.kind.Input(p)
      && chunk in Chunks(net.In(c, p)) && !IsConst(chunk) && 0 <= i < j <= |chunk| ::
      chunk[i..j]
  }

  // A backward path, from the annotated signal to the signal the search stands on.
  datatype Path = Origin(sig: Sig) | Back(prev: Path, cell: Cell, port: Port, sig: Sig)
  {
    ghost predicate In(net: Netlist, start: Sig) {
      match this
      case Origin(s) => s == start
      case Back(q, c, p, s) => q.In(net, start) && StepsTo(net, c, p, q.sig, s)
    }

    function Steps(): nat { if Origin? then 0 else prev.Steps() + 1 }

    function Registers(): nat { if Origin? then 0 else prev.Registers() + if cell.kind.IsFF() then 1 else 0 }

    predicate EntersSelect() { Back? && (prev.EntersSelect() || (cell.kind.IsMux() && port == S)) }

    // The cells the path goes through and the ports it enters them by.
    function Hops(): seq<(Cell, Port)> { if Origin? then [] else prev.Hops() + [(cell, port)] }
  }

  // What a state's counters stand for: one step a cell, one register a flip-flop on the path, and the
  // flag exactly if the path enters some multiplexer by its select.
  lemma {:induction false} PathCounts(p: Path)
    ensures p.Steps() == |p.Hops()|
    ensures p.Registers() == |FFHops(p.Hops())|
    ensures p.EntersSelect() <==> exists i | 0 <= i < |p.Hops()| :: p.Hops()[i].0.kind.IsMux() && p.Hops()[i].1 == S
  {
    if p.Back? {
      hide CellKind.IsFF, CellKind.IsMux;
      PathCounts(p.prev);
      var n := |p.prev.Hops()|;
      assert p.Hops()[n] == (p.cell, p.port) && p.Hops()[..n] == p.prev.Hops();
      assert forall i | 0 <= i < n :: p.Hops()[i] == p.prev.Hops()[i];
      var before, all := FFHops(p.prev.Hops()), FFHops(p.Hops());
      assert all == before + if p.cell.kind.IsFF() then {n} else {};
    }
  }

  function FFHops(hops: seq<(Cell, Port)>): set<nat> { set i | 0 <= i < |hops| && hops[i].0.kind.IsFF() }

  // s lies on a backward path from start.
  ghost predicate Reaches(net: Netlist, start: Sig, s: Sig) { exists p: Path :: p.In(net, start) && p.sig == s }

  lemma StartReached(net: Netlist, start: Sig)
    ensures Reaches(net, start, start)
  {
    assert Origin(start).In(net, start);
  }

  lemma StepReached(net: Netlist, start: Sig, path: Path, c: Cell, p: Port, t: Sig)
    requires path.In(net, start) && StepsTo(net, c, p, path.sig, t)
    ensures Reaches(net, start, t)
  {
    hide StepsTo;
    assert Back(path, c, p, t).In(net, start);
  }

  // What the search relies on at each step: a reached signal is a span of canonical wire bits.
  predicate Plain(net: Netlist, s: Sig) {
    IsSpan(s) && s != [] && net.Canon(s) == s
  }

  lemma OneChunkIsPlain(net: Netlist, s: Sig)
    requires net.Canon(s) == s && |Chunks(s)| == 1 && net.CellsOn(s) != {}
    ensures Plain(net, s)
  {
    var cs := Chunks(s);
    assert Flatten(cs) == cs[0] + Flatten(cs[1..]) && cs[1..] == [];
    assert cs[0] == s && cs[0] in cs;
    var c :| c in net.CellsOn(s);
    RunIsSpan(s);
  }

  lemma PlainIsWire(net: Netlist, s: Sig)
    requires Plain(net, s)
    ensures !IsConst(s)
  {
    assert s[0] in s;
  }

  lemma SliceIsSpan(s: Sig, i: nat, j: nat)
    requires IsSpan(s) && i < j <= |s|
    ensures IsSpan(s[i..j])
  {
    var t := s[i..j];
    forall k | 0 <= k < |t|
      ensures t[k].Wire? && t[k].wire == t[0].wire && t[k].offset == t[0].offset + k
    {
      assert t[k] == s[i + k] && t[0] == s[i];
    }
  }

  lemma SliceIsPlain(net: Netlist, c: Cell, p: Port, chunk: Sig, i: nat, j: nat)
    requires net.Valid() && c in net.cells && p in c.conns && c.kind.Input(p)
    requires chunk in Chunks(net.In(c, p)) && !IsConst(chunk) && i < j <= |chunk|
    ensures Plain(net, chunk[i..j]) && chunk[i..j] in Universe(net)
  {
    ChunkBits(net.In(c, p), chunk);
    RunIsSpan(chunk);
    SliceIsSpan(chunk, i, j);
    hide Chunks, IsRun, IsSpan, IsConst, CellKind.Input;
    var t := chunk[i..j];
    forall k | 0 <= k < |t|
      ensures net.Rep(t[k]) == t[k]
    {
      assert t[k] == chunk[i + k];
      assert chunk[i + k] in net.In(c, p);
    }
    assert net.Canon(t) == t;
  }

  // What a step reaches is a piece of a signal chunk at the port.
  lemma StepSlice(c: Cell, p: Port, s: Sig, chunk: Sig, t: Sig) returns (i: nat, j: nat)
    requires ReachesFrom(c, p, s, chunk, t) && chunk != [] && s != []
    ensures i < j <= |chunk| && t == chunk[i..j] && !IsConst(chunk) && DataflowLevel(c, p).Some?
  {
    hide ExtractOffset, DataflowLevel, IsConst;
    if DataflowLevel(c, p) == Some(All) {
      i, j := 0, |chunk|;
    } else {
      i := ExtractOffset(s, c.Out().value).value;
      j := i + Min(|s|, |chunk| - i);
    }
  }

  lemma StepFacts(net: Netlist, c: Cell, p: Port, s: Sig, t: Sig)
    requires net.Valid() && StepsTo(net, c, p, s, t) && s != []
    ensures c in net.cells && Drives(c, s) && p in c.conns && c.kind.Input(p)
    ensures Plain(net, t) && t in Universe(net)
    ensures forall b | b in t :: b in net.In(c, p)
  {
    hide Drives, DataflowLevel, Plain, Universe, ReachesFrom, Chunks, IsConst, Netlist.Valid, Netlist.In,
         CellKind.Input;
    var chunk :| chunk in Chunks(net.In(c, p)) && ReachesFrom(c, p, s, chunk, t);
    NotEmpty(c, p, s, chunk, t);
    var i, j := StepSlice(c, p, s, chunk, t);
    ChunkBits(net.In(c, p), chunk);
    LevelNeedsInput(c, p);
    SliceIsPlain(net, c, p, chunk, i, j);
  }

  lemma NotEmpty(c: Cell, p: Port, s: Sig, chunk: Sig, t: Sig)
    requires ReachesFrom(c, p, s, chunk, t)
    ensures chunk != []
  {
  }

  lemma SliceIsCanonical(net: Netlist, c: Cell, p: Port, chunk: Sig, s: Sig, o: nat)
    requires net.Valid() && c in net.cells && p in c.conns && c.kind.Input(p) && s != []
    requires chunk in Chunks(net.In(c, p)) && !IsConst(chunk) && o < |chunk|
    ensures net.Canon(SliceOf(chunk, s, o)) == SliceOf(chunk, s, o) && !IsConst(SliceOf(chunk, s, o))
  {
    hide Chunks, IsConst, Universe, CellKind.Input;
    SliceIsPlain(net, c, p, chunk, o, o + Min(|s|, |chunk| - o));
    PlainIsWire(net, SliceOf(chunk, s, o));
  }

  lemma {:induction false} SpanIsOneChunk(s: Sig)
    requires IsSpan(s) && s != []
    ensures Chunks(s) == [s]
  {
    if |s| > 1 {
      var t := s[1..];
      SpanIsOneChunk(t);
      assert t[0] == s[1];
      assert [s[0]] + t == s;
    } else {
      assert s[1..] == [];
      assert [s[0]] == s;
    }
  }
}

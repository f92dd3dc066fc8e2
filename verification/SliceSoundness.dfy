// What a completed backward search is for: the collected register bits, with the undriven signals,
// determine the annotated signal in every cycle and over whole runs.
module SliceSoundness {
  import opened Basics
  import opened Netlist
  import opened Dataflow

  // ---- A cell semantics for unsigned bitwise, multiplexer, reduction and comparison cells ----

  function Vals(v: Valuation, s: Sig): (r: seq<bool>)
    ensures |r| == |s| && forall i | 0 <= i < |s| :: r[i] == Val(v, s[i])
  {
    seq(|s|, i requires 0 <= i < |s| => Val(v, s[i]))
  }

  // Operands narrower than the output are extended with zeros.
  function At(a: seq<bool>, k: nat): bool { k < |a| && a[k] }

  function Number(a: seq<bool>): nat {
    if a == [] then 0 else (if a[0] then 1 else 0) + 2 * Number(a[1..])
  }

  function Parity(a: seq<bool>): bool {
    a != [] && (a[0] != Parity(a[1..]))
  }

  predicate Bitwise(k: CellKind) { k.Not? || k.And? || k.Or? || k.Xor? || k.Xnor? || k.Mux? }

  predicate Whole(k: CellKind) {
    || k.ReduceAnd? || k.ReduceOr? || k.ReduceXor? || k.ReduceXnor? || k.ReduceBool?
    || k.Lt? || k.Le? || k.Eq? || k.Ne? || k.Ge? || k.Gt? || k.LogicAnd? || k.LogicOr? || k.LogicNot?
  }

  predicate Comb(k: CellKind) { Bitwise(k) || Whole(k) }

  function BitwiseBit(k: CellKind, a: bool, b: bool, s: seq<bool>): bool
    requires Bitwise(k)
  {
    match k
    case Not => !a
    case And => a && b
    case Or => a || b
    case Xor => a != b
    case Xnor => a == b
    case Mux => if At(s, 0) then b else a
  }

  function WholeBit(k: CellKind, a: seq<bool>, b: seq<bool>): bool
    requires Whole(k)
  {
    match k
    case ReduceAnd => false !in a
    case ReduceOr | ReduceBool => true in a
    case ReduceXor => Parity(a)
    case ReduceXnor => !Parity(a)
    case Lt => Number(a) < Number(b)
    case Le => Number(a) <= Number(b)
    case Eq => Number(a) == Number(b)
    case Ne => Number(a) != Number(b)
    case Ge => Number(a) >= Number(b)
    case Gt => Number(a) > Number(b)
    case LogicAnd => true in a && true in b
    case LogicOr => true in a || true in b
    case LogicNot => true !in a
  }

  // Output bit k of a combinational cell.
  function OutputBit(kind: CellKind, a: seq<bool>, b: seq<bool>, s: seq<bool>, k: nat): bool
    requires Comb(kind)
  {
    if Bitwise(kind) then BitwiseBit(kind, At(a, k), At(b, k), s) else k == 0 && WholeBit(kind, a, b)
  }

  ghost predicate CellHolds(net: Netlist, c: Cell, v: Valuation) {
    Comb(c.kind) && c.Out().Some? ==>
      forall k | 0 <= k < |c.Out().value| ::
        Val(v, net.Rep(c.Out().value[k])) ==
        OutputBit(c.kind, Vals(v, net.In(c, A)), Vals(v, net.In(c, B)), Vals(v, net.In(c, S)), k)
  }

  ghost predicate Consistent(net: Netlist, v: Valuation) {
    forall c | c in net.cells :: CellHolds(net, c, v)
  }

  // ---- The netlists on which the search is sound ----

  // No cell drives b through the output that the pass looks at.
  ghost predicate Free(net: Netlist, b: Bit) {
    forall c | c in net.cells && c.kind.Known() && c.Out().Some? :: b !in net.Canon(c.Out().value)
  }

  // A signal is part of one cell's output, or no cell drives any of it.
  ghost predicate Aligned(net: Netlist, s: Sig) {
    (exists c | c in net.cells :: Drives(c, s)) || forall b | b in s :: Free(net, b)
  }

  // Only the first chunk of a bit-level port may be a signal: the offset the pass computes is
  // relative to the port.
  ghost predicate OneChunkPort(net: Netlist, c: Cell, p: Port) {
    DataflowLevel(c, p) == Some(BitLevel) ==>
      forall i | 0 < i < |Chunks(net.In(c, p))| :: IsConst(Chunks(net.In(c, p))[i])
  }

  // The cells that the theorems speak about: those that drive a signal on a backward path from start.
  ghost predicate InCone(net: Netlist, start: Sig, c: Cell) {
    c in net.cells && exists s :: Reaches(net, start, s) && Drives(c, s)
  }

  ghost predicate Sliceable(net: Netlist, start: Sig) {
    net.Valid() && forall c | InCone(net, start, c) :: SliceableCell(net, c)
  }

  ghost predicate SliceableCell(net: Netlist, c: Cell) {
    && (Comb(c.kind) || (c.kind.IsFF() && !c.kind.OtherFF?))
    && c.Out().Some? && net.Canon(c.Out().value) == c.Out().value
    && (c.kind.IsFF() ==> |c.Out().value| <= 32)
    && forall p | p in c.conns && c.kind.Input(p) && DataflowLevel(c, p) != Some(NoLevel) :: SliceablePort(net, c, p)
  }

  ghost predicate SliceablePort(net: Netlist, c: Cell, p: Port) {
    && OneChunkPort(net, c, p)
    && forall chunk | chunk in Chunks(net.In(c, p)) && !IsConst(chunk) :: Aligned(net, chunk)
  }

  // rank witnesses that the combinational logic of the cone has no cycle.
  ghost predicate Acyclic(net: Netlist, start: Sig, rank: Bit -> nat) {
    forall c | InCone(net, start, c) :: Descends(net, c, rank)
  }

  ghost predicate Descends(net: Netlist, c: Cell, rank: Bit -> nat) {
    Comb(c.kind) && c.Out().Some? ==>
      forall p, o, i | p in c.conns && c.kind.Input(p) && o in net.Canon(c.Out().value) && i in net.In(c, p) &&
        i.Wire? ::
        rank(i) < rank(o)
  }

  lemma {:induction false} ExtractShorter(s: Sig, pattern: Sig)
    ensures |Extract(s, pattern)| <= |s|
  {
    if s != [] {
      ExtractShorter(s[1..], pattern);
    }
  }

  // A slice of an aligned signal is aligned.
  lemma SliceAligned(net: Netlist, s: Sig, i: nat, j: nat)
    requires IsSpan(s) && i <= j <= |s| && Aligned(net, s)
    ensures Aligned(net, s[i..j])
  {
    hide Netlist.Canon;
    var t := s[i..j];
    assert forall b | b in t :: b in s;
    if c :| c in net.cells && Drives(c, s) {
      ExtractNested(c.Out().value, s, t);
      ExtractSlice(s, i, j);
      assert Drives(c, t);
    }
  }

  lemma ReachedAligned(net: Netlist, start: Sig, s: Sig)
    requires Sliceable(net, start) && Aligned(net, start) && Reaches(net, start, s)
    ensures Aligned(net, s)
  {
    hide Aligned, Drives, StepsTo, SliceableCell;
    var p: Path :| p.In(net, start) && p.sig == s;
    if p.Back? {
      assert Reaches(net, start, p.prev.sig);
      StepDriver(net, p.cell, p.port, p.prev.sig, s);
      assert InCone(net, start, p.cell);
      StepAligned(net, p.cell, p.port, p.prev.sig, s);
    }
  }

  lemma StepDriver(net: Netlist, c: Cell, p: Port, s: Sig, t: Sig)
    requires StepsTo(net, c, p, s, t)
    ensures c in net.cells && Drives(c, s)
  {
  }

  lemma StepAligned(net: Netlist, c: Cell, p: Port, s: Sig, t: Sig)
    requires SliceableCell(net, c) && StepsTo(net, c, p, s, t)
    ensures Aligned(net, t)
  {
    hide Aligned, Drives, IsSpan, Chunks, CellKind.Input, OneChunkPort, Netlist.In, IsConst, IsRun, DataflowLevel,
         ExtractOffset;
    var chunk :| chunk in Chunks(net.In(c, p)) && ReachesFrom(c, p, s, chunk, t);
    LevelNeedsInput(c, p);
    assert SliceablePort(net, c, p);
    ChunkRun(net.In(c, p), chunk);
    RunIsSpan(chunk);
    if t != chunk {
      var o := ExtractOffset(s, c.Out().value).value;
      SliceAligned(net, chunk, o, o + Min(|s|, |chunk| - o));
    }
  }

  lemma ChunkRun(s: Sig, chunk: Sig)
    requires chunk in Chunks(s)
    ensures IsRun(chunk)
  {
  }

  // ---- Agreement ----

  // v and w agree on the bits of the expanded signals whose rank is below n.
  ghost predicate AgreeBelow(processed: set<Sig>, rank: Bit -> nat, n: nat, v: Valuation, w: Valuation) {
    forall s, k | s in processed && 0 <= k < |s| && rank(s[k]) < n :: Val(v, s[k]) == Val(w, s[k])
  }

  ghost predicate AgreeOn(bits: set<Bit>, v: Valuation, w: Valuation) {
    forall b | b in bits :: v(b) == w(b)
  }

  ghost predicate AgreeFree(net: Netlist, v: Valuation, w: Valuation) {
    forall b: Bit | Free(net, b) :: v(b) == w(b)
  }

  ghost predicate RanksBelow(s: Sig, rank: Bit -> nat, n: nat) {
    forall b | b in s && b.Wire? :: rank(b) < n
  }

  // A port followed as a whole carries the same values.
  lemma WholePortAgrees(net: Netlist, c: Cell, p: Port, s: Sig, processed: set<Sig>,
                        rank: Bit -> nat, n: nat, v: Valuation, w: Valuation)
    requires PortCovered(net, c, p, s, processed)
    requires DataflowLevel(c, p) != Some(NoLevel) && DataflowLevel(c, p) != Some(BitLevel)
    requires AgreeBelow(processed, rank, n, v, w) && RanksBelow(net.In(c, p), rank, n)
    ensures Vals(v, net.In(c, p)) == Vals(w, net.In(c, p))
  {
    hide Chunks, DataflowLevel;
    var t := net.In(c, p);
    forall i | 0 <= i < |t|
      ensures Val(v, t[i]) == Val(w, t[i])
    {
      var chunk := ChunkOf(t, i);
      assert ChunkCovered(c, p, s, chunk, processed);
      if !IsConst(chunk) {
        var k :| 0 <= k < |chunk| && chunk[k] == t[i];
      }
    }
  }

  // The first chunk of a port is its beginning.
  lemma FirstChunk(s: Sig)
    requires s != []
    ensures Chunks(s) != [] && Chunks(s)[0] != [] && |Chunks(s)[0]| <= |s| && s[..|Chunks(s)[0]|] == Chunks(s)[0]
    ensures s[|Chunks(s)[0]|..] == Flatten(Chunks(s)[1..])
  {
    var cs := Chunks(s);
    assert Flatten(cs) == cs[0] + Flatten(cs[1..]);
    assert cs[0] in cs;
  }

  // Bit j of a bit-level port agrees, when s holds bit j of the output at index k.
  lemma BitPortAgrees(net: Netlist, c: Cell, p: Port, s: Sig, k: nat, j: nat, processed: set<Sig>,
                      rank: Bit -> nat, n: nat, v: Valuation, w: Valuation)
    requires PortCovered(net, c, p, s, processed) && OneChunkPort(net, c, p)
    requires DataflowLevel(c, p) != Some(NoLevel)
    requires c.Out().Some? && k < |s|
    requires var o := ExtractOffset(s, c.Out().value); o.Some? ==> j == o.value + k
    requires AgreeBelow(processed, rank, n, v, w) && RanksBelow(net.In(c, p), rank, n)
    ensures At(Vals(v, net.In(c, p)), j) == At(Vals(w, net.In(c, p)), j)
  {
    hide DataflowLevel, ExtractOffset, Chunks;
    var t := net.In(c, p);
    if DataflowLevel(c, p) != Some(BitLevel) {
      WholePortAgrees(net, c, p, s, processed, rank, n, v, w);
    } else if j < |t| {
      FirstChunk(t);
      var chunk := Chunks(t)[0];
      assert ChunkCovered(c, p, s, chunk, processed);
      if j >= |chunk| {
        FlattenConst(Chunks(t)[1..]);
        assert t[j] == t[|chunk|..][j - |chunk|];
      } else {
        assert t[j] == t[..|chunk|][j] == chunk[j];
        assert t[j] in t;
        ChunkBitAgrees(c, p, s, k, j, chunk, processed, rank, n, v, w);
      }
    }
  }

  lemma ChunkBitAgrees(c: Cell, p: Port, s: Sig, k: nat, j: nat, chunk: Sig, processed: set<Sig>,
                       rank: Bit -> nat, n: nat, v: Valuation, w: Valuation)
    requires ChunkCovered(c, p, s, chunk, processed) && DataflowLevel(c, p) == Some(BitLevel)
    requires j < |chunk| && k < |s| && c.Out().Some?
    requires var o := ExtractOffset(s, c.Out().value); o.Some? ==> j == o.value + k
    requires AgreeBelow(processed, rank, n, v, w) && (chunk[j].Wire? ==> rank(chunk[j]) < n)
    ensures Val(v, chunk[j]) == Val(w, chunk[j])
  {
    hide DataflowLevel, ExtractOffset;
    if chunk[j].Wire? && chunk !in processed {
      assert chunk[j] in chunk;
      var o := ExtractOffset(s, c.Out().value).value;
      assert SliceOf(chunk, s, o)[k] == chunk[j];
    }
  }

  // The driver of s determines bit k of s from ports that agree.
  lemma DriverAgrees(net: Netlist, c: Cell, s: Sig, k: nat, processed: set<Sig>, collected: set<Bit>,
                     rank: Bit -> nat, v: Valuation, w: Valuation)
    requires net.Valid() && SliceableCell(net, c) && Descends(net, c, rank) && Consistent(net, v) && Consistent(net, w)
    requires c in net.cells && Drives(c, s) && k < |s| && s[k].Wire?
    requires CellCovered(net, c, s, processed, collected) && AgreeOn(collected, v, w)
    requires AgreeBelow(processed, rank, rank(s[k]), v, w)
    ensures v(s[k]) == w(s[k])
  {
    hide PortCovered, OneChunkPort, DataflowLevel, Aligned, ExtractOffset, Chunks;
    var out := c.Out().value;
    ExtractShorter(out, s);
    if c.kind.IsFF() {
      assert s[k] in Bits(s);
    } else {
      var j := OutputIndex(c, s, k);
      assert net.Canon(out)[j] == net.Rep(out[j]) == s[k];
      assert CellHolds(net, c, v) && CellHolds(net, c, w);
      CombAgrees(net, c, s, k, j, processed, collected, rank, v, w);
    }
  }

  lemma OutputIndex(c: Cell, s: Sig, k: nat) returns (j: nat)
    requires Drives(c, s) && k < |s|
    ensures j < |c.Out().value| && c.Out().value[j] == s[k]
    ensures var o := ExtractOffset(s, c.Out().value); o.Some? ==> j == o.value + k
  {
    var out := c.Out().value;
    var o := ExtractOffset(s, out);
    if o.Some? {
      j := o.value + k;
      assert SliceAt(s, out, o.value);
      assert out[o.value..o.value + |s|][k] == s[k];
    } else {
      ExtractMember(out, s, s[k]);
      j :| 0 <= j < |out| && out[j] == s[k];
    }
  }

  lemma CombAgrees(net: Netlist, c: Cell, s: Sig, k: nat, j: nat, processed: set<Sig>, collected: set<Bit>,
                   rank: Bit -> nat, v: Valuation, w: Valuation)
    requires net.Valid() && SliceableCell(net, c) && Descends(net, c, rank) && c in net.cells && Comb(c.kind)
    requires Drives(c, s)
    requires k < |s| && j < |c.Out().value| && c.Out().value[j] == s[k]
    requires var o := ExtractOffset(s, c.Out().value); o.Some? ==> j == o.value + k
    requires CellCovered(net, c, s, processed, collected) && AgreeBelow(processed, rank, rank(s[k]), v, w)
    ensures OutputBit(c.kind, Vals(v, net.In(c, A)), Vals(v, net.In(c, B)), Vals(v, net.In(c, S)), j)
         == OutputBit(c.kind, Vals(w, net.In(c, A)), Vals(w, net.In(c, B)), Vals(w, net.In(c, S)), j)
  {
    assert c.Out().Some?;
    hide PortCovered, OneChunkPort, AgreeBelow, Netlist.Valid, SliceableCell, Descends, DataflowLevel, Drives,
         ExtractOffset, CellCovered, RanksBelow;
    hide BitwiseBit, WholeBit, Netlist.In, Vals;
    var n := rank(s[k]);
    forall p | (p == A || p == B || (p == S && c.kind.Mux?)) && p in c.conns
      ensures At(Vals(v, net.In(c, p)), j) == At(Vals(w, net.In(c, p)), j)
      ensures Whole(c.kind) || p == S ==> Vals(v, net.In(c, p)) == Vals(w, net.In(c, p))
    {
      CombLevels(c, p);
      PortFacts(net, c, s, j, p, processed, collected, rank);
      if Whole(c.kind) || p == S {
        WholePortAgrees(net, c, p, s, processed, rank, n, v, w);
      } else {
        BitPortAgrees(net, c, p, s, k, j, processed, rank, n, v, w);
      }
    }
    forall p | p !in c.conns
      ensures Vals(v, net.In(c, p)) == Vals(w, net.In(c, p))
    {
      NoPortNoValue(net, c, p, v, w);
    }
    Congruence(net, c, v, w, j);
  }

  lemma NoPortNoValue(net: Netlist, c: Cell, p: Port, v: Valuation, w: Valuation)
    requires p !in c.conns
    ensures Vals(v, net.In(c, p)) == Vals(w, net.In(c, p))
  {
  }

  lemma CombLevels(c: Cell, p: Port)
    requires Comb(c.kind) && (p == A || p == B || (p == S && c.kind.Mux?))
    ensures DataflowLevel(c, p) != Some(NoLevel)
    ensures Whole(c.kind) || p == S ==> DataflowLevel(c, p) != Some(BitLevel)
  {
  }

  lemma Congruence(net: Netlist, c: Cell, v: Valuation, w: Valuation, j: nat)
    requires Comb(c.kind)
    requires forall p | p == A || p == B :: At(Vals(v, net.In(c, p)), j) == At(Vals(w, net.In(c, p)), j)
    requires Whole(c.kind) ==> forall p | p == A || p == B :: Vals(v, net.In(c, p)) == Vals(w, net.In(c, p))
    requires c.kind.Mux? ==> Vals(v, net.In(c, S)) == Vals(w, net.In(c, S))
    ensures OutputBit(c.kind, Vals(v, net.In(c, A)), Vals(v, net.In(c, B)), Vals(v, net.In(c, S)), j)
         == OutputBit(c.kind, Vals(w, net.In(c, A)), Vals(w, net.In(c, B)), Vals(w, net.In(c, S)), j)
  {
    hide Vals, Netlist.In, At;
  }

  lemma PortFacts(net: Netlist, c: Cell, s: Sig, j: nat, p: Port, processed: set<Sig>, collected: set<Bit>,
                  rank: Bit -> nat)
    requires net.Valid() && SliceableCell(net, c) && Descends(net, c, rank) && c in net.cells && Comb(c.kind)
    requires j < |c.Out().value| && p in c.conns && (p == A || p == B || p == S) && DataflowLevel(c, p) != Some(NoLevel)
    requires CellCovered(net, c, s, processed, collected)
    ensures PortCovered(net, c, p, s, processed) && OneChunkPort(net, c, p)
    ensures RanksBelow(net.In(c, p), rank, rank(c.Out().value[j]))
  {
    hide PortCovered, OneChunkPort, Aligned, DataflowLevel;
    assert c.kind.Input(p) || c.kind.Output(p);
    assert c.kind.Input(p);
    assert SliceablePort(net, c, p);
    var out := c.Out().value;
    assert net.Canon(out)[j] == out[j];
  }

  // ---- One cycle ----

  // s is expanded, and its drivers, if any, meet the conditions.
  ghost predicate Settled(net: Netlist, s: Sig, processed: set<Sig>, collected: set<Bit>, rank: Bit -> nat) {
    && Covered(net, s, processed, collected) && Aligned(net, s)
    && forall c | c in net.cells && Drives(c, s) :: SliceableCell(net, c) && Descends(net, c, rank)
  }

  // Everything the search expanded is determined, rank by rank.
  lemma {:induction false} AgreeUpTo(net: Netlist, processed: set<Sig>, collected: set<Bit>,
                                     rank: Bit -> nat, n: nat, v: Valuation, w: Valuation)
    requires net.Valid() && Consistent(net, v) && Consistent(net, w)
    requires forall s | s in processed :: Settled(net, s, processed, collected, rank)
    requires AgreeOn(collected, v, w) && AgreeFree(net, v, w)
    ensures AgreeBelow(processed, rank, n, v, w)
  {
    hide Settled, Consistent, Free, Netlist.Valid;
    if n > 0 {
      AgreeUpTo(net, processed, collected, rank, n - 1, v, w);
      forall s: Sig, k | s in processed && 0 <= k < |s| && rank(s[k]) == n - 1
        ensures Val(v, s[k]) == Val(w, s[k])
      {
        if s[k].Wire? {
          AlignedAgrees(net, s, k, processed, collected, rank, v, w);
        }
      }
    }
  }

  lemma AlignedAgrees(net: Netlist, s: Sig, k: nat, processed: set<Sig>, collected: set<Bit>,
                      rank: Bit -> nat, v: Valuation, w: Valuation)
    requires net.Valid() && Consistent(net, v) && Consistent(net, w)
    requires Settled(net, s, processed, collected, rank) && k < |s| && s[k].Wire?
    requires AgreeOn(collected, v, w) && AgreeFree(net, v, w)
    requires AgreeBelow(processed, rank, rank(s[k]), v, w)
    ensures v(s[k]) == w(s[k])
  {
    hide Drives, CellCovered, Free, SliceableCell, Descends, Consistent, Netlist.Valid;
    if c :| c in net.cells && Drives(c, s) {
      DriverAgrees(net, c, s, k, processed, collected, rank, v, w);
    } else {
      assert Free(net, s[k]);
    }
  }

  // The set-up shared by the two theorems: a completed search on a sliceable netlist.
  ghost predicate CompletedSearch(net: Netlist, start: Sig, processed: set<Sig>, visited: set<Sig>,
                                  collected: set<Bit>, sigs: set<Sig>) {
    && Closed(net, start, processed, visited, collected, sigs)
    && forall s | s in visited :: Reaches(net, start, s)
  }

  lemma ExpandedFacts(net: Netlist, start: Sig, processed: set<Sig>, visited: set<Sig>, collected: set<Bit>,
                      sigs: set<Sig>, rank: Bit -> nat)
    requires Sliceable(net, start) && Aligned(net, start) && Acyclic(net, start, rank)
    requires CompletedSearch(net, start, processed, visited, collected, sigs)
    ensures forall s | s in processed :: Reaches(net, start, s) && Settled(net, s, processed, collected, rank)
  {
    hide Covered, Aligned, Drives, SliceableCell, Descends, Reaches, Netlist.Valid;
    forall s | s in processed
      ensures Reaches(net, start, s) && Settled(net, s, processed, collected, rank)
    {
      CoveredMono(net, s, visited, processed, collected, collected);
      if s == start {
        StartReached(net, start);
      }
      ReachedAligned(net, start, s);
      forall c | c in net.cells && Drives(c, s)
        ensures SliceableCell(net, c) && Descends(net, c, rank)
      {
        assert InCone(net, start, c);
      }
    }
  }

  // Two valuations of the netlist that agree on the collected register bits and on the undriven
  // signals give the annotated signal the same value.
  lemma SliceDeterminesSignal(net: Netlist, start: Sig, processed: set<Sig>, visited: set<Sig>, collected: set<Bit>,
                              sigs: set<Sig>, rank: Bit -> nat, v: Valuation, w: Valuation)
    requires Sliceable(net, start) && Aligned(net, start) && Acyclic(net, start, rank)
    requires CompletedSearch(net, start, processed, visited, collected, sigs)
    requires Consistent(net, v) && Consistent(net, w) && AgreeOn(collected, v, w) && AgreeFree(net, v, w)
    ensures forall s | s in processed :: Vals(v, s) == Vals(w, s)
    ensures Vals(v, start) == Vals(w, start)
  {
    hide Settled, Reaches, Covered, Aligned, InCone, Acyclic, Consistent, Free;
    ExpandedFacts(net, start, processed, visited, collected, sigs, rank);
    forall s | s in processed
      ensures Vals(v, s) == Vals(w, s)
    {
      forall k | 0 <= k < |s|
        ensures Val(v, s[k]) == Val(w, s[k])
      {
        AgreeUpTo(net, processed, collected, rank, rank(s[k]) + 1, v, w);
      }
    }
  }

  // ---- Whole runs ----

  // A run gives a valuation for every cycle.
  type Run = nat -> Valuation

  // How a flip-flop bit gets its next value: any function of the cell, the bit's position, its own
  // value, its data bit and the cell's enable and reset inputs.
  type Law = (Cell, nat, bool, bool, seq<bool>, seq<bool>, seq<bool>) -> bool

  function NextBit(net: Netlist, law: Law, c: Cell, k: nat, v: Valuation): bool
    requires c.Out().Some? && k < |c.Out().value|
  {
    law(c, k, Val(v, net.Rep(c.Out().value[k])), At(Vals(v, net.In(c, D)), k), Vals(v, net.In(c, EN)),
        Vals(v, net.In(c, SRST)), Vals(v, net.In(c, ARST)))
  }

  ghost predicate Clocked(net: Netlist, law: Law, v: Valuation, next: Valuation) {
    forall c, k | c in net.cells && c.kind.IsFF() && c.Out().Some? && 0 <= k < |c.Out().value| ::
      Val(next, net.Rep(c.Out().value[k])) == NextBit(net, law, c, k, v)
  }

  ghost predicate IsRunOf(net: Netlist, law: Law, run: Run) {
    forall t: nat :: Consistent(net, run(t)) && Clocked(net, law, run(t), run(t + 1))
  }

  // The search does not follow resets, so a run comparison takes them as given.
  ghost predicate SameResets(net: Netlist, start: Sig, v: Valuation, w: Valuation) {
    forall c | InCone(net, start, c) && c.kind.IsFF() :: SameReset(net, c, v, w)
  }

  ghost predicate SameReset(net: Netlist, c: Cell, v: Valuation, w: Valuation) {
    Vals(v, net.In(c, SRST)) == Vals(w, net.In(c, SRST)) && Vals(v, net.In(c, ARST)) == Vals(w, net.In(c, ARST))
  }

  // A latch is transparent while it is enabled, so its output is no state of its own.
  ghost predicate NoLatch(net: Netlist, start: Sig) { forall c | InCone(net, start, c) :: !c.kind.Dlatch? }

  // Every collected bit belongs to an expanded signal that a flip-flop drives.
  ghost predicate CollectedFromFFs(net: Netlist, sigs: set<Sig>, collected: set<Bit>) {
    forall b | b in collected :: exists s, c ::
      s in sigs && b in s && b.Wire? && c in net.cells && c.kind.IsFF() && Drives(c, s)
  }

  // One clock edge keeps the agreement on the collected bits.
  lemma NextBitAgrees(net: Netlist, c: Cell, s: Sig, k: nat, law: Law, processed: set<Sig>, collected: set<Bit>,
                      v: Valuation, w: Valuation, v': Valuation, w': Valuation)
    requires net.Valid() && SliceableCell(net, c) && c in net.cells && c.kind.IsFF() && !c.kind.Dlatch? && Drives(c, s)
    requires k < |s| && s[k].Wire? && CellCovered(net, c, s, processed, collected)
    requires forall t | t in processed :: Vals(v, t) == Vals(w, t)
    requires Vals(v, s) == Vals(w, s) && SameReset(net, c, v, w)
    requires Clocked(net, law, v, v') && Clocked(net, law, w, w')
    ensures v'(s[k]) == w'(s[k])
  {
    hide PortCovered, OneChunkPort, CellCovered, DataflowLevel, Aligned, ExtractOffset, Chunks, Drives,
         Netlist.Valid, SliceableCell;
    hide AgreeBelow, Netlist.In;
    var j := OutputIndex(c, s, k);
    CanonicalOut(net, c);
    var out := c.Out().value;
    assert net.Canon(out)[j] == net.Rep(out[j]) == s[k];
    assert Vals(v, s)[k] == Vals(w, s)[k];
    var rank: Bit -> nat := _ => 0;
    AgreeAll(processed, rank, v, w);
    assert RanksBelow(net.In(c, D), rank, 1) && RanksBelow(net.In(c, EN), rank, 1);
    if D in c.conns {
      FFPort(net, c, D, s, processed, collected);
      BitPortAgrees(net, c, D, s, k, j, processed, rank, 1, v, w);
    } else {
      NoPortNoValue(net, c, D, v, w);
    }
    if EN in c.conns {
      FFPort(net, c, EN, s, processed, collected);
      WholePortAgrees(net, c, EN, s, processed, rank, 1, v, w);
    } else {
      NoPortNoValue(net, c, EN, v, w);
    }
  }

  lemma CanonicalOut(net: Netlist, c: Cell)
    requires SliceableCell(net, c)
    ensures c.Out().Some? && net.Canon(c.Out().value) == c.Out().value && !c.kind.OtherFF?
  {
  }

  lemma AgreeAll(processed: set<Sig>, rank: Bit -> nat, v: Valuation, w: Valuation)
    requires forall t | t in processed :: Vals(v, t) == Vals(w, t)
    ensures AgreeBelow(processed, rank, 1, v, w)
  {
    forall t: Sig, i | t in processed && 0 <= i < |t| && rank(t[i]) < 1
      ensures Val(v, t[i]) == Val(w, t[i])
    {
      assert Vals(v, t)[i] == Vals(w, t)[i];
    }
  }

  lemma FFPort(net: Netlist, c: Cell, p: Port, s: Sig, processed: set<Sig>, collected: set<Bit>)
    requires net.Valid() && SliceableCell(net, c)
    requires c in net.cells && c.kind.IsFF() && p in c.conns && (p == D || p == EN)
    requires CellCovered(net, c, s, processed, collected)
    ensures PortCovered(net, c, p, s, processed) && OneChunkPort(net, c, p)
    ensures DataflowLevel(c, p) != Some(NoLevel) && (p == EN ==> DataflowLevel(c, p) != Some(BitLevel))
  {
    hide PortCovered, OneChunkPort, Aligned;
    assert c.kind.Input(p) || c.kind.Output(p);
    FFLevels(c, p);
    assert SliceablePort(net, c, p);
  }

  lemma FFLevels(c: Cell, p: Port)
    requires c.kind.IsFF() && !c.kind.OtherFF? && (p == D || p == EN)
    ensures DataflowLevel(c, p) != Some(NoLevel) && (p == EN ==> DataflowLevel(c, p) != Some(BitLevel))
  {
  }

  // Two runs that start with equal collected bits, and see the same undriven signals and resets in
  // every cycle, show the same annotated signal in every cycle.
  lemma {:induction false} SliceDeterminesRun(net: Netlist, start: Sig, processed: set<Sig>, visited: set<Sig>,
                                              collected: set<Bit>, sigs: set<Sig>,
                                              rank: Bit -> nat, law: Law, v: Run, w: Run, t: nat)
    requires Sliceable(net, start) && Aligned(net, start) && Acyclic(net, start, rank)
    requires NoLatch(net, start)
    requires CompletedSearch(net, start, processed, visited, collected, sigs) && CollectedFromFFs(net, sigs, collected)
    requires IsRunOf(net, law, v) && IsRunOf(net, law, w)
    requires AgreeOn(collected, v(0), w(0))
    requires forall i: nat :: AgreeFree(net, v(i), w(i)) && SameResets(net, start, v(i), w(i))
    ensures AgreeOn(collected, v(t), w(t)) && Vals(v(t), start) == Vals(w(t), start)
  {
    hide Covered, Aligned, Sliceable, SliceableCell, Descends, Acyclic, Consistent, AgreeFree, SameReset, Clocked,
         Drives, Reaches, Netlist.Valid, NoLatch, SameResets, InCone;
    if t > 0 {
      SliceDeterminesRun(net, start, processed, visited, collected, sigs, rank, law, v, w, t - 1);
      SliceDeterminesSignal(net, start, processed, visited, collected, sigs, rank, v(t - 1), w(t - 1));
      ExpandedFacts(net, start, processed, visited, collected, sigs, rank);
      assert v(t - 1 + 1) == v(t) && w(t - 1 + 1) == w(t);
      forall b | b in collected
        ensures v(t)(b) == w(t)(b)
      {
        var s, c :| s in sigs && b in s && b.Wire? && c in net.cells && c.kind.IsFF() && Drives(c, s);
        var k :| 0 <= k < |s| && s[k] == b;
        CoveredCell(net, c, s, processed, collected);
        ConeCell(net, start, c, s, v(t - 1), w(t - 1));
        assert Clocked(net, law, v(t - 1), v(t - 1 + 1)) && Clocked(net, law, w(t - 1), w(t - 1 + 1));
        NextBitAgrees(net, c, s, k, law, processed, collected, v(t - 1), w(t - 1), v(t), w(t));
      }
    }
    SliceDeterminesSignal(net, start, processed, visited, collected, sigs, rank, v(t), w(t));
  }

  lemma ConeCell(net: Netlist, start: Sig, c: Cell, s: Sig, v: Valuation, w: Valuation)
    requires Sliceable(net, start) && NoLatch(net, start) && SameResets(net, start, v, w)
    requires Reaches(net, start, s) && c in net.cells && c.kind.IsFF() && Drives(c, s)
    ensures net.Valid() && SliceableCell(net, c) && !c.kind.Dlatch? && SameReset(net, c, v, w)
  {
    hide Reaches, Drives, SliceableCell, SameReset;
    assert InCone(net, start, c);
  }

  lemma CoveredCell(net: Netlist, c: Cell, s: Sig, processed: set<Sig>, collected: set<Bit>)
    requires Covered(net, s, processed, collected) && c in net.cells && Drives(c, s)
    ensures CellCovered(net, c, s, processed, collected)
  {
  }
}

// A flattened RTLIL module as the three Yosys passes see it: cells with typed ports, each port a
// sequence of signal bits, and the table of signal aliases that SigMap is built from.
module Netlist {
  import opened Basics

  datatype Bit = Const(value: bool) | Wire(wire: nat, offset: nat)

  type Sig = seq<Bit>

  // The values of the wire bits in one cycle.
  type Valuation = Bit -> bool

  function Val(v: Valuation, b: Bit): bool { if b.Const? then b.value else v(b) }

  // OtherPort: any port the passes do not name, such as CI of $alu or SET of $dffsr.
  datatype Port =
    | A | B | S | Y | D | Q | EN | CLK | SRST | ARST | ADDR | DATA | NoPort
    | OtherPort(name: string, isInput: bool)

  // OtherFF, OtherComb: kinds Yosys knows but no case of get_cell_dataflow_level names.
  // Foreign: kinds Yosys does not know (black boxes).
  datatype CellKind =
    | Not | Neg | And | Or | Xor | Xnor
    | ReduceAnd | ReduceOr | ReduceXor | ReduceXnor | ReduceBool
    | Lt | Le | Eq | Ne | Ge | Gt | LogicAnd | LogicOr | LogicNot
    | Add | Sub | Mul | Div | Shl | Shr | Shift | Shiftx
    | Mux | Pmux
    | Dff | Dffe | Sdff | Sdffe | Adff | Dlatch | OtherFF
    | Memrd | MemrdV2 | Memwr | Meminit | Mem
    | Assert | OtherComb | Foreign
  {
    predicate Known() { !Foreign? }

    predicate IsFF() { Dff? || Dffe? || Sdff? || Sdffe? || Adff? || Dlatch? || OtherFF? }

    predicate IsMux() { Mux? || Pmux? }

    predicate IsMemRead() { Memrd? || MemrdV2? }

    predicate IsMem() { IsMemRead() || Memwr? || Meminit? || Mem? }

    predicate Input(p: Port) {
      match this
      case Not | Neg | ReduceAnd | ReduceOr | ReduceXor | ReduceXnor | ReduceBool | LogicNot => p == A
      case Mux | Pmux => p == A || p == B || p == S
      case Dff => p == D || p == CLK
      case Dffe => p == D || p == CLK || p == EN
      case Sdff => p == D || p == CLK || p == SRST
      case Sdffe => p == D || p == CLK || p == SRST || p == EN
      case Adff => p == D || p == CLK || p == ARST
      case Dlatch => p == D || p == EN
      case OtherFF => p == D || p == CLK || p == EN || p == SRST || p == ARST || (p.OtherPort? && p.isInput)
      case OtherComb => p == A || p == B || p == S || p == EN || (p.OtherPort? && p.isInput)
      case Memrd => p == CLK || p == EN || p == ADDR
      case MemrdV2 => p == CLK || p == EN || p == ADDR || p == SRST || p == ARST
      case Memwr | Meminit | Mem => p == CLK || p == EN || p == ADDR || p == DATA
      case Assert => p == A || p == EN
      case Foreign => false
      case _ => p == A || p == B
    }

    predicate Output(p: Port) {
      match this
      case Memrd | MemrdV2 => p == DATA
      case Mem => p == Q
      case Memwr | Meminit | Assert | Foreign => false
      case OtherFF => p == Q || (p.OtherPort? && !p.isInput)
      case OtherComb => p == Y || (p.OtherPort? && !p.isInput)
      case _ => p == if IsFF() then Q else Y
    }
  }

  datatype Cell = Cell(name: string, kind: CellKind, conns: map<Port, Sig>) {
    // The port the passes take as the cell's output: Q of a flip-flop, Y of anything else.
    function OutPort(): Port { if kind.IsFF() then Q else Y }

    // None stands for the exception getPort raises on a port that is not connected.
    function Out(): Option<Sig> {
      if OutPort() in conns then Some(conns[OutPort()]) else None
    }
  }

  datatype Netlist = Netlist(cells: set<Cell>, alias: map<Bit, Bit>) {
    // Aliases lead to representatives, names are unique, known cells have only the ports of their kind.
    ghost predicate Valid() {
      && (forall b | b in alias :: alias[b] !in alias)
      && (forall c, p | c in cells && p in c.conns && c.kind.Known() :: c.kind.Input(p) || c.kind.Output(p))
      && (forall c, d | c in cells && d in cells && c.name == d.name :: c == d)
    }

    // SigMap: the representative of a bit's alias class.
    function Rep(b: Bit): Bit { if b in alias then alias[b] else b }

    function Canon(s: Sig): (r: Sig)
      ensures |r| == |s| && forall i | 0 <= i < |s| :: r[i] == Rep(s[i])
    {
      seq(|s|, i requires 0 <= i < |s| => Rep(s[i]))
    }

    function In(c: Cell, p: Port): Sig { if p in c.conns then Canon(c.conns[p]) else [] }

    // SigSet::find on the driver table of the SurgeFuzz pass, which files a known cell under every
    // wire bit of its inputs and outputs.
    function CellsOn(s: Sig): set<Cell> {
      set c | c in cells && exists p | p in c.conns ::
        (c.kind.Input(p) || c.kind.Output(p)) && Overlap(Canon(c.conns[p]), s)
    }

    // The same on the driver table of the other two passes, which files inputs only.
    function Readers(s: Sig): set<(Cell, Port)> {
      set c, p | c in cells && p in c.conns && c.kind.Input(p) && Overlap(Canon(c.conns[p]), s) :: (c, p)
    }
  }

  predicate Overlap(s: Sig, t: Sig) {
    exists b | b in s :: b.Wire? && b in t
  }

  predicate IsConst(s: Sig) { forall b | b in s :: b.Const? }

  function Bits(s: Sig): set<Bit> { set b | b in s && b.Wire? }

  lemma {:induction false} BitsBound(s: Sig)
    ensures |Bits(s)| <= |s|
  {
    if s != [] {
      BitsBound(s[1..]);
      assert s == [s[0]] + s[1..];
      assert Bits(s) <= Bits(s[1..]) + {s[0]};
      SubsetSize(Bits(s), Bits(s[1..]) + {s[0]});
    }
  }

  // ---- Chunks: maximal runs of constants or of consecutive bits of one wire ----

  predicate Joins(a: Bit, b: Bit) {
    (a.Const? && b.Const?) || (a.Wire? && b.Wire? && a.wire == b.wire && b.offset == a.offset + 1)
  }

  predicate IsRun(s: Sig) {
    s != [] && (|s| == 1 || (Joins(s[0], s[1]) && IsRun(s[1..])))
  }

  function Flatten(cs: seq<Sig>): Sig {
    if cs == [] then [] else cs[0] + Flatten(cs[1..])
  }

  function Chunks(s: Sig): (r: seq<Sig>)
    ensures Flatten(r) == s
    ensures forall c | c in r :: IsRun(c)
  {
    if s == [] then []
    else
      var r := Chunks(s[1..]);
      assert [s[0]] + s[1..] == s;
      if r != [] && Joins(s[0], r[0][0]) then
        var c := [s[0]] + r[0];
        assert c[1..] == r[0];
        assert [s[0]] + (r[0] + Flatten(r[1..])) == c + Flatten(r[1..]);
        [c] + r[1..]
      else
        assert ([[s[0]]] + r)[1..] == r;
        [[s[0]]] + r
  }

  // No two neighbouring chunks could be one.
  lemma {:induction false} ChunksAreMaximal(s: Sig, i: nat)
    requires 0 < i < |Chunks(s)|
    ensures var a, b := Chunks(s)[i - 1], Chunks(s)[i];
            a != [] && b != [] && !Joins(a[|a| - 1], b[0])
  {
    var r := Chunks(s[1..]);
    assert forall c | c in Chunks(s) :: IsRun(c);
    if Joins(s[0], r[0][0]) {
      ChunksAreMaximal(s[1..], i);
    } else if i > 1 {
      ChunksAreMaximal(s[1..], i - 1);
    }
  }

  lemma {:induction false} FlattenMember(cs: seq<Sig>, k: nat) returns (c: Sig)
    requires k < |Flatten(cs)|
    ensures c in cs && Flatten(cs)[k] in c
  {
    if k < |cs[0]| {
      c := cs[0];
    } else {
      c := FlattenMember(cs[1..], k - |cs[0]|);
    }
  }

  lemma {:induction false} FlattenBits(cs: seq<Sig>, c: Sig)
    requires c in cs
    ensures forall b | b in c :: b in Flatten(cs)
  {
    if c != cs[0] {
      FlattenBits(cs[1..], c);
    }
  }

  lemma {:induction false} FlattenConst(cs: seq<Sig>)
    requires forall c | c in cs :: IsConst(c)
    ensures IsConst(Flatten(cs))
  {
    if cs != [] {
      assert cs[0] in cs;
      FlattenConst(cs[1..]);
    }
  }

  lemma ChunkBits(s: Sig, c: Sig)
    requires c in Chunks(s)
    ensures forall b | b in c :: b in s
  {
    FlattenBits(Chunks(s), c);
  }

  lemma ChunkOf(s: Sig, k: nat) returns (c: Sig)
    requires k < |s|
    ensures c in Chunks(s) && s[k] in c
  {
    c := FlattenMember(Chunks(s), k);
  }

  // Consecutive bits of one wire.
  predicate IsSpan(s: Sig) {
    s != [] ==> s[0].Wire? && forall i | 0 <= i < |s| ::
      s[i].Wire? && s[i].wire == s[0].wire && s[i].offset == s[0].offset + i
  }

  // A run that is not constant holds wire bits only, and no bit twice.
  lemma {:induction false} RunIsSpan(s: Sig)
    requires IsRun(s) && !IsConst(s)
    ensures IsSpan(s)
  {
    if |s| > 1 {
      var t := s[1..];
      var b :| b in s && b.Wire?;
      assert b == s[0] || b in t;
      assert t[0] in t && t[0] == s[1];
      RunIsSpan(t);
      forall i | 0 <= i < |s|
        ensures s[i].Wire? && s[i].wire == s[0].wire && s[i].offset == s[0].offset + i
      {
        assert t[0] == s[1];
        if i > 0 {
          assert s[i] == t[i - 1];
        }
      }
    } else {
      assert s == [s[0]];
    }
  }

  // ---- SigSpec::extract ----

  // extract(pattern): the wire bits of s that pattern names, in the order of s.
  function Extract(s: Sig, pattern: Sig): Sig {
    if s == [] then []
    else (if s[0].Wire? && s[0] in pattern then [s[0]] else []) + Extract(s[1..], pattern)
  }

  lemma {:induction false} ExtractMember(s: Sig, pattern: Sig, b: Bit)
    ensures b in Extract(s, pattern) <==> b in s && b.Wire? && b in pattern
  {
    if s != [] {
      ExtractMember(s[1..], pattern, b);
      assert s == [s[0]] + s[1..];
    }
  }

  // Extracting a narrower pattern can be done in two steps.
  lemma {:induction false} ExtractNested(s: Sig, wide: Sig, narrow: Sig)
    requires forall b | b in narrow :: b in wide
    ensures Extract(Extract(s, wide), narrow) == Extract(s, narrow)
  {
    if s != [] {
      ExtractNested(s[1..], wide, narrow);
      var t := Extract(s[1..], wide);
      if s[0].Wire? && s[0] in wide {
        assert ([s[0]] + t)[1..] == t;
      } else {
        assert [] + t == t;
      }
    }
  }

  // A span contains each of its slices exactly where it stands.
  lemma ExtractSlice(s: Sig, i: nat, j: nat)
    requires IsSpan(s) && i <= j <= |s|
    ensures Extract(s, s[i..j]) == s[i..j]
  {
    ExtractRange(s, 0, i, j);
    assert s[0..] == s;
  }

  lemma {:induction false} ExtractRange(s: Sig, k: nat, i: nat, j: nat)
    requires IsSpan(s) && k <= |s| && i <= j <= |s|
    ensures Extract(s[k..], s[i..j]) == if k <= i then s[i..j] else if k <= j then s[k..j] else []
    decreases |s| - k
  {
    if k < |s| {
      ExtractRange(s, k + 1, i, j);
      assert s[k..][1..] == s[k + 1..];
      var p := s[i..j];
      if i <= k < j {
        assert p[k - i] == s[k];
      } else {
        assert forall m | 0 <= m < |p| :: p[m] == s[i + m];
        assert s[k] !in p;
      }
    }
  }
}

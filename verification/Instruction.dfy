// RISC-V instructions as the program generator makes them: an opcode and operands as text.
module Instruction {
  import opened Decimal

  datatype InstType =
    | IntRegImm | IntRegImmShift | IntRegImmShiftW | IntRegReg | Branch | Memory
    | PseudoArg0 | PseudoLi | PseudoLoadAddress | AtomicArg2 | AtomicArg3

  // compiledRv64im is the macro ENABLE_RV64IM, which selects the opcode tables; the two flags select
  // instruction types and the range of shift amounts.
  datatype Config = Config(blockCount: nat, instsPerBlock: nat, enableRv64a: bool, enableRv64im: bool,
                           compiledRv64im: bool, insertMemoryAccess: bool, maxOperationCount: nat)
  {
    // Every range the generator draws from is non-empty.
    predicate Valid() { blockCount > 0 && instsPerBlock > 0 && maxOperationCount > 0 }
  }

  datatype Inst = Inst(kind: InstType, opcode: string, operands: seq<string>)

  function Kinds(cfg: Config): (r: seq<InstType>)
    ensures r != [] && Memory in r && PseudoLoadAddress in r
  {
    [IntRegImm, IntRegImmShift] + (if cfg.enableRv64im then [IntRegImmShiftW] else [])
    + [IntRegReg, Branch, Memory, PseudoArg0, PseudoLi, PseudoLoadAddress]
    + if cfg.enableRv64a then [AtomicArg2, AtomicArg3] else []
  }

  function BaseOpcodes(kind: InstType): (r: seq<string>)
    ensures r != []
  {
    match kind
    case IntRegImm => ["addi", "slti", "sltiu", "xori", "ori", "andi"]
    case IntRegImmShift => ["slli", "srli", "srai"]
    case IntRegImmShiftW => ["slliw", "srliw", "sraiw"]
    case IntRegReg => ["add", "sub", "sll", "slt", "sltu", "xor", "srl", "sra", "or", "and",
                       "mul", "mulh", "mulhsu", "mulhu", "div", "divu", "rem", "remu"]
    case Branch => ["beq", "bne", "blt", "bge", "bltu", "bgeu"]
    case Memory => ["lb", "lh", "lw", "lbu", "lhu", "sb", "sh", "sw"]
    case PseudoArg0 => ["nop", "fence"]
    case PseudoLi => ["li"]
    case PseudoLoadAddress => ["la"]
    case AtomicArg2 => ["lr.w", "lr.d"]
    case AtomicArg3 => ["sc.w", "amoswap.w", "amoadd.w", "amoxor.w", "amoand.w", "amoor.w", "amomin.w", "amomax.w",
                        "amominu.w", "amomaxu.w", "sc.d", "amoswap.d", "amoadd.d", "amoxor.d", "amoand.d", "amoor.d",
                        "amomin.d", "amomax.d", "amominu.d", "amomaxu.d"]
  }

  function Rv64Opcodes(kind: InstType): seq<string> {
    match kind
    case IntRegImm => ["addiw"]
    case IntRegReg => ["addw", "subw", "sllw", "srlw", "sraw", "mulw", "divw", "divuw", "remw", "remuw"]
    case Memory => ["lwu", "ld", "sd"]
    case _ => []
  }

  function Opcodes(cfg: Config, kind: InstType): (r: seq<string>)
    ensures r != []
  {
    BaseOpcodes(kind) + if cfg.compiledRv64im then Rv64Opcodes(kind) else []
  }

  function Arity(kind: InstType): nat {
    match kind
    case PseudoArg0 => 0
    case PseudoLi | PseudoLoadAddress | AtomicArg2 => 2
    case _ => 3
  }

  // ---- Operand texts ----

  function RegisterText(n: nat): string { "x" + Text(n) }

  function LabelText(n: nat): string { "label_" + Text(n) }

  function AddressText(n: nat): string { "test_memory + " + Text(n) }

  // Never x1, the return address, nor x2, the stack pointer.
  ghost predicate IsRegister(s: string) { exists n | 0 <= n < 32 :: n != 1 && n != 2 && s == RegisterText(n) }

  ghost predicate IsImmediate(s: string, lo: int, hi: int) { exists n | lo <= n < hi :: s == IntText(n) }

  ghost predicate IsLabel(s: string, count: nat) { exists n | 0 <= n < count :: s == LabelText(n) }

  ghost predicate IsAddress(s: string) { exists n | 0 <= n < 2048 :: s == AddressText(n) }

  // Immediates are 12-bit signed, shift amounts 5 bits, or 6 on RV64; offsets and li stay narrower.
  ghost predicate OperandOk(cfg: Config, kind: InstType, i: nat, s: string) {
    match kind
    case IntRegImm => if i == 2 then IsImmediate(s, -2048, 2048) else IsRegister(s)
    case IntRegImmShift => if i == 2 then IsImmediate(s, 0, if cfg.enableRv64im then 64 else 32) else IsRegister(s)
    case IntRegImmShiftW => if i == 2 then IsImmediate(s, 0, 32) else IsRegister(s)
    case Branch => if i == 2 then IsLabel(s, cfg.blockCount) else IsRegister(s)
    case Memory => if i == 2 then IsImmediate(s, 0, 2048) else IsRegister(s)
    case PseudoLi => if i == 1 then IsImmediate(s, 0, 32) else IsRegister(s)
    case PseudoLoadAddress => if i == 1 then IsAddress(s) else IsRegister(s)
    case _ => IsRegister(s)
  }

  ghost predicate OperandsOk(cfg: Config, kind: InstType, ops: seq<string>) {
    |ops| == Arity(kind) && forall i | 0 <= i < |ops| :: OperandOk(cfg, kind, i, ops[i])
  }

  ghost predicate WellFormed(cfg: Config, x: Inst) {
    x.kind in Kinds(cfg) && x.opcode in Opcodes(cfg, x.kind) && OperandsOk(cfg, x.kind, x.operands)
  }

  // ---- Random construction ----

  // RandomNumberGenerator::operator(): any number of [lo, hi), which must not be empty.
  method Rnd(lo: int, hi: int) returns (r: int)
    requires lo < hi
    ensures lo <= r < hi
  {
    r :| lo <= r < hi;
  }

  method RandomOpcode(cfg: Config, kind: InstType) returns (s: string)
    ensures s in Opcodes(cfg, kind)
  {
    var list := Opcodes(cfg, kind);
    var i := Rnd(0, |list|);
    s := list[i];
  }

  // The rejection loop, as one draw among the numbers it can end with.
  method RandomRegister() returns (s: string)
    ensures IsRegister(s) && s != "x1" && s != "x2"
  {
    var n: int :| 0 <= n < 32 && n != 1 && n != 2 by {
      assert 0 <= 0 < 32;
    }
    s := RegisterText(n);
    NeitherLinkNorStack(s);
  }

  lemma NeitherLinkNorStack(s: string)
    requires IsRegister(s)
    ensures s != "x1" && s != "x2"
  {
    var n :| 0 <= n < 32 && n != 1 && n != 2 && s == RegisterText(n);
    assert s[1..] == Text(n) && Text(1) == "1" && Text(2) == "2";
    if Text(n) == Text(1) {
      TextInjective(n, 1);
    }
    if Text(n) == Text(2) {
      TextInjective(n, 2);
    }
    assert "x1"[1..] == "1" && "x2"[1..] == "2";
  }

  method RandomImmediate(lo: int, hi: int) returns (s: string)
    requires lo < hi
    ensures IsImmediate(s, lo, hi)
  {
    var n := Rnd(lo, hi);
    s := IntText(n);
  }

  method RandomLabel(cfg: Config) returns (s: string)
    requires cfg.Valid()
    ensures IsLabel(s, cfg.blockCount)
  {
    var n := Rnd(0, cfg.blockCount);
    s := LabelText(n);
  }

  method RandomOperand(cfg: Config, kind: InstType, index: nat) returns (s: string)
    requires cfg.Valid() && index < Arity(kind)
    ensures OperandOk(cfg, kind, index, s)
  {
    hide IsRegister, IsImmediate, IsLabel, IsAddress;
    match kind {
      case IntRegImm => if index == 2 { s := RandomImmediate(-2048, 2048); } else { s := RandomRegister(); }
      case IntRegImmShift =>
        if index == 2 { s := RandomImmediate(0, if cfg.enableRv64im then 64 else 32); } else { s := RandomRegister(); }
      case IntRegImmShiftW => if index == 2 { s := RandomImmediate(0, 32); } else { s := RandomRegister(); }
      case Branch => if index == 2 { s := RandomLabel(cfg); } else { s := RandomRegister(); }
      case Memory => if index == 2 { s := RandomImmediate(0, 2048); } else { s := RandomRegister(); }
      case PseudoLi => if index == 1 { s := RandomImmediate(0, 32); } else { s := RandomRegister(); }
      case PseudoLoadAddress => if index == 1 { s := RandomAddress(); } else { s := RandomRegister(); }
      case _ => s := RandomRegister();
    }
  }

  method RandomAddress() returns (s: string)
    ensures IsAddress(s)
  {
    var n := Rnd(0, 2048);
    s := AddressText(n);
  }

  method RandomOperands(cfg: Config, kind: InstType) returns (ops: seq<string>)
    requires cfg.Valid()
    ensures OperandsOk(cfg, kind, ops)
  {
    hide OperandOk;
    ops := [];
    for i := 0 to Arity(kind)
      invariant |ops| == i && forall k | 0 <= k < i :: OperandOk(cfg, kind, k, ops[k])
    {
      var s := RandomOperand(cfg, kind, i);
      ops := ops + [s];
    }
  }

  method RandomInstruction(cfg: Config) returns (x: Inst)
    requires cfg.Valid()
    ensures WellFormed(cfg, x)
  {
    var kinds := Kinds(cfg);
    var i := Rnd(0, |kinds|);
    var opcode := RandomOpcode(cfg, kinds[i]);
    var operands := RandomOperands(cfg, kinds[i]);
    x := Inst(kinds[i], opcode, operands);
  }
}

// generate: instructions, blocks and programs as assembly text, and why an assembler reads back what was printed.
module Printing {
  import opened Basics
  import opened Decimal
  import opened Instruction
  import opened Programs
  import opened Reading

  predicate ArityOf(a: seq<Inst>) { forall i | 0 <= i < |a| :: |a[i].operands| == Arity(a[i].kind) }

  predicate ArityRight(p: seq<BlockData>) { forall k | 0 <= k < |p| :: ArityOf(p[k].insts) }

  function Commas(o: seq<string>): string {
    if o == [] then "" else if |o| == 1 then o[0] else o[0] + ", " + Commas(o[1..])
  }

  function OperandsText(x: Inst): string
    requires |x.operands| == Arity(x.kind)
  {
    var o := x.operands;
    match x.kind
    case Memory => o[0] + ", " + o[2] + "(" + o[1] + ")"
    case AtomicArg2 => o[0] + ", (" + o[1] + ")"
    case AtomicArg3 => o[0] + ", " + o[1] + ", (" + o[2] + ")"
    case _ => Commas(o)
  }

  // Instruction::generate
  function InstText(x: Inst): string
    requires |x.operands| == Arity(x.kind)
  {
    x.opcode + " " + OperandsText(x)
  }

  function Lines(insts: seq<Inst>): string
    requires ArityOf(insts)
  {
    if insts == [] then "" else "    " + InstText(insts[0]) + "\n" + Lines(insts[1..])
  }

  function BlockText(b: BlockData): string
    requires ArityOf(b.insts)
  {
    b.labelName + ":\n" + Lines(b.insts)
  }

  function ProgramText(p: seq<BlockData>): string
    requires ArityRight(p)
  {
    if p == [] then "" else BlockText(p[0]) + "\n" + ProgramText(p[1..])
  }

  ghost predicate Printable(cfg: Config, insts: seq<Inst>) {
    forall i | 0 <= i < |insts| :: WellFormed(cfg, insts[i])
  }

  // ---- Block::generate and Program::generate, which append in loops ----

  lemma {:induction false} LinesAppend(a: seq<Inst>, x: Inst)
    requires ArityOf(a) && |x.operands| == Arity(x.kind)
    ensures Lines(a + [x]) == Lines(a) + ("    " + InstText(x) + "\n")
  {
    hide InstText;
    if a != [] {
      LinesAppend(a[1..], x);
      assert (a + [x])[1..] == a[1..] + [x];
    } else {
      assert [x][1..] == [];
    }
  }

  lemma ArityParts(p: seq<BlockData>, b: BlockData)
    requires ArityRight(p + [b])
    ensures ArityRight(p) && ArityOf(b.insts)
  {
    hide ArityOf;
    assert forall k | 0 <= k < |p| :: (p + [b])[k] == p[k];
    assert (p + [b])[|p|] == b;
  }

  lemma {:induction false} ProgramAppend(p: seq<BlockData>, b: BlockData)
    requires ArityRight(p + [b])
    ensures ArityRight(p) && ArityOf(b.insts) && ProgramText(p + [b]) == ProgramText(p) + (BlockText(b) + "\n")
  {
    hide ArityOf, BlockText;
    ArityParts(p, b);
    if p == [] {
      assert p + [b] == [b];
      OneBlock(b);
    } else {
      var rest := p[1..] + [b];
      assert (p + [b])[1..] == rest && (p + [b])[0] == p[0];
      assert ArityRight(rest);
      hide ArityRight;
      ProgramAppend(p[1..], b);
    }
  }

  lemma OneBlock(b: BlockData)
    requires ArityOf(b.insts)
    ensures ArityRight([b]) && ProgramText([b]) == BlockText(b) + "\n"
  {
    hide ArityOf, BlockText;
    assert [b][1..] == [];
    assert ProgramText([]) == "";
  }

  // ---- The opcode fixes the type ----

  // Opcodes are lower-case letters and dots.
  predicate OpcodeChar(c: char) { 'a' <= c <= 'z' || c == '.' }

  predicate OpcodeText(o: string) { forall i | 0 <= i < |o| :: OpcodeChar(o[i]) }

  predicate Names(kind: InstType, o: string) { |o| >= 2 && KindOf(o) == kind && OpcodeText(o) }

  predicate AllName(kind: InstType, list: seq<string>) { forall i | 0 <= i < |list| :: Names(kind, list[i]) }

  lemma BaseNames(kind: InstType)
    ensures AllName(kind, BaseOpcodes(kind))
  {
    hide BaseOpcodes, AllName;
    match kind
    case IntRegReg => RegRegNames();
    case AtomicArg3 => AtomicNames();
    case IntRegImm | IntRegImmShift | IntRegImmShiftW => ImmediateNames(kind);
    case Branch | Memory => BranchAndMemoryNames(kind);
    case _ => PseudoNames(kind);
  }

  lemma ImmediateNames(kind: InstType)
    requires kind.IntRegImm? || kind.IntRegImmShift? || kind.IntRegImmShiftW?
    ensures AllName(kind, BaseOpcodes(kind))
  {
  }

  lemma BranchAndMemoryNames(kind: InstType)
    requires kind.Branch? || kind.Memory?
    ensures AllName(kind, BaseOpcodes(kind))
  {
  }

  lemma PseudoNames(kind: InstType)
    requires kind.PseudoArg0? || kind.PseudoLi? || kind.PseudoLoadAddress? || kind.AtomicArg2?
    ensures AllName(kind, BaseOpcodes(kind))
  {
  }

  lemma RegRegNames()
    ensures AllName(IntRegReg, BaseOpcodes(IntRegReg))
  {
  }

  lemma AtomicNames()
    ensures AllName(AtomicArg3, BaseOpcodes(AtomicArg3))
  {
  }

  lemma Rv64Names(kind: InstType)
    ensures AllName(kind, Rv64Opcodes(kind))
  {
  }

  lemma OpcodeFixesKind(cfg: Config, kind: InstType, o: string)
    requires o in Opcodes(cfg, kind)
    ensures |o| >= 2 && KindOf(o) == kind && OpcodeText(o)
  {
    BaseNames(kind);
    Rv64Names(kind);
    hide KindOf, OpcodeText, BaseOpcodes, Rv64Opcodes;
  }

  // ---- Operand texts contain no separator ----

  predicate OperandChar(c: char) { IsDigit(c) || 'a' <= c <= 'z' || c == '_' || c == '-' || c == '+' || c == ' ' }

  predicate OperandText(s: string) { forall i | 0 <= i < |s| :: OperandChar(s[i]) }

  lemma NumberClean(prefix: string, n: nat)
    requires OperandText(prefix)
    ensures OperandText(prefix + Text(n))
  {
    TextDigits(n);
    hide Text;
  }

  lemma ImmediateClean(s: string, lo: int, hi: int)
    requires IsImmediate(s, lo, hi)
    ensures OperandText(s)
  {
    var n: int :| lo <= n < hi && s == IntText(n);
    IntTextChars(n);
    hide IntText;
  }

  lemma OperandClean(cfg: Config, kind: InstType, i: nat, s: string)
    requires OperandOk(cfg, kind, i, s)
    ensures OperandText(s)
  {
    assert OperandText("x") && OperandText("label_") && OperandText("test_memory + ");
    hide OperandText, Text;
    if IsRegister(s) {
      var n :| 0 <= n < 32 && n != 1 && n != 2 && s == RegisterText(n);
      NumberClean("x", n);
    } else if IsLabel(s, cfg.blockCount) {
      var n :| 0 <= n < cfg.blockCount && s == LabelText(n);
      NumberClean("label_", n);
    } else if IsAddress(s) {
      var n :| 0 <= n < 2048 && s == AddressText(n);
      NumberClean("test_memory + ", n);
    } else {
      hide IntText;
      assert IsImmediate(s, -2048, 2048);
      ImmediateClean(s, -2048, 2048);
    }
  }

  lemma OperandsClean(cfg: Config, x: Inst)
    requires WellFormed(cfg, x)
    ensures forall i | 0 <= i < |x.operands| :: OperandText(x.operands[i])
  {
    hide OperandOk, OperandText, Kinds, Opcodes;
    forall i | 0 <= i < |x.operands|
      ensures OperandText(x.operands[i])
    {
      OperandClean(cfg, x.kind, i, x.operands[i]);
    }
  }

  lemma CleanWithout(s: string)
    requires OperandText(s)
    ensures Without(s, ',') && Without(s, '(') && Without(s, ')') && Without(s, '\n')
  {
  }

  // ---- Reading the text back ----

  lemma Fields(a: string, t: string)
    requires Without(a, ',')
    ensures Field(a, 0) == a && Field(a + ", " + t, 0) == a
    ensures Field(a + ", " + t, 1) == Field(t, 0) && Field(a + ", " + t, 2) == Field(t, 1)
  {
    NothingToSplit(a, ',');
    assert a + ", " + t == a + [','] + (" " + t);
    SplitAt(a, ',', " " + t);
    hide Before, After;
    assert DropBlank(" " + t) == t;
  }

  // offset(base)
  lemma Parenthesised(offset: string, base: string)
    requires OperandText(offset) && OperandText(base)
    ensures var access := offset + "(" + base + ")";
            Without(access, ',') && Before(access, '(') == offset && InParentheses(access) == base
  {
    var access := offset + "(" + base + ")";
    CleanWithout(offset);
    CleanWithout(base);
    assert Without(access, ',');
    hide OperandText, Without, Before, After;
    assert access == offset + ['('] + (base + ")");
    SplitAt(offset, '(', base + ")");
    assert base + ")" == base + [')'] + "";
    SplitAt(base, ')', "");
  }

  // (base)
  lemma AddressOnly(base: string)
    requires OperandText(base)
    ensures Without("(" + base + ")", ',') && InParentheses("(" + base + ")") == base
  {
    assert OperandText("");
    Parenthesised("", base);
    hide *;
    assert "" + "(" + base + ")" == "(" + base + ")";
  }

  lemma Regroup(p: string, a: string, b: string, c: string, e: string)
    ensures p + (a + b + c + e) == p + a + b + c + e
  {
    assert p + (a + b) == p + a + b;
    assert p + (a + b + c) == p + (a + b) + c;
    assert p + (a + b + c + e) == p + (a + b + c) + e;
  }

  lemma RegroupTwo(p: string, a: string, b: string)
    ensures p + (a + b) == p + a + b
  {
  }

  lemma RegroupAddress(p: string, base: string)
    ensures p + ", (" + base + ")" == p + ", " + ("(" + base + ")")
  {
    assert p + ", (" == p + ", " + "(";
    RegroupTwo(p + ", ", "(", base);
    RegroupTwo(p + ", ", "(" + base, ")");
  }

  lemma MemoryReadBack(d: string, base: string, offset: string)
    requires OperandText(d) && OperandText(base) && OperandText(offset)
    ensures ReadOperands(Memory, d + ", " + offset + "(" + base + ")") == [d, base, offset]
  {
    var access := offset + "(" + base + ")";
    var s := d + ", " + access;
    MemoryFields(s);
    CleanWithout(d);
    hide *;
    Parenthesised(offset, base);
    Fields(d, access);
    Fields(access, "");
    Regroup(d + ", ", offset, "(", base, ")");
  }

  lemma MemoryFields(s: string)
    ensures ReadOperands(Memory, s) == [Field(s, 0), InParentheses(Field(s, 1)), Before(Field(s, 1), '(')]
  {
  }

  lemma Atomic2ReadBack(d: string, base: string)
    requires OperandText(d) && OperandText(base)
    ensures ReadOperands(AtomicArg2, d + ", (" + base + ")") == [d, base]
  {
    var address := "(" + base + ")";
    var s := d + ", " + address;
    Atomic2Fields(s);
    CleanWithout(d);
    hide *;
    AddressOnly(base);
    Fields(d, address);
    Fields(address, "");
    RegroupAddress(d, base);
  }

  lemma Atomic2Fields(s: string)
    ensures ReadOperands(AtomicArg2, s) == [Field(s, 0), InParentheses(Field(s, 1))]
  {
  }

  lemma Atomic3ReadBack(d: string, source: string, base: string)
    requires OperandText(d) && OperandText(source) && OperandText(base)
    ensures ReadOperands(AtomicArg3, d + ", " + source + ", (" + base + ")") == [d, source, base]
  {
    var address := "(" + base + ")";
    var tail := source + ", " + address;
    var s := d + ", " + tail;
    Atomic3Fields(s);
    CleanWithout(d);
    CleanWithout(source);
    hide *;
    AddressOnly(base);
    Fields(d, tail);
    Fields(source, address);
    Fields(address, "");
    RegroupAddress(d + ", " + source, base);
    RegroupTwo(d + ", ", source, ", " + address);
    RegroupTwo(d + ", " + source, ", ", address);
    RegroupTwo(source, ", ", address);
  }

  lemma Atomic3Fields(s: string)
    ensures ReadOperands(AtomicArg3, s) == [Field(s, 0), Field(s, 1), InParentheses(Field(s, 2))]
  {
  }

  lemma TwoReadBack(o: seq<string>)
    requires |o| == 2 && Without(o[0], ',') && Without(o[1], ',')
    ensures Field(Commas(o), 0) == o[0] && Field(Commas(o), 1) == o[1]
  {
    Fields(o[0], o[1]);
    Fields(o[1], "");
    assert Commas(o) == o[0] + ", " + o[1];
    hide *;
  }

  lemma ThreeReadBack(o: seq<string>)
    requires |o| == 3 && Without(o[0], ',') && Without(o[1], ',') && Without(o[2], ',')
    ensures Field(Commas(o), 0) == o[0] && Field(Commas(o), 1) == o[1] && Field(Commas(o), 2) == o[2]
  {
    ThreeCommas(o);
    hide *;
    var tail := o[1] + ", " + o[2];
    Fields(o[0], tail);
    Fields(o[1], o[2]);
    Fields(o[2], "");
  }

  lemma CommasReadBack(kind: InstType, o: seq<string>)
    requires |o| == Arity(kind) && forall i | 0 <= i < |o| :: OperandText(o[i])
    requires !kind.Memory? && !kind.AtomicArg2? && !kind.AtomicArg3?
    ensures ReadOperands(kind, Commas(o)) == o
  {
    forall i | 0 <= i < |o|
      ensures Without(o[i], ',')
    {
      CleanWithout(o[i]);
    }
    hide OperandText, Without, Before, After, Field, Commas;
    if |o| == 2 {
      TwoReadBack(o);
    } else if |o| == 3 {
      ThreeReadBack(o);
    }
  }

  lemma ThreeCommas(o: seq<string>)
    requires |o| == 3
    ensures Commas(o) == o[0] + ", " + (o[1] + ", " + o[2])
  {
    assert Commas(o[1..]) == o[1] + ", " + Commas(o[1..][1..]);
  }

  lemma OperandsReadBack(x: Inst)
    requires |x.operands| == Arity(x.kind) && forall i | 0 <= i < |x.operands| :: OperandText(x.operands[i])
    ensures ReadOperands(x.kind, OperandsText(x)) == x.operands
  {
    hide OperandText, Field, Before, After, InParentheses, Commas;
    match x.kind {
      case Memory => MemoryReadBack(x.operands[0], x.operands[1], x.operands[2]);
      case AtomicArg2 => Atomic2ReadBack(x.operands[0], x.operands[1]);
      case AtomicArg3 => Atomic3ReadBack(x.operands[0], x.operands[1], x.operands[2]);
      case _ => CommasReadBack(x.kind, x.operands);
    }
  }

  // An assembler reads the instruction that was printed.
  lemma InstReadBack(cfg: Config, x: Inst)
    requires WellFormed(cfg, x)
    ensures ReadInst(InstText(x)) == Some(x)
  {
    OpcodeFixesKind(cfg, x.kind, x.opcode);
    OpcodeWithout(x.opcode);
    OperandsClean(cfg, x);
    hide Opcodes, Kinds, OperandOk, OperandText, OpcodeText, Without, KindOf, ReadOperands, OperandsText, Before, After;
    assert InstText(x) == x.opcode + [' '] + OperandsText(x);
    SplitAt(x.opcode, ' ', OperandsText(x));
    OperandsReadBack(x);
  }

  // lw x5, 16(x7)
  ghost predicate MemoryShape(opcode: string, text: string, d: string, offset: string, base: string) {
    && IsRegister(d) && IsImmediate(offset, 0, 2048) && IsRegister(base)
    && text == opcode + " " + d + ", " + offset + "(" + base + ")"
  }

  // lr.w x5, (x7)
  ghost predicate LoadReservedShape(opcode: string, text: string, d: string, address: string) {
    IsRegister(d) && IsRegister(address) && text == opcode + " " + d + ", (" + address + ")"
  }

  // amoadd.w x5, x6, (x7)
  ghost predicate AtomicShape(opcode: string, text: string, d: string, source: string, address: string) {
    && IsRegister(d) && IsRegister(source) && IsRegister(address)
    && text == opcode + " " + d + ", " + source + ", (" + address + ")"
  }

  // Only the accesses through a register have parentheses, and these stand around that register.
  lemma AddressShapes(cfg: Config, x: Inst)
    requires WellFormed(cfg, x)
    ensures x.kind.Memory? ==> exists d, offset, base :: MemoryShape(x.opcode, InstText(x), d, offset, base)
    ensures x.kind.AtomicArg2? ==> exists d, address :: LoadReservedShape(x.opcode, InstText(x), d, address)
    ensures x.kind.AtomicArg3? ==> exists d, s, address :: AtomicShape(x.opcode, InstText(x), d, s, address)
  {
    hide Opcodes, Kinds, IsRegister, IsImmediate;
    var o := x.operands;
    assert forall i | 0 <= i < |o| :: OperandOk(cfg, x.kind, i, o[i]);
    if x.kind.Memory? {
      assert x.opcode + " " + (o[0] + ", " + o[2] + "(" + o[1] + ")") ==
             x.opcode + " " + o[0] + ", " + o[2] + "(" + o[1] + ")";
      assert MemoryShape(x.opcode, InstText(x), o[0], o[2], o[1]);
    } else if x.kind.AtomicArg2? {
      assert x.opcode + " " + (o[0] + ", (" + o[1] + ")") == x.opcode + " " + o[0] + ", (" + o[1] + ")";
      assert LoadReservedShape(x.opcode, InstText(x), o[0], o[1]);
    } else if x.kind.AtomicArg3? {
      assert x.opcode + " " + (o[0] + ", " + o[1] + ", (" + o[2] + ")") ==
             x.opcode + " " + o[0] + ", " + o[1] + ", (" + o[2] + ")";
      assert AtomicShape(x.opcode, InstText(x), o[0], o[1], o[2]);
    }
  }

  // Equal text means equal instructions.
  lemma InstTextInjective(cfg: Config, x: Inst, y: Inst)
    requires WellFormed(cfg, x) && WellFormed(cfg, y) && InstText(x) == InstText(y)
    ensures x == y
  {
    hide WellFormed, InstText, ReadInst;
    WellFormedArity(cfg, x);
    WellFormedArity(cfg, y);
    InstReadBack(cfg, x);
    InstReadBack(cfg, y);
  }

  lemma WellFormedArity(cfg: Config, x: Inst)
    requires WellFormed(cfg, x)
    ensures |x.operands| == Arity(x.kind)
  {
    hide Opcodes, Kinds, OperandOk;
  }

  lemma OpcodeWithout(o: string)
    requires OpcodeText(o)
    ensures Without(o, ' ') && Without(o, '\n')
  {
  }

  lemma ConcatWithout(s: string, t: string, c: char)
    requires Without(s, c) && Without(t, c)
    ensures Without(s + t, c)
  {
  }

  // No instruction spans two lines.
  lemma InstTextOneLine(cfg: Config, x: Inst)
    requires WellFormed(cfg, x)
    ensures Without(InstText(x), '\n')
  {
    OpcodeFixesKind(cfg, x.kind, x.opcode);
    OpcodeWithout(x.opcode);
    OperandsClean(cfg, x);
    hide Opcodes, Kinds, OperandOk, OperandText, OpcodeText;
    forall i | 0 <= i < |x.operands|
      ensures Without(x.operands[i], '\n')
    {
      CleanWithout(x.operands[i]);
    }
    OperandsOneLine(x);
    assert InstText(x) == x.opcode + " " + OperandsText(x);
  }

  lemma OperandsOneLine(x: Inst)
    requires |x.operands| == Arity(x.kind) && forall i | 0 <= i < |x.operands| :: Without(x.operands[i], '\n')
    ensures Without(OperandsText(x), '\n')
  {
    hide Without;
    var o := x.operands;
    assert Without(", ", '\n') && Without("(", '\n') && Without(")", '\n') && Without(", (", '\n') by { ShortTexts(); }
    match x.kind {
      case Memory =>
        ConcatWithout(o[0], ", ", '\n');
        ConcatWithout(o[0] + ", ", o[2], '\n');
        ConcatWithout(o[0] + ", " + o[2], "(", '\n');
        ConcatWithout(o[0] + ", " + o[2] + "(", o[1], '\n');
        ConcatWithout(o[0] + ", " + o[2] + "(" + o[1], ")", '\n');
      case AtomicArg2 =>
        ConcatWithout(o[0], ", (", '\n');
        ConcatWithout(o[0] + ", (", o[1], '\n');
        ConcatWithout(o[0] + ", (" + o[1], ")", '\n');
      case AtomicArg3 =>
        ConcatWithout(o[0], ", ", '\n');
        ConcatWithout(o[0] + ", ", o[1], '\n');
        ConcatWithout(o[0] + ", " + o[1], ", (", '\n');
        ConcatWithout(o[0] + ", " + o[1] + ", (", o[2], '\n');
        ConcatWithout(o[0] + ", " + o[1] + ", (" + o[2], ")", '\n');
      case _ =>
        CommasOneLine(o);
    }
  }

  lemma ShortTexts()
    ensures Without(", ", '\n') && Without("(", '\n') && Without(")", '\n') && Without(", (", '\n') && Without("", '\n')
  {
  }

  lemma {:induction false} CommasOneLine(o: seq<string>)
    requires forall i | 0 <= i < |o| :: Without(o[i], '\n')
    ensures Without(Commas(o), '\n')
  {
    hide Without;
    ShortTexts();
    if |o| > 1 {
      CommasOneLine(o[1..]);
      ConcatWithout(o[0], ", ", '\n');
      ConcatWithout(o[0] + ", ", Commas(o[1..]), '\n');
    }
  }

  // The lines of a block end where an empty line follows.
  lemma {:induction false} LinesReadBack(cfg: Config, a: seq<Inst>, t: string)
    requires Printable(cfg, a) && ArityOf(a)
    ensures ReadLines(Lines(a) + "\n" + t) == Some((a, t))
  {
    hide WellFormed, InstText, ReadInst, Before, After;
    var s := Lines(a) + "\n" + t;
    if a == [] {
      assert s == "\n" + t && s[1..] == t;
    } else {
      var line, rest := "    " + InstText(a[0]), Lines(a[1..]) + "\n" + t;
      InstTextOneLine(cfg, a[0]);
      InstReadBack(cfg, a[0]);
      LinesReadBack(cfg, a[1..], t);
      assert Without(line, '\n') by { ConcatWithout("    ", InstText(a[0]), '\n'); }
      assert s == line + ['\n'] + rest;
      SplitAt(line, '\n', rest);
      assert s[0] == ' ' && "    " <= line && line[4..] == InstText(a[0]);
      assert [a[0]] + a[1..] == a;
    }
  }

  lemma PrintableArity(cfg: Config, a: seq<Inst>)
    requires Printable(cfg, a)
    ensures ArityOf(a)
  {
    hide Opcodes, Kinds, OperandOk;
  }

  // A block that the generator or a mutation can produce.
  ghost predicate PrintableBlock(cfg: Config, b: BlockData) {
    Printable(cfg, b.insts) && exists n: nat :: b.labelName == LabelText(n)
  }

  lemma LabelClean(cfg: Config, b: BlockData)
    requires PrintableBlock(cfg, b)
    ensures Without(b.labelName, ':') && Without(b.labelName + ":", '\n')
  {
    hide Printable;
    var n: nat :| b.labelName == LabelText(n);
    TextDigits(n);
  }

  lemma BlockParts(name: string, lines: string, t: string)
    ensures name + ":\n" + lines + "\n" + t == name + [':'] + ("\n" + (lines + "\n" + t))
    ensures name + ":\n" + lines + "\n" + t == name + ":" + ['\n'] + (lines + "\n" + t)
  {
  }

  // An assembler reads the block that was printed, up to the empty line behind it.
  lemma BlockReadBack(cfg: Config, b: BlockData, t: string)
    requires PrintableBlock(cfg, b) && ArityOf(b.insts)
    ensures ReadBlock(BlockText(b) + "\n" + t) == Some((b, t))
  {
    LabelClean(cfg, b);
    LinesReadBack(cfg, b.insts, t);
    hide Lines, LabelText, ReadLines, Before, After, Printable, Without, ArityOf;
    var body := Lines(b.insts) + "\n" + t;
    BlockParts(b.labelName, Lines(b.insts), t);
    SplitAt(b.labelName, ':', "\n" + body);
    SplitAt(b.labelName + ":", '\n', body);
  }

  ghost predicate PrintableProgram(cfg: Config, p: seq<BlockData>) {
    forall i | 0 <= i < |p| :: PrintableBlock(cfg, p[i])
  }

  // An assembler reads the program that was printed.
  lemma {:induction false} ProgramReadBack(cfg: Config, p: seq<BlockData>)
    requires PrintableProgram(cfg, p) && ArityRight(p)
    ensures ReadProgram(ProgramText(p)) == Some(p)
  {
    hide BlockText, PrintableBlock, ArityOf, ReadBlock;
    if p != [] {
      BlockReadBack(cfg, p[0], ProgramText(p[1..]));
      ProgramReadBack(cfg, p[1..]);
      assert [p[0]] + p[1..] == p;
    }
  }

  // Equal text means equal blocks.
  lemma BlockTextInjective(cfg: Config, a: BlockData, b: BlockData)
    requires PrintableBlock(cfg, a) && PrintableBlock(cfg, b) && ArityOf(a.insts) && ArityOf(b.insts)
    requires BlockText(a) == BlockText(b)
    ensures a == b
  {
    hide BlockText, PrintableBlock, ReadBlock;
    BlockReadBack(cfg, a, "");
    BlockReadBack(cfg, b, "");
  }

  // Equal text means equal programs.
  lemma ProgramTextInjective(cfg: Config, p: seq<BlockData>, q: seq<BlockData>)
    requires PrintableProgram(cfg, p) && PrintableProgram(cfg, q) && ArityRight(p) && ArityRight(q)
    requires ProgramText(p) == ProgramText(q)
    ensures p == q
  {
    hide ProgramText, PrintableProgram, ReadProgram;
    ProgramReadBack(cfg, p);
    ProgramReadBack(cfg, q);
  }

  lemma GoodIsPrintable(cfg: Config, p: seq<BlockData>)
    requires GoodProgram(cfg, p)
    ensures PrintableProgram(cfg, p) && ArityRight(p)
  {
    hide OperandOk, Opcodes, Kinds, LabelText;
    forall i | 0 <= i < |p|
      ensures PrintableBlock(cfg, p[i]) && ArityOf(p[i].insts)
    {
      assert p[i].labelName == LabelText(i) && GoodBlock(cfg, p[i].insts);
    }
  }

  // ---- The loops ----

  method GenerateBlock(b: BlockData) returns (code: string)
    requires ArityOf(b.insts)
    ensures code == BlockText(b)
    ensures forall cfg, t | PrintableBlock(cfg, b) :: ReadBlock(code + "\n" + t) == Some((b, t))
  {
    hide InstText, PrintableBlock, ReadBlock;
    code := b.labelName + ":\n";
    for i := 0 to |b.insts|
      invariant code == b.labelName + ":\n" + Lines(b.insts[..i])
    {
      LinesAppend(b.insts[..i], b.insts[i]);
      assert b.insts[..i + 1] == b.insts[..i] + [b.insts[i]];
      code := code + "    ";
      code := code + InstText(b.insts[i]);
      code := code + "\n";
    }
    assert b.insts[..|b.insts|] == b.insts;
    forall cfg, t | PrintableBlock(cfg, b)
      ensures ReadBlock(code + "\n" + t) == Some((b, t))
    {
      BlockReadBack(cfg, b, t);
    }
  }

  method GenerateProgram(p: seq<BlockData>) returns (code: string)
    requires ArityRight(p)
    ensures code == ProgramText(p)
    ensures forall cfg | PrintableProgram(cfg, p) :: ReadProgram(code) == Some(p)
  {
    hide BlockText, PrintableProgram, ReadProgram, ReadBlock, PrintableBlock;
    code := "";
    for i := 0 to |p|
      invariant code == ProgramText(p[..i])
    {
      assert p[..i + 1] == p[..i] + [p[i]];
      ProgramAppend(p[..i], p[i]);
      var text := GenerateBlock(p[i]);
      code := code + text;
      code := code + "\n";
    }
    assert p[..|p|] == p;
    forall cfg | PrintableProgram(cfg, p)
      ensures ReadProgram(code) == Some(p)
    {
      ProgramReadBack(cfg, p);
    }
  }
}

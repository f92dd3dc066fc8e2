// Blocks and programs of the fuzzer, and their mutation.
module Programs {
  import opened Decimal
  import opened Instruction

  // ---- What each mutator may do to the instructions of a block ----

  datatype Op =
    | SwapInst | MutateOpcode | MutateOperands | MutateOperand | MutateInst | InsertInst | RemoveInst
    | InsertMemoryAccess

  predicate Allowed(cfg: Config, op: Op) { op.InsertMemoryAccess? ==> cfg.insertMemoryAccess }

  ghost predicate ReplacedAt(a: seq<Inst>, b: seq<Inst>, i: nat, x: Inst) { i < |a| && b == a[i := x] }

  ghost predicate InsertedAt(a: seq<Inst>, b: seq<Inst>, i: nat, xs: seq<Inst>) { i < |a| && b == a[..i] + xs + a[i..] }

  ghost predicate RemovedAt(a: seq<Inst>, b: seq<Inst>, i: nat) { i < |a| && b == a[..i] + a[i + 1..] }

  ghost predicate SwappedAt(a: seq<Inst>, b: seq<Inst>, i: nat, j: nat) {
    i < |a| && j < |a| && b == a[i := a[j]][j := a[i]]
  }

  // A memory access through the register that the address was loaded into.
  ghost predicate AccessPair(cfg: Config, x: Inst, y: Inst) {
    && WellFormed(cfg, x) && WellFormed(cfg, y)
    && x.kind == PseudoLoadAddress && y.kind == Memory && y.operands[1] == x.operands[0] && y.operands[2] == "0"
  }

  ghost predicate Step(cfg: Config, op: Op, a: seq<Inst>, b: seq<Inst>) {
    match op
    case SwapInst => exists i: nat, j: nat :: SwappedAt(a, b, i, j)
    case MutateOpcode => exists i: nat, s ::
      i < |a| && s in Opcodes(cfg, a[i].kind) && ReplacedAt(a, b, i, a[i].(opcode := s))
    case MutateOperands => exists i: nat, ops ::
      i < |a| && OperandsOk(cfg, a[i].kind, ops) && ReplacedAt(a, b, i, a[i].(operands := ops))
    case MutateOperand => b == a || exists i: nat, k: nat, s :: OperandReplaced(cfg, a, b, i, k, s)
    case MutateInst => exists i: nat, x :: WellFormed(cfg, x) && ReplacedAt(a, b, i, x)
    case InsertInst => exists i: nat, x :: WellFormed(cfg, x) && InsertedAt(a, b, i, [x])
    case RemoveInst => if |a| > 1 then exists i: nat :: RemovedAt(a, b, i) else b == a
    case InsertMemoryAccess => exists i: nat, x, y :: AccessPair(cfg, x, y) && InsertedAt(a, b, i, [x, y])
  }

  ghost predicate OperandReplaced(cfg: Config, a: seq<Inst>, b: seq<Inst>, i: nat, k: nat, s: string) {
    && i < |a| && k < |a[i].operands| && OperandOk(cfg, a[i].kind, k, s)
    && ReplacedAt(a, b, i, a[i].(operands := a[i].operands[k := s]))
  }

  ghost predicate Steps(cfg: Config, ops: seq<Op>, a: seq<Inst>, b: seq<Inst>)
    decreases |ops|, 1
  {
    if ops == [] then b == a
    else Allowed(cfg, ops[|ops| - 1]) && exists c :: StepsThrough(cfg, ops, a, c, b)
  }

  // All but the last operation lead from a to c, the last from c to b.
  ghost predicate StepsThrough(cfg: Config, ops: seq<Op>, a: seq<Inst>, c: seq<Inst>, b: seq<Inst>)
    requires ops != []
    decreases |ops|, 0
  {
    Steps(cfg, ops[..|ops| - 1], a, c) && Step(cfg, ops[|ops| - 1], c, b)
  }

  // One call of Block::mutate: up to maxOperationCount mutators.
  ghost predicate BlockMutated(cfg: Config, a: seq<Inst>, b: seq<Inst>) {
    exists ops: seq<Op> :: 1 <= |ops| <= cfg.maxOperationCount && Steps(cfg, ops, a, b)
  }

  ghost predicate GoodBlock(cfg: Config, a: seq<Inst>) {
    a != [] && forall i | 0 <= i < |a| :: WellFormed(cfg, a[i])
  }

  lemma StepKeeps(cfg: Config, op: Op, a: seq<Inst>, b: seq<Inst>)
    requires GoodBlock(cfg, a) && Step(cfg, op, a, b)
    ensures GoodBlock(cfg, b) && |a| - 1 <= |b| <= |a| + 2
  {
    hide Opcodes, Kinds, OperandOk;
    match op {
      case MutateOperand =>
        if b != a {
          var i: nat, k: nat, s :| OperandReplaced(cfg, a, b, i, k, s);
          assert WellFormed(cfg, a[i]);
          assert WellFormed(cfg, b[i]);
        }
      case _ =>
    }
  }

  lemma {:induction false} StepsKeep(cfg: Config, ops: seq<Op>, a: seq<Inst>, b: seq<Inst>)
    requires GoodBlock(cfg, a) && Steps(cfg, ops, a, b)
    ensures GoodBlock(cfg, b) && |a| - |ops| <= |b| <= |a| + 2 * |ops|
  {
    hide Step, GoodBlock;
    if ops != [] {
      var c :| StepsThrough(cfg, ops, a, c, b);
      StepsKeep(cfg, ops[..|ops| - 1], a, c);
      StepKeeps(cfg, ops[|ops| - 1], c, b);
    }
  }

  // ---- Blocks ----

  class Block {
    const labelName: string
    var insts: seq<Inst>

    constructor (cfg: Config, labelName: string, num: nat)
      requires cfg.Valid()
      ensures this.labelName == labelName && |insts| == num && forall i | 0 <= i < num :: WellFormed(cfg, insts[i])
    {
      hide WellFormed;
      this.labelName := labelName;
      insts := [];
      new;
      for i := 0 to num
        invariant |insts| == i && forall k | 0 <= k < i :: WellFormed(cfg, insts[k])
      {
        var x := RandomInstruction(cfg);
        insts := insts + [x];
      }
    }

    // The copy constructor.
    constructor Copy(data: BlockData)
      ensures labelName == data.labelName && insts == data.insts
    {
      labelName, insts := data.labelName, data.insts;
    }

    method SwapInst()
      requires insts != []
      modifies this`insts
      ensures exists i: nat, j: nat :: SwappedAt(old(insts), insts, i, j)
    {
      var i := Rnd(0, |insts|);
      var j := Rnd(0, |insts|);
      insts := insts[i := insts[j]][j := insts[i]];
      assert SwappedAt(old(insts), insts, i, j);
    }

    method MutateOpcode(cfg: Config)
      requires insts != []
      modifies this`insts
      ensures Step(cfg, Op.MutateOpcode, old(insts), insts)
    {
      hide Opcodes;
      var i := Rnd(0, |insts|);
      var opcode := RandomOpcode(cfg, insts[i].kind);
      insts := insts[i := insts[i].(opcode := opcode)];
      assert ReplacedAt(old(insts), insts, i, old(insts)[i].(opcode := opcode));
    }

    method MutateOperands(cfg: Config)
      requires cfg.Valid() && insts != []
      modifies this`insts
      ensures Step(cfg, Op.MutateOperands, old(insts), insts)
    {
      hide OperandsOk;
      var i := Rnd(0, |insts|);
      var operands := RandomOperands(cfg, insts[i].kind);
      insts := insts[i := insts[i].(operands := operands)];
      assert ReplacedAt(old(insts), insts, i, old(insts)[i].(operands := operands));
    }

    method MutateOperand(cfg: Config)
      requires cfg.Valid() && GoodBlock(cfg, insts)
      modifies this`insts
      ensures Step(cfg, Op.MutateOperand, old(insts), insts)
    {
      var instIdx := Rnd(0, |insts|);
      var operands := insts[instIdx].operands;
      if operands == [] {
        return;
      }
      var operandIdx := Rnd(0, |operands|);
      assert WellFormed(cfg, insts[instIdx]);
      var operand := RandomOperand(cfg, insts[instIdx].kind, operandIdx);
      insts := insts[instIdx := insts[instIdx].(operands := operands[operandIdx := operand])];
      assert OperandReplaced(cfg, old(insts), insts, instIdx, operandIdx, operand);
    }

    method MutateInst(cfg: Config)
      requires cfg.Valid() && insts != []
      modifies this`insts
      ensures Step(cfg, Op.MutateInst, old(insts), insts)
    {
      hide WellFormed;
      var i := Rnd(0, |insts|);
      var x := RandomInstruction(cfg);
      insts := insts[i := x];
      assert ReplacedAt(old(insts), insts, i, x);
    }

    method InsertInst(cfg: Config)
      requires cfg.Valid() && insts != []
      modifies this`insts
      ensures Step(cfg, Op.InsertInst, old(insts), insts)
    {
      hide WellFormed;
      var i := Rnd(0, |insts|);
      var x := RandomInstruction(cfg);
      insts := insts[..i] + [x] + insts[i..];
      assert InsertedAt(old(insts), insts, i, [x]);
    }

    // The last instruction stays.
    method RemoveInst(cfg: Config)
      modifies this`insts
      ensures Step(cfg, Op.RemoveInst, old(insts), insts)
    {
      if |insts| > 1 {
        var i := Rnd(0, |insts|);
        insts := insts[..i] + insts[i + 1..];
        assert RemovedAt(old(insts), insts, i);
      }
    }

    method InsertMemoryAccessSequence(cfg: Config)
      requires cfg.Valid() && insts != []
      modifies this`insts
      ensures Step(cfg, Op.InsertMemoryAccess, old(insts), insts)
    {
      var x, y := MemoryAccess(cfg);
      hide AccessPair;
      var i := Rnd(0, |insts|);
      ghost var was := insts;
      insts := insts[..i] + [x] + insts[i..];
      insts := insts[..i + 1] + [y] + insts[i + 1..];
      assert insts == was[..i] + [x, y] + was[i..];
      assert InsertedAt(was, insts, i, [x, y]);
    }

    method MemoryAccess(cfg: Config) returns (x: Inst, y: Inst)
      requires cfg.Valid()
      ensures AccessPair(cfg, x, y)
    {
      hide Kinds, Opcodes, IsRegister, IsImmediate, IsAddress;
      var opcode := RandomOpcode(cfg, PseudoLoadAddress);
      var operands := RandomOperands(cfg, PseudoLoadAddress);
      x := Inst(PseudoLoadAddress, opcode, operands);
      var opcode2 := RandomOpcode(cfg, Memory);
      var target := RandomOperand(cfg, Memory, 0);
      y := Inst(Memory, opcode2, [target, operands[0], "0"]);
      assert OperandOk(cfg, PseudoLoadAddress, 0, operands[0]);
      ZeroIsOffset();
      assert OperandOk(cfg, Memory, 1, operands[0]) && OperandOk(cfg, Memory, 2, "0");
    }

    lemma ZeroIsOffset()
      ensures IsImmediate("0", 0, 2048)
    {
      assert IntText(0) == "0";
    }

    method Apply(cfg: Config, op: Op)
      requires cfg.Valid() && GoodBlock(cfg, insts)
      modifies this`insts
      ensures Step(cfg, op, old(insts), insts)
    {
      hide Step;
      match op {
        case SwapInst => SwapInst(); SwapStep(cfg, old(insts), insts);
        case MutateOpcode => MutateOpcode(cfg);
        case MutateOperands => MutateOperands(cfg);
        case MutateOperand => MutateOperand(cfg);
        case MutateInst => MutateInst(cfg);
        case InsertInst => InsertInst(cfg);
        case RemoveInst => RemoveInst(cfg);
        case InsertMemoryAccess => InsertMemoryAccessSequence(cfg);
      }
    }

    lemma SwapStep(cfg: Config, a: seq<Inst>, b: seq<Inst>)
      requires exists i: nat, j: nat :: SwappedAt(a, b, i, j)
      ensures Step(cfg, Op.SwapInst, a, b)
    {
    }

    // rnd(num_operations)
    method RandomOp(cfg: Config) returns (op: Op)
      ensures Allowed(cfg, op)
    {
      var all := [Op.SwapInst, Op.MutateOpcode, Op.MutateOperands, Op.MutateOperand, Op.MutateInst, Op.InsertInst,
          Op.RemoveInst, Op.InsertMemoryAccess];
      var i := Rnd(0, if cfg.insertMemoryAccess then 8 else 7);
      op := all[i];
    }

    // Either a fresh choice of mutator each time, or one choice repeated.
    method Mutate(cfg: Config)
      requires cfg.Valid() && GoodBlock(cfg, insts)
      modifies this`insts
      ensures BlockMutated(cfg, old(insts), insts)
    {
      hide Step, Allowed, GoodBlock;
      var coin := Rnd(0, 2);
      var op := RandomOp(cfg);
      var r := Rnd(0, cfg.maxOperationCount);
      var cnt := 1 + r;
      ghost var ops: seq<Op> := [];
      for i := 0 to cnt
        invariant |ops| == i && Steps(cfg, ops, old(insts), insts) && Allowed(cfg, op) && GoodBlock(cfg, insts)
      {
        if coin == 0 {
          op := RandomOp(cfg);
        }
        ghost var before, done := insts, ops;
        Apply(cfg, op);
        StepKeeps(cfg, op, before, insts);
        ops := ops + [op];
        assert ops[..|ops| - 1] == done;
        assert StepsThrough(cfg, ops, old(insts), before, insts);
      }
    }
  }

  // ---- Programs ----

  datatype BlockData = BlockData(labelName: string, insts: seq<Inst>)

  // p has the blocks label_0, label_1, ... of the configuration, each with well-formed instructions.
  ghost predicate GoodProgram(cfg: Config, p: seq<BlockData>) {
    && |p| == cfg.blockCount
    && forall i | 0 <= i < |p| :: p[i].labelName == LabelText(i) && GoodBlock(cfg, p[i].insts)
  }

  ghost predicate BlockChanged(cfg: Config, p: seq<BlockData>, q: seq<BlockData>, k: nat) {
    && k < |p| && |q| == |p| && q == p[k := q[k]] && q[k].labelName == p[k].labelName
    && BlockMutated(cfg, p[k].insts, q[k].insts)
  }

  // n block mutations.
  ghost predicate ProgramSteps(cfg: Config, n: nat, p: seq<BlockData>, q: seq<BlockData>) {
    if n == 0 then q == p
    else exists r, k: nat :: ProgramSteps(cfg, n - 1, p, r) && BlockChanged(cfg, r, q, k)
  }

  // One call of Program::mutate.
  ghost predicate Mutated(cfg: Config, p: seq<BlockData>, q: seq<BlockData>) {
    ProgramSteps(cfg, 1, p, q) || ProgramSteps(cfg, 2, p, q)
  }

  function Size(p: seq<BlockData>): nat {
    if p == [] then 0 else Size(p[..|p| - 1]) + |p[|p| - 1].insts|
  }

  lemma {:induction false} SizeUpdate(p: seq<BlockData>, k: nat, b: BlockData)
    requires k < |p|
    ensures Size(p[k := b]) == Size(p) - |p[k].insts| + |b.insts|
  {
    var q := p[k := b];
    if k == |p| - 1 {
      assert q[..|q| - 1] == p[..|p| - 1];
    } else {
      SizeUpdate(p[..|p| - 1], k, b);
      assert q[..|q| - 1] == p[..|p| - 1][k := b];
    }
  }

  lemma BlockChangeKeeps(cfg: Config, p: seq<BlockData>, q: seq<BlockData>, k: nat)
    requires GoodProgram(cfg, p) && BlockChanged(cfg, p, q, k)
    ensures GoodProgram(cfg, q) && Size(p) - cfg.maxOperationCount <= Size(q) <= Size(p) + 2 * cfg.maxOperationCount
  {
    hide GoodBlock, Steps;
    var ops: seq<Op> :| 1 <= |ops| <= cfg.maxOperationCount && Steps(cfg, ops, p[k].insts, q[k].insts);
    StepsKeep(cfg, ops, p[k].insts, q[k].insts);
    SizeUpdate(p, k, q[k]);
    forall i | 0 <= i < |q|
      ensures q[i].labelName == LabelText(i) && GoodBlock(cfg, q[i].insts)
    {
    }
  }

  // Any number of mutations keeps a program good.
  lemma {:induction false} MutationsKeepGood(cfg: Config, n: nat, p: seq<BlockData>, q: seq<BlockData>)
    requires GoodProgram(cfg, p) && ProgramSteps(cfg, n, p, q)
    ensures GoodProgram(cfg, q)
    ensures Size(p) - n * cfg.maxOperationCount <= Size(q) <= Size(p) + 2 * n * cfg.maxOperationCount
  {
    hide GoodProgram, BlockChanged;
    if n > 0 {
      var r, k: nat :| ProgramSteps(cfg, n - 1, p, r) && BlockChanged(cfg, r, q, k);
      MutationsKeepGood(cfg, n - 1, p, r);
      BlockChangeKeeps(cfg, r, q, k);
      assert n * cfg.maxOperationCount == (n - 1) * cfg.maxOperationCount + cfg.maxOperationCount;
      assert 2 * n * cfg.maxOperationCount == 2 * (n - 1) * cfg.maxOperationCount + 2 * cfg.maxOperationCount;
    }
  }

  // One Program::mutate keeps a program good and adds at most four instructions per permitted
  // operation.
  lemma MutateKeepsGood(cfg: Config, p: seq<BlockData>, q: seq<BlockData>)
    requires GoodProgram(cfg, p) && Mutated(cfg, p, q)
    ensures GoodProgram(cfg, q)
    ensures Size(q) <= Size(p) + 4 * cfg.maxOperationCount
  {
    hide GoodProgram, ProgramSteps;
    if ProgramSteps(cfg, 1, p, q) {
      MutationsKeepGood(cfg, 1, p, q);
    } else {
      MutationsKeepGood(cfg, 2, p, q);
    }
  }

  // In a good program every branch names the label of exactly one block, and labels are distinct.
  lemma BranchTargetUnique(cfg: Config, p: seq<BlockData>, i: nat, j: nat)
    requires GoodProgram(cfg, p) && i < |p| && j < |p[i].insts| && p[i].insts[j].kind == Branch
    ensures |p[i].insts[j].operands| == 3
    ensures exists k | 0 <= k < |p| ::
              p[k].labelName == p[i].insts[j].operands[2] && forall m | 0 <= m < |p| && m != k ::
                p[m].labelName != p[k].labelName
  {
    hide Opcodes, Kinds, IsRegister, LabelText;
    var x := p[i].insts[j];
    assert GoodBlock(cfg, p[i].insts);
    assert WellFormed(cfg, x);
    hide GoodBlock, WellFormed;
    assert OperandOk(cfg, Branch, 2, x.operands[2]);
    var k :| 0 <= k < cfg.blockCount && x.operands[2] == LabelText(k);
    forall m | 0 <= m < |p| && m != k
      ensures p[m].labelName != p[k].labelName
    {
      LabelsDiffer(m, k);
    }
  }

  lemma LabelsDiffer(m: nat, k: nat)
    requires m != k
    ensures LabelText(m) != LabelText(k)
  {
    if LabelText(m) == LabelText(k) {
      assert LabelText(m)[6..] == Text(m) && LabelText(k)[6..] == Text(k);
      TextInjective(m, k);
    }
  }

  class Program {
    var blocks: seq<Block>

    ghost predicate Valid()
      reads this
    {
      forall i, j | 0 <= i < j < |blocks| :: blocks[i] != blocks[j]
    }

    ghost function Data(): (d: seq<BlockData>)
      reads this, blocks
      ensures |d| == |blocks| && forall i | 0 <= i < |d| :: d[i] == BlockData(blocks[i].labelName, blocks[i].insts)
    {
      seq(|blocks|, i requires 0 <= i < |blocks| reads this, blocks => BlockData(blocks[i].labelName, blocks[i].insts))
    }

    constructor (cfg: Config)
      requires cfg.Valid()
      ensures Valid() && fresh(blocks) && GoodProgram(cfg, Data())
      ensures Size(Data()) == cfg.blockCount * cfg.instsPerBlock
    {
      blocks := [];
      new;
      hide WellFormed, Size, LabelText;
      EmptySize();
      for i := 0 to cfg.blockCount
        invariant |blocks| == i && Valid() && fresh(blocks)
        invariant forall k | 0 <= k < i :: Data()[k].labelName == LabelText(k) && GoodBlock(cfg, Data()[k].insts)
        invariant Size(Data()) == i * cfg.instsPerBlock
      {
        ghost var was := Data();
        var block := new Block(cfg, LabelText(i), cfg.instsPerBlock);
        blocks := blocks + [block];
        assert Data()[..i] == was;
        SizeMore(Data(), i * cfg.instsPerBlock, cfg.instsPerBlock);
        assert i * cfg.instsPerBlock + cfg.instsPerBlock == (i + 1) * cfg.instsPerBlock;
      }
    }

    lemma EmptySize()
      ensures Size([]) == 0
    {
    }

    lemma SizeMore(p: seq<BlockData>, n: nat, m: nat)
      requires p != [] && Size(p[..|p| - 1]) == n && |p[|p| - 1].insts| == m
      ensures Size(p) == n + m
    {
    }

    constructor Copy(data: seq<BlockData>)
      ensures Valid() && fresh(blocks) && Data() == data
    {
      blocks := [];
      new;
      for i := 0 to |data|
        invariant |blocks| == i && Valid() && fresh(blocks)
        invariant Data() == data[..i]
      {
        var block := new Block.Copy(data[i]);
        blocks := blocks + [block];
      }
    }

    // The value Seed keeps of a program.
    method Save() returns (data: seq<BlockData>)
      ensures data == Data()
    {
      data := [];
      for i := 0 to |blocks|
        invariant data == Data()[..i]
      {
        data := data + [BlockData(blocks[i].labelName, blocks[i].insts)];
      }
    }

    // The bound of the loop is drawn anew each time round, so it makes one or two rounds.
    method Mutate(cfg: Config)
      requires cfg.Valid() && Valid() && GoodProgram(cfg, Data())
      modifies blocks
      ensures Valid() && GoodProgram(cfg, Data()) && Mutated(cfg, old(Data()), Data())
    {
      hide GoodProgram, ProgramSteps;
      StepsStart(cfg, Data());
      var i := 0;
      var bound := Rnd(0, 2);
      while i < 1 + bound
        invariant 0 <= i <= 2 && 0 <= bound < 2 && (i == 0 || i <= 2) && Valid()
        invariant GoodProgram(cfg, Data()) && ProgramSteps(cfg, i, old(Data()), Data())
        invariant i == 2 ==> !(i < 1 + bound)
        decreases 2 - i
      {
        MutateBlock(cfg, i, old(Data()));
        i := i + 1;
        bound := Rnd(0, 2);
      }
    }

    lemma StepsStart(cfg: Config, p: seq<BlockData>)
      ensures ProgramSteps(cfg, 0, p, p)
    {
    }

    method MutateBlock(cfg: Config, ghost n: nat, ghost start: seq<BlockData>)
      requires cfg.Valid() && Valid() && GoodProgram(cfg, Data()) && ProgramSteps(cfg, n, start, Data())
      modifies blocks
      ensures Valid() && GoodProgram(cfg, Data()) && ProgramSteps(cfg, n + 1, start, Data())
    {
      hide BlockMutated, GoodBlock;
      ghost var was := Data();
      var k := Rnd(0, |blocks|);
      assert GoodBlock(cfg, was[k].insts);
      blocks[k].Mutate(cfg);
      assert Data() == was[k := Data()[k]] by {
        forall m | 0 <= m < |was| && m != k
          ensures Data()[m] == was[m]
        {
          assert blocks[m] != blocks[k];
        }
      }
      assert BlockChanged(cfg, was, Data(), k);
      BlockChangeKeeps(cfg, was, Data(), k);
    }
  }
}

// Reading assembly text as an assembler does: labels end in a colon, an instruction is an opcode and
// operands separated by commas, and an address in a register stands in parentheses.
module Reading {
  import opened Basics
  import opened Instruction
  import opened Programs

  // ---- Splitting text ----

  predicate Without(s: string, c: char) { forall i | 0 <= i < |s| :: s[i] != c }

  // The text up to the first c, or all of it.
  function Before(s: string, c: char): string {
    if s == "" || s[0] == c then "" else [s[0]] + Before(s[1..], c)
  }

  // The text behind the first c, if any.
  function After(s: string, c: char): (t: string)
    ensures |t| <= |s| && (s != "" ==> |t| < |s|)
  {
    if s == "" then "" else if s[0] == c then s[1..] else After(s[1..], c)
  }

  lemma {:induction false} SplitAt(a: string, c: char, t: string)
    requires Without(a, c)
    ensures Before(a + [c] + t, c) == a && After(a + [c] + t, c) == t
  {
    var s := a + [c] + t;
    if a == "" {
      assert s[1..] == t;
    } else {
      SplitAt(a[1..], c, t);
      assert s[1..] == a[1..] + [c] + t;
    }
  }

  lemma {:induction false} NothingToSplit(a: string, c: char)
    requires Without(a, c)
    ensures Before(a, c) == a
  {
    if a != "" {
      NothingToSplit(a[1..], c);
    }
  }

  function DropBlank(s: string): string { if s != "" && s[0] == ' ' then s[1..] else s }

  // The k-th of the texts between commas, without the blank in front.
  function Field(s: string, k: nat): string
    decreases k
  {
    if k == 0 then Before(s, ',') else Field(DropBlank(After(s, ',')), k - 1)
  }

  function InParentheses(s: string): string { Before(After(s, '('), ')') }

  // ---- Instructions ----

  // The type an opcode belongs to.
  function KindOf(o: string): InstType
    requires |o| >= 2
  {
    if o[|o| - 2] == '.' then if o[0] == 'l' then AtomicArg2 else AtomicArg3
    else if o[0] == 'b' then Branch
    else if o[0] == 'n' || o[0] == 'f' then PseudoArg0
    else if o[0] == 'l' then if o[1] == 'i' then PseudoLi else if o[1] == 'a' then PseudoLoadAddress else Memory
    else if o[0] == 's' then
      if |o| == 2 then Memory
      else if |o| == 5 && o[4] == 'w' then IntRegImmShiftW
      else if |o| >= 4 && o[3] == 'i' then if o[2] == 't' then IntRegImm else IntRegImmShift
      else IntRegReg
    else if o[|o| - 1] == 'i' || (|o| == 5 && o[3] == 'i') then IntRegImm
    else IntRegReg
  }

  // The operands in the order the generator keeps them: of a memory access the register, the base in
  // the parentheses, and the offset in front of them.
  function ReadOperands(kind: InstType, s: string): seq<string> {
    match kind
    case PseudoArg0 => []
    case PseudoLi | PseudoLoadAddress => [Field(s, 0), Field(s, 1)]
    case Memory => [Field(s, 0), InParentheses(Field(s, 1)), Before(Field(s, 1), '(')]
    case AtomicArg2 => [Field(s, 0), InParentheses(Field(s, 1))]
    case AtomicArg3 => [Field(s, 0), Field(s, 1), InParentheses(Field(s, 2))]
    case _ => [Field(s, 0), Field(s, 1), Field(s, 2)]
  }

  function ReadInst(line: string): Option<Inst> {
    var o := Before(line, ' ');
    if |o| < 2 then None else Some(Inst(KindOf(o), o, ReadOperands(KindOf(o), After(line, ' '))))
  }

  // ---- Programs ----

  // Indented lines up to an empty one, and the text behind it.
  function ReadLines(s: string): Option<(seq<Inst>, string)>
    decreases |s|
  {
    if s == "" then None
    else if s[0] == '\n' then Some(([], s[1..]))
    else if !("    " <= Before(s, '\n')) then None
    else
      match (ReadInst(Before(s, '\n')[4..]), ReadLines(After(s, '\n')))
      case (Some(x), Some((rest, t))) => Some(([x] + rest, t))
      case _ => None
  }

  // A label with its colon on a line of its own, then the block's lines.
  function ReadBlock(s: string): Option<(BlockData, string)> {
    if Before(s, '\n') != Before(s, ':') + ":" then None
    else
      match ReadLines(After(s, '\n'))
      case Some((insts, t)) => Some((BlockData(Before(s, ':'), insts), t))
      case None => None
  }

  function ReadProgram(s: string): Option<seq<BlockData>>
    decreases |s|
  {
    if s == "" then Some([])
    else
      match ReadBlock(s)
      case None => None
      case Some((b, t)) =>
        if |t| >= |s| then None
        else
          match ReadProgram(t)
          case Some(rest) => Some([b] + rest)
          case None => None
  }
}

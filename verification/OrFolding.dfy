// instrument of the DifuzzRTL pass: the register bits of a module, folded into a coverage signal of
// fixed width.
module OrFolding {
  import opened Netlist

  // A bit of the emitted circuit: a register bit, a constant, or the output of an added $or cell.
  datatype Expr = Ref(bit: Bit) | Zero | OrOf(a: Expr, b: Expr)

  function Eval(e: Expr, v: Valuation): bool {
    match e
    case Ref(b) => Val(v, b)
    case Zero => false
    case OrOf(a, b) => Eval(a, v) || Eval(b, v)
  }

  function Refs(s: Sig): (r: seq<Expr>)
    ensures |r| == |s| && forall i | 0 <= i < |s| :: r[i] == Ref(s[i])
  {
    seq(|s|, i requires 0 <= i < |s| => Ref(s[i]))
  }

  // SigSpec::extend_u0
  function ExtendU0(s: seq<Expr>, width: nat): (r: seq<Expr>)
    requires |s| <= width
    ensures |r| == width && forall i | 0 <= i < width :: r[i] == if i < |s| then s[i] else Zero
  {
    s + seq(width - |s|, _ => Zero)
  }

  // Module::Or makes an unsigned cell as wide as its wider operand.
  function OrCell(a: seq<Expr>, b: seq<Expr>): (r: seq<Expr>)
    ensures |r| == if |a| >= |b| then |a| else |b|
    ensures forall i | 0 <= i < |r| :: r[i] == OrOf(if i < |a| then a[i] else Zero, if i < |b| then b[i] else Zero)
  {
    var n := if |a| >= |b| then |a| else |b|;
    seq(n, i requires 0 <= i < n => OrOf(if i < |a| then a[i] else Zero, if i < |b| then b[i] else Zero))
  }

  function Concat(regs: seq<Sig>): Sig {
    if regs == [] then [] else Concat(regs[..|regs| - 1]) + regs[|regs| - 1]
  }

  // Some bit of s below position n, at a position that is k modulo width, is set.
  ghost predicate FoldedBit(s: Sig, n: nat, width: nat, k: nat, v: Valuation)
    requires width > 0 && n <= |s|
  {
    exists i | 0 <= i < n :: i % width == k && Eval(Ref(s[i]), v)
  }

  // Output bit k of the emitted circuit is the OR of all register bits at positions k modulo width,
  // whether the registers are extended or folded.
  method Instrument(regs: seq<Sig>, width: nat) returns (coverage: seq<Expr>)
    requires width > 0
    ensures |coverage| == width
    ensures forall v: Valuation, k | 0 <= k < width ::
              Eval(coverage[k], v) <==> FoldedBit(Concat(regs), |Concat(regs)|, width, k, v)
  {
    var bits: Sig := [];
    for i := 0 to |regs|
      invariant bits == Concat(regs[..i])
    {
      assert regs[..i + 1][..i] == regs[..i];
      bits := bits + regs[i];
    }
    assert regs[..|regs|] == regs;
    if |bits| <= width {
      coverage := ExtendU0(Refs(bits), width);
      forall v: Valuation, k | 0 <= k < width
        ensures Eval(coverage[k], v) <==> FoldedBit(bits, |bits|, width, k, v)
      {
        ExtendedBit(bits, width, k, v);
      }
    } else {
      coverage := Fold(bits, width);
    }
  }

  lemma ExtendedBit(s: Sig, width: nat, k: nat, v: Valuation)
    requires k < width && |s| <= width
    ensures FoldedBit(s, |s|, width, k, v) <==> k < |s| && Eval(Ref(s[k]), v)
  {
    if k < |s| {
      assert k % width == k;
    }
    forall i | 0 <= i < |s|
      ensures i % width == i
    {
    }
  }

  // The circuit folds the first n register bits.
  ghost predicate Folds(result: seq<Expr>, bits: Sig, n: nat, width: nat)
    requires width > 0 && n <= |bits|
  {
    |result| == width && forall v: Valuation, k | 0 <= k < width :: Eval(result[k], v) <==>
      FoldedBit(bits, n, width, k, v)
  }

  // sig collects the open group, which starts at the multiple from of width.
  method Fold(bits: Sig, width: nat) returns (result: seq<Expr>)
    requires 0 < width < |bits|
    ensures Folds(result, bits, |bits|, width)
  {
    result := seq(width, _ => Zero);
    assert Folds(result, bits, 0, width);
    hide Folds, FoldedBit;
    var sig: seq<Expr> := [];
    ghost var q, from := 0, 0;
    for i := 0 to |bits|
      invariant from <= i && Folds(result, bits, from, width)
      invariant i < |bits| ==> i - from < width && from == q * width && sig == Refs(bits[from..i])
      invariant i == |bits| ==> from == i
    {
      assert bits[from..i + 1] == bits[from..i] + [bits[i]];
      sig := sig + [Ref(bits[i])];
      if |sig| == width || i == |bits| - 1 {
        FoldsGroup(result, bits, q, from, i + 1, width);
        result := OrCell(result, sig);
        sig := [];
        NextMultiple(q, width);
        q, from := q + 1, i + 1;
      }
    }
  }

  lemma NextMultiple(q: nat, width: nat)
    ensures (q + 1) * width == q * width + width
  {
  }

  lemma FoldsGroup(result: seq<Expr>, bits: Sig, q: nat, from: nat, to: nat, width: nat)
    requires width > 0 && from == q * width && from <= to <= |bits| && to <= from + width
    requires Folds(result, bits, from, width)
    ensures Folds(OrCell(result, Refs(bits[from..to])), bits, to, width)
  {
    hide FoldedBit;
    var sig := Refs(bits[from..to]);
    var more := OrCell(result, sig);
    forall v: Valuation, k | 0 <= k < width
      ensures Eval(more[k], v) <==> FoldedBit(bits, to, width, k, v)
    {
      FoldGroup(bits, q, from, to, width, k, v);
      assert k < |sig| ==> sig[k] == Ref(bits[from + k]);
    }
  }

  // One more group of at most width bits, starting at a multiple of width.
  lemma FoldGroup(s: Sig, q: nat, from: nat, to: nat, width: nat, k: nat, v: Valuation)
    requires k < width && from == q * width && from <= to <= |s| && to <= from + width
    ensures FoldedBit(s, to, width, k, v) <==>
      FoldedBit(s, from, width, k, v) || (from + k < to && Eval(Ref(s[from + k]), v))
  {
    forall i | from <= i < to
      ensures i % width == i - from
    {
      ModGroup(q, i - from, width);
    }
    if from + k < to {
      assert (from + k) % width == k;
    }
  }

  lemma ModGroup(q: nat, r: nat, width: nat)
    requires r < width
    ensures (q * width + r) % width == r
  {
    var x := q * width + r;
    var d, m := x / width, x % width;
    assert x == d * width + m;
    Distribute(q, d, width);
    if d < q {
      AtLeastOnce(q - d, width);
    } else if q < d {
      Distribute(d, q, width);
      AtLeastOnce(d - q, width);
    }
  }

  lemma Distribute(a: int, b: int, width: nat)
    ensures (a - b) * width == a * width - b * width
  {
  }

  lemma AtLeastOnce(n: nat, width: nat)
    requires n > 0
    ensures n * width >= width
  {
    Distribute(n, 1, width);
  }
}

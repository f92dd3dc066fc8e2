// The drivers of RFuzz and DirectFuzz: each cycle marks the multiplexer selects that differ from the
// first cycle.
module ToggleDriver {
  import opened Words

  // The bitmap b after the cycles: each bit that ever differed from the first cycle is added.
  function Toggled(b: seq<bv32>, cycles: seq<seq<bv32>>): (r: seq<bv32>)
    requires forall t | 0 <= t < |cycles| :: |cycles[t]| == |b|
    ensures |r| == |b|
  {
    if cycles == [] then b else
      var front := Toggled(b, cycles[..|cycles| - 1]);
      seq(|b|, i requires 0 <= i < |b| => Or(front[i], Xor(cycles[0][i], cycles[|cycles| - 1][i])))
  }

  // Bit k of word i differs between two cycles.
  ghost predicate Toggles(cycles: seq<seq<bv32>>, i: nat, k: nat)
    requires forall t | 0 <= t < |cycles| :: i < |cycles[t]|
  {
    exists t, u | 0 <= t < |cycles| && 0 <= u < |cycles| :: BitSet(cycles[t][i], k) != BitSet(cycles[u][i], k)
  }

  lemma {:induction false} ToggledFromFirst(b: seq<bv32>, cycles: seq<seq<bv32>>, i: nat, k: nat)
    requires forall t | 0 <= t < |cycles| :: |cycles[t]| == |b|
    requires i < |b|
    ensures BitSet(Toggled(b, cycles)[i], k) <==>
              BitSet(b[i], k) || exists t | 0 <= t < |cycles| :: BitSet(cycles[0][i], k) != BitSet(cycles[t][i], k)
  {
    hide BitSet, Or, Xor;
    if cycles != [] {
      var n := |cycles| - 1;
      var front := cycles[..n];
      ToggledFromFirst(b, front, i, k);
      OrBits(Toggled(b, front)[i], Xor(cycles[0][i], cycles[n][i]), k);
      XorBits(cycles[0][i], cycles[n][i], k);
      if t :| 0 <= t < |front| && BitSet(front[0][i], k) != BitSet(front[t][i], k) {
        assert front[0] == cycles[0] && front[t] == cycles[t];
      }
      if t :| 0 <= t < |cycles| && BitSet(cycles[0][i], k) != BitSet(cycles[t][i], k) {
        if t < n {
          assert front[0] == cycles[0] && front[t] == cycles[t];
        }
      }
    }
  }

  // From a cleared bitmap, exactly the bits that took both values during the run are set.
  lemma ToggledBits(b: seq<bv32>, cycles: seq<seq<bv32>>, i: nat, k: nat)
    requires forall t | 0 <= t < |cycles| :: |cycles[t]| == |b|
    requires i < |b| && b[i] == 0
    ensures BitSet(Toggled(b, cycles)[i], k) <==> Toggles(cycles, i, k)
  {
    ToggledFromFirst(b, cycles, i, k);
    ZeroHasNoBit(k);
    hide BitSet, Toggled;
    if t, u :| 0 <= t < |cycles| && 0 <= u < |cycles| && BitSet(cycles[t][i], k) != BitSet(cycles[u][i], k) {
      assert BitSet(cycles[0][i], k) != BitSet(cycles[t][i], k) || BitSet(cycles[0][i], k) != BitSet(cycles[u][i], k);
    }
  }

  class RFuzz {
    const bitmap: array<bv32>
    const initState: array<bv32>
    // The static flag of update.
    var isFirst: bool
    ghost var cycles: seq<seq<bv32>>
    ghost const initialBitmap: seq<bv32>

    ghost predicate Valid()
      reads this, bitmap, initState
    {
      && bitmap != initState && bitmap.Length == initState.Length == |initialBitmap|
      && (forall t | 0 <= t < |cycles| :: |cycles[t]| == bitmap.Length)
      && (isFirst <==> cycles == [])
      && (cycles != [] ==> initState[..] == cycles[0])
      && bitmap[..] == Toggled(initialBitmap, cycles)
    }

    constructor (bitmap: array<bv32>)
      ensures Valid() && cycles == [] && this.bitmap == bitmap && initialBitmap == bitmap[..] && fresh(initState)
    {
      this.bitmap := bitmap;
      initState := new bv32[bitmap.Length](_ => 0);
      isFirst, cycles, initialBitmap := true, [], bitmap[..];
    }

    method Update(coverage: seq<bv32>)
      requires Valid() && |coverage| == bitmap.Length
      modifies this`isFirst, this`cycles, bitmap, initState
      ensures Valid() && cycles == old(cycles) + [coverage]
    {
      hide Or, Xor;
      if isFirst {
        Initialize(coverage);
        isFirst := false;
      }
      ghost var was, first := bitmap[..], initState[..];
      for i := 0 to bitmap.Length
        invariant initState[..] == first && cycles == old(cycles) && !isFirst
        invariant forall k | 0 <= k < bitmap.Length ::
          bitmap[k] == if k < i then Or(was[k], Xor(first[k], coverage[k])) else was[k]
      {
        bitmap[i] := Or(bitmap[i], Xor(initState[i], coverage[i]));
      }
      cycles := cycles + [coverage];
      assert cycles[..|cycles| - 1] == old(cycles);
    }

    method Initialize(coverage: seq<bv32>)
      requires bitmap != initState && |coverage| == initState.Length
      modifies initState
      ensures initState[..] == coverage
    {
      for i := 0 to initState.Length
        invariant forall k | 0 <= k < i :: initState[k] == coverage[k]
      {
        initState[i] := coverage[i];
      }
    }
  }

  // The coverage words of all instances in the order of the flat bitmap.
  function Flat(coverage: seq<seq<bv32>>): seq<bv32> {
    if coverage == [] then [] else Flat(coverage[..|coverage| - 1]) + coverage[|coverage| - 1]
  }

  lemma {:induction false} FlatRow(coverage: seq<seq<bv32>>, cols: nat, i: nat)
    requires i < |coverage| && forall r | 0 <= r < |coverage| :: |coverage[r]| == cols
    ensures |Flat(coverage)| == |coverage| * cols && i * cols + cols <= |coverage| * cols
    ensures Flat(coverage)[i * cols..i * cols + cols] == coverage[i]
    ensures i * cols + cols == (i + 1) * cols
  {
    var n := |coverage| - 1;
    var front := coverage[..n];
    assert (n + 1) * cols == n * cols + cols;
    if n > 0 {
      FlatRow(front, cols, if i < n then i else 0);
    }
    if i < n {
      assert front[i] == coverage[i];
      assert Flat(coverage)[i * cols..i * cols + cols] == Flat(front)[i * cols..i * cols + cols];
    }
  }

  lemma Product(a: nat, b: nat)
    ensures a * b >= 0
  {
  }

  class DirectFuzz {
    const instanceCount: nat
    const chunksPerInstance: nat
    // The shared memory may go on behind the words of the instances.
    const bitmap: array<bv32>
    const initState: array<bv32>
    var isFirst: bool
    ghost var cycles: seq<seq<bv32>>
    ghost const initialBitmap: seq<bv32>

    ghost predicate Valid()
      reads this, bitmap, initState
    {
      && bitmap != initState &&
        initState.Length == |initialBitmap| == instanceCount * chunksPerInstance <= bitmap.Length
      && (forall t | 0 <= t < |cycles| :: |cycles[t]| == initState.Length)
      && (isFirst <==> cycles == [])
      && (cycles != [] ==> initState[..] == cycles[0])
      && bitmap[..initState.Length] == Toggled(initialBitmap, cycles)
    }

    predicate Fits(coverage: seq<seq<bv32>>) {
      |coverage| == instanceCount && forall r | 0 <= r < |coverage| :: |coverage[r]| == chunksPerInstance
    }

    constructor (bitmap: array<bv32>, instanceCount: nat, chunksPerInstance: nat)
      requires bitmap.Length >= instanceCount * chunksPerInstance
      ensures Valid() && cycles == [] && this.bitmap == bitmap && fresh(initState)
      ensures initialBitmap == bitmap[..instanceCount * chunksPerInstance]
      ensures this.instanceCount == instanceCount && this.chunksPerInstance == chunksPerInstance
    {
      this.bitmap, this.instanceCount, this.chunksPerInstance := bitmap, instanceCount, chunksPerInstance;
      Product(instanceCount, chunksPerInstance);
      initState := new bv32[instanceCount * chunksPerInstance](_ => 0);
      isFirst, cycles, initialBitmap := true, [], bitmap[..instanceCount * chunksPerInstance];
    }

    method Update(coverage: seq<seq<bv32>>)
      requires Valid() && Fits(coverage)
      modifies this`isFirst, this`cycles, bitmap, initState
      ensures Valid() && cycles == old(cycles) + [Flat(coverage)]
    {
      hide Or, Xor, Flat, Toggled;
      FlatSize(coverage);
      if isFirst {
        Initialize(coverage);
        isFirst := false;
      }
      ghost var was, first, flat := bitmap[..initState.Length], initState[..], Flat(coverage);
      ghost var base := 0;
      for i := 0 to instanceCount
        invariant base == i * chunksPerInstance <= initState.Length
        invariant initState[..] == first && cycles == old(cycles) && !isFirst
        invariant forall k | 0 <= k < initState.Length ::
          bitmap[k] == if k < base then Or(was[k], Xor(first[k], flat[k])) else was[k]
      {
        FlatRow(coverage, chunksPerInstance, i);
        UpdateInstance(i, base, coverage[i]);
        forall k | base <= k < base + chunksPerInstance
          ensures flat[k] == coverage[i][k - base]
        {
          assert flat[base..base + chunksPerInstance][k - base] == flat[k];
        }
        base := base + chunksPerInstance;
      }
      ToggledMore(initialBitmap, cycles, flat, first, was);
      cycles := cycles + [flat];
    }

    // The chunks of one instance, which starts at word base.
    method UpdateInstance(i: nat, ghost base: nat, row: seq<bv32>)
      requires base == i * chunksPerInstance && base + chunksPerInstance <= initState.Length <= bitmap.Length
      requires |row| == chunksPerInstance && bitmap != initState
      modifies bitmap
      ensures forall k | 0 <= k < initState.Length ::
        bitmap[k] == if base <= k < base + chunksPerInstance then Or(old(bitmap[k]),
            Xor(initState[k], row[k - base])) else old(bitmap[k])
    {
      hide Or, Xor;
      for j := 0 to chunksPerInstance
        invariant forall k | 0 <= k < initState.Length ::
          bitmap[k] == if base <= k < base + j then Or(old(bitmap[k]), Xor(initState[k], row[k - base]))
              else old(bitmap[k])
      {
        bitmap[i * chunksPerInstance + j] :=
          Or(bitmap[i * chunksPerInstance + j], Xor(initState[i * chunksPerInstance + j], row[j]));
      }
    }

    method Initialize(coverage: seq<seq<bv32>>)
      requires Fits(coverage) && initState.Length == instanceCount * chunksPerInstance == |Flat(coverage)|
      modifies initState
      ensures initState[..] == Flat(coverage)
    {
      hide Flat;
      ghost var base, flat := 0, Flat(coverage);
      for i := 0 to instanceCount
        invariant base == i * chunksPerInstance <= initState.Length
        invariant forall k | 0 <= k < base :: initState[k] == flat[k]
      {
        FlatRow(coverage, chunksPerInstance, i);
        for j := 0 to chunksPerInstance
          invariant forall k | 0 <= k < base + j :: initState[k] == flat[k]
        {
          assert flat[base + j] == flat[base..base + chunksPerInstance][j] == coverage[i][j];
          initState[i * chunksPerInstance + j] := coverage[i][j];
        }
        base := base + chunksPerInstance;
      }
    }

    lemma FlatSize(coverage: seq<seq<bv32>>)
      requires Fits(coverage)
      ensures |Flat(coverage)| == instanceCount * chunksPerInstance
    {
      if coverage != [] {
        FlatRow(coverage, chunksPerInstance, 0);
      }
    }
  }

  lemma ToggledMore(b: seq<bv32>, cycles: seq<seq<bv32>>, cycle: seq<bv32>, first: seq<bv32>, was: seq<bv32>)
    requires (forall t | 0 <= t < |cycles| :: |cycles[t]| == |b|) && |cycle| == |first| == |b|
    requires was == Toggled(b, cycles) && first == if cycles == [] then cycle else cycles[0]
    ensures Toggled(b, cycles + [cycle]) == seq(|b|, i requires 0 <= i < |b| => Or(was[i], Xor(first[i], cycle[i])))
  {
    hide Or, Xor;
    var more := cycles + [cycle];
    assert more[..|more| - 1] == cycles;
  }
}

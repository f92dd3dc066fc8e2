// The fuzzer's coverage bitmaps. Each method keeps a global bitmap and shares a local one with the
// simulation; all four agree on what reset, new_coverage and apply mean for the points covered.
module Coverage {
  import opened Basics
  import opened Words

  // One thing a bitmap can record: a cell, and for word bitmaps a bit of it.
  datatype Point = Point(row: nat, col: nat, bit: nat)

  function BytePoints(b: seq<bv8>): set<Point> {
    set i | 0 <= i < |b| && b[i] != 0 :: Point(0, i, 0)
  }

  function WordPoints(b: seq<bv32>): set<Point> {
    set i, k | 0 <= i < |b| && 0 <= k < 32 && BitSet(b[i], k) :: Point(0, i, k)
  }

  // A byte keeps the first count it was given.
  function MergeByte(b: bv8, l: bv8): bv8 { if b == 0 && l != 0 then l else b }

  lemma ByteGain(b: seq<bv8>, l: seq<bv8>)
    requires |b| == |l|
    ensures (exists i | 0 <= i < |b| :: MergeByte(b[i], l[i]) != b[i]) <==> !(BytePoints(l) <= BytePoints(b))
  {
    if i :| 0 <= i < |b| && MergeByte(b[i], l[i]) != b[i] {
      assert Point(0, i, 0) in BytePoints(l) && Point(0, i, 0) !in BytePoints(b);
    }
    if !(BytePoints(l) <= BytePoints(b)) {
      var p :| p in BytePoints(l) && p !in BytePoints(b);
      assert MergeByte(b[p.col], l[p.col]) != b[p.col];
    }
  }

  lemma ByteUnion(b: seq<bv8>, l: seq<bv8>, m: seq<bv8>)
    requires |b| == |l| == |m| && forall i | 0 <= i < |b| :: m[i] == MergeByte(b[i], l[i])
    ensures BytePoints(m) == BytePoints(b) + BytePoints(l)
  {
  }

  lemma WordGain(b: seq<bv32>, l: seq<bv32>)
    requires |b| == |l|
    ensures (exists i | 0 <= i < |b| :: b[i] != Or(b[i], l[i])) <==> !(WordPoints(l) <= WordPoints(b))
  {
    hide Or, BitSet;
    if i :| 0 <= i < |b| && b[i] != Or(b[i], l[i]) {
      OrGains(b[i], l[i]);
      var k :| 0 <= k < 32 && BitSet(l[i], k) && !BitSet(b[i], k);
      assert Point(0, i, k) in WordPoints(l) && Point(0, i, k) !in WordPoints(b);
    }
    if !(WordPoints(l) <= WordPoints(b)) {
      var p :| p in WordPoints(l) && p !in WordPoints(b);
      OrGains(b[p.col], l[p.col]);
    }
  }

  lemma WordUnion(b: seq<bv32>, l: seq<bv32>, m: seq<bv32>)
    requires |b| == |l| == |m| && forall i | 0 <= i < |b| :: m[i] == Or(b[i], l[i])
    ensures WordPoints(m) == WordPoints(b) + WordPoints(l)
  {
    hide Or, BitSet;
    forall i, k | 0 <= i < |b| && 0 <= k < 32
      ensures BitSet(m[i], k) <==> BitSet(b[i], k) || BitSet(l[i], k)
    {
      OrBits(b[i], l[i], k);
    }
  }

  lemma PointsGrow(a: set<Point>, b: set<Point>, x: Point)
    requires a <= b && x in b && x !in a
    ensures |a| < |b|
  {
    SubsetSize(a, b - {x});
  }

  class SurgeFuzz {
    const bitmap: array<bv8>
    const localBitmap: array<bv8>

    ghost predicate Valid() { bitmap.Length == localBitmap.Length && bitmap != localBitmap }

    constructor (bitmapByteSize: nat)
      ensures Valid() && bitmap.Length == bitmapByteSize && fresh(bitmap) && fresh(localBitmap)
      ensures BytePoints(bitmap[..]) == {}
    {
      bitmap := new bv8[bitmapByteSize](_ => 0);
      localBitmap := new bv8[bitmapByteSize](_ => 0);
    }

    method Reset()
      modifies localBitmap
      ensures forall i | 0 <= i < localBitmap.Length :: localBitmap[i] == 0
      ensures BytePoints(localBitmap[..]) == {}
    {
      for i := 0 to localBitmap.Length
        invariant forall k | 0 <= k < i :: localBitmap[k] == 0
      {
        localBitmap[i] := 0;
      }
    }

    // True exactly when apply would change the bitmap, that is, when the run has a new point.
    method NewCoverage() returns (isNew: bool)
      requires Valid()
      ensures isNew <==> exists i | 0 <= i < bitmap.Length :: MergeByte(bitmap[i], localBitmap[i]) != bitmap[i]
      ensures isNew <==> !(BytePoints(localBitmap[..]) <= BytePoints(bitmap[..]))
    {
      ByteGain(bitmap[..], localBitmap[..]);
      isNew := false;
      for i := 0 to bitmap.Length
        invariant !isNew && forall k | 0 <= k < i :: MergeByte(bitmap[k], localBitmap[k]) == bitmap[k]
      {
        if bitmap[i] == 0 && localBitmap[i] != 0 {
          isNew := true;
          assert MergeByte(bitmap[..][i], localBitmap[..][i]) != bitmap[..][i];
          break;
        }
      }
    }

    method Apply()
      requires Valid()
      modifies bitmap
      ensures forall i | 0 <= i < bitmap.Length :: bitmap[i] == MergeByte(old(bitmap[i]), localBitmap[i])
      ensures BytePoints(bitmap[..]) == old(BytePoints(bitmap[..])) + BytePoints(localBitmap[..])
    {
      for i := 0 to bitmap.Length
        invariant forall k | 0 <= k < i :: bitmap[k] == MergeByte(old(bitmap[k]), localBitmap[k])
        invariant forall k | i <= k < bitmap.Length :: bitmap[k] == old(bitmap[k])
      {
        if bitmap[i] == 0 && localBitmap[i] != 0 {
          bitmap[i] := localBitmap[i];
        }
      }
      ByteUnion(old(bitmap[..]), localBitmap[..], bitmap[..]);
    }
  }

  class RFuzz {
    const bitmap: array<bv32>
    const localBitmap: array<bv32>

    ghost predicate Valid() { bitmap.Length == localBitmap.Length && bitmap != localBitmap }

    constructor (bitmapByteSize: nat)
      ensures Valid() && bitmap.Length == bitmapByteSize / 4 && fresh(bitmap) && fresh(localBitmap)
      ensures forall i | 0 <= i < bitmap.Length :: bitmap[i] == 0
    {
      bitmap := new bv32[bitmapByteSize / 4](_ => 0);
      localBitmap := new bv32[bitmapByteSize / 4](_ => 0);
    }

    method Reset()
      modifies localBitmap
      ensures forall i | 0 <= i < localBitmap.Length :: localBitmap[i] == 0
      ensures WordPoints(localBitmap[..]) == {}
    {
      hide BitSet;
      for i := 0 to localBitmap.Length
        invariant forall k | 0 <= k < i :: localBitmap[k] == 0
      {
        localBitmap[i] := 0;
      }
      forall k: nat
        ensures !BitSet(0, k)
      {
        ZeroHasNoBit(k);
      }
    }

    method NewCoverage() returns (isNew: bool)
      requires Valid()
      ensures isNew <==> exists i | 0 <= i < bitmap.Length :: bitmap[i] != Or(bitmap[i], localBitmap[i])
      ensures isNew <==> !(WordPoints(localBitmap[..]) <= WordPoints(bitmap[..]))
    {
      WordGain(bitmap[..], localBitmap[..]);
      hide Or, WordPoints;
      isNew := false;
      for i := 0 to bitmap.Length
        invariant !isNew && forall k | 0 <= k < i :: bitmap[k] == Or(bitmap[k], localBitmap[k])
      {
        if bitmap[i] != Or(bitmap[i], localBitmap[i]) {
          isNew := true;
          assert bitmap[..][i] != Or(bitmap[..][i], localBitmap[..][i]);
          break;
        }
      }
    }

    method Apply()
      requires Valid()
      modifies bitmap
      ensures forall i | 0 <= i < bitmap.Length :: bitmap[i] == Or(old(bitmap[i]), localBitmap[i])
      ensures WordPoints(bitmap[..]) == old(WordPoints(bitmap[..])) + WordPoints(localBitmap[..])
    {
      hide Or, WordPoints;
      for i := 0 to bitmap.Length
        invariant forall k | 0 <= k < i :: bitmap[k] == Or(old(bitmap[k]), localBitmap[k])
        invariant forall k | i <= k < bitmap.Length :: bitmap[k] == old(bitmap[k])
      {
        bitmap[i] := Or(bitmap[i], localBitmap[i]);
      }
      WordUnion(old(bitmap[..]), localBitmap[..], bitmap[..]);
    }
  }

  // ---- Two-dimensional bitmaps over a flat shared memory ----

  function At(row: nat, col: nat, cols: nat): nat { row * cols + col }

  lemma AtBound(row: nat, col: nat, rows: nat, cols: nat)
    requires row < rows && col < cols
    ensures At(row, col, cols) < rows * cols && (row + 1) * cols == row * cols + cols <= rows * cols
  {
    Grow(rows - row - 1, cols);
    assert rows * cols == (row + 1) * cols + (rows - row - 1) * cols;
  }

  lemma Grow(n: nat, cols: nat)
    ensures n * cols >= 0
  {
  }

  class DifuzzRTL {
    const rows: nat
    const cols: nat
    const bitmap: array2<bv8>
    const localBitmap: array<bv8>

    ghost predicate Valid() {
      bitmap.Length0 == rows && bitmap.Length1 == cols && localBitmap.Length == rows * cols &&
        bitmap as object != localBitmap
    }

    ghost function Covered(): set<Point>
      reads bitmap
      requires Valid()
    {
      set i, j | 0 <= i < rows && 0 <= j < cols && bitmap[i, j] != 0 :: Point(i, j, 0)
    }

    ghost function LocalByte(i: nat, j: nat): bv8
      reads localBitmap
      requires Valid() && i < rows && j < cols
    {
      AtBound(i, j, rows, cols);
      localBitmap[At(i, j, cols)]
    }

    ghost function Local(): set<Point>
      reads localBitmap
      requires Valid()
    {
      set i, j | 0 <= i < rows && 0 <= j < cols && LocalByte(i, j) != 0 :: Point(i, j, 0)
    }

    method NewCoverage() returns (isNew: bool)
      requires Valid()
      ensures isNew <==>
        exists i, j | 0 <= i < rows && 0 <= j < cols :: MergeByte(bitmap[i, j], LocalByte(i, j)) != bitmap[i, j]
      ensures isNew <==> !(Local() <= Covered())
    {
      isNew := false;
      for i := 0 to rows
        invariant isNew <==>
          exists r, c | 0 <= r < i && 0 <= c < cols :: MergeByte(bitmap[r, c], LocalByte(r, c)) != bitmap[r, c]
      {
        ghost var before := isNew;
        for j := 0 to cols
          invariant isNew == before
          invariant forall c | 0 <= c < j :: MergeByte(bitmap[i, c], LocalByte(i, c)) == bitmap[i, c]
        {
          AtBound(i, j, rows, cols);
          if bitmap[i, j] == 0 && localBitmap[At(i, j, cols)] != 0 {
            isNew := true;
            assert MergeByte(bitmap[i, j], LocalByte(i, j)) != bitmap[i, j];
            break;
          }
        }
      }
      if isNew {
        ghost var i, j :| 0 <= i < rows && 0 <= j < cols && MergeByte(bitmap[i, j], LocalByte(i, j)) != bitmap[i, j];
        assert Point(i, j, 0) in Local() && Point(i, j, 0) !in Covered();
      }
    }

    method Apply()
      requires Valid()
      modifies bitmap
      ensures forall i, j | 0 <= i < rows && 0 <= j < cols ::
        bitmap[i, j] == MergeByte(old(bitmap[i, j]), LocalByte(i, j))
      ensures Covered() == old(Covered()) + Local()
    {
      for i := 0 to rows
        invariant forall r, c | 0 <= r < rows && 0 <= c < cols ::
          bitmap[r, c] == if r < i then MergeByte(old(bitmap[r, c]), LocalByte(r, c)) else old(bitmap[r, c])
      {
        for j := 0 to cols
          invariant forall r, c | 0 <= r < rows && 0 <= c < cols ::
            bitmap[r, c] == if r < i || (r == i && c < j) then MergeByte(old(bitmap[r, c]), LocalByte(r, c))
                else old(bitmap[r, c])
        {
          AtBound(i, j, rows, cols);
          if bitmap[i, j] == 0 && localBitmap[At(i, j, cols)] != 0 {
            bitmap[i, j] := localBitmap[At(i, j, cols)];
          }
        }
      }
    }

    method Reset()
      requires Valid()
      modifies localBitmap
      ensures forall k | 0 <= k < localBitmap.Length :: localBitmap[k] == 0
    {
      ghost var base := 0;
      for i := 0 to rows
        invariant base == i * cols <= rows * cols
        invariant forall k | 0 <= k < base :: localBitmap[k] == 0
      {
        NextRow(i, rows, cols);
        for j := 0 to cols
          invariant forall k | 0 <= k < base + j :: localBitmap[k] == 0
        {
          localBitmap[i * cols + j] := 0;
        }
        base := base + cols;
      }
    }
  }

  lemma NextRow(i: nat, rows: nat, cols: nat)
    requires i < rows
    ensures (i + 1) * cols == i * cols + cols <= rows * cols
  {
    Grow(rows - i - 1, cols);
    assert rows * cols == (i + 1) * cols + (rows - i - 1) * cols;
  }

  // The word after the last one that DirectFuzz::reset clears. Its inner loop counts bytes where rows
  // count words, so it runs past the end of each row.
  function ResetEnd(rows: nat, bitmapByteSize: nat): nat {
    if rows == 0 then 0 else (rows - 1) * (bitmapByteSize / 4) + bitmapByteSize
  }

  class DirectFuzz {
    const bitmapByteSize: nat
    const rows: nat
    const cols: nat
    const bitmap: array2<bv32>
    // The mapped memory behind the rows * cols shared words.
    const localMemory: array<bv32>

    ghost predicate Valid() {
      && cols == bitmapByteSize / 4
      && bitmap.Length0 == rows && bitmap.Length1 == cols && localMemory.Length >= rows * cols &&
        bitmap as object != localMemory
    }

    ghost function LocalWord(i: nat, j: nat): bv32
      reads localMemory
      requires Valid() && i < rows && j < cols
    {
      AtBound(i, j, rows, cols);
      localMemory[At(i, j, cols)]
    }

    ghost function Covered(): set<Point>
      reads bitmap
      requires Valid()
    {
      set i, j, k | 0 <= i < rows && 0 <= j < cols && 0 <= k < 32 && BitSet(bitmap[i, j], k) :: Point(i, j, k)
    }

    ghost function Local(): set<Point>
      reads localMemory
      requires Valid()
    {
      set i, j, k | 0 <= i < rows && 0 <= j < cols && 0 <= k < 32 && BitSet(LocalWord(i, j), k) :: Point(i, j, k)
    }

    // What reset clears, provided the memory it touches is mapped: all rows * cols words, and the
    // words behind them up to ResetEnd.
    method Reset()
      requires Valid() && ResetEnd(rows, bitmapByteSize) <= localMemory.Length
      modifies localMemory
      ensures rows * cols <= ResetEnd(rows, bitmapByteSize)
      ensures forall k | 0 <= k < localMemory.Length ::
        localMemory[k] == if k < ResetEnd(rows, bitmapByteSize) then 0 else old(localMemory[k])
    {
      for i := 0 to rows
        invariant i > 0 ==> (i - 1) * cols + bitmapByteSize <= ResetEnd(rows, bitmapByteSize)
        invariant forall k | 0 <= k < localMemory.Length ::
          localMemory[k] == if i > 0 && k < (i - 1) * cols + bitmapByteSize then 0 else old(localMemory[k])
      {
        NextRow(i, rows, cols);
        LastRow(i, rows, cols);
        PreviousRow(i, cols);
        for j := 0 to bitmapByteSize
          invariant forall k | 0 <= k < localMemory.Length ::
            localMemory[k] == if k < i * cols + j || (i > 0 && k < (i - 1) * cols + bitmapByteSize) then 0
                else old(localMemory[k])
        {
          localMemory[i * cols + j] := 0;
        }
      }
      if rows > 0 {
        NextRow(rows - 1, rows, cols);
      }
    }

    method NewCoverage() returns (isNew: bool)
      requires Valid()
      ensures isNew <==>
        exists i, j | 0 <= i < rows && 0 <= j < cols :: bitmap[i, j] != Or(bitmap[i, j], LocalWord(i, j))
      ensures isNew <==> !(Local() <= Covered())
    {
      hide Or, BitSet;
      isNew := false;
      for i := 0 to rows
        invariant isNew <==>
          exists r, c | 0 <= r < i && 0 <= c < cols :: bitmap[r, c] != Or(bitmap[r, c], LocalWord(r, c))
      {
        ghost var before := isNew;
        for j := 0 to cols
          invariant isNew == before
          invariant forall c | 0 <= c < j :: bitmap[i, c] == Or(bitmap[i, c], LocalWord(i, c))
        {
          AtBound(i, j, rows, cols);
          if bitmap[i, j] != Or(bitmap[i, j], localMemory[At(i, j, cols)]) {
            isNew := true;
            assert bitmap[i, j] != Or(bitmap[i, j], LocalWord(i, j));
            break;
          }
        }
      }
      if isNew {
        ghost var i, j :| 0 <= i < rows && 0 <= j < cols && bitmap[i, j] != Or(bitmap[i, j], LocalWord(i, j));
        OrGains(bitmap[i, j], LocalWord(i, j));
        ghost var k :| 0 <= k < 32 && BitSet(LocalWord(i, j), k) && !BitSet(bitmap[i, j], k);
        assert Point(i, j, k) in Local() && Point(i, j, k) !in Covered();
      } else {
        forall p | p in Local()
          ensures p in Covered()
        {
          OrGains(bitmap[p.row, p.col], LocalWord(p.row, p.col));
        }
      }
    }

    method Apply()
      requires Valid()
      modifies bitmap
      ensures forall i, j | 0 <= i < rows && 0 <= j < cols :: bitmap[i, j] == Or(old(bitmap[i, j]), LocalWord(i, j))
      ensures Covered() == old(Covered()) + Local()
    {
      hide Or, BitSet;
      for i := 0 to rows
        invariant forall r, c | 0 <= r < rows && 0 <= c < cols ::
          bitmap[r, c] == if r < i then Or(old(bitmap[r, c]), LocalWord(r, c)) else old(bitmap[r, c])
      {
        for j := 0 to cols
          invariant forall r, c | 0 <= r < rows && 0 <= c < cols ::
            bitmap[r, c] == if r < i || (r == i && c < j) then Or(old(bitmap[r, c]), LocalWord(r, c))
                else old(bitmap[r, c])
        {
          AtBound(i, j, rows, cols);
          bitmap[i, j] := Or(bitmap[i, j], localMemory[At(i, j, cols)]);
        }
      }
      forall i, j, k | 0 <= i < rows && 0 <= j < cols && 0 <= k < 32
        ensures BitSet(bitmap[i, j], k) <==> old(BitSet(bitmap[i, j], k)) || BitSet(LocalWord(i, j), k)
      {
        OrBits(old(bitmap[i, j]), LocalWord(i, j), k);
      }
    }
  }

  lemma LastRow(i: nat, rows: nat, cols: nat)
    requires i < rows
    ensures i * cols <= (rows - 1) * cols
  {
    Grow(rows - 1 - i, cols);
    assert (rows - 1) * cols == i * cols + (rows - 1 - i) * cols;
  }

  lemma PreviousRow(i: nat, cols: nat)
    ensures i > 0 ==> (i - 1) * cols + cols == i * cols
  {
  }

  // reset stays inside the shared words exactly if there are none.
  lemma DirectFuzzResetOverruns(rows: nat, bitmapByteSize: nat)
    ensures ResetEnd(rows, bitmapByteSize) <= rows * (bitmapByteSize / 4) <==> rows == 0 || bitmapByteSize == 0
  {
    if rows > 0 {
      NextRow(rows - 1, rows, bitmapByteSize / 4);
    }
  }
}

// The other three coverage methods in a campaign: what a simulation marks, and that judging it against
// the coverage so far and then merging it is a step of the campaign.
module Monitors {
  import opened Words
  import Campaign
  import Coverage
  import ToggleDriver

  // ---- RFuzz ----

  // The bits that took both values during a run.
  ghost function TogglePoints(words: nat, cycles: seq<seq<bv32>>): set<Coverage.Point>
    requires forall t | 0 <= t < |cycles| :: |cycles[t]| == words
  {
    set i, k | 0 <= i < words && 0 <= k < 32 && ToggleDriver.Toggles(cycles, i, k) :: Coverage.Point(0, i, k)
  }

  lemma ToggledPoints(b: seq<bv32>, cycles: seq<seq<bv32>>)
    requires (forall t | 0 <= t < |cycles| :: |cycles[t]| == |b|) && forall i | 0 <= i < |b| :: b[i] == 0
    ensures Coverage.WordPoints(ToggleDriver.Toggled(b, cycles)) == TogglePoints(|b|, cycles)
  {
    hide BitSet, ToggleDriver.Toggled, ToggleDriver.Toggles;
    forall i, k | 0 <= i < |b|
      ensures BitSet(ToggleDriver.Toggled(b, cycles)[i], k) <==> ToggleDriver.Toggles(cycles, i, k)
    {
      ToggleDriver.ToggledBits(b, cycles, i, k);
    }
  }

  // One simulation: reset, one driver update per cycle, test for new coverage, merge.
  method RunRFuzz(coverage: Coverage.RFuzz, cycles: seq<seq<bv32>>, ghost initialSeeds: nat, ghost s: Campaign.State,
                  ghost parent: nat)
    returns (isNew: bool, ghost t: Campaign.State)
    requires coverage.Valid() && forall c | 0 <= c < |cycles| :: |cycles[c]| == coverage.bitmap.Length
    requires s.covered == Coverage.WordPoints(coverage.bitmap[..])
    requires (|s.members| < initialSeeds || parent < |s.members|)
    modifies coverage.bitmap, coverage.localBitmap
    ensures Campaign.Next(initialSeeds, s, TogglePoints(coverage.bitmap.Length, cycles), parent, t)
    ensures t.covered == Coverage.WordPoints(coverage.bitmap[..])
    ensures t == Campaign.After(initialSeeds, s, TogglePoints(coverage.bitmap.Length, cycles), parent, isNew)
  {
    hide Coverage.WordPoints, TogglePoints, ToggleDriver.Toggled, Campaign.Next, Campaign.Kept;
    coverage.Reset();
    DriveRFuzz(coverage.localBitmap, cycles);
    isNew := coverage.NewCoverage();
    coverage.Apply();
    ghost var run := TogglePoints(coverage.bitmap.Length, cycles);
    t := Campaign.After(initialSeeds, s, run, parent, isNew);
    Campaign.AfterIsNext(initialSeeds, s, run, parent, isNew);
  }

  method DriveRFuzz(bitmap: array<bv32>, cycles: seq<seq<bv32>>)
    requires (forall c | 0 <= c < |cycles| :: |cycles[c]| == bitmap.Length) && forall i | 0 <= i < bitmap.Length ::
      bitmap[i] == 0
    modifies bitmap
    ensures Coverage.WordPoints(bitmap[..]) == TogglePoints(bitmap.Length, cycles)
  {
    hide Coverage.WordPoints, TogglePoints, ToggleDriver.Toggled;
    var driver := new ToggleDriver.RFuzz(bitmap);
    for c := 0 to |cycles|
      invariant driver.Valid() && driver.bitmap == bitmap && driver.initialBitmap == old(bitmap[..])
      invariant fresh(driver.initState)
      invariant driver.cycles == cycles[..c]
    {
      driver.Update(cycles[c]);
      assert cycles[..c + 1] == cycles[..c] + [cycles[c]];
    }
    assert cycles[..|cycles|] == cycles;
    ToggledPoints(old(bitmap[..]), cycles);
  }

  // ---- DirectFuzz ----

  predicate Fits(rows: nat, cols: nat, coverage: seq<seq<bv32>>) {
    |coverage| == rows && forall r | 0 <= r < |coverage| :: |coverage[r]| == cols
  }

  function Flats(cycles: seq<seq<seq<bv32>>>): (r: seq<seq<bv32>>)
    ensures |r| == |cycles| && forall t | 0 <= t < |r| :: r[t] == ToggleDriver.Flat(cycles[t])
  {
    seq(|cycles|, t requires 0 <= t < |cycles| => ToggleDriver.Flat(cycles[t]))
  }

  // The words of row i, column j toggle in bit k.
  ghost predicate RowToggles(rows: nat, cols: nat, flats: seq<seq<bv32>>, i: nat, j: nat, k: nat)
    requires forall t | 0 <= t < |flats| :: |flats[t]| == rows * cols
    requires i < rows && j < cols
  {
    Coverage.AtBound(i, j, rows, cols);
    ToggleDriver.Toggles(flats, Coverage.At(i, j, cols), k)
  }

  ghost function RowTogglePoints(rows: nat, cols: nat, flats: seq<seq<bv32>>): set<Coverage.Point>
    requires forall t | 0 <= t < |flats| :: |flats[t]| == rows * cols
  {
    set i, j, k | 0 <= i < rows && 0 <= j < cols && 0 <= k < 32 && RowToggles(rows, cols, flats, i, j, k) ::
      Coverage.Point(i, j, k)
  }

  lemma FlatSizes(rows: nat, cols: nat, cycles: seq<seq<seq<bv32>>>)
    requires forall t | 0 <= t < |cycles| :: Fits(rows, cols, cycles[t])
    ensures forall t | 0 <= t < |cycles| :: |Flats(cycles)[t]| == rows * cols
  {
    forall t | 0 <= t < |cycles|
      ensures |Flats(cycles)[t]| == rows * cols
    {
      if rows > 0 {
        ToggleDriver.FlatRow(cycles[t], cols, 0);
      }
    }
  }

  // The run clears more than the shared words; they must all be mapped.
  method RunDirectFuzz(coverage: Coverage.DirectFuzz, cycles: seq<seq<seq<bv32>>>, ghost initialSeeds: nat,
                       ghost s: Campaign.State, ghost parent: nat)
    returns (isNew: bool, ghost t: Campaign.State)
    requires coverage.Valid()
    requires Coverage.ResetEnd(coverage.rows, coverage.bitmapByteSize) <= coverage.localMemory.Length
    requires forall c | 0 <= c < |cycles| :: Fits(coverage.rows, coverage.cols, cycles[c])
    requires s.covered == coverage.Covered() && (|s.members| < initialSeeds || parent < |s.members|)
    modifies coverage.bitmap, coverage.localMemory
    ensures forall c | 0 <= c < |cycles| :: |Flats(cycles)[c]| == coverage.rows * coverage.cols
    ensures t.covered == coverage.Covered()
    ensures Campaign.Next(initialSeeds, s, RowTogglePoints(coverage.rows, coverage.cols, Flats(cycles)), parent, t)
    ensures t == Campaign.After(initialSeeds, s, RowTogglePoints(coverage.rows, coverage.cols, Flats(cycles)),
        parent, isNew)
  {
    hide RowTogglePoints, Flats, Campaign.Next, Campaign.Kept, Coverage.DirectFuzz.Covered, Coverage.DirectFuzz.Local;
    FlatSizes(coverage.rows, coverage.cols, cycles);
    coverage.Reset();
    DriveDirectFuzz(coverage, cycles);
    isNew := coverage.NewCoverage();
    coverage.Apply();
    ghost var run := RowTogglePoints(coverage.rows, coverage.cols, Flats(cycles));
    t := Campaign.After(initialSeeds, s, run, parent, isNew);
    Campaign.AfterIsNext(initialSeeds, s, run, parent, isNew);
  }

  method DriveDirectFuzz(coverage: Coverage.DirectFuzz, cycles: seq<seq<seq<bv32>>>)
    requires coverage.Valid() && forall c | 0 <= c < |cycles| :: Fits(coverage.rows, coverage.cols, cycles[c])
    requires forall k | 0 <= k < coverage.rows * coverage.cols :: coverage.localMemory[k] == 0
    modifies coverage.localMemory
    ensures forall c | 0 <= c < |cycles| :: |Flats(cycles)[c]| == coverage.rows * coverage.cols
    ensures coverage.Local() == RowTogglePoints(coverage.rows, coverage.cols, Flats(cycles))
  {
    hide ToggleDriver.Toggled, ToggleDriver.Flat, Coverage.DirectFuzz.Local, RowTogglePoints;
    var driver := new ToggleDriver.DirectFuzz(coverage.localMemory, coverage.rows, coverage.cols);
    for c := 0 to |cycles|
      invariant driver.Valid() && driver.bitmap == coverage.localMemory && fresh(driver.initState)
      invariant driver.instanceCount == coverage.rows && driver.chunksPerInstance == coverage.cols
      invariant driver.initialBitmap == old(coverage.localMemory[..coverage.rows * coverage.cols])
      invariant driver.cycles == Flats(cycles[..c])
    {
      driver.Update(cycles[c]);
      assert cycles[..c + 1] == cycles[..c] + [cycles[c]];
      assert Flats(cycles[..c + 1]) == Flats(cycles[..c]) + [ToggleDriver.Flat(cycles[c])];
    }
    assert cycles[..|cycles|] == cycles;
    FlatSizes(coverage.rows, coverage.cols, cycles);
    LocalPoints(coverage, driver.initialBitmap, Flats(cycles));
  }

  lemma LocalPoints(coverage: Coverage.DirectFuzz, b: seq<bv32>, flats: seq<seq<bv32>>)
    requires coverage.Valid() && |b| == coverage.rows * coverage.cols && forall i | 0 <= i < |b| :: b[i] == 0
    requires forall t | 0 <= t < |flats| :: |flats[t]| == |b|
    requires coverage.localMemory[..|b|] == ToggleDriver.Toggled(b, flats)
    ensures coverage.Local() == RowTogglePoints(coverage.rows, coverage.cols, flats)
  {
    hide BitSet, ToggleDriver.Toggled, ToggleDriver.Toggles;
    forall i, j, k | 0 <= i < coverage.rows && 0 <= j < coverage.cols && 0 <= k < 32
      ensures BitSet(coverage.LocalWord(i, j), k) <==> RowToggles(coverage.rows, coverage.cols, flats, i, j, k)
    {
      Coverage.AtBound(i, j, coverage.rows, coverage.cols);
      var at := Coverage.At(i, j, coverage.cols);
      assert coverage.localMemory[..|b|][at] == coverage.LocalWord(i, j);
      ToggleDriver.ToggledBits(b, flats, at, k);
    }
    hide RowToggles;
  }

  // ---- DifuzzRTL ----

  // In every cycle each instance marks the byte its coverage signal names.
  ghost predicate InRange(rows: nat, cols: nat, cycle: seq<nat>) {
    |cycle| == rows && forall i | 0 <= i < rows :: cycle[i] < cols
  }

  ghost predicate AllInRange(rows: nat, cols: nat, cycles: seq<seq<nat>>) {
    forall t | 0 <= t < |cycles| :: InRange(rows, cols, cycles[t])
  }

  // Some of the first n cycles marks byte c of instance r.
  ghost predicate Marked(rows: nat, cols: nat, cycles: seq<seq<nat>>, n: nat, r: nat, c: nat)
    requires AllInRange(rows, cols, cycles) && n <= |cycles| && r < rows
  {
    exists t | 0 <= t < n :: cycles[t][r] == c
  }

  ghost function MarkedPoints(rows: nat, cols: nat, cycles: seq<seq<nat>>): set<Coverage.Point>
    requires AllInRange(rows, cols, cycles)
  {
    set r, c | 0 <= r < rows && 0 <= c < cols && Marked(rows, cols, cycles, |cycles|, r, c) :: Coverage.Point(r, c, 0)
  }

  lemma NothingMarked(rows: nat, cols: nat, cycles: seq<seq<nat>>, r: nat, c: nat)
    requires AllInRange(rows, cols, cycles) && r < rows
    ensures !Marked(rows, cols, cycles, 0, r, c)
  {
  }

  lemma MarkedMore(rows: nat, cols: nat, cycles: seq<seq<nat>>, n: nat, r: nat, c: nat)
    requires AllInRange(rows, cols, cycles) && n < |cycles| && r < rows
    ensures Marked(rows, cols, cycles, n + 1, r, c) <==> Marked(rows, cols, cycles, n, r, c) || cycles[n][r] == c
  {
  }

  class DifuzzDriver {
    const bitmap: array<bv8>
    const rows: nat
    const cols: nat

    constructor (bitmap: array<bv8>, rows: nat, cols: nat)
      ensures this.bitmap == bitmap && this.rows == rows && this.cols == cols
    {
      this.bitmap, this.rows, this.cols := bitmap, rows, cols;
    }

    method Update(coverage: seq<nat>)
      requires bitmap.Length == rows * cols && InRange(rows, cols, coverage)
      modifies bitmap
      ensures forall r, c | 0 <= r < rows && 0 <= c < cols ::
        Byte(r, c) == if coverage[r] == c then 1 else old(Byte(r, c))
    {
      for i := 0 to rows
        invariant forall r, c | 0 <= r < rows && 0 <= c < cols ::
          Byte(r, c) == if r < i && coverage[r] == c then 1 else old(Byte(r, c))
      {
        Coverage.AtBound(i, coverage[i], rows, cols);
        label before:
        bitmap[cols * i + coverage[i]] := 1;
        forall r, c | 0 <= r < rows && 0 <= c < cols
          ensures Byte(r, c) == if r == i && c == coverage[i] then 1 else old@before(Byte(r, c))
        {
          CellsDiffer(r, c, i, coverage[i]);
        }
      }
    }

    // The bitmap after the first n cycles.
    ghost predicate Holds(cycles: seq<seq<nat>>, n: nat)
      reads bitmap
    {
      && bitmap.Length == rows * cols && AllInRange(rows, cols, cycles) && n <= |cycles|
      && forall r, c | 0 <= r < rows && 0 <= c < cols :: Byte(r, c) != 0 <==> Marked(rows, cols, cycles, n, r, c)
    }

    method Cycle(cycles: seq<seq<nat>>, n: nat)
      requires Holds(cycles, n) && n < |cycles|
      modifies bitmap
      ensures Holds(cycles, n + 1)
    {
      hide Marked;
      Update(cycles[n]);
      hide Byte;
      forall r, c | 0 <= r < rows && 0 <= c < cols
        ensures Byte(r, c) != 0 <==> Marked(rows, cols, cycles, n + 1, r, c)
      {
        MarkedMore(rows, cols, cycles, n, r, c);
      }
    }

    lemma HoldsAtFirst(cycles: seq<seq<nat>>)
      requires bitmap.Length == rows * cols && AllInRange(rows, cols, cycles) && forall k | 0 <= k < bitmap.Length ::
        bitmap[k] == 0
      ensures Holds(cycles, 0)
    {
      hide Marked, AllInRange;
      forall r, c | 0 <= r < rows && 0 <= c < cols
        ensures Byte(r, c) == 0 && !Marked(rows, cols, cycles, 0, r, c)
      {
        Coverage.AtBound(r, c, rows, cols);
        NothingMarked(rows, cols, cycles, r, c);
      }
      hide Byte;
    }

    ghost function Byte(r: nat, c: nat): bv8
      requires bitmap.Length == rows * cols && r < rows && c < cols
      reads bitmap
    {
      Coverage.AtBound(r, c, rows, cols);
      bitmap[Coverage.At(r, c, cols)]
    }

    lemma CellsDiffer(r: nat, c: nat, i: nat, j: nat)
      requires r < rows && c < cols && i < rows && j < cols
      ensures Coverage.At(r, c, cols) == cols * i + j <==> r == i && c == j
    {
      if r < i {
        RowsApart(r, i);
      } else if i < r {
        RowsApart(i, r);
      }
    }

    lemma RowsApart(r: nat, i: nat)
      requires r < i
      ensures r * cols + cols <= i * cols == cols * i
    {
      assert i * cols == (i - r - 1) * cols + r * cols + cols;
      assert (i - r - 1) * cols >= 0;
    }
  }

  method RunDifuzzRTL(coverage: Coverage.DifuzzRTL, cycles: seq<seq<nat>>, ghost initialSeeds: nat,
                      ghost s: Campaign.State, ghost parent: nat)
    returns (isNew: bool, ghost t: Campaign.State)
    requires coverage.Valid() && AllInRange(coverage.rows, coverage.cols, cycles)
    requires s.covered == coverage.Covered() && (|s.members| < initialSeeds || parent < |s.members|)
    modifies coverage.bitmap, coverage.localBitmap
    ensures t.covered == coverage.Covered()
    ensures Campaign.Next(initialSeeds, s, MarkedPoints(coverage.rows, coverage.cols, cycles), parent, t)
    ensures t == Campaign.After(initialSeeds, s, MarkedPoints(coverage.rows, coverage.cols, cycles), parent, isNew)
  {
    hide Campaign.Next, Campaign.Kept, Coverage.DifuzzRTL.Covered, Coverage.DifuzzRTL.Local, MarkedPoints;
    coverage.Reset();
    DriveDifuzzRTL(coverage, cycles);
    isNew := coverage.NewCoverage();
    coverage.Apply();
    ghost var run := MarkedPoints(coverage.rows, coverage.cols, cycles);
    t := Campaign.After(initialSeeds, s, run, parent, isNew);
    Campaign.AfterIsNext(initialSeeds, s, run, parent, isNew);
  }

  method DriveDifuzzRTL(coverage: Coverage.DifuzzRTL, cycles: seq<seq<nat>>)
    requires coverage.Valid() && AllInRange(coverage.rows, coverage.cols, cycles)
    requires forall k | 0 <= k < coverage.localBitmap.Length :: coverage.localBitmap[k] == 0
    modifies coverage.localBitmap
    ensures coverage.Local() == MarkedPoints(coverage.rows, coverage.cols, cycles)
  {
    hide Marked, DifuzzDriver.Holds, MarkedPoints;
    var driver := new DifuzzDriver(coverage.localBitmap, coverage.rows, coverage.cols);
    driver.HoldsAtFirst(cycles);
    for t := 0 to |cycles|
      invariant driver.Holds(cycles, t)
    {
      driver.Cycle(cycles, t);
    }
    LocalMarked(coverage, driver, cycles);
  }

  lemma LocalMarked(coverage: Coverage.DifuzzRTL, driver: DifuzzDriver, cycles: seq<seq<nat>>)
    requires coverage.Valid() && AllInRange(coverage.rows, coverage.cols, cycles)
    requires driver.bitmap == coverage.localBitmap && driver.rows == coverage.rows && driver.cols == coverage.cols
    requires driver.Holds(cycles, |cycles|)
    ensures coverage.Local() == MarkedPoints(coverage.rows, coverage.cols, cycles)
  {
    hide Marked;
    forall r, c | 0 <= r < coverage.rows && 0 <= c < coverage.cols
      ensures coverage.LocalByte(r, c) == driver.Byte(r, c)
    {
    }
    hide DifuzzDriver.Byte, Coverage.DifuzzRTL.LocalByte;
  }
}

// The fuzzer's side of the surge score: the scores of the last run and the best over all runs.
module Surge {
  import opened Basics
  import opened SurgeScore
  import opened SurgeRecorder

  // Index i is set in the bitmap of some run.
  ghost predicate SetInSome(runs: seq<seq<bv8>>, i: nat) {
    exists k | 0 <= k < |runs| :: i < |runs[k]| && runs[k][i] != 0
  }

  lemma SetInMore(runs: seq<seq<bv8>>, run: seq<bv8>, i: nat)
    requires i < |run|
    ensures SetInSome(runs + [run], i) <==> SetInSome(runs, i) || run[i] != 0
  {
    var more := runs + [run];
    assert more[|runs|] == run;
    if k :| 0 <= k < |runs| && i < |runs[k]| && runs[k][i] != 0 {
      assert more[k] == runs[k];
    }
  }

  class Surge {
    const bitmap: array<bv8>
    const localBitmap: array<bv8>
    // The bitmaps of the runs merged so far.
    ghost var runs: seq<seq<bv8>>

    ghost predicate Valid()
      reads this, bitmap
    {
      && bitmap.Length == 256 && localBitmap.Length == 256 && bitmap != localBitmap
      && (forall r | r in runs :: |r| == 256)
      && (forall i | 0 <= i < 256 :: bitmap[i] != 0 <==> SetInSome(runs, i))
    }

    constructor ()
      ensures Valid() && runs == [] && fresh(bitmap) && fresh(localBitmap)
    {
      bitmap := new bv8[256](_ => 0);
      localBitmap := new bv8[256](_ => 0);
      runs := [];
    }

    method Reset()
      requires Valid()
      modifies localBitmap
      ensures localBitmap[..] == Zeros()
    {
      for i := 0 to localBitmap.Length
        invariant forall k | 0 <= k < i :: localBitmap[k] == 0
      {
        localBitmap[i] := 0;
      }
    }

    method Apply()
      requires Valid()
      modifies this`runs, bitmap
      ensures Valid() && runs == old(runs) + [localBitmap[..]]
    {
      ghost var was, local := bitmap[..], localBitmap[..];
      for i := 0 to bitmap.Length
        invariant localBitmap[..] == local && runs == old(runs)
        invariant forall k | 0 <= k < 256 :: bitmap[k] == if k < i && was[k] == 0 then local[k] else was[k]
      {
        if bitmap[i] == 0 && localBitmap[i] != 0 {
          bitmap[i] := localBitmap[i];
        }
      }
      runs := runs + [local];
      forall i | 0 <= i < 256
        ensures bitmap[i] != 0 <==> SetInSome(runs, i)
      {
        SetInMore(old(runs), local, i);
        assert was[i] == old(bitmap[i]);
      }
    }

    static method GetMaxValue(data: array<bv8>) returns (maxValue: nat)
      ensures maxValue == MaxSet(data[..])
    {
      maxValue := 0;
      for i := 0 to data.Length
        invariant forall k | 0 <= k < i && data[k] != 0 :: k <= maxValue
        invariant maxValue == 0 || (maxValue < i && data[maxValue] != 0)
      {
        if data[i] != 0 && i > maxValue {
          maxValue := i;
        }
      }
    }

    method Score() returns (score: nat)
      ensures score == MaxSet(localBitmap[..])
    {
      score := GetMaxValue(localBitmap);
    }

    // The best score is the largest score of any merged run.
    method BestScore() returns (score: nat)
      requires Valid()
      ensures forall r | r in runs :: MaxSet(r) <= score
      ensures if runs == [] then score == 0 else exists r | r in runs :: MaxSet(r) == score
    {
      score := GetMaxValue(bitmap);
      forall r | r in runs
        ensures MaxSet(r) <= score
      {
        if MaxSet(r) != 0 {
          assert SetInSome(runs, MaxSet(r));
          assert bitmap[MaxSet(r)] != 0;
        }
      }
      if runs != [] {
        if score == 0 {
          assert runs[0] in runs && MaxSet(runs[0]) == 0;
        } else {
          assert bitmap[score] != 0;
          var k :| 0 <= k < |runs| && score < |runs[k]| && runs[k][score] != 0;
          assert MaxSet(runs[k]) == score;
        }
      }
    }

    method CoverageCount() returns (cnt: nat)
      requires Valid()
      ensures cnt == |set i | 0 <= i < 256 && bitmap[i] != 0|
    {
      cnt := 0;
      for i := 0 to bitmap.Length
        invariant cnt == |set k | 0 <= k < i && bitmap[k] != 0|
      {
        ghost var before, after := set k | 0 <= k < i && bitmap[k] != 0, set k | 0 <= k < i + 1 && bitmap[k] != 0;
        assert after == before + if bitmap[i] != 0 then {i} else {};
        if bitmap[i] != 0 {
          cnt := cnt + 1;
        }
      }
    }

    // One simulation as the executor runs it: reset, one recorder update per cycle, read the score.
    // The run must pass the driver's assertions and last at least one cycle.
    method Simulate(annotationType: Annotation, signals: seq<nat>) returns (score: nat)
      requires Valid() && signals != [] && IsHistory(annotationType, signals)
      modifies this`runs, bitmap, localBitmap
      ensures Valid() && runs == old(runs) + [localBitmap[..]]
      ensures localBitmap[..] == Marked(Zeros(), Scores(annotationType, signals))
      ensures score == MaxSet(localBitmap[..])
      ensures !annotationType.Count? ==> score == Min(MaxOf(Scores(annotationType, signals)), 255)
      ensures RunScore(annotationType, signals, score)
    {
      hide RunScore, Marked, Scores, MaxSet, MaxOf, SetInSome, SurgeRecorder.Valid;
      Reset();
      var recorder := new SurgeRecorder(annotationType, localBitmap);
      recorder.Drive(signals);
      recorder.BitmapMarked();
      assert [] + signals == signals;
      score := Score();
      if !annotationType.Count? {
        FreqAndConsecReadBack(annotationType, signals);
      }
      ReadBackMeans(annotationType, signals);
      Apply();
    }
  }
}

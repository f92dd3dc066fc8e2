// The driver's side of the surge score: one update per simulated cycle, into a bitmap that the
// fuzzer shares.
module SurgeRecorder {
  import opened SurgeScore

  class SurgeRecorder {
    const annotationType: Annotation
    const bitmap: array<bv8>
    var currentScore: nat
    // The static variables of calc_freq_surge_score and calc_consec_surge_score; all but the ring are
    // 32-bit counters.
    const history: array<nat>
    var freq: nat
    var traceCount: nat
    var curSeq: nat
    ghost var signals: seq<nat>
    ghost const initialBitmap: seq<bv8>

    ghost predicate Valid()
      reads this, bitmap, history
    {
      && bitmap.Length == 256 && history.Length == HISTORY_SIZE && |initialBitmap| == 256
      && history as object != bitmap
      && IsHistory(annotationType, signals)
      && bitmap[..] == Marked(initialBitmap, Scores(annotationType, signals))
      && (signals != [] ==> currentScore == Score(annotationType, signals))
      && Counts(signals)
    }

    // The counters are those of the history h.
    ghost predicate Counts(h: seq<nat>)
      reads this`freq, this`traceCount, this`curSeq, history
    {
      match annotationType
      case Freq => traceCount == Low32(|h|) && freq == Ones(Window(h)) <= HISTORY_SIZE && history[..] == Ring(h)
      case Consec => curSeq == Low32(Trailing(h))
      case Count => true
    }

    constructor (annotationType: Annotation, bitmap: array<bv8>)
      requires bitmap.Length == 256
      ensures Valid() && signals == [] && initialBitmap == bitmap[..]
      ensures this.annotationType == annotationType && this.bitmap == bitmap && fresh(history)
    {
      this.annotationType, this.bitmap := annotationType, bitmap;
      history := new nat[HISTORY_SIZE](_ => 0);
      currentScore, freq, traceCount, curSeq := 0, 0, 0, 0;
      signals, initialBitmap := [], bitmap[..];
    }

    lemma BitmapMarked()
      requires Valid()
      ensures bitmap[..] == Marked(initialBitmap, Scores(annotationType, signals))
    {
    }

    // ok is false where the driver's assertion on the signal fails; then nothing has changed.
    method Update(annotatedSignal: nat) returns (ok: bool)
      requires Valid() && annotatedSignal < WRAP
      modifies this, bitmap, history
      ensures Valid()
      ensures ok <==> Acceptable(annotationType, annotatedSignal)
      ensures signals == if ok then old(signals) + [annotatedSignal] else old(signals)
    {
      if !annotationType.Count? && annotatedSignal > 1 {
        return false;
      }
      hide Counts, Marked, Scores, Score, Entry;
      MarksOneMore(initialBitmap, annotationType, signals, annotatedSignal);
      var score := CalcSurgeScore(annotatedSignal);
      Mark(score);
      signals := signals + [annotatedSignal];
      ok := true;
    }

    // The cycles of one simulation, all of which pass the driver's assertions.
    method Drive(input: seq<nat>)
      requires Valid() && IsHistory(annotationType, input)
      modifies this, bitmap, history
      ensures Valid() && signals == old(signals) + input
    {
      hide Valid, Acceptable;
      for i := 0 to |input|
        invariant Valid() && signals == old(signals) + input[..i]
      {
        assert Acceptable(annotationType, input[i]);
        AcceptableFits(input[i]);
        var ok := Update(input[i]);
        assert input[..i + 1] == input[..i] + [input[i]];
      }
      assert input[..|input|] == input;
    }

    lemma AcceptableFits(signal: nat)
      requires Acceptable(annotationType, signal)
      ensures signal < WRAP
    {
    }

    // The bitmap size is 256.
    method Mark(score: nat)
      requires bitmap.Length == 256
      modifies this`currentScore, bitmap
      ensures currentScore == score && bitmap[..] == old(bitmap[..])[Entry(score) := 1]
    {
      currentScore := score;
      bitmap[Entry(currentScore)] := 1;
    }

    method CalcSurgeScore(annotatedSignal: nat) returns (score: nat)
      requires history.Length == HISTORY_SIZE && IsHistory(annotationType, signals) && Counts(signals)
      requires Acceptable(annotationType, annotatedSignal)
      modifies this`freq, this`traceCount, this`curSeq, history
      ensures Counts(signals + [annotatedSignal]) && score == Score(annotationType, signals + [annotatedSignal])
    {
      hide Ones, Window, Ring, Trailing, Low32;
      ghost var h := signals + [annotatedSignal];
      match annotationType {
        case Freq => score := CalcFreqSurgeScore(annotatedSignal);
        case Consec => score := CalcConsecSurgeScore(annotatedSignal);
        case Count => score := annotatedSignal;
      }
    }

    method CalcFreqSurgeScore(annotatedSignal: nat) returns (score: nat)
      requires history.Length == HISTORY_SIZE && annotationType.Freq? && IsHistory(annotationType, signals)
      requires Counts(signals) && annotatedSignal <= 1
      modifies this`freq, this`traceCount, history
      ensures Counts(signals + [annotatedSignal]) && score == freq == RecentOnes(signals + [annotatedSignal])
    {
      hide Window, Ones, Ring, RingEntry, RecentOnes, Dropped, Low32, Add32, Sub32, Cell, IsHistory;
      FreqStep(signals, annotatedSignal);
      CounterWraps(|signals|);
      var cell := Cell(traceCount);
      assert history[cell] == history[..][cell] == Dropped(signals);
      freq := Sub32(freq, history[cell]);
      freq := Add32(freq, annotatedSignal);
      history[cell] := annotatedSignal;
      assert history[..] == old(history[..])[cell := annotatedSignal];
      traceCount := Add32(traceCount, 1);
      score := freq;
    }

    method CalcConsecSurgeScore(annotatedSignal: nat) returns (score: nat)
      requires annotationType.Consec? && curSeq == Low32(Trailing(signals)) && annotatedSignal <= 1
      modifies this`curSeq
      ensures score == curSeq == Low32(Trailing(signals + [annotatedSignal]))
      ensures |signals| + 1 < WRAP ==> EndsWithOnes(signals + [annotatedSignal], score)
    {
      ghost var h := signals + [annotatedSignal];
      ConsecCounts(h);
      ConsecNext(signals, annotatedSignal);
      hide EndsWithOnes, Trailing, Low32, Add32;
      if annotatedSignal == 1 {
        curSeq := Add32(curSeq, 1);
      } else {
        curSeq := 0;
      }
      score := curSeq;
    }
  }

  // What the ring and the counter hold after one more cycle.
  lemma FreqStep(h: seq<nat>, s: nat)
    requires IsHistory(Freq, h) && s <= 1 && Ones(Window(h)) <= HISTORY_SIZE
    ensures Ring(h)[Cell(|h|)] == Dropped(h) < WRAP && Ring(h + [s]) == Ring(h)[Cell(|h|) := s]
    ensures Add32(Sub32(Ones(Window(h)), Dropped(h)), s) == Ones(Window(h + [s])) == RecentOnes(h + [s]) <= HISTORY_SIZE
  {
    var g := h + [s];
    RingDrops(h);
    RingUpdate(h, s);
    WindowSlides(h, s);
    assert IsHistory(Freq, g) by {
      assert forall i | 0 <= i < |h| :: Acceptable(Freq, h[i]);
    }
    assert forall i | 0 <= i < |g| :: Acceptable(Freq, g[i]);
    WindowBound(g);
    FreqCounts(g);
    hide Window, Ones, Ring, RingEntry, RecentOnes, Dropped, Cell;
    SmallSums(Ones(Window(h)), Dropped(h), s);
  }

  lemma ConsecNext(h: seq<nat>, s: nat)
    ensures Trailing(h + [s]) == if s == 1 then Trailing(h) + 1 else 0
    ensures Low32(0) == 0 && Low32(Trailing(h) + 1) == Add32(Low32(Trailing(h)), 1)
  {
    assert (h + [s])[..|h|] == h;
    CounterWraps(Trailing(h));
  }

  lemma MarksOneMore(b: seq<bv8>, kind: Annotation, h: seq<nat>, s: nat)
    requires |b| == 256
    ensures Marked(b, Scores(kind, h + [s])) == Marked(b, Scores(kind, h))[Entry(Score(kind, h + [s])) := 1]
  {
    hide Score;
    var g := h + [s];
    assert g[..|g| - 1] == h;
    var scores := Scores(kind, g);
    assert scores == Scores(kind, h) + [Score(kind, g)];
    assert scores[..|scores| - 1] == Scores(kind, h);
  }
}

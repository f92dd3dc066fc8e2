// What a surge score means: the score of each cycle as a function of the annotated signal so far,
// and the score of a run as read back from the 256-entry bitmap.
module SurgeScore {
  import opened Basics
  const HISTORY_SIZE: nat := 256
  const WRAP: nat := 0x1_0000_0000

  // 32-bit arithmetic.
  function Low32(n: nat): nat { n % WRAP }
  function Add32(a: nat, b: nat): nat { (a + b) % WRAP }
  function Sub32(a: nat, b: nat): nat
    requires b < WRAP
  {
    (a + WRAP - b) % WRAP
  }

  // The cell of the history ring that cycle n uses.
  function Cell(n: nat): (i: nat)
    ensures i < HISTORY_SIZE
  {
    n % HISTORY_SIZE
  }

  // 256 divides 2^32, so the cell survives the wrap of the cycle counter.
  lemma CounterWraps(n: nat)
    ensures Cell(Low32(n)) == Cell(n) && Add32(Low32(n), 1) == Low32(n + 1)
  {
    var q, r := n / WRAP, n % WRAP;
    assert n == WRAP * q + r;
    Remainder(q * (WRAP / HISTORY_SIZE), r, HISTORY_SIZE);
    Remainder(q, r + 1, WRAP);
  }

  lemma {:induction false} Remainder(q: nat, r: nat, m: nat)
    requires m == HISTORY_SIZE || m == WRAP
    ensures (m * q + r) % m == r % m
  {
    if q > 0 {
      Remainder(q - 1, r, m);
      assert m * q + r == m * (q - 1) + r + m;
    }
  }

  lemma SmallSums(f: nat, d: nat, s: nat)
    requires d <= f <= HISTORY_SIZE && s <= 1
    ensures Sub32(f, d) == f - d && Add32(f - d, s) == f - d + s
  {
  }

  datatype Annotation = Freq | Consec | Count

  function Ones(h: seq<nat>): nat {
    if h == [] then 0 else Ones(h[..|h| - 1]) + h[|h| - 1]
  }

  // The last 256 cycles, or all of a shorter history.
  function Window(h: seq<nat>): seq<nat> {
    if |h| <= HISTORY_SIZE then h else h[|h| - HISTORY_SIZE..]
  }

  // How many cycles the signal has been 1 without a break.
  function Trailing(h: seq<nat>): nat {
    if h == [] || h[|h| - 1] != 1 then 0 else Trailing(h[..|h| - 1]) + 1
  }

  // The score of the last cycle of a history; counters are 32 bits wide.
  function Score(kind: Annotation, h: seq<nat>): nat
    requires h != []
  {
    match kind
    case Freq => Ones(Window(h))
    case Consec => Low32(Trailing(h))
    case Count => h[|h| - 1]
  }

  predicate Acceptable(kind: Annotation, signal: nat) {
    signal < WRAP && (kind.Count? || signal <= 1)
  }

  predicate IsHistory(kind: Annotation, h: seq<nat>) {
    forall i | 0 <= i < |h| :: Acceptable(kind, h[i])
  }

  // The scores of all cycles.
  function Scores(kind: Annotation, h: seq<nat>): (r: seq<nat>)
    ensures |r| == |h|
  {
    if h == [] then [] else Scores(kind, h[..|h| - 1]) + [Score(kind, h)]
  }

  lemma {:induction false} ScoresAt(kind: Annotation, h: seq<nat>, t: nat)
    requires t < |h|
    ensures Scores(kind, h)[t] == Score(kind, h[..t + 1])
  {
    hide Score;
    if t < |h| - 1 {
      ScoresAt(kind, h[..|h| - 1], t);
      assert h[..|h| - 1][..t + 1] == h[..t + 1];
    } else {
      assert h[..t + 1] == h;
    }
  }

  // ---- What the scores count ----

  // How many of the last 256 cycles had a signal of 1.
  ghost function RecentOnes(h: seq<nat>): nat { |set t | |h| - 256 <= t < |h| && 0 <= t && h[t] == 1| }

  // The last k cycles had a signal of 1, and the one before them, if any, had not.
  ghost predicate EndsWithOnes(h: seq<nat>, k: nat) {
    k <= |h| && (forall i | |h| - k <= i < |h| :: h[i] == 1) && (k == |h| || h[|h| - k - 1] != 1)
  }

  // The cycles from a on with a signal of 1.
  ghost function OnesAt(h: seq<nat>, a: nat): set<nat> { set t | a <= t < |h| && h[t] == 1 }

  lemma {:induction false} OnesFrom(h: seq<nat>, a: nat)
    requires a <= |h| && forall i | 0 <= i < |h| :: h[i] <= 1
    ensures Ones(h[a..]) == |OnesAt(h, a)|
  {
    if a < |h| {
      var n := |h| - 1;
      var g := h[..n];
      OnesFrom(g, a);
      assert h[a..][..n - a] == g[a..];
      assert OnesAt(h, a) == OnesAt(g, a) + if h[n] == 1 then {n} else {};
    } else {
      assert OnesAt(h, a) == {};
    }
  }

  lemma FreqCounts(h: seq<nat>)
    requires IsHistory(Freq, h)
    ensures Ones(Window(h)) == RecentOnes(h)
  {
    hide Ones;
    assert forall i | 0 <= i < |h| :: Acceptable(Freq, h[i]);
    var a := if |h| <= HISTORY_SIZE then 0 else |h| - HISTORY_SIZE;
    assert Window(h) == h[a..];
    OnesFrom(h, a);
    assert OnesAt(h, a) == set t | |h| - 256 <= t < |h| && 0 <= t && h[t] == 1;
  }

  lemma {:induction false} TrailingEnds(h: seq<nat>)
    ensures EndsWithOnes(h, Trailing(h))
  {
    if h != [] && h[|h| - 1] == 1 {
      TrailingEnds(h[..|h| - 1]);
    }
  }

  // Below 2^32 cycles the CONSEC counter has not wrapped.
  lemma ConsecCounts(h: seq<nat>)
    ensures Low32(Trailing(h)) <= Trailing(h) && EndsWithOnes(h, Trailing(h))
    ensures |h| < WRAP ==> Low32(Trailing(h)) == Trailing(h)
  {
    TrailingEnds(h);
  }

  // ---- The sliding window ----

  function Dropped(h: seq<nat>): nat { if |h| < HISTORY_SIZE then 0 else h[|h| - HISTORY_SIZE] }

  lemma {:induction false} OnesFront(h: seq<nat>)
    requires h != []
    ensures Ones(h) == h[0] + Ones(h[1..])
  {
    if |h| > 1 {
      var g := h[..|h| - 1];
      OnesFront(g);
      assert g[1..] == h[1..][..|h| - 2];
    }
  }

  // One more cycle adds its signal and drops the one that leaves the window.
  lemma WindowSlides(h: seq<nat>, s: nat)
    ensures Ones(Window(h)) >= Dropped(h)
    ensures Ones(Window(h + [s])) == Ones(Window(h)) - Dropped(h) + s
  {
    var g := h + [s];
    assert g[..|g| - 1] == h;
    if |h| >= HISTORY_SIZE {
      var w := h[|h| - HISTORY_SIZE..];
      assert Window(h) == w;
      OnesFront(w);
      assert Window(g) == w[1..] + [s];
      assert (w[1..] + [s])[..|w| - 1] == w[1..];
    }
  }

  lemma {:induction false} OnesBound(h: seq<nat>)
    requires forall i | 0 <= i < |h| :: h[i] <= 1
    ensures Ones(h) <= |h|
  {
    if h != [] {
      OnesBound(h[..|h| - 1]);
    }
  }

  lemma WindowBound(h: seq<nat>)
    requires forall i | 0 <= i < |h| :: h[i] <= 1
    ensures Ones(Window(h)) <= HISTORY_SIZE
  {
    OnesBound(Window(h));
  }

  // The entry a ring buffer of 256 cells holds at index i after the history h, 0 if never written.
  function RingEntry(h: seq<nat>, i: nat): nat {
    if h == [] then 0
    else if Cell(|h| - 1) == i then h[|h| - 1]
    else RingEntry(h[..|h| - 1], i)
  }

  function Ring(h: seq<nat>): (r: seq<nat>)
    ensures |r| == HISTORY_SIZE
  {
    seq(HISTORY_SIZE, i requires 0 <= i < HISTORY_SIZE => RingEntry(h, i))
  }

  lemma RingUpdate(h: seq<nat>, s: nat)
    ensures Ring(h + [s]) == Ring(h)[Cell(|h|) := s]
  {
    var g := h + [s];
    assert g[..|g| - 1] == h;
  }

  lemma {:induction false} RingHolds(h: seq<nat>, j: nat)
    requires j < |h| <= j + HISTORY_SIZE
    ensures RingEntry(h, Cell(j)) == h[j]
  {
    hide Cell;
    if j < |h| - 1 {
      CellsDiffer(j, |h| - 1);
      RingHolds(h[..|h| - 1], j);
    }
  }

  lemma CellsDiffer(m: nat, n: nat)
    requires m < n < m + HISTORY_SIZE
    ensures Cell(m) != Cell(n)
  {
    var q, r := m / HISTORY_SIZE, n / HISTORY_SIZE;
    assert m == HISTORY_SIZE * q + Cell(m) && n == HISTORY_SIZE * r + Cell(n);
  }

  lemma {:induction false} RingUnwritten(h: seq<nat>, i: nat)
    requires |h| <= i < HISTORY_SIZE
    ensures RingEntry(h, i) == 0
  {
    if h != [] {
      RingUnwritten(h[..|h| - 1], i);
    }
  }

  // The cell about to be overwritten holds the signal that leaves the window.
  lemma RingDrops(h: seq<nat>)
    ensures Ring(h)[Cell(|h|)] == Dropped(h)
  {
    hide Cell, RingEntry;
    CellOfRound(|h|);
    if |h| < HISTORY_SIZE {
      RingUnwritten(h, |h|);
    } else {
      RingHolds(h, |h| - HISTORY_SIZE);
    }
  }

  lemma CellOfRound(n: nat)
    ensures n < HISTORY_SIZE ==> Cell(n) == n
    ensures n >= HISTORY_SIZE ==> Cell(n - HISTORY_SIZE) == Cell(n)
  {
  }

  // ---- Scores climb by at most one a cycle ----

  ghost predicate Climbs(s: seq<nat>) {
    && (s != [] ==> s[0] <= 1)
    && forall i | 0 < i < |s| :: s[i] <= s[i - 1] + 1
  }

  lemma ScoreStep(kind: Annotation, h: seq<nat>, s: nat)
    requires IsHistory(kind, h + [s]) && !kind.Count?
    ensures h == [] ==> Score(kind, h + [s]) <= 1
    ensures h != [] ==> Score(kind, h + [s]) <= Score(kind, h) + 1
  {
    var g := h + [s];
    assert g[..|g| - 1] == h && g[|g| - 1] == s;
    assert Acceptable(kind, g[|h|]);
    assert h == [] ==> Ones(Window(h)) == 0 && Trailing(h) == 0;
    if kind.Freq? {
      WindowSlides(h, s);
    }
  }

  lemma {:induction false} ScoresClimb(kind: Annotation, h: seq<nat>)
    requires IsHistory(kind, h) && !kind.Count?
    ensures Climbs(Scores(kind, h))
  {
    if h != [] {
      var g := h[..|h| - 1];
      ScoresClimb(kind, g);
      assert h == g + [h[|h| - 1]];
      ScoreStep(kind, g, h[|h| - 1]);
      if g != [] {
        ScoresAt(kind, g, |g| - 1);
        assert g[..|g|] == g;
      }
    }
  }

  // A climbing sequence takes every value up to any it takes.
  lemma {:induction false} ClimbHits(s: seq<nat>, t: nat, v: nat) returns (u: nat)
    requires Climbs(s) && t < |s| && 1 <= v <= s[t]
    ensures u <= t && s[u] == v
  {
    if t == 0 || s[t] == v {
      u := t;
    } else {
      u := ClimbHits(s, t - 1, v);
    }
  }

  // ---- Reading the score of a run back from the bitmap ----

  function MaxOf(s: seq<nat>): nat
    requires s != []
  {
    if |s| == 1 then s[0] else
      var m := MaxOf(s[..|s| - 1]);
      if s[|s| - 1] > m then s[|s| - 1] else m
  }

  lemma {:induction false} MaxOfIsMax(s: seq<nat>) returns (t: nat)
    requires s != []
    ensures t < |s| && s[t] == MaxOf(s) && forall i | 0 <= i < |s| :: s[i] <= MaxOf(s)
  {
    t := |s| - 1;
    if |s| > 1 {
      var u := MaxOfIsMax(s[..|s| - 1]);
      if s[|s| - 1] <= MaxOf(s[..|s| - 1]) {
        t := u;
      }
    }
  }

  // The bitmap has 256 entries.
  function Entry(score: nat): (i: nat)
    ensures i < 256
  {
    score % 256
  }

  // The bitmap after the scores have been marked in it, each modulo 256.
  function Marked(b: seq<bv8>, scores: seq<nat>): (r: seq<bv8>)
    requires |b| == 256
    ensures |r| == 256
  {
    if scores == [] then b else Marked(b, scores[..|scores| - 1])[Entry(scores[|scores| - 1]) := 1]
  }

  lemma {:induction false} MarkedAt(b: seq<bv8>, scores: seq<nat>, i: nat)
    requires |b| == 256 && i < 256
    ensures Marked(b, scores)[i] != 0 <==> b[i] != 0 || exists t | 0 <= t < |scores| :: Entry(scores[t]) == i
  {
    if scores != [] {
      var front := scores[..|scores| - 1];
      MarkedAt(b, front, i);
      assert scores == front + [scores[|scores| - 1]];
      if t :| 0 <= t < |front| && Entry(front[t]) == i {
        assert Entry(scores[t]) == i;
      }
      if t :| 0 <= t < |scores| && Entry(scores[t]) == i {
        assert t < |front| ==> Entry(front[t]) == i;
      }
    }
  }

  // get_max_value: the largest index set, 0 if there is none.
  function MaxSet(b: seq<bv8>): (m: nat)
    ensures forall i | 0 <= i < |b| && b[i] != 0 :: i <= m
    ensures m == 0 || (m < |b| && b[m] != 0)
  {
    if b == [] then 0 else if b[|b| - 1] != 0 then |b| - 1 else MaxSet(b[..|b| - 1])
  }

  function Zeros(): (z: seq<bv8>)
    ensures |z| == 256
  {
    seq(256, _ => 0)
  }

  // The score read from the bitmap of a run is right, up to saturation at 255, exactly when no score
  // passed 255 or some score was 255 modulo 256.
  lemma ReadBackIsRight(scores: seq<nat>)
    requires scores != []
    ensures MaxSet(Marked(Zeros(), scores)) == Min(MaxOf(scores), 255) <==>
              MaxOf(scores) <= 255 || exists t | 0 <= t < |scores| :: Entry(scores[t]) == 255
  {
    hide Marked, MaxOf, MaxSet;
    var b := Marked(Zeros(), scores);
    var m := MaxSet(b);
    var top := MaxOfIsMax(scores);
    if MaxOf(scores) <= 255 {
      MarkedAt(Zeros(), scores, MaxOf(scores));
      assert Entry(scores[top]) == MaxOf(scores);
      MaxSetBounds(b);
      assert m >= MaxOf(scores);
      MarkedAt(Zeros(), scores, m);
    } else {
      MaxSetBounds(b);
      MarkedAt(Zeros(), scores, 255);
    }
  }

  lemma MaxSetBounds(b: seq<bv8>)
    requires |b| == 256
    ensures forall i | 0 <= i < |b| && b[i] != 0 :: i <= MaxSet(b)
    ensures MaxSet(b) == 0 || (MaxSet(b) < |b| && b[MaxSet(b)] != 0)
    ensures MaxSet(b) <= 255 && (MaxSet(b) == 255 <==> b[255] != 0)
  {
  }

  // For the FREQ and CONSEC annotations it is always right, although scores are marked modulo 256.
  lemma FreqAndConsecReadBack(kind: Annotation, h: seq<nat>)
    requires IsHistory(kind, h) && h != [] && !kind.Count?
    ensures MaxSet(Marked(Zeros(), Scores(kind, h))) == Min(MaxOf(Scores(kind, h)), 255)
  {
    var s := Scores(kind, h);
    ReadBackIsRight(s);
    if MaxOf(s) > 255 {
      ScoresClimb(kind, h);
      var t := MaxOfIsMax(s);
      var u := ClimbHits(s, t, 255);
      assert Entry(s[u]) == 255;
    }
  }

  // For COUNT it need not be: a signal of 256 reads back as 0.
  lemma CountMayReadBackWrong()
    ensures IsHistory(Count, [256]) && MaxOf(Scores(Count, [256])) == 256
    ensures MaxSet(Marked(Zeros(), Scores(Count, [256]))) == 0
  {
    var s := Scores(Count, [256]);
    assert [256][..0] == [];
    assert s == [256];
    ReadBackIsRight(s);
    MarkedAt(Zeros(), s, MaxSet(Marked(Zeros(), s)));
  }

  // ---- What the score of a run counts ----

  // h has k ones in a row from i.
  ghost predicate OnesBlock(h: seq<nat>, i: nat, k: nat) {
    i + k <= |h| && forall j | i <= j < i + k :: h[j] == 1
  }

  ghost predicate LongestBlock(h: seq<nat>, m: nat) {
    (exists i: nat :: OnesBlock(h, i, m)) && forall i: nat, k: nat | OnesBlock(h, i, k) :: k <= m
  }

  // The largest FREQ score of a run is the most ones in any 256 consecutive cycles.
  ghost predicate MostRecentOnes(h: seq<nat>, m: nat) {
    && (exists t | 0 < t <= |h| :: RecentOnes(h[..t]) == m)
    && forall t | 0 < t <= |h| :: RecentOnes(h[..t]) <= m
  }

  lemma FreqOfRun(h: seq<nat>)
    requires h != [] && IsHistory(Freq, h)
    ensures MostRecentOnes(h, MaxOf(Scores(Freq, h)))
  {
    hide Scores, MaxOf, RecentOnes, Ones, Window;
    var s := Scores(Freq, h);
    var top := MaxOfIsMax(s);
    forall t | 0 < t <= |h|
      ensures RecentOnes(h[..t]) == s[t - 1]
    {
      ScoresAt(Freq, h, t - 1);
      assert IsHistory(Freq, h[..t]);
      FreqCounts(h[..t]);
    }
    assert RecentOnes(h[..top + 1]) == s[top];
  }

  // The prefix of h that ends with the most ones.
  lemma {:induction false} LongestTrailing(h: seq<nat>, n: nat) returns (t: nat)
    requires n <= |h|
    ensures t <= n && forall u | 0 <= u <= n :: Trailing(h[..u]) <= Trailing(h[..t])
  {
    hide Trailing;
    t := n;
    if n > 0 {
      var u := LongestTrailing(h, n - 1);
      if Trailing(h[..n]) < Trailing(h[..u]) {
        t := u;
      }
    }
  }

  lemma {:induction false} TrailingDrop(h: seq<nat>, d: nat)
    requires d <= Trailing(h)
    ensures d <= |h| && Trailing(h[..|h| - d]) == Trailing(h) - d
  {
    if d > 0 {
      TrailingDrop(h[..|h| - 1], d - 1);
      assert h[..|h| - 1][..|h| - d] == h[..|h| - d];
    } else {
      assert h[..|h|] == h;
    }
  }

  // A block of ones ends somewhere, and there the cycles counted are at least as many.
  lemma BlockIsTrailing(h: seq<nat>, i: nat, k: nat)
    requires OnesBlock(h, i, k)
    ensures k <= Trailing(h[..i + k])
  {
    var g := h[..i + k];
    TrailingEnds(g);
  }

  lemma TrailingIsLongest(h: seq<nat>, t: nat)
    requires t <= |h| && forall u | 0 <= u <= |h| :: Trailing(h[..u]) <= Trailing(h[..t])
    ensures LongestBlock(h, Trailing(h[..t]))
  {
    hide Trailing;
    var m := Trailing(h[..t]);
    TrailingEnds(h[..t]);
    assert OnesBlock(h, t - m, m) by {
      assert forall j | t - m <= j < t :: h[j] == h[..t][j];
    }
    forall i: nat, k: nat | OnesBlock(h, i, k)
      ensures k <= m
    {
      BlockIsTrailing(h, i, k);
    }
  }

  // The largest CONSEC score of a run is its longest block of ones, as far as 32 bits can count.
  lemma ConsecOfRun(h: seq<nat>) returns (m: nat)
    requires h != []
    ensures LongestBlock(h, m) && MaxOf(Scores(Consec, h)) == Min(m, WRAP - 1)
  {
    hide MaxOf, Trailing, Low32, LongestBlock;
    var t := LongestTrailing(h, |h|);
    m := Trailing(h[..t]);
    TrailingIsLongest(h, t);
    var s := Scores(Consec, h);
    var top := MaxOfIsMax(s);
    var low := Min(m, WRAP - 1);
    ConsecAt(h, top);
    LowBound(Trailing(h[..top + 1]));
    if m > 0 {
      var u := t - (m - low);
      TrailingDrop(h[..t], m - low);
      assert h[..t][..u] == h[..u];
      TrailingEnds(h[..u]);
      ConsecAt(h, u - 1);
      LowBound(low);
    }
  }

  lemma ConsecAt(h: seq<nat>, t: nat)
    requires t < |h|
    ensures Scores(Consec, h)[t] == Low32(Trailing(h[..t + 1]))
  {
    ScoresAt(Consec, h, t);
  }

  lemma LowBound(n: nat)
    ensures Low32(n) <= Min(n, WRAP - 1) && (n < WRAP ==> Low32(n) == n)
  {
  }

  // What the score read back for a run says about its signals.
  ghost predicate RunScore(kind: Annotation, h: seq<nat>, score: nat) {
    match kind
    case Freq => exists m: nat :: MostRecentOnes(h, m) && score == Min(m, 255)
    case Consec => exists m: nat :: LongestBlock(h, m) && score == Min(m, 255)
    case Count => (exists t | 0 <= t < |h| :: h[t] % 256 == score) && forall t | 0 <= t < |h| :: h[t] % 256 <= score
  }

  // The most ones in 256 consecutive cycles, the longest block of ones, or the largest signal modulo 256.
  lemma ReadBackMeans(kind: Annotation, h: seq<nat>)
    requires h != [] && IsHistory(kind, h)
    ensures RunScore(kind, h, MaxSet(Marked(Zeros(), Scores(kind, h))))
  {
    hide Marked, MaxOf, MaxSet, MostRecentOnes, LongestBlock, Scores;
    match kind {
      case Freq =>
        FreqAndConsecReadBack(kind, h);
        FreqOfRun(h);
      case Consec =>
        FreqAndConsecReadBack(kind, h);
        var m := ConsecOfRun(h);
      case Count =>
        CountReadBack(h);
    }
  }

  lemma CountReadBack(h: seq<nat>)
    requires h != []
    ensures RunScore(Count, h, MaxSet(Marked(Zeros(), Scores(Count, h))))
  {
    hide Marked, MaxSet, Scores;
    var s := Scores(Count, h);
    var b := Marked(Zeros(), s);
    var m := MaxSet(b);
    MaxSetBounds(b);
    forall t | 0 <= t < |h|
      ensures Entry(s[t]) == h[t] % 256 <= m
    {
      ScoresAt(Count, h, t);
      MarkedAt(Zeros(), s, Entry(s[t]));
    }
    MarkedAt(Zeros(), s, m);
    if m == 0 {
      assert Entry(s[0]) == h[0] % 256 == 0;
    }
  }
}

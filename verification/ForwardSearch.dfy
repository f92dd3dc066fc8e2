// The forward breadth-first search that the DirectFuzz and DifuzzRTL passes share: a queue of
// signals, a set of visited signals, and a region outside which a signal is not expanded.
module ForwardSearch {
  import opened Basics
  import opened Netlist

  type Steps = iset<(Sig, Sig)>

  // The cells both passes step over or through: no memory, no assertion.
  predicate Followed(c: Cell) { !c.kind.IsMem() && !c.kind.Assert? }

  // getPort is only asked for outputs that exist.
  ghost predicate HasOutputs(net: Netlist) {
    forall c | c in net.cells && c.kind.Known() && Followed(c) :: c.Out().Some?
  }

  function OutChunks(net: Netlist, c: Cell): set<Sig>
    requires c.Out().Some?
  {
    set t | t in Chunks(net.Canon(c.Out().value)) && !IsConst(t)
  }

  // All signals a forward search can queue after its start.
  ghost function Outputs(net: Netlist): set<Sig> {
    set c, t | c in net.cells && c.Out().Some? && t in OutChunks(net, c) :: t
  }

  // One forward step: from a signal to the output chunks of a cell that reads it and that the pass
  // goes through.
  type Through = ((Cell, Port)) -> bool

  ghost predicate Feeds(net: Netlist, through: Through, s: Sig, t: Sig) {
    exists r | r in net.Readers(s) :: through(r) && r.0.Out().Some? && t in OutChunks(net, r.0)
  }

  ghost function StepsThrough(net: Netlist, through: Through): Steps { iset s, t | Feeds(net, through, s, t) :: (s, t) }

  lemma ReaderSteps(net: Netlist, through: Through, s: Sig, r: (Cell, Port))
    requires r in net.Readers(s) && through(r) && r.0.Out().Some?
    ensures forall t | t in OutChunks(net, r.0) :: (s, t) in StepsThrough(net, through)
  {
    hide Netlist.Readers, OutChunks;
  }

  lemma CurExpanded(net: Netlist, through: Through, region: iset<Sig>, s: Sig, visited: set<Sig>)
    requires forall r | r in net.Readers(s) && through(r) && r.0.Out().Some? :: OutChunks(net, r.0) <= visited
    ensures Expanded(StepsThrough(net, through), region, s, visited)
  {
    hide Netlist.Readers, OutChunks;
  }

  ghost predicate IsPath(steps: Steps, p: seq<Sig>) {
    p != [] && forall i | 0 <= i < |p| - 1 :: (p[i], p[i + 1]) in steps
  }

  // A path from start to s that is in the region up to its last signal.
  ghost predicate Inside(steps: Steps, region: iset<Sig>, start: Sig, p: seq<Sig>, s: Sig) {
    && IsPath(steps, p) && p[0] == start && p[|p| - 1] == s
    && forall i | 0 <= i < |p| - 1 :: p[i] in region
  }

  ghost predicate Reached(steps: Steps, region: iset<Sig>, start: Sig, s: Sig) {
    exists p :: Inside(steps, region, start, p, s)
  }

  lemma StartReached(steps: Steps, region: iset<Sig>, start: Sig)
    ensures Reached(steps, region, start, start)
  {
    assert Inside(steps, region, start, [start], start);
  }

  lemma StepReached(steps: Steps, region: iset<Sig>, start: Sig, s: Sig, t: Sig)
    requires Reached(steps, region, start, s) && s in region && (s, t) in steps
    ensures Reached(steps, region, start, t)
  {
    var p :| Inside(steps, region, start, p, s);
    var q := p + [t];
    forall i | 0 <= i < |q| - 1
      ensures (q[i], q[i + 1]) in steps && q[i] in region
    {
      if i < |p| - 1 {
        assert q[i] == p[i] && q[i + 1] == p[i + 1];
      }
    }
    assert Inside(steps, region, start, q, t);
  }

  // The successors of s are visited, unless s is outside the region.
  ghost predicate Expanded(steps: Steps, region: iset<Sig>, s: Sig, visited: set<Sig>) {
    s in region ==> forall t | (s, t) in steps :: t in visited
  }

  ghost predicate AllExpanded(steps: Steps, region: iset<Sig>, done: set<Sig>, visited: set<Sig>) {
    forall s | s in done :: Expanded(steps, region, s, visited)
  }

  lemma AllExpandedStep(steps: Steps, region: iset<Sig>, done: set<Sig>, s: Sig, v: set<Sig>, w: set<Sig>)
    requires AllExpanded(steps, region, done, v) && v <= w && Expanded(steps, region, s, w)
    ensures AllExpanded(steps, region, done + {s}, w)
  {
  }

  // Every path stays among the expanded signals.
  lemma {:induction false} ReachedIsDone(steps: Steps, region: iset<Sig>, start: Sig, done: set<Sig>,
                                         visited: set<Sig>, p: seq<Sig>, s: Sig)
    requires start in done && visited <= done && AllExpanded(steps, region, done, visited)
    requires Inside(steps, region, start, p, s)
    ensures s in done
    decreases |p|
  {
    if |p| > 1 {
      var q := p[..|p| - 1];
      var x := q[|q| - 1];
      forall i | 0 <= i < |q| - 1
        ensures (q[i], q[i + 1]) in steps && q[i] in region
      {
        assert q[i] == p[i] && q[i + 1] == p[i + 1];
      }
      ReachedIsDone(steps, region, start, done, visited, q, x);
      assert (p[|p| - 2], p[|p| - 2 + 1]) in steps && p[|p| - 2] in region;
      assert Expanded(steps, region, x, visited);
    }
  }

  function SigSet(q: seq<Sig>): set<Sig> { set s | s in q }

  // Every reached signal is expanded or queued, and nothing else is.
  ghost predicate Frontier(net: Netlist, steps: Steps, region: iset<Sig>, start: Sig, visited: set<Sig>,
                           queue: seq<Sig>, done: set<Sig>) {
    && visited <= Outputs(net)
    && (forall s | s in visited :: Reached(steps, region, start, s))
    && visited + {start} == done + SigSet(queue)
  }

  lemma FrontierStart(net: Netlist, steps: Steps, region: iset<Sig>, start: Sig)
    ensures Frontier(net, steps, region, start, {}, [start], {}) && AllExpanded(steps, region, {}, {})
  {
  }

  lemma FrontierPop(net: Netlist, steps: Steps, region: iset<Sig>, start: Sig, visited: set<Sig>, queue: seq<Sig>,
                    done: set<Sig>)
    requires net.Valid() && net.Canon(start) == start
    requires Frontier(net, steps, region, start, visited, queue, done) && queue != []
    ensures Frontier(net, steps, region, start, visited, queue[1..], done + {queue[0]})
    ensures Reached(steps, region, start, queue[0]) && net.Canon(queue[0]) == queue[0]
  {
    hide Outputs, Reached;
    if queue[0] in Outputs(net) {
      OutputCanonical(net, queue[0]);
    }
    StartReached(steps, region, start);
    assert queue == [queue[0]] + queue[1..];
    assert queue[0] in SigSet(queue);
  }

  lemma FrontierPush(net: Netlist, steps: Steps, region: iset<Sig>, start: Sig, visited: set<Sig>, queue: seq<Sig>,
                     done: set<Sig>, t: Sig)
    requires Frontier(net, steps, region, start, visited, queue, done) && Reached(steps, region, start, t)
    requires t in Outputs(net)
    ensures Frontier(net, steps, region, start, visited + {t}, queue + [t], done)
  {
    hide Outputs, Reached;
    assert SigSet(queue + [t]) == SigSet(queue) + {t};
  }

  // Once the queue is empty, the expanded signals are exactly the reached ones.
  lemma FrontierClosed(net: Netlist, steps: Steps, region: iset<Sig>, start: Sig, visited: set<Sig>, done: set<Sig>)
    requires Frontier(net, steps, region, start, visited, [], done) && AllExpanded(steps, region, done, visited)
    ensures forall s :: s in done <==> Reached(steps, region, start, s)
  {
    hide AllExpanded, Inside, Outputs;
    StartReached(steps, region, start);
    forall s | Reached(steps, region, start, s)
      ensures s in done
    {
      var p :| Inside(steps, region, start, p, s);
      ReachedIsDone(steps, region, start, done, visited, p, s);
    }
  }

  // How many signals the search has still to visit.
  ghost function Remaining(net: Netlist, visited: set<Sig>): nat { |Outputs(net) - visited| }

  lemma RemainingShrinks(net: Netlist, steps: Steps, region: iset<Sig>, start: Sig, v: set<Sig>, visited: set<Sig>,
                         queue: seq<Sig>, done: set<Sig>)
    requires Frontier(net, steps, region, start, visited, queue, done) && v <= visited
    ensures v == visited || Remaining(net, visited) < Remaining(net, v)
  {
    hide Reached, Outputs;
    ComplementShrinks(Outputs(net), v, visited);
  }

  lemma CanonTwice(net: Netlist, s: Sig)
    requires net.Valid()
    ensures net.Canon(net.Canon(s)) == net.Canon(s)
  {
  }

  lemma OutputCanonical(net: Netlist, s: Sig)
    requires net.Valid() && s in Outputs(net)
    ensures net.Canon(s) == s
  {
    var c :| c in net.cells && c.Out().Some? && s in OutChunks(net, c);
    var out := net.Canon(c.Out().value);
    ChunkBits(out, s);
    hide Chunks, OutChunks, CellKind.Input, CellKind.Output;
    forall i | 0 <= i < |s|
      ensures net.Rep(s[i]) == s[i]
    {
      assert s[i] in out;
    }
  }

  lemma ReaderFacts(net: Netlist, s: Sig, r: (Cell, Port))
    requires r in net.Readers(s) && r.0.Out().Some?
    ensures r.0 in net.cells && OutChunks(net, r.0) <= Outputs(net)
  {
    hide Chunks, Netlist.Canon;
  }

  lemma ReaderHasOutput(net: Netlist, s: Sig, r: (Cell, Port))
    requires HasOutputs(net) && r in net.Readers(s) && Followed(r.0)
    ensures r.0.Out().Some?
  {
    hide Netlist.Canon;
  }

  // q, v are q0, v0 with signals appended that were not visited before.
  ghost predicate Grown(q0: seq<Sig>, v0: set<Sig>, q: seq<Sig>, v: set<Sig>) {
    && |q0| <= |q| && q[..|q0|] == q0
    && v == v0 + SigSet(q[|q0|..])
    && SigSet(q[|q0|..]) !! v0
  }

  lemma GrownRefl(q: seq<Sig>, v: set<Sig>)
    ensures Grown(q, v, q, v)
  {
    assert q[|q|..] == [];
  }

  lemma GrownTrans(q0: seq<Sig>, v0: set<Sig>, q1: seq<Sig>, v1: set<Sig>, q2: seq<Sig>, v2: set<Sig>)
    requires Grown(q0, v0, q1, v1) && Grown(q1, v1, q2, v2)
    ensures Grown(q0, v0, q2, v2) && SigSet(q2[|q0|..]) == SigSet(q1[|q0|..]) + SigSet(q2[|q1|..])
  {
    assert q2[..|q0|] == q2[..|q1|][..|q0|];
    assert q2[|q0|..] == q1[|q0|..] + q2[|q1|..];
    SetOfConcat(q1[|q0|..], q2[|q1|..]);
  }

  lemma SetOfConcat(a: seq<Sig>, b: seq<Sig>)
    ensures SigSet(a + b) == SigSet(a) + SigSet(b)
  {
  }

  lemma GrownPush(q0: seq<Sig>, v0: set<Sig>, q: seq<Sig>, v: set<Sig>, t: Sig)
    requires Grown(q0, v0, q, v) && t !in v
    ensures Grown(q0, v0, q + [t], v + {t}) && SigSet((q + [t])[|q0|..]) == SigSet(q[|q0|..]) + {t}
  {
    assert (q + [t])[|q0|..] == q[|q0|..] + [t];
    assert (q + [t])[..|q0|] == q[..|q0|];
    SetOfConcat(q[|q0|..], [t]);
  }

  lemma GrownFacts(q0: seq<Sig>, v0: set<Sig>, q: seq<Sig>, v: set<Sig>)
    requires Grown(q0, v0, q, v)
    ensures v0 <= v && (v == v0 ==> q == q0)
  {
    if |q| > |q0| {
      assert q[|q0|..][0] in SigSet(q[|q0|..]);
    }
  }

  // The signals visited and the queue once these chunks have been looked at in turn.
  function PushAll(chunks: seq<Sig>, visited: set<Sig>, queue: seq<Sig>): (set<Sig>, seq<Sig>) {
    if chunks == [] then (visited, queue)
    else
      var (v, q) := PushAll(chunks[..|chunks| - 1], visited, queue);
      var t := chunks[|chunks| - 1];
      if IsConst(t) || t in v then (v, q) else (v + {t}, q + [t])
  }

  lemma PushMore(chunks: seq<Sig>, i: nat, visited: set<Sig>, queue: seq<Sig>)
    requires i < |chunks|
    ensures var (v, q) := PushAll(chunks[..i], visited, queue);
            PushAll(chunks[..i + 1], visited, queue) ==
            if IsConst(chunks[i]) || chunks[i] in v then (v, q) else (v + {chunks[i]}, q + [chunks[i]])
  {
    assert chunks[..i + 1][..i] == chunks[..i];
  }

  // Queue the unvisited output chunks of a cell that the signal steps to.
  method VisitOutput(net: Netlist, ghost steps: Steps, ghost region: iset<Sig>, ghost start: Sig, curSig: Sig,
                     cell: Cell, visited0: set<Sig>, queue0: seq<Sig>, ghost done: set<Sig>)
    returns (visited: set<Sig>, queue: seq<Sig>)
    requires curSig in region && Reached(steps, region, start, curSig)
    requires cell.Out().Some? && OutChunks(net, cell) <= Outputs(net)
    requires forall t | t in OutChunks(net, cell) :: (curSig, t) in steps
    requires Frontier(net, steps, region, start, visited0, queue0, done)
    ensures Frontier(net, steps, region, start, visited, queue, done) && OutChunks(net, cell) <= visited
    ensures Grown(queue0, visited0, queue, visited)
    ensures |queue0| <= |queue| && SigSet(queue[|queue0|..]) <= OutChunks(net, cell)
    ensures (visited, queue) == PushAll(Chunks(net.Canon(cell.Out().value)), visited0, queue0)
  {
    hide Reached, Frontier, Chunks, IsConst, Outputs, Grown, SigSet;
    GrownRefl(queue0, visited0);
    assert |queue0| <= |queue0| && SigSet(queue0[|queue0|..]) == {} by { NoneAppended(queue0); }
    visited, queue := visited0, queue0;
    var chunks := Chunks(net.Canon(cell.Out().value));
    for i := 0 to |chunks|
      invariant Frontier(net, steps, region, start, visited, queue, done)
      invariant Grown(queue0, visited0, queue, visited) && |queue0| <= |queue|
      invariant SigSet(queue[|queue0|..]) <= OutChunks(net, cell)
      invariant forall k | 0 <= k < i && !IsConst(chunks[k]) :: chunks[k] in visited
      invariant (visited, queue) == PushAll(chunks[..i], visited0, queue0)
    {
      PushMore(chunks, i, visited0, queue0);
      if !IsConst(chunks[i]) && chunks[i] !in visited {
        assert chunks[i] in OutChunks(net, cell);
        StepReached(steps, region, start, curSig, chunks[i]);
        FrontierPush(net, steps, region, start, visited, queue, done, chunks[i]);
        GrownPush(queue0, visited0, queue, visited, chunks[i]);
        visited := visited + {chunks[i]};
        queue := queue + [chunks[i]];
      }
    }
    assert chunks[..|chunks|] == chunks;
  }

  lemma NoneAppended(q: seq<Sig>)
    ensures SigSet(q[|q|..]) == {}
  {
    assert q[|q|..] == [];
  }

  // ---- Levels ----

  // Some path of n steps leads from start to s.
  ghost predicate StepsAway(steps: Steps, region: iset<Sig>, start: Sig, s: Sig, n: nat) {
    exists p :: Inside(steps, region, start, p, s) && |p| == n + 1
  }

  lemma StepFarther(steps: Steps, region: iset<Sig>, start: Sig, s: Sig, n: nat, t: Sig)
    requires StepsAway(steps, region, start, s, n) && s in region && (s, t) in steps
    ensures StepsAway(steps, region, start, t, n + 1)
  {
    var p :| Inside(steps, region, start, p, s) && |p| == n + 1;
    var q := p + [t];
    forall i | 0 <= i < |q| - 1
      ensures (q[i], q[i + 1]) in steps && q[i] in region
    {
      if i < |p| - 1 {
        assert q[i] == p[i] && q[i + 1] == p[i + 1];
      }
    }
    assert Inside(steps, region, start, q, t);
  }

  lemma StepCloser(steps: Steps, region: iset<Sig>, start: Sig, t: Sig, n: nat) returns (s: Sig)
    requires StepsAway(steps, region, start, t, n) && n > 0
    ensures StepsAway(steps, region, start, s, n - 1) && s in region && (s, t) in steps
  {
    var p :| Inside(steps, region, start, p, t) && |p| == n + 1;
    var q := p[..n];
    s := q[n - 1];
    assert (p[n - 1], p[n - 1 + 1]) in steps;
    forall i | 0 <= i < |q| - 1
      ensures (q[i], q[i + 1]) in steps && q[i] in region
    {
      assert q[i] == p[i] && q[i + 1] == p[i + 1];
    }
    assert Inside(steps, region, start, q, s);
  }

  lemma NotAway(steps: Steps, region: iset<Sig>, start: Sig, s: Sig)
    ensures StepsAway(steps, region, start, s, 0) <==> s == start
  {
    if s == start {
      assert Inside(steps, region, start, [start], start) && |[start]| == 1;
    }
  }

  // Each queued signal was queued at a level, in ascending order over at most two levels, the one last
  // expanded and the next. depth gives the level at which a signal was first reached; only the start
  // can be queued again later.
  ghost predicate QueueLevels(queue: seq<Sig>, levels: seq<nat>, depth: map<Sig, nat>, done: set<Sig>, d: nat) {
    && |levels| == |queue|
    && (forall i | 0 <= i < |queue| :: d <= levels[i] <= d + 1)
    && (forall i, j | 0 <= i <= j < |queue| :: levels[i] <= levels[j])
    && (forall i | 0 <= i < |queue| :: queue[i] in depth && (levels[i] == depth[queue[i]] || queue[i] in done))
  }

  ghost predicate DepthsRight(steps: Steps, region: iset<Sig>, start: Sig, queue: seq<Sig>, levels: seq<nat>,
                              depth: map<Sig, nat>, d: nat) {
    && (forall s | s in depth :: depth[s] <= d + 1)
    && (forall i | 0 <= i < |queue| && i < |levels| :: StepsAway(steps, region, start, queue[i], levels[i]))
  }

  // A signal that is done has its successors at most one level down.
  ghost predicate Closely(steps: Steps, region: iset<Sig>, depth: map<Sig, nat>, s: Sig) {
    s in depth && (s in region ==> forall t | (s, t) in steps :: t in depth && depth[t] <= depth[s] + 1)
  }

  ghost predicate Leveled(steps: Steps, region: iset<Sig>, start: Sig, visited: set<Sig>, queue: seq<Sig>,
                          levels: seq<nat>, depth: map<Sig, nat>, done: set<Sig>, d: nat) {
    && Keyed(start, visited, queue, depth, done)
    && QueueLevels(queue, levels, depth, done, d)
    && DepthsRight(steps, region, start, queue, levels, depth, d)
    && AllClosely(steps, region, depth, done)
  }

  ghost predicate AllClosely(steps: Steps, region: iset<Sig>, depth: map<Sig, nat>, done: set<Sig>) {
    forall s | s in done :: Closely(steps, region, depth, s)
  }

  // The signals with a depth are those visited and the start, which is first in the queue or done.
  ghost predicate Keyed(start: Sig, visited: set<Sig>, queue: seq<Sig>, depth: map<Sig, nat>, done: set<Sig>) {
    && depth.Keys == visited + {start} == done + SigSet(queue)
    && start in depth && depth[start] == 0
    && (start in done || (queue != [] && queue[0] == start))
  }

  lemma LeveledStart(steps: Steps, region: iset<Sig>, start: Sig)
    ensures Leveled(steps, region, start, {}, [start], [0], map[start := 0], {}, 0)
  {
    NotAway(steps, region, start, start);
    hide StepsAway;
  }

  // What is nearer than the front of the queue is done.
  lemma {:induction false} NearerIsDone(steps: Steps, region: iset<Sig>, start: Sig, visited: set<Sig>,
                                        queue: seq<Sig>, levels: seq<nat>, depth: map<Sig, nat>, done: set<Sig>,
                                        d: nat, s: Sig, n: nat)
    requires Leveled(steps, region, start, visited, queue, levels, depth, done, d) && queue != [] && n <= levels[0]
    requires StepsAway(steps, region, start, s, n)
    ensures s in depth && depth[s] <= n && (n < levels[0] ==> s in done)
    decreases n
  {
    hide StepsAway, DepthsRight;
    if n == 0 {
      NotAway(steps, region, start, s);
    } else {
      var x := StepCloser(steps, region, start, s, n);
      NearerIsDone(steps, region, start, visited, queue, levels, depth, done, d, x, n - 1);
      assert Closely(steps, region, depth, x);
    }
  }

  // One round: the front is expanded, and what it reaches is appended one level down.
  function Repeated(x: nat, n: nat): (r: seq<nat>)
    ensures |r| == n && forall i | 0 <= i < n :: r[i] == x
  {
    seq(n, _ => x)
  }

  ghost function NextDepth(depth: map<Sig, nat>, added: set<Sig>, level: nat): map<Sig, nat> {
    map s | s in depth.Keys + added :: if s in depth then depth[s] else level
  }

  // s steps to each of these signals.
  ghost predicate AllFollow(steps: Steps, region: iset<Sig>, s: Sig, added: seq<Sig>) {
    forall t | t in added :: s in region && (s, t) in steps
  }

  lemma LeveledRound(steps: Steps, region: iset<Sig>, start: Sig, visited: set<Sig>, queue: seq<Sig>, levels: seq<nat>,
                     depth: map<Sig, nat>, done: set<Sig>, d: nat, visited': set<Sig>, queue': seq<Sig>)
    returns (levels': seq<nat>, depth': map<Sig, nat>)
    requires Leveled(steps, region, start, visited, queue, levels, depth, done, d) && queue != []
    requires Grown(queue[1..], visited, queue', visited')
    requires AllFollow(steps, region, queue[0], queue'[|queue| - 1..])
    requires Expanded(steps, region, queue[0], visited')
    ensures levels != []
    ensures Leveled(steps, region, start, visited', queue', levels', depth', done + {queue[0]}, levels[0])
  {
    hide Leveled, Keyed, QueueLevels, DepthsRight, AllClosely, Grown, Expanded, SigSet, NextDepth, AllFollow;
    LeveledParts(steps, region, start, visited, queue, levels, depth, done, d);
    LevelsMatch(queue, levels, depth, done, d);
    var l := levels[0];
    RoundKeys(start, visited, queue, depth, done, l + 1, visited', queue');
    var added := queue'[|queue| - 1..];
    levels' := levels[1..] + Repeated(l + 1, |added|);
    depth' := NextDepth(depth, SigSet(added), l + 1);
    RoundQueue(queue, levels, depth, done, d, added, levels', depth');
    RoundDepths(steps, region, start, queue, levels, depth, d, added, levels', depth');
    RoundAllClosely(steps, region, start, visited, queue, levels, depth, done, d, added, visited');
    LeveledOf(steps, region, start, visited', queue', levels', depth', done + {queue[0]}, l);
  }

  lemma LeveledParts(steps: Steps, region: iset<Sig>, start: Sig, visited: set<Sig>, queue: seq<Sig>, levels: seq<nat>,
                     depth: map<Sig, nat>, done: set<Sig>, d: nat)
    requires Leveled(steps, region, start, visited, queue, levels, depth, done, d)
    ensures Keyed(start, visited, queue, depth, done) && QueueLevels(queue, levels, depth, done, d)
    ensures DepthsRight(steps, region, start, queue, levels, depth, d)
  {
    hide Keyed, QueueLevels, DepthsRight, AllClosely;
  }

  lemma LeveledOf(steps: Steps, region: iset<Sig>, start: Sig, visited: set<Sig>, queue: seq<Sig>, levels: seq<nat>,
                  depth: map<Sig, nat>, done: set<Sig>, d: nat)
    requires Keyed(start, visited, queue, depth, done) && QueueLevels(queue, levels, depth, done, d)
    requires DepthsRight(steps, region, start, queue, levels, depth, d) && AllClosely(steps, region, depth, done)
    ensures Leveled(steps, region, start, visited, queue, levels, depth, done, d)
  {
    hide Keyed, QueueLevels, DepthsRight, AllClosely;
  }

  lemma LevelsMatch(queue: seq<Sig>, levels: seq<nat>, depth: map<Sig, nat>, done: set<Sig>, d: nat)
    requires QueueLevels(queue, levels, depth, done, d)
    ensures |levels| == |queue| && forall i | 0 <= i < |levels| :: d <= levels[i]
  {
  }

  lemma RoundKeys(start: Sig, visited: set<Sig>, queue: seq<Sig>, depth: map<Sig, nat>, done: set<Sig>, level: nat,
                  visited': set<Sig>, queue': seq<Sig>)
    requires Keyed(start, visited, queue, depth, done) && queue != [] && Grown(queue[1..], visited, queue', visited')
    ensures |queue| - 1 <= |queue'|
    ensures var added := queue'[|queue| - 1..];
            && queue' == queue[1..] + added && visited' == visited + SigSet(added)
            && Keyed(start, visited', queue', NextDepth(depth, SigSet(added), level), done + {queue[0]})
            && forall s | s in added && s in depth :: s in done + {queue[0]}
  {
    var added := queue'[|queue| - 1..];
    assert queue == [queue[0]] + queue[1..] && queue' == queue[1..] + added;
    SetOfConcat([queue[0]], queue[1..]);
    SetOfConcat(queue[1..], added);
    assert SigSet([queue[0]]) == {queue[0]};
    assert forall s | s in added :: s in SigSet(added);
  }

  lemma RoundQueue(queue: seq<Sig>, levels: seq<nat>, depth: map<Sig, nat>, done: set<Sig>, d: nat, added: seq<Sig>,
                   levels': seq<nat>, depth': map<Sig, nat>)
    requires QueueLevels(queue, levels, depth, done, d) && queue != []
    requires levels' == levels[1..] + Repeated(levels[0] + 1, |added|)
    requires depth' == NextDepth(depth, SigSet(added), levels[0] + 1)
    requires forall s | s in added && s in depth :: s in done + {queue[0]}
    ensures QueueLevels(queue[1..] + added, levels', depth', done + {queue[0]}, levels[0])
  {
    var queue' := queue[1..] + added;
    forall i | 0 <= i < |queue'|
      ensures levels[0] <= levels'[i] <= levels[0] + 1
      ensures queue'[i] in depth' && (levels'[i] == depth'[queue'[i]] || queue'[i] in done + {queue[0]})
    {
      if i < |queue| - 1 {
        assert queue'[i] == queue[i + 1] && levels'[i] == levels[i + 1];
      } else {
        assert queue'[i] == added[i - (|queue| - 1)] && added[i - (|queue| - 1)] in SigSet(added);
      }
    }
  }

  lemma RoundDepths(steps: Steps, region: iset<Sig>, start: Sig, queue: seq<Sig>, levels: seq<nat>,
                    depth: map<Sig, nat>, d: nat, added: seq<Sig>, levels': seq<nat>, depth': map<Sig, nat>)
    requires DepthsRight(steps, region, start, queue, levels, depth, d) && queue != [] && |queue| == |levels|
    requires d <= levels[0]
    requires levels' == levels[1..] + Repeated(levels[0] + 1, |added|)
    requires depth' == NextDepth(depth, SigSet(added), levels[0] + 1)
    requires AllFollow(steps, region, queue[0], added)
    ensures DepthsRight(steps, region, start, queue[1..] + added, levels', depth', levels[0])
  {
    hide StepsAway;
    var queue' := queue[1..] + added;
    forall i | 0 <= i < |queue'|
      ensures StepsAway(steps, region, start, queue'[i], levels'[i])
    {
      if i < |queue| - 1 {
        assert queue'[i] == queue[i + 1] && levels'[i] == levels[i + 1];
      } else {
        var t := added[i - (|queue| - 1)];
        assert queue'[i] == t && t in added;
        StepFarther(steps, region, start, queue[0], levels[0], t);
      }
    }
  }

  lemma RoundAllClosely(steps: Steps, region: iset<Sig>, start: Sig, visited: set<Sig>, queue: seq<Sig>,
                        levels: seq<nat>, depth: map<Sig, nat>, done: set<Sig>, d: nat, added: seq<Sig>,
                        visited': set<Sig>)
    requires Leveled(steps, region, start, visited, queue, levels, depth, done, d) && queue != [] && levels != []
    requires visited' == visited + SigSet(added) && Expanded(steps, region, queue[0], visited')
    ensures AllClosely(steps, region, NextDepth(depth, SigSet(added), levels[0] + 1), done + {queue[0]})
  {
    hide Closely, Leveled, SigSet, NextDepth, Expanded;
    forall s | s in done + {queue[0]}
      ensures Closely(steps, region, NextDepth(depth, SigSet(added), levels[0] + 1), s)
    {
      RoundClosely(steps, region, start, visited, queue, levels, depth, done, d, added, visited', s);
    }
  }

  lemma RoundClosely(steps: Steps, region: iset<Sig>, start: Sig, visited: set<Sig>, queue: seq<Sig>, levels: seq<nat>,
                     depth: map<Sig, nat>, done: set<Sig>, d: nat, added: seq<Sig>, visited': set<Sig>, s: Sig)
    requires Leveled(steps, region, start, visited, queue, levels, depth, done, d) && queue != []
    requires visited' == visited + SigSet(added) && Expanded(steps, region, queue[0], visited')
    requires s in done + {queue[0]}
    ensures Closely(steps, region, NextDepth(depth, SigSet(added), levels[0] + 1), s)
  {
    hide StepsAway, SigSet;
    if s in done {
      assert Closely(steps, region, depth, s);
    } else {
      assert queue[0] in depth && levels[0] == depth[queue[0]];
    }
  }
}

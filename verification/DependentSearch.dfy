// search_dependents: the backward breadth-first search of the SurgeFuzz pass from the annotated signal.
module DependentSearch {
  import opened Basics
  import opened Netlist
  import opened Dataflow
  import opened Circuit

  datatype State = State(cell: Option<Cell>, sig: Sig, port: Port, depth: nat, regDepth: nat, isCtrlPath: bool)

  function QueuedSigs(q: seq<State>): set<Sig> { set st | st in q :: st.sig }

  // q1, v1 extend q0, v0 by states of depth d whose signals are exactly the newly visited ones.
  ghost predicate Extension(q0: seq<State>, v0: set<Sig>, q1: seq<State>, v1: set<Sig>, d: nat) {
    && |q0| <= |q1| && q1[..|q0|] == q0
    && v1 == v0 + QueuedSigs(q1[|q0|..])
    && (forall i | |q0| <= i < |q1| :: q1[i].depth == d)
    && (|q0| < |q1| ==> v0 < v1)
  }

  lemma ExtensionTrans(q0: seq<State>, v0: set<Sig>, q1: seq<State>, v1: set<Sig>, q2: seq<State>, v2: set<Sig>, d: nat)
    requires Extension(q0, v0, q1, v1, d) && Extension(q1, v1, q2, v2, d)
    ensures Extension(q0, v0, q2, v2, d) && v0 <= v1 <= v2
  {
    assert q2[|q0|..] == q1[|q0|..] + q2[|q1|..];
    assert q2[..|q0|] == q2[..|q1|][..|q0|];
  }

  lemma ExtensionProgress(q: seq<State>, v: set<Sig>, q': seq<State>, v': set<Sig>, d: nat)
    requires Extension(q, v, q', v', d)
    ensures v <= v' && (v == v' ==> q == q')
  {
    assert q'[..|q'|] == q';
  }

  lemma BudgetStep(d: set<Bit>, d': set<Bit>, p: set<Sig>, p': set<Sig>, s: Sig)
    requires Gathered(d, d', p, p', s)
    ensures d <= d' && |d'| <= |d| + 32 && p' <= p + {s}
  {
    BitsBound(s);
    assert |d + Bits(s)| <= |d| + |Bits(s)|;
  }

  lemma ExtensionRefl(q: seq<State>, v: set<Sig>, d: nat)
    ensures Extension(q, v, q, v, d)
  {
    assert q[|q|..] == [];
  }

  // First in, first out: depths leave in order, and the queue holds at most two consecutive depths,
  // the last that left and the next.
  ghost predicate Levels(left: seq<State>, q: seq<State>) {
    && (forall i, j | 0 <= i <= j < |left| :: left[i].depth <= left[j].depth)
    && (forall i, j | 0 <= i <= j < |q| :: q[i].depth <= q[j].depth <= q[i].depth + 1)
    && (left != [] ==> forall i | 0 <= i < |q| :: left[|left| - 1].depth <= q[i].depth <= left[|left| - 1].depth + 1)
  }

  lemma LevelsPop(left: seq<State>, q: seq<State>)
    requires Levels(left, q) && q != []
    ensures Levels(left + [q[0]], q[1..])
  {
  }

  lemma LevelsExtend(left: seq<State>, q: seq<State>, v: set<Sig>, q': seq<State>, v': set<Sig>, d: nat)
    requires Levels(left, q) && left != [] && d == left[|left| - 1].depth + 1 && Extension(q, v, q', v', d)
    ensures Levels(left, q')
  {
    forall i | 0 <= i < |q'|
      ensures left[|left| - 1].depth <= q'[i].depth <= d && (i >= |q| ==> q'[i].depth == d)
    {
      if i < |q| {
        assert q'[i] == q'[..|q|][i];
      }
    }
    assert forall i | 0 <= i < |q| :: q'[i] == q'[..|q|][i];
  }

  // No state is deeper than there are visited signals.
  ghost predicate Shallow(q: seq<State>, visited: set<Sig>) { forall st | st in q :: st.depth <= |visited| }

  lemma ShallowExtend(q: seq<State>, v: set<Sig>, q': seq<State>, v': set<Sig>, d: nat)
    requires Shallow(q, v) && Extension(q, v, q', v', d + 1) && d <= |v|
    ensures Shallow(q', v') && |v| <= |v'|
  {
    if |q| < |q'| {
      ProperSubsetSize(v, v');
    } else {
      ExtensionProgress(q, v, q', v', d + 1);
      SubsetSize(v, v');
    }
    forall i | 0 <= i < |q'|
      ensures q'[i].depth <= |v'|
    {
      if i < |q| {
        assert q'[..|q|][i] == q[i] && q[i] in q;
      }
    }
  }

  // What the states that left the queue, and those still in it, say about the search so far.
  ghost predicate History(net: Netlist, start: Sig, left: seq<State>, q: seq<State>, visited: set<Sig>) {
    && Levels(left, q) && Travelled(net, start, left)
    && Shallow(left, visited) && Shallow(q, visited)
  }

  lemma HistoryPop(net: Netlist, start: Sig, left: seq<State>, q: seq<State>, visited: set<Sig>, p: Path)
    requires History(net, start, left, q, visited) && q != [] && Witnessed(net, start, q[0], p)
    ensures History(net, start, left + [q[0]], q[1..], visited)
  {
    hide Levels, Witnessed, Travelled;
    LevelsPop(left, q);
    TravelledMore(net, start, left, q[0], p);
  }

  lemma HistoryLevels(net: Netlist, start: Sig, left: seq<State>, q: seq<State>, visited: set<Sig>)
    requires History(net, start, left, q, visited)
    ensures Levels(left, q)
  {
    hide Levels, Travelled, Shallow;
  }

  lemma HistoryExtend(net: Netlist, start: Sig, left: seq<State>, st: State, q: seq<State>, v: set<Sig>,
                      q': seq<State>, v': set<Sig>)
    requires History(net, start, left + [st], q, v) && Extension(q, v, q', v', st.depth + 1)
    ensures History(net, start, left + [st], q', v')
  {
    hide Levels, Extension, Travelled;
    LevelsExtend(left + [st], q, v, q', v', st.depth + 1);
    assert (left + [st])[|left|] in left + [st];
    ShallowExtend(q, v, q', v', st.depth);
  }

  // What was reached is expanded or queued, what was expanded is covered, and only expanded signals
  // were collected.
  ghost predicate Closing(net: Netlist, start: Sig, processed: set<Sig>, q: seq<State>, visited: set<Sig>,
                          collected: set<Bit>, sigs: set<Sig>) {
    && processed + QueuedSigs(q) == visited + {start}
    && (forall s | s in processed :: Covered(net, s, visited, collected))
    && sigs <= processed
  }

  // One expansion keeps it: q is the queue without the expanded state, q' what the expansion leaves.
  lemma ClosingExpand(net: Netlist, start: Sig, processed: set<Sig>, st: State, q: seq<State>, v: set<Sig>,
                      d: set<Bit>, sigs: set<Sig>, q': seq<State>, v': set<Sig>, d': set<Bit>, sigs': set<Sig>)
    requires Closing(net, start, processed, [st] + q, v, d, sigs)
    requires Extension(q, v, q', v', st.depth + 1) && d <= d' && sigs' <= sigs + {st.sig}
    requires Covered(net, st.sig, v', d')
    ensures Closing(net, start, processed + {st.sig}, q', v', d', sigs')
  {
    hide Covered;
    assert QueuedSigs([st] + q) == {st.sig} + QueuedSigs(q);
    assert q' == q + q'[|q|..];
    assert QueuedSigs(q') == QueuedSigs(q) + QueuedSigs(q'[|q|..]);
    forall s | s in processed
      ensures Covered(net, s, v', d')
    {
      CoveredMono(net, s, v, v', d, d');
    }
  }

  // ---- The depth limit ----

  ghost function AllStates(left: seq<State>, q: seq<State>): set<State> {
    (set st | st in left) + set st | st in q
  }

  ghost function SigsWithin(states: set<State>, d: nat): set<Sig> { set st | st in states && st.depth <= d :: st.sig }

  // No state is deeper than the limit, and nothing was collected at it.
  ghost predicate WithinDepth(left: seq<State>, q: seq<State>, rs: seq<Record>, maxDepth: nat) {
    && (forall st | st in AllStates(left, q) :: st.depth <= maxDepth)
    && forall r | r in rs :: r.info.depth < maxDepth
  }

  // The records that were added are of depth d.
  ghost predicate AddedAt(rs: seq<Record>, rs': seq<Record>, d: nat) {
    forall r | r in rs' :: r in rs || r.info.depth == d
  }

  lemma AddedMore(rs: seq<Record>, rs': seq<Record>, rs'': seq<Record>, d: nat)
    requires AddedAt(rs, rs', d) && AddedAt(rs', rs'', d)
    ensures AddedAt(rs, rs'', d)
  {
  }

  // Every signal visited has its state, and what a state above the limit needs is reached one step on.
  ghost predicate Spread(net: Netlist, start: Sig, left: seq<State>, q: seq<State>, visited: set<Sig>,
                         collected: set<Bit>, maxDepth: nat) {
    var states := AllStates(left, q);
    && start in SigsWithin(states, 0)
    && (forall s | s in visited :: exists st | st in states :: st.sig == s)
    && forall st | st in left && st.depth < maxDepth ::
         Covered(net, st.sig, SigsWithin(states, st.depth + 1) * visited, collected)
  }

  lemma StatesPop(left: seq<State>, st: State, q: seq<State>)
    ensures AllStates(left + [st], q) == AllStates(left, [st] + q)
  {
  }

  lemma SpreadPop(net: Netlist, start: Sig, left: seq<State>, st: State, q: seq<State>, v: set<Sig>, d: set<Bit>,
                  maxDepth: nat)
    requires Spread(net, start, left, [st] + q, v, d, maxDepth) && st.depth >= maxDepth
    ensures Spread(net, start, left + [st], q, v, d, maxDepth)
  {
    hide Covered, SigsWithin;
    StatesPop(left, st, q);
  }

  lemma StatesExtend(left: seq<State>, q: seq<State>, v: set<Sig>, q': seq<State>, v': set<Sig>, d: nat)
    requires Extension(q, v, q', v', d)
    ensures AllStates(left, q) <= AllStates(left, q') && v <= v'
    ensures forall st | st in AllStates(left, q') :: st in AllStates(left, q) || st.depth == d
    ensures forall s | s in v' :: s in v || exists st | st in AllStates(left, q') :: st.sig == s
  {
    assert q' == q + q'[|q|..];
    forall s | s in v' && s !in v
      ensures exists st | st in AllStates(left, q') :: st.sig == s
    {
      assert s in QueuedSigs(q'[|q|..]);
      var st :| st in q'[|q|..] && st.sig == s;
      assert st in AllStates(left, q');
    }
  }

  lemma SigsWithinMono(a: set<State>, b: set<State>, d: nat)
    requires a <= b
    ensures SigsWithin(a, d) <= SigsWithin(b, d)
  {
  }

  // The queue's levels put everything visited so far at most one step beyond the state just expanded.
  lemma VisitedWithin(left: seq<State>, st: State, q: seq<State>, v: set<Sig>)
    requires Levels(left + [st], q)
    requires forall s | s in v :: exists x | x in AllStates(left + [st], q) :: x.sig == s
    ensures v <= SigsWithin(AllStates(left + [st], q), st.depth + 1)
  {
    var all := left + [st];
    assert all[|left|] == st;
    forall s | s in v
      ensures s in SigsWithin(AllStates(all, q), st.depth + 1)
    {
      var x :| x in AllStates(all, q) && x.sig == s;
      if x in all {
        var i :| 0 <= i < |all| && all[i] == x;
        assert all[i].depth <= all[|left|].depth;
      }
    }
  }

  lemma SpreadExpand(net: Netlist, start: Sig, left: seq<State>, st: State, q: seq<State>, v: set<Sig>, d: set<Bit>,
                     q': seq<State>, v': set<Sig>, d': set<Bit>, maxDepth: nat)
    requires Spread(net, start, left, [st] + q, v, d, maxDepth)
    requires Extension(q, v, q', v', st.depth + 1) && d <= d' && Levels(left + [st], q')
    requires Covered(net, st.sig, v', d')
    ensures Spread(net, start, left + [st], q', v', d', maxDepth)
  {
    hide Covered, SigsWithin, Levels, AllStates, Extension;
    var all := left + [st];
    var old', new' := AllStates(left, [st] + q), AllStates(all, q');
    StatesPop(left, st, q);
    StatesExtend(all, q, v, q', v', st.depth + 1);
    VisitedWithin(left, st, q', v');
    SigsWithinMono(old', new', 0);
    forall x | x in all && x.depth < maxDepth
      ensures Covered(net, x.sig, SigsWithin(new', x.depth + 1) * v', d')
    {
      if x in left {
        SigsWithinMono(old', new', x.depth + 1);
        CoveredMono(net, x.sig, SigsWithin(old', x.depth + 1) * v, SigsWithin(new', x.depth + 1) * v', d, d');
      } else {
        assert x == st;
        CoveredMono(net, st.sig, v', SigsWithin(new', st.depth + 1) * v', d', d');
      }
    }
  }

  lemma WithinDepthExpand(left: seq<State>, st: State, q: seq<State>, v: set<Sig>, rs: seq<Record>, q': seq<State>,
                          v': set<Sig>, rs': seq<Record>, maxDepth: nat)
    requires WithinDepth(left, [st] + q, rs, maxDepth) && st.depth < maxDepth
    requires Extension(q, v, q', v', st.depth + 1) && AddedAt(rs, rs', st.depth)
    ensures WithinDepth(left + [st], q', rs', maxDepth)
  {
    hide AllStates, Extension;
    StatesPop(left, st, q);
    StatesExtend(left + [st], q, v, q', v', st.depth + 1);
  }

  // A search state tells the truth about some backward path that leads to it.
  ghost predicate Witnessed(net: Netlist, start: Sig, st: State, p: Path) {
    && p.In(net, start) && p.sig == st.sig
    && p.Steps() == st.depth && p.Registers() == st.regDepth && p.EntersSelect() == st.isCtrlPath
    && st.cell.Some? == p.Back?
    && (p.Back? ==> st.cell == Some(p.cell) && st.port == p.port)
  }

  ghost predicate QueueTrue(net: Netlist, start: Sig, q: seq<State>, ps: seq<Path>) {
    |ps| == |q| && forall i | 0 <= i < |q| :: Witnessed(net, start, q[i], ps[i])
  }

  lemma QueueStaysTrue(net: Netlist, start: Sig, q: seq<State>, ps: seq<Path>, st: State, p: Path)
    requires QueueTrue(net, start, q, ps) && Witnessed(net, start, st, p)
    ensures QueueTrue(net, start, q + [st], ps + [p])
  {
    hide Witnessed;
  }

  // Every state that left the queue had such a path.
  ghost predicate Travelled(net: Netlist, start: Sig, left: seq<State>) {
    forall st | st in left :: HasPath(net, start, st)
  }

  ghost predicate HasPath(net: Netlist, start: Sig, st: State) { exists p :: Witnessed(net, start, st, p) }

  lemma TravelledMore(net: Netlist, start: Sig, left: seq<State>, st: State, p: Path)
    requires Travelled(net, start, left) && Witnessed(net, start, st, p)
    ensures Travelled(net, start, left + [st])
  {
    hide Witnessed;
    assert HasPath(net, start, st);
    hide HasPath;
  }

  // The cell a state came through is a node of the graph.
  predicate NameNoted(st: State, name2id: map<string, nat>) {
    st.cell.Some? ==> st.cell.value.name in name2id
  }

  predicate NamesNoted(q: seq<State>, name2id: map<string, nat>) {
    forall st | st in q :: NameNoted(st, name2id)
  }

  lemma NamesStayNoted(q: seq<State>, st: State, n: map<string, nat>, m: map<string, nat>)
    requires NamesNoted(q, n) && (forall x | x in n :: x in m) && NameNoted(st, m)
    ensures NamesNoted(q + [st], m)
  {
    forall s | s in q + [st]
      ensures NameNoted(s, m)
    {
      assert s in q || s == st;
    }
  }

  lemma QueuedMore(q: seq<State>, v: set<Sig>, st: State)
    requires st.sig !in v
    ensures QueuedSigs(q + [st]) == QueuedSigs(q) + {st.sig}
    ensures Extension(q, v, q + [st], v + {st.sig}, st.depth)
  {
    assert (q + [st])[|q|..] == [st];
    assert QueuedSigs([st]) == {st.sig};
  }

  ghost predicate VisitedTrue(net: Netlist, start: Sig, visited: set<Sig>) {
    forall s | s in visited :: Plain(net, s) && s in Universe(net) && Reaches(net, start, s)
  }

  // A record tells the truth about a path to a signal of at most 32 bits that a flip-flop drives.
  ghost predicate RecordTrue(net: Netlist, start: Sig, r: Record) {
    && |r.sig| <= 32
    && exists p: Path, c: Cell ::
         && p.In(net, start) && p.sig == r.sig
         && p.Steps() == r.info.depth && p.Registers() == r.info.regDepth && p.EntersSelect() == r.info.isCtrl
         && c in net.cells && c.kind.IsFF() && Drives(c, r.sig) && c.name == r.info.cellName
  }

  ghost predicate RecordsTrue(net: Netlist, start: Sig, rs: seq<Record>) {
    forall r | r in rs :: RecordTrue(net, start, r)
  }

  // An edge x -> y stands for a signal that x drives and that is connected to the named port of y.
  ghost predicate EdgeTrue(net: Netlist, nodes: map<nat, Node>, e: EdgeKey, sig: Sig) {
    && e.idX in nodes && e.idY in nodes
    && exists x, y :: EdgeBetween(net, x, y, e, sig) && nodes[e.idX].name == x.name && nodes[e.idY].name == y.name
  }

  ghost predicate EdgeBetween(net: Netlist, x: Cell, y: Cell, e: EdgeKey, sig: Sig) {
    && x in net.cells && y in net.cells && Drives(x, sig) && e.portX == x.OutPort()
    && e.portY in y.conns && forall b | b in sig :: b in net.In(y, e.portY)
  }

  ghost predicate EdgesTrue(net: Netlist, nodes: map<nat, Node>, edges: map<EdgeKey, Sig>) {
    forall e | e in edges :: EdgeTrue(net, nodes, e, edges[e])
  }

  lemma EdgesStayTrue(net: Netlist, nodes: map<nat, Node>, more: map<nat, Node>, edges: map<EdgeKey, Sig>)
    requires EdgesTrue(net, nodes, edges)
    requires forall i | i in nodes :: i in more && more[i] == nodes[i]
    ensures EdgesTrue(net, more, edges)
  {
    hide EdgeBetween;
    forall e | e in edges
      ensures EdgeTrue(net, more, e, edges[e])
    {
      assert EdgeTrue(net, nodes, e, edges[e]);
    }
  }

  // A state at which the search does not go on: too deep, in front of a memory read, or where an
  // assertion of the pass fails.
  ghost predicate StopsAt(net: Netlist, st: State, maxDepth: nat) {
    st.depth >= maxDepth || Halts(net, st)
  }

  ghost predicate Halts(net: Netlist, st: State) { ReadsMemory(net, st.sig) || Refused(net, st.sig) }

  ghost predicate Halted(net: Netlist, left: seq<State>) { exists st | st in left :: Halts(net, st) }

  ghost predicate Stopped(net: Netlist, left: seq<State>, maxDepth: nat) {
    exists st | st in left :: StopsAt(net, st, maxDepth)
  }

  lemma StoppedMore(net: Netlist, left: seq<State>, st: State, maxDepth: nat)
    ensures Stopped(net, left, maxDepth) || StopsAt(net, st, maxDepth) ==> Stopped(net, left + [st], maxDepth)
    ensures Halted(net, left) || Halts(net, st) ==> Halted(net, left + [st])
  {
    hide StopsAt, Halts;
    assert st == (left + [st])[|left|];
    assert st in left + [st] && forall x | x in left :: x in left + [st];
  }

  // The chunks before i are covered.
  ghost predicate PrefixCovered(c: Cell, p: Port, s: Sig, chunks: seq<Sig>, i: nat, visited: set<Sig>) {
    i <= |chunks| && forall k | 0 <= k < i :: ChunkCovered(c, p, s, chunks[k], visited)
  }

  lemma PrefixNext(c: Cell, p: Port, s: Sig, chunks: seq<Sig>, i: nat, v: set<Sig>, w: set<Sig>)
    requires PrefixCovered(c, p, s, chunks, i, v) && v <= w && i < |chunks| && ChunkCovered(c, p, s, chunks[i], w)
    ensures PrefixCovered(c, p, s, chunks, i + 1, w)
  {
    hide ChunkCovered;
    forall k | 0 <= k < i
      ensures ChunkCovered(c, p, s, chunks[k], w)
    {
      ChunkCoveredMono(c, p, s, chunks[k], v, w);
    }
  }

  lemma PrefixEnds(net: Netlist, c: Cell, p: Port, s: Sig, visited: set<Sig>)
    ensures PrefixCovered(c, p, s, Chunks(net.In(c, p)), 0, visited)
    ensures var chunks := Chunks(net.In(c, p));
            PrefixCovered(c, p, s, chunks, |chunks|, visited) ==> PortCovered(net, c, p, s, visited)
  {
    hide ChunkCovered, Chunks;
  }

  // The drivers among the cells seen are covered.
  ghost predicate SeenCovered(net: Netlist, seen: set<Cell>, s: Sig, visited: set<Sig>, collected: set<Bit>) {
    forall c | c in seen && Drives(c, s) :: CellCovered(net, c, s, visited, collected)
  }

  lemma SeenNext(net: Netlist, seen: set<Cell>, cell: Cell, s: Sig, v: set<Sig>, w: set<Sig>, d: set<Bit>, e: set<Bit>)
    requires SeenCovered(net, seen, s, v, d) && v <= w && d <= e
    requires Drives(cell, s) ==> CellCovered(net, cell, s, w, e)
    ensures SeenCovered(net, seen + {cell}, s, w, e)
  {
    hide CellCovered, Drives;
    forall c | c in seen && Drives(c, s)
      ensures CellCovered(net, c, s, w, e)
    {
      CellCoveredMono(net, c, s, v, w, d, e);
    }
  }

  // One expansion collects the bits of s or none.
  predicate Gathered(d: set<Bit>, d': set<Bit>, pool: set<Sig>, pool': set<Sig>, s: Sig) {
    (d' == d || (|s| <= 32 && d' == d + Bits(s))) && pool' <= pool + {s}
  }

  lemma GatheredMore(d: set<Bit>, d': set<Bit>, d'': set<Bit>, p: set<Sig>, p': set<Sig>, p'': set<Sig>, s: Sig)
    requires Gathered(d, d', p, p', s) && Gathered(d', d'', p', p'', s)
    ensures Gathered(d, d'', p, p'', s) && d' <= d''
  {
  }

  class DependentSearch {
    const net: Netlist
    const start: Sig
    const manager: DependentManager
    const graph: CircuitGraph
    var queue: seq<State>
    var visited: set<Sig>
    // An assertion of the pass failed, or a port it asked for is not connected.
    var failed: bool
    ghost var paths: seq<Path>
    ghost var processed: set<Sig>
    ghost var dequeued: seq<State>
    ghost var memoryCut: bool
    ghost var depthCut: bool

    ghost predicate Valid()
      reads this`queue, this`visited, this`paths, manager, graph
    {
      && net.Valid() && net.Canon(start) == start && graph.Valid() && manager.Valid()
      && QueueTrue(net, start, queue, paths)
      && NamesNoted(queue, graph.name2id)
      && QueuedSigs(queue) <= visited + {start}
      && VisitedTrue(net, start, visited)
      && RecordsTrue(net, start, manager.records)
      && EdgesTrue(net, graph.nodes, graph.edges)
    }

    ghost predicate Noted(st: State)
      reads graph
    {
      NameNoted(st, graph.name2id)
    }

    // st is being expanded: it has left the queue and stands on a plain signal.
    ghost predicate StandsOn(st: State, p: Path) {
      Witnessed(net, start, st, p) && Plain(net, st.sig)
    }

    ghost predicate Cut()
      reads this
    {
      failed || memoryCut || depthCut
    }

    ghost predicate OnTrack()
      reads this, manager
    {
      && History(net, start, dequeued, queue, visited)
      && (!Cut() ==> Closing(net, start, processed, queue, visited, manager.dependents, manager.dependentPool))
    }

    // The search so far obeys the depth limit and, unless something else cut it short, has gone as far
    // as the limit allows.
    ghost predicate ObeysDepth(maxDepth: nat)
      reads this, manager
    {
      && WithinDepth(dequeued, queue, manager.records, maxDepth)
      && (failed || memoryCut || Spread(net, start, dequeued, queue, visited, manager.dependents, maxDepth))
    }

    ghost predicate Initial()
      reads this, manager
    {
      && queue == [State(None, start, NoPort, 0, 0, false)]
      && visited == {} && processed == {} && dequeued == [] && manager.dependents == {} && manager.dependentPool == {}
      && manager.records == [] && !Cut()
    }

    // No budget, memory or assertion stopped the search early.
    ghost predicate Complete()
      reads this
    {
      !Cut() && queue == []
    }

    constructor (net: Netlist, startSig: Sig)
      requires net.Valid()
      ensures Valid() && fresh(manager) && fresh(graph)
      ensures this.net == net && start == net.Canon(startSig)
      ensures Initial()
    {
      this.net := net;
      start := net.Canon(startSig);
      manager := new DependentManager();
      graph := new CircuitGraph();
      queue := [State(None, net.Canon(startSig), NoPort, 0, 0, false)];
      visited := {};
      failed := false;
      paths := [Origin(net.Canon(startSig))];
      processed, dequeued, memoryCut, depthCut := {}, [], false, false;
    }

    // Queue a newly reached signal and note the step in the circuit graph.
    method Push(st: State, cell: Cell, port: Port, sig: Sig, ghost path: Path)
      requires Valid() && Noted(st) && StandsOn(st, path)
      requires StepsTo(net, cell, port, st.sig, sig) && sig !in visited
      modifies this`queue, this`visited, this`paths, graph
      ensures Valid() && Noted(st)
      ensures Extension(old(queue), old(visited), queue, visited, st.depth + 1)
      ensures visited == old(visited) + {sig}
      ensures EdgeNoted(st, cell, old(graph.edges.Keys))
    {
      hide QueueTrue, VisitedTrue, RecordsTrue, EdgesTrue, Witnessed, StepsTo, StandsOn, Drives;
      hide Netlist.Valid, DependentManager.Valid, CircuitGraph.Valid, Path.In, NamesNoted, QueuedSigs, Extension,
           EdgeNoted;
      visited := visited + {sig};
      var next := State(Some(cell), sig, port, st.depth + 1,
                        st.regDepth + (if cell.kind.IsFF() then 1 else 0),
                        st.isCtrlPath || (cell.kind.IsMux() && port == S));
      queue := queue + [next];
      paths := paths + [Back(path, cell, port, sig)];
      StepCell(st, cell, port, sig);
      StepTrue(st, path, cell, port, sig, next);
      VisitedStaysTrue(st, path, cell, port, sig, old(visited));
      QueueStaysTrue(net, start, old(queue), old(paths), next, Back(path, cell, port, sig));
      QueuedMore(old(queue), old(visited), next);
      NoteStep(st, cell, path);
      NamesStayNoted(old(queue), next, old(graph.name2id), graph.name2id);
    }

    lemma StepTrue(st: State, path: Path, cell: Cell, port: Port, sig: Sig, next: State)
      requires StandsOn(st, path) && StepsTo(net, cell, port, st.sig, sig)
      requires next == State(Some(cell), sig, port, st.depth + 1,
                             st.regDepth + (if cell.kind.IsFF() then 1 else 0),
                             st.isCtrlPath || (cell.kind.IsMux() && port == S))
      ensures Witnessed(net, start, next, Back(path, cell, port, sig))
    {
      hide StepsTo, Plain;
    }

    lemma VisitedStaysTrue(st: State, path: Path, cell: Cell, port: Port, sig: Sig, visited: set<Sig>)
      requires net.Valid() && StandsOn(st, path) && StepsTo(net, cell, port, st.sig, sig)
      requires VisitedTrue(net, start, visited)
      ensures VisitedTrue(net, start, visited + {sig})
    {
      hide StepsTo, Plain, Universe, Netlist.Valid, Reaches, Path.In, StandsOn;
      NonEmpty(st, path);
      StandsPath(st, path);
      StepFacts(net, cell, port, st.sig, sig);
      StepReached(net, start, path, cell, port, sig);
    }

    lemma StandsPath(st: State, path: Path)
      requires StandsOn(st, path)
      ensures path.In(net, start) && path.sig == st.sig
    {
    }

    lemma StepCell(st: State, cell: Cell, port: Port, sig: Sig)
      requires StepsTo(net, cell, port, st.sig, sig)
      ensures cell in net.cells && Drives(cell, st.sig)
    {
    }

    // Of the edges, only that of the step from cell to st's cell has been added, and it is there.
    ghost predicate EdgeNoted(st: State, cell: Cell, before: set<EdgeKey>)
      reads graph
    {
      if st.cell.None? then graph.edges.Keys == before
      else
        && cell.name in graph.name2id && st.cell.value.name in graph.name2id
        && graph.edges.Keys ==
           before + {EdgeKey(graph.name2id[cell.name], graph.name2id[st.cell.value.name],
                             if cell.kind.IsFF() then Q else Y, st.port)}
    }

    method NoteStep(st: State, cell: Cell, ghost path: Path)
      requires graph.Valid() && Noted(st) && StandsOn(st, path) && cell in net.cells && Drives(cell, st.sig)
      requires net.Valid()
      requires EdgesTrue(net, graph.nodes, graph.edges)
      modifies graph
      ensures graph.Valid() && Noted(st) && cell.name in graph.name2id
      ensures forall n | n in old(graph.name2id) :: n in graph.name2id
      ensures EdgesTrue(net, graph.nodes, graph.edges)
      ensures EdgeNoted(st, cell, old(graph.edges.Keys))
    {
      hide EdgesTrue, StandsOn, Drives, CircuitGraph.Valid, Netlist.Valid, EdgeBetween;
      graph.AddNode(cell);
      EdgesStayTrue(net, old(graph.nodes), graph.nodes, graph.edges);
      if st.cell.Some? {
        StandsFacts(st, path);
        NoteEdge(st, cell);
      }
    }

    method NoteEdge(st: State, cell: Cell)
      requires graph.Valid() && EdgesTrue(net, graph.nodes, graph.edges)
      requires cell in net.cells && cell.name in graph.name2id && Drives(cell, st.sig)
      requires st.cell.Some? && st.cell.value in net.cells && st.cell.value.name in graph.name2id
      requires st.port in st.cell.value.conns && forall b | b in st.sig :: b in net.In(st.cell.value, st.port)
      modifies graph
      ensures graph.Valid() && graph.name2id == old(graph.name2id)
      ensures EdgesTrue(net, graph.nodes, graph.edges)
      ensures EdgeNoted(st, cell, old(graph.edges.Keys))
    {
      hide EdgesTrue, Drives, Netlist.Valid;
      var y := st.cell.value;
      var portX := if cell.kind.IsFF() then Q else Y;
      graph.AddEdge(cell, y, st.sig, portX, st.port);
      ghost var e := EdgeKey(graph.name2id[cell.name], graph.name2id[y.name], portX, st.port);
      assert EdgeBetween(net, cell, y, e, st.sig);
      NewEdge(graph.nodes, old(graph.edges), e, st.sig, cell, y);
    }

    lemma NewEdge(nodes: map<nat, Node>, edges: map<EdgeKey, Sig>, e: EdgeKey, sig: Sig, x: Cell, y: Cell)
      requires EdgesTrue(net, nodes, edges) && EdgeBetween(net, x, y, e, sig)
      requires e.idX in nodes && e.idY in nodes && nodes[e.idX].name == x.name && nodes[e.idY].name == y.name
      ensures EdgesTrue(net, nodes, edges[e := sig])
    {
      hide EdgeBetween;
      var more := edges[e := sig];
      forall f | f in more
        ensures EdgeTrue(net, nodes, f, more[f])
      {
        if f != e {
          assert EdgeTrue(net, nodes, f, edges[f]);
        }
      }
    }

    lemma StandsFacts(st: State, path: Path)
      requires net.Valid() && StandsOn(st, path) && st.cell.Some?
      ensures st.cell.value in net.cells && st.port in st.cell.value.conns
      ensures forall b | b in st.sig :: b in net.In(st.cell.value, st.port)
    {
      hide Plain, ReachesFrom;
      StepOrigin(path);
    }

    lemma StepOrigin(path: Path)
      requires net.Valid() && path.In(net, start) && path.Back?
      ensures path.cell in net.cells && path.port in path.cell.conns
      ensures forall b | b in path.sig :: b in net.In(path.cell, path.port)
    {
      hide Drives, Chunks, IsRun, DataflowLevel, ExtractOffset;
      var chunk :| chunk in Chunks(net.In(path.cell, path.port)) &&
        ReachesFrom(path.cell, path.port, path.prev.sig, chunk, path.sig);
      ChunkBits(net.In(path.cell, path.port), chunk);
    }

    method VisitChunk(st: State, cell: Cell, port: Port, chunk: Sig, ghost path: Path)
      requires Valid() && !failed && Noted(st) && StandsOn(st, path)
      requires cell in net.cells && Drives(cell, st.sig) && port in cell.conns
      requires chunk in Chunks(net.In(cell, port))
      modifies this`queue, this`visited, this`failed, this`paths, graph
      ensures Valid() && Noted(st)
      ensures Extension(old(queue), old(visited), queue, visited, st.depth + 1)
      ensures if failed then RefusesChunk(cell, port, st.sig, chunk)
          else ChunkCovered(cell, port, st.sig, chunk, visited)
    {
      hide Valid, Noted, StandsOn, Extension, Chunks, Extract, DataflowLevel, ExtractOffset;
      ExtensionRefl(queue, visited, st.depth + 1);
      if IsConst(chunk) || chunk in visited {
        return;
      }
      var level := DataflowLevel(cell, port);
      if level.None? {
        failed := true;
      } else if level.value.All? {
        assert ReachesFrom(cell, port, st.sig, chunk, chunk);
        Push(st, cell, port, chunk, path);
      } else if level.value.BitLevel? {
        VisitSlice(st, cell, port, chunk, path);
      }
    }

    // Reverse trace only the connected part of the chunk.
    method VisitSlice(st: State, cell: Cell, port: Port, chunk: Sig, ghost path: Path)
      requires Valid() && !failed && Noted(st) && StandsOn(st, path)
      requires cell in net.cells && Drives(cell, st.sig) && port in cell.conns
      requires chunk in Chunks(net.In(cell, port)) && !IsConst(chunk)
      requires DataflowLevel(cell, port) == Some(BitLevel)
      modifies this`queue, this`visited, this`failed, this`paths, graph
      ensures Valid() && Noted(st)
      ensures Extension(old(queue), old(visited), queue, visited, st.depth + 1)
      ensures if failed then RefusesChunk(cell, port, st.sig, chunk)
          else ChunkCovered(cell, port, st.sig, chunk, visited)
    {
      hide Valid, Noted, StandsOn, Extension, Chunks, Extract, DataflowLevel, ExtractOffset, Plain, Universe, IsConst;
      ExtensionRefl(queue, visited, st.depth + 1);
      var offset := GetExtractOffset(st.sig, cell.Out().value);
      if offset.None? {
        failed := true;
      } else if |chunk| > offset.value {
        var next := net.Canon(SliceOf(chunk, st.sig, offset.value));
        NetValid();
        NonEmpty(st, path);
        LevelNeedsInput(cell, port);
        SliceIsCanonical(net, cell, port, chunk, st.sig, offset.value);
        assert !IsConst(next);
        if next !in visited {
          assert ReachesFrom(cell, port, st.sig, chunk, next);
          Push(st, cell, port, next, path);
        }
      }
    }

    method VisitPort(st: State, cell: Cell, port: Port, ghost path: Path)
      requires Valid() && !failed && Noted(st) && StandsOn(st, path)
      requires cell in net.cells && Drives(cell, st.sig) && port in cell.conns
      modifies this`queue, this`visited, this`failed, this`paths, graph
      ensures Valid() && Noted(st)
      ensures Extension(old(queue), old(visited), queue, visited, st.depth + 1)
      ensures if failed then RefusesPort(net, cell, port, st.sig) else PortCovered(net, cell, port, st.sig, visited)
    {
      hide Valid, Noted, StandsOn, Extension, ChunkCovered, RefusesChunk, PrefixCovered, PortCovered, Chunks,
           Netlist.In;
      var chunks := Chunks(net.In(cell, port));
      ExtensionRefl(queue, visited, st.depth + 1);
      PrefixEnds(net, cell, port, st.sig, visited);
      var i := 0;
      while i < |chunks| && !failed
        invariant 0 <= i <= |chunks|
        invariant Valid() && Noted(st)
        invariant Extension(old(queue), old(visited), queue, visited, st.depth + 1)
        invariant if failed then RefusesPort(net, cell, port, st.sig)
                  else PrefixCovered(cell, port, st.sig, chunks, i, visited)
      {
        ghost var q, v := queue, visited;
        VisitChunk(st, cell, port, chunks[i], path);
        ExtensionTrans(old(queue), old(visited), q, v, queue, visited, st.depth + 1);
        if !failed {
          PrefixNext(cell, port, st.sig, chunks, i, v, visited);
        }
        i := i + 1;
      }
      PrefixEnds(net, cell, port, st.sig, visited);
    }

    method VisitPorts(st: State, cell: Cell, ports: set<Port>, ghost path: Path)
      requires Valid() && !failed && Noted(st) && StandsOn(st, path)
      requires cell in net.cells && Drives(cell, st.sig) && ports <= cell.conns.Keys
      requires forall p | p in ports :: !cell.kind.Output(p)
      modifies this`queue, this`visited, this`failed, this`paths, graph
      ensures Valid() && Noted(st)
      ensures Extension(old(queue), old(visited), queue, visited, st.depth + 1)
      ensures if failed then RefusesCell(net, cell, st.sig)
              else forall p | p in ports :: PortCovered(net, cell, p, st.sig, visited)
    {
      hide Valid, Noted, StandsOn, Extension, PortCovered, Drives, RefusesPort, CellKind.Output;
      ExtensionRefl(queue, visited, st.depth + 1);
      var rest := ports;
      while rest != {} && !failed
        invariant Valid() && Noted(st) && rest <= ports
        invariant Extension(old(queue), old(visited), queue, visited, st.depth + 1)
        invariant failed ==> RefusesCell(net, cell, st.sig)
        invariant failed || forall p | p in ports && p !in rest :: PortCovered(net, cell, p, st.sig, visited)
        decreases |rest|
      {
        ghost var q, v := queue, visited;
        var port :| port in rest;
        VisitPort(st, cell, port, path);
        ExtensionTrans(old(queue), old(visited), q, v, queue, visited, st.depth + 1);
        forall p | p in ports && p !in rest && !failed
          ensures PortCovered(net, cell, p, st.sig, visited)
        {
          PortCoveredMono(net, cell, p, st.sig, v, visited);
        }
        rest := rest - {port};
      }
    }

    method VisitCell(st: State, cell: Cell, ghost path: Path)
      requires Valid() && !failed && Noted(st) && StandsOn(st, path)
      requires cell in net.cells && Drives(cell, st.sig)
      modifies this`queue, this`visited, this`failed, this`paths, graph, manager
      ensures Valid() && Noted(st)
      ensures Extension(old(queue), old(visited), queue, visited, st.depth + 1)
      ensures if failed then RefusesCell(net, cell, st.sig)
          else CellCovered(net, cell, st.sig, visited, manager.dependents)
      ensures manager.dependents ==
        old(manager.dependents) + (if cell.kind.IsFF() && |st.sig| <= 32 then Bits(st.sig) else {})
      ensures manager.dependentPool <= old(manager.dependentPool) + {st.sig}
      ensures AddedAt(old(manager.records), manager.records, st.depth)
    {
      hide Valid, Noted, StandsOn, Extension, PortCovered, Drives, CellKind.Output, RefusesCell;
      if cell.kind.IsFF() && |st.sig| <= 32 {
        Collect(st, cell, path);
      }
      var ports := set p | p in cell.conns && !cell.kind.Output(p);
      VisitPorts(st, cell, ports, path);
    }

    method Collect(st: State, cell: Cell, ghost path: Path)
      requires Valid() && Noted(st) && StandsOn(st, path)
      requires cell in net.cells && Drives(cell, st.sig) && cell.kind.IsFF() && |st.sig| <= 32
      modifies manager
      ensures Valid() && Noted(st)
      ensures manager.dependents == old(manager.dependents) + Bits(st.sig)
      ensures manager.dependentPool == old(manager.dependentPool) + {st.sig}
      ensures AddedAt(old(manager.records), manager.records, st.depth)
    {
      hide QueueTrue, VisitedTrue, EdgesTrue, Drives, Plain, Path.In;
      var info := Info(st.depth, st.regDepth, st.isCtrlPath, cell.name);
      assert RecordTrue(net, start, Record(st.sig, info));
      hide RecordTrue, Witnessed;
      manager.Add(st.sig, info);
    }

    // One cell on st's signal that is no memory read.
    method VisitTarget(st: State, cell: Cell, ghost path: Path)
      requires Valid() && !failed && Noted(st) && StandsOn(st, path) && cell in net.CellsOn(st.sig)
      modifies this`queue, this`visited, this`failed, this`paths, graph, manager
      ensures Valid() && Noted(st)
      ensures Extension(old(queue), old(visited), queue, visited, st.depth + 1)
      ensures failed ==> Refused(net, st.sig)
      ensures !failed && Drives(cell, st.sig) ==> CellCovered(net, cell, st.sig, visited, manager.dependents)
      ensures Gathered(old(manager.dependents), manager.dependents, old(manager.dependentPool),
          manager.dependentPool, st.sig)
      ensures AddedAt(old(manager.records), manager.records, st.depth)
    {
      hide Valid, Noted, StandsOn, Extension, CellCovered, Drives, Netlist.CellsOn, RefusesCell, Chunks, Extract;
      ExtensionRefl(queue, visited, st.depth + 1);
      if cell.Out().None? {
        failed := true;
        NoOutput(cell, st.sig);
      } else if Extract(cell.Out().value, st.sig) == st.sig {
        TouchingDrives(st, path, cell);
        VisitCell(st, cell, path);
      } else {
        NotDriving(cell, st.sig);
      }
    }

    // The cells on st's signal, in any order, up to the first memory read.
    method Expand(st: State, ghost path: Path)
      requires Valid() && !failed && Noted(st) && StandsOn(st, path)
      modifies this`queue, this`visited, this`failed, this`paths, this`memoryCut, graph, manager
      ensures Valid() && Noted(st)
      ensures Extension(old(queue), old(visited), queue, visited, st.depth + 1)
      ensures failed || memoryCut || Covered(net, st.sig, visited, manager.dependents)
      ensures old(memoryCut) ==> memoryCut
      ensures memoryCut && !old(memoryCut) ==> ReadsMemory(net, st.sig)
      ensures failed ==> Refused(net, st.sig)
      ensures Gathered(old(manager.dependents), manager.dependents, old(manager.dependentPool),
          manager.dependentPool, st.sig)
      ensures AddedAt(old(manager.records), manager.records, st.depth)
    {
      hide Valid, Noted, StandsOn, Extension, CellCovered, Drives, Netlist.CellsOn, RefusesCell, Chunks, SeenCovered,
           Gathered, Covered, Extract, AddedAt;
      ExtensionRefl(queue, visited, st.depth + 1);
      var cells := net.CellsOn(st.sig);
      ghost var seen: set<Cell> := {};
      ExpandStart(st.sig, st.depth);
      while cells != {} && !failed
        invariant Valid() && Noted(st)
        invariant Extension(old(queue), old(visited), queue, visited, st.depth + 1)
        invariant memoryCut == old(memoryCut)
        invariant cells + seen == net.CellsOn(st.sig)
        invariant if failed then Refused(net, st.sig) else SeenCovered(net, seen, st.sig, visited, manager.dependents)
        invariant Gathered(old(manager.dependents), manager.dependents, old(manager.dependentPool),
            manager.dependentPool, st.sig)
        invariant AddedAt(old(manager.records), manager.records, st.depth)
        decreases |cells|
      {
        var cell :| cell in cells;
        if cell.kind.IsMemRead() {
          memoryCut := true;
          return;
        }
        ghost var q, v, d, pool := queue, visited, manager.dependents, manager.dependentPool;
        ghost var rs := manager.records;
        VisitTarget(st, cell, path);
        AddedMore(old(manager.records), rs, manager.records, st.depth);
        GatheredMore(old(manager.dependents), d, manager.dependents, old(manager.dependentPool), pool,
            manager.dependentPool, st.sig);
        ExtensionTrans(old(queue), old(visited), q, v, queue, visited, st.depth + 1);
        if !failed {
          SeenNext(net, seen, cell, st.sig, v, visited, d, manager.dependents);
        }
        cells, seen := cells - {cell}, seen + {cell};
      }
      if !failed {
        AllSeen(st, path, seen);
      }
    }

    lemma ExpandStart(s: Sig, d: nat)
      ensures SeenCovered(net, {}, s, visited, manager.dependents)
      ensures Gathered(manager.dependents, manager.dependents, manager.dependentPool, manager.dependentPool, s)
      ensures AddedAt(manager.records, manager.records, d)
    {
    }

    lemma AllSeen(st: State, path: Path, seen: set<Cell>)
      requires Valid() && StandsOn(st, path) && seen == net.CellsOn(st.sig)
      requires SeenCovered(net, seen, st.sig, visited, manager.dependents)
      ensures Covered(net, st.sig, visited, manager.dependents)
    {
      hide StandsOn, Drives, CellCovered, Netlist.CellsOn;
      NetValid();
      hide Valid;
      forall c | c in net.cells && Drives(c, st.sig)
        ensures CellCovered(net, c, st.sig, visited, manager.dependents)
      {
        DriverTouches(st, path, c);
      }
    }

    lemma NoOutput(cell: Cell, s: Sig)
      requires cell in net.CellsOn(s) && cell.Out().None?
      ensures Refused(net, s)
    {
      assert RefusesCell(net, cell, s);
    }

    method Dequeue() returns (st: State, ghost path: Path)
      requires Valid() && queue != []
      modifies this`queue, this`paths, this`dequeued
      ensures Valid() && Noted(st) && Witnessed(net, start, st, path) && net.Canon(st.sig) == st.sig
      ensures st.sig in visited + {start}
      ensures st == old(queue)[0] && queue == old(queue)[1..] && dequeued == old(dequeued) + [st]
    {
      hide Witnessed, RecordsTrue, EdgesTrue, CircuitGraph.Valid, DependentManager.Valid, Netlist.Valid, Universe,
           IsSpan;
      st, path := queue[0], paths[0];
      queue, paths := queue[1..], paths[1..];
      dequeued := dequeued + [st];
      assert st.sig in QueuedSigs(old(queue));
      assert QueuedSigs(queue) <= QueuedSigs(old(queue));
    }

    // One round of the search: the state at the front of the queue.
    method Round(maxDepth: nat)
      requires Valid() && OnTrack() && ObeysDepth(maxDepth) && !failed && queue != []
      modifies this, manager, graph
      ensures Valid() && OnTrack() && ObeysDepth(maxDepth)
      ensures dequeued == old(dequeued) + [old(queue)[0]]
      ensures var u := Universe(net);
              |u - visited| < |u - old(visited)| || (visited == old(visited) && queue == old(queue)[1..])
      ensures |manager.dependents| <= |old(manager.dependents)| + 32
      ensures Cut() ==> old(Cut()) || StopsAt(net, old(queue)[0], maxDepth)
      ensures failed || memoryCut ==> old(memoryCut) || Halts(net, old(queue)[0])
    {
      hide Valid, Noted, Witnessed, Covered, Closing, History, Plain, Universe, Extension, Chunks, Netlist.CellsOn,
           RefusesCell, ReadsMemory, Gathered, AddedAt, WithinDepth, Spread;
      ghost var path;
      var st;
      st, path := Dequeue();
      assert old(queue) == [st] + queue;
      HistoryPop(net, start, old(dequeued), old(queue), visited, path);
      DepthPop(old(dequeued), st, queue, visited, manager.dependents, manager.records, maxDepth);
      if st.depth >= maxDepth {
        depthCut := true;
        return;
      }
      var curSig := net.Canon(st.sig);
      if |Chunks(curSig)| != 1 || net.CellsOn(curSig) == {} {
        failed := true;
        return;
      }
      OneChunkIsPlain(net, st.sig);
      ghost var q, v, d, sigs := queue, visited, manager.dependents, manager.dependentPool;
      ghost var rs := manager.records;
      Expand(st, path);
      ExtensionProgress(q, v, queue, visited, st.depth + 1);
      BudgetStep(d, manager.dependents, sigs, manager.dependentPool, st.sig);
      HistoryExtend(net, start, old(dequeued), st, q, v, queue, visited);
      WithinDepthExpand(old(dequeued), st, q, v, rs, queue, visited, manager.records, maxDepth);
      if !failed && !memoryCut {
        HistoryLevels(net, start, dequeued, queue, visited);
        SpreadExpand(net, start, old(dequeued), st, q, v, d, queue, visited, manager.dependents, maxDepth);
      }
      if !Cut() {
        ClosingExpand(net, start, processed, st, q, v, d, sigs, queue, visited, manager.dependents,
            manager.dependentPool);
      }
      processed := processed + {st.sig};
      VisitedBounded();
      ComplementShrinks(Universe(net), v, visited);
    }

    lemma DepthPop(left: seq<State>, st: State, q: seq<State>, v: set<Sig>, d: set<Bit>, rs: seq<Record>,
                   maxDepth: nat)
      requires WithinDepth(left, [st] + q, rs, maxDepth)
      ensures WithinDepth(left + [st], q, rs, maxDepth)
      ensures st.depth >= maxDepth && Spread(net, start, left, [st] + q, v, d, maxDepth) ==>
                Spread(net, start, left + [st], q, v, d, maxDepth)
    {
      hide Spread, AllStates;
      StatesPop(left, st, q);
      if st.depth >= maxDepth && Spread(net, start, left, [st] + q, v, d, maxDepth) {
        SpreadPop(net, start, left, st, q, v, d, maxDepth);
      }
    }

    lemma VisitedBounded()
      requires Valid()
      ensures visited <= Universe(net)
    {
    }

    lemma InitialOnTrack()
      requires Initial()
      ensures OnTrack() && |manager.dependents| == 0
      ensures forall maxDepth :: ObeysDepth(maxDepth)
    {
      assert queue[0] in AllStates([], queue);
    }

    method Run(maxDepth: nat, maxBit: nat)
      requires Valid() && Initial()
      modifies this, manager, graph
      ensures Valid() && History(net, start, dequeued, queue, visited) && ObeysDepth(maxDepth)
      ensures |manager.dependents| <= maxBit + 31
      ensures queue == [] || |manager.dependents| >= maxBit || failed
      ensures failed || memoryCut ==> Halted(net, dequeued)
      ensures Complete() || |manager.dependents| >= maxBit || Stopped(net, dequeued, maxDepth)
      ensures Complete() ==> Closed(net, start, processed, visited, manager.dependents, manager.dependentPool)
    {
      hide Valid, Covered, History, Universe, StopsAt, Stopped, ObeysDepth, Halts, Halted;
      InitialOnTrack();
      while queue != [] && |manager.dependents| < maxBit && !failed
        invariant Valid() && OnTrack() && ObeysDepth(maxDepth)
        invariant |manager.dependents| <= maxBit + 31
        invariant Cut() ==> Stopped(net, dequeued, maxDepth)
        invariant failed || memoryCut ==> Halted(net, dequeued)
        decreases |Universe(net) - visited|, |queue|
      {
        StoppedMore(net, dequeued, queue[0], maxDepth);
        Round(maxDepth);
      }
    }

    lemma NonEmpty(st: State, path: Path)
      requires StandsOn(st, path)
      ensures st.sig != []
    {
    }

    lemma NetValid()
      requires Valid()
      ensures net.Valid()
    {
    }

    lemma TouchingDrives(st: State, path: Path, c: Cell)
      requires c in net.CellsOn(st.sig) && c.Out().Some? && Extract(c.Out().value, st.sig) == st.sig
      ensures c in net.cells && Drives(c, st.sig)
    {
      hide Netlist.CellsOn, Extract;
      OnSignal(net, c, st.sig);
    }

    lemma NotDriving(c: Cell, s: Sig)
      requires c.Out().Some? && Extract(c.Out().value, s) != s
      ensures !Drives(c, s)
    {
    }

    lemma DriverTouches(st: State, path: Path, c: Cell)
      requires net.Valid() && StandsOn(st, path) && c in net.cells && Drives(c, st.sig)
      ensures c in net.CellsOn(st.sig)
    {
      hide Witnessed, IsSpan, Chunks, Extract;
      var s, out := st.sig, c.Out().value;
      ExtractMember(out, s, s[0]);
      var i :| 0 <= i < |out| && out[i] == s[0];
      assert c.kind.Input(c.OutPort()) || c.kind.Output(c.OutPort());
      assert net.Rep(s[0]) == s[0] by { assert net.Canon(s)[0] == net.Rep(s[0]); }
      assert net.Canon(out)[i] == s[0];
      assert Overlap(net.Canon(out), s);
    }
  }
}

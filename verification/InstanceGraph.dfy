// InstanCeconnectivityGraph of the DirectFuzz pass: which instance feeds which, and how far each is
// from the target.
module InstanceGraph {
  import opened Basics
  import opened Netlist
  import opened ForwardSearch

  // extract_instance_name, which parses a signal's name: any function here.
  type Naming = Sig -> string

  predicate ThroughAny(r: (Cell, Port)) { Followed(r.0) }

  ghost function FeedSteps(net: Netlist): Steps { StepsThrough(net, ThroughAny) }

  ghost function Owned(name: Naming, instance: string): iset<Sig> { iset s: Sig | name(s) == instance }

  // y owns the first foreign signal on some path from start that otherwise stays in its instance.
  ghost predicate Adjacent(net: Netlist, name: Naming, start: Sig, y: string) {
    exists s :: Reached(FeedSteps(net), Owned(name, name(start)), start, s) && name(s) != name(start) && name(s) == y
  }

  // The foreign instances among the expanded signals.
  function Names(name: Naming, start: Sig, done: set<Sig>): set<string> {
    set s | s in done && name(s) != name(start) :: name(s)
  }

  lemma NamesStep(name: Naming, start: Sig, done: set<Sig>, s: Sig)
    ensures Names(name, start, done + {s}) == Names(name, start, done) + if name(s) != name(start) then {name(s)}
        else {}
    ensures Names(name, start, {}) == {}
  {
  }

  // analyze_adjacent_instance_names
  method AnalyzeAdjacentInstanceNames(net: Netlist, name: Naming, startSig: Sig) returns (names: set<string>)
    requires net.Valid() && HasOutputs(net)
    ensures forall y :: y in names <==> Adjacent(net, name, net.Canon(startSig), y)
  {
    hide FeedSteps, Owned, Frontier, Reached, Remaining, Outputs, Expanded, AllExpanded, Names, Netlist.Valid,
         HasOutputs;
    var start := net.Canon(startSig);
    CanonTwice(net, startSig);
    ghost var steps, region := FeedSteps(net), Owned(name, name(start));
    var visited: set<Sig> := {};
    var queue := [start];
    names := {};
    ghost var done: set<Sig> := {};
    FrontierStart(net, steps, region, start);
    NamesStep(name, start, {}, start);
    while queue != []
      invariant Frontier(net, steps, region, start, visited, queue, done)
      invariant AllExpanded(steps, region, done, visited)
      invariant names == Names(name, start, done)
      decreases Remaining(net, visited), |queue|
    {
      FrontierPop(net, steps, region, start, visited, queue, done);
      var curSig := net.Canon(queue[0]);
      ghost var v, d := visited, done;
      NamesStep(name, start, done, curSig);
      queue := queue[1..];
      done := done + {curSig};
      if name(curSig) != name(start) {
        names := names + {name(curSig)};
        ForeignExpanded(net, name, start, curSig, visited);
      } else {
        visited, queue := VisitReaders(net, name, start, curSig, visited, queue, done);
      }
      AllExpandedStep(steps, region, d, curSig, v, visited);
      RemainingShrinks(net, steps, region, start, v, visited, queue, done);
    }
    FrontierClosed(net, steps, region, start, visited, done);
    NamesAreAdjacent(net, name, start, done);
  }

  lemma NamesAreAdjacent(net: Netlist, name: Naming, start: Sig, done: set<Sig>)
    requires forall s :: s in done <==> Reached(FeedSteps(net), Owned(name, name(start)), start, s)
    ensures forall y :: y in Names(name, start, done) <==> Adjacent(net, name, start, y)
  {
    hide Reached;
  }

  lemma ForeignExpanded(net: Netlist, name: Naming, start: Sig, s: Sig, visited: set<Sig>)
    requires name(s) != name(start)
    ensures Expanded(FeedSteps(net), Owned(name, name(start)), s, visited)
  {
  }

  // Queue the unvisited output chunks of every cell that reads curSig.
  method VisitReaders(net: Netlist, name: Naming, ghost start: Sig, curSig: Sig, visited0: set<Sig>, queue0: seq<Sig>,
                      ghost done: set<Sig>)
    returns (visited: set<Sig>, queue: seq<Sig>)
    requires HasOutputs(net) && name(curSig) == name(start)
    requires Reached(FeedSteps(net), Owned(name, name(start)), start, curSig)
    requires Frontier(net, FeedSteps(net), Owned(name, name(start)), start, visited0, queue0, done)
    ensures Frontier(net, FeedSteps(net), Owned(name, name(start)), start, visited, queue, done)
    ensures Expanded(FeedSteps(net), Owned(name, name(start)), curSig, visited)
    ensures visited0 <= visited && (visited == visited0 ==> queue == queue0)
  {
    hide Reached, Frontier, OutChunks, Netlist.Readers, StepsThrough, Outputs, Expanded, HasOutputs, Grown;
    ghost var steps, region := FeedSteps(net), Owned(name, name(start));
    visited, queue := visited0, queue0;
    var cellPorts := net.Readers(curSig);
    while cellPorts != {}
      invariant cellPorts <= net.Readers(curSig)
      invariant Frontier(net, steps, region, start, visited, queue, done)
      invariant visited0 <= visited && (visited == visited0 ==> queue == queue0)
      invariant forall r | r in net.Readers(curSig) - cellPorts && ThroughAny(r) && r.0.Out().Some? ::
        OutChunks(net, r.0) <= visited
      decreases |cellPorts|
    {
      var cellPort :| cellPort in cellPorts;
      cellPorts := cellPorts - {cellPort};
      if Followed(cellPort.0) {
        ReaderHasOutput(net, curSig, cellPort);
        ReaderFacts(net, curSig, cellPort);
        ReaderSteps(net, ThroughAny, curSig, cellPort);
        ghost var v, q := visited, queue;
        visited, queue := VisitOutput(net, steps, region, start, curSig, cellPort.0, visited, queue, done);
        GrownFacts(q, v, queue, visited);
      }
    }
    CurExpanded(net, ThroughAny, region, curSig, visited);
  }

  lemma FeedsOutputs(net: Netlist, s: Sig, t: Sig)
    requires Feeds(net, ThroughAny, s, t)
    ensures t in Outputs(net)
  {
    hide OutChunks;
    var r :| r in net.Readers(s) && ThroughAny(r) && r.0.Out().Some? && t in OutChunks(net, r.0);
    assert r.0 in net.cells;
  }

  // ---- The graph ----

  // The relation construct builds: x's signals reach y's first.
  ghost predicate Connected(net: Netlist, name: Naming, x: string, y: string) {
    exists c, b | c in net.cells && Starts(c) && b in net.Canon(c.Out().value) ::
      name([b]) == x && Adjacent(net, name, [b], y)
  }

  ghost predicate Starts(c: Cell) { c.kind.Known() && Followed(c) && c.Out().Some? }

  ghost predicate IsWalk(edges: map<string, set<string>>, p: seq<string>) {
    p != [] && forall i | 0 <= i < |p| - 1 :: p[i] in edges && p[i + 1] in edges[p[i]]
  }

  ghost predicate WalkTo(edges: map<string, set<string>>, target: string, x: string, p: seq<string>) {
    IsWalk(edges, p) && p[0] == target && p[|p| - 1] == x
  }

  ghost predicate Reachable(edges: map<string, set<string>>, target: string, x: string) {
    exists p :: WalkTo(edges, target, x, p)
  }

  // d is the length of a shortest walk from the target to x.
  ghost predicate Shortest(edges: map<string, set<string>>, target: string, x: string, d: nat) {
    && WalkOf(edges, target, x, d)
    && forall p :: WalkTo(edges, target, x, p) ==> d < |p|
  }

  const INFINITE: nat := 0xFFFF_FFFF_FFFF_FFFF
  const DUMMY_DISTANCE: nat := 256

  // What calc_distance keeps while it runs.
  ghost predicate Relaxing(edges: map<string, set<string>>, target: string, distance: map<string, nat>,
                           que: seq<string>) {
    && target in distance && distance[target] == 0
    && EdgesKnown(edges, distance) && Walked(edges, target, distance)
    && Levels(distance, que) && Settled(edges, distance, que)
  }

  ghost predicate EdgesKnown(edges: map<string, set<string>>, distance: map<string, nat>) {
    forall x | x in edges :: forall y | y in edges[x] :: y in distance
  }

  // Every distance is the length of a walk.
  ghost predicate Walked(edges: map<string, set<string>>, target: string, distance: map<string, nat>) {
    forall x | x in distance && distance[x] < INFINITE :: WalkOf(edges, target, x, distance[x])
  }

  ghost predicate WalkOf(edges: map<string, set<string>>, target: string, x: string, d: nat) {
    exists p :: WalkTo(edges, target, x, p) && |p| == d + 1
  }

  predicate Queued(distance: map<string, nat>, x: string) { x in distance && distance[x] < INFINITE }

  // The queue holds nodes in order of distance, over at most two levels.
  ghost predicate Levels(distance: map<string, nat>, que: seq<string>) {
    && (forall i | 0 <= i < |que| :: Queued(distance, que[i]))
    && (forall i, j | 0 <= i <= j < |que| :: distance[que[i]] <= distance[que[j]] <= distance[que[i]] + 1)
  }

  // A node off the queue has relaxed its edges and is no farther than the front.
  ghost predicate Settled(edges: map<string, set<string>>, distance: map<string, nat>, que: seq<string>)
  {
    forall x | x in distance && distance[x] < INFINITE && x !in que ::
      Relaxed(edges, distance, x) && (que != [] ==> que[0] in distance && distance[x] <= distance[que[0]])
  }

  ghost predicate Relaxed(edges: map<string, set<string>>, distance: map<string, nat>, x: string)
    requires x in distance
  {
    x in edges ==> forall y | y in edges[x] :: y in distance && distance[y] <= distance[x] + 1
  }

  function Finite(distance: map<string, nat>): set<string> {
    set x | x in distance && distance[x] < INFINITE
  }

  // Distances stay below the number of nodes that have one, so they never reach INFINITE.
  ghost predicate Bounded(distance: map<string, nat>) {
    |distance| < INFINITE && forall y | y in distance && distance[y] < INFINITE :: distance[y] < |Finite(distance)|
  }

  // How many nodes have no distance yet.
  // No shortest walk is longer than there are nodes to visit.
  ghost predicate FewerThanNodes(distance: map<string, nat>) {
    forall y | y in distance && distance[y] < INFINITE :: distance[y] < |distance.Keys|
  }

  lemma BoundedByNodes(distance: map<string, nat>)
    requires Bounded(distance)
    ensures FewerThanNodes(distance)
  {
    SubsetSize(Finite(distance), distance.Keys);
  }

  ghost function Unreached(distance: map<string, nat>): nat { |distance.Keys - Finite(distance)| }

  lemma FiniteSize(distance: map<string, nat>)
    ensures |Finite(distance)| <= |distance|
  {
    assert Finite(distance) <= distance.Keys;
    SubsetSize(Finite(distance), distance.Keys);
  }

  lemma WalkExtend(edges: map<string, set<string>>, target: string, x: string, y: string, p: seq<string>)
    requires WalkTo(edges, target, x, p) && x in edges && y in edges[x]
    ensures WalkTo(edges, target, y, p + [y])
  {
    var q := p + [y];
    forall i | 0 <= i < |q| - 1
      ensures q[i] in edges && q[i + 1] in edges[q[i]]
    {
      if i < |p| - 1 {
        assert q[i] == p[i] && q[i + 1] == p[i + 1];
      }
    }
  }

  lemma PushLevels(distance: map<string, nat>, q: seq<string>, next: string)
    requires Levels(distance, q) && q != [] && next in distance && distance[next] >= INFINITE
    requires distance[q[0]] + 1 < INFINITE
    ensures Levels(distance[next := distance[q[0]] + 1], q + [next])
  {
    var d := distance[next := distance[q[0]] + 1];
    var q' := q + [next];
    forall i | 0 <= i < |q'|
      ensures Queued(d, q'[i]) && d[q[0]] <= d[q'[i]] <= d[q[0]] + 1 && (i < |q| ==> d[q'[i]] == distance[q[i]])
    {
      assert Queued(distance, q[0]);
      if i < |q| {
        assert Queued(distance, q[i]) && distance[q[0]] <= distance[q[i]] <= distance[q[0]] + 1;
      }
    }
    forall i, j | 0 <= i <= j < |q'|
      ensures d[q'[i]] <= d[q'[j]] <= d[q'[i]] + 1
    {
      if j < |q| {
        assert distance[q[i]] <= distance[q[j]] <= distance[q[i]] + 1;
      }
    }
  }

  lemma PushSettled(edges: map<string, set<string>>, distance: map<string, nat>, q: seq<string>, next: string)
    requires Settled(edges, distance, q) && Bounded(distance) && q != [] && Queued(distance, q[0])
    requires next in distance && distance[next] >= INFINITE && distance[q[0]] + 1 < INFINITE
    ensures Settled(edges, distance[next := distance[q[0]] + 1], q + [next])
  {
    var d := distance[next := distance[q[0]] + 1];
    var q' := q + [next];
    FiniteSize(distance);
    forall x | x in d && d[x] < INFINITE && x !in q'
      ensures Relaxed(edges, d, x) && q'[0] in d && d[x] <= d[q'[0]]
    {
      assert q'[0] == q[0] && next in q' && q'[|q|] == next;
      assert x !in q;
      assert Relaxed(edges, distance, x);
    }
  }

  lemma PushBounded(distance: map<string, nat>, next: string, d: nat)
    requires Bounded(distance) && next in distance && distance[next] >= INFINITE && d <= |Finite(distance)|
    ensures Bounded(distance[next := d]) && Finite(distance[next := d]) == Finite(distance) + {next}
    ensures next !in Finite(distance)
  {
    var more := distance[next := d];
    FiniteSize(distance);
    assert Finite(more) == Finite(distance) + {next};
    assert more.Keys == distance.Keys && |more.Keys| == |distance.Keys|;
  }

  lemma PushWalked(edges: map<string, set<string>>, target: string, distance: map<string, nat>, x: string, y: string)
    requires Walked(edges, target, distance) && Queued(distance, x) && x in edges && y in edges[x]
    ensures Walked(edges, target, distance[y := distance[x] + 1])
  {
    assert WalkOf(edges, target, x, distance[x]);
    var p :| WalkTo(edges, target, x, p) && |p| == distance[x] + 1;
    WalkExtend(edges, target, x, y, p);
  }

  // current stays at the front, as if still queued, until its edges are relaxed.
  lemma RelaxPush(edges: map<string, set<string>>, target: string, distance: map<string, nat>, current: string,
                  que: seq<string>, next: string)
    requires Relaxing(edges, target, distance, [current] + que) && Bounded(distance)
    requires current in edges && next in edges[current] && next in distance && distance[next] >= INFINITE
    requires current in distance && distance[current] + 1 < INFINITE
    ensures var d := distance[next := distance[current] + 1];
            && Relaxing(edges, target, d, [current] + (que + [next])) && Bounded(d)
            && Finite(d) == Finite(distance) + {next} && next !in Finite(distance)
  {
    hide Levels, Settled, Walked, Finite, Relaxed;
    var q := [current] + que;
    assert [current] + (que + [next]) == q + [next];
    assert Queued(distance, q[0]);
    PushLevels(distance, q, next);
    PushSettled(edges, distance, q, next);
    PushWalked(edges, target, distance, current, next);
    InFinite(distance, current);
    PushBounded(distance, next, distance[current] + 1);
  }

  lemma InFinite(distance: map<string, nat>, x: string)
    requires Bounded(distance) && Queued(distance, x)
    ensures distance[x] < |Finite(distance)|
  {
  }

  lemma RelaxPop(edges: map<string, set<string>>, target: string, distance: map<string, nat>, current: string,
                 que: seq<string>)
    requires Relaxing(edges, target, distance, [current] + que) && current in distance
    requires Relaxed(edges, distance, current)
    ensures Relaxing(edges, target, distance, que)
  {
    hide WalkTo, Relaxed, Walked, EdgesKnown;
    var q := [current] + que;
    forall i | 0 <= i < |que|
      ensures Queued(distance, que[i])
    {
      assert Queued(distance, q[i + 1]);
    }
    forall i, j | 0 <= i <= j < |que|
      ensures distance[que[i]] <= distance[que[j]] <= distance[que[i]] + 1
    {
      assert distance[q[i + 1]] <= distance[q[j + 1]] <= distance[q[i + 1]] + 1;
    }
    forall x | x in distance && distance[x] < INFINITE && x !in que
      ensures Relaxed(edges, distance, x) && (que != [] ==> que[0] in distance && distance[x] <= distance[que[0]])
    {
      if que != [] {
        assert Queued(distance, q[1]);
        assert distance[q[0]] <= distance[q[1]];
      }
      if x != current {
        assert x !in q;
      }
    }
  }

  // Nodes within reach of the front's edges are at most one step farther.
  lemma KnownIsClose(edges: map<string, set<string>>, target: string, distance: map<string, nat>, current: string,
                     que: seq<string>, next: string)
    requires Relaxing(edges, target, distance, [current] + que) && next in distance && distance[next] < INFINITE
    requires current in distance
    ensures distance[next] <= distance[current] + 1
  {
    hide WalkTo, Relaxed, Walked, EdgesKnown;
    var q := [current] + que;
    if next in q {
      var j :| 0 <= j < |q| && q[j] == next;
      assert distance[q[0]] <= distance[q[j]] <= distance[q[0]] + 1;
    } else {
      assert distance[next] <= distance[q[0]];
    }
  }

  lemma {:induction false} WalkBound(edges: map<string, set<string>>, target: string, distance: map<string, nat>,
                                     x: string, p: seq<string>)
    requires Relaxing(edges, target, distance, []) && Bounded(distance) && WalkTo(edges, target, x, p)
    ensures x in distance && distance[x] < INFINITE && distance[x] < |p|
    decreases |p|
  {
    if |p| > 1 {
      var q := p[..|p| - 1];
      var y := q[|q| - 1];
      forall i | 0 <= i < |q| - 1
        ensures q[i] in edges && q[i + 1] in edges[q[i]]
      {
        assert p[i] in edges && p[i + 1] in edges[p[i]];
      }
      WalkBound(edges, target, distance, y, q);
      assert p[|p| - 2] in edges && p[|p| - 2 + 1] in edges[p[|p| - 2]];
      assert Relaxed(edges, distance, y);
      FiniteSize(distance);
    }
  }

  // What calc_distance leaves for a node.
  ghost predicate DistanceRight(edges: map<string, set<string>>, target: string, distance: map<string, nat>,
                                x: string) {
    if Reachable(edges, target, x) then x in distance && distance[x] < INFINITE &&
      Shortest(edges, target, x, distance[x])
    else x in distance ==> distance[x] == INFINITE
  }

  lemma RelaxedIsRight(edges: map<string, set<string>>, target: string, distance: map<string, nat>, x: string)
    requires Relaxing(edges, target, distance, []) && Bounded(distance) && (x in distance ==> distance[x] <= INFINITE)
    ensures DistanceRight(edges, target, distance, x)
  {
    forall p | WalkTo(edges, target, x, p)
      ensures x in distance && distance[x] < INFINITE && distance[x] < |p|
    {
      WalkBound(edges, target, distance, x, p);
    }
    hide WalkTo, Relaxed;
  }

  // Names that can become nodes.
  ghost function AllNames(net: Netlist, name: Naming): set<string> {
    (set c, b | c in net.cells && c.Out().Some? && b in net.Canon(c.Out().value) :: name([b])) +
    (set t | t in Outputs(net) :: name(t))
  }

  lemma ConnectedNames(net: Netlist, name: Naming, x: string, y: string)
    requires Connected(net, name, x, y)
    ensures x in AllNames(net, name) && y in AllNames(net, name)
  {
    hide Outputs, Followed, Feeds, Netlist.Canon;
    var c, b :| c in net.cells && Starts(c) && b in net.Canon(c.Out().value) && name([b]) == x &&
      Adjacent(net, name, [b], y);
    var s :| Reached(FeedSteps(net), Owned(name, name([b])), [b], s) && name(s) != name([b]) && name(s) == y;
    var p :| Inside(FeedSteps(net), Owned(name, name([b])), [b], p, s);
    assert (p[|p| - 2], p[|p| - 2 + 1]) in FeedSteps(net);
    FeedsOutputs(net, p[|p| - 2], p[|p| - 1]);
  }

  ghost predicate HasEdge(edges: map<string, set<string>>, x: string, y: string) {
    x in edges && y in edges[x]
  }

  class InstanceConnectivityGraph {
    var nodes: set<string>
    var edges: map<string, set<string>>
    var distance: map<string, nat>

    ghost predicate EdgesJoinNodes()
      reads this`nodes, this`edges
    {
      && (forall x | x in edges :: x in nodes && edges[x] != {} && edges[x] <= nodes)
      && (forall x | x in nodes :: x in edges || exists y :: HasEdge(edges, y, x))
    }

    // The edges are exactly the connections of the netlist, and every distance is shortest.
    ghost predicate Valid(net: Netlist, name: Naming, target: string)
      reads this
    {
      && EdgesJoinNodes()
      && (forall x, y :: HasEdge(edges, x, y) <==> Connected(net, name, x, y))
      && distance.Keys == nodes + {target}
      && (forall x :: DistanceRight(edges, target, distance, x))
      && FewerThanNodes(distance)
    }

    constructor (net: Netlist, name: Naming, target: string)
      requires net.Valid() && HasOutputs(net) && |AllNames(net, name)| < INFINITE - 1
      ensures Valid(net, name, target)
    {
      hide Connected, AllNames, DistanceRight, FewerThanNodes, Netlist.Valid, HasOutputs, EdgesJoinNodes;
      nodes, edges, distance := {}, map[], map[];
      new;
      Construct(net, name);
      NodesBound(net, name);
      CalcDistance(target);
    }

    lemma NodesBound(net: Netlist, name: Naming)
      requires EdgesJoinNodes() && forall x, y :: HasEdge(edges, x, y) <==> Connected(net, name, x, y)
      ensures |nodes| <= |AllNames(net, name)|
    {
      hide Connected, AllNames;
      forall x | x in nodes
        ensures x in AllNames(net, name)
      {
        if x in edges {
          var y :| y in edges[x];
          assert HasEdge(edges, x, y);
          ConnectedNames(net, name, x, y);
        } else {
          var y :| HasEdge(edges, y, x);
          ConnectedNames(net, name, y, x);
        }
      }
      SubsetSize(nodes, AllNames(net, name));
    }

    method Add(x: string, y: string)
      requires EdgesJoinNodes()
      modifies this`nodes, this`edges
      ensures EdgesJoinNodes()
      ensures forall u, v :: HasEdge(edges, u, v) <==> HasEdge(old(edges), u, v) || (u == x && v == y)
    {
      nodes := nodes + {x};
      nodes := nodes + {y};
      if x !in edges {
        edges := edges[x := {}];
      }
      edges := edges[x := edges[x] + {y}];
      assert HasEdge(edges, x, y);
      forall u, v
        ensures HasEdge(edges, u, v) <==> HasEdge(old(edges), u, v) || (u == x && v == y)
      {
      }
      forall u | u in nodes
        ensures u in edges || exists v :: HasEdge(edges, v, u)
      {
        if u in old(nodes) && u !in old(edges) {
          var v :| HasEdge(old(edges), v, u);
          assert HasEdge(edges, v, u);
        }
      }
    }

    method Construct(net: Netlist, name: Naming)
      requires net.Valid() && HasOutputs(net) && nodes == {} && edges == map[]
      modifies this`nodes, this`edges
      ensures EdgesJoinNodes()
      ensures forall x, y :: HasEdge(edges, x, y) <==> Connected(net, name, x, y)
    {
      hide Adjacent, Netlist.Valid, Netlist.Canon, Followed;
      var cells := net.cells;
      while cells != {}
        invariant cells <= net.cells && EdgesJoinNodes()
        invariant forall x, y :: HasEdge(edges, x, y) <==>
          exists c, b | c in net.cells - cells && Starts(c) && b in net.Canon(c.Out().value) ::
            name([b]) == x && Adjacent(net, name, [b], y)
        decreases |cells|
      {
        var cell :| cell in cells;
        cells := cells - {cell};
        if cell.kind.Known() && Followed(cell) {
          assert cell.Out().Some?;
          assert Starts(cell);
          ghost var was := edges;
          CanonTwice(net, cell.Out().value);
          AddCell(net, name, net.Canon(cell.Out().value));
        }
      }
    }

    // All connections that start at one cell's output.
    method AddCell(net: Netlist, name: Naming, startSig: Sig)
      requires net.Valid() && HasOutputs(net) && EdgesJoinNodes() && net.Canon(startSig) == startSig
      modifies this`nodes, this`edges
      ensures EdgesJoinNodes()
      ensures forall x, y :: HasEdge(edges, x, y) <==>
        HasEdge(old(edges), x, y) || exists b | b in startSig :: name([b]) == x && Adjacent(net, name, [b], y)
    {
      hide Adjacent, Netlist.Valid, HasOutputs, EdgesJoinNodes;
      for i := 0 to |startSig|
        invariant EdgesJoinNodes()
        invariant forall x, y :: HasEdge(edges, x, y) <==>
          HasEdge(old(edges), x, y) || exists b | b in startSig[..i] :: name([b]) == x && Adjacent(net, name, [b], y)
      {
        var bit := startSig[i];
        assert net.Canon([bit]) == [bit] by { assert net.Canon(startSig)[i] == net.Rep(bit); }
        var names := AnalyzeAdjacentInstanceNames(net, name, [bit]);
        ghost var all := names;
        ghost var was := edges;
        while names != {}
          invariant names <= all && EdgesJoinNodes()
          invariant forall x, y :: HasEdge(edges, x, y) <==>
            HasEdge(was, x, y) || (x == name([bit]) && y in all - names)
          decreases |names|
        {
          var adjacent :| adjacent in names;
          names := names - {adjacent};
          Add(name([bit]), adjacent);
        }
        assert startSig[..i + 1] == startSig[..i] + [bit];
      }
      assert startSig[..|startSig|] == startSig;
    }

    method CalcDistance(target: string)
      requires EdgesJoinNodes() && |nodes| < INFINITE - 1
      modifies this`distance
      ensures distance.Keys == nodes + {target}
      ensures forall x :: DistanceRight(edges, target, distance, x)
      ensures FewerThanNodes(distance)
    {
      hide WalkTo, EdgesJoinNodes, Relaxing, Bounded, Finite, Unreached, DistanceRight, FewerThanNodes;
      distance := map node | node in nodes :: INFINITE;
      distance := distance[target := 0];
      var que := [target];
      Start(target);
      while que != []
        invariant distance.Keys == nodes + {target}
        invariant Relaxing(edges, target, distance, que) && Bounded(distance)
        invariant forall x | x in distance :: distance[x] <= INFINITE
        decreases Unreached(distance), |que|
      {
        var current := que[0];
        assert que == [current] + que[1..];
        que := que[1..];
        CurrentKnown(target, current, que);
        if current in edges {
          que := Relax(target, current, que);
        }
        RelaxPop(edges, target, distance, current, que);
      }
      BoundedByNodes(distance);
      forall x
        ensures DistanceRight(edges, target, distance, x)
      {
        RelaxedIsRight(edges, target, distance, x);
      }
    }

    lemma Start(target: string)
      requires EdgesJoinNodes() && |nodes| < INFINITE - 1
      requires distance == (map node | node in nodes :: INFINITE)[target := 0]
      ensures Relaxing(edges, target, distance, [target]) && Bounded(distance)
    {
      assert WalkTo(edges, target, target, [target]);
      assert Finite(distance) == {target};
      assert distance.Keys == nodes + {target};
      assert |distance.Keys| <= |nodes| + 1;
    }

    // Give every node that current feeds, and that has no distance yet, the next distance.
    method Relax(target: string, current: string, que0: seq<string>) returns (que: seq<string>)
      requires Relaxing(edges, target, distance, [current] + que0) && Bounded(distance) && current in edges
      requires forall x | x in distance :: distance[x] <= INFINITE
      modifies this`distance
      ensures Relaxing(edges, target, distance, [current] + que) && Bounded(distance)
      ensures current in distance && Relaxed(edges, distance, current)
      ensures distance.Keys == old(distance.Keys) && forall x | x in distance :: distance[x] <= INFINITE
      ensures Unreached(distance) < Unreached(old(distance)) || (distance == old(distance) && que == que0)
    {
      hide Relaxing, Bounded, Finite, Unreached;
      que := que0;
      var nexts := edges[current];
      CurrentKnown(target, current, que);
      while nexts != {}
        invariant nexts <= edges[current]
        invariant Relaxing(edges, target, distance, [current] + que) && Bounded(distance)
        invariant distance.Keys == old(distance.Keys) && forall x | x in distance :: distance[x] <= INFINITE
        invariant current in distance && distance[current] < INFINITE
        invariant forall y | y in edges[current] - nexts :: y in distance && distance[y] <= distance[current] + 1
        invariant Unreached(distance) < Unreached(old(distance)) || (distance == old(distance) && que == que0)
        decreases |nexts|
      {
        var next :| next in nexts;
        nexts := nexts - {next};
        CurrentKnown(target, current, que);
        // The sum is taken in 64 bits.
        var step := (distance[current] + 1) % (INFINITE + 1);
        if step < distance[next] {
          if distance[next] < INFINITE {
            KnownIsClose(edges, target, distance, current, que, next);
          }
          assert distance[next] == INFINITE;
          RelaxPush(edges, target, distance, current, que, next);
          MoreFinite(distance, next, step);
          distance := distance[next := step];
          que := que + [next];
        }
      }
    }

    lemma CurrentKnown(target: string, current: string, que: seq<string>)
      requires Relaxing(edges, target, distance, [current] + que) && Bounded(distance)
      ensures current in distance && distance[current] + 1 < INFINITE
      ensures current in edges ==> forall y | y in edges[current] :: y in distance
    {
      assert current in [current] + que;
      FiniteSize(distance);
    }

    lemma MoreFinite(distance: map<string, nat>, next: string, d: nat)
      requires next in distance && distance[next] >= INFINITE && d < INFINITE
      ensures Unreached(distance[next := d]) < Unreached(distance)
    {
      var more := distance[next := d];
      assert more.Keys == distance.Keys && Finite(more) == Finite(distance) + {next};
      SubsetSize(more.Keys - Finite(more), distance.Keys - Finite(distance) - {next});
    }

    // An unknown or unreachable instance gets the dummy distance; so does one at distance 256.
    method GetDistance(x: string, ghost net: Netlist, ghost name: Naming, ghost target: string) returns (d: nat)
      requires Valid(net, name, target)
      ensures Reachable(edges, target, x) ==> Shortest(edges, target, x, d)
      ensures !Reachable(edges, target, x) ==> d == DUMMY_DISTANCE
      // With at most 256 nodes an unreachable instance is farther than every reachable one.
      ensures |nodes + {target}| <= 256 ==> if Reachable(edges, target, x) then d < 256 else d == 256
    {
      hide Reachable, Shortest, Connected;
      assert DistanceRight(edges, target, distance, x);
      if x !in distance {
        return DUMMY_DISTANCE;
      }
      var dist := distance[x];
      if dist == INFINITE {
        return DUMMY_DISTANCE;
      }
      return dist;
    }
  }

  // The dummy distance cannot be told from a true distance of 256, and only from that.
  lemma DummyIsAmbiguous(edges: map<string, set<string>>, target: string, x: string, d: nat)
    requires if Reachable(edges, target, x) then Shortest(edges, target, x, d) else d == DUMMY_DISTANCE
    ensures d == DUMMY_DISTANCE <==> !Reachable(edges, target, x) || Shortest(edges, target, x, DUMMY_DISTANCE)
  {
    hide WalkTo;
    if Shortest(edges, target, x, DUMMY_DISTANCE) {
      var p :| WalkTo(edges, target, x, p) && |p| == DUMMY_DISTANCE + 1;
      var q :| WalkTo(edges, target, x, q) && |q| == d + 1;
    }
  }
}

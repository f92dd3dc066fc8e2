// What the depth limit leaves of the backward search: it collects from paths shorter than the limit
// only and, when nothing else stops it, follows every such path to its end.
module SearchDepth {
  import opened Basics
  import opened Netlist
  import opened Dataflow
  import opened Circuit
  import opened DependentSearch

  // A path shorter than the limit leads to a signal of at most 32 bits that a flip-flop drives.
  ghost predicate Collectable(net: Netlist, start: Sig, maxDepth: nat, s: Sig) {
    |s| <= 32 && exists p: Path, c: Cell ::
      p.In(net, start) && p.sig == s && p.Steps() < maxDepth && c in net.cells && c.kind.IsFF() && Drives(c, s)
  }

  ghost predicate CollectedAbove(net: Netlist, start: Sig, maxDepth: nat, collected: set<Bit>) {
    forall b | b in collected :: exists s :: Collectable(net, start, maxDepth, s) && b in Bits(s)
  }

  lemma RecordsAbove(net: Netlist, start: Sig, left: seq<State>, q: seq<State>, rs: seq<Record>, maxDepth: nat)
    requires RecordsTrue(net, start, rs) && WithinDepth(left, q, rs, maxDepth)
    ensures CollectedAbove(net, start, maxDepth, RecordedBits(rs))
  {
    hide Drives, Path.In;
    forall b | b in RecordedBits(rs)
      ensures exists s :: Collectable(net, start, maxDepth, s) && b in Bits(s)
    {
      var r := RecordOfBit(rs, b);
      assert RecordTrue(net, start, r);
      assert Collectable(net, start, maxDepth, r.sig);
    }
  }

  // At some step of the path the whole chunk had been visited, so its slice was passed over.
  ghost predicate PassedOver(net: Netlist, p: Path, visited: set<Sig>) {
    p.Back? && (PassedOver(net, p.prev, visited) || StepPassedOver(net, p, visited))
  }

  ghost predicate StepPassedOver(net: Netlist, p: Path, visited: set<Sig>) {
    p.Back? && exists chunk | chunk in Chunks(net.In(p.cell, p.port)) ::
      ReachesFrom(p.cell, p.port, p.prev.sig, chunk, p.sig) && chunk in visited && p.sig != chunk
  }

  // The signal left the queue after no more steps than the path has.
  ghost predicate Left(left: seq<State>, p: Path) {
    exists st | st in left :: st.sig == p.sig && st.depth <= p.Steps()
  }

  lemma StepIsCovered(net: Netlist, p: Path, start: Sig, near: set<Sig>, visited: set<Sig>, collected: set<Bit>)
    requires p.Back? && p.In(net, start) && Covered(net, p.prev.sig, near, collected) && near <= visited
    requires !StepPassedOver(net, p, visited)
    ensures p.sig in near
  {
    hide Drives, DataflowLevel, ExtractOffset, Chunks, IsConst, Path.In;
    assert StepsTo(net, p.cell, p.port, p.prev.sig, p.sig) by { LastStep(net, p, start); }
    var chunk :| chunk in Chunks(net.In(p.cell, p.port)) && ReachesFrom(p.cell, p.port, p.prev.sig, chunk, p.sig);
    assert CellCovered(net, p.cell, p.prev.sig, near, collected);
    LevelInput(p.cell, p.port);
    assert PortCovered(net, p.cell, p.port, p.prev.sig, near);
    assert ChunkCovered(p.cell, p.port, p.prev.sig, chunk, near);
    if chunk in near {
      assert p.sig == chunk;
    }
  }

  lemma LastStep(net: Netlist, p: Path, start: Sig)
    requires p.Back? && p.In(net, start)
    ensures StepsTo(net, p.cell, p.port, p.prev.sig, p.sig) && p.prev.In(net, start)
  {
  }

  lemma LevelInput(c: Cell, p: Port)
    ensures DataflowLevel(c, p).Some? ==> p in c.conns && c.kind.Input(p) && !c.kind.Output(p)
  {
  }

  // By induction along the path: a path within the limit is followed to its end unless passed over.
  lemma {:induction false} PathFollowed(net: Netlist, start: Sig, left: seq<State>, visited: set<Sig>,
                                        collected: set<Bit>, maxDepth: nat, p: Path)
    requires Spread(net, start, left, [], visited, collected, maxDepth)
    requires p.In(net, start) && p.Steps() <= maxDepth && !PassedOver(net, p, visited)
    ensures Left(left, p)
  {
    hide Covered, StepPassedOver, StepsTo;
    var states := AllStates(left, []);
    if p.Back? {
      LastStep(net, p, start);
      PathFollowed(net, start, left, visited, collected, maxDepth, p.prev);
      var st :| st in left && st.sig == p.prev.sig && st.depth <= p.prev.Steps();
      StepIsCovered(net, p, start, SigsWithin(states, st.depth + 1) * visited, visited, collected);
      var next :| next in states && next.depth <= st.depth + 1 && next.sig == p.sig;
      assert next in left;
    } else {
      var st :| st in states && st.depth <= 0 && st.sig == start;
      assert st in left;
    }
  }

  // A search that only the limit cuts short has gone as far as the limit allows: it has expanded the
  // end of every shorter path that was not passed over, and collected it if a flip-flop drives it.
  ghost predicate FollowedTo(net: Netlist, start: Sig, left: seq<State>, visited: set<Sig>, collected: set<Bit>,
                             maxDepth: nat) {
    forall p: Path | p.In(net, start) && p.Steps() < maxDepth && !PassedOver(net, p, visited) ::
      Left(left, p) && Covered(net, p.sig, visited, collected)
  }

  lemma PathsFollowed(net: Netlist, start: Sig, left: seq<State>, visited: set<Sig>, collected: set<Bit>,
                      maxDepth: nat)
    requires Spread(net, start, left, [], visited, collected, maxDepth)
    ensures FollowedTo(net, start, left, visited, collected, maxDepth)
  {
    hide Covered, PassedOver, Path.In;
    forall p: Path | p.In(net, start) && p.Steps() < maxDepth && !PassedOver(net, p, visited)
      ensures Left(left, p) && Covered(net, p.sig, visited, collected)
    {
      PathFollowed(net, start, left, visited, collected, maxDepth, p);
      var st :| st in left && st.sig == p.sig && st.depth <= p.Steps();
      var near := SigsWithin(AllStates(left, []), st.depth + 1) * visited;
      CoveredMono(net, p.sig, near, visited, collected, collected);
    }
  }

  // So where no path is passed over, the collected bits are exactly those of the flip-flop signals of
  // at most 32 bits on the paths shorter than the limit.
  lemma CollectedExactly(net: Netlist, start: Sig, left: seq<State>, visited: set<Sig>, collected: set<Bit>,
                         maxDepth: nat)
    requires CollectedAbove(net, start, maxDepth, collected)
    requires FollowedTo(net, start, left, visited, collected, maxDepth)
    requires forall p: Path | p.In(net, start) && p.Steps() < maxDepth :: !PassedOver(net, p, visited)
    ensures forall b :: b in collected <==> exists s :: Collectable(net, start, maxDepth, s) && b in Bits(s)
  {
    hide PassedOver, Path.In, Drives, PortCovered;
    forall s | Collectable(net, start, maxDepth, s)
      ensures Bits(s) <= collected
    {
      var p: Path, c: Cell :|
        p.In(net, start) && p.sig == s && p.Steps() < maxDepth && c in net.cells && c.kind.IsFF() && Drives(c, s);
      assert Covered(net, p.sig, visited, collected);
      assert CellCovered(net, c, s, visited, collected);
    }
  }
}

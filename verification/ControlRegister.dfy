// The DifuzzRTL pass: which registers steer a multiplexer.
module ControlRegister {
  import opened Basics
  import opened Netlist
  import opened ForwardSearch

  // extract_modname_from_sig, which parses a signal's name: any function here.
  type Naming = Sig -> string

  // The reader selects a multiplexer through the port the signal enters.
  predicate Selects(r: (Cell, Port)) { Followed(r.0) && r.0.kind.IsMux() && r.1 == S }

  predicate FeedsRegister(r: (Cell, Port)) { Followed(r.0) && !Selects(r) && r.0.kind.IsFF() }

  predicate PassesThrough(r: (Cell, Port)) { Followed(r.0) && !Selects(r) && !r.0.kind.IsFF() }

  // The search asks such a reader for an output it does not have.
  predicate Breaks(r: (Cell, Port)) { PassesThrough(r) && r.0.Out().None? }

  ghost function PassSteps(net: Netlist): Steps { StepsThrough(net, PassesThrough) }

  // Signals of the start's module, or of none.
  ghost function SameModule(name: Naming, start: Sig): iset<Sig> {
    iset s: Sig | name(s) == "" || name(s) == name(start)
  }

  // How the search comes to an end at a reader.
  datatype Verdict = Select | Register | Failed | Continue

  predicate Gives(r: (Cell, Port), v: Verdict) {
    match v
    case Select => Selects(r)
    case Register => FeedsRegister(r)
    case Failed => Breaks(r)
    case Continue => false
  }

  // Some path of n steps through combinational cells, over signals of the start's module or of none,
  // ends at a reader of this verdict.
  ghost predicate EndsAt(net: Netlist, name: Naming, start: Sig, n: nat, v: Verdict) {
    exists s, r ::
      StepsAway(PassSteps(net), SameModule(name, start), start, s, n) && ReadsAt(net, name, start, s, r) && Gives(r, v)
  }

  ghost predicate ReadsAt(net: Netlist, name: Naming, start: Sig, s: Sig, r: (Cell, Port)) {
    s in SameModule(name, start) && r in net.Readers(s)
  }

  // No path of fewer than n steps ends the search.
  ghost predicate QuietBefore(net: Netlist, name: Naming, start: Sig, n: nat) {
    forall m: nat, v | m < n :: !EndsAt(net, name, start, m, v)
  }

  // The verdict is one of the nearest: no path that ends the search is shorter.
  ghost predicate Nearest(net: Netlist, name: Naming, start: Sig, v: Verdict) {
    exists n :: NearestAt(net, name, start, v, n)
  }

  ghost predicate NearestAt(net: Netlist, name: Naming, start: Sig, v: Verdict, n: nat) {
    EndsAt(net, name, start, n, v) && QuietBefore(net, name, start, n)
  }

  // None stands for the exception of a reader without output.
  ghost predicate Allowed(net: Netlist, name: Naming, start: Sig, r: Option<bool>) {
    match r
    case Some(true) => Nearest(net, name, start, Select)
    case Some(false) => Nearest(net, name, start, Register) || forall n: nat :: QuietBefore(net, name, start, n)
    case None => Nearest(net, name, start, Failed)
  }

  function Result(v: Verdict): Option<bool> {
    match v case Select => Some(true) case Failed => None case _ => Some(false)
  }

  lemma NearestAllows(net: Netlist, name: Naming, start: Sig, v: Verdict)
    requires Nearest(net, name, start, v) && v != Continue
    ensures Allowed(net, name, start, Result(v))
  {
    hide Nearest;
  }

  // Some path ends at a multiplexer's select, or at an input of a flip-flop, and so on.
  ghost predicate Meets(net: Netlist, name: Naming, start: Sig, v: Verdict) {
    exists n :: EndsAt(net, name, start, n, v)
  }

  // A register steers a multiplexer if the search says so; if it says no, the register steers none or
  // meets a flip-flop first or as near.
  lemma VerdictMeaning(net: Netlist, name: Naming, start: Sig, r: Option<bool>)
    requires Allowed(net, name, start, r)
    ensures r == Some(true) ==> Meets(net, name, start, Select)
    ensures r == Some(false) ==> Meets(net, name, start, Register) || !Meets(net, name, start, Select)
    ensures r == None ==> Meets(net, name, start, Failed)
    ensures !Meets(net, name, start, Register) && !Meets(net, name, start, Failed)
            ==> r == Some(Meets(net, name, start, Select))
  {
    hide EndsAt;
    if r.Some? && !r.value && Meets(net, name, start, Select) {
      var n: nat :| EndsAt(net, name, start, n, Select);
      assert !QuietBefore(net, name, start, n + 1);
    }
  }

  // If all the nearest ends are of one kind, they decide the verdict.
  lemma NearestDecides(net: Netlist, name: Naming, start: Sig, r: Option<bool>, n: nat, v: Verdict)
    requires Allowed(net, name, start, r) && NearestAt(net, name, start, v, n)
    requires forall w | w != v :: !EndsAt(net, name, start, n, w)
    ensures r == Result(v)
  {
    hide EndsAt;
    assert !QuietBefore(net, name, start, n + 1);
    forall w, m | NearestAt(net, name, start, w, m)
      ensures w == v
    {
      SameLevel(net, name, start, v, n, w, m);
    }
    assert v != Continue by { ContinueEndsNowhere(net, name, start, n); }
  }

  lemma SameLevel(net: Netlist, name: Naming, start: Sig, v: Verdict, n: nat, w: Verdict, m: nat)
    requires NearestAt(net, name, start, v, n) && NearestAt(net, name, start, w, m)
    ensures m == n
  {
    hide EndsAt;
  }

  lemma ContinueEndsNowhere(net: Netlist, name: Naming, start: Sig, n: nat)
    ensures !EndsAt(net, name, start, n, Continue)
  {
  }

  // What one reader says: a multiplexer's select and a flip-flop end the search, and so does a reader
  // without output.
  function Judge(r: (Cell, Port)): (v: Verdict)
    ensures v != Continue ==> Gives(r, v)
    ensures v == Continue ==> (forall w :: !Gives(r, w)) && (Followed(r.0) ==> PassesThrough(r) && r.0.Out().Some?)
    ensures v == Continue && !Followed(r.0) ==> !PassesThrough(r)
  {
    if !Followed(r.0) then Continue
    else if r.0.kind.IsMux() && r.1 == S then Select
    else if r.0.kind.IsFF() then Register
    else if r.0.Out().None? then Failed
    else Continue
  }

  // ---- The search for a given order of readers ----

  // The order of a set of cells and ports, which are kept by address: any one that puts some member
  // first.
  type Order = set<(Cell, Port)> -> (Cell, Port)

  ghost predicate Picks(first: Order) { forall s: set<(Cell, Port)> | s != {} :: first(s) in s }

  // The readers in turn, up to one that ends the search.
  ghost function Read(net: Netlist, first: Order, ports: set<(Cell, Port)>, visited: set<Sig>, queue: seq<Sig>)
    : (Verdict, set<Sig>, seq<Sig>)
    requires Picks(first)
    decreases |ports|
  {
    if ports == {} then (Continue, visited, queue)
    else
      var r := first(ports);
      var (v, q) := if Followed(r.0) && Judge(r) == Continue then
                      PushAll(Chunks(net.Canon(r.0.Out().value)), visited, queue)
                    else (visited, queue);
      if Judge(r) != Continue then (Judge(r), visited, queue) else Read(net, first, ports - {r}, v, q)
  }

  // The answer of a search that is at this queue, unless it takes more rounds than there is fuel.
  ghost function Search(net: Netlist, name: Naming, first: Order, start: Sig, fuel: nat, visited: set<Sig>,
                        queue: seq<Sig>): Option<Option<bool>>
    requires Picks(first)
  {
    if fuel == 0 then None
    else if queue == [] then Some(Some(false))
    else
      var s := net.Canon(queue[0]);
      var (verdict, v, q) := if name(s) == "" || name(s) == name(start) then
                               Read(net, first, net.Readers(s), visited, queue[1..])
                             else (Continue, visited, queue[1..]);
      if verdict != Continue then Some(Result(verdict)) else Search(net, name, first, start, fuel - 1, v, q)
  }

  ghost predicate Finds(net: Netlist, name: Naming, first: Order, start: Sig, r: Option<bool>)
    requires Picks(first)
  {
    exists fuel :: Search(net, name, first, start, fuel, {}, [start]) == Some(r)
  }

  lemma {:induction false} MoreFuel(net: Netlist, name: Naming, first: Order, start: Sig, f: nat, g: nat,
                                    visited: set<Sig>, queue: seq<Sig>)
    requires Picks(first) && f <= g && Search(net, name, first, start, f, visited, queue).Some?
    ensures Search(net, name, first, start, g, visited, queue) == Search(net, name, first, start, f, visited, queue)
  {
    hide Read, Picks, Result;
    if queue != [] {
      var s := net.Canon(queue[0]);
      var (verdict, v, q) := if name(s) == "" || name(s) == name(start) then
                               Read(net, first, net.Readers(s), visited, queue[1..])
                             else (Continue, visited, queue[1..]);
      if verdict == Continue {
        MoreFuel(net, name, first, start, f - 1, g - 1, v, q);
      }
    }
  }

  // A search finds one answer only.
  lemma FindsOne(net: Netlist, name: Naming, first: Order, start: Sig, r: Option<bool>, r': Option<bool>)
    requires Picks(first) && Finds(net, name, first, start, r) && Finds(net, name, first, start, r')
    ensures r == r'
  {
    hide Search, Picks;
    var f :| Search(net, name, first, start, f, {}, [start]) == Some(r);
    var g :| Search(net, name, first, start, g, {}, [start]) == Some(r');
    if f <= g {
      MoreFuel(net, name, first, start, f, g, {}, [start]);
    } else {
      MoreFuel(net, name, first, start, g, f, {}, [start]);
    }
  }

  // The search has come from its start to this queue in k rounds.
  ghost predicate CameTo(net: Netlist, name: Naming, first: Order, start: Sig, k: nat, visited: set<Sig>,
                         queue: seq<Sig>)
    requires Picks(first)
  {
    forall f: nat ::
      Search(net, name, first, start, f, visited, queue) == Search(net, name, first, start, f + k, {}, [start])
  }

  lemma ComesTo(net: Netlist, name: Naming, first: Order, start: Sig, k: nat, visited: set<Sig>, queue: seq<Sig>,
                v: set<Sig>, q: seq<Sig>)
    requires Picks(first) && CameTo(net, name, first, start, k, visited, queue) && queue != []
    requires var s := net.Canon(queue[0]);
             (Continue, v, q) == if name(s) == "" || name(s) == name(start) then
                                   Read(net, first, net.Readers(s), visited, queue[1..])
                                 else (Continue, visited, queue[1..])
    ensures CameTo(net, name, first, start, k + 1, v, q)
  {
    hide Read, Picks, Result;
    forall f: nat
      ensures Search(net, name, first, start, f, v, q) == Search(net, name, first, start, f + (k + 1), {}, [start])
    {
      assert Search(net, name, first, start, f + 1, visited, queue) == Search(net, name, first, start, f, v, q);
      assert f + 1 + k == f + (k + 1);
    }
  }

  lemma EndsWith(net: Netlist, name: Naming, first: Order, start: Sig, k: nat, visited: set<Sig>, queue: seq<Sig>,
                 r: Option<bool>)
    requires Picks(first) && CameTo(net, name, first, start, k, visited, queue)
    requires Search(net, name, first, start, 1, visited, queue) == Some(r)
    ensures Finds(net, name, first, start, r)
  {
    hide Search, Picks;
    assert Search(net, name, first, start, 1 + k, {}, [start]) == Some(r);
  }

  // None of the signal's readers ends the search.
  ghost predicate Quiet(net: Netlist, name: Naming, start: Sig, s: Sig) {
    s in SameModule(name, start) ==> forall r, v | r in net.Readers(s) :: !Gives(r, v)
  }

  // What the search knows at the head of its loop.
  ghost predicate Searching(net: Netlist, name: Naming, start: Sig, visited: set<Sig>, queue: seq<Sig>, done: set<Sig>,
                            levels: seq<nat>, depth: map<Sig, nat>, d: nat) {
    var steps, region := PassSteps(net), SameModule(name, start);
    && Frontier(net, steps, region, start, visited, queue, done) && AllExpanded(steps, region, done, visited)
    && Leveled(steps, region, start, visited, queue, levels, depth, done, d)
    && forall s | s in done :: Quiet(net, name, start, s)
  }

  lemma SearchingStart(net: Netlist, name: Naming, start: Sig)
    ensures Searching(net, name, start, {}, [start], {}, [0], map[start := 0], 0)
  {
    FrontierStart(net, PassSteps(net), SameModule(name, start), start);
    LeveledStart(PassSteps(net), SameModule(name, start), start);
    hide Frontier, AllExpanded, Leveled;
  }

  // is_control_register, for any order of a signal's readers.
  method IsControlRegister(net: Netlist, name: Naming, first: Order, startSig: Sig) returns (r: Option<bool>)
    requires net.Valid() && Picks(first)
    ensures Allowed(net, name, net.Canon(startSig), r) && Finds(net, name, first, net.Canon(startSig), r)
  {
    hide PassSteps, SameModule, Frontier, Searching, Remaining, Allowed, Netlist.Valid, Nearest, Gives, Grown,
         AllFollow, Quiet, Picks, CameTo, Search, Finds, Read;
    var start := net.Canon(startSig);
    CanonTwice(net, startSig);
    var visited: set<Sig> := {};
    var queue := [start];
    ghost var done: set<Sig>, levels, depth, d, k := {}, [0], map[start := 0], 0, 0;
    SearchingStart(net, name, start);
    CameToStart(net, name, first, start);
    while queue != []
      invariant Searching(net, name, start, visited, queue, done, levels, depth, d)
      invariant CameTo(net, name, first, start, k, visited, queue)
      decreases Remaining(net, visited), |queue|
    {
      Front(net, name, start, visited, queue, done, levels, depth, d);
      var curSig := net.Canon(queue[0]);
      ghost var v, q := visited, queue;
      var verdict := Continue;
      queue := queue[1..];
      if name(curSig) == "" || name(curSig) == name(start) {
        verdict, visited, queue := VisitReaders(net, name, first, start, curSig, visited, queue, done + {curSig});
      } else {
        GrownRefl(queue, visited);
        Outside(net, name, start, curSig, visited, queue);
      }
      if verdict != Continue {
        EndsHere(net, name, start, v, q, done, levels, depth, d, verdict);
        NearestAllows(net, name, start, verdict);
        assert Search(net, name, first, start, 1, v, q) == Some(Result(verdict)) by {
          SearchEnds(net, name, first, start, v, q, verdict, visited, queue);
        }
        EndsWith(net, name, first, start, k, v, q, Result(verdict));
        return Result(verdict);
      }
      ComesTo(net, name, first, start, k, v, q, visited, queue);
      k := k + 1;
      RoundShrinks(net, q[1..], v, queue, visited, PassSteps(net), SameModule(name, start), start, done + {curSig});
      levels, depth, d := NextRound(net, name, start, v, q, done, levels, depth, d, visited, queue);
      done := done + {curSig};
    }
    NothingLeft(net, name, start, visited, done, levels, depth, d);
    SearchExhausted(net, name, first, start, visited);
    EndsWith(net, name, first, start, k, visited, [], Some(false));
    return Some(false);
  }

  lemma CameToStart(net: Netlist, name: Naming, first: Order, start: Sig)
    requires Picks(first)
    ensures CameTo(net, name, first, start, 0, {}, [start])
  {
    hide Search;
  }

  lemma SearchEnds(net: Netlist, name: Naming, first: Order, start: Sig, visited: set<Sig>, queue: seq<Sig>,
                   verdict: Verdict, v: set<Sig>, q: seq<Sig>)
    requires Picks(first) && queue != [] && verdict != Continue
    requires var s := net.Canon(queue[0]);
             && (name(s) == "" || name(s) == name(start))
             && (verdict, v, q) == Read(net, first, net.Readers(s), visited, queue[1..])
    ensures Search(net, name, first, start, 1, visited, queue) == Some(Result(verdict))
  {
    hide Read, Picks;
  }

  lemma SearchExhausted(net: Netlist, name: Naming, first: Order, start: Sig, visited: set<Sig>)
    requires Picks(first)
    ensures Search(net, name, first, start, 1, visited, []) == Some(Some(false))
  {
  }

  lemma Front(net: Netlist, name: Naming, start: Sig, visited: set<Sig>, queue: seq<Sig>, done: set<Sig>,
              levels: seq<nat>, depth: map<Sig, nat>, d: nat)
    requires net.Valid() && net.Canon(start) == start && queue != []
    requires Searching(net, name, start, visited, queue, done, levels, depth, d)
    ensures var steps, region := PassSteps(net), SameModule(name, start);
            && Frontier(net, steps, region, start, visited, queue[1..], done + {queue[0]})
            && Reached(steps, region, start, queue[0])
    ensures net.Canon(queue[0]) == queue[0]
    ensures queue[0] in SameModule(name, start) <==> name(queue[0]) == "" || name(queue[0]) == name(start)
  {
    FrontierPop(net, PassSteps(net), SameModule(name, start), start, visited, queue, done);
    hide PassSteps, Frontier, AllExpanded, Leveled, Reached, Netlist.Valid, Quiet;
  }

  // A signal of another module is passed over.
  lemma Outside(net: Netlist, name: Naming, start: Sig, s: Sig, visited: set<Sig>, queue: seq<Sig>)
    requires s !in SameModule(name, start)
    ensures Quiet(net, name, start, s) && Expanded(PassSteps(net), SameModule(name, start), s, visited)
    ensures AllFollow(PassSteps(net), SameModule(name, start), s, queue[|queue|..])
  {
    hide PassSteps;
    assert queue[|queue|..] == [];
  }

  lemma RoundShrinks(net: Netlist, q: seq<Sig>, v: set<Sig>, queue: seq<Sig>, visited: set<Sig>, steps: Steps,
                     region: iset<Sig>, start: Sig, done: set<Sig>)
    requires Grown(q, v, queue, visited) && Frontier(net, steps, region, start, visited, queue, done)
    ensures Remaining(net, visited) < Remaining(net, v) || (visited == v && queue == q)
  {
    GrownFacts(q, v, queue, visited);
    RemainingShrinks(net, steps, region, start, v, visited, queue, done);
    hide Frontier, Remaining;
  }

  lemma NextRound(net: Netlist, name: Naming, start: Sig, visited: set<Sig>, queue: seq<Sig>, done: set<Sig>,
                  levels: seq<nat>, depth: map<Sig, nat>, d: nat, visited': set<Sig>, queue': seq<Sig>)
    returns (levels': seq<nat>, depth': map<Sig, nat>, d': nat)
    requires Searching(net, name, start, visited, queue, done, levels, depth, d) && queue != []
    requires Grown(queue[1..], visited, queue', visited') && Quiet(net, name, start, queue[0])
    requires Frontier(net, PassSteps(net), SameModule(name, start), start, visited', queue', done + {queue[0]})
    requires AllFollow(PassSteps(net), SameModule(name, start), queue[0], queue'[|queue| - 1..])
    requires Expanded(PassSteps(net), SameModule(name, start), queue[0], visited')
    ensures Searching(net, name, start, visited', queue', done + {queue[0]}, levels', depth', d')
  {
    hide PassSteps, SameModule, Frontier, AllExpanded, Leveled, Quiet, AllFollow, Expanded;
    var steps, region := PassSteps(net), SameModule(name, start);
    levels', depth' := LeveledRound(steps, region, start, visited, queue, levels, depth, done, d, visited', queue');
    d' := levels[0];
    GrownFacts(queue[1..], visited, queue', visited');
    hide Grown;
    AllExpandedStep(steps, region, done, queue[0], visited, visited');
  }

  // The verdict comes from a signal at the front of the queue, and everything nearer was quiet.
  lemma EndsHere(net: Netlist, name: Naming, start: Sig, visited: set<Sig>, queue: seq<Sig>, done: set<Sig>,
                 levels: seq<nat>, depth: map<Sig, nat>, d: nat, v: Verdict)
    requires Searching(net, name, start, visited, queue, done, levels, depth, d) && queue != []
    requires exists r :: ReadsAt(net, name, start, queue[0], r) && Gives(r, v)
    ensures Nearest(net, name, start, v)
  {
    hide PassSteps, SameModule, Frontier, AllExpanded, Quiet, ReadsAt, Gives;
    var steps, region := PassSteps(net), SameModule(name, start);
    FrontLevel(steps, region, start, visited, queue, levels, depth, done, d);
    hide Leveled, StepsAway;
    var n := levels[0];
    assert EndsAt(net, name, start, n, v);
    forall m: nat, w | m < n
      ensures !EndsAt(net, name, start, m, w)
    {
      forall s, r | StepsAway(steps, region, start, s, m) && ReadsAt(net, name, start, s, r)
        ensures !Gives(r, w)
      {
        NearerIsDone(steps, region, start, visited, queue, levels, depth, done, d, s, m);
        QuietReader(net, name, start, s, r, w);
      }
    }
    assert NearestAt(net, name, start, v, n);
  }

  lemma FrontLevel(steps: Steps, region: iset<Sig>, start: Sig, visited: set<Sig>, queue: seq<Sig>, levels: seq<nat>,
                   depth: map<Sig, nat>, done: set<Sig>, d: nat)
    requires Leveled(steps, region, start, visited, queue, levels, depth, done, d) && queue != []
    ensures levels != [] && StepsAway(steps, region, start, queue[0], levels[0])
  {
    hide StepsAway;
  }

  lemma QuietReader(net: Netlist, name: Naming, start: Sig, s: Sig, r: (Cell, Port), v: Verdict)
    requires Quiet(net, name, start, s) && ReadsAt(net, name, start, s, r)
    ensures !Gives(r, v)
  {
    hide Gives, SameModule;
  }

  lemma NothingLeft(net: Netlist, name: Naming, start: Sig, visited: set<Sig>, done: set<Sig>, levels: seq<nat>,
                    depth: map<Sig, nat>, d: nat)
    requires Searching(net, name, start, visited, [], done, levels, depth, d)
    ensures Allowed(net, name, start, Some(false))
  {
    hide PassSteps, SameModule, Frontier, AllExpanded, Quiet, ReadsAt, Gives, Leveled;
    var steps, region := PassSteps(net), SameModule(name, start);
    FrontierClosed(net, steps, region, start, visited, done);
    forall n: nat, v
      ensures !EndsAt(net, name, start, n, v)
    {
      forall s, r | StepsAway(steps, region, start, s, n) && ReadsAt(net, name, start, s, r)
        ensures !Gives(r, v)
      {
        assert Reached(steps, region, start, s);
        QuietReader(net, name, start, s, r, v);
      }
    }
  }

  // One signal's readers: stop at a multiplexer select, a flip-flop or a missing output, else queue
  // their outputs.
  method VisitReaders(net: Netlist, name: Naming, first: Order, ghost start: Sig, curSig: Sig, visited0: set<Sig>,
                      queue0: seq<Sig>, ghost done: set<Sig>)
    returns (verdict: Verdict, visited: set<Sig>, queue: seq<Sig>)
    requires Picks(first)
    requires curSig in SameModule(name, start) && Reached(PassSteps(net), SameModule(name, start), start, curSig)
    requires Frontier(net, PassSteps(net), SameModule(name, start), start, visited0, queue0, done)
    ensures verdict != Continue ==> exists r :: ReadsAt(net, name, start, curSig, r) && Gives(r, verdict)
    ensures Frontier(net, PassSteps(net), SameModule(name, start), start, visited, queue, done)
    ensures verdict == Continue ==>
      Quiet(net, name, start, curSig) && Expanded(PassSteps(net), SameModule(name, start), curSig, visited)
    ensures Grown(queue0, visited0, queue, visited) && |queue0| <= |queue|
    ensures AllFollow(PassSteps(net), SameModule(name, start), curSig, queue[|queue0|..])
    ensures (verdict, visited, queue) == Read(net, first, net.Readers(curSig), visited0, queue0)
  {
    hide Reached, Frontier, OutChunks, Netlist.Readers, StepsThrough, Outputs, Expanded, SameModule, Gives, Grown,
         SigSet, AllFollow, Read, PushAll, Chunks;
    ghost var steps, region := PassSteps(net), SameModule(name, start);
    visited, queue := visited0, queue0;
    var cellPorts := net.Readers(curSig);
    GrownRefl(queue0, visited0);
    NoneFollow(steps, region, curSig, queue0);
    while cellPorts != {}
      invariant cellPorts <= net.Readers(curSig)
      invariant Frontier(net, steps, region, start, visited, queue, done)
      invariant Grown(queue0, visited0, queue, visited) && |queue0| <= |queue|
      invariant AllFollow(steps, region, curSig, queue[|queue0|..])
      invariant forall r, v | r in net.Readers(curSig) - cellPorts :: !Gives(r, v)
      invariant forall r | r in net.Readers(curSig) - cellPorts && PassesThrough(r) && r.0.Out().Some? ::
        OutChunks(net, r.0) <= visited
      invariant Read(net, first, cellPorts, visited, queue) == Read(net, first, net.Readers(curSig), visited0, queue0)
      decreases |cellPorts|
    {
      var cellPort := first(cellPorts);
      assert cellPort in cellPorts;
      ReadStep(net, first, cellPorts, visited, queue);
      cellPorts := cellPorts - {cellPort};
      verdict := Judge(cellPort);
      if verdict != Continue {
        assert ReadsAt(net, name, start, curSig, cellPort);
        return verdict, visited, queue;
      }
      if Followed(cellPort.0) {
        ReaderFacts(net, curSig, cellPort);
        ReaderSteps(net, PassesThrough, curSig, cellPort);
        ghost var q, v := queue, visited;
        visited, queue := VisitOutput(net, steps, region, start, curSig, cellPort.0, visited, queue, done);
        AppendedFollow(net, steps, region, curSig, cellPort.0, queue0, visited0, q, v, queue, visited);
      }
    }
    CurExpanded(net, PassesThrough, region, curSig, visited);
    ReadStep(net, first, cellPorts, visited, queue);
    return Continue, visited, queue;
  }

  lemma ReadStep(net: Netlist, first: Order, ports: set<(Cell, Port)>, visited: set<Sig>, queue: seq<Sig>)
    requires Picks(first)
    ensures var r := first(ports);
            Read(net, first, ports, visited, queue) ==
            if ports == {} then (Continue, visited, queue)
            else if Judge(r) != Continue then (Judge(r), visited, queue)
            else if Followed(r.0) then
              (var (v, q) := PushAll(Chunks(net.Canon(r.0.Out().value)), visited, queue);
               Read(net, first, ports - {r}, v, q))
            else Read(net, first, ports - {r}, visited, queue)
  {
    hide PushAll, Chunks;
  }

  lemma NoneFollow(steps: Steps, region: iset<Sig>, s: Sig, q: seq<Sig>)
    ensures AllFollow(steps, region, s, q[|q|..])
  {
    assert q[|q|..] == [];
  }

  lemma AppendedFollow(net: Netlist, steps: Steps, region: iset<Sig>, s: Sig, c: Cell, q0: seq<Sig>, v0: set<Sig>,
                       q: seq<Sig>, v: set<Sig>, q': seq<Sig>, v': set<Sig>)
    requires Grown(q0, v0, q, v) && |q0| <= |q| && AllFollow(steps, region, s, q[|q0|..])
    requires Grown(q, v, q', v') && |q| <= |q'| && c.Out().Some? && SigSet(q'[|q|..]) <= OutChunks(net, c)
    requires s in region && forall t | t in OutChunks(net, c) :: (s, t) in steps
    ensures Grown(q0, v0, q', v') && |q0| <= |q'| && AllFollow(steps, region, s, q'[|q0|..]) && v <= v'
  {
    hide OutChunks;
    GrownTrans(q0, v0, q, v, q', v');
    GrownFacts(q, v, q', v');
    assert |q| <= |q'| && q'[..|q|] == q;
    assert q'[|q0|..] == q[|q0|..] + q'[|q|..];
    forall t | t in q'[|q0|..]
      ensures s in region && (s, t) in steps
    {
      if t !in q[|q0|..] {
        assert t in q'[|q|..];
        assert t in SigSet(q'[|q|..]);
      }
    }
  }

  // ---- search_control_registers ----

  datatype ControlReg = ControlReg(cell: Cell, sig: Sig)

  // A chunk of a flip-flop's output.
  predicate IsRegisterChunk(net: Netlist, reg: ControlReg) {
    && reg.cell in net.cells && reg.cell.kind.IsFF() && reg.cell.Out().Some?
    && reg.sig in Chunks(net.Canon(reg.cell.Out().value))
  }

  ghost predicate Listed(found: map<string, seq<ControlReg>>, name: Naming, reg: ControlReg) {
    name(reg.sig) in found && reg in found[name(reg.sig)]
  }

  // Registers listed under a module are chunks of that module that the search says steer a
  // multiplexer; of a register chunk not listed it says they do not.
  ghost predicate ListRight(net: Netlist, name: Naming, found: map<string, seq<ControlReg>>,
                            examined: set<ControlReg>) {
    && (forall m | m in found :: forall reg | reg in found[m] ::
          reg in examined && IsRegisterChunk(net, reg) && name(reg.sig) == m && Allowed(net, name, reg.sig, Some(true)))
    && (forall reg | reg in examined && !Listed(found, name, reg) ::
          Allowed(net, name, reg.sig, Some(false)))
  }

  ghost function RegisterChunks(net: Netlist): set<ControlReg> {
    set c, t | c in net.cells && c.kind.IsFF() && c.Out().Some? && t in Chunks(net.Canon(c.Out().value)) ::
      ControlReg(c, t)
  }

  // ControlRegManager::add
  function AddReg(found: map<string, seq<ControlReg>>, m: string, reg: ControlReg): map<string, seq<ControlReg>> {
    found[m := (if m in found then found[m] else []) + [reg]]
  }

  // What stops the pass: a flip-flop without output, or a register chunk whose search meets a reader
  // without output.
  ghost predicate PassFails(net: Netlist, name: Naming) {
    || (exists c | c in net.cells :: c.kind.IsFF() && c.Out().None?)
    || (exists reg | reg in RegisterChunks(net) :: Allowed(net, name, reg.sig, None))
  }

  // How often a chunk occurs in the output of its flip-flop.
  ghost function Occurrences(net: Netlist, reg: ControlReg): nat {
    if reg.cell.Out().Some? then multiset(Chunks(net.Canon(reg.cell.Out().value)))[reg.sig] else 0
  }

  ghost function TimesListed(found: map<string, seq<ControlReg>>, name: Naming, reg: ControlReg): nat {
    if name(reg.sig) in found then multiset(found[name(reg.sig)])[reg] else 0
  }

  // A register chunk is listed as often as it occurs if the search says that it steers a multiplexer,
  // and never otherwise; the flip-flops still waiting have nothing listed.
  ghost predicate CountRight(net: Netlist, name: Naming, first: Order, found: map<string, seq<ControlReg>>,
                             waiting: set<Cell>)
    requires Picks(first)
  {
    forall reg | IsRegisterChunk(net, reg) ::
      TimesListed(found, name, reg) ==
      if reg.cell !in waiting && Finds(net, name, first, reg.sig, Some(true)) then Occurrences(net, reg) else 0
  }

  // The same in the middle of a flip-flop, of whose output these chunks have been looked at.
  ghost predicate CountPart(net: Netlist, name: Naming, first: Order, found: map<string, seq<ControlReg>>,
                            waiting: set<Cell>, c: Cell, chunks: seq<Sig>)
    requires Picks(first)
  {
    forall reg | IsRegisterChunk(net, reg) ::
      TimesListed(found, name, reg) ==
      if !Finds(net, name, first, reg.sig, Some(true)) then 0
      else if reg.cell == c then multiset(chunks)[reg.sig]
      else if reg.cell in waiting then 0
      else Occurrences(net, reg)
  }

  lemma CountStart(net: Netlist, name: Naming, first: Order)
    requires Picks(first)
    ensures CountRight(net, name, first, map[], net.cells)
  {
    hide Finds, Occurrences, Picks, Chunks;
  }

  lemma CountEnter(net: Netlist, name: Naming, first: Order, found: map<string, seq<ControlReg>>, waiting: set<Cell>,
                   c: Cell)
    requires Picks(first) && CountRight(net, name, first, found, waiting) && c in waiting
    ensures CountPart(net, name, first, found, waiting, c, [])
  {
    hide Finds, Occurrences, Picks, Chunks, IsRegisterChunk, TimesListed;
  }

  lemma CountLeave(net: Netlist, name: Naming, first: Order, found: map<string, seq<ControlReg>>, waiting: set<Cell>,
                   c: Cell)
    requires Picks(first) && c.Out().Some?
    requires CountPart(net, name, first, found, waiting, c, Chunks(net.Canon(c.Out().value)))
    ensures CountRight(net, name, first, found, waiting - {c})
  {
    hide Finds, Picks, Chunks, IsRegisterChunk, TimesListed;
  }

  lemma CountSkip(net: Netlist, name: Naming, first: Order, found: map<string, seq<ControlReg>>, waiting: set<Cell>,
                  c: Cell)
    requires Picks(first) && CountRight(net, name, first, found, waiting) && !c.kind.IsFF()
    ensures CountRight(net, name, first, found, waiting - {c})
  {
    hide Finds, Picks, Chunks, TimesListed, Occurrences, CellKind.IsFF;
  }

  lemma TimesAdded(found: map<string, seq<ControlReg>>, name: Naming, reg: ControlReg, x: ControlReg)
    ensures TimesListed(AddReg(found, name(reg.sig), reg), name, x) ==
            TimesListed(found, name, x) + if x == reg then 1 else 0
  {
  }

  lemma CountStep(net: Netlist, name: Naming, first: Order, found: map<string, seq<ControlReg>>, waiting: set<Cell>,
                  c: Cell, chunks: seq<Sig>, t: Sig, r: bool)
    requires Picks(first) && CountPart(net, name, first, found, waiting, c, chunks)
    requires Finds(net, name, first, t, Some(r))
    ensures CountPart(net, name, first, if r then AddReg(found, name(t), ControlReg(c, t)) else found, waiting, c,
                      chunks + [t])
  {
    hide Finds, Picks, Chunks, IsRegisterChunk, TimesListed, Occurrences, AddReg;
    var reg := ControlReg(c, t);
    FindsEither(net, name, first, t, r);
    forall x
      ensures TimesListed(if r then AddReg(found, name(t), reg) else found, name, x) ==
              TimesListed(found, name, x) + if r && x == reg then 1 else 0
      ensures multiset(chunks + [t])[x.sig] == multiset(chunks)[x.sig] + if x.sig == t then 1 else 0
    {
      if r {
        TimesAdded(found, name, reg, x);
      }
    }
  }

  lemma FindsEither(net: Netlist, name: Naming, first: Order, t: Sig, r: bool)
    requires Picks(first) && Finds(net, name, first, t, Some(r))
    ensures Finds(net, name, first, t, Some(true)) <==> r
  {
    hide Finds, Picks;
    if Finds(net, name, first, t, Some(true)) {
      FindsOne(net, name, first, t, Some(r), Some(true));
    }
  }

  method SearchControlRegisters(net: Netlist, name: Naming, first: Order)
    returns (found: Option<map<string, seq<ControlReg>>>)
    requires net.Valid() && Picks(first)
    ensures match found
            case None => PassFails(net, name)
            case Some(m) => ListRight(net, name, m, RegisterChunks(net)) && CountRight(net, name, first, m, {})
  {
    hide Allowed, Chunks, ListRight, Netlist.Valid, Examined, RegisterChunks, ChunkRegs, PassFails, CountRight, Picks;
    AllExamined(net);
    ListStart(net, name);
    CountStart(net, name, first);
    found := Some(map[]);
    var cells := net.cells;
    while cells != {} && found.Some?
      invariant cells <= net.cells
      invariant match found
                case None => PassFails(net, name)
                case Some(m) =>
                  ListRight(net, name, m, Examined(net, cells)) && CountRight(net, name, first, m, cells)
      decreases |cells|
    {
      var cell :| cell in cells;
      ExaminedLess(net, cells, cell);
      if !cell.kind.IsFF() {
        CountSkip(net, name, first, found.value, cells, cell);
      } else if cell.Out().None? {
        NoQFails(net, name, cell);
        found := None;
      } else {
        found := ListCell(net, name, first, found.value, Examined(net, cells), cells, cell);
      }
      cells := cells - {cell};
    }
  }

  // ---- The width of a module's list ----

  function ListWidth(list: seq<ControlReg>): nat {
    if list == [] then 0 else ListWidth(list[..|list| - 1]) + |list[|list| - 1].sig|
  }

  // The occurrences of these register chunks, in bits.
  ghost function BitsOf(net: Netlist, regs: set<ControlReg>): nat {
    if regs == {} then 0 else
      var reg := AnyOf(regs);
      Times(Occurrences(net, reg), |reg.sig|) + BitsOf(net, regs - {reg})
  }

  function Times(n: nat, w: nat): nat { n * w }

  ghost function AnyOf(regs: set<ControlReg>): (reg: ControlReg)
    requires regs != {}
    ensures reg in regs
  {
    var reg :| reg in regs;
    reg
  }

  function Drop(list: seq<ControlReg>, reg: ControlReg): seq<ControlReg> {
    if list == [] then []
    else Drop(list[..|list| - 1], reg) + if list[|list| - 1] == reg then [] else [list[|list| - 1]]
  }

  lemma {:induction false} DropCount(list: seq<ControlReg>, reg: ControlReg, x: ControlReg)
    ensures multiset(Drop(list, reg))[x] == if x == reg then 0 else multiset(list)[x]
  {
    if list != [] {
      DropCount(list[..|list| - 1], reg, x);
      assert list == list[..|list| - 1] + [list[|list| - 1]];
    }
  }

  lemma OneMore(list: seq<ControlReg>, last: ControlReg, reg: ControlReg)
    ensures ListWidth(list + [last]) == ListWidth(list) + |last.sig|
    ensures multiset(list + [last])[reg] == multiset(list)[reg] + if last == reg then 1 else 0
    ensures Drop(list + [last], reg) == if last == reg then Drop(list, reg) else Drop(list, reg) + [last]
  {
    assert (list + [last])[..|list|] == list;
  }

  lemma {:induction false} DropWidth(list: seq<ControlReg>, reg: ControlReg)
    ensures ListWidth(list) == Times(multiset(list)[reg], |reg.sig|) + ListWidth(Drop(list, reg))
  {
    if list != [] {
      hide *;
      var front, last := list[..|list| - 1], list[|list| - 1];
      assert list == front + [last];
      DropWidth(front, reg);
      DropWidthNext(front, last, reg);
    }
  }

  lemma DropWidthNext(list: seq<ControlReg>, last: ControlReg, reg: ControlReg)
    requires ListWidth(list) == Times(multiset(list)[reg], |reg.sig|) + ListWidth(Drop(list, reg))
    ensures var more := list + [last];
            ListWidth(more) == Times(multiset(more)[reg], |reg.sig|) + ListWidth(Drop(more, reg))
  {
    hide *;
    OneMore(list, last, reg);
    OneMore(Drop(list, reg), last, reg);
    TimesNext(multiset(list)[reg], |reg.sig|);
  }

  lemma TimesNext(n: nat, w: nat)
    ensures Times(n + 1, w) == Times(n, w) + w
  {
  }

  lemma NothingCounted(list: seq<ControlReg>)
    requires forall x :: multiset(list)[x] == 0
    ensures list == []
  {
    assert list != [] ==> multiset(list)[list[0]] > 0;
  }

  lemma {:induction false} WidthBySet(net: Netlist, list: seq<ControlReg>, regs: set<ControlReg>)
    requires forall x :: multiset(list)[x] == if x in regs then Occurrences(net, x) else 0
    ensures ListWidth(list) == BitsOf(net, regs)
    decreases regs
  {
    hide Occurrences, Times, Drop;
    if regs == {} {
      assert list == [] by { NothingCounted(list); }
    } else {
      var reg := AnyOf(regs);
      DropWidth(list, reg);
      hide ListWidth;
      forall x
        ensures multiset(Drop(list, reg))[x] == if x in regs - {reg} then Occurrences(net, x) else 0
      {
        DropCount(list, reg, x);
      }
      WidthBySet(net, Drop(list, reg), regs - {reg});
    }
  }

  // The bits listed under a module are those of its registers that steer a multiplexer, each chunk
  // counted as often as it occurs.
  lemma ListedWidth(net: Netlist, name: Naming, first: Order, found: map<string, seq<ControlReg>>, m: string)
    requires Picks(first) && ListRight(net, name, found, RegisterChunks(net)) && CountRight(net, name, first, found, {})
    requires m in found
    ensures ListWidth(found[m]) ==
            BitsOf(net, set reg | reg in RegisterChunks(net) && name(reg.sig) == m &&
                                  Finds(net, name, first, reg.sig, Some(true)))
  {
    hide Finds, Picks, Chunks, Allowed, Occurrences;
    var regs := set reg | reg in RegisterChunks(net) && name(reg.sig) == m &&
                          Finds(net, name, first, reg.sig, Some(true));
    forall x
      ensures multiset(found[m])[x] == if x in regs then Occurrences(net, x) else 0
    {
      if x in regs {
        RegistersAre(net, x);
        assert TimesListed(found, name, x) == Occurrences(net, x);
      } else if x in found[m] {
        assert IsRegisterChunk(net, x) && name(x.sig) == m;
        assert TimesListed(found, name, x) == multiset(found[m])[x];
      }
    }
    WidthBySet(net, found[m], regs);
  }

  lemma RegistersAre(net: Netlist, reg: ControlReg)
    ensures reg in RegisterChunks(net) <==> IsRegisterChunk(net, reg)
  {
    hide Chunks, Netlist.Canon;
  }

  lemma NoQFails(net: Netlist, name: Naming, c: Cell)
    requires c in net.cells && c.kind.IsFF() && c.Out().None?
    ensures PassFails(net, name)
  {
  }

  // The chunks of one flip-flop's output.
  method ListCell(net: Netlist, name: Naming, first: Order, found0: map<string, seq<ControlReg>>,
                  ghost examined: set<ControlReg>, ghost waiting: set<Cell>, cell: Cell)
    returns (found: Option<map<string, seq<ControlReg>>>)
    requires net.Valid() && Picks(first)
    requires ListRight(net, name, found0, examined) && CountRight(net, name, first, found0, waiting)
    requires cell in waiting && waiting <= net.cells && cell.kind.IsFF() && cell.Out().Some?
    ensures match found
            case None => PassFails(net, name)
            case Some(m) =>
              && ListRight(net, name, m, examined + ChunkRegs(cell, Chunks(net.Canon(cell.Out().value))))
              && CountRight(net, name, first, m, waiting - {cell})
  {
    hide Allowed, Chunks, ListRight, Netlist.Valid, RegisterChunks, PassFails, CellKind.IsFF, CountRight, CountPart,
         Picks, Finds;
    var list := found0;
    var chunks := Chunks(net.Canon(cell.Out().value));
    assert examined + ChunkRegs(cell, chunks[..0]) == examined;
    CountEnter(net, name, first, found0, waiting, cell);
    for i := 0 to |chunks|
      invariant ListRight(net, name, list, examined + ChunkRegs(cell, chunks[..i]))
      invariant CountPart(net, name, first, list, waiting, cell, chunks[..i])
    {
      assert chunks[..i + 1] == chunks[..i] + [chunks[i]];
      var reg := ControlReg(cell, chunks[i]);
      ghost var before := examined + ChunkRegs(cell, chunks[..i]);
      assert before + {reg} == examined + ChunkRegs(cell, chunks[..i + 1]);
      ChunkCanonical(net, cell, chunks[i]);
      var isControl := IsControlRegister(net, name, first, chunks[i]);
      if isControl.None? {
        RegisterFails(net, name, reg);
        return None;
      }
      ListStep(net, name, list, before, reg);
      CountStep(net, name, first, list, waiting, cell, chunks[..i], chunks[i], isControl.value);
      if isControl.value {
        list := AddReg(list, name(chunks[i]), reg);
      }
    }
    assert chunks[..|chunks|] == chunks;
    CountLeave(net, name, first, list, waiting, cell);
    return Some(list);
  }

  lemma RegisterFails(net: Netlist, name: Naming, reg: ControlReg)
    requires IsRegisterChunk(net, reg) && Allowed(net, name, reg.sig, None)
    ensures PassFails(net, name)
  {
    hide Allowed;
    ChunkRegistered(net, reg);
  }

  // The register chunks of the cells that are no longer waiting.
  ghost function Examined(net: Netlist, cells: set<Cell>): set<ControlReg> {
    set reg | reg in RegisterChunks(net) && reg.cell !in cells
  }

  function ChunkRegs(c: Cell, chunks: seq<Sig>): set<ControlReg> { set t | t in chunks :: ControlReg(c, t) }

  lemma ExaminedLess(net: Netlist, cells: set<Cell>, c: Cell)
    requires c in cells && cells <= net.cells
    ensures Examined(net, cells - {c})
         == Examined(net, cells)
          + if c.kind.IsFF() && c.Out().Some? then ChunkRegs(c, Chunks(net.Canon(c.Out().value))) else {}
  {
    hide Chunks, Netlist.Canon;
  }

  lemma AllExamined(net: Netlist)
    ensures Examined(net, net.cells) == {} && Examined(net, {}) == RegisterChunks(net)
  {
    hide Chunks, Netlist.Canon;
  }

  lemma ChunkRegistered(net: Netlist, reg: ControlReg)
    requires IsRegisterChunk(net, reg)
    ensures reg in RegisterChunks(net)
  {
    hide Chunks, Netlist.Canon;
  }

  lemma ChunkCanonical(net: Netlist, c: Cell, s: Sig)
    requires net.Valid() && c in net.cells && c.Out().Some? && s in Chunks(net.Canon(c.Out().value))
    ensures net.Canon(s) == s
  {
    var out := net.Canon(c.Out().value);
    ChunkBits(out, s);
    hide Chunks, CellKind.Input, CellKind.Output;
    forall i | 0 <= i < |s|
      ensures net.Rep(s[i]) == s[i]
    {
      assert s[i] in out;
    }
  }

  lemma ListStart(net: Netlist, name: Naming)
    ensures ListRight(net, name, map[], {})
  {
  }

  lemma ListStep(net: Netlist, name: Naming, found: map<string, seq<ControlReg>>, examined: set<ControlReg>,
                 reg: ControlReg)
    requires ListRight(net, name, found, examined) && IsRegisterChunk(net, reg)
    ensures Allowed(net, name, reg.sig, Some(true)) ==>
      ListRight(net, name, AddReg(found, name(reg.sig), reg), examined + {reg})
    ensures Allowed(net, name, reg.sig, Some(false)) ==> ListRight(net, name, found, examined + {reg})
  {
    hide Allowed, IsRegisterChunk;
    var more := AddReg(found, name(reg.sig), reg);
    assert reg in more[name(reg.sig)];
    forall x | Listed(found, name, x)
      ensures Listed(more, name, x)
    {
    }
  }
}

// setup_drivers of the three passes: the table that leads from a signal bit to the cells on it.
module DriverTable {
  import opened Netlist

  type Table<T> = map<Bit, set<T>>

  function Filed<T>(m: Table<T>, b: Bit): set<T> { if b in m then m[b] else {} }

  // SigSet::insert files the entry under every wire bit of the signal.
  function Insert<T>(m: Table<T>, s: Sig, x: T): (r: Table<T>)
    ensures forall b :: Filed(r, b) == Filed(m, b) + if b in Bits(s) then {x} else {}
  {
    map b | b in m.Keys + Bits(s) :: Filed(m, b) + if b in Bits(s) then {x} else {}
  }

  // SigSet::find collects the entries of all bits.
  function Find<T>(m: Table<T>, s: Sig): set<T> { set b, x | b in Bits(s) && x in Filed(m, b) :: x }

  // ---- The SurgeFuzz pass files a known cell under its inputs and outputs ----

  predicate PortOn(net: Netlist, c: Cell, p: Port, b: Bit) {
    p in c.conns && (c.kind.Input(p) || c.kind.Output(p)) && b in Bits(net.Canon(c.conns[p]))
  }

  ghost predicate Carries(net: Netlist, c: Cell, ports: set<Port>, b: Bit) { exists p | p in ports :: PortOn(net, c, p,
                          b) }

  lemma CarriesMore(net: Netlist, c: Cell, ports: set<Port>, p: Port, b: Bit)
    ensures Carries(net, c, ports + {p}, b) <==> Carries(net, c, ports, b) || PortOn(net, c, p, b)
  {
    hide PortOn;
  }

  // The table holds, under each bit, the cells done that have a port on it, and the cell at work if
  // one of its first ports is on it.
  ghost predicate CellsFiled(net: Netlist, m: Table<Cell>, done: set<Cell>, cell: Cell, ports: set<Port>) {
    forall b, c :: c in Filed(m, b) <==>
      (c in done && Carries(net, c, c.conns.Keys, b)) || (c == cell && Carries(net, c, ports, b))
  }

  ghost predicate TableOf(net: Netlist, m: Table<Cell>, done: set<Cell>) {
    forall b, c :: c in Filed(m, b) <==> c in done && Carries(net, c, c.conns.Keys, b)
  }

  lemma FilingStep(net: Netlist, m: Table<Cell>, m': Table<Cell>, done: set<Cell>, cell: Cell, ports: set<Port>,
                   p: Port)
    requires CellsFiled(net, m, done, cell, ports)
    requires forall b :: Filed(m', b) == Filed(m, b) + if PortOn(net, cell, p, b) then {cell} else {}
    ensures CellsFiled(net, m', done, cell, ports + {p})
  {
    hide PortOn, Carries, Filed;
    forall b, c
      ensures c in Filed(m', b) <==>
        (c in done && Carries(net, c, c.conns.Keys, b)) || (c == cell && Carries(net, c, ports + {p}, b))
    {
      CarriesMore(net, cell, ports, p, b);
    }
  }

  lemma FilingStart(net: Netlist, m: Table<Cell>, done: set<Cell>, cell: Cell)
    requires TableOf(net, m, done)
    ensures CellsFiled(net, m, done, cell, {})
  {
    hide PortOn, Filed;
  }

  lemma FilingEnd(net: Netlist, m: Table<Cell>, done: set<Cell>, cell: Cell)
    requires CellsFiled(net, m, done, cell, cell.conns.Keys)
    ensures TableOf(net, m, done + {cell})
  {
    hide Carries, Filed;
  }

  lemma FindIsCellsOn(net: Netlist, m: Table<Cell>)
    requires TableOf(net, m, net.cells)
    ensures forall s :: Find(m, s) == net.CellsOn(s)
  {
    hide Filed, CellKind.Input, CellKind.Output;
    forall s
      ensures Find(m, s) == net.CellsOn(s)
    {
      forall c
        ensures c in Find(m, s) <==> c in net.CellsOn(s)
      {
        FoundIsOn(net, m, s, c);
      }
    }
  }

  lemma FoundIsOn(net: Netlist, m: Table<Cell>, s: Sig, c: Cell)
    requires TableOf(net, m, net.cells)
    ensures c in Find(m, s) <==> c in net.CellsOn(s)
  {
    hide Filed, CellKind.Input, CellKind.Output;
    if c in Find(m, s) {
      var b :| b in Bits(s) && c in Filed(m, b);
      var p :| p in c.conns && PortOn(net, c, p, b);
      assert Overlap(net.Canon(c.conns[p]), s);
    }
    if c in net.CellsOn(s) {
      var p :| p in c.conns && (c.kind.Input(p) || c.kind.Output(p)) && Overlap(net.Canon(c.conns[p]), s);
      var b :| b in net.Canon(c.conns[p]) && b.Wire? && b in s;
      assert PortOn(net, c, p, b) && b in Bits(s);
      assert Carries(net, c, c.conns.Keys, b);
      assert c in Filed(m, b);
    }
  }

  method SetupDrivers(net: Netlist) returns (drivers: Table<Cell>)
    ensures forall s :: Find(drivers, s) == net.CellsOn(s)
  {
    hide CellsFiled, TableOf, Find, Netlist.CellsOn;
    drivers := map[];
    var rest := net.cells;
    ghost var done: set<Cell> := {};
    assert TableOf(net, drivers, done) by { NothingFiled(net); }
    while rest != {}
      invariant rest + done == net.cells && TableOf(net, drivers, done)
      decreases |rest|
    {
      var cell :| cell in rest;
      rest := rest - {cell};
      drivers := FileCell(net, drivers, done, cell);
      done := done + {cell};
    }
    FindIsCellsOn(net, drivers);
  }

  lemma NothingFiled(net: Netlist)
    ensures TableOf(net, map[], {})
  {
  }

  method FileCell(net: Netlist, drivers0: Table<Cell>, ghost done: set<Cell>, cell: Cell) returns (drivers: Table<Cell>)
    requires TableOf(net, drivers0, done)
    ensures TableOf(net, drivers, done + {cell})
  {
    hide CellsFiled, TableOf, Filed, Insert, Carries, CellKind.Input, CellKind.Output, Bits;
    drivers := drivers0;
    var ports := cell.conns.Keys;
    ghost var seen: set<Port> := {};
    FilingStart(net, drivers, done, cell);
    while ports != {}
      invariant ports + seen == cell.conns.Keys && CellsFiled(net, drivers, done, cell, seen)
      decreases |ports|
    {
      var port :| port in ports;
      ghost var was := drivers;
      var sig := net.Canon(cell.conns[port]);
      if cell.kind.Known() && cell.kind.Input(port) {
        drivers := Insert(drivers, sig, cell);
      }
      if cell.kind.Known() && cell.kind.Output(port) {
        drivers := Insert(drivers, sig, cell);
      }
      ForeignHasNone(cell, port);
      FilingStep(net, was, drivers, done, cell, seen, port);
      ports, seen := ports - {port}, seen + {port};
    }
    FilingEnd(net, drivers, done, cell);
  }

  lemma ForeignHasNone(c: Cell, p: Port)
    ensures c.kind.Input(p) || c.kind.Output(p) ==> c.kind.Known()
  {
  }

  // ---- The other two passes file the pairs of a known cell and an input port ----

  predicate Reads(net: Netlist, r: (Cell, Port), b: Bit) {
    r.1 in r.0.conns && r.0.kind.Input(r.1) && b in Bits(net.Canon(r.0.conns[r.1]))
  }

  // The pairs filed so far: all of the cells done, and the first ports of the cell at work.
  ghost predicate ReadersFiled(net: Netlist, m: Table<(Cell, Port)>, done: set<Cell>, cell: Cell, ports: set<Port>) {
    forall b, r :: r in Filed(m, b) <==> Reads(net, r, b) && (r.0 in done || (r.0 == cell && r.1 in ports))
  }

  ghost predicate ReaderTable(net: Netlist, m: Table<(Cell, Port)>, done: set<Cell>) {
    forall b, r :: r in Filed(m, b) <==> Reads(net, r, b) && r.0 in done
  }

  lemma FindIsReaders(net: Netlist, m: Table<(Cell, Port)>)
    requires ReaderTable(net, m, net.cells)
    ensures forall s :: Find(m, s) == net.Readers(s)
  {
    hide Filed, CellKind.Input;
    forall s
      ensures Find(m, s) == net.Readers(s)
    {
      forall r
        ensures r in Find(m, s) <==> r in net.Readers(s)
      {
        if r in net.Readers(s) {
          var b :| b in net.Canon(r.0.conns[r.1]) && b.Wire? && b in s;
          assert Reads(net, r, b) && b in Bits(s);
          assert r in Filed(m, b);
        }
        if r in Find(m, s) {
          var b :| b in Bits(s) && r in Filed(m, b);
          assert Overlap(net.Canon(r.0.conns[r.1]), s);
        }
      }
    }
  }

  method SetupReaders(net: Netlist) returns (drivers: Table<(Cell, Port)>)
    ensures forall s :: Find(drivers, s) == net.Readers(s)
  {
    hide Find, Netlist.Readers, Reads;
    drivers := map[];
    var rest := net.cells;
    ghost var done: set<Cell> := {};
    while rest != {}
      invariant rest + done == net.cells && rest !! done && ReaderTable(net, drivers, done)
      decreases |rest|
    {
      var cell :| cell in rest;
      rest := rest - {cell};
      drivers := FileReaders(net, drivers, done, cell);
      done := done + {cell};
    }
    FindIsReaders(net, drivers);
  }

  method FileReaders(net: Netlist, drivers0: Table<(Cell, Port)>, ghost done: set<Cell>, cell: Cell)
    returns (drivers: Table<(Cell, Port)>)
    requires ReaderTable(net, drivers0, done) && cell !in done
    ensures ReaderTable(net, drivers, done + {cell})
  {
    hide ReadersFiled, ReaderTable, Filed, Insert, Reads, Bits, CellKind.Input;
    drivers := drivers0;
    var ports := cell.conns.Keys;
    ghost var seen: set<Port> := {};
    ReadersStart(net, drivers, done, cell);
    while ports != {}
      invariant ports + seen == cell.conns.Keys && ReadersFiled(net, drivers, done, cell, seen)
      decreases |ports|
    {
      var port :| port in ports;
      ghost var was := drivers;
      var sig := net.Canon(cell.conns[port]);
      ForeignHasNone(cell, port);
      if cell.kind.Known() && cell.kind.Input(port) {
        drivers := Insert(drivers, sig, (cell, port));
      }
      ReadsHere(net, cell, port);
      ReadersStep(net, was, drivers, done, cell, seen, port);
      ports, seen := ports - {port}, seen + {port};
    }
    ReadersEnd(net, drivers, done, cell);
  }

  lemma ReadersStart(net: Netlist, m: Table<(Cell, Port)>, done: set<Cell>, cell: Cell)
    requires ReaderTable(net, m, done)
    ensures ReadersFiled(net, m, done, cell, {})
  {
    hide Filed, Reads;
  }

  lemma ReadsHere(net: Netlist, cell: Cell, p: Port)
    requires p in cell.conns
    ensures forall b :: Reads(net, (cell, p), b) <==> cell.kind.Input(p) && b in Bits(net.Canon(cell.conns[p]))
  {
    hide CellKind.Input, Bits;
  }

  lemma ReadersStep(net: Netlist, m: Table<(Cell, Port)>, m': Table<(Cell, Port)>, done: set<Cell>, cell: Cell,
                    ports: set<Port>, p: Port)
    requires ReadersFiled(net, m, done, cell, ports)
    requires forall b :: Filed(m', b) == Filed(m, b) + if Reads(net, (cell, p), b) then {(cell, p)} else {}
    ensures ReadersFiled(net, m', done, cell, ports + {p})
  {
    hide Filed, Reads;
  }

  lemma ReadersEnd(net: Netlist, m: Table<(Cell, Port)>, done: set<Cell>, cell: Cell)
    requires ReadersFiled(net, m, done, cell, cell.conns.Keys)
    ensures ReaderTable(net, m, done + {cell})
  {
    hide Filed, CellKind.Input, Bits;
  }
}

// The graph of cells the SurgeFuzz pass writes beside its search, and the record of found registers.
module Circuit {
  import opened Netlist

  datatype Node = Node(id: nat, name: string, kind: CellKind)

  // The part of an edge that Edge::operator< compares; a second edge with the same key is dropped.
  datatype EdgeKey = EdgeKey(idX: nat, idY: nat, portX: Port, portY: Port)

  class CircuitGraph {
    var nodes: map<nat, Node>
    var edges: map<EdgeKey, Sig>
    var name2id: map<string, nat>

    // Names and ids correspond one to one, the ids are 0..n-1, and edges join existing nodes.
    ghost predicate Valid()
      reads this
    {
      && (forall i: nat :: i in nodes <==> i < |name2id|)
      && (forall i | i in nodes :: nodes[i].id == i && nodes[i].name in name2id && name2id[nodes[i].name] == i)
      && (forall n | n in name2id :: name2id[n] in nodes && nodes[name2id[n]].name == n)
      && (forall e | e in edges :: e.idX in nodes && e.idY in nodes)
    }

    constructor ()
      ensures Valid() && name2id == map[] && edges == map[]
    {
      nodes, edges, name2id := map[], map[], map[];
    }

    method AddNode(cell: Cell)
      requires Valid()
      modifies this
      ensures Valid()
      ensures name2id == if cell.name in old(name2id) then old(name2id)
                         else old(name2id)[cell.name := |old(name2id)|]
      ensures forall i | i in old(nodes) :: i in nodes && nodes[i] == old(nodes)[i]
      ensures edges == old(edges)
    {
      if cell.name in name2id {
        Insert(name2id[cell.name], cell);
      } else {
        var newId := |name2id|;
        name2id := name2id[cell.name := newId];
        Insert(newId, cell);
      }
    }

    // std::set::insert keeps the node already filed under an id.
    method Insert(id: nat, cell: Cell)
      modifies this`nodes
      ensures nodes == if id in old(nodes) then old(nodes) else old(nodes)[id := Node(id, cell.name, cell.kind)]
    {
      if id !in nodes {
        nodes := nodes[id := Node(id, cell.name, cell.kind)];
      }
    }

    // name2id[...] would file an unknown name under id 0; the search never meets that case.
    method AddEdge(x: Cell, y: Cell, sig: Sig, portX: Port, portY: Port)
      modifies this
      ensures nodes == old(nodes)
      ensures old(Valid()) && x.name in old(name2id) && y.name in old(name2id) ==>
                Valid() && name2id == old(name2id) &&
                var e := EdgeKey(name2id[x.name], name2id[y.name], portX, portY);
                edges == if e in old(edges) then old(edges) else old(edges)[e := sig]
    {
      if x.name !in name2id {
        name2id := name2id[x.name := 0];
      }
      if y.name !in name2id {
        name2id := name2id[y.name := 0];
      }
      var e := EdgeKey(name2id[x.name], name2id[y.name], portX, portY);
      if e !in edges {
        edges := edges[e := sig];
      }
    }
  }

  datatype Info = Info(depth: nat, regDepth: nat, isCtrl: bool, cellName: string)

  datatype Record = Record(sig: Sig, info: Info)

  // A std::set<DependentInfo> compares depths only, so it keeps one entry a depth.
  type InfoSet = map<nat, Info>

  function InsertInfo(s: InfoSet, i: Info): InfoSet {
    if i.depth in s then s else s[i.depth := i]
  }

  lemma {:induction false} LeastKey(s: InfoSet) returns (d: nat)
    requires s != map[]
    ensures d in s && forall e | e in s :: d <= e
    decreases |s|
  {
    var k :| k in s;
    var rest := s - {k};
    if rest == map[] {
      d := k;
      assert forall e | e in s :: e == k by {
        assert forall e | e in s && e != k :: e in rest;
      }
    } else {
      var m := LeastKey(rest);
      d := if k < m then k else m;
      assert forall e | e in s :: e == k || e in rest;
    }
  }

  function RecordedBits(rs: seq<Record>): set<Bit> {
    if rs == [] then {} else RecordedBits(rs[..|rs| - 1]) + Bits(rs[|rs| - 1].sig)
  }

  function RecordedSigs(rs: seq<Record>): set<Sig> {
    if rs == [] then {} else RecordedSigs(rs[..|rs| - 1]) + {rs[|rs| - 1].sig}
  }

  lemma {:induction false} RecordOfBit(rs: seq<Record>, b: Bit) returns (r: Record)
    requires b in RecordedBits(rs)
    ensures r in rs && b in Bits(r.sig)
  {
    r := rs[|rs| - 1];
    if b !in Bits(r.sig) {
      r := RecordOfBit(rs[..|rs| - 1], b);
    }
  }

  // Filing one entry under every wire bit of a signal, as SigSet::insert does.
  function FileInfo(m: map<Bit, InfoSet>, sig: Sig, info: Info): map<Bit, InfoSet> {
    map b | b in m.Keys + Bits(sig) ::
      if b !in Bits(sig) then m[b] else InsertInfo(if b in m then m[b] else map[], info)
  }

  // r accounts for the entry of depth d filed under bit b.
  predicate Accounts(r: Record, m: map<Bit, InfoSet>, b: Bit, d: nat)
    requires b in m && d in m[b]
  {
    b in Bits(r.sig) && r.info == m[b][d] && r.info.depth == d
  }

  // The table holds, bit by bit, one record of every depth recorded there and nothing else.
  ghost predicate Faithful(m: map<Bit, InfoSet>, rs: seq<Record>) {
    && (forall r, b | r in rs && b in Bits(r.sig) :: b in m && r.info.depth in m[b])
    && (forall b, d | b in m && d in m[b] :: exists r | r in rs :: Accounts(r, m, b, d))
  }

  lemma FileInfoFaithful(m: map<Bit, InfoSet>, rs: seq<Record>, sig: Sig, info: Info)
    requires Faithful(m, rs)
    ensures Faithful(FileInfo(m, sig, info), rs + [Record(sig, info)])
  {
    var m', rs', n := FileInfo(m, sig, info), rs + [Record(sig, info)], Record(sig, info);
    assert n == rs'[|rs|];
    forall b, d | b in m' && d in m'[b]
      ensures exists r | r in rs' :: Accounts(r, m', b, d)
    {
      if b in m && d in m[b] {
        var r :| r in rs && Accounts(r, m, b, d);
        assert r in rs' && Accounts(r, m', b, d);
      } else {
        assert n in rs' && Accounts(n, m', b, d);
      }
    }
  }

  class DependentManager {
    var dependents: set<Bit>
    var dependentPool: set<Sig>
    var dependentInfo: map<Bit, InfoSet>
    ghost var records: seq<Record>

    ghost predicate Valid()
      reads this
    {
      && dependents == RecordedBits(records)
      && dependentPool == RecordedSigs(records)
      && Faithful(dependentInfo, records)
    }

    constructor ()
      ensures Valid() && records == [] && dependents == {} && dependentPool == {}
    {
      dependents, dependentPool, dependentInfo, records := {}, {}, map[], [];
    }

    method Add(sig: Sig, info: Info)
      requires Valid()
      modifies this
      ensures Valid() && records == old(records) + [Record(sig, info)]
      ensures dependents == old(dependents) + Bits(sig) && dependentPool == old(dependentPool) + {sig}
    {
      dependents := dependents + Bits(sig);
      dependentPool := dependentPool + {sig};
      FileInfoFaithful(dependentInfo, records, sig, info);
      dependentInfo := FileInfo(dependentInfo, sig, info);
      records := records + [Record(sig, info)];
      assert records[..|records| - 1] == old(records);
    }

    // get_dependent_info: the entry of least depth among those filed under any bit of sig.
    method GetDependentInfo(sig: Sig) returns (info: Info)
      requires Valid()
      requires exists r | r in records :: Overlap(r.sig, sig)
      ensures exists r | r in records :: Overlap(r.sig, sig) && r.info == info
      ensures forall r | r in records && Overlap(r.sig, sig) :: info.depth <= r.info.depth
    {
      var found: InfoSet := map[];
      for i := 0 to |sig|
        invariant forall d | d in found :: exists r | r in records ::
          Overlap(r.sig, sig) && r.info == found[d] && r.info.depth == d
        invariant forall r, b | r in records && b in Bits(r.sig) && b in sig[..i] :: r.info.depth in found
      {
        if sig[i] in dependentInfo {
          ghost var b := sig[i];
          var more := dependentInfo[sig[i]];
          forall d | d in more
            ensures exists r | r in records :: Overlap(r.sig, sig) && r.info == more[d] && r.info.depth == d
          {
            var r :| r in records && Accounts(r, dependentInfo, b, d);
            assert Overlap(r.sig, sig);
          }
          found := more + found;
        }
        assert sig[..i + 1] == sig[..i] + [sig[i]];
      }
      assert sig[..|sig|] == sig;
      assert forall r | r in records && Overlap(r.sig, sig) :: r.info.depth in found by {
        forall r | r in records && Overlap(r.sig, sig)
          ensures r.info.depth in found
        {
          var b :| b in r.sig && b.Wire? && b in sig;
          assert b in Bits(r.sig);
        }
      }
      ghost var m := LeastKey(found);
      var d :| d in found && forall e | e in found :: d <= e;
      info := found[d];
    }
  }
}

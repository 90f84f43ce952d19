/** Whatever the network does, a message handed to a local process was given to ODR by a client at the
    node it names, for this node, with this payload and for this process's port. */
module DataIntegrity {
  import opened Basics
  import opened Frames
  import opened OdrModel
  import opened Network
  import opened LoopFreedom

  /** `g` carries a request of `log`: made at its source, for its destination and port, with its payload,
      by the client that owns its source port. */
  ghost predicate Asked(nodes: map<Ip, Node>, log: seq<Label>, g: Frame) {
    g.src in nodes && exists l :: l in log && Matches(nodes, l, g)
  }

  predicate Matches(nodes: map<Ip, Node>, l: Label, g: Frame)
    requires g.src in nodes
  {
    && l.Peer? && l.node == g.src
    && l.params.dst == g.dst && l.params.dstPort == g.dstPort && l.params.msg == g.payload
    && PortOf(nodes[g.src].ports, l.params.path) == Some(g.srcPort)
  }

  ghost predicate Inv(net: Net, log: seq<Label>) {
    && Named(net)
    && (forall d :: d in net.flight && d.frame.ftype == DATA ==> Asked(net.nodes, log, d.frame))
    && forall x, p :: x in net.nodes && p in net.nodes[x].pending && p.frame.ftype == DATA ==>
        Asked(net.nodes, log, p.frame)
  }

  /** Ports once given stay given. */
  ghost predicate PortsGrow(n: Node, n': Node) {
    && (forall path :: PortOf(n.ports, path).Some? ==> PortOf(n'.ports, path) == PortOf(n.ports, path))
    && forall e :: e in n.ports ==> e in n'.ports
  }

  /** The data frames a receive passes on or keeps are the received one or ones it had parked. */
  ghost predicate Passes(n: Node, f: Frame, o: Outcome) {
    && o.node.ports == n.ports
    && (forall s :: s in o.sends && s.frame.ftype == DATA ==>
          SameMessage(s.frame, f) || exists p :: p in n.pending && p.frame == s.frame)
    && (forall p :: p in o.node.pending ==> p.frame == f || p in n.pending)
  }

  predicate SameMessage(g: Frame, f: Frame) {
    && f.ftype == DATA && g.src == f.src && g.dst == f.dst
    && g.srcPort == f.srcPort && g.dstPort == f.dstPort && g.payload == f.payload
  }

  lemma RrepPasses(n: Node, f: Frame, ifno: int, dest: Option<Route>)
    requires f.src in n.routes
    ensures Passes(n, f, OnRrep(n, f, ifno, dest))
  {
    if f.dst == n.self {
      UnparkFrom(n.pending, f.src);
    } else if dest.None? {
      FloodSends(n.ifs, ifno, Request(n.bid + 1, 0, -1, f.dstPort, f.dst, n.self));
    }
  }

  lemma DispatchPasses(n: Node, f: Frame, ifno: int, dest: Option<Route>, updated: bool)
    requires f.src in n.routes && RREQ <= f.ftype <= ASENT
    ensures Passes(n, f, Dispatch(n, f, ifno, dest, updated))
  {
    if f.ftype == RREP {
      RrepPasses(n, f, ifno, dest);
    } else if f.ftype == DATA {
      FloodSends(n.ifs, ifno, Request(n.bid + 1, 0, -1, f.dstPort, f.dst, n.self));
    } else {
      FloodSends(n.ifs, ifno, Onward(f, ASENT));
      FloodSends(n.ifs, ifno, Onward(f, RREQ));
    }
  }

  lemma ReceivePasses(n: Node, f: Frame, ifno: int, mac: Mac, t: Clock)
    ensures Passes(n, f, HandleEthernet(n, f, ifno, mac, t))
  {
    if !Ignored(n, f) && RREQ <= f.ftype <= ASENT {
      var g := Ingest(n, f, ifno, mac, t);
      DispatchPasses(n.(routes := g.routes), f, ifno, g.dest, g.updated);
    }
  }

  /** What a receive hands to a local process is the received data frame, for the process on its port. */
  lemma ReceiveHandsOver(n: Node, f: Frame, ifno: int, mac: Mac, t: Clock, m: PeerMsg)
    requires m in HandleEthernet(n, f, ifno, mac, t).peers
    ensures f.ftype == DATA && f.dst == n.self && PathOf(n.ports, f.dstPort) == Some(m.path)
    ensures m == PeerMsg(m.path, f.src, f.srcPort, f.payload)
  {
  }

  lemma PathOfListed(ports: seq<PortEntry>, port: int)
    ensures var path := PathOf(ports, port); path.Some? ==> PortEntry(port, path.value) in ports
  {
  }

  lemma SearchAsks(n: Node, p: Params, port: int)
    requires PortOf(n.ports, p.path) == Some(port)
    ensures var o := SearchFor(n, p, port);
            && (forall s :: s in o.sends ==> s.frame.ftype != DATA)
            && (forall q :: q in o.node.pending ==> q in n.pending || Carried(n, o.node, p, q.frame))
  {
    FloodSends(n.ifs, -1, Request(n.bid + 1, p.flag, port, p.dstPort, p.dst, n.self));
  }

  /** The data frames a client's request gives rise to carry that request. */
  lemma PeerAsks(n: Node, p: Params, now: int)
    ensures var o := HandlePeer(n, p, now);
            && PortsGrow(n, o.node)
            && (forall s :: s in o.sends && s.frame.ftype == DATA ==> Carried(n, o.node, p, s.frame))
            && (forall q :: q in o.node.pending ==> q in n.pending || Carried(n, o.node, p, q.frame))
            && (forall m :: m in o.peers ==>
                  && p.dst == n.self && m.srcIp == n.self && m.payload == p.msg
                  && PortOf(o.node.ports, p.path) == Some(m.srcPort) && PortEntry(p.dstPort, m.path) in o.node.ports)
  {
    if n.ports != [] {
      var (ports, nextPort, port) := Register(n.ports, n.nextPort, p.path);
      if p.dst == n.self {
        PathOfListed(ports, p.dstPort);
      } else {
        var (routes, dest) := Lookup(n.routes, p.dst, p.flag, now, n.stale);
        if dest.None? {
          SearchAsks(n.(ports := ports, nextPort := nextPort, routes := routes), p, port);
        }
      }
    }
  }

  predicate Carried(n: Node, n': Node, p: Params, g: Frame) {
    && g.src == n.self && g.dst == p.dst && g.dstPort == p.dstPort && g.payload == p.msg
    && PortOf(n'.ports, p.path) == Some(g.srcPort)
  }

  // ---------- the network ----------

  lemma AskedStays(nodes: map<Ip, Node>, nodes': map<Ip, Node>, log: seq<Label>, l: Label, g: Frame)
    requires Asked(nodes, log, g)
    requires forall x :: x in nodes ==> x in nodes' && PortsGrow(nodes[x], nodes'[x])
    ensures Asked(nodes', log + [l], g)
  {
    var k :| k in log && Matches(nodes, k, g);
    assert k in log + [l] && Matches(nodes', k, g);
  }

  lemma NodesGrow(top: Topology, net: Net, l: Label)
    requires Enabled(net, l)
    ensures forall x :: x in net.nodes ==>
              x in Next(top, net, l).nodes && PortsGrow(net.nodes[x], Next(top, net, l).nodes[x])
  {
    if l.Peer? {
      PeerAsks(net.nodes[l.node], l.params, l.now);
    } else if Acting(net, l).Some? {
      var d := net.flight[l.i];
      ReceivePasses(net.nodes[d.node], d.frame, d.index, d.mac, l.t);
    }
  }

  /** A data frame that a handler sends or parks carries a request of the log, which now includes this step. */
  lemma HandledFrame(top: Topology, net: Net, log: seq<Label>, l: Label, g: Frame)
    requires Inv(net, log) && Enabled(net, l) && Acting(net, l).Some? && g.ftype == DATA
    requires var (who, o) := Acting(net, l).value;
             || (exists s :: s in o.sends && s.frame == g)
             || (exists p :: p in o.node.pending && p !in net.nodes[who].pending && p.frame == g)
    ensures Asked(Next(top, net, l).nodes, log + [l], g)
  {
    var (who, o) := Acting(net, l).value;
    var nodes' := Next(top, net, l).nodes;
    NodesGrow(top, net, l);
    if l.Peer? {
      PeerAsks(net.nodes[who], l.params, l.now);
      assert Carried(net.nodes[who], o.node, l.params, g);
      assert l in log + [l] && Matches(nodes', l, g);
    } else {
      var d := net.flight[l.i];
      assert d in net.flight;
      ReceivePasses(net.nodes[who], d.frame, d.index, d.mac, l.t);
      if p :| p in net.nodes[who].pending && p.frame == g {
        AskedStays(net.nodes, nodes', log, l, g);
      } else {
        assert SameMessage(g, d.frame);
        AskedStays(net.nodes, nodes', log, l, d.frame);
        var k :| k in log + [l] && Matches(nodes', k, d.frame);
        assert Matches(nodes', k, g);
      }
    }
  }

  lemma StepKeepsInv(top: Topology, net: Net, log: seq<Label>, l: Label)
    requires Inv(net, log) && Enabled(net, l)
    ensures Inv(Next(top, net, l), log + [l])
  {
    var net' := Next(top, net, l);
    KeepsNames(top, net, l);
    NodesGrow(top, net, l);
    forall d | d in net'.flight && d.frame.ftype == DATA
      ensures Asked(net'.nodes, log + [l], d.frame)
    {
      if d in Remaining(net, l) {
        StillThere(net, l, d);
        AskedStays(net.nodes, net'.nodes, log, l, d.frame);
      } else {
        var (who, o) := Acting(net, l).value;
        var s, p, q := TransmitSound(top, who, o.sends, d);
        HandledFrame(top, net, log, l, d.frame);
      }
    }
    forall x, p | x in net'.nodes && p in net'.nodes[x].pending && p.frame.ftype == DATA
      ensures Asked(net'.nodes, log + [l], p.frame)
    {
      if p in net.nodes[x].pending {
        AskedStays(net.nodes, net'.nodes, log, l, p.frame);
      } else {
        HandledFrame(top, net, log, l, p.frame);
      }
    }
  }

  /** The messages a step hands to processes at its node. */
  function HandedOver(net: Net, l: Label, x: Ip): seq<PeerMsg>
    requires Enabled(net, l)
  {
    var a := Acting(net, l);
    if a.Some? && a.value.0 == x then a.value.1.peers else []
  }

  /** `l` is the client request that message `m`, handed over at `x`, answers to. */
  predicate Origin(nodes: map<Ip, Node>, l: Label, x: Ip, m: PeerMsg) {
    && l.Peer? && l.node == m.srcIp && m.srcIp in nodes && x in nodes
    && l.params.dst == x && l.params.msg == m.payload
    && PortOf(nodes[m.srcIp].ports, l.params.path) == Some(m.srcPort)
    && PortEntry(l.params.dstPort, m.path) in nodes[x].ports
  }

  lemma HandedOverHasOrigin(top: Topology, net: Net, log: seq<Label>, l: Label, x: Ip, m: PeerMsg) returns (k: Label)
    requires Inv(net, log) && Enabled(net, l) && m in HandedOver(net, l, x)
    ensures k in log + [l] && Origin(Next(top, net, l).nodes, k, x, m)
  {
    var n := net.nodes[x];
    NodesGrow(top, net, l);
    if l.Peer? {
      PeerAsks(n, l.params, l.now);
      k := l;
    } else {
      var d := net.flight[l.i];
      assert d in net.flight;
      ReceiveHandsOver(n, d.frame, d.index, d.mac, l.t, m);
      PathOfListed(n.ports, d.frame.dstPort);
      k :| k in log && Matches(net.nodes, k, d.frame);
    }
  }

  // ---------- whole runs ----------

  /** The labels of a run that were enabled when their turn came. */
  function Taken(top: Topology, net: Net, run: seq<Label>): seq<Label> {
    if run == [] then []
    else
      var before, l := run[..|run| - 1], run[|run| - 1];
      Taken(top, net, before) + (if Enabled(After(top, net, before), l) then [l] else [])
  }

  /** Label `j` of the run is `k`, and it was enabled. */
  predicate TakenAt(top: Topology, net: Net, run: seq<Label>, j: nat, k: Label) {
    j < |run| && run[j] == k && Enabled(After(top, net, run[..j]), k)
  }

  lemma {:induction false} RunKeepsInv(top: Topology, net: Net, run: seq<Label>)
    requires Initial(net)
    ensures Inv(After(top, net, run), Taken(top, net, run))
  {
    if run != [] {
      var before, l := run[..|run| - 1], run[|run| - 1];
      RunKeepsInv(top, net, before);
      AfterLast(top, net, run);
      if Enabled(After(top, net, before), l) {
        StepKeepsInv(top, After(top, net, before), Taken(top, net, before), l);
      } else {
        assert Taken(top, net, before) + [] == Taken(top, net, before);
      }
    }
  }

  lemma {:induction false} TakenSomewhere(top: Topology, net: Net, run: seq<Label>, k: Label) returns (j: nat)
    requires k in Taken(top, net, run)
    ensures TakenAt(top, net, run, j, k)
  {
    var before, l := run[..|run| - 1], run[|run| - 1];
    if k in Taken(top, net, before) {
      j := TakenSomewhere(top, net, before, k);
      assert before[..j] == run[..j];
    } else {
      j := |run| - 1;
    }
  }

  /** No run invents, alters or misdelivers a message: whatever step `i` hands to a process at `x` is what a
      client asked for in step `j`, no later than that. */
  lemma MessagesAreAuthentic(top: Topology, net: Net, run: seq<Label>, i: nat, x: Ip, m: PeerMsg) returns (j: nat)
    requires Initial(net) && i < |run|
    requires var here := After(top, net, run[..i]); Enabled(here, run[i]) && m in HandedOver(here, run[i], x)
    ensures j <= i && TakenAt(top, net, run, j, run[j])
    ensures Origin(Next(top, After(top, net, run[..i]), run[i]).nodes, run[j], x, m)
  {
    var before := run[..i];
    RunKeepsInv(top, net, before);
    var k := HandedOverHasOrigin(top, After(top, net, before), Taken(top, net, before), run[i], x, m);
    if k in Taken(top, net, before) {
      j := TakenSomewhere(top, net, before, k);
      assert before[..j] == run[..j];
    } else {
      j := i;
    }
  }
}

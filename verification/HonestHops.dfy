/** Hop counts are real. In every run, with loss, duplication, expiry, forced discovery and intermediate
    replies, an entry with a non-zero id and `k` hops means that a walk of exactly `k` segments joins the
    two nodes. Two kinds of step can break this and are left out: re-sending a frame parked on the way with
    its old hop count, and answering from an entry learnt from an originator's parked frame, whose id is 0
    and whose hop count is not one. */
module HonestHops {
  import opened Basics
  import opened Frames
  import opened OdrModel
  import opened Network
  import opened LoopFreedom
  import opened ShortestHop

  ghost predicate Adjacent(top: Topology, u: Ip, v: Ip) {
    exists p, q :: p in top && q in top && Joined(p, q) && p.node == u && q.node == v
  }

  /** `x` and `v` are joined by a walk of exactly `k` segments. Replies and data frames may use interfaces that
      floods avoid, so this walk may use any. */
  ghost predicate WireWalk(top: Topology, x: Ip, v: Ip, k: int)
    decreases k
  {
    if k <= 0 then k == 0 && x == v else exists u :: WireWalk(top, x, u, k - 1) && Adjacent(top, u, v)
  }

  /** Where the id is not 0, the hop count is the length of a walk from `x` to `v`. */
  ghost predicate Real(top: Topology, x: Ip, v: Ip, bid: int, hops: int) {
    bid >= 0 && (bid > 0 ==> WireWalk(top, x, v, hops))
  }

  ghost predicate RealNode(top: Topology, n: Node) {
    && n.bid >= 0
    && (forall x :: x in n.routes ==> Real(top, x, n.self, n.routes[x].bid, n.routes[x].hops))
    && forall p :: p in n.pending ==> p.frame.bid >= 0
  }

  ghost predicate RealOutcome(top: Topology, o: Outcome) {
    RealNode(top, o.node) && forall s :: s in o.sends ==> Real(top, s.frame.src, o.node.self, s.frame.bid, s.frame.hops)
  }

  ghost predicate Inv(top: Topology, net: Net) {
    && Named(net)
    && (forall d :: d in net.flight ==> Real(top, d.frame.src, d.node, d.frame.bid, d.frame.hops + 1))
    && forall x :: x in net.nodes ==> RealNode(top, net.nodes[x])
  }

  /** A parked frame with a real id, so not one of this node's own clients, is re-sent. */
  predicate ResendsOldHops(n: Node, f: Frame) {
    f.ftype == RREP && f.dst == n.self && var g := Unpark(n.pending, f.src).1; g.Some? && g.value.bid != 0
  }

  /** A request is answered from an entry with id 0. */
  predicate AnswersFromZero(n: Node, f: Frame) {
    f.ftype == RREQ && f.dst != n.self && f.dst in n.routes && n.routes[f.dst].bid == 0
  }

  /** The two kinds of step left out. */
  predicate Invents(n: Node, f: Frame) {
    ResendsOldHops(n, f) || AnswersFromZero(n, f)
  }

  predicate Candid(net: Net, l: Label)
    requires Enabled(net, l)
  {
    l.Receive? && net.flight[l.i].node in net.nodes ==> !Invents(net.nodes[net.flight[l.i].node], net.flight[l.i].frame)
  }

  ghost predicate CandidRun(top: Topology, net: Net, run: seq<Label>)
    decreases |run|
  {
    run == [] || (Enabled(net, run[0]) && Candid(net, run[0]) && CandidRun(top, Next(top, net, run[0]), run[1..]))
  }

  lemma IngestReal(top: Topology, n: Node, f: Frame, ifno: int, mac: Mac, t: Clock)
    requires RealNode(top, n) && Real(top, f.src, n.self, f.bid, f.hops + 1)
    ensures var g := Ingest(n, f, ifno, mac, t);
            && RealNode(top, n.(routes := g.routes))
            && f.src in g.routes && AtLeast(g.routes[f.src], f.bid, f.hops + 1)
            && (g.updated ==> g.routes[f.src].bid == f.bid && g.routes[f.src].hops == f.hops + 1)
            && (g.dest.Some? ==>
                  && f.dst in n.routes && g.dest.value.bid >= n.routes[f.dst].bid
                  && Real(top, f.dst, n.self, g.dest.value.bid, g.dest.value.hops))
  {
  }

  /** The route back and, where one is used, the frame released. */
  lemma RrepReal(top: Topology, n: Node, f: Frame, ifno: int, dest: Option<Route>)
    requires RealNode(top, n) && f.src in n.routes
    requires f.bid >= 0 && AtLeast(n.routes[f.src], f.bid, f.hops + 1)
    requires f.dst == n.self ==> var g := Unpark(n.pending, f.src).1; g.Some? ==> g.value.bid == 0
    ensures RealOutcome(top, OnRrep(n, f, ifno, dest))
  {
    if f.dst == n.self {
      UnparkFrom(n.pending, f.src);
    } else if dest.None? {
      FloodSends(n.ifs, ifno, Request(n.bid + 1, 0, -1, f.dstPort, f.dst, n.self));
    }
  }

  lemma DispatchReal(top: Topology, n: Node, f: Frame, ifno: int, dest: Option<Route>, updated: bool)
    requires RealNode(top, n) && f.src in n.routes && RREQ <= f.ftype <= ASENT
    requires Real(top, f.src, n.self, f.bid, f.hops + 1) && AtLeast(n.routes[f.src], f.bid, f.hops + 1)
    requires dest.Some? && f.ftype == RREQ && f.dst != n.self ==>
               dest.value.bid > 0 && Real(top, f.dst, n.self, dest.value.bid, dest.value.hops)
    requires f.ftype == RREP && f.dst == n.self ==>
               var g := Unpark(n.pending, f.src).1; g.Some? ==> g.value.bid == 0
    ensures RealOutcome(top, Dispatch(n, f, ifno, dest, updated))
  {
    if f.ftype == RREP {
      RrepReal(top, n, f, ifno, dest);
    } else if f.ftype == DATA {
      FloodSends(n.ifs, ifno, Request(n.bid + 1, 0, -1, f.dstPort, f.dst, n.self));
    } else {
      FloodSends(n.ifs, ifno, Onward(f, ASENT));
      FloodSends(n.ifs, ifno, Onward(f, RREQ));
    }
  }

  lemma ReceiveReal(top: Topology, n: Node, f: Frame, ifno: int, mac: Mac, t: Clock)
    requires RealNode(top, n) && Real(top, f.src, n.self, f.bid, f.hops + 1) && !Invents(n, f)
    ensures RealOutcome(top, HandleEthernet(n, f, ifno, mac, t))
  {
    if !Ignored(n, f) && RREQ <= f.ftype <= ASENT {
      var g := Ingest(n, f, ifno, mac, t);
      IngestReal(top, n, f, ifno, mac, t);
      DispatchReal(top, n.(routes := g.routes), f, ifno, g.dest, g.updated);
    }
  }

  lemma SearchReal(top: Topology, n: Node, p: Params, port: int)
    requires RealNode(top, n)
    ensures RealOutcome(top, SearchFor(n, p, port))
  {
    FloodSends(n.ifs, -1, Request(n.bid + 1, p.flag, port, p.dstPort, p.dst, n.self));
  }

  lemma PeerReal(top: Topology, n: Node, p: Params, now: int)
    requires RealNode(top, n)
    ensures RealOutcome(top, HandlePeer(n, p, now))
  {
    if n.ports != [] && p.dst != n.self {
      var (ports, nextPort, port) := Register(n.ports, n.nextPort, p.path);
      var (routes, dest) := Lookup(n.routes, p.dst, p.flag, now, n.stale);
      if dest.None? {
        SearchReal(top, n.(ports := ports, nextPort := nextPort, routes := routes), p, port);
      }
    }
  }

  lemma HandlerReal(top: Topology, net: Net, l: Label)
    requires Inv(top, net) && Enabled(net, l) && Candid(net, l) && Acting(net, l).Some?
    ensures var (who, o) := Acting(net, l).value; o.node.self == who && RealOutcome(top, o)
  {
    KeepsNames(top, net, l);
    var (who, o) := Acting(net, l).value;
    if l.Receive? {
      var d := net.flight[l.i];
      assert d in net.flight;
      ReceiveReal(top, net.nodes[who], d.frame, d.index, d.mac, l.t);
    } else {
      PeerReal(top, net.nodes[who], l.params, l.now);
    }
    assert Next(top, net, l).nodes[who] == o.node;
  }

  lemma StepKeepsInv(top: Topology, net: Net, l: Label)
    requires Inv(top, net) && Enabled(net, l) && Candid(net, l)
    ensures Inv(top, Next(top, net, l))
  {
    KeepsNames(top, net, l);
    var a := Acting(net, l);
    if a.Some? {
      HandlerReal(top, net, l);
    }
    forall d | d in Next(top, net, l).flight
      ensures Real(top, d.frame.src, d.node, d.frame.bid, d.frame.hops + 1)
    {
      if d in Remaining(net, l) {
        StillThere(net, l, d);
      } else {
        NewFrameReal(top, a.value.0, a.value.1, d);
      }
    }
  }

  /** A frame sent on is heard one segment further away. */
  lemma NewFrameReal(top: Topology, who: Ip, o: Outcome, d: Delivery)
    requires RealOutcome(top, o) && o.node.self == who && d in Transmit(top, who, o.sends)
    ensures Real(top, d.frame.src, d.node, d.frame.bid, d.frame.hops + 1)
  {
    var s, p, q := TransmitSound(top, who, o.sends, d);
    assert Joined(p, q);
    assert Adjacent(top, who, d.node);
  }

  lemma {:induction false} RunKeepsInv(top: Topology, net: Net, run: seq<Label>)
    requires Inv(top, net) && CandidRun(top, net, run)
    ensures Inv(top, After(top, net, run))
    decreases |run|
  {
    if run != [] {
      StepKeepsInv(top, net, run[0]);
      RunKeepsInv(top, Next(top, net, run[0]), run[1..]);
    }
  }

  /** Every recorded hop count with a non-zero id is the length of a walk to the destination, so it never
      falls below the distance. */
  lemma HopCountsAreReal(top: Topology, net: Net, run: seq<Label>)
    requires Initial(net) && CandidRun(top, net, run)
    ensures var nodes := After(top, net, run).nodes;
            forall x, s :: x in nodes && s in nodes[x].routes && nodes[x].routes[s].bid != 0 ==>
              WireWalk(top, s, x, nodes[x].routes[s].hops)
  {
    RunKeepsInv(top, net, run);
    var nodes := After(top, net, run).nodes;
    forall x, s | x in nodes && s in nodes[x].routes && nodes[x].routes[s].bid != 0
      ensures WireWalk(top, s, x, nodes[x].routes[s].hops)
    {
      assert RealNode(top, nodes[x]);
    }
  }
}

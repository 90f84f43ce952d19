/** What every frame looks like in every run, and hence which routes a handler may use. */
module Traffic {
  import opened Basics
  import opened Frames
  import opened OdrModel
  import opened Network
  import opened LoopFreedom

  /** A known type, two different addresses, and the discovery flag only on flooded frames. */
  predicate Proper(g: Frame) {
    && RREQ <= g.ftype <= ASENT && g.src != g.dst
    && (g.flag == 0 || (g.flag == 1 && !Addressed(g)))
  }

  predicate ProperParked(p: Parked) {
    Proper(p.frame) && Addressed(p.frame) && p.key == p.frame.dst
  }

  ghost predicate ProperNode(n: Node) {
    forall p :: p in n.pending ==> ProperParked(p)
  }

  ghost predicate ProperOutcome(o: Outcome) {
    ProperNode(o.node) && forall s :: s in o.sends ==> Proper(s.frame) && (s.to.Broadcast? <==> !Addressed(s.frame))
  }

  ghost predicate Inv(net: Net) {
    && (forall d :: d in net.flight ==> Proper(d.frame))
    && forall x :: x in net.nodes ==> ProperNode(net.nodes[x])
  }

  lemma ParkAndSearchProper(n: Node, f: Frame, ifno: int)
    requires Proper(f) && Addressed(f) && ProperNode(n) && f.dst != n.self
    ensures ProperOutcome(ParkAndSearch(n, f, ifno))
  {
    FloodSends(n.ifs, ifno, Request(n.bid + 1, 0, -1, f.dstPort, f.dst, n.self));
  }

  lemma DispatchProper(n: Node, f: Frame, ifno: int, dest: Option<Route>, updated: bool)
    requires Proper(f) && ProperNode(n) && f.src in n.routes
    ensures ProperOutcome(Dispatch(n, f, ifno, dest, updated))
    ensures Dispatch(n, f, ifno, dest, updated).node.up == n.up
  {
    if !Addressed(f) {
      FloodSends(n.ifs, ifno, Onward(f, ASENT));
      FloodSends(n.ifs, ifno, Onward(f, RREQ));
    } else if f.dst != n.self {
      ParkAndSearchProper(n, f, ifno);
    } else {
      UnparkFrom(n.pending, f.src);
    }
  }

  lemma ReceiveProper(n: Node, f: Frame, ifno: int, mac: Mac, t: Clock)
    requires Proper(f) && ProperNode(n)
    ensures ProperOutcome(HandleEthernet(n, f, ifno, mac, t))
    ensures HandleEthernet(n, f, ifno, mac, t).node.up == n.up
  {
    if !Ignored(n, f) {
      var g := Ingest(n, f, ifno, mac, t);
      DispatchProper(n.(routes := g.routes), f, ifno, g.dest, g.updated);
    }
  }

  lemma SearchProper(n: Node, p: Params, port: int)
    requires ProperNode(n) && (p.flag == 0 || p.flag == 1) && p.dst != n.self
    ensures ProperOutcome(SearchFor(n, p, port))
  {
    FloodSends(n.ifs, -1, Request(n.bid + 1, p.flag, port, p.dstPort, p.dst, n.self));
  }

  lemma PeerProper(n: Node, p: Params, now: int)
    requires ProperNode(n) && (p.flag == 0 || p.flag == 1)
    ensures ProperOutcome(HandlePeer(n, p, now))
  {
    if n.ports != [] && p.dst != n.self {
      var (ports, nextPort, port) := Register(n.ports, n.nextPort, p.path);
      var (routes, dest) := Lookup(n.routes, p.dst, p.flag, now, n.stale);
      if dest.None? {
        SearchProper(n.(ports := ports, nextPort := nextPort, routes := routes), p, port);
      }
    }
  }

  /** Clients set the discovery flag to 0 or 1. */
  predicate ClientsBehave(run: seq<Label>) {
    forall l :: l in run && l.Peer? ==> l.params.flag == 0 || l.params.flag == 1
  }

  lemma StepKeepsInv(top: Topology, net: Net, l: Label)
    requires Inv(net) && Enabled(net, l) && ClientsBehave([l])
    ensures Inv(Next(top, net, l))
  {
    assert l in [l];
    var a := Acting(net, l);
    if a.Some? {
      var (who, o) := a.value;
      if l.Receive? {
        var d := net.flight[l.i];
        assert d in net.flight;
        ReceiveProper(net.nodes[who], d.frame, d.index, d.mac, l.t);
      } else {
        PeerProper(net.nodes[who], l.params, l.now);
      }
    }
    forall d | d in Next(top, net, l).flight
      ensures Proper(d.frame)
    {
      if d in Remaining(net, l) {
        StillThere(net, l, d);
      } else {
        var s, p, q := TransmitSound(top, a.value.0, a.value.1.sends, d);
      }
    }
  }

  lemma {:induction false} RunKeepsInv(top: Topology, net: Net, run: seq<Label>)
    requires Inv(net) && ClientsBehave(run)
    ensures Inv(After(top, net, run))
    decreases |run|
  {
    if run != [] {
      if Enabled(net, run[0]) {
        StepKeepsInv(top, net, run[0]);
        RunKeepsInv(top, Next(top, net, run[0]), run[1..]);
      } else {
        RunKeepsInv(top, net, run[1..]);
      }
    }
  }

  /** In every run started by clients that set the flag to 0 or 1, with deletions, intermediate replies,
      parked frames and loss, only requests and ASENT frames carry the flag, no frame is addressed to its
      own source, and only replies and data frames are parked, unflagged and under their destination. */
  lemma TrafficIsProper(top: Topology, net: Net, run: seq<Label>)
    requires Initial(net) && ClientsBehave(run)
    ensures Inv(After(top, net, run))
  {
    RunKeepsInv(top, net, run);
  }

  // ---------- fresh routes only ----------

  /** `s` follows the entry for `x`, which has been in the table unchanged and was younger than the threshold at
      `now`. */
  predicate FollowsYoung(n: Node, n': Node, x: Ip, now: int, s: Send) {
    && x in n.routes && x in n'.routes && n'.routes[x] == n.routes[x]
    && now - n.routes[x].time < n.stale && s == Via(n.routes[x], s.frame)
  }

  /** `s` follows the entry for the source of `f`, which is now the one that `f` gives rise to. */
  predicate FollowsNew(n': Node, f: Frame, ifno: int, mac: Mac, t: Clock, s: Send) {
    && f.src in n'.routes && n'.routes[f.src] == Route(mac, ifno, f.hops + 1, f.bid, t.write)
    && s == Via(n'.routes[f.src], s.frame)
  }

  /** What a unicast sent on receipt of `f` may follow. */
  predicate FollowsFresh(n: Node, n': Node, f: Frame, ifno: int, mac: Mac, t: Clock, s: Send) {
    || FollowsNew(n', f, ifno, mac, t, s)
    || FollowsYoung(n, n', f.src, t.srcLookup, s)
    || FollowsYoung(n, n', f.dst, t.destLookup, s)
  }

  /** Every unicast of a handler run follows one of those two. */
  lemma DispatchFollows(n: Node, f: Frame, ifno: int, dest: Option<Route>, updated: bool, s: Send)
    requires f.src in n.routes && RREQ <= f.ftype <= ASENT
    requires s in Dispatch(n, f, ifno, dest, updated).sends && s.to.Unicast?
    ensures s == Via(n.routes[f.src], s.frame) || (dest.Some? && s == Via(dest.value, s.frame))
  {
    FloodSends(n.ifs, ifno, Onward(f, ASENT));
    FloodSends(n.ifs, ifno, Onward(f, RREQ));
    FloodSends(n.ifs, ifno, Request(n.bid + 1, 0, -1, f.dstPort, f.dst, n.self));
  }

  lemma FreshRoutesOnly(n: Node, f: Frame, ifno: int, mac: Mac, t: Clock, s: Send)
    requires f.src != f.dst
    requires var o := HandleEthernet(n, f, ifno, mac, t); s in o.sends && s.to.Unicast?
    ensures FollowsFresh(n, HandleEthernet(n, f, ifno, mac, t).node, f, ifno, mac, t, s)
  {
    var g := Ingest(n, f, ifno, mac, t);
    var m := n.(routes := g.routes);
    DispatchKeepsRoutes(m, f, ifno, g.dest, g.updated);
    DispatchFollows(m, f, ifno, g.dest, g.updated, s);
    assert s == Via(g.routes[f.src], s.frame) || s == Via(g.routes[f.dst], s.frame);
  }

  /** Each lookup reads the clock itself. For any frame, with a monotone clock, the entry found for the
      destination is still in the table when it is followed, unless source and destination are the same
      and the lookup for the source came too late for it; then it was unlinked and is followed all the same. */
  lemma FoundRouteStaysLinked(n: Node, f: Frame, ifno: int, mac: Mac, t: Clock)
    requires Ingest(n, f, ifno, mac, t).dest.Some?
    requires f.dst in n.routes ==> n.routes[f.dst].time <= t.destLookup <= t.srcLookup <= t.write
    ensures var g := Ingest(n, f, ifno, mac, t);
            && f.dst in n.routes
            && ((f.dst in g.routes && g.dest.value == g.routes[f.dst]) <==>
                !(f.src == f.dst && t.srcLookup - n.routes[f.dst].time >= n.stale))
  {
  }

  lemma PeerFollowsFresh(n: Node, p: Params, now: int, s: Send)
    requires s in HandlePeer(n, p, now).sends && s.to.Unicast?
    ensures FollowsYoung(n, HandlePeer(n, p, now).node, p.dst, now, s) && p.flag != 1
  {
    var port := Register(n.ports, n.nextPort, p.path).2;
    FloodSends(n.ifs, -1, Request(n.bid + 1, p.flag, port, p.dstPort, p.dst, n.self));
    assert s == Via(n.routes[p.dst], s.frame);
  }

  /** The unicast `s` of a step follows an entry that is fresh in it. */
  predicate FreshSend(net: Net, l: Label, n': Node, s: Send)
    requires Enabled(net, l) && Acting(net, l).Some?
  {
    match l
    case Receive(i, t) =>
      var d := net.flight[i];
      FollowsFresh(net.nodes[d.node], n', d.frame, d.index, d.mac, t, s)
    case Peer(x, p, now) => FollowsYoung(net.nodes[x], n', p.dst, now, s)
    case _ => false
  }

  /** Over whole runs the exception does not arise: every unicast of every step follows a fresh entry. */
  lemma FreshRoutesInEveryRun(top: Topology, net: Net, run: seq<Label>, l: Label, s: Send)
    requires Initial(net) && ClientsBehave(run)
    requires var here := After(top, net, run);
             Enabled(here, l) && Acting(here, l).Some? && s in Acting(here, l).value.1.sends && s.to.Unicast?
    ensures var here := After(top, net, run);
            FreshSend(here, l, Acting(here, l).value.1.node, s)
  {
    TrafficIsProper(top, net, run);
    var here := After(top, net, run);
    if l.Receive? {
      var d := here.flight[l.i];
      assert d in here.flight;
      FreshRoutesOnly(here.nodes[d.node], d.frame, d.index, d.mac, l.t, s);
    } else {
      PeerFollowsFresh(here.nodes[l.node], l.params, l.now, s);
    }
  }
}

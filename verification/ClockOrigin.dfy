/** Only differences of clock readings matter: a network whose clocks and timestamps are all set forward by the same
    amount behaves the same in every run. */
module ClockOrigin {
  import opened Basics
  import opened Frames
  import opened OdrModel
  import opened Network

  function LaterRoutes(routes: map<Ip, Route>, k: int): map<Ip, Route> {
    map x | x in routes :: routes[x].(time := routes[x].time + k)
  }

  function LaterNode(n: Node, k: int): Node {
    n.(routes := LaterRoutes(n.routes, k))
  }

  function LaterClock(t: Clock, k: int): Clock {
    Clock(t.destLookup + k, t.srcLookup + k, t.write + k)
  }

  function LaterOutcome(o: Outcome, k: int): Outcome {
    o.(node := LaterNode(o.node, k))
  }

  function LaterRoute(r: Option<Route>, k: int): Option<Route> {
    if r.None? then None else Some(r.value.(time := r.value.time + k))
  }

  function LaterNet(net: Net, k: int): Net {
    Net(map x | x in net.nodes :: LaterNode(net.nodes[x], k), net.flight)
  }

  function LaterLabel(l: Label, k: int): Label {
    match l
    case Receive(i, t) => Receive(i, LaterClock(t, k))
    case Peer(x, p, now) => Peer(x, p, now + k)
    case _ => l
  }

  function LaterRun(run: seq<Label>, k: int): seq<Label> {
    seq(|run|, i requires 0 <= i < |run| => LaterLabel(run[i], k))
  }

  // ---------- one handler run ----------

  lemma LookupLater(routes: map<Ip, Route>, ip: Ip, flag: int, now: int, stale: int, k: int)
    ensures var (rest, found) := Lookup(routes, ip, flag, now, stale);
            Lookup(LaterRoutes(routes, k), ip, flag, now + k, stale) == (LaterRoutes(rest, k), LaterRoute(found, k))
  {
    assert LaterRoutes(routes, k) - {ip} == LaterRoutes(routes - {ip}, k);
  }

  lemma LearnLater(routes: map<Ip, Route>, f: Frame, ifno: int, mac: Mac, now: int, k: int)
    ensures var (rest, updated) := Learn(routes, f, ifno, mac, now);
            Learn(LaterRoutes(routes, k), f, ifno, mac, now + k) == (LaterRoutes(rest, k), updated)
  {
    var r := RouteOf(f, ifno, mac, now);
    assert LaterRoutes(routes, k)[f.src := r.(time := now + k)] == LaterRoutes(routes[f.src := r], k);
  }

  lemma LookupsLater(n: Node, f: Frame, t: Clock, k: int)
    ensures var (rest, dest, src) := Lookups(n, f, t);
            Lookups(LaterNode(n, k), f, LaterClock(t, k)) ==
            (LaterRoutes(rest, k), LaterRoute(dest, k), LaterRoute(src, k))
  {
    var r1 := Lookup(n.routes, f.dst, f.flag, t.destLookup, n.stale).0;
    LookupLater(n.routes, f.dst, f.flag, t.destLookup, n.stale, k);
    LookupLater(r1, f.src, 0, t.srcLookup, n.stale, k);
  }

  lemma IngestLater(n: Node, f: Frame, ifno: int, mac: Mac, t: Clock, k: int)
    ensures var g := Ingest(n, f, ifno, mac, t);
            Ingest(LaterNode(n, k), f, ifno, mac, LaterClock(t, k)) ==
            Ingested(LaterRoutes(g.routes, k), LaterRoute(g.dest, k), g.updated)
  {
    LookupsLater(n, f, t, k);
    LearnLater(Lookups(n, f, t).0, f, ifno, mac, t.write, k);
  }

  lemma RreqLater(n: Node, f: Frame, ifno: int, dest: Option<Route>, updated: bool, k: int)
    requires f.src in n.routes
    ensures OnRreq(LaterNode(n, k), f, ifno, LaterRoute(dest, k), updated) ==
            LaterOutcome(OnRreq(n, f, ifno, dest, updated), k)
  {
  }

  lemma RrepLater(n: Node, f: Frame, ifno: int, dest: Option<Route>, k: int)
    requires f.src in n.routes
    ensures OnRrep(LaterNode(n, k), f, ifno, LaterRoute(dest, k)) == LaterOutcome(OnRrep(n, f, ifno, dest), k)
  {
  }

  lemma DataLater(n: Node, f: Frame, ifno: int, dest: Option<Route>, k: int)
    requires f.src in n.routes
    ensures OnData(LaterNode(n, k), f, ifno, LaterRoute(dest, k)) == LaterOutcome(OnData(n, f, ifno, dest), k)
  {
  }

  lemma DispatchLater(n: Node, f: Frame, ifno: int, dest: Option<Route>, updated: bool, k: int)
    requires f.src in n.routes && RREQ <= f.ftype <= ASENT
    ensures Dispatch(LaterNode(n, k), f, ifno, LaterRoute(dest, k), updated) ==
            LaterOutcome(Dispatch(n, f, ifno, dest, updated), k)
  {
    RreqLater(n, f, ifno, dest, updated, k);
    RrepLater(n, f, ifno, dest, k);
    DataLater(n, f, ifno, dest, k);
  }

  lemma ReceiveLater(n: Node, f: Frame, ifno: int, mac: Mac, t: Clock, k: int)
    ensures HandleEthernet(LaterNode(n, k), f, ifno, mac, LaterClock(t, k)) ==
            LaterOutcome(HandleEthernet(n, f, ifno, mac, t), k)
  {
    if !Ignored(n, f) {
      var g := Ingest(n, f, ifno, mac, t);
      LookupsLater(n, f, t, k);
      IngestLater(n, f, ifno, mac, t, k);
      if RREQ <= f.ftype <= ASENT {
        DispatchLater(n.(routes := g.routes), f, ifno, g.dest, g.updated, k);
      }
    }
  }

  lemma RemoteLater(n: Node, p: Params, port: int, now: int, k: int)
    ensures PeerRemote(LaterNode(n, k), p, port, now + k) == LaterOutcome(PeerRemote(n, p, port, now), k)
  {
    LookupLater(n.routes, p.dst, p.flag, now, n.stale, k);
  }

  lemma PeerLater(n: Node, p: Params, now: int, k: int)
    ensures HandlePeer(LaterNode(n, k), p, now + k) == LaterOutcome(HandlePeer(n, p, now), k)
  {
    if n.ports != [] {
      var (ports, nextPort, port) := Register(n.ports, n.nextPort, p.path);
      RemoteLater(n.(ports := ports, nextPort := nextPort), p, port, now, k);
    }
  }

  // ---------- runs ----------

  lemma NodeLater(nodes: map<Ip, Node>, flight: seq<Delivery>, who: Ip, n: Node, k: int)
    ensures LaterNet(Net(nodes, flight), k).nodes[who := LaterNode(n, k)] ==
            LaterNet(Net(nodes[who := n], flight), k).nodes
  {
  }

  lemma ActingLater(net: Net, l: Label, k: int)
    requires Enabled(net, l)
    ensures Enabled(LaterNet(net, k), LaterLabel(l, k))
    ensures Acting(LaterNet(net, k), LaterLabel(l, k)) ==
            match Acting(net, l)
            case None => None
            case Some((who, o)) => Some((who, LaterOutcome(o, k)))
  {
    if Acting(net, l).Some? {
      var n := net.nodes[Acting(net, l).value.0];
      if l.Receive? {
        var d := net.flight[l.i];
        ReceiveLater(n, d.frame, d.index, d.mac, l.t, k);
      } else {
        PeerLater(n, l.params, l.now, k);
      }
    }
  }

  lemma StepLater(top: Topology, net: Net, l: Label, k: int)
    ensures Enabled(LaterNet(net, k), LaterLabel(l, k)) <==> Enabled(net, l)
    ensures Enabled(net, l) ==> Next(top, LaterNet(net, k), LaterLabel(l, k)) == LaterNet(Next(top, net, l), k)
  {
    if Enabled(net, l) {
      ActingLater(net, l, k);
      if Acting(net, l).Some? {
        var (who, o) := Acting(net, l).value;
        NodeLater(net.nodes, net.flight, who, o.node, k);
      }
    }
  }

  /** The same frames in flight and the same tables but for their timestamps, after every run. */
  lemma {:induction false} ClockOriginDoesNotMatter(top: Topology, net: Net, run: seq<Label>, k: int)
    ensures After(top, LaterNet(net, k), LaterRun(run, k)) == LaterNet(After(top, net, run), k)
    decreases |run|
  {
    if run != [] {
      StepLater(top, net, run[0], k);
      assert LaterRun(run, k)[1..] == LaterRun(run[1..], k);
      ClockOriginDoesNotMatter(top, if Enabled(net, run[0]) then Next(top, net, run[0]) else net, run[1..], k);
    }
  }
}

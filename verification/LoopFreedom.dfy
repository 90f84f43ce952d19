/** Loop freedom. For a set `A` of tracked addresses, in every run that loses, duplicates and
    reorders frames as it likes but deletes no entry for a tracked address, lets no intermediate
    node answer for one, and re-sends no foreign parked frame of one, the next hops towards a
    tracked address always improve and so always lead to it. */
module LoopFreedom {
  import opened Basics
  import opened Frames
  import opened OdrModel
  import opened Network

  /** The route is at least as good as (`bid`, `hops`): a later id, or the same id and no more hops. */
  predicate AtLeast(r: Route, bid: int, hops: int) {
    r.bid > bid || (r.bid == bid && r.hops <= hops)
  }

  /** The owner of `mac` is `s` itself or holds a route to `s` at least as good as (`bid`, `hops`). */
  ghost predicate Backed(top: Topology, nodes: map<Ip, Node>, s: Ip, mac: Mac, bid: int, hops: int) {
    var m := Owner(top, mac);
    m.Some? && (m.value == s ||
                (m.value in nodes && s in nodes[m.value].routes && AtLeast(nodes[m.value].routes[s], bid, hops)))
  }

  /** From every node, the next hop for `s` is `s` or holds a strictly better route to it. */
  ghost predicate RoutesImprove(top: Topology, nodes: map<Ip, Node>, s: Ip) {
    forall x :: x in nodes && s in nodes[x].routes ==>
      var r := nodes[x].routes[s];
      Backed(top, nodes, s, r.nextHop, r.bid, r.hops - 1)
  }

  /** Every frame from `s` was sent by a node whose route backs what the frame claims. */
  ghost predicate FramesBacked(top: Topology, nodes: map<Ip, Node>, flight: seq<Delivery>, s: Ip) {
    forall d :: d in flight && d.frame.src == s ==> Backed(top, nodes, s, d.mac, d.frame.bid, d.frame.hops)
  }

  predicate Addressed(f: Frame) {
    f.ftype == RREP || f.ftype == DATA
  }

  predicate Knows(nodes: map<Ip, Node>, x: Ip, s: Ip) {
    x == s || (x in nodes && s in nodes[x].routes)
  }

  /** Every reply and data frame for `s` is on its way to a node that can pass it on. */
  ghost predicate Deliverable(nodes: map<Ip, Node>, flight: seq<Delivery>, s: Ip) {
    forall d :: d in flight && Addressed(d.frame) && d.frame.dst == s ==> Knows(nodes, d.node, s)
  }

  /** A frame is parked under its destination, and one for a tracked address only at its originator. */
  ghost predicate ParkedAtHome(nodes: map<Ip, Node>, A: iset<Ip>) {
    forall x, p :: x in nodes && p in nodes[x].pending ==>
      p.key == p.frame.dst && (p.frame.dst in A ==> p.frame.src == x)
  }

  ghost predicate Inv(top: Topology, net: Net, A: iset<Ip>) {
    && Named(net)
    && (forall s :: s in A ==> RoutesImprove(top, net.nodes, s))
    && (forall s :: s in A ==> FramesBacked(top, net.nodes, net.flight, s))
    && (forall s :: s in A ==> Deliverable(net.nodes, net.flight, s))
    && ParkedAtHome(net.nodes, A)
  }

  // ---------- the steps a run must not take ----------

  /** This frame makes the node delete its entry for `s`. */
  predicate Deletes(n: Node, f: Frame, t: Clock, s: Ip) {
    && !Ignored(n, f)
    && s in n.routes
    && ((s == f.dst && (Expired(n.routes[s], t.destLookup, n.stale) || f.flag == 1)) ||
        (s == f.src && Expired(n.routes[s], t.srcLookup, n.stale)))
  }

  /** This frame makes the node answer a request in the name of `s`. */
  predicate AnswersFor(n: Node, f: Frame, s: Ip) {
    f.ftype == RREQ && f.dst == s && s != n.self && s in n.routes
  }

  ghost predicate TameReceive(n: Node, f: Frame, t: Clock, A: iset<Ip>) {
    && (forall s :: s in A && s != n.self ==> !Deletes(n, f, t, s))
    && (forall s :: s in A ==> !AnswersFor(n, f, s))
    && (f.ftype == RREP && f.dst == n.self && f.src !in A ==>
          var g := Unpark(n.pending, f.src).1;
          g.Some? && g.value.src in A ==> g.value.src == n.self)
  }

  ghost predicate TamePeer(n: Node, p: Params, now: int, A: iset<Ip>) {
    p.dst in A && p.dst in n.routes && p.dst != n.self ==> !Expired(n.routes[p.dst], now, n.stale) && p.flag != 1
  }

  ghost predicate Tame(net: Net, l: Label, A: iset<Ip>)
    requires Enabled(net, l)
  {
    match l
    case Receive(i, t) =>
      var d := net.flight[i];
      d.node in net.nodes ==> TameReceive(net.nodes[d.node], d.frame, t, A)
    case Peer(x, p, now) => TamePeer(net.nodes[x], p, now, A)
    case _ => true
  }

  ghost predicate TameRun(top: Topology, net: Net, run: seq<Label>, A: iset<Ip>)
    decreases |run|
  {
    run == [] ||
    (Enabled(net, run[0]) && Tame(net, run[0], A) && TameRun(top, Next(top, net, run[0]), run[1..], A))
  }

  // ---------- what one handler run does to the routes and what it sends ----------

  /** Routes to tracked addresses other than the node's own are only replaced by ones at least as good. */
  ghost predicate Keeps(n: Node, n': Node, A: iset<Ip>) {
    forall s :: s in A && s != n.self && s in n.routes ==>
      s in n'.routes && AtLeast(n'.routes[s], n.routes[s].bid, n.routes[s].hops)
  }

  /** A route that changed was learnt from the frame just received. */
  ghost predicate LearntFrom(n: Node, n': Node, f: Frame, mac: Mac) {
    forall s :: s in n'.routes && !(s in n.routes && n.routes[s] == n'.routes[s]) ==>
      s == f.src && n'.routes[s].nextHop == mac && n'.routes[s].bid == f.bid && n'.routes[s].hops == f.hops + 1
  }

  /** Who vouches for a frame this node sends: itself, or its route to the frame's source. */
  ghost predicate Vouched(n: Node, n': Node, g: Frame, A: iset<Ip>) {
    g.src in A ==> g.src == n.self || (g.src in n'.routes && AtLeast(n'.routes[g.src], g.bid, g.hops))
  }

  ghost predicate SentAlong(n': Node, s: Send, A: iset<Ip>) {
    Addressed(s.frame) && s.frame.dst in A ==>
      s.frame.dst in n'.routes && s == Via(n'.routes[s.frame.dst], s.frame)
  }

  ghost predicate GoodParking(n': Node, A: iset<Ip>) {
    forall p :: p in n'.pending ==> p.key == p.frame.dst && (p.frame.dst in A ==> p.frame.src == n'.self)
  }

  lemma UnparkFrom(pending: seq<Parked>, key: Ip)
    ensures var (rest, g) := Unpark(pending, key);
            && (forall p :: p in rest ==> p in pending)
            && (g.Some? ==> Parked(key, g.value) in pending)
  {
  }

  lemma FloodSends(ifs: seq<Interface>, except: int, g: Frame)
    ensures forall s :: s in Flood(ifs, except, g) ==> s.frame == g && s.to == Broadcast
  {
  }

  lemma IngestRoutes(n: Node, f: Frame, ifno: int, mac: Mac, t: Clock, A: iset<Ip>)
    requires TameReceive(n, f, t, A) && !Ignored(n, f)
    ensures var g := Ingest(n, f, ifno, mac, t);
            var n' := n.(routes := g.routes);
            && f.src in g.routes && AtLeast(g.routes[f.src], f.bid, f.hops + 1)
            && Keeps(n, n', A) && LearntFrom(n, n', f, mac)
            && (f.dst in A && f.dst != n.self && g.dest.Some? ==> f.dst in g.routes && g.dest.value == g.routes[f.dst])
            && (f.dst in A && f.dst != n.self && g.dest.None? ==> f.dst !in n.routes)
  {
  }

  lemma DispatchKeepsRoutes(n: Node, f: Frame, ifno: int, dest: Option<Route>, updated: bool)
    requires f.src in n.routes && RREQ <= f.ftype <= ASENT
    ensures var n' := Dispatch(n, f, ifno, dest, updated).node;
            n'.routes == n.routes && n'.self == n.self
  {
  }

  /** What the network proof needs to know about one handler run. */
  ghost predicate Sound(n: Node, o: Outcome, A: iset<Ip>) {
    && o.node.self == n.self
    && Keeps(n, o.node, A)
    && GoodParking(o.node, A)
    && forall s :: s in o.sends ==> Vouched(n, o.node, s.frame, A) && SentAlong(o.node, s, A)
  }

  lemma RreqSound(n: Node, f: Frame, ifno: int, dest: Option<Route>, updated: bool, A: iset<Ip>)
    requires f.src in n.routes && AtLeast(n.routes[f.src], f.bid, f.hops + 1)
    requires dest.Some? && f.dst != n.self ==> f.dst !in A
    ensures var o := OnRreq(n, f, ifno, dest, updated);
            forall s :: s in o.sends ==> Vouched(n, o.node, s.frame, A) && SentAlong(o.node, s, A)
  {
    FloodSends(n.ifs, ifno, Onward(f, ASENT));
    FloodSends(n.ifs, ifno, Onward(f, RREQ));
  }

  lemma RrepSound(n: Node, f: Frame, ifno: int, dest: Option<Route>, A: iset<Ip>)
    requires f.src in n.routes && AtLeast(n.routes[f.src], f.bid, f.hops + 1) && GoodParking(n, A)
    requires dest.Some? && f.dst in A && f.dst != n.self ==> f.dst in n.routes && dest.value == n.routes[f.dst]
    requires dest.None? && f.dst != n.self ==> f.dst !in A
    requires f.dst == n.self && f.src !in A ==>
               var g := Unpark(n.pending, f.src).1; g.Some? && g.value.src in A ==> g.value.src == n.self
    ensures var o := OnRrep(n, f, ifno, dest);
            GoodParking(o.node, A) && forall s :: s in o.sends ==>
                Vouched(n, o.node, s.frame, A) && SentAlong(o.node, s, A)
  {
    FloodSends(n.ifs, ifno, Request(n.bid + 1, 0, -1, f.dstPort, f.dst, n.self));
    UnparkFrom(n.pending, f.src);
  }

  lemma DataSound(n: Node, f: Frame, ifno: int, dest: Option<Route>, A: iset<Ip>)
    requires f.src in n.routes && AtLeast(n.routes[f.src], f.bid, f.hops + 1) && GoodParking(n, A)
    requires dest.Some? && f.dst in A && f.dst != n.self ==> f.dst in n.routes && dest.value == n.routes[f.dst]
    requires dest.None? && f.dst != n.self ==> f.dst !in A
    ensures var o := OnData(n, f, ifno, dest);
            GoodParking(o.node, A) && forall s :: s in o.sends ==>
                Vouched(n, o.node, s.frame, A) && SentAlong(o.node, s, A)
  {
    FloodSends(n.ifs, ifno, Request(n.bid + 1, 0, -1, f.dstPort, f.dst, n.self));
  }

  /** The switch, given that a reply or data frame only reaches nodes that know its destination. */
  lemma DispatchSound(n: Node, f: Frame, ifno: int, dest: Option<Route>, updated: bool, A: iset<Ip>)
    requires f.src in n.routes && AtLeast(n.routes[f.src], f.bid, f.hops + 1) && GoodParking(n, A)
    requires RREQ <= f.ftype <= ASENT
    requires f.ftype == RREQ && dest.Some? && f.dst != n.self ==> f.dst !in A
    requires Addressed(f) && f.dst != n.self && f.dst in A ==>
               dest.Some? && f.dst in n.routes && dest.value == n.routes[f.dst]
    requires f.ftype == RREP && f.dst == n.self && f.src !in A ==>
               var g := Unpark(n.pending, f.src).1; g.Some? && g.value.src in A ==> g.value.src == n.self
    ensures var o := Dispatch(n, f, ifno, dest, updated);
            GoodParking(o.node, A) && forall s :: s in o.sends ==>
                Vouched(n, o.node, s.frame, A) && SentAlong(o.node, s, A)
  {
    if f.ftype == RREQ {
      RreqSound(n, f, ifno, dest, updated, A);
    } else if f.ftype == RREP {
      RrepSound(n, f, ifno, dest, A);
    } else if f.ftype == DATA {
      DataSound(n, f, ifno, dest, A);
    } else {
      FloodSends(n.ifs, ifno, Onward(f, ASENT));
    }
  }

  lemma ReceiveSound(n: Node, f: Frame, ifno: int, mac: Mac, t: Clock, A: iset<Ip>)
    requires TameReceive(n, f, t, A) && GoodParking(n, A)
    requires Addressed(f) && f.dst in A ==> f.dst == n.self || f.dst in n.routes
    ensures var o := HandleEthernet(n, f, ifno, mac, t);
            Sound(n, o, A) && LearntFrom(n, o.node, f, mac)
  {
    if !Ignored(n, f) && RREQ <= f.ftype <= ASENT {
      IngestRoutes(n, f, ifno, mac, t, A);
      var g := Ingest(n, f, ifno, mac, t);
      var m := n.(routes := g.routes);
      assert f.dst in A ==> !AnswersFor(n, f, f.dst);
      assert g.dest.Some? ==> f.dst in n.routes;
      DispatchKeepsRoutes(m, f, ifno, g.dest, g.updated);
      DispatchSound(m, f, ifno, g.dest, g.updated, A);
      SoundInTwoParts(n, m, Dispatch(m, f, ifno, g.dest, g.updated), f, mac, A);
    }
  }

  lemma SoundInTwoParts(n: Node, m: Node, o: Outcome, f: Frame, mac: Mac, A: iset<Ip>)
    requires m == n.(routes := m.routes) && Keeps(n, m, A) && LearntFrom(n, m, f, mac)
    requires o.node.routes == m.routes && o.node.self == m.self && GoodParking(o.node, A)
    requires forall s :: s in o.sends ==> Vouched(m, o.node, s.frame, A) && SentAlong(o.node, s, A)
    ensures Sound(n, o, A) && LearntFrom(n, o.node, f, mac)
  {
  }

  lemma PeerSound(n: Node, p: Params, now: int, A: iset<Ip>)
    requires TamePeer(n, p, now, A) && GoodParking(n, A)
    ensures var o := HandlePeer(n, p, now);
            Sound(n, o, A) && forall s :: s in o.node.routes ==> s in n.routes && n.routes[s] == o.node.routes[s]
  {
    if n.ports != [] && p.dst != n.self {
      var (ports, nextPort, port) := Register(n.ports, n.nextPort, p.path);
      var n1 := n.(ports := ports, nextPort := nextPort);
      var (routes, dest) := Lookup(n.routes, p.dst, p.flag, now, n.stale);
      if dest.None? {
        SearchSound(n1.(routes := routes), p, port, A);
        assert HandlePeer(n, p, now) == SearchFor(n1.(routes := routes), p, port);
      }
    }
  }

  lemma SearchSound(n: Node, p: Params, port: int, A: iset<Ip>)
    requires GoodParking(n, A)
    ensures Sound(n, SearchFor(n, p, port), A)
  {
    FloodSends(n.ifs, -1, Request(n.bid + 1, p.flag, port, p.dstPort, p.dst, n.self));
  }

  // ---------- the network step ----------

  /** Frames put in flight by a sound handler run are backed by its node and reach nodes that know the destination. */
  lemma SentFramesGood(top: Topology, nodes': map<Ip, Node>, who: Ip, n: Node, o: Outcome, A: iset<Ip>, s: Ip)
    requires Wired(top) && Sound(n, o, A) && n.self == who && who in nodes' && nodes'[who] == o.node && s in A
    requires RoutesImprove(top, nodes', s)
    ensures FramesBacked(top, nodes', Transmit(top, who, o.sends), s)
    ensures Deliverable(nodes', Transmit(top, who, o.sends), s)
  {
    forall d | d in Transmit(top, who, o.sends) && d.frame.src == s
      ensures Backed(top, nodes', s, d.mac, d.frame.bid, d.frame.hops)
    {
      var snd, p, q := TransmitSound(top, who, o.sends, d);
      OwnerOf(top, p);
    }
    forall d | d in Transmit(top, who, o.sends) && Addressed(d.frame) && d.frame.dst == s
      ensures Knows(nodes', d.node, s)
    {
      var snd, p, q := TransmitSound(top, who, o.sends, d);
      OwnerOf(top, q);
      assert SentAlong(o.node, snd, A);
    }
  }

  /** The routes still improve after a handler run at `who`. */
  lemma RoutesStillImprove(top: Topology, nodes: map<Ip, Node>, who: Ip, o: Outcome, A: iset<Ip>, s: Ip)
    requires forall x :: x in nodes ==> nodes[x].self == x
    requires who in nodes && s in A && Sound(nodes[who], o, A) && RoutesImprove(top, nodes, s)
    requires s in o.node.routes && !(s in nodes[who].routes && nodes[who].routes[s] == o.node.routes[s]) ==>
               Backed(top, nodes, s, o.node.routes[s].nextHop, o.node.routes[s].bid, o.node.routes[s].hops - 1)
    ensures RoutesImprove(top, nodes[who := o.node], s)
  {
  }

  lemma OldFramesGood(top: Topology, net: Net, l: Label, nodes': map<Ip, Node>, A: iset<Ip>, s: Ip)
    requires Enabled(net, l) && s in A
    requires FramesBacked(top, net.nodes, net.flight, s) && Deliverable(net.nodes, net.flight, s)
    requires forall x :: x in net.nodes ==> x in nodes' && net.nodes[x].self == x && Keeps(net.nodes[x], nodes'[x], A)
    ensures FramesBacked(top, nodes', Remaining(net, l), s) && Deliverable(nodes', Remaining(net, l), s)
  {
  }

  /** Every tame step keeps the invariant. */
  lemma StepKeepsInv(top: Topology, net: Net, l: Label, A: iset<Ip>)
    requires Wired(top) && Inv(top, net, A) && Enabled(net, l) && Tame(net, l, A)
    ensures Inv(top, Next(top, net, l), A)
  {
    KeepsNames(top, net, l);
    var a := Acting(net, l);
    if a.None? {
      forall s | s in A
        ensures FramesBacked(top, net.nodes, Remaining(net, l), s) && Deliverable(net.nodes, Remaining(net, l), s)
      {
        OldFramesGood(top, net, l, net.nodes, A, s);
      }
    } else {
      var (who, o) := a.value;
      HandlerSound(top, net, l, A);
      var nodes' := net.nodes[who := o.node];
      forall s | s in A
        ensures RoutesImprove(top, nodes', s)
        ensures FramesBacked(top, nodes', Remaining(net, l) + Transmit(top, who, o.sends), s)
        ensures Deliverable(nodes', Remaining(net, l) + Transmit(top, who, o.sends), s)
      {
        RoutesStillImprove(top, net.nodes, who, o, A, s);
        OldFramesGood(top, net, l, nodes', A, s);
        SentFramesGood(top, nodes', who, net.nodes[who], o, A, s);
      }
    }
  }

  /** Either handler, run in a state that meets the invariant, is sound, and a changed route is backed. */
  lemma HandlerSound(top: Topology, net: Net, l: Label, A: iset<Ip>)
    requires Inv(top, net, A) && Enabled(net, l) && Tame(net, l, A) && Acting(net, l).Some?
    ensures var (who, o) := Acting(net, l).value;
            && who in net.nodes && Sound(net.nodes[who], o, A)
            && forall s :: s in A && s in o.node.routes
                           && !(s in net.nodes[who].routes && net.nodes[who].routes[s] == o.node.routes[s]) ==>
                 Backed(top, net.nodes, s, o.node.routes[s].nextHop, o.node.routes[s].bid, o.node.routes[s].hops - 1)
  {
    var (who, o) := Acting(net, l).value;
    var n := net.nodes[who];
    assert GoodParking(n, A);
    match l
    case Receive(i, t) =>
      var d := net.flight[i];
      assert d in net.flight;
      assert d.frame.dst in A ==> Deliverable(net.nodes, net.flight, d.frame.dst);
      assert d.frame.src in A ==> FramesBacked(top, net.nodes, net.flight, d.frame.src);
      ReceiveSound(n, d.frame, d.index, d.mac, t, A);
    case Peer(x, p, now) =>
      PeerSound(n, p, now, A);
  }

  // ---------- whole runs ----------

  lemma {:induction false} RunKeepsInv(top: Topology, net: Net, run: seq<Label>, A: iset<Ip>)
    requires Wired(top) && Inv(top, net, A) && TameRun(top, net, run, A)
    ensures Inv(top, After(top, net, run), A)
    decreases |run|
  {
    if run != [] {
      StepKeepsInv(top, net, run[0], A);
      RunKeepsInv(top, Next(top, net, run[0]), run[1..], A);
    }
  }

  /** The neighbour that `x` hands a frame for `s` to. */
  function NextHop(top: Topology, nodes: map<Ip, Node>, x: Ip, s: Ip): Option<Ip> {
    if x in nodes && s in nodes[x].routes then Owner(top, nodes[x].routes[s].nextHop) else None
  }

  /** Where a frame for `s` is after `k` hand-overs from `x`. */
  function Follow(top: Topology, nodes: map<Ip, Node>, x: Ip, s: Ip, k: nat): Option<Ip>
    decreases k
  {
    if k == 0 then Some(x)
    else
      var y := NextHop(top, nodes, x, s);
      if y.None? then None else Follow(top, nodes, y.value, s, k - 1)
  }

  /** Next hops that always improve reach `s`, without visiting a node twice. */
  lemma {:induction false} ImprovingRoutesArrive(top: Topology, nodes: map<Ip, Node>, x: Ip, s: Ip, visited: set<Ip>)
      returns (k: nat)
    requires RoutesImprove(top, nodes, s) && x in nodes && s in nodes[x].routes
    requires visited <= nodes.Keys
    requires forall v :: v in visited ==>
               s in nodes[v].routes && AtLeast(nodes[x].routes[s], nodes[v].routes[s].bid, nodes[v].routes[s].hops - 1)
    ensures 1 <= k <= |nodes.Keys - visited| && Follow(top, nodes, x, s, k) == Some(s)
    decreases |nodes.Keys - visited|
  {
    assert x !in visited;
    var left := nodes.Keys - visited;
    assert nodes.Keys - (visited + {x}) == left - {x} && x in left;
    var y := NextHop(top, nodes, x, s).value;
    if y == s {
      k := 1;
      assert Follow(top, nodes, y, s, 0) == Some(s);
    } else {
      var k' := ImprovingRoutesArrive(top, nodes, y, s, visited + {x});
      k := k' + 1;
      assert Follow(top, nodes, x, s, k) == Follow(top, nodes, y, s, k');
    }
  }

  lemma InitialInv(top: Topology, net: Net, A: iset<Ip>)
    requires Initial(net)
    ensures Inv(top, net, A)
  {
  }

  /** Loop freedom: after every tame run, from every node with a route to a tracked address, following
      next hops arrives there within as many hand-overs as there are nodes. */
  lemma LoopFree(top: Topology, net: Net, run: seq<Label>, A: iset<Ip>, x: Ip, s: Ip) returns (k: nat)
    requires Wired(top) && Initial(net) && TameRun(top, net, run, A) && s in A
    requires var nodes := After(top, net, run).nodes; x in nodes && s in nodes[x].routes
    ensures var nodes := After(top, net, run).nodes;
            1 <= k <= |nodes| && Follow(top, nodes, x, s, k) == Some(s)
  {
    InitialInv(top, net, A);
    RunKeepsInv(top, net, run, A);
    var nodes := After(top, net, run).nodes;
    k := ImprovingRoutesArrive(top, nodes, x, s, {});
    assert nodes.Keys - {} == nodes.Keys;
  }

  /** In such a run a reply or data frame for a tracked address is only ever parked by the node it came from. */
  lemma NeverParkedOnTheWay(top: Topology, net: Net, run: seq<Label>, A: iset<Ip>, x: Ip, p: Parked)
    requires Wired(top) && Initial(net) && TameRun(top, net, run, A)
    requires var nodes := After(top, net, run).nodes; x in nodes && p in nodes[x].pending
    ensures p.key == p.frame.dst
    ensures p.frame.dst in A ==> p.frame.src == x
  {
    InitialInv(top, net, A);
    RunKeepsInv(top, net, run, A);
  }
}

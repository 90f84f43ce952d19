/** End-to-end delivery. A client at `s` asks for `D`, which can be reached, and a flood begins. Take any run that
    loses no frame of it, nor a reply or message between the two, deletes no entry for either, lets no other node
    answer for either, and in which `s` is the source of no other frame with the flood's id or a later one. Then
    the message has been handed to the process at `D` once all of that is quiet. The last condition is needed: with
    a second search at `s` the message can be stranded. */
module EndToEnd {
  import opened Basics
  import opened Frames
  import opened OdrModel
  import opened Network
  import opened LoopFreedom
  import opened ShortestHop
  import DataIntegrity

  /** What the client asked for: the flood it starts, and the message with its ports. */
  datatype Order = Order(z: Quest, srcPort: int, dstPort: int, msg: string)

  ghost function Ends(z: Quest): iset<Ip> {
    iset{z.s, z.D}
  }

  /** A data frame with the message. */
  predicate Bears(f: Frame, o: Order) {
    && f.ftype == DATA && f.flag == 0 && f.src == o.z.s && f.dst == o.z.D
    && f.srcPort == o.srcPort && f.dstPort == o.dstPort && f.payload == o.msg
  }

  /** A reply of `D` to `s`. */
  predicate Answer(f: Frame, z: Quest) {
    f.ftype == RREP && f.flag == 0 && f.src == z.D && f.dst == z.s
  }

  // ---------- routes lead somewhere ----------

  /** Interface `ifno` of `x` faces the one with hardware address `mac`. */
  ghost predicate Faces(top: Topology, x: Ip, ifno: int, mac: Mac) {
    exists p, q :: p in top && q in top && Joined(p, q) && p.node == x && p.index == ifno && q.mac == mac
  }

  /** In every run: frames come from the interface across, replies are unflagged, and routes lead across too. */
  ghost predicate Plugged(top: Topology, net: Net) {
    && (forall d :: d in net.flight ==> Faces(top, d.node, d.index, d.mac))
    && (forall d :: d in net.flight && d.frame.ftype == RREP ==> d.frame.flag == 0)
    && forall x, y :: x in net.nodes && y in net.nodes[x].routes ==>
         Faces(top, x, net.nodes[x].routes[y].ifno, net.nodes[x].routes[y].nextHop)
  }

  /** A route is old or was made from the frame just received. */
  lemma RouteOrigin(n: Node, f: Frame, ifno: int, mac: Mac, t: Clock, y: Ip)
    requires y in HandleEthernet(n, f, ifno, mac, t).node.routes
    ensures var r := HandleEthernet(n, f, ifno, mac, t).node.routes[y];
            (y in n.routes && r == n.routes[y]) || (y == f.src && r == RouteOf(f, ifno, mac, t.write))
  {
  }

  lemma PeerRouteOrigin(n: Node, p: Params, now: int, y: Ip)
    requires y in HandlePeer(n, p, now).node.routes
    ensures y in n.routes && HandlePeer(n, p, now).node.routes[y] == n.routes[y]
  {
  }

  lemma RepliesUnflagged(n: Node, f: Frame, ifno: int, mac: Mac, t: Clock, s: Send)
    requires s in HandleEthernet(n, f, ifno, mac, t).sends && s.frame.ftype == RREP
    ensures s.frame.flag == 0
  {
    FloodSends(n.ifs, ifno, Onward(f, ASENT));
    FloodSends(n.ifs, ifno, Onward(f, RREQ));
    FloodSends(n.ifs, ifno, Request(n.bid + 1, 0, -1, f.dstPort, f.dst, n.self));
  }

  lemma PeerSendsNoReply(n: Node, p: Params, now: int, s: Send)
    requires s in HandlePeer(n, p, now).sends
    ensures s.frame.ftype != RREP
  {
    var port := Register(n.ports, n.nextPort, p.path).2;
    FloodSends(n.ifs, -1, Request(n.bid + 1, p.flag, port, p.dstPort, p.dst, n.self));
  }

  lemma StepKeepsPlugged(top: Topology, net: Net, l: Label)
    requires Plugged(top, net) && Enabled(net, l)
    ensures Plugged(top, Next(top, net, l))
  {
    var net' := Next(top, net, l);
    forall d | d in net'.flight
      ensures Faces(top, d.node, d.index, d.mac) && (d.frame.ftype == RREP ==> d.frame.flag == 0)
    {
      if d in Remaining(net, l) {
        StillThere(net, l, d);
      } else {
        NewIsPlugged(top, net, l, d);
      }
    }
    forall x, y | x in net'.nodes && y in net'.nodes[x].routes
      ensures Faces(top, x, net'.nodes[x].routes[y].ifno, net'.nodes[x].routes[y].nextHop)
    {
      RouteStaysPlugged(top, net, l, x, y);
    }
  }

  lemma NewIsPlugged(top: Topology, net: Net, l: Label, d: Delivery)
    requires Enabled(net, l) && Acting(net, l).Some?
    requires var (who, o) := Acting(net, l).value; d in Transmit(top, who, o.sends)
    ensures Faces(top, d.node, d.index, d.mac) && (d.frame.ftype == RREP ==> d.frame.flag == 0)
  {
    var (who, o) := Acting(net, l).value;
    var s, p, q := TransmitSound(top, who, o.sends, d);
    assert Joined(q, p);
    if d.frame.ftype == RREP {
      if l.Receive? {
        var e := net.flight[l.i];
        RepliesUnflagged(net.nodes[who], e.frame, e.index, e.mac, l.t, s);
      } else {
        PeerSendsNoReply(net.nodes[who], l.params, l.now, s);
      }
    }
  }

  lemma RouteStaysPlugged(top: Topology, net: Net, l: Label, x: Ip, y: Ip)
    requires Plugged(top, net) && Enabled(net, l)
    requires var nodes := Next(top, net, l).nodes; x in nodes && y in nodes[x].routes
    ensures var r := Next(top, net, l).nodes[x].routes[y]; Faces(top, x, r.ifno, r.nextHop)
  {
    var a := Acting(net, l);
    if a.Some? && a.value.0 == x {
      if l.Receive? {
        var d := net.flight[l.i];
        assert d in net.flight;
        RouteOrigin(net.nodes[x], d.frame, d.index, d.mac, l.t, y);
      } else {
        PeerRouteOrigin(net.nodes[x], l.params, l.now, y);
      }
    }
  }

  lemma {:induction false} RunKeepsPlugged(top: Topology, net: Net, run: seq<Label>)
    requires Plugged(top, net)
    ensures Plugged(top, After(top, net, run))
    decreases |run|
  {
    if run != [] {
      if Enabled(net, run[0]) {
        StepKeepsPlugged(top, net, run[0]);
        RunKeepsPlugged(top, Next(top, net, run[0]), run[1..]);
      } else {
        RunKeepsPlugged(top, net, run[1..]);
      }
    }
  }

  /** What is sent along a route is in flight after the step. */
  lemma SentIsInFlight(top: Topology, net: Net, l: Label, who: Ip, o: Outcome, y: Ip, f: Frame) returns (d: Delivery)
    requires Wired(top) && Enabled(net, l) && Acting(net, l) == Some((who, o)) && Plugged(top, Next(top, net, l))
    requires y in o.node.routes && Via(o.node.routes[y], f) in o.sends
    ensures d in Next(top, net, l).flight && d.frame == f
  {
    var r := o.node.routes[y];
    assert Next(top, net, l).nodes[who] == o.node;
    assert Faces(top, who, r.ifno, r.nextHop);
    var p, q :| p in top && q in top && Joined(p, q) && p.node == who && p.index == r.ifno && q.mac == r.nextHop;
    d := Delivery(q.node, q.index, p.mac, f);
    TransmitComplete(top, who, o.sends, Via(r, f), d, p, q);
  }

  // ---------- what handlers do with the three kinds of frames ----------

  /** A reply is passed on along the route to its destination. */
  lemma PassesReply(n: Node, f: Frame, ifno: int, mac: Mac, t: Clock, A: iset<Ip>) returns (h: int)
    requires TameReceive(n, f, t, A) && f.ftype == RREP && f.flag == 0
    requires f.dst in A && f.dst != n.self && f.dst in n.routes
    ensures var o := HandleEthernet(n, f, ifno, mac, t);
            f.dst in o.node.routes && Via(o.node.routes[f.dst], Forwarded(f, h)) in o.sends
  {
    IngestRoutes(n, f, ifno, mac, t, A);
    h := Ingest(n, f, ifno, mac, t).routes[f.src].hops;
  }

  /** So is a data frame. */
  lemma PassesData(n: Node, f: Frame, ifno: int, mac: Mac, t: Clock, A: iset<Ip>) returns (h: int)
    requires TameReceive(n, f, t, A) && f.ftype == DATA && f.flag == 0
    requires f.dst in A && f.dst != n.self && f.dst in n.routes
    ensures var o := HandleEthernet(n, f, ifno, mac, t);
            f.dst in o.node.routes && Via(o.node.routes[f.dst], f.(hops := h)) in o.sends
  {
    IngestRoutes(n, f, ifno, mac, t, A);
    h := Ingest(n, f, ifno, mac, t).routes[f.src].hops;
  }

  /** The destination of a request replies along its route to the source. */
  lemma RepliesAtOnce(n: Node, f: Frame, ifno: int, mac: Mac, t: Clock) returns (b: int)
    requires f.ftype == RREQ && f.flag != 1 && f.dst == n.self
    ensures var o := HandleEthernet(n, f, ifno, mac, t);
            f.src in o.node.routes && Via(o.node.routes[f.src], Reply(f, b, 0)) in o.sends
  {
    b := n.bid + 1;
  }

  /** A reply for this node releases the data frame parked last for the node it came from. */
  lemma ReleasesParked(n: Node, f: Frame, ifno: int, mac: Mac, t: Clock, g: Frame)
    requires f.ftype == RREP && f.flag == 0 && f.dst == n.self && Unpark(n.pending, f.src).1 == Some(g)
             && g.ftype == DATA
    ensures var o := HandleEthernet(n, f, ifno, mac, t);
            f.src in o.node.routes && Via(o.node.routes[f.src], g) in o.sends
  {
  }

  lemma HandsOver(n: Node, f: Frame, ifno: int, mac: Mac, t: Clock, path: string)
    requires f.ftype == DATA && f.flag == 0 && f.dst == n.self && PathOf(n.ports, f.dstPort) == Some(path)
    ensures PeerMsg(path, f.src, f.srcPort, f.payload) in HandleEthernet(n, f, ifno, mac, t).peers
  {
  }

  // ---------- the message that waits at `s` ----------

  /** The frame that a reply from `key` would release. */
  function Ready(pending: seq<Parked>, key: Ip): Option<Frame> {
    Unpark(pending, key).1
  }

  lemma FirstOrLater(p: Parked, rest: seq<Parked>, key: Ip)
    ensures Ready([p] + rest, key) == if p.key == key then Some(p.frame) else Ready(rest, key)
  {
  }

  lemma ParkingElsewhere(pending: seq<Parked>, key: Ip, other: Ip, f: Frame)
    requires other != key
    ensures Ready(Park(pending, other, f), key) == Ready(pending, key)
  {
  }

  lemma Peeled(pending: seq<Parked>, i: nat)
    requires 0 < i < |pending|
    ensures var tail := pending[1..];
            && pending == [pending[0]] + tail
            && pending[..i] + pending[i + 1..] == [pending[0]] + (tail[..i - 1] + tail[i..])
  {
  }

  lemma {:induction false} TakingElsewhere(pending: seq<Parked>, key: Ip, i: nat)
    requires i < |pending| && pending[i].key != key
    ensures Ready(pending[..i] + pending[i + 1..], key) == Ready(pending, key)
  {
    var rest := pending[..i] + pending[i + 1..];
    if i == 0 {
      assert rest == pending[1..];
    } else {
      var tail := pending[1..];
      Peeled(pending, i);
      FirstOrLater(pending[0], tail, key);
      FirstOrLater(pending[0], tail[..i - 1] + tail[i..], key);
      if pending[0].key != key {
        TakingElsewhere(tail, key, i - 1);
      }
    }
  }

  lemma ReleasingElsewhere(pending: seq<Parked>, key: Ip, other: Ip)
    requires other != key
    ensures Ready(Unpark(pending, other).0, key) == Ready(pending, key)
  {
    var i := FirstParked(pending, other);
    if i < |pending| {
      TakingElsewhere(pending, key, i);
    }
  }

  /** What a handler run does to the queue. */
  lemma PendingAfter(n: Node, f: Frame, ifno: int, dest: Option<Route>, updated: bool)
    requires f.src in n.routes && RREQ <= f.ftype <= ASENT
    ensures Dispatch(n, f, ifno, dest, updated).node.pending ==
            if f.ftype == RREP && f.dst == n.self then Unpark(n.pending, f.src).0
            else if Addressed(f) && f.dst != n.self && dest.None? then Park(n.pending, f.dst, f)
            else n.pending
  {
  }

  /** Receiving anything but a reply from `D` leaves it waiting. */
  lemma KeepsWaiting(n: Node, f: Frame, ifno: int, mac: Mac, t: Clock, A: iset<Ip>, D: Ip)
    requires TameReceive(n, f, t, A) && D in A && D != n.self
    requires Addressed(f) && f.dst == D ==> D in n.routes
    requires !(f.ftype == RREP && f.dst == n.self && f.src == D)
    ensures Ready(HandleEthernet(n, f, ifno, mac, t).node.pending, D) == Ready(n.pending, D)
  {
    if !Ignored(n, f) && RREQ <= f.ftype <= ASENT {
      IngestRoutes(n, f, ifno, mac, t, A);
      var g := Ingest(n, f, ifno, mac, t);
      PendingAfter(n.(routes := g.routes), f, ifno, g.dest, g.updated);
      if f.ftype == RREP && f.dst == n.self {
        ReleasingElsewhere(n.pending, D, f.src);
      } else if Addressed(f) && f.dst != n.self && g.dest.None? {
        ParkingElsewhere(n.pending, D, f.dst, f);
      }
    }
  }

  lemma PeerKeepsWaiting(n: Node, p: Params, now: int, D: Ip)
    requires p.dst != D
    ensures Ready(HandlePeer(n, p, now).node.pending, D) == Ready(n.pending, D)
  {
  }

  // ---------- ports ----------

  lemma {:induction false} PathOfIff(ports: seq<PortEntry>, port: int)
    ensures PathOf(ports, port).Some? <==> exists e :: e in ports && e.port == port
  {
    if ports != [] {
      PathOfIff(ports[1..], port);
      assert ports == [ports[0]] + ports[1..];
    }
  }

  lemma PortsStay(top: Topology, net: Net, l: Label, x: Ip, port: int)
    requires Enabled(net, l) && x in net.nodes && PathOf(net.nodes[x].ports, port).Some?
    ensures x in Next(top, net, l).nodes && PathOf(Next(top, net, l).nodes[x].ports, port).Some?
  {
    PathOfIff(net.nodes[x].ports, port);
    PathOfIff(Next(top, net, l).nodes[x].ports, port);
    DataIntegrity.NodesGrow(top, net, l);
  }

  // ---------- the stages of a delivery ----------

  predicate Recorded(net: Net, z: Quest) {
    z.D in net.nodes && z.s in net.nodes[z.D].routes && net.nodes[z.D].routes[z.s].bid == z.b
  }

  predicate Waiting(net: Net, o: Order) {
    && o.z.s in net.nodes
    && var f := Ready(net.nodes[o.z.s].pending, o.z.D);
    f.Some? && Bears(f.value, o)
  }

  /** The message waits while `D` has not recorded the flood or its reply is on the way, or it is itself on the way. */
  ghost predicate UnderWay(net: Net, o: Order) {
    || (Waiting(net, o) && !Recorded(net, o.z))
    || (Waiting(net, o) && exists d :: d in net.flight && Answer(d.frame, o.z))
    || exists d :: d in net.flight && Bears(d.frame, o)
  }

  /** The flood consists of requests. */
  ghost predicate OnlyRequests(net: Net, z: Quest) {
    forall d :: d in net.flight && Ours(d.frame, z) ==> d.frame.ftype == RREQ
  }

  ghost predicate Inv(top: Topology, ifs: Ifs, net: Net, o: Order) {
    && LoopFreedom.Inv(top, net, Ends(o.z)) && ShortestHop.Inv(top, ifs, net, o.z) && Plugged(top, net)
    && OnlyRequests(net, o.z)
    && o.z.D in net.nodes && PathOf(net.nodes[o.z.D].ports, o.dstPort).Some?
  }

  /** No answer and no copy of the message is lost, and no other client at `s` asks for `D` meanwhile. */
  predicate Serves(net: Net, l: Label, o: Order)
    requires Enabled(net, l)
  {
    match l
    case Lose(i) => !Answer(net.flight[i].frame, o.z) && !Bears(net.flight[i].frame, o)
    case Peer(x, p, _) => !(x == o.z.s && p.dst == o.z.D)
    case _ => true
  }

  ghost predicate Careful(net: Net, l: Label, o: Order)
    requires Enabled(net, l)
  {
    Tame(net, l, Ends(o.z)) && Calm(net, l, o.z) && Serves(net, l, o)
  }

  /** This step hands the message to the process on its port at `D`. */
  predicate Delivers(net: Net, l: Label, o: Order)
    requires Enabled(net, l)
  {
    var a := Acting(net, l);
    && a.Some? && a.value.0 == o.z.D && o.z.D in net.nodes
    && var path := PathOf(net.nodes[o.z.D].ports, o.dstPort);
    path.Some? && PeerMsg(path.value, o.z.s, o.srcPort, o.msg) in a.value.1.peers
  }

  // ---------- every careful step keeps the invariant ----------

  /** Where no other node answers for `D`, forwarding the flood sends requests only. */
  lemma FloodStaysRequest(n: Node, f: Frame, ifno: int, mac: Mac, t: Clock, z: Quest, s: Send)
    requires TameReceive(n, f, t, Ends(z)) && OfQuest(f, z) && f.ftype == RREQ && z.s != z.D
    requires s in HandleEthernet(n, f, ifno, mac, t).sends && Ours(s.frame, z)
    ensures s.frame.ftype == RREQ
  {
    assert !AnswersFor(n, f, z.D);
    FloodSends(n.ifs, ifno, Onward(f, RREQ));
  }

  lemma RequestsOnly(top: Topology, ifs: Ifs, net: Net, l: Label, o: Order)
    requires Inv(top, ifs, net, o) && Enabled(net, l) && Careful(net, l, o)
    ensures OnlyRequests(Next(top, net, l), o.z)
  {
    forall d | d in Next(top, net, l).flight && Ours(d.frame, o.z)
      ensures d.frame.ftype == RREQ
    {
      if d in Remaining(net, l) {
        StillThere(net, l, d);
      } else {
        var (who, out) := Acting(net, l).value;
        var s, p, q := TransmitSound(top, who, out.sends, d);
        if l.Receive? && Ours(net.flight[l.i].frame, o.z) {
          var e := net.flight[l.i];
          assert e in net.flight;
          FloodStaysRequest(net.nodes[who], e.frame, e.index, e.mac, l.t, o.z, s);
        }
      }
    }
  }

  lemma StepKeepsInv(top: Topology, ifs: Ifs, net: Net, l: Label, o: Order)
    requires Wired(top) && Inv(top, ifs, net, o) && Enabled(net, l) && Careful(net, l, o)
    ensures Inv(top, ifs, Next(top, net, l), o)
  {
    LoopFreedom.StepKeepsInv(top, net, l, Ends(o.z));
    if l.Receive? && Ours(net.flight[l.i].frame, o.z) {
      FloodStep(top, ifs, net, l, o.z);
    } else {
      QuietStep(top, ifs, net, l, o.z);
    }
    StepKeepsPlugged(top, net, l);
    RequestsOnly(top, ifs, net, l, o);
    PortsStay(top, net, l, o.z.D, o.dstPort);
  }

  // ---------- and brings the message nearer or hands it over ----------

  /** Every frame in flight is received by a process that is up. */
  lemma Received(top: Topology, ifs: Ifs, net: Net, l: Label)
    requires Static(top, ifs, net) && Plugged(top, net) && Enabled(net, l) && l.Receive?
    ensures var d := net.flight[l.i];
            && d.node in net.nodes && net.nodes[d.node].self == d.node
            && Acting(net, l) == Some((d.node, HandleEthernet(net.nodes[d.node], d.frame, d.index, d.mac, l.t)))
  {
  }

  lemma Remains(net: Net, l: Label, d: Delivery)
    requires Enabled(net, l) && d in net.flight && (l.Receive? || l.Lose? ==> net.flight[l.i] != d)
    ensures d in Remaining(net, l)
  {
  }

  /** A copy of the message that is received is passed on, or handed over at `D`. */
  lemma CarriedOn(top: Topology, ifs: Ifs, net: Net, l: Label, o: Order)
    requires Wired(top) && Inv(top, ifs, net, o) && Enabled(net, l) && Careful(net, l, o)
    requires l.Receive? && Bears(net.flight[l.i].frame, o)
    ensures Delivers(net, l, o) || exists d :: d in Next(top, net, l).flight && Bears(d.frame, o)
  {
    var e := net.flight[l.i];
    assert e in net.flight;
    Received(top, ifs, net, l);
    var n := net.nodes[e.node];
    if e.node == o.z.D {
      HandsOver(n, e.frame, e.index, e.mac, l.t, PathOf(n.ports, o.dstPort).value);
    } else {
      assert Deliverable(net.nodes, net.flight, o.z.D);
      var h := PassesData(n, e.frame, e.index, e.mac, l.t, Ends(o.z));
      StepKeepsPlugged(top, net, l);
      var d := SentIsInFlight(top, net, l, e.node, Acting(net, l).value.1, o.z.D, e.frame.(hops := h));
    }
  }

  /** An answer that is received on the way is passed on. */
  lemma AnswerPassedOn(top: Topology, ifs: Ifs, net: Net, l: Label, o: Order)
    requires Wired(top) && Inv(top, ifs, net, o) && Enabled(net, l) && Careful(net, l, o)
    requires l.Receive? && Answer(net.flight[l.i].frame, o.z) && net.flight[l.i].node != o.z.s
    ensures exists d :: d in Next(top, net, l).flight && Answer(d.frame, o.z)
  {
    var e := net.flight[l.i];
    assert e in net.flight;
    Received(top, ifs, net, l);
    assert Deliverable(net.nodes, net.flight, o.z.s);
    var h := PassesReply(net.nodes[e.node], e.frame, e.index, e.mac, l.t, Ends(o.z));
    StepKeepsPlugged(top, net, l);
    var d := SentIsInFlight(top, net, l, e.node, Acting(net, l).value.1, o.z.s, Forwarded(e.frame, h));
    assert Answer(d.frame, o.z);
  }

  /** An answer that reaches `s` sends the message on its way. */
  lemma AnswerReleases(top: Topology, ifs: Ifs, net: Net, l: Label, o: Order)
    requires Wired(top) && Inv(top, ifs, net, o) && Enabled(net, l) && Careful(net, l, o) && Waiting(net, o)
    requires l.Receive? && Answer(net.flight[l.i].frame, o.z) && net.flight[l.i].node == o.z.s
    ensures exists d :: d in Next(top, net, l).flight && Bears(d.frame, o)
  {
    var e := net.flight[l.i];
    Received(top, ifs, net, l);
    var n := net.nodes[o.z.s];
    var g := Ready(n.pending, o.z.D).value;
    ReleasesParked(n, e.frame, e.index, e.mac, l.t, g);
    StepKeepsPlugged(top, net, l);
    var d := SentIsInFlight(top, net, l, o.z.s, Acting(net, l).value.1, o.z.D, g);
  }

  /** Otherwise the message goes on waiting. */
  lemma StillWaiting(top: Topology, ifs: Ifs, net: Net, l: Label, o: Order)
    requires Inv(top, ifs, net, o) && Enabled(net, l) && Careful(net, l, o) && Waiting(net, o)
    requires !(l.Receive? && Answer(net.flight[l.i].frame, o.z) && net.flight[l.i].node == o.z.s)
    ensures Waiting(Next(top, net, l), o)
  {
    var a := Acting(net, l);
    if a.Some? && a.value.0 == o.z.s {
      var n := net.nodes[o.z.s];
      if l.Receive? {
        var e := net.flight[l.i];
        assert e in net.flight;
        assert Deliverable(net.nodes, net.flight, o.z.D);
        KeepsWaiting(n, e.frame, e.index, e.mac, l.t, Ends(o.z), o.z.D);
      } else {
        PeerKeepsWaiting(n, l.params, l.now, o.z.D);
      }
    }
  }

  /** When `D` records the flood it replies. */
  lemma RecordedMeansAnswered(top: Topology, ifs: Ifs, net: Net, l: Label, o: Order)
    requires Wired(top) && Inv(top, ifs, net, o) && Enabled(net, l) && Careful(net, l, o)
    requires !Recorded(net, o.z) && Recorded(Next(top, net, l), o.z)
    ensures exists d :: d in Next(top, net, l).flight && Answer(d.frame, o.z)
  {
    var (who, out) := Acting(net, l).value;
    var n := net.nodes[o.z.D];
    if l.Peer? {
      PeerRouteOrigin(n, l.params, l.now, o.z.s);
    } else {
      var e := net.flight[l.i];
      assert e in net.flight;
      RouteOrigin(n, e.frame, e.index, e.mac, l.t, o.z.s);
      var b := RepliesAtOnce(n, e.frame, e.index, e.mac, l.t);
      StepKeepsPlugged(top, net, l);
      var d := SentIsInFlight(top, net, l, o.z.D, out, o.z.s, Reply(e.frame, b, 0));
    }
  }

  /** While the message waits. */
  lemma WaitingStep(top: Topology, ifs: Ifs, net: Net, l: Label, o: Order)
    requires Wired(top) && Inv(top, ifs, net, o) && Enabled(net, l) && Careful(net, l, o) && Waiting(net, o)
    requires !Recorded(net, o.z) || exists d :: d in net.flight && Answer(d.frame, o.z)
    ensures UnderWay(Next(top, net, l), o)
  {
    if l.Receive? && Answer(net.flight[l.i].frame, o.z) && net.flight[l.i].node == o.z.s {
      AnswerReleases(top, ifs, net, l, o);
    } else {
      StillWaiting(top, ifs, net, l, o);
      if d :| d in net.flight && Answer(d.frame, o.z) {
        if l.Receive? && Answer(net.flight[l.i].frame, o.z) {
          AnswerPassedOn(top, ifs, net, l, o);
        } else {
          Remains(net, l, d);
        }
      } else if Recorded(Next(top, net, l), o.z) {
        RecordedMeansAnswered(top, ifs, net, l, o);
      }
    }
  }

  lemma StepServes(top: Topology, ifs: Ifs, net: Net, l: Label, o: Order)
    requires Wired(top) && Inv(top, ifs, net, o) && Enabled(net, l) && Careful(net, l, o) && UnderWay(net, o)
    ensures Delivers(net, l, o) || UnderWay(Next(top, net, l), o)
  {
    if d :| d in net.flight && Bears(d.frame, o) {
      if l.Receive? && Bears(net.flight[l.i].frame, o) {
        CarriedOn(top, ifs, net, l, o);
      } else {
        Remains(net, l, d);
      }
    } else {
      WaitingStep(top, ifs, net, l, o);
    }
  }

  // ---------- from the request to the delivery ----------

  /** The walk either avoids `D` before its end, or a shorter one has met `D` already. */
  ghost predicate Short(top: Topology, ifs: Ifs, z: Quest, v: Ip, k: nat, j: nat) {
    WalkAround(top, ifs, z.s, z.D, v, k) || WalkAround(top, ifs, z.s, z.D, z.D, j)
  }

  lemma OneFurther(top: Topology, ifs: Ifs, z: Quest, u: Ip, v: Ip, k: nat, j: nat) returns (j': nat)
    requires Short(top, ifs, z, u, k, j) && Link(top, ifs, u, v)
    ensures Short(top, ifs, z, v, k + 1, j')
  {
    j' := if u == z.D && WalkAround(top, ifs, z.s, z.D, u, k) then k else j;
    if u != z.D && WalkAround(top, ifs, z.s, z.D, u, k) {
      assert WalkAround(top, ifs, z.s, z.D, u, (k + 1) - 1);
    }
  }

  lemma LastStep(top: Topology, ifs: Ifs, s: Ip, v: Ip, k: nat) returns (u: Ip)
    requires Walk(top, ifs, s, v, k) && k > 0
    ensures Walk(top, ifs, s, u, k - 1) && Link(top, ifs, u, v)
  {
    u :| Walk(top, ifs, s, u, k - 1) && Link(top, ifs, u, v);
  }

  /** A walk to `D` can be cut short to one that meets `D` only at its end. */
  lemma {:induction false} CutShort(top: Topology, ifs: Ifs, z: Quest, v: Ip, k: nat) returns (j: nat)
    requires Walk(top, ifs, z.s, v, k)
    ensures Short(top, ifs, z, v, k, j)
    decreases k
  {
    j := 0;
    if k > 0 {
      var u := LastStep(top, ifs, z.s, v, k);
      j := CutShort(top, ifs, z, u, k - 1);
      j := OneFurther(top, ifs, z, u, v, k - 1, j);
    }
  }

  /** Nothing of the flood, no answer and no copy of the message is in flight. */
  ghost predicate Quiet(net: Net, o: Order) {
    forall d :: d in net.flight ==> !Ours(d.frame, o.z) && !Answer(d.frame, o.z) && !Bears(d.frame, o)
  }

  /** With `D` in reach, it cannot be quiet while the message is under way. */
  lemma NotQuiet(top: Topology, ifs: Ifs, net: Net, o: Order, k: nat)
    requires Inv(top, ifs, net, o) && Walk(top, ifs, o.z.s, o.z.D, k) && Quiet(net, o)
    ensures !UnderWay(net, o)
  {
    var j := CutShort(top, ifs, o.z, o.z.D, k);
    if WalkAround(top, ifs, o.z.s, o.z.D, o.z.D, k) {
      j := k;
    }
    WalkBoundsHops(top, ifs, net, o.z, o.z.D, j);
  }

  ghost predicate CarefulRun(top: Topology, net: Net, run: seq<Label>, o: Order)
    decreases |run|
  {
    run == [] ||
    (Enabled(net, run[0]) && Careful(net, run[0], o) && CarefulRun(top, Next(top, net, run[0]), run[1..], o))
  }

  /** Step `i` of the run hands the message over. */
  ghost predicate DeliversAt(top: Topology, net: Net, run: seq<Label>, i: nat, o: Order) {
    i < |run| && var here := After(top, net, run[..i]); Enabled(here, run[i]) && Delivers(here, run[i], o)
  }

  lemma LaterInRun(top: Topology, net: Net, run: seq<Label>, j: nat, o: Order)
    requires run != [] && Enabled(net, run[0]) && DeliversAt(top, Next(top, net, run[0]), run[1..], j, o)
    ensures DeliversAt(top, net, run, j + 1, o)
  {
    assert run[..j + 1][1..] == run[1..][..j] && run[..j + 1][0] == run[0];
  }

  /** What holds as long as the message has not been handed over. */
  ghost predicate Pending(top: Topology, ifs: Ifs, net: Net, o: Order) {
    Inv(top, ifs, net, o) && UnderWay(net, o)
  }

  lemma StillPending(top: Topology, ifs: Ifs, net: Net, l: Label, o: Order)
    requires Wired(top) && Pending(top, ifs, net, o) && Enabled(net, l) && Careful(net, l, o) && !Delivers(net, l, o)
    ensures Pending(top, ifs, Next(top, net, l), o)
  {
    StepServes(top, ifs, net, l, o);
    StepKeepsInv(top, ifs, net, l, o);
  }

  lemma {:induction false} RunDelivers(top: Topology, ifs: Ifs, net: Net, run: seq<Label>, o: Order, k: nat)
    returns (i: nat)
    requires Wired(top) && Pending(top, ifs, net, o) && CarefulRun(top, net, run, o)
    requires Walk(top, ifs, o.z.s, o.z.D, k) && Quiet(After(top, net, run), o)
    ensures DeliversAt(top, net, run, i, o)
    decreases |run|
  {
    i := 0;
    if run == [] {
      NotQuiet(top, ifs, net, o, k);
    } else if Delivers(net, run[0], o) {
    } else {
      StillPending(top, ifs, net, run[0], o);
      var j := RunDelivers(top, ifs, Next(top, net, run[0]), run[1..], o, k);
      LaterInRun(top, net, run, j, o);
      i := j + 1;
    }
  }

  /** What the client of a request asks for. */
  function OrderOf(z: Quest, n: Node, p: Params): Order {
    Order(z, Register(n.ports, n.nextPort, p.path).2, p.dstPort, p.msg)
  }

  /** The request parks the message and floods. */
  lemma RequestParks(n: Node, p: Params, now: int, z: Quest)
    requires n.ports != [] && n.self == z.s && p.dst == z.D && z.s != z.D && z.b == n.bid + 1
    requires Lookup(n.routes, z.D, p.flag, now, n.stale).1.None?
    ensures var out, o := HandlePeer(n, p, now), OrderOf(z, n, p);
            && out.sends == Flood(n.ifs, -1, Request(z.b, p.flag, o.srcPort, p.dstPort, z.D, z.s))
            && Ready(out.node.pending, z.D).Some? && Bears(Ready(out.node.pending, z.D).value, o)
  {
  }

  lemma Begins(top: Topology, ifs: Ifs, net: Net, l: Label, z: Quest)
    requires Wired(top) && LoopFreedom.Inv(top, net, Ends(z)) && Plugged(top, net) && FloodBegins(top, ifs, net, l, z)
    requires Enabled(net, l) && Tame(net, l, Ends(z))
    requires z.D in net.nodes && PathOf(net.nodes[z.D].ports, l.params.dstPort).Some?
    ensures var o := OrderOf(z, net.nodes[z.s], l.params);
            Inv(top, ifs, Next(top, net, l), o) && UnderWay(Next(top, net, l), o)
  {
    var n, o := net.nodes[z.s], OrderOf(z, net.nodes[z.s], l.params);
    var net', out := Next(top, net, l), HandlePeer(n, l.params, l.now);
    LoopFreedom.StepKeepsInv(top, net, l, Ends(z));
    FloodStarts(top, ifs, net, l, z);
    StepKeepsPlugged(top, net, l);
    PortsStay(top, net, l, z.D, o.dstPort);
    RequestParks(n, l.params, l.now, z);
    FloodSends(n.ifs, -1, Request(z.b, l.params.flag, o.srcPort, l.params.dstPort, z.D, z.s));
    forall d | d in net'.flight && Ours(d.frame, z)
      ensures d.frame.ftype == RREQ
    {
      assert d in Transmit(top, z.s, out.sends);
      var s, p, q := TransmitSound(top, z.s, out.sends, d);
    }
    assert Waiting(net', o) && !Recorded(net', z);
  }

  /** End-to-end delivery, from any state that a tame run has reached. */
  lemma MessageArrives(top: Topology, ifs: Ifs, start: Net, before: seq<Label>, l: Label, run: seq<Label>,
                       z: Quest, k: nat) returns (i: nat)
    requires Wired(top) && Initial(start) && TameRun(top, start, before, Ends(z))
    requires var net := After(top, start, before);
             && FloodBegins(top, ifs, net, l, z) && Enabled(net, l) && Tame(net, l, Ends(z))
             && z.D in net.nodes && PathOf(net.nodes[z.D].ports, l.params.dstPort).Some?
             && var o := OrderOf(z, net.nodes[z.s], l.params);
             CarefulRun(top, Next(top, net, l), run, o) && Quiet(After(top, Next(top, net, l), run), o)
    requires Walk(top, ifs, z.s, z.D, k)
    ensures var net := After(top, start, before);
            DeliversAt(top, Next(top, net, l), run, i, OrderOf(z, net.nodes[z.s], l.params))
  {
    var net := After(top, start, before);
    InitialInv(top, start, Ends(z));
    LoopFreedom.RunKeepsInv(top, start, before, Ends(z));
    RunKeepsPlugged(top, start, before);
    Begins(top, ifs, net, l, z);
    i := RunDelivers(top, ifs, Next(top, net, l), run, OrderOf(z, net.nodes[z.s], l.params), k);
  }
}

/** Steps from which runs of particular networks are put together, to show that a property fails. Every
    process has only the preloaded server entry in its port table, and clients are that server. */
module Stories {
  import opened Basics
  import opened Frames
  import opened OdrModel
  import opened Network
  import opened LoopFreedom
  import opened HonestHops

  const ETH1 := Interface("eth1", 1)
  const ETH2 := Interface("eth2", 2)
  const ETH3 := Interface("eth3", 3)

  /** Everything happens at time 0 unless said otherwise. */
  const NOW := Clock(0, 0, 0)

  function Process(self: Ip, ifs: seq<Interface>, stale: int, routes: map<Ip, Route>, pending: seq<Parked>,
                   bid: int): Node {
    Node(self, ifs, stale, routes, pending, [PortEntry(SERV_PORT, SERV_PATH)], FIRST_PORT, bid, true)
  }

  /** A client asks its node for `dst`, with or without the discovery flag. */
  function Ask(x: Ip, dst: Ip, flag: int): Label {
    Peer(x, Params(dst, SERV_PATH, "", SERV_PORT, flag), 0)
  }

  function Wanted(src: Ip, bid: int, dst: Ip, hops: int, flag: int): Frame {
    Frame(RREQ, bid, hops, 0, flag, SERV_PORT, SERV_PORT, dst, src, "")
  }

  function Message(src: Ip, bid: int, dst: Ip, hops: int): Frame {
    Frame(DATA, bid, hops, PAYLOAD_SIZE, 0, SERV_PORT, SERV_PORT, dst, src, "")
  }

  // ---------- kinds of steps ----------

  /** What a step may do that breaks a property: delete an entry for `of`, delete any entry, answer a request
      for another node, re-send a parked frame of another node, re-send a frame with a real id and an old hop
      count, or answer from an entry with id 0. */
  datatype Kind = DeletionOf(of: Ip) | AnyDeletion | Proxy | Resend | OldHops | ZeroAnswer

  predicate DoesOnReceipt(kind: Kind, n: Node, f: Frame, t: Clock) {
    match kind
    case DeletionOf(s) => Deletes(n, f, t, s)
    case AnyDeletion => Deletes(n, f, t, f.src) || Deletes(n, f, t, f.dst)
    case Proxy => AnswersFor(n, f, f.dst)
    case Resend =>
      f.ftype == RREP && f.dst == n.self && var g := Unpark(n.pending, f.src).1; g.Some? && g.value.src != n.self
    case OldHops => ResendsOldHops(n, f)
    case ZeroAnswer => AnswersFromZero(n, f)
  }

  predicate DoesOnRequest(kind: Kind, n: Node, p: Params, now: int) {
    && (kind == AnyDeletion || kind == DeletionOf(p.dst))
    && p.dst != n.self && p.dst in n.routes && (Expired(n.routes[p.dst], now, n.stale) || p.flag == 1)
  }

  predicate Does(kind: Kind, net: Net, l: Label)
    requires Enabled(net, l)
  {
    match l
    case Receive(i, t) =>
      var d := net.flight[i];
      d.node in net.nodes && DoesOnReceipt(kind, net.nodes[d.node], d.frame, t)
    case Peer(x, p, now) => DoesOnRequest(kind, net.nodes[x], p, now)
    case _ => false
  }

  /** Every label of the run is enabled, and no step is of this kind. */
  predicate Avoids(top: Topology, net: Net, run: seq<Label>, kind: Kind)
    decreases |run|
  {
    run == [] ||
    (Enabled(net, run[0]) && !Does(kind, net, run[0]) && Avoids(top, Next(top, net, run[0]), run[1..], kind))
  }

  lemma {:induction false} AvoidsMore(top: Topology, net: Net, run: seq<Label>, l: Label, kind: Kind)
    requires Avoids(top, net, run, kind)
    requires var here := After(top, net, run); Enabled(here, l) && !Does(kind, here, l)
    ensures Avoids(top, net, run + [l], kind)
    decreases |run|
  {
    if run == [] {
      assert run + [l] == [l] && [l][1..] == [];
    } else {
      AvoidsMore(top, Next(top, net, run[0]), run[1..], l, kind);
      assert (run + [l])[1..] == run[1..] + [l] && (run + [l])[0] == run[0];
    }
  }

  /** The run has brought the network from `start` to `net`. */
  predicate Reaches(top: Topology, start: Net, run: seq<Label>, net: Net) {
    After(top, start, run) == net
  }

  lemma Then(top: Topology, start: Net, run: seq<Label>, net: Net, l: Label, kind: Kind)
    requires Reaches(top, start, run, net) && Enabled(net, l)
    ensures Reaches(top, start, run + [l], Next(top, net, l))
    ensures Avoids(top, start, run, kind) && !Does(kind, net, l) ==> Avoids(top, start, run + [l], kind)
  {
    AfterLast(top, start, run + [l]);
    assert (run + [l])[..|run|] == run;
    if Avoids(top, start, run, kind) && !Does(kind, net, l) {
      AvoidsMore(top, start, run, l, kind);
    }
  }

  // ---------- interfaces and wires ----------

  lemma FloodsBy(name: string)
    requires |name| == 4 && ':' !in name && name[3] != '0'
    ensures BaseName(name) != "lo" && BaseName(name) != "eth0"
  {
    BaseNameIs(name, "lo");
    BaseNameIs(name, "eth0");
    assert "eth0"[3] == '0' && name[2] in name;
  }

  lemma Names()
    ensures forall e :: Floods(ETH1, e) <==> e != 1
    ensures forall e :: Floods(ETH2, e) <==> e != 2
    ensures forall e :: Floods(ETH3, e) <==> e != 3
  {
    FloodsBy("eth1");
    FloodsBy("eth2");
    FloodsBy("eth3");
  }

  /** A flood leaves by every interface but the receiving one. */
  lemma Passes(ifs: seq<Interface>, out: Interface, except: int, f: Frame)
    requires out in ifs && (out == ETH1 || out == ETH2 || out == ETH3) && out.index != except
    ensures Send(out.index, Broadcast, f) in Flood(ifs, except, f)
  {
    Names();
    FloodExactly(ifs, except, f, Send(out.index, Broadcast, f));
  }

  /** A frame sent by plug `i` of the topology and heard by plug `j` is in flight after the step. */
  lemma Arrives(top: Topology, net: Net, l: Label, who: Ip, o: Outcome, snd: Send, i: nat, j: nat)
    requires Wired(top) && Enabled(net, l) && Acting(net, l) == Some((who, o)) && snd in o.sends
    requires i < |top| && j < |top| && top[i].node == who && top[i].index == snd.ifno && Hears(top[i], top[j], snd)
    ensures Delivery(top[j].node, top[j].index, top[i].mac, snd.frame) in Next(top, net, l).flight
  {
    assert top[i] in top && top[j] in top;
    TransmitComplete(top, who, o.sends, snd, Delivery(top[j].node, top[j].index, top[i].mac, snd.frame), top[i],
                     top[j]);
  }

  lemma Stays(top: Topology, net: Net, l: Label, e: Delivery)
    requires Enabled(net, l) && e in net.flight && !l.Lose? && (l.Receive? ==> net.flight[l.i] != e)
    ensures e in Next(top, net, l).flight
  {
  }

  /** The step receives `d` at time `t`. */
  predicate Hearing(net: Net, l: Label, d: Delivery, t: Clock) {
    Enabled(net, l) && l.Receive? && l.t == t && net.flight[l.i] == d
  }

  /** Receiving a frame that is in flight. */
  lemma Hear(top: Topology, net: Net, d: Delivery, t: Clock) returns (l: Label)
    requires d in net.flight && d.node in net.nodes && net.nodes[d.node].up
    ensures Hearing(net, l, d, t)
    ensures var o := HandleEthernet(net.nodes[d.node], d.frame, d.index, d.mac, t);
            Acting(net, l) == Some((d.node, o)) && Next(top, net, l).nodes == net.nodes[d.node := o.node]
  {
    var i :| 0 <= i < |net.flight| && net.flight[i] == d;
    l := Receive(i, t);
  }

  /** A client's request. */
  lemma ClientAsks(top: Topology, net: Net, x: Ip, dst: Ip, flag: int)
    requires x in net.nodes && net.nodes[x].up
    ensures var o := HandlePeer(net.nodes[x], Ask(x, dst, flag).params, 0);
            && Acting(net, Ask(x, dst, flag)) == Some((x, o))
            && Next(top, net, Ask(x, dst, flag)).nodes == net.nodes[x := o.node]
  {
  }

  // ---------- handlers ----------

  predicate Bare(n: Node) {
    n.ports == [PortEntry(SERV_PORT, SERV_PATH)] && n.nextPort == FIRST_PORT && n.up
  }

  function Dropped(routes: map<Ip, Route>, dst: Ip): map<Ip, Route> {
    if dst in routes then routes - {dst} else routes
  }

  /** A request for an unknown address, from a source that is unknown or has expired or is older. */
  lemma Learns(n: Node, f: Frame, ifno: int, mac: Mac, t: Clock)
    requires f.ftype == RREQ && f.flag == 0 && f.dst != n.self && f.dst !in n.routes && f.src != f.dst
    requires f.src !in n.routes || Expired(n.routes[f.src], t.srcLookup, n.stale) || Better(f, n.routes[f.src])
    ensures HandleEthernet(n, f, ifno, mac, t)
            == Outcome(n.(routes := n.routes[f.src := RouteOf(f, ifno, mac, t.write)]),
                       Flood(n.ifs, ifno, Onward(f, RREQ)), [], Returns(0))
  {
  }

  /** The destination of a request learns and replies. */
  lemma Replies(n: Node, f: Frame, ifno: int, mac: Mac)
    requires f.ftype == RREQ && f.flag == 0 && f.dst == n.self && f.src != f.dst && n.self !in n.routes
    requires f.src !in n.routes || Better(f, n.routes[f.src])
    ensures var r := RouteOf(f, ifno, mac, 0);
            HandleEthernet(n, f, ifno, mac, NOW)
            == Outcome(n.(routes := n.routes[f.src := r], bid := n.bid + 1), [Via(r, Reply(f, n.bid + 1, 0))], [],
                Returns(0))
  {
  }

  /** The request that a node floods for a frame it could not pass on. */
  function Sought(src: Ip, bid: int, dst: Ip): Frame {
    Request(bid, 0, -1, SERV_PORT, dst, src)
  }

  /** A data frame for an unknown address is parked. */
  lemma ParksData(n: Node, f: Frame, ifno: int, mac: Mac)
    requires f == Message(f.src, f.bid, f.dst, f.hops) && f.dst != n.self && f.dst !in n.routes && f.src != f.dst
    requires f.src !in n.routes || Better(f, n.routes[f.src])
    ensures HandleEthernet(n, f, ifno, mac, NOW)
            == Outcome(n.(routes := n.routes[f.src := RouteOf(f, ifno, mac, 0)], bid := n.bid + 1,
                          pending := Park(n.pending, f.dst, f)),
                       Flood(n.ifs, ifno, Sought(n.self, n.bid + 1, f.dst)), [], Returns(0))
  {
  }

  /** A reply for this node releases the data frame that was parked last. */
  lemma Releases(n: Node, f: Frame, ifno: int, mac: Mac)
    requires f.ftype == RREP && f.flag == 0 && f.dst == n.self && f.src != f.dst && n.self !in n.routes
    requires f.src !in n.routes || Better(f, n.routes[f.src])
    requires n.pending != [] && n.pending[0].key == f.src && n.pending[0].frame.ftype == DATA
    ensures var r := RouteOf(f, ifno, mac, 0);
            HandleEthernet(n, f, ifno, mac, NOW)
            == Outcome(n.(routes := n.routes[f.src := r], pending := n.pending[1..]), [Via(r, n.pending[0].frame)],
                [], Returns(0))
    ensures Unpark(n.pending, f.src).1 == Some(n.pending[0].frame)
  {
  }

  /** Any unflagged frame that beats what is known of its source is recorded, and nothing else. */
  lemma Records(n: Node, f: Frame, ifno: int, mac: Mac, t: Clock)
    requires RREQ <= f.ftype <= ASENT && f.flag == 0 && f.src != f.dst
    requires f.dst !in n.routes || !Expired(n.routes[f.dst], t.destLookup, n.stale)
    requires f.src !in n.routes || Expired(n.routes[f.src], t.srcLookup, n.stale) || Better(f, n.routes[f.src])
    ensures HandleEthernet(n, f, ifno, mac, t).node.routes == n.routes[f.src := RouteOf(f, ifno, mac, t.write)]
    ensures HandleEthernet(n, f, ifno, mac, t).node.up == n.up
  {
  }

  // ---------- steps of the network ----------

  /** Plugs `i` and `j` face each other, `i` being interface `ifno` of `x`. */
  predicate Opposite(top: Topology, x: Ip, ifno: int, i: nat, j: nat) {
    i < |top| && j < |top| && top[i] != top[j] && top[i].seg == top[j].seg && top[i].node == x && top[i].index == ifno
  }

  function AtPlug(top: Topology, i: nat, j: nat, f: Frame): Delivery
    requires i < |top| && j < |top|
  {
    Delivery(top[j].node, top[j].index, top[i].mac, f)
  }

  lemma AskIsHeard(top: Topology, net: Net, x: Ip, dst: Ip, flag: int, out: Interface, i: nat, j: nat)
    requires Wired(top) && x in net.nodes && net.nodes[x].up
    requires out in net.nodes[x].ifs && (out == ETH1 || out == ETH2 || out == ETH3) && Opposite(top, x, out.index, i, j)
    requires var n := net.nodes[x];
             HandlePeer(n, Ask(x, dst, flag).params, 0).sends == Flood(n.ifs, -1, Wanted(x, n.bid + 1, dst, 0, flag))
    ensures AtPlug(top, i, j, Wanted(x, net.nodes[x].bid + 1, dst, 0, flag))
            in Next(top, net, Ask(x, dst, flag)).flight
  {
    var n, l := net.nodes[x], Ask(x, dst, flag);
    var f := Wanted(x, n.bid + 1, dst, 0, flag);
    ClientAsks(top, net, x, dst, flag);
    Passes(n.ifs, out, -1, f);
    Arrives(top, net, l, x, HandlePeer(n, l.params, 0), Send(out.index, Broadcast, f), i, j);
  }

  lemma Asks(top: Topology, net: Net, x: Ip, dst: Ip, flag: int, out: Interface, i: nat, j: nat)
    requires Wired(top) && x in net.nodes && Bare(net.nodes[x]) && net.nodes[x].self == x
    requires dst != x && (dst !in net.nodes[x].routes || flag == 1)
    requires out in net.nodes[x].ifs && (out == ETH1 || out == ETH2 || out == ETH3) && Opposite(top, x, out.index, i, j)
    ensures var n, l := net.nodes[x], Ask(x, dst, flag);
            && Next(top, net, l).nodes ==
               net.nodes[x := n.(routes := Dropped(n.routes, dst), bid := n.bid + 2,
                                 pending := Park(n.pending, dst, Message(x, 0, dst, n.bid + 2)))]
            && AtPlug(top, i, j, Wanted(x, n.bid + 1, dst, 0, flag)) in Next(top, net, l).flight
  {
    ClientAsks(top, net, x, dst, flag);
    AskIsHeard(top, net, x, dst, flag, out, i, j);
  }

  lemma Sends(top: Topology, net: Net, x: Ip, dst: Ip, i: nat, j: nat)
    requires Wired(top) && x in net.nodes && Bare(net.nodes[x]) && net.nodes[x].self == x && dst != x
    requires dst in net.nodes[x].routes && !Expired(net.nodes[x].routes[dst], 0, net.nodes[x].stale)
    requires var r := net.nodes[x].routes[dst]; Opposite(top, x, r.ifno, i, j) && top[j].mac == r.nextHop
    ensures var n, l := net.nodes[x], Ask(x, dst, 0);
            && Next(top, net, l).nodes == net.nodes
            && AtPlug(top, i, j, Message(x, n.routes[dst].bid, dst, 0)) in Next(top, net, l).flight
  {
    var n, l := net.nodes[x], Ask(x, dst, 0);
    ClientAsks(top, net, x, dst, 0);
    Arrives(top, net, l, x, HandlePeer(n, l.params, 0), Via(n.routes[dst], Message(x, n.routes[dst].bid, dst, 0)), i,
            j);
    assert net.nodes[x := n] == net.nodes;
  }

  /** `d` is waiting for a process that is up. */
  predicate Due(net: Net, d: Delivery) {
    d in net.flight && d.node in net.nodes && net.nodes[d.node].up && net.nodes[d.node].self == d.node
  }

  predicate Beats(n: Node, f: Frame) {
    f.src !in n.routes || Better(f, n.routes[f.src])
  }

  lemma PassesOn(top: Topology, net: Net, d: Delivery, out: Interface, i: nat, j: nat) returns (l: Label)
    requires Wired(top) && Due(net, d) && d.frame == Wanted(d.frame.src, d.frame.bid, d.frame.dst, d.frame.hops, 0)
    requires var n := net.nodes[d.node];
             && Beats(n, d.frame) && d.frame.dst != d.node && d.frame.dst !in n.routes && d.frame.src != d.frame.dst
             && out in n.ifs && (out == ETH1 || out == ETH2 || out == ETH3) && out.index != d.index
    requires Opposite(top, d.node, out.index, i, j)
    ensures Hearing(net, l, d, NOW)
    ensures var n, f := net.nodes[d.node], d.frame;
            && Next(top, net, l).nodes ==
               net.nodes[d.node := n.(routes := n.routes[f.src := RouteOf(f, d.index, d.mac, 0)])]
            && AtPlug(top, i, j, Wanted(f.src, f.bid, f.dst, f.hops + 1, 0)) in Next(top, net, l).flight
  {
    var n, f := net.nodes[d.node], d.frame;
    l := Hear(top, net, d, NOW);
    Learns(n, f, d.index, d.mac, NOW);
    Passes(n.ifs, out, d.index, Onward(f, RREQ));
    Arrives(top, net, l, d.node, HandleEthernet(n, f, d.index, d.mac, NOW),
            Send(out.index, Broadcast, Onward(f, RREQ)), i, j);
  }

  lemma RepliesTo(top: Topology, net: Net, d: Delivery, i: nat, j: nat) returns (l: Label)
    requires Wired(top) && Due(net, d) && d.frame.ftype == RREQ && d.frame.flag == 0 && d.frame.dst == d.node
    requires var n := net.nodes[d.node]; Beats(n, d.frame) && d.frame.src != d.node && d.node !in n.routes
    requires Opposite(top, d.node, d.index, i, j) && top[j].mac == d.mac
    ensures Hearing(net, l, d, NOW)
    ensures var n, f := net.nodes[d.node], d.frame;
            && Next(top, net, l).nodes ==
               net.nodes[d.node := n.(routes := n.routes[f.src := RouteOf(f, d.index, d.mac, 0)], bid := n.bid + 1)]
            && AtPlug(top, i, j, Reply(f, n.bid + 1, 0)) in Next(top, net, l).flight
  {
    var n, f := net.nodes[d.node], d.frame;
    l := Hear(top, net, d, NOW);
    Replies(n, f, d.index, d.mac);
    Arrives(top, net, l, d.node, HandleEthernet(n, f, d.index, d.mac, NOW),
            Via(RouteOf(f, d.index, d.mac, 0), Reply(f, n.bid + 1, 0)), i, j);
  }

  lemma Parks(top: Topology, net: Net, d: Delivery, out: Interface, i: nat, j: nat) returns (l: Label)
    requires Wired(top) && Due(net, d) && d.frame == Message(d.frame.src, d.frame.bid, d.frame.dst, d.frame.hops)
    requires var n := net.nodes[d.node];
             && Beats(n, d.frame) && d.frame.dst != d.node && d.frame.dst !in n.routes && d.frame.src != d.frame.dst
             && out in n.ifs && (out == ETH1 || out == ETH2 || out == ETH3) && out.index != d.index
    requires Opposite(top, d.node, out.index, i, j)
    ensures Hearing(net, l, d, NOW)
    ensures var n, f := net.nodes[d.node], d.frame;
            && Next(top, net, l).nodes ==
               net.nodes[d.node := n.(routes := n.routes[f.src := RouteOf(f, d.index, d.mac, 0)], bid := n.bid + 1,
                                      pending := Park(n.pending, f.dst, f))]
            && AtPlug(top, i, j, Sought(d.node, n.bid + 1, f.dst)) in Next(top, net, l).flight
  {
    var n, f := net.nodes[d.node], d.frame;
    l := Hear(top, net, d, NOW);
    ParksData(n, f, d.index, d.mac);
    var g := Sought(d.node, n.bid + 1, f.dst);
    Passes(n.ifs, out, d.index, g);
    Arrives(top, net, l, d.node, HandleEthernet(n, f, d.index, d.mac, NOW), Send(out.index, Broadcast, g), i, j);
  }

  lemma LetsGo(top: Topology, net: Net, d: Delivery, i: nat, j: nat) returns (l: Label)
    requires Wired(top) && Due(net, d) && d.frame.ftype == RREP && d.frame.flag == 0 && d.frame.dst == d.node
    requires var n := net.nodes[d.node];
             && Beats(n, d.frame) && d.frame.src != d.node && d.node !in n.routes
             && n.pending != [] && n.pending[0].key == d.frame.src && n.pending[0].frame.ftype == DATA
    requires Opposite(top, d.node, d.index, i, j) && top[j].mac == d.mac
    ensures Hearing(net, l, d, NOW)
    ensures var n, f := net.nodes[d.node], d.frame;
            && Next(top, net, l).nodes ==
               net.nodes[d.node := n.(routes := n.routes[f.src := RouteOf(f, d.index, d.mac, 0)],
                   pending := n.pending[1..])]
            && AtPlug(top, i, j, n.pending[0].frame) in Next(top, net, l).flight
            && Unpark(n.pending, f.src).1 == Some(n.pending[0].frame)
  {
    var n, f := net.nodes[d.node], d.frame;
    l := Hear(top, net, d, NOW);
    Releases(n, f, d.index, d.mac);
    Arrives(top, net, l, d.node, HandleEthernet(n, f, d.index, d.mac, NOW),
            Via(RouteOf(f, d.index, d.mac, 0), n.pending[0].frame), i, j);
  }

  /** A frame that concerns nobody here is only recorded. */
  lemma JustLearns(top: Topology, net: Net, d: Delivery) returns (l: Label)
    requires Due(net, d) && d.frame == Wanted(d.frame.src, d.frame.bid, d.frame.dst, d.frame.hops, 0)
    requires var n := net.nodes[d.node];
             Beats(n, d.frame) && d.frame.dst != d.node && d.frame.dst !in n.routes && d.frame.src != d.frame.dst
    ensures Hearing(net, l, d, NOW)
    ensures var n, f := net.nodes[d.node], d.frame;
            Next(top, net, l).nodes == net.nodes[d.node := n.(routes := n.routes[f.src := RouteOf(f, d.index, d.mac,
                 0)])]
  {
    l := Hear(top, net, d, NOW);
    Learns(net.nodes[d.node], d.frame, d.index, d.mac, NOW);
  }

  /** A message for this node is recorded and handed over. */
  lemma Consumes(top: Topology, net: Net, d: Delivery) returns (l: Label)
    requires Due(net, d) && d.frame == Message(d.frame.src, d.frame.bid, d.node, d.frame.hops)
    requires var n := net.nodes[d.node]; Beats(n, d.frame) && d.frame.src != d.node && d.node !in n.routes
    ensures Hearing(net, l, d, NOW)
    ensures var n, f := net.nodes[d.node], d.frame;
            Next(top, net, l).nodes == net.nodes[d.node := n.(routes := n.routes[f.src := RouteOf(f, d.index, d.mac,
                 0)])]
  {
    var n, f := net.nodes[d.node], d.frame;
    l := Hear(top, net, d, NOW);
    if f.src in n.routes {
      assert (n.routes - {f.src})[f.src := RouteOf(f, d.index, d.mac, 0)]
          == n.routes[f.src := RouteOf(f, d.index, d.mac, 0)];
    }
  }

  /** A request that is news is answered along the route it came by. */
  lemma AnswersNews(n: Node, f: Frame, ifno: int, mac: Mac)
    requires f.ftype == RREQ && f.flag == 0 && f.dst != n.self && f.src != f.dst && Beats(n, f)
    requires f.dst in n.routes && !Expired(n.routes[f.dst], 0, n.stale)
    ensures var o, r := HandleEthernet(n, f, ifno, mac, NOW), RouteOf(f, ifno, mac, 0);
            && o.node == n.(routes := n.routes[f.src := r], bid := n.bid + 1)
            && Via(r, Reply(f, n.bid + 1, n.routes[f.dst].hops)) in o.sends
  {
    var r := RouteOf(f, ifno, mac, 0);
    if f.src in n.routes {
      assert (n.routes - {f.src})[f.src := r] == n.routes[f.src := r];
    }
    assert Ingest(n, f, ifno, mac, NOW) == Ingested(n.routes[f.src := r], Some(n.routes[f.dst]), true);
  }

  /** A node that has a route to what is asked for answers in its stead. */
  lemma AnswersInstead(top: Topology, net: Net, d: Delivery, i: nat, j: nat) returns (l: Label)
    requires Wired(top) && Due(net, d) && d.frame.ftype == RREQ && d.frame.flag == 0
    requires var n := net.nodes[d.node];
             && Beats(n, d.frame) && d.frame.dst != d.node && d.frame.src != d.frame.dst
             && d.frame.dst in n.routes && !Expired(n.routes[d.frame.dst], 0, n.stale)
    requires Opposite(top, d.node, d.index, i, j) && top[j].mac == d.mac
    ensures Hearing(net, l, d, NOW)
    ensures var n, f := net.nodes[d.node], d.frame;
            && Next(top, net, l).nodes ==
               net.nodes[d.node := n.(routes := n.routes[f.src := RouteOf(f, d.index, d.mac, 0)], bid := n.bid + 1)]
            && AtPlug(top, i, j, Reply(f, n.bid + 1, n.routes[f.dst].hops)) in Next(top, net, l).flight
  {
    var n, f := net.nodes[d.node], d.frame;
    l := Hear(top, net, d, NOW);
    AnswersNews(n, f, d.index, d.mac);
    Arrives(top, net, l, d.node, HandleEthernet(n, f, d.index, d.mac, NOW),
            Via(RouteOf(f, d.index, d.mac, 0), Reply(f, n.bid + 1, n.routes[f.dst].hops)), i, j);
  }

  /** A node that has a route to what is asked for answers even a request that is old news, along the newer
      route to the one who asks. */
  lemma AnswersLate(top: Topology, net: Net, d: Delivery, i: nat, j: nat) returns (l: Label)
    requires Wired(top) && Due(net, d) && d.frame.ftype == RREQ && d.frame.flag == 0
    requires var n := net.nodes[d.node];
             && d.frame.dst != d.node && d.frame.src != d.frame.dst
             && d.frame.dst in n.routes && !Expired(n.routes[d.frame.dst], 0, n.stale)
             && d.frame.src in n.routes && !Expired(n.routes[d.frame.src], 0, n.stale)
                 && !Better(d.frame, n.routes[d.frame.src])
             && Opposite(top, d.node, n.routes[d.frame.src].ifno, i, j) && top[j].mac == n.routes[d.frame.src].nextHop
    ensures Hearing(net, l, d, NOW)
    ensures var n, f := net.nodes[d.node], d.frame;
            && Next(top, net, l).nodes == net.nodes[d.node := n.(bid := n.bid + 1)]
            && AtPlug(top, i, j, Reply(f, n.bid + 1, n.routes[f.dst].hops)) in Next(top, net, l).flight
  {
    var n, f := net.nodes[d.node], d.frame;
    l := Hear(top, net, d, NOW);
    Arrives(top, net, l, d.node, HandleEthernet(n, f, d.index, d.mac, NOW),
            Via(n.routes[f.src], Reply(f, n.bid + 1, n.routes[f.dst].hops)), i, j);
  }

  // ---------- telling a story ----------

  /** The run has led from `start` to `net` without steps of these kinds. */
  ghost predicate Leads(top: Topology, start: Net, kinds: set<Kind>, run: seq<Label>, net: Net) {
    Reaches(top, start, run, net) && forall kind :: kind in kinds ==> Avoids(top, start, run, kind)
  }

  /** The step is of none of these kinds. */
  ghost predicate Clean(kinds: set<Kind>, net: Net, l: Label)
    requires Enabled(net, l)
  {
    forall kind :: kind in kinds ==> !Does(kind, net, l)
  }

  lemma OneMore(top: Topology, start: Net, kinds: set<Kind>, run: seq<Label>, net: Net, l: Label)
    requires Leads(top, start, kinds, run, net) && Enabled(net, l)
    ensures Reaches(top, start, run + [l], Next(top, net, l))
    ensures forall kind :: kind in kinds && !Does(kind, net, l) ==> Avoids(top, start, run + [l], kind)
  {
    Then(top, start, run, net, l, Proxy);
    forall kind | kind in kinds && !Does(kind, net, l)
      ensures Avoids(top, start, run + [l], kind)
    {
      Then(top, start, run, net, l, kind);
    }
  }

  // ---------- circles ----------

  /** `x` has a route to `s`, and a frame for `s` handed on from `x` never gets there. */
  ghost predicate Circular(top: Topology, nodes: map<Ip, Node>, x: Ip, s: Ip) {
    && x in nodes && s in nodes[x].routes
    && forall k: nat :: Follow(top, nodes, x, s, k) != Some(s)
  }

  /** Nodes that point at each other in a circle, of three or of two, never deliver. */
  lemma {:induction false} Circles(top: Topology, nodes: map<Ip, Node>, x: Ip, y: Ip, z: Ip, s: Ip, k: nat)
    requires s != x && s != y && s != z && NextHop(top, nodes, x, s) == Some(y) && NextHop(top, nodes, y, s) == Some(z)
    requires NextHop(top, nodes, z, s) == Some(x) || z == x
    ensures Follow(top, nodes, x, s, k) != Some(s)
    decreases k
  {
    if k > 0 {
      Circles(top, nodes, y, z, if z == x then y else x, s, k - 1);
    }
  }

  lemma GoesRound(top: Topology, nodes: map<Ip, Node>, x: Ip, y: Ip, z: Ip, s: Ip)
    requires s != x && s != y && s != z && NextHop(top, nodes, x, s) == Some(y) && NextHop(top, nodes, y, s) == Some(z)
    requires NextHop(top, nodes, z, s) == Some(x) || z == x
    ensures Circular(top, nodes, x, s)
  {
    forall k: nat
      ensures Follow(top, nodes, x, s, k) != Some(s)
    {
      Circles(top, nodes, x, y, z, s, k);
    }
  }

  // ---------- three nodes ----------

  /** Three nodes in a line `s` - `m` - `x`, or in a ring; an address that none of them has, the hardware
      addresses of their interfaces, and the staleness threshold. */
  datatype World = World(ring: bool, s: Ip, m: Ip, x: Ip, z: Ip,
                         sm: Mac, ms: Mac, mx: Mac, xm: Mac, sx: Mac, xs: Mac, stale: int) {
    predicate Distinct() {
      && s != m && s != x && m != x && z != s && z != m && z != x
      && sm != ms && sm != mx && sm != xm && sm != sx && sm != xs && ms != mx && ms != xm && ms != sx && ms != xs
      && mx != xm && mx != sx && mx != xs && xm != sx && xm != xs && sx != xs
    }

    function Top(): Topology {
      [Plug(s, 1, sm, 0), Plug(m, 1, ms, 0), Plug(m, 2, mx, 1), Plug(x, 1, xm, 1)]
      + if ring then [Plug(s, 2, sx, 2), Plug(x, 2, xs, 2)] else []
    }

    function S(routes: map<Ip, Route>, pending: seq<Parked>, bid: int): Node {
      Process(s, if ring then [ETH1, ETH2] else [ETH1], stale, routes, pending, bid)
    }

    function M(routes: map<Ip, Route>, pending: seq<Parked>, bid: int): Node {
      Process(m, [ETH1, ETH2], stale, routes, pending, bid)
    }

    function X(routes: map<Ip, Route>, pending: seq<Parked>, bid: int): Node {
      Process(x, if ring then [ETH1, ETH2] else [ETH1], stale, routes, pending, bid)
    }

    function Start(): Net {
      Net(map[s := S(map[], [], 10), m := M(map[], [], 10), x := X(map[], [], 10)], [])
    }

    predicate At(net: Net, ns: Node, nm: Node, nx: Node) {
      && s in net.nodes && net.nodes[s] == ns && m in net.nodes && net.nodes[m] == nm
      && x in net.nodes && net.nodes[x] == nx
    }
  }

  lemma Beginning(w: World)
    requires w.Distinct()
    ensures Wired(w.Top()) && Initial(w.Start())
  {
  }

  /** The run has led to `net`, where the three processes stand like this, without steps of these kinds. */
  ghost predicate Told(w: World, kinds: set<Kind>, run: seq<Label>, net: Net, ns: Node, nm: Node, nx: Node) {
    Leads(w.Top(), w.Start(), kinds, run, net) && w.At(net, ns, nm, nx)
  }

  /** One more step, which changes one process. */
  lemma Further(w: World, kinds: set<Kind>, run: seq<Label>, net: Net, l: Label, ns: Node, nm: Node, nx: Node, n: Node)
    requires w.Distinct() && Told(w, kinds, run, net, ns, nm, nx) && Enabled(net, l)
    ensures Reaches(w.Top(), w.Start(), run + [l], Next(w.Top(), net, l))
    ensures forall kind :: kind in kinds && !Does(kind, net, l) ==> Avoids(w.Top(), w.Start(), run + [l], kind)
    ensures var net' := Next(w.Top(), net, l);
            && (net'.nodes == net.nodes[w.s := n] ==> w.At(net', n, nm, nx))
            && (net'.nodes == net.nodes[w.m := n] ==> w.At(net', ns, n, nx))
            && (net'.nodes == net.nodes[w.x := n] ==> w.At(net', ns, nm, n))
    ensures var net', r := Next(w.Top(), net, l), run + [l];
            Clean(kinds, net, l) ==>
            && (net'.nodes == net.nodes[w.s := n] ==> Told(w, kinds, r, net', n, nm, nx))
            && (net'.nodes == net.nodes[w.m := n] ==> Told(w, kinds, r, net', ns, n, nx))
            && (net'.nodes == net.nodes[w.x := n] ==> Told(w, kinds, r, net', ns, nm, n))
  {
    OneMore(w.Top(), w.Start(), kinds, run, net, l);
  }

  /** A node's list of parked frames matters only where its first frame does. */
  type Queue = seq<Parked>

  // ---------- how some stories begin, in a line or in a ring ----------

  /** The kinds of steps that the beginning does not need. */
  predicate Spared(w: World, kinds: set<Kind>) {
    kinds <= {OldHops, ZeroAnswer, Proxy, DeletionOf(w.s)}
  }

  lemma Harmless(w: World, kinds: set<Kind>, net: Net, l: Label, d: Delivery)
    requires Spared(w, kinds) && Hearing(net, l, d, NOW) && d.node in net.nodes && d.frame.ftype == RREQ
    requires d.frame.dst !in net.nodes[d.node].routes && w.s !in net.nodes[d.node].routes
    ensures Clean(kinds, net, l)
  {
  }

  /** `x` asks for `dst`. */
  lemma XAsks(w: World, kinds: set<Kind>, dst: Ip) returns (run: seq<Label>, net: Net, p: Queue)
    requires w.Distinct() && Spared(w, kinds) && dst != w.x && dst != w.m
    ensures Told(w, kinds, run, net, w.S(map[], [], 10), w.M(map[], [], 10), w.X(map[], p, 12))
    ensures Delivery(w.m, 2, w.xm, Wanted(w.x, 11, dst, 0, 0)) in net.flight
  {
    Beginning(w);
    var l, ns, nm, nx := Ask(w.x, dst, 0), w.S(map[], [], 10), w.M(map[], [], 10), w.X(map[], [], 10);
    Asks(w.Top(), w.Start(), w.x, dst, 0, ETH1, 3, 2);
    run, net := [] + [l], Next(w.Top(), w.Start(), l);
    p := net.nodes[w.x].pending;
    Further(w, kinds, [], w.Start(), l, ns, nm, nx, w.X(map[], p, 12));
  }

  /** `m` hears of it and passes it on. */
  lemma MPassesOn(w: World, kinds: set<Kind>, dst: Ip) returns (run: seq<Label>, net: Net, p: Queue)
    requires w.Distinct() && Spared(w, kinds) && dst != w.x && dst != w.m
    ensures Told(w, kinds, run, net, w.S(map[], [], 10), w.M(map[w.x := Route(w.xm, 2, 1, 11, 0)], [], 10),
            w.X(map[], p, 12))
    ensures Delivery(w.s, 1, w.ms, Wanted(w.x, 11, dst, 1, 0)) in net.flight
  {
    Beginning(w);
    var r, before: Net;
    r, before, p := XAsks(w, kinds, dst);
    var d := Delivery(w.m, 2, w.xm, Wanted(w.x, 11, dst, 0, 0));
    var l := PassesOn(w.Top(), before, d, ETH1, 1, 0);
    Harmless(w, kinds, before, l, d);
    run, net := r + [l], Next(w.Top(), before, l);
    Further(w, kinds, r, before, l, w.S(map[], [], 10), w.M(map[], [], 10), w.X(map[], p, 12),
            w.M(map[w.x := Route(w.xm, 2, 1, 11, 0)], [], 10));
  }

  /** `s` hears of it: its route to `x` goes through `m`. */
  lemma SLearns(w: World, kinds: set<Kind>) returns (run: seq<Label>, net: Net, p: Queue)
    requires w.Distinct() && Spared(w, kinds)
    ensures Told(w, kinds, run, net, w.S(map[w.x := Route(w.ms, 1, 2, 11, 0)], [], 10),
                 w.M(map[w.x := Route(w.xm, 2, 1, 11, 0)], [], 10), w.X(map[], p, 12))
  {
    var r, before: Net;
    r, before, p := MPassesOn(w, kinds, w.z);
    var d := Delivery(w.s, 1, w.ms, Wanted(w.x, 11, w.z, 1, 0));
    var l := JustLearns(w.Top(), before, d);
    Harmless(w, kinds, before, l, d);
    run, net := r + [l], Next(w.Top(), before, l);
    Further(w, kinds, r, before, l, w.S(map[], [], 10), w.M(map[w.x := Route(w.xm, 2, 1, 11, 0)], [], 10),
            w.X(map[], p, 12),
            w.S(map[w.x := Route(w.ms, 1, 2, 11, 0)], [], 10));
  }
}

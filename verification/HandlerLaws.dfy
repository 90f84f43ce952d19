/** What one run of a handler sends and keeps, said by the fields of the frames, by names of interfaces and by
    differences of clock readings. */
module HandlerLaws {
  import opened Basics
  import opened Frames
  import opened OdrModel
  import opened Network
  import opened LoopFreedom
  import opened PortTableList

  // ---------- lookups ----------

  /** An entry for `x` that is younger than the staleness threshold. */
  predicate Young(n: Node, x: Ip, now: int) {
    x in n.routes && now - n.routes[x].time < n.stale
  }

  /** A lookup returns the entry, and leaves the table alone, if and only if there is one, it is younger than the
      threshold and the discovery flag is not set. Otherwise it returns none, and that address alone is gone. */
  lemma LookupExactly(routes: map<Ip, Route>, ip: Ip, flag: int, now: int, stale: int)
    ensures var (rest, found) := Lookup(routes, ip, flag, now, stale);
            if ip in routes && now - routes[ip].time < stale && flag != 1
            then found == Some(routes[ip]) && rest == routes
            else found == None && rest.Keys == routes.Keys - {ip} && forall x :: x in rest ==> rest[x] == routes[x]
  {
  }

  /** A frame that is looked at: not a forced discovery whose id, or a later one, is known for its source. */
  predicate Heeded(n: Node, f: Frame) {
    f.flag == 1 && f.src in n.routes ==> n.routes[f.src].bid < f.bid
  }

  /** The node can answer for, or pass a frame on to, the destination. */
  predicate Knows(n: Node, f: Frame, t: Clock) {
    Young(n, f.dst, t.destLookup) && f.flag != 1
  }

  /** The frame is news about its source: nothing young is known, or a smaller id, or the same id and no fewer
      hops. The lookup of the destination may have deleted the entry too, if it is the same. */
  predicate News(n: Node, f: Frame, t: Clock) {
    || !Young(n, f.src, t.srcLookup)
    || (f.src == f.dst && !Knows(n, f, t))
    || n.routes[f.src].bid < f.bid
    || (n.routes[f.src].bid == f.bid && f.hops + 1 <= n.routes[f.src].hops)
  }

  /** The same table before the frame is acted on. */
  lemma IngestRecords(n: Node, f: Frame, ifno: int, mac: Mac, t: Clock)
    ensures var routes := Ingest(n, f, ifno, mac, t).routes;
            && f.src in routes
            && routes[f.src] ==
               (if News(n, f, t) then Route(mac, ifno, f.hops + 1, f.bid, t.write) else n.routes[f.src])
            && (forall x :: x in routes && x != f.src ==> x in n.routes && routes[x] == n.routes[x])
            && forall x :: x in n.routes && x != f.src ==> (x in routes <==> (x == f.dst ==> Knows(n, f, t)))
  {
  }

  /** The table afterwards: the entry for the source is the frame's own if that is news, and else as it was. No other
      entry is changed, and none is gone but that of a destination the node does not know. */
  lemma SourceRecorded(n: Node, f: Frame, ifno: int, mac: Mac, t: Clock)
    requires Heeded(n, f) && RREQ <= f.ftype <= ASENT
    ensures var n' := HandleEthernet(n, f, ifno, mac, t).node;
            && f.src in n'.routes
            && n'.routes[f.src] ==
               (if News(n, f, t) then Route(mac, ifno, f.hops + 1, f.bid, t.write) else n.routes[f.src])
            && (forall x :: x in n'.routes && x != f.src ==> x in n.routes && n'.routes[x] == n.routes[x])
            && forall x :: x in n.routes && x != f.src ==> (x in n'.routes <==> (x == f.dst ==> Knows(n, f, t)))
  {
    var g := Ingest(n, f, ifno, mac, t);
    IngestRecords(n, f, ifno, mac, t);
    DispatchKeepsRoutes(n.(routes := g.routes), f, ifno, g.dest, g.updated);
  }

  /** `s` follows the entry for `x` in the table of `n`. */
  predicate Along(n: Node, x: Ip, s: Send) {
    x in n.routes && s.to == Unicast(n.routes[x].nextHop) && s.ifno == n.routes[x].ifno
  }

  // ---------- requests ----------

  /** `g` is a reply to `f`: both addresses and both ports exchanged. */
  predicate Answering(g: Frame, f: Frame) {
    && g.ftype == RREP && g.src == f.dst && g.dst == f.src && g.srcPort == f.dstPort && g.dstPort == f.srcPort
    && g.flag == 0 && g.len == f.len && g.payload == ""
  }

  /** A request is answered if and only if the node is the destination or knows it; by one reply, with a new id,
      along the entry for the source. */
  lemma RequestAnswered(n: Node, f: Frame, ifno: int, mac: Mac, t: Clock)
    requires Heeded(n, f) && f.ftype == RREQ
    ensures var o := HandleEthernet(n, f, ifno, mac, t);
            && (forall s :: s in o.sends && s.to.Unicast? ==> s == o.sends[0])
            && ((exists s :: s in o.sends && s.frame.ftype == RREP) <==> f.dst == n.self || Knows(n, f, t))
            && (f.dst == n.self || Knows(n, f, t) ==>
                  var s := o.sends[0];
                  && Answering(s.frame, f) && Along(o.node, f.src, s)
                  && s.frame.bid == n.bid + 1 == o.node.bid
                  && (f.dst == n.self ==> s.frame.hops == 0)
                  && (f.dst != n.self && f.src != f.dst ==> s.frame.hops == n.routes[f.dst].hops))
            && (!(f.dst == n.self || Knows(n, f, t)) ==> o.node.bid == n.bid)
            && o.node.pending == n.pending && o.peers == []
  {
    FloodSends(n.ifs, ifno, Onward(f, ASENT));
    FloodSends(n.ifs, ifno, Onward(f, RREQ));
  }

  /** What a node floods on: the frame with one more hop. */
  predicate OneHopOn(g: Frame, f: Frame) {
    && g.bid == f.bid && g.hops == f.hops + 1 && g.flag == f.flag && g.src == f.src && g.dst == f.dst
    && g.srcPort == f.srcPort && g.dstPort == f.dstPort && g.len == 0 && g.payload == ""
  }

  /** A request or a notice that one was answered is passed on if and only if it is news, on every interface but
      the receiving one: a request as a request where it is not answered and as a notice where it is, a notice as a
      notice. The destination of a request passes nothing on. */
  lemma PassedOn(n: Node, f: Frame, ifno: int, mac: Mac, t: Clock, s: Send)
    requires Heeded(n, f) && (f.ftype == RREQ || f.ftype == ASENT) && s.to.Broadcast?
    ensures s in HandleEthernet(n, f, ifno, mac, t).sends <==>
            && News(n, f, t) && !(f.ftype == RREQ && f.dst == n.self)
            && (exists i :: i in n.ifs && Spreads(i, ifno) && s.ifno == i.index)
            && OneHopOn(s.frame, f)
            && s.frame.ftype == if f.ftype == RREQ && !Knows(n, f, t) then RREQ else ASENT
  {
    FloodByName(n.ifs, ifno, Onward(f, ASENT), s);
    FloodByName(n.ifs, ifno, Onward(f, RREQ), s);
  }

  /** Where a request is answered it stops: the answering node sends no request. */
  lemma AnswerEndsSearch(n: Node, f: Frame, ifno: int, mac: Mac, t: Clock)
    requires f.ftype == RREQ
    ensures var o := HandleEthernet(n, f, ifno, mac, t);
            (exists s :: s in o.sends && s.frame.ftype == RREP) ==> forall s :: s in o.sends ==> s.frame.ftype != RREQ
  {
    FloodSends(n.ifs, ifno, Onward(f, ASENT));
    FloodSends(n.ifs, ifno, Onward(f, RREQ));
  }

  /** A notice causes nothing but notices: no request, no reply, nothing for a process, nothing parked, no new id. */
  lemma NoticeCausesNotices(n: Node, f: Frame, ifno: int, mac: Mac, t: Clock)
    requires f.ftype == ASENT
    ensures var o := HandleEthernet(n, f, ifno, mac, t);
            && (forall s :: s in o.sends ==> s.frame.ftype == ASENT && s.to == Broadcast)
            && o.peers == [] && o.node.pending == n.pending && o.node.bid == n.bid
  {
    FloodSends(n.ifs, ifno, Onward(f, ASENT));
  }

  // ---------- replies and messages ----------

  /** `g` is `f` passed on, with all that identifies it. */
  predicate Same(g: Frame, f: Frame) {
    && g.ftype == f.ftype && g.bid == f.bid && g.len == f.len && g.src == f.src && g.dst == f.dst
    && g.srcPort == f.srcPort && g.dstPort == f.dstPort
    && (if f.ftype == DATA then g.payload == f.payload && g.flag == f.flag else g.payload == "" && g.flag == 0)
  }

  /** A reply or message for another node that this one knows goes there, and nowhere else, with the hop count of
      its source as recorded here. */
  lemma PassedAlong(n: Node, f: Frame, ifno: int, mac: Mac, t: Clock)
    requires Heeded(n, f) && Addressed(f) && f.dst != n.self && Knows(n, f, t)
    ensures var o := HandleEthernet(n, f, ifno, mac, t);
            && |o.sends| == 1 && Same(o.sends[0].frame, f) && f.src in o.node.routes
            && o.sends[0].frame.hops == o.node.routes[f.src].hops
            && (f.src != f.dst ==> Along(n, f.dst, o.sends[0]) && Along(o.node, f.dst, o.sends[0]))
            && o.node.pending == n.pending && o.node.bid == n.bid && o.peers == []
  {
  }

  /** The request that a node sends for a frame it has parked. */
  predicate OwnRequest(g: Frame, self: Ip, dst: Ip, bid: int, flag: int, srcPort: int, dstPort: int) {
    && g.ftype == RREQ && g.src == self && g.dst == dst && g.bid == bid && g.flag == flag && g.hops == 0
    && g.srcPort == srcPort && g.dstPort == dstPort && g.len == 0 && g.payload == ""
  }

  /** One for which it knows no way is parked unchanged, in front, under its destination; a request of the node's
      own with a new id goes out on every interface but the receiving one, and nothing else. */
  lemma ParkedAndSought(n: Node, f: Frame, ifno: int, mac: Mac, t: Clock, s: Send)
    requires Heeded(n, f) && Addressed(f) && f.dst != n.self && !Knows(n, f, t)
    ensures var o := HandleEthernet(n, f, ifno, mac, t);
            && o.node.pending == [Parked(f.dst, f)] + n.pending && o.node.bid == n.bid + 1 && o.peers == []
            && (s in o.sends <==>
                && s.to.Broadcast? && (exists i :: i in n.ifs && Spreads(i, ifno) && s.ifno == i.index)
                && OwnRequest(s.frame, n.self, f.dst, n.bid + 1, 0, -1, f.dstPort))
  {
    FloodByName(n.ifs, ifno, Request(n.bid + 1, 0, -1, f.dstPort, f.dst, n.self), s);
  }

  /** Nothing is parked under `key` in front of position `i`. */
  predicate FirstUnder(pending: seq<Parked>, key: Ip, i: nat) {
    i < |pending| && pending[i].key == key && forall j :: 0 <= j < i ==> pending[j].key != key
  }

  /** A reply for this node releases the newest frame parked for the node it came from: that frame leaves the queue
      and, being a reply or a message, goes out along the entry for that node as it was parked. */
  lemma ParkedIsReleased(n: Node, f: Frame, ifno: int, mac: Mac, t: Clock, i: nat)
    requires Heeded(n, f) && f.ftype == RREP && f.dst == n.self && FirstUnder(n.pending, f.src, i)
    ensures var o, g := HandleEthernet(n, f, ifno, mac, t), n.pending[i].frame;
            && o.node.pending == n.pending[..i] + n.pending[i + 1..] && o.node.bid == n.bid && o.peers == []
            && (Addressed(g) ==> |o.sends| == 1 && Along(o.node, f.src, o.sends[0]))
            && (Addressed(g) ==> Same(o.sends[0].frame, g) && o.sends[0].frame.hops == g.hops)
            && (!Addressed(g) ==> o.sends == [])
  {
  }

  lemma NothingToRelease(n: Node, f: Frame, ifno: int, mac: Mac, t: Clock)
    requires Heeded(n, f) && f.ftype == RREP && f.dst == n.self
    requires forall p :: p in n.pending ==> p.key != f.src
    ensures var o := HandleEthernet(n, f, ifno, mac, t);
            o.sends == [] && o.peers == [] && o.node.pending == n.pending && o.node.bid == n.bid
  {
  }

  /** What is handed over: one message, to the path of the first entry with this port, or nothing if there is none. */
  ghost predicate HandedTo(ports: seq<PortEntry>, port: int, peers: seq<PeerMsg>, src: Ip, srcPort: int, msg: string) {
    if forall j :: 0 <= j < |ports| ==> ports[j].port != port then peers == []
    else exists i: nat :: FirstOn(ports, port, i) && peers == [PeerMsg(ports[i].path, src, srcPort, msg)]
  }

  /** A message for this node is handed to the process on its port, if there is one, and goes no further. */
  lemma MessageHandedOver(n: Node, f: Frame, ifno: int, mac: Mac, t: Clock)
    requires Heeded(n, f) && f.ftype == DATA && f.dst == n.self
    ensures var o := HandleEthernet(n, f, ifno, mac, t);
            && o.sends == [] && o.node.pending == n.pending && o.node.bid == n.bid
            && HandedTo(n.ports, f.dstPort, o.peers, f.src, f.srcPort, f.payload)
  {
    var i := PathFound(n.ports, f.dstPort);
  }

  // ---------- the rest of a handler run ----------

  /** A repeated forced discovery does nothing; an unknown type stops the process; nothing else does. */
  lemma OtherFrames(n: Node, f: Frame, ifno: int, mac: Mac, t: Clock)
    ensures var o := HandleEthernet(n, f, ifno, mac, t);
            && (!Heeded(n, f) ==> o.node == n && o.sends == [] && o.peers == [])
            && (Heeded(n, f) && !(RREQ <= f.ftype <= ASENT) ==> o.sends == [] && o.peers == [] && !o.node.up)
            && (!(Heeded(n, f) && !(RREQ <= f.ftype <= ASENT)) ==> o.node.up == n.up)
            && (o.status.Returns? && (o.status.code < 0 <==> Heeded(n, f) && !(RREQ <= f.ftype <= ASENT)))
            && o.node.ports == n.ports && o.node.nextPort == n.nextPort && o.node.stale == n.stale
  {
  }

  // ---------- requests of clients ----------

  /** `port` is the port a client with this path goes by: that of the first entry with its path, or the next free
      one, under which it is then entered in front. */
  ghost predicate Entered(ports: seq<PortEntry>, next: int, ports': seq<PortEntry>, next': int, path: string,
                          port: int)
  {
    if forall j :: 0 <= j < |ports| ==> ports[j].path != path
    then port == next && ports' == [PortEntry(next, path)] + ports && next' == next + 1
    else ports' == ports && next' == next && exists i: nat :: FirstWith(ports, path, i) && ports[i].port == port
  }

  /** The port of the client in the state after its request. */
  lemma ClientEntered(n: Node, p: Params, now: int) returns (port: int)
    requires n.ports != []
    ensures var n' := HandlePeer(n, p, now).node; Entered(n.ports, n.nextPort, n'.ports, n'.nextPort, p.path, port)
    ensures port == Register(n.ports, n.nextPort, p.path).2
  {
    var i := PortFound(n.ports, p.path);
    port := Register(n.ports, n.nextPort, p.path).2;
  }

  /** A message for a node the source knows goes there at once: with the id of the entry, hop count 0 and the
      client's own flag. */
  lemma ClientMessageSent(n: Node, p: Params, now: int) returns (port: int)
    requires n.ports != [] && p.dst != n.self && Young(n, p.dst, now) && p.flag != 1
    ensures var o := HandlePeer(n, p, now);
            && Entered(n.ports, n.nextPort, o.node.ports, o.node.nextPort, p.path, port)
            && |o.sends| == 1 && Along(n, p.dst, o.sends[0])
            && o.sends[0].frame == Frame(3, n.routes[p.dst].bid, 0, 1440, p.flag, port, p.dstPort, p.dst, n.self, p.msg)
            && o.node == n.(ports := o.node.ports, nextPort := o.node.nextPort) && o.peers == []
  {
    port := ClientEntered(n, p, now);
  }

  /** Otherwise it is parked with id 0, and a request with the next id and the client's flag goes out on every
      interface. An entry for the destination is gone. */
  lemma ClientMessageParked(n: Node, p: Params, now: int, s: Send) returns (port: int)
    requires n.ports != [] && p.dst != n.self && !(Young(n, p.dst, now) && p.flag != 1)
    ensures var o := HandlePeer(n, p, now);
            && Entered(n.ports, n.nextPort, o.node.ports, o.node.nextPort, p.path, port)
            && (exists hops :: o.node.pending ==
                  [Parked(p.dst, Frame(3, 0, hops, 1440, 0, port, p.dstPort, p.dst, n.self, p.msg))] + n.pending)
            && o.node.routes == n.routes - {p.dst} && o.node.bid == n.bid + 2 && o.peers == []
            && (s in o.sends <==>
                && s.to.Broadcast? && (exists i :: i in n.ifs && Spreads(i, -1) && s.ifno == i.index)
                && OwnRequest(s.frame, n.self, p.dst, n.bid + 1, p.flag, port, p.dstPort))
  {
    port := ClientEntered(n, p, now);
    FloodByName(n.ifs, -1, Request(n.bid + 1, p.flag, port, p.dstPort, p.dst, n.self), s);
    assert HandlePeer(n, p, now).node.pending ==
           [Parked(p.dst, Frame(DATA, 0, n.bid + 2, 1440, 0, port, p.dstPort, p.dst, n.self, p.msg))] + n.pending;
  }

  /** A message for this node itself is handed over at once; with no process on its port the process stops. */
  lemma ClientMessageLocal(n: Node, p: Params, now: int) returns (port: int)
    requires n.ports != [] && p.dst == n.self
    ensures var o := HandlePeer(n, p, now);
            && Entered(n.ports, n.nextPort, o.node.ports, o.node.nextPort, p.path, port)
            && o.sends == [] && o.node.routes == n.routes && o.node.pending == n.pending && o.node.bid == n.bid
            && HandedTo(o.node.ports, p.dstPort, o.peers, n.self, port, p.msg)
            && (o.node.up <==> n.up && o.peers != [])
  {
    port := ClientEntered(n, p, now);
    var i := PathFound(HandlePeer(n, p, now).node.ports, p.dstPort);
  }
}

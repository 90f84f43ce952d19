/** The ODR process itself: the two handlers of `odr_and.c` working on the linked lists and on frames in
    wire byte order, each proved to do what the model on values says. */
module OdrNode {
  import opened Basics
  import opened Frames
  import opened OdrModel
  import opened RoutingTableList
  import opened PendingQueueList
  import opened PortTableList
  import opened NodeHistory

  function Mapped(conv: Frame -> Frame, sends: seq<Send>): seq<Send> {
    if sends == [] then [] else [Send(sends[0].ifno, sends[0].to, conv(sends[0].frame))] + Mapped(conv, sends[1..])
  }

  /** Frames leave the process in network order. */
  function OnWire(sends: seq<Send>): seq<Send> {
    Mapped(Convert, sends)
  }

  lemma MappedCons(conv: Frame -> Frame, s: Send, rest: seq<Send>)
    ensures Mapped(conv, [s] + rest) == [Send(s.ifno, s.to, conv(s.frame))] + Mapped(conv, rest)
  {
  }

  lemma {:induction false} MappedConcat(conv: Frame -> Frame, a: seq<Send>, b: seq<Send>)
    ensures Mapped(conv, a + b) == Mapped(conv, a) + Mapped(conv, b)
  {
    if a == [] {
      assert a + b == b;
    } else {
      var rest := a[1..];
      MappedConcat(conv, rest, b);
      assert a == [a[0]] + rest && a + b == [a[0]] + (rest + b);
      MappedCons(conv, a[0], rest);
      MappedCons(conv, a[0], rest + b);
    }
  }

  lemma OneOnWire(s: Send)
    ensures OnWire([s]) == [Send(s.ifno, s.to, Convert(s.frame))]
  {
    var conv := Convert;
    assert Mapped(conv, [s][1..]) == [];
    assert conv(s.frame) == Convert(s.frame);
  }

  /** Every frame on the wire was converted exactly once: the receiver's conversion gives back what was meant. */
  lemma {:induction false} ReceiverRecovers(sends: seq<Send>, i: nat)
    requires i < |sends|
    ensures |OnWire(sends)| == |sends|
    ensures OnWire(sends)[i].ifno == sends[i].ifno && OnWire(sends)[i].to == sends[i].to
    ensures Convert(OnWire(sends)[i].frame) == sends[i].frame
  {
    var conv := Convert;
    assert conv(sends[0].frame) == Convert(sends[0].frame);
    assert OnWire(sends) == [Send(sends[0].ifno, sends[0].to, Convert(sends[0].frame))] + OnWire(sends[1..]);
    if i == 0 {
      ConvertTwice(sends[0].frame);
    }
    if |sends| > 1 {
      ReceiverRecovers(sends[1..], if i == 0 then 0 else i - 1);
    }
  }

  class Odr {
    const self: Ip
    const ifs: seq<Interface>
    const stale: int
    const table: RoutingTable
    const queue: PendingQueue
    const ports: PortTable
    var broadcastId: int
    var up: bool

    ghost function Repr(): set<object>
      reads this, table, queue, ports
    {
      {this, table, queue, ports} + table.nodes + queue.nodes
    }

    ghost predicate Valid()
      reads table, queue, ports, table.nodes, queue.nodes
    {
      table.Valid() && queue.Valid() && ports.Valid()
    }

    /** The state on values. Parked frames are in host order. */
    ghost function Abs(): Node
      reads this, table, queue, ports
    {
      Node(self, ifs, stale, table.Routes(), queue.contents, ports.entries, ports.nextPort, broadcastId, up)
    }

    /** The same, if all three lists are well formed. */
    ghost function State(): Option<Node>
      reads this, table, queue, ports, table.nodes, queue.nodes
    {
      if Valid() then Some(Abs()) else None
    }

    /** After a step that may have changed the queue and the counter only. */
    twostate lemma QueueStep(n: Node)
      requires old(Valid()) && queue.Valid()
      requires unchanged(table) && unchanged(table.nodes) && unchanged(ports)
      requires n == old(Abs()).(pending := queue.contents, bid := broadcastId, up := up)
      ensures State() == Some(n)
    {
      assert table.Valid() && ports.Valid();
    }

    /** After a step that may have changed the routing table only. */
    twostate lemma TableStep(n: Node)
      requires old(Valid()) && table.Valid() && unchanged(this)
      requires unchanged(queue) && unchanged(queue.nodes) && unchanged(ports)
      requires n == old(Abs()).(routes := table.Routes())
      ensures State() == Some(n)
    {
      assert queue.Valid() && ports.Valid();
    }

    /** After a step that may have changed the port table only. */
    twostate lemma PortsStep(n: Node)
      requires old(Valid()) && ports.Valid() && unchanged(this)
      requires unchanged(table) && unchanged(table.nodes) && unchanged(queue) && unchanged(queue.nodes)
      requires n == old(Abs()).(ports := ports.entries, nextPort := ports.nextPort)
      ensures State() == Some(n)
    {
      assert table.Valid() && queue.Valid();
    }

    /** `main` up to its loop. */
    constructor (ip: Ip, interfaces: seq<Interface>, staleParam: int)
      ensures Valid() && Abs() == Boot(ip, interfaces, staleParam)
      ensures fresh(Repr())
    {
      self, ifs, stale := ip, interfaces, staleParam;
      table := new RoutingTable();
      queue := new PendingQueue();
      ports := new PortTable();
      broadcastId, up := 10, true;
      new;
      ports.InsertMapPortSp(SERV_PORT, SERV_PATH);
    }

    /** `get_broadcast_id` */
    method GetBroadcastId() returns (id: int)
      modifies this`broadcastId
      ensures id == broadcastId == old(broadcastId) + 1
    {
      broadcastId := broadcastId + 1;
      return broadcastId;
    }

    /** `construct_odr`: the frame is built in network order; only data frames carry a payload. */
    method ConstructOdr(ftype: int, bid: int, hops: int, len: int, flag: int, srcPort: int, dstPort: int,
                        dst: Ip, src: Ip, payload: string) returns (f: Frame)
      ensures f == Convert(Frame(ftype, bid, hops, len, flag, srcPort, dstPort, dst, src,
                                 if ftype == DATA then payload else ""))
    {
      f := Frame(Swap(ftype), Swap(bid), Swap(hops), Swap(len), Swap(flag), Swap(srcPort), Swap(dstPort), dst, src, "");
      if ftype == DATA {
        f := f.(payload := payload);
      }
    }

    /** `send_req_broadcast` */
    method SendReqBroadcast(except: int, bid: int, srcPort: int, dstPort: int, hops: int, flag: int,
                            dst: Ip, src: Ip, payload: string, asent: int) returns (out: seq<Send>)
      ensures out == OnWire(Flood(ifs, except,
                Frame(if asent == 1 then ASENT else RREQ, bid, hops, 0, flag, srcPort, dstPort, dst, src, "")))
    {
      var ftype := RREQ;
      if asent == 1 {
        ftype := ASENT;
      }
      ghost var g := Frame(ftype, bid, hops, 0, flag, srcPort, dstPort, dst, src, "");
      out := [];
      for i := 0 to |ifs|
        invariant out + OnWire(Flood(ifs[i..], except, g)) == OnWire(Flood(ifs, except, g))
      {
        var name := BaseName(ifs[i].name);
        assert ifs[i..][1..] == ifs[i + 1..];
        if name != "lo" && name != "eth0" && ifs[i].index != except {
          var f := ConstructOdr(ftype, bid, hops, 0, flag, srcPort, dstPort, dst, src, payload);
          ghost var s := Send(ifs[i].index, Broadcast, g);
          OneOnWire(s);
          MappedConcat(Convert, [s], Flood(ifs[i + 1..], except, g));
          assert Flood(ifs[i..], except, g) == [s] + Flood(ifs[i + 1..], except, g);
          out := out + [Send(ifs[i].index, Broadcast, f)];
        } else {
          assert Flood(ifs[i..], except, g) == Flood(ifs[i + 1..], except, g);
        }
      }
    }

    /** `send_rrep_packet` with `swap` set: the addresses and ports change places and the id is a new one. */
    method SendRrepPacket(f: Frame, entry: REntry, hops: int) returns (out: seq<Send>)
      modifies this`broadcastId
      ensures broadcastId == old(broadcastId) + 1
      ensures out == OnWire([Via(entry.Value().route, Reply(f, broadcastId, hops))])
    {
      var bid := GetBroadcastId();
      var g := ConstructOdr(RREP, bid, hops, f.len, 0, f.dstPort, f.srcPort, f.src, f.dst, f.payload);
      out := [Send(entry.ifNo, Unicast(entry.nextHop), g)];
      OneOnWire(Via(entry.Value().route, Reply(f, broadcastId, hops)));
    }

    /** `send_rrep_packet` with `swap` clear. */
    method ForwardRrep(f: Frame, entry: REntry, hops: int) returns (out: seq<Send>)
      ensures out == OnWire([Via(entry.Value().route, Forwarded(f, hops))])
    {
      var g := ConstructOdr(RREP, f.bid, hops, f.len, 0, f.srcPort, f.dstPort, f.dst, f.src, f.payload);
      out := [Send(entry.ifNo, Unicast(entry.nextHop), g)];
      OneOnWire(Via(entry.Value().route, Forwarded(f, hops)));
    }

    /** The first half of every case: `check_r_entry` on the entry found, or `insert_r_entry`. */
    method LearnSource(f: Frame, found: REntry?, ifno: int, mac: Mac, now: int) returns (entry: REntry, updated: int)
      requires table.Valid()
      requires if found == null then f.src !in table.Routes() else found in table.spine && found.destip == f.src
      modifies table, table.nodes
      ensures table.Valid()
      ensures table.Routes() == Learn(old(table.Routes()), f, ifno, mac, now).0
      ensures updated == if Learn(old(table.Routes()), f, ifno, mac, now).1 then 1 else 0
      ensures f.src in table.Routes() && entry.Value() == Keyed(f.src, table.Routes()[f.src])
      ensures if found == null then fresh(entry) else entry == found
      ensures forall e :: e in old(table.nodes) && e != found ==> e.Value() == old(e.Value())
      ensures fresh(table.nodes - old(table.nodes))
    {
      table.Open();
      if found != null {
        entry := found;
        updated := table.CheckREntry(f, entry, ifno, mac, now);
      } else {
        ViewInsert(table.entries, Keyed(f.src, RouteOf(f, ifno, mac, now)));
        entry := table.InsertREntry(f, ifno, mac, now);
        updated := 1;
      }
    }

    ghost function RouteIn(e: REntry?): Option<Route>
      reads if e == null then {} else {e}
    {
      if e == null then None else Some(e.Value().route)
    }

    /** Both lookups; `dest` may end up pointing at an entry that is no longer linked. */
    method TwoLookups(f: Frame, t: Clock) returns (dest: REntry?, src: REntry?)
      requires table.Valid()
      modifies table, table.nodes
      ensures table.Valid()
      ensures table.nodes == old(table.nodes)
      ensures var (r1, d) := Lookup(old(table.Routes()), f.dst, f.flag, t.destLookup, stale);
              var (r2, s) := Lookup(r1, f.src, 0, t.srcLookup, stale);
              && table.Routes() == r2 && RouteIn(dest) == d && (src != null <==> s.Some?)
      ensures dest != null ==> dest in table.nodes && dest.destip == f.dst
      ensures if src == null then f.src !in table.Routes() else src in table.spine && src.destip == f.src
      ensures dest != null && src != null && f.src == f.dst ==> dest == src
    {
      var destCode, srcCode;
      destCode, dest := table.GetREntry(f.dst, f.flag, t.destLookup, stale);
      if destCode <= 0 {
        dest := null;
      }
      srcCode, src := table.GetREntry(f.src, 0, t.srcLookup, stale);
      if srcCode <= 0 {
        src := null;
      }
      if dest != null && src != null && f.src == f.dst {
        table.OnePerAddress(dest, src);
      }
    }

    /** Both lookups, then the table write. */
    method LookupAndLearn(f: Frame, ifno: int, mac: Mac, t: Clock) returns (dest: REntry?, src: REntry, updated: int)
      requires State().Some?
      modifies table, table.nodes
      ensures fresh(table.nodes - old(table.nodes))
      ensures var g := Ingest(old(State()).value, f, ifno, mac, t);
              && State() == Some(old(State()).value.(routes := g.routes))
              && RouteIn(dest) == g.dest && updated == (if g.updated then 1 else 0)
      ensures f.src in table.Routes() && src.Value() == Keyed(f.src, table.Routes()[f.src])
    {
      var found: REntry?;
      dest, found := TwoLookups(f, t);
      src, updated := LearnSource(f, found, ifno, mac, t.write);
      TableStep(old(Abs()).(routes := table.Routes()));
    }

    /** `case __RREQ` */
    method HandleRreq(f: Frame, ifno: int, dest: REntry?, src: REntry, asent: int) returns (out: seq<Send>)
      requires State().Some? && f.src in table.Routes() && src.Value() == Keyed(f.src, table.Routes()[f.src])
      requires asent == 0 || asent == 1
      modifies this`broadcastId
      ensures var o := OnRreq(old(State()).value, f, ifno, RouteIn(dest), asent == 1);
              State() == Some(o.node) && out == OnWire(o.sends)
    {
      if f.dst == self {
        out := SendRrepPacket(f, src, 0);
      } else if dest != null {
        out := SendRrepPacket(f, src, dest.noHops);
        if asent == 1 {
          var more := SendReqBroadcast(ifno, f.bid, f.srcPort, f.dstPort, f.hops + 1, f.flag,
                                       f.dst, f.src, f.payload, 1);
          MappedConcat(Convert, [Via(src.Value().route, Reply(f, broadcastId, dest.noHops))],
                       Flood(ifs, ifno, Onward(f, ASENT)));
          out := out + more;
        } else {
          assert [Via(src.Value().route, Reply(f, broadcastId, dest.noHops))] + []
              == [Via(src.Value().route, Reply(f, broadcastId, dest.noHops))];
        }
      } else if asent == 0 {
        out := [];
      } else {
        out := SendReqBroadcast(ifno, f.bid, f.srcPort, f.dstPort, f.hops + 1, f.flag, f.dst, f.src, f.payload, 0);
      }
      QueueStep(OnRreq(old(Abs()), f, ifno, RouteIn(dest), asent == 1).node);
    }

    /** The end of `case __RREP` and of `case __DATA`: no route, so park the frame and search. */
    method ParkFrame(f: Frame, ifno: int) returns (out: seq<Send>)
      requires State().Some?
      modifies this`broadcastId, queue, queue.nodes
      ensures fresh(queue.nodes - old(queue.nodes))
      ensures var o := ParkAndSearch(old(State()).value, f, ifno); State() == Some(o.node) && out == OnWire(o.sends)
    {
      var bid := GetBroadcastId();
      var code := queue.InsertPendingQueue(f, f.dst);
      QueueStep(ParkAndSearch(old(Abs()), f, ifno).node);
      out := SendReqBroadcast(ifno, bid, -1, f.dstPort, 0, 0, f.dst, self, f.payload, 0);
    }

    /** A reply for this node releases the newest frame parked for the node it came from. */
    method Release(f: Frame, src: REntry) returns (out: seq<Send>)
      requires State().Some? && f.src in table.Routes() && src.Value() == Keyed(f.src, table.Routes()[f.src])
      requires f.dst == self
      modifies queue, queue.nodes
      ensures fresh(queue.nodes - old(queue.nodes))
      ensures var o := OnRrep(old(State()).value, f, 0, None);
              State() == Some(o.node) && out == OnWire(o.sends)
    {
      var parked := queue.LookupPendingQueue(f.src);
      QueueStep(old(Abs()).(pending := queue.contents));
      out := [];
      if parked.Some? {
        out := Resend(parked.value, src);
      }
    }

    /** A parked reply is rebuilt, a parked data frame converted to network order. */
    method Resend(parked: Frame, src: REntry) returns (out: seq<Send>)
      ensures out == OnWire(if parked.ftype == RREP then [Via(src.Value().route, Forwarded(parked, parked.hops))]
                            else if parked.ftype == DATA then [Via(src.Value().route, parked)] else [])
    {
      out := [];
      if parked.ftype == RREP {
        out := ForwardRrep(parked, src, parked.hops);
      } else if parked.ftype == DATA {
        OneOnWire(Via(src.Value().route, parked));
        var frame := Convert(parked);
        out := [Send(src.ifNo, Unicast(src.nextHop), frame)];
      }
    }

    /** `case __RREP` */
    method HandleRrep(f: Frame, ifno: int, dest: REntry?, src: REntry) returns (out: seq<Send>)
      requires State().Some? && f.src in table.Routes() && src.Value() == Keyed(f.src, table.Routes()[f.src])
      modifies this`broadcastId, queue, queue.nodes
      ensures fresh(queue.nodes - old(queue.nodes))
      ensures var o := OnRrep(old(State()).value, f, ifno, RouteIn(dest));
              State() == Some(o.node) && out == OnWire(o.sends)
    {
      if f.dst == self {
        out := Release(f, src);
      } else if dest != null {
        out := ForwardRrep(f, dest, src.noHops);
      } else {
        out := ParkFrame(f, ifno);
      }
    }

    /** `case __DATA`, with `process_data_message` */
    method HandleData(f: Frame, ifno: int, dest: REntry?, src: REntry) returns (out: seq<Send>, peers: seq<PeerMsg>)
      requires State().Some? && f.src in table.Routes() && src.Value() == Keyed(f.src, table.Routes()[f.src])
      modifies this`broadcastId, queue, queue.nodes
      ensures fresh(queue.nodes - old(queue.nodes))
      ensures var o := OnData(old(State()).value, f, ifno, RouteIn(dest));
              State() == Some(o.node) && out == OnWire(o.sends) && peers == o.peers
    {
      out, peers := [], [];
      if f.dst == self {
        var entry := ports.FetchEntryPort(f.dstPort);
        if entry != null {
          peers := [PeerMsg(entry.sunPath, f.src, f.srcPort, f.payload)];
        }
      } else if dest != null {
        var frame := f.(hops := src.noHops);
        OneOnWire(Via(dest.Value().route, frame));
        frame := Convert(frame);
        out := [Send(dest.ifNo, Unicast(dest.nextHop), frame)];
      } else {
        out := ParkFrame(f, ifno);
      }
    }

    /** `case __ASENT` */
    method HandleAsent(f: Frame, ifno: int, asent: int) returns (out: seq<Send>)
      requires State().Some? && (asent == 0 || asent == 1)
      ensures out == OnWire(OnAsent(State().value, f, ifno, asent == 1).sends)
    {
      out := [];
      if asent == 1 {
        out := SendReqBroadcast(ifno, f.bid, f.srcPort, f.dstPort, f.hops + 1, f.flag, f.dst, f.src, f.payload, 1);
      }
    }

    /** The `switch` of `handle_ethernet_msg`. */
    method Switch(f: Frame, ifno: int, dest: REntry?, src: REntry, asent: int)
      returns (status: Status, out: seq<Send>, peers: seq<PeerMsg>)
      requires State().Some? && f.src in table.Routes() && src.Value() == Keyed(f.src, table.Routes()[f.src])
      requires (asent == 0 || asent == 1) && RREQ <= f.ftype <= ASENT
      modifies this`broadcastId, queue, queue.nodes
      ensures fresh(queue.nodes - old(queue.nodes))
      ensures var o := Dispatch(old(State()).value, f, ifno, RouteIn(dest), asent == 1);
              State() == Some(o.node) && out == OnWire(o.sends) && peers == o.peers && status == o.status
    {
      status, out, peers := Returns(0), [], [];
      if f.ftype == RREQ {
        out := HandleRreq(f, ifno, dest, src, asent);
      } else if f.ftype == RREP {
        out := HandleRrep(f, ifno, dest, src);
      } else if f.ftype == DATA {
        out, peers := HandleData(f, ifno, dest, src);
      } else {
        out := HandleAsent(f, ifno, asent);
      }
    }

    /** From the two lookups to the end of `handle_ethernet_msg`, for a frame of a known type. */
    method Accept(f: Frame, ifno: int, mac: Mac, t: Clock)
      returns (status: Status, out: seq<Send>, peers: seq<PeerMsg>)
      requires State().Some? && RREQ <= f.ftype <= ASENT
      modifies this`broadcastId, table, table.nodes, queue, queue.nodes
      ensures fresh(table.nodes - old(table.nodes)) && fresh(queue.nodes - old(queue.nodes))
      ensures var n := old(State()).value;
              var g := Ingest(n, f, ifno, mac, t);
              var o := Dispatch(n.(routes := g.routes), f, ifno, g.dest, g.updated);
              State() == Some(o.node) && out == OnWire(o.sends) && peers == o.peers && status == o.status
    {
      var dest, src, asent := LookupAndLearn(f, ifno, mac, t);
      status, out, peers := Switch(f, ifno, dest, src, asent);
    }

    /** The same for any other type: the lookups have been made and the process stops. */
    method Reject(f: Frame, t: Clock)
      requires State().Some?
      modifies this`up, table, table.nodes
      ensures table.nodes == old(table.nodes)
      ensures State() == Some(old(State()).value.(routes := Lookups(old(State()).value, f, t).0, up := false))
    {
      var d, s := TwoLookups(f, t);
      up := false;
    }

    /** `handle_ethernet_msg`: the received frame is in network order, and so is everything sent. */
    method HandleEthernetMsg(wire: Frame, ifno: int, mac: Mac, t: Clock)
      returns (status: Status, out: seq<Send>, peers: seq<PeerMsg>)
      requires State().Some?
      modifies this, table, table.nodes, queue, queue.nodes
      ensures fresh(table.nodes - old(table.nodes)) && fresh(queue.nodes - old(queue.nodes))
      ensures var o := HandleEthernet(old(State()).value, Convert(wire), ifno, mac, t);
              State() == Some(o.node) && out == OnWire(o.sends) && peers == o.peers && status == o.status
    {
      var f := Convert(wire);
      if f.flag == 1 {
        var greater := table.IsBroadidGreater(f.src, f.bid);
        if greater < 0 {
          return Returns(1), [], [];
        }
      }
      if RREQ <= f.ftype <= ASENT {
        status, out, peers := Accept(f, ifno, mac, t);
      } else {
        Reject(f, t);
        return Returns(-1), [], [];
      }
    }

    /** `handle_peer_msg`; a failed assertion stops the process. */
    method HandlePeerMsg(p: Params, now: int) returns (status: Status, out: seq<Send>, peers: seq<PeerMsg>)
      requires State().Some?
      modifies this, table, table.nodes, queue, queue.nodes, ports
      ensures fresh(queue.nodes - old(queue.nodes)) && table.nodes == old(table.nodes)
      ensures var o := HandlePeer(old(State()).value, p, now);
              State() == Some(o.node) && out == OnWire(o.sends) && peers == o.peers && status == o.status
    {
      out, peers := [], [];
      var mapEntry := ports.FetchEntryPath(p.path);
      PortsStep(old(Abs()).(ports := ports.entries, nextPort := ports.nextPort));
      if mapEntry == null {
        up := false;
        return Returns(-1), [], [];
      }
      if p.dst == self {
        status, peers := HandToPeer(p, mapEntry.portno);
      } else {
        status, out := SendOrSearch(p, mapEntry.portno, now);
      }
    }

    /** The main loop over any sequence of events, frames arriving in network order: the lists stay well formed
        throughout, and state, frames and peer messages are those of the model. */
    method Serve(life: seq<Event>) returns (out: seq<Send>, peers: seq<PeerMsg>)
      requires State().Some?
      modifies this, table, table.nodes, queue, queue.nodes, ports
      ensures fresh(table.nodes - old(table.nodes)) && fresh(queue.nodes - old(queue.nodes))
      ensures var s := MainLoop(old(State()).value, life);
              State() == Some(s.node) && out == OnWire(s.sends) && peers == s.peers
    {
      out, peers := [], [];
      ghost var n := State().value;
      for i := 0 to |life|
        invariant fresh(table.nodes - old(table.nodes)) && fresh(queue.nodes - old(queue.nodes))
        invariant var s := MainLoop(n, life[..i]); State() == Some(s.node) && out == OnWire(s.sends) && peers == s.peers
      {
        assert life[..i + 1][..i] == life[..i];
        if up {
          ghost var s := MainLoop(n, life[..i]);
          var o, q := HandleEvent(life[i]);
          MappedConcat(Convert, s.sends, React(s.node, life[i]).sends);
          out, peers := out + o, peers + q;
        }
      }
      assert life[..|life|] == life;
    }

    /** One round of the main loop. */
    method HandleEvent(e: Event) returns (out: seq<Send>, peers: seq<PeerMsg>)
      requires State().Some?
      modifies this, table, table.nodes, queue, queue.nodes, ports
      ensures fresh(table.nodes - old(table.nodes)) && fresh(queue.nodes - old(queue.nodes))
      ensures var o := React(old(State()).value, e);
              State() == Some(o.node) && out == OnWire(o.sends) && peers == o.peers
    {
      var status;
      match e
      case Wire(f, ifno, mac, t) =>
        ConvertTwice(f);
        status, out, peers := HandleEthernetMsg(Convert(f), ifno, mac, t);
      case Client(p, now) =>
        status, out, peers := HandlePeerMsg(p, now);
    }

    method HandToPeer(p: Params, port: int) returns (status: Status, peers: seq<PeerMsg>)
      requires State().Some?
      modifies this`up
      ensures var o := PeerLocal(old(State()).value, p, port);
              State() == Some(o.node) && o.sends == [] && peers == o.peers && status == o.status
    {
      var peer := ports.FetchEntryPort(p.dstPort);
      if peer == null {
        up := false;
        return Aborts, [];
      }
      return Returns(1), [PeerMsg(peer.sunPath, self, port, p.msg)];
    }

    /** The rest of `handle_peer_msg`, from the lookup of the destination on. */
    method SendOrSearch(p: Params, port: int, now: int) returns (status: Status, out: seq<Send>)
      requires State().Some?
      modifies this`broadcastId, table, table.nodes, queue, queue.nodes
      ensures table.nodes == old(table.nodes) && fresh(queue.nodes - old(queue.nodes))
      ensures var o := PeerRemote(old(State()).value, p, port, now);
              State() == Some(o.node) && out == OnWire(o.sends) && o.peers == [] && status == o.status
    {
      var route := LookUp(p, now);
      status := Returns(1);
      if route == null {
        out := Search(p, port);
      } else {
        out := SendDataMessage(p, port, route);
      }
    }

    /** The lookup of the destination; null where the source's return code is not positive. */
    method LookUp(p: Params, now: int) returns (route: REntry?)
      requires State().Some?
      modifies table, table.nodes
      ensures table.nodes == old(table.nodes)
      ensures var (routes, dest) := Lookup(old(State()).value.routes, p.dst, p.flag, now, stale);
              State() == Some(old(State()).value.(routes := routes)) && RouteIn(route) == dest
    {
      var code;
      code, route := table.GetREntry(p.dst, p.flag, now, stale);
      TableStep(old(Abs()).(routes := table.Routes()));
      if code <= 0 {
        route := null;
      }
    }

    /** `send_data_message` */
    method SendDataMessage(p: Params, port: int, route: REntry) returns (out: seq<Send>)
      ensures out == OnWire([Via(route.Value().route,
                Frame(DATA, route.broadcastId, 0, PAYLOAD_SIZE, p.flag, port, p.dstPort, p.dst, self, p.msg))])
    {
      var frame := ConstructOdr(DATA, route.broadcastId, 0, PAYLOAD_SIZE, p.flag, port, p.dstPort, p.dst, self, p.msg);
      OneOnWire(Via(route.Value().route,
                    Frame(DATA, route.broadcastId, 0, PAYLOAD_SIZE, p.flag, port, p.dstPort, p.dst, self, p.msg)));
      out := [Send(route.ifNo, Unicast(route.nextHop), frame)];
    }

    method Search(p: Params, port: int) returns (out: seq<Send>)
      requires State().Some?
      modifies this`broadcastId, queue, queue.nodes
      ensures fresh(queue.nodes - old(queue.nodes))
      ensures var o := SearchFor(old(State()).value, p, port);
              State() == Some(o.node) && out == OnWire(o.sends)
    {
      var bid := GetBroadcastId();
      out := SendReqBroadcast(-1, bid, port, p.dstPort, 0, p.flag, p.dst, self, p.msg, 0);
      var id := GetBroadcastId();
      var frame := BuildParked(p, port, id);
      var r := queue.InsertPendingQueue(frame, p.dst);
      QueueStep(SearchFor(old(Abs()), p, port).node);
    }

    /** The data frame is built for the wire and converted back before it is parked. */
    method BuildParked(p: Params, port: int, id: int) returns (frame: Frame)
      ensures frame == Frame(DATA, 0, id, PAYLOAD_SIZE, 0, port, p.dstPort, p.dst, self, p.msg)
    {
      frame := ConstructOdr(DATA, 0, id, PAYLOAD_SIZE, 0, port, p.dstPort, p.dst, self, p.msg);
      ConvertTwice(Frame(DATA, 0, id, PAYLOAD_SIZE, 0, port, p.dstPort, p.dst, self, p.msg));
      frame := Convert(frame);
    }
  }
}

/** One ODR process on values: what `handle_ethernet_msg` and `handle_peer_msg` do to the
    routing table, the queue of parked frames, the port table and the broadcast-id counter,
    and which frames and peer messages they emit. */
module OdrModel {
  import opened Basics
  import opened Frames

  const SERV_PORT := 5500
  const FIRST_PORT := 909
  const SERV_PATH := "servpathfile"

  datatype Interface = Interface(name: string, index: int)

  /** `r_entry_t` without its key and its links. Only the seconds of the timestamp are ever compared. */
  datatype Route = Route(nextHop: Mac, ifno: int, hops: int, bid: int, time: int)

  datatype Parked = Parked(key: Ip, frame: Frame)

  datatype PortEntry = PortEntry(port: int, path: string)

  /** `up` is false once a handler made the process leave its main loop. */
  datatype Node = Node(
    self: Ip, ifs: seq<Interface>, stale: int, routes: map<Ip, Route>, pending: seq<Parked>,
    ports: seq<PortEntry>, nextPort: int, bid: int, up: bool)

  datatype Target = Broadcast | Unicast(mac: Mac)

  datatype Send = Send(ifno: int, to: Target, frame: Frame)

  datatype PeerMsg = PeerMsg(path: string, srcIp: Ip, srcPort: int, payload: string)

  datatype Status = Returns(code: int) | Aborts

  datatype Outcome = Outcome(node: Node, sends: seq<Send>, peers: seq<PeerMsg>, status: Status)

  /** The clock readings of one handler run: at the two lookups and at the table write. */
  datatype Clock = Clock(destLookup: int, srcLookup: int, write: int)

  /** `send_params_t` */
  datatype Params = Params(dst: Ip, path: string, msg: string, dstPort: int, flag: int)

  /** A process that has just entered its main loop. */
  function Boot(self: Ip, ifs: seq<Interface>, stale: int): Node {
    Node(self, ifs, stale, map[], [], [PortEntry(SERV_PORT, SERV_PATH)], FIRST_PORT, 10, true)
  }

  // ---------- routing table ----------

  predicate Expired(r: Route, now: int, stale: int) {
    now - r.time >= stale
  }

  /** `get_r_entry`: an expired entry, or one asked for with the discovery flag, is deleted. */
  function Lookup(routes: map<Ip, Route>, ip: Ip, flag: int, now: int, stale: int): (map<Ip, Route>, Option<Route>) {
    if ip !in routes then (routes, None)
    else if Expired(routes[ip], now, stale) || flag == 1 then (routes - {ip}, None)
    else (routes, Some(routes[ip]))
  }

  /** The acceptance test of `check_r_entry`. */
  predicate Better(f: Frame, r: Route) {
    f.bid > r.bid || (f.bid == r.bid && f.hops + 1 <= r.hops)
  }

  function RouteOf(f: Frame, ifno: int, mac: Mac, now: int): Route {
    Route(mac, ifno, f.hops + 1, f.bid, now)
  }

  /** Insert an entry for the frame's source, or let `check_r_entry` decide; also says whether the entry was written. */
  function Learn(routes: map<Ip, Route>, f: Frame, ifno: int, mac: Mac, now: int): (map<Ip, Route>, bool) {
    if f.src in routes && !Better(f, routes[f.src]) then (routes, false)
    else (routes[f.src := RouteOf(f, ifno, mac, now)], true)
  }

  /** `is_broadid_greater` */
  predicate FreshId(routes: map<Ip, Route>, src: Ip, bid: int) {
    !(src in routes && routes[src].bid >= bid)
  }

  // ---------- pending queue ----------

  function Park(pending: seq<Parked>, key: Ip, f: Frame): seq<Parked> {
    [Parked(key, f)] + pending
  }

  /** Position of the first frame parked under `key`, or the length of the queue. */
  function FirstParked(pending: seq<Parked>, key: Ip): (i: nat)
    ensures i <= |pending|
    ensures i < |pending| ==> pending[i].key == key
    ensures forall j :: 0 <= j < i ==> pending[j].key != key
  {
    if pending == [] then 0
    else if pending[0].key == key then 0
    else 1 + FirstParked(pending[1..], key)
  }

  /** `lookup_pending_queue` */
  function Unpark(pending: seq<Parked>, key: Ip): (seq<Parked>, Option<Frame>) {
    var i := FirstParked(pending, key);
    if i == |pending| then (pending, None)
    else (pending[..i] + pending[i + 1..], Some(pending[i].frame))
  }

  // ---------- port table ----------

  /** `fetch_entry_port` */
  function PathOf(ports: seq<PortEntry>, port: int): Option<string> {
    if ports == [] then None
    else if ports[0].port == port then Some(ports[0].path)
    else PathOf(ports[1..], port)
  }

  function PortOf(ports: seq<PortEntry>, path: string): Option<int> {
    if ports == [] then None
    else if ports[0].path == path then Some(ports[0].port)
    else PortOf(ports[1..], path)
  }

  /** `fetch_entry_path` on a table that is not empty. */
  function Register(ports: seq<PortEntry>, nextPort: int, path: string): (seq<PortEntry>, int, int) {
    match PortOf(ports, path)
    case Some(p) => (ports, nextPort, p)
    case None => ([PortEntry(nextPort, path)] + ports, nextPort + 1, nextPort)
  }

  // ---------- frames built by a node ----------

  /** The interface name up to an alias colon. */
  function BaseName(name: string): string {
    if name == "" || name[0] == ':' then "" else [name[0]] + BaseName(name[1..])
  }

  predicate Floods(i: Interface, except: int) {
    BaseName(i.name) != "lo" && BaseName(i.name) != "eth0" && i.index != except
  }

  /** `send_req_broadcast`: one broadcast frame on every interface but `lo`, `eth0` and the receiving one. */
  function Flood(ifs: seq<Interface>, except: int, f: Frame): seq<Send> {
    if ifs == [] then []
    else (if Floods(ifs[0], except) then [Send(ifs[0].index, Broadcast, f)] else []) + Flood(ifs[1..], except, f)
  }

  function Request(bid: int, flag: int, srcPort: int, dstPort: int, dst: Ip, src: Ip): Frame {
    Frame(RREQ, bid, 0, 0, flag, srcPort, dstPort, dst, src, "")
  }

  /** The flooded frame one hop further on. */
  function Onward(f: Frame, ftype: int): Frame {
    Frame(ftype, f.bid, f.hops + 1, 0, f.flag, f.srcPort, f.dstPort, f.dst, f.src, "")
  }

  /** `send_rrep_packet` with `swap` set. */
  function Reply(f: Frame, bid: int, hops: int): Frame {
    Frame(RREP, bid, hops, f.len, 0, f.dstPort, f.srcPort, f.src, f.dst, "")
  }

  /** `send_rrep_packet` with `swap` clear. */
  function Forwarded(f: Frame, hops: int): Frame {
    Frame(RREP, f.bid, hops, f.len, 0, f.srcPort, f.dstPort, f.dst, f.src, "")
  }

  function Via(r: Route, f: Frame): Send {
    Send(r.ifno, Unicast(r.nextHop), f)
  }

  // ---------- handle_ethernet_msg ----------

  /** A flagged frame whose id is already known for its source is ignored. */
  predicate Ignored(n: Node, f: Frame) {
    f.flag == 1 && !FreshId(n.routes, f.src, f.bid)
  }

  datatype Ingested = Ingested(routes: map<Ip, Route>, dest: Option<Route>, updated: bool)

  /** The two lookups: what is left of the table, and what they found. */
  function Lookups(n: Node, f: Frame, t: Clock): (map<Ip, Route>, Option<Route>, Option<Route>) {
    var (r1, dest) := Lookup(n.routes, f.dst, f.flag, t.destLookup, n.stale);
    var (r2, src) := Lookup(r1, f.src, 0, t.srcLookup, n.stale);
    (r2, dest, src)
  }

  /** The part common to all four types: look up both addresses, then learn about the source. */
  function Ingest(n: Node, f: Frame, ifno: int, mac: Mac, t: Clock): (g: Ingested) {
    var (r2, dest, src) := Lookups(n, f, t);
    var (r3, updated) := Learn(r2, f, ifno, mac, t.write);
    // with equal source and destination both lookups may point at one entry, which was just rewritten
    var dest' := if dest.Some? && src.Some? && f.src == f.dst then Some(r3[f.src]) else dest;
    Ingested(r3, dest', updated)
  }

  function HandleEthernet(n: Node, f: Frame, ifno: int, mac: Mac, t: Clock): Outcome {
    if Ignored(n, f) then
      Outcome(n, [], [], Returns(1))
    else if !(RREQ <= f.ftype <= ASENT) then
      Outcome(n.(routes := Lookups(n, f, t).0, up := false), [], [], Returns(-1))
    else
      var g := Ingest(n, f, ifno, mac, t);
      Dispatch(n.(routes := g.routes), f, ifno, g.dest, g.updated)
  }

  function Dispatch(n: Node, f: Frame, ifno: int, dest: Option<Route>, updated: bool): Outcome
    requires f.src in n.routes
    requires RREQ <= f.ftype <= ASENT
  {
    if f.ftype == RREQ then OnRreq(n, f, ifno, dest, updated)
    else if f.ftype == RREP then OnRrep(n, f, ifno, dest)
    else if f.ftype == DATA then OnData(n, f, ifno, dest)
    else OnAsent(n, f, ifno, updated)
  }

  function OnRreq(n: Node, f: Frame, ifno: int, dest: Option<Route>, updated: bool): Outcome
    requires f.src in n.routes
  {
    var back := n.routes[f.src];
    if f.dst == n.self then
      Outcome(n.(bid := n.bid + 1), [Via(back, Reply(f, n.bid + 1, 0))], [], Returns(0))
    else if dest.Some? then
      var reply := Via(back, Reply(f, n.bid + 1, dest.value.hops));
      Outcome(n.(bid := n.bid + 1),
              [reply] + (if updated then Flood(n.ifs, ifno, Onward(f, ASENT)) else []), [], Returns(0))
    else
      Outcome(n, if updated then Flood(n.ifs, ifno, Onward(f, RREQ)) else [], [], Returns(0))
  }

  function OnRrep(n: Node, f: Frame, ifno: int, dest: Option<Route>): Outcome
    requires f.src in n.routes
  {
    var back := n.routes[f.src];
    if f.dst == n.self then
      var (rest, parked) := Unpark(n.pending, f.src);
      var sends :=
        if parked.None? then []
        else if parked.value.ftype == RREP then [Via(back, Forwarded(parked.value, parked.value.hops))]
        else if parked.value.ftype == DATA then [Via(back, parked.value)]
        else [];
      Outcome(n.(pending := rest), sends, [], Returns(0))
    else if dest.Some? then
      Outcome(n, [Via(dest.value, Forwarded(f, back.hops))], [], Returns(0))
    else
      ParkAndSearch(n, f, ifno)
  }

  function OnData(n: Node, f: Frame, ifno: int, dest: Option<Route>): Outcome
    requires f.src in n.routes
  {
    if f.dst == n.self then
      var path := PathOf(n.ports, f.dstPort);
      Outcome(n, [], if path.Some? then [PeerMsg(path.value, f.src, f.srcPort, f.payload)] else [], Returns(0))
    else if dest.Some? then
      Outcome(n, [Via(dest.value, f.(hops := n.routes[f.src].hops))], [], Returns(0))
    else
      ParkAndSearch(n, f, ifno)
  }

  function OnAsent(n: Node, f: Frame, ifno: int, updated: bool): Outcome {
    Outcome(n, if updated then Flood(n.ifs, ifno, Onward(f, ASENT)) else [], [], Returns(0))
  }

  /** An intermediate node without a route parks the frame and floods a request of its own. */
  function ParkAndSearch(n: Node, f: Frame, ifno: int): Outcome {
    Outcome(n.(bid := n.bid + 1, pending := Park(n.pending, f.dst, f)),
            Flood(n.ifs, ifno, Request(n.bid + 1, 0, -1, f.dstPort, f.dst, n.self)), [], Returns(0))
  }

  // ---------- handle_peer_msg ----------

  function HandlePeer(n: Node, p: Params, now: int): Outcome {
    if n.ports == [] then
      Outcome(n.(up := false), [], [], Returns(-1))
    else
      var (ports, nextPort, port) := Register(n.ports, n.nextPort, p.path);
      var n1 := n.(ports := ports, nextPort := nextPort);
      if p.dst == n.self then PeerLocal(n1, p, port) else PeerRemote(n1, p, port, now)
  }

  /** Client and destination are on this node. */
  function PeerLocal(n: Node, p: Params, port: int): Outcome {
    var path := PathOf(n.ports, p.dstPort);
    if path.None? then Outcome(n.(up := false), [], [], Aborts)
    else Outcome(n, [], [PeerMsg(path.value, n.self, port, p.msg)], Returns(1))
  }

  function PeerRemote(n: Node, p: Params, port: int, now: int): Outcome {
    var (routes, dest) := Lookup(n.routes, p.dst, p.flag, now, n.stale);
    var n1 := n.(routes := routes);
    if dest.Some? then
      var f := Frame(DATA, dest.value.bid, 0, PAYLOAD_SIZE, p.flag, port, p.dstPort, p.dst, n.self, p.msg);
      Outcome(n1, [Via(dest.value, f)], [], Returns(1))
    else
      SearchFor(n1, p, port)
  }

  /** Flood a request and park the message; the parked frame has id 0 and a fresh id for a hop count. */
  function SearchFor(n: Node, p: Params, port: int): Outcome {
    var parked := Frame(DATA, 0, n.bid + 2, PAYLOAD_SIZE, 0, port, p.dstPort, p.dst, n.self, p.msg);
    Outcome(n.(bid := n.bid + 2, pending := Park(n.pending, p.dst, parked)),
            Flood(n.ifs, -1, Request(n.bid + 1, p.flag, port, p.dstPort, p.dst, n.self)), [], Returns(1))
  }
}

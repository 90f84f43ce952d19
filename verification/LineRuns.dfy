/** Two runs on a line of three nodes `s` - `m` - `x` that both begin with a request at `s` for `x`. The first meets
    every condition of end-to-end delivery, so the message arrives. In the second a client at `s` soon asks for
    something else, and the newer request overtakes the older one: nothing is lost, and the message never leaves. */
module LineRuns {
  import opened Basics
  import opened Frames
  import opened OdrModel
  import opened Network
  import opened LoopFreedom
  import opened ShortestHop
  import opened EndToEnd
  import opened Stories

  predicate Line(w: World) {
    w.Distinct() && !w.ring && w.stale > 0
  }

  function Ifaces(w: World): Ifs {
    map[w.s := [ETH1], w.m := [ETH1, ETH2], w.x := [ETH1]]
  }

  function State(w: World, ns: Node, nm: Node, nx: Node, flight: seq<Delivery>): Net {
    Net(map[w.s := ns, w.m := nm, w.x := nx], flight)
  }

  function Z(w: World): Quest {
    Quest(w.s, w.x, 11)
  }

  function O(w: World): Order {
    Order(Z(w), SERV_PORT, SERV_PORT, "")
  }

  // ---------- wires ----------

  lemma {:induction false} HeardBy(top: Topology, from: Plug, to: Plug, s: Send)
    requires to in top && Hears(from, to, s)
    requires forall i, j :: 0 <= i < j < |top| ==> top[i] != top[j]
    requires forall q :: q in top && q != to ==> !Hears(from, q, s)
    ensures Copies(top, from, s) == [Delivery(to.node, to.index, from.mac, s.frame)]
  {
    if top[0] == to {
      NotHeard(top[1..], from, s);
    } else {
      HeardBy(top[1..], from, to, s);
    }
  }

  lemma {:induction false} NotHeard(top: Topology, from: Plug, s: Send)
    requires forall q :: q in top ==> !Hears(from, q, s)
    ensures Copies(top, from, s) == []
  {
    if top != [] {
      NotHeard(top[1..], from, s);
    }
  }

  lemma {:induction false} PlugIs(top: Topology, p: Plug)
    requires p in top
    requires forall q :: q in top && q.node == p.node && q.index == p.index ==> q == p
    ensures PlugAt(top, p.node, p.index) == Some(p)
  {
    if top[0] != p {
      PlugIs(top[1..], p);
    }
  }

  /** A send by the plug at one end of a segment is heard at the other end only. */
  lemma Across(w: World, i: nat, j: nat, to: Target, f: Frame)
    requires Line(w) && i < 4 && j == (if i % 2 == 0 then i + 1 else i - 1)
    requires to == Broadcast || to == Unicast(w.Top()[j].mac)
    ensures var p, q := w.Top()[i], w.Top()[j];
            Transmit(w.Top(), p.node, [Send(p.index, to, f)]) == [Delivery(q.node, q.index, p.mac, f)]
  {
    var top, s := w.Top(), Send(w.Top()[i].index, to, f);
    PlugIs(top, top[i]);
    HeardBy(top, top[i], top[j], s);
    assert [s][1..] == [];
  }

  lemma Floodings(f: Frame)
    ensures Flood([ETH1], -1, f) == [Send(1, Broadcast, f)] && Flood([ETH1], 1, f) == []
    ensures Flood([ETH1, ETH2], 1, f) == [Send(2, Broadcast, f)]
  {
    Names();
    assert [ETH1, ETH2][1..] == [ETH2] && [ETH1][1..] == [] && [ETH2][1..] == [];
  }

  // ---------- the frames and routes of both runs ----------

  function Asked(w: World, hops: int): Frame {
    Wanted(w.s, 11, w.x, hops, 0)
  }

  /** The message, as it was parked and as `m` passes it on. */
  function Msg(w: World, hops: int): Frame {
    Message(w.s, 0, w.x, hops)
  }

  function Replied(w: World, hops: int): Frame {
    Forwarded(Reply(Asked(w, 1), 11, 0), hops)
  }

  function Waits(w: World): seq<Parked> {
    Park([], w.x, Msg(w, 12))
  }

  function MtoS(w: World, bid: int): Route {
    Route(w.sm, 1, 1, bid, 0)
  }

  function XtoS(w: World, bid: int): Route {
    Route(w.mx, 1, 2, bid, 0)
  }

  function MtoX(w: World): Route {
    Route(w.xm, 2, 1, 11, 0)
  }

  function StoX(w: World): Route {
    Route(w.ms, 1, 2, 11, 0)
  }

  function Node3(w: World): Node {
    w.X(map[w.s := XtoS(w, 11)], [], 11)
  }

  function NodeM(w: World): Node {
    w.M(map[w.s := MtoS(w, 11), w.x := MtoX(w)], [], 10)
  }

  // ---------- the first run ----------

  /** After the request. */
  function Net1(w: World): Net {
    State(w, w.S(map[], Waits(w), 12), w.M(map[], [], 10), w.X(map[], [], 10), [Delivery(w.m, 1, w.sm, Asked(w, 0))])
  }

  /** `m` has passed the request on. */
  function Net2(w: World): Net {
    State(w, w.S(map[], Waits(w), 12), w.M(map[w.s := MtoS(w, 11)], [], 10), w.X(map[], [], 10),
          [Delivery(w.x, 1, w.mx, Asked(w, 1))])
  }

  /** `x` has replied. */
  function Net3(w: World): Net {
    State(w, w.S(map[], Waits(w), 12), w.M(map[w.s := MtoS(w, 11)], [], 10), Node3(w),
          [Delivery(w.m, 2, w.xm, Replied(w, 0))])
  }

  /** `m` has passed the reply on. */
  function Net4(w: World): Net {
    State(w, w.S(map[], Waits(w), 12), NodeM(w), Node3(w), [Delivery(w.s, 1, w.ms, Replied(w, 1))])
  }

  /** `s` has sent the message. */
  function Net5(w: World): Net {
    State(w, w.S(map[w.x := StoX(w)], [], 12), NodeM(w), Node3(w), [Delivery(w.m, 1, w.sm, Msg(w, 12))])
  }

  /** `m` has passed the message on. */
  function Net6(w: World): Net {
    State(w, w.S(map[w.x := StoX(w)], [], 12), NodeM(w), Node3(w), [Delivery(w.x, 1, w.mx, Msg(w, 1))])
  }

  /** All is quiet. */
  function Net7(w: World): Net {
    State(w, w.S(map[w.x := StoX(w)], [], 12), NodeM(w), Node3(w), [])
  }

  const RECEIVE := Receive(0, NOW)

  /** A node with one interface, without a route to `dst`, asks. */
  lemma SSearches(w: World, pending: seq<Parked>, bid: int, dst: Ip)
    requires Line(w) && dst != w.s
    ensures HandlePeer(w.S(map[], pending, bid), Ask(w.s, dst, 0).params, 0)
            == Outcome(w.S(map[], Park(pending, dst, Message(w.s, 0, dst, bid + 2)), bid + 2),
                       [Send(1, Broadcast, Wanted(w.s, bid + 1, dst, 0, 0))], [], Returns(1))
  {
    Floodings(Wanted(w.s, bid + 1, dst, 0, 0));
  }

  /** `m` passes on a request that it hears from `s` and cannot answer. */
  lemma MPasses(w: World, bid: int, dst: Ip)
    requires Line(w) && dst != w.s && dst != w.m
    ensures HandleEthernet(w.M(map[], [], 10), Wanted(w.s, bid, dst, 0, 0), 1, w.sm, NOW)
            == Outcome(w.M(map[w.s := MtoS(w, bid)], [], 10), [Send(2, Broadcast, Wanted(w.s, bid, dst, 1, 0))], [],
                Returns(0))
  {
    Learns(w.M(map[], [], 10), Wanted(w.s, bid, dst, 0, 0), 1, w.sm, NOW);
    Floodings(Wanted(w.s, bid, dst, 1, 0));
  }

  lemma Step1(w: World)
    requires Line(w)
    ensures Next(w.Top(), w.Start(), Ask(w.s, w.x, 0)) == Net1(w)
  {
    SSearches(w, [], 10, w.x);
    Across(w, 0, 1, Broadcast, Asked(w, 0));
    assert w.Start().nodes[w.s := w.S(map[], Waits(w), 12)] == Net1(w).nodes;
  }

  lemma Step2(w: World)
    requires Line(w)
    ensures Next(w.Top(), Net1(w), RECEIVE) == Net2(w)
  {
    MPasses(w, 11, w.x);
    Across(w, 2, 3, Broadcast, Asked(w, 1));
    assert Net1(w).nodes[w.m := w.M(map[w.s := MtoS(w, 11)], [], 10)] == Net2(w).nodes;
  }

  lemma Step3(w: World)
    requires Line(w)
    ensures Next(w.Top(), Net2(w), RECEIVE) == Net3(w)
  {
    Replies(w.X(map[], [], 10), Asked(w, 1), 1, w.mx);
    Across(w, 3, 2, Unicast(w.mx), Replied(w, 0));
    assert Net2(w).nodes[w.x := Node3(w)] == Net3(w).nodes;
  }

  lemma Step4(w: World)
    requires Line(w)
    ensures Next(w.Top(), Net3(w), RECEIVE) == Net4(w)
  {
    Across(w, 1, 0, Unicast(w.sm), Replied(w, 1));
    assert Net3(w).nodes[w.m := NodeM(w)] == Net4(w).nodes;
  }

  lemma Step5(w: World)
    requires Line(w)
    ensures Next(w.Top(), Net4(w), RECEIVE) == Net5(w)
  {
    Releases(w.S(map[], Waits(w), 12), Replied(w, 1), 1, w.ms);
    assert Waits(w)[1..] == [];
    Across(w, 0, 1, Unicast(w.ms), Msg(w, 12));
    assert Net4(w).nodes[w.s := w.S(map[w.x := StoX(w)], [], 12)] == Net5(w).nodes;
  }

  lemma Step6(w: World)
    requires Line(w)
    ensures Next(w.Top(), Net5(w), RECEIVE) == Net6(w)
  {
    Across(w, 2, 3, Unicast(w.xm), Msg(w, 1));
    assert Net5(w).nodes[w.m := NodeM(w)] == Net6(w).nodes;
  }

  lemma Step7(w: World)
    requires Line(w)
    ensures Next(w.Top(), Net6(w), RECEIVE) == Net7(w)
  {
    assert Net6(w).nodes[w.x := Node3(w)] == Net7(w).nodes;
  }

  // ---------- the conditions ----------

  lemma LinkBetween(top: Topology, ifs: Ifs, p: Plug, q: Plug, i: Interface)
    requires p in top && q in top && Joined(p, q) && p.node in ifs && i in ifs[p.node] && i.index == p.index
             && Floods(i, -1)
    ensures Link(top, ifs, p.node, q.node)
  {
    assert Usable(ifs, p);
  }

  lemma LinksOnLine(w: World)
    requires Line(w)
    ensures Walk(w.Top(), Ifaces(w), w.s, w.x, 2)
  {
    Names();
    var top, ifs := w.Top(), Ifaces(w);
    LinkBetween(top, ifs, top[0], top[1], ETH1);
    LinkBetween(top, ifs, top[2], top[3], ETH2);
  }

  /** Both runs begin like this. */
  ghost predicate Begun(w: World) {
    && Wired(w.Top()) && Initial(w.Start())
    && FloodBegins(w.Top(), Ifaces(w), w.Start(), Ask(w.s, w.x, 0), Z(w)) && Enabled(w.Start(), Ask(w.s, w.x, 0))
    && Tame(w.Start(), Ask(w.s, w.x, 0), Ends(Z(w)))
    && PathOf(w.Start().nodes[w.x].ports, SERV_PORT) == Some(SERV_PATH)
    && Walk(w.Top(), Ifaces(w), w.s, w.x, 2)
  }

  lemma StaticOnLine(w: World)
    requires Line(w)
    ensures Static(w.Top(), Ifaces(w), w.Start())
  {
    assert w.Start().nodes.Keys == {w.s, w.m, w.x} == Ifaces(w).Keys;
  }

  lemma FloodBeginsOnLine(w: World)
    requires Line(w)
    ensures FloodBegins(w.Top(), Ifaces(w), w.Start(), Ask(w.s, w.x, 0), Z(w))
  {
    StaticOnLine(w);
  }

  lemma Begins(w: World)
    requires Line(w)
    ensures Begun(w)
  {
    Beginning(w);
    LinksOnLine(w);
    FloodBeginsOnLine(w);
  }

  lemma CarefulRequest(w: World)
    requires Line(w)
    ensures Careful(Net1(w), RECEIVE, O(w)) && Careful(Net2(w), RECEIVE, O(w))
  {
    MPasses(w, 11, w.x);
    Replies(w.X(map[], [], 10), Asked(w, 1), 1, w.mx);
  }

  lemma CarefulReply(w: World)
    requires Line(w)
    ensures Careful(Net3(w), RECEIVE, O(w)) && Careful(Net4(w), RECEIVE, O(w))
  {
    Releases(w.S(map[], Waits(w), 12), Replied(w, 1), 1, w.ms);
  }

  lemma CarefulMessage(w: World)
    requires Line(w)
    ensures Careful(Net5(w), RECEIVE, O(w)) && Careful(Net6(w), RECEIVE, O(w))
  {
  }

  lemma OneMoreCareful(w: World, net: Net, l: Label, rest: seq<Label>)
    requires Enabled(net, l) && Careful(net, l, O(w))
    requires CarefulRun(w.Top(), Next(w.Top(), net, l), rest, O(w))
    ensures CarefulRun(w.Top(), net, [l] + rest, O(w))
    ensures After(w.Top(), net, [l] + rest) == After(w.Top(), Next(w.Top(), net, l), rest)
  {
    assert ([l] + rest)[1..] == rest;
  }

  /** Receive whatever is in flight, so often. */
  function Receipts(n: nat): seq<Label> {
    if n == 0 then [] else [RECEIVE] + Receipts(n - 1)
  }

  lemma LastSteps(w: World)
    requires Line(w)
    ensures CarefulRun(w.Top(), Net4(w), Receipts(3), O(w)) && After(w.Top(), Net4(w), Receipts(3)) == Net7(w)
  {
    Step7(w);
    CarefulMessage(w);
    OneMoreCareful(w, Net6(w), RECEIVE, Receipts(0));
    Step6(w);
    OneMoreCareful(w, Net5(w), RECEIVE, Receipts(1));
    Step5(w);
    CarefulReply(w);
    OneMoreCareful(w, Net4(w), RECEIVE, Receipts(2));
  }

  lemma FirstSteps(w: World)
    requires Line(w)
    ensures CarefulRun(w.Top(), Net1(w), Receipts(6), O(w)) && After(w.Top(), Net1(w), Receipts(6)) == Net7(w)
  {
    LastSteps(w);
    Step4(w);
    CarefulReply(w);
    OneMoreCareful(w, Net3(w), RECEIVE, Receipts(3));
    Step3(w);
    CarefulRequest(w);
    OneMoreCareful(w, Net2(w), RECEIVE, Receipts(4));
    Step2(w);
    OneMoreCareful(w, Net1(w), RECEIVE, Receipts(5));
  }

  /** On any line of three nodes, for every positive threshold, all conditions of end-to-end delivery are met by
      a run of six receipts, and one of them hands the message over. */
  lemma MessageArrivesOnLine(w: World) returns (i: nat)
    requires Line(w)
    ensures Begun(w)
    ensures var net := Next(w.Top(), w.Start(), Ask(w.s, w.x, 0));
            && CarefulRun(w.Top(), net, Receipts(6), O(w)) && Quiet(After(w.Top(), net, Receipts(6)), O(w))
            && DeliversAt(w.Top(), net, Receipts(6), i, O(w))
  {
    Begins(w);
    Step1(w);
    FirstSteps(w);
    var l := Ask(w.s, w.x, 0);
    assert OrderOf(Z(w), w.Start().nodes[w.s], l.params) == O(w);
    i := MessageArrives(w.Top(), Ifaces(w), w.Start(), [], l, Receipts(6), Z(w), 2);
  }

  // ---------- the second run ----------

  function Newer(w: World, hops: int): Frame {
    Wanted(w.s, 13, w.z, hops, 0)
  }

  /** `s` while both messages wait. */
  function NodeS(w: World): Node {
    w.S(map[], Park(Waits(w), w.z, Message(w.s, 0, w.z, 14)), 14)
  }

  function MKnows(w: World): Node {
    w.M(map[w.s := MtoS(w, 13)], [], 10)
  }

  function XKnows(w: World): Node {
    w.X(map[w.s := XtoS(w, 13)], [], 10)
  }

  /** A second request has followed the first. */
  function Net8(w: World): Net {
    State(w, NodeS(w), w.M(map[], [], 10), w.X(map[], [], 10),
          [Delivery(w.m, 1, w.sm, Asked(w, 0)), Delivery(w.m, 1, w.sm, Newer(w, 0))])
  }

  /** `m` has received the second one first, and passed it on. */
  function Net9(w: World): Net {
    State(w, NodeS(w), MKnows(w), w.X(map[], [], 10),
          [Delivery(w.m, 1, w.sm, Asked(w, 0)), Delivery(w.x, 1, w.mx, Newer(w, 1))])
  }

  /** `m` has received the first one and dropped it as old. */
  function Net10(w: World): Net {
    State(w, NodeS(w), MKnows(w), w.X(map[], [], 10), [Delivery(w.x, 1, w.mx, Newer(w, 1))])
  }

  /** `x` has received the second one. */
  function Net11(w: World): Net {
    State(w, NodeS(w), MKnows(w), XKnows(w), [])
  }

  /** The second request, the receipt of the newer frame, then of the other two. */
  function Overtaking(w: World): seq<Label> {
    [Ask(w.s, w.z, 0)] + ([Receive(1, NOW)] + ([RECEIVE] + ([RECEIVE] + [])))
  }

  lemma Step8(w: World)
    requires Line(w)
    ensures Next(w.Top(), Net1(w), Ask(w.s, w.z, 0)) == Net8(w)
  {
    SSearches(w, Waits(w), 12, w.z);
    Across(w, 0, 1, Broadcast, Newer(w, 0));
    assert Net1(w).nodes[w.s := NodeS(w)] == Net8(w).nodes;
  }

  lemma Step9(w: World)
    requires Line(w)
    ensures Next(w.Top(), Net8(w), Receive(1, NOW)) == Net9(w)
  {
    MPasses(w, 13, w.z);
    Across(w, 2, 3, Broadcast, Newer(w, 1));
    assert Net8(w).nodes[w.m := MKnows(w)] == Net9(w).nodes;
    assert Without(Net8(w).flight, 1) == [Delivery(w.m, 1, w.sm, Asked(w, 0))];
  }

  /** A request older than what is known of its source is dropped. */
  lemma MDrops(w: World)
    requires Line(w)
    ensures HandleEthernet(MKnows(w), Asked(w, 0), 1, w.sm, NOW) == Outcome(MKnows(w), [], [], Returns(0))
  {
  }

  lemma Step10(w: World)
    requires Line(w)
    ensures Next(w.Top(), Net9(w), RECEIVE) == Net10(w)
  {
    MDrops(w);
    assert Net9(w).nodes[w.m := MKnows(w)] == Net10(w).nodes;
    assert Without(Net9(w).flight, 0) == [Delivery(w.x, 1, w.mx, Newer(w, 1))];
  }

  lemma XLearns(w: World)
    requires Line(w)
    ensures HandleEthernet(w.X(map[], [], 10), Newer(w, 1), 1, w.mx, NOW) == Outcome(XKnows(w), [], [], Returns(0))
  {
    Learns(w.X(map[], [], 10), Newer(w, 1), 1, w.mx, NOW);
    Floodings(Newer(w, 2));
  }

  lemma Step11(w: World)
    requires Line(w)
    ensures Next(w.Top(), Net10(w), RECEIVE) == Net11(w)
  {
    XLearns(w);
    assert Net10(w).nodes[w.x := XKnows(w)] == Net11(w).nodes;
  }

  /** All that end-to-end delivery asks of a step but one thing: here `s` may be the source of newer frames. */
  ghost predicate NearlyCareful(net: Net, l: Label, o: Order)
    requires Enabled(net, l)
  {
    Tame(net, l, Ends(o.z)) && Gentle(net, l, o.z) && Serves(net, l, o)
  }

  /** Every step is like that, none loses or duplicates a frame, and none hands the message over. */
  ghost predicate InVain(top: Topology, net: Net, run: seq<Label>, o: Order)
    decreases |run|
  {
    run == [] ||
    (&& Enabled(net, run[0]) && NearlyCareful(net, run[0], o) && !run[0].Lose? && !run[0].Duplicate?
     && !Delivers(net, run[0], o) && InVain(top, Next(top, net, run[0]), run[1..], o))
  }

  lemma OneMoreInVain(w: World, net: Net, l: Label, rest: seq<Label>)
    requires Enabled(net, l) && NearlyCareful(net, l, O(w)) && !l.Lose? && !l.Duplicate? && !Delivers(net, l, O(w))
    requires InVain(w.Top(), Next(w.Top(), net, l), rest, O(w))
    ensures InVain(w.Top(), net, [l] + rest, O(w))
    ensures After(w.Top(), net, [l] + rest) == After(w.Top(), Next(w.Top(), net, l), rest)
  {
    assert ([l] + rest)[1..] == rest;
  }

  lemma RequestsInVain(w: World)
    requires Line(w)
    ensures NearlyCareful(Net1(w), Ask(w.s, w.z, 0), O(w)) && !Delivers(Net1(w), Ask(w.s, w.z, 0), O(w))
    ensures NearlyCareful(Net8(w), Receive(1, NOW), O(w)) && !Delivers(Net8(w), Receive(1, NOW), O(w))
  {
    SSearches(w, Waits(w), 12, w.z);
    MPasses(w, 13, w.z);
  }

  lemma ReceiptsInVain(w: World)
    requires Line(w)
    ensures NearlyCareful(Net9(w), RECEIVE, O(w)) && !Delivers(Net9(w), RECEIVE, O(w))
    ensures NearlyCareful(Net10(w), RECEIVE, O(w)) && !Delivers(Net10(w), RECEIVE, O(w))
  {
    MDrops(w);
    XLearns(w);
  }

  lemma OvertakingInVain(w: World)
    requires Line(w)
    ensures InVain(w.Top(), Net1(w), Overtaking(w), O(w)) && After(w.Top(), Net1(w), Overtaking(w)) == Net11(w)
  {
    ReceiptsInVain(w);
    Step11(w);
    OneMoreInVain(w, Net10(w), RECEIVE, []);
    Step10(w);
    OneMoreInVain(w, Net9(w), RECEIVE, [RECEIVE] + []);
    RequestsInVain(w);
    Step9(w);
    OneMoreInVain(w, Net8(w), Receive(1, NOW), [RECEIVE] + ([RECEIVE] + []));
    Step8(w);
    OneMoreInVain(w, Net1(w), Ask(w.s, w.z, 0), [Receive(1, NOW)] + ([RECEIVE] + ([RECEIVE] + [])));
  }

  lemma MessageStillThere(w: World)
    requires Line(w)
    ensures Waiting(Net11(w), O(w)) && !Recorded(Net11(w), Z(w))
  {
    ParkingElsewhere(Waits(w), w.x, w.z, Message(w.s, 0, w.z, 14));
  }

  /** Without the condition on newer frames of `s` the message need not arrive, nor need the hop counts of the flood
      be recorded: on any line of three nodes, for every positive threshold, in this run nothing is lost or
      duplicated, no entry for either end is deleted and no node answers for either, and when nothing is in flight
      any more the message is still waiting and `x` has not recorded the flood. */
  lemma NewerRequestStrandsMessage(w: World)
    requires Line(w)
    ensures Begun(w)
    ensures var net := Next(w.Top(), w.Start(), Ask(w.s, w.x, 0));
            && InVain(w.Top(), net, Overtaking(w), O(w))
            && var end := After(w.Top(), net, Overtaking(w));
            end.flight == [] && Waiting(end, O(w)) && !Recorded(end, Z(w))
  {
    Begins(w);
    Step1(w);
    OvertakingInVain(w);
    MessageStillThere(w);
  }
}

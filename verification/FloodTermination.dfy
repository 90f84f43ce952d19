/** A flood ends. However its frames are ordered or lost, whatever else is going on, ties re-flooded and
    own frames echoed, the frames of one (source, id) are received only a bounded number of times. The flood may
    be a client's, with or without the discovery flag, or the search of a node that has parked a frame. */
module FloodTermination {
  import opened Frames
  import opened OdrModel
  import opened Network
  import opened LoopFreedom
  import opened ShortestHop

  /** `c[i]` is a node that has recorded the flood at no more than `i + 1` hops; all are different. */
  ghost predicate Chain(nodes: map<Ip, Node>, z: Quest, c: seq<Ip>) {
    && (forall i, j :: 0 <= i < j < |c| ==> c[i] != c[j])
    && forall i :: 0 <= i < |c| ==>
         c[i] in nodes && z.s in nodes[c[i]].routes && AtLeast(nodes[c[i]].routes[z.s], z.b, i + 1)
  }

  predicate FloodFrame(f: Frame, z: Quest) {
    f.dst == z.D && f.hops >= 0 && (f.ftype == RREQ || f.ftype == ASENT)
  }

  /** Every frame of the flood with hop count `h` went through `h` different nodes, and so did every recorded route. */
  ghost predicate Inv(net: Net, z: Quest) {
    && z.s != z.D && Named(net)
    && (forall x :: x in net.nodes && z.s in net.nodes[x].routes && net.nodes[x].routes[z.s].bid == z.b ==>
          exists c :: |c| == net.nodes[x].routes[z.s].hops && Chain(net.nodes, z, c))
    && forall d :: d in net.flight && Ours(d.frame, z) ==>
         FloodFrame(d.frame, z) && exists c :: |c| == d.frame.hops && Chain(net.nodes, z, c)
  }

  /** No entry for `s` is deleted, no frame of the flood is duplicated, and only forwarding sends one. */
  ghost predicate Settles(net: Net, l: Label, z: Quest)
    requires Enabled(net, l)
  {
    var a := Acting(net, l);
    match l
    case Lose(_) => true
    case Duplicate(i) => !Ours(net.flight[i].frame, z)
    case Receive(i, t) =>
      var d := net.flight[i];
      a.Some? ==>
        && !Deletes(net.nodes[d.node], d.frame, t, z.s)
        && (!Ours(d.frame, z) ==> forall snd :: snd in a.value.1.sends ==> !Ours(snd.frame, z))
    case Peer(x, p, now) =>
      && (forall snd :: snd in a.value.1.sends ==> !Ours(snd.frame, z))
      && (p.dst == z.s && z.s in net.nodes[x].routes ==>
            !Expired(net.nodes[x].routes[z.s], now, net.nodes[x].stale) && p.flag != 1)
  }

  ghost predicate SettlingRun(top: Topology, net: Net, run: seq<Label>, z: Quest)
    decreases |run|
  {
    run == [] ||
    (Enabled(net, run[0]) && Settles(net, run[0], z) && SettlingRun(top, Next(top, net, run[0]), run[1..], z))
  }

  /** This step receives a frame of the flood. */
  predicate ReceivesOurs(net: Net, l: Label, z: Quest)
    requires Enabled(net, l)
  {
    l.Receive? && Ours(net.flight[l.i].frame, z)
  }

  // ---------- one handler run ----------

  lemma RouteOnlyImproves(n: Node, f: Frame, ifno: int, mac: Mac, t: Clock, s: Ip)
    requires !Deletes(n, f, t, s)
    ensures KeepsRoute(n, HandleEthernet(n, f, ifno, mac, t).node, s)
  {
    if !Ignored(n, f) && RREQ <= f.ftype <= ASENT {
      var g := Ingest(n, f, ifno, mac, t);
      DispatchKeepsRoutes(n.(routes := g.routes), f, ifno, g.dest, g.updated);
    }
  }

  lemma FloodSize(ifs: seq<Interface>, except: int, f: Frame)
    ensures |Flood(ifs, except, f)| <= |ifs|
  {
  }

  /** A handler run sends at most one frame per interface and one more. */
  lemma FewSends(n: Node, f: Frame, ifno: int, mac: Mac, t: Clock)
    ensures |HandleEthernet(n, f, ifno, mac, t).sends| <= |n.ifs| + 1
  {
    FloodSize(n.ifs, ifno, Onward(f, ASENT));
    FloodSize(n.ifs, ifno, Onward(f, RREQ));
    FloodSize(n.ifs, ifno, Request(n.bid + 1, 0, -1, f.dstPort, f.dst, n.self));
  }

  /** Only a node whose record the frame beats forwards it, and then one hop further on. */
  lemma ForwardsNews(n: Node, f: Frame, ifno: int, mac: Mac, t: Clock, z: Quest, snd: Send)
    requires Ours(f, z) && FloodFrame(f, z) && z.s != z.D && !Deletes(n, f, t, z.s)
    requires snd in HandleEthernet(n, f, ifno, mac, t).sends && Ours(snd.frame, z)
    ensures FloodFrame(snd.frame, z) && snd.frame.hops == f.hops + 1
    ensures !(z.s in n.routes && AtLeast(n.routes[z.s], z.b, f.hops))
    ensures var n' := HandleEthernet(n, f, ifno, mac, t).node;
            z.s in n'.routes && AtLeast(n'.routes[z.s], z.b, f.hops + 1)
  {
    var g := Ingest(n, f, ifno, mac, t);
    DispatchKeepsRoutes(n.(routes := g.routes), f, ifno, g.dest, g.updated);
    FloodSends(n.ifs, ifno, Onward(f, ASENT));
    FloodSends(n.ifs, ifno, Onward(f, RREQ));
  }

  /** A route of the flood that is new was learnt from a frame of the flood that beats the old record. */
  lemma RecordsNews(n: Node, f: Frame, ifno: int, mac: Mac, t: Clock, z: Quest)
    requires !Deletes(n, f, t, z.s)
    requires var n' := HandleEthernet(n, f, ifno, mac, t).node;
             z.s in n'.routes && n'.routes[z.s].bid == z.b && !(z.s in n.routes && n'.routes[z.s] == n.routes[z.s])
    ensures Ours(f, z) && HandleEthernet(n, f, ifno, mac, t).node.routes[z.s].hops == f.hops + 1
    ensures !(z.s in n.routes && AtLeast(n.routes[z.s], z.b, f.hops))
  {
    if !Ignored(n, f) && RREQ <= f.ftype <= ASENT {
      var g := Ingest(n, f, ifno, mac, t);
      DispatchKeepsRoutes(n.(routes := g.routes), f, ifno, g.dest, g.updated);
    }
  }

  // ---------- the hop bound ----------

  lemma ChainStays(nodes: map<Ip, Node>, nodes': map<Ip, Node>, z: Quest, c: seq<Ip>)
    requires Chain(nodes, z, c)
    requires forall x :: x in nodes ==> x in nodes' && KeepsRoute(nodes[x], nodes'[x], z.s)
    ensures Chain(nodes', z, c)
  {
  }

  lemma {:induction false} DistinctFits(c: seq<Ip>, s: set<Ip>)
    requires forall i, j :: 0 <= i < j < |c| ==> c[i] != c[j]
    requires forall i :: 0 <= i < |c| ==> c[i] in s
    ensures |c| <= |s|
  {
    if c != [] {
      var last := c[|c| - 1];
      DistinctFits(c[..|c| - 1], s - {last});
    }
  }

  /** So no frame of the flood claims more hops than there are nodes. */
  lemma HopBound(net: Net, z: Quest, d: Delivery)
    requires Inv(net, z) && d in net.flight && Ours(d.frame, z)
    ensures d.frame.hops <= |net.nodes|
  {
    var c :| |c| == d.frame.hops && Chain(net.nodes, z, c);
    DistinctFits(c, net.nodes.Keys);
  }

  /** Nor does any node record more hops than that. */
  lemma RecordBound(net: Net, z: Quest, x: Ip)
    requires Inv(net, z) && x in net.nodes && z.s in net.nodes[x].routes && net.nodes[x].routes[z.s].bid == z.b
    ensures net.nodes[x].routes[z.s].hops <= |net.nodes|
  {
    var c :| |c| == net.nodes[x].routes[z.s].hops && Chain(net.nodes, z, c);
    DistinctFits(c, net.nodes.Keys);
  }

  lemma RoutesKept(top: Topology, net: Net, l: Label, z: Quest)
    requires Enabled(net, l) && Settles(net, l, z)
    ensures forall x :: x in net.nodes ==>
              x in Next(top, net, l).nodes && KeepsRoute(net.nodes[x], Next(top, net, l).nodes[x], z.s)
  {
    match l
    case Receive(i, t) =>
      var d := net.flight[i];
      if Acting(net, l).Some? {
        RouteOnlyImproves(net.nodes[d.node], d.frame, d.index, d.mac, t, z.s);
      }
    case Peer(x, p, now) =>
      PeerLeavesRoute(net.nodes[x], p, now, z.s);
    case _ =>
  }

  /** The node that beat its record extends the chain of the frame it received. */
  lemma ChainGrows(top: Topology, net: Net, l: Label, z: Quest)
    requires Inv(net, z) && Enabled(net, l) && Settles(net, l, z) && ReceivesOurs(net, l, z) && Acting(net, l).Some?
    requires var d := net.flight[l.i];
             && !(z.s in net.nodes[d.node].routes && AtLeast(net.nodes[d.node].routes[z.s], z.b, d.frame.hops))
             && z.s in Next(top, net, l).nodes[d.node].routes
             && AtLeast(Next(top, net, l).nodes[d.node].routes[z.s], z.b, d.frame.hops + 1)
    ensures exists c :: |c| == net.flight[l.i].frame.hops + 1 && Chain(Next(top, net, l).nodes, z, c)
  {
    var d := net.flight[l.i];
    assert d in net.flight;
    RoutesKept(top, net, l, z);
    var c :| |c| == d.frame.hops && Chain(net.nodes, z, c);
    ChainStays(net.nodes, Next(top, net, l).nodes, z, c);
    assert d.node !in c;
    assert Chain(Next(top, net, l).nodes, z, c + [d.node]);
  }

  /** Every frame of the flood added by a step is one hop longer than the one received, at a node not seen before. */
  lemma NewFrame(top: Topology, net: Net, l: Label, z: Quest, e: Delivery)
    requires Inv(net, z) && Enabled(net, l) && Settles(net, l, z) && Acting(net, l).Some?
    requires e in Transmit(top, Acting(net, l).value.0, Acting(net, l).value.1.sends) && Ours(e.frame, z)
    ensures ReceivesOurs(net, l, z)
    ensures FloodFrame(e.frame, z) && e.frame.hops == net.flight[l.i].frame.hops + 1
    ensures exists c :: |c| == e.frame.hops && Chain(Next(top, net, l).nodes, z, c)
  {
    var (who, o) := Acting(net, l).value;
    var snd, p, q := TransmitSound(top, who, o.sends, e);
    var d := net.flight[l.i];
    assert d in net.flight;
    ForwardsNews(net.nodes[who], d.frame, d.index, d.mac, l.t, z, snd);
    ChainGrows(top, net, l, z);
  }

  lemma RecordsKeepChains(top: Topology, net: Net, l: Label, z: Quest, x: Ip)
    requires Inv(net, z) && Enabled(net, l) && Settles(net, l, z) && x in net.nodes
    requires var n' := Next(top, net, l).nodes[x]; z.s in n'.routes && n'.routes[z.s].bid == z.b
    ensures exists c :: |c| == Next(top, net, l).nodes[x].routes[z.s].hops && Chain(Next(top, net, l).nodes, z, c)
  {
    var net' := Next(top, net, l);
    var n, n' := net.nodes[x], net'.nodes[x];
    RoutesKept(top, net, l, z);
    if z.s in n.routes && n'.routes[z.s] == n.routes[z.s] {
      var c :| |c| == n.routes[z.s].hops && Chain(net.nodes, z, c);
      ChainStays(net.nodes, net'.nodes, z, c);
    } else if l.Peer? {
      PeerLeavesRoute(n, l.params, l.now, z.s);
    } else {
      var d := net.flight[l.i];
      RecordsNews(n, d.frame, d.index, d.mac, l.t, z);
      ChainGrows(top, net, l, z);
    }
  }

  lemma StepKeepsInv(top: Topology, net: Net, l: Label, z: Quest)
    requires Inv(net, z) && Enabled(net, l) && Settles(net, l, z)
    ensures Inv(Next(top, net, l), z)
  {
    var net' := Next(top, net, l);
    KeepsNames(top, net, l);
    RoutesKept(top, net, l, z);
    forall x | x in net'.nodes && z.s in net'.nodes[x].routes && net'.nodes[x].routes[z.s].bid == z.b
      ensures exists c :: |c| == net'.nodes[x].routes[z.s].hops && Chain(net'.nodes, z, c)
    {
      RecordsKeepChains(top, net, l, z, x);
    }
    forall d | d in net'.flight && Ours(d.frame, z)
      ensures FloodFrame(d.frame, z) && exists c :: |c| == d.frame.hops && Chain(net'.nodes, z, c)
    {
      if d in Remaining(net, l) {
        StillThere(net, l, d);
        var c :| |c| == d.frame.hops && Chain(net.nodes, z, c);
        ChainStays(net.nodes, net'.nodes, z, c);
      } else {
        NewFrame(top, net, l, z, d);
      }
    }
  }

  // ---------- the measure ----------

  /** `fan` bounds the copies one receive can cause, `n` the hop counts. */
  datatype Bounds = Bounds(fan: nat, n: nat)

  function Power(b: nat, e: nat): nat {
    if e == 0 then 1 else b * Power(b, e - 1)
  }

  /** A frame with many hops ahead of it weighs more than all copies it can cause. */
  function Weight(f: Frame, z: Quest, m: Bounds): nat {
    if Ours(f, z) && f.hops <= m.n then Power(m.fan + 1, m.n + 1 - f.hops) else 0
  }

  function Total(flight: seq<Delivery>, z: Quest, m: Bounds): nat {
    if flight == [] then 0 else Weight(flight[0].frame, z, m) + Total(flight[1..], z, m)
  }

  lemma {:induction false} TotalConcat(a: seq<Delivery>, b: seq<Delivery>, z: Quest, m: Bounds)
    ensures Total(a + b, z, m) == Total(a, z, m) + Total(b, z, m)
  {
    if a == [] {
      assert a + b == b;
    } else {
      TotalConcat(a[1..], b, z, m);
      assert (a + b)[1..] == a[1..] + b;
    }
  }

  lemma TotalWithout(flight: seq<Delivery>, i: nat, z: Quest, m: Bounds)
    requires i < |flight|
    ensures Total(flight, z, m) == Total(Without(flight, i), z, m) + Weight(flight[i].frame, z, m)
  {
    assert flight == flight[..i] + ([flight[i]] + flight[i + 1..]);
    TotalConcat(flight[..i], [flight[i]] + flight[i + 1..], z, m);
    TotalConcat([flight[i]], flight[i + 1..], z, m);
    TotalConcat(flight[..i], flight[i + 1..], z, m);
  }

  lemma {:induction false} TotalAtMost(flight: seq<Delivery>, z: Quest, m: Bounds, w: nat)
    requires forall d :: d in flight ==> Weight(d.frame, z, m) <= w
    ensures Total(flight, z, m) <= |flight| * w
  {
    if flight != [] {
      TotalAtMost(flight[1..], z, m, w);
      assert |flight| * w == w + (|flight| - 1) * w;
    }
  }

  lemma {:induction false} CopiesSize(top: Topology, p: Plug, s: Send)
    ensures |Copies(top, p, s)| <= |top|
  {
    if top != [] {
      CopiesSize(top[1..], p, s);
    }
  }

  lemma {:induction false} TransmitSize(top: Topology, from: Ip, sends: seq<Send>)
    ensures |Transmit(top, from, sends)| <= |sends| * |top|
  {
    if sends != [] {
      TransmitSize(top, from, sends[1..]);
      var p := PlugAt(top, from, sends[0].ifno);
      if p.Some? {
        CopiesSize(top, p.value, sends[0]);
      }
      assert |sends| * |top| == |top| + (|sends| - 1) * |top|;
    }
  }

  /** `m` fits the network: one receive causes at most `fan` frames, and there are `n` nodes. */
  ghost predicate Fits(top: Topology, net: Net, m: Bounds) {
    m.n == |net.nodes| && forall x :: x in net.nodes ==> (|net.nodes[x].ifs| + 1) * |top| <= m.fan
  }

  lemma FanBound(top: Topology, who: Ip, sends: seq<Send>, k: nat, m: Bounds)
    requires |sends| <= k && k * |top| <= m.fan
    ensures |Transmit(top, who, sends)| <= m.fan
  {
    TransmitSize(top, who, sends);
    assert |sends| * |top| <= k * |top|;
  }

  /** The copies caused by receiving a frame of the flood weigh less than that frame. */
  lemma CopiesWeighLess(copies: seq<Delivery>, f: Frame, z: Quest, m: Bounds)
    requires Ours(f, z) && 0 <= f.hops <= m.n && |copies| <= m.fan
    requires forall e :: e in copies && Ours(e.frame, z) ==> e.frame.hops == f.hops + 1
    ensures Total(copies, z, m) < Weight(f, z, m)
  {
    var w := Power(m.fan + 1, m.n - f.hops);
    TotalAtMost(copies, z, m, w);
    PowerPositive(m.fan + 1, m.n - f.hops);
    FewerTimes(|copies|, m.fan, w);
  }

  lemma FewerTimes(k: nat, fan: nat, w: nat)
    requires k <= fan && w > 0
    ensures k * w < (fan + 1) * w
  {
    var more := fan + 1 - k;
    assert more * w == w + (more - 1) * w >= w;
    assert (fan + 1) * w == k * w + more * w;
  }

  lemma PowerPositive(b: nat, e: nat)
    requires b > 0
    ensures Power(b, e) > 0
  {
  }

  lemma OtherCopies(top: Topology, net: Net, l: Label, z: Quest, m: Bounds)
    requires Inv(net, z) && Enabled(net, l) && Settles(net, l, z)
    requires !ReceivesOurs(net, l, z) && Acting(net, l).Some?
    ensures var (who, o) := Acting(net, l).value; Total(Transmit(top, who, o.sends), z, m) == 0
  {
    var (who, o) := Acting(net, l).value;
    var copies := Transmit(top, who, o.sends);
    forall e | e in copies
      ensures Weight(e.frame, z, m) <= 0
    {
      if Ours(e.frame, z) {
        NewFrame(top, net, l, z, e);
      }
    }
    TotalAtMost(copies, z, m, 0);
  }

  /** What a step leaves in flight weighs no more than before, and less by what it receives. */
  lemma RemainingWeight(net: Net, l: Label, z: Quest, m: Bounds)
    requires Enabled(net, l) && (l.Duplicate? ==> !Ours(net.flight[l.i].frame, z))
    ensures Total(Remaining(net, l), z, m) + (if l.Receive? then Weight(net.flight[l.i].frame, z, m) else 0)
            <= Total(net.flight, z, m)
  {
    if l.Receive? || l.Lose? {
      TotalWithout(net.flight, l.i, z, m);
    } else if l.Duplicate? {
      TotalConcat(net.flight, [net.flight[l.i]], z, m);
    }
  }

  /** No step adds weight, and receiving a frame of the flood takes some away. */
  lemma StepLosesWeight(top: Topology, net: Net, l: Label, z: Quest, m: Bounds)
    requires Inv(net, z) && Enabled(net, l) && Settles(net, l, z) && Fits(top, net, m)
    ensures Total(Next(top, net, l).flight, z, m) + (if ReceivesOurs(net, l, z) then 1 else 0)
            <= Total(net.flight, z, m)
  {
    RemainingWeight(net, l, z, m);
    var a := Acting(net, l);
    if a.Some? {
      TotalConcat(Remaining(net, l), Transmit(top, a.value.0, a.value.1.sends), z, m);
      if ReceivesOurs(net, l, z) {
        OursCopies(top, net, l, z, m);
      } else {
        OtherCopies(top, net, l, z, m);
      }
    } else if ReceivesOurs(net, l, z) {
      assert net.flight[l.i] in net.flight;
      HopBound(net, z, net.flight[l.i]);
      PowerPositive(m.fan + 1, m.n + 1 - net.flight[l.i].frame.hops);
    }
  }

  lemma OursCopies(top: Topology, net: Net, l: Label, z: Quest, m: Bounds)
    requires Inv(net, z) && Enabled(net, l) && Settles(net, l, z) && Fits(top, net, m)
    requires ReceivesOurs(net, l, z) && Acting(net, l).Some?
    ensures var (who, o) := Acting(net, l).value;
            Total(Transmit(top, who, o.sends), z, m) < Weight(net.flight[l.i].frame, z, m)
  {
    var (who, o) := Acting(net, l).value;
    var copies := Transmit(top, who, o.sends);
    var d := net.flight[l.i];
    assert d in net.flight;
    HopBound(net, z, d);
    FewSends(net.nodes[who], d.frame, d.index, d.mac, l.t);
    FanBound(top, who, o.sends, |net.nodes[who].ifs| + 1, m);
    forall e | e in copies && Ours(e.frame, z)
      ensures e.frame.hops == d.frame.hops + 1
    {
      NewFrame(top, net, l, z, e);
    }
    CopiesWeighLess(copies, d.frame, z, m);
  }

  // ---------- whole runs ----------

  /** How often a frame of the flood is received in a run. */
  function Receipts(top: Topology, net: Net, run: seq<Label>, z: Quest): nat
    decreases |run|
  {
    if run == [] || !Enabled(net, run[0]) then 0
    else (if ReceivesOurs(net, run[0], z) then 1 else 0) + Receipts(top, Next(top, net, run[0]), run[1..], z)
  }

  lemma {:induction false} RunLosesWeight(top: Topology, net: Net, run: seq<Label>, z: Quest, m: Bounds)
    requires Inv(net, z) && SettlingRun(top, net, run, z) && Fits(top, net, m)
    ensures Receipts(top, net, run, z) <= Total(net.flight, z, m)
    ensures Inv(After(top, net, run), z) && Fits(top, After(top, net, run), m)
    decreases |run|
  {
    if run != [] {
      StepLosesWeight(top, net, run[0], z, m);
      StepKeepsInv(top, net, run[0], z);
      KeepsNames(top, net, run[0]);
      var net' := Next(top, net, run[0]);
      assert net'.nodes.Keys == net.nodes.Keys && |net'.nodes| == |net'.nodes.Keys| && |net.nodes| == |net.nodes.Keys|;
      RunLosesWeight(top, net', run[1..], z, m);
    }
  }

  // ---------- the start of a flood ----------

  /** Nobody has recorded anything under (`s`, `b`), and no frame carries it. */
  ghost predicate Unused(net: Net, z: Quest) {
    && (forall x :: x in net.nodes && z.s in net.nodes[x].routes ==> net.nodes[x].routes[z.s].bid != z.b)
    && forall d :: d in net.flight ==> !Ours(d.frame, z)
  }

  /** Nobody has recorded the flood yet, and every frame of it is at hop 0. */
  ghost predicate Fresh(net: Net, z: Quest) {
    && z.s != z.D && Named(net)
    && (forall x :: x in net.nodes && z.s in net.nodes[x].routes ==> net.nodes[x].routes[z.s].bid != z.b)
    && forall d :: d in net.flight && Ours(d.frame, z) ==> FloodFrame(d.frame, z) && d.frame.hops == 0
  }

  /** How many frames of the flood are in flight. */
  function Number(flight: seq<Delivery>, z: Quest): nat {
    if flight == [] then 0 else (if Ours(flight[0].frame, z) then 1 else 0) + Number(flight[1..], z)
  }

  lemma {:induction false} NumberConcat(a: seq<Delivery>, b: seq<Delivery>, z: Quest)
    ensures Number(a + b, z) == Number(a, z) + Number(b, z)
  {
    if a == [] {
      assert a + b == b;
    } else {
      NumberConcat(a[1..], b, z);
      assert (a + b)[1..] == a[1..] + b;
    }
  }

  lemma {:induction false} NumberAtMost(flight: seq<Delivery>, z: Quest)
    ensures Number(flight, z) <= |flight|
    ensures (forall d :: d in flight ==> !Ours(d.frame, z)) ==> Number(flight, z) == 0
  {
    if flight != [] {
      NumberAtMost(flight[1..], z);
    }
  }

  lemma {:induction false} FirstWeight(flight: seq<Delivery>, z: Quest, m: Bounds)
    requires forall d :: d in flight && Ours(d.frame, z) ==> d.frame.hops == 0
    ensures Total(flight, z, m) == Number(flight, z) * Power(m.fan + 1, m.n + 1)
  {
    if flight != [] {
      FirstWeight(flight[1..], z, m);
      var w, k := Power(m.fan + 1, m.n + 1), Number(flight[1..], z);
      assert flight[0] in flight && (k + 1) * w == k * w + w;
    }
  }

  /** Every record and every frame of the flood stays within the node count. */
  ghost predicate Bounded(net: Net, z: Quest, n: nat) {
    && (forall d :: d in net.flight && Ours(d.frame, z) ==> d.frame.hops <= n)
    && forall x :: x in net.nodes && z.s in net.nodes[x].routes && net.nodes[x].routes[z.s].bid == z.b ==>
         net.nodes[x].routes[z.s].hops <= n
  }

  /** From any state in which the flood is fresh, in every run, its frames are received at most as often as
      there are of them times `(fan + 1) ^ (n + 1)`. */
  lemma FreshFloodTerminates(top: Topology, net: Net, run: seq<Label>, z: Quest, m: Bounds)
    requires Fresh(net, z) && Fits(top, net, m) && SettlingRun(top, net, run, z)
    ensures Receipts(top, net, run, z) <= Number(net.flight, z) * Power(m.fan + 1, m.n + 1)
    ensures Bounded(After(top, net, run), z, m.n)
  {
    FirstWeight(net.flight, z, m);
    RunLosesWeight(top, net, run, z, m);
    EndBounds(top, After(top, net, run), z, m);
  }

  // ---------- two ways to start one ----------

  /** A client at `s` asks for `D`, with or without the flag, and there is no usable route. */
  predicate ClientSearches(net: Net, l: Label, z: Quest)
    requires Enabled(net, l)
  {
    && l.Peer? && l.node == z.s && l.params.dst == z.D && net.nodes[z.s].self == z.s
    && var n := net.nodes[z.s];
    && n.ports != [] && z.b == n.bid + 1
    && Lookup(n.routes, z.D, l.params.flag, l.now, n.stale).1.None?
  }

  /** `s` receives a reply or a data frame for `D` and has no usable route, so it parks the frame. */
  predicate ParkingSearches(net: Net, l: Label, z: Quest)
    requires Enabled(net, l)
  {
    && l.Receive?
    && var d := net.flight[l.i];
    && d.node == z.s && z.s in net.nodes && net.nodes[z.s].up && net.nodes[z.s].self == z.s
    && var n, f := net.nodes[z.s], d.frame;
    && Addressed(f) && f.dst == z.D && z.b == n.bid + 1
    && !Ignored(n, f) && Ingest(n, f, d.index, d.mac, l.t).dest.None?
  }

  /** The step sends a request of `s` for `D` with an id not used before. */
  ghost predicate Starts(net: Net, l: Label, z: Quest) {
    && Enabled(net, l) && z.s != z.D && Named(net) && Unused(net, z)
    && (ClientSearches(net, l, z) || ParkingSearches(net, l, z))
  }

  /** Either way the step floods one frame at hop 0. */
  lemma StartSends(net: Net, l: Label, z: Quest) returns (except: int, g: Frame)
    requires Starts(net, l, z)
    ensures Acting(net, l).Some? && Acting(net, l).value.0 == z.s && z.s in net.nodes
    ensures Acting(net, l).value.1.sends == Flood(net.nodes[z.s].ifs, except, g)
    ensures Ours(g, z) && FloodFrame(g, z) && g.hops == 0
  {
    var n := net.nodes[z.s];
    if l.Peer? {
      except := -1;
      var port := Register(n.ports, n.nextPort, l.params.path).2;
      g := Request(z.b, l.params.flag, port, l.params.dstPort, z.D, z.s);
    } else {
      var d := net.flight[l.i];
      except := d.index;
      g := Request(z.b, 0, -1, d.frame.dstPort, z.D, z.s);
    }
  }

  /** The step records nothing under the new id. */
  lemma StartRecordsNothing(net: Net, l: Label, z: Quest)
    requires Starts(net, l, z)
    ensures var n' := Acting(net, l).value.1.node; z.s in n'.routes ==> n'.routes[z.s].bid != z.b
  {
    var n := net.nodes[z.s];
    if l.Peer? {
      var (ports, nextPort, port) := Register(n.ports, n.nextPort, l.params.path);
      var (routes, dest) := Lookup(n.routes, z.D, l.params.flag, l.now, n.stale);
      assert Acting(net, l).value.1.node.routes == routes;
    } else {
      var d := net.flight[l.i];
      assert d in net.flight;
      var g := Ingest(n, d.frame, d.index, d.mac, l.t);
      DispatchKeepsRoutes(n.(routes := g.routes), d.frame, d.index, g.dest, g.updated);
    }
  }

  lemma StartIsFresh(top: Topology, net: Net, l: Label, z: Quest, m: Bounds)
    requires Starts(net, l, z) && Fits(top, net, m)
    ensures Fresh(Next(top, net, l), z) && Number(Next(top, net, l).flight, z) <= m.fan
  {
    var net' := Next(top, net, l);
    var except, g := StartSends(net, l, z);
    var own, o := net.nodes[z.s].ifs, Acting(net, l).value.1;
    var copies := Transmit(top, z.s, o.sends);
    KeepsNames(top, net, l);
    StartRecordsNothing(net, l, z);
    forall d | d in copies
      ensures d.frame == g
    {
      var snd, p, q := TransmitSound(top, z.s, o.sends, d);
      FloodSends(own, except, g);
    }
    forall d | d in Remaining(net, l)
      ensures !Ours(d.frame, z)
    {
      StillThere(net, l, d);
    }
    FloodSize(own, except, g);
    FanBound(top, z.s, o.sends, |own| + 1, m);
    NumberConcat(Remaining(net, l), copies, z);
    NumberAtMost(Remaining(net, l), z);
    NumberAtMost(copies, z);
  }

  /** No frame or record of the flood ever counts more hops than there are nodes, and from the step that
      starts the flood its frames are received at most `(fan + 1) ^ (n + 2)` times, in every run. */
  lemma FloodTerminates(top: Topology, net: Net, l: Label, run: seq<Label>, z: Quest, m: Bounds)
    requires Starts(net, l, z) && Fits(top, net, m) && SettlingRun(top, Next(top, net, l), run, z)
    ensures Receipts(top, Next(top, net, l), run, z) <= Power(m.fan + 1, m.n + 2)
    ensures Bounded(After(top, Next(top, net, l), run), z, m.n)
  {
    var net', w := Next(top, net, l), Power(m.fan + 1, m.n + 1);
    StartIsFresh(top, net, l, z, m);
    KeepsNames(top, net, l);
    assert net'.nodes.Keys == net.nodes.Keys && |net'.nodes| == |net'.nodes.Keys| && |net.nodes| == |net.nodes.Keys|;
    FreshFloodTerminates(top, net', run, z, m);
    PowerPositive(m.fan + 1, m.n + 1);
    FewerTimes(Number(net'.flight, z), m.fan, w);
  }

  lemma EndBounds(top: Topology, end: Net, z: Quest, m: Bounds)
    requires Inv(end, z) && Fits(top, end, m)
    ensures Bounded(end, z, m.n)
  {
    forall d | d in end.flight && Ours(d.frame, z)
      ensures d.frame.hops <= m.n
    {
      HopBound(end, z, d);
    }
    forall x | x in end.nodes && z.s in end.nodes[x].routes && end.nodes[x].routes[z.s].bid == z.b
      ensures end.nodes[x].routes[z.s].hops <= m.n
    {
      RecordBound(end, z, x);
    }
  }
}

/** One unflagged flood from `s` for `D` with a new id `b`. If no frame of the flood is lost and `s` is the source of
    nothing with that id or a later one but the flood, then once none of its frames is in flight every node with a
    shortest path from `s` around `D` holds exactly its hop count. */
module ShortestHop {
  import opened Basics
  import opened Frames
  import opened OdrModel
  import opened Network
  import opened LoopFreedom

  type Ifs = map<Ip, seq<Interface>>

  ghost predicate Usable(ifs: Ifs, p: Plug) {
    p.node in ifs && exists i :: i in ifs[p.node] && i.index == p.index && Floods(i, -1)
  }

  /** Plugs on one segment. */
  predicate Joined(p: Plug, q: Plug) {
    p != q && p.seg == q.seg
  }

  /** A flood by `u` is heard by `v`. */
  ghost predicate Link(top: Topology, ifs: Ifs, u: Ip, v: Ip) {
    exists p, q :: p in top && q in top && Joined(p, q) && Usable(ifs, p) && p.node == u && q.node == v
  }

  /** `v` can be reached from `s` in exactly `k` transmissions. */
  ghost predicate Walk(top: Topology, ifs: Ifs, s: Ip, v: Ip, k: nat)
    decreases k
  {
    if k == 0 then v == s else exists u :: Walk(top, ifs, s, u, k - 1) && Link(top, ifs, u, v)
  }

  /** The same without passing through `D` on the way. */
  ghost predicate WalkAround(top: Topology, ifs: Ifs, s: Ip, D: Ip, v: Ip, k: nat)
    decreases k
  {
    if k == 0 then v == s else exists u :: u != D && WalkAround(top, ifs, s, D, u, k - 1) && Link(top, ifs, u, v)
  }

  /** `k` is the length of a shortest walk to `v`. */
  ghost predicate Shortest(top: Topology, ifs: Ifs, s: Ip, v: Ip, k: nat) {
    Walk(top, ifs, s, v, k) && forall j: nat :: j < k ==> !Walk(top, ifs, s, v, j)
  }

  /** The flood under study. */
  datatype Quest = Quest(s: Ip, D: Ip, b: int)

  predicate OfQuest(f: Frame, z: Quest) {
    && f.src == z.s && f.dst == z.D && f.bid == z.b && f.flag != 1 && f.hops >= 0
    && (f.ftype == RREQ || f.ftype == ASENT)
  }

  /** A frame of the flood. Older frames from `s` may be about as well. */
  predicate Ours(f: Frame, z: Quest) {
    f.src == z.s && f.bid == z.b
  }

  /** `w` has recorded at most `h` hops for this flood. */
  predicate Within(nodes: map<Ip, Node>, z: Quest, w: Ip, h: int) {
    w in nodes && z.s in nodes[w].routes && nodes[w].routes[z.s].bid == z.b && nodes[w].routes[z.s].hops <= h
  }

  /** `w` has recorded at most `h` hops, or a frame is coming that will see to it. */
  ghost predicate Covered(net: Net, z: Quest, w: Ip, h: int) {
    || w == z.s
    || Within(net.nodes, z, w, h)
    || exists d :: d in net.flight && d.node == w && Ours(d.frame, z) && d.frame.hops + 1 <= h
  }

  ghost predicate Static(top: Topology, ifs: Ifs, net: Net) {
    && Named(net)
    && net.nodes.Keys == ifs.Keys
    && (forall x :: x in net.nodes ==> net.nodes[x].ifs == ifs[x] && net.nodes[x].up)
    && (forall p :: p in top ==> p.node in net.nodes)
  }

  /** No frame from `s` is newer than the flood, and recorded hop counts and frames of the flood stand for real
      walks. */
  ghost predicate Honest(top: Topology, ifs: Ifs, net: Net, z: Quest) {
    && (forall d :: d in net.flight && d.frame.src == z.s ==> d.frame.bid <= z.b)
    && (forall d :: d in net.flight && Ours(d.frame, z) ==>
          OfQuest(d.frame, z) && Walk(top, ifs, z.s, d.node, d.frame.hops + 1)
          && exists q :: q in top && q.node == d.node && q.index == d.index)
    && (forall x :: x in net.nodes && z.s in net.nodes[x].routes ==>
          var r := net.nodes[x].routes[z.s];
          r.bid <= z.b && (r.bid == z.b ==> r.hops >= 0 && Walk(top, ifs, z.s, x, r.hops)))
  }

  /** Everyone next to `u`'s flooding interfaces is covered for `h` hops. */
  ghost predicate Announced(top: Topology, ifs: Ifs, net: Net, z: Quest, u: Ip, h: int) {
    forall p, q :: p in top && q in top && Joined(p, q) && Usable(ifs, p) && p.node == u ==> Covered(net, z, q.node, h)
  }

  /** Everyone on the segment where a frame arrives hears that frame too. */
  ghost predicate SharedSegment(top: Topology, net: Net, z: Quest, d: Delivery) {
    forall p, q :: p in top && q in top && p.node == d.node && p.index == d.index && p.seg == q.seg ==>
      Covered(net, z, q.node, d.frame.hops + 1)
  }

  ghost predicate Spreading(top: Topology, ifs: Ifs, net: Net, z: Quest) {
    && Announced(top, ifs, net, z, z.s, 1)
    && (forall u :: u in net.nodes && u != z.s && u != z.D && z.s in net.nodes[u].routes
                    && net.nodes[u].routes[z.s].bid == z.b ==>
          Announced(top, ifs, net, z, u, net.nodes[u].routes[z.s].hops + 1))
    && (forall d :: d in net.flight && Ours(d.frame, z) ==> SharedSegment(top, net, z, d))
  }

  ghost predicate Inv(top: Topology, ifs: Ifs, net: Net, z: Quest) {
    && z.s != z.D
    && Static(top, ifs, net)
    && Honest(top, ifs, net, z)
    && Spreading(top, ifs, net, z)
  }

  // ---------- the steps considered ----------

  predicate Older(sends: seq<Send>, z: Quest) {
    forall snd :: snd in sends && snd.frame.src == z.s ==> snd.frame.bid < z.b
  }

  /** No frame of the flood is lost, no entry for `s` is deleted elsewhere, and no process stops. */
  predicate Gentle(net: Net, l: Label, z: Quest)
    requires Enabled(net, l)
  {
    var a := Acting(net, l);
    && (a.Some? ==> a.value.1.node.up)
    && match l
       case Lose(i) => !Ours(net.flight[i].frame, z)
       case Duplicate(_) => true
       case Receive(i, t) =>
         var d := net.flight[i];
         a.Some? && d.node != z.s ==> !Deletes(net.nodes[d.node], d.frame, t, z.s)
       case Peer(x, p, now) =>
         x != z.s && p.dst == z.s && z.s in net.nodes[x].routes ==>
           !Expired(net.nodes[x].routes[z.s], now, net.nodes[x].stale) && p.flag != 1
  }

  /** Nothing but forwarding the flood puts a frame from `s` with the flood's id or a later one on the wire. */
  predicate NothingNewer(net: Net, l: Label, z: Quest)
    requires Enabled(net, l)
  {
    var a := Acting(net, l);
    a.Some? && !(l.Receive? && Ours(net.flight[l.i].frame, z)) ==> Older(a.value.1.sends, z)
  }

  predicate Calm(net: Net, l: Label, z: Quest)
    requires Enabled(net, l)
  {
    Gentle(net, l, z) && NothingNewer(net, l, z)
  }

  ghost predicate CalmRun(top: Topology, net: Net, run: seq<Label>, z: Quest)
    decreases |run|
  {
    run == [] || (Enabled(net, run[0]) && Calm(net, run[0], z) && CalmRun(top, Next(top, net, run[0]), run[1..], z))
  }

  // ---------- one handler run ----------

  /** The entry for `s` is only replaced by one at least as good. */
  predicate KeepsRoute(n: Node, n': Node, s: Ip) {
    s in n.routes ==> s in n'.routes && AtLeast(n'.routes[s], n.routes[s].bid, n.routes[s].hops)
  }

  /** A node that receives a frame of the flood. */
  ghost predicate Heard(n: Node, f: Frame, ifno: int, o: Outcome, z: Quest) {
    && z.s in o.node.routes
    && var r := o.node.routes[z.s];
    && r.bid == z.b && 0 <= r.hops <= f.hops + 1
    && ((z.s in n.routes && r == n.routes[z.s]) || r.hops == f.hops + 1)
    && (forall snd :: snd in o.sends && snd.frame.src == z.s ==>
          && r.hops == f.hops + 1 && snd.frame.hops == f.hops + 1 && OfQuest(snd.frame, z)
          && snd.to == Broadcast && exists i :: i in n.ifs && Floods(i, ifno) && i.index == snd.ifno)
    && (!(z.s in n.routes && r == n.routes[z.s]) && n.self != z.D ==>
          forall i :: i in n.ifs && Floods(i, ifno) ==>
            exists g: Frame :: Ours(g, z) && g.hops == f.hops + 1 && Send(i.index, Broadcast, g) in o.sends)
  }

  /** The frames a node relays for the flood: none, a flood of requests, or a flood of ASENT frames. */
  lemma DispatchFlood(n: Node, f: Frame, ifno: int, dest: Option<Route>, updated: bool, z: Quest) returns (g: Frame)
    requires OfQuest(f, z) && z.s != z.D && z.s in n.routes
    ensures Ours(g, z) && g.hops == f.hops + 1 && OfQuest(g, z)
    ensures var sends := Dispatch(n, f, ifno, dest, updated).sends;
            && (forall snd :: snd in sends && snd.frame.src == z.s ==> updated && snd in Flood(n.ifs, ifno, g))
            && (updated && n.self != z.D ==> forall snd :: snd in Flood(n.ifs, ifno, g) ==> snd in sends)
  {
    g := Onward(f, if f.ftype == RREQ && dest.None? then RREQ else ASENT);
  }

  lemma FloodHeard(n: Node, f: Frame, ifno: int, mac: Mac, t: Clock, z: Quest)
    requires OfQuest(f, z) && z.s != z.D
    requires n.self != z.s ==> !Deletes(n, f, t, z.s)
    requires z.s in n.routes ==> n.routes[z.s].bid <= z.b && (n.routes[z.s].bid == z.b ==> n.routes[z.s].hops >= 0)
    ensures Heard(n, f, ifno, HandleEthernet(n, f, ifno, mac, t), z)
    ensures n.self != z.s ==> KeepsRoute(n, HandleEthernet(n, f, ifno, mac, t).node, z.s)
  {
    var i := Ingest(n, f, ifno, mac, t);
    var m := n.(routes := i.routes);
    DispatchKeepsRoutes(m, f, ifno, i.dest, i.updated);
    var g := DispatchFlood(m, f, ifno, i.dest, i.updated, z);
    HeardFlood(n, f, ifno, Dispatch(m, f, ifno, i.dest, i.updated), z, i.updated, g);
  }

  lemma HeardFlood(n: Node, f: Frame, ifno: int, o: Outcome, z: Quest, updated: bool, g: Frame)
    requires Ours(g, z) && g.hops == f.hops + 1 && OfQuest(g, z)
    requires z.s in o.node.routes && o.node.routes[z.s].bid == z.b && 0 <= o.node.routes[z.s].hops <= f.hops + 1
    requires if updated then o.node.routes[z.s].hops == f.hops + 1
             else z.s in n.routes && o.node.routes[z.s] == n.routes[z.s]
    requires forall snd :: snd in o.sends && snd.frame.src == z.s ==> updated && snd in Flood(n.ifs, ifno, g)
    requires updated && n.self != z.D ==> forall snd :: snd in Flood(n.ifs, ifno, g) ==> snd in o.sends
    ensures Heard(n, f, ifno, o, z)
  {
    forall snd | snd in o.sends && snd.frame.src == z.s
      ensures snd.to == Broadcast && snd.frame == g && exists i :: i in n.ifs && Floods(i, ifno) && i.index == snd.ifno
    {
      FloodExactly(n.ifs, ifno, g, snd);
    }
    if updated && n.self != z.D {
      forall i | i in n.ifs && Floods(i, ifno)
        ensures exists h: Frame :: Ours(h, z) && h.hops == f.hops + 1 && Send(i.index, Broadcast, h) in o.sends
      {
        FloodReaches(n.ifs, ifno, g, i);
      }
    }
  }

  lemma FloodReaches(ifs: seq<Interface>, except: int, g: Frame, i: Interface)
    requires i in ifs && Floods(i, except)
    ensures Send(i.index, Broadcast, g) in Flood(ifs, except, g)
  {
  }

  /** A frame that does not name `s` as its source leaves the entry for `s` alone. */
  lemma OthersLeaveRoute(n: Node, f: Frame, ifno: int, mac: Mac, t: Clock, s: Ip)
    requires f.src != s
    ensures var n' := HandleEthernet(n, f, ifno, mac, t).node;
            && (s in n'.routes ==> s in n.routes && n'.routes[s] == n.routes[s])
            && (!Deletes(n, f, t, s) && s in n.routes ==> s in n'.routes)
  {
    if !Ignored(n, f) && RREQ <= f.ftype <= ASENT {
      var g := Ingest(n, f, ifno, mac, t);
      DispatchKeepsRoutes(n.(routes := g.routes), f, ifno, g.dest, g.updated);
    }
  }

  /** An older frame from `s` changes neither an entry made by the flood nor makes one. */
  lemma OlderLeavesRoute(n: Node, f: Frame, ifno: int, mac: Mac, t: Clock, z: Quest)
    requires f.src == z.s && f.bid < z.b
    requires z.s in n.routes ==> n.routes[z.s].bid <= z.b
    ensures var n' := HandleEthernet(n, f, ifno, mac, t).node;
            && (z.s in n'.routes ==> n'.routes[z.s].bid < z.b || (z.s in n.routes && n'.routes[z.s] == n.routes[z.s]))
            && (!Deletes(n, f, t, z.s) && z.s in n.routes && n.routes[z.s].bid == z.b ==>
                  z.s in n'.routes && n'.routes[z.s] == n.routes[z.s])
  {
  }

  // ---------- the network step ----------

  /** From `net` to `net'` recorded hop counts only shrink, and a frame of the flood that is gone was recorded. */
  ghost predicate Advances(net: Net, net': Net, z: Quest) {
    && (forall x, h :: x != z.s && Within(net.nodes, z, x, h) ==> Within(net'.nodes, z, x, h))
    && (forall d :: d in net.flight && Ours(d.frame, z) ==>
          d in net'.flight || Covered(net', z, d.node, d.frame.hops + 1))
  }

  /** The spread goes on if new frames are shared on their segment and changed nodes announce what they learnt. */
  lemma SpreadingKept(top: Topology, ifs: Ifs, net: Net, net': Net, z: Quest)
    requires Advances(net, net', z) && Spreading(top, ifs, net, z)
    requires forall u :: u in net'.nodes && u != z.s && u != z.D && z.s in net'.nodes[u].routes
                         && net'.nodes[u].routes[z.s].bid == z.b ==>
               || Announced(top, ifs, net', z, u, net'.nodes[u].routes[z.s].hops + 1)
               || (u in net.nodes && z.s in net.nodes[u].routes
                   && net.nodes[u].routes[z.s] == net'.nodes[u].routes[z.s])
    requires forall d :: d in net'.flight && Ours(d.frame, z) ==> d in net.flight || SharedSegment(top, net', z, d)
    ensures Spreading(top, ifs, net', z)
  {
    forall u | u in net'.nodes && u != z.s && u != z.D && z.s in net'.nodes[u].routes
        && net'.nodes[u].routes[z.s].bid == z.b
      ensures Announced(top, ifs, net', z, u, net'.nodes[u].routes[z.s].hops + 1)
    {
      assert Announced(top, ifs, net, z, u, net'.nodes[u].routes[z.s].hops + 1)
             || Announced(top, ifs, net', z, u, net'.nodes[u].routes[z.s].hops + 1);
    }
    forall d | d in net'.flight && Ours(d.frame, z)
      ensures SharedSegment(top, net', z, d)
    {
      assert SharedSegment(top, net, z, d) || SharedSegment(top, net', z, d);
    }
  }

  lemma SamePlug(top: Topology, p: Plug, q: Plug)
    requires Wired(top) && p in top && q in top && p.node == q.node && p.index == q.index
    ensures p == q
  {
  }

  /** A frame just broadcast is heard by everyone on the segment. */
  lemma BroadcastIsShared(top: Topology, net': Net, z: Quest, who: Ip, sends: seq<Send>, snd: Send, d: Delivery,
                          p: Plug, q: Plug)
    requires Wired(top) && snd in sends && snd.to == Broadcast && Ours(snd.frame, z) && Carries(top, who, snd, d, p, q)
    requires forall e :: e in Transmit(top, who, sends) ==> e in net'.flight
    requires Covered(net', z, who, d.frame.hops + 1)
    ensures SharedSegment(top, net', z, d)
  {
    forall p', q' | p' in top && q' in top && p'.node == d.node && p'.index == d.index && p'.seg == q'.seg
      ensures Covered(net', z, q'.node, d.frame.hops + 1)
    {
      SamePlug(top, p', q);
      if q' != p {
        var e := Delivery(q'.node, q'.index, p.mac, snd.frame);
        TransmitComplete(top, who, sends, snd, e, p, q');
      }
    }
  }

  /** What a node floods on an interface is in flight to everyone on that segment. */
  lemma FloodIsInFlight(top: Topology, net': Net, z: Quest, who: Ip, sends: seq<Send>, index: int, g: Frame, p: Plug,
                        q: Plug)
    requires Wired(top) && Send(index, Broadcast, g) in sends && Ours(g, z)
    requires p in top && q in top && Joined(p, q) && p.node == who && p.index == index
    requires forall e :: e in Transmit(top, who, sends) ==> e in net'.flight
    ensures Covered(net', z, q.node, g.hops + 1)
  {
    var d := Delivery(q.node, q.index, p.mac, g);
    TransmitComplete(top, who, sends, Send(index, Broadcast, g), d, p, q);
    assert d in net'.flight && d.node == q.node && Ours(d.frame, z);
  }

  /** A node that just learnt a better hop count has announced it on all its flooding interfaces. */
  lemma NewsIsAnnounced(top: Topology, ifs: Ifs, net: Net, net': Net, z: Quest, d: Delivery, sends: seq<Send>)
    requires Wired(top) && Advances(net, net', z) && d.node in ifs
    requires SharedSegment(top, net, z, d)
    requires forall i :: i in ifs[d.node] && Floods(i, d.index) ==>
               exists g: Frame :: Ours(g, z) && g.hops == d.frame.hops + 1 && Send(i.index, Broadcast, g) in sends
    requires forall e :: e in Transmit(top, d.node, sends) ==> e in net'.flight
    ensures Announced(top, ifs, net', z, d.node, d.frame.hops + 2)
  {
    forall p, q | p in top && q in top && Joined(p, q) && Usable(ifs, p) && p.node == d.node
      ensures Covered(net', z, q.node, d.frame.hops + 2)
    {
      if p.index != d.index {
        var i :| i in ifs[p.node] && i.index == p.index && Floods(i, -1);
        assert Floods(i, d.index);
        var g: Frame :| Ours(g, z) && g.hops == d.frame.hops + 1 && Send(i.index, Broadcast, g) in sends;
        FloodIsInFlight(top, net', z, d.node, sends, i.index, g, p, q);
      }
    }
  }

  lemma PeerLeavesRoute(n: Node, p: Params, now: int, s: Ip)
    ensures var n' := HandlePeer(n, p, now).node;
            && (s in n'.routes ==> s in n.routes && n'.routes[s] == n.routes[s])
            && (s in n.routes && !(p.dst == s && (Expired(n.routes[s], now, n.stale) || p.flag == 1)) ==>
                s in n'.routes)
  {
  }

  lemma StaticKept(top: Topology, ifs: Ifs, net: Net, l: Label, z: Quest)
    requires Static(top, ifs, net) && Enabled(net, l) && Calm(net, l, z)
    ensures Static(top, ifs, Next(top, net, l))
  {
    KeepsNames(top, net, l);
  }

  /** A step that neither receives nor sends a frame of the flood. */
  lemma QuietStep(top: Topology, ifs: Ifs, net: Net, l: Label, z: Quest)
    requires Wired(top) && Inv(top, ifs, net, z) && Enabled(net, l) && Calm(net, l, z)
    requires l.Receive? ==> !Ours(net.flight[l.i].frame, z)
    ensures Inv(top, ifs, Next(top, net, l), z)
  {
    var net' := Next(top, net, l);
    StaticKept(top, ifs, net, l, z);
    QuietRoutes(top, ifs, net, l, z);
    QuietFlight(top, ifs, net, l, z);
    assert Advances(net, net', z);
    SpreadingKept(top, ifs, net, net', z);
  }

  lemma QuietRoutes(top: Topology, ifs: Ifs, net: Net, l: Label, z: Quest)
    requires Named(net) && Honest(top, ifs, net, z) && Enabled(net, l) && Calm(net, l, z)
    requires l.Receive? ==> !Ours(net.flight[l.i].frame, z)
    ensures var nodes' := Next(top, net, l).nodes;
            forall x :: x in net.nodes ==>
              && x in nodes'
              && (z.s in nodes'[x].routes ==>
                    || nodes'[x].routes[z.s].bid < z.b
                    || (z.s in net.nodes[x].routes && nodes'[x].routes[z.s] == net.nodes[x].routes[z.s]))
              && (x != z.s && z.s in net.nodes[x].routes && net.nodes[x].routes[z.s].bid == z.b ==>
                    z.s in nodes'[x].routes && nodes'[x].routes[z.s] == net.nodes[x].routes[z.s])
  {
    match l
    case Receive(i, t) =>
      var d := net.flight[i];
      assert d in net.flight;
      if Acting(net, l).Some? {
        if d.frame.src == z.s {
          OlderLeavesRoute(net.nodes[d.node], d.frame, d.index, d.mac, t, z);
        } else {
          OthersLeaveRoute(net.nodes[d.node], d.frame, d.index, d.mac, t, z.s);
        }
      }
    case Peer(x, p, now) =>
      PeerLeavesRoute(net.nodes[x], p, now, z.s);
    case _ =>
  }

  lemma QuietFlight(top: Topology, ifs: Ifs, net: Net, l: Label, z: Quest)
    requires Honest(top, ifs, net, z) && Enabled(net, l) && Calm(net, l, z)
    requires l.Receive? ==> !Ours(net.flight[l.i].frame, z)
    ensures forall d: Delivery :: Ours(d.frame, z) ==> (d in Next(top, net, l).flight <==> d in net.flight)
    ensures forall d: Delivery :: d in Next(top, net, l).flight && d.frame.src == z.s ==> d.frame.bid <= z.b
  {
    var net' := Next(top, net, l);
    forall d: Delivery | Ours(d.frame, z)
      ensures d in net'.flight <==> d in net.flight
    {
      if d in net.flight {
        var k :| 0 <= k < |net.flight| && net.flight[k] == d;
        if l.Receive? || l.Lose? {
          assert k != l.i;
          assert d in Without(net.flight, l.i) by {
            if k < l.i {
              assert Without(net.flight, l.i)[k] == d;
            } else {
              assert Without(net.flight, l.i)[k - 1] == d;
            }
          }
        }
        assert d in Remaining(net, l);
      } else if d in net'.flight {
        if d in Remaining(net, l) {
          StillThere(net, l, d);
        } else {
          var (who, o) := Acting(net, l).value;
          var snd, p, q := TransmitSound(top, who, o.sends, d);
        }
      }
    }
    forall d | d in net'.flight && d.frame.src == z.s
      ensures d.frame.bid <= z.b
    {
      if d in Remaining(net, l) {
        StillThere(net, l, d);
      } else {
        var (who, o) := Acting(net, l).value;
        var snd, p, q := TransmitSound(top, who, o.sends, d);
      }
    }
  }

  /** Every frame of the flood that a handler run adds is a broadcast copy heard one hop further on. */
  lemma NewFloodFrame(top: Topology, ifs: Ifs, net: Net, net': Net, z: Quest, d: Delivery, o: Outcome, e: Delivery)
    requires Wired(top) && d.node in net.nodes && d.node in ifs && d.node in net'.nodes && net'.nodes[d.node] == o.node
    requires Heard(net.nodes[d.node], d.frame, d.index, o, z) && net.nodes[d.node].ifs == ifs[d.node]
    requires Walk(top, ifs, z.s, d.node, d.frame.hops + 1) && OfQuest(d.frame, z)
    requires forall x :: x in Transmit(top, d.node, o.sends) ==> x in net'.flight
    requires e in Transmit(top, d.node, o.sends) && e.frame.src == z.s
    ensures OfQuest(e.frame, z) && Walk(top, ifs, z.s, e.node, e.frame.hops + 1) && SharedSegment(top, net', z, e)
    ensures exists q :: q in top && q.node == e.node && q.index == e.index
  {
    var snd, p, q := TransmitSound(top, d.node, o.sends, e);
    assert snd.to == Broadcast && snd.frame.hops == d.frame.hops + 1;
    var i :| i in net.nodes[d.node].ifs && Floods(i, d.index) && i.index == snd.ifno;
    assert p.index > 0 && Floods(i, -1);
    assert Usable(ifs, p);
    assert Joined(p, q);
    assert Link(top, ifs, d.node, e.node);
    assert Walk(top, ifs, z.s, e.node, e.frame.hops + 1);
    assert Within(net'.nodes, z, d.node, e.frame.hops + 1);
    BroadcastIsShared(top, net', z, d.node, o.sends, snd, e, p, q);
  }

  /** `net'` is `net` after the frame `d` of the flood was received with outcome `o`. */
  ghost predicate FloodReceived(top: Topology, ifs: Ifs, net: Net, net': Net, l: Label, z: Quest, d: Delivery,
                                o: Outcome) {
    && Enabled(net, l) && l.Receive? && d == net.flight[l.i] && Ours(d.frame, z)
    && d.node in net.nodes && d.node in ifs && net.nodes[d.node].ifs == ifs[d.node] && net.nodes[d.node].self == d.node
    && Heard(net.nodes[d.node], d.frame, d.index, o, z)
    && (d.node != z.s ==> KeepsRoute(net.nodes[d.node], o.node, z.s))
    && net' == Net(net.nodes[d.node := o.node], Remaining(net, l) + Transmit(top, d.node, o.sends))
  }

  /** Receiving a frame of the flood. */
  lemma FloodStep(top: Topology, ifs: Ifs, net: Net, l: Label, z: Quest)
    requires Wired(top) && Inv(top, ifs, net, z) && Enabled(net, l) && Calm(net, l, z)
    requires l.Receive? && Ours(net.flight[l.i].frame, z)
    ensures Inv(top, ifs, Next(top, net, l), z)
  {
    var d := net.flight[l.i];
    assert d in net.flight;
    StaticKept(top, ifs, net, l, z);
    FloodHeard(net.nodes[d.node], d.frame, d.index, d.mac, l.t, z);
    FloodHonest(top, ifs, net, Next(top, net, l), l, z, d, Acting(net, l).value.1);
    FloodSpreads(top, ifs, net, Next(top, net, l), l, z, d, Acting(net, l).value.1);
  }

  lemma FloodHonest(top: Topology, ifs: Ifs, net: Net, net': Net, l: Label, z: Quest, d: Delivery, o: Outcome)
    requires Wired(top) && Honest(top, ifs, net, z) && FloodReceived(top, ifs, net, net', l, z, d, o)
    ensures Honest(top, ifs, net', z)
  {
    assert d in net.flight;
    forall e | e in net'.flight && e.frame.src == z.s
      ensures e.frame.bid <= z.b
      ensures Ours(e.frame, z) ==> OfQuest(e.frame, z) && Walk(top, ifs, z.s, e.node, e.frame.hops + 1)
      ensures Ours(e.frame, z) ==> exists q :: q in top && q.node == e.node && q.index == e.index
    {
      if e in Remaining(net, l) {
        StillThere(net, l, e);
      } else {
        NewFloodFrame(top, ifs, net, net', z, d, o, e);
      }
    }
  }

  lemma FloodSpreads(top: Topology, ifs: Ifs, net: Net, net': Net, l: Label, z: Quest, d: Delivery, o: Outcome)
    requires Wired(top) && Honest(top, ifs, net, z) && FloodReceived(top, ifs, net, net', l, z, d, o)
    requires Spreading(top, ifs, net, z)
    ensures Spreading(top, ifs, net', z)
  {
    assert d in net.flight;
    FloodAdvances(top, ifs, net, net', l, z, d, o);
    NewFramesShared(top, ifs, net, net', l, z, d, o);
    var n := net.nodes[d.node];
    if d.node != z.D && !(z.s in n.routes && o.node.routes[z.s] == n.routes[z.s]) {
      NewsIsAnnounced(top, ifs, net, net', z, d, o.sends);
    }
    SpreadingKept(top, ifs, net, net', z);
  }

  lemma NewFramesShared(top: Topology, ifs: Ifs, net: Net, net': Net, l: Label, z: Quest, d: Delivery, o: Outcome)
    requires Wired(top) && Honest(top, ifs, net, z) && FloodReceived(top, ifs, net, net', l, z, d, o)
    ensures forall e :: e in net'.flight && Ours(e.frame, z) ==> e in net.flight || SharedSegment(top, net', z, e)
  {
    assert d in net.flight;
    forall e | e in net'.flight && Ours(e.frame, z) && e !in net.flight
      ensures SharedSegment(top, net', z, e)
    {
      if e in Remaining(net, l) {
        StillThere(net, l, e);
      }
      NewFloodFrame(top, ifs, net, net', z, d, o, e);
    }
  }

  lemma FloodAdvances(top: Topology, ifs: Ifs, net: Net, net': Net, l: Label, z: Quest, d: Delivery, o: Outcome)
    requires FloodReceived(top, ifs, net, net', l, z, d, o)
    ensures Advances(net, net', z)
  {
  }

  // ---------- the flood from its start to its end ----------

  /** A client at `s` asks for `D`, unflagged, when `s` has no usable route, and every frame from `s` and
      every entry for `s` is older than the id about to be used. */
  ghost predicate FloodBegins(top: Topology, ifs: Ifs, net: Net, l: Label, z: Quest) {
    && Static(top, ifs, net) && l.Peer? && l.node == z.s && z.s in net.nodes
    && z.s != z.D && l.params.dst == z.D && l.params.flag != 1
    && var n := net.nodes[z.s];
    && n.ports != [] && z.b == n.bid + 1
    && Lookup(n.routes, z.D, l.params.flag, l.now, n.stale).1.None?
    && (forall d :: d in net.flight && d.frame.src == z.s ==> d.frame.bid < z.b)
    && (forall x :: x in net.nodes && z.s in net.nodes[x].routes ==> net.nodes[x].routes[z.s].bid < z.b)
  }

  lemma FloodStarts(top: Topology, ifs: Ifs, net: Net, l: Label, z: Quest)
    requires Wired(top) && FloodBegins(top, ifs, net, l, z)
    ensures Enabled(net, l) && Inv(top, ifs, Next(top, net, l), z)
  {
    var n := net.nodes[z.s];
    var net' := Next(top, net, l);
    var o := HandlePeer(n, l.params, l.now);
    var port := Register(n.ports, n.nextPort, l.params.path).2;
    var g := Request(z.b, l.params.flag, port, l.params.dstPort, z.D, z.s);
    assert o.sends == Flood(n.ifs, -1, g);
    KeepsNames(top, net, l);
    PeerLeavesRoute(n, l.params, l.now, z.s);
    FloodSends(n.ifs, -1, g);
    forall d | d in net'.flight && d.frame.src == z.s && d !in net.flight
      ensures OfQuest(d.frame, z) && Walk(top, ifs, z.s, d.node, d.frame.hops + 1) && SharedSegment(top, net', z, d)
      ensures exists q :: q in top && q.node == d.node && q.index == d.index
    {
      FirstFrames(top, ifs, net', z, n.ifs, g, d);
    }
    forall p, q | p in top && q in top && Joined(p, q) && Usable(ifs, p) && p.node == z.s
      ensures Covered(net', z, q.node, 1)
    {
      var i :| i in ifs[p.node] && i.index == p.index && Floods(i, -1);
      FloodReaches(n.ifs, -1, g, i);
      FloodIsInFlight(top, net', z, z.s, o.sends, i.index, g, p, q);
    }
  }

  lemma FirstFrames(top: Topology, ifs: Ifs, net': Net, z: Quest, own: seq<Interface>, g: Frame, d: Delivery)
    requires Wired(top) && z.s in ifs && own == ifs[z.s] && OfQuest(g, z) && g.hops == 0
    requires var sends := Flood(own, -1, g);
             d in Transmit(top, z.s, sends) && forall e :: e in Transmit(top, z.s, sends) ==> e in net'.flight
    ensures OfQuest(d.frame, z) && Walk(top, ifs, z.s, d.node, d.frame.hops + 1) && SharedSegment(top, net', z, d)
    ensures exists q :: q in top && q.node == d.node && q.index == d.index
  {
    var sends := Flood(own, -1, g);
    var snd, p, q := TransmitSound(top, z.s, sends, d);
    FloodExactly(own, -1, g, snd);
    var i :| i in own && Floods(i, -1) && snd == Send(i.index, Broadcast, g);
    assert Usable(ifs, p) && Joined(p, q);
    assert Walk(top, ifs, z.s, z.s, 0) && Link(top, ifs, z.s, d.node);
    BroadcastIsShared(top, net', z, z.s, sends, snd, d, p, q);
  }

  lemma {:induction false} RunKeepsInv(top: Topology, ifs: Ifs, net: Net, run: seq<Label>, z: Quest)
    requires Wired(top) && Inv(top, ifs, net, z) && CalmRun(top, net, run, z)
    ensures Inv(top, ifs, After(top, net, run), z)
    decreases |run|
  {
    if run != [] {
      if run[0].Receive? && Ours(net.flight[run[0].i].frame, z) {
        FloodStep(top, ifs, net, run[0], z);
      } else {
        QuietStep(top, ifs, net, run[0], z);
      }
      RunKeepsInv(top, ifs, Next(top, net, run[0]), run[1..], z);
    }
  }

  /** At the end of the flood a walk around `D` bounds the recorded hop count. */
  lemma {:induction false} WalkBoundsHops(top: Topology, ifs: Ifs, net: Net, z: Quest, v: Ip, k: nat)
    requires Spreading(top, ifs, net, z) && forall d :: d in net.flight ==> !Ours(d.frame, z)
    requires WalkAround(top, ifs, z.s, z.D, v, k) && v != z.s
    ensures Within(net.nodes, z, v, k)
    decreases k
  {
    var u :| u != z.D && WalkAround(top, ifs, z.s, z.D, u, k - 1) && Link(top, ifs, u, v);
    if u != z.s {
      WalkBoundsHops(top, ifs, net, z, u, k - 1);
    }
  }

  /** The shortest-hop theorem. */
  lemma ShortestHops(top: Topology, ifs: Ifs, net: Net, l: Label, run: seq<Label>, z: Quest, v: Ip, k: nat)
    requires Wired(top) && FloodBegins(top, ifs, net, l, z) && Enabled(net, l)
    requires CalmRun(top, Next(top, net, l), run, z)
    requires forall d :: d in After(top, Next(top, net, l), run).flight ==> !Ours(d.frame, z)
    requires v != z.s && WalkAround(top, ifs, z.s, z.D, v, k) && Shortest(top, ifs, z.s, v, k)
    ensures var nodes := After(top, Next(top, net, l), run).nodes;
            && v in nodes && z.s in nodes[v].routes
            && nodes[v].routes[z.s].bid == z.b && nodes[v].routes[z.s].hops == k
  {
    FloodStarts(top, ifs, net, l, z);
    RunKeepsInv(top, ifs, Next(top, net, l), run, z);
    var end := After(top, Next(top, net, l), run);
    WalkBoundsHops(top, ifs, end, z, v, k);
    assert Walk(top, ifs, z.s, v, end.nodes[v].routes[z.s].hops);
  }
}

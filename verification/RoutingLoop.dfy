/** Why loop freedom has to exclude both deletions and answers by intermediate nodes: either one alone, with no
    frame parked on the way re-sent, leads from the initial state of any four-node network of this shape to nodes
    whose next hops go round in a circle. */
module RoutingLoop {
  import opened Basics
  import opened Frames
  import opened OdrModel
  import opened Network
  import opened LoopFreedom
  import opened Stories

  /** Four nodes, `s` - `a` and a triangle `a` - `b` - `d`; an address that none of them has, the hardware
      addresses of their interfaces, and the staleness threshold. */
  datatype Kite = Kite(s: Ip, a: Ip, b: Ip, d: Ip, z: Ip, macs: seq<Mac>, stale: int) {
    predicate Distinct() {
      && s != a && s != b && s != d && a != b && a != d && b != d && z != s && z != a && z != b && z != d
      && |macs| == 8 && forall i, j :: 0 <= i < j < 8 ==> macs[i] != macs[j]
    }

    function Top(): Topology
      requires |macs| == 8
    {
      [Plug(s, 1, macs[0], 0), Plug(a, 1, macs[1], 0),
       Plug(a, 2, macs[2], 1), Plug(b, 1, macs[3], 1),
       Plug(a, 3, macs[4], 2), Plug(d, 1, macs[5], 2),
       Plug(b, 2, macs[6], 3), Plug(d, 2, macs[7], 3)]
    }

    function S(pending: seq<Parked>, bid: int): Node {
      Process(s, [ETH1], stale, map[], pending, bid)
    }

    function A(routes: map<Ip, Route>): Node {
      Process(a, [ETH1, ETH2, ETH3], stale, routes, [], 10)
    }

    function B(routes: map<Ip, Route>, pending: seq<Parked>, bid: int): Node {
      Process(b, [ETH1, ETH2], stale, routes, pending, bid)
    }

    function D(routes: map<Ip, Route>, pending: seq<Parked>, bid: int): Node {
      Process(d, [ETH1, ETH2], stale, routes, pending, bid)
    }

    function Start(): Net {
      Net(map[s := S([], 10), a := A(map[]), b := B(map[], [], 10), d := D(map[], [], 10)], [])
    }

    predicate At(net: Net, ns: Node, na: Node, nb: Node, nd: Node) {
      && s in net.nodes && net.nodes[s] == ns && a in net.nodes && net.nodes[a] == na
      && b in net.nodes && net.nodes[b] == nb && d in net.nodes && net.nodes[d] == nd
    }

    /** How `a` and then `b` come to know of `s`, and of `d` later on. */
    function AtoS(): Route
      requires |macs| == 8
    {
      Route(macs[0], 1, 1, 11, 0)
    }

    function BtoS(): Route
      requires |macs| == 8
    {
      Route(macs[2], 1, 2, 11, 0)
    }

    function AtoD(): Route
      requires |macs| == 8
    {
      Route(macs[5], 3, 1, 13, 0)
    }

    function BtoD(): Route
      requires |macs| == 8
    {
      Route(macs[2], 1, 2, 13, 0)
    }
  }

  lemma Beginning(w: Kite)
    requires w.Distinct()
    ensures Wired(w.Top()) && Initial(w.Start())
  {
  }

  ghost predicate Told(w: Kite, kinds: set<Kind>, run: seq<Label>, net: Net, ns: Node, na: Node, nb: Node, nd: Node)
    requires |w.macs| == 8
  {
    Leads(w.Top(), w.Start(), kinds, run, net) && w.At(net, ns, na, nb, nd)
  }

  lemma Further(w: Kite, kinds: set<Kind>, run: seq<Label>, net: Net, l: Label,
                ns: Node, na: Node, nb: Node, nd: Node, n: Node)
    requires w.Distinct() && Told(w, kinds, run, net, ns, na, nb, nd) && Enabled(net, l)
    ensures Reaches(w.Top(), w.Start(), run + [l], Next(w.Top(), net, l))
    ensures forall kind :: kind in kinds && !Does(kind, net, l) ==> Avoids(w.Top(), w.Start(), run + [l], kind)
    ensures var net' := Next(w.Top(), net, l);
            && (net'.nodes == net.nodes[w.s := n] ==> w.At(net', n, na, nb, nd))
            && (net'.nodes == net.nodes[w.a := n] ==> w.At(net', ns, n, nb, nd))
            && (net'.nodes == net.nodes[w.b := n] ==> w.At(net', ns, na, n, nd))
            && (net'.nodes == net.nodes[w.d := n] ==> w.At(net', ns, na, nb, n))
    ensures var net', r := Next(w.Top(), net, l), run + [l];
            Clean(kinds, net, l) ==>
            && (net'.nodes == net.nodes[w.s := n] ==> Told(w, kinds, r, net', n, na, nb, nd))
            && (net'.nodes == net.nodes[w.a := n] ==> Told(w, kinds, r, net', ns, n, nb, nd))
            && (net'.nodes == net.nodes[w.b := n] ==> Told(w, kinds, r, net', ns, na, n, nd))
            && (net'.nodes == net.nodes[w.d := n] ==> Told(w, kinds, r, net', ns, na, nb, n))
  {
    OneMore(w.Top(), w.Start(), kinds, run, net, l);
  }

  // ---------- what both stories begin with ----------

  /** No entry is deleted, no node answers for another and no frame parked on the way is re-sent. */
  const ALL := {AnyDeletion, Proxy, Resend}

  /** Receiving a request for an address that nobody has, from a source not heard of. */
  lemma Harmless(net: Net, l: Label, d: Delivery)
    requires Hearing(net, l, d, NOW) && d.node in net.nodes && d.frame.flag == 0 && d.frame.ftype == RREQ
    requires d.frame.dst !in net.nodes[d.node].routes && d.frame.src !in net.nodes[d.node].routes
    ensures Clean(ALL, net, l)
  {
  }

  /** `s` asks for an address that nobody has. */
  lemma SAsks(w: Kite) returns (run: seq<Label>, net: Net, ns: Node)
    requires w.Distinct()
    ensures Told(w, ALL, run, net, ns, w.A(map[]), w.B(map[], [], 10), w.D(map[], [], 10))
    ensures Delivery(w.a, 1, w.macs[0], Wanted(w.s, 11, w.z, 0, 0)) in net.flight
  {
    Beginning(w);
    var l := Ask(w.s, w.z, 0);
    Asks(w.Top(), w.Start(), w.s, w.z, 0, ETH1, 0, 1);
    run, net := [] + [l], Next(w.Top(), w.Start(), l);
    ns := net.nodes[w.s];
    Further(w, ALL, [], w.Start(), l, w.S([], 10), w.A(map[]), w.B(map[], [], 10), w.D(map[], [], 10), ns);
  }

  /** `a` hears of it. */
  lemma AHears(w: Kite) returns (run: seq<Label>, net: Net, ns: Node)
    requires w.Distinct()
    ensures Told(w, ALL, run, net, ns, w.A(map[w.s := w.AtoS()]), w.B(map[], [], 10), w.D(map[], [], 10))
    ensures Delivery(w.b, 1, w.macs[2], Wanted(w.s, 11, w.z, 1, 0)) in net.flight
  {
    Beginning(w);
    var r, before: Net;
    r, before, ns := SAsks(w);
    var d := Delivery(w.a, 1, w.macs[0], Wanted(w.s, 11, w.z, 0, 0));
    var l := PassesOn(w.Top(), before, d, ETH2, 2, 3);
    Harmless(before, l, d);
    run, net := r + [l], Next(w.Top(), before, l);
    Further(w, ALL, r, before, l, ns, w.A(map[]), w.B(map[], [], 10), w.D(map[], [], 10), w.A(map[w.s := w.AtoS()]));
  }

  /** `b` hears of it from `a`. */
  lemma BHears(w: Kite) returns (run: seq<Label>, net: Net, ns: Node)
    requires w.Distinct()
    ensures Told(w, ALL, run, net, ns, w.A(map[w.s := w.AtoS()]), w.B(map[w.s := w.BtoS()], [], 10),
            w.D(map[], [], 10))
    ensures Delivery(w.d, 2, w.macs[6], Wanted(w.s, 11, w.z, 2, 0)) in net.flight
  {
    Beginning(w);
    var r, before: Net;
    r, before, ns := AHears(w);
    var d := Delivery(w.b, 1, w.macs[2], Wanted(w.s, 11, w.z, 1, 0));
    var l := PassesOn(w.Top(), before, d, ETH2, 6, 7);
    Harmless(before, l, d);
    run, net := r + [l], Next(w.Top(), before, l);
    Further(w, ALL, r, before, l, ns, w.A(map[w.s := w.AtoS()]), w.B(map[], [], 10), w.D(map[], [], 10),
            w.B(map[w.s := w.BtoS()], [], 10));
  }

  // ---------- circles ----------

  /** Who owns the interfaces that the routes in these stories lead to. */
  lemma Owners(w: Kite)
    requires w.Distinct()
    ensures Owner(w.Top(), w.macs[2]) == Some(w.a) && Owner(w.Top(), w.macs[3]) == Some(w.b)
    ensures Owner(w.Top(), w.macs[6]) == Some(w.b) && Owner(w.Top(), w.macs[5]) == Some(w.d)
  {
    Beginning(w);
    OwnerOf(w.Top(), w.Top()[2]);
    OwnerOf(w.Top(), w.Top()[3]);
    OwnerOf(w.Top(), w.Top()[5]);
    OwnerOf(w.Top(), w.Top()[6]);
  }

  // ---------- a late frame ----------

  /** `d` hears of it from `b`, and the request is on its way back to `a`. */
  lemma DHears(w: Kite) returns (run: seq<Label>, net: Net, ns: Node)
    requires w.Distinct()
    ensures Told(w, ALL, run, net, ns, w.A(map[w.s := w.AtoS()]), w.B(map[w.s := w.BtoS()], [], 10),
                 w.D(map[w.s := Route(w.macs[6], 2, 3, 11, 0)], [], 10))
    ensures Delivery(w.a, 3, w.macs[5], Wanted(w.s, 11, w.z, 3, 0)) in net.flight
  {
    Beginning(w);
    var r, before: Net;
    r, before, ns := BHears(w);
    var d := Delivery(w.d, 2, w.macs[6], Wanted(w.s, 11, w.z, 2, 0));
    var l := PassesOn(w.Top(), before, d, ETH1, 5, 4);
    Harmless(before, l, d);
    run, net := r + [l], Next(w.Top(), before, l);
    Further(w, ALL, r, before, l, ns, w.A(map[w.s := w.AtoS()]), w.B(map[w.s := w.BtoS()], [], 10), w.D(map[], [], 10),
            w.D(map[w.s := Route(w.macs[6], 2, 3, 11, 0)], [], 10));
  }

  /** The copy that comes back is worse than what `a` knows, but what `a` knows has expired. */
  lemma AHearsLate(w: Kite) returns (init: seq<Label>, last: Label, net: Net, ns: Node)
    requires w.Distinct()
    ensures Avoids(w.Top(), w.Start(), init, AnyDeletion)
    ensures Told(w, {Proxy, Resend}, init + [last], net, ns, w.A(map[w.s := Route(w.macs[5], 3, 4, 11, w.stale)]),
                 w.B(map[w.s := w.BtoS()], [], 10), w.D(map[w.s := Route(w.macs[6], 2, 3, 11, 0)], [], 10))
  {
    var before;
    init, before, ns := DHears(w);
    var f, t, na := Wanted(w.s, 11, w.z, 3, 0), Clock(w.stale, w.stale, w.stale), w.A(map[w.s := w.AtoS()]);
    last := Hear(w.Top(), before, Delivery(w.a, 3, w.macs[5], f), t);
    Learns(na, f, 3, w.macs[5], t);
    net := Next(w.Top(), before, last);
    Further(w, ALL, init, before, last, ns, na, w.B(map[w.s := w.BtoS()], [], 10),
            w.D(map[w.s := Route(w.macs[6], 2, 3, 11, 0)], [], 10),
                w.A(map[w.s := Route(w.macs[5], 3, 4, 11, w.stale)]));
  }

  /** For every staleness threshold there is a run in which no node answers for another, no frame parked on the
      way is re-sent and only the last step deletes an entry, and after which frames for `s` go round in a circle
      from `a`. */
  lemma LateFrameMakesALoop(w: Kite) returns (init: seq<Label>, last: Label)
    requires w.Distinct()
    ensures Wired(w.Top()) && Initial(w.Start())
    ensures Avoids(w.Top(), w.Start(), init, AnyDeletion) && Avoids(w.Top(), w.Start(), init + [last], Proxy)
    ensures Avoids(w.Top(), w.Start(), init + [last], Resend)
    ensures Circular(w.Top(), After(w.Top(), w.Start(), init + [last]).nodes, w.a, w.s)
  {
    Beginning(w);
    var net, ns;
    init, last, net, ns := AHearsLate(w);
    Owners(w);
    GoesRound(w.Top(), net.nodes, w.a, w.d, w.b, w.s);
  }

  // ---------- an answer for another node ----------

  /** `b` uses up two ids. */
  lemma BAsks(w: Kite) returns (run: seq<Label>, net: Net, ns: Node, p: seq<Parked>)
    requires w.Distinct()
    ensures Told(w, ALL, run, net, ns, w.A(map[w.s := w.AtoS()]), w.B(map[w.s := w.BtoS()], p, 12), w.D(map[], [], 10))
  {
    Beginning(w);
    var r, before: Net;
    r, before, ns := BHears(w);
    var l := Ask(w.b, w.z, 0);
    Asks(w.Top(), before, w.b, w.z, 0, ETH1, 3, 2);
    run, net := r + [l], Next(w.Top(), before, l);
    p := net.nodes[w.b].pending;
    Further(w, ALL, r, before, l, ns, w.A(map[w.s := w.AtoS()]), w.B(map[w.s := w.BtoS()], [], 10), w.D(map[], [], 10),
            w.B(map[w.s := w.BtoS()], p, 12));
  }

  /** `d` asks for `s`; its request to `b` will be late. */
  lemma DAsksForS(w: Kite) returns (run: seq<Label>, net: Net, ns: Node, p: seq<Parked>, q: seq<Parked>)
    requires w.Distinct()
    ensures Told(w, ALL, run, net, ns, w.A(map[w.s := w.AtoS()]), w.B(map[w.s := w.BtoS()], p, 12), w.D(map[], q, 12))
    ensures Delivery(w.b, 2, w.macs[7], Wanted(w.d, 11, w.s, 0, 0)) in net.flight
  {
    Beginning(w);
    var r, before: Net;
    r, before, ns, p := BAsks(w);
    var l := Ask(w.d, w.s, 0);
    Asks(w.Top(), before, w.d, w.s, 0, ETH2, 7, 6);
    run, net := r + [l], Next(w.Top(), before, l);
    q := net.nodes[w.d].pending;
    Further(w, ALL, r, before, l, ns, w.A(map[w.s := w.AtoS()]), w.B(map[w.s := w.BtoS()], p, 12), w.D(map[], [], 10),
            w.D(map[], q, 12));
  }

  /** `d` asks for something else. */
  lemma DAsksAgain(w: Kite) returns (run: seq<Label>, net: Net, ns: Node, nd: Node, p: seq<Parked>)
    requires w.Distinct()
    ensures Told(w, ALL, run, net, ns, w.A(map[w.s := w.AtoS()]), w.B(map[w.s := w.BtoS()], p, 12), nd)
    ensures Delivery(w.b, 2, w.macs[7], Wanted(w.d, 11, w.s, 0, 0)) in net.flight
    ensures Delivery(w.a, 3, w.macs[5], Wanted(w.d, 13, w.z, 0, 0)) in net.flight
  {
    Beginning(w);
    var r, before: Net, q;
    r, before, ns, p, q := DAsksForS(w);
    var l := Ask(w.d, w.z, 0);
    Asks(w.Top(), before, w.d, w.z, 0, ETH1, 5, 4);
    Stays(w.Top(), before, l, Delivery(w.b, 2, w.macs[7], Wanted(w.d, 11, w.s, 0, 0)));
    run, net := r + [l], Next(w.Top(), before, l);
    nd := net.nodes[w.d];
    Further(w, ALL, r, before, l, ns, w.A(map[w.s := w.AtoS()]), w.B(map[w.s := w.BtoS()], p, 12), w.D(map[], q, 12),
            nd);
  }

  /** The newer request reaches `a`, */
  lemma AHearsOfD(w: Kite) returns (run: seq<Label>, net: Net, ns: Node, nd: Node, p: seq<Parked>)
    requires w.Distinct()
    ensures Told(w, ALL, run, net, ns, w.A(map[w.s := w.AtoS(), w.d := w.AtoD()]), w.B(map[w.s := w.BtoS()], p, 12),
            nd)
    ensures Delivery(w.b, 2, w.macs[7], Wanted(w.d, 11, w.s, 0, 0)) in net.flight
    ensures Delivery(w.b, 1, w.macs[2], Wanted(w.d, 13, w.z, 1, 0)) in net.flight
  {
    Beginning(w);
    var r, before: Net;
    r, before, ns, nd, p := DAsksAgain(w);
    var l := APassesOn(w, before, Delivery(w.b, 2, w.macs[7], Wanted(w.d, 11, w.s, 0, 0)));
    run, net := r + [l], Next(w.Top(), before, l);
    Further(w, ALL, r, before, l, ns, w.A(map[w.s := w.AtoS()]), w.B(map[w.s := w.BtoS()], p, 12), nd,
            w.A(map[w.s := w.AtoS(), w.d := w.AtoD()]));
  }

  lemma APassesOn(w: Kite, net: Net, late: Delivery) returns (l: Label)
    requires w.Distinct() && w.a in net.nodes && net.nodes[w.a] == w.A(map[w.s := w.AtoS()])
    requires Delivery(w.a, 3, w.macs[5], Wanted(w.d, 13, w.z, 0, 0)) in net.flight && late in net.flight
             && late.node != w.a
    ensures Enabled(net, l) && Clean(ALL, net, l)
    ensures Next(w.Top(), net, l).nodes == net.nodes[w.a := w.A(map[w.s := w.AtoS(), w.d := w.AtoD()])]
    ensures late in Next(w.Top(), net, l).flight
    ensures Delivery(w.b, 1, w.macs[2], Wanted(w.d, 13, w.z, 1, 0)) in Next(w.Top(), net, l).flight
  {
    Beginning(w);
    var d := Delivery(w.a, 3, w.macs[5], Wanted(w.d, 13, w.z, 0, 0));
    l := PassesOn(w.Top(), net, d, ETH2, 2, 3);
    Harmless(net, l, d);
    Stays(w.Top(), net, l, late);
  }

  /** and through `a` it reaches `b`, before the older one. */
  lemma BHearsOfD(w: Kite) returns (run: seq<Label>, net: Net, ns: Node, nd: Node, p: seq<Parked>)
    requires w.Distinct()
    ensures Told(w, ALL, run, net, ns, w.A(map[w.s := w.AtoS(), w.d := w.AtoD()]),
                 w.B(map[w.s := w.BtoS(), w.d := w.BtoD()], p, 12), nd)
    ensures Delivery(w.b, 2, w.macs[7], Wanted(w.d, 11, w.s, 0, 0)) in net.flight
  {
    Beginning(w);
    var r, before: Net;
    r, before, ns, nd, p := AHearsOfD(w);
    var d := Delivery(w.b, 1, w.macs[2], Wanted(w.d, 13, w.z, 1, 0));
    var l := PassesOn(w.Top(), before, d, ETH2, 6, 7);
    Harmless(before, l, d);
    Stays(w.Top(), before, l, Delivery(w.b, 2, w.macs[7], Wanted(w.d, 11, w.s, 0, 0)));
    run, net := r + [l], Next(w.Top(), before, l);
    Further(w, ALL, r, before, l, ns, w.A(map[w.s := w.AtoS(), w.d := w.AtoD()]), w.B(map[w.s := w.BtoS()], p, 12), nd,
            w.B(map[w.s := w.BtoS(), w.d := w.BtoD()], p, 12));
  }

  lemma BAnswersLate(w: Kite, net: Net, b: Node) returns (l: Label)
    requires w.Distinct() && w.stale > 0 && w.b in net.nodes && net.nodes[w.b] == b
    requires b == w.B(map[w.s := w.BtoS(), w.d := w.BtoD()], b.pending, 12)
    requires Delivery(w.b, 2, w.macs[7], Wanted(w.d, 11, w.s, 0, 0)) in net.flight
    ensures Enabled(net, l) && Clean({AnyDeletion, Resend}, net, l)
    ensures Next(w.Top(), net, l).nodes == net.nodes[w.b := b.(bid := 13)]
    ensures Delivery(w.a, 2, w.macs[3], Reply(Wanted(w.d, 11, w.s, 0, 0), 13, 2)) in Next(w.Top(), net, l).flight
  {
    Beginning(w);
    l := AnswersLate(w.Top(), net, Delivery(w.b, 2, w.macs[7], Wanted(w.d, 11, w.s, 0, 0)), 3, 2);
  }

  /** `b` answers the older request in the name of `s`. The answer goes to `a`, with an id of `b`. */
  lemma BAnswers(w: Kite) returns (init: seq<Label>, answer: Label, net: Net, ns: Node, nb: Node, nd: Node)
    requires w.Distinct() && w.stale > 0
    ensures Avoids(w.Top(), w.Start(), init, Proxy)
    ensures Told(w, {AnyDeletion, Resend}, init + [answer], net, ns,
                 w.A(map[w.s := w.AtoS(), w.d := w.AtoD()]), nb, nd)
    ensures w.s in nb.routes && nb.routes[w.s] == w.BtoS()
    ensures Delivery(w.a, 2, w.macs[3], Reply(Wanted(w.d, 11, w.s, 0, 0), 13, 2)) in net.flight
  {
    var before: Net, p;
    init, before, ns, nd, p := BHearsOfD(w);
    var b := w.B(map[w.s := w.BtoS(), w.d := w.BtoD()], p, 12);
    answer := BAnswersLate(w, before, b);
    net, nb := Next(w.Top(), before, answer), b.(bid := 13);
    assert Leads(w.Top(), w.Start(), {AnyDeletion, Resend}, init, before);
    Further(w, {AnyDeletion, Resend}, init, before, answer, ns, w.A(map[w.s := w.AtoS(), w.d := w.AtoD()]), b, nd, nb);
  }

  /** The answer carries a higher id than the request of `s` did, so `a` turns to `b`. */
  lemma ABelieves(w: Kite) returns (init: seq<Label>, answer: Label, last: Label, net: Net)
    requires w.Distinct() && w.stale > 0
    ensures Avoids(w.Top(), w.Start(), init, Proxy)
    ensures Leads(w.Top(), w.Start(), {AnyDeletion, Resend}, init + [answer] + [last], net)
    ensures var here := After(w.Top(), w.Start(), init + [answer]); Enabled(here, last) && !Does(Proxy, here, last)
    ensures w.a in net.nodes && w.s in net.nodes[w.a].routes && net.nodes[w.a].routes[w.s].nextHop == w.macs[3]
    ensures w.b in net.nodes && w.s in net.nodes[w.b].routes && net.nodes[w.b].routes[w.s] == w.BtoS()
  {
    var before, ns, nb, nd;
    init, answer, before, ns, nb, nd := BAnswers(w);
    var f, na := Reply(Wanted(w.d, 11, w.s, 0, 0), 13, 2), w.A(map[w.s := w.AtoS(), w.d := w.AtoD()]);
    last := Hear(w.Top(), before, Delivery(w.a, 2, w.macs[3], f), NOW);
    Records(na, f, 2, w.macs[3], NOW);
    net := Next(w.Top(), before, last);
    OneMore(w.Top(), w.Start(), {AnyDeletion, Resend}, init + [answer], before, last);
  }

  /** For every positive staleness threshold there is a run in which no entry is ever deleted, no frame parked on
      the way is re-sent and all steps but one answer for nobody else,
          and after which frames for `s` go to and fro between `a` and `b`. */
  lemma ProxyAnswerMakesALoop(w: Kite) returns (init: seq<Label>, answer: Label, last: Label)
    requires w.Distinct() && w.stale > 0
    ensures Wired(w.Top()) && Initial(w.Start())
    ensures Avoids(w.Top(), w.Start(), init + [answer] + [last], AnyDeletion) && Avoids(w.Top(), w.Start(), init, Proxy)
    ensures Avoids(w.Top(), w.Start(), init + [answer] + [last], Resend)
    ensures var here := After(w.Top(), w.Start(), init + [answer]); Enabled(here, last) && !Does(Proxy, here, last)
    ensures Circular(w.Top(), After(w.Top(), w.Start(), init + [answer] + [last]).nodes, w.a, w.s)
  {
    Beginning(w);
    var net;
    init, answer, last, net := ABelieves(w);
    Owners(w);
    GoesRound(w.Top(), net.nodes, w.a, w.b, w.a, w.s);
  }
}

/** Why real hop counts need their two conditions: on any line of three nodes `s` - `m` - `x`, one re-sent frame
    and one answer from an entry with id 0 each make `x` record a number of hops to `s` that no walk has. */
module InventedHops {
  import opened Frames
  import opened OdrModel
  import opened Network
  import opened LoopFreedom
  import opened ShortestHop
  import opened HonestHops
  import opened Stories

  /** No hop count is made up, in either way. */
  const MADE_UP := {OldHops, ZeroAnswer}

  // ---------- the routes in these stories ----------

  function MtoS(w: World, bid: int): Route {
    Route(w.sm, 1, 1, bid, 0)
  }

  function MtoX(w: World): Route {
    Route(w.xm, 2, 1, 11, 0)
  }

  function XtoM(w: World): Route {
    Route(w.mx, 1, 1, 13, 0)
  }

  function StoX(w: World): Route {
    Route(w.ms, 1, 2, 11, 0)
  }

  /** With an id for a hop count. */
  function MtoSByMistake(w: World): Route {
    Route(w.sm, 1, 14, 0, 0)
  }

  // ---------- a frame re-sent with its old hop count ----------

  /** The message of `s` to `x`. */
  function G(w: World): Frame {
    Message(w.s, 11, w.x, 0)
  }

  /** `m` forgets `x`, because a client at `m` wants a fresh route. */
  lemma MForgets(w: World) returns (run: seq<Label>, net: Net, p: Queue, q: Queue)
    requires w.Distinct() && !w.ring
    ensures Told(w, MADE_UP, run, net, w.S(map[w.x := StoX(w)], [], 10), w.M(map[], q, 12), w.X(map[], p, 12))
  {
    Beginning(w);
    var r, before: Net;
    r, before, p := SLearns(w, MADE_UP);
    var l := Ask(w.m, w.x, 1);
    Asks(w.Top(), before, w.m, w.x, 1, ETH2, 2, 3);
    run, net := r + [l], Next(w.Top(), before, l);
    q := net.nodes[w.m].pending;
    assert map[w.x := MtoX(w)] - {w.x} == map[];
    assert Clean(MADE_UP, before, l);
    Further(w, MADE_UP, r, before, l, w.S(map[w.x := StoX(w)], [], 10),
            w.M(map[w.x := MtoX(w)], [], 10), w.X(map[], p, 12), w.M(map[], q, 12));
  }

  /** `s` sends `x` a message, which goes to `m`. */
  lemma SSends(w: World) returns (run: seq<Label>, net: Net, p: Queue, q: Queue)
    requires w.Distinct() && !w.ring && w.stale > 0
    ensures Told(w, MADE_UP, run, net, w.S(map[w.x := StoX(w)], [], 10), w.M(map[], q, 12), w.X(map[], p, 12))
    ensures Delivery(w.m, 1, w.sm, G(w)) in net.flight
  {
    Beginning(w);
    var r, before: Net;
    r, before, p, q := MForgets(w);
    var l, ns := Ask(w.s, w.x, 0), w.S(map[w.x := StoX(w)], [], 10);
    Sends(w.Top(), before, w.s, w.x, 0, 1);
    run, net := r + [l], Next(w.Top(), before, l);
    assert Clean(MADE_UP, before, l);
    Further(w, MADE_UP, r, before, l, ns, w.M(map[], q, 12), w.X(map[], p, 12), ns);
  }

  /** `m` parks it and searches. */
  lemma MParks(w: World) returns (run: seq<Label>, net: Net, ns: Node, p: Queue, q: Queue)
    requires w.Distinct() && !w.ring && w.stale > 0
    ensures Told(w, MADE_UP, run, net, ns, w.M(map[w.s := MtoS(w, 11)], Park(q, w.x, G(w)), 13), w.X(map[], p, 12))
    ensures Delivery(w.x, 1, w.mx, Sought(w.m, 13, w.x)) in net.flight
  {
    Beginning(w);
    var r, before: Net;
    r, before, p, q := SSends(w);
    ns := w.S(map[w.x := StoX(w)], [], 10);
    var l := Parks(w.Top(), before, Delivery(w.m, 1, w.sm, G(w)), ETH2, 2, 3);
    run, net := r + [l], Next(w.Top(), before, l);
    assert Clean(MADE_UP, before, l);
    Further(w, MADE_UP, r, before, l, ns, w.M(map[], q, 12), w.X(map[], p, 12),
            w.M(map[w.s := MtoS(w, 11)], Park(q, w.x, G(w)), 13));
  }

  /** `x` replies. */
  lemma XReplies(w: World) returns (run: seq<Label>, net: Net, ns: Node, p: Queue, q: Queue)
    requires w.Distinct() && !w.ring && w.stale > 0
    ensures Told(w, MADE_UP, run, net, ns, w.M(map[w.s := MtoS(w, 11)], Park(q, w.x, G(w)), 13),
                 w.X(map[w.m := XtoM(w)], p, 13))
    ensures Delivery(w.m, 2, w.xm, Reply(Sought(w.m, 13, w.x), 13, 0)) in net.flight
  {
    Beginning(w);
    var r, before: Net;
    r, before, ns, p, q := MParks(w);
    var l := RepliesTo(w.Top(), before, Delivery(w.x, 1, w.mx, Sought(w.m, 13, w.x)), 3, 2);
    run, net := r + [l], Next(w.Top(), before, l);
    assert Clean(MADE_UP, before, l);
    Further(w, MADE_UP, r, before, l, ns, w.M(map[w.s := MtoS(w, 11)], Park(q, w.x, G(w)), 13), w.X(map[], p, 12),
            w.X(map[w.m := XtoM(w)], p, 13));
  }

  /** `m` re-sends the message with the hop count it came with. */
  lemma MResends(w: World) returns (init: seq<Label>, resend: Label, net: Net, ns: Node, nm: Node, p: Queue)
    requires w.Distinct() && !w.ring && w.stale > 0
    ensures Avoids(w.Top(), w.Start(), init, OldHops)
    ensures var here := After(w.Top(), w.Start(), init); Enabled(here, resend) && Does(OldHops, here, resend)
    ensures Told(w, {ZeroAnswer}, init + [resend], net, ns, nm, w.X(map[w.m := XtoM(w)], p, 13))
    ensures Delivery(w.x, 1, w.mx, G(w)) in net.flight
  {
    Beginning(w);
    var before: Net, q: Queue;
    init, before, ns, p, q := XReplies(w);
    var m, f := w.M(map[w.s := MtoS(w, 11)], Park(q, w.x, G(w)), 13), Reply(Sought(w.m, 13, w.x), 13, 0);
    resend := LetsGo(w.Top(), before, Delivery(w.m, 2, w.xm, f), 2, 3);
    net := Next(w.Top(), before, resend);
    nm := m.(routes := m.routes[w.x := RouteOf(f, 2, w.xm, 0)], pending := m.pending[1..]);
    Further(w, MADE_UP, init, before, resend, ns, m, w.X(map[w.m := XtoM(w)], p, 13), nm);
  }

  /** Re-sending a frame parked on the way breaks it by itself: it happens in one step of the run, no step answers
      from an entry with id 0, and at the end `x` holds one hop to `s` under a non-zero id, though no walk has
      that length. */
  lemma ResentFrameInventsHops(w: World) returns (init: seq<Label>, resend: Label, last: Label)
    requires w.Distinct() && !w.ring && w.stale > 0
    ensures Wired(w.Top()) && Initial(w.Start())
    ensures Avoids(w.Top(), w.Start(), init + [resend] + [last], ZeroAnswer)
    ensures Avoids(w.Top(), w.Start(), init, OldHops)
    ensures var here := After(w.Top(), w.Start(), init); Enabled(here, resend) && Does(OldHops, here, resend)
    ensures var here := After(w.Top(), w.Start(), init + [resend]); Enabled(here, last) && !Does(OldHops, here, last)
    ensures Fictitious(w.Top(), After(w.Top(), w.Start(), init + [resend] + [last]), w.s, w.x)
  {
    Beginning(w);
    var before, ns, nm, p;
    init, resend, before, ns, nm, p := MResends(w);
    var nx := w.X(map[w.m := XtoM(w)], p, 13);
    last := Consumes(w.Top(), before, Delivery(w.x, 1, w.mx, G(w)));
    var nx' := nx.(routes := nx.routes[w.s := RouteOf(G(w), 1, w.mx, 0)]);
    Further(w, {ZeroAnswer}, init + [resend], before, last, ns, nm, nx, nx');
    OddIsNoWalk(w, 1);
  }

  // ---------- walks in a line ----------

  /** `x` has a non-zero id and a hop count for `s` that is not the length of any walk. */
  ghost predicate Fictitious(top: Topology, net: Net, s: Ip, x: Ip) {
    && x in net.nodes && s in net.nodes[x].routes && net.nodes[x].routes[s].bid != 0
    && !WireWalk(top, s, x, net.nodes[x].routes[s].hops)
  }

  /** Where every segment joins `m` to another node, a walk alternates. */
  lemma {:induction false} Alternates(top: Topology, m: Ip, y: Ip, v: Ip, k: int)
    requires forall u, v :: Adjacent(top, u, v) ==> (u == m) != (v == m)
    requires WireWalk(top, y, v, k)
    ensures k >= 0 && ((y == m) == (v == m) <==> k % 2 == 0)
    decreases k
  {
    if k > 0 {
      var u :| WireWalk(top, y, u, k - 1) && Adjacent(top, u, v);
      Alternates(top, m, y, u, k - 1);
    }
  }

  /** No walk of odd length joins the two ends. */
  lemma OddIsNoWalk(w: World, k: int)
    requires w.Distinct() && !w.ring && k % 2 == 1
    ensures !WireWalk(w.Top(), w.s, w.x, k)
  {
    forall u, v | Adjacent(w.Top(), u, v)
      ensures (u == w.m) != (v == w.m)
    {
    }
    if WireWalk(w.Top(), w.s, w.x, k) {
      Alternates(w.Top(), w.m, w.s, w.x, k);
    }
  }

  // ---------- an answer from an entry with id 0 ----------

  /** `s` replies, which makes its counter odd. */
  lemma SReplies(w: World) returns (run: seq<Label>, net: Net, p: Queue)
    requires w.Distinct() && !w.ring
    ensures Told(w, MADE_UP, run, net, w.S(map[w.x := StoX(w)], [], 11),
                 w.M(map[w.x := MtoX(w)], [], 10), w.X(map[], p, 12))
  {
    Beginning(w);
    var r, before: Net;
    r, before, p := MPassesOn(w, MADE_UP, w.s);
    var l := RepliesTo(w.Top(), before, Delivery(w.s, 1, w.ms, Wanted(w.x, 11, w.s, 1, 0)), 0, 1);
    run, net := r + [l], Next(w.Top(), before, l);
    assert Clean(MADE_UP, before, l);
    Further(w, MADE_UP, r, before, l, w.S(map[], [], 10), w.M(map[w.x := MtoX(w)], [], 10), w.X(map[], p, 12),
            w.S(map[w.x := StoX(w)], [], 11));
  }

  /** The message of `s` to `m`, parked before there is a route: its hop count is an id. */
  function H(w: World): Frame {
    Message(w.s, 0, w.m, 13)
  }

  /** `s` asks for `m`. */
  lemma SAsksForM(w: World) returns (run: seq<Label>, net: Net, p: Queue)
    requires w.Distinct() && !w.ring
    ensures Told(w, MADE_UP, run, net, w.S(map[w.x := StoX(w)], Park([], w.m, H(w)), 13),
                 w.M(map[w.x := MtoX(w)], [], 10), w.X(map[], p, 12))
    ensures Delivery(w.m, 1, w.sm, Wanted(w.s, 12, w.m, 0, 0)) in net.flight
  {
    Beginning(w);
    var r, before: Net;
    r, before, p := SReplies(w);
    var l := Ask(w.s, w.m, 0);
    Asks(w.Top(), before, w.s, w.m, 0, ETH1, 0, 1);
    run, net := r + [l], Next(w.Top(), before, l);
    assert Clean(MADE_UP, before, l);
    Further(w, MADE_UP, r, before, l, w.S(map[w.x := StoX(w)], [], 11),
            w.M(map[w.x := MtoX(w)], [], 10), w.X(map[], p, 12),
            w.S(map[w.x := StoX(w)], Park([], w.m, H(w)), 13));
  }

  lemma MReplies(w: World) returns (run: seq<Label>, net: Net, p: Queue)
    requires w.Distinct() && !w.ring
    ensures Told(w, MADE_UP, run, net, w.S(map[w.x := StoX(w)], Park([], w.m, H(w)), 13),
                 w.M(map[w.x := MtoX(w), w.s := MtoS(w, 12)], [], 11), w.X(map[], p, 12))
    ensures Delivery(w.s, 1, w.ms, Reply(Wanted(w.s, 12, w.m, 0, 0), 11, 0)) in net.flight
  {
    Beginning(w);
    var r, before: Net;
    r, before, p := SAsksForM(w);
    var l := RepliesTo(w.Top(), before, Delivery(w.m, 1, w.sm, Wanted(w.s, 12, w.m, 0, 0)), 1, 0);
    run, net := r + [l], Next(w.Top(), before, l);
    assert Clean(MADE_UP, before, l);
    Further(w, MADE_UP, r, before, l, w.S(map[w.x := StoX(w)], Park([], w.m, H(w)), 13),
            w.M(map[w.x := MtoX(w)], [], 10), w.X(map[], p, 12),
            w.M(map[w.x := MtoX(w), w.s := MtoS(w, 12)], [], 11));
  }

  lemma SLetsGo(w: World, net: Net, s: Node) returns (l: Label, ns: Node)
    requires w.Distinct() && !w.ring && s == w.S(map[w.x := StoX(w)], Park([], w.m, H(w)), 13)
    requires w.s in net.nodes && net.nodes[w.s] == s
    requires Delivery(w.s, 1, w.ms, Reply(Wanted(w.s, 12, w.m, 0, 0), 11, 0)) in net.flight
    ensures Enabled(net, l) && !Does(OldHops, net, l) && !Does(ZeroAnswer, net, l)
            && Next(w.Top(), net, l).nodes == net.nodes[w.s := ns]
    ensures Delivery(w.m, 1, w.sm, H(w)) in Next(w.Top(), net, l).flight
  {
    Beginning(w);
    var f := Reply(Wanted(w.s, 12, w.m, 0, 0), 11, 0);
    l := LetsGo(w.Top(), net, Delivery(w.s, 1, w.ms, f), 0, 1);
    ns := s.(routes := s.routes[w.m := RouteOf(f, 1, w.ms, 0)], pending := s.pending[1..]);
  }

  /** `s` sends what it had parked. */
  lemma SReleases(w: World) returns (run: seq<Label>, net: Net, ns: Node, p: Queue)
    requires w.Distinct() && !w.ring
    ensures Told(w, MADE_UP, run, net, ns,
                 w.M(map[w.x := MtoX(w), w.s := MtoS(w, 12)], [], 11), w.X(map[], p, 12))
    ensures Delivery(w.m, 1, w.sm, H(w)) in net.flight
  {
    var r, before: Net, l: Label;
    r, before, p := MReplies(w);
    var s := w.S(map[w.x := StoX(w)], Park([], w.m, H(w)), 13);
    l, ns := SLetsGo(w, before, s);
    run, net := r + [l], Next(w.Top(), before, l);
    assert Clean(MADE_UP, before, l);
    Further(w, MADE_UP, r, before, l, s,
            w.M(map[w.x := MtoX(w), w.s := MtoS(w, 12)], [], 11), w.X(map[], p, 12), ns);
  }

  lemma OneLeft(x: Ip, r: Route, y: Ip, q: Route)
    requires x != y
    ensures Dropped(map[x := r, y := q], y) == map[x := r]
  {
  }

  /** Meanwhile `m` forgets `s`, because a client at `m` wants a fresh route. */
  lemma MForgetsS(w: World) returns (run: seq<Label>, net: Net, ns: Node, p: Queue, q: Queue)
    requires w.Distinct() && !w.ring
    ensures Told(w, MADE_UP, run, net, ns, w.M(map[w.x := MtoX(w)], q, 13), w.X(map[], p, 12))
    ensures Delivery(w.m, 1, w.sm, H(w)) in net.flight
  {
    Beginning(w);
    var r, before: Net;
    r, before, ns, p := SReleases(w);
    var l := Ask(w.m, w.s, 1);
    Asks(w.Top(), before, w.m, w.s, 1, ETH1, 1, 0);
    Stays(w.Top(), before, l, Delivery(w.m, 1, w.sm, H(w)));
    run, net := r + [l], Next(w.Top(), before, l);
    q := net.nodes[w.m].pending;
    OneLeft(w.x, MtoX(w), w.s, MtoS(w, 12));
    assert Clean(MADE_UP, before, l);
    Further(w, MADE_UP, r, before, l, ns,
            w.M(map[w.x := MtoX(w), w.s := MtoS(w, 12)], [], 11), w.X(map[], p, 12),
            w.M(map[w.x := MtoX(w)], q, 13));
  }

  /** `m` gets the message and takes the id for a hop count. */
  lemma MTakes(w: World, net: Net, q: Queue) returns (l: Label)
    requires w.Distinct() && w.m in net.nodes && net.nodes[w.m] == w.M(map[w.x := MtoX(w)], q, 13)
    requires Delivery(w.m, 1, w.sm, H(w)) in net.flight
    ensures Enabled(net, l) && Clean(MADE_UP, net, l)
    ensures Next(w.Top(), net, l).nodes ==
            net.nodes[w.m := w.M(map[w.x := MtoX(w), w.s := MtoSByMistake(w)], q, 13)]
  {
    l := Consumes(w.Top(), net, Delivery(w.m, 1, w.sm, H(w)));
  }

  lemma MConsumes(w: World) returns (run: seq<Label>, net: Net, ns: Node, p: Queue, q: Queue)
    requires w.Distinct() && !w.ring
    ensures Told(w, MADE_UP, run, net, ns,
                 w.M(map[w.x := MtoX(w), w.s := MtoSByMistake(w)], q, 13), w.X(map[], p, 12))
  {
    var r, before: Net;
    r, before, ns, p, q := MForgetsS(w);
    var l := MTakes(w, before, q);
    run, net := r + [l], Next(w.Top(), before, l);
    Further(w, MADE_UP, r, before, l, ns, w.M(map[w.x := MtoX(w)], q, 13), w.X(map[], p, 12),
            w.M(map[w.x := MtoX(w), w.s := MtoSByMistake(w)], q, 13));
  }

  /** `x` asks for `s` again. */
  lemma XAsksAgain(w: World) returns (run: seq<Label>, net: Net, ns: Node, p: Queue, q: Queue)
    requires w.Distinct() && !w.ring
    ensures Told(w, MADE_UP, run, net, ns,
                 w.M(map[w.x := MtoX(w), w.s := MtoSByMistake(w)], q, 13), w.X(map[], p, 14))
    ensures Delivery(w.m, 2, w.xm, Wanted(w.x, 13, w.s, 0, 0)) in net.flight
    ensures p != [] && p[0] == Parked(w.s, Message(w.x, 0, w.s, 14))
  {
    Beginning(w);
    var r, before: Net, p': Queue;
    r, before, ns, p', q := MConsumes(w);
    var l := Ask(w.x, w.s, 0);
    Asks(w.Top(), before, w.x, w.s, 0, ETH1, 3, 2);
    run, net := r + [l], Next(w.Top(), before, l);
    p := net.nodes[w.x].pending;
    assert Clean(MADE_UP, before, l);
    Further(w, MADE_UP, r, before, l, ns,
            w.M(map[w.x := MtoX(w), w.s := MtoSByMistake(w)], q, 13), w.X(map[], p', 12), w.X(map[], p, 14));
  }

  /** `m` answers for `s`, from that entry. */
  lemma MAnswers(w: World) returns (init: seq<Label>, answer: Label, net: Net, ns: Node, nm: Node, p: Queue)
    requires w.Distinct() && !w.ring && w.stale > 0
    ensures Avoids(w.Top(), w.Start(), init, ZeroAnswer)
    ensures var here := After(w.Top(), w.Start(), init); Enabled(here, answer) && Does(ZeroAnswer, here, answer)
    ensures Told(w, {OldHops}, init + [answer], net, ns, nm, w.X(map[], p, 14))
    ensures Delivery(w.x, 1, w.mx, Reply(Wanted(w.x, 13, w.s, 0, 0), 14, 14)) in net.flight
    ensures p != [] && p[0] == Parked(w.s, Message(w.x, 0, w.s, 14))
  {
    Beginning(w);
    var before: Net, q: Queue;
    init, before, ns, p, q := XAsksAgain(w);
    var m, f := w.M(map[w.x := MtoX(w), w.s := MtoSByMistake(w)], q, 13), Wanted(w.x, 13, w.s, 0, 0);
    answer := AnswersInstead(w.Top(), before, Delivery(w.m, 2, w.xm, f), 2, 3);
    net := Next(w.Top(), before, answer);
    nm := m.(routes := m.routes[w.x := RouteOf(f, 2, w.xm, 0)], bid := 14);
    Further(w, MADE_UP, init, before, answer, ns, m, w.X(map[], p, 14), nm);
  }

  /** An answer from an entry with id 0 breaks it by itself too: it is given in one step of the run, no step
      re-sends a frame with an old hop count, and at the end `x` holds fifteen hops to `s` under a non-zero id,
      though no walk has that length. */
  lemma IdZeroAnswerInventsHops(w: World) returns (init: seq<Label>, answer: Label, last: Label)
    requires w.Distinct() && !w.ring && w.stale > 0
    ensures Wired(w.Top()) && Initial(w.Start())
    ensures Avoids(w.Top(), w.Start(), init + [answer] + [last], OldHops)
    ensures Avoids(w.Top(), w.Start(), init, ZeroAnswer)
    ensures var here := After(w.Top(), w.Start(), init); Enabled(here, answer) && Does(ZeroAnswer, here, answer)
    ensures var here := After(w.Top(), w.Start(), init + [answer]); Enabled(here, last) && !Does(ZeroAnswer, here, last)
    ensures Fictitious(w.Top(), After(w.Top(), w.Start(), init + [answer] + [last]), w.s, w.x)
  {
    Beginning(w);
    var before, ns, nm, p;
    init, answer, before, ns, nm, p := MAnswers(w);
    var f := Reply(Wanted(w.x, 13, w.s, 0, 0), 14, 14);
    last := Hear(w.Top(), before, Delivery(w.x, 1, w.mx, f), NOW);
    Records(w.X(map[], p, 14), f, 1, w.mx, NOW);
    Further(w, {OldHops}, init + [answer], before, last, ns, nm, w.X(map[], p, 14),
            Next(w.Top(), before, last).nodes[w.x]);
    OddIsNoWalk(w, 15);
  }
}

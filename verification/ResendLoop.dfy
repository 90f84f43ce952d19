/** Why loop freedom has to exclude frames parked on the way and re-sent: in any ring of three nodes two such
    frames, each with the hop count it came with, make two nodes accept each other on a tie. */
module ResendLoop {
  import opened Frames
  import opened OdrModel
  import opened Network
  import opened LoopFreedom
  import opened Stories

  /** No entry for `s` is deleted and no node answers for another. */
  function Kinds(w: World): set<Kind> {
    {DeletionOf(w.s), Proxy}
  }

  predicate Ringed(w: World) {
    w.Distinct() && w.ring && w.stale > 0
  }

  /** One hop to `s` itself, and one hop through the other of `m` and `x`. */
  function MtoS(w: World): Route {
    Route(w.sm, 1, 1, 11, 0)
  }

  function XtoS(w: World): Route {
    Route(w.sx, 2, 1, 11, 0)
  }

  function MviaX(w: World, bid: int): Route {
    Route(w.xm, 2, 1, bid, 0)
  }

  function XviaM(w: World, bid: int): Route {
    Route(w.mx, 1, 1, bid, 0)
  }

  function SviaM(w: World): Route {
    Route(w.ms, 1, 2, 11, 0)
  }

  /** What `s` knows in the end: `x` through `m`, and `m` through `x`. */
  function SKnows(w: World): map<Ip, Route> {
    map[w.x := SviaM(w), w.m := Route(w.xs, 2, 2, 11, 0)]
  }

  /** A frame that is not a request for another node known here, and not about an expired entry for `s`. */
  lemma Quiet(w: World, net: Net, l: Label, d: Delivery)
    requires w.stale > 0 && Hearing(net, l, d, NOW) && d.node in net.nodes && d.frame.flag == 0
    requires var n := net.nodes[d.node];
             && n.stale == w.stale && (w.s in n.routes ==> n.routes[w.s].time == 0)
             && (d.frame.ftype == RREQ ==> d.frame.dst == n.self || d.frame.dst !in n.routes)
    ensures Clean(Kinds(w), net, l)
  {
  }

  lemma Replaced(x: Ip, a: Route, y: Ip, b: Route, c: Route)
    requires x != y
    ensures map[x := a, y := b][y := c] == map[x := a, y := c]
    ensures map[x := a, y := b][x := c] == map[x := c, y := b]
  {
  }

  /** `m` asks for an address nobody has. */
  lemma MAsks(w: World) returns (run: seq<Label>, net: Net, p: Queue, q: Queue)
    requires Ringed(w)
    ensures Told(w, Kinds(w), run, net, w.S(map[w.x := SviaM(w)], [], 10), w.M(map[w.x := MviaX(w, 11)], q, 12),
                 w.X(map[], p, 12))
    ensures Delivery(w.x, 1, w.mx, Wanted(w.m, 11, w.z, 0, 0)) in net.flight
  {
    Beginning(w);
    var r, before: Net;
    r, before, p := SLearns(w, Kinds(w));
    var l := Ask(w.m, w.z, 0);
    Asks(w.Top(), before, w.m, w.z, 0, ETH2, 2, 3);
    run, net := r + [l], Next(w.Top(), before, l);
    q := net.nodes[w.m].pending;
    Further(w, Kinds(w), r, before, l, w.S(map[w.x := SviaM(w)], [], 10), w.M(map[w.x := MviaX(w, 11)], [], 10),
            w.X(map[], p, 12), w.M(map[w.x := MviaX(w, 11)], q, 12));
  }

  /** `x` hears of it and passes it on to `s`. */
  lemma XPassesOn(w: World) returns (run: seq<Label>, net: Net, p: Queue, q: Queue)
    requires Ringed(w)
    ensures Told(w, Kinds(w), run, net, w.S(map[w.x := SviaM(w)], [], 10), w.M(map[w.x := MviaX(w, 11)], q, 12),
                 w.X(map[w.m := XviaM(w, 11)], p, 12))
    ensures Delivery(w.s, 2, w.xs, Wanted(w.m, 11, w.z, 1, 0)) in net.flight
  {
    Beginning(w);
    var r, before: Net;
    r, before, p, q := MAsks(w);
    var d := Delivery(w.x, 1, w.mx, Wanted(w.m, 11, w.z, 0, 0));
    var l := PassesOn(w.Top(), before, d, ETH2, 5, 4);
    Quiet(w, before, l, d);
    run, net := r + [l], Next(w.Top(), before, l);
    Further(w, Kinds(w), r, before, l, w.S(map[w.x := SviaM(w)], [], 10), w.M(map[w.x := MviaX(w, 11)], q, 12),
            w.X(map[], p, 12), w.X(map[w.m := XviaM(w, 11)], p, 12));
  }

  /** The route of `s` to `m` goes through `x`. */
  lemma SLearnsM(w: World) returns (run: seq<Label>, net: Net, p: Queue, q: Queue)
    requires Ringed(w)
    ensures Told(w, Kinds(w), run, net, w.S(SKnows(w), [], 10), w.M(map[w.x := MviaX(w, 11)], q, 12),
                 w.X(map[w.m := XviaM(w, 11)], p, 12))
  {
    Beginning(w);
    var r, before: Net;
    r, before, p, q := XPassesOn(w);
    var d := Delivery(w.s, 2, w.xs, Wanted(w.m, 11, w.z, 1, 0));
    var l := JustLearns(w.Top(), before, d);
    Quiet(w, before, l, d);
    run, net := r + [l], Next(w.Top(), before, l);
    Further(w, Kinds(w), r, before, l, w.S(map[w.x := SviaM(w)], [], 10), w.M(map[w.x := MviaX(w, 11)], q, 12),
            w.X(map[w.m := XviaM(w, 11)], p, 12), w.S(SKnows(w), [], 10));
  }

  lemma NoneLeft(x: Ip, r: Route)
    ensures Dropped(map[x := r], x) == map[]
  {
  }

  /** A client at `m` wants a fresh route to `x`, so `m` forgets the one it has. */
  lemma MForgetsX(w: World) returns (run: seq<Label>, net: Net, p: Queue, q: Queue)
    requires Ringed(w)
    ensures Told(w, Kinds(w), run, net, w.S(SKnows(w), [], 10), w.M(map[], q, 14),
                 w.X(map[w.m := XviaM(w, 11)], p, 12))
  {
    Beginning(w);
    var r, before: Net;
    var q0: Queue;
    r, before, p, q0 := SLearnsM(w);
    var l := Ask(w.m, w.x, 1);
    Asks(w.Top(), before, w.m, w.x, 1, ETH2, 2, 3);
    NoneLeft(w.x, MviaX(w, 11));
    run, net := r + [l], Next(w.Top(), before, l);
    q := net.nodes[w.m].pending;
    Further(w, Kinds(w), r, before, l, w.S(SKnows(w), [], 10), w.M(map[w.x := MviaX(w, 11)], q0, 12),
            w.X(map[w.m := XviaM(w, 11)], p, 12), w.M(map[], q, 14));
  }

  /** The same at `x`. */
  lemma XForgetsM(w: World) returns (run: seq<Label>, net: Net, p: Queue, q: Queue)
    requires Ringed(w)
    ensures Told(w, Kinds(w), run, net, w.S(SKnows(w), [], 10), w.M(map[], q, 14),
                 w.X(map[], p, 14))
  {
    Beginning(w);
    var r, before: Net;
    var p0: Queue;
    r, before, p0, q := MForgetsX(w);
    var l := Ask(w.x, w.m, 1);
    Asks(w.Top(), before, w.x, w.m, 1, ETH1, 3, 2);
    NoneLeft(w.m, XviaM(w, 11));
    run, net := r + [l], Next(w.Top(), before, l);
    p := net.nodes[w.x].pending;
    Further(w, Kinds(w), r, before, l, w.S(SKnows(w), [], 10), w.M(map[], q, 14),
            w.X(map[w.m := XviaM(w, 11)], p0, 12), w.X(map[], p, 14));
  }

  /** The messages of `s` to `x` and to `m`. They carry the ids of the two routes, which are the same. */
  function ToX(w: World): Frame {
    Message(w.s, 11, w.x, 0)
  }

  function ToM(w: World): Frame {
    Message(w.s, 11, w.m, 0)
  }

  /** The first goes to `m`. */
  lemma SSendsToX(w: World) returns (run: seq<Label>, net: Net, p: Queue, q: Queue)
    requires Ringed(w)
    ensures Told(w, Kinds(w), run, net, w.S(SKnows(w), [], 10), w.M(map[], q, 14),
                 w.X(map[], p, 14))
    ensures Delivery(w.m, 1, w.sm, ToX(w)) in net.flight
  {
    Beginning(w);
    var r, before: Net;
    r, before, p, q := XForgetsM(w);
    var l := Ask(w.s, w.x, 0);
    Sends(w.Top(), before, w.s, w.x, 0, 1);
    run, net := r + [l], Next(w.Top(), before, l);
    Further(w, Kinds(w), r, before, l, w.S(SKnows(w), [], 10), w.M(map[], q, 14),
            w.X(map[], p, 14), w.S(SKnows(w), [], 10));
  }

  /** The second goes to `x`. */
  lemma SSendsToM(w: World) returns (run: seq<Label>, net: Net, p: Queue, q: Queue)
    requires Ringed(w)
    ensures Told(w, Kinds(w), run, net, w.S(SKnows(w), [], 10), w.M(map[], q, 14),
                 w.X(map[], p, 14))
    ensures Delivery(w.m, 1, w.sm, ToX(w)) in net.flight
    ensures Delivery(w.x, 2, w.sx, ToM(w)) in net.flight
  {
    Beginning(w);
    var r, before: Net;
    r, before, p, q := SSendsToX(w);
    var l := Ask(w.s, w.m, 0);
    Sends(w.Top(), before, w.s, w.m, 4, 5);
    Stays(w.Top(), before, l, Delivery(w.m, 1, w.sm, ToX(w)));
    run, net := r + [l], Next(w.Top(), before, l);
    Further(w, Kinds(w), r, before, l, w.S(SKnows(w), [], 10), w.M(map[], q, 14),
            w.X(map[], p, 14), w.S(SKnows(w), [], 10));
  }

  /** `m` parks the first and searches. */
  lemma MParks(w: World) returns (run: seq<Label>, net: Net, p: Queue, q: Queue)
    requires Ringed(w)
    ensures Told(w, Kinds(w), run, net, w.S(SKnows(w), [], 10), w.M(map[w.s := MtoS(w)], Park(q, w.x, ToX(w)), 15),
                 w.X(map[], p, 14))
    ensures Delivery(w.x, 2, w.sx, ToM(w)) in net.flight
    ensures Delivery(w.x, 1, w.mx, Sought(w.m, 15, w.x)) in net.flight
  {
    Beginning(w);
    var r, before: Net;
    r, before, p, q := SSendsToM(w);
    var d := Delivery(w.m, 1, w.sm, ToX(w));
    var l := Parks(w.Top(), before, d, ETH2, 2, 3);
    Quiet(w, before, l, d);
    Stays(w.Top(), before, l, Delivery(w.x, 2, w.sx, ToM(w)));
    run, net := r + [l], Next(w.Top(), before, l);
    Further(w, Kinds(w), r, before, l, w.S(SKnows(w), [], 10), w.M(map[], q, 14),
            w.X(map[], p, 14), w.M(map[w.s := MtoS(w)], Park(q, w.x, ToX(w)), 15));
  }

  /** `x` parks the second and searches. */
  lemma XParks(w: World) returns (run: seq<Label>, net: Net, p: Queue, q: Queue)
    requires Ringed(w)
    ensures Told(w, Kinds(w), run, net, w.S(SKnows(w), [], 10), w.M(map[w.s := MtoS(w)], Park(q, w.x, ToX(w)), 15),
                 w.X(map[w.s := XtoS(w)], Park(p, w.m, ToM(w)), 15))
    ensures Delivery(w.x, 1, w.mx, Sought(w.m, 15, w.x)) in net.flight
    ensures Delivery(w.m, 2, w.xm, Sought(w.x, 15, w.m)) in net.flight
  {
    Beginning(w);
    var r, before: Net;
    r, before, p, q := MParks(w);
    var d := Delivery(w.x, 2, w.sx, ToM(w));
    var l := Parks(w.Top(), before, d, ETH1, 3, 2);
    Quiet(w, before, l, d);
    Stays(w.Top(), before, l, Delivery(w.x, 1, w.mx, Sought(w.m, 15, w.x)));
    run, net := r + [l], Next(w.Top(), before, l);
    Further(w, Kinds(w), r, before, l, w.S(SKnows(w), [], 10), w.M(map[w.s := MtoS(w)], Park(q, w.x, ToX(w)), 15),
            w.X(map[], p, 14), w.X(map[w.s := XtoS(w)], Park(p, w.m, ToM(w)), 15));
  }

  /** `x` replies to `m`. */
  lemma XReplies(w: World) returns (run: seq<Label>, net: Net, p: Queue, q: Queue)
    requires Ringed(w)
    ensures Told(w, Kinds(w), run, net, w.S(SKnows(w), [], 10), w.M(map[w.s := MtoS(w)], Park(q, w.x, ToX(w)), 15),
                 w.X(map[w.s := XtoS(w), w.m := XviaM(w, 15)], Park(p, w.m, ToM(w)), 16))
    ensures Delivery(w.m, 2, w.xm, Sought(w.x, 15, w.m)) in net.flight
    ensures Delivery(w.m, 2, w.xm, Reply(Sought(w.m, 15, w.x), 16, 0)) in net.flight
  {
    Beginning(w);
    var r, before: Net;
    r, before, p, q := XParks(w);
    var d := Delivery(w.x, 1, w.mx, Sought(w.m, 15, w.x));
    var l := RepliesTo(w.Top(), before, d, 3, 2);
    Quiet(w, before, l, d);
    Stays(w.Top(), before, l, Delivery(w.m, 2, w.xm, Sought(w.x, 15, w.m)));
    run, net := r + [l], Next(w.Top(), before, l);
    Further(w, Kinds(w), r, before, l, w.S(SKnows(w), [], 10), w.M(map[w.s := MtoS(w)], Park(q, w.x, ToX(w)), 15),
            w.X(map[w.s := XtoS(w)], Park(p, w.m, ToM(w)), 15),
                w.X(map[w.s := XtoS(w), w.m := XviaM(w, 15)], Park(p, w.m, ToM(w)), 16));
  }

  /** `m` replies to `x`. */
  lemma MReplies(w: World) returns (run: seq<Label>, net: Net, p: Queue, q: Queue)
    requires Ringed(w)
    ensures Told(w, Kinds(w), run, net, w.S(SKnows(w), [], 10),
            w.M(map[w.s := MtoS(w), w.x := MviaX(w, 15)], Park(q, w.x, ToX(w)), 16),
                 w.X(map[w.s := XtoS(w), w.m := XviaM(w, 15)], Park(p, w.m, ToM(w)), 16))
    ensures Delivery(w.m, 2, w.xm, Reply(Sought(w.m, 15, w.x), 16, 0)) in net.flight
    ensures Delivery(w.x, 1, w.mx, Reply(Sought(w.x, 15, w.m), 16, 0)) in net.flight
  {
    Beginning(w);
    var r, before: Net;
    r, before, p, q := XReplies(w);
    var d := Delivery(w.m, 2, w.xm, Sought(w.x, 15, w.m));
    var l := RepliesTo(w.Top(), before, d, 2, 3);
    Quiet(w, before, l, d);
    Stays(w.Top(), before, l, Delivery(w.m, 2, w.xm, Reply(Sought(w.m, 15, w.x), 16, 0)));
    run, net := r + [l], Next(w.Top(), before, l);
    Further(w, Kinds(w), r, before, l, w.S(SKnows(w), [], 10), w.M(map[w.s := MtoS(w)], Park(q, w.x, ToX(w)), 15),
            w.X(map[w.s := XtoS(w), w.m := XviaM(w, 15)], Park(p, w.m, ToM(w)), 16),
                w.M(map[w.s := MtoS(w), w.x := MviaX(w, 15)], Park(q, w.x, ToX(w)), 16));
  }

  /** `m` re-sends the first message, with the hop count it came with. */
  lemma MResends(w: World) returns (run: seq<Label>, net: Net, p: Queue, q: Queue)
    requires Ringed(w)
    ensures Told(w, Kinds(w), run, net, w.S(SKnows(w), [], 10), w.M(map[w.s := MtoS(w), w.x := MviaX(w, 16)], q, 16),
                 w.X(map[w.s := XtoS(w), w.m := XviaM(w, 15)], Park(p, w.m, ToM(w)), 16))
    ensures Delivery(w.x, 1, w.mx, Reply(Sought(w.x, 15, w.m), 16, 0)) in net.flight
    ensures Delivery(w.x, 1, w.mx, ToX(w)) in net.flight
  {
    Beginning(w);
    var r, before: Net;
    r, before, p, q := MReplies(w);
    var d := Delivery(w.m, 2, w.xm, Reply(Sought(w.m, 15, w.x), 16, 0));
    var l := LetsGo(w.Top(), before, d, 2, 3);
    Quiet(w, before, l, d);
    assert Park(q, w.x, ToX(w))[1..] == q;
    Replaced(w.s, MtoS(w), w.x, MviaX(w, 15), MviaX(w, 16));
    Stays(w.Top(), before, l, Delivery(w.x, 1, w.mx, Reply(Sought(w.x, 15, w.m), 16, 0)));
    run, net := r + [l], Next(w.Top(), before, l);
    Further(w, Kinds(w), r, before, l, w.S(SKnows(w), [], 10),
            w.M(map[w.s := MtoS(w), w.x := MviaX(w, 15)], Park(q, w.x, ToX(w)), 16),
            w.X(map[w.s := XtoS(w), w.m := XviaM(w, 15)], Park(p, w.m, ToM(w)), 16),
                w.M(map[w.s := MtoS(w), w.x := MviaX(w, 16)], q, 16));
  }

  /** `x` re-sends the second. */
  lemma XResends(w: World) returns (run: seq<Label>, net: Net, p: Queue, q: Queue)
    requires Ringed(w)
    ensures Told(w, Kinds(w), run, net, w.S(SKnows(w), [], 10), w.M(map[w.s := MtoS(w), w.x := MviaX(w, 16)], q, 16),
                 w.X(map[w.s := XtoS(w), w.m := XviaM(w, 16)], p, 16))
    ensures Delivery(w.x, 1, w.mx, ToX(w)) in net.flight
    ensures Delivery(w.m, 2, w.xm, ToM(w)) in net.flight
  {
    Beginning(w);
    var r, before: Net;
    r, before, p, q := MResends(w);
    var d := Delivery(w.x, 1, w.mx, Reply(Sought(w.x, 15, w.m), 16, 0));
    var l := LetsGo(w.Top(), before, d, 3, 2);
    Quiet(w, before, l, d);
    assert Park(p, w.m, ToM(w))[1..] == p;
    Replaced(w.s, XtoS(w), w.m, XviaM(w, 15), XviaM(w, 16));
    Stays(w.Top(), before, l, Delivery(w.x, 1, w.mx, ToX(w)));
    run, net := r + [l], Next(w.Top(), before, l);
    Further(w, Kinds(w), r, before, l, w.S(SKnows(w), [], 10), w.M(map[w.s := MtoS(w), w.x := MviaX(w, 16)], q, 16),
            w.X(map[w.s := XtoS(w), w.m := XviaM(w, 15)], Park(p, w.m, ToM(w)), 16),
                w.X(map[w.s := XtoS(w), w.m := XviaM(w, 16)], p, 16));
  }

  /** On a tie `x` turns to `m`. */
  lemma XTies(w: World) returns (run: seq<Label>, net: Net, p: Queue, q: Queue)
    requires Ringed(w)
    ensures Told(w, Kinds(w), run, net, w.S(SKnows(w), [], 10), w.M(map[w.s := MtoS(w), w.x := MviaX(w, 16)], q, 16),
                 w.X(map[w.s := XviaM(w, 11), w.m := XviaM(w, 16)], p, 16))
    ensures Delivery(w.m, 2, w.xm, ToM(w)) in net.flight
  {
    Beginning(w);
    var r, before: Net;
    r, before, p, q := XResends(w);
    var d := Delivery(w.x, 1, w.mx, ToX(w));
    var l := Consumes(w.Top(), before, d);
    Quiet(w, before, l, d);
    Replaced(w.s, XtoS(w), w.m, XviaM(w, 16), XviaM(w, 11));
    Stays(w.Top(), before, l, Delivery(w.m, 2, w.xm, ToM(w)));
    run, net := r + [l], Next(w.Top(), before, l);
    Further(w, Kinds(w), r, before, l, w.S(SKnows(w), [], 10), w.M(map[w.s := MtoS(w), w.x := MviaX(w, 16)], q, 16),
            w.X(map[w.s := XtoS(w), w.m := XviaM(w, 16)], p, 16),
                w.X(map[w.s := XviaM(w, 11), w.m := XviaM(w, 16)], p, 16));
  }

  /** On a tie `m` turns to `x`. */
  lemma MTies(w: World) returns (run: seq<Label>, net: Net, p: Queue, q: Queue)
    requires Ringed(w)
    ensures Told(w, Kinds(w), run, net, w.S(SKnows(w), [], 10),
            w.M(map[w.s := MviaX(w, 11), w.x := MviaX(w, 16)], q, 16),
                 w.X(map[w.s := XviaM(w, 11), w.m := XviaM(w, 16)], p, 16))
  {
    Beginning(w);
    var r, before: Net;
    r, before, p, q := XTies(w);
    var d := Delivery(w.m, 2, w.xm, ToM(w));
    var l := Consumes(w.Top(), before, d);
    Quiet(w, before, l, d);
    Replaced(w.s, MtoS(w), w.x, MviaX(w, 16), MviaX(w, 11));
    run, net := r + [l], Next(w.Top(), before, l);
    Further(w, Kinds(w), r, before, l, w.S(SKnows(w), [], 10), w.M(map[w.s := MtoS(w), w.x := MviaX(w, 16)], q, 16),
            w.X(map[w.s := XviaM(w, 11), w.m := XviaM(w, 16)], p, 16),
                w.M(map[w.s := MviaX(w, 11), w.x := MviaX(w, 16)], q, 16));
  }

  /** In any ring of three nodes, for every positive threshold, there is a run in which no entry for `s` is
      deleted and no node answers for another, and after which frames for `s` go to and fro between `m` and `x`. */
  lemma ResentFramesMakeALoop(w: World) returns (run: seq<Label>)
    requires Ringed(w)
    ensures Wired(w.Top()) && Initial(w.Start())
    ensures Avoids(w.Top(), w.Start(), run, DeletionOf(w.s)) && Avoids(w.Top(), w.Start(), run, Proxy)
    ensures Circular(w.Top(), After(w.Top(), w.Start(), run).nodes, w.m, w.s)
  {
    Beginning(w);
    var net, p, q;
    run, net, p, q := MTies(w);
    OwnerOf(w.Top(), w.Top()[3]);
    OwnerOf(w.Top(), w.Top()[2]);
    GoesRound(w.Top(), net.nodes, w.m, w.x, w.m, w.s);
  }
}

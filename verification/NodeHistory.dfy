/** One node over its whole life between deletions: its entry for a source is decided by the frames that
    came from that source, and a forced discovery is acted on once. */
module NodeHistory {
  import opened Basics
  import opened Frames
  import opened OdrModel
  import opened LoopFreedom

  datatype Event =
    | Wire(frame: Frame, ifno: int, mac: Mac, t: Clock)
    | Client(params: Params, now: int)

  function React(n: Node, e: Event): Outcome {
    match e
    case Wire(f, ifno, mac, t) => HandleEthernet(n, f, ifno, mac, t)
    case Client(p, now) => HandlePeer(n, p, now)
  }

  function Lived(n: Node, life: seq<Event>): Node {
    if life == [] then n else React(Lived(n, life[..|life| - 1]), life[|life| - 1]).node
  }

  /** Everything a node does in its main loop, which it leaves once it is no longer up. */
  datatype Service = Service(node: Node, sends: seq<Send>, peers: seq<PeerMsg>)

  function MainLoop(n: Node, life: seq<Event>): Service {
    if life == [] then Service(n, [], [])
    else
      var s := MainLoop(n, life[..|life| - 1]);
      if !s.node.up then s
      else
        var o := React(s.node, life[|life| - 1]);
        Service(o.node, s.sends + o.sends, s.peers + o.peers)
  }

  /** One event: what the handler does with it, as long as the process is up. */
  lemma LoopOnce(n: Node, e: Event)
    requires n.up
    ensures var o := React(n, e); MainLoop(n, [e]) == Service(o.node, o.sends, o.peers)
  {
    assert [e][..0] == [];
  }

  function Both(s: Service, r: Service): Service {
    Service(r.node, s.sends + r.sends, s.peers + r.peers)
  }

  lemma BothAssociates(s: Service, r: Service, o: Outcome)
    ensures var q := Service(o.node, r.sends + o.sends, r.peers + o.peers);
            Both(s, q) == Service(o.node, Both(s, r).sends + o.sends, Both(s, r).peers + o.peers)
  {
  }

  /** The main loop goes on from where it stands, and nothing sent or handed over before is lost. */
  lemma {:induction false} LoopGoesOn(n: Node, life: seq<Event>, more: seq<Event>)
    ensures MainLoop(n, life + more) == Both(MainLoop(n, life), MainLoop(MainLoop(n, life).node, more))
  {
    var s := MainLoop(n, life);
    if more == [] {
      assert life + more == life;
    } else {
      var all, before, e := life + more, more[..|more| - 1], more[|more| - 1];
      LoopGoesOn(n, life, before);
      assert all[..|all| - 1] == life + before && all[|all| - 1] == e;
      var r := MainLoop(s.node, before);
      BothAssociates(s, r, React(r.node, e));
    }
  }

  /** A node that is still up has reacted to everything. */
  lemma {:induction false} UpMeansLived(n: Node, life: seq<Event>)
    requires MainLoop(n, life).node.up
    ensures MainLoop(n, life).node == Lived(n, life)
  {
    if life != [] {
      UpMeansLived(n, life[..|life| - 1]);
    }
  }

  /** This event makes the node delete its entry for `s`. */
  predicate Unlinks(n: Node, e: Event, s: Ip) {
    match e
    case Wire(f, _, _, t) => Deletes(n, f, t, s)
    case Client(p, now) => p.dst == s != n.self && s in n.routes && (Expired(n.routes[s], now, n.stale) || p.flag == 1)
  }

  /** No event from position `i` on deletes the entry for `s`. */
  predicate KeptFrom(n: Node, life: seq<Event>, i: nat, s: Ip) {
    |life| <= i ||
    var before := life[..|life| - 1];
    KeptFrom(n, before, i, s) && !Unlinks(Lived(n, before), life[|life| - 1], s)
  }

  function Entry(n: Node, s: Ip): Option<Route> {
    if s in n.routes then Some(n.routes[s]) else None
  }

  // ---------- the table agrees with history ----------

  /** The frames from `s`, in order of arrival. */
  function From(life: seq<Event>, s: Ip): seq<Event> {
    if life == [] then []
    else
      var e := life[|life| - 1];
      From(life[..|life| - 1], s) + (if e.Wire? && e.frame.src == s then [e] else [])
  }

  predicate AsGood(f: Frame, g: Frame) {
    f.bid > g.bid || (f.bid == g.bid && f.hops <= g.hops)
  }

  /** Arrival `i` has the greatest id and among those the least hop count, and nothing after it ties. */
  ghost predicate Champion(arrivals: seq<Event>, i: nat) {
    && i < |arrivals|
    && (forall j :: 0 <= j < |arrivals| ==> arrivals[j].Wire?)
    && (forall j :: 0 <= j < |arrivals| ==> AsGood(arrivals[i].frame, arrivals[j].frame))
    && forall j :: i < j < |arrivals| ==> !AsGood(arrivals[j].frame, arrivals[i].frame)
  }

  ghost predicate Ordinary(life: seq<Event>, s: Ip) {
    forall e :: e in life && e.Wire? && e.frame.src == s ==> e.frame.flag != 1 && RREQ <= e.frame.ftype <= ASENT
  }

  function Recorded(e: Event): Route
    requires e.Wire?
  {
    Route(e.mac, e.ifno, e.frame.hops + 1, e.frame.bid, e.t.write)
  }

  function EntryAfter(r: Option<Route>, e: Event, s: Ip): Option<Route> {
    if e.Wire? && e.frame.src == s && !(r.Some? && !Better(e.frame, r.value)) then Some(Recorded(e)) else r
  }

  /** One event, as far as the entry for `s` is concerned. */
  lemma EventAndEntry(n: Node, e: Event, s: Ip)
    requires !Unlinks(n, e, s)
    requires e.Wire? && e.frame.src == s ==> e.frame.flag != 1 && RREQ <= e.frame.ftype <= ASENT
    ensures Entry(React(n, e).node, s) == EntryAfter(Entry(n, s), e, s)
  {
    if e.Wire? {
      WireAndEntry(n, e, s);
    }
  }

  lemma WireAndEntry(n: Node, e: Event, s: Ip)
    requires e.Wire? && !Unlinks(n, e, s)
    requires e.frame.src == s ==> e.frame.flag != 1 && RREQ <= e.frame.ftype <= ASENT
    ensures Entry(HandleEthernet(n, e.frame, e.ifno, e.mac, e.t).node, s) == EntryAfter(Entry(n, s), e, s)
  {
    var f := e.frame;
    if !Ignored(n, f) && RREQ <= f.ftype <= ASENT {
      var g := Ingest(n, f, e.ifno, e.mac, e.t);
      DispatchKeepsRoutes(n.(routes := g.routes), f, e.ifno, g.dest, g.updated);
    }
  }

  function Folded(life: seq<Event>, s: Ip): Option<Route> {
    if life == [] then None else EntryAfter(Folded(life[..|life| - 1], s), life[|life| - 1], s)
  }

  lemma {:induction false} EntryIsFolded(n: Node, life: seq<Event>, s: Ip)
    requires s !in n.routes && KeptFrom(n, life, 0, s) && Ordinary(life, s)
    ensures Entry(Lived(n, life), s) == Folded(life, s)
  {
    if life != [] {
      var before := life[..|life| - 1];
      EntryIsFolded(n, before, s);
      assert life[|life| - 1] in life;
      EventAndEntry(Lived(n, before), life[|life| - 1], s);
    }
  }

  lemma {:induction false} FoldedIsChampion(life: seq<Event>, s: Ip) returns (i: nat)
    ensures From(life, s) == [] ==> Folded(life, s) == None
    ensures From(life, s) != [] ==>
              Champion(From(life, s), i) && Folded(life, s) == Some(Recorded(From(life, s)[i]))
  {
    i := 0;
    if life != [] {
      var before := life[..|life| - 1];
      var e := life[|life| - 1];
      i := FoldedIsChampion(before, s);
      if e.Wire? && e.frame.src == s {
        var earlier := From(before, s);
        assert From(life, s) == earlier + [e];
        if earlier == [] || Better(e.frame, Folded(before, s).value) {
          i := |earlier|;
        }
      }
    }
  }

  /** The entry for `s` is the one made by the champion of all frames from `s`, whatever their types and
      whatever came between them. */
  lemma TableAgreesWithHistory(n: Node, life: seq<Event>, s: Ip) returns (i: nat)
    requires s !in n.routes && KeptFrom(n, life, 0, s) && Ordinary(life, s)
    ensures From(life, s) == [] ==> Entry(Lived(n, life), s) == None
    ensures From(life, s) != [] ==>
              Champion(From(life, s), i) && Entry(Lived(n, life), s) == Some(Recorded(From(life, s)[i]))
  {
    EntryIsFolded(n, life, s);
    i := FoldedIsChampion(life, s);
  }

  // ---------- forced discovery ----------

  predicate IdAtLeast(r: Option<Route>, b: int) {
    r.Some? && r.value.bid >= b
  }

  lemma EntryIdGrows(n: Node, e: Event, s: Ip, b: int)
    requires !Unlinks(n, e, s) && IdAtLeast(Entry(n, s), b)
    ensures IdAtLeast(Entry(React(n, e).node, s), b)
  {
    if e.Wire? {
      var f := e.frame;
      if !Ignored(n, f) && RREQ <= f.ftype <= ASENT {
        var g := Ingest(n, f, e.ifno, e.mac, e.t);
        DispatchKeepsRoutes(n.(routes := g.routes), f, e.ifno, g.dest, g.updated);
      }
    }
  }

  /** After a flagged frame from `s` with id `b` or later at position `i`, the entry keeps an id of at least
      `b` until it is deleted. The frame itself may have replaced an expired entry. */
  lemma {:induction false} IdStays(n: Node, life: seq<Event>, s: Ip, i: nat, b: int)
    requires i < |life| && Flagged(life[i], s) && b <= life[i].frame.bid && KeptFrom(n, life, i + 1, s)
    ensures IdAtLeast(Entry(Lived(n, life), s), b)
  {
    var before := life[..|life| - 1];
    var e := life[|life| - 1];
    if i == |life| - 1 {
      FlaggedRecorded(Lived(n, before), e, s);
    } else {
      IdStays(n, before, s, i, b);
      EntryIdGrows(Lived(n, before), e, s, b);
    }
  }

  predicate Flagged(e: Event, s: Ip) {
    e.Wire? && e.frame.flag == 1 && e.frame.src == s && RREQ <= e.frame.ftype <= ASENT
  }

  lemma FlaggedRecorded(n: Node, e: Event, s: Ip)
    requires Flagged(e, s)
    ensures IdAtLeast(Entry(React(n, e).node, s), e.frame.bid)
  {
  }

  /** Once a flagged frame from `s` has been seen, and until the entry for `s` is deleted again, every later
      one with the same id or an older one does nothing at all: no entry is deleted or written, nothing is sent. */
  lemma ForcedDiscoveryOnce(n: Node, life: seq<Event>, s: Ip, i: nat, e: Event)
    requires i < |life| && KeptFrom(n, life, i + 1, s)
    requires Flagged(life[i], s) && Flagged(e, s) && e.frame.bid <= life[i].frame.bid
    ensures var here := Lived(n, life);
            React(here, e) == Outcome(here, [], [], Returns(1))
  {
    IdStays(n, life, s, i, e.frame.bid);
  }
}

/** A network of ODR processes: interfaces plugged into shared segments, frames in flight,
    and the steps that lose, duplicate, reorder and deliver them. */
module Network {
  import opened Basics
  import opened Frames
  import opened OdrModel

  /** One physical interface: who owns it, its index there, its hardware address and its segment. */
  datatype Plug = Plug(node: Ip, index: int, mac: Mac, seg: int)

  type Topology = seq<Plug>

  datatype Delivery = Delivery(node: Ip, index: int, mac: Mac, frame: Frame)

  /** Any position of `flight` may be received next, so its order carries no meaning. */
  datatype Net = Net(nodes: map<Ip, Node>, flight: seq<Delivery>)

  datatype Label =
    | Receive(i: nat, t: Clock)
    | Lose(i: nat)
    | Duplicate(i: nat)
    | Peer(node: Ip, params: Params, now: int)

  /** Hardware addresses are unique, no interface is listed twice, and indices are positive. */
  ghost predicate Wired(top: Topology) {
    && (forall i, j :: 0 <= i < j < |top| ==>
          top[i].mac != top[j].mac && !(top[i].node == top[j].node && top[i].index == top[j].index))
    && forall p :: p in top ==> p.index > 0
  }

  predicate Hears(p: Plug, q: Plug, s: Send) {
    p != q && p.seg == q.seg && (s.to.Broadcast? || s.to.mac == q.mac)
  }

  function Copies(top: Topology, p: Plug, s: Send): seq<Delivery> {
    if top == [] then []
    else
      (if Hears(p, top[0], s) then [Delivery(top[0].node, top[0].index, p.mac, s.frame)] else [])
      + Copies(top[1..], p, s)
  }

  function PlugAt(top: Topology, node: Ip, index: int): Option<Plug> {
    if top == [] then None
    else if top[0].node == node && top[0].index == index then Some(top[0])
    else PlugAt(top[1..], node, index)
  }

  function Transmit(top: Topology, from: Ip, sends: seq<Send>): seq<Delivery> {
    if sends == [] then []
    else
      var p := PlugAt(top, from, sends[0].ifno);
      (if p.Some? then Copies(top, p.value, sends[0]) else []) + Transmit(top, from, sends[1..])
  }

  function Owner(top: Topology, mac: Mac): Option<Ip> {
    if top == [] then None
    else if top[0].mac == mac then Some(top[0].node)
    else Owner(top[1..], mac)
  }

  function Without<T>(s: seq<T>, i: nat): seq<T>
    requires i < |s|
  {
    s[..i] + s[i + 1..]
  }

  predicate Enabled(net: Net, l: Label) {
    if l.Peer? then l.node in net.nodes && net.nodes[l.node].up else l.i < |net.flight|
  }

  /** The node that runs a handler in this step and what the handler does. */
  function Acting(net: Net, l: Label): Option<(Ip, Outcome)>
    requires Enabled(net, l)
  {
    match l
    case Receive(i, t) =>
      var d := net.flight[i];
      if d.node in net.nodes && net.nodes[d.node].up
      then Some((d.node, HandleEthernet(net.nodes[d.node], d.frame, d.index, d.mac, t)))
      else None
    case Peer(node, params, now) => Some((node, HandlePeer(net.nodes[node], params, now)))
    case _ => None
  }

  function Remaining(net: Net, l: Label): seq<Delivery>
    requires Enabled(net, l)
  {
    match l
    case Receive(i, _) => Without(net.flight, i)
    case Lose(i) => Without(net.flight, i)
    case Duplicate(i) => net.flight + [net.flight[i]]
    case Peer(_, _, _) => net.flight
  }

  function Next(top: Topology, net: Net, l: Label): Net
    requires Enabled(net, l)
  {
    match Acting(net, l)
    case None => Net(net.nodes, Remaining(net, l))
    case Some((who, o)) => Net(net.nodes[who := o.node], Remaining(net, l) + Transmit(top, who, o.sends))
  }

  /** Every node is stored under its own address. */
  ghost predicate Named(net: Net) {
    forall x :: x in net.nodes ==> net.nodes[x].self == x
  }

  ghost predicate Initial(net: Net) {
    && net.flight == []
    && forall x :: x in net.nodes ==> net.nodes[x] == Boot(x, net.nodes[x].ifs, net.nodes[x].stale)
  }

  // ---------- facts about transmission ----------

  lemma PlugAtFinds(top: Topology, node: Ip, index: int)
    ensures var p := PlugAt(top, node, index);
            if p.Some? then p.value in top && p.value.node == node && p.value.index == index
            else forall q :: q in top ==> !(q.node == node && q.index == index)
  {
  }

  lemma {:induction false} OwnerOf(top: Topology, p: Plug)
    requires Wired(top) && p in top
    ensures Owner(top, p.mac) == Some(p.node)
  {
    if top[0].mac != p.mac {
      OwnerOf(top[1..], p);
    } else {
      var i :| 0 <= i < |top| && top[i] == p;
    }
  }

  /** A copy goes exactly to the plugs that hear the sender. */
  lemma {:induction false} CopiesExactly(top: Topology, p: Plug, s: Send, d: Delivery)
    ensures d in Copies(top, p, s) <==>
            exists q :: q in top && Hears(p, q, s) && d == Delivery(q.node, q.index, p.mac, s.frame)
  {
    if top != [] {
      CopiesExactly(top[1..], p, s, d);
      assert top == [top[0]] + top[1..];
    }
  }

  /** `d` is a copy of `s` sent by `from` through plug `p` and picked up at plug `q`. */
  ghost predicate Carries(top: Topology, from: Ip, s: Send, d: Delivery, p: Plug, q: Plug) {
    && p in top && p.node == from && p.index == s.ifno
    && q in top && Hears(p, q, s)
    && d == Delivery(q.node, q.index, p.mac, s.frame)
  }

  /** Every frame put in flight is a copy of one of the sends. */
  lemma {:induction false} TransmitSound(top: Topology, from: Ip, sends: seq<Send>, d: Delivery)
      returns (s: Send, p: Plug, q: Plug)
    requires d in Transmit(top, from, sends)
    ensures s in sends && Carries(top, from, s, d, p, q)
  {
    PlugAtFinds(top, from, sends[0].ifno);
    var pl := PlugAt(top, from, sends[0].ifno);
    if pl.Some? && d in Copies(top, pl.value, sends[0]) {
      CopiesExactly(top, pl.value, sends[0], d);
      s, p := sends[0], pl.value;
      q :| q in top && Hears(p, q, s) && d == Delivery(q.node, q.index, p.mac, s.frame);
    } else {
      s, p, q := TransmitSound(top, from, sends[1..], d);
    }
  }

  /** Every plug that hears a send gets its copy. */
  lemma {:induction false} TransmitComplete(top: Topology, from: Ip, sends: seq<Send>, s: Send, d: Delivery, p: Plug,
                                            q: Plug)
    requires Wired(top) && s in sends && Carries(top, from, s, d, p, q)
    ensures d in Transmit(top, from, sends)
  {
    PlugAtFinds(top, from, sends[0].ifno);
    if s == sends[0] {
      var i :| 0 <= i < |top| && top[i] == p;
      CopiesExactly(top, p, s, d);
    } else {
      TransmitComplete(top, from, sends[1..], s, d, p, q);
    }
  }

  /** A flood is one broadcast per interface that is neither `lo`, `eth0` nor the receiving one. */
  lemma {:induction false} FloodExactly(ifs: seq<Interface>, except: int, f: Frame, s: Send)
    ensures s in Flood(ifs, except, f) <==>
            exists i :: i in ifs && Floods(i, except) && s == Send(i.index, Broadcast, f)
  {
    if ifs != [] {
      FloodExactly(ifs[1..], except, f, s);
      assert ifs == [ifs[0]] + ifs[1..];
    }
  }

  /** A name, or that name with a colon and an alias behind it. */
  predicate AliasOf(name: string, base: string) {
    base <= name && (|name| == |base| || name[|base|] == ':')
  }

  lemma {:induction false} BaseNameIs(name: string, base: string)
    requires ':' !in base
    ensures BaseName(name) == base <==> AliasOf(name, base)
  {
    if name != "" && base != "" && name[0] == base[0] {
      assert base == [base[0]] + base[1..] && name == [name[0]] + name[1..];
      BaseNameIs(name[1..], base[1..]);
    }
  }

  /** An interface other than `lo`, `eth0` and the receiving one; aliases count as what they are aliases of. */
  predicate Spreads(i: Interface, except: int) {
    !AliasOf(i.name, "lo") && !AliasOf(i.name, "eth0") && i.index != except
  }

  /** The same by name. */
  lemma FloodByName(ifs: seq<Interface>, except: int, f: Frame, s: Send)
    ensures s in Flood(ifs, except, f) <==>
            exists i :: i in ifs && Spreads(i, except) && s == Send(i.index, Broadcast, f)
  {
    FloodExactly(ifs, except, f, s);
    forall i | i in ifs
      ensures Floods(i, except) <==> Spreads(i, except)
    {
      BaseNameIs(i.name, "lo");
      BaseNameIs(i.name, "eth0");
    }
  }

  lemma StillThere(net: Net, l: Label, d: Delivery)
    requires Enabled(net, l) && d in Remaining(net, l)
    ensures d in net.flight
  {
  }

  lemma ReceiveKeepsStatic(n: Node, f: Frame, ifno: int, mac: Mac, t: Clock)
    ensures var n' := HandleEthernet(n, f, ifno, mac, t).node; n'.self == n.self && n'.ifs == n.ifs
  {
  }

  lemma PeerKeepsStatic(n: Node, p: Params, now: int)
    ensures var n' := HandlePeer(n, p, now).node; n'.self == n.self && n'.ifs == n.ifs
  {
  }

  lemma KeepsNames(top: Topology, net: Net, l: Label)
    requires Enabled(net, l) && Named(net)
    ensures Named(Next(top, net, l)) && Next(top, net, l).nodes.Keys == net.nodes.Keys
    ensures forall x :: x in net.nodes ==> Next(top, net, l).nodes[x].ifs == net.nodes[x].ifs
  {
    var a := Acting(net, l);
    if a.Some? {
      var n := net.nodes[a.value.0];
      if l.Receive? {
        var d := net.flight[l.i];
        ReceiveKeepsStatic(n, d.frame, d.index, d.mac, l.t);
      } else {
        PeerKeepsStatic(n, l.params, l.now);
      }
    }
  }

  // ---------- runs ----------

  /** The network after a sequence of steps; a label that is not enabled changes nothing. */
  function After(top: Topology, net: Net, run: seq<Label>): Net
    decreases |run|
  {
    if run == [] then net
    else After(top, if Enabled(net, run[0]) then Next(top, net, run[0]) else net, run[1..])
  }

  lemma {:induction false} AfterConcat(top: Topology, net: Net, r: seq<Label>, q: seq<Label>)
    ensures After(top, net, r + q) == After(top, After(top, net, r), q)
    decreases |r|
  {
    if r == [] {
      assert r + q == q;
    } else {
      assert (r + q)[1..] == r[1..] + q;
      AfterConcat(top, if Enabled(net, r[0]) then Next(top, net, r[0]) else net, r[1..], q);
    }
  }

  /** The run with one more label at its end. */
  lemma AfterLast(top: Topology, net: Net, run: seq<Label>)
    requires run != []
    ensures var here, l := After(top, net, run[..|run| - 1]), run[|run| - 1];
            After(top, net, run) == if Enabled(here, l) then Next(top, here, l) else here
  {
    var before, l := run[..|run| - 1], run[|run| - 1];
    assert run == before + [l];
    AfterConcat(top, net, before, [l]);
    assert [l][1..] == [];
  }
}

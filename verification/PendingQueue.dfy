/** The queue of parked frames as the linked list of `odr_functions.c`. Taking the head out leaves the new
    head's `prev` pointing at the node that is gone, so the invariant says nothing about the head's `prev`;
    the queue still refines a sequence with push-front and remove-first-match. */
module PendingQueueList {
  import opened Basics
  import opened Frames
  import opened OdrModel

  /** `pending_msgs_t` */
  class PendingMsg {
    var destip: Ip
    var odrframe: Frame
    var next: PendingMsg?
    var prev: PendingMsg?

    constructor (ip: Ip, f: Frame)
      ensures destip == ip && odrframe == f && next == null && prev == null
    {
      destip, odrframe, next, prev := ip, f, null, null;
    }

    ghost function Value(): Parked
      reads this
    {
      Parked(destip, odrframe)
    }
  }

  /** The node at a position, or null outside the list. */
  ghost function At(spine: seq<PendingMsg>, i: int): PendingMsg? {
    if 0 <= i < |spine| then spine[i] else null
  }

  class PendingQueue {
    var head: PendingMsg?
    ghost var spine: seq<PendingMsg>
    ghost var nodes: set<PendingMsg>  // every node ever inserted; none is freed
    ghost var contents: seq<Parked>

    /** Forward links are complete, backward links hold from the second node on. */
    ghost predicate Linked()
      reads this, nodes
    {
      && (forall i :: 0 <= i < |spine| ==> spine[i] in nodes)
      && (forall i, j :: 0 <= i < j < |spine| ==> spine[i] != spine[j])
      && head == At(spine, 0)
      && (forall i, j {:trigger spine[i], spine[j]} :: 0 <= i && j == i + 1 < |spine| ==>
            spine[i].next == spine[j] && spine[j].prev == spine[i])
      && (spine != [] ==> spine[|spine| - 1].next == null)
    }

    ghost predicate Holds()
      requires Linked()
      reads this, nodes
    {
      |contents| == |spine| && forall i :: 0 <= i < |spine| ==> contents[i] == spine[i].Value()
    }

    /** From node `i` on the list is well linked and holds `contents`. */
    ghost predicate From(i: nat)
      requires |contents| == |spine|
      reads this, nodes
      decreases |spine| - i
    {
      i >= |spine| ||
      (&& spine[i] in nodes && spine[i] !in spine[i + 1..] && contents[i] == spine[i].Value()
       && spine[i].next == At(spine, i + 1)
       && (i > 0 ==> spine[i].prev == spine[i - 1])
       && From(i + 1))
    }

    ghost predicate Valid()
      reads this, nodes
    {
      head == At(spine, 0) && |contents| == |spine| && From(0)
    }

    /** The same said of all positions at once. */
    lemma {:induction false} OpenFrom(i: nat)
      requires |contents| == |spine| && From(i)
      ensures forall k :: i <= k < |spine| ==> spine[k] in nodes && contents[k] == spine[k].Value()
      ensures forall k, m :: i <= k < m < |spine| ==> spine[k] != spine[m]
      ensures forall k, m {:trigger spine[k], spine[m]} :: i <= k && m == k + 1 < |spine| ==>
                spine[k].next == spine[m] && spine[m].prev == spine[k]
      ensures i < |spine| ==> spine[|spine| - 1].next == null
      decreases |spine| - i
    {
      if i < |spine| {
        OpenFrom(i + 1);
        assert forall m :: i < m < |spine| ==> spine[m] in spine[i + 1..];
      }
    }

    lemma Open()
      requires Valid()
      ensures Linked() && Holds()
    {
      OpenFrom(0);
    }

    lemma {:induction false} CloseFrom(i: nat)
      requires Linked() && Holds()
      ensures From(i)
      decreases |spine| - i
    {
      if i < |spine| {
        CloseFrom(i + 1);
        assert i + 1 < |spine| ==> spine[i].next == spine[i + 1];
        assert i > 0 ==> spine[i].prev == spine[i - 1];
      }
    }

    lemma Close()
      requires Linked() && Holds()
      ensures Valid()
    {
      CloseFrom(0);
    }

    constructor ()
      ensures Valid() && contents == [] && nodes == {}
    {
      head := null;
      spine, contents, nodes := [], [], {};
    }

    /** `insert_pending_queue` */
    method InsertPendingQueue(f: Frame, ip: Ip) returns (code: int)
      requires Valid()
      modifies this, nodes
      ensures Valid() && code == 0
      ensures contents == Park(old(contents), ip, f)
      ensures fresh(nodes - old(nodes))
    {
      Open();
      var entry := new PendingMsg(ip, f);
      ghost var was := spine;
      if head == null {
        head := entry;
      } else {
        entry.next := head;
        head.prev := entry;
        head := entry;
      }
      spine, nodes := [entry] + was, nodes + {entry};
      contents := [Parked(ip, f)] + contents;
      assert forall i :: 0 < i < |spine| ==> spine[i] == was[i - 1];
      Close();
      return 0;
    }

    /** `lookup_pending_queue`. The last clause is the dangling back link. */
    method LookupPendingQueue(ip: Ip) returns (f: Option<Frame>)
      requires Valid()
      modifies this, nodes
      ensures Valid()
      ensures contents == Unpark(old(contents), ip).0 && f == Unpark(old(contents), ip).1
      ensures nodes == old(nodes)
      ensures |old(spine)| > 1 && old(contents)[0].key == ip ==>
                spine != [] && spine[0].prev == old(head) && old(head) !in spine
    {
      Open();
      if head == null {
        return None;
      }
      var curr := head;
      ghost var k := 0;
      while curr != null
        invariant 0 <= k <= |spine|
        invariant curr == At(spine, k)
        invariant forall i :: 0 <= i < k ==> contents[i].key != ip
        invariant spine == old(spine) && contents == old(contents)
        decreases |spine| - k
      {
        assert contents[k] == curr.Value();
        if curr.destip == ip {
          f := Some(curr.odrframe);
          Take(curr, k);
          return;
        }
        assert k + 1 < |spine| ==> curr.next == spine[k + 1];
        curr := curr.next;
        k := k + 1;
      }
      return None;
    }

    method Take(curr: PendingMsg, ghost k: nat)
      requires Linked() && Holds() && k < |spine| && spine[k] == curr
      modifies this, nodes
      ensures Valid() && nodes == old(nodes) && contents == old(contents)[..k] + old(contents)[k + 1..]
      ensures |old(spine)| > 1 && k == 0 ==> spine != [] && spine[0].prev == old(head) && old(head) !in spine
    {
      if curr == head {
        assert spine[0] !in spine[1..];
        TakeHead();
      } else {
        TakeMiddle(curr, k);
      }
      Close();
    }

    method TakeHead()
      requires Linked() && Holds() && spine != []
      modifies this, nodes
      ensures Linked() && Holds() && nodes == old(nodes) && spine == old(spine)[1..] && contents == old(contents)[1..]
      ensures spine != [] ==> spine[0].prev == old(head)
    {
      var curr := head;
      assert |spine| > 1 ==> curr.next == spine[1] && spine[1].prev == curr;
      head := head.next;
      curr.next := null;
      spine, contents := spine[1..], contents[1..];
    }

    method TakeMiddle(curr: PendingMsg, ghost k: nat)
      requires Linked() && Holds() && 0 < k < |spine| && spine[k] == curr
      modifies this, nodes
      ensures Linked() && Holds() && nodes == old(nodes) && spine == old(spine)[..k] + old(spine)[k + 1..]
      ensures contents == old(contents)[..k] + old(contents)[k + 1..]
    {
      ghost var was, had := spine, contents;
      RelinkAround(curr, k);
      contents := had[..k] + had[k + 1..];
      forall i | 0 <= i < |spine|
        ensures contents[i] == spine[i].Value()
      {
        assert spine[i] == was[if i < k then i else i + 1];
      }
    }

    method RelinkAround(curr: PendingMsg, ghost k: nat)
      requires Linked() && 0 < k < |spine| && spine[k] == curr
      modifies this`spine, nodes
      ensures Linked() && spine == old(spine)[..k] + old(spine)[k + 1..]
      ensures forall e :: e in old(nodes) ==> e.Value() == old(e.Value())
    {
      ghost var was := spine;
      assert was[k - 1].next == curr && curr.prev == was[k - 1];
      assert k + 1 < |was| ==> curr.next == was[k + 1] && was[k + 1].prev == curr;
      if curr.prev != null {
        curr.prev.next := curr.next;
      }
      if curr.next != null {
        curr.next.prev := curr.prev;
      }
      spine := was[..k] + was[k + 1..];
      assert forall i :: 0 <= i < |spine| ==> spine[i] == was[if i < k then i else i + 1];
    }
  }

  // ---------- what the sequence promises ----------

  datatype Op = Insert(ip: Ip, f: Frame) | Take(ip: Ip)

  /** The queue and all frames handed out after a sequence of operations. */
  function Play(pending: seq<Parked>, ops: seq<Op>): (seq<Parked>, seq<Parked>) {
    if ops == [] then (pending, [])
    else
      var (q, out) := Play(pending, ops[..|ops| - 1]);
      match ops[|ops| - 1]
      case Insert(ip, f) => (Park(q, ip, f), out)
      case Take(ip) =>
        var (rest, f) := Unpark(q, ip);
        (rest, if f.Some? then out + [Parked(ip, f.value)] else out)
  }

  function Inserted(ops: seq<Op>): multiset<Parked> {
    if ops == [] then multiset{}
    else
      Inserted(ops[..|ops| - 1]) +
      match ops[|ops| - 1]
      case Insert(ip, f) => multiset{Parked(ip, f)}
      case Take(_) => multiset{}
  }

  lemma UnparkConserves(q: seq<Parked>, ip: Ip)
    ensures var (rest, f) := Unpark(q, ip);
            multiset(q) == multiset(rest) + (if f.Some? then multiset{Parked(ip, f.value)} else multiset{})
  {
    var i := FirstParked(q, ip);
    if i < |q| {
      assert q == q[..i] + [q[i]] + q[i + 1..];
      assert q[i] == Parked(ip, q[i].frame);
    }
  }

  /** Every frame ever parked is either still parked or was handed out, exactly once. */
  lemma {:induction false} NothingLostOrDoubled(ops: seq<Op>)
    ensures multiset(Play([], ops).0) + multiset(Play([], ops).1) == Inserted(ops)
  {
    if ops != [] {
      var before, op := ops[..|ops| - 1], ops[|ops| - 1];
      NothingLostOrDoubled(before);
      if op.Take? {
        UnparkConserves(Play([], before).0, op.ip);
      }
    }
  }

  /** A frame just parked is the first one handed out for its address. */
  lemma LastInFirstOut(q: seq<Parked>, ip: Ip, f: Frame)
    ensures Unpark(Park(q, ip, f), ip) == (q, Some(f))
  {
    assert Park(q, ip, f)[..0] + Park(q, ip, f)[1..] == q;
  }
}

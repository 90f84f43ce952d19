/** The routing table as the doubly linked list of `odr_functions.c`, refining a finite map. */
module RoutingTableList {
  import opened Frames
  import opened OdrModel

  // ---------- association lists and the maps they stand for ----------

  datatype Keyed = Keyed(ip: Ip, route: Route)

  ghost predicate Unique(es: seq<Keyed>) {
    forall i, j :: 0 <= i < j < |es| ==> es[i].ip != es[j].ip
  }

  function View(es: seq<Keyed>): map<Ip, Route> {
    if es == [] then map[] else View(es[1..])[es[0].ip := es[0].route]
  }

  /** The first entry for an address is what the map holds for it. */
  lemma {:induction false} ViewHolds(es: seq<Keyed>, ip: Ip, k: nat)
    requires k <= |es| && (forall i :: 0 <= i < k ==> es[i].ip != ip) && (k < |es| ==> es[k].ip == ip)
    ensures ip in View(es) <==> k < |es|
    ensures k < |es| ==> View(es)[ip] == es[k].route
  {
    if es != [] && k > 0 {
      ViewHolds(es[1..], ip, k - 1);
    }
  }

  lemma RemoveThenSet(m: map<Ip, Route>, gone: Ip, ip: Ip, r: Route)
    requires gone != ip
    ensures (m - {gone})[ip := r] == m[ip := r] - {gone}
  {
  }

  lemma {:induction false} ViewDelete(es: seq<Keyed>, k: nat)
    requires Unique(es) && k < |es|
    ensures View(es[..k] + es[k + 1..]) == View(es) - {es[k].ip}
  {
    var rest := es[..k] + es[k + 1..];
    if k == 0 {
      assert rest == es[1..];
      ViewHolds(rest, es[0].ip, |rest|);
    } else {
      var tail := es[1..];
      ViewDelete(tail, k - 1);
      assert rest[1..] == tail[..k - 1] + tail[k..] && rest[0] == es[0];
      assert tail[k - 1] == es[k] && es[0].ip != es[k].ip;
      RemoveThenSet(View(tail), es[k].ip, es[0].ip, es[0].route);
    }
  }

  lemma {:induction false} ViewUpdate(es: seq<Keyed>, k: nat, r: Route)
    requires Unique(es) && k < |es|
    ensures Unique(es[k := Keyed(es[k].ip, r)]) && View(es[k := Keyed(es[k].ip, r)]) == View(es)[es[k].ip := r]
  {
    var es' := es[k := Keyed(es[k].ip, r)];
    if k == 0 {
      assert es'[1..] == es[1..];
    } else {
      ViewUpdate(es[1..], k - 1, r);
      assert es'[1..] == es[1..][k - 1 := Keyed(es[k].ip, r)];
    }
  }

  lemma {:induction false} AllDiffer(es: seq<Keyed>, ip: Ip)
    requires ip !in View(es)
    ensures forall i :: 0 <= i < |es| ==> es[i].ip != ip
  {
    if es != [] {
      AllDiffer(es[1..], ip);
      assert forall i :: 1 <= i < |es| ==> es[i] == es[1..][i - 1];
    }
  }

  /** A new address in front adds one binding and keeps addresses unique. */
  lemma ViewInsert(es: seq<Keyed>, e: Keyed)
    requires Unique(es) && e.ip !in View(es)
    ensures Unique([e] + es) && View([e] + es) == View(es)[e.ip := e.route]
  {
    AllDiffer(es, e.ip);
    assert ([e] + es)[1..] == es;
  }

  // ---------- the list ----------

  /** `r_entry_t` */
  class REntry {
    var destip: Ip
    var nextHop: Mac
    var ifNo: int
    var noHops: int
    var broadcastId: int
    var timestamp: int
    var next: REntry?
    var prev: REntry?

    constructor ()
      ensures next == null && prev == null
    {
      destip, nextHop := "", "";
      ifNo, noHops, broadcastId, timestamp := 0, 0, 0, 0;
      next, prev := null, null;
    }

    ghost function Value(): Keyed
      reads this
    {
      Keyed(destip, Route(nextHop, ifNo, noHops, broadcastId, timestamp))
    }
  }

  /** The node at a position, or null outside the list. */
  ghost function At(spine: seq<REntry>, i: int): REntry? {
    if 0 <= i < |spine| then spine[i] else null
  }

  class RoutingTable {
    var head: REntry?
    ghost var spine: seq<REntry>
    ghost var nodes: set<REntry>  // every entry ever inserted; none is freed
    ghost var entries: seq<Keyed>

    /** The list runs through `spine` in both directions. */
    ghost predicate Linked()
      reads this, nodes
    {
      && (forall i :: 0 <= i < |spine| ==> spine[i] in nodes)
      && (forall i, j :: 0 <= i < j < |spine| ==> spine[i] != spine[j])
      && head == At(spine, 0)
      && (forall i, j {:trigger spine[i], spine[j]} :: 0 <= i && j == i + 1 < |spine| ==>
            spine[i].next == spine[j] && spine[j].prev == spine[i])
      && (spine != [] ==> spine[0].prev == null && spine[|spine| - 1].next == null)
    }

    ghost predicate Holds()
      requires Linked()
      reads this, nodes
    {
      |entries| == |spine| && forall i :: 0 <= i < |spine| ==> entries[i] == spine[i].Value()
    }

    /** From node `i` on the list is well linked and holds `entries`. */
    ghost predicate From(i: nat)
      requires |entries| == |spine|
      reads this, nodes
      decreases |spine| - i
    {
      i >= |spine| ||
      (&& spine[i] in nodes && spine[i] !in spine[i + 1..] && entries[i] == spine[i].Value()
       && spine[i].next == At(spine, i + 1)
       && spine[i].prev == At(spine, i - 1)
       && From(i + 1))
    }

    ghost predicate Listed()
      reads this, nodes
    {
      head == At(spine, 0) && |entries| == |spine| && From(0)
    }

    /** Well linked, with at most one entry per destination. */
    ghost predicate Valid()
      reads this, nodes
    {
      Listed() && Unique(entries)
    }

    /** The same said of all positions at once. */
    lemma {:induction false} OpenFrom(i: nat)
      requires |entries| == |spine| && From(i)
      ensures forall k :: i <= k < |spine| ==> spine[k] in nodes && entries[k] == spine[k].Value()
      ensures forall k, m :: i <= k < m < |spine| ==> spine[k] != spine[m]
      ensures forall k, m {:trigger spine[k], spine[m]} :: i <= k && m == k + 1 < |spine| ==>
                spine[k].next == spine[m] && spine[m].prev == spine[k]
      ensures i < |spine| ==> spine[i].prev == At(spine, i - 1) && spine[|spine| - 1].next == null
      decreases |spine| - i
    {
      if i < |spine| {
        OpenFrom(i + 1);
        assert forall m :: i < m < |spine| ==> spine[m] in spine[i + 1..];
      }
    }

    lemma Open()
      requires Listed()
      ensures Linked() && Holds()
    {
      OpenFrom(0);
    }

    lemma {:induction false} CloseFrom(i: nat)
      requires Linked() && Holds()
      ensures From(i)
      decreases |spine| - i
    {
      if i < |spine| {
        CloseFrom(i + 1);
        assert i + 1 < |spine| ==> spine[i].next == spine[i + 1];
        assert i > 0 ==> spine[i].prev == spine[i - 1];
      }
    }

    lemma Close()
      requires Linked() && Holds()
      ensures Listed()
    {
      CloseFrom(0);
    }

    /** The map this list stands for. */
    ghost function Routes(): map<Ip, Route>
      reads this
    {
      View(entries)
    }

    constructor ()
      ensures Valid() && Routes() == map[] && nodes == {}
    {
      head := null;
      spine := [];
      nodes := {};
      entries := [];
    }

    lemma OnePerAddress(a: REntry, b: REntry)
      requires Valid() && a in spine && b in spine && a.destip == b.destip
      ensures a == b
    {
      Open();
      var i :| 0 <= i < |spine| && spine[i] == a;
      var j :| 0 <= j < |spine| && spine[j] == b;
      assert entries[i].ip == a.destip && entries[j].ip == b.destip;
    }

    /** `get_r_entry`; on an empty table it returns 0, on a miss or a deletion -1, else 1 and the entry. */
    method GetREntry(ip: Ip, flag: int, now: int, stale: int) returns (code: int, entry: REntry?)
      requires Valid()
      modifies this, nodes
      ensures Valid()
      ensures Routes() == Lookup(old(Routes()), ip, flag, now, stale).0
      ensures nodes == old(nodes)
      ensures forall e :: e in old(nodes) ==> e.Value() == old(e.Value())
      ensures code == 1 <==> Lookup(old(Routes()), ip, flag, now, stale).1.Some?
      ensures code == 1 <==> ip in old(Routes()) && now - old(Routes())[ip].time < stale && flag != 1
      ensures code == 1 ==> entry != null && entry in nodes && entry in spine && spine == old(spine)
      ensures code == 1 ==> entry.Value() == Keyed(ip, Routes()[ip])
      ensures code != 1 ==> code == (if old(Routes()) == map[] then 0 else -1)
    {
      Open();
      entry := null;
      if head == null {
        return 0, null;
      }
      ViewHolds(entries, entries[0].ip, 0);
      var curr := head;
      ghost var k := 0;
      while curr != null
        invariant 0 <= k <= |spine|
        invariant curr == At(spine, k)
        invariant forall i :: 0 <= i < k ==> entries[i].ip != ip
        invariant spine == old(spine) && entries == old(entries)
        decreases |spine| - k
      {
        if curr.destip == ip {
          ViewHolds(entries, ip, k);
          if now - curr.timestamp >= stale || flag == 1 {
            Delete(curr, k);
            return -1, null;
          } else {
            return 1, curr;
          }
        }
        curr := curr.next;
        k := k + 1;
      }
      ViewHolds(entries, ip, k);
      code := -1;
    }

    /** The deletion inside `get_r_entry`, seen as a deletion from the map. */
    method Delete(curr: REntry, ghost k: nat)
      requires Valid() && k < |spine| && spine[k] == curr
      modifies this, nodes
      ensures Valid() && Routes() == old(Routes()) - {curr.destip}
      ensures nodes == old(nodes)
      ensures forall e :: e in old(nodes) ==> e.Value() == old(e.Value())
    {
      ViewDelete(entries, k);
      DeleteAt(curr, k);
    }

    /** The same seen as a deletion from the list of entries. */
    method DeleteAt(curr: REntry, ghost k: nat)
      requires Listed() && k < |spine| && spine[k] == curr
      modifies this, nodes
      ensures Listed() && entries == old(entries)[..k] + old(entries)[k + 1..]
      ensures nodes == old(nodes) && curr in nodes && curr.Value() == old(entries)[k]
      ensures forall e :: e in old(nodes) ==> e.Value() == old(e.Value())
    {
      Open();
      ghost var was := spine;
      Unlink(curr, k);
      entries := entries[..k] + entries[k + 1..];
      forall i | 0 <= i < |spine|
        ensures entries[i] == spine[i].Value()
      {
        assert spine[i] == was[if i < k then i else i + 1];
      }
      Close();
    }

    /** The same on the links: `curr` keeps its own. */
    method Unlink(curr: REntry, ghost k: nat)
      requires Linked() && k < |spine| && spine[k] == curr
      modifies this`head, this`spine, nodes
      ensures Linked() && spine == old(spine)[..k] + old(spine)[k + 1..]
      ensures forall e :: e in old(nodes) ==> e.Value() == old(e.Value())
    {
      ghost var was := spine;
      assert k > 0 ==> was[k - 1].next == curr && curr.prev == was[k - 1];
      assert k + 1 < |was| ==> curr.next == was[k + 1] && was[k + 1].prev == curr;
      if head == curr {
        head := curr.next;
      }
      if curr.prev != null {
        curr.prev.next := curr.next;
      }
      if curr.next != null {
        curr.next.prev := curr.prev;
      }
      spine := was[..k] + was[k + 1..];
      assert forall i :: 0 <= i < |spine| ==> spine[i] == was[if i < k then i else i + 1];
    }

    /** `update_r_entry` */
    method UpdateREntry(f: Frame, entry: REntry, intf: int, nextHop: Mac, now: int)
      modifies entry`destip, entry`nextHop, entry`timestamp, entry`ifNo, entry`noHops, entry`broadcastId
      ensures entry.Value() == Keyed(f.src, RouteOf(f, intf, nextHop, now))
    {
      entry.destip := f.src;
      entry.nextHop := nextHop;
      entry.timestamp := now;
      entry.ifNo := intf;
      entry.noHops := f.hops + 1;
      entry.broadcastId := f.bid;
    }

    /** Writing data fields leaves the list well linked. */
    twostate lemma LinksKept()
      requires old(Linked()) && head == old(head) && spine == old(spine) && nodes == old(nodes)
      requires forall e :: e in nodes ==> e.next == old(e.next) && e.prev == old(e.prev)
      ensures Linked()
    {
    }

    /** `check_r_entry` */
    method CheckREntry(f: Frame, entry: REntry, intf: int, nextHop: Mac, now: int) returns (updated: int)
      requires Valid() && entry in spine && entry.destip == f.src
      modifies this`entries, entry
      ensures Valid() && nodes == old(nodes)
      ensures Routes() == Learn(old(Routes()), f, intf, nextHop, now).0
      ensures updated == if Learn(old(Routes()), f, intf, nextHop, now).1 then 1 else 0
      ensures f.src in Routes() && entry.Value() == Keyed(f.src, Routes()[f.src])
    {
      Open();
      ghost var k :| 0 <= k < |spine| && spine[k] == entry;
      assert entries[k] == entry.Value();
      ViewHolds(entries, f.src, k);
      updated := 0;
      if f.bid > entry.broadcastId || (f.bid == entry.broadcastId && f.hops + 1 <= entry.noHops) {
        ViewUpdate(entries, k, RouteOf(f, intf, nextHop, now));
        Rewrite(f, entry, k, intf, nextHop, now);
        Close();
        updated := 1;
      }
    }

    method Rewrite(f: Frame, entry: REntry, ghost k: nat, intf: int, nextHop: Mac, now: int)
      requires Linked() && Holds() && k < |spine| && spine[k] == entry
      modifies this`entries, entry
      ensures Linked() && Holds() && entries == old(entries)[k := Keyed(f.src, RouteOf(f, intf, nextHop, now))]
      ensures entry.Value() == entries[k]
    {
      UpdateREntry(f, entry, intf, nextHop, now);
      entries := entries[k := Keyed(f.src, RouteOf(f, intf, nextHop, now))];
      LinksKept();
    }

    /** `insert_r_entry`: the new entry becomes the head, whatever the table holds. */
    method InsertREntry(f: Frame, intf: int, nextHop: Mac, now: int) returns (entry: REntry)
      requires Listed()
      modifies this, nodes
      ensures Listed() && fresh(entry) && nodes == old(nodes) + {entry}
      ensures entries == [Keyed(f.src, RouteOf(f, intf, nextHop, now))] + old(entries)
      ensures entry.Value() == entries[0]
      ensures forall e :: e in old(nodes) ==> e.Value() == old(e.Value())
    {
      entry := new REntry();
      UpdateREntry(f, entry, intf, nextHop, now);
      Attach(entry);
    }

    method Attach(entry: REntry)
      requires Listed() && entry !in nodes && entry.next == null && entry.prev == null
      modifies this, nodes, entry
      ensures Listed() && nodes == old(nodes) + {entry} && entries == [entry.Value()] + old(entries)
      ensures forall e :: e in nodes ==> e.Value() == old(e.Value())
    {
      Open();
      ghost var was, had := spine, entries;
      PushFront(entry);
      entries := [entry.Value()] + had;
      forall i | 0 <= i < |spine|
        ensures entries[i] == spine[i].Value()
      {
        assert i > 0 ==> spine[i] == was[i - 1];
      }
      Close();
    }

    method PushFront(entry: REntry)
      requires Linked() && entry !in nodes && entry.next == null && entry.prev == null
      modifies this`head, this`spine, this`nodes, nodes, entry
      ensures Linked() && spine == [entry] + old(spine) && nodes == old(nodes) + {entry}
      ensures forall e :: e in nodes ==> e.Value() == old(e.Value())
    {
      ghost var was := spine;
      assert head == At(was, 0);
      if head == null {
        head := entry;
      } else {
        head.prev := entry;
        entry.next := head;
        head := entry;
      }
      spine, nodes := [entry] + was, nodes + {entry};
      assert forall i :: 0 < i < |spine| ==> spine[i] == was[i - 1];
    }

    /** `is_broadid_greater` */
    method IsBroadidGreater(srcip: Ip, bid: int) returns (code: int)
      requires Valid()
      ensures code == if FreshId(Routes(), srcip, bid) then 1 else -1
    {
      Open();
      if head == null {
        return 1;
      }
      var curr := head;
      ghost var k := 0;
      ghost var seen: nat := |entries|;
      while curr != null
        invariant 0 <= k <= |spine|
        invariant curr == At(spine, k)
        invariant |entries| == |spine|
        invariant forall i :: 0 <= i < k ==> entries[i].ip != srcip || i == seen
        invariant seen < k ==> seen < |entries| && entries[seen].ip == srcip && entries[seen].route.bid < bid
        invariant seen < k || seen == |entries|
        decreases |spine| - k
      {
        assert entries[k] == curr.Value();
        if curr.destip == srcip {
          if curr.broadcastId >= bid {
            ViewHolds(entries, srcip, k);
            return -1;
          }
          seen := k;
        }
        curr := curr.next;
        k := k + 1;
      }
      ViewHolds(entries, srcip, seen);
      return 1;
    }
  }
}

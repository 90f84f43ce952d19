/** The port-to-path table: a singly linked list that only grows at its head, and a port counter that
    starts below the server's port and never skips it. */
module PortTableList {
  import opened Basics
  import opened OdrModel

  /** `map_port_sp_t`; an entry is filled in when it is made and not changed afterwards. */
  class MapPortSp {
    const portno: int
    const sunPath: string
    const next: MapPortSp?

    constructor (port: int, path: string, tail: MapPortSp?)
      ensures portno == port && sunPath == path && next == tail
    {
      portno, sunPath, next := port, path, tail;
    }
  }

  /** The list starting at `node` holds `es`. */
  ghost predicate Runs(node: MapPortSp?, es: seq<PortEntry>) {
    if es == [] then node == null
    else node != null && es[0] == PortEntry(node.portno, node.sunPath) && Runs(node.next, es[1..])
  }

  class PortTable {
    var head: MapPortSp?
    var nextPort: int
    ghost var entries: seq<PortEntry>

    ghost predicate Valid()
      reads this
    {
      Runs(head, entries)
    }

    constructor ()
      ensures Valid() && entries == [] && nextPort == FIRST_PORT
    {
      head, nextPort := null, FIRST_PORT;
      entries := [];
    }

    /** `insert_map_port_sp` */
    method InsertMapPortSp(port: int, path: string)
      requires Valid()
      modifies this
      ensures Valid() && entries == [PortEntry(port, path)] + old(entries) && nextPort == old(nextPort)
    {
      head := new MapPortSp(port, path, head);
      entries := [PortEntry(port, path)] + entries;
      assert entries[1..] == old(entries);
    }

    /** `get_next_portno` */
    method GetNextPortno() returns (port: int)
      modifies this`nextPort
      ensures port == old(nextPort) && nextPort == port + 1
    {
      port := nextPort;
      nextPort := nextPort + 1;
    }

    /** `fetch_entry_port` */
    method FetchEntryPort(port: int) returns (entry: MapPortSp?)
      requires Valid()
      ensures entry == null <==> PathOf(entries, port) == None
      ensures entry != null ==> entry.portno == port && PathOf(entries, port) == Some(entry.sunPath)
    {
      var curr := head;
      ghost var es := entries;
      while curr != null
        invariant Runs(curr, es) && PathOf(entries, port) == PathOf(es, port)
        decreases |es|
      {
        if curr.portno == port {
          return curr;
        }
        curr := curr.next;
        es := es[1..];
      }
      return null;
    }

    /** `fetch_entry_path`: an unknown path gets the next port; an empty table gives null. */
    method FetchEntryPath(path: string) returns (entry: MapPortSp?)
      requires Valid()
      modifies this
      ensures Valid()
      ensures old(entries) == [] ==> entry == null && entries == [] && nextPort == old(nextPort)
      ensures old(entries) != [] ==>
                var (ports, next, port) := Register(old(entries), old(nextPort), path);
                entries == ports && nextPort == next && entry != null && entry.portno == port && entry.sunPath == path
    {
      if head == null {
        return null;
      }
      var curr := head;
      ghost var es := entries;
      while curr != null
        invariant Runs(curr, es) && PortOf(entries, path) == PortOf(es, path)
        decreases |es|
      {
        if curr.sunPath == path {
          return curr;
        }
        curr := curr.next;
        es := es[1..];
      }
      var port := GetNextPortno();
      entry := new MapPortSp(port, path, head);
      head := entry;
      entries := [PortEntry(port, path)] + entries;
      assert entries[1..] == old(entries);
    }
  }

  // ---------- how long ports and paths stay in step ----------

  /** The table after clients with these paths have spoken, starting from the preloaded server entry. */
  function Served(paths: seq<string>): (seq<PortEntry>, int) {
    if paths == [] then ([PortEntry(SERV_PORT, SERV_PATH)], FIRST_PORT)
    else
      var (ports, next) := Served(paths[..|paths| - 1]);
      var (ports', next', _) := Register(ports, next, paths[|paths| - 1]);
      (ports', next')
  }

  ghost predicate Numbered(ports: seq<PortEntry>, next: int) {
    && |ports| >= 1 && next == FIRST_PORT + |ports| - 1
    && ports[|ports| - 1] == PortEntry(SERV_PORT, SERV_PATH)
    && (forall i :: 0 <= i < |ports| - 1 ==> ports[i].port == next - 1 - i)
    && forall i, j :: 0 <= i < j < |ports| ==> ports[i].path != ports[j].path
  }

  /** The first entry with this path. */
  predicate FirstWith(ports: seq<PortEntry>, path: string, i: nat) {
    i < |ports| && ports[i].path == path && forall j :: 0 <= j < i ==> ports[j].path != path
  }

  /** The port found for a path is that of the first entry with the path; none is found if there is none. */
  lemma {:induction false} PortFound(ports: seq<PortEntry>, path: string) returns (i: nat)
    ensures PortOf(ports, path).None? ==> forall j :: 0 <= j < |ports| ==> ports[j].path != path
    ensures PortOf(ports, path).Some? ==> FirstWith(ports, path, i) && PortOf(ports, path).value == ports[i].port
  {
    i := 0;
    if ports != [] && ports[0].path != path {
      i := PortFound(ports[1..], path);
      i := i + 1;
    }
  }

  /** The first entry with this port. */
  predicate FirstOn(ports: seq<PortEntry>, port: int, i: nat) {
    i < |ports| && ports[i].port == port && forall j :: 0 <= j < i ==> ports[j].port != port
  }

  /** The path found for a port is that of the first entry with the port; none is found if there is none. */
  lemma {:induction false} PathFound(ports: seq<PortEntry>, port: int) returns (i: nat)
    ensures PathOf(ports, port).None? ==> forall j :: 0 <= j < |ports| ==> ports[j].port != port
    ensures PathOf(ports, port).Some? ==> FirstOn(ports, port, i) && PathOf(ports, port).value == ports[i].path
  {
    i := 0;
    if ports != [] && ports[0].port != port {
      i := PathFound(ports[1..], port);
      i := i + 1;
    }
  }

  lemma PathOfFirst(ports: seq<PortEntry>, k: nat)
    requires k < |ports| && FirstOn(ports, ports[k].port, k)
    ensures PathOf(ports, ports[k].port) == Some(ports[k].path)
  {
    var i := PathFound(ports, ports[k].port);
  }

  function Paths(ports: seq<PortEntry>): set<string> {
    set i | 0 <= i < |ports| :: ports[i].path
  }

  function Asking(paths: seq<string>): set<string> {
    set i | 0 <= i < |paths| :: paths[i]
  }

  lemma {:induction false} ServedNumbered(paths: seq<string>)
    ensures Numbered(Served(paths).0, Served(paths).1)
    ensures Paths(Served(paths).0) == Asking(paths) + {SERV_PATH}
  {
    if paths == [] {
      assert Served(paths).0[0].path == SERV_PATH;
    } else {
      var before, path := paths[..|paths| - 1], paths[|paths| - 1];
      ServedNumbered(before);
      assert Asking(paths) == Asking(before) + {path} by {
        assert forall i :: 0 <= i < |before| ==> before[i] == paths[i];
      }
      var (ports, next) := Served(before);
      RegisterPaths(ports, next, path);
    }
  }

  lemma RegisterPaths(ports: seq<PortEntry>, next: int, path: string)
    requires Numbered(ports, next)
    ensures var (ports', next', _) := Register(ports, next, path);
            Numbered(ports', next') && Paths(ports') == Paths(ports) + {path}
  {
    var k := PortFound(ports, path);
    var (ports', next', _) := Register(ports, next, path);
    if PortOf(ports, path).None? {
      assert forall i :: 1 <= i < |ports'| ==> ports'[i] == ports[i - 1];
      PathsGrow(ports, PortEntry(next, path));
    }
  }

  lemma PathsGrow(ports: seq<PortEntry>, e: PortEntry)
    ensures Paths([e] + ports) == Paths(ports) + {e.path}
  {
    var all := [e] + ports;
    forall p | p in Paths(ports) + {e.path}
      ensures p in Paths(all)
    {
      if p == e.path {
        assert all[0].path == p;
      } else {
        var i :| 0 <= i < |ports| && ports[i].path == p;
        assert all[i + 1].path == p;
      }
    }
  }

  /** Every listed path is what its own port leads back to. */
  ghost predicate InStep(ports: seq<PortEntry>) {
    forall k :: 0 <= k < |ports| ==> PathOf(ports, ports[k].port) == Some(ports[k].path)
  }

  lemma NumberedInStep(ports: seq<PortEntry>, next: int)
    requires Numbered(ports, next)
    ensures InStep(ports) <==> next <= SERV_PORT
  {
    if next <= SERV_PORT {
      forall k | 0 <= k < |ports|
        ensures PathOf(ports, ports[k].port) == Some(ports[k].path)
      {
        PathOfFirst(ports, k);
      }
    } else {
      var k := next - 1 - SERV_PORT;
      assert ports[k].port == SERV_PORT;
      PathOfFirst(ports, k);
      assert PathOf(ports, SERV_PORT) != Some(ports[|ports| - 1].path);
    }
  }

  lemma {:induction false} DistinctPaths(ports: seq<PortEntry>)
    requires forall i, j :: 0 <= i < j < |ports| ==> ports[i].path != ports[j].path
    ensures |Paths(ports)| == |ports|
  {
    if ports == [] {
      assert Paths(ports) == {};
    } else {
      DistinctPaths(ports[1..]);
      PathsGrow(ports[1..], ports[0]);
      assert [ports[0]] + ports[1..] == ports;
      assert ports[0].path !in Paths(ports[1..]);
    }
  }

  /** Ports lead back to their paths for exactly as long as at most 4591 different clients have spoken;
      the next one is given the server's own port. */
  lemma PortsInStepUpTo4591(paths: seq<string>)
    ensures InStep(Served(paths).0) <==> |Asking(paths) - {SERV_PATH}| <= 4591
  {
    ServedNumbered(paths);
    var (ports, next) := Served(paths);
    NumberedInStep(ports, next);
    DistinctPaths(ports);
    var clients := Asking(paths) - {SERV_PATH};
    assert Paths(ports) == clients + {SERV_PATH};
    assert |Paths(ports)| == |clients| + 1;
  }
}

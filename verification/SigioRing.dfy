/** The datagram ring of `dgecho01.c`, filled by the SIGIO handler and emptied by the main loop. The handler
    may run wherever the signal is not blocked, also in the middle of a send. */
module SigioRing {
  const QSIZE := 8

  /** A datagram, the address it came from and the length of that address. */
  datatype Dg = Dg(data: string, sa: string, salen: int)

  /** One return of `recvfrom`; at the end of a list the socket has nothing more (EWOULDBLOCK). */
  datatype Read = Got(dg: Dg) | Failed

  /** Where the main loop stands. */
  datatype Pc =
    | Start      // handler installed, signal not yet blocked
    | Waiting    // blocked, at the test of nqueue
    | Open       // unblocked, about to send
    | Sending    // inside Sendto
    | Sent       // Sendto returned
    | Stepped    // iget incremented, not yet wrapped
    | Wrapped    // iget in range again
    | Blocked    // blocked again, about to decrement nqueue

  function Slot(first: int, k: int): int {
    if first + k < QSIZE then first + k else first + k - QSIZE
  }

  // ---------- the interleaving on values ----------

  datatype Action = Signal(batch: seq<Read>) | Main

  /** What the handler reads with that much room: everything up to the first failure. */
  function Received(batch: seq<Read>, room: nat): (ds: seq<Dg>)
    ensures |ds| <= room && |ds| <= |batch|
  {
    if batch == [] || room == 0 || !batch[0].Got? then [] else [batch[0].dg] + Received(batch[1..], room - 1)
  }

  /** Where the main loop stands, all datagrams read so far, and how many of them `nqueue` still counts. */
  datatype Picture = Picture(pc: Pc, arrived: seq<Dg>, counted: int, alive: bool) {
    /** SIGIO can be delivered: unblocked, or waiting in `sigsuspend`. */
    predicate SigioPossible() {
      alive && (if pc == Waiting then counted == 0 else pc != Blocked)
    }

    /** The handler stops the process on an error and as soon as the ring is full. */
    function Signalled(batch: seq<Read>): Picture {
      if !SigioPossible() || !(0 <= counted <= QSIZE) then this
      else
        var ds := Received(batch, QSIZE - counted);
        Picture(pc, arrived + ds, counted + |ds|, |ds| == |batch| && counted + |batch| < QSIZE)
    }

    function Moved(): Picture {
      if !alive then this
      else
        match pc
        case Start => this.(pc := Waiting)
        case Waiting => if counted != 0 then this.(pc := Open) else this
        case Open => this.(pc := Sending)
        case Sending => this.(pc := Sent)
        case Sent => this.(pc := Stepped)
        case Stepped => this.(pc := Wrapped)
        case Wrapped => this.(pc := Blocked)
        case Blocked => this.(pc := Waiting, counted := counted - 1)
    }

    function Acted(a: Action): Picture {
      match a
      case Signal(batch) => Signalled(batch)
      case Main => Moved()
    }
  }

  function ActedAll(v: Picture, script: seq<Action>): Picture {
    if script == [] then v else ActedAll(v, script[..|script| - 1]).Acted(script[|script| - 1])
  }

  // ---------- the program ----------

  class Ring {
    const dg: array<Dg>
    const clilen: int
    const cntread: array<int>
    var iget: int
    var iput: int
    var nqueue: int
    var pc: Pc
    var alive: bool
    ghost var first: int         // slot of the oldest datagram still counted by nqueue
    ghost var queue: seq<Dg>     // the datagrams counted by nqueue
    ghost var past: seq<Dg>      // those counted no more
    ghost var echoed: seq<Dg>    // everything sent back, in order

    /** Everything read from the socket, in order. */
    ghost function Arrived(): seq<Dg>
      reads this
    {
      past + queue
    }

    /** The oldest counted datagram has already been sent. */
    ghost predicate OldestGone()
      reads this
    {
      pc == Sent || pc == Stepped || pc == Wrapped || pc == Blocked
    }

    /** The counted datagrams are in the ring, from `first` on. */
    ghost predicate Held()
      reads this, dg
    {
      && dg.Length == QSIZE && 0 <= first < QSIZE && 0 <= nqueue <= QSIZE && nqueue == |queue|
      && iput == Slot(first, nqueue)
      && (forall k :: 0 <= k < |queue| ==> dg[Slot(first, k)] == queue[k])
    }

    /** `iget` and what has been sent fit the place of the main loop. */
    ghost predicate InStep()
      reads this
    {
      && (pc == Start || pc == Waiting || queue != [])
      && iget == (if pc == Stepped then first + 1 else if pc == Wrapped || pc == Blocked then Slot(first, 1) else first)
      && echoed == past + (if OldestGone() then [queue[0]] else [])
    }

    ghost predicate Valid()
      reads this, dg, cntread
    {
      Held() && InStep() && cntread.Length == QSIZE + 1
    }

    ghost function Abs(): Picture
      reads this
    {
      Picture(pc, Arrived(), nqueue, alive)
    }

    predicate SigioPossible()
      reads this
    {
      alive && (if pc == Waiting then nqueue == 0 else pc != Blocked)
    }

    constructor (blank: Dg, len: int)
      ensures Valid() && alive && pc == Start && Arrived() == [] && echoed == []
      ensures fresh(dg) && fresh(cntread)
    {
      dg, clilen := new Dg[QSIZE](_ => blank), len;
      cntread := new int[QSIZE + 1](_ => 0);
      iget, iput, nqueue, first := 0, 0, 0, 0;
      pc, alive := Start, true;
      queue, past, echoed := [], [], [];
    }

    /** One datagram read into the ring. */
    method TakeIn(d: Dg)
      requires Held() && nqueue < QSIZE
      modifies this`iput, this`nqueue, this`queue, dg
      ensures Held() && nqueue == old(nqueue) + 1 && queue == old(queue) + [d]
    {
      dg[iput] := d;
      queue := queue + [d];
      nqueue := nqueue + 1;
      iput := iput + 1;
      if iput >= QSIZE {
        iput := 0;
      }
    }

    /** `sig_io`. A run of it that ends leaves at least one slot free. The slot being sent is not touched. */
    method SigIo(batch: seq<Read>)
      requires Valid() && SigioPossible()
      modifies this`iput, this`nqueue, this`alive, this`queue, dg, cntread
      ensures Valid() && (old(nqueue) > 0 ==> dg[first] == old(dg[first]))
      ensures Abs() == old(Abs()).Signalled(batch)
      ensures alive ==> cntread[..] == old(cntread[..])[|batch| := old(cntread[..])[|batch|] + 1]
    {
      var nread := ReadAll(batch);
      assert old(nqueue) > 0 ==> old(dg[Slot(first, 0)]) == old(queue)[0] == dg[Slot(first, 0)];
      if alive {
        cntread[nread] := cntread[nread] + 1;
      }
      ghost var ds := Received(batch, QSIZE - old(nqueue));
      assert past + (old(queue) + ds) == past + old(queue) + ds;
    }

    /** The room for an address is set before every `recvfrom`, also before one that finds nothing. The slot is
        not one of those counted, so not the one being sent either. */
    method Prepare()
      requires Held() && nqueue < QSIZE
      modifies dg
      ensures Held()
    {
      dg[iput] := dg[iput].(salen := clilen);
    }

    /** The loop of `sig_io`. It ends when the socket has nothing more; a full ring and any other error end
        the process. */
    method ReadAll(batch: seq<Read>) returns (nread: nat)
      requires Held() && alive
      modifies this`iput, this`nqueue, this`alive, this`queue, dg
      ensures Held() && queue == old(queue) + Received(batch, QSIZE - old(nqueue))
      ensures nread == |Received(batch, QSIZE - old(nqueue))|
      ensures alive <==> nread == |batch| && old(nqueue) + |batch| < QSIZE
    {
      nread := 0;
      ghost var all := old(queue) + Received(batch, QSIZE - old(nqueue));
      assert batch[0..] == batch;
      while true
        invariant Held() && alive && nread <= |batch| && nqueue == old(nqueue) + nread
        invariant queue + Received(batch[nread..], QSIZE - nqueue) == all
        decreases |batch| - nread
      {
        if nqueue >= QSIZE {
          alive := false;
          return;
        }
        Prepare();
        if nread == |batch| {
          return;
        }
        if batch[nread].Failed? {
          alive := false;
          return;
        }
        assert batch[nread..][1..] == batch[nread + 1..];
        TakeIn(batch[nread].dg);
        nread := nread + 1;
      }
    }

    /** The counter is decremented with the signal blocked. */
    method Uncount()
      requires Valid() && pc == Blocked
      modifies this`nqueue, this`first, this`queue, this`past, this`pc
      ensures Valid() && pc == Waiting && Arrived() == old(Arrived()) && nqueue == old(nqueue) - 1
    {
      assert forall k :: 0 <= k < nqueue - 1 ==> Slot(Slot(first, 1), k) == Slot(first, k + 1);
      nqueue := nqueue - 1;
      past := past + [queue[0]];
      queue := queue[1..];
      first := Slot(first, 1);
      pc := Waiting;
    }

    /** One statement of the main loop; with nothing queued it goes on waiting. */
    method MainStep()
      requires Valid() && alive
      modifies this`iget, this`nqueue, this`pc, this`first, this`queue, this`past, this`echoed
      ensures Valid() && Abs() == old(Abs()).Moved()
      ensures echoed == if old(pc) == Sending then old(echoed) + [old(dg[iget])] else old(echoed)
    {
      match pc
      case Start => pc := Waiting;
      case Waiting => if nqueue != 0 { pc := Open; }
      case Open => pc := Sending;
      case Sending =>
        assert dg[Slot(first, 0)] == queue[0];
        echoed := echoed + [dg[iget]];
        pc := Sent;
      case Sent => iget := iget + 1; pc := Stepped;
      case Stepped =>
        if iget >= QSIZE {
          iget := 0;
        }
        pc := Wrapped;
      case Wrapped => pc := Blocked;
      case Blocked => Uncount();
    }

    /** Any interleaving of the two. What has arrived follows from the script; datagrams are echoed once
        each, in order of arrival, and whenever the main loop waits with nothing counted, all of them have been. */
    method Run(script: seq<Action>)
      requires Valid()
      modifies this, dg, cntread
      ensures Valid() && Abs() == ActedAll(old(Abs()), script)
      ensures echoed <= Arrived() && |Arrived()| - |echoed| <= QSIZE && old(echoed) <= echoed
      ensures pc == Waiting && nqueue == 0 ==> echoed == Arrived()
      ensures Arrived() <= old(Arrived()) + Supplied(old(Abs()), script)
      ensures alive ==> Arrived() == old(Arrived()) + Supplied(old(Abs()), script)
      ensures alive <==> old(alive) && Survives(old(Abs()), script)
    {
      for i := 0 to |script|
        invariant Valid() && Abs() == ActedAll(old(Abs()), script[..i]) && old(echoed) <= echoed
      {
        assert script[..i + 1][..i] == script[..i];
        match script[i]
        case Signal(batch) =>
          if SigioPossible() {
            SigIo(batch);
          }
        case Main =>
          if alive {
            MainStep();
          }
      }
      assert script[..|script|] == script;
      ArrivedIsSupplied(old(Abs()), script);
    }
  }

  // ---------- what the interleaving decides ----------

  predicate AllGot(batch: seq<Read>, n: nat) {
    n <= |batch| && forall k :: 0 <= k < n ==> batch[k].Got?
  }

  /** The handler takes the datagrams themselves, in order, and stops only for lack of room, at the end or at a
      failure. */
  lemma {:induction false} ReceivedExactly(batch: seq<Read>, room: nat)
    ensures var ds := Received(batch, room);
            && |ds| <= room && AllGot(batch, |ds|) && (forall k :: 0 <= k < |ds| ==> ds[k] == batch[k].dg)
            && (|ds| == room || |ds| == |batch| || batch[|ds|].Failed?)
    decreases room
  {
    if batch != [] && room > 0 && batch[0].Got? {
      ReceivedExactly(batch[1..], room - 1);
    }
  }

  /** The process runs, and the signal is not blocked, or the loop waits for it with nothing counted. */
  predicate Delivered(v: Picture) {
    v.alive && v.pc != Blocked && (v.pc == Waiting ==> v.counted == 0)
  }

  /** What a batch holds, failures counted as nothing in particular. */
  function Contents(batch: seq<Read>): seq<Dg> {
    seq(|batch|, i requires 0 <= i < |batch| => if batch[i].Got? then batch[i].dg else Dg("", "", 0))
  }

  /** The datagrams of all batches whose signal is delivered. */
  function Supplied(v: Picture, script: seq<Action>): seq<Dg> {
    if script == [] then []
    else
      var before, a := script[..|script| - 1], script[|script| - 1];
      Supplied(v, before) + if a.Signal? && Delivered(ActedAll(v, before)) then Contents(a.batch) else []
  }

  /** No delivered batch holds a failure or fills the ring. */
  predicate Survives(v: Picture, script: seq<Action>) {
    script == [] ||
    var before, a := script[..|script| - 1], script[|script| - 1];
    var here := ActedAll(v, before);
    && Survives(v, before)
    && (a.Signal? && Delivered(here) ==> AllGot(a.batch, |a.batch|) && here.counted + |a.batch| < QSIZE)
  }

  predicate Sound(v: Picture) {
    0 <= v.counted <= QSIZE && (v.pc != Start && v.pc != Waiting ==> v.counted > 0)
  }

  /** One signal. */
  lemma SignalTakes(v: Picture, batch: seq<Read>)
    requires Sound(v) && Delivered(v)
    ensures var v' := v.Signalled(batch);
            && Sound(v') && v'.arrived <= v.arrived + Contents(batch)
            && (v'.alive ==> v'.arrived == v.arrived + Contents(batch))
            && (v'.alive <==> AllGot(batch, |batch|) && v.counted + |batch| < QSIZE)
  {
    var ds := Received(batch, QSIZE - v.counted);
    ReceivedExactly(batch, QSIZE - v.counted);
    assert ds == Contents(batch)[..|ds|];
  }

  lemma PrefixGrows(a: seq<Dg>, s: seq<Dg>, c: seq<Dg>, b: seq<Dg>)
    requires a == b + s
    ensures a + c == b + (s + c)
  {
  }

  /** What has arrived is what was supplied; if the process has been stopped, a first part of it. It is stopped by a
      failure or a full ring, and by nothing else. */
  lemma {:induction false} ArrivedIsSupplied(v: Picture, script: seq<Action>)
    requires Sound(v)
    ensures var v' := ActedAll(v, script);
            && Sound(v') && v'.arrived <= v.arrived + Supplied(v, script)
            && (v'.alive ==> v'.arrived == v.arrived + Supplied(v, script))
            && (v'.alive <==> v.alive && Survives(v, script))
  {
    if script != [] {
      var before, a := script[..|script| - 1], script[|script| - 1];
      ArrivedIsSupplied(v, before);
      var here := ActedAll(v, before);
      if a.Signal? && Delivered(here) {
        SignalTakes(here, a.batch);
        PrefixGrows(here.arrived, Supplied(v, before), Contents(a.batch), v.arrived);
      }
    }
  }

  /** How many statements of the main loop are left until everything counted has been sent. */
  function Left(v: Picture): int {
    7 * v.counted +
    match v.pc
    case Start => 1
    case Waiting => 0
    case Open => -1
    case Sending => -2
    case Sent => -3
    case Stepped => -4
    case Wrapped => -5
    case Blocked => -6
  }

  lemma {:induction false} FirstActed(v: Picture, a: Action, script: seq<Action>)
    ensures ActedAll(v, [a] + script) == ActedAll(v.Acted(a), script)
  {
    var all := [a] + script;
    if script == [] {
      assert all == [a] && all[..0] == [];
    } else {
      FirstActed(v, a, script[..|script| - 1]);
      assert all[..|all| - 1] == [a] + script[..|script| - 1];
    }
  }

  /** With no more signals the main loop sends all that has arrived in that many statements, and then waits. */
  lemma {:induction false} AllSentInTime(v: Picture)
    requires Sound(v) && v.alive
    ensures Left(v) >= 0 && ActedAll(v, seq(Left(v), _ => Main)) == v.(pc := Waiting, counted := 0)
    decreases Left(v)
  {
    if Left(v) > 0 {
      AllSentInTime(v.Moved());
      var script: seq<Action> := seq(Left(v), _ => Main);
      assert script == [Main] + seq(Left(v) - 1, _ => Main);
      FirstActed(v, Main, seq(Left(v) - 1, _ => Main));
    }
  }
}

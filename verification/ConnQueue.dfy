/** The descriptor ring of `serv08.c` and `pthread08.c`: one accepting thread, any number of serving ones,
    a mutex and a condition variable. What runs under the mutex is one step here. */
module ConnQueue {
  const MAXNCLI := 32

  /** What a serving thread is doing. */
  datatype State =
    | Ready           // outside the critical section, about to lock
    | Waiting         // in pthread_cond_wait, not signalled
    | Woken           // signalled or woken spuriously, about to lock again
    | Serving(fd: int)

  datatype Taken = Taken(thread: nat, fd: int)

  function Slot(first: int, k: int): int {
    if first + k < MAXNCLI then first + k else first + k - MAXNCLI
  }

  function CountWoken(ts: seq<State>): nat {
    if ts == [] then 0 else (if ts[0].Woken? then 1 else 0) + CountWoken(ts[1..])
  }

  lemma {:induction false} CountChanges(ts: seq<State>, i: nat, s: State)
    requires i < |ts|
    ensures CountWoken(ts[i := s]) == CountWoken(ts) - (if ts[i].Woken? then 1 else 0) + (if s.Woken? then 1 else 0)
  {
    if i == 0 {
      assert ts[0 := s][1..] == ts[1..];
    } else {
      CountChanges(ts[1..], i - 1, s);
      assert ts[i := s][1..] == ts[1..][i - 1 := s];
    }
  }

  function Fds(taken: seq<Taken>): seq<int> {
    if taken == [] then [] else Fds(taken[..|taken| - 1]) + [taken[|taken| - 1].fd]
  }

  function TakenBy(taken: seq<Taken>, i: nat): nat {
    if taken == [] then 0
    else TakenBy(taken[..|taken| - 1], i) + (if taken[|taken| - 1].thread == i then 1 else 0)
  }

  predicate SomeWaiting(ts: seq<State>) {
    exists i :: 0 <= i < |ts| && ts[i].Waiting?
  }

  // ---------- the schedule on values ----------

  datatype Step = Accept(fd: int, wake: nat) | Lock(i: nat) | Done(i: nat) | Stir(i: nat)

  /** What the threads are doing, all descriptors in the order of accept, and who took which. */
  datatype Picture = Picture(threads: seq<State>, accepted: seq<int>, taken: seq<Taken>, alive: bool) {
    function Queue(): seq<int>
      requires |taken| <= |accepted|
    {
      accepted[|taken|..]
    }

    /** `wake` is a waiting thread, if any thread waits. */
    predicate Wakes(wake: nat) {
      SomeWaiting(threads) ==> wake < |threads| && threads[wake].Waiting?
    }

    /** A full ring ends the program; otherwise the signal wakes a waiting thread. */
    function Accepted(fd: int, wake: nat): Picture
      requires |taken| <= |accepted|
    {
      if |Queue()| + 1 >= MAXNCLI then this.(accepted := accepted + [fd], alive := false)
      else
        this.(accepted := accepted + [fd],
              threads := if wake < |threads| && threads[wake].Waiting? then threads[wake := Woken] else threads)
    }

    /** A thread that gets the mutex takes the oldest descriptor, or waits if there is none. */
    function Locked(i: nat): Picture
      requires i < |threads| && |taken| <= |accepted|
    {
      if Queue() == [] then this.(threads := threads[i := Waiting])
      else this.(threads := threads[i := Serving(Queue()[0])], taken := taken + [Taken(i, Queue()[0])])
    }

    /** A step that is not possible is skipped. */
    function Stepped(step: Step): Picture {
      if !alive || |taken| > |accepted| then this
      else
        match step
        case Accept(fd, wake) => if Wakes(wake) then Accepted(fd, wake) else this
        case Lock(i) => if i < |threads| && (threads[i].Ready? || threads[i].Woken?) then Locked(i) else this
        case Done(i) => if i < |threads| && threads[i].Serving? then this.(threads := threads[i := Ready]) else this
        case Stir(i) => if i < |threads| && threads[i].Waiting? then this.(threads := threads[i := Woken]) else this
    }
  }

  function SteppedAll(v: Picture, script: seq<Step>): Picture {
    if script == [] then v else SteppedAll(v, script[..|script| - 1]).Stepped(script[|script| - 1])
  }

  // ---------- the program ----------

  class Server {
    const clifd: array<int>
    var iget: int
    var iput: int
    var threads: seq<State>
    var counts: seq<int>            // tptr[i].thread_count
    var alive: bool
    ghost var queue: seq<int>       // descriptors not yet taken
    ghost var accepted: seq<int>    // all descriptors, in the order of accept
    ghost var taken: seq<Taken>     // who took which, in order

    /** Every descriptor is in the ring or was taken by one thread, in the order of accept. */
    ghost predicate Ring()
      reads this, clifd
    {
      && clifd.Length == MAXNCLI && 0 <= iget < MAXNCLI && |queue| < MAXNCLI
      && iput == Slot(iget, |queue|)
      && (forall k :: 0 <= k < |queue| ==> clifd[Slot(iget, k)] == queue[k])
      && accepted == Fds(taken) + queue
    }

    ghost function Abs(): Picture
      reads this
    {
      Picture(threads, accepted, taken, alive)
    }

    /** As long as anyone waits, every queued descriptor has a thread on its way to it. */
    ghost predicate NoneForgotten()
      reads this
    {
      SomeWaiting(threads) ==> CountWoken(threads) >= |queue|
    }

    ghost predicate Valid()
      reads this, clifd
    {
      alive ==> Ring() && NoneForgotten() && Counted()
    }

    /** The statistics are right. */
    ghost predicate Counted()
      reads this
    {
      |counts| == |threads| && forall i :: 0 <= i < |counts| ==> counts[i] == TakenBy(taken, i)
    }

    constructor (nthreads: nat)
      ensures Valid() && alive && accepted == [] && |threads| == nthreads && fresh(clifd)
    {
      clifd := new int[MAXNCLI](_ => 0);
      iget, iput, alive := 0, 0, true;
      threads := seq(nthreads, _ => Ready);
      counts := seq(nthreads, _ => 0);
      queue, accepted, taken := [], [], [];
    }

    /** The descriptor goes into the next slot. No slot with an untaken descriptor is hit. */
    method Store(connfd: int)
      requires Ring()
      modifies this`iput, this`queue, this`accepted, clifd
      ensures clifd.Length == MAXNCLI && queue == old(queue) + [connfd] && accepted == old(accepted) + [connfd]
      ensures forall k :: 0 <= k < |old(queue)| ==> clifd[Slot(iget, k)] == old(queue)[k]
      ensures iput == iget <==> |queue| == MAXNCLI
      ensures |queue| < MAXNCLI ==> Ring()
    {
      clifd[iput] := connfd;
      accepted := accepted + [connfd];
      queue := queue + [connfd];
      iput := iput + 1;
      if iput == MAXNCLI {
        iput := 0;
      }
    }

    /** The accepting loop: store, give up if the ring is full, signal. `wake` is the waiting thread that the
        signal wakes, if any waits. */
    method Put(connfd: int, wake: nat)
      requires Valid() && alive
      requires SomeWaiting(threads) ==> wake < |threads| && threads[wake].Waiting?
      modifies this, clifd
      ensures Valid() && |old(taken)| <= |old(accepted)| && Abs() == old(Abs()).Accepted(connfd, wake)
    {
      QueueIs(accepted, taken, queue);
      Store(connfd);
      if iput == iget {
        alive := false;
        return;
      }
      if wake < |threads| && threads[wake].Waiting? {
        CountChanges(threads, wake, Woken);
        threads := threads[wake := Woken];
      }
    }

    /** Thread `i` takes the descriptor from the oldest slot. */
    method Fetch(i: nat) returns (connfd: int)
      requires Ring() && queue != []
      modifies this`iget, this`queue, this`taken
      ensures Ring() && connfd == old(queue)[0] && queue == old(queue)[1..] && taken == old(taken) + [Taken(i, connfd)]
    {
      assert forall k :: 0 <= k < |queue| - 1 ==> Slot(Slot(iget, 1), k) == Slot(iget, k + 1);
      assert clifd[Slot(iget, 0)] == queue[0];
      connfd := clifd[iget];
      iget := iget + 1;
      if iget == MAXNCLI {
        iget := 0;
      }
      taken := taken + [Taken(i, connfd)];
      queue := queue[1..];
    }

    /** The critical section of a serving thread, entered by locking or by returning from the wait, and the
        count kept just after it. */
    method Get(i: nat)
      requires Valid() && alive && i < |threads| && (threads[i].Ready? || threads[i].Woken?)
      modifies this
      ensures Valid() && |old(taken)| <= |old(accepted)| && Abs() == old(Abs()).Locked(i)
    {
      QueueIs(accepted, taken, queue);
      if iget == iput {
        CountChanges(threads, i, Waiting);
        threads := threads[i := Waiting];
        return;
      }
      var connfd := Fetch(i);
      CountChanges(threads, i, Serving(connfd));
      threads := threads[i := Serving(connfd)];
      counts := counts[i := counts[i] + 1];
    }

    /** `web_child` returns and the descriptor is closed. */
    method Finish(i: nat)
      requires Valid() && alive && i < |threads| && threads[i].Serving?
      modifies this`threads
      ensures Valid() && threads == old(threads)[i := Ready]
    {
      CountChanges(threads, i, Ready);
      threads := threads[i := Ready];
    }

    /** A wait may end without a signal. */
    method WakeSpuriously(i: nat)
      requires Valid() && alive && i < |threads| && threads[i].Waiting?
      modifies this`threads
      ensures Valid() && threads == old(threads)[i := Woken]
    {
      CountChanges(threads, i, Woken);
      threads := threads[i := Woken];
    }

    /** Any schedule, as it is played: descriptors go to threads once each and in the order of accept, and a
        descriptor that is not yet taken never leaves all threads asleep. */
    method Run(script: seq<Step>)
      requires Valid()
      modifies this, clifd
      ensures Valid() && Abs() == SteppedAll(old(Abs()), script)
      ensures alive ==> accepted == Fds(taken) + queue
      ensures accepted == old(accepted) + Offered(old(Abs()), script)
      ensures alive <==> old(alive) && NeverFull(old(Abs()), script)
      ensures alive && queue != [] && threads != [] ==> exists i :: 0 <= i < |threads| && !threads[i].Waiting?
    {
      if alive {
        QueueIs(accepted, taken, queue);
      }
      AcceptedIsOffered(Abs(), script);
      for n := 0 to |script|
        invariant Valid() && Abs() == SteppedAll(old(Abs()), script[..n])
      {
        assert script[..n + 1][..n] == script[..n];
        if alive {
          Play(script[n]);
        }
      }
      assert script[..|script|] == script;
      if alive && queue != [] && threads != [] {
        NotAllAsleep(threads, |queue|);
      }
    }

    /** One step of the schedule, if it is possible. */
    method Play(step: Step)
      requires Valid() && alive
      modifies this, clifd
      ensures Valid() && Abs() == old(Abs()).Stepped(step)
    {
      QueueIs(accepted, taken, queue);
      match step
      case Accept(fd, wake) =>
        if SomeWaiting(threads) ==> wake < |threads| && threads[wake].Waiting? {
          Put(fd, wake);
        }
      case Lock(i) =>
        if i < |threads| && (threads[i].Ready? || threads[i].Woken?) {
          Get(i);
        }
      case Done(i) =>
        if i < |threads| && threads[i].Serving? {
          Finish(i);
        }
      case Stir(i) =>
        if i < |threads| && threads[i].Waiting? {
          WakeSpuriously(i);
        }
    }
  }

  lemma {:induction false} FdsLength(taken: seq<Taken>)
    ensures |Fds(taken)| == |taken|
  {
    if taken != [] {
      FdsLength(taken[..|taken| - 1]);
    }
  }

  /** The untaken descriptors are the accepted ones behind the taken ones. */
  lemma QueueIs(accepted: seq<int>, taken: seq<Taken>, queue: seq<int>)
    requires accepted == Fds(taken) + queue
    ensures |taken| <= |accepted| && accepted[|taken|..] == queue
  {
    FdsLength(taken);
  }

  lemma {:induction false} AllAsleepNoneWoken(ts: seq<State>)
    requires forall i :: 0 <= i < |ts| ==> ts[i].Waiting?
    ensures CountWoken(ts) == 0
  {
    if ts != [] {
      AllAsleepNoneWoken(ts[1..]);
    }
  }

  lemma NotAllAsleep(ts: seq<State>, queued: nat)
    requires (SomeWaiting(ts) ==> CountWoken(ts) >= queued) && queued > 0 && ts != []
    ensures exists i :: 0 <= i < |ts| && !ts[i].Waiting?
  {
    if forall i :: 0 <= i < |ts| ==> ts[i].Waiting? {
      assert ts[0].Waiting?;
      AllAsleepNoneWoken(ts);
    }
  }

  // ---------- what the schedule decides ----------

  /** The server runs, and the thread named is one that waits, if any does. */
  predicate CanAccept(v: Picture, s: Step) {
    && v.alive && s.Accept?
    && ((exists i :: 0 <= i < |v.threads| && v.threads[i].Waiting?) ==>
          s.wake < |v.threads| && v.threads[s.wake].Waiting?)
  }

  /** The descriptors of all steps that accept one. */
  function Offered(v: Picture, script: seq<Step>): seq<int> {
    if script == [] then []
    else
      var before, s := script[..|script| - 1], script[|script| - 1];
      Offered(v, before) + if CanAccept(SteppedAll(v, before), s) then [s.fd] else []
  }

  /** No accept finds the ring with just one slot left. */
  predicate NeverFull(v: Picture, script: seq<Step>) {
    script == [] ||
    var before, s := script[..|script| - 1], script[|script| - 1];
    var here := SteppedAll(v, before);
    NeverFull(v, before) && (CanAccept(here, s) ==> |here.accepted| - |here.taken| + 1 < MAXNCLI)
  }

  lemma StepAccepts(v: Picture, s: Step)
    requires v.alive ==> |v.taken| <= |v.accepted|
    ensures var v' := v.Stepped(s);
            && v'.accepted == v.accepted + (if CanAccept(v, s) then [s.fd] else [])
            && (v'.alive <==> v.alive && (CanAccept(v, s) ==> |v.accepted| - |v.taken| + 1 < MAXNCLI))
            && (v'.alive ==> |v'.taken| <= |v'.accepted|)
  {
  }

  /** Exactly the offered descriptors are accepted, in order, and the server gives up only if the ring fills up. */
  lemma {:induction false} AcceptedIsOffered(v: Picture, script: seq<Step>)
    requires v.alive ==> |v.taken| <= |v.accepted|
    ensures var v' := SteppedAll(v, script);
            && v'.accepted == v.accepted + Offered(v, script)
            && (v'.alive <==> v.alive && NeverFull(v, script))
            && (v'.alive ==> |v'.taken| <= |v'.accepted|)
  {
    if script != [] {
      var before, s := script[..|script| - 1], script[|script| - 1];
      AcceptedIsOffered(v, before);
      StepAccepts(SteppedAll(v, before), s);
    }
  }

  /** One thread going round: it finishes what it serves, or wakes up, and gets the mutex. */
  function Round(i: nat): seq<Step> {
    [Done(i), Stir(i), Lock(i)]
  }

  lemma ThreeSteps(v: Picture, a: Step, b: Step, c: Step)
    ensures SteppedAll(v, [a, b, c]) == v.Stepped(a).Stepped(b).Stepped(c)
  {
    var s := [a, b, c];
    assert s[..2] == [a, b] && [a, b][..1] == [a] && [a][..0] == [];
    assert SteppedAll(v, [a]) == v.Stepped(a) && SteppedAll(v, [a, b]) == v.Stepped(a).Stepped(b);
  }

  lemma RoundTakes(v: Picture, i: nat)
    requires v.alive && i < |v.threads| && |v.taken| < |v.accepted|
    ensures var fd := v.accepted[|v.taken|];
            var v' := SteppedAll(v, Round(i));
            && v'.alive && v'.accepted == v.accepted && v'.taken == v.taken + [Taken(i, fd)]
            && |v'.threads| == |v.threads| && v'.threads[i] == Serving(fd)
  {
    ThreeSteps(v, Done(i), Stir(i), Lock(i));
  }

  lemma {:induction false} SteppedConcat(v: Picture, a: seq<Step>, b: seq<Step>)
    ensures SteppedAll(v, a + b) == SteppedAll(SteppedAll(v, a), b)
  {
    if b == [] {
      assert a + b == a;
    } else {
      SteppedConcat(v, a, b[..|b| - 1]);
      assert (a + b)[..|a + b| - 1] == a + b[..|b| - 1];
    }
  }

  function Rounds(i: nat, k: nat): seq<Step> {
    if k == 0 then [] else Rounds(i, k - 1) + Round(i)
  }

  /** Any thread that keeps going round serves the queued descriptors, oldest first, one each time. */
  lemma {:induction false} OneThreadServesAll(v: Picture, i: nat, k: nat)
    requires v.alive && i < |v.threads| && |v.taken| + k <= |v.accepted|
    ensures var v' := SteppedAll(v, Rounds(i, k));
            && v'.alive && v'.accepted == v.accepted && |v'.threads| == |v.threads|
            && v'.taken == v.taken + seq(k, j requires 0 <= j < k => Taken(i, v.accepted[|v.taken| + j]))
  {
    if k > 0 {
      OneThreadServesAll(v, i, k - 1);
      SteppedConcat(v, Rounds(i, k - 1), Round(i));
      RoundTakes(SteppedAll(v, Rounds(i, k - 1)), i);
    }
  }
}

/** The non-blocking two-way copier of `strclinonb.c`: standard input to the socket, the socket to standard
    output, with partial reads and writes, and a FIN once the input is used up and written. */
module Copier {
  const MAXLINE := 4096

  /** What a `read` finds: some bytes, of which it returns as many as fit, the end, nothing yet, or an error. */
  datatype Read = Bytes(data: string) | Eof | NoInput | ReadError

  /** What a `write` does: takes up to `n` bytes, would block, or fails. */
  datatype Write = Wrote(n: nat) | NoRoom | WriteError

  /** One pass of the loop as the kernel plays it: which descriptors `select` reports, of those asked for,
      and what the calls return. */
  datatype Pass = Pass(
    stdinReady: bool, sockReadable: bool, sockWritable: bool, stdoutWritable: bool,
    stdin: Read, sockIn: Read, stdout: Write, sockOut: Write)

  datatype Status = Running | Returned | Fatal

  function Min(a: int, b: int): int {
    if a < b then a else b
  }

  // ---------- one pass on values ----------

  /** One direction: the bytes read, how many of them are written, and the room left behind the last one. */
  datatype Flow = Flow(taken: string, given: int, room: int) {
    function Pending(): int {
      |taken| - given
    }

    function Filled(r: Read): Flow {
      if room > 0 && r.Bytes? then
        var chunk := r.data[..Min(|r.data|, room)];
        Flow(taken + chunk, given, room - |chunk|)
      else this
    }

    /** An emptied buffer starts again at its beginning. */
    function Drained(w: Write): Flow {
      if w.Wrote? && Pending() > 0 then
        var n := Min(w.n, Pending());
        Flow(taken, given + n, if n == Pending() then MAXLINE else room)
      else this
    }
  }

  /** The whole copier. */
  datatype State = State(to: Flow, fr: Flow, eof: bool, status: Status) {
    predicate ReadsStdin(p: Pass) {
      status == Running && !eof && to.room > 0 && p.stdinReady
    }

    function AfterStdin(p: Pass): State {
      if ReadsStdin(p) then
        State(to.Filled(p.stdin), fr, p.stdin.Eof?, if p.stdin.ReadError? then Fatal else Running)
      else this
    }

    predicate ReadsSocket(p: Pass) {
      status == Running && fr.room > 0 && p.sockReadable
    }

    /** The end of the socket's data ends the loop, normally only if the input had ended too. */
    function AfterSocket(p: Pass): State {
      if !ReadsSocket(p) then this
      else if p.sockIn.Eof? then this.(status := if eof then Returned else Fatal)
      else if p.sockIn.ReadError? then this.(status := Fatal)
      else this.(fr := fr.Filled(p.sockIn))
    }

    function AfterStdout(made: bool, w: Write): State {
      if status != Running || !made || fr.Pending() <= 0 then this
      else this.(fr := fr.Drained(w), status := if w.WriteError? then Fatal else Running)
    }

    function AfterSockOut(made: bool, w: Write): State {
      if status != Running || !made || to.Pending() <= 0 then this
      else this.(to := to.Drained(w), status := if w.WriteError? then Fatal else Running)
    }

    /** Both reads, then both writes. A write is tried if `select` reported room for bytes that were there
        before, or if the pass has just read some. */
    function Passed(p: Pass): State {
      var one := AfterStdin(p);
      var two := one.AfterSocket(p);
      var three := two.AfterStdout(
        (fr.Pending() != 0 && p.stdoutWritable) || (one.ReadsSocket(p) && p.sockIn.Bytes?), p.stdout);
      three.AfterSockOut((to.Pending() != 0 && p.sockWritable) || (ReadsStdin(p) && p.stdin.Bytes?), p.sockOut)
    }
  }

  const BEGIN := State(Flow("", 0, MAXLINE), Flow("", 0, MAXLINE), false, Running)

  function PassedAll(passes: seq<Pass>): State {
    if passes == [] then BEGIN else PassedAll(passes[..|passes| - 1]).Passed(passes[|passes| - 1])
  }

  // ---------- the program ----------

  /** A buffer with its in and out pointers. */
  class Pipe {
    const buf: array<char>
    var iptr: int
    var optr: int
    ghost var taken: string   // all bytes read into the buffer
    ghost var given: string   // all bytes written out of it

    /** Nothing is lost, doubled or out of order, and the pointers stay inside. */
    ghost predicate Valid()
      reads this, buf
    {
      buf.Length == MAXLINE && 0 <= optr <= iptr <= MAXLINE && taken == given + buf[optr..iptr]
    }

    ghost function Abs(): Flow
      reads this
    {
      Flow(taken, |given|, MAXLINE - iptr)
    }

    constructor ()
      ensures Valid() && iptr == optr == 0 && taken == given == "" && fresh(buf)
    {
      buf := new char[MAXLINE](_ => ' ');
      iptr, optr := 0, 0;
      taken, given := "", "";
    }

    /** A successful `read` into the free part. */
    method Fill(data: string)
      requires Valid() && |data| <= MAXLINE - iptr
      modifies this`iptr, this`taken, buf
      ensures Valid() && taken == old(taken) + data && iptr == old(iptr) + |data|
    {
      ghost var before := buf[optr..iptr];
      forall k | 0 <= k < |data| {
        buf[iptr + k] := data[k];
      }
      iptr := iptr + |data|;
      taken := taken + data;
      assert buf[optr..iptr] == before + data;
    }

    /** A successful `write` of `n` bytes; an emptied buffer starts again at its beginning. */
    method Drain(n: nat)
      requires Valid() && n <= iptr - optr
      modifies this`iptr, this`optr, this`given
      ensures Valid() && old(given) <= given && |given| == |old(given)| + n
      ensures iptr - optr == old(iptr - optr) - n && iptr == if n == old(iptr - optr) then 0 else old(iptr)
    {
      given := given + buf[optr..optr + n];
      assert buf[optr..iptr] == buf[optr..optr + n] + buf[optr + n..iptr];
      optr := optr + n;
      if optr == iptr {
        optr, iptr := 0, 0;
      }
    }
  }

  class StrCli {
    const to: Pipe
    const fr: Pipe
    var stdineof: bool
    var fins: nat
    var status: Status

    /** A FIN has been sent exactly if the input has ended and every byte of it is written. */
    ghost predicate Valid()
      reads this, to, fr, to.buf, fr.buf
    {
      && to != fr && to.buf != fr.buf && to.Valid() && fr.Valid()
      && fins == (if stdineof && to.optr == to.iptr then 1 else 0)
    }

    ghost function Abs(): State
      reads this, to, fr
    {
      State(to.Abs(), fr.Abs(), stdineof, status)
    }

    constructor ()
      ensures Valid() && Abs() == BEGIN && fins == 0
      ensures fresh(to) && fresh(fr) && fresh(to.buf) && fresh(fr.buf)
    {
      to := new Pipe();
      fr := new Pipe();
      stdineof, fins, status := false, 0, Running;
    }

    method ReadStdin(r: Read)
      requires Valid() && status == Running && !stdineof && to.iptr < MAXLINE
      modifies this, to, to.buf
      ensures Valid() && to.given == old(to.given)
      ensures Abs() == State(old(to.Abs()).Filled(r), old(fr.Abs()), r.Eof?, if r.ReadError? then Fatal else Running)
    {
      match r
      case Bytes(data) => to.Fill(data[..Min(|data|, MAXLINE - to.iptr)]);
      case Eof =>
        stdineof := true;
        if to.optr == to.iptr {
          fins := fins + 1;
        }
      case NoInput =>
      case ReadError => status := Fatal;
    }

    /** What is left in the buffer when the socket's data ends is not written. */
    method ReadSocket(r: Read)
      requires Valid() && status == Running && fr.iptr < MAXLINE
      modifies this`status, fr, fr.buf
      ensures Valid() && fr.given == old(fr.given)
      ensures Abs() == if r.Eof? then old(Abs()).(status := if stdineof then Returned else Fatal)
                       else if r.ReadError? then old(Abs()).(status := Fatal)
                       else old(Abs()).(fr := old(fr.Abs()).Filled(r))
    {
      match r
      case Bytes(data) => fr.Fill(data[..Min(|data|, MAXLINE - fr.iptr)]);
      case Eof => status := if stdineof then Returned else Fatal;
      case NoInput =>
      case ReadError => status := Fatal;
    }

    method WriteStdout(made: bool, w: Write)
      requires Valid()
      modifies this`status, fr
      ensures Valid() && Abs() == old(Abs()).AfterStdout(made, w) && old(fr.given) <= fr.given
    {
      if status == Running && made && fr.iptr - fr.optr > 0 {
        match w
        case Wrote(n) => fr.Drain(Min(n, fr.iptr - fr.optr));
        case NoRoom =>
        case WriteError => status := Fatal;
      }
    }

    method WriteSocket(made: bool, w: Write)
      requires Valid()
      modifies this, to
      ensures Valid() && Abs() == old(Abs()).AfterSockOut(made, w) && old(to.given) <= to.given
    {
      if status == Running && made && to.iptr - to.optr > 0 {
        match w
        case Wrote(n) =>
          to.Drain(Min(n, to.iptr - to.optr));
          if to.optr == to.iptr && stdineof {
            fins := fins + 1;
          }
        case NoRoom =>
        case WriteError => status := Fatal;
      }
    }

    /** The two reads of a pass; says whether they make the writes worth trying. */
    method Reads(p: Pass) returns (gotStdin: bool, gotSock: bool)
      requires Valid() && status == Running
      modifies this, to, fr, to.buf, fr.buf
      ensures Valid() && to.given == old(to.given) && fr.given == old(fr.given)
      ensures Abs() == old(Abs()).AfterStdin(p).AfterSocket(p)
      ensures gotStdin == (old(Abs()).ReadsStdin(p) && p.stdin.Bytes?)
      ensures gotSock == (old(Abs()).AfterStdin(p).ReadsSocket(p) && p.sockIn.Bytes?)
    {
      var askSock := fr.iptr < MAXLINE;
      gotStdin, gotSock := false, false;
      if !stdineof && to.iptr < MAXLINE && p.stdinReady {
        ReadStdin(p.stdin);
        gotStdin := p.stdin.Bytes?;
      }
      if status == Running && askSock && p.sockReadable {
        ReadSocket(p.sockIn);
        gotSock := p.sockIn.Bytes?;
      }
    }

    /** One pass of the loop. */
    method Step(p: Pass)
      requires Valid() && status == Running
      modifies this, to, fr, to.buf, fr.buf
      ensures Valid() && Abs() == old(Abs()).Passed(p)
      ensures old(to.given) <= to.given && old(fr.given) <= fr.given
    {
      var tryOut := fr.optr != fr.iptr && p.stdoutWritable;
      var trySock := to.optr != to.iptr && p.sockWritable;
      var gotStdin, gotSock := Reads(p);
      WriteStdout(tryOut || gotSock, p.stdout);
      WriteSocket(trySock || gotStdin, p.sockOut);
    }

    /** Every pattern of partial reads and writes: what was read and what has been written follow from the
        passes; what is written is a prefix of what was read, both ways; the FIN goes out at most once,
        exactly when the input has ended and all of it is written. */
    method Run(passes: seq<Pass>)
      requires Valid() && Abs() == BEGIN
      modifies this, to, fr, to.buf, fr.buf
      ensures Valid() && Abs() == PassedAll(passes)
      ensures to.given <= to.taken && fr.given <= fr.taken && fins <= 1
      ensures fins == 1 <==> stdineof && to.given == to.taken
      ensures forall k :: 0 <= k <= |passes| && Flushing(passes, k) ==> fins == 1 && to.given == to.taken
    {
      forall k | 0 <= k <= |passes| && Flushing(passes, k)
        ensures PassedAll(passes).eof && PassedAll(passes).to.Pending() == 0
      {
        InputFlushed(passes, k);
      }
      for i := 0 to |passes|
        invariant Valid() && Abs() == PassedAll(passes[..i])
      {
        assert passes[..i + 1][..i] == passes[..i];
        if status == Running {
          Step(passes[i]);
        }
      }
      assert passes[..|passes|] == passes;
    }
  }

  // ---------- what the passes decide ----------

  /** A flow that a buffer of MAXLINE characters can carry. */
  predicate Fits(w: Flow) {
    0 <= w.given <= |w.taken| && w.Pending() <= MAXLINE - w.room && 0 <= w.room <= MAXLINE
  }

  predicate Sane(s: State) {
    Fits(s.to) && Fits(s.fr) && (s.status == Returned ==> s.eof)
  }

  lemma ReadsStaySane(s: State, p: Pass)
    requires Sane(s)
    ensures Sane(s.AfterStdin(p)) && Sane(s.AfterSocket(p))
  {
  }

  lemma WritesStaySane(s: State, made: bool, w: Write)
    requires Sane(s)
    ensures Sane(s.AfterStdout(made, w)) && Sane(s.AfterSockOut(made, w))
  {
  }

  lemma PassStaysSane(s: State, p: Pass)
    requires Sane(s)
    ensures Sane(s.Passed(p))
  {
    var one := s.AfterStdin(p);
    var two := one.AfterSocket(p);
    var out := (s.fr.Pending() != 0 && p.stdoutWritable) || (one.ReadsSocket(p) && p.sockIn.Bytes?);
    var sock := (s.to.Pending() != 0 && p.sockWritable) || (s.ReadsStdin(p) && p.stdin.Bytes?);
    ReadsStaySane(s, p);
    ReadsStaySane(one, p);
    WritesStaySane(two, out, p.stdout);
    WritesStaySane(two.AfterStdout(out, p.stdout), sock, p.sockOut);
  }

  /** At every point no more than a buffer of bytes is held back either way, and the loop ends normally only
      after the end of the input. */
  lemma {:induction false} BoundedDelay(passes: seq<Pass>)
    ensures Sane(PassedAll(passes))
  {
    if passes != [] {
      BoundedDelay(passes[..|passes| - 1]);
      PassStaysSane(PassedAll(passes[..|passes| - 1]), passes[|passes| - 1]);
    }
  }

  /** The bytes that one read hands over. */
  function Chunk(made: bool, room: int, r: Read): string {
    if made && room > 0 && r.Bytes? then r.data[..Min(|r.data|, room)] else ""
  }

  /** The bytes that the reads of standard input and of the socket hand over, in order. */
  function Supplied(passes: seq<Pass>): (string, string) {
    if passes == [] then ("", "")
    else
      var before, p := passes[..|passes| - 1], passes[|passes| - 1];
      var (stdin, sock) := Supplied(before);
      var s := PassedAll(before);
      (stdin + Chunk(s.status == Running && StdinRead(s, p), s.to.room, p.stdin),
       sock + Chunk(s.status == Running && SocketRead(s, p), s.fr.room, p.sockIn))
  }

  /** What counts as taken is what the reads handed over. */
  lemma {:induction false} TakenIsSupplied(passes: seq<Pass>)
    ensures (PassedAll(passes).to.taken, PassedAll(passes).fr.taken) == Supplied(passes)
  {
    if passes != [] {
      TakenIsSupplied(passes[..|passes| - 1]);
      var s := PassedAll(passes[..|passes| - 1]);
      if s.status == Running {
        PassReads(s, passes[|passes| - 1]);
      } else {
        assert s.to.taken + "" == s.to.taken && s.fr.taken + "" == s.fr.taken;
      }
    }
  }

  // ---------- one pass exactly ----------

  /** The pass reads standard input: `select` was asked for it and reports it. */
  predicate StdinRead(s: State, p: Pass) {
    !s.eof && s.to.room > 0 && p.stdinReady
  }

  predicate StdinFails(s: State, p: Pass) {
    StdinRead(s, p) && p.stdin.ReadError?
  }

  predicate SocketRead(s: State, p: Pass) {
    s.fr.room > 0 && p.sockReadable && !StdinFails(s, p)
  }

  predicate ReadsGoOn(s: State, p: Pass) {
    !StdinFails(s, p) && !(SocketRead(s, p) && (p.sockIn.Eof? || p.sockIn.ReadError?))
  }

  /** What a pass reads: as much of what is there as the buffer has room for. The input ends when a read says so. */
  lemma PassReads(s: State, p: Pass)
    requires s.status == Running
    ensures var t := s.Passed(p);
            && t.to.taken == s.to.taken + (if StdinRead(s, p) && p.stdin.Bytes?
                                           then p.stdin.data[..Min(|p.stdin.data|, s.to.room)] else "")
            && t.fr.taken == s.fr.taken + (if SocketRead(s, p) && p.sockIn.Bytes?
                                           then p.sockIn.data[..Min(|p.sockIn.data|, s.fr.room)] else "")
            && (t.eof <==> s.eof || (StdinRead(s, p) && p.stdin.Eof?))
  {
  }

  /** The write to standard output is tried: bytes were there and `select` reports room, or the pass read some. */
  predicate OutTried(s: State, p: Pass) {
    ReadsGoOn(s, p) && ((s.fr.Pending() > 0 && p.stdoutWritable) || (SocketRead(s, p) && p.sockIn.Bytes?))
  }

  predicate OutFails(s: State, p: Pass, pending: int) {
    OutTried(s, p) && pending > 0 && p.stdout.WriteError?
  }

  predicate SockTried(s: State, p: Pass, pending: int) {
    && ReadsGoOn(s, p) && !OutFails(s, p, pending)
    && ((s.to.Pending() > 0 && p.sockWritable) || (StdinRead(s, p) && p.stdin.Bytes?))
  }

  /** One direction of a pass: what was pending with what was read, of which `n` bytes are written if a write is tried
      and succeeds, and none otherwise. The buffer starts again exactly if that empties it. */
  predicate Wrote(w: Flow, w': Flow, tried: bool, result: Write) {
    var pending := |w'.taken| - w.given;
    var n := if tried && result.Wrote? then Min(result.n, pending) else 0;
    && w'.given == w.given + n
    && w'.room == if 0 < n == pending then MAXLINE else w.room - (|w'.taken| - |w.taken|)
  }

  lemma PassWritesOut(s: State, p: Pass)
    requires s.status == Running && Fits(s.fr)
    ensures Wrote(s.fr, s.Passed(p).fr, OutTried(s, p), p.stdout)
  {
  }

  lemma PassWritesSock(s: State, p: Pass)
    requires s.status == Running && Fits(s.to) && Fits(s.fr)
    ensures Wrote(s.to, s.Passed(p).to, SockTried(s, p, |s.Passed(p).fr.taken| - s.fr.given), p.sockOut)
  {
    PassReads(s, p);
    var one := s.AfterStdin(p);
    var two := one.AfterSocket(p);
    assert two.status == Running <==> ReadsGoOn(s, p);
    assert two.to == one.to && two.to.given == s.to.given && two.fr.given == s.fr.given;
  }

  /** The pass ends the program exactly if a call fails or the socket's data ends, and normally only if that comes
      after the end of the input. A program that has ended does nothing more. */
  lemma PassEnds(s: State, p: Pass)
    requires Sane(s)
    ensures var t := s.Passed(p);
            var out, sock := |t.fr.taken| - s.fr.given, |t.to.taken| - s.to.given;
            && (s.status != Running ==> t == s)
            && (s.status == Running ==>
                  && (t.status == Running <==>
                        && ReadsGoOn(s, p) && !OutFails(s, p, out)
                        && !(SockTried(s, p, out) && sock > 0 && p.sockOut.WriteError?))
                  && (t.status == Returned <==> SocketRead(s, p) && p.sockIn.Eof? && t.eof))
  {
  }

  // ---------- the end of the input ----------

  /** `select` reports room in the socket, the write takes something, and nothing fails or ends. */
  predicate Helpful(p: Pass) {
    && p.sockWritable && p.sockOut.Wrote? && p.sockOut.n > 0
    && !p.stdout.WriteError? && (p.sockReadable ==> !p.sockIn.Eof? && !p.sockIn.ReadError?)
  }

  /** The input has ended after `k` passes, and the rest of the passes are as many helpful ones as bytes are left. */
  predicate Flushing(passes: seq<Pass>, k: nat)
    requires k <= |passes|
  {
    var s := PassedAll(passes[..k]);
    && s.status == Running && s.eof && s.to.Pending() <= |passes| - k
    && forall i :: k <= i < |passes| ==> Helpful(passes[i])
  }

  lemma HelpfulPass(s: State, p: Pass)
    requires Sane(s) && s.status == Running && s.eof && Helpful(p)
    ensures var t := s.Passed(p);
            && t.status == Running && t.eof
            && (s.to.Pending() > 0 ==> t.to.Pending() < s.to.Pending())
            && (s.to.Pending() == 0 ==> t.to.Pending() == 0)
  {
    PassReads(s, p);
    PassWritesSock(s, p);
    PassEnds(s, p);
  }

  lemma {:induction false} FewerAndFewer(passes: seq<Pass>, k: nat, j: nat)
    requires k <= j <= |passes| && PassedAll(passes[..k]).status == Running && PassedAll(passes[..k]).eof
    requires forall i :: k <= i < j ==> Helpful(passes[i])
    ensures var s, t := PassedAll(passes[..k]), PassedAll(passes[..j]);
            && t.status == Running && t.eof && t.to.Pending() >= 0
            && (t.to.Pending() == 0 || t.to.Pending() + (j - k) <= s.to.Pending())
    decreases j
  {
    BoundedDelay(passes[..j]);
    if j > k {
      FewerAndFewer(passes, k, j - 1);
      BoundedDelay(passes[..j - 1]);
      assert passes[..j][..j - 1] == passes[..j - 1];
      HelpfulPass(PassedAll(passes[..j - 1]), passes[j - 1]);
    }
  }

  /** After the end of the input, that many helpful passes write all of it. */
  lemma InputFlushed(passes: seq<Pass>, k: nat)
    requires k <= |passes| && Flushing(passes, k)
    ensures var s := PassedAll(passes); s.status == Running && s.eof && s.to.Pending() == 0
  {
    FewerAndFewer(passes, k, |passes|);
    assert passes[..|passes|] == passes;
  }
}

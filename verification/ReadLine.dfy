/** The buffered line reader of `readline.c`: however `read` splits the stream, the lines come out the same. */
module ReadLine {
  const MAXLINE := 4096

  /** How the kernel answers the next `read`: with up to `n` bytes, EINTR, or another error. */
  datatype Answer = Chunk(n: nat) | Interrupted | Broken

  /** The descriptor. A `read` returns 0 only at the end of the stream. */
  class Stream {
    var unread: string
    var script: seq<Answer>

    constructor (bytes: string, answers: seq<Answer>)
      ensures unread == bytes && script == answers
    {
      unread, script := bytes, answers;
    }

    method Read(buf: array<char>) returns (n: int, interrupted: bool)
      requires buf.Length > 0
      modifies this, buf
      ensures n >= 0 ==> n <= buf.Length && n <= |old(unread)|
      ensures n >= 0 ==> buf[..n] == old(unread)[..n] && unread == old(unread)[n..]
      ensures n == 0 ==> old(unread) == ""
      ensures n < 0 ==> unread == old(unread)
      ensures |script| <= |old(script)| && (n < 0 ==> |script| < |old(script)|)
      ensures n < 0 && !interrupted ==> Broken in old(script)
      ensures Broken !in old(script) ==> Broken !in script
    {
      interrupted := false;
      var want := buf.Length;
      if script != [] {
        var a := script[0];
        script := script[1..];
        if !a.Chunk? {
          return -1, a.Interrupted?;
        }
        want := if a.n == 0 then 1 else a.n;
      }
      n := if want < buf.Length then want else buf.Length;
      n := if n < |unread| then n else |unread|;
      forall k | 0 <= k < n {
        buf[k] := unread[k];
      }
      assert buf[..n] == unread[..n];
      unread := unread[n..];
    }
  }

  /** The text up to and including the first newline, but no more than `k` characters. */
  function Line(s: string, k: nat): (l: string)
    ensures |l| <= k && |l| <= |s| && l == s[..|l|]
  {
    if k == 0 || s == "" then "" else if s[0] == '\n' then "\n" else [s[0]] + Line(s[1..], k - 1)
  }

  predicate Whole(l: string) {
    l != "" && l[|l| - 1] == '\n'
  }

  function Room(maxlen: nat): nat {
    if maxlen == 0 then 0 else maxlen - 1
  }

  /** `readline` returns the number of characters stored, or one more if it had to stop for lack of room. */
  function Returned(l: string, maxlen: nat): nat {
    if |l| + 1 >= maxlen && !Whole(l) then |l| + 1 else |l|
  }

  class Reader {
    const fd: Stream
    const buf: array<char>
    var cnt: int
    var ptr: int

    ghost predicate Valid()
      reads this
    {
      buf.Length == MAXLINE && cnt <= MAXLINE && (cnt > 0 ==> 0 <= ptr && ptr + cnt <= MAXLINE)
    }

    /** What has not been delivered: buffered bytes, then unread ones. */
    ghost function Pending(): string
      reads this, buf, fd
      requires Valid()
    {
      (if cnt > 0 then buf[ptr..ptr + cnt] else "") + fd.unread
    }

    constructor (stream: Stream)
      ensures Valid() && fd == stream && Pending() == stream.unread && fresh(buf)
    {
      fd := stream;
      buf := new char[MAXLINE](_ => ' ');
      cnt, ptr := 0, 0;
    }

    /** `my_read` */
    method MyRead() returns (rc: int, c: char)
      requires Valid()
      modifies this, buf, fd
      ensures Valid()
      ensures rc == 1 ==> old(Pending()) != "" && c == old(Pending())[0] && Pending() == old(Pending())[1..]
      ensures rc == 0 ==> old(Pending()) == "" && Pending() == ""
      ensures rc == -1 ==> Pending() == old(Pending()) && Broken in old(fd.script)
      ensures rc == 1 || rc == 0 || rc == -1
      ensures Broken !in old(fd.script) ==> Broken !in fd.script
    {
      c := ' ';
      if cnt <= 0 {
        rc := Refill();
        if rc != 1 {
          return;
        }
      }
      rc, cnt, c := 1, cnt - 1, buf[ptr];
      ptr := ptr + 1;
    }

    /** The `again:` loop. */
    method Refill() returns (rc: int)
      requires Valid() && cnt <= 0
      modifies this, buf, fd
      ensures Valid() && Pending() == old(Pending())
      ensures rc == 1 ==> cnt > 0
      ensures rc == 0 ==> Pending() == ""
      ensures rc == -1 ==> Broken in old(fd.script)
      ensures rc == 1 || rc == 0 || rc == -1
      ensures Broken !in old(fd.script) ==> Broken !in fd.script
    {
      var again := true;
      rc := 0;
      while again
        invariant Valid() && Pending() == old(Pending())
        invariant again ==> cnt <= 0
        invariant !again ==>
                    (rc == 1 && cnt > 0) || (rc == 0 && Pending() == "") || (rc == -1 && Broken in old(fd.script))
        invariant Broken !in old(fd.script) ==> Broken !in fd.script
        decreases again, |fd.script|
      {
        var n, interrupted := fd.Read(buf);
        cnt := n;
        if n < 0 {
          again := interrupted;
          rc := -1;
        } else {
          again := false;
          ptr := 0;
          rc := if n == 0 then 0 else 1;
        }
      }
    }

    /** `line` holds the first characters of `all`, none a newline, and the rest is pending. */
    ghost predicate Midway(all: string, line: string)
      reads this, buf, fd
    {
      Valid() && NoNewline(all, |line|) && line == all[..|line|] && Pending() == all[|line|..]
    }

    /** One round of the loop of `readline`: the next character, if there is one. A newline or the end of the
        stream completes the line. */
    method NextChar(ghost all: string, line: string, ghost room: nat) returns (rc: int, line': string)
      requires Midway(all, line) && |line| < room
      modifies this, buf, fd
      ensures Valid() && |line'| <= |all| && line' == all[..|line'|] && Pending() == all[|line'|..]
      ensures rc == 1 ==> |line'| == |line| + 1
      ensures rc == 1 ==> if line'[|line|] == '\n' then line' == Line(all, room) else Midway(all, line')
      ensures rc == 0 ==> line' == line && line == Line(all, room)
      ensures rc == -1 ==> line' == line && Broken in old(fd.script)
      ensures rc == 1 || rc == 0 || rc == -1
      ensures Broken !in old(fd.script) ==> Broken !in fd.script
    {
      var c;
      LineEnds(all, |line|, room);
      rc, c := MyRead();
      line' := line;
      if rc == 1 {
        line' := line + [c];
        assert line' == all[..|line'|] && all[|line|..][1..] == all[|line'|..];
      }
    }

    /** `readline`: without an error other than EINTR, the line and the return value depend on the pending
        bytes and `maxlen` alone. On an error the characters already stored are gone from the stream. */
    method Readline(maxlen: nat) returns (ret: int, line: string)
      requires Valid()
      modifies this, buf, fd
      ensures Valid() && |line| <= |old(Pending())| && line == old(Pending())[..|line|]
      ensures Pending() == old(Pending())[|line|..]
      ensures ret == -1 ==> Broken in old(fd.script)
      ensures ret != -1 ==> line == Line(old(Pending()), Room(maxlen)) && ret == Returned(line, maxlen)
      ensures Broken !in old(fd.script) ==> Broken !in fd.script
    {
      ghost var all := Pending();
      line := "";
      var n := 1;
      while n < maxlen
        invariant n == |line| + 1 && |line| <= Room(maxlen) && Midway(all, line)
        invariant Broken !in old(fd.script) ==> Broken !in fd.script
      {
        var rc;
        rc, line := NextChar(all, line, Room(maxlen));
        if rc == 1 {
          if line[n - 1] == '\n' {
            return n, line;
          }
        } else if rc == 0 {
          return n - 1, line;
        } else {
          return -1, line;
        }
        n := n + 1;
      }
      LineEnds(all, |line|, Room(maxlen));
      return n, line;
    }
  }

  /** No newline among the first `n` characters. */
  ghost predicate NoNewline(s: string, n: nat) {
    n <= |s| && forall i :: 0 <= i < n ==> s[i] != '\n'
  }

  /** Where a line ends: at the limit, at the end of the text, or with the first newline. */
  lemma {:induction false} LineEnds(s: string, n: nat, k: nat)
    requires NoNewline(s, n) && n <= k
    ensures n == k || n == |s| ==> Line(s, k) == s[..n]
    ensures n < k && n < |s| && s[n] == '\n' ==> Line(s, k) == s[..n + 1]
  {
    if n > 0 {
      LineEnds(s[1..], n - 1, k - 1);
      assert [s[0]] + s[1..][..n - 1] == s[..n];
      assert n < |s| ==> [s[0]] + s[1..][..n] == s[..n + 1];
    }
  }

  /** What `readline` makes of the pending bytes `s`, of which the first `n` are no newlines. A newline behind them that
      fits into `maxlen - 1` characters ends the line, and the result is its length. So does the end of the stream
      if there was room for more. Else the line has `maxlen - 1` characters and the result is one more. */
  lemma LineAndResult(s: string, n: nat, maxlen: nat)
    requires NoNewline(s, n)
    ensures var l := Line(s, Room(maxlen));
            && (n < |s| && s[n] == '\n' && n + 1 < maxlen ==> l == s[..n + 1] && Returned(l, maxlen) == n + 1)
            && (n == |s| && n + 1 < maxlen ==> l == s && Returned(l, maxlen) == n)
            && (n == (if maxlen == 0 then 0 else maxlen - 1) ==> l == s[..n] && Returned(l, maxlen) == n + 1)
  {
    if n <= Room(maxlen) {
      LineEnds(s, n, Room(maxlen));
    }
  }

  /** The result is 0 at the end of the stream with room for a character, and never else. */
  lemma ZeroAtTheEnd(s: string, maxlen: nat)
    ensures Returned(Line(s, Room(maxlen)), maxlen) == 0 <==> s == "" && 1 < maxlen
  {
  }

  // ---------- the whole stream ----------

  /** The first `n` lines of a text and what follows them. */
  function Lines(s: string, maxlen: nat, n: nat): (seq<string>, string)
    decreases n
  {
    if n == 0 then ([], s)
    else
      var (ls, rest) := Lines(s, maxlen, n - 1);
      var l := Line(rest, Room(maxlen));
      (ls + [l], rest[|l|..])
  }

  function Joined(ls: seq<string>): string {
    if ls == [] then "" else Joined(ls[..|ls| - 1]) + ls[|ls| - 1]
  }

  /** Delivered and pending bytes together are always the stream. */
  lemma {:induction false} NothingLost(s: string, maxlen: nat, n: nat)
    ensures Joined(Lines(s, maxlen, n).0) + Lines(s, maxlen, n).1 == s
  {
    if n > 0 {
      NothingLost(s, maxlen, n - 1);
      var (ls, rest) := Lines(s, maxlen, n - 1);
      var l := Line(rest, Room(maxlen));
      assert Lines(s, maxlen, n) == (ls + [l], rest[|l|..]);
      assert l + rest[|l|..] == rest;
    }
  }

  /** Reading `n` lines from a stream that does not fail gives lines that depend on its bytes alone, not on
      how `read` hands them out. */
  method ReadLines(r: Reader, maxlen: nat, n: nat) returns (ls: seq<string>)
    requires r.Valid() && Broken !in r.fd.script
    modifies r, r.buf, r.fd
    ensures r.Valid() && (ls, r.Pending()) == Lines(old(r.Pending()), maxlen, n)
  {
    ls := [];
    for i := 0 to n
      invariant r.Valid() && Broken !in r.fd.script && (ls, r.Pending()) == Lines(old(r.Pending()), maxlen, i)
    {
      var ret, l := r.Readline(maxlen);
      ls := ls + [l];
    }
  }
}

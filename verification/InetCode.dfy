/** `inet_ntop.c` and `inet_pton.c` as they work: loops over characters and words, a text buffer written
    through an index, and the tail of the address shifted in place. */
module InetCode {
  import opened Basics
  import opened InetText

  // ---------- inet_ntop.c ----------

  /** One character, and the pointer moved on. */
  method PutChar(buf: array<char>, at: nat, c: char) returns (end: nat)
    requires at < buf.Length
    modifies buf
    ensures end == at + 1 && buf[..end] == old(buf[..at]) + [c]
  {
    buf[at] := c;
    return at + 1;
  }

  /** The characters of a text. */
  method PutText(buf: array<char>, at: nat, s: string)
    requires at + |s| <= buf.Length
    modifies buf
    ensures buf[..at + |s|] == old(buf[..at]) + s && buf[at + |s|..] == old(buf[at + |s|..])
  {
    for i := 0 to |s|
      invariant buf[..at + i] == old(buf[..at]) + s[..i]
      invariant buf[at + i..] == old(buf[at + i..])
    {
      buf[at + i] := s[i];
      assert s[..i + 1] == s[..i] + [s[i]];
      assert buf[at + i + 1..] == buf[at + i..][1..];
    }
    assert s[..|s|] == s;
  }

  /** `sprintf` or `strcpy` to a place in a buffer: the text and its NUL. */
  method PutString(buf: array<char>, at: nat, s: string) returns (end: nat)
    requires at + |s| < buf.Length
    modifies buf
    ensures end == at + |s| && buf[..end] == old(buf[..at]) + s && buf[end] == '\0'
    ensures buf[end + 1..] == old(buf[end + 1..])
  {
    PutText(buf, at, s);
    end := at + |s|;
    ghost var text, rest := buf[..end], buf[end..];
    buf[end] := '\0';
    assert buf[..end] == text && buf[end + 1..] == rest[1..];
  }

  lemma {:induction false} HexLength(w: nat)
    requires w < 0x1_0000
    ensures |Hex(w)| <= if w < 0x10 then 1 else if w < 0x100 then 2 else if w < 0x1000 then 3 else 4
  {
    if w >= 16 {
      HexLength(w / 16);
    }
  }

  lemma {:induction false} DecLength(w: nat)
    requires w < 1000
    ensures |Dec(w)| <= if w < 10 then 1 else if w < 100 then 2 else 3
  {
    if w >= 10 {
      DecLength(w / 10);
    }
  }

  lemma QuadLength(b: seq<Byte>)
    requires |b| == 4
    ensures |Quad(b)| <= 15
  {
    DecLength(b[0]);
    DecLength(b[1]);
    DecLength(b[2]);
    DecLength(b[3]);
  }

  /** What `inet_ntop4` does with the room it is given. */
  datatype Printed = Refused | Stored | NoRoomForNul

  /** The test of `inet_ntop4` does not count the NUL. */
  function Room4(src: seq<Byte>, size: nat): Printed
    requires |src| == 4
  {
    if |Quad(src)| > size then Refused else if |Quad(src)| < size then Stored else NoRoomForNul
  }

  /** `inet_ntop4` into the `size` characters of `dst` from `at` on. It refuses if the text is longer than `size`.
      If the text is exactly that long it is accepted, although its NUL would be the next character. */
  method InetNtop4(src: seq<Byte>, dst: array<char>, at: nat, size: nat) returns (done: Printed)
    requires |src| == 4 && at + size <= dst.Length
    modifies dst
    ensures done == Room4(src, size)
    ensures done == Refused ==> dst[..] == old(dst[..])
    ensures done != Refused ==>
              dst[..at + |Quad(src)|] == old(dst[..at]) + Quad(src) && dst[at + size..] == old(dst[at + size..])
    ensures done == Stored ==> dst[at + |Quad(src)|] == '\0'
  {
    var tmp := new char[16];
    QuadLength(src);
    var tp := PutString(tmp, 0, Dec(src[0]) + "." + Dec(src[1]) + "." + Dec(src[2]) + "." + Dec(src[3]));
    assert tmp[..tp] == [] + Quad(src) == Quad(src);
    ghost var behind := dst[at + size..];
    if tp > size {
      return Refused;
    } else if tp == size {
      PutText(dst, at, tmp[..tp]);
      return NoRoomForNul;
    }
    var end := PutString(dst, at, tmp[..tp]);
    assert dst[at + size..] == dst[end + 1..][size - tp - 1..] == behind;
    return Stored;
  }

  /** The copy of the byte array into words. Each byte goes where its word is still zero, so `|=` adds. */
  method CopyWords(src: seq<Byte>) returns (words: seq<Word>)
    requires |src| == 16
    ensures words == Words(src)
  {
    var w := new Word[8](_ => 0);
    for i := 0 to 16
      invariant forall k :: 0 <= k < i / 2 ==> w[k] == Join(src[2 * k], src[2 * k + 1])
      invariant i % 2 == 1 ==> w[i / 2] == Join(src[i - 1], 0)
      invariant forall k :: (i + 1) / 2 <= k < 8 ==> w[k] == 0
    {
      w[i / 2] := w[i / 2] as int + (if i % 2 == 0 then Join(src[i], 0) else src[i]);
    }
    forall k | 0 <= k < 8
      ensures w[k] == Words(src)[k]
    {
      WordAt(src, k);
    }
    words := w[..];
  }

  /** `r` is the leftmost of the longest zero runs that end at `lim` or before. */
  ghost predicate Leads(ws: seq<Word>, r: Run, lim: int) {
    && (r.base != -1 ==> ZeroRun(ws, r.base, r.len) && r.base + r.len <= lim)
    && forall b, l :: ZeroRun(ws, b, l) && b + l <= lim ==>
         r.base != -1 && (l < r.len || (l == r.len && r.base <= b))
  }

  /** `r` is the zero run that ends at `i` and cannot be made longer to the left. */
  ghost predicate Open(ws: seq<Word>, r: Run, i: int) {
    if r.base == -1 then i == 0 || (0 < i <= |ws| && ws[i - 1] != 0)
    else ZeroRun(ws, r.base, r.len) && r.base + r.len == i && (r.base == 0 || ws[r.base - 1] != 0)
  }

  /** The search for the longest run, both loops of `best` and `cur`. */
  method FindRun(ws: seq<Word>) returns (best: Run)
    requires |ws| == 8
    ensures Best(ws, best)
  {
    best := Run(-1, 0);
    var cur := Run(-1, 0);
    for i := 0 to 8
      invariant Open(ws, cur, i) && Leads(ws, best, if cur.base == -1 then i else cur.base)
    {
      if ws[i] == 0 {
        if cur.base == -1 {
          cur := Run(i, 1);
        } else {
          cur := Run(cur.base, cur.len + 1);
        }
      } else {
        if cur.base != -1 {
          if best.base == -1 || cur.len > best.len {
            best := cur;
          }
          cur := Run(-1, 0);
        }
        assert forall b, l :: ZeroRun(ws, b, l) && b + l == i + 1 ==> ws[i] == 0;
      }
    }
    if cur.base != -1 {
      if best.base == -1 || cur.len > best.len {
        best := cur;
      }
    }
    if best.base != -1 && best.len < 2 {
      best := Run(-1, best.len);
    }
  }

  /** `inet_ntop6`: the text of the address with its best run compressed, if it fits with its NUL. */
  method InetNtop6(src: seq<Byte>, dst: array<char>, size: nat) returns (ok: bool, best: Run)
    requires |src| == 16 && size <= dst.Length
    modifies dst
    ensures Best(Words(src), best)
    ensures ok <==> |Print6(src, best)| + 1 <= size
    ensures !ok ==> dst[..] == old(dst[..])
    ensures var n := |Print6(src, best)|;
            ok ==> dst[..n] == Print6(src, best) && dst[n] == '\0' && dst[n + 1..] == old(dst[n + 1..])
  {
    var words := CopyWords(src);
    best := FindRun(words);
    var tmp := new char[46];
    var tp := Format(src, words, best, tmp);
    ghost var text := tmp[..tp];
    tmp[tp] := '\0';
    assert tmp[..tp] == text;
    if tp + 1 > size {
      return false, best;
    }
    var end := PutString(dst, 0, tmp[..tp]);
    assert dst[..end] == [] + text == text;
    return true, best;
  }

  lemma TailBytes(b: seq<Byte>)
    requires |b| == 16
    ensures Bytes(Words(b)[6..]) == b[12..]
  {
  }

  /** How far the text can have got before word `i`. */
  function Reach(ws: seq<Word>, r: Run, i: nat): nat
    requires |ws| == 8
  {
    if Embeds4(ws, r) && 0 < i <= 6 then (if i <= r.len then 1 else 6) else 5 * i
  }

  /** The formatting loop. The buffer of 46 characters is never exceeded, NULs included. */
  method Format(src: seq<Byte>, words: seq<Word>, best: Run, tmp: array<char>) returns (tp: nat)
    requires |src| == 16 && words == Words(src) && tmp.Length == 46 && Best(words, best)
    modifies tmp
    ensures tp < 46 && tmp[..tp] == Emit(words, best, 0)
  {
    tp := 0;
    var i := 0;
    while i < 8
      invariant 0 <= i <= 8 && tp <= Reach(words, best, i)
      invariant tmp[..tp] + Emit(words, best, i) == Emit(words, best, 0)
    {
      var stop;
      tp, stop := FormatWord(src, words, best, i, tmp, tp);
      if stop {
        return;
      }
      i := i + 1;
    }
    if best.base != -1 && best.base + best.len == 8 {
      tp := PutChar(tmp, tp, ':');
    }
  }

  /** One round of the loop; `stop` is its `break` after an embedded IPv4 address. */
  method FormatWord(src: seq<Byte>, words: seq<Word>, best: Run, i: nat, tmp: array<char>, at: nat)
      returns (tp: nat, stop: bool)
    requires |src| == 16 && words == Words(src) && tmp.Length == 46 && Best(words, best)
    requires i < 8 && at <= Reach(words, best, i)
    modifies tmp
    ensures stop ==> tp < 46 && tmp[..tp] == old(tmp[..at]) + Emit(words, best, i)
    ensures !stop ==> tp <= Reach(words, best, i + 1)
    ensures !stop ==> tmp[..tp] + Emit(words, best, i + 1) == old(tmp[..at]) + Emit(words, best, i)
  {
    tp, stop := at, false;
    if best.base != -1 && best.base <= i < best.base + best.len {
      RunText(tmp[..at], words, best, i);
      if i == best.base {
        tp := PutChar(tmp, at, ':');
      }
    } else if i == 6 && best.base == 0 && (best.len == 6 || (best.len == 5 && words[5] == 0xffff)) {
      TailBytes(src);
      QuadText(tmp[..at], words, best);
      tp := PutQuad(src[12..], tmp, at);
      stop := true;
    } else {
      HexText(tmp[..at], words, best, i);
      tp := PutHex(i, words[i], tmp, at);
    }
  }

  /** A colon unless this is the first word, then the word. */
  method PutHex(i: nat, w: Word, tmp: array<char>, at: nat) returns (tp: nat)
    requires tmp.Length == 46 && at <= 40
    modifies tmp
    ensures tp <= at + 4 + |Mark(i)| && tmp[..tp] == old(tmp[..at]) + Mark(i) + Hex(w)
  {
    tp := at;
    if i != 0 {
      tp := PutChar(tmp, tp, ':');
    }
    assert tmp[..tp] == old(tmp[..at]) + Mark(i);
    HexLength(w);
    tp := PutString(tmp, tp, Hex(w));
  }

  /** A colon, then the last four bytes in dotted form. */
  method PutQuad(b: seq<Byte>, tmp: array<char>, at: nat) returns (tp: nat)
    requires |b| == 4 && tmp.Length == 46 && at <= 6
    modifies tmp
    ensures tp < 46 && tmp[..tp] == old(tmp[..at]) + Mark(6) + Quad(b)
  {
    tp := PutChar(tmp, at, ':');
    QuadLength(b);
    var done := InetNtop4(b, tmp, tp, 46 - tp);
    tp := tp + |Quad(b)|;
  }

  function Mark(i: int): string {
    if i != 0 then ":" else ""
  }

  lemma RunText(done: string, ws: seq<Word>, r: Run, i: nat)
    requires |ws| == 8 && i < 8 && InRun(r, i)
    ensures done + Emit(ws, r, i) == (if i == r.base then done + ":" else done) + Emit(ws, r, i + 1)
  {
    var rest := Emit(ws, r, i + 1);
    if i == r.base {
      assert Emit(ws, r, i) == ":" + rest && done + (":" + rest) == done + ":" + rest;
    } else {
      assert Emit(ws, r, i) == "" + rest == rest;
    }
  }

  lemma QuadText(done: string, ws: seq<Word>, r: Run)
    requires |ws| == 8 && !InRun(r, 6) && Embeds4(ws, r)
    ensures done + Emit(ws, r, 6) == done + Mark(6) + Quad(Bytes(ws[6..]))
  {
  }

  lemma HexText(done: string, ws: seq<Word>, r: Run, i: nat)
    requires |ws| == 8 && i < 8 && !InRun(r, i) && !(i == 6 && Embeds4(ws, r))
    ensures done + Emit(ws, r, i) == done + Mark(i) + Hex(ws[i]) + Emit(ws, r, i + 1)
  {
  }

  // ---------- inet_pton.c ----------

  /** `inet_pton4` on the text from `from` on; `dst` is written only on success. */
  method InetPton4(src: string, from: nat, dst: array<Byte>, at: nat) returns (code: int)
    requires from <= |src| && at + 4 <= dst.Length
    modifies dst
    ensures code == if Parse4(src[from..]).Some? then 1 else 0
    ensures code == 1 ==> dst[..] == old(dst[..at]) + Parse4(src[from..]).value + old(dst[at + 4..])
    ensures code == 0 ==> dst[..] == old(dst[..])
  {
    var tmp := new Byte[4](_ => 0);
    var saw, octets, tp, i := false, 0, 0, from;
    while i < |src|
      invariant from <= i <= |src| && 0 <= tp <= 3 && octets == tp + (if saw then 1 else 0)
      invariant Scan4(src[i..], tmp[..tp], tmp[tp], saw) == Parse4(src[from..])
      invariant dst[..] == old(dst[..])
    {
      var ch := src[i];
      assert src[i..][1..] == src[i + 1..];
      if DecValue(ch) >= 0 {
        var new_ := tmp[tp] as int * 10 + DecValue(ch);
        if new_ > 255 {
          return 0;
        }
        tmp[tp] := new_;
        if !saw {
          octets := octets + 1;
          if octets > 4 {
            return 0;
          }
          saw := true;
        }
      } else if ch == '.' && saw {
        if octets == 4 {
          return 0;
        }
        tp := tp + 1;
        tmp[tp] := 0;
        saw := false;
        assert tmp[..tp] == tmp[..tp - 1] + [tmp[tp - 1]];
      } else {
        return 0;
      }
      i := i + 1;
    }
    if octets < 4 {
      return 0;
    }
    assert tmp[..] == tmp[..tp] + [tmp[tp]];
    ghost var was := dst[..];
    forall k | 0 <= k < 4 {
      dst[at + k] := tmp[k];
    }
    assert dst[..] == was[..at] + tmp[..] + was[at + 4..];
    return 1;
  }

  /** The shift by hand at the end of `inet_pton6`. */
  method ShiftTail(tmp: array<Byte>, colonp: nat, tp: nat)
    requires tmp.Length == 16 && colonp <= tp <= 16
    requires forall k :: tp <= k < 16 ==> tmp[k] == 0
    modifies tmp
    ensures Finish(old(tmp[..tp]), colonp) == Some(tmp[..])
  {
    var n, i := tp - colonp, 1;
    ghost var out, g := tmp[..tp], 16 - tp;
    while i <= n
      invariant 1 <= i <= n + 1
      invariant forall k :: 0 <= k < tp - (i - 1) ==> tmp[k] == out[k]
      invariant forall k :: tp - (i - 1) <= k < 16 - (i - 1) ==> tmp[k] == 0
      invariant forall k :: 16 - (i - 1) <= k < 16 ==> tmp[k] == if g == 0 then 0 else out[k - g]
    {
      tmp[16 - i] := tmp[colonp + n - i];
      tmp[colonp + n - i] := 0;
      i := i + 1;
    }
    if g == 0 {
      assert tmp[..] == out[..colonp] + Zeros(16 - colonp);
    } else {
      assert tmp[..] == out[..colonp] + Zeros(g) + out[colonp..];
    }
  }

  /** The two bytes of a group, high byte first, if there is room. */
  method PushWord(tmp: array<Byte>, tp: nat, val: Word) returns (ok: bool)
    requires tmp.Length == 16 && tp <= 16
    requires forall k :: tp <= k < 16 ==> tmp[k] == 0
    modifies tmp
    ensures ok <==> tp + 2 <= 16
    ensures ok ==> tmp[..tp + 2] == old(tmp[..tp]) + [val / 0x100, val % 0x100]
    ensures ok ==> forall k :: tp + 2 <= k < 16 ==> tmp[k] == 0
  {
    if tp + 2 > 16 {
      return false;
    }
    tmp[tp] := val / 0x100;
    tmp[tp + 1] := val % 0x100;
    return true;
  }

  /** `inet_pton6`; `dst` is written only on success. */
  method InetPton6(src: string, dst: array<Byte>) returns (code: int)
    requires dst.Length == 16
    modifies dst
    ensures code == if Parse6(src).Some? then 1 else 0
    ensures dst[..] == if code == 1 then Parse6(src).value else old(dst[..])
  {
    var tmp := new Byte[16](_ => 0);
    var ok, tp, colonp := ReadGroups(src, tmp);
    if !ok {
      return 0;
    }
    if colonp != -1 {
      ShiftTail(tmp, colonp, tp);
    } else if tp != 16 {
      return 0;
    }
    assert tmp[..16] == tmp[..];
    forall k | 0 <= k < 16 {
      dst[k] := tmp[k];
    }
    assert dst[..] == tmp[..];
    return 1;
  }

  /** The loop of `inet_pton6` and the last group after it: the bytes read and the place of `::`. */
  method ReadGroups(src: string, tmp: array<Byte>) returns (ok: bool, tp: nat, colonp: int)
    requires tmp.Length == 16 && forall k :: 0 <= k < 16 ==> tmp[k] == 0
    modifies tmp
    ensures !ok ==> Parse6(src) == None
    ensures ok ==> tp <= 16 && -1 <= colonp <= tp && (forall k :: tp <= k < 16 ==> tmp[k] == 0)
                   && Parse6(src) == Finish(tmp[..tp], colonp)
  {
    ok, tp, colonp := false, 0, -1;
    var i := 0;
    if src != "" && src[0] == ':' {
      i := 1;
      if |src| == 1 || src[1] != ':' {
        return;
      }
    }
    var curtok, saw, val: Word := i, false, 0;
    assert src[0..] == src && tmp[..0] == [];
    while i < |src|
      invariant 0 <= curtok <= i <= |src| && tp <= 16 && -1 <= colonp <= tp
      invariant forall k :: tp <= k < 16 ==> tmp[k] == 0
      invariant Scan6(src[i..], tmp[..tp], colonp, saw, val, src[curtok..]) == Parse6(src)
    {
      var ch := src[i];
      assert src[i..][1..] == src[i + 1..];
      i := i + 1;
      if HexValue(ch) >= 0 {
        var val' := val as int * 16 + HexValue(ch);
        if val' > 0xffff {
          return;
        }
        val, saw := val', true;
      } else if ch == ':' {
        curtok := i;
        if !saw {
          if colonp != -1 {
            return;
          }
          colonp := tp;
        } else {
          var pushed := PushWord(tmp, tp, val);
          if !pushed {
            return;
          }
          tp, saw, val := tp + 2, false, 0;
        }
      } else if ch == '.' && tp + 4 <= 16 {
        ghost var was := tmp[..];
        var code := InetPton4(src, curtok, tmp, tp);
        if code <= 0 {
          return;
        }
        tp := tp + 4;
        assert tmp[..tp] == was[..tp - 4] + Parse4(src[curtok..]).value;
        ok := true;
        return;
      } else {
        return;
      }
    }
    if saw {
      var pushed := PushWord(tmp, tp, val);
      if !pushed {
        return;
      }
      tp := tp + 2;
    }
    ok := true;
  }
}

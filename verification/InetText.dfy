/** Text form of IPv4 and IPv6 addresses as printed by `inet_ntop.c` and read by `inet_pton.c`
    (section 2.2 of RFC 4291), as functions on strings. A C string is the characters before its NUL. */
module InetText {
  import opened Basics

  // ---------- digits ----------

  /** Position in "0123456789abcdef" or in "0123456789ABCDEF", or -1. */
  function HexValue(c: char): (d: int)
    ensures -1 <= d < 16
  {
    if '0' <= c <= '9' then c as int - '0' as int
    else if 'a' <= c <= 'f' then c as int - 'a' as int + 10
    else if 'A' <= c <= 'F' then c as int - 'A' as int + 10
    else -1
  }

  function DecValue(c: char): (d: int)
    ensures -1 <= d < 10
  {
    if '0' <= c <= '9' then c as int - '0' as int else -1
  }

  function HexDigit(d: int): (c: char)
    requires 0 <= d < 16
    ensures HexValue(c) == d && (d < 10 ==> DecValue(c) == d)
  {
    if d < 10 then ('0' as int + d) as char else ('a' as int + d - 10) as char
  }

  const LOWER := "0123456789abcdef"
  const UPPER := "0123456789ABCDEF"

  /** The value of a digit is its place in one of the two digit strings. */
  lemma DigitPlaces(c: char, d: int)
    requires 0 <= d < 16
    ensures HexValue(c) == d <==> c == LOWER[d] || c == UPPER[d]
    ensures DecValue(c) == d <==> d < 10 && c == LOWER[d]
    ensures HexDigit(d) == LOWER[d]
  {
  }

  /** `%x` */
  function Hex(w: nat): (s: string)
    ensures |s| > 0 && HexValue(s[0]) >= 0
  {
    if w < 16 then [HexDigit(w)] else Hex(w / 16) + [HexDigit(w % 16)]
  }

  /** `%u` */
  function Dec(w: nat): (s: string)
    ensures |s| > 0
  {
    if w < 10 then [HexDigit(w)] else Dec(w / 10) + [HexDigit(w % 10)]
  }

  // ---------- dotted quads ----------

  function Quad(b: seq<Byte>): string
    requires |b| == 4
  {
    Dec(b[0]) + "." + Dec(b[1]) + "." + Dec(b[2]) + "." + Dec(b[3])
  }

  /** `inet_pton4` from some point of its loop: `done` octets are complete, `cur` is the one being read. */
  function Scan4(t: string, done: seq<Byte>, cur: Byte, saw: bool): (r: Option<seq<Byte>>)
    requires |done| <= 3
    ensures r.Some? ==> |r.value| == 4
    decreases |t|
  {
    if t == "" then
      if |done| + (if saw then 1 else 0) < 4 then None else Some(done + [cur])
    else if DecValue(t[0]) >= 0 then
      var new_ := cur * 10 + DecValue(t[0]);
      if new_ > 255 || (!saw && |done| + 1 > 4) then None else Scan4(t[1..], done, new_, true)
    else if t[0] == '.' && saw then
      if |done| + 1 == 4 then None else Scan4(t[1..], done + [cur], 0, false)
    else None
  }

  function Parse4(t: string): Option<seq<Byte>> {
    Scan4(t, [], 0, false)
  }

  lemma {:induction false} DecScanned(w: Byte, t: string, done: seq<Byte>)
    requires |done| <= 3
    ensures Scan4(Dec(w) + t, done, 0, false) == Scan4(t, done, w, true)
  {
    if w < 10 {
      assert (Dec(w) + t)[1..] == t;
    } else {
      var d := HexDigit(w % 10);
      assert Dec(w) + t == Dec(w / 10) + ([d] + t);
      DecScanned(w / 10, [d] + t, done);
      assert ([d] + t)[1..] == t;
    }
  }

  lemma DotScanned(t: string, done: seq<Byte>, cur: Byte)
    requires |done| < 3
    ensures Scan4("." + t, done, cur, true) == Scan4(t, done + [cur], 0, false)
  {
  }

  /** Reading the printed form of an IPv4 address gives the address back. */
  lemma QuadRoundTrip(b: seq<Byte>)
    requires |b| == 4
    ensures Parse4(Quad(b)) == Some(b)
  {
    var t3 := Dec(b[3]) + "";
    var t2 := Dec(b[2]) + ("." + t3);
    var t1 := Dec(b[1]) + ("." + t2);
    assert Quad(b) == Dec(b[0]) + ("." + t1);
    DecScanned(b[0], "." + t1, []);
    DotScanned(t1, [], b[0]);
    DecScanned(b[1], "." + t2, [] + [b[0]]);
    DotScanned(t2, [] + [b[0]], b[1]);
    DecScanned(b[2], "." + t3, [] + [b[0]] + [b[1]]);
    DotScanned(t3, [] + [b[0]] + [b[1]], b[2]);
    DecScanned(b[3], "", [] + [b[0]] + [b[1]] + [b[2]]);
    assert [] + [b[0]] + [b[1]] + [b[2]] + [b[3]] == b;
  }

  // ---------- words and bytes ----------

  function Bytes(ws: seq<Word>): (b: seq<Byte>)
    ensures |b| == 2 * |ws|
  {
    if ws == [] then [] else Bytes(ws[..|ws| - 1]) + [ws[|ws| - 1] / 0x100, ws[|ws| - 1] % 0x100]
  }

  function Join(hi: int, lo: int): Word
    requires 0 <= hi < 0x100 && 0 <= lo < 0x100
  {
    hi * 0x100 + lo
  }

  function Words(b: seq<Byte>): (ws: seq<Word>)
    requires |b| % 2 == 0
    ensures |ws| == |b| / 2
  {
    if b == [] then [] else Words(b[..|b| - 2]) + [Join(b[|b| - 2], b[|b| - 1])]
  }

  lemma {:induction false} WordAt(b: seq<Byte>, k: nat)
    requires |b| % 2 == 0 && 2 * k + 1 < |b|
    ensures Words(b)[k] == Join(b[2 * k], b[2 * k + 1])
  {
    if 2 * k + 2 < |b| {
      WordAt(b[..|b| - 2], k);
    }
  }

  lemma Halves(hi: Byte, lo: Byte)
    ensures Join(hi, lo) / 0x100 == hi && Join(hi, lo) % 0x100 == lo
  {
  }

  lemma {:induction false} BytesOfWords(b: seq<Byte>)
    requires |b| % 2 == 0
    ensures Bytes(Words(b)) == b
  {
    if b != [] {
      BytesOfWords(b[..|b| - 2]);
      Halves(b[|b| - 2], b[|b| - 1]);
      var ws := Words(b);
      assert ws[..|ws| - 1] == Words(b[..|b| - 2]);
      assert b == b[..|b| - 2] + [b[|b| - 2], b[|b| - 1]];
    }
  }

  lemma {:induction false} BytesConcat(a: seq<Word>, c: seq<Word>)
    ensures Bytes(a + c) == Bytes(a) + Bytes(c)
  {
    if c == [] {
      assert a + c == a;
    } else {
      BytesConcat(a, c[..|c| - 1]);
      assert (a + c)[..|a + c| - 1] == a + c[..|c| - 1];
    }
  }

  function Zeros(n: nat): (z: seq<Byte>)
    ensures |z| == n
  {
    seq(n, _ => 0)
  }

  lemma {:induction false} ZeroWords(ws: seq<Word>)
    requires forall i :: 0 <= i < |ws| ==> ws[i] == 0
    ensures Bytes(ws) == Zeros(2 * |ws|)
  {
    if ws != [] {
      ZeroWords(ws[..|ws| - 1]);
    }
  }

  // ---------- the parser ----------

  /** What the end of `inet_pton6` makes of the bytes read and of the place of `::` (-1 for none).
      With all sixteen bytes present there is nothing to shift, and clearing the source clears the tail. */
  function Finish(out: seq<Byte>, colon: int): Option<seq<Byte>>
    requires |out| <= 16 && -1 <= colon <= |out|
  {
    if colon == -1 then (if |out| == 16 then Some(out) else None)
    else if |out| == 16 then Some(out[..colon] + Zeros(16 - colon))
    else Some(out[..colon] + Zeros(16 - |out|) + out[colon..])
  }

  /** `inet_pton6` from some point of its loop; `tok` is the text from the last colon on. The result is the
      bytes read when the loop and the last group are done, and the place of `::`. */
  function Read6(t: string, out: seq<Byte>, colon: int, saw: bool, val: Word, tok: string)
    : (r: Option<(seq<Byte>, int)>)
    requires |out| <= 16 && -1 <= colon <= |out|
    ensures r.Some? ==> |out| <= |r.value.0| <= 16 && out <= r.value.0 && -1 <= r.value.1 <= |r.value.0|
    decreases |t|
  {
    if t == "" then
      if !saw then Some((out, colon))
      else if |out| + 2 > 16 then None
      else Some((out + [val / 0x100, val % 0x100], colon))
    else if HexValue(t[0]) >= 0 then
      var val' := val * 16 + HexValue(t[0]);
      if val' > 0xffff then None else Read6(t[1..], out, colon, true, val', tok)
    else if t[0] == ':' then
      if !saw then (if colon != -1 then None else Read6(t[1..], out, |out|, false, val, t[1..]))
      else if |out| + 2 > 16 then None
      else Read6(t[1..], out + [val / 0x100, val % 0x100], colon, false, 0, t[1..])
    else if t[0] == '.' && |out| + 4 <= 16 && Parse4(tok).Some? then
      Some((out + Parse4(tok).value, colon))
    else None
  }

  function Scan6(t: string, out: seq<Byte>, colon: int, saw: bool, val: Word, tok: string): Option<seq<Byte>>
    requires |out| <= 16 && -1 <= colon <= |out|
  {
    var r := Read6(t, out, colon, saw, val, tok);
    if r.None? then None else Finish(r.value.0, r.value.1)
  }

  /** The same for a whole text: its bytes in order, in whatever spelling, and the place of `::` or -1. */
  function BytesRead(t: string): Option<(seq<Byte>, int)> {
    if t != "" && t[0] == ':' then
      if |t| == 1 || t[1] != ':' then None else Read6(t[1..], [], -1, false, 0, t[1..])
    else Read6(t, [], -1, false, 0, t)
  }

  /** `inet_pton6` */
  function Parse6(t: string): Option<seq<Byte>> {
    var r := BytesRead(t);
    if r.None? then None else Finish(r.value.0, r.value.1)
  }

  lemma {:induction false} HexScanned(w: Word, t: string, out: seq<Byte>, colon: int, tok: string)
    requires |out| <= 16 && -1 <= colon <= |out|
    ensures Scan6(Hex(w) + t, out, colon, false, 0, tok) == Scan6(t, out, colon, true, w, tok)
  {
    if w < 16 {
      assert (Hex(w) + t)[1..] == t;
    } else {
      var d := HexDigit(w % 16);
      assert Hex(w) + t == Hex(w / 16) + ([d] + t);
      HexScanned(w / 16, [d] + t, out, colon, tok);
      assert ([d] + t)[1..] == t;
    }
  }

  lemma ColonScanned(t: string, out: seq<Byte>, colon: int, w: Word, tok: string)
    requires |out| <= 14 && -1 <= colon <= |out|
    ensures Scan6(":" + t, out, colon, true, w, tok) == Scan6(t, out + [w / 0x100, w % 0x100], colon, false, 0, t)
  {
  }

  lemma GapScanned(t: string, out: seq<Byte>, tok: string)
    requires |out| <= 16
    ensures Scan6(":" + t, out, -1, false, 0, tok) == Scan6(t, out, |out|, false, 0, t)
  {
  }

  lemma GapAtEnd(out: seq<Byte>, tok: string)
    requires |out| <= 16
    ensures Scan6(":" + "", out, -1, false, 0, tok) == Finish(out, |out|)
  {
    GapScanned("", out, tok);
  }

  /** An embedded dotted quad: its first octet is first taken for hex digits, then the dot is met. */
  lemma QuadScanned(b: seq<Byte>, out: seq<Byte>, colon: int)
    requires |b| == 4 && |out| <= 12 && -1 <= colon <= |out|
    ensures Scan6(Quad(b), out, colon, false, 0, Quad(b)) == Finish(out + b, colon)
  {
    QuadRoundTrip(b);
    var rest := "." + Dec(b[1]) + "." + Dec(b[2]) + "." + Dec(b[3]);
    assert Quad(b) == Dec(b[0]) + rest;
    var v := DecAsHex(b[0], rest, out, colon, Quad(b));
  }

  /** Reading decimal digits as hex digits. */
  lemma {:induction false} DecAsHex(w: Byte, t: string, out: seq<Byte>, colon: int, tok: string) returns (v: Word)
    requires |out| <= 16 && -1 <= colon <= |out|
    ensures Scan6(Dec(w) + t, out, colon, false, 0, tok) == Scan6(t, out, colon, true, v, tok)
    ensures v <= (if w < 10 then 0xf else if w < 100 then 0xff else 0xfff)
  {
    if w < 10 {
      v := w;
      assert (Dec(w) + t)[1..] == t;
    } else {
      var d := HexDigit(w % 10);
      assert Dec(w) + t == Dec(w / 10) + ([d] + t);
      var v' := DecAsHex(w / 10, [d] + t, out, colon, tok);
      assert ([d] + t)[1..] == t;
      v := v' * 16 + w % 10;
    }
  }

  // ---------- the printer ----------

  /** The run of zero words printed as `::`, or base -1. */
  datatype Run = Run(base: int, len: int)

  ghost predicate ZeroRun(ws: seq<Word>, base: int, len: int) {
    0 <= base && 0 < len && base + len <= |ws| && forall i :: base <= i < base + len ==> ws[i] == 0
  }

  /** The leftmost of the longest runs of at least two zero words, or none if there is no such run. */
  ghost predicate Best(ws: seq<Word>, r: Run) {
    if r.base == -1 then forall b, l :: ZeroRun(ws, b, l) ==> l < 2
    else
      && r.len >= 2 && ZeroRun(ws, r.base, r.len)
      && forall b, l :: ZeroRun(ws, b, l) ==> l < r.len || (l == r.len && r.base <= b)
  }

  predicate InRun(r: Run, i: int) {
    r.base != -1 && r.base <= i < r.base + r.len
  }

  /** Six zero words, or five and 0xffff, in front: the rest is printed as an IPv4 address. */
  predicate Embeds4(ws: seq<Word>, r: Run)
    requires |ws| == 8
  {
    r.base == 0 && (r.len == 6 || (r.len == 5 && ws[5] == 0xffff))
  }

  /** What the formatting loop of `inet_ntop6` writes from word `i` on. */
  function Emit(ws: seq<Word>, r: Run, i: nat): string
    requires |ws| == 8 && i <= 8
    decreases 8 - i
  {
    if i == 8 then (if r.base != -1 && r.base + r.len == 8 then ":" else "")
    else if InRun(r, i) then (if i == r.base then ":" else "") + Emit(ws, r, i + 1)
    else
      (if i != 0 then ":" else "") +
      if i == 6 && Embeds4(ws, r) then Quad(Bytes(ws[6..])) else Hex(ws[i]) + Emit(ws, r, i + 1)
  }

  /** The printed form of a 16-byte address. */
  function Print6(b: seq<Byte>, r: Run): string
    requires |b| == 16
  {
    Emit(Words(b), r, 0)
  }

  // ---------- the round trip ----------

  ghost predicate Usable(ws: seq<Word>, r: Run) {
    |ws| == 8 && (r.base == -1 || (r.len >= 2 && ZeroRun(ws, r.base, r.len)))
  }

  lemma Split(ws: seq<Word>, i: nat)
    requires i < |ws|
    ensures Bytes(ws[i..]) == [ws[i] / 0x100, ws[i] % 0x100] + Bytes(ws[i + 1..])
  {
    assert ws[i..] == [ws[i]] + ws[i + 1..];
    BytesConcat([ws[i]], ws[i + 1..]);
    assert Bytes([ws[i]][..0]) == [];
  }

  /** Behind the run, or without one: word `i - 1` has been read and the rest of the text follows. */
  lemma {:induction false} TailScanned(ws: seq<Word>, r: Run, i: nat, out: seq<Byte>, colon: int, tok: string)
    requires Usable(ws, r) && 1 <= i <= 8 && (r.base != -1 ==> r.base + r.len < i)
    requires |out| + 2 * (9 - i) <= 16 && -1 <= colon <= |out|
    ensures Scan6(Emit(ws, r, i), out, colon, true, ws[i - 1], tok) == Finish(out + Bytes(ws[i - 1..]), colon)
    decreases 8 - i
  {
    var w := ws[i - 1];
    var out' := out + [w / 0x100, w % 0x100];
    Split(ws, i - 1);
    if i == 8 {
      assert ws[8..] == [];
      assert out' == out + Bytes(ws[i - 1..]);
    } else {
      assert out + Bytes(ws[i - 1..]) == out' + Bytes(ws[i..]);
      if i == 6 && Embeds4(ws, r) {
        ColonScanned(Quad(Bytes(ws[6..])), out, colon, w, tok);
        QuadScanned(Bytes(ws[6..]), out', colon);
      } else {
        var rest := Hex(ws[i]) + Emit(ws, r, i + 1);
        ColonScanned(rest, out, colon, w, tok);
        HexScanned(ws[i], Emit(ws, r, i + 1), out', colon, rest);
        TailScanned(ws, r, i + 1, out', colon, rest);
      }
    }
  }

  /** Inside the run nothing is printed. */
  lemma {:induction false} RunSilent(ws: seq<Word>, r: Run, i: nat)
    requires Usable(ws, r) && r.base != -1 && r.base < i <= r.base + r.len
    ensures Emit(ws, r, i) == Emit(ws, r, r.base + r.len)
    decreases 8 - i
  {
    if i < r.base + r.len {
      RunSilent(ws, r, i + 1);
    }
  }

  /** Bytes on both sides of a gap, with zeros for what is missing. */
  lemma FinishGap(head: seq<Byte>, tail: seq<Byte>, n: nat)
    requires n > 0 && |head| + n + |tail| == 16
    ensures Finish(head + tail, |head|) == Some(head + (Zeros(n) + tail))
  {
    var out := head + tail;
    assert out[..|head|] == head && out[|head|..] == tail;
    assert head + Zeros(n) + tail == head + (Zeros(n) + tail);
  }

  lemma RunBytes(ws: seq<Word>, base: nat, len: nat)
    requires ZeroRun(ws, base, len)
    ensures Bytes(ws) == Bytes(ws[..base]) + (Zeros(2 * len) + Bytes(ws[base + len..]))
  {
    var gap, tail := ws[base..base + len], ws[base + len..];
    assert ws == ws[..base] + (gap + tail);
    BytesConcat(ws[..base], gap + tail);
    BytesConcat(gap, tail);
    assert forall i :: 0 <= i < |gap| ==> gap[i] == ws[base + i];
    ZeroWords(gap);
  }

  /** The words around the run, with the run put back as zeros, are the address. */
  lemma GapFilled(ws: seq<Word>, r: Run)
    requires Usable(ws, r) && r.base != -1
    ensures var k := r.base + r.len;
            Finish(Bytes(ws[..r.base]) + Bytes(ws[k..]), 2 * r.base) == Some(Bytes(ws))
  {
    RunBytes(ws, r.base, r.len);
    FinishGap(Bytes(ws[..r.base]), Bytes(ws[r.base + r.len..]), 2 * r.len);
  }

  /** From the run on: one colon has been read, the second one opens the gap. */
  lemma AfterRun(ws: seq<Word>, r: Run, tok: string)
    requires Usable(ws, r) && r.base != -1
    ensures Scan6(Emit(ws, r, r.base + r.len), Bytes(ws[..r.base]), -1, false, 0, tok) == Some(Bytes(ws))
  {
    var k := r.base + r.len;
    var out := Bytes(ws[..r.base]);
    GapFilled(ws, r);
    if k == 8 {
      assert ws[8..] == [] && out + [] == out;
      GapAtEnd(out, tok);
      assert Emit(ws, r, 8) == ":" + "";
    } else if k == 6 && Embeds4(ws, r) {
      GapScanned(Quad(Bytes(ws[6..])), out, tok);
      QuadScanned(Bytes(ws[6..]), out, |out|);
    } else {
      var rest := Hex(ws[k]) + Emit(ws, r, k + 1);
      GapScanned(rest, out, tok);
      HexScanned(ws[k], Emit(ws, r, k + 1), out, |out|, rest);
      TailScanned(ws, r, k + 1, out, |out|, rest);
    }
  }

  /** In front of the run: word `i - 1` has been read. */
  lemma {:induction false} HeadScanned(ws: seq<Word>, r: Run, i: nat, tok: string)
    requires Usable(ws, r) && r.base != -1 && 1 <= i <= r.base
    ensures Scan6(Emit(ws, r, i), Bytes(ws[..i - 1]), -1, true, ws[i - 1], tok) == Some(Bytes(ws))
    decreases 8 - i
  {
    var out := Bytes(ws[..i - 1]);
    assert ws[..i][..i - 1] == ws[..i - 1];
    assert Bytes(ws[..i]) == out + [ws[i - 1] / 0x100, ws[i - 1] % 0x100];
    if i == r.base {
      RunSilent(ws, r, i + 1);
      var rest := Emit(ws, r, r.base + r.len);
      assert Emit(ws, r, i) == ":" + rest;
      ColonScanned(rest, out, -1, ws[i - 1], tok);
      AfterRun(ws, r, rest);
    } else {
      var rest := Hex(ws[i]) + Emit(ws, r, i + 1);
      ColonScanned(rest, out, -1, ws[i - 1], tok);
      HexScanned(ws[i], Emit(ws, r, i + 1), Bytes(ws[..i]), -1, rest);
      HeadScanned(ws, r, i + 1, rest);
    }
  }

  lemma RunInFront(ws: seq<Word>, r: Run)
    requires Usable(ws, r) && r.base == 0
    ensures Parse6(Emit(ws, r, 0)) == Some(Bytes(ws))
  {
    RunSilent(ws, r, 1);
    var rest := Emit(ws, r, r.len);
    var t := ":" + rest;
    assert Emit(ws, r, 0) == t && t[1..] == rest && rest[0] == ':';
    assert ws[..0] == [];
    AfterRun(ws, r, rest);
  }

  lemma WordInFront(ws: seq<Word>, r: Run)
    requires Usable(ws, r) && r.base != 0
    ensures Parse6(Emit(ws, r, 0)) == Some(Bytes(ws))
  {
    var rest := Emit(ws, r, 1);
    var t := Hex(ws[0]) + rest;
    assert Emit(ws, r, 0) == t && t[0] == Hex(ws[0])[0];
    HexScanned(ws[0], rest, [], -1, t);
    if r.base == -1 {
      TailScanned(ws, r, 1, [], -1, t);
      assert [] + Bytes(ws[0..]) == Bytes(ws);
    } else {
      assert ws[..0] == [];
      HeadScanned(ws, r, 1, t);
    }
  }

  lemma TextRoundTrip(ws: seq<Word>, r: Run)
    requires Usable(ws, r)
    ensures Parse6(Emit(ws, r, 0)) == Some(Bytes(ws))
  {
    if r.base == 0 {
      RunInFront(ws, r);
    } else {
      WordInFront(ws, r);
    }
  }

  /** For every 16-byte address, reading its printed form gives the same bytes. */
  lemma Ipv6RoundTrip(b: seq<Byte>, r: Run)
    requires |b| == 16 && Best(Words(b), r)
    ensures Parse6(Print6(b, r)) == Some(b)
  {
    BytesOfWords(b);
    TextRoundTrip(Words(b), r);
  }

  /** There is only one run to choose. */
  lemma BestIsUnique(ws: seq<Word>, r: Run, r': Run)
    requires Best(ws, r) && Best(ws, r')
    ensures r.base == r'.base && (r.base != -1 ==> r.len == r'.len)
  {
  }

  // ---------- `::` in a full address ----------

  /** The comment in the source says that `::` in a full address is ignored. For every text that spells out
      all sixteen bytes and has a `::`, what happens is that the bytes behind it are replaced by zeros, so it
      is ignored exactly if they were all zero. */
  lemma FullAddressWithGap(t: string, out: seq<Byte>, c: int)
    requires BytesRead(t) == Some((out, c)) && |out| == 16 && c != -1
    ensures Parse6(t) == Some(out[..c] + Zeros(16 - c))
    ensures Parse6(t) == Some(out) <==> forall i :: c <= i < 16 ==> out[i] == 0
  {
    var cut := out[..c] + Zeros(16 - c);
    if cut == out {
      assert forall i :: c <= i < 16 ==> out[i] == cut[i];
    }
  }

  // ---------- an address with and without `::` ----------

  lemma {:induction false} ColonIsNoQuad(t: string, done: seq<Byte>, cur: Byte, saw: bool)
    requires |done| <= 3 && ':' in t
    ensures Scan4(t, done, cur, saw) == None
    decreases |t|
  {
    if t[0] != ':' {
      var t' := t[1..];
      assert t == [t[0]] + t';
      assert ':' in t';
      if DecValue(t[0]) >= 0 {
        if cur * 10 + DecValue(t[0]) <= 255 {
          ColonIsNoQuad(t', done, cur * 10 + DecValue(t[0]), true);
        }
      } else if t[0] == '.' && saw && |done| < 3 {
        ColonIsNoQuad(t', done + [cur], 0, false);
      }
    }
  }

  /** A gap, once found, stays where it is. */
  lemma {:induction false} GapStays(t: string, out: seq<Byte>, colon: int, saw: bool, val: Word, tok: string)
    requires |out| <= 16 && 0 <= colon <= |out|
    ensures var r := Read6(t, out, colon, saw, val, tok); r.Some? ==> r.value.1 == colon
    decreases |t|
  {
    if t == "" {
    } else if HexValue(t[0]) >= 0 {
      if val * 16 + HexValue(t[0]) <= 0xffff {
        GapStays(t[1..], out, colon, true, val * 16 + HexValue(t[0]), tok);
      }
    } else if t[0] == ':' && saw && |out| + 2 <= 16 {
      GapStays(t[1..], out + [val / 0x100, val % 0x100], colon, false, 0, t[1..]);
    }
  }

  /** A text without a gap gives the same bytes behind one. */
  lemma {:induction false} GapBefore(t: string, out: seq<Byte>, c: nat, saw: bool, val: Word, tok: string,
                                     all: seq<Byte>)
    requires c <= |out| <= 16 && Read6(t, out, -1, saw, val, tok) == Some((all, -1))
    ensures Read6(t, out, c, saw, val, tok) == Some((all, c))
    decreases |t|
  {
    if t == "" {
    } else if HexValue(t[0]) >= 0 {
      GapBefore(t[1..], out, c, true, val * 16 + HexValue(t[0]), tok, all);
    } else if t[0] == ':' {
      if saw {
        GapBefore(t[1..], out + [val / 0x100, val % 0x100], c, false, 0, t[1..], all);
      } else {
        GapStays(t[1..], out, |out|, false, val, t[1..]);
      }
    }
  }

  /** The same text with one colon of `a : b` doubled: the bytes stay, and a gap appears behind those of `a`. */
  lemma {:induction false} ColonDoubled(a: string, b: string, out: seq<Byte>, saw: bool, val: Word, tok: string,
                                        tok2: string, tok3: string, all: seq<Byte>) returns (c: nat)
    requires |out| <= 16 && ':' in tok && Read6(a + (":" + b), out, -1, saw, val, tok) == Some((all, -1))
    ensures c <= |all| <= 16 && Read6(a + ("::" + b), out, -1, saw, val, tok2) == Some((all, c))
    ensures Read6(a, out, -1, saw, val, tok3) == Some((all[..c], -1))
    decreases |a|
  {
    c := 0;
    if a == "" {
      var t, out' := ":" + b, out + [val / 0x100, val % 0x100];
      assert a + t == t && t[1..] == b && a + ("::" + b) == ":" + t && (":" + t)[1..] == t;
      if !saw {
        GapStays(b, out, |out|, false, val, b);
      }
      c := |out'|;
      GapBefore(b, out', c, false, 0, b, all);
      assert all[..c] == out';
    } else {
      var a', one, two := a[1..], a[1..] + (":" + b), a[1..] + ("::" + b);
      assert (a + (":" + b))[1..] == one && (a + ("::" + b))[1..] == two;
      if HexValue(a[0]) >= 0 {
        c := ColonDoubled(a', b, out, true, val * 16 + HexValue(a[0]), tok, tok2, tok3, all);
      } else if a[0] == ':' {
        if saw {
          assert one[|a'|] == ':';
          c := ColonDoubled(a', b, out + [val / 0x100, val % 0x100], false, 0, one, two, a', all);
        } else {
          GapStays(one, out, |out|, false, val, one);
        }
      } else {
        ColonIsNoQuad(tok, [], 0, false);
      }
    }
  }

  /** Doubling any colon of a full address leaves the bytes in front of it and zeroes those behind it. The
      address is read as before exactly if those were all zero. */
  lemma DoubledColonZeroes(a: string, b: string, all: seq<Byte>) returns (c: nat)
    requires BytesRead(a + ":" + b) == Some((all, -1)) && |all| == 16
    ensures Parse6(a + ":" + b) == Some(all)
    ensures c <= 16 && BytesRead(a) == Some((all[..c], -1))
    ensures Parse6(a + "::" + b) == Some(all[..c] + Zeros(16 - c))
    ensures Parse6(a + "::" + b) == Parse6(a + ":" + b) <==> forall i :: c <= i < 16 ==> all[i] == 0
  {
    var one, two := a + (":" + b), a + ("::" + b);
    assert a + ":" + b == one && a + "::" + b == two;
    if one[0] == ':' {
      GapStays(one[1..][1..], [], 0, false, 0, one[1..][1..]);
      assert false;
    }
    assert one[|a|] == ':';
    assert a[0] == one[0] == two[0];
    c := ColonDoubled(a, b, [], false, 0, one, two, a, all);
    FullAddressWithGap(two, all, c);
  }
}

/** The texts that `inet_pton.c` accepts, said without its loops: an IPv4 address is four numbers joined by dots, an
    IPv6 address is what its pieces between colons say. */
module InetGrammar {
  import opened Basics
  import opened InetText

  // ---------- IPv4 ----------

  predicate Digits(s: string) {
    forall i :: 0 <= i < |s| ==> DecValue(s[i]) >= 0
  }

  /** The decimal digits of `s` written behind those of `cur`. */
  function DecFrom(cur: nat, s: string): nat
    requires Digits(s)
    decreases |s|
  {
    if s == "" then cur else DecFrom(cur * 10 + DecValue(s[0]), s[1..])
  }

  /** One or more decimal digits, leading zeros included, of value `v`. */
  predicate Number(s: string, v: int) {
    s != "" && Digits(s) && DecFrom(0, s) == v
  }

  /** Each part behind a dot. */
  function Dots(parts: seq<string>): string {
    if parts == [] then "" else "." + parts[0] + Dots(parts[1..])
  }

  predicate Numbers(parts: seq<string>, vs: seq<Byte>) {
    |parts| == |vs| && forall i :: 0 <= i < |vs| ==> Number(parts[i], vs[i])
  }

  /** Four numbers of at most 255, joined by dots. */
  ghost predicate Dotted(t: string, b: seq<Byte>) {
    |b| == 4 && exists a, parts :: t == a + Dots(parts) && Number(a, b[0]) && Numbers(parts, b[1..])
  }

  lemma {:induction false} DecGrows(cur: nat, s: string)
    requires Digits(s)
    ensures DecFrom(cur, s) >= cur
    decreases |s|
  {
    if s != "" {
      DecGrows(cur * 10 + DecValue(s[0]), s[1..]);
    }
  }

  lemma {:induction false} DigitsScanned(a: string, t: string, done: seq<Byte>, cur: Byte, saw: bool)
    requires |done| <= 3 && Digits(a) && DecFrom(cur, a) <= 255
    ensures Scan4(a + t, done, cur, saw) == Scan4(t, done, DecFrom(cur, a), saw || a != "")
  {
    if a == "" {
      assert a + t == t;
    } else {
      DecGrows(cur * 10 + DecValue(a[0]), a[1..]);
      assert (a + t)[1..] == a[1..] + t;
      DigitsScanned(a[1..], t, done, cur * 10 + DecValue(a[0]), true);
    }
  }

  lemma {:induction false} DotsScanned(parts: seq<string>, vs: seq<Byte>, done: seq<Byte>, cur: Byte)
    requires Numbers(parts, vs) && |done| + |parts| == 3
    ensures Scan4(Dots(parts), done, cur, true) == Some(done + [cur] + vs)
    decreases |parts|
  {
    if parts == [] {
      assert done + [cur] + vs == done + [cur];
    } else {
      var rest := parts[0] + Dots(parts[1..]);
      assert Dots(parts) == "." + rest;
      DotScanned(rest, done, cur);
      DigitsScanned(parts[0], Dots(parts[1..]), done + [cur], 0, false);
      DotsScanned(parts[1..], vs[1..], done + [cur], vs[0]);
      assert done + [cur] + [vs[0]] + vs[1..] == done + [cur] + vs;
    }
  }

  /** What the scanner accepts: the rest of the number being read, then numbers behind dots. */
  lemma {:induction false} ScanSound(t: string, done: seq<Byte>, cur: Byte, saw: bool, b: seq<Byte>)
    returns (a: string, parts: seq<string>)
    requires |done| <= 3 && Scan4(t, done, cur, saw) == Some(b)
    ensures t == a + Dots(parts) && Digits(a) && (saw || a != "")
    ensures |b| == 4 && done == b[..|done|] && DecFrom(cur, a) == b[|done|] && Numbers(parts, b[|done| + 1..])
    decreases |t|
  {
    if t == "" {
      a, parts := "", [];
    } else if t[0] == '.' {
      var a', parts' := ScanSound(t[1..], done + [cur], 0, false, b);
      a, parts := "", [a'] + parts';
      assert parts[1..] == parts' && t == "." + t[1..];
      assert b[|done| + 1..] == [b[|done| + 1]] + b[|done| + 2..];
    } else {
      var a', parts' := ScanSound(t[1..], done, cur * 10 + DecValue(t[0]), true, b);
      a, parts := [t[0]] + a', parts';
      assert a[1..] == a' && t == [t[0]] + t[1..];
    }
  }

  /** `inet_pton4` accepts exactly four numbers of at most 255 joined by dots, and reads their values. */
  lemma Parse4Exactly(t: string, b: seq<Byte>)
    ensures Parse4(t) == Some(b) <==> Dotted(t, b)
  {
    if Parse4(t) == Some(b) {
      var a, parts := ScanSound(t, [], 0, false, b);
      assert t == a + Dots(parts) && Number(a, b[0]) && Numbers(parts, b[1..]);
    }
    if Dotted(t, b) {
      var a, parts :| t == a + Dots(parts) && Number(a, b[0]) && Numbers(parts, b[1..]);
      DigitsScanned(a, Dots(parts), [], 0, false);
      DotsScanned(parts, b[1..], [], b[0]);
      assert [] + [b[0]] + b[1..] == b;
    }
  }

  // ---------- IPv6 ----------

  predicate HexDigits(s: string) {
    forall i :: 0 <= i < |s| ==> HexValue(s[i]) >= 0
  }

  function HexFrom(cur: nat, s: string): nat
    requires HexDigits(s)
    decreases |s|
  {
    if s == "" then cur else HexFrom(cur * 16 + HexValue(s[0]), s[1..])
  }

  /** One or more hexadecimal digits of value at most 0xffff. */
  predicate Group(p: string) {
    p != "" && HexDigits(p) && HexFrom(0, p) <= 0xffff
  }

  function GroupBytes(p: string): seq<Byte>
    requires Group(p)
  {
    [HexFrom(0, p) / 0x100, HexFrom(0, p) % 0x100]
  }

  /** The text between colons. */
  function Pieces(t: string): (ps: seq<string>)
    ensures ps != []
  {
    if t == "" then [""]
    else
      var ps := Pieces(t[1..]);
      if t[0] == ':' then [""] + ps else [[t[0]] + ps[0]] + ps[1..]
  }

  /** What the pieces say: groups, one empty piece for `::`, and in the last place also a dotted address or
      nothing at all. No more than sixteen bytes. The result is the bytes and the place of `::`. */
  function Meaning(ps: seq<string>, out: seq<Byte>, colon: int): (r: Option<(seq<Byte>, int)>)
    requires ps != [] && |out| <= 16 && -1 <= colon <= |out|
    ensures r.Some? ==> |r.value.0| <= 16 && -1 <= r.value.1 <= |r.value.0|
    decreases |ps|
  {
    var p := ps[0];
    if |ps| == 1 then
      if p == "" then Some((out, colon))
      else if Group(p) && |out| + 2 <= 16 then Some((out + GroupBytes(p), colon))
      else if Parse4(p).Some? && |out| + 4 <= 16 then Some((out + Parse4(p).value, colon))
      else None
    else if p == "" && colon == -1 then Meaning(ps[1..], out, |out|)
    else if Group(p) && |out| + 2 <= 16 then Meaning(ps[1..], out + GroupBytes(p), colon)
    else None
  }

  lemma {:induction false} HexGrows(cur: nat, s: string)
    requires HexDigits(s)
    ensures HexFrom(cur, s) >= cur
    decreases |s|
  {
    if s != "" {
      HexGrows(cur * 16 + HexValue(s[0]), s[1..]);
    }
  }

  lemma {:induction false} HexRead(h: string, t: string, out: seq<Byte>, colon: int, saw: bool, val: Word, tok: string)
    requires |out| <= 16 && -1 <= colon <= |out| && HexDigits(h)
    ensures Read6(h + t, out, colon, saw, val, tok) ==
            if HexFrom(val, h) > 0xffff then None else Read6(t, out, colon, saw || h != "", HexFrom(val, h), tok)
  {
    if h == "" {
      assert h + t == t;
    } else {
      var val' := val * 16 + HexValue(h[0]);
      assert (h + t)[1..] == h[1..] + t;
      HexGrows(val', h[1..]);
      if val' <= 0xffff {
        HexRead(h[1..], t, out, colon, true, val', tok);
      }
    }
  }

  /** The digits that a piece begins with. */
  function Leading(p: string): (h: string)
    ensures |h| <= |p| && h == p[..|h|] && HexDigits(h) && (|h| < |p| ==> HexValue(p[|h|]) < 0)
  {
    if p == "" || HexValue(p[0]) < 0 then "" else [p[0]] + Leading(p[1..])
  }

  // ---------- the first number of a dotted address, taken for hexadecimal ----------

  lemma {:induction false} DecimalIsSmallHex(a: string, dec: nat, hex: nat)
    requires Digits(a) && HexDigits(a) && DecFrom(dec, a) <= 255 && SmallHex(dec, hex)
    ensures SmallHex(DecFrom(dec, a), HexFrom(hex, a))
    decreases |a|
  {
    if a != "" {
      DecGrows(dec * 10 + DecValue(a[0]), a[1..]);
      DecimalIsSmallHex(a[1..], dec * 10 + DecValue(a[0]), hex * 16 + HexValue(a[0]));
    }
  }

  predicate SmallHex(dec: nat, hex: nat) {
    hex <= if dec == 0 then 0 else if dec < 10 then 9 else if dec < 100 then 0x99 else 0x999
  }

  lemma DigitsAreHex(a: string)
    requires Digits(a)
    ensures HexDigits(a)
  {
  }

  lemma {:induction false} LeadingIs(p: string, h: string, rest: string)
    requires p == h + rest && HexDigits(h) && (rest != "" ==> HexValue(rest[0]) < 0)
    ensures Leading(p) == h
    decreases |h|
  {
    if h == "" {
      assert p == rest;
    } else {
      assert p[1..] == h[1..] + rest;
      LeadingIs(p[1..], h[1..], rest);
    }
  }

  /** A dotted address begins with a group of hexadecimal digits and a dot. */
  lemma DottedBegins(p: string)
    requires Parse4(p).Some?
    ensures var h := Leading(p); |h| < |p| && p[|h|] == '.' && HexFrom(0, h) <= 0x999
  {
    var a, parts := ScanSound(p, [], 0, false, Parse4(p).value);
    DigitsAreHex(a);
    LeadingIs(p, a, Dots(parts));
    DecimalIsSmallHex(a, 0, 0);
  }

  // ---------- one piece ----------

  /** The last piece. */
  lemma LastPiece(p: string, out: seq<Byte>, colon: int)
    requires |out| <= 16 && -1 <= colon <= |out| && ':' !in p
    ensures Read6(p, out, colon, false, 0, p) == Meaning([p], out, colon)
  {
    var h := Leading(p);
    var rest := p[|h|..];
    assert p == h + rest;
    HexRead(h, rest, out, colon, false, 0, p);
    if Parse4(p).Some? {
      DottedBegins(p);
    }
    if rest == "" {
      assert h == p;
    } else {
      assert rest[0] == p[|h|] && !HexDigits(p);
    }
  }

  /** A piece with a colon behind it: nothing, or a group. */
  lemma InnerPiece(p: string, t: string, out: seq<Byte>, colon: int)
    requires |out| <= 16 && -1 <= colon <= |out| && ':' !in p
    ensures var text := p + (":" + t);
            Read6(text, out, colon, false, 0, text) ==
            if p == "" && colon == -1 then Read6(t, out, |out|, false, 0, t)
            else if Group(p) && |out| + 2 <= 16 then Read6(t, out + GroupBytes(p), colon, false, 0, t)
            else None
  {
    var h, text := Leading(p), p + (":" + t);
    var rest := p[|h|..];
    assert text == h + (rest + (":" + t));
    HexRead(h, rest + (":" + t), out, colon, false, 0, text);
    if rest == "" {
      assert h == p && rest + (":" + t) == ":" + t && (":" + t)[1..] == t;
    } else {
      assert (rest + (":" + t))[0] == rest[0] == p[|h|] && !HexDigits(p);
      assert text[|p|] == ':';
      ColonIsNoQuad(text, [], 0, false);
    }
  }

  // ---------- the whole text ----------

  function Joined(ps: seq<string>): string
    requires ps != []
  {
    if |ps| == 1 then ps[0] else ps[0] + (":" + Joined(ps[1..]))
  }

  predicate NoColons(ps: seq<string>) {
    forall i :: 0 <= i < |ps| ==> ':' !in ps[i]
  }

  lemma {:induction false} PiecesOf(t: string)
    ensures Joined(Pieces(t)) == t && NoColons(Pieces(t))
  {
    if t != "" {
      var ps := Pieces(t[1..]);
      PiecesOf(t[1..]);
      if t[0] == ':' {
        assert ([""] + ps)[1..] == ps;
        assert "" + (":" + t[1..]) == t;
      } else {
        var qs := [[t[0]] + ps[0]] + ps[1..];
        assert qs[1..] == ps[1..];
        assert t == [t[0]] + t[1..];
      }
    }
  }

  lemma {:induction false} PiecesRead(ps: seq<string>, out: seq<Byte>, colon: int)
    requires ps != [] && NoColons(ps) && |out| <= 16 && -1 <= colon <= |out|
    ensures Read6(Joined(ps), out, colon, false, 0, Joined(ps)) == Meaning(ps, out, colon)
    decreases |ps|
  {
    if |ps| == 1 {
      LastPiece(ps[0], out, colon);
      assert ps == [ps[0]];
    } else {
      var p := ps[0];
      InnerPiece(p, Joined(ps[1..]), out, colon);
      if p == "" && colon == -1 {
        PiecesRead(ps[1..], out, |out|);
      } else if Group(p) && |out| + 2 <= 16 {
        PiecesRead(ps[1..], out + GroupBytes(p), colon);
      }
    }
  }

  /** `inet_pton6` on any text: a single colon in front is refused, of two the first is skipped, and then the
      text is read as its pieces say. */
  lemma Read6Exactly(t: string)
    ensures BytesRead(t) ==
            if t != "" && t[0] == ':' then
              if |t| == 1 || t[1] != ':' then None else Meaning(Pieces(t[1..]), [], -1)
            else Meaning(Pieces(t), [], -1)
  {
    var u := if t != "" && t[0] == ':' then t[1..] else t;
    PiecesOf(u);
    PiecesRead(Pieces(u), [], -1);
  }

  // ---------- a colon too many ----------

  lemma {:induction false} EmptyLast(ps: seq<string>, out: seq<Byte>, colon: int)
    requires ps != [] && |out| <= 16 && -1 <= colon <= |out| && Group(ps[|ps| - 1])
    ensures Meaning(ps + [""], out, colon) == Meaning(ps, out, colon)
    decreases |ps|
  {
    var qs := ps + [""];
    assert qs[1..] == ps[1..] + [""] && qs[0] == ps[0];
    var p := ps[0];
    if |ps| == 1 {
      assert qs[1..] == [""];
    } else if p == "" && colon == -1 {
      EmptyLast(ps[1..], out, |out|);
    } else if Group(p) && |out| + 2 <= 16 {
      EmptyLast(ps[1..], out + GroupBytes(p), colon);
    }
  }

  lemma {:induction false} PiecesWithColon(t: string)
    ensures Pieces(t + ":") == Pieces(t) + [""]
  {
    if t == "" {
      assert (t + ":")[1..] == "" && t + ":" == ":";
      assert [""] + [""] == Pieces(t) + [""];
    } else {
      assert (t + ":")[1..] == t[1..] + ":";
      PiecesWithColon(t[1..]);
      var ps := Pieces(t[1..]);
      assert (ps + [""])[1..] == ps[1..] + [""];
      assert [""] + (ps + [""]) == [""] + ps + [""];
    }
  }

  /** The source promises to accept only addresses of section 2.2 of RFC 1884, but a single colon behind the last
      group is accepted and ignored, whatever the address. */
  lemma TrailingColonIgnored(t: string)
    requires Group(Pieces(t)[|Pieces(t)| - 1])
    ensures Parse6(t + ":") == Parse6(t)
  {
    var u := t + ":";
    Read6Exactly(t);
    Read6Exactly(u);
    if t[0] == ':' {
      assert u[1..] == t[1..] + ":";
      PiecesWithColon(t[1..]);
      if |t| > 1 && t[1] == ':' {
        assert Pieces(t) == [""] + Pieces(t[1..]);
        EmptyLast(Pieces(t[1..]), [], -1);
      }
    } else {
      PiecesWithColon(t);
      EmptyLast(Pieces(t), [], -1);
    }
  }

  // ---------- the gap ----------

  /** The bytes `out`, with zeros for what is missing at `c`; with nothing missing, with zeros from `c` on. */
  predicate Filled(out: seq<Byte>, c: int, b: seq<Byte>) {
    && |b| == 16 && |out| <= 16 && -1 <= c <= |out|
    && if c == -1 then b == out
       else
         var tail := if |out| == 16 then 0 else |out| - c;
         && (forall i :: 0 <= i < c ==> b[i] == out[i])
         && (forall i :: c <= i < 16 - tail ==> b[i] == 0)
         && (forall i :: 16 - tail <= i < 16 ==> b[i] == out[i - (16 - |out|)])
  }

  /** What `inet_pton6` makes of the bytes that the text spells out. */
  lemma Parse6Exactly(t: string, b: seq<Byte>)
    ensures Parse6(t) == Some(b) <==>
            BytesRead(t).Some? && Filled(BytesRead(t).value.0, BytesRead(t).value.1, b)
  {
    var r := BytesRead(t);
    if r.Some? && r.value.1 != -1 {
      var (out, c) := r.value;
      if |out| == 16 {
        assert Filled(out, c, b) <==> b == out[..c] + Zeros(16 - c);
      } else {
        assert Filled(out, c, b) <==> b == out[..c] + Zeros(16 - |out|) + out[c..];
      }
    }
  }
}

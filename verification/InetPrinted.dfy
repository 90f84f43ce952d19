/** What `inet_ntop.c` prints, said without its loops: which pieces stand between the colons of an IPv6 address, and
    between the dots of an IPv4 one. */
module InetPrinted {
  import opened Basics
  import opened InetText
  import opened InetGrammar

  // ---------- numbers ----------

  /** `w` in lower-case hexadecimal without leading zeros. */
  predicate LowerHex(p: string, w: int) {
    && p != "" && (forall i :: 0 <= i < |p| ==> p[i] in LOWER) && (|p| > 1 ==> p[0] != '0')
    && HexDigits(p) && HexFrom(0, p) == w
  }

  /** `v` in decimal without leading zeros. */
  predicate Plain(p: string, v: int) {
    Number(p, v) && (|p| > 1 ==> p[0] != '0')
  }

  lemma {:induction false} LastHexDigit(cur: nat, a: string, c: char)
    requires HexDigits(a) && HexValue(c) >= 0
    ensures HexDigits(a + [c]) && HexFrom(cur, a + [c]) == HexFrom(cur, a) * 16 + HexValue(c)
    decreases |a|
  {
    if a == "" {
      assert a + [c] == [c];
    } else {
      assert (a + [c])[1..] == a[1..] + [c];
      LastHexDigit(cur * 16 + HexValue(a[0]), a[1..], c);
    }
  }

  lemma DigitIsLower(d: int)
    requires 0 <= d < 16
    ensures HexDigit(d) in LOWER && (d > 0 ==> HexDigit(d) != '0')
  {
    DigitPlaces('0', d);
  }

  lemma LowerAppended(p: string, w: nat, d: int)
    requires LowerHex(p, w) && p[0] != '0' && 0 <= d < 16
    ensures LowerHex(p + [HexDigit(d)], w * 16 + d)
  {
    DigitIsLower(d);
    LastHexDigit(0, p, HexDigit(d));
  }

  lemma LowerAlone(d: int)
    requires 0 <= d < 16
    ensures LowerHex([HexDigit(d)], d)
  {
    DigitIsLower(d);
    LastHexDigit(0, "", HexDigit(d));
    assert "" + [HexDigit(d)] == [HexDigit(d)];
  }

  lemma {:induction false} HexIsLower(w: nat)
    ensures LowerHex(Hex(w), w) && (w > 0 ==> Hex(w)[0] != '0')
  {
    if w < 16 {
      LowerAlone(w);
      DigitIsLower(w);
    } else {
      HexIsLower(w / 16);
      LowerAppended(Hex(w / 16), w / 16, w % 16);
    }
  }

  lemma {:induction false} LastDecDigit(cur: nat, a: string, c: char)
    requires Digits(a) && DecValue(c) >= 0
    ensures Digits(a + [c]) && DecFrom(cur, a + [c]) == DecFrom(cur, a) * 10 + DecValue(c)
    decreases |a|
  {
    if a == "" {
      assert a + [c] == [c];
    } else {
      assert (a + [c])[1..] == a[1..] + [c];
      LastDecDigit(cur * 10 + DecValue(a[0]), a[1..], c);
    }
  }

  lemma {:induction false} DecIsPlain(v: nat)
    ensures Plain(Dec(v), v) && (v > 0 ==> Dec(v)[0] != '0')
  {
    DigitIsLower(v % 10);
    if v >= 10 {
      DecIsPlain(v / 10);
      LastDecDigit(0, Dec(v / 10), HexDigit(v % 10));
    } else {
      LastDecDigit(0, "", HexDigit(v));
      assert "" + [HexDigit(v)] == [HexDigit(v)];
    }
  }

  // ---------- IPv4 ----------

  /** Four decimal numbers without leading zeros, joined by dots. */
  ghost predicate PlainDotted(t: string, b: seq<Byte>)
    requires |b| == 4
  {
    exists p, q, r, s ::
      t == p + Dots([q, r, s]) && Plain(p, b[0]) && Plain(q, b[1]) && Plain(r, b[2]) && Plain(s, b[3])
  }

  /** What `inet_ntop4` prints. */
  lemma QuadExactly(b: seq<Byte>)
    requires |b| == 4
    ensures PlainDotted(Quad(b), b)
  {
    var p, q, r, s := Dec(b[0]), Dec(b[1]), Dec(b[2]), Dec(b[3]);
    DecIsPlain(b[0]);
    DecIsPlain(b[1]);
    DecIsPlain(b[2]);
    DecIsPlain(b[3]);
    assert [q, r, s][1..] == [r, s] && [r, s][1..] == [s] && [s][1..] == [];
    assert Dots([s]) == "." + s && Dots([r, s]) == "." + r + Dots([s]);
    assert Quad(b) == p + Dots([q, r, s]);
  }

  // ---------- which addresses end in a dotted quad ----------

  /** Twelve zero bytes and then not two more, or ten zero bytes and two of 0xff. */
  predicate DottedForm(b: seq<Byte>)
    requires |b| == 16
  {
    || ((forall i :: 0 <= i < 12 ==> b[i] == 0) && !(b[12] == 0 && b[13] == 0))
    || ((forall i :: 0 <= i < 10 ==> b[i] == 0) && b[10] == 0xff && b[11] == 0xff)
  }

  lemma WordZero(b: seq<Byte>, k: nat)
    requires |b| == 16 && k < 8
    ensures Words(b)[k] == 0 <==> b[2 * k] == 0 && b[2 * k + 1] == 0
    ensures Words(b)[k] == 0xffff <==> b[2 * k] == 0xff && b[2 * k + 1] == 0xff
  {
    WordAt(b, k);
  }

  /** `n` words in front are zero exactly if the bytes are. */
  lemma ZerosInFront(b: seq<Byte>, n: nat)
    requires |b| == 16 && n <= 8
    ensures (forall k :: 0 <= k < n ==> Words(b)[k] == 0) <==> forall i :: 0 <= i < 2 * n ==> b[i] == 0
  {
    forall k | 0 <= k < n
      ensures Words(b)[k] == 0 <==> b[2 * k] == 0 && b[2 * k + 1] == 0
    {
      WordZero(b, k);
    }
    if forall k :: 0 <= k < n ==> Words(b)[k] == 0 {
      forall i | 0 <= i < 2 * n
        ensures b[i] == 0
      {
        assert Words(b)[i / 2] == 0;
      }
    }
  }

  /** Zero words in front, and then one that is not: no other run is as long. */
  lemma FrontIsBest(ws: seq<Word>, r: Run, n: nat)
    requires |ws| == 8 && Best(ws, r) && 5 <= n < 8 && (forall k :: 0 <= k < n ==> ws[k] == 0) && ws[n] != 0
    ensures r == Run(0, n)
  {
    assert ZeroRun(ws, 0, n);
  }

  lemma BestInFront(ws: seq<Word>, r: Run)
    requires |ws| == 8 && Best(ws, r) && r.base == 0 && r.len < 8
    ensures (forall k :: 0 <= k < r.len ==> ws[k] == 0) && ws[r.len] != 0
  {
    if ws[r.len] == 0 {
      LongerRun(ws, r);
    }
  }

  lemma LongerRun(ws: seq<Word>, r: Run)
    requires |ws| == 8 && r.base == 0 && 0 < r.len < 8 && ZeroRun(ws, 0, r.len) && ws[r.len] == 0
    ensures !Best(ws, r)
  {
    assert ZeroRun(ws, 0, r.len + 1);
  }

  lemma EmbedsIff(b: seq<Byte>, r: Run)
    requires |b| == 16 && Best(Words(b), r)
    ensures Embeds4(Words(b), r) <==> DottedForm(b)
  {
    var ws := Words(b);
    ZerosInFront(b, 6);
    ZerosInFront(b, 5);
    WordZero(b, 5);
    WordZero(b, 6);
    if DottedForm(b) {
      FrontIsBest(ws, r, if ws[5] == 0 then 6 else 5);
    } else if Embeds4(ws, r) {
      BestInFront(ws, r);
    }
  }

  // ---------- IPv6 ----------

  /** Each piece is its word. */
  predicate Spells(ps: seq<string>, ws: seq<Word>) {
    |ps| == |ws| && forall i :: 0 <= i < |ws| ==> LowerHex(ps[i], ws[i])
  }

  /** The pieces behind the gap, or all of them without one; the last two words may stand as a dotted quad. */
  ghost predicate Ends(ps: seq<string>, ws: seq<Word>, b: seq<Byte>)
    requires |b| == 16 && |ws| <= 8
  {
    if DottedForm(b) then
      && |ws| >= 2 && |ps| == |ws| - 1 && Spells(ps[..|ps| - 1], ws[..|ws| - 2])
      && PlainDotted(ps[|ps| - 1], b[12..])
    else Spells(ps, ws)
  }

  /** The pieces of an address: its words in order, except that those of the best run are left out. Then an empty
      piece stands for the run, and another one in front or behind where nothing else does. */
  ghost predicate Written(ps: seq<string>, b: seq<Byte>, r: Run)
    requires |b| == 16
  {
    var ws := Words(b);
    if r.base == -1 then Ends(ps, ws, b)
    else
      && 0 <= r.base <= r.base + r.len <= 8
      && exists front, back ::
           && ps == front + [""] + back
           && (if r.base == 0 then front == [""] else Spells(front, ws[..r.base]))
           && (if r.base + r.len == 8 then back == [""] else Ends(back, ws[r.base + r.len..], b))
  }

  /** Each piece behind a colon. */
  function Behind(ps: seq<string>): string {
    if ps == [] then "" else ":" + ps[0] + Behind(ps[1..])
  }

  lemma BehindCons(p: string, ps: seq<string>)
    ensures Behind([p] + ps) == ":" + (p + Behind(ps))
  {
    assert ([p] + ps)[1..] == ps;
  }

  lemma {:induction false} BehindConcat(a: seq<string>, c: seq<string>)
    ensures Behind(a + c) == Behind(a) + Behind(c)
  {
    if a == [] {
      assert a + c == c;
    } else {
      BehindConcat(a[1..], c);
      assert (a + c)[1..] == a[1..] + c;
    }
  }

  lemma {:induction false} PiecesBehind(a: string, ps: seq<string>)
    requires ':' !in a && NoColons(ps)
    ensures Pieces(a + Behind(ps)) == [a] + ps
    decreases |ps|, |a|
  {
    var t := a + Behind(ps);
    if a != "" {
      assert t[1..] == a[1..] + Behind(ps) && a == [a[0]] + a[1..];
      PiecesBehind(a[1..], ps);
    } else if ps != [] {
      assert t[1..] == ps[0] + Behind(ps[1..]);
      PiecesBehind(ps[0], ps[1..]);
      assert [ps[0]] + ps[1..] == ps;
    }
  }

  // ---------- the loop of `inet_ntop6` ----------

  /** The pieces of the words from `i` on. */
  function Tail(ws: seq<Word>, r: Run, i: nat): seq<string>
    requires |ws| == 8 && i <= 8
    decreases 8 - i
  {
    if i == 8 then []
    else if i == 6 && Embeds4(ws, r) then [Quad(Bytes(ws[6..]))]
    else [Hex(ws[i])] + Tail(ws, r, i + 1)
  }

  lemma {:induction false} TailPrinted(ws: seq<Word>, r: Run, i: nat)
    requires |ws| == 8 && 1 <= i <= 8 && (r.base != -1 ==> r.base + r.len <= i && r.base + r.len < 8)
    ensures Emit(ws, r, i) == Behind(Tail(ws, r, i))
    decreases 8 - i
  {
    if i < 8 {
      if i == 6 && Embeds4(ws, r) {
        BehindCons(Quad(Bytes(ws[6..])), []);
        assert Tail(ws, r, i) == [Quad(Bytes(ws[6..]))] + [];
      } else {
        TailPrinted(ws, r, i + 1);
        BehindCons(Hex(ws[i]), Tail(ws, r, i + 1));
      }
    }
  }

  /** The words in front of the run from `i` on, and the run. */
  lemma {:induction false} FrontPrinted(ws: seq<Word>, r: Run, i: nat)
    requires Usable(ws, r) && 1 <= i <= r.base
    ensures Emit(ws, r, i) == Behind(Hexes(ws[i..r.base])) + (":" + Emit(ws, r, r.base + r.len))
    decreases 8 - i
  {
    var rest := ":" + Emit(ws, r, r.base + r.len);
    if i == r.base {
      RunSilent(ws, r, i + 1);
      assert ws[i..i] == [] && Behind([]) + rest == rest;
    } else {
      FrontPrinted(ws, r, i + 1);
      var ps := Hexes(ws[i + 1..r.base]);
      assert ws[i..r.base][0] == ws[i] && ws[i..r.base][1..] == ws[i + 1..r.base];
      BehindCons(Hex(ws[i]), ps);
      assert Emit(ws, r, i) == ":" + (Hex(ws[i]) + (Behind(ps) + rest));
      Regrouped(Hex(ws[i]), Behind(ps), rest);
    }
  }

  lemma Regrouped(a: string, b: string, c: string)
    ensures ":" + (a + (b + c)) == ":" + (a + b) + c
  {
  }

  function Hexes(ws: seq<Word>): seq<string> {
    if ws == [] then [] else [Hex(ws[0])] + Hexes(ws[1..])
  }

  lemma {:induction false} HexesSpell(ws: seq<Word>)
    ensures Spells(Hexes(ws), ws) && NoColons(Hexes(ws))
  {
    if ws != [] {
      HexesSpell(ws[1..]);
      HexIsLower(ws[0]);
      HexHasNoColon(ws[0]);
    }
  }

  lemma HexHasNoColon(w: nat)
    ensures ':' !in Hex(w)
  {
    HexIsLower(w);
  }

  lemma OneMoreEnds(p: string, ps: seq<string>, ws: seq<Word>, b: seq<Byte>)
    requires |b| == 16 && 0 < |ws| <= 8 && LowerHex(p, ws[0]) && Ends(ps, ws[1..], b)
    ensures Ends([p] + ps, ws, b)
  {
    var all := [p] + ps;
    if DottedForm(b) {
      assert all[..|all| - 1] == [p] + ps[..|ps| - 1];
      assert forall i :: 0 < i < |ws| ==> ws[i] == ws[1..][i - 1];
    }
  }

  lemma QuadEnds(b: seq<Byte>)
    requires |b| == 16 && DottedForm(b)
    ensures Bytes(Words(b)[6..]) == b[12..] && Ends([Quad(b[12..])], Words(b)[6..], b)
  {
    var ws, ps := Words(b), [Quad(b[12..])];
    QuadExactly(b[12..]);
    BytesOfWords(b);
    assert ws == ws[..6] + ws[6..];
    BytesConcat(ws[..6], ws[6..]);
    assert ps[..0] == [] && ws[6..][..0] == [];
  }

  lemma {:induction false} TailEnds(b: seq<Byte>, r: Run, i: nat)
    requires |b| == 16 && (Embeds4(Words(b), r) <==> DottedForm(b)) && i <= 8 && (DottedForm(b) ==> i <= 6)
    ensures Ends(Tail(Words(b), r, i), Words(b)[i..], b) && NoColons(Tail(Words(b), r, i))
    decreases 8 - i
  {
    var ws := Words(b);
    if i == 6 && Embeds4(ws, r) {
      QuadEnds(b);
      QuadHasNoColon(b[12..]);
    } else if i < 8 {
      TailEnds(b, r, i + 1);
      HexIsLower(ws[i]);
      HexHasNoColon(ws[i]);
      assert ws[i..][1..] == ws[i + 1..];
      OneMoreEnds(Hex(ws[i]), Tail(ws, r, i + 1), ws[i..], b);
    }
  }

  lemma QuadHasNoColon(b: seq<Byte>)
    requires |b| == 4
    ensures ':' !in Quad(b)
  {
    DecIsPlain(b[0]);
    DecIsPlain(b[1]);
    DecIsPlain(b[2]);
    DecIsPlain(b[3]);
  }

  /** From the run on. */
  lemma BackPrinted(b: seq<Byte>, r: Run) returns (back: seq<string>)
    requires |b| == 16 && Best(Words(b), r) && r.base != -1
    ensures Emit(Words(b), r, r.base + r.len) == Behind(back) && NoColons(back)
    ensures if r.base + r.len == 8 then back == [""] else Ends(back, Words(b)[r.base + r.len..], b)
  {
    var ws, k := Words(b), r.base + r.len;
    if k == 8 {
      back := [""];
      BehindCons("", []);
      assert back == [""] + [];
    } else {
      EmbedsIff(b, r);
      TailPrinted(ws, r, k);
      TailEnds(b, r, k);
      back := Tail(ws, r, k);
    }
  }

  lemma GapPieces(back: seq<string>)
    requires NoColons(back)
    ensures Pieces(":" + Behind(back)) == [""] + [""] + back
  {
    var ps := [""] + back;
    BehindCons("", back);
    assert "" + Behind(back) == Behind(back) && "" + Behind(ps) == Behind(ps);
    PiecesBehind("", ps);
    assert [""] + ps == [""] + [""] + back;
  }

  lemma GapInFront(ws: seq<Word>, r: Run, back: seq<string>)
    requires Usable(ws, r) && r.base == 0 && Emit(ws, r, r.len) == Behind(back) && NoColons(back)
    ensures Pieces(Emit(ws, r, r.base)) == [""] + [""] + back
  {
    RunSilent(ws, r, r.base + 1);
    GapPieces(back);
  }

  lemma FirstWord(ws: seq<Word>, r: Run, i: nat)
    requires |ws| == 8 && i == 0 && !InRun(r, i)
    ensures Emit(ws, r, i) == Hex(ws[i]) + Emit(ws, r, i + 1)
  {
    var text := Hex(ws[i]) + Emit(ws, r, i + 1);
    assert "" + text == text;
  }

  /** The text in front of the gap, the gap, and the text behind it. */
  lemma ThreeParts(front: seq<string>, back: seq<string>)
    ensures Behind(front) + (":" + Behind(back)) == Behind(front + ([""] + back))
  {
    BehindCons("", back);
    BehindConcat(front, [""] + back);
  }

  lemma Listed(p: string, front: seq<string>, back: seq<string>)
    ensures [p] + (front + ([""] + back)) == [p] + front + [""] + back
    ensures NoColons(front) && NoColons(back) ==> NoColons(front + ([""] + back))
  {
  }

  lemma GapInsideText(ws: seq<Word>, r: Run, back: seq<string>, i: nat)
    requires Usable(ws, r) && i == 0 < r.base && Emit(ws, r, r.base + r.len) == Behind(back)
    ensures Emit(ws, r, i) == Hex(ws[i]) + Behind(Hexes(ws[i + 1..r.base]) + ([""] + back))
  {
    FirstWord(ws, r, i);
    FrontPrinted(ws, r, i + 1);
    ThreeParts(Hexes(ws[i + 1..r.base]), back);
  }

  lemma GapInside(ws: seq<Word>, r: Run, back: seq<string>, i: nat)
    requires Usable(ws, r) && i == 0 < r.base && Emit(ws, r, r.base + r.len) == Behind(back) && NoColons(back)
    ensures Pieces(Emit(ws, r, i)) == Hexes(ws[..r.base]) + [""] + back
  {
    var p, front := Hex(ws[i]), Hexes(ws[i + 1..r.base]);
    GapInsideText(ws, r, back, i);
    HexHasNoColon(ws[i]);
    HexesSpell(ws[i + 1..r.base]);
    Listed(p, front, back);
    PiecesBehind(p, front + ([""] + back));
    assert ws[..r.base][1..] == ws[i + 1..r.base];
  }

  lemma NoGap(ws: seq<Word>, r: Run, i: nat)
    requires |ws| == 8 && i == 0 && r.base == -1 && NoColons(Tail(ws, r, i))
    ensures Pieces(Emit(ws, r, i)) == Tail(ws, r, i)
  {
    var ps := Tail(ws, r, i + 1);
    FirstWord(ws, r, i);
    TailPrinted(ws, r, i + 1);
    HexHasNoColon(ws[i]);
    assert Tail(ws, r, i)[1..] == ps;
    PiecesBehind(Hex(ws[i]), ps);
  }

  lemma FrontPieces(b: seq<Byte>, r: Run, back: seq<string>) returns (front: seq<string>)
    requires |b| == 16 && Usable(Words(b), r) && r.base != -1
    requires Emit(Words(b), r, r.base + r.len) == Behind(back) && NoColons(back)
    ensures Pieces(Print6(b, r)) == front + [""] + back
    ensures if r.base == 0 then front == [""] else Spells(front, Words(b)[..r.base])
  {
    var ws := Words(b);
    if r.base == 0 {
      GapInFront(ws, r, back);
      front := [""];
    } else {
      GapInside(ws, r, back, 0);
      front := Hexes(ws[..r.base]);
      HexesSpell(ws[..r.base]);
    }
  }

  /** What `inet_ntop6` prints, for every address. */
  lemma Print6Exactly(b: seq<Byte>, r: Run)
    requires |b| == 16 && Best(Words(b), r)
    ensures Written(Pieces(Print6(b, r)), b, r)
  {
    if r.base != -1 {
      var back := BackPrinted(b, r);
      var front := FrontPieces(b, r, back);
    } else {
      EmbedsIff(b, r);
      TailEnds(b, r, 0);
      assert Words(b)[0..] == Words(b);
      NoGap(Words(b), r, 0);
    }
  }
}

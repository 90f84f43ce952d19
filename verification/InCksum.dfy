/** The Internet checksum of `in_cksum.c` against the ones'-complement sum of section 1 of RFC 1071. */
module InCksum {
  import opened Basics

  const TWO32 := 0x1_0000_0000

  /** The value a host of either byte order reads from two bytes in memory. */
  function Load(first: int, second: int, big: bool): Word
    requires 0 <= first < 0x100 && 0 <= second < 0x100
  {
    if big then first * 0x100 + second else second * 0x100 + first
  }

  /** The data as 16-bit words, the last one padded with a zero byte. */
  function WordsOf(data: seq<Byte>, big: bool): (ws: seq<Word>)
    ensures |ws| == (|data| + 1) / 2
  {
    if data == [] then []
    else if |data| == 1 then [Load(data[0], 0, big)]
    else [Load(data[0], data[1], big)] + WordsOf(data[2..], big)
  }

  /** Word `k` is made of bytes `2 k` and `2 k + 1`, in the order of the host, with zero for a missing one. */
  lemma {:induction false} WordAt(data: seq<Byte>, big: bool, k: nat)
    requires 2 * k < |data|
    ensures var first: int, second: int := data[2 * k], if 2 * k + 1 < |data| then data[2 * k + 1] else 0;
            WordsOf(data, big)[k] == if big then 0x100 * first + second else 0x100 * second + first
  {
    if k > 0 {
      WordAt(data[2..], big, k - 1);
    }
  }

  function Sum(ws: seq<Word>): (s: nat)
    ensures s <= 0xffff * |ws|
  {
    if ws == [] then 0 else ws[0] + Sum(ws[1..])
  }

  // ---------- ones'-complement arithmetic ----------

  /** Addition with the carry brought around. */
  function OnesAdd(a: int, b: int): Word
    requires 0 <= a < 0x1_0000 && 0 <= b < 0x1_0000
  {
    if a + b > 0xffff then a + b - 0xffff else a + b
  }

  function OnesSum(ws: seq<Word>): Word {
    if ws == [] then 0 else OnesAdd(OnesSum(ws[1..]), ws[0])
  }

  /** The 16-bit ones'-complement form of a sum. */
  function Norm(s: nat): Word {
    if s == 0 then 0 else (s - 1) % 0xffff + 1
  }

  lemma NormAdd(s: nat, w: Word)
    ensures Norm(s + w) == OnesAdd(Norm(s), w)
  {
  }

  lemma ModIs(x: int, q: int, r: int)
    requires x == q * 0xffff + r && 0 <= r < 0xffff
    ensures x % 0xffff == r
  {
  }

  lemma {:induction false} OnesSumIsNorm(ws: seq<Word>)
    ensures OnesSum(ws) == Norm(Sum(ws))
  {
    if ws != [] {
      OnesSumIsNorm(ws[1..]);
      NormAdd(Sum(ws[1..]), ws[0]);
    }
  }

  // ---------- the two folds ----------

  /** The high half added to the low half, the carry of that added once more, the result cut to 16 bits. */
  function Folded(sum: nat): Word
    requires sum < TWO32
  {
    var once := sum / 0x1_0000 + sum % 0x1_0000;
    var twice := once + once / 0x1_0000;
    twice % 0x1_0000
  }

  lemma TwoFoldsSuffice(sum: nat)
    requires sum < TWO32
    ensures Folded(sum) == Norm(sum)
  {
  }

  function Suffix(data: seq<Byte>, i: nat, big: bool): nat
    requires i <= |data|
  {
    Sum(WordsOf(data[i..], big))
  }

  lemma SuffixStep(data: seq<Byte>, i: nat, big: bool)
    requires i <= |data|
    ensures i + 2 <= |data| ==> Suffix(data, i, big) == Load(data[i], data[i + 1], big) + Suffix(data, i + 2, big)
    ensures i + 1 == |data| ==> Suffix(data, i, big) == Load(data[i], 0, big)
    ensures i == |data| ==> Suffix(data, i, big) == 0
  {
  }

  /** The loop and the odd byte: a 32-bit sum of the words. */
  method Accumulate(data: seq<Byte>, big: bool) returns (sum: nat)
    ensures sum == Sum(WordsOf(data, big)) % TWO32
  {
    var nleft, i := |data|, 0;
    sum := 0;
    ghost var total := Suffix(data, 0, big);
    assert data[0..] == data;
    while nleft > 1
      invariant 0 <= i <= |data| && nleft == |data| - i && sum < TWO32
      invariant (sum + Suffix(data, i, big)) % TWO32 == total % TWO32
    {
      var w := Load(data[i], data[i + 1], big);
      SuffixStep(data, i, big);
      Wraps(sum + w, Suffix(data, i + 2, big));
      sum := (sum + w) % TWO32;
      i := i + 2;
      nleft := nleft - 2;
    }
    SuffixStep(data, i, big);
    if nleft == 1 {
      sum := (sum + Load(data[i], 0, big)) % TWO32;
    }
  }

  /** `in_cksum`. The accumulator has 32 bits, so for any length that a C `int` can hold the answer is the
      checksum exactly if the words sum to less than that; up to 65537 words they always do. */
  method InCksum(data: seq<Byte>, big: bool) returns (answer: Word)
    ensures answer == 0xffff - Folded(Sum(WordsOf(data, big)) % TWO32)
    ensures |data| <= 2 * 65537 ==> answer == 0xffff - OnesSum(WordsOf(data, big))
    ensures |data| < INT_LIMIT ==>
              (answer == 0xffff - OnesSum(WordsOf(data, big)) <==> Sum(WordsOf(data, big)) < TWO32)
  {
    var sum := Accumulate(data, big);
    sum := sum / 0x1_0000 + sum % 0x1_0000;
    sum := sum + sum / 0x1_0000;
    answer := 0xffff - sum % 0x1_0000;
    if |data| < INT_LIMIT {
      RightIff(WordsOf(data, big));
    }
  }

  const INT_LIMIT := 0x8000_0000

  lemma Small(s: nat)
    requires s < TWO32
    ensures s % TWO32 == s
  {
  }

  lemma NoWrap(ws: seq<Word>)
    requires Sum(ws) < TWO32
    ensures Folded(Sum(ws) % TWO32) == OnesSum(ws)
  {
    var s := Sum(ws);
    Small(s);
    TwoFoldsSuffice(s);
    OnesSumIsNorm(ws);
  }

  /** Each time the accumulator wraps around, the sum loses one modulo 0xffff. */
  lemma WrapLosesOne(s: nat, q: nat, r: nat)
    requires s == q * TWO32 + r
    ensures s == q * 65537 * 0xffff + (q + r)
  {
  }

  /** Two sums with the same normal form differ by a multiple of 0xffff, and are both zero or neither. */
  lemma NormSame(s: nat, r: nat) returns (k: int)
    requires Norm(s) == Norm(r)
    ensures s - r == k * 0xffff && (s == 0 <==> r == 0)
  {
    k := 0;
    if s > 0 {
      k := (s - 1) / 0xffff - (r - 1) / 0xffff;
    }
  }

  /** A sum that has wrapped around fewer than 0xffff times has another normal form than what is left of it. */
  lemma WrappedDiffers(s: nat, q: nat, r: nat)
    requires s == q * TWO32 + r && 0 < q < 0xffff && r < TWO32
    ensures Norm(s) != Norm(r)
  {
    if Norm(s) == Norm(r) {
      var k := NormSame(s, r);
      WrapLosesOne(s, q, r);
    }
  }

  /** Exactly when the answer is the checksum. */
  lemma RightIff(ws: seq<Word>)
    requires |ws| <= INT_LIMIT / 2
    ensures Folded(Sum(ws) % TWO32) == OnesSum(ws) <==> Sum(ws) < TWO32
  {
    var s := Sum(ws);
    if s < TWO32 {
      NoWrap(ws);
    } else {
      var q, r := s / TWO32, s % TWO32;
      assert s == q * TWO32 + r;
      TwoFoldsSuffice(r);
      OnesSumIsNorm(ws);
      WrappedDiffers(s, q, r);
    }
  }

  lemma Wraps(a: nat, b: nat)
    ensures (a % TWO32 + b) % TWO32 == (a + b) % TWO32
  {
  }

  // ---------- what the checksum is for ----------

  lemma {:induction false} SumUpdate(ws: seq<Word>, j: nat, w: Word)
    requires j < |ws| && ws[j] == 0
    ensures Sum(ws[j := w]) == Sum(ws) + w
  {
    if j == 0 {
      assert ws[0 := w][1..] == ws[1..];
    } else {
      SumUpdate(ws[1..], j - 1, w);
      assert ws[j := w][1..] == ws[1..][j - 1 := w];
    }
  }

  /** The answer is 0 exactly if the words, not all zero, sum to a multiple of 0xffff. */
  lemma AcceptedIff(s: nat)
    ensures 0xffff - Norm(s) == 0 <==> s > 0 && s % 0xffff == 0
  {
  }

  /** Storing the checksum in an aligned field that was zero makes the checksum of the whole 0. */
  lemma StoredChecksumVerifies(ws: seq<Word>, j: nat)
    requires j < |ws| && ws[j] == 0
    ensures 0xffff - OnesSum(ws[j := 0xffff - OnesSum(ws)]) == 0
  {
    OnesSumIsNorm(ws);
    var s, c := Sum(ws), 0xffff - Norm(Sum(ws));
    SumUpdate(ws, j, c);
    OnesSumIsNorm(ws[j := c]);
    AcceptedIff(s + c);
    if s > 0 {
      var q, r := (s - 1) / 0xffff, (s - 1) % 0xffff;
      assert s == q * 0xffff + (r + 1) && c == 0xffff - (r + 1);
      assert s + c == (q + 1) * 0xffff;
      ModIs(s + c, q + 1, 0);
    }
  }

  /** The data after a 16-bit store at word `j`. */
  function Stamp(data: seq<Byte>, j: nat, c: Word, big: bool): seq<Byte>
    requires 2 * j + 2 <= |data|
  {
    if big then data[2 * j := c / 0x100][2 * j + 1 := c % 0x100] else data[2 * j := c % 0x100][2 * j + 1 := c / 0x100]
  }

  lemma {:induction false} StampedWords(data: seq<Byte>, j: nat, c: Word, big: bool)
    requires 2 * j + 2 <= |data|
    ensures WordsOf(Stamp(data, j, c, big), big) == WordsOf(data, big)[j := c]
  {
    var data' := Stamp(data, j, c, big);
    if j == 0 {
      assert data'[2..] == data[2..];
      assert Load(data'[0], data'[1], big) == c;
    } else {
      StampedWords(data[2..], j - 1, c, big);
      assert data'[2..] == Stamp(data[2..], j - 1, c, big);
    }
  }

  lemma {:induction false} FieldIsWord(data: seq<Byte>, j: nat, big: bool)
    requires 2 * j + 2 <= |data| && data[2 * j] == 0 && data[2 * j + 1] == 0
    ensures WordsOf(data, big)[j] == 0
  {
    if j > 0 {
      FieldIsWord(data[2..], j - 1, big);
    }
  }

  /** The sender computes the checksum with the field zero and stores it; the receiver's sum comes to 0. */
  method StampAndVerify(data: seq<Byte>, j: nat, big: bool) returns (sent: seq<Byte>, check: Word)
    requires 2 * j + 2 <= |data| <= 2 * 65537 && data[2 * j] == 0 && data[2 * j + 1] == 0
    ensures check == 0 && sent == Stamp(data, j, 0xffff - OnesSum(WordsOf(data, big)), big)
  {
    var c := InCksum(data, big);
    sent := Stamp(data, j, c, big);
    FieldIsWord(data, j, big);
    StampedWords(data, j, c, big);
    StoredChecksumVerifies(WordsOf(data, big), j);
    check := InCksum(sent, big);
  }

  function Swapped(w: int): Word
    requires 0 <= w < 0x1_0000
  {
    w % 0x100 * 0x100 + w / 0x100
  }

  /** Reading every word with its bytes exchanged multiplies the sum by 0x100, up to multiples of 0xffff. */
  lemma {:induction false} SumOnOtherHost(data: seq<Byte>) returns (k: nat)
    ensures Sum(WordsOf(data, true)) + k * 0xffff == 0x100 * Sum(WordsOf(data, false))
    ensures Sum(WordsOf(data, true)) == 0 <==> Sum(WordsOf(data, false)) == 0
  {
    if data == [] {
      k := 0;
    } else if |data| == 1 {
      k := 0;
      assert WordsOf(data, true)[1..] == [] && WordsOf(data, false)[1..] == [];
    } else {
      var k' := SumOnOtherHost(data[2..]);
      k := k' + data[1];
      assert WordsOf(data, true)[1..] == WordsOf(data[2..], true);
      assert WordsOf(data, false)[1..] == WordsOf(data[2..], false);
      Distribute(k', data[1]);
    }
  }

  lemma Distribute(a: int, b: int)
    ensures (a + b) * 0xffff == a * 0xffff + b * 0xffff
  {
  }

  /** Two normal forms that agree modulo 0xffff and on being zero are equal. */
  lemma NormUnique(x: nat, y: nat, s: nat, q: int)
    requires x <= 0xffff && y == Norm(s) && s == x + q * 0xffff && (x == 0 <==> s == 0)
    ensures x == y
  {
  }

  /** The checksum comes out the same in memory on hosts of either byte order. */
  lemma HostOrderDoesNotMatter(data: seq<Byte>)
    ensures 0xffff - OnesSum(WordsOf(data, true)) == Swapped(0xffff - OnesSum(WordsOf(data, false)))
  {
    OnesSumIsNorm(WordsOf(data, true));
    OnesSumIsNorm(WordsOf(data, false));
    var k := SumOnOtherHost(data);
    var big, little := Sum(WordsOf(data, true)), Sum(WordsOf(data, false));
    var x: int := Norm(little);
    if little > 0 {
      var q := (little - 1) / 0xffff;
      assert little == q * 0xffff + x;
      assert 0x100 * x == Swapped(x) + (x / 0x100) * 0xffff;
      var m := 0x100 * q + x / 0x100 - k;
      assert big == Swapped(x) + m * 0xffff;
      NormUnique(Swapped(x), Norm(big), big, m);
    }
    SwapComplement(x);
  }

  lemma SwapComplement(x: Word)
    ensures Swapped(0xffff - x) == 0xffff - Swapped(x)
  {
  }

  // ---------- the bound is exact ----------

  lemma {:induction false} SumOfOnes(n: nat)
    ensures Sum(seq(n, _ => 0xffff)) == n * 0xffff
  {
    if n > 0 {
      SumOfOnes(n - 1);
      var tail: seq<Word> := seq(n - 1, _ => 0xffff);
      var all: seq<Word> := seq(n, _ => 0xffff);
      assert all[1..] == tail;
    }
  }

  /** For every number of words above 65537 there are words that the answer is wrong for. */
  lemma LongerCanFail(n: nat)
    requires 65537 < n <= INT_LIMIT / 2
    ensures var ws: seq<Word> := seq(n, _ => 0xffff); Folded(Sum(ws) % TWO32) != OnesSum(ws)
  {
    var ws: seq<Word> := seq(n, _ => 0xffff);
    SumOfOnes(n);
    assert n * 0xffff >= 65538 * 0xffff;
    RightIff(ws);
  }
}

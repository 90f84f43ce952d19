/** The ODR frame header, its four types, and the byte-order conversions applied to it. */
module Frames {
  type Ip = string
  type Mac = string

  const RREQ := 1
  const RREP := 2
  const DATA := 3
  const ASENT := 4
  const PAYLOAD_SIZE := 1440

  /** `odr_frame_t`: seven integers, two addresses and the payload. */
  datatype Frame = Frame(
    ftype: int, bid: int, hops: int, len: int, flag: int, srcPort: int, dstPort: int,
    dst: Ip, src: Ip, payload: string)

  predicate Int32(x: int) {
    -0x8000_0000 <= x < 0x8000_0000
  }

  /** The four bytes a little-endian host stores for a C `int`, lowest address first. */
  function MemoryBytes(x: int): (bs: seq<int>)
    requires Int32(x)
  {
    var u := if x < 0 then x + 0x1_0000_0000 else x;
    [u % 0x100, u / 0x100 % 0x100, u / 0x1_0000 % 0x100, u / 0x100_0000]
  }

  predicate FourBytes(bs: seq<int>) {
    |bs| == 4 && forall i :: 0 <= i < 4 ==> 0 <= bs[i] < 0x100
  }

  /** The C `int` that a little-endian host reads back from four bytes. */
  function FromMemory(bs: seq<int>): (x: int)
    requires FourBytes(bs)
  {
    var u := bs[0] + bs[1] * 0x100 + bs[2] * 0x1_0000 + bs[3] * 0x100_0000;
    if u < 0x8000_0000 then u else u - 0x1_0000_0000
  }

  function Reversed(bs: seq<int>): seq<int>
    requires |bs| == 4
  {
    [bs[3], bs[2], bs[1], bs[0]]
  }

  /** Storing a value and reading it back. */
  lemma StoreThenRead(x: int)
    requires Int32(x)
    ensures FourBytes(MemoryBytes(x)) && FromMemory(MemoryBytes(x)) == x
  {
    var u := if x < 0 then x + 0x1_0000_0000 else x;
    var u1, u2, u3 := u / 0x100, u / 0x1_0000, u / 0x100_0000;
    assert u == u % 0x100 + 0x100 * u1;
    assert u2 == u1 / 0x100 && u1 == u1 % 0x100 + 0x100 * u2;
    assert u3 == u2 / 0x100 && u2 == u2 % 0x100 + 0x100 * u3;
  }

  /** `htonl`, which is also `ntohl`. A value no C `int` can hold is left alone. */
  function Swap(x: int): (r: int) {
    if Int32(x) then StoreThenRead(x); FromMemory(Reversed(MemoryBytes(x))) else x
  }

  /** Reading memory and storing the value again gives the same bytes. */
  lemma ReadThenStore(bs: seq<int>)
    requires FourBytes(bs)
    ensures Int32(FromMemory(bs)) && MemoryBytes(FromMemory(bs)) == bs
  {
    var u := bs[0] + bs[1] * 0x100 + bs[2] * 0x1_0000 + bs[3] * 0x100_0000;
    var rest := bs[1] + bs[2] * 0x100 + bs[3] * 0x1_0000;
    assert u == bs[0] + rest * 0x100;
    assert u / 0x100 == rest && u % 0x100 == bs[0];
    assert rest == bs[1] + (bs[2] + bs[3] * 0x100) * 0x100;
    assert u / 0x1_0000 == rest / 0x100 == bs[2] + bs[3] * 0x100;
    assert u / 0x100_0000 == bs[3];
  }

  /** What goes on the wire is the value most significant byte first. */
  lemma SwapIsNetworkOrder(x: int)
    requires Int32(x)
    ensures Int32(Swap(x)) && MemoryBytes(Swap(x)) == Reversed(MemoryBytes(x))
  {
    StoreThenRead(x);
    ReadThenStore(Reversed(MemoryBytes(x)));
  }

  lemma SwapTwice(x: int)
    ensures Swap(Swap(x)) == x
  {
    if Int32(x) {
      SwapIsNetworkOrder(x);
      StoreThenRead(x);
      assert Reversed(Reversed(MemoryBytes(x))) == MemoryBytes(x);
      calc {
        Swap(Swap(x));
        FromMemory(Reversed(MemoryBytes(Swap(x))));
        FromMemory(MemoryBytes(x));
        x;
      }
    }
  }

  /** `convert_host_net_order` and `convert_net_host_order`: all seven integers are swapped. */
  function Convert(f: Frame): Frame {
    f.(ftype := Swap(f.ftype), bid := Swap(f.bid), hops := Swap(f.hops), len := Swap(f.len),
       flag := Swap(f.flag), srcPort := Swap(f.srcPort), dstPort := Swap(f.dstPort))
  }

  predicate AllInt32(f: Frame) {
    && Int32(f.ftype) && Int32(f.bid) && Int32(f.hops) && Int32(f.len) && Int32(f.flag)
    && Int32(f.srcPort) && Int32(f.dstPort)
  }

  /** The value as it stands in memory once it has been converted. */
  predicate BigEndian(x: int, wire: int) {
    Int32(x) && Int32(wire) && MemoryBytes(wire) == Reversed(MemoryBytes(x))
  }

  /** None of the seven integers is forgotten, and nothing else is touched. */
  lemma ConvertsAll(f: Frame)
    requires AllInt32(f)
    ensures var w := Convert(f);
            && BigEndian(f.ftype, w.ftype) && BigEndian(f.bid, w.bid) && BigEndian(f.hops, w.hops)
            && BigEndian(f.len, w.len) && BigEndian(f.flag, w.flag)
            && BigEndian(f.srcPort, w.srcPort) && BigEndian(f.dstPort, w.dstPort)
            && w.dst == f.dst && w.src == f.src && w.payload == f.payload
  {
    SwapIsNetworkOrder(f.ftype);
    SwapIsNetworkOrder(f.bid);
    SwapIsNetworkOrder(f.hops);
    SwapIsNetworkOrder(f.len);
    SwapIsNetworkOrder(f.flag);
    SwapIsNetworkOrder(f.srcPort);
    SwapIsNetworkOrder(f.dstPort);
  }

  /** The receiver recovers every field the sender put in. */
  lemma ConvertTwice(f: Frame)
    ensures Convert(Convert(f)) == f
  {
    SwapTwice(f.ftype);
    SwapTwice(f.bid);
    SwapTwice(f.hops);
    SwapTwice(f.len);
    SwapTwice(f.flag);
    SwapTwice(f.srcPort);
    SwapTwice(f.dstPort);
  }
}

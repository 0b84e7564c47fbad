/** The packed layout of a client's request on the wire, little-endian, 38 bytes a frame. */
module WireFormat {
  import opened Types

  type Byte = b: nat | b < 256

  datatype OMClientRequest = OMClientRequest(seqNum: nat, request: ClientRequest)

  const FRAME: nat := 38

  function Power(width: nat): (p: nat)
    ensures p > 0
  {
    if width == 0 then 1 else 256 * Power(width - 1)
  }

  function Bytes(n: nat, width: nat): (bs: seq<Byte>)
    ensures |bs| == width
  {
    if width == 0 then [] else [n % 256] + Bytes(n / 256, width - 1)
  }

  function Unsigned(bs: seq<Byte>): nat {
    if bs == [] then 0 else bs[0] + 256 * Unsigned(bs[1..])
  }

  lemma {:induction false} UnsignedOfBytes(n: nat, width: nat)
    requires n < Power(width)
    ensures Unsigned(Bytes(n, width)) == n
  {
    if width > 0 {
      UnsignedOfBytes(n / 256, width - 1);
      assert Bytes(n, width)[1..] == Bytes(n / 256, width - 1);
    }
  }

  const TWO_63: int := 0x8000_0000_0000_0000
  const TWO_64: int := 0x1_0000_0000_0000_0000

  /** Two's complement of a signed 64-bit price. */
  function Wrapped(x: int): nat
    requires -TWO_63 <= x < TWO_63
  {
    if x < 0 then x + TWO_64 else x
  }

  function Signed(n: nat): int {
    if n < TWO_63 then n else n - TWO_64
  }

  function TypeByte(t: RequestType): Byte {
    match t case NEW_ORDER => 1 case CANCEL_ORDER => 2 case INVALID_REQUEST => 0
  }

  function TypeOf(b: Byte): RequestType {
    if b == 1 then NEW_ORDER else if b == 2 then CANCEL_ORDER else INVALID_REQUEST
  }

  function SideByte(s: Side): Byte {
    match s case BUY => 1 case SELL => 255 case INVALID_SIDE => 0
  }

  function SideOf(b: Byte): Side {
    if b == 1 then BUY else if b == 255 then SELL else INVALID_SIDE
  }

  function Decode(f: seq<Byte>): OMClientRequest
    requires |f| == FRAME
  {
    OMClientRequest(Unsigned(f[..8]),
      ClientRequest(TypeOf(f[8]), Unsigned(f[9..13]), Unsigned(f[13..17]), Unsigned(f[17..25]),
                    SideOf(f[25]), Signed(Unsigned(f[26..34])), Unsigned(f[34..])))
  }

  ghost predicate Representable(m: OMClientRequest) {
    && m.seqNum < Power(8) && m.request.clientId < Power(4) && m.request.tickerId < Power(4)
    && m.request.orderId < Power(8) && m.request.qty < Power(4) && -TWO_63 <= m.request.price < TWO_63
  }

  function Encode(m: OMClientRequest): (f: seq<Byte>)
    requires Representable(m)
    ensures |f| == FRAME
  {
    var r := m.request;
    Bytes(m.seqNum, 8) + [TypeByte(r.kind)] + Bytes(r.clientId, 4) + Bytes(r.tickerId, 4) + Bytes(r.orderId, 8)
      + [SideByte(r.side)] + Bytes(Wrapped(r.price), 8) + Bytes(r.qty, 4)
  }

  // ---------------------------------------------------------------- the layout, byte by byte

  /** The number in `width` bytes from `at` on, the lowest byte first: each byte times its power of 256. */
  function ByteSum(bs: seq<Byte>, at: nat, width: nat): nat
    requires at + width <= |bs|
  {
    if width == 0 then 0 else ByteSum(bs, at, width - 1) + bs[at + width - 1] * Power(width - 1)
  }

  lemma {:induction false} ByteSumFirst(bs: seq<Byte>, at: nat, width: nat)
    requires 0 < width && at + width <= |bs|
    ensures ByteSum(bs, at, width) == bs[at] + 256 * ByteSum(bs, at + 1, width - 1)
  {
    if width > 1 {
      ByteSumFirst(bs, at, width - 1);
      assert Power(width - 1) == 256 * Power(width - 2);
      var high := bs[at + width - 1];
      assert high * Power(width - 1) == 256 * (high * Power(width - 2));
    } else {
      assert Power(0) == 1;
    }
  }

  lemma {:induction false} UnsignedIsByteSum(bs: seq<Byte>, at: nat, width: nat)
    requires at + width <= |bs|
    ensures Unsigned(bs[at..at + width]) == ByteSum(bs, at, width)
    decreases width
  {
    if width > 0 {
      ByteSumFirst(bs, at, width);
      UnsignedIsByteSum(bs, at + 1, width - 1);
      assert bs[at..at + width][1..] == bs[at + 1..at + width];
    }
  }

  /** The highest byte of a field holds its sign. */
  lemma {:induction false} ByteSumBound(bs: seq<Byte>, at: nat, width: nat)
    requires at + width <= |bs|
    ensures ByteSum(bs, at, width) < Power(width)
  {
    if width > 0 {
      var high, p := bs[at + width - 1], Power(width - 1);
      ByteSumBound(bs, at, width - 1);
      Times(high, 255, p);
      OneMoreByte(ByteSum(bs, at, width - 1), high, p);
    }
  }

  lemma {:induction false} OneMoreByte(low: nat, high: nat, p: nat)
    requires low < p && high * p <= 255 * p
    ensures low + high * p < 256 * p
  {
  }

  lemma {:induction false} Times(a: nat, b: nat, p: nat)
    requires a <= b
    ensures a * p <= b * p
  {
    assert (b - a) * p >= 0;
  }

  /** A two's complement price: what its bytes add up to, less 2^64 if the highest bit is set. */
  function SignedSum(bs: seq<Byte>, at: nat): int
    requires at + 8 <= |bs|
  {
    ByteSum(bs, at, 8) - if bs[at + 7] >= 128 then TWO_64 else 0
  }

  lemma {:induction false} SignedIsByteSum(bs: seq<Byte>, at: nat)
    requires at + 8 <= |bs|
    ensures Signed(Unsigned(bs[at..at + 8])) == SignedSum(bs, at)
  {
    UnsignedIsByteSum(bs, at, 8);
    ByteSumBound(bs, at, 7);
    SevenBytes();
    assert ByteSum(bs, at, 8) == ByteSum(bs, at, 7) + bs[at + 7] * Power(7);
  }

  lemma {:induction false} SevenBytes()
    ensures Power(7) == 0x100_0000_0000_0000 && 128 * Power(7) == TWO_63
  {
  }

  /** Where each field of a request lies in its frame: number at 0, type at 8, client at 9, ticker at 13, order at 17,
      side at 25, price at 26, quantity at 34. */
  lemma {:induction false} FrameLayout(f: seq<Byte>)
    requires |f| == 38
    ensures var m, r := Decode(f), Decode(f).request;
            && m.seqNum == ByteSum(f, 0, 8)
            && (r.kind == NEW_ORDER <==> f[8] == 1) && (r.kind == CANCEL_ORDER <==> f[8] == 2)
            && r.clientId == ByteSum(f, 9, 4) && r.tickerId == ByteSum(f, 13, 4) && r.orderId == ByteSum(f, 17, 8)
            && (r.side == BUY <==> f[25] == 1) && (r.side == SELL <==> f[25] == 255)
            && r.price == SignedSum(f, 26) && r.qty == ByteSum(f, 34, 4)
  {
    UnsignedIsByteSum(f, 0, 8);
    UnsignedIsByteSum(f, 9, 4);
    UnsignedIsByteSum(f, 13, 4);
    UnsignedIsByteSum(f, 17, 8);
    SignedIsByteSum(f, 26);
    UnsignedIsByteSum(f, 34, 4);
    assert f[34..] == f[34..38];
  }

  lemma {:induction false} PowerFacts()
    ensures Power(8) == TWO_64
  {
  }

  /** What a client encodes, the gateway decodes. */
  lemma {:induction false} WireRoundTrip(m: OMClientRequest)
    requires Representable(m)
    ensures Decode(Encode(m)) == m
  {
    var r := m.request;
    var f := Encode(m);
    PowerFacts();
    assert f[..8] == Bytes(m.seqNum, 8) && f[8] == TypeByte(r.kind);
    assert f[9..13] == Bytes(r.clientId, 4) && f[13..17] == Bytes(r.tickerId, 4);
    assert f[17..25] == Bytes(r.orderId, 8) && f[25] == SideByte(r.side);
    assert f[26..34] == Bytes(Wrapped(r.price), 8) && f[34..] == Bytes(r.qty, 4);
    UnsignedOfBytes(m.seqNum, 8);
    UnsignedOfBytes(r.clientId, 4);
    UnsignedOfBytes(r.tickerId, 4);
    UnsignedOfBytes(r.orderId, 8);
    UnsignedOfBytes(Wrapped(r.price), 8);
    UnsignedOfBytes(r.qty, 4);
  }
}

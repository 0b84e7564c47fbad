/** The packed layout of a numbered market update, 42 bytes, and what the publisher puts on the wire of it. */
module MarketDataWire {
  import opened Types
  import opened WireFormat

  const UPDATE: nat := 34
  const MESSAGE: nat := 42
  const ADDRESS: nat := 8

  function KindByte(k: UpdateType): Byte {
    match k
    case INVALID_UPDATE => 0
    case CLEAR => 1
    case ADD => 2
    case MODIFY => 3
    case CANCEL => 4
    case TRADE => 5
    case SNAPSHOT_START => 6
    case SNAPSHOT_END => 7
  }

  function KindOf(b: Byte): UpdateType {
    match b
    case 1 => CLEAR
    case 2 => ADD
    case 3 => MODIFY
    case 4 => CANCEL
    case 5 => TRADE
    case 6 => SNAPSHOT_START
    case 7 => SNAPSHOT_END
    case _ => INVALID_UPDATE
  }

  /** Every field fits its width. */
  predicate FitsWidths(u: MarketUpdate) {
    && u.orderId < Power(8) && u.tickerId < Power(4) && u.qty < Power(4) && u.priority < Power(8)
    && -TWO_63 <= u.price < TWO_63
  }

  ghost predicate AllFit(ms: seq<MDPMarketUpdate>) {
    forall i :: 0 <= i < |ms| ==> ms[i].seqNum < Power(8) && FitsWidths(ms[i].update)
  }

  function UpdateBytes(u: MarketUpdate): (bs: seq<Byte>)
    requires -TWO_63 <= u.price < TWO_63
    ensures |bs| == UPDATE
  {
    [KindByte(u.kind)] + Bytes(u.orderId, 8) + Bytes(u.tickerId, 4) + [SideByte(u.side)] + Bytes(Wrapped(u.price), 8)
      + Bytes(u.qty, 4) + Bytes(u.priority, 8)
  }

  function DecodeUpdate(bs: seq<Byte>): MarketUpdate
    requires |bs| == UPDATE
  {
    MarketUpdate(KindOf(bs[0]), Unsigned(bs[1..9]), Unsigned(bs[9..13]), SideOf(bs[13]), Signed(Unsigned(bs[14..22])),
                 Unsigned(bs[22..26]), Unsigned(bs[26..]))
  }

  lemma {:induction false} UpdateRoundTrip(u: MarketUpdate)
    requires FitsWidths(u)
    ensures DecodeUpdate(UpdateBytes(u)) == u
  {
    var bs := UpdateBytes(u);
    PowerFacts();
    assert bs[0] == KindByte(u.kind) && bs[1..9] == Bytes(u.orderId, 8) && bs[9..13] == Bytes(u.tickerId, 4);
    assert bs[13] == SideByte(u.side) && bs[14..22] == Bytes(Wrapped(u.price), 8);
    assert bs[22..26] == Bytes(u.qty, 4) && bs[26..] == Bytes(u.priority, 8);
    UnsignedOfBytes(u.orderId, 8);
    UnsignedOfBytes(u.tickerId, 4);
    UnsignedOfBytes(Wrapped(u.price), 8);
    UnsignedOfBytes(u.qty, 4);
    UnsignedOfBytes(u.priority, 8);
  }

  /** The fields of an update that begins at byte `at`: kind at 0, order at 1, ticker at 9, side at 13, price at 14,
      quantity at 22, priority at 26. */
  predicate UpdateAt(bs: seq<Byte>, at: nat, u: MarketUpdate)
    requires at + 34 <= |bs|
  {
    && (u.kind == CLEAR <==> bs[at] == 1) && (u.kind == ADD <==> bs[at] == 2) && (u.kind == MODIFY <==> bs[at] == 3)
    && (u.kind == UpdateType.CANCEL <==> bs[at] == 4) && (u.kind == TRADE <==> bs[at] == 5)
    && (u.kind == SNAPSHOT_START <==> bs[at] == 6) && (u.kind == SNAPSHOT_END <==> bs[at] == 7)
    && u.orderId == ByteSum(bs, at + 1, 8) && u.tickerId == ByteSum(bs, at + 9, 4)
    && (u.side == BUY <==> bs[at + 13] == 1) && (u.side == SELL <==> bs[at + 13] == 255)
    && u.price == SignedSum(bs, at + 14) && u.qty == ByteSum(bs, at + 22, 4) && u.priority == ByteSum(bs, at + 26, 8)
  }

  lemma {:induction false} UpdateLayout(bs: seq<Byte>)
    requires |bs| == 34
    ensures UpdateAt(bs, 0, DecodeUpdate(bs))
  {
    UnsignedIsByteSum(bs, 1, 8);
    UnsignedIsByteSum(bs, 9, 4);
    SignedIsByteSum(bs, 14);
    UnsignedIsByteSum(bs, 22, 4);
    UnsignedIsByteSum(bs, 26, 8);
    assert bs[26..] == bs[26..34];
  }

  /** A send of the publisher: a number, and so many bytes of the update. */
  datatype Sending = Sending(m: MDPMarketUpdate, size: nat)

  /** As written the program sends as many bytes of the update as a pointer to it has. */
  function Sendings(code: Code, ms: seq<MDPMarketUpdate>): (ss: seq<Sending>)
    ensures |ss| == |ms|
    ensures forall i :: 0 <= i < |ms| ==> ss[i] == Sending(ms[i], if code.Repaired? then UPDATE else ADDRESS)
  {
    seq(|ms|, i requires 0 <= i < |ms| => Sending(ms[i], if code.Repaired? then UPDATE else ADDRESS))
  }

  predicate CanSend(ss: seq<Sending>) {
    forall i :: 0 <= i < |ss| ==> -TWO_63 <= ss[i].m.update.price < TWO_63 && ss[i].size <= UPDATE
  }

  function OnWire(ss: seq<Sending>): (bs: seq<Byte>)
    requires CanSend(ss)
  {
    if ss == [] then []
    else Bytes(ss[0].m.seqNum, 8) + UpdateBytes(ss[0].m.update)[..ss[0].size] + OnWire(ss[1..])
  }

  /** The messages a consumer reads off such bytes. */
  function Received(bs: seq<Byte>): (ms: seq<MDPMarketUpdate>)
    ensures |ms| == |bs| / MESSAGE
  {
    if |bs| < MESSAGE then []
    else [MDPMarketUpdate(Unsigned(bs[..8]), DecodeUpdate(bs[8..MESSAGE]))] + Received(bs[MESSAGE..])
  }

  lemma {:induction false} SumInSlice(bs: seq<Byte>, from: nat, end: nat, at: nat, width: nat)
    requires from <= end <= |bs| && from + at + width <= end
    ensures ByteSum(bs[from..end], at, width) == ByteSum(bs, from + at, width)
  {
    if width > 0 {
      SumInSlice(bs, from, end, at, width - 1);
    }
  }

  lemma {:induction false} UpdateInSlice(bs: seq<Byte>, from: nat, end: nat, at: nat, u: MarketUpdate)
    requires from <= end <= |bs| && from + at + 34 <= end && UpdateAt(bs[from..end], at, u)
    ensures UpdateAt(bs, from + at, u)
  {
    SumInSlice(bs, from, end, at + 1, 8);
    SumInSlice(bs, from, end, at + 9, 4);
    SumInSlice(bs, from, end, at + 14, 8);
    SumInSlice(bs, from, end, at + 22, 4);
    SumInSlice(bs, from, end, at + 26, 8);
  }

  lemma {:induction false} FirstLayout(bs: seq<Byte>)
    requires 42 <= |bs|
    ensures Received(bs) != [] && Received(bs)[0].seqNum == ByteSum(bs, 0, 8) && UpdateAt(bs, 8, Received(bs)[0].update)
  {
    UnsignedIsByteSum(bs, 0, 8);
    UpdateLayout(bs[8..42]);
    UpdateInSlice(bs, 8, 42, 0, DecodeUpdate(bs[8..42]));
  }

  lemma {:induction false} LaterReceived(bs: seq<Byte>, k: nat)
    requires 0 < k && 42 * (k + 1) <= |bs|
    ensures k < |Received(bs)| && Received(bs)[k] == Received(bs[42..])[k - 1]
  {
  }

  /** A message that begins at byte `at`: its number in the first 8 of 42 bytes, then its update. */
  predicate MessageAt(bs: seq<Byte>, at: nat, m: MDPMarketUpdate)
    requires at + 42 <= |bs|
  {
    m.seqNum == ByteSum(bs, at, 8) && UpdateAt(bs, at + 8, m.update)
  }

  lemma {:induction false} MessageInRest(bs: seq<Byte>, at: nat, m: MDPMarketUpdate)
    requires 42 + at + 42 <= |bs| && MessageAt(bs[42..], at, m)
    ensures MessageAt(bs, 42 + at, m)
  {
    assert bs[42..] == bs[42..|bs|];
    SumInSlice(bs, 42, |bs|, at, 8);
    UpdateInSlice(bs, 42, |bs|, at + 8, m.update);
  }

  /** Where each field of the `k`-th message lies. */
  lemma {:induction false} MessageLayout(bs: seq<Byte>, k: nat)
    requires 42 * (k + 1) <= |bs|
    ensures k < |Received(bs)| && MessageAt(bs, 42 * k, Received(bs)[k])
  {
    if k == 0 {
      FirstLayout(bs);
    } else {
      MessageLayout(bs[42..], k - 1);
      LaterReceived(bs, k);
      MessageInRest(bs, 42 * (k - 1), Received(bs)[k]);
    }
  }

  lemma {:induction false} WireLength(ss: seq<Sending>, size: nat)
    requires CanSend(ss) && forall i :: 0 <= i < |ss| ==> ss[i].size == size
    ensures |OnWire(ss)| == |ss| * (8 + size)
  {
    if ss != [] {
      WireLength(ss[1..], size);
    }
  }

  /** As written 16 of the 42 bytes of every message are sent. */
  lemma {:induction false} BytesSent(code: Code, ms: seq<MDPMarketUpdate>)
    requires AllFit(ms)
    ensures |OnWire(Sendings(code, ms))| == |ms| * if code.Repaired? then 42 else 16
  {
    WireLength(Sendings(code, ms), if code.Repaired? then UPDATE else ADDRESS);
  }

  lemma {:induction false} WholeArrives(ms: seq<MDPMarketUpdate>)
    requires AllFit(ms)
    ensures Received(OnWire(Sendings(Repaired, ms))) == ms
  {
    if ms != [] {
      var m := ms[0];
      var ss := Sendings(Repaired, ms);
      var bs := OnWire(ss);
      assert ss[1..] == Sendings(Repaired, ms[1..]);
      WholeArrives(ms[1..]);
      UnsignedOfBytes(m.seqNum, 8);
      UpdateRoundTrip(m.update);
      assert bs[..8] == Bytes(m.seqNum, 8) && bs[8..MESSAGE] == UpdateBytes(m.update);
      assert bs[MESSAGE..] == OnWire(ss[1..]);
    }
  }

  /** A consumer reads what was published if and only if whole updates are sent, or none. */
  lemma {:induction false} ArrivesExactly(code: Code, ms: seq<MDPMarketUpdate>)
    requires AllFit(ms)
    ensures Received(OnWire(Sendings(code, ms))) == ms <==> code.Repaired? || ms == []
  {
    if code.Repaired? {
      WholeArrives(ms);
    } else {
      WireLength(Sendings(code, ms), ADDRESS);
    }
  }
}

/** When an order may rest: a condition a caller can check, and the inputs on which the program as
    written, or even repaired, loses its book. */
module BookConditions {
  import opened Types
  import opened PriceTime
  import opened PriceTimeInvariant
  import opened BookMemory
  import opened BookResting
  import opened OrderBook

  /** Within a window of 256 prices, negative ones included, every price has its own slot. */
  lemma {:induction false} WindowHasNoCollision(lo: int, p: int, q: int)
    requires lo <= p < lo + ME_MAX_PRICE_LEVELS && lo <= q < lo + ME_MAX_PRICE_LEVELS
    ensures Slot(p) == Slot(q) <==> p == q
  {
  }

  /** Two prices, negative ones included, share one of the 256 slots exactly when they are a multiple of 256 apart. */
  lemma {:induction false} SlotsCollideExactly(p: int, q: int)
    ensures 0 <= Slot(p) < 256 && (Slot(p) == Slot(q) <==> (p - q) % 256 == 0)
  {
  }

  ghost predicate InWindow(q: seq<MEOrder>, lo: int) {
    forall i :: 0 <= i < |q| ==> lo <= q[i].price < lo + ME_MAX_PRICE_LEVELS
  }

  lemma {:induction false} SlotsInWindow(q: seq<MEOrder>, o: MEOrder, lo: int)
    requires InWindow(q, lo) && lo <= o.price < lo + ME_MAX_PRICE_LEVELS
    requires forall i :: 0 <= i < |q| && q[i].price == o.price ==> q[i].side == o.side
    ensures SlotFits(q, o)
  {
  }

  lemma {:induction false} LeftInWindow(p: seq<MEOrder>, q: seq<MEOrder>, lo: int)
    requires Left(p, q) && InWindow(q, lo)
    ensures InWindow(p, lo)
  {
  }

  /** One price table shared by both sides is sound. After trading, no resting order of the other side is
      at the incoming price, so in a window of 256 prices the repaired program rests every remainder whose
      client has no live order under the same id. */
  lemma {:induction false} WindowMayRest(b: PriceTime.Book, r: ClientRequest, ticker: nat, lo: int)
    requires WF(b, ticker) && IsNewOrder(r, ticker) && FreshKey(b, r)
    requires InWindow(b.bids, lo) && InWindow(b.asks, lo) && lo <= r.price < lo + ME_MAX_PRICE_LEVELS
    ensures MayRest(Repaired, b, r)
  {
    var m := MatchOf(b, r, 0);
    if m.leaves > 0 {
      var own, opp := Queue(b, r.side), Queue(b, Opposite(r.side));
      var o := Remainder(b, r, m.leaves);
      FreshKeys(b, r);
      assert KeyFree(own, o) by { assert forall i :: 0 <= i < |own| ==> own[i] in own; }
      assert KeyFree(m.queue, o) by { assert forall i :: 0 <= i < |m.queue| ==> m.queue[i] in m.queue; }
      MatchedQueue(b, r, ticker);
      LeftInWindow(m.queue, opp, lo);
      assert SlotFits(m.queue, o) by { SlotsInWindow(m.queue, o, lo); }
      assert SlotFits(own, o) by {
        WFBySide(b, r.side, ticker);
        assert forall i :: 0 <= i < |own| ==> Resting(own[i], r.side, ticker, b.nextId);
        SlotsInWindow(own, o, lo);
      }
    }
  }

  function Request(client: nat, id: nat, side: Side, price: int): ClientRequest {
    ClientRequest(NEW_ORDER, client, 0, id, side, price, 1)
  }

  function Alone(side: Side, price: int): PriceTime.Book {
    var o := MEOrder(0, 1, 1, 1, side, price, 1, 1);
    if side == BUY then PriceTime.Book([o], [], 2) else PriceTime.Book([], [o], 2)
  }

  lemma {:induction false} AloneIsReached(side: Side, price: int)
    requires IsSide(side)
    ensures PriceTime.Add(PriceTime.EMPTY, Request(1, 1, side, price)).book == Alone(side, price)
  {
  }

  /** As written, a new best ask loses the book; a new best bid does not, and repaired neither does. */
  lemma {:induction false} NewBestAskIsLost()
    ensures !MayRest(AsWritten, Alone(SELL, 101), Request(2, 2, SELL, 100))
    ensures MayRest(AsWritten, Alone(BUY, 100), Request(2, 2, BUY, 101))
    ensures MayRest(Repaired, Alone(SELL, 101), Request(2, 2, SELL, 100))
  {
  }

  /** As written, a bid level between two others loses the book. */
  lemma {:induction false} MiddleBidIsLost()
    ensures var b := PriceTime.Add(Alone(BUY, 102), Request(2, 2, BUY, 100)).book;
            && !MayRest(AsWritten, b, Request(3, 3, BUY, 101))
            && MayRest(Repaired, b, Request(3, 3, BUY, 101))
  {
    var r := Request(2, 2, BUY, 100);
    var first := Alone(BUY, 102).bids[0];
    var o := Remainder(Alone(BUY, 102), r, 1);
    assert Insert([first], o) == [first] + Insert([], o);
    var b := PriceTime.Add(Alone(BUY, 102), r).book;
    assert b.bids == [first, o];
    assert MatchOf(b, Request(3, 3, BUY, 101), 0).leaves == 1;
  }

  /** Even repaired, two prices 256 apart share a slot, and the second order joins the first one's level. */
  lemma {:induction false} CollidingPricesAreMixed()
    ensures !MayRest(Repaired, Alone(BUY, 100), Request(2, 2, BUY, 100 + 256))
  {
  }

  /** As written, fills report the lowest 32 bits of the id. */
  lemma {:induction false} ReportedBits(id: nat)
    ensures ReportedId(AsWritten, id) < 0x1_0000_0000 && ReportedId(Repaired, id) == id
    ensures ReportedId(AsWritten, id) + id / 0x1_0000_0000 * 0x1_0000_0000 == id
  {
  }

  /** Passing the id through a 32-bit quantity is harmless exactly while it fits, or while the matching loop would
      not enter its first turn. */
  lemma {:induction false} TruncatedIdExactly(b: PriceTime.Book, r: ClientRequest)
    ensures var q := Queue(b, Opposite(r.side));
            AddReporting(b, r, ReportedId(AsWritten, b.nextId)) == PriceTime.Add(b, r) <==>
            b.nextId < QTY_MODULUS || r.qty == 0 || q == [] || !Crosses(r.side, r.price, q[0].price)
  {
    var q := Queue(b, Opposite(r.side));
    var id := ReportedId(AsWritten, b.nextId);
    MatchIgnoresId(r, id, b.nextId, q, r.qty);
    var m, m' := Match(r, b.nextId, q, r.qty), Match(r, id, q, r.qty);
    var x, x' := PriceTime.Add(b, r), AddReporting(b, r, id);
    assert x.responses[1..] == m.responses && x'.responses[1..] == m'.responses;
    if r.qty > 0 && q != [] && Crosses(r.side, r.price, q[0].price) {
      assert m.responses[0].marketOrderId == b.nextId && m'.responses[0].marketOrderId == id;
    }
  }
}

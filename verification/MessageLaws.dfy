/** What the messages of a book say, field by field: of a fill, of an order accepted or rested, of a cancel, and of an
    order that the mirror shows. Prices are compared as numbers. */
module MessageLaws {
  import opened Types
  import opened PriceTime
  import opened PriceTimeInvariant
  import opened PriceTimeLaws
  import opened MarketData
  import opened MatchingEngine
  import opened MirrorAgreement

  // ---------------------------------------------------------------- queues

  /** The best bid is the highest and the best ask the lowest; at one price, older orders and lower priorities
      first. */
  lemma {:induction false} QueueOrder(q: seq<MEOrder>, side: Side, ticker: nat, nextId: nat, i: nat, j: nat)
    requires IsSide(side) && QueueWF(q, side, ticker, nextId) && i < j < |q|
    ensures if side == BUY then q[i].price >= q[j].price else q[i].price <= q[j].price
    ensures q[i].price == q[j].price ==> q[i].priority < q[j].priority && q[i].marketOrderId < q[j].marketOrderId
  {
    assert Ahead(side, q[i], q[j]);
  }

  // ---------------------------------------------------------------- fills

  /** The four messages of the fill with `o`: all of them report the resting order's price, three of them the same
      quantity, and the price is within the taker's limit. `ahead` is what the orders before it gave. */
  ghost predicate FillSaid(r: ClientRequest, id: nat, o: MEOrder, leaves: nat, ahead: nat, taker: ClientResponse,
                           maker: ClientResponse, trade: MarketUpdate, rest: MarketUpdate) {
    && taker.price == maker.price == trade.price == rest.price == o.price
    && (if r.side == BUY then o.price <= r.price else o.price >= r.price)
    && 0 < taker.execQty == maker.execQty == trade.qty
    && taker.leavesQty + taker.execQty + ahead == leaves && maker.leavesQty + maker.execQty == o.qty
    && (taker.leavesQty == 0 || maker.leavesQty == 0)
    && taker.kind == maker.kind == FILLED && trade.kind == TRADE
    && taker.clientId == r.clientId && taker.clientOrderId == r.orderId
    && taker.marketOrderId == id && taker.side == trade.side == r.side
    && maker.clientId == o.clientId && maker.clientOrderId == o.clientOrderId
    && maker.marketOrderId == rest.orderId == o.marketOrderId && maker.side == rest.side == o.side
    && taker.tickerId == maker.tickerId == trade.tickerId == rest.tickerId == r.tickerId
    && trade.orderId == 0xFFFF_FFFF_FFFF_FFFF && trade.priority == 0xFFFF_FFFF_FFFF_FFFF
    && (if maker.leavesQty == 0
        then rest.kind == UpdateType.CANCEL && rest.qty == o.qty && rest.priority == 0xFFFF_FFFF_FFFF_FFFF
        else rest.kind == MODIFY && rest.qty == maker.leavesQty && rest.priority == o.priority)
  }

  /** What a match says: the i-th fill is with the i-th order of the queue; and while quantity is left, every price
      left is strictly beyond the limit. */
  lemma {:induction false} MatchSays(r: ClientRequest, id: nat, q: seq<MEOrder>, leaves: nat)
    requires IsSide(r.side) && Sorted(q, Opposite(r.side)) && Positive(q)
    ensures var m := Match(r, id, q, leaves);
            var n := |m.updates| / 2;
            && |m.updates| == |m.responses| == 2 * n && n <= |q|
            && (forall i :: 0 <= i < n ==>
                  FillSaid(r, id, q[i], leaves, Total(q[..i]), m.responses[2 * i], m.responses[2 * i + 1],
                           m.updates[2 * i], m.updates[2 * i + 1]))
            && (m.leaves > 0 ==> forall i :: 0 <= i < |m.queue| ==>
                  if r.side == BUY then m.queue[i].price > r.price else m.queue[i].price < r.price)
  {
    var m := Match(r, id, q, leaves);
    MatchClosedForm(r, id, q, leaves);
    forall i | 0 <= i < |m.updates| / 2
      ensures FillSaid(r, id, q[i], leaves, Total(q[..i]), m.responses[2 * i], m.responses[2 * i + 1],
                       m.updates[2 * i], m.updates[2 * i + 1])
    {
      assert TradedAt(r, id, q, leaves, m, i);
    }
    MatchStops(r, id, q, leaves);
    LeftSorted(m.queue, q, Opposite(r.side));
    if m.leaves > 0 {
      NoneCrosses(r, m.queue);
    }
  }

  lemma {:induction false} LeftSorted(p: seq<MEOrder>, q: seq<MEOrder>, side: Side)
    requires Left(p, q) && Sorted(q, side)
    ensures Sorted(p, side)
  {
  }

  // ---------------------------------------------------------------- accepting and resting

  /** The acknowledgement of a new order under the id that it is given. */
  ghost predicate AcceptSaid(r: ClientRequest, id: nat, c: ClientResponse) {
    && c.kind == ACCEPTED && c.clientId == r.clientId && c.tickerId == r.tickerId && c.clientOrderId == r.orderId
    && c.marketOrderId == id && c.side == r.side && c.price == r.price && c.execQty == 0 && c.leavesQty == r.qty
  }

  /** The announcement of what is left: its priority is one above the highest at its price on its side, or 1. */
  ghost predicate RestSaid(r: ClientRequest, id: nat, leaves: nat, own: seq<MEOrder>, u: MarketUpdate) {
    && u.kind == ADD && u.orderId == id && u.tickerId == r.tickerId && u.side == r.side && u.price == r.price
    && u.qty == leaves
    && (forall i :: 0 <= i < |own| && own[i].price == r.price ==> own[i].priority < u.priority)
    && (u.priority == 1 || exists i :: 0 <= i < |own| && own[i].price == r.price && own[i].priority + 1 == u.priority)
  }

  lemma {:induction false} LastPriorityReached(q: seq<MEOrder>, price: int)
    ensures LastPriority(q, price) == 0
            || exists i :: 0 <= i < |q| && q[i].price == price && q[i].priority == LastPriority(q, price)
  {
    if q != [] && q[|q| - 1].price != price {
      LastPriorityReached(q[..|q| - 1], price);
    }
  }

  /** What a new order says: one acknowledgement, what its match says, and one announcement if quantity is left. */
  lemma {:induction false} AddSays(b: PriceTime.Book, r: ClientRequest, id: nat, ticker: nat)
    requires WF(b, ticker) && IsNewOrder(r, ticker)
    ensures var m, x := Match(r, id, Queue(b, Opposite(r.side)), r.qty), AddReporting(b, r, id);
            && x.responses != [] && AcceptSaid(r, b.nextId, x.responses[0]) && x.responses[1..] == m.responses
            && (m.leaves == 0 ==> x.updates == m.updates)
            && (m.leaves > 0 ==> x.updates != [] && x.updates[..|x.updates| - 1] == m.updates
                                 && RestSaid(r, b.nextId, m.leaves, Queue(b, r.side), x.updates[|x.updates| - 1]))
  {
    var own := Queue(b, r.side);
    LastPriorityReached(own, r.price);
    LastPriorityIsHighest(own, r.side, r.price);
  }

  // ---------------------------------------------------------------- cancelling

  /** What a cancel says: of the client's order that rests, or that none does. */
  lemma {:induction false} CancelSays(b: PriceTime.Book, r: ClientRequest)
    ensures var x := PriceTime.Cancel(b, r);
            && |x.responses| == 1
            && var c := x.responses[0];
            && c.clientId == r.clientId && c.tickerId == r.tickerId && c.clientOrderId == r.orderId
            && c.execQty == 0xFFFF_FFFF
            && if forall o :: o in b.bids + b.asks ==> (o.clientId, o.clientOrderId) != (r.clientId, r.orderId)
               then
                 && x.updates == [] && c.kind == CANCEL_REJECTED && c.marketOrderId == 0xFFFF_FFFF_FFFF_FFFF
                 && c.side == INVALID_SIDE && c.price == 0x7FFF_FFFF_FFFF_FFFF && c.leavesQty == 0xFFFF_FFFF
               else
                 && |x.updates| == 1 && c.kind == CANCELED
                 && exists o :: o in b.bids + b.asks && (o.clientId, o.clientOrderId) == (r.clientId, r.orderId)
                                && CancelSaid(o, c, x.updates[0]) && x.updates[0].tickerId == r.tickerId
  {
    var key, all := (r.clientId, r.orderId), b.bids + b.asks;
    var found := Lookup(all, key);
    if found.None? {
      forall o | o in all ensures (o.clientId, o.clientOrderId) != key {
        var i :| 0 <= i < |all| && all[i] == o;
        assert all[i].Key() != key;
      }
    } else {
      assert found.value in all && found.value.Key() == key;
      assert CancelSaid(found.value, Canceled(r, found.value), CancelUpdate(r, found.value));
    }
  }

  /** Both messages of a cancel name the order's market id, side and price; the response says what was open. */
  ghost predicate CancelSaid(o: MEOrder, c: ClientResponse, u: MarketUpdate) {
    && c.marketOrderId == u.orderId == o.marketOrderId && c.side == u.side == o.side && c.price == u.price == o.price
    && c.leavesQty == o.qty && u.kind == UpdateType.CANCEL && u.qty == 0 && u.priority == o.priority
  }

  // ---------------------------------------------------------------- the mirror and its rounds

  /** The mirror shows every resting order under its ticker and market id, and nothing else. */
  lemma {:induction false} MirrorShows(s: Orders, books: seq<PriceTime.Book>, t: nat)
    requires AllWF(books) && Agrees(s, books) && t < |books|
    ensures forall o :: o in books[t].bids + books[t].asks ==>
              && (t, o.marketOrderId) in s
              && var u := s[(t, o.marketOrderId)];
              && u.kind == ADD && u.orderId == o.marketOrderId && u.tickerId == t && u.side == o.side
              && u.price == o.price && u.qty == o.qty && u.priority == o.priority
    ensures forall id: nat :: (t, id) in s ==> exists o :: o in books[t].bids + books[t].asks && o.marketOrderId == id
  {
    var b := books[t];
    assert WF(b, t) && ShowsBook(s, t, b);
    forall o | o in b.bids + b.asks
      ensures (t, o.marketOrderId) in s && s[(t, o.marketOrderId)] == AddUpdate(o) && o.tickerId == t
    {
      CancelFinds(b, o, t);
      assert RestingOrder(b.bids, b.asks, o.marketOrderId) == Some(o);
    }
    forall id: nat | (t, id) in s ensures exists o :: o in b.bids + b.asks && o.marketOrderId == id {
      assert RestingOrder(b.bids, b.asks, id).Some?;
      var o := RestingOrder(b.bids, b.asks, id).value;
      assert o in b.bids + b.asks && o.marketOrderId == id;
    }
  }

  /** What one update does to the mirror: which of its assertions can fail, and which fields change. */
  lemma {:induction false} FoldSays(z: Size, s: Orders, u: MarketUpdate)
    ensures var k := (u.tickerId, u.orderId);
            var f := Fold(z, s, u);
            match u.kind
            case ADD =>
              && (f.Some? <==> u.tickerId < z.tickers && u.orderId < z.ids && k !in s)
              && (f.Some? ==> f.value == s[k := u])
            case MODIFY =>
              && (f.Some? <==> u.tickerId < z.tickers && u.orderId < z.ids && k in s
                               && s[k].orderId == u.orderId && s[k].side == u.side)
              && (f.Some? ==> k in f.value && f.value.Keys == s.Keys
                              && f.value[k] == MarketUpdate(s[k].kind, s[k].orderId, s[k].tickerId, s[k].side, u.price,
                                                            u.qty, s[k].priority)
                              && forall l :: l in s && l != k ==> f.value[l] == s[l])
            case CANCEL =>
              && (f.Some? <==> u.tickerId < z.tickers && u.orderId < z.ids && k in s
                               && s[k].orderId == u.orderId && s[k].side == u.side)
              && (f.Some? ==> k !in f.value && forall l :: l != k ==> (l in f.value <==> l in s)
                                                                      && (l in s ==> f.value[l] == s[l]))
            case _ => f == if u.tickerId < z.tickers then Some(s) else None
  {
  }

  /** The messages around and between the rows of a round. */
  lemma {:induction false} RoundSays(z: Size, s: Orders, last: nat)
    ensures var us := Round(z, s, last);
            && |us| >= 2
            && us[0].kind == SNAPSHOT_START && us[|us| - 1].kind == SNAPSHOT_END
            && us[0].orderId == us[|us| - 1].orderId == last
            && us[0].tickerId == us[|us| - 1].tickerId == 0xFFFF_FFFF
  {
  }
}

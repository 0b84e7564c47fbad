/** The life of an order as its responses tell it: one acceptance, fills that add up and keep to its limit, then
    nothing, and all of it told to the client that sent the order, under the client's own id. */
module OrderLife {
  import opened Types
  import opened PriceTime
  import opened PriceTimeInvariant
  import opened PriceTimeLaws

  /** What was accepted under a market order id, and the quantity still open; 0 once filled or cancelled. */
  datatype Life = Life(clientId: nat, tickerId: nat, clientOrderId: nat, side: Side, limit: int, open: nat)

  type Lives = map<nat, Life>

  /** The response names the client, ticker, client order id and side that were accepted. */
  predicate Addressed(l: Life, c: ClientResponse) {
    c.clientId == l.clientId && c.tickerId == l.tickerId && c.clientOrderId == l.clientOrderId && c.side == l.side
  }

  function Opens(s: Lives, id: nat, open: nat): Lives
    requires id in s
  {
    s[id := s[id].(open := open)]
  }

  /** The responses an order may get in its present state. A fill must keep to the limit and lower the open
      quantity by exactly what it executed; a cancel must report what was open; a finished or unknown id gets
      neither. */
  function Hear(s: Lives, c: ClientResponse): Option<Lives> {
    var id := c.marketOrderId;
    match c.kind
    case ACCEPTED =>
      if id in s || c.execQty != 0 then None
      else Some(s[id := Life(c.clientId, c.tickerId, c.clientOrderId, c.side, c.price, c.leavesQty)])
    case FILLED =>
      if id in s && Addressed(s[id], c)
         && (if c.side == BUY then c.price <= s[id].limit else c.price >= s[id].limit)
         && 0 < c.execQty <= s[id].open && c.leavesQty == s[id].open - c.execQty
      then Some(Opens(s, id, c.leavesQty)) else None
    case CANCELED =>
      if id in s && Addressed(s[id], c) && c.price == s[id].limit && 0 < s[id].open == c.leavesQty
      then Some(Opens(s, id, 0)) else None
    case CANCEL_REJECTED => Some(s)
  }

  function HearAll(s: Lives, cs: seq<ClientResponse>): Option<Lives>
    decreases |cs|
  {
    if cs == [] then Some(s)
    else if Hear(s, cs[0]).None? then None
    else HearAll(Hear(s, cs[0]).value, cs[1..])
  }

  lemma {:induction false} HearConcat(s: Lives, cs: seq<ClientResponse>, ds: seq<ClientResponse>)
    requires HearAll(s, cs).Some?
    ensures HearAll(s, cs + ds) == HearAll(HearAll(s, cs).value, ds)
    decreases |cs|
  {
    if cs == [] {
      assert cs + ds == ds;
    } else {
      assert (cs + ds)[1..] == cs[1..] + ds;
      HearConcat(Hear(s, cs[0]).value, cs[1..], ds);
    }
  }

  /** The quantity resting under a market order id. */
  function QtyById(q: seq<MEOrder>, id: nat): nat {
    if q == [] then 0 else (if q[0].marketOrderId == id then q[0].qty else 0) + QtyById(q[1..], id)
  }

  lemma {:induction false} QtyInsert(q: seq<MEOrder>, o: MEOrder, id: nat)
    ensures QtyById(Insert(q, o), id) == QtyById(q, id) + if o.marketOrderId == id then o.qty else 0
  {
    if !(q == [] || Better(o.side, o.price, q[0].price)) {
      QtyInsert(q[1..], o, id);
    }
  }

  lemma {:induction false} QtyAbsent(q: seq<MEOrder>, id: nat)
    requires forall i :: 0 <= i < |q| ==> q[i].marketOrderId != id
    ensures QtyById(q, id) == 0
  {
    if q != [] {
      QtyAbsent(q[1..], id);
    }
  }

  lemma {:induction false} QtyOf(q: seq<MEOrder>, i: nat)
    requires i < |q| && forall j, k :: 0 <= j < k < |q| ==> Differ(q[j], q[k])
    ensures QtyById(q, q[i].marketOrderId) == q[i].qty
  {
    var p := q[1..];
    assert forall j :: 0 <= j < |p| ==> p[j] == q[j + 1];
    if i == 0 {
      forall j | 0 <= j < |p| ensures p[j].marketOrderId != q[0].marketOrderId { assert Differ(q[0], q[j + 1]); }
      QtyAbsent(p, q[0].marketOrderId);
    } else {
      assert Differ(q[0], q[i]);
      QtyOf(p, i - 1);
    }
  }

  function LifeOf(o: MEOrder): Life {
    Life(o.clientId, o.tickerId, o.clientOrderId, o.side, o.price, o.qty)
  }

  /** The known lives agree with the orders about to trade. */
  ghost predicate Covers(s: Lives, q: seq<MEOrder>, ticker: nat) {
    forall i :: 0 <= i < |q| ==>
      q[i].marketOrderId in s && s[q[i].marketOrderId] == LifeOf(q[i]) && q[i].qty > 0 && q[i].tickerId == ticker
  }

  /** Nothing about the orders changed but what is open. */
  ghost predicate OnlyOpens(s: Lives, t: Lives) {
    t.Keys == s.Keys && forall k :: k in s ==> t[k] == s[k].(open := t[k].open)
  }

  function TakerLife(r: ClientRequest, leaves: nat): Life {
    Life(r.clientId, r.tickerId, r.orderId, r.side, r.price, leaves)
  }

  /** Both sides of every fill continue their orders' lives correctly. */
  lemma {:induction false} MatchLife(r: ClientRequest, id: nat, q: seq<MEOrder>, leaves: nat, s: Lives)
    requires Covers(s, q, r.tickerId) && id in s && s[id] == TakerLife(r, leaves)
    requires forall i :: 0 <= i < |q| ==> q[i].marketOrderId != id
    requires forall i, j :: 0 <= i < j < |q| ==> Differ(q[i], q[j])
    ensures var m := Match(r, id, q, leaves);
            var t := HearAll(s, m.responses);
            && t.Some? && OnlyOpens(s, t.value)
            && t.value[id].open == m.leaves
            && forall k :: k in s && k != id ==> t.value[k].open + QtyById(q, k) == s[k].open + QtyById(m.queue, k)
    decreases |q|, leaves
  {
    if !(leaves == 0 || q == [] || !Crosses(r.side, r.price, q[0].price)) {
      var fill := Min(q[0].qty, leaves);
      var q' := AfterFill(q, fill);
      var s1 := Opens(s, id, leaves - fill);
      var s2 := Opens(s1, q[0].marketOrderId, q[0].qty - fill);
      var two := [TakerFill(r, id, q[0], fill, leaves - fill), MakerFill(r, q[0], fill)];
      HearTwo(s, s1, s2, two);
      AfterFillCovered(q, fill, s, s2, r.tickerId);
      MatchLife(r, id, q', leaves - fill, s2);
      MatchNext(r, id, q, leaves);
      HearConcat(s, two, Match(r, id, q', leaves - fill).responses);
    } else {
      assert Match(r, id, q, leaves) == Matched(q, leaves, [], []);
    }
  }

  lemma {:induction false} HearTwo(s: Lives, s1: Lives, s2: Lives, two: seq<ClientResponse>)
    requires |two| == 2 && Hear(s, two[0]) == Some(s1) && Hear(s1, two[1]) == Some(s2)
    ensures HearAll(s, two) == Some(s2)
  {
    assert two[1..][1..] == [];
    assert HearAll(s1, two[1..]) == Some(s2);
  }

  lemma {:induction false} AfterFillCovered(q: seq<MEOrder>, fill: nat, s: Lives, s2: Lives, ticker: nat)
    requires q != [] && Covers(s, q, ticker) && 0 < fill <= q[0].qty
    requires forall i, j :: 0 <= i < j < |q| ==> Differ(q[i], q[j])
    requires q[0].marketOrderId in s2 && s2[q[0].marketOrderId] == s[q[0].marketOrderId].(open := q[0].qty - fill)
    requires forall i :: 0 < i < |q| ==> q[i].marketOrderId in s2 && s2[q[i].marketOrderId] == s[q[i].marketOrderId]
    ensures Covers(s2, AfterFill(q, fill), ticker)
    ensures forall i, j :: 0 <= i < j < |AfterFill(q, fill)| ==> Differ(AfterFill(q, fill)[i], AfterFill(q, fill)[j])
    ensures forall k :: QtyById(q, k) == QtyById(AfterFill(q, fill), k) + if k == q[0].marketOrderId then fill else 0
  {
  }

  // ---------------------------------------------------------------- agreement with the book

  /** The order's life is on record, whatever is open of it. */
  predicate OnRecord(s: Lives, o: MEOrder) {
    o.marketOrderId in s && s[o.marketOrderId].(open := o.qty) == LifeOf(o)
  }

  /** Exactly the ids handed out so far are known, each open for the quantity resting under it, and every
      resting order is the one that was accepted. */
  ghost predicate Tracks(s: Lives, b: Book) {
    && (forall k :: k in s <==> 0 < k < b.nextId)
    && (forall k :: k in s ==> s[k].open == QtyById(b.bids, k) + QtyById(b.asks, k))
    && (forall o :: o in b.bids || o in b.asks ==> OnRecord(s, o))
  }

  lemma {:induction false} TracksCovers(s: Lives, b: Book, side: Side, ticker: nat)
    requires WF(b, ticker) && Tracks(s, b) && IsSide(side)
    ensures Covers(s, Queue(b, side), ticker)
  {
    WFBySide(b, side, ticker);
    var q, p := Queue(b, side), Queue(b, Opposite(side));
    forall i | 0 <= i < |q|
      ensures q[i].marketOrderId in s && s[q[i].marketOrderId] == LifeOf(q[i]) && q[i].qty > 0
      ensures q[i].tickerId == ticker
    {
      assert Resting(q[i], side, ticker, b.nextId) && OnRecord(s, q[i]);
      QtyOf(q, i);
      forall j | 0 <= j < |p| ensures p[j].marketOrderId != q[i].marketOrderId { assert Differ(q[i], p[j]); }
      QtyAbsent(p, q[i].marketOrderId);
    }
  }

  lemma {:induction false} NewIdAbsent(q: seq<MEOrder>, side: Side, ticker: nat, id: nat)
    requires QueueWF(q, side, ticker, id)
    ensures QtyById(q, id) == 0 && forall i :: 0 <= i < |q| ==> q[i].marketOrderId != id
  {
    forall i | 0 <= i < |q| ensures q[i].marketOrderId != id { assert Resting(q[i], side, ticker, id); }
    QtyAbsent(q, id);
  }

  /** The responses of a new order, and what they leave open. */
  lemma {:induction false} AddHeard(b: Book, r: ClientRequest, s: Lives, ticker: nat) returns (t: Lives)
    requires WF(b, ticker) && Tracks(s, b) && IsNewOrder(r, ticker)
    ensures HearAll(s, Add(b, r).responses) == Some(t)
    ensures OnlyOpens(s[b.nextId := TakerLife(r, r.qty)], t)
    ensures t[b.nextId].open == MatchOf(b, r, b.nextId).leaves
    ensures var q := Queue(b, Opposite(r.side));
            forall k :: k in t && k != b.nextId ==>
              t[k].open + QtyById(q, k) == s[k].open + QtyById(MatchOf(b, r, b.nextId).queue, k)
  {
    var id := b.nextId;
    var q := Queue(b, Opposite(r.side));
    var m := MatchOf(b, r, id);
    var s1 := s[id := TakerLife(r, r.qty)];
    assert HearAll(s, [Accepted(r, id)]) == Some(s1) by {
      assert [Accepted(r, id)][1..] == [];
    }
    HearConcat(s, [Accepted(r, id)], m.responses);
    WFBySide(b, r.side, ticker);
    TracksCovers(s, b, Opposite(r.side), ticker);
    NewIdAbsent(q, Opposite(r.side), ticker, id);
    MatchLife(r, id, q, r.qty, s1);
    t := HearAll(s1, m.responses).value;
  }

  /** What is on record stays so, whatever is opened or traded. */
  lemma {:induction false} StaysOnRecord(s: Lives, t: Lives, id: nat, l: Life, o: MEOrder, o': MEOrder)
    requires OnRecord(s, o) && id !in s && OnlyOpens(s[id := l], t) && o' == o.(qty := o'.qty)
    ensures OnRecord(t, o')
  {
  }

  lemma {:induction false} LeftOnRecord(s: Lives, t: Lives, id: nat, l: Life, p: seq<MEOrder>, q: seq<MEOrder>)
    requires (forall o :: o in q ==> OnRecord(s, o)) && Left(p, q)
    requires id !in s && OnlyOpens(s[id := l], t)
    ensures forall o :: o in p ==> OnRecord(t, o)
  {
    forall o | o in p ensures OnRecord(t, o) {
      var i :| 0 <= i < |p| && p[i] == o;
      var was := q[|q| - |p| + i];
      assert was in q;
      StaysOnRecord(s, t, id, l, was, o);
    }
  }

  /** The orders that rest after a new order has traded are on record. */
  lemma {:induction false} AddOnRecord(b: Book, r: ClientRequest, s: Lives, t: Lives, ticker: nat)
    requires WF(b, ticker) && Tracks(s, b) && IsNewOrder(r, ticker)
    requires OnlyOpens(s[b.nextId := TakerLife(r, r.qty)], t)
    ensures forall o :: o in OwnAfter(b, r) || o in MatchOf(b, r, 0).queue ==> OnRecord(t, o)
  {
    var own, m := Queue(b, r.side), MatchOf(b, r, 0);
    WFBySide(b, r.side, ticker);
    LeftSelf(own, r.side, ticker, b.nextId);
    MatchedQueue(b, r, ticker);
    LeftOnRecord(s, t, b.nextId, TakerLife(r, r.qty), m.queue, Queue(b, Opposite(r.side)));
    LeftOnRecord(s, t, b.nextId, TakerLife(r, r.qty), own, own);
    if m.leaves > 0 {
      InsertMembers(own, Remainder(b, r, m.leaves));
    }
  }

  lemma {:induction false} InsertMembers(q: seq<MEOrder>, o: MEOrder)
    ensures forall p :: p in Insert(q, o) <==> p in q || p == o
  {
    var k := InsertAt(q, o);
    assert q == q[..k] + q[k..];
  }

  lemma {:induction false} AddLife(b: Book, r: ClientRequest, s: Lives, ticker: nat)
    requires WF(b, ticker) && Tracks(s, b) && IsNewOrder(r, ticker)
    ensures var x := Add(b, r);
            HearAll(s, x.responses).Some? && Tracks(HearAll(s, x.responses).value, x.book)
  {
    var id := b.nextId;
    var q, own := Queue(b, Opposite(r.side)), Queue(b, r.side);
    var m := MatchOf(b, r, id);
    var x := Add(b, r);
    var t := AddHeard(b, r, s, ticker);
    AddOnRecord(b, r, s, t, ticker);
    AddQueues(b, r, id);
    WFBySide(b, r.side, ticker);
    NewIdAbsent(own, r.side, ticker, id);
    MatchedQueue(b, r, ticker);
    MatchIgnoresId(r, id, 0, q, r.qty);
    NewIdAbsent(m.queue, Opposite(r.side), ticker, id);
    forall k | k in t
      ensures t[k].open == QtyById(Queue(x.book, r.side), k) + QtyById(Queue(x.book, Opposite(r.side)), k)
    {
      assert k != id ==> s[k].open == QtyById(own, k) + QtyById(q, k);
      if m.leaves > 0 {
        QtyInsert(own, Remainder(b, r, m.leaves), k);
      }
    }
  }

  lemma {:induction false} QtyWithout(q: seq<MEOrder>, key: (nat, nat), id: nat)
    requires forall i, j :: 0 <= i < j < |q| ==> Differ(q[i], q[j])
    ensures QtyById(q, id) == QtyById(Without(q, key), id)
              + if Lookup(q, key).Some? && Lookup(q, key).value.marketOrderId == id then Lookup(q, key).value.qty else 0
  {
    if q != [] {
      var p := q[1..];
      assert forall i :: 0 <= i < |p| ==> p[i] == q[i + 1];
      if q[0].Key() == key {
        forall i | 0 <= i < |p| ensures p[i].Key() != key { assert Differ(q[0], q[i + 1]); }
        WithoutAbsent(p, key);
        assert Without(q, key) == p;
      } else {
        QtyWithout(p, key, id);
      }
    }
  }

  lemma {:induction false} LookupSides(b: Book, key: (nat, nat), ticker: nat)
    requires WF(b, ticker)
    ensures Lookup(b.bids, key).None? || Lookup(b.asks, key).None?
    ensures Lookup(b.bids + b.asks, key)
              == if Lookup(b.bids, key).Some? then Lookup(b.bids, key) else Lookup(b.asks, key)
  {
    LookupConcat(b.bids, b.asks, key);
    if Lookup(b.bids, key).Some? {
      var i :| 0 <= i < |b.bids| && b.bids[i] == Lookup(b.bids, key).value;
      forall j | 0 <= j < |b.asks| ensures b.asks[j].Key() != key { assert Differ(b.bids[i], b.asks[j]); }
    }
  }

  lemma {:induction false} CancelLife(b: Book, r: ClientRequest, s: Lives, ticker: nat)
    requires WF(b, ticker) && Tracks(s, b) && r.tickerId == ticker
    ensures var x := Cancel(b, r);
            HearAll(s, x.responses).Some? && Tracks(HearAll(s, x.responses).value, x.book)
  {
    var key := (r.clientId, r.orderId);
    var x := Cancel(b, r);
    assert x.responses[1..] == [];
    LookupSides(b, key, ticker);
    var found := Lookup(b.bids + b.asks, key);
    if found.Some? {
      TracksCovers(s, b, BUY, ticker);
      TracksCovers(s, b, SELL, ticker);
      TakenOut(b, s, key, found.value, ticker);
      HearCancel(s, r, found.value);
    }
  }

  lemma {:induction false} HearCancel(s: Lives, r: ClientRequest, o: MEOrder)
    requires o.marketOrderId in s && s[o.marketOrderId] == LifeOf(o) && o.qty > 0
    requires o.tickerId == r.tickerId && o.Key() == (r.clientId, r.orderId)
    ensures HearAll(s, [Canceled(r, o)]) == Some(Opens(s, o.marketOrderId, 0))
  {
    assert [Canceled(r, o)][1..] == [];
  }

  /** Taking an order out of both queues closes it, and no other. */
  lemma {:induction false} TakenOut(b: Book, s: Lives, key: (nat, nat), o: MEOrder, ticker: nat)
    requires WF(b, ticker) && Tracks(s, b) && Lookup(b.bids + b.asks, key) == Some(o)
    requires o.marketOrderId in s && s[o.marketOrderId] == LifeOf(o)
    ensures Tracks(Opens(s, o.marketOrderId, 0), b.(bids := Without(b.bids, key), asks := Without(b.asks, key)))
  {
    LookupSides(b, key, ticker);
    forall k | k in s
      ensures Opens(s, o.marketOrderId, 0)[k].open
                == QtyById(Without(b.bids, key), k) + QtyById(Without(b.asks, key), k)
    {
      QtyWithout(b.bids, key, k);
      QtyWithout(b.asks, key, k);
    }
    WithoutOnRecord(s, b.bids, key, o.marketOrderId, BUY, ticker, b.nextId);
    WithoutOnRecord(s, b.asks, key, o.marketOrderId, SELL, ticker, b.nextId);
  }

  lemma {:induction false} WithoutOnRecord(s: Lives, q: seq<MEOrder>, key: (nat, nat), id: nat, side: Side,
                                           ticker: nat, nextId: nat)
    requires QueueWF(q, side, ticker, nextId) && id in s && forall o :: o in q ==> OnRecord(s, o)
    ensures forall o :: o in Without(q, key) ==> OnRecord(Opens(s, id, 0), o)
  {
    WithoutWF(q, key, side, ticker, nextId);
    forall o | o in Without(q, key) ensures OnRecord(Opens(s, id, 0), o) {
      assert OnRecord(s, o);
    }
  }

  /** The lifecycle of every order over any run: each id is accepted once, its fills lower its open
      quantity by exactly what they execute and never trade beyond its limit, a cancel reports what was open,
      nothing is said of it afterwards, every response goes to the client that sent it, and at every moment its
      open quantity is what rests in the book. */
  lemma {:induction false} Lifecycle(b: Book, rs: seq<ClientRequest>, s: Lives, ticker: nat)
    requires WF(b, ticker) && Tracks(s, b) && RunAdmissible(b, rs, ticker)
    requires forall i :: 0 <= i < |rs| ==> !rs[i].kind.INVALID_REQUEST?
    ensures var x := Run(b, rs);
            HearAll(s, x.responses).Some? && Tracks(HearAll(s, x.responses).value, x.book)
    decreases |rs|
  {
    if rs != [] {
      var x := Process(b, rs[0]);
      if rs[0].kind.NEW_ORDER? { AddLife(b, rs[0], s, ticker); } else { CancelLife(b, rs[0], s, ticker); }
      ProcessWF(b, rs[0], ticker);
      var s1 := HearAll(s, x.responses).value;
      Lifecycle(x.book, rs[1..], s1, ticker);
      HearConcat(s, x.responses, Run(x.book, rs[1..]).responses);
    }
  }

  // ---------------------------------------------------------------- the sum per order

  function Accepts(id: nat, cs: seq<ClientResponse>): nat {
    if cs == [] then 0
    else (if cs[0].kind.ACCEPTED? && cs[0].marketOrderId == id then cs[0].leavesQty else 0) + Accepts(id, cs[1..])
  }

  function Executes(id: nat, cs: seq<ClientResponse>): nat {
    if cs == [] then 0
    else (if cs[0].kind.FILLED? && cs[0].marketOrderId == id then cs[0].execQty else 0) + Executes(id, cs[1..])
  }

  function Cancels(id: nat, cs: seq<ClientResponse>): nat {
    if cs == [] then 0
    else (if cs[0].kind.CANCELED? && cs[0].marketOrderId == id then cs[0].leavesQty else 0) + Cancels(id, cs[1..])
  }

  function OpenOf(s: Lives, id: nat): nat {
    if id in s then s[id].open else 0
  }

  lemma {:induction false} LifeAdds(s: Lives, cs: seq<ClientResponse>, id: nat)
    requires HearAll(s, cs).Some?
    ensures OpenOf(s, id) + Accepts(id, cs) == OpenOf(HearAll(s, cs).value, id) + Executes(id, cs) + Cancels(id, cs)
    decreases |cs|
  {
    if cs != [] {
      LifeAdds(Hear(s, cs[0]).value, cs[1..], id);
    }
  }

  /** For every order of every run: the quantity accepted is what its responses report executed and cancelled, plus
      what rests of it now. */
  lemma {:induction false} OrderAddsUp(rs: seq<ClientRequest>, id: nat, ticker: nat)
    requires RunAdmissible(EMPTY, rs, ticker) && forall i :: 0 <= i < |rs| ==> !rs[i].kind.INVALID_REQUEST?
    ensures var x := Run(EMPTY, rs);
            0 < id < x.book.nextId ==>
              Accepts(id, x.responses) == Executes(id, x.responses) + Cancels(id, x.responses)
                                            + QtyById(x.book.bids, id) + QtyById(x.book.asks, id)
  {
    var x := Run(EMPTY, rs);
    Lifecycle(EMPTY, rs, map[], ticker);
    LifeAdds(map[], x.responses, id);
  }
}

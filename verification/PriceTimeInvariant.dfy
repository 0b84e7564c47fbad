/** Every request keeps the book well formed: sorted, live quantities positive, ids fresh, not crossed. */
module PriceTimeInvariant {
  import opened Types
  import opened PriceTime

  // ---------------------------------------------------------------- what matching leaves behind

  /** `p` is a suffix of `q`, its orders unchanged except for a smaller positive quantity. */
  ghost predicate Left(p: seq<MEOrder>, q: seq<MEOrder>) {
    && |p| <= |q|
    && forall i {:trigger p[i]} :: 0 <= i < |p| ==>
         var o := q[|q| - |p| + i];
         p[i] == o.(qty := p[i].qty) && 0 < p[i].qty <= o.qty
  }

  ghost predicate Positive(q: seq<MEOrder>) {
    forall i :: 0 <= i < |q| ==> q[i].qty > 0
  }

  lemma {:induction false} LeftAfterFill(q: seq<MEOrder>, fill: nat)
    requires Positive(q) && q != [] && fill <= q[0].qty
    ensures Left(AfterFill(q, fill), q) && Positive(AfterFill(q, fill))
  {
    var p := AfterFill(q, fill);
    if fill == q[0].qty {
      assert forall i :: 0 <= i < |p| ==> p[i] == q[|q| - |p| + i];
    } else {
      assert |p| == |q| && forall i :: 0 < i < |p| ==> p[i] == q[i];
    }
  }

  lemma {:induction false} LeftTransitive(p: seq<MEOrder>, q: seq<MEOrder>, s: seq<MEOrder>)
    requires Left(p, q) && Left(q, s)
    ensures Left(p, s)
  {
  }

  /** One turn of a match that goes on. */
  lemma {:induction false} MatchNext(r: ClientRequest, id: nat, q: seq<MEOrder>, leaves: nat)
    requires leaves > 0 && q != [] && Crosses(r.side, r.price, q[0].price)
    ensures var fill := Min(q[0].qty, leaves);
            var rest := Match(r, id, AfterFill(q, fill), leaves - fill);
            Match(r, id, q, leaves)
              == Matched(rest.queue, rest.leaves,
                         [TakerFill(r, id, q[0], fill, leaves - fill), MakerFill(r, q[0], fill)] + rest.responses,
                         [Trade(r, q[0], fill), MakerUpdate(r, q[0], fill)] + rest.updates)
  {
  }

  /** Matching consumes from the front only, and stops for one of three reasons: nothing left to trade,
      nobody left to trade with, or the best price is outside the limit. */
  lemma {:induction false} MatchStops(r: ClientRequest, id: nat, q: seq<MEOrder>, leaves: nat)
    requires Positive(q)
    ensures var m := Match(r, id, q, leaves);
            && Left(m.queue, q) && Positive(m.queue)
            && m.leaves <= leaves
            && (m.leaves == 0 || m.queue == [] || !Crosses(r.side, r.price, m.queue[0].price))
    decreases |q|, leaves
  {
    if leaves == 0 || q == [] || !Crosses(r.side, r.price, q[0].price) {
      assert Match(r, id, q, leaves) == Matched(q, leaves, [], []);
    } else {
      var fill := Min(q[0].qty, leaves);
      var q' := AfterFill(q, fill);
      LeftAfterFill(q, fill);
      MatchStops(r, id, q', leaves - fill);
      var rest := Match(r, id, q', leaves - fill);
      assert Match(r, id, q, leaves).queue == rest.queue && Match(r, id, q, leaves).leaves == rest.leaves;
      LeftTransitive(rest.queue, q', q);
    }
  }

  /** The id reported to the taker appears in its own responses and nowhere else. */
  lemma {:induction false} MatchIgnoresId(r: ClientRequest, id: nat, id': nat, q: seq<MEOrder>, leaves: nat)
    ensures Match(r, id, q, leaves).queue == Match(r, id', q, leaves).queue
    ensures Match(r, id, q, leaves).leaves == Match(r, id', q, leaves).leaves
    ensures Match(r, id, q, leaves).updates == Match(r, id', q, leaves).updates
    decreases |q|, leaves
  {
    if !(leaves == 0 || q == [] || !Crosses(r.side, r.price, q[0].price)) {
      var fill := Min(q[0].qty, leaves);
      MatchIgnoresId(r, id, id', AfterFill(q, fill), leaves - fill);
    }
  }

  lemma {:induction false} LeftWF(p: seq<MEOrder>, q: seq<MEOrder>, side: Side, ticker: nat, nextId: nat, nextId': nat)
    requires Left(p, q) && QueueWF(q, side, ticker, nextId) && nextId <= nextId'
    ensures QueueWF(p, side, ticker, nextId')
  {
  }

  // ---------------------------------------------------------------- where a remainder rests

  lemma {:induction false} InsertAt(q: seq<MEOrder>, o: MEOrder) returns (k: nat)
    ensures k <= |q| && Insert(q, o) == q[..k] + [o] + q[k..]
    ensures forall i :: 0 <= i < k ==> !Better(o.side, o.price, q[i].price)
    ensures k < |q| ==> Better(o.side, o.price, q[k].price)
  {
    if q == [] || Better(o.side, o.price, q[0].price) {
      k := 0;
    } else {
      var j := InsertAt(q[1..], o);
      k := j + 1;
      assert forall i :: 0 <= i < j ==> q[1..][i] == q[i + 1];
      assert [q[0]] + (q[1..][..j] + [o] + q[1..][j..]) == q[..k] + [o] + q[k..];
    }
  }

  lemma {:induction false} LastPriorityIsHighest(q: seq<MEOrder>, side: Side, price: int)
    requires Sorted(q, side)
    ensures forall i :: 0 <= i < |q| && q[i].price == price ==> q[i].priority <= LastPriority(q, price)
  {
    if q != [] && q[|q| - 1].price != price {
      var p := q[..|q| - 1];
      LastPriorityIsHighest(p, side, price);
      assert forall i :: 0 <= i < |p| ==> p[i] == q[i];
    }
  }

  lemma {:induction false} InsertSorted(q: seq<MEOrder>, o: MEOrder, ticker: nat, nextId: nat)
    requires QueueWF(q, o.side, ticker, nextId)
    requires o.marketOrderId == nextId && o.priority == LastPriority(q, o.price) + 1
    ensures Sorted(Insert(q, o), o.side)
  {
    var k := InsertAt(q, o);
    LastPriorityIsHighest(q, o.side, o.price);
    var t := q[..k] + [o] + q[k..];
    forall i, j | 0 <= i < j < |t|
      ensures Ahead(o.side, t[i], t[j])
    {
      if i < k {
        assert t[i] == q[i] && Resting(q[i], o.side, ticker, nextId);
        if j > k {
          assert t[j] == q[j - 1];
        }
      } else if i == k {
        assert t[j] == q[j - 1];
        assert j - 1 > k ==> Ahead(o.side, q[k], q[j - 1]);
      } else {
        assert t[i] == q[i - 1] && t[j] == q[j - 1];
      }
    }
  }

  lemma {:induction false} InsertResting(q: seq<MEOrder>, o: MEOrder, ticker: nat, nextId: nat)
    requires forall i :: 0 <= i < |q| ==> Resting(q[i], o.side, ticker, nextId)
    requires Resting(o, o.side, ticker, nextId + 1)
    ensures forall i :: 0 <= i < |Insert(q, o)| ==> Resting(Insert(q, o)[i], o.side, ticker, nextId + 1)
  {
    var k := InsertAt(q, o);
    var t := q[..k] + [o] + q[k..];
    forall i | 0 <= i < |t| ensures Resting(t[i], o.side, ticker, nextId + 1) {
      if i != k {
        assert t[i] == q[if i < k then i else i - 1];
      }
    }
  }

  lemma {:induction false} InsertDiffers(q: seq<MEOrder>, o: MEOrder)
    requires forall i, j :: 0 <= i < j < |q| ==> Differ(q[i], q[j])
    requires forall i :: 0 <= i < |q| ==> Differ(q[i], o)
    ensures forall i, j :: 0 <= i < j < |Insert(q, o)| ==> Differ(Insert(q, o)[i], Insert(q, o)[j])
  {
    var k := InsertAt(q, o);
    var t := q[..k] + [o] + q[k..];
    forall i, j | 0 <= i < j < |t| ensures Differ(t[i], t[j]) {
      var i', j' := if i < k then i else i - 1, if j < k then j else j - 1;
      assert i != k ==> t[i] == q[i'];
      assert j != k ==> t[j] == q[j'];
    }
  }

  lemma {:induction false} InsertWF(q: seq<MEOrder>, o: MEOrder, ticker: nat, nextId: nat)
    requires QueueWF(q, o.side, ticker, nextId) && nextId > 0
    requires o.marketOrderId == nextId && o.priority == LastPriority(q, o.price) + 1
    requires o.tickerId == ticker && o.qty > 0
    requires forall i :: 0 <= i < |q| ==> q[i].Key() != o.Key()
    ensures QueueWF(Insert(q, o), o.side, ticker, nextId + 1)
  {
    InsertSorted(q, o, ticker, nextId);
    InsertResting(q, o, ticker, nextId);
    forall i | 0 <= i < |q| ensures Differ(q[i], o) {
      assert Resting(q[i], o.side, ticker, nextId);
    }
    InsertDiffers(q, o);
  }

  // ---------------------------------------------------------------- cancelling

  lemma {:induction false} WithoutAbsent(q: seq<MEOrder>, key: (nat, nat))
    requires forall i :: 0 <= i < |q| ==> q[i].Key() != key
    ensures Without(q, key) == q
  {
    if q != [] {
      WithoutAbsent(q[1..], key);
    }
  }

  /** Removing a key keeps a subsequence of the queue. */
  lemma {:induction false} WithoutWF(q: seq<MEOrder>, key: (nat, nat), side: Side, ticker: nat, nextId: nat)
    requires QueueWF(q, side, ticker, nextId)
    ensures QueueWF(Without(q, key), side, ticker, nextId)
    ensures forall o :: o in Without(q, key) <==> o in q && o.Key() != key
  {
    if q != [] {
      var p := q[1..];
      assert forall i :: 0 <= i < |p| ==> p[i] == q[i + 1];
      assert forall o :: o in q <==> o == q[0] || o in p;
      WithoutWF(p, key, side, ticker, nextId);
      var t := Without(p, key);
      if q[0].Key() != key {
        var u := [q[0]] + t;
        forall j | 0 < j < |u| ensures Ahead(side, u[0], u[j]) && Differ(u[0], u[j]) {
          assert u[j] in t && u[j] in p;
          var n :| 0 <= n < |p| && p[n] == u[j];
          assert q[n + 1] == u[j];
        }
        assert forall j :: 0 < j < |u| ==> u[j] == t[j - 1];
        assert Without(q, key) == u;
      } else {
        assert Without(q, key) == t;
      }
    }
  }

  // ---------------------------------------------------------------- whole requests

  /** Two opposite queues neither share an order nor meet in price. */
  ghost predicate Apart(side: Side, own: seq<MEOrder>, opp: seq<MEOrder>) {
    forall i, j :: 0 <= i < |own| && 0 <= j < |opp| ==>
      Differ(own[i], opp[j]) && Better(Opposite(side), own[i].price, opp[j].price)
  }

  /** Well-formedness said from the point of view of either side. */
  lemma {:induction false} WFBySide(b: Book, side: Side, ticker: nat)
    requires IsSide(side)
    ensures WF(b, ticker) <==>
            && b.nextId > 0
            && QueueWF(Queue(b, side), side, ticker, b.nextId)
            && QueueWF(Queue(b, Opposite(side)), Opposite(side), ticker, b.nextId)
            && Apart(side, Queue(b, side), Queue(b, Opposite(side)))
  {
  }

  lemma {:induction false} LeftSelf(q: seq<MEOrder>, side: Side, ticker: nat, nextId: nat)
    requires QueueWF(q, side, ticker, nextId)
    ensures Left(q, q) && Positive(q)
  {
  }

  lemma {:induction false} LeftApart(side: Side, own: seq<MEOrder>, p: seq<MEOrder>, q: seq<MEOrder>)
    requires Apart(side, own, q) && Left(p, q)
    ensures Apart(side, own, p)
  {
  }

  /** After matching: the survivors are still in order, and while quantity is left all of them are priced strictly
      beyond the limit. */
  lemma {:induction false} MatchedQueue(b: Book, r: ClientRequest, ticker: nat)
    requires WF(b, ticker) && IsNewOrder(r, ticker)
    ensures var m := MatchOf(b, r, 0);
            && Left(m.queue, Queue(b, Opposite(r.side)))
            && QueueWF(m.queue, Opposite(r.side), ticker, b.nextId)
            && (m.leaves > 0 ==> forall i :: 0 <= i < |m.queue| ==>
                  if r.side == BUY then m.queue[i].price > r.price else m.queue[i].price < r.price)
  {
    var side := Opposite(r.side);
    var q := Queue(b, side);
    var m := MatchOf(b, r, 0);
    LeftSelf(q, side, ticker, b.nextId);
    MatchStops(r, 0, q, r.qty);
    LeftWF(m.queue, q, side, ticker, b.nextId, b.nextId);
    if m.leaves > 0 {
      NoneCrosses(r, m.queue);
    }
  }

  /** If the best price does not cross the limit, none does. */
  lemma {:induction false} NoneCrosses(r: ClientRequest, q: seq<MEOrder>)
    requires IsSide(r.side) && Sorted(q, Opposite(r.side))
    requires q == [] || !Crosses(r.side, r.price, q[0].price)
    ensures forall i :: 0 <= i < |q| ==> !Crosses(r.side, r.price, q[i].price)
  {
    assert forall i :: 0 < i < |q| ==> Ahead(Opposite(r.side), q[0], q[i]);
  }

  lemma {:induction false} InsertApart(own: seq<MEOrder>, opp: seq<MEOrder>, o: MEOrder)
    requires Apart(o.side, own, opp) && Apart(o.side, [o], opp)
    ensures Apart(o.side, Insert(own, o), opp)
  {
    var k := InsertAt(own, o);
    var t := own[..k] + [o] + own[k..];
    forall i, j | 0 <= i < |t| && 0 <= j < |opp|
      ensures Differ(t[i], opp[j]) && Better(Opposite(o.side), t[i].price, opp[j].price)
    {
      if i == k {
        assert t[i] == [o][0];
      } else {
        assert t[i] == own[if i < k then i else i - 1];
      }
    }
  }

  /** The keys searched by `FreshKey`, one queue at a time. */
  lemma {:induction false} FreshKeys(b: Book, r: ClientRequest)
    requires IsSide(r.side) && FreshKey(b, r)
    ensures forall o :: o in Queue(b, r.side) || o in MatchOf(b, r, 0).queue ==> o.Key() != (r.clientId, r.orderId)
  {
    var t := Traded(b, r);
    var all := t.bids + t.asks;
    forall o | o in Queue(b, r.side) || o in MatchOf(b, r, 0).queue ensures o.Key() != (r.clientId, r.orderId) {
      assert o in all;
      var i :| 0 <= i < |all| && all[i] == o;
    }
  }

  lemma {:induction false} RemainderApart(o: MEOrder, opp: seq<MEOrder>, ticker: nat)
    requires QueueWF(opp, Opposite(o.side), ticker, o.marketOrderId)
    requires IsSide(o.side)
    requires forall i :: 0 <= i < |opp| ==> !Crosses(o.side, o.price, opp[i].price)
    requires forall i :: 0 <= i < |opp| ==> opp[i].Key() != o.Key()
    ensures Apart(o.side, [o], opp)
  {
  }

  lemma {:induction false} RestApart(b: Book, r: ClientRequest, ticker: nat)
    requires IsNewOrder(r, ticker) && FreshKey(b, r) && MatchOf(b, r, 0).leaves > 0
    requires var m := MatchOf(b, r, 0);
             && QueueWF(m.queue, Opposite(r.side), ticker, b.nextId) && Apart(r.side, Queue(b, r.side), m.queue)
             && forall i :: 0 <= i < |m.queue| ==> !Crosses(r.side, r.price, m.queue[i].price)
    ensures var m := MatchOf(b, r, 0);
            Apart(r.side, Insert(Queue(b, r.side), Remainder(b, r, m.leaves)), m.queue)
  {
    var q := MatchOf(b, r, 0).queue;
    var o := Remainder(b, r, MatchOf(b, r, 0).leaves);
    FreshKeys(b, r);
    assert forall i :: 0 <= i < |q| ==> q[i] in q;
    RemainderApart(o, q, ticker);
    InsertApart(Queue(b, r.side), q, o);
  }

  /** The queue that the remainder, if any, has joined. */
  function OwnAfter(b: Book, r: ClientRequest): seq<MEOrder> {
    var leaves := MatchOf(b, r, 0).leaves;
    if leaves == 0 then Queue(b, r.side) else Insert(Queue(b, r.side), Remainder(b, r, leaves))
  }

  lemma {:induction false} AddQueues(b: Book, r: ClientRequest, id: nat)
    requires IsSide(r.side)
    ensures var b' := AddReporting(b, r, id).book;
            && b'.nextId == b.nextId + 1 && Queue(b', r.side) == OwnAfter(b, r)
            && Queue(b', Opposite(r.side)) == MatchOf(b, r, 0).queue
  {
    MatchIgnoresId(r, id, 0, Queue(b, Opposite(r.side)), r.qty);
  }

  lemma {:induction false} OwnAfterWF(b: Book, r: ClientRequest, ticker: nat)
    requires WF(b, ticker) && IsNewOrder(r, ticker) && Admissible(b, r, ticker)
    ensures QueueWF(OwnAfter(b, r), r.side, ticker, b.nextId + 1)
  {
    var leaves, own := MatchOf(b, r, 0).leaves, Queue(b, r.side);
    WFBySide(b, r.side, ticker);
    if leaves > 0 {
      FreshKeys(b, r);
      assert forall i :: 0 <= i < |own| ==> own[i] in own;
      InsertWF(own, Remainder(b, r, leaves), ticker, b.nextId);
    } else {
    }
  }

  lemma {:induction false} OwnAfterApart(b: Book, r: ClientRequest, ticker: nat)
    requires WF(b, ticker) && IsNewOrder(r, ticker) && Admissible(b, r, ticker)
    ensures Apart(r.side, OwnAfter(b, r), MatchOf(b, r, 0).queue)
  {
    WFBySide(b, r.side, ticker);
    MatchedQueue(b, r, ticker);
    LeftApart(r.side, Queue(b, r.side), MatchOf(b, r, 0).queue, Queue(b, Opposite(r.side)));
    if MatchOf(b, r, 0).leaves > 0 {
      RestApart(b, r, ticker);
    }
  }

  lemma {:induction false} AddWF(b: Book, r: ClientRequest, id: nat, ticker: nat)
    requires WF(b, ticker) && IsNewOrder(r, ticker) && Admissible(b, r, ticker)
    ensures WF(AddReporting(b, r, id).book, ticker)
  {
    MatchedQueue(b, r, ticker);
    OwnAfterWF(b, r, ticker);
    OwnAfterApart(b, r, ticker);
    AddQueues(b, r, id);
    WFBySide(AddReporting(b, r, id).book, r.side, ticker);
  }

  lemma {:induction false} CancelWF(b: Book, r: ClientRequest, ticker: nat)
    requires WF(b, ticker) && r.tickerId == ticker
    ensures WF(Cancel(b, r).book, ticker)
  {
    var key := (r.clientId, r.orderId);
    WithoutWF(b.bids, key, BUY, ticker, b.nextId);
    WithoutWF(b.asks, key, SELL, ticker, b.nextId);
    var p, q := Without(b.bids, key), Without(b.asks, key);
    forall i, j | 0 <= i < |p| && 0 <= j < |q|
      ensures p[i].price < q[j].price && Differ(p[i], q[j])
    {
      assert p[i] in b.bids && q[j] in b.asks;
    }
  }

  /** The invariant of every request: the book stays sorted, positive, uniquely numbered, and its best
      bid stays below its best ask. */
  lemma {:induction false} ProcessWF(b: Book, r: ClientRequest, ticker: nat)
    requires WF(b, ticker) && Admissible(b, r, ticker)
    ensures WF(Process(b, r).book, ticker)
  {
    if r.kind.NEW_ORDER? {
      AddWF(b, r, b.nextId, ticker);
    } else {
      CancelWF(b, r, ticker);
    }
  }

  /** A cancel is rejected exactly when the client has no such order resting, and then changes nothing;
      otherwise that order, and no other, leaves the book. */
  lemma {:induction false} CancelExact(b: Book, r: ClientRequest, ticker: nat)
    requires WF(b, ticker) && r.tickerId == ticker
    ensures var key := (r.clientId, r.orderId);
            var c := Cancel(b, r);
            && (c.responses == [Rejected(r)] <==> forall o :: o in b.bids + b.asks ==> o.Key() != key)
            && (forall o :: o in c.book.bids + c.book.asks <==> o in b.bids + b.asks && o.Key() != key)
  {
    var key := (r.clientId, r.orderId);
    WithoutWF(b.bids, key, BUY, ticker, b.nextId);
    WithoutWF(b.asks, key, SELL, ticker, b.nextId);
    var all := b.bids + b.asks;
    if forall i :: 0 <= i < |all| ==> all[i].Key() != key {
      assert forall o :: o in all ==> o.Key() != key;
    }
    forall o | o in all && o.Key() == key ensures Lookup(all, key).Some? {
      var i :| 0 <= i < |all| && all[i] == o;
    }
  }
}

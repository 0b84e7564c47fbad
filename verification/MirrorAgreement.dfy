/** The mirror agrees with the books: folding everything the books send leaves exactly their resting orders, and no
    assertion about an order in the mirror can fail. How long its pool lasts is another matter (`MirrorCapacity`). */
module MirrorAgreement {
  import opened Types
  import opened PriceTime
  import opened PriceTimeInvariant
  import opened MarketData
  import opened MatchingEngine

  // ---------------------------------------------------------------- orders by market id

  function ById(q: seq<MEOrder>, id: nat): (o: Option<MEOrder>)
    ensures o.Some? ==> o.value in q && o.value.marketOrderId == id
  {
    if q == [] then None
    else if q[0].marketOrderId == id then Some(q[0])
    else ById(q[1..], id)
  }

  ghost predicate IdsDiffer(q: seq<MEOrder>) {
    forall i, j :: 0 <= i < j < |q| ==> q[i].marketOrderId != q[j].marketOrderId
  }

  lemma {:induction false} ByIdAbsent(q: seq<MEOrder>, id: nat)
    requires forall i :: 0 <= i < |q| ==> q[i].marketOrderId != id
    ensures ById(q, id).None?
  {
  }

  lemma {:induction false} ByIdInsert(q: seq<MEOrder>, o: MEOrder, id: nat)
    requires forall i :: 0 <= i < |q| ==> q[i].marketOrderId != o.marketOrderId
    ensures ById(Insert(q, o), id) == if id == o.marketOrderId then Some(o) else ById(q, id)
  {
    if !(q == [] || Better(o.side, o.price, q[0].price)) {
      assert forall i :: 0 <= i < |q[1..]| ==> q[1..][i] == q[i + 1];
      ByIdInsert(q[1..], o, id);
    }
  }

  lemma {:induction false} ByIdAfterFill(q: seq<MEOrder>, fill: nat, id: nat)
    requires q != [] && fill <= q[0].qty && IdsDiffer(q)
    ensures ById(AfterFill(q, fill), id) ==
            if id != q[0].marketOrderId then ById(q, id)
            else if fill == q[0].qty then None
            else Some(q[0].(qty := q[0].qty - fill))
  {
  }

  lemma {:induction false} ByIdWithout(q: seq<MEOrder>, key: (nat, nat), id: nat)
    requires forall i, j :: 0 <= i < j < |q| ==> Differ(q[i], q[j])
    ensures ById(Without(q, key), id) ==
            if ById(q, id).Some? && ById(q, id).value.Key() == key then None else ById(q, id)
  {
    if q != [] {
      var p := q[1..];
      assert forall i :: 0 <= i < |p| ==> p[i] == q[i + 1];
      if q[0].Key() == key {
        forall i | 0 <= i < |p| ensures p[i].Key() != key && p[i].marketOrderId != q[0].marketOrderId {
          assert Differ(q[0], q[i + 1]);
        }
        WithoutAbsent(p, key);
        ByIdAbsent(p, q[0].marketOrderId);
        assert Without(q, key) == p;
        if ById(p, id).Some? { assert ById(p, id).value.Key() != key; }
      } else {
        ByIdWithout(p, key, id);
      }
    }
  }

  // ---------------------------------------------------------------- one ticker

  function RestingOrder(own: seq<MEOrder>, opp: seq<MEOrder>, id: nat): Option<MEOrder> {
    if ById(own, id).Some? then ById(own, id) else ById(opp, id)
  }

  /** The mirror's row for ticker `t` holds exactly the orders of the two queues. */
  ghost predicate Shows(s: Orders, t: nat, own: seq<MEOrder>, opp: seq<MEOrder>) {
    forall id: nat {:trigger (t, id) in s} {:trigger RestingOrder(own, opp, id)} ::
      && ((t, id) in s <==> RestingOrder(own, opp, id).Some?)
      && ((t, id) in s ==> s[(t, id)] == AddUpdate(RestingOrder(own, opp, id).value))
  }

  /** Rows other than `t` are as they were. */
  ghost predicate OnlyRow(s: Orders, t: nat, s': Orders) {
    forall k: (nat, nat) {:trigger k in s'} :: k.0 != t ==> (k in s' <==> k in s) && (k in s ==> s'[k] == s[k])
  }

  lemma {:induction false} OnlyRowTransitive(s: Orders, t: nat, s1: Orders, s2: Orders)
    requires OnlyRow(s, t, s1) && OnlyRow(s1, t, s2)
    ensures OnlyRow(s, t, s2)
  {
  }

  ghost predicate Ours(q: seq<MEOrder>, t: nat, z: Size) {
    forall i :: 0 <= i < |q| ==> q[i].tickerId == t && q[i].marketOrderId < z.ids && q[i].qty > 0
  }

  /** What one fill tells the market changes the mirror as it changes the queue. */
  lemma {:induction false} FillShown(r: ClientRequest, q: seq<MEOrder>, fill: nat, own: seq<MEOrder>, s: Orders,
                                     z: Size)
    requires q != [] && 0 < fill <= q[0].qty && IdsDiffer(q) && r.tickerId < z.tickers
    requires Ours(q, r.tickerId, z) && Shows(s, r.tickerId, own, q) && ById(own, q[0].marketOrderId).None?
    ensures var f := FoldAll(z, s, [Trade(r, q[0], fill), MakerUpdate(r, q[0], fill)]);
            && f.Some?
            && Shows(f.value, r.tickerId, own, AfterFill(q, fill))
            && OnlyRow(s, r.tickerId, f.value)
  {
    var t := r.tickerId;
    var o := q[0];
    var u := MakerUpdate(r, o, fill);
    assert RestingOrder(own, q, o.marketOrderId) == Some(o);
    assert (t, o.marketOrderId) in s && s[(t, o.marketOrderId)] == AddUpdate(o);
    var f := Fold(z, s, u).value;
    assert [Trade(r, o, fill), u][1..] == [u] && [u][1..] == [];
    assert FoldAll(z, s, [u]) == Some(f);
    assert FoldAll(z, s, [Trade(r, o, fill), u]) == Some(f);
    forall id: nat
      ensures (t, id) in f <==> RestingOrder(own, AfterFill(q, fill), id).Some?
      ensures (t, id) in f ==> f[(t, id)] == AddUpdate(RestingOrder(own, AfterFill(q, fill), id).value)
    {
      ByIdAfterFill(q, fill, id);
      assert (t, id) in s <==> RestingOrder(own, q, id).Some?;
    }
  }

  lemma {:induction false} MatchShown(r: ClientRequest, id: nat, q: seq<MEOrder>, leaves: nat, own: seq<MEOrder>,
                                      s: Orders, z: Size)
    requires IdsDiffer(q) && r.tickerId < z.tickers && Ours(q, r.tickerId, z) && Shows(s, r.tickerId, own, q)
    requires forall i :: 0 <= i < |q| ==> ById(own, q[i].marketOrderId).None?
    ensures var m := Match(r, id, q, leaves);
            var f := FoldAll(z, s, m.updates);
            && f.Some?
            && Shows(f.value, r.tickerId, own, m.queue)
            && OnlyRow(s, r.tickerId, f.value)
    decreases |q|, leaves
  {
    if !(leaves == 0 || q == [] || !Crosses(r.side, r.price, q[0].price)) {
      var fill := Min(q[0].qty, leaves);
      var q' := AfterFill(q, fill);
      var two := [Trade(r, q[0], fill), MakerUpdate(r, q[0], fill)];
      FillShown(r, q, fill, own, s, z);
      AfterFillOurs(q, fill, r.tickerId, z);
      var s1 := FoldAll(z, s, two).value;
      forall i | 0 <= i < |q'| ensures ById(own, q'[i].marketOrderId).None? {
        assert q'[i].marketOrderId == q[|q| - |q'| + i].marketOrderId;
      }
      MatchShown(r, id, q', leaves - fill, own, s1, z);
      var rest := Match(r, id, q', leaves - fill);
      FoldConcat(z, s, two, rest.updates);
      assert Match(r, id, q, leaves).updates == two + rest.updates && Match(r, id, q, leaves).queue == rest.queue;
      OnlyRowTransitive(s, r.tickerId, s1, FoldAll(z, s1, rest.updates).value);
    }
  }

  lemma {:induction false} AfterFillOurs(q: seq<MEOrder>, fill: nat, t: nat, z: Size)
    requires q != [] && fill <= q[0].qty && IdsDiffer(q) && Ours(q, t, z)
    ensures IdsDiffer(AfterFill(q, fill)) && Ours(AfterFill(q, fill), t, z)
  {
  }

  lemma {:induction false} QueueIds(q: seq<MEOrder>, side: Side, ticker: nat, nextId: nat, z: Size)
    requires QueueWF(q, side, ticker, nextId) && nextId <= z.ids
    ensures IdsDiffer(q) && Ours(q, ticker, z)
  {
  }

  lemma {:induction false} IdsApart(p: seq<MEOrder>, q: seq<MEOrder>, id: nat)
    requires AllDiffer(p, q)
    ensures ById(p, id).None? || ById(q, id).None?
  {
  }

  ghost predicate ShowsBook(s: Orders, t: nat, b: PriceTime.Book) {
    Shows(s, t, b.bids, b.asks)
  }

  /** Which queue is searched first does not matter. */
  lemma {:induction false} ShowsEither(s: Orders, t: nat, b: PriceTime.Book, side: Side, ticker: nat)
    requires WF(b, ticker) && IsSide(side)
    ensures ShowsBook(s, t, b) <==> Shows(s, t, Queue(b, side), Queue(b, Opposite(side)))
  {
  }

  lemma {:induction false} AddMatchShown(b: PriceTime.Book, r: ClientRequest, s: Orders, z: Size)
    requires WF(b, r.tickerId) && IsNewOrder(r, r.tickerId) && ShowsBook(s, r.tickerId, b)
    requires r.tickerId < z.tickers && b.nextId <= z.ids
    ensures var m := MatchOf(b, r, b.nextId);
            var f := FoldAll(z, s, m.updates);
            && f.Some?
            && Shows(f.value, r.tickerId, Queue(b, r.side), m.queue)
            && OnlyRow(s, r.tickerId, f.value)
  {
    var own, opp := Queue(b, r.side), Queue(b, Opposite(r.side));
    WFBySide(b, r.side, r.tickerId);
    ShowsEither(s, r.tickerId, b, r.side, r.tickerId);
    QueueIds(opp, Opposite(r.side), r.tickerId, b.nextId, z);
    forall i | 0 <= i < |opp| ensures ById(own, opp[i].marketOrderId).None? {
      forall j | 0 <= j < |own| ensures own[j].marketOrderId != opp[i].marketOrderId { assert Differ(own[j], opp[i]); }
      ByIdAbsent(own, opp[i].marketOrderId);
    }
    MatchShown(r, b.nextId, opp, r.qty, own, s, z);
  }

  /** Resting the remainder adds it to the mirror. */
  lemma {:induction false} RestShown(own: seq<MEOrder>, opp: seq<MEOrder>, o: MEOrder, s: Orders, z: Size)
    requires Shows(s, o.tickerId, own, opp) && o.tickerId < z.tickers && o.marketOrderId < z.ids
    requires forall i :: 0 <= i < |own| ==> own[i].marketOrderId != o.marketOrderId
    requires forall i :: 0 <= i < |opp| ==> opp[i].marketOrderId != o.marketOrderId
    ensures var f := FoldAll(z, s, [AddUpdate(o)]);
            && f.Some?
            && Shows(f.value, o.tickerId, Insert(own, o), opp)
            && OnlyRow(s, o.tickerId, f.value)
  {
    var t := o.tickerId;
    ByIdAbsent(own, o.marketOrderId);
    ByIdAbsent(opp, o.marketOrderId);
    assert RestingOrder(own, opp, o.marketOrderId).None?;
    assert (t, o.marketOrderId) !in s;
    assert [AddUpdate(o)][1..] == [];
    var f := s[(t, o.marketOrderId) := AddUpdate(o)];
    assert FoldAll(z, s, [AddUpdate(o)]) == Some(f);
    forall id: nat
      ensures (t, id) in f <==> RestingOrder(Insert(own, o), opp, id).Some?
      ensures (t, id) in f ==> f[(t, id)] == AddUpdate(RestingOrder(Insert(own, o), opp, id).value)
    {
      ByIdInsert(own, o, id);
      assert (t, id) in s <==> RestingOrder(own, opp, id).Some?;
    }
  }

  lemma {:induction false} OldIds(q: seq<MEOrder>, side: Side, ticker: nat, id: nat)
    requires QueueWF(q, side, ticker, id)
    ensures forall i :: 0 <= i < |q| ==> q[i].marketOrderId != id
  {
  }

  lemma {:induction false} AddShown(b: PriceTime.Book, r: ClientRequest, s: Orders, z: Size)
    requires WF(b, r.tickerId) && IsNewOrder(r, r.tickerId) && ShowsBook(s, r.tickerId, b)
    requires Admissible(b, r, r.tickerId) && r.tickerId < z.tickers && b.nextId < z.ids
    ensures var x := Add(b, r);
            var f := FoldAll(z, s, x.updates);
            && f.Some? && ShowsBook(f.value, r.tickerId, x.book) && OnlyRow(s, r.tickerId, f.value)
  {
    var m := MatchOf(b, r, b.nextId);
    var x := Add(b, r);
    AddMatchShown(b, r, s, z);
    AddWF(b, r, b.nextId, r.tickerId);
    var s1 := FoldAll(z, s, m.updates).value;
    if m.leaves > 0 {
      var o := Remainder(b, r, m.leaves);
      var own := Queue(b, r.side);
      WFBySide(b, r.side, r.tickerId);
      OldIds(own, r.side, r.tickerId, b.nextId);
      MatchIgnoresId(r, b.nextId, 0, Queue(b, Opposite(r.side)), r.qty);
      MatchedQueue(b, r, r.tickerId);
      OldIds(m.queue, Opposite(r.side), r.tickerId, b.nextId);
      RestShown(own, m.queue, o, s1, z);
      FoldConcat(z, s, m.updates, [AddUpdate(o)]);
      OnlyRowTransitive(s, r.tickerId, s1, FoldAll(z, s1, [AddUpdate(o)]).value);
    }
    ShowsEither(FoldAll(z, s, x.updates).value, r.tickerId, x.book, r.side, r.tickerId);
  }

  lemma {:induction false} CancelShown(b: PriceTime.Book, r: ClientRequest, s: Orders, z: Size)
    requires WF(b, r.tickerId) && ShowsBook(s, r.tickerId, b) && r.tickerId < z.tickers && b.nextId <= z.ids
    ensures var x := Cancel(b, r);
            var f := FoldAll(z, s, x.updates);
            && f.Some? && ShowsBook(f.value, r.tickerId, x.book) && OnlyRow(s, r.tickerId, f.value)
  {
    var key, t := (r.clientId, r.orderId), r.tickerId;
    var found := Lookup(b.bids + b.asks, key);
    if found.Some? {
      var o := found.value;
      CancelFinds(b, o, t);
      assert o.marketOrderId < z.ids && RestingOrder(b.bids, b.asks, o.marketOrderId) == Some(o);
      assert (t, o.marketOrderId) in s;
      var u := CancelUpdate(r, o);
      var f := s - {(t, o.marketOrderId)};
      assert [u][1..] == [];
      assert FoldAll(z, s, [u]) == Some(f);
      forall id: nat
        ensures (t, id) in f <==> RestingOrder(Without(b.bids, key), Without(b.asks, key), id).Some?
        ensures (t, id) in f ==>
                  f[(t, id)] == AddUpdate(RestingOrder(Without(b.bids, key), Without(b.asks, key), id).value)
      {
        ByIdWithout(b.bids, key, id);
        ByIdWithout(b.asks, key, id);
        SameKeySameId(b, o, t, id);
        assert (t, id) in s <==> RestingOrder(b.bids, b.asks, id).Some?;
      }
    }
  }

  lemma {:induction false} ByIdAt(q: seq<MEOrder>, i: nat)
    requires IdsDiffer(q) && i < |q|
    ensures ById(q, q[i].marketOrderId) == Some(q[i])
  {
    if i > 0 {
      assert forall j :: 0 <= j < |q[1..]| ==> q[1..][j] == q[j + 1];
      assert q[0].marketOrderId != q[i].marketOrderId;
      ByIdAt(q[1..], i - 1);
    }
  }

  lemma {:induction false} CancelFinds(b: PriceTime.Book, o: MEOrder, ticker: nat)
    requires WF(b, ticker) && o in b.bids + b.asks
    ensures RestingOrder(b.bids, b.asks, o.marketOrderId) == Some(o) && o.marketOrderId < b.nextId
    ensures o.tickerId == ticker
  {
    var z := Size(0, b.nextId);
    QueueIds(b.bids, BUY, ticker, b.nextId, z);
    QueueIds(b.asks, SELL, ticker, b.nextId, z);
    if o in b.bids {
      var i :| 0 <= i < |b.bids| && b.bids[i] == o;
      ByIdAt(b.bids, i);
    } else {
      var i :| 0 <= i < |b.asks| && b.asks[i] == o;
      ByIdAt(b.asks, i);
      IdsApart(b.bids, b.asks, o.marketOrderId);
    }
  }

  /** In a well-formed book the client's key and the market id name the same order. */
  lemma {:induction false} SameKeySameId(b: PriceTime.Book, o: MEOrder, ticker: nat, id: nat)
    requires WF(b, ticker) && o in b.bids + b.asks
    ensures ById(b.bids, id).Some? ==> (ById(b.bids, id).value.Key() == o.Key() <==> id == o.marketOrderId)
    ensures ById(b.asks, id).Some? ==> (ById(b.asks, id).value.Key() == o.Key() <==> id == o.marketOrderId)
  {
    var all := b.bids + b.asks;
    forall p, q | p in all && q in all && p != q ensures Differ(p, q) {
      var i :| 0 <= i < |all| && all[i] == p;
      var j :| 0 <= j < |all| && all[j] == q;
      AllOrdersDiffer(b, ticker, i, j);
    }
    assert forall p :: p in b.bids || p in b.asks ==> p in all;
  }

  lemma {:induction false} AllOrdersDiffer(b: PriceTime.Book, ticker: nat, i: nat, j: nat)
    requires WF(b, ticker) && i < |b.bids + b.asks| && j < |b.bids + b.asks| && i != j
    ensures Differ((b.bids + b.asks)[i], (b.bids + b.asks)[j])
  {
  }

  // ---------------------------------------------------------------- all tickers, whole runs

  /** The mirror holds exactly the resting orders of all books. */
  ghost predicate Agrees(s: Orders, books: seq<PriceTime.Book>) {
    && (forall t :: 0 <= t < |books| ==> ShowsBook(s, t, books[t]))
    && (forall k: (nat, nat) {:trigger k in s} :: k in s ==> k.0 < |books|)
  }

  ghost predicate RunAccepted(books: seq<PriceTime.Book>, rs: seq<ClientRequest>)
    decreases |rs|
  {
    rs != [] ==>
      && Dispatchable(books, rs[0])
      && Admissible(books[rs[0].tickerId], rs[0], rs[0].tickerId)
      && RunAccepted(StepAll(books, rs[0]).books, rs[1..])
  }

  /** No book handed out more ids than the mirror has places. */
  ghost predicate IdsFit(books: seq<PriceTime.Book>, z: Size) {
    |books| <= z.tickers && forall t :: 0 <= t < |books| ==> books[t].nextId <= z.ids
  }

  lemma {:induction false} StepBooks(books: seq<PriceTime.Book>, r: ClientRequest)
    requires AllWF(books) && Dispatchable(books, r) && Admissible(books[r.tickerId], r, r.tickerId)
    ensures var x := StepAll(books, r);
            && AllWF(x.books) && |x.books| == |books|
            && (forall t :: 0 <= t < |books| ==> books[t].nextId <= x.books[t].nextId)
            && (r.kind.NEW_ORDER? ==> books[r.tickerId].nextId < x.books[r.tickerId].nextId)
            && (forall i :: 0 <= i < |x.updates| ==> FromBook(x.updates[i]))
  {
    ProcessWF(books[r.tickerId], r, r.tickerId);
    if r.kind.NEW_ORDER? {
      MatchFromBook(r, books[r.tickerId].nextId, Queue(books[r.tickerId], Opposite(r.side)), r.qty);
    }
  }

  lemma {:induction false} MatchFromBook(r: ClientRequest, id: nat, q: seq<MEOrder>, leaves: nat)
    ensures forall i :: 0 <= i < |Match(r, id, q, leaves).updates| ==> FromBook(Match(r, id, q, leaves).updates[i])
    decreases |q|, leaves
  {
    if !(leaves == 0 || q == [] || !Crosses(r.side, r.price, q[0].price)) {
      var fill := Min(q[0].qty, leaves);
      MatchFromBook(r, id, AfterFill(q, fill), leaves - fill);
    }
  }

  lemma {:induction false} StepAgrees(books: seq<PriceTime.Book>, r: ClientRequest, s: Orders, z: Size)
    requires AllWF(books) && Dispatchable(books, r) && Admissible(books[r.tickerId], r, r.tickerId)
    requires Agrees(s, books) && IdsFit(StepAll(books, r).books, z)
    ensures var x := StepAll(books, r);
            var f := FoldAll(z, s, x.updates);
            f.Some? && Agrees(f.value, x.books)
  {
    var t := r.tickerId;
    StepBooks(books, r);
    var x := StepAll(books, r);
    assert x.books[t].nextId <= z.ids && ShowsBook(s, t, books[t]);
    if r.kind.NEW_ORDER? {
      AddShown(books[t], r, s, z);
    } else {
      CancelShown(books[t], r, s, z);
    }
    var f := FoldAll(z, s, x.updates).value;
    forall t2 | 0 <= t2 < |books| && t2 != t ensures ShowsBook(f, t2, books[t2]) {
      assert ShowsBook(s, t2, books[t2]);
    }
    forall k: (nat, nat) | k in f ensures k.0 < |books| {
      assert k.0 != t ==> k in s;
    }
  }

  lemma {:induction false} IdsGrow(books: seq<PriceTime.Book>, rs: seq<ClientRequest>)
    requires AllWF(books) && RunAccepted(books, rs)
    ensures var x := RunAll(books, rs);
            |x.books| == |books| && forall t :: 0 <= t < |books| ==> books[t].nextId <= x.books[t].nextId
    decreases |rs|
  {
    if rs != [] {
      StepBooks(books, rs[0]);
      IdsGrow(StepAll(books, rs[0]).books, rs[1..]);
    }
  }

  /** The mirror theorem: over every run of every book, folding all that was sent leaves exactly the
      resting orders, and no assertion about an order fails on the way. */
  lemma {:induction false} MirrorFollows(books: seq<PriceTime.Book>, rs: seq<ClientRequest>, s: Orders, z: Size)
    requires AllWF(books) && RunAccepted(books, rs) && Agrees(s, books) && IdsFit(RunAll(books, rs).books, z)
    ensures var x := RunAll(books, rs);
            var f := FoldAll(z, s, x.updates);
            && f.Some? && Agrees(f.value, x.books)
            && (forall i :: 0 <= i < |x.updates| ==> FromBook(x.updates[i]))
    decreases |rs|
  {
    if rs != [] {
      var x := StepAll(books, rs[0]);
      StepBooks(books, rs[0]);
      IdsGrow(x.books, rs[1..]);
      StepAgrees(books, rs[0], s, z);
      var s1 := FoldAll(z, s, x.updates).value;
      MirrorFollows(x.books, rs[1..], s1, z);
      FoldConcat(z, s, x.updates, RunAll(x.books, rs[1..]).updates);
    }
  }
}

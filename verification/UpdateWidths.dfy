/** That the updates of a run fit the fields in which they are sent, if the requests did. */
module UpdateWidths {
  import opened Types
  import opened PriceTime
  import opened WireFormat
  import opened MarketData
  import opened MarketDataWire
  import opened MatchingEngine
  import opened MirrorAgreement

  /** Orders with quantities and prices that fit, and priorities no larger than their ids. */
  ghost predicate Narrow(q: seq<MEOrder>, ids: nat) {
    forall i :: 0 <= i < |q| ==>
      q[i].qty < Power(4) && -TWO_63 <= q[i].price < TWO_63 && q[i].priority <= q[i].marketOrderId < ids
  }

  predicate RequestFits(r: ClientRequest) {
    r.qty < Power(4) && -TWO_63 <= r.price < TWO_63
  }

  ghost predicate UpdatesFit(us: seq<MarketUpdate>) {
    forall i :: 0 <= i < |us| ==> FitsWidths(us[i])
  }

  lemma {:induction false} Powers()
    ensures Power(8) == TWO_64 && Power(4) == QTY_MODULUS
  {
    PowerFacts();
  }

  lemma {:induction false} FillFits(r: ClientRequest, q: seq<MEOrder>, fill: nat, ids: nat)
    requires q != [] && fill <= q[0].qty && Narrow(q, ids) && ids <= Power(8) && r.tickerId < Power(4)
    ensures FitsWidths(Trade(r, q[0], fill)) && FitsWidths(MakerUpdate(r, q[0], fill))
    ensures Narrow(AfterFill(q, fill), ids)
  {
    Powers();
  }

  lemma {:induction false} FitTogether(us: seq<MarketUpdate>, vs: seq<MarketUpdate>)
    requires UpdatesFit(us) && UpdatesFit(vs)
    ensures UpdatesFit(us + vs)
  {
  }

  lemma {:induction false} MatchFits(r: ClientRequest, id: nat, q: seq<MEOrder>, leaves: nat, ids: nat)
    requires Narrow(q, ids) && ids <= Power(8) && r.tickerId < Power(4)
    ensures UpdatesFit(Match(r, id, q, leaves).updates) && Narrow(Match(r, id, q, leaves).queue, ids)
    ensures Match(r, id, q, leaves).leaves <= leaves
    decreases |q|, leaves
  {
    if !(leaves == 0 || q == [] || !Crosses(r.side, r.price, q[0].price)) {
      var fill := Min(q[0].qty, leaves);
      FillFits(r, q, fill, ids);
      MatchFits(r, id, AfterFill(q, fill), leaves - fill, ids);
      FitTogether([Trade(r, q[0], fill), MakerUpdate(r, q[0], fill)],
                  Match(r, id, AfterFill(q, fill), leaves - fill).updates);
    }
  }

  lemma {:induction false} PriorityFits(q: seq<MEOrder>, price: int, ids: nat)
    requires Narrow(q, ids) && ids > 0
    ensures LastPriority(q, price) < ids
  {
    if q != [] && q[|q| - 1].price != price {
      PriorityFits(q[..|q| - 1], price, ids);
    }
  }

  lemma {:induction false} InsertNarrow(q: seq<MEOrder>, o: MEOrder, ids: nat)
    requires Narrow(q, ids) && Narrow([o], ids)
    ensures Narrow(Insert(q, o), ids)
  {
    assert [o][0] == o;
    if !(q == [] || Better(o.side, o.price, q[0].price)) {
      InsertNarrow(q[1..], o, ids);
    }
  }

  lemma {:induction false} WithoutNarrow(q: seq<MEOrder>, key: (nat, nat), ids: nat)
    requires Narrow(q, ids)
    ensures Narrow(Without(q, key), ids)
  {
    if q != [] {
      WithoutNarrow(q[1..], key, ids);
    }
  }

  ghost predicate BookNarrow(b: PriceTime.Book) {
    b.nextId > 0 && Narrow(b.bids, b.nextId) && Narrow(b.asks, b.nextId)
  }

  lemma {:induction false} AddFits(b: PriceTime.Book, r: ClientRequest)
    requires BookNarrow(b) && b.nextId < Power(8) && r.tickerId < Power(4) && IsSide(r.side) && RequestFits(r)
    ensures UpdatesFit(PriceTime.Add(b, r).updates) && BookNarrow(PriceTime.Add(b, r).book)
  {
    var own, m := Queue(b, r.side), MatchOf(b, r, b.nextId);
    MatchFits(r, b.nextId, Queue(b, Opposite(r.side)), r.qty, b.nextId);
    if m.leaves > 0 {
      var o := Remainder(b, r, m.leaves);
      PriorityFits(own, r.price, b.nextId);
      InsertNarrow(own, o, b.nextId + 1);
    }
  }

  lemma {:induction false} CancelFits(b: PriceTime.Book, r: ClientRequest)
    requires BookNarrow(b) && b.nextId <= Power(8) && r.tickerId < Power(4)
    ensures UpdatesFit(PriceTime.Cancel(b, r).updates) && BookNarrow(PriceTime.Cancel(b, r).book)
  {
    var key := (r.clientId, r.orderId);
    WithoutNarrow(b.bids, key, b.nextId);
    WithoutNarrow(b.asks, key, b.nextId);
    Powers();
    var found := Lookup(b.bids + b.asks, key);
    if found.Some? {
      var i :| 0 <= i < |b.bids + b.asks| && (b.bids + b.asks)[i] == found.value;
      assert if i < |b.bids| then b.bids[i] == found.value else b.asks[i - |b.bids|] == found.value;
    }
  }

  /** Every update of a run fits its fields, given requests that fit theirs and books and ids no more than can be
      numbered. */
  lemma {:induction false} RunFits(books: seq<PriceTime.Book>, rs: seq<ClientRequest>, z: Size)
    requires AllWF(books) && RunAccepted(books, rs) && IdsFit(RunAll(books, rs).books, z)
    requires z.ids <= Power(8) && z.tickers <= Power(4) && forall i :: 0 <= i < |rs| ==> RequestFits(rs[i])
    requires forall t :: 0 <= t < |books| ==> BookNarrow(books[t])
    ensures UpdatesFit(RunAll(books, rs).updates)
    decreases |rs|
  {
    if rs != [] {
      var r := rs[0];
      var x := StepAll(books, r);
      StepBooks(books, r);
      IdsGrow(x.books, rs[1..]);
      assert books[r.tickerId].nextId <= x.books[r.tickerId].nextId <= z.ids;
      if r.kind.NEW_ORDER? {
        AddFits(books[r.tickerId], r);
      } else {
        CancelFits(books[r.tickerId], r);
      }
      assert forall i :: 0 <= i < |rs[1..]| ==> rs[1..][i] == rs[i + 1];
      RunFits(x.books, rs[1..], z);
    }
  }
}

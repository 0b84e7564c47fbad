/** How long the mirror's pool lasts: it is one pool for all tickers, although every book has a pool of the same
    size to itself. */
module MirrorCapacity {
  import opened Types
  import opened PriceTime
  import opened MatchingEngine
  import opened MarketData
  import opened MirrorAgreement

  // ---------------------------------------------------------------- counting resting orders

  function RestingUpto(books: seq<PriceTime.Book>, t: nat): nat
    requires t <= |books|
  {
    if t == 0 then 0 else RestingUpto(books, t - 1) + |books[t - 1].bids| + |books[t - 1].asks|
  }

  /** How many orders rest in all books. */
  function Total(books: seq<PriceTime.Book>): nat {
    RestingUpto(books, |books|)
  }

  ghost function RowKeys(t: nat, q: seq<MEOrder>): set<(nat, nat)> {
    set i | 0 <= i < |q| :: (t, q[i].marketOrderId)
  }

  lemma {:induction false} RowSize(t: nat, q: seq<MEOrder>)
    requires IdsDiffer(q)
    ensures |RowKeys(t, q)| == |q|
  {
    if q != [] {
      var p := q[1..];
      assert forall i :: 0 <= i < |p| ==> p[i] == q[i + 1];
      RowSize(t, p);
      var first := (t, q[0].marketOrderId);
      assert first !in RowKeys(t, p);
      forall k ensures k in RowKeys(t, q) <==> k == first || k in RowKeys(t, p) {
        if k in RowKeys(t, q) && k != first {
          var i :| 0 <= i < |q| && k == (t, q[i].marketOrderId);
          assert p[i - 1] == q[i];
        }
        if k in RowKeys(t, p) {
          var i :| 0 <= i < |p| && k == (t, p[i].marketOrderId);
          assert q[i + 1] == p[i];
        }
      }
      assert RowKeys(t, q) == {first} + RowKeys(t, p);
    }
  }

  lemma {:induction false} ByIdExactly(q: seq<MEOrder>, id: nat)
    requires IdsDiffer(q)
    ensures ById(q, id).Some? <==> exists i :: 0 <= i < |q| && q[i].marketOrderId == id
  {
    if i :| 0 <= i < |q| && q[i].marketOrderId == id {
      ByIdAt(q, i);
    }
  }

  /** The mirror's row of a ticker holds one key for every order of its book. */
  lemma {:induction false} RowOfBook(s: Orders, t: nat, b: PriceTime.Book)
    requires WF(b, t) && ShowsBook(s, t, b)
    ensures forall k: (nat, nat) :: k.0 == t ==> (k in s <==> k in RowKeys(t, b.bids) + RowKeys(t, b.asks))
    ensures RowKeys(t, b.bids) !! RowKeys(t, b.asks)
    ensures |RowKeys(t, b.bids)| == |b.bids| && |RowKeys(t, b.asks)| == |b.asks|
  {
    var z := Size(0, b.nextId);
    QueueIds(b.bids, BUY, t, b.nextId, z);
    QueueIds(b.asks, SELL, t, b.nextId, z);
    RowSize(t, b.bids);
    RowSize(t, b.asks);
    forall k: (nat, nat) | k.0 == t ensures k in s <==> k in RowKeys(t, b.bids) + RowKeys(t, b.asks) {
      assert k == (t, k.1);
      assert (t, k.1) in s <==> RestingOrder(b.bids, b.asks, k.1).Some?;
      ByIdExactly(b.bids, k.1);
      ByIdExactly(b.asks, k.1);
    }
    forall i, j | 0 <= i < |b.bids| && 0 <= j < |b.asks| ensures b.bids[i].marketOrderId != b.asks[j].marketOrderId {
      assert Differ(b.bids[i], b.asks[j]);
    }
  }

  ghost function KeysUpto(s: Orders, t: nat): set<(nat, nat)> {
    set k | k in s && k.0 < t
  }

  lemma {:induction false} OneMoreRow(s: Orders, t: nat, bids: set<(nat, nat)>, asks: set<(nat, nat)>)
    requires forall k: (nat, nat) :: k.0 == t ==> (k in s <==> k in bids + asks)
    requires bids !! asks && forall k :: k in bids + asks ==> k.0 == t
    ensures |KeysUpto(s, t + 1)| == |KeysUpto(s, t)| + |bids| + |asks|
  {
    var before, all := KeysUpto(s, t), KeysUpto(s, t + 1);
    forall k: (nat, nat) ensures k in all <==> k in before || k in bids + asks {
      assert k.0 == t || !(k in bids + asks);
    }
    assert all == before + (bids + asks);
  }

  lemma {:induction false} NextRow(s: Orders, books: seq<PriceTime.Book>, t: nat)
    requires AllWF(books) && Agrees(s, books) && t < |books|
    ensures |KeysUpto(s, t + 1)| == |KeysUpto(s, t)| + |books[t].bids| + |books[t].asks|
  {
    RowOfBook(s, t, books[t]);
    OneMoreRow(s, t, RowKeys(t, books[t].bids), RowKeys(t, books[t].asks));
  }

  lemma {:induction false} SizeUpto(s: Orders, books: seq<PriceTime.Book>, t: nat)
    requires AllWF(books) && Agrees(s, books) && t <= |books|
    ensures |KeysUpto(s, t)| == RestingUpto(books, t)
  {
    if t == 0 {
      assert KeysUpto(s, t) == {};
    } else {
      SizeUpto(s, books, t - 1);
      NextRow(s, books, t - 1);
    }
  }

  /** A mirror that agrees with the books is as large as they are together. */
  lemma {:induction false} MirrorSize(s: Orders, books: seq<PriceTime.Book>)
    requires AllWF(books) && Agrees(s, books)
    ensures |s| == Total(books)
  {
    SizeUpto(s, books, |books|);
    assert KeysUpto(s, |books|) == s.Keys;
  }

  // ---------------------------------------------------------------- one request

  lemma {:induction false} MatchAddsNothing(r: ClientRequest, id: nat, q: seq<MEOrder>, leaves: nat)
    ensures NoAdds(Match(r, id, q, leaves).updates)
    decreases |q|, leaves
  {
    if !(leaves == 0 || q == [] || !Crosses(r.side, r.price, q[0].price)) {
      var fill := Min(q[0].qty, leaves);
      MatchAddsNothing(r, id, AfterFill(q, fill), leaves - fill);
    }
  }

  lemma {:induction false} StepAddsLast(b: PriceTime.Book, r: ClientRequest)
    requires !r.kind.INVALID_REQUEST?
    ensures Process(b, r).updates != [] ==> NoAdds(Process(b, r).updates[..|Process(b, r).updates| - 1])
  {
    if r.kind.NEW_ORDER? {
      MatchAddsNothing(r, b.nextId, Queue(b, Opposite(r.side)), r.qty);
      assert Process(b, r).updates == MatchOf(b, r, b.nextId).updates
                                        + if MatchOf(b, r, b.nextId).leaves == 0 then []
                                          else [AddUpdate(Remainder(b, r, MatchOf(b, r, b.nextId).leaves))];
    }
  }

  /** Updates of which only the last can be a new order: the mirror outlives them exactly if it has not grown to
      its pool's size. */
  lemma {:induction false} LastOnlyExactly(z: Size, pool: nat, s: Orders, us: seq<MarketUpdate>)
    requires FoldAll(z, s, us).Some? && |s| < pool && (us != [] ==> NoAdds(us[..|us| - 1]))
    ensures Lasts(z, pool, s, us) <==> |FoldAll(z, s, us).value| < pool
  {
    if us == [] || !us[|us| - 1].kind.ADD? {
      assert forall i :: 0 <= i < |us| - 1 ==> us[i] == us[..|us| - 1][i];
      NoAddsLast(z, pool, s, us);
    } else {
      var e := |us| - 1;
      var front, last := us[..e], us[e..];
      assert us == front + last && last[0] == us[e] && last[1..] == [];
      FoldConcat(z, s, front, last);
      NoAddsLast(z, pool, s, front);
      LastsConcat(z, pool, s, front, last);
      FoldSize(z, FoldAll(z, s, front).value, us[e]);
    }
  }

  /** The synthesizer outlives a request if and only if fewer orders than its pool has blocks rest after it. */
  lemma {:induction false} StepLasts(pool: nat, books: seq<PriceTime.Book>, r: ClientRequest, s: Orders, z: Size)
    requires AllWF(books) && Dispatchable(books, r) && Admissible(books[r.tickerId], r, r.tickerId)
    requires Agrees(s, books) && IdsFit(StepAll(books, r).books, z) && Total(books) < pool
    ensures Lasts(z, pool, s, StepAll(books, r).updates) <==> Total(StepAll(books, r).books) < pool
  {
    var x := StepAll(books, r);
    StepBooks(books, r);
    StepAgrees(books, r, s, z);
    MirrorSize(s, books);
    MirrorSize(FoldAll(z, s, x.updates).value, x.books);
    StepAddsLast(books[r.tickerId], r);
    LastOnlyExactly(z, pool, s, x.updates);
  }

  // ---------------------------------------------------------------- whole runs

  /** After every part of the run, fewer orders rest in all books than the pool has blocks. */
  ghost predicate NeverFull(pool: nat, books: seq<PriceTime.Book>, rs: seq<ClientRequest>) {
    forall k :: 0 <= k <= |rs| ==> Total(RunAll(books, rs[..k]).books) < pool
  }

  lemma {:induction false} NeverFullStep(pool: nat, books: seq<PriceTime.Book>, rs: seq<ClientRequest>)
    requires rs != [] && Dispatchable(books, rs[0])
    ensures NeverFull(pool, books, rs) <==>
            Total(books) < pool && NeverFull(pool, StepAll(books, rs[0]).books, rs[1..])
  {
    var x := StepAll(books, rs[0]);
    forall k | 0 <= k <= |rs|
      ensures RunAll(books, rs[..k]).books == if k == 0 then books else RunAll(x.books, rs[1..][..k - 1]).books
    {
      if k > 0 {
        assert rs[..k][0] == rs[0] && rs[..k][1..] == rs[1..][..k - 1];
      }
    }
    if NeverFull(pool, books, rs) {
      forall k | 0 <= k <= |rs[1..]| ensures Total(RunAll(x.books, rs[1..][..k]).books) < pool {
        assert Total(RunAll(books, rs[..k + 1]).books) < pool;
      }
      assert Total(RunAll(books, rs[..0]).books) < pool;
    }
  }

  /** Over every run: the synthesizer outlives it if and only if never as many orders rest in all books together
      as its pool has blocks. */
  lemma {:induction false} MirrorLastsExactly(pool: nat, books: seq<PriceTime.Book>, rs: seq<ClientRequest>, s: Orders,
                                              z: Size)
    requires AllWF(books) && RunAccepted(books, rs) && Agrees(s, books) && IdsFit(RunAll(books, rs).books, z)
    requires Total(books) < pool
    ensures Lasts(z, pool, s, RunAll(books, rs).updates) <==> NeverFull(pool, books, rs)
    decreases |rs|
  {
    if rs == [] {
      assert forall k :: 0 <= k <= |rs| ==> rs[..k] == [];
    } else {
      var x := StepAll(books, rs[0]);
      StepBooks(books, rs[0]);
      IdsGrow(x.books, rs[1..]);
      StepAgrees(books, rs[0], s, z);
      StepLasts(pool, books, rs[0], s, z);
      LastsConcat(z, pool, s, x.updates, RunAll(x.books, rs[1..]).updates);
      NeverFullStep(pool, books, rs);
      if Total(x.books) < pool {
        MirrorLastsExactly(pool, x.books, rs[1..], FoldAll(z, s, x.updates).value, z);
      } else {
        assert Total(RunAll(x.books, rs[1..][..0]).books) >= pool;
      }
    }
  }
}

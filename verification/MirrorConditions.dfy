/** The input on which every book has room and the mirror has not: the orders of two tickers, shared out evenly. */
module MirrorConditions {
  import opened Types
  import opened PriceTime
  import opened BookMemory
  import opened BookCapacity
  import opened MatchingEngine
  import opened MarketData
  import opened MirrorAgreement
  import opened MirrorCapacity
  import opened EndToEnd

  /** The `i`-th order of one client, for the two tickers in turn, always at the same price. */
  function Bid(i: nat): ClientRequest {
    ClientRequest(NEW_ORDER, 1, i % 2, i, BUY, 100, 1)
  }

  function Bids(n: nat): (rs: seq<ClientRequest>)
    ensures |rs| == n && forall i :: 0 <= i < n ==> rs[i] == Bid(i)
  {
    seq(n, i requires 0 <= i < n => Bid(i))
  }

  /** A book in which nothing rests but such bids, all older than the `i`-th. */
  ghost predicate OnlyBids(b: PriceTime.Book, i: nat) {
    && b.asks == [] && b.nextId == |b.bids| + 1 <= i + 1
    && forall j :: 0 <= j < |b.bids| ==>
         b.bids[j].price == 100 && b.bids[j].side == BUY && b.bids[j].clientId == 1 && b.bids[j].clientOrderId < i
  }

  ghost predicate Shared(books: seq<PriceTime.Book>, i: nat) {
    && |books| == 2 && OnlyBids(books[0], i) && OnlyBids(books[1], i)
    && |books[0].bids| == (i + 1) / 2 && |books[1].bids| == i / 2
  }

  lemma {:induction false} InsertLast(q: seq<MEOrder>, o: MEOrder)
    requires forall j :: 0 <= j < |q| ==> q[j].price == o.price
    ensures PriceTime.Insert(q, o) == q + [o]
  {
    if q != [] {
      assert forall j :: 0 <= j < |q[1..]| ==> q[1..][j] == q[j + 1];
      InsertLast(q[1..], o);
      assert q == [q[0]] + q[1..];
    }
  }

  lemma {:induction false} OneLevel(q: seq<MEOrder>)
    requires q != [] && forall j :: 0 <= j < |q| ==> q[j].price == q[0].price
    ensures Levels(q) == 1
  {
    if |q| > 1 {
      assert forall j :: 0 <= j < |q[1..]| ==> q[1..][j] == q[j + 1];
      OneLevel(q[1..]);
    }
  }

  /** One more bid rests behind the others, in a book that has room for it. */
  lemma {:induction false} OneMoreBid(code: Code, cap: Capacity, b: PriceTime.Book, i: nat)
    requires OnlyBids(b, i) && i < ME_MAX_ORDER_IDS && |b.bids| + 1 < cap.orders && 1 < cap.levels
    ensures StepMayRest(code, b, Bid(i)) && StepSurvives(cap, b, Bid(i))
    ensures var b' := Process(b, Bid(i)).book;
            OnlyBids(b', i + 1) && |b'.bids| == |b.bids| + 1
  {
    var o := Remainder(b, Bid(i), 1);
    assert MatchOf(b, Bid(i), 0) == Matched([], 1, [], []);
    assert Traded(b, Bid(i)) == b;
    InsertLast(b.bids, o);
    if b.bids != [] {
      OneLevel(b.bids);
      assert Slot(b.bids[0].price) == Slot(o.price);
    }
  }

  /** A request that the program outlives, from one state of the books to the next. */
  ghost predicate Passes(code: Code, cap: Capacity, books: seq<PriceTime.Book>, r: ClientRequest,
                         now: seq<PriceTime.Book>) {
    forall u {:trigger Sealed(u)} :: Sealed(u) ==>
      && Dispatchable(books, r) && StepMayRest(code, books[r.tickerId], r)
      && StepSurvives(cap, books[r.tickerId], r) && now == StepAll(books, r).books
  }

  /** A run of such requests, given by its states. */
  lemma {:induction false} AllPass(code: Code, cap: Capacity, states: seq<seq<PriceTime.Book>>, rs: seq<ClientRequest>)
    requires |states| == |rs| + 1
    requires forall k :: 0 <= k < |rs| ==> Passes(code, cap, states[k], rs[k], states[k + 1])
    ensures RunMayRest(code, cap, states[0], rs) && Survived(cap, states[0], rs) == |rs|
    ensures RunAll(states[0], rs).books == states[|rs|]
    decreases |rs|
  {
    if rs != [] {
      assert Passes(code, cap, states[0], rs[0], states[1]) && Sealed(0);
      forall k | 0 <= k < |rs[1..]| ensures Passes(code, cap, states[1..][k], rs[1..][k], states[1..][k + 1]) {
        assert Passes(code, cap, states[k + 1], rs[k + 1], states[k + 1 + 1]);
      }
      AllPass(code, cap, states[1..], rs[1..]);
    }
  }

  ghost predicate Enough(cap: Capacity, n: nat) {
    n <= ME_MAX_ORDER_IDS && n <= cap.orders && 2 <= cap.orders && 2 <= cap.levels
  }

  lemma {:induction false} NextShared(code: Code, cap: Capacity, books: seq<PriceTime.Book>, i: nat)
    returns (now: seq<PriceTime.Book>)
    requires Shared(books, i) && Enough(cap, i + 1)
    ensures Passes(code, cap, books, Bid(i), now) && Shared(now, i + 1)
  {
    assert |books[i % 2].bids| == i / 2;
    OneMoreBid(code, cap, books[i % 2], i);
    var other := books[1 - i % 2];
    assert OnlyBids(other, i + 1);
    now := StepAll(books, Bid(i)).books;
  }

  lemma {:induction false} States(code: Code, cap: Capacity, n: nat) returns (states: seq<seq<PriceTime.Book>>)
    requires Enough(cap, n)
    ensures |states| == n + 1 && states[0] == EmptyBooks(2) && Shared(states[n], n)
    ensures forall k :: 0 <= k < n ==> Passes(code, cap, states[k], Bids(n)[k], states[k + 1])
  {
    if n == 0 {
      states := [EmptyBooks(2)];
    } else {
      var before := States(code, cap, n - 1);
      var now := NextShared(code, cap, before[n - 1], n - 1);
      states := before + [now];
      forall k | 0 <= k < n ensures Passes(code, cap, states[k], Bids(n)[k], states[k + 1]) {
        assert k < n - 1 ==> Passes(code, cap, before[k], Bids(n - 1)[k], before[k + 1]);
      }
    }
  }

  lemma {:induction false} FullAtLast(n: nat, books: seq<PriceTime.Book>, rs: seq<ClientRequest>)
    requires Shared(RunAll(books, rs).books, n)
    ensures !NeverFull(n, books, rs)
  {
    var last := RunAll(books, rs[..|rs|]).books;
    assert rs[..|rs|] == rs;
    assert RestingUpto(last, 1) == RestingUpto(last, 0) + |last[0].bids| + |last[0].asks|;
    assert Total(last) == n;
  }

  /** Whatever the size of the pools: the books outlive as many orders as one pool has blocks, and the synthesizer
      does not. */
  lemma {:induction false} SharedPoolRunsOut(code: Code, n: nat, z: Size)
    requires 2 <= n <= ME_MAX_ORDER_IDS
    ensures var cap, books, rs := Capacity(n, ME_MAX_PRICE_LEVELS), EmptyBooks(2), Bids(n);
            && RunMayRest(code, cap, books, rs) && Survived(cap, books, rs) == |rs|
            && (IdsFit(RunAll(books, rs).books, z) ==>
                  FoldAll(z, map[], RunAll(books, rs).updates).Some? && !Lasts(z, n, map[], RunAll(books, rs).updates))
  {
    var cap, books, rs := Capacity(n, ME_MAX_PRICE_LEVELS), EmptyBooks(2), Bids(n);
    var states := States(code, cap, n);
    AllPass(code, cap, states, rs);
    FullAtLast(n, books, rs);
    if IdsFit(RunAll(books, rs).books, z) {
      LastsFromEmpty(code, cap, n, 2, rs, z);
    }
  }
}

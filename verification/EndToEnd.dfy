/** From the requests of the clients to the books of the subscribers: every layer of the exchange together. */
module EndToEnd {
  import opened Types
  import opened PriceTime
  import opened BookResting
  import opened BookCapacity
  import opened MatchingEngine
  import opened MarketData
  import opened MirrorAgreement
  import opened MirrorCapacity
  import opened MarketDataPublisher
  import opened MarketDataConsumer
  import opened ConsumerSafety
  import opened ConsumerProgress
  import SnapshotOrder

  // ---------------------------------------------------------------- requests to updates

  /** As far as the books in memory get through a run, the simple books accept it. */
  lemma {:induction false} MayRestIsAccepted(code: Code, cap: Capacity, books: seq<PriceTime.Book>,
                                             rs: seq<ClientRequest>)
    requires AllWF(books) && RunMayRest(code, cap, books, rs)
    ensures RunAccepted(books, rs[..Survived(cap, books, rs)])
    decreases |rs|
  {
    var n := Survived(cap, books, rs);
    if n > 0 {
      var r := rs[0];
      var b := books[r.tickerId];
      assert WF(b, r.tickerId);
      if r.kind.NEW_ORDER? && MatchOf(b, r, 0).leaves > 0 {
        FreshFromFree(b, r, Remainder(b, r, MatchOf(b, r, 0).leaves));
      }
      StepBooks(books, r);
      assert rs[..n][0] == r && rs[..n][1..] == rs[1..][..n - 1];
      MayRestIsAccepted(code, cap, StepAll(books, r).books, rs[1..]);
    }
  }

  /** A run up to its `k`-th request is the first part of the run. */
  lemma {:induction false} RunSplits(books: seq<PriceTime.Book>, rs: seq<ClientRequest>, k: nat)
    requires AllWF(books) && RunAccepted(books, rs) && k <= |rs|
    ensures RunAccepted(books, rs[..k])
    ensures RunAll(books, rs[..k]).updates <= RunAll(books, rs).updates
    ensures IdsGrew(RunAll(books, rs[..k]).books, RunAll(books, rs).books)
    decreases |rs|
  {
    if k == 0 {
      IdsGrow(books, rs);
      assert rs[..k] == [];
    } else {
      StepBooks(books, rs[0]);
      RunSplits(StepAll(books, rs[0]).books, rs[1..], k - 1);
      SplitsFirst(books, rs, k);
    }
  }

  ghost predicate IdsGrew(now: seq<PriceTime.Book>, later: seq<PriceTime.Book>) {
    |now| == |later| && forall t :: 0 <= t < |now| ==> now[t].nextId <= later[t].nextId
  }

  lemma {:induction false} SplitsFirst(books: seq<PriceTime.Book>, rs: seq<ClientRequest>, k: nat)
    requires 0 < k <= |rs| && Dispatchable(books, rs[0])
    ensures rs[..k][0] == rs[0]
    ensures var x := StepAll(books, rs[0]);
            var now, all := RunAll(x.books, rs[1..][..k - 1]), RunAll(x.books, rs[1..]);
            && rs[..k][1..] == rs[1..][..k - 1]
            && RunAll(books, rs[..k]).books == now.books && RunAll(books, rs[..k]).updates == x.updates + now.updates
            && RunAll(books, rs).books == all.books && RunAll(books, rs).updates == x.updates + all.updates
  {
  }

  lemma {:induction false} EmptyBooksAgree(tickers: nat)
    ensures AllWF(EmptyBooks(tickers)) && Agrees(map[], EmptyBooks(tickers))
  {
  }

  /** What the exchange publishes when its books, all empty at first, process these requests. */
  function FeedOf(z: Size, tickers: nat, rs: seq<ClientRequest>): Feed {
    Feed(z, RunAll(EmptyBooks(tickers), rs).updates)
  }

  ghost predicate Runs(z: Size, tickers: nat, rs: seq<ClientRequest>) {
    RunAccepted(EmptyBooks(tickers), rs) && IdsFit(RunAll(EmptyBooks(tickers), rs).books, z)
  }

  /** After any number of requests, the updates sent so far stand for exactly the books' resting orders. */
  lemma {:induction false} FeedFollows(z: Size, tickers: nat, rs: seq<ClientRequest>, k: nat)
    requires Runs(z, tickers, rs) && k <= |rs|
    ensures var f := FeedOf(z, tickers, rs);
            var now := RunAll(EmptyBooks(tickers), rs[..k]);
            Published(f) && now.updates <= f.us && Agrees(After(f, |now.updates|), now.books)
  {
    var books := EmptyBooks(tickers);
    var f := FeedOf(z, tickers, rs);
    var now := RunAll(books, rs[..k]);
    EmptyBooksAgree(tickers);
    RunSplits(books, rs, k);
    MirrorFollows(books, rs, map[], z);
    MirrorFollows(books, rs[..k], map[], z);
    assert f.us[..|now.updates|] == now.updates;
    AfterHeld(f, |now.updates|);
  }

  /** The synthesizer outlives a run that the engine survives if and only if never as many orders rest in all books
      together as its pool has blocks. */
  lemma {:induction false} LastsFromEmpty(code: Code, cap: Capacity, pool: nat, tickers: nat, rs: seq<ClientRequest>,
                                          z: Size)
    requires RunMayRest(code, cap, EmptyBooks(tickers), rs) && Survived(cap, EmptyBooks(tickers), rs) == |rs|
    requires IdsFit(RunAll(EmptyBooks(tickers), rs).books, z) && pool > 0
    ensures var us := RunAll(EmptyBooks(tickers), rs).updates;
            && FoldAll(z, map[], us).Some?
            && (Lasts(z, pool, map[], us) <==> NeverFull(pool, EmptyBooks(tickers), rs))
  {
    var books := EmptyBooks(tickers);
    EmptyBooksAgree(tickers);
    MayRestIsAccepted(code, cap, books, rs);
    assert rs[..|rs|] == rs;
    MirrorFollows(books, rs, map[], z);
    MirrorSize(map[], books);
    MirrorLastsExactly(pool, books, rs, map[], z);
  }

  // ---------------------------------------------------------------- the channels

  /** What the publisher and the synthesizer send is what a consumer's `Genuine` arrivals are taken from. */
  lemma {:induction false} ChannelsAreGenuine(f: Feed, n: nat)
    requires Published(f) && n <= |f.us|
    ensures Numbered(f.us, 1) == seq(|f.us|, i requires 0 <= i < |f.us| => Message(f, Incremental(i + 1)))
    ensures FoldAll(f.z, map[], f.us[..n]).Some?
    ensures var mirror := FoldAll(f.z, map[], f.us[..n]).value;
            var sent := Numbered(Round(f.z, mirror, n), 0);
            forall i: nat :: i < |sent| ==> Genuine(f, Snapshot(n, i)) && sent[i] == Message(f, Snapshot(n, i))
  {
    AfterHeld(f, n);
  }

  // ---------------------------------------------------------------- requests to subscribers

  lemma {:induction false} RunBooksWF(books: seq<PriceTime.Book>, rs: seq<ClientRequest>)
    requires AllWF(books) && RunAccepted(books, rs)
    ensures AllWF(RunAll(books, rs).books)
    decreases |rs|
  {
    if rs != [] {
      StepBooks(books, rs[0]);
      RunBooksWF(StepAll(books, rs[0]).books, rs[1..]);
    }
  }

  /** The books after some of the requests: well formed, and within the mirror's dimensions. */
  lemma {:induction false} BooksNow(z: Size, tickers: nat, rs: seq<ClientRequest>, k: nat)
    requires Runs(z, tickers, rs) && k <= |rs|
    ensures var now := RunAll(EmptyBooks(tickers), rs[..k]).books;
            |now| == tickers && AllWF(now) && forall t :: 0 <= t < tickers ==> now[t].nextId <= z.ids
  {
    EmptyBooksAgree(tickers);
    RunSplits(EmptyBooks(tickers), rs, k);
    RunBooksWF(EmptyBooks(tickers), rs[..k]);
    IdsGrow(EmptyBooks(tickers), rs[..k]);
  }

  /** The subscriber is not in recovery and has heard what the first `k` requests made the books send. */
  ghost predicate HeardUpTo(z: Size, tickers: nat, rs: seq<ClientRequest>, k: nat, st: State)
    requires k <= |rs|
  {
    !st.inRecovery && st.next == |RunAll(EmptyBooks(tickers), rs[..k]).updates| + 1
  }

  /** What a network may deliver of it: any loss, repetition and reordering, as long as rounds are kept apart in
      one way or the other. As written even that does not matter. */
  ghost predicate Delivery(rules: Rules, f: Feed, heard: seq<Read>) {
    && (forall i :: 0 <= i < |heard| ==> GenuineRead(f, heard[i]))
    && (rules.CountBody? || exists how: Guard :: GuardedRun(how, rules, f, INITIAL, heard, 0))
  }

  lemma {:induction false} DeliveryIsSafe(rules: Rules, f: Feed, heard: seq<Read>)
    requires Published(f) && Delivery(rules, f, heard)
    ensures Safe(f, RunReads(rules, f, INITIAL, heard))
  {
    if rules.CountBody? {
      AsWrittenIsSafe(f, heard);
    } else {
      var how: Guard :| GuardedRun(how, rules, f, INITIAL, heard, 0);
      ConsumerIsSafe(how, rules, f, heard);
    }
  }

  lemma {:induction false} SubscriberHolds(rules: Rules, z: Size, tickers: nat, rs: seq<ClientRequest>, k: nat,
                                           heard: seq<Read>)
    requires Runs(z, tickers, rs) && k <= |rs| && Delivery(rules, FeedOf(z, tickers, rs), heard)
    requires HeardUpTo(z, tickers, rs, k, RunReads(rules, FeedOf(z, tickers, rs), INITIAL, heard))
    ensures var f := FeedOf(z, tickers, rs);
            var n := |RunAll(EmptyBooks(tickers), rs[..k]).updates|;
            n <= |f.us| && Replay(map[], RunReads(rules, f, INITIAL, heard).delivered) == After(f, n)
  {
    FeedFollows(z, tickers, rs, k);
    DeliveryIsSafe(rules, FeedOf(z, tickers, rs), heard);
  }

  /** The whole exchange, for every text of the consumer: whatever a network that keeps rounds apart loses, repeats
      or reorders, a subscriber that is not in recovery and has heard the updates of the first `k` requests holds
      exactly the orders then resting. */
  lemma {:induction false} SubscriberFollows(rules: Rules, z: Size, tickers: nat, rs: seq<ClientRequest>, k: nat,
                                             heard: seq<Read>)
    requires Runs(z, tickers, rs) && k <= |rs| && Delivery(rules, FeedOf(z, tickers, rs), heard)
    requires HeardUpTo(z, tickers, rs, k, RunReads(rules, FeedOf(z, tickers, rs), INITIAL, heard))
    ensures Agrees(Replay(map[], RunReads(rules, FeedOf(z, tickers, rs), INITIAL, heard).delivered),
                   RunAll(EmptyBooks(tickers), rs[..k]).books)
  {
    FeedFollows(z, tickers, rs, k);
    SubscriberHolds(rules, z, tickers, rs, k, heard);
  }

  /** And it can rebuild every queue, in the order in which the exchange will fill it. */
  lemma {:induction false} SubscriberRebuilds(rules: Rules, z: Size, tickers: nat, rs: seq<ClientRequest>, k: nat,
                                              heard: seq<Read>,
                                              t: nat, side: Side)
    requires Runs(z, tickers, rs) && k <= |rs| && Delivery(rules, FeedOf(z, tickers, rs), heard)
    requires HeardUpTo(z, tickers, rs, k, RunReads(rules, FeedOf(z, tickers, rs), INITIAL, heard))
    requires t < tickers && IsSide(side)
    ensures var now := RunAll(EmptyBooks(tickers), rs[..k]).books;
            var s := Replay(map[], RunReads(rules, FeedOf(z, tickers, rs), INITIAL, heard).delivered);
            && |now| == tickers
            && SnapshotOrder.Rebuild([], Row(s, t, z.ids), side)
                 == SnapshotOrder.AsUpdates(PriceTime.Queue(now[t], side))
  {
    var f := FeedOf(z, tickers, rs);
    var now := RunAll(EmptyBooks(tickers), rs[..k]);
    FeedFollows(z, tickers, rs, k);
    SubscriberHolds(rules, z, tickers, rs, k, heard);
    AfterHeld(f, |now.updates|);
    BooksNow(z, tickers, rs, k);
    assert ShowsBook(After(f, |now.updates|), t, now.books[t]) && WF(now.books[t], t);
    SnapshotOrder.QueuesRebuilt(z, After(f, |now.updates|), t, now.books[t], side);
  }
}

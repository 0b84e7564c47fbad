/** The programs' objects put together: the engine processes requests, its updates go through the queue to the
    publisher and the synthesizer, and a subscriber reads what the network lets through of what those sent. */
module Exchange {
  import opened Types
  import PriceTime
  import opened WireFormat
  import opened BookCapacity
  import opened MatchingEngine
  import opened LFQueue
  import opened MarketData
  import opened MirrorAgreement
  import opened MirrorCapacity
  import opened MarketDataWire
  import opened UpdateWidths
  import opened MarketDataPublisher
  import opened SnapshotSynthesizer
  import opened MarketDataConsumer
  import opened ConsumerSafety
  import opened MarketDataDelivery
  import opened EndToEnd

  /** Writes an update into the publisher's queue, which has room for it. */
  method EnqueueOne(queue: LFQueue<MarketUpdate>, update: MarketUpdate)
    requires queue.Valid() && queue.Counted() && queue.producer.Idle? && |queue.Unread()| < queue.store.Length
    modifies queue, queue.store
    ensures queue.Valid() && queue.Counted() && queue.producer.Idle? && queue.consumer == old(queue.consumer)
    ensures queue.Unread() == old(queue.Unread()) + [update]
  {
    queue.RoomExactly();
    queue.Write(update);
    queue.UpdateWriteIndex();
  }

  method Enqueue(queue: LFQueue<MarketUpdate>, updates: seq<MarketUpdate>)
    requires queue.Valid() && queue.producer.Idle? && queue.Unread() == [] && |updates| <= queue.store.Length
    modifies queue, queue.store
    ensures queue.Valid() && queue.producer.Idle? && queue.consumer == old(queue.consumer)
    ensures queue.Unread() == updates
  {
    queue.ValidIsCounted();
    for i := 0 to |updates|
      invariant queue.Valid() && queue.Counted() && queue.producer.Idle? && queue.consumer == old(queue.consumer)
      invariant queue.Unread() == updates[..i]
    {
      EnqueueOne(queue, updates[i]);
      assert updates[..i + 1] == updates[..i] + [updates[i]];
    }
    assert updates[..|updates|] == updates;
  }

  /** An empty queue, nothing published, an empty mirror. */
  ghost predicate AtStart(queue: LFQueue<MarketUpdate>, publisher: Publisher, synthesizer: SnapshotSynthesizer)
    reads queue, queue.store, publisher, synthesizer.Repr()
  {
    && queue.Valid() && queue.producer.Idle? && queue.consumer.Waiting? && queue.Unread() == []
    && queue.discipline == OrderOf(publisher.code)
    && publisher.nextIncSeqNum == 1 && publisher.incremental == [] && publisher.snapshotUpdates == []
    && synthesizer.Valid() && synthesizer.Mirror() == map[]
    && synthesizer.lastIncSeqNum == 0 && synthesizer.sent == []
  }

  ghost predicate StillAtStart(queue: LFQueue<MarketUpdate>, publisher: Publisher, synthesizer: SnapshotSynthesizer)
    reads queue, queue.store, publisher, synthesizer.Repr()
  {
    synthesizer.orderPool.size > 0
    && forall u {:trigger Sealed(u)} :: Sealed(u) ==> AtStart(queue, publisher, synthesizer)
  }

  /** Both channels, and the mirror. */
  datatype Channels = Channels(incremental: seq<Sending>, snapshots: seq<MDPMarketUpdate>, mirror: Option<Orders>)

  /** What is sent of these updates, the round being taken of the mirror that they leave. */
  ghost function SentOf(code: Code, z: Size, updates: seq<MarketUpdate>): Channels {
    var mirror := FoldAll(z, map[], updates);
    Channels(Sendings(code, Numbered(updates, 1)),
             if mirror.Some? then Numbered(Round(z, mirror.value, |updates|), 0) else [], mirror)
  }

  /** The channels carry these updates. */
  ghost predicate Sent(publisher: Publisher, synthesizer: SnapshotSynthesizer, updates: seq<MarketUpdate>)
    reads publisher, synthesizer, synthesizer.tickerOrders
  {
    Channels(publisher.incremental, synthesizer.sent, Some(synthesizer.Mirror()))
      == SentOf(publisher.code, synthesizer.Dimensions(), updates)
  }

  /** Sends updates through the queue, the publisher and the synthesizer, which survives exactly what its mirror
      outlives. */
  method Distribute(queue: LFQueue<MarketUpdate>, publisher: Publisher, synthesizer: SnapshotSynthesizer,
                    updates: seq<MarketUpdate>) returns (ok: bool)
    requires AtStart(queue, publisher, synthesizer) && |updates| <= queue.store.Length
    modifies queue, queue.store, publisher, synthesizer.Repr()
    ensures ok <==> Lasts(synthesizer.Dimensions(), synthesizer.orderPool.size, map[], updates)
    ensures publisher.incremental == Sendings(publisher.code, Numbered(updates, 1))
    ensures ok ==> Sent(publisher, synthesizer, updates)
  {
    Enqueue(queue, updates);
    publisher.Drain(queue);
    var numbered := publisher.snapshotUpdates;
    assert numbered == Numbered(updates, 1) && Updates(numbered) == updates;
    ok := synthesizer.Turn(numbered, true);
  }

  method DistributeFrom(queue: LFQueue<MarketUpdate>, publisher: Publisher, synthesizer: SnapshotSynthesizer,
                        updates: seq<MarketUpdate>) returns (ok: bool)
    requires StillAtStart(queue, publisher, synthesizer) && |updates| <= queue.store.Length
    modifies queue, queue.store, publisher, synthesizer.Repr()
    ensures ok <==> Lasts(synthesizer.Dimensions(), synthesizer.orderPool.size, map[], updates)
    ensures ok ==> Sent(publisher, synthesizer, updates)
  {
    assert Sealed(0);
    ok := Distribute(queue, publisher, synthesizer, updates);
  }

  /** The channels share nothing with the books. */
  ghost predicate Beside(engine: MatchingEngine, queue: LFQueue<MarketUpdate>, publisher: Publisher,
                         synthesizer: SnapshotSynthesizer)
  {
    && queue !in engine.Footprint() && queue.store !in engine.Footprint() && publisher !in engine.Footprint()
    && synthesizer.Repr() !! engine.Footprint()
  }

  /** The orders of a run may rest, its ids fit the mirror, and its updates a queue of this length. */
  ghost predicate Fitting(code: Code, cap: Capacity, z: Size, length: nat, tickers: nat, requests: seq<ClientRequest>) {
    forall u {:trigger Sealed(u)} :: Sealed(u) ==>
      && RunMayRest(code, cap, EmptyBooks(tickers), requests)
      && IdsFit(RunAll(EmptyBooks(tickers), requests).books, z)
      && |RunAll(EmptyBooks(tickers), requests).updates| <= length
  }

  lemma {:induction false} FittingMeans(code: Code, cap: Capacity, z: Size, length: nat, tickers: nat,
                                        requests: seq<ClientRequest>)
    requires Fitting(code, cap, z, length, tickers, requests)
    ensures RunMayRest(code, cap, EmptyBooks(tickers), requests)
    ensures IdsFit(RunAll(EmptyBooks(tickers), requests).books, z)
    ensures |RunAll(EmptyBooks(tickers), requests).updates| <= length
  {
    assert Sealed(0);
  }

  /** Everything at its start: empty books, and a queue wide enough for the run. */
  ghost predicate Ready(engine: MatchingEngine, queue: LFQueue<MarketUpdate>, publisher: Publisher,
                        synthesizer: SnapshotSynthesizer, requests: seq<ClientRequest>)
    reads engine.Footprint(), engine.out, queue, queue.store, publisher, synthesizer.Repr()
  {
    forall u {:trigger Sealed(u)} :: Sealed(u) ==>
      && engine.Valid() && engine.Books() == EmptyBooks(|engine.books|) && engine.out.updates == []
      && Fitting(engine.code, engine.capacity, synthesizer.Dimensions(), queue.store.Length, |engine.books|, requests)
      && StillAtStart(queue, publisher, synthesizer)
      && Beside(engine, queue, publisher, synthesizer)
  }

  lemma {:induction false} ReadyFits(engine: MatchingEngine, queue: LFQueue<MarketUpdate>, publisher: Publisher,
                                     synthesizer: SnapshotSynthesizer, requests: seq<ClientRequest>)
    requires Ready(engine, queue, publisher, synthesizer, requests)
    ensures Fitting(engine.code, engine.capacity, synthesizer.Dimensions(), queue.store.Length, |engine.books|,
                    requests)
  {
    assert Sealed(0);
  }

  lemma {:induction false} ReadyMeans(engine: MatchingEngine, queue: LFQueue<MarketUpdate>, publisher: Publisher,
                                      synthesizer: SnapshotSynthesizer, requests: seq<ClientRequest>)
    requires Ready(engine, queue, publisher, synthesizer, requests)
    ensures engine.Valid() && engine.Books() == EmptyBooks(|engine.books|) && engine.out.updates == []
    ensures StillAtStart(queue, publisher, synthesizer) && Beside(engine, queue, publisher, synthesizer)
  {
    assert Sealed(0);
  }

  /** What both market data channels carry, and how the mirror stands, after a run. */
  ghost predicate Carried(publisher: Publisher, synthesizer: SnapshotSynthesizer, tickers: nat,
                          requests: seq<ClientRequest>)
    reads publisher, synthesizer, synthesizer.tickerOrders
  {
    var x := RunAll(EmptyBooks(tickers), requests);
    Sent(publisher, synthesizer, x.updates) && Agrees(synthesizer.Mirror(), x.books)
  }

  /** The exchange outlives a run: every request finds its place, and never do as many orders rest in all books
      together as the synthesizer's pool has blocks. */
  ghost predicate Outlasts(cap: Capacity, pool: nat, tickers: nat, requests: seq<ClientRequest>) {
    Survived(cap, EmptyBooks(tickers), requests) == |requests| && NeverFull(pool, EmptyBooks(tickers), requests)
  }

  /** The exchange's side: requests in, both market data channels out. */
  method Publish(engine: MatchingEngine, queue: LFQueue<MarketUpdate>, publisher: Publisher,
                 synthesizer: SnapshotSynthesizer, requests: seq<ClientRequest>) returns (ok: bool)
    requires Ready(engine, queue, publisher, synthesizer, requests)
    modifies engine.Footprint(), engine.out, queue, queue.store, publisher, synthesizer.Repr()
    ensures ok <==> Outlasts(engine.capacity, synthesizer.orderPool.size, |engine.books|, requests)
    ensures ok ==> Carried(publisher, synthesizer, |engine.books|, requests)
    ensures ok ==> engine.Valid() && engine.Books() == RunAll(EmptyBooks(|engine.books|), requests).books
  {
    ReadyFits(engine, queue, publisher, synthesizer, requests);
    ReadyMeans(engine, queue, publisher, synthesizer, requests);
    ok := RunBeside(engine, queue, publisher, synthesizer, requests);
    if ok {
      ok := PublishRun(engine, queue, publisher, synthesizer, requests);
    }
  }

  method PublishRun(engine: MatchingEngine, queue: LFQueue<MarketUpdate>, publisher: Publisher,
                    synthesizer: SnapshotSynthesizer, requests: seq<ClientRequest>) returns (ok: bool)
    requires StillAtStart(queue, publisher, synthesizer)
    requires engine.out.updates == RunAll(EmptyBooks(|engine.books|), requests).updates
    requires Fitting(engine.code, engine.capacity, synthesizer.Dimensions(), queue.store.Length, |engine.books|,
                     requests)
    requires Survived(engine.capacity, EmptyBooks(|engine.books|), requests) == |requests|
    requires engine.Valid() && Beside(engine, queue, publisher, synthesizer)
    modifies queue, queue.store, publisher, synthesizer.Repr()
    ensures ok <==> NeverFull(synthesizer.orderPool.size, EmptyBooks(|engine.books|), requests)
    ensures ok ==> Carried(publisher, synthesizer, |engine.books|, requests)
    ensures engine.Valid() && engine.Books() == old(engine.Books())
  {
    FittingMeans(engine.code, engine.capacity, synthesizer.Dimensions(), queue.store.Length, |engine.books|, requests);
    Feeds(engine.code, engine.capacity, synthesizer.Dimensions(), |engine.books|, requests);
    LastsFromEmpty(engine.code, engine.capacity, synthesizer.orderPool.size, |engine.books|, requests,
                   synthesizer.Dimensions());
    ok := DistributeBeside(engine, queue, publisher, synthesizer, engine.out.updates);
  }

  /** Sending touches no book. */
  method DistributeBeside(engine: MatchingEngine, queue: LFQueue<MarketUpdate>, publisher: Publisher,
                          synthesizer: SnapshotSynthesizer, updates: seq<MarketUpdate>) returns (ok: bool)
    requires StillAtStart(queue, publisher, synthesizer) && |updates| <= queue.store.Length
    requires engine.Valid() && Beside(engine, queue, publisher, synthesizer)
    modifies queue, queue.store, publisher, synthesizer.Repr()
    ensures ok <==> Lasts(synthesizer.Dimensions(), synthesizer.orderPool.size, map[], updates)
    ensures ok ==> Sent(publisher, synthesizer, updates)
    ensures engine.Valid() && engine.Books() == old(engine.Books())
  {
    ok := DistributeFrom(queue, publisher, synthesizer, updates);
    StillValid(engine);
  }

  method RunEngine(engine: MatchingEngine, requests: seq<ClientRequest>) returns (ok: bool)
    requires engine.Valid() && RunMayRest(engine.code, engine.capacity, engine.Books(), requests)
    requires engine.out.updates == []
    modifies engine.Footprint(), engine.out
    ensures ok <==> Survived(engine.capacity, old(engine.Books()), requests) == |requests|
    ensures ok ==> var x := RunAll(old(engine.Books()), requests);
                   engine.Valid() && engine.Books() == x.books && engine.out.updates == x.updates
  {
    var n;
    ok, n := engine.Run(requests);
    assert ok ==> requests[..n] == requests;
  }

  /** A run of the engine touches no channel. */
  method RunBeside(engine: MatchingEngine, queue: LFQueue<MarketUpdate>, publisher: Publisher,
                   synthesizer: SnapshotSynthesizer, requests: seq<ClientRequest>) returns (ok: bool)
    requires Ready(engine, queue, publisher, synthesizer, requests)
    modifies engine.Footprint(), engine.out
    ensures ok <==> Survived(engine.capacity, old(engine.Books()), requests) == |requests|
    ensures ok ==> var x := RunAll(old(engine.Books()), requests);
                   engine.Valid() && engine.Books() == x.books && engine.out.updates == x.updates
    ensures StillAtStart(queue, publisher, synthesizer)
  {
    ReadyFits(engine, queue, publisher, synthesizer, requests);
    ReadyMeans(engine, queue, publisher, synthesizer, requests);
    FittingMeans(engine.code, engine.capacity, synthesizer.Dimensions(), queue.store.Length, |engine.books|, requests);
    ok := RunEngine(engine, requests);
  }

  twostate lemma {:induction false} StillValid(engine: MatchingEngine)
    requires old(engine.Valid()) && forall o: object :: o in engine.Footprint() ==> unchanged(o)
    ensures engine.Valid() && engine.Books() == old(engine.Books())
  {
  }

  /** What the mirror folds to after a run that the engine survives. */
  lemma {:induction false} Feeds(code: Code, cap: Capacity, z: Size, tickers: nat, requests: seq<ClientRequest>)
    requires RunMayRest(code, cap, EmptyBooks(tickers), requests)
    requires Survived(cap, EmptyBooks(tickers), requests) == |requests|
    requires IdsFit(RunAll(EmptyBooks(tickers), requests).books, z)
    ensures var f := FeedOf(z, tickers, requests);
            && Runs(z, tickers, requests) && ConsumerSafety.Published(f)
            && FoldAll(z, map[], f.us) == Some(After(f, |f.us|))
            && Agrees(After(f, |f.us|), RunAll(EmptyBooks(tickers), requests).books)
  {
    EmptyBooksAgree(tickers);
    MayRestIsAccepted(code, cap, EmptyBooks(tickers), requests);
    assert requests[..|requests|] == requests;
    FeedFollows(z, tickers, requests, |requests|);
    var f := FeedOf(z, tickers, requests);
    AfterHeld(f, |f.us|);
    assert f.us[..|f.us|] == f.us;
  }

  // ---------------------------------------------------------------- the subscriber

  /** Every field of a request fits, and so do the sizes that bound ids, tickers and sequence numbers. */
  ghost predicate Representable(queue: LFQueue<MarketUpdate>, z: Size, requests: seq<ClientRequest>) {
    && z.ids <= Power(8) && z.tickers <= Power(4) && queue.store.Length < Power(8)
    && forall i :: 0 <= i < |requests| ==> RequestFits(requests[i])
  }

  /** What a run sends can be put on the wire, and of a publisher that sends whole updates the channels carry the
      feed. */
  lemma {:induction false} ChannelsCarry(queue: LFQueue<MarketUpdate>, publisher: Publisher,
                                         synthesizer: SnapshotSynthesizer, tickers: nat, requests: seq<ClientRequest>)
    requires Representable(queue, synthesizer.Dimensions(), requests)
    requires Runs(synthesizer.Dimensions(), tickers, requests)
    requires |RunAll(EmptyBooks(tickers), requests).updates| <= queue.store.Length
    requires Carried(publisher, synthesizer, tickers, requests)
    ensures CanSend(publisher.incremental)
    ensures publisher.code.Repaired? ==>
              Carry(FeedOf(synthesizer.Dimensions(), tickers, requests), publisher.incremental, synthesizer.sent)
  {
    var z, books := synthesizer.Dimensions(), EmptyBooks(tickers);
    var f := FeedOf(z, tickers, requests);
    EmptyBooksAgree(tickers);
    RunFits(books, requests, z);
    FeedFollows(z, tickers, requests, |requests|);
    assert requests[..|requests|] == requests && f.us[..|f.us|] == f.us;
    AfterHeld(f, |f.us|);
    assert forall i :: 0 <= i < |f.us| ==> Numbered(f.us, 1)[i] == MDPMarketUpdate(1 + i, f.us[i]);
  }

  /** The subscriber reads whatever the network delivers of the two channels. */
  method Subscribe(consumer: MarketDataConsumer, incremental: seq<Sending>, snapshots: seq<MDPMarketUpdate>,
                   picks: seq<Pick>)
    requires CanSend(incremental)
    modifies consumer
    ensures consumer.Now() == Heard(consumer.rules, old(consumer.Now()), incremental, snapshots, picks)
  {
    ghost var st := consumer.Now();
    for i := 0 to |picks|
      invariant Heard(consumer.rules, st, incremental, snapshots, picks)
                == Heard(consumer.rules, consumer.Now(), incremental, snapshots, picks[i..])
    {
      assert picks[i..][0] == picks[i] && picks[i..][1..] == picks[i + 1..];
      consumer.RecvCallback(picks[i].isSnapshot, Arriving(incremental, snapshots, picks[i]));
    }
  }

  /** The subscriber holds exactly the orders that rested after as many requests as it has heard of. */
  ghost predicate Follows(st: State, z: Size, tickers: nat, requests: seq<ClientRequest>) {
    forall k | 0 <= k <= |requests| && HeardUpTo(z, tickers, requests, k, st) ::
      Agrees(Replay(map[], st.delivered), RunAll(EmptyBooks(tickers), requests[..k]).books)
  }

  /** One round of snapshots cannot be mixed. */
  lemma {:induction false} PicksDelivered(rules: Rules, f: Feed, picks: seq<Pick>)
    requires ConsumerSafety.Published(f) && forall i :: 0 <= i < |picks| ==> GenuineRead(f, ReadsOf(f, picks)[i])
    ensures Delivery(rules, f, ReadsOf(f, picks))
  {
    if !rules.CountBody? {
      PicksUnmixed(rules, f, picks);
      assert GuardedRun(Unmixed, rules, f, INITIAL, ReadsOf(f, picks), 0);
    }
  }

  lemma {:induction false} FollowsReads(rules: Rules, z: Size, tickers: nat, requests: seq<ClientRequest>,
                                        heard: seq<Read>)
    requires Runs(z, tickers, requests) && Delivery(rules, FeedOf(z, tickers, requests), heard)
    ensures Follows(RunReads(rules, FeedOf(z, tickers, requests), INITIAL, heard), z, tickers, requests)
  {
    var st := RunReads(rules, FeedOf(z, tickers, requests), INITIAL, heard);
    forall k | 0 <= k <= |requests| && HeardUpTo(z, tickers, requests, k, st)
      ensures Agrees(Replay(map[], st.delivered), RunAll(EmptyBooks(tickers), requests[..k]).books)
    {
      SubscriberFollows(rules, z, tickers, requests, k, heard);
    }
  }

  /** Whatever it reads of the channels of a run, a subscriber follows; and if it misses no update, it has heard
      of all requests in the end. */
  lemma {:induction false} HeardFollows(rules: Rules, z: Size, tickers: nat, requests: seq<ClientRequest>,
                                        incremental: seq<Sending>, snapshots: seq<MDPMarketUpdate>, picks: seq<Pick>)
    requires Runs(z, tickers, requests) && CanSend(incremental)
    requires Carry(FeedOf(z, tickers, requests), incremental, snapshots)
    ensures var st := Heard(rules, INITIAL, incremental, snapshots, picks);
            && Follows(st, z, tickers, requests)
            && (Lossless(picks, |FeedOf(z, tickers, requests).us|) ==>
                  HeardUpTo(z, tickers, requests, |requests|, st))
  {
    var f := FeedOf(z, tickers, requests);
    var st := Heard(rules, INITIAL, incremental, snapshots, picks);
    FeedFollows(z, tickers, requests, |requests|);
    HeardGenuine(rules, f, INITIAL, incremental, snapshots, picks);
    PicksDelivered(rules, f, picks);
    FollowsReads(rules, z, tickers, requests, ReadsOf(f, picks));
    if Lossless(picks, |f.us|) {
      assert InStep(f, 0) == INITIAL;
      LosslessInStep(rules, f, 0, incremental, snapshots, picks);
      assert requests[..|requests|] == requests;
    }
  }

  /** Where a subscriber of these channels ends: what it reads of as-written ones is not what was published. */
  ghost predicate Ends(consumer: MarketDataConsumer, code: Code, z: Size, tickers: nat, requests: seq<ClientRequest>,
                       picks: seq<Pick>)
    reads consumer
  {
    code.Repaired? ==>
      && Follows(consumer.Now(), z, tickers, requests)
      && (Lossless(picks, |FeedOf(z, tickers, requests).us|) ==>
            HeardUpTo(z, tickers, requests, |requests|, consumer.Now()))
  }

  /** Reading touches no channel. */
  method SubscribeTo(queue: LFQueue<MarketUpdate>, publisher: Publisher, synthesizer: SnapshotSynthesizer,
                     consumer: MarketDataConsumer, ghost tickers: nat, ghost requests: seq<ClientRequest>,
                     picks: seq<Pick>)
    requires consumer.Now() == INITIAL
    requires Representable(queue, synthesizer.Dimensions(), requests)
    requires Runs(synthesizer.Dimensions(), tickers, requests)
    requires |RunAll(EmptyBooks(tickers), requests).updates| <= queue.store.Length
    requires Carried(publisher, synthesizer, tickers, requests)
    modifies consumer
    ensures Ends(consumer, publisher.code, synthesizer.Dimensions(), tickers, requests, picks)
  {
    ghost var z := synthesizer.Dimensions();
    ChannelsCarry(queue, publisher, synthesizer, tickers, requests);
    Subscribe(consumer, publisher.incremental, synthesizer.sent, picks);
    if publisher.code.Repaired? {
      HeardFollows(consumer.rules, z, tickers, requests, publisher.incremental, synthesizer.sent, picks);
    }
  }

  /** Nor any book. */
  method SubscribeBeside(engine: MatchingEngine, queue: LFQueue<MarketUpdate>, publisher: Publisher,
                         synthesizer: SnapshotSynthesizer,
                         consumer: MarketDataConsumer, ghost requests: seq<ClientRequest>, picks: seq<Pick>)
    requires engine.Valid() && consumer !in engine.Footprint() && consumer.Now() == INITIAL
    requires Representable(queue, synthesizer.Dimensions(), requests)
    requires Fitting(engine.code, engine.capacity, synthesizer.Dimensions(), queue.store.Length, |engine.books|,
                     requests)
    requires Survived(engine.capacity, EmptyBooks(|engine.books|), requests) == |requests|
    requires Carried(publisher, synthesizer, |engine.books|, requests)
    requires engine.Books() == RunAll(EmptyBooks(|engine.books|), requests).books
    modifies consumer
    ensures Carried(publisher, synthesizer, |engine.books|, requests)
    ensures Ends(consumer, publisher.code, synthesizer.Dimensions(), |engine.books|, requests, picks)
    ensures engine.Valid() && engine.Books() == RunAll(EmptyBooks(|engine.books|), requests).books
  {
    FittingMeans(engine.code, engine.capacity, synthesizer.Dimensions(), queue.store.Length, |engine.books|, requests);
    Feeds(engine.code, engine.capacity, synthesizer.Dimensions(), |engine.books|, requests);
    SubscribeTo(queue, publisher, synthesizer, consumer, |engine.books|, requests, picks);
    StillValid(engine);
  }

  /** From requests to subscriber, in memory. The run succeeds exactly when engine and synthesizer outlive it; and
      a subscriber that reads anything the network makes of what publisher and synthesizer then have sent follows
      the books. */
  method Run(engine: MatchingEngine, queue: LFQueue<MarketUpdate>, publisher: Publisher,
             synthesizer: SnapshotSynthesizer, consumer: MarketDataConsumer, requests: seq<ClientRequest>,
             picks: seq<Pick>)
    returns (ok: bool)
    requires Ready(engine, queue, publisher, synthesizer, requests)
    requires Representable(queue, synthesizer.Dimensions(), requests)
    requires consumer.Now() == INITIAL && consumer !in engine.Footprint()
    modifies engine.Footprint(), engine.out, queue, queue.store, publisher, synthesizer.Repr(), consumer
    ensures ok <==> Outlasts(engine.capacity, synthesizer.orderPool.size, |engine.books|, requests)
    ensures ok ==> Carried(publisher, synthesizer, |engine.books|, requests)
    ensures ok ==> engine.Valid() && engine.Books() == RunAll(EmptyBooks(|engine.books|), requests).books
    ensures ok ==> Ends(consumer, publisher.code, synthesizer.Dimensions(), |engine.books|, requests, picks)
  {
    ReadyFits(engine, queue, publisher, synthesizer, requests);
    ok := Publish(engine, queue, publisher, synthesizer, requests);
    if !ok {
      return;
    }
    SubscribeBeside(engine, queue, publisher, synthesizer, consumer, requests, picks);
  }
}

/** What a network makes of the two market data channels: reads of messages taken from what was sent on them, lost,
    repeated and reordered at will. */
module MarketDataDelivery {
  import opened Types
  import opened WireFormat
  import opened MarketDataWire
  import opened MarketDataPublisher
  import opened MarketDataConsumer
  import opened ConsumerSafety

  /** One read: of which channel, and from which places of it the messages come. */
  datatype Pick = Pick(isSnapshot: bool, places: seq<nat>)

  /** The elements at those places; a place behind the end has nothing. */
  function Taken<T>(channel: seq<T>, places: seq<nat>): seq<T> {
    if places == [] then []
    else (if places[0] < |channel| then [channel[places[0]]] else []) + Taken(channel, places[1..])
  }

  lemma {:induction false} TakenFrom<T>(channel: seq<T>, places: seq<nat>)
    ensures forall x :: x in Taken(channel, places) ==> x in channel
  {
    if places != [] {
      TakenFrom(channel, places[1..]);
    }
  }

  lemma {:induction false} TakenSendable(channel: seq<Sending>, places: seq<nat>)
    requires CanSend(channel)
    ensures CanSend(Taken(channel, places))
  {
    TakenFrom(channel, places);
    forall s | s in Taken(channel, places) ensures -TWO_63 <= s.m.update.price < TWO_63 && s.size <= UPDATE {
      assert s in channel;
    }
  }

  /** The messages that a read hands to the consumer: incrementals are read off the bytes that were sent. */
  function Arriving(incremental: seq<Sending>, snapshots: seq<MDPMarketUpdate>, p: Pick): seq<MDPMarketUpdate>
    requires CanSend(incremental)
  {
    TakenSendable(incremental, p.places);
    if p.isSnapshot then Taken(snapshots, p.places) else Received(OnWire(Taken(incremental, p.places)))
  }

  /** Where the reads take a consumer. */
  function Heard(rules: Rules, st: State, incremental: seq<Sending>, snapshots: seq<MDPMarketUpdate>,
                 picks: seq<Pick>): State
    requires CanSend(incremental)
    decreases |picks|
  {
    if picks == [] then st
    else
      Heard(rules, Callback(rules, st, picks[0].isSnapshot, Arriving(incremental, snapshots, picks[0])),
            incremental, snapshots, picks[1..])
  }

  // ---------------------------------------------------------------- whole updates, and one round

  /** The channels carry the feed in whole updates, and the round after its last. */
  ghost predicate Carry(f: Feed, incremental: seq<Sending>, snapshots: seq<MDPMarketUpdate>) {
    && AllFit(Numbered(f.us, 1)) && incremental == Sendings(Repaired, Numbered(f.us, 1))
    && snapshots == Numbered(RoundAfter(f, |f.us|), 0)
  }

  function ArrivalAt(f: Feed, isSnapshot: bool, place: nat): seq<Arrival> {
    if isSnapshot then if place < |RoundAfter(f, |f.us|)| then [Snapshot(|f.us|, place)] else []
    else if place < |f.us| then [Incremental(place + 1)] else []
  }

  function ArrivalsOf(f: Feed, isSnapshot: bool, places: seq<nat>): seq<Arrival> {
    if places == [] then [] else ArrivalAt(f, isSnapshot, places[0]) + ArrivalsOf(f, isSnapshot, places[1..])
  }

  function ReadOf(f: Feed, p: Pick): Read {
    Read(p.isSnapshot, ArrivalsOf(f, p.isSnapshot, p.places))
  }

  function ReadsOf(f: Feed, picks: seq<Pick>): (rs: seq<Read>)
    ensures |rs| == |picks| && forall i :: 0 <= i < |picks| ==> rs[i] == ReadOf(f, picks[i])
  {
    seq(|picks|, i requires 0 <= i < |picks| => ReadOf(f, picks[i]))
  }

  lemma {:induction false} MessagesConcat(f: Feed, isSnapshot: bool, xs: seq<Arrival>, ys: seq<Arrival>)
    requires GenuineRead(f, Read(isSnapshot, xs)) && GenuineRead(f, Read(isSnapshot, ys))
    ensures GenuineRead(f, Read(isSnapshot, xs + ys))
    ensures Messages(f, Read(isSnapshot, xs + ys))
              == Messages(f, Read(isSnapshot, xs)) + Messages(f, Read(isSnapshot, ys))
  {
  }

  /** What was sent on a channel, message by message. */
  function Channel(f: Feed, isSnapshot: bool): seq<MDPMarketUpdate> {
    if isSnapshot then Numbered(RoundAfter(f, |f.us|), 0) else Numbered(f.us, 1)
  }

  lemma {:induction false} OneGenuine(f: Feed, isSnapshot: bool, place: nat)
    ensures GenuineRead(f, Read(isSnapshot, ArrivalAt(f, isSnapshot, place)))
    ensures Messages(f, Read(isSnapshot, ArrivalAt(f, isSnapshot, place)))
              == if place < |Channel(f, isSnapshot)| then [Channel(f, isSnapshot)[place]] else []
  {
  }

  /** What is taken from a channel is genuine, message by message. */
  lemma {:induction false} TakenGenuine(f: Feed, isSnapshot: bool, places: seq<nat>)
    ensures GenuineRead(f, Read(isSnapshot, ArrivalsOf(f, isSnapshot, places)))
    ensures Messages(f, Read(isSnapshot, ArrivalsOf(f, isSnapshot, places))) == Taken(Channel(f, isSnapshot), places)
  {
    if places != [] {
      TakenGenuine(f, isSnapshot, places[1..]);
      OneGenuine(f, isSnapshot, places[0]);
      MessagesConcat(f, isSnapshot, ArrivalAt(f, isSnapshot, places[0]), ArrivalsOf(f, isSnapshot, places[1..]));
    }
  }

  lemma {:induction false} SendingsConcat(code: Code, ms: seq<MDPMarketUpdate>, ns: seq<MDPMarketUpdate>)
    ensures Sendings(code, ms + ns) == Sendings(code, ms) + Sendings(code, ns)
  {
  }

  lemma {:induction false} TakenSendings(code: Code, ms: seq<MDPMarketUpdate>, places: seq<nat>)
    ensures Taken(Sendings(code, ms), places) == Sendings(code, Taken(ms, places))
  {
    if places != [] {
      var first := if places[0] < |ms| then [ms[places[0]]] else [];
      TakenSendings(code, ms, places[1..]);
      SendingsConcat(code, first, Taken(ms, places[1..]));
      assert Sendings(code, first) == if places[0] < |ms| then [Sendings(code, ms)[places[0]]] else [];
    }
  }

  /** Whole updates arrive as they were sent. */
  lemma {:induction false} ArrivingGenuine(f: Feed, incremental: seq<Sending>, snapshots: seq<MDPMarketUpdate>, p: Pick)
    requires Carry(f, incremental, snapshots) && CanSend(incremental)
    ensures GenuineRead(f, ReadOf(f, p)) && Arriving(incremental, snapshots, p) == Messages(f, ReadOf(f, p))
  {
    TakenGenuine(f, p.isSnapshot, p.places);
    if !p.isSnapshot {
      var ms := Numbered(f.us, 1);
      TakenSendings(Repaired, ms, p.places);
      TakenFrom(ms, p.places);
      forall m | m in Taken(ms, p.places) ensures m.seqNum < Power(8) && FitsWidths(m.update) {
        assert m in ms;
      }
      ArrivesExactly(Repaired, Taken(ms, p.places));
    }
  }

  /** So a consumer goes where the genuine reads take it. */
  lemma {:induction false} HeardGenuine(rules: Rules, f: Feed, st: State, incremental: seq<Sending>,
                                        snapshots: seq<MDPMarketUpdate>, picks: seq<Pick>)
    requires Carry(f, incremental, snapshots) && CanSend(incremental)
    ensures forall i :: 0 <= i < |picks| ==> GenuineRead(f, ReadsOf(f, picks)[i])
    ensures Heard(rules, st, incremental, snapshots, picks) == RunReads(rules, f, st, ReadsOf(f, picks))
    decreases |picks|
  {
    forall i | 0 <= i < |picks| ensures GenuineRead(f, ReadsOf(f, picks)[i]) {
      ArrivingGenuine(f, incremental, snapshots, picks[i]);
    }
    if picks != [] {
      ArrivingGenuine(f, incremental, snapshots, picks[0]);
      assert ReadsOf(f, picks)[1..] == ReadsOf(f, picks[1..]);
      HeardGenuine(rules, f, Callback(rules, st, picks[0].isSnapshot, Arriving(incremental, snapshots, picks[0])),
                   incremental, snapshots, picks[1..]);
    }
  }

  // ---------------------------------------------------------------- one round does not mix

  /** The queued snapshot, if there is one, began with the round after `n` updates. */
  ghost predicate FromOneRound(st: State, n: nat) {
    Prefix(st.snaps) && Ascending(st.incs) && (st.snaps != [] ==> st.snaps[0].update.orderId == n)
  }

  lemma {:induction false} OneRoundKept(rules: Rules, f: Feed, st: State, a: Arrival, n: nat)
    requires Published(f) && !rules.CountBody? && FromOneRound(st, n)
    requires Genuine(f, a) && (a.Snapshot? ==> a.last == n)
    ensures FromOneRound(Receive(rules, st, a.Snapshot?, Message(f, a)), n)
  {
    var m := Message(f, a);
    QueueKept(rules, st, a.Snapshot?, m);
    if a.Snapshot? {
      RoundFraming(f, n, a.i);
      GrownExactly(rules, if st.inRecovery then st.snaps else [], m);
    }
  }

  lemma {:induction false} OneRoundRead(rules: Rules, f: Feed, st: State, r: Read, n: nat)
    requires Published(f) && !rules.CountBody? && FromOneRound(st, n) && GenuineRead(f, r)
    requires forall i :: 0 <= i < |r.arrivals| && r.arrivals[i].Snapshot? ==> r.arrivals[i].last == n
    ensures UnmixedRead(rules, f, st, r) && FromOneRound(ReceiveAll(rules, st, r.isSnapshot, Messages(f, r)), n)
    decreases |r.arrivals|
  {
    if r.arrivals != [] {
      var a, rest := r.arrivals[0], Read(r.isSnapshot, r.arrivals[1..]);
      assert forall i :: 0 <= i < |rest.arrivals| ==> rest.arrivals[i] == r.arrivals[i + 1];
      assert Messages(f, r)[1..] == Messages(f, rest);
      OneRoundKept(rules, f, st, a, n);
      OneRoundRead(rules, f, Receive(rules, st, r.isSnapshot, Message(f, a)), rest, n);
    }
  }

  /** Reads of one round only are never mixed. */
  lemma {:induction false} OneRoundUnmixed(rules: Rules, f: Feed, st: State, rs: seq<Read>, n: nat)
    requires Published(f) && !rules.CountBody? && FromOneRound(st, n)
    requires forall i :: 0 <= i < |rs| ==> GenuineRead(f, rs[i])
    requires forall i, j :: 0 <= i < |rs| && 0 <= j < |rs[i].arrivals| && rs[i].arrivals[j].Snapshot? ==>
               rs[i].arrivals[j].last == n
    ensures UnmixedRun(rules, f, st, rs)
    decreases |rs|
  {
    if rs != [] {
      OneRoundRead(rules, f, st, rs[0], n);
      assert forall i :: 0 <= i < |rs[1..]| ==> rs[1..][i] == rs[i + 1];
      OneRoundUnmixed(rules, f, Callback(rules, st, rs[0].isSnapshot, Messages(f, rs[0])), rs[1..], n);
    }
  }

  lemma {:induction false} ArrivalsOfRound(f: Feed, isSnapshot: bool, places: seq<nat>)
    ensures forall a :: a in ArrivalsOf(f, isSnapshot, places) && a.Snapshot? ==> a.last == |f.us|
  {
    if places != [] {
      ArrivalsOfRound(f, isSnapshot, places[1..]);
    }
  }

  lemma {:induction false} PicksUnmixed(rules: Rules, f: Feed, picks: seq<Pick>)
    requires Published(f) && !rules.CountBody? && forall i :: 0 <= i < |picks| ==> GenuineRead(f, ReadsOf(f, picks)[i])
    ensures UnmixedRun(rules, f, INITIAL, ReadsOf(f, picks))
  {
    var rs := ReadsOf(f, picks);
    forall i, j | 0 <= i < |rs| && 0 <= j < |rs[i].arrivals| && rs[i].arrivals[j].Snapshot?
      ensures rs[i].arrivals[j].last == |f.us|
    {
      ArrivalsOfRound(f, picks[i].isSnapshot, picks[i].places);
      assert rs[i].arrivals[j] in rs[i].arrivals;
    }
    OneRoundUnmixed(rules, f, INITIAL, rs, |f.us|);
  }

  // ---------------------------------------------------------------- a network that loses nothing

  /** The incremental places read, one after the other. */
  function IncrementalPlaces(picks: seq<Pick>): seq<nat> {
    if picks == [] then []
    else (if picks[0].isSnapshot then [] else picks[0].places) + IncrementalPlaces(picks[1..])
  }

  predicate Consecutive(places: seq<nat>, first: nat) {
    forall i :: 0 <= i < |places| ==> places[i] == first + i
  }

  /** Every update is read once and in its turn; the snapshots are read anyhow. */
  predicate Lossless(picks: seq<Pick>, n: nat) {
    |IncrementalPlaces(picks)| == n && Consecutive(IncrementalPlaces(picks), 0)
  }

  /** A consumer that has missed nothing of the first `m` updates. */
  function InStep(f: Feed, m: nat): State
    requires m <= |f.us|
  {
    State(m + 1, false, [], [], f.us[..m])
  }

  lemma {:induction false} ReadInStep(rules: Rules, f: Feed, m: nat, places: seq<nat>)
    requires m + |places| <= |f.us| && Consecutive(places, m)
    ensures ReceiveAll(rules, InStep(f, m), false, Taken(Numbered(f.us, 1), places)) == InStep(f, m + |places|)
    decreases |places|
  {
    if places != [] {
      assert places[0] == m && f.us[..m + 1] == f.us[..m] + [f.us[m]];
      ReadInStep(rules, f, m + 1, places[1..]);
    }
  }

  lemma {:induction false} ConsecutiveParts(p: seq<nat>, q: seq<nat>, first: nat)
    requires Consecutive(p + q, first)
    ensures Consecutive(p, first) && Consecutive(q, first + |p|)
  {
    assert forall i :: 0 <= i < |p| ==> p[i] == (p + q)[i];
    assert forall i :: 0 <= i < |q| ==> q[i] == (p + q)[|p| + i];
  }

  lemma {:induction false} PickInStep(rules: Rules, f: Feed, m: nat, incremental: seq<Sending>,
                                      snapshots: seq<MDPMarketUpdate>, p: Pick)
    requires Carry(f, incremental, snapshots) && CanSend(incremental) && m <= |f.us|
    requires !p.isSnapshot ==> m + |p.places| <= |f.us| && Consecutive(p.places, m)
    ensures Callback(rules, InStep(f, m), p.isSnapshot, Arriving(incremental, snapshots, p))
              == if p.isSnapshot then InStep(f, m) else InStep(f, m + |p.places|)
  {
    if !p.isSnapshot {
      ArrivingGenuine(f, incremental, snapshots, p);
      TakenGenuine(f, false, p.places);
      ReadInStep(rules, f, m, p.places);
    }
  }

  lemma {:induction false} HeardNext(rules: Rules, st: State, incremental: seq<Sending>,
                                     snapshots: seq<MDPMarketUpdate>, picks: seq<Pick>, next: State)
    requires CanSend(incremental) && picks != []
    requires Callback(rules, st, picks[0].isSnapshot, Arriving(incremental, snapshots, picks[0])) == next
    ensures Heard(rules, st, incremental, snapshots, picks)
              == Heard(rules, next, incremental, snapshots, picks[1..])
  {
  }

  /** A consumer that misses nothing is in step in the end, whatever it reads of the snapshots. */
  lemma {:induction false} LosslessInStep(rules: Rules, f: Feed, m: nat, incremental: seq<Sending>,
                                          snapshots: seq<MDPMarketUpdate>, picks: seq<Pick>)
    requires Carry(f, incremental, snapshots) && CanSend(incremental)
    requires m + |IncrementalPlaces(picks)| == |f.us| && Consecutive(IncrementalPlaces(picks), m)
    ensures Heard(rules, InStep(f, m), incremental, snapshots, picks) == InStep(f, |f.us|)
    decreases |picks|
  {
    if picks != [] {
      var p, rest := picks[0], picks[1..];
      var mine := if p.isSnapshot then [] else p.places;
      assert IncrementalPlaces(picks) == mine + IncrementalPlaces(rest);
      ConsecutiveParts(mine, IncrementalPlaces(rest), m);
      PickInStep(rules, f, m, incremental, snapshots, p);
      HeardNext(rules, InStep(f, m), incremental, snapshots, picks, InStep(f, m + |mine|));
      LosslessInStep(rules, f, m + |mine|, incremental, snapshots, rest);
    }
  }
}

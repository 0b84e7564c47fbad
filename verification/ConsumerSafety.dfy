/** The consumer over a lossy network: whatever is lost, repeated or reordered, a consumer that is not in
    recovery holds exactly the exchange's state, and one that is holds some state the exchange was in. */
module ConsumerSafety {
  import opened Types
  import opened MarketData
  import opened MarketDataConsumer

  // ---------------------------------------------------------------- what the exchange publishes

  /** The books' whole stream, and the dimensions of the mirror that folds it. */
  datatype Feed = Feed(z: Size, us: seq<MarketUpdate>)

  ghost predicate Published(f: Feed) {
    FoldAll(f.z, map[], f.us).Some? && forall i :: 0 <= i < |f.us| ==> FromBook(f.us[i])
  }

  /** The live orders after the exchange's first `n` updates. */
  function After(f: Feed, n: nat): Orders
    requires n <= |f.us|
  {
    Replay(map[], f.us[..n])
  }

  function RoundAfter(f: Feed, n: nat): seq<MarketUpdate>
    requires n <= |f.us|
  {
    Round(f.z, After(f, n), n)
  }

  lemma {:induction false} AfterHeld(f: Feed, n: nat)
    requires Published(f) && n <= |f.us|
    ensures Held(f.z, After(f, n)) && FoldAll(f.z, map[], f.us[..n]) == Some(After(f, n))
  {
    assert f.us == f.us[..n] + f.us[n..];
    FoldConcat(f.z, map[], f.us[..n], f.us[n..]);
    ReplayIsFold(f.z, map[], f.us[..n]);
    FoldHeld(f.z, map[], f.us[..n]);
  }

  lemma {:induction false} AfterMore(f: Feed, m: nat, n: nat)
    requires m <= n <= |f.us|
    ensures After(f, n) == Replay(After(f, m), f.us[m..n])
  {
    assert f.us[..n] == f.us[..m] + f.us[m..n];
    ReplayConcat(map[], f.us[..m], f.us[m..n]);
  }

  /** Only the first message of a round is a START, and only the last an END. */
  lemma {:induction false} RoundFraming(f: Feed, n: nat, i: nat)
    requires Published(f) && n <= |f.us| && i < |RoundAfter(f, n)|
    ensures RoundAfter(f, n)[i].kind.SNAPSHOT_START? <==> i == 0
    ensures RoundAfter(f, n)[i].kind.SNAPSHOT_END? <==> i == |RoundAfter(f, n)| - 1
    ensures i == 0 || i == |RoundAfter(f, n)| - 1 ==> RoundAfter(f, n)[i].orderId == n
  {
    AfterHeld(f, n);
    RowsUnframed(f.z, After(f, n), f.z.tickers);
    if 0 < i < |RoundAfter(f, n)| - 1 {
      assert RoundAfter(f, n)[i] == Body(f.z, After(f, n))[i - 1];
    }
  }

  lemma {:induction false} RowUnframed(z: Size, s: Orders, t: nat, n: nat)
    requires Held(z, s)
    ensures forall i :: 0 <= i < |Row(s, t, n)| ==> Row(s, t, n)[i].kind.ADD?
  {
    if n > 0 {
      RowUnframed(z, s, t, n - 1);
    }
  }

  lemma {:induction false} RowsUnframed(z: Size, s: Orders, t: nat)
    requires Held(z, s)
    ensures forall i :: 0 <= i < |Rows(z, s, t)| ==> !Framing(Rows(z, s, t)[i])
  {
    if t > 0 {
      RowsUnframed(z, s, t - 1);
      RowUnframed(z, s, t - 1, z.ids);
    }
  }

  // ---------------------------------------------------------------- what the network may deliver

  /** A message that arrives, by where it was published: the `n`-th update, or message `i` of the snapshot
      round taken after `last` updates. */
  datatype Arrival = Incremental(n: nat) | Snapshot(last: nat, i: nat)

  predicate Genuine(f: Feed, a: Arrival) {
    match a
    case Incremental(n) => 1 <= n <= |f.us|
    case Snapshot(last, i) => last <= |f.us| && i < |RoundAfter(f, last)|
  }

  function Message(f: Feed, a: Arrival): MDPMarketUpdate
    requires Genuine(f, a)
  {
    match a
    case Incremental(n) => MDPMarketUpdate(n, f.us[n - 1])
    case Snapshot(last, i) => MDPMarketUpdate(i, RoundAfter(f, last)[i])
  }

  /** One read of one channel. */
  datatype Read = Read(isSnapshot: bool, arrivals: seq<Arrival>)

  predicate GenuineRead(f: Feed, r: Read) {
    forall i :: 0 <= i < |r.arrivals| ==> Genuine(f, r.arrivals[i]) && r.arrivals[i].Snapshot? == r.isSnapshot
  }

  function Messages(f: Feed, r: Read): (ms: seq<MDPMarketUpdate>)
    requires GenuineRead(f, r)
  {
    seq(|r.arrivals|, i requires 0 <= i < |r.arrivals| => Message(f, r.arrivals[i]))
  }

  function RunReads(rules: Rules, f: Feed, st: State, rs: seq<Read>): State
    requires forall i :: 0 <= i < |rs| ==> GenuineRead(f, rs[i])
    decreases |rs|
  {
    if rs == [] then st
    else RunReads(rules, f, Callback(rules, st, rs[0].isSnapshot, Messages(f, rs[0])), rs[1..])
  }

  /** Snapshot messages of an older round never arrive behind those of a newer one: `latest` is the newest
      round heard of. Within a round they may still be lost, repeated or reordered. */
  predicate RoundsInOrder(xs: seq<Arrival>, latest: nat) {
    xs != [] ==> (xs[0].Snapshot? ==> latest <= xs[0].last) && RoundsInOrder(xs[1..], Latest(xs[0], latest))
  }

  function Latest(a: Arrival, latest: nat): nat {
    if a.Snapshot? then a.last else latest
  }

  function AllArrivals(rs: seq<Read>): seq<Arrival> {
    if rs == [] then [] else rs[0].arrivals + AllArrivals(rs[1..])
  }

  // ---------------------------------------------------------------- the invariant

  /** The claim about what has been delivered. */
  ghost predicate Safe(f: Feed, st: State) {
    if st.inRecovery then exists k :: 0 <= k <= |f.us| && Replay(map[], st.delivered) == After(f, k)
    else 1 <= st.next <= |f.us| + 1 && Replay(map[], st.delivered) == After(f, st.next - 1)
  }

  ghost predicate GenuineIncs(f: Feed, q: Queue) {
    forall m :: m in q ==> 1 <= m.seqNum <= |f.us| && m.update == f.us[m.seqNum - 1]
  }

  /** Message `i` of the queued snapshot comes from the round after `rounds[i]` updates. */
  ghost predicate FromRounds(f: Feed, q: Queue, rounds: seq<nat>) {
    && |rounds| == |q|
    && forall i :: 0 <= i < |q| ==>
         && rounds[i] <= |f.us| && i < |RoundAfter(f, rounds[i])|
         && q[i] == MDPMarketUpdate(i, RoundAfter(f, rounds[i])[i])
  }

  ghost predicate Nondecreasing(rounds: seq<nat>, latest: nat) {
    && (forall i, j :: 0 <= i < j < |rounds| ==> rounds[i] <= rounds[j])
    && (forall i :: 0 <= i < |rounds| ==> rounds[i] <= latest)
  }

  /** Between messages the snapshot queue is empty, or the messages 0..k of a snapshot: a START, then
      anything but an END. */
  ghost predicate Prefix(q: Queue) {
    && (forall i :: 0 <= i < |q| ==> q[i].seqNum == i && !q[i].update.kind.SNAPSHOT_END?)
    && (q != [] ==> q[0].update.kind.SNAPSHOT_START?)
  }

  // ---------------------------------------------------------------- queues

  lemma {:induction false} PutLast(q: Queue, m: MDPMarketUpdate)
    requires forall i :: 0 <= i < |q| ==> q[i].seqNum < m.seqNum
    ensures Put(q, m) == q + [m]
  {
    if q != [] {
      PutLast(q[1..], m);
      assert q == [q[0]] + q[1..];
    }
  }

  lemma {:induction false} AscendingCons(x: MDPMarketUpdate, q: Queue)
    requires Ascending(q) && (q != [] ==> x.seqNum < q[0].seqNum)
    ensures Ascending([x] + q)
  {
  }

  lemma {:induction false} AscendingRest(q: Queue)
    requires Ascending(q) && q != []
    ensures Ascending(q[1..]) && forall x :: x in q[1..] ==> q[0].seqNum < x.seqNum
  {
  }

  lemma {:induction false} PutAscending(q: Queue, m: MDPMarketUpdate)
    requires Ascending(q)
    ensures Ascending(Put(q, m))
    ensures Put(q, m)[0].seqNum == if q == [] || m.seqNum < q[0].seqNum then m.seqNum else q[0].seqNum
  {
    if q != [] {
      AscendingRest(q);
      if m.seqNum > q[0].seqNum {
        PutAscending(q[1..], m);
        AscendingCons(q[0], Put(q[1..], m));
      } else if m.seqNum == q[0].seqNum {
        AscendingCons(m, q[1..]);
      } else {
        AscendingCons(m, q);
      }
    }
  }

  /** Putting a message replaces the one of its number. */
  lemma {:induction false} PutHolds(q: Queue, m: MDPMarketUpdate)
    requires Ascending(q)
    ensures forall x :: x in Put(q, m) <==> x == m || (x in q && x.seqNum != m.seqNum)
  {
    if q != [] {
      AscendingRest(q);
      assert q == [q[0]] + q[1..];
      if m.seqNum > q[0].seqNum {
        PutHolds(q[1..], m);
      } else if m.seqNum < q[0].seqNum {
        assert forall x :: x in q ==> x == q[0] || x in q[1..];
      }
    }
  }

  lemma {:induction false} UnbrokenExactly(rules: Rules, q: Queue, next: nat)
    requires !rules.CountBody?
    ensures Unbroken(rules, q, next) <==> forall i :: 0 <= i < |q| ==> q[i].seqNum == next + i
  {
    if q != [] {
      UnbrokenExactly(rules, q[1..], next + 1);
      if forall i :: 0 <= i < |q[1..]| ==> q[1..][i].seqNum == next + 1 + i {
        if q[0].seqNum == next {
          forall i | 0 <= i < |q| ensures q[i].seqNum == next + i {
            if i > 0 {
              assert q[1..][i - 1] == q[i];
            }
          }
        }
      } else {
        var i :| 0 <= i < |q[1..]| && q[1..][i].seqNum != next + 1 + i;
        assert q[i + 1].seqNum != next + (i + 1);
      }
    }
  }

  /** The queued snapshot after one more message, before it is judged. */
  function Grown(q: Queue, m: MDPMarketUpdate): Queue {
    Put(if Has(q, m.seqNum) then [] else q, m)
  }

  /** A judged queue is a prefix again: the message was the next one, or it starts the queue afresh, or
      nothing is kept. */
  lemma {:induction false} GrownExactly(rules: Rules, q: Queue, m: MDPMarketUpdate)
    requires Prefix(q) && !rules.CountBody?
    ensures var g := Grown(q, m);
            && |g| > 0
            && (g[0].update.kind.SNAPSHOT_START? && Unbroken(rules, g, 0)
                <==> ((m.seqNum == |q| && (q == [] ==> m.update.kind.SNAPSHOT_START?))
                      || (m.seqNum == 0 && m.update.kind.SNAPSHOT_START?)))
            && (g[0].update.kind.SNAPSHOT_START? && Unbroken(rules, g, 0)
                ==> g == if m.seqNum == |q| then q + [m] else [m])
  {
    var g := Grown(q, m);
    if m.seqNum < |q| {
      assert q[m.seqNum].seqNum == m.seqNum;
      assert Has(q, m.seqNum);
      assert g == [m];
    } else {
      assert !Has(q, m.seqNum);
      PutLast(q, m);
      assert g[|q|] == m;
    }
    UnbrokenExactly(rules, g, 0);
  }

  /** For any messages whatever: the snapshot queue is always such a prefix, and the incrementals ascend. */
  lemma {:induction false} QueueKept(rules: Rules, st: State, isSnapshot: bool, m: MDPMarketUpdate)
    requires !rules.CountBody? && Prefix(st.snaps) && Ascending(st.incs)
    ensures var r := Receive(rules, st, isSnapshot, m);
            Prefix(r.snaps) && Ascending(r.incs)
  {
    var st' := if st.inRecovery then st else st.(inRecovery := true, snaps := [], incs := []);
    if isSnapshot {
      GrownExactly(rules, st'.snaps, m);
    } else {
      PutAscending(st'.incs, m);
      UnbrokenExactly(rules, st'.snaps, 0);
    }
  }

  lemma {:induction false} QueueKeptThroughout(rules: Rules, st: State, isSnapshot: bool, ms: seq<MDPMarketUpdate>)
    requires !rules.CountBody? && Prefix(st.snaps) && Ascending(st.incs)
    ensures var r := ReceiveAll(rules, st, isSnapshot, ms);
            Prefix(r.snaps) && Ascending(r.incs)
    decreases |ms|
  {
    if ms != [] {
      QueueKept(rules, st, isSnapshot, ms[0]);
      QueueKeptThroughout(rules, Receive(rules, st, isSnapshot, ms[0]), isSnapshot, ms[1..]);
    }
  }

  // ---------------------------------------------------------------- what a completed recovery delivers

  lemma {:induction false} FirstOf(us: seq<MarketUpdate>, i: nat, j: nat)
    requires i < j <= |us|
    ensures us[i..j] == [us[i]] + us[i + 1..j]
  {
  }

  /** Without a gap, the queued incrementals are the exchange's updates from `next` on. */
  lemma {:induction false} TailGenuine(f: Feed, q: Queue, next: nat)
    requires Published(f) && GenuineIncs(f, q) && 1 <= next <= |f.us| + 1
    ensures var t := TailOf(q, next);
            next <= t.next <= |f.us| + 1 && (t.complete ==> t.events == f.us[next - 1..t.next - 1])
  {
    if q != [] {
      var rest := q[1..];
      assert q[0] in q && forall m :: m in rest ==> m in q;
      if q[0].seqNum < next {
        TailGenuine(f, rest, next);
      } else if q[0].seqNum == next {
        assert FromBook(f.us[next - 1]);
        TailGenuine(f, rest, next + 1);
        FirstOf(f.us, next - 1, TailOf(rest, next + 1).next - 1);
      }
    }
  }

  lemma {:induction false} BodyOfPlain(q: Queue)
    requires forall i :: 0 <= i < |q| ==> !Framing(q[i].update)
    ensures |BodyOf(q)| == |q| && forall i :: 0 <= i < |q| ==> BodyOf(q)[i] == q[i].update
  {
    if q != [] {
      BodyOfPlain(q[1..]);
    }
  }

  lemma {:induction false} BodyOfConcat(p: Queue, q: Queue)
    ensures BodyOf(p + q) == BodyOf(p) + BodyOf(q)
  {
    if p == [] {
      assert p + q == q;
    } else {
      assert (p + q)[1..] == p[1..] + q;
      BodyOfConcat(p[1..], q);
    }
  }

  /** A whole round, queued, yields the body of its snapshot. */
  lemma {:induction false} WholeRoundBody(f: Feed, q: Queue, n: nat)
    requires Published(f) && n <= |f.us| && |q| == |RoundAfter(f, n)|
    requires forall i :: 0 <= i < |q| ==> q[i].update == RoundAfter(f, n)[i]
    ensures BodyOf(q) == Body(f.z, After(f, n))
  {
    var e := |q| - 1;
    var mid := q[1..e];
    forall i | 0 <= i < |q|
      ensures q[i].update.kind.SNAPSHOT_START? <==> i == 0
      ensures q[i].update.kind.SNAPSHOT_END? <==> i == e
    {
      RoundFraming(f, n, i);
    }
    assert q == [q[0]] + (mid + [q[e]]);
    BodyOfConcat([q[0]], mid + [q[e]]);
    BodyOfConcat(mid, [q[e]]);
    BodyOfPlain(mid);
    forall i | 0 <= i < |mid| ensures BodyOf(mid)[i] == Body(f.z, After(f, n))[i] {
      assert mid[i] == q[i + 1] && RoundAfter(f, n)[i + 1] == Body(f.z, After(f, n))[i];
    }
  }

  /** The heart of safety: a snapshot and the incrementals behind it bring any subscriber to the exchange's
      state. */
  lemma {:induction false} Recovers(f: Feed, snaps: Queue, incs: Queue, n: nat, delivered: seq<MarketUpdate>, k: nat)
    requires Published(f) && n <= |f.us| && k <= |f.us| && |snaps| == |RoundAfter(f, n)|
    requires forall i :: 0 <= i < |snaps| ==> snaps[i].update == RoundAfter(f, n)[i]
    requires GenuineIncs(f, incs) && TailOf(incs, n + 1).complete
    requires Replay(map[], delivered) == After(f, k)
    ensures var t := TailOf(incs, n + 1);
            1 <= t.next <= |f.us| + 1
            && Replay(map[], delivered + (BodyOf(snaps) + t.events)) == After(f, t.next - 1)
  {
    var t := TailOf(incs, n + 1);
    var body := Body(f.z, After(f, n));
    WholeRoundBody(f, snaps, n);
    TailGenuine(f, incs, n + 1);
    AfterHeld(f, n);
    AfterHeld(f, k);
    HeldKeys(f.z, After(f, k));
    ReplayConcat(map[], delivered, body + t.events);
    ReplayConcat(After(f, k), body, t.events);
    SnapshotRoundTrip(f.z, After(f, n), After(f, k));
    AfterMore(f, n, t.next - 1);
  }

  // ---------------------------------------------------------------- one message

  /** What keeps two rounds apart: a queued round is only ever continued by its own messages; or rounds arrive
      in order, and START and END must match. */
  datatype Guard = Unmixed | Ordered

  /** A message that would continue the queued round belongs to it. Any other restarts or empties the queue. */
  predicate OwnRound(st: State, a: Arrival) {
    a.Snapshot? && st.inRecovery && st.snaps != [] && a.i == |st.snaps| ==> st.snaps[0].update.orderId == a.last
  }

  predicate Guarded(how: Guard, rules: Rules, st: State, a: Arrival, latest: nat) {
    match how
    case Unmixed => OwnRound(st, a)
    case Ordered => rules.CountEveryAndMatch? && (a.Snapshot? ==> latest <= a.last)
  }

  ghost predicate AllEqual(rounds: seq<nat>) {
    forall i :: 0 <= i < |rounds| ==> rounds[i] == rounds[0]
  }

  ghost predicate Orderly(how: Guard, rounds: seq<nat>, latest: nat) {
    match how
    case Unmixed => AllEqual(rounds)
    case Ordered => Nondecreasing(rounds, latest)
  }

  ghost predicate Inv(how: Guard, f: Feed, st: State, rounds: seq<nat>, latest: nat) {
    && Safe(f, st)
    && GenuineIncs(f, st.incs) && Ascending(st.incs)
    && FromRounds(f, st.snaps, rounds) && Prefix(st.snaps)
    && Orderly(how, rounds, latest)
  }

  /** The invariant of every run. */
  ghost predicate Kept(how: Guard, f: Feed, st: State, latest: nat) {
    exists rounds :: Inv(how, f, st, rounds, latest)
  }

  lemma {:induction false} PutGenuine(f: Feed, q: Queue, n: nat)
    requires Ascending(q) && GenuineIncs(f, q) && 1 <= n <= |f.us|
    ensures Ascending(Put(q, Message(f, Incremental(n)))) && GenuineIncs(f, Put(q, Message(f, Incremental(n))))
  {
    var m := Message(f, Incremental(n));
    PutHolds(q, m);
    PutAscending(q, m);
  }

  /** An incremental that is queued changes nothing else. */
  lemma {:induction false} QueuesIncremental(rules: Rules, st: State, m: MDPMarketUpdate)
    requires Prefix(st.snaps) && !rules.CountBody?
    ensures Enqueue(rules, st, false, m) == st.(incs := Put(st.incs, m))
  {
    UnbrokenExactly(rules, st.snaps, 0);
  }

  lemma {:induction false} QueuedIncremental(how: Guard, rules: Rules, f: Feed, st: State, n: nat, rounds: seq<nat>,
                                             latest: nat)
    requires Published(f) && 1 <= n <= |f.us| && !rules.CountBody?
    requires Inv(how, f, st, rounds, latest) && st.inRecovery
    ensures Inv(how, f, Enqueue(rules, st, false, Message(f, Incremental(n))), rounds, latest)
  {
    var m := Message(f, Incremental(n));
    PutGenuine(f, st.incs, n);
    QueuesIncremental(rules, st, m);
    SameSafe(f, st, st.(incs := Put(st.incs, m)));
  }

  /** Where the messages of the queued snapshot come from, with one more. */
  function GrownRounds(q: Queue, rounds: seq<nat>, a: Arrival): seq<nat>
    requires a.Snapshot?
  {
    if a.i == |q| then rounds + [a.last] else [a.last]
  }

  lemma {:induction false} GrowRounds(f: Feed, q: Queue, rounds: seq<nat>, a: Arrival)
    requires FromRounds(f, q, rounds) && a.Snapshot? && Genuine(f, a) && (a.i == |q| || a.i == 0)
    ensures FromRounds(f, if a.i == |q| then q + [Message(f, a)] else [Message(f, a)], GrownRounds(q, rounds, a))
  {
  }

  lemma {:induction false} GrowOrderly(how: Guard, rules: Rules, f: Feed, st: State, rounds: seq<nat>, latest: nat,
                                       a: Arrival)
    requires Published(f) && FromRounds(f, st.snaps, rounds) && Orderly(how, rounds, latest) && st.inRecovery
    requires a.Snapshot? && Guarded(how, rules, st, a, latest)
    ensures Orderly(how, GrownRounds(st.snaps, rounds, a), a.last)
  {
    if rounds != [] {
      RoundFraming(f, rounds[0], 0);
    }
  }

  predicate Accepts(rules: Rules, g: Queue) {
    g != [] && g[0].update.kind.SNAPSHOT_START? && Unbroken(rules, g, 0)
  }

  lemma {:induction false} PrefixGrown(rules: Rules, q: Queue, m: MDPMarketUpdate)
    requires Prefix(q) && !rules.CountBody? && Accepts(rules, Grown(q, m)) && !m.update.kind.SNAPSHOT_END?
    ensures Prefix(Grown(q, m)) && !Grown(q, m)[|Grown(q, m)| - 1].update.kind.SNAPSHOT_END?
  {
    GrownExactly(rules, q, m);
  }

  /** The queued snapshot that a message is accepted into. */
  lemma {:induction false} AcceptedRounds(how: Guard, rules: Rules, f: Feed, st: State, a: Arrival, rounds: seq<nat>,
                                          latest: nat)
    requires Published(f) && Genuine(f, a) && a.Snapshot? && !rules.CountBody?
    requires Inv(how, f, st, rounds, latest) && st.inRecovery && Guarded(how, rules, st, a, latest)
    requires Accepts(rules, Grown(st.snaps, Message(f, a)))
    ensures var g, rs := Grown(st.snaps, Message(f, a)), GrownRounds(st.snaps, rounds, a);
            && FromRounds(f, g, rs) && g[|g| - 1] == Message(f, a)
            && Orderly(how, rs, a.last) && rs[|rs| - 1] == a.last
  {
    GrownExactly(rules, st.snaps, Message(f, a));
    GrowRounds(f, st.snaps, rounds, a);
    GrowOrderly(how, rules, f, st, rounds, latest, a);
  }

  /** A snapshot message that is queued: it is dropped with the queue, or kept, or completes a recovery. */
  lemma {:induction false} QueuedSnapshot(how: Guard, rules: Rules, f: Feed, st: State, a: Arrival, rounds: seq<nat>,
                                          latest: nat)
    requires Published(f) && Genuine(f, a) && a.Snapshot? && !rules.CountBody?
    requires Inv(how, f, st, rounds, latest) && st.inRecovery && Guarded(how, rules, st, a, latest)
    ensures Kept(how, f, Enqueue(rules, st, true, Message(f, a)), a.last)
  {
    var m := Message(f, a);
    var st' := st.(snaps := Grown(st.snaps, m));
    SnapshotQueued(rules, st, m);
    SameSafe(f, st, st');
    if !Accepts(rules, st'.snaps) {
      DroppedSafe(how, f, st, a.last);
    } else {
      AcceptedRounds(how, rules, f, st, a, rounds, latest);
      if m.update.kind.SNAPSHOT_END? {
        JudgedEnd(how, rules, f, st', a, GrownRounds(st.snaps, rounds, a));
      } else {
        PrefixGrown(rules, st.snaps, m);
        assert Inv(how, f, st', GrownRounds(st.snaps, rounds, a), a.last);
      }
    }
  }

  /** What queueing a snapshot message comes to, but for an END. */
  lemma {:induction false} SnapshotQueued(rules: Rules, st: State, m: MDPMarketUpdate)
    requires Prefix(st.snaps) && !rules.CountBody?
    ensures var st' := st.(snaps := Grown(st.snaps, m));
            && Enqueue(rules, st, true, m) == CheckSync(rules, st')
            && (!Accepts(rules, st'.snaps) ==> CheckSync(rules, st') == st.(snaps := []))
            && (Accepts(rules, st'.snaps) && !m.update.kind.SNAPSHOT_END? ==> CheckSync(rules, st') == st')
  {
    GrownExactly(rules, st.snaps, m);
    SyncWaits(rules, st.(snaps := Grown(st.snaps, m)));
  }

  lemma {:induction false} SameSafe(f: Feed, st: State, st': State)
    requires Safe(f, st) && st.inRecovery && st'.inRecovery && st'.delivered == st.delivered
    ensures Safe(f, st')
  {
  }

  lemma {:induction false} DroppedSafe(how: Guard, f: Feed, st: State, latest: nat)
    requires Safe(f, st) && st.inRecovery && GenuineIncs(f, st.incs) && Ascending(st.incs)
    ensures Inv(how, f, st.(snaps := []), [], latest)
  {
    SameSafe(f, st, st.(snaps := []));
  }

  lemma {:induction false} SameRound(how: Guard, rounds: seq<nat>, last: nat)
    requires rounds != [] && Orderly(how, rounds, last) && rounds[|rounds| - 1] == last
    requires how.Unmixed? || rounds[0] == last
    ensures forall i :: 0 <= i < |rounds| ==> rounds[i] == last
  {
    assert forall i :: 0 < i < |rounds| ==> rounds[0] <= rounds[i] <= last;
  }

  /** An END: either it ends the round that its START began, or the whole queue goes. */
  lemma {:induction false} JudgedEnd(how: Guard, rules: Rules, f: Feed, st: State, a: Arrival, rounds: seq<nat>)
    requires Published(f) && Genuine(f, a) && a.Snapshot? && (how.Ordered? ==> rules.CountEveryAndMatch?)
    requires Safe(f, st) && st.inRecovery && GenuineIncs(f, st.incs) && Ascending(st.incs)
    requires Accepts(rules, st.snaps)
    requires st.snaps[|st.snaps| - 1] == Message(f, a) && Message(f, a).update.kind.SNAPSHOT_END?
    requires FromRounds(f, st.snaps, rounds) && Orderly(how, rounds, a.last) && rounds[|rounds| - 1] == a.last
    ensures Inv(how, f, CheckSync(rules, st), [], a.last)
  {
    RoundFraming(f, rounds[0], 0);
    RoundFraming(f, a.last, a.i);
    if how.Unmixed? || rounds[0] == a.last {
      SameRound(how, rounds, a.last);
      Completed(rules, f, st, a, rounds);
    } else {
      DroppedSafe(how, f, st, a.last);
    }
  }

  /** What becomes of a whole queued round whose START and END agree. */
  lemma {:induction false} SyncEnds(rules: Rules, st: State)
    requires Accepts(rules, st.snaps) && st.snaps[|st.snaps| - 1].update.kind.SNAPSHOT_END?
    requires st.snaps[0].update.orderId == st.snaps[|st.snaps| - 1].update.orderId
    ensures CheckSync(rules, st) == Ended(st, st.snaps[0].update.orderId)
  {
  }

  /** A queue that is not the front of a snapshot goes; one that is, and does not end, waits. */
  lemma {:induction false} SyncWaits(rules: Rules, st: State)
    requires st.snaps != []
    ensures !Accepts(rules, st.snaps) ==> CheckSync(rules, st) == st.(snaps := [])
    ensures Accepts(rules, st.snaps) && !st.snaps[|st.snaps| - 1].update.kind.SNAPSHOT_END? ==>
              CheckSync(rules, st) == st
  {
  }

  lemma {:induction false} WholeQueue(f: Feed, q: Queue, a: Arrival, rounds: seq<nat>)
    requires Published(f) && Genuine(f, a) && a.Snapshot? && Message(f, a).update.kind.SNAPSHOT_END?
    requires q != [] && q[|q| - 1] == Message(f, a)
    requires FromRounds(f, q, rounds) && forall i :: 0 <= i < |rounds| ==> rounds[i] == a.last
    ensures |q| == |RoundAfter(f, a.last)| && forall i :: 0 <= i < |q| ==> q[i].update == RoundAfter(f, a.last)[i]
  {
    RoundFraming(f, a.last, a.i);
    assert q[|q| - 1].seqNum == |q| - 1 == a.i;
  }

  /** An END whose whole queue is of its own round. */
  lemma {:induction false} Completed(rules: Rules, f: Feed, st: State, a: Arrival, rounds: seq<nat>)
    requires Published(f) && Genuine(f, a) && a.Snapshot?
    requires Safe(f, st) && st.inRecovery && GenuineIncs(f, st.incs) && Ascending(st.incs)
    requires Accepts(rules, st.snaps)
    requires st.snaps[|st.snaps| - 1] == Message(f, a) && Message(f, a).update.kind.SNAPSHOT_END?
    requires FromRounds(f, st.snaps, rounds) && forall i :: 0 <= i < |rounds| ==> rounds[i] == a.last
    ensures var r := CheckSync(rules, st);
            Safe(f, r) && r.snaps == [] && GenuineIncs(f, r.incs) && Ascending(r.incs)
  {
    RoundFraming(f, rounds[0], 0);
    RoundFraming(f, a.last, a.i);
    WholeQueue(f, st.snaps, a, rounds);
    SyncEnds(rules, st);
    EndedSafe(f, st, a.last);
  }

  /** The state that a whole queued round leads to. */
  function Ended(st: State, last: nat): State {
    var t := TailOf(st.incs, last + 1);
    if t.complete then State(t.next, false, [], [], st.delivered + (BodyOf(st.snaps) + t.events))
    else st.(snaps := [], next := t.next)
  }

  lemma {:induction false} EndedSafe(f: Feed, st: State, last: nat)
    requires Published(f) && Safe(f, st) && st.inRecovery && GenuineIncs(f, st.incs) && Ascending(st.incs)
    requires last <= |f.us| && |st.snaps| == |RoundAfter(f, last)|
    requires forall i :: 0 <= i < |st.snaps| ==> st.snaps[i].update == RoundAfter(f, last)[i]
    ensures var r := Ended(st, last);
            Safe(f, r) && r.snaps == [] && GenuineIncs(f, r.incs) && Ascending(r.incs)
  {
    if TailOf(st.incs, last + 1).complete {
      var k :| 0 <= k <= |f.us| && Replay(map[], st.delivered) == After(f, k);
      Recovers(f, st.snaps, st.incs, last, st.delivered, k);
    } else {
      SameSafe(f, st, Ended(st, last));
    }
  }

  /** Every message keeps the invariant. */
  lemma {:induction false} ReceiveSafe(how: Guard, rules: Rules, f: Feed, st: State, a: Arrival, latest: nat)
    requires Published(f) && Genuine(f, a) && !rules.CountBody?
    requires Kept(how, f, st, latest) && Guarded(how, rules, st, a, latest)
    ensures Kept(how, f, Receive(rules, st, a.Snapshot?, Message(f, a)), Latest(a, latest))
  {
    var m := Message(f, a);
    var rounds :| Inv(how, f, st, rounds, latest);
    if st.inRecovery {
      QueueOne(how, rules, f, st, a, rounds, latest);
    } else if m.seqNum != st.next {
      var st' := st.(inRecovery := true, snaps := [], incs := []);
      assert Replay(map[], st'.delivered) == After(f, st.next - 1);
      QueueOne(how, rules, f, st', a, [], latest);
    } else if a.Snapshot? {
      assert Inv(how, f, st, rounds, a.last);
    } else {
      NextSafe(f, st, a.n);
      assert Inv(how, f, Receive(rules, st, false, m), rounds, latest);
    }
  }

  lemma {:induction false} QueueOne(how: Guard, rules: Rules, f: Feed, st: State, a: Arrival, rounds: seq<nat>,
                                    latest: nat)
    requires Published(f) && Genuine(f, a) && !rules.CountBody?
    requires Inv(how, f, st, rounds, latest) && st.inRecovery && Guarded(how, rules, st, a, latest)
    ensures Kept(how, f, Enqueue(rules, st, a.Snapshot?, Message(f, a)), Latest(a, latest))
  {
    if a.Snapshot? {
      QueuedSnapshot(how, rules, f, st, a, rounds, latest);
    } else {
      QueuedIncremental(how, rules, f, st, a.n, rounds, latest);
    }
  }

  /** The update that is due, delivered at once. */
  lemma {:induction false} NextSafe(f: Feed, st: State, n: nat)
    requires Safe(f, st) && !st.inRecovery && 1 <= n == st.next <= |f.us|
    ensures Safe(f, st.(next := n + 1, delivered := st.delivered + [f.us[n - 1]]))
  {
    assert f.us[n - 1..n] == [f.us[n - 1]];
    ReplayConcat(map[], st.delivered, [f.us[n - 1]]);
    AfterMore(f, n - 1, n);
  }

  // ---------------------------------------------------------------- whole runs

  /** No read continues a queued round with another round's message. */
  predicate UnmixedRead(rules: Rules, f: Feed, st: State, r: Read)
    requires GenuineRead(f, r)
    decreases |r.arrivals|
  {
    r.arrivals == [] ||
    (OwnRound(st, r.arrivals[0]) &&
     UnmixedRead(rules, f, Receive(rules, st, r.isSnapshot, Message(f, r.arrivals[0])),
                 Read(r.isSnapshot, r.arrivals[1..])))
  }

  predicate UnmixedRun(rules: Rules, f: Feed, st: State, rs: seq<Read>)
    requires forall i :: 0 <= i < |rs| ==> GenuineRead(f, rs[i])
    decreases |rs|
  {
    rs == [] ||
    (((rs[0].isSnapshot && !st.inRecovery) || UnmixedRead(rules, f, st, rs[0])) &&
     UnmixedRun(rules, f, Callback(rules, st, rs[0].isSnapshot, Messages(f, rs[0])), rs[1..]))
  }

  predicate GuardedRead(how: Guard, rules: Rules, f: Feed, st: State, r: Read, latest: nat)
    requires GenuineRead(f, r)
  {
    match how
    case Unmixed => UnmixedRead(rules, f, st, r)
    case Ordered => rules.CountEveryAndMatch? && RoundsInOrder(r.arrivals, latest)
  }

  predicate GuardedRun(how: Guard, rules: Rules, f: Feed, st: State, rs: seq<Read>, latest: nat)
    requires forall i :: 0 <= i < |rs| ==> GenuineRead(f, rs[i])
  {
    match how
    case Unmixed => UnmixedRun(rules, f, st, rs)
    case Ordered => rules.CountEveryAndMatch? && RoundsInOrder(AllArrivals(rs), latest)
  }

  function LatestOf(xs: seq<Arrival>, latest: nat): nat {
    if xs == [] then latest else LatestOf(xs[1..], Latest(xs[0], latest))
  }

  lemma {:induction false} RoundsInOrderSplit(xs: seq<Arrival>, ys: seq<Arrival>, latest: nat)
    requires RoundsInOrder(xs + ys, latest)
    ensures RoundsInOrder(xs, latest) && RoundsInOrder(ys, LatestOf(xs, latest)) && latest <= LatestOf(xs, latest)
  {
    if xs == [] {
      assert xs + ys == ys;
    } else {
      assert (xs + ys)[1..] == xs[1..] + ys;
      RoundsInOrderSplit(xs[1..], ys, Latest(xs[0], latest));
    }
  }

  lemma {:induction false} ReadSafe(how: Guard, rules: Rules, f: Feed, st: State, r: Read, latest: nat)
    requires Published(f) && GenuineRead(f, r) && !rules.CountBody?
    requires Kept(how, f, st, latest) && GuardedRead(how, rules, f, st, r, latest)
    ensures Kept(how, f, ReceiveAll(rules, st, r.isSnapshot, Messages(f, r)), LatestOf(r.arrivals, latest))
    decreases |r.arrivals|
  {
    if r.arrivals != [] {
      var a, rest := r.arrivals[0], Read(r.isSnapshot, r.arrivals[1..]);
      assert forall i :: 0 <= i < |rest.arrivals| ==> rest.arrivals[i] == r.arrivals[i + 1];
      assert Messages(f, r)[1..] == Messages(f, rest);
      ReceiveSafe(how, rules, f, st, a, latest);
      ReadSafe(how, rules, f, Receive(rules, st, r.isSnapshot, Message(f, a)), rest, Latest(a, latest));
    }
  }

  lemma {:induction false} KeptLater(how: Guard, f: Feed, st: State, latest: nat, later: nat)
    requires Kept(how, f, st, latest) && (how.Ordered? ==> latest <= later)
    ensures Kept(how, f, st, later)
  {
    var rounds :| Inv(how, f, st, rounds, latest);
    assert Inv(how, f, st, rounds, later);
  }

  lemma {:induction false} RunSafe(how: Guard, rules: Rules, f: Feed, st: State, rs: seq<Read>, latest: nat)
    requires Published(f) && (forall i :: 0 <= i < |rs| ==> GenuineRead(f, rs[i])) && !rules.CountBody?
    requires Kept(how, f, st, latest) && GuardedRun(how, rules, f, st, rs, latest)
    ensures Safe(f, RunReads(rules, f, st, rs))
    decreases |rs|
  {
    if rs != [] {
      var r := rs[0];
      assert forall i :: 0 <= i < |rs[1..]| ==> rs[1..][i] == rs[i + 1];
      if how.Ordered? {
        RoundsInOrderSplit(r.arrivals, AllArrivals(rs[1..]), latest);
      }
      if r.isSnapshot && !st.inRecovery {
        KeptLater(how, f, st, latest, LatestOf(r.arrivals, latest));
      } else {
        ReadSafe(how, rules, f, st, r, latest);
      }
      RunSafe(how, rules, f, Callback(rules, st, r.isSnapshot, Messages(f, r)), rs[1..], LatestOf(r.arrivals, latest));
    }
  }

  /** Safety: over every run of reads, a consumer that is not in recovery has delivered exactly what brings a
      subscriber to the exchange's state, and one in recovery what brings it to some state the exchange was in.
      Either guard is enough. */
  lemma {:induction false} ConsumerIsSafe(how: Guard, rules: Rules, f: Feed, rs: seq<Read>)
    requires Published(f) && (forall i :: 0 <= i < |rs| ==> GenuineRead(f, rs[i])) && !rules.CountBody?
    requires GuardedRun(how, rules, f, INITIAL, rs, 0)
    ensures Safe(f, RunReads(rules, f, INITIAL, rs))
  {
    assert f.us[..0] == [];
    assert Inv(how, f, INITIAL, [], 0);
    RunSafe(how, rules, f, INITIAL, rs, 0);
  }

  /** Where START and END must match, it is enough that rounds arrive in order. */
  lemma {:induction false} MatchingIsSafe(f: Feed, rs: seq<Read>)
    requires Published(f) && (forall i :: 0 <= i < |rs| ==> GenuineRead(f, rs[i]))
    requires RoundsInOrder(AllArrivals(rs), 0)
    ensures Safe(f, RunReads(CountEveryAndMatch, f, INITIAL, rs))
  {
    ConsumerIsSafe(Ordered, CountEveryAndMatch, f, rs);
  }
}

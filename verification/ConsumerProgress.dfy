/** When the consumer recovers: never as written; with every message counted, at the end of the first whole
    round that meets the queued incrementals. And what goes wrong when rounds mix. */
module ConsumerProgress {
  import opened Types
  import opened MarketData
  import opened MarketDataConsumer
  import opened ConsumerSafety

  // ---------------------------------------------------------------- as written

  /** As written no snapshot is ever complete: message 1 would have to carry number 0 as well. */
  lemma {:induction false} NothingCompletes(q: Queue)
    requires Ascending(q) && |q| > 1 && q[0].update.kind.SNAPSHOT_START?
    ensures !Unbroken(CountBody, q, 0)
  {
  }

  lemma {:induction false} StuckAfterOne(st: State, isSnapshot: bool, m: MDPMarketUpdate)
    requires st.inRecovery && Ascending(st.snaps)
    ensures var r := Receive(CountBody, st, isSnapshot, m);
            r.inRecovery && Ascending(r.snaps) && r.delivered == st.delivered
  {
    var q := if isSnapshot then Grown(st.snaps, m) else st.snaps;
    if isSnapshot {
      PutAscending(if Has(st.snaps, m.seqNum) then [] else st.snaps, m);
    }
    if |q| > 1 && q[0].update.kind.SNAPSHOT_START? {
      NothingCompletes(q);
    }
  }

  /** As written, for any messages whatever: a consumer once in recovery stays there and delivers nothing more. */
  lemma {:induction false} StuckForGood(st: State, isSnapshot: bool, ms: seq<MDPMarketUpdate>)
    requires st.inRecovery && Ascending(st.snaps)
    ensures var r := Callback(CountBody, st, isSnapshot, ms);
            r.inRecovery && Ascending(r.snaps) && r.delivered == st.delivered
    decreases |ms|
  {
    if ms != [] {
      StuckAfterOne(st, isSnapshot, ms[0]);
      StuckForGood(Receive(CountBody, st, isSnapshot, ms[0]), isSnapshot, ms[1..]);
    }
  }

  /** The updates received on the incremental channel, by number. */
  function IncrementalsOf(rs: seq<Read>): seq<nat> {
    if rs == [] then []
    else (if rs[0].isSnapshot then [] else NumbersOf(rs[0].arrivals)) + IncrementalsOf(rs[1..])
  }

  function NumbersOf(xs: seq<Arrival>): (ns: seq<nat>)
    ensures |ns| == |xs|
  {
    seq(|xs|, i requires 0 <= i < |xs| => if xs[i].Incremental? then xs[i].n else 0)
  }

  /** How many of the numbers run on from `next` before the first that does not. */
  function Lead(ns: seq<nat>, next: nat): (k: nat)
    ensures k <= |ns|
  {
    if ns == [] || ns[0] != next then 0 else 1 + Lead(ns[1..], next + 1)
  }

  lemma {:induction false} LeadConcat(ns: seq<nat>, ks: seq<nat>, next: nat)
    ensures Lead(ns + ks, next) == if Lead(ns, next) < |ns| then Lead(ns, next) else |ns| + Lead(ks, next + |ns|)
    decreases |ns|
  {
    if ns == [] {
      assert ns + ks == ks;
    } else if ns[0] == next {
      assert (ns + ks)[1..] == ns[1..] + ks;
      LeadConcat(ns[1..], ks, next + 1);
    }
  }

  /** `k` updates were delivered, from the one that `st` waits for on. */
  ghost predicate Delivers(f: Feed, st: State, k: nat, fin: State) {
    && st.next >= 1
    && (k == 0 ==> fin.delivered == st.delivered)
    && (k > 0 ==> st.next - 1 + k <= |f.us| && fin.delivered == st.delivered + f.us[st.next - 1..st.next - 1 + k])
  }

  lemma {:induction false} DeliversOn(f: Feed, st: State, j: nat, mid: State, k: nat, fin: State)
    requires Delivers(f, st, j, mid) && mid.next == st.next + j && Delivers(f, mid, k, fin)
    ensures Delivers(f, st, j + k, fin)
  {
  }

  /** One update, as written: delivered if it is due, and otherwise the start of a recovery. */
  lemma {:induction false} NextAsWritten(f: Feed, st: State, a: Arrival)
    requires Genuine(f, a) && a.Incremental? && !st.inRecovery && st.next >= 1
    ensures var st' := Receive(CountBody, st, false, Message(f, a));
            if a.n == st.next then !st'.inRecovery && st'.next == st.next + 1 && Delivers(f, st, 1, st')
            else st'.inRecovery && st'.delivered == st.delivered && st'.snaps == []
  {
    if a.n == st.next {
      assert f.us[st.next - 1..st.next] == [f.us[a.n - 1]];
    }
  }

  /** One read of the incremental channel, as written. */
  lemma {:induction false} ReadAsWritten(f: Feed, st: State, r: Read)
    requires GenuineRead(f, r) && !r.isSnapshot && !st.inRecovery && st.next >= 1
    ensures var fin := ReceiveAll(CountBody, st, false, Messages(f, r));
            var k := Lead(NumbersOf(r.arrivals), st.next);
            && (fin.inRecovery <==> k < |r.arrivals|)
            && (fin.inRecovery ==> Ascending(fin.snaps))
            && (!fin.inRecovery ==> fin.next == st.next + k)
            && Delivers(f, st, k, fin)
    decreases |r.arrivals|
  {
    if r.arrivals != [] {
      var a, rest := r.arrivals[0], Read(false, r.arrivals[1..]);
      assert forall i :: 0 <= i < |rest.arrivals| ==> rest.arrivals[i] == r.arrivals[i + 1];
      assert Messages(f, r)[1..] == Messages(f, rest);
      assert NumbersOf(r.arrivals)[1..] == NumbersOf(rest.arrivals);
      var st' := Receive(CountBody, st, false, Message(f, a));
      NextAsWritten(f, st, a);
      if a.n == st.next {
        ReadAsWritten(f, st', rest);
        DeliversOn(f, st, 1, st', Lead(NumbersOf(rest.arrivals), st'.next),
                   ReceiveAll(CountBody, st', false, Messages(f, rest)));
      } else {
        StuckForGood(st', false, Messages(f, rest));
      }
    }
  }

  /** Where a run that hears these updates ends: what came in order is delivered, the rest is not. */
  ghost predicate EndsAsWritten(f: Feed, st: State, ns: seq<nat>, fin: State) {
    && (fin.inRecovery <==> Lead(ns, st.next) < |ns|)
    && (!fin.inRecovery ==> fin.next == st.next + |ns|)
    && Delivers(f, st, Lead(ns, st.next), fin)
  }

  lemma {:induction false} EndsLater(f: Feed, st: State, ns: seq<nat>, mid: State, ks: seq<nat>, fin: State)
    requires Lead(ns, st.next) == |ns| && mid.next == st.next + |ns| && Delivers(f, st, |ns|, mid)
    requires EndsAsWritten(f, mid, ks, fin)
    ensures EndsAsWritten(f, st, ns + ks, fin)
  {
    LeadConcat(ns, ks, st.next);
    DeliversOn(f, st, |ns|, mid, Lead(ks, mid.next), fin);
  }

  lemma {:induction false} EndsHere(f: Feed, st: State, ns: seq<nat>, mid: State, ks: seq<nat>, fin: State)
    requires Lead(ns, st.next) < |ns| && Delivers(f, st, Lead(ns, st.next), mid)
    requires fin.inRecovery && fin.delivered == mid.delivered
    ensures EndsAsWritten(f, st, ns + ks, fin)
  {
    LeadConcat(ns, ks, st.next);
  }

  /** As written, exactly: the consumer delivers the incrementals up to the first one out of place and then
      nothing, so it is up to date if and only if they all came once and in order. */
  lemma {:induction false} AsWrittenExactly(f: Feed, st: State, rs: seq<Read>)
    requires (forall i :: 0 <= i < |rs| ==> GenuineRead(f, rs[i])) && !st.inRecovery && st.next >= 1
    ensures EndsAsWritten(f, st, IncrementalsOf(rs), RunReads(CountBody, f, st, rs))
    decreases |rs|
  {
    if rs != [] {
      var r, rest := rs[0], rs[1..];
      assert forall i :: 0 <= i < |rest| ==> rest[i] == rs[i + 1];
      if r.isSnapshot {
        assert IncrementalsOf(rs) == IncrementalsOf(rest);
        AsWrittenExactly(f, st, rest);
      } else {
        var st' := Callback(CountBody, st, false, Messages(f, r));
        var ns, fin := NumbersOf(r.arrivals), RunReads(CountBody, f, st', rest);
        ReadAsWritten(f, st, r);
        if st'.inRecovery {
          RunStuck(f, st', rest);
          EndsHere(f, st, ns, st', IncrementalsOf(rest), fin);
        } else {
          AsWrittenExactly(f, st', rest);
          EndsLater(f, st, ns, st', IncrementalsOf(rest), fin);
        }
      }
    }
  }

  /** So as written the consumer is safe whatever arrives; what it lacks is progress. */
  lemma {:induction false} AsWrittenIsSafe(f: Feed, rs: seq<Read>)
    requires forall i :: 0 <= i < |rs| ==> GenuineRead(f, rs[i])
    ensures Safe(f, RunReads(CountBody, f, INITIAL, rs))
  {
    var fin, k := RunReads(CountBody, f, INITIAL, rs), Lead(IncrementalsOf(rs), 1);
    AsWrittenExactly(f, INITIAL, rs);
    assert k <= |f.us| && fin.delivered == f.us[..k];
    assert Replay(map[], fin.delivered) == After(f, k);
  }

  lemma {:induction false} RunStuck(f: Feed, st: State, rs: seq<Read>)
    requires (forall i :: 0 <= i < |rs| ==> GenuineRead(f, rs[i])) && st.inRecovery && Ascending(st.snaps)
    ensures var fin := RunReads(CountBody, f, st, rs);
            fin.inRecovery && fin.delivered == st.delivered
    decreases |rs|
  {
    if rs != [] {
      assert forall i :: 0 <= i < |rs[1..]| ==> rs[1..][i] == rs[i + 1];
      StuckForGood(st, rs[0].isSnapshot, Messages(f, rs[0]));
      RunStuck(f, Callback(CountBody, st, rs[0].isSnapshot, Messages(f, rs[0])), rs[1..]);
    }
  }

  // ---------------------------------------------------------------- with every message counted

  /** No number from `from` up to the last queued one is missing. */
  ghost predicate NoGap(q: Queue, from: nat) {
    forall i: nat, n: nat :: i < |q| && from <= n < q[i].seqNum ==> Has(q, n)
  }

  lemma {:induction false} HasRest(q: Queue, n: nat)
    requires q != []
    ensures Has(q, n) <==> n == q[0].seqNum || Has(q[1..], n)
  {
  }

  lemma {:induction false} NoGapRest(q: Queue, from: nat)
    requires Ascending(q) && q != [] && q[0].seqNum <= from
    ensures NoGap(q, from) <==> NoGap(q[1..], if q[0].seqNum == from then from + 1 else from)
  {
    var from' := if q[0].seqNum == from then from + 1 else from;
    forall n: nat ensures Has(q, n) <==> n == q[0].seqNum || Has(q[1..], n) {
      HasRest(q, n);
    }
    if NoGap(q, from) {
      forall i: nat, n: nat | i < |q[1..]| && from' <= n < q[1..][i].seqNum ensures Has(q[1..], n) {
        assert q[i + 1] == q[1..][i];
      }
    }
    if NoGap(q[1..], from') {
      forall i: nat, n: nat | i < |q| && from <= n < q[i].seqNum ensures Has(q, n) {
        assert q[1..][i - 1] == q[i];
      }
    }
  }

  /** Which queued incrementals complete a recovery, and the number it then waits for. */
  lemma {:induction false} TailExactly(q: Queue, from: nat)
    requires Ascending(q)
    ensures TailOf(q, from).complete <==> NoGap(q, from)
    ensures TailOf(q, from).complete ==>
              TailOf(q, from).next == if q == [] || q[|q| - 1].seqNum < from then from else q[|q| - 1].seqNum + 1
  {
    if q != [] {
      if q[0].seqNum > from {
        assert forall i :: 0 <= i < |q| ==> q[i].seqNum > from;
        assert !Has(q, from);
        assert !NoGap(q, from);
      } else {
        AscendingRest(q);
        NoGapRest(q, from);
        TailExactly(q[1..], if q[0].seqNum == from then from + 1 else from);
        if |q| > 1 {
          assert q[1..][|q| - 2] == q[|q| - 1];
        }
      }
    }
  }

  /** `x` is the first number from `from` on that is not queued. */
  ghost predicate FirstMissing(q: Queue, from: nat, x: nat) {
    from <= x && !Has(q, x) && forall n: nat :: from <= n < x ==> Has(q, n)
  }

  /** Complete or not, a recovery stops at the first number that is missing. */
  lemma {:induction false} TailStops(q: Queue, from: nat)
    requires Ascending(q)
    ensures FirstMissing(q, from, TailOf(q, from).next)
  {
    if q != [] {
      if q[0].seqNum > from {
        assert forall i :: 0 <= i < |q| ==> q[i].seqNum > from;
      } else {
        AscendingRest(q);
        var from' := if q[0].seqNum == from then from + 1 else from;
        TailStops(q[1..], from');
        forall n: nat ensures Has(q, n) <==> n == q[0].seqNum || Has(q[1..], n) {
          HasRest(q, n);
        }
      }
    }
  }

  /** The first `k` messages of a round, as they are sent. */
  function RoundStart(f: Feed, n: nat, k: nat): (q: Queue)
    requires n <= |f.us| && k <= |RoundAfter(f, n)|
    ensures |q| == k && forall i :: 0 <= i < k ==> q[i] == MDPMarketUpdate(i, RoundAfter(f, n)[i])
  {
    seq(k, i requires 0 <= i < k => MDPMarketUpdate(i, RoundAfter(f, n)[i]))
  }

  // ---------------------------------------------------------------- messages of both channels, interleaved

  predicate AllGenuine(f: Feed, xs: seq<Arrival>) {
    forall i :: 0 <= i < |xs| ==> Genuine(f, xs[i])
  }

  /** The consumer in recovery hears messages of both channels, in the order of the reads. */
  function Deliver(rules: Rules, f: Feed, st: State, xs: seq<Arrival>): State
    requires AllGenuine(f, xs)
    decreases |xs|
  {
    if xs == [] then st else Deliver(rules, f, Receive(rules, st, xs[0].Snapshot?, Message(f, xs[0])), xs[1..])
  }

  lemma {:induction false} DeliverConcat(rules: Rules, f: Feed, st: State, xs: seq<Arrival>, ys: seq<Arrival>)
    requires AllGenuine(f, xs) && AllGenuine(f, ys)
    ensures AllGenuine(f, xs + ys)
    ensures Deliver(rules, f, st, xs + ys) == Deliver(rules, f, Deliver(rules, f, st, xs), ys)
    decreases |xs|
  {
    if xs == [] {
      assert xs + ys == ys;
    } else {
      assert (xs + ys)[1..] == xs[1..] + ys;
      DeliverConcat(rules, f, Receive(rules, st, xs[0].Snapshot?, Message(f, xs[0])), xs[1..], ys);
    }
  }

  lemma {:induction false} ReadIsDelivery(rules: Rules, f: Feed, st: State, r: Read)
    requires GenuineRead(f, r)
    ensures ReceiveAll(rules, st, r.isSnapshot, Messages(f, r)) == Deliver(rules, f, st, r.arrivals)
    decreases |r.arrivals|
  {
    if r.arrivals != [] {
      var rest := Read(r.isSnapshot, r.arrivals[1..]);
      assert forall i :: 0 <= i < |rest.arrivals| ==> rest.arrivals[i] == r.arrivals[i + 1];
      assert Messages(f, r)[1..] == Messages(f, rest);
      ReadIsDelivery(rules, f, Receive(rules, st, r.isSnapshot, Message(f, r.arrivals[0])), rest);
    }
  }

  lemma {:induction false} AllArrivalsGenuine(f: Feed, rs: seq<Read>)
    requires forall i :: 0 <= i < |rs| ==> GenuineRead(f, rs[i])
    ensures AllGenuine(f, AllArrivals(rs))
  {
    if rs != [] {
      assert forall i :: 0 <= i < |rs[1..]| ==> rs[1..][i] == rs[i + 1];
      AllArrivalsGenuine(f, rs[1..]);
    }
  }

  /** Before every message of these the consumer is still in recovery. */
  ghost predicate StaysIn(rules: Rules, f: Feed, st: State, xs: seq<Arrival>)
    requires AllGenuine(f, xs)
  {
    forall k :: 0 <= k < |xs| ==> Deliver(rules, f, st, xs[..k]).inRecovery
  }

  lemma {:induction false} StaysInRest(rules: Rules, f: Feed, st: State, xs: seq<Arrival>, ys: seq<Arrival>)
    requires AllGenuine(f, xs) && AllGenuine(f, ys) && AllGenuine(f, xs + ys) && StaysIn(rules, f, st, xs + ys)
    ensures StaysIn(rules, f, Deliver(rules, f, st, xs), ys)
    ensures ys != [] ==> Deliver(rules, f, st, xs).inRecovery
  {
    forall k | 0 <= k < |ys| ensures Deliver(rules, f, Deliver(rules, f, st, xs), ys[..k]).inRecovery {
      assert (xs + ys)[..|xs| + k] == xs + ys[..k];
      DeliverConcat(rules, f, st, xs, ys[..k]);
    }
    if ys != [] {
      assert (xs + ys)[..|xs|] == xs;
    }
  }

  /** How the messages are cut into reads does not matter while recovery lasts. */
  lemma {:induction false} ReadsAreDelivery(rules: Rules, f: Feed, st: State, rs: seq<Read>)
    requires (forall i :: 0 <= i < |rs| ==> GenuineRead(f, rs[i])) && AllGenuine(f, AllArrivals(rs))
    requires StaysIn(rules, f, st, AllArrivals(rs))
    ensures RunReads(rules, f, st, rs) == Deliver(rules, f, st, AllArrivals(rs))
    decreases |rs|
  {
    if rs != [] {
      var r, rest := rs[0], rs[1..];
      assert forall i :: 0 <= i < |rest| ==> rest[i] == rs[i + 1];
      AllArrivalsGenuine(f, rest);
      ReadIsDelivery(rules, f, st, r);
      if r.arrivals != [] {
        assert AllArrivals(rs)[..0] == [];
      }
      StaysInRest(rules, f, st, r.arrivals, AllArrivals(rest));
      DeliverConcat(rules, f, st, r.arrivals, AllArrivals(rest));
      assert Callback(rules, st, r.isSnapshot, Messages(f, r)) == Deliver(rules, f, st, r.arrivals);
      ReadsAreDelivery(rules, f, Deliver(rules, f, st, r.arrivals), rest);
    }
  }

  // ---------------------------------------------------------------- a round while incrementals arrive

  /** The snapshot messages among these, in order. */
  function SnapshotsOf(xs: seq<Arrival>): seq<Arrival> {
    if xs == [] then []
    else SnapshotsOf(xs[..|xs| - 1]) + if xs[|xs| - 1].Snapshot? then [xs[|xs| - 1]] else []
  }

  /** The queued incrementals once those among these are queued too. */
  function QueuedWith(f: Feed, q: Queue, xs: seq<Arrival>): Queue
    requires AllGenuine(f, xs)
  {
    if xs == [] then q
    else
      var p := QueuedWith(f, q, xs[..|xs| - 1]);
      var a := xs[|xs| - 1];
      if a.Snapshot? then p else Put(p, Message(f, a))
  }

  /** The first `k` messages of the round taken after `n` updates. */
  function RoundArrivals(n: nat, k: nat): (xs: seq<Arrival>)
    ensures |xs| == k && forall i :: 0 <= i < k ==> xs[i] == Snapshot(n, i)
  {
    seq(k, i requires 0 <= i < k => Snapshot(n, i))
  }

  lemma {:induction false} QueuedWithKept(f: Feed, q: Queue, xs: seq<Arrival>)
    requires AllGenuine(f, xs) && Ascending(q) && GenuineIncs(f, q)
    ensures Ascending(QueuedWith(f, q, xs)) && GenuineIncs(f, QueuedWith(f, q, xs))
  {
    if xs != [] {
      var e := |xs| - 1;
      QueuedWithKept(f, q, xs[..e]);
      if xs[e].Incremental? {
        PutGenuine(f, QueuedWith(f, q, xs[..e]), xs[e].n);
      }
    }
  }

  /** A round that arrives in order fills the queue, whatever was queued before and whatever incrementals
      arrive in between. */
  lemma {:induction false} RoundFills(rules: Rules, f: Feed, st: State, n: nat, k: nat, xs: seq<Arrival>)
    requires Published(f) && n <= |f.us| && k < |RoundAfter(f, n)| && AllGenuine(f, xs)
    requires SnapshotsOf(xs) == RoundArrivals(n, k)
    requires !rules.CountBody? && st.inRecovery && Prefix(st.snaps)
    ensures var r := Deliver(rules, f, st, xs);
            && r == st.(incs := QueuedWith(f, st.incs, xs), snaps := if k == 0 then st.snaps else RoundStart(f, n, k))
            && Prefix(r.snaps)
    decreases |xs|
  {
    if xs != [] {
      var e := |xs| - 1;
      var a := xs[e];
      assert xs[..e] + [a] == xs && [a][1..] == [];
      DeliverConcat(rules, f, st, xs[..e], [a]);
      if a.Incremental? {
        RoundFills(rules, f, st, n, k, xs[..e]);
        QueuesIncremental(rules, Deliver(rules, f, st, xs[..e]), Message(f, a));
      } else {
        LastOfRound(xs, n, k);
        RoundFills(rules, f, st, n, k - 1, xs[..e]);
        NextOfRound(rules, f, Deliver(rules, f, st, xs[..e]), n, k);
      }
    }
  }

  lemma {:induction false} LastOfRound(xs: seq<Arrival>, n: nat, k: nat)
    requires xs != [] && xs[|xs| - 1].Snapshot? && SnapshotsOf(xs) == RoundArrivals(n, k)
    ensures k > 0 && xs[|xs| - 1] == Snapshot(n, k - 1) && SnapshotsOf(xs[..|xs| - 1]) == RoundArrivals(n, k - 1)
  {
    var before := SnapshotsOf(xs[..|xs| - 1]);
    assert SnapshotsOf(xs)[|before|] == xs[|xs| - 1];
    assert before == SnapshotsOf(xs)[..k - 1];
  }

  /** Message `k - 1` of a round, behind those before it or restarting the queue. */
  lemma {:induction false} NextOfRound(rules: Rules, f: Feed, st: State, n: nat, k: nat)
    requires Published(f) && n <= |f.us| && 1 <= k < |RoundAfter(f, n)|
    requires !rules.CountBody? && st.inRecovery && Prefix(st.snaps) && (k > 1 ==> st.snaps == RoundStart(f, n, k - 1))
    ensures Receive(rules, st, true, Message(f, Snapshot(n, k - 1))) == st.(snaps := RoundStart(f, n, k))
    ensures Prefix(RoundStart(f, n, k))
  {
    var m := Message(f, Snapshot(n, k - 1));
    RoundFraming(f, n, k - 1);
    assert RoundStart(f, n, k) == RoundStart(f, n, k - 1) + [m];
    GrownExactly(rules, st.snaps, m);
    PrefixGrown(rules, st.snaps, m);
    SyncWaits(rules, st.(snaps := Grown(st.snaps, m)));
  }

  /** The END of a round that fills the queue. */
  lemma {:induction false} EndOfRound(rules: Rules, f: Feed, st: State, n: nat)
    requires Published(f) && n <= |f.us| && !rules.CountBody? && st.inRecovery && Prefix(st.snaps)
    requires st.snaps == RoundStart(f, n, |RoundAfter(f, n)| - 1)
    ensures var t := TailOf(st.incs, n + 1);
            Receive(rules, st, true, Message(f, Snapshot(n, |RoundAfter(f, n)| - 1)))
              == if t.complete then State(t.next, false, [], [], st.delivered + (Body(f.z, After(f, n)) + t.events))
                 else st.(snaps := [], next := t.next)
  {
    var e := |RoundAfter(f, n)| - 1;
    var m := Message(f, Snapshot(n, e));
    RoundFraming(f, n, 0);
    RoundFraming(f, n, e);
    assert RoundStart(f, n, e + 1) == RoundStart(f, n, e) + [m];
    GrownExactly(rules, st.snaps, m);
    SyncEnds(rules, st.(snaps := RoundStart(f, n, e + 1)));
    WholeRoundBody(f, RoundStart(f, n, e + 1), n);
  }

  /** Before the END, the messages of a round among these are fewer than all. */
  lemma {:induction false} FewerBefore(xs: seq<Arrival>, n: nat, k: nat, j: nat)
    requires xs != [] && xs[|xs| - 1].Snapshot? && SnapshotsOf(xs) == RoundArrivals(n, k) && j < |xs|
    ensures |SnapshotsOf(xs[..j])| < k && SnapshotsOf(xs[..j]) == RoundArrivals(n, |SnapshotsOf(xs[..j])|)
  {
    LastOfRound(xs, n, k);
    var front := xs[..|xs| - 1];
    PrefixSnapshots(front, j);
    assert front[..j] == xs[..j];
    assert SnapshotsOf(xs[..j]) == RoundArrivals(n, k - 1)[..|SnapshotsOf(xs[..j])|];
  }

  lemma {:induction false} PrefixSnapshots(xs: seq<Arrival>, j: nat)
    requires j <= |xs|
    ensures SnapshotsOf(xs[..j]) <= SnapshotsOf(xs)
    decreases |xs|
  {
    if j < |xs| {
      PrefixSnapshots(xs[..|xs| - 1], j);
      assert xs[..|xs| - 1][..j] == xs[..j];
    } else {
      assert xs[..j] == xs;
    }
  }

  /** While a round arrives, recovery lasts up to its END. */
  lemma {:induction false} StaysInRound(rules: Rules, f: Feed, st: State, n: nat, xs: seq<Arrival>)
    requires Published(f) && n <= |f.us| && !rules.CountBody? && AllGenuine(f, xs)
    requires st.inRecovery && Prefix(st.snaps)
    requires xs != [] && xs[|xs| - 1].Snapshot? && SnapshotsOf(xs) == RoundArrivals(n, |RoundAfter(f, n)|)
    ensures StaysIn(rules, f, st, xs)
  {
    forall j | 0 <= j < |xs| ensures Deliver(rules, f, st, xs[..j]).inRecovery {
      FewerBefore(xs, n, |RoundAfter(f, n)|, j);
      RoundFills(rules, f, st, n, |SnapshotsOf(xs[..j])|, xs[..j]);
    }
  }

  /** A whole round among interleaved messages, its END last. */
  lemma {:induction false} RoundEnds(rules: Rules, f: Feed, st: State, n: nat, xs: seq<Arrival>)
    requires Published(f) && n <= |f.us| && !rules.CountBody? && AllGenuine(f, xs)
    requires st.inRecovery && Prefix(st.snaps)
    requires xs != [] && xs[|xs| - 1].Snapshot? && SnapshotsOf(xs) == RoundArrivals(n, |RoundAfter(f, n)|)
    ensures var incs := QueuedWith(f, st.incs, xs);
            var t := TailOf(incs, n + 1);
            Deliver(rules, f, st, xs)
              == if t.complete then State(t.next, false, [], [], st.delivered + (Body(f.z, After(f, n)) + t.events))
                 else st.(snaps := [], next := t.next, incs := incs)
  {
    var e, k := |xs| - 1, |RoundAfter(f, n)|;
    LastOfRound(xs, n, k);
    RoundFills(rules, f, st, n, k - 1, xs[..e]);
    assert xs[..e] + [xs[e]] == xs && [xs[e]][1..] == [];
    DeliverConcat(rules, f, st, xs[..e], [xs[e]]);
    EndOfRound(rules, f, Deliver(rules, f, st, xs[..e]), n);
  }

  /** Where the round taken after `n` updates leaves a consumer that has queued `incs` when it ends. */
  ghost predicate RoundOutcome(f: Feed, st: State, n: nat, incs: Queue, fin: State)
    requires n <= |f.us|
  {
    && (!fin.inRecovery <==> NoGap(incs, n + 1)) && FirstMissing(incs, n + 1, fin.next)
    && (fin.inRecovery ==> fin.snaps == [] && fin.incs == incs && fin.delivered == st.delivered)
    && (!fin.inRecovery ==>
          && fin.next == (if incs == [] || incs[|incs| - 1].seqNum <= n then n + 1 else incs[|incs| - 1].seqNum + 1)
          && fin.next <= |f.us| + 1
          && fin.delivered == st.delivered + (Body(f.z, After(f, n)) + f.us[n..fin.next - 1]))
  }

  lemma {:induction false} OutcomeExactly(f: Feed, st: State, n: nat, incs: Queue)
    requires Published(f) && n <= |f.us| && st.inRecovery && Ascending(incs) && GenuineIncs(f, incs)
    ensures var t := TailOf(incs, n + 1);
            RoundOutcome(f, st, n, incs,
              if t.complete then State(t.next, false, [], [], st.delivered + (Body(f.z, After(f, n)) + t.events))
              else st.(snaps := [], next := t.next, incs := incs))
  {
    TailExactly(incs, n + 1);
    TailStops(incs, n + 1);
    TailGenuine(f, incs, n + 1);
  }

  /** Progress: a whole round in order, its messages cut into reads and interleaved with incrementals anyhow, ends
      the recovery if and only if the incrementals queued by then have no gap behind the round's update, with
      the next number right; otherwise they are all kept for the next round. */
  lemma {:induction false} RoundRecovers(rules: Rules, f: Feed, st: State, n: nat, rs: seq<Read>)
    requires Published(f) && n <= |f.us| && !rules.CountBody?
    requires st.inRecovery && Prefix(st.snaps) && Ascending(st.incs) && GenuineIncs(f, st.incs)
    requires forall i :: 0 <= i < |rs| ==> GenuineRead(f, rs[i])
    requires var xs := AllArrivals(rs);
             xs != [] && xs[|xs| - 1].Snapshot? && SnapshotsOf(xs) == RoundArrivals(n, |RoundAfter(f, n)|)
    ensures AllGenuine(f, AllArrivals(rs))
    ensures RoundOutcome(f, st, n, QueuedWith(f, st.incs, AllArrivals(rs)), RunReads(rules, f, st, rs))
  {
    var xs := AllArrivals(rs);
    AllArrivalsGenuine(f, rs);
    StaysInRound(rules, f, st, n, xs);
    ReadsAreDelivery(rules, f, st, rs);
    RoundEnds(rules, f, st, n, xs);
    QueuedWithKept(f, st.incs, xs);
    OutcomeExactly(f, st, n, QueuedWith(f, st.incs, xs));
  }

  // ---------------------------------------------------------------- recoveries that go back

  /** A recovery that a stale round ends can move the consumer backwards: exactly when it expected a later update
      than the one behind the round, and later ones than all it has queued. */
  lemma {:induction false} GoesBackExactly(rules: Rules, f: Feed, st: State, n: nat, rs: seq<Read>)
    requires Published(f) && n <= |f.us| && !rules.CountBody?
    requires st.inRecovery && Prefix(st.snaps) && Ascending(st.incs) && GenuineIncs(f, st.incs)
    requires forall i :: 0 <= i < |rs| ==> GenuineRead(f, rs[i])
    requires var xs := AllArrivals(rs);
             xs != [] && xs[|xs| - 1].Snapshot? && SnapshotsOf(xs) == RoundArrivals(n, |RoundAfter(f, n)|)
    ensures AllGenuine(f, AllArrivals(rs))
    ensures var fin, incs := RunReads(rules, f, st, rs), QueuedWith(f, st.incs, AllArrivals(rs));
            !fin.inRecovery ==>
              (fin.next < st.next <==> n + 1 < st.next && AllBelow(incs, st.next))
  {
    RoundRecovers(rules, f, st, n, rs);
    QueuedWithKept(f, st.incs, AllArrivals(rs));
    var incs := QueuedWith(f, st.incs, AllArrivals(rs));
    if incs != [] {
      AllBelowExactly(incs, st.next);
    }
  }

  predicate AllBelow(q: Queue, before: nat) {
    forall i :: 0 <= i < |q| ==> q[i].seqNum + 1 < before
  }

  lemma {:induction false} AllBelowExactly(q: Queue, before: nat)
    requires Ascending(q) && q != []
    ensures AllBelow(q, before) <==> q[|q| - 1].seqNum + 1 < before
  {
    var e := |q| - 1;
    forall i | 0 <= i < |q| ensures q[i].seqNum <= q[e].seqNum {
      assert i == e || q[i].seqNum < q[e].seqNum;
    }
    if q[e].seqNum + 1 < before {
      forall i | 0 <= i < |q| ensures q[i].seqNum + 1 < before {
        assert q[i].seqNum <= q[e].seqNum;
      }
    } else {
      assert !(q[e].seqNum + 1 < before);
    }
  }

  /** Two updates, the first of them again, and then the round of the empty mirror. */
  function StaleReads(f: Feed): seq<Read> {
    [Read(false, [Incremental(1), Incremental(2), Incremental(1)]), Read(true, RoundArrivals(0, |RoundAfter(f, 0)|))]
  }

  /** It happens in every feed of two updates or more. */
  lemma {:induction false} StaleRoundGoesBack(rules: Rules, f: Feed)
    requires Published(f) && |f.us| >= 2 && !rules.CountBody?
    ensures forall i :: 0 <= i < 2 ==> GenuineRead(f, StaleReads(f)[i])
    ensures RunReads(rules, f, INITIAL, StaleReads(f)[..1]).next == 3
    ensures !RunReads(rules, f, INITIAL, StaleReads(f)).inRecovery
    ensures RunReads(rules, f, INITIAL, StaleReads(f)).next == 2
  {
    var rs, k := StaleReads(f), |RoundAfter(f, 0)|;
    var mid := State(3, true, [], [MDPMarketUpdate(1, f.us[0])], f.us[..2]);
    var round := [Read(true, RoundArrivals(0, k))];
    RepeatedUpdate(rules, f);
    FirstRead(rules, f, INITIAL, rs, mid);
    FirstRead(rules, f, INITIAL, rs[..1], mid);
    assert rs[1..] == round && rs[..1][1..] == [] && round[1..] == [];
    assert AllArrivals(round) == RoundArrivals(0, k);
    OnlySnapshots(f, mid.incs, RoundArrivals(0, k));
    RoundRecovers(rules, f, mid, 0, round);
  }

  lemma {:induction false} FirstRead(rules: Rules, f: Feed, st: State, rs: seq<Read>, mid: State)
    requires rs != [] && forall i :: 0 <= i < |rs| ==> GenuineRead(f, rs[i])
    requires Callback(rules, st, rs[0].isSnapshot, Messages(f, rs[0])) == mid
    ensures RunReads(rules, f, st, rs) == RunReads(rules, f, mid, rs[1..])
  {
  }

  lemma {:induction false} RepeatedUpdate(rules: Rules, f: Feed)
    requires |f.us| >= 2
    ensures GenuineRead(f, StaleReads(f)[0])
    ensures ReceiveAll(rules, INITIAL, false, Messages(f, StaleReads(f)[0]))
              == State(3, true, [], [MDPMarketUpdate(1, f.us[0])], f.us[..2])
  {
    var m, n := MDPMarketUpdate(1, f.us[0]), MDPMarketUpdate(2, f.us[1]);
    assert Messages(f, StaleReads(f)[0]) == [m] + ([n] + [m]) && [m] + [] == [m];
    var one, two := State(2, false, [], [], [f.us[0]]), State(3, false, [], [], f.us[..2]);
    assert Receive(rules, INITIAL, false, m) == one && Receive(rules, one, false, n) == two;
    assert Receive(rules, two, false, m) == State(3, true, [], [m], f.us[..2]);
    ReceiveFirst(rules, two, m, []);
    ReceiveFirst(rules, one, n, [m]);
    ReceiveFirst(rules, INITIAL, m, [n] + [m]);
  }

  lemma {:induction false} ReceiveFirst(rules: Rules, st: State, m: MDPMarketUpdate, ms: seq<MDPMarketUpdate>)
    ensures ReceiveAll(rules, st, false, [m] + ms) == ReceiveAll(rules, Receive(rules, st, false, m), false, ms)
  {
    assert ([m] + ms)[1..] == ms;
  }

  lemma {:induction false} OnlySnapshots(f: Feed, q: Queue, xs: seq<Arrival>)
    requires AllGenuine(f, xs) && forall i :: 0 <= i < |xs| ==> xs[i].Snapshot?
    ensures SnapshotsOf(xs) == xs && QueuedWith(f, q, xs) == q
  {
    if xs != [] {
      OnlySnapshots(f, q, xs[..|xs| - 1]);
      assert xs == xs[..|xs| - 1] + [xs[|xs| - 1]];
    }
  }
}

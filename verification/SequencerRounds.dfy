/** Rounds of reads: the server reads each socket once and then publishes what waits. So all that a client sends in
    one round has one receive time, and the sort may reorder it. */
module SequencerRounds {
  import opened Types
  import opened WireFormat
  import opened FIFOSequencer
  import opened Gateway

  ghost predicate OneTime(q: Requests) {
    forall i, j :: 0 <= i < j < |q| ==> q[i].recvTime == q[j].recvTime
  }

  ghost predicate AllSame(q: Requests) {
    forall i, j :: 0 <= i < j < |q| ==> q[i] == q[j]
  }

  // ---------------------------------------------------------------- what one round forwards

  /** A round reads no socket twice. */
  ghost predicate Round<S(!new)>(chunks: seq<Chunk<S>>) {
    forall i, j :: 0 <= i < j < |chunks| ==> chunks[i].socket != chunks[j].socket
  }

  /** So frames of one socket have one time. */
  ghost predicate OneReadEach<S(!new)>(es: seq<Event<S>>) {
    forall i, j :: 0 <= i < |es| && 0 <= j < |es| && es[i].socket == es[j].socket ==> es[i].rxTime == es[j].rxTime
  }

  /** Every event comes from one of these reads. */
  ghost predicate FromReads<S(!new)>(es: seq<Event<S>>, chunks: seq<Chunk<S>>) {
    forall i :: 0 <= i < |es| ==> SomeRead(es[i], chunks)
  }

  ghost predicate SomeRead<S(!new)>(e: Event<S>, chunks: seq<Chunk<S>>) {
    exists k :: 0 <= k < |chunks| && ReadIn(e, chunks[k])
  }

  predicate ReadIn<S(==)>(e: Event<S>, r: Chunk<S>) {
    e.socket == r.socket && e.rxTime == r.rxTime
  }

  lemma {:induction false} RoundEvents<S(!new)>(before: seq<Chunk<S>>, round: seq<Chunk<S>>)
    ensures var all, old_ := EventsOf(before + round), EventsOf(before);
            old_ <= all && FromReads(all[|old_|..], round)
    decreases |round|
  {
    if round == [] {
      assert before + round == before;
    } else {
      var n := |round| - 1;
      RoundEvents(before, round[..n]);
      assert (before + round)[..|before + round| - 1] == before + round[..n];
      var all, mid, first := EventsOf(before + round), EventsOf(before + round[..n]), EventsOf(before);
      var r := round[n];
      var more := Tagged(r.socket, r.rxTime, Frames(BufferOf(r.socket, before + round[..n]) + r.bytes));
      assert all == mid + more && all[|first|..] == mid[|first|..] + more;
      OneMoreReadIn(mid[|first|..], more, round);
    }
  }

  lemma {:induction false} OneMoreReadIn<S(!new)>(es: seq<Event<S>>, more: seq<Event<S>>, round: seq<Chunk<S>>)
    requires round != [] && FromReads(es, round[..|round| - 1])
    requires forall i :: 0 <= i < |more| ==> ReadIn(more[i], round[|round| - 1])
    ensures FromReads(es + more, round)
  {
    var all, n := es + more, |round| - 1;
    forall i | 0 <= i < |all| ensures SomeRead(all[i], round) {
      if i < |es| {
        assert SomeRead(es[i], round[..n]);
        var k :| 0 <= k < n && ReadIn(es[i], round[..n][k]);
        assert ReadIn(all[i], round[k]);
      } else {
        assert more[i - |es|] == all[i] && ReadIn(all[i], round[n]);
      }
    }
  }

  lemma {:induction false} RoundReadsOnce<S(!new)>(es: seq<Event<S>>, chunks: seq<Chunk<S>>)
    requires FromReads(es, chunks) && Round(chunks)
    ensures OneReadEach(es)
  {
    forall i, j | 0 <= i < |es| && 0 <= j < |es| && es[i].socket == es[j].socket ensures es[i].rxTime == es[j].rxTime {
      assert SomeRead(es[i], chunks) && SomeRead(es[j], chunks);
      var k :| 0 <= k < |chunks| && ReadIn(es[i], chunks[k]);
      var l :| 0 <= l < |chunks| && ReadIn(es[j], chunks[l]);
      assert k == l;
    }
  }

  /** What a gate forwards of these events. */
  ghost function Batch<S>(g: Gate<S>, es: seq<Event<S>>): Requests
    requires Serves(g, |g.sockets|) && InRange(|g.sockets|, es)
  {
    if |g.forwarded| <= |AdmitAll(g, es).forwarded| then AdmitAll(g, es).forwarded[|g.forwarded|..] else []
  }

  predicate Forwards<S>(e: Event<S>, x: RecvTimeClientRequest) {
    x == RecvTimeClientRequest(e.rxTime, e.m.request)
  }

  /** A client's forwarded requests come from events of the socket that it is bound to. */
  ghost predicate FromBound<S(!new)>(c: nat, g: Gate<S>, es: seq<Event<S>>, q: Requests)
    requires c < |g.sockets|
  {
    forall x :: x in q && x.request.clientId == c ==>
      g.sockets[c].Some? && exists i :: 0 <= i < |es| && es[i].socket == g.sockets[c].value && Forwards(es[i], x)
  }

  lemma {:induction false} BatchFrom<S(!new)>(c: nat, g: Gate<S>, es: seq<Event<S>>)
    requires Serves(g, |g.sockets|) && InRange(|g.sockets|, es) && c < |g.sockets|
    ensures g.forwarded <= AdmitAll(g, es).forwarded
    ensures FromBound(c, AdmitAll(g, es), es, Batch(g, es))
    decreases |es|
  {
    if es != [] {
      var n := |es| - 1;
      BatchFrom(c, g, es[..n]);
      var mid, last := AdmitAll(g, es[..n]), AdmitAll(g, es);
      assert last == Admit(mid, es[n]);
      forall x | x in Batch(g, es) && x.request.clientId == c
        ensures last.sockets[c].Some?
        ensures exists i :: 0 <= i < |es| && es[i].socket == last.sockets[c].value && Forwards(es[i], x)
      {
        if x in Batch(g, es[..n]) {
          var i :| 0 <= i < n && es[..n][i].socket == mid.sockets[c].value && Forwards(es[..n][i], x);
          assert es[i].socket == last.sockets[c].value && Forwards(es[i], x);
        } else {
          assert es[n].socket == last.sockets[c].value && Forwards(es[n], x);
        }
      }
    }
  }

  lemma {:induction false} OfClientFrom(c: nat, q: Requests)
    ensures forall x :: x in OfClient(c, q) ==> x in q && x.request.clientId == c
  {
    if q != [] {
      OfClientFrom(c, q[1..]);
    }
  }

  /** Of a round, everything forwarded for one client has one receive time. */
  lemma {:induction false} RoundOneTime<S(!new)>(c: nat, g: Gate<S>, es: seq<Event<S>>)
    requires Serves(g, |g.sockets|) && InRange(|g.sockets|, es) && c < |g.sockets| && OneReadEach(es)
    ensures OneTime(OfClient(c, Batch(g, es)))
  {
    var q, h := OfClient(c, Batch(g, es)), AdmitAll(g, es);
    BatchFrom(c, g, es);
    OfClientFrom(c, Batch(g, es));
    forall i, j | 0 <= i < j < |q| ensures q[i].recvTime == q[j].recvTime {
      assert q[i] in q && q[j] in q;
      var k :| 0 <= k < |es| && es[k].socket == h.sockets[c].value && Forwards(es[k], q[i]);
      var l :| 0 <= l < |es| && es[l].socket == h.sockets[c].value && Forwards(es[l], q[j]);
    }
  }

  // ---------------------------------------------------------------- when order survives

  lemma {:induction false} BothForwarded<S>(clients: nat, e: Event<S>, f: Event<S>)
    requires e.m.request.clientId == f.m.request.clientId < clients && e.socket == f.socket
    requires e.m.seqNum == 1 && f.m.seqNum == 2
    ensures InRange(clients, [e, f])
    ensures AdmitAll(Opened(clients), [e, f]).forwarded
              == [RecvTimeClientRequest(e.rxTime, e.m.request), RecvTimeClientRequest(f.rxTime, f.m.request)]
  {
    var g: Gate<S> := Opened(clients);
    assert [e, f][..1] == [e] && [e][..0] == [];
    assert AdmitAll(g, [e]) == Admit(g, e);
    assert AdmitAll(g, [e, f]) == Admit(Admit(g, e), f);
  }

  /** Any two different requests that a client sends in one read may change places. */
  lemma {:induction false} TwoInOneRead<S>(clients: nat, s: S, rxTime: int, a: ClientRequest, b: ClientRequest)
    returns (q: Requests)
    requires a.clientId == b.clientId < clients && a != b
    ensures var es := [Event(s, rxTime, OMClientRequest(1, a)), Event(s, rxTime, OMClientRequest(2, b))];
            && InRange(clients, es) && Plain(AdmitAll(Opened(clients), es).forwarded) == [a, b]
            && Permitted(AdmitAll(Opened(clients), es).forwarded, q) && Plain(q) == [b, a]
  {
    var e, f := Event(s, rxTime, OMClientRequest(1, a)), Event(s, rxTime, OMClientRequest(2, b));
    var x, y := RecvTimeClientRequest(rxTime, a), RecvTimeClientRequest(rxTime, b);
    BothForwarded(clients, e, f);
    q := [y, x];
    assert Permitted([x, y], q);
    assert Plain([x, y]) == [a, b] && Plain(q) == [b, a];
  }

  lemma {:induction false} OneTimeTies(q: Requests)
    requires OneTime(q)
    ensures SortedByTime(q) && (TiesEqual(q) <==> AllSame(q))
  {
  }

  lemma {:induction false} SameCount(c: nat, p: Requests, q: Requests)
    requires Permitted(p, q)
    ensures |OfClient(c, p)| == |OfClient(c, q)|
  {
    forall x ensures multiset(OfClient(c, p))[x] == multiset(OfClient(c, q))[x] {
      OfClientCounts(c, p, x);
      OfClientCounts(c, q, x);
    }
    assert multiset(OfClient(c, p)) == multiset(OfClient(c, q));
    assert |multiset(OfClient(c, p))| == |multiset(OfClient(c, q))|;
  }

  /** If a client's order survives over all rounds, it survives in each. */
  lemma {:induction false} RoundByRound(c: nat, batches: seq<Requests>, orders: seq<Requests>, i: nat)
    requires Sequenced(batches, orders) && i < |batches|
    requires OfClient(c, Flat(orders)) == OfClient(c, Flat(batches))
    ensures OfClient(c, orders[i]) == OfClient(c, batches[i])
  {
    var p, q := OfClient(c, batches[0]), OfClient(c, orders[0]);
    var ps, qs := OfClient(c, Flat(batches[1..])), OfClient(c, Flat(orders[1..]));
    SameCount(c, batches[0], orders[0]);
    OfClientConcat(c, batches[0], Flat(batches[1..]));
    OfClientConcat(c, orders[0], Flat(orders[1..]));
    assert p + ps == q + qs && |p| == |q|;
    assert (p + ps)[..|p|] == p && (q + qs)[..|q|] == q;
    assert (p + ps)[|p|..] == ps && (q + qs)[|q|..] == qs;
    if i > 0 {
      RoundByRound(c, batches[1..], orders[1..], i - 1);
    }
  }

  /** Over all rounds, where each has one time for the client: its order survives every outcome of the sort if and
      only if no round forwards two different requests of it. */
  lemma {:induction false} RoundsKeepOrderExactly(c: nat, batches: seq<Requests>)
    requires forall i :: 0 <= i < |batches| ==> OneTime(OfClient(c, batches[i]))
    ensures (forall orders :: Sequenced(batches, orders) ==> OfClient(c, Flat(orders)) == OfClient(c, Flat(batches)))
              <==> forall i :: 0 <= i < |batches| ==> AllSame(OfClient(c, batches[i]))
  {
    forall i | 0 <= i < |batches| ensures SortedByTime(OfClient(c, batches[i]))
                                       && (TiesEqual(OfClient(c, batches[i])) <==> AllSame(OfClient(c, batches[i]))) {
      OneTimeTies(OfClient(c, batches[i]));
    }
    if forall i :: 0 <= i < |batches| ==> AllSame(OfClient(c, batches[i])) {
      forall orders | Sequenced(batches, orders) ensures OfClient(c, Flat(orders)) == OfClient(c, Flat(batches)) {
        OrdersKept(c, batches, orders);
      }
    } else {
      var k :| 0 <= k < |batches| && !AllSame(OfClient(c, batches[k]));
      var orders := BreakRound(c, batches, k);
    }
  }

  lemma {:induction false} BreakRound(c: nat, batches: seq<Requests>, k: nat) returns (orders: seq<Requests>)
    requires k < |batches| && !TiesEqual(OfClient(c, batches[k]))
    ensures Sequenced(batches, orders) && OfClient(c, Flat(orders)) != OfClient(c, Flat(batches))
  {
    var q := OrderMayBreak(c, batches[k]);
    orders := seq(|batches|, i requires 0 <= i < |batches| => if i == k then q else Sorted(batches[i]));
    forall i | 0 <= i < |batches| ensures Permitted(batches[i], orders[i]) {
      SortedPermitted(batches[i]);
    }
    if OfClient(c, Flat(orders)) == OfClient(c, Flat(batches)) {
      RoundByRound(c, batches, orders, k);
    }
  }

  // ---------------------------------------------------------------- from the sockets

  function Joined<S>(rounds: seq<seq<Chunk<S>>>): seq<Chunk<S>> {
    if rounds == [] then [] else Joined(rounds[..|rounds| - 1]) + rounds[|rounds| - 1]
  }

  /** What each round hands to the sequencer. */
  ghost function Batches<S>(clients: nat, rounds: seq<seq<Chunk<S>>>): (qs: seq<Requests>)
    requires InRange(clients, EventsOf(Joined(rounds)))
    ensures |qs| == |rounds|
    decreases |rounds|
  {
    if rounds == [] then []
    else
      var n := |rounds| - 1;
      JoinedEvents(clients, rounds);
      var before := EventsOf(Joined(rounds[..n]));
      Batches(clients, rounds[..n])
        + [Batch(GateAfter(clients, Joined(rounds[..n])), EventsOf(Joined(rounds))[|before|..])]
  }

  lemma {:induction false} JoinedEvents<S>(clients: nat, rounds: seq<seq<Chunk<S>>>)
    requires rounds != [] && InRange(clients, EventsOf(Joined(rounds)))
    ensures var all, before := EventsOf(Joined(rounds)), EventsOf(Joined(rounds[..|rounds| - 1]));
            && before <= all && InRange(clients, before) && InRange(clients, all[|before|..])
            && AdmitAll(Opened(clients), all) == AdmitAll(AdmitAll(Opened(clients), before), all[|before|..])
  {
    var all, before := EventsOf(Joined(rounds)), EventsOf(Joined(rounds[..|rounds| - 1]));
    EventsGrow(Joined(rounds[..|rounds| - 1]), rounds[|rounds| - 1]);
    assert all == before + all[|before|..];
    AdmitConcat(Opened(clients), before, all[|before|..]);
  }

  lemma {:induction false} EventsGrow<S>(before: seq<Chunk<S>>, round: seq<Chunk<S>>)
    ensures EventsOf(before) <= EventsOf(before + round)
    decreases |round|
  {
    if round == [] {
      assert before + round == before;
    } else {
      EventsGrow(before, round[..|round| - 1]);
      assert (before + round)[..|before + round| - 1] == before + round[..|round| - 1];
    }
  }

  lemma {:induction false} FlatConcat(ps: seq<Requests>, qs: seq<Requests>)
    ensures Flat(ps + qs) == Flat(ps) + Flat(qs)
  {
    if ps == [] {
      assert ps + qs == qs;
    } else {
      assert (ps + qs)[1..] == ps[1..] + qs;
      FlatConcat(ps[1..], qs);
    }
  }

  lemma {:induction false} NextBatch<S(!new)>(c: nat, g: Gate<S>, es: seq<Event<S>>, before: seq<Chunk<S>>,
                                              round: seq<Chunk<S>>)
    requires Serves(g, |g.sockets|) && c < |g.sockets| && Round(round)
    requires EventsOf(before) <= EventsOf(before + round) && es == EventsOf(before + round)[|EventsOf(before)|..]
    requires InRange(|g.sockets|, es)
    ensures OneTime(OfClient(c, Batch(g, es))) && AdmitAll(g, es).forwarded == g.forwarded + Batch(g, es)
  {
    RoundEvents(before, round);
    RoundReadsOnce(es, round);
    RoundOneTime(c, g, es);
    BatchFrom(c, g, es);
  }

  /** The rounds together hand on all that the gate forwards, each with one time for a client. */
  lemma {:induction false} BatchesOfRounds<S(!new)>(clients: nat, c: nat, rounds: seq<seq<Chunk<S>>>)
    requires c < clients && InRange(clients, EventsOf(Joined(rounds)))
    requires forall i :: 0 <= i < |rounds| ==> Round(rounds[i])
    ensures Flat(Batches(clients, rounds)) == GateAfter(clients, Joined(rounds)).forwarded
    ensures forall i :: 0 <= i < |rounds| ==> OneTime(OfClient(c, Batches(clients, rounds)[i]))
    decreases |rounds|
  {
    if rounds != [] {
      var n := |rounds| - 1;
      JoinedEvents(clients, rounds);
      BatchesOfRounds(clients, c, rounds[..n]);
      var before := Joined(rounds[..n]);
      var es := EventsOf(Joined(rounds))[|EventsOf(before)|..];
      var g := GateAfter(clients, before);
      NextBatch(c, g, es, before, rounds[n]);
      FlatConcat(Batches(clients, rounds[..n]), [Batch(g, es)]);
      assert Flat([Batch(g, es)]) == Batch(g, es);
    }
  }

  /** From the sockets to the engine: whatever the sort does with equal times, the engine gets a bound client's
      requests in sequence if and only if no round of reads forwards two different ones. */
  lemma {:induction false} DeliveredExactly<S(!new)>(clients: nat, c: nat, rounds: seq<seq<Chunk<S>>>)
    requires c < clients && InRange(clients, EventsOf(Joined(rounds)))
    requires forall i :: 0 <= i < |rounds| ==> Round(rounds[i])
    ensures var batches, sent := Batches(clients, rounds), GateAfter(clients, Joined(rounds)).forwarded;
            (forall orders :: Sequenced(batches, orders) ==> OfClient(c, Flat(orders)) == OfClient(c, sent))
              <==> forall i :: 0 <= i < |rounds| ==> AllSame(OfClient(c, batches[i]))
  {
    BatchesOfRounds(clients, c, rounds);
    RoundsKeepOrderExactly(c, Batches(clients, rounds));
  }
}

/** The sequencer between the gateway and the matching engine: requests wait until a round of reads is over,
    then go out by receive time. The library's sort is free to order equal times as it likes. */
module FIFOSequencer {
  import opened Types

  const ME_MAX_PENDING_REQUESTS: nat := 1024

  datatype RecvTimeClientRequest = RecvTimeClientRequest(recvTime: int, request: ClientRequest)

  type Requests = seq<RecvTimeClientRequest>

  ghost predicate SortedByTime(q: Requests) {
    forall i, j :: 0 <= i < j < |q| ==> q[i].recvTime <= q[j].recvTime
  }

  /** What the sort may leave. */
  ghost predicate Permitted(p: Requests, q: Requests) {
    multiset(p) == multiset(q) && SortedByTime(q)
  }

  function Plain(q: Requests): (rs: seq<ClientRequest>)
    ensures |rs| == |q| && forall i :: 0 <= i < |q| ==> rs[i] == q[i].request
  {
    seq(|q|, i requires 0 <= i < |q| => q[i].request)
  }

  /** What is published of a sorted buffer. As written the buffer is declared empty inside the loop. */
  function Outgoing(code: Code, q: Requests): Requests {
    if code.AsWritten? && |q| > 1 then q[..1] else q
  }

  /** One client's requests, in order. */
  function OfClient(c: nat, q: Requests): Requests {
    if q == [] then [] else (if q[0].request.clientId == c then [q[0]] else []) + OfClient(c, q[1..])
  }

  lemma {:induction false} OfClientConcat(c: nat, p: Requests, q: Requests)
    ensures OfClient(c, p + q) == OfClient(c, p) + OfClient(c, q)
  {
    if p == [] {
      assert p + q == q;
    } else {
      var x, rest := p[0], p[1..];
      OfClientConcat(c, rest, q);
      OfClientFirst(c, x, rest);
      OfClientFirst(c, x, rest + q);
      assert p == [x] + rest && p + q == [x] + (rest + q);
    }
  }

  lemma {:induction false} OfClientFirst(c: nat, x: RecvTimeClientRequest, q: Requests)
    ensures OfClient(c, [x] + q) == (if x.request.clientId == c then [x] else []) + OfClient(c, q)
  {
  }

  lemma {:induction false} OfClientCounts(c: nat, q: Requests, x: RecvTimeClientRequest)
    ensures multiset(OfClient(c, q))[x] == if x.request.clientId == c then multiset(q)[x] else 0
  {
    if q != [] {
      OfClientCounts(c, q[1..], x);
      assert q == [q[0]] + q[1..];
    }
  }

  lemma {:induction false} OfClientSorted(c: nat, q: Requests)
    requires SortedByTime(q)
    ensures SortedByTime(OfClient(c, q))
    ensures forall x :: x in OfClient(c, q) ==> x in q && x.request.clientId == c
  {
    if q != [] {
      OfClientSorted(c, q[1..]);
    }
  }

  // ---------------------------------------------------------------- sorting

  function Insert(x: RecvTimeClientRequest, q: Requests): Requests {
    if q == [] || x.recvTime <= q[0].recvTime then [x] + q else [q[0]] + Insert(x, q[1..])
  }

  function Sorted(p: Requests): Requests {
    if p == [] then [] else Insert(p[0], Sorted(p[1..]))
  }

  lemma {:induction false} InsertSorts(x: RecvTimeClientRequest, q: Requests)
    requires SortedByTime(q)
    ensures SortedByTime(Insert(x, q)) && multiset(Insert(x, q)) == multiset(q) + multiset{x}
  {
    if q != [] && x.recvTime > q[0].recvTime {
      var rest := q[1..];
      InsertSorts(x, rest);
      assert q == [q[0]] + rest;
      forall y | y in Insert(x, rest) ensures q[0].recvTime <= y.recvTime {
        assert y in multiset(rest) + multiset{x};
      }
      FirstSorted(q[0], Insert(x, rest));
    } else {
      FirstSorted(x, q);
    }
  }

  lemma {:induction false} FirstSorted(x: RecvTimeClientRequest, q: Requests)
    requires SortedByTime(q) && forall y :: y in q ==> x.recvTime <= y.recvTime
    ensures SortedByTime([x] + q)
  {
  }

  lemma {:induction false} SortedPermitted(p: Requests)
    ensures Permitted(p, Sorted(p))
  {
    if p != [] {
      SortedPermitted(p[1..]);
      InsertSorts(p[0], Sorted(p[1..]));
      assert p == [p[0]] + p[1..];
    }
  }

  // ---------------------------------------------------------------- when a client's order survives

  /** Requests of one time are all the same request. */
  ghost predicate TiesEqual(q: Requests) {
    forall i, j :: 0 <= i < j < |q| && q[i].recvTime == q[j].recvTime ==> q[i] == q[j]
  }

  lemma {:induction false} OneFirst(p: Requests, q: Requests)
    requires multiset(p) == multiset(q) && SortedByTime(p) && SortedByTime(q) && TiesEqual(p) && p != [] && q != []
    ensures p[0] == q[0]
  {
    assert p[0] in multiset(q) && q[0] in multiset(p);
    var i :| 0 <= i < |p| && p[i] == q[0];
    var j :| 0 <= j < |q| && q[j] == p[0];
    assert p[0].recvTime <= p[i].recvTime && q[0].recvTime <= q[j].recvTime;
  }

  lemma {:induction false} SameRest(p: Requests, q: Requests)
    requires multiset(p) == multiset(q) && p != [] && q != [] && p[0] == q[0]
    ensures multiset(p[1..]) == multiset(q[1..])
  {
    assert p == [p[0]] + p[1..] && q == [q[0]] + q[1..];
    assert multiset(p[1..]) == multiset(p) - multiset{p[0]};
    assert multiset(q[1..]) == multiset(q) - multiset{q[0]};
  }

  lemma {:induction false} OneSortedOrder(p: Requests, q: Requests)
    requires multiset(p) == multiset(q) && SortedByTime(p) && SortedByTime(q) && TiesEqual(p)
    ensures p == q
  {
    assert |p| == |multiset(p)| == |multiset(q)| == |q|;
    if p != [] {
      OneFirst(p, q);
      SameRest(p, q);
      OneSortedOrder(p[1..], q[1..]);
    }
  }

  lemma {:induction false} OrderSurvives(c: nat, p: Requests, q: Requests)
    requires Permitted(p, q) && SortedByTime(OfClient(c, p)) && TiesEqual(OfClient(c, p))
    ensures OfClient(c, q) == OfClient(c, p)
  {
    forall x ensures multiset(OfClient(c, p))[x] == multiset(OfClient(c, q))[x] {
      OfClientCounts(c, p, x);
      OfClientCounts(c, q, x);
    }
    OfClientSorted(c, q);
    OneSortedOrder(OfClient(c, p), OfClient(c, q));
  }

  lemma {:induction false} SwappedSorted(q: Requests, a: nat, b: nat)
    requires SortedByTime(q) && a < b < |q| && q[a].recvTime == q[b].recvTime
    ensures SortedByTime(q[a := q[b]][b := q[a]])
  {
  }

  lemma {:induction false} SwappedSame(q: Requests, a: nat, b: nat)
    requires a < b < |q|
    ensures multiset(q[a := q[b]][b := q[a]]) == multiset(q)
  {
  }

  lemma {:induction false} SplitAt(c: nat, q: Requests, a: nat)
    requires a < |q| && q[a].request.clientId == c
    ensures OfClient(c, q) == OfClient(c, q[..a]) + ([q[a]] + OfClient(c, q[a + 1..]))
  {
    assert q == q[..a] + q[a..] && q[a..][1..] == q[a + 1..];
    OfClientConcat(c, q[..a], q[a..]);
  }

  /** Two requests of one client and one time may change places. */
  lemma {:induction false} Exchange(c: nat, q: Requests, a: nat, b: nat) returns (q': Requests)
    requires SortedByTime(q) && a < b < |q| && q[a].recvTime == q[b].recvTime && q[a] != q[b]
    requires q[a].request.clientId == c && q[b].request.clientId == c
    ensures Permitted(q, q') && OfClient(c, q') != OfClient(c, q)
  {
    q' := q[a := q[b]][b := q[a]];
    SwappedSorted(q, a, b);
    SwappedSame(q, a, b);
    SplitAt(c, q, a);
    SplitAt(c, q', a);
    assert q'[..a] == q[..a];
    var k := |OfClient(c, q[..a])|;
    assert OfClient(c, q)[k] == q[a] && OfClient(c, q')[k] == q[b];
  }

  lemma {:induction false} OrderMayBreak(c: nat, p: Requests) returns (q: Requests)
    requires !(SortedByTime(OfClient(c, p)) && TiesEqual(OfClient(c, p)))
    ensures Permitted(p, q) && OfClient(c, q) != OfClient(c, p)
  {
    q := Sorted(p);
    SortedPermitted(p);
    OfClientSorted(c, q);
    if OfClient(c, q) == OfClient(c, p) {
      var a, b := TiedPair(c, q);
      q := Exchange(c, q, a, b);
    }
  }

  lemma {:induction false} TiedPair(c: nat, q: Requests) returns (a: nat, b: nat)
    requires SortedByTime(q) && !TiesEqual(OfClient(c, q))
    ensures a < b < |q| && q[a].recvTime == q[b].recvTime && q[a] != q[b]
    ensures q[a].request.clientId == c && q[b].request.clientId == c
  {
    var mine := OfClient(c, q);
    OfClientSorted(c, q);
    var i, j :| 0 <= i < j < |mine| && mine[i].recvTime == mine[j].recvTime && mine[i] != mine[j];
    assert mine[i] in mine && mine[j] in mine;
    var x :| 0 <= x < |q| && q[x] == mine[i];
    var y :| 0 <= y < |q| && q[y] == mine[j];
    a, b := if x < y then x else y, if x < y then y else x;
  }

  /** A client's requests keep their order, whatever the sort does with ties, if and only if they wait in the
      order of their times and no two different ones share a time. */
  lemma {:induction false} OrderSurvivesExactly(c: nat, p: Requests)
    ensures (forall q :: Permitted(p, q) ==> OfClient(c, q) == OfClient(c, p))
              <==> SortedByTime(OfClient(c, p)) && TiesEqual(OfClient(c, p))
  {
    if SortedByTime(OfClient(c, p)) && TiesEqual(OfClient(c, p)) {
      forall q | Permitted(p, q) ensures OfClient(c, q) == OfClient(c, p) {
        OrderSurvives(c, p, q);
      }
    } else {
      var q := OrderMayBreak(c, p);
    }
  }

  /** As written, nothing is lost if and only if at most one request was waiting. */
  lemma {:induction false} NothingLostExactly(code: Code, p: Requests, q: Requests)
    requires Permitted(p, q)
    ensures multiset(Outgoing(code, q)) == multiset(p) <==> code.Repaired? || |p| <= 1
  {
  }

  /** As written, the request with the earliest time goes out, and no other. */
  lemma {:induction false} EarliestOnly(p: Requests, q: Requests)
    requires Permitted(p, q) && p != []
    ensures |q| == |p| && Outgoing(AsWritten, q) == [q[0]]
    ensures q[0] in p && forall x :: x in p ==> q[0].recvTime <= x.recvTime
  {
    assert |p| == |multiset(p)| == |multiset(q)| == |q|;
    assert q[0] in multiset(p);
    forall x | x in p ensures q[0].recvTime <= x.recvTime {
      assert x in multiset(q);
      var i :| 0 <= i < |q| && q[i] == x;
    }
  }

  // ---------------------------------------------------------------- the sequencer in memory

  class FIFOSequencer {
    const code: Code
    const pendingClientRequests: array<RecvTimeClientRequest>
    var pendingSize: nat
    // everything written to the queue of the matching engine
    var published: seq<ClientRequest>

    ghost predicate Valid()
      reads this
    {
      pendingSize <= pendingClientRequests.Length
    }

    ghost function Pending(): Requests
      reads this, pendingClientRequests
      requires Valid()
    {
      pendingClientRequests[..pendingSize]
    }

    constructor (code: Code)
      ensures Valid() && Pending() == [] && published == [] && this.code == code
      ensures pendingClientRequests.Length == ME_MAX_PENDING_REQUESTS && fresh(pendingClientRequests)
    {
      this.code := code;
      pendingClientRequests := new RecvTimeClientRequest[ME_MAX_PENDING_REQUESTS](_ =>
        RecvTimeClientRequest(0, ClientRequest(INVALID_REQUEST, 0, 0, 0, INVALID_SIDE, 0, 0)));
      pendingSize, published := 0, [];
    }

    /** Keeps a request for later; too many waiting ends the process. */
    method AddClientRequest(rxTime: int, request: ClientRequest) returns (ok: bool)
      requires Valid()
      modifies this`pendingSize, pendingClientRequests
      ensures Valid() && (ok <==> |old(Pending())| < pendingClientRequests.Length)
      ensures Pending() == old(Pending()) + if ok then [RecvTimeClientRequest(rxTime, request)] else []
    {
      if pendingSize >= pendingClientRequests.Length {
        return false;
      }
      pendingClientRequests[pendingSize] := RecvTimeClientRequest(rxTime, request);
      pendingSize := pendingSize + 1;
      ok := true;
    }

    /** The sort of the library: of equal times it promises no order. */
    method Sort()
      requires Valid()
      modifies pendingClientRequests
      ensures Permitted(old(Pending()), Pending())
    {
      var sorted := Sorted(pendingClientRequests[..pendingSize]);
      SortedPermitted(Pending());
      assert |sorted| == |multiset(sorted)| == |multiset(Pending())| == pendingSize;
      for i := 0 to pendingSize
        invariant pendingClientRequests[..i] == sorted[..i]
      {
        pendingClientRequests[i] := sorted[i];
      }
      assert Pending() == sorted;
    }

    /** Publishes what waits, by receive time, and empties the buffer. */
    method SequenceAndPublish() returns (ghost order: Requests)
      requires Valid()
      modifies this`pendingSize, this`published, pendingClientRequests
      ensures Valid() && Pending() == []
      ensures Permitted(old(Pending()), order)
      ensures published == old(published) + Plain(Outgoing(code, order))
    {
      order := Pending();
      if pendingSize == 0 {
        return;
      }
      Sort();
      order := Pending();
      ghost var before, n := published, pendingSize;
      var i := 0;
      while i < pendingSize
        invariant i <= |order| == n && pendingClientRequests[..n] == order
        invariant pendingSize == if code.AsWritten? && i > 0 then 0 else n
        invariant code.AsWritten? ==> i <= 1
        invariant published == before + Plain(order[..i])
        decreases |order| - i
      {
        published := published + [pendingClientRequests[i].request];
        assert Plain(order[..i + 1]) == Plain(order[..i]) + [order[i].request];
        if code.AsWritten? {
          pendingSize := 0;
        }
        i := i + 1;
      }
      if code.Repaired? {
        pendingSize := 0;
      }
      assert order[..i] == Outgoing(code, order);
    }
  }
}

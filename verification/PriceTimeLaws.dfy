/** What price-time matching means, independently of how it is computed: a closed form for every fill,
    and conservation of quantity over whole runs. */
module PriceTimeLaws {
  import opened Types
  import opened PriceTime
  import opened PriceTimeInvariant

  // ---------------------------------------------------------------- a closed form for matching

  function Total(q: seq<MEOrder>): nat {
    if q == [] then 0 else q[0].qty + Total(q[1..])
  }

  /** Everything on the queue that the limit allows, wherever it stands. */
  function Crossable(r: ClientRequest, q: seq<MEOrder>): nat {
    if q == [] then 0
    else
      var within := if r.side == BUY then q[0].price <= r.price else q[0].price >= r.price;
      (if within then q[0].qty else 0) + Crossable(r, q[1..])
  }

  /** What position `i` gives up: its quantity, as far as the orders ahead of it leave any demand. */
  function Taken(r: ClientRequest, q: seq<MEOrder>, leaves: nat, i: nat): nat
    requires i < |q|
  {
    var within := if r.side == BUY then q[i].price <= r.price else q[i].price >= r.price;
    if !within || leaves <= Total(q[..i]) then 0 else Min(q[i].qty, leaves - Total(q[..i]))
  }

  /** The i-th trade is with the i-th order of the queue, for what the closed form gives. */
  ghost predicate TradedAt(r: ClientRequest, id: nat, q: seq<MEOrder>, leaves: nat, m: Matched, i: nat)
    requires i < |q|
  {
    var t := Taken(r, q, leaves, i);
    && 0 < t <= q[i].qty
    && Total(q[..i]) + t <= leaves
    && 2 * i + 1 < |m.updates| && 2 * i + 1 < |m.responses|
    && m.updates[2 * i] == Trade(r, q[i], t)
    && m.updates[2 * i + 1] == MakerUpdate(r, q[i], t)
    && m.responses[2 * i] == TakerFill(r, id, q[i], t, leaves - Total(q[..i]) - t)
    && m.responses[2 * i + 1] == MakerFill(r, q[i], t)
  }

  /** The i-th order survives, smaller by what it traded. */
  ghost predicate KeptAt(r: ClientRequest, q: seq<MEOrder>, leaves: nat, m: Matched, i: nat)
    requires i < |q| && |m.queue| <= |q| <= |m.queue| + i
  {
    var t := Taken(r, q, leaves, i);
    t < q[i].qty && m.queue[i - (|q| - |m.queue|)] == q[i].(qty := q[i].qty - t)
  }

  /** A match, position by position: the first `n` orders trade, strictly in queue order; the first
      `gone` of them are used up; everything else stays in its place. */
  ghost predicate FilledExactly(r: ClientRequest, id: nat, q: seq<MEOrder>, leaves: nat, m: Matched) {
    var n := |m.updates| / 2;
    var gone := |q| - |m.queue|;
    && |m.updates| == |m.responses| == 2 * n
    && 0 <= gone <= n <= |q|
    && (forall i :: 0 <= i < n ==> TradedAt(r, id, q, leaves, m, i))
    && (forall i :: n <= i < |q| ==> Taken(r, q, leaves, i) == 0)
    && (forall i :: 0 <= i < gone ==> Taken(r, q, leaves, i) == q[i].qty)
    && (forall i :: gone <= i < |q| ==> KeptAt(r, q, leaves, m, i))
  }

  lemma {:induction false} TakenAfterFirst(r: ClientRequest, q: seq<MEOrder>, leaves: nat, i: nat)
    requires q != [] && i < |q| - 1 && q[0].qty <= leaves
    ensures Taken(r, q, leaves, i + 1) == Taken(r, q[1..], leaves - q[0].qty, i)
    ensures Total(q[..i + 1]) == q[0].qty + Total(q[1..][..i])
  {
    assert q[..i + 1][1..] == q[1..][..i];
  }

  lemma {:induction false} NothingCrosses(r: ClientRequest, q: seq<MEOrder>, side: Side)
    requires Sorted(q, side) && side == Opposite(r.side) && IsSide(side)
    requires q != [] ==> !Crosses(r.side, r.price, q[0].price)
    ensures Crossable(r, q) == 0
    ensures forall i :: 0 <= i < |q| ==> !Crosses(r.side, r.price, q[i].price)
  {
    if q != [] {
      assert |q| > 1 ==> Ahead(side, q[0], q[1]);
      assert forall i, j :: 0 <= i < j < |q[1..]| ==> q[1..][i] == q[i + 1] && q[1..][j] == q[j + 1];
      NothingCrosses(r, q[1..], side);
      assert forall i :: 0 < i < |q| ==> q[i] == q[1..][i - 1];
    }
  }

  lemma {:induction false} TotalGrows(q: seq<MEOrder>, i: nat)
    requires 0 < i <= |q|
    ensures Total(q[..i]) >= q[0].qty
  {
  }

  lemma {:induction false} FilledFirst(r: ClientRequest, id: nat, q: seq<MEOrder>, leaves: nat)
    requires q != [] && q[0].qty > leaves > 0 && Crosses(r.side, r.price, q[0].price) && Positive(q)
    ensures FilledExactly(r, id, q, leaves, Match(r, id, q, leaves))
    ensures Match(r, id, q, leaves).leaves == 0
  {
    var m := Match(r, id, q, leaves);
    var q' := AfterFill(q, leaves);
    assert Match(r, id, q', 0) == Matched(q', 0, [], []);
    assert m.queue == q';
    assert q[..0] == [];
    assert TradedAt(r, id, q, leaves, m, 0);
    forall i | 0 < i < |q| ensures Taken(r, q, leaves, i) == 0 && KeptAt(r, q, leaves, m, i) {
      TotalGrows(q, i);
    }
  }

  lemma {:induction false} TradedNext(r: ClientRequest, id: nat, q: seq<MEOrder>, leaves: nat, m: Matched,
                                      rest: Matched, i: nat)
    requires q != [] && q[0].qty <= leaves && 0 < i < |q|
    requires |m.updates| == |rest.updates| + 2 && |m.responses| == |rest.responses| + 2
    requires m.updates[2..] == rest.updates && m.responses[2..] == rest.responses
    requires TradedAt(r, id, q[1..], leaves - q[0].qty, rest, i - 1)
    ensures TradedAt(r, id, q, leaves, m, i)
  {
    TakenAfterFirst(r, q, leaves, i - 1);
    var j := 2 * (i - 1);
    assert m.updates[2..][j] == m.updates[2 * i] && m.updates[2..][j + 1] == m.updates[2 * i + 1];
    assert m.responses[2..][j] == m.responses[2 * i] && m.responses[2..][j + 1] == m.responses[2 * i + 1];
  }

  lemma {:induction false} FilledNext(r: ClientRequest, id: nat, q: seq<MEOrder>, leaves: nat, m: Matched,
                                      rest: Matched)
    requires q != [] && 0 < q[0].qty <= leaves && Crosses(r.side, r.price, q[0].price)
    requires m == Matched(rest.queue, rest.leaves,
                          [TakerFill(r, id, q[0], q[0].qty, leaves - q[0].qty), MakerFill(r, q[0], q[0].qty)]
                            + rest.responses,
                          [Trade(r, q[0], q[0].qty), MakerUpdate(r, q[0], q[0].qty)] + rest.updates)
    requires FilledExactly(r, id, q[1..], leaves - q[0].qty, rest)
    ensures FilledExactly(r, id, q, leaves, m)
  {
    var p, l := q[1..], leaves - q[0].qty;
    assert m.updates[2..] == rest.updates && m.responses[2..] == rest.responses;
    assert Taken(r, q, leaves, 0) == q[0].qty by { assert q[..0] == []; }
    assert TradedAt(r, id, q, leaves, m, 0) by { assert q[..0] == []; }
    var n := |m.updates| / 2;
    var gone := |q| - |m.queue|;
    forall i | 0 < i < |q| ensures Taken(r, q, leaves, i) == Taken(r, p, l, i - 1) {
      TakenAfterFirst(r, q, leaves, i - 1);
    }
    forall i | 0 <= i < n ensures TradedAt(r, id, q, leaves, m, i) {
      if i > 0 {
        assert TradedAt(r, id, p, l, rest, i - 1);
        TradedNext(r, id, q, leaves, m, rest, i);
      }
    }
    forall i | gone <= i < |q| ensures KeptAt(r, q, leaves, m, i) {
      assert KeptAt(r, p, l, rest, i - 1);
    }
  }

  lemma {:induction false} FilledNone(r: ClientRequest, id: nat, q: seq<MEOrder>, leaves: nat)
    requires Positive(q)
    requires leaves == 0 || forall i :: 0 <= i < |q| ==> !Crosses(r.side, r.price, q[i].price)
    ensures Match(r, id, q, leaves) == Matched(q, leaves, [], [])
    ensures FilledExactly(r, id, q, leaves, Matched(q, leaves, [], []))
  {
  }

  /** The quantity left over is the demand minus everything within the limit, wherever it stood. */
  lemma {:induction false} MatchLeaves(r: ClientRequest, id: nat, q: seq<MEOrder>, leaves: nat)
    requires IsSide(r.side) && Sorted(q, Opposite(r.side))
    ensures Match(r, id, q, leaves).leaves == leaves - Min(leaves, Crossable(r, q))
    decreases |q|, leaves
  {
    if leaves == 0 {
    } else if q == [] || !Crosses(r.side, r.price, q[0].price) {
      NothingCrosses(r, q, Opposite(r.side));
    } else if q[0].qty > leaves {
      assert Match(r, id, AfterFill(q, leaves), 0).leaves == 0;
    } else {
      assert forall i :: 0 <= i < |q[1..]| ==> q[1..][i] == q[i + 1];
      MatchLeaves(r, id, q[1..], leaves - q[0].qty);
    }
  }

  /** Price-time priority, exactly: every trade, every response and every surviving order, as functions
      of the queue before the match. */
  lemma {:induction false} MatchClosedForm(r: ClientRequest, id: nat, q: seq<MEOrder>, leaves: nat)
    requires IsSide(r.side) && Sorted(q, Opposite(r.side)) && Positive(q)
    ensures FilledExactly(r, id, q, leaves, Match(r, id, q, leaves))
    decreases |q|, leaves
  {
    if leaves == 0 {
      FilledNone(r, id, q, leaves);
    } else if q == [] || !Crosses(r.side, r.price, q[0].price) {
      NothingCrosses(r, q, Opposite(r.side));
      FilledNone(r, id, q, leaves);
    } else if q[0].qty > leaves {
      FilledFirst(r, id, q, leaves);
    } else {
      var p := q[1..];
      assert forall i :: 0 <= i < |p| ==> p[i] == q[i + 1];
      MatchClosedForm(r, id, p, leaves - q[0].qty);
      FilledNext(r, id, q, leaves, Match(r, id, q, leaves), Match(r, id, p, leaves - q[0].qty));
    }
  }

  /** Fills stay within the limit, and their prices only move away from the best. */
  lemma {:induction false} FillPrices(r: ClientRequest, id: nat, q: seq<MEOrder>, leaves: nat, i: nat, j: nat)
    requires IsSide(r.side) && Sorted(q, Opposite(r.side)) && Positive(q)
    requires i < j < |Match(r, id, q, leaves).updates| / 2
    ensures var u := Match(r, id, q, leaves).updates;
            && |u| <= 2 * |q|
            && (if r.side == BUY then u[2 * i].price <= u[2 * j].price <= r.price
                else u[2 * i].price >= u[2 * j].price >= r.price)
            && (u[2 * i].price == u[2 * j].price ==> q[i].priority < q[j].priority)
  {
    MatchClosedForm(r, id, q, leaves);
    var m := Match(r, id, q, leaves);
    assert TradedAt(r, id, q, leaves, m, i) && TradedAt(r, id, q, leaves, m, j);
    assert Ahead(Opposite(r.side), q[i], q[j]);
  }

  // ---------------------------------------------------------------- runs

  ghost predicate RunAdmissible(b: Book, rs: seq<ClientRequest>, ticker: nat)
    decreases |rs|
  {
    rs != [] ==> Admissible(b, rs[0], ticker) && RunAdmissible(Process(b, rs[0]).book, rs[1..], ticker)
  }

  function Run(b: Book, rs: seq<ClientRequest>): Result
    requires forall i :: 0 <= i < |rs| ==> !rs[i].kind.INVALID_REQUEST?
    decreases |rs|
  {
    if rs == [] then Result(b, [], [])
    else
      var x := Process(b, rs[0]);
      var y := Run(x.book, rs[1..]);
      Result(y.book, x.responses + y.responses, x.updates + y.updates)
  }

  lemma {:induction false} RunWF(b: Book, rs: seq<ClientRequest>, ticker: nat)
    requires WF(b, ticker) && RunAdmissible(b, rs, ticker)
    ensures forall i :: 0 <= i < |rs| ==> !rs[i].kind.INVALID_REQUEST?
    ensures WF(Run(b, rs).book, ticker)
    decreases |rs|
  {
    if rs != [] {
      ProcessWF(b, rs[0], ticker);
      RunWF(Process(b, rs[0]).book, rs[1..], ticker);
      assert forall i :: 0 < i < |rs| ==> rs[i] == rs[1..][i - 1];
    }
  }

  // ---------------------------------------------------------------- conservation

  function AcceptedQty(cs: seq<ClientResponse>, side: Side): nat {
    if cs == [] then 0
    else (if cs[0].kind.ACCEPTED? && cs[0].side == side then cs[0].leavesQty else 0) + AcceptedQty(cs[1..], side)
  }

  function CanceledQty(cs: seq<ClientResponse>, side: Side): nat {
    if cs == [] then 0
    else (if cs[0].kind.CANCELED? && cs[0].side == side then cs[0].leavesQty else 0) + CanceledQty(cs[1..], side)
  }

  function TradedQty(us: seq<MarketUpdate>): nat {
    if us == [] then 0
    else (if us[0].kind.TRADE? then us[0].qty else 0) + TradedQty(us[1..])
  }

  lemma {:induction false} ResponseSums(cs: seq<ClientResponse>, ds: seq<ClientResponse>, side: Side)
    ensures AcceptedQty(cs + ds, side) == AcceptedQty(cs, side) + AcceptedQty(ds, side)
    ensures CanceledQty(cs + ds, side) == CanceledQty(cs, side) + CanceledQty(ds, side)
    decreases |cs|
  {
    if cs == [] {
      assert cs + ds == ds;
    } else {
      assert (cs + ds)[1..] == cs[1..] + ds;
      ResponseSums(cs[1..], ds, side);
    }
  }

  lemma {:induction false} TradeSums(us: seq<MarketUpdate>, vs: seq<MarketUpdate>)
    ensures TradedQty(us + vs) == TradedQty(us) + TradedQty(vs)
    decreases |us|
  {
    if us == [] {
      assert us + vs == vs;
    } else {
      assert (us + vs)[1..] == us[1..] + vs;
      TradeSums(us[1..], vs);
    }
  }

  lemma {:induction false} MatchConserves(r: ClientRequest, id: nat, q: seq<MEOrder>, leaves: nat)
    ensures var m := Match(r, id, q, leaves);
            && Total(m.queue) + TradedQty(m.updates) == Total(q)
            && m.leaves + TradedQty(m.updates) == leaves
    decreases |q|, leaves
  {
    if !(leaves == 0 || q == [] || !Crosses(r.side, r.price, q[0].price)) {
      var fill := Min(q[0].qty, leaves);
      MatchConserves(r, id, AfterFill(q, fill), leaves - fill);
      var m, rest := Match(r, id, q, leaves), Match(r, id, AfterFill(q, fill), leaves - fill);
      var us := [Trade(r, q[0], fill), MakerUpdate(r, q[0], fill)];
      TradeSums(us, rest.updates);
      assert TradedQty(us) == fill + TradedQty(us[1..]);
    }
  }

  lemma {:induction false} MatchOnlyFills(r: ClientRequest, id: nat, q: seq<MEOrder>, leaves: nat, side: Side)
    ensures AcceptedQty(Match(r, id, q, leaves).responses, side) == 0
    ensures CanceledQty(Match(r, id, q, leaves).responses, side) == 0
    decreases |q|, leaves
  {
    if !(leaves == 0 || q == [] || !Crosses(r.side, r.price, q[0].price)) {
      var fill := Min(q[0].qty, leaves);
      MatchOnlyFills(r, id, AfterFill(q, fill), leaves - fill, side);
      ResponseSums([TakerFill(r, id, q[0], fill, leaves - fill), MakerFill(r, q[0], fill)],
                   Match(r, id, AfterFill(q, fill), leaves - fill).responses, side);
    }
  }

  lemma {:induction false} InsertTotal(q: seq<MEOrder>, o: MEOrder)
    ensures Total(Insert(q, o)) == Total(q) + o.qty
  {
    if !(q == [] || Better(o.side, o.price, q[0].price)) {
      InsertTotal(q[1..], o);
    }
  }

  lemma {:induction false} WithoutTotal(q: seq<MEOrder>, key: (nat, nat))
    requires forall i, j :: 0 <= i < j < |q| ==> Differ(q[i], q[j])
    ensures Total(q) == Total(Without(q, key)) + if Lookup(q, key).Some? then Lookup(q, key).value.qty else 0
  {
    if q != [] {
      var p := q[1..];
      assert forall i :: 0 <= i < |p| ==> p[i] == q[i + 1];
      if q[0].Key() == key {
        forall i | 0 <= i < |p| ensures p[i].Key() != key { assert Differ(q[0], q[i + 1]); }
        WithoutAbsent(p, key);
        assert Without(q, key) == p;
      } else {
        WithoutTotal(p, key);
      }
    }
  }

  /** Searching both queues finds what searching the right one finds. */
  lemma {:induction false} LookupConcat(p: seq<MEOrder>, q: seq<MEOrder>, key: (nat, nat))
    ensures Lookup(p + q, key) == if Lookup(p, key).Some? then Lookup(p, key) else Lookup(q, key)
    decreases |p|
  {
    if p == [] {
      assert p + q == q;
    } else {
      assert (p + q)[1..] == p[1..] + q;
      LookupConcat(p[1..], q, key);
    }
  }

  /** What one request puts in equals what it leaves resting, plus what traded, plus what was taken back. */
  ghost predicate Balanced(b: Book, x: Result, side: Side) {
    Total(Queue(b, side)) + AcceptedQty(x.responses, side)
      == Total(Queue(x.book, side)) + TradedQty(x.updates) + CanceledQty(x.responses, side)
  }

  lemma {:induction false} AddBalanced(b: Book, r: ClientRequest, side: Side)
    requires IsSide(r.side) && IsSide(side)
    ensures Balanced(b, Add(b, r), side)
  {
    var m := MatchOf(b, r, b.nextId);
    MatchConserves(r, b.nextId, Queue(b, Opposite(r.side)), r.qty);
    MatchOnlyFills(r, b.nextId, Queue(b, Opposite(r.side)), r.qty, side);
    ResponseSums([Accepted(r, b.nextId)], m.responses, side);
    if m.leaves > 0 {
      var o := Remainder(b, r, m.leaves);
      InsertTotal(Queue(b, r.side), o);
      TradeSums(m.updates, [AddUpdate(o)]);
    }
  }

  lemma {:induction false} CancelBalanced(b: Book, r: ClientRequest, side: Side, ticker: nat)
    requires WF(b, ticker) && IsSide(side)
    ensures Balanced(b, Cancel(b, r), side)
  {
    var key := (r.clientId, r.orderId);
    WithoutTotal(b.bids, key);
    WithoutTotal(b.asks, key);
    LookupConcat(b.bids, b.asks, key);
    FoundSide(b, key, ticker);
    var found := Lookup(b.bids + b.asks, key);
    if found.Some? {
      OneCancel(r, found.value, side);
    } else {
      OneReject(r, side);
    }
  }

  /** A key is found on the side of its order, and on that side only. */
  lemma {:induction false} FoundSide(b: Book, key: (nat, nat), ticker: nat)
    requires WF(b, ticker)
    ensures Lookup(b.bids, key).Some? ==> Lookup(b.bids, key).value.side == BUY && Lookup(b.asks, key).None?
    ensures Lookup(b.asks, key).Some? ==> Lookup(b.asks, key).value.side == SELL
  {
  }

  lemma {:induction false} OneCancel(r: ClientRequest, o: MEOrder, side: Side)
    ensures AcceptedQty([Canceled(r, o)], side) == 0 && TradedQty([CancelUpdate(r, o)]) == 0
    ensures CanceledQty([Canceled(r, o)], side) == if o.side == side then o.qty else 0
  {
  }

  lemma {:induction false} OneReject(r: ClientRequest, side: Side)
    ensures AcceptedQty([Rejected(r)], side) == 0 && CanceledQty([Rejected(r)], side) == 0 && TradedQty([]) == 0
  {
  }

  /** Conservation over whole runs, per side: all quantity ever accepted is resting, traded or cancelled. */
  lemma {:induction false} Conservation(b: Book, rs: seq<ClientRequest>, side: Side, ticker: nat)
    requires WF(b, ticker) && RunAdmissible(b, rs, ticker) && IsSide(side)
    requires forall i :: 0 <= i < |rs| ==> !rs[i].kind.INVALID_REQUEST?
    ensures Balanced(b, Run(b, rs), side)
    decreases |rs|
  {
    if rs != [] {
      var x := Process(b, rs[0]);
      if rs[0].kind.NEW_ORDER? { AddBalanced(b, rs[0], side); } else { CancelBalanced(b, rs[0], side, ticker); }
      ProcessWF(b, rs[0], ticker);
      Conservation(x.book, rs[1..], side, ticker);
      var y := Run(x.book, rs[1..]);
      ResponseSums(x.responses, y.responses, side);
      TradeSums(x.updates, y.updates);
    }
  }
}

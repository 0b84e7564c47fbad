/** The matching engine: one order book per ticker, requests dispatched in the order they arrive, and all
    books writing into the same outgoing queues. */
module MatchingEngine {
  import opened Types
  import opened PriceTime
  import PriceTimeInvariant
  import opened BookCapacity
  import opened OrderBook

  // ---------------------------------------------------------------- the simple engine

  datatype Outcome = Outcome(books: seq<PriceTime.Book>, responses: seq<ClientResponse>, updates: seq<MarketUpdate>)

  /** What the engine asks of every request: a ticker it has a book for, and a side for a new order. */
  predicate Addressed(tickers: nat, r: ClientRequest) {
    r.tickerId < tickers && (r.kind.NEW_ORDER? ==> IsSide(r.side))
  }

  predicate Dispatchable(books: seq<PriceTime.Book>, r: ClientRequest) {
    Addressed(|books|, r) && !r.kind.INVALID_REQUEST?
  }

  function StepAll(books: seq<PriceTime.Book>, r: ClientRequest): Outcome
    requires Dispatchable(books, r)
  {
    var x := Process(books[r.tickerId], r);
    Outcome(books[r.tickerId := x.book], x.responses, x.updates)
  }

  function RunAll(books: seq<PriceTime.Book>, rs: seq<ClientRequest>): Outcome
    decreases |rs|
  {
    if rs == [] || !Dispatchable(books, rs[0]) then Outcome(books, [], [])
    else
      var x := StepAll(books, rs[0]);
      var y := RunAll(x.books, rs[1..]);
      Outcome(y.books, x.responses + y.responses, x.updates + y.updates)
  }

  function EmptyBooks(tickers: nat): (books: seq<PriceTime.Book>)
    ensures |books| == tickers && forall t :: 0 <= t < tickers ==> books[t] == EMPTY
  {
    seq(tickers, _ => EMPTY)
  }

  ghost predicate AllWF(books: seq<PriceTime.Book>) {
    forall i :: 0 <= i < |books| ==> WF(books[i], i)
  }

  // ---------------------------------------------------------------- how far a run gets

  /** Whether the program outlives a request: an invalid one ends it, and so does a cancel of an order id outside
      the client table, or a remainder that finds no place. */
  predicate StepSurvives(cap: Capacity, b: PriceTime.Book, r: ClientRequest) {
    match r.kind
    case NEW_ORDER => Survives(cap, b, r)
    case CANCEL_ORDER => Cancellable(r)
    case INVALID_REQUEST => false
  }

  /** How many requests of a run are processed before one ends the program. */
  function Survived(cap: Capacity, books: seq<PriceTime.Book>, rs: seq<ClientRequest>): (n: nat)
    ensures n <= |rs|
    decreases |rs|
  {
    if rs == [] || !Dispatchable(books, rs[0]) || !StepSurvives(cap, books[rs[0].tickerId], rs[0]) then 0
    else 1 + Survived(cap, StepAll(books, rs[0]).books, rs[1..])
  }

  /** What a request that ends the program has sent by then. */
  function LastWords(code: Code, b: PriceTime.Book, r: ClientRequest): (seq<ClientResponse>, seq<MarketUpdate>) {
    var id := ReportedId(code, b.nextId);
    if r.kind.NEW_ORDER? then (AddReporting(b, r, id).responses, MatchOf(b, r, id).updates) else ([], [])
  }

  /** What a request that does not end the program has sent, whether or not its remainder may rest. */
  function Words(code: Code, b: PriceTime.Book, r: ClientRequest): (seq<ClientResponse>, seq<MarketUpdate>) {
    var x, said := PriceTime.Cancel(b, r), LastWords(code, b, r);
    if r.kind.NEW_ORDER? then (said.0, said.1 + AddsTo(b, r, MatchOf(b, r, 0).leaves)) else (x.responses, x.updates)
  }

  predicate StepMayRest(code: Code, b: PriceTime.Book, r: ClientRequest) {
    r.kind.NEW_ORDER? ==> MayRest(code, b, r) && (code.Repaired? || b.nextId < QTY_MODULUS)
  }

  /** Every request that is reached may be processed in the state it meets: it is for a book of the engine,
      its remainder may rest, and the id it is given still fits where the program passes it on. */
  ghost predicate RunMayRest(code: Code, cap: Capacity, books: seq<PriceTime.Book>, rs: seq<ClientRequest>)
    decreases |rs|
  {
    rs != [] ==>
      && Addressed(|books|, rs[0])
      && StepMayRest(code, books[rs[0].tickerId], rs[0])
      && (StepSurvives(cap, books[rs[0].tickerId], rs[0]) ==>
            RunMayRest(code, cap, StepAll(books, rs[0]).books, rs[1..]))
  }

  /** What was sent before and since, followed by what the rest of the run will send, is what the whole
      run sends. */
  ghost predicate Leads(full: Outcome, cs0: seq<ClientResponse>, us0: seq<MarketUpdate>,
                        cs: seq<ClientResponse>, us: seq<MarketUpdate>, rest: Outcome) {
    && rest.books == full.books
    && cs0 + full.responses == cs + rest.responses
    && us0 + full.updates == us + rest.updates
  }

  lemma {:induction false} Unroll(full: Outcome, cs0: seq<ClientResponse>, us0: seq<MarketUpdate>,
                                  cs: seq<ClientResponse>,
                                  us: seq<MarketUpdate>, books: seq<PriceTime.Book>, rs: seq<ClientRequest>)
    requires rs != [] && Dispatchable(books, rs[0]) && Leads(full, cs0, us0, cs, us, RunAll(books, rs))
    ensures var x := StepAll(books, rs[0]);
            Leads(full, cs0, us0, cs + x.responses, us + x.updates, RunAll(x.books, rs[1..]))
  {
    var x := StepAll(books, rs[0]);
    var y := RunAll(x.books, rs[1..]);
    assert cs + (x.responses + y.responses) == (cs + x.responses) + y.responses;
    assert us + (x.updates + y.updates) == (us + x.updates) + y.updates;
  }

  lemma {:induction false} Finished(full: Outcome, cs0: seq<ClientResponse>, us0: seq<MarketUpdate>,
                                    cs: seq<ClientResponse>, us: seq<MarketUpdate>, books: seq<PriceTime.Book>)
    requires Leads(full, cs0, us0, cs, us, RunAll(books, []))
    ensures full.books == books && cs == cs0 + full.responses && us == us0 + full.updates
  {
  }

  /** A run cut off where it is ends there too. */
  lemma {:induction false} CutShort(cap: Capacity, books: seq<PriceTime.Book>, rs: seq<ClientRequest>)
    ensures var n := Survived(cap, books, rs);
            Survived(cap, books, rs[..n]) == n
            && (n < |rs| && Dispatchable(RunAll(books, rs[..n]).books, rs[n]) ==>
                  !StepSurvives(cap, RunAll(books, rs[..n]).books[rs[n].tickerId], rs[n]))
    decreases |rs|
  {
    var n := Survived(cap, books, rs);
    if n > 0 {
      var x := StepAll(books, rs[0]);
      assert rs[..n][0] == rs[0] && rs[..n][1..] == rs[1..][..n - 1];
      CutShort(cap, x.books, rs[1..]);
    }
  }

  /** An id that fits 32 bits is reported as it is. */
  lemma {:induction false} ReportsTrueId(code: Code, b: PriceTime.Book, r: ClientRequest)
    requires StepMayRest(code, b, r) && r.kind.NEW_ORDER?
    ensures AddReporting(b, r, ReportedId(code, b.nextId)) == Process(b, r)
    ensures MatchOf(b, r, ReportedId(code, b.nextId)) == MatchOf(b, r, b.nextId)
  {
  }

  lemma {:induction false} SameLeaves(b: PriceTime.Book, r: ClientRequest, id: nat)
    ensures MatchOf(b, r, id).leaves == MatchOf(b, r, 0).leaves
  {
    PriceTimeInvariant.MatchIgnoresId(r, id, 0, Queue(b, Opposite(r.side)), r.qty);
  }

  // ---------------------------------------------------------------- the engine in memory

  /** A fresh, empty book per ticker. */
  method NewBooks(code: Code, out: Outbox, tickers: nat, maxLevels: nat, maxOrders: nat) returns (bs: seq<MEOrderBook>)
    requires maxLevels > 0 && maxOrders > 0
    ensures |bs| == tickers
    ensures forall i :: 0 <= i < |bs| ==> fresh(bs[i].Repr()) && out !in bs[i].Repr()
    ensures forall i :: 0 <= i < |bs| ==> bs[i].Valid() && bs[i].Book() == PriceTime.EMPTY
    ensures forall i :: 0 <= i < |bs| ==> bs[i].tickerId == i && bs[i].out == out && bs[i].code == code
                                          && bs[i].Room() == Capacity(maxOrders, maxLevels)
    ensures forall i, j :: 0 <= i < j < |bs| ==> bs[i].Repr() !! bs[j].Repr()
  {
    bs := [];
    while |bs| < tickers
      invariant |bs| <= tickers
      invariant forall i :: 0 <= i < |bs| ==> fresh(bs[i].Repr()) && out !in bs[i].Repr()
      invariant forall i :: 0 <= i < |bs| ==> bs[i].Valid() && bs[i].Book() == PriceTime.EMPTY
      invariant forall i :: 0 <= i < |bs| ==> bs[i].tickerId == i && bs[i].out == out && bs[i].code == code
                                              && bs[i].Room() == Capacity(maxOrders, maxLevels)
      invariant forall i, j :: 0 <= i < j < |bs| ==> bs[i].Repr() !! bs[j].Repr()
    {
      var b := new MEOrderBook(code, |bs|, out, maxLevels, maxOrders);
      bs := bs + [b];
    }
  }

  class MatchingEngine {
    const code: Code
    const out: Outbox
    const books: seq<MEOrderBook>
    const capacity: Capacity

    ghost function Footprint(): set<object> {
      set i, o | 0 <= i < |books| && o in books[i].Repr() :: o
    }

    ghost predicate Separate() {
      && out !in Footprint()
      && (forall i :: 0 <= i < |books| ==>
            books[i].tickerId == i && books[i].out == out && books[i].code == code && books[i].Room() == capacity)
      && (forall i, j :: 0 <= i < j < |books| ==> books[i].Repr() !! books[j].Repr())
    }

    ghost predicate Valid()
      reads Footprint()
    {
      Separate() && forall i :: 0 <= i < |books| ==> ValidAt(i)
    }

    ghost predicate ValidAt(i: nat)
      requires i < |books|
      reads books[i].Repr()
    {
      books[i].Valid()
    }

    ghost function Books(): (bs: seq<PriceTime.Book>)
      reads Footprint()
      ensures |bs| == |books|
    {
      assert forall i :: 0 <= i < |books| ==> books[i] in books[i].Repr();
      seq(|books|, i requires 0 <= i < |books| reads Footprint() => books[i].Book())
    }

    constructor (code: Code, out: Outbox, tickers: nat, maxLevels: nat, maxOrders: nat)
      requires maxLevels > 0 && maxOrders > 0
      ensures Valid() && fresh(Footprint())
      ensures this.code == code && this.out == out && |books| == tickers && capacity == Capacity(maxOrders, maxLevels)
      ensures forall i :: 0 <= i < tickers ==> Books()[i] == PriceTime.EMPTY
    {
      this.code, this.out, this.capacity := code, out, Capacity(maxOrders, maxLevels);
      var bs := NewBooks(code, out, tickers, maxLevels, maxOrders);
      books := bs;
    }

    /** Hands a request to its ticker's book. The process ends (`ok` is false) exactly when the simple engine
        says so. */
    method ProcessClientRequest(r: ClientRequest) returns (ok: bool)
      requires Valid() && Addressed(|books|, r)
      modifies Footprint(), out
      ensures ok <==> StepSurvives(capacity, old(Books())[r.tickerId], r)
      ensures var b := old(Books())[r.tickerId];
              var said := if ok then Words(code, b, r) else LastWords(code, b, r);
              out.responses == old(out.responses) + said.0 && out.updates == old(out.updates) + said.1
      ensures forall t :: 0 <= t < |books| && t != r.tickerId ==> ValidAt(t) && Books()[t] == old(Books())[t]
      ensures ok && StepMayRest(code, old(Books())[r.tickerId], r) ==>
                var x := StepAll(old(Books()), r);
                && Valid() && Books() == x.books
                && out.responses == old(out.responses) + x.responses
                && out.updates == old(out.updates) + x.updates
    {
      PartOfFootprint(r.tickerId);
      ok := DispatchAmong(r);
    }

    /** The other books are as they were. */
    method DispatchAmong(r: ClientRequest) returns (ok: bool)
      requires Valid() && Addressed(|books|, r)
      modifies books[r.tickerId].Repr(), out
      ensures var b := old(Books())[r.tickerId];
              && (ok <==> StepSurvives(capacity, b, r))
              && (ok && StepMayRest(code, b, r) ==>
                    var x := Process(b, r);
                    && Valid() && Books() == old(Books())[r.tickerId := x.book]
                    && out.responses == old(out.responses) + x.responses
                    && out.updates == old(out.updates) + x.updates)
              && var said := if ok then Words(code, b, r) else LastWords(code, b, r);
              out.responses == old(out.responses) + said.0 && out.updates == old(out.updates) + said.1
      ensures forall t :: 0 <= t < |books| && t != r.tickerId ==> ValidAt(t) && Books()[t] == old(Books())[t]
    {
      ok := Dispatch(r);
      OthersKept(r.tickerId);
      OnlyBook(r.tickerId);
    }

    /** The switch over the request's type, in terms of its own book. */
    method Dispatch(r: ClientRequest) returns (ok: bool)
      requires Valid() && Addressed(|books|, r)
      modifies books[r.tickerId].Repr(), out
      ensures var b := old(books[r.tickerId].Book());
              && (ok <==> StepSurvives(capacity, b, r))
              && (ok && StepMayRest(code, b, r) ==>
                    var x := Process(b, r);
                    && ValidAt(r.tickerId) && books[r.tickerId].Book() == x.book
                    && out.responses == old(out.responses) + x.responses
                    && out.updates == old(out.updates) + x.updates)
              && var said := if ok then Words(code, b, r) else LastWords(code, b, r);
              out.responses == old(out.responses) + said.0 && out.updates == old(out.updates) + said.1
    {
      assert ValidAt(r.tickerId);
      var book := books[r.tickerId];
      ghost var b := book.Book();
      SameLeaves(b, r, ReportedId(code, b.nextId));
      if r.kind.NEW_ORDER? && StepMayRest(code, b, r) {
        ReportsTrueId(code, b, r);
      }
      ok := false;
      match r.kind {
        case NEW_ORDER =>
          ok := book.Add(r);
        case CANCEL_ORDER =>
          ok := book.Cancel(r);
        case INVALID_REQUEST =>
      }
    }

    lemma {:induction false} PartOfFootprint(t: nat)
      requires t < |books| && Valid()
      ensures ValidAt(t) && forall o :: o in books[t].Repr() ==> o in Footprint()
    {
    }

    /** Books other than the one that was changed are as they were. */
    twostate lemma {:induction false} OthersKept(t: nat)
      requires t < |books| && old(Valid())
      requires forall o: object :: o in Footprint() && o !in books[t].Repr() ==> unchanged(o)
      ensures forall i :: 0 <= i < |books| && i != t ==> ValidAt(i) && books[i].Book() == old(books[i].Book())
    {
      forall i | 0 <= i < |books| && i != t
        ensures ValidAt(i) && books[i].Book() == old(books[i].Book())
      {
        assert old(ValidAt(i));
        assert books[i].Repr() !! books[t].Repr();
        assert forall o :: o in books[i].Repr() ==> o in Footprint();
      }
    }

    twostate lemma {:induction false} OnlyBook(t: nat)
      requires t < |books| && old(Valid())
      requires forall o: object :: o in Footprint() && o !in books[t].Repr() ==> unchanged(o)
      ensures ValidAt(t) ==> Valid() && Books() == old(Books())[t := books[t].Book()]
    {
      OthersKept(t);
      assert Separate();
    }

    /** Processes requests in order until they run out or the process ends. Over every run whose orders may
        rest it gets exactly as far as the simple engine says, with the books and everything sent the simple
        engine's; a request that ends the process has sent its last words. */
    method Run(requests: seq<ClientRequest>) returns (ok: bool, n: nat)
      requires Valid() && RunMayRest(code, capacity, Books(), requests)
      modifies Footprint(), out
      ensures n == Survived(capacity, old(Books()), requests) && (ok <==> n == |requests|)
      ensures var x := RunAll(old(Books()), requests[..n]);
              && |x.books| == |books|
              && (ok ==> && Valid() && Books() == x.books
                         && out.responses == old(out.responses) + x.responses
                         && out.updates == old(out.updates) + x.updates)
              && (!ok ==> && Addressed(|books|, requests[n])
                          && var said := LastWords(code, x.books[requests[n].tickerId], requests[n]);
                          && out.responses == old(out.responses) + x.responses + said.0
                          && out.updates == old(out.updates) + x.updates + said.1)
    {
      n := 0;
      ok := true;
      ghost var m, bs := Survived(capacity, Books(), requests), Books();
      ghost var full := RunAll(bs, requests[..m]);
      ghost var cs, us := out.responses, out.updates;
      while n < |requests|
        invariant n <= m && Valid() && RunMayRest(code, capacity, Books(), requests[n..])
        invariant m == n + Survived(capacity, Books(), requests[n..])
        invariant Leads(full, cs, us, out.responses, out.updates, RunAll(Books(), requests[n..m]))
      {
        var r := requests[n];
        assert requests[n..][0] == r && requests[n..][1..] == requests[n + 1..];
        ghost var now, sentCs, sentUs := Books(), out.responses, out.updates;
        ok := ProcessClientRequest(r);
        if !ok {
          assert requests[n..m] == [];
          Finished(full, cs, us, sentCs, sentUs, now);
          return;
        }
        assert requests[n..m][0] == r && requests[n..m][1..] == requests[n + 1..m];
        Unroll(full, cs, us, sentCs, sentUs, now, requests[n..m]);
        n := n + 1;
      }
      assert requests[n..m] == [];
      Finished(full, cs, us, out.responses, out.updates, Books());
    }
  }
}

/** From gateway to engine and back: every response can be sent, because it names a client whose request came
    through the gate. */
module ResponseRouting {
  import opened Types
  import opened PriceTime
  import opened MatchingEngine
  import opened FIFOSequencer
  import opened Gateway
  import opened OrderServer

  // ---------------------------------------------------------------- whom a response names

  ghost predicate OrdersOf(known: set<nat>, q: seq<MEOrder>) {
    forall i :: 0 <= i < |q| ==> q[i].clientId in known
  }

  ghost predicate ResponsesTo(known: set<nat>, cs: seq<ClientResponse>) {
    forall i :: 0 <= i < |cs| ==> cs[i].clientId in known
  }

  ghost predicate BookOf(known: set<nat>, b: PriceTime.Book) {
    OrdersOf(known, b.bids) && OrdersOf(known, b.asks)
  }

  lemma {:induction false} ResponsesTogether(known: set<nat>, cs: seq<ClientResponse>, ds: seq<ClientResponse>)
    requires ResponsesTo(known, cs) && ResponsesTo(known, ds)
    ensures ResponsesTo(known, cs + ds)
  {
  }

  lemma {:induction false} MatchNames(known: set<nat>, r: ClientRequest, id: nat, q: seq<MEOrder>, leaves: nat)
    requires OrdersOf(known, q) && r.clientId in known
    ensures ResponsesTo(known, Match(r, id, q, leaves).responses) && OrdersOf(known, Match(r, id, q, leaves).queue)
    decreases |q|, leaves
  {
    if !(leaves == 0 || q == [] || !Crosses(r.side, r.price, q[0].price)) {
      var fill := Min(q[0].qty, leaves);
      var rest := AfterFill(q, fill);
      assert OrdersOf(known, rest);
      var two := [TakerFill(r, id, q[0], fill, leaves - fill), MakerFill(r, q[0], fill)];
      MatchNames(known, r, id, rest, leaves - fill);
      assert two[0].clientId == r.clientId && two[1].clientId == q[0].clientId;
      assert ResponsesTo(known, two);
      ResponsesTogether(known, two, Match(r, id, rest, leaves - fill).responses);
      assert Match(r, id, q, leaves).responses == two + Match(r, id, rest, leaves - fill).responses;
    }
  }

  lemma {:induction false} InsertNames(known: set<nat>, q: seq<MEOrder>, o: MEOrder)
    requires OrdersOf(known, q) && o.clientId in known
    ensures OrdersOf(known, PriceTime.Insert(q, o))
  {
    if !(q == [] || Better(o.side, o.price, q[0].price)) {
      InsertNames(known, q[1..], o);
    }
  }

  lemma {:induction false} WithoutNames(known: set<nat>, q: seq<MEOrder>, key: (nat, nat))
    requires OrdersOf(known, q)
    ensures OrdersOf(known, Without(q, key))
  {
    if q != [] {
      WithoutNames(known, q[1..], key);
    }
  }

  lemma {:induction false} ProcessNames(known: set<nat>, b: PriceTime.Book, r: ClientRequest)
    requires BookOf(known, b) && r.clientId in known && !r.kind.INVALID_REQUEST?
    ensures ResponsesTo(known, Process(b, r).responses) && BookOf(known, Process(b, r).book)
  {
    if r.kind.NEW_ORDER? {
      var m := MatchOf(b, r, b.nextId);
      MatchNames(known, r, b.nextId, Queue(b, Opposite(r.side)), r.qty);
      ResponsesTogether(known, [Accepted(r, b.nextId)], m.responses);
      if m.leaves > 0 {
        InsertNames(known, Queue(b, r.side), Remainder(b, r, m.leaves));
      }
    } else {
      WithoutNames(known, b.bids, (r.clientId, r.orderId));
      WithoutNames(known, b.asks, (r.clientId, r.orderId));
    }
  }

  /** Every response of a run names a client of some request, or of an order that rested before. */
  lemma {:induction false} RunNames(known: set<nat>, books: seq<PriceTime.Book>, rs: seq<ClientRequest>)
    requires forall t :: 0 <= t < |books| ==> BookOf(known, books[t])
    requires forall i :: 0 <= i < |rs| ==> rs[i].clientId in known
    ensures ResponsesTo(known, RunAll(books, rs).responses)
    decreases |rs|
  {
    if rs != [] && Dispatchable(books, rs[0]) {
      var x := StepAll(books, rs[0]);
      ProcessNames(known, books[rs[0].tickerId], rs[0]);
      assert forall i :: 0 <= i < |rs[1..]| ==> rs[1..][i] == rs[i + 1];
      RunNames(known, x.books, rs[1..]);
      ResponsesTogether(known, x.responses, RunAll(x.books, rs[1..]).responses);
    }
  }

  // ---------------------------------------------------------------- whom the gate let through

  /** The clients bound to a socket. */
  ghost function BoundClients<S>(g: Gate<S>): set<nat> {
    set c: nat | c < |g.sockets| && g.sockets[c].Some?
  }

  ghost predicate AllBound<S>(g: Gate<S>) {
    forall i :: 0 <= i < |g.forwarded| ==> g.forwarded[i].request.clientId in BoundClients(g)
  }

  /** Whoever was forwarded is bound, and stays so. */
  lemma {:induction false} ForwardedBound<S>(clients: nat, es: seq<Event<S>>)
    requires InRange(clients, es)
    ensures AllBound(AdmitAll(Opened(clients), es))
    decreases |es|
  {
    if es != [] {
      var e, before := es[|es| - 1], AdmitAll(Opened(clients), es[..|es| - 1]);
      var g := AdmitAll(Opened(clients), es);
      ForwardedBound(clients, es[..|es| - 1]);
      assert g == Admit(before, e);
      assert BoundClients(before) <= BoundClients(g);
      forall i | 0 <= i < |g.forwarded| ensures g.forwarded[i].request.clientId in BoundClients(g) {
        if i < |before.forwarded| {
          assert g.forwarded[i] == before.forwarded[i];
        }
      }
    }
  }

  /** Every response to requests that came through the gate names a bound client. */
  lemma {:induction false} ResponsesBound<S>(clients: nat, es: seq<Event<S>>, tickers: nat, rs: seq<ClientRequest>)
    requires InRange(clients, es)
    requires forall i :: 0 <= i < |rs| ==> rs[i] in Plain(AdmitAll(Opened(clients), es).forwarded)
    ensures ResponsesTo(BoundClients(AdmitAll(Opened(clients), es)), RunAll(EmptyBooks(tickers), rs).responses)
  {
    var g := AdmitAll(Opened(clients), es);
    ForwardedBound(clients, es);
    forall i | 0 <= i < |rs| ensures rs[i].clientId in BoundClients(g) {
      var plain := Plain(g.forwarded);
      assert rs[i] in plain;
      var j :| 0 <= j < |plain| && plain[j] == rs[i];
      assert g.forwarded[j].request == rs[i];
    }
    RunNames(BoundClients(g), EmptyBooks(tickers), rs);
  }

  /** So sending them never fails: the server's assertion on the client's socket holds for whatever the engine
      answers to requests that the server forwarded, however many reads came since. */
  method Respond(server: OrderServer, ghost es: seq<Event<TCPSocket>>, ghost tickers: nat,
                 ghost rs: seq<ClientRequest>, responses: seq<ClientResponse>) returns (ok: bool)
    requires server.Valid() && InRange(server.Clients(), es) && server.Now() == AdmitAll(Opened(server.Clients()), es)
    requires forall i :: 0 <= i < |rs| ==> rs[i] in Plain(server.forwarded)
    requires forall c :: c in responses ==> c in RunAll(EmptyBooks(tickers), rs).responses
    modifies server`sent, server.cidNextOutgoingSeqNum
    ensures ok && server.Valid() && Known(|server.cidNextOutgoingSeqNum[..]|, responses)
    ensures forall i :: 0 <= i < |responses| ==> server.Reachable(responses[i])
    ensures server.sent
              == old(server.sent) + server.Addressed(Stamp(old(server.cidNextOutgoingSeqNum[..]), responses))
    ensures server.cidNextOutgoingSeqNum[..] == Numbers(old(server.cidNextOutgoingSeqNum[..]), responses)
  {
    ResponsesBound(server.Clients(), es, tickers, rs);
    forall i | 0 <= i < |responses| ensures server.Reachable(responses[i]) {
      BoundReachable(server, RunAll(EmptyBooks(tickers), rs).responses, responses[i]);
    }
    ok := server.SendResponses(responses);
  }

  /** Over many turns of the server's loop too, each going on from the numbers that the last one left. */
  method RespondInTurns(server: OrderServer, ghost es: seq<Event<TCPSocket>>, ghost tickers: nat,
                        ghost rs: seq<ClientRequest>, turns: seq<seq<ClientResponse>>)
    requires server.Valid() && InRange(server.Clients(), es) && server.Now() == AdmitAll(Opened(server.Clients()), es)
    requires forall i :: 0 <= i < |rs| ==> rs[i] in Plain(server.forwarded)
    requires forall i, j :: 0 <= i < |turns| && 0 <= j < |turns[i]| ==>
               turns[i][j] in RunAll(EmptyBooks(tickers), rs).responses
    modifies server`sent, server.cidNextOutgoingSeqNum
    ensures server.Valid() && forall i :: 0 <= i < |turns| ==> Known(server.Clients(), turns[i])
    ensures |old(server.cidNextOutgoingSeqNum[..])| == server.Clients()
    ensures var ms := StampAll(old(server.cidNextOutgoingSeqNum[..]), turns);
            server.CanAddress(ms) && server.sent == old(server.sent) + server.Addressed(ms)
  {
    ResponsesBound(server.Clients(), es, tickers, rs);
    forall i, j | 0 <= i < |turns| && 0 <= j < |turns[i]| ensures server.Reachable(turns[i][j]) {
      BoundReachable(server, RunAll(EmptyBooks(tickers), rs).responses, turns[i][j]);
    }
    server.SendInTurns(turns);
  }

  lemma {:induction false} BoundReachable(server: OrderServer, cs: seq<ClientResponse>, c: ClientResponse)
    requires server.Valid() && ResponsesTo(BoundClients(server.Now()), cs) && c in cs
    ensures server.Reachable(c)
  {
    var j :| 0 <= j < |cs| && cs[j] == c;
    assert server.Now().sockets[c.clientId].Some?;
  }
}

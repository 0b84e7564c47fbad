/** Price-time priority, said as simply as possible: each side of the book is one queue of orders, best
    price first and oldest first within a price. No levels, rings, tables or pools. */
module PriceTime {
  import opened Types

  /** Price `p` is strictly nearer the best end of `side` than price `q`. */
  predicate Better(side: Side, p: int, q: int) {
    if side == BUY then p > q else p < q
  }

  /** An order of `side` limited at `limit` may trade at the price `resting`. */
  predicate Crosses(side: Side, limit: int, resting: int) {
    if side == BUY then limit >= resting else limit <= resting
  }

  function Min(a: nat, b: nat): nat { if a <= b then a else b }

  datatype Book = Book(bids: seq<MEOrder>, asks: seq<MEOrder>, nextId: nat)

  function Queue(b: Book, side: Side): seq<MEOrder> {
    if side == BUY then b.bids else b.asks
  }

  function WithQueue(b: Book, side: Side, q: seq<MEOrder>): Book {
    if side == BUY then b.(bids := q) else b.(asks := q)
  }

  // ---------------------------------------------------------------- matching

  function TakerFill(r: ClientRequest, id: nat, o: MEOrder, fill: nat, leaves: nat): ClientResponse {
    ClientResponse(FILLED, r.clientId, r.tickerId, r.orderId, id, r.side, o.price, fill, leaves)
  }

  function MakerFill(r: ClientRequest, o: MEOrder, fill: nat): ClientResponse
    requires fill <= o.qty
  {
    ClientResponse(FILLED, o.clientId, r.tickerId, o.clientOrderId, o.marketOrderId, o.side, o.price,
                   fill, o.qty - fill)
  }

  function Trade(r: ClientRequest, o: MEOrder, fill: nat): MarketUpdate {
    MarketUpdate(TRADE, ORDER_ID_INVALID, r.tickerId, r.side, o.price, fill, PRIORITY_INVALID)
  }

  /** What the market is told about a resting order after it traded: gone, or smaller. */
  function MakerUpdate(r: ClientRequest, o: MEOrder, fill: nat): MarketUpdate
    requires fill <= o.qty
  {
    if fill == o.qty
    then MarketUpdate(UpdateType.CANCEL, o.marketOrderId, r.tickerId, o.side, o.price, o.qty, PRIORITY_INVALID)
    else MarketUpdate(MODIFY, o.marketOrderId, r.tickerId, o.side, o.price, o.qty - fill, o.priority)
  }

  /** The front of the queue after `fill` of its quantity traded. */
  function AfterFill(q: seq<MEOrder>, fill: nat): seq<MEOrder>
    requires q != [] && fill <= q[0].qty
  {
    if fill == q[0].qty then q[1..] else [q[0].(qty := q[0].qty - fill)] + q[1..]
  }

  datatype Matched = Matched(
    queue: seq<MEOrder>, leaves: nat, responses: seq<ClientResponse>, updates: seq<MarketUpdate>)

  /** Trades the front of the opposite queue while quantity is left and the front price is within the
      limit. `id` is the market order id reported to the taker. */
  function Match(r: ClientRequest, id: nat, q: seq<MEOrder>, leaves: nat): Matched
    decreases |q|, leaves
  {
    if leaves == 0 || q == [] || !Crosses(r.side, r.price, q[0].price) then
      Matched(q, leaves, [], [])
    else
      var fill := Min(q[0].qty, leaves);
      var rest := Match(r, id, AfterFill(q, fill), leaves - fill);
      Matched(rest.queue, rest.leaves,
              [TakerFill(r, id, q[0], fill, leaves - fill), MakerFill(r, q[0], fill)] + rest.responses,
              [Trade(r, q[0], fill), MakerUpdate(r, q[0], fill)] + rest.updates)
  }

  // ---------------------------------------------------------------- resting and cancelling

  /** Behind every order of an equal or better price. */
  function Insert(q: seq<MEOrder>, o: MEOrder): seq<MEOrder> {
    if q == [] || Better(o.side, o.price, q[0].price) then [o] + q
    else [q[0]] + Insert(q[1..], o)
  }

  /** The priority number of the last order at a price, 0 when there is none. */
  function LastPriority(q: seq<MEOrder>, price: int): nat {
    if q == [] then 0
    else if q[|q| - 1].price == price then q[|q| - 1].priority
    else LastPriority(q[..|q| - 1], price)
  }

  /** Linear search for a client's order. */
  function Lookup(q: seq<MEOrder>, key: (nat, nat)): (o: Option<MEOrder>)
    ensures o.Some? ==> o.value in q && o.value.Key() == key
    ensures o.None? <==> forall i :: 0 <= i < |q| ==> q[i].Key() != key
  {
    if q == [] then None
    else if q[0].Key() == key then Some(q[0])
    else
      assert forall i :: 0 <= i < |q[1..]| ==> q[1..][i] == q[i + 1];
      Lookup(q[1..], key)
  }

  function Without(q: seq<MEOrder>, key: (nat, nat)): seq<MEOrder> {
    if q == [] then []
    else (if q[0].Key() == key then [] else [q[0]]) + Without(q[1..], key)
  }

  // ---------------------------------------------------------------- requests

  datatype Result = Result(book: Book, responses: seq<ClientResponse>, updates: seq<MarketUpdate>)

  function Accepted(r: ClientRequest, id: nat): ClientResponse {
    ClientResponse(ACCEPTED, r.clientId, r.tickerId, r.orderId, id, r.side, r.price, 0, r.qty)
  }

  function AddUpdate(o: MEOrder): MarketUpdate {
    MarketUpdate(ADD, o.marketOrderId, o.tickerId, o.side, o.price, o.qty, o.priority)
  }

  function Remainder(b: Book, r: ClientRequest, leaves: nat): MEOrder {
    MEOrder(r.tickerId, r.clientId, r.orderId, b.nextId, r.side, r.price, leaves,
            LastPriority(Queue(b, r.side), r.price) + 1)
  }

  function MatchOf(b: Book, r: ClientRequest, id: nat): Matched {
    Match(r, id, Queue(b, Opposite(r.side)), r.qty)
  }

  /** The book once the incoming order has traded all it can, before its remainder rests. */
  function Traded(b: Book, r: ClientRequest): Book {
    WithQueue(b, Opposite(r.side), MatchOf(b, r, 0).queue)
  }

  /** A new order: acknowledge, trade, rest what is left. `id` is the id reported with its fills. */
  function AddReporting(b: Book, r: ClientRequest, id: nat): Result {
    var m := MatchOf(b, r, id);
    var b1 := WithQueue(b, Opposite(r.side), m.queue).(nextId := b.nextId + 1);
    if m.leaves == 0 then
      Result(b1, [Accepted(r, b.nextId)] + m.responses, m.updates)
    else
      var o := Remainder(b, r, m.leaves);
      Result(WithQueue(b1, r.side, Insert(Queue(b, r.side), o)),
             [Accepted(r, b.nextId)] + m.responses, m.updates + [AddUpdate(o)])
  }

  function Add(b: Book, r: ClientRequest): Result {
    AddReporting(b, r, b.nextId)
  }

  function Rejected(r: ClientRequest): ClientResponse {
    ClientResponse(CANCEL_REJECTED, r.clientId, r.tickerId, r.orderId, ORDER_ID_INVALID, INVALID_SIDE,
                   PRICE_INVALID, QTY_INVALID, QTY_INVALID)
  }

  function Canceled(r: ClientRequest, o: MEOrder): ClientResponse {
    ClientResponse(CANCELED, r.clientId, r.tickerId, r.orderId, o.marketOrderId, o.side, o.price, QTY_INVALID, o.qty)
  }

  function CancelUpdate(r: ClientRequest, o: MEOrder): MarketUpdate {
    MarketUpdate(UpdateType.CANCEL, o.marketOrderId, r.tickerId, o.side, o.price, 0, o.priority)
  }

  /** Cancelling by linear search of both queues. */
  function Cancel(b: Book, r: ClientRequest): Result {
    var key := (r.clientId, r.orderId);
    var o := Lookup(b.bids + b.asks, key);
    if o.None? then Result(b, [Rejected(r)], [])
    else Result(b.(bids := Without(b.bids, key), asks := Without(b.asks, key)),
                [Canceled(r, o.value)], [CancelUpdate(r, o.value)])
  }

  function Process(b: Book, r: ClientRequest): Result
    requires !r.kind.INVALID_REQUEST?
  {
    if r.kind.NEW_ORDER? then Add(b, r) else Cancel(b, r)
  }

  // ---------------------------------------------------------------- well-formed books

  /** The order of the queue: a better price, or the same price and an earlier arrival. */
  predicate Ahead(side: Side, a: MEOrder, b: MEOrder) {
    || Better(side, a.price, b.price)
    || (a.price == b.price && a.priority < b.priority && a.marketOrderId < b.marketOrderId)
  }

  ghost predicate Sorted(q: seq<MEOrder>, side: Side) {
    forall i, j :: 0 <= i < j < |q| ==> Ahead(side, q[i], q[j])
  }

  predicate Resting(o: MEOrder, side: Side, ticker: nat, nextId: nat) {
    o.side == side && o.tickerId == ticker && o.qty > 0 && 0 < o.marketOrderId < nextId && o.priority > 0
  }

  predicate Differ(a: MEOrder, b: MEOrder) {
    a.marketOrderId != b.marketOrderId && a.Key() != b.Key()
  }

  ghost predicate QueueWF(q: seq<MEOrder>, side: Side, ticker: nat, nextId: nat) {
    && Sorted(q, side)
    && (forall i :: 0 <= i < |q| ==> Resting(q[i], side, ticker, nextId))
    && (forall i, j :: 0 <= i < j < |q| ==> Differ(q[i], q[j]))
  }

  /** No bid meets an ask: the best bid is below the best ask. */
  ghost predicate Uncrossed(bids: seq<MEOrder>, asks: seq<MEOrder>) {
    forall i, j :: 0 <= i < |bids| && 0 <= j < |asks| ==> bids[i].price < asks[j].price
  }

  ghost predicate AllDiffer(p: seq<MEOrder>, q: seq<MEOrder>) {
    forall i, j :: 0 <= i < |p| && 0 <= j < |q| ==> Differ(p[i], q[j])
  }

  ghost predicate WF(b: Book, ticker: nat) {
    && b.nextId > 0
    && QueueWF(b.bids, BUY, ticker, b.nextId)
    && QueueWF(b.asks, SELL, ticker, b.nextId)
    && Uncrossed(b.bids, b.asks)
    && AllDiffer(b.bids, b.asks)
  }

  const EMPTY := Book([], [], 1)

  predicate IsNewOrder(r: ClientRequest, ticker: nat) {
    r.kind.NEW_ORDER? && r.tickerId == ticker && IsSide(r.side)
  }

  /** The client has no order resting under this id once the new one has traded. */
  predicate FreshKey(b: Book, r: ClientRequest) {
    Lookup(Traded(b, r).bids + Traded(b, r).asks, (r.clientId, r.orderId)).None?
  }

  predicate Admissible(b: Book, r: ClientRequest, ticker: nat) {
    && r.tickerId == ticker
    && (r.kind.CANCEL_ORDER? || (IsNewOrder(r, ticker) && (MatchOf(b, r, 0).leaves > 0 ==> FreshKey(b, r))))
  }
}

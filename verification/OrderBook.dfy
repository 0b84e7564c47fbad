/** The limit order book of one ticker, as the program keeps it: two pools of nodes linked into circular
    doubly linked rings, two entry points and two hash maps, all updated in place. */
module OrderBook {
  import opened Types
  import opened PriceTime
  import PriceTimeInvariant
  import opened BookMemory
  import opened BookAbstraction
  import opened BookSteps
  import opened BookResting
  import opened BookCapacity
  import opened BookPriority
  import Pool = MemPool

  /** The matching engine's outgoing queues, as everything ever written to them. */
  class Outbox {
    var responses: seq<ClientResponse>
    var updates: seq<MarketUpdate>

    constructor ()
      ensures responses == [] && updates == []
    {
      responses, updates := [], [];
    }

    method SendClientResponse(c: ClientResponse)
      modifies this
      ensures responses == old(responses) + [c] && updates == old(updates)
    {
      responses := responses + [c];
    }

    method SendMarketUpdate(u: MarketUpdate)
      modifies this
      ensures updates == old(updates) + [u] && responses == old(responses)
    {
      updates := updates + [u];
    }
  }

  /** The memory after level `l` was linked at position `k` of a side whose levels were `ids`. */
  ghost predicate Relinked(code: Code, m: Mem, ids: seq<int>, l: int, k: nat, m': Mem)
    requires 0 <= l < |m.levels| && |m.lNext| == |m.lPrev| == |m.levels| && k <= |ids|
  {
    var side := m.levels[l].side;
    && m' == m.(table := m'.table, bids := m'.bids, asks := m'.asks, lNext := m'.lNext, lPrev := m'.lPrev)
    && m'.table == m.table[Slot(m.levels[l].price) := l]
    && (LinksSafely(code, side, k, |ids|) ==>
          && Best(m', Opposite(side)) == Best(m, Opposite(side))
          && Best(m', side) == (if k == 0 then l else Best(m, side)))
    && (if ids == [] then m'.lNext == m.lNext[l := l] && m'.lPrev == m.lPrev[l := l]
        else var a, b := ids[if k == 0 then |ids| - 1 else k - 1], ids[if k == |ids| then 0 else k];
        && 0 <= a < |m.lNext| && 0 <= b < |m.lPrev|
        && m'.lPrev == m.lPrev[l := a][b := l]
        && (LinksSafely(code, side, k, |ids|) ==> m'.lNext == m.lNext[l := b][a := l])
        && (!LinksSafely(code, side, k, |ids|) ==>
              && m'.bids == l && m'.asks == m.asks
              && var next := m.lNext[l := b][a := l];
              m'.lNext == if next[b] == ids[0] then next[b := l] else next))
  }

  /** Putting `l` in front of the entry point does not make the entry point its own successor. */
  lemma {:induction false} FrontSplice(next: seq<int>, l: int, a: int, b: int, best: int)
    requires 0 <= l < |next| && 0 <= a < |next| && 0 <= b < |next|
    requires b == best && l != best && l != a && (a != b ==> next[b] != best)
    ensures next[l := b][a := l][b] != best
  {
  }

  /** Linked at a safe place, the level is where it belongs. */
  lemma {:induction false} RelinkedWell(code: Code, m: Mem, s: Shape, l: int, k: nat, m': Mem)
    requires Struct(m, s) && 0 <= l < |m.levels| && l !in s.queue && IsSide(m.levels[l].side)
    requires OrderOk(m, l, m.levels[l].first)
    requires m.oNext[m.levels[l].first] == m.levels[l].first == m.oPrev[m.levels[l].first]
    requires Slot(m.levels[l].price) !in m.table && Position(m, s, m.levels[l].side, m.levels[l].price, k)
    requires Relinked(code, m, Ids(s, m.levels[l].side), l, k, m')
    requires LinksSafely(code, m.levels[l].side, k, |Ids(s, m.levels[l].side)|)
    ensures Struct(m', LinkedShape(s, m.levels[l].side, l, m.levels[l].first, k))
  {
    var first := m.levels[l].first;
    LinkLevel(m, s, m.levels[l].side, l, first, k, m', LinkedShape(s, m.levels[l].side, l, first, k));
  }

  lemma {:induction false} EntryMisplaced(code: Code, m: Mem, s: Shape, l: int, k: nat, m': Mem)
    requires Struct(m, s) && 0 <= l < |m.levels| && l !in s.queue && IsSide(m.levels[l].side)
    requires Position(m, s, m.levels[l].side, m.levels[l].price, k)
    requires Relinked(code, m, Ids(s, m.levels[l].side), l, k, m')
    requires !LinksSafely(code, m.levels[l].side, k, |Ids(s, m.levels[l].side)|)
    ensures m'.bids == l && m'.levels == m.levels
    ensures m.levels[l].side != BUY
            || (l < |m'.lPrev| && m'.lPrev[l] != l && 0 <= m'.lPrev[l] < |m.levels|
                && Better(BUY, PriceAt(m', m'.lPrev[l]), PriceAt(m', l)))
  {
  }

  /** Linked at an unsafe place, no reading of the memory is a book any more. */
  lemma {:induction false} RelinkedBadly(code: Code, m: Mem, s: Shape, l: int, k: nat, m': Mem)
    requires Struct(m, s) && 0 <= l < |m.levels| && l !in s.queue && IsSide(m.levels[l].side)
    requires Position(m, s, m.levels[l].side, m.levels[l].price, k)
    requires Relinked(code, m, Ids(s, m.levels[l].side), l, k, m')
    requires !LinksSafely(code, m.levels[l].side, k, |Ids(s, m.levels[l].side)|)
    ensures forall s' :: !Struct(m', s')
  {
    EntryMisplaced(code, m, s, l, k, m');
    forall s' ensures !Struct(m', s') {
      MisplacedBest(m', s');
    }
  }

  lemma {:induction false} RelinkedExactly(code: Code, m: Mem, s: Shape, l: int, k: nat, m': Mem)
    requires Struct(m, s) && 0 <= l < |m.levels| && l !in s.queue && IsSide(m.levels[l].side)
    requires OrderOk(m, l, m.levels[l].first)
    requires m.oNext[m.levels[l].first] == m.levels[l].first == m.oPrev[m.levels[l].first]
    requires Slot(m.levels[l].price) !in m.table && Position(m, s, m.levels[l].side, m.levels[l].price, k)
    requires Relinked(code, m, Ids(s, m.levels[l].side), l, k, m')
    ensures if LinksSafely(code, m.levels[l].side, k, |Ids(s, m.levels[l].side)|)
            then Struct(m', LinkedShape(s, m.levels[l].side, l, m.levels[l].first, k))
            else forall s' :: !Struct(m', s')
  {
    if LinksSafely(code, m.levels[l].side, k, |Ids(s, m.levels[l].side)|) {
      RelinkedWell(code, m, s, l, k, m');
    } else {
      RelinkedBadly(code, m, s, l, k, m');
    }
  }

  lemma {:induction false} NotYetLinked(m: Mem, s: Shape, l: int)
    requires Struct(m, s) && 0 <= l < |m.levels| && l !in s.queue && IsSide(m.levels[l].side)
    ensures l !in Ids(s, m.levels[l].side) && Sizes(m) && SideOk(m, s, m.levels[l].side)
  {
    Members(m, s, m.levels[l].side);
  }

  /** What was sent before and since, followed by what matching the rest will send, is what the whole
      match sends. */
  ghost predicate Continues(full: Matched, cs0: seq<ClientResponse>, us0: seq<MarketUpdate>,
                            cs: seq<ClientResponse>, us: seq<MarketUpdate>, rest: Matched) {
    && rest.queue == full.queue && rest.leaves == full.leaves
    && cs0 + full.responses == cs + rest.responses
    && us0 + full.updates == us + rest.updates
  }

  lemma {:induction false} MatchStep(r: ClientRequest, id: nat, q: seq<MEOrder>, leaves: nat, full: Matched,
                  cs0: seq<ClientResponse>, us0: seq<MarketUpdate>, cs: seq<ClientResponse>, us: seq<MarketUpdate>)
    requires leaves > 0 && q != [] && Crosses(r.side, r.price, q[0].price)
    requires Continues(full, cs0, us0, cs, us, PriceTime.Match(r, id, q, leaves))
    ensures var fill := Min(q[0].qty, leaves);
            Continues(full, cs0, us0, cs + [TakerFill(r, id, q[0], fill, leaves - fill), MakerFill(r, q[0], fill)],
                      us + [Trade(r, q[0], fill), MakerUpdate(r, q[0], fill)],
                      PriceTime.Match(r, id, AfterFill(q, fill), leaves - fill))
  {
    var fill := Min(q[0].qty, leaves);
    var rest := PriceTime.Match(r, id, AfterFill(q, fill), leaves - fill);
    var two, pair := [TakerFill(r, id, q[0], fill, leaves - fill), MakerFill(r, q[0], fill)],
                     [Trade(r, q[0], fill), MakerUpdate(r, q[0], fill)];
    assert cs + (two + rest.responses) == (cs + two) + rest.responses;
    assert us + (pair + rest.updates) == (us + pair) + rest.updates;
  }

  lemma {:induction false} MatchStart(full: Matched, cs0: seq<ClientResponse>, us0: seq<MarketUpdate>)
    ensures Continues(full, cs0, us0, cs0, us0, full)
  {
  }

  lemma {:induction false} MatchDone(r: ClientRequest, id: nat, q: seq<MEOrder>, leaves: nat, full: Matched,
                  cs0: seq<ClientResponse>, us0: seq<MarketUpdate>, cs: seq<ClientResponse>, us: seq<MarketUpdate>)
    requires leaves == 0 || q == [] || !Crosses(r.side, r.price, q[0].price)
    requires Continues(full, cs0, us0, cs, us, PriceTime.Match(r, id, q, leaves))
    ensures full.queue == q && full.leaves == leaves && cs == cs0 + full.responses && us == us0 + full.updates
  {
  }

  /** The market order id that an incoming order's fills report: as written, it passes through a 32-bit
      quantity on its way to `match`. */
  function ReportedId(code: Code, id: nat): nat {
    if code.AsWritten? then id % QTY_MODULUS else id
  }

  /** What is left of the order, if anything, may rest where it would. */
  predicate MayRest(code: Code, b: PriceTime.Book, r: ClientRequest) {
    var leaves := MatchOf(b, r, 0).leaves;
    leaves == 0 || Restable(code, Traded(b, r), Remainder(b, r, leaves))
  }

  /** What is left of the order, if anything, finds a place. */
  predicate Survives(cap: Capacity, b: PriceTime.Book, r: ClientRequest) {
    var leaves := MatchOf(b, r, 0).leaves;
    leaves == 0 || HasPlace(cap, Traded(b, r), Remainder(b, r, leaves))
  }

  /** The announcement of an order that rests in the book `b`. */
  function Announced(r: ClientRequest, id: nat, leaves: nat, b: PriceTime.Book): MarketUpdate {
    MarketUpdate(ADD, id, r.tickerId, r.side, r.price, leaves, SlotPriority(b, r.price))
  }

  /** What the market is told of the remainder, whether or not it may rest. */
  function AddsTo(b: PriceTime.Book, r: ClientRequest, leaves: nat): seq<MarketUpdate> {
    if leaves == 0 then [] else [Announced(r, b.nextId, leaves, Traded(b, r))]
  }

  /** A client id outside the table is rejected; an order id outside it ends the program. */
  predicate Cancellable(r: ClientRequest) {
    r.clientId >= ME_MAX_NUM_CLIENTS || r.orderId < ME_MAX_ORDER_IDS
  }

  /** Neither the next id nor an order's id, priority or quantity matters to whether it finds a place. */
  lemma {:induction false} PlaceAlike(cap: Capacity, b: PriceTime.Book, b': PriceTime.Book, o: MEOrder, o': MEOrder)
    requires b.bids == b'.bids && b.asks == b'.asks
    requires o.Key() == o'.Key() && o.price == o'.price && o.side == o'.side
    ensures HasPlace(cap, b, o) <==> HasPlace(cap, b', o')
  {
  }

  lemma {:induction false} SurvivesThen(cap: Capacity, b: PriceTime.Book, r: ClientRequest, id: nat, b': PriceTime.Book)
    requires IsSide(r.side)
    requires Queue(b', r.side) == Queue(b, r.side) && Queue(b', Opposite(r.side)) == MatchOf(b, r, id).queue
    ensures Survives(cap, b, r) <==>
              MatchOf(b, r, id).leaves == 0 || HasPlace(cap, b', Remainder(b, r, MatchOf(b, r, id).leaves))
  {
    PriceTimeInvariant.MatchIgnoresId(r, id, 0, Queue(b, Opposite(r.side)), r.qty);
    var o := Remainder(b, r, MatchOf(b, r, id).leaves);
    PlaceAlike(cap, b', Traded(b, r), o, o);
  }

  lemma {:induction false} Sent<T>(before: seq<T>, sent: seq<T>, more: seq<T>)
    ensures before + sent + more == before + (sent + more)
  {
  }

  /** The book after a new order that traded fully, put together from its queues. */
  lemma {:induction false} AddedTraded(b: PriceTime.Book, r: ClientRequest, id: nat, b': PriceTime.Book)
    requires IsSide(r.side) && MatchOf(b, r, id).leaves == 0
    requires b'.nextId == b.nextId + 1 && Queue(b', r.side) == Queue(b, r.side)
    requires Queue(b', Opposite(r.side)) == MatchOf(b, r, id).queue
    ensures b' == AddReporting(b, r, id).book
  {
  }

  /** The book after a new order that rests, put together from its queues. */
  lemma {:induction false} AddedResting(b: PriceTime.Book, r: ClientRequest, id: nat, b': PriceTime.Book)
    requires IsSide(r.side) && MatchOf(b, r, id).leaves > 0
    requires b'.nextId == b.nextId + 1
    requires Queue(b', r.side) == Insert(Queue(b, r.side), Remainder(b, r, MatchOf(b, r, id).leaves))
    requires Queue(b', Opposite(r.side)) == MatchOf(b, r, id).queue
    ensures b' == AddReporting(b, r, id).book
  {
  }

  /** Whether the remainder may rest, asked of the book as it stands after trading. */
  lemma {:induction false} MayRestThen(code: Code, b: PriceTime.Book, r: ClientRequest, id: nat, b': PriceTime.Book)
    requires IsSide(r.side)
    requires Queue(b', r.side) == Queue(b, r.side) && Queue(b', Opposite(r.side)) == MatchOf(b, r, id).queue
    ensures MayRest(code, b, r) <==>
              MatchOf(b, r, id).leaves == 0 || Restable(code, b', Remainder(b, r, MatchOf(b, r, id).leaves))
  {
    PriceTimeInvariant.MatchIgnoresId(r, id, 0, Queue(b, Opposite(r.side)), r.qty);
    var o := Remainder(b, r, MatchOf(b, r, id).leaves);
    RestableAlike(code, b', Traded(b, r), o, o);
  }

  /** What is announced, asked of the book as it stands after trading. */
  lemma {:induction false} AnnouncedThen(b: PriceTime.Book, r: ClientRequest, id: nat, leaves: nat, b': PriceTime.Book)
    requires IsSide(r.side) && leaves > 0
    requires Queue(b', r.side) == Queue(b, r.side) && Queue(b', Opposite(r.side)) == MatchOf(b, r, id).queue
    ensures AddsTo(b, r, leaves) == [Announced(r, b.nextId, leaves, b')]
  {
    PriceTimeInvariant.MatchIgnoresId(r, id, 0, Queue(b, Opposite(r.side)), r.qty);
  }

  lemma {:induction false} AddKeepsWF(code: Code, b: PriceTime.Book, r: ClientRequest, id: nat, ticker: nat)
    requires WF(b, ticker) && IsNewOrder(r, ticker)
    ensures MayRest(code, b, r) ==> WF(AddReporting(b, r, id).book, ticker)
  {
    if MayRest(code, b, r) {
      var leaves := MatchOf(b, r, 0).leaves;
      if leaves > 0 {
        FreshFromFree(b, r, Remainder(b, r, leaves));
      }
      PriceTimeInvariant.AddWF(b, r, id, ticker);
    }
  }

  class MEOrderBook {
    const code: Code
    const tickerId: nat
    const out: Outbox
    const orderPool: Pool.MemPool
    const levelPool: Pool.MemPool

    // blocks of the two pools, split into payload and links
    var orders: seq<MEOrder>
    var oNext: seq<int>
    var oPrev: seq<int>
    var levels: seq<MEOrdersAtPrice>
    var lNext: seq<int>
    var lPrev: seq<int>

    // price slot -> level, and (client, client order id) -> order
    var table: map<int, int>
    var clients: map<(nat, nat), int>

    // entry points: highest bid level, lowest ask level
    var bids: int
    var asks: int
    var nextMarketOrderId: nat

    ghost var shape: Shape
    ghost var bidQueue: seq<MEOrder>
    ghost var askQueue: seq<MEOrder>

    ghost function Memory(): Mem
      reads this, orderPool.isFree, levelPool.isFree
    {
      Mem(orders, oNext, oPrev, orderPool.isFree[..], levels, lNext, lPrev, levelPool.isFree[..],
          table, clients, bids, asks)
    }

    ghost predicate Pools()
      reads this, orderPool, orderPool.isFree, levelPool, levelPool.isFree
    {
      && orderPool != levelPool && orderPool.isFree != levelPool.isFree
      && orderPool.Valid() && levelPool.Valid()
      && orderPool.size == |orders| && levelPool.size == |levels|
      && forall key {:trigger InMap(key)} :: key in clients ==> InMap(key)
    }

    function LevelAt(price: int): int
      reads this
    {
      if Slot(price) in table then table[Slot(price)] else NULL
    }

    function BestOf(side: Side): int
      reads this
    {
      if side == BUY then bids else asks
    }

    ghost function Room(): Capacity { Capacity(orderPool.size, levelPool.size) }

    /** The price-time book this memory stands for. */
    ghost function Book(): PriceTime.Book
      reads this`bidQueue, this`askQueue, this`nextMarketOrderId
    {
      PriceTime.Book(bidQueue, askQueue, nextMarketOrderId)
    }

    ghost function Repr(): set<object> {
      {this, orderPool, orderPool.isFree, levelPool, levelPool.isFree}
    }

    /** A well-formed book: memory that fits together, standing for a well-formed price-time book. */
    ghost predicate Valid()
      reads this, orderPool, orderPool.isFree, levelPool, levelPool.isFree
    {
      Holds() && WF(Book(), tickerId)
    }

    constructor (code: Code, tickerId: nat, out: Outbox, maxLevels: nat, maxOrders: nat)
      requires maxLevels > 0 && maxOrders > 0
      ensures Valid() && Book() == PriceTime.EMPTY
      ensures this.code == code && this.tickerId == tickerId && this.out == out
      ensures fresh(orderPool) && fresh(orderPool.isFree) && fresh(levelPool) && fresh(levelPool.isFree)
      ensures |orders| == maxOrders && |levels| == maxLevels && Room() == Capacity(maxOrders, maxLevels)
    {
      this.code, this.tickerId, this.out := code, tickerId, out;
      levelPool := new Pool.MemPool(maxLevels);
      orderPool := new Pool.MemPool(maxOrders);
      levels := seq(maxLevels, _ => MEOrdersAtPrice(INVALID_SIDE, PRICE_INVALID, NULL));
      lNext, lPrev := seq(maxLevels, _ => NULL), seq(maxLevels, _ => NULL);
      orders := seq(maxOrders, _ => MEOrder(0, 0, 0, 0, INVALID_SIDE, PRICE_INVALID, 0, 0));
      oNext, oPrev := seq(maxOrders, _ => NULL), seq(maxOrders, _ => NULL);
      table, clients := map[], map[];
      bids, asks := NULL, NULL;
      nextMarketOrderId := 1;
      shape, bidQueue, askQueue := Shape([], [], map[]), [], [];
    }

    /** Walks outward from the best level to the first one the price beats, or past the last one. */
    method SeekLevel(side: Side, price: int) returns (target: int, addAfter: bool, ghost k: nat)
      requires IsSide(side) && Sizes(Memory()) && SideOk(Memory(), shape, side) && Ids(shape, side) != []
      requires Slot(price) !in table
      ensures Position(Memory(), shape, side, price, k)
      ensures addAfter <==> k == |Ids(shape, side)|
      ensures target == if addAfter then BestOf(side) else Ids(shape, side)[k]
    {
      ghost var m := Memory();
      ghost var ids := Ids(shape, side);
      ghost var n := |ids|;
      var best := BestOf(side);
      NextLevel(m, shape, side, 0);
      target := best;
      k := 0;
      addAfter := Better(side, levels[target].price, price);
      if addAfter {
        target := lNext[target];
        k := 1;
        if n > 1 { NextLevel(m, shape, side, 1); }
        addAfter := Better(side, levels[target].price, price);
      }
      while addAfter && target != best
        invariant k <= n && target == ids[if k == n then 0 else k]
        invariant forall i :: 0 <= i < k ==> Better(side, PriceAt(m, ids[i]), price)
        invariant k == n ==> addAfter
        invariant k == 0 ==> !addAfter
        invariant k < n && !addAfter ==> !Better(side, PriceAt(m, ids[k]), price)
        decreases n - k, addAfter
      {
        NextLevel(m, shape, side, k);
        addAfter := Better(side, levels[target].price, price);
        if addAfter {
          target := lNext[target];
          k := k + 1;
        }
      }
      if k < n { NextLevel(m, shape, side, k); }
      FirstNotBetter(m, shape, side, price, k);
    }

    /** Links a fresh level, holding its first order, into its side.
        As written, the program takes any level put in front of another for the new best and enters the
        bid side there: that is right only for a new best bid. Repaired, it compares with the old best
        and enters the level's own side. */
    method AddOrdersAtPrice(l: int) returns (ghost k: nat)
      requires Struct(Memory(), shape) && 0 <= l < |levels| && l !in shape.queue
      requires IsSide(levels[l].side) && OrderOk(Memory(), l, levels[l].first)
      requires oNext[levels[l].first] == levels[l].first == oPrev[levels[l].first]
      requires Slot(levels[l].price) !in table
      modifies this`table, this`bids, this`asks, this`lNext, this`lPrev, this`shape
      ensures |old(lNext)| == |old(lPrev)| == |levels| && k <= |old(Ids(shape, levels[l].side))|
      ensures Relinked(code, old(Memory()), old(Ids(shape, levels[l].side)), l, k, Memory())
      ensures var side, price := levels[l].side, levels[l].price;
              var ids := old(Ids(shape, side));
              && old(Position(Memory(), shape, side, price, k))
              && table == old(table)[Slot(price) := l]
              && (LinksSafely(code, side, k, |ids|) ==>
                    && Struct(Memory(), shape)
                    && shape == LinkedShape(old(shape), side, l, levels[l].first, k))
              && (!LinksSafely(code, side, k, |ids|) ==> forall s :: !Struct(Memory(), s))
    {
      ghost var m, s := Memory(), shape;
      NotYetLinked(m, s, l);
      k := LinkLevelNodes(l);
      shape := LinkedShape(s, levels[l].side, l, levels[l].first, k);
      RelinkedExactly(code, m, s, l, k, Memory());
    }

    /** The pointer work of `AddOrdersAtPrice`. */
    method LinkLevelNodes(l: int) returns (ghost k: nat)
      requires 0 <= l < |levels| && IsSide(levels[l].side) && l !in Ids(shape, levels[l].side)
      requires Sizes(Memory()) && SideOk(Memory(), shape, levels[l].side)
      requires Slot(levels[l].price) !in table
      modifies this`table, this`bids, this`asks, this`lNext, this`lPrev
      ensures old(Position(Memory(), shape, levels[l].side, levels[l].price, k))
      ensures Relinked(code, old(Memory()), Ids(shape, levels[l].side), l, k, Memory())
    {
      var side, price := levels[l].side, levels[l].price;
      ghost var ids := Ids(shape, side);
      var best := BestOf(side);
      NoLevels(Memory(), shape, side);
      k := 0;
      if best == NULL {
        table := table[Slot(price) := l];
        SetBest(side, l);
        lNext, lPrev := lNext[l := l], lPrev[l := l];
      } else {
        var target, addAfter;
        target, addAfter, k := SeekLevel(side, price);
        ghost var a, b := SiteAt(Memory(), shape, l, k);
        PlaceLevel(l, best, target, addAfter, ids, k, a, b);
      }
    }

    /** Enters the level in the price table and splices it in at the place that was found. */
    method PlaceLevel(l: int, best: int, target: int, addAfter: bool, ghost ids: seq<int>, ghost k: nat,
                      ghost a: int, ghost b: int)
      requires Site(Memory(), ids, l, k, a, b) && IsSide(levels[l].side)
      requires best == ids[0] && target == b && (addAfter <==> k == |ids|)
      modifies this`table, this`bids, this`asks, this`lNext, this`lPrev
      ensures Relinked(code, old(Memory()), ids, l, k, Memory())
    {
      var side, price := levels[l].side, levels[l].price;
      table := table[Slot(price) := l];
      if k == 0 { FrontSplice(lNext, l, a, b, best); }
      SpliceLevel(l, best, target, addAfter, a, b);
      if !addAfter {
        RaiseBest(l, side, target, best);
      }
    }

    /** Splices level `l` after the last level, or before `target`. */
    method SpliceLevel(l: int, best: int, at: int, addAfter: bool, ghost a: int, ghost b: int)
      requires |lNext| == |lPrev| && 0 <= l < |lNext| && 0 <= a < |lNext| && 0 <= b < |lNext| && l != a && l != b
      requires lNext[a] == b && lPrev[b] == a && at == b && (addAfter ==> b == best)
      modifies this`lNext, this`lPrev
      ensures lNext == old(lNext)[l := b][a := l]
      ensures lPrev == old(lPrev)[l := a][b := l]
    {
      var target := at;
      if addAfter {
        if target == best {
          target := lPrev[best];
        }
        lPrev := lPrev[l := target];
        lPrev := lPrev[lNext[target] := l];
        lNext := lNext[l := lNext[target]];
        lNext := lNext[target := l];
      } else {
        lPrev := lPrev[l := lPrev[target]];
        lNext := lNext[l := target];
        lNext := lNext[lPrev[target] := l];
        lPrev := lPrev[target := l];
      }
    }

    /** Moves the entry point when the new level `l`, just put before `target`, is taken for the best. */
    method RaiseBest(l: int, side: Side, target: int, best: int)
      requires IsSide(side) && 0 <= l < |levels| && 0 <= target < |levels| && 0 <= best < |levels|
      requires 0 <= target < |lNext|
      modifies this`bids, this`asks, this`lNext
      ensures lNext == if code.AsWritten? && Better(side, levels[l].price, levels[target].price)
                          && old(lNext)[target] == best
                       then old(lNext)[target := l] else old(lNext)
      ensures var isBest := Better(side, levels[l].price, levels[if code.AsWritten? then target else best].price);
              if !isBest then bids == old(bids) && asks == old(asks)
              else if side == BUY || code.AsWritten? then bids == l && asks == old(asks)
              else asks == l && bids == old(bids)
    {
      if code.AsWritten? {
        if Better(side, levels[l].price, levels[target].price) {
          lNext := lNext[target := if lNext[target] == best then l else lNext[target]];
          bids := l;
        }
      } else if Better(side, levels[l].price, levels[best].price) {
        SetBest(side, l);
      }
    }

    method SetBest(side: Side, l: int)
      modifies this`bids, this`asks
      ensures if side == BUY then bids == l && asks == old(asks) else asks == l && bids == old(bids)
    {
      if side == BUY {
        bids := l;
      } else {
        asks := l;
      }
    }

    /** Unlinks the level found at `price` from its side and releases its block. */
    method RemoveOrdersAtPrice(side: Side, price: int, ghost ids: seq<int>, ghost k: nat)
      requires Pools() && IsSide(side) && LevelInRing(Memory(), side, ids, k) && price == levels[ids[k]].price
      modifies this`table, this`bids, this`asks, this`lNext, this`lPrev, levelPool.isFree
      ensures Pools()
      ensures old(LevelInRing(Memory(), side, ids, k)) && LevelUnlinked(old(Memory()), side, ids, k, Memory())
    {
      var best := BestOf(side);
      var l := LevelAt(price);
      assert l == ids[k];
      if lNext[l] == l {
        SetBest(side, NULL);
      } else {
        var before, after := lPrev[l], lNext[l];
        lNext := lNext[before := after];
        lPrev := lPrev[after := before];
        if l == best {
          SetBest(side, lNext[l]);
        }
        lPrev := lPrev[l := NULL];
        lNext := lNext[l := NULL];
      }
      table := table - {Slot(price)};
      var ok := levelPool.Deallocate(l);
      assert ok;
    }

    /** Unlinks an order between its neighbours in a level of several. */
    method UnlinkFromLevel(order: int, l: int, ghost q: seq<int>, ghost j: nat)
      requires InRing(Memory(), l, q, j) && order == q[j] && |q| > 1
      modifies this`oNext, this`oPrev, this`levels
      ensures old(InRing(Memory(), l, q, j)) && OrderUnlinked(old(Memory()), l, q, j, Memory())
    {
      var before, after := oPrev[order], oNext[order];
      oNext := oNext[before := after];
      oPrev := oPrev[after := before];
      if levels[l].first == order {
        levels := levels[l := levels[l].(first := after)];
      }
      oPrev := oPrev[order := NULL];
      oNext := oNext[order := NULL];
    }

    /** Takes an order out of the rings; an emptied level goes with it. */
    method Unlink(order: int)
      requires Pools() && Consistent(Memory(), shape) && Linked(Memory(), shape, order)
      modifies this`table, this`bids, this`asks, this`lNext, this`lPrev, this`oNext, this`oPrev, this`levels,
               this`shape, levelPool.isFree
      ensures Pools()
      ensures old(Struct(Memory(), shape)) && Loose(old(Memory()), old(shape), order, Memory(), shape)
    {
      ghost var m, s := Memory(), shape;
      ghost var side, k, j := Locate(m, s, order);
      var l := LevelAt(orders[order].price);
      ghost var q := s.queue[l];
      OrderInRing(m, s, l, j);
      if oPrev[order] == order {
        LevelIsInRing(m, s, side, k);
        RemoveOrdersAtPrice(orders[order].side, orders[order].price, Ids(s, side), k);
        shape := UnlinkedLevelShape(s, side, k);
        LevelLoose(m, s, order, side, k, Memory());
      } else {
        UnlinkFromLevel(order, l, q, j);
        shape := UnlinkedOrderShape(s, side, k, j);
        OrderLoose(m, s, order, side, k, j, Memory());
      }
    }

    /** Takes an order out of its level, the client map and the pool; an emptied level goes with it. */
    method RemoveOrder(order: int)
      requires Pools() && Consistent(Memory(), shape) && Linked(Memory(), shape, order)
      modifies this`table, this`bids, this`asks, this`lNext, this`lPrev, this`oNext, this`oPrev, this`levels,
               this`clients, this`shape, orderPool.isFree, levelPool.isFree
      ensures Pools() && Consistent(Memory(), shape)
      ensures SideQueue(Memory(), shape, BUY) == Without(old(SideQueue(Memory(), shape, BUY)), orders[order].Key())
      ensures SideQueue(Memory(), shape, SELL) == Without(old(SideQueue(Memory(), shape, SELL)), orders[order].Key())
    {
      ghost var m, s := Memory(), shape;
      assert !m.oFree[order];
      Unlink(order);
      ghost var m1 := Memory();
      clients := clients - {orders[order].Key()};
      var ok := orderPool.Deallocate(order);
      assert ok;
      Removed(m, s, order, m1, shape, Memory());
    }

    /** Gives an order the first place of a new level. `ok` is false when that took the last level block. */
    method RestInNewLevel(order: int) returns (ok: bool, ghost k: nat)
      requires Pools() && Struct(Memory(), shape) && LevelPoolOk(Memory(), shape, NULL)
      requires 0 <= order < |orders| && !Linked(Memory(), shape, order) && IsSide(orders[order].side)
      requires Slot(orders[order].price) !in table
      modifies this`table, this`bids, this`asks, this`lNext, this`lPrev, this`oNext, this`oPrev, this`levels,
               this`shape, levelPool`nextFree, levelPool.isFree
      ensures ok <==> Pool.Free(levelPool.isFree[..])
      ensures levelPool.isFree[..] == old(levelPool.isFree[..])[old(levelPool.nextFree) := false]
      ensures ok ==> Pools() && k <= old(|Ids(shape, orders[order].side)|)
      ensures ok ==> old(Position(Memory(), shape, orders[order].side, orders[order].price, k))
      ensures var safe := LinksSafely(code, orders[order].side, k, old(|Ids(shape, orders[order].side)|));
              && (ok && safe ==> Rested(old(Memory()), old(shape), order, Memory(), shape))
              && (ok && !safe ==> forall s :: !Struct(Memory(), s))
    {
      ghost var m := Memory();
      var l;
      ok, l := NewLevel(order);
      k := 0;
      if ok {
        k := LinkNewLevel(order, l, m);
      }
    }

    /** Links a level that was just prepared for an order; `m` is the memory before. */
    method LinkNewLevel(order: int, l: nat, ghost m: Mem) returns (ghost k: nat)
      requires Struct(m, shape) && LevelPoolOk(m, shape, NULL)
      requires 0 <= order < |m.orders| && Slot(m.orders[order].price) !in m.table && !Linked(m, shape, order)
      requires IsSide(m.orders[order].side)
      requires l < |m.levels| && l !in shape.queue && Prepared(m, order, l, Memory())
      modifies this`table, this`bids, this`asks, this`lNext, this`lPrev, this`shape
      ensures k <= |Ids(old(shape), m.orders[order].side)|
      ensures Position(m, old(shape), m.orders[order].side, m.orders[order].price, k)
      ensures if LinksSafely(code, m.orders[order].side, k, |Ids(old(shape), m.orders[order].side)|)
              then Rested(m, old(shape), order, Memory(), shape) else forall s :: !Struct(Memory(), s)
    {
      ghost var m1, s := Memory(), shape;
      FreshBlocks(m, s, order, l, m1);
      k := AddOrdersAtPrice(l);
      FreshPosition(m, s, l, m1, m.orders[order].side, m.orders[order].price, k);
      if LinksSafely(code, m.orders[order].side, k, |Ids(s, m.orders[order].side)|) {
        RestedFresh(m, s, l, order, k, m1, Memory());
      }
    }

    /** Points an order at itself and allocates a level block for it. */
    method NewLevel(order: int) returns (ok: bool, l: nat)
      requires Pools() && Sizes(Memory()) && LevelPoolOk(Memory(), shape, NULL) && 0 <= order < |orders|
      modifies this`oNext, this`oPrev, this`levels, this`lNext, this`lPrev, levelPool`nextFree, levelPool.isFree
      ensures ok <==> Pool.Free(levelPool.isFree[..])
      ensures levelPool.isFree[..] == old(levelPool.isFree[..])[old(levelPool.nextFree) := false]
      ensures l < |levels| && l !in shape.queue
      ensures ok ==> Pools() && old(Sizes(Memory())) && Prepared(old(Memory()), order, l, Memory())
    {
      oNext, oPrev := oNext[order := order], oPrev[order := order];
      ghost var free := levelPool.isFree[..];
      ok, l := levelPool.Allocate();
      assert free[l] && l !in shape.queue;
      levels := levels[l := MEOrdersAtPrice(orders[order].side, orders[order].price, order)];
      lNext, lPrev := lNext[l := NULL], lPrev[l := NULL];
    }

    /** The bounds checks of the client table. */
    method InClientTable(o: MEOrder) returns (inside: bool)
      ensures inside <==> InTables(o)
    {
      inside := o.clientId < ME_MAX_NUM_CLIENTS && o.clientOrderId < ME_MAX_ORDER_IDS;
    }

    /** Rests an order in level `l`, in terms of the book. */
    method RestInLevel(order: int, l: int)
      requires Struct(Memory(), shape) && LevelPoolOk(Memory(), shape, NULL)
      requires 0 <= order < |orders| && !Linked(Memory(), shape, order) && IsSide(orders[order].side)
      requires l in shape.queue && 0 <= l < |levels|
      modifies this`oNext, this`oPrev, this`shape
      ensures |oNext| == |old(oNext)| && |oPrev| == |old(oPrev)|
      ensures levels[l].price == orders[order].price && levels[l].side == orders[order].side ==>
                Rested(old(Memory()), old(shape), order, Memory(), shape)
    {
      RestBehind(order, l);
    }

    /** Gives an order the last place of level `l`. */
    method RestBehind(order: int, l: int)
      requires Struct(Memory(), shape) && LevelPoolOk(Memory(), shape, NULL)
      requires 0 <= order < |orders| && !Linked(Memory(), shape, order) && IsSide(orders[order].side)
      requires l in shape.queue && 0 <= l < |levels|
      modifies this`oNext, this`oPrev, this`shape
      ensures var first, last := levels[l].first, old(oPrev)[levels[l].first];
              && oNext == old(oNext)[last := order][order := first]
              && oPrev == old(oPrev)[order := last][first := order]
      ensures levels[l].price == orders[order].price && levels[l].side == orders[order].side ==>
                Rested(old(Memory()), old(shape), order, Memory(), shape)
    {
      ghost var m, s := Memory(), shape;
      ghost var q := s.queue[l];
      assert QueueOk(m, l, q);
      OrderInRing(m, s, l, 0);
      InLevelIsLinked(m, s, l, q[0]);
      InLevelIsLinked(m, s, l, q[|q| - 1]);
      var first := levels[l].first;
      var last := oPrev[first];
      oNext := oNext[last := order];
      oPrev := oPrev[order := last];
      oNext := oNext[order := first];
      oPrev := oPrev[first := order];
      if levels[l].price == orders[order].price && levels[l].side == orders[order].side {
        shape := s.(queue := s.queue[l := q + [order]]);
        RestedBehind(m, s, l, order, Memory(), shape);
      }
    }

    /** Rests an order behind all others of its price. The process ends (`ok` is false) when that takes the
        last level block, or when the client or order id lies outside the client map.
        The program checks none of what `Restable` says; the memory is still a book exactly when it holds. */
    method AddOrder(order: int) returns (ok: bool)
      requires Pools() && Struct(Memory(), shape) && LevelPoolOk(Memory(), shape, NULL)
      requires OrderPoolOk(Memory(), shape, order) && ClientsOk(Memory(), shape, NULL)
      requires 0 <= order < |orders| && !Linked(Memory(), shape, order) && IsSide(orders[order].side)
      modifies this`table, this`bids, this`asks, this`lNext, this`lPrev, this`oNext, this`oPrev, this`levels,
               this`clients, this`shape, levelPool`nextFree, levelPool.isFree
      ensures ok <==> InTables(orders[order]) && Pool.Free(levelPool.isFree[..])
      ensures levelPool.isFree[..] == if Slot(orders[order].price) in old(table) then old(levelPool.isFree[..])
                                      else old(levelPool.isFree[..])[old(levelPool.nextFree) := false]
      ensures ok ==> Pools() && clients == old(clients)[orders[order].Key() := order]
      ensures ok && Restable(code, old(Abstract(Memory(), shape, 1)), orders[order]) ==>
                var side := orders[order].side;
                && Consistent(Memory(), shape)
                && SideQueue(Memory(), shape, side) == Insert(old(SideQueue(Memory(), shape, side)), orders[order])
                && SideQueue(Memory(), shape, Opposite(side)) == old(SideQueue(Memory(), shape, Opposite(side)))
      ensures ok && !Restable(code, old(Abstract(Memory(), shape, 1)), orders[order]) ==>
                forall s :: !Consistent(Memory(), s)
    {
      ghost var m, s := Memory(), shape;
      ghost var o := orders[order];
      ghost var k := 0;
      var l := LevelAt(orders[order].price);
      if l == NULL {
        NullIsNoLevel(m, s, o.price);
        ok, k := RestInNewLevel(order);
        if !ok {
          return;
        }
      } else {
        NullIsNoLevel(m, s, o.price);
        RestInLevel(order, l);
        assert levelPool.isFree[..][levelPool.nextFree];
      }
      ghost var m1 := Memory();
      var inside := InClientTable(orders[order]);
      if !inside {
        return false;
      }
      clients := clients[orders[order].Key() := order];
      ok := true;
      RestOutcome(code, m, s, order, l, k, m1, shape, Memory(), 1);
    }

    /** One more than the priority of the last order in the price's slot, or 1. That is the last order at the price, if
        the slot is fit for an order like `o`. */
    method GetNextPriority(price: int, ghost o: MEOrder) returns (p: nat)
      requires Struct(Memory(), shape) && IsSide(o.side) && o.price == price
      ensures p == SlotPriority(Abstract(Memory(), shape, 1), price)
      ensures SlotFitsInMemory(Memory(), o) ==> p == LastPriority(SideQueue(Memory(), shape, o.side), price) + 1
    {
      ghost var m, s := Memory(), shape;
      var l := LevelAt(price);
      NullIsNoLevel(m, s, price);
      if l == NULL {
        FreshPriority(m, s, o.side, price);
        EmptySlot(m, s, price, 1);
        return 1;
      }
      OrderInRing(m, s, l, 0);
      InLevelIsLinked(m, s, l, s.queue[l][0]);
      InLevelIsLinked(m, s, l, s.queue[l][|s.queue[l]| - 1]);
      LevelSlot(m, s, price, 1);
      p := orders[oPrev[levels[l].first]].priority + 1;
      if SlotFitsInMemory(m, o) {
        LevelSide(m, s, l);
        ghost var k :| 0 <= k < |Ids(s, o.side)| && Ids(s, o.side)[k] == l;
        LevelPriority(m, s, o.side, k);
      }
    }

    /** The book's memory fits together and stands for the queues recorded in `bidQueue` and `askQueue`. */
    ghost predicate Holds()
      reads this, orderPool, orderPool.isFree, levelPool, levelPool.isFree
    {
      forall u {:trigger Sealed(u)} :: Sealed(u) ==>
        && Pools()
        && Consistent(Memory(), shape)
        && bidQueue == SideQueue(Memory(), shape, BUY)
        && askQueue == SideQueue(Memory(), shape, SELL)
    }

    ghost function QueueOf(side: Side): seq<MEOrder>
      reads this`bidQueue, this`askQueue
    {
      if side == BUY then bidQueue else askQueue
    }

    /** `itr` is the first order of the best level, the front of the side's queue; null when it is empty. */
    ghost predicate IsFirst(side: Side, itr: int)
      reads this
    {
      if QueueOf(side) == [] then itr == NULL
      else
        && 0 <= itr < |orders| && orders[itr] == QueueOf(side)[0]
        && 0 <= BestOf(side) < |levels| && itr == levels[BestOf(side)].first
    }

    /** The first order of a side, null when the side is empty. */
    method FirstOrder(side: Side) returns (itr: int)
      requires Holds() && IsSide(side)
      ensures IsFirst(side, itr)
    {
      assert Sealed(0);
      FrontOrder(Memory(), shape, side);
      var best := BestOf(side);
      if best == NULL {
        return NULL;
      }
      itr := levels[best].first;
    }

    /** Takes `fill` off the first order of a side. */
    method FillFront(side: Side, itr: int, fill: nat)
      requires Holds() && IsSide(side)
      requires 0 <= BestOf(side) < |levels| && itr == levels[BestOf(side)].first
      requires 0 <= itr < |orders| && fill <= orders[itr].qty
      modifies this`orders, this`bidQueue, this`askQueue
      ensures Holds()
      ensures orders == old(orders)[itr := old(orders[itr]).(qty := old(orders[itr]).qty - fill)]
      ensures var q := old(QueueOf(side));
              && q != [] && q[0] == old(orders[itr])
              && QueueOf(side) == [q[0].(qty := q[0].qty - fill)] + q[1..]
      ensures QueueOf(Opposite(side)) == old(QueueOf(Opposite(side)))
    {
      ghost var q, p := QueueOf(side), QueueOf(Opposite(side));
      UnsealSide(side);
      FillFrontNode(side, itr, fill, q, p);
      ResealSide(side, [q[0].(qty := q[0].qty - fill)] + q[1..], p);
    }

    method FillFrontNode(side: Side, itr: int, fill: nat, ghost q: seq<MEOrder>, ghost p: seq<MEOrder>)
      requires Pools() && Consistent(Memory(), shape) && IsSide(side)
      requires 0 <= BestOf(side) < |levels| && itr == levels[BestOf(side)].first
      requires 0 <= itr < |orders| && fill <= orders[itr].qty
      requires SideQueue(Memory(), shape, side) == q && SideQueue(Memory(), shape, Opposite(side)) == p
      modifies this`orders
      ensures Pools() && Consistent(Memory(), shape)
      ensures orders == old(orders)[itr := old(orders[itr]).(qty := old(orders[itr]).qty - fill)]
      ensures q != [] && q[0] == old(orders[itr])
      ensures SideQueue(Memory(), shape, side) == [q[0].(qty := q[0].qty - fill)] + q[1..]
      ensures SideQueue(Memory(), shape, Opposite(side)) == p
    {
      ghost var m := Memory();
      orders := orders[itr := orders[itr].(qty := orders[itr].qty - fill)];
      FrontLowered(m, shape, side, itr, orders[itr].qty, Memory());
    }

    /** Removes the first order of a side. */
    method RemoveFront(side: Side, itr: int)
      requires Holds() && IsSide(side)
      requires 0 <= BestOf(side) < |levels| && itr == levels[BestOf(side)].first
      modifies this`table, this`bids, this`asks, this`lNext, this`lPrev, this`oNext, this`oPrev, this`levels,
               this`clients, this`shape, this`bidQueue, this`askQueue, orderPool.isFree, levelPool.isFree
      ensures Holds()
      ensures old(QueueOf(side)) != [] && QueueOf(side) == old(QueueOf(side))[1..]
      ensures QueueOf(Opposite(side)) == old(QueueOf(Opposite(side)))
    {
      Unseal();
      RemoveFrontNode(side, itr);
      Reseal();
    }

    method RemoveFrontNode(side: Side, itr: int)
      requires Pools() && Consistent(Memory(), shape) && IsSide(side)
      requires 0 <= BestOf(side) < |levels| && itr == levels[BestOf(side)].first
      modifies this`table, this`bids, this`asks, this`lNext, this`lPrev, this`oNext, this`oPrev, this`levels,
               this`clients, this`shape, orderPool.isFree, levelPool.isFree
      ensures Pools() && Consistent(Memory(), shape)
      ensures old(SideQueue(Memory(), shape, side)) != []
      ensures SideQueue(Memory(), shape, side) == old(SideQueue(Memory(), shape, side))[1..]
      ensures SideQueue(Memory(), shape, Opposite(side)) == old(SideQueue(Memory(), shape, Opposite(side)))
    {
      ghost var m := Memory();
      FrontOrder(m, shape, side);
      WithoutFront(m, shape, side);
      OtherSideAbsent(m, shape, side, itr);
      RemoveOrder(itr);
    }

    /** Trades the incoming order with `itr`, the first order of the opposite side's best level, and tells
        both clients and the market. A resting order that is used up leaves the book. */
    method MatchOrder(r: ClientRequest, id: nat, itr: int, leaves: nat) returns (left: nat)
      requires Holds() && IsSide(r.side)
      requires 0 <= BestOf(Opposite(r.side)) < |levels| && itr == levels[BestOf(Opposite(r.side))].first
      requires 0 <= itr < |orders|
      modifies this`table, this`bids, this`asks, this`lNext, this`lPrev, this`oNext, this`oPrev, this`levels,
               this`orders, this`clients, this`shape, this`bidQueue, this`askQueue, orderPool.isFree, levelPool.isFree,
               out
      ensures Holds()
      ensures var q := old(QueueOf(Opposite(r.side)));
              && q != []
              && var fill := Min(q[0].qty, leaves);
              && left == leaves - fill
              && QueueOf(Opposite(r.side)) == AfterFill(q, fill)
              && QueueOf(r.side) == old(QueueOf(r.side))
              && out.responses == old(out.responses) + [TakerFill(r, id, q[0], fill, left), MakerFill(r, q[0], fill)]
              && out.updates == old(out.updates) + [Trade(r, q[0], fill), MakerUpdate(r, q[0], fill)]
    {
      var resting := orders[itr];
      var fillQty := Min(resting.qty, leaves);
      left := leaves - fillQty;
      ghost var q := QueueOf(Opposite(r.side));
      FillFront(Opposite(r.side), itr, fillQty);
      ReportFill(r, id, resting, fillQty, left);
      assert QueueOf(Opposite(r.side))[1..] == q[1..];
      if orders[itr].qty == 0 {
        RemoveFront(Opposite(r.side), itr);
      }
    }

    /** The messages of one fill: both clients, the trade, and what became of the resting order. */
    method ReportFill(r: ClientRequest, id: nat, resting: MEOrder, fillQty: nat, left: nat)
      requires fillQty <= resting.qty
      modifies out
      ensures out.responses
                == old(out.responses) + [TakerFill(r, id, resting, fillQty, left), MakerFill(r, resting, fillQty)]
      ensures out.updates == old(out.updates) + [Trade(r, resting, fillQty), MakerUpdate(r, resting, fillQty)]
    {
      var qty := resting.qty - fillQty;
      out.SendClientResponse(ClientResponse(FILLED, r.clientId, r.tickerId, r.orderId, id, r.side, resting.price,
          fillQty, left));
      out.SendClientResponse(ClientResponse(FILLED, resting.clientId, r.tickerId, resting.clientOrderId,
                                            resting.marketOrderId,
                                            resting.side, resting.price, fillQty, qty));
      out.SendMarketUpdate(MarketUpdate(TRADE, ORDER_ID_INVALID, r.tickerId, r.side, resting.price, fillQty,
          PRIORITY_INVALID));
      if qty == 0 {
        out.SendMarketUpdate(MarketUpdate(UpdateType.CANCEL, resting.marketOrderId, r.tickerId, resting.side,
                                          resting.price,
                                          resting.qty, PRIORITY_INVALID));
      } else {
        out.SendMarketUpdate(MarketUpdate(MODIFY, resting.marketOrderId, r.tickerId, resting.side, resting.price,
            qty, resting.priority));
      }
    }

    /** Trades the incoming order while quantity is left and the opposite side's best price is within its
        limit; what is sent and what remains is what price-time matching says. */
    method CheckForMatch(r: ClientRequest, id: nat) returns (leaves: nat)
      requires Holds() && IsSide(r.side)
      modifies this`table, this`bids, this`asks, this`lNext, this`lPrev, this`oNext, this`oPrev, this`levels,
               this`orders, this`clients, this`shape, this`bidQueue, this`askQueue, orderPool.isFree, levelPool.isFree,
               out
      ensures Holds()
      ensures var m := PriceTime.Match(r, id, old(QueueOf(Opposite(r.side))), r.qty);
              && leaves == m.leaves
              && QueueOf(Opposite(r.side)) == m.queue
              && QueueOf(r.side) == old(QueueOf(r.side))
              && out.responses == old(out.responses) + m.responses
              && out.updates == old(out.updates) + m.updates
    {
      leaves := r.qty;
      ghost var opp := Opposite(r.side);
      ghost var cs0, us0 := out.responses, out.updates;
      ghost var full := PriceTime.Match(r, id, QueueOf(opp), r.qty);
      MatchStart(full, cs0, us0);
      var itr := FirstOrder(Opposite(r.side));
      while leaves > 0 && itr != NULL
        invariant Holds() && IsFirst(opp, itr)
        invariant QueueOf(r.side) == old(QueueOf(r.side))
        invariant Continues(full, cs0, us0, out.responses, out.updates, PriceTime.Match(r, id, QueueOf(opp), leaves))
        decreases |QueueOf(opp)|, leaves
      {
        if !Crosses(r.side, r.price, orders[itr].price) {
          break;
        }
        leaves, itr := TradeFront(r, id, itr, leaves, full, cs0, us0);
      }
      MatchDone(r, id, QueueOf(opp), leaves, full, cs0, us0, out.responses, out.updates);
      assert out.responses == old(out.responses) + full.responses;
      assert leaves == full.leaves;
    }

    /** One turn of the matching loop. */
    method TradeFront(r: ClientRequest, id: nat, itr: int, leaves: nat, ghost full: Matched,
                      ghost cs0: seq<ClientResponse>, ghost us0: seq<MarketUpdate>)
      returns (left: nat, next: int)
      requires Holds() && IsSide(r.side) && leaves > 0 && itr != NULL && IsFirst(Opposite(r.side), itr)
      requires Crosses(r.side, r.price, orders[itr].price)
      requires Continues(full, cs0, us0, out.responses, out.updates,
                         PriceTime.Match(r, id, QueueOf(Opposite(r.side)), leaves))
      modifies this`table, this`bids, this`asks, this`lNext, this`lPrev, this`oNext, this`oPrev, this`levels,
               this`orders, this`clients, this`shape, this`bidQueue, this`askQueue, orderPool.isFree, levelPool.isFree,
               out
      ensures Holds() && IsFirst(Opposite(r.side), next)
      ensures QueueOf(r.side) == old(QueueOf(r.side))
      ensures Continues(full, cs0, us0, out.responses, out.updates,
                        PriceTime.Match(r, id, QueueOf(Opposite(r.side)), left))
      ensures left <= leaves
      ensures |QueueOf(Opposite(r.side))| < |old(QueueOf(Opposite(r.side)))|
              || (|QueueOf(Opposite(r.side))| == |old(QueueOf(Opposite(r.side)))| && left < leaves)
    {
      MatchStep(r, id, QueueOf(Opposite(r.side)), leaves, full, cs0, us0, out.responses, out.updates);
      left := MatchOrder(r, id, itr, leaves);
      next := FirstOrder(Opposite(r.side));
    }

    /** Writes an order into a free block of the pool. `ok` is false when that was the last one. */
    method NewOrder(o: MEOrder) returns (ok: bool, x: nat)
      requires Pools() && Consistent(Memory(), shape)
      modifies this`orders, this`oNext, this`oPrev, orderPool`nextFree, orderPool.isFree
      ensures ok <==> Pool.Free(orderPool.isFree[..])
      ensures orderPool.isFree[..] == old(orderPool.isFree[..])[old(orderPool.nextFree) := false]
      ensures ok ==>
                && Pools() && x < |orders| && orders[x] == o && !Linked(Memory(), shape, x)
                && Struct(Memory(), shape) && LevelPoolOk(Memory(), shape, NULL)
                && OrderPoolOk(Memory(), shape, x) && ClientsOk(Memory(), shape, NULL)
                && SideQueue(Memory(), shape, BUY) == old(SideQueue(Memory(), shape, BUY))
                && SideQueue(Memory(), shape, SELL) == old(SideQueue(Memory(), shape, SELL))
    {
      ghost var m := Memory();
      ok, x := orderPool.Allocate();
      orders := orders[x := o];
      oNext, oPrev := oNext[x := NULL], oPrev[x := NULL];
      FreshOrder(m, shape, x, Memory());
    }

    /** Rests what matching left of an incoming order, and tells the market. */
    method RestRemainder(r: ClientRequest, id: nat, leaves: nat) returns (ok: bool)
      requires Holds() && IsSide(r.side)
      modifies this`table, this`bids, this`asks, this`lNext, this`lPrev, this`oNext, this`oPrev, this`levels,
               this`orders, this`clients, this`shape, this`bidQueue, this`askQueue, orderPool`nextFree,
               orderPool.isFree, levelPool`nextFree, levelPool.isFree, out
      ensures var o := MEOrder(r.tickerId, r.clientId, r.orderId, id, r.side, r.price, leaves,
                               LastPriority(old(QueueOf(r.side)), r.price) + 1);
              && (ok <==> HasPlace(Room(), old(Book()), o))
              && out.responses == old(out.responses)
              && (!ok ==> out.updates == old(out.updates))
              && (ok ==> out.updates == old(out.updates) + [Announced(r, id, leaves, old(Book()))])
              && (ok && Restable(code, old(Book()), o) ==>
                    && Holds() && Announced(r, id, leaves, old(Book())) == AddUpdate(o)
                    && QueueOf(r.side) == Insert(old(QueueOf(r.side)), o)
                    && QueueOf(Opposite(r.side)) == old(QueueOf(Opposite(r.side))))
              && (ok && !Restable(code, old(Book()), o) ==> forall s :: !Consistent(Memory(), s))
    {
      ghost var want := MEOrder(r.tickerId, r.clientId, r.orderId, id, r.side, r.price, leaves,
                                LastPriority(QueueOf(r.side), r.price) + 1);
      ghost var good := Restable(code, Book(), want);
      var priority := PriorityFor(r.price, want);
      var o := MEOrder(r.tickerId, r.clientId, r.orderId, id, r.side, r.price, leaves, priority);
      RestableAlike(code, Book(), Book(), want, o);
      PlaceAlike(Room(), Book(), Book(), want, o);
      if good { RestableFits(code, Book(), want, want); }
      assert good ==> o == want;
      ok := RestSealed(o);
      if ok {
        out.SendMarketUpdate(AddUpdate(o));
      }
    }

    /** The next priority at a price, if the price's slot is fit for an order like `o`. */
    method PriorityFor(price: int, ghost o: MEOrder) returns (p: nat)
      requires Holds() && IsSide(o.side) && o.price == price
      ensures p == SlotPriority(Book(), price)
      ensures SlotFits(bidQueue, o) && SlotFits(askQueue, o) ==> p == LastPriority(QueueOf(o.side), price) + 1
    {
      Unseal();
      SlotsAgree(Memory(), shape, o);
      p := GetNextPriority(price, o);
    }

    /** Rests an order, in terms of the queues. */
    method RestSealed(o: MEOrder) returns (ok: bool)
      requires Holds() && IsSide(o.side)
      modifies this`table, this`bids, this`asks, this`lNext, this`lPrev, this`oNext, this`oPrev, this`levels,
               this`orders, this`clients, this`shape, this`bidQueue, this`askQueue, orderPool`nextFree,
               orderPool.isFree, levelPool`nextFree, levelPool.isFree
      ensures ok <==> HasPlace(Room(), old(Book()), o)
      ensures ok && Restable(code, old(Book()), o) ==>
                && Holds()
                && QueueOf(o.side) == Insert(old(QueueOf(o.side)), o)
                && QueueOf(Opposite(o.side)) == old(QueueOf(Opposite(o.side)))
      ensures ok && !Restable(code, old(Book()), o) ==> forall s :: !Consistent(Memory(), s)
    {
      Unseal();
      ghost var good := Restable(code, Book(), o);
      RestableAlike(code, Book(), Abstract(Memory(), shape, 1), o, o);
      PlaceAlike(Room(), Book(), Abstract(Memory(), shape, 1), o, o);
      ok := RestOrder(o);
      if ok && good {
        Reseal();
      }
    }

    ghost method Unseal()
      requires Holds()
      ensures Pools() && Consistent(Memory(), shape)
      ensures bidQueue == SideQueue(Memory(), shape, BUY) && askQueue == SideQueue(Memory(), shape, SELL)
    {
      assert Sealed(0);
    }

    ghost method UnsealSide(side: Side)
      requires Holds() && IsSide(side)
      ensures Pools() && Consistent(Memory(), shape)
      ensures QueueOf(side) == SideQueue(Memory(), shape, side)
      ensures QueueOf(Opposite(side)) == SideQueue(Memory(), shape, Opposite(side))
    {
      assert Sealed(0);
    }

    ghost method ResealSide(side: Side, own: seq<MEOrder>, opp: seq<MEOrder>)
      requires Pools() && Consistent(Memory(), shape) && IsSide(side)
      requires SideQueue(Memory(), shape, side) == own && SideQueue(Memory(), shape, Opposite(side)) == opp
      modifies this`bidQueue, this`askQueue
      ensures Holds() && QueueOf(side) == own && QueueOf(Opposite(side)) == opp
    {
      Reseal();
    }

    /** Records the queues that the memory stands for. */
    ghost method Reseal()
      requires Pools() && Consistent(Memory(), shape)
      modifies this`bidQueue, this`askQueue
      ensures Holds()
      ensures bidQueue == SideQueue(Memory(), shape, BUY) && askQueue == SideQueue(Memory(), shape, SELL)
    {
      bidQueue, askQueue := SideQueue(Memory(), shape, BUY), SideQueue(Memory(), shape, SELL);
    }

    /** Allocates an order and links it. */
    method RestOrder(o: MEOrder) returns (ok: bool)
      requires Pools() && Consistent(Memory(), shape) && IsSide(o.side)
      modifies this`table, this`bids, this`asks, this`lNext, this`lPrev, this`oNext, this`oPrev, this`levels,
               this`orders, this`clients, this`shape, orderPool`nextFree, orderPool.isFree, levelPool`nextFree,
               levelPool.isFree
      ensures ok <==> HasPlace(Room(), old(Abstract(Memory(), shape, 1)), o)
      ensures ok && Restable(code, old(Abstract(Memory(), shape, 1)), o) ==>
                && Pools() && Consistent(Memory(), shape)
                && SideQueue(Memory(), shape, o.side) == Insert(old(SideQueue(Memory(), shape, o.side)), o)
                && SideQueue(Memory(), shape, Opposite(o.side)) == old(SideQueue(Memory(), shape, Opposite(o.side)))
      ensures ok && !Restable(code, old(Abstract(Memory(), shape, 1)), o) ==> forall s :: !Consistent(Memory(), s)
    {
      var x;
      PlaceExactly(Memory(), shape, o, orderPool.nextFree, levelPool.nextFree);
      ok, x := NewOrder(o);
      if ok {
        RestableAlike(code, old(Abstract(Memory(), shape, 1)), Abstract(Memory(), shape, 1), o, o);
        ok := AddOrder(x);
      }
    }

    /** A new order: acknowledge it, trade it, rest what is left. Book, responses and updates are those of
        price-time priority, fills reporting `ReportedId`, exactly when the remainder may rest; otherwise
        no reading of the memory is a book any more. `ok` is false when the process ends, exactly when the
        remainder finds no place; what was said by then has been sent. */
    method Add(r: ClientRequest) returns (ok: bool)
      requires Valid() && IsNewOrder(r, tickerId)
      modifies this`table, this`bids, this`asks, this`lNext, this`lPrev, this`oNext, this`oPrev, this`levels,
               this`orders, this`clients, this`shape, this`bidQueue, this`askQueue, this`nextMarketOrderId, out,
               orderPool`nextFree, orderPool.isFree, levelPool`nextFree, levelPool.isFree
      ensures var b := old(Book());
              var id := ReportedId(code, b.nextId);
              var x := AddReporting(b, r, id);
              && (ok <==> Survives(Room(), b, r)) && nextMarketOrderId == b.nextId + 1
              && out.responses == old(out.responses) + x.responses
              && out.updates == old(out.updates) + (MatchOf(b, r, id).updates
                                                    + if ok then AddsTo(b, r, MatchOf(b, r, id).leaves) else [])
              && (ok && MayRest(code, b, r) ==>
                    && Valid() && Book() == x.book && out.updates == old(out.updates) + x.updates)
              && (ok && !MayRest(code, b, r) ==> forall s :: !Consistent(Memory(), s))
    {
      AddKeepsWF(code, Book(), r, ReportedId(code, nextMarketOrderId), tickerId);
      ok := AddToBook(r);
    }

    /** `Add`, without regard to whether the book is well formed. */
    method AddToBook(r: ClientRequest) returns (ok: bool)
      requires Holds() && IsSide(r.side)
      modifies this`table, this`bids, this`asks, this`lNext, this`lPrev, this`oNext, this`oPrev, this`levels,
               this`orders, this`clients, this`shape, this`bidQueue, this`askQueue, this`nextMarketOrderId, out,
               orderPool`nextFree, orderPool.isFree, levelPool`nextFree, levelPool.isFree
      ensures var b := old(Book());
              var id := ReportedId(code, b.nextId);
              var x := AddReporting(b, r, id);
              && (ok <==> Survives(Room(), b, r)) && nextMarketOrderId == b.nextId + 1
              && out.responses == old(out.responses) + x.responses
              && out.updates == old(out.updates) + (MatchOf(b, r, id).updates
                                                    + if ok then AddsTo(b, r, MatchOf(b, r, id).leaves) else [])
              && (ok && MayRest(code, b, r) ==>
                    && Holds() && Book() == x.book && out.updates == old(out.updates) + x.updates)
              && (ok && !MayRest(code, b, r) ==> forall s :: !Consistent(Memory(), s))
    {
      ghost var b, us := Book(), out.updates;
      var id := nextMarketOrderId;
      var leaves := AcceptAndMatch(r);
      ghost var reported := ReportedId(code, b.nextId);
      ok := RestIfLeft(r, id, leaves, b, reported);
      Sent(us, MatchOf(b, r, reported).updates, if ok then AddsTo(b, r, leaves) else []);
    }

    /** The second half of `Add`: rest what is left. `b` is the book before the order, whose fills reported
        `reported`. */
    method RestIfLeft(r: ClientRequest, id: nat, leaves: nat, ghost b: PriceTime.Book, ghost reported: nat)
      returns (ok: bool)
      requires Holds() && IsSide(r.side) && id == b.nextId && nextMarketOrderId == b.nextId + 1
      requires QueueOf(r.side) == Queue(b, r.side) && leaves == MatchOf(b, r, reported).leaves
      requires QueueOf(Opposite(r.side)) == MatchOf(b, r, reported).queue
      modifies this`table, this`bids, this`asks, this`lNext, this`lPrev, this`oNext, this`oPrev, this`levels,
               this`orders, this`clients, this`shape, this`bidQueue, this`askQueue, orderPool`nextFree,
               orderPool.isFree, levelPool`nextFree, levelPool.isFree, out
      ensures ok <==> Survives(Room(), b, r)
      ensures out.responses == old(out.responses)
      ensures out.updates == old(out.updates) + if ok then AddsTo(b, r, leaves) else []
      ensures ok && MayRest(code, b, r) ==>
                && Holds() && Book() == AddReporting(b, r, reported).book
                && AddReporting(b, r, reported).updates == MatchOf(b, r, reported).updates + AddsTo(b, r, leaves)
      ensures ok && !MayRest(code, b, r) ==> forall s :: !Consistent(Memory(), s)
    {
      MayRestThen(code, b, r, reported, Book());
      SurvivesThen(Room(), b, r, reported, Book());
      if leaves == 0 {
        AddedTraded(b, r, reported, Book());
        return true;
      }
      AnnouncedThen(b, r, reported, leaves, Book());
      ok := RestRemainder(r, id, leaves);
      if ok && MayRest(code, b, r) {
        AddedResting(b, r, reported, Book());
      }
    }

    /** The first half of `Add`: acknowledge and trade. */
    method AcceptAndMatch(r: ClientRequest) returns (leaves: nat)
      requires Holds() && IsSide(r.side)
      modifies this`table, this`bids, this`asks, this`lNext, this`lPrev, this`oNext, this`oPrev, this`levels,
               this`orders, this`clients, this`shape, this`bidQueue, this`askQueue, this`nextMarketOrderId, out,
               orderPool.isFree, levelPool.isFree
      ensures Holds() && nextMarketOrderId == old(nextMarketOrderId) + 1
      ensures var m := MatchOf(old(Book()), r, ReportedId(code, old(nextMarketOrderId)));
              && leaves == m.leaves
              && QueueOf(Opposite(r.side)) == m.queue
              && out.responses == old(out.responses) + ([Accepted(r, old(nextMarketOrderId))] + m.responses)
              && out.updates == old(out.updates) + m.updates
      ensures QueueOf(r.side) == old(QueueOf(r.side))
    {
      ghost var cs0 := out.responses;
      var id := nextMarketOrderId;
      nextMarketOrderId := nextMarketOrderId + 1;
      StillHolds();
      out.SendClientResponse(Accepted(r, id));
      leaves := CheckForMatch(r, ReportedId(code, id));
      Sent(cs0, [Accepted(r, id)], MatchOf(old(Book()), r, ReportedId(code, id)).responses);
    }

    /** Cancels an order through the client map: exactly what cancelling by search does. The process ends
        on an order id outside the map; a client id outside it is rejected. */
    method Cancel(r: ClientRequest) returns (ok: bool)
      requires Valid() && r.tickerId == tickerId
      modifies this`table, this`bids, this`asks, this`lNext, this`lPrev, this`oNext, this`oPrev, this`levels,
               this`clients, this`shape, this`bidQueue, this`askQueue, orderPool.isFree, levelPool.isFree, out
      ensures ok <==> r.clientId >= ME_MAX_NUM_CLIENTS || r.orderId < ME_MAX_ORDER_IDS
      ensures !ok ==> out.responses == old(out.responses) && out.updates == old(out.updates)
      ensures ok ==>
                var x := PriceTime.Cancel(old(Book()), r);
                && Valid() && Book() == x.book
                && out.responses == old(out.responses) + x.responses
                && out.updates == old(out.updates) + x.updates
    {
      PriceTimeInvariant.CancelWF(Book(), r, tickerId);
      ok := CancelInBook(r);
    }

    /** `Cancel`, without regard to whether the book is well formed. */
    method CancelInBook(r: ClientRequest) returns (ok: bool)
      requires Holds()
      modifies this`table, this`bids, this`asks, this`lNext, this`lPrev, this`oNext, this`oPrev, this`levels,
               this`clients, this`shape, this`bidQueue, this`askQueue, orderPool.isFree, levelPool.isFree, out
      ensures ok <==> r.clientId >= ME_MAX_NUM_CLIENTS || r.orderId < ME_MAX_ORDER_IDS
      ensures !ok ==> out.responses == old(out.responses) && out.updates == old(out.updates)
      ensures ok ==>
                var x := PriceTime.Cancel(old(Book()), r);
                && Holds() && Book() == x.book
                && out.responses == old(out.responses) + x.responses
                && out.updates == old(out.updates) + x.updates
    {
      var key := (r.clientId, r.orderId);
      var order := NULL;
      FindOrder(key);
      if r.clientId < ME_MAX_NUM_CLIENTS {
        if r.orderId >= ME_MAX_ORDER_IDS {
          return false;
        }
        order := if key in clients then clients[key] else NULL;
      }
      if order == NULL {
        out.SendClientResponse(Rejected(r));
      } else {
        CancelFound(r, order);
      }
      return true;
    }

    /** Cancels the order that was found. */
    method CancelFound(r: ClientRequest, order: int)
      requires Holds() && Linked(Memory(), shape, order) && orders[order].Key() == (r.clientId, r.orderId)
      requires Lookup(bidQueue + askQueue, (r.clientId, r.orderId)) == Some(orders[order])
      modifies this`table, this`bids, this`asks, this`lNext, this`lPrev, this`oNext, this`oPrev, this`levels,
               this`clients, this`shape, this`bidQueue, this`askQueue, orderPool.isFree, levelPool.isFree, out
      ensures var x := PriceTime.Cancel(old(Book()), r);
              && Holds() && Book() == x.book
              && out.responses == old(out.responses) + x.responses
              && out.updates == old(out.updates) + x.updates
    {
      var response, update := Canceled(r, orders[order]), CancelUpdate(r, orders[order]);
      RemoveFound(order);
      out.SendMarketUpdate(update);
      out.SendClientResponse(response);
    }

    /** Nothing in the book's memory depends on the next market order id. */
    ghost method StillHolds()
      requires Holds()
      ensures Holds()
    {
    }

    ghost method FindOrder(key: (nat, nat))
      requires Holds()
      ensures key in clients ==> InMap(key)
      ensures var found := Lookup(bidQueue + askQueue, key);
              if key in clients
              then 0 <= clients[key] < |orders| && found == Some(orders[clients[key]])
                   && orders[clients[key]].Key() == key
                   && Linked(Memory(), shape, clients[key])
              else found.None?
    {
      assert Sealed(0);
      assert key in clients ==> InMap(key);
      FoundByKey(Memory(), shape, key);
    }

    /** Removes an order, in terms of the queues. */
    method RemoveFound(order: int)
      requires Holds() && Linked(Memory(), shape, order)
      modifies this`table, this`bids, this`asks, this`lNext, this`lPrev, this`oNext, this`oPrev, this`levels,
               this`clients, this`shape, this`bidQueue, this`askQueue, orderPool.isFree, levelPool.isFree
      ensures Holds()
      ensures bidQueue == Without(old(bidQueue), orders[order].Key())
      ensures askQueue == Without(old(askQueue), orders[order].Key())
    {
      Unseal();
      RemoveOrder(order);
      Reseal();
    }
  }
}

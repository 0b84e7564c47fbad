/** Resting an order: when the memory that results is still a book, and when no reading of it is one. */
module BookResting {
  import opened Types
  import opened Ring
  import opened PriceTime
  import opened BookMemory
  import opened BookAbstraction
  import opened BookSteps

  /** Where the program as written may put a new level: into an empty side, behind every level, or (bids
      only) in front of every level. */
  predicate LinksSafely(code: Code, side: Side, k: nat, n: nat) {
    code.Repaired? || n == 0 || k == n || (side == BUY && k == 0)
  }

  /** The same, read off the side's queue: the price is there already, or worse than all, or a new best bid. */
  predicate PlacesSafely(code: Code, q: seq<MEOrder>, o: MEOrder) {
    || code.Repaired?
    || (exists i :: 0 <= i < |q| && q[i].price == o.price)
    || q == []
    || Better(o.side, q[|q| - 1].price, o.price)
    || (o.side == BUY && Better(BUY, o.price, q[0].price))
  }

  /** No resting order of another price, or of the other side, shares the order's slot of the price table. */
  predicate SlotFits(q: seq<MEOrder>, o: MEOrder) {
    forall i :: 0 <= i < |q| && Slot(q[i].price) == Slot(o.price) ==> q[i].price == o.price && q[i].side == o.side
  }

  predicate KeyFree(q: seq<MEOrder>, o: MEOrder) {
    forall i :: 0 <= i < |q| ==> q[i].Key() != o.Key()
  }

  /** Everything the program relies on, without checking it, when it rests an order. */
  predicate Restable(code: Code, b: Book, o: MEOrder) {
    && KeyFree(b.bids, o) && KeyFree(b.asks, o)
    && SlotFits(b.bids, o) && SlotFits(b.asks, o)
    && PlacesSafely(code, Queue(b, o.side), o)
  }

  /** Neither the id, the priority nor the quantity of an order matters to where it may rest. */
  lemma {:induction false} RestableAlike(code: Code, b: Book, b': Book, o: MEOrder, o': MEOrder)
    requires b.bids == b'.bids && b.asks == b'.asks
    requires o.Key() == o'.Key() && o.price == o'.price && o.side == o'.side
    ensures Restable(code, b, o) <==> Restable(code, b', o')
  {
  }

  lemma {:induction false} RestableFits(code: Code, b: Book, o: MEOrder, o': MEOrder)
    requires Restable(code, b, o) && o.price == o'.price && o.side == o'.side
    ensures SlotFits(b.bids, o') && SlotFits(b.asks, o')
  {
  }

  // ---------------------------------------------------------------- memory and queue say the same

  /** Every linked order can be found in the queue of its side. */
  lemma {:induction false} LinkedInQueue(m: Mem, s: Shape, o: int) returns (n: nat)
    requires Struct(m, s) && Linked(m, s, o) && IsSide(m.orders[o].side)
    ensures n < |SideQueue(m, s, m.orders[o].side)| && SideQueue(m, s, m.orders[o].side)[n] == m.orders[o]
  {
    var side, k, j := Locate(m, s, o);
    n := PlaceOf(m, s, o, side, k, j);
  }

  lemma {:induction false} PlaceOf(m: Mem, s: Shape, o: int, side: Side, k: nat, j: nat) returns (n: nat)
    requires Struct(m, s) && At(m, s, o, side, k, j)
    ensures n < |SideQueue(m, s, side)| && SideQueue(m, s, side)[n] == m.orders[o] && m.orders[o].side == side
  {
    var a, b, c := SideAround(m, s, side, k);
    n := |a| + j;
  }

  lemma {:induction false} LinkedSide(m: Mem, s: Shape, o: int)
    requires Struct(m, s) && Linked(m, s, o)
    ensures IsSide(m.orders[o].side)
  {
    var side, k, j := Locate(m, s, o);
  }

  lemma {:induction false} KeyFreeInMemory(m: Mem, s: Shape, o: MEOrder)
    requires Struct(m, s) && ClientsOk(m, s, NULL)
    ensures o.Key() !in m.clients <==> KeyFree(SideQueue(m, s, BUY), o) && KeyFree(SideQueue(m, s, SELL), o)
  {
    if o.Key() in m.clients {
      var x := m.clients[o.Key()];
      LinkedSide(m, s, x);
      var n := LinkedInQueue(m, s, x);
      assert SideQueue(m, s, m.orders[x].side)[n].Key() == o.Key();
    } else {
      KeyFreeSide(m, s, o, BUY);
      KeyFreeSide(m, s, o, SELL);
    }
  }

  lemma {:induction false} KeyFreeSide(m: Mem, s: Shape, o: MEOrder, side: Side)
    requires Struct(m, s) && ClientsOk(m, s, NULL) && IsSide(side) && o.Key() !in m.clients
    ensures KeyFree(SideQueue(m, s, side), o)
  {
    var q := SideQueue(m, s, side);
    forall i | 0 <= i < |q| ensures q[i].Key() != o.Key() {
      var x := SideMember(m, s, side, i);
    }
  }

  /** The slot is empty, or its level has the order's price and side. */
  ghost predicate SlotFitsInMemory(m: Mem, o: MEOrder) {
    Slot(o.price) in m.table ==>
      var l := m.table[Slot(o.price)];
      0 <= l < |m.levels| && m.levels[l].price == o.price && m.levels[l].side == o.side
  }

  lemma {:induction false} SlotsAgree(m: Mem, s: Shape, o: MEOrder)
    requires Struct(m, s)
    ensures SlotFitsInMemory(m, o) <==> SlotFits(SideQueue(m, s, BUY), o) && SlotFits(SideQueue(m, s, SELL), o)
  {
    if SlotFitsInMemory(m, o) {
      SlotFitsSide(m, s, o, BUY);
      SlotFitsSide(m, s, o, SELL);
    } else {
      var l := m.table[Slot(o.price)];
      assert l in s.queue && Slot(PriceAt(m, l)) == Slot(o.price);
      var x := s.queue[l][0];
      assert QueueOk(m, l, s.queue[l]);
      InLevelIsLinked(m, s, l, x);
      LinkedSide(m, s, x);
      var n := LinkedInQueue(m, s, x);
    }
  }

  lemma {:induction false} SlotFitsSide(m: Mem, s: Shape, o: MEOrder, side: Side)
    requires Struct(m, s) && SlotFitsInMemory(m, o) && IsSide(side)
    ensures SlotFits(SideQueue(m, s, side), o)
  {
    var q := SideQueue(m, s, side);
    forall i | 0 <= i < |q| && Slot(q[i].price) == Slot(o.price) ensures q[i].price == o.price && q[i].side == o.side {
      var x := SideMember(m, s, side, i);
      LinkedOrderOk(m, s, x);
    }
  }

  /** First and last price of a side's queue are its first and last level's. */
  lemma {:induction false} EndPrices(m: Mem, s: Shape, side: Side)
    requires Struct(m, s) && IsSide(side)
    ensures var ids, q := Ids(s, side), SideQueue(m, s, side);
            && (ids == [] <==> q == [])
            && (ids != [] ==> q[0].price == PriceAt(m, ids[0]) && q[|q| - 1].price == PriceAt(m, ids[|ids| - 1]))
  {
    var ids := Ids(s, side);
    StructFlatOk(m, s, side);
    if ids != [] {
      var n := |ids| - 1;
      assert LevelOk(m, s, ids[0], side) && LevelOk(m, s, ids[n], side);
      assert QueueOk(m, ids[0], s.queue[ids[0]]) && QueueOk(m, ids[n], s.queue[ids[n]]);
      LevelPrices(m, s, side, 0);
      LevelPrices(m, s, side, n);
      var a, b, c := SideAround(m, s, side, 0);
      var a', b', c' := SideAround(m, s, side, n);
      assert ids[n + 1..|ids|] == [] && ids[0..0] == [];
    }
  }

  /** At a fresh price, the safe places in the ring and in the queue are the same. */
  lemma {:induction false} PlacesAgree(code: Code, m: Mem, s: Shape, o: MEOrder, k: nat)
    requires Struct(m, s) && IsSide(o.side) && Position(m, s, o.side, o.price, k)
    requires Slot(o.price) !in m.table
    ensures LinksSafely(code, o.side, k, |Ids(s, o.side)|) <==> PlacesSafely(code, SideQueue(m, s, o.side), o)
  {
    var ids := Ids(s, o.side);
    EndPrices(m, s, o.side);
    forall i | 0 <= i < |ids| ensures PriceAt(m, ids[i]) != o.price {
      assert LevelOk(m, s, ids[i], o.side);
    }
    NoLevelNoOrder(m, s, o.side, o.price);
  }

  lemma {:induction false} LevelAtPrice(m: Mem, s: Shape, o: MEOrder)
    requires Struct(m, s) && IsSide(o.side) && SlotFitsInMemory(m, o) && Slot(o.price) in m.table
    ensures exists i :: 0 <= i < |SideQueue(m, s, o.side)| && SideQueue(m, s, o.side)[i].price == o.price
  {
    var l := m.table[Slot(o.price)];
    assert l in s.queue && QueueOk(m, l, s.queue[l]);
    var x := s.queue[l][0];
    assert OrderOk(m, l, x);
    InLevelIsLinked(m, s, l, x);
    var n := LinkedInQueue(m, s, x);
  }

  // ---------------------------------------------------------------- fresh blocks

  /** The memory once order `x` points at itself and level block `l` holds it, neither of them linked yet. */
  ghost predicate Prepared(m: Mem, x: int, l: int, m': Mem)
    requires Sizes(m) && 0 <= x < |m.orders| && 0 <= l < |m.levels|
  {
    m' == m.(oNext := m.oNext[x := x], oPrev := m.oPrev[x := x],
             levels := m.levels[l := MEOrdersAtPrice(m.orders[x].side, m.orders[x].price, x)],
             lNext := m.lNext[l := NULL], lPrev := m.lPrev[l := NULL], lFree := m.lFree[l := false])
  }

  /** Writing an unlinked order's links and an unlinked level's block disturbs nothing. */
  lemma {:induction false} FreshBlocks(m: Mem, s: Shape, x: int, l: int, m': Mem)
    requires Struct(m, s) && !Linked(m, s, x) && 0 <= x < |m.orders|
    requires 0 <= l < |m.levels| && l !in s.queue && Prepared(m, x, l, m')
    ensures Struct(m', s)
    ensures forall y :: Linked(m', s, y) <==> Linked(m, s, y)
    ensures SideQueue(m', s, BUY) == SideQueue(m, s, BUY) && SideQueue(m', s, SELL) == SideQueue(m, s, SELL)
    ensures LevelPoolOk(m, s, NULL) ==> LevelPoolOk(m', s, l)
  {
    FreshSide(m, s, l, m', BUY);
    FreshSide(m, s, l, m', SELL);
    forall l2 | l2 in s.queue ensures QueueOk(m', l2, s.queue[l2]) {
      assert QueueOk(m, l2, s.queue[l2]);
      if x in s.queue[l2] { InLevelIsLinked(m, s, l2, x); }
      QueueFrame(m, m', l2, s.queue[l2]);
    }
    forall t | t in m'.table ensures m'.table[t] in s.queue && Slot(PriceAt(m', m'.table[t])) == t {
      assert m.table[t] in s.queue;
    }
    Members(m, s, BUY);
    Members(m, s, SELL);
    SideQueueFrame(m, s, m', s, BUY);
    SideQueueFrame(m, s, m', s, SELL);
  }

  /** A position found after the fresh blocks were written is one before, too. */
  lemma {:induction false} FreshPosition(m: Mem, s: Shape, l: int, m': Mem, side: Side, price: int, k: nat)
    requires Struct(m, s) && IsSide(side) && l !in s.queue && |m'.levels| == |m.levels| && 0 <= l < |m.levels|
    requires m'.levels == m.levels[l := m'.levels[l]]
    ensures Position(m', s, side, price, k) <==> Position(m, s, side, price, k)
  {
    var ids := Ids(s, side);
    forall i | 0 <= i < |ids| ensures PriceAt(m', ids[i]) == PriceAt(m, ids[i]) {
      assert LevelOk(m, s, ids[i], side);
    }
  }

  lemma {:induction false} FreshSide(m: Mem, s: Shape, l: int, m': Mem, side: Side)
    requires Sizes(m) && SideOk(m, s, side) && IsSide(side) && 0 <= l < |m.levels| && l !in s.queue
    requires m'.lNext == m.lNext[l := NULL] && m'.lPrev == m.lPrev[l := NULL] && |m'.levels| == |m.levels|
    requires m'.levels == m.levels[l := m'.levels[l]] && m'.table == m.table && Best(m', side) == Best(m, side)
    ensures SideOk(m', s, side)
  {
    var ids := Ids(s, side);
    Members(m, s, side);
    forall i | 0 <= i < |ids| ensures LevelOk(m', s, ids[i], side) {
      assert LevelOk(m, s, ids[i], side);
    }
    forall i, j | 0 <= i < j < |ids| ensures Better(side, PriceAt(m', ids[i]), PriceAt(m', ids[j])) {
      assert LevelOk(m, s, ids[i], side) && LevelOk(m, s, ids[j], side);
      assert Better(side, PriceAt(m, ids[i]), PriceAt(m, ids[j]));
    }
    if ids != [] {
      RingFrame(m.lNext, m.lPrev, m'.lNext, m'.lPrev, ids);
    }
  }

  // ---------------------------------------------------------------- resting well

  /** The order `x` now rests in its queue; it is still to be entered in the client map. */
  ghost predicate Rested(m: Mem, s: Shape, x: int, m': Mem, s': Shape)
    requires Struct(m, s) && 0 <= x < |m.orders| && IsSide(m.orders[x].side)
  {
    && Struct(m', s') && LevelPoolOk(m', s', NULL)
    && (forall y :: Linked(m', s', y) <==> Linked(m, s, y) || y == x)
    && m'.orders == m.orders && m'.clients == m.clients && m'.oFree == m.oFree
    && SideQueue(m', s', m.orders[x].side) == Insert(SideQueue(m, s, m.orders[x].side), m.orders[x])
    && SideQueue(m', s', Opposite(m.orders[x].side)) == SideQueue(m, s, Opposite(m.orders[x].side))
  }

  lemma {:induction false} RestedBehind(m: Mem, s: Shape, l: int, x: int, m': Mem, s': Shape)
    requires Struct(m, s) && LevelPoolOk(m, s, NULL)
    requires l in s.queue && OrderOk(m, l, x) && !Linked(m, s, x) && IsSide(m.orders[x].side)
    requires var q := s.queue[l];
             && QueueOk(m, l, q)
             && var first, last := q[0], q[|q| - 1];
             && s' == s.(queue := s.queue[l := q + [x]])
             && m' == m.(oNext := m.oNext[x := first][last := x], oPrev := m.oPrev[x := last][first := x])
    ensures Rested(m, s, x, m', s')
  {
    LinkLast(m, s, l, x, m', s');
    LinkLastLinked(m, s, l, x, m', s');
    RestedBehindQueues(m, s, l, x, m', s');
    assert s'.queue.Keys == s.queue.Keys;
  }

  lemma {:induction false} RestedBehindQueues(m: Mem, s: Shape, l: int, x: int, m': Mem, s': Shape)
    requires Struct(m, s) && Struct(m', s') && l in s.queue && OrderOk(m, l, x) && IsSide(m.orders[x].side)
    requires s' == s.(queue := s.queue[l := s.queue[l] + [x]]) && m'.orders == m.orders
    ensures SideQueue(m', s', m.orders[x].side) == Insert(SideQueue(m, s, m.orders[x].side), m.orders[x])
    ensures SideQueue(m', s', Opposite(m.orders[x].side)) == SideQueue(m, s, Opposite(m.orders[x].side))
  {
    var side := m.orders[x].side;
    LevelSide(m, s, l);
    var k :| 0 <= k < |Ids(s, side)| && Ids(s, side)[k] == l;
    LinkLastEffect(m, s, side, k, x, m', s');
    OneSide(m, s, side);
    SideQueueFrame(m, s, m', s', Opposite(side));
  }

  ghost function LinkedShape(s: Shape, side: Side, l: int, x: int, k: nat): Shape
    requires k <= |Ids(s, side)|
  {
    WithIds(s, side, Ids(s, side)[..k] + [l] + Ids(s, side)[k..]).(queue := s.queue[l := [x]])
  }

  lemma {:induction false} RestedInNewLevel(m: Mem, s: Shape, l: int, x: int, k: nat, m': Mem)
    requires Struct(m, s) && LevelPoolOk(m, s, l) && !Linked(m, s, x)
    requires 0 <= l < |m.levels| && l !in s.queue && OrderOk(m, l, x) && IsSide(m.orders[x].side)
    requires Slot(PriceAt(m, l)) !in m.table && Position(m, s, m.orders[x].side, m.orders[x].price, k)
    requires Struct(m', LinkedShape(s, m.orders[x].side, l, x, k))
    requires m' == m.(table := m.table[Slot(PriceAt(m, l)) := l], bids := m'.bids, asks := m'.asks,
                      lNext := m'.lNext, lPrev := m'.lPrev)
    ensures Rested(m, s, x, m', LinkedShape(s, m.orders[x].side, l, x, k))
  {
    var side := m.orders[x].side;
    var s' := LinkedShape(s, side, l, x, k);
    LinkLevelLinked(m, s, l, x, m', s');
    LinkLevelEffect(m, s, side, l, x, k, m', s');
    OppositeKept(m, s, l, x, k, m');
    assert s'.queue.Keys == s.queue.Keys + {l};
  }

  lemma {:induction false} OppositeKept(m: Mem, s: Shape, l: int, x: int, k: nat, m': Mem)
    requires Struct(m, s) && 0 <= l < |m.levels| && l !in s.queue && OrderOk(m, l, x) && IsSide(m.orders[x].side)
    requires k <= |Ids(s, m.orders[x].side)|
    requires Struct(m', LinkedShape(s, m.orders[x].side, l, x, k)) && m'.orders == m.orders
    ensures var s' := LinkedShape(s, m.orders[x].side, l, x, k);
            SideQueue(m', s', Opposite(m.orders[x].side)) == SideQueue(m, s, Opposite(m.orders[x].side))
  {
    OneSide(m, s, m.orders[x].side);
    SideQueueFrame(m, s, m', LinkedShape(s, m.orders[x].side, l, x, k), Opposite(m.orders[x].side));
  }

  /** From before the fresh blocks to after the level is linked. */
  lemma {:induction false} RestedFresh(m: Mem, s: Shape, l: int, x: int, k: nat, m1: Mem, m': Mem)
    requires Struct(m, s) && LevelPoolOk(m, s, NULL) && 0 <= x < |m.orders| && !Linked(m, s, x)
    requires IsSide(m.orders[x].side)
    requires 0 <= l < |m.levels| && l !in s.queue && Prepared(m, x, l, m1) && Slot(m.orders[x].price) !in m.table
    requires Position(m1, s, m.orders[x].side, m.orders[x].price, k)
    requires Struct(m', LinkedShape(s, m.orders[x].side, l, x, k))
    requires m' == m1.(table := m.table[Slot(m.orders[x].price) := l], bids := m'.bids, asks := m'.asks,
                       lNext := m'.lNext, lPrev := m'.lPrev)
    ensures Rested(m, s, x, m', LinkedShape(s, m.orders[x].side, l, x, k))
  {
    FreshBlocks(m, s, x, l, m1);
    RestedInNewLevel(m1, s, l, x, k, m');
  }

  /** Entering the order in the client map completes a well-placed addition. */
  lemma {:induction false} Completed(m: Mem, s: Shape, x: int, m1: Mem, s': Shape, m': Mem)
    requires Struct(m, s) && OrderPoolOk(m, s, x) && ClientsOk(m, s, NULL) && 0 <= x < |m.orders| && !Linked(m, s, x)
    requires IsSide(m.orders[x].side) && m.orders[x].Key() !in m.clients
    requires Rested(m, s, x, m1, s')
    requires m' == m1.(clients := m1.clients[m.orders[x].Key() := x])
    ensures Consistent(m', s')
    ensures SideQueue(m', s', m.orders[x].side) == Insert(SideQueue(m, s, m.orders[x].side), m.orders[x])
    ensures SideQueue(m', s', Opposite(m.orders[x].side)) == SideQueue(m, s, Opposite(m.orders[x].side))
  {
    IndexFrame(m1, s', m');
    assert forall y :: Linked(m', s', y) <==> Linked(m1, s', y);
    Register(m, s, x, m', s');
  }

  // ---------------------------------------------------------------- resting badly

  /** A second live order under one key: the first can no longer be found. */
  lemma {:induction false} KeyLost(m: Mem, s: Shape, x: int, m': Mem)
    requires Sizes(m) && OrderPoolOk(m, s, x) && ClientsOk(m, s, NULL) && 0 <= x < |m.orders| && !Linked(m, s, x)
    requires m.orders[x].Key() in m.clients
    requires m'.orders == m.orders && m'.oFree == m.oFree && m'.clients == m.clients[m.orders[x].Key() := x]
    ensures forall s' :: !Consistent(m', s')
  {
    var o := m.clients[m.orders[x].Key()];
    assert !m'.oFree[o];
    forall s' ensures !Consistent(m', s') {
      if OrderPoolOk(m', s', NULL) {
        assert Linked(m', s', o);
      }
    }
  }

  /** An order appended to a level of another price or side. */
  lemma {:induction false} SlotShared(m: Mem, s: Shape, x: int, m': Mem)
    requires Sizes(m) && OrderPoolOk(m, s, x) && 0 <= x < |m.orders|
    requires !SlotFitsInMemory(m, m.orders[x])
    requires m'.orders == m.orders && m'.oFree == m.oFree && m'.levels == m.levels && m'.table == m.table
    ensures forall s' :: !Consistent(m', s')
  {
    assert !m'.oFree[x];
    forall s' ensures !Consistent(m', s') {
      if Consistent(m', s') {
        LinkedOrderOk(m', s', x);
      }
    }
  }

  /** Memory whose rings fit no shape is not repaired by the client map. */
  lemma {:induction false} StillBroken(m: Mem, m': Mem)
    requires forall s' :: !Struct(m, s')
    requires m' == m.(clients := m'.clients)
    ensures forall s' :: !Consistent(m', s')
  {
    forall s' ensures !Consistent(m', s') {
      if Struct(m', s') {
        IndexFrame(m', s', m);
      }
    }
  }

  // ---------------------------------------------------------------- the outcome of resting an order

  /** The client map is an array of arrays: ids outside it end the process. */
  predicate InTables(o: MEOrder) {
    InMap(o.Key())
  }

  predicate InMap(key: (nat, nat)) {
    key.0 < ME_MAX_NUM_CLIENTS && key.1 < ME_MAX_ORDER_IDS
  }

  lemma {:induction false} NullIsNoLevel(m: Mem, s: Shape, price: int)
    requires Struct(m, s)
    ensures Slot(price) in m.table ==>
              && m.table[Slot(price)] != NULL && m.table[Slot(price)] in s.queue
              && 0 <= m.table[Slot(price)] < |m.levels| && s.queue[m.table[Slot(price)]] != []
  {
  }

  lemma {:induction false} FreshPriority(m: Mem, s: Shape, side: Side, price: int)
    requires Struct(m, s) && IsSide(side) && Slot(price) !in m.table
    ensures LastPriority(SideQueue(m, s, side), price) == 0
  {
    var ids := Ids(s, side);
    forall i | 0 <= i < |ids| ensures PriceAt(m, ids[i]) != price {
      assert LevelOk(m, s, ids[i], side);
    }
    NoLevelNoOrder(m, s, side, price);
    LastPriorityNone(SideQueue(m, s, side), price);
  }

  /** What `AddOrder` leaves behind, from what its two halves did: `m1` is the memory before the client
      map was written, reached through a new level when `l` is null and behind level `l` otherwise. */
  lemma {:induction false} RestOutcome(code: Code, m: Mem, s: Shape, x: int, l: int, k: nat, m1: Mem, s1: Shape,
                                       m': Mem, nextId: nat)
    requires Struct(m, s) && OrderPoolOk(m, s, x) && ClientsOk(m, s, NULL)
    requires 0 <= x < |m.orders| && !Linked(m, s, x) && IsSide(m.orders[x].side)
    requires l == if Slot(m.orders[x].price) in m.table then m.table[Slot(m.orders[x].price)] else NULL
    requires m1.orders == m.orders && m1.oFree == m.oFree && m1.clients == m.clients
    requires m' == m1.(clients := m1.clients[m.orders[x].Key() := x])
    requires l == NULL ==>
               && k <= |Ids(s, m.orders[x].side)| && Position(m, s, m.orders[x].side, m.orders[x].price, k)
               && var safe := LinksSafely(code, m.orders[x].side, k, |Ids(s, m.orders[x].side)|);
               && (safe ==> Rested(m, s, x, m1, s1))
               && (!safe ==> forall s' :: !Struct(m1, s'))
    requires l != NULL ==>
               && 0 <= l < |m.levels| && m1.levels == m.levels && m1.table == m.table
               && (m.levels[l].price == m.orders[x].price && m.levels[l].side == m.orders[x].side ==>
                  Rested(m, s, x, m1, s1))
    ensures Restable(code, Abstract(m, s, nextId), m.orders[x]) ==>
              && Consistent(m', s1)
              && SideQueue(m', s1, m.orders[x].side) == Insert(SideQueue(m, s, m.orders[x].side), m.orders[x])
              && SideQueue(m', s1, Opposite(m.orders[x].side)) == SideQueue(m, s, Opposite(m.orders[x].side))
    ensures !Restable(code, Abstract(m, s, nextId), m.orders[x]) ==> forall s' :: !Consistent(m', s')
  {
    var o := m.orders[x];
    RestableInMemory(code, m, s, o, l, k, nextId);
    if o.Key() in m.clients {
      KeyLost(m, s, x, m');
    } else if l == NULL {
      if LinksSafely(code, o.side, k, |Ids(s, o.side)|) {
        Completed(m, s, x, m1, s1, m');
      } else {
        StillBroken(m1, m');
      }
    } else if m.levels[l].price == o.price && m.levels[l].side == o.side {
      Completed(m, s, x, m1, s1, m');
    } else {
      SlotShared(m, s, x, m');
    }
  }

  /** Whether an order may rest, read off the client table, the price table and the place of its price. */
  lemma {:induction false} RestableInMemory(code: Code, m: Mem, s: Shape, o: MEOrder, l: int, k: nat, nextId: nat)
    requires Struct(m, s) && ClientsOk(m, s, NULL) && IsSide(o.side)
    requires l == if Slot(o.price) in m.table then m.table[Slot(o.price)] else NULL
    requires l == NULL ==> k <= |Ids(s, o.side)| && Position(m, s, o.side, o.price, k)
    ensures l == NULL <==> Slot(o.price) !in m.table
    ensures l != NULL ==> 0 <= l < |m.levels|
    ensures Restable(code, Abstract(m, s, nextId), o) <==>
              && o.Key() !in m.clients
              && (if l == NULL then LinksSafely(code, o.side, k, |Ids(s, o.side)|)
                  else m.levels[l].price == o.price && m.levels[l].side == o.side)
  {
    NullIsNoLevel(m, s, o.price);
    KeyFreeInMemory(m, s, o);
    SlotsAgree(m, s, o);
    if l == NULL {
      PlacesAgree(code, m, s, o, k);
    } else if m.levels[l].price == o.price && m.levels[l].side == o.side {
      LevelAtPrice(m, s, o);
    }
  }

  // ---------------------------------------------------------------- finding an order by its client's id

  /** The client map finds in one step what searching both queues finds. */
  lemma {:induction false} FoundByKey(m: Mem, s: Shape, key: (nat, nat))
    requires Struct(m, s) && ClientsOk(m, s, NULL)
    ensures var found := Lookup(SideQueue(m, s, BUY) + SideQueue(m, s, SELL), key);
            if key in m.clients
            then && 0 <= m.clients[key] < |m.orders| && Linked(m, s, m.clients[key])
                 && m.orders[m.clients[key]].Key() == key
                 && found == Some(m.orders[m.clients[key]])
            else found.None?
  {
    var all := SideQueue(m, s, BUY) + SideQueue(m, s, SELL);
    if key in m.clients {
      KeyInQueues(m, s, m.clients[key]);
      assert m.orders[m.clients[key]] in all;
    }
    var found := Lookup(all, key);
    if found.Some? {
      var x := QueueOrder(m, s, found.value);
      assert key in m.clients && m.clients[key] == x;
    }
  }

  lemma {:induction false} KeyInQueues(m: Mem, s: Shape, x: int)
    requires Struct(m, s) && 0 <= x < |m.orders| && Linked(m, s, x)
    ensures m.orders[x] in SideQueue(m, s, BUY) + SideQueue(m, s, SELL)
  {
    LinkedSide(m, s, x);
    var n := LinkedInQueue(m, s, x);
    assert SideQueue(m, s, m.orders[x].side)[n] in SideQueue(m, s, m.orders[x].side);
  }

  lemma {:induction false} QueueOrder(m: Mem, s: Shape, o: MEOrder) returns (x: int)
    requires Struct(m, s) && o in SideQueue(m, s, BUY) + SideQueue(m, s, SELL)
    ensures 0 <= x < |m.orders| && Linked(m, s, x) && m.orders[x] == o
  {
    var side := if o in SideQueue(m, s, BUY) then BUY else SELL;
    var i :| 0 <= i < |SideQueue(m, s, side)| && SideQueue(m, s, side)[i] == o;
    x := SideMember(m, s, side, i);
  }

  /** A key free of both queues is what an admissible order needs. */
  lemma {:induction false} FreshFromFree(b: Book, r: ClientRequest, o: MEOrder)
    requires KeyFree(Traded(b, r).bids, o) && KeyFree(Traded(b, r).asks, o) && o.Key() == (r.clientId, r.orderId)
    ensures FreshKey(b, r)
  {
  }
}

/** The memory of one order book as values: pool blocks, ring links, hash maps and entry points, and what
    it means for them to fit together. A pointer is a block's index in its pool, null is -1. */
module BookMemory {
  import opened Types
  import opened Ring
  import opened PriceTime

  const NULL: int := -1

  /** A price level block, without its ring links. */
  datatype MEOrdersAtPrice = MEOrdersAtPrice(side: Side, price: int, first: int)

  /** `oNext`/`oPrev` link orders within a level, `lNext`/`lPrev` link levels within a side. */
  datatype Mem = Mem(
    orders: seq<MEOrder>, oNext: seq<int>, oPrev: seq<int>, oFree: seq<bool>,
    levels: seq<MEOrdersAtPrice>, lNext: seq<int>, lPrev: seq<int>, lFree: seq<bool>,
    table: map<int, int>, clients: map<(nat, nat), int>, bids: int, asks: int)

  /** What the rings contain: the level blocks of each side from the best price outward, and the order
      blocks of each level from the oldest. */
  datatype Shape = Shape(bids: seq<int>, asks: seq<int>, queue: map<int, seq<int>>)

  function Ids(s: Shape, side: Side): seq<int> {
    if side == BUY then s.bids else s.asks
  }

  function WithIds(s: Shape, side: Side, ids: seq<int>): Shape {
    if side == BUY then s.(bids := ids) else s.(asks := ids)
  }

  function Best(m: Mem, side: Side): int {
    if side == BUY then m.bids else m.asks
  }

  /** `price % ME_MAX_PRICE_LEVELS` after conversion to an unsigned 64-bit number: never negative. */
  function Slot(price: int): int {
    price % ME_MAX_PRICE_LEVELS
  }

  // ---------------------------------------------------------------- well-formed memory

  ghost predicate Sizes(m: Mem) {
    && |m.oNext| == |m.oPrev| == |m.oFree| == |m.orders|
    && |m.lNext| == |m.lPrev| == |m.lFree| == |m.levels|
  }

  /** A linked level: on its own side, and found through the price table. */
  ghost predicate LevelOk(m: Mem, s: Shape, l: int, side: Side) {
    && 0 <= l < |m.levels|
    && l in s.queue
    && m.levels[l].side == side
    && Slot(m.levels[l].price) in m.table
    && m.table[Slot(m.levels[l].price)] == l
  }

  function PriceAt(m: Mem, l: int): int {
    if 0 <= l < |m.levels| then m.levels[l].price else 0
  }

  /** One side: a ring of levels entered at the best price and strictly sorted outward. */
  ghost predicate SideOk(m: Mem, s: Shape, side: Side) {
    var ids := Ids(s, side);
    && (ids == [] ==> Best(m, side) == NULL)
    && (ids != [] ==> Best(m, side) == ids[0] && IsRing(m.lNext, m.lPrev, ids))
    && (forall i {:trigger LevelOk(m, s, ids[i], side)} :: 0 <= i < |ids| ==> LevelOk(m, s, ids[i], side))
    && (forall i, j {:trigger PriceAt(m, ids[i]), PriceAt(m, ids[j])} :: 0 <= i < j < |ids| ==>
          Better(side, PriceAt(m, ids[i]), PriceAt(m, ids[j])))
  }

  ghost predicate OrderOk(m: Mem, l: int, o: int) {
    && 0 <= l < |m.levels|
    && 0 <= o < |m.orders|
    && m.orders[o].price == m.levels[l].price
    && m.orders[o].side == m.levels[l].side
  }

  /** One level: a non-empty ring of orders entered at the oldest, all of the level's side and price. */
  ghost predicate QueueOk(m: Mem, l: int, q: seq<int>) {
    && 0 <= l < |m.levels|
    && IsRing(m.oNext, m.oPrev, q)
    && m.levels[l].first == q[0]
    && forall i {:trigger OrderOk(m, l, q[i])} :: 0 <= i < |q| ==> OrderOk(m, l, q[i])
  }

  ghost predicate QueuesOk(m: Mem, queue: map<int, seq<int>>) {
    forall l {:trigger queue[l]} :: l in queue ==> QueueOk(m, l, queue[l])
  }

  ghost predicate TableOk(m: Mem, s: Shape) {
    forall k {:trigger m.table[k]} :: k in m.table ==> m.table[k] in s.queue && Slot(PriceAt(m, m.table[k])) == k
  }

  ghost predicate LevelsListed(s: Shape) {
    forall l {:trigger l in s.queue} :: l in s.queue ==> l in s.bids || l in s.asks
  }

  ghost predicate Struct(m: Mem, s: Shape) {
    && Sizes(m)
    && SideOk(m, s, BUY)
    && SideOk(m, s, SELL)
    && LevelsListed(s)
    && QueuesOk(m, s.queue)
    && TableOk(m, s)
  }

  /** The order can be reached through the price table and its level's ring. */
  ghost predicate Linked(m: Mem, s: Shape, o: int) {
    && 0 <= o < |m.orders|
    && Slot(m.orders[o].price) in m.table
    && m.table[Slot(m.orders[o].price)] in s.queue
    && o in s.queue[m.table[Slot(m.orders[o].price)]]
  }

  /** The order blocks in use are exactly the linked ones, but for `x`. */
  ghost predicate OrderPoolOk(m: Mem, s: Shape, x: int) {
    forall o {:trigger m.oFree[o]} :: 0 <= o < |m.oFree| ==> (!m.oFree[o] <==> Linked(m, s, o) || o == x)
  }

  /** The level blocks in use are exactly the linked ones, but for `y`. */
  ghost predicate LevelPoolOk(m: Mem, s: Shape, y: int) {
    forall l {:trigger m.lFree[l]} :: 0 <= l < |m.lFree| ==> (!m.lFree[l] <==> l in s.queue || l == y)
  }

  /** The (client, client order id) map finds exactly the linked orders, but for `x`. */
  ghost predicate ClientsOk(m: Mem, s: Shape, x: int) {
    && (forall key {:trigger m.clients[key]} :: key in m.clients ==>
          var o := m.clients[key];
          && 0 <= o < |m.orders|
          && m.orders[o].Key() == key
          && (Linked(m, s, o) || o == x))
    && (forall o {:trigger Linked(m, s, o)} :: Linked(m, s, o) && o != x ==>
          m.orders[o].Key() in m.clients && m.clients[m.orders[o].Key()] == o)
  }

  ghost predicate Consistent(m: Mem, s: Shape) {
    Struct(m, s) && OrderPoolOk(m, s, NULL) && LevelPoolOk(m, s, NULL) && ClientsOk(m, s, NULL)
  }

  // ---------------------------------------------------------------- consequences

  lemma {:induction false} LevelSide(m: Mem, s: Shape, l: int)
    requires Struct(m, s) && l in s.queue
    ensures LevelOk(m, s, l, m.levels[l].side) && IsSide(m.levels[l].side)
    ensures l in Ids(s, m.levels[l].side)
  {
    Members(m, s, BUY);
    Members(m, s, SELL);
  }

  lemma {:induction false} InLevelIsLinked(m: Mem, s: Shape, l: int, o: int)
    requires Struct(m, s) && l in s.queue && o in s.queue[l]
    ensures Linked(m, s, o) && m.table[Slot(m.orders[o].price)] == l && OrderOk(m, l, o)
  {
    LevelSide(m, s, l);
    var i :| 0 <= i < |s.queue[l]| && s.queue[l][i] == o;
    assert QueueOk(m, l, s.queue[l]) && OrderOk(m, l, s.queue[l][i]);
  }

  /** An order is linked in one level only. */
  lemma {:induction false} OneLevel(m: Mem, s: Shape)
    requires Struct(m, s)
    ensures Apart(s.queue)
  {
    forall l, l2, o | l in s.queue && l2 in s.queue && o in s.queue[l] && o in s.queue[l2] ensures l == l2 {
      InLevelIsLinked(m, s, l, o);
      InLevelIsLinked(m, s, l2, o);
    }
  }

  ghost predicate Apart(queue: map<int, seq<int>>) {
    forall l, l2, o :: l in queue && l2 in queue && o in queue[l] && o in queue[l2] ==> l == l2
  }

  /** A level is on one side only. */
  lemma {:induction false} OneSide(m: Mem, s: Shape, side: Side)
    requires SideOk(m, s, side) && SideOk(m, s, Opposite(side)) && IsSide(side)
    ensures forall x :: x in Ids(s, Opposite(side)) ==> x !in Ids(s, side)
    ensures forall x :: x in Ids(s, side) ==> LevelOk(m, s, x, side)
    ensures forall x :: x in Ids(s, Opposite(side)) ==> LevelOk(m, s, x, Opposite(side))
  {
    Members(m, s, side);
    Members(m, s, Opposite(side));
  }

  lemma {:induction false} Members(m: Mem, s: Shape, side: Side)
    requires SideOk(m, s, side)
    ensures forall x :: x in Ids(s, side) ==> LevelOk(m, s, x, side)
  {
  }

  lemma {:induction false} LinkedOrderOk(m: Mem, s: Shape, o: int)
    requires Struct(m, s) && Linked(m, s, o)
    ensures OrderOk(m, m.table[Slot(m.orders[o].price)], o)
  {
  }

  // ---------------------------------------------------------------- steps on order rings

  /** Changing a quantity touches no link and no index. */
  lemma {:induction false} SetQty(m: Mem, s: Shape, o: int, qty: nat, m': Mem)
    requires Consistent(m, s) && 0 <= o < |m.orders|
    requires m' == m.(orders := m.orders[o := m.orders[o].(qty := qty)])
    ensures Consistent(m', s)
  {
    assert forall x :: 0 <= x < |m.orders| ==>
      && m'.orders[x].price == m.orders[x].price && m'.orders[x].side == m.orders[x].side
      && m'.orders[x].Key() == m.orders[x].Key();
    assert forall x :: Linked(m', s, x) <==> Linked(m, s, x);
    SetQtyStruct(m, s, o, qty, m');
  }

  lemma {:induction false} SetQtyStruct(m: Mem, s: Shape, o: int, qty: nat, m': Mem)
    requires Struct(m, s) && 0 <= o < |m.orders|
    requires m' == m.(orders := m.orders[o := m.orders[o].(qty := qty)])
    ensures Struct(m', s)
  {
    SideFrame(m, s, m', s, BUY);
    SideFrame(m, s, m', s, SELL);
    forall l | l in s.queue ensures QueueOk(m', l, s.queue[l]) {
      QueueFrame(m, m', l, s.queue[l]);
    }
  }

  /** A side whose levels, links, entry point and table are unchanged is still a side. */
  lemma {:induction false} SideFrame(m: Mem, s: Shape, m': Mem, s': Shape, side: Side)
    requires SideOk(m, s, side) && IsSide(side)
    requires m'.lNext == m.lNext && m'.lPrev == m.lPrev && Best(m', side) == Best(m, side)
    requires m'.table == m.table && s'.queue.Keys == s.queue.Keys && Ids(s', side) == Ids(s, side)
    requires |m'.levels| == |m.levels|
    requires forall l :: 0 <= l < |m.levels| ==> m'.levels[l].(first := 0) == m.levels[l].(first := 0)
    ensures SideOk(m', s', side)
  {
    var ids := Ids(s, side);
    forall l | 0 <= l < |m.levels|
      ensures m'.levels[l].price == m.levels[l].price && m'.levels[l].side == m.levels[l].side
    {
      assert m'.levels[l].(first := 0).price == m.levels[l].(first := 0).price;
      assert m'.levels[l].(first := 0).side == m.levels[l].(first := 0).side;
    }
    forall i | 0 <= i < |ids| ensures LevelOk(m', s', ids[i], side) {
      assert LevelOk(m, s, ids[i], side);
    }
    forall i, j | 0 <= i < j < |ids| ensures Better(side, PriceAt(m', ids[i]), PriceAt(m', ids[j])) {
      assert LevelOk(m, s, ids[i], side) && LevelOk(m, s, ids[j], side);
      assert Better(side, PriceAt(m, ids[i]), PriceAt(m, ids[j]));
    }
  }

  /** A level whose block, orders and links are unchanged is still a level. */
  lemma {:induction false} QueueFrame(m: Mem, m': Mem, l: int, q: seq<int>)
    requires QueueOk(m, l, q)
    requires |m'.levels| == |m.levels| && m'.levels[l] == m.levels[l]
    requires |m'.oNext| == |m.oNext| && |m'.oPrev| == |m.oPrev| && |m'.orders| == |m.orders|
    requires forall o :: o in q ==> m'.oNext[o] == m.oNext[o] && m'.oPrev[o] == m.oPrev[o]
    requires forall o :: o in q && 0 <= o < |m.orders| ==>
               m'.orders[o].price == m.orders[o].price && m'.orders[o].side == m.orders[o].side
    ensures QueueOk(m', l, q)
  {
    RingFrame(m.oNext, m.oPrev, m'.oNext, m'.oPrev, q);
    forall i | 0 <= i < |q| ensures OrderOk(m', l, q[i]) {
      assert q[i] in q && OrderOk(m, l, q[i]);
    }
  }

  function Drop(q: seq<int>, k: nat): seq<int>
    requires k < |q|
  {
    q[..k] + q[k + 1..]
  }

  lemma {:induction false} UnlinkOrderQueues(m: Mem, queue: map<int, seq<int>>, l: int, k: nat, m': Mem)
    requires QueuesOk(m, queue) && Apart(queue) && l in queue && k < |queue[l]| && |queue[l]| >= 2
    requires var q := queue[l];
             var o, a, b := q[k], q[Pred(k, |q|)], q[Succ(k, |q|)];
             && m'.orders == m.orders
             && m'.oNext == m.oNext[a := b][o := NULL] && m'.oPrev == m.oPrev[b := a][o := NULL]
             && m'.levels == if k == 0 then m.levels[l := m.levels[l].(first := b)] else m.levels
    ensures QueuesOk(m', queue[l := Drop(queue[l], k)])
  {
    var q := queue[l];
    var q' := Drop(q, k);
    var o, a, b := q[k], q[Pred(k, |q|)], q[Succ(k, |q|)];
    assert QueueOk(m, l, q) && o in q && a in q && b in q;
    var queue' := queue[l := q'];
    forall l2 | l2 in queue' ensures QueueOk(m', l2, queue'[l2]) {
      if l2 == l {
        RingWithout(m.oNext, m.oPrev, m'.oNext, m'.oPrev, q, k);
        forall i | 0 <= i < |q'| ensures OrderOk(m', l, q'[i]) {
          assert OrderOk(m, l, q[if i < k then i else i + 1]);
        }
      } else {
        assert QueueOk(m, l2, queue[l2]);
        QueueFrame(m, m', l2, queue[l2]);
      }
    }
  }

  /** Taking one of several orders out of its level's ring. */
  lemma {:induction false} UnlinkOrder(m: Mem, s: Shape, l: int, k: nat, m': Mem, s': Shape)
    requires Struct(m, s) && l in s.queue && k < |s.queue[l]| && |s.queue[l]| >= 2
    requires var q := s.queue[l];
             var o, a, b := q[k], q[Pred(k, |q|)], q[Succ(k, |q|)];
             && s' == s.(queue := s.queue[l := Drop(q, k)])
             && m' == m.(oNext := m.oNext[a := b][o := NULL], oPrev := m.oPrev[b := a][o := NULL],
                         levels := if k == 0 then m.levels[l := m.levels[l].(first := b)] else m.levels)
    ensures Struct(m', s')
  {
    assert QueueOk(m, l, s.queue[l]);
    OneLevel(m, s);
    SideFrame(m, s, m', s', BUY);
    SideFrame(m, s, m', s', SELL);
    UnlinkOrderQueues(m, s.queue, l, k, m');
    assert forall l2 :: PriceAt(m', l2) == PriceAt(m, l2);
  }

  lemma {:induction false} LinkLastQueues(m: Mem, queue: map<int, seq<int>>, l: int, x: int, m': Mem)
    requires QueuesOk(m, queue) && Apart(queue) && l in queue && OrderOk(m, l, x)
    requires forall l2 :: l2 in queue ==> x !in queue[l2]
    requires var q := queue[l];
             && q != []
             && var first, last := q[0], q[|q| - 1];
             && 0 <= x < |m.oNext| && 0 <= x < |m.oPrev| && 0 <= last < |m.oNext| && 0 <= first < |m.oPrev|
             && m'.orders == m.orders && m'.levels == m.levels
             && m'.oNext == m.oNext[x := first][last := x] && m'.oPrev == m.oPrev[x := last][first := x]
    ensures QueuesOk(m', queue[l := queue[l] + [x]])
  {
    var q := queue[l];
    var q' := q + [x];
    assert QueueOk(m, l, q) && q[0] in q && q[|q| - 1] in q;
    var queue' := queue[l := q'];
    forall l2 | l2 in queue' ensures QueueOk(m', l2, queue'[l2]) {
      if l2 == l {
        RingInsert(m.oNext, m.oPrev, m'.oNext, m'.oPrev, q, |q|, x);
        assert q[..|q|] + [x] + q[|q|..] == q';
        forall i | 0 <= i < |q'| ensures OrderOk(m', l, q'[i]) {
          assert i < |q| ==> OrderOk(m, l, q[i]);
        }
      } else {
        assert QueueOk(m, l2, queue[l2]);
        QueueFrame(m, m', l2, queue[l2]);
      }
    }
  }

  /** Appending an order to its level's ring. */
  lemma {:induction false} LinkLast(m: Mem, s: Shape, l: int, x: int, m': Mem, s': Shape)
    requires Struct(m, s) && l in s.queue && OrderOk(m, l, x) && !Linked(m, s, x)
    requires var q := s.queue[l];
             && QueueOk(m, l, q)
             && var first, last := q[0], q[|q| - 1];
             && s' == s.(queue := s.queue[l := q + [x]])
             && m' == m.(oNext := m.oNext[x := first][last := x], oPrev := m.oPrev[x := last][first := x])
    ensures Struct(m', s')
  {
    OneLevel(m, s);
    forall l2 | l2 in s.queue ensures x !in s.queue[l2] {
      if x in s.queue[l2] { InLevelIsLinked(m, s, l2, x); }
    }
    SideFrame(m, s, m', s', BUY);
    SideFrame(m, s, m', s', SELL);
    LinkLastQueues(m, s.queue, l, x, m');
    assert forall l2 :: PriceAt(m', l2) == PriceAt(m, l2);
  }

  // ---------------------------------------------------------------- steps on level rings

  /** Taking a level out of its side: its only order is left dangling, its block is released. */
  lemma {:induction false} UnlinkLevel(m: Mem, s: Shape, side: Side, k: nat, m': Mem, s': Shape)
    requires Struct(m, s) && IsSide(side) && k < |Ids(s, side)|
    requires var ids := Ids(s, side);
             var l := ids[k];
             && s' == WithIds(s, side, Drop(ids, k)).(queue := s.queue - {l})
             && m'.orders == m.orders && m'.oNext == m.oNext && m'.oPrev == m.oPrev && |m'.oFree| == |m.oFree|
             && m'.levels == m.levels && |m'.lFree| == |m.lFree|
             && m'.table == m.table - {Slot(PriceAt(m, l))}
             && Best(m', Opposite(side)) == Best(m, Opposite(side))
             && (if |ids| == 1 then m'.lNext == m.lNext && m'.lPrev == m.lPrev && Best(m', side) == NULL
                 else var a, b := ids[Pred(k, |ids|)], ids[Succ(k, |ids|)];
                 && m'.lNext == m.lNext[a := b][l := NULL] && m'.lPrev == m.lPrev[b := a][l := NULL]
                 && Best(m', side) == if k == 0 then b else Best(m, side))
    ensures Struct(m', s')
  {
    var ids := Ids(s, side);
    var l := ids[k];
    var ids' := Drop(ids, k);
    assert LevelOk(m, s, l, side);
    UnlinkLevelOwn(m, s, side, k, m', s');
    UnlinkLevelOther(m, s, side, k, m', s');
    QueuesShrink(m, s.queue, l, m');
    forall l2 | l2 in s'.queue ensures l2 in s'.bids || l2 in s'.asks {
      if l2 in ids { DropKeeps(ids, k, l2); }
    }
    forall t | t in m'.table ensures m'.table[t] in s'.queue && Slot(PriceAt(m', m'.table[t])) == t {
      assert m.table[t] in s.queue;
    }
  }

  lemma {:induction false} DropKeeps(q: seq<int>, k: nat, x: int)
    requires k < |q| && x in q && x != q[k]
    ensures x in Drop(q, k)
  {
  }

  lemma {:induction false} QueuesShrink(m: Mem, queue: map<int, seq<int>>, l: int, m': Mem)
    requires QueuesOk(m, queue)
    requires m'.orders == m.orders && m'.oNext == m.oNext && m'.oPrev == m.oPrev && m'.levels == m.levels
    ensures QueuesOk(m', queue - {l})
  {
    forall l2 | l2 in queue - {l} ensures QueueOk(m', l2, (queue - {l})[l2]) {
      assert QueueOk(m, l2, queue[l2]);
      QueueFrame(m, m', l2, queue[l2]);
    }
  }

  lemma {:induction false} UnlinkLevelOwn(m: Mem, s: Shape, side: Side, k: nat, m': Mem, s': Shape)
    requires SideOk(m, s, side) && IsSide(side) && k < |Ids(s, side)|
    requires var ids := Ids(s, side);
             var l := ids[k];
             && s'.queue.Keys == s.queue.Keys - {l} && Ids(s', side) == Drop(ids, k)
             && m'.levels == m.levels && m'.table == m.table - {Slot(PriceAt(m, l))}
             && (if |ids| == 1 then m'.lNext == m.lNext && m'.lPrev == m.lPrev && Best(m', side) == NULL
                 else var a, b := ids[Pred(k, |ids|)], ids[Succ(k, |ids|)];
                 && m'.lNext == m.lNext[a := b][l := NULL] && m'.lPrev == m.lPrev[b := a][l := NULL]
                 && Best(m', side) == if k == 0 then b else Best(m, side))
    ensures SideOk(m', s', side)
  {
    var ids := Ids(s, side);
    var l := ids[k];
    var ids' := Drop(ids, k);
    forall i | 0 <= i < |ids'| ensures LevelOk(m', s', ids'[i], side) {
      assert LevelOk(m, s, ids[if i < k then i else i + 1], side) && LevelOk(m, s, l, side);
    }
    forall i, j | 0 <= i < j < |ids'| ensures Better(side, PriceAt(m', ids'[i]), PriceAt(m', ids'[j])) {
      assert Better(side, PriceAt(m, ids[if i < k then i else i + 1]), PriceAt(m, ids[if j < k then j else j + 1]));
    }
    if |ids| > 1 {
      RingWithout(m.lNext, m.lPrev, m'.lNext, m'.lPrev, ids, k);
    }
  }

  /** Unlinking position `k` of a ring of several, and clearing the unlinked slot. */
  lemma {:induction false} RingWithout(next: seq<int>, prev: seq<int>, next': seq<int>, prev': seq<int>, q: seq<int>,
                                       k: nat)
    requires IsRing(next, prev, q) && k < |q| && |q| >= 2
    requires var a, b := q[Pred(k, |q|)], q[Succ(k, |q|)];
             next' == next[a := b][q[k] := NULL] && prev' == prev[b := a][q[k] := NULL]
    ensures IsRing(next', prev', Drop(q, k))
  {
    var a, b := q[Pred(k, |q|)], q[Succ(k, |q|)];
    RingRemove(next, prev, next[a := b], prev[b := a], q, k);
    assert q[k] !in Drop(q, k);
    RingFrame(next[a := b], prev[b := a], next', prev', Drop(q, k));
  }

  lemma {:induction false} UnlinkLevelOther(m: Mem, s: Shape, side: Side, k: nat, m': Mem, s': Shape)
    requires SideOk(m, s, side) && SideOk(m, s, Opposite(side)) && IsSide(side) && k < |Ids(s, side)|
    requires var ids := Ids(s, side);
             var l := ids[k];
             && s'.queue.Keys == s.queue.Keys - {l} && Ids(s', Opposite(side)) == Ids(s, Opposite(side))
             && m'.levels == m.levels && m'.table == m.table - {Slot(PriceAt(m, l))}
             && Best(m', Opposite(side)) == Best(m, Opposite(side))
             && (if |ids| == 1 then m'.lNext == m.lNext && m'.lPrev == m.lPrev
                 else var a, b := ids[Pred(k, |ids|)], ids[Succ(k, |ids|)];
                 m'.lNext == m.lNext[a := b][l := NULL] && m'.lPrev == m.lPrev[b := a][l := NULL])
    ensures SideOk(m', s', Opposite(side))
  {
    var ids := Ids(s, side);
    var other := Ids(s, Opposite(side));
    var l := ids[k];
    forall i | 0 <= i < |other| ensures LevelOk(m', s', other[i], Opposite(side)) {
      assert LevelOk(m, s, other[i], Opposite(side)) && LevelOk(m, s, l, side);
    }
    forall i, j | 0 <= i < j < |other| ensures Better(Opposite(side), PriceAt(m', other[i]), PriceAt(m', other[j])) {
      assert Better(Opposite(side), PriceAt(m, other[i]), PriceAt(m, other[j]));
    }
    if other != [] {
      OneSide(m, s, side);
      assert ids[k] in ids && ids[Pred(k, |ids|)] in ids && ids[Succ(k, |ids|)] in ids;
      RingFrame(m.lNext, m.lPrev, m'.lNext, m'.lPrev, other);
    }
  }

  /** Where a price belongs on its side: everything nearer the best before it, everything else after. */
  ghost predicate Position(m: Mem, s: Shape, side: Side, price: int, k: nat) {
    var ids := Ids(s, side);
    && k <= |ids|
    && (forall i :: 0 <= i < k ==> Better(side, PriceAt(m, ids[i]), price))
    && (forall i :: k <= i < |ids| ==> Better(side, price, PriceAt(m, ids[i])))
  }

  /** The first level not nearer the best than a fresh price marks its place. */
  lemma {:induction false} FirstNotBetter(m: Mem, s: Shape, side: Side, price: int, k: nat)
    requires SideOk(m, s, side) && IsSide(side) && Slot(price) !in m.table && k <= |Ids(s, side)|
    requires forall i :: 0 <= i < k ==> Better(side, PriceAt(m, Ids(s, side)[i]), price)
    requires k < |Ids(s, side)| ==> !Better(side, PriceAt(m, Ids(s, side)[k]), price)
    ensures Position(m, s, side, price, k)
  {
    var ids := Ids(s, side);
    if k < |ids| {
      assert LevelOk(m, s, ids[k], side);
      assert forall i :: k < i < |ids| ==> Better(side, PriceAt(m, ids[k]), PriceAt(m, ids[i]));
    }
  }

  /** Following `next` from a level leads to the next level outward, and from the worst to the best. */
  lemma {:induction false} NextLevel(m: Mem, s: Shape, side: Side, k: nat)
    requires Sizes(m) && SideOk(m, s, side) && k < |Ids(s, side)|
    ensures var ids := Ids(s, side);
            && 0 <= ids[k] < |m.lNext| && m.lNext[ids[k]] == ids[Succ(k, |ids|)]
            && 0 <= ids[Succ(k, |ids|)] < |m.levels|
            && PriceAt(m, ids[k]) == m.levels[ids[k]].price && Best(m, side) == ids[0]
            && (ids[k] == ids[0] <==> k == 0)
  {
  }

  lemma {:induction false} NoLevels(m: Mem, s: Shape, side: Side)
    requires SideOk(m, s, side)
    ensures Best(m, side) == NULL <==> Ids(s, side) == []
  {
  }

  /** The two levels between which position `k` lies, as links, prices and entry point show them. */
  ghost predicate Site(m: Mem, ids: seq<int>, l: int, k: nat, a: int, b: int) {
    && |m.lNext| == |m.lPrev| == |m.levels|
    && ids != [] && k <= |ids|
    && 0 <= l < |m.levels| && 0 <= a < |m.levels| && 0 <= b < |m.levels| && 0 <= ids[0] < |m.levels|
    && a == ids[if k == 0 then |ids| - 1 else k - 1] && b == ids[if k == |ids| then 0 else k]
    && l != a && l != b && l != ids[0]
    && m.lNext[a] == b && m.lPrev[b] == a
    && Best(m, m.levels[l].side) == ids[0]
    && (k == 0 && a != b ==> m.lNext[b] != ids[0])
    && (k < |ids| ==> Better(m.levels[l].side, m.levels[l].price, m.levels[b].price))
    && (k < |ids| ==> (k == 0 <==> Better(m.levels[l].side, m.levels[l].price, m.levels[ids[0]].price)))
    && (0 < k < |ids| ==> a != l && Better(m.levels[l].side, m.levels[a].price, m.levels[l].price))
  }

  lemma {:induction false} SiteAt(m: Mem, s: Shape, l: int, k: nat) returns (a: int, b: int)
    requires 0 <= l < |m.levels| && Sizes(m) && IsSide(m.levels[l].side) && l !in Ids(s, m.levels[l].side)
    requires SideOk(m, s, m.levels[l].side) && Ids(s, m.levels[l].side) != []
    requires Position(m, s, m.levels[l].side, m.levels[l].price, k)
    ensures Site(m, Ids(s, m.levels[l].side), l, k, a, b)
  {
    var side := m.levels[l].side;
    var ids := Ids(s, side);
    var i, j := if k == 0 then |ids| - 1 else k - 1, if k == |ids| then 0 else k;
    a, b := ids[i], ids[j];
    NextLevel(m, s, side, i);
    NextLevel(m, s, side, j);
    NextLevel(m, s, side, 0);
    assert a in ids && b in ids && ids[0] in ids;
    assert IsRing(m.lNext, m.lPrev, ids);
    assert m.lPrev[ids[j]] == ids[Pred(j, |ids|)];
    assert m.lNext[ids[j]] == ids[Succ(j, |ids|)];
  }

  /** Splicing a fresh level with one order into its side at its sorted position. */
  lemma {:induction false} LinkLevel(m: Mem, s: Shape, side: Side, l: int, x: int, k: nat, m': Mem, s': Shape)
    requires Struct(m, s) && IsSide(side) && 0 <= l < |m.levels| && l !in s.queue
    requires m.levels[l].side == side && m.levels[l].first == x && OrderOk(m, l, x)
    requires m.oNext[x] == x && m.oPrev[x] == x
    requires Slot(m.levels[l].price) !in m.table && Position(m, s, side, m.levels[l].price, k)
    requires var ids := Ids(s, side);
             && s' == WithIds(s, side, ids[..k] + [l] + ids[k..]).(queue := s.queue[l := [x]])
             && m'.orders == m.orders && m'.oNext == m.oNext && m'.oPrev == m.oPrev && m'.oFree == m.oFree
             && m'.levels == m.levels && m'.lFree == m.lFree
             && m'.table == m.table[Slot(m.levels[l].price) := l]
             && Best(m', Opposite(side)) == Best(m, Opposite(side))
             && Best(m', side) == (if k == 0 then l else Best(m, side))
             && (if ids == [] then m'.lNext == m.lNext[l := l] && m'.lPrev == m.lPrev[l := l]
                 else var a, b := ids[if k == 0 then |ids| - 1 else k - 1], ids[if k == |ids| then 0 else k];
                 m'.lNext == m.lNext[l := b][a := l] && m'.lPrev == m.lPrev[l := a][b := l])
    ensures Struct(m', s')
  {
    var ids := Ids(s, side);
    var ids' := ids[..k] + [l] + ids[k..];
    LinkLevelOwn(m, s, side, l, k, m', s');
    LinkLevelOther(m, s, side, l, k, m', s');
    QueuesGrow(m, s.queue, l, x, m');
    SpliceKeeps(ids, k, l);
    forall t | t in m'.table ensures m'.table[t] in s'.queue && Slot(PriceAt(m', m'.table[t])) == t {
      if t in m.table { assert m.table[t] in s.queue; }
    }
  }

  lemma {:induction false} SpliceKeeps(q: seq<int>, k: nat, x: int)
    requires k <= |q|
    ensures forall y :: y in q || y == x ==> y in q[..k] + [x] + q[k..]
  {
  }

  lemma {:induction false} QueuesGrow(m: Mem, queue: map<int, seq<int>>, l: int, x: int, m': Mem)
    requires QueuesOk(m, queue) && |m.oNext| == |m.oPrev| == |m.orders|
    requires 0 <= l < |m.levels| && m.levels[l].first == x && OrderOk(m, l, x)
    requires m.oNext[x] == x && m.oPrev[x] == x
    requires m'.orders == m.orders && m'.oNext == m.oNext && m'.oPrev == m.oPrev && m'.levels == m.levels
    ensures QueuesOk(m', queue[l := [x]])
  {
    var queue' := queue[l := [x]];
    forall l2 | l2 in queue' ensures QueueOk(m', l2, queue'[l2]) {
      if l2 == l {
        SelfRing(m.oNext, m.oPrev, x);
      } else {
        assert QueueOk(m, l2, queue[l2]);
        QueueFrame(m, m', l2, queue[l2]);
      }
    }
  }

  lemma {:induction false} LinkLevelOwn(m: Mem, s: Shape, side: Side, l: int, k: nat, m': Mem, s': Shape)
    requires Sizes(m) && SideOk(m, s, side) && IsSide(side) && 0 <= l < |m.levels| && l !in s.queue
    requires m.levels[l].side == side
    requires Slot(m.levels[l].price) !in m.table && Position(m, s, side, m.levels[l].price, k)
    requires var ids := Ids(s, side);
             && s'.queue.Keys == s.queue.Keys + {l} && Ids(s', side) == ids[..k] + [l] + ids[k..]
             && m'.levels == m.levels && m'.table == m.table[Slot(m.levels[l].price) := l]
             && Best(m', side) == (if k == 0 then l else Best(m, side))
             && (if ids == [] then m'.lNext == m.lNext[l := l] && m'.lPrev == m.lPrev[l := l]
                 else var a, b := ids[if k == 0 then |ids| - 1 else k - 1], ids[if k == |ids| then 0 else k];
                 m'.lNext == m.lNext[l := b][a := l] && m'.lPrev == m.lPrev[l := a][b := l])
    ensures SideOk(m', s', side)
  {
    var ids := Ids(s, side);
    var ids' := ids[..k] + [l] + ids[k..];
    forall i | 0 <= i < |ids'| ensures LevelOk(m', s', ids'[i], side) {
      if i != k {
        assert LevelOk(m, s, ids[if i < k then i else i - 1], side);
      }
    }
    LinkLevelSorted(m, s, side, l, k, m', ids');
    if ids == [] {
      assert ids' == [l];
      SelfRing(m'.lNext, m'.lPrev, l);
    } else {
      Members(m, s, side);
      RingInsert(m.lNext, m.lPrev, m'.lNext, m'.lPrev, ids, k, l);
    }
  }

  lemma {:induction false} LinkLevelSorted(m: Mem, s: Shape, side: Side, l: int, k: nat, m': Mem, ids': seq<int>)
    requires SideOk(m, s, side) && 0 <= l < |m.levels| && m'.levels == m.levels
    requires Position(m, s, side, m.levels[l].price, k)
    requires ids' == Ids(s, side)[..k] + [l] + Ids(s, side)[k..]
    ensures forall i, j :: 0 <= i < j < |ids'| ==> Better(side, PriceAt(m', ids'[i]), PriceAt(m', ids'[j]))
  {
    var ids := Ids(s, side);
    forall i, j | 0 <= i < j < |ids'| ensures Better(side, PriceAt(m', ids'[i]), PriceAt(m', ids'[j])) {
      var i', j' := if i < k then i else i - 1, if j < k then j else j - 1;
      assert i != k ==> ids'[i] == ids[i'];
      assert j != k ==> ids'[j] == ids[j'];
    }
  }

  lemma {:induction false} LinkLevelOther(m: Mem, s: Shape, side: Side, l: int, k: nat, m': Mem, s': Shape)
    requires Sizes(m) && SideOk(m, s, side) && SideOk(m, s, Opposite(side)) && IsSide(side)
    requires 0 <= l < |m.levels| && l !in s.queue && k <= |Ids(s, side)|
    requires Slot(m.levels[l].price) !in m.table
    requires var ids := Ids(s, side);
             && s'.queue.Keys == s.queue.Keys + {l} && Ids(s', Opposite(side)) == Ids(s, Opposite(side))
             && m'.levels == m.levels && m'.table == m.table[Slot(m.levels[l].price) := l]
             && Best(m', Opposite(side)) == Best(m, Opposite(side))
             && (if ids == [] then m'.lNext == m.lNext[l := l] && m'.lPrev == m.lPrev[l := l]
                 else var a, b := ids[if k == 0 then |ids| - 1 else k - 1], ids[if k == |ids| then 0 else k];
                 && 0 <= a < |m.lNext| && 0 <= b < |m.lPrev|
                 && m'.lNext == m.lNext[l := b][a := l] && m'.lPrev == m.lPrev[l := a][b := l])
    ensures SideOk(m', s', Opposite(side))
  {
    var ids := Ids(s, side);
    var other := Ids(s, Opposite(side));
    forall i | 0 <= i < |other| ensures LevelOk(m', s', other[i], Opposite(side)) {
      assert LevelOk(m, s, other[i], Opposite(side));
    }
    forall i, j | 0 <= i < j < |other| ensures Better(Opposite(side), PriceAt(m', other[i]), PriceAt(m', other[j])) {
      assert Better(Opposite(side), PriceAt(m, other[i]), PriceAt(m, other[j]));
    }
    if other != [] {
      OneSide(m, s, side);
      if ids != [] {
        assert ids[if k == 0 then |ids| - 1 else k - 1] in ids && ids[if k == |ids| then 0 else k] in ids;
      }
      RingFrame(m.lNext, m.lPrev, m'.lNext, m'.lPrev, other);
    }
  }

  // ---------------------------------------------------------------- memory that fits no shape

  /** Before the best level, round the ring, comes the worst. */
  lemma {:induction false} BeforeBest(m: Mem, s: Shape, side: Side)
    requires SideOk(m, s, side) && Ids(s, side) != []
    ensures var ids := Ids(s, side);
            && 0 <= ids[0] < |m.lPrev| && m.lPrev[ids[0]] == ids[|ids| - 1] && Best(m, side) == ids[0]
            && LevelOk(m, s, ids[0], side)
            && (|ids| > 1 ==> Better(side, PriceAt(m, ids[0]), PriceAt(m, ids[|ids| - 1])))
  {
  }

  /** A bid entry point on an ask level, or on a bid level that follows a better one, fits no book. */
  lemma {:induction false} MisplacedBest(m: Mem, s: Shape)
    requires 0 <= m.bids < |m.levels|
    requires || m.levels[m.bids].side != BUY
             || (m.bids < |m.lPrev| && m.lPrev[m.bids] != m.bids
                 && Better(BUY, PriceAt(m, m.lPrev[m.bids]), PriceAt(m, m.bids)))
    ensures !Struct(m, s)
  {
    if SideOk(m, s, BUY) {
      BeforeBest(m, s, BUY);
    }
  }
}

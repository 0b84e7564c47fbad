/** What each step on the book's memory means for its indexes, its pools and its price-time queues. */
module BookSteps {
  import opened Types
  import opened Ring
  import opened PriceTime
  import PriceTimeInvariant
  import opened BookMemory
  import opened BookAbstraction

  // ---------------------------------------------------------------- who is linked

  lemma {:induction false} UnlinkOrderLinked(m: Mem, s: Shape, l: int, k: nat, m': Mem, s': Shape)
    requires Struct(m, s) && l in s.queue && k < |s.queue[l]|
    requires s' == s.(queue := s.queue[l := Drop(s.queue[l], k)])
    requires m'.orders == m.orders && m'.table == m.table
    ensures forall y :: Linked(m', s', y) <==> Linked(m, s, y) && y != s.queue[l][k]
  {
    var q := s.queue[l];
    assert QueueOk(m, l, q) && q[k] in q;
    InLevelIsLinked(m, s, l, q[k]);
    forall y ensures y in Drop(q, k) <==> y in q && y != q[k] {
      if y in q && y != q[k] { DropKeeps(q, k, y); }
    }
  }

  lemma {:induction false} UnlinkLevelLinked(m: Mem, s: Shape, l: int, m': Mem, s': Shape)
    requires Struct(m, s) && l in s.queue && |s.queue[l]| == 1
    requires s'.queue == s.queue - {l}
    requires m'.orders == m.orders && m'.table == m.table - {Slot(PriceAt(m, l))}
    ensures forall y :: Linked(m', s', y) <==> Linked(m, s, y) && y != s.queue[l][0]
  {
    var o := s.queue[l][0];
    LevelSide(m, s, l);
    InLevelIsLinked(m, s, l, o);
    forall y | Linked(m, s, y) && y != o ensures Linked(m', s', y) {
      var l2 := m.table[Slot(m.orders[y].price)];
      assert l2 != l;
      LevelSide(m, s, l2);
      InLevelIsLinked(m, s, l2, y);
    }
  }

  lemma {:induction false} LinkLastLinked(m: Mem, s: Shape, l: int, x: int, m': Mem, s': Shape)
    requires Struct(m, s) && l in s.queue && OrderOk(m, l, x)
    requires s' == s.(queue := s.queue[l := s.queue[l] + [x]])
    requires m'.orders == m.orders && m'.table == m.table
    ensures forall y :: Linked(m', s', y) <==> Linked(m, s, y) || y == x
  {
    LevelSide(m, s, l);
  }

  lemma {:induction false} LinkLevelLinked(m: Mem, s: Shape, l: int, x: int, m': Mem, s': Shape)
    requires Struct(m, s) && l !in s.queue && OrderOk(m, l, x) && Slot(PriceAt(m, l)) !in m.table
    requires s'.queue == s.queue[l := [x]]
    requires m'.orders == m.orders && m'.table == m.table[Slot(PriceAt(m, l)) := l]
    ensures forall y :: Linked(m', s', y) <==> Linked(m, s, y) || y == x
  {
  }

  // ---------------------------------------------------------------- indexes and pools

  /** Unlinking leaves the order in its pool and in the client map, to be taken out next. */
  lemma {:induction false} IndexesAfterUnlink(m: Mem, s: Shape, o: int, m': Mem, s': Shape)
    requires OrderPoolOk(m, s, NULL) && ClientsOk(m, s, NULL) && Linked(m, s, o)
    requires forall y :: Linked(m', s', y) <==> Linked(m, s, y) && y != o
    requires m'.orders == m.orders && m'.clients == m.clients && m'.oFree == m.oFree
    ensures OrderPoolOk(m', s', o) && ClientsOk(m', s', o)
  {
  }

  /** Erasing the client map's entry and releasing the block completes a removal. */
  lemma {:induction false} Detach(m: Mem, s: Shape, o: int, m': Mem)
    requires Sizes(m) && OrderPoolOk(m, s, o) && ClientsOk(m, s, o) && 0 <= o < |m.orders| && !Linked(m, s, o)
    requires m.orders[o].Key() in m.clients && m.clients[m.orders[o].Key()] == o
    requires m' == m.(clients := m.clients - {m.orders[o].Key()}, oFree := m.oFree[o := true])
    ensures OrderPoolOk(m', s, NULL) && ClientsOk(m', s, NULL)
  {
    assert forall y :: Linked(m', s, y) <==> Linked(m, s, y);
  }

  /** Linking a fresh order and entering it in the client map completes an addition. */
  lemma {:induction false} Register(m: Mem, s: Shape, x: int, m': Mem, s': Shape)
    requires Sizes(m) && OrderPoolOk(m, s, x) && ClientsOk(m, s, NULL) && 0 <= x < |m.orders| && !Linked(m, s, x)
    requires m.orders[x].Key() !in m.clients
    requires forall y :: Linked(m', s', y) <==> Linked(m, s, y) || y == x
    requires m'.orders == m.orders && m'.oFree == m.oFree && m'.clients == m.clients[m.orders[x].Key() := x]
    ensures OrderPoolOk(m', s', NULL) && ClientsOk(m', s', NULL)
  {
  }

  // ---------------------------------------------------------------- effect on the queues

  lemma {:induction false} SideQueueFrame(m: Mem, s: Shape, m': Mem, s': Shape, side: Side)
    requires Struct(m, s) && Struct(m', s') && IsSide(side)
    requires m'.orders == m.orders && Ids(s', side) == Ids(s, side)
    requires forall l :: l in Ids(s, side) ==> l in s.queue && l in s'.queue && s'.queue[l] == s.queue[l]
    ensures SideQueue(m', s', side) == SideQueue(m, s, side)
  {
    var ids := Ids(s, side);
    StructFlatOk(m, s, side);
    assert forall i :: 0 <= i < |ids| ==> ids[i] in ids;
    FlatFrame(m.orders, m'.orders, ids, s.queue, s'.queue);
  }

  /** The side an order is not on does not know its key. */
  lemma {:induction false} OtherSideAbsent(m: Mem, s: Shape, side: Side, o: int)
    requires Struct(m, s) && ClientsOk(m, s, NULL) && IsSide(side) && Linked(m, s, o) && m.orders[o].side == side
    ensures Without(SideQueue(m, s, Opposite(side)), m.orders[o].Key()) == SideQueue(m, s, Opposite(side))
  {
    var q := SideQueue(m, s, Opposite(side));
    forall n | 0 <= n < |q| ensures q[n].Key() != m.orders[o].Key() {
      var o2 := SideMember(m, s, Opposite(side), n);
      if q[n].Key() == m.orders[o].Key() { KeysUnique(m, s, o, o2); }
    }
    PriceTimeInvariant.WithoutAbsent(q, m.orders[o].Key());
  }

  /** Levels other than `l` flatten as before when only the queue of `l` changed. */
  lemma {:induction false} StretchFrame(orders: seq<MEOrder>, part: seq<int>, queue: map<int, seq<int>>,
                                        queue': map<int, seq<int>>, l: int)
    requires FlatOk(orders, part, queue) && l !in part
    requires forall l2 {:trigger l2 in queue} :: l2 in queue && l2 != l ==> l2 in queue' && queue'[l2] == queue[l2]
    ensures FlatOk(orders, part, queue')
    ensures Flat(orders, part, queue') == Flat(orders, part, queue)
  {
    forall i | 0 <= i < |part| ensures part[i] in queue' && queue'[part[i]] == queue[part[i]] {
      assert part[i] != l;
      assert part[i] in queue;
    }
    FlatFrame(orders, orders, part, queue, queue');
  }

  /** Replacing the queue of one level. */
  lemma {:induction false} FlatReplace(orders: seq<MEOrder>, ids: seq<int>, queue: map<int, seq<int>>, k: nat,
                                       q: seq<int>)
    requires FlatOk(orders, ids, queue) && k < |ids| && Indexes(orders, q)
    requires ids[k] !in ids[0..k] && ids[k] !in ids[k + 1..|ids|]
    requires FlatOk(orders, ids[0..k], queue) && FlatOk(orders, ids[k + 1..|ids|], queue)
    ensures FlatOk(orders, ids, queue[ids[k] := q])
    ensures Flat(orders, ids, queue[ids[k] := q])
         == Flat(orders, ids[0..k], queue) + OrdersOf(orders, q) + Flat(orders, ids[k + 1..|ids|], queue)
  {
    var queue' := queue[ids[k] := q];
    StretchFrame(orders, ids[0..k], queue, queue', ids[k]);
    StretchFrame(orders, ids[k + 1..|ids|], queue, queue', ids[k]);
    FlatAround(orders, ids, queue', k);
    assert ids[..k] == ids[0..k] && ids[k + 1..] == ids[k + 1..|ids|];
  }

  /** Dropping one level. */
  lemma {:induction false} FlatDrop(orders: seq<MEOrder>, ids: seq<int>, queue: map<int, seq<int>>, k: nat)
    requires k < |ids|
    requires ids[k] !in ids[0..k] && ids[k] !in ids[k + 1..|ids|]
    requires FlatOk(orders, ids[0..k], queue) && FlatOk(orders, ids[k + 1..|ids|], queue)
    ensures FlatOk(orders, Drop(ids, k), queue - {ids[k]})
    ensures Flat(orders, Drop(ids, k), queue - {ids[k]})
         == Flat(orders, ids[0..k], queue) + Flat(orders, ids[k + 1..|ids|], queue)
  {
    var queue' := queue - {ids[k]};
    StretchFrame(orders, ids[0..k], queue, queue', ids[k]);
    StretchFrame(orders, ids[k + 1..|ids|], queue, queue', ids[k]);
    assert Drop(ids, k) == ids[0..k] + ids[k + 1..|ids|];
    FlatConcat(orders, ids[0..k], ids[k + 1..|ids|], queue');
  }

  /** Splicing in one level. */
  lemma {:induction false} FlatSplice(orders: seq<MEOrder>, ids: seq<int>, queue: map<int, seq<int>>, k: nat, l: int,
                                      x: int)
    requires k <= |ids| && l !in queue && 0 <= x < |orders|
    requires FlatOk(orders, ids[0..k], queue) && FlatOk(orders, ids[k..|ids|], queue)
    ensures FlatOk(orders, ids[..k] + [l] + ids[k..], queue[l := [x]])
    ensures Flat(orders, ids[..k] + [l] + ids[k..], queue[l := [x]])
         == Flat(orders, ids[0..k], queue) + [orders[x]] + Flat(orders, ids[k..|ids|], queue)
  {
    var queue' := queue[l := [x]];
    var a, c := ids[0..k], ids[k..|ids|];
    assert forall i :: 0 <= i < |a| ==> a[i] in queue;
    assert forall i :: 0 <= i < |c| ==> c[i] in queue;
    StretchFrame(orders, a, queue, queue', l);
    StretchFrame(orders, c, queue, queue', l);
    assert ids[..k] + [l] + ids[k..] == a + ([l] + c);
    FlatConcat(orders, a, [l] + c, queue');
    FlatConcat(orders, [l], c, queue');
    FlatOne(orders, l, queue');
    assert OrdersOf(orders, [x]) == [orders[x]];
    assert Flat(orders, a, queue') + ([orders[x]] + Flat(orders, c, queue'))
        == Flat(orders, a, queue) + [orders[x]] + Flat(orders, c, queue);
  }

  lemma {:induction false} DropOrders(orders: seq<MEOrder>, q: seq<int>, j: nat)
    requires Indexes(orders, q) && j < |q|
    ensures Indexes(orders, Drop(q, j))
    ensures OrdersOf(orders, Drop(q, j)) == OrdersOf(orders, q)[..j] + OrdersOf(orders, q)[j + 1..]
  {
  }

  /** Taking an order from a ring of several removes its key, and only it, from the side. */
  lemma {:induction false} UnlinkOrderEffect(m: Mem, s: Shape, side: Side, k: nat, j: nat, m': Mem, s': Shape)
    requires Struct(m, s) && ClientsOk(m, s, NULL) && IsSide(side) && k < |Ids(s, side)|
    requires Ids(s, side)[k] in s.queue && j < |s.queue[Ids(s, side)[k]]|
    requires Struct(m', s') && m'.orders == m.orders && Ids(s', side) == Ids(s, side)
    requires s'.queue == s.queue[Ids(s, side)[k] := Drop(s.queue[Ids(s, side)[k]], j)]
    ensures var o := s.queue[Ids(s, side)[k]][j];
            && 0 <= o < |m.orders|
            && SideQueue(m', s', side) == Without(SideQueue(m, s, side), m.orders[o].Key())
  {
    var ids := Ids(s, side);
    var q := s.queue[ids[k]];
    var a, b, c := SideAround(m, s, side, k);
    FlatWithout(m, s, side, k, j, a, b, c);
    DropOrders(m.orders, q, j);
    assert SideQueue(m', s', side) == a + (b[..j] + b[j + 1..]) + c by {
      NotInStretch(m, s, side, k);
      StructFlatOk(m, s, side);
      FlatReplace(m.orders, ids, s.queue, k, Drop(q, j));
    }
  }

  /** Removing the key of a level's only order leaves the levels around it. */
  lemma {:induction false} WithoutOnly(m: Mem, s: Shape, side: Side, k: nat, a: seq<MEOrder>, b: seq<MEOrder>,
                                       c: seq<MEOrder>)
    requires Struct(m, s) && ClientsOk(m, s, NULL) && IsSide(side) && k < |Ids(s, side)|
    requires var ids := Ids(s, side);
             && ids[k] in s.queue && Indexes(m.orders, s.queue[ids[k]]) && |s.queue[ids[k]]| == 1
             && FlatOk(m.orders, ids[0..k], s.queue) && a == Flat(m.orders, ids[0..k], s.queue)
             && FlatOk(m.orders, ids[k + 1..|ids|], s.queue) && c == Flat(m.orders, ids[k + 1..|ids|], s.queue)
             && b == OrdersOf(m.orders, s.queue[ids[k]])
    ensures Without(a + b + c, b[0].Key()) == a + c
  {
    DropSingle(a, b, c);
    FlatWithout(m, s, side, k, 0, a, b, c);
  }

  lemma {:induction false} DropSingle(a: seq<MEOrder>, b: seq<MEOrder>, c: seq<MEOrder>)
    requires |b| == 1
    ensures a + (b[..0] + b[0 + 1..]) + c == a + c
  {
  }

  /** Taking a level of one order out removes that order's key, and only it, from the side. */
  lemma {:induction false} UnlinkLevelEffect(m: Mem, s: Shape, side: Side, k: nat, m': Mem, s': Shape)
    requires Struct(m, s) && ClientsOk(m, s, NULL) && IsSide(side) && k < |Ids(s, side)|
    requires Ids(s, side)[k] in s.queue && |s.queue[Ids(s, side)[k]]| == 1
    requires Struct(m', s') && m'.orders == m.orders
    requires Ids(s', side) == Drop(Ids(s, side), k) && s'.queue == s.queue - {Ids(s, side)[k]}
    ensures var o := s.queue[Ids(s, side)[k]][0];
            && 0 <= o < |m.orders|
            && SideQueue(m', s', side) == Without(SideQueue(m, s, side), m.orders[o].Key())
  {
    var a, b, c := SideAround(m, s, side, k);
    WithoutOnly(m, s, side, k, a, b, c);
    NotInStretch(m, s, side, k);
    FlatDrop(m.orders, Ids(s, side), s.queue, k);
  }

  lemma {:induction false} AppendOrders(orders: seq<MEOrder>, q: seq<int>, x: int)
    requires Indexes(orders, q) && 0 <= x < |orders|
    ensures Indexes(orders, q + [x])
    ensures OrdersOf(orders, q + [x]) == OrdersOf(orders, q) + [orders[x]]
  {
  }

  /** Appending to the level of its price inserts the order by price and time. */
  lemma {:induction false} LinkLastEffect(m: Mem, s: Shape, side: Side, k: nat, x: int, m': Mem, s': Shape)
    requires Struct(m, s) && IsSide(side) && k < |Ids(s, side)| && Ids(s, side)[k] in s.queue
    requires OrderOk(m, Ids(s, side)[k], x) && m.orders[x].side == side
    requires Struct(m', s') && m'.orders == m.orders && Ids(s', side) == Ids(s, side)
    requires s'.queue == s.queue[Ids(s, side)[k] := s.queue[Ids(s, side)[k]] + [x]]
    ensures SideQueue(m', s', side) == Insert(SideQueue(m, s, side), m.orders[x])
  {
    var ids := Ids(s, side);
    var q := s.queue[ids[k]];
    var a, b, c := SideAround(m, s, side, k);
    FlatInsertLast(m, s, side, k, m.orders[x], a, b, c);
    AppendOrders(m.orders, q, x);
    StructFlatOk(m, s, side);
    NotInStretch(m, s, side, k);
    FlatReplace(m.orders, ids, s.queue, k, q + [x]);
  }

  /** Splicing a new level at its sorted position inserts its order by price and time. */
  lemma {:induction false} LinkLevelEffect(m: Mem, s: Shape, side: Side, l: int, x: int, k: nat, m': Mem, s': Shape)
    requires Struct(m, s) && IsSide(side) && l !in s.queue && OrderOk(m, l, x) && m.orders[x].side == side
    requires Position(m, s, side, m.orders[x].price, k)
    requires Struct(m', s') && m'.orders == m.orders
    requires Ids(s', side) == Ids(s, side)[..k] + [l] + Ids(s, side)[k..] && s'.queue == s.queue[l := [x]]
    ensures SideQueue(m', s', side) == Insert(SideQueue(m, s, side), m.orders[x])
  {
    var ids := Ids(s, side);
    var a, c := FlatInsertLevel(m, s, side, k, m.orders[x]);
    FlatSplice(m.orders, ids, s.queue, k, l, x);
  }

  // ---------------------------------------------------------------- trading the front

  /** The best level's first order is the front of its side. */
  lemma {:induction false} FrontOrder(m: Mem, s: Shape, side: Side)
    requires Struct(m, s) && IsSide(side)
    ensures Best(m, side) == NULL <==> SideQueue(m, s, side) == []
    ensures Best(m, side) != NULL ==>
              && 0 <= Best(m, side) < |m.levels| && Best(m, side) in s.queue
              && var o := m.levels[Best(m, side)].first;
              && Linked(m, s, o) && m.orders[o].side == side
              && SideQueue(m, s, side) != [] && SideQueue(m, s, side)[0] == m.orders[o]
  {
    var ids := Ids(s, side);
    StructFlatOk(m, s, side);
    if ids != [] {
      assert LevelOk(m, s, ids[0], side) && QueueOk(m, ids[0], s.queue[ids[0]]);
      InLevelIsLinked(m, s, ids[0], s.queue[ids[0]][0]);
    }
  }

  /** Lowering the quantity of the front order lowers it at the front of the queue. */
  lemma {:induction false} SetQtyEffect(m: Mem, s: Shape, side: Side, qty: nat, m': Mem)
    requires Consistent(m, s) && Consistent(m', s) && IsSide(side) && Best(m, side) != NULL
    requires 0 <= Best(m, side) < |m.levels| && 0 <= m.levels[Best(m, side)].first < |m.orders|
    requires var o := m.levels[Best(m, side)].first;
             m' == m.(orders := m.orders[o := m.orders[o].(qty := qty)])
    ensures SideQueue(m, s, side) != []
    ensures SideQueue(m', s, side) == [SideQueue(m, s, side)[0].(qty := qty)] + SideQueue(m, s, side)[1..]
    ensures SideQueue(m', s, Opposite(side)) == SideQueue(m, s, Opposite(side))
  {
    FrontOrder(m, s, side);
    var o := m.levels[Best(m, side)].first;
    SetQtyOther(m, s, side, o, qty, m');
    SetQtyOwn(m, s, side, o, qty, m');
  }

  lemma {:induction false} SetQtyOther(m: Mem, s: Shape, side: Side, o: int, qty: nat, m': Mem)
    requires Struct(m, s) && Struct(m', s) && IsSide(side) && Linked(m, s, o) && m.orders[o].side == side
    requires m' == m.(orders := m.orders[o := m.orders[o].(qty := qty)])
    ensures SideQueue(m', s, Opposite(side)) == SideQueue(m, s, Opposite(side))
  {
    var ids := Ids(s, Opposite(side));
    StructFlatOk(m, s, Opposite(side));
    forall i, j | 0 <= i < |ids| && 0 <= j < |s.queue[ids[i]]|
      ensures m'.orders[s.queue[ids[i]][j]] == m.orders[s.queue[ids[i]][j]]
    {
      assert LevelOk(m, s, ids[i], Opposite(side));
      InLevelIsLinked(m, s, ids[i], s.queue[ids[i]][j]);
    }
    FlatFrame(m.orders, m'.orders, ids, s.queue, s.queue);
  }

  lemma {:induction false} SetQtyOwn(m: Mem, s: Shape, side: Side, o: int, qty: nat, m': Mem)
    requires Struct(m, s) && Struct(m', s) && IsSide(side) && Ids(s, side) != []
    requires Ids(s, side)[0] in s.queue && s.queue[Ids(s, side)[0]] != [] && o == s.queue[Ids(s, side)[0]][0]
    requires 0 <= o < |m.orders| && m' == m.(orders := m.orders[o := m.orders[o].(qty := qty)])
    ensures SideQueue(m, s, side) != []
    ensures SideQueue(m', s, side) == [SideQueue(m, s, side)[0].(qty := qty)] + SideQueue(m, s, side)[1..]
  {
    var ids := Ids(s, side);
    var q := s.queue[ids[0]];
    StructFlatOk(m, s, side);
    StructFlatOk(m', s, side);
    assert QueueOk(m, ids[0], q) && o in q;
    OneLevel(m, s);
    NotInStretch(m, s, side, 0);
    assert ids[0 + 1..|ids|] == ids[1..];
    SetQtyFlat(m.orders, m'.orders, ids, s.queue, qty);
  }

  lemma {:induction false} SetQtyFlat(orders: seq<MEOrder>, orders': seq<MEOrder>, ids: seq<int>, queue: map<int,
                                      seq<int>>, qty: nat)
    requires ids != [] && FlatOk(orders, ids, queue) && FlatOk(orders', ids, queue) && Apart(queue)
    requires queue[ids[0]] != [] && Distinct(queue[ids[0]]) && ids[0] !in ids[1..]
    requires orders' == orders[queue[ids[0]][0] := orders[queue[ids[0]][0]].(qty := qty)]
    ensures Flat(orders, ids, queue) != []
    ensures Flat(orders', ids, queue) == [Flat(orders, ids, queue)[0].(qty := qty)] + Flat(orders, ids, queue)[1..]
  {
    var q, part := queue[ids[0]], ids[1..];
    assert forall i :: 0 <= i < |part| ==> part[i] == ids[i + 1];
    forall i, j | 0 <= i < |part| && 0 <= j < |queue[part[i]]|
      ensures orders'[queue[part[i]][j]] == orders[queue[part[i]][j]]
    {
      var l := part[i];
      assert l in part && l != ids[0] && l in queue;
      assert queue[l][j] in queue[l] && q[0] in q;
      assert queue[l][j] != q[0];
    }
    FlatFrame(orders, orders', part, queue, queue);
    SetQtyFront(orders, orders', q, qty);
  }

  lemma {:induction false} SetQtyFront(orders: seq<MEOrder>, orders': seq<MEOrder>, q: seq<int>, qty: nat)
    requires Indexes(orders, q) && q != [] && Distinct(q)
    requires orders' == orders[q[0] := orders[q[0]].(qty := qty)]
    ensures OrdersOf(orders', q) == [orders[q[0]].(qty := qty)] + OrdersOf(orders, q)[1..]
  {
  }

  /** Taking quantity off the front order, all at once. */
  lemma {:induction false} FrontLowered(m: Mem, s: Shape, side: Side, o: int, qty: nat, m': Mem)
    requires Consistent(m, s) && IsSide(side) && 0 <= Best(m, side) < |m.levels| && o == m.levels[Best(m, side)].first
    requires 0 <= o < |m.orders| && m' == m.(orders := m.orders[o := m.orders[o].(qty := qty)])
    ensures Consistent(m', s) && SideQueue(m, s, side) != [] && SideQueue(m, s, side)[0] == m.orders[o]
    ensures SideQueue(m', s, side) == [SideQueue(m, s, side)[0].(qty := qty)] + SideQueue(m, s, side)[1..]
    ensures SideQueue(m', s, Opposite(side)) == SideQueue(m, s, Opposite(side))
  {
    FrontOrder(m, s, side);
    SetQty(m, s, o, qty, m');
    SetQtyEffect(m, s, side, qty, m');
  }

  // ---------------------------------------------------------------- removing an order, as memory relations

  /** Where a linked order stands: its level's side, the level's position, its own position in the level. */
  ghost predicate At(m: Mem, s: Shape, o: int, side: Side, k: nat, j: nat) {
    && IsSide(side) && k < |Ids(s, side)| && Ids(s, side)[k] in s.queue
    && j < |s.queue[Ids(s, side)[k]]| && s.queue[Ids(s, side)[k]][j] == o
    && 0 <= o < |m.orders| && m.orders[o].side == side
    && Slot(m.orders[o].price) in m.table && m.table[Slot(m.orders[o].price)] == Ids(s, side)[k]
    && 0 <= Ids(s, side)[k] < |m.levels| && m.levels[Ids(s, side)[k]].price == m.orders[o].price
  }

  lemma {:induction false} Locate(m: Mem, s: Shape, o: int) returns (side: Side, k: nat, j: nat)
    requires Struct(m, s) && Linked(m, s, o)
    ensures At(m, s, o, side, k, j)
  {
    var l := m.table[Slot(m.orders[o].price)];
    InLevelIsLinked(m, s, l, o);
    LevelSide(m, s, l);
    side := m.orders[o].side;
    var i :| 0 <= i < |Ids(s, side)| && Ids(s, side)[i] == l;
    var n :| 0 <= n < |s.queue[l]| && s.queue[l][n] == o;
    k, j := i, n;
  }

  /** The neighbours of the order at position `j` of a level, and how the ring shows it is alone. */
  ghost predicate InRing(m: Mem, l: int, q: seq<int>, j: nat) {
    && |m.oNext| == |m.oPrev| == |m.orders| && 0 <= l < |m.levels|
    && j < |q|
    && (forall i :: 0 <= i < |q| ==> 0 <= q[i] < |m.orders|)
    && m.oPrev[q[j]] == q[Pred(j, |q|)] && m.oNext[q[j]] == q[Succ(j, |q|)]
    && (m.oPrev[q[j]] == q[j] <==> |q| == 1)
    && (m.levels[l].first == q[j] <==> j == 0)
  }

  lemma {:induction false} OrderInRing(m: Mem, s: Shape, l: int, j: nat)
    requires Struct(m, s) && l in s.queue && j < |s.queue[l]|
    ensures InRing(m, l, s.queue[l], j)
  {
  }

  /** The memory after the order at position `j` of level `l` was unlinked from a ring of several. */
  ghost predicate OrderUnlinked(m: Mem, l: int, q: seq<int>, j: nat, m': Mem)
    requires InRing(m, l, q, j)
  {
    var o, a, b := q[j], q[Pred(j, |q|)], q[Succ(j, |q|)];
    m' == m.(oNext := m.oNext[a := b][o := NULL], oPrev := m.oPrev[b := a][o := NULL],
             levels := if j == 0 then m.levels[l := m.levels[l].(first := b)] else m.levels)
  }

  /** The neighbours of the level at position `k` of a side, and how the ring shows it is alone. */
  ghost predicate LevelInRing(m: Mem, side: Side, ids: seq<int>, k: nat) {
    && |m.lNext| == |m.lPrev| == |m.levels| == |m.lFree|
    && k < |ids|
    && (forall i :: 0 <= i < |ids| ==> 0 <= ids[i] < |m.levels|)
    && m.lPrev[ids[k]] == ids[Pred(k, |ids|)] && m.lNext[ids[k]] == ids[Succ(k, |ids|)]
    && (m.lNext[ids[k]] == ids[k] <==> |ids| == 1)
    && (m.lPrev[ids[k]] == ids[k] <==> |ids| == 1)
    && (Best(m, side) == ids[k] <==> k == 0)
    && Slot(m.levels[ids[k]].price) in m.table && m.table[Slot(m.levels[ids[k]].price)] == ids[k]
    && !m.lFree[ids[k]]
  }

  lemma {:induction false} LevelIsInRing(m: Mem, s: Shape, side: Side, k: nat)
    requires Struct(m, s) && LevelPoolOk(m, s, NULL) && IsSide(side) && k < |Ids(s, side)|
    ensures LevelInRing(m, side, Ids(s, side), k)
  {
    var ids := Ids(s, side);
    Members(m, s, side);
    assert forall i :: 0 <= i < |ids| ==> LevelOk(m, s, ids[i], side);
    assert IsRing(m.lNext, m.lPrev, ids);
    assert m.lPrev[ids[k]] == ids[Pred(k, |ids|)] && m.lNext[ids[k]] == ids[Succ(k, |ids|)];
  }

  /** The memory after the level at position `k` was unlinked and its block released. */
  ghost predicate LevelUnlinked(m: Mem, side: Side, ids: seq<int>, k: nat, m': Mem)
    requires LevelInRing(m, side, ids, k)
  {
    var l := ids[k];
    && m' == m.(lNext := m'.lNext, lPrev := m'.lPrev, bids := m'.bids, asks := m'.asks,
                table := m.table - {Slot(m.levels[l].price)}, lFree := m.lFree[l := true])
    && Best(m', Opposite(side)) == Best(m, Opposite(side))
    && (if |ids| == 1 then m'.lNext == m.lNext && m'.lPrev == m.lPrev && Best(m', side) == NULL
        else var a, b := ids[Pred(k, |ids|)], ids[Succ(k, |ids|)];
        && m'.lNext == m.lNext[a := b][l := NULL] && m'.lPrev == m.lPrev[b := a][l := NULL]
        && Best(m', side) == if k == 0 then b else Best(m, side))
  }

  /** What a removal has achieved once the rings are right: order `o` is out of them, but still in its
      pool and in the client map. */
  ghost predicate Loose(m: Mem, s: Shape, o: int, m': Mem, s': Shape)
    requires Struct(m, s)
  {
    && Struct(m', s') && LevelPoolOk(m', s', NULL) && OrderPoolOk(m', s', o) && ClientsOk(m', s', o)
    && 0 <= o < |m.orders| && !Linked(m', s', o)
    && m'.orders == m.orders && m'.clients == m.clients && m'.oFree == m.oFree
    && SideQueue(m', s', BUY) == Without(SideQueue(m, s, BUY), m.orders[o].Key())
    && SideQueue(m', s', SELL) == Without(SideQueue(m, s, SELL), m.orders[o].Key())
  }

  function UnlinkedOrderShape(s: Shape, side: Side, k: nat, j: nat): Shape
    requires k < |Ids(s, side)| && Ids(s, side)[k] in s.queue && j < |s.queue[Ids(s, side)[k]]|
  {
    s.(queue := s.queue[Ids(s, side)[k] := Drop(s.queue[Ids(s, side)[k]], j)])
  }

  function UnlinkedLevelShape(s: Shape, side: Side, k: nat): Shape
    requires k < |Ids(s, side)|
  {
    WithIds(s, side, Drop(Ids(s, side), k)).(queue := s.queue - {Ids(s, side)[k]})
  }

  lemma {:induction false} OrderLooseRings(m: Mem, s: Shape, side: Side, k: nat, j: nat, m': Mem, s': Shape)
    requires Struct(m, s) && IsSide(side) && k < |Ids(s, side)| && Ids(s, side)[k] in s.queue
    requires 2 <= |s.queue[Ids(s, side)[k]]| && j < |s.queue[Ids(s, side)[k]]|
    requires InRing(m, Ids(s, side)[k], s.queue[Ids(s, side)[k]], j)
    requires OrderUnlinked(m, Ids(s, side)[k], s.queue[Ids(s, side)[k]], j, m')
    requires s' == UnlinkedOrderShape(s, side, k, j)
    ensures Struct(m', s')
    ensures forall y :: Linked(m', s', y) <==> Linked(m, s, y) && y != s.queue[Ids(s, side)[k]][j]
  {
    UnlinkOrder(m, s, Ids(s, side)[k], j, m', s');
    UnlinkOrderLinked(m, s, Ids(s, side)[k], j, m', s');
  }

  lemma {:induction false} OrderLooseOwn(m: Mem, s: Shape, o: int, side: Side, k: nat, j: nat, m': Mem, s': Shape)
    requires Struct(m, s) && ClientsOk(m, s, NULL) && At(m, s, o, side, k, j)
    requires Struct(m', s') && m'.orders == m.orders && s' == UnlinkedOrderShape(s, side, k, j)
    ensures SideQueue(m', s', side) == Without(SideQueue(m, s, side), m.orders[o].Key())
  {
    UnlinkOrderEffect(m, s, side, k, j, m', s');
  }

  lemma {:induction false} OrderLooseOther(m: Mem, s: Shape, o: int, side: Side, k: nat, j: nat, m': Mem, s': Shape)
    requires Struct(m, s) && ClientsOk(m, s, NULL) && Linked(m, s, o) && At(m, s, o, side, k, j)
    requires Struct(m', s') && m'.orders == m.orders && s' == UnlinkedOrderShape(s, side, k, j)
    ensures SideQueue(m', s', Opposite(side)) == Without(SideQueue(m, s, Opposite(side)), m.orders[o].Key())
  {
    OtherSideKept(m, s, o, side, Ids(s, side)[k], m', s');
  }

  lemma {:induction false} OrderLoose(m: Mem, s: Shape, o: int, side: Side, k: nat, j: nat, m': Mem)
    requires Consistent(m, s) && Linked(m, s, o) && At(m, s, o, side, k, j) && |s.queue[Ids(s, side)[k]]| >= 2
    requires InRing(m, Ids(s, side)[k], s.queue[Ids(s, side)[k]], j)
    requires OrderUnlinked(m, Ids(s, side)[k], s.queue[Ids(s, side)[k]], j, m')
    ensures Loose(m, s, o, m', UnlinkedOrderShape(s, side, k, j))
  {
    var l := Ids(s, side)[k];
    var s' := UnlinkedOrderShape(s, side, k, j);
    OrderLooseRings(m, s, side, k, j, m', s');
    IndexesAfterUnlink(m, s, o, m', s');
    OrderLooseOwn(m, s, o, side, k, j, m', s');
    OrderLooseOther(m, s, o, side, k, j, m', s');
    assert s'.queue.Keys == s.queue.Keys;
  }

  lemma {:induction false} OtherSideKept(m: Mem, s: Shape, o: int, side: Side, l: int, m': Mem, s': Shape)
    requires Struct(m, s) && ClientsOk(m, s, NULL) && Linked(m, s, o) && IsSide(side)
    requires m.orders[o].side == side && l in Ids(s, side)
    requires Struct(m', s') && m'.orders == m.orders && Ids(s', Opposite(side)) == Ids(s, Opposite(side))
    requires forall l2 :: l2 in s.queue && l2 != l ==> l2 in s'.queue && s'.queue[l2] == s.queue[l2]
    ensures SideQueue(m', s', Opposite(side)) == Without(SideQueue(m, s, Opposite(side)), m.orders[o].Key())
  {
    OneSide(m, s, side);
    OtherSideAbsent(m, s, side, o);
    SideQueueFrame(m, s, m', s', Opposite(side));
  }

  lemma {:induction false} LevelLooseRings(m: Mem, s: Shape, side: Side, k: nat, m': Mem, s': Shape)
    requires Struct(m, s) && IsSide(side) && k < |Ids(s, side)| && Ids(s, side)[k] in s.queue
    requires |s.queue[Ids(s, side)[k]]| == 1
    requires LevelInRing(m, side, Ids(s, side), k) && LevelUnlinked(m, side, Ids(s, side), k, m')
    requires s' == UnlinkedLevelShape(s, side, k)
    ensures Struct(m', s')
    ensures forall y :: Linked(m', s', y) <==> Linked(m, s, y) && y != s.queue[Ids(s, side)[k]][0]
  {
    UnlinkLevel(m, s, side, k, m', s');
    UnlinkLevelLinked(m, s, Ids(s, side)[k], m', s');
  }

  lemma {:induction false} LevelLooseOwn(m: Mem, s: Shape, o: int, side: Side, k: nat, m': Mem, s': Shape)
    requires Struct(m, s) && ClientsOk(m, s, NULL) && At(m, s, o, side, k, 0) && |s.queue[Ids(s, side)[k]]| == 1
    requires Struct(m', s') && m'.orders == m.orders && s' == UnlinkedLevelShape(s, side, k)
    ensures SideQueue(m', s', side) == Without(SideQueue(m, s, side), m.orders[o].Key())
  {
    UnlinkLevelEffect(m, s, side, k, m', s');
  }

  lemma {:induction false} LevelLooseOther(m: Mem, s: Shape, o: int, side: Side, k: nat, m': Mem, s': Shape)
    requires Struct(m, s) && ClientsOk(m, s, NULL) && Linked(m, s, o) && At(m, s, o, side, k, 0)
    requires Struct(m', s') && m'.orders == m.orders && s' == UnlinkedLevelShape(s, side, k)
    ensures SideQueue(m', s', Opposite(side)) == Without(SideQueue(m, s, Opposite(side)), m.orders[o].Key())
  {
    OtherSideKept(m, s, o, side, Ids(s, side)[k], m', s');
  }

  lemma {:induction false} LevelLoose(m: Mem, s: Shape, o: int, side: Side, k: nat, m': Mem)
    requires Consistent(m, s) && Linked(m, s, o) && At(m, s, o, side, k, 0) && |s.queue[Ids(s, side)[k]]| == 1
    requires LevelInRing(m, side, Ids(s, side), k) && LevelUnlinked(m, side, Ids(s, side), k, m')
    ensures Loose(m, s, o, m', UnlinkedLevelShape(s, side, k))
  {
    var l := Ids(s, side)[k];
    var s' := UnlinkedLevelShape(s, side, k);
    LevelLooseRings(m, s, side, k, m', s');
    IndexesAfterUnlink(m, s, o, m', s');
    LevelLooseOwn(m, s, o, side, k, m', s');
    LevelLooseOther(m, s, o, side, k, m', s');
    LevelPoolShrinks(m, s, l, m', s');
  }

  lemma {:induction false} LevelPoolShrinks(m: Mem, s: Shape, l: int, m': Mem, s': Shape)
    requires LevelPoolOk(m, s, NULL) && l in s.queue && 0 <= l < |m.lFree|
    requires m'.lFree == m.lFree[l := true] && s'.queue == s.queue - {l}
    ensures LevelPoolOk(m', s', NULL)
  {
  }

  /** The removal completed. */
  lemma {:induction false} Removed(m: Mem, s: Shape, o: int, m1: Mem, s': Shape, m': Mem)
    requires Consistent(m, s) && Linked(m, s, o) && Loose(m, s, o, m1, s')
    requires m' == m1.(clients := m1.clients - {m.orders[o].Key()}, oFree := m1.oFree[o := true])
    ensures Consistent(m', s')
    ensures SideQueue(m', s', BUY) == Without(SideQueue(m, s, BUY), m.orders[o].Key())
    ensures SideQueue(m', s', SELL) == Without(SideQueue(m, s, SELL), m.orders[o].Key())
  {
    Detach(m1, s', o, m');
    IndexFrame(m1, s', m');
  }

  /** The rings do not depend on the client map or the pool flags. */
  lemma {:induction false} IndexFrame(m: Mem, s: Shape, m': Mem)
    requires Struct(m, s) && m' == m.(clients := m'.clients, oFree := m'.oFree) && |m'.oFree| == |m.oFree|
    ensures Struct(m', s)
    ensures SideQueue(m', s, BUY) == SideQueue(m, s, BUY) && SideQueue(m', s, SELL) == SideQueue(m, s, SELL)
    ensures LevelPoolOk(m, s, NULL) ==> LevelPoolOk(m', s, NULL)
  {
    SideFrame(m, s, m', s, BUY);
    SideFrame(m, s, m', s, SELL);
    forall l | l in s.queue ensures QueueOk(m', l, s.queue[l]) {
      QueueFrame(m, m', l, s.queue[l]);
    }
    Members(m, s, BUY);
    Members(m, s, SELL);
    SideQueueFrame(m, s, m', s, BUY);
    SideQueueFrame(m, s, m', s, SELL);
  }

  // ---------------------------------------------------------------- using up the front, allocating an order

  /** Removing the front order's key leaves the rest of the queue. */
  lemma {:induction false} WithoutFront(m: Mem, s: Shape, side: Side)
    requires Struct(m, s) && ClientsOk(m, s, NULL) && IsSide(side) && SideQueue(m, s, side) != []
    ensures var q := SideQueue(m, s, side); Without(q, q[0].Key()) == q[1..]
  {
    var ids := Ids(s, side);
    FrontOrder(m, s, side);
    var a, b, c := SideAround(m, s, side, 0);
    assert QueueOk(m, ids[0], s.queue[ids[0]]);
    FlatWithout(m, s, side, 0, 0, a, b, c);
    FrontOf(a, b, c);
  }

  lemma {:induction false} FrontOf(a: seq<MEOrder>, b: seq<MEOrder>, c: seq<MEOrder>)
    requires a == [] && b != []
    ensures (a + b + c)[0] == b[0] && a + (b[..0] + b[0 + 1..]) + c == (a + b + c)[1..]
  {
  }

  /** Writing an order into a free block disturbs nothing. */
  lemma {:induction false} FreshOrder(m: Mem, s: Shape, x: int, m': Mem)
    requires Consistent(m, s) && 0 <= x < |m.orders| && m.oFree[x] && |m'.orders| == |m.orders|
    requires m' == m.(orders := m.orders[x := m'.orders[x]], oNext := m.oNext[x := NULL], oPrev := m.oPrev[x := NULL],
                      oFree := m.oFree[x := false])
    ensures Struct(m', s) && LevelPoolOk(m', s, NULL) && OrderPoolOk(m', s, x) && ClientsOk(m', s, NULL)
    ensures !Linked(m', s, x)
    ensures SideQueue(m', s, BUY) == SideQueue(m, s, BUY) && SideQueue(m', s, SELL) == SideQueue(m, s, SELL)
  {
    assert !Linked(m, s, x);
    NowhereLinked(m, s, x);
    FreshOrderStruct(m, s, x, m');
    assert forall y :: Linked(m', s, y) <==> Linked(m, s, y);
    FreshOrderQueue(m, s, x, m', BUY);
    FreshOrderQueue(m, s, x, m', SELL);
  }

  lemma {:induction false} NowhereLinked(m: Mem, s: Shape, x: int)
    requires Struct(m, s) && !Linked(m, s, x)
    ensures forall l :: l in s.queue ==> x !in s.queue[l]
  {
    forall l | l in s.queue ensures x !in s.queue[l] {
      if x in s.queue[l] { InLevelIsLinked(m, s, l, x); }
    }
  }

  lemma {:induction false} FreshOrderStruct(m: Mem, s: Shape, x: int, m': Mem)
    requires Struct(m, s) && 0 <= x < |m.orders| && |m'.orders| == |m.orders| && |m'.oFree| == |m.oFree|
    requires forall l :: l in s.queue ==> x !in s.queue[l]
    requires m' == m.(orders := m.orders[x := m'.orders[x]], oNext := m.oNext[x := NULL], oPrev := m.oPrev[x := NULL],
                      oFree := m'.oFree)
    ensures Struct(m', s)
  {
    SideFrame(m, s, m', s, BUY);
    SideFrame(m, s, m', s, SELL);
    forall l | l in s.queue ensures QueueOk(m', l, s.queue[l]) {
      assert QueueOk(m, l, s.queue[l]);
      QueueFrame(m, m', l, s.queue[l]);
    }
    assert forall l :: PriceAt(m', l) == PriceAt(m, l);
  }

  lemma {:induction false} FreshOrderQueue(m: Mem, s: Shape, x: int, m': Mem, side: Side)
    requires Struct(m, s) && Struct(m', s) && IsSide(side) && 0 <= x < |m.orders| && |m'.orders| == |m.orders|
    requires forall l :: l in s.queue ==> x !in s.queue[l]
    requires m'.orders == m.orders[x := m'.orders[x]]
    ensures SideQueue(m', s, side) == SideQueue(m, s, side)
  {
    var ids := Ids(s, side);
    StructFlatOk(m, s, side);
    forall i, j | 0 <= i < |ids| && 0 <= j < |s.queue[ids[i]]|
      ensures m'.orders[s.queue[ids[i]][j]] == m.orders[s.queue[ids[i]][j]]
    {
      assert s.queue[ids[i]][j] in s.queue[ids[i]];
    }
    FlatFrame(m.orders, m'.orders, ids, s.queue, s.queue);
  }
}

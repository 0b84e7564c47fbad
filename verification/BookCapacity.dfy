/** When the pools of a book have a block left: counted in memory by links and blocks, and on the queues by
    orders and prices. */
module BookCapacity {
  import opened Types
  import opened Ring
  import opened MemPool
  import opened PriceTime
  import opened BookMemory
  import opened BookAbstraction
  import opened BookResting

  // ---------------------------------------------------------------- on the queues

  /** The blocks of a book's two pools. */
  datatype Capacity = Capacity(orders: nat, levels: nat)

  /** How many prices a sorted queue holds. */
  function Levels(q: seq<MEOrder>): nat {
    if q == [] then 0
    else (if |q| > 1 && q[0].price == q[1].price then 0 else 1) + Levels(q[1..])
  }

  predicate SlotTaken(q: seq<MEOrder>, o: MEOrder) {
    exists i :: 0 <= i < |q| && Slot(q[i].price) == Slot(o.price)
  }

  /** An order finds its place in the client table and a block in both pools, with one to spare in each: the
      program ends when it takes the last one. A price whose slot is taken needs no new level. */
  predicate HasPlace(cap: Capacity, b: Book, o: MEOrder) {
    && InTables(o)
    && |b.bids| + |b.asks| + 1 < cap.orders
    && Levels(b.bids) + Levels(b.asks) + (if SlotTaken(b.bids, o) || SlotTaken(b.asks, o) then 0 else 1) < cap.levels
  }

  // ---------------------------------------------------------------- counting blocks

  /** A list of different blocks is no longer than the pool. */
  lemma {:induction false} NoLonger(s: seq<int>, n: nat)
    requires Distinct(s) && forall i :: 0 <= i < |s| ==> 0 <= s[i] < n
    ensures |s| <= n
    decreases n
  {
    if n - 1 in s {
      var k :| 0 <= k < |s| && s[k] == n - 1;
      NoLonger(s[..k] + s[k + 1..], n - 1);
    } else if s != [] {
      assert s[0] < n;
      NoLonger(s, n - 1);
    }
  }

  /** A list of all blocks is no shorter. */
  lemma {:induction false} NoShorter(s: seq<int>, n: nat)
    requires forall x :: 0 <= x < n ==> x in s
    ensures n <= |s|
    decreases n
  {
    if n > 0 {
      assert n - 1 in s;
      var k :| 0 <= k < |s| && s[k] == n - 1;
      var rest := s[..k] + s[k + 1..];
      forall x | 0 <= x < n - 1 ensures x in rest {
        assert x in s;
        var i :| 0 <= i < |s| && s[i] == x;
        assert rest[if i < k then i else i - 1] == x;
      }
      NoShorter(rest, n - 1);
    }
  }

  /** A block is free exactly while fewer are used than there are. */
  lemma {:induction false} FreeExactly(free: seq<bool>, used: seq<int>)
    requires Distinct(used) && forall i :: 0 <= i < |used| ==> 0 <= used[i] < |free|
    requires forall x :: 0 <= x < |free| ==> (!free[x] <==> x in used)
    ensures Free(free) <==> |used| < |free|
  {
    if Free(free) {
      var i :| 0 <= i < |free| && free[i];
      NoLonger(used + [i], |free|);
    } else {
      NoShorter(used, |free|);
    }
  }

  // ---------------------------------------------------------------- used orders

  ghost function Blocks(ids: seq<int>, queue: map<int, seq<int>>): seq<int>
    requires forall i :: 0 <= i < |ids| ==> ids[i] in queue
  {
    if ids == [] then [] else queue[ids[0]] + Blocks(ids[1..], queue)
  }

  lemma {:induction false} BlocksMember(ids: seq<int>, queue: map<int, seq<int>>)
    requires forall i :: 0 <= i < |ids| ==> ids[i] in queue
    ensures forall o :: o in Blocks(ids, queue) <==> exists i :: 0 <= i < |ids| && o in queue[ids[i]]
  {
    if ids != [] {
      var rest := ids[1..];
      assert forall i :: 0 <= i < |rest| ==> rest[i] == ids[i + 1];
      BlocksMember(rest, queue);
      forall o ensures o in Blocks(ids, queue) <==> exists i :: 0 <= i < |ids| && o in queue[ids[i]] {
        if i :| 0 <= i < |ids| && o in queue[ids[i]] {
          assert i > 0 ==> o in queue[rest[i - 1]];
        }
        if o in Blocks(rest, queue) {
          var i :| 0 <= i < |rest| && o in queue[rest[i]];
          assert o in queue[ids[i + 1]];
        }
      }
    }
  }

  lemma {:induction false} DistinctConcat(p: seq<int>, q: seq<int>)
    requires Distinct(p) && Distinct(q) && forall x :: x in p ==> x !in q
    ensures Distinct(p + q)
  {
    var s := p + q;
    forall i, j | 0 <= i < j < |s| ensures s[i] != s[j] {
      assert i < |p| ==> s[i] in p;
      assert j >= |p| ==> s[j] in q;
    }
  }

  lemma {:induction false} BlocksDistinct(ids: seq<int>, queue: map<int, seq<int>>)
    requires Distinct(ids) && Apart(queue)
    requires forall i :: 0 <= i < |ids| ==> ids[i] in queue && Distinct(queue[ids[i]])
    ensures Distinct(Blocks(ids, queue))
  {
    if ids != [] {
      var rest := ids[1..];
      assert forall i :: 0 <= i < |rest| ==> rest[i] == ids[i + 1];
      BlocksDistinct(rest, queue);
      BlocksMember(rest, queue);
      DistinctConcat(queue[ids[0]], Blocks(rest, queue));
    }
  }

  lemma {:induction false} BlocksLength(orders: seq<MEOrder>, ids: seq<int>, queue: map<int, seq<int>>)
    requires FlatOk(orders, ids, queue)
    ensures |Blocks(ids, queue)| == |Flat(orders, ids, queue)|
  {
    if ids != [] {
      assert forall i :: 0 <= i < |ids[1..]| ==> ids[1..][i] == ids[i + 1];
      BlocksLength(orders, ids[1..], queue);
    }
  }

  lemma {:induction false} SideLevels(m: Mem, s: Shape, side: Side)
    requires Struct(m, s) && IsSide(side)
    ensures Distinct(Ids(s, side))
    ensures forall i :: 0 <= i < |Ids(s, side)| ==>
              Ids(s, side)[i] in s.queue && QueueOk(m, Ids(s, side)[i], s.queue[Ids(s, side)[i]])
  {
    var ids := Ids(s, side);
    assert forall i :: 0 <= i < |ids| ==> LevelOk(m, s, ids[i], side);
  }

  /** The order blocks in use, one side after the other. */
  ghost function UsedOrders(m: Mem, s: Shape): (used: seq<int>)
    requires Struct(m, s)
  {
    SideLevels(m, s, BUY);
    SideLevels(m, s, SELL);
    Blocks(s.bids, s.queue) + Blocks(s.asks, s.queue)
  }

  lemma {:induction false} SideBlocks(m: Mem, s: Shape, side: Side)
    requires Struct(m, s) && IsSide(side)
    ensures forall i :: 0 <= i < |Ids(s, side)| ==> Ids(s, side)[i] in s.queue
    ensures Distinct(Blocks(Ids(s, side), s.queue))
    ensures |Blocks(Ids(s, side), s.queue)| == |SideQueue(m, s, side)|
    ensures forall o :: o in Blocks(Ids(s, side), s.queue)
                        <==> Linked(m, s, o) && m.table[Slot(m.orders[o].price)] in Ids(s, side)
  {
    var ids := Ids(s, side);
    SideLevels(m, s, side);
    OneLevel(m, s);
    StructFlatOk(m, s, side);
    BlocksDistinct(ids, s.queue);
    BlocksLength(m.orders, ids, s.queue);
    BlocksMember(ids, s.queue);
    forall o
      ensures o in Blocks(ids, s.queue) <==> Linked(m, s, o) && m.table[Slot(m.orders[o].price)] in ids
    {
      if i :| 0 <= i < |ids| && o in s.queue[ids[i]] {
        InLevelIsLinked(m, s, ids[i], o);
      }
    }
  }

  lemma {:induction false} UsedOrdersExactly(m: Mem, s: Shape)
    requires Struct(m, s)
    ensures Distinct(UsedOrders(m, s))
    ensures |UsedOrders(m, s)| == |SideQueue(m, s, BUY)| + |SideQueue(m, s, SELL)|
    ensures forall o :: o in UsedOrders(m, s) <==> Linked(m, s, o)
  {
    SideBlocks(m, s, BUY);
    SideBlocks(m, s, SELL);
    OneSide(m, s, BUY);
    DistinctConcat(Blocks(s.bids, s.queue), Blocks(s.asks, s.queue));
  }

  /** After the block `x` is taken too, another is free exactly while the queues leave one. */
  lemma {:induction false} OrderLeft(m: Mem, s: Shape, x: nat)
    requires Struct(m, s) && OrderPoolOk(m, s, NULL) && x < |m.oFree| && m.oFree[x]
    ensures Free(m.oFree[x := false]) <==> |SideQueue(m, s, BUY)| + |SideQueue(m, s, SELL)| + 1 < |m.orders|
  {
    UsedOrdersExactly(m, s);
    var used := UsedOrders(m, s);
    assert x !in used by { assert !Linked(m, s, x); }
    forall i | 0 <= i < |used| ensures 0 <= used[i] < |m.oFree| { assert used[i] in used; }
    FreeExactly(m.oFree[x := false], used + [x]);
  }

  // ---------------------------------------------------------------- used levels

  lemma {:induction false} LevelsOfLevel(orders: seq<MEOrder>, q: seq<int>, rest: seq<MEOrder>)
    requires Indexes(orders, q) && q != []
    requires forall i, j :: 0 <= i < j < |q| ==> orders[q[i]].price == orders[q[j]].price
    requires rest == [] || rest[0].price != orders[q[0]].price
    ensures Levels(OrdersOf(orders, q) + rest) == 1 + Levels(rest)
    decreases |q|
  {
    var all := OrdersOf(orders, q) + rest;
    if |q| == 1 {
      assert all[1..] == rest;
    } else {
      assert all[1..] == OrdersOf(orders, q[1..]) + rest;
      LevelsOfLevel(orders, q[1..], rest);
    }
  }

  /** Levels of one price each, no two neighbours of the same. */
  ghost predicate PricedApart(orders: seq<MEOrder>, ids: seq<int>, queue: map<int, seq<int>>)
    requires FlatOk(orders, ids, queue)
  {
    && (forall i :: 0 <= i < |ids| ==> queue[ids[i]] != [] && OnePrice(orders, queue[ids[i]]))
    && (forall i, j :: 0 <= i < |ids| && j == i + 1 < |ids| ==>
          orders[queue[ids[j]][0]].price != orders[queue[ids[i]][0]].price)
  }

  ghost predicate OnePrice(orders: seq<MEOrder>, q: seq<int>)
    requires Indexes(orders, q)
  {
    forall i, j :: 0 <= i < j < |q| ==> orders[q[i]].price == orders[q[j]].price
  }

  lemma {:induction false} LevelsOfFlat(orders: seq<MEOrder>, ids: seq<int>, queue: map<int, seq<int>>)
    requires FlatOk(orders, ids, queue) && PricedApart(orders, ids, queue)
    ensures Levels(Flat(orders, ids, queue)) == |ids|
  {
    if ids != [] {
      var rest := ids[1..];
      assert forall i :: 0 <= i < |rest| ==> rest[i] == ids[i + 1];
      LevelsOfFlat(orders, rest, queue);
      LevelsOfLevel(orders, queue[ids[0]], Flat(orders, rest, queue));
    }
  }

  lemma {:induction false} SidePricedApart(m: Mem, s: Shape, side: Side)
    requires Struct(m, s) && IsSide(side)
    ensures FlatOk(m.orders, Ids(s, side), s.queue) && PricedApart(m.orders, Ids(s, side), s.queue)
  {
    var ids := Ids(s, side);
    StructFlatOk(m, s, side);
    SideLevels(m, s, side);
    forall i, j | 0 <= i < |ids| && 0 <= j < |s.queue[ids[i]]|
      ensures m.orders[s.queue[ids[i]][j]].price == PriceAt(m, ids[i])
    {
      assert OrderOk(m, ids[i], s.queue[ids[i]][j]);
    }
    forall i, j | 0 <= i < j < |ids| ensures PriceAt(m, ids[i]) != PriceAt(m, ids[j]) {
      assert Better(side, PriceAt(m, ids[i]), PriceAt(m, ids[j]));
    }
  }

  lemma {:induction false} UsedLevelsExactly(m: Mem, s: Shape)
    requires Struct(m, s)
    ensures Distinct(s.bids + s.asks) && forall l :: l in s.bids + s.asks <==> l in s.queue
    ensures forall l :: l in s.queue ==> 0 <= l < |m.levels|
    ensures |s.bids + s.asks| == Levels(SideQueue(m, s, BUY)) + Levels(SideQueue(m, s, SELL))
  {
    SideLevels(m, s, BUY);
    SideLevels(m, s, SELL);
    OneSide(m, s, BUY);
    DistinctConcat(s.bids, s.asks);
    SidePricedApart(m, s, BUY);
    SidePricedApart(m, s, SELL);
    LevelsOfFlat(m.orders, s.bids, s.queue);
    LevelsOfFlat(m.orders, s.asks, s.queue);
  }

  lemma {:induction false} LevelLeft(m: Mem, s: Shape, y: nat)
    requires Struct(m, s) && LevelPoolOk(m, s, NULL) && y < |m.lFree| && m.lFree[y]
    ensures var n := Levels(SideQueue(m, s, BUY)) + Levels(SideQueue(m, s, SELL));
            && Free(m.lFree) && n < |m.levels|
            && (Free(m.lFree[y := false]) <==> n + 1 < |m.levels|)
  {
    UsedLevelsExactly(m, s);
    LevelFlags(m, s);
    OneMoreUsed(m.lFree, s.bids + s.asks, y);
  }

  lemma {:induction false} LevelFlags(m: Mem, s: Shape)
    requires Struct(m, s) && LevelPoolOk(m, s, NULL)
    ensures |m.lFree| == |m.levels| && forall x :: 0 <= x < |m.lFree| ==> (!m.lFree[x] <==> x in s.queue)
  {
  }

  lemma {:induction false} OneMoreUsed(free: seq<bool>, used: seq<int>, y: nat)
    requires Distinct(used) && forall x :: x in used ==> 0 <= x < |free|
    requires forall x :: 0 <= x < |free| ==> (!free[x] <==> x in used)
    requires y < |free| && free[y]
    ensures Free(free) && |used| < |free| && (Free(free[y := false]) <==> |used| + 1 < |free|)
  {
    assert forall i :: 0 <= i < |used| ==> used[i] in used;
    FreeExactly(free, used);
    FreeExactly(free[y := false], used + [y]);
  }

  /** The table's slot is taken exactly when an order rests in it. */
  lemma {:induction false} SlotInMemory(m: Mem, s: Shape, o: MEOrder)
    requires Struct(m, s)
    ensures Slot(o.price) in m.table <==> SlotTaken(SideQueue(m, s, BUY), o) || SlotTaken(SideQueue(m, s, SELL), o)
  {
    if Slot(o.price) in m.table {
      var l := m.table[Slot(o.price)];
      assert QueueOk(m, l, s.queue[l]) && OrderOk(m, l, s.queue[l][0]);
      InLevelIsLinked(m, s, l, s.queue[l][0]);
      LinkedSide(m, s, s.queue[l][0]);
      var n := LinkedInQueue(m, s, s.queue[l][0]);
      assert Slot(SideQueue(m, s, m.orders[s.queue[l][0]].side)[n].price) == Slot(o.price);
    }
    forall side, i | IsSide(side) && 0 <= i < |SideQueue(m, s, side)|
                     && Slot(SideQueue(m, s, side)[i].price) == Slot(o.price)
      ensures Slot(o.price) in m.table
    {
      var x := SideMember(m, s, side, i);
    }
  }

  /** What the pools answer, read off the queues: `x` and `y` are the blocks under their cursors. */
  lemma {:induction false} PlaceExactly(m: Mem, s: Shape, o: MEOrder, x: nat, y: nat)
    requires Consistent(m, s) && x < |m.oFree| && m.oFree[x] && y < |m.lFree| && m.lFree[y]
    ensures InTables(o) && Free(m.oFree[x := false])
              && Free(if Slot(o.price) in m.table then m.lFree else m.lFree[y := false])
            <==> HasPlace(Capacity(|m.orders|, |m.levels|), Book(SideQueue(m, s, BUY), SideQueue(m, s, SELL), 1), o)
  {
    OrderLeft(m, s, x);
    LevelLeft(m, s, y);
    SlotInMemory(m, s, o);
  }
}

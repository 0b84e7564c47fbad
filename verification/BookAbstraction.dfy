/** The price-time queues that a well-formed order book memory stands for, and how each step on the rings
    changes them. */
module BookAbstraction {
  import opened Types
  import opened PriceTime
  import PriceTimeInvariant
  import opened BookMemory

  ghost predicate Indexes(orders: seq<MEOrder>, q: seq<int>) {
    forall i :: 0 <= i < |q| ==> 0 <= q[i] < |orders|
  }

  ghost predicate FlatOk(orders: seq<MEOrder>, ids: seq<int>, queue: map<int, seq<int>>) {
    forall i :: 0 <= i < |ids| ==> ids[i] in queue && Indexes(orders, queue[ids[i]])
  }

  ghost function OrdersOf(orders: seq<MEOrder>, q: seq<int>): (r: seq<MEOrder>)
    requires Indexes(orders, q)
    ensures |r| == |q| && forall i :: 0 <= i < |q| ==> r[i] == orders[q[i]]
  {
    seq(|q|, i requires 0 <= i < |q| => orders[q[i]])
  }

  /** All orders of a side: its levels outward, each level from the oldest. */
  ghost function Flat(orders: seq<MEOrder>, ids: seq<int>, queue: map<int, seq<int>>): seq<MEOrder>
    requires FlatOk(orders, ids, queue)
  {
    if ids == [] then [] else OrdersOf(orders, queue[ids[0]]) + Flat(orders, ids[1..], queue)
  }

  lemma {:induction false} StructFlatOk(m: Mem, s: Shape, side: Side)
    requires Struct(m, s) && IsSide(side)
    ensures FlatOk(m.orders, Ids(s, side), s.queue)
  {
    var ids := Ids(s, side);
    forall i | 0 <= i < |ids| ensures ids[i] in s.queue && Indexes(m.orders, s.queue[ids[i]]) {
      assert LevelOk(m, s, ids[i], side) && QueueOk(m, ids[i], s.queue[ids[i]]);
      forall j | 0 <= j < |s.queue[ids[i]]| ensures 0 <= s.queue[ids[i]][j] < |m.orders| {
        assert OrderOk(m, ids[i], s.queue[ids[i]][j]);
      }
    }
  }

  ghost function SideQueue(m: Mem, s: Shape, side: Side): seq<MEOrder>
    requires Struct(m, s) && IsSide(side)
  {
    StructFlatOk(m, s, side);
    Flat(m.orders, Ids(s, side), s.queue)
  }

  ghost function Abstract(m: Mem, s: Shape, nextId: nat): Book
    requires Struct(m, s)
  {
    Book(SideQueue(m, s, BUY), SideQueue(m, s, SELL), nextId)
  }

  // ---------------------------------------------------------------- flattening

  lemma {:induction false} FlatConcat(orders: seq<MEOrder>, a: seq<int>, b: seq<int>, queue: map<int, seq<int>>)
    requires FlatOk(orders, a + b, queue)
    ensures FlatOk(orders, a, queue) && FlatOk(orders, b, queue)
    ensures Flat(orders, a + b, queue) == Flat(orders, a, queue) + Flat(orders, b, queue)
    decreases |a|
  {
    assert forall i :: 0 <= i < |a| ==> (a + b)[i] == a[i];
    assert forall i :: 0 <= i < |b| ==> (a + b)[i + |a|] == b[i];
    if a == [] {
      assert a + b == b;
    } else {
      assert (a + b)[1..] == a[1..] + b;
      FlatConcat(orders, a[1..], b, queue);
    }
  }

  lemma {:induction false} FlatOne(orders: seq<MEOrder>, l: int, queue: map<int, seq<int>>)
    requires l in queue && Indexes(orders, queue[l])
    ensures Flat(orders, [l], queue) == OrdersOf(orders, queue[l])
  {
  }

  /** A side around its level at position `k`. */
  lemma {:induction false} FlatAround(orders: seq<MEOrder>, ids: seq<int>, queue: map<int, seq<int>>, k: nat)
    requires FlatOk(orders, ids, queue) && k < |ids|
    ensures FlatOk(orders, ids[..k], queue) && FlatOk(orders, ids[k + 1..], queue)
    ensures ids[k] in queue && Indexes(orders, queue[ids[k]])
    ensures Flat(orders, ids, queue)
         == Flat(orders, ids[..k], queue) + OrdersOf(orders, queue[ids[k]]) + Flat(orders, ids[k + 1..], queue)
  {
    assert ids == ids[..k] + ([ids[k]] + ids[k + 1..]);
    FlatConcat(orders, ids[..k], [ids[k]] + ids[k + 1..], queue);
    FlatConcat(orders, [ids[k]], ids[k + 1..], queue);
    FlatOne(orders, ids[k], queue);
  }

  /** Levels whose queues and orders did not change contribute what they did. */
  lemma {:induction false} FlatFrame(orders: seq<MEOrder>, orders': seq<MEOrder>, ids: seq<int>,
                                     queue: map<int, seq<int>>, queue': map<int, seq<int>>)
    requires FlatOk(orders, ids, queue) && |orders'| == |orders|
    requires forall i :: 0 <= i < |ids| ==> ids[i] in queue' && queue'[ids[i]] == queue[ids[i]]
    requires forall i, j :: 0 <= i < |ids| && 0 <= j < |queue[ids[i]]| ==>
               orders'[queue[ids[i]][j]] == orders[queue[ids[i]][j]]
    ensures FlatOk(orders', ids, queue')
    ensures Flat(orders', ids, queue') == Flat(orders, ids, queue)
    decreases |ids|
  {
    if ids != [] {
      assert forall i :: 0 <= i < |ids[1..]| ==> ids[1..][i] == ids[i + 1];
      assert OrdersOf(orders', queue'[ids[0]]) == OrdersOf(orders, queue[ids[0]]);
      FlatFrame(orders, orders', ids[1..], queue, queue');
    }
  }

  /** Every order of the flattened side sits in one of its levels. */
  lemma {:induction false} FlatMember(orders: seq<MEOrder>, ids: seq<int>, queue: map<int, seq<int>>, n: nat)
    returns (i: nat, j: nat)
    requires FlatOk(orders, ids, queue) && n < |Flat(orders, ids, queue)|
    ensures i < |ids| && j < |queue[ids[i]]|
    ensures Flat(orders, ids, queue)[n] == orders[queue[ids[i]][j]]
    decreases |ids|
  {
    var first := queue[ids[0]];
    if n < |first| {
      i, j := 0, n;
    } else {
      assert forall i :: 0 <= i < |ids[1..]| ==> ids[1..][i] == ids[i + 1];
      var i', j' := FlatMember(orders, ids[1..], queue, n - |first|);
      i, j := i' + 1, j';
    }
  }

  // ---------------------------------------------------------------- searching and removing

  /** An order of a side, found from a position in the flattened side. */
  lemma {:induction false} SideMember(m: Mem, s: Shape, side: Side, n: nat) returns (o: int)
    requires Struct(m, s) && IsSide(side) && n < |SideQueue(m, s, side)|
    ensures Linked(m, s, o) && SideQueue(m, s, side)[n] == m.orders[o]
    ensures m.table[Slot(m.orders[o].price)] in Ids(s, side)
    ensures m.orders[o].side == side
  {
    StructFlatOk(m, s, side);
    var i, j := FlatMember(m.orders, Ids(s, side), s.queue, n);
    var l := Ids(s, side)[i];
    o := s.queue[l][j];
    assert LevelOk(m, s, l, side);
    InLevelIsLinked(m, s, l, o);
  }

  lemma {:induction false} WithoutConcat(p: seq<MEOrder>, q: seq<MEOrder>, key: (nat, nat))
    ensures Without(p + q, key) == Without(p, key) + Without(q, key)
    decreases |p|
  {
    if p == [] {
      assert p + q == q;
    } else {
      assert (p + q)[1..] == p[1..] + q;
      WithoutConcat(p[1..], q, key);
    }
  }

  lemma {:induction false} WithoutOne(o: MEOrder)
    ensures Without([o], o.Key()) == []
  {
  }

  lemma {:induction false} WithoutMiddle(a: seq<MEOrder>, o: MEOrder, c: seq<MEOrder>)
    requires Without(a, o.Key()) == a && Without(c, o.Key()) == c
    ensures Without(a + [o] + c, o.Key()) == a + c
  {
    WithoutOne(o);
    WithoutConcat(a + [o], c, o.Key());
    WithoutConcat(a, [o], o.Key());
    assert a + [] + c == a + c;
  }

  /** No two linked orders share a key. */
  lemma {:induction false} KeysUnique(m: Mem, s: Shape, o: int, o2: int)
    requires ClientsOk(m, s, NULL) && Linked(m, s, o) && Linked(m, s, o2)
    requires m.orders[o].Key() == m.orders[o2].Key()
    ensures o == o2
  {
  }

  lemma {:induction false} FlatKeys(orders: seq<MEOrder>, part: seq<int>, queue: map<int, seq<int>>, key: (nat, nat),
                                    a: seq<MEOrder>)
    requires FlatOk(orders, part, queue) && a == Flat(orders, part, queue)
    requires forall i, j :: 0 <= i < |part| && 0 <= j < |queue[part[i]]| ==> orders[queue[part[i]][j]].Key() != key
    ensures forall n :: 0 <= n < |a| ==> a[n].Key() != key
  {
    forall n | 0 <= n < |a| ensures a[n].Key() != key {
      var i, j := FlatMember(orders, part, queue, n);
    }
  }

  lemma {:induction false} OtherKey(m: Mem, s: Shape, l: int, o: int, l2: int, o2: int)
    requires Struct(m, s) && ClientsOk(m, s, NULL)
    requires l in s.queue && o in s.queue[l] && l2 in s.queue && o2 in s.queue[l2] && l != l2
    ensures 0 <= o < |m.orders| && 0 <= o2 < |m.orders| && m.orders[o2].Key() != m.orders[o].Key()
  {
    InLevelIsLinked(m, s, l, o);
    InLevelIsLinked(m, s, l2, o2);
    if m.orders[o2].Key() == m.orders[o].Key() { KeysUnique(m, s, o2, o); }
  }

  /** Other levels hold no order with the key of an order of level `l`. */
  lemma {:induction false} StretchKeys(m: Mem, s: Shape, part: seq<int>, l: int, o: int, a: seq<MEOrder>)
    requires Struct(m, s) && ClientsOk(m, s, NULL)
    requires l in s.queue && o in s.queue[l] && 0 <= o < |m.orders| && l !in part
    requires FlatOk(m.orders, part, s.queue) && a == Flat(m.orders, part, s.queue)
    ensures forall n :: 0 <= n < |a| ==> a[n].Key() != m.orders[o].Key()
  {
    forall i, j | 0 <= i < |part| && 0 <= j < |s.queue[part[i]]|
      ensures m.orders[s.queue[part[i]][j]].Key() != m.orders[o].Key()
    {
      assert part[i] in part;
      OtherKey(m, s, l, o, part[i], s.queue[part[i]][j]);
    }
    FlatKeys(m.orders, part, s.queue, m.orders[o].Key(), a);
  }

  lemma {:induction false} NotInStretch(m: Mem, s: Shape, side: Side, k: nat)
    requires SideOk(m, s, side) && k < |Ids(s, side)|
    ensures Ids(s, side)[k] !in Ids(s, side)[0..k] && Ids(s, side)[k] !in Ids(s, side)[k + 1..|Ids(s, side)|]
  {
  }

  lemma {:induction false} LevelKeys(m: Mem, s: Shape, l: int, j: nat)
    requires Struct(m, s) && ClientsOk(m, s, NULL) && l in s.queue && j < |s.queue[l]| && Indexes(m.orders, s.queue[l])
    ensures forall i :: 0 <= i < |s.queue[l]| && i != j ==>
              m.orders[s.queue[l][i]].Key() != m.orders[s.queue[l][j]].Key()
  {
    var q := s.queue[l];
    assert QueueOk(m, l, q);
    forall i | 0 <= i < |q| && i != j ensures m.orders[q[i]].Key() != m.orders[q[j]].Key() {
      assert q[i] != q[j];
      InLevelIsLinked(m, s, l, q[i]);
      InLevelIsLinked(m, s, l, q[j]);
      if m.orders[q[i]].Key() == m.orders[q[j]].Key() { KeysUnique(m, s, q[i], q[j]); }
    }
  }

  /** A side around the `j`-th order of its `k`-th level. */
  lemma {:induction false} SideAround(m: Mem, s: Shape, side: Side, k: nat)
    returns (a: seq<MEOrder>, b: seq<MEOrder>, c: seq<MEOrder>)
    requires Struct(m, s) && IsSide(side) && k < |Ids(s, side)|
    ensures var ids := Ids(s, side);
            && ids[k] in s.queue && Indexes(m.orders, s.queue[ids[k]])
            && FlatOk(m.orders, ids[0..k], s.queue) && a == Flat(m.orders, ids[0..k], s.queue)
            && FlatOk(m.orders, ids[k + 1..|ids|], s.queue) && c == Flat(m.orders, ids[k + 1..|ids|], s.queue)
            && b == OrdersOf(m.orders, s.queue[ids[k]])
    ensures SideQueue(m, s, side) == a + b + c
  {
    var ids := Ids(s, side);
    StructFlatOk(m, s, side);
    FlatAround(m.orders, ids, s.queue, k);
    assert ids[..k] == ids[0..k] && ids[k + 1..] == ids[k + 1..|ids|];
    a, c := Flat(m.orders, ids[..k], s.queue), Flat(m.orders, ids[k + 1..], s.queue);
    b := OrdersOf(m.orders, s.queue[ids[k]]);
  }

  /** Removing an order's key from a side removes that order from its level and nothing else. */
  lemma {:induction false} FlatWithout(m: Mem, s: Shape, side: Side, k: nat, j: nat, a: seq<MEOrder>,
                                       b: seq<MEOrder>, c: seq<MEOrder>)
    requires Struct(m, s) && ClientsOk(m, s, NULL) && IsSide(side) && k < |Ids(s, side)|
    requires var ids := Ids(s, side);
             && ids[k] in s.queue && Indexes(m.orders, s.queue[ids[k]]) && j < |s.queue[ids[k]]|
             && FlatOk(m.orders, ids[0..k], s.queue) && a == Flat(m.orders, ids[0..k], s.queue)
             && FlatOk(m.orders, ids[k + 1..|ids|], s.queue) && c == Flat(m.orders, ids[k + 1..|ids|], s.queue)
             && b == OrdersOf(m.orders, s.queue[ids[k]])
    ensures Without(a + b + c, b[j].Key()) == a + (b[..j] + b[j + 1..]) + c
  {
    var ids := Ids(s, side);
    var q := s.queue[ids[k]];
    NotInStretch(m, s, side, k);
    StretchKeys(m, s, ids[0..k], ids[k], q[j], a);
    StretchKeys(m, s, ids[k + 1..|ids|], ids[k], q[j], c);
    LevelKeys(m, s, ids[k], j);
    KeysAround(a, b, c, j);
  }

  lemma {:induction false} KeysAround(a: seq<MEOrder>, b: seq<MEOrder>, c: seq<MEOrder>, j: nat)
    requires j < |b|
    requires forall n :: 0 <= n < |a| ==> a[n].Key() != b[j].Key()
    requires forall n :: 0 <= n < |b| && n != j ==> b[n].Key() != b[j].Key()
    requires forall n :: 0 <= n < |c| ==> c[n].Key() != b[j].Key()
    ensures Without(a + b + c, b[j].Key()) == a + (b[..j] + b[j + 1..]) + c
  {
    var p, r := a + b[..j], b[j + 1..] + c;
    PriceTimeInvariant.WithoutAbsent(p, b[j].Key());
    PriceTimeInvariant.WithoutAbsent(r, b[j].Key());
    WithoutMiddle(p, b[j], r);
    assert a + b + c == p + [b[j]] + r;
    assert a + (b[..j] + b[j + 1..]) + c == p + r;
  }

  // ---------------------------------------------------------------- inserting

  lemma {:induction false} InsertBetween(p: seq<MEOrder>, c: seq<MEOrder>, o: MEOrder)
    requires forall i :: 0 <= i < |p| ==> !Better(o.side, o.price, p[i].price)
    requires c != [] ==> Better(o.side, o.price, c[0].price)
    ensures Insert(p + c, o) == p + [o] + c
    decreases |p|
  {
    if p == [] {
      assert p + c == c;
    } else {
      assert (p + c)[1..] == p[1..] + c;
      InsertBetween(p[1..], c, o);
      assert [p[0]] + (p[1..] + [o] + c) == p + [o] + c;
    }
  }

  /** The price of every order in a stretch of levels is its level's price. */
  lemma {:induction false} FlatPrice(m: Mem, s: Shape, side: Side, lo: nat, hi: nat, n: nat) returns (i: nat)
    requires Struct(m, s) && IsSide(side) && lo <= hi <= |Ids(s, side)|
    requires FlatOk(m.orders, Ids(s, side)[lo..hi], s.queue)
    requires n < |Flat(m.orders, Ids(s, side)[lo..hi], s.queue)|
    ensures lo <= i < hi
    ensures Flat(m.orders, Ids(s, side)[lo..hi], s.queue)[n].price == PriceAt(m, Ids(s, side)[i])
  {
    var ids := Ids(s, side);
    var i', j := FlatMember(m.orders, ids[lo..hi], s.queue, n);
    i := lo + i';
    assert ids[lo..hi][i'] == ids[i] && LevelOk(m, s, ids[i], side);
    InLevelIsLinked(m, s, ids[i], s.queue[ids[i]][j]);
  }

  /** A stretch of levels none of which is worse than `price`. */
  lemma {:induction false} StretchNotWorse(m: Mem, s: Shape, side: Side, k: nat, price: int, a: seq<MEOrder>)
    requires Struct(m, s) && IsSide(side) && k <= |Ids(s, side)|
    requires forall i :: 0 <= i < k ==> Better(side, PriceAt(m, Ids(s, side)[i]), price)
    requires FlatOk(m.orders, Ids(s, side)[0..k], s.queue) && a == Flat(m.orders, Ids(s, side)[0..k], s.queue)
    ensures forall n :: 0 <= n < |a| ==> !Better(side, price, a[n].price)
  {
    forall n | 0 <= n < |a| ensures !Better(side, price, a[n].price) {
      var i := FlatPrice(m, s, side, 0, k, n);
    }
  }

  lemma {:induction false} StretchWorse(m: Mem, s: Shape, side: Side, k: nat, price: int, c: seq<MEOrder>)
    requires Struct(m, s) && IsSide(side) && k <= |Ids(s, side)|
    requires forall i :: k <= i < |Ids(s, side)| ==> Better(side, price, PriceAt(m, Ids(s, side)[i]))
    requires FlatOk(m.orders, Ids(s, side)[k..|Ids(s, side)|], s.queue)
    requires c == Flat(m.orders, Ids(s, side)[k..|Ids(s, side)|], s.queue)
    ensures forall n :: 0 <= n < |c| ==> Better(side, price, c[n].price)
  {
    forall n | 0 <= n < |c| ensures Better(side, price, c[n].price) {
      var i := FlatPrice(m, s, side, k, |Ids(s, side)|, n);
    }
  }

  /** Splicing a level with one order at its sorted position inserts the order by priority. */
  lemma {:induction false} FlatInsertLevel(m: Mem, s: Shape, side: Side, k: nat, o: MEOrder)
    returns (a: seq<MEOrder>, c: seq<MEOrder>)
    requires Struct(m, s) && IsSide(side) && o.side == side && Position(m, s, side, o.price, k)
    ensures var ids := Ids(s, side);
            && FlatOk(m.orders, ids[0..k], s.queue) && a == Flat(m.orders, ids[0..k], s.queue)
            && FlatOk(m.orders, ids[k..|ids|], s.queue) && c == Flat(m.orders, ids[k..|ids|], s.queue)
    ensures Insert(SideQueue(m, s, side), o) == a + [o] + c
  {
    var ids := Ids(s, side);
    StructFlatOk(m, s, side);
    assert ids == ids[0..k] + ids[k..|ids|];
    FlatConcat(m.orders, ids[0..k], ids[k..|ids|], s.queue);
    a, c := Flat(m.orders, ids[0..k], s.queue), Flat(m.orders, ids[k..|ids|], s.queue);
    StretchNotWorse(m, s, side, k, o.price, a);
    StretchWorse(m, s, side, k, o.price, c);
    InsertBetween(a, c, o);
  }

  /** Appending to the level of its price inserts the order by priority. */
  lemma {:induction false} FlatInsertLast(m: Mem, s: Shape, side: Side, k: nat, o: MEOrder, a: seq<MEOrder>,
                                          b: seq<MEOrder>, c: seq<MEOrder>)
    requires Struct(m, s) && IsSide(side) && o.side == side && k < |Ids(s, side)|
    requires PriceAt(m, Ids(s, side)[k]) == o.price
    requires var ids := Ids(s, side);
             && ids[k] in s.queue && Indexes(m.orders, s.queue[ids[k]])
             && FlatOk(m.orders, ids[0..k], s.queue) && a == Flat(m.orders, ids[0..k], s.queue)
             && FlatOk(m.orders, ids[k + 1..|ids|], s.queue) && c == Flat(m.orders, ids[k + 1..|ids|], s.queue)
             && b == OrdersOf(m.orders, s.queue[ids[k]])
    ensures Insert(a + b + c, o) == a + (b + [o]) + c
  {
    var ids := Ids(s, side);
    assert forall i :: 0 <= i < k ==> Better(side, PriceAt(m, ids[i]), PriceAt(m, ids[k]));
    assert forall i :: k < i < |ids| ==> Better(side, PriceAt(m, ids[k]), PriceAt(m, ids[i]));
    StretchNotWorse(m, s, side, k, o.price, a);
    StretchWorse(m, s, side, k + 1, o.price, c);
    LevelPrices(m, s, side, k);
    InsertAround(a, b, c, o);
  }

  lemma {:induction false} LevelPrices(m: Mem, s: Shape, side: Side, k: nat)
    requires Struct(m, s) && IsSide(side) && k < |Ids(s, side)| && Ids(s, side)[k] in s.queue
    requires Indexes(m.orders, s.queue[Ids(s, side)[k]])
    ensures forall n :: 0 <= n < |s.queue[Ids(s, side)[k]]| ==>
              m.orders[s.queue[Ids(s, side)[k]][n]].price == PriceAt(m, Ids(s, side)[k])
  {
    var l := Ids(s, side)[k];
    assert QueueOk(m, l, s.queue[l]);
    forall n | 0 <= n < |s.queue[l]| ensures m.orders[s.queue[l][n]].price == PriceAt(m, l) {
      assert OrderOk(m, l, s.queue[l][n]);
    }
  }

  lemma {:induction false} NotBetterConcat(a: seq<MEOrder>, b: seq<MEOrder>, o: MEOrder, ab: seq<MEOrder>)
    requires forall n :: 0 <= n < |a| ==> !Better(o.side, o.price, a[n].price)
    requires forall n :: 0 <= n < |b| ==> b[n].price == o.price
    requires ab == a + b
    ensures forall n :: 0 <= n < |ab| ==> !Better(o.side, o.price, ab[n].price)
  {
  }

  lemma {:induction false} InsertAround(a: seq<MEOrder>, b: seq<MEOrder>, c: seq<MEOrder>, o: MEOrder)
    requires forall n :: 0 <= n < |a| ==> !Better(o.side, o.price, a[n].price)
    requires forall n :: 0 <= n < |b| ==> b[n].price == o.price
    requires forall n :: 0 <= n < |c| ==> Better(o.side, o.price, c[n].price)
    ensures Insert(a + b + c, o) == a + (b + [o]) + c
  {
    var ab := a + b;
    assert Insert(ab + c, o) == ab + [o] + c by {
      NotBetterConcat(a, b, o, ab);
      InsertBetween(ab, c, o);
    }
    assert ab + [o] == a + (b + [o]);
  }

  // ---------------------------------------------------------------- priorities

  lemma {:induction false} LastPriorityBefore(p: seq<MEOrder>, c: seq<MEOrder>, price: int)
    requires forall i :: 0 <= i < |c| ==> c[i].price != price
    ensures LastPriority(p + c, price) == LastPriority(p, price)
    decreases |c|
  {
    if c == [] {
      assert p + c == p;
    } else {
      assert (p + c)[..|p + c| - 1] == p + c[..|c| - 1];
      LastPriorityBefore(p, c[..|c| - 1], price);
    }
  }

  lemma {:induction false} LastPriorityNone(q: seq<MEOrder>, price: int)
    requires forall i :: 0 <= i < |q| ==> q[i].price != price
    ensures LastPriority(q, price) == 0
  {
    LastPriorityBefore([], q, price);
    assert [] + q == q;
  }

  /** The last order of a price's ring holds the last priority of that price on its side. */
  lemma {:induction false} LevelPriority(m: Mem, s: Shape, side: Side, k: nat)
    requires Struct(m, s) && IsSide(side) && k < |Ids(s, side)|
    ensures var l := Ids(s, side)[k];
            && l in s.queue && s.queue[l] != [] && 0 <= s.queue[l][|s.queue[l]| - 1] < |m.orders|
            && LastPriority(SideQueue(m, s, side), PriceAt(m, l)) == m.orders[s.queue[l][|s.queue[l]| - 1]].priority
  {
    var ids := Ids(s, side);
    var l := ids[k];
    var a, b, c := SideAround(m, s, side, k);
    assert LevelOk(m, s, l, side) && QueueOk(m, l, s.queue[l]);
    var q := s.queue[l];
    assert OrderOk(m, l, q[|q| - 1]);
    assert forall i :: k < i < |ids| ==> Better(side, PriceAt(m, ids[k]), PriceAt(m, ids[i]));
    StretchWorse(m, s, side, k + 1, PriceAt(m, l), c);
    LastPriorityBefore(a + b, c, PriceAt(m, l));
    assert (a + b)[|a + b| - 1] == m.orders[q[|q| - 1]];
  }

  /** A price without a level on the side has no order there. */
  lemma {:induction false} NoLevelNoOrder(m: Mem, s: Shape, side: Side, price: int)
    requires Struct(m, s) && IsSide(side)
    requires forall i :: 0 <= i < |Ids(s, side)| ==> PriceAt(m, Ids(s, side)[i]) != price
    ensures forall n :: 0 <= n < |SideQueue(m, s, side)| ==> SideQueue(m, s, side)[n].price != price
  {
    var ids := Ids(s, side);
    StructFlatOk(m, s, side);
    assert ids[0..|ids|] == ids;
    forall n | 0 <= n < |SideQueue(m, s, side)| ensures SideQueue(m, s, side)[n].price != price {
      var i := FlatPrice(m, s, side, 0, |ids|, n);
    }
  }
}

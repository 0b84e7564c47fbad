/** The priority that the program gives an order it rests: one more than that of the last order in the price's slot of
    the table, whichever price and side that order has. */
module BookPriority {
  import opened Types
  import opened PriceTime
  import opened BookMemory
  import opened BookAbstraction

  /** The priority of the last order of a queue in a slot, 0 when there is none. */
  function LastInSlot(q: seq<MEOrder>, slot: int): nat {
    if q == [] then 0
    else if Slot(q[|q| - 1].price) == slot then q[|q| - 1].priority
    else LastInSlot(q[..|q| - 1], slot)
  }

  function SlotPriority(b: Book, price: int): nat {
    LastInSlot(b.bids + b.asks, Slot(price)) + 1
  }

  ghost predicate NoneIn(q: seq<MEOrder>, slot: int) {
    forall i :: 0 <= i < |q| ==> Slot(q[i].price) != slot
  }

  lemma {:induction false} LastInFirst(p: seq<MEOrder>, q: seq<MEOrder>, slot: int)
    requires NoneIn(q, slot)
    ensures LastInSlot(p + q, slot) == LastInSlot(p, slot)
    decreases |q|
  {
    if q == [] {
      assert p + q == p;
    } else {
      assert (p + q)[..|p + q| - 1] == p + q[..|q| - 1];
      LastInFirst(p, q[..|q| - 1], slot);
    }
  }

  lemma {:induction false} LastInSecond(p: seq<MEOrder>, q: seq<MEOrder>, slot: int)
    requires NoneIn(p, slot)
    ensures LastInSlot(p + q, slot) == LastInSlot(q, slot)
    decreases |q|
  {
    if q == [] {
      assert p + q == p;
      LastInFirst([], p, slot);
      assert [] + p == p;
    } else {
      assert (p + q)[..|p + q| - 1] == p + q[..|q| - 1];
      LastInSecond(p, q[..|q| - 1], slot);
    }
  }

  /** In a slot of one price, the last order of the slot is the last of the price. */
  lemma {:induction false} SlotOfPrice(q: seq<MEOrder>, price: int)
    requires forall i :: 0 <= i < |q| && Slot(q[i].price) == Slot(price) ==> q[i].price == price
    ensures LastInSlot(q, Slot(price)) == LastPriority(q, price)
  {
    if q != [] && q[|q| - 1].price != price {
      SlotOfPrice(q[..|q| - 1], price);
    }
  }

  /** An order in a slot has the price and the side of the slot's level. */
  lemma {:induction false} InSlot(m: Mem, s: Shape, side: Side, n: nat, price: int)
    requires Struct(m, s) && IsSide(side) && n < |SideQueue(m, s, side)|
    requires Slot(SideQueue(m, s, side)[n].price) == Slot(price)
    ensures Slot(price) in m.table
    ensures var l := m.table[Slot(price)];
            0 <= l < |m.levels| && SideQueue(m, s, side)[n].price == PriceAt(m, l) && m.levels[l].side == side
  {
    var o := SideMember(m, s, side, n);
    LinkedOrderOk(m, s, o);
  }

  lemma {:induction false} EmptySlot(m: Mem, s: Shape, price: int, nextId: nat)
    requires Struct(m, s) && Slot(price) !in m.table
    ensures SlotPriority(Abstract(m, s, nextId), price) == 1
  {
    forall side, n | IsSide(side) && 0 <= n < |SideQueue(m, s, side)|
      ensures Slot(SideQueue(m, s, side)[n].price) != Slot(price)
    {
      if Slot(SideQueue(m, s, side)[n].price) == Slot(price) {
        InSlot(m, s, side, n, price);
      }
    }
    LastInFirst(SideQueue(m, s, BUY), SideQueue(m, s, SELL), Slot(price));
    LastInFirst([], SideQueue(m, s, BUY), Slot(price));
    assert [] + SideQueue(m, s, BUY) == SideQueue(m, s, BUY);
  }

  /** The last order of the slot's level, in its side's queue and in both together. */
  lemma {:induction false} LastOfLevel(m: Mem, s: Shape, side: Side, price: int)
    requires Struct(m, s) && IsSide(side) && Slot(price) in m.table
    requires var l := m.table[Slot(price)];
             0 <= l < |m.levels| && m.levels[l].side == side && Slot(PriceAt(m, l)) == Slot(price)
    ensures LastInSlot(SideQueue(m, s, BUY) + SideQueue(m, s, SELL), Slot(price))
              == LastPriority(SideQueue(m, s, side), PriceAt(m, m.table[Slot(price)]))
  {
    var q, p := SideQueue(m, s, side), SideQueue(m, s, Opposite(side));
    forall n | 0 <= n < |p| ensures Slot(p[n].price) != Slot(price) {
      if Slot(p[n].price) == Slot(price) {
        InSlot(m, s, Opposite(side), n, price);
      }
    }
    forall n | 0 <= n < |q| && Slot(q[n].price) == Slot(price) ensures q[n].price == PriceAt(m, m.table[Slot(price)]) {
      InSlot(m, s, side, n, price);
    }
    SlotOfPrice(q, PriceAt(m, m.table[Slot(price)]));
    if side == BUY {
      LastInFirst(q, p, Slot(price));
    } else {
      LastInSecond(p, q, Slot(price));
    }
  }

  /** So the level's last order has the last priority of the slot. */
  lemma {:induction false} LevelSlot(m: Mem, s: Shape, price: int, nextId: nat)
    requires Struct(m, s) && Slot(price) in m.table
    ensures var l := m.table[Slot(price)];
            && l in s.queue && s.queue[l] != [] && 0 <= s.queue[l][|s.queue[l]| - 1] < |m.orders|
            && SlotPriority(Abstract(m, s, nextId), price) == m.orders[s.queue[l][|s.queue[l]| - 1]].priority + 1
  {
    var l := m.table[Slot(price)];
    assert l in s.queue && Slot(PriceAt(m, l)) == Slot(price);
    LevelSide(m, s, l);
    var side := m.levels[l].side;
    var k :| 0 <= k < |Ids(s, side)| && Ids(s, side)[k] == l;
    LevelPriority(m, s, side, k);
    LastOfLevel(m, s, side, price);
  }
}

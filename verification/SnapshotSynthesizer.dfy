/** The snapshot synthesizer: it keeps a mirror of all live orders in a pool of its own and writes it out. Failed
    assertions end the process. */
module SnapshotSynthesizer {
  import opened Types
  import opened MarketData
  import opened MarketDataPublisher
  import opened MemPool

  /** The updates have the numbers that follow `last`. */
  predicate InNumber(ms: seq<MDPMarketUpdate>, last: nat) {
    forall i :: 0 <= i < |ms| ==> ms[i].seqNum == last + 1 + i
  }

  lemma {:induction false} RowNext(us: seq<MarketUpdate>, s: Orders, t: nat, id: nat)
    ensures us + ([Clear(t)] + Row(s, t, id)) + (if (t, id) in s then [s[(t, id)]] else [])
              == us + ([Clear(t)] + Row(s, t, id + 1))
  {
  }

  // ---------------------------------------------------------------- orders in the pool

  /** Where each live order is stored. */
  type Pointers = map<(nat, nat), nat>

  /** Different orders have different blocks, and those are the blocks in use. */
  ghost predicate Owns(p: Pointers, free: seq<bool>) {
    && (forall k :: k in p ==> p[k] < |free| && !free[p[k]])
    && (forall k, l :: k in p && l in p && p[k] == p[l] ==> k == l)
    && (forall x: nat :: x < |free| && !free[x] ==> x in p.Values)
  }

  ghost function Stored(p: Pointers, store: seq<MarketUpdate>): Orders {
    map k | k in p && p[k] < |store| :: store[p[k]]
  }

  lemma {:induction false} ValuesCount(p: Pointers)
    requires forall k, l :: k in p && l in p && p[k] == p[l] ==> k == l
    ensures |p.Values| == |p|
  {
    if p == map[] {
      assert p.Values == {};
    } else {
      var k :| k in p;
      var rest := p - {k};
      ValuesCount(rest);
      assert p.Values == rest.Values + {p[k]};
      assert p.Keys == rest.Keys + {k};
      assert |p| == |p.Keys| && |rest| == |rest.Keys|;
    }
  }

  /** Once another block is taken, one is left exactly while the orders are fewer than the pool's blocks less one. */
  lemma {:induction false} BlockLeft(p: Pointers, free: seq<bool>, x: nat)
    requires Owns(p, free) && x < |free| && free[x]
    ensures Free(free[x := false]) <==> |p| + 1 < |free|
  {
    var free', live := free[x := false], p.Values + {x};
    ValuesCount(p);
    assert x !in p.Values;
    FullSet(live, |free|);
    forall i: nat | i < |free| ensures free'[i] <==> i !in live {
      if i in p.Values {
        var k :| k in p && p[k] == i;
      }
    }
    if Free(free') {
      var i :| 0 <= i < |free'| && free'[i];
      assert i !in live;
    }
  }

  lemma {:induction false} StoredAll(p: Pointers, free: seq<bool>, store: seq<MarketUpdate>)
    requires Owns(p, free) && |store| == |free|
    ensures Stored(p, store).Keys == p.Keys && |Stored(p, store)| == |p|
  {
    assert |Stored(p, store)| == |Stored(p, store).Keys| && |p| == |p.Keys|;
  }

  lemma {:induction false} NewStored(p: Pointers, free: seq<bool>, store: seq<MarketUpdate>, k: (nat, nat), x: nat,
                                     u: MarketUpdate)
    requires Owns(p, free) && |store| == |free| && k !in p && x < |free| && free[x]
    ensures Owns(p[k := x], free[x := false])
    ensures Stored(p[k := x], store[x := u]) == Stored(p, store)[k := u]
  {
    var free', more := free[x := false], p[k := x];
    forall y: nat | y < |free'| && !free'[y] ensures y in more.Values {
      if y == x {
        assert k in more && more[k] == x;
      } else {
        var l :| l in p && p[l] == y;
        assert l in more && more[l] == y;
      }
    }
  }

  lemma {:induction false} ChangedStored(p: Pointers, free: seq<bool>, store: seq<MarketUpdate>, k: (nat, nat),
                                         u: MarketUpdate)
    requires Owns(p, free) && |store| == |free| && k in p
    ensures Stored(p, store[p[k] := u]) == Stored(p, store)[k := u]
  {
  }

  lemma {:induction false} DroppedStored(p: Pointers, free: seq<bool>, store: seq<MarketUpdate>, k: (nat, nat))
    requires Owns(p, free) && |store| == |free| && k in p
    ensures Owns(p - {k}, free[p[k] := true])
    ensures Stored(p - {k}, store) == Stored(p, store) - {k}
  {
    var free', rest := free[p[k] := true], p - {k};
    forall x: nat | x < |free'| && !free'[x] ensures x in rest.Values {
      assert x in p.Values && x != p[k];
      var l :| l in p && p[l] == x;
      assert l in rest && rest[l] == x;
    }
  }

  lemma {:induction false} RowsNext(us: seq<MarketUpdate>, z: Size, s: Orders, t: nat)
    ensures us + Rows(z, s, t) + ([Clear(t)] + Row(s, t, z.ids)) == us + Rows(z, s, t + 1)
  {
  }

  // ---------------------------------------------------------------- folding on

  /** The rest leads from `now` to where all of it leads from `s`. */
  ghost predicate Leads(z: Size, pool: nat, s: Orders, all: seq<MarketUpdate>, now: Orders, rest: seq<MarketUpdate>) {
    FoldAll(z, s, all) == FoldAll(z, now, rest) && (Lasts(z, pool, s, all) <==> Lasts(z, pool, now, rest))
  }

  lemma {:induction false} LeadsNext(z: Size, pool: nat, s: Orders, all: seq<MarketUpdate>, now: Orders,
                                     pending: seq<MDPMarketUpdate>, i: nat)
    requires i < |pending| && Leads(z, pool, s, all, now, Updates(pending[i..]))
    ensures if Outlives(z, pool, now, pending[i].update)
            then Leads(z, pool, s, all, Fold(z, now, pending[i].update).value, Updates(pending[i + 1..]))
            else !Lasts(z, pool, s, all)
  {
    assert Updates(pending[i..])[0] == pending[i].update;
    assert Updates(pending[i..])[1..] == Updates(pending[i + 1..]);
  }

  lemma {:induction false} InNumberNext(pending: seq<MDPMarketUpdate>, last: nat, i: nat)
    requires i < |pending| && InNumber(pending[..i], last)
    ensures if pending[i].seqNum == last + i + 1 then InNumber(pending[..i + 1], last) else !InNumber(pending, last)
  {
    assert forall j :: 0 <= j < i ==> pending[..i][j] == pending[j];
  }

  class SnapshotSynthesizer {
    // for each ticker and market order id, the order's block; none for the null pointer
    const tickerOrders: array2<Option<nat>>
    const orderPool: MemPool
    // the blocks of the pool
    var store: seq<MarketUpdate>
    var lastIncSeqNum: nat
    // everything sent on the snapshot channel
    var sent: seq<MDPMarketUpdate>

    ghost function Dimensions(): Size {
      Size(tickerOrders.Length0, tickerOrders.Length1)
    }

    ghost function Repr(): set<object> { {this, tickerOrders, orderPool, orderPool.isFree} }

    ghost function Pointing(): Pointers
      reads tickerOrders
    {
      map t: nat, id: nat | t < tickerOrders.Length0 && id < tickerOrders.Length1 && tickerOrders[t, id].Some? ::
        (t, id) := tickerOrders[t, id].value
    }

    ghost predicate Valid()
      reads this`store, tickerOrders, orderPool, orderPool.isFree
    {
      forall u {:trigger Sealed(u)} :: Sealed(u) ==>
        orderPool.Valid() && |store| == orderPool.size && Owns(Pointing(), orderPool.isFree[..])
    }

    /** The mirror as a map. */
    ghost function Mirror(): Orders
      reads this`store, tickerOrders
    {
      Stored(Pointing(), store)
    }

    constructor (z: Size, blocks: nat)
      requires blocks > 0
      ensures Valid() && Mirror() == map[] && Dimensions() == z && orderPool.size == blocks
      ensures lastIncSeqNum == 0 && sent == [] && fresh(Repr() - {this})
    {
      tickerOrders := new Option<nat>[z.tickers, z.ids]((i, j) => None);
      orderPool := new MemPool(blocks);
      store := seq(blocks, _ => Bare(INVALID_UPDATE, ORDER_ID_INVALID, TICKER_ID_INVALID));
      lastIncSeqNum := 0;
      sent := [];
      new;
      assert Pointing() == map[];
    }

    method Get(t: nat, id: nat) returns (slot: Option<nat>)
      requires Valid() && t < tickerOrders.Length0 && id < tickerOrders.Length1
      ensures slot.Some? <==> (t, id) in Mirror()
      ensures slot.Some? ==> (t, id) in Pointing() && slot.value == Pointing()[(t, id)] < |store|
                             && store[slot.value] == Mirror()[(t, id)]
    {
      slot := tickerOrders[t, id];
      assert Sealed(0);
      StoredAll(Pointing(), orderPool.isFree[..], store);
      assert (t, id) in Pointing() <==> slot.Some?;
    }

    method Put(t: nat, id: nat, slot: Option<nat>)
      requires t < tickerOrders.Length0 && id < tickerOrders.Length1
      modifies tickerOrders
      ensures Pointing() == if slot.Some? then old(Pointing())[(t, id) := slot.value] else old(Pointing()) - {(t, id)}
    {
      ghost var before := Pointing();
      tickerOrders[t, id] := slot;
      ghost var want := if slot.Some? then before[(t, id) := slot.value] else before - {(t, id)};
      forall k: (nat, nat)
        ensures k in Pointing() <==> k in want
        ensures k in Pointing() ==> Pointing()[k] == want[k]
      {
        assert k == (k.0, k.1);
      }
    }

    /** Stores a new order in the next block; the process ends when that was the last. */
    method AddOrder(update: MarketUpdate) returns (ok: bool)
      requires Valid() && KeyOf(update) !in Mirror()
      requires update.tickerId < tickerOrders.Length0 && update.orderId < tickerOrders.Length1
      modifies this`store, tickerOrders, orderPool`nextFree, orderPool.isFree
      ensures ok <==> |old(Mirror())| + 1 < orderPool.size
      ensures ok ==> Valid() && Mirror() == old(Mirror())[KeyOf(update) := update]
    {
      ghost var p, free := Pointing(), orderPool.isFree[..];
      assert Sealed(0);
      StoredAll(p, free, store);
      var block;
      ok, block := orderPool.Allocate();
      BlockLeft(p, free, block);
      if ok {
        NewStored(p, free, store, KeyOf(update), block, update);
        store := store[block := update];
        Put(update.tickerId, update.orderId, Some(block));
      }
    }

    method ModifyOrder(block: nat, update: MarketUpdate)
      requires Valid() && KeyOf(update) in Pointing() && block == Pointing()[KeyOf(update)]
      modifies this`store
      ensures Valid()
      ensures KeyOf(update) in old(Mirror())
      ensures Mirror() == old(Mirror())[KeyOf(update) :=
                            old(Mirror())[KeyOf(update)].(qty := update.qty, price := update.price)]
    {
      assert Sealed(0);
      var changed := store[block].(qty := update.qty, price := update.price);
      StoredAll(Pointing(), orderPool.isFree[..], store);
      ChangedStored(Pointing(), orderPool.isFree[..], store, KeyOf(update), changed);
      store := store[block := changed];
    }

    /** Gives an order's block back; the pool's assertions hold. */
    method CancelOrder(block: nat, update: MarketUpdate)
      requires Valid() && KeyOf(update) in Pointing() && block == Pointing()[KeyOf(update)]
      requires update.tickerId < tickerOrders.Length0 && update.orderId < tickerOrders.Length1
      modifies tickerOrders, orderPool.isFree
      ensures Valid() && Mirror() == old(Mirror()) - {KeyOf(update)}
    {
      assert Sealed(0);
      DroppedStored(Pointing(), orderPool.isFree[..], store, KeyOf(update));
      var ok := orderPool.Deallocate(block);
      Put(update.tickerId, update.orderId, None);
    }

    /** Folds one numbered update into the mirror: exactly `Fold`, provided the numbers have no gap and the pool
        lasts. */
    method AddToSnapshot(u: MDPMarketUpdate) returns (ok: bool)
      requires Valid()
      modifies this`lastIncSeqNum, this`store, tickerOrders, orderPool`nextFree, orderPool.isFree
      ensures ok <==> Outlives(Dimensions(), orderPool.size, old(Mirror()), u.update)
                      && u.seqNum == old(lastIncSeqNum) + 1
      ensures ok ==> Valid() && Some(Mirror()) == Fold(Dimensions(), old(Mirror()), u.update)
                     && lastIncSeqNum == u.seqNum
    {
      ok := FoldUpdate(u.update);
      if !ok || u.seqNum != lastIncSeqNum + 1 {
        return false;
      }
      lastIncSeqNum := u.seqNum;
    }

    /** The switch over the update's type. */
    method FoldUpdate(update: MarketUpdate) returns (ok: bool)
      requires Valid()
      modifies this`store, tickerOrders, orderPool`nextFree, orderPool.isFree
      ensures ok <==> Outlives(Dimensions(), orderPool.size, old(Mirror()), update)
      ensures ok ==> Valid() && Some(Mirror()) == Fold(Dimensions(), old(Mirror()), update)
    {
      var t, id := update.tickerId, update.orderId;
      if t >= tickerOrders.Length0 {
        return false;
      }
      if update.kind == UpdateType.ADD || update.kind == MODIFY || update.kind == UpdateType.CANCEL {
        if id >= tickerOrders.Length1 {
          return false;
        }
        var slot := Get(t, id);
        match update.kind {
          case ADD =>
            if slot.Some? {
              return false;
            }
            ok := AddOrder(update);
            return;
          case MODIFY =>
            if slot.None? || store[slot.value].orderId != id || store[slot.value].side != update.side {
              return false;
            }
            ModifyOrder(slot.value, update);
          case CANCEL =>
            if slot.None? || store[slot.value].orderId != id || store[slot.value].side != update.side {
              return false;
            }
            CancelOrder(slot.value, update);
        }
      }
      ok := true;
    }

    /** Writes out one snapshot round, numbered from 0. */
    method PublishSnapshot()
      requires Valid()
      modifies this`sent
      ensures sent == old(sent) + Numbered(Round(Dimensions(), Mirror(), lastIncSeqNum), 0)
    {
      ghost var before, us := sent, [];
      var size := 0;
      assert sent == before + Numbered(us, 0);
      us, size := Emit(before, us, size, Start(lastIncSeqNum));
      us, size := PublishBody(before, us, size);
      us, size := Emit(before, us, size, End(lastIncSeqNum));
      assert us == Round(Dimensions(), Mirror(), lastIncSeqNum);
    }

    /** Every ticker's part of a round. */
    method PublishBody(ghost before: seq<MDPMarketUpdate>, ghost us: seq<MarketUpdate>, size: nat)
      returns (ghost us': seq<MarketUpdate>, size': nat)
      requires Valid() && size == |us| && sent == before + Numbered(us, 0)
      modifies this`sent
      ensures size' == |us'| && sent == before + Numbered(us', 0)
      ensures us' == us + Body(Dimensions(), Mirror())
    {
      ghost var z, s := Dimensions(), Mirror();
      us', size' := us, size;
      assert us + Rows(z, s, 0) == us;
      var t := 0;
      while t < tickerOrders.Length0
        invariant t <= tickerOrders.Length0 && size' == |us'|
        invariant us' == us + Rows(z, s, t)
        invariant sent == before + Numbered(us', 0)
      {
        us', size' := PublishTicker(before, us', size', t);
        RowsNext(us, z, s, t);
        t := t + 1;
      }
    }

    /** One ticker's part of a round. */
    method PublishTicker(ghost before: seq<MDPMarketUpdate>, ghost us: seq<MarketUpdate>, size: nat, t: nat)
      returns (ghost us': seq<MarketUpdate>, size': nat)
      requires Valid() && size == |us| && sent == before + Numbered(us, 0) && t < tickerOrders.Length0
      modifies this`sent
      ensures size' == |us'| && sent == before + Numbered(us', 0)
      ensures us' == us + ([Clear(t)] + Row(Mirror(), t, tickerOrders.Length1))
    {
      ghost var s := Mirror();
      us', size' := Emit(before, us, size, Clear(t));
      assert [Clear(t)] + Row(s, t, 0) == [Clear(t)];
      var id := 0;
      while id < tickerOrders.Length1
        invariant id <= tickerOrders.Length1 && size' == |us'|
        invariant us' == us + ([Clear(t)] + Row(s, t, id))
        invariant sent == before + Numbered(us', 0)
      {
        us', size' := PublishPlace(before, us', size', t, id);
        RowNext(us, s, t, id);
        id := id + 1;
      }
    }

    method PublishPlace(ghost before: seq<MDPMarketUpdate>, ghost us: seq<MarketUpdate>, size: nat, t: nat, id: nat)
      returns (ghost us': seq<MarketUpdate>, size': nat)
      requires Valid() && size == |us| && sent == before + Numbered(us, 0)
      requires t < tickerOrders.Length0 && id < tickerOrders.Length1
      modifies this`sent
      ensures size' == |us'| && sent == before + Numbered(us', 0)
      ensures us' == us + if (t, id) in Mirror() then [Mirror()[(t, id)]] else []
    {
      us', size' := us, size;
      var slot := Get(t, id);
      if slot.Some? {
        us', size' := Emit(before, us, size, store[slot.value]);
      }
    }

    /** Sends the next message of a round. */
    method Emit(ghost before: seq<MDPMarketUpdate>, ghost us: seq<MarketUpdate>, size: nat, u: MarketUpdate)
      returns (ghost us': seq<MarketUpdate>, size': nat)
      requires size == |us| && sent == before + Numbered(us, 0)
      modifies this`sent
      ensures us' == us + [u] && size' == size + 1 && sent == before + Numbered(us', 0)
    {
      sent := sent + [MDPMarketUpdate(size, u)];
      us', size' := us + [u], size + 1;
      assert Numbered(us', 0) == Numbered(us, 0) + [MDPMarketUpdate(size, u)];
    }

    /** One turn of the synthesizer's loop: fold what is pending, then publish if a minute has passed. It survives
        exactly when the numbers have no gap and the mirror outlives the updates. */
    method Turn(pending: seq<MDPMarketUpdate>, due: bool) returns (ok: bool)
      requires Valid()
      modifies this`lastIncSeqNum, this`store, this`sent, tickerOrders, orderPool`nextFree, orderPool.isFree
      ensures ok <==> InNumber(pending, old(lastIncSeqNum))
                      && Lasts(Dimensions(), orderPool.size, old(Mirror()), Updates(pending))
      ensures ok ==>
                && Valid() && Some(Mirror()) == FoldAll(Dimensions(), old(Mirror()), Updates(pending))
                && lastIncSeqNum == old(lastIncSeqNum) + |pending|
                && sent == old(sent) + if due then Numbered(Round(Dimensions(), Mirror(), lastIncSeqNum), 0) else []
    {
      ok := FoldPending(pending);
      if ok && due {
        PublishSnapshot();
      }
    }

    method FoldPending(pending: seq<MDPMarketUpdate>) returns (ok: bool)
      requires Valid()
      modifies this`lastIncSeqNum, this`store, tickerOrders, orderPool`nextFree, orderPool.isFree
      ensures ok <==> InNumber(pending, old(lastIncSeqNum))
                      && Lasts(Dimensions(), orderPool.size, old(Mirror()), Updates(pending))
      ensures ok ==> && Valid() && Some(Mirror()) == FoldAll(Dimensions(), old(Mirror()), Updates(pending))
                     && lastIncSeqNum == old(lastIncSeqNum) + |pending|
    {
      ghost var s, last := Mirror(), lastIncSeqNum;
      var i := 0;
      while i < |pending|
        invariant i <= |pending| && Folding(s, last, pending, i)
      {
        ok := FoldNext(s, last, pending, i);
        if !ok {
          return;
        }
        i := i + 1;
      }
      assert Updates(pending[i..]) == [];
      assert pending[..i] == pending;
      ok := true;
    }

    /** The first `i` updates are folded. */
    ghost predicate Folding(s: Orders, last: nat, pending: seq<MDPMarketUpdate>, i: nat)
      requires i <= |pending|
      reads this`lastIncSeqNum, this`store, tickerOrders, orderPool, orderPool.isFree
    {
      && Valid() && InNumber(pending[..i], last) && lastIncSeqNum == last + i
      && Leads(Dimensions(), orderPool.size, s, Updates(pending), Mirror(), Updates(pending[i..]))
    }

    method FoldNext(ghost s: Orders, ghost last: nat, pending: seq<MDPMarketUpdate>, i: nat) returns (ok: bool)
      requires i < |pending| && Folding(s, last, pending, i)
      modifies this`lastIncSeqNum, this`store, tickerOrders, orderPool`nextFree, orderPool.isFree
      ensures if ok then Folding(s, last, pending, i + 1)
              else !InNumber(pending, last) || !Lasts(Dimensions(), orderPool.size, s, Updates(pending))
    {
      LeadsNext(Dimensions(), orderPool.size, s, Updates(pending), Mirror(), pending, i);
      InNumberNext(pending, last, i);
      ok := AddToSnapshot(pending[i]);
    }
  }
}

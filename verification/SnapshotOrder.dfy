/** A snapshot lists a ticker's orders by ascending id, not by queue. Because ids and priorities grow
    together, inserting them by price in that order still rebuilds every queue exactly. */
module SnapshotOrder {
  import opened Types
  import opened PriceTime
  import opened PriceTimeInvariant
  import opened MarketData
  import opened MirrorAgreement

  /** A subscriber's queue: behind every order of an equal or better price. */
  function Enqueue(q: seq<MarketUpdate>, u: MarketUpdate): seq<MarketUpdate> {
    if q == [] || Better(u.side, u.price, q[0].price) then [u] + q else [q[0]] + Enqueue(q[1..], u)
  }

  /** One side rebuilt from a snapshot row. */
  function Rebuild(q: seq<MarketUpdate>, row: seq<MarketUpdate>, side: Side): seq<MarketUpdate>
    decreases |row|
  {
    if row == [] then q
    else Rebuild(if row[0].side == side then Enqueue(q, row[0]) else q, row[1..], side)
  }

  function AsUpdates(q: seq<MEOrder>): (us: seq<MarketUpdate>)
    ensures |us| == |q| && forall i :: 0 <= i < |q| ==> us[i] == AddUpdate(q[i])
  {
    seq(|q|, i requires 0 <= i < |q| => AddUpdate(q[i]))
  }

  predicate Before(side: Side, a: MarketUpdate, b: MarketUpdate) {
    Better(side, a.price, b.price) || (a.price == b.price && a.orderId < b.orderId)
  }

  ghost predicate InOrder(side: Side, q: seq<MarketUpdate>) {
    forall i, j :: 0 <= i < j < |q| ==> Before(side, q[i], q[j])
  }

  ghost predicate Ascending(row: seq<MarketUpdate>) {
    forall i, j :: 0 <= i < j < |row| ==> row[i].orderId < row[j].orderId
  }

  // ---------------------------------------------------------------- one order of a queue is the only one

  /** A strict order leaves no choice: the same orders in order are the same queue. */
  lemma {:induction false} OnlyOneOrder(side: Side, p: seq<MarketUpdate>, q: seq<MarketUpdate>)
    requires IsSide(side) && InOrder(side, p) && InOrder(side, q)
    requires forall u :: u in p <==> u in q
    ensures p == q
    decreases |p|
  {
    assert p != [] ==> p[0] in p;
    assert q != [] ==> q[0] in q;
    if p != [] {
      SameFirst(side, p, q);
      forall u ensures u in p[1..] <==> u in q[1..] {
        TailMember(side, p, u);
        TailMember(side, q, u);
      }
      assert forall i :: 0 <= i < |p[1..]| ==> p[1..][i] == p[i + 1];
      assert forall i :: 0 <= i < |q[1..]| ==> q[1..][i] == q[i + 1];
      OnlyOneOrder(side, p[1..], q[1..]);
      assert p == [p[0]] + p[1..] && q == [q[0]] + q[1..];
    }
  }

  lemma {:induction false} SameFirst(side: Side, p: seq<MarketUpdate>, q: seq<MarketUpdate>)
    requires IsSide(side) && InOrder(side, p) && InOrder(side, q) && p != [] && q != []
    requires forall u :: u in p <==> u in q
    ensures p[0] == q[0]
  {
    assert p[0] in q && q[0] in p;
    var i :| 0 <= i < |q| && q[i] == p[0];
    var j :| 0 <= j < |p| && p[j] == q[0];
    assert i > 0 ==> Before(side, q[0], q[i]);
    assert j > 0 ==> Before(side, p[0], p[j]);
  }

  lemma {:induction false} TailMember(side: Side, p: seq<MarketUpdate>, u: MarketUpdate)
    requires IsSide(side) && InOrder(side, p) && p != []
    ensures u in p[1..] <==> u in p && u != p[0]
  {
  }

  // ---------------------------------------------------------------- rebuilding keeps the order

  lemma {:induction false} EnqueueInOrder(side: Side, q: seq<MarketUpdate>, u: MarketUpdate)
    requires IsSide(side) && u.side == side && InOrder(side, q)
    requires forall v :: v in q ==> v.orderId < u.orderId
    ensures InOrder(side, Enqueue(q, u))
    ensures forall v :: v in Enqueue(q, u) <==> v in q || v == u
  {
    if q == [] {
    } else if Better(side, u.price, q[0].price) {
      var t := [u] + q;
      forall i, j | 0 <= i < j < |t| ensures Before(side, t[i], t[j]) {
        assert t[j] == q[j - 1];
        if i > 0 { assert t[i] == q[i - 1]; } else { assert j > 1 ==> Before(side, q[0], q[j - 1]); }
      }
    } else {
      var p := q[1..];
      assert forall i :: 0 <= i < |p| ==> p[i] == q[i + 1];
      assert forall v :: v in q <==> v == q[0] || v in p;
      EnqueueInOrder(side, p, u);
      var r := Enqueue(p, u);
      var t := [q[0]] + r;
      forall j | 0 < j < |t| ensures Before(side, t[0], t[j]) {
        assert t[j] == r[j - 1] && r[j - 1] in r;
        if r[j - 1] in p {
          var i :| 0 <= i < |p| && p[i] == r[j - 1];
          assert Before(side, q[0], q[i + 1]);
        }
        assert q[0] in q;
      }
      forall i, j | 0 <= i < j < |t| ensures Before(side, t[i], t[j]) {
        if i > 0 { assert t[i] == r[i - 1] && t[j] == r[j - 1]; }
      }
    }
  }

  lemma {:induction false} RebuildInOrder(side: Side, q: seq<MarketUpdate>, row: seq<MarketUpdate>)
    requires IsSide(side) && InOrder(side, q) && Ascending(row)
    requires forall v, i :: v in q && 0 <= i < |row| ==> v.orderId < row[i].orderId
    ensures InOrder(side, Rebuild(q, row, side))
    ensures forall v :: v in Rebuild(q, row, side) <==> v in q || (v in row && v.side == side)
    decreases |row|
  {
    if row != [] {
      var rest := row[1..];
      assert forall i :: 0 <= i < |rest| ==> rest[i] == row[i + 1];
      assert forall v :: v in row <==> v == row[0] || v in rest;
      if row[0].side == side {
        EnqueueInOrder(side, q, row[0]);
        forall v, i | v in Enqueue(q, row[0]) && 0 <= i < |rest| ensures v.orderId < rest[i].orderId {
          assert rest[i] == row[i + 1];
        }
        RebuildInOrder(side, Enqueue(q, row[0]), rest);
      } else {
        RebuildInOrder(side, q, rest);
      }
    }
  }

  // ---------------------------------------------------------------- the row and the book

  lemma {:induction false} RowContents(z: Size, s: Orders, t: nat, n: nat)
    requires Held(z, s)
    ensures Ascending(Row(s, t, n))
    ensures forall u :: u in Row(s, t, n) <==> (u.tickerId == t && u.orderId < n && KeyOf(u) in s && s[KeyOf(u)] == u)
  {
    if n > 0 {
      RowContents(z, s, t, n - 1);
      var row := Row(s, t, n - 1);
      if (t, n - 1) in s {
        var u := s[(t, n - 1)];
        assert KeyOf(u) == (t, n - 1);
        assert forall i :: 0 <= i < |row| ==> row[i] in row;
        forall v ensures v in row + [u] <==> v in row || v == u {
        }
      }
    }
  }

  /** The FIFO theorem: inserting a snapshot row by price, in the order it is sent, rebuilds each side of
      the book in exact price-time order. */
  lemma {:induction false} QueuesRebuilt(z: Size, s: Orders, t: nat, b: PriceTime.Book, side: Side)
    requires Held(z, s) && WF(b, t) && ShowsBook(s, t, b) && b.nextId <= z.ids && IsSide(side)
    ensures Rebuild([], Row(s, t, z.ids), side) == AsUpdates(Queue(b, side))
  {
    var row := Row(s, t, z.ids);
    var q := Queue(b, side);
    var us := AsUpdates(q);
    RowContents(z, s, t, z.ids);
    RebuildInOrder(side, [], row);
    WFBySide(b, side, t);
    QueueInOrder(q, side, t, b.nextId);
    forall u ensures (u in row && u.side == side) <==> u in us {
      if u in us {
        var i :| 0 <= i < |us| && us[i] == u;
        SentInRow(z, s, t, b, side, i);
      }
      if u in row && u.side == side {
        InRowIsResting(z, s, t, b, side, u);
      }
    }
    OnlyOneOrder(side, Rebuild([], row, side), us);
  }

  lemma {:induction false} QueueInOrder(q: seq<MEOrder>, side: Side, t: nat, nextId: nat)
    requires QueueWF(q, side, t, nextId)
    ensures InOrder(side, AsUpdates(q))
  {
  }

  lemma {:induction false} SentInRow(z: Size, s: Orders, t: nat, b: PriceTime.Book, side: Side, i: nat)
    requires Held(z, s) && WF(b, t) && ShowsBook(s, t, b) && b.nextId <= z.ids && IsSide(side) && i < |Queue(b, side)|
    ensures var u := AddUpdate(Queue(b, side)[i]);
            u.side == side && u.tickerId == t && u.orderId < z.ids && KeyOf(u) in s && s[KeyOf(u)] == u
  {
    var o := Queue(b, side)[i];
    WFBySide(b, side, t);
    assert Resting(o, side, t, b.nextId);
    assert o in b.bids + b.asks;
    CancelFinds(b, o, t);
    assert (t, o.marketOrderId) in s;
  }

  lemma {:induction false} InRowIsResting(z: Size, s: Orders, t: nat, b: PriceTime.Book, side: Side, u: MarketUpdate)
    requires Held(z, s) && WF(b, t) && ShowsBook(s, t, b) && IsSide(side)
    requires u.tickerId == t && u.side == side && KeyOf(u) in s && s[KeyOf(u)] == u
    ensures u in AsUpdates(Queue(b, side))
  {
  }
}

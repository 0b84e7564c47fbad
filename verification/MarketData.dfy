/** What a stream of market updates means: the map of live orders it leaves, as a subscriber replays it and
    as the exchange's snapshot mirror folds it, and how a snapshot is written out. */
module MarketData {
  import opened Types

  /** Live orders by (ticker, market order id), each as the ADD update that would create it. */
  type Orders = map<(nat, nat), MarketUpdate>

  function KeyOf(u: MarketUpdate): (nat, nat) {
    (u.tickerId, u.orderId)
  }

  // ---------------------------------------------------------------- a subscriber's book

  function Apply(s: Orders, u: MarketUpdate): Orders {
    match u.kind
    case CLEAR => map k: (nat, nat) | k in s && k.0 != u.tickerId :: s[k]
    case ADD => s[KeyOf(u) := u]
    case MODIFY => if KeyOf(u) in s then s[KeyOf(u) := s[KeyOf(u)].(qty := u.qty, price := u.price)] else s
    case CANCEL => s - {KeyOf(u)}
    case _ => s
  }

  function Replay(s: Orders, us: seq<MarketUpdate>): Orders
    decreases |us|
  {
    if us == [] then s else Replay(Apply(s, us[0]), us[1..])
  }

  lemma {:induction false} ReplayConcat(s: Orders, us: seq<MarketUpdate>, vs: seq<MarketUpdate>)
    ensures Replay(s, us + vs) == Replay(Replay(s, us), vs)
    decreases |us|
  {
    if us == [] {
      assert us + vs == vs;
    } else {
      assert (us + vs)[1..] == us[1..] + vs;
      ReplayConcat(Apply(s, us[0]), us[1..], vs);
    }
  }

  // ---------------------------------------------------------------- the exchange's mirror

  /** A mirror of `tickers` rows of `ids` places. */
  datatype Size = Size(tickers: nat, ids: nat)

  predicate Fits(z: Size, u: MarketUpdate) {
    u.tickerId < z.tickers && (u.kind.ADD? || u.kind.MODIFY? || u.kind.CANCEL? ==> u.orderId < z.ids)
  }

  /** One update folded into the mirror; `None` when one of its own assertions or a bounds check ends the process. */
  function Fold(z: Size, s: Orders, u: MarketUpdate): Option<Orders> {
    if !Fits(z, u) then None
    else match u.kind
      case ADD => if KeyOf(u) in s then None else Some(s[KeyOf(u) := u])
      case MODIFY =>
        if KeyOf(u) in s && s[KeyOf(u)].orderId == u.orderId && s[KeyOf(u)].side == u.side
        then Some(s[KeyOf(u) := s[KeyOf(u)].(qty := u.qty, price := u.price)]) else None
      case CANCEL =>
        if KeyOf(u) in s && s[KeyOf(u)].orderId == u.orderId && s[KeyOf(u)].side == u.side
        then Some(s - {KeyOf(u)}) else None
      case _ => Some(s)
  }

  function FoldAll(z: Size, s: Orders, us: seq<MarketUpdate>): Option<Orders>
    decreases |us|
  {
    if us == [] then Some(s)
    else if Fold(z, s, us[0]).None? then None
    else FoldAll(z, Fold(z, s, us[0]).value, us[1..])
  }

  lemma {:induction false} FoldConcat(z: Size, s: Orders, us: seq<MarketUpdate>, vs: seq<MarketUpdate>)
    ensures FoldAll(z, s, us + vs) == if FoldAll(z, s, us).None? then None else FoldAll(z, FoldAll(z, s, us).value, vs)
    decreases |us|
  {
    if us == [] {
      assert us + vs == vs;
    } else if Fold(z, s, us[0]).Some? {
      assert (us + vs)[1..] == us[1..] + vs;
      FoldConcat(z, Fold(z, s, us[0]).value, us[1..], vs);
    } else {
      assert (us + vs)[0] == us[0];
    }
  }

  /** The synthesizer outlives an update: it folds, and a new order does not take the last block of the mirror's
      pool, which all tickers share. */
  predicate Outlives(z: Size, pool: nat, s: Orders, u: MarketUpdate) {
    Fold(z, s, u).Some? && (u.kind.ADD? ==> |s| + 1 < pool)
  }

  predicate Lasts(z: Size, pool: nat, s: Orders, us: seq<MarketUpdate>)
    decreases |us|
  {
    us != [] ==> Outlives(z, pool, s, us[0]) && Lasts(z, pool, Fold(z, s, us[0]).value, us[1..])
  }

  lemma {:induction false} LastsConcat(z: Size, pool: nat, s: Orders, us: seq<MarketUpdate>, vs: seq<MarketUpdate>)
    requires FoldAll(z, s, us).Some?
    ensures Lasts(z, pool, s, us + vs) <==> Lasts(z, pool, s, us) && Lasts(z, pool, FoldAll(z, s, us).value, vs)
    decreases |us|
  {
    if us == [] {
      assert us + vs == vs;
    } else {
      assert (us + vs)[1..] == us[1..] + vs;
      LastsConcat(z, pool, Fold(z, s, us[0]).value, us[1..], vs);
    }
  }

  predicate NoAdds(us: seq<MarketUpdate>) {
    forall i :: 0 <= i < |us| ==> !us[i].kind.ADD?
  }

  /** Without a new order the mirror does not grow, and its pool is not asked. */
  lemma {:induction false} NoAddsLast(z: Size, pool: nat, s: Orders, us: seq<MarketUpdate>)
    requires FoldAll(z, s, us).Some? && NoAdds(us)
    ensures Lasts(z, pool, s, us) && |FoldAll(z, s, us).value| <= |s|
    decreases |us|
  {
    if us != [] {
      var s1 := Fold(z, s, us[0]).value;
      FoldSize(z, s, us[0]);
      assert forall i :: 0 <= i < |us[1..]| ==> us[1..][i] == us[i + 1];
      NoAddsLast(z, pool, s1, us[1..]);
    }
  }

  lemma {:induction false} FoldSize(z: Size, s: Orders, u: MarketUpdate)
    requires Fold(z, s, u).Some?
    ensures if u.kind.ADD? then |Fold(z, s, u).value| == |s| + 1 else |Fold(z, s, u).value| <= |s|
  {
    var s1 := Fold(z, s, u).value;
    if u.kind.ADD? {
      assert s1.Keys == s.Keys + {KeyOf(u)};
    } else if u.kind.CANCEL? {
      assert s1.Keys == s.Keys - {KeyOf(u)};
    } else {
      assert s1.Keys == s.Keys;
    }
    assert |s1| == |s1.Keys| && |s| == |s.Keys|;
  }

  /** An update that the exchange's books send: they never clear. */
  predicate FromBook(u: MarketUpdate) {
    u.kind.ADD? || u.kind.MODIFY? || u.kind.CANCEL? || u.kind.TRADE?
  }

  /** A subscriber that hears the books' whole stream agrees with the mirror. */
  lemma {:induction false} ReplayIsFold(z: Size, s: Orders, us: seq<MarketUpdate>)
    requires FoldAll(z, s, us).Some? && forall i :: 0 <= i < |us| ==> FromBook(us[i])
    ensures Replay(s, us) == FoldAll(z, s, us).value
    decreases |us|
  {
    if us != [] {
      assert FromBook(us[0]);
      assert forall i :: 0 <= i < |us[1..]| ==> us[1..][i] == us[i + 1];
      ReplayIsFold(z, Fold(z, s, us[0]).value, us[1..]);
    }
  }

  /** Orders that a mirror of this size can hold, each stored under its own key. */
  ghost predicate Held(z: Size, s: Orders) {
    forall k: (nat, nat) {:trigger s[k]} :: k in s ==>
      k.0 < z.tickers && k.1 < z.ids && s[k].kind.ADD? && KeyOf(s[k]) == k
  }

  lemma {:induction false} FoldHeld(z: Size, s: Orders, us: seq<MarketUpdate>)
    requires Held(z, s) && FoldAll(z, s, us).Some?
    ensures Held(z, FoldAll(z, s, us).value)
    decreases |us|
  {
    if us != [] {
      FoldHeld(z, Fold(z, s, us[0]).value, us[1..]);
    }
  }

  // ---------------------------------------------------------------- writing a snapshot

  function Bare(kind: UpdateType, orderId: nat, tickerId: nat): MarketUpdate {
    MarketUpdate(kind, orderId, tickerId, INVALID_SIDE, PRICE_INVALID, QTY_INVALID, PRIORITY_INVALID)
  }

  const TICKER_ID_INVALID: nat := 0xFFFF_FFFF

  function Start(last: nat): MarketUpdate { Bare(SNAPSHOT_START, last, TICKER_ID_INVALID) }
  function End(last: nat): MarketUpdate { Bare(SNAPSHOT_END, last, TICKER_ID_INVALID) }
  function Clear(t: nat): MarketUpdate { Bare(CLEAR, ORDER_ID_INVALID, t) }

  /** The orders of ticker `t` with ids below `n`, ascending. */
  function Row(s: Orders, t: nat, n: nat): seq<MarketUpdate> {
    if n == 0 then [] else Row(s, t, n - 1) + if (t, n - 1) in s then [s[(t, n - 1)]] else []
  }

  /** A clear and then the orders, for every ticker below `t`. */
  function Rows(z: Size, s: Orders, t: nat): seq<MarketUpdate> {
    if t == 0 then [] else Rows(z, s, t - 1) + ([Clear(t - 1)] + Row(s, t - 1, z.ids))
  }

  function Body(z: Size, s: Orders): seq<MarketUpdate> {
    Rows(z, s, z.tickers)
  }

  /** One snapshot round of a mirror as of update `last`. */
  function Round(z: Size, s: Orders, last: nat): seq<MarketUpdate> {
    [Start(last)] + Body(z, s) + [End(last)]
  }

  // ---------------------------------------------------------------- reading it back

  /** Tickers below `t` as in `s`, ticker `t` as in `s` for ids below `n` only, later tickers as before. */
  ghost predicate Halfway(s: Orders, before: Orders, t: nat, n: nat, now: Orders) {
    && (forall k: (nat, nat) {:trigger k in now} :: k in now <==>
          if k.0 < t then k in s else if k.0 == t then k in s && k.1 < n else k in before)
    && (forall k: (nat, nat) {:trigger now[k]} :: k in now ==> now[k] == if k.0 <= t then s[k] else before[k])
  }

  lemma {:induction false} ReplayRow(z: Size, s: Orders, before: Orders, t: nat, n: nat, now: Orders)
    requires Held(z, s) && Halfway(s, before, t, 0, now)
    ensures Halfway(s, before, t, n, Replay(now, Row(s, t, n)))
  {
    if n > 0 {
      var last := if (t, n - 1) in s then [s[(t, n - 1)]] else [];
      ReplayRow(z, s, before, t, n - 1, now);
      ReplayConcat(now, Row(s, t, n - 1), last);
      var mid := Replay(now, Row(s, t, n - 1));
      if (t, n - 1) in s {
        assert KeyOf(s[(t, n - 1)]) == (t, n - 1) && s[(t, n - 1)].kind.ADD?;
        assert last[1..] == [];
        assert Replay(mid, last) == mid[(t, n - 1) := s[(t, n - 1)]];
        forall k: (nat, nat) ensures k in Replay(mid, last) <==>
            if k.0 < t then k in s else if k.0 == t then k in s && k.1 < n else k in before
        {
          assert k in Replay(mid, last) <==> k in mid || k == (t, n - 1);
        }
      }
    }
  }

  /** Tickers below `t` as in `s`, later tickers as before. */
  ghost predicate Upto(s: Orders, before: Orders, t: nat, now: Orders) {
    && (forall k: (nat, nat) {:trigger k in now} :: k in now <==> if k.0 < t then k in s else k in before)
    && (forall k: (nat, nat) {:trigger now[k]} :: k in now ==> now[k] == if k.0 < t then s[k] else before[k])
  }

  lemma {:induction false} ClearNext(s: Orders, before: Orders, t: nat, now: Orders)
    requires Upto(s, before, t, now)
    ensures Halfway(s, before, t, 0, Apply(now, Clear(t)))
  {
  }

  lemma {:induction false} ReplayRows(z: Size, s: Orders, before: Orders, t: nat)
    requires Held(z, s) && t <= z.tickers
    ensures Upto(s, before, t, Replay(before, Rows(z, s, t)))
  {
    if t > 0 {
      ReplayRows(z, s, before, t - 1);
      var now := Replay(before, Rows(z, s, t - 1));
      var part := [Clear(t - 1)] + Row(s, t - 1, z.ids);
      ReplayConcat(before, Rows(z, s, t - 1), part);
      assert part[1..] == Row(s, t - 1, z.ids);
      ClearNext(s, before, t - 1, now);
      ReplayRow(z, s, before, t - 1, z.ids, Apply(now, Clear(t - 1)));
    }
  }

  /** The snapshot round trip: replaying a snapshot's body from any state whatever reproduces the mirror. */
  lemma {:induction false} SnapshotRoundTrip(z: Size, s: Orders, before: Orders)
    requires Held(z, s) && forall k: (nat, nat) :: k in before ==> k.0 < z.tickers
    ensures Replay(before, Body(z, s)) == s
  {
    ReplayRows(z, s, before, z.tickers);
    HeldKeys(z, s);
  }

  lemma {:induction false} HeldKeys(z: Size, s: Orders)
    requires Held(z, s)
    ensures forall k: (nat, nat) {:trigger k in s} :: k in s ==> k.0 < z.tickers && k.1 < z.ids
  {
  }
}

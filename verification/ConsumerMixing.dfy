/** What the conditions of consumer safety are for: concrete runs that go wrong without them. */
module ConsumerMixing {
  import opened Types
  import opened MarketData
  import opened MarketDataConsumer
  import opened ConsumerSafety

  function Order(id: nat): MarketUpdate {
    MarketUpdate(ADD, id, 0, BUY, 10, 1, 1)
  }

  /** Orders 1 and 2 are added, 1 is cancelled, 3 is added. */
  function Example(): Feed {
    Feed(Size(1, 4), [Order(1), Order(2), Order(1).(kind := CANCEL), Order(3)])
  }

  function Two(a: nat, b: nat): Orders {
    map[(0, a) := Order(a), (0, b) := Order(b)]
  }

  lemma {:induction false} ReplayOne(s: Orders, u: MarketUpdate, us: seq<MarketUpdate>)
    ensures Replay(s, [u] + us) == Replay(Apply(s, u), us)
  {
  }

  lemma {:induction false} ExampleStates()
    ensures Published(Example())
    ensures After(Example(), 2) == Two(1, 2) && After(Example(), 4) == Two(2, 3)
  {
    var us := Example().us;
    assert us[..2] == [Order(1)] + ([Order(2)] + []);
    ReplayOne(map[], Order(1), [Order(2)] + []);
    ReplayOne(map[(0, 1) := Order(1)], Order(2), []);
    assert us[..4] == us[..2] + ([us[2]] + ([us[3]] + []));
    ReplayConcat(map[], us[..2], [us[2]] + ([us[3]] + []));
    ReplayOne(Two(1, 2), us[2], [us[3]] + []);
    ReplayOne(map[(0, 2) := Order(2)], us[3], []);
    assert Two(1, 2) - {(0, 1)} == map[(0, 2) := Order(2)];
  }

  lemma {:induction false} ExampleRow(s: Orders, a: nat, b: nat)
    requires 1 <= a < b <= 3 && s == Two(a, b)
    ensures Row(s, 0, 4) == [Order(a), Order(b)]
  {
    assert Row(s, 0, 0) == [];
    assert Row(s, 0, 1) == [];
    assert Row(s, 0, 2) == if a == 1 then [Order(1)] else [];
    assert Row(s, 0, 3) == if a == 1 then (if b == 2 then [Order(1), Order(2)] else [Order(1)]) else [Order(2)];
  }

  lemma {:induction false} ExampleRound(s: Orders, a: nat, b: nat, n: nat)
    requires 1 <= a < b <= 3 && s == Two(a, b)
    ensures Round(Size(1, 4), s, n) == [Start(n), Clear(0), Order(a), Order(b), End(n)]
  {
    ExampleRow(s, a, b);
    assert Rows(Size(1, 4), s, 0) == [];
    assert Rows(Size(1, 4), s, 1) == [Clear(0), Order(a), Order(b)];
  }

  /** The snapshot messages 0..4 that arrive, and who sent them. */
  function Arrived(rounds: seq<nat>): seq<Arrival>
    requires |rounds| == 5
  {
    seq(5, i requires 0 <= i < 5 => Snapshot(rounds[i], i))
  }

  /** A lost update puts the consumer into recovery; then these snapshot messages arrive. */
  function Reads(rounds: seq<nat>): seq<Read>
    requires |rounds| == 5
  {
    [Read(false, [Incremental(2)]), Read(true, Arrived(rounds))]
  }

  /** The messages a reader sees. */
  function Seen(first: nat, a: nat, b: nat, last: nat): seq<MDPMarketUpdate> {
    [MDPMarketUpdate(0, Start(first)), MDPMarketUpdate(1, Clear(0)), MDPMarketUpdate(2, Order(a)),
     MDPMarketUpdate(3, Order(b)), MDPMarketUpdate(4, End(last))]
  }

  lemma {:induction false} Rounds(n: nat, i: nat)
    requires (n == 2 || n == 4) && i < 5
    ensures Genuine(Example(), Snapshot(n, i))
    ensures Message(Example(), Snapshot(n, i)) == if n == 2 then Seen(2, 1, 2, 2)[i] else Seen(4, 2, 3, 4)[i]
  {
    ExampleStates();
    if n == 2 {
      ExampleRound(After(Example(), 2), 1, 2, 2);
    } else {
      ExampleRound(After(Example(), 4), 2, 3, 4);
    }
  }

  lemma {:induction false} GenuineReads(rounds: seq<nat>)
    requires |rounds| == 5 && forall i :: 0 <= i < 5 ==> rounds[i] == 2 || rounds[i] == 4
    ensures forall i :: 0 <= i < 2 ==> GenuineRead(Example(), Reads(rounds)[i])
    ensures Messages(Example(), Reads(rounds)[1])
              == Seen(rounds[0], if rounds[2] == 2 then 1 else 2, if rounds[3] == 2 then 2 else 3, rounds[4])
  {
    forall i | 0 <= i < 5
      ensures Genuine(Example(), Arrived(rounds)[i])
      ensures Message(Example(), Arrived(rounds)[i])
                == Seen(rounds[0], if rounds[2] == 2 then 1 else 2, if rounds[3] == 2 then 2 else 3, rounds[4])[i]
    {
      Rounds(rounds[i], i);
    }
  }

  /** The consumer after the lost update. */
  function Lost(): State {
    State(1, true, [], [MDPMarketUpdate(2, Order(2))], [])
  }

  lemma {:induction false} SeenPrefixes(first: nat, a: nat, b: nat, last: nat)
    ensures forall k :: 0 <= k < 5 ==> Prefix(Seen(first, a, b, last)[..k])
  {
  }

  /** It reads the first four messages of a snapshot, and then an END. */
  lemma {:induction false} Reading(rules: Rules, first: nat, a: nat, b: nat, last: nat)
    requires !rules.CountBody? && last >= 2
    ensures ReceiveAll(rules, Lost(), true, Seen(first, a, b, last))
              == if rules.CountEvery? || first == last
                 then State(last + 1, false, [], [], [Clear(0), Order(a), Order(b)]) else Lost()
  {
    var st, ms := Lost(), Seen(first, a, b, last);
    SeenPrefixes(first, a, b, last);
    ReceivePrefix(rules, st, ms, 1);
    ReceivePrefix(rules, st, ms, 2);
    ReceivePrefix(rules, st, ms, 3);
    ReceivePrefix(rules, st, ms, 4);
    ReadingEnd(rules, first, a, b, last);
    assert ms[4..][1..] == [];
  }

  lemma {:induction false} ReadingEnd(rules: Rules, first: nat, a: nat, b: nat, last: nat)
    requires !rules.CountBody? && last >= 2
    ensures var ms := Seen(first, a, b, last);
            Receive(rules, Lost().(snaps := ms[..4]), true, ms[4])
              == if rules.CountEvery? || first == last
                 then State(last + 1, false, [], [], [Clear(0), Order(a), Order(b)]) else Lost()
  {
    var ms := Seen(first, a, b, last);
    GrownExactly(rules, ms[..4], ms[4]);
    assert ms == ms[..4] + [ms[4]];
    assert Receive(rules, Lost().(snaps := ms[..4]), true, ms[4]) == CheckSync(rules, Lost().(snaps := ms));
    BodyOfSeen(first, a, b, last);
    assert TailOf(Lost().incs[1..], last + 1) == Tail(true, [], last + 1);
    assert [] + ([Clear(0), Order(a), Order(b)] + []) == [Clear(0), Order(a), Order(b)];
  }

  lemma {:induction false} BodyOfSeen(first: nat, a: nat, b: nat, last: nat)
    ensures BodyOf(Seen(first, a, b, last)) == [Clear(0), Order(a), Order(b)]
  {
    var ms := Seen(first, a, b, last);
    assert ms == [ms[0]] + (ms[1..4] + [ms[4]]);
    BodyOfConcat([ms[0]], ms[1..4] + [ms[4]]);
    BodyOfConcat(ms[1..4], [ms[4]]);
    BodyOfPlain(ms[1..4]);
  }

  lemma {:induction false} ReceivePrefix(rules: Rules, st: State, ms: seq<MDPMarketUpdate>, k: nat)
    requires !rules.CountBody? && 1 <= k <= |ms| && st.inRecovery
    requires Prefix(ms[..k]) && (if k == 1 then st.snaps == [] else
               ReceiveAll(rules, st, true, ms) == ReceiveAll(rules, st.(snaps := ms[..k - 1]), true, ms[k - 1..]))
    ensures ReceiveAll(rules, st, true, ms) == ReceiveAll(rules, st.(snaps := ms[..k]), true, ms[k..])
  {
    var before := st.(snaps := ms[..k - 1]);
    var m := ms[k - 1];
    assert ms[..k] == ms[..k - 1] + [m];
    assert ms[..k - 1] == ms[..k][..k - 1] && ms[..k][k - 1] == m;
    if k > 1 {
      assert ms[..k - 1][0] == ms[..k][0];
    }
    assert Prefix(ms[..k - 1]);
    GrownExactly(rules, ms[..k - 1], m);
    PrefixGrown(rules, ms[..k - 1], m);
    assert ms[k - 1..][1..] == ms[k..];
    assert ms[0..] == ms;
  }

  lemma {:induction false} Losing(rules: Rules)
    requires !rules.CountBody?
    ensures Callback(rules, INITIAL, false, [MDPMarketUpdate(2, Order(2))]) == Lost()
  {
    assert [MDPMarketUpdate(2, Order(2))][1..] == [];
  }

  /** Where such a run ends. */
  lemma {:induction false} RunEnds(rules: Rules, rounds: seq<nat>)
    requires !rules.CountBody?
    requires |rounds| == 5 && forall i :: 0 <= i < 5 ==> rounds[i] == 2 || rounds[i] == 4
    ensures forall i :: 0 <= i < 2 ==> GenuineRead(Example(), Reads(rounds)[i])
    ensures RunReads(rules, Example(), INITIAL, Reads(rounds))
              == if rules.CountEvery? || rounds[0] == rounds[4]
                 then State(rounds[4] + 1, false, [], [],
                            [Clear(0), Order(if rounds[2] == 2 then 1 else 2), Order(if rounds[3] == 2 then 2 else 3)])
                 else Lost()
  {
    var f, rs := Example(), Reads(rounds);
    GenuineReads(rounds);
    Reading(rules, rounds[0], if rounds[2] == 2 then 1 else 2, if rounds[3] == 2 then 2 else 3, rounds[4]);
    assert Messages(f, rs[0]) == [MDPMarketUpdate(2, Order(2))];
    Losing(rules);
    assert rs[1..][0] == rs[1] && rs[1..][1..] == [];
    var fin := Callback(rules, Lost(), true, Messages(f, rs[1]));
    assert RunReads(rules, f, Lost(), rs[1..]) == RunReads(rules, f, fin, []);
  }

  lemma {:induction false} SnapshotReplays(a: nat, b: nat)
    requires a != b
    ensures Replay(map[], [Clear(0), Order(a), Order(b)]) == Two(a, b)
  {
    var us := [Clear(0)] + ([Order(a)] + ([Order(b)] + []));
    assert us == [Clear(0), Order(a), Order(b)];
    ReplayOne(map[], Clear(0), [Order(a)] + ([Order(b)] + []));
    assert Apply(map[], Clear(0)) == map[];
    ReplayOne(map[], Order(a), [Order(b)] + []);
    ReplayOne(map[(0, a) := Order(a)], Order(b), []);
  }

  /** A consumer that holds what no snapshot after `n` updates holds. */
  lemma {:induction false} NeverThere(st: State, n: nat, a: nat, b: nat)
    requires n == 2 || n == 4
    requires !st.inRecovery && st.next == n + 1 && st.delivered == [Clear(0), Order(a), Order(b)] && 1 <= a < b <= 3
    requires if n == 2 then a != 1 else a == 1
    ensures Published(Example()) && !Safe(Example(), st)
  {
    ExampleStates();
    SnapshotReplays(a, b);
    assert (0, 1) in Two(1, 2) && (0, 1) !in Two(2, 3);
    assert (0, 1) in Two(a, b) <==> a == 1;
    assert Replay(map[], st.delivered) == Two(a, b) != After(Example(), st.next - 1);
  }

  lemma {:induction false} OutOfOrder(rounds: seq<nat>)
    requires |rounds| == 5 && rounds[4] < rounds[3]
    ensures !RoundsInOrder(Arrived(rounds), 0)
  {
    InOrderMeans(Arrived(rounds), 0, 3, 4);
  }

  lemma {:induction false} InOrderMeans(xs: seq<Arrival>, latest: nat, i: nat, j: nat)
    requires i <= j < |xs| && forall k :: 0 <= k < |xs| ==> xs[k].Snapshot?
    ensures RoundsInOrder(xs, latest) ==> latest <= xs[i].last <= xs[j].last
    decreases |xs|
  {
    var rest := xs[1..];
    assert forall k :: 0 <= k < |rest| ==> rest[k] == xs[k + 1];
    if j > 0 {
      InOrderMeans(rest, xs[0].last, if i == 0 then 0 else i - 1, j - 1);
    }
  }

  /** Without the comparison of START and END, the front of one round and the back of a later one pass for a
      snapshot: the consumer leaves recovery holding a cancelled order and missing a live one. */
  lemma {:induction false} MixedRoundsPass()
    ensures var rounds := [2, 2, 2, 4, 4];
            && (forall i :: 0 <= i < 2 ==> GenuineRead(Example(), Reads(rounds)[i]))
            && Published(Example()) && RoundsInOrder(Arrived(rounds), 0)
            && !Safe(Example(), RunReads(CountEvery, Example(), INITIAL, Reads(rounds)))
  {
    var rounds := [2, 2, 2, 4, 4];
    RunEnds(CountEvery, rounds);
    NeverThere(RunReads(CountEvery, Example(), INITIAL, Reads(rounds)), 4, 1, 3);
    ArrivedInOrder(rounds);
  }

  lemma {:induction false} ArrivedInOrder(rounds: seq<nat>)
    requires |rounds| == 5 && forall i, j :: 0 <= i < j < 5 ==> rounds[i] <= rounds[j]
    ensures RoundsInOrder(Arrived(rounds), 0)
  {
    InOrder(Arrived(rounds), 0);
  }

  /** And with it, a round that arrives inside an older one can still pass for the older one. */
  lemma {:induction false} LateOldRoundPasses()
    ensures var rounds := [2, 2, 4, 4, 2];
            && (forall i :: 0 <= i < 2 ==> GenuineRead(Example(), Reads(rounds)[i]))
            && Published(Example()) && !RoundsInOrder(Arrived(rounds), 0)
            && !Safe(Example(), RunReads(CountEveryAndMatch, Example(), INITIAL, Reads(rounds)))
  {
    var rounds := [2, 2, 4, 4, 2];
    RunEnds(CountEveryAndMatch, rounds);
    NeverThere(RunReads(CountEveryAndMatch, Example(), INITIAL, Reads(rounds)), 2, 2, 3);
    OutOfOrder(rounds);
  }

  lemma {:induction false} InOrder(xs: seq<Arrival>, latest: nat)
    requires forall i :: 0 <= i < |xs| ==> xs[i].Snapshot? && latest <= xs[i].last
    requires forall i, j :: 0 <= i < j < |xs| ==> xs[i].last <= xs[j].last
    ensures RoundsInOrder(xs, latest)
    decreases |xs|
  {
    if xs != [] {
      assert forall i :: 0 <= i < |xs[1..]| ==> xs[1..][i] == xs[i + 1];
      InOrder(xs[1..], xs[0].last);
    }
  }
}

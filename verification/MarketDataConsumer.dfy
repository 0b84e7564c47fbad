/** The subscriber's side of market data: incrementals in order are delivered at once; a gap starts a
    recovery that queues both channels until a whole snapshot round and the incrementals after it fit. */
module MarketDataConsumer {
  import opened Types

  /** How a queued snapshot is judged. As written, START and END are not counted, although they are
      numbered like every other message. Counting every message is the intent; requiring START and END
      to name the same update also keeps two rounds apart. */
  datatype Rules = CountBody | CountEvery | CountEveryAndMatch

  /** An ordered map from sequence number to update, ascending. */
  type Queue = seq<MDPMarketUpdate>

  ghost predicate Ascending(q: Queue) {
    forall i, j :: 0 <= i < j < |q| ==> q[i].seqNum < q[j].seqNum
  }

  predicate Has(q: Queue, n: nat) {
    exists i :: 0 <= i < |q| && q[i].seqNum == n
  }

  function Put(q: Queue, m: MDPMarketUpdate): Queue {
    if q == [] || m.seqNum < q[0].seqNum then [m] + q
    else if m.seqNum == q[0].seqNum then [m] + q[1..]
    else [q[0]] + Put(q[1..], m)
  }

  predicate Framing(u: MarketUpdate) {
    u.kind.SNAPSHOT_START? || u.kind.SNAPSHOT_END?
  }

  // ---------------------------------------------------------------- the recovery rules, on values

  datatype State = State(next: nat, inRecovery: bool, snaps: Queue, incs: Queue, delivered: seq<MarketUpdate>)

  const INITIAL := State(1, false, [], [], [])

  /** The queue's numbers run without a gap, as the rules count them. */
  predicate Unbroken(rules: Rules, q: Queue, next: nat) {
    q != [] ==> q[0].seqNum == next && Unbroken(rules, q[1..], NextSeq(rules, q[0].update, next))
  }

  function NextSeq(rules: Rules, u: MarketUpdate, next: nat): nat {
    if rules.CountBody? && Framing(u) then next else next + 1
  }

  function BodyOf(q: Queue): seq<MarketUpdate> {
    if q == [] then [] else (if Framing(q[0].update) then [] else [q[0].update]) + BodyOf(q[1..])
  }

  datatype Tail = Tail(complete: bool, events: seq<MarketUpdate>, next: nat)

  /** The queued incrementals from `next` on, as far as they go without a gap. */
  function TailOf(q: Queue, next: nat): Tail {
    if q == [] then Tail(true, [], next)
    else if q[0].seqNum < next then TailOf(q[1..], next)
    else if q[0].seqNum != next then Tail(false, [], next)
    else
      var t := TailOf(q[1..], next + 1);
      t.(events := (if Framing(q[0].update) then [] else [q[0].update]) + t.events)
  }

  function CheckSync(rules: Rules, st: State): State {
    var q := st.snaps;
    if q == [] then st
    else if !q[0].update.kind.SNAPSHOT_START? || !Unbroken(rules, q, 0) then st.(snaps := [])
    else if !q[|q| - 1].update.kind.SNAPSHOT_END? then st
    else if rules.CountEveryAndMatch? && q[0].update.orderId != q[|q| - 1].update.orderId then st.(snaps := [])
    else
      var t := TailOf(st.incs, q[|q| - 1].update.orderId + 1);
      if !t.complete then st.(snaps := [], next := t.next)
      else State(t.next, false, [], [], st.delivered + (BodyOf(q) + t.events))
  }

  function Enqueue(rules: Rules, st: State, isSnapshot: bool, m: MDPMarketUpdate): State {
    CheckSync(rules,
      if isSnapshot then st.(snaps := Put(if Has(st.snaps, m.seqNum) then [] else st.snaps, m))
      else st.(incs := Put(st.incs, m)))
  }

  /** One message of a read. */
  function Receive(rules: Rules, st: State, isSnapshot: bool, m: MDPMarketUpdate): State {
    if st.inRecovery then Enqueue(rules, st, isSnapshot, m)
    else if m.seqNum != st.next then Enqueue(rules, st.(inRecovery := true, snaps := [], incs := []), isSnapshot, m)
    else if isSnapshot then st
    else st.(next := st.next + 1, delivered := st.delivered + [m.update])
  }

  function ReceiveAll(rules: Rules, st: State, isSnapshot: bool, ms: seq<MDPMarketUpdate>): State
    decreases |ms|
  {
    if ms == [] then st else ReceiveAll(rules, Receive(rules, st, isSnapshot, ms[0]), isSnapshot, ms[1..])
  }

  /** One read of a channel: snapshots outside recovery are dropped unread. */
  function Callback(rules: Rules, st: State, isSnapshot: bool, ms: seq<MDPMarketUpdate>): State {
    if isSnapshot && !st.inRecovery then st else ReceiveAll(rules, st, isSnapshot, ms)
  }

  // ---------------------------------------------------------------- the consumer in memory

  class MarketDataConsumer {
    const rules: Rules
    var nextExpIncSeqNum: nat
    var inRecovery: bool
    var snapshotQueued: Queue
    var incrementalQueued: Queue
    // everything written to the queue of the trading strategy
    var delivered: seq<MarketUpdate>

    ghost function Now(): State
      reads this
    {
      State(nextExpIncSeqNum, inRecovery, snapshotQueued, incrementalQueued, delivered)
    }

    constructor (rules: Rules)
      ensures Now() == INITIAL && this.rules == rules
    {
      this.rules := rules;
      nextExpIncSeqNum, inRecovery := 1, false;
      snapshotQueued, incrementalQueued, delivered := [], [], [];
    }

    method StartSnapshotSync()
      modifies this
      ensures Now() == old(Now()).(snaps := [], incs := [])
    {
      snapshotQueued, incrementalQueued := [], [];
    }

    /** Scans the queued snapshot: whether its numbers are unbroken, and what it holds besides framing. */
    method ScanSnapshot() returns (complete: bool, events: seq<MarketUpdate>)
      ensures complete == Unbroken(rules, snapshotQueued, 0)
      ensures complete ==> events == BodyOf(snapshotQueued)
    {
      events := [];
      var next := 0;
      var i := 0;
      while i < |snapshotQueued|
        invariant i <= |snapshotQueued|
        invariant Unbroken(rules, snapshotQueued, 0) == Unbroken(rules, snapshotQueued[i..], next)
        invariant BodyOf(snapshotQueued) == events + BodyOf(snapshotQueued[i..])
      {
        var m := snapshotQueued[i];
        assert snapshotQueued[i..][0] == m && snapshotQueued[i..][1..] == snapshotQueued[i + 1..];
        if m.seqNum != next {
          return false, events;
        }
        if !Framing(m.update) {
          events := events + [m.update];
          next := next + 1;
        } else if !rules.CountBody? {
          next := next + 1;
        }
        i := i + 1;
      }
      complete := true;
    }

    /** Scans the queued incrementals from the snapshot's update on. */
    method ScanIncrementals(from: nat) returns (complete: bool, events: seq<MarketUpdate>)
      modifies this`nextExpIncSeqNum
      ensures var t := TailOf(incrementalQueued, from);
              complete == t.complete && nextExpIncSeqNum == t.next && (complete ==> events == t.events)
    {
      events := [];
      nextExpIncSeqNum := from;
      ghost var whole := TailOf(incrementalQueued, from);
      var i := 0;
      while i < |incrementalQueued|
        invariant i <= |incrementalQueued|
        invariant var t := TailOf(incrementalQueued[i..], nextExpIncSeqNum);
                  whole == t.(events := events + t.events)
      {
        var m := incrementalQueued[i];
        assert incrementalQueued[i..][0] == m && incrementalQueued[i..][1..] == incrementalQueued[i + 1..];
        if m.seqNum >= nextExpIncSeqNum {
          if m.seqNum != nextExpIncSeqNum {
            return false, events;
          }
          if !Framing(m.update) {
            events := events + [m.update];
          }
          nextExpIncSeqNum := nextExpIncSeqNum + 1;
        }
        i := i + 1;
      }
      complete := true;
    }

    method CheckSnapshotSync()
      modifies this
      ensures Now() == CheckSync(rules, old(Now()))
    {
      if snapshotQueued == [] {
        return;
      }
      if !snapshotQueued[0].update.kind.SNAPSHOT_START? {
        snapshotQueued := [];
        return;
      }
      var complete, events := ScanSnapshot();
      if !complete {
        snapshotQueued := [];
        return;
      }
      var last := snapshotQueued[|snapshotQueued| - 1].update;
      if !last.kind.SNAPSHOT_END? {
        return;
      }
      if rules.CountEveryAndMatch? && snapshotQueued[0].update.orderId != last.orderId {
        snapshotQueued := [];
        return;
      }
      var gapless, more := ScanIncrementals(last.orderId + 1);
      if !gapless {
        snapshotQueued := [];
        return;
      }
      delivered := delivered + (events + more);
      snapshotQueued, incrementalQueued := [], [];
      inRecovery := false;
    }

    method QueueMessage(isSnapshot: bool, m: MDPMarketUpdate)
      modifies this
      ensures Now() == Enqueue(rules, old(Now()), isSnapshot, m)
    {
      if isSnapshot {
        if Has(snapshotQueued, m.seqNum) {
          snapshotQueued := [];
        }
        snapshotQueued := Put(snapshotQueued, m);
      } else {
        incrementalQueued := Put(incrementalQueued, m);
      }
      CheckSnapshotSync();
    }

    method RecvCallback(isSnapshot: bool, ms: seq<MDPMarketUpdate>)
      modifies this
      ensures Now() == Callback(rules, old(Now()), isSnapshot, ms)
    {
      if isSnapshot && !inRecovery {
        return;
      }
      var i := 0;
      while i < |ms|
        invariant i <= |ms|
        invariant ReceiveAll(rules, old(Now()), isSnapshot, ms) == ReceiveAll(rules, Now(), isSnapshot, ms[i..])
      {
        var m := ms[i];
        assert ms[i..][0] == m && ms[i..][1..] == ms[i + 1..];
        var already := inRecovery;
        inRecovery := already || m.seqNum != nextExpIncSeqNum;
        if inRecovery {
          if !already {
            StartSnapshotSync();
          }
          QueueMessage(isSnapshot, m);
        } else if !isSnapshot {
          nextExpIncSeqNum := nextExpIncSeqNum + 1;
          delivered := delivered + [m.update];
        }
        i := i + 1;
      }
    }
  }
}

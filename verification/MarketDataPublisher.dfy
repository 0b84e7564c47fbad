/** The publisher: it numbers every update of the books and sends it twice, to the subscribers and to the snapshot
    synthesizer. */
module MarketDataPublisher {
  import opened Types
  import opened MarketDataWire
  import opened LFQueue

  /** Updates with consecutive numbers. */
  function Numbered(us: seq<MarketUpdate>, first: nat): (r: seq<MDPMarketUpdate>)
    ensures |r| == |us| && forall i :: 0 <= i < |us| ==> r[i] == MDPMarketUpdate(first + i, us[i])
  {
    seq(|us|, i requires 0 <= i < |us| => MDPMarketUpdate(first + i, us[i]))
  }

  /** When the publisher copies an update out of its queue: as written, after it released the slot. */
  function OrderOf(code: Code): Discipline {
    if code.AsWritten? then ReleaseThenCopy else CopyThenRelease
  }

  class Publisher {
    const code: Code
    var nextIncSeqNum: nat
    // everything sent on the incremental channel, and everything handed to the synthesizer
    var incremental: seq<Sending>
    var snapshotUpdates: seq<MDPMarketUpdate>

    constructor (code: Code)
      ensures this.code == code && nextIncSeqNum == 1 && incremental == [] && snapshotUpdates == []
    {
      this.code := code;
      nextIncSeqNum := 1;
      incremental, snapshotUpdates := [], [];
    }

    /** Drains the queue of outgoing updates: both channels get the same updates under the same numbers, the
        incremental one as much of each as the text in use sends. */
    method Drain(queue: LFQueue<MarketUpdate>)
      requires queue.Valid() && queue.producer.Idle? && queue.consumer.Waiting? && queue.discipline == OrderOf(code)
      modifies this, queue
      ensures queue.Valid() && queue.Unread() == [] && queue.numElements == 0 && queue.consumer.Waiting?
      ensures queue.producer == old(queue.producer)
      ensures nextIncSeqNum == old(nextIncSeqNum) + |old(queue.Unread())|
      ensures snapshotUpdates == old(snapshotUpdates) + Numbered(old(queue.Unread()), old(nextIncSeqNum))
      ensures incremental == old(incremental) + Sendings(code, Numbered(old(queue.Unread()), old(nextIncSeqNum)))
    {
      ghost var us, first, done := queue.Unread(), nextIncSeqNum, [];
      queue.ValidIsCounted();
      queue.AtRest();
      var slot := queue.GetNextToRead();
      while slot.Some?
        invariant us == done + queue.Unread() && nextIncSeqNum == first + |done|
        invariant queue.Valid() && queue.Counted() && queue.producer.Idle?
        invariant slot.Some? ==> queue.consumer.Pointing? && queue.at == slot.value
        invariant slot.None? ==> queue.consumer.Waiting? && queue.numElements == 0
        invariant snapshotUpdates == old(snapshotUpdates) + Numbered(done, first)
        invariant incremental == old(incremental) + Sendings(code, Numbered(done, first))
        decreases |queue.Unread()|
      {
        ghost var update := PublishNext(queue, slot.value, done, first, old(snapshotUpdates), old(incremental));
        done := done + [update];
        slot := queue.GetNextToRead();
      }
      queue.AtRest();
      assert done == us;
    }

    /** One turn of the loop. */
    method PublishNext(queue: LFQueue<MarketUpdate>, slot: nat, ghost done: seq<MarketUpdate>, ghost first: nat,
                       ghost handed: seq<MDPMarketUpdate>, ghost sent: seq<Sending>)
      returns (ghost update: MarketUpdate)
      requires queue.Valid() && queue.Counted() && queue.consumer.Pointing? && slot == queue.at
      requires queue.discipline == OrderOf(code) && nextIncSeqNum == first + |done|
      requires snapshotUpdates == handed + Numbered(done, first)
      requires incremental == sent + Sendings(code, Numbered(done, first))
      modifies this, queue
      ensures queue.Valid() && queue.Counted() && queue.consumer.Waiting? && queue.producer == old(queue.producer)
      ensures |queue.Unread()| < |old(queue.Unread())| && done + [update] + queue.Unread() == done + old(queue.Unread())
      ensures nextIncSeqNum == first + |done + [update]|
      ensures snapshotUpdates == handed + Numbered(done + [update], first)
      ensures incremental == sent + Sendings(code, Numbered(done + [update], first))
    {
      var seen := queue.Peek(slot);
      SendIncremental(seen, done, first, sent);
      var next := TakeNext(queue, slot);
      HandOn(next, done, first, handed);
      update := next;
    }

    /** Copies the next update out for the synthesizer and releases its slot, in the order of the text in use. */
    method TakeNext(queue: LFQueue<MarketUpdate>, slot: nat) returns (update: MarketUpdate)
      requires queue.Valid() && queue.Counted() && queue.consumer.Pointing? && slot == queue.at
      requires queue.discipline == OrderOf(code)
      modifies queue
      ensures queue.Valid() && queue.Counted() && queue.consumer.Waiting? && queue.producer == old(queue.producer)
      ensures |old(queue.Unread())| > 0 && old(queue.Unread()) == [update] + queue.Unread()
    {
      var ok;
      if code.AsWritten? {
        ok := queue.UpdateReadIndex();
        update := queue.Copy(slot);
      } else {
        update := queue.Copy(slot);
        ok := queue.UpdateReadIndex();
      }
    }

    method SendIncremental(update: MarketUpdate, ghost us: seq<MarketUpdate>, ghost first: nat,
                           ghost sent: seq<Sending>)
      requires nextIncSeqNum == first + |us| && incremental == sent + Sendings(code, Numbered(us, first))
      modifies this`incremental
      ensures incremental == sent + Sendings(code, Numbered(us + [update], first))
    {
      var m := MDPMarketUpdate(nextIncSeqNum, update);
      assert Numbered(us + [update], first) == Numbered(us, first) + [m];
      incremental := incremental + Sendings(code, [m]);
    }

    /** The synthesizer gets the same update under the same number. */
    method HandOn(update: MarketUpdate, ghost us: seq<MarketUpdate>, ghost first: nat,
                  ghost handed: seq<MDPMarketUpdate>)
      requires nextIncSeqNum == first + |us| && snapshotUpdates == handed + Numbered(us, first)
      modifies this`snapshotUpdates, this`nextIncSeqNum
      ensures nextIncSeqNum == old(nextIncSeqNum) + 1
      ensures snapshotUpdates == handed + Numbered(us + [update], first)
    {
      var m := MDPMarketUpdate(nextIncSeqNum, update);
      assert Numbered(us + [update], first) == Numbered(us, first) + [m];
      snapshotUpdates := snapshotUpdates + [m];
      nextIncSeqNum := nextIncSeqNum + 1;
    }
  }

  function Updates(ms: seq<MDPMarketUpdate>): (us: seq<MarketUpdate>)
    ensures |us| == |ms| && forall i :: 0 <= i < |ms| ==> us[i] == ms[i].update
  {
    seq(|ms|, i requires 0 <= i < |ms| => ms[i].update)
  }
}

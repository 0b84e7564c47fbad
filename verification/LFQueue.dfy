/** The lock-free circular queue between two components, as interleaved atomic steps of one producer and one
    consumer. Nothing in it stops a producer from running into the consumer: `Room` says when it may write. */
module LFQueue {
  import opened Types
  import opened Ring
  import opened Modulo

  /** A slot, or a slot in the middle of being written. */
  datatype Cell<T> = Whole(value: T) | Torn

  /** Where the producer is: after storing in its slot, after moving the write index. */
  datatype Producer = Idle | Writing | Wrote | Moved

  /** When a consumer copies its element out: before it releases the slot, or, as the publisher does, after. */
  datatype Discipline = CopyThenRelease | ReleaseThenCopy

  /** Where the consumer is: it has a pointer to a slot, is copying it, has copied it; it has moved the read
      index, and it has lowered the count. */
  datatype Consumer<T> = Waiting | Pointing | Copying(seen: Cell<T>) | Copied | Released | Freed

  datatype Queue<T> = Queue(
    store: seq<Cell<T>>, writeIndex: nat, readIndex: nat, numElements: nat,
    producer: Producer, consumer: Consumer<T>,
    // the slot the consumer points to
    at: nat,
    // every value handed to the producer, and what the consumer copied for each
    written: seq<T>, consumed: seq<Cell<T>>)

  datatype Action<T> =
    | StartWrite(value: T) | FinishWrite | MoveWriteIndex | CountUp
    | Look | StartCopy | FinishCopy | MoveReadIndex | CountDown

  ghost predicate Fresh<T>(q: Queue<T>) {
    && |q.store| > 0 && q.writeIndex == q.readIndex == q.numElements == 0
    && q.producer.Idle? && q.consumer.Waiting? && q.written == [] && q.consumed == []
  }

  /** Each side takes its own steps in its own order; `Look` finds the queue non-empty. */
  predicate Enabled<T>(d: Discipline, q: Queue<T>, a: Action<T>) {
    match a
    case StartWrite(v) => q.producer.Idle?
    case FinishWrite => q.producer.Writing?
    case MoveWriteIndex => q.producer.Wrote?
    case CountUp => q.producer.Moved?
    case Look => q.consumer.Waiting? && q.numElements != 0
    case StartCopy => if d.CopyThenRelease? then q.consumer.Pointing? else q.consumer.Freed?
    case FinishCopy => q.consumer.Copying?
    case MoveReadIndex => if d.CopyThenRelease? then q.consumer.Copied? else q.consumer.Pointing?
    case CountDown => q.consumer.Released?
  }

  predicate InBounds<T>(q: Queue<T>) {
    q.writeIndex < |q.store| && q.readIndex < |q.store| && q.at < |q.store|
  }

  /** A step that is taken; the assertion of a release holds. */
  predicate Takes<T>(d: Discipline, q: Queue<T>, a: Action<T>) {
    && InBounds(q) && Enabled(d, q, a)
    && (a.FinishWrite? ==> q.written != []) && (a.CountDown? ==> q.numElements != 0)
  }

  /** One atomic step. A copy that sees two different contents is torn. */
  ghost function Step<T>(d: Discipline, q: Queue<T>, a: Action<T>): Queue<T>
    requires Takes(d, q, a)
  {
    match a
    case StartWrite(v) => q.(store := q.store[q.writeIndex := Torn], producer := Writing, written := q.written + [v])
    case FinishWrite =>
      q.(store := q.store[q.writeIndex := Whole(q.written[|q.written| - 1])], producer := Wrote)
    case MoveWriteIndex => q.(writeIndex := Succ(q.writeIndex, |q.store|), producer := Moved)
    case CountUp => q.(numElements := q.numElements + 1, producer := Idle)
    case Look => q.(consumer := Pointing, at := q.readIndex)
    case StartCopy => q.(consumer := Copying(q.store[q.at]))
    case FinishCopy =>
      q.(consumed := q.consumed + [if q.store[q.at] == q.consumer.seen then q.consumer.seen else Torn],
         consumer := if d.CopyThenRelease? then Copied else Waiting)
    case MoveReadIndex => q.(readIndex := Succ(q.readIndex, |q.store|), consumer := Released)
    case CountDown => q.(numElements := q.numElements - 1, consumer := if d.CopyThenRelease? then Waiting else Freed)
  }

  // ---------------------------------------------------------------- the invariant

  /** The producer may start: the slot it would fill holds nothing that is still to be copied. */
  predicate Room<T>(q: Queue<T>) {
    |q.written| < |q.consumed| + |q.store|
  }

  function One(b: bool): nat { if b then 1 else 0 }

  /** How many elements the write index, the read index and the two halves of the count have passed. */
  function WriteMoves<T>(q: Queue<T>): int { |q.written| - One(q.producer.Writing? || q.producer.Wrote?) }
  function CountedUp<T>(q: Queue<T>): int { |q.written| - One(!q.producer.Idle?) }

  function ReadMoves<T>(d: Discipline, q: Queue<T>): int {
    if d.CopyThenRelease? then |q.consumed| - One(q.consumer.Copied?)
    else |q.consumed| + One(q.consumer.Released? || q.consumer.Freed? || q.consumer.Copying?)
  }

  function CountedDown<T>(d: Discipline, q: Queue<T>): int {
    if d.CopyThenRelease? then |q.consumed| - One(q.consumer.Copied? || q.consumer.Released?)
    else |q.consumed| + One(q.consumer.Freed? || q.consumer.Copying?)
  }

  /** The consumer has been promised the next element and has not copied it yet. */
  predicate Promised<T>(d: Discipline, q: Queue<T>) {
    || q.consumer.Pointing? || q.consumer.Copying?
    || (d.ReleaseThenCopy? && (q.consumer.Released? || q.consumer.Freed?))
  }

  ghost predicate Counts<T>(d: Discipline, q: Queue<T>) {
    && |q.store| > 0 && InBounds(q)
    && (!q.producer.Idle? ==> q.written != [])
    && (q.consumer.Copied? || (d.CopyThenRelease? && q.consumer.Released?) ==> q.consumed != [])
    && (d.CopyThenRelease? ==> !q.consumer.Freed?) && (d.ReleaseThenCopy? ==> !q.consumer.Copied?)
    && 0 <= WriteMoves(q) && 0 <= ReadMoves(d, q)
    && q.writeIndex == Place(WriteMoves(q), |q.store|) && q.readIndex == Place(ReadMoves(d, q), |q.store|)
    && q.numElements == CountedUp(q) - CountedDown(d, q)
    && |q.consumed| <= CountedUp(q)
    && (Promised(d, q) ==> |q.consumed| < CountedUp(q) && q.at == Place(|q.consumed|, |q.store|))
  }

  /** What was copied is what was written, and what is still due lies whole in its place. */
  ghost predicate Due<T>(q: Queue<T>) {
    && |q.store| > 0 && |q.consumed| <= |q.written| <= |q.consumed| + |q.store|
    && (forall i: nat :: i < |q.consumed| ==> q.consumed[i] == Whole(q.written[i]))
    && (forall i: nat :: |q.consumed| <= i < |q.written| ==>
          q.store[Place(i, |q.store|)]
            == if q.producer.Writing? && i == |q.written| - 1 then Torn else Whole(q.written[i]))
    && (q.consumer.Copying? ==> |q.consumed| < |q.written| && q.consumer.seen == Whole(q.written[|q.consumed|]))
  }

  ghost predicate Inv<T>(d: Discipline, q: Queue<T>) {
    Counts(d, q) && Due(q)
  }

  // ---------------------------------------------------------------- every step keeps it

  lemma {:induction false} ProducerCounts<T>(d: Discipline, q: Queue<T>, a: Action<T>)
    requires Counts(d, q) && Takes(d, q, a) && (a.StartWrite? || a.FinishWrite? || a.CountUp?)
    ensures Counts(d, Step(d, q, a))
  {
  }

  lemma {:induction false} MoveWriteIndexCounts<T>(d: Discipline, q: Queue<T>)
    requires Counts(d, q) && q.producer.Wrote?
    ensures Counts(d, Step(d, q, MoveWriteIndex))
  {
    NextPlace(|q.written| - 1, |q.store|);
  }

  lemma {:induction false} ConsumerCounts<T>(d: Discipline, q: Queue<T>, a: Action<T>)
    requires Counts(d, q) && Takes(d, q, a) && (a.Look? || a.StartCopy? || a.CountDown?)
    ensures Counts(d, Step(d, q, a))
  {
  }

  lemma {:induction false} FinishCopyCounts<T>(d: Discipline, q: Queue<T>)
    requires Counts(d, q) && q.consumer.Copying?
    ensures Counts(d, Step(d, q, FinishCopy))
  {
  }

  lemma {:induction false} MoveReadIndexCounts<T>(d: Discipline, q: Queue<T>)
    requires Counts(d, q) && Enabled(d, q, MoveReadIndex)
    ensures Counts(d, Step(d, q, MoveReadIndex))
  {
    NextPlace(ReadMoves(d, q), |q.store|);
  }

  /** The indexes and counts stay right even when the producer runs into the consumer. */
  lemma {:induction false} CountsKept<T>(d: Discipline, q: Queue<T>, a: Action<T>)
    requires Counts(d, q) && Takes(d, q, a)
    ensures Counts(d, Step(d, q, a))
  {
    match a
    case MoveWriteIndex => MoveWriteIndexCounts(d, q);
    case MoveReadIndex => MoveReadIndexCounts(d, q);
    case FinishCopy => FinishCopyCounts(d, q);
    case Look => ConsumerCounts(d, q, a);
    case StartCopy => ConsumerCounts(d, q, a);
    case CountDown => ConsumerCounts(d, q, a);
    case _ => ProducerCounts(d, q, a);
  }

  lemma {:induction false} StartDue<T>(q: Queue<T>, v: T)
    requires Due(q) && q.producer.Idle? && Room(q) && q.writeIndex == Place(|q.written|, |q.store|)
    ensures Due(q.(store := q.store[q.writeIndex := Torn], producer := Writing, written := q.written + [v]))
  {
    forall i: nat | |q.consumed| <= i < |q.written| ensures Place(i, |q.store|) != q.writeIndex {
      PlacesApart(i, |q.written|, |q.store|);
    }
  }

  lemma {:induction false} FinishDue<T>(q: Queue<T>)
    requires Due(q) && q.producer.Writing? && q.written != [] && q.writeIndex == Place(|q.written| - 1, |q.store|)
    ensures Due(q.(store := q.store[q.writeIndex := Whole(q.written[|q.written| - 1])], producer := Wrote))
  {
    forall i: nat | |q.consumed| <= i < |q.written| - 1 ensures Place(i, |q.store|) != q.writeIndex {
      PlacesApart(i, |q.written| - 1, |q.store|);
    }
  }

  lemma {:induction false} StartKeeps<T>(d: Discipline, q: Queue<T>, v: T)
    requires Inv(d, q) && q.producer.Idle? && Room(q)
    ensures Inv(d, Step(d, q, StartWrite(v)))
  {
    ProducerCounts(d, q, StartWrite(v));
    StartDue(q, v);
  }

  lemma {:induction false} FinishKeeps<T>(d: Discipline, q: Queue<T>)
    requires Inv(d, q) && q.producer.Writing?
    ensures Inv(d, Step(d, q, FinishWrite))
  {
    ProducerCounts(d, q, FinishWrite);
    FinishDue(q);
  }

  lemma {:induction false} MoveWriteIndexKeeps<T>(d: Discipline, q: Queue<T>)
    requires Inv(d, q) && q.producer.Wrote?
    ensures Inv(d, Step(d, q, MoveWriteIndex))
  {
    MoveWriteIndexCounts(d, q);
  }

  lemma {:induction false} CountUpKeeps<T>(d: Discipline, q: Queue<T>)
    requires Inv(d, q) && q.producer.Moved?
    ensures Inv(d, Step(d, q, CountUp))
  {
    ProducerCounts(d, q, CountUp);
  }

  lemma {:induction false} LookKeeps<T>(d: Discipline, q: Queue<T>)
    requires Inv(d, q) && Enabled(d, q, Look)
    ensures Inv(d, Step(d, q, Look))
  {
    ConsumerCounts(d, q, Look);
  }

  lemma {:induction false} MoveReadIndexKeeps<T>(d: Discipline, q: Queue<T>)
    requires Inv(d, q) && Enabled(d, q, MoveReadIndex)
    ensures Inv(d, Step(d, q, MoveReadIndex))
  {
    MoveReadIndexCounts(d, q);
  }

  /** The assertion of the consumer's release never fails. */
  lemma {:induction false} CountDownKeeps<T>(d: Discipline, q: Queue<T>)
    requires Inv(d, q) && q.consumer.Released?
    ensures q.numElements != 0 && Inv(d, Step(d, q, CountDown))
  {
  }

  /** What a copy sees is the element that is due. */
  lemma {:induction false} SeesDue<T>(d: Discipline, q: Queue<T>)
    requires Inv(d, q) && Promised(d, q)
    ensures q.store[q.at] == Whole(q.written[|q.consumed|])
  {
  }

  /** While a consumer points to a slot, the producer leaves it alone, whatever its place in its steps: what is read
      there, and for how long, does not matter. */
  lemma {:induction false} PointedStays<T>(d: Discipline, q: Queue<T>, a: Action<T>)
    requires Inv(d, q) && q.consumer.Pointing? && Enabled(d, q, a) && (a.StartWrite? ==> Room(q))
    requires a.StartWrite? || a.FinishWrite? || a.MoveWriteIndex? || a.CountUp?
    ensures var r := Step(d, q, a);
            && r.consumer.Pointing? && r.at == q.at
            && r.store[r.at] == q.store[q.at] == Whole(q.written[|q.consumed|])
  {
    SeesDue(d, q);
    if a.StartWrite? {
      StartKeeps(d, q, a.value);
      SeesDue(d, Step(d, q, a));
    } else if a.FinishWrite? {
      FinishKeeps(d, q);
      SeesDue(d, Step(d, q, a));
    }
  }

  lemma {:induction false} StartCopyKeeps<T>(d: Discipline, q: Queue<T>)
    requires Inv(d, q) && Enabled(d, q, StartCopy)
    ensures Inv(d, Step(d, q, StartCopy))
  {
    SeesDue(d, q);
  }

  lemma {:induction false} FinishCopyKeeps<T>(d: Discipline, q: Queue<T>)
    requires Inv(d, q) && Enabled(d, q, FinishCopy)
    ensures Inv(d, Step(d, q, FinishCopy))
  {
    SeesDue(d, q);
  }

  lemma {:induction false} StepKeeps<T>(d: Discipline, q: Queue<T>, a: Action<T>)
    requires Inv(d, q) && Enabled(d, q, a) && (a.StartWrite? ==> Room(q))
    ensures (a.CountDown? ==> q.numElements != 0) && Inv(d, Step(d, q, a))
  {
    match a
    case StartWrite(v) => StartKeeps(d, q, v);
    case FinishWrite => FinishKeeps(d, q);
    case MoveWriteIndex => MoveWriteIndexKeeps(d, q);
    case CountUp => CountUpKeeps(d, q);
    case Look => LookKeeps(d, q);
    case StartCopy => StartCopyKeeps(d, q);
    case FinishCopy => FinishCopyKeeps(d, q);
    case MoveReadIndex => MoveReadIndexKeeps(d, q);
    case CountDown => CountDownKeeps(d, q);
  }

  /** Exactly when the producer may start. */
  lemma {:induction false} StartExactly<T>(d: Discipline, q: Queue<T>, v: T)
    requires Inv(d, q) && q.producer.Idle?
    ensures Inv(d, Step(d, q, StartWrite(v))) <==> Room(q)
  {
    if Room(q) {
      StartKeeps(d, q, v);
    }
  }

  // ---------------------------------------------------------------- every interleaving

  /** A run of both sides' steps in any order: all of them possible, and no write without room. */
  ghost predicate Possible<T>(d: Discipline, q: Queue<T>, acts: seq<Action<T>>)
    decreases |acts|
  {
    acts == [] ||
    (Takes(d, q, acts[0]) && (acts[0].StartWrite? ==> Room(q))
     && Possible(d, Step(d, q, acts[0]), acts[1..]))
  }

  ghost function Run<T>(d: Discipline, q: Queue<T>, acts: seq<Action<T>>): Queue<T>
    requires Possible(d, q, acts)
    decreases |acts|
  {
    if acts == [] then q else Run(d, Step(d, q, acts[0]), acts[1..])
  }

  lemma {:induction false} RunKeeps<T>(d: Discipline, q: Queue<T>, acts: seq<Action<T>>)
    requires Inv(d, q) && Possible(d, q, acts)
    ensures Inv(d, Run(d, q, acts))
    decreases |acts|
  {
    if acts != [] {
      StepKeeps(d, q, acts[0]);
      RunKeeps(d, Step(d, q, acts[0]), acts[1..]);
    }
  }

  /** The values whose publication is complete. */
  function Published<T>(q: Queue<T>): seq<T>
    requires !q.producer.Idle? ==> q.written != []
  {
    q.written[..CountedUp(q)]
  }

  /** What the consumer copied is the first of what was published, in order and whole. */
  ghost predicate Linear<T>(q: Queue<T>) {
    && (!q.producer.Idle? ==> q.written != [])
    && |q.consumed| <= |Published(q)|
    && forall i: nat :: i < |q.consumed| ==> q.consumed[i] == Whole(Published(q)[i])
  }

  /** The two indexes agree with the count, but for a half-finished release and a half-finished publication. */
  ghost predicate IndexesAgree<T>(q: Queue<T>) {
    |q.store| > 0 &&
    Place(q.writeIndex + One(q.consumer.Released?), |q.store|)
      == Place(q.readIndex + q.numElements + One(q.producer.Moved?), |q.store|)
  }

  /** No slot is written while it is copied. */
  ghost predicate NoRace<T>(q: Queue<T>) {
    q.producer.Writing? && q.consumer.Copying? ==> q.at != q.writeIndex
  }

  /** Every interleaving of one producer and one consumer is linear, free of races, and keeps its indexes. */
  lemma {:induction false} AllInterleavings<T>(d: Discipline, q: Queue<T>, acts: seq<Action<T>>)
    requires Fresh(q) && InBounds(q) && Possible(d, q, acts)
    ensures var r := Run(d, q, acts);
            Linear(r) && IndexesAgree(r) && NoRace(r)
  {
    RunKeeps(d, q, acts);
    InvMeans(d, Run(d, q, acts));
  }

  lemma {:induction false} InvMeans<T>(d: Discipline, q: Queue<T>)
    requires Inv(d, q)
    ensures Linear(q) && IndexesAgree(q) && NoRace(q)
  {
    CountsAgree(d, q);
    if q.producer.Writing? && q.consumer.Copying? {
      PlacesApart(|q.consumed|, |q.written| - 1, |q.store|);
      WritingAt(d, q);
    }
  }

  lemma {:induction false} WritingAt<T>(d: Discipline, q: Queue<T>)
    requires Counts(d, q) && q.producer.Writing?
    ensures q.writeIndex == Place(|q.written| - 1, |q.store|)
  {
  }

  lemma {:induction false} CountsAgree<T>(d: Discipline, q: Queue<T>)
    requires Counts(d, q)
    ensures IndexesAgree(q)
  {
    var n, released, moved := |q.store|, One(q.consumer.Released?), One(q.producer.Moved?);
    PlaceOfSum(WriteMoves(q), released, n);
    PlaceOfSum(ReadMoves(d, q), q.numElements + moved, n);
    assert WriteMoves(q) + released == ReadMoves(d, q) + (q.numElements + moved);
  }

  // ---------------------------------------------------------------- what the count tells the producer

  /** A consumer that copies first: a count below the capacity means room. */
  lemma {:induction false} CountMeansRoom<T>(q: Queue<T>)
    requires Inv(CopyThenRelease, q) && q.producer.Idle? && q.numElements < |q.store|
    ensures Room(q)
  {
  }

  /** A consumer that releases first: the count must leave one slot more, exactly while it is still to copy. */
  lemma {:induction false} CountMeansLess<T>(q: Queue<T>)
    requires Inv(ReleaseThenCopy, q) && q.producer.Idle?
    ensures Room(q) <==> q.numElements < |q.store| - One(q.consumer.Freed? || q.consumer.Copying?)
  {
  }

  /** The four steps of a publication. */
  ghost function Publish<T>(d: Discipline, q: Queue<T>, v: T): (w: Queue<T>)
    requires InBounds(q) && q.producer.Idle?
    ensures w == q.(store := q.store[q.writeIndex := Whole(v)], writeIndex := Succ(q.writeIndex, |q.store|),
                    numElements := q.numElements + 1, written := q.written + [v])
  {
    Step(d, Step(d, Step(d, Step(d, q, StartWrite(v)), FinishWrite), MoveWriteIndex), CountUp)
  }

  /** The three steps up to a copy. */
  ghost function TakeOut<T>(q: Queue<T>): (r: Queue<T>)
    requires InBounds(q) && q.consumer.Waiting? && q.numElements != 0
    ensures r == q.(consumed := q.consumed + [q.store[q.readIndex]], consumer := Copied, at := q.readIndex)
  {
    var d := CopyThenRelease;
    Step(d, Step(d, Step(d, q, Look), StartCopy), FinishCopy)
  }

  lemma {:induction false} FullMeets<T>(q: Queue<T>)
    requires Counts(CopyThenRelease, q) && |q.written| <= |q.consumed| + |q.store|
    requires q.producer.Idle? && q.consumer.Waiting? && !Room(q)
    ensures q.writeIndex == q.readIndex && q.numElements == |q.store|
  {
    var n, c := |q.store|, |q.consumed|;
    assert Place(c + n, n) == Place(c, n);
  }

  lemma {:induction false} WrongElement<T>(q: Queue<T>, v: T, r: Queue<T>)
    requires |q.consumed| < |q.written| && r.producer.Idle?
    requires forall i: nat :: i < |q.consumed| ==> q.consumed[i] == Whole(q.written[i])
    requires r.consumed == q.consumed + [Whole(v)] && r.written == q.written + [v]
    ensures Linear(r) <==> v == q.written[|q.consumed|]
  {
    var c := |q.consumed|;
    assert Published(r) == r.written;
    assert r.consumed[c] == Whole(v) && r.written[c] == q.written[c];
  }

  /** One element too many: with a full ring at rest, the value written next is what the consumer gets instead
      of the element that is due. */
  lemma {:induction false} OverfullLoses<T>(q: Queue<T>, v: T)
    requires Inv(CopyThenRelease, q) && q.producer.Idle? && q.consumer.Waiting? && !Room(q)
    ensures var r := TakeOut(Publish(CopyThenRelease, q, v));
            r.consumed == q.consumed + [Whole(v)] && (Linear(r) <==> v == q.written[|q.consumed|])
  {
    FullMeets(q);
    var w := Publish(CopyThenRelease, q, v);
    WrongElement(q, v, TakeOut(w));
  }

  // ---------------------------------------------------------------- without room

  /** The assertion of the consumer's release holds even then. */
  lemma {:induction false} ReleaseHolds<T>(d: Discipline, q: Queue<T>)
    requires Counts(d, q) && q.consumer.Released?
    ensures q.numElements != 0
  {
  }

  /** The producer is writing the slot of the element that is due. */
  ghost predicate Clash<T>(d: Discipline, q: Queue<T>) {
    && Counts(d, q) && q.producer.Writing?
    && |q.written| == |q.consumed| + |q.store| + 1
    && q.store[q.writeIndex] == Torn
  }

  lemma {:induction false} ClashAt<T>(d: Discipline, q: Queue<T>)
    requires Clash(d, q)
    ensures Promised(d, q) ==> q.at == q.writeIndex
    ensures q.consumer.Waiting? || q.consumer.Released? ==> q.numElements != 0
  {
    assert Place(|q.consumed| + |q.store|, |q.store|) == Place(|q.consumed|, |q.store|);
  }

  /** The consumer's next step, and how many it is from the end of a copy. */
  function NextStep<T>(d: Discipline, c: Consumer<T>): Action<T>
    requires d.CopyThenRelease? ==> !c.Freed?
    requires d.ReleaseThenCopy? ==> !c.Copied?
  {
    match c
    case Waiting => Look
    case Pointing => if d.CopyThenRelease? then StartCopy else MoveReadIndex
    case Copying(_) => FinishCopy
    case Copied => MoveReadIndex
    case Released => CountDown
    case Freed => StartCopy
  }

  function StepsLeft<T>(d: Discipline, c: Consumer<T>): nat {
    match c
    case Waiting => 4
    case Pointing => 3
    case Copying(_) => 0
    case Copied => 6
    case Released => if d.CopyThenRelease? then 5 else 2
    case Freed => 1
  }

  lemma {:induction false} ClashStep<T>(d: Discipline, q: Queue<T>)
    requires Clash(d, q) && !q.consumer.Copying?
    ensures var a := NextStep(d, q.consumer);
            && Takes(d, q, a) && !a.StartWrite? && Clash(d, Step(d, q, a))
            && StepsLeft(d, Step(d, q, a).consumer) < StepsLeft(d, q.consumer)
  {
    ClashAt(d, q);
    CountsKept(d, q, NextStep(d, q.consumer));
  }

  /** Wherever the consumer is, going on by its own steps it copies a torn element. */
  lemma {:induction false} Spoils<T>(d: Discipline, q: Queue<T>) returns (acts: seq<Action<T>>)
    requires Clash(d, q)
    ensures Possible(d, q, acts) && !Linear(Run(d, q, acts))
    decreases StepsLeft(d, q.consumer)
  {
    var a := NextStep(d, q.consumer);
    var q' := Step(d, q, a);
    if q.consumer.Copying? {
      ClashAt(d, q);
      acts := [a];
      assert acts[1..] == [];
      assert q'.consumed[|q.consumed|] == Torn;
    } else {
      ClashStep(d, q);
      var rest := Spoils(d, q');
      acts := [a] + rest;
      assert acts[1..] == rest;
    }
  }

  lemma {:induction false} WriteSpoils<T>(d: Discipline, q: Queue<T>, v: T) returns (acts: seq<Action<T>>)
    requires Inv(d, q) && q.producer.Idle? && !Room(q)
    ensures var q' := Step(d, q, StartWrite(v));
            Possible(d, q', acts) && !Linear(Run(d, q', acts))
  {
    CountsKept(d, q, StartWrite(v));
    acts := Spoils(d, Step(d, q, StartWrite(v)));
  }

  /** Exactly when the producer may write, in either discipline and whatever the consumer is doing: there is room
      if and only if everything that can follow is linear. */
  lemma {:induction false} WriteExactly<T>(d: Discipline, q: Queue<T>, v: T)
    requires Inv(d, q) && q.producer.Idle?
    ensures Room(q) <==> forall acts: seq<Action<T>> ::
              Possible(d, Step(d, q, StartWrite(v)), acts) ==> Linear(Run(d, Step(d, q, StartWrite(v)), acts))
  {
    var q' := Step(d, q, StartWrite(v));
    if Room(q) {
      StartKeeps(d, q, v);
      forall acts: seq<Action<T>> | Possible(d, q', acts) ensures Linear(Run(d, q', acts)) {
        RunKeeps(d, q', acts);
        InvMeans(d, Run(d, q', acts));
      }
    } else {
      var acts := WriteSpoils(d, q, v);
    }
  }

  // ---------------------------------------------------------------- the publisher's discipline

  lemma {:induction false} RunConcat<T>(d: Discipline, q: Queue<T>, xs: seq<Action<T>>, ys: seq<Action<T>>)
    requires Possible(d, q, xs) && Possible(d, Run(d, q, xs), ys)
    ensures Possible(d, q, xs + ys) && Run(d, q, xs + ys) == Run(d, Run(d, q, xs), ys)
    decreases |xs|
  {
    if xs == [] {
      assert xs + ys == ys;
    } else {
      assert (xs + ys)[1..] == xs[1..] + ys;
      RunConcat(d, Step(d, q, xs[0]), xs[1..], ys);
    }
  }

  function Publication<T>(v: T): seq<Action<T>> {
    [StartWrite(v)] + ([FinishWrite] + ([MoveWriteIndex] + [CountUp]))
  }

  lemma {:induction false} RunOne<T>(d: Discipline, q: Queue<T>, a: Action<T>, rest: seq<Action<T>>)
    requires Takes(d, q, a) && (a.StartWrite? ==> Room(q)) && Possible(d, Step(d, q, a), rest)
    ensures Possible(d, q, [a] + rest) && Run(d, q, [a] + rest) == Run(d, Step(d, q, a), rest)
  {
    assert ([a] + rest)[1..] == rest;
  }

  lemma {:induction false} PublicationRuns<T>(d: Discipline, q: Queue<T>, v: T)
    requires Inv(d, q) && q.producer.Idle? && Room(q)
    ensures Possible(d, q, Publication(v)) && Run(d, q, Publication(v)) == Publish(d, q, v)
    ensures Inv(d, Publish(d, q, v))
  {
    var q1 := Step(d, q, StartWrite(v));
    var q2 := Step(d, q1, FinishWrite);
    var q3 := Step(d, q2, MoveWriteIndex);
    var q4 := Step(d, q3, CountUp);
    RunOne(d, q3, CountUp, []);
    RunOne(d, q2, MoveWriteIndex, [CountUp]);
    RunOne(d, q1, FinishWrite, [MoveWriteIndex] + [CountUp]);
    RunOne(d, q, StartWrite(v), [FinishWrite] + ([MoveWriteIndex] + [CountUp]));
    var last: seq<Action<T>> := [CountUp];
    assert last + [] == last;
    RunKeeps(d, q, Publication(v));
  }

  /** A waiting consumer's queue can be filled to the last slot. */
  lemma {:induction false} Fills<T>(d: Discipline, q: Queue<T>, v: T, k: nat) returns (acts: seq<Action<T>>)
    requires Inv(d, q) && q.producer.Idle? && q.consumer.Waiting? && |q.written| + k <= |q.consumed| + |q.store|
    ensures Possible(d, q, acts)
    ensures var r := Run(d, q, acts);
            && Inv(d, r) && r.producer.Idle? && r.consumer.Waiting?
            && |r.store| == |q.store| && r.consumed == q.consumed && |r.written| == |q.written| + k
    decreases k
  {
    acts := [];
    if k > 0 {
      PublicationRuns(d, q, v);
      var rest := Fills(d, Publish(d, q, v), v, k - 1);
      RunConcat(d, q, Publication(v), rest);
      acts := Publication(v) + rest;
    }
  }

  /** What releasing first costs the publisher: from the start, for every capacity, a run in which the producer
      writes while the count is below the capacity, and the publisher's copy is spoiled. */
  lemma {:induction false} PublisherSpoils<T>(q: Queue<T>, v: T) returns (acts: seq<Action<T>>, more: seq<Action<T>>)
    requires Fresh(q) && InBounds(q)
    ensures Possible(ReleaseThenCopy, q, acts)
    ensures var r := Run(ReleaseThenCopy, q, acts);
            && Takes(ReleaseThenCopy, r, StartWrite(v)) && r.numElements < |r.store|
            && Possible(ReleaseThenCopy, Step(ReleaseThenCopy, r, StartWrite(v)), more)
            && !Linear(Run(ReleaseThenCopy, Step(ReleaseThenCopy, r, StartWrite(v)), more))
  {
    var d := ReleaseThenCopy;
    var filling := Fills(d, q, v, |q.store|);
    var full := Run(d, q, filling);
    var taking := Takeaway(full);
    RunConcat(d, q, filling, taking);
    acts := filling + taking;
    more := WriteSpoils(d, Run(d, full, taking), v);
  }

  /** The publisher takes its pointer and releases the slot. */
  lemma {:induction false} Takeaway<T>(q: Queue<T>) returns (acts: seq<Action<T>>)
    requires Inv(ReleaseThenCopy, q) && q.producer.Idle? && q.consumer.Waiting? && q.numElements != 0
    ensures Possible(ReleaseThenCopy, q, acts)
    ensures var r := Run(ReleaseThenCopy, q, acts);
            && Inv(ReleaseThenCopy, r) && r.producer.Idle? && r.consumer.Freed?
            && r.store == q.store && r.written == q.written && r.consumed == q.consumed
            && r.numElements == q.numElements - 1
  {
    var d := ReleaseThenCopy;
    var q1 := Step(d, q, Look);
    LookKeeps(d, q);
    var q2 := Step(d, q1, MoveReadIndex);
    MoveReadIndexKeeps(d, q1);
    CountDownKeeps(d, q2);
    acts := [Look] + ([MoveReadIndex] + [CountDown]);
    var last: seq<Action<T>> := [CountDown];
    assert last + [] == last;
    RunOne(d, q2, CountDown, []);
    RunOne(d, q1, MoveReadIndex, [CountDown]);
    RunOne(d, q, Look, [MoveReadIndex] + [CountDown]);
  }

  // ---------------------------------------------------------------- the queue in memory

  ghost predicate OneStep<T>(d: Discipline, q: Queue<T>, a: Action<T>, r: Queue<T>) {
    Takes(d, q, a) && r == Step(d, q, a)
  }

  /** From `q` the two steps lead to `r`. */
  ghost predicate TwoSteps<T>(d: Discipline, q: Queue<T>, a: Action<T>, b: Action<T>, r: Queue<T>) {
    Takes(d, q, a) && OneStep(d, Step(d, q, a), b, r)
  }

  /** The counts are right. */
  ghost predicate Countable<T>(d: Discipline, q: Queue<T>) {
    forall u {:trigger Sealed(u)} :: Sealed(u) ==> Counts(d, q)
  }

  /** And nothing that is due has been overwritten. */
  ghost predicate Sound<T>(d: Discipline, q: Queue<T>) {
    forall u {:trigger Sealed(u)} :: Sealed(u) ==> Inv(d, q)
  }

  /** A write in two steps: it keeps the counts, and the whole invariant exactly when there is room. */
  lemma {:induction false} WriteKeeps<T>(d: Discipline, q: Queue<T>, v: T)
    requires Countable(d, q) && q.producer.Idle?
    ensures q.writeIndex < |q.store| && |q.consumed| <= |q.written|
    ensures var w := q.(store := q.store[q.writeIndex := Whole(v)], producer := Wrote, written := q.written + [v]);
            && TwoSteps(d, q, StartWrite(v), FinishWrite, w) && Countable(d, w)
            && (Sound(d, q) ==> (Sound(d, w) <==> Room(q)))
  {
    assert Sealed(0);
    var q' := Step(d, q, StartWrite(v));
    CountsKept(d, q, StartWrite(v));
    CountsKept(d, q', FinishWrite);
    if Inv(d, q) && Room(q) {
      StartKeeps(d, q, v);
      FinishKeeps(d, q');
    }
  }

  /** A publication in two steps. */
  lemma {:induction false} PublishKeeps<T>(d: Discipline, q: Queue<T>)
    requires Countable(d, q) && q.producer.Wrote?
    ensures q.writeIndex < |q.store|
    ensures var w := q.(writeIndex := Succ(q.writeIndex, |q.store|), numElements := q.numElements + 1,
                        producer := Idle);
            TwoSteps(d, q, MoveWriteIndex, CountUp, w) && Countable(d, w) && (Sound(d, q) ==> Sound(d, w))
  {
    assert Sealed(0);
    var q' := Step(d, q, MoveWriteIndex);
    CountsKept(d, q, MoveWriteIndex);
    CountsKept(d, q', CountUp);
    if Inv(d, q) {
      MoveWriteIndexKeeps(d, q);
      CountUpKeeps(d, q');
    }
  }

  lemma {:induction false} PointKeeps<T>(d: Discipline, q: Queue<T>)
    requires Countable(d, q) && q.consumer.Waiting? && q.numElements != 0
    ensures var w := q.(consumer := Pointing, at := q.readIndex);
            OneStep(d, q, Look, w) && Countable(d, w) && (Sound(d, q) ==> Sound(d, w))
  {
    assert Sealed(0);
    CountsKept(d, q, Look);
    if Inv(d, q) {
      LookKeeps(d, q);
    }
  }

  lemma {:induction false} PeekSees<T>(d: Discipline, q: Queue<T>)
    requires Countable(d, q) && q.consumer.Pointing?
    ensures q.at < |q.store|
    ensures Sound(d, q) ==> |q.consumed| < |q.written| && q.store[q.at] == Whole(q.written[|q.consumed|])
  {
    assert Sealed(0);
    if Inv(d, q) {
      SeesDue(d, q);
    }
  }

  /** A copy in two steps, of a whole cell. */
  lemma {:induction false} CopyKeeps<T>(d: Discipline, q: Queue<T>)
    requires Countable(d, q) && Enabled(d, q, StartCopy) && (q.at < |q.store| ==> q.store[q.at].Whole?)
    ensures q.at < |q.store| && |q.consumed| < |q.written|
    ensures var w := q.(consumed := q.consumed + [q.store[q.at]],
                        consumer := if d.CopyThenRelease? then Copied else Waiting);
            && TwoSteps(d, q, StartCopy, FinishCopy, w) && Countable(d, w)
            && (Sound(d, q) ==> Sound(d, w) && q.store[q.at] == Whole(q.written[|q.consumed|]))
  {
    assert Sealed(0);
    var q' := Step(d, q, StartCopy);
    CountsKept(d, q, StartCopy);
    CountsKept(d, q', FinishCopy);
    if Inv(d, q) {
      SeesDue(d, q);
      StartCopyKeeps(d, q);
      FinishCopyKeeps(d, q');
    }
  }

  /** A release in two steps; the assertion holds. */
  lemma {:induction false} ReleaseKeeps<T>(d: Discipline, q: Queue<T>)
    requires Countable(d, q) && Enabled(d, q, MoveReadIndex)
    ensures q.numElements != 0 && q.readIndex < |q.store|
    ensures var w := q.(readIndex := Succ(q.readIndex, |q.store|), numElements := q.numElements - 1,
                        consumer := if d.CopyThenRelease? then Waiting else Freed);
            TwoSteps(d, q, MoveReadIndex, CountDown, w) && Countable(d, w) && (Sound(d, q) ==> Sound(d, w))
  {
    assert Sealed(0);
    var q' := Step(d, q, MoveReadIndex);
    CountsKept(d, q, MoveReadIndex);
    ReleaseHolds(d, q');
    CountsKept(d, q', CountDown);
    if Inv(d, q) {
      MoveReadIndexKeeps(d, q);
      CountDownKeeps(d, q');
    }
  }

  /** Each operation is the steps named in its contract; the other side's steps may come between them. */
  class LFQueue<T> {
    const discipline: Discipline
    const store: array<T>
    var nextWriteIndex: nat
    var nextReadIndex: nat
    var numElements: nat
    ghost var producer: Producer
    ghost var consumer: Consumer<T>
    ghost var at: nat
    ghost var written: seq<T>
    ghost var consumed: seq<Cell<T>>

    ghost function Now(): Queue<T>
      reads this, store
    {
      Queue(seq(store.Length, i requires 0 <= i < store.Length reads this, store => Whole(store[i])),
            nextWriteIndex, nextReadIndex, numElements, producer, consumer, at, written, consumed)
    }

    /** The indexes and counts are right. */
    ghost predicate Counted()
      reads this, store
    {
      Countable(discipline, Now())
    }

    /** And nothing that is due has been overwritten. */
    ghost predicate Valid()
      reads this, store
    {
      Sound(discipline, Now())
    }

    /** What is published or written, but not yet copied out. */
    ghost function Unread(): seq<T>
      reads this`written, this`consumed
    {
      if |consumed| <= |written| then written[|consumed|..] else []
    }

    lemma {:induction false} ValidIsCounted()
      requires Valid()
      ensures Counted()
    {
    }

    /** Between operations the count is the number of elements that are left. */
    lemma {:induction false} AtRest()
      requires Counted() && producer.Idle? && consumer.Waiting?
      ensures numElements == |Unread()|
    {
      assert Sealed(0);
    }

    lemma {:induction false} RoomExactly()
      requires Counted()
      ensures Room(Now()) <==> |Unread()| < store.Length
    {
      assert Sealed(0);
    }

    constructor (discipline: Discipline, numElems: nat, empty: T)
      requires numElems > 0
      ensures Fresh(Now()) && Valid() && store.Length == numElems && fresh(store) && this.discipline == discipline
    {
      this.discipline := discipline;
      store := new T[numElems](_ => empty);
      nextWriteIndex, nextReadIndex, numElements := 0, 0, 0;
      producer, consumer, at, written, consumed := Idle, Waiting, 0, [], [];
    }

    /** Takes the pointer to the next slot and fills it, whether there is room or not. */
    method Write(v: T)
      requires Counted() && producer.Idle?
      modifies this`producer, this`written, store
      ensures TwoSteps(discipline, old(Now()), StartWrite(v), FinishWrite, Now())
      ensures Counted() && (old(Valid()) ==> (Valid() <==> old(Room(Now()))))
      ensures producer.Wrote? && written == old(written) + [v]
      ensures old(Valid()) ==> Unread() == old(Unread()) + [v]
    {
      WriteKeeps(discipline, Now(), v);
      store[nextWriteIndex] := v;
      producer, written := Wrote, written + [v];
      assert Now().store == old(Now()).store[nextWriteIndex := Whole(v)];
    }

    method UpdateWriteIndex()
      requires Counted() && producer.Wrote?
      modifies this`producer, this`nextWriteIndex, this`numElements
      ensures TwoSteps(discipline, old(Now()), MoveWriteIndex, CountUp, Now())
      ensures Counted() && numElements == old(numElements) + 1 && producer.Idle?
      ensures old(Valid()) ==> Valid()
    {
      PublishKeeps(discipline, Now());
      SuccIsRemainder(nextWriteIndex, store.Length);
      nextWriteIndex := (nextWriteIndex + 1) % store.Length;
      numElements := numElements + 1;
      producer := Idle;
    }

    /** The place of the next element; none when the count is zero. */
    method GetNextToRead() returns (slot: Option<nat>)
      requires Counted() && consumer.Waiting?
      modifies this`consumer, this`at
      ensures slot.None? <==> numElements == 0
      ensures slot.None? ==> Now() == old(Now())
      ensures slot.Some? ==> slot.value == nextReadIndex == at && consumer.Pointing?
                             && OneStep(discipline, old(Now()), Look, Now())
      ensures Counted() && (old(Valid()) ==> Valid())
    {
      if numElements == 0 {
        return None;
      }
      PointKeeps(discipline, Now());
      at, consumer := nextReadIndex, Pointing;
      slot := Some(nextReadIndex);
    }

    /** Reads the element at the pointer before the slot is released, and leaves it there. */
    method Peek(slot: nat) returns (v: T)
      requires Counted() && slot == at && consumer.Pointing?
      ensures Valid() ==> |Unread()| > 0 && v == Unread()[0]
    {
      PeekSees(discipline, Now());
      v := store[slot];
      assert Now().store[slot] == Whole(v);
    }

    /** Copies the element at the pointer out. */
    method Copy(slot: nat) returns (v: T)
      requires Counted() && slot == at
      requires if discipline.CopyThenRelease? then consumer.Pointing? else consumer.Freed?
      modifies this`consumer, this`consumed
      ensures TwoSteps(discipline, old(Now()), StartCopy, FinishCopy, Now())
      ensures consumed == old(consumed) + [Whole(v)] && Counted()
      ensures consumer == if discipline.CopyThenRelease? then Copied else Waiting
      ensures old(Valid()) ==> Valid() && |old(Unread())| > 0 && v == old(Unread())[0] && Unread() == old(Unread())[1..]
    {
      ghost var q := Now();
      CopyKeeps(discipline, q);
      v := store[slot];
      assert q.store[slot] == Whole(v);
      consumed, consumer := consumed + [Whole(v)], if discipline.CopyThenRelease? then Copied else Waiting;
      assert Now() == q.(consumed := consumed, consumer := consumer);
    }

    /** Gives the slot back; the assertion holds. */
    method UpdateReadIndex() returns (ok: bool)
      requires Counted() && (if discipline.CopyThenRelease? then consumer.Copied? else consumer.Pointing?)
      modifies this`consumer, this`nextReadIndex, this`numElements
      ensures ok && TwoSteps(discipline, old(Now()), MoveReadIndex, CountDown, Now())
      ensures Counted() && numElements == old(numElements) - 1
      ensures consumer == if discipline.CopyThenRelease? then Waiting else Freed
      ensures old(Valid()) ==> Valid()
    {
      ReleaseKeeps(discipline, Now());
      SuccIsRemainder(nextReadIndex, store.Length);
      nextReadIndex := (nextReadIndex + 1) % store.Length;
      ok := numElements != 0;
      if ok {
        numElements := numElements - 1;
      }
      consumer := if discipline.CopyThenRelease? then Waiting else Freed;
    }

    method Size() returns (n: nat)
      ensures n == numElements
    {
      n := numElements;
    }
  }
}

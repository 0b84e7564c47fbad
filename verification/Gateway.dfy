/** The order gateway on values: how the bytes of many sockets become requests, whatever pieces they arrive in,
    and which requests of a client are let through. */
module Gateway {
  import opened Types
  import opened WireFormat
  import opened FIFOSequencer

  // ---------------------------------------------------------------- frames

  /** The whole frames at the front of a buffer. */
  function Frames(bs: seq<Byte>): (ms: seq<OMClientRequest>)
    ensures |ms| == |bs| / FRAME
  {
    if |bs| < FRAME then [] else [Decode(bs[..FRAME])] + Frames(bs[FRAME..])
  }

  function Leftover(bs: seq<Byte>): (rest: seq<Byte>)
    ensures |rest| == |bs| % FRAME && rest == bs[|bs| / FRAME * FRAME..]
  {
    if |bs| < FRAME then bs else Leftover(bs[FRAME..])
  }

  /** Reading a buffer in two pieces gives the same frames and the same leftover. */
  lemma {:induction false} FramesInPieces(a: seq<Byte>, b: seq<Byte>)
    ensures Frames(a + b) == Frames(a) + Frames(Leftover(a) + b)
    ensures Leftover(a + b) == Leftover(Leftover(a) + b)
    decreases |a|
  {
    if |a| >= FRAME {
      var rest := a[FRAME..];
      assert (a + b)[..FRAME] == a[..FRAME] && (a + b)[FRAME..] == rest + b;
      FramesInPieces(rest, b);
      assert Leftover(a) == Leftover(rest);
    }
  }

  // ---------------------------------------------------------------- admission

  /** A frame, with the socket and the time it was read at. */
  datatype Event<S> = Event(socket: S, rxTime: int, m: OMClientRequest)

  /** Which socket each client is bound to, the sequence number expected of it, and every request forwarded. */
  datatype Gate<S> = Gate(sockets: seq<Option<S>>, expected: seq<nat>, forwarded: Requests)

  function Opened<S>(clients: nat): Gate<S> {
    Gate(seq(clients, _ => None), seq(clients, _ => 1), [])
  }

  predicate Serves<S>(g: Gate<S>, clients: nat) {
    |g.sockets| == |g.expected| == clients
  }

  /** A client is bound to the first socket that names it; frames from another socket or out of sequence are
      passed over. */
  function Admit<S(==)>(g: Gate<S>, e: Event<S>): Gate<S>
    requires Serves(g, |g.sockets|) && e.m.request.clientId < |g.sockets|
  {
    var c := e.m.request.clientId;
    var g' := if g.sockets[c].None? then g.(sockets := g.sockets[c := Some(e.socket)]) else g;
    if g'.sockets[c] != Some(e.socket) || e.m.seqNum != g.expected[c] then g'
    else g'.(expected := g.expected[c := e.m.seqNum + 1],
             forwarded := g.forwarded + [RecvTimeClientRequest(e.rxTime, e.m.request)])
  }

  predicate InRange<S>(clients: nat, es: seq<Event<S>>) {
    forall i :: 0 <= i < |es| ==> es[i].m.request.clientId < clients
  }

  function AdmitAll<S(==)>(g: Gate<S>, es: seq<Event<S>>): (r: Gate<S>)
    requires Serves(g, |g.sockets|) && InRange(|g.sockets|, es)
    ensures Serves(r, |g.sockets|)
  {
    if es == [] then g else Admit(AdmitAll(g, es[..|es| - 1]), es[|es| - 1])
  }

  lemma {:induction false} AdmitConcat<S>(g: Gate<S>, es: seq<Event<S>>, fs: seq<Event<S>>)
    requires Serves(g, |g.sockets|) && InRange(|g.sockets|, es + fs)
    ensures InRange(|g.sockets|, es) && InRange(|g.sockets|, fs)
    ensures AdmitAll(g, es + fs) == AdmitAll(AdmitAll(g, es), fs)
    decreases |fs|
  {
    var n := |g.sockets|;
    assert forall i :: 0 <= i < |es| ==> es[i] == (es + fs)[i];
    assert forall i :: 0 <= i < |fs| ==> fs[i] == (es + fs)[|es| + i];
    if fs == [] {
      assert es + fs == es;
    } else {
      assert (es + fs)[..|es + fs| - 1] == es + fs[..|fs| - 1];
      AdmitConcat(g, es, fs[..|fs| - 1]);
    }
  }

  // ---------------------------------------------------------------- what a client may expect

  /** Of these frames, those of client `c` whose numbers run on from 1: each is taken when its turn comes. */
  function InSequence(c: nat, ms: seq<OMClientRequest>): (r: seq<OMClientRequest>)
    ensures forall i :: 0 <= i < |r| ==> r[i].request.clientId == c && r[i].seqNum == i + 1 && r[i] in ms
  {
    if ms == [] then []
    else
      var r := InSequence(c, ms[..|ms| - 1]);
      var m := ms[|ms| - 1];
      if m.request.clientId == c && m.seqNum == |r| + 1 then r + [m] else r
  }

  /** And none is passed over: every later frame of the client carries another number than the next one. */
  lemma {:induction false} InSequenceExactly(c: nat, ms: seq<OMClientRequest>, next: nat)
    requires next >= 1
    ensures |InSequence(c, ms)| >= next <==>
            exists k :: 0 <= k < |ms| && ms[k].request.clientId == c && ms[k].seqNum == next
                        && |InSequence(c, ms[..k])| == next - 1
  {
    if ms != [] {
      var e := |ms| - 1;
      InSequenceExactly(c, ms[..e], next);
      if |InSequence(c, ms[..e])| >= next {
        var k :| 0 <= k < e && ms[..e][k].request.clientId == c && ms[..e][k].seqNum == next
                 && |InSequence(c, ms[..e][..k])| == next - 1;
        assert ms[..e][..k] == ms[..k];
      }
      forall k | 0 <= k < e && ms[k].request.clientId == c && ms[k].seqNum == next
                 && |InSequence(c, ms[..k])| == next - 1
        ensures |InSequence(c, ms[..e])| >= next
      {
        assert ms[..e][..k] == ms[..k] && ms[..e][k] == ms[k];
      }
    }
  }

  /** The frames that came from one socket. */
  function From<S(==)>(s: S, es: seq<Event<S>>): (ms: seq<OMClientRequest>) {
    if es == [] then []
    else From(s, es[..|es| - 1]) + if es[|es| - 1].socket == s then [es[|es| - 1].m] else []
  }

  lemma {:induction false} FromConcat<S>(s: S, es: seq<Event<S>>, fs: seq<Event<S>>)
    ensures From(s, es + fs) == From(s, es) + From(s, fs)
    decreases |fs|
  {
    if fs == [] {
      assert es + fs == es;
    } else {
      assert (es + fs)[..|es + fs| - 1] == es + fs[..|fs| - 1];
      FromConcat(s, es, fs[..|fs| - 1]);
    }
  }

  function RequestsOf(ms: seq<OMClientRequest>): seq<ClientRequest> {
    seq(|ms|, i requires 0 <= i < |ms| => ms[i].request)
  }

  /** How the gate stands to client `c` after these events: bound to a socket, it has forwarded exactly that
      socket's frames of the client in sequence; unbound, no socket has named the client. */
  ghost predicate Admitted<S>(c: nat, g: Gate<S>, es: seq<Event<S>>)
    requires Serves(g, |g.sockets|) && c < |g.sockets|
  {
    match g.sockets[c]
    case None =>
      && g.expected[c] == 1 && OfClient(c, g.forwarded) == []
      && forall i :: 0 <= i < |es| ==> es[i].m.request.clientId != c
    case Some(s) =>
      && g.expected[c] == |InSequence(c, From(s, es))| + 1
      && Plain(OfClient(c, g.forwarded)) == RequestsOf(InSequence(c, From(s, es)))
  }

  lemma {:induction false} ForwardedLast(c: nat, q: Requests, r: RecvTimeClientRequest)
    ensures OfClient(c, q + [r]) == OfClient(c, q) + if r.request.clientId == c then [r] else []
  {
    OfClientConcat(c, q, [r]);
  }

  lemma {:induction false} AdmitOne<S>(c: nat, g: Gate<S>, es: seq<Event<S>>, e: Event<S>)
    requires Serves(g, |g.sockets|) && c < |g.sockets| && e.m.request.clientId < |g.sockets|
    requires Admitted(c, g, es)
    ensures Admitted(c, Admit(g, e), es + [e])
  {
    ForwardedLast(c, g.forwarded, RecvTimeClientRequest(e.rxTime, e.m.request));
    if e.m.request.clientId != c {
      if g.sockets[c].Some? {
        OtherClient(c, g.sockets[c].value, es, e);
      }
    } else {
      AdmitMine(c, g, es, e);
    }
  }

  lemma {:induction false} AdmitMine<S>(c: nat, g: Gate<S>, es: seq<Event<S>>, e: Event<S>)
    requires Serves(g, |g.sockets|) && e.m.request.clientId == c < |g.sockets|
    requires Admitted(c, g, es)
    ensures Admitted(c, Admit(g, e), es + [e])
  {
    var s := if g.sockets[c].Some? then g.sockets[c].value else e.socket;
    if g.sockets[c].None? {
      NotNamed(c, e.socket, es);
    }
    var r := InSequence(c, From(s, es));
    assert g.expected[c] == |r| + 1 && Plain(OfClient(c, g.forwarded)) == RequestsOf(r);
    NextOfClient(c, s, es, e);
    ForwardedNext(c, g, s, r, e);
  }

  /** What a frame of its own client does to a gate that has forwarded these of it. */
  lemma {:induction false} ForwardedNext<S>(c: nat, g: Gate<S>, s: S, r: seq<OMClientRequest>, e: Event<S>)
    requires Serves(g, |g.sockets|) && e.m.request.clientId == c < |g.sockets|
    requires g.sockets[c] == Some(s) || (g.sockets[c].None? && s == e.socket)
    requires g.expected[c] == |r| + 1 && Plain(OfClient(c, g.forwarded)) == RequestsOf(r)
    ensures var g' := Admit(g, e);
            var r' := if e.socket == s && e.m.seqNum == |r| + 1 then r + [e.m] else r;
            && g'.sockets[c] == Some(s) && g'.expected[c] == |r'| + 1
            && Plain(OfClient(c, g'.forwarded)) == RequestsOf(r')
  {
    ForwardedLast(c, g.forwarded, RecvTimeClientRequest(e.rxTime, e.m.request));
    PlainNext(OfClient(c, g.forwarded), r, e);
  }

  lemma {:induction false} PlainNext<S>(q: Requests, ms: seq<OMClientRequest>, e: Event<S>)
    requires Plain(q) == RequestsOf(ms)
    ensures Plain(q + [RecvTimeClientRequest(e.rxTime, e.m.request)]) == RequestsOf(ms + [e.m])
    ensures Plain(q + []) == RequestsOf(ms) && |q| == |ms|
  {
  }

  lemma {:induction false} InSequenceNext(c: nat, ms: seq<OMClientRequest>, m: OMClientRequest)
    ensures var r := InSequence(c, ms);
            InSequence(c, ms + [m]) == if m.request.clientId == c && m.seqNum == |r| + 1 then r + [m] else r
  {
  }

  lemma {:induction false} FromNext<S>(s: S, es: seq<Event<S>>, e: Event<S>)
    ensures From(s, es + [e]) == if e.socket == s then From(s, es) + [e.m] else From(s, es)
  {
  }

  lemma {:induction false} OtherClient<S>(c: nat, s: S, es: seq<Event<S>>, e: Event<S>)
    requires e.m.request.clientId != c
    ensures InSequence(c, From(s, es + [e])) == InSequence(c, From(s, es))
  {
    FromNext(s, es, e);
    InSequenceNext(c, From(s, es), e.m);
  }

  lemma {:induction false} NextOfClient<S>(c: nat, s: S, es: seq<Event<S>>, e: Event<S>)
    requires e.m.request.clientId == c
    ensures var r := InSequence(c, From(s, es));
            InSequence(c, From(s, es + [e])) == if e.socket == s && e.m.seqNum == |r| + 1 then r + [e.m] else r
  {
    FromNext(s, es, e);
    InSequenceNext(c, From(s, es), e.m);
  }

  lemma {:induction false} NotNamed<S>(c: nat, s: S, es: seq<Event<S>>)
    requires forall i :: 0 <= i < |es| ==> es[i].m.request.clientId != c
    ensures InSequence(c, From(s, es)) == []
  {
    if es != [] {
      var n := |es| - 1;
      NotNamed(c, s, es[..n]);
      OtherClient(c, s, es[..n], es[n]);
      assert es[..n] + [es[n]] == es;
    }
  }

  /** For every client, whatever the order in which the frames of many sockets interleave. */
  lemma {:induction false} AdmissionPerClient<S>(clients: nat, c: nat, es: seq<Event<S>>)
    requires c < clients && InRange(clients, es)
    ensures Admitted(c, AdmitAll(Opened(clients), es), es)
    decreases |es|
  {
    if es != [] {
      var n := |es| - 1;
      AdmissionPerClient(clients, c, es[..n]);
      AdmitOne(c, AdmitAll(Opened(clients), es[..n]), es[..n], es[n]);
      assert es[..n] + [es[n]] == es;
    }
  }

  lemma {:induction false} UnnamedUnbound<S>(clients: nat, c: nat, es: seq<Event<S>>)
    requires c < clients && InRange(clients, es) && forall i :: 0 <= i < |es| ==> es[i].m.request.clientId != c
    ensures AdmitAll(Opened(clients), es).sockets[c].None?
    decreases |es|
  {
    if es != [] {
      UnnamedUnbound(clients, c, es[..|es| - 1]);
    }
  }

  /** A client is bound to the socket of the first frame that names it, whatever its number, and for good. */
  lemma {:induction false} BoundToFirst<S>(clients: nat, c: nat, es: seq<Event<S>>, k: nat)
    requires c < clients && InRange(clients, es) && k < |es| && es[k].m.request.clientId == c
    requires forall i :: 0 <= i < k ==> es[i].m.request.clientId != c
    ensures AdmitAll(Opened(clients), es).sockets[c] == Some(es[k].socket)
    decreases |es|
  {
    var n := |es| - 1;
    if k == n {
      UnnamedUnbound(clients, c, es[..n]);
    } else {
      BoundToFirst(clients, c, es[..n], k);
    }
  }

  // ---------------------------------------------------------------- chunks

  /** One read of a socket: the bytes that were there. */
  datatype Chunk<S> = Chunk(socket: S, rxTime: int, bytes: seq<Byte>)

  /** All the bytes one socket has sent. */
  function StreamOf<S(==)>(s: S, chunks: seq<Chunk<S>>): seq<Byte> {
    if chunks == [] then []
    else
      var r := chunks[|chunks| - 1];
      StreamOf(s, chunks[..|chunks| - 1]) + if r.socket == s then r.bytes else []
  }

  /** What waits in a socket's buffer after these reads, and the frames taken out of all of them. */
  function BufferOf<S(==)>(s: S, chunks: seq<Chunk<S>>): seq<Byte> {
    if chunks == [] then []
    else
      var before := BufferOf(s, chunks[..|chunks| - 1]);
      var r := chunks[|chunks| - 1];
      if r.socket == s then Leftover(before + r.bytes) else before
  }

  function Tagged<S>(s: S, rxTime: int, ms: seq<OMClientRequest>): (es: seq<Event<S>>)
    ensures |es| == |ms| && forall i :: 0 <= i < |ms| ==> es[i] == Event(s, rxTime, ms[i])
  {
    seq(|ms|, i requires 0 <= i < |ms| => Event(s, rxTime, ms[i]))
  }

  function EventsOf<S(==)>(chunks: seq<Chunk<S>>): seq<Event<S>> {
    if chunks == [] then []
    else
      var before := chunks[..|chunks| - 1];
      var r := chunks[|chunks| - 1];
      EventsOf(before) + Tagged(r.socket, r.rxTime, Frames(BufferOf(r.socket, before) + r.bytes))
  }

  lemma {:induction false} FromTagged<S>(s: S, t: S, rxTime: int, ms: seq<OMClientRequest>)
    ensures From(s, Tagged(t, rxTime, ms)) == if s == t then ms else []
  {
    if ms != [] {
      var es := Tagged(t, rxTime, ms);
      var n := |ms| - 1;
      assert es[..n] == Tagged(t, rxTime, ms[..n]);
      FromTagged(s, t, rxTime, ms[..n]);
      assert ms[..n] + [ms[n]] == ms;
    }
  }

  /** Framing does not depend on how a stream is cut into reads, nor on the reads of other sockets. */
  lemma {:induction false} FramingIndependent<S>(s: S, chunks: seq<Chunk<S>>)
    ensures From(s, EventsOf(chunks)) == Frames(StreamOf(s, chunks))
    ensures BufferOf(s, chunks) == Leftover(StreamOf(s, chunks))
    decreases |chunks|
  {
    if chunks != [] {
      var before, r := chunks[..|chunks| - 1], chunks[|chunks| - 1];
      FramingIndependent(s, before);
      FramesInPieces(StreamOf(s, before), r.bytes);
      var ms := Frames(BufferOf(r.socket, before) + r.bytes);
      FromConcat(s, EventsOf(before), Tagged(r.socket, r.rxTime, ms));
      FromTagged(s, r.socket, r.rxTime, ms);
      assert StreamOf(s, before) + [] == StreamOf(s, before);
    }
  }

  /** The gate after these reads. */
  function GateAfter<S(==)>(clients: nat, chunks: seq<Chunk<S>>): (g: Gate<S>)
    requires InRange(clients, EventsOf(chunks))
    ensures Serves(g, clients)
  {
    AdmitAll(Opened(clients), EventsOf(chunks))
  }

  /** One more read: the frames it completes are admitted, and the rest waits. */
  lemma {:induction false} OneMoreRead<S>(clients: nat, chunks: seq<Chunk<S>>, r: Chunk<S>)
    requires InRange(clients, EventsOf(chunks + [r]))
    ensures var bytes := BufferOf(r.socket, chunks) + r.bytes;
            var es := Tagged(r.socket, r.rxTime, Frames(bytes));
            && InRange(clients, EventsOf(chunks)) && InRange(clients, es)
            && GateAfter(clients, chunks + [r]) == AdmitAll(GateAfter(clients, chunks), es)
            && BufferOf(r.socket, chunks + [r]) == Leftover(bytes)
  {
    assert (chunks + [r])[..|chunks|] == chunks;
    var bytes := BufferOf(r.socket, chunks) + r.bytes;
    AdmitConcat(Opened(clients), EventsOf(chunks), Tagged(r.socket, r.rxTime, Frames(bytes)));
  }

  /** The gateway's promise, over any interleaving of reads of any sizes: what has been forwarded for a bound
      client is what its socket's whole stream holds of it in sequence 1, 2, 3 and so on. */
  lemma {:induction false} ForwardedExactly<S>(clients: nat, c: nat, chunks: seq<Chunk<S>>)
    requires c < clients && InRange(clients, EventsOf(chunks))
    ensures var g := GateAfter(clients, chunks);
            match g.sockets[c]
            case None => OfClient(c, g.forwarded) == []
            case Some(s) =>
              var due := InSequence(c, Frames(StreamOf(s, chunks)));
              g.expected[c] == |due| + 1 && Plain(OfClient(c, g.forwarded)) == RequestsOf(due)
  {
    var g := GateAfter(clients, chunks);
    AdmissionPerClient(clients, c, EventsOf(chunks));
    if g.sockets[c].Some? {
      FramingIndependent(g.sockets[c].value, chunks);
    }
  }

  ghost predicate Names(c: nat, ms: seq<OMClientRequest>) {
    exists i :: 0 <= i < |ms| && ms[i].request.clientId == c
  }

  /** A client is only ever bound to a socket that named it. */
  lemma {:induction false} BoundNamed<S>(clients: nat, c: nat, es: seq<Event<S>>)
    requires c < clients && InRange(clients, es)
    ensures var g := AdmitAll(Opened(clients), es);
            g.sockets[c].Some? ==> Names(c, From(g.sockets[c].value, es))
    decreases |es|
  {
    if es != [] {
      var e := |es| - 1;
      var g := AdmitAll(Opened(clients), es[..e]);
      var g' := AdmitAll(Opened(clients), es);
      BoundNamed(clients, c, es[..e]);
      if g.sockets[c].Some? {
        var before := From(g.sockets[c].value, es[..e]);
        var i :| 0 <= i < |before| && before[i].request.clientId == c;
        assert From(g.sockets[c].value, es)[i] == before[i];
      } else if g'.sockets[c].Some? {
        var ms := From(es[e].socket, es);
        assert ms[|ms| - 1] == es[e].m;
      }
    }
  }

  /** Where only one socket's stream names the client, the outcome depends on that stream alone. */
  lemma {:induction false} ForwardedOnly<S>(clients: nat, c: nat, chunks: seq<Chunk<S>>, s: S)
    requires c < clients && InRange(clients, EventsOf(chunks))
    requires forall t: S :: t != s ==> !Names(c, Frames(StreamOf(t, chunks)))
    ensures Plain(OfClient(c, GateAfter(clients, chunks).forwarded))
              == RequestsOf(InSequence(c, Frames(StreamOf(s, chunks))))
  {
    var es, g := EventsOf(chunks), GateAfter(clients, chunks);
    AdmissionPerClient(clients, c, es);
    FramingIndependent(s, chunks);
    if g.sockets[c].Some? {
      BoundNamed(clients, c, es);
      var t := g.sockets[c].value;
      FramingIndependent(t, chunks);
      assert Names(c, Frames(StreamOf(t, chunks)));
    } else {
      NotNamed(c, s, es);
    }
  }

  /** A client that one socket names hears the same, however the streams are cut and interleaved. */
  lemma {:induction false} ChunkingIndependent<S>(clients: nat, c: nat, s: S, chunks: seq<Chunk<S>>,
                                                  chunks': seq<Chunk<S>>)
    requires c < clients && InRange(clients, EventsOf(chunks)) && InRange(clients, EventsOf(chunks'))
    requires forall t: S :: StreamOf(t, chunks) == StreamOf(t, chunks')
    requires forall t: S :: t != s ==> !Names(c, Frames(StreamOf(t, chunks)))
    ensures Plain(OfClient(c, GateAfter(clients, chunks).forwarded))
              == Plain(OfClient(c, GateAfter(clients, chunks').forwarded))
  {
    assert forall t: S :: t != s ==> StreamOf(t, chunks) == StreamOf(t, chunks');
    ForwardedOnly(clients, c, chunks, s);
    ForwardedOnly(clients, c, chunks', s);
    assert StreamOf(s, chunks) == StreamOf(s, chunks');
  }

  // ---------------------------------------------------------------- through the sequencer

  function Flat(qs: seq<Requests>): Requests {
    if qs == [] then [] else qs[0] + Flat(qs[1..])
  }

  /** Each round of reads is published in some order that the sort permits. */
  ghost predicate Sequenced(batches: seq<Requests>, orders: seq<Requests>) {
    |batches| == |orders| && forall i :: 0 <= i < |batches| ==> Permitted(batches[i], orders[i])
  }

  /** In every round the client's requests wait in the order of distinct receive times. */
  ghost predicate TimesTellApart(c: nat, batches: seq<Requests>) {
    forall i :: 0 <= i < |batches| ==> SortedByTime(OfClient(c, batches[i])) && TiesEqual(OfClient(c, batches[i]))
  }

  lemma {:induction false} OrdersKept(c: nat, batches: seq<Requests>, orders: seq<Requests>)
    requires Sequenced(batches, orders) && TimesTellApart(c, batches)
    ensures OfClient(c, Flat(orders)) == OfClient(c, Flat(batches))
  {
    if batches != [] {
      OrderSurvives(c, batches[0], orders[0]);
      OrdersKept(c, batches[1..], orders[1..]);
      OfClientConcat(c, batches[0], Flat(batches[1..]));
      OfClientConcat(c, orders[0], Flat(orders[1..]));
    }
  }

  /** From the sockets to the matching engine: what the engine gets of a bound client is, request by request,
      what the client's socket sent in sequence 1, 2, 3 and so on, each once. */
  lemma {:induction false} DeliveredInOrder<S>(clients: nat, c: nat, chunks: seq<Chunk<S>>,
                                               batches: seq<Requests>, orders: seq<Requests>)
    requires c < clients && InRange(clients, EventsOf(chunks))
    requires Flat(batches) == GateAfter(clients, chunks).forwarded
    requires Sequenced(batches, orders) && TimesTellApart(c, batches)
    requires GateAfter(clients, chunks).sockets[c].Some?
    ensures var s := GateAfter(clients, chunks).sockets[c].value;
            Plain(OfClient(c, Flat(orders))) == RequestsOf(InSequence(c, Frames(StreamOf(s, chunks))))
  {
    OrdersKept(c, batches, orders);
    ForwardedExactly(clients, c, chunks);
  }
}

/** The order gateway in memory: it frames what its sockets received, admits requests to the sequencer, and
    numbers the responses of each client. A failed check ends the process (`ok` is false). */
module OrderServer {
  import opened Types
  import opened WireFormat
  import opened FIFOSequencer
  import opened Gateway

  class TCPSocket {
    const inboundData: array<Byte>
    var nextRcvValidIndex: nat

    ghost predicate Valid()
      reads this
    {
      nextRcvValidIndex <= inboundData.Length
    }

    ghost function Buffered(): seq<Byte>
      reads this, inboundData
      requires Valid()
    {
      inboundData[..nextRcvValidIndex]
    }

    constructor (size: nat)
      ensures Valid() && Buffered() == [] && inboundData.Length == size && fresh(inboundData)
    {
      inboundData := new Byte[size](_ => 0);
      nextRcvValidIndex := 0;
    }

    /** What a read of the socket delivers, behind what was left over. */
    method Read(bytes: seq<Byte>)
      requires Valid() && nextRcvValidIndex + |bytes| <= inboundData.Length
      modifies this, inboundData
      ensures Valid() && Buffered() == old(Buffered()) + bytes
    {
      ghost var before := Buffered();
      for k := 0 to |bytes|
        invariant Valid() && nextRcvValidIndex == old(nextRcvValidIndex) && Buffered() == before
        invariant inboundData[nextRcvValidIndex..nextRcvValidIndex + k] == bytes[..k]
      {
        inboundData[nextRcvValidIndex + k] := bytes[k];
      }
      nextRcvValidIndex := nextRcvValidIndex + |bytes|;
      assert Buffered() == before + inboundData[old(nextRcvValidIndex)..nextRcvValidIndex];
    }

    /** Moves the bytes from `i` on to the front; the two places do not overlap. */
    method Compact(i: nat)
      requires Valid() && i <= nextRcvValidIndex && nextRcvValidIndex - i <= i
      modifies this`nextRcvValidIndex, inboundData
      ensures Valid() && Buffered() == old(Buffered())[i..]
    {
      var n := nextRcvValidIndex - i;
      for k := 0 to n
        invariant inboundData[..k] == old(inboundData[i..i + k])
        invariant inboundData[i..] == old(inboundData[i..])
      {
        assert inboundData[i + k] == inboundData[i..][k];
        inboundData[k] := inboundData[i + k];
      }
      nextRcvValidIndex := n;
    }
  }

  // ---------------------------------------------------------------- numbering responses

  datatype OMClientResponse = OMClientResponse(seqNum: nat, response: ClientResponse)

  /** A response on its way, and the socket it goes to. */
  datatype Sent = Sent(socket: TCPSocket, m: OMClientResponse)

  predicate Known(clients: nat, rs: seq<ClientResponse>) {
    forall i :: 0 <= i < |rs| ==> rs[i].clientId < clients
  }

  /** Responses with the next number of each one's client. */
  function Stamp(next: seq<nat>, rs: seq<ClientResponse>): (ms: seq<OMClientResponse>)
    requires Known(|next|, rs)
    ensures |ms| == |rs| && forall i :: 0 <= i < |rs| ==> ms[i].response == rs[i]
    decreases |rs|
  {
    if rs == [] then []
    else
      var c := rs[0].clientId;
      [OMClientResponse(next[c], rs[0])] + Stamp(next[c := next[c] + 1], rs[1..])
  }

  function ResponsesOf(c: nat, rs: seq<ClientResponse>): seq<ClientResponse> {
    if rs == [] then [] else (if rs[0].clientId == c then [rs[0]] else []) + ResponsesOf(c, rs[1..])
  }

  function StampedOf(c: nat, ms: seq<OMClientResponse>): seq<OMClientResponse> {
    if ms == [] then [] else (if ms[0].response.clientId == c then [ms[0]] else []) + StampedOf(c, ms[1..])
  }

  function Count(first: nat, rs: seq<ClientResponse>): (ms: seq<OMClientResponse>)
    ensures |ms| == |rs| && forall i :: 0 <= i < |rs| ==> ms[i] == OMClientResponse(first + i, rs[i])
  {
    seq(|rs|, i requires 0 <= i < |rs| => OMClientResponse(first + i, rs[i]))
  }

  /** Each client's next number after these responses. */
  function Numbers(next: seq<nat>, rs: seq<ClientResponse>): (r: seq<nat>)
    requires Known(|next|, rs)
    ensures |r| == |next|
    decreases |rs|
  {
    if rs == [] then next
    else Numbers(next[rs[0].clientId := next[rs[0].clientId] + 1], rs[1..])
  }

  lemma {:induction false} StampNext(next: seq<nat>, rs: seq<ClientResponse>, r: ClientResponse)
    requires Known(|next|, rs) && r.clientId < |next|
    ensures Known(|next|, rs + [r])
    ensures var now := Numbers(next, rs);
            && Stamp(next, rs + [r]) == Stamp(next, rs) + [OMClientResponse(now[r.clientId], r)]
            && Numbers(next, rs + [r]) == now[r.clientId := now[r.clientId] + 1]
    decreases |rs|
  {
    if rs == [] {
      assert rs + [r] == [r] && [r][1..] == [];
      assert Numbers(next, [r]) == Numbers(next[r.clientId := next[r.clientId] + 1], []);
    } else {
      var next' := next[rs[0].clientId := next[rs[0].clientId] + 1];
      assert (rs + [r])[0] == rs[0] && (rs + [r])[1..] == rs[1..] + [r];
      StampNext(next', rs[1..], r);
      assert Stamp(next, rs) == [OMClientResponse(next[rs[0].clientId], rs[0])] + Stamp(next', rs[1..]);
    }
  }

  /** Every client sees its own responses, all of them, under consecutive numbers. */
  lemma {:induction false} StampedPerClient(c: nat, next: seq<nat>, rs: seq<ClientResponse>)
    requires Known(|next|, rs) && c < |next|
    ensures StampedOf(c, Stamp(next, rs)) == Count(next[c], ResponsesOf(c, rs))
    decreases |rs|
  {
    if rs != [] {
      var d := rs[0].clientId;
      StampedPerClient(c, next[d := next[d] + 1], rs[1..]);
    }
  }

  /** A client's next number goes up by one for each of its responses, and no other's does. */
  lemma {:induction false} NumbersExactly(c: nat, next: seq<nat>, rs: seq<ClientResponse>)
    requires Known(|next|, rs) && c < |next|
    ensures Numbers(next, rs)[c] == next[c] + |ResponsesOf(c, rs)|
    decreases |rs|
  {
    if rs != [] {
      NumbersExactly(c, next[rs[0].clientId := next[rs[0].clientId] + 1], rs[1..]);
    }
  }

  /** What is sent over many turns of the loop, each going on from the numbers that the last one left. */
  function StampAll(next: seq<nat>, turns: seq<seq<ClientResponse>>): seq<OMClientResponse>
    requires forall i :: 0 <= i < |turns| ==> Known(|next|, turns[i])
    decreases |turns|
  {
    if turns == [] then []
    else
      assert forall i :: 0 <= i < |turns[1..]| ==> turns[1..][i] == turns[i + 1];
      Stamp(next, turns[0]) + StampAll(Numbers(next, turns[0]), turns[1..])
  }

  function Together(turns: seq<seq<ClientResponse>>): seq<ClientResponse> {
    if turns == [] then [] else turns[0] + Together(turns[1..])
  }

  lemma {:induction false} ResponsesOfConcat(c: nat, rs: seq<ClientResponse>, ss: seq<ClientResponse>)
    ensures ResponsesOf(c, rs + ss) == ResponsesOf(c, rs) + ResponsesOf(c, ss)
    decreases |rs|
  {
    if rs == [] {
      assert rs + ss == ss;
    } else {
      assert (rs + ss)[1..] == rs[1..] + ss;
      ResponsesOfConcat(c, rs[1..], ss);
    }
  }

  lemma {:induction false} StampedOfConcat(c: nat, ms: seq<OMClientResponse>, ns: seq<OMClientResponse>)
    ensures StampedOf(c, ms + ns) == StampedOf(c, ms) + StampedOf(c, ns)
    decreases |ms|
  {
    if ms == [] {
      assert ms + ns == ns;
    } else {
      assert (ms + ns)[1..] == ms[1..] + ns;
      StampedOfConcat(c, ms[1..], ns);
    }
  }

  /** Over any number of turns every client sees all its responses under consecutive numbers. */
  lemma {:induction false} StampedOverTurns(c: nat, next: seq<nat>, turns: seq<seq<ClientResponse>>)
    requires (forall i :: 0 <= i < |turns| ==> Known(|next|, turns[i])) && c < |next|
    ensures StampedOf(c, StampAll(next, turns)) == Count(next[c], ResponsesOf(c, Together(turns)))
    decreases |turns|
  {
    if turns != [] {
      var first, rest := turns[0], turns[1..];
      assert forall i :: 0 <= i < |rest| ==> rest[i] == turns[i + 1];
      StampedPerClient(c, next, first);
      NumbersExactly(c, next, first);
      StampedOverTurns(c, Numbers(next, first), rest);
      StampedOfConcat(c, Stamp(next, first), StampAll(Numbers(next, first), rest));
      ResponsesOfConcat(c, first, Together(rest));
    }
  }

  /** From the start of the server: the first response to a client is number 1, the next number 2, and so on. */
  lemma {:induction false} NumberedFromOne(clients: nat, c: nat, turns: seq<seq<ClientResponse>>, k: nat)
    requires (forall i :: 0 <= i < |turns| ==> Known(clients, turns[i])) && c < clients
    requires k < |ResponsesOf(c, Together(turns))|
    ensures var mine := StampedOf(c, StampAll(seq(clients, _ => 1), turns));
            && |mine| == |ResponsesOf(c, Together(turns))|
            && mine[k].seqNum == k + 1 && mine[k].response == ResponsesOf(c, Together(turns))[k]
  {
    StampedOverTurns(c, seq(clients, _ => 1), turns);
  }

  // ---------------------------------------------------------------- the server

  lemma {:induction false} AdmitGrows<S>(g: Gate<S>, es: seq<Event<S>>, k: nat)
    requires Serves(g, |g.sockets|) && InRange(|g.sockets|, es) && k <= |es|
    ensures |g.forwarded| <= |AdmitAll(g, es[..k]).forwarded| <= |AdmitAll(g, es).forwarded|
    decreases |es|
  {
    if k == |es| {
      assert es[..k] == es;
      if es != [] {
        AdmitGrows(g, es[..|es| - 1], |es| - 1);
      }
    } else {
      assert es[..|es| - 1][..k] == es[..k];
      AdmitGrows(g, es[..|es| - 1], k);
    }
  }

  /** A frame that ends the process makes the whole read end it. */
  lemma {:induction false} Refused<S>(clients: nat, g: Gate<S>, es: seq<Event<S>>, k: nat, waiting: nat, capacity: nat)
    requires Serves(g, clients) && k < |es| && InRange(clients, es[..k])
    requires es[k].m.request.clientId >= clients
             || waiting + |Admit(AdmitAll(g, es[..k]), es[k]).forwarded| > |g.forwarded| + capacity
    ensures !InRange(clients, es) || waiting + |AdmitAll(g, es).forwarded| > |g.forwarded| + capacity
  {
    if InRange(clients, es) {
      AdmitGrows(g, es, k + 1);
      assert es[..k + 1][..k] == es[..k] && es[..k + 1][k] == es[k];
    }
  }

  lemma {:induction false} FrameAt(bytes: seq<Byte>, k: nat)
    requires (k + 1) * FRAME <= |bytes|
    ensures k < |Frames(bytes)| && Frames(bytes)[k] == Decode(bytes[k * FRAME..k * FRAME + FRAME])
  {
    if k > 0 {
      var i := (k - 1) * FRAME;
      assert FRAME + i == k * FRAME;
      FrameAt(bytes[FRAME..], k - 1);
      SliceOfRest(bytes, FRAME, i, i + FRAME);
    }
  }

  lemma {:induction false} FrameEvent<S>(socket: S, rxTime: int, bytes: seq<Byte>, k: nat)
    requires (k + 1) * FRAME <= |bytes|
    ensures k < |Frames(bytes)| && k * FRAME + FRAME <= |bytes|
    ensures Tagged(socket, rxTime, Frames(bytes))[k]
              == Event(socket, rxTime, Decode(bytes[k * FRAME..k * FRAME + FRAME]))
  {
    FrameAt(bytes, k);
  }

  lemma {:induction false} SliceOfRest<T>(s: seq<T>, a: nat, b: nat, c: nat)
    requires b <= c && a + c <= |s|
    ensures s[a..][b..c] == s[a + b..a + c]
  {
  }

  lemma {:induction false} FrameCount(bytes: seq<Byte>, k: nat)
    requires k * FRAME <= |bytes| < (k + 1) * FRAME
    ensures k == |Frames(bytes)| && Leftover(bytes) == bytes[k * FRAME..]
  {
  }

  /** A pointer to a socket that may be null. */
  ghost function Bound(socket: TCPSocket?): Option<TCPSocket> {
    if socket == null then None else var s: TCPSocket := socket; Some(s)
  }

  class OrderServer {
    const fifoSequencer: FIFOSequencer
    const cidNextOutgoingSeqNum: array<nat>
    const cidNextExpSeqNum: array<nat>
    const cidTcpSocket: array<TCPSocket?>
    // every response handed to a socket
    var sent: seq<Sent>
    // every request handed to the sequencer
    ghost var forwarded: Requests

    ghost predicate Valid()
      reads this, fifoSequencer
    {
      && cidTcpSocket.Length == cidNextExpSeqNum.Length == cidNextOutgoingSeqNum.Length
      && cidNextExpSeqNum != cidNextOutgoingSeqNum
      && fifoSequencer.Valid()
    }

    ghost function Clients(): nat { cidTcpSocket.Length }

    ghost function Now(): (g: Gate<TCPSocket>)
      reads this, cidTcpSocket, cidNextExpSeqNum
    {
      Gate(seq(cidTcpSocket.Length, i requires 0 <= i < cidTcpSocket.Length reads cidTcpSocket =>
             Bound(cidTcpSocket[i])),
           cidNextExpSeqNum[..], forwarded)
    }

    constructor (clients: nat, code: Code)
      ensures Valid() && Clients() == clients && Now() == Opened(clients) && sent == []
      ensures fifoSequencer.Pending() == [] && fifoSequencer.published == [] && fifoSequencer.code == code
      ensures cidNextOutgoingSeqNum[..] == seq(clients, _ => 1)
      ensures fresh(fifoSequencer) && fresh(fifoSequencer.pendingClientRequests)
      ensures fresh(cidNextOutgoingSeqNum) && fresh(cidNextExpSeqNum) && fresh(cidTcpSocket)
    {
      fifoSequencer := new FIFOSequencer(code);
      cidNextOutgoingSeqNum := new nat[clients](_ => 1);
      cidNextExpSeqNum := new nat[clients](_ => 1);
      cidTcpSocket := new TCPSocket?[clients](_ => null);
      sent, forwarded := [], [];
    }

    /** One frame: exactly `Admit`, and what it forwards waits in the sequencer. */
    method HandleFrame(socket: TCPSocket, rxTime: int, m: OMClientRequest) returns (ok: bool)
      requires Valid()
      modifies this`forwarded, cidTcpSocket, cidNextExpSeqNum
      modifies fifoSequencer`pendingSize, fifoSequencer.pendingClientRequests
      ensures Valid()
      ensures ok ==> m.request.clientId < Clients() && Now() == Admit(old(Now()), Event(socket, rxTime, m))
      ensures ok ==> old(forwarded) <= forwarded
      ensures ok ==> fifoSequencer.Pending() == old(fifoSequencer.Pending()) + forwarded[|old(forwarded)|..]
      ensures m.request.clientId < Clients() ==>
                (ok <==> |old(fifoSequencer.Pending())| + |Admit(old(Now()), Event(socket, rxTime, m)).forwarded|
                           <= |old(forwarded)| + fifoSequencer.pendingClientRequests.Length)
    {
      var c := m.request.clientId;
      if c >= cidTcpSocket.Length {
        return false;
      }
      ghost var before := Now();
      if cidTcpSocket[c] == null {
        cidTcpSocket[c] := socket;
      }
      assert Now().sockets == if before.sockets[c].None? then before.sockets[c := Some(socket)] else before.sockets;
      if cidTcpSocket[c] != socket {
        return true;
      }
      if m.seqNum != cidNextExpSeqNum[c] {
        return true;
      }
      cidNextExpSeqNum[c] := m.seqNum + 1;
      ok := fifoSequencer.AddClientRequest(rxTime, m.request);
      if ok {
        forwarded := forwarded + [RecvTimeClientRequest(rxTime, m.request)];
      }
    }

    /** A socket has received something: every whole frame is handled, what is left is kept for the next read. */
    method RecvCallback(socket: TCPSocket, rxTime: int) returns (ok: bool)
      requires Valid() && socket.Valid()
      modifies this`forwarded, cidTcpSocket, cidNextExpSeqNum
      modifies fifoSequencer`pendingSize, fifoSequencer.pendingClientRequests
      modifies socket`nextRcvValidIndex, socket.inboundData
      ensures Valid() && socket.Valid()
      ensures var es := Tagged(socket, rxTime, Frames(old(socket.Buffered())));
              ok <==> Fits(old(Now()), old(fifoSequencer.Pending()), es)
      ensures ok ==> Now() == AdmitAll(old(Now()), Tagged(socket, rxTime, Frames(old(socket.Buffered()))))
      ensures ok ==> old(forwarded) <= forwarded
      ensures ok ==> fifoSequencer.Pending() == old(fifoSequencer.Pending()) + forwarded[|old(forwarded)|..]
      ensures ok ==> socket.Buffered() == Leftover(old(socket.Buffered()))
    {
      ghost var bytes, g, waiting := socket.Buffered(), Now(), fifoSequencer.Pending();
      ghost var es := Tagged(socket, rxTime, Frames(bytes));
      assert Handled(g, waiting, es, 0);
      if socket.nextRcvValidIndex >= FRAME {
        var i;
        ok, i := HandleFrames(socket, rxTime, g, waiting);
        if !ok {
          return;
        }
        FrameCount(bytes, |es|);
        socket.Compact(i);
      }
      assert es[..|es|] == es;
      ok := true;
    }

    /** The loop over the whole frames of a buffer; `i` is where it stops. */
    method HandleFrames(socket: TCPSocket, rxTime: int, ghost g: Gate<TCPSocket>, ghost waiting: Requests)
      returns (ok: bool, i: nat)
      requires Valid() && socket.Valid() && Serves(g, Clients())
      requires Handled(g, waiting, Tagged(socket, rxTime, Frames(socket.Buffered())), 0)
      modifies this`forwarded, cidTcpSocket, cidNextExpSeqNum
      modifies fifoSequencer`pendingSize, fifoSequencer.pendingClientRequests
      ensures Valid() && socket.Valid() && socket.Buffered() == old(socket.Buffered())
      ensures var es := Tagged(socket, rxTime, Frames(old(socket.Buffered())));
              && (ok ==> Handled(g, waiting, es, |es|) && i == |es| * FRAME <= socket.nextRcvValidIndex < i + FRAME)
              && (!ok ==> !Fits(g, waiting, es))
    {
      ghost var bytes, k := socket.Buffered(), 0;
      ghost var es := Tagged(socket, rxTime, Frames(bytes));
      i := 0;
      while i + FRAME <= socket.nextRcvValidIndex
        invariant i == k * FRAME <= socket.nextRcvValidIndex && k <= |es|
        invariant Valid() && socket.Valid() && socket.Buffered() == bytes
        invariant Handled(g, waiting, es, k)
      {
        FrameEvent(socket, rxTime, bytes, k);
        var frame := socket.inboundData[i..i + FRAME];
        assert frame == bytes[i..i + FRAME];
        ok := NextFrame(socket, rxTime, Decode(frame), g, waiting, es, k);
        if !ok {
          return;
        }
        i, k := i + FRAME, k + 1;
      }
      FrameCount(bytes, k);
      ok := true;
    }

    /** The first `k` frames are handled. */
    ghost predicate Handled(g: Gate<TCPSocket>, waiting: Requests, es: seq<Event<TCPSocket>>, k: nat)
      reads this, cidTcpSocket, cidNextExpSeqNum, fifoSequencer, fifoSequencer.pendingClientRequests
      requires Valid() && k <= |es| && Serves(g, Clients())
    {
      && InRange(Clients(), es[..k]) && Now() == AdmitAll(g, es[..k])
      && g.forwarded <= forwarded && fifoSequencer.Pending() == waiting + forwarded[|g.forwarded|..]
    }

    method NextFrame(socket: TCPSocket, rxTime: int, m: OMClientRequest, ghost g: Gate<TCPSocket>,
                     ghost waiting: Requests, ghost es: seq<Event<TCPSocket>>, ghost k: nat) returns (ok: bool)
      requires Valid() && Serves(g, Clients()) && k < |es| && es[k] == Event(socket, rxTime, m)
      requires Handled(g, waiting, es, k)
      modifies this`forwarded, cidTcpSocket, cidNextExpSeqNum
      modifies fifoSequencer`pendingSize, fifoSequencer.pendingClientRequests
      ensures Valid() && (ok ==> Handled(g, waiting, es, k + 1))
      ensures !ok ==> !Fits(g, waiting, es)
    {
      assert es[..k + 1][..k] == es[..k] && es[..k + 1][k] == es[k];
      ok := HandleFrame(socket, rxTime, m);
      if !ok {
        Refused(Clients(), g, es, k, |waiting|, fifoSequencer.pendingClientRequests.Length);
      }
    }

    /** All these frames are of known clients, and the sequencer has room for what they add. */
    ghost predicate Fits(g: Gate<TCPSocket>, waiting: Requests, es: seq<Event<TCPSocket>>)
      requires Serves(g, Clients())
    {
      InRange(Clients(), es) &&
      |waiting| + |AdmitAll(g, es).forwarded| <= |g.forwarded| + fifoSequencer.pendingClientRequests.Length
    }

    /** Whether a response can be sent. */
    ghost predicate Reachable(r: ClientResponse)
      reads cidTcpSocket
    {
      r.clientId < Clients() && cidTcpSocket[r.clientId] != null
    }

    /** Hands the waiting responses to their clients' sockets, each under its client's next number. */
    method SendResponses(responses: seq<ClientResponse>) returns (ok: bool)
      requires Valid()
      modifies this`sent, cidNextOutgoingSeqNum
      ensures Valid()
      ensures ok <==> forall i :: 0 <= i < |responses| ==> Reachable(responses[i])
      ensures ok ==> sent == old(sent) + Addressed(Stamp(old(cidNextOutgoingSeqNum[..]), responses))
                     && cidNextOutgoingSeqNum[..] == Numbers(old(cidNextOutgoingSeqNum[..]), responses)
    {
      ghost var next, before := cidNextOutgoingSeqNum[..], sent;
      var i := 0;
      while i < |responses|
        invariant i <= |responses| && Valid()
        invariant forall k :: 0 <= k < i ==> Reachable(responses[k])
        invariant sent == before + Addressed(Stamp(next, responses[..i]))
        invariant cidNextOutgoingSeqNum[..] == Numbers(next, responses[..i])
      {
        var r := responses[i];
        if r.clientId >= cidTcpSocket.Length || cidTcpSocket[r.clientId] == null {
          return false;
        }
        assert responses[..i + 1] == responses[..i] + [r];
        StampNext(next, responses[..i], r);
        Send(r);
        i := i + 1;
      }
      assert responses[..i] == responses;
      ok := true;
    }

    /** Every response of every turn can be sent. */
    ghost predicate AllReachable(turns: seq<seq<ClientResponse>>)
      reads cidTcpSocket
    {
      forall i, j :: 0 <= i < |turns| && 0 <= j < |turns[i]| ==> Reachable(turns[i][j])
    }

    /** Turns of the loop, one after the other: each goes on from the numbers that the last one left. */
    method SendInTurns(turns: seq<seq<ClientResponse>>)
      requires Valid() && AllReachable(turns)
      modifies this`sent, cidNextOutgoingSeqNum
      ensures Valid() && forall i :: 0 <= i < |turns| ==> Known(Clients(), turns[i])
      ensures |old(cidNextOutgoingSeqNum[..])| == Clients()
      ensures CanAddress(StampAll(old(cidNextOutgoingSeqNum[..]), turns))
      ensures sent == old(sent) + Addressed(StampAll(old(cidNextOutgoingSeqNum[..]), turns))
      decreases |turns|
    {
      if turns != [] {
        ghost var next, before := cidNextOutgoingSeqNum[..], sent;
        var rest := turns[1..];
        assert forall i :: 0 <= i < |rest| ==> rest[i] == turns[i + 1];
        assert forall j :: 0 <= j < |turns[0]| ==> Reachable(turns[0][j]);
        var ok := SendResponses(turns[0]);
        ghost var ms := Stamp(next, turns[0]);
        ghost var numbers := cidNextOutgoingSeqNum[..];
        SendInTurns(rest);
        AddressedAfter(before, ms, StampAll(numbers, rest), sent);
        assert StampAll(next, turns) == ms + StampAll(numbers, rest);
      }
    }

    ghost predicate CanAddress(ms: seq<OMClientResponse>)
      reads cidTcpSocket
    {
      forall i :: 0 <= i < |ms| ==> Reachable(ms[i].response)
    }

    lemma {:induction false} AddressedAfter(before: seq<Sent>, ms: seq<OMClientResponse>, ns: seq<OMClientResponse>,
                                            now: seq<Sent>)
      requires CanAddress(ms) && CanAddress(ns) && now == before + Addressed(ms) + Addressed(ns)
      ensures CanAddress(ms + ns) && now == before + Addressed(ms + ns)
    {
      assert Addressed(ms + ns) == Addressed(ms) + Addressed(ns);
    }

    ghost function Addressed(ms: seq<OMClientResponse>): (ss: seq<Sent>)
      reads cidTcpSocket
      requires forall i :: 0 <= i < |ms| ==> Reachable(ms[i].response)
    {
      seq(|ms|, i requires 0 <= i < |ms| && Reachable(ms[i].response) reads cidTcpSocket =>
        Sent(cidTcpSocket[ms[i].response.clientId], ms[i]))
    }

    method Send(r: ClientResponse)
      requires Valid() && Reachable(r)
      modifies this`sent, cidNextOutgoingSeqNum
      ensures Valid()
      ensures var m := OMClientResponse(old(cidNextOutgoingSeqNum[r.clientId]), r);
              sent == old(sent) + [Sent(cidTcpSocket[r.clientId], m)]
      ensures cidNextOutgoingSeqNum[..]
                == old(cidNextOutgoingSeqNum[..])[r.clientId := old(cidNextOutgoingSeqNum[r.clientId]) + 1]
    {
      var c := r.clientId;
      sent := sent + [Sent(cidTcpSocket[c], OMClientResponse(cidNextOutgoingSeqNum[c], r))];
      cidNextOutgoingSeqNum[c] := cidNextOutgoingSeqNum[c] + 1;
    }
  }
}

/** The two ends of the order connection and the sequencer behind the server
    (src/order_gateway/gateway_client.cpp, src/include/order_gateway/order_server.hpp,
    src/include/order_gateway/fifo_sequencer.hpp). */
module OrderGateway {
  import opened Types
  import opened Framing
  import opened WireLayout

  const MAX_PENDING_REQUESTS: nat := 1024

  type ResponseRecord = Numbered<ClientResponse>
  type RequestRecord = Numbered<ClientRequest>

  // ---------------------------------------------------------------- the client's end

  /** The responses that are for the client. */
  function ForClient(client: nat, ms: seq<ResponseRecord>): seq<ResponseRecord> {
    if ms == [] then [] else (if ms[0].body.client == client then [ms[0]] else []) + ForClient(client, ms[1..])
  }

  lemma {:induction false} ForClientSplits(client: nat, ms: seq<ResponseRecord>, ns: seq<ResponseRecord>)
    ensures ForClient(client, ms + ns) == ForClient(client, ms) + ForClient(client, ns)
  {
    if ms == [] {
      assert ms + ns == ns;
    } else {
      assert (ms + ns)[1..] == ms[1..] + ns && (ms + ns)[0] == ms[0];
      ForClientSplits(client, ms[1..], ns);
      Grouped(if ms[0].body.client == client then [ms[0]] else [], ForClient(client, ms[1..]), ForClient(client, ns));
    }
  }

  lemma {:induction false} ForClientLast(client: nat, ms: seq<ResponseRecord>, m: ResponseRecord)
    ensures ForClient(client, ms + [m]) == ForClient(client, ms) + if m.body.client == client then [m] else []
  {
    ForClientSplits(client, ms, [m]);
    assert [m][1..] == [];
  }

  lemma {:induction false} MineSplit(client: nat, ms: seq<ResponseRecord>, ns: seq<ResponseRecord>)
    ensures var before := InSequence(1, ForClient(client, ms));
            [] + InSequence(1, ForClient(client, ms + ns)) == before + InSequence(1 + |before|, ForClient(client, ns))
  {
    ForClientSplits(client, ms, ns);
    InSequenceSplits(1, ForClient(client, ms), ForClient(client, ns));
  }

  /** Of the first records of a stream, the client's are the first of its own, in sequence. */
  lemma {:induction false} MineInOrder(client: nat, all: seq<ResponseRecord>, n: nat, rs: seq<ClientResponse>)
    requires n <= |all| && ForClient(client, all) == Number(1, rs)
    ensures var k := |ForClient(client, all[..n])|;
            k <= |rs| && InSequence(1, ForClient(client, all[..n])) == rs[..k] && (n == |all| ==> k == |rs|)
  {
    var mine := ForClient(client, all[..n]);
    ForClientSplits(client, all[..n], all[n..]);
    assert all == all[..n] + all[n..];
    assert mine == Number(1, rs)[..|mine|];
    InSequenceOfSome(rs, |mine|, mine);
    if n == |all| {
      assert all[..n] == all;
    }
  }

  class GatewayClient {
    const client: nat
    const responses: Codec<ResponseRecord>
    const requests: Codec<RequestRecord>
    var inbound: seq<Byte>
    var outbound: seq<Byte>
    var nextExpSeqNum: nat
    var nextOutgoingSeqNum: nat
    /** What has been handed to the trading engine. */
    var delivered: seq<ClientResponse>

    /** The pieces in which bytes have come in. */
    ghost var chunks: seq<seq<Byte>>

    ghost predicate Valid()
      reads this
    {
      && 0 < responses.size
      && inbound == Reassembled(responses, chunks).1
      && Delivered(1, [], Reassembled(responses, chunks).0)
    }

    constructor (client: nat)
      ensures this.client == client && responses == RESPONSES && requests == REQUESTS
      ensures Valid() && chunks == [] && outbound == [] && nextOutgoingSeqNum == 1
    {
      this.client, responses, requests, chunks := client, RESPONSES, REQUESTS, [];
      inbound, outbound, nextExpSeqNum, nextOutgoingSeqNum, delivered := [], [], 1, 1, [];
    }

    /** A piece of the stream comes in, of whatever size. */
    method Receive(chunk: seq<Byte>)
      requires Valid()
      modifies this
      ensures Valid() && chunks == old(chunks) + [chunk]
    {
      ghost var frames, more := Reassembled(responses, chunks).0, Frames(responses, inbound + chunk);
      NextChunk(chunk, frames, more);
      chunks := chunks + [chunk];
      inbound := inbound + chunk;
      RecvCallback();
    }

    /** What one more chunk comes to: the records cut from the buffer follow those cut before. */
    lemma {:induction false} NextChunk(chunk: seq<Byte>, frames: seq<ResponseRecord>, more: seq<ResponseRecord>)
      requires Valid() && frames == Reassembled(responses, chunks).0 && more == Frames(responses, inbound + chunk)
      ensures Reassembled(responses, chunks + [chunk]) == (frames + more, Leftover(responses, inbound + chunk))
      ensures [] + InSequence(1, ForClient(client, frames + more))
              == delivered + InSequence(nextExpSeqNum, ForClient(client, more))
    {
      assert (chunks + [chunk])[..|chunks|] == chunks;
      MineSplit(client, frames, more);
      assert Delivered(1, [], frames);
      assert [] + InSequence(1, ForClient(client, frames)) == delivered;
    }

    /** However the stream of the client's socket is cut into pieces: if its records for the client are `rs` numbered
        from 1, the client has taken those that have arrived whole, all of them and in order; none of its records
        ever failed a check. */
    lemma {:induction false} NothingLost(all: seq<ResponseRecord>, rs: seq<ClientResponse>, rest: seq<Byte>)
      requires Valid() && responses == RESPONSES && AllFit(responses, all) && Concat(chunks) + rest == Stream(responses, all)
      requires ForClient(client, all) == Number(1, rs)
      ensures |delivered| <= |rs| && delivered == rs[..|delivered|]
      ensures |delivered| == |ForClient(client, Reassembled(responses, chunks).0)|
      ensures rest == [] ==> delivered == rs
    {
      var frames := Reassembled(responses, chunks).0;
      ResponsesAreLawful();
      ChunkingIsIrrelevant(responses, chunks);
      FramesOfStream(responses, all, Concat(chunks), rest, frames);
      MineInOrder(client, all, |frames|, rs);
    }

    /** Cuts the whole records off the buffer and hands on those that are the client's and in sequence. */
    method RecvCallback()
      requires 0 < responses.size
      modifies this`inbound, this`nextExpSeqNum, this`delivered
      ensures inbound == Leftover(responses, old(inbound))
      ensures Delivered(old(nextExpSeqNum), old(delivered), Frames(responses, old(inbound)))
    {
      ghost var cut: seq<ResponseRecord> := [];
      assert Delivered(nextExpSeqNum, delivered, cut);
      if |inbound| >= responses.size {
        var i := 0;
        while i + responses.size <= |inbound|
          invariant 0 <= i <= |inbound| && inbound == old(inbound) && CutTo(responses, inbound, i, cut)
          invariant Delivered(old(nextExpSeqNum), old(delivered), cut)
        {
          var response := responses.decode(inbound[i..i + responses.size]);
          CutNext(responses, inbound, i, cut, response);
          Take(response, old(nextExpSeqNum), old(delivered), cut);
          cut := cut + [response];
          i := i + responses.size;
        }
        CutAll(responses, inbound, i, cut);
        inbound := inbound[i..];
      }
    }

    /** What has been delivered once the records `cut` have been taken from the state at the start of a callback. */
    ghost predicate Delivered(k: nat, before: seq<ClientResponse>, cut: seq<ResponseRecord>)
      reads this`delivered, this`nextExpSeqNum
    {
      var got := InSequence(k, ForClient(client, cut));
      delivered == before + got && nextExpSeqNum == k + |got|
    }

    /** The checks of RecvCallback on one record. */
    method Take(response: ResponseRecord, ghost k: nat, ghost before: seq<ClientResponse>, ghost cut: seq<ResponseRecord>)
      requires Delivered(k, before, cut)
      modifies this`nextExpSeqNum, this`delivered
      ensures Delivered(k, before, cut + [response])
    {
      Taken(k, cut, response);
      if response.body.client != client {
        return;
      }
      if response.seqNum != nextExpSeqNum {
        return;
      }
      nextExpSeqNum := nextExpSeqNum + 1;
      delivered := delivered + [response.body];
    }

    /** One more record is taken exactly when it is the client's and the next in sequence. */
    lemma {:induction false} Taken(k: nat, cut: seq<ResponseRecord>, m: ResponseRecord)
      ensures var before := InSequence(k, ForClient(client, cut));
              InSequence(k, ForClient(client, cut + [m]))
              == if m.body.client == client && m.seqNum == k + |before| then before + [m.body] else before
    {
      ForClientLast(client, cut, m);
      if m.body.client == client {
        OneMoreInSequence(k, ForClient(client, cut), m);
      } else {
        assert ForClient(client, cut) + [] == ForClient(client, cut);
      }
    }

    /** Requests leave numbered on from the last, one record each. */
    method Run(batch: seq<ClientRequest>, ghost sent: seq<ClientRequest>)
      requires nextOutgoingSeqNum == |sent| + 1 && outbound == Stream(requests, Number(1, sent))
      modifies this`outbound, this`nextOutgoingSeqNum
      ensures nextOutgoingSeqNum == |sent + batch| + 1 && outbound == Stream(requests, Number(1, sent + batch))
    {
      var i := 0;
      assert sent + batch[..0] == sent;
      while i < |batch|
        invariant 0 <= i <= |batch| && nextOutgoingSeqNum == |sent| + i + 1
        invariant outbound == Stream(requests, Number(1, sent + batch[..i]))
      {
        var m := Numbered(nextOutgoingSeqNum, batch[i]);
        StreamLast(requests, Number(1, sent + batch[..i]), m);
        assert Number(1, sent + batch[..i + 1]) == Number(1, sent + batch[..i]) + [m];
        outbound := outbound + requests.encode(m);
        nextOutgoingSeqNum := nextOutgoingSeqNum + 1;
        i := i + 1;
      }
      assert batch[..i] == batch;
    }
  }

  // ---------------------------------------------------------------- the server's end

  /** A request taken from the wire: the socket it came in on and when, its number, and itself. */
  datatype Arrival = Arrival(socket: nat, time: nat, seqNum: nat, request: ClientRequest)

  /** The socket each client is bound to, the number expected from it, and everything taken so far. */
  datatype Intake = Intake(sockets: seq<Option<nat>>, nextExp: seq<nat>, taken: seq<Arrival>)

  predicate Sized(s: Intake) {
    |s.sockets| == |s.nextExp| == MAX_CLIENTS
  }

  /** One record of OrderServer::RecvCallback: a client is bound to the first socket it is seen on; a request from
      another socket or out of sequence is dropped. */
  function Handle(s: Intake, socket: nat, time: nat, m: RequestRecord): (r: Intake)
    requires Sized(s) && m.body.client < MAX_CLIENTS
    ensures Sized(r)
  {
    var c := m.body.client;
    var bound := s.(sockets := if s.sockets[c] == None then s.sockets[c := Some(socket)] else s.sockets);
    if bound.sockets[c] != Some(socket) || m.seqNum != s.nextExp[c] then bound
    else bound.(nextExp := s.nextExp[c := s.nextExp[c] + 1], taken := s.taken + [Arrival(socket, time, m.seqNum, m.body)])
  }

  predicate KnownClients(ms: seq<RequestRecord>) {
    forall m :: m in ms ==> m.body.client < MAX_CLIENTS
  }

  function HandleAll(s: Intake, socket: nat, time: nat, ms: seq<RequestRecord>): (r: Intake)
    requires Sized(s) && KnownClients(ms)
    ensures Sized(r)
  {
    if ms == [] then s
    else
      assert ms[|ms| - 1] in ms;
      Handle(HandleAll(s, socket, time, ms[..|ms| - 1]), socket, time, ms[|ms| - 1])
  }

  /** The numbers of the requests taken from client `c`. */
  function NumbersOf(ts: seq<Arrival>, c: nat): seq<nat> {
    if ts == [] then []
    else NumbersOf(ts[..|ts| - 1], c) + if ts[|ts| - 1].request.client == c then [ts[|ts| - 1].seqNum] else []
  }

  /** From every client exactly the numbers 1, 2, 3 and so on have been taken. */
  ghost predicate Consecutive(s: Intake) {
    && Sized(s)
    && forall c :: 0 <= c < MAX_CLIENTS ==>
         && s.nextExp[c] == |NumbersOf(s.taken, c)| + 1
         && forall i :: 0 <= i < |NumbersOf(s.taken, c)| ==> NumbersOf(s.taken, c)[i] == i + 1
  }

  lemma HandleKeepsConsecutive(s: Intake, socket: nat, time: nat, m: RequestRecord)
    requires Consecutive(s) && m.body.client < MAX_CLIENTS
    ensures Consecutive(Handle(s, socket, time, m))
  {
    var r := Handle(s, socket, time, m);
    if r.taken != s.taken {
      assert r.taken[..|r.taken| - 1] == s.taken;
      forall c | 0 <= c < MAX_CLIENTS
        ensures r.nextExp[c] == |NumbersOf(r.taken, c)| + 1
        ensures forall i :: 0 <= i < |NumbersOf(r.taken, c)| ==> NumbersOf(r.taken, c)[i] == i + 1
      {
        assert NumbersOf(r.taken, c) == NumbersOf(s.taken, c) + if m.body.client == c then [m.seqNum] else [];
      }
    }
  }

  /** Whatever arrives on whatever sockets, the numbers taken from each client are 1, 2, 3 and so on. */
  lemma {:induction false} AlwaysConsecutive(s: Intake, socket: nat, time: nat, ms: seq<RequestRecord>)
    requires Consecutive(s) && KnownClients(ms)
    ensures Consecutive(HandleAll(s, socket, time, ms))
  {
    if ms != [] {
      assert ms[|ms| - 1] in ms;
      AlwaysConsecutive(s, socket, time, ms[..|ms| - 1]);
      HandleKeepsConsecutive(HandleAll(s, socket, time, ms[..|ms| - 1]), socket, time, ms[|ms| - 1]);
    }
  }

  // ---------------------------------------------------------------- what is dropped

  /** A request on another socket than the one its client is bound to is dropped. */
  lemma ForeignIsDropped(s: Intake, socket: nat, time: nat, m: RequestRecord)
    requires Sized(s) && m.body.client < MAX_CLIENTS
    requires s.sockets[m.body.client].Some? && s.sockets[m.body.client] != Some(socket)
    ensures Handle(s, socket, time, m) == s
  {
  }

  /** So is one out of its turn; if it is the first of its client, the client is bound all the same. */
  lemma OutOfTurnIsDropped(s: Intake, socket: nat, time: nat, m: RequestRecord)
    requires Sized(s) && m.body.client < MAX_CLIENTS && m.seqNum != s.nextExp[m.body.client]
    ensures var e := Handle(s, socket, time, m);
            && e.taken == s.taken && e.nextExp == s.nextExp
            && e.sockets == if s.sockets[m.body.client] == None then s.sockets[m.body.client := Some(socket)] else s.sockets
  {
  }

  /** The records of client `c`. */
  function FromClient(c: nat, ms: seq<RequestRecord>): seq<RequestRecord> {
    if ms == [] then []
    else FromClient(c, ms[..|ms| - 1]) + if ms[|ms| - 1].body.client == c then [ms[|ms| - 1]] else []
  }

  /** The requests taken from client `c`. */
  function RequestsOf(c: nat, ts: seq<Arrival>): seq<ClientRequest> {
    if ts == [] then []
    else RequestsOf(c, ts[..|ts| - 1]) + if ts[|ts| - 1].request.client == c then [ts[|ts| - 1].request] else []
  }

  /** What the server knows of client `c`, which is bound to `k` and has sent the records `mine` there: they have been
      taken as far as they were in sequence, and nothing has been taken from it anywhere else. */
  ghost predicate Tracks(s: Intake, c: nat, k: Option<nat>, mine: seq<RequestRecord>) {
    && Sized(s) && c < MAX_CLIENTS && s.sockets[c] == k && (k == None ==> mine == [])
    && RequestsOf(c, s.taken) == InSequence(1, mine) && s.nextExp[c] == 1 + |InSequence(1, mine)|
    && forall i :: 0 <= i < |s.taken| && s.taken[i].request.client == c ==> k == Some(s.taken[i].socket)
  }

  /** The socket client `c` is bound to once `ms` have come in on `socket`. */
  function BoundBy(c: nat, k: Option<nat>, socket: nat, ms: seq<RequestRecord>): Option<nat> {
    if k == None && FromClient(c, ms) != [] then Some(socket) else k
  }

  lemma HandleTracks(s: Intake, c: nat, k: Option<nat>, mine: seq<RequestRecord>, socket: nat, time: nat,
                     m: RequestRecord, k': Option<nat>)
    requires Tracks(s, c, k, mine) && m.body.client < MAX_CLIENTS
    requires k' == if k == None && m.body.client == c then Some(socket) else k
    ensures Tracks(Handle(s, socket, time, m), c, k', mine + if m.body.client == c && k' == Some(socket) then [m] else [])
  {
    var e := Handle(s, socket, time, m);
    if e.taken != s.taken {
      assert e.taken[..|e.taken| - 1] == s.taken;
    }
    OneMoreInSequence(1, mine, m);
    assert mine + [] == mine;
  }

  lemma {:induction false} AllTracked(s: Intake, c: nat, k: Option<nat>, mine: seq<RequestRecord>, socket: nat, time: nat,
                                      ms: seq<RequestRecord>)
    requires Tracks(s, c, k, mine) && KnownClients(ms)
    ensures var k' := BoundBy(c, k, socket, ms);
            Tracks(HandleAll(s, socket, time, ms), c, k', mine + if k' == Some(socket) then FromClient(c, ms) else [])
  {
    if ms == [] {
      assert mine + [] == mine;
    } else {
      var m := |ms| - 1;
      assert ms[m] in ms;
      AllTracked(s, c, k, mine, socket, time, ms[..m]);
      var k1 := BoundBy(c, k, socket, ms[..m]);
      var mine1 := mine + if k1 == Some(socket) then FromClient(c, ms[..m]) else [];
      HandleTracks(HandleAll(s, socket, time, ms[..m]), c, k1, mine1, socket, time, ms[m], BoundBy(c, k, socket, ms));
      Grouped(mine, FromClient(c, ms[..m]), if ms[m].body.client == c then [ms[m]] else []);
    }
  }

  // ---------------------------------------------------------------- over any callbacks

  /** What one call of RecvCallback finds on a socket. */
  datatype Callback = Callback(socket: nat, time: nat, records: seq<RequestRecord>)

  function NewIntake(): (r: Intake)
    ensures Sized(r)
  {
    Intake(seq(MAX_CLIENTS, _ => None), seq(MAX_CLIENTS, _ => 1), [])
  }

  predicate AllKnown(cs: seq<Callback>) {
    forall i :: 0 <= i < |cs| ==> KnownClients(cs[i].records)
  }

  function TakeAll(cs: seq<Callback>): (r: Intake)
    requires AllKnown(cs)
    ensures Sized(r)
  {
    if cs == [] then NewIntake()
    else HandleAll(TakeAll(cs[..|cs| - 1]), cs[|cs| - 1].socket, cs[|cs| - 1].time, cs[|cs| - 1].records)
  }

  /** The socket on which client `c` was first seen. */
  function FirstSocket(c: nat, cs: seq<Callback>): Option<nat> {
    if cs == [] then None
    else if FirstSocket(c, cs[..|cs| - 1]).Some? then FirstSocket(c, cs[..|cs| - 1])
    else if FromClient(c, cs[|cs| - 1].records) != [] then Some(cs[|cs| - 1].socket)
    else None
  }

  /** The records of client `c` that came in on socket `k`. */
  function OnSocket(c: nat, k: nat, cs: seq<Callback>): seq<RequestRecord> {
    if cs == [] then []
    else OnSocket(c, k, cs[..|cs| - 1]) + if cs[|cs| - 1].socket == k then FromClient(c, cs[|cs| - 1].records) else []
  }

  lemma {:induction false} UnseenHasNone(c: nat, k: nat, cs: seq<Callback>)
    requires FirstSocket(c, cs) == None
    ensures OnSocket(c, k, cs) == []
  {
    if cs != [] {
      UnseenHasNone(c, k, cs[..|cs| - 1]);
    }
  }

  /** Whatever comes in on whatever sockets: from each client exactly those requests are taken that are in sequence
      among its records on the one socket it was first seen on. */
  lemma {:induction false} TakenExactly(c: nat, cs: seq<Callback>)
    requires c < MAX_CLIENTS && AllKnown(cs)
    ensures var k := FirstSocket(c, cs);
            Tracks(TakeAll(cs), c, k, if k == None then [] else OnSocket(c, k.value, cs))
  {
    if cs != [] {
      var m := |cs| - 1;
      var before := cs[..m];
      TakenExactly(c, before);
      var k := FirstSocket(c, before);
      AllTracked(TakeAll(before), c, k, if k == None then [] else OnSocket(c, k.value, before), cs[m].socket, cs[m].time,
                 cs[m].records);
      if k == None {
        UnseenHasNone(c, cs[m].socket, before);
      }
    }
  }

  // ---------------------------------------------------------------- a client's own stream

  /** The arrivals on one socket of requests numbered from `n` on. */
  function Arrivals(socket: nat, time: nat, n: nat, rs: seq<ClientRequest>): seq<Arrival> {
    if rs == [] then []
    else Arrivals(socket, time, n, rs[..|rs| - 1]) + [Arrival(socket, time, n + |rs| - 1, rs[|rs| - 1])]
  }

  lemma {:induction false} HandleLast(s: Intake, socket: nat, time: nat, ms: seq<RequestRecord>, m: RequestRecord, all: seq<RequestRecord>)
    requires Sized(s) && all == ms + [m] && KnownClients(all)
    ensures KnownClients(ms) && m.body.client < MAX_CLIENTS
    ensures HandleAll(s, socket, time, all) == Handle(HandleAll(s, socket, time, ms), socket, time, m)
  {
    assert all[|ms|] == m && all[..|ms|] == ms;
    forall x | x in ms ensures x.body.client < MAX_CLIENTS {
      assert x in all;
    }
  }

  lemma InTurn(s: Intake, socket: nat, time: nat, m: RequestRecord)
    requires Sized(s) && m.body.client < MAX_CLIENTS && m.seqNum == s.nextExp[m.body.client]
    requires s.sockets[m.body.client] == None || s.sockets[m.body.client] == Some(socket)
    ensures var e := Handle(s, socket, time, m);
            && e.taken == s.taken + [Arrival(socket, time, m.seqNum, m.body)] && e.nextExp[m.body.client] == m.seqNum + 1
            && e.sockets[m.body.client] == Some(socket)
  {
  }

  /** A client's own numbered stream on its own socket is taken whole and in order. */
  lemma {:induction false} OwnStreamTaken(s: Intake, socket: nat, time: nat, client: nat, rs: seq<ClientRequest>,
                                          ms: seq<RequestRecord>, e: Intake)
    requires Sized(s) && client < MAX_CLIENTS && (s.sockets[client] == None || s.sockets[client] == Some(socket))
    requires (forall r :: r in rs ==> r.client == client) && ms == Number(s.nextExp[client], rs)
    requires KnownClients(ms) && e == HandleAll(s, socket, time, ms)
    ensures e.taken == s.taken + Arrivals(socket, time, s.nextExp[client], rs) && e.nextExp[client] == s.nextExp[client] + |rs|
    ensures e.sockets[client] == None || e.sockets[client] == Some(socket)
    decreases |rs|
  {
    if rs != [] {
      var n, before, r := s.nextExp[client], rs[..|rs| - 1], rs[|rs| - 1];
      var first, m := ms[..|ms| - 1], Numbered(n + |before|, r);
      assert r in rs && ms == first + [m];
      HandleLast(s, socket, time, first, m, ms);
      var mid := HandleAll(s, socket, time, first);
      OwnStreamTaken(s, socket, time, client, before, first, mid);
      OneMoreTaken(s.taken, mid, socket, time, n, rs, m, e);
    }
  }

  lemma {:induction false} OneMoreTaken(taken: seq<Arrival>, mid: Intake, socket: nat, time: nat, n: nat, rs: seq<ClientRequest>,
                                        m: RequestRecord, e: Intake)
    requires rs != [] && m == Numbered(n + |rs| - 1, rs[|rs| - 1]) && Sized(mid) && m.body.client < MAX_CLIENTS
    requires mid.sockets[m.body.client] == None || mid.sockets[m.body.client] == Some(socket)
    requires mid.nextExp[m.body.client] == m.seqNum && mid.taken == taken + Arrivals(socket, time, n, rs[..|rs| - 1])
    requires e == Handle(mid, socket, time, m)
    ensures e.taken == taken + Arrivals(socket, time, n, rs) && e.nextExp[m.body.client] == n + |rs|
    ensures e.sockets[m.body.client] == Some(socket)
  {
    InTurn(mid, socket, time, m);
    Grouped(taken, Arrivals(socket, time, n, rs[..|rs| - 1]), [Arrival(socket, time, m.seqNum, m.body)]);
  }
}

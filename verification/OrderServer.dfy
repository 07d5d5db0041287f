/** The order server's loops and the sequencer they feed
    (src/include/order_gateway/order_server.hpp, src/include/order_gateway/fifo_sequencer.hpp). */
module OrderServerClass {
  import opened Types
  import opened Framing
  import opened WireLayout
  import opened OrderGateway

  // ---------------------------------------------------------------- sequencing by receive time

  datatype Timed = Timed(time: nat, request: ClientRequest)

  ghost predicate InTimeOrder(ts: seq<Timed>) {
    forall i, j :: 0 <= i < j < |ts| ==> ts[i].time <= ts[j].time
  }

  /** What std::sort may leave of a batch: the batch in time order, equal times in any order. */
  ghost predicate Sequencing(batch: seq<Timed>, order: seq<Timed>) {
    InTimeOrder(order) && multiset(order) == multiset(batch)
  }

  function Requests(ts: seq<Timed>): (r: seq<ClientRequest>)
    ensures |r| == |ts| && forall i :: 0 <= i < |ts| ==> r[i] == ts[i].request
  {
    seq(|ts|, i requires 0 <= i < |ts| => ts[i].request)
  }

  /** Different requests of a batch came in at different times. */
  ghost predicate TimesTellApart(batch: seq<Timed>) {
    forall x, y :: x in batch && y in batch && x.time == y.time ==> x == y
  }

  lemma SameMembers(a: seq<Timed>, b: seq<Timed>)
    requires multiset(a) == multiset(b)
    ensures forall x :: x in a ==> x in b
    ensures forall x :: x in b ==> x in a
    ensures |a| == |b|
  {
    forall x | x in a ensures x in b {
      assert x in multiset(a);
    }
    forall x | x in b ensures x in a {
      assert x in multiset(b);
    }
    assert |multiset(a)| == |multiset(b)|;
  }

  lemma SameFirst(a: seq<Timed>, b: seq<Timed>)
    requires InTimeOrder(a) && InTimeOrder(b) && multiset(a) == multiset(b) && TimesTellApart(a) && a != []
    ensures b != [] && a[0] == b[0]
  {
    SameMembers(a, b);
    assert a[0] in a && b[0] in b;
  }

  lemma WithoutFirst(a: seq<Timed>)
    requires a != []
    ensures multiset(a[1..]) == multiset(a) - multiset{a[0]}
    ensures InTimeOrder(a) ==> InTimeOrder(a[1..])
    ensures TimesTellApart(a) ==> TimesTellApart(a[1..])
  {
    assert a == [a[0]] + a[1..];
  }

  lemma {:induction false} OneOrder(a: seq<Timed>, b: seq<Timed>)
    requires InTimeOrder(a) && InTimeOrder(b) && multiset(a) == multiset(b) && TimesTellApart(a)
    ensures a == b
  {
    if a == [] {
      SameMembers(a, b);
    } else {
      SameFirst(a, b);
      WithoutFirst(a);
      WithoutFirst(b);
      OneOrder(a[1..], b[1..]);
      SameParts(a, b);
    }
  }

  lemma SameParts(a: seq<Timed>, b: seq<Timed>)
    requires a != [] && b != [] && a[0] == b[0] && a[1..] == b[1..]
    ensures a == b
  {
    assert a == [a[0]] + a[1..] && b == [b[0]] + b[1..];
  }

  lemma SwapKeepsMembers(a: seq<Timed>, p: nat, q: nat)
    requires p < q < |a|
    ensures multiset(a[p := a[q]][q := a[p]]) == multiset(a)
  {
  }

  /** Equal times leave the order open: with two different requests of one time there is another order. */
  lemma AnotherOrder(a: seq<Timed>, p: nat, q: nat) returns (b: seq<Timed>)
    requires InTimeOrder(a) && p < q < |a| && a[p].time == a[q].time && a[p] != a[q]
    ensures Sequencing(a, b) && b != a
  {
    b := a[p := a[q]][q := a[p]];
    SwapKeepsMembers(a, p, q);
    assert b[p] == a[q];
  }

  /** The order in which a batch is published is determined exactly when its receive times tell the requests apart. */
  lemma OrderDetermined(batch: seq<Timed>, order: seq<Timed>)
    requires Sequencing(batch, order)
    ensures TimesTellApart(batch) <==> forall other :: Sequencing(batch, other) ==> other == order
  {
    SameMembers(batch, order);
    if TimesTellApart(batch) {
      forall other | Sequencing(batch, other) ensures other == order {
        OneOrder(order, other);
      }
    } else {
      var x, y :| x in batch && y in batch && x.time == y.time && x != y;
      var p :| 0 <= p < |order| && order[p] == x;
      var q :| 0 <= q < |order| && order[q] == y;
      var other := AnotherOrder(order, if p < q then p else q, if p < q then q else p);
      assert Sequencing(batch, other);
    }
  }

  lemma PlacedMembers(sorted: seq<Timed>, k: nat, x: Timed)
    requires k <= |sorted|
    ensures multiset(sorted[..k] + [x] + sorted[k..]) == multiset(sorted) + multiset{x}
  {
    assert sorted == sorted[..k] + sorted[k..];
  }

  lemma PlacedOrder(sorted: seq<Timed>, k: nat, x: Timed, r: seq<Timed>)
    requires InTimeOrder(sorted) && k <= |sorted| && |r| == |sorted| + 1 && r[k] == x
    requires forall j :: 0 <= j < k ==> r[j] == sorted[j] && sorted[j].time <= x.time
    requires forall j :: k < j < |r| ==> r[j] == sorted[j - 1] && x.time < sorted[j - 1].time
    ensures InTimeOrder(r)
  {
  }

  class FifoSequencer {
    var pending: seq<Timed>
    /** What has been written to the matching engine's queue. */
    var published: seq<ClientRequest>

    constructor ()
      ensures pending == [] && published == []
    {
      pending, published := [], [];
    }

    method AddClientRequest(time: nat, request: ClientRequest)
      requires |pending| < MAX_PENDING_REQUESTS
      modifies this`pending
      ensures pending == old(pending) + [Timed(time, request)]
    {
      pending := pending + [Timed(time, request)];
    }

    /** Puts one more element in its place. */
    method Place(sorted: seq<Timed>, x: Timed) returns (r: seq<Timed>)
      requires InTimeOrder(sorted)
      ensures InTimeOrder(r) && multiset(r) == multiset(sorted) + multiset{x}
    {
      var k := |sorted|;
      while k > 0 && sorted[k - 1].time > x.time
        invariant 0 <= k <= |sorted|
        invariant forall j :: k <= j < |sorted| ==> x.time < sorted[j].time
      {
        k := k - 1;
      }
      PlacedMembers(sorted, k, x);
      r := sorted[..k] + [x] + sorted[k..];
      assert forall j :: 0 <= j < k ==> sorted[j].time <= sorted[k - 1].time;
      PlacedOrder(sorted, k, x, r);
    }

    /** Publishes the batch in time order and empties it. */
    method SequenceAndPublish() returns (ghost order: seq<Timed>)
      modifies this
      ensures Sequencing(old(pending), order) && pending == [] && published == old(published) + Requests(order)
    {
      order := [];
      if |pending| == 0 {
        assert Requests(order) == [];
        return;
      }
      var sorted: seq<Timed> := [];
      var n := 0;
      while n < |pending|
        invariant 0 <= n <= |pending| && pending == old(pending) && published == old(published)
        invariant Sequencing(pending[..n], sorted)
      {
        sorted := Place(sorted, pending[n]);
        assert pending[..n + 1] == pending[..n] + [pending[n]];
        n := n + 1;
      }
      assert pending[..n] == pending;
      var i := 0;
      while i < |sorted|
        invariant 0 <= i <= |sorted| && published == old(published) + Requests(sorted[..i])
      {
        assert Requests(sorted[..i + 1]) == Requests(sorted[..i]) + [sorted[i].request];
        published := published + [sorted[i].request];
        i := i + 1;
      }
      assert sorted[..i] == sorted;
      pending, order := [], sorted;
    }
  }

  // ---------------------------------------------------------------- the server

  function Waiting(ts: seq<Arrival>): (r: seq<Timed>)
    ensures |r| == |ts|
  {
    if ts == [] then []
    else Waiting(ts[..|ts| - 1]) + [Timed(ts[|ts| - 1].time, ts[|ts| - 1].request)]
  }

  class OrderServer {
    const requests: Codec<RequestRecord>
    const responses: Codec<ResponseRecord>
    const sequencer: FifoSequencer
    /** Bytes that have come in on each socket, and bytes to go out on it. */
    var inbound: map<nat, seq<Byte>>
    var outbound: map<nat, seq<Byte>>
    var cidSocket: seq<Option<nat>>
    var cidNextExpSeqNum: seq<nat>
    var cidNextOutgoingSeqNum: seq<nat>

    /** Every request taken so far. */
    ghost var taken: seq<Arrival>

    /** Every response sent so far, and the records that went out on each socket. */
    ghost var served: seq<ClientResponse>
    ghost var log: map<nat, seq<ResponseRecord>>

    /** The bytes of a socket are those of its records. */
    ghost predicate SocketOk(k: nat)
      reads this`outbound, this`log
    {
      (if k in outbound then outbound[k] else []) == Stream(responses, Log(k))
    }

    ghost function Log(k: nat): seq<ResponseRecord>
      reads this`log
    {
      if k in log then log[k] else []
    }

    /** A client's next number follows what it was sent, which is nothing before it is bound to a socket. */
    ghost predicate ClientOk(c: nat)
      reads this`cidSocket, this`cidNextOutgoingSeqNum, this`served
    {
      && c < |cidSocket| && c < |cidNextOutgoingSeqNum|
      && cidNextOutgoingSeqNum[c] == |To(c, served)| + 1
      && (cidSocket[c] == None ==> To(c, served) == [])
    }

    /** A client's records are on its socket alone: its responses in order, numbered from 1. */
    ghost predicate Routed(c: nat, k: nat)
      reads this`cidSocket, this`log, this`served
    {
      c < |cidSocket| && ForClient(c, Log(k)) == if cidSocket[c] == Some(k) then Number(1, To(c, served)) else []
    }

    ghost predicate Sent()
      reads this`cidSocket, this`cidNextOutgoingSeqNum, this`outbound, this`log, this`served
    {
      && (forall k: nat {:trigger SocketOk(k)} :: SocketOk(k))
      && (forall c: nat {:trigger ClientOk(c)} :: c < MAX_CLIENTS ==> ClientOk(c))
      && (forall c: nat, k: nat {:trigger Routed(c, k)} :: c < MAX_CLIENTS ==> Routed(c, k))
    }

    ghost predicate Valid()
      reads this`cidSocket, this`cidNextExpSeqNum, this`cidNextOutgoingSeqNum, this`outbound, this`log, this`served
    {
      && 0 < requests.size
      && |cidSocket| == |cidNextExpSeqNum| == |cidNextOutgoingSeqNum| == MAX_CLIENTS
      && Sent()
    }

    ghost function State(): Intake
      reads this`cidSocket, this`cidNextExpSeqNum, this`taken
    {
      Intake(cidSocket, cidNextExpSeqNum, taken)
    }

    constructor ()
      ensures Valid() && fresh(sequencer) && sequencer.pending == [] && inbound == map[] && served == []
      ensures requests == REQUESTS && responses == RESPONSES && Consecutive(State())
      ensures Heard([])
    {
      requests, responses := REQUESTS, RESPONSES;
      sequencer := new FifoSequencer();
      inbound, outbound := map[], map[];
      cidSocket := seq(MAX_CLIENTS, _ => None);
      cidNextExpSeqNum := seq(MAX_CLIENTS, _ => 1);
      cidNextOutgoingSeqNum := seq(MAX_CLIENTS, _ => 1);
      taken, served, log := [], [], map[];
    }

    /** A client not seen before is bound to the socket. */
    method Bind(c: nat, socket: nat)
      requires Valid() && c < MAX_CLIENTS && cidSocket[c] == None
      modifies this`cidSocket
      ensures Valid() && cidSocket == old(cidSocket)[c := Some(socket)]
    {
      cidSocket := cidSocket[c := Some(socket)];
      forall d: nat | d < MAX_CLIENTS ensures ClientOk(d) {
        assert old(ClientOk(d));
      }
      forall d: nat, k: nat | d < MAX_CLIENTS ensures Routed(d, k) {
        assert old(Routed(d, k)) && old(ClientOk(d));
      }
    }

    /** What was taken since `n`, as it waits in the sequencer. */
    ghost predicate Queued(n: nat, before: seq<Timed>)
      reads this`taken, sequencer
    {
      n <= |taken| && sequencer.pending == before + Waiting(taken[n..])
    }

    /** The checks of RecvCallback on one record. */
    method Take(m: RequestRecord, socket: nat, time: nat,
                ghost before: Intake, ghost cut: seq<RequestRecord>, ghost n: nat, ghost waited: seq<Timed>)
      requires Valid() && m.body.client < MAX_CLIENTS && |sequencer.pending| < MAX_PENDING_REQUESTS
      requires Handled(before, socket, time, cut) && Queued(n, waited)
      modifies this`cidSocket, this`cidNextExpSeqNum, this`taken, sequencer`pending
      ensures Valid() && Handled(before, socket, time, cut + [m]) && Queued(n, waited)
      ensures |sequencer.pending| <= old(|sequencer.pending|) + 1
    {
      var c := m.body.client;
      assert (cut + [m])[..|cut|] == cut;
      if cidSocket[c] == None {
        Bind(c, socket);
      }
      if cidSocket[c] != Some(socket) {
        return;
      }
      if m.seqNum != cidNextExpSeqNum[c] {
        return;
      }
      Accept(m, socket, time, n, waited);
    }

    /** The record is taken and waits in the sequencer. */
    method Accept(m: RequestRecord, socket: nat, time: nat, ghost n: nat, ghost waited: seq<Timed>)
      requires Valid() && m.body.client < MAX_CLIENTS && |sequencer.pending| < MAX_PENDING_REQUESTS && Queued(n, waited)
      modifies this`cidNextExpSeqNum, this`taken, sequencer`pending
      ensures Valid() && Queued(n, waited) && |sequencer.pending| == old(|sequencer.pending|) + 1
      ensures State() == old(State()).(nextExp := old(cidNextExpSeqNum)[m.body.client := old(cidNextExpSeqNum)[m.body.client] + 1],
                                       taken := old(taken) + [Arrival(socket, time, m.seqNum, m.body)])
    {
      var c := m.body.client;
      cidNextExpSeqNum := cidNextExpSeqNum[c := cidNextExpSeqNum[c] + 1];
      sequencer.AddClientRequest(time, m.body);
      taken := taken + [Arrival(socket, time, m.seqNum, m.body)];
      assert taken[n..][..|taken[n..]| - 1] == old(taken)[n..];
    }

    /** Cuts the whole records off the socket's buffer and takes them in turn. */
    method RecvCallback(socket: nat, time: nat)
      requires Valid() && socket in inbound && KnownClients(Frames(requests, inbound[socket]))
      requires |sequencer.pending| + |Frames(requests, inbound[socket])| <= MAX_PENDING_REQUESTS
      modifies this`inbound, this`cidSocket, this`cidNextExpSeqNum, this`taken, sequencer`pending
      ensures Valid() && inbound == old(inbound)[socket := Leftover(requests, old(inbound)[socket])]
      ensures Handled(old(State()), socket, time, Frames(requests, old(inbound)[socket]))
      ensures Queued(|old(taken)|, old(sequencer.pending))
    {
      var data := inbound[socket];
      if |data| >= requests.size {
        var i := 0;
        ghost var cut: seq<RequestRecord> := [];
        while i + requests.size <= |data|
          invariant 0 <= i <= |data| && Valid() && inbound == old(inbound) && CutTo(requests, data, i, cut)
          invariant Handled(old(State()), socket, time, cut) && Queued(|old(taken)|, old(sequencer.pending))
          invariant |sequencer.pending| <= old(|sequencer.pending|) + |cut|
        {
          var m := requests.decode(data[i..i + requests.size]);
          CutNext(requests, data, i, cut, m);
          Take(m, socket, time, old(State()), cut, |old(taken)|, old(sequencer.pending));
          cut := cut + [m];
          i := i + requests.size;
        }
        CutAll(requests, data, i, cut);
        inbound := inbound[socket := data[i..]];
      }
    }

    /** The server has been called back with `cs` and with nothing else. */
    ghost predicate Heard(cs: seq<Callback>)
      reads this`cidSocket, this`cidNextExpSeqNum, this`taken
    {
      AllKnown(cs) && State() == TakeAll(cs)
    }

    /** One more call of RecvCallback. */
    twostate lemma HeardNext(new cs: seq<Callback>, new socket: nat, new time: nat, new records: seq<RequestRecord>)
      requires old(Heard(cs)) && Handled(old(State()), socket, time, records)
      ensures Heard(cs + [Callback(socket, time, records)])
    {
      assert (cs + [Callback(socket, time, records)])[..|cs|] == cs;
    }

    /** From each client the server has taken exactly the requests in sequence among those that came in on the socket it
        was first seen on. */
    lemma {:induction false} TakenFromOneSocket(c: nat, cs: seq<Callback>)
      requires Heard(cs) && c < MAX_CLIENTS
      ensures var k := FirstSocket(c, cs);
              && |cidSocket| == MAX_CLIENTS && cidSocket[c] == k
              && RequestsOf(c, taken) == (if k == None then [] else InSequence(1, OnSocket(c, k.value, cs)))
              && forall i :: 0 <= i < |taken| && taken[i].request.client == c ==> k == Some(taken[i].socket)
    {
      TakenExactly(c, cs);
    }

    ghost predicate Handled(before: Intake, socket: nat, time: nat, cut: seq<RequestRecord>)
      reads this`cidSocket, this`cidNextExpSeqNum, this`taken
    {
      Sized(before) && KnownClients(cut) && State() == HandleAll(before, socket, time, cut)
    }

    /** The responses to client `c` among those served. */
    static ghost function To(c: nat, rs: seq<ClientResponse>): seq<ClientResponse> {
      if rs == [] then [] else To(c, rs[..|rs| - 1]) + if rs[|rs| - 1].client == c then [rs[|rs| - 1]] else []
    }

    static lemma {:induction false} ToLast(c: nat, rs: seq<ClientResponse>, r: ClientResponse)
      ensures To(c, rs + [r]) == if r.client == c then To(c, rs) + [r] else To(c, rs)
    {
      assert (rs + [r])[..|rs|] == rs;
    }

    /** Each response leaves on the socket its client is bound to, under the client's next number; what the ASSERT
        demands is required. */
    method SendResponse(r: ClientResponse)
      requires Valid() && r.client < MAX_CLIENTS && cidSocket[r.client].Some?
      modifies this`outbound, this`cidNextOutgoingSeqNum, this`served, this`log
      ensures Valid() && served == old(served) + [r]
    {
      var c, k := r.client, cidSocket[r.client].value;
      var m := Numbered(cidNextOutgoingSeqNum[c], r);
      assert ClientOk(c);
      outbound := outbound[k := (if k in outbound then outbound[k] else []) + responses.encode(m)];
      cidNextOutgoingSeqNum := cidNextOutgoingSeqNum[c := cidNextOutgoingSeqNum[c] + 1];
      served, log := served + [r], log[k := Log(k) + [m]];
      StillStreams(m, k);
      StillNumbered(r);
      StillRouted(r, m, k);
    }

    twostate lemma StillStreams(new m: ResponseRecord, new k: nat)
      requires old(Sent()) && log == old(log)[k := old(Log(k)) + [m]]
      requires outbound == old(outbound)[k := (if k in old(outbound) then old(outbound)[k] else []) + responses.encode(m)]
      ensures forall j: nat {:trigger SocketOk(j)} :: SocketOk(j)
    {
      StreamLast(responses, old(Log(k)), m);
      forall j: nat ensures SocketOk(j) {
        assert old(SocketOk(j));
      }
    }

    twostate lemma StillNumbered(new r: ClientResponse)
      requires old(Sent()) && r.client < MAX_CLIENTS == |cidSocket| == |old(cidNextOutgoingSeqNum)|
      requires cidSocket == old(cidSocket) && cidSocket[r.client].Some? && served == old(served) + [r]
      requires cidNextOutgoingSeqNum == old(cidNextOutgoingSeqNum)[r.client := old(cidNextOutgoingSeqNum)[r.client] + 1]
      ensures forall d: nat {:trigger ClientOk(d)} :: d < MAX_CLIENTS ==> ClientOk(d)
    {
      forall d: nat | d < MAX_CLIENTS ensures ClientOk(d) {
        assert old(ClientOk(d));
        ToLast(d, old(served), r);
      }
    }

    /** One more record on its client's socket leaves every client's records where they belong. */
    twostate lemma StillRouted(new r: ClientResponse, new m: ResponseRecord, new k: nat)
      requires old(Sent()) && r.client < MAX_CLIENTS && r.client < |cidSocket| && cidSocket[r.client] == Some(k)
      requires cidSocket == old(cidSocket) && m == Numbered(|To(r.client, old(served))| + 1, r)
      requires served == old(served) + [r] && log == old(log)[k := old(Log(k)) + [m]]
      ensures forall d: nat, j: nat {:trigger Routed(d, j)} :: d < MAX_CLIENTS ==> Routed(d, j)
    {
      forall d: nat, j: nat | d < MAX_CLIENTS ensures Routed(d, j) {
        assert old(Routed(d, j));
        ToLast(d, old(served), r);
        if j == k {
          ForClientLast(d, old(Log(k)), m);
          NumberGrows(To(d, old(served)), r);
        }
      }
    }

    static lemma NumberGrows(rs: seq<ClientResponse>, r: ClientResponse)
      ensures Number(1, rs + [r]) == Number(1, rs) + [Numbered(|rs| + 1, r)]
    {
    }
  }

  /** From server to client: whatever has arrived of the bytes on the client's socket, and in whatever pieces, the
      client has handed on the first of the responses sent to it, in order; all of them once all has arrived. */
  lemma ResponsesArrive(server: OrderServer, client: GatewayClient, socket: nat, rest: seq<Byte>)
    requires server.Valid() && client.Valid() && server.responses == client.responses == RESPONSES
    requires client.client < MAX_CLIENTS && server.cidSocket[client.client] == Some(socket) && socket in server.outbound
    requires AllFit(RESPONSES, server.Log(socket)) && Concat(client.chunks) + rest == server.outbound[socket]
    ensures var rs := OrderServer.To(client.client, server.served);
            && |client.delivered| <= |rs| && client.delivered == rs[..|client.delivered|]
            && (rest == [] ==> client.delivered == rs)
  {
    assert server.SocketOk(socket) && server.Routed(client.client, socket);
    client.NothingLost(server.Log(socket), OrderServer.To(client.client, server.served), rest);
  }
}

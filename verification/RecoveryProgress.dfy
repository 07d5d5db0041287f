/** Recovery ends with the first whole snapshot; and two snapshots spliced by loss end it wrongly. */
module RecoveryProgress {
  import opened Types
  import opened OrderLists
  import opened PriceMap
  import opened ReplicaModel
  import opened Snapshot
  import opened Market
  import opened ConsumerModel
  import opened RecoverySafety
  import opened RecoveryRuns
  import opened MarketDataPublisherClass
  import opened ConsumerLaws

  // ---------------------------------------------------------------- what the synthesizer sends

  /** All of snapshot `n`. */
  function Arriving(ps: seq<seq<MarketUpdate>>, n: nat): (r: seq<Arrival>)
    requires n < |ps|
    ensures |r| == |ps[n]| && forall i :: 0 <= i < |r| ==> r[i] == FromSnapshot(n, i)
  {
    seq(|ps[n]|, i requires 0 <= i < |ps[n]| => FromSnapshot(n, i))
  }

  ghost predicate InOrderUpTo(us: seq<MarketUpdate>, ps: seq<seq<MarketUpdate>>, arrivals: seq<Arrival>, n: nat) {
    FromNetwork(us, ps, Batch(true, arrivals), 0) && forall a :: a in arrivals ==> a.FromSnapshot? && a.n <= n
  }

  lemma NextInOrder(us: seq<MarketUpdate>, ps: seq<seq<MarketUpdate>>, arrivals: seq<Arrival>, n: nat)
    requires n < |ps| && InOrderUpTo(us, ps, arrivals, n)
    ensures InOrderUpTo(us, ps, arrivals + Arriving(ps, n), n)
  {
    var all := arrivals + Arriving(ps, n);
    forall i | 0 <= i < |all| ensures Genuine(us, ps, all[i]) && all[i].FromSnapshot? && all[i].n <= n {
      assert i < |arrivals| ==> arrivals[i] in arrivals;
    }
  }

  lemma {:induction false} NextRecords(us: seq<MarketUpdate>, ps: seq<seq<MarketUpdate>>, arrivals: seq<Arrival>, n: nat)
    requires ps == AllSnapshots(us) && n <= |us| && InOrderUpTo(us, ps, arrivals, n)
    requires InOrderUpTo(us, ps, arrivals + Arriving(ps, n), n)
    ensures Records(us, ps, arrivals + Arriving(ps, n)) == Records(us, ps, arrivals) + Numbered(0, SnapshotAt(us, n))
  {
  }

  /** The snapshot stream, whenever the timer goes off, is one of genuine snapshots in the order they were taken. */
  lemma {:induction false} ScheduleIsInOrder(us: seq<MarketUpdate>, ps: seq<seq<MarketUpdate>>,
                                             batches: seq<seq<Record>>, due: seq<bool>, k: nat)
    returns (arrivals: seq<Arrival>)
    requires ps == AllSnapshots(us) && k <= |batches| == |due| && |Joined(batches, k)| <= |us|
    ensures InOrderUpTo(us, ps, arrivals, |Joined(batches, k)|)
    ensures Records(us, ps, arrivals) == Scheduled(us, batches, due, k)
  {
    arrivals := [];
    if k > 0 {
      var n := |Joined(batches, k)|;
      arrivals := ScheduleIsInOrder(us, ps, batches, due, k - 1);
      if due[k - 1] {
        NextInOrder(us, ps, arrivals, n);
        NextRecords(us, ps, arrivals, n);
        arrivals := arrivals + Arriving(ps, n);
      }
    }
  }

  // ---------------------------------------------------------------- progress

  /** The first `k` messages of `p`, queued. */
  function Prefix(p: seq<MarketUpdate>, k: nat): Queue
    requires k <= |p|
  {
    map i: nat | i < k :: p[i]
  }

  lemma {:induction false} PrefixHolds(p: seq<MarketUpdate>, k: nat)
    requires k <= |p|
    ensures Prefix(p, k).Keys == Upto(k) && |Prefix(p, k)| == k
    ensures forall i :: 0 <= i < k ==> i in Prefix(p, k) && Prefix(p, k)[i] == p[i]
  {
    assert Prefix(p, k).Keys == Upto(k);
  }

  /** Records `k` to `m` of a snapshot, in order. */
  function Slice(p: seq<MarketUpdate>, k: nat, m: nat): seq<Record>
    requires k <= m <= |p|
    decreases m - k
  {
    if k == m then [] else [Record(k, p[k])] + Slice(p, k + 1, m)
  }

  /** The first message of a snapshot starts the queue over. */
  lemma FirstMessage(s: Consumer, p: seq<MarketUpdate>)
    requires s.inRecovery && Reassembling(s.snaps) && Bracketed(p)
    ensures OnRecord(s, true, Record(0, p[0])) == s.(snaps := Prefix(p, 1))
  {
    PrefixHolds(p, 1);
    assert Queued(s, true, Record(0, p[0])).snaps == Prefix(p, 1);
  }

  lemma NextQueued(p: seq<MarketUpdate>, k: nat)
    requires k < |p|
    ensures k !in Prefix(p, k) && Prefix(p, k)[k := p[k]] == Prefix(p, k + 1)
  {
  }

  /** Without END, a check leaves a queue opened by START alone. */
  lemma StillGrowing(s: Consumer, p: seq<MarketUpdate>, k: nat)
    requires Bracketed(p) && 0 < k < |p| && s.snaps == Prefix(p, k)
    ensures CheckSync(s) == s
  {
    PrefixHolds(p, k);
  }

  lemma MiddleMessage(s: Consumer, p: seq<MarketUpdate>, k: nat)
    requires s.inRecovery && Bracketed(p) && 0 < k < |p| - 1 && s.snaps == Prefix(p, k)
    ensures OnRecord(s, true, Record(k, p[k])) == s.(snaps := Prefix(p, k + 1))
  {
    PrefixHolds(p, k);
    NextQueued(p, k);
    StillGrowing(Queued(s, true, Record(k, p[k])), p, k + 1);
  }

  lemma {:induction false} WholeQueue(q: Queue, p: seq<MarketUpdate>)
    requires Bracketed(p) && Copies(q, p) && q.Keys == Upto(|p|)
    ensures WholeSnapshot(q)
  {
  }

  lemma {:induction false} CheckAccepts(s: Consumer, q: Queue, lastSeq: nat)
    requires s.snaps == q && WholeSnapshot(q) && q[|q| - 1].orderId == lastSeq
    requires !Beyond(s.incs, FirstGap(s.incs, lastSeq + 1))
    ensures CheckSync(s) == Recovered(s, Events(q, 0, |q|), lastSeq)
  {
  }

  /** The state recovery ends in when it accepts the messages `body` of a snapshot that claims `lastSeq`. */
  function Recovered(s: Consumer, body: seq<MarketUpdate>, lastSeq: nat): Consumer {
    var next := FirstGap(s.incs, lastSeq + 1);
    Consumer(next, false, map[], map[], s.out + body + Events(s.incs, lastSeq + 1, next))
  }

  lemma {:induction false} RecordAccepted(s: Consumer, i: nat, end: MarketUpdate, q: Queue, t: Consumer)
    requires s.inRecovery && i !in s.snaps && q == s.snaps[i := end]
    requires WholeSnapshot(q) && |q| == i + 1
    requires !Beyond(s.incs, FirstGap(s.incs, end.orderId + 1))
    requires t == OnRecord(s, true, Record(i, end))
    ensures t == Recovered(s, Events(q, 0, |q|), end.orderId)
  {
    CheckAccepts(Queued(s, true, Record(i, end)), q, end.orderId);
  }

  lemma {:induction false} LastQueued(p: seq<MarketUpdate>, i: nat, q: Queue)
    requires Bracketed(p) && i == |p| - 1 && q == Prefix(p, |p|)
    ensures q == Prefix(p, i)[i := p[i]] && i !in Prefix(p, i)
    ensures |q| == |p| && WholeSnapshot(q) && Events(q, 0, |q|) == Inner(p)
  {
    PrefixHolds(p, i);
    PrefixHolds(p, |p|);
    assert i !in Upto(i);
    WholeQueue(q, p);
    WholeEvents(q, p);
  }

  /** The last message closes the queue; without a gap in the queued incrementals above it, recovery ends. */
  lemma LastMessage(s: Consumer, p: seq<MarketUpdate>, i: nat, t: Consumer)
    requires s.inRecovery && Bracketed(p) && i == |p| - 1 && s.snaps == Prefix(p, i)
    requires !Beyond(s.incs, FirstGap(s.incs, p[i].orderId + 1))
    requires t == OnRecord(s, true, Record(i, p[i]))
    ensures t == Recovered(s, Inner(p), p[i].orderId)
  {
    LastQueued(p, i, Prefix(p, |p|));
    RecordAccepted(s, i, p[i], Prefix(p, |p|), t);
  }

  /** The rest of a sequence of which `k` messages are queued, received in order. */
  lemma {:induction false} RestReceived(s: Consumer, p: seq<MarketUpdate>, k: nat)
    requires s.inRecovery && Bracketed(p) && 0 < k < |p| && s.snaps == Prefix(p, k)
    requires !Beyond(s.incs, FirstGap(s.incs, p[|p| - 1].orderId + 1))
    ensures OnRecords(s, true, Slice(p, k, |p|)) == Recovered(s, Inner(p), p[|p| - 1].orderId)
    decreases |p| - k
  {
    assert Slice(p, k, |p|)[1..] == Slice(p, k + 1, |p|);
    if k == |p| - 1 {
      LastMessage(s, p, k, OnRecord(s, true, Record(k, p[k])));
    } else {
      MiddleMessage(s, p, k);
      RestReceived(s.(snaps := Prefix(p, k + 1)), p, k + 1);
    }
  }

  /** The state after the messages of `p`, received in order. */
  function AfterAll(s: Consumer, p: seq<MarketUpdate>): Consumer {
    OnRecords(s, true, Slice(p, 0, |p|))
  }

  /** Any sequence between two markers is taken for a snapshot and delivered, whatever numbers they carry. */
  lemma BracketedIsDelivered(s: Consumer, p: seq<MarketUpdate>)
    requires s.inRecovery && Reassembling(s.snaps) && Bracketed(p)
    requires !Beyond(s.incs, FirstGap(s.incs, p[|p| - 1].orderId + 1))
    ensures AfterAll(s, p) == Recovered(s, Inner(p), p[|p| - 1].orderId)
  {
    FirstMessage(s, p);
    assert Slice(p, 0, |p|)[1..] == Slice(p, 1, |p|);
    RestReceived(s.(snaps := Prefix(p, 1)), p, 1);
  }

  /** Progress: one whole snapshot in order, with no gap in the incrementals queued above it, ends recovery,
      and the next expected update is the one behind the last contiguous incremental. */
  lemma {:induction false} WholeSnapshotEndsRecovery(s: Consumer, p: seq<MarketUpdate>, n: nat)
    requires s.inRecovery && Reassembling(s.snaps) && Shaped(p, n)
    requires !Beyond(s.incs, FirstGap(s.incs, n + 1))
    ensures AfterAll(s, p) == Recovered(s, Inner(p), n)
  {
    BracketedIsDelivered(s, p);
  }

  lemma {:induction false} SliceIsNumbered(p: seq<MarketUpdate>, k: nat)
    requires k <= |p|
    ensures Slice(p, k, |p|) == Numbered(0, p)[k..]
    decreases |p| - k
  {
    if k < |p| {
      SliceIsNumbered(p, k + 1);
    }
  }

  lemma WholeReceived(s: Consumer, p: seq<MarketUpdate>, n: nat, rs: seq<Record>)
    requires s.inRecovery && Reassembling(s.snaps) && Shaped(p, n) && NoGapAbove(s.incs, n) && rs == Numbered(0, p)
    ensures Receive(s, true, rs) == Recovered(s, Inner(p), n)
  {
    SliceIsNumbered(p, 0);
    assert rs[0..] == rs;
    GapAbove(s.incs, n);
    WholeSnapshotEndsRecovery(s, p, n);
  }

  /** Recovered from a snapshot that rebuilds the state at `n` and from the genuine updates behind it, the consumer is
      in step with the exchange. */
  lemma {:induction false} RecoveredSynchronizes(us: seq<MarketUpdate>, s: Consumer, body: seq<MarketUpdate>, n: nat, t: Consumer)
    requires (forall u :: u in us ==> !IsBracket(u)) && GenuineIncs(us, s.incs) && n <= |us|
    requires ReplayAll(ReplayAll(NoReplicas(), s.out), body) == Truth(us, n) && t == Recovered(s, body, n)
    ensures n < t.nextExp && Synchronized(us, t)
  {
    var m := FirstGap(s.incs, n + 1) - 1;
    AcceptedIncrementals(us, s.incs, n, m);
    DeliveredSynchronizes(us, s, t, body, n, m);
  }

  lemma {:induction false} SnapshotRecovers(us: seq<MarketUpdate>, s: Consumer, p: seq<MarketUpdate>, n: nat, t: Consumer)
    requires AllInSequence(NoReplicas(), us) && n <= |us| && p == AllSnapshots(us)[n]
    requires s.inRecovery && Reassembling(s.snaps) && GenuineIncs(us, s.incs) && NoGapAbove(s.incs, n)
    requires t == Receive(s, true, Numbered(0, p))
    ensures !t.inRecovery && n < t.nextExp && Synchronized(us, t)
  {
    SnapshotsRestore(us);
    StreamHasNoBrackets(NoReplicas(), us);
    InnerRebuilds(us, n, ReplayAll(NoReplicas(), s.out));
    WholeReceived(s, p, n, Numbered(0, p));
    RecoveredSynchronizes(us, s, Inner(p), n, t);
  }

  /** From the timer to the reader: wherever in its recovery a consumer is, the records of any due snapshot, as they
      stand in the synthesizer's stream, end it if the updates queued above that snapshot have no gap, and the
      consumer is then in step with the exchange. */
  lemma {:induction false} DueSnapshotEndsRecovery(us: seq<MarketUpdate>, batches: seq<seq<Record>>, due: seq<bool>, i: nat,
                                                   p: seq<Record>, n: nat, s: Consumer, stream: seq<Record>)
    returns (k: nat, t: Consumer)
    requires AllInSequence(NoReplicas(), us) && i < |batches| == |due| && due[i]
    requires n == |Joined(batches, i + 1)| <= |us| && p == Numbered(0, SnapshotAt(us, n))
    requires stream == Scheduled(us, batches, due, |batches|)
    requires s.inRecovery && Reassembling(s.snaps) && GenuineIncs(us, s.incs) && NoGapAbove(s.incs, n)
    ensures k + |p| <= |stream| && t == Receive(s, true, stream[k..k + |p|])
    ensures !t.inRecovery && n < t.nextExp && Synchronized(us, t)
  {
    PartIsWhole(us, n);
    k := DueIsSent(us, batches, due, i, |batches|, p);
    assert stream[k..k + |p|] == p;
    t := Receive(s, true, p);
    SnapshotRecovers(us, s, AllSnapshots(us)[n], n, t);
  }

  // ---------------------------------------------------------------- spliced snapshots

  /** The first `k` messages of one snapshot, then those of another from message `k` on. */
  function Spliced(p: seq<MarketUpdate>, p1: seq<MarketUpdate>, k: nat): seq<MarketUpdate>
    requires 0 < k < |p| && k < |p1|
  {
    p[..k] + p1[k..]
  }

  lemma SplicedIsBracketed(p: seq<MarketUpdate>, p1: seq<MarketUpdate>, n0: nat, n1: nat, k: nat)
    requires Shaped(p, n0) && Shaped(p1, n1) && 0 < k < |p| && k < |p1|
    ensures var q := Spliced(p, p1, k); Bracketed(q) && q[|q| - 1].orderId == n1
    ensures k == |p| - 1 == |p1| - 1 ==> Inner(Spliced(p, p1, k)) == Inner(p)
  {
  }

  lemma NothingAbove(q: Queue, n: nat)
    requires forall k :: k in q ==> k <= n
    ensures FirstGap(q, n + 1) == n + 1 && !Beyond(q, n + 1)
  {
  }

  lemma RecoveredAtOnce(s: Consumer, body: seq<MarketUpdate>, n: nat)
    requires forall k :: k in s.incs ==> k <= n
    ensures Recovered(s, body, n) == Consumer(n + 1, false, map[], map[], s.out + body)
  {
    NothingAbove(s.incs, n);
    assert Events(s.incs, n + 1, n + 1) == [];
  }

  lemma SpliceState(s: Consumer, q: seq<MarketUpdate>, n: nat, t: Consumer)
    requires s.inRecovery && Reassembling(s.snaps) && Bracketed(q) && q[|q| - 1].orderId == n
    requires forall k :: k in s.incs ==> k <= n
    requires t == AfterAll(s, q)
    ensures t == Consumer(n + 1, false, map[], map[], s.out + Inner(q))
  {
    NothingAbove(s.incs, n);
    BracketedIsDelivered(s, q);
    RecoveredAtOnce(s, Inner(q), n);
  }

  lemma {:induction false} SpliceVerdict(us: seq<MarketUpdate>, t: Consumer, out: seq<MarketUpdate>, body: seq<MarketUpdate>, n: nat)
    requires t.nextExp == n + 1 && n <= |us| && t.out == out + body
    ensures Synchronized(us, t) <==> ReplayAll(ReplayAll(NoReplicas(), out), body) == Truth(us, n)
  {
    ReplayAllSplits(NoReplicas(), out, body);
  }

  /** The front of snapshot `n0`, spliced by loss to the rest of snapshot `n1` at any message: the consumer
      accepts it and expects update `n1 + 1` next. It is right exactly when the spliced events rebuild the
      state at `n1`. */
  lemma SpliceIsAccepted(us: seq<MarketUpdate>, s: Consumer, p: seq<MarketUpdate>, p1: seq<MarketUpdate>,
                         n0: nat, n1: nat, k: nat, t: Consumer)
    requires Shaped(p, n0) && Shaped(p1, n1) && n1 <= |us| && 0 < k < |p| && k < |p1|
    requires s.inRecovery && Reassembling(s.snaps) && forall k :: k in s.incs ==> k <= n1
    requires t == AfterAll(s, Spliced(p, p1, k))
    ensures !t.inRecovery && t.nextExp == n1 + 1 && |Spliced(p, p1, k)| >= 2
    ensures Synchronized(us, t)
            <==> ReplayAll(ReplayAll(NoReplicas(), s.out), Inner(Spliced(p, p1, k))) == Truth(us, n1)
  {
    SplicedIsBracketed(p, p1, n0, n1, k);
    var q := Spliced(p, p1, k);
    SpliceState(s, q, n1, t);
    SpliceVerdict(us, t, s.out, Inner(q), n1);
  }

  /** A splice at the END alone is right exactly when nothing changed between the two snapshots. */
  lemma {:induction false} SpliceAtEnd(us: seq<MarketUpdate>, s: Consumer, n0: nat, n1: nat, t: Consumer)
    requires AllInSequence(NoReplicas(), us) && n0 <= |us| && n1 <= |us|
    requires |SnapshotAt(us, n0)| == |SnapshotAt(us, n1)| > 1
    requires s.inRecovery && Reassembling(s.snaps) && forall k :: k in s.incs ==> k <= n1
    requires t == AfterAll(s, Spliced(SnapshotAt(us, n0), SnapshotAt(us, n1), |SnapshotAt(us, n0)| - 1))
    ensures !t.inRecovery && t.nextExp == n1 + 1
    ensures Synchronized(us, t) <==> Truth(us, n0) == Truth(us, n1)
  {
    var p, p1 := SnapshotAt(us, n0), SnapshotAt(us, n1);
    SnapshotsRestore(us);
    assert AllSnapshots(us)[n0] == p && AllSnapshots(us)[n1] == p1;
    SplicedIsBracketed(p, p1, n0, n1, |p| - 1);
    SpliceIsAccepted(us, s, p, p1, n0, n1, |p| - 1, t);
    InnerRebuilds(us, n0, ReplayAll(NoReplicas(), s.out));
  }

  // ---------------------------------------------------------------- a stream on which the splice is wrong

  /** One bid is added and canceled, then another is added. */
  function TwoBids(): seq<MarketUpdate> {
    [ MarketUpdate(Add, 1, 0, Some(Buy), 100, 10, 1),
      MarketUpdate(Cancel, 1, 0, Some(Buy), 100, 0, 1),
      MarketUpdate(Add, 2, 0, Some(Buy), 100, 5, 1) ]
  }

  function OneBid(u: MarketUpdate): Replica
    requires u.side.Some?
  {
    PerSide([Described(u)], [])
  }

  lemma ApplyAdd(bs: seq<Replica>, u: MarketUpdate)
    requires |bs| == MAX_TICKERS && bs[0] == EmptyBook() && u.kind == Add && u.ticker == 0 && u.side == Some(Buy)
    ensures ApplyAll(bs, u) == bs[0 := OneBid(u)]
  {
    var o := Described(u);
    assert LevelSide(bs[0], o.price) == None;
    assert Insert([], o) == [o];
  }

  lemma ApplyCancel(bs: seq<Replica>, u: MarketUpdate, c: MarketUpdate)
    requires |bs| == MAX_TICKERS && u.side == Some(Buy) && bs[0] == OneBid(u)
    requires c.kind == Cancel && c.ticker == 0 && c.orderId == u.orderId
    ensures ApplyAll(bs, c) == bs[0 := EmptyBook()]
  {
    WithoutHead([Described(u)]);
  }

  lemma TwoBidsReplay()
    ensures var us := TwoBids();
            && Truth(us, 1) == NoReplicas()[0 := OneBid(us[0])]
            && Truth(us, 2) == NoReplicas()
            && Truth(us, 3) == NoReplicas()[0 := OneBid(us[2])]
  {
    var us := TwoBids();
    var none := NoReplicas();
    var one := none[0 := OneBid(us[0])];
    ApplyAdd(none, us[0]);
    ApplyCancel(one, us[0], us[1]);
    ApplyAdd(none, us[2]);
    assert one[0 := EmptyBook()] == none;
    assert us[..1] == [us[0]] && us[..2] == us[..1] + [us[1]] && us[..3] == us[..2] + [us[2]];
    assert ReplayAll(none, [us[0]]) == ReplayAll(ApplyAll(none, us[0]), []);
    ReplayAllSplits(none, us[..1], [us[1]]);
    assert ReplayAll(one, [us[1]]) == ReplayAll(ApplyAll(one, us[1]), []);
    ReplayAllSplits(none, us[..2], [us[2]]);
    assert ReplayAll(none, [us[2]]) == ReplayAll(ApplyAll(none, us[2]), []);
  }

  lemma TwoBidsInSequence()
    ensures AllInSequence(NoReplicas(), TwoBids())
  {
    var us := TwoBids();
    var none := NoReplicas();
    var one := none[0 := OneBid(us[0])];
    ApplyAdd(none, us[0]);
    ApplyCancel(one, us[0], us[1]);
    assert one[0 := EmptyBook()] == none;
    assert Sequenced(none[0], us[0]) && Sequenced(none[0], us[2]);
    assert InBook(one[0], Described(us[0])) && Sequenced(one[0], us[1]);
    assert AllInSequence(ApplyAll(none, us[2]), []);
    assert AllInSequence(none, [us[2]]);
    assert [us[1], us[2]][1..] == [us[2]] && AllInSequence(one, [us[1], us[2]]);
    assert us[1..] == [us[1], us[2]];
  }

  lemma {:induction false} NoOrders(m: OrderTable, k: nat, n: nat)
    requires forall i :: k <= i < n ==> i !in m
    ensures OrdersFrom(m, k, n) == []
    decreases n - k
  {
    if k < n { NoOrders(m, k + 1, n); }
  }

  lemma {:induction false} OneOrder(m: OrderTable, id: nat, k: nat, n: nat)
    requires m.Keys == {id} && k <= id < n
    ensures OrdersFrom(m, k, n) == [m[id]]
    decreases n - k
  {
    if k < id { OneOrder(m, id, k + 1, n); } else { NoOrders(m, k + 1, n); }
  }

  lemma {:induction false} BodyTail(a: seq<OrderTable>, b: seq<OrderTable>, t: nat)
    requires |a| == |b| && forall i :: t <= i < |a| ==> a[i] == b[i]
    ensures Body(a, t) == Body(b, t)
    decreases |a| - t
  {
    if t < |a| {
      BodyTail(a, b, t + 1);
      assert OrdersFrom(a[t], 0, MAX_ORDER_IDS) == OrdersFrom(b[t], 0, MAX_ORDER_IDS);
    }
  }

  lemma TwoBidsTables()
    ensures var us := TwoBids();
            && FoldAll(NoTables(), us[..1]) == NoTables()[0 := map[1 := us[0]]]
            && FoldAll(NoTables(), us[..3]) == NoTables()[0 := map[2 := us[2]]]
  {
    var us := TwoBids();
    var none := NoTables();
    var one := none[0 := map[1 := us[0]]];
    assert us[..1] == [us[0]] && us[..2] == us[..1] + [us[1]] && us[..3] == us[..2] + [us[2]];
    FoldOne(none, us[0]);
    FoldAllSplits(none, us[..1], [us[1]]);
    FoldOne(one, us[1]);
    assert one[0 := map[]] == none;
    FoldAllSplits(none, us[..2], [us[2]]);
    FoldOne(none, us[2]);
  }

  lemma {:induction false} SameLength(a: seq<OrderTable>, b: seq<OrderTable>, i: nat, j: nat, m: nat, n: nat)
    requires |a| == |b| == MAX_TICKERS && forall t :: 1 <= t < |a| ==> a[t] == b[t]
    requires a[0].Keys == {i} && b[0].Keys == {j} && i < MAX_ORDER_IDS && j < MAX_ORDER_IDS
    ensures |Published(a, m)| == |Published(b, n)|
  {
    OneOrder(a[0], i, 0, MAX_ORDER_IDS);
    OneOrder(b[0], j, 0, MAX_ORDER_IDS);
    BodyTail(a, b, 1);
  }

  /** The snapshots after updates 1 and 3 are equally long, and the states are not the same. */
  lemma {:induction false} TwoBidsDiffer()
    ensures |SnapshotAt(TwoBids(), 1)| == |SnapshotAt(TwoBids(), 3)| > 1
    ensures Truth(TwoBids(), 1) != Truth(TwoBids(), 3)
  {
    var us := TwoBids();
    TwoBidsTables();
    SameLength(FoldAll(NoTables(), us[..1]), FoldAll(NoTables(), us[..3]), 1, 2, 1, 3);
    TwoBidsReplay();
    assert Truth(us, 1)[0].buy[0].id != Truth(us, 3)[0].buy[0].id;
  }

  /** On this stream the splice of the snapshots after updates 1 and 3 is accepted and is wrong: the consumer
      expects update 4 next and holds a bid that was canceled. */
  lemma {:induction false} SpliceCanBeWrong(s: Consumer, t: Consumer)
    requires s.inRecovery && s.snaps == map[] && s.incs == map[]
    requires |SnapshotAt(TwoBids(), 1)| == |SnapshotAt(TwoBids(), 3)| > 1
    requires t == AfterAll(s, Spliced(SnapshotAt(TwoBids(), 1), SnapshotAt(TwoBids(), 3), |SnapshotAt(TwoBids(), 1)| - 1))
    ensures !t.inRecovery && t.nextExp == 4 && !Synchronized(TwoBids(), t)
  {
    TwoBidsDiffer();
    TwoBidsInSequence();
    SpliceAtEnd(TwoBids(), s, 1, 3, t);
  }
}

/** Whole runs of the consumer: reassembly of snapshots, safety under loss, duplication and reordering, progress,
    and what goes wrong when two snapshots are spliced. */
module RecoveryRuns {
  import opened Types
  import opened ReplicaModel
  import opened Snapshot
  import opened Market
  import opened ConsumerModel
  import opened RecoverySafety

  // ---------------------------------------------------------------- reassembly

  /** A queued message either starts the queue over, extends it by the next number, or gets it thrown away. */
  lemma KeepOrDrop(q: Queue, i: nat, u: MarketUpdate)
    requires Reassembling(q)
    ensures var q' := (if i in q then map[] else q)[i := u];
            Growing(q') ==> (i == 0 && q' == map[0 := u]) || (q != map[] && i == |q| && q' == q[i := u])
  {
    var q' := (if i in q then map[] else q)[i := u];
    if Growing(q') {
      assert 0 in Upto(|q'|);
      if i in q || q == map[] {
        assert q'.Keys == {i};
      } else {
        assert q'.Keys == q.Keys + {i};
        assert |q| !in Upto(|q|) && |q| in Upto(|q| + 1);
        assert |q| == i;
      }
    }
  }

  /** Whatever records arrive, the snapshot queue is empty or holds messages 0..m, START first, END not yet. */
  lemma ReassemblyKept(s: Consumer, isSnapshot: bool, r: Record)
    requires Reassembling(s.snaps)
    ensures Reassembling(OnRecord(s, isSnapshot, r).snaps)
  {
    if s.inRecovery || r.seqNum != s.nextExp {
      var next := Queued(s, isSnapshot, r);
      CheckKeepsOrDrops(next, CheckSync(next));
      if Growing(next.snaps) && !WholeSnapshot(next.snaps) {
        QueueKept(s, isSnapshot, r, next.snaps);
      }
    }
  }

  lemma CheckKeepsOrDrops(s: Consumer, t: Consumer)
    requires t == CheckSync(s)
    ensures t.snaps == map[] || (t.snaps == s.snaps && Growing(s.snaps) && !WholeSnapshot(s.snaps))
  {
  }

  lemma QueueKept(s: Consumer, isSnapshot: bool, r: Record, q': Queue)
    requires Reassembling(s.snaps) && q' == Queued(s, isSnapshot, r).snaps
    requires Growing(q') && !WholeSnapshot(q')
    ensures Reassembling(q')
  {
    var q := if s.inRecovery then s.snaps else map[];
    if isSnapshot {
      KeepOrDrop(q, r.seqNum, r.update);
    }
    EndStaysOut(q, q');
  }

  lemma EndStaysOut(q: Queue, q': Queue)
    requires Reassembling(q) && Growing(q') && !WholeSnapshot(q')
    requires q' == q || (0 in q' && q' == map[0 := q'[0]]) || (q != map[] && |q| in q' && q' == q[|q| := q'[|q|]])
    ensures Reassembling(q')
  {
    assert |q'| - 1 in Upto(|q'|);
    if q' != q && q' != map[0 := q'[0]] {
      assert |q| !in Upto(|q|) && |q'| == |q| + 1;
    }
  }

  // ---------------------------------------------------------------- one step is safe

  /** Where the messages of the queue come from once message `i` of snapshot `n` is in. */
  function StampsAfter(q: Queue, from: map<nat, nat>, n: nat, i: nat): map<nat, nat> {
    if i in q || q == map[] then map[i := n] else from[i := n]
  }

  lemma SnapshotExtended(ps: seq<seq<MarketUpdate>>, q: Queue, from: map<nat, nat>, latest: nat, n: nat)
    requires Gapless(q) && GenuineSnaps(ps, q, from) && InOrder(from, latest) && latest <= n
    requires n < |ps| && |q| < |ps[n]|
    ensures GenuineSnaps(ps, q[|q| := ps[n][|q|]], from[|q| := n]) && InOrder(from[|q| := n], n)
  {
    forall j | j in from ensures j < |q| { assert j in Upto(|q|); }
  }

  lemma SnapshotQueued(ps: seq<seq<MarketUpdate>>, q: Queue, from: map<nat, nat>, latest: nat, n: nat, i: nat, q': Queue)
    requires Reassembling(q) && GenuineSnaps(ps, q, from) && InOrder(from, latest) && latest <= n
    requires n < |ps| && i < |ps[n]| && q' == (if i in q then map[] else q)[i := ps[n][i]] && Growing(q')
    ensures GenuineSnaps(ps, q', StampsAfter(q, from, n, i)) && InOrder(StampsAfter(q, from, n, i), n)
  {
    if !(i in q || q == map[]) {
      KeepOrDrop(q, i, ps[n][i]);
      SnapshotExtended(ps, q, from, latest, n);
    }
  }

  /** How a check of the queues can end. */
  lemma CheckCases(s: Consumer, t: Consumer)
    requires s.inRecovery && t == CheckSync(s)
    ensures t.inRecovery ==> t.incs == s.incs && (t.snaps == map[] || (t.snaps == s.snaps && Growing(s.snaps)))
    ensures !t.inRecovery ==> WholeSnapshot(s.snaps)
  {
  }

  lemma StillRecovering(us: seq<MarketUpdate>, ps: seq<seq<MarketUpdate>>, s: Consumer, t: Consumer,
                        from: map<nat, nat>, latest: nat)
    requires t.inRecovery && GenuineIncs(us, t.incs) && Reassembling(t.snaps)
    requires t.snaps == map[] || (GenuineSnaps(ps, t.snaps, from) && InOrder(from, latest))
    ensures Recovering(us, ps, t, if t.snaps == map[] then map[] else from, latest)
  {
  }

  /** While recovering, checking a queue whose markers agree is safe. */
  lemma {:induction false} CheckIsSafe(us: seq<MarketUpdate>, ps: seq<seq<MarketUpdate>>, s: Consumer, t: Consumer,
                                       from: map<nat, nat>, latest: nat)
    requires AllInSequence(NoReplicas(), us) && ps == AllSnapshots(us)
    requires s.inRecovery && GenuineIncs(us, s.incs) && Agreeing(s.snaps)
    requires Growing(s.snaps) ==> GenuineSnaps(ps, s.snaps, from) && InOrder(from, latest)
    requires t == CheckSync(s) && Reassembling(t.snaps)
    ensures Inv(us, ps, t, if t.snaps == map[] then map[] else from, latest)
  {
    CheckCases(s, t);
    if t.inRecovery {
      StillRecovering(us, ps, s, t, from, latest);
    } else {
      AcceptSynchronizes(us, s, from, latest);
    }
  }

  lemma NextUpdateIsSafe(us: seq<MarketUpdate>, s: Consumer)
    requires Synchronized(us, s) && s.nextExp <= |us|
    ensures Synchronized(us, s.(nextExp := s.nextExp + 1, out := s.out + [us[s.nextExp - 1]]))
  {
    var k := s.nextExp;
    ReplayAllSplits(NoReplicas(), s.out, [us[k - 1]]);
    ReplayAllSplits(NoReplicas(), us[..k - 1], [us[k - 1]]);
    assert us[..k - 1] + [us[k - 1]] == us[..k];
  }

  /** The recovery state a record is queued into, with the origins of its snapshot messages. */
  lemma QueuedIsGenuine(us: seq<MarketUpdate>, ps: seq<seq<MarketUpdate>>, s: Consumer,
                        from: map<nat, nat>, latest: nat, a: Arrival)
    returns (from': map<nat, nat>, latest': nat)
    requires Genuine(us, ps, a) && Recovering(us, ps, s, from, latest)
    requires a.FromSnapshot? ==> latest <= a.n
    ensures var next := Enqueue(s, a.FromSnapshot?, RecordOf(us, ps, a));
            && GenuineIncs(us, next.incs)
            && (Growing(next.snaps) ==> GenuineSnaps(ps, next.snaps, from') && InOrder(from', latest'))
    ensures latest' == if a.FromSnapshot? then a.n else latest
  {
    from', latest' := from, latest;
    if a.FromSnapshot? {
      from', latest' := StampsAfter(s.snaps, from, a.n, a.i), a.n;
      var next := Enqueue(s, true, RecordOf(us, ps, a));
      if Growing(next.snaps) {
        SnapshotQueued(ps, s.snaps, from, latest, a.n, a.i, next.snaps);
      }
    }
  }

  /** A record that is queued keeps the invariant, whether recovery goes on or ends with it. */
  lemma {:induction false} QueueIsSafe(us: seq<MarketUpdate>, ps: seq<seq<MarketUpdate>>, s: Consumer,
                                       from: map<nat, nat>, latest: nat, a: Arrival)
    returns (from': map<nat, nat>)
    requires AllInSequence(NoReplicas(), us) && ps == AllSnapshots(us)
    requires Genuine(us, ps, a) && Recovering(us, ps, s, from, latest)
    requires a.FromSnapshot? ==> latest <= a.n
    requires Agreeing(Enqueue(s, a.FromSnapshot?, RecordOf(us, ps, a)).snaps)
    ensures Inv(us, ps, OnRecord(s, a.FromSnapshot?, RecordOf(us, ps, a)), from', if a.FromSnapshot? then a.n else latest)
  {
    var r := RecordOf(us, ps, a);
    var next := Enqueue(s, a.FromSnapshot?, r);
    var g, latest' := QueuedIsGenuine(us, ps, s, from, latest, a);
    ReassemblyKept(s, a.FromSnapshot?, r);
    var t := CheckSync(next);
    CheckIsSafe(us, ps, next, t, g, latest');
    from' := if t.snaps == map[] then map[] else g;
  }

  /** One record, one step: the invariant survives if snapshots arrive in order and the markers agree. */
  lemma {:induction false} StepIsSafe(us: seq<MarketUpdate>, ps: seq<seq<MarketUpdate>>, s: Consumer,
                                      from: map<nat, nat>, latest: nat, a: Arrival)
    returns (from': map<nat, nat>)
    requires AllInSequence(NoReplicas(), us) && ps == AllSnapshots(us)
    requires Inv(us, ps, s, from, latest) && Genuine(us, ps, a)
    requires a.FromSnapshot? ==> latest <= a.n
    requires Agreeing(Queued(s, a.FromSnapshot?, RecordOf(us, ps, a)).snaps)
    ensures Inv(us, ps, OnRecord(s, a.FromSnapshot?, RecordOf(us, ps, a)), from', if a.FromSnapshot? then a.n else latest)
  {
    var r := RecordOf(us, ps, a);
    from' := from;
    if s.inRecovery {
      from' := QueueIsSafe(us, ps, s, from, latest, a);
    } else if r.seqNum != s.nextExp {
      from' := QueueIsSafe(us, ps, s.(inRecovery := true, snaps := map[], incs := map[]), map[], latest, a);
    } else if a.Incremental? {
      NextUpdateIsSafe(us, s);
    }
  }

  // ---------------------------------------------------------------- runs

  /** What one call of RecvCallback finds: records from one of the two sockets. */
  datatype Batch = Batch(isSnapshot: bool, arrivals: seq<Arrival>)

  function Records(us: seq<MarketUpdate>, ps: seq<seq<MarketUpdate>>, arrivals: seq<Arrival>): (rs: seq<Record>)
    requires forall a :: a in arrivals ==> Genuine(us, ps, a)
    ensures |rs| == |arrivals| && forall i :: 0 <= i < |rs| ==> rs[i] == RecordOf(us, ps, arrivals[i])
  {
    if arrivals == [] then [] else [RecordOf(us, ps, arrivals[0])] + Records(us, ps, arrivals[1..])
  }

  /** The network delivers genuine messages of the right socket, snapshots in the order they were taken;
      any message may be lost, and incrementals may also repeat and come in any order. */
  predicate FromNetwork(us: seq<MarketUpdate>, ps: seq<seq<MarketUpdate>>, b: Batch, latest: nat) {
    && (forall a :: a in b.arrivals ==> Genuine(us, ps, a) && (a.FromSnapshot? <==> b.isSnapshot))
    && (b.isSnapshot ==> forall i :: 0 <= i < |b.arrivals| ==>
          latest <= b.arrivals[i].n && forall j :: i < j < |b.arrivals| ==> b.arrivals[i].n <= b.arrivals[j].n)
  }

  function Latest(b: Batch, latest: nat): nat {
    if b.isSnapshot && b.arrivals != [] && b.arrivals[|b.arrivals| - 1].FromSnapshot?
    then b.arrivals[|b.arrivals| - 1].n else latest
  }

  /** At every record of the batch, the queued markers agree. */
  predicate MarkersAgree(s: Consumer, isSnapshot: bool, rs: seq<Record>)
    decreases |rs|
  {
    rs != [] ==>
      && Agreeing(Queued(s, isSnapshot, rs[0]).snaps)
      && MarkersAgree(OnRecord(s, isSnapshot, rs[0]), isSnapshot, rs[1..])
  }

  lemma {:induction false} BatchTail(us: seq<MarketUpdate>, ps: seq<seq<MarketUpdate>>, b: Batch, latest: nat)
    requires FromNetwork(us, ps, b, latest) && b.arrivals != []
    ensures var a := b.arrivals[0];
            var rest := Batch(b.isSnapshot, b.arrivals[1..]);
            var mid := if b.isSnapshot then a.n else latest;
            && Genuine(us, ps, a) && (a.FromSnapshot? <==> b.isSnapshot) && (a.FromSnapshot? ==> latest <= a.n)
            && FromNetwork(us, ps, rest, mid) && Latest(rest, mid) == Latest(b, latest)
            && Records(us, ps, b.arrivals) == [RecordOf(us, ps, a)] + Records(us, ps, rest.arrivals)
  {
    assert b.arrivals[0] in b.arrivals;
    assert b.arrivals[|b.arrivals| - 1] in b.arrivals;
  }

  lemma {:induction false} BatchIsSafe(us: seq<MarketUpdate>, ps: seq<seq<MarketUpdate>>, s: Consumer,
                                       from: map<nat, nat>, latest: nat, b: Batch)
    returns (from': map<nat, nat>)
    requires AllInSequence(NoReplicas(), us) && ps == AllSnapshots(us)
    requires Inv(us, ps, s, from, latest) && FromNetwork(us, ps, b, latest)
    requires MarkersAgree(s, b.isSnapshot, Records(us, ps, b.arrivals))
    ensures Inv(us, ps, OnRecords(s, b.isSnapshot, Records(us, ps, b.arrivals)), from', Latest(b, latest))
    decreases |b.arrivals|
  {
    if b.arrivals == [] {
      from' := from;
    } else {
      BatchTail(us, ps, b, latest);
      var a := b.arrivals[0];
      var r := RecordOf(us, ps, a);
      var rest := Batch(b.isSnapshot, b.arrivals[1..]);
      var more := Records(us, ps, rest.arrivals);
      assert Records(us, ps, b.arrivals)[1..] == more;
      from' := StepIsSafe(us, ps, s, from, latest, a);
      from' := BatchIsSafe(us, ps, OnRecord(s, b.isSnapshot, r), from', if b.isSnapshot then a.n else latest, rest);
    }
  }

  /** A run: batches from the network, received one after the other. */
  function RunConsumer(us: seq<MarketUpdate>, ps: seq<seq<MarketUpdate>>, s: Consumer, bs: seq<Batch>): Consumer
    requires forall b :: b in bs ==> forall a :: a in b.arrivals ==> Genuine(us, ps, a)
    decreases |bs|
  {
    if bs == [] then s
    else RunConsumer(us, ps, Receive(s, bs[0].isSnapshot, Records(us, ps, bs[0].arrivals)), bs[1..])
  }

  ghost predicate GoodRun(us: seq<MarketUpdate>, ps: seq<seq<MarketUpdate>>, s: Consumer, bs: seq<Batch>, latest: nat)
    decreases |bs|
  {
    bs != [] ==>
      var b := bs[0];
      && FromNetwork(us, ps, b, latest)
      && var rs := Records(us, ps, b.arrivals);
         && (!(b.isSnapshot && !s.inRecovery) ==> MarkersAgree(s, b.isSnapshot, rs))
         && GoodRun(us, ps, Receive(s, b.isSnapshot, rs), bs[1..], Latest(b, latest))
  }

  lemma {:induction false} RunIsSafe(us: seq<MarketUpdate>, ps: seq<seq<MarketUpdate>>, s: Consumer,
                                     from: map<nat, nat>, latest: nat, bs: seq<Batch>)
    requires AllInSequence(NoReplicas(), us) && ps == AllSnapshots(us)
    requires Inv(us, ps, s, from, latest) && GoodRun(us, ps, s, bs, latest)
    requires forall b :: b in bs ==> forall a :: a in b.arrivals ==> Genuine(us, ps, a)
    ensures var t := RunConsumer(us, ps, s, bs); !t.inRecovery ==> Synchronized(us, t)
    decreases |bs|
  {
    if bs != [] {
      var b := bs[0];
      assert b in bs;
      var rs := Records(us, ps, b.arrivals);
      var from' := from;
      if !(b.isSnapshot && !s.inRecovery) {
        from' := BatchIsSafe(us, ps, s, from, latest, b);
      }
      RunIsSafe(us, ps, Receive(s, b.isSnapshot, rs), from', Latest(b, latest), bs[1..]);
    }
  }

  /** From the start, over every run of the network. */
  lemma {:induction false} FreshConsumerIsSafe(us: seq<MarketUpdate>, ps: seq<seq<MarketUpdate>>, bs: seq<Batch>)
    requires AllInSequence(NoReplicas(), us) && ps == AllSnapshots(us)
    requires forall b :: b in bs ==> forall a :: a in b.arrivals ==> Genuine(us, ps, a)
    requires GoodRun(us, ps, NewConsumer(), bs, 0)
    ensures var t := RunConsumer(us, ps, NewConsumer(), bs); !t.inRecovery ==> Synchronized(us, t)
  {
    assert us[..0] == [];
    assert Synchronized(us, NewConsumer());
    RunIsSafe(us, ps, NewConsumer(), map[], 0, bs);
  }

  /** The exchange's own updates, all replayed, show its books. */
  lemma {:induction false} TruthIsBooks(requests: seq<ClientRequest>, us: seq<MarketUpdate>)
    requires LegalMarket(requests) && us == MarketRun(requests).updates
    ensures AllInSequence(NoReplicas(), us) && Truth(us, |us|) == PublicBooks(MarketRun(requests).books)
  {
    RunAgrees(requests);
    assert us[..|us|] == us;
  }

  /** Recovery safety: over every run of the exchange and every run of the network that keeps snapshots in
      order, a consumer that never meets disagreeing markers is, whenever out of recovery, exactly at the
      exchange's state after update `nextExp - 1`; once it has seen every update, its replicas are the
      exchange's books, FIFO order included. */
  lemma {:induction false} RecoveryIsSafe(requests: seq<ClientRequest>, us: seq<MarketUpdate>,
                                          ps: seq<seq<MarketUpdate>>, bs: seq<Batch>, t: Consumer)
    requires LegalMarket(requests) && us == MarketRun(requests).updates && ps == AllSnapshots(us)
    requires forall b :: b in bs ==> forall a :: a in b.arrivals ==> Genuine(us, ps, a)
    requires GoodRun(us, ps, NewConsumer(), bs, 0) && t == RunConsumer(us, ps, NewConsumer(), bs)
    ensures !t.inRecovery ==> Synchronized(us, t)
    ensures !t.inRecovery && t.nextExp == |us| + 1 ==>
              ReplayAll(NoReplicas(), t.out) == PublicBooks(MarketRun(requests).books)
  {
    TruthIsBooks(requests, us);
    FreshConsumerIsSafe(us, ps, bs);
  }
}

/** The sending side of market data: the publisher numbers the updates for both streams, the synthesizer folds
    them and publishes snapshots (src/market_data/market_data_publisher.cpp, src/market_data/snapshot_synthesizer.cpp). */
module MarketDataPublisherClass {
  import opened Types
  import opened Snapshot
  import opened Market
  import opened ConsumerModel
  import RecoverySafety

  /** `us` numbered from `k` on. */
  function Numbered(k: nat, us: seq<MarketUpdate>): (r: seq<Record>)
    ensures |r| == |us| && forall i :: 0 <= i < |us| ==> r[i] == Record(k + i, us[i])
  {
    seq(|us|, i requires 0 <= i < |us| => Record(k + i, us[i]))
  }

  lemma NumberedSplits(k: nat, us: seq<MarketUpdate>, vs: seq<MarketUpdate>)
    ensures Numbered(k, us + vs) == Numbered(k, us) + Numbered(k + |us|, vs)
  {
  }

  /** The first `i` batches, one after the other. */
  function Joined(batches: seq<seq<Record>>, i: nat): seq<Record>
    requires i <= |batches|
  {
    if i == 0 then [] else Joined(batches, i - 1) + batches[i - 1]
  }

  lemma {:induction false} JoinedGrows(batches: seq<seq<Record>>, i: nat, j: nat)
    requires i <= j <= |batches|
    ensures Joined(batches, i) <= Joined(batches, j)
    decreases j
  {
    if i < j {
      JoinedGrows(batches, i, j - 1);
    }
  }

  /** The batch carries the updates behind the first `n`, numbered on. */
  predicate Follows(batch: seq<Record>, us: seq<MarketUpdate>, n: nat) {
    n + |batch| <= |us| && forall k :: 0 <= k < |batch| ==> batch[k] == Record(n + k + 1, us[n + k])
  }

  function Part(us: seq<MarketUpdate>, n: nat, isDue: bool): seq<Record> {
    if isDue && n <= |us| then Numbered(0, SnapshotAt(us, n)) else []
  }

  /** The snapshot stream: behind each batch, if a snapshot is due, the one of the updates folded in so far. */
  function Scheduled(us: seq<MarketUpdate>, batches: seq<seq<Record>>, due: seq<bool>, i: nat): seq<Record>
    requires i <= |batches| == |due|
  {
    if i == 0 then [] else Scheduled(us, batches, due, i - 1) + Part(us, |Joined(batches, i)|, due[i - 1])
  }

  lemma {:induction false} BatchFollows(us: seq<MarketUpdate>, batches: seq<seq<Record>>, i: nat)
    requires i < |batches| && Joined(batches, |batches|) == Numbered(1, us)
    ensures Follows(batches[i], us, |Joined(batches, i)|)
  {
    JoinedGrows(batches, i + 1, |batches|);
  }

  lemma {:induction false} ScheduledNext(us: seq<MarketUpdate>, batches: seq<seq<Record>>, due: seq<bool>, i: nat,
                                         n: nat, m: nat, out: seq<Record>, next: seq<Record>)
    requires i < |batches| == |due| && n == |Joined(batches, i)| && m == |Joined(batches, i + 1)|
    requires out == Scheduled(us, batches, due, i) && next == Scheduled(us, batches, due, i + 1)
    ensures m == n + |batches[i]| && next == out + Part(us, m, due[i])
  {
  }

  // ---------------------------------------------------------------- what a due snapshot comes to

  /** The records `p` stand in the stream from position `k` on. */
  predicate Stands(out: seq<Record>, p: seq<Record>, k: nat) {
    k + |p| <= |out| && forall j :: 0 <= j < |p| ==> out[k + j] == p[j]
  }

  ghost predicate Contains(out: seq<Record>, p: seq<Record>) {
    exists k {:trigger Stands(out, p, k)} :: Stands(out, p, k)
  }

  /** How many snapshots a stream closes. */
  function Ends(out: seq<Record>): nat {
    if out == [] then 0 else Ends(out[..|out| - 1]) + if out[|out| - 1].update.kind == SnapshotEnd then 1 else 0
  }

  /** How often the timer went off behind the first `i` batches. */
  function Dues(due: seq<bool>, i: nat): nat
    requires i <= |due|
  {
    if i == 0 then 0 else Dues(due, i - 1) + if due[i - 1] then 1 else 0
  }

  /** For every time the timer went off, the whole snapshot of the updates read by then is in the stream. */
  ghost predicate AllDueSent(us: seq<MarketUpdate>, batches: seq<seq<Record>>, due: seq<bool>, out: seq<Record>) {
    |due| == |batches|
    && forall i {:trigger due[i]} :: 0 <= i < |due| && due[i] && |Joined(batches, i + 1)| <= |us| ==>
         Contains(out, Numbered(0, SnapshotAt(us, |Joined(batches, i + 1)|)))
  }

  lemma StandsBehind(before: seq<Record>, out: seq<Record>, p: seq<Record>, k: nat)
    requires Stands(out, p, k)
    ensures Stands(before + out, p, |before| + k)
  {
    forall j | 0 <= j < |p| ensures (before + out)[|before| + k + j] == p[j] {
      assert (before + out)[|before| + (k + j)] == out[k + j];
    }
  }

  lemma StandsIn(before: seq<Record>, p: seq<Record>, next: seq<Record>, whole: seq<Record>)
    requires next == before + p && next <= whole
    ensures Stands(whole, p, |before|)
  {
    forall j | 0 <= j < |p| ensures whole[|before| + j] == p[j] {
      assert whole[|before| + j] == next[|before| + j];
    }
  }

  lemma {:induction false} PartIsWhole(us: seq<MarketUpdate>, n: nat)
    requires n <= |us|
    ensures Part(us, n, true) == Numbered(0, SnapshotAt(us, n))
  {
  }

  lemma {:induction false} ScheduleGrows(us: seq<MarketUpdate>, batches: seq<seq<Record>>, due: seq<bool>, i: nat, m: nat)
    requires i <= m <= |batches| == |due|
    ensures Scheduled(us, batches, due, i) <= Scheduled(us, batches, due, m)
    decreases m
  {
    if i < m {
      ScheduleGrows(us, batches, due, i, m - 1);
    }
  }

  /** A due snapshot is sent, whole. */
  lemma {:induction false} DueIsSent(us: seq<MarketUpdate>, batches: seq<seq<Record>>, due: seq<bool>, i: nat, m: nat,
                                     p: seq<Record>)
    returns (k: nat)
    requires i < m <= |batches| == |due| && due[i] && |Joined(batches, i + 1)| <= |us|
    requires p == Part(us, |Joined(batches, i + 1)|, true)
    ensures Stands(Scheduled(us, batches, due, m), p, k)
  {
    var before, next := Scheduled(us, batches, due, i), Scheduled(us, batches, due, i + 1);
    k := |before|;
    ScheduledNext(us, batches, due, i, |Joined(batches, i)|, |Joined(batches, i + 1)|, before, next);
    ScheduleGrows(us, batches, due, i + 1, m);
    StandsIn(before, p, next, Scheduled(us, batches, due, m));
  }

  lemma {:induction false} EndsOfParts(out: seq<Record>, more: seq<Record>)
    ensures Ends(out + more) == Ends(out) + Ends(more)
    decreases |more|
  {
    if more == [] {
      assert out + more == out;
    } else {
      var m := |more| - 1;
      assert (out + more)[..|out| + m] == out + more[..m];
      EndsOfParts(out, more[..m]);
    }
  }

  lemma {:induction false} NoEnds(out: seq<Record>)
    requires forall i :: 0 <= i < |out| ==> out[i].update.kind != SnapshotEnd
    ensures Ends(out) == 0
  {
    if out != [] {
      NoEnds(out[..|out| - 1]);
    }
  }

  lemma OneEnd(p: seq<MarketUpdate>)
    requires RecoverySafety.Bracketed(p)
    ensures Ends(Numbered(0, p)) == 1
  {
    NoEnds(Numbered(0, p)[..|p| - 1]);
  }

  lemma {:induction false} SnapshotIsBracketed(us: seq<MarketUpdate>, n: nat)
    requires AllInSequence(NoReplicas(), us) && n <= |us|
    ensures RecoverySafety.Bracketed(SnapshotAt(us, n))
  {
    RecoverySafety.SnapshotsRestore(us);
    assert RecoverySafety.Shaped(RecoverySafety.AllSnapshots(us)[n], n);
  }

  /** Snapshots go out when they are due and at no other time. */
  lemma {:induction false} EndsAreDues(us: seq<MarketUpdate>, batches: seq<seq<Record>>, due: seq<bool>, m: nat)
    requires m <= |batches| == |due| && |Joined(batches, m)| <= |us| && AllInSequence(NoReplicas(), us)
    ensures Ends(Scheduled(us, batches, due, m)) == Dues(due, m)
  {
    if m > 0 {
      var n := |Joined(batches, m)|;
      EndsAreDues(us, batches, due, m - 1);
      EndsOfParts(Scheduled(us, batches, due, m - 1), Part(us, n, due[m - 1]));
      if due[m - 1] {
        SnapshotIsBracketed(us, n);
        OneEnd(SnapshotAt(us, n));
      }
    }
  }

  lemma {:induction false} ScheduleSendsAllDue(us: seq<MarketUpdate>, batches: seq<seq<Record>>, due: seq<bool>,
                                               before: seq<Record>, all: seq<Record>)
    requires |batches| == |due| && |Joined(batches, |batches|)| <= |us| && AllInSequence(NoReplicas(), us)
    requires all == before + Scheduled(us, batches, due, |batches|)
    ensures AllDueSent(us, batches, due, all) && Ends(all) == Ends(before) + Dues(due, |due|)
  {
    var out := Scheduled(us, batches, due, |batches|);
    EndsAreDues(us, batches, due, |batches|);
    EndsOfParts(before, out);
    forall i | 0 <= i < |due| && due[i] && |Joined(batches, i + 1)| <= |us|
      ensures Contains(all, Numbered(0, SnapshotAt(us, |Joined(batches, i + 1)|)))
    {
      var p := Numbered(0, SnapshotAt(us, |Joined(batches, i + 1)|));
      PartIsWhole(us, |Joined(batches, i + 1)|);
      var k := DueIsSent(us, batches, due, i, |batches|, p);
      StandsBehind(before, out, p, k);
    }
  }

  class MarketDataPublisher {
    var nextIncSeqNum: nat
    /** What went out on the incremental stream, and what was handed to the synthesizer. */
    var incremental: seq<Record>
    var snapshotQueue: seq<Record>

    constructor ()
      ensures nextIncSeqNum == 1 && incremental == [] && snapshotQueue == []
    {
      nextIncSeqNum, incremental, snapshotQueue := 1, [], [];
    }

    /** Both streams carry the updates numbered 1, 2, 3 and so on, whatever the batches they arrive in. */
    ghost predicate Published(us: seq<MarketUpdate>)
      reads this
    {
      nextIncSeqNum == |us| + 1 && incremental == Numbered(1, us) && snapshotQueue == Numbered(1, us)
    }

    method Run(batch: seq<MarketUpdate>, ghost us: seq<MarketUpdate>)
      requires Published(us)
      modifies this
      ensures Published(us + batch)
    {
      var i := 0;
      assert us + batch[..0] == us;
      while i < |batch|
        invariant 0 <= i <= |batch| && Published(us + batch[..i])
      {
        assert us + batch[..i + 1] == us + batch[..i] + [batch[i]];
        NumberedSplits(1, us + batch[..i], [batch[i]]);
        assert Numbered(nextIncSeqNum, [batch[i]]) == [Record(nextIncSeqNum, batch[i])];
        incremental := incremental + [Record(nextIncSeqNum, batch[i])];
        snapshotQueue := snapshotQueue + [Record(nextIncSeqNum, batch[i])];
        nextIncSeqNum := nextIncSeqNum + 1;
        i := i + 1;
      }
      assert us + batch[..i] == us + batch;
    }
  }

  class SnapshotSynthesizer {
    var tickerOrders: seq<OrderTable>
    var lastIncSeqNum: nat
    /** What went out on the snapshot stream. */
    var sent: seq<Record>

    constructor ()
      ensures sent == [] && forall us :: Folded(us, 0)
    {
      tickerOrders, lastIncSeqNum, sent := NoTables(), 0, [];
    }

    /** The tables and the number are those of the first `n` updates. */
    ghost predicate Folded(us: seq<MarketUpdate>, n: nat)
      reads this
    {
      n <= |us| && tickerOrders == FoldAll(NoTables(), us[..n]) && lastIncSeqNum == n
    }

    /** One record folded in; what the ASSERTs and array bounds of AddToSnapshot demand is required. */
    method AddToSnapshot(r: Record)
      requires r.update.ticker < |tickerOrders| && Expected(tickerOrders[r.update.ticker], r.update)
      requires r.seqNum == lastIncSeqNum + 1
      modifies this`tickerOrders, this`lastIncSeqNum
      ensures tickerOrders == old(tickerOrders)[r.update.ticker := Fold(old(tickerOrders)[r.update.ticker], r.update)]
      ensures lastIncSeqNum == old(lastIncSeqNum) + 1
    {
      var u := r.update;
      var orders := tickerOrders[u.ticker];
      match u.kind {
        case Add => orders := orders[u.orderId := u];
        case Modify =>
          orders := orders[u.orderId := orders[u.orderId].(qty := u.qty, price := u.price)];
        case Cancel => orders := orders - {u.orderId};
        case _ =>
      }
      tickerOrders := tickerOrders[u.ticker := orders];
      lastIncSeqNum := r.seqNum;
    }

    /** After `i` batches: everything in them is folded in, and what was due has gone out. */
    ghost predicate Through(us: seq<MarketUpdate>, batches: seq<seq<Record>>, due: seq<bool>, i: nat, before: seq<Record>)
      reads this
    {
      && i <= |batches| == |due| && Folded(us, |Joined(batches, i)|)
      && sent == before + Scheduled(us, batches, due, i)
    }

    /** The outer loop: what the publisher queued is folded in, then a snapshot goes out if the timer says so. No
        ASSERT is tripped, and every snapshot is the one the recovery theorem takes for its update. */
    method Run(batches: seq<seq<Record>>, due: seq<bool>, ghost us: seq<MarketUpdate>)
      requires Folded(us, 0) && |due| == |batches|
      requires Joined(batches, |batches|) == Numbered(1, us) && AllInSequence(NoReplicas(), us)
      modifies this
      ensures Folded(us, |us|) && sent == old(sent) + Scheduled(us, batches, due, |batches|)
      ensures AllDueSent(us, batches, due, sent) && Ends(sent) == Ends(old(sent)) + Dues(due, |due|)
    {
      Turns(batches, due, us);
      ScheduleSendsAllDue(us, batches, due, old(sent), sent);
    }

    method Turns(batches: seq<seq<Record>>, due: seq<bool>, ghost us: seq<MarketUpdate>)
      requires Folded(us, 0) && |due| == |batches|
      requires Joined(batches, |batches|) == Numbered(1, us) && AllInSequence(NoReplicas(), us)
      modifies this
      ensures Folded(us, |us|) && sent == old(sent) + Scheduled(us, batches, due, |batches|)
    {
      var i := 0;
      while i < |batches|
        invariant 0 <= i <= |batches| && Through(us, batches, due, i, old(sent))
      {
        Turn(batches, due, us, i, old(sent));
        i := i + 1;
      }
    }

    method Turn(batches: seq<seq<Record>>, due: seq<bool>, ghost us: seq<MarketUpdate>, i: nat, ghost before: seq<Record>)
      requires i < |batches| && Through(us, batches, due, i, before)
      requires Joined(batches, |batches|) == Numbered(1, us) && AllInSequence(NoReplicas(), us)
      modifies this
      ensures Through(us, batches, due, i + 1, before)
    {
      ghost var n, m := |Joined(batches, i)|, |Joined(batches, i + 1)|;
      ghost var out, next := Scheduled(us, batches, due, i), Scheduled(us, batches, due, i + 1);
      BatchFollows(us, batches, i);
      ScheduledNext(us, batches, due, i, n, m, out, next);
      DrainAndPublish(batches[i], due[i], us, n, m, before, out, next);
    }

    method DrainAndPublish(batch: seq<Record>, isDue: bool, ghost us: seq<MarketUpdate>, ghost n: nat, ghost m: nat,
                           ghost before: seq<Record>, ghost out: seq<Record>, ghost next: seq<Record>)
      requires Follows(batch, us, n) && AllInSequence(NoReplicas(), us) && Folded(us, n) && m == n + |batch|
      requires sent == before + out && next == out + Part(us, m, isDue)
      modifies this
      ensures Folded(us, m) && sent == before + next
    {
      Drain(batch, us, n);
      PublishIfDue(isDue, us, m, before, out);
    }

    method PublishIfDue(isDue: bool, ghost us: seq<MarketUpdate>, ghost n: nat, ghost before: seq<Record>, ghost out: seq<Record>)
      requires Folded(us, n) && sent == before + out
      modifies this`sent
      ensures Folded(us, n) && sent == before + (out + Part(us, n, isDue))
    {
      Grouped(before, out, Part(us, n, isDue));
      if isDue {
        PublishSnapshot();
      }
    }

    /** The inner loop: everything queued is folded in. */
    method Drain(batch: seq<Record>, ghost us: seq<MarketUpdate>, ghost n: nat)
      requires Follows(batch, us, n) && AllInSequence(NoReplicas(), us) && Folded(us, n)
      modifies this`tickerOrders, this`lastIncSeqNum
      ensures Folded(us, n + |batch|)
    {
      var i := 0;
      while i < |batch|
        invariant 0 <= i <= |batch|
        invariant Folded(us, n + i)
      {
        assert us[..n + i + 1] == us[..n + i] + [us[n + i]] && batch[i] == Record(n + i + 1, us[n + i]);
        InSequencePrefix(NoReplicas(), us, n + i + 1);
        NextFold(us[..n + i], us[n + i]);
        AddToSnapshot(batch[i]);
        i := i + 1;
      }
    }

    method Send(u: MarketUpdate, snapshotSize: nat) returns (next: nat)
      modifies this`sent
      ensures sent == old(sent) + [Record(snapshotSize, u)] && next == snapshotSize + 1
    {
      sent := sent + [Record(snapshotSize, u)];
      next := snapshotSize + 1;
    }

    /** Sends START, then per ticker CLEAR and the live orders by increasing id, then END, numbered from 0. */
    method PublishSnapshot()
      modifies this`sent
      ensures sent == old(sent) + Numbered(0, Published(tickerOrders, lastIncSeqNum))
    {
      var size := Send(Bracket(SnapshotStart, lastIncSeqNum), 0);
      ghost var done := [Bracket(SnapshotStart, lastIncSeqNum)];
      var t := 0;
      while t < |tickerOrders|
        invariant 0 <= t <= |tickerOrders| && size == |done|
        invariant sent == old(sent) + Numbered(0, done)
        invariant done + Body(tickerOrders, t) == [Bracket(SnapshotStart, lastIncSeqNum)] + Body(tickerOrders, 0)
      {
        size, done := PublishTicker(t, size, done, old(sent));
        t := t + 1;
      }
      NumberedSplits(0, done, [Bracket(SnapshotEnd, lastIncSeqNum)]);
      size := Send(Bracket(SnapshotEnd, lastIncSeqNum), size);
    }

    /** The order of id `k`, if there is one. */
    method PublishOrder(orders: OrderTable, k: nat, size: nat, ghost done: seq<MarketUpdate>, ghost before: seq<Record>)
      returns (size': nat, ghost done': seq<MarketUpdate>)
      requires k < MAX_ORDER_IDS && size == |done| && sent == before + Numbered(0, done)
      modifies this`sent
      ensures size' == |done'| && sent == before + Numbered(0, done')
      ensures done' + OrdersFrom(orders, k + 1, MAX_ORDER_IDS) == done + OrdersFrom(orders, k, MAX_ORDER_IDS)
    {
      size', done' := size, done;
      if k in orders {
        NumberedSplits(0, done, [orders[k]]);
        Grouped(done, [orders[k]], OrdersFrom(orders, k + 1, MAX_ORDER_IDS));
        size' := Send(orders[k], size);
        done' := done + [orders[k]];
      }
    }

    method PublishTicker(t: nat, size: nat, ghost done: seq<MarketUpdate>, ghost before: seq<Record>)
      returns (size': nat, ghost done': seq<MarketUpdate>)
      requires t < |tickerOrders| && size == |done| && sent == before + Numbered(0, done)
      modifies this`sent
      ensures size' == |done'| && sent == before + Numbered(0, done')
      ensures done' + Body(tickerOrders, t + 1) == done + Body(tickerOrders, t)
    {
      var orders := tickerOrders[t];
      ghost var head := done + [ClearMessage(t)];
      NumberedSplits(0, done, [ClearMessage(t)]);
      size' := Send(ClearMessage(t), size);
      done' := head;
      var k := 0;
      while k < MAX_ORDER_IDS
        invariant 0 <= k <= MAX_ORDER_IDS && size' == |done'| && sent == before + Numbered(0, done')
        invariant done' + OrdersFrom(orders, k, MAX_ORDER_IDS) == head + OrdersFrom(orders, 0, MAX_ORDER_IDS)
      {
        size', done' := PublishOrder(orders, k, size', done', before);
        k := k + 1;
      }
      assert OrdersFrom(orders, k, MAX_ORDER_IDS) == [];
      assert done' == head + OrdersFrom(orders, 0, MAX_ORDER_IDS);
      assert done' == done + ([ClearMessage(t)] + OrdersFrom(orders, 0, MAX_ORDER_IDS));
      assert Body(tickerOrders, t) == [ClearMessage(t)] + OrdersFrom(orders, 0, MAX_ORDER_IDS) + Body(tickerOrders, t + 1);
    }
  }
}

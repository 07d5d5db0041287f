/** The consumer as it is written: two ordered maps walked by loops, a flag and a counter
    (src/market_data/market_data_consumer.cpp). */
module MarketDataConsumerClass {
  import opened Types
  import opened ConsumerModel

  /** `k` comes first in the iteration order of std::map. */
  predicate Least(s: set<nat>, k: nat) {
    k in s && forall j :: j in s ==> k <= j
  }

  lemma {:induction false} LeastExists(s: set<nat>)
    requires s != {}
    ensures exists k :: Least(s, k)
  {
    var k :| k in s;
    if !Least(s, k) {
      var t := set j | j in s && j < k;
      var i :| i in s && i < k;
      assert i in t && k !in t;
      LeastExists(t);
      var m :| Least(t, m);
      assert forall j :: j in s && j < k ==> j in t;
      assert Least(s, m);
    }
  }

  /** Behind messages 0 to `next - 1` comes `next`, or the queue has a gap. */
  lemma NextOrGap(q: Queue, next: nat, k: nat)
    requires Upto(next) <= q.Keys && Least(q.Keys - Upto(next), k)
    ensures k != next ==> !Gapless(q)
    ensures k == next ==> q.Keys - Upto(next) - {k} == q.Keys - Upto(next + 1) && Upto(next + 1) <= q.Keys
  {
    var rest := q.Keys - Upto(next);
    assert k !in Upto(next) && next !in Upto(next);
    if k != next {
      assert next in q.Keys ==> next in rest;
      assert next < k;
      assert next !in q.Keys;
    }
  }

  lemma EventsNext(q: Queue, next: nat)
    requires next in q
    ensures Events(q, 0, next + 1) == Events(q, 0, next) + if IsBracket(q[next]) then [] else [q[next]]
  {
  }

  lemma {:induction false} AllCollected(q: Queue, next: nat)
    requires q.Keys == Upto(next)
    ensures Gapless(q) && next == |q|
  {
    assert |q| == |q.Keys|;
  }

  class MarketDataConsumer {
    var nextExpIncSeqNum: nat
    var inRecovery: bool
    var snapshotQueuedMsgs: Queue
    var incrementalQueuedMsgs: Queue
    var incomingMdUpdates: seq<MarketUpdate>

    ghost function State(): Consumer
      reads this
    {
      Consumer(nextExpIncSeqNum, inRecovery, snapshotQueuedMsgs, incrementalQueuedMsgs, incomingMdUpdates)
    }

    constructor ()
      ensures State() == NewConsumer()
    {
      nextExpIncSeqNum := 1;
      inRecovery := false;
      snapshotQueuedMsgs := map[];
      incrementalQueuedMsgs := map[];
      incomingMdUpdates := [];
    }

    method StartSnapshotSync()
      modifies this
      ensures State() == old(State()).(snaps := map[], incs := map[])
    {
      snapshotQueuedMsgs := map[];
      incrementalQueuedMsgs := map[];
    }

    /** First loop of CheckSnapshotSync: is the snapshot queue gapless, and which events does it hold? */
    method CollectSnapshot() returns (complete: bool, events: seq<MarketUpdate>)
      ensures complete <==> Gapless(snapshotQueuedMsgs)
      ensures complete ==> events == Events(snapshotQueuedMsgs, 0, |snapshotQueuedMsgs|)
    {
      var q := snapshotQueuedMsgs;
      complete := true;
      events := [];
      var next := 0;
      var rest := q.Keys;
      while rest != {}
        invariant complete && rest == q.Keys - Upto(next) && Upto(next) <= q.Keys
        invariant events == Events(q, 0, next)
        decreases rest
      {
        LeastExists(rest);
        var k: nat :| Least(rest, k);
        NextOrGap(q, next, k);
        if k != next {
          complete := false;
          break;
        }
        EventsNext(q, next);
        if !IsBracket(q[k]) {
          events := events + [q[k]];
        }
        next := next + 1;
        rest := rest - {k};
      }
      if complete {
        AllCollected(q, next);
      }
    }

    /** Second loop of CheckSnapshotSync: walk the queued incrementals from `nextExpIncSeqNum` on. */
    method CollectIncrementals(before: seq<MarketUpdate>) returns (complete: bool, events: seq<MarketUpdate>)
      modifies this`nextExpIncSeqNum
      ensures nextExpIncSeqNum == FirstGap(incrementalQueuedMsgs, old(nextExpIncSeqNum))
      ensures complete <==> !Beyond(incrementalQueuedMsgs, nextExpIncSeqNum)
      ensures complete ==> events == before + Events(incrementalQueuedMsgs, old(nextExpIncSeqNum), nextExpIncSeqNum)
    {
      var q := incrementalQueuedMsgs;
      ghost var base := nextExpIncSeqNum;
      complete := true;
      events := before;
      var rest := q.Keys;
      while rest != {}
        invariant complete && rest <= q.Keys && base <= nextExpIncSeqNum
        invariant forall k :: k in q && k !in rest ==> k < nextExpIncSeqNum
        invariant forall i :: base <= i < nextExpIncSeqNum ==> i in q && i !in rest
        invariant events == before + Events(q, base, nextExpIncSeqNum)
        decreases rest
      {
        LeastExists(rest);
        var k: nat :| Least(rest, k);
        if k < nextExpIncSeqNum {
          rest := rest - {k};
          continue;
        }
        if k != nextExpIncSeqNum {
          complete := false;
          assert nextExpIncSeqNum !in q;
          break;
        }
        if !IsBracket(q[k]) {
          events := events + [q[k]];
        }
        nextExpIncSeqNum := nextExpIncSeqNum + 1;
        rest := rest - {k};
      }
      GapIs(q, base, nextExpIncSeqNum);
    }

    /** Does the first queued snapshot message open a snapshot? */
    method OpensWithStart() returns (start: bool)
      requires |snapshotQueuedMsgs| > 0
      ensures Gapless(snapshotQueuedMsgs) ==>
                0 in snapshotQueuedMsgs && (start <==> snapshotQueuedMsgs[0].kind == SnapshotStart)
    {
      LeastExists(snapshotQueuedMsgs.Keys);
      var first: nat :| Least(snapshotQueuedMsgs.Keys, first);
      start := snapshotQueuedMsgs[first].kind == SnapshotStart;
    }

    method CheckSnapshotSync()
      modifies this
      ensures State() == CheckSync(old(State()))
    {
      if |snapshotQueuedMsgs| == 0 {
        return;
      }
      var start := OpensWithStart();
      if !start {
        snapshotQueuedMsgs := map[];
        return;
      }
      var complete, snapshotEvents := CollectSnapshot();
      if !complete {
        snapshotQueuedMsgs := map[];
        return;
      }
      var last := snapshotQueuedMsgs[|snapshotQueuedMsgs| - 1];
      if last.kind != SnapshotEnd {
        return;
      }
      WholeIsCaught(State(), snapshotEvents);
      CatchUp(last.orderId + 1, snapshotEvents);
    }

    /** The rest of CheckSnapshotSync, for a whole snapshot: end recovery, or go on without it. */
    method CatchUp(base: nat, snapshotEvents: seq<MarketUpdate>)
      modifies this
      ensures State() == Caught(old(State()), base, snapshotEvents)
    {
      nextExpIncSeqNum := base;
      var completeIncremental, finalEvents := CollectIncrementals(snapshotEvents);
      if !completeIncremental {
        snapshotQueuedMsgs := map[];
        return;
      }
      incomingMdUpdates := incomingMdUpdates + finalEvents;
      snapshotQueuedMsgs := map[];
      incrementalQueuedMsgs := map[];
      inRecovery := false;
    }

    static ghost function Caught(s: Consumer, base: nat, snapshotEvents: seq<MarketUpdate>): Consumer {
      var next := FirstGap(s.incs, base);
      if Beyond(s.incs, next) then s.(snaps := map[], nextExp := next)
      else Consumer(next, false, map[], map[], s.out + (snapshotEvents + Events(s.incs, base, next)))
    }

    static lemma WholeIsCaught(s: Consumer, events: seq<MarketUpdate>)
      requires WholeSnapshot(s.snaps) && events == Events(s.snaps, 0, |s.snaps|)
      ensures CheckSync(s) == Caught(s, s.snaps[|s.snaps| - 1].orderId + 1, events)
    {
      var base := s.snaps[|s.snaps| - 1].orderId + 1;
      Grouped(s.out, events, Events(s.incs, base, FirstGap(s.incs, base)));
    }

    method QueueMessage(isSnapshot: bool, request: Record)
      modifies this
      ensures State() == CheckSync(Enqueue(old(State()), isSnapshot, request))
    {
      if isSnapshot {
        if request.seqNum in snapshotQueuedMsgs {
          snapshotQueuedMsgs := map[];
        }
        snapshotQueuedMsgs := snapshotQueuedMsgs[request.seqNum := request.update];
      } else {
        incrementalQueuedMsgs := incrementalQueuedMsgs[request.seqNum := request.update];
      }
      CheckSnapshotSync();
    }

    method RecvCallback(isSnapshot: bool, requests: seq<Record>)
      modifies this
      ensures State() == Receive(old(State()), isSnapshot, requests)
    {
      if isSnapshot && !inRecovery {
        return;
      }
      var i := 0;
      while i < |requests|
        invariant 0 <= i <= |requests|
        invariant OnRecords(State(), isSnapshot, requests[i..]) == OnRecords(old(State()), isSnapshot, requests)
      {
        var request := requests[i];
        assert requests[i..][1..] == requests[i + 1..];
        var alreadyInRecovery := inRecovery;
        inRecovery := alreadyInRecovery || request.seqNum != nextExpIncSeqNum;
        if inRecovery {
          if !alreadyInRecovery {
            StartSnapshotSync();
          }
          QueueMessage(isSnapshot, request);
        } else if !isSnapshot {
          nextExpIncSeqNum := nextExpIncSeqNum + 1;
          incomingMdUpdates := incomingMdUpdates + [request.update];
        }
        i := i + 1;
      }
    }
  }

  lemma {:induction false} GapIs(q: Queue, base: nat, m: nat)
    requires base <= m && m !in q && forall i :: base <= i < m ==> i in q
    ensures FirstGap(q, base) == m
    decreases m - base
  {
    if base < m { GapIs(q, base + 1, m); }
  }
}

/** What the consumer owes its reader, record by record: what it delivers, when it starts to recover, what it keeps
    while recovering, and exactly when recovery ends. */
module ConsumerLaws {
  import opened Types
  import opened ConsumerModel
  import opened MarketDataPublisherClass

  // ---------------------------------------------------------------- outside recovery

  /** Records in sequence are delivered as they come, and the consumer stays out of recovery. */
  lemma {:induction false} InSequenceDelivered(s: Consumer, us: seq<MarketUpdate>, rs: seq<Record>)
    requires !s.inRecovery && rs == Numbered(s.nextExp, us)
    ensures Receive(s, false, rs) == s.(nextExp := s.nextExp + |us|, out := s.out + us)
    decreases |us|
  {
    if us == [] {
      assert s.out + us == s.out;
    } else {
      var next := OnRecord(s, false, rs[0]);
      assert rs[1..] == Numbered(s.nextExp + 1, us[1..]);
      assert us == [us[0]] + us[1..];
      InSequenceDelivered(next, us[1..], rs[1..]);
      Grouped(s.out, [us[0]], us[1..]);
    }
  }

  /** Any other number starts a recovery in which exactly that record is queued; nothing is delivered. */
  lemma GapStartsRecovery(s: Consumer, r: Record)
    requires !s.inRecovery && r.seqNum != s.nextExp
    ensures Receive(s, false, [r]) == Consumer(s.nextExp, true, map[], map[r.seqNum := r.update], s.out)
  {
    assert [r][1..] == [];
    assert OnRecords(OnRecord(s, false, r), false, []) == OnRecord(s, false, r);
  }

  /** Snapshots are of no interest outside recovery. */
  lemma SnapshotsIgnored(s: Consumer, rs: seq<Record>)
    requires !s.inRecovery
    ensures Receive(s, true, rs) == s
  {
  }

  lemma {:induction false} RecordsSplit(s: Consumer, isSnapshot: bool, rs: seq<Record>, more: seq<Record>)
    ensures OnRecords(s, isSnapshot, rs + more) == OnRecords(OnRecords(s, isSnapshot, rs), isSnapshot, more)
    decreases |rs|
  {
    if rs == [] {
      assert rs + more == more;
    } else {
      assert (rs + more)[1..] == rs[1..] + more;
      RecordsSplit(OnRecord(s, isSnapshot, rs[0]), isSnapshot, rs[1..], more);
    }
  }

  // ---------------------------------------------------------------- a network that loses nothing

  /** What one call of RecvCallback finds in the buffer of one of the two sockets. */
  datatype Call = Call(isSnapshot: bool, records: seq<Record>)

  function ReceiveAll(s: Consumer, calls: seq<Call>): Consumer {
    if calls == [] then s
    else Receive(ReceiveAll(s, calls[..|calls| - 1]), calls[|calls| - 1].isSnapshot, calls[|calls| - 1].records)
  }

  /** The records of the incremental stream among what was read. */
  function Incrementals(calls: seq<Call>): seq<Record> {
    if calls == [] then []
    else Incrementals(calls[..|calls| - 1]) + IncrementalsOf(calls[|calls| - 1])
  }

  lemma NumberedParts(k: nat, us: seq<MarketUpdate>, rs: seq<Record>, more: seq<Record>)
    requires rs + more == Numbered(k, us)
    ensures |rs| <= |us| && rs == Numbered(k, us[..|rs|]) && more == Numbered(k + |rs|, us[|rs|..])
  {
    assert |rs + more| == |us|;
    forall i | 0 <= i < |rs| ensures rs[i] == Record(k + i, us[i]) { assert rs[i] == (rs + more)[i]; }
    forall i | 0 <= i < |more| ensures more[i] == Record(k + |rs| + i, us[|rs|..][i]) {
      assert more[i] == (rs + more)[|rs| + i];
    }
  }

  /** The consumer has never needed a snapshot, and has delivered the first `us` updates. */
  ghost predicate InStep(s: Consumer, us: seq<MarketUpdate>) {
    s == Consumer(|us| + 1, false, map[], map[], us)
  }

  function IncrementalsOf(call: Call): seq<Record> {
    if call.isSnapshot then [] else call.records
  }

  lemma NextInStep(s: Consumer, us: seq<MarketUpdate>, vs: seq<MarketUpdate>, call: Call)
    requires InStep(s, us) && IncrementalsOf(call) == Numbered(|us| + 1, vs)
    ensures InStep(Receive(s, call.isSnapshot, call.records), us + vs)
  {
    if call.isSnapshot {
      assert |vs| == 0;
    } else {
      InSequenceDelivered(s, vs, call.records);
    }
  }

  /** Nothing lost, repeated or out of order on the incremental stream, whatever is read from the snapshot stream
      in between and in whatever pieces: the consumer is never in recovery and has delivered every update. */
  lemma {:induction false} LosslessIsInStep(us: seq<MarketUpdate>, calls: seq<Call>)
    requires Incrementals(calls) == Numbered(1, us)
    ensures InStep(ReceiveAll(NewConsumer(), calls), us)
    decreases |calls|
  {
    if calls == [] {
      assert us == [];
    } else {
      var m := |calls| - 1;
      var n := |Incrementals(calls[..m])|;
      NumberedParts(1, us, Incrementals(calls[..m]), IncrementalsOf(calls[m]));
      LosslessIsInStep(us[..n], calls[..m]);
      NextInStep(ReceiveAll(NewConsumer(), calls[..m]), us[..n], us[n..], calls[m]);
      assert us[..n] + us[n..] == us;
    }
  }

  /** The other way round: the first incremental that is not the next one ends that. */
  lemma {:induction false} FirstLossIsNoticed(us: seq<MarketUpdate>, calls: seq<Call>, vs: seq<MarketUpdate>, rs: seq<Record>,
                                              r: Record)
    requires Incrementals(calls) == Numbered(1, us) && rs == Numbered(|us| + 1, vs) && r.seqNum != |us| + |vs| + 1
    ensures ReceiveAll(NewConsumer(), calls + [Call(false, rs + [r])])
            == Consumer(|us| + |vs| + 1, true, map[], map[r.seqNum := r.update], us + vs)
  {
    var all := calls + [Call(false, rs + [r])];
    var s := ReceiveAll(NewConsumer(), calls);
    assert all[..|calls|] == calls && all[|calls|] == Call(false, rs + [r]);
    LosslessIsInStep(us, calls);
    InSequenceDelivered(s, vs, rs);
    RecordsSplit(s, false, rs, [r]);
    GapStartsRecovery(Receive(s, false, rs), r);
  }

  // ---------------------------------------------------------------- in recovery

  /** The updates above number `n` are queued without a gap. */
  ghost predicate NoGapAbove(q: Queue, n: nat) {
    forall i, k :: n < i <= k && k in q ==> i in q
  }

  lemma {:induction false} GapAbove(q: Queue, n: nat)
    ensures Beyond(q, FirstGap(q, n + 1)) <==> !NoGapAbove(q, n)
  {
    var next := FirstGap(q, n + 1);
    if Beyond(q, next) {
      var k :| k in q && k > next;
      assert n < next <= k && next !in q;
    } else {
      forall i, k | n < i <= k && k in q ensures i in q {
        assert k <= next;
        assert k != next;
      }
    }
  }

  /** A record that comes in during recovery is queued; a snapshot message that was queued already starts that queue
      over. */
  ghost predicate QueuedWith(s: Consumer, isSnapshot: bool, r: Record, snaps: Queue, incs: Queue) {
    if isSnapshot then
      && incs == s.incs
      && snaps == if r.seqNum in s.snaps then map[r.seqNum := r.update] else s.snaps[r.seqNum := r.update]
    else snaps == s.snaps && incs == s.incs[r.seqNum := r.update]
  }

  /** Recovery ends with this record exactly when the snapshot queue then runs from START to END without a gap and
      the incrementals above the number in END have none. Until then nothing is delivered and no incremental is
      dropped; the snapshot queue is kept as long as it runs from START without a gap and without END. */
  lemma RecoveryEndsExactly(s: Consumer, isSnapshot: bool, r: Record, snaps: Queue, incs: Queue, t: Consumer)
    requires s.inRecovery && QueuedWith(s, isSnapshot, r, snaps, incs) && t == OnRecord(s, isSnapshot, r)
    ensures !t.inRecovery <==> WholeSnapshot(snaps) && NoGapAbove(incs, snaps[|snaps| - 1].orderId)
    ensures t.inRecovery ==> t.out == s.out && t.incs == incs
    ensures t.inRecovery ==> t.snaps == if Growing(snaps) && !WholeSnapshot(snaps) then snaps else map[]
    ensures t.inRecovery && !WholeSnapshot(snaps) ==> t.nextExp == s.nextExp
    ensures t.inRecovery && WholeSnapshot(snaps) ==>
              && snaps[|snaps| - 1].orderId < t.nextExp && t.nextExp !in incs
              && forall i :: snaps[|snaps| - 1].orderId < i < t.nextExp ==> i in incs
  {
    assert Queued(s, isSnapshot, r) == s.(snaps := snaps, incs := incs);
    if WholeSnapshot(snaps) {
      GapAbove(incs, snaps[|snaps| - 1].orderId);
    }
  }

  /** How it ends: both queues are empty, the update expected next is the first that is not queued, and delivered are
      the snapshot's messages between its markers and the incrementals behind it. */
  lemma {:induction false} RecoveryEndsWith(s: Consumer, isSnapshot: bool, r: Record, snaps: Queue, incs: Queue, t: Consumer)
    requires s.inRecovery && QueuedWith(s, isSnapshot, r, snaps, incs) && t == OnRecord(s, isSnapshot, r)
    requires !t.inRecovery
    ensures WholeSnapshot(snaps) && t.snaps == map[] && t.incs == map[]
    ensures var n := snaps[|snaps| - 1].orderId;
            && n < t.nextExp && t.nextExp !in incs && (forall i :: n < i < t.nextExp ==> i in incs)
            && t.out == s.out + Events(snaps, 0, |snaps|) + Events(incs, n + 1, t.nextExp)
  {
    assert Queued(s, isSnapshot, r) == s.(snaps := snaps, incs := incs);
  }
}

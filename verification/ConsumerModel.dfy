/** What the market data consumer does with one record, as functions on its state
    (src/market_data/market_data_consumer.cpp). */
module ConsumerModel {
  import opened Types

  /** MDPMarketUpdate: an update and its number in the stream it came from. */
  datatype Record = Record(seqNum: nat, update: MarketUpdate)

  type Queue = map<nat, MarketUpdate>

  datatype Consumer = Consumer(nextExp: nat, inRecovery: bool, snaps: Queue, incs: Queue, out: seq<MarketUpdate>)

  /** The queue holds messages 0..m-1 without a gap. */
  predicate Gapless(q: Queue) {
    q.Keys == Upto(|q|)
  }

  predicate IsBracket(u: MarketUpdate) {
    u.kind == SnapshotStart || u.kind == SnapshotEnd
  }

  /** The updates numbered `lo` up to `hi` of a queue, without START and END markers. */
  function Events(q: Queue, lo: nat, hi: nat): seq<MarketUpdate>
    decreases hi - lo
  {
    if hi <= lo then []
    else Events(q, lo, hi - 1) + (if hi - 1 in q && !IsBracket(q[hi - 1]) then [q[hi - 1]] else [])
  }

  /** The first number from `base` on that is not queued. */
  function FirstGap(q: Queue, base: nat): (m: nat)
    ensures base <= m && m !in q && forall i :: base <= i < m ==> i in q
    decreases q.Keys - Upto(base)
  {
    if base in q then
      assert base in q.Keys - Upto(base) && base !in q.Keys - Upto(base + 1);
      FirstGap(q, base + 1)
    else base
  }

  /** A whole snapshot is queued: gapless, opened by START, closed by END. */
  predicate WholeSnapshot(q: Queue) {
    |q| > 0 && Gapless(q) && 0 in q && q[0].kind == SnapshotStart && |q| - 1 in q && q[|q| - 1].kind == SnapshotEnd
  }

  /** A gapless queue opened by START: worth keeping until END arrives. */
  predicate Growing(q: Queue) {
    |q| > 0 && Gapless(q) && 0 in q && q[0].kind == SnapshotStart
  }

  /** Something is queued above `next`. */
  predicate Beyond(q: Queue, next: nat) {
    exists k :: k in q && k > next
  }

  /** CheckSnapshotSync. */
  function CheckSync(s: Consumer): Consumer {
    if !Growing(s.snaps) then s.(snaps := map[])
    else if !WholeSnapshot(s.snaps) then s
    else
      var n := |s.snaps|;
      var base := s.snaps[n - 1].orderId + 1;
      var next := FirstGap(s.incs, base);
      if Beyond(s.incs, next) then s.(snaps := map[], nextExp := next)
      else Consumer(next, false, map[], map[], s.out + Events(s.snaps, 0, n) + Events(s.incs, base, next))
  }

  /** QueueMessage up to its call of CheckSnapshotSync. */
  function Enqueue(s: Consumer, isSnapshot: bool, r: Record): Consumer {
    if isSnapshot then
      s.(snaps := (if r.seqNum in s.snaps then map[] else s.snaps)[r.seqNum := r.update])
    else
      s.(incs := s.incs[r.seqNum := r.update])
  }

  /** What is queued when a record arrives while recovering, or starts a recovery. */
  function Queued(s: Consumer, isSnapshot: bool, r: Record): Consumer {
    var ready := if s.inRecovery then s else s.(inRecovery := true, snaps := map[], incs := map[]);
    Enqueue(ready, isSnapshot, r)
  }

  /** One turn of the loop of RecvCallback. */
  function OnRecord(s: Consumer, isSnapshot: bool, r: Record): Consumer {
    if s.inRecovery || r.seqNum != s.nextExp then CheckSync(Queued(s, isSnapshot, r))
    else if isSnapshot then s
    else s.(nextExp := s.nextExp + 1, out := s.out + [r.update])
  }

  function OnRecords(s: Consumer, isSnapshot: bool, rs: seq<Record>): Consumer
    decreases |rs|
  {
    if rs == [] then s else OnRecords(OnRecord(s, isSnapshot, rs[0]), isSnapshot, rs[1..])
  }

  /** RecvCallback on the whole records found in a socket's buffer. */
  function Receive(s: Consumer, isSnapshot: bool, rs: seq<Record>): Consumer {
    if isSnapshot && !s.inRecovery then s else OnRecords(s, isSnapshot, rs)
  }

  function NewConsumer(): Consumer {
    Consumer(1, false, map[], map[], [])
  }
}

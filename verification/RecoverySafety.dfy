/** The consumer over a lossy network: whenever it is not in recovery, what it has delivered replays to
    exactly what the exchange published up to its next expected number. */
module RecoverySafety {
  import opened Types
  import opened PriceMap
  import opened ReplicaModel
  import opened Snapshot
  import opened Market
  import opened ConsumerModel

  // ---------------------------------------------------------------- the shape of streams

  lemma {:induction false} StreamHasNoBrackets(bs: seq<Replica>, us: seq<MarketUpdate>)
    requires AllInSequence(bs, us)
    ensures forall u :: u in us ==> !IsBracket(u)
    decreases |us|
  {
    if us != [] {
      StreamHasNoBrackets(ApplyAll(bs, us[0]), us[1..]);
    }
  }

  lemma {:induction false} OrdersHaveNoBrackets(t: nat, m: OrderTable, b: Replica, k: nat, n: nat)
    requires Represents(t, m, b)
    ensures forall u :: u in OrdersFrom(m, k, n) ==> !IsBracket(u)
    decreases n - k
  {
    if k < n {
      OrdersHaveNoBrackets(t, m, b, k + 1, n);
      if k in m {
        var x :| InBook(b, x) && x.id == k;
      }
    }
  }

  lemma {:induction false} BodyHasNoBrackets(tables: seq<OrderTable>, bs: seq<Replica>, t: nat)
    requires Mirrors(tables, bs)
    ensures forall u :: u in Body(tables, t) ==> !IsBracket(u)
    decreases |tables| - t
  {
    if t < |tables| {
      OrdersHaveNoBrackets(t, tables[t], bs[t], 0, MAX_ORDER_IDS);
      BodyHasNoBrackets(tables, bs, t + 1);
    }
  }

  /** Opened by START and closed by END; no marker lies between. */
  predicate Bracketed(p: seq<MarketUpdate>) {
    && |p| >= 2
    && (forall i :: 0 <= i < |p| ==> (p[i].kind == SnapshotStart <==> i == 0))
    && (forall i :: 0 <= i < |p| ==> (p[i].kind == SnapshotEnd <==> i == |p| - 1))
  }

  /** Snapshot number `n`: both markers carry `n`. */
  predicate Shaped(p: seq<MarketUpdate>, n: nat) {
    Bracketed(p) && p[0].orderId == n && p[|p| - 1].orderId == n
  }

  function Inner(p: seq<MarketUpdate>): seq<MarketUpdate>
    requires |p| >= 2
  {
    p[1..|p| - 1]
  }

  lemma {:induction false} PublishedIsShaped(tables: seq<OrderTable>, bs: seq<Replica>, n: nat)
    requires Mirrors(tables, bs)
    ensures Shaped(Published(tables, n), n) && Inner(Published(tables, n)) == Body(tables, 0)
  {
    BodyHasNoBrackets(tables, bs, 0);
    var body := Body(tables, 0);
    var p := Published(tables, n);
    forall i | 0 < i < |p| - 1 ensures !IsBracket(p[i]) {
      assert p[i] == body[i - 1] && body[i - 1] in body;
    }
  }

  /** Entry `n` is the snapshot taken after `n` updates; replayed from any state it gives the truth at `n`. */
  ghost predicate Restores(us: seq<MarketUpdate>, ps: seq<seq<MarketUpdate>>) {
    && |ps| == |us| + 1
    && forall n :: 0 <= n < |ps| ==> Shaped(ps[n], n)
  }

  function AllSnapshots(us: seq<MarketUpdate>): (ps: seq<seq<MarketUpdate>>)
    ensures |ps| == |us| + 1 && forall n :: 0 <= n <= |us| ==> ps[n] == SnapshotAt(us, n)
  {
    seq(|us| + 1, n requires 0 <= n <= |us| => SnapshotAt(us, n))
  }

  lemma {:induction false} SnapshotsRestore(us: seq<MarketUpdate>)
    requires AllInSequence(NoReplicas(), us)
    ensures Restores(us, AllSnapshots(us))
  {
    forall n | 0 <= n <= |us| ensures Shaped(AllSnapshots(us)[n], n) {
      PrefixMirrors(us, n);
      PublishedIsShaped(FoldAll(NoTables(), us[..n]), Truth(us, n), n);
    }
  }

  // ---------------------------------------------------------------- what arrives

  /** A message off the wire: any incremental, any number of times, in any order; or message `i` of the
      snapshot taken after `n` updates. */
  datatype Arrival = Incremental(k: nat) | FromSnapshot(n: nat, i: nat)

  predicate Genuine(us: seq<MarketUpdate>, ps: seq<seq<MarketUpdate>>, a: Arrival) {
    match a
    case Incremental(k) => 1 <= k <= |us|
    case FromSnapshot(n, i) => n < |ps| && i < |ps[n]|
  }

  function RecordOf(us: seq<MarketUpdate>, ps: seq<seq<MarketUpdate>>, a: Arrival): Record
    requires Genuine(us, ps, a)
  {
    match a
    case Incremental(k) => Record(k, us[k - 1])
    case FromSnapshot(n, i) => Record(i, ps[n][i])
  }

  /** The START and the END of a whole queue carry the same number: the comparison the consumer leaves out. */
  predicate Agreeing(q: Queue) {
    WholeSnapshot(q) ==> q[|q| - 1].orderId == q[0].orderId
  }

  // ---------------------------------------------------------------- the invariant

  /** Outside recovery, the delivered events replay to the exchange's state at `nextExp - 1`. */
  ghost predicate Synchronized(us: seq<MarketUpdate>, s: Consumer) {
    && 1 <= s.nextExp <= |us| + 1
    && ReplayAll(NoReplicas(), s.out) == Truth(us, s.nextExp - 1)
  }

  ghost predicate GenuineIncs(us: seq<MarketUpdate>, q: Queue) {
    forall k :: k in q ==> 1 <= k <= |us| && q[k] == us[k - 1]
  }

  /** Reassembly: nothing queued, or messages 0..m of which the first is START and none is END. */
  predicate Reassembling(q: Queue) {
    q == map[] || (Growing(q) && forall i :: i in q ==> q[i].kind != SnapshotEnd)
  }

  /** Message `i` of the queue comes from the snapshot taken after `from[i]` updates. */
  ghost predicate GenuineSnaps(ps: seq<seq<MarketUpdate>>, q: Queue, from: map<nat, nat>) {
    && from.Keys == q.Keys
    && forall i :: i in q ==> from[i] < |ps| && i < |ps[from[i]]| && q[i] == ps[from[i]][i]
  }

  ghost predicate InOrder(from: map<nat, nat>, latest: nat) {
    && (forall i :: i in from ==> from[i] <= latest)
    && (forall i, j :: i in from && j in from && i <= j ==> from[i] <= from[j])
  }

  ghost predicate Recovering(us: seq<MarketUpdate>, ps: seq<seq<MarketUpdate>>, s: Consumer,
                             from: map<nat, nat>, latest: nat) {
    && s.inRecovery && GenuineIncs(us, s.incs) && Reassembling(s.snaps)
    && GenuineSnaps(ps, s.snaps, from) && InOrder(from, latest)
  }

  ghost predicate Inv(us: seq<MarketUpdate>, ps: seq<seq<MarketUpdate>>, s: Consumer,
                      from: map<nat, nat>, latest: nat) {
    if s.inRecovery then Recovering(us, ps, s, from, latest) else Synchronized(us, s)
  }

  // ---------------------------------------------------------------- accepting a snapshot

  lemma {:induction false} IncEvents(us: seq<MarketUpdate>, q: Queue, lo: nat, hi: nat)
    requires GenuineIncs(us, q) && 1 <= lo <= hi && lo - 1 <= |us| && forall i :: lo <= i < hi ==> i in q
    requires forall u :: u in us ==> !IsBracket(u)
    ensures hi - 1 <= |us| && Events(q, lo, hi) == us[lo - 1..hi - 1]
    decreases hi - lo
  {
    if lo < hi {
      IncEvents(us, q, lo, hi - 1);
      assert hi - 1 in q && us[hi - 2] in us;
      assert us[lo - 1..hi - 1] == us[lo - 1..hi - 2] + [us[hi - 2]];
    }
  }

  /** The queue holds exactly the messages of `p`. */
  predicate Copies(q: Queue, p: seq<MarketUpdate>) {
    |q| == |p| && forall i :: 0 <= i < |p| ==> i in q && q[i] == p[i]
  }

  lemma {:induction false} SnapEvents(q: Queue, p: seq<MarketUpdate>, k: nat)
    requires Bracketed(p) && 1 <= k < |p| && forall i :: 0 <= i < k ==> i in q && q[i] == p[i]
    ensures Events(q, 0, k) == p[1..k]
  {
    if k == 1 {
      assert Events(q, 0, 0) == [];
      assert 0 in q && IsBracket(q[0]);
    } else {
      SnapEvents(q, p, k - 1);
      assert k - 1 in q && p[1..k] == p[1..k - 1] + [p[k - 1]];
    }
  }

  lemma {:induction false} WholeEvents(q: Queue, p: seq<MarketUpdate>)
    requires Bracketed(p) && Copies(q, p)
    ensures Events(q, 0, |p|) == Inner(p)
  {
    SnapEvents(q, p, |p| - 1);
    assert |p| - 1 in q && IsBracket(q[|p| - 1]);
  }

  lemma MarkersTell(p: seq<MarketUpdate>, n: nat, i: nat)
    requires Shaped(p, n) && i < |p|
    ensures p[i].kind == SnapshotEnd ==> i == |p| - 1
    ensures p[i].kind == SnapshotStart || p[i].kind == SnapshotEnd ==> p[i].orderId == n
  {
  }

  lemma SameStamps(q: Queue, from: map<nat, nat>, latest: nat)
    requires |q| > 0 && Gapless(q) && from.Keys == q.Keys && InOrder(from, latest)
    requires 0 in q && |q| - 1 in q && from[0] == from[|q| - 1]
    ensures forall i: nat :: i < |q| ==> i in q && from[i] == from[0]
  {
    forall i: nat | i < |q| ensures i in q && from[i] == from[0] {
      assert i in Upto(|q|);
      assert from[0] <= from[i] <= from[|q| - 1];
    }
  }

  /** Between agreeing markers, messages that arrived in order all come from one snapshot. */
  lemma OneOrigin(us: seq<MarketUpdate>, ps: seq<seq<MarketUpdate>>, q: Queue, from: map<nat, nat>, latest: nat)
    requires Restores(us, ps)
    requires WholeSnapshot(q) && Agreeing(q) && GenuineSnaps(ps, q, from) && InOrder(from, latest)
    ensures var n := q[|q| - 1].orderId;
            n < |ps| && Copies(q, ps[n])
  {
    var m := |q| - 1;
    assert q[m] == ps[from[m]][m] && q[0] == ps[from[0]][0];
    MarkersTell(ps[from[m]], from[m], m);
    MarkersTell(ps[from[0]], from[0], 0);
    assert q[m].orderId == q[0].orderId;
    SameStamps(q, from, latest);
    forall i | 0 <= i < |q| ensures i in q && q[i] == ps[from[0]][i] {}
  }

  /** Any state, the snapshot after `n` updates and the updates `n` up to `m` together give the state after `m`. */
  lemma {:induction false} CatchUp(bs: seq<Replica>, us: seq<MarketUpdate>, seen: seq<MarketUpdate>, body: seq<MarketUpdate>, n: nat, m: nat)
    requires n <= m <= |us|
    requires ReplayAll(ReplayAll(bs, seen), body) == ReplayAll(bs, us[..n])
    ensures ReplayAll(bs, seen + body + us[n..m]) == ReplayAll(bs, us[..m])
  {
    ReplayAllSplits(bs, seen + body, us[n..m]);
    ReplayAllSplits(bs, seen, body);
    ReplayAllSplits(bs, us[..n], us[n..m]);
    assert us[..n] + us[n..m] == us[..m];
  }

  /** Replaying the events of snapshot `n` from any state gives the truth at `n`. */
  lemma {:induction false} InnerRebuilds(us: seq<MarketUpdate>, n: nat, stale: seq<Replica>)
    requires AllInSequence(NoReplicas(), us) && n <= |us| && |stale| == MAX_TICKERS
    ensures |AllSnapshots(us)[n]| >= 2 && ReplayAll(stale, Inner(AllSnapshots(us)[n])) == Truth(us, n)
  {
    PrefixMirrors(us, n);
    PublishedIsShaped(FoldAll(NoTables(), us[..n]), Truth(us, n), n);
    SnapshotAtRebuilds(us, n, stale);
  }

  lemma AcceptedState(s: Consumer)
    requires WholeSnapshot(s.snaps) && s.inRecovery && !CheckSync(s).inRecovery
    ensures var base := s.snaps[|s.snaps| - 1].orderId + 1;
            var next := FirstGap(s.incs, base);
            CheckSync(s) == Consumer(next, false, map[], map[],
                                     s.out + Events(s.snaps, 0, |s.snaps|) + Events(s.incs, base, next))
  {
  }

  /** The events of an agreeing whole queue are those of the one snapshot it names. */
  lemma {:induction false} AcceptedSnapshot(us: seq<MarketUpdate>, ps: seq<seq<MarketUpdate>>, q: Queue, from: map<nat, nat>,
                                            latest: nat, n: nat)
    requires Restores(us, ps) && GenuineSnaps(ps, q, from) && InOrder(from, latest)
    requires WholeSnapshot(q) && Agreeing(q) && n == q[|q| - 1].orderId
    ensures n <= |us| && |ps[n]| >= 2 && Events(q, 0, |q|) == Inner(ps[n])
  {
    OneOrigin(us, ps, q, from, latest);
    WholeEvents(q, ps[n]);
  }

  /** The incrementals queued without a gap behind update `n` are the updates up to the gap. */
  lemma {:induction false} AcceptedIncrementals(us: seq<MarketUpdate>, q: Queue, n: nat, m: nat)
    requires GenuineIncs(us, q) && (forall u :: u in us ==> !IsBracket(u)) && n <= |us|
    requires m + 1 == FirstGap(q, n + 1)
    ensures n <= m <= |us| && Events(q, n + 1, m + 1) == us[n..m]
  {
    IncEvents(us, q, n + 1, m + 1);
  }

  lemma {:induction false} DeliveredSynchronizes(us: seq<MarketUpdate>, s: Consumer, t: Consumer, body: seq<MarketUpdate>, n: nat, m: nat)
    requires n <= m <= |us| && t.nextExp == m + 1 && t.out == s.out + body + us[n..m]
    requires ReplayAll(ReplayAll(NoReplicas(), s.out), body) == Truth(us, n)
    ensures Synchronized(us, t)
  {
    CatchUp(NoReplicas(), us, s.out, body, n, m);
  }

  /** What accepting delivers: the snapshot its END names, then the updates queued right behind it. */
  lemma {:induction false} AcceptDelivers(us: seq<MarketUpdate>, ps: seq<seq<MarketUpdate>>, s: Consumer, from: map<nat, nat>,
                                          latest: nat, n: nat, m: nat)
    requires Restores(us, ps) && (forall u :: u in us ==> !IsBracket(u)) && GenuineIncs(us, s.incs)
    requires GenuineSnaps(ps, s.snaps, from) && InOrder(from, latest)
    requires WholeSnapshot(s.snaps) && Agreeing(s.snaps) && s.inRecovery && !CheckSync(s).inRecovery
    requires n == s.snaps[|s.snaps| - 1].orderId && m + 1 == FirstGap(s.incs, n + 1)
    ensures n <= m <= |us| && |ps[n]| >= 2 && CheckSync(s).nextExp == m + 1
    ensures CheckSync(s).out == s.out + Inner(ps[n]) + us[n..m]
  {
    AcceptedSnapshot(us, ps, s.snaps, from, latest, n);
    AcceptedIncrementals(us, s.incs, n, m);
    AcceptedState(s);
  }

  /** Accepting an agreeing snapshot synchronizes the consumer, whatever it had delivered before. */
  lemma {:induction false} AcceptSynchronizes(us: seq<MarketUpdate>, s: Consumer, from: map<nat, nat>, latest: nat)
    requires AllInSequence(NoReplicas(), us) && s.inRecovery && GenuineIncs(us, s.incs)
    requires GenuineSnaps(AllSnapshots(us), s.snaps, from) && InOrder(from, latest)
    requires WholeSnapshot(s.snaps) && Agreeing(s.snaps) && !CheckSync(s).inRecovery
    ensures Synchronized(us, CheckSync(s))
  {
    var n := s.snaps[|s.snaps| - 1].orderId;
    var m := FirstGap(s.incs, n + 1) - 1;
    SnapshotsRestore(us);
    StreamHasNoBrackets(NoReplicas(), us);
    AcceptDelivers(us, AllSnapshots(us), s, from, latest, n, m);
    InnerRebuilds(us, n, ReplayAll(NoReplicas(), s.out));
    DeliveredSynchronizes(us, s, CheckSync(s), Inner(AllSnapshots(us)[n]), n, m);
  }
}

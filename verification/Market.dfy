/** All tickers together: the matching engine's runs, the update stream they publish, the replicas and the
    snapshot tables that follow it. */
module Market {
  import opened Types
  import opened OrderLists
  import opened PriceMap
  import opened ExchangeModel
  import opened ExchangeInvariants
  import opened ReplicaModel
  import opened Snapshot

  // ---------------------------------------------------------------- replicas and tables of all tickers

  function ApplyAll(bs: seq<Replica>, u: MarketUpdate): (r: seq<Replica>)
    ensures |r| == |bs|
  {
    if u.ticker < |bs| then bs[u.ticker := Apply(bs[u.ticker], u)] else bs
  }

  function ReplayAll(bs: seq<Replica>, us: seq<MarketUpdate>): (r: seq<Replica>)
    ensures |r| == |bs|
    decreases |us|
  {
    if us == [] then bs else ReplayAll(ApplyAll(bs, us[0]), us[1..])
  }

  lemma {:induction false} ReplayAllSplits(bs: seq<Replica>, us: seq<MarketUpdate>, vs: seq<MarketUpdate>)
    ensures ReplayAll(bs, us + vs) == ReplayAll(ReplayAll(bs, us), vs)
    decreases |us|
  {
    if us == [] {
      assert us + vs == vs;
    } else {
      assert (us + vs)[1..] == us[1..] + vs;
      ReplayAllSplits(ApplyAll(bs, us[0]), us[1..], vs);
    }
  }

  lemma {:induction false} ReplayOneTicker(bs: seq<Replica>, us: seq<MarketUpdate>, t: nat)
    requires t < |bs| && forall u :: u in us ==> u.ticker == t
    ensures ReplayAll(bs, us) == bs[t := Replay(bs[t], us)]
    decreases |us|
  {
    if us != [] {
      assert us[0] in us;
      ReplayOneTicker(ApplyAll(bs, us[0]), us[1..], t);
    }
  }

  ghost predicate AllInSequence(bs: seq<Replica>, us: seq<MarketUpdate>)
    decreases |us|
  {
    us != [] ==>
      && us[0].ticker < |bs| && Sequenced(bs[us[0].ticker], us[0])
      && AllInSequence(ApplyAll(bs, us[0]), us[1..])
  }

  lemma {:induction false} InSequenceSplits(bs: seq<Replica>, us: seq<MarketUpdate>, vs: seq<MarketUpdate>)
    requires AllInSequence(bs, us) && AllInSequence(ReplayAll(bs, us), vs)
    ensures AllInSequence(bs, us + vs)
    decreases |us|
  {
    if us == [] {
      assert us + vs == vs;
    } else {
      assert (us + vs)[1..] == us[1..] + vs;
      InSequenceSplits(ApplyAll(bs, us[0]), us[1..], vs);
    }
  }

  lemma {:induction false} InSequenceOneTicker(bs: seq<Replica>, us: seq<MarketUpdate>, t: nat)
    requires t < |bs| && (forall u :: u in us ==> u.ticker == t) && AllSequenced(bs[t], us)
    ensures AllInSequence(bs, us)
    decreases |us|
  {
    if us != [] {
      assert us[0] in us;
      InSequenceOneTicker(ApplyAll(bs, us[0]), us[1..], t);
    }
  }

  lemma {:induction false} InSequencePrefix(bs: seq<Replica>, us: seq<MarketUpdate>, n: nat)
    requires AllInSequence(bs, us) && n <= |us|
    ensures AllInSequence(bs, us[..n])
    decreases |us|
  {
    if n > 0 {
      assert us[..n][1..] == us[1..][..n - 1];
      InSequencePrefix(ApplyAll(bs, us[0]), us[1..], n - 1);
    }
  }

  function FoldAll(tables: seq<OrderTable>, us: seq<MarketUpdate>): (r: seq<OrderTable>)
    ensures |r| == |tables|
    decreases |us|
  {
    if us == [] then tables
    else
      var u := us[0];
      FoldAll(if u.ticker < |tables| then tables[u.ticker := Fold(tables[u.ticker], u)] else tables, us[1..])
  }

  lemma {:induction false} FoldOne(tables: seq<OrderTable>, u: MarketUpdate)
    requires u.ticker < |tables|
    ensures FoldAll(tables, [u]) == tables[u.ticker := Fold(tables[u.ticker], u)]
  {
    assert [u][1..] == [];
    assert FoldAll(tables, [u]) == FoldAll(tables[u.ticker := Fold(tables[u.ticker], u)], []);
  }

  lemma {:induction false} FoldAllSplits(tables: seq<OrderTable>, us: seq<MarketUpdate>, vs: seq<MarketUpdate>)
    ensures FoldAll(tables, us + vs) == FoldAll(FoldAll(tables, us), vs)
    decreases |us|
  {
    if us == [] {
      assert us + vs == vs;
    } else {
      assert (us + vs)[1..] == us[1..] + vs;
      var u := us[0];
      FoldAllSplits(if u.ticker < |tables| then tables[u.ticker := Fold(tables[u.ticker], u)] else tables, us[1..], vs);
    }
  }

  /** Every ASSERT of AddToSnapshot along the stream. */
  predicate AllExpected(tables: seq<OrderTable>, us: seq<MarketUpdate>)
    decreases |us|
  {
    us != [] ==>
      var u := us[0];
      && u.ticker < |tables| && Expected(tables[u.ticker], u)
      && AllExpected(tables[u.ticker := Fold(tables[u.ticker], u)], us[1..])
  }

  ghost predicate Mirrors(tables: seq<OrderTable>, bs: seq<Replica>) {
    && |tables| == |bs|
    && forall t :: 0 <= t < |bs| ==> Orderly(bs[t]) && Represents(t, tables[t], bs[t])
  }

  /** The tables follow the replicas along any stream in sequence, and no ASSERT fires. */
  lemma {:induction false} TablesFollow(tables: seq<OrderTable>, bs: seq<Replica>, us: seq<MarketUpdate>)
    requires Mirrors(tables, bs) && AllInSequence(bs, us)
    ensures Mirrors(FoldAll(tables, us), ReplayAll(bs, us)) && AllExpected(tables, us)
    decreases |us|
  {
    if us != [] {
      var u := us[0];
      FoldRepresents(u.ticker, tables[u.ticker], bs[u.ticker], u);
      SequencedKeepsOrderly(bs[u.ticker], u);
      TablesFollow(tables[u.ticker := Fold(tables[u.ticker], u)], ApplyAll(bs, u), us[1..]);
    }
  }

  function NoReplicas(): seq<Replica> {
    seq(MAX_TICKERS, _ => EmptyBook())
  }

  function NoTables(): seq<OrderTable> {
    seq(MAX_TICKERS, _ => map[])
  }

  // ---------------------------------------------------------------- snapshot of all tickers

  lemma {:induction false} OrdersOfOneTicker(t: nat, m: OrderTable, b: Replica, k: nat, n: nat)
    requires Represents(t, m, b)
    ensures forall u :: u in OrdersFrom(m, k, n) ==> u.ticker == t
    decreases n - k
  {
    if k < n {
      OrdersOfOneTicker(t, m, b, k + 1, n);
      if k in m {
        var x :| InBook(b, x) && x.id == k;
      }
    }
  }

  lemma {:induction false} ChunkRebuilds(stale: seq<Replica>, b: Replica, t: nat, m: OrderTable)
    requires t < |stale| && Orderly(b) && Represents(t, m, b)
    ensures ReplayAll(stale, [ClearMessage(t)] + OrdersFrom(m, 0, MAX_ORDER_IDS)) == stale[t := b]
  {
    OrdersOfOneTicker(t, m, b, 0, MAX_ORDER_IDS);
    ReplayOneTicker(stale, [ClearMessage(t)] + OrdersFrom(m, 0, MAX_ORDER_IDS), t);
    TickerRoundTrip(stale[t], b, t, m);
  }

  lemma {:induction false} BodyRebuilds(stale: seq<Replica>, bs: seq<Replica>, tables: seq<OrderTable>, t: nat)
    requires Mirrors(tables, bs) && |stale| == |bs| && t <= |bs|
    ensures ReplayAll(stale, Body(tables, t)) == stale[..t] + bs[t..]
    decreases |bs| - t
  {
    if t < |bs| {
      var next := stale[t := bs[t]];
      ChunkRebuilds(stale, bs[t], t, tables[t]);
      BodyRebuilds(next, bs, tables, t + 1);
      ReplayAllSplits(stale, [ClearMessage(t)] + OrdersFrom(tables[t], 0, MAX_ORDER_IDS), Body(tables, t + 1));
      Stitch(stale, bs, t);
    }
  }

  lemma Stitch<T>(a: seq<T>, b: seq<T>, t: nat)
    requires |a| == |b| && t < |a|
    ensures a[t := b[t]][..t + 1] + b[t + 1..] == a[..t] + b[t..]
  {
  }

  /** Snapshot round trip: whatever the replicas held before, replaying a published snapshot leaves them equal
      to the books the tables stand for. */
  lemma {:induction false} SnapshotRoundTrip(stale: seq<Replica>, bs: seq<Replica>, tables: seq<OrderTable>, lastSeq: nat)
    requires Mirrors(tables, bs) && |stale| == |bs| <= MAX_TICKERS
    ensures ReplayAll(stale, Published(tables, lastSeq)) == bs
    ensures ReplayAll(stale, Body(tables, 0)) == bs
  {
    var first, last := Bracket(SnapshotStart, lastSeq), Bracket(SnapshotEnd, lastSeq);
    assert Published(tables, lastSeq) == [first] + (Body(tables, 0) + [last]);
    ReplayAllSplits(stale, [first], Body(tables, 0) + [last]);
    assert ReplayAll(stale, [first]) == ReplayAll(ApplyAll(stale, first), []);
    ReplayAllSplits(stale, Body(tables, 0), [last]);
    BodyRebuilds(stale, bs, tables, 0);
    assert stale[..0] + bs[0..] == bs;
    assert ReplayAll(bs, [last]) == ReplayAll(ApplyAll(bs, last), []);
  }

  // ---------------------------------------------------------------- runs of the matching engine

  datatype Feed = Feed(books: seq<Exchange>, updates: seq<MarketUpdate>)

  function Serve(f: Feed, r: ClientRequest): Feed {
    if r.ticker < |f.books| then
      var out := Process(f.books[r.ticker], r);
      Feed(f.books[r.ticker := out.next], f.updates + out.updates)
    else f
  }

  /** The books and the whole incremental stream after a run of requests on any tickers. */
  function MarketRun(rs: seq<ClientRequest>): Feed {
    if rs == [] then Feed(seq(MAX_TICKERS, _ => NewExchange()), [])
    else Serve(MarketRun(rs[..|rs| - 1]), rs[|rs| - 1])
  }

  ghost predicate LegalMarket(rs: seq<ClientRequest>) {
    rs != [] ==>
      var f := MarketRun(rs[..|rs| - 1]);
      var r := rs[|rs| - 1];
      && LegalMarket(rs[..|rs| - 1])
      && r.ticker < |f.books| && Legal(f.books[r.ticker], r) && f.books[r.ticker].nextId < MAX_ORDER_IDS
  }

  function PublicBooks(es: seq<Exchange>): (r: seq<Replica>)
    ensures |r| == |es| && forall t :: 0 <= t < |es| ==> r[t] == PublicBook(es[t].book)
  {
    seq(|es|, t requires 0 <= t < |es| => PublicBook(es[t].book))
  }

  /** The feed describes the books: replaying it from nothing gives their public view. */
  ghost predicate Agrees(f: Feed) {
    && |f.books| == MAX_TICKERS
    && (forall t :: 0 <= t < |f.books| ==> WellFormed(f.books[t]))
    && ReplayAll(NoReplicas(), f.updates) == PublicBooks(f.books)
    && AllInSequence(NoReplicas(), f.updates)
  }

  lemma {:induction false} TickersOfFills(t: Taker, fills: seq<Fill>)
    ensures forall u :: u in AllUpdates(t, fills) ==> u.ticker == t.ticker
  {
    if fills != [] {
      TickersOfFills(t, fills[1..]);
    }
  }

  lemma {:induction false} TickersOf(ex: Exchange, r: ClientRequest)
    ensures forall u :: u in Process(ex, r).updates ==> u.ticker == r.ticker
  {
    if r.kind == New {
      var t := Taker(r.client, r.ticker, r.orderId, ex.nextId % TWO_32, r.side);
      TickersOfFills(t, Sweep(r.side, r.price, r.qty, ex.book.Of(r.side.Opposite())).fills);
    }
  }

  lemma {:induction false} FeedGrows(seen: seq<MarketUpdate>, bs: seq<Replica>, t: nat, us: seq<MarketUpdate>)
    requires ReplayAll(NoReplicas(), seen) == bs && AllInSequence(NoReplicas(), seen)
    requires t < |bs| && (forall u :: u in us ==> u.ticker == t) && AllSequenced(bs[t], us)
    ensures ReplayAll(NoReplicas(), seen + us) == bs[t := Replay(bs[t], us)]
    ensures AllInSequence(NoReplicas(), seen + us)
  {
    ReplayOneTicker(bs, us, t);
    ReplayAllSplits(NoReplicas(), seen, us);
    InSequenceOneTicker(bs, us, t);
    InSequenceSplits(NoReplicas(), seen, us);
  }

  lemma {:induction false} BookStepAgrees(f: Feed, t: nat, ex: Exchange, us: seq<MarketUpdate>)
    requires Agrees(f) && t < |f.books| && WellFormed(ex)
    requires forall u :: u in us ==> u.ticker == t
    requires Replay(PublicBook(f.books[t].book), us) == PublicBook(ex.book)
    requires AllSequenced(PublicBook(f.books[t].book), us)
    ensures Agrees(Feed(f.books[t := ex], f.updates + us))
  {
    FeedGrows(f.updates, PublicBooks(f.books), t, us);
    PublicBooksUpdate(f.books, t, ex);
  }

  lemma {:induction false} ServeAgrees(f: Feed, r: ClientRequest)
    requires Agrees(f) && r.ticker < |f.books|
    requires Legal(f.books[r.ticker], r) && f.books[r.ticker].nextId < MAX_ORDER_IDS
    ensures Agrees(Serve(f, r))
  {
    var ex := f.books[r.ticker];
    ProcessKeepsWellFormed(ex, r);
    ProcessReplays(ex, r);
    TickersOf(ex, r);
    var out := Process(ex, r);
    BookStepAgrees(f, r.ticker, out.next, out.updates);
  }

  lemma PublicBooksUpdate(es: seq<Exchange>, t: nat, ex: Exchange)
    requires t < |es|
    ensures PublicBooks(es[t := ex]) == PublicBooks(es)[t := PublicBook(ex.book)]
  {
  }

  /** Replica agreement over every run: replaying the emitted updates gives, ticker by ticker, the exchange's
      own price levels with the same FIFO of ids, prices, quantities and priorities. */
  lemma {:induction false} RunAgrees(rs: seq<ClientRequest>)
    requires LegalMarket(rs)
    ensures Agrees(MarketRun(rs))
  {
    if rs == [] {
      assert PublicBooks(MarketRun(rs).books) == NoReplicas();
    } else {
      RunAgrees(rs[..|rs| - 1]);
      ServeAgrees(MarketRun(rs[..|rs| - 1]), rs[|rs| - 1]);
    }
  }

  /** What the exchange has told the world after its first `n` updates. */
  function Truth(us: seq<MarketUpdate>, n: nat): seq<Replica>
    requires n <= |us|
  {
    ReplayAll(NoReplicas(), us[..n])
  }

  /** The snapshot taken once `n` updates have been folded in. */
  function SnapshotAt(us: seq<MarketUpdate>, n: nat): seq<MarketUpdate>
    requires n <= |us|
  {
    Published(FoldAll(NoTables(), us[..n]), n)
  }

  lemma NothingMirrors()
    ensures Mirrors(NoTables(), NoReplicas())
  {
  }

  lemma {:induction false} PrefixMirrors(us: seq<MarketUpdate>, n: nat)
    requires AllInSequence(NoReplicas(), us) && n <= |us|
    ensures Mirrors(FoldAll(NoTables(), us[..n]), Truth(us, n)) && AllExpected(NoTables(), us[..n])
  {
    NothingMirrors();
    InSequencePrefix(NoReplicas(), us, n);
    TablesFollow(NoTables(), NoReplicas(), us[..n]);
  }

  lemma {:induction false} ExpectedAfter(tables: seq<OrderTable>, us: seq<MarketUpdate>, u: MarketUpdate)
    requires AllExpected(tables, us + [u])
    ensures u.ticker < |tables| && Expected(FoldAll(tables, us)[u.ticker], u)
    decreases |us|
  {
    if us != [] {
      assert (us + [u])[0] == us[0] && (us + [u])[1..] == us[1..] + [u];
      ExpectedAfter(tables[us[0].ticker := Fold(tables[us[0].ticker], us[0])], us[1..], u);
    }
  }

  /** One more update folded into the tables of the stream so far trips no ASSERT. */
  lemma {:induction false} NextFold(seen: seq<MarketUpdate>, u: MarketUpdate)
    requires AllInSequence(NoReplicas(), seen + [u])
    ensures var tables := FoldAll(NoTables(), seen);
            && u.ticker < |tables| && Expected(tables[u.ticker], u)
            && FoldAll(NoTables(), seen + [u]) == tables[u.ticker := Fold(tables[u.ticker], u)]
  {
    PrefixMirrors(seen + [u], |seen| + 1);
    assert (seen + [u])[..|seen| + 1] == seen + [u];
    ExpectedAfter(NoTables(), seen, u);
    FoldAllSplits(NoTables(), seen, [u]);
    FoldOne(FoldAll(NoTables(), seen), u);
  }

  /** A snapshot taken after any update, also in the middle of a request, rebuilds the books as of that update
      from any state of the replicas, and taking it has tripped no ASSERT. */
  lemma {:induction false} SnapshotAtRebuilds(us: seq<MarketUpdate>, n: nat, stale: seq<Replica>)
    requires AllInSequence(NoReplicas(), us) && n <= |us| && |stale| == MAX_TICKERS
    ensures ReplayAll(stale, SnapshotAt(us, n)) == Truth(us, n)
    ensures ReplayAll(stale, Body(FoldAll(NoTables(), us[..n]), 0)) == Truth(us, n)
    ensures AllExpected(NoTables(), us[..n])
  {
    PrefixMirrors(us, n);
    SnapshotRoundTrip(stale, Truth(us, n), FoldAll(NoTables(), us[..n]), n);
  }
}

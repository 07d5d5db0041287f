/** The snapshot stream: live orders folded out of the updates, published by increasing order id, and rebuilt
    by replay (src/market_data/snapshot_synthesizer.cpp). */
module Snapshot {
  import opened Types
  import opened OrderLists
  import opened PriceMap
  import opened ReplicaModel

  const TICKER_ID_INVALID: nat := 0xFFFF_FFFF

  type OrderTable = map<nat, MarketUpdate>

  /** AddToSnapshot on the table of the update's ticker. */
  function Fold(m: OrderTable, u: MarketUpdate): OrderTable {
    match u.kind
    case Add => m[u.orderId := u]
    case Modify => if u.orderId in m then m[u.orderId := m[u.orderId].(qty := u.qty, price := u.price)] else m
    case Cancel => m - {u.orderId}
    case _ => m
  }

  /** The ASSERTs of AddToSnapshot on the table. */
  predicate Expected(m: OrderTable, u: MarketUpdate) {
    match u.kind
    case Add => u.orderId !in m
    case Modify => u.orderId in m && m[u.orderId].orderId == u.orderId && m[u.orderId].side == u.side
    case Cancel => u.orderId in m && m[u.orderId].orderId == u.orderId && m[u.orderId].side == u.side
    case _ => true
  }

  function Message(t: nat, x: Order<()>): MarketUpdate {
    MarketUpdate(Add, x.id, t, Some(x.side), x.price, x.qty, x.priority)
  }

  /** The table of ticker `t` holds exactly the live orders of the book, each as its ADD message. */
  ghost predicate Represents(t: nat, m: OrderTable, b: Replica) {
    && (forall x :: InBook(b, x) ==> x.id in m && m[x.id] == Message(t, x) && x.id < MAX_ORDER_IDS)
    && (forall k :: k in m ==> exists x :: InBook(b, x) && x.id == k)
  }

  lemma AddFolds(t: nat, m: OrderTable, b: Replica, u: MarketUpdate)
    requires Represents(t, m, b) && Acceptable(b, u) && u.ticker == t && u.kind == Add
    ensures Expected(m, u) && Represents(t, Fold(m, u), Apply(b, u))
  {
    var o := Described(u);
    RestMembers(b, o);
    var b' := Apply(b, u);
    forall k | k in Fold(m, u) ensures exists x :: InBook(b', x) && x.id == k {
      if k == u.orderId {
        assert InBook(b', o);
      } else {
        var x :| InBook(b, x) && x.id == k;
        assert InBook(b', x);
      }
    }
  }

  lemma CancelFolds(t: nat, m: OrderTable, b: Replica, u: MarketUpdate)
    requires Represents(t, m, b) && Acceptable(b, u) && u.kind == Cancel
    ensures Expected(m, u) && Represents(t, Fold(m, u), Apply(b, u))
  {
    WithoutMembers(b.buy, u.orderId);
    WithoutMembers(b.sell, u.orderId);
    var b' := Apply(b, u);
    forall k | k in Fold(m, u) ensures exists x :: InBook(b', x) && x.id == k {
      var x :| InBook(b, x) && x.id == k;
      assert InBook(b', x);
    }
  }

  lemma ModifyFolds(t: nat, m: OrderTable, b: Replica, u: MarketUpdate)
    requires Represents(t, m, b) && UniqueIds(b) && Acceptable(b, u) && u.kind == Modify
    ensures Expected(m, u) && Represents(t, Fold(m, u), Apply(b, u))
  {
    SetQtyMembers(b.buy, u.orderId, u.qty);
    SetQtyMembers(b.sell, u.orderId, u.qty);
    var b' := Apply(b, u);
    var z :| InBook(b, z) && z.id == u.orderId && Some(z.side) == u.side && z.price == u.price;
    forall x | InBook(b', x) ensures x.id in m && Fold(m, u)[x.id] == Message(t, x) && x.id < MAX_ORDER_IDS {
      var y :| InBook(b, y) && x == if y.id == u.orderId then y.(qty := u.qty) else y;
    }
    forall k | k in Fold(m, u) ensures exists x :: InBook(b', x) && x.id == k {
      var y :| InBook(b, y) && y.id == k;
      assert InBook(b', if y.id == u.orderId then y.(qty := u.qty) else y);
    }
  }

  /** The synthesizer follows the replica update by update, and none of its ASSERTs fires. */
  lemma FoldRepresents(t: nat, m: OrderTable, b: Replica, u: MarketUpdate)
    requires Represents(t, m, b) && UniqueIds(b) && Acceptable(b, u) && u.ticker == t
    ensures Expected(m, u) && Represents(t, Fold(m, u), Apply(b, u))
  {
    match u.kind
    case Add => AddFolds(t, m, b, u);
    case Modify => ModifyFolds(t, m, b, u);
    case Cancel => CancelFolds(t, m, b, u);
    case _ =>
  }

  // ---------------------------------------------------------------- publication

  /** The orders with ids from `k` up to `n`, in id order. */
  function OrdersFrom(m: OrderTable, k: nat, n: nat): seq<MarketUpdate>
    decreases n - k, m
  {
    if n <= k then []
    else (if k in m then [m[k]] else []) + OrdersFrom(m, k + 1, n)
  }

  function ClearMessage(t: nat): MarketUpdate {
    MarketUpdate(Clear, ORDER_ID_INVALID, t, None, PRICE_INVALID, QTY_INVALID, PRIORITY_INVALID)
  }

  function Bracket(kind: UpdateType, lastSeq: nat): MarketUpdate {
    MarketUpdate(kind, lastSeq, TICKER_ID_INVALID, None, PRICE_INVALID, QTY_INVALID, PRIORITY_INVALID)
  }

  /** CLEAR and live orders of the tickers from `t` on. */
  function Body(tables: seq<OrderTable>, t: nat): seq<MarketUpdate>
    decreases |tables| - t
  {
    if |tables| <= t then []
    else [ClearMessage(t)] + OrdersFrom(tables[t], 0, MAX_ORDER_IDS) + Body(tables, t + 1)
  }

  /** Everything PublishSnapshot sends, in order; message i carries sequence number i. */
  function Published(tables: seq<OrderTable>, lastSeq: nat): seq<MarketUpdate> {
    [Bracket(SnapshotStart, lastSeq)] + Body(tables, 0) + [Bracket(SnapshotEnd, lastSeq)]
  }

  // ---------------------------------------------------------------- round trip

  /** The orders of a side that are older than id `k`. */
  function Below(f: seq<Order<()>>, k: nat): seq<Order<()>> {
    if f == [] then [] else (if f[0].id < k then [f[0]] else []) + Below(f[1..], k)
  }

  function BelowBook(b: Replica, k: nat): Replica {
    PerSide(Below(b.buy, k), Below(b.sell, k))
  }

  lemma {:induction false} BelowMembers(f: seq<Order<()>>, k: nat)
    ensures forall x :: x in Below(f, k) ==> x in f && x.id < k
  {
    if f != [] {
      BelowMembers(f[1..], k);
    }
  }

  lemma {:induction false} BelowRanked(s: Side, f: seq<Order<()>>, k: nat)
    requires Ranked(s, f)
    ensures Ranked(s, Below(f, k))
  {
    if f != [] {
      RankedTail(s, f);
      BelowRanked(s, f[1..], k);
      BelowMembers(f[1..], k);
      RankedCons(s, f[0], Below(f[1..], k));
    }
  }

  lemma {:induction false} BelowSkips(f: seq<Order<()>>, k: nat)
    requires forall x :: x in f ==> x.id != k
    ensures Below(f, k + 1) == Below(f, k)
  {
    if f != [] {
      assert f[0] in f;
      BelowSkips(f[1..], k);
    }
  }

  lemma {:induction false} InsertFirst(s: Side, f: seq<Order<()>>, x: Order<()>)
    requires Ranked(s, f) && OnSide(s, f) && f != [] && f[0] == x && DistinctIds(f)
    ensures Insert(Below(f, x.id), x) == Below(f, x.id + 1)
  {
    RankedTail(s, f);
    DistinctTail(f);
    assert x in f;
    var g := Below(f[1..], x.id);
    BelowMembers(f[1..], x.id);
    BelowSkips(f[1..], x.id);
    assert Below(f, x.id) == g;
    assert g != [] ==> g[0] in g;
  }

  /** Within a price, older ids come first: inserting the order of id `k` among the older ones puts it back
      where it was. */
  lemma {:induction false} InsertNextId(s: Side, f: seq<Order<()>>, x: Order<()>)
    requires Ranked(s, f) && OnSide(s, f) && x in f && DistinctIds(f)
    ensures Insert(Below(f, x.id), x) == Below(f, x.id + 1)
  {
    if f[0] == x {
      InsertFirst(s, f, x);
    } else {
      RankedTail(s, f);
      DistinctTail(f);
      assert x in f[1..] && f[0] in f && Ahead(s, f[0], x) && f[0].id != x.id;
      InsertNextId(s, f[1..], x);
      var g := Below(f[1..], x.id);
      if f[0].id < x.id {
        assert Below(f, x.id) == [f[0]] + g && ([f[0]] + g)[1..] == g;
      } else {
        assert Below(f, x.id) == g && Below(f, x.id + 1) == Below(f[1..], x.id + 1);
      }
    }
  }

  lemma {:induction false} BelowNone(f: seq<Order<()>>)
    ensures Below(f, 0) == []
  {
    if f != [] { BelowNone(f[1..]); }
  }

  lemma {:induction false} BelowEveryone(f: seq<Order<()>>, n: nat)
    requires forall x :: x in f ==> x.id < n
    ensures Below(f, n) == f
  {
    if f != [] {
      assert f[0] in f;
      BelowEveryone(f[1..], n);
    }
  }

  lemma DistinctOf(b: Replica, s: Side)
    requires RankedBook(b) && UniqueIds(b)
    ensures DistinctIds(b.Of(s))
  {
    var f := b.Of(s);
    forall i, j | 0 <= i < j < |f| ensures f[i].id != f[j].id {
      assert f[i] in f && f[j] in f && InBook(b, f[i]) && InBook(b, f[j]) && Ahead(s, f[i], f[j]);
    }
  }

  lemma BelowFits(b: Replica, x: Order<()>)
    requires Orderly(b) && InBook(b, x)
    ensures SlotFits(BelowBook(b, x.id), x.side, x.price)
  {
    BelowMembers(b.buy, x.id);
    BelowMembers(b.sell, x.id);
    forall y | y in BelowBook(b, x.id).Of(x.side.Opposite()) ensures Slot(y.price) != Slot(x.price) {
      assert InBook(b, y) && x in b.Of(x.side) && y.price != x.price;
    }
    forall y | y in BelowBook(b, x.id).Of(x.side) && Slot(y.price) == Slot(x.price) ensures y.price == x.price {
      assert InBook(b, y);
    }
  }

  /** Replaying one published order takes the book of older ids one id further. */
  lemma RebuildOne(b: Replica, t: nat, x: Order<()>)
    requires Orderly(b) && InBook(b, x)
    ensures Apply(BelowBook(b, x.id), Message(t, x)) == BelowBook(b, x.id + 1)
  {
    var f := b.Of(x.side);
    var g := b.Of(x.side.Opposite());
    assert x in f;
    BelowFits(b, x);
    BelowRanked(x.side, f, x.id);
    RestIsInsert(BelowBook(b, x.id), x);
    DistinctOf(b, x.side);
    InsertNextId(x.side, f, x);
    forall y | y in g ensures y.id != x.id { assert InBook(b, y) && y.side != x.side; }
    BelowSkips(g, x.id);
    assert x.owner == () && Described(Message(t, x)) == x;
  }

  lemma BelowBookSkips(b: Replica, k: nat)
    requires forall x :: InBook(b, x) ==> x.id != k
    ensures BelowBook(b, k + 1) == BelowBook(b, k)
  {
    forall x | x in b.buy ensures x.id != k { assert InBook(b, x); }
    forall x | x in b.sell ensures x.id != k { assert InBook(b, x); }
    BelowSkips(b.buy, k);
    BelowSkips(b.sell, k);
  }

  lemma RebuildStep(b: Replica, t: nat, m: OrderTable, k: nat, n: nat)
    requires Orderly(b) && Represents(t, m, b) && k < n
    ensures Replay(BelowBook(b, k), OrdersFrom(m, k, n)) == Replay(BelowBook(b, k + 1), OrdersFrom(m, k + 1, n))
  {
    var us := OrdersFrom(m, k, n);
    if k in m {
      var x :| InBook(b, x) && x.id == k;
      assert us[0] == Message(t, x) && us[1..] == OrdersFrom(m, k + 1, n);
      RebuildOne(b, t, x);
    } else {
      assert us == OrdersFrom(m, k + 1, n);
      BelowBookSkips(b, k);
    }
  }

  lemma {:induction false} Rebuild(b: Replica, t: nat, m: OrderTable, k: nat, n: nat)
    requires Orderly(b) && Represents(t, m, b) && k <= n
    ensures Replay(BelowBook(b, k), OrdersFrom(m, k, n)) == BelowBook(b, n)
    decreases n - k
  {
    if k < n {
      RebuildStep(b, t, m, k, n);
      Rebuild(b, t, m, k + 1, n);
    }
  }

  /** Snapshot round trip for one ticker: from any book at all, CLEAR and the published orders rebuild
      the book the table represents, FIFO order included. */
  lemma {:induction false} TickerRoundTrip(stale: Replica, b: Replica, t: nat, m: OrderTable)
    requires Orderly(b) && Represents(t, m, b)
    ensures Replay(stale, [ClearMessage(t)] + OrdersFrom(m, 0, MAX_ORDER_IDS)) == b
  {
    var us := [ClearMessage(t)] + OrdersFrom(m, 0, MAX_ORDER_IDS);
    assert us[1..] == OrdersFrom(m, 0, MAX_ORDER_IDS);
    BelowNone(b.buy);
    BelowNone(b.sell);
    Rebuild(b, t, m, 0, MAX_ORDER_IDS);
    forall x | x in b.buy ensures x.id < MAX_ORDER_IDS { assert InBook(b, x); }
    forall x | x in b.sell ensures x.id < MAX_ORDER_IDS { assert InBook(b, x); }
    BelowEveryone(b.buy, MAX_ORDER_IDS);
    BelowEveryone(b.sell, MAX_ORDER_IDS);
  }
}

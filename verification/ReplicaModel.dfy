/** What a market participant rebuilds from market updates: the effect of TradingOrderBook::OnMarketUpdate on
    the order lists, and its agreement with the exchange (src/trading_engine/trading_order_book.cpp). */
module ReplicaModel {
  import opened Types
  import opened OrderLists
  import opened PriceMap
  import opened ExchangeModel
  import opened ExchangeInvariants
  import opened Ledger

  type Replica = Book<()>

  /** The order an ADD message describes. */
  function Described(u: MarketUpdate): Order<()>
    requires u.side.Some?
  {
    Order(u.orderId, (), u.side.value, u.price, u.qty, u.priority)
  }

  function Apply(b: Replica, u: MarketUpdate): Replica {
    match u.kind
    case Add => if u.side.Some? then Rest(b, Described(u)) else b
    case Modify => PerSide(SetQty(b.buy, u.orderId, u.qty), SetQty(b.sell, u.orderId, u.qty))
    case Cancel => PerSide(Without(b.buy, u.orderId), Without(b.sell, u.orderId))
    case Clear => EmptyBook()
    case Trade => b
    case _ => b
  }

  function Replay(b: Replica, us: seq<MarketUpdate>): Replica
    decreases |us|
  {
    if us == [] then b else Replay(Apply(b, us[0]), us[1..])
  }

  lemma {:induction false} ReplaySplits(b: Replica, us: seq<MarketUpdate>, vs: seq<MarketUpdate>)
    ensures Replay(b, us + vs) == Replay(Replay(b, us), vs)
    decreases |us|
  {
    if us == [] {
      assert us + vs == vs;
    } else {
      assert (us + vs)[1..] == us[1..] + vs;
      ReplaySplits(Apply(b, us[0]), us[1..], vs);
    }
  }

  // ---------------------------------------------------------------- the public view of an exchange book

  function Public(o: ExchangeOrder): Order<()> {
    Order(o.id, (), o.side, o.price, o.qty, o.priority)
  }

  function PublicList(f: seq<ExchangeOrder>): (r: seq<Order<()>>)
    ensures |r| == |f| && forall i :: 0 <= i < |f| ==> r[i] == Public(f[i])
  {
    if f == [] then [] else [Public(f[0])] + PublicList(f[1..])
  }

  function PublicBook(b: Book<Owner>): Replica {
    PerSide(PublicList(b.buy), PublicList(b.sell))
  }

  lemma {:induction false} PublicSplits(f: seq<ExchangeOrder>, g: seq<ExchangeOrder>)
    ensures PublicList(f + g) == PublicList(f) + PublicList(g)
  {
  }

  lemma {:induction false} PublicIds(f: seq<ExchangeOrder>)
    ensures DistinctIds(f) ==> DistinctIds(PublicList(f))
    ensures forall x :: x in PublicList(f) ==> exists y :: y in f && x == Public(y)
    ensures forall y :: y in f ==> Public(y) in PublicList(f)
  {
    var p := PublicList(f);
    forall x | x in p ensures exists y :: y in f && x == Public(y) {
      var i :| 0 <= i < |p| && p[i] == x;
      assert f[i] in f && x == Public(f[i]);
    }
    forall y | y in f ensures Public(y) in p {
      var i :| 0 <= i < |f| && f[i] == y;
      assert p[i] == Public(y);
    }
  }

  lemma {:induction false} PublicWithout(f: seq<ExchangeOrder>, id: nat)
    ensures PublicList(Without(f, id)) == Without(PublicList(f), id)
  {
    if f != [] {
      PublicWithout(f[1..], id);
      assert PublicList(f)[1..] == PublicList(f[1..]);
    }
  }

  lemma {:induction false} PublicInsert(f: seq<ExchangeOrder>, o: ExchangeOrder)
    ensures PublicList(Insert(f, o)) == Insert(PublicList(f), Public(o))
  {
    if f != [] {
      PublicInsert(f[1..], o);
      assert PublicList(f)[1..] == PublicList(f[1..]);
    }
  }

  lemma {:induction false} PublicAppend(f: seq<ExchangeOrder>, o: ExchangeOrder)
    ensures PublicList(Append(f, o)) == Append(PublicList(f), Public(o))
  {
    if f == [] {
    } else {
      var n := |f| - 1;
      PublicAppend(f[..n], o);
      assert PublicList(f)[..n] == PublicList(f[..n]);
      PublicSplits(Append(f[..n], o), [f[n]]);
      PublicSplits(f, [o]);
    }
  }

  lemma PublicRest(b: Book<Owner>, o: ExchangeOrder)
    ensures PublicBook(Rest(b, o)) == Rest(PublicBook(b), Public(o))
  {
    assert forall s: Side :: HasSlot(b.Of(s), o.price) <==> HasSlot(PublicBook(b).Of(s), o.price) by {
      forall s: Side ensures HasSlot(b.Of(s), o.price) <==> HasSlot(PublicBook(b).Of(s), o.price) {
        var f, p := b.Of(s), PublicBook(b).Of(s);
        assert forall i :: 0 <= i < |f| ==> p[i].price == f[i].price;
      }
    }
    match LevelSide(b, o.price)
    case None => PublicInsert(b.Of(o.side), o);
    case Some(t) => PublicAppend(b.Of(t), o);
  }

  // ---------------------------------------------------------------- replica agreement

  /** No order of `f` shares an id with an order of the other side. */
  ghost predicate Apart(f: seq<ExchangeOrder>, other: seq<Order<()>>) {
    forall x, y :: x in f && y in other ==> x.id != y.id
  }

  lemma {:induction false} HeadCancels(b: Replica, o: Side, opp: seq<ExchangeOrder>, u: MarketUpdate)
    requires opp != [] && DistinctIds(opp) && b.Of(o) == PublicList(opp) && Apart(opp, b.Of(o.Opposite()))
    requires u.kind == Cancel && u.orderId == opp[0].id
    ensures Apply(b, u) == b.With(o, PublicList(opp[1..]))
  {
    assert opp[0] in opp;
    WithoutAbsent(b.Of(o.Opposite()), u.orderId);
    WithoutHead(opp);
    PublicWithout(opp, u.orderId);
  }

  lemma {:induction false} HeadModifies(b: Replica, o: Side, opp: seq<ExchangeOrder>, u: MarketUpdate)
    requires opp != [] && DistinctIds(opp) && b.Of(o) == PublicList(opp) && Apart(opp, b.Of(o.Opposite()))
    requires u.kind == Modify && u.orderId == opp[0].id
    ensures Apply(b, u) == b.With(o, PublicList([opp[0].(qty := u.qty)] + opp[1..]))
  {
    assert opp[0] in opp;
    SetQtyAbsent(b.Of(o.Opposite()), u.orderId, u.qty);
    var r := [opp[0].(qty := u.qty)] + opp[1..];
    assert SetQty(b.Of(o), u.orderId, u.qty) == PublicList(r);
  }

  /** The two updates of one fill do to the replica what the fill does to the resting order. */
  lemma FillReplays(b: Replica, t: Taker, o: Side, opp: seq<ExchangeOrder>, f: Fill)
    requires opp != [] && DistinctIds(opp) && b.Of(o) == PublicList(opp) && Apart(opp, b.Of(o.Opposite()))
    requires f.resting == opp[0] && f.qty <= opp[0].qty
    ensures Replay(b, FillUpdates(t, f))
            == b.With(o, PublicList(if f.qty == opp[0].qty then opp[1..]
                                    else [opp[0].(qty := opp[0].qty - f.qty)] + opp[1..]))
  {
    var us := FillUpdates(t, f);
    var u := us[1];
    assert us[1..] == [u] && [u][1..] == [];
    assert Replay(b, us) == Replay(Apply(b, us[0]), [u]);
    assert Replay(b, [u]) == Replay(Apply(b, u), []);
    if f.qty == opp[0].qty {
      HeadCancels(b, o, opp, u);
    } else {
      HeadModifies(b, o, opp, u);
    }
  }

  lemma {:induction false} OneFill(t: Taker, f: Fill)
    ensures AllUpdates(t, [f]) == FillUpdates(t, f)
  {
    assert [f][1..] == [];
  }

  lemma {:induction false} MoreFills(t: Taker, f: Fill, fs: seq<Fill>)
    ensures AllUpdates(t, [f] + fs) == FillUpdates(t, f) + AllUpdates(t, fs)
  {
    assert ([f] + fs)[1..] == fs;
  }

  lemma {:induction false} SweepReplays(b: Replica, t: Taker, price: int, qty: nat, opp: seq<ExchangeOrder>)
    requires var o := t.side.Opposite();
             DistinctIds(opp) && b.Of(o) == PublicList(opp) && Apart(opp, b.Of(o.Opposite()))
    ensures var r := Sweep(t.side, price, qty, opp);
            Replay(b, AllUpdates(t, r.fills)) == b.With(t.side.Opposite(), PublicList(r.rest))
    decreases |opp|
  {
    var o := t.side.Opposite();
    if qty == 0 || opp == [] || Worse(t.side, price, opp[0].price) {
    } else if qty < opp[0].qty {
      var f := Fill(opp[0], qty, 0);
      FillReplays(b, t, o, opp, f);
      OneFill(t, f);
    } else {
      var left := qty - opp[0].qty;
      var f := Fill(opp[0], opp[0].qty, left);
      var b1 := b.With(o, PublicList(opp[1..]));
      var u := Sweep(t.side, price, left, opp[1..]);
      DistinctTail(opp);
      FillReplays(b, t, o, opp, f);
      SweepReplays(b1, t, price, left, opp[1..]);
      MoreFills(t, f, u.fills);
      ReplaySplits(b, FillUpdates(t, f), AllUpdates(t, u.fills));
      assert b1.With(o, PublicList(u.rest)) == b.With(o, PublicList(u.rest));
    }
  }

  // ---------------------------------------------------------------- updates a replica can take

  ghost predicate Names(b: Replica, u: MarketUpdate) {
    exists x :: InBook(b, x) && x.id == u.orderId && Some(x.side) == u.side && x.price == u.price
  }

  /** What OnMarketUpdate and AddToSnapshot rely on: an ADD brings an unused id and finds its slot empty or
      holding its own level, a MODIFY or CANCEL names a live order, its side and its price. */
  ghost predicate Acceptable(b: Replica, u: MarketUpdate) {
    match u.kind
    case Add =>
      && u.side.Some? && u.orderId < MAX_ORDER_IDS && 0 < u.qty
      && (forall x :: InBook(b, x) ==> x.id != u.orderId)
      && SlotFits(b, u.side.value, u.price)
    case Modify => 0 < u.qty && Names(b, u)
    case Cancel => Names(b, u)
    case Trade => true
    case _ => false
  }

  /** What the exchange adds to that: an ADD is the youngest order of its price and does not cross. */
  ghost predicate Sequenced(b: Replica, u: MarketUpdate) {
    && Acceptable(b, u)
    && (u.kind == Add ==>
          && (forall x :: x in b.Of(u.side.value) && x.price == u.price ==> x.id < u.orderId && x.priority < u.priority)
          && (forall x :: x in b.Of(u.side.value.Opposite()) ==> Worse(u.side.value, u.price, x.price)))
  }

  ghost predicate AllSequenced(b: Replica, us: seq<MarketUpdate>)
    decreases |us|
  {
    us != [] ==> Sequenced(b, us[0]) && AllSequenced(Apply(b, us[0]), us[1..])
  }

  lemma {:induction false} SequencedSplits(b: Replica, us: seq<MarketUpdate>, vs: seq<MarketUpdate>)
    requires AllSequenced(b, us) && AllSequenced(Replay(b, us), vs)
    ensures AllSequenced(b, us + vs)
    decreases |us|
  {
    if us == [] {
      assert us + vs == vs;
    } else {
      assert (us + vs)[1..] == us[1..] + vs;
      SequencedSplits(Apply(b, us[0]), us[1..], vs);
    }
  }

  lemma {:induction false} FillSequenced(b: Replica, t: Taker, o: Side, opp: seq<ExchangeOrder>, f: Fill)
    requires opp != [] && b.Of(o) == PublicList(opp) && f.resting == opp[0] && opp[0].side == o
    ensures AllSequenced(b, FillUpdates(t, f))
  {
    var us := FillUpdates(t, f);
    var u := us[1];
    var x := b.Of(o)[0];
    assert x in b.Of(o) && InBook(b, x);
    assert Names(b, u);
    assert us[1..] == [u] && [u][1..] == [];
    assert AllSequenced(Apply(b, u), []);
    assert AllSequenced(b, [u]);
    assert Apply(b, us[0]) == b;
  }

  lemma {:induction false} SweepSequenced(b: Replica, t: Taker, price: int, qty: nat, opp: seq<ExchangeOrder>)
    requires var o := t.side.Opposite();
             && DistinctIds(opp) && OnSide(o, opp)
             && b.Of(o) == PublicList(opp) && Apart(opp, b.Of(o.Opposite()))
    ensures AllSequenced(b, AllUpdates(t, Sweep(t.side, price, qty, opp).fills))
    decreases |opp|
  {
    var o := t.side.Opposite();
    if qty == 0 || opp == [] || Worse(t.side, price, opp[0].price) {
    } else if qty < opp[0].qty {
      var f := Fill(opp[0], qty, 0);
      FillSequenced(b, t, o, opp, f);
      OneFill(t, f);
    } else {
      var left := qty - opp[0].qty;
      var f := Fill(opp[0], opp[0].qty, left);
      var b1 := b.With(o, PublicList(opp[1..]));
      var u := Sweep(t.side, price, left, opp[1..]);
      DistinctTail(opp);
      FillReplays(b, t, o, opp, f);
      FillSequenced(b, t, o, opp, f);
      SweepSequenced(b1, t, price, left, opp[1..]);
      MoreFills(t, f, u.fills);
      SequencedSplits(b, FillUpdates(t, f), AllUpdates(t, u.fills));
    }
  }

  // ---------------------------------------------------------------- one request

  lemma PublicApart(b: Book<Owner>, s: Side)
    requires RankedBook(b) && UniqueIds(b)
    ensures DistinctIds(b.Of(s)) && Apart(b.Of(s), PublicList(b.Of(s.Opposite())))
  {
    DistinctIn(b, s);
    var g := b.Of(s.Opposite());
    PublicIds(g);
    forall x, y | x in b.Of(s) && y in PublicList(g) ensures x.id != y.id {
      var z :| z in g && y == Public(z);
      assert InBook(b, x) && InBook(b, z) && x.side != z.side;
    }
  }

  /** The updates of an Add, replayed on the public view of the book, give the public view of the new book. */
  lemma AddReplays(ex: Exchange, client: nat, clientOid: nat, ticker: nat, s: Side, price: int, qty: nat)
    requires WellFormed(ex)
    ensures var out := AddRequest(ex, client, clientOid, ticker, s, price, qty);
            Replay(PublicBook(ex.book), out.updates) == PublicBook(out.next.book)
  {
    var o := s.Opposite();
    var t := Taker(client, ticker, clientOid, ex.nextId % TWO_32, s);
    var r := Sweep(s, price, qty, ex.book.Of(o));
    var mid := ex.book.With(o, r.rest);
    PublicApart(ex.book, o);
    SweepReplays(PublicBook(ex.book), t, price, qty, ex.book.Of(o));
    if r.leaves != 0 {
      var x := NewOrder(mid, ex.nextId, Owner(client, clientOid), s, price, r.leaves);
      var u := MarketUpdate(Add, ex.nextId, ticker, Some(s), price, r.leaves, x.priority);
      ReplaySplits(PublicBook(ex.book), AllUpdates(t, r.fills), [u]);
      assert Replay(PublicBook(mid), [u]) == Replay(Apply(PublicBook(mid), u), []);
      PublicRest(mid, x);
    }
  }

  lemma {:induction false} CancelReplays(ex: Exchange, client: nat, clientOid: nat, ticker: nat)
    requires WellFormed(ex)
    ensures var out := CancelRequest(ex, client, clientOid, ticker);
            && Replay(PublicBook(ex.book), out.updates) == PublicBook(out.next.book)
            && AllSequenced(PublicBook(ex.book), out.updates)
  {
    var found := if client < MAX_CLIENTS then Lookup(ex.book, Owner(client, clientOid)) else None;
    if found.Some? {
      var x := found.value;
      var b := PublicBook(ex.book);
      var u := CancelRequest(ex, client, clientOid, ticker).updates[0];
      PublicApart(ex.book, x.side);
      PublicWithout(ex.book.Of(x.side), x.id);
      WithoutAbsent(b.Of(x.side.Opposite()), x.id);
      PublicIds(ex.book.Of(x.side));
      assert InBook(b, Public(x));
      assert Replay(b, [u]) == Replay(Apply(b, u), []);
      assert AllSequenced(Apply(b, u), []);
    }
  }

  lemma PublicSlotFits(b: Book<Owner>, s: Side, price: int)
    requires SlotFits(b, s, price)
    ensures SlotFits(PublicBook(b), s, price)
  {
    PublicIds(b.buy);
    PublicIds(b.sell);
  }

  lemma AddSequenced(ex: Exchange, client: nat, clientOid: nat, ticker: nat, s: Side, price: int, qty: nat)
    requires WellFormed(ex) && CanRest(ex, client, clientOid, s, price, qty) && ex.nextId < MAX_ORDER_IDS
    ensures AllSequenced(PublicBook(ex.book), AddRequest(ex, client, clientOid, ticker, s, price, qty).updates)
  {
    var o := s.Opposite();
    var t := Taker(client, ticker, clientOid, ex.nextId % TWO_32, s);
    var r := Sweep(s, price, qty, ex.book.Of(o));
    var mid := Matched(ex, s, price, qty).0;
    var b := PublicBook(ex.book);
    PublicApart(ex.book, o);
    SweepSequenced(b, t, price, qty, ex.book.Of(o));
    if r.leaves != 0 {
      SweepReplays(b, t, price, qty, ex.book.Of(o));
      var x := NewOrder(mid.book, ex.nextId, Owner(client, clientOid), s, price, r.leaves);
      var u := MarketUpdate(Add, ex.nextId, ticker, Some(s), price, r.leaves, x.priority);
      SweepKeepsWellFormed(ex, mid, s, price, qty);
      SweepLeavesOnlyWorse(s, price, qty, ex.book.Of(o));
      RestSequenced(mid, Owner(client, clientOid), s, price, r.leaves, u);
      SequencedSplits(b, AllUpdates(t, r.fills), [u]);
    }
  }

  lemma PublicFresh(b: Book<Owner>, id: nat)
    requires Live(b, id)
    ensures forall x :: InBook(PublicBook(b), x) ==> x.id != id
  {
    PublicIds(b.buy);
    PublicIds(b.sell);
    forall x | InBook(PublicBook(b), x) ensures x.id != id {
      var y :| InBook(b, y) && x == Public(y);
    }
  }

  lemma RestSequenced(mid: Exchange, owner: Owner, s: Side, price: int, qty: nat, u: MarketUpdate)
    requires Live(mid.book, mid.nextId) && ClearOf(mid.book, s, price) && SlotFree(mid.book, price)
    requires Ranked(s, mid.book.Of(s)) && mid.nextId < MAX_ORDER_IDS && 0 < qty
    requires u == MarketUpdate(Add, mid.nextId, u.ticker, Some(s), price, qty,
                               NewOrder(mid.book, mid.nextId, owner, s, price, qty).priority)
    ensures AllSequenced(PublicBook(mid.book), [u])
  {
    OnePriceMapSuffices(mid.book, s, price);
    PublicSlotFits(mid.book, s, price);
    PublicFresh(mid.book, mid.nextId);
    NewOrderIsLast(mid.book, mid.nextId, owner, s, price, qty);
    RestInTurn(mid, u);
    assert AllSequenced(Apply(PublicBook(mid.book), u), []);
  }

  lemma RestInTurn(mid: Exchange, u: MarketUpdate)
    requires Live(mid.book, mid.nextId) && u.orderId == mid.nextId && u.side.Some?
    requires ClearOf(mid.book, u.side.value, u.price)
    requires forall x :: x in mid.book.Of(u.side.value) && x.price == u.price ==> x.priority < u.priority
    ensures var b := PublicBook(mid.book);
            && (forall x :: x in b.Of(u.side.value) && x.price == u.price ==> x.id < u.orderId && x.priority < u.priority)
            && (forall x :: x in b.Of(u.side.value.Opposite()) ==> Worse(u.side.value, u.price, x.price))
  {
    PublicIds(mid.book.Of(u.side.value));
    PublicIds(mid.book.Of(u.side.value.Opposite()));
    forall y | y in mid.book.Of(u.side.value) ensures y.id < mid.nextId { assert InBook(mid.book, y); }
  }

  /** Replica agreement, one request: same levels, same FIFO, same ids, prices, quantities and priorities. */
  lemma {:induction false} ProcessReplays(ex: Exchange, r: ClientRequest)
    requires WellFormed(ex)
    ensures Replay(PublicBook(ex.book), Process(ex, r).updates) == PublicBook(Process(ex, r).next.book)
    ensures Legal(ex, r) && ex.nextId < MAX_ORDER_IDS ==> AllSequenced(PublicBook(ex.book), Process(ex, r).updates)
  {
    match r.kind
    case New =>
      AddReplays(ex, r.client, r.orderId, r.ticker, r.side, r.price, r.qty);
      if Legal(ex, r) && ex.nextId < MAX_ORDER_IDS {
        AddSequenced(ex, r.client, r.orderId, r.ticker, r.side, r.price, r.qty);
      }
    case CancelOrder => CancelReplays(ex, r.client, r.orderId, r.ticker);
  }

  // ---------------------------------------------------------------- the replica stays orderly

  /** Price-time order, unique ids and slots, no crossing: what the exchange keeps and a snapshot needs. */
  ghost predicate Orderly(b: Replica) {
    RankedBook(b) && UniqueIds(b) && UniqueSlots(b) && Uncrossed(b)
  }

  lemma AddKeepsOrderly(b: Replica, u: MarketUpdate)
    requires Orderly(b) && Sequenced(b, u) && u.kind == Add
    ensures Orderly(Apply(b, u))
  {
    var o := Described(u);
    RestIsInsert(b, o);
    InsertRanked(o.side, b.Of(o.side), o);
    InsertMembers(b.Of(o.side), o);
    forall x | InBook(Apply(b, u), x) && x != o ensures InBook(b, x) && (Slot(x.price) == Slot(o.price) ==> x.price == o.price) {}
  }

  lemma {:induction false} CancelKeepsOrderly(b: Replica, id: nat)
    requires Orderly(b)
    ensures Orderly(PerSide(Without(b.buy, id), Without(b.sell, id)))
  {
    WithoutMembers(b.buy, id);
    WithoutMembers(b.sell, id);
    WithoutRanked(Buy, b.buy, id);
    WithoutRanked(Sell, b.sell, id);
  }

  lemma {:induction false} ModifyKeepsUncrossed(b: Replica, id: nat, qty: nat)
    requires Uncrossed(b)
    ensures Uncrossed(PerSide(SetQty(b.buy, id, qty), SetQty(b.sell, id, qty)))
  {
    SetQtyMembers(b.buy, id, qty);
    SetQtyMembers(b.sell, id, qty);
  }

  lemma {:induction false} ModifyKeepsUnique(b: Replica, id: nat, qty: nat)
    requires UniqueIds(b) && UniqueSlots(b)
    ensures var b' := PerSide(SetQty(b.buy, id, qty), SetQty(b.sell, id, qty)); UniqueIds(b') && UniqueSlots(b')
  {
    SetQtyMembers(b.buy, id, qty);
    SetQtyMembers(b.sell, id, qty);
    var b' := PerSide(SetQty(b.buy, id, qty), SetQty(b.sell, id, qty));
    forall x, y | InBook(b', x) && InBook(b', y)
      ensures x.id == y.id ==> x == y
      ensures Slot(x.price) == Slot(y.price) ==> x.price == y.price
    {
      var v :| InBook(b, v) && x == if v.id == id then v.(qty := qty) else v;
      var w :| InBook(b, w) && y == if w.id == id then w.(qty := qty) else w;
    }
  }

  lemma SequencedKeepsOrderly(b: Replica, u: MarketUpdate)
    requires Orderly(b) && Sequenced(b, u)
    ensures Orderly(Apply(b, u))
  {
    match u.kind
    case Add => AddKeepsOrderly(b, u);
    case Modify =>
      SetQtyRanked(Buy, b.buy, u.orderId, u.qty);
      SetQtyRanked(Sell, b.sell, u.orderId, u.qty);
      ModifyKeepsUncrossed(b, u.orderId, u.qty);
      ModifyKeepsUnique(b, u.orderId, u.qty);
    case Cancel => CancelKeepsOrderly(b, u.orderId);
    case _ =>
  }
}

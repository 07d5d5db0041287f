/** The order book a trading client rebuilds from market updates, and its best bid and offer
    (src/trading_engine/trading_order_book.cpp, src/include/trading_engine/trading_order_book.hpp). */
module TradingOrderBookClass {
  import opened Types
  import opened OrderLists
  import opened PriceMap
  import opened Rings
  import opened LevelLists
  import opened BookIndex
  import opened ReplicaModel

  type ReplicaOrder = Order<()>
  type ReplicaNode = Node<ReplicaOrder>

  // ---------------------------------------------------------------- quotes

  /** Best price of a side and the quantity there. */
  datatype Quote = Quote(price: int, qty: nat)

  const NO_QUOTE := Quote(PRICE_INVALID, QTY_INVALID)

  function LevelQty(f: seq<ReplicaOrder>, price: int): nat {
    if f == [] then 0 else (if f[0].price == price then f[0].qty else 0) + LevelQty(f[1..], price)
  }

  /** The true quote of a side; quantities add up in 32 bits. */
  function BestQuote(f: seq<ReplicaOrder>): Quote {
    if f == [] then NO_QUOTE else Quote(f[0].price, LevelQty(f, f[0].price) % TWO_32)
  }

  /** A quote shows the total of the best level exactly when that is below 2^32. */
  lemma {:induction false} QuoteIsTotal(f: seq<ReplicaOrder>)
    requires f != []
    ensures BestQuote(f).qty == LevelQty(f, f[0].price) <==> LevelQty(f, f[0].price) < TWO_32
  {
  }

  /** Two orders of 2^31 at one price are quoted as nothing. */
  lemma QuoteWraps(a: ReplicaOrder, b: ReplicaOrder)
    requires a.price == b.price && a.qty == b.qty == TWO_31
    ensures BestQuote([a, b]) == Quote(a.price, 0)
  {
    assert [a, b][1..] == [b] && [b][1..] == [];
    assert LevelQty([b], a.price) == TWO_31;
  }

  lemma {:induction false} QtyOfParts(f: seq<ReplicaOrder>, g: seq<ReplicaOrder>, price: int)
    ensures LevelQty(f + g, price) == LevelQty(f, price) + LevelQty(g, price)
  {
    if f == [] {
      assert f + g == g;
    } else {
      assert (f + g)[1..] == f[1..] + g;
      QtyOfParts(f[1..], g, price);
    }
  }

  lemma {:induction false} QtyElsewhere(f: seq<ReplicaOrder>, price: int)
    requires forall x :: x in f ==> x.price != price
    ensures LevelQty(f, price) == 0
  {
    if f != [] {
      assert f[0] in f;
      QtyElsewhere(f[1..], price);
    }
  }

  lemma {:induction false} InsertQty(f: seq<ReplicaOrder>, o: ReplicaOrder, price: int)
    requires o.price != price
    ensures LevelQty(Insert(f, o), price) == LevelQty(f, price)
  {
    if f == [] || Worse(o.side, f[0].price, o.price) {
      assert ([o] + f)[1..] == f;
    } else {
      InsertQty(f[1..], o, price);
    }
  }

  lemma {:induction false} WithoutQty(f: seq<ReplicaOrder>, id: nat, price: int)
    requires forall x :: x in f && x.id == id ==> x.price != price
    ensures LevelQty(Without(f, id), price) == LevelQty(f, price)
  {
    if f != [] {
      assert f[0] in f;
      WithoutQty(f[1..], id, price);
    }
  }

  lemma {:induction false} SetQtyQty(f: seq<ReplicaOrder>, id: nat, qty: nat, price: int)
    requires forall x :: x in f && x.id == id ==> x.price != price
    ensures LevelQty(SetQty(f, id, qty), price) == LevelQty(f, price)
  {
    if f != [] {
      assert f[0] in f;
      SetQtyQty(f[1..], id, qty, price);
    }
  }

  /** The side of the update, when it touches the best level or a better price: what OnMarketUpdate recomputes. */
  predicate Refreshes(b: Replica, u: MarketUpdate, s: Side) {
    b.Of(s) != [] && u.side == Some(s) && !Worse(s, u.price, b.Of(s)[0].price)
  }

  /** Ids are unique over both sides, each side in price-time order. */
  ghost predicate Shared(b: Replica) {
    RankedBook(b) && UniqueIds(b)
  }

  /** An update that needs no refresh of side `s` leaves its quote, or comes to an empty side. */
  lemma {:induction false} QuoteStays(b: Replica, u: MarketUpdate, s: Side)
    requires Sequenced(b, u) && Shared(b) && !Refreshes(b, u, s)
    ensures b.Of(s) != [] ==> BestQuote(Apply(b, u).Of(s)) == BestQuote(b.Of(s))
  {
    var f := b.Of(s);
    if f != [] {
      assert f[0] in f && InBook(b, f[0]);
      match u.kind
      case Add =>
        RestIsInsert(b, Described(u));
        if u.side == Some(s) {
          InsertQty(f, Described(u), f[0].price);
        }
      case Modify =>
        SetQtyQty(f, u.orderId, u.qty, f[0].price);
      case Cancel =>
        WithoutQty(f, u.orderId, f[0].price);
      case _ =>
    }
  }

  lemma SharedShown(orders: set<ReplicaNode>, b: Replica)
    requires Shows(orders, b) && Arranged(b)
    ensures Shared(b)
  {
    ArrangedIsRanked(b);
    forall x, y | InBook(b, x) && InBook(b, y) && x.id == y.id ensures x == y {
      assert Backed(x, orders) && Backed(y, orders);
      var m :| m in orders && m.data == x;
      var n :| n in orders && n.data == y;
      assert SameId(m, n);
    }
  }

  /** A MODIFY or CANCEL changes only the side of the order it names. */
  lemma OneSide(b: Replica, u: MarketUpdate, o: ReplicaOrder)
    requires Shared(b) && InBook(b, o) && o.id == u.orderId
    ensures u.kind == Modify ==> Apply(b, u) == b.With(o.side, SetQty(b.Of(o.side), o.id, u.qty))
    ensures u.kind == Cancel ==> Apply(b, u) == b.With(o.side, Without(b.Of(o.side), o.id))
  {
    var other := b.Of(o.side.Opposite());
    forall x | x in other ensures x.id != o.id {
      assert InBook(b, x);
    }
    SetQtyAbsent(other, o.id, u.qty);
    WithoutAbsent(other, o.id);
  }

  /** Behind the first order of another price there is nothing more of the best price. */
  lemma QtyOfFront(b: Replica, s: Side, i: nat)
    requires Arranged(b) && 0 < i <= |b.Of(s)|
    requires i < |b.Of(s)| ==> b.Of(s)[i].price != b.Of(s)[0].price
    ensures LevelQty(b.Of(s), b.Of(s)[0].price) == LevelQty(b.Of(s)[..i], b.Of(s)[0].price)
  {
    var f, price := b.Of(s), b.Of(s)[0].price;
    forall x | x in f[i..] ensures x.price != price {
      var j :| i <= j < |f| && f[j] == x;
      assert InOrder(b, s, 0, i) && InOrder(b, s, i, j);
    }
    QtyElsewhere(f[i..], price);
    QtyOfParts(f[..i], f[i..], price);
    assert f == f[..i] + f[i..];
  }

  lemma {:induction false} QtyOfNext(f: seq<ReplicaOrder>, i: nat, price: int)
    requires i < |f| && f[i].price == price
    ensures LevelQty(f[..i + 1], price) == LevelQty(f[..i], price) + f[i].qty
  {
    QtyOfParts(f[..i], [f[i]], price);
    assert f[..i + 1] == f[..i] + [f[i]];
    assert [f[i]][1..] == [];
    assert LevelQty([f[i]], price) == f[i].qty;
  }

  // ---------------------------------------------------------------- the order id map

  ghost predicate Found(x: ReplicaNode, orders: map<nat, ReplicaNode>)
    reads x`data
  {
    x.data.id in orders && orders[x.data.id] == x
  }

  /** The map holds exactly the live orders, each under its id. */
  ghost predicate Indexed(orders: map<nat, ReplicaNode>, live: set<ReplicaNode>)
    reads live`data
  {
    && (forall x {:trigger Found(x, orders)} :: x in live ==> Found(x, orders))
    && (forall id {:trigger orders[id]} :: id in orders ==>
          orders[id] in live && orders[id].data.id == id && id < MAX_ORDER_IDS)
  }

  lemma IndexedAdded(orders: map<nat, ReplicaNode>, live: set<ReplicaNode>, x: ReplicaNode)
    requires Indexed(orders, live) && x !in live && x.data.id !in orders && x.data.id < MAX_ORDER_IDS
    ensures Indexed(orders[x.data.id := x], live + {x})
  {
    forall y | y in live + {x} ensures Found(y, orders[x.data.id := x]) {
      assert y != x ==> Found(y, orders);
    }
  }

  lemma IndexedRemoved(orders: map<nat, ReplicaNode>, live: set<ReplicaNode>, x: ReplicaNode)
    requires Indexed(orders, live) && x in live
    ensures Indexed(orders - {x.data.id}, live - {x})
  {
    assert Found(x, orders);
    forall y | y in live - {x} ensures Found(y, orders - {x.data.id}) {
      assert Found(y, orders);
    }
  }

  twostate lemma IndexedCut(orders: map<nat, ReplicaNode>, new live: set<ReplicaNode>)
    requires old(allocated(live)) && old(Indexed(orders, live))
    requires forall x {:trigger x.data} :: x in live ==> x.data.id == old(x.data.id)
    ensures Indexed(orders, live)
  {
    forall x | x in live ensures Found(x, orders) {
      assert old(Found(x, orders));
    }
  }

  /** An id is in the map exactly when an order of the book has it, and leads to that order. */
  lemma FindShown(orders: map<nat, ReplicaNode>, live: set<ReplicaNode>, b: Replica, id: nat)
    requires Indexed(orders, live) && Shows(live, b)
    ensures id in orders ==> InBook(b, orders[id].data) && orders[id].data.id == id
    ensures forall o :: InBook(b, o) && o.id == id ==> id in orders && orders[id].data == o
  {
    if id in orders {
      assert Shown(orders[id], b);
    }
    forall o | InBook(b, o) && o.id == id ensures id in orders && orders[id].data == o {
      assert Backed(o, live);
      var x :| x in live && x.data == o;
      assert Found(x, orders);
    }
  }

  lemma NamedShown(orders: map<nat, ReplicaNode>, live: set<ReplicaNode>, b: Replica, u: MarketUpdate)
    requires Indexed(orders, live) && Shows(live, b) && Arranged(b) && Names(b, u)
    ensures u.orderId in orders && orders[u.orderId] in live && orders[u.orderId].data.id == u.orderId
    ensures var o := orders[u.orderId].data;
            && (u.kind == Modify ==> Apply(b, u) == b.With(o.side, SetQty(b.Of(o.side), o.id, u.qty)))
            && (u.kind == Cancel ==> Apply(b, u) == b.With(o.side, Without(b.Of(o.side), o.id)))
  {
    SharedShown(live, b);
    FindShown(orders, live, b, u.orderId);
    OneSide(b, u, orders[u.orderId].data);
  }

  /** The order's id is new, its slot fits, and it is the youngest of its price. */
  ghost predicate Joinable(orders: map<nat, ReplicaNode>, live: set<ReplicaNode>, b: Replica, o: ReplicaOrder)
    reads live`data
  {
    && o.id !in orders && o.id < MAX_ORDER_IDS && SlotFits(b, o.side, o.price)
    && (forall y {:trigger y.data} :: y in live ==> y.data.id != o.id)
    && forall y :: y in b.Of(o.side) && y.price == o.price ==> y.id < o.id && y.priority < o.priority
  }

  lemma AddJoins(orders: map<nat, ReplicaNode>, live: set<ReplicaNode>, b: Replica, u: MarketUpdate)
    requires Indexed(orders, live) && Shows(live, b) && Arranged(b) && u.kind == Add && Sequenced(b, u)
    ensures var o := Described(u);
            Joinable(orders, live, b, o) && Apply(b, u) == b.With(o.side, Insert(b.Of(o.side), o))
  {
    FindShown(orders, live, b, u.orderId);
    ArrangedIsRanked(b);
    RestIsInsert(b, Described(u));
    forall y | y in live ensures y.data.id != u.orderId {
      assert Found(y, orders);
    }
  }

  /** What OnMarketUpdate can digest: an update of the live feed, a CLEAR, or one of the kinds it ignores. */
  ghost predicate Digestible(b: Replica, u: MarketUpdate) {
    match u.kind
    case Add => Sequenced(b, u)
    case Modify => Sequenced(b, u)
    case Cancel => Sequenced(b, u)
    case _ => true
  }

  /** A CLEAR finds something to clear. */
  predicate Clears(b: Replica, u: MarketUpdate) {
    u.kind == Clear && b != EmptyBook()
  }

  /** The quote of a side is unknown or exact. */
  ghost predicate QuoteOk(b: Replica, bbo: PerSide<Quote>, s: Side) {
    bbo.Of(s) == NO_QUOTE || bbo.Of(s) == BestQuote(b.Of(s))
  }

  /** The first order of an empty side goes unquoted until the next update at its price or a better one. */
  lemma {:induction false} FirstOrderUnquoted(b: Replica, u: MarketUpdate, s: Side)
    requires u.kind == Add && Sequenced(b, u) && Shared(b) && u.side == Some(s) && b.Of(s) == []
    ensures !Refreshes(b, u, s)
    ensures BestQuote(Apply(b, u).Of(s)) == Quote(u.price, u.qty % TWO_32)
  {
    var o := Described(u);
    RestIsInsert(b, o);
    assert Insert([], o) == [o] && [o][1..] == [] && [o][0] == o;
    assert LevelQty([o], u.price) == u.qty + LevelQty([], u.price);
  }

  /** The quote of a side is read off the new book if the update refreshes it, and left alone otherwise. */
  ghost predicate Requoted(b: Replica, u: MarketUpdate, b': Replica, bbo: PerSide<Quote>, bbo': PerSide<Quote>, s: Side) {
    bbo'.Of(s) == if u.kind != Trade && Refreshes(b, u, s) then BestQuote(b'.Of(s)) else bbo.Of(s)
  }

  /** Refreshing the quotes an update touches keeps them all unknown or exact. */
  lemma {:induction false} QuotesFollow(b: Replica, u: MarketUpdate, bbo: PerSide<Quote>, bbo': PerSide<Quote>, s: Side)
    requires Digestible(b, u) && !Clears(b, u) && Shared(b) && QuoteOk(b, bbo, s)
    requires Requoted(b, u, Apply(b, u), bbo, bbo', s)
    ensures QuoteOk(Apply(b, u), bbo', s)
  {
    if (u.kind == Add || u.kind == Modify || u.kind == Cancel) && !Refreshes(b, u, s) {
      QuoteStays(b, u, s);
    }
  }

  /** An update for a side that has a best price, at that price or a better one, makes its quote that of the new book;
      every other update leaves the quote alone, and an exact quote exact unless the side was empty. */
  lemma {:induction false} QuoteOutcome(b: Replica, u: MarketUpdate, bbo: PerSide<Quote>, bbo': PerSide<Quote>, s: Side)
    requires Sequenced(b, u) && Shared(b) && Requoted(b, u, Apply(b, u), bbo, bbo', s)
    ensures var f := b.Of(s);
            if u.kind != Trade && f != [] && u.side == Some(s) && (if s == Buy then u.price >= f[0].price else u.price <= f[0].price)
            then bbo'.Of(s) == BestQuote(Apply(b, u).Of(s))
            else bbo'.Of(s) == bbo.Of(s)
                 && (f != [] && bbo.Of(s) == BestQuote(f) ==> bbo'.Of(s) == BestQuote(Apply(b, u).Of(s)))
  {
    if !Refreshes(b, u, s) {
      QuoteStays(b, u, s);
    }
  }

  /** The true quote is of the best price of the side, and of all that rests there. */
  lemma {:induction false} BestIsBest(b: Replica, s: Side, x: ReplicaOrder)
    requires RankedBook(b) && x in b.Of(s)
    ensures BestQuote(b.Of(s)).price == b.Of(s)[0].price && !Worse(s, BestQuote(b.Of(s)).price, x.price)
  {
    var f := b.Of(s);
    var i :| 0 <= i < |f| && f[i] == x;
    assert i > 0 ==> Ahead(s, f[0], f[i]);
  }

  /** The feed from update `i` on fits the book `b` and makes it the book `end`. */
  ghost predicate LeadsTo(b: Replica, us: seq<MarketUpdate>, i: nat, end: Replica) {
    i <= |us| && AllSequenced(b, us[i..]) && Replay(b, us[i..]) == end
  }

  lemma NextOfFeed(b: Replica, us: seq<MarketUpdate>, i: nat, end: Replica)
    requires i < |us| && LeadsTo(b, us, i, end)
    ensures Sequenced(b, us[i]) && LeadsTo(Apply(b, us[i]), us, i + 1, end)
  {
    assert us[i..][0] == us[i] && us[i..][1..] == us[i + 1..];
  }

  class TradingOrderBook {
    const lists: PriceLevels<()>
    var orders: map<nat, ReplicaNode>
    var bbo: PerSide<Quote>

    ghost var book: Replica

    ghost predicate Coherent()
      reads this`orders, this`book, lists, lists.levels, lists.orders
    {
      Held(lists, book) && Indexed(orders, lists.orders)
    }

    /** Nothing is reachable any more: the state a CLEAR leaves. */
    ghost predicate Emptied()
      reads this`orders, this`book, lists
    {
      book == EmptyBook() && orders == map[] && lists.best == PerSide(null, null)
    }

    ghost predicate Valid()
      reads this, lists, lists.levels, lists.orders
    {
      Coherent() && QuoteOk(book, bbo, Buy) && QuoteOk(book, bbo, Sell)
    }

    constructor ()
      ensures Valid() && book == EmptyBook() && bbo == PerSide(NO_QUOTE, NO_QUOTE)
      ensures fresh(lists) && fresh(lists.levels) && fresh(lists.orders)
    {
      lists := new PriceLevels<()>();
      orders, book, bbo := map[], EmptyBook(), PerSide(NO_QUOTE, NO_QUOTE);
    }

    twostate lemma CoherentKept()
      requires old(Coherent()) && unchanged(this`orders, this`book, lists)
      requires unchanged(lists.levels) && unchanged(lists.orders)
      ensures Coherent()
    {
      HeldKept(lists, book);
    }

    /** The order joins the lists and the id map. */
    method AddOrder(x: ReplicaNode)
      requires Coherent() && Joinable(orders, lists.orders, book, x.data)
      requires x !in lists.orders && x.ring == Slot(x.data.price) && x.key == x.data.id
      modifies this`orders, this`book, lists, x`prev, x`next
      modifies lists.levels`prev, lists.levels`next, lists.orders`prev, lists.orders`next
      ensures Coherent() && lists.orders == old(lists.orders) + {x} && fresh(lists.levels - old(lists.levels))
      ensures book == old(book).With(x.data.side, Insert(old(book).Of(x.data.side), x.data))
    {
      AddNode(lists, x, book);
      label Added:
      IndexedAdded(orders, lists.orders - {x}, x);
      book := book.With(x.data.side, Insert(book.Of(x.data.side), x.data));
      orders := orders[x.data.id := x];
      HeldKept@Added(lists, book);
    }

    method OnAdd(u: MarketUpdate)
      requires Coherent() && u.kind == Add && Sequenced(book, u)
      modifies this`orders, this`book, lists, lists.levels, lists.orders
      ensures Coherent() && book == Apply(old(book), u)
      ensures fresh(lists.orders - old(lists.orders)) && fresh(lists.levels - old(lists.levels))
    {
      AddJoins(orders, lists.orders, book, u);
      var order := new Node(Order(u.orderId, (), u.side.value, u.price, u.qty, u.priority), Slot(u.price), u.orderId);
      AddOrder(order);
    }

    method OnModify(u: MarketUpdate)
      requires Coherent() && u.kind == Modify && Sequenced(book, u)
      modifies this`book, lists.orders`data
      ensures Coherent() && book == Apply(old(book), u)
    {
      NamedShown(orders, lists.orders, book, u);
      var order := orders[u.orderId];
      CutNode(lists, order, u.qty, book);
      label Changed:
      book := Apply(book, u);
      HeldKept@Changed(lists, book);
      IndexedCut(orders, lists.orders);
    }

    /** The order leaves the lists and the id map. */
    method RemoveOrder(x: ReplicaNode)
      requires Coherent() && x in lists.orders
      modifies this`orders, this`book, lists, lists.levels, lists.orders`prev, lists.orders`next
      ensures Coherent() && lists.orders == old(lists.orders) - {x} && lists.levels <= old(lists.levels)
      ensures book == old(book.With(x.data.side, Without(book.Of(x.data.side), x.data.id)))
    {
      IndexedRemoved(orders, lists.orders, x);
      RemoveNode(lists, x, book);
      label Removed:
      orders := orders - {x.data.id};
      book := book.With(x.data.side, Without(book.Of(x.data.side), x.data.id));
      HeldKept@Removed(lists, book);
    }

    method OnCancel(u: MarketUpdate)
      requires Coherent() && u.kind == Cancel && Sequenced(book, u)
      modifies this`orders, this`book, lists, lists.levels, lists.orders`prev, lists.orders`next
      ensures Coherent() && book == Apply(old(book), u)
      ensures lists.orders <= old(lists.orders) && lists.levels <= old(lists.levels)
    {
      NamedShown(orders, lists.orders, book, u);
      var order := orders[u.orderId];
      RemoveOrder(order);
    }

    // ---------------------------------------------------------------- quotes

    /** Adding up the best level, order by order round its FIFO. */
    method ReadQuote(s: Side) returns (q: Quote)
      requires Coherent() || Emptied()
      ensures q == BestQuote(book.Of(s))
    {
      var l := lists.best.Of(s);
      if Coherent() {
        FrontShown(lists, book, s);
      }
      if l == null {
        return NO_QUOTE;
      }
      q := AddUp(s, l);
    }

    method AddUp(s: Side, l: Node<Level<()>>) returns (q: Quote)
      requires Coherent() && lists.best.Of(s) == l
      ensures q == BestQuote(book.Of(s))
    {
      ghost var f := book.Of(s);
      FrontShown(lists, book, s);
      var first := l.data.first;
      var qty := first.data.qty % TWO_32;
      NextInLevel(lists, book, s, first, 0);
      QtyOfNext(f, 0, f[0].price);
      var order := first.next;
      ghost var i := 1;
      FirstOfLevel(lists, l);
      assert lists.LevelOk(l) && InOrder(book, s, 0, 1);
      while order != first
        invariant 1 <= i <= |f| && order in lists.orders
        invariant qty == LevelQty(f[..i], f[0].price) % TWO_32
        invariant order != first ==> i < |f| && f[i].price == f[0].price && order.data == f[i]
        invariant order == first ==> i == |f| || f[i].price != f[0].price
        decreases |f| - i
      {
        qty := (qty + order.data.qty) % TWO_32;
        QtyOfNext(f, i, f[0].price);
        NextInLevel(lists, book, s, order, i);
        order := order.next;
        i := i + 1;
        assert InOrder(book, s, 0, i);
      }
      QtyOfFront(book, s, i);
      q := Quote(l.data.price, qty);
    }

    method UpdateBbo(updateBid: bool, updateAsk: bool)
      requires Coherent() || Emptied()
      modifies this`bbo
      ensures bbo.buy == if updateBid then BestQuote(book.buy) else old(bbo.buy)
      ensures bbo.sell == if updateAsk then BestQuote(book.sell) else old(bbo.sell)
    {
      var bid, ask := bbo.buy, bbo.sell;
      if updateBid {
        bid := ReadQuote(Buy);
      }
      if updateAsk {
        ask := ReadQuote(Sell);
      }
      bbo := PerSide(bid, ask);
    }

    /** CLEAR: the map and both lists are dropped, the price map and the quotes are not. The book is in order
        afterwards exactly when there was nothing to clear. */
    method OnClear()
      requires Valid()
      modifies this`orders, this`book, lists`best, lists`levels, lists`orders
      ensures Emptied() && lists.levels <= old(lists.levels) && lists.orders <= old(lists.orders)
      ensures lists.slots == old(lists.slots) && bbo == old(bbo)
      ensures Coherent() <==> old(book) == EmptyBook()
      ensures old(book) == EmptyBook() ==> Valid() && lists.orders == old(lists.orders) && lists.levels == old(lists.levels)
    {
      ghost var k := 0;
      FrontShown(lists, book, Buy);
      FrontShown(lists, book, Sell);
      forall l | l in lists.levels ensures book != EmptyBook() {
        assert lists.LevelOk(l) && Shown(l.data.first, book);
      }
      forall x | x in lists.orders ensures book != EmptyBook() {
        assert Shown(x, book);
      }
      if book == EmptyBook() {
        assert lists.levels == {} && lists.orders == {};
        assert orders == map[];
      } else {
        var s :| book.Of(s) != [];
        assert lists.HeadOk(s) && lists.LevelOk(lists.best.Of(s));
        k := Slot(lists.best.Of(s).data.price);
      }
      orders := map[];
      lists.best := PerSide(null, null);
      book := EmptyBook();
      lists.levels, lists.orders := {}, {};
      assert lists.SlotOk(k) || old(book) != EmptyBook();
    }

    /** The switch of OnMarketUpdate. */
    method Digest(u: MarketUpdate)
      requires Valid() && Digestible(book, u)
      modifies this`orders, this`book, lists, lists.levels, lists.orders
      ensures book == Apply(old(book), u) && (Coherent() <==> !Clears(old(book), u))
      ensures Clears(old(book), u) ==> Emptied() && lists.slots == old(lists.slots)
      ensures fresh(lists.orders - old(lists.orders)) && fresh(lists.levels - old(lists.levels))
    {
      match u.kind {
        case Add => OnAdd(u);
        case Modify => OnModify(u);
        case Cancel => OnCancel(u);
        case Clear => OnClear();
        case _ =>
      }
    }

    /** The update changes the book as the model says and refreshes the quote of the side it touches at or above
        the best price, and no other. The book stays in order, each quote unknown or exact, unless a CLEAR finds
        something to clear: that leaves the price map as it was. */
    method OnMarketUpdate(u: MarketUpdate)
      requires Valid() && Digestible(book, u)
      modifies this, lists, lists.levels, lists.orders
      ensures book == Apply(old(book), u) && (Valid() <==> !Clears(old(book), u))
      ensures Clears(old(book), u) ==> Emptied() && lists.slots == old(lists.slots)
      ensures fresh(lists.orders - old(lists.orders)) && fresh(lists.levels - old(lists.levels))
      ensures Requoted(old(book), u, book, old(bbo), bbo, Buy) && Requoted(old(book), u, book, old(bbo), bbo, Sell)
    {
      ghost var b, quotes := book, bbo;
      SharedShown(lists.orders, book);
      var bidUpdated := Touches(Buy, u);
      var askUpdated := Touches(Sell, u);
      Digest(u);
      if u.kind != Trade {
        UpdateBbo(bidUpdated, askUpdated);
      }
      if !Clears(b, u) {
        QuotesFollow(b, u, quotes, bbo, Buy);
        QuotesFollow(b, u, quotes, bbo, Sell);
      }
    }

    /** Whether the update is for side `s`, at its best price or a better one. */
    method Touches(s: Side, u: MarketUpdate) returns (updated: bool)
      requires Coherent()
      ensures updated == Refreshes(book, u, s)
    {
      FrontShown(lists, book, s);
      var best := lists.best.Of(s);
      updated := best != null && u.side == Some(s) && (if s == Buy then u.price >= best.data.price else u.price <= best.data.price);
    }

    method OnNext(us: seq<MarketUpdate>, i: nat, ghost end: Replica)
      requires Valid() && i < |us| && LeadsTo(book, us, i, end)
      modifies this, lists, lists.levels, lists.orders
      ensures Valid() && LeadsTo(book, us, i + 1, end)
      ensures fresh(lists.orders - old(lists.orders)) && fresh(lists.levels - old(lists.levels))
    {
      NextOfFeed(book, us, i, end);
      OnMarketUpdate(us[i]);
    }

    /** A run of the feed leaves the book the model's replay leaves. */
    method OnMarketUpdates(us: seq<MarketUpdate>)
      requires Valid() && AllSequenced(book, us)
      modifies this, lists, lists.levels, lists.orders
      ensures Valid() && book == Replay(old(book), us)
    {
      ghost var end := Replay(book, us);
      assert us[0..] == us;
      var i := 0;
      while i < |us|
        invariant 0 <= i <= |us| && Valid() && LeadsTo(book, us, i, end)
        invariant fresh(lists.orders - old(lists.orders)) && fresh(lists.levels - old(lists.levels))
      {
        OnNext(us, i, end);
        i := i + 1;
      }
    }
  }
}

/** The order book of the matching engine: its lists, its (client, order id) map and the messages it sends,
    changed in place by Add and Cancel (src/matching_engine/exchange_order_book.cpp). */
module ExchangeOrderBookClass {
  import opened Types
  import opened OrderLists
  import opened PriceMap
  import opened Rings
  import opened LevelLists
  import opened BookIndex
  import opened ExchangeModel
  import opened ExchangeInvariants

  type OrderNode = Node<ExchangeOrder>
  type OrderNode? = Node?<ExchangeOrder>

  lemma {:induction false} HeadCut(f: seq<ExchangeOrder>, qty: nat)
    requires f != [] && DistinctIds(f)
    ensures SetQty(f, f[0].id, qty) == [f[0].(qty := qty)] + f[1..]
    ensures Without([f[0].(qty := qty)] + f[1..], f[0].id) == f[1..]
  {
    SetQtyAt(f, 0, qty);
    DistinctTail(f);
    WithoutAbsent(f[1..], f[0].id);
    assert ([f[0].(qty := qty)] + f[1..])[1..] == f[1..];
  }

  /** The side behind its head order `f[0]` once `fill` of it has been executed. */
  function AfterFill(f: seq<ExchangeOrder>, fill: nat): seq<ExchangeOrder>
    requires f != [] && fill <= f[0].qty
  {
    if fill == f[0].qty then f[1..] else [f[0].(qty := f[0].qty - fill)] + f[1..]
  }

  /** One execution against the head of the other side, then the sweep of what is left. */
  lemma {:induction false} SweepStep(s: Side, price: int, qty: nat, f: seq<ExchangeOrder>, fill: Fill)
    requires qty != 0 && f != [] && !Worse(s, price, f[0].price)
    requires fill == Fill(f[0], Min(qty, f[0].qty), qty - Min(qty, f[0].qty))
    ensures var r := Sweep(s, price, fill.leaves, AfterFill(f, fill.qty));
            Sweep(s, price, qty, f) == Swept([fill] + r.fills, r.rest, r.leaves)
  {
  }

  lemma {:induction false} MessagesSplit(t: Taker, fills: seq<Fill>, fill: Fill)
    ensures AllResponses(t, fills + [fill]) == AllResponses(t, fills) + FillResponses(t, fill)
    ensures AllUpdates(t, fills + [fill]) == AllUpdates(t, fills) + FillUpdates(t, fill)
  {
    if fills == [] {
      assert fills + [fill] == [fill];
    } else {
      assert (fills + [fill])[1..] == fills[1..] + [fill];
      MessagesSplit(t, fills[1..], fill);
    }
  }

  /** `fills` have been made and `leaves` and `f` are left of a sweep whose result is `all`. */
  ghost predicate Underway(t: Taker, price: int, fills: seq<Fill>, leaves: nat, f: seq<ExchangeOrder>, all: Swept) {
    var r := Sweep(t.side, price, leaves, f);
    all == Swept(fills + r.fills, r.rest, r.leaves)
  }

  lemma Onward(t: Taker, price: int, fills: seq<Fill>, leaves: nat, f: seq<ExchangeOrder>,
               all: Swept, fill: Fill)
    requires Underway(t, price, fills, leaves, f, all) && leaves != 0 && f != [] && !Worse(t.side, price, f[0].price)
    requires fill == Fill(f[0], Min(leaves, f[0].qty), leaves - Min(leaves, f[0].qty))
    ensures Underway(t, price, fills + [fill], fill.leaves, AfterFill(f, fill.qty), all)
  {
    SweepStep(t.side, price, leaves, f, fill);
    var r := Sweep(t.side, price, fill.leaves, AfterFill(f, fill.qty));
    assert fills + ([fill] + r.fills) == (fills + [fill]) + r.fills;
  }

  lemma Through(t: Taker, price: int, fills: seq<Fill>, leaves: nat, f: seq<ExchangeOrder>, all: Swept)
    requires Underway(t, price, fills, leaves, f, all)
    requires leaves == 0 || f == [] || Worse(t.side, price, f[0].price)
    ensures all == Swept(fills, f, leaves)
  {
  }

  /** Reading the priority of the last order found in the slot. */
  lemma {:induction false} NextPriorityAt(f: seq<ExchangeOrder>, price: int, i: nat)
    requires i < |f| && Slot(f[i].price) == Slot(price)
    requires forall j :: i < j < |f| ==> Slot(f[j].price) != Slot(price)
    ensures NextPriority(f, price) == f[i].priority + 1
  {
    if i + 1 < |f| {
      NextPriorityAt(f[..|f| - 1], price, i);
    }
  }

  /** The price map finds a level exactly when the slot is in use by the side, and its youngest order is the last
      of that price in the list. */
  lemma {:induction false} PriorityShown(lists: PriceLevels<Owner>, book: Book<Owner>, s: Side, price: int)
    requires Held(lists, book) && SlotFits(book, s, price)
    ensures lists.slots[Slot(price)] == null ==> LevelSide(book, price) == None
    ensures lists.slots[Slot(price)] != null ==> LevelSide(book, price) == Some(s)
    ensures forall x {:trigger lists.OrderOk(x)} :: x in lists.orders && x.ring == Slot(price)
              && (forall y {:trigger y.key} :: y in lists.orders && y.ring == Slot(price) ==> y.key <= x.key)
              ==> NextPriority(book.Of(s), price) == x.data.priority + 1
  {
    SlotLookup(book, s, price);
    var f := book.Of(s);
    if lists.slots[Slot(price)] == null {
      forall o | o in f ensures o.price != price {
        assert o.price == price ==> InBook(book, o);
        if o.price == price {
          var x := NodeOf(lists, book, o);
        }
      }
    } else {
      assert lists.SlotOk(Slot(price));
      FirstOfLevel(lists, lists.slots[Slot(price)]);
      assert Shown(lists.slots[Slot(price)].data.first, book);
    }
    forall x | x in lists.orders && x.ring == Slot(price)
               && (forall y {:trigger y.key} :: y in lists.orders && y.ring == Slot(price) ==> y.key <= x.key)
      ensures NextPriority(f, price) == x.data.priority + 1
    {
      LastShown(lists, book, s, price, x);
    }
  }

  lemma {:induction false} LastShown(lists: PriceLevels<Owner>, book: Book<Owner>, s: Side, price: int,
                                     x: OrderNode)
    requires Held(lists, book) && SlotFits(book, s, price) && x in lists.orders && x.ring == Slot(price)
    requires forall y {:trigger y.key} :: y in lists.orders && y.ring == Slot(price) ==> y.key <= x.key
    ensures NextPriority(book.Of(s), price) == x.data.priority + 1
  {
    var f := book.Of(s);
    assert lists.OrderOk(x) && Shown(x, book);
    var i :| 0 <= i < |f| && f[i] == x.data;
    forall j | i < j < |f| ensures Slot(f[j].price) != Slot(price) {
      assert f[j] in f;
      var y := NodeOf(lists, book, f[j]);
      assert InOrder(book, s, i, j);
    }
    NextPriorityAt(f, price, i);
  }

  /** The (client, order id) map holds the order under its owner. */
  ghost predicate Owned(x: OrderNode, orders: map<Owner, OrderNode>)
    reads x`data
  {
    x.data.owner in orders && orders[x.data.owner] == x
  }

  /** The map holds exactly the live orders. */
  ghost predicate Mapped(orders: map<Owner, OrderNode>, live: set<OrderNode>)
    reads live`data
  {
    && (forall x {:trigger Owned(x, orders)} :: x in live ==> Owned(x, orders))
    && (forall w {:trigger orders[w]} :: w in orders ==>
          orders[w] in live && orders[w].data.owner == w && w.client < MAX_CLIENTS && w.clientOid < MAX_ORDER_IDS)
  }

  lemma MappedAdded(orders: map<Owner, OrderNode>, live: set<OrderNode>, x: OrderNode)
    requires Mapped(orders, live) && x !in live && x.data.owner !in orders
    requires x.data.owner.client < MAX_CLIENTS && x.data.owner.clientOid < MAX_ORDER_IDS
    ensures Mapped(orders[x.data.owner := x], live + {x})
  {
    forall y | y in live + {x} ensures Owned(y, orders[x.data.owner := x]) {
      assert y != x ==> Owned(y, orders);
    }
  }

  lemma MappedRemoved(orders: map<Owner, OrderNode>, live: set<OrderNode>, x: OrderNode)
    requires Mapped(orders, live) && x in live
    ensures Mapped(orders - {x.data.owner}, live - {x})
  {
    assert Owned(x, orders);
    forall y | y in live - {x} ensures Owned(y, orders - {x.data.owner}) {
      assert Owned(y, orders);
    }
  }

  twostate lemma MappedCut(orders: map<Owner, OrderNode>, new live: set<OrderNode>)
    requires old(allocated(live)) && old(Mapped(orders, live))
    requires forall x {:trigger x.data} :: x in live ==> x.data.owner == old(x.data.owner)
    ensures Mapped(orders, live)
  {
    forall x | x in live ensures Owned(x, orders) {
      assert old(Owned(x, orders));
    }
  }

  /** The slot of the order fits, it is the youngest of its price, and its ids are not in use. */
  ghost predicate Roomy(book: Book<Owner>, o: ExchangeOrder) {
    && SlotFits(book, o.side, o.price)
    && (forall y :: y in book.Of(o.side) && y.price == o.price ==> y.id < o.id && y.priority < o.priority)
    && forall y :: InBook(book, y) ==> y.id != o.id && y.owner != o.owner
  }

  lemma FreeShown(lists: PriceLevels<Owner>, orders: map<Owner, OrderNode>, book: Book<Owner>, o: ExchangeOrder)
    requires Shows(lists.orders, book) && Mapped(orders, lists.orders) && Roomy(book, o)
    ensures o.owner !in orders
    ensures forall x {:trigger x.data} :: x in lists.orders ==> x.data.id != o.id
  {
    forall x | x in lists.orders ensures x.data.id != o.id && x.data.owner != o.owner {
      assert Shown(x, book) && InBook(book, x.data);
    }
  }

  /** The ADD message for what an order has left. */
  function Announced(ticker: nat, o: ExchangeOrder): seq<MarketUpdate> {
    if o.qty == 0 then []
    else [MarketUpdate(UpdateType.Add, o.id, ticker, Some(o.side), o.price, o.qty, o.priority)]
  }

  /** A legal Add in steps: match, then rest what is left where there is room for it. */
  lemma {:induction false} AddInSteps(ex: Exchange, client: nat, clientOid: nat, ticker: nat, s: Side, price: int, qty: nat,
                                      all: Swept, mid: Book<Owner>, o: ExchangeOrder, t: Taker)
    requires t == Taker(client, ticker, clientOid, ex.nextId % TWO_32, s)
    requires WellFormed(ex) && CanRest(ex, client, clientOid, s, price, qty)
    requires all == Sweep(s, price, qty, ex.book.Of(s.Opposite())) && mid == ex.book.With(s.Opposite(), all.rest)
    requires o == NewOrder(mid, ex.nextId, Owner(client, clientOid), s, price, all.leaves)
    ensures var out := AddRequest(ex, client, clientOid, ticker, s, price, qty);
            && WellFormed(out.next) && out.next.nextId == ex.nextId + 1
            && out.responses == [ClientResponse(Accepted, client, ticker, clientOid, ex.nextId, Some(s), price, 0, qty)]
                 + AllResponses(t, all.fills)
            && out.updates == AllUpdates(t, all.fills) + Announced(ticker, o)
            && (all.leaves == 0 ==> out.next.book == mid)
            && (all.leaves != 0 ==> Roomy(mid, o) && out.next.book == mid.With(s, Insert(mid.Of(s), o)))
  {
    AddKeepsWellFormed(ex, client, clientOid, ticker, s, price, qty);
    if all.leaves != 0 {
      var from := Exchange(mid, ex.nextId);
      SweepKeepsWellFormed(ex, from, s, price, qty);
      SweepLeavesOnlyWorse(s, price, qty, ex.book.Of(s.Opposite()));
      OnePriceMapSuffices(mid, s, price);
      NewOrderIsLast(mid, o.id, o.owner, s, price, o.qty);
      forall y | y in mid.Of(s) ensures y.id < o.id {
        assert InBook(mid, y);
      }
      RestIsInsert(mid, o);
    }
  }

  /** Looking in the map is looking through the book. */
  lemma LookupShown(orders: map<Owner, OrderNode>, live: set<OrderNode>, book: Book<Owner>, owner: Owner)
    requires Mapped(orders, live) && Shows(live, book)
    ensures Lookup(book, owner) == if owner in orders then Some(orders[owner].data) else None
  {
    var found := Lookup(book, owner);
    if owner in orders {
      assert Shown(orders[owner], book) && InBook(book, orders[owner].data);
    }
    if found.Some? {
      assert Backed(found.value, live);
      var x :| x in live && x.data == found.value;
      assert Owned(x, orders);
    }
  }

  class ExchangeOrderBook {
    const lists: PriceLevels<Owner>
    var orders: map<Owner, OrderNode>
    var nextMarketOrderId: nat
    /** What has been sent to the matching engine's two outgoing queues. */
    var responses: seq<ClientResponse>
    var updates: seq<MarketUpdate>

    ghost var book: Book<Owner>

    ghost predicate Coherent()
      reads this`orders, this`book, lists, lists.levels, lists.orders
    {
      Held(lists, book) && Mapped(orders, lists.orders)
    }

    ghost function State(): Exchange
      reads this
    {
      Exchange(book, nextMarketOrderId)
    }

    ghost predicate Valid()
      reads this, lists, lists.levels, lists.orders
    {
      Coherent() && WellFormed(State())
    }

    constructor ()
      ensures Valid() && State() == NewExchange() && responses == [] && updates == []
      ensures fresh(lists) && fresh(lists.levels) && fresh(lists.orders)
    {
      lists := new PriceLevels<Owner>();
      orders, book := map[], EmptyBook();
      nextMarketOrderId := 1;
      responses, updates := [], [];
    }

    /** The order leaves the lists and the map. */
    method RemoveOrder(x: OrderNode)
      requires Coherent() && x in lists.orders
      modifies this`orders, this`book, lists, lists.levels, lists.orders`prev, lists.orders`next
      ensures Coherent() && lists.orders == old(lists.orders) - {x} && lists.levels <= old(lists.levels)
      ensures book == old(book.With(x.data.side, Without(book.Of(x.data.side), x.data.id)))
    {
      ghost var s := x.data.side;
      MappedRemoved(orders, lists.orders, x);
      RemoveNode(lists, x, book);
      label Removed:
      orders := orders - {x.data.owner};
      book := book.With(s, Without(book.Of(s), x.data.id));
      HeldKept@Removed(lists, book);
    }

    /** The order's quantity changes in place. */
    method Cut(x: OrderNode, qty: nat)
      requires Coherent() && x in lists.orders
      modifies this`book, x`data
      ensures Coherent() && x.data == old(x.data).(qty := qty)
      ensures book == old(book.With(x.data.side, SetQty(book.Of(x.data.side), x.data.id, qty)))
    {
      ghost var s := x.data.side;
      CutNode(lists, x, qty, book);
      label Changed:
      book := book.With(s, SetQty(book.Of(s), x.data.id, qty));
      HeldKept@Changed(lists, book);
      MappedCut(orders, lists.orders);
    }

    /** The messages of one execution against `order`, whose quantity has just been cut from `orderQty`. */
    method Report(t: Taker, order: OrderNode, orderQty: nat, fillQty: nat, leaves: nat, ghost fill: Fill)
      requires Coherent() && fillQty <= orderQty && order.data.qty == orderQty - fillQty
      requires fill == Fill(order.data.(qty := orderQty), fillQty, leaves)
      modifies this`responses, this`updates
      ensures Coherent()
      ensures responses == old(responses) + FillResponses(t, fill) && updates == old(updates) + FillUpdates(t, fill)
    {
      var o := order.data;
      responses := responses +
        [ ClientResponse(Filled, t.client, t.ticker, t.clientOid, t.marketOid, Some(t.side), o.price, fillQty, leaves),
          ClientResponse(Filled, o.owner.client, t.ticker, o.owner.clientOid, o.id, Some(o.side), o.price, fillQty, o.qty) ];
      updates := updates +
        [ MarketUpdate(Trade, ORDER_ID_INVALID, t.ticker, Some(t.side), o.price, fillQty, PRIORITY_INVALID),
          if o.qty == 0 then
            MarketUpdate(UpdateType.Cancel, o.id, t.ticker, Some(o.side), o.price, orderQty, PRIORITY_INVALID)
          else
            MarketUpdate(Modify, o.id, t.ticker, Some(o.side), o.price, o.qty, o.priority) ];
    }

    /** The head order of a side, executed by `fill`, stays cut down or leaves. */
    method Settle(order: OrderNode, ghost f: seq<ExchangeOrder>, ghost fill: nat)
      requires Coherent() && order in lists.orders && f != [] && DistinctIds(f)
      requires fill <= f[0].qty && order.data == f[0].(qty := f[0].qty - fill)
      requires book.Of(order.data.side) == [order.data] + f[1..]
      modifies this`orders, this`book, lists, lists.levels, lists.orders`prev, lists.orders`next
      ensures Coherent() && lists.orders <= old(lists.orders) && lists.levels <= old(lists.levels)
      ensures book == old(book).With(order.data.side, AfterFill(f, fill))
    {
      if order.data.qty == 0 {
        HeadCut(f, 0);
        RemoveOrder(order);
      }
    }

    /** The aggressor `t` takes what it can of the best order of the other side. */
    method Match(t: Taker, itr: OrderNode, leavesQty: nat) returns (leaves: nat, ghost fill: Fill)
      requires Coherent() && itr in lists.orders
      requires book.Of(itr.data.side) != [] && book.Of(itr.data.side)[0] == itr.data
      modifies this`orders, this`book, this`responses, this`updates, lists, lists.levels, lists.orders
      ensures Coherent() && lists.orders <= old(lists.orders) && lists.levels <= old(lists.levels)
      ensures leaves == leavesQty - fill.qty && fill == Fill(old(itr.data), Min(leavesQty, old(itr.data.qty)), leaves)
      ensures responses == old(responses) + FillResponses(t, fill) && updates == old(updates) + FillUpdates(t, fill)
      ensures book == old(book.With(itr.data.side, AfterFill(book.Of(itr.data.side), fill.qty)))
    {
      ghost var f := book.Of(itr.data.side);
      var order := itr;
      var orderQty := order.data.qty;
      var fillQty := Min(leavesQty, orderQty);
      DistinctShown(lists.orders, book, order.data.side);
      HeadCut(f, orderQty - fillQty);
      leaves := leavesQty - fillQty;
      fill := Fill(order.data, fillQty, leaves);
      Cut(order, orderQty - fillQty);
      ghost var side, cut := order.data.side, book;
      assert order.data == f[0].(qty := f[0].qty - fillQty) && cut.Of(side) == [order.data] + f[1..];
      Report(t, order, orderQty, fillQty, leaves, fill);
      assert responses == old(responses) + FillResponses(t, fill) && updates == old(updates) + FillUpdates(t, fill);
      assert book == cut;
      Settle(order, f, fillQty);
    }

    /** One round of CheckForMatch. */
    method MatchBest(t: Taker, price: int, leavesQty: nat, ghost fills: seq<Fill>, ghost all: Swept,
                     ghost rs: seq<ClientResponse>, ghost us: seq<MarketUpdate>)
      returns (leaves: nat, ghost fills': seq<Fill>, done: bool)
      requires Coherent() && leavesQty != 0 && lists.best.Of(t.side.Opposite()) != null
      requires Underway(t, price, fills, leavesQty, book.Of(t.side.Opposite()), all)
      requires responses == rs + AllResponses(t, fills) && updates == us + AllUpdates(t, fills)
      modifies this`orders, this`book, this`responses, this`updates, lists, lists.levels, lists.orders
      ensures Coherent() && lists.orders <= old(lists.orders) && lists.levels <= old(lists.levels)
      ensures Underway(t, price, fills', leaves, book.Of(t.side.Opposite()), all)
      ensures responses == rs + AllResponses(t, fills') && updates == us + AllUpdates(t, fills')
      ensures book == old(book).With(t.side.Opposite(), book.Of(t.side.Opposite()))
      ensures if done then
                && leaves == leavesQty && book == old(book) && book.Of(t.side.Opposite()) != []
                && Worse(t.side, price, book.Of(t.side.Opposite())[0].price)
              else |book.Of(t.side.Opposite())| + leaves < old(|book.Of(t.side.Opposite())|) + leavesQty
    {
      ghost var opp := t.side.Opposite();
      FrontShown(lists, book, opp);
      var itr := lists.best.Of(t.side.Opposite()).data.first;
      leaves, fills' := leavesQty, fills;
      done := Worse(t.side, price, itr.data.price);
      if !done {
        ghost var f := book.Of(opp);
        ghost var fill: Fill;
        leaves, fill := Match(t, itr, leavesQty);
        Onward(t, price, fills, leavesQty, f, all, fill);
        MessagesSplit(t, fills, fill);
        fills' := fills + [fill];
      }
    }

    /** The aggressor is matched until it is filled or no acceptable order is left. */
    method CheckForMatch(t: Taker, price: int, qty: nat, ghost all: Swept) returns (leaves: nat)
      requires Coherent() && all == Sweep(t.side, price, qty, book.Of(t.side.Opposite()))
      modifies this`orders, this`book, this`responses, this`updates, lists, lists.levels, lists.orders
      ensures Coherent() && lists.orders <= old(lists.orders) && lists.levels <= old(lists.levels)
      ensures leaves == all.leaves && book == old(book).With(t.side.Opposite(), all.rest)
      ensures responses == old(responses) + AllResponses(t, all.fills) && updates == old(updates) + AllUpdates(t, all.fills)
    {
      var opp, done := t.side.Opposite(), false;
      leaves := qty;
      ghost var fills: seq<Fill> := [];
      while !done && leaves != 0 && lists.best.Of(opp) != null
        invariant Coherent() && lists.orders <= old(lists.orders) && lists.levels <= old(lists.levels)
        invariant Underway(t, price, fills, leaves, book.Of(opp), all)
        invariant done ==> book.Of(opp) != [] && Worse(t.side, price, book.Of(opp)[0].price)
        invariant book == old(book).With(opp, book.Of(opp))
        invariant responses == old(responses) + AllResponses(t, fills) && updates == old(updates) + AllUpdates(t, fills)
        decreases |book.Of(opp)| + leaves, !done
      {
        leaves, fills, done := MatchBest(t, price, leaves, fills, all, old(responses), old(updates));
      }
      FrontShown(lists, book, opp);
      Through(t, price, fills, leaves, book.Of(opp), all);
    }

    /** The order joins the lists and the map. */
    method AddOrder(x: OrderNode)
      requires Coherent() && x !in lists.orders && x.ring == Slot(x.data.price) && x.key == x.data.id
      requires x.data.owner !in orders && forall y {:trigger y.data} :: y in lists.orders ==> y.data.id != x.data.id
      requires x.data.owner.client < MAX_CLIENTS && x.data.owner.clientOid < MAX_ORDER_IDS
      requires SlotFits(book, x.data.side, x.data.price)
      requires forall y :: y in book.Of(x.data.side) && y.price == x.data.price ==> y.id < x.data.id && y.priority < x.data.priority
      modifies this`orders, this`book, lists, x`prev, x`next
      modifies lists.levels`prev, lists.levels`next, lists.orders`prev, lists.orders`next
      ensures Coherent() && lists.orders == old(lists.orders) + {x} && fresh(lists.levels - old(lists.levels))
      ensures book == old(book).With(x.data.side, Insert(old(book).Of(x.data.side), x.data))
    {
      ghost var s := x.data.side;
      AddNode(lists, x, book);
      label Added:
      MappedAdded(orders, lists.orders - {x}, x);
      book := book.With(s, Insert(book.Of(s), x.data));
      orders := orders[x.data.owner := x];
      HeldKept@Added(lists, book);
    }

    /** What an Add has left is put to rest behind its price level. */
    method RestOrder(ghost o: ExchangeOrder, id: nat, owner: Owner, side: Side, price: int, leaves: nat)
      returns (priority: nat)
      requires Coherent() && o == NewOrder(book, id, owner, side, price, leaves) && Roomy(book, o)
      requires owner.client < MAX_CLIENTS && owner.clientOid < MAX_ORDER_IDS
      modifies this`orders, this`book, lists, lists.levels, lists.orders
      ensures Coherent() && fresh(lists.orders - old(lists.orders)) && fresh(lists.levels - old(lists.levels))
      ensures book == old(book).With(side, Insert(old(book).Of(side), o)) && priority == o.priority
    {
      PriorityShown(lists, book, side, price);
      ghost var last;
      priority, last := lists.GetNextPriority(price);
      assert last != null ==> lists.OrderOk(last);
      FreeShown(lists, orders, book, o);
      var order := new Node(Order(id, owner, side, price, leaves, priority), Slot(price), id);
      AddOrder(order);
    }

    twostate lemma CoherentKept()
      requires old(Coherent()) && unchanged(this`orders, this`book, lists)
      requires unchanged(lists.levels) && unchanged(lists.orders)
      ensures Coherent()
    {
      HeldKept(lists, book);
    }

    /** The body of Add, given what its sweep comes to and that what is left can rest. */
    method MatchAndRest(t: Taker, id: nat, price: int, qty: nat, ghost all: Swept, ghost o: ExchangeOrder)
      returns (leaves: nat, priority: nat)
      requires Coherent() && all == Sweep(t.side, price, qty, book.Of(t.side.Opposite()))
      requires t.client < MAX_CLIENTS && t.clientOid < MAX_ORDER_IDS
      requires var mid := book.With(t.side.Opposite(), all.rest);
               && o == NewOrder(mid, id, Owner(t.client, t.clientOid), t.side, price, all.leaves)
               && (all.leaves != 0 ==> Roomy(mid, o))
      modifies this`orders, this`book, this`responses, this`updates, lists, lists.levels, lists.orders
      ensures Coherent() && fresh(lists.orders - old(lists.orders)) && fresh(lists.levels - old(lists.levels))
      ensures leaves == all.leaves && (leaves != 0 ==> priority == o.priority)
      ensures var mid := old(book).With(t.side.Opposite(), all.rest);
              book == if leaves == 0 then mid else mid.With(t.side, Insert(mid.Of(t.side), o))
      ensures responses == old(responses) + AllResponses(t, all.fills) && updates == old(updates) + AllUpdates(t, all.fills)
    {
      leaves := CheckForMatch(t, price, qty, all);
      priority := 0;
      if leaves != 0 {
        priority := RestOrder(o, id, Owner(t.client, t.clientOid), t.side, price, leaves);
      }
    }

    /** The statements of Add, given what its sweep comes to and that what is left can rest. */
    method Admit(client: nat, clientOid: nat, ticker: nat, side: Side, price: int, qty: nat,
                 ghost all: Swept, ghost mid: Book<Owner>, ghost o: ExchangeOrder)
      requires Coherent() && client < MAX_CLIENTS && clientOid < MAX_ORDER_IDS
      requires all == Sweep(side, price, qty, book.Of(side.Opposite())) && mid == book.With(side.Opposite(), all.rest)
      requires o == NewOrder(mid, nextMarketOrderId, Owner(client, clientOid), side, price, all.leaves)
      requires all.leaves != 0 ==> Roomy(mid, o)
      modifies this, lists, lists.levels, lists.orders
      ensures Coherent() && fresh(lists.orders - old(lists.orders)) && fresh(lists.levels - old(lists.levels))
      ensures nextMarketOrderId == old(nextMarketOrderId) + 1
      ensures book == if all.leaves == 0 then mid else mid.With(side, Insert(mid.Of(side), o))
      ensures responses == old(responses) +
                ([ClientResponse(Accepted, client, ticker, clientOid, old(nextMarketOrderId), Some(side), price, 0, qty)]
                 + AllResponses(Taker(client, ticker, clientOid, old(nextMarketOrderId) % TWO_32, side), all.fills))
      ensures updates == old(updates) +
                (AllUpdates(Taker(client, ticker, clientOid, old(nextMarketOrderId) % TWO_32, side), all.fills)
                 + Announced(ticker, o))
    {
      var id := nextMarketOrderId;
      nextMarketOrderId := nextMarketOrderId + 1;
      responses := responses + [ClientResponse(Accepted, client, ticker, clientOid, id, Some(side), price, 0, qty)];
      CoherentKept();
      var taker := Taker(client, ticker, clientOid, id % TWO_32, side);
      Grouped(old(responses), responses[|old(responses)|..], AllResponses(taker, all.fills));
      Grouped(updates, AllUpdates(taker, all.fills), Announced(ticker, o));
      var leaves, priority := MatchAndRest(taker, id, price, qty, all, o);
      if leaves != 0 {
        label Resting:
        updates := updates + [MarketUpdate(UpdateType.Add, id, ticker, Some(side), price, leaves, priority)];
        CoherentKept@Resting();
      }
    }

    /** A new order is accepted, matched, and what is left of it rests: what the model's AddRequest says. */
    method Add(client: nat, clientOid: nat, ticker: nat, side: Side, price: int, qty: nat)
      requires Valid() && client < MAX_CLIENTS && clientOid < MAX_ORDER_IDS
      requires CanRest(State(), client, clientOid, side, price, qty)
      modifies this, lists, lists.levels, lists.orders
      ensures Valid() && fresh(lists.orders - old(lists.orders)) && fresh(lists.levels - old(lists.levels))
      ensures State() == AddRequest(old(State()), client, clientOid, ticker, side, price, qty).next
      ensures responses == old(responses) + AddRequest(old(State()), client, clientOid, ticker, side, price, qty).responses
      ensures updates == old(updates) + AddRequest(old(State()), client, clientOid, ticker, side, price, qty).updates
    {
      ghost var all := Sweep(side, price, qty, book.Of(side.Opposite()));
      ghost var mid := book.With(side.Opposite(), all.rest);
      ghost var o := NewOrder(mid, nextMarketOrderId, Owner(client, clientOid), side, price, all.leaves);
      AddInSteps(State(), client, clientOid, ticker, side, price, qty, all, mid, o,
                 Taker(client, ticker, clientOid, nextMarketOrderId % TWO_32, side));
      Admit(client, clientOid, ticker, side, price, qty, all, mid, o);
    }

    /** A live order of the client is taken out, any other request is rejected: what the model's CancelRequest says. */
    method Cancel(client: nat, clientOid: nat, ticker: nat)
      requires Valid() && (client < MAX_CLIENTS ==> clientOid < MAX_ORDER_IDS)
      modifies this, lists, lists.levels, lists.orders
      ensures Valid() && lists.orders <= old(lists.orders) && lists.levels <= old(lists.levels)
      ensures State() == CancelRequest(old(State()), client, clientOid, ticker).next
      ensures responses == old(responses) + CancelRequest(old(State()), client, clientOid, ticker).responses
      ensures updates == old(updates) + CancelRequest(old(State()), client, clientOid, ticker).updates
    {
      CancelKeepsWellFormed(State(), client, clientOid, ticker);
      LookupShown(orders, lists.orders, book, Owner(client, clientOid));
      TakeOut(client, clientOid, ticker);
    }

    method TakeOut(client: nat, clientOid: nat, ticker: nat)
      requires Coherent() && (client < MAX_CLIENTS ==> clientOid < MAX_ORDER_IDS)
      requires Lookup(book, Owner(client, clientOid))
               == if Owner(client, clientOid) in orders then Some(orders[Owner(client, clientOid)].data) else None
      modifies this`orders, this`book, this`responses, this`updates, lists, lists.levels, lists.orders`prev, lists.orders`next
      ensures Coherent() && lists.orders <= old(lists.orders) && lists.levels <= old(lists.levels)
      ensures State() == CancelRequest(old(State()), client, clientOid, ticker).next
      ensures responses == old(responses) + CancelRequest(old(State()), client, clientOid, ticker).responses
      ensures updates == old(updates) + CancelRequest(old(State()), client, clientOid, ticker).updates
    {
      var cancelable := client < MAX_CLIENTS;
      var order: OrderNode? := null;
      if cancelable {
        order := if Owner(client, clientOid) in orders then orders[Owner(client, clientOid)] else null;
        cancelable := order != null;
      }
      var response;
      if !cancelable {
        response := ClientResponse(CancelRejected, client, ticker, clientOid, ORDER_ID_INVALID, None, PRICE_INVALID,
                                   QTY_INVALID, QTY_INVALID);
      } else {
        var o := order.data;
        response := ClientResponse(Canceled, client, ticker, clientOid, o.id, Some(o.side), o.price, QTY_INVALID, o.qty);
        var update := MarketUpdate(UpdateType.Cancel, o.id, ticker, Some(o.side), o.price, 0, o.priority);
        RemoveOrder(order);
        label Removed:
        updates := updates + [update];
        CoherentKept@Removed();
      }
      label Reported:
      responses := responses + [response];
      CoherentKept@Reported();
    }
  }
}

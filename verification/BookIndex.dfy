/** How the order nodes of a book show the two order lists of the model. */
module BookIndex {
  import opened Types
  import opened OrderLists
  import opened PriceMap
  import opened Rings
  import opened LevelLists

  /** The node's order is in the list of its side. */
  ghost predicate Shown<T(!new)>(x: Node<Order<T>>, book: Book<T>)
    reads x`data
  {
    x.data in book.Of(x.data.side)
  }

  ghost predicate Backed<T(!new)>(o: Order<T>, orders: set<Node<Order<T>>>)
    reads orders`data
  {
    exists x {:trigger x.data} :: x in orders && x.data == o
  }

  ghost predicate SameId<T>(x: Node<Order<T>>, y: Node<Order<T>>)
    reads x`data, y`data
  {
    x.data.id == y.data.id
  }

  /** The nodes hold exactly the orders of the book, each on one node under an id of its own. */
  ghost predicate Shows<T(!new)>(orders: set<Node<Order<T>>>, book: Book<T>)
    reads orders`data
  {
    && (forall x {:trigger Shown(x, book)} :: x in orders ==> Shown(x, book))
    && (forall o {:trigger Backed(o, orders)} :: InBook(book, o) ==> Backed(o, orders))
    && (forall x, y {:trigger SameId(x, y)} :: x in orders && y in orders && SameId(x, y) ==> x == y)
  }

  lemma ShowsAdded<T(!new)>(orders: set<Node<Order<T>>>, book: Book<T>, x: Node<Order<T>>)
    requires Shows(orders, book) && x !in orders
    requires forall y {:trigger y.data} :: y in orders ==> y.data.id != x.data.id
    ensures Shows(orders + {x}, book.With(x.data.side, Insert(book.Of(x.data.side), x.data)))
  {
    var s, live := x.data.side, orders + {x};
    var book' := book.With(s, Insert(book.Of(s), x.data));
    InsertMembers(book.Of(s), x.data);
    forall y | y in live ensures Shown(y, book') {
      assert y in orders ==> Shown(y, book);
    }
    forall o | InBook(book', o) ensures Backed(o, live) {
      if o == x.data {
        assert x in live;
      } else {
        assert InBook(book, o) && Backed(o, orders);
        var y :| y in orders && y.data == o;
        assert y in live;
      }
    }
    forall y, z | y in live && z in live && SameId(y, z) ensures y == z {
      assert y in orders && z in orders ==> SameId(y, z);
    }
  }

  lemma ShowsRemoved<T(!new)>(orders: set<Node<Order<T>>>, book: Book<T>, x: Node<Order<T>>)
    requires Shows(orders, book) && x in orders && OnSide(Buy, book.buy) && OnSide(Sell, book.sell)
    ensures Shows(orders - {x}, book.With(x.data.side, Without(book.Of(x.data.side), x.data.id)))
  {
    var s, id, live := x.data.side, x.data.id, orders - {x};
    var book' := book.With(s, Without(book.Of(s), id));
    WithoutMembers(book.Of(s), id);
    forall y | y in live ensures Shown(y, book') {
      assert Shown(y, book) && !SameId(x, y);
    }
    forall o | InBook(book', o) ensures Backed(o, live) {
      assert InBook(book, o) && Backed(o, orders) && Shown(x, book);
      var y :| y in orders && y.data == o;
      assert y in live;
    }
  }

  twostate lemma ShowsCut<T(!new)>(orders: set<Node<Order<T>>>, new book: Book<T>, new x: Node<Order<T>>, new qty: nat)
    requires old(allocated(book)) && old(Shows(orders, book)) && x in orders && OnSide(Buy, book.buy) && OnSide(Sell, book.sell)
    requires x.data == old(x.data).(qty := qty)
    requires forall y {:trigger y.data} :: y in orders && y != x ==> y.data == old(y.data)
    ensures Shows(orders, book.With(x.data.side, SetQty(book.Of(x.data.side), x.data.id, qty)))
  {
    var s, id := x.data.side, x.data.id;
    var f := book.Of(s);
    var book' := book.With(s, SetQty(f, id, qty));
    SetQtyMembers(f, id, qty);
    assert old(Shown(x, book));
    forall y | y in orders ensures Shown(y, book') {
      assert old(Shown(y, book)) && (y != x ==> !old(SameId(x, y)));
    }
    forall o | InBook(book', o) ensures Backed(o, orders) {
      var was := o;
      if o.side == s {
        was :| was in f && o == if was.id == id then was.(qty := qty) else was;
      }
      assert InBook(book, was) && old(Backed(was, orders));
      var y :| y in orders && old(y.data) == was;
      assert was.id == id ==> old(SameId(x, y));
      assert y.data == o;
    }
    forall y, z | y in orders && z in orders && SameId(y, z) ensures y == z {
      assert old(SameId(y, z));
    }
  }

  // ---------------------------------------------------------------- what the lists say about the book

  ghost predicate InOrder<T>(book: Book<T>, s: Side, i: int, j: int) {
    var f := book.Of(s);
    0 <= i < |f| ==> f[i].side == s && (i < j < |f| ==> Ahead(s, f[i], f[j]))
  }

  /** `RankedBook`, one pair of positions at a time. */
  ghost predicate Arranged<T(!new)>(book: Book<T>) {
    forall s, i, j {:trigger InOrder(book, s, i, j)} :: InOrder(book, s, i, j)
  }

  lemma ArrangedIsRanked<T(!new)>(book: Book<T>)
    ensures Arranged(book) ==> RankedBook(book)
    ensures RankedBook(book) ==> Arranged(book)
  {
    if Arranged(book) {
      forall i, j | 0 <= i < j < |book.buy| ensures Ahead(Buy, book.buy[i], book.buy[j]) {
        assert InOrder(book, Buy, i, j);
      }
      forall i, j | 0 <= i < j < |book.sell| ensures Ahead(Sell, book.sell[i], book.sell[j]) {
        assert InOrder(book, Sell, i, j);
      }
      forall i | 0 <= i < |book.buy| ensures book.buy[i].side == Buy {
        assert InOrder(book, Buy, i, i);
      }
      forall i | 0 <= i < |book.sell| ensures book.sell[i].side == Sell {
        assert InOrder(book, Sell, i, i);
      }
    }
  }

  ghost predicate Held<T(!new)>(lists: PriceLevels<T>, book: Book<T>)
    reads lists, lists.levels, lists.orders
  {
    lists.Valid() && Shows(lists.orders, book) && Arranged(book)
  }

  /** The order a level starts at is of the level's side and price. */
  lemma FirstOfLevel<T(!new)>(lists: PriceLevels<T>, l: Node<Level<T>>)
    requires lists.Valid() && l in lists.levels
    ensures l.data.first in lists.orders
    ensures l.data.first.data.side == l.data.side && l.data.first.data.price == l.data.price
  {
    assert lists.LevelOk(l) && lists.OrderOk(l.data.first);
  }

  /** Any order of the book is on a node, which is on a level of the side. */
  lemma NodeOf<T(!new)>(lists: PriceLevels<T>, book: Book<T>, o: Order<T>) returns (x: Node<Order<T>>)
    requires lists.Valid() && Shows(lists.orders, book) && InBook(book, o)
    ensures x in lists.orders && x.data == o && lists.OrderOk(x)
  {
    assert Backed(o, lists.orders);
    x :| x in lists.orders && x.data == o;
  }

  /** The first order of the best level is the first of the side; no level means no order. */
  lemma FrontShown<T(!new)>(lists: PriceLevels<T>, book: Book<T>, s: Side)
    requires Held(lists, book)
    ensures lists.best.Of(s) == null <==> book.Of(s) == []
    ensures lists.best.Of(s) != null ==>
              && lists.best.Of(s) in lists.levels && lists.best.Of(s).data.first in lists.orders
              && lists.best.Of(s).data.first.data == book.Of(s)[0]
              && lists.best.Of(s).data.price == book.Of(s)[0].price && book.Of(s)[0].side == s
  {
    ArrangedIsRanked(book);
    var f := book.Of(s);
    assert lists.HeadOk(s);
    if lists.best.Of(s) != null {
      var b := lists.best.Of(s);
      assert lists.LevelOk(b);
      FirstOfLevel(lists, b);
      assert Shown(b.data.first, book);
    }
    if f != [] {
      assert f[0] in f;
      var z := NodeOf(lists, book, f[0]);
      var l := lists.slots[Slot(z.data.price)];
      assert lists.LevelOk(l);
      var b := lists.best.Of(s);
      var i :| 0 <= i < |f| && f[i] == b.data.first.data;
      assert i > 0 ==> Ahead(s, f[0], f[i]);
      assert lists.OrderOk(b.data.first);
    }
  }

  /** When the slot of its price fits and it is the youngest there, an order can go behind the level found. */
  lemma FitsShown<T(!new)>(lists: PriceLevels<T>, book: Book<T>, o: Order<T>)
    requires lists.Valid() && Shows(lists.orders, book) && SlotFits(book, o.side, o.price)
    requires forall y :: y in book.Of(o.side) && y.price == o.price ==> y.id < o.id
    ensures lists.Fits(o)
  {
    var l := lists.slots[Slot(o.price)];
    if l != null {
      assert lists.SlotOk(Slot(o.price));
      FirstOfLevel(lists, l);
      assert Shown(l.data.first, book);
    }
    forall y | y in lists.orders && y.ring == Slot(o.price) ensures y.key < o.id {
      assert lists.OrderOk(y) && Shown(y, book);
    }
  }

  /** No id stands twice in a side. */
  lemma DistinctShown<T(!new)>(orders: set<Node<Order<T>>>, book: Book<T>, s: Side)
    requires Shows(orders, book) && Arranged(book)
    ensures DistinctIds(book.Of(s))
  {
    ArrangedIsRanked(book);
    var f := book.Of(s);
    forall i, j | 0 <= i < j < |f| ensures f[i].id != f[j].id {
      assert f[i] in f && f[j] in f && InBook(book, f[i]) && InBook(book, f[j]);
      assert Backed(f[i], orders) && Backed(f[j], orders) && Ahead(s, f[i], f[j]);
      var x :| x in orders && x.data == f[i];
      var y :| y in orders && y.data == f[j];
      assert f[i].id == f[j].id ==> SameId(x, y);
    }
  }

  /** Changes elsewhere do not disturb the lists. */
  twostate lemma HeldKept<T(!new)>(lists: PriceLevels<T>, new book: Book<T>)
    requires old(allocated(book)) && old(Held(lists, book))
    requires unchanged(lists) && unchanged(lists.levels) && unchanged(lists.orders)
    ensures Held(lists, book)
  {
  }

  /** Removing a node from the lists is removing its order from the book by id. */
  method RemoveNode<T(!new)>(lists: PriceLevels<T>, x: Node<Order<T>>, ghost book: Book<T>)
    requires Held(lists, book) && x in lists.orders
    modifies lists, lists.levels, lists.orders`prev, lists.orders`next
    ensures lists.orders == old(lists.orders) - {x} && lists.levels <= old(lists.levels)
    ensures Held(lists, book.With(x.data.side, Without(book.Of(x.data.side), x.data.id)))
  {
    ghost var s, f := x.data.side, Without(book.Of(x.data.side), x.data.id);
    ArrangedIsRanked(book);
    ShowsRemoved(lists.orders, book, x);
    WithoutRanked(s, book.Of(s), x.data.id);
    WithoutMembers(book.Of(s), x.data.id);
    ArrangedIsRanked(book.With(s, f));
    lists.RemoveOrder(x);
  }

  /** Adding a node to the lists is inserting its order in price-time order. */
  method AddNode<T(!new)>(lists: PriceLevels<T>, x: Node<Order<T>>, ghost book: Book<T>)
    requires Held(lists, book) && x !in lists.orders && x.ring == Slot(x.data.price) && x.key == x.data.id
    requires forall y {:trigger y.data} :: y in lists.orders ==> y.data.id != x.data.id
    requires SlotFits(book, x.data.side, x.data.price)
    requires forall y :: y in book.Of(x.data.side) && y.price == x.data.price ==> y.id < x.data.id && y.priority < x.data.priority
    modifies lists, x`prev, x`next, lists.levels`prev, lists.levels`next, lists.orders`prev, lists.orders`next
    ensures lists.orders == old(lists.orders) + {x} && fresh(lists.levels - old(lists.levels))
    ensures Held(lists, book.With(x.data.side, Insert(book.Of(x.data.side), x.data)))
  {
    ghost var s, o := x.data.side, x.data;
    ArrangedIsRanked(book);
    FitsShown(lists, book, o);
    ShowsAdded(lists.orders, book, x);
    InsertRanked(s, book.Of(s), o);
    InsertMembers(book.Of(s), o);
    ArrangedIsRanked(book.With(s, Insert(book.Of(s), o)));
    lists.AddOrder(x);
  }

  /** Changing a quantity in place is changing it in the book by id. */
  method CutNode<T(!new)>(lists: PriceLevels<T>, x: Node<Order<T>>, qty: nat, ghost book: Book<T>)
    requires Held(lists, book) && x in lists.orders
    modifies x`data
    ensures x.data == old(x.data).(qty := qty)
    ensures Held(lists, book.With(x.data.side, SetQty(book.Of(x.data.side), x.data.id, qty)))
  {
    ghost var s, id := x.data.side, x.data.id;
    ArrangedIsRanked(book);
    SetQtyRanked(s, book.Of(s), id, qty);
    ArrangedIsRanked(book.With(s, SetQty(book.Of(s), id, qty)));
    lists.SetQuantity(x, qty);
    ShowsCut(lists.orders, book, x, qty);
  }

  // ---------------------------------------------------------------- walking the lists

  /** From an order, `next` leads to the one behind it at its price; from the last, back to the level's first. */
  lemma NextInLevel<T(!new)>(lists: PriceLevels<T>, book: Book<T>, s: Side, x: Node<Order<T>>, i: nat)
    requires Held(lists, book) && x in lists.orders && i < |book.Of(s)| && x.data == book.Of(s)[i]
    ensures x.next in lists.orders && lists.slots[Slot(x.data.price)] in lists.levels
    ensures var f := book.Of(s);
            if i + 1 < |f| && f[i + 1].price == f[i].price then x.next.data == f[i + 1]
            else x.next == lists.slots[Slot(x.data.price)].data.first
  {
    var f := book.Of(s);
    var y := x.next;
    ArrangedIsRanked(book);
    assert lists.OrderOk(x) && lists.OrderOk(y) && Shown(y, book) && InOrder(book, s, i, i);
    var first := lists.slots[Slot(x.data.price)].data.first;
    assert lists.LevelOk(lists.slots[Slot(x.data.price)]) && lists.OrderOk(first) && !Skips(x, first);
    var j :| 0 <= j < |f| && f[j] == y.data;
    assert InOrder(book, s, i, j) && InOrder(book, s, j, i);
    if i + 1 < |f| && f[i + 1].price == f[i].price {
      assert f[i + 1] in f;
      var z := NodeOf(lists, book, f[i + 1]);
      assert !Skips(x, z) && InOrder(book, s, i, i + 1) && InOrder(book, s, i + 1, j);
    } else {
      assert InOrder(book, s, i, i + 1) && InOrder(book, s, i + 1, j);
    }
  }

  /** From a level, `next` leads to the level of the next worse price; from the worst, back to the best. */
  lemma NextInSide<T(!new)>(lists: PriceLevels<T>, book: Book<T>, s: Side, l: Node<Level<T>>, i: nat)
    requires Held(lists, book) && l in lists.levels && l.data.side == s && i < |book.Of(s)| && l.data.price == book.Of(s)[i].price
    requires i + 1 < |book.Of(s)| ==> book.Of(s)[i + 1].price != book.Of(s)[i].price
    ensures l.next in lists.levels
    ensures var f := book.Of(s);
            if i + 1 < |f| then l.next.data.side == s && l.next.data.price == f[i + 1].price else l.next == lists.best.Of(s)
  {
    var f := book.Of(s);
    var m, head := l.next, lists.best.Of(s);
    ArrangedIsRanked(book);
    assert lists.LevelOk(l) && lists.LevelOk(m) && lists.HeadOk(s) && !Skips(l, head);
    FirstOfLevel(lists, m);
    assert Shown(m.data.first, book);
    var j :| 0 <= j < |f| && f[j] == m.data.first.data;
    assert InOrder(book, s, i, j) && InOrder(book, s, j, i);
    assert InOrder(book, s, i, i + 1) && InOrder(book, s, i + 1, j);
    if i + 1 < |f| {
      assert f[i + 1] in f;
      var z := NodeOf(lists, book, f[i + 1]);
      var n := lists.slots[Slot(z.data.price)];
      assert lists.LevelOk(n) && !Skips(l, n);
    }
  }
}

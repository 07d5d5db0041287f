/** The lists of both order books: a circular list of price levels per side from the best price on, a circular
    FIFO of orders inside each level, and the price map (src/include/matching_engine/exchange_order_book.hpp,
    repeated word for word in src/include/trading_engine/trading_order_book.hpp). */
module LevelLists {
  import opened Types
  import opened OrderLists
  import opened Rings

  datatype Level<T> = Level(side: Side, price: int, first: Node<Order<T>>)

  /** Levels of a side are in increasing order of `Rank`: highest bid first, lowest ask first. */
  ghost function Rank(s: Side, price: int): int {
    if s.Buy? then -price else price
  }

  ghost function SideRing(s: Side): int {
    if s.Buy? then 0 else 1
  }

  class PriceLevels<T(!new)> {
    var best: PerSide<Node?<Level<T>>>
    /** The level of each slot; null where there is none. */
    var slots: seq<Node?<Level<T>>>

    ghost var levels: set<Node<Level<T>>>
    ghost var orders: set<Node<Order<T>>>

    /** What the price map holds at `k` is a live level of that slot. */
    ghost predicate SlotOk(k: int)
      reads this, levels
    {
      0 <= k < |slots| && (slots[k] == null || (slots[k] in levels && Slot(slots[k].data.price) == k))
    }

    /** The head of a side is one of its levels. */
    ghost predicate HeadOk(s: Side)
      reads this, levels
    {
      best.Of(s) == null || (best.Of(s) in levels && best.Of(s).ring == SideRing(s))
    }

    /** A live level is in the price map, in the list of its side behind the head, and starts at one of its orders. */
    ghost predicate LevelOk(l: Node<Level<T>>)
      reads this, l, levels, orders
    {
      var v := l.data;
      && |slots| == MAX_PRICE_LEVELS && slots[Slot(v.price)] == l
      && l.ring == SideRing(v.side) && l.key == Rank(v.side, v.price)
      && best.Of(v.side) != null && best.Of(v.side).key <= l.key
      && v.first in orders && v.first.ring == Slot(v.price)
    }

    /** A live order is in the FIFO of the level of its side and price, not in front of the level's first. */
    ghost predicate OrderOk(x: Node<Order<T>>)
      reads this, x, levels, orders
    {
      var o := x.data;
      && x.ring == Slot(o.price) && x.key == o.id
      && |slots| == MAX_PRICE_LEVELS && slots[Slot(o.price)] in levels
      && var v := slots[Slot(o.price)].data;
         v.side == o.side && v.price == o.price && v.first in orders && v.first.key <= x.key
    }

    ghost predicate Valid()
      reads this, levels, orders
    {
      && |slots| == MAX_PRICE_LEVELS
      && (forall k {:trigger SlotOk(k)} :: 0 <= k < MAX_PRICE_LEVELS ==> SlotOk(k))
      && HeadOk(Buy) && HeadOk(Sell)
      && (forall l {:trigger LevelOk(l)} :: l in levels ==> LevelOk(l))
      && (forall x {:trigger OrderOk(x)} :: x in orders ==> OrderOk(x))
      && Linked(levels) && Linked(orders)
    }

    constructor ()
      ensures Valid() && orders == {} && levels == {}
    {
      best := PerSide(null, null);
      slots := seq(MAX_PRICE_LEVELS, _ => null);
      levels, orders := {}, {};
    }

    function GetOrdersAtPrice(price: int): Node?<Level<T>>
      reads this
      requires |slots| == MAX_PRICE_LEVELS
    {
      slots[Slot(price)]
    }

    // ---------------------------------------------------------------- the list of levels

    /** The levels of side `s` come in order of price behind `head`, and `price` is none of theirs. */
    static ghost predicate Apart(ls: set<Node<Level<T>>>, s: Side, head: Node?<Level<T>>, price: int)
      reads ls
    {
      forall m {:trigger m.key} :: m in ls && m.ring == SideRing(s) ==>
        m.key == Rank(s, m.data.price) && m.data.price != price && head != null && head.key <= m.key
    }

    /** The search of AddOrdersAtPrice: the level in front of which a new price belongs,
        or the head with `after` set when every level is better. */
    method FindPlace(ghost ls: set<Node<Level<T>>>, s: Side, price: int, head: Node<Level<T>>)
      returns (target: Node<Level<T>>, after: bool)
      requires Linked(ls) && head in ls && head.ring == SideRing(s) && Apart(ls, s, head, price)
      ensures target in ls && target.ring == head.ring
      ensures if after then target == head && target.prev.key < Rank(s, price)
              else Rank(s, price) < target.key && (target == head || target.prev.key < Rank(s, price))
    {
      target := head;
      after := Worse(s, price, target.data.price);
      ghost var ahead := ls;
      assert !Skips(head.prev, head);
      if after {
        ahead := ahead - {target};
        target := target.next;
        after := Worse(s, price, target.data.price);
      }
      while after && target != head
        invariant target in ls && target.ring == head.ring
        invariant target != head ==> target in ahead && target.prev.key < Rank(s, price)
        invariant forall l {:trigger l in ahead} ::
          l in ls && l.ring == head.ring && l.key >= target.key && target != head ==> l in ahead
        invariant after && target == head ==> target.prev.key < Rank(s, price)
        invariant !after ==> Rank(s, price) < target.key
        decreases ahead, after
      {
        after := Worse(s, price, target.data.price);
        if after {
          assert !Skips(target, head);
          ahead := ahead - {target};
          target := target.next;
        }
      }
    }

    /** The new level goes to its place in the list of its side, and becomes the head
        exactly when its price is better than all. */
    method LinkLevel(l: Node<Level<T>>, ghost ls: set<Node<Level<T>>>)
      requires Linked(ls) && l !in ls && l.ring == SideRing(l.data.side) && l.key == Rank(l.data.side, l.data.price)
      requires best.Of(l.data.side) == null ==> forall m {:trigger m.ring} :: m in ls ==> m.ring != l.ring
      requires best.Of(l.data.side) != null ==> best.Of(l.data.side) in ls && best.Of(l.data.side).ring == l.ring
      requires Apart(ls, l.data.side, best.Of(l.data.side), l.data.price)
      modifies this`best, l`prev, l`next, ls`prev, ls`next
      ensures Linked(ls + {l})
      ensures best == old(best).With(l.data.side,
                if old(best).Of(l.data.side) == null || l.key < old(best).Of(l.data.side).key then l
                else old(best).Of(l.data.side))
    {
      var s, price := l.data.side, l.data.price;
      var head := best.Of(s);
      if head == null {
        best := best.With(s, l);
        LinkAlone(l, ls);
      } else {
        var target, after := FindPlace(ls, s, price, head);
        if after {
          if target == head {
            target := head.prev;
          }
          LinkAfter(l, target, ls);
        } else {
          LinkBefore(l, target, ls);
          if Worse(s, head.data.price, price) {
            target.next := if target.next == head then l else target.next;
            best := best.With(s, l);
          }
        }
      }
    }

    lemma NoLevelOn(s: Side)
      requires Valid() && best.Of(s) == null
      ensures forall m {:trigger m.ring} :: m in levels ==> m.ring != SideRing(s)
    {
      forall m | m in levels ensures m.ring != SideRing(s) {
        assert LevelOk(m);
      }
    }

    lemma NoOrderIn(slot: int)
      requires Valid() && 0 <= slot < MAX_PRICE_LEVELS && slots[slot] == null
      ensures forall y {:trigger y.ring} :: y in orders ==> y.ring != slot
    {
      forall y | y in orders ensures y.ring != slot {
        assert OrderOk(y);
      }
    }

    lemma RestOfSide(s: Side, price: int)
      requires Valid() && slots[Slot(price)] == null
      ensures Apart(levels, s, best.Of(s), price)
    {
      forall m | m in levels && m.ring == SideRing(s)
        ensures m.key == Rank(s, m.data.price) && m.data.price != price && best.Of(s) != null && best.Of(s).key <= m.key
      {
        assert LevelOk(m);
      }
    }

    /** Everything but the links holds again once a level and its first order are entered. */
    twostate lemma LevelJoined(new l: Node<Level<T>>, new x: Node<Order<T>>)
      requires old(Valid()) && l !in old(levels) && levels == old(levels) + {l} && orders == old(orders) + {x}
      requires l.ring == SideRing(l.data.side) && l.key == Rank(l.data.side, l.data.price)
      requires x.ring == Slot(x.data.price) && x.key == x.data.id
      requires l.data == Level(x.data.side, x.data.price, x) && old(slots)[Slot(l.data.price)] == null
      requires slots == old(slots)[Slot(l.data.price) := l]
      requires best == old(best).With(l.data.side,
                 if old(best).Of(l.data.side) == null || l.key < old(best).Of(l.data.side).key then l
                 else old(best).Of(l.data.side))
      requires forall m {:trigger m.data} :: m in old(levels) ==> m.data == old(m.data)
      requires forall y {:trigger y.data} :: y in old(orders) ==> y.data == old(y.data)
      ensures forall k :: 0 <= k < MAX_PRICE_LEVELS ==> SlotOk(k)
      ensures forall m :: m in levels ==> LevelOk(m)
      ensures forall y :: y in orders ==> OrderOk(y)
    {
      forall k | 0 <= k < MAX_PRICE_LEVELS ensures SlotOk(k) {
        assert old(SlotOk(k));
      }
      forall m | m in levels ensures LevelOk(m) {
        assert m != l ==> old(LevelOk(m));
      }
      forall y | y in orders ensures OrderOk(y) {
        assert y != x ==> old(OrderOk(y));
      }
    }

    /** A level for a price whose slot is free joins the book together with its first order `x`. */
    method AddOrdersAtPrice(l: Node<Level<T>>, ghost x: Node<Order<T>>)
      requires Valid() && l !in levels && l.ring == SideRing(l.data.side) && l.key == Rank(l.data.side, l.data.price)
      requires l.data == Level(x.data.side, x.data.price, x) && slots[Slot(l.data.price)] == null
      requires x !in orders && x.ring == Slot(x.data.price) && x.key == x.data.id && Linked(orders + {x})
      modifies this, l`prev, l`next, levels`prev, levels`next
      ensures Valid() && orders == old(orders) + {x} && levels == old(levels) + {l}
    {
      if best.Of(l.data.side) == null {
        NoLevelOn(l.data.side);
      }
      RestOfSide(l.data.side, l.data.price);
      assert HeadOk(Buy) && HeadOk(Sell);
      ghost var ls := levels;
      levels, orders := levels + {l}, orders + {x};
      slots := slots[Slot(l.data.price) := l];
      LinkLevel(l, ls);
      StillLinked(orders);
      LevelJoined(l, x);
    }

    // ---------------------------------------------------------------- the orders

    /** An order may be added to an existing level only under that level's own side and price, and behind
        every order there. */
    ghost predicate Fits(o: Order<T>)
      reads this, levels, orders
    {
      && |slots| == MAX_PRICE_LEVELS
      && (slots[Slot(o.price)] != null ==>
            slots[Slot(o.price)] in levels
            && slots[Slot(o.price)].data.side == o.side && slots[Slot(o.price)].data.price == o.price)
      && forall y {:trigger y.key} :: y in orders && y.ring == Slot(o.price) ==> y.key < o.id
    }

    /** The order goes to the end of the FIFO of its level, which is made if there is none. */
    method AddOrder(x: Node<Order<T>>)
      requires Valid() && Fits(x.data) && x !in orders && x.ring == Slot(x.data.price) && x.key == x.data.id
      modifies this, x`prev, x`next, levels`prev, levels`next, orders`prev, orders`next
      ensures Valid() && orders == old(orders) + {x} && fresh(levels - old(levels))
    {
      var l := GetOrdersAtPrice(x.data.price);
      if l == null {
        NoOrderIn(x.ring);
        LinkAlone(x, orders);
        var level := new Node(Level(x.data.side, x.data.price, x), SideRing(x.data.side), Rank(x.data.side, x.data.price));
        AddOrdersAtPrice(level, x);
      } else {
        Enqueue(x, l);
      }
    }

    method Enqueue(x: Node<Order<T>>, l: Node<Level<T>>)
      requires Valid() && Fits(x.data) && x !in orders && x.ring == Slot(x.data.price) && x.key == x.data.id
      requires l == slots[Slot(x.data.price)]
      modifies this`orders, x`prev, x`next, orders`prev, orders`next
      ensures Valid() && orders == old(orders) + {x}
    {
      assert SlotOk(Slot(x.data.price)) && LevelOk(l);
      assert OrderOk(l.data.first.prev);
      ghost var os := orders;
      orders := orders + {x};
      LinkBefore(x, l.data.first, os);
      StillLinked(levels);
      forall k | 0 <= k < MAX_PRICE_LEVELS ensures SlotOk(k) {
        assert old(SlotOk(k));
      }
      forall m | m in levels ensures LevelOk(m) {
        assert old(LevelOk(m));
      }
      forall y | y in orders ensures OrderOk(y) {
        assert y != x ==> old(OrderOk(y));
      }
    }

    /** Everything but the links holds again once a level and its only order are struck out. */
    twostate lemma LevelLeft(new l: Node<Level<T>>, x: Node<Order<T>>)
      requires old(Valid()) && l in old(levels) && levels == old(levels) - {l} && x in old(orders) && orders == old(orders) - {x}
      requires old(slots)[Slot(old(x.data).price)] == l && old(x.next) == x
      requires slots == old(slots)[Slot(old(x.data).price) := null]
      requires best == if old(best).Of(old(x.data).side) == l
                       then old(best).With(old(x.data).side, if old(l.next) == l then null else old(l.next)) else old(best)
      requires forall m {:trigger m.data} :: m in levels ==> m.data == old(m.data)
      requires forall y {:trigger y.data} :: y in orders ==> y.data == old(y.data)
      ensures forall k :: 0 <= k < MAX_PRICE_LEVELS ==> SlotOk(k)
      ensures forall m :: m in levels ==> LevelOk(m)
      ensures forall y :: y in orders ==> OrderOk(y)
    {
      assert old(OrderOk(x)) && old(LevelOk(l));
      forall k | 0 <= k < MAX_PRICE_LEVELS ensures SlotOk(k) {
        assert old(SlotOk(k));
      }
      forall m | m in levels ensures LevelOk(m) {
        assert old(LevelOk(m));
        if old(best).Of(old(x.data).side) == l && m.ring == l.ring {
          assert old(LevelOk(l.next)) && !old(Skips(l, m));
        }
      }
      forall y | y in orders ensures OrderOk(y) {
        assert old(OrderOk(y));
        assert y.ring == x.ring ==> !old(Skips(x, y));
      }
    }

    /** The level leaves the list of its side, which is then empty or, if the level was its head, starts at the next. */
    method UnlinkLevel(l: Node<Level<T>>, side: Side, ghost ls: set<Node<Level<T>>>)
      requires Linked(ls) && l in ls && (l.next == l ==> best.Of(side) == l)
      modifies this`best, ls`prev, ls`next
      ensures Linked(ls - {l})
      ensures best == if old(best).Of(side) == l then old(best).With(side, if old(l.next) == l then null else old(l.next))
                      else old(best)
    {
      if l.next == l {
        AloneLeaves(l, ls);
        best := best.With(side, null);
      } else {
        var after := l.next;
        Unlink(l, ls);
        if l == best.Of(side) {
          best := best.With(side, after);
        }
      }
    }

    /** The level of `price` leaves the book together with its only order `x`. */
    method RemoveOrdersAtPrice(side: Side, price: int, ghost x: Node<Order<T>>)
      requires Valid() && x in orders && x.next == x && x.data.side == side && x.data.price == price
      modifies this, levels`prev, levels`next
      ensures Valid() && orders == old(orders) - {x} && levels <= old(levels)
    {
      var l := GetOrdersAtPrice(price);
      assert OrderOk(x) && SlotOk(Slot(price)) && LevelOk(l) && HeadOk(side);
      assert l.next == l ==> !Skips(l, best.Of(side));
      AloneLeaves(x, orders);
      ghost var ls := levels;
      levels, orders := levels - {l}, orders - {x};
      slots := slots[Slot(price) := null];
      UnlinkLevel(l, side, ls);
      StillLinked(orders);
      LevelLeft(l, x);
      assert HeadOk(side) && HeadOk(side.Opposite());
    }

    /** The order leaves the FIFO of its level; a level left empty leaves the book. */
    method RemoveOrder(x: Node<Order<T>>)
      requires Valid() && x in orders
      modifies this, levels, orders`prev, orders`next
      ensures Valid() && orders == old(orders) - {x} && levels <= old(levels)
    {
      assert OrderOk(x);
      var l := GetOrdersAtPrice(x.data.price);
      if x.prev == x {
        RemoveOrdersAtPrice(x.data.side, x.data.price, x);
      } else {
        Dequeue(x, l);
      }
    }

    method Dequeue(x: Node<Order<T>>, l: Node<Level<T>>)
      requires Valid() && x in orders && x.prev != x && l == slots[Slot(x.data.price)]
      modifies this`orders, levels`data, orders`prev, orders`next
      ensures Valid() && orders == old(orders) - {x}
    {
      var after := x.next;
      assert OrderOk(x) && LevelOk(l) && OrderOk(after) && OrderOk(l.data.first);
      assert x.prev.next == x;
      ghost var os := orders;
      orders := orders - {x};
      Unlink(x, os);
      if l.data.first == x {
        l.data := l.data.(first := after);
      }
      StillLinked(levels);
      forall k | 0 <= k < MAX_PRICE_LEVELS ensures SlotOk(k) {
        assert old(SlotOk(k));
      }
      forall m | m in levels ensures LevelOk(m) {
        assert old(LevelOk(m));
      }
      forall y | y in orders ensures OrderOk(y) {
        assert old(OrderOk(y));
        assert y.ring == x.ring ==> !old(Skips(x, y));
      }
    }

    method SetQuantity(x: Node<Order<T>>, qty: nat)
      requires Valid() && x in orders
      modifies x`data
      ensures Valid() && x.data == old(x.data).(qty := qty)
    {
      x.data := x.data.(qty := qty);
      StillLinked(levels);
      StillLinked(orders);
      forall k | 0 <= k < MAX_PRICE_LEVELS ensures SlotOk(k) {
        assert old(SlotOk(k));
      }
      forall m | m in levels ensures LevelOk(m) {
        assert old(LevelOk(m));
      }
      forall y | y in orders ensures OrderOk(y) {
        assert old(OrderOk(y));
      }
    }

    /** One more than the priority of the youngest order of the level at `price`, 1 when there is none. */
    method GetNextPriority(price: int) returns (priority: nat, ghost last: Node?<Order<T>>)
      requires Valid()
      ensures slots[Slot(price)] == null ==> last == null && priority == 1
      ensures slots[Slot(price)] != null ==>
                && last != null && last in orders && last.ring == Slot(price) && priority == last.data.priority + 1
                && forall y {:trigger y.key} :: y in orders && y.ring == Slot(price) ==> y.key <= last.key
    {
      var l := GetOrdersAtPrice(price);
      last := null;
      if l == null {
        return 1, null;
      }
      assert SlotOk(Slot(price)) && LevelOk(l);
      last := l.data.first.prev;
      forall y | y in orders && y.ring == Slot(price) ensures y.key <= last.key {
        assert OrderOk(y) && OrderOk(last) && !Skips(last, y);
      }
      priority := l.data.first.prev.data.priority + 1;
    }
  }
}

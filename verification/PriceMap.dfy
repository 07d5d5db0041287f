/** Resting an order through the price map, which both books index by `price % 256`. */
module PriceMap {
  import opened Types
  import opened OrderLists

  ghost predicate InBook<T(!new)>(b: Book<T>, x: Order<T>) {
    x in b.buy || x in b.sell
  }

  ghost predicate UniqueIds<T(!new)>(b: Book<T>) {
    forall x, y :: InBook(b, x) && InBook(b, y) && x.id == y.id ==> x == y
  }

  /** Live prices are pairwise distinct modulo the size of the price map. */
  ghost predicate UniqueSlots<T(!new)>(b: Book<T>) {
    forall x, y :: InBook(b, x) && InBook(b, y) && Slot(x.price) == Slot(y.price) ==> x.price == y.price
  }

  ghost predicate Uncrossed<T(!new)>(b: Book<T>) {
    forall x, y :: x in b.buy && y in b.sell ==> x.price < y.price
  }

  ghost predicate RankedBook<T>(b: Book<T>) {
    Ranked(Buy, b.buy) && Ranked(Sell, b.sell) && OnSide(Buy, b.buy) && OnSide(Sell, b.sell)
  }

  ghost predicate Live<T(!new)>(b: Book<T>, nextId: nat) {
    forall x :: InBook(b, x) ==> 0 < x.qty && x.id < nextId
  }

  predicate HasSlot<T>(f: seq<Order<T>>, price: int) {
    exists i :: 0 <= i < |f| && Slot(f[i].price) == Slot(price)
  }

  /** The side whose level the price map holds for `price`, if any. */
  function LevelSide<T>(b: Book<T>, price: int): Option<Side> {
    if HasSlot(b.buy, price) then Some(Buy) else if HasSlot(b.sell, price) then Some(Sell) else None
  }

  /** AddOrder on an existing level: behind the last order found through the price map. */
  function Append<T>(f: seq<Order<T>>, o: Order<T>): seq<Order<T>> {
    if f == [] then [o]
    else if Slot(f[|f| - 1].price) == Slot(o.price) then f + [o]
    else Append(f[..|f| - 1], o) + [f[|f| - 1]]
  }

  /** AddOrder as written: the level is whatever the price map holds at `price % 256`. */
  function Rest<T>(b: Book<T>, o: Order<T>): Book<T> {
    match LevelSide(b, o.price)
    case None => b.With(o.side, Insert(b.Of(o.side), o))
    case Some(t) => b.With(t, Append(b.Of(t), o))
  }

  /** The slot of `price` is empty or holds the level of that price on side `s`. */
  ghost predicate SlotFits<T(!new)>(b: Book<T>, s: Side, price: int) {
    && (forall x :: x in b.Of(s.Opposite()) ==> Slot(x.price) != Slot(price))
    && (forall x :: x in b.Of(s) && Slot(x.price) == Slot(price) ==> x.price == price)
  }

  lemma SlotLookup<T(!new)>(b: Book<T>, s: Side, price: int)
    requires SlotFits(b, s, price)
    ensures LevelSide(b, price) != Some(s.Opposite())
    ensures LevelSide(b, price) == Some(s) <==> exists x :: x in b.Of(s) && x.price == price
  {
    var own := b.Of(s);
    var other := b.Of(s.Opposite());
    assert forall i :: 0 <= i < |own| ==> own[i] in own;
    assert forall i :: 0 <= i < |other| ==> other[i] in other;
    if x :| x in own && x.price == price {
      var i :| 0 <= i < |own| && own[i] == x;
    }
  }

  lemma {:induction false} InsertBehindWorse<T>(f: seq<Order<T>>, w: Order<T>, o: Order<T>)
    requires Worse(o.side, w.price, o.price)
    ensures Insert(f + [w], o) == Insert(f, o) + [w]
  {
    if f == [] {
    } else {
      assert (f + [w])[1..] == f[1..] + [w];
      if !Worse(o.side, f[0].price, o.price) {
        InsertBehindWorse(f[1..], w, o);
      }
    }
  }

  lemma {:induction false} InsertLast<T>(f: seq<Order<T>>, o: Order<T>)
    requires forall x :: x in f ==> !Worse(o.side, x.price, o.price)
    ensures Insert(f, o) == f + [o]
  {
    if f != [] {
      assert f[0] in f;
      InsertLast(f[1..], o);
    }
  }

  /** Going through the price map is inserting in price-time order. */
  lemma {:induction false} AppendIsInsert<T(!new)>(f: seq<Order<T>>, o: Order<T>)
    requires Ranked(o.side, f) && HasSlot(f, o.price)
    requires forall x :: x in f && Slot(x.price) == Slot(o.price) ==> x.price == o.price
    ensures Append(f, o) == Insert(f, o)
  {
    var n := |f| - 1;
    var last := f[n];
    var g := f[..n];
    assert last in f && f == g + [last];
    if Slot(last.price) == Slot(o.price) {
      forall x | x in f ensures !Worse(o.side, x.price, o.price) {
        var i :| 0 <= i < |f| && f[i] == x;
        assert i < n ==> Ahead(o.side, f[i], f[n]);
      }
      InsertLast(f, o);
    } else {
      var i :| 0 <= i < |f| && Slot(f[i].price) == Slot(o.price);
      assert f[i] in f && g[i] == f[i] && Ahead(o.side, f[i], f[n]);
      AppendIsInsert(g, o);
      InsertBehindWorse(g, last, o);
    }
  }

  /** When the slot fits, an order rests where price-time order puts it, behind its own price level. */
  lemma {:induction false} RestIsInsert<T(!new)>(b: Book<T>, o: Order<T>)
    requires Ranked(o.side, b.Of(o.side)) && SlotFits(b, o.side, o.price)
    ensures Rest(b, o) == b.With(o.side, Insert(b.Of(o.side), o))
  {
    SlotLookup(b, o.side, o.price);
    if LevelSide(b, o.price).Some? {
      AppendIsInsert(b.Of(o.side), o);
    }
  }

  lemma {:induction false} AppendMembers<T>(f: seq<Order<T>>, o: Order<T>)
    ensures o in Append(f, o) && forall x :: x in f ==> x in Append(f, o)
    ensures forall x :: x in Append(f, o) ==> x == o || x in f
  {
    if f != [] && Slot(f[|f| - 1].price) != Slot(o.price) {
      AppendMembers(f[..|f| - 1], o);
      assert f == f[..|f| - 1] + [f[|f| - 1]];
    }
  }

  /** Whatever the price map says, the new order joins the book and no order leaves it. */
  lemma RestMembers<T(!new)>(b: Book<T>, o: Order<T>)
    ensures InBook(Rest(b, o), o) && forall x :: InBook(b, x) ==> InBook(Rest(b, o), x)
    ensures forall x :: InBook(Rest(b, o), x) ==> x == o || InBook(b, x)
  {
    match LevelSide(b, o.price)
    case None => InsertMembers(b.Of(o.side), o);
    case Some(t) => AppendMembers(b.Of(t), o);
  }
}

/** One side of a book as the list of its orders, best price first and oldest first within a price:
    the levels of exchange_order_book.hpp and trading_order_book.hpp laid end to end. */
module OrderLists {
  import opened Types

  /** The order fields both books share. `id` is the market order id; `owner` is what only the exchange knows. */
  datatype Order<T> = Order(id: nat, owner: T, side: Side, price: int, qty: nat, priority: nat)

  type Book<T> = PerSide<seq<Order<T>>>

  function EmptyBook<T>(): Book<T> {
    PerSide([], [])
  }

  ghost predicate OnSide<T>(s: Side, f: seq<Order<T>>) {
    forall o :: o in f ==> o.side == s
  }

  ghost predicate DistinctIds<T>(f: seq<Order<T>>) {
    forall i, j :: 0 <= i < j < |f| ==> f[i].id != f[j].id
  }

  /** Price-time order: a better price, or the same price and both an older id and an earlier priority. */
  ghost predicate Ahead<T>(s: Side, a: Order<T>, b: Order<T>) {
    Worse(s, b.price, a.price) || (a.price == b.price && a.id < b.id && a.priority < b.priority)
  }

  ghost predicate Ranked<T>(s: Side, f: seq<Order<T>>) {
    forall i, j :: 0 <= i < j < |f| ==> Ahead(s, f[i], f[j])
  }

  /** `o` goes behind every order that is at least as good as it, in front of the first worse one. */
  function Insert<T>(f: seq<Order<T>>, o: Order<T>): (r: seq<Order<T>>)
    ensures |r| == |f| + 1
  {
    if f == [] || Worse(o.side, f[0].price, o.price) then [o] + f else [f[0]] + Insert(f[1..], o)
  }

  function Without<T>(f: seq<Order<T>>, id: nat): (r: seq<Order<T>>)
    ensures |r| <= |f|
  {
    if f == [] then []
    else if f[0].id == id then Without(f[1..], id)
    else [f[0]] + Without(f[1..], id)
  }

  function SetQty<T>(f: seq<Order<T>>, id: nat, qty: nat): (r: seq<Order<T>>)
    ensures |r| == |f|
    ensures forall i :: 0 <= i < |f| ==> r[i] == if f[i].id == id then f[i].(qty := qty) else f[i]
  {
    if f == [] then []
    else [if f[0].id == id then f[0].(qty := qty) else f[0]] + SetQty(f[1..], id, qty)
  }

  /** Index at which `Insert` puts an order of price `price`. */
  function Place<T>(f: seq<Order<T>>, s: Side, price: int): (k: nat)
    ensures k <= |f|
    ensures forall i :: 0 <= i < k ==> !Worse(s, f[i].price, price)
    ensures k < |f| ==> Worse(s, f[k].price, price)
  {
    if f == [] || Worse(s, f[0].price, price) then 0 else 1 + Place(f[1..], s, price)
  }

  lemma {:induction false} InsertAtPlace<T>(f: seq<Order<T>>, o: Order<T>)
    ensures var k := Place(f, o.side, o.price);
            Insert(f, o) == f[..k] + [o] + f[k..]
  {
    if f == [] || Worse(o.side, f[0].price, o.price) {
    } else {
      InsertAtPlace(f[1..], o);
    }
  }

  lemma {:induction false} InsertMembers<T>(f: seq<Order<T>>, o: Order<T>)
    ensures forall x :: x in Insert(f, o) ==> x == o || x in f
    ensures o in Insert(f, o) && forall x :: x in f ==> x in Insert(f, o)
  {
    if f == [] || Worse(o.side, f[0].price, o.price) {
    } else {
      InsertMembers(f[1..], o);
      assert f == [f[0]] + f[1..];
    }
  }

  lemma RankedTail<T>(s: Side, f: seq<Order<T>>)
    requires f != [] && Ranked(s, f)
    ensures Ranked(s, f[1..]) && forall x :: x in f[1..] ==> Ahead(s, f[0], x)
  {
    var g := f[1..];
    forall x | x in g ensures Ahead(s, f[0], x) {
      var j :| 0 <= j < |g| && g[j] == x;
      assert f[j + 1] == x;
    }
  }

  lemma DistinctTail<T>(f: seq<Order<T>>)
    requires f != [] && DistinctIds(f)
    ensures DistinctIds(f[1..]) && forall x :: x in f[1..] ==> x.id != f[0].id
  {
    var g := f[1..];
    forall x | x in g ensures x.id != f[0].id {
      var j :| 0 <= j < |g| && g[j] == x;
      assert f[j + 1] == x;
    }
  }

  lemma RankedCons<T>(s: Side, o: Order<T>, g: seq<Order<T>>)
    requires Ranked(s, g) && forall x :: x in g ==> Ahead(s, o, x)
    ensures Ranked(s, [o] + g)
  {
  }

  /** A newcomer that is younger and of lower priority than every order of its own price
      leaves the side in price-time order. */
  lemma {:induction false} InsertRanked<T>(s: Side, f: seq<Order<T>>, o: Order<T>)
    requires Ranked(s, f) && o.side == s
    requires forall x :: x in f && x.price == o.price ==> x.id < o.id && x.priority < o.priority
    ensures Ranked(s, Insert(f, o))
  {
    if f == [] {
    } else if Worse(s, f[0].price, o.price) {
      RankedTail(s, f);
      RankedCons(s, o, f);
    } else {
      RankedTail(s, f);
      InsertRanked(s, f[1..], o);
      InsertMembers(f[1..], o);
      assert f[0] in f;
      RankedCons(s, f[0], Insert(f[1..], o));
    }
  }

  lemma {:induction false} WithoutMembers<T>(f: seq<Order<T>>, id: nat)
    ensures forall x :: x in Without(f, id) ==> x in f && x.id != id
    ensures forall x :: x in f && x.id != id ==> x in Without(f, id)
  {
    if f != [] {
      WithoutMembers(f[1..], id);
      assert f == [f[0]] + f[1..];
    }
  }

  lemma {:induction false} WithoutAbsent<T>(f: seq<Order<T>>, id: nat)
    requires forall x :: x in f ==> x.id != id
    ensures Without(f, id) == f
  {
    if f != [] {
      assert f[0] in f;
      WithoutAbsent(f[1..], id);
    }
  }

  lemma {:induction false} WithoutRanked<T>(s: Side, f: seq<Order<T>>, id: nat)
    requires Ranked(s, f)
    ensures Ranked(s, Without(f, id))
  {
    if f != [] {
      RankedTail(s, f);
      WithoutRanked(s, f[1..], id);
      WithoutMembers(f[1..], id);
      if f[0].id != id {
        RankedCons(s, f[0], Without(f[1..], id));
      }
    }
  }

  /** Removing the head by its id is dropping the head. */
  lemma {:induction false} WithoutHead<T>(f: seq<Order<T>>)
    requires f != [] && DistinctIds(f)
    ensures Without(f, f[0].id) == f[1..]
  {
    DistinctTail(f);
    WithoutAbsent(f[1..], f[0].id);
  }

  lemma {:induction false} SetQtyAbsent<T>(f: seq<Order<T>>, id: nat, qty: nat)
    requires forall x :: x in f ==> x.id != id
    ensures SetQty(f, id, qty) == f
  {
    assert forall i :: 0 <= i < |f| ==> f[i] in f;
  }

  lemma {:induction false} SetQtyAt<T>(f: seq<Order<T>>, k: nat, qty: nat)
    requires k < |f| && DistinctIds(f)
    ensures SetQty(f, f[k].id, qty) == f[k := f[k].(qty := qty)]
  {
  }

  lemma {:induction false} SetQtyMembers<T>(f: seq<Order<T>>, id: nat, qty: nat)
    ensures forall x :: x in SetQty(f, id, qty) ==>
              exists y :: y in f && x == if y.id == id then y.(qty := qty) else y
    ensures forall y :: y in f ==> (if y.id == id then y.(qty := qty) else y) in SetQty(f, id, qty)
  {
    var g := SetQty(f, id, qty);
    forall x | x in g ensures exists y :: y in f && x == if y.id == id then y.(qty := qty) else y {
      var i :| 0 <= i < |g| && g[i] == x;
      assert f[i] in f;
    }
    forall y | y in f ensures (if y.id == id then y.(qty := qty) else y) in g {
      var i :| 0 <= i < |f| && f[i] == y;
      assert g[i] in g;
    }
  }

  lemma {:induction false} SetQtyRanked<T>(s: Side, f: seq<Order<T>>, id: nat, qty: nat)
    requires Ranked(s, f) && OnSide(s, f)
    ensures Ranked(s, SetQty(f, id, qty)) && OnSide(s, SetQty(f, id, qty))
  {
    var g := SetQty(f, id, qty);
    forall i, j | 0 <= i < j < |g| ensures Ahead(s, g[i], g[j]) {
      assert Ahead(s, f[i], f[j]);
    }
    forall x | x in g ensures x.side == s {
      var i :| 0 <= i < |g| && g[i] == x;
      assert f[i] in f;
    }
  }
}

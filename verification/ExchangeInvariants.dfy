/** What every request keeps: price-time order, unique ids, owners and price slots, an uncrossed book. */
module ExchangeInvariants {
  import opened Types
  import opened OrderLists
  import opened PriceMap
  import opened ExchangeModel

  // ---------------------------------------------------------------- the sweep as a waterfall

  /** Quantity resting on the first `n` orders. */
  function Depth(f: seq<ExchangeOrder>, n: nat): nat
    requires n <= |f|
  {
    if n == 0 then 0 else Depth(f, n - 1) + f[n - 1].qty
  }

  function Executed(fills: seq<Fill>): nat {
    if fills == [] then 0 else fills[0].qty + Executed(fills[1..])
  }

  lemma {:induction false} DepthTail(f: seq<ExchangeOrder>, n: nat)
    requires n < |f|
    ensures Depth(f, n + 1) == f[0].qty + Depth(f[1..], n)
  {
    if n > 0 {
      DepthTail(f, n - 1);
      assert f[1..][n - 1] == f[n];
    }
  }

  lemma {:induction false} DepthAll(f: seq<ExchangeOrder>)
    requires f != []
    ensures Depth(f, |f|) == f[0].qty + Depth(f[1..], |f| - 1)
  {
    DepthTail(f, |f| - 1);
  }

  /** `f` is what the i-th order of `opp` is due: its quantity or what the orders ahead of it left over,
      whichever is less, at its own price, which is not beyond the limit. */
  ghost predicate DueInTurn(s: Side, price: int, qty: nat, opp: seq<ExchangeOrder>, i: nat, f: Fill)
    requires i < |opp|
  {
    && f.resting == opp[i]
    && !Worse(s, price, opp[i].price)
    && Depth(opp, i) < qty
    && f.qty == Min(opp[i].qty, qty - Depth(opp, i))
    && f.leaves == qty - Depth(opp, i) - f.qty
  }

  /** Why the sweep ends after `n` fills: filled, or no acceptable order left. */
  ghost predicate Exhausted(s: Side, price: int, qty: nat, opp: seq<ExchangeOrder>, n: nat) {
    n < |opp| ==> qty <= Depth(opp, n) || Worse(s, price, opp[n].price)
  }

  lemma {:induction false} SweepFillsInTurn(s: Side, price: int, qty: nat, opp: seq<ExchangeOrder>, i: nat)
    requires forall x :: x in opp ==> 0 < x.qty
    requires i < |Sweep(s, price, qty, opp).fills|
    ensures i < |opp| && DueInTurn(s, price, qty, opp, i, Sweep(s, price, qty, opp).fills[i])
  {
    assert opp[0] in opp;
    if i > 0 {
      var left := qty - opp[0].qty;
      SweepFillsInTurn(s, price, left, opp[1..], i - 1);
      DepthTail(opp, i - 1);
    }
  }

  lemma {:induction false} SweepStops(s: Side, price: int, qty: nat, opp: seq<ExchangeOrder>)
    ensures var n := |Sweep(s, price, qty, opp).fills|;
            n <= |opp| && Exhausted(s, price, qty, opp, n)
  {
    if qty == 0 || opp == [] || Worse(s, price, opp[0].price) {
    } else if qty < opp[0].qty {
      assert Depth(opp, 1) == Depth(opp, 0) + opp[0].qty;
    } else {
      var left := qty - opp[0].qty;
      var n := |Sweep(s, price, left, opp[1..]).fills|;
      SweepStops(s, price, left, opp[1..]);
      if n + 1 < |opp| {
        DepthTail(opp, n);
      }
    }
  }

  /** Price-time priority, order by order: the sweep gives every order it reaches what is due to it in turn,
      and stops only when the aggressor is filled or no acceptable order is left. */
  lemma {:induction false} SweepIsWaterfall(s: Side, price: int, qty: nat, opp: seq<ExchangeOrder>)
    requires forall x :: x in opp ==> 0 < x.qty
    ensures var fills := Sweep(s, price, qty, opp).fills;
            && |fills| <= |opp|
            && (forall i :: 0 <= i < |fills| ==> DueInTurn(s, price, qty, opp, i, fills[i]))
            && Exhausted(s, price, qty, opp, |fills|)
  {
    var fills := Sweep(s, price, qty, opp).fills;
    SweepStops(s, price, qty, opp);
    forall i | 0 <= i < |fills| ensures DueInTurn(s, price, qty, opp, i, fills[i]) {
      SweepFillsInTurn(s, price, qty, opp, i);
    }
  }

  /** What is sent for one execution against resting order `x`: both sides are told the resting price and the same
      quantity, the trade is published at both, and the order is withdrawn or republished with what it has left. */
  ghost predicate Reported(t: Taker, f: Fill, x: ExchangeOrder, toTaker: ClientResponse, toOwner: ClientResponse,
                           trade: MarketUpdate, change: MarketUpdate) {
    && toTaker.kind == toOwner.kind == Filled && trade.kind == Trade
    && toTaker.ticker == toOwner.ticker == trade.ticker == change.ticker == t.ticker
    && toTaker.marketOid == t.marketOid && trade.orderId == ORDER_ID_INVALID && trade.priority == PRIORITY_INVALID
    && (toTaker.client, toTaker.clientOid) == (t.client, t.clientOid)
    && Owner(toOwner.client, toOwner.clientOid) == x.owner && toOwner.marketOid == change.orderId == x.id
    && toTaker.price == toOwner.price == trade.price == change.price == x.price
    && toTaker.execQty == toOwner.execQty == trade.qty == f.qty
    && toTaker.side == trade.side == Some(t.side) && toOwner.side == change.side == Some(x.side)
    && toTaker.leavesQty == f.leaves && toOwner.leavesQty == x.qty - f.qty
    && (if f.qty == x.qty then change.kind == Cancel && change.qty == x.qty && change.priority == PRIORITY_INVALID
        else change.kind == Modify && change.qty == x.qty - f.qty && change.priority == x.priority)
  }

  lemma {:induction false} MessagesOfFills(t: Taker, fills: seq<Fill>, i: nat)
    requires i < |fills|
    ensures |AllResponses(t, fills)| == |AllUpdates(t, fills)| == 2 * |fills|
    ensures AllResponses(t, fills)[2 * i..2 * i + 2] == FillResponses(t, fills[i])
    ensures AllUpdates(t, fills)[2 * i..2 * i + 2] == FillUpdates(t, fills[i])
  {
    var rs, us := AllResponses(t, fills[1..]), AllUpdates(t, fills[1..]);
    if |fills| == 1 {
      assert rs == [] && us == [];
    } else {
      MessagesOfFills(t, fills[1..], if i == 0 then 0 else i - 1);
      if i > 0 {
        assert AllResponses(t, fills)[2 * i..2 * i + 2] == rs[2 * (i - 1)..2 * (i - 1) + 2];
        assert AllUpdates(t, fills)[2 * i..2 * i + 2] == us[2 * (i - 1)..2 * (i - 1) + 2];
      }
    }
  }

  /** Fill by fill, in order: every execution is reported once, at the price of the order it hits and never at a
      worse one than the limit. */
  lemma {:induction false} FillsReported(t: Taker, price: int, qty: nat, opp: seq<ExchangeOrder>, i: nat)
    requires forall x :: x in opp ==> 0 < x.qty
    requires i < |Sweep(t.side, price, qty, opp).fills|
    ensures var fills := Sweep(t.side, price, qty, opp).fills;
            var rs, us := AllResponses(t, fills), AllUpdates(t, fills);
            && i < |opp| && |rs| == |us| == 2 * |fills| && !Worse(t.side, price, opp[i].price)
            && Reported(t, fills[i], opp[i], rs[2 * i], rs[2 * i + 1], us[2 * i], us[2 * i + 1])
  {
    var fills := Sweep(t.side, price, qty, opp).fills;
    var rs, us := AllResponses(t, fills), AllUpdates(t, fills);
    SweepFillsInTurn(t.side, price, qty, opp, i);
    MessagesOfFills(t, fills, i);
    assert rs[2 * i..2 * i + 2][0] == rs[2 * i] && rs[2 * i..2 * i + 2][1] == rs[2 * i + 1];
    assert us[2 * i..2 * i + 2][0] == us[2 * i] && us[2 * i..2 * i + 2][1] == us[2 * i + 1];
  }

  /** What the sweep leaves of the list: whole orders gone from the front, at most one cut down. */
  ghost predicate EatenFromFront(opp: seq<ExchangeOrder>, r: Swept) {
    && |r.fills| <= |opp|
    && (r.rest == opp[|r.fills|..]
        || (r.leaves == 0 && 0 < |r.fills| &&
            var k := |r.fills| - 1;
            && 0 < r.fills[k].qty < opp[k].qty
            && r.rest == [opp[k].(qty := opp[k].qty - r.fills[k].qty)] + opp[k + 1..]))
  }

  lemma {:induction false} SweepEatsFromFront(s: Side, price: int, qty: nat, opp: seq<ExchangeOrder>)
    ensures EatenFromFront(opp, Sweep(s, price, qty, opp))
  {
    if !(qty == 0 || opp == [] || Worse(s, price, opp[0].price) || qty < opp[0].qty) {
      var left := qty - opp[0].qty;
      var t := Sweep(s, price, left, opp[1..]);
      SweepEatsFromFront(s, price, left, opp[1..]);
      if t.rest == opp[1..][|t.fills|..] {
        assert opp[1..][|t.fills|..] == opp[|t.fills| + 1..];
      } else {
        var k := |t.fills| - 1;
        assert opp[1..][k + 1..] == opp[k + 2..];
      }
    }
  }

  /** Nothing is created or lost: fills plus leaves make the order, fills plus the rest make the list. */
  lemma {:induction false} SweepConserves(s: Side, price: int, qty: nat, opp: seq<ExchangeOrder>)
    ensures var r := Sweep(s, price, qty, opp);
            && Executed(r.fills) + r.leaves == qty
            && Executed(r.fills) + Depth(r.rest, |r.rest|) == Depth(opp, |opp|)
  {
    var r := Sweep(s, price, qty, opp);
    if qty == 0 || opp == [] || Worse(s, price, opp[0].price) {
    } else if qty < opp[0].qty {
      DepthAll(opp);
      DepthAll(r.rest);
      assert r.rest[1..] == opp[1..];
    } else {
      DepthAll(opp);
      SweepConserves(s, price, qty - opp[0].qty, opp[1..]);
      assert r.fills[1..] == Sweep(s, price, qty - opp[0].qty, opp[1..]).fills;
    }
  }

  // ---------------------------------------------------------------- well-formedness is kept

  lemma MembersOfSlice<T>(f: seq<Order<T>>, k: nat)
    requires k <= |f|
    ensures forall x :: x in f[k..] ==> x in f
  {
  }

  /** `to` is `from` with side `s` replaced by `g`. */
  ghost predicate Replaces(from: Exchange, to: Exchange, s: Side, g: seq<ExchangeOrder>) {
    to.nextId == from.nextId && to.book.Of(s) == g && to.book.Of(s.Opposite()) == from.book.Of(s.Opposite())
  }

  /** Dropping orders from one side keeps a book well formed. */
  lemma DropKeepsWellFormed(from: Exchange, to: Exchange, s: Side, g: seq<ExchangeOrder>)
    requires WellFormed(from) && Replaces(from, to, s, g)
    requires Ranked(s, g) && forall x :: x in g ==> x in from.book.Of(s)
    ensures WellFormed(to)
  {
    forall x | InBook(to.book, x) ensures InBook(from.book, x) {}
  }

  /** Cutting the quantity of the best order of one side keeps a book well formed. */
  lemma CutKeepsWellFormed(from: Exchange, to: Exchange, s: Side, qty: nat)
    requires WellFormed(from) && from.book.Of(s) != [] && 0 < qty
    requires var f := from.book.Of(s); Replaces(from, to, s, [f[0].(qty := qty)] + f[1..])
    ensures WellFormed(to)
  {
    var f := from.book.Of(s);
    var h := f[0].(qty := qty);
    RankedTail(s, f);
    RankedCons(s, h, f[1..]);
    assert f[0] in f && InBook(from.book, f[0]);
    forall x | x in f[1..] ensures x in f && x != f[0] {}
    forall x | InBook(to.book, x) && x != h ensures InBook(from.book, x) && x != f[0] {
      if x in from.book.Of(s.Opposite()) { assert x.side != f[0].side; }
    }
  }

  lemma SliceKeepsWellFormed(from: Exchange, to: Exchange, s: Side, k: nat)
    requires WellFormed(from) && k <= |from.book.Of(s)| && Replaces(from, to, s, from.book.Of(s)[k..])
    ensures WellFormed(to)
  {
    MembersOfSlice(from.book.Of(s), k);
    DropKeepsWellFormed(from, to, s, from.book.Of(s)[k..]);
  }

  lemma {:induction false} SweepKeepsWellFormed(from: Exchange, to: Exchange, s: Side, price: int, qty: nat)
    requires WellFormed(from)
    requires Replaces(from, to, s.Opposite(), Sweep(s, price, qty, from.book.Of(s.Opposite())).rest)
    ensures WellFormed(to)
  {
    var o := s.Opposite();
    var opp := from.book.Of(o);
    var r := Sweep(s, price, qty, opp);
    SweepEatsFromFront(s, price, qty, opp);
    if r.rest == opp[|r.fills|..] {
      SliceKeepsWellFormed(from, to, o, |r.fills|);
    } else {
      var k := |r.fills| - 1;
      var mid := from.(book := from.book.With(o, opp[k..]));
      SliceKeepsWellFormed(from, mid, o, k);
      assert opp[k..][1..] == opp[k + 1..];
      CutKeepsWellFormed(mid, to, o, opp[k].qty - r.fills[k].qty);
    }
  }

  /** An aggressor with quantity left has taken every order its limit accepts. */
  lemma {:induction false} SweepLeavesOnlyWorse(s: Side, price: int, qty: nat, opp: seq<ExchangeOrder>)
    requires Ranked(s.Opposite(), opp)
    requires Sweep(s, price, qty, opp).leaves != 0
    ensures forall x :: x in Sweep(s, price, qty, opp).rest ==> Worse(s, price, x.price)
  {
    if opp != [] {
      RankedTail(s.Opposite(), opp);
      if Worse(s, price, opp[0].price) {
        assert opp == [opp[0]] + opp[1..];
      } else {
        SweepLeavesOnlyWorse(s, price, qty - opp[0].qty, opp[1..]);
      }
    }
  }

  // ---------------------------------------------------------------- resting an order

  /** No live order has another price in the same slot of the price map. */
  ghost predicate SlotFree(b: Book<Owner>, price: int) {
    forall x :: InBook(b, x) && Slot(x.price) == Slot(price) ==> x.price == price
  }

  ghost predicate OwnerFree(b: Book<Owner>, owner: Owner) {
    forall x :: InBook(b, x) ==> x.owner != owner
  }

  /** Every order on the other side is beyond `price`. */
  ghost predicate ClearOf(b: Book<Owner>, s: Side, price: int) {
    forall x :: x in b.Of(s.Opposite()) ==> Worse(s, price, x.price)
  }

  /** One price map suffices: once matching has left a remainder, the slot of its price holds nothing
      or a level of its own side and price. */
  lemma OnePriceMapSuffices(b: Book<Owner>, s: Side, price: int)
    requires ClearOf(b, s, price) && SlotFree(b, price)
    ensures SlotFits(b, s, price)
  {
    forall x | x in b.Of(s.Opposite()) ensures Slot(x.price) != Slot(price) { assert InBook(b, x); }
    forall x | x in b.Of(s) ensures InBook(b, x) {}
  }

  /** The next priority of a price is above every priority in use at that price. */
  lemma {:induction false} NextPriorityIsLast(s: Side, f: seq<ExchangeOrder>, price: int)
    requires Ranked(s, f)
    requires forall x :: x in f && Slot(x.price) == Slot(price) ==> x.price == price
    ensures forall x :: x in f && x.price == price ==> x.priority < NextPriority(f, price)
  {
    if f != [] {
      var n := |f| - 1;
      assert f[n] in f && f == f[..n] + [f[n]];
      if Slot(f[n].price) == Slot(price) {
        forall x | x in f && x.price == price ensures x.priority <= f[n].priority {
          var i :| 0 <= i < |f| && f[i] == x;
          assert i < n ==> Ahead(s, f[i], f[n]);
        }
      } else {
        NextPriorityIsLast(s, f[..n], price);
      }
    }
  }

  /** It is one more than the last one in use there, and 1 where none is. */
  lemma {:induction false} NextPriorityIsNext(s: Side, f: seq<ExchangeOrder>, price: int)
    requires Ranked(s, f)
    requires forall x :: x in f && Slot(x.price) == Slot(price) ==> x.price == price
    ensures (forall x :: x in f ==> x.price != price) ==> NextPriority(f, price) == 1
    ensures forall x :: x in f && LastAt(f, price, x) ==> NextPriority(f, price) == x.priority + 1
  {
    if f != [] {
      var n := |f| - 1;
      assert f[n] in f && f == f[..n] + [f[n]];
      if Slot(f[n].price) == Slot(price) {
        forall x | x in f && LastAt(f, price, x) ensures x == f[n] {
          var i :| 0 <= i < |f| && f[i] == x;
          assert i < n ==> Ahead(s, f[i], f[n]);
        }
      } else {
        NextPriorityIsNext(s, f[..n], price);
      }
    }
  }

  /** No order at `price` has a later priority than `x`, which is there. */
  ghost predicate LastAt(f: seq<ExchangeOrder>, price: int, x: ExchangeOrder) {
    x.price == price && forall y :: y in f && y.price == price ==> y.priority <= x.priority
  }

  lemma NewOrderIsLast(b: Book<Owner>, id: nat, owner: Owner, s: Side, price: int, qty: nat)
    requires Ranked(s, b.Of(s)) && SlotFits(b, s, price)
    ensures forall x :: x in b.Of(s) && x.price == price
                        ==> x.priority < NewOrder(b, id, owner, s, price, qty).priority
  {
    SlotLookup(b, s, price);
    NextPriorityIsLast(s, b.Of(s), price);
  }

  /** Resting keeps the book well formed exactly when no other live price has its slot and the owner's id is
      not live. */
  lemma RestKeepsWellFormed(from: Exchange, to: Exchange, owner: Owner, s: Side, price: int, qty: nat)
    requires WellFormed(from) && ClearOf(from.book, s, price) && 0 < qty
    requires to == Exchange(Rest(from.book, NewOrder(from.book, from.nextId, owner, s, price, qty)), from.nextId + 1)
    ensures WellFormed(to) <==> SlotFree(from.book, price) && OwnerFree(from.book, owner)
  {
    var b := from.book;
    var o := NewOrder(b, from.nextId, owner, s, price, qty);
    RestMembers(b, o);
    if WellFormed(to) {
      assert InBook(to.book, o);
      forall x | InBook(b, x) ensures InBook(to.book, x) && x != o {}
    }
    if SlotFree(b, price) && OwnerFree(b, owner) {
      OnePriceMapSuffices(b, s, price);
      RestIsInsert(b, o);
      NewOrderIsLast(b, from.nextId, owner, s, price, qty);
      RestedIsWellFormed(from, to, o);
    }
  }

  lemma JoinKeepsUnique(b: Book<Owner>, b': Book<Owner>, o: ExchangeOrder)
    requires UniqueIds(b) && UniqueOwners(b) && UniqueSlots(b) && Live(b, o.id) && 0 < o.qty
    requires SlotFree(b, o.price) && OwnerFree(b, o.owner)
    requires forall x :: InBook(b', x) ==> x == o || InBook(b, x)
    ensures UniqueIds(b') && UniqueOwners(b') && UniqueSlots(b') && Live(b', o.id + 1)
  {
  }

  lemma {:induction false} RestedIsWellFormed(from: Exchange, to: Exchange, o: ExchangeOrder)
    requires WellFormed(from) && ClearOf(from.book, o.side, o.price) && 0 < o.qty && o.id == from.nextId
    requires SlotFree(from.book, o.price) && OwnerFree(from.book, o.owner)
    requires forall x :: x in from.book.Of(o.side) && x.price == o.price ==> x.priority < o.priority
    requires to == Exchange(from.book.With(o.side, Insert(from.book.Of(o.side), o)), from.nextId + 1)
    ensures WellFormed(to)
  {
    var f := from.book.Of(o.side);
    InsertMembers(f, o);
    forall x | InBook(to.book, x) ensures x == o || InBook(from.book, x) {}
    JoinKeepsUnique(from.book, to.book, o);
    RestedIsRanked(from, to, o);
  }

  lemma {:induction false} RestedIsRanked(from: Exchange, to: Exchange, o: ExchangeOrder)
    requires RankedBook(from.book) && Uncrossed(from.book) && Live(from.book, o.id)
    requires ClearOf(from.book, o.side, o.price)
    requires forall x :: x in from.book.Of(o.side) && x.price == o.price ==> x.priority < o.priority
    requires to.book == from.book.With(o.side, Insert(from.book.Of(o.side), o))
    ensures RankedBook(to.book) && Uncrossed(to.book)
  {
    var f := from.book.Of(o.side);
    forall x | x in f ensures x.id < o.id { assert InBook(from.book, x); }
    InsertRanked(o.side, f, o);
    InsertMembers(f, o);
  }

  // ---------------------------------------------------------------- requests

  /** The book once the aggressor of an Add has matched, and what it has left. */
  function Matched(ex: Exchange, s: Side, price: int, qty: nat): (Exchange, nat) {
    var swept := Sweep(s, price, qty, ex.book.Of(s.Opposite()));
    (Exchange(ex.book.With(s.Opposite(), swept.rest), ex.nextId), swept.leaves)
  }

  /** What the engine relies on but does not check: a remainder finds its price slot and its id unused. */
  ghost predicate CanRest(ex: Exchange, client: nat, clientOid: nat, s: Side, price: int, qty: nat) {
    var (mid, leaves) := Matched(ex, s, price, qty);
    leaves != 0 ==> SlotFree(mid.book, price) && OwnerFree(mid.book, Owner(client, clientOid))
  }

  /** Add keeps the book well formed exactly when its remainder, if any, can rest. */
  lemma AddKeepsWellFormed(ex: Exchange, client: nat, clientOid: nat, ticker: nat, s: Side, price: int, qty: nat)
    requires WellFormed(ex)
    ensures WellFormed(AddRequest(ex, client, clientOid, ticker, s, price, qty).next)
            <==> CanRest(ex, client, clientOid, s, price, qty)
  {
    var (mid, leaves) := Matched(ex, s, price, qty);
    SweepKeepsWellFormed(ex, mid, s, price, qty);
    var to := AddRequest(ex, client, clientOid, ticker, s, price, qty).next;
    if leaves == 0 {
      DropKeepsWellFormed(mid, to.(nextId := mid.nextId), s, mid.book.Of(s));
    } else {
      SweepLeavesOnlyWorse(s, price, qty, ex.book.Of(s.Opposite()));
      RestKeepsWellFormed(mid, to, Owner(client, clientOid), s, price, leaves);
    }
  }

  lemma {:induction false} CancelKeepsWellFormed(ex: Exchange, client: nat, clientOid: nat, ticker: nat)
    requires WellFormed(ex)
    ensures WellFormed(CancelRequest(ex, client, clientOid, ticker).next)
  {
    var found := if client < MAX_CLIENTS then Lookup(ex.book, Owner(client, clientOid)) else None;
    if found.Some? {
      var o := found.value;
      var f := ex.book.Of(o.side);
      WithoutRanked(o.side, f, o.id);
      WithoutMembers(f, o.id);
      DropKeepsWellFormed(ex, CancelRequest(ex, client, clientOid, ticker).next, o.side, Without(f, o.id));
    }
  }

  ghost predicate Legal(ex: Exchange, r: ClientRequest) {
    r.kind == New ==> CanRest(ex, r.client, r.orderId, r.side, r.price, r.qty)
  }

  lemma {:induction false} ProcessKeepsWellFormed(ex: Exchange, r: ClientRequest)
    requires WellFormed(ex)
    ensures WellFormed(Process(ex, r).next) <==> Legal(ex, r)
  {
    match r.kind
    case New => AddKeepsWellFormed(ex, r.client, r.orderId, r.ticker, r.side, r.price, r.qty);
    case CancelOrder => CancelKeepsWellFormed(ex, r.client, r.orderId, r.ticker);
  }

  /** What an Add sends: the acceptance of the whole order at its price, then its fills under the market order id as far
      as that fits 32 bits, and last, if something is left, the ADD of exactly the order that then rests. */
  lemma {:induction false} AddReported(ex: Exchange, r: ClientRequest, swept: Swept, out: Outcome)
    requires r.kind == New && swept == Sweep(r.side, r.price, r.qty, ex.book.Of(r.side.Opposite())) && out == Process(ex, r)
    ensures var t := Taker(r.client, r.ticker, r.orderId, ex.nextId % TWO_32, r.side);
            var n := 2 * |swept.fills|;
            && |out.responses| == n + 1 && out.next.nextId == ex.nextId + 1
            && out.responses[0] == ClientResponse(Accepted, r.client, r.ticker, r.orderId, ex.nextId, Some(r.side), r.price, 0, r.qty)
            && out.responses[1..] == AllResponses(t, swept.fills) && AllUpdates(t, swept.fills) <= out.updates
            && |out.updates| == (if swept.leaves == 0 then n else n + 1)
            && (swept.leaves != 0 ==>
                  var o := Order(ex.nextId, Owner(r.client, r.orderId), r.side, r.price, swept.leaves, out.updates[n].priority);
                  InBook(out.next.book, o)
                  && out.updates[n] == MarketUpdate(Add, o.id, r.ticker, Some(o.side), o.price, o.qty, o.priority))
  {
    var t := Taker(r.client, r.ticker, r.orderId, ex.nextId % TWO_32, r.side);
    if swept.fills != [] {
      MessagesOfFills(t, swept.fills, 0);
    }
    if swept.leaves != 0 {
      var b := ex.book.With(r.side.Opposite(), swept.rest);
      RestMembers(b, NewOrder(b, ex.nextId, Owner(r.client, r.orderId), r.side, r.price, swept.leaves));
    }
  }

  /** What a cancel does and sends: the client's order of that id, if one is live, leaves the book alone, and its price,
      side, priority and all that was left of it are told; if none is, nothing changes and the cancel is rejected. */
  lemma {:induction false} CancelReported(ex: Exchange, r: ClientRequest, x: ExchangeOrder, out: Outcome)
    requires WellFormed(ex) && r.kind == CancelOrder && r.client < MAX_CLIENTS && out == Process(ex, r)
    requires InBook(ex.book, x) && x.owner == Owner(r.client, r.orderId)
    ensures out.responses == [ClientResponse(Canceled, r.client, r.ticker, r.orderId, x.id, Some(x.side), x.price, QTY_INVALID, x.qty)]
    ensures out.updates == [MarketUpdate(Cancel, x.id, r.ticker, Some(x.side), x.price, 0, x.priority)]
    ensures out.next.nextId == ex.nextId && forall y :: InBook(out.next.book, y) <==> InBook(ex.book, y) && y != x
  {
    var f := ex.book.Of(x.side);
    WithoutMembers(f, x.id);
    forall y | InBook(ex.book, y) && y.id == x.id ensures y == x {}
  }

  lemma {:induction false} LateCancelReported(ex: Exchange, r: ClientRequest, out: Outcome)
    requires r.kind == CancelOrder && out == Process(ex, r)
    requires r.client < MAX_CLIENTS ==> OwnerFree(ex.book, Owner(r.client, r.orderId))
    ensures out.next == ex && out.updates == []
    ensures out.responses == [ClientResponse(CancelRejected, r.client, r.ticker, r.orderId, ORDER_ID_INVALID, None,
                                             PRICE_INVALID, QTY_INVALID, QTY_INVALID)]
  {
  }

  /** Best bid is below best ask after every legal request. */
  lemma {:induction false} NeverCrossed(ex: Exchange, r: ClientRequest)
    requires WellFormed(ex) && Legal(ex, r)
    ensures var b := Process(ex, r).next.book;
            b.buy != [] && b.sell != [] ==> b.buy[0].price < b.sell[0].price
  {
    ProcessKeepsWellFormed(ex, r);
    var b := Process(ex, r).next.book;
    if b.buy != [] && b.sell != [] {
      assert b.buy[0] in b.buy && b.sell[0] in b.sell;
    }
  }

  lemma AliasedAppend(bid: ExchangeOrder, ask: ExchangeOrder)
    requires bid.price == 100 && ask.price == 356
    ensures LevelSide(PerSide([bid], []), 356) == Some(Buy)
    ensures NextPriority([bid], 356) == bid.priority + 1
    ensures Rest(PerSide([bid], []), ask) == PerSide([bid, ask], [])
  {
    assert [bid][0].price == 100 && HasSlot([bid], 356);
    assert Append([bid], ask) == [bid, ask];
  }

  lemma OneBidIsWellFormed(bid: ExchangeOrder)
    requires bid.side == Buy && 0 < bid.qty
    ensures WellFormed(Exchange(PerSide([bid], []), bid.id + 1))
  {
  }

  /** Two prices 256 apart share a slot: with a bid resting at 100, a sell at 356 is filed as the second
      order of bid level 100 instead of as an ask. */
  lemma AliasedPriceMisfiled(one: Exchange)
    requires one == Exchange(PerSide([Order(1, Owner(1, 1), Buy, 100, 10, 1)], []), 2)
    ensures WellFormed(one)
    ensures AddRequest(one, 2, 1, 0, Sell, 356, 5).next.book
            == PerSide([one.book.buy[0], Order(2, Owner(2, 1), Sell, 356, 5, 2)], [])
    ensures !WellFormed(AddRequest(one, 2, 1, 0, Sell, 356, 5).next)
  {
    var bid := one.book.buy[0];
    OneBidIsWellFormed(bid);
    assert Sweep(Sell, 356, 5, [bid]) == Swept([], [bid], 5);
    AliasedAppend(bid, Order(2, Owner(2, 1), Sell, 356, 5, 2));
    assert InBook(one.book, bid) && !SlotFree(one.book, 356);
    AddKeepsWellFormed(one, 2, 1, 0, Sell, 356, 5);
  }
}

/** Conservation of quantity: reading only the responses sent, one can tell what every order has resting. */
module Ledger {
  import opened Types
  import opened OrderLists
  import opened PriceMap
  import opened ExchangeModel
  import opened ExchangeInvariants

  /** What a response does to the open quantity of market order `id`. */
  function Delta(r: ClientResponse, id: nat): int {
    if r.marketOid != id then 0
    else match r.kind
      case Accepted => r.leavesQty
      case Filled => 0 - r.execQty
      case Canceled => 0 - r.leavesQty
      case CancelRejected => 0
  }

  /** Accepted quantity minus reported executions minus the remainder reported canceled. */
  function Balance(rs: seq<ClientResponse>, id: nat): int {
    if rs == [] then 0 else Delta(rs[0], id) + Balance(rs[1..], id)
  }

  lemma {:induction false} BalanceSplits(a: seq<ClientResponse>, b: seq<ClientResponse>, id: nat)
    ensures Balance(a + b, id) == Balance(a, id) + Balance(b, id)
  {
    if a == [] {
      assert a + b == b;
    } else {
      assert (a + b)[1..] == a[1..] + b;
      BalanceSplits(a[1..], b, id);
    }
  }

  /** Quantity of order `id` resting on a side. */
  function Resting(f: seq<ExchangeOrder>, id: nat): nat {
    if f == [] then 0 else (if f[0].id == id then f[0].qty else 0) + Resting(f[1..], id)
  }

  function Open(b: Book<Owner>, id: nat): nat {
    Resting(b.buy, id) + Resting(b.sell, id)
  }

  lemma {:induction false} RestingSplits(f: seq<ExchangeOrder>, g: seq<ExchangeOrder>, id: nat)
    ensures Resting(f + g, id) == Resting(f, id) + Resting(g, id)
  {
    if f == [] {
      assert f + g == g;
    } else {
      assert (f + g)[1..] == f[1..] + g;
      RestingSplits(f[1..], g, id);
    }
  }

  lemma {:induction false} RestingAbsent(f: seq<ExchangeOrder>, id: nat)
    requires forall x :: x in f ==> x.id != id
    ensures Resting(f, id) == 0
  {
    if f != [] {
      assert f[0] in f;
      RestingAbsent(f[1..], id);
    }
  }

  lemma {:induction false} RestingPresent(f: seq<ExchangeOrder>, x: ExchangeOrder)
    requires x in f && DistinctIds(f)
    ensures Resting(f, x.id) == x.qty
  {
    DistinctTail(f);
    if f[0] == x {
      RestingAbsent(f[1..], x.id);
    } else {
      assert x in f[1..];
      RestingPresent(f[1..], x);
    }
  }

  lemma {:induction false} RestingWithout(f: seq<ExchangeOrder>, gone: nat, id: nat)
    ensures Resting(Without(f, gone), id) == if id == gone then 0 else Resting(f, id)
  {
    if f != [] {
      RestingWithout(f[1..], gone, id);
      if f[0].id != gone {
        assert ([f[0]] + Without(f[1..], gone))[1..] == Without(f[1..], gone);
      }
    }
  }

  lemma {:induction false} RestingInsert(f: seq<ExchangeOrder>, o: ExchangeOrder, id: nat)
    ensures Resting(Insert(f, o), id) == Resting(f, id) + Resting([o], id)
  {
    InsertAtPlace(f, o);
    var k := Place(f, o.side, o.price);
    assert Insert(f, o) == f[..k] + ([o] + f[k..]) && f == f[..k] + f[k..];
    RestingSplits(f[..k], [o] + f[k..], id);
    RestingSplits([o], f[k..], id);
    RestingSplits(f[..k], f[k..], id);
  }

  // ---------------------------------------------------------------- what one response must say

  /** After the responses `h`, response `r` tells the truth about its order. */
  ghost predicate Reports(h: seq<ClientResponse>, r: ClientResponse) {
    match r.kind
    case Accepted => Balance(h, r.marketOid) == 0 && r.execQty == 0
    case Filled => 0 < r.execQty && r.leavesQty == Balance(h, r.marketOid) - r.execQty
    case Canceled => 0 < r.leavesQty == Balance(h, r.marketOid)
    case CancelRejected => true
  }

  /** Every response of `rs`, sent after `h`, tells the truth at its point of the stream. */
  ghost predicate Truthful(h: seq<ClientResponse>, rs: seq<ClientResponse>)
    decreases |rs|
  {
    rs != [] ==> Reports(h, rs[0]) && Truthful(h + [rs[0]], rs[1..])
  }

  lemma {:induction false} TruthfulSplits(h: seq<ClientResponse>, a: seq<ClientResponse>, b: seq<ClientResponse>)
    requires Truthful(h, a) && Truthful(h + a, b)
    ensures Truthful(h, a + b)
    decreases |a|
  {
    if a == [] {
      assert h + a == h && a + b == b;
    } else {
      assert h + [a[0]] + a[1..] == h + a;
      assert (a + b)[1..] == a[1..] + b;
      TruthfulSplits(h + [a[0]], a[1..], b);
    }
  }

  /** The history accounts for every order of the list. */
  ghost predicate Accounts(h: seq<ClientResponse>, f: seq<ExchangeOrder>) {
    forall x :: x in f ==> Balance(h, x.id) == x.qty
  }

  lemma {:induction false} FillBalance(t: Taker, f: Fill, id: nat)
    requires t.marketOid != f.resting.id
    ensures Balance(FillResponses(t, f), id) == if id == t.marketOid || id == f.resting.id then 0 - f.qty else 0
  {
    var rs := FillResponses(t, f);
    assert rs == [rs[0]] + [rs[1]];
    BalanceSplits([rs[0]], [rs[1]], id);
  }

  /** What matching reports: the aggressor's executions, and for each resting order what it lost. */
  lemma {:induction false} SweepBalance(t: Taker, price: int, qty: nat, opp: seq<ExchangeOrder>, id: nat)
    requires forall x :: x in opp ==> x.id != t.marketOid
    ensures var r := Sweep(t.side, price, qty, opp);
            Balance(AllResponses(t, r.fills), id)
            == if id == t.marketOid then 0 - Executed(r.fills) else Resting(r.rest, id) - Resting(opp, id)
  {
    var r := Sweep(t.side, price, qty, opp);
    if r.fills == [] {
    } else {
      var f := r.fills[0];
      assert opp[0] in opp;
      FillBalance(t, f, id);
      BalanceSplits(FillResponses(t, f), AllResponses(t, r.fills[1..]), id);
      if qty < opp[0].qty {
        assert r.fills[1..] == [] && r.rest[1..] == opp[1..];
      } else {
        var u := Sweep(t.side, price, qty - opp[0].qty, opp[1..]);
        assert r.fills[1..] == u.fills;
        SweepBalance(t, price, qty - opp[0].qty, opp[1..], id);
        if id == t.marketOid { RestingAbsent(opp, id); }
      }
    }
  }

  lemma {:induction false} FillIsTruthful(h: seq<ClientResponse>, t: Taker, f: Fill)
    requires t.marketOid != f.resting.id && 0 < f.qty <= f.resting.qty
    requires Balance(h, t.marketOid) == f.qty + f.leaves && Balance(h, f.resting.id) == f.resting.qty
    ensures Truthful(h, FillResponses(t, f))
  {
    var rs := FillResponses(t, f);
    BalanceSplits(h, [rs[0]], f.resting.id);
    assert rs[1..] == [rs[1]];
    assert Truthful(h + [rs[0]] + [rs[1]], []);
    assert Truthful(h + [rs[0]], rs[1..]);
  }

  /** Every fill reports truly to both sides, at its point of the stream. */
  lemma {:induction false} SweepIsTruthful(h: seq<ClientResponse>, t: Taker, price: int, qty: nat, opp: seq<ExchangeOrder>)
    requires DistinctIds(opp) && Accounts(h, opp) && Balance(h, t.marketOid) == qty
    requires forall x :: x in opp ==> 0 < x.qty && x.id != t.marketOid
    ensures Truthful(h, AllResponses(t, Sweep(t.side, price, qty, opp).fills))
    decreases |opp|
  {
    var r := Sweep(t.side, price, qty, opp);
    if r.fills != [] {
      var f := r.fills[0];
      var now := FillResponses(t, f);
      DistinctTail(opp);
      assert opp[0] in opp;
      FillIsTruthful(h, t, f);
      if qty < opp[0].qty {
        assert r.fills[1..] == [] && AllResponses(t, r.fills) == now;
      } else {
        var left := qty - opp[0].qty;
        assert r.fills[1..] == Sweep(t.side, price, left, opp[1..]).fills;
        forall x | x in opp[1..] ensures Balance(h + now, x.id) == x.qty {
          FillBalance(t, f, x.id);
          BalanceSplits(h, now, x.id);
        }
        FillBalance(t, f, t.marketOid);
        BalanceSplits(h, now, t.marketOid);
        SweepIsTruthful(h + now, t, price, left, opp[1..]);
        TruthfulSplits(h, now, AllResponses(t, r.fills[1..]));
      }
    }
  }

  // ---------------------------------------------------------------- requests

  lemma DistinctIn(b: Book<Owner>, s: Side)
    requires RankedBook(b) && UniqueIds(b)
    ensures DistinctIds(b.Of(s))
  {
    var f := b.Of(s);
    forall i, j | 0 <= i < j < |f| ensures f[i].id != f[j].id {
      assert f[i] in f && f[j] in f && InBook(b, f[i]) && InBook(b, f[j]) && Ahead(s, f[i], f[j]);
    }
  }

  /** The order `x` is the only one of its id, so `Open` is its quantity. */
  lemma OpenOf(b: Book<Owner>, x: ExchangeOrder)
    requires RankedBook(b) && UniqueIds(b) && InBook(b, x)
    ensures Open(b, x.id) == x.qty
  {
    var f := b.Of(x.side);
    var g := b.Of(x.side.Opposite());
    assert x in f;
    DistinctIn(b, x.side);
    RestingPresent(f, x);
    forall y | y in g ensures y.id != x.id { assert InBook(b, y) && y.side != x.side; }
    RestingAbsent(g, x.id);
  }

  lemma OpenFresh(b: Book<Owner>, id: nat)
    requires Live(b, id)
    ensures Open(b, id) == 0
  {
    forall x | x in b.buy ensures x.id != id { assert InBook(b, x); }
    forall x | x in b.sell ensures x.id != id { assert InBook(b, x); }
    RestingAbsent(b.buy, id);
    RestingAbsent(b.sell, id);
  }

  lemma {:induction false} RestingAppend(f: seq<ExchangeOrder>, o: ExchangeOrder, id: nat)
    ensures Resting(Append(f, o), id) == Resting(f, id) + Resting([o], id)
  {
    if f == [] {
    } else if Slot(f[|f| - 1].price) == Slot(o.price) {
      RestingSplits(f, [o], id);
    } else {
      var n := |f| - 1;
      RestingAppend(f[..n], o, id);
      RestingSplits(Append(f[..n], o), [f[n]], id);
      RestingSplits(f[..n], [f[n]], id);
      assert f == f[..n] + [f[n]];
    }
  }

  lemma OpenRest(b: Book<Owner>, o: ExchangeOrder, id: nat)
    ensures Open(Rest(b, o), id) == Open(b, id) + if id == o.id then o.qty else 0
  {
    match LevelSide(b, o.price)
    case None => RestingInsert(b.Of(o.side), o, id);
    case Some(t) => RestingAppend(b.Of(t), o, id);
  }

  lemma FreshId(ex: Exchange, s: Side, price: int, qty: nat)
    requires WellFormed(ex)
    ensures forall x :: x in ex.book.Of(s.Opposite()) ==> x.id != ex.nextId
    ensures Open(ex.book, ex.nextId) == 0
    ensures Open(Matched(ex, s, price, qty).0.book, ex.nextId) == 0
  {
    forall x | x in ex.book.Of(s.Opposite()) ensures x.id != ex.nextId { assert InBook(ex.book, x); }
    OpenFresh(ex.book, ex.nextId);
    var mid := Matched(ex, s, price, qty).0;
    SweepKeepsWellFormed(ex, mid, s, price, qty);
    OpenFresh(mid.book, ex.nextId);
  }

  /** The responses to an Add account exactly for the change of every order's open quantity. */
  lemma {:induction false} AddBalances(ex: Exchange, client: nat, clientOid: nat, ticker: nat, s: Side, price: int, qty: nat, id: nat)
    requires WellFormed(ex) && ex.nextId < TWO_32
    ensures var out := AddRequest(ex, client, clientOid, ticker, s, price, qty);
            Balance(out.responses, id) == Open(out.next.book, id) - Open(ex.book, id)
  {
    FreshId(ex, s, price, qty);
    AddBalancesFrom(ex, client, clientOid, ticker, s, price, qty, id);
  }

  lemma {:induction false} AddBalancesFrom(ex: Exchange, client: nat, clientOid: nat, ticker: nat, s: Side, price: int, qty: nat, id: nat)
    requires ex.nextId < TWO_32
    requires forall x :: x in ex.book.Of(s.Opposite()) ==> x.id != ex.nextId
    requires Open(ex.book, ex.nextId) == 0 && Open(Matched(ex, s, price, qty).0.book, ex.nextId) == 0
    ensures var out := AddRequest(ex, client, clientOid, ticker, s, price, qty);
            Balance(out.responses, id) == Open(out.next.book, id) - Open(ex.book, id)
  {
    var out := AddRequest(ex, client, clientOid, ticker, s, price, qty);
    var opp := ex.book.Of(s.Opposite());
    var t := Taker(client, ticker, clientOid, ex.nextId, s);
    var r := Sweep(s, price, qty, opp);
    BalanceSplits([out.responses[0]], AllResponses(t, r.fills), id);
    SweepBalance(t, price, qty, opp, id);
    SweepConserves(s, price, qty, opp);
    if r.leaves != 0 {
      var mid := ex.book.With(s.Opposite(), r.rest);
      OpenRest(mid, NewOrder(mid, ex.nextId, Owner(client, clientOid), s, price, r.leaves), id);
    }
  }

  lemma {:induction false} CancelBalances(ex: Exchange, client: nat, clientOid: nat, ticker: nat, id: nat)
    requires WellFormed(ex)
    ensures var out := CancelRequest(ex, client, clientOid, ticker);
            Balance(out.responses, id) == Open(out.next.book, id) - Open(ex.book, id)
  {
    var found := if client < MAX_CLIENTS then Lookup(ex.book, Owner(client, clientOid)) else None;
    if found.Some? {
      var o := found.value;
      OpenOf(ex.book, o);
      RestingWithout(ex.book.Of(o.side), o.id, id);
      if id == o.id {
        forall y | y in ex.book.Of(o.side.Opposite()) ensures y.id != id {
          assert InBook(ex.book, y) && y.side != o.side;
        }
        RestingAbsent(ex.book.Of(o.side.Opposite()), id);
      }
    }
  }

  /** The history says what every order has open. */
  ghost predicate InBalance(h: seq<ClientResponse>, ex: Exchange) {
    forall id :: Balance(h, id) == Open(ex.book, id)
  }

  /** One request keeps the ledger in balance and every response it sends is true. */
  lemma {:induction false} ProcessBalances(h: seq<ClientResponse>, ex: Exchange, r: ClientRequest)
    requires WellFormed(ex) && ex.nextId < TWO_32 && InBalance(h, ex)
    ensures InBalance(h + Process(ex, r).responses, Process(ex, r).next)
    ensures Truthful(h, Process(ex, r).responses)
  {
    var out := Process(ex, r);
    forall id ensures Balance(h + out.responses, id) == Open(out.next.book, id) {
      BalanceSplits(h, out.responses, id);
      match r.kind
      case New => AddBalances(ex, r.client, r.orderId, r.ticker, r.side, r.price, r.qty, id);
      case CancelOrder => CancelBalances(ex, r.client, r.orderId, r.ticker, id);
    }
    match r.kind
    case New => AddIsTruthful(h, ex, r.client, r.orderId, r.ticker, r.side, r.price, r.qty);
    case CancelOrder =>
      assert Truthful(h + [out.responses[0]], []);
      if out.responses[0].kind == Canceled {
        OpenOf(ex.book, Lookup(ex.book, Owner(r.client, r.orderId)).value);
      }
  }

  lemma {:induction false} AddIsTruthful(h: seq<ClientResponse>, ex: Exchange,
                                         client: nat, clientOid: nat, ticker: nat, s: Side, price: int, qty: nat)
    requires WellFormed(ex) && ex.nextId < TWO_32 && InBalance(h, ex)
    ensures Truthful(h, AddRequest(ex, client, clientOid, ticker, s, price, qty).responses)
  {
    var opp := ex.book.Of(s.Opposite());
    var accepted := AddRequest(ex, client, clientOid, ticker, s, price, qty).responses[0];
    var t := Taker(client, ticker, clientOid, ex.nextId, s);
    OpenFresh(ex.book, ex.nextId);
    DistinctIn(ex.book, s.Opposite());
    forall x | x in opp ensures 0 < x.qty && x.id != ex.nextId && Balance(h + [accepted], x.id) == x.qty {
      assert InBook(ex.book, x);
      OpenOf(ex.book, x);
      BalanceSplits(h, [accepted], x.id);
    }
    BalanceSplits(h, [accepted], ex.nextId);
    SweepIsTruthful(h + [accepted], t, price, qty, opp);
    assert Truthful(h + [accepted], []);
    assert Truthful(h, [accepted]);
    TruthfulSplits(h, [accepted], AllResponses(t, Sweep(s, price, qty, opp).fills));
  }

  // ---------------------------------------------------------------- runs

  /** A run of requests on one book: final state, all responses, all market updates. */
  function Run(rs: seq<ClientRequest>): Outcome {
    if rs == [] then Outcome(NewExchange(), [], [])
    else
      var before := Run(rs[..|rs| - 1]);
      var out := Process(before.next, rs[|rs| - 1]);
      Outcome(out.next, before.responses + out.responses, before.updates + out.updates)
  }

  ghost predicate LegalRun(rs: seq<ClientRequest>) {
    rs != [] ==> LegalRun(rs[..|rs| - 1]) && Legal(Run(rs[..|rs| - 1]).next, rs[|rs| - 1])
  }

  /** Well formed, in balance, and every response so far was true when sent. */
  ghost predicate Sound(o: Outcome) {
    WellFormed(o.next) && InBalance(o.responses, o.next) && Truthful([], o.responses)
  }

  lemma {:induction false} StepIsSound(before: Outcome, r: ClientRequest, after: Outcome)
    requires Sound(before) && Legal(before.next, r) && before.next.nextId < TWO_32
    requires after.next == Process(before.next, r).next
    requires after.responses == before.responses + Process(before.next, r).responses
    ensures Sound(after)
  {
    ProcessKeepsWellFormed(before.next, r);
    ProcessBalances(before.responses, before.next, r);
    assert [] + before.responses == before.responses;
    TruthfulSplits([], before.responses, Process(before.next, r).responses);
  }

  lemma {:induction false} NextIdSteps(ex: Exchange, r: ClientRequest)
    ensures ex.nextId <= Process(ex, r).next.nextId <= ex.nextId + 1
  {
  }

  /** Conservation over every run: an order's accepted quantity is what it has resting plus the executions
      and the canceled remainder reported for it, and every response is true when it is sent. */
  lemma {:induction false} RunConserves(rs: seq<ClientRequest>)
    requires LegalRun(rs) && |rs| < TWO_32
    ensures Sound(Run(rs)) && Run(rs).next.nextId <= |rs| + 1
  {
    if rs == [] {
      assert InBalance([], NewExchange());
    } else {
      var before := Run(rs[..|rs| - 1]);
      RunConserves(rs[..|rs| - 1]);
      NextIdSteps(before.next, rs[|rs| - 1]);
      StepIsSound(before, rs[|rs| - 1], Run(rs));
    }
  }
}

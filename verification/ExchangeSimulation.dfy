/** The trading client against the matching engine itself: every run of the client with the real books, on which
    other clients trade too, is a run of the system in which the exchange accepts, executes and withdraws at will. */
module ExchangeSimulation {
  import opened Types
  import opened OrderLists
  import opened RiskManager
  import opened PositionKeeper
  import OrderManagerClass
  import opened TradingSystem
  import opened TradingLimits
  import E = ExchangeModel
  import I = ExchangeInvariants
  import P = PriceMap
  import L = Ledger

  // ---------------------------------------------------------------- what a client is told

  /** The responses that go to `client`. */
  function Addressed(client: nat, rs: seq<ClientResponse>): seq<ClientResponse> {
    if rs == [] then [] else (if rs[0].client == client then [rs[0]] else []) + Addressed(client, rs[1..])
  }

  lemma {:induction false} AddressedParts(client: nat, rs: seq<ClientResponse>, ss: seq<ClientResponse>)
    ensures Addressed(client, rs + ss) == Addressed(client, rs) + Addressed(client, ss)
  {
    if rs == [] {
      assert rs + ss == ss;
    } else {
      assert (rs + ss)[1..] == rs[1..] + ss;
      AddressedParts(client, rs[1..], ss);
      Grouped(if rs[0].client == client then [rs[0]] else [], Addressed(client, rs[1..]), Addressed(client, ss));
    }
  }

  /** The positions after a response. */
  function Entered(truth: seq<int>, a: ClientResponse): (r: seq<int>)
    ensures |r| == |truth|
  {
    if a.kind == Filled && a.side.Some? && a.ticker < |truth|
    then truth[a.ticker := truth[a.ticker] + SideValue(a.side.value) * a.execQty] else truth
  }

  function Booked(truth: seq<int>, rs: seq<ClientResponse>): (r: seq<int>)
    ensures |r| == |truth|
    decreases |rs|
  {
    if rs == [] then truth else Booked(Entered(truth, rs[0]), rs[1..])
  }

  lemma {:induction false} BookedParts(truth: seq<int>, rs: seq<ClientResponse>, ss: seq<ClientResponse>)
    ensures Booked(truth, rs + ss) == Booked(Booked(truth, rs), ss)
    decreases |rs|
  {
    if rs == [] {
      assert rs + ss == ss;
    } else {
      assert (rs + ss)[1..] == rs[1..] + ss;
      BookedParts(Entered(truth, rs[0]), rs[1..], ss);
    }
  }

  lemma {:induction false} ToldOne(client: nat, truth: seq<int>, a: ClientResponse)
    ensures Addressed(client, [a]) == if a.client == client then [a] else []
    ensures Booked(truth, Addressed(client, [a])) == if a.client == client then Entered(truth, a) else truth
  {
    assert [a][1..] == [];
    assert Addressed(client, []) == [];
  }

  /** From `o` to `o'` the exchange sends `rs`, of which the client gets what is addressed to it. */
  ghost predicate Served(c: Setup, o: System, o': System, rs: seq<ClientResponse>) {
    && o'.desks == o.desks && o'.positions == o.positions && o'.nextId == o.nextId && o'.requests == o.requests
    && o'.responses == o.responses + Addressed(c.client, rs)
    && o'.truth == Booked(o.truth, Addressed(c.client, rs))
  }

  lemma ServedThen(c: Setup, o: System, o': System, o'': System, rs: seq<ClientResponse>, ss: seq<ClientResponse>)
    requires Served(c, o, o', rs) && Served(c, o', o'', ss)
    ensures Served(c, o, o'', rs + ss)
  {
    AddressedParts(c.client, rs, ss);
    BookedParts(o.truth, Addressed(c.client, rs), Addressed(c.client, ss));
    Grouped(o.responses, Addressed(c.client, rs), Addressed(c.client, ss));
  }

  // ---------------------------------------------------------------- the book shows what the client has live

  ghost predicate Held(client: nat, t: nat, x: E.ExchangeOrder, live: map<nat, Resting>) {
    x.owner.client == client ==> x.owner.clientOid in live && live[x.owner.clientOid] == Resting(t, x.side, x.qty)
  }

  ghost predicate Backed(client: nat, held: set<E.ExchangeOrder>, id: nat) {
    exists x :: x in held && x.owner == E.Owner(client, id)
  }

  ghost predicate Single(client: nat, x: E.ExchangeOrder, y: E.ExchangeOrder) {
    x.owner == y.owner && x.owner.client == client ==> x == y
  }

  /** The orders `held` for ticker `t` include exactly the client's live ones, with their open quantities. */
  ghost predicate Shows(client: nat, t: nat, held: set<E.ExchangeOrder>, live: map<nat, Resting>) {
    && (forall x {:trigger Held(client, t, x, live)} :: x in held ==> Held(client, t, x, live))
    && (forall id {:trigger Backed(client, held, id)} :: id in live && live[id].ticker == t ==> Backed(client, held, id))
    && (forall x, y {:trigger Single(client, x, y)} :: x in held && y in held ==> Single(client, x, y))
  }

  /** What is live for other tickers. */
  function Elsewhere(live: map<nat, Resting>, t: nat): map<nat, Resting> {
    map id | id in live && live[id].ticker != t :: live[id]
  }

  /** `held'` is `held` with `qty` of order `x` executed. */
  ghost predicate Cut(held: set<E.ExchangeOrder>, held': set<E.ExchangeOrder>, x: E.ExchangeOrder, qty: nat) {
    && 0 < qty <= x.qty && x in held
    && forall z :: z in held' <==> (z in held && z != x) || (qty < x.qty && z == x.(qty := x.qty - qty))
  }

  /** The response the owner of `x` gets for an execution of it. */
  function FillOf(t: nat, x: E.ExchangeOrder, qty: nat, price: int, moid: nat): ClientResponse
    requires qty <= x.qty
  {
    ClientResponse(Filled, x.owner.client, t, x.owner.clientOid, moid, Some(x.side), price, qty, x.qty - qty)
  }

  lemma OthersCut(client: nat, t: nat, held: set<E.ExchangeOrder>, held': set<E.ExchangeOrder>,
                  live: map<nat, Resting>, x: E.ExchangeOrder, qty: nat)
    requires Shows(client, t, held, live) && Cut(held, held', x, qty) && x.owner.client != client
    ensures Shows(client, t, held', live)
  {
    forall z | z in held' ensures Held(client, t, z, live) {
      assert z in held ==> Held(client, t, z, live);
    }
    forall id | id in live && live[id].ticker == t ensures Backed(client, held', id) {
      assert Backed(client, held, id);
      var z :| z in held && z.owner == E.Owner(client, id);
      assert z in held';
    }
    forall y, z | y in held' && z in held' ensures Single(client, y, z) {
      assert y in held && z in held ==> Single(client, y, z);
    }
  }

  lemma OwnCut(client: nat, t: nat, held: set<E.ExchangeOrder>, held': set<E.ExchangeOrder>,
               live: map<nat, Resting>, live': map<nat, Resting>, x: E.ExchangeOrder, qty: nat)
    requires Shows(client, t, held, live) && Cut(held, held', x, qty) && x.owner.client == client
    requires var id := x.owner.clientOid;
             live' == if qty == x.qty then live - {id} else live[id := Resting(t, x.side, x.qty - qty)]
    ensures Shows(client, t, held', live') && Elsewhere(live', t) == Elsewhere(live, t)
  {
    assert Held(client, t, x, live);
    forall z | z in held' ensures Held(client, t, z, live') {
      assert z in held ==> Held(client, t, z, live) && Single(client, x, z);
    }
    forall id | id in live' && live'[id].ticker == t ensures Backed(client, held', id) {
      if id == x.owner.clientOid {
        assert x.(qty := x.qty - qty) in held';
      } else {
        assert Backed(client, held, id);
        var z :| z in held && z.owner == E.Owner(client, id);
        assert z in held';
      }
    }
    forall y, z | y in held' && z in held' ensures Single(client, y, z) {
      assert y in held && z in held ==> Single(client, y, z);
      assert y in held ==> Single(client, y, x);
      assert z in held ==> Single(client, x, z);
    }
  }

  // ---------------------------------------------------------------- executions

  /** A run of the system leads to `o`. */
  ghost predicate Reached(c: Setup, o: System) {
    && |o.desks| == |o.positions| == |o.truth| == |c.risks|
    && exists es {:trigger Run(c, es)} :: Run(c, es) == Some(o)
  }

  lemma {:induction false} ReachedNext(c: Setup, o: System, e: Event, o': System)
    requires Reached(c, o) && Enabled(c, o, e) && o' == Step(c, o, e) && |o'.desks| == |o'.positions| == |o'.truth| == |c.risks|
    ensures Reached(c, o')
  {
    var es :| Run(c, es) == Some(o);
    RunLast(c, es, o, e);
  }

  /** From `o` a run leads to `o'`, in which the exchange sends `rs`, and then holds `held` for ticker `t`. */
  ghost predicate Advanced(c: Setup, o: System, o': System, t: nat, rs: seq<ClientResponse>, held: set<E.ExchangeOrder>) {
    && Reached(c, o') && Served(c, o, o', rs)
    && Shows(c.client, t, held, o'.live) && Elsewhere(o'.live, t) == Elsewhere(o.live, t)
  }

  lemma {:induction false} AdvancedThen(c: Setup, o: System, o': System, o'': System, t: nat, rs: seq<ClientResponse>,
                                        ss: seq<ClientResponse>, held: set<E.ExchangeOrder>, held': set<E.ExchangeOrder>)
    requires Advanced(c, o, o', t, rs, held) && Advanced(c, o', o'', t, ss, held')
    ensures Advanced(c, o, o'', t, rs + ss, held')
  {
    ServedThen(c, o, o', o'', rs, ss);
  }

  lemma {:induction false} ExecuteServes(c: Setup, o: System, t: nat, x: E.ExchangeOrder, qty: nat, price: int, moid: nat, o': System)
    requires |o.desks| == |o.positions| == |o.truth| == |c.risks| && t < |c.risks|
    requires x.owner.client == c.client && Held(c.client, t, x, o.live) && 0 < qty <= x.qty
    requires o' == Step(c, o, Execute(x.owner.clientOid, qty, price, moid))
    ensures Served(c, o, o', [FillOf(t, x, qty, price, moid)])
    ensures var id := x.owner.clientOid;
            o'.live == if qty == x.qty then o.live - {id} else o.live[id := Resting(t, x.side, x.qty - qty)]
  {
    ToldOne(c.client, o.truth, FillOf(t, x, qty, price, moid));
  }

  /** One execution of a held order is an Execute of the system if the order is the client's, and nothing otherwise. */
  lemma {:induction false} Hit(c: Setup, o: System, t: nat, held: set<E.ExchangeOrder>, held': set<E.ExchangeOrder>,
                               x: E.ExchangeOrder, qty: nat, price: int, moid: nat)
    returns (o': System)
    requires Reached(c, o) && t < |c.risks| && Shows(c.client, t, held, o.live) && Cut(held, held', x, qty)
    ensures Advanced(c, o, o', t, [FillOf(t, x, qty, price, moid)], held')
  {
    if x.owner.client == c.client {
      assert Held(c.client, t, x, o.live);
      var e := Execute(x.owner.clientOid, qty, price, moid);
      o' := Step(c, o, e);
      ExecuteServes(c, o, t, x, qty, price, moid, o');
      OwnCut(c.client, t, held, held', o.live, o'.live, x, qty);
      ReachedNext(c, o, e, o');
    } else {
      o' := o;
      ToldOne(c.client, o.truth, FillOf(t, x, qty, price, moid));
      assert o.responses + [] == o.responses;
      OthersCut(c.client, t, held, held', o.live, x, qty);
    }
  }

  function Members(f: seq<E.ExchangeOrder>): set<E.ExchangeOrder> {
    set x | x in f
  }

  /** The orders of the aggressor's own side, those opposite and the aggressor while it has quantity left. */
  function All(others: set<E.ExchangeOrder>, opp: seq<E.ExchangeOrder>, y: E.ExchangeOrder): set<E.ExchangeOrder> {
    others + Members(opp) + if y.qty > 0 then {y} else {}
  }

  ghost predicate Facing(others: set<E.ExchangeOrder>, opp: seq<E.ExchangeOrder>, y: E.ExchangeOrder) {
    && (forall x :: x in others ==> x.side == y.side && x.id != y.id)
    && (forall x :: x in opp ==> x.side == y.side.Opposite() && 0 < x.qty)
    && DistinctIds(opp)
  }

  /** What one fill leaves of the opposite side. */
  function Eaten(opp: seq<E.ExchangeOrder>, qty: nat): seq<E.ExchangeOrder>
    requires opp != [] && qty <= opp[0].qty
  {
    (if qty < opp[0].qty then [opp[0].(qty := opp[0].qty - qty)] else []) + opp[1..]
  }

  lemma FillCuts(others: set<E.ExchangeOrder>, opp: seq<E.ExchangeOrder>, y: E.ExchangeOrder, qty: nat)
    requires Facing(others, opp, y) && opp != [] && 0 < qty <= y.qty && qty <= opp[0].qty
    ensures var y' := y.(qty := y.qty - qty);
            && Cut(All(others, opp, y), All(others, opp, y'), y, qty)
            && Cut(All(others, opp, y'), All(others, Eaten(opp, qty), y'), opp[0], qty)
            && (qty == opp[0].qty ==> Facing(others, opp[1..], y'))
  {
    var x := opp[0];
    DistinctTail(opp);
    assert opp == [x] + opp[1..];
    assert x in opp;
    forall z | z in opp[1..] ensures z in opp {}
  }

  /** One fill of the aggressor `y` against the head of the opposite side, told to both owners. */
  lemma {:induction false} FillServed(c: Setup, o: System, tk: E.Taker, y: E.ExchangeOrder, f: E.Fill,
                                      others: set<E.ExchangeOrder>, opp: seq<E.ExchangeOrder>)
    returns (o': System)
    requires Reached(c, o) && tk.ticker < |c.risks|
    requires y.owner == E.Owner(tk.client, tk.clientOid) && y.side == tk.side && Facing(others, opp, y)
    requires Shows(c.client, tk.ticker, All(others, opp, y), o.live)
    requires opp != [] && f.resting == opp[0] && 0 < f.qty <= y.qty && f.qty <= opp[0].qty && f.leaves == y.qty - f.qty
    ensures Advanced(c, o, o', tk.ticker, E.FillResponses(tk, f), All(others, Eaten(opp, f.qty), y.(qty := f.leaves)))
  {
    var t, x, y' := tk.ticker, opp[0], y.(qty := f.leaves);
    var held0, held1, held2 := All(others, opp, y), All(others, opp, y'), All(others, Eaten(opp, f.qty), y');
    FillCuts(others, opp, y, f.qty);
    var mid := Hit(c, o, t, held0, held1, y, f.qty, x.price, tk.marketOid);
    o' := Hit(c, mid, t, held1, held2, x, f.qty, x.price, x.id);
    var a, b := FillOf(t, y, f.qty, x.price, tk.marketOid), FillOf(t, x, f.qty, x.price, x.id);
    AdvancedThen(c, o, mid, o', t, [a], [b], held1, held2);
    BothTold(tk, y, f, a, b);
  }

  lemma BothTold(tk: E.Taker, y: E.ExchangeOrder, f: E.Fill, a: ClientResponse, b: ClientResponse)
    requires y.owner == E.Owner(tk.client, tk.clientOid) && y.side == tk.side && f.qty <= y.qty && f.leaves == y.qty - f.qty
    requires f.qty <= f.resting.qty
    requires a == FillOf(tk.ticker, y, f.qty, f.resting.price, tk.marketOid)
    requires b == FillOf(tk.ticker, f.resting, f.qty, f.resting.price, f.resting.id)
    ensures E.FillResponses(tk, f) == [a] + [b]
  {
  }

  lemma {:induction false} NothingServed(c: Setup, o: System, t: nat, held: set<E.ExchangeOrder>)
    requires Reached(c, o) && Shows(c.client, t, held, o.live)
    ensures Advanced(c, o, o, t, [], held)
  {
    assert o.responses + [] == o.responses;
  }

  /** A whole sweep, fill by fill. */
  lemma {:induction false} SweepServed(c: Setup, o: System, tk: E.Taker, y: E.ExchangeOrder, price: int,
                                       others: set<E.ExchangeOrder>, opp: seq<E.ExchangeOrder>, r: E.Swept)
    returns (o': System)
    requires Reached(c, o) && tk.ticker < |c.risks|
    requires y.owner == E.Owner(tk.client, tk.clientOid) && y.side == tk.side && Facing(others, opp, y)
    requires Shows(c.client, tk.ticker, All(others, opp, y), o.live)
    requires r == E.Sweep(y.side, price, y.qty, opp)
    ensures Advanced(c, o, o', tk.ticker, E.AllResponses(tk, r.fills), All(others, r.rest, y.(qty := r.leaves)))
    decreases |opp|
  {
    if r.fills == [] {
      NothingServed(c, o, tk.ticker, All(others, opp, y));
      o' := o;
      assert y.(qty := r.leaves) == y;
    } else {
      var f := r.fills[0];
      assert opp[0] in opp;
      FirstOfSweep(y, price, opp, r, f);
      var mid := FillServed(c, o, tk, y, f, others, opp);
      if y.qty < opp[0].qty {
        o' := mid;
        LastFill(tk, r.fills);
      } else {
        var y', rest := y.(qty := f.leaves), E.Sweep(y.side, price, f.leaves, opp[1..]);
        FillCuts(others, opp, y, f.qty);
        o' := SweepServed(c, mid, tk, y', price, others, opp[1..], rest);
        AdvancedThen(c, o, mid, o', tk.ticker, E.FillResponses(tk, f), E.AllResponses(tk, rest.fills),
                     All(others, opp[1..], y'), All(others, r.rest, y.(qty := r.leaves)));
      }
    }
  }

  lemma {:induction false} FirstOfSweep(y: E.ExchangeOrder, price: int, opp: seq<E.ExchangeOrder>, r: E.Swept, f: E.Fill)
    requires r == E.Sweep(y.side, price, y.qty, opp) && r.fills != [] && f == r.fills[0] && 0 < opp[0].qty
    ensures f.resting == opp[0] && 0 < f.qty <= y.qty && f.qty <= opp[0].qty && f.leaves == y.qty - f.qty
    ensures y.qty < opp[0].qty ==> |r.fills| == 1 && r.rest == Eaten(opp, f.qty) && r.leaves == f.leaves
    ensures y.qty >= opp[0].qty ==>
              Eaten(opp, f.qty) == opp[1..] && f.qty == opp[0].qty
              && E.Sweep(y.side, price, f.leaves, opp[1..]) == E.Swept(r.fills[1..], r.rest, r.leaves)
  {
  }

  lemma {:induction false} LastFill(tk: E.Taker, fills: seq<E.Fill>)
    requires |fills| == 1
    ensures E.AllResponses(tk, fills) == E.FillResponses(tk, fills[0])
  {
    assert fills[1..] == [];
  }

  // ---------------------------------------------------------------- requests

  function OrdersOf(b: Book<E.Owner>): set<E.ExchangeOrder> {
    Members(b.buy) + Members(b.sell)
  }

  predicate Own(c: Setup, r: ClientRequest) {
    r.client == c.client
  }

  /** The system once the exchange has taken request `r`, if it is the client's. */
  function Taking(c: Setup, o: System, r: ClientRequest): System {
    o.(requests := if Own(c, r) then o.requests - multiset{r} else o.requests)
  }

  lemma Joins(client: nat, t: nat, held: set<E.ExchangeOrder>, held': set<E.ExchangeOrder>,
              live: map<nat, Resting>, live': map<nat, Resting>, y: E.ExchangeOrder)
    requires Shows(client, t, held, live) && held' == held + if y.qty > 0 then {y} else {}
    requires if y.owner.client == client
             then y.owner.clientOid !in live
                  && live' == if y.qty == 0 then live else live[y.owner.clientOid := Resting(t, y.side, y.qty)]
             else live' == live
    ensures Shows(client, t, held', live') && Elsewhere(live', t) == Elsewhere(live, t)
  {
    forall z | z in held' ensures Held(client, t, z, live') {
      assert z in held ==> Held(client, t, z, live);
    }
    forall id | id in live' && live'[id].ticker == t ensures Backed(client, held', id) {
      if id in live {
        assert Backed(client, held, id);
        var z :| z in held && z.owner == E.Owner(client, id);
        assert z in held';
      } else {
        assert y in held';
      }
    }
    forall x, z | x in held' && z in held' ensures Single(client, x, z) {
      assert x in held ==> Held(client, t, x, live);
      assert z in held ==> Held(client, t, z, live);
      assert x in held && z in held ==> Single(client, x, z);
    }
  }

  /** A NEW is accepted: the aggressor joins the orders held. */
  lemma {:induction false} AcceptServed(c: Setup, o: System, r: ClientRequest, y: E.ExchangeOrder,
                                        held: set<E.ExchangeOrder>, held': set<E.ExchangeOrder>)
    returns (o': System)
    requires Inv(c, o) && Reached(c, o) && r.kind == New && r.ticker < |c.risks| && (Own(c, r) ==> r in o.requests)
    requires y.owner == E.Owner(r.client, r.orderId) && y.side == r.side && y.qty == r.qty
    requires Shows(c.client, r.ticker, held, o.live) && held' == held + if y.qty > 0 then {y} else {}
    ensures Advanced(c, Taking(c, o, r), o', r.ticker,
                     [ClientResponse(Accepted, r.client, r.ticker, r.orderId, y.id, Some(r.side), r.price, 0, r.qty)], held')
  {
    var a := ClientResponse(Accepted, r.client, r.ticker, r.orderId, y.id, Some(r.side), r.price, 0, r.qty);
    ToldOne(c.client, o.truth, a);
    if Own(c, r) {
      NotYetThere(c, o, r);
      o' := Step(c, o, Accept(r, y.id));
      ReachedNext(c, o, Accept(r, y.id), o');
    } else {
      o' := o;
      assert o.responses + [] == o.responses;
    }
    Joins(c.client, r.ticker, held, held', o.live, o'.live, y);
  }

  lemma BookFaces(ex: E.Exchange, y: E.ExchangeOrder)
    requires E.WellFormed(ex) && y.id == ex.nextId
    ensures Facing(Members(ex.book.Of(y.side)), ex.book.Of(y.side.Opposite()), y)
    ensures All(Members(ex.book.Of(y.side)), ex.book.Of(y.side.Opposite()), y)
            == OrdersOf(ex.book) + if y.qty > 0 then {y} else {}
  {
    L.DistinctIn(ex.book, y.side.Opposite());
    forall x | x in ex.book.Of(y.side) ensures x.side == y.side && x.id != y.id { assert P.InBook(ex.book, x); }
    forall x | x in ex.book.Of(y.side.Opposite()) ensures x.side == y.side.Opposite() && 0 < x.qty { assert P.InBook(ex.book, x); }
  }

  /** What is held once the sweep is over is what the book shows. */
  lemma {:induction false} BookAfter(ex: E.Exchange, r: ClientRequest, swept: E.Swept, book: Book<E.Owner>, y: E.ExchangeOrder)
    requires r.kind == New && swept == E.Sweep(r.side, r.price, r.qty, ex.book.Of(r.side.Opposite()))
    requires book == ex.book.With(r.side.Opposite(), swept.rest)
    requires y == E.NewOrder(book, ex.nextId, E.Owner(r.client, r.orderId), r.side, r.price, r.qty)
    ensures All(Members(ex.book.Of(r.side)), swept.rest, y.(qty := swept.leaves)) == OrdersOf(E.Process(ex, r).next.book)
  {
    var o := y.(qty := swept.leaves);
    assert OrdersOf(book) == Members(ex.book.Of(r.side)) + Members(swept.rest);
    if swept.leaves != 0 {
      P.RestMembers(book, o);
      assert E.Process(ex, r).next.book == P.Rest(book, o);
      forall x ensures x in OrdersOf(book) + {o} <==> x in OrdersOf(P.Rest(book, o)) {
        assert P.InBook(book, x) <==> x in OrdersOf(book);
        assert P.InBook(P.Rest(book, o), x) <==> x in OrdersOf(P.Rest(book, o));
      }
    }
  }

  lemma {:induction false} NewServed(c: Setup, o: System, ex: E.Exchange, r: ClientRequest, out: E.Outcome) returns (o': System)
    requires Inv(c, o) && Reached(c, o) && r.kind == New && r.ticker < |c.risks| && (Own(c, r) ==> r in o.requests)
    requires E.WellFormed(ex) && Shows(c.client, r.ticker, OrdersOf(ex.book), o.live) && out == E.Process(ex, r)
    ensures Advanced(c, Taking(c, o, r), o', r.ticker, out.responses, OrdersOf(out.next.book))
  {
    var opp, others := ex.book.Of(r.side.Opposite()), Members(ex.book.Of(r.side));
    var swept := E.Sweep(r.side, r.price, r.qty, opp);
    var book := ex.book.With(r.side.Opposite(), swept.rest);
    var y := E.NewOrder(book, ex.nextId, E.Owner(r.client, r.orderId), r.side, r.price, r.qty);
    var tk := E.Taker(r.client, r.ticker, r.orderId, ex.nextId % TWO_32, r.side);
    BookFaces(ex, y);
    BookAfter(ex, r, swept, book, y);
    var mid := AcceptServed(c, o, r, y, OrdersOf(ex.book), All(others, opp, y));
    o' := SweepServed(c, mid, tk, y, r.price, others, opp, swept);
    var a := ClientResponse(Accepted, r.client, r.ticker, r.orderId, y.id, Some(r.side), r.price, 0, r.qty);
    AdvancedThen(c, Taking(c, o, r), mid, o', r.ticker, [a], E.AllResponses(tk, swept.fills), All(others, opp, y),
                 OrdersOf(out.next.book));
  }

  lemma BookWithout(ex: E.Exchange, x: E.ExchangeOrder)
    requires E.WellFormed(ex) && P.InBook(ex.book, x)
    ensures Cut(OrdersOf(ex.book), OrdersOf(ex.book.With(x.side, Without(ex.book.Of(x.side), x.id))), x, x.qty)
  {
    var f := ex.book.Of(x.side);
    WithoutMembers(f, x.id);
    forall z | z in f && z.id == x.id ensures z == x { assert P.InBook(ex.book, z); }
  }

  lemma NoneHeld(client: nat, t: nat, b: Book<E.Owner>, live: map<nat, Resting>, id: nat)
    requires Shows(client, t, OrdersOf(b), live) && E.Lookup(b, E.Owner(client, id)) == None
    ensures id in live ==> live[id].ticker != t
  {
    assert forall x :: x in OrdersOf(b) ==> P.InBook(b, x);
    assert id in live && live[id].ticker == t ==> Backed(client, OrdersOf(b), id);
  }

  /** The client's cancel finds order `x`. */
  lemma {:induction false} FoundCancelServed(c: Setup, o: System, ex: E.Exchange, r: ClientRequest, x: E.ExchangeOrder, out: E.Outcome)
    returns (o': System)
    requires Reached(c, o) && r.kind == RequestType.CancelOrder && r.ticker < |c.risks| && Own(c, r) && r in o.requests
    requires c.client < MAX_CLIENTS && E.Lookup(ex.book, E.Owner(r.client, r.orderId)) == Some(x)
    requires E.WellFormed(ex) && Shows(c.client, r.ticker, OrdersOf(ex.book), o.live) && out == E.Process(ex, r)
    ensures Advanced(c, Taking(c, o, r), o', r.ticker, out.responses, OrdersOf(out.next.book))
  {
    assert x in OrdersOf(ex.book) && Held(c.client, r.ticker, x, o.live);
    o' := Step(c, o, Withdraw(r, x.price, x.id));
    ReachedNext(c, o, Withdraw(r, x.price, x.id), o');
    ToldOne(c.client, o.truth, out.responses[0]);
    BookWithout(ex, x);
    OwnCut(c.client, r.ticker, OrdersOf(ex.book), OrdersOf(out.next.book), o.live, o'.live, x, x.qty);
  }

  /** The client's cancel comes too late. */
  lemma {:induction false} LateCancelServed(c: Setup, o: System, ex: E.Exchange, r: ClientRequest, out: E.Outcome) returns (o': System)
    requires Reached(c, o) && r.kind == RequestType.CancelOrder && r.ticker < |c.risks| && Own(c, r) && r in o.requests
    requires E.Lookup(ex.book, E.Owner(r.client, r.orderId)) == None
    requires Shows(c.client, r.ticker, OrdersOf(ex.book), o.live) && out == E.Process(ex, r)
    ensures Advanced(c, Taking(c, o, r), o', r.ticker, out.responses, OrdersOf(out.next.book))
  {
    NoneHeld(c.client, r.ticker, ex.book, o.live, r.orderId);
    o' := Step(c, o, Withdraw(r, 0, 0));
    ReachedNext(c, o, Withdraw(r, 0, 0), o');
    ToldOne(c.client, o.truth, out.responses[0]);
  }

  lemma {:induction false} OtherCancelServed(c: Setup, o: System, ex: E.Exchange, r: ClientRequest, out: E.Outcome)
    requires Reached(c, o) && r.kind == RequestType.CancelOrder && r.ticker < |c.risks| && !Own(c, r)
    requires E.WellFormed(ex) && Shows(c.client, r.ticker, OrdersOf(ex.book), o.live) && out == E.Process(ex, r)
    ensures Advanced(c, o, o, r.ticker, out.responses, OrdersOf(out.next.book))
  {
    ToldOne(c.client, o.truth, out.responses[0]);
    assert o.responses + [] == o.responses;
    var found := if r.client < MAX_CLIENTS then E.Lookup(ex.book, E.Owner(r.client, r.orderId)) else None;
    if found.Some? {
      var x := found.value;
      BookWithout(ex, x);
      OthersCut(c.client, r.ticker, OrdersOf(ex.book), OrdersOf(out.next.book), o.live, x, x.qty);
    }
  }

  /** Simulation: whatever one request does at the exchange is, for the client, a sequence of the system's events;
      the client is sent the same responses, its true position takes the same fills, and afterwards the book again
      shows exactly what the client has live. */
  lemma {:induction false} ProcessIsSimulated(c: Setup, o: System, ex: E.Exchange, r: ClientRequest, out: E.Outcome) returns (o': System)
    requires Inv(c, o) && Reached(c, o) && r.ticker < |c.risks| && (Own(c, r) ==> r in o.requests) && c.client < MAX_CLIENTS
    requires E.WellFormed(ex) && Shows(c.client, r.ticker, OrdersOf(ex.book), o.live) && out == E.Process(ex, r)
    ensures Advanced(c, Taking(c, o, r), o', r.ticker, out.responses, OrdersOf(out.next.book))
  {
    if r.kind == New {
      o' := NewServed(c, o, ex, r, out);
    } else if Own(c, r) {
      match E.Lookup(ex.book, E.Owner(r.client, r.orderId))
      case Some(x) => o' := FoundCancelServed(c, o, ex, r, x, out);
      case None => o' := LateCancelServed(c, o, ex, r, out);
    } else {
      OtherCancelServed(c, o, ex, r, out);
      o' := o;
    }
  }

  // ---------------------------------------------------------------- whole runs

  /** The client, its channels and the exchange's books. */
  datatype Market = Market(
    books: seq<E.Exchange>, desks: seq<PerSide<OrderManagerClass.OMOrder>>, positions: seq<int>, nextId: nat,
    requests: multiset<ClientRequest>, responses: seq<ClientResponse>, truth: seq<int>)

  /** The client moves an order or takes a response; or the exchange processes a request, the client's or another's. */
  datatype Happening = AtClient(event: Event) | AtExchange(request: ClientRequest)

  function View(m: Market, live: map<nat, Resting>): System {
    System(m.desks, m.positions, m.nextId, m.requests, m.responses, live, m.truth)
  }

  ghost predicate Possible(c: Setup, m: Market, h: Happening) {
    match h
    case AtClient(e) => (e.MoveOrder? || e.Deliver?) && Enabled(c, View(m, map[]), e)
    case AtExchange(r) => r.ticker < |m.books| && I.Legal(m.books[r.ticker], r) && (Own(c, r) ==> r in m.requests)
  }

  ghost function After(c: Setup, m: Market, h: Happening): Market
    requires Possible(c, m, h)
  {
    match h
    case AtClient(e) =>
      var o := Step(c, View(m, map[]), e);
      m.(desks := o.desks, positions := o.positions, nextId := o.nextId, requests := o.requests, responses := o.responses)
    case AtExchange(r) =>
      var out := E.Process(m.books[r.ticker], r);
      var mine := Addressed(c.client, out.responses);
      m.(books := m.books[r.ticker := out.next], responses := m.responses + mine, truth := Booked(m.truth, mine),
         requests := if Own(c, r) then m.requests - multiset{r} else m.requests)
  }

  function Opening(c: Setup): Market {
    var o := Start(c);
    Market(seq(|c.risks|, _ => E.NewExchange()), o.desks, o.positions, o.nextId, o.requests, o.responses, o.truth)
  }

  ghost function RunMarket(c: Setup, hs: seq<Happening>): Option<Market> {
    if hs == [] then Some(Opening(c))
    else match RunMarket(c, hs[..|hs| - 1])
      case None => None
      case Some(m) => if Possible(c, m, hs[|hs| - 1]) then Some(After(c, m, hs[|hs| - 1])) else None
  }

  ghost predicate BookShown(c: Setup, m: Market, live: map<nat, Resting>, t: nat) {
    t < |m.books| && E.WellFormed(m.books[t]) && Shows(c.client, t, OrdersOf(m.books[t].book), live)
  }

  /** The market is a state of the system in which what is live is what the books show. */
  ghost predicate Simulated(c: Setup, m: Market, live: map<nat, Resting>) {
    && Reached(c, View(m, live)) && |m.books| == |c.risks|
    && forall t {:trigger BookShown(c, m, live, t)} :: 0 <= t < |c.risks| ==> BookShown(c, m, live, t)
  }

  lemma {:induction false} ReachedKeeps(c: Setup, o: System)
    requires SafeSetup(c) && Reached(c, o)
    ensures Inv(c, o)
  {
    var es :| Run(c, es) == Some(o);
    RunKeeps(c, es, o);
  }

  lemma {:induction false} ClientSimulated(c: Setup, m: Market, live: map<nat, Resting>, e: Event, m': Market)
    requires Simulated(c, m, live) && Possible(c, m, AtClient(e)) && m' == After(c, m, AtClient(e))
    ensures Simulated(c, m', live)
  {
    assert View(m', live) == Step(c, View(m, live), e);
    ReachedNext(c, View(m, live), e, View(m', live));
    forall t | 0 <= t < |c.risks| ensures BookShown(c, m', live, t) {
      assert BookShown(c, m, live, t);
    }
  }

  lemma ElsewhereShows(client: nat, t: nat, u: nat, held: set<E.ExchangeOrder>, live: map<nat, Resting>, live': map<nat, Resting>)
    requires Shows(client, u, held, live) && u != t && Elsewhere(live', t) == Elsewhere(live, t)
    ensures Shows(client, u, held, live')
  {
    assert forall id :: id in live && live[id].ticker == u ==> id in Elsewhere(live', t) && Elsewhere(live', t)[id] == live[id];
    assert forall id :: id in live' && live'[id].ticker == u ==> id in Elsewhere(live, t) && Elsewhere(live, t)[id] == live'[id];
    forall x | x in held ensures Held(client, u, x, live') {
      assert Held(client, u, x, live);
    }
    forall id | id in live' && live'[id].ticker == u ensures Backed(client, held, id) {
      assert id in live && live[id].ticker == u;
    }
  }

  lemma {:induction false} ExchangeSimulated(c: Setup, m: Market, live: map<nat, Resting>, r: ClientRequest, m': Market)
    returns (live': map<nat, Resting>)
    requires SafeSetup(c) && c.client < MAX_CLIENTS
    requires Simulated(c, m, live) && Possible(c, m, AtExchange(r)) && m' == After(c, m, AtExchange(r))
    ensures Simulated(c, m', live')
  {
    var ex := m.books[r.ticker];
    var out := E.Process(ex, r);
    ReachedKeeps(c, View(m, live));
    assert BookShown(c, m, live, r.ticker);
    var o' := ProcessIsSimulated(c, View(m, live), ex, r, out);
    live' := o'.live;
    assert View(m', live') == o';
    I.ProcessKeepsWellFormed(ex, r);
    forall t | 0 <= t < |c.risks| ensures BookShown(c, m', live', t) {
      assert BookShown(c, m, live, t);
      if t != r.ticker {
        ElsewhereShows(c.client, r.ticker, t, OrdersOf(m.books[t].book), live, live');
      }
    }
  }

  /** Refinement: every run against the real books is a run of the system. */
  lemma {:induction false} MarketIsSystem(c: Setup, hs: seq<Happening>, m: Market) returns (live: map<nat, Resting>)
    requires SafeSetup(c) && c.client < MAX_CLIENTS && RunMarket(c, hs) == Some(m)
    ensures Simulated(c, m, live)
  {
    if hs == [] {
      live := map[];
      assert Run(c, []) == Some(View(m, live));
    } else {
      var before := RunMarket(c, hs[..|hs| - 1]).value;
      live := MarketIsSystem(c, hs[..|hs| - 1], before);
      match hs[|hs| - 1]
      case AtClient(e) => ClientSimulated(c, before, live, e, m);
      case AtExchange(r) => live := ExchangeSimulated(c, before, live, r, m);
    }
  }

  /** Two orders of the client rest on one side of a book. */
  ghost predicate OnSameSide(c: Setup, m: Market, t: nat, x: E.ExchangeOrder, y: E.ExchangeOrder) {
    && t < |m.books| && P.InBook(m.books[t].book, x) && P.InBook(m.books[t].book, y) && x.side == y.side
    && x.owner.client == y.owner.client == c.client
  }

  /** Against the real books and whatever other clients do: the position the client knows and the one its fills
      amount to stay within the limit, also when an order of the client that is resting in a book is executed in
      full, and no two orders of the client rest on one side of a book. */
  lemma {:induction false} PositionWithinLimitAtExchange(c: Setup, hs: seq<Happening>, m: Market, t: nat)
    requires SafeSetup(c) && c.client < MAX_CLIENTS && RunMarket(c, hs) == Some(m) && t < |c.risks|
    ensures t < |m.books| && t < |m.positions| && t < |m.truth|
    ensures Abs(m.positions[t]) <= Limit(c.risks[t]) && Abs(m.truth[t]) <= Limit(c.risks[t])
    ensures forall x :: P.InBook(m.books[t].book, x) && x.owner.client == c.client ==>
              -(Limit(c.risks[t]) as int) <= m.truth[t] + SideValue(x.side) * x.qty <= Limit(c.risks[t])
    ensures forall x, y :: OnSameSide(c, m, t, x, y) ==> x == y
  {
    var live := MarketIsSystem(c, hs, m);
    var o := View(m, live);
    var es :| Run(c, es) == Some(o);
    PositionWithinLimit(c, es, o, t);
    ReachedKeeps(c, o);
    assert BookShown(c, m, live, t);
    var held := OrdersOf(m.books[t].book);
    forall x | P.InBook(m.books[t].book, x) && x.owner.client == c.client
      ensures x.owner.clientOid == m.desks[t].Of(x.side).orderId && Leaves(o, t, x.side) == x.qty && x in held
    {
      assert x in held && Held(c.client, t, x, live) && LiveOk(o, x.owner.clientOid);
    }
    forall x, y | OnSameSide(c, m, t, x, y) ensures x == y {
      assert Single(c.client, x, y);
    }
  }
}

/** What one request does to one exchange book, as functions on the two order lists, together with the
    responses and market updates it sends (src/matching_engine/exchange_order_book.cpp). */
module ExchangeModel {
  import opened Types
  import opened OrderLists
  import opened PriceMap

  datatype Owner = Owner(client: nat, clientOid: nat)

  type ExchangeOrder = Order<Owner>

  datatype Exchange = Exchange(book: Book<Owner>, nextId: nat)

  datatype Outcome = Outcome(next: Exchange, responses: seq<ClientResponse>, updates: seq<MarketUpdate>)

  function Min(a: nat, b: nat): nat { if a <= b then a else b }

  // ---------------------------------------------------------------- matching

  /** One execution: the resting order as it stood, the quantity executed, what the aggressor has left. */
  datatype Fill = Fill(resting: ExchangeOrder, qty: nat, leaves: nat)

  datatype Swept = Swept(fills: seq<Fill>, rest: seq<ExchangeOrder>, leaves: nat)

  /** CheckForMatch: the aggressor on side `s` takes the head of the opposite list until it is filled,
      the list is empty, or its limit is worse than the best resting price. */
  function Sweep(s: Side, price: int, qty: nat, opp: seq<ExchangeOrder>): Swept
  {
    if qty == 0 || opp == [] || Worse(s, price, opp[0].price) then Swept([], opp, qty)
    else if qty < opp[0].qty then
      Swept([Fill(opp[0], qty, 0)], [opp[0].(qty := opp[0].qty - qty)] + opp[1..], 0)
    else
      var left := qty - opp[0].qty;
      var r := Sweep(s, price, left, opp[1..]);
      Swept([Fill(opp[0], opp[0].qty, left)] + r.fills, r.rest, r.leaves)
  }

  /** The aggressor's fields that Match copies into its messages. */
  datatype Taker = Taker(client: nat, ticker: nat, clientOid: nat, marketOid: nat, side: Side)

  function FillResponses(t: Taker, f: Fill): seq<ClientResponse> {
    [ ClientResponse(Filled, t.client, t.ticker, t.clientOid, t.marketOid, Some(t.side),
                     f.resting.price, f.qty, f.leaves),
      ClientResponse(Filled, f.resting.owner.client, t.ticker, f.resting.owner.clientOid, f.resting.id,
                     Some(f.resting.side), f.resting.price, f.qty, Left(f)) ]
  }

  function Left(f: Fill): nat {
    if f.qty <= f.resting.qty then f.resting.qty - f.qty else 0
  }

  function FillUpdates(t: Taker, f: Fill): seq<MarketUpdate> {
    [ MarketUpdate(Trade, ORDER_ID_INVALID, t.ticker, Some(t.side), f.resting.price, f.qty, PRIORITY_INVALID),
      if Left(f) == 0 then
        MarketUpdate(Cancel, f.resting.id, t.ticker, Some(f.resting.side), f.resting.price, f.resting.qty,
                     PRIORITY_INVALID)
      else
        MarketUpdate(Modify, f.resting.id, t.ticker, Some(f.resting.side), f.resting.price, Left(f),
                     f.resting.priority) ]
  }

  function AllResponses(t: Taker, fills: seq<Fill>): seq<ClientResponse> {
    if fills == [] then [] else FillResponses(t, fills[0]) + AllResponses(t, fills[1..])
  }

  function AllUpdates(t: Taker, fills: seq<Fill>): seq<MarketUpdate> {
    if fills == [] then [] else FillUpdates(t, fills[0]) + AllUpdates(t, fills[1..])
  }

  // ---------------------------------------------------------------- resting

  /** GetNextPriority: one more than the last order of the level found, 1 when there is none. */
  function NextPriority(f: seq<ExchangeOrder>, price: int): nat {
    if f == [] then 1
    else if Slot(f[|f| - 1].price) == Slot(price) then f[|f| - 1].priority + 1
    else NextPriority(f[..|f| - 1], price)
  }

  /** The order Add allocates, with the priority read through the price map. */
  function NewOrder(b: Book<Owner>, id: nat, owner: Owner, s: Side, price: int, qty: nat): ExchangeOrder {
    Order(id, owner, s, price, qty,
          match LevelSide(b, price)
          case None => 1
          case Some(t) => NextPriority(b.Of(t), price))
  }

  // ---------------------------------------------------------------- requests

  function AddRequest(ex: Exchange, client: nat, clientOid: nat, ticker: nat, s: Side, price: int, qty: nat): Outcome {
    var id := ex.nextId;
    var accepted := ClientResponse(Accepted, client, ticker, clientOid, id, Some(s), price, 0, qty);
    // CheckForMatch takes the market order id as a 32-bit Qty.
    var taker := Taker(client, ticker, clientOid, id % TWO_32, s);
    var swept := Sweep(s, price, qty, ex.book.Of(s.Opposite()));
    var book := ex.book.With(s.Opposite(), swept.rest);
    var responses := [accepted] + AllResponses(taker, swept.fills);
    var updates := AllUpdates(taker, swept.fills);
    if swept.leaves == 0 then Outcome(Exchange(book, id + 1), responses, updates)
    else
      var o := NewOrder(book, id, Owner(client, clientOid), s, price, swept.leaves);
      Outcome(Exchange(Rest(book, o), id + 1), responses,
              updates + [MarketUpdate(Add, id, ticker, Some(s), price, swept.leaves, o.priority)])
  }

  function FindOwner(f: seq<ExchangeOrder>, owner: Owner): (r: Option<ExchangeOrder>)
    ensures r.Some? ==> r.value in f && r.value.owner == owner
    ensures r.None? ==> forall x :: x in f ==> x.owner != owner
  {
    if f == [] then None else if f[0].owner == owner then Some(f[0]) else FindOwner(f[1..], owner)
  }

  function Lookup(b: Book<Owner>, owner: Owner): (r: Option<ExchangeOrder>)
    ensures r.Some? ==> InBook(b, r.value) && r.value.owner == owner
    ensures r.None? ==> forall x :: InBook(b, x) ==> x.owner != owner
  {
    var bid := FindOwner(b.buy, owner);
    if bid.Some? then bid else FindOwner(b.sell, owner)
  }

  function CancelRequest(ex: Exchange, client: nat, clientOid: nat, ticker: nat): Outcome {
    match if client < MAX_CLIENTS then Lookup(ex.book, Owner(client, clientOid)) else None
    case None =>
      Outcome(ex, [ClientResponse(CancelRejected, client, ticker, clientOid, ORDER_ID_INVALID, None,
                                  PRICE_INVALID, QTY_INVALID, QTY_INVALID)], [])
    case Some(o) =>
      Outcome(ex.(book := ex.book.With(o.side, Without(ex.book.Of(o.side), o.id))),
              [ClientResponse(Canceled, client, ticker, clientOid, o.id, Some(o.side), o.price, QTY_INVALID, o.qty)],
              [MarketUpdate(Cancel, o.id, ticker, Some(o.side), o.price, 0, o.priority)])
  }

  /** MatchingEngine::ProcessClientRequest on the book of the request's ticker. */
  function Process(ex: Exchange, r: ClientRequest): Outcome {
    match r.kind
    case New => AddRequest(ex, r.client, r.orderId, r.ticker, r.side, r.price, r.qty)
    case CancelOrder => CancelRequest(ex, r.client, r.orderId, r.ticker)
  }

  function NewExchange(): Exchange {
    Exchange(EmptyBook(), 1)
  }

  // ---------------------------------------------------------------- well-formedness

  ghost predicate UniqueOwners(b: Book<Owner>) {
    forall x, y :: InBook(b, x) && InBook(b, y) && x.owner == y.owner ==> x == y
  }

  ghost predicate WellFormed(ex: Exchange) {
    && RankedBook(ex.book)
    && Live(ex.book, ex.nextId)
    && UniqueIds(ex.book)
    && UniqueOwners(ex.book)
    && UniqueSlots(ex.book)
    && Uncrossed(ex.book)
  }
}

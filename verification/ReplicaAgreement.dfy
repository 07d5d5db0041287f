/** The exchange's book and a client's book side by side: what one request does to the first, the updates it sends
    do to the second. */
module ReplicaAgreement {
  import opened Types
  import opened ExchangeModel
  import opened ExchangeInvariants
  import opened ReplicaModel
  import opened ExchangeOrderBookClass
  import opened TradingOrderBookClass

  twostate lemma ReplicaKept(b: TradingOrderBook)
    requires old(b.Valid()) && unchanged(b) && unchanged(b.lists)
    requires unchanged(b.lists.levels) && unchanged(b.lists.orders)
    ensures b.Valid()
  {
    b.CoherentKept();
  }

  twostate lemma ExchangeKept(b: ExchangeOrderBook)
    requires old(b.Valid()) && unchanged(b) && unchanged(b.lists)
    requires unchanged(b.lists.levels) && unchanged(b.lists.orders)
    ensures b.Valid()
  {
    b.CoherentKept();
  }

  /** MatchingEngine::ProcessClientRequest on one book. */
  method Serve(b: ExchangeOrderBook, r: ClientRequest) returns (updates: seq<MarketUpdate>)
    requires b.Valid() && r.client < MAX_CLIENTS && r.orderId < MAX_ORDER_IDS && Legal(b.State(), r)
    modifies b, b.lists, b.lists.levels, b.lists.orders
    ensures b.Valid() && b.State() == Process(old(b.State()), r).next && updates == Process(old(b.State()), r).updates
    ensures b.responses == old(b.responses) + Process(old(b.State()), r).responses
  {
    var n := |b.updates|;
    match r.kind {
      case New => b.Add(r.client, r.orderId, r.ticker, r.side, r.price, r.qty);
      case CancelOrder => b.Cancel(r.client, r.orderId, r.ticker);
    }
    updates := b.updates[n..];
  }

  method ServeBeside(b: ExchangeOrderBook, ghost replica: TradingOrderBook, r: ClientRequest) returns (updates: seq<MarketUpdate>)
    requires b.Valid() && r.client < MAX_CLIENTS && r.orderId < MAX_ORDER_IDS && Legal(b.State(), r) && replica.Valid()
    modifies b, b.lists, b.lists.levels, b.lists.orders
    ensures b.Valid() && b.State() == Process(old(b.State()), r).next && updates == Process(old(b.State()), r).updates
    ensures replica.Valid() && replica.book == old(replica.book)
  {
    updates := Serve(b, r);
    ReplicaKept(replica);
  }

  method FollowBeside(replica: TradingOrderBook, ghost b: ExchangeOrderBook, updates: seq<MarketUpdate>)
    requires replica.Valid() && AllSequenced(replica.book, updates) && b.Valid()
    modifies replica, replica.lists, replica.lists.levels, replica.lists.orders
    ensures replica.Valid() && replica.book == Replay(old(replica.book), updates)
    ensures b.Valid() && b.State() == old(b.State())
  {
    replica.OnMarketUpdates(updates);
    ExchangeKept(b);
  }

  /** Replica agreement on the lists themselves: after the updates of a request have been taken in, both books hold
      the same orders in the same levels and the same FIFO order. */
  method ServeAndFollow(b: ExchangeOrderBook, replica: TradingOrderBook, r: ClientRequest)
    requires b.Valid() && r.client < MAX_CLIENTS && r.orderId < MAX_ORDER_IDS && Legal(b.State(), r)
    requires b.nextMarketOrderId < MAX_ORDER_IDS
    requires replica.Valid() && replica.book == PublicBook(b.book)
    modifies b, b.lists, b.lists.levels, b.lists.orders
    modifies replica, replica.lists, replica.lists.levels, replica.lists.orders
    ensures b.Valid() && b.State() == Process(old(b.State()), r).next
    ensures replica.Valid() && replica.book == PublicBook(b.book)
  {
    ghost var before, out := b.State(), Process(b.State(), r);
    ProcessReplays(before, r);
    var updates := ServeBeside(b, replica, r);
    assert b.State() == out.next && replica.book == PublicBook(before.book);
    FollowBeside(replica, b, updates);
    assert b.State() == out.next && replica.book == PublicBook(out.next.book);
  }
}

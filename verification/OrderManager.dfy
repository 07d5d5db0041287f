/** One order per ticker and side: its states, the requests it sends and the responses it takes
    (src/include/trading_engine/order_manager.hpp, src/trading_engine/order_manager.cpp). */
module OrderManagerClass {
  import opened Types
  import opened RiskManager

  datatype OMState = Invalid | PendingNew | Live | PendingCancel | Dead

  /** OMOrder; its ticker and side are those of its place in the table. */
  datatype OMOrder = OMOrder(orderId: nat, price: int, qty: nat, state: OMState)

  const NO_ORDER := OMOrder(ORDER_ID_INVALID, PRICE_INVALID, QTY_INVALID, OMState.Invalid)

  /** OnOrderUpdate on the order of the response's ticker and side. */
  function OnUpdate(o: OMOrder, r: ClientResponse): OMOrder {
    match r.kind
    case Accepted => o.(state := Live)
    case Canceled => o.(state := Dead)
    case Filled => o.(qty := r.leavesQty, state := if r.leavesQty == 0 then Dead else o.state)
    case CancelRejected => o
  }

  datatype Moved = Moved(order: OMOrder, requests: seq<ClientRequest>, nextId: nat)

  function NewRequest(client: nat, ticker: nat, s: Side, o: OMOrder): ClientRequest {
    ClientRequest(New, client, ticker, o.orderId, s, o.price, o.qty)
  }

  /** MoveOrder: a live order at another price is cancelled, a finished one is replaced if the risk check allows. */
  function Move(o: OMOrder, client: nat, ticker: nat, s: Side, price: int, qty: nat, nextId: nat,
                risk: RiskCheckResult): Moved {
    match o.state
    case Live =>
      if o.price != price then
        Moved(o.(state := PendingCancel), [NewRequest(client, ticker, s, o).(kind := CancelOrder)], nextId)
      else Moved(o, [], nextId)
    case PendingNew => Moved(o, [], nextId)
    case PendingCancel => Moved(o, [], nextId)
    case _ =>
      if price != PRICE_INVALID && risk == Allowed then Placed(client, ticker, s, price, qty, nextId)
      else Moved(o, [], nextId)
  }

  function Placed(client: nat, ticker: nat, s: Side, price: int, qty: nat, nextId: nat): Moved {
    var o := OMOrder(nextId, price, qty, PendingNew);
    Moved(o, [NewRequest(client, ticker, s, o)], nextId + 1)
  }

  /** What a response does to the order it is for. */
  lemma ResponseDecides(o: OMOrder, r: ClientResponse)
    ensures r.kind == Accepted ==> OnUpdate(o, r) == OMOrder(o.orderId, o.price, o.qty, Live)
    ensures r.kind == Canceled ==> OnUpdate(o, r) == OMOrder(o.orderId, o.price, o.qty, Dead)
    ensures r.kind == Filled && r.leavesQty > 0 ==> OnUpdate(o, r) == OMOrder(o.orderId, o.price, r.leavesQty, o.state)
    ensures r.kind == Filled && r.leavesQty == 0 ==> OnUpdate(o, r) == OMOrder(o.orderId, o.price, 0, Dead)
    ensures r.kind == CancelRejected ==> OnUpdate(o, r) == o
  {
  }

  predicate IsPending(o: OMOrder) {
    o.state == PendingNew || o.state == PendingCancel
  }

  predicate IsFinished(o: OMOrder) {
    o.state == OMState.Invalid || o.state == Dead
  }

  /** What a move of the order to a price does: a live order at another price is cancelled, one at that price or one
      that waits for an answer is left alone, a finished one is replaced at a valid price if the check allows. */
  lemma MoveDecides(o: OMOrder, client: nat, ticker: nat, s: Side, price: int, qty: nat, nextId: nat, risk: RiskCheckResult, m: Moved)
    requires m == Move(o, client, ticker, s, price, qty, nextId, risk)
    ensures o.state == Live && o.price != price ==>
              && m.order == OMOrder(o.orderId, o.price, o.qty, PendingCancel) && m.nextId == nextId
              && m.requests == [ClientRequest(RequestType.CancelOrder, client, ticker, o.orderId, s, o.price, o.qty)]
    ensures IsPending(o) || (o.state == Live && o.price == price) ==> m == Moved(o, [], nextId)
    ensures IsFinished(o) && price != PRICE_INVALID && risk == Allowed ==>
              && m.order == OMOrder(nextId, price, qty, PendingNew) && m.nextId == nextId + 1
              && m.requests == [ClientRequest(New, client, ticker, nextId, s, price, qty)]
    ensures IsFinished(o) && (price == PRICE_INVALID || risk != Allowed) ==> m == Moved(o, [], nextId)
  {
  }

  class OrderManager {
    const client: nat
    const risks: seq<RiskCfg>
    var orders: seq<PerSide<OMOrder>>
    var nextOrderId: nat
    /** What has been sent to the order gateway. */
    var sent: seq<ClientRequest>

    ghost predicate Valid()
      reads this
    {
      && |orders| == |risks| == MAX_TICKERS
      && forall t :: 0 <= t < |risks| ==> risks[t].maxPosition < TWO_32
    }

    constructor (client: nat, risks: seq<RiskCfg>)
      requires |risks| == MAX_TICKERS && forall t :: 0 <= t < |risks| ==> risks[t].maxPosition < TWO_32
      ensures Valid() && this.client == client && this.risks == risks && nextOrderId == 1 && sent == []
      ensures orders == seq(MAX_TICKERS, _ => PerSide(NO_ORDER, NO_ORDER))
    {
      this.client, this.risks := client, risks;
      orders := seq(MAX_TICKERS, _ => PerSide(NO_ORDER, NO_ORDER));
      nextOrderId, sent := 1, [];
    }

    /** A response changes the order of its ticker and side; one without a side changes neither. */
    method OnOrderUpdate(r: ClientResponse)
      requires Valid() && r.ticker < MAX_TICKERS && (r.side == None ==> r.kind == CancelRejected)
      modifies this`orders
      ensures Valid()
      ensures r.side == None ==> orders == old(orders)
      ensures r.side != None ==> var s, t := r.side.value, r.ticker;
              orders == old(orders)[t := old(orders)[t].With(s, OnUpdate(old(orders)[t].Of(s), r))]
    {
      if r.side.Some? {
        var order := orders[r.ticker].Of(r.side.value);
        match r.kind {
          case Accepted => order := order.(state := Live);
          case Canceled => order := order.(state := Dead);
          case Filled =>
            order := order.(qty := r.leavesQty);
            if order.qty == 0 {
              order := order.(state := Dead);
            }
          case CancelRejected =>
        }
        orders := orders[r.ticker := orders[r.ticker].With(r.side.value, order)];
      }
    }

    method NewOrder(ticker: nat, price: int, side: Side, qty: nat)
      requires Valid() && ticker < MAX_TICKERS
      modifies this
      ensures Valid()
      ensures var m := Placed(client, ticker, side, price, qty, old(nextOrderId));
              && orders == old(orders)[ticker := old(orders)[ticker].With(side, m.order)]
              && sent == old(sent) + m.requests && nextOrderId == m.nextId
    {
      sent := sent + [ClientRequest(New, client, ticker, nextOrderId, side, price, qty)];
      orders := orders[ticker := orders[ticker].With(side, OMOrder(nextOrderId, price, qty, PendingNew))];
      nextOrderId := nextOrderId + 1;
    }

    method CancelOrder(ticker: nat, side: Side)
      requires Valid() && ticker < MAX_TICKERS
      modifies this`orders, this`sent
      ensures Valid()
      ensures orders == old(orders)[ticker := old(orders)[ticker].With(side, old(orders)[ticker].Of(side).(state := PendingCancel))]
      ensures sent == old(sent) + [NewRequest(client, ticker, side, old(orders)[ticker].Of(side)).(kind := RequestType.CancelOrder)]
    {
      var order := orders[ticker].Of(side);
      sent := sent + [ClientRequest(RequestType.CancelOrder, client, ticker, order.orderId, side, order.price, order.qty)];
      orders := orders[ticker := orders[ticker].With(side, order.(state := PendingCancel))];
    }

    ghost predicate Unmoved(orders: seq<PerSide<OMOrder>>, sent: seq<ClientRequest>, nextOrderId: nat)
      reads this
    {
      this.orders == orders && this.sent == sent && this.nextOrderId == nextOrderId
    }

    /** The order of a ticker and side moves to a price; no other order changes. */
    method MoveOrder(ticker: nat, price: int, side: Side, qty: nat, position: int, totalPnl: real)
      requires Valid() && ticker < MAX_TICKERS && qty < TWO_32
      modifies this
      ensures Valid()
      ensures orders == old(orders)[ticker := old(orders)[ticker].With(side, orders[ticker].Of(side))]
      ensures var was := old(orders)[ticker].Of(side);
              && (was.state == Live && was.price != price ==>
                    && orders[ticker].Of(side) == was.(state := PendingCancel) && nextOrderId == old(nextOrderId)
                    && sent == old(sent)
                               + [ClientRequest(RequestType.CancelOrder, client, ticker, was.orderId, side, was.price, was.qty)])
              && (IsPending(was) || (was.state == Live && was.price == price) ==> Unmoved(old(orders), old(sent), old(nextOrderId)))
              && (IsFinished(was) ==>
                    if price != PRICE_INVALID && CheckPreTradeRisk(risks[ticker], position, totalPnl, side, qty) == Allowed then
                      && orders[ticker].Of(side) == OMOrder(old(nextOrderId), price, qty, PendingNew)
                      && sent == old(sent) + [ClientRequest(New, client, ticker, old(nextOrderId), side, price, qty)]
                      && nextOrderId == old(nextOrderId) + 1
                    else Unmoved(old(orders), old(sent), old(nextOrderId)))
      ensures var m := Move(old(orders)[ticker].Of(side), client, ticker, side, price, qty, old(nextOrderId),
                            CheckPreTradeRisk(risks[ticker], position, totalPnl, side, qty));
              && orders == old(orders)[ticker := old(orders)[ticker].With(side, m.order)]
              && sent == old(sent) + m.requests && nextOrderId == m.nextId
    {
      var order := orders[ticker].Of(side);
      SameSlot(orders, ticker, side);
      match order.state {
        case Live =>
          if order.price != price {
            CancelOrder(ticker, side);
          }
        case PendingNew =>
        case PendingCancel =>
        case _ =>
          if price != PRICE_INVALID {
            var result := CheckPreTradeRisk(risks[ticker], position, totalPnl, side, qty);
            if result == Allowed {
              NewOrder(ticker, price, side, qty);
            }
          }
      }
    }

    static lemma SameSlot(table: seq<PerSide<OMOrder>>, ticker: nat, side: Side)
      requires ticker < |table|
      ensures table[ticker := table[ticker].With(side, table[ticker].Of(side))] == table
    {
    }

    /** The bid first, then the ask, both against the position known now. */
    method MoveOrders(ticker: nat, bidPrice: int, askPrice: int, clip: nat, position: int, totalPnl: real)
      requires Valid() && ticker < MAX_TICKERS && clip < TWO_32
      modifies this
      ensures Valid()
      ensures var cfg := risks[ticker];
              var b := Move(old(orders)[ticker].buy, client, ticker, Buy, bidPrice, clip, old(nextOrderId),
                            CheckPreTradeRisk(cfg, position, totalPnl, Buy, clip));
              var a := Move(old(orders)[ticker].sell, client, ticker, Sell, askPrice, clip, b.nextId,
                            CheckPreTradeRisk(cfg, position, totalPnl, Sell, clip));
              && orders == old(orders)[ticker := PerSide(b.order, a.order)]
              && sent == old(sent) + b.requests + a.requests && nextOrderId == a.nextId
      ensures forall s :: var was, now := old(orders)[ticker].Of(s), orders[ticker].Of(s);
                          var price := if s == Buy then bidPrice else askPrice;
                          var allowed := CheckPreTradeRisk(risks[ticker], position, totalPnl, s, clip) == Allowed;
                          && (now.state == Live <==> was.state == Live && was.price == price)
                          && (was.state == Live && was.price != price ==> now == was.(state := PendingCancel))
                          && (IsPending(was) || (was.state == Live && was.price == price) ==> now == was)
                          && (IsFinished(was) ==>
                                if price != PRICE_INVALID && allowed
                                then now.state == PendingNew && now.price == price && now.qty == clip
                                     && old(nextOrderId) <= now.orderId < nextOrderId
                                else now == was)
    {
      MoveOrder(ticker, bidPrice, Buy, clip, position, totalPnl);
      MoveOrder(ticker, askPrice, Sell, clip, position, totalPnl);
    }
  }
}

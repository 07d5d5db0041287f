/** What the client's moves come to over whole runs: which orders are left live, which new orders may be on their way,
    and how an order gets from one price to another. */
module TradingMoves {
  import opened Types
  import opened PositionKeeper
  import opened RiskManager
  import opened OrderManagerClass
  import opened TradingSystem
  import opened TradingLimits

  /** The check as its configuration promises it, on an order of `qty` at position `p` and total profit `pnl`. */
  predicate WithinAll(cfg: RiskCfg, p: int, pnl: real, s: Side, qty: nat) {
    qty <= cfg.maxOrderSize && Abs(p + SideValue(s) * qty) <= cfg.maxPosition && pnl >= cfg.maxLoss
  }

  lemma {:induction false} AllowedIsWithin(c: Setup, o: System, t: nat, s: Side, qty: nat, pnl: real)
    requires SafeSetup(c) && Inv(c, o) && t < |o.desks|
    ensures CheckPreTradeRisk(c.risks[t], o.positions[t], pnl, s, qty) == Allowed
            <==> c.risks[t].maxPosition < TWO_31 && WithinAll(c.risks[t], o.positions[t], pnl, s, qty)
  {
    assert LimitOk(c, o, t);
    RefusedForTheFirst(c.risks[t], o.positions[t], pnl, s, qty);
  }

  /** Only slot `t`, `s` and the requests change, by the requests `sent`. */
  ghost predicate OnlySlot(o: System, o': System, t: nat, s: Side, n: OMOrder, sent: multiset<ClientRequest>) {
    t < |o.desks|
    && o' == o.(desks := o.desks[t := o.desks[t].With(s, n)], requests := o.requests + sent, nextId := o'.nextId)
  }

  /** A move over a whole run: the order it is for is cancelled if it is live at another price, replaced if it is
      finished, the price is valid and the check's three limits allow, and left alone in every other case. */
  lemma {:induction false} MoveOutcome(c: Setup, es: seq<Event>, o: System, e: Event, o': System)
    requires SafeSetup(c) && Run(c, es) == Some(o) && Enabled(c, o, e) && e.MoveOrder? && o' == Step(c, o, e)
    ensures var was := o.desks[e.ticker].Of(e.side);
            var cfg := c.risks[e.ticker];
            if was.state == Live && was.price != e.price then
              && o'.nextId == o.nextId
              && OnlySlot(o, o', e.ticker, e.side, OMOrder(was.orderId, was.price, was.qty, PendingCancel), multiset{ClientRequest(
                   RequestType.CancelOrder, c.client, e.ticker, was.orderId, e.side, was.price, was.qty)})
            else if !IsWorking(was) && e.price != PRICE_INVALID && cfg.maxPosition < TWO_31
                    && WithinAll(cfg, o.positions[e.ticker], e.totalPnl, e.side, e.qty) then
              && o'.nextId == o.nextId + 1
              && OnlySlot(o, o', e.ticker, e.side, OMOrder(o.nextId, e.price, e.qty, PendingNew), multiset{ClientRequest(
                   New, c.client, e.ticker, o.nextId, e.side, e.price, e.qty)})
            else o' == o
    ensures o'.desks[e.ticker].Of(e.side).state == Live ==> o'.desks[e.ticker].Of(e.side).price == e.price
  {
    RunKeeps(c, es, o);
    AllowedIsWithin(c, o, e.ticker, e.side, e.qty, e.totalPnl);
    MoveCases(c, o, e, o');
  }

  // ---------------------------------------------------------------- what is on its way

  /** Every NEW on its way to the exchange was sent by a move to its price and quantity that kept all three limits at
      the time: never while the total profit was below the configured one. */
  lemma {:induction false} NewWasChecked(c: Setup, es: seq<Event>, o: System, r: ClientRequest) returns (k: nat, before: System)
    requires SafeSetup(c) && Run(c, es) == Some(o) && r in o.requests && r.kind == New
    ensures k < |es| && Run(c, es[..k]) == Some(before) && r.ticker < |c.risks| && r.ticker < |before.positions|
    ensures es[k].MoveOrder? && es[k] == MoveOrder(r.ticker, r.side, r.price, r.qty, es[k].totalPnl)
    ensures WithinAll(c.risks[r.ticker], before.positions[r.ticker], es[k].totalPnl, r.side, r.qty)
    ensures r.client == c.client && r.orderId == before.nextId && r.price != PRICE_INVALID
  {
    var m := |es| - 1;
    before := Run(c, es[..m]).value;
    if r in before.requests {
      k, before := NewWasChecked(c, es[..m], before, r);
      assert es[..m][..k] == es[..k];
    } else {
      k := m;
      MoveOutcome(c, es[..m], before, es[m], o);
    }
  }

  // ---------------------------------------------------------------- from one price to another

  /** A live order at another price: the move cancels it, the exchange gives it back, and the slot is finished. */
  lemma {:induction false} Withdrawing(c: Setup, es: seq<Event>, o: System, t: nat, s: Side, e: Event) returns (es': seq<Event>, o': System)
    requires SafeSetup(c) && Run(c, es) == Some(o) && o.responses == [] && Enabled(c, o, e)
    requires e.MoveOrder? && e.ticker == t && e.side == s && t < |o.desks|
    requires var was := o.desks[t].Of(s); was.state == Live && was.price != e.price && 0 < was.qty
    ensures var was := o.desks[t].Of(s);
            && Run(c, es') == Some(o') && was.orderId in o.live
            && o' == o.(desks := o.desks[t := o.desks[t].With(s, was.(state := Dead))], live := o.live - {was.orderId})
  {
    var was := o.desks[t].Of(s);
    var r := ClientRequest(RequestType.CancelOrder, c.client, t, was.orderId, s, was.price, was.qty);
    LiveIsHeld(c, es, o, t, s);
    RunKeeps(c, es, o);
    OneHolder(c, o, t, s);
    MoveOutcome(c, es, o, e, Step(c, o, e));
    var sent := Step(c, o, e);
    RunLast(c, es, o, e);
    var back := Step(c, sent, Withdraw(r, 0, 0));
    RunLast(c, es + [e], sent, Withdraw(r, 0, 0));
    assert back.requests == o.requests;
    RunLast(c, es + [e] + [Withdraw(r, 0, 0)], back, Deliver);
    es', o' := es + [e] + [Withdraw(r, 0, 0)] + [Deliver], Step(c, back, Deliver);
    assert o'.responses == [];
  }

  /** A finished slot: the move sends a NEW, the exchange accepts it, and it is live at its price. */
  lemma {:induction false} Replacing(c: Setup, es: seq<Event>, o: System, t: nat, s: Side, e: Event) returns (es': seq<Event>, o': System)
    requires SafeSetup(c) && Run(c, es) == Some(o) && o.responses == [] && Enabled(c, o, e)
    requires e.MoveOrder? && e.ticker == t && e.side == s && t < |o.desks| && !IsWorking(o.desks[t].Of(s))
    requires e.price != PRICE_INVALID && 0 < e.qty && c.risks[t].maxPosition < TWO_31
    requires WithinAll(c.risks[t], o.positions[t], e.totalPnl, s, e.qty)
    ensures Run(c, es') == Some(o')
    ensures o' == o.(desks := o.desks[t := o.desks[t].With(s, OMOrder(o.nextId, e.price, e.qty, Live))],
                     live := o.live[o.nextId := Resting(t, s, e.qty)], nextId := o.nextId + 1)
  {
    var r := ClientRequest(New, c.client, t, o.nextId, s, e.price, e.qty);
    MoveOutcome(c, es, o, e, Step(c, o, e));
    var sent := Step(c, o, e);
    RunLast(c, es, o, e);
    var accepted := Step(c, sent, Accept(r, 0));
    RunLast(c, es + [e], sent, Accept(r, 0));
    assert accepted.requests == o.requests;
    RunLast(c, es + [e] + [Accept(r, 0)], accepted, Deliver);
    es', o' := es + [e] + [Accept(r, 0)] + [Deliver], Step(c, accepted, Deliver);
    assert o'.responses == [];
  }

  /** Repricing: two moves to a price, each followed by the exchange's answer, take a live order to that price, and
      nothing else changes. */
  lemma {:induction false} Repricing(c: Setup, es: seq<Event>, o: System, t: nat, s: Side, e: Event) returns (es': seq<Event>, o': System)
    requires SafeSetup(c) && Run(c, es) == Some(o) && o.responses == [] && Enabled(c, o, e)
    requires e.MoveOrder? && e.ticker == t && e.side == s && t < |o.desks|
    requires var was := o.desks[t].Of(s); was.state == Live && was.price != e.price && 0 < was.qty
    requires e.price != PRICE_INVALID && 0 < e.qty && c.risks[t].maxPosition < TWO_31
    requires WithinAll(c.risks[t], o.positions[t], e.totalPnl, s, e.qty)
    ensures Run(c, es') == Some(o')
    ensures o' == o.(desks := o.desks[t := o.desks[t].With(s, OMOrder(o.nextId, e.price, e.qty, Live))],
                     live := (o.live - {o.desks[t].Of(s).orderId})[o.nextId := Resting(t, s, e.qty)], nextId := o.nextId + 1)
  {
    var mid;
    es', mid := Withdrawing(c, es, o, t, s, e);
    es', o' := Replacing(c, es', mid, t, s, e);
    assert o'.desks == o.desks[t := o.desks[t].With(s, OMOrder(o.nextId, e.price, e.qty, Live))];
  }
}

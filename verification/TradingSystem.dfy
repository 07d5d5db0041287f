/** One trading client against the exchange over queues: requests may be served in any order, responses come back
    first in first out, and the exchange may execute any live order at any time. */
module TradingSystem {
  import opened Types
  import opened PositionKeeper
  import opened RiskManager
  import opened OrderManagerClass
  import ExchangeModel

  /** What is left of an order the exchange holds. */
  datatype Resting = Resting(ticker: nat, side: Side, leaves: nat)

  datatype Setup = Setup(client: nat, risks: seq<RiskCfg>)

  datatype System = System(
    desks: seq<PerSide<OMOrder>>, positions: seq<int>, nextId: nat,
    requests: multiset<ClientRequest>, responses: seq<ClientResponse>,
    live: map<nat, Resting>, truth: seq<int>)

  datatype Event =
    | MoveOrder(ticker: nat, side: Side, price: int, qty: nat, totalPnl: real)
    | Deliver
    | Accept(request: ClientRequest, marketOid: nat)
    | Execute(id: nat, qty: nat, price: int, marketOid: nat)
    | Withdraw(request: ClientRequest, price: int, marketOid: nat)

  // ---------------------------------------------------------------- responses in flight

  /** The responses for one ticker and side. */
  function Mine(rs: seq<ClientResponse>, t: nat, s: Side): seq<ClientResponse> {
    if rs == [] then []
    else (if rs[0].ticker == t && rs[0].side == Some(s) then [rs[0]] else []) + Mine(rs[1..], t, s)
  }

  lemma {:induction false} MineLast(rs: seq<ClientResponse>, r: ClientResponse, t: nat, s: Side)
    ensures Mine(rs + [r], t, s) == if r.ticker == t && r.side == Some(s) then Mine(rs, t, s) + [r] else Mine(rs, t, s)
  {
    if rs == [] {
      assert rs + [r] == [r] && [r][1..] == [];
    } else {
      assert (rs + [r])[1..] == rs[1..] + [r];
      MineLast(rs[1..], r, t, s);
    }
  }

  lemma {:induction false} MineFirst(rs: seq<ClientResponse>, t: nat, s: Side)
    requires rs != []
    ensures if rs[0].ticker == t && rs[0].side == Some(s)
            then Mine(rs, t, s) != [] && Mine(rs, t, s)[0] == rs[0] && Mine(rs, t, s)[1..] == Mine(rs[1..], t, s)
            else Mine(rs, t, s) == Mine(rs[1..], t, s)
  {
  }

  /** Quantity executed by the fills in flight. */
  function Executed(rs: seq<ClientResponse>): nat {
    if rs == [] then 0 else (if rs[0].kind == Filled then rs[0].execQty else 0) + Executed(rs[1..])
  }

  /** Quantity given back by a CANCELED in flight. */
  function Returned(rs: seq<ClientResponse>): nat {
    if rs == [] then 0 else (if rs[0].kind == Canceled then rs[0].leavesQty else 0) + Returned(rs[1..])
  }

  /** From a tracked quantity, fills that each take what they say, then what the exchange still holds or, after
      a CANCELED for all of it, nothing. */
  predicate Chain(qty: nat, rs: seq<ClientResponse>, leaves: nat) {
    if rs == [] then qty == leaves
    else match rs[0].kind
      case Filled =>
        && 0 < rs[0].execQty <= qty && rs[0].leavesQty == qty - rs[0].execQty
        && (rs[0].leavesQty == 0 ==> |rs| == 1) && Chain(qty - rs[0].execQty, rs[1..], leaves)
      case Canceled => rs[0].leavesQty == qty && |rs| == 1 && leaves == 0
      case _ => false
  }

  /** The tracked quantity is what the exchange holds, what is being filled and what is being given back. */
  lemma {:induction false} ChainBalances(qty: nat, rs: seq<ClientResponse>, leaves: nat)
    requires Chain(qty, rs, leaves)
    ensures qty == leaves + Executed(rs) + Returned(rs)
  {
    if rs != [] && rs[0].kind == Filled {
      ChainBalances(qty - rs[0].execQty, rs[1..], leaves);
    }
  }

  lemma {:induction false} ChainFills(qty: nat, rs: seq<ClientResponse>, leaves: nat, r: ClientResponse)
    requires Chain(qty, rs, leaves) && r.kind == Filled && 0 < r.execQty <= leaves && r.leavesQty == leaves - r.execQty
    ensures Chain(qty, rs + [r], leaves - r.execQty)
  {
    if rs == [] {
      assert rs + [r] == [r] && [r][1..] == [];
    } else {
      assert (rs + [r])[1..] == rs[1..] + [r];
      ChainFills(qty - rs[0].execQty, rs[1..], leaves, r);
    }
  }

  lemma {:induction false} ChainCancels(qty: nat, rs: seq<ClientResponse>, leaves: nat, r: ClientResponse)
    requires Chain(qty, rs, leaves) && 0 < leaves && r.kind == Canceled && r.leavesQty == leaves
    ensures Chain(qty, rs + [r], 0)
  {
    if rs == [] {
      assert rs + [r] == [r];
    } else {
      assert (rs + [r])[1..] == rs[1..] + [r];
      ChainCancels(qty - rs[0].execQty, rs[1..], leaves, r);
    }
  }

  lemma {:induction false} ExecutedOfParts(rs: seq<ClientResponse>, r: ClientResponse)
    ensures Executed(rs + [r]) == Executed(rs) + if r.kind == Filled then r.execQty else 0
  {
    if rs == [] {
      assert rs + [r] == [r] && [r][1..] == [];
    } else {
      assert (rs + [r])[1..] == rs[1..] + [r];
      ExecutedOfParts(rs[1..], r);
    }
  }

  lemma {:induction false} InFlight(rs: seq<ClientResponse>, r: ClientResponse, t: nat, s: Side)
    ensures Executed(Mine(rs + [r], t, s))
            == Executed(Mine(rs, t, s)) + if r.ticker == t && r.side == Some(s) && r.kind == Filled then r.execQty else 0
  {
    MineLast(rs, r, t, s);
    ExecutedOfParts(Mine(rs, t, s), r);
  }

  // ---------------------------------------------------------------- what the exchange's matching sends

  /** The responses of a sweep that go to its aggressor. */
  function ToTaker(t: ExchangeModel.Taker, fills: seq<ExchangeModel.Fill>): seq<ClientResponse> {
    if fills == [] then [] else [ExchangeModel.FillResponses(t, fills[0])[0]] + ToTaker(t, fills[1..])
  }

  /** The fills of a new order, as its owner is told of them, are executions of the order one after the other. */
  lemma {:induction false} SweepIsChain(t: ExchangeModel.Taker, price: int, qty: nat, opp: seq<ExchangeModel.ExchangeOrder>)
    requires forall x :: x in opp ==> 0 < x.qty
    ensures var r := ExchangeModel.Sweep(t.side, price, qty, opp);
            Chain(qty, ToTaker(t, r.fills), r.leaves)
  {
    var r := ExchangeModel.Sweep(t.side, price, qty, opp);
    if r.fills != [] {
      assert opp[0] in opp;
      var f := r.fills[0];
      assert ToTaker(t, r.fills)[1..] == ToTaker(t, r.fills[1..]);
      if qty < opp[0].qty {
        assert r.fills[1..] == [];
      } else {
        var left := qty - opp[0].qty;
        SweepIsChain(t, price, left, opp[1..]);
        assert r.fills[1..] == ExchangeModel.Sweep(t.side, price, left, opp[1..]).fills;
      }
    }
  }

  /** Every fill of a sweep is an execution of the resting order it hits, as that order's owner is told of it. */
  lemma {:induction false} SweepExecutes(t: ExchangeModel.Taker, price: int, qty: nat, opp: seq<ExchangeModel.ExchangeOrder>, i: nat)
    requires (forall x :: x in opp ==> 0 < x.qty) && i < |ExchangeModel.Sweep(t.side, price, qty, opp).fills|
    ensures var f := ExchangeModel.Sweep(t.side, price, qty, opp).fills[i];
            && i < |opp| && f.resting == opp[i] && 0 < f.qty <= f.resting.qty
            && ExchangeModel.FillResponses(t, f)[1].leavesQty == f.resting.qty - f.qty
  {
    assert opp[0] in opp;
    if i > 0 {
      SweepExecutes(t, price, qty - opp[0].qty, opp[1..], i - 1);
    }
  }

  // ---------------------------------------------------------------- one order slot

  predicate IsWorking(o: OMOrder) {
    o.state == PendingNew || o.state == Live || o.state == PendingCancel
  }

  /** Quantity the client counts as outstanding. */
  function Outstanding(o: OMOrder): nat {
    if IsWorking(o) then o.qty else 0
  }

  /** Client, channels and exchange agree on one slot: `mine` are its responses in flight, `queued` whether its
      NEW is, `leaves` what the exchange holds of it. */
  predicate Agree(o: OMOrder, mine: seq<ClientResponse>, queued: bool, leaves: nat) {
    if !IsWorking(o) then mine == [] && !queued && leaves == 0
    else if o.state == PendingNew then
      if queued then mine == [] && leaves == 0
      else mine != [] && mine[0].kind == Accepted && Chain(o.qty, mine[1..], leaves)
    else !queued && Chain(o.qty, mine, leaves)
  }

  /** Taking the next response keeps the slot in agreement, and a fill's quantity moves from outstanding to
      the position. */
  lemma DeliverAgrees(o: OMOrder, mine: seq<ClientResponse>, queued: bool, leaves: nat)
    requires mine != [] && Agree(o, mine, queued, leaves)
    ensures Agree(OnUpdate(o, mine[0]), mine[1..], queued, leaves)
    ensures IsWorking(o) && !queued && mine[0].kind != CancelRejected && OnUpdate(o, mine[0]).orderId == o.orderId
    ensures mine[0].kind == Filled ==>
              mine[0].execQty <= Outstanding(o) && Outstanding(OnUpdate(o, mine[0])) == Outstanding(o) - mine[0].execQty
    ensures mine[0].kind != Filled ==> Outstanding(OnUpdate(o, mine[0])) <= Outstanding(o)
  {
    assert |mine| == 1 ==> mine[1..] == [];
    assert mine[0].kind == Filled ==> Chain(o.qty - mine[0].execQty, mine[1..], leaves);
  }

  lemma FillAgrees(o: OMOrder, mine: seq<ClientResponse>, queued: bool, leaves: nat, a: ClientResponse)
    requires Agree(o, mine, queued, leaves) && a.kind == Filled && 0 < a.execQty <= leaves && a.leavesQty == leaves - a.execQty
    ensures Agree(o, mine + [a], queued, leaves - a.execQty)
  {
    if o.state == PendingNew {
      ChainFills(o.qty, mine[1..], leaves, a);
      assert (mine + [a])[1..] == mine[1..] + [a];
    } else {
      ChainFills(o.qty, mine, leaves, a);
    }
  }

  lemma CancelAgrees(o: OMOrder, mine: seq<ClientResponse>, queued: bool, leaves: nat, a: ClientResponse)
    requires Agree(o, mine, queued, leaves) && 0 < leaves && a.kind == Canceled && a.leavesQty == leaves
    ensures Agree(o, mine + [a], queued, 0)
  {
    if o.state == PendingNew {
      ChainCancels(o.qty, mine[1..], leaves, a);
      assert (mine + [a])[1..] == mine[1..] + [a];
    } else {
      ChainCancels(o.qty, mine, leaves, a);
    }
  }

  // ---------------------------------------------------------------- steps

  function Take(o: System, r: ClientResponse): System
    requires r.ticker < |o.desks| == |o.positions|
  {
    if r.side == None then o
    else
      var t, s := r.ticker, r.side.value;
      o.(positions := if r.kind == Filled then o.positions[t := o.positions[t] + SideValue(s) * r.execQty] else o.positions,
         desks := o.desks[t := o.desks[t].With(s, OnUpdate(o.desks[t].Of(s), r))])
  }

  predicate Enabled(c: Setup, o: System, e: Event) {
    && |o.desks| == |o.positions| == |o.truth| == |c.risks|
    && match e
       case MoveOrder(t, _, _, qty, _) => t < |o.desks| && qty < TWO_32
       case Deliver => o.responses != [] && o.responses[0].ticker < |o.desks|
       case Accept(r, _) => r in o.requests && r.kind == New
       case Execute(id, qty, _, _) => id in o.live && 0 < qty <= o.live[id].leaves && o.live[id].ticker < |o.desks|
       case Withdraw(r, _, _) => r in o.requests && r.kind == CancelOrder
  }

  function Step(c: Setup, o: System, e: Event): System
    requires Enabled(c, o, e)
  {
    match e
    case MoveOrder(t, s, price, qty, pnl) =>
      var risk := CheckPreTradeRisk(c.risks[t], o.positions[t], pnl, s, qty);
      var m := Move(o.desks[t].Of(s), c.client, t, s, price, qty, o.nextId, risk);
      o.(desks := o.desks[t := o.desks[t].With(s, m.order)], nextId := m.nextId,
         requests := o.requests + multiset(m.requests))
    case Deliver =>
      Take(o, o.responses[0]).(responses := o.responses[1..])
    case Accept(r, moid) =>
      o.(requests := o.requests - multiset{r},
         responses := o.responses + [ClientResponse(Accepted, r.client, r.ticker, r.orderId, moid, Some(r.side), r.price, 0,
                                                    r.qty)],
         live := if r.qty == 0 then o.live else o.live[r.orderId := Resting(r.ticker, r.side, r.qty)])
    case Execute(id, qty, price, moid) =>
      var w := o.live[id];
      var left := w.leaves - qty;
      o.(responses := o.responses + [ClientResponse(Filled, c.client, w.ticker, id, moid, Some(w.side), price, qty, left)],
         live := if left == 0 then o.live - {id} else o.live[id := w.(leaves := left)],
         truth := o.truth[w.ticker := o.truth[w.ticker] + SideValue(w.side) * qty])
    case Withdraw(r, price, moid) =>
      if r.orderId in o.live && o.live[r.orderId].ticker == r.ticker then
        var w := o.live[r.orderId];
        o.(requests := o.requests - multiset{r},
           responses := o.responses + [ClientResponse(Canceled, r.client, r.ticker, r.orderId, moid, Some(w.side), price,
                                                      QTY_INVALID, w.leaves)],
           live := o.live - {r.orderId})
      else
        o.(requests := o.requests - multiset{r},
           responses := o.responses + [ClientResponse(CancelRejected, r.client, r.ticker, r.orderId, ORDER_ID_INVALID, None,
                                                      PRICE_INVALID, QTY_INVALID, QTY_INVALID)])
  }

  // ---------------------------------------------------------------- the invariant

  function Leaves(o: System, t: nat, s: Side): nat
    requires t < |o.desks|
  {
    var id := o.desks[t].Of(s).orderId;
    if id in o.live && o.live[id].ticker == t && o.live[id].side == s then o.live[id].leaves else 0
  }

  predicate Queued(c: Setup, o: System, t: nat, s: Side)
    requires t < |o.desks|
  {
    NewRequest(c.client, t, s, o.desks[t].Of(s)) in o.requests
  }

  ghost predicate SlotOk(c: Setup, o: System, t: nat, s: Side) {
    && t < |o.desks|
    && Agree(o.desks[t].Of(s), Mine(o.responses, t, s), Queued(c, o, t, s), Leaves(o, t, s))
    && (IsWorking(o.desks[t].Of(s)) ==> o.desks[t].Of(s).orderId < o.nextId)
  }

  /** No two outstanding orders share an id. */
  ghost predicate Apart(o: System, t: nat, s: Side, t': nat, s': Side) {
    && t < |o.desks| && t' < |o.desks|
    && (IsWorking(o.desks[t].Of(s)) && IsWorking(o.desks[t'].Of(s')) && o.desks[t].Of(s).orderId == o.desks[t'].Of(s').orderId
        ==> t == t' && s == s')
  }

  /** A request in flight is a cancel, or the one NEW of a slot that waits for it. */
  ghost predicate RequestOk(c: Setup, o: System, r: ClientRequest) {
    && r.ticker < |o.desks|
    && (r.kind == New ==>
          && o.desks[r.ticker].Of(r.side).state == PendingNew && o.requests[r] == 1
          && r == NewRequest(c.client, r.ticker, r.side, o.desks[r.ticker].Of(r.side)))
  }

  /** What the exchange holds is the order of its slot. */
  ghost predicate LiveOk(o: System, id: nat) {
    id in o.live && o.live[id].ticker < |o.desks| && 0 < o.live[id].leaves
    && o.desks[o.live[id].ticker].Of(o.live[id].side).orderId == id
  }

  ghost predicate ResponseOk(o: System, r: ClientResponse) {
    r.ticker < |o.desks| && (r.side == None ==> r.kind == CancelRejected)
  }

  /** Position and outstanding quantity stay within the limit on either side, and the true position differs from
      the known one by the fills in flight. */
  ghost predicate LimitOk(c: Setup, o: System, t: nat) {
    && t < |o.desks| && t < |o.positions| && t < |o.truth| && t < |c.risks|
    && o.positions[t] + Outstanding(o.desks[t].buy) <= Limit(c.risks[t])
    && o.positions[t] - Outstanding(o.desks[t].sell) >= -(Limit(c.risks[t]) as int)
    && o.truth[t] == o.positions[t] + Executed(Mine(o.responses, t, Buy)) - Executed(Mine(o.responses, t, Sell))
  }

  ghost predicate Inv(c: Setup, o: System) {
    && |o.desks| == |o.positions| == |o.truth| == |c.risks|
    && (forall t, s {:trigger SlotOk(c, o, t, s)} :: 0 <= t < |o.desks| ==> SlotOk(c, o, t, s))
    && (forall t, s, t', s' {:trigger Apart(o, t, s, t', s')} ::
          0 <= t < |o.desks| && 0 <= t' < |o.desks| ==> Apart(o, t, s, t', s'))
    && (forall r {:trigger RequestOk(c, o, r)} :: r in o.requests ==> RequestOk(c, o, r))
    && (forall id {:trigger LiveOk(o, id)} :: id in o.live ==> LiveOk(o, id))
    && (forall r {:trigger ResponseOk(o, r)} :: r in o.responses ==> ResponseOk(o, r))
    && (forall t {:trigger LimitOk(c, o, t)} :: 0 <= t < |o.desks| ==> LimitOk(c, o, t))
  }

  /** The configured limits fit the check's arithmetic. */
  ghost predicate SafeSetup(c: Setup) {
    forall t {:trigger c.risks[t]} :: 0 <= t < |c.risks| ==>
      InRange(c.risks[t]) && Limit(c.risks[t]) + c.risks[t].maxOrderSize < TWO_31
  }

  // ---------------------------------------------------------------- every step keeps it

  /** The slot of `t`, `s` changes to `n` and request `r` joins the queue. */
  ghost predicate Sent(o: System, o': System, t: nat, s: Side, n: OMOrder, r: ClientRequest) {
    && t < |o.desks| && o'.desks == o.desks[t := o.desks[t].With(s, n)]
    && o'.requests == o.requests + multiset{r}
    && o'.positions == o.positions && o'.responses == o.responses && o'.live == o.live && o'.truth == o.truth
  }

  ghost predicate Slots(c: Setup, o: System) {
    && (forall t, s {:trigger SlotOk(c, o, t, s)} :: 0 <= t < |o.desks| ==> SlotOk(c, o, t, s))
    && (forall t, s, t', s' {:trigger Apart(o, t, s, t', s')} ::
          0 <= t < |o.desks| && 0 <= t' < |o.desks| ==> Apart(o, t, s, t', s'))
  }

  lemma {:induction false} LiveIdsUsed(c: Setup, o: System)
    requires Inv(c, o)
    ensures forall id {:trigger id in o.live} :: id in o.live ==> id < o.nextId
  {
    forall id | id in o.live ensures id < o.nextId {
      assert LiveOk(o, id) && SlotOk(c, o, o.live[id].ticker, o.live[id].side);
    }
  }

  lemma {:induction false} NewKeepsSlots(c: Setup, o: System, o': System, t: nat, s: Side, n: OMOrder)
    requires Inv(c, o) && Sent(o, o', t, s, n, NewRequest(c.client, t, s, n)) && o'.nextId == o.nextId + 1
    requires !IsWorking(o.desks[t].Of(s)) && n.state == PendingNew && n.orderId == o.nextId
    ensures Slots(c, o')
  {
    LiveIdsUsed(c, o);
    forall u, v | 0 <= u < |o'.desks| ensures SlotOk(c, o', u, v) {
      assert SlotOk(c, o, u, v);
      if u == t && v == s {
        assert n.orderId !in o.live;
      } else if IsWorking(o.desks[u].Of(v)) {
        assert NewRequest(c.client, u, v, o.desks[u].Of(v)) != NewRequest(c.client, t, s, n);
      }
    }
    forall u, v, u', v' | 0 <= u < |o'.desks| && 0 <= u' < |o'.desks| ensures Apart(o', u, v, u', v') {
      assert Apart(o, u, v, u', v') && SlotOk(c, o, u, v) && SlotOk(c, o, u', v');
    }
  }

  lemma {:induction false} CancelKeepsSlots(c: Setup, o: System, o': System, t: nat, s: Side, n: OMOrder, r: ClientRequest)
    requires Inv(c, o) && Sent(o, o', t, s, n, r) && o'.nextId == o.nextId && r.kind == CancelOrder
    requires o.desks[t].Of(s).state == Live && n == o.desks[t].Of(s).(state := PendingCancel)
    ensures Slots(c, o')
  {
    forall u, v | 0 <= u < |o'.desks| ensures SlotOk(c, o', u, v) {
      assert SlotOk(c, o, u, v);
    }
    forall u, v, u', v' | 0 <= u < |o'.desks| && 0 <= u' < |o'.desks| ensures Apart(o', u, v, u', v') {
      assert Apart(o, u, v, u', v');
    }
  }

  lemma {:induction false} SentKeepsRequests(c: Setup, o: System, o': System, t: nat, s: Side, n: OMOrder, r: ClientRequest)
    requires Inv(c, o) && Sent(o, o', t, s, n, r) && o.desks[t].Of(s).state != PendingNew && r.ticker == t
    requires r.kind == New ==> n.state == PendingNew && r == NewRequest(c.client, t, s, n)
    ensures forall q :: q in o'.requests ==> RequestOk(c, o', q)
    ensures forall q :: q in o'.responses ==> ResponseOk(o', q)
  {
    forall q | q in o'.requests ensures RequestOk(c, o', q) {
      assert q in o.requests ==> RequestOk(c, o, q);
      assert r in o.requests ==> RequestOk(c, o, r);
    }
    forall q | q in o'.responses ensures ResponseOk(o', q) {
      assert ResponseOk(o, q);
    }
  }

  lemma {:induction false} SentKeepsLive(c: Setup, o: System, o': System, t: nat, s: Side, n: OMOrder, r: ClientRequest)
    requires Inv(c, o) && Sent(o, o', t, s, n, r)
    requires IsWorking(o.desks[t].Of(s)) ==> n.orderId == o.desks[t].Of(s).orderId
    ensures forall id :: id in o'.live ==> LiveOk(o', id)
  {
    forall id | id in o'.live ensures LiveOk(o', id) {
      assert LiveOk(o, id) && SlotOk(c, o, o.live[id].ticker, o.live[id].side);
    }
  }

  lemma {:induction false} SentKeepsLimits(c: Setup, o: System, o': System, t: nat, s: Side, n: OMOrder, r: ClientRequest)
    requires Inv(c, o) && Sent(o, o', t, s, n, r)
    requires Outstanding(n) <= Outstanding(o.desks[t].Of(s))
             || Abs(o.positions[t] + SideValue(s) * Outstanding(n)) <= Limit(c.risks[t])
    ensures forall u :: 0 <= u < |o'.desks| ==> LimitOk(c, o', u)
  {
    forall u | 0 <= u < |o'.desks| ensures LimitOk(c, o', u) {
      assert LimitOk(c, o, u);
    }
  }

  lemma {:induction false} CancelSentKeeps(c: Setup, o: System, o': System, t: nat, s: Side, n: OMOrder, r: ClientRequest)
    requires Inv(c, o) && Sent(o, o', t, s, n, r) && o'.nextId == o.nextId && r.kind == CancelOrder && r.ticker == t
    requires o.desks[t].Of(s).state == Live && n == o.desks[t].Of(s).(state := PendingCancel)
    ensures Inv(c, o')
  {
    CancelKeepsSlots(c, o, o', t, s, n, r);
    SentKeepsRequests(c, o, o', t, s, n, r);
    SentKeepsLive(c, o, o', t, s, n, r);
    SentKeepsLimits(c, o, o', t, s, n, r);
  }

  lemma {:induction false} NewSentKeeps(c: Setup, o: System, o': System, t: nat, s: Side, n: OMOrder)
    requires Inv(c, o) && Sent(o, o', t, s, n, NewRequest(c.client, t, s, n)) && o'.nextId == o.nextId + 1
    requires !IsWorking(o.desks[t].Of(s)) && n.state == PendingNew && n.orderId == o.nextId
    requires Abs(o.positions[t] + SideValue(s) * n.qty) <= Limit(c.risks[t])
    ensures Inv(c, o')
  {
    var r := NewRequest(c.client, t, s, n);
    NewKeepsSlots(c, o, o', t, s, n);
    SentKeepsRequests(c, o, o', t, s, n, r);
    SentKeepsLive(c, o, o', t, s, n, r);
    SentKeepsLimits(c, o, o', t, s, n, r);
  }

  /** An order the check allows, sent from a position within the limit, does not exceed it. */
  lemma {:induction false} AllowedFits(c: Setup, o: System, t: nat, s: Side, qty: nat, pnl: real)
    requires SafeSetup(c) && Inv(c, o) && t < |o.desks| && qty < TWO_32
    requires CheckPreTradeRisk(c.risks[t], o.positions[t], pnl, s, qty) == Allowed
    ensures Abs(o.positions[t] + SideValue(s) * qty) <= Limit(c.risks[t])
  {
    assert LimitOk(c, o, t);
    NoOverflowGuards(c.risks[t], o.positions[t], pnl, s, qty);
  }

  /** What MoveOrder comes to: nothing, a cancel of the live order, or a new order the check allows. */
  lemma {:induction false} MoveCases(c: Setup, o: System, e: Event, o': System)
    requires Enabled(c, o, e) && e.MoveOrder? && o' == Step(c, o, e)
    ensures var was := o.desks[e.ticker].Of(e.side);
            var n := o'.desks[e.ticker].Of(e.side);
            || o' == o
            || (was.state == Live && n == was.(state := PendingCancel) && o'.nextId == o.nextId
                && Sent(o, o', e.ticker, e.side, n, NewRequest(c.client, e.ticker, e.side, was).(kind := CancelOrder)))
            || (!IsWorking(was) && n == OMOrder(o.nextId, e.price, e.qty, PendingNew) && o'.nextId == o.nextId + 1
                && CheckPreTradeRisk(c.risks[e.ticker], o.positions[e.ticker], e.totalPnl, e.side, e.qty) == Allowed
                && Sent(o, o', e.ticker, e.side, n, NewRequest(c.client, e.ticker, e.side, n)))
  {
    var was := o.desks[e.ticker].Of(e.side);
    if o'.nextId == o.nextId && !(was.state == Live && was.price != e.price) {
      assert o'.desks == o.desks && o'.requests == o.requests;
    }
  }

  lemma {:induction false} MoveKeeps(c: Setup, o: System, e: Event, o': System)
    requires SafeSetup(c) && Inv(c, o) && Enabled(c, o, e) && e.MoveOrder? && o' == Step(c, o, e)
    ensures Inv(c, o')
  {
    var t, s := e.ticker, e.side;
    var was, n := o.desks[t].Of(s), o'.desks[t].Of(s);
    MoveCases(c, o, e, o');
    if o' == o {
    } else if was.state == Live {
      CancelSentKeeps(c, o, o', t, s, n, NewRequest(c.client, t, s, was).(kind := CancelOrder));
    } else {
      AllowedFits(c, o, t, s, e.qty, e.totalPnl);
      NewSentKeeps(c, o, o', t, s, n);
    }
  }

  /** Taking response `r` of slot `t`, `s`, which turns the slot's order into `n`. */
  ghost predicate Taken(c: Setup, o: System, o': System, r: ClientResponse, t: nat, s: Side, n: OMOrder) {
    && Inv(c, o) && o.responses != [] && r == o.responses[0] && r.ticker == t && r.side == Some(s) && t < |o.desks|
    && n == OnUpdate(o.desks[t].Of(s), r) && o'.desks == o.desks[t := o.desks[t].With(s, n)]
    && o'.positions == (if r.kind == Filled then o.positions[t := o.positions[t] + SideValue(s) * r.execQty] else o.positions)
    && o'.responses == o.responses[1..]
    && o'.nextId == o.nextId && o'.requests == o.requests && o'.live == o.live && o'.truth == o.truth
  }

  lemma {:induction false} TakenSlot(c: Setup, o: System, o': System, r: ClientResponse, t: nat, s: Side, n: OMOrder)
    requires Taken(c, o, o', r, t, s, n)
    ensures IsWorking(o.desks[t].Of(s)) && !Queued(c, o, t, s) && n.orderId == o.desks[t].Of(s).orderId
    ensures SlotOk(c, o', t, s)
    ensures if r.kind == Filled then
              r.execQty <= Outstanding(o.desks[t].Of(s)) && Outstanding(n) == Outstanding(o.desks[t].Of(s)) - r.execQty
            else Outstanding(n) <= Outstanding(o.desks[t].Of(s))
  {
    MineFirst(o.responses, t, s);
    assert SlotOk(c, o, t, s);
    DeliverAgrees(o.desks[t].Of(s), Mine(o.responses, t, s), Queued(c, o, t, s), Leaves(o, t, s));
    assert Queued(c, o', t, s) ==> RequestOk(c, o, NewRequest(c.client, t, s, n));
  }

  lemma {:induction false} TakenKeepsOthers(c: Setup, o: System, o': System, r: ClientResponse, t: nat, s: Side, n: OMOrder,
                                            u: nat, v: Side)
    requires Taken(c, o, o', r, t, s, n) && u < |o.desks| && (u != t || v != s)
    ensures SlotOk(c, o', u, v)
  {
    assert SlotOk(c, o, u, v);
    MineFirst(o.responses, u, v);
    assert o'.desks[u].Of(v) == o.desks[u].Of(v);
  }

  lemma {:induction false} TakenKeepsSlots(c: Setup, o: System, o': System, r: ClientResponse, t: nat, s: Side, n: OMOrder)
    requires Taken(c, o, o', r, t, s, n)
    ensures Slots(c, o')
  {
    TakenSlot(c, o, o', r, t, s, n);
    forall u, v | 0 <= u < |o'.desks| ensures SlotOk(c, o', u, v) {
      if u != t || v != s {
        TakenKeepsOthers(c, o, o', r, t, s, n, u, v);
      }
    }
    forall u, v, u', v' | 0 <= u < |o'.desks| && 0 <= u' < |o'.desks| ensures Apart(o', u, v, u', v') {
      assert Apart(o, u, v, u', v');
    }
  }

  lemma {:induction false} TakenKeepsLimits(c: Setup, o: System, o': System, r: ClientResponse, t: nat, s: Side, n: OMOrder)
    requires Taken(c, o, o', r, t, s, n)
    ensures forall u :: 0 <= u < |o'.desks| ==> LimitOk(c, o', u)
  {
    TakenSlot(c, o, o', r, t, s, n);
    forall u | 0 <= u < |o'.desks| ensures LimitOk(c, o', u) {
      assert LimitOk(c, o, u);
      MineFirst(o.responses, u, Buy);
      MineFirst(o.responses, u, Sell);
      var taken := if r.kind == Filled then r.execQty else 0;
      assert u == t ==> Executed(Mine(o.responses, t, s)) == taken + Executed(Mine(o.responses[1..], t, s));
    }
  }

  lemma {:induction false} TakenKeepsRest(c: Setup, o: System, o': System, r: ClientResponse, t: nat, s: Side, n: OMOrder)
    requires Taken(c, o, o', r, t, s, n)
    ensures forall q :: q in o'.requests ==> RequestOk(c, o', q)
    ensures forall id :: id in o'.live ==> LiveOk(o', id)
    ensures forall q :: q in o'.responses ==> ResponseOk(o', q)
  {
    TakenSlot(c, o, o', r, t, s, n);
    forall q | q in o'.requests ensures RequestOk(c, o', q) {
      assert RequestOk(c, o, q);
    }
    forall id | id in o'.live ensures LiveOk(o', id) {
      assert LiveOk(o, id);
    }
    forall q | q in o'.responses ensures ResponseOk(o', q) {
      assert ResponseOk(o, q);
    }
  }

  /** A response without a side only leaves the queue. */
  lemma {:induction false} DroppedKeeps(c: Setup, o: System, o': System)
    requires Inv(c, o) && o.responses != [] && o.responses[0].side == None && o' == o.(responses := o.responses[1..])
    ensures Inv(c, o')
  {
    forall u, v | 0 <= u < |o'.desks| ensures SlotOk(c, o', u, v) {
      assert SlotOk(c, o, u, v);
      MineFirst(o.responses, u, v);
    }
    forall u, v, u', v' | 0 <= u < |o'.desks| && 0 <= u' < |o'.desks| ensures Apart(o', u, v, u', v') {
      assert Apart(o, u, v, u', v');
    }
    forall u | 0 <= u < |o'.desks| ensures LimitOk(c, o', u) {
      assert LimitOk(c, o, u);
      MineFirst(o.responses, u, Buy);
      MineFirst(o.responses, u, Sell);
    }
    forall q | q in o'.requests ensures RequestOk(c, o', q) {
      assert RequestOk(c, o, q);
    }
    forall id | id in o'.live ensures LiveOk(o', id) {
      assert LiveOk(o, id);
    }
    forall q | q in o'.responses ensures ResponseOk(o', q) {
      assert ResponseOk(o, q);
    }
  }

  lemma {:induction false} DeliverKeeps(c: Setup, o: System, o': System)
    requires Inv(c, o) && Enabled(c, o, Deliver) && o' == Step(c, o, Deliver)
    ensures Inv(c, o')
  {
    var r := o.responses[0];
    assert ResponseOk(o, r);
    if r.side == None {
      DroppedKeeps(c, o, o');
    } else {
      var t, s := r.ticker, r.side.value;
      var n := OnUpdate(o.desks[t].Of(s), r);
      TakenKeepsSlots(c, o, o', r, t, s, n);
      TakenKeepsLimits(c, o, o', r, t, s, n);
      TakenKeepsRest(c, o, o', r, t, s, n);
    }
  }

  /** The exchange answers with `a`; `bare` are the requests left. */
  ghost predicate Answered(o: System, o': System, a: ClientResponse, bare: multiset<ClientRequest>) {
    && o'.desks == o.desks && o'.positions == o.positions && o'.nextId == o.nextId
    && o'.responses == o.responses + [a] && o'.requests == bare && bare <= o.requests
  }

  /** Slots other than the one an answer is for stay as they are, as long as the exchange holds the same of them. */
  lemma {:induction false} AnswerKeepsSlots(c: Setup, o: System, o': System, a: ClientResponse, bare: multiset<ClientRequest>,
                                            t: nat, s: Side)
    requires Inv(c, o) && Answered(o, o', a, bare) && t < |o.desks| && (a.side == None || (a.ticker == t && a.side == Some(s)))
    requires forall u, v {:trigger Leaves(o', u, v)} ::
               0 <= u < |o.desks| && (u != t || v != s) ==> Leaves(o', u, v) == Leaves(o, u, v)
    requires forall u, v {:trigger Queued(c, o', u, v)} ::
               0 <= u < |o.desks| && (u != t || v != s) ==> Queued(c, o', u, v) == Queued(c, o, u, v)
    requires SlotOk(c, o', t, s)
    ensures Slots(c, o')
  {
    forall u, v | 0 <= u < |o'.desks| ensures SlotOk(c, o', u, v) {
      if u != t || v != s {
        assert SlotOk(c, o, u, v) && Leaves(o', u, v) == Leaves(o, u, v) && Queued(c, o', u, v) == Queued(c, o, u, v);
        MineLast(o.responses, a, u, v);
      }
    }
    forall u, v, u', v' | 0 <= u < |o'.desks| && 0 <= u' < |o'.desks| ensures Apart(o', u, v, u', v') {
      assert Apart(o, u, v, u', v');
    }
  }

  lemma AnswerKeepsRequests(c: Setup, o: System, o': System, a: ClientResponse, bare: multiset<ClientRequest>)
    requires Inv(c, o) && Answered(o, o', a, bare) && ResponseOk(o, a)
    ensures forall q :: q in o'.requests ==> RequestOk(c, o', q)
    ensures forall q :: q in o'.responses ==> ResponseOk(o', q)
  {
    forall q | q in o'.requests ensures RequestOk(c, o', q) {
      assert q in o.requests && RequestOk(c, o, q);
    }
    forall q | q in o'.responses ensures ResponseOk(o', q) {
      assert q in o.responses ==> ResponseOk(o, q);
    }
  }

  /** A fill changes the true position by what it adds to the fills in flight, any other answer neither. */
  lemma {:induction false} AnswerKeepsLimits(c: Setup, o: System, o': System, a: ClientResponse, bare: multiset<ClientRequest>)
    requires Inv(c, o) && Answered(o, o', a, bare) && a.ticker < |o.desks|
    requires o'.truth == if a.kind == Filled && a.side.Some?
                         then o.truth[a.ticker := o.truth[a.ticker] + SideValue(a.side.value) * a.execQty] else o.truth
    ensures forall u :: 0 <= u < |o'.desks| ==> LimitOk(c, o', u)
  {
    forall u | 0 <= u < |o'.desks| ensures LimitOk(c, o', u) {
      assert LimitOk(c, o, u);
      InFlight(o.responses, a, u, Buy);
      InFlight(o.responses, a, u, Sell);
    }
  }

  /** What the exchange holds under an id belongs to the one slot that works it. */
  lemma {:induction false} OneHolder(c: Setup, o: System, t: nat, s: Side)
    requires Inv(c, o) && t < |o.desks| && IsWorking(o.desks[t].Of(s)) && o.desks[t].Of(s).orderId in o.live
    ensures var w := o.live[o.desks[t].Of(s).orderId]; w.ticker == t && w.side == s
  {
    var id := o.desks[t].Of(s).orderId;
    var w := o.live[id];
    assert LiveOk(o, id) && SlotOk(c, o, w.ticker, w.side) && Apart(o, t, s, w.ticker, w.side);
  }

  /** The exchange holds nothing of an order whose NEW is still queued. */
  lemma {:induction false} NotYetThere(c: Setup, o: System, r: ClientRequest)
    requires Inv(c, o) && r in o.requests && r.kind == New
    ensures r.orderId !in o.live
  {
    assert RequestOk(c, o, r) && SlotOk(c, o, r.ticker, r.side);
    assert r.orderId in o.live ==> LiveOk(o, r.orderId);
    if r.orderId in o.live {
      OneHolder(c, o, r.ticker, r.side);
    }
  }

  lemma {:induction false} AcceptedSlot(c: Setup, o: System, o': System, r: ClientRequest, a: ClientResponse)
    requires Inv(c, o) && r in o.requests && r.kind == New && Answered(o, o', a, o.requests - multiset{r})
    requires a.ticker == r.ticker && a.side == Some(r.side) && a.kind == Accepted
    requires o'.live == if r.qty == 0 then o.live else o.live[r.orderId := Resting(r.ticker, r.side, r.qty)]
    ensures SlotOk(c, o', r.ticker, r.side)
  {
    assert RequestOk(c, o, r) && SlotOk(c, o, r.ticker, r.side);
    NotYetThere(c, o, r);
    MineLast(o.responses, a, r.ticker, r.side);
    assert [a][1..] == [];
  }

  lemma {:induction false} AcceptKeeps(c: Setup, o: System, o': System, r: ClientRequest, moid: nat)
    requires Inv(c, o) && Enabled(c, o, Accept(r, moid)) && o' == Step(c, o, Accept(r, moid))
    ensures Inv(c, o')
  {
    var a := o'.responses[|o.responses|];
    var bare := o.requests - multiset{r};
    AcceptedSlot(c, o, o', r, a);
    NotYetThere(c, o, r);
    assert RequestOk(c, o, r);
    AnswerKeepsSlots(c, o, o', a, bare, r.ticker, r.side);
    AnswerKeepsRequests(c, o, o', a, bare);
    AnswerKeepsLimits(c, o, o', a, bare);
    forall id | id in o'.live ensures LiveOk(o', id) {
      assert id != r.orderId ==> LiveOk(o, id);
    }
  }

  lemma {:induction false} ExecutedSlot(c: Setup, o: System, o': System, id: nat, w: Resting, a: ClientResponse)
    requires Inv(c, o) && id in o.live && w == o.live[id] && Answered(o, o', a, o.requests)
    requires a.ticker == w.ticker && a.side == Some(w.side) && a.kind == Filled
    requires 0 < a.execQty <= w.leaves && a.leavesQty == w.leaves - a.execQty
    requires o'.live == if a.leavesQty == 0 then o.live - {id} else o.live[id := w.(leaves := a.leavesQty)]
    ensures SlotOk(c, o', w.ticker, w.side)
  {
    assert LiveOk(o, id) && SlotOk(c, o, w.ticker, w.side);
    FillAgrees(o.desks[w.ticker].Of(w.side), Mine(o.responses, w.ticker, w.side), Queued(c, o, w.ticker, w.side), w.leaves, a);
    MineLast(o.responses, a, w.ticker, w.side);
  }

  lemma {:induction false} ExecuteKeeps(c: Setup, o: System, o': System, id: nat, qty: nat, price: int, moid: nat)
    requires Inv(c, o) && Enabled(c, o, Execute(id, qty, price, moid)) && o' == Step(c, o, Execute(id, qty, price, moid))
    ensures Inv(c, o')
  {
    var w := o.live[id];
    var a := ClientResponse(Filled, c.client, w.ticker, id, moid, Some(w.side), price, qty, w.leaves - qty);
    ExecutedSlot(c, o, o', id, w, a);
    AnswerKeepsSlots(c, o, o', a, o.requests, w.ticker, w.side);
    AnswerKeepsRequests(c, o, o', a, o.requests);
    AnswerKeepsLimits(c, o, o', a, o.requests);
    forall i | i in o'.live ensures LiveOk(o', i) {
      assert LiveOk(o, i);
    }
  }

  /** Taking one cancel off the queue leaves every NEW where it is. */
  lemma CancelTaken(c: Setup, o: System, o': System, r: ClientRequest, t: nat, s: Side)
    requires t < |o.desks| && o'.desks == o.desks && r in o.requests && r.kind == CancelOrder
    requires o'.requests == o.requests - multiset{r}
    ensures Queued(c, o', t, s) == Queued(c, o, t, s)
  {
    assert NewRequest(c.client, t, s, o.desks[t].Of(s)) != r;
  }

  /** The cancelled order's slot: all that was left is being given back. */
  lemma {:induction false} CanceledSlot(c: Setup, o: System, o': System, r: ClientRequest, w: Resting, a: ClientResponse)
    requires Inv(c, o) && r in o.requests && r.kind == CancelOrder && r.orderId in o.live && w == o.live[r.orderId]
    requires w.ticker == r.ticker && Answered(o, o', a, o.requests - multiset{r}) && o'.live == o.live - {r.orderId}
    requires a.ticker == w.ticker && a.side == Some(w.side) && a.kind == Canceled && a.leavesQty == w.leaves
    ensures SlotOk(c, o', w.ticker, w.side)
  {
    assert LiveOk(o, r.orderId) && SlotOk(c, o, w.ticker, w.side);
    CancelTaken(c, o, o', r, w.ticker, w.side);
    MineLast(o.responses, a, w.ticker, w.side);
    CancelAgrees(o.desks[w.ticker].Of(w.side), Mine(o.responses, w.ticker, w.side), Queued(c, o, w.ticker, w.side), w.leaves, a);
  }

  lemma {:induction false} CanceledKeeps(c: Setup, o: System, o': System, r: ClientRequest, w: Resting, a: ClientResponse)
    requires Inv(c, o) && r in o.requests && r.kind == CancelOrder && r.orderId in o.live && w == o.live[r.orderId]
    requires w.ticker == r.ticker && Answered(o, o', a, o.requests - multiset{r}) && o'.live == o.live - {r.orderId}
    requires a.ticker == w.ticker && a.side == Some(w.side) && a.kind == Canceled && a.leavesQty == w.leaves && o'.truth == o.truth
    ensures Inv(c, o')
  {
    var bare := o.requests - multiset{r};
    CanceledSlot(c, o, o', r, w, a);
    forall u, v | 0 <= u < |o.desks| ensures Queued(c, o', u, v) == Queued(c, o, u, v) {
      CancelTaken(c, o, o', r, u, v);
    }
    assert LiveOk(o, r.orderId);
    AnswerKeepsSlots(c, o, o', a, bare, w.ticker, w.side);
    AnswerKeepsRequests(c, o, o', a, bare);
    AnswerKeepsLimits(c, o, o', a, bare);
    forall i | i in o'.live ensures LiveOk(o', i) {
      assert LiveOk(o, i);
    }
  }

  lemma {:induction false} RejectedKeeps(c: Setup, o: System, o': System, r: ClientRequest, a: ClientResponse)
    requires Inv(c, o) && r in o.requests && r.kind == CancelOrder
    requires Answered(o, o', a, o.requests - multiset{r}) && o'.live == o.live && o'.truth == o.truth
    requires a.ticker == r.ticker && a.side == None && a.kind == CancelRejected
    ensures Inv(c, o')
  {
    var bare := o.requests - multiset{r};
    assert RequestOk(c, o, r) && SlotOk(c, o, r.ticker, r.side);
    forall u, v | 0 <= u < |o.desks| ensures Queued(c, o', u, v) == Queued(c, o, u, v) {
      CancelTaken(c, o, o', r, u, v);
    }
    MineLast(o.responses, a, r.ticker, r.side);
    AnswerKeepsSlots(c, o, o', a, bare, r.ticker, r.side);
    AnswerKeepsRequests(c, o, o', a, bare);
    AnswerKeepsLimits(c, o, o', a, bare);
    forall i | i in o'.live ensures LiveOk(o', i) {
      assert LiveOk(o, i);
    }
  }

  lemma {:induction false} WithdrawKeeps(c: Setup, o: System, o': System, r: ClientRequest, price: int, moid: nat)
    requires Inv(c, o) && Enabled(c, o, Withdraw(r, price, moid)) && o' == Step(c, o, Withdraw(r, price, moid))
    ensures Inv(c, o')
  {
    var a := o'.responses[|o.responses|];
    if r.orderId in o.live && o.live[r.orderId].ticker == r.ticker {
      CanceledKeeps(c, o, o', r, o.live[r.orderId], a);
    } else {
      RejectedKeeps(c, o, o', r, a);
    }
  }

  lemma {:induction false} StepKeeps(c: Setup, o: System, e: Event, o': System)
    requires SafeSetup(c) && Inv(c, o) && Enabled(c, o, e) && o' == Step(c, o, e)
    ensures Inv(c, o')
  {
    match e
    case MoveOrder(_, _, _, _, _) => MoveKeeps(c, o, e, o');
    case Deliver => DeliverKeeps(c, o, o');
    case Accept(r, moid) => AcceptKeeps(c, o, o', r, moid);
    case Execute(id, qty, price, moid) => ExecuteKeeps(c, o, o', id, qty, price, moid);
    case Withdraw(r, price, moid) => WithdrawKeeps(c, o, o', r, price, moid);
  }

  // ---------------------------------------------------------------- whole runs

  function Start(c: Setup): System {
    System(seq(|c.risks|, _ => PerSide(NO_ORDER, NO_ORDER)), seq(|c.risks|, _ => 0), 1, multiset{}, [], map[],
           seq(|c.risks|, _ => 0))
  }

  /** The events in this order, whatever the interleaving they stand for, as long as each is possible in its turn. */
  function Run(c: Setup, es: seq<Event>): Option<System> {
    if es == [] then Some(Start(c))
    else match Run(c, es[..|es| - 1])
      case None => None
      case Some(o) => if Enabled(c, o, es[|es| - 1]) then Some(Step(c, o, es[|es| - 1])) else None
  }

  lemma {:induction false} StartKeeps(c: Setup)
    ensures Inv(c, Start(c))
  {
  }

  lemma {:induction false} RunKeeps(c: Setup, es: seq<Event>, o: System)
    requires SafeSetup(c) && Run(c, es) == Some(o)
    ensures Inv(c, o)
  {
    if es == [] {
      StartKeeps(c);
    } else {
      var p := Run(c, es[..|es| - 1]).value;
      RunKeeps(c, es[..|es| - 1], p);
      StepKeeps(c, p, es[|es| - 1], o);
    }
  }

  /** What is counted as outstanding covers the fills in flight and what the exchange holds. */
  lemma {:induction false} OutstandingCovers(o: OMOrder, mine: seq<ClientResponse>, queued: bool, leaves: nat)
    requires Agree(o, mine, queued, leaves)
    ensures Executed(mine) + leaves <= Outstanding(o)
    ensures IsWorking(o) && !queued ==> o.qty == leaves + Executed(mine) + Returned(mine)
  {
    if IsWorking(o) && !queued {
      if o.state == PendingNew {
        ChainBalances(o.qty, mine[1..], leaves);
      } else {
        ChainBalances(o.qty, mine, leaves);
      }
    }
  }

  /** Whole-run position limit: however requests and responses are delayed, neither the position the client knows
      nor the true one ever goes beyond the limit, even if everything the exchange holds on a side is executed. */
  lemma {:induction false} PositionWithinLimit(c: Setup, es: seq<Event>, o: System, t: nat)
    requires SafeSetup(c) && Run(c, es) == Some(o) && t < |c.risks|
    ensures t < |o.desks| == |o.positions| == |o.truth|
    ensures Abs(o.positions[t]) <= Limit(c.risks[t]) && Abs(o.truth[t]) <= Limit(c.risks[t])
    ensures o.truth[t] + Leaves(o, t, Buy) <= Limit(c.risks[t])
    ensures o.truth[t] - Leaves(o, t, Sell) >= -(Limit(c.risks[t]) as int)
  {
    RunKeeps(c, es, o);
    assert LimitOk(c, o, t) && SlotOk(c, o, t, Buy) && SlotOk(c, o, t, Sell);
    OutstandingCovers(o.desks[t].buy, Mine(o.responses, t, Buy), Queued(c, o, t, Buy), Leaves(o, t, Buy));
    OutstandingCovers(o.desks[t].sell, Mine(o.responses, t, Sell), Queued(c, o, t, Sell), Leaves(o, t, Sell));
  }

  /** At most one order per ticker and side is held at the exchange, it is the client's own, and a NEW in flight
      excludes it. */
  lemma {:induction false} OneOrderAtATime(c: Setup, es: seq<Event>, o: System, id: nat, id': nat)
    requires SafeSetup(c) && Run(c, es) == Some(o) && id in o.live && id' in o.live
    requires o.live[id].ticker == o.live[id'].ticker && o.live[id].side == o.live[id'].side
    ensures id == id' && o.live[id].ticker < |o.desks|
    ensures o.desks[o.live[id].ticker].Of(o.live[id].side).orderId == id
    ensures IsWorking(o.desks[o.live[id].ticker].Of(o.live[id].side))
    ensures !Queued(c, o, o.live[id].ticker, o.live[id].side)
  {
    RunKeeps(c, es, o);
    assert LiveOk(o, id) && LiveOk(o, id') && SlotOk(c, o, o.live[id].ticker, o.live[id].side);
  }

  /** A slot that is INVALID or DEAD has nothing in the channels or at the exchange; any other tracks exactly what
      the exchange holds, what is being filled and what is being given back, once its NEW has been served. */
  lemma {:induction false} SlotsAgree(c: Setup, es: seq<Event>, o: System, t: nat, s: Side)
    requires SafeSetup(c) && Run(c, es) == Some(o) && t < |c.risks|
    ensures t < |o.desks|
    ensures !IsWorking(o.desks[t].Of(s)) ==> Mine(o.responses, t, s) == [] && !Queued(c, o, t, s) && Leaves(o, t, s) == 0
    ensures IsWorking(o.desks[t].Of(s)) && !Queued(c, o, t, s) ==>
              o.desks[t].Of(s).qty
              == Leaves(o, t, s) + Executed(Mine(o.responses, t, s)) + Returned(Mine(o.responses, t, s))
  {
    RunKeeps(c, es, o);
    assert SlotOk(c, o, t, s);
    OutstandingCovers(o.desks[t].Of(s), Mine(o.responses, t, s), Queued(c, o, t, s), Leaves(o, t, s));
  }

  /** A live order of which nothing is in flight is held at the exchange if and only if its quantity is positive:
      one of quantity zero stays live at the client alone. */
  lemma {:induction false} LiveIsHeld(c: Setup, es: seq<Event>, o: System, t: nat, s: Side)
    requires SafeSetup(c) && Run(c, es) == Some(o) && t < |c.risks| && t < |o.desks|
    requires o.desks[t].Of(s).state == Live && Mine(o.responses, t, s) == []
    ensures Leaves(o, t, s) == o.desks[t].Of(s).qty
    ensures o.desks[t].Of(s).orderId in o.live <==> 0 < o.desks[t].Of(s).qty
  {
    RunKeeps(c, es, o);
    assert SlotOk(c, o, t, s);
    var id := o.desks[t].Of(s).orderId;
    if id in o.live {
      OneHolder(c, o, t, s);
      assert LiveOk(o, id);
    }
  }
}

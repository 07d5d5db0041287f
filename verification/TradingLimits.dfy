/** For which configurations the position limit holds over every run, with a run that breaks it for all others. */
module TradingLimits {
  import opened Types
  import opened PositionKeeper
  import opened RiskManager
  import opened OrderManagerClass
  import opened TradingSystem

  /** Known and true positions are within the limits. */
  ghost predicate WithinLimits(c: Setup, o: System) {
    forall t {:trigger c.risks[t]} :: 0 <= t < |c.risks| ==>
      && t < |o.positions| && t < |o.truth|
      && Abs(o.positions[t]) <= Limit(c.risks[t]) && Abs(o.truth[t]) <= Limit(c.risks[t])
  }

  lemma {:induction false} RunLast(c: Setup, es: seq<Event>, o: System, e: Event)
    requires Run(c, es) == Some(o) && Enabled(c, o, e)
    ensures Run(c, es + [e]) == Some(Step(c, o, e))
  {
    assert (es + [e])[..|es|] == es;
  }

  /** Nothing is outstanding or in flight, and the position is `p`. */
  ghost predicate Idle(c: Setup, o: System, t: nat, p: int) {
    && |o.desks| == |o.positions| == |o.truth| == |c.risks| && t < |c.risks|
    && !IsWorking(o.desks[t].buy) && o.requests == multiset{} && o.responses == [] && o.live == map[]
    && o.positions[t] == o.truth[t] == p
  }

  /** A buy order is sent and accepted. */
  lemma {:induction false} Placing(c: Setup, es: seq<Event>, o: System, t: nat, p: int, q: nat)
    returns (es': seq<Event>, o': System)
    requires Run(c, es) == Some(o) && Idle(c, o, t, p) && q < TWO_32
    requires CheckPreTradeRisk(c.risks[t], p, c.risks[t].maxLoss, Buy, q) == Allowed
    ensures Run(c, es') == Some(o') && |o'.desks| == |o'.positions| == |o'.truth| == |c.risks|
    ensures o'.desks[t].buy == OMOrder(o.nextId, 0, q, PendingNew) && o'.requests == multiset{}
    ensures |o'.responses| == 1 && o'.responses[0].kind == Accepted && o'.responses[0].ticker == t && o'.responses[0].side == Some(Buy)
    ensures o'.live == (if q == 0 then map[] else map[o.nextId := Resting(t, Buy, q)]) && o'.positions[t] == o'.truth[t] == p
  {
    var sent := Step(c, o, MoveOrder(t, Buy, 0, q, c.risks[t].maxLoss));
    var r := NewRequest(c.client, t, Buy, sent.desks[t].buy);
    RunLast(c, es, o, MoveOrder(t, Buy, 0, q, c.risks[t].maxLoss));
    assert sent.requests == multiset{r};
    es' := es + [MoveOrder(t, Buy, 0, q, c.risks[t].maxLoss)];
    RunLast(c, es', sent, Accept(r, 0));
    es', o' := es' + [Accept(r, 0)], Step(c, sent, Accept(r, 0));
    assert o'.requests == multiset{};
  }

  /** A buy order is sent, accepted, executed and reported back. */
  lemma {:induction false} Buying(c: Setup, es: seq<Event>, o: System, t: nat, p: int, q: nat)
    returns (es': seq<Event>, o': System)
    requires Run(c, es) == Some(o) && Idle(c, o, t, p) && 0 < q < TWO_32
    requires CheckPreTradeRisk(c.risks[t], p, c.risks[t].maxLoss, Buy, q) == Allowed
    ensures Run(c, es') == Some(o') && Idle(c, o', t, p + q)
  {
    var id := o.nextId;
    var placed;
    es', placed := Placing(c, es, o, t, p, q);
    var done := Step(c, placed, Execute(id, q, 0, 0));
    RunLast(c, es', placed, Execute(id, q, 0, 0));
    assert done.live == map[] && |done.responses| == 2 && done.responses[0] == placed.responses[0];
    es' := es' + [Execute(id, q, 0, 0)];
    var live := Step(c, done, Deliver);
    RunLast(c, es', done, Deliver);
    assert live.desks[t].buy.state == Live && live.responses == [done.responses[1]];
    es' := es' + [Deliver];
    RunLast(c, es', live, Deliver);
    es', o' := es' + [Deliver], Step(c, live, Deliver);
    assert o'.responses == [];
  }

  /** Any long position up to the limit can be reached. */
  lemma {:induction false} Reaching(c: Setup, t: nat, p: nat) returns (es: seq<Event>, o: System)
    requires t < |c.risks| && InRange(c.risks[t]) && 0 < c.risks[t].maxOrderSize && p <= Limit(c.risks[t])
    ensures Run(c, es) == Some(o) && Idle(c, o, t, p)
  {
    if p == 0 {
      es, o := [], Start(c);
    } else {
      var q := if p <= c.risks[t].maxOrderSize then p else c.risks[t].maxOrderSize;
      es, o := Reaching(c, t, p - q);
      ProjectedIsWrapped(p - q, Buy, q);
      es, o := Buying(c, es, o, t, p - q, q);
    }
  }

  /** Where limit and order size do not fit 32 bits together, the true position can be taken beyond the limit. */
  lemma {:induction false} Exceeding(c: Setup, t: nat) returns (es: seq<Event>, o: System)
    requires t < |c.risks| && InRange(c.risks[t]) && Limit(c.risks[t]) + c.risks[t].maxOrderSize >= TWO_31
    ensures Run(c, es) == Some(o) && t < |o.truth| && o.truth[t] == TWO_31 > Limit(c.risks[t])
  {
    var size := c.risks[t].maxOrderSize;
    var p: nat := if size < TWO_31 then TWO_31 - size else 0;
    es, o := Reaching(c, t, p);
    OverflowAllowed(c.risks[t], p, TWO_31 - p);
    es, o := Buying(c, es, o, t, p, TWO_31 - p);
  }

  lemma {:induction false} SafeStaysWithin(c: Setup, es: seq<Event>, o: System)
    requires SafeSetup(c) && Run(c, es) == Some(o)
    ensures WithinLimits(c, o)
  {
    forall t | 0 <= t < |c.risks|
      ensures t < |o.positions| && t < |o.truth|
      ensures Abs(o.positions[t]) <= Limit(c.risks[t]) && Abs(o.truth[t]) <= Limit(c.risks[t])
    {
      PositionWithinLimit(c, es, o, t);
    }
  }

  lemma {:induction false} UnsafeExceeds(c: Setup) returns (es: seq<Event>, o: System)
    requires (forall t {:trigger c.risks[t]} :: 0 <= t < |c.risks| ==> InRange(c.risks[t])) && !SafeSetup(c)
    ensures Run(c, es) == Some(o) && !WithinLimits(c, o)
  {
    var t :| 0 <= t < |c.risks| && Limit(c.risks[t]) + c.risks[t].maxOrderSize >= TWO_31;
    es, o := Exceeding(c, t);
  }

  ghost predicate NeverExceeds(c: Setup) {
    forall es {:trigger Run(c, es)} :: Run(c, es).Some? ==> WithinLimits(c, Run(c, es).value)
  }

  /** The position limit holds over every run exactly when, for every ticker, the limit and the largest order size
      together fit 32 signed bits. */
  lemma {:induction false} LimitHoldsExactly(c: Setup)
    requires forall t {:trigger c.risks[t]} :: 0 <= t < |c.risks| ==> InRange(c.risks[t])
    ensures NeverExceeds(c) <==> SafeSetup(c)
  {
    if SafeSetup(c) {
      forall es | Run(c, es).Some? ensures WithinLimits(c, Run(c, es).value) {
        SafeStaysWithin(c, es, Run(c, es).value);
      }
    } else {
      var es, o := UnsafeExceeds(c);
    }
  }

  /** An order of quantity zero passes the check, is accepted, and is live at the client with nothing anywhere. */
  lemma {:induction false} ZeroOrderStaysLive(c: Setup, t: nat) returns (es: seq<Event>, o: System)
    requires t < |c.risks| && c.risks[t].maxPosition < TWO_31
    ensures Run(c, es) == Some(o) && t < |o.desks| && o.desks[t].buy == OMOrder(1, 0, 0, Live)
    ensures o.requests == multiset{} && o.responses == [] && o.live == map[]
  {
    ZeroAllowed(c.risks[t], 0, 0);
    StartIsIdle(c, t);
    es, o := PlacedAndTold(c, [], Start(c), t, 0, 0);
  }

  lemma {:induction false} ZeroAllowed(cfg: RiskCfg, p: int, q: nat)
    requires cfg.maxPosition < TWO_31 && p == 0 && q == 0
    ensures CheckPreTradeRisk(cfg, p, cfg.maxLoss, Buy, q) == Allowed
  {
    var sum := Wrap32(SideValue(Buy) * Wrap32(q));
    assert Wrap32(q) == q;
    assert sum == 0;
    assert Projected(p, Buy, q) == Wrap32(p + sum) == 0;
    assert Wrap32(cfg.maxPosition) == cfg.maxPosition;
  }

  lemma {:induction false} StartIsIdle(c: Setup, t: nat)
    requires t < |c.risks|
    ensures Run(c, []) == Some(Start(c)) && Idle(c, Start(c), t, 0)
  {
  }

  /** A buy order is sent, accepted, and the client told. */
  lemma {:induction false} PlacedAndTold(c: Setup, es: seq<Event>, o: System, t: nat, p: int, q: nat)
    returns (es': seq<Event>, o': System)
    requires Run(c, es) == Some(o) && Idle(c, o, t, p) && q < TWO_32
    requires CheckPreTradeRisk(c.risks[t], p, c.risks[t].maxLoss, Buy, q) == Allowed
    ensures Run(c, es') == Some(o') && t < |o'.desks| && o'.desks[t].buy == OMOrder(o.nextId, 0, q, Live)
    ensures o'.requests == multiset{} && o'.responses == []
    ensures o'.live == if q == 0 then map[] else map[o.nextId := Resting(t, Buy, q)]
  {
    var placed;
    es', placed := Placing(c, es, o, t, p, q);
    RunLast(c, es', placed, Deliver);
    es', o' := es' + [Deliver], Step(c, placed, Deliver);
    assert o'.responses == [];
  }
}

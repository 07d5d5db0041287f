/** The pre-trade risk check in the 32-bit arithmetic it is written in
    (src/include/trading_engine/risk_manager.hpp). */
module RiskManager {
  import opened Types
  import opened PositionKeeper

  datatype RiskCfg = RiskCfg(maxOrderSize: nat, maxPosition: nat, maxLoss: real)

  datatype RiskCheckResult = OrderTooLarge | PositionTooLarge | LossTooLarge | Allowed

  /** The sum of the position and the signed order size: the size is cast to a signed number, the product and the sum
      are signed 32-bit results. */
  function Projected(position: int, side: Side, qty: nat): int {
    Wrap32(position + Wrap32(SideValue(side) * Wrap32(qty)))
  }

  /** std::abs of a signed 32-bit number, which cannot negate the lowest. */
  function Abs32(x: int): int {
    if x == -TWO_31 then x else Abs(x)
  }

  /** RiskInfo::CheckPreTradeRisk. */
  function CheckPreTradeRisk(cfg: RiskCfg, position: int, totalPnl: real, side: Side, qty: nat): RiskCheckResult {
    if qty > cfg.maxOrderSize then OrderTooLarge
    else if Abs32(Projected(position, side, qty)) > Wrap32(cfg.maxPosition) then PositionTooLarge
    else if totalPnl < cfg.maxLoss then LossTooLarge
    else Allowed
  }

  predicate InRange(cfg: RiskCfg) {
    cfg.maxOrderSize < TWO_32 && cfg.maxPosition < TWO_32
  }

  /** The limit as the check reads it: the configured one, or none at all when its cast is negative. */
  function Limit(cfg: RiskCfg): nat {
    if Wrap32(cfg.maxPosition) < 0 then 0 else Wrap32(cfg.maxPosition)
  }

  /** From any position within the limit, no allowed order can take the position beyond it. */
  ghost predicate Guards(cfg: RiskCfg) {
    forall position, totalPnl, side, qty: nat :: qty < TWO_32 && Abs(position) <= Limit(cfg)
      && CheckPreTradeRisk(cfg, position, totalPnl, side, qty) == Allowed
      ==> Abs(position + SideValue(side) * qty) <= Limit(cfg)
  }

  lemma WrapIs(x: int) returns (k: int)
    ensures Wrap32(x) == x + k * TWO_32
  {
    k := -((x + TWO_31) / TWO_32);
  }

  lemma WrapShifted(x: int, k: int)
    ensures Wrap32(x + k * TWO_32) == Wrap32(x)
  {
  }

  /** Casts and wrapped sums lose nothing modulo 2^32. */
  lemma ProjectedIsWrapped(position: int, side: Side, qty: nat)
    ensures Projected(position, side, qty) == Wrap32(position + SideValue(side) * qty)
  {
    var k := WrapIs(qty);
    var v := SideValue(side);
    var m := WrapIs(v * Wrap32(qty));
    assert Wrap32(v * Wrap32(qty)) == v * qty + (v * k + m) * TWO_32;
    WrapShifted(position + v * qty, v * k + m);
  }

  /** A sum one beyond the highest signed number wraps to the lowest, which is its own absolute value. */
  lemma {:induction false} WrapPast(x: int)
    requires -TWO_31 <= x <= TWO_31 + TWO_31
    ensures x < TWO_31 ==> Wrap32(x) == x
    ensures x >= TWO_31 ==> Wrap32(x) == x - TWO_32
  {
  }

  /** An order that takes the position from the limit just past the 32-bit range is allowed. */
  lemma {:induction false} OverflowAllowed(cfg: RiskCfg, position: nat, qty: nat)
    requires InRange(cfg) && qty <= cfg.maxOrderSize && position + qty == TWO_31
    ensures CheckPreTradeRisk(cfg, position, cfg.maxLoss, Buy, qty) == Allowed
  {
    ProjectedIsWrapped(position, Buy, qty);
    WrapPast(position + qty);
  }

  lemma {:induction false} NoOverflowGuards(cfg: RiskCfg, position: int, totalPnl: real, side: Side, qty: nat)
    requires InRange(cfg) && Limit(cfg) + cfg.maxOrderSize < TWO_31 && Abs(position) <= Limit(cfg)
    requires CheckPreTradeRisk(cfg, position, totalPnl, side, qty) == Allowed
    ensures Abs(position + SideValue(side) * qty) <= Limit(cfg)
  {
    ProjectedIsWrapped(position, side, qty);
    var sum := position + SideValue(side) * qty;
    assert -TWO_31 < sum < TWO_31;
  }

  /** What the check decides where the limit and the largest order size fit 32 bits together: an order is refused for
      the first of size, position and loss that stands against it, and allowed if and only if none does. A configured
      position of 2^31 or more, which the cast makes negative, refuses every order. */
  lemma {:induction false} RefusedForTheFirst(cfg: RiskCfg, position: int, totalPnl: real, side: Side, qty: nat)
    requires InRange(cfg) && Limit(cfg) + cfg.maxOrderSize < TWO_31 && Abs(position) <= Limit(cfg)
    ensures var sizeOk := qty <= cfg.maxOrderSize;
            var positionOk := cfg.maxPosition < TWO_31 && Abs(position + SideValue(side) * qty) <= cfg.maxPosition;
            var lossOk := totalPnl >= cfg.maxLoss;
            var r := CheckPreTradeRisk(cfg, position, totalPnl, side, qty);
            && (r == Allowed <==> sizeOk && positionOk && lossOk)
            && (r == OrderTooLarge <==> !sizeOk)
            && (r == PositionTooLarge <==> sizeOk && !positionOk)
            && (r == LossTooLarge <==> sizeOk && positionOk && !lossOk)
  {
    ProjectedIsWrapped(position, side, qty);
    var sum := position + SideValue(side) * qty;
    if qty <= cfg.maxOrderSize {
      assert -TWO_31 < sum < TWO_31;
    }
  }

  /** The check guards the limit exactly when the limit and the largest order size together fit 32 signed bits. */
  lemma GuardsExactly(cfg: RiskCfg)
    requires InRange(cfg)
    ensures Guards(cfg) <==> Limit(cfg) + cfg.maxOrderSize < TWO_31
  {
    if Limit(cfg) + cfg.maxOrderSize < TWO_31 {
      forall position, totalPnl, side, qty: nat | qty < TWO_32 && Abs(position) <= Limit(cfg)
        && CheckPreTradeRisk(cfg, position, totalPnl, side, qty) == Allowed
        ensures Abs(position + SideValue(side) * qty) <= Limit(cfg)
      {
        NoOverflowGuards(cfg, position, totalPnl, side, qty);
      }
    } else {
      var qty: nat := TWO_31 - Limit(cfg);
      OverflowAllowed(cfg, Limit(cfg), qty);
      assert Abs(Limit(cfg) + SideValue(Buy) * qty) == TWO_31;
    }
  }

  /** Two configurations that let an order through to a position far beyond the limit: by the cast of the order size,
      and by the overflow of the sum. */
  lemma LimitsEvaded()
    ensures CheckPreTradeRisk(RiskCfg(QTY_INVALID, 100, 0.0), 0, 0.0, Buy, TWO_32 - 1) == Allowed
    ensures CheckPreTradeRisk(RiskCfg(1_500_000_000, 1_600_000_000, 0.0), 1_500_000_000, 0.0, Buy, 1_500_000_000) == Allowed
  {
    ProjectedIsWrapped(0, Buy, TWO_32 - 1);
    ProjectedIsWrapped(1_500_000_000, Buy, 1_500_000_000);
  }
}

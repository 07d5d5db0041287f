/** Identifiers, sizes, sides and the messages exchanged between components
    (src/include/common/types.hpp, client_response.hpp, market_update.hpp). */
module Types {

  const MAX_TICKERS: nat := 8
  const MAX_CLIENTS: nat := 256
  const MAX_ORDER_IDS: nat := 1024 * 1024
  const MAX_PRICE_LEVELS: nat := 256

  const TWO_31: int := 0x8000_0000
  const TWO_32: nat := 0x1_0000_0000
  const QTY_INVALID: nat := 0xFFFF_FFFF
  const PRICE_INVALID: int := 0x7FFF_FFFF_FFFF_FFFF
  const ORDER_ID_INVALID: nat := 0xFFFF_FFFF_FFFF_FFFF
  const PRIORITY_INVALID: nat := 0xFFFF_FFFF_FFFF_FFFF

  datatype Option<+T> = None | Some(value: T)

  datatype Side = Buy | Sell {
    function Opposite(): Side { if Buy? then Sell else Buy }
  }

  /** One value per side of the book. */
  datatype PerSide<X> = PerSide(buy: X, sell: X) {
    function Of(s: Side): X { if s.Buy? then buy else sell }

    function With(s: Side, x: X): (r: PerSide<X>)
      ensures r.Of(s) == x && r.Of(s.Opposite()) == Of(s.Opposite())
    {
      if s.Buy? then PerSide(x, sell) else PerSide(buy, x)
    }
  }

  /** Price `x` is strictly worse than price `y` for an order on side `s`. */
  predicate Worse(s: Side, x: int, y: int) {
    if s.Buy? then x < y else x > y
  }

  /** Index of a price in the price map; the C++ modulus is unsigned, and 256 divides 2^64. */
  function Slot(price: int): int {
    price % MAX_PRICE_LEVELS
  }

  /** The numbers below `n`. */
  function Upto(n: nat): (r: set<nat>)
    ensures forall i: nat :: i in r <==> i < n
    ensures |r| == n
  {
    if n == 0 then {} else Upto(n - 1) + {n - 1}
  }

  /** What 32-bit signed arithmetic leaves of a result, in two's complement. */
  function Wrap32(x: int): (r: int)
    ensures -TWO_31 <= r < TWO_31
    ensures -TWO_31 <= x < TWO_31 ==> r == x
  {
    (x + TWO_31) % TWO_32 - TWO_31
  }

  lemma Grouped<M>(a: seq<M>, b: seq<M>, c: seq<M>)
    ensures a + b + c == a + (b + c)
  {
  }

  datatype ResponseType = Accepted | Canceled | Filled | CancelRejected

  /** MEClientResponse; side `None` stands for Side::INVALID. */
  datatype ClientResponse = ClientResponse(
    kind: ResponseType, client: nat, ticker: nat, clientOid: nat, marketOid: nat,
    side: Option<Side>, price: int, execQty: nat, leavesQty: nat)

  datatype UpdateType = Invalid | Clear | Add | Modify | Cancel | Trade | SnapshotStart | SnapshotEnd

  /** MEMarketUpdate; side `None` stands for Side::INVALID. */
  datatype MarketUpdate = MarketUpdate(
    kind: UpdateType, orderId: nat, ticker: nat, side: Option<Side>, price: int, qty: nat, priority: nat)

  datatype RequestType = New | CancelOrder

  /** MEClientRequest. */
  datatype ClientRequest = ClientRequest(
    kind: RequestType, client: nat, ticker: nat, orderId: nat, side: Side, price: int, qty: nat)
}

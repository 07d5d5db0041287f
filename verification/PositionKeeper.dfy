/** Position and profit of one instrument (src/include/trading_engine/position_keeper.hpp), with reals for doubles. */
module PositionKeeper {
  import opened Types

  function SideValue(s: Side): int {
    if s.Buy? then 1 else -1
  }

  function Abs(x: int): nat {
    if x < 0 then -x else x
  }

  // ---------------------------------------------------------------- average-cost accounting

  /** The textbook account: a position, the average price it was entered at, and what has been realised. */
  datatype Account = Account(position: int, entry: real, realised: real)

  datatype Fill = Fill(side: Side, qty: nat, price: int)

  /** A fill with the position moves the average; one against it realises the difference to the average on the
      quantity it closes, and what goes beyond that enters at the fill's own price. */
  function Book(a: Account, f: Fill): Account {
    var v := SideValue(f.side);
    var next := a.position + v * f.qty;
    if a.position * v >= 0 then
      Account(next,
              if next == 0 then 0.0
              else (Abs(a.position) as real * a.entry + (f.price * f.qty) as real) / Abs(next) as real,
              a.realised)
    else if f.qty <= Abs(a.position) then
      Account(next, if next == 0 then 0.0 else a.entry, a.realised + f.qty as real * (a.entry - f.price as real) * v as real)
    else
      Account(next, f.price as real, a.realised + Abs(a.position) as real * (a.entry - f.price as real) * v as real)
  }

  function BookAll(fills: seq<Fill>): Account {
    if fills == [] then Account(0, 0.0, 0.0) else Book(BookAll(fills[..|fills| - 1]), fills[|fills| - 1])
  }

  /** Money received for a fill, negative when money is paid. */
  function Flow(f: Fill): real {
    -((SideValue(f.side) * f.qty * f.price) as real)
  }

  function Cash(fills: seq<Fill>): real {
    if fills == [] then 0.0 else Cash(fills[..|fills| - 1]) + Flow(fills[|fills| - 1])
  }

  function Value(position: int, price: real): real {
    position as real * price
  }

  lemma NoPosition(price: real)
    ensures Value(0, price) == 0.0
  {
  }

  /** What has been realised less what the open position cost. */
  function Net(a: Account): real {
    a.realised - a.position as real * a.entry
  }

  lemma Products(f: Fill)
    ensures Flow(f) == -(f.qty as real * f.price as real) * SideValue(f.side) as real
    ensures (f.price * f.qty) as real == f.qty as real * f.price as real
  {
    assert SideValue(f.side) * f.qty * f.price == SideValue(f.side) * (f.price * f.qty);
  }

  lemma Quotient(x: real, n: real)
    requires n != 0.0
    ensures n * (x / n) == x
  {
  }

  lemma OpenKeepsCash(a: Account, f: Fill, b: Account)
    requires b == Book(a, f) && a.position * SideValue(f.side) >= 0
    ensures Net(b) == Net(a) + Flow(f)
  {
    Products(f);
    if b.position != 0 {
      Quotient(Abs(a.position) as real * a.entry + (f.price * f.qty) as real, Abs(b.position) as real);
    }
  }

  lemma CloseKeepsCash(a: Account, f: Fill, b: Account)
    requires b == Book(a, f) && a.position * SideValue(f.side) < 0
    ensures Net(b) == Net(a) + Flow(f)
  {
    Products(f);
    var q, p, pos, e := f.qty as real, f.price as real, a.position as real, a.entry;
    if f.side.Buy? {
      assert q * (e - p) == q * e - q * p && (pos + q) * e == pos * e + q * e;
      assert (-pos) * (e - p) == -(pos * e) + pos * p && (pos + q) * p == pos * p + q * p;
    } else {
      assert q * (e - p) == q * e - q * p && (pos - q) * e == pos * e - q * e;
      assert pos * (e - p) == pos * e - pos * p && (pos - q) * p == pos * p - q * p;
    }
  }

  lemma BookKeepsCash(a: Account, f: Fill, b: Account)
    requires b == Book(a, f)
    ensures Net(b) == Net(a) + Flow(f)
  {
    if a.position * SideValue(f.side) >= 0 {
      OpenKeepsCash(a, f, b);
    } else {
      CloseKeepsCash(a, f, b);
    }
  }

  lemma NetOfNothing(a: Account)
    requires a.position == 0
    ensures Net(a) == a.realised
  {
    NoPosition(a.entry);
  }

  /** Over any fills, through opens, reductions, flat and flips: what is realised less what the open position cost
      is the cash flow. */
  lemma {:induction false} RealisedIsCash(fills: seq<Fill>, a: Account)
    requires a == BookAll(fills)
    ensures Net(a) == Cash(fills)
  {
    if fills == [] {
      NetOfNothing(a);
    } else {
      var before, f := fills[..|fills| - 1], fills[|fills| - 1];
      RealisedIsCash(before, BookAll(before));
      BookKeepsCash(BookAll(before), f, a);
    }
  }

  // ---------------------------------------------------------------- the position as kept

  lemma Share(e: real, n: real)
    requires n != 0.0
    ensures n * e / n == e
  {
  }

  /** Open value of each side: the whole entry value on the side of the position, nothing on the other. */
  ghost predicate ShowsOpen(a: Account, open: PerSide<real>) {
    && open.buy == (if a.position > 0 then Abs(a.position) as real * a.entry else 0.0)
    && open.sell == (if a.position < 0 then Abs(a.position) as real * a.entry else 0.0)
  }

  /** Gain of the open position at a price. */
  function Unrealised(a: Account, mark: real): real {
    Value(a.position, mark) - Value(a.position, a.entry)
  }

  lemma OpenIsCost(a: Account, open: PerSide<real>)
    requires ShowsOpen(a, open)
    ensures a.realised - open.buy + open.sell == Net(a)
  {
  }

  lemma GainSplits(a: Account, mark: real)
    ensures Unrealised(a, mark) + a.realised == Net(a) + Value(a.position, mark)
  {
  }

  lemma Total(a: Account, mark: real, total: real, cash: real)
    requires total == Unrealised(a, mark) + a.realised && Net(a) == cash
    ensures total == cash + Value(a.position, mark)
  {
    GainSplits(a, mark);
  }

  /** Opening or adding: the open value grows by what was paid. */
  lemma OpenShows(a: Account, f: Fill, b: Account, open: PerSide<real>, paid: real)
    requires b == Book(a, f) && a.position * SideValue(f.side) >= 0 && ShowsOpen(a, open)
    requires paid == (f.price * f.qty) as real
    ensures b.position != 0 ==> ShowsOpen(b, open.With(f.side, open.Of(f.side) + paid))
  {
    if b.position != 0 {
      Quotient(Abs(a.position) as real * a.entry + paid, Abs(b.position) as real);
    }
  }

  /** The code's test for a flip multiplies two 32-bit positions in 32 bits. */
  predicate SeesFlip(was: int, next: int) {
    Wrap32(next * was) < 0
  }

  /** The truncated product has the true sign. */
  predicate SignKept(was: int, next: int) {
    SeesFlip(was, next) <==> next * was < 0
  }

  /** The open values once a fill has decreased the position from `was` to `next`, at the average `vwap`. */
  function Reduced(open: PerSide<real>, was: int, next: int, f: Fill, vwap: real): PerSide<real> {
    var left := open.With(f.side.Opposite(), Worth(vwap, next));
    if SeesFlip(was, next) then left.With(f.side, Worth(f.price as real, next)).With(f.side.Opposite(), 0.0) else left
  }

  function Worth(price: real, position: int): real {
    price * Abs(position) as real
  }

  /** The average the position was entered at, as the code divides it out of the open value. */
  function Vwap(open: PerSide<real>, was: int, f: Fill): real
    requires was != 0
  {
    open.Of(f.side.Opposite()) / Abs(was) as real
  }

  /** Realised by a fill that decreases the position from `was`, at the average `vwap`. */
  function Gain(was: int, f: Fill, vwap: real): real {
    (if f.qty <= Abs(was) then f.qty else Abs(was)) as real * (vwap - f.price as real) * SideValue(f.side) as real
  }

  lemma AverageIsEntry(a: Account, f: Fill, open: PerSide<real>)
    requires a.position * SideValue(f.side) < 0 && ShowsOpen(a, open)
    ensures Vwap(open, a.position, f) == a.entry && open.Of(f.side) == 0.0
    ensures a.entry == 0.0 <==> open.Of(f.side.Opposite()) == 0.0
  {
    Share(a.entry, Abs(a.position) as real);
  }

  lemma GainIsRealised(a: Account, f: Fill, b: Account)
    requires b == Book(a, f) && a.position * SideValue(f.side) < 0
    ensures b.realised == a.realised + Gain(a.position, f, a.entry)
  {
  }

  /** The position crosses zero exactly when the fill is larger, and only then enters at the fill's price. */
  lemma Signs(a: Account, f: Fill, b: Account)
    requires b == Book(a, f) && a.position * SideValue(f.side) < 0
    ensures b.position * a.position < 0 <==> f.qty > Abs(a.position)
    ensures b.position * a.position > 0 <==> f.qty < Abs(a.position)
    ensures f.qty > Abs(a.position) ==> b.entry == f.price as real
    ensures f.qty < Abs(a.position) ==> b.entry == a.entry
    ensures b.position != 0 ==> (b.position > 0 <==> (if f.qty > Abs(a.position) then f.side == Buy else f.side == Sell))
  {
  }

  /** What makes it average cost: adding to a position realises nothing, reducing one leaves the average it was entered
      at, and what crosses zero is entered at the fill's price; the cash identity gives the rest. */
  lemma AverageCost(a: Account, f: Fill, b: Account)
    requires b == Book(a, f)
    ensures b.position == a.position + SideValue(f.side) * f.qty && Net(b) == Net(a) + Flow(f)
    ensures a.position * SideValue(f.side) >= 0 ==> b.realised == a.realised
    ensures a.position * SideValue(f.side) < 0 && f.qty < Abs(a.position) ==> b.entry == a.entry
    ensures a.position * SideValue(f.side) < 0 && f.qty > Abs(a.position) ==> b.entry == f.price as real
  {
    BookKeepsCash(a, f, b);
  }

  lemma SameSideAgain(a: Account, f: Fill, b: Account)
    requires b == Book(a, f) && a.position * SideValue(f.side) >= 0
    ensures b.realised == a.realised && b.position * SideValue(f.side) >= 0
  {
  }

  lemma NetWithoutGain(a: Account)
    requires a.realised == 0.0
    ensures Value(a.position, a.entry) == -Net(a)
  {
  }

  lemma {:induction false} OneSideOnly(fills: seq<Fill>, s: Side, a: Account)
    requires (forall i :: 0 <= i < |fills| ==> fills[i].side == s) && a == BookAll(fills)
    ensures a.realised == 0.0 && a.position * SideValue(s) >= 0
  {
    if fills != [] {
      var m := |fills| - 1;
      var before := BookAll(fills[..m]);
      OneSideOnly(fills[..m], s, before);
      SameSideAgain(before, fills[m], a);
    }
  }

  /** Buying alone, or selling alone, realises nothing: the whole cash flow is the cost of the position. */
  lemma {:induction false} OneSideRealisesNothing(fills: seq<Fill>, s: Side, a: Account)
    requires (forall i :: 0 <= i < |fills| ==> fills[i].side == s) && a == BookAll(fills)
    ensures a.realised == 0.0 && Value(a.position, a.entry) == -Cash(fills)
  {
    OneSideOnly(fills, s, a);
    RealisedIsCash(fills, a);
    NetWithoutGain(a);
  }

  lemma NoValue(x: real, n: real)
    requires 0.0 < n
    ensures x * n == 0.0 <==> x == 0.0
  {
  }

  /** Closing: as long as the truncated product has the true sign, the open value shrinks to the remaining share at
      the was average, or is entered anew at the fill's price. */
  lemma {:induction false} CloseShows(a: Account, f: Fill, b: Account, open: PerSide<real>)
    requires b == Book(a, f) && a.position * SideValue(f.side) < 0 && ShowsOpen(a, open)
    requires SignKept(a.position, b.position) && b.position != 0
    ensures ShowsOpen(b, Reduced(open, a.position, b.position, f, Vwap(open, a.position, f)))
  {
    AverageIsEntry(a, f, open);
    Signs(a, f, b);
  }

  /** With a false sign the open values are wrong, unless there is no value anywhere. */
  lemma {:induction false} CloseFails(a: Account, f: Fill, b: Account, open: PerSide<real>)
    requires b == Book(a, f) && a.position * SideValue(f.side) < 0 && ShowsOpen(a, open)
    requires !SignKept(a.position, b.position)
    ensures b.position != 0
    ensures ShowsOpen(b, Reduced(open, a.position, b.position, f, Vwap(open, a.position, f))) <==> f.price == 0 && open.Of(f.side.Opposite()) == 0.0
  {
    AverageIsEntry(a, f, open);
    Signs(a, f, b);
    NoValue(f.price as real, Abs(b.position) as real);
    NoValue(a.entry, Abs(b.position) as real);
  }

  /** A product of positions that fits 32 bits keeps its sign; so do all positions of up to 46340. */
  lemma SmallProductsKeepSign(was: int, next: int)
    ensures -TWO_31 <= next * was < TWO_31 ==> SignKept(was, next)
    ensures Abs(was) <= 46340 && Abs(next) <= 46340 ==> SignKept(was, next)
  {
    if Abs(was) <= 46340 && Abs(next) <= 46340 {
      ProductWithin(Abs(next), Abs(was), 46340);
      ProductOfSigns(next, was);
    }
  }

  lemma ProductWithin(x: nat, y: nat, n: nat)
    requires x <= n && y <= n
    ensures 0 <= x * y <= n * n
  {
    assert x * y <= n * y;
  }

  lemma ProductOfSigns(x: int, y: int)
    ensures x * y == Abs(x) * Abs(y) || x * y == -(Abs(x) * Abs(y))
  {
  }

  /** The open values after a fill. */
  function OpenAfter(open: PerSide<real>, was: int, f: Fill): PerSide<real> {
    var next := was + SideValue(f.side) * f.qty;
    if next == 0 then PerSide(0.0, 0.0)
    else if was * SideValue(f.side) >= 0 then open.With(f.side, open.Of(f.side) + (f.price * f.qty) as real)
    else Reduced(open, was, next, f, Vwap(open, was, f))
  }

  function RealisedAfter(realised: real, open: PerSide<real>, was: int, f: Fill): real {
    if was * SideValue(f.side) >= 0 then realised
    else realised + Gain(was, f, Vwap(open, was, f))
  }

  /** What a caller can test before a fill: it does not decrease the position, or the product of the positions before
      and after keeps its sign in 32 bits, or there is no value involved. */
  predicate Sound(open: PerSide<real>, was: int, f: Fill) {
    was * SideValue(f.side) < 0 ==>
      SignKept(was, was + SideValue(f.side) * f.qty) || (f.price == 0 && open.Of(f.side.Opposite()) == 0.0)
  }

  /** The open values kept after a fill are those of the account exactly when the fill is sound. */
  lemma {:induction false} SoundShows(a: Account, f: Fill, b: Account, open: PerSide<real>)
    requires b == Book(a, f) && ShowsOpen(a, open)
    ensures ShowsOpen(b, OpenAfter(open, a.position, f)) <==> Sound(open, a.position, f)
  {
    if b.position == 0 {
      assert SignKept(a.position, b.position);
    } else if a.position * SideValue(f.side) >= 0 {
      OpenShows(a, f, b, open, (f.price * f.qty) as real);
    } else if SignKept(a.position, b.position) {
      CloseShows(a, f, b, open);
    } else {
      CloseFails(a, f, b, open);
    }
  }

  lemma RealisedShows(a: Account, f: Fill, b: Account, open: PerSide<real>)
    requires b == Book(a, f) && ShowsOpen(a, open)
    ensures b.realised == RealisedAfter(a.realised, open, a.position, f)
  {
    if a.position * SideValue(f.side) < 0 {
      AverageIsEntry(a, f, open);
      GainIsRealised(a, f, b);
    }
  }

  /** What the code keeps of position, realised profit and open values after some fills. */
  datatype Kept = Kept(position: int, realised: real, open: PerSide<real>)

  function KeptAfter(fills: seq<Fill>): Kept {
    if fills == [] then Kept(0, 0.0, PerSide(0.0, 0.0))
    else
      var k, f := KeptAfter(fills[..|fills| - 1]), fills[|fills| - 1];
      Kept(k.position + SideValue(f.side) * f.qty, RealisedAfter(k.realised, k.open, k.position, f),
           OpenAfter(k.open, k.position, f))
  }

  predicate AllSound(fills: seq<Fill>) {
    fills != [] ==>
      var before := fills[..|fills| - 1];
      AllSound(before) && Sound(KeptAfter(before).open, KeptAfter(before).position, fills[|fills| - 1])
  }

  /** Over any sound fills what the code keeps is the account, and the cash identity holds of it. */
  lemma {:induction false} KeptIsAccount(fills: seq<Fill>, k: Kept, a: Account)
    requires AllSound(fills) && k == KeptAfter(fills) && a == BookAll(fills)
    ensures k.position == a.position && k.realised == a.realised && ShowsOpen(a, k.open)
    ensures k.realised - k.open.buy + k.open.sell == Cash(fills)
  {
    RealisedIsCash(fills, a);
    if fills != [] {
      var before, f := fills[..|fills| - 1], fills[|fills| - 1];
      KeptIsAccount(before, KeptAfter(before), BookAll(before));
      SoundShows(BookAll(before), f, a, KeptAfter(before).open);
      RealisedShows(BookAll(before), f, a, KeptAfter(before).open);
    }
    OpenIsCost(a, k.open);
  }

  /** 60000 bought and 10000 of them sold at the same price: 50000 * 60000 is negative in 32 bits, the sale is taken
      for a flip to the short side, and the books are five million off each way. */
  lemma {:induction false} FlipImagined(fills: seq<Fill>)
    requires fills == [Fill(Buy, 60000, 100), Fill(Sell, 10000, 100)]
    ensures KeptAfter(fills) == Kept(50000, 0.0, PerSide(0.0, 5000000.0))
    ensures Cash(fills) == -5000000.0
    ensures !Sound(KeptAfter(fills[..1]).open, 60000, fills[1])
  {
    assert fills[..1][..0] == [];
    assert KeptAfter(fills[..1]) == Kept(60000, 0.0, PerSide(6000000.0, 0.0));
    assert Wrap32(50000 * 60000) == -1294967296;
    assert Cash(fills[..1]) == -6000000.0;
  }

  function Volume(fills: seq<Fill>): nat {
    if fills == [] then 0 else (Volume(fills[..|fills| - 1]) + fills[|fills| - 1].qty) % TWO_32
  }

  function TotalQty(fills: seq<Fill>): nat {
    if fills == [] then 0 else fills[0].qty + TotalQty(fills[1..])
  }

  lemma {:induction false} TotalQtyLast(fills: seq<Fill>)
    requires fills != []
    ensures TotalQty(fills) == TotalQty(fills[..|fills| - 1]) + fills[|fills| - 1].qty
  {
    if |fills| > 1 {
      TotalQtyLast(fills[1..]);
      assert fills[1..][..|fills| - 2] == fills[..|fills| - 1][1..];
    }
  }

  /** The volume is what all fills add up to, in 32 bits. */
  lemma {:induction false} VolumeIsTotal(fills: seq<Fill>)
    ensures Volume(fills) == TotalQty(fills) % TWO_32
  {
    if fills != [] {
      VolumeIsTotal(fills[..|fills| - 1]);
      TotalQtyLast(fills);
    }
  }

  class PositionInfo {
    var position: int
    var realPnl: real
    var unrealPnl: real
    var totalPnl: real
    var openVwap: PerSide<real>
    var volume: nat

    ghost var fills: seq<Fill>
    ghost var account: Account
    /** The last price the position was valued at. */
    ghost var mark: real

    /** The profits are those of the account of all fills so far, valued at the last mark. */
    ghost predicate Priced()
      reads this
    {
      && account == BookAll(fills) && position == account.position && realPnl == account.realised
      && unrealPnl == Unrealised(account, mark) && totalPnl == unrealPnl + realPnl
    }

    ghost predicate Valid()
      reads this
    {
      Priced() && ShowsOpen(account, openVwap) && volume == Volume(fills)
    }

    constructor ()
      ensures Valid() && fills == [] && position == 0 && totalPnl == 0.0
    {
      position, realPnl, unrealPnl, totalPnl := 0, 0.0, 0.0, 0.0;
      openVwap, volume := PerSide(0.0, 0.0), 0;
      fills, account, mark := [], Account(0, 0.0, 0.0), 0.0;
      NoPosition(0.0);
    }

    /** Realised profit and open values are the cash flow, and the side opposite to the position has no open value. */
    lemma ProfitIsCash()
      requires Valid()
      ensures realPnl - openVwap.buy + openVwap.sell == Cash(fills)
      ensures (position <= 0 ==> openVwap.buy == 0.0) && (position >= 0 ==> openVwap.sell == 0.0)
    {
      RealisedIsCash(fills, account);
      OpenIsCost(account, openVwap);
    }

    lemma NetIsCash()
      requires account == BookAll(fills)
      ensures Net(account) == Cash(fills)
    {
      RealisedIsCash(fills, account);
    }

    /** Mark to market: total profit is the cash flow plus the position at the last price it was valued at. */
    lemma TotalIsMarkedToMarket()
      requires Priced()
      ensures totalPnl == Cash(fills) + Value(position, mark)
    {
      NetIsCash();
      Total(account, mark, totalPnl, Cash(fills));
    }

    /** The value of the position at a price, as both methods compute it. */
    method Unreal(price: real) returns (unreal: real)
      requires position != 0 && position == account.position
      ensures ShowsOpen(account, openVwap) ==> unreal == Unrealised(account, price)
    {
      Share(account.entry, Abs(position) as real);
      if position > 0 {
        unreal := (price - openVwap.buy / Abs(position) as real) * Abs(position) as real;
      } else {
        unreal := (openVwap.sell / Abs(position) as real - price) * Abs(position) as real;
      }
    }

    /** The open values and the realised profit after a fill that decreases the position. */
    method Decrease(f: Fill, oldPosition: int)
      requires oldPosition != 0
      modifies this`openVwap, this`realPnl
      ensures openVwap == Reduced(old(openVwap), oldPosition, position, f, Vwap(old(openVwap), oldPosition, f))
      ensures realPnl == old(realPnl) + Gain(oldPosition, f, Vwap(old(openVwap), oldPosition, f))
    {
      var oppSideVwap := Vwap(openVwap, oldPosition, f);
      Reenter(f, oldPosition, oppSideVwap);
      realPnl := realPnl + Gain(oldPosition, f, oppSideVwap);
    }

    method Reenter(f: Fill, oldPosition: int, oppSideVwap: real)
      modifies this`openVwap
      ensures openVwap == Reduced(old(openVwap), oldPosition, position, f, oppSideVwap)
    {
      openVwap := openVwap.With(f.side.Opposite(), Worth(oppSideVwap, position));
      if Wrap32(position * oldPosition) < 0 {
        openVwap := openVwap.With(f.side, Worth(f.price as real, position));
        openVwap := openVwap.With(f.side.Opposite(), 0.0);
      }
    }

    /** The open values and the realised profit after a fill, before a flat position is cleared. */
    method Settle(f: Fill, oldPosition: int)
      requires position == oldPosition + SideValue(f.side) * f.qty
      modifies this`openVwap, this`realPnl
      ensures position != 0 ==> openVwap == OpenAfter(old(openVwap), oldPosition, f)
      ensures realPnl == RealisedAfter(old(realPnl), old(openVwap), oldPosition, f)
    {
      if oldPosition * SideValue(f.side) >= 0 {
        openVwap := openVwap.With(f.side, openVwap.Of(f.side) + (f.price * f.qty) as real);
      } else {
        Decrease(f, oldPosition);
      }
    }

    /** The profits at a new price. */
    method Revalue(price: real)
      requires position == account.position
      modifies this`openVwap, this`unrealPnl, this`totalPnl
      ensures openVwap == if position == 0 then PerSide(0.0, 0.0) else old(openVwap)
      ensures ShowsOpen(account, openVwap) ==> unrealPnl == Unrealised(account, price)
      ensures totalPnl == unrealPnl + realPnl
    {
      if position == 0 {
        openVwap := PerSide(0.0, 0.0);
        unrealPnl := 0.0;
      } else {
        unrealPnl := Unreal(price);
      }
      totalPnl := unrealPnl + realPnl;
    }

    /** One execution of ours, in the 32-bit range of positions and quantities: the books stay those of average-cost
        accounting exactly when the fill is sound. */
    method AddFill(side: Side, execQty: nat, price: int)
      requires Valid() && execQty < TWO_31 && Abs(position) < TWO_31 && Abs(position + SideValue(side) * execQty) < TWO_31
      modifies this
      ensures Valid() <==> Sound(old(openVwap), old(position), Fill(side, execQty, price))
      ensures fills == old(fills) + [Fill(side, execQty, price)] && mark == price as real
      ensures position == old(position) + SideValue(side) * execQty
      ensures volume == Volume(fills) == (old(volume) + execQty) % TWO_32
      ensures openVwap == OpenAfter(old(openVwap), old(position), Fill(side, execQty, price))
      ensures realPnl == RealisedAfter(old(realPnl), old(openVwap), old(position), Fill(side, execQty, price))
    {
      var f := Fill(side, execQty, price);
      ghost var next := Take(f);
      account, fills, mark := next, fills + [f], price as real;
      Revalue(price as real);
    }

    /** Position, volume, open values and realised profit after a fill. */
    method Take(f: Fill) returns (ghost next: Account)
      requires Valid()
      modifies this`position, this`volume, this`openVwap, this`realPnl
      ensures next == BookAll(fills + [f]) && volume == Volume(fills + [f]) == (old(volume) + f.qty) % TWO_32
      ensures position == next.position == old(position) + SideValue(f.side) * f.qty
      ensures position != 0 ==> openVwap == OpenAfter(old(openVwap), old(position), f)
      ensures realPnl == next.realised == RealisedAfter(old(realPnl), old(openVwap), old(position), f)
      ensures ShowsOpen(next, OpenAfter(old(openVwap), old(position), f)) <==> Sound(old(openVwap), old(position), f)
    {
      var oldPosition := position;
      next := Book(account, f);
      assert (fills + [f])[..|fills|] == fills;
      SoundShows(account, f, next, openVwap);
      RealisedShows(account, f, next, openVwap);
      position := position + SideValue(f.side) * f.qty;
      volume := (volume + f.qty) % TWO_32;
      Settle(f, oldPosition);
    }

    /** A new best bid and offer values an open position at the middle, when both sides are quoted. */
    method UpdateBbo(bid: int, ask: int)
      requires Valid()
      modifies this`unrealPnl, this`totalPnl, this`mark
      ensures Valid()
      ensures mark == if position != 0 && bid != PRICE_INVALID && ask != PRICE_INVALID then (bid + ask) as real * 0.5
                      else old(mark)
    {
      if position != 0 && bid != PRICE_INVALID && ask != PRICE_INVALID {
        var midPrice := (bid + ask) as real * 0.5;
        mark := midPrice;
        unrealPnl := Unreal(midPrice);
        totalPnl := unrealPnl + realPnl;
      }
    }
  }
}

/**
 * The trade execution engine of one account: pip size, filling mode,
 * risk-based lot sizing, the order kind and request of every entry of a
 * signal, and the hand-over of accepted orders to the registration queue.
 */
module Execution {
  import opened Wrappers
  import opened Text
  import opened Rounding
  import opened Venue
  import Symbols

  /** `get_filling_mode`: immediate-or-cancel whether or not the symbol is known. */
  function FillingMode(info: Option<SymbolInfo>): (f: Filling)
    ensures f == ImmediateOrCancel
  {
    ImmediateOrCancel
  }

  /**
   * `get_symbol_pip_info`, a first-match decision list on the upper-cased
   * broker symbol and the symbol's digits; `None` when the symbol is unknown.
   */
  function PipSize(symbol: string, info: Option<SymbolInfo>): (r: Option<real>)
    ensures r.None? <==> info.None?
    ensures r.Some? ==> r.value == 1.0 || r.value == 0.01 || r.value == 0.0001 || r.value == 10.0 * info.value.point
  {
    match info
    case None => None
    case Some(si) =>
      var u := Upper(symbol);
      if Contains(u, "CASH") || Contains(u, "JP225") || si.digits <= 1 then Some(1.0)
      else if Contains(u, "JPY") then Some(0.01)
      else if Contains(u, "XAU") && (si.digits == 2 || si.digits == 3) then Some(0.01)
      else if si.digits == 4 || si.digits == 5 then Some(0.0001)
      else Some(10.0 * si.point)
  }

  /** A broker symbol whose upper-cased form contains CASH is sized in whole points. */
  lemma CashSymbolPip(symbol: string, si: SymbolInfo, at: nat)
    requires at + 4 <= |symbol| && symbol[at..at + 4] == "Cash"
    ensures PipSize(symbol, Some(si)) == Some(1.0)
  {
    var u := Upper(symbol);
    assert u[at] == 'C' && u[at + 1] == 'A' && u[at + 2] == 'S' && u[at + 3] == 'H' by {
      assert symbol[at] == 'C' && symbol[at + 1] == 'a' && symbol[at + 2] == 's' && symbol[at + 3] == 'h';
    }
    assert u[at..at + 4] == "CASH";
    assert "CASH" <= u[at..];
  }

  /** XAUUSD quoted with two or three digits has a pip of 0.01. */
  lemma GoldPip(si: SymbolInfo)
    requires si.digits == 2 || si.digits == 3
    ensures PipSize("XAUUSD", Some(si)) == Some(0.01)
  {
    var u := Upper("XAUUSD");
    forall i | 0 <= i < |u| ensures u[i] == "XAUUSD"[i] {
    }
    assert u == "XAUUSD";
    assert "XAU" <= u[0..];
    LacksFirstChar(u, "CASH");
    LacksFirstChar(u, "JP225");
    LacksFirstChar(u, "JPY");
  }

  /** A text none of whose characters is the first of `sub` does not contain `sub`. */
  lemma LacksFirstChar(s: string, sub: string)
    requires sub != [] && forall i :: 0 <= i < |s| ==> s[i] != sub[0]
    ensures !Contains(s, sub)
  {
    forall i | 0 <= i <= |s| ensures !(sub <= s[i..]) {
      if i < |s| {
        assert s[i..][0] == s[i];
      }
    }
  }

  /** Every broker name of the alias table is an index traded in whole points, or gold. */
  lemma AliasTargetsPipSize(alias: string, si: SymbolInfo)
    requires alias in Symbols.SymbolMap()
    ensures Symbols.SymbolMap()[alias] != "XAUUSD" ==> PipSize(Symbols.SymbolMap()[alias], Some(si)) == Some(1.0)
    ensures Symbols.SymbolMap()[alias] == "XAUUSD" && (si.digits == 2 || si.digits == 3) ==>
      PipSize(Symbols.SymbolMap()[alias], Some(si)) == Some(0.01)
  {
    Symbols.ForwardLookups();
    var broker := Symbols.SymbolMap()[alias];
    if broker == "XAUUSD" {
      if si.digits == 2 || si.digits == 3 {
        GoldPip(si);
      }
    } else {
      assert broker in {"US30Cash", "GER40Cash", "OILCash", "JP225Cash", "US100Cash"};
      CashSymbolPip(broker, si, |broker| - 4);
    }
  }

  /** Why `calculate_lot_size` gives no volume; ZeroVolumeStep is Python's uncaught ZeroDivisionError. */
  datatype LotError =
    | NoAccountInfo | NoSymbolInfo | ZeroStopDistance | InvalidTickInfo | ZeroRiskPerLot | ZeroVolumeStep

  /** The number of take-profit targets the volume is split across: zero or fewer counts as one. */
  function TargetCount(numTps: int): (n: nat)
    ensures n >= 1
    ensures numTps >= 1 ==> n == numTps
    ensures numTps <= 0 ==> n == 1
  {
    if numTps <= 0 then 1 else numTps
  }

  /** One target's share: the raw share, raised to the minimum, rounded UP to a whole number of steps. */
  function PerTargetShare(rawTotal: real, n: nat, volumeMin: real, step: real): real
    requires n >= 1 && step != 0.0
  {
    Ceil(Max(rawTotal / n as real, volumeMin) / step) as real * step
  }

  /** The shares times the target count, capped at the maximum, then raised to the minimum. */
  function CappedTotal(share: real, n: nat, volumeMin: real, volumeMax: real): real {
    var total := Min(volumeMax, share * n as real);
    if total < volumeMin then volumeMin else total
  }

  /** The account currency the trade may lose at the stop-loss. */
  function RiskAmount(balance: real, riskPercent: real): real {
    balance * (riskPercent / 100.0)
  }

  /** The stop distance in price times the value of one price unit for one lot. */
  function RiskPerLot(entryPrice: real, slPrice: real, si: SymbolInfo): real
    requires si.tickValue.Some? && si.tickSize.Some? && si.tickSize.value != 0.0
  {
    (if entryPrice >= slPrice then entryPrice - slPrice else slPrice - entryPrice)
      * (si.tickValue.value / si.tickSize.value)
  }

  /** The tick data lot sizing needs: a tick value and a non-zero tick size. */
  predicate TickInfoValid(si: SymbolInfo) {
    si.tickValue.Some? && si.tickSize.Some? && si.tickSize.value != 0.0
  }

  /**
   * `calculate_lot_size`: the order volume for one entry. It fails, in this
   * order, without account info, without symbol info, for a zero stop
   * distance, for a missing or zero tick size or missing tick value, and for
   * a zero risk per lot; a zero volume step raises.
   */
  function LotSize(balance: Option<real>, riskPercent: real, numTps: int, info: Option<SymbolInfo>,
                   entryPrice: real, slPrice: real): (r: Result<real, LotError>)
    ensures r == Err(NoAccountInfo) <==> balance.None?
    ensures r == Err(NoSymbolInfo) <==> balance.Some? && info.None?
    ensures r == Err(ZeroStopDistance) <==> balance.Some? && info.Some? && entryPrice == slPrice
    ensures r == Err(InvalidTickInfo) <==>
      balance.Some? && info.Some? && entryPrice != slPrice && !TickInfoValid(info.value)
    ensures r == Err(ZeroRiskPerLot) <==>
      balance.Some? && info.Some? && entryPrice != slPrice && TickInfoValid(info.value) &&
      RiskPerLot(entryPrice, slPrice, info.value) == 0.0
    ensures r == Err(ZeroVolumeStep) <==>
      balance.Some? && info.Some? && entryPrice != slPrice && TickInfoValid(info.value) &&
      RiskPerLot(entryPrice, slPrice, info.value) != 0.0 && info.value.volumeStep == 0.0
  {
    if balance.None? then Err(NoAccountInfo)
    else if info.None? then Err(NoSymbolInfo)
    else
      var si := info.value;
      if entryPrice == slPrice then Err(ZeroStopDistance)
      else if !TickInfoValid(si) then Err(InvalidTickInfo)
      else
        var riskPerLot := RiskPerLot(entryPrice, slPrice, si);
        if riskPerLot == 0.0 then Err(ZeroRiskPerLot)
        else if si.volumeStep == 0.0 then Err(ZeroVolumeStep)
        else
          var n := TargetCount(numTps);
          var raw := RiskAmount(balance.value, riskPercent) / riskPerLot;
          Ok(Round2(CappedTotal(PerTargetShare(raw, n, si.volumeMin, si.volumeStep), n, si.volumeMin, si.volumeMax)))
  }

  /** With a non-zero stop distance, the risk per lot is zero exactly when the tick value is. */
  lemma ZeroRiskPerLotIffZeroTickValue(entryPrice: real, slPrice: real, si: SymbolInfo)
    requires entryPrice != slPrice && TickInfoValid(si)
    ensures RiskPerLot(entryPrice, slPrice, si) == 0.0 <==> si.tickValue.value == 0.0
  {
    var d := if entryPrice >= slPrice then entryPrice - slPrice else slPrice - entryPrice;
    ProductZero(d, si.tickValue.value / si.tickSize.value);
    DivZero(si.tickValue.value, si.tickSize.value);
  }

  lemma QuotientLowerBound(x: real, step: real, r: real)
    requires step > 0.0 && x / step <= r
    ensures x <= r * step
  {
    MulMono(x / step, r, step);
    DivMul(x, step);
  }

  lemma QuotientUpperBound(x: real, step: real, r: real)
    requires step > 0.0 && r < x / step + 1.0
    ensures r * step < x + step
  {
    var y := x / step;
    var p := (y + 1.0) * step;
    MulMonoStrict(r, y + 1.0, step);
    assert r * step < p;
    AddOneMul(y, step);
    DivMul(x, step);
    assert p == x + step;
  }

  /** Rounding up to a whole number of steps overshoots by less than one step. */
  lemma CeilStepBounds(x: real, step: real)
    requires step > 0.0
    ensures var k := Ceil(x / step);
      && x <= k as real * step < x + step
      && (k as real * step) / step == k as real
  {
    var r := Ceil(x / step) as real;
    QuotientLowerBound(x, step, r);
    QuotientUpperBound(x, step, r);
    MulDiv(r, step);
  }

  /**
   * The per-target share is a whole number of steps, covers the raw share
   * and the minimum, and is the least such multiple.
   */
  lemma ShareBounds(rawTotal: real, n: nat, volumeMin: real, step: real)
    requires n >= 1 && step > 0.0
    ensures var share := PerTargetShare(rawTotal, n, volumeMin, step);
      && share >= rawTotal / n as real
      && share >= volumeMin
      && share < Max(rawTotal / n as real, volumeMin) + step
      && (share / step).Floor as real == share / step
  {
    var x := Max(rawTotal / n as real, volumeMin);
    var y := x / step;
    var k := Ceil(y);
    CeilStepBounds(x, step);
    assert PerTargetShare(rawTotal, n, volumeMin, step) == k as real * step;
  }

  /** With everything the sizing needs present, the volume is the rounded, capped total of `n` shares. */
  lemma LotSizeOfValidInputs(balance: real, riskPercent: real, numTps: int, si: SymbolInfo,
                             entryPrice: real, slPrice: real)
    requires entryPrice != slPrice && TickInfoValid(si) && RiskPerLot(entryPrice, slPrice, si) != 0.0
    requires si.volumeStep != 0.0
    ensures var n := TargetCount(numTps);
            var raw := RiskAmount(balance, riskPercent) / RiskPerLot(entryPrice, slPrice, si);
            LotSize(Some(balance), riskPercent, numTps, Some(si), entryPrice, slPrice)
              == Ok(Round2(CappedTotal(PerTargetShare(raw, n, si.volumeMin, si.volumeStep), n, si.volumeMin, si.volumeMax)))
  {
  }

  /** A positive share at least the minimum, times `n`, is left alone unless above the maximum. */
  lemma UncappedTotal(share: real, n: nat, volumeMin: real, volumeMax: real)
    requires n >= 1 && share >= volumeMin > 0.0 && share * n as real <= volumeMax
    ensures CappedTotal(share, n, volumeMin, volumeMax) == share * n as real
  {
    MulMono(1.0, n as real, share);
  }

  /**
   * Unless the cap intervenes, the total is exactly `n` equal shares, each a
   * whole number of steps and at least the minimum (with a positive minimum).
   */
  lemma UncappedTotalSplitsEvenly(rawTotal: real, n: nat, volumeMin: real, step: real, volumeMax: real)
    requires n >= 1 && step > 0.0 && volumeMin > 0.0
    requires PerTargetShare(rawTotal, n, volumeMin, step) * n as real <= volumeMax
    ensures var share := PerTargetShare(rawTotal, n, volumeMin, step);
      && CappedTotal(share, n, volumeMin, volumeMax) == share * n as real
      && share >= volumeMin
      && (share / step).Floor as real == share / step
  {
    ShareBounds(rawTotal, n, volumeMin, step);
    UncappedTotal(PerTargetShare(rawTotal, n, volumeMin, step), n, volumeMin, volumeMax);
  }

  /** Whatever the raw volume, the total before rounding lies between the venue's minimum and maximum. */
  lemma CappedTotalWithinLimits(share: real, n: nat, volumeMin: real, volumeMax: real)
    requires volumeMin <= volumeMax
    ensures volumeMin <= CappedTotal(share, n, volumeMin, volumeMax) <= volumeMax
    ensures share * n as real >= volumeMin ==> CappedTotal(share, n, volumeMin, volumeMax) == Min(volumeMax, share * n as real)
  {
  }

  /** The cap is applied after multiplying, so a capped total need not split into whole steps per target. */
  lemma CapCanBreakEvenSplit()
    ensures var share := PerTargetShare(0.12, 4, 0.01, 0.01);
      && share == 0.03
      && CappedTotal(share, 4, 0.01, 0.1) == 0.1
      && ((0.1 / 4.0) / 0.01).Floor as real != (0.1 / 4.0) / 0.01
  {
    assert Max(0.12 / 4 as real, 0.01) / 0.01 == 3.0;
    assert Ceil(3.0) == 3;
  }

  /** Round2 leaves a whole number of hundredths unchanged. */
  lemma Round2OfHundredths(k: int)
    ensures Round2(k as real / 100.0) == k as real / 100.0
  {
    assert (k as real / 100.0) * 100.0 == k as real;
    assert RoundHalfEven(k as real) == k;
  }

  function GoldInfo(): SymbolInfo {
    SymbolInfo(2, 0.01, Some(1.0), Some(0.01), 0.01, 0.01, 100.0)
  }

  /** Balance 10000 at 1% risk on gold with the stop 20 points away: a raw total of 0.05 lots. */
  lemma GoldNearEntry()
    ensures PerTargetShare(0.05, 4, 0.01, 0.01) == 0.02
    ensures LotSize(Some(10000.0), 1.0, 4, Some(GoldInfo()), 2950.0, 2930.0) == Ok(0.08)
  {
    var si := GoldInfo();
    assert RiskPerLot(2950.0, 2930.0, si) == 2000.0;
    assert RiskAmount(10000.0, 1.0) == 100.0;
    assert 100.0 / 2000.0 == 0.05;
    assert PerTargetShare(0.05, 4, 0.01, 0.01) == 0.02 by {
      assert Max(0.05 / 4 as real, 0.01) / 0.01 == 1.25;
      assert Ceil(1.25) == 2;
    }
    assert CappedTotal(0.02, 4, 0.01, 100.0) == 8 as real / 100.0;
    Round2OfHundredths(8);
  }

  /** The same account with the stop 10 points away: a raw total of 0.1 lots. */
  lemma GoldFarEntry()
    ensures PerTargetShare(0.1, 4, 0.01, 0.01) == 0.03
    ensures LotSize(Some(10000.0), 1.0, 4, Some(GoldInfo()), 2940.0, 2930.0) == Ok(0.12)
  {
    var si := GoldInfo();
    assert RiskPerLot(2940.0, 2930.0, si) == 1000.0;
    assert RiskAmount(10000.0, 1.0) == 100.0;
    assert 100.0 / 1000.0 == 0.1;
    assert PerTargetShare(0.1, 4, 0.01, 0.01) == 0.03 by {
      assert Max(0.1 / 4 as real, 0.01) / 0.01 == 2.5;
      assert Ceil(2.5) == 3;
    }
    assert CappedTotal(0.03, 4, 0.01, 100.0) == 12 as real / 100.0;
    Round2OfHundredths(12);
  }

  /**
   * A gold example: balance 10000, 1% risk, tick value 1, tick size 0.01,
   * four targets, stop 2930; entries at 2950 and 2940 give 0.08 and 0.12
   * lots, four equal shares of 0.02 and 0.03 lots (two and three steps).
   */
  lemma GoldScenario()
    ensures PerTargetShare(0.05, 4, 0.01, 0.01) == 0.02
    ensures PerTargetShare(0.1, 4, 0.01, 0.01) == 0.03
    ensures LotSize(Some(10000.0), 1.0, 4, Some(GoldInfo()), 2950.0, 2930.0) == Ok(0.08)
    ensures LotSize(Some(10000.0), 1.0, 4, Some(GoldInfo()), 2940.0, 2930.0) == Ok(0.12)
  {
    GoldNearEntry();
    GoldFarEntry();
  }

  /** The order-kind table of `_execute_single_order`. */
  const OrderKinds: map<string, OrderKind> := map[
    "BUY" := BuyKind, "SELL" := SellKind, "BUY_LIMIT" := BuyLimit,
    "SELL_LIMIT" := SellLimit, "BUY_STOP" := BuyStop, "SELL_STOP" := SellStop]

  /** The table key of an entry: the direction alone for a market entry, else direction, `_` and entry type. */
  function OrderTypeKey(direction: string, entryType: string): string {
    if entryType != "MARKET" then direction + "_" + entryType else direction
  }

  function OrderKindOf(key: string): Option<OrderKind> {
    if key in OrderKinds then Some(OrderKinds[key]) else None
  }

  /** A key with its only underscore at `at` splits there into direction and entry type. */
  lemma {:induction false} SplitAtUnderscore(direction: string, entryType: string, key: string, at: nat)
    requires direction + "_" + entryType == key
    requires at < |key| && forall i :: 0 <= i < |key| && key[i] == '_' ==> i == at
    ensures direction == key[..at] && entryType == key[at + 1..]
  {
    assert key[|direction|] == '_';
    assert key[..at] == direction;
    assert key[at + 1..] == entryType;
  }

  /**
   * Which entries get an order kind: a market entry when its direction is
   * itself a key of the table, any other entry exactly when the direction is
   * BUY or SELL and the entry type is LIMIT or STOP.
   */
  lemma OrderKindKnownIff(direction: string, entryType: string)
    ensures OrderKindOf(OrderTypeKey(direction, entryType)).Some? <==>
      if entryType == "MARKET" then direction in OrderKinds
      else (direction == "BUY" || direction == "SELL") && (entryType == "LIMIT" || entryType == "STOP")
  {
    if entryType != "MARKET" {
      var key := direction + "_" + entryType;
      if key in OrderKinds {
        PendingKeyShape(direction, entryType, key);
      }
      if (direction == "BUY" || direction == "SELL") && (entryType == "LIMIT" || entryType == "STOP") {
        EntryKinds();
      }
    }
  }

  /** A composed key the table knows is BUY or SELL, an underscore, and LIMIT or STOP. */
  lemma PendingKeyShape(direction: string, entryType: string, key: string)
    requires key == direction + "_" + entryType && key in OrderKinds
    ensures (direction == "BUY" || direction == "SELL") && (entryType == "LIMIT" || entryType == "STOP")
  {
    assert key[|direction|] == '_';
    if key == "BUY_LIMIT" || key == "BUY_STOP" {
      SplitAtUnderscore(direction, entryType, key, 3);
    } else if key == "SELL_LIMIT" || key == "SELL_STOP" {
      SplitAtUnderscore(direction, entryType, key, 4);
    }
  }

  /** The kinds a BUY or SELL signal's market, limit and stop entries are sent as. */
  lemma EntryKinds()
    ensures OrderKindOf(OrderTypeKey("BUY", "MARKET")) == Some(BuyKind)
    ensures OrderKindOf(OrderTypeKey("SELL", "MARKET")) == Some(SellKind)
    ensures OrderKindOf(OrderTypeKey("BUY", "LIMIT")) == Some(BuyLimit)
    ensures OrderKindOf(OrderTypeKey("SELL", "LIMIT")) == Some(SellLimit)
    ensures OrderKindOf(OrderTypeKey("BUY", "STOP")) == Some(BuyStop)
    ensures OrderKindOf(OrderTypeKey("SELL", "STOP")) == Some(SellStop)
  {
    assert "BUY" + "_" + "LIMIT" == "BUY_LIMIT";
    assert "SELL" + "_" + "LIMIT" == "SELL_LIMIT";
    assert "BUY" + "_" + "STOP" == "BUY_STOP";
    assert "SELL" + "_" + "STOP" == "SELL_STOP";
  }

  /** The request for one sized entry: the market entry has no price and is dealt at once, any other is pending. */
  function OrderRequest(login: int, signal: TradeSignal, entry: EntryPoint, kind: OrderKind, volume: real): Request {
    Place(if entry.entryType == "MARKET" then Deal else Pending,
          signal.symbol, volume, kind, signal.sl, signal.finalTp, login, "GID:" + signal.groupId,
          if entry.entryType != "MARKET" then Some(entry.price) else None,
          FillingMode(None))
  }

  /** What `_execute_single_order` does with one entry before talking to the venue. */
  datatype Attempt = Skipped | Crashed | Submit(request: Request, volume: real)

  /** The account a handler trades: its login (also the magic number) and the risk per trade in percent. */
  datatype Account = Account(login: int, riskPercent: real)

  /**
   * The checks of `_execute_single_order`, in order: a known order kind, a
   * last price for a market entry (the ask when buying, else the bid), a
   * volume from `calculate_lot_size` that is present and positive.
   */
  function PlanOrder(account: Account, signal: TradeSignal, entry: EntryPoint, balance: Option<real>, market: Market): (a: Attempt)
    ensures OrderKindOf(OrderTypeKey(signal.direction, entry.entryType)).None? ==> a.Skipped?
    ensures entry.entryType == "MARKET" && signal.symbol !in market.ticks ==> !a.Submit?
    ensures a.Crashed? ==> signal.symbol in market.symbols && market.symbols[signal.symbol].volumeStep == 0.0
    ensures a.Submit? ==>
      && a.volume > 0.0
      && a.request.Place?
      && a.request.volume == a.volume
      && a.request.symbol == signal.symbol
      && a.request.magic == account.login
      && a.request.comment == "GID:" + signal.groupId
      && a.request.sl == signal.sl && a.request.tp == signal.finalTp
      && a.request.filling == ImmediateOrCancel
      && (a.request.action == Deal <==> entry.entryType == "MARKET")
      && (a.request.price.Some? <==> entry.entryType != "MARKET")
      && (a.request.price.Some? ==> a.request.price.value == entry.price)
      && Some(a.request.kind) == OrderKindOf(OrderTypeKey(signal.direction, entry.entryType))
  {
    match OrderKindOf(OrderTypeKey(signal.direction, entry.entryType))
    case None => Skipped
    case Some(kind) =>
      var price :=
        if entry.entryType != "MARKET" then Some(entry.price)
        else match market.TickOf(signal.symbol)
          case None => None
          case Some(tick) => Some(if signal.direction == "BUY" then tick.ask else tick.bid);
      if price.None? then Skipped
      else
        match LotSize(balance, account.riskPercent, signal.numTps, market.InfoOf(signal.symbol), price.value, signal.sl)
        case Err(ZeroVolumeStep) => Crashed
        case Err(_) => Skipped
        case Ok(volume) =>
          if volume <= 0.0 then Skipped
          else Submit(OrderRequest(account.login, signal, entry, kind, volume), volume)
  }

  /**
   * Where a trade stands after some entries: the requests sent to the venue
   * so far, the registrations handed over, and whether an exception ended it.
   */
  datatype Progress = Progress(log: seq<Request>, registered: seq<Registration>, crashed: bool)

  /** One entry: nothing after a crash; a submitted order is registered exactly when the venue reports it done. */
  function ExecuteStep(account: Account, answer: (seq<Request>, Request) -> Reply, signal: TradeSignal,
                       balance: Option<real>, market: Market, p: Progress, entry: EntryPoint): Progress
  {
    if p.crashed then p
    else
      match PlanOrder(account, signal, entry, balance, market)
      case Skipped => p
      case Crashed => p.(crashed := true)
      case Submit(request, volume) =>
        var reply := answer(p.log, request);
        var registered :=
          if reply.done then p.registered + [Registration(reply.order, account.login, signal, volume, signal.groupId)]
          else p.registered;
        Progress(p.log + [request], registered, false)
  }

  /** One entry from any progress is that entry from nothing registered, its registration appended. */
  lemma ExecuteStepShift(account: Account, answer: (seq<Request>, Request) -> Reply, signal: TradeSignal,
                         balance: Option<real>, market: Market, p: Progress, entry: EntryPoint)
    requires !p.crashed
    ensures var q := ExecuteStep(account, answer, signal, balance, market, Progress(p.log, [], false), entry);
      ExecuteStep(account, answer, signal, balance, market, p, entry) == Progress(q.log, p.registered + q.registered, q.crashed)
  {
    match PlanOrder(account, signal, entry, balance, market)
    case Skipped =>
      assert p.registered + [] == p.registered;
    case Crashed =>
      assert p.registered + [] == p.registered;
    case Submit(request, volume) =>
      assert p.registered + [] == p.registered;
  }

  /** `execute_trade`: the entries in order. */
  function ExecuteEntries(account: Account, answer: (seq<Request>, Request) -> Reply, signal: TradeSignal,
                          balance: Option<real>, market: Market, p: Progress, entries: seq<EntryPoint>): Progress
  {
    if entries == [] then p
    else
      var last := |entries| - 1;
      ExecuteStep(account, answer, signal, balance, market,
                  ExecuteEntries(account, answer, signal, balance, market, p, entries[..last]), entries[last])
  }

  /** The tickets the venue reported done for the requests `log[from..]`, in order. */
  function AcceptedTickets(answer: (seq<Request>, Request) -> Reply, log: seq<Request>, from: nat): seq<int>
    requires from <= |log|
    decreases |log|
  {
    if |log| == from then []
    else
      var last := |log| - 1;
      var reply := answer(log[..last], log[last]);
      AcceptedTickets(answer, log[..last], from) + (if reply.done then [reply.order] else [])
  }

  function Tickets(rs: seq<Registration>): (ts: seq<int>)
    ensures |ts| == |rs| && forall i :: 0 <= i < |rs| ==> ts[i] == rs[i].ticket
  {
    if rs == [] then [] else Tickets(rs[..|rs| - 1]) + [rs[|rs| - 1].ticket]
  }

  /**
   * Running the entries only appends, to the venue's log and to the
   * registrations, and every request sent is an order carrying the account's
   * login as magic number, the group in its comment and the signal's symbol.
   */
  lemma {:induction false} ExecuteEntriesTagsRequests(account: Account, answer: (seq<Request>, Request) -> Reply,
                                                      signal: TradeSignal, balance: Option<real>, market: Market,
                                                      p: Progress, entries: seq<EntryPoint>)
    ensures var q := ExecuteEntries(account, answer, signal, balance, market, p, entries);
      && p.log <= q.log && p.registered <= q.registered
      && forall req | req in q.log[|p.log|..] ::
           req.Place? && req.magic == account.login && req.comment == "GID:" + signal.groupId && req.symbol == signal.symbol
    decreases |entries|
  {
    if entries != [] {
      var last := |entries| - 1;
      var q0 := ExecuteEntries(account, answer, signal, balance, market, p, entries[..last]);
      ExecuteEntriesTagsRequests(account, answer, signal, balance, market, p, entries[..last]);
      var q := ExecuteStep(account, answer, signal, balance, market, q0, entries[last]);
      if !q0.crashed && PlanOrder(account, signal, entries[last], balance, market).Submit? {
        var request := PlanOrder(account, signal, entries[last], balance, market).request;
        assert q.log[|p.log|..] == q0.log[|p.log|..] + [request];
      }
    }
  }

  /** Every registration handed over carries the account's login, the signal, its group and a positive volume. */
  lemma {:induction false} ExecuteEntriesRegistersTrade(account: Account, answer: (seq<Request>, Request) -> Reply,
                                                        signal: TradeSignal, balance: Option<real>, market: Market,
                                                        p: Progress, entries: seq<EntryPoint>)
    ensures var q := ExecuteEntries(account, answer, signal, balance, market, p, entries);
      && p.registered <= q.registered
      && forall r | r in q.registered[|p.registered|..] ::
           r.login == account.login && r.signal == signal && r.groupId == signal.groupId && r.originalVolume > 0.0
    decreases |entries|
  {
    ExecuteEntriesTagsRequests(account, answer, signal, balance, market, p, entries);
    if entries != [] {
      var last := |entries| - 1;
      var q0 := ExecuteEntries(account, answer, signal, balance, market, p, entries[..last]);
      ExecuteEntriesRegistersTrade(account, answer, signal, balance, market, p, entries[..last]);
      var q := ExecuteStep(account, answer, signal, balance, market, q0, entries[last]);
      if !q0.crashed && PlanOrder(account, signal, entries[last], balance, market).Submit? {
        var attempt := PlanOrder(account, signal, entries[last], balance, market);
        var reply := answer(q0.log, attempt.request);
        if reply.done {
          var r := Registration(reply.order, account.login, signal, attempt.volume, signal.groupId);
          assert q.registered[|p.registered|..] == q0.registered[|p.registered|..] + [r];
        }
      }
    }
  }

  /** The registrations handed over are exactly the tickets the venue reported done, in the order sent. */
  lemma {:induction false} ExecuteEntriesRegistersAccepted(account: Account, answer: (seq<Request>, Request) -> Reply,
                                                           signal: TradeSignal, balance: Option<real>, market: Market,
                                                           p: Progress, entries: seq<EntryPoint>)
    ensures var q := ExecuteEntries(account, answer, signal, balance, market, p, entries);
      && p.log <= q.log && p.registered <= q.registered
      && Tickets(q.registered[|p.registered|..]) == AcceptedTickets(answer, q.log, |p.log|)
    decreases |entries|
  {
    if entries == [] {
      assert p.registered[|p.registered|..] == [];
    } else {
      var last := |entries| - 1;
      ExecuteEntriesRegistersAccepted(account, answer, signal, balance, market, p, entries[..last]);
      var q0 := ExecuteEntries(account, answer, signal, balance, market, p, entries[..last]);
      ExecuteStepRegistersAccepted(account, answer, signal, balance, market, p, q0, entries[last]);
    }
  }

  /** One entry keeps the registrations in step with the tickets the venue reported done. */
  lemma ExecuteStepRegistersAccepted(account: Account, answer: (seq<Request>, Request) -> Reply,
                                     signal: TradeSignal, balance: Option<real>, market: Market,
                                     p: Progress, q0: Progress, entry: EntryPoint)
    requires p.log <= q0.log && p.registered <= q0.registered
    requires Tickets(q0.registered[|p.registered|..]) == AcceptedTickets(answer, q0.log, |p.log|)
    ensures var q := ExecuteStep(account, answer, signal, balance, market, q0, entry);
      && p.log <= q.log && p.registered <= q.registered
      && Tickets(q.registered[|p.registered|..]) == AcceptedTickets(answer, q.log, |p.log|)
  {
    var q := ExecuteStep(account, answer, signal, balance, market, q0, entry);
    if !q0.crashed && PlanOrder(account, signal, entry, balance, market).Submit? {
      var attempt := PlanOrder(account, signal, entry, balance, market);
      assert q.log == q0.log + [attempt.request];
      assert q.log[..|q.log| - 1] == q0.log;
      var reply := answer(q0.log, attempt.request);
      var before := q0.registered[|p.registered|..];
      if reply.done {
        var r := Registration(reply.order, account.login, signal, attempt.volume, signal.groupId);
        assert q.registered[|p.registered|..] == before + [r];
        assert (before + [r])[..|before|] == before;
      } else {
        assert q.registered == q0.registered;
      }
    } else {
      assert q.log == q0.log && q.registered == q0.registered;
    }
  }

  /** After a crash no further entry is attempted. */
  lemma {:induction false} CrashIsFinal(account: Account, answer: (seq<Request>, Request) -> Reply, signal: TradeSignal,
                                        balance: Option<real>, market: Market, p: Progress, entries: seq<EntryPoint>)
    requires p.crashed
    ensures ExecuteEntries(account, answer, signal, balance, market, p, entries) == p
    decreases |entries|
  {
    if entries != [] {
      CrashIsFinal(account, answer, signal, balance, market, p, entries[..|entries| - 1]);
    }
  }

  /** Running a concatenation is running the second part from where the first left off. */
  lemma {:induction false} ExecuteEntriesSplit(account: Account, answer: (seq<Request>, Request) -> Reply, signal: TradeSignal,
                                               balance: Option<real>, market: Market, p: Progress,
                                               first: seq<EntryPoint>, second: seq<EntryPoint>)
    ensures ExecuteEntries(account, answer, signal, balance, market, p, first + second)
         == ExecuteEntries(account, answer, signal, balance, market,
                           ExecuteEntries(account, answer, signal, balance, market, p, first), second)
    decreases |second|
  {
    if second == [] {
      assert first + second == first;
    } else {
      var last := |second| - 1;
      assert (first + second)[..|first + second| - 1] == first + second[..last];
      ExecuteEntriesSplit(account, answer, signal, balance, market, p, first, second[..last]);
    }
  }

  /** The entries up to `i + 1`: those up to `i`, then entry `i` from nothing registered, its registration appended. */
  lemma ExecuteEntriesNext(account: Account, answer: (seq<Request>, Request) -> Reply, signal: TradeSignal,
                           balance: Option<real>, market: Market, start: Progress, entries: seq<EntryPoint>, i: nat,
                           p: Progress, q: Progress)
    requires i < |entries| && p == ExecuteEntries(account, answer, signal, balance, market, start, entries[..i]) && !p.crashed
    requires q == ExecuteStep(account, answer, signal, balance, market, Progress(p.log, [], false), entries[i])
    ensures ExecuteEntries(account, answer, signal, balance, market, start, entries[..i + 1])
         == Progress(q.log, p.registered + q.registered, q.crashed)
  {
    assert entries[..i + 1][..i] == entries[..i];
    ExecuteStepShift(account, answer, signal, balance, market, p, entries[i]);
  }

  /** One trading account's handler: it places orders on the venue and queues what was accepted. */
  class Handler {
    const account: Account
    const queue: RegistrationQueue

    constructor (account: Account, queue: RegistrationQueue)
      ensures this.account == account && this.queue == queue
    {
      this.account := account;
      this.queue := queue;
    }

    /** `_execute_single_order`; `crashed` stands for the ZeroDivisionError a zero volume step raises. */
    method ExecuteSingleOrder(signal: TradeSignal, entry: EntryPoint, balance: Option<real>, market: Market, venue: Venue)
      returns (crashed: bool)
      modifies venue, queue
      ensures var q := ExecuteStep(account, venue.answer, signal, balance, market, Progress(old(venue.log), [], false), entry);
        && venue.log == q.log && queue.items == old(queue.items) + q.registered && crashed == q.crashed
    {
      crashed := false;
      var attempt := PlanOrder(account, signal, entry, balance, market);
      if attempt.Crashed? {
        crashed := true;
      } else if attempt.Submit? {
        var reply := venue.Send(attempt.request);
        if reply.done {
          queue.Put(Registration(reply.order, account.login, signal, attempt.volume, signal.groupId));
        }
      }
    }

    /** `execute_trade`: every entry in order, until one raises. */
    method ExecuteTrade(signal: TradeSignal, balance: Option<real>, market: Market, venue: Venue)
      returns (crashed: bool)
      modifies venue, queue
      ensures var q := ExecuteEntries(account, venue.answer, signal, balance, market,
                                      Progress(old(venue.log), [], false), signal.entries);
        && venue.log == q.log && queue.items == old(queue.items) + q.registered && crashed == q.crashed
    {
      var entries := signal.entries;
      var start := Progress(venue.log, [], false);
      ghost var p := start;
      var i := 0;
      crashed := false;
      while i < |entries| && !crashed
        invariant 0 <= i <= |entries|
        invariant p == ExecuteEntries(account, venue.answer, signal, balance, market, start, entries[..i])
        invariant venue.log == p.log && queue.items == old(queue.items) + p.registered && crashed == p.crashed
        decreases |entries| - i
      {
        ghost var q := ExecuteStep(account, venue.answer, signal, balance, market, Progress(venue.log, [], false), entries[i]);
        ExecuteEntriesNext(account, venue.answer, signal, balance, market, start, entries, i, p, q);
        crashed := ExecuteSingleOrder(signal, entries[i], balance, market, venue);
        p := Progress(q.log, p.registered + q.registered, q.crashed);
        i := i + 1;
      }
      if crashed {
        assert entries == entries[..i] + entries[i..];
        ExecuteEntriesSplit(account, venue.answer, signal, balance, market, start, entries[..i], entries[i..]);
        CrashIsFinal(account, venue.answer, signal, balance, market, p, entries[i..]);
      } else {
        assert entries[..i] == entries;
      }
    }
  }
}

/**
 * The trading venue as the rest of the system sees it: the records it
 * reports (symbol metadata, prices), the requests it accepts, and the
 * registration queue through which the trade engine hands new tickets to
 * the position controller.
 */
module Venue {
  import opened Wrappers

  /** One entry of a signal: how to enter (`MARKET`, `LIMIT`, `STOP`) and at what price. */
  datatype EntryPoint = EntryPoint(entryType: string, price: real)

  /**
   * The signal record the trade engine consumes: symbol, direction (`BUY`
   * or `SELL`), entries, take-profit levels, their count, the stop-loss,
   * the final take-profit and the group id shared by everything it spawns.
   */
  datatype TradeSignal = TradeSignal(
    symbol: string, direction: string, entries: seq<EntryPoint>, tps: seq<real>,
    numTps: int, sl: real, finalTp: real, groupId: string)

  /** Symbol metadata: tick value and size may be missing. */
  datatype SymbolInfo = SymbolInfo(
    digits: int, point: real, tickValue: Option<real>, tickSize: Option<real>,
    volumeMin: real, volumeStep: real, volumeMax: real)

  datatype Tick = Tick(bid: real, ask: real)

  /** What the venue answers to read-only queries: metadata and last prices per symbol. */
  datatype Market = Market(symbols: map<string, SymbolInfo>, ticks: map<string, Tick>)
  {
    /** `symbol_info`: the metadata of a symbol, or nothing for an unknown one. */
    function InfoOf(symbol: string): (r: Option<SymbolInfo>)
      ensures r.Some? <==> symbol in symbols
      ensures r.Some? ==> r.value == symbols[symbol]
    {
      if symbol in symbols then Some(symbols[symbol]) else None
    }

    /** `symbol_info_tick`: the last prices of a symbol, or nothing. */
    function TickOf(symbol: string): (r: Option<Tick>)
      ensures r.Some? <==> symbol in ticks
      ensures r.Some? ==> r.value == ticks[symbol]
    {
      if symbol in ticks then Some(ticks[symbol]) else None
    }
  }

  /** The six order kinds of the venue. */
  datatype OrderKind = BuyKind | SellKind | BuyLimit | SellLimit | BuyStop | SellStop

  /** Immediate execution or a pending order. */
  datatype PlaceAction = Deal | Pending

  datatype Filling = FillOrKill | ImmediateOrCancel | ReturnRemainder

  /** The mutating calls the system makes. */
  datatype Request =
    | Place(action: PlaceAction, symbol: string, volume: real, kind: OrderKind, sl: real, tp: real,
            magic: int, comment: string, price: Option<real>, filling: Filling)
    | Close(position: int, symbol: string, volume: real, kind: OrderKind, magic: int, filling: Filling)
    | SetStops(position: int, sl: real, tp: real)
    | Remove(order: int)

  /** A reply: whether the venue reports the request done, and the ticket of a placed order. */
  datatype Reply = Reply(done: bool, order: int)

  /**
   * The venue's mutating surface. Every request is logged; the reply is
   * whatever `answer` gives for the requests sent before and this one, so a
   * request rejected once may be accepted later.
   */
  class Venue {
    var log: seq<Request>
    const answer: (seq<Request>, Request) -> Reply

    constructor (answer: (seq<Request>, Request) -> Reply)
      ensures log == [] && this.answer == answer
    {
      log := [];
      this.answer := answer;
    }

    method Send(r: Request) returns (reply: Reply)
      modifies this
      ensures log == old(log) + [r]
      ensures reply == answer(old(log), r)
    {
      reply := answer(log, r);
      log := log + [r];
    }
  }

  /** What the trade engine hands over for every accepted order. */
  datatype Registration = Registration(
    ticket: int, login: int, signal: TradeSignal, originalVolume: real, groupId: string)

  /** The unbounded first-in first-out registration queue. */
  class RegistrationQueue {
    var items: seq<Registration>

    constructor ()
      ensures items == []
    {
      items := [];
    }

    method Put(r: Registration)
      modifies this
      ensures items == old(items) + [r]
    {
      items := items + [r];
    }

    method IsEmpty() returns (empty: bool)
      ensures empty <==> items == []
    {
      empty := items == [];
    }

    /** Only called after IsEmpty said no: on an empty queue Python's `get` would block. */
    method Get() returns (r: Registration)
      requires items != []
      modifies this
      ensures r == old(items)[0] && items == old(items)[1..]
    {
      r := items[0];
      items := items[1..];
    }
  }
}

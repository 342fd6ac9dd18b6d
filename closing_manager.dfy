/**
 * The position controller as the object it is: the managed-ticket map and
 * the state file are fields its methods update in place, the registration
 * queue is drained in a loop, and the venue receives the requests. Each
 * method is proved to do what the matching function of `Reconcile` says,
 * so the properties proved there hold of the object.
 */
module Closing {
  import opened Wrappers
  import opened Rounding
  import opened Venue
  import opened Reconcile
  import opened StateStore
  import Execution

  /**
   * `PartialClosingManager(...)`: loads the state file and builds the
   * manager, or nothing when the load raises out of the constructor.
   */
  method NewManager(handlers: seq<int>, tp1Buffer: real, file: StateFile) returns (m: Option<PartialClosingManager>)
    ensures m.None? <==> LoadState(file).None?
    ensures m.Some? ==>
      && fresh(m.value) && fresh(m.value.queue) && m.value.queue.items == []
      && m.value.handlers == handlers && m.value.tp1Buffer == tp1Buffer
      && m.value.positionData == LoadState(file).value && m.value.stateFile == file && !m.value.stopped
  {
    match LoadState(file)
    case None =>
      m := None;
    case Some(loaded) =>
      var manager := new PartialClosingManager(handlers, tp1Buffer, file, loaded);
      m := Some(manager);
  }

  class PartialClosingManager {
    /** The logins of the account handlers, in the order they are searched. */
    const handlers: seq<int>
    /** The `secure_tp1_pips_buffer` setting (0 when absent). */
    const tp1Buffer: real
    const queue: RegistrationQueue
    var positionData: map<int, ManagedTicket>
    var stateFile: StateFile
    var stopped: bool

    /** `__init__` once the state was loaded: the loaded map, an empty queue, the stop flag down. */
    constructor (handlers: seq<int>, tp1Buffer: real, file: StateFile, loaded: map<int, ManagedTicket>)
      ensures this.handlers == handlers && this.tp1Buffer == tp1Buffer
      ensures positionData == loaded && stateFile == file && !stopped
      ensures fresh(queue) && queue.items == []
    {
      this.handlers := handlers;
      this.tp1Buffer := tp1Buffer;
      stateFile := file;
      stopped := false;
      positionData := loaded;
      queue := new RegistrationQueue();
    }

    /** `_save_state`: the whole map is written, each entry under its ticket as text. */
    method SaveState()
      modifies this
      ensures positionData == old(positionData) && stopped == old(stopped)
      ensures stateFile.Document? && IsSerialisation(positionData, stateFile.members)
    {
      var pd := positionData;
      var keys := pd.Keys;
      var members: seq<(string, ManagedTicket)> := [];
      ghost var written: seq<int> := [];
      while keys != {}
        invariant WrittenSoFar(pd, keys, members, written)
        invariant unchanged(this)
        decreases |keys|
      {
        var k := Pick(keys);
        WrittenSoFarStep(pd, keys, members, written, k);
        members := members + [(Text.IntToString(k), pd[k])];
        written := written + [k];
        keys := keys - {k};
      }
      SerialisationOfWritten(pd, members, written);
      stateFile := Document(members);
    }

    /** `stop`: raises the stop flag and saves a last time. */
    method Stop()
      modifies this
      ensures stopped && positionData == old(positionData)
      ensures stateFile.Document? && IsSerialisation(positionData, stateFile.members)
    {
      stopped := true;
      SaveState();
    }

    /** `_process_registration_queue`: every queued registration, in order, creates or overwrites its entry. */
    method ProcessRegistrationQueue() returns (changed: bool)
      modifies this, queue
      ensures positionData == Registered(old(positionData), old(queue.items))
      ensures queue.items == [] && (changed <==> old(queue.items) != [])
      ensures stateFile == old(stateFile) && stopped == old(stopped)
    {
      changed := false;
      ghost var consumed: seq<Registration> := [];
      var empty := queue.IsEmpty();
      while !empty
        invariant old(queue.items) == consumed + queue.items
        invariant positionData == Registered(old(positionData), consumed)
        invariant empty <==> queue.items == []
        invariant changed <==> consumed != []
        invariant stateFile == old(stateFile) && stopped == old(stopped)
        decreases |queue.items|
      {
        var task := queue.Get();
        RegisteredSnoc(old(positionData), consumed, task);
        positionData := positionData[task.ticket := Fresh(task)];
        consumed := consumed + [task];
        changed := true;
        empty := queue.IsEmpty();
      }
      assert consumed == old(queue.items);
    }

    /** `_find_handler_by_login`: the first handler with that login. */
    method FindHandlerByLogin(login: int) returns (found: Option<nat>)
      ensures found.Some? ==> found.value < |handlers| && handlers[found.value] == login
      ensures found.Some? ==> forall j :: 0 <= j < found.value ==> handlers[j] != login
      ensures found.None? <==> login !in handlers
    {
      var i := 0;
      while i < |handlers|
        invariant 0 <= i <= |handlers|
        invariant forall j :: 0 <= j < i ==> handlers[j] != login
      {
        if handlers[i] == login {
          return Some(i);
        }
        i := i + 1;
      }
      return None;
    }

    /**
     * `_close_partial`: the volume is raised to the minimum, rounded to a
     * whole number of steps and capped at the position's volume before the
     * close is sent; a zero step raises.
     */
    method ClosePartial(pos: Position, volume: real, login: int, market: Market, venue: Venue)
      returns (raised: bool)
      modifies venue
      ensures raised <==> CloseAttempt(pos, volume, login, market).CloseRaises?
      ensures venue.log == old(venue.log) +
        (if CloseAttempt(pos, volume, login, market).CloseSent? then [CloseAttempt(pos, volume, login, market).request] else [])
    {
      raised := false;
      ghost var outcome := CloseAttempt(pos, volume, login, market);
      if volume <= 0.0 {
        assert outcome == NoClose;
        return;
      }
      var info := market.InfoOf(pos.symbol);
      if info.None? {
        assert outcome == NoClose;
        return;
      }
      var si := info.value;
      assert market.InfoOf(pos.symbol) == Some(si);
      if si.volumeStep == 0.0 {
        assert outcome == CloseRaises;
        return true;
      }
      var raisedVolume := Max(volume, si.volumeMin);
      var stepped := RoundHalfEven(raisedVolume / si.volumeStep) as real * si.volumeStep;
      var capped := Min(stepped, pos.volume);
      assert capped == StepVolume(volume, si, pos.volume);
      if capped < si.volumeMin {
        assert outcome == NoClose;
        return;
      }
      var request := Close(pos.ticket, pos.symbol, capped, Opposite(pos.side), login, Execution.FillingMode(Some(si)));
      assert outcome.CloseSent?;
      assert outcome.request.volume == capped;
      assert outcome.request == request;
      var _ := venue.Send(request);
    }

    /** `_close_full`: a close of the position's whole volume. */
    method CloseFull(pos: Position, login: int, market: Market, venue: Venue) returns (raised: bool)
      modifies venue
      ensures raised <==> CloseAttempt(pos, pos.volume, login, market).CloseRaises?
      ensures venue.log == old(venue.log) +
        (if CloseAttempt(pos, pos.volume, login, market).CloseSent? then [CloseAttempt(pos, pos.volume, login, market).request] else [])
    {
      raised := ClosePartial(pos, pos.volume, login, market, venue);
    }

    /**
     * `_cleanup_closed_trades`: closes the unmanaged positions of accounts
     * with a handler, then drops every entry whose ticket the snapshot does
     * not show; a close that raises ends it before the drop.
     */
    method CleanupClosedTrades(positions: seq<LinkedPosition>, orders: seq<LinkedOrder>, market: Market, venue: Venue)
      returns (changed: bool, raised: bool)
      modifies this, venue
      ensures var g := GhostCloses(old(positionData).Keys, handlers, market, Sends(old(venue.log), false), positions);
        venue.log == g.log && raised == g.crashed
      ensures raised ==> positionData == old(positionData)
      ensures !raised ==> positionData == Pruned(old(positionData), ActiveTickets(positions, orders))
      ensures !raised ==> (changed <==> exists k :: k in old(positionData) && k !in ActiveTickets(positions, orders))
      ensures stateFile == old(stateFile) && stopped == old(stopped)
    {
      changed := false;
      var active := ActiveTickets(positions, orders);
      raised := CloseUnmanaged(positions, market, venue);
      if raised {
        return;
      }
      changed := DropInactive(active);
    }

    /** The first half of `_cleanup_closed_trades`: the unmanaged positions of accounts with a handler are closed in full. */
    method CloseUnmanaged(positions: seq<LinkedPosition>, market: Market, venue: Venue) returns (raised: bool)
      modifies venue
      ensures var g := GhostCloses(positionData.Keys, handlers, market, Sends(old(venue.log), false), positions);
        venue.log == g.log && raised == g.crashed
    {
      raised := false;
      var allManaged := positionData.Keys;
      var i := 0;
      while i < |positions| && !raised
        invariant 0 <= i <= |positions|
        invariant Sends(venue.log, raised) == GhostCloses(allManaged, handlers, market, Sends(old(venue.log), false), positions[..i])
      {
        var lp := positions[i];
        assert positions[..i + 1] == positions[..i] + [lp];
        if lp.position.ticket !in allManaged {
          var h := FindHandlerByLogin(lp.login);
          if h.Some? {
            raised := CloseFull(lp.position, handlers[h.value], market, venue);
          }
        }
        i := i + 1;
      }
      if raised {
        GhostClosesRaiseStops(allManaged, handlers, market, Sends(old(venue.log), false), positions, i);
      } else {
        assert positions[..i] == positions;
      }
    }

    /** The second half of `_cleanup_closed_trades`: every entry whose ticket is not active is dropped. */
    method DropInactive(active: set<int>) returns (changed: bool)
      modifies this
      ensures positionData == Pruned(old(positionData), active)
      ensures changed <==> exists k :: k in old(positionData) && k !in active
      ensures stateFile == old(stateFile) && stopped == old(stopped)
    {
      changed := false;
      ghost var pd0 := positionData;
      var keys := positionData.Keys;
      while keys != {}
        invariant keys <= pd0.Keys
        invariant positionData == map k | k in pd0 && (k in keys || k in active) :: pd0[k]
        invariant changed <==> exists k :: k in pd0 && k !in keys && k !in active
        invariant stateFile == old(stateFile) && stopped == old(stopped)
        decreases |keys|
      {
        var t := Pick(keys);
        if t !in active {
          positionData := positionData - {t};
          changed := true;
        }
        keys := keys - {t};
      }
      assert positionData == Pruned(pd0, active);
    }

    /**
     * The scan over one position's targets: ascending, skipping those
     * already closed, stopping at the first hit.
     */
    method ScanTargets(tps: seq<real>, closed: seq<int>, side: Side, price: real, symbol: string, market: Market)
      returns (hit: Option<nat>)
      ensures hit == FirstHit(tps, closed, side, price, tp1Buffer, Execution.PipSize(symbol, market.InfoOf(symbol)), 0)
    {
      ghost var pip0 := Execution.PipSize(symbol, market.InfoOf(symbol));
      var i := 0;
      while i < |tps|
        invariant 0 <= i <= |tps|
        invariant FirstHit(tps, closed, side, price, tp1Buffer, pip0, 0) == FirstHit(tps, closed, side, price, tp1Buffer, pip0, i)
      {
        if i + 1 !in closed {
          var isHit := CheckTarget(tps, closed, side, price, symbol, market, i);
          if isHit {
            return Some(i);
          }
        }
        i := i + 1;
      }
      return None;
    }

    /** The body of the scan for one target not closed yet: its buffer, then the comparison for the side. */
    method CheckTarget(tps: seq<real>, closed: seq<int>, side: Side, price: real, symbol: string, market: Market, i: nat)
      returns (isHit: bool)
      requires i < |tps| && i + 1 !in closed
      ensures isHit == TargetHit(tps, closed, side, price, tp1Buffer, Execution.PipSize(symbol, market.InfoOf(symbol)), i)
    {
      var tpNum := i + 1;
      var pip := Execution.PipSize(symbol, market.InfoOf(symbol));
      var buffer := if pip.Some? && pip.value != 0.0 && tpNum == 1 then tp1Buffer * pip.value else 0.0;
      isHit := false;
      if side == Buy && price >= tps[i] - buffer {
        isHit := true;
      } else if side == Sell && price <= tps[i] + buffer {
        isHit := true;
      }
    }

    /**
     * `_decide_on_position_actions`: records the first target each managed
     * position hit and plans its close and, on a first target, the securing
     * of its group once.
     */
    method DecideOnPositionActions(positions: seq<LinkedPosition>, market: Market)
      returns (actions: seq<Action>, changed: bool, raised: bool)
      modifies this
      ensures var d := Decide(old(positionData), positions, handlers, market, tp1Buffer);
        positionData == d.pd && actions == d.actions && changed == d.changed && raised == d.crashed
      ensures stateFile == old(stateFile) && stopped == old(stopped)
    {
      var d := Decision(positionData, [], false, false, SecuredGroups(positionData));
      ghost var d0 := d;
      var i := 0;
      while i < |positions| && !d.crashed
        invariant 0 <= i <= |positions|
        invariant d == DecideAll(handlers, market, tp1Buffer, d0, positions[..i])
        invariant unchanged(this)
      {
        assert positions[..i + 1] == positions[..i] + [positions[i]];
        d := DecidePosition(d, positions[i], market);
        i := i + 1;
      }
      if d.crashed {
        DecideAllRaiseStops(handlers, market, tp1Buffer, d0, positions, i);
      } else {
        assert positions[..i] == positions;
      }
      positionData := d.pd;
      actions, changed, raised := d.actions, d.changed, d.crashed;
    }

    /**
     * The body of `_decide_on_position_actions` for one snapshot position:
     * a managed position with a handler, metadata and prices records the
     * first target it hit, plans its close and, on a first target, the
     * securing of its group once.
     */
    method DecidePosition(d: Decision, lp: LinkedPosition, market: Market) returns (r: Decision)
      requires !d.crashed
      ensures r == DecideStep(handlers, market, tp1Buffer, d, lp)
    {
      r := d;
      var pos := lp.position;
      if pos.ticket !in d.pd {
        return;
      }
      var info := d.pd[pos.ticket];
      var h := FindHandlerByLogin(lp.login);
      var si := market.InfoOf(pos.symbol);
      var tick := market.TickOf(pos.symbol);
      if h.None? || si.None? || tick.None? {
        return;
      }
      var price := CurrentPrice(pos.side, tick.value);
      var hit := ScanTargets(info.signal.tps, info.closedTps, pos.side, price, pos.symbol, market);
      if hit.None? {
        return;
      }
      var tpNum := hit.value + 1;
      r := r.(pd := d.pd[pos.ticket := info.(closedTps := info.closedTps + [tpNum])]);
      if info.signal.numTps == 0 {
        r := r.(crashed := true);
        return;
      }
      var close := PartialClose(pos, Round2(info.originalVolume / info.signal.numTps as real), lp.login);
      r := r.(actions := d.actions + [close], changed := true);
      if tpNum == 1 && info.groupId != "" && info.groupId !in d.planned {
        r := r.(actions := r.actions + [SecureGroup(info.groupId)], planned := d.planned + {info.groupId});
      }
    }

    /** `_secure_position`: moves the stop-loss to the open price and marks the entry secured only when done. */
    method SecurePosition(pos: Position, venue: Venue)
      modifies this, venue
      ensures var request := SetStops(pos.ticket, pos.priceOpen, pos.tp);
        && venue.log == old(venue.log) + [request]
        && positionData == if venue.answer(old(venue.log), request).done && pos.ticket in old(positionData)
             then old(positionData)[pos.ticket := old(positionData)[pos.ticket].(isSecured := true)]
             else old(positionData)
      ensures stateFile == old(stateFile) && stopped == old(stopped)
    {
      var request := SetStops(pos.ticket, pos.priceOpen, pos.tp);
      var reply := venue.Send(request);
      if reply.done && pos.ticket in positionData {
        positionData := positionData[pos.ticket := positionData[pos.ticket].(isSecured := true)];
      }
    }

    /** `_secure_trade_group`: secures every snapshot position of the group not yet secured. */
    method SecureTradeGroup(gid: string, positions: seq<LinkedPosition>, venue: Venue, ghost a: Applied)
      requires a.pd == positionData && a.log == venue.log
      modifies this, venue
      ensures var r := SecureAll(gid, handlers, venue.answer, a, positions);
        positionData == r.pd && venue.log == r.log
      ensures stateFile == old(stateFile) && stopped == old(stopped)
    {
      var i := 0;
      while i < |positions|
        invariant 0 <= i <= |positions|
        invariant a.(pd := positionData, log := venue.log) == SecureAll(gid, handlers, venue.answer, a, positions[..i])
        invariant stateFile == old(stateFile) && stopped == old(stopped)
      {
        var lp := positions[i];
        assert positions[..i + 1] == positions[..i] + [lp];
        var pos := lp.position;
        if pos.ticket in positionData && positionData[pos.ticket].groupId == gid && !positionData[pos.ticket].isSecured {
          var h := FindHandlerByLogin(lp.login);
          if h.Some? {
            SecurePosition(pos, venue);
          }
        }
        i := i + 1;
      }
      assert positions[..i] == positions;
    }

    /** `_delete_pending_order`: one removal request; its reply is only logged. */
    method DeletePendingOrder(ticket: int, venue: Venue)
      modifies venue
      ensures venue.log == old(venue.log) + [Remove(ticket)]
    {
      var _ := venue.Send(Remove(ticket));
    }

    /** `_cancel_pending_orders_for_group`: removes every snapshot order managed under the group. */
    method CancelPendingOrdersForGroup(gid: string, orders: seq<LinkedOrder>, venue: Venue, ghost a: Applied)
      requires a.pd == positionData && a.log == venue.log
      modifies venue
      ensures venue.log == CancelAll(gid, handlers, a, orders).log
    {
      var i := 0;
      while i < |orders|
        invariant 0 <= i <= |orders|
        invariant a.(log := venue.log) == CancelAll(gid, handlers, a, orders[..i])
      {
        var lo := orders[i];
        assert orders[..i + 1] == orders[..i] + [lo];
        if lo.ticket in positionData && positionData[lo.ticket].groupId == gid {
          var h := FindHandlerByLogin(lo.login);
          if h.Some? {
            DeletePendingOrder(lo.ticket, venue);
          }
        }
        i := i + 1;
      }
      assert orders[..i] == orders;
    }

    /** The apply part of `run`: each action in order, each group secured once; a close that raises ends it. */
    method ApplyActions(actions: seq<Action>, positions: seq<LinkedPosition>, orders: seq<LinkedOrder>, market: Market,
                        venue: Venue) returns (raised: bool)
      modifies this, venue
      ensures var a := ApplyAll(positions, orders, handlers, market, venue.answer,
                                Applied(old(positionData), old(venue.log), {}, false), actions);
        positionData == a.pd && venue.log == a.log && raised == a.crashed
      ensures stateFile == old(stateFile) && stopped == old(stopped)
    {
      raised := false;
      var securedGroups: set<string> := {};
      ghost var a0 := Applied(positionData, venue.log, {}, false);
      var i := 0;
      while i < |actions| && !raised
        invariant 0 <= i <= |actions|
        invariant Applied(positionData, venue.log, securedGroups, raised)
               == ApplyAll(positions, orders, handlers, market, venue.answer, a0, actions[..i])
        invariant stateFile == old(stateFile) && stopped == old(stopped)
      {
        var action := actions[i];
        assert actions[..i + 1] == actions[..i] + [action];
        match action {
        case PartialClose(pos, volume, login) =>
          raised := ClosePartial(pos, volume, login, market, venue);
        case SecureGroup(gid) =>
          if gid !in securedGroups {
            ghost var a := Applied(positionData, venue.log, securedGroups, false);
            SecureTradeGroup(gid, positions, venue, a);
            ghost var s := SecureAll(gid, handlers, venue.answer, a, positions);
            SecureAllTouchesGroup(gid, handlers, venue.answer, a, positions);
            CancelPendingOrdersForGroup(gid, orders, venue, s);
            CancelAllTouchesGroup(gid, handlers, s, orders);
            securedGroups := securedGroups + {gid};
          }
        case GhostClose(pos, login) =>
          raised := CloseFull(pos, login, market, venue);
        }
        i := i + 1;
      }
      if raised {
        ApplyAllRaiseStops(positions, orders, handlers, market, venue.answer, a0, actions, i);
      } else {
        assert actions[..i] == actions;
      }
    }

    /**
     * One pass of `run` over a snapshot of positions, pending orders and
     * market data: it does what `RunPass` says, and the state file then holds
     * what `RunPass` saved.
     */
    method RunOnce(positions: seq<LinkedPosition>, orders: seq<LinkedOrder>, market: Market, venue: Venue)
      modifies this, queue, venue
      ensures var t := RunPass(old(positionData), old(queue.items), positions, orders, handlers, market, tp1Buffer,
                            venue.answer, old(venue.log));
        && positionData == t.pd && venue.log == t.log && queue.items == []
        && (t.saved.Some? ==> stateFile.Document? && IsSerialisation(t.saved.value, stateFile.members))
        && (t.saved.None? ==> stateFile == old(stateFile))
      ensures stopped == old(stopped)
    {
      var stateChanged := false;
      var drained := ProcessRegistrationQueue();
      if drained {
        stateChanged := true;
      }
      ghost var pd1 := positionData;
      var cleaned, raised := CleanupClosedTrades(positions, orders, market, venue);
      if raised {
        return;
      }
      PrunedKeepsActive(pd1, ActiveTickets(positions, orders));
      if cleaned {
        stateChanged := true;
      }
      var actions, needsSave, decideRaised := DecideOnPositionActions(positions, market);
      if decideRaised {
        return;
      }
      if needsSave {
        stateChanged := true;
      }
      if stateChanged {
        SaveState();
      }
      if actions != [] {
        var _ := ApplyActions(actions, positions, orders, market, venue);
      }
    }
  }

  /** Some element of a non-empty set, as iterating over it yields one next. */
  method Pick<T>(s: set<T>) returns (x: T)
    requires s != {}
    ensures x in s
  {
    x :| x in s;
  }

  /** The loop state of `_save_state`: `written` lists, in order, the tickets already written as `members`. */
  ghost predicate WrittenSoFar<V>(pd: map<int, V>, keys: set<int>, members: seq<(string, V)>, written: seq<int>) {
    && keys <= pd.Keys
    && |written| == |members|
    && (forall i :: 0 <= i < |written| ==> written[i] in pd && written[i] !in keys)
    && (forall i :: 0 <= i < |written| ==> members[i] == (Text.IntToString(written[i]), pd[written[i]]))
    && (forall i, j :: 0 <= i < j < |written| ==> written[i] != written[j])
    && (forall k | k in pd && k !in keys :: k in written)
  }

  lemma WrittenSoFarStep<V>(pd: map<int, V>, keys: set<int>, members: seq<(string, V)>, written: seq<int>, k: int)
    requires WrittenSoFar(pd, keys, members, written) && k in keys
    ensures WrittenSoFar(pd, keys - {k}, members + [(Text.IntToString(k), pd[k])], written + [k])
  {
  }

  /** Entries written once each, under their tickets as text, form a serialisation. */
  lemma SerialisationOfWritten<V>(pd: map<int, V>, members: seq<(string, V)>, written: seq<int>)
    requires WrittenSoFar(pd, {}, members, written)
    ensures IsSerialisation(pd, members)
  {
    forall i, j | 0 <= i < j < |members| ensures members[i].0 != members[j].0 {
      DistinctTicketsDistinctNames(written[i], written[j]);
    }
    forall m | m in members ensures exists k :: WrittenEntry(pd, m, k) {
      var i :| 0 <= i < |members| && members[i] == m;
      assert WrittenEntry(pd, members[i], written[i]);
    }
    forall k | k in pd ensures exists i :: 0 <= i < |members| && WrittenEntry(pd, members[i], k) {
      var i :| 0 <= i < |written| && written[i] == k;
      assert WrittenEntry(pd, members[i], k);
    }
  }

  /** Different tickets are written under different names. */
  lemma DistinctTicketsDistinctNames(a: int, b: int)
    requires a != b
    ensures Text.IntToString(a) != Text.IntToString(b)
  {
    Text.ParseIntOfIntToString(a);
    Text.ParseIntOfIntToString(b);
  }
}

/**
 * One tick of the position controller as values: the registrations drained
 * into the managed-ticket map, the pruning against the venue snapshot with
 * the closing of unmanaged ("ghost") positions, the decision which take-profit
 * each position hit, and the application of the resulting actions to the
 * venue. The class in `closing_manager.dfy` is proved to do exactly this.
 */
module Reconcile {
  import opened Wrappers
  import opened Rounding
  import opened Venue
  import Execution

  datatype Side = Buy | Sell

  /** An open position as the venue reports it. */
  datatype Position = Position(ticket: int, symbol: string, side: Side, volume: real, priceOpen: real, tp: real)

  /** A snapshot row: a position, or the ticket of a pending order, with the login of the account holding it. */
  datatype LinkedPosition = LinkedPosition(position: Position, login: int)
  datatype LinkedOrder = LinkedOrder(ticket: int, login: int)

  /** What the controller remembers about one ticket of a trade it manages. */
  datatype ManagedTicket = ManagedTicket(
    login: int, signal: TradeSignal, originalVolume: real, closedTps: seq<int>,
    isSecured: bool, groupId: string, pendingCloseVolume: real)

  /** The actions a tick plans; a ghost close is one the apply step handles but nothing plans. */
  datatype Action =
    | PartialClose(position: Position, volume: real, login: int)
    | SecureGroup(groupId: string)
    | GhostClose(position: Position, login: int)

  /* ---------------------------------------------------------------- drain */

  /** The entry a registration creates: nothing closed, not secured, nothing pending. */
  function Fresh(task: Registration): ManagedTicket {
    ManagedTicket(task.login, task.signal, task.originalVolume, [], false, task.groupId, 0.0)
  }

  /** The map after consuming the registrations in order, each creating or overwriting its ticket's entry. */
  function Registered(pd: map<int, ManagedTicket>, tasks: seq<Registration>): map<int, ManagedTicket> {
    if tasks == [] then pd
    else
      var last := tasks[|tasks| - 1];
      Registered(pd, tasks[..|tasks| - 1])[last.ticket := Fresh(last)]
  }

  /** After the drain a ticket is managed exactly when it was before or some registration named it. */
  lemma {:induction false} RegisteredKeys(pd: map<int, ManagedTicket>, tasks: seq<Registration>, k: int)
    ensures k in Registered(pd, tasks) <==> k in pd || exists i :: 0 <= i < |tasks| && tasks[i].ticket == k
  {
    if tasks != [] {
      var init := tasks[..|tasks| - 1];
      RegisteredKeys(pd, init, k);
      if exists i :: 0 <= i < |init| && init[i].ticket == k {
        var i :| 0 <= i < |init| && init[i].ticket == k;
        assert tasks[i] == init[i];
      }
      if exists i :: 0 <= i < |tasks| - 1 && tasks[i].ticket == k {
        var i :| 0 <= i < |tasks| - 1 && tasks[i].ticket == k;
        assert init[i] == tasks[i];
      }
    }
  }

  /** A ticket no registration names keeps its entry. */
  lemma {:induction false} RegisteredUntouched(pd: map<int, ManagedTicket>, tasks: seq<Registration>, k: int)
    requires forall i :: 0 <= i < |tasks| ==> tasks[i].ticket != k
    requires k in pd
    ensures k in Registered(pd, tasks) && Registered(pd, tasks)[k] == pd[k]
  {
    if tasks != [] {
      var init := tasks[..|tasks| - 1];
      assert forall i :: 0 <= i < |init| ==> init[i] == tasks[i];
      RegisteredUntouched(pd, init, k);
    }
  }

  /** Registration `i` is the last one naming `k`. */
  ghost predicate LastNaming(tasks: seq<Registration>, k: int, i: int) {
    0 <= i < |tasks| && tasks[i].ticket == k && forall j :: i < j < |tasks| ==> tasks[j].ticket != k
  }

  /** A named ticket holds the fresh entry of the last registration naming it. */
  lemma {:induction false} RegisteredNamed(pd: map<int, ManagedTicket>, tasks: seq<Registration>, k: int)
    requires exists i :: 0 <= i < |tasks| && tasks[i].ticket == k
    ensures k in Registered(pd, tasks)
    ensures exists i :: LastNaming(tasks, k, i) && Registered(pd, tasks)[k] == Fresh(tasks[i])
  {
    var init, last := tasks[..|tasks| - 1], tasks[|tasks| - 1];
    if last.ticket == k {
      assert LastNaming(tasks, k, |tasks| - 1);
    } else {
      var i0 :| 0 <= i0 < |tasks| && tasks[i0].ticket == k;
      assert init[i0] == tasks[i0];
      RegisteredNamed(pd, init, k);
      var i :| LastNaming(init, k, i) && Registered(pd, init)[k] == Fresh(init[i]);
      RegisteredNamedExtends(pd, tasks, k, i);
    }
  }

  /** A registration for another ticket keeps the last naming of `k` and its entry. */
  lemma RegisteredNamedExtends(pd: map<int, ManagedTicket>, tasks: seq<Registration>, k: int, i: int)
    requires tasks != [] && tasks[|tasks| - 1].ticket != k
    requires LastNaming(tasks[..|tasks| - 1], k, i)
    requires k in Registered(pd, tasks[..|tasks| - 1]) && Registered(pd, tasks[..|tasks| - 1])[k] == Fresh(tasks[i])
    ensures k in Registered(pd, tasks) && LastNaming(tasks, k, i) && Registered(pd, tasks)[k] == Fresh(tasks[i])
  {
    var init, last := tasks[..|tasks| - 1], tasks[|tasks| - 1];
    LastNamingExtends(init, last, k, i);
    assert tasks == init + [last];
  }

  lemma LastNamingExtends(init: seq<Registration>, last: Registration, k: int, i: int)
    requires LastNaming(init, k, i) && last.ticket != k
    ensures LastNaming(init + [last], k, i) && (init + [last])[i] == init[i]
  {
    var tasks := init + [last];
    forall j | i < j < |tasks| ensures tasks[j].ticket != k {
      if j < |init| {
        assert tasks[j] == init[j];
      }
    }
  }

  /* ---------------------------------------------------------------- cleanup */

  /** The tickets the snapshot shows as open positions or pending orders. */
  function ActiveTickets(positions: seq<LinkedPosition>, orders: seq<LinkedOrder>): set<int> {
    (set i | 0 <= i < |positions| :: positions[i].position.ticket) + (set i | 0 <= i < |orders| :: orders[i].ticket)
  }

  /** The managed entries whose ticket is still active. */
  function Pruned(pd: map<int, ManagedTicket>, active: set<int>): map<int, ManagedTicket> {
    map k | k in pd && k in active :: pd[k]
  }

  /**
   * Pruning keeps exactly the active tickets, leaves their entries alone, and
   * changes the map exactly when some managed ticket is no longer active.
   */
  lemma PrunedKeepsActive(pd: map<int, ManagedTicket>, active: set<int>)
    ensures Pruned(pd, active).Keys == pd.Keys * active
    ensures forall k | k in Pruned(pd, active) :: Pruned(pd, active)[k] == pd[k]
    ensures Pruned(pd, active) != pd <==> exists k :: k in pd && k !in active
  {
    if exists k :: k in pd && k !in active {
      var k :| k in pd && k !in active;
      assert k !in Pruned(pd, active);
    } else {
      assert Pruned(pd, active).Keys == pd.Keys;
    }
  }

  /* ---------------------------------------------------------------- closing */

  /** A close is an order on the opposite side of the position. */
  function Opposite(side: Side): OrderKind {
    match side
    case Buy => SellKind
    case Sell => BuyKind
  }

  /** What `_close_partial` does: nothing, raise (a zero volume step divides by zero), or send one request. */
  datatype CloseOutcome = NoClose | CloseRaises | CloseSent(request: Request)

  /**
   * The volume `_close_partial` settles on for a positive step: the
   * requested volume raised to the minimum, rounded to the nearest whole
   * number of steps and capped at what the position holds.
   */
  function StepVolume(volume: real, si: SymbolInfo, held: real): real
    requires si.volumeStep != 0.0
  {
    Min(RoundHalfEven(Max(volume, si.volumeMin) / si.volumeStep) as real * si.volumeStep, held)
  }

  /**
   * `_close_partial`: a non-positive volume or an unknown symbol closes
   * nothing; a zero step raises; otherwise the settled volume is sent
   * unless it falls below the minimum.
   */
  function CloseAttempt(pos: Position, volume: real, login: int, market: Market): CloseOutcome {
    if volume <= 0.0 then NoClose
    else
      match market.InfoOf(pos.symbol)
      case None => NoClose
      case Some(si) =>
        if si.volumeStep == 0.0 then CloseRaises
        else
          var capped := StepVolume(volume, si, pos.volume);
          if capped < si.volumeMin then NoClose
          else CloseSent(Close(pos.ticket, pos.symbol, capped, Opposite(pos.side), login, Execution.FillingMode(Some(si))))
  }

  /**
   * A close sent for a position is on the opposite side, for that ticket and
   * symbol, tagged with the login, of the settled volume, which is at least
   * the minimum and at most the position's volume.
   */
  lemma CloseAttemptBounds(pos: Position, volume: real, login: int, market: Market)
    requires CloseAttempt(pos, volume, login, market).CloseSent?
    ensures pos.symbol in market.symbols && volume > 0.0 && market.symbols[pos.symbol].volumeStep != 0.0
    ensures var r := CloseAttempt(pos, volume, login, market).request;
      && r.Close? && r.position == pos.ticket && r.symbol == pos.symbol && r.magic == login
      && r.kind == Opposite(pos.side) && r.filling == ImmediateOrCancel
      && r.volume == StepVolume(volume, market.symbols[pos.symbol], pos.volume)
      && market.symbols[pos.symbol].volumeMin <= r.volume <= pos.volume
  {
  }

  /** Unless capped at what the position holds, the settled volume is a whole number of steps. */
  lemma StepVolumeWholeSteps(volume: real, si: SymbolInfo, held: real)
    requires si.volumeStep != 0.0
    ensures var v := StepVolume(volume, si, held);
      v == held || (v / si.volumeStep).Floor as real == v / si.volumeStep
  {
    var k := RoundHalfEven(Max(volume, si.volumeMin) / si.volumeStep);
    var v := StepVolume(volume, si, held);
    if v != held {
      assert v == k as real * si.volumeStep;
      StepsAreWhole(v, k, si.volumeStep);
    }
  }

  /** A whole number of steps divided by the step is that whole number. */
  lemma StepsAreWhole(x: real, k: int, step: real)
    requires step != 0.0 && x == k as real * step
    ensures (x / step).Floor as real == x / step
  {
    MulDiv(k as real, step);
  }

  /**
   * Unless capped at what the position holds, the settled volume (for a
   * positive step) is within half a step of the requested volume raised to
   * the minimum.
   */
  lemma StepVolumeNearRequested(volume: real, si: SymbolInfo, held: real)
    requires si.volumeStep > 0.0
    ensures var v := StepVolume(volume, si, held);
      v != held ==> Max(volume, si.volumeMin) - si.volumeStep / 2.0 <= v <= Max(volume, si.volumeMin) + si.volumeStep / 2.0
  {
    var raised := Max(volume, si.volumeMin);
    var k := RoundHalfEven(raised / si.volumeStep);
    NearestStepLower(raised, si.volumeStep, k);
    NearestStepUpper(raised, si.volumeStep, k);
  }

  /** The effect of one close on what has been sent so far. */
  datatype Sends = Sends(log: seq<Request>, crashed: bool)

  /** One snapshot position in the ghost check: an unmanaged one with a handler is closed in full. */
  function GhostStep(managed: set<int>, handlers: seq<int>, market: Market, s: Sends, lp: LinkedPosition): Sends {
    if s.crashed || lp.position.ticket in managed || lp.login !in handlers then s
    else
      match CloseAttempt(lp.position, lp.position.volume, lp.login, market)
      case NoClose => s
      case CloseRaises => s.(crashed := true)
      case CloseSent(r) => s.(log := s.log + [r])
  }

  /** The ghost check over the snapshot positions in order. */
  function GhostCloses(managed: set<int>, handlers: seq<int>, market: Market, s: Sends, positions: seq<LinkedPosition>): Sends {
    if positions == [] then s
    else
      GhostStep(managed, handlers, market, GhostCloses(managed, handlers, market, s, positions[..|positions| - 1]),
                positions[|positions| - 1])
  }

  /** Whether a close request is for one of the listed positions. */
  predicate ClosesSnapshotPosition(r: Request, positions: seq<LinkedPosition>) {
    r.Close? && exists i :: 0 <= i < |positions| && r.position == positions[i].position.ticket && r.magic == positions[i].login
  }

  /**
   * The ghost check only appends, and each request it sends closes a
   * snapshot position whose ticket is not managed, for an account that has
   * a handler, with the login as magic number.
   */
  lemma {:induction false} GhostClosesOnlyUnmanaged(managed: set<int>, handlers: seq<int>, market: Market, s: Sends,
                                                    positions: seq<LinkedPosition>)
    ensures var g := GhostCloses(managed, handlers, market, s, positions);
      && s.log <= g.log
      && (s.crashed ==> g == s)
      && forall r | r in g.log[|s.log|..] ::
           r.Close? && r.position !in managed && r.magic in handlers && ClosesSnapshotPosition(r, positions)
  {
    if positions != [] {
      var init, lp := positions[..|positions| - 1], positions[|positions| - 1];
      GhostClosesOnlyUnmanaged(managed, handlers, market, s, init);
      var g0 := GhostCloses(managed, handlers, market, s, init);
      var g := GhostStep(managed, handlers, market, g0, lp);
      forall r | r in g0.log[|s.log|..] ensures ClosesSnapshotPosition(r, positions) {
        var i :| 0 <= i < |init| && r.position == init[i].position.ticket && r.magic == init[i].login;
        assert positions[i] == init[i];
      }
      if g != g0 && !g.crashed {
        var c := CloseAttempt(lp.position, lp.position.volume, lp.login, market);
        CloseAttemptBounds(lp.position, lp.position.volume, lp.login, market);
        assert g.log[|s.log|..] == g0.log[|s.log|..] + [c.request];
        assert ClosesSnapshotPosition(c.request, positions) by {
          assert positions[|positions| - 1] == lp;
        }
      }
    }
  }

  /**
   * Unless the check raised, every unmanaged snapshot position of an account
   * with a handler, whose close is sendable, was closed.
   */
  lemma {:induction false} GhostClosesComplete(managed: set<int>, handlers: seq<int>, market: Market, s: Sends,
                                               positions: seq<LinkedPosition>, i: nat)
    requires i < |positions|
    requires positions[i].position.ticket !in managed && positions[i].login in handlers
    requires CloseAttempt(positions[i].position, positions[i].position.volume, positions[i].login, market).CloseSent?
    ensures var g := GhostCloses(managed, handlers, market, s, positions);
      !g.crashed ==>
        CloseAttempt(positions[i].position, positions[i].position.volume, positions[i].login, market).request in g.log
  {
    var init := positions[..|positions| - 1];
    var g0 := GhostCloses(managed, handlers, market, s, init);
    GhostClosesOnlyUnmanaged(managed, handlers, market, s, init);
    if i < |init| {
      assert init[i] == positions[i];
      GhostClosesComplete(managed, handlers, market, s, init, i);
      GhostLogGrows(managed, handlers, market, g0, positions[|positions| - 1]);
    }
  }

  lemma GhostLogGrows(managed: set<int>, handlers: seq<int>, market: Market, s: Sends, lp: LinkedPosition)
    ensures s.log <= GhostStep(managed, handlers, market, s, lp).log
    ensures GhostStep(managed, handlers, market, s, lp).crashed ==> s.crashed || CloseAttempt(lp.position, lp.position.volume, lp.login, market).CloseRaises?
  {
  }

  /* ---------------------------------------------------------------- decide */

  /** Whether `price` has reached the target `level` of a position on `side`, widened by `buffer`. */
  predicate HitsTarget(side: Side, price: real, level: real, buffer: real) {
    match side
    case Buy => price >= level - buffer
    case Sell => price <= level + buffer
  }

  /** A sell is judged at the bid, anything else at the ask. */
  function CurrentPrice(side: Side, tick: Tick): real {
    match side
    case Sell => tick.bid
    case Buy => tick.ask
  }

  /** The buffer for target number `tpNum`: only the first target gets one, and only with a non-zero pip size. */
  function TargetBuffer(tpNum: int, tp1Buffer: real, pip: Option<real>): real {
    if pip.Some? && pip.value != 0.0 && tpNum == 1 then tp1Buffer * pip.value else 0.0
  }

  /** Whether target `i` (numbered `i + 1`) counts as hit: not closed before and reached at `price`. */
  predicate TargetHit(tps: seq<real>, closed: seq<int>, side: Side, price: real, tp1Buffer: real, pip: Option<real>, i: nat)
    requires i < |tps|
  {
    i + 1 !in closed && HitsTarget(side, price, tps[i], TargetBuffer(i + 1, tp1Buffer, pip))
  }

  /** The index of the first target at or after `from` that counts as hit. */
  function FirstHit(tps: seq<real>, closed: seq<int>, side: Side, price: real, tp1Buffer: real, pip: Option<real>,
                    from: nat): (r: Option<nat>)
    decreases |tps| - from
    ensures r.Some? ==> from <= r.value < |tps| && TargetHit(tps, closed, side, price, tp1Buffer, pip, r.value)
    ensures forall j :: from <= j < |tps| && (r.None? || j < r.value) ==> !TargetHit(tps, closed, side, price, tp1Buffer, pip, j)
  {
    if from >= |tps| then None
    else if TargetHit(tps, closed, side, price, tp1Buffer, pip, from) then Some(from)
    else FirstHit(tps, closed, side, price, tp1Buffer, pip, from + 1)
  }

  /**
   * The decision pass so far: the managed map (whose hit targets are
   * recorded as it goes), the planned actions, whether anything was hit,
   * whether it raised, and the groups already secured or planned.
   */
  datatype Decision = Decision(pd: map<int, ManagedTicket>, actions: seq<Action>, changed: bool, crashed: bool,
                               planned: set<string>)

  /** The non-empty group ids of which some managed ticket is already secured. */
  function SecuredGroups(pd: map<int, ManagedTicket>): set<string> {
    set k | k in pd && pd[k].isSecured && pd[k].groupId != "" :: pd[k].groupId
  }

  /** The volume each target closes: the original volume split evenly over the targets, to two decimals. */
  function VolumePerTarget(mt: ManagedTicket): real
    requires mt.signal.numTps != 0
  {
    Round2(mt.originalVolume / mt.signal.numTps as real)
  }

  /** Whether the decision step looks at a snapshot position: managed, with a handler, metadata and prices. */
  predicate Considered(handlers: seq<int>, market: Market, d: Decision, lp: LinkedPosition) {
    && !d.crashed && lp.position.ticket in d.pd && lp.login in handlers
    && lp.position.symbol in market.symbols && lp.position.symbol in market.ticks
  }

  /** Whether position `pos` has reached target `i` of `tps` at the venue's current price, with the first target's buffer. */
  predicate ReachedTarget(market: Market, tp1Buffer: real, pos: Position, tps: seq<real>, i: int) {
    && 0 <= i < |tps| && pos.symbol in market.symbols && pos.symbol in market.ticks
    && HitsTarget(pos.side, CurrentPrice(pos.side, market.ticks[pos.symbol]), tps[i],
                  TargetBuffer(i + 1, tp1Buffer, Execution.PipSize(pos.symbol, market.InfoOf(pos.symbol))))
  }

  /**
   * The target a snapshot position hits in this pass: none when it is not
   * considered, otherwise the first target not recorded yet that the
   * current price has reached, if any.
   */
  function PositionHit(handlers: seq<int>, market: Market, tp1Buffer: real, d: Decision, lp: LinkedPosition): (r: Option<nat>)
    ensures r.Some? ==> Considered(handlers, market, d, lp)
    ensures r.Some? ==> var mt := d.pd[lp.position.ticket];
      r.value + 1 !in mt.closedTps && ReachedTarget(market, tp1Buffer, lp.position, mt.signal.tps, r.value)
    ensures Considered(handlers, market, d, lp) ==> var mt := d.pd[lp.position.ticket];
      forall j | 0 <= j < |mt.signal.tps| && (r.None? || j < r.value) ::
        j + 1 in mt.closedTps || !ReachedTarget(market, tp1Buffer, lp.position, mt.signal.tps, j)
  {
    if !Considered(handlers, market, d, lp) then None
    else
      var pos := lp.position;
      var mt := d.pd[pos.ticket];
      var pip := Execution.PipSize(pos.symbol, market.InfoOf(pos.symbol));
      var price := CurrentPrice(pos.side, market.ticks[pos.symbol]);
      var r := FirstHit(mt.signal.tps, mt.closedTps, pos.side, price, tp1Buffer, pip, 0);
      assert forall j | 0 <= j < |mt.signal.tps| && (r.None? || j < r.value) ::
        j + 1 in mt.closedTps || !ReachedTarget(market, tp1Buffer, pos, mt.signal.tps, j) by {
        forall j | 0 <= j < |mt.signal.tps| && (r.None? || j < r.value)
          ensures j + 1 in mt.closedTps || !ReachedTarget(market, tp1Buffer, pos, mt.signal.tps, j)
        {
          assert !TargetHit(mt.signal.tps, mt.closedTps, pos.side, price, tp1Buffer, pip, j);
        }
      }
      r
  }

  /**
   * One snapshot position: the target it hits (if any) is recorded and
   * closed, and a first target triggers securing its group once. A zero
   * target count divides by zero after the target was recorded.
   */
  function DecideStep(handlers: seq<int>, market: Market, tp1Buffer: real, d: Decision, lp: LinkedPosition): Decision {
    match PositionHit(handlers, market, tp1Buffer, d, lp)
    case None => d
    case Some(i) =>
      var pos := lp.position;
      var mt := d.pd[pos.ticket];
      var pd' := d.pd[pos.ticket := mt.(closedTps := mt.closedTps + [i + 1])];
      if mt.signal.numTps == 0 then d.(pd := pd', crashed := true)
      else
        var close := PartialClose(pos, VolumePerTarget(mt), lp.login);
        if i == 0 && mt.groupId != "" && mt.groupId !in d.planned then
          Decision(pd', d.actions + [close, SecureGroup(mt.groupId)], true, false, d.planned + {mt.groupId})
        else
          Decision(pd', d.actions + [close], true, false, d.planned)
  }

  /** The decision pass over the snapshot positions in order. */
  function DecideAll(handlers: seq<int>, market: Market, tp1Buffer: real, d: Decision, positions: seq<LinkedPosition>): Decision {
    if positions == [] then d
    else
      DecideStep(handlers, market, tp1Buffer, DecideAll(handlers, market, tp1Buffer, d, positions[..|positions| - 1]),
                 positions[|positions| - 1])
  }

  /** `_decide_on_position_actions`: the pass from no actions, with the already secured groups as planned. */
  function Decide(pd: map<int, ManagedTicket>, positions: seq<LinkedPosition>, handlers: seq<int>, market: Market,
                  tp1Buffer: real): Decision {
    DecideAll(handlers, market, tp1Buffer, Decision(pd, [], false, false, SecuredGroups(pd)), positions)
  }

  /** A record of targets without repeats, each naming one of the signal's targets. */
  predicate WellClosed(mt: ManagedTicket) {
    && (forall i, j :: 0 <= i < j < |mt.closedTps| ==> mt.closedTps[i] != mt.closedTps[j])
    && (forall i :: 0 <= i < |mt.closedTps| ==> 1 <= mt.closedTps[i] <= |mt.signal.tps|)
  }

  predicate AllWellClosed(pd: map<int, ManagedTicket>) {
    forall k | k in pd :: WellClosed(pd[k])
  }

  /** From `a` to `b` the managed tickets stay and each entry changes only by recording more closed targets. */
  predicate OnlyRecordsTargets(a: map<int, ManagedTicket>, b: map<int, ManagedTicket>) {
    && b.Keys == a.Keys
    && forall k | k in a :: a[k].closedTps <= b[k].closedTps && b[k] == a[k].(closedTps := b[k].closedTps)
  }

  lemma OnlyRecordsTargetsTransitive(a: map<int, ManagedTicket>, b: map<int, ManagedTicket>, c: map<int, ManagedTicket>)
    requires OnlyRecordsTargets(a, b) && OnlyRecordsTargets(b, c)
    ensures OnlyRecordsTargets(a, c)
  {
    forall k | k in a ensures a[k].closedTps <= c[k].closedTps && c[k] == a[k].(closedTps := c[k].closedTps) {
      assert b[k].closedTps <= c[k].closedTps;
    }
  }

  /** A target is recorded at most once and only if the signal has it. */
  lemma DecideStepKeepsEntries(handlers: seq<int>, market: Market, tp1Buffer: real, d: Decision, lp: LinkedPosition)
    ensures var r := DecideStep(handlers, market, tp1Buffer, d, lp);
      && OnlyRecordsTargets(d.pd, r.pd)
      && (AllWellClosed(d.pd) ==> AllWellClosed(r.pd))
      && d.actions <= r.actions && d.planned <= r.planned
      && (d.crashed ==> r == d)
  {
    var hit := PositionHit(handlers, market, tp1Buffer, d, lp);
    if hit.Some? {
      RecordTargetKeeps(d.pd, lp.position.ticket, hit.value);
    }
  }

  /** Recording a target the signal has and that was not recorded before keeps the entry well closed. */
  lemma RecordTargetKeeps(pd: map<int, ManagedTicket>, t: int, i: int)
    requires t in pd && 0 <= i < |pd[t].signal.tps| && i + 1 !in pd[t].closedTps
    ensures var pd' := pd[t := pd[t].(closedTps := pd[t].closedTps + [i + 1])];
      OnlyRecordsTargets(pd, pd') && (AllWellClosed(pd) ==> AllWellClosed(pd'))
  {
    var pd' := pd[t := pd[t].(closedTps := pd[t].closedTps + [i + 1])];
    if AllWellClosed(pd) {
      assert WellClosed(pd'[t]);
    }
  }

  /**
   * Deciding keeps the managed tickets, and of each entry changes only the
   * record of closed targets, which grows and stays without repeats naming
   * targets of the signal; the actions and planned groups only grow, and a
   * raised pass stays as it was.
   */
  lemma {:induction false} DecideAllKeepsEntries(handlers: seq<int>, market: Market, tp1Buffer: real, d: Decision,
                                                 positions: seq<LinkedPosition>)
    ensures var r := DecideAll(handlers, market, tp1Buffer, d, positions);
      && OnlyRecordsTargets(d.pd, r.pd)
      && (AllWellClosed(d.pd) ==> AllWellClosed(r.pd))
      && d.actions <= r.actions && d.planned <= r.planned
      && (d.crashed ==> r == d)
  {
    if positions != [] {
      var init := positions[..|positions| - 1];
      DecideAllKeepsEntries(handlers, market, tp1Buffer, d, init);
      var m := DecideAll(handlers, market, tp1Buffer, d, init);
      DecideStepKeepsEntries(handlers, market, tp1Buffer, m, positions[|positions| - 1]);
      OnlyRecordsTargetsTransitive(d.pd, m.pd, DecideAll(handlers, market, tp1Buffer, d, positions).pd);
    }
  }

  /** Whether an action closes a snapshot position of a managed ticket with a handler, for the volume of one target. */
  predicate PlannedClose(a: Action, pd: map<int, ManagedTicket>, handlers: seq<int>, positions: seq<LinkedPosition>) {
    a.PartialClose? && a.login in handlers && a.position.ticket in pd && pd[a.position.ticket].signal.numTps != 0
    && a.volume == VolumePerTarget(pd[a.position.ticket]) && LinkedPosition(a.position, a.login) in positions
  }

  /** Whether an action secures a non-empty group neither secured nor planned before `d`, and planned by `r`. */
  predicate PlannedSecure(a: Action, d: Decision, r: Decision) {
    a.SecureGroup? && a.groupId != "" && a.groupId !in d.planned && a.groupId in r.planned
  }

  /**
   * A close the pass planned for a target the price reached, not recorded
   * when the pass began (`pd0`) and recorded in the map it leaves (`pd1`).
   */
  ghost predicate CloseRecorded(a: Action, pd0: map<int, ManagedTicket>, pd1: map<int, ManagedTicket>, market: Market,
                                tp1Buffer: real) {
    a.PartialClose? && a.position.ticket in pd0 && a.position.ticket in pd1
    && exists i :: (ReachedTarget(market, tp1Buffer, a.position, pd0[a.position.ticket].signal.tps, i)
                   && i + 1 !in pd0[a.position.ticket].closedTps && i + 1 in pd1[a.position.ticket].closedTps)
  }

  /** A close of the first target of a ticket of group `gid`, not recorded in `pd0` and recorded in `pd1`. */
  predicate FirstTargetClose(a: Action, gid: string, pd0: map<int, ManagedTicket>, pd1: map<int, ManagedTicket>,
                             market: Market, tp1Buffer: real) {
    a.PartialClose? && a.position.ticket in pd0 && a.position.ticket in pd1
    && pd0[a.position.ticket].groupId == gid
    && ReachedTarget(market, tp1Buffer, a.position, pd0[a.position.ticket].signal.tps, 0)
    && 1 !in pd0[a.position.ticket].closedTps && 1 in pd1[a.position.ticket].closedTps
  }

  /**
   * One position: nothing changes unless it hits a target; a hit target is
   * recorded before anything is planned; the close is planned exactly when
   * the signal's target count is not zero, and the securing of its group
   * follows exactly when the hit is the first target of a non-empty group
   * not secured or planned yet.
   */
  lemma DecideStepPlans(handlers: seq<int>, market: Market, tp1Buffer: real, d: Decision, lp: LinkedPosition)
    ensures var r := DecideStep(handlers, market, tp1Buffer, d, lp);
      var hit := PositionHit(handlers, market, tp1Buffer, d, lp);
      var t := lp.position.ticket;
      var added := r.actions[|d.actions|..];
      && d.actions <= r.actions && d.planned <= r.planned
      && (hit.None? ==> r == d)
      && (hit.Some? ==> r.pd == d.pd[t := d.pd[t].(closedTps := d.pd[t].closedTps + [hit.value + 1])])
      && (|added| >= 1 <==> hit.Some? && d.pd[t].signal.numTps != 0)
      && |added| <= 2
      && (|added| >= 1 ==> PlannedClose(added[0], d.pd, handlers, [lp]) && added[0].position == lp.position)
      && (|added| == 2 <==> |added| >= 1 && hit.value == 0 && d.pd[t].groupId != "" && d.pd[t].groupId !in d.planned)
      && (|added| == 2 ==> added[1] == SecureGroup(d.pd[t].groupId) && r.planned == d.planned + {d.pd[t].groupId})
      && (|added| < 2 ==> r.planned == d.planned)
  {
  }

  /**
   * The actions a pass plans are closes of snapshot positions of managed
   * tickets with a handler, each for the original volume split over the
   * targets and for a target the price reached that was not recorded before
   * and is recorded in the map the pass leaves; and the securing of groups
   * neither secured nor planned before, each right after the close of the
   * first target of one of the group's tickets. No ghost close is planned.
   */
  lemma {:induction false} DecideAllPlans(handlers: seq<int>, market: Market, tp1Buffer: real, d: Decision,
                                          positions: seq<LinkedPosition>)
    ensures d.actions <= DecideAll(handlers, market, tp1Buffer, d, positions).actions
    ensures var r := DecideAll(handlers, market, tp1Buffer, d, positions);
      forall a | a in r.actions[|d.actions|..] ::
        (PlannedClose(a, d.pd, handlers, positions) && CloseRecorded(a, d.pd, r.pd, market, tp1Buffer))
        || PlannedSecure(a, d, r)
    ensures var r := DecideAll(handlers, market, tp1Buffer, d, positions);
      var added := r.actions[|d.actions|..];
      forall j | 0 <= j < |added| && added[j].SecureGroup? ::
        0 < j && FirstTargetClose(added[j - 1], added[j].groupId, d.pd, r.pd, market, tp1Buffer)
  {
    DecideAllKeepsEntries(handlers, market, tp1Buffer, d, positions);
    if positions != [] {
      var init, lp := positions[..|positions| - 1], positions[|positions| - 1];
      DecideAllPlans(handlers, market, tp1Buffer, d, init);
      DecideAllKeepsEntries(handlers, market, tp1Buffer, d, init);
      var m := DecideAll(handlers, market, tp1Buffer, d, init);
      var r := DecideStep(handlers, market, tp1Buffer, m, lp);
      DecideStepPlans(handlers, market, tp1Buffer, m, lp);
      DecideStepKeepsEntries(handlers, market, tp1Buffer, m, lp);
      PlansGrow(d, m, r, init, positions, handlers);
      var hit := PositionHit(handlers, market, tp1Buffer, m, lp);
      ClosesGrow(d, m, r, hit, lp, market, tp1Buffer);
      SecuresGrow(d, m, r, hit, lp, market, tp1Buffer);
    }
  }

  /** The combination step of `DecideAllPlans`, kept apart from the decision itself. */
  lemma PlansGrow(d: Decision, m: Decision, r: Decision, init: seq<LinkedPosition>, positions: seq<LinkedPosition>,
                  handlers: seq<int>)
    requires |positions| > 0 && init == positions[..|positions| - 1]
    requires d.actions <= m.actions <= r.actions && d.planned <= m.planned <= r.planned
    requires OnlyRecordsTargets(d.pd, m.pd)
    requires forall a | a in m.actions[|d.actions|..] :: PlannedClose(a, d.pd, handlers, init) || PlannedSecure(a, d, m)
    requires var step := r.actions[|m.actions|..];
      && |step| <= 2
      && (|step| >= 1 ==> PlannedClose(step[0], m.pd, handlers, [positions[|positions| - 1]]))
      && (|step| == 2 ==> PlannedSecure(step[1], m, r))
    ensures forall a | a in r.actions[|d.actions|..] :: PlannedClose(a, d.pd, handlers, positions) || PlannedSecure(a, d, r)
  {
    var before, step, added := m.actions[|d.actions|..], r.actions[|m.actions|..], r.actions[|d.actions|..];
    assert added == before + step;
    forall a | a in added ensures PlannedClose(a, d.pd, handlers, positions) || PlannedSecure(a, d, r) {
      if a in before {
        if a.PartialClose? {
          assert LinkedPosition(a.position, a.login) in init;
        }
      } else if a == step[0] {
        assert positions[|positions| - 1] in positions;
        assert m.pd[a.position.ticket] == d.pd[a.position.ticket].(closedTps := m.pd[a.position.ticket].closedTps);
      }
    }
  }

  /**
   * The combination step of `DecideAllPlans` for what each close records:
   * what held of the earlier closes still holds, since recorded targets stay
   * recorded, and the new position's close is for the target it hit.
   */
  lemma ClosesGrow(d: Decision, m: Decision, r: Decision, hit: Option<nat>, lp: LinkedPosition, market: Market,
                   tp1Buffer: real)
    requires d.actions <= m.actions <= r.actions
    requires OnlyRecordsTargets(d.pd, m.pd) && OnlyRecordsTargets(m.pd, r.pd)
    requires forall a | a in m.actions[|d.actions|..] :: a.PartialClose? ==> CloseRecorded(a, d.pd, m.pd, market, tp1Buffer)
    requires hit.Some? ==> var t := lp.position.ticket;
      && t in m.pd && hit.value + 1 !in m.pd[t].closedTps
      && ReachedTarget(market, tp1Buffer, lp.position, m.pd[t].signal.tps, hit.value)
      && r.pd[t].closedTps == m.pd[t].closedTps + [hit.value + 1]
    requires var step := r.actions[|m.actions|..];
      && |step| <= 2
      && (|step| >= 1 ==> hit.Some? && step[0].PartialClose? && step[0].position == lp.position)
      && (|step| == 2 ==> step[1].SecureGroup?)
    ensures forall a | a in r.actions[|d.actions|..] :: a.PartialClose? ==> CloseRecorded(a, d.pd, r.pd, market, tp1Buffer)
  {
    var before, step, added := m.actions[|d.actions|..], r.actions[|m.actions|..], r.actions[|d.actions|..];
    assert added == before + step;
    forall a | a in added && a.PartialClose? ensures CloseRecorded(a, d.pd, r.pd, market, tp1Buffer) {
      var t := a.position.ticket;
      if a in before {
        var i :| ReachedTarget(market, tp1Buffer, a.position, d.pd[t].signal.tps, i)
          && i + 1 !in d.pd[t].closedTps && i + 1 in m.pd[t].closedTps;
        PrefixIn(m.pd[t].closedTps, r.pd[t].closedTps, i + 1);
      } else {
        assert a == step[0];
        PrefixIn(d.pd[t].closedTps, m.pd[t].closedTps, hit.value + 1);
        assert ReachedTarget(market, tp1Buffer, a.position, d.pd[t].signal.tps, hit.value);
      }
    }
  }

  /**
   * The combination step of `DecideAllPlans` for securing: an earlier
   * securing still follows its first-target close, and a new one follows
   * the new position's close of its first target.
   */
  lemma SecuresGrow(d: Decision, m: Decision, r: Decision, hit: Option<nat>, lp: LinkedPosition, market: Market,
                    tp1Buffer: real)
    requires d.actions <= m.actions <= r.actions
    requires OnlyRecordsTargets(d.pd, m.pd) && OnlyRecordsTargets(m.pd, r.pd)
    requires var before := m.actions[|d.actions|..];
      forall j | 0 <= j < |before| && before[j].SecureGroup? ::
        0 < j && FirstTargetClose(before[j - 1], before[j].groupId, d.pd, m.pd, market, tp1Buffer)
    requires hit.Some? ==> var t := lp.position.ticket;
      && t in m.pd && hit.value + 1 !in m.pd[t].closedTps
      && ReachedTarget(market, tp1Buffer, lp.position, m.pd[t].signal.tps, hit.value)
      && r.pd[t].closedTps == m.pd[t].closedTps + [hit.value + 1]
    requires var step := r.actions[|m.actions|..];
      && |step| <= 2
      && (|step| >= 1 ==> hit.Some? && step[0].PartialClose? && step[0].position == lp.position)
      && (|step| == 2 ==> hit.value == 0 && step[1] == SecureGroup(m.pd[lp.position.ticket].groupId))
    ensures var added := r.actions[|d.actions|..];
      forall j | 0 <= j < |added| && added[j].SecureGroup? ::
        0 < j && FirstTargetClose(added[j - 1], added[j].groupId, d.pd, r.pd, market, tp1Buffer)
  {
    var before, step, added := m.actions[|d.actions|..], r.actions[|m.actions|..], r.actions[|d.actions|..];
    assert added == before + step;
    forall j | 0 <= j < |added| && added[j].SecureGroup?
      ensures 0 < j && FirstTargetClose(added[j - 1], added[j].groupId, d.pd, r.pd, market, tp1Buffer)
    {
      if j < |before| {
        assert added[j] == before[j] && added[j - 1] == before[j - 1];
        var t := before[j - 1].position.ticket;
        PrefixIn(m.pd[t].closedTps, r.pd[t].closedTps, 1);
      } else {
        assert j == |before| + 1 && added[j - 1] == step[0];
        var t := lp.position.ticket;
        PrefixIn(d.pd[t].closedTps, m.pd[t].closedTps, 1);
      }
    }
  }

  /** A value in a prefix is in the whole sequence. */
  lemma PrefixIn(a: seq<int>, b: seq<int>, x: int)
    requires a <= b
    ensures x in a ==> x in b
  {
    if x in a {
      var k :| 0 <= k < |a| && a[k] == x;
      assert b[k] == x;
    }
  }

  /** Each group is planned for securing at most once per pass. */
  lemma {:induction false} DecideAllSecuresOnce(handlers: seq<int>, market: Market, tp1Buffer: real, d: Decision,
                                                positions: seq<LinkedPosition>)
    ensures d.actions <= DecideAll(handlers, market, tp1Buffer, d, positions).actions
    ensures var r := DecideAll(handlers, market, tp1Buffer, d, positions);
      var added := r.actions[|d.actions|..];
      forall i, j :: 0 <= i < j < |added| && added[i].SecureGroup? && added[j].SecureGroup? ==> added[i].groupId != added[j].groupId
  {
    DecideAllKeepsEntries(handlers, market, tp1Buffer, d, positions);
    if positions != [] {
      var init, lp := positions[..|positions| - 1], positions[|positions| - 1];
      DecideAllSecuresOnce(handlers, market, tp1Buffer, d, init);
      DecideAllPlans(handlers, market, tp1Buffer, d, init);
      DecideAllKeepsEntries(handlers, market, tp1Buffer, d, init);
      var m := DecideAll(handlers, market, tp1Buffer, d, init);
      var r := DecideStep(handlers, market, tp1Buffer, m, lp);
      DecideStepPlans(handlers, market, tp1Buffer, m, lp);
      SecuresStayDistinct(d, m, r);
    }
  }

  lemma SecuresStayDistinct(d: Decision, m: Decision, r: Decision)
    requires d.actions <= m.actions <= r.actions
    requires forall a | a in m.actions[|d.actions|..] :: a.SecureGroup? ==> a.groupId in m.planned
    requires var before := m.actions[|d.actions|..];
      forall i, j :: 0 <= i < j < |before| && before[i].SecureGroup? && before[j].SecureGroup? ==> before[i].groupId != before[j].groupId
    requires var step := r.actions[|m.actions|..];
      && |step| <= 2 && (|step| >= 1 ==> step[0].PartialClose?)
      && (|step| == 2 ==> step[1].SecureGroup? && step[1].groupId !in m.planned)
    ensures var added := r.actions[|d.actions|..];
      forall i, j :: 0 <= i < j < |added| && added[i].SecureGroup? && added[j].SecureGroup? ==> added[i].groupId != added[j].groupId
  {
    var before, step, added := m.actions[|d.actions|..], r.actions[|m.actions|..], r.actions[|d.actions|..];
    assert added == before + step;
    forall i, j | 0 <= i < j < |added| && added[i].SecureGroup? && added[j].SecureGroup?
      ensures added[i].groupId != added[j].groupId
    {
      if j >= |before| && i < |before| {
        assert added[i] in before;
      }
    }
  }

  /** Unless the pass raised, it reports a change exactly when it planned an action. */
  lemma {:induction false} DecideAllChangedIffActions(handlers: seq<int>, market: Market, tp1Buffer: real, d: Decision,
                                                      positions: seq<LinkedPosition>)
    ensures var r := DecideAll(handlers, market, tp1Buffer, d, positions);
      !r.crashed ==> (r.changed <==> d.changed || |r.actions| > |d.actions|)
  {
    if positions != [] {
      var init := positions[..|positions| - 1];
      DecideAllChangedIffActions(handlers, market, tp1Buffer, d, init);
      DecideAllKeepsEntries(handlers, market, tp1Buffer, d, init);
    }
  }

  /* ---------------------------------------------------------------- apply */

  /** The apply pass so far: the managed map, the requests sent, the groups already secured, and whether it raised. */
  datatype Applied = Applied(pd: map<int, ManagedTicket>, log: seq<Request>, secured: set<string>, crashed: bool)

  /**
   * `_secure_position` for one snapshot position of the group that is not
   * secured yet and has a handler: the stop-loss moves to the open price,
   * and the entry is marked secured only when the venue reports it done.
   */
  function SecureStep(gid: string, handlers: seq<int>, answer: (seq<Request>, Request) -> Reply, a: Applied,
                      lp: LinkedPosition): Applied {
    var pos := lp.position;
    if pos.ticket in a.pd && a.pd[pos.ticket].groupId == gid && !a.pd[pos.ticket].isSecured && lp.login in handlers then
      var req := SetStops(pos.ticket, pos.priceOpen, pos.tp);
      var pd := if answer(a.log, req).done then a.pd[pos.ticket := a.pd[pos.ticket].(isSecured := true)] else a.pd;
      a.(pd := pd, log := a.log + [req])
    else a
  }

  /** `_secure_trade_group` over the snapshot positions in order. */
  function SecureAll(gid: string, handlers: seq<int>, answer: (seq<Request>, Request) -> Reply, a: Applied,
                     positions: seq<LinkedPosition>): Applied {
    if positions == [] then a
    else SecureStep(gid, handlers, answer, SecureAll(gid, handlers, answer, a, positions[..|positions| - 1]), positions[|positions| - 1])
  }

  /** `_cancel_pending_orders_for_group` for one order: managed under the group and with a handler, it is removed. */
  function CancelStep(gid: string, handlers: seq<int>, a: Applied, lo: LinkedOrder): Applied {
    if lo.ticket in a.pd && a.pd[lo.ticket].groupId == gid && lo.login in handlers then a.(log := a.log + [Remove(lo.ticket)])
    else a
  }

  function CancelAll(gid: string, handlers: seq<int>, a: Applied, orders: seq<LinkedOrder>): Applied {
    if orders == [] then a
    else CancelStep(gid, handlers, CancelAll(gid, handlers, a, orders[..|orders| - 1]), orders[|orders| - 1])
  }

  /** The effect of one `_close_partial` on the pass. */
  function CloseEffect(a: Applied, c: CloseOutcome): Applied {
    match c
    case NoClose => a
    case CloseRaises => a.(crashed := true)
    case CloseSent(r) => a.(log := a.log + [r])
  }

  /**
   * One planned action: a close, or securing a group not secured earlier in
   * this pass and then cancelling its pending orders. A close that raises
   * ends the pass.
   */
  function ApplyStep(positions: seq<LinkedPosition>, orders: seq<LinkedOrder>, handlers: seq<int>, market: Market,
                     answer: (seq<Request>, Request) -> Reply, a: Applied, action: Action): Applied {
    if a.crashed then a
    else
      match action
      case PartialClose(pos, volume, login) => CloseEffect(a, CloseAttempt(pos, volume, login, market))
      case GhostClose(pos, login) => CloseEffect(a, CloseAttempt(pos, pos.volume, login, market))
      case SecureGroup(gid) =>
        if gid in a.secured then a
        else
          var c := CancelAll(gid, handlers, SecureAll(gid, handlers, answer, a, positions), orders);
          c.(secured := c.secured + {gid})
  }

  function ApplyAll(positions: seq<LinkedPosition>, orders: seq<LinkedOrder>, handlers: seq<int>, market: Market,
                    answer: (seq<Request>, Request) -> Reply, a: Applied, actions: seq<Action>): Applied {
    if actions == [] then a
    else ApplyStep(positions, orders, handlers, market, answer, ApplyAll(positions, orders, handlers, market, answer, a, actions[..|actions| - 1]),
                   actions[|actions| - 1])
  }

  /** Whether the request at index `i` of `log` moved the stop-loss of `ticket` and the venue reported it done. */
  predicate SecuredAt(answer: (seq<Request>, Request) -> Reply, log: seq<Request>, i: int, ticket: int)
    requires 0 <= i < |log|
  {
    log[i].SetStops? && log[i].position == ticket && answer(log[..i], log[i]).done
  }

  /**
   * From `a` to `r`, the managed tickets stay, each entry changes at most by
   * becoming secured, and an entry becomes secured only through a stop-loss
   * move the venue reported done, sent in between.
   */
  predicate OnlySecuredWhenDone(answer: (seq<Request>, Request) -> Reply, a: Applied, r: Applied) {
    && a.log <= r.log
    && r.pd.Keys == a.pd.Keys
    && forall k | k in a.pd ::
         || r.pd[k] == a.pd[k]
         || (r.pd[k] == a.pd[k].(isSecured := true) && exists i :: |a.log| <= i < |r.log| && SecuredAt(answer, r.log, i, k))
  }

  lemma OnlySecuredWhenDoneTransitive(answer: (seq<Request>, Request) -> Reply, a: Applied, m: Applied, r: Applied)
    requires OnlySecuredWhenDone(answer, a, m) && OnlySecuredWhenDone(answer, m, r)
    ensures OnlySecuredWhenDone(answer, a, r)
  {
    forall k | k in a.pd
      ensures || r.pd[k] == a.pd[k]
              || (r.pd[k] == a.pd[k].(isSecured := true) && exists i :: |a.log| <= i < |r.log| && SecuredAt(answer, r.log, i, k))
    {
      if m.pd[k] != a.pd[k] {
        var i :| |a.log| <= i < |m.log| && SecuredAt(answer, m.log, i, k);
        assert r.log[..i] == m.log[..i] && r.log[i] == m.log[i];
        assert SecuredAt(answer, r.log, i, k);
      }
      if r.pd[k] != m.pd[k] {
        var i :| |m.log| <= i < |r.log| && SecuredAt(answer, r.log, i, k);
      }
    }
  }

  /**
   * `q` is a stop-loss move to the open price of a snapshot position with a
   * handler, for a ticket managed in `a` under the group and not secured.
   */
  ghost predicate StopMoveFor(gid: string, handlers: seq<int>, a: Applied, positions: seq<LinkedPosition>, q: Request) {
    && q.SetStops? && q.position in a.pd && a.pd[q.position].groupId == gid && !a.pd[q.position].isSecured
    && exists i :: 0 <= i < |positions| && positions[i].login in handlers && positions[i].position.ticket == q.position
         && q.sl == positions[i].position.priceOpen && q.tp == positions[i].position.tp
  }

  lemma StopMoveForExtends(gid: string, handlers: seq<int>, a: Applied, init: seq<LinkedPosition>, lp: LinkedPosition, q: Request)
    requires StopMoveFor(gid, handlers, a, init, q)
    ensures StopMoveFor(gid, handlers, a, init + [lp], q)
  {
    var i :| 0 <= i < |init| && init[i].login in handlers && init[i].position.ticket == q.position
           && q.sl == init[i].position.priceOpen && q.tp == init[i].position.tp;
    assert (init + [lp])[i] == init[i];
  }

  /**
   * Securing a group sends only stop-loss moves to the open price of
   * snapshot positions, each for a managed, unsecured member of the group
   * with a handler, and marks an entry secured only when its move was done.
   */
  lemma SecureAllTouchesGroup(gid: string, handlers: seq<int>, answer: (seq<Request>, Request) -> Reply,
                              a: Applied, positions: seq<LinkedPosition>)
    ensures var r := SecureAll(gid, handlers, answer, a, positions);
      && OnlySecuredWhenDone(answer, a, r)
      && r.secured == a.secured && r.crashed == a.crashed
      && forall q | q in r.log[|a.log|..] :: StopMoveFor(gid, handlers, a, positions, q)
  {
    SecureAllSecuresOnlyWhenDone(gid, handlers, answer, a, positions);
    SecureAllSendsStopMoves(gid, handlers, answer, a, positions);
  }

  lemma {:induction false} SecureAllSecuresOnlyWhenDone(gid: string, handlers: seq<int>, answer: (seq<Request>, Request) -> Reply,
                                                        a: Applied, positions: seq<LinkedPosition>)
    ensures var r := SecureAll(gid, handlers, answer, a, positions);
      OnlySecuredWhenDone(answer, a, r) && r.secured == a.secured && r.crashed == a.crashed
  {
    if positions != [] {
      var init, lp := positions[..|positions| - 1], positions[|positions| - 1];
      SecureAllSecuresOnlyWhenDone(gid, handlers, answer, a, init);
      var m := SecureAll(gid, handlers, answer, a, init);
      SecureStepSecuresOnlyWhenDone(gid, handlers, answer, m, lp);
      OnlySecuredWhenDoneTransitive(answer, a, m, SecureStep(gid, handlers, answer, m, lp));
    }
  }

  lemma SecureStepSecuresOnlyWhenDone(gid: string, handlers: seq<int>, answer: (seq<Request>, Request) -> Reply,
                                      m: Applied, lp: LinkedPosition)
    ensures var r := SecureStep(gid, handlers, answer, m, lp);
      OnlySecuredWhenDone(answer, m, r) && r.secured == m.secured && r.crashed == m.crashed
  {
    var r := SecureStep(gid, handlers, answer, m, lp);
    var pos := lp.position;
    if r != m && r.pd != m.pd {
      assert r.log[..|m.log|] == m.log;
      assert SecuredAt(answer, r.log, |m.log|, pos.ticket);
    }
  }

  lemma {:induction false} SecureAllSendsStopMoves(gid: string, handlers: seq<int>, answer: (seq<Request>, Request) -> Reply,
                                                   a: Applied, positions: seq<LinkedPosition>)
    ensures var r := SecureAll(gid, handlers, answer, a, positions);
      a.log <= r.log && forall q | q in r.log[|a.log|..] :: StopMoveFor(gid, handlers, a, positions, q)
  {
    if positions != [] {
      var init, lp := positions[..|positions| - 1], positions[|positions| - 1];
      SecureAllSendsStopMoves(gid, handlers, answer, a, init);
      SecureAllSecuresOnlyWhenDone(gid, handlers, answer, a, init);
      var m := SecureAll(gid, handlers, answer, a, init);
      var r := SecureStep(gid, handlers, answer, m, lp);
      assert positions == init + [lp];
      forall q | q in m.log[|a.log|..] ensures StopMoveFor(gid, handlers, a, positions, q) {
        StopMoveForExtends(gid, handlers, a, init, lp, q);
      }
      if r != m {
        var pos := lp.position;
        var req := SetStops(pos.ticket, pos.priceOpen, pos.tp);
        assert r.log[|a.log|..] == m.log[|a.log|..] + [req];
        assert m.pd[pos.ticket] == a.pd[pos.ticket];
        assert positions[|positions| - 1] == lp;
        assert StopMoveFor(gid, handlers, a, positions, req);
      }
    }
  }

  /** Securing over positions none of which holds `t` keeps the managed tickets and leaves the entry of `t` as it was. */
  lemma {:induction false} SecureAllUntouched(gid: string, handlers: seq<int>, answer: (seq<Request>, Request) -> Reply,
                                              a: Applied, positions: seq<LinkedPosition>, t: int)
    requires forall j | 0 <= j < |positions| :: positions[j].position.ticket != t
    ensures var r := SecureAll(gid, handlers, answer, a, positions);
      r.pd.Keys == a.pd.Keys && (t in a.pd ==> r.pd[t] == a.pd[t])
  {
    if positions != [] {
      var init := positions[..|positions| - 1];
      assert forall j | 0 <= j < |init| :: init[j] == positions[j];
      SecureAllUntouched(gid, handlers, answer, a, init, t);
    }
  }

  /** One securing step only appends to the log, keeps the managed tickets, and never unsecures `t`. */
  lemma SecureStepKeepsSecured(gid: string, handlers: seq<int>, answer: (seq<Request>, Request) -> Reply,
                               m: Applied, lp: LinkedPosition, t: int)
    ensures var r := SecureStep(gid, handlers, answer, m, lp);
      && m.log <= r.log && r.pd.Keys == m.pd.Keys
      && (t in m.pd && m.pd[t].isSecured ==> r.pd[t].isSecured)
  {
  }

  /**
   * Securing a group reaches every member: a snapshot position managed under
   * the group, not secured, with a handler, and the first in the snapshot to
   * hold its ticket, gets its stop-loss moved to the open price; when the
   * venue reports that move done, the entry ends up secured.
   */
  lemma {:induction false} SecureAllComplete(gid: string, handlers: seq<int>, answer: (seq<Request>, Request) -> Reply,
                                             a: Applied, positions: seq<LinkedPosition>, i: nat)
    requires i < |positions|
    requires positions[i].position.ticket in a.pd && a.pd[positions[i].position.ticket].groupId == gid
    requires !a.pd[positions[i].position.ticket].isSecured && positions[i].login in handlers
    requires forall j | 0 <= j < i :: positions[j].position.ticket != positions[i].position.ticket
    ensures var r := SecureAll(gid, handlers, answer, a, positions);
      var pos := positions[i].position;
      && a.log <= r.log
      && exists k :: |a.log| <= k < |r.log| && r.log[k] == SetStops(pos.ticket, pos.priceOpen, pos.tp)
                     && (answer(r.log[..k], r.log[k]).done ==> pos.ticket in r.pd && r.pd[pos.ticket].isSecured)
  {
    var init, lp := positions[..|positions| - 1], positions[|positions| - 1];
    var m := SecureAll(gid, handlers, answer, a, init);
    var r := SecureStep(gid, handlers, answer, m, lp);
    var pos := positions[i].position;
    var req := SetStops(pos.ticket, pos.priceOpen, pos.tp);
    SecureAllSecuresOnlyWhenDone(gid, handlers, answer, a, init);
    SecureStepKeepsSecured(gid, handlers, answer, m, lp, pos.ticket);
    if i < |init| {
      assert init[i] == positions[i];
      assert forall j | 0 <= j < i :: init[j] == positions[j];
      SecureAllComplete(gid, handlers, answer, a, init, i);
      var k :| |a.log| <= k < |m.log| && m.log[k] == req && (answer(m.log[..k], m.log[k]).done ==> m.pd[pos.ticket].isSecured);
      assert r.log[..k] == m.log[..k] && r.log[k] == m.log[k];
    } else {
      assert forall j | 0 <= j < |init| :: init[j] == positions[j];
      SecureAllUntouched(gid, handlers, answer, a, init, pos.ticket);
      assert lp == positions[i];
      assert r.log == m.log + [req];
      assert r.log[..|m.log|] == m.log;
    }
  }

  /** `q` removes a snapshot order with a handler, managed in `a` under the group. */
  ghost predicate RemoveFor(gid: string, handlers: seq<int>, a: Applied, orders: seq<LinkedOrder>, q: Request) {
    && q.Remove? && q.order in a.pd && a.pd[q.order].groupId == gid
    && exists i :: 0 <= i < |orders| && orders[i] == LinkedOrder(q.order, orders[i].login) && orders[i].login in handlers
  }

  /** Cancelling a group's orders removes only snapshot orders managed under the group with a handler, and changes nothing else. */
  lemma {:induction false} CancelAllTouchesGroup(gid: string, handlers: seq<int>, a: Applied, orders: seq<LinkedOrder>)
    ensures var r := CancelAll(gid, handlers, a, orders);
      && r == a.(log := r.log) && a.log <= r.log
      && forall q | q in r.log[|a.log|..] :: RemoveFor(gid, handlers, a, orders, q)
  {
    if orders != [] {
      var init, lo := orders[..|orders| - 1], orders[|orders| - 1];
      CancelAllTouchesGroup(gid, handlers, a, init);
      var m := CancelAll(gid, handlers, a, init);
      assert orders == init + [lo];
      forall q | q in m.log[|a.log|..] ensures RemoveFor(gid, handlers, a, orders, q) {
        var i :| 0 <= i < |init| && init[i] == LinkedOrder(q.order, init[i].login) && init[i].login in handlers;
        assert orders[i] == init[i];
      }
      if CancelStep(gid, handlers, m, lo) != m {
        assert orders[|orders| - 1] == lo;
        assert CancelStep(gid, handlers, m, lo).log[|a.log|..] == m.log[|a.log|..] + [Remove(lo.ticket)];
        assert RemoveFor(gid, handlers, a, orders, Remove(lo.ticket));
      }
    }
  }

  /** Cancelling a group's orders reaches every one: a snapshot order managed under the group with a handler is removed. */
  lemma {:induction false} CancelAllComplete(gid: string, handlers: seq<int>, a: Applied, orders: seq<LinkedOrder>, i: nat)
    requires i < |orders|
    requires orders[i].ticket in a.pd && a.pd[orders[i].ticket].groupId == gid && orders[i].login in handlers
    ensures var r := CancelAll(gid, handlers, a, orders);
      a.log <= r.log && Remove(orders[i].ticket) in r.log[|a.log|..]
  {
    var init, lo := orders[..|orders| - 1], orders[|orders| - 1];
    CancelAllTouchesGroup(gid, handlers, a, init);
    var m := CancelAll(gid, handlers, a, init);
    var r := CancelStep(gid, handlers, m, lo);
    if i < |init| {
      assert init[i] == orders[i];
      CancelAllComplete(gid, handlers, a, init, i);
      assert r.log[|a.log|..] == m.log[|a.log|..] || r.log[|a.log|..] == m.log[|a.log|..] + [Remove(lo.ticket)];
    } else {
      assert lo == orders[i];
      assert r.log[|a.log|..] == m.log[|a.log|..] + [Remove(lo.ticket)];
    }
  }

  /**
   * Applying the planned actions keeps the managed tickets, changes an entry
   * only by marking it secured after a stop-loss move the venue reported
   * done, and a raised pass stays as it was.
   */
  lemma {:induction false} ApplyAllSecuresOnlyWhenDone(positions: seq<LinkedPosition>, orders: seq<LinkedOrder>,
                                                       handlers: seq<int>, market: Market,
                                                       answer: (seq<Request>, Request) -> Reply, a: Applied, actions: seq<Action>)
    ensures var r := ApplyAll(positions, orders, handlers, market, answer, a, actions);
      OnlySecuredWhenDone(answer, a, r) && (a.crashed ==> r == a) && a.secured <= r.secured
  {
    if actions != [] {
      var init := actions[..|actions| - 1];
      ApplyAllSecuresOnlyWhenDone(positions, orders, handlers, market, answer, a, init);
      var m := ApplyAll(positions, orders, handlers, market, answer, a, init);
      var r := ApplyStep(positions, orders, handlers, market, answer, m, actions[|actions| - 1]);
      if !m.crashed && actions[|actions| - 1].SecureGroup? && actions[|actions| - 1].groupId !in m.secured {
        var gid := actions[|actions| - 1].groupId;
        var s := SecureAll(gid, handlers, answer, m, positions);
        SecureAllTouchesGroup(gid, handlers, answer, m, positions);
        CancelAllTouchesGroup(gid, handlers, s, orders);
        var c := CancelAll(gid, handlers, s, orders);
        assert OnlySecuredWhenDone(answer, s, c) by {
          forall k | k in s.pd && c.pd[k] != s.pd[k] ensures false {
          }
        }
        OnlySecuredWhenDoneTransitive(answer, m, s, c);
        assert OnlySecuredWhenDone(answer, m, r);
      } else {
        assert r.pd == m.pd && m.log <= r.log;
      }
      OnlySecuredWhenDoneTransitive(answer, a, m, r);
    }
  }

  /**
   * A group is secured at most once per pass: after its first securing,
   * further actions for it send nothing.
   */
  lemma SecureGroupOnce(positions: seq<LinkedPosition>, orders: seq<LinkedOrder>, handlers: seq<int>, market: Market,
                        answer: (seq<Request>, Request) -> Reply, a: Applied, gid: string)
    ensures var r := ApplyStep(positions, orders, handlers, market, answer, a, SecureGroup(gid));
      !a.crashed ==> gid in r.secured && ApplyStep(positions, orders, handlers, market, answer, r, SecureGroup(gid)) == r
  {
  }

  /* ---------------------------------------------------------------- tick */

  /** What one pass of the loop leaves: the managed map, what it saved (if it saved), and the requests sent. */
  datatype PassResult = PassResult(pd: map<int, ManagedTicket>, saved: Option<map<int, ManagedTicket>>, log: seq<Request>)

  /**
   * One pass of the controller's loop over one snapshot: drain the
   * registrations, close ghost positions, prune inactive tickets, decide,
   * save when anything changed, then apply the actions. A raise in the
   * cleanup or the decision ends the pass before the save; the in-memory map
   * keeps what was done up to the raise.
   */
  function RunPass(pd: map<int, ManagedTicket>, tasks: seq<Registration>, positions: seq<LinkedPosition>,
                orders: seq<LinkedOrder>, handlers: seq<int>, market: Market, tp1Buffer: real,
                answer: (seq<Request>, Request) -> Reply, log: seq<Request>): PassResult {
    var pd1 := Registered(pd, tasks);
    var g := GhostCloses(pd1.Keys, handlers, market, Sends(log, false), positions);
    if g.crashed then PassResult(pd1, None, g.log)
    else
      var pd2 := Pruned(pd1, ActiveTickets(positions, orders));
      var d := Decide(pd2, positions, handlers, market, tp1Buffer);
      if d.crashed then PassResult(d.pd, None, g.log)
      else
        var a := ApplyAll(positions, orders, handlers, market, answer, Applied(d.pd, g.log, {}, false), d.actions);
        PassResult(a.pd, if tasks != [] || pd2 != pd1 || d.changed then Some(d.pd) else None, a.log)
  }

  /**
   * Unless the ghost check raised, a pass leaves exactly the registered
   * tickets that the snapshot shows active.
   */
  lemma PassManagesActive(pd: map<int, ManagedTicket>, tasks: seq<Registration>, positions: seq<LinkedPosition>,
                          orders: seq<LinkedOrder>, handlers: seq<int>, market: Market, tp1Buffer: real,
                          answer: (seq<Request>, Request) -> Reply, log: seq<Request>)
    ensures var pd1 := Registered(pd, tasks);
      var g := GhostCloses(pd1.Keys, handlers, market, Sends(log, false), positions);
      var t := RunPass(pd, tasks, positions, orders, handlers, market, tp1Buffer, answer, log);
      !g.crashed ==> t.pd.Keys == pd1.Keys * ActiveTickets(positions, orders)
  {
    var pd1 := Registered(pd, tasks);
    var active := ActiveTickets(positions, orders);
    var pd2 := Pruned(pd1, active);
    PrunedKeepsActive(pd1, active);
    var d0 := Decision(pd2, [], false, false, SecuredGroups(pd2));
    DecideAllKeepsEntries(handlers, market, tp1Buffer, d0, positions);
    var d := Decide(pd2, positions, handlers, market, tp1Buffer);
    ApplyAllSecuresOnlyWhenDone(positions, orders, handlers, market, answer, Applied(d.pd, log, {}, false), d.actions);
    var g := GhostCloses(pd1.Keys, handlers, market, Sends(log, false), positions);
    ApplyAllSecuresOnlyWhenDone(positions, orders, handlers, market, answer, Applied(d.pd, g.log, {}, false), d.actions);
  }

  /**
   * A pass that does not raise saves exactly when it registered a ticket,
   * dropped an inactive one or planned an action, and what it saves is the
   * map after the decision, holding the active registered tickets. Every
   * close the pass then sends has its target recorded in that saved map
   * first, and every securing follows the close of a first target.
   */
  lemma PassSavesWhenChanged(pd: map<int, ManagedTicket>, tasks: seq<Registration>, positions: seq<LinkedPosition>,
                             orders: seq<LinkedOrder>, handlers: seq<int>, market: Market, tp1Buffer: real,
                             answer: (seq<Request>, Request) -> Reply, log: seq<Request>)
    ensures var pd1 := Registered(pd, tasks);
      var active := ActiveTickets(positions, orders);
      var g := GhostCloses(pd1.Keys, handlers, market, Sends(log, false), positions);
      var d := Decide(Pruned(pd1, active), positions, handlers, market, tp1Buffer);
      var t := RunPass(pd, tasks, positions, orders, handlers, market, tp1Buffer, answer, log);
      !g.crashed && !d.crashed ==>
        && (t.saved.Some? <==> tasks != [] || (exists k :: k in pd1 && k !in active) || d.actions != [])
        && (t.saved.Some? ==> t.saved.value == d.pd && d.pd.Keys == pd1.Keys * active)
    ensures var pd2 := Pruned(Registered(pd, tasks), ActiveTickets(positions, orders));
      var g := GhostCloses(Registered(pd, tasks).Keys, handlers, market, Sends(log, false), positions);
      var d := Decide(pd2, positions, handlers, market, tp1Buffer);
      var t := RunPass(pd, tasks, positions, orders, handlers, market, tp1Buffer, answer, log);
      !g.crashed && !d.crashed ==>
        && (forall a | a in d.actions && a.PartialClose? :: t.saved.Some? && CloseRecorded(a, pd2, t.saved.value, market, tp1Buffer))
        && (forall j | 0 <= j < |d.actions| && d.actions[j].SecureGroup? ::
              0 < j && t.saved.Some? && FirstTargetClose(d.actions[j - 1], d.actions[j].groupId, pd2, t.saved.value, market, tp1Buffer))
  {
    var pd1 := Registered(pd, tasks);
    var active := ActiveTickets(positions, orders);
    var pd2 := Pruned(pd1, active);
    PrunedKeepsActive(pd1, active);
    var d0 := Decision(pd2, [], false, false, SecuredGroups(pd2));
    DecideAllKeepsEntries(handlers, market, tp1Buffer, d0, positions);
    DecideAllChangedIffActions(handlers, market, tp1Buffer, d0, positions);
    DecideAllPlans(handlers, market, tp1Buffer, d0, positions);
    var d := Decide(pd2, positions, handlers, market, tp1Buffer);
    assert d.actions[|d0.actions|..] == d.actions;
  }

  /* ---------------------------------------------------------------- folds */

  /** Registering one more task is one more insertion. */
  lemma RegisteredSnoc(pd: map<int, ManagedTicket>, tasks: seq<Registration>, task: Registration)
    ensures Registered(pd, tasks + [task]) == Registered(pd, tasks)[task.ticket := Fresh(task)]
  {
    assert (tasks + [task])[..|tasks|] == tasks;
  }

  /** Once the ghost check raised, the positions after that are not looked at. */
  lemma {:induction false} GhostClosesRaiseStops(managed: set<int>, handlers: seq<int>, market: Market, s: Sends,
                                                positions: seq<LinkedPosition>, i: nat)
    requires i <= |positions| && GhostCloses(managed, handlers, market, s, positions[..i]).crashed
    ensures GhostCloses(managed, handlers, market, s, positions) == GhostCloses(managed, handlers, market, s, positions[..i])
    decreases |positions|
  {
    if i < |positions| {
      var init := positions[..|positions| - 1];
      assert init[..i] == positions[..i];
      GhostClosesRaiseStops(managed, handlers, market, s, init, i);
    } else {
      assert positions[..i] == positions;
    }
  }

  /** Once the decision raised, the positions after that are not looked at. */
  lemma {:induction false} DecideAllRaiseStops(handlers: seq<int>, market: Market, tp1Buffer: real, d: Decision,
                                              positions: seq<LinkedPosition>, i: nat)
    requires i <= |positions| && DecideAll(handlers, market, tp1Buffer, d, positions[..i]).crashed
    ensures DecideAll(handlers, market, tp1Buffer, d, positions) == DecideAll(handlers, market, tp1Buffer, d, positions[..i])
    decreases |positions|
  {
    if i < |positions| {
      var init := positions[..|positions| - 1];
      assert init[..i] == positions[..i];
      DecideAllRaiseStops(handlers, market, tp1Buffer, d, init, i);
    } else {
      assert positions[..i] == positions;
    }
  }

  /** Once applying raised, the remaining actions are dropped. */
  lemma {:induction false} ApplyAllRaiseStops(positions: seq<LinkedPosition>, orders: seq<LinkedOrder>, handlers: seq<int>,
                                             market: Market, answer: (seq<Request>, Request) -> Reply, a: Applied,
                                             actions: seq<Action>, i: nat)
    requires i <= |actions| && ApplyAll(positions, orders, handlers, market, answer, a, actions[..i]).crashed
    ensures ApplyAll(positions, orders, handlers, market, answer, a, actions) == ApplyAll(positions, orders, handlers, market, answer, a, actions[..i])
    decreases |actions|
  {
    if i < |actions| {
      var init := actions[..|actions| - 1];
      assert init[..i] == actions[..i];
      ApplyAllRaiseStops(positions, orders, handlers, market, answer, a, init, i);
    } else {
      assert actions[..i] == actions;
    }
  }
}

/**
 What the watchdog does at a tick, as a table of ladders: every symptom has its
 rungs, and a tick takes the first one that is not used up, once its pause is
 over. The table is stated on the probe and on the episode so far.
 */
module WatchdogLadder {
  import opened Basics
  import opened Watchdog

  // ----- The table -----

  /** An action, how often an episode may have it and has had it, and the seconds it keeps from the last action. */
  datatype Rung =
    | Radio(effect: Effect, cap: nat, used: nat, pause: nat)
    | Restart(cap: nat, used: nat, pause: nat)
    | PowerCycle(pause: nat)

  function Reregistering(t: Tally): Rung { Radio(Reregister, 1, t.reregisters, 60) }

  function Cycling(t: Tally): Rung { Radio(AirplaneCycle, 2, t.airplaneCycles, 120) }

  function Restarting(t: Tally): Rung { Restart(2, t.dispatched, 120) }

  /** The pause doubles with every power cycle that did not help: 5, 10, 20, and at most 30 minutes. */
  function PowerCycling(attempts: nat): Rung {
    PowerCycle(if attempts == 0 then 300 else if attempts == 1 then 600 else if attempts == 2 then 1200 else 1800)
  }

  predicate Answers(p: Probe) { p.atOk && !(p.reconnecting && p.hasIpv4) }

  /** The rungs for what the probe shows; `failures` counts commands without answer in a row, this one included. */
  function Ladder(cfg: Config, p: Probe, t: Tally, attempts: nat, failures: nat, down: nat, searching: nat): seq<Rung> {
    if !p.atOk then
      if !p.sysfsPresent then []
      else if failures < 3 then [Restarting(t)] else [PowerCycling(attempts)]
    else if p.reconnecting && p.hasIpv4 then []
    else if p.registration in {Some(RegNone), Some(RegDenied)} then
      if down < cfg.notRegisteredGraceSecs then []
      else [Reregistering(t), Cycling(t), PowerCycling(attempts)]
    else if p.registration == Some(RegSearching) then
      if searching < 180 then [] else [Cycling(t), PowerCycling(attempts)]
    else if p.registration in {Some(RegHome), Some(RegRoaming)} then
      if p.hasIpv4 then [] else [Restarting(t), Cycling(t), PowerCycling(attempts)]
    else
      (if cfg.unknownAirplane then [Cycling(t)] else []) + if cfg.unknownEscalate then [PowerCycling(attempts)] else []
  }

  predicate Spent(r: Rung) { !r.PowerCycle? && r.used >= r.cap }

  /** The first rung that is not used up. */
  function Climb(rungs: seq<Rung>): Option<Rung> {
    if rungs == [] then None else if Spent(rungs[0]) then Climb(rungs[1..]) else Some(rungs[0])
  }

  /** The pause is over: an exhausted watchdog keeps a quarter of an hour from anything. */
  predicate Rested(s: State, now: nat, pause: nat) {
    s.lastActionAt.Some? ==>
      var since := if now < s.lastActionAt.value then 0 else now - s.lastActionAt.value;
      since >= (if s.dormant then 900 else pause) * SECOND
  }

  /** What a tick comes to: nothing, an action with its effects, or giving up on actions. */
  datatype Move = Idle | Acts(effects: seq<Effect>, power: bool) | Sleeps

  /** Taking a rung: wait for its pause, and for a power cycle look at the evidence. */
  function Take(cfg: Config, s: State, x: Input, down: nat, rung: Rung): Move {
    if !Rested(s, x.actAt, rung.pause) then Idle
    else match rung
      case Radio(effect, _, _, _) =>
        Acts([effect] + if x.ipv4After then [] else [IfaceRestart(Nudge)], false)
      case Restart(_, _, _) => Acts([IfaceRestart(Dispatched)], false)
      case PowerCycle(_) =>
        if cfg.maxEscalationLevel >= 4 && down >= cfg.minSustainedSecs
           && (cfg.requireSysfsAbsent ==> !x.sysfsAtGate)
        then Acts([UsbCycle(x.actAt, x.loggedAt, down, x.sysfsAtGate)], true)
        else Sleeps
  }

  function SearchingFor(s: State, now: nat): nat {
    if s.searchingSince.None? || now < s.searchingSince.value then 0 else (now - s.searchingSince.value) / SECOND
  }

  function Due(cfg: Config, s: State, t: Tally, x: Input, down: nat): Move {
    if !x.probe.atOk && !x.probe.sysfsPresent then Sleeps
    else
      var rung := Climb(Ladder(cfg, x.probe, t, s.l3Attempts, s.atFailures + 1, down, SearchingFor(s, x.actAt)));
      if rung.None? then Idle else Take(cfg, s, x, down, rung.value)
  }

  // ----- One dispatch -----

  lemma PowerPause(s: State, now: nat)
    ensures CooldownElapsed(s, 3, now) <==> Rested(s, now, PowerCycling(s.l3Attempts).pause)
  {
    assert Pow2(0) == 1 && Pow2(1) == 2 && Pow2(2) == 4 && Pow2(3) == 8;
  }

  lemma OtherPauses(s: State, now: nat)
    ensures CooldownElapsed(s, 0, now) <==> Rested(s, now, 60)
    ensures CooldownElapsed(s, 1, now) <==> Rested(s, now, 120)
    ensures CooldownElapsed(s, 2, now) <==> Rested(s, now, 120)
  {
  }

  /** What the move makes of the state and the effects before it. */
  predicate Follows(m: Move, s: State, unresponsive: bool, x: Input, before: seq<Effect>, o: Outcome) {
    var failures := s.atFailures + if unresponsive then 1 else 0;
    match m
    case Idle => o == Outcome(s.(atFailures := failures), before, NoReset)
    case Sleeps => o == Outcome(s.(atFailures := failures, dormant := true), before, NoReset)
    case Acts(effects, power) =>
      && o.effects == before + effects
      && o.reset == (if x.recovered then Light else NoReset)
      && o.state.lastActionAt == Some(x.loggedAt)
      && o.state.atFailures == (if unresponsive then failures else 0)
      && o.state.reregisters == s.reregisters + (if Reregister in effects then 1 else 0)
      && o.state.airplaneCycles == s.airplaneCycles + (if AirplaneCycle in effects then 1 else 0)
      && o.state.ifaceRestarts == s.ifaceRestarts + (if IfaceRestart(Dispatched) in effects then 1 else 0)
      && o.state.l3Attempts == s.l3Attempts + (if power && !x.recovered then 1 else 0)
      && (o.state.dormant <==> s.dormant || (power && !x.recovered && s.l3Attempts + 1 >= 3))
      && o.state == s.(lastActionAt := o.state.lastActionAt, atFailures := o.state.atFailures,
                       reregisters := o.state.reregisters, airplaneCycles := o.state.airplaneCycles,
                       ifaceRestarts := o.state.ifaceRestarts, l3Attempts := o.state.l3Attempts,
                       dormant := o.state.dormant)
  }

  predicate Tallied(s: State, t: Tally) {
    t.reregisters == s.reregisters && t.airplaneCycles == s.airplaneCycles && t.dispatched == s.ifaceRestarts
  }

  /** A decision as the table words it. */
  function Worded(d: Decision, secs: nat, x: Input): Move {
    match d
    case Wait => Idle
    case GoDormant => Sleeps
    case DoReregister => Acts([Reregister] + if x.ipv4After then [] else [IfaceRestart(Nudge)], false)
    case DoAirplane => Acts([AirplaneCycle] + if x.ipv4After then [] else [IfaceRestart(Nudge)], false)
    case DoRestart => Acts([IfaceRestart(Dispatched)], false)
    case DoUsbCycle => Acts([UsbCycle(x.actAt, x.loggedAt, secs, x.sysfsAtGate)], true)
  }

  lemma ClimbOne(a: Rung)
    ensures Climb([a]) == if Spent(a) then None else Some(a)
  {
    assert [a][1..] == [];
  }

  lemma ClimbOn(a: Rung, rest: seq<Rung>)
    ensures Climb([a] + rest) == if Spent(a) then Climb(rest) else Some(a)
  {
    assert ([a] + rest)[1..] == rest;
  }

  lemma ClimbTwo(a: Rung, b: Rung)
    ensures Climb([a, b]) == if Spent(a) then Climb([b]) else Some(a)
  {
    ClimbOn(a, [b]);
    assert [a, b] == [a] + [b];
  }

  lemma ClimbThree(a: Rung, b: Rung, c: Rung)
    ensures Climb([a, b, c]) == if Spent(a) then Climb([b, c]) else Some(a)
  {
    ClimbOn(a, [b, c]);
    assert [a, b, c] == [a] + [b, c];
  }

  lemma TakenRungs(cfg: Config, s: State, t: Tally, x: Input, down: nat)
    ensures Take(cfg, s, x, down, Reregistering(t))
         == Worded(if CooldownElapsed(s, 0, x.actAt) then DoReregister else Wait, down, x)
    ensures Take(cfg, s, x, down, Cycling(t)) == Worded(TryAirplane(s, x), down, x)
    ensures Take(cfg, s, x, down, Restarting(t)) == Worded(TryRestart(s, x), down, x)
    ensures Take(cfg, s, x, down, PowerCycling(s.l3Attempts)) == Worded(TryUsbCycle(cfg, s, down, x), down, x)
  {
    PowerPause(s, x.actAt);
    OtherPauses(s, x.actAt);
    hide CooldownElapsed, Rested;
  }

  lemma Climbs(t: Tally, attempts: nat)
    ensures var reregister, cycle, restart, power :=
              Reregistering(t), Cycling(t), Restarting(t), PowerCycling(attempts);
            && Climb([reregister, cycle, power])
               == Some(if t.reregisters < 1 then reregister else if t.airplaneCycles < 2 then cycle else power)
            && Climb([restart, cycle, power])
               == Some(if t.dispatched < 2 then restart else if t.airplaneCycles < 2 then cycle else power)
            && Climb([cycle, power]) == Some(if t.airplaneCycles < 2 then cycle else power)
            && Climb([cycle]) == (if t.airplaneCycles < 2 then Some(cycle) else None)
            && Climb([restart]) == (if t.dispatched < 2 then Some(restart) else None)
            && Climb([power]) == Some(power) && Climb([]) == None
            && [cycle] + [power] == [cycle, power] && [cycle] + [] == [cycle] && [] + [power] == [power]
  {
    var reregister, cycle, restart, power :=
      Reregistering(t), Cycling(t), Restarting(t), PowerCycling(attempts);
    ClimbThree(reregister, cycle, power);
    ClimbThree(restart, cycle, power);
    ClimbTwo(cycle, power);
    ClimbOne(cycle);
    ClimbOne(restart);
    ClimbOne(power);
    assert Climb([]) == None;
    hide Climb;
  }

  lemma RestedIgnoresFailures(cfg: Config, s: State, x: Input, down: nat)
    ensures var counted := s.(atFailures := s.atFailures + 1);
            && TryRestart(counted, x) == TryRestart(s, x)
            && TryUsbCycle(cfg, counted, down, x) == TryUsbCycle(cfg, s, down, x)
  {
  }

  /** What the dispatch decides is what the table says is due. */
  predicate DecidesDue(cfg: Config, s: State, t: Tally, x: Input, down: nat) {
    var symptom := Diagnose(s, x.probe, x.actAt);
    var counted := if symptom.Unresponsive? then s.(atFailures := s.atFailures + 1) else s;
    Due(cfg, s, t, x, down) == Worded(Decide(cfg, counted, symptom, down, x), down, x)
  }

  lemma SilentModem(cfg: Config, s: State, t: Tally, x: Input, down: nat)
    requires Tallied(s, t) && !x.probe.atOk
    ensures DecidesDue(cfg, s, t, x, down)
  {
    TakenRungs(cfg, s, t, x, down);
    Climbs(t, s.l3Attempts);
    RestedIgnoresFailures(cfg, s, x, down);
    var none: seq<Rung> := [];
    assert none + none == none;
    hide CooldownElapsed, Rested, Climb, Take, TryUsbCycle, TryAirplane, TryRestart;
    hide Cycling, Restarting, Reregistering, PowerCycling;
  }

  lemma UnregisteredModem(cfg: Config, s: State, t: Tally, x: Input, down: nat)
    requires Tallied(s, t) && x.probe.atOk
    requires x.probe.registration in {Some(RegNone), Some(RegDenied), Some(RegSearching)}
    ensures DecidesDue(cfg, s, t, x, down)
  {
    TakenRungs(cfg, s, t, x, down);
    Climbs(t, s.l3Attempts);
    RestedIgnoresFailures(cfg, s, x, down);
    var none: seq<Rung> := [];
    assert none + none == none;
    hide CooldownElapsed, Rested, Climb, Take, TryUsbCycle, TryAirplane, TryRestart;
    hide Cycling, Restarting, Reregistering, PowerCycling;
  }

  lemma OtherModem(cfg: Config, s: State, t: Tally, x: Input, down: nat)
    requires Tallied(s, t) && x.probe.atOk
    requires x.probe.registration !in {Some(RegNone), Some(RegDenied), Some(RegSearching)}
    ensures DecidesDue(cfg, s, t, x, down)
  {
    TakenRungs(cfg, s, t, x, down);
    Climbs(t, s.l3Attempts);
    RestedIgnoresFailures(cfg, s, x, down);
    var none: seq<Rung> := [];
    assert none + none == none;
    hide CooldownElapsed, Rested, Climb, Take, TryUsbCycle, TryAirplane, TryRestart;
    hide Cycling, Restarting, Reregistering, PowerCycling;
  }

  /** For every symptom, config and history. */
  lemma DecisionIsDue(cfg: Config, s: State, t: Tally, x: Input, down: nat)
    requires Tallied(s, t)
    ensures DecidesDue(cfg, s, t, x, down)
  {
    if !x.probe.atOk {
      SilentModem(cfg, s, t, x, down);
    } else if x.probe.registration in {Some(RegNone), Some(RegDenied), Some(RegSearching)} {
      UnregisteredModem(cfg, s, t, x, down);
    } else {
      OtherModem(cfg, s, t, x, down);
    }
    hide DecidesDue;
  }

  lemma DispatchFollows(cfg: Config, s: State, t: Tally, x: Input, down: nat, before: seq<Effect>)
    requires Tallied(s, t)
    ensures Follows(Due(cfg, s, t, x, down), s, !x.probe.atOk && x.probe.sysfsPresent, x, before,
                    Dispatch(cfg, s, down, x, before))
  {
    DecisionIsDue(cfg, s, t, x, down);
    var symptom := Diagnose(s, x.probe, x.actAt);
    assert symptom.Unresponsive? <==> !x.probe.atOk && x.probe.sysfsPresent;
    var counted := if symptom.Unresponsive? then s.(atFailures := s.atFailures + 1) else s;
    var d := Decide(cfg, counted, symptom, down, x);
    hide Due, Decide, Diagnose;
    WordedFollows(counted, d, !symptom.Unresponsive?, down, x, before);
  }

  lemma WordedFollows(s: State, d: Decision, responsive: bool, down: nat, x: Input, before: seq<Effect>)
    requires !responsive ==> s.atFailures > 0
    ensures var s0 := if responsive then s else s.(atFailures := s.atFailures - 1);
            Follows(Worded(d, down, x), s0, !responsive, x, before, FollowThrough(s, d, responsive, down, x, before))
  {
    if d.DoReregister? || d.DoAirplane? {
      RadioFollows(s, d, responsive, down, x, before);
      hide Follows;
    } else if d.DoRestart? || d.DoUsbCycle? {
      assert before + ActionEffect(d, down, x) + [] == before + ActionEffect(d, down, x);
    }
  }

  lemma RadioFollows(s: State, d: Decision, responsive: bool, down: nat, x: Input, before: seq<Effect>)
    requires (!responsive ==> s.atFailures > 0) && (d.DoReregister? || d.DoAirplane?)
    ensures var s0 := if responsive then s else s.(atFailures := s.atFailures - 1);
            Follows(Worded(d, down, x), s0, !responsive, x, before, FollowThrough(s, d, responsive, down, x, before))
  {
    var nudge: seq<Effect> := if x.ipv4After then [] else [IfaceRestart(Nudge)];
    assert before + ActionEffect(d, down, x) + nudge == before + (ActionEffect(d, down, x) + nudge);
    var effect := if d.DoReregister? then Reregister else AirplaneCycle;
    assert effect in [effect] + nudge;
    assert forall e :: e in [effect] + nudge ==> e == effect || e == IfaceRestart(Nudge);
  }

  // ----- Ticks -----

  /** A scan of at most half an hour, a band action under way, or a user who acted within two minutes. */
  predicate HandsOff(x: Input) {
    || (x.scan.Running? && x.epochSecs <= x.scan.startedAt + 1800)
    || (x.scan.NoScan? && x.bandActionUntil.Some? && x.now < x.bandActionUntil.value)
    || (x.userActionAt.Some? && x.now < x.userActionAt.value + 120 * SECOND)
  }

  /** Hands off means that nothing is done or noted. */
  lemma HandsOffTick(cfg: Config, s: State, x: Input)
    requires HandsOff(x)
    ensures TickOutcome(cfg, s, x) == Outcome(s, [], NoReset)
  {
  }

  /** What is left after a tick that finds the tunnel up since `since`. */
  function Remembered(s: State, x: Input, since: nat): State {
    if s.disconnectSince.None? || x.now < since + 90 * SECOND then s.(connectedSince := Some(since))
    else if x.now < since + 300 * SECOND
    then INITIAL.(connectedSince := Some(since), l3Attempts := s.l3Attempts, dormant := s.dormant)
    else INITIAL.(connectedSince := Some(since))
  }

  /**
   A tick that finds the tunnel up acts on nothing. Up for 90 s since the first such tick, it forgets the episode;
   up for 300 s, it forgets all but when the tunnel came up.
   */
  lemma ConnectedTick(cfg: Config, s: State, x: Input)
    requires !HandsOff(x) && x.connected
    ensures var since := if s.connectedSince.Some? then s.connectedSince.value else x.now;
            var o := TickOutcome(cfg, s, x);
            && o.effects == [] && o.state == s.(connectedSince := Some(since))
            && AfterReset(o) == Remembered(s, x, since)
            && (o.reset != NoReset <==> s.disconnectSince.Some? && x.now >= since + 90 * SECOND)
  {
  }

  /** Whatever a tick that recovered ends with, the next episode starts fresh but for attempts and dormancy. */
  lemma RecoveryForgets(o: Outcome)
    requires o.reset == Light
    ensures AfterReset(o)
         == INITIAL.(connectedSince := o.state.connectedSince,
                     l3Attempts := o.state.l3Attempts, dormant := o.state.dormant)
  {
  }

  predicate Down(x: Input) { !HandsOff(x) && !x.connected }

  /** What a tick notes that finds the tunnel down: the first drop of the episode, and since when the modem searches. */
  function Noted(s: State, x: Input): State {
    s.(connectedSince := None,
       disconnectSince := if s.disconnectSince.Some? then s.disconnectSince else Some(x.now),
       searchingSince := if x.graceProbe != Some(RegSearching) then None
                         else if s.searchingSince.Some? then s.searchingSince else Some(x.now))
  }

  function DownTime(s: State, x: Input): nat {
    if s.disconnectSince.None? || x.now < s.disconnectSince.value then 0 else x.now - s.disconnectSince.value
  }

  /** The grace is over; a searching modem has three minutes more. */
  predicate GraceOver(cfg: Config, s: State, x: Input) {
    DownTime(s, x) >= cfg.grace + if x.graceProbe == Some(RegSearching) then 180 * SECOND else 0
  }

  lemma GraceTick(cfg: Config, s: State, x: Input)
    requires Down(x) && !GraceOver(cfg, s, x)
    ensures TickOutcome(cfg, s, x) == Outcome(Noted(s, x), [], NoReset)
  {
  }

  /** Bands were changed within three minutes and before the tunnel dropped, and this was not tried yet. */
  predicate RevertDue(s: State, x: Input) {
    && !s.triedPrechangeRevert && x.hasPreChangeBands && x.bandChangedAt.Some?
    && x.now < x.bandChangedAt.value + 180 * SECOND
    && x.bandChangedAt.value < (if s.disconnectSince.Some? then s.disconnectSince.value else x.now)
  }

  predicate SafeDue(s: State, x: Input) { !s.triedSafeRevert && x.safeBandsDiffer }

  function RestartOf(a: Apply): seq<Effect> { if a.restarted then [IfaceRestart(BandRevert)] else [] }

  function Logged(s: State, a: Apply): State { if a.ok then s.(lastActionAt := Some(a.loggedAt)) else s }

  /** The rest of a tick, after some effects. */
  function Then(before: seq<Effect>, o: Outcome): Outcome { o.(effects := before + o.effects) }

  lemma DueTick(cfg: Config, s: State, x: Input)
    requires Down(x) && GraceOver(cfg, s, x)
    ensures TickOutcome(cfg, s, x) == AfterPrechange(cfg, Noted(s, x), DownTime(s, x) / SECOND, x)
    ensures PrechangeDue(Noted(s, x), x) <==> RevertDue(s, x)
  {
    hide AfterPrechange;
  }

  /** Having tried a revert changes nothing else about a tick. */
  lemma TriedTick(cfg: Config, s: State, x: Input, tried: State)
    requires tried == s.(triedPrechangeRevert := tried.triedPrechangeRevert, triedSafeRevert := tried.triedSafeRevert,
                         lastActionAt := tried.lastActionAt)
    ensures DownTime(tried, x) == DownTime(s, x) && (GraceOver(cfg, tried, x) <==> GraceOver(cfg, s, x))
    ensures Noted(tried, x)
         == Noted(s, x).(triedPrechangeRevert := tried.triedPrechangeRevert, triedSafeRevert := tried.triedSafeRevert,
                         lastActionAt := tried.lastActionAt)
  {
  }

  /** A due revert is tried once; if it brings the tunnel back that is all, else the tick goes on as without it. */
  lemma RevertTick(cfg: Config, s: State, x: Input)
    requires Down(x) && GraceOver(cfg, s, x) && RevertDue(s, x)
    ensures var tried := Logged(s.(triedPrechangeRevert := true), x.prechange);
            TickOutcome(cfg, s, x)
            == if x.prechange.ok && x.prechange.recovered then Outcome(Noted(tried, x), RestartOf(x.prechange), Light)
               else Then(RestartOf(x.prechange), TickOutcome(cfg, tried, x))
  {
    var tried, secs := Logged(s.(triedPrechangeRevert := true), x.prechange), DownTime(s, x) / SECOND;
    DueTick(cfg, s, x);
    TriedTick(cfg, s, x, tried);
    DueTick(cfg, tried, x);
    AfterSafePrefix(cfg, Noted(tried, x), secs, x, RestartOf(x.prechange));
    assert !RevertDue(tried, x);
    hide AfterSafe, TickOutcome, GraceOver, Down, PrechangeDue, DownTime, RevertDue, Noted;
  }

  /** So with the revert to the safe bands, once no revert to earlier ones is due. */
  lemma SafeTick(cfg: Config, s: State, x: Input)
    requires Down(x) && GraceOver(cfg, s, x) && !RevertDue(s, x) && SafeDue(s, x)
    ensures var tried := Logged(s.(triedSafeRevert := true), x.safe);
            TickOutcome(cfg, s, x)
            == if x.safe.ok && x.safe.recovered then Outcome(Noted(tried, x), RestartOf(x.safe), Light)
               else Then(RestartOf(x.safe), TickOutcome(cfg, tried, x))
  {
    var tried, secs := Logged(s.(triedSafeRevert := true), x.safe), DownTime(s, x) / SECOND;
    DueTick(cfg, s, x);
    TriedTick(cfg, s, x, tried);
    DueTick(cfg, tried, x);
    DispatchPrefix(cfg, Noted(tried, x), secs, x, RestartOf(x.safe));
    assert [] + RestartOf(x.safe) == RestartOf(x.safe);
    assert !RevertDue(tried, x) && Noted(s, x).triedSafeRevert == s.triedSafeRevert;
    hide Dispatch, TickOutcome, GraceOver, Down, PrechangeDue, DownTime, RevertDue, Noted;
  }

  lemma DispatchPrefix(cfg: Config, s: State, secs: nat, x: Input, before: seq<Effect>)
    ensures Dispatch(cfg, s, secs, x, before) == Then(before, Dispatch(cfg, s, secs, x, []))
  {
    hide Decide, Diagnose;
    var symptom := Diagnose(s, x.probe, x.actAt);
    var counted := if symptom.Unresponsive? then s.(atFailures := s.atFailures + 1) else s;
    var d := Decide(cfg, counted, symptom, secs, x);
    var nudge: seq<Effect> := if Level(d) <= 1 && !x.ipv4After then [IfaceRestart(Nudge)] else [];
    assert before + [] == before;
    assert before + ([] + ActionEffect(d, secs, x) + nudge) == before + ActionEffect(d, secs, x) + nudge;
  }

  lemma AfterSafePrefix(cfg: Config, s: State, secs: nat, x: Input, before: seq<Effect>)
    ensures AfterSafe(cfg, s, secs, x, before) == Then(before, AfterSafe(cfg, s, secs, x, []))
  {
    hide Dispatch;
    var tried := s.(triedSafeRevert := true);
    var logged := tried.(lastActionAt := Some(x.safe.loggedAt));
    DispatchPrefix(cfg, s, secs, x, before);
    DispatchPrefix(cfg, tried, secs, x, before + RevertEffects(x.safe));
    DispatchPrefix(cfg, tried, secs, x, [] + RevertEffects(x.safe));
    DispatchPrefix(cfg, logged, secs, x, before + RevertEffects(x.safe));
    DispatchPrefix(cfg, logged, secs, x, [] + RevertEffects(x.safe));
    assert [] + RevertEffects(x.safe) == RevertEffects(x.safe);
    assert forall rest: seq<Effect> ::
        before + RevertEffects(x.safe) + rest == before + (RevertEffects(x.safe) + rest);
  }

  /** With no revert due a tick does what the table says, on the state it notes. */
  lemma LadderTick(cfg: Config, s: State, t: Tally, x: Input)
    requires Tallied(s, t) && Down(x) && GraceOver(cfg, s, x) && !RevertDue(s, x) && !SafeDue(s, x)
    ensures var noted := Noted(s, x);
            Follows(Due(cfg, noted, t, x, DownTime(s, x) / SECOND), noted, !x.probe.atOk && x.probe.sysfsPresent, x, [],
                    TickOutcome(cfg, s, x))
  {
    DueTick(cfg, s, x);
    DispatchFollows(cfg, Noted(s, x), t, x, DownTime(s, x) / SECOND, []);
    assert Noted(s, x).triedSafeRevert == s.triedSafeRevert;
    hide Dispatch, Due, Follows, TickOutcome, GraceOver, Down, PrechangeDue, DownTime, RevertDue, Noted;
  }

  /**
   In every run: a tick past its grace, with no revert due, takes the first rung that the current episode has not
   used up, once the pause since its last action is over.
   */
  lemma LadderIsClimbed(cfg: Config, xs: seq<Input>, x: Input)
    requires var s := After(cfg, xs).state; Down(x) && GraceOver(cfg, s, x) && !RevertDue(s, x) && !SafeDue(s, x)
    ensures var r := After(cfg, xs);
            var t, noted := TallyOf(r.episodes[|r.episodes| - 1]), Noted(r.state, x);
            Follows(Due(cfg, noted, t, x, DownTime(r.state, x) / SECOND), noted,
                    !x.probe.atOk && x.probe.sysfsPresent, x, [], TickOutcome(cfg, r.state, x))
  {
    var r := After(cfg, xs);
    EpisodesKeepCaps(cfg, xs);
    LadderTick(cfg, r.state, TallyOf(r.episodes[|r.episodes| - 1]), x);
    hide Due, Follows, TickOutcome;
  }
}

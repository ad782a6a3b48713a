/**
 The LTE watchdog: one tick of symptom-based recovery, and what a whole outage
 can and cannot bring about.
 */
module Watchdog {
  import opened Basics

  /** Instants and durations are nanoseconds on a monotonic clock. */
  const SECOND: nat := 1_000_000_000

  const PRECHANGE_REVERT_WINDOW: nat := 180 * SECOND
  const SAFE_PROMOTE_THRESHOLD: nat := 300 * SECOND
  const LIGHT_RESET_THRESHOLD: nat := 90 * SECOND
  const MAX_L3_ATTEMPTS := 3
  const MAX_L3_COOLDOWN: nat := 1800 * SECOND
  const DORMANT_TICK_INTERVAL: nat := 900 * SECOND
  const SEARCHING_ACTION_SECS := 180
  const SEARCHING_GRACE_EXTENSION: nat := 180 * SECOND
  const AT_FAILURE_SKIP_THRESHOLD := 3
  const USER_ACTIVITY_SUPPRESSION: nat := 120 * SECOND
  const STUCK_SCAN_SECS := 1800
  const MAX_REREGISTERS := 1
  const MAX_IFACE_RESTARTS := 2
  const MAX_AIRPLANE_CYCLES := 2

  datatype Config = Config(
    grace: nat, maxEscalationLevel: nat, minSustainedSecs: nat, requireSysfsAbsent: bool,
    unknownAirplane: bool, unknownEscalate: bool, notRegisteredGraceSecs: nat)

  datatype Registration = RegNone | RegHome | RegSearching | RegDenied | RegUnknown | RegRoaming

  datatype Symptom =
    | Searching(secs: nat) | RegisteredNoData | NotRegistered | Unresponsive
    | RelayProblem | TunnelReconnecting | InternetUnreachable | ModemGone | Unknown

  datatype State = State(
    disconnectSince: Option<nat>, connectedSince: Option<nat>, lastActionAt: Option<nat>,
    atFailures: nat, reregisters: nat, ifaceRestarts: nat, airplaneCycles: nat,
    l3Attempts: nat, dormant: bool, searchingSince: Option<nat>,
    triedPrechangeRevert: bool, triedSafeRevert: bool)

  const INITIAL := State(None, None, None, 0, 0, 0, 0, 0, false, None, false, false)

  // ----- What a tick sees -----

  datatype Scan = NoScan | Running(startedAt: nat) | Finished

  /** How applying a band config went: whether it succeeded, restarted the interface, and brought the tunnel back. */
  datatype Apply = Apply(ok: bool, restarted: bool, loggedAt: nat, recovered: bool)

  /** The modem as diagnosis finds it. */
  datatype Probe = Probe(
    atOk: bool, sysfsPresent: bool, reconnecting: bool, hasIpv4: bool,
    registration: Option<Registration>, reachable: bool)

  datatype Input = Input(
    now: nat, epochSecs: nat, scan: Scan, bandActionUntil: Option<nat>, userActionAt: Option<nat>,
    connected: bool, graceProbe: Option<Registration>,
    bandChangedAt: Option<nat>, hasPreChangeBands: bool, prechange: Apply,
    safeBandsDiffer: bool, safe: Apply,
    probe: Probe, actAt: nat, sysfsAtGate: bool, loggedAt: nat, ipv4After: bool, recovered: bool)

  /** Time does not run backwards within a tick. */
  predicate Timed(x: Input) {
    x.now <= x.prechange.loggedAt <= x.safe.loggedAt <= x.actAt <= x.loggedAt
  }

  datatype Restarter = Dispatched | Nudge | BandRevert

  /** What a tick does to the modem. A USB cycle carries when it began and was logged, and the evidence at its gate. */
  datatype Effect =
    | Reregister
    | AirplaneCycle
    | IfaceRestart(origin: Restarter)
    | UsbCycle(begunAt: nat, loggedAt: nat, disconnectSecs: nat, sysfsPresent: bool)

  // ----- Resets and cooldowns -----

  function LightReset(s: State): State {
    s.(disconnectSince := None, lastActionAt := None, atFailures := 0, reregisters := 0,
       ifaceRestarts := 0, airplaneCycles := 0, triedPrechangeRevert := false,
       triedSafeRevert := false, searchingSince := None)
  }

  function HeavyReset(s: State): State {
    LightReset(s).(l3Attempts := 0, dormant := false)
  }

  function Elapsed(now: nat, since: nat): nat { if now < since then 0 else now - since }

  /** The pause the next action of a level must keep from the last one. */
  function Cooldown(s: State, level: nat): nat {
    if s.dormant then DORMANT_TICK_INTERVAL
    else if level >= 3 && s.l3Attempts > 0 then
      Min(300 * Pow2(Min(s.l3Attempts, 3)) * SECOND, MAX_L3_COOLDOWN)
    else if level == 0 then 60 * SECOND
    else if level <= 2 then 120 * SECOND
    else 300 * SECOND
  }

  lemma CooldownIsPositive(s: State, level: nat)
    ensures Cooldown(s, level) > 0
  {
    assert forall k: nat :: k <= 3 ==> Pow2(k) >= 1;
  }

  predicate CooldownElapsed(s: State, level: nat, now: nat) {
    s.lastActionAt.Some? ==> Elapsed(now, s.lastActionAt.value) >= Cooldown(s, level)
  }

  // ----- Diagnosis and gate -----

  function Diagnose(s: State, p: Probe, now: nat): Symptom {
    if !p.atOk then (if p.sysfsPresent then Unresponsive else ModemGone)
    else if p.reconnecting && p.hasIpv4 then TunnelReconnecting
    else match p.registration
      case Some(RegSearching) =>
        Searching(if s.searchingSince.Some? then Elapsed(now, s.searchingSince.value) / SECOND else 0)
      case Some(RegNone) => NotRegistered
      case Some(RegDenied) => NotRegistered
      case Some(RegHome) => Registered(p)
      case Some(RegRoaming) => Registered(p)
      case Some(RegUnknown) => Unknown
      case None => Unknown
  }

  function Registered(p: Probe): Symptom {
    if !p.hasIpv4 then RegisteredNoData else if p.reachable then RelayProblem else InternetUnreachable
  }

  /** Whether the watchdog may power-cycle the modem on its own. */
  predicate UsbCycleAllowed(cfg: Config, disconnectSecs: nat, sysfsPresent: bool) {
    if cfg.maxEscalationLevel < 4 then false
    else if disconnectSecs < cfg.minSustainedSecs then false
    else !(cfg.requireSysfsAbsent && sysfsPresent)
  }

  // ----- Dispatch -----

  datatype Decision = Wait | GoDormant | DoReregister | DoAirplane | DoRestart | DoUsbCycle

  function TryUsbCycle(cfg: Config, s: State, secs: nat, x: Input): Decision {
    if !CooldownElapsed(s, 3, x.actAt) then Wait
    else if UsbCycleAllowed(cfg, secs, x.sysfsAtGate) then DoUsbCycle
    else GoDormant
  }

  function TryAirplane(s: State, x: Input): Decision {
    if CooldownElapsed(s, 1, x.actAt) then DoAirplane else Wait
  }

  function TryRestart(s: State, x: Input): Decision {
    if CooldownElapsed(s, 2, x.actAt) then DoRestart else Wait
  }

  function Decide(cfg: Config, s: State, symptom: Symptom, secs: nat, x: Input): Decision {
    match symptom
    case Searching(searching) =>
      if searching < SEARCHING_ACTION_SECS then Wait
      else if s.airplaneCycles >= MAX_AIRPLANE_CYCLES then TryUsbCycle(cfg, s, secs, x)
      else TryAirplane(s, x)
    case RegisteredNoData =>
      if s.ifaceRestarts < MAX_IFACE_RESTARTS then TryRestart(s, x)
      else if s.airplaneCycles >= MAX_AIRPLANE_CYCLES then TryUsbCycle(cfg, s, secs, x)
      else TryAirplane(s, x)
    case NotRegistered =>
      if secs < cfg.notRegisteredGraceSecs then Wait
      else if s.reregisters < MAX_REREGISTERS then
        (if CooldownElapsed(s, 0, x.actAt) then DoReregister else Wait)
      else if s.airplaneCycles < MAX_AIRPLANE_CYCLES then TryAirplane(s, x)
      else TryUsbCycle(cfg, s, secs, x)
    case Unresponsive =>
      if s.atFailures < AT_FAILURE_SKIP_THRESHOLD then
        (if s.ifaceRestarts < MAX_IFACE_RESTARTS then TryRestart(s, x) else Wait)
      else TryUsbCycle(cfg, s, secs, x)
    case ModemGone => GoDormant
    case Unknown =>
      if !cfg.unknownAirplane && !cfg.unknownEscalate then Wait
      else if cfg.unknownAirplane && s.airplaneCycles < MAX_AIRPLANE_CYCLES then TryAirplane(s, x)
      else if cfg.unknownEscalate then TryUsbCycle(cfg, s, secs, x)
      else Wait
    case RelayProblem => Wait
    case TunnelReconnecting => Wait
    case InternetUnreachable => Wait
  }

  function Level(d: Decision): nat {
    match d
    case DoReregister => 0
    case DoAirplane => 1
    case DoRestart => 2
    case _ => 3
  }

  function ActionEffect(d: Decision, secs: nat, x: Input): seq<Effect> {
    match d
    case DoReregister => [Reregister]
    case DoAirplane => [AirplaneCycle]
    case DoRestart => [IfaceRestart(Dispatched)]
    case DoUsbCycle => [UsbCycle(x.actAt, x.loggedAt, secs, x.sysfsAtGate)]
    case _ => []
  }

  datatype Reset = NoReset | Light | Heavy

  /** A tick up to its reset, which is always the last thing it does to the state. */
  datatype Outcome = Outcome(state: State, effects: seq<Effect>, reset: Reset)

  function CountAction(s: State, d: Decision): State {
    match d
    case DoReregister => s.(reregisters := s.reregisters + 1)
    case DoAirplane => s.(airplaneCycles := s.airplaneCycles + 1)
    case DoRestart => s.(ifaceRestarts := s.ifaceRestarts + 1)
    case _ => s
  }

  /** Carry out an action: count it, log it, nudge the interface after a radio action, and check the tunnel. */
  function Act(s: State, d: Decision, responsive: bool, secs: nat, x: Input, before: seq<Effect>): Outcome {
    var logged := CountAction(s, d).(
      lastActionAt := Some(x.loggedAt), atFailures := if responsive then 0 else s.atFailures);
    var nudge := if Level(d) <= 1 && !x.ipv4After then [IfaceRestart(Nudge)] else [];
    var effects := before + ActionEffect(d, secs, x) + nudge;
    if x.recovered then Outcome(logged, effects, Light)
    else if Level(d) >= 3 then
      var attempts := logged.l3Attempts + 1;
      Outcome(logged.(l3Attempts := attempts, dormant := logged.dormant || attempts >= MAX_L3_ATTEMPTS),
              effects, NoReset)
    else Outcome(logged, effects, NoReset)
  }

  function Dispatch(cfg: Config, s0: State, secs: nat, x: Input, before: seq<Effect>): Outcome {
    var symptom := Diagnose(s0, x.probe, x.actAt);
    var s := if symptom.Unresponsive? then s0.(atFailures := s0.atFailures + 1) else s0;
    FollowThrough(s, Decide(cfg, s, symptom, secs, x), !symptom.Unresponsive?, secs, x, before)
  }

  function FollowThrough(s: State, d: Decision, responsive: bool, secs: nat, x: Input, before: seq<Effect>): Outcome {
    if d.Wait? then Outcome(s, before, NoReset)
    else if d.GoDormant? then Outcome(s.(dormant := true), before, NoReset)
    else Act(s, d, responsive, secs, x, before)
  }

  // ----- Reverts, grace, and the whole tick -----

  function RevertEffects(a: Apply): seq<Effect> {
    if a.restarted then [IfaceRestart(BandRevert)] else []
  }

  predicate PrechangeDue(s: State, x: Input) {
    && !s.triedPrechangeRevert
    && x.bandChangedAt.Some? && x.hasPreChangeBands
    && Elapsed(x.now, x.bandChangedAt.value) < PRECHANGE_REVERT_WINDOW
    && s.disconnectSince.Some? && s.disconnectSince.value > x.bandChangedAt.value
  }

  function AfterPrechange(cfg: Config, s0: State, secs: nat, x: Input): Outcome {
    if !PrechangeDue(s0, x) then AfterSafe(cfg, s0, secs, x, [])
    else
      var s := s0.(triedPrechangeRevert := true);
      var effects := RevertEffects(x.prechange);
      if !x.prechange.ok then AfterSafe(cfg, s, secs, x, effects)
      else
        var logged := s.(lastActionAt := Some(x.prechange.loggedAt));
        if x.prechange.recovered then Outcome(logged, effects, Light)
        else AfterSafe(cfg, logged, secs, x, effects)
  }

  function AfterSafe(cfg: Config, s0: State, secs: nat, x: Input, before: seq<Effect>): Outcome {
    if s0.triedSafeRevert || !x.safeBandsDiffer then Dispatch(cfg, s0, secs, x, before)
    else
      var s := s0.(triedSafeRevert := true);
      var effects := before + RevertEffects(x.safe);
      if !x.safe.ok then Dispatch(cfg, s, secs, x, effects)
      else
        var logged := s.(lastActionAt := Some(x.safe.loggedAt));
        if x.safe.recovered then Outcome(logged, effects, Light)
        else Dispatch(cfg, logged, secs, x, effects)
  }

  /** How long the tunnel has been down, counted from the episode's first drop. */
  function DownFor(s: State, x: Input): nat {
    Elapsed(x.now, if s.disconnectSince.Some? then s.disconnectSince.value else x.now)
  }

  /** The bookkeeping of a tick that finds the tunnel down. */
  function Dropped(s: State, x: Input): State {
    s.(connectedSince := None,
       disconnectSince := Some(if s.disconnectSince.Some? then s.disconnectSince.value else x.now),
       searchingSince := if x.graceProbe != Some(RegSearching) then None
                         else if s.searchingSince.None? then Some(x.now) else s.searchingSince)
  }

  function Disconnected(cfg: Config, s: State, x: Input): Outcome {
    var extension := if x.graceProbe == Some(RegSearching) then SEARCHING_GRACE_EXTENSION else 0;
    if DownFor(s, x) < cfg.grace + extension then Outcome(Dropped(s, x), [], NoReset)
    else AfterPrechange(cfg, Dropped(s, x), DownFor(s, x) / SECOND, x)
  }

  function Connected(s0: State, x: Input): Outcome {
    var since := if s0.connectedSince.Some? then s0.connectedSince.value else x.now;
    var s := s0.(connectedSince := Some(since));
    var duration := Elapsed(x.now, since);
    Outcome(s, [],
      if s.disconnectSince.None? then NoReset
      else if duration >= SAFE_PROMOTE_THRESHOLD then Heavy
      else if duration >= LIGHT_RESET_THRESHOLD then Light
      else NoReset)
  }

  /** Ticks are skipped during a scan or band change and shortly after the user acted. */
  predicate Suppressed(x: Input) {
    || (match x.scan
        case Running(startedAt) => Elapsed(x.epochSecs, startedAt) <= STUCK_SCAN_SECS
        case Finished => false
        case NoScan => x.bandActionUntil.Some? && x.now < x.bandActionUntil.value)
    || (x.userActionAt.Some? && Elapsed(x.now, x.userActionAt.value) < USER_ACTIVITY_SUPPRESSION)
  }

  function TickOutcome(cfg: Config, s: State, x: Input): Outcome {
    if Suppressed(x) then Outcome(s, [], NoReset)
    else if x.connected then Connected(s, x)
    else Disconnected(cfg, s, x)
  }

  function AfterReset(o: Outcome): State {
    match o.reset
    case NoReset => o.state
    case Light => LightReset(o.state)
    case Heavy => HeavyReset(o.state)
  }

  // ----- The watchdog task -----

  class Task {
    const cfg: Config
    var s: State

    constructor (cfg: Config)
      ensures s == INITIAL && this.cfg == cfg
    {
      this.cfg := cfg;
      s := INITIAL;
    }

    /** Every cap is whole again and no cooldown holds; what exhaustion has recorded stays. */
    method LightResetNow()
      modifies this
      ensures s == LightReset(old(s))
      ensures Counted(s, ZERO) && s.disconnectSince.None?
      ensures forall level: nat, now: nat :: CooldownElapsed(s, level, now)
      ensures s.l3Attempts == old(s.l3Attempts) && s.dormant == old(s.dormant)
    {
      s := s.(disconnectSince := None, lastActionAt := None, atFailures := 0);
      s := s.(reregisters := 0, ifaceRestarts := 0, airplaneCycles := 0);
      s := s.(triedPrechangeRevert := false, triedSafeRevert := false, searchingSince := None);
    }

    /** From then on an action of a level has to wait exactly that level's cooldown. */
    method RecordAction(at: nat)
      modifies this
      ensures s == old(s).(lastActionAt := Some(at))
      ensures forall level: nat, now: nat :: CooldownElapsed(s, level, now) <==> now >= at + Cooldown(old(s), level)
    {
      forall level: nat ensures Cooldown(s, level) > 0 { CooldownIsPositive(s, level); }
      s := s.(lastActionAt := Some(at));
    }

    /** A tick; `ended` tells that a reset ended the episode. */
    method Tick(x: Input) returns (effects: seq<Effect>, ended: bool)
      modifies this
      ensures var o := TickOutcome(cfg, old(s), x);
              s == AfterReset(o) && effects == o.effects && (ended <==> o.reset != NoReset)
    {
      effects, ended := [], false;
      if Suppressed(x) { return; }
      if x.connected {
        ended := WhileConnected(x);
        return;
      }
      s := s.(connectedSince := None);
      if s.disconnectSince.None? { s := s.(disconnectSince := Some(x.now)); }
      var duration := Elapsed(x.now, s.disconnectSince.value);
      var grace := cfg.grace;
      if x.graceProbe == Some(RegSearching) {
        if s.searchingSince.None? { s := s.(searchingSince := Some(x.now)); }
        grace := grace + SEARCHING_GRACE_EXTENSION;
      } else {
        s := s.(searchingSince := None);
      }
      if duration < grace { return; }
      effects, ended := RevertAndDispatch(duration / SECOND, x);
    }

    method WhileConnected(x: Input) returns (ended: bool)
      modifies this
      ensures var o := Connected(old(s), x); s == AfterReset(o) && (ended <==> o.reset != NoReset)
    {
      ended := false;
      if s.connectedSince.None? { s := s.(connectedSince := Some(x.now)); }
      var duration := Elapsed(x.now, s.connectedSince.value);
      if s.disconnectSince.Some? {
        if duration >= SAFE_PROMOTE_THRESHOLD {
          LightResetNow();
          s := s.(l3Attempts := 0, dormant := false);
          ended := true;
        } else if duration >= LIGHT_RESET_THRESHOLD {
          LightResetNow();
          ended := true;
        }
      }
    }

    method RevertAndDispatch(secs: nat, x: Input) returns (effects: seq<Effect>, ended: bool)
      modifies this
      ensures var o := AfterPrechange(cfg, old(s), secs, x);
              s == AfterReset(o) && effects == o.effects && (ended <==> o.reset != NoReset)
    {
      effects := [];
      if PrechangeDue(s, x) {
        s := s.(triedPrechangeRevert := true);
        effects := RevertEffects(x.prechange);
        if x.prechange.ok {
          RecordAction(x.prechange.loggedAt);
          if x.prechange.recovered {
            LightResetNow();
            ended := true;
            return;
          }
        }
      }
      effects, ended := SafeRevertAndDispatch(secs, x, effects);
    }

    method SafeRevertAndDispatch(secs: nat, x: Input, before: seq<Effect>)
      returns (effects: seq<Effect>, ended: bool)
      modifies this
      ensures var o := AfterSafe(cfg, old(s), secs, x, before);
              s == AfterReset(o) && effects == o.effects && (ended <==> o.reset != NoReset)
    {
      effects := before;
      if !s.triedSafeRevert && x.safeBandsDiffer {
        s := s.(triedSafeRevert := true);
        effects := effects + RevertEffects(x.safe);
        if x.safe.ok {
          RecordAction(x.safe.loggedAt);
          if x.safe.recovered {
            LightResetNow();
            ended := true;
            return;
          }
        }
      }
      effects, ended := DiagnoseAndAct(secs, x, effects);
    }

    method DiagnoseAndAct(secs: nat, x: Input, before: seq<Effect>) returns (effects: seq<Effect>, ended: bool)
      modifies this
      ensures var o := Dispatch(cfg, old(s), secs, x, before);
              s == AfterReset(o) && effects == o.effects && (ended <==> o.reset != NoReset)
    {
      effects, ended := before, false;
      var symptom := Diagnose(s, x.probe, x.actAt);
      if symptom == Unresponsive { s := s.(atFailures := s.atFailures + 1); }
      var d := Decide(cfg, s, symptom, secs, x);
      if d == Wait { return; }
      if d == GoDormant {
        s := s.(dormant := true);
        return;
      }
      effects, ended := Carry(d, symptom != Unresponsive, secs, x, before);
    }

    method Carry(d: Decision, responsive: bool, secs: nat, x: Input, before: seq<Effect>)
      returns (effects: seq<Effect>, ended: bool)
      modifies this
      ensures var o := Act(old(s), d, responsive, secs, x, before);
              s == AfterReset(o) && effects == o.effects && (ended <==> o.reset != NoReset)
    {
      ended := false;
      s := CountAction(s, d);
      effects := before + ActionEffect(d, secs, x);
      if responsive { s := s.(atFailures := 0); }
      RecordAction(x.loggedAt);
      if Level(d) <= 1 && !x.ipv4After { effects := effects + [IfaceRestart(Nudge)]; }
      if x.recovered {
        LightResetNow();
        ended := true;
        return;
      }
      if Level(d) >= 3 {
        s := s.(l3Attempts := s.l3Attempts + 1);
        if s.l3Attempts >= MAX_L3_ATTEMPTS { s := s.(dormant := true); }
      }
    }
  }

  // ----- Runs and episodes -----

  /** The watchdog after some ticks, with the effects of each episode: a reset starts the next one. */
  datatype Run = Run(state: State, episodes: seq<seq<Effect>>)

  function Begin(): Run { Run(INITIAL, [[]]) }

  function Extend(r: Run, o: Outcome): Run
    requires r.episodes != []
  {
    var last := |r.episodes| - 1;
    var grown := r.episodes[last := r.episodes[last] + o.effects];
    Run(AfterReset(o), if o.reset == NoReset then grown else grown + [[]])
  }

  function After(cfg: Config, xs: seq<Input>): (r: Run)
    ensures r.episodes != []
  {
    if xs == [] then Begin() else
      var r := After(cfg, xs[..|xs| - 1]);
      Extend(r, TickOutcome(cfg, r.state, xs[|xs| - 1]))
  }

  /** Time does not run backwards over a run. */
  predicate AllTimed(xs: seq<Input>) {
    xs != [] ==>
      && Timed(xs[|xs| - 1])
      && AllTimed(xs[..|xs| - 1])
      && (|xs| >= 2 ==> xs[|xs| - 2].loggedAt <= xs[|xs| - 1].now)
  }

  // ----- How often -----

  datatype Tally = Tally(reregisters: nat, airplaneCycles: nat, dispatched: nat, nudges: nat, reverts: nat)

  function Plus(a: Tally, b: Tally): Tally {
    Tally(a.reregisters + b.reregisters, a.airplaneCycles + b.airplaneCycles,
          a.dispatched + b.dispatched, a.nudges + b.nudges, a.reverts + b.reverts)
  }

  const ZERO := Tally(0, 0, 0, 0, 0)

  function One(e: Effect): Tally {
    match e
    case Reregister => ZERO.(reregisters := 1)
    case AirplaneCycle => ZERO.(airplaneCycles := 1)
    case IfaceRestart(Dispatched) => ZERO.(dispatched := 1)
    case IfaceRestart(Nudge) => ZERO.(nudges := 1)
    case IfaceRestart(BandRevert) => ZERO.(reverts := 1)
    case UsbCycle(_, _, _, _) => ZERO
  }

  function TallyOf(es: seq<Effect>): Tally {
    if es == [] then ZERO else Plus(One(es[0]), TallyOf(es[1..]))
  }

  predicate WithinCaps(t: Tally) {
    && t.reregisters <= 1 && t.airplaneCycles <= 2 && t.dispatched <= 2
    && t.nudges <= 3 && t.reverts <= 2
    && t.dispatched + t.nudges + t.reverts <= 7
  }

  /** The counters in the state are the tally of the current episode. */
  predicate Counted(s: State, t: Tally) {
    && t.reregisters == s.reregisters <= MAX_REREGISTERS
    && t.airplaneCycles == s.airplaneCycles <= MAX_AIRPLANE_CYCLES
    && t.dispatched == s.ifaceRestarts <= MAX_IFACE_RESTARTS
    && t.nudges <= t.reregisters + t.airplaneCycles
    && t.reverts <= (if s.triedPrechangeRevert then 1 else 0) + (if s.triedSafeRevert then 1 else 0)
  }

  lemma {:induction false} TallyConcat(a: seq<Effect>, b: seq<Effect>)
    ensures TallyOf(a + b) == Plus(TallyOf(a), TallyOf(b))
  {
    hide One;
    if a == [] {
      assert a + b == b;
    } else {
      assert (a + b)[0] == a[0] && (a + b)[1..] == a[1..] + b;
      TallyConcat(a[1..], b);
    }
  }

  lemma TallyOfOne(e: Effect)
    ensures TallyOf([e]) == One(e) && TallyOf([]) == ZERO
  {
    hide One;
    assert [e][1..] == [];
  }

  /** The counter of an action is below its cap. */
  predicate BelowCap(s: State, d: Decision) {
    && (d.DoReregister? ==> s.reregisters < MAX_REREGISTERS)
    && (d.DoAirplane? ==> s.airplaneCycles < MAX_AIRPLANE_CYCLES)
    && (d.DoRestart? ==> s.ifaceRestarts < MAX_IFACE_RESTARTS)
  }

  /** No decision goes over a cap, whatever is diagnosed. */
  lemma DecisionsKeepCaps(cfg: Config, s: State, symptom: Symptom, secs: nat, x: Input)
    ensures BelowCap(s, Decide(cfg, s, symptom, secs, x))
  {
  }

  lemma ActTally(s: State, d: Decision, responsive: bool, secs: nat, x: Input, before: seq<Effect>)
    requires !d.Wait? && !d.GoDormant?
    ensures TallyOf(Act(s, d, responsive, secs, x, before).effects)
         == Plus(Plus(TallyOf(before), One(ActionEffect(d, secs, x)[0])),
                 if Level(d) <= 1 && !x.ipv4After then One(IfaceRestart(Nudge)) else ZERO)
  {
    hide TallyOf;
    hide One;
    var e := ActionEffect(d, secs, x);
    var nudge := if Level(d) <= 1 && !x.ipv4After then [IfaceRestart(Nudge)] else [];
    TallyConcat(before, e);
    TallyConcat(before + e, nudge);
    TallyOfOne(e[0]);
    TallyOfOne(IfaceRestart(Nudge));
    assert e == [e[0]];
  }

  lemma FollowThroughCounts(s: State, d: Decision, responsive: bool, secs: nat, x: Input, before: seq<Effect>, t: Tally)
    requires Counted(s, Plus(t, TallyOf(before))) && BelowCap(s, d)
    ensures var o := FollowThrough(s, d, responsive, secs, x, before);
            Counted(o.state, Plus(t, TallyOf(o.effects)))
  {
    hide TallyOf;
    if !d.Wait? && !d.GoDormant? { ActTally(s, d, responsive, secs, x, before); }
  }

  lemma DispatchCounts(cfg: Config, s0: State, secs: nat, x: Input, before: seq<Effect>, t: Tally)
    requires Counted(s0, Plus(t, TallyOf(before)))
    ensures var o := Dispatch(cfg, s0, secs, x, before);
            Counted(o.state, Plus(t, TallyOf(o.effects)))
  {
    hide TallyOf;
    hide FollowThrough;
    hide Decide;
    hide Diagnose;
    hide BelowCap;
    var symptom := Diagnose(s0, x.probe, x.actAt);
    var s := if symptom.Unresponsive? then s0.(atFailures := s0.atFailures + 1) else s0;
    DecisionsKeepCaps(cfg, s, symptom, secs, x);
    FollowThroughCounts(s, Decide(cfg, s, symptom, secs, x), !symptom.Unresponsive?, secs, x, before, t);
  }

  lemma RevertTally(a: Apply)
    ensures TallyOf(RevertEffects(a)) == if a.restarted then One(IfaceRestart(BandRevert)) else ZERO
  {
    TallyOfOne(IfaceRestart(BandRevert));
  }

  lemma SafeCounts(cfg: Config, s: State, secs: nat, x: Input, before: seq<Effect>, t: Tally)
    requires Counted(s, Plus(t, TallyOf(before)))
    ensures var o := AfterSafe(cfg, s, secs, x, before);
            Counted(o.state, Plus(t, TallyOf(o.effects)))
  {
    hide TallyOf;
    hide Dispatch;
    if s.triedSafeRevert || !x.safeBandsDiffer {
      DispatchCounts(cfg, s, secs, x, before, t);
    } else {
      var tried := s.(triedSafeRevert := true);
      var effects := before + RevertEffects(x.safe);
      RevertTally(x.safe);
      TallyConcat(before, RevertEffects(x.safe));
      if !x.safe.ok {
        DispatchCounts(cfg, tried, secs, x, effects, t);
      } else if !x.safe.recovered {
        DispatchCounts(cfg, tried.(lastActionAt := Some(x.safe.loggedAt)), secs, x, effects, t);
      }
    }
  }

  lemma RevertCounts(s: State, a: Apply, t: Tally)
    requires Counted(s, t) && !s.triedPrechangeRevert
    ensures Counted(s.(triedPrechangeRevert := true), Plus(t, TallyOf(RevertEffects(a))))
  {
    RevertTally(a);
    hide TallyOf;
  }

  lemma PrechangeCounts(cfg: Config, s: State, secs: nat, x: Input, t: Tally)
    requires Counted(s, t)
    ensures var o := AfterPrechange(cfg, s, secs, x);
            Counted(o.state, Plus(t, TallyOf(o.effects)))
  {
    hide AfterSafe;
    hide RevertEffects;
    if !PrechangeDue(s, x) {
      TallyOfOne(Reregister);
      SafeCounts(cfg, s, secs, x, [], t);
    } else {
      hide TallyOf;
      var tried := s.(triedPrechangeRevert := true);
      var effects := RevertEffects(x.prechange);
      RevertCounts(s, x.prechange, t);
      if !x.prechange.ok {
        SafeCounts(cfg, tried, secs, x, effects, t);
      } else if !x.prechange.recovered {
        SafeCounts(cfg, tried.(lastActionAt := Some(x.prechange.loggedAt)), secs, x, effects, t);
      }
    }
  }

  lemma TickCounts(cfg: Config, s: State, x: Input, t: Tally)
    requires Counted(s, t)
    ensures var o := TickOutcome(cfg, s, x);
            Counted(o.state, Plus(t, TallyOf(o.effects)))
  {
    TallyOfOne(Reregister);
    hide TallyOf;
    hide AfterPrechange;
    if !Suppressed(x) && !x.connected {
      PrechangeCounts(cfg, Dropped(s, x), DownFor(s, x) / SECOND, x, t);
    }
  }

  ghost predicate CapsKept(r: Run)
    requires r.episodes != []
  {
    && Counted(r.state, TallyOf(r.episodes[|r.episodes| - 1]))
    && forall i :: 0 <= i < |r.episodes| ==> WithinCaps(TallyOf(r.episodes[i]))
  }

  lemma ExtendKeepsCaps(r: Run, o: Outcome)
    requires r.episodes != [] && CapsKept(r)
    requires Counted(o.state, Plus(TallyOf(r.episodes[|r.episodes| - 1]), TallyOf(o.effects)))
    ensures CapsKept(Extend(r, o))
  {
    TallyOfOne(Reregister);
    hide TallyOf;
    TallyConcat(r.episodes[|r.episodes| - 1], o.effects);
  }

  /** In every episode of every run each kind of action keeps to its cap, all interface restarts to seven. */
  lemma {:induction false} EpisodesKeepCaps(cfg: Config, xs: seq<Input>)
    ensures CapsKept(After(cfg, xs))
  {
    hide TickOutcome;
    if xs != [] {
      var r, x := After(cfg, xs[..|xs| - 1]), xs[|xs| - 1];
      EpisodesKeepCaps(cfg, xs[..|xs| - 1]);
      TickCounts(cfg, r.state, x, TallyOf(r.episodes[|r.episodes| - 1]));
      ExtendKeepsCaps(r, TickOutcome(cfg, r.state, x));
    } else {
      TallyOfOne(Reregister);
    }
  }

  // ----- USB cycles: evidence, dormancy, backoff and spacing -----

  predicate NoCycles(es: seq<Effect>) {
    forall i :: 0 <= i < |es| ==> !es[i].UsbCycle?
  }

  predicate ExhaustedIsDormant(s: State) {
    s.l3Attempts >= MAX_L3_ATTEMPTS ==> s.dormant
  }

  predicate LoggedBy(s: State, t: nat) {
    s.lastActionAt.Some? ==> s.lastActionAt.value <= t
  }

  /** `later` comes after `s` in the same episode: attempts and the last action only move on. */
  predicate Progress(s: State, later: State) {
    && later.l3Attempts >= s.l3Attempts
    && (s.lastActionAt.Some? ==> later.lastActionAt.Some? && LoggedBy(s, later.lastActionAt.value))
    && (ExhaustedIsDormant(s) ==> ExhaustedIsDormant(later))
  }

  /** The effects end in a USB cycle that passed the gate, and that an earlier attempt holds 600 s away. */
  predicate EndsInCycle(cfg: Config, s: State, o: Outcome, x: Input) {
    o.effects != [] &&
    var n := |o.effects| - 1;
    var e := o.effects[n];
    && NoCycles(o.effects[..n])
    && e.UsbCycle? && e.begunAt == x.actAt && e.loggedAt == x.loggedAt
    && UsbCycleAllowed(cfg, e.disconnectSecs, e.sysfsPresent)
    && (ExhaustedIsDormant(s) && s.l3Attempts >= 1 && s.lastActionAt.Some? ==>
          e.begunAt >= s.lastActionAt.value + 600 * SECOND)
    && (o.reset == NoReset ==> o.state.l3Attempts >= 1 && o.state.lastActionAt == Some(x.loggedAt))
  }

  predicate Sound(cfg: Config, s: State, o: Outcome, x: Input) {
    && Progress(s, o.state)
    && LoggedBy(o.state, x.loggedAt)
    && (NoCycles(o.effects) || EndsInCycle(cfg, s, o, x))
  }

  lemma SoundFromEarlier(cfg: Config, s0: State, s: State, o: Outcome, x: Input)
    requires Progress(s0, s) && Sound(cfg, s, o, x)
    ensures Sound(cfg, s0, o, x)
  {
  }

  /** Once exhausted the state is dormant, so the backoff cap is never the pause that applies. */
  lemma BackoffNeverCapped(s: State)
    requires s.l3Attempts >= 1 && ExhaustedIsDormant(s)
    ensures Cooldown(s, 3) >= 600 * SECOND
    ensures !s.dormant ==> Cooldown(s, 3) == 300 * Pow2(s.l3Attempts) * SECOND < MAX_L3_COOLDOWN
  {
    assert Pow2(1) == 2 && Pow2(2) == 4;
  }

  lemma CyclesPassGate(cfg: Config, s: State, symptom: Symptom, secs: nat, x: Input)
    ensures Decide(cfg, s, symptom, secs, x).DoUsbCycle? ==>
              CooldownElapsed(s, 3, x.actAt) && UsbCycleAllowed(cfg, secs, x.sysfsAtGate)
  {
    hide CooldownElapsed;
    hide UsbCycleAllowed;
  }

  lemma CycleSound(cfg: Config, s: State, responsive: bool, secs: nat, x: Input, before: seq<Effect>)
    requires LoggedBy(s, x.actAt) && x.actAt <= x.loggedAt && NoCycles(before)
    requires CooldownElapsed(s, 3, x.actAt) && UsbCycleAllowed(cfg, secs, x.sysfsAtGate)
    ensures Sound(cfg, s, Act(s, DoUsbCycle, responsive, secs, x, before), x)
  {
    hide Cooldown, CooldownElapsed, UsbCycleAllowed;
    var o := Act(s, DoUsbCycle, responsive, secs, x, before);
    var cycle := UsbCycle(x.actAt, x.loggedAt, secs, x.sysfsAtGate);
    assert o.effects == before + [cycle];
    assert o.effects[..|o.effects| - 1] == before && o.effects[|before|] == cycle;
    CycleWaits(s, x.actAt);
  }

  lemma CycleWaits(s: State, now: nat)
    requires CooldownElapsed(s, 3, now)
    ensures ExhaustedIsDormant(s) && s.l3Attempts >= 1 && s.lastActionAt.Some? ==>
              now >= s.lastActionAt.value + 600 * SECOND
  {
    if s.l3Attempts >= 1 && ExhaustedIsDormant(s) { BackoffNeverCapped(s); }
    hide Cooldown;
  }

  lemma FollowThroughSound(
      cfg: Config, s: State, d: Decision, responsive: bool, secs: nat, x: Input, before: seq<Effect>)
    requires LoggedBy(s, x.actAt) && x.actAt <= x.loggedAt && NoCycles(before)
    requires d.DoUsbCycle? ==> CooldownElapsed(s, 3, x.actAt) && UsbCycleAllowed(cfg, secs, x.sysfsAtGate)
    ensures Sound(cfg, s, FollowThrough(s, d, responsive, secs, x, before), x)
  {
    var o := FollowThrough(s, d, responsive, secs, x, before);
    if d.DoUsbCycle? {
      CycleSound(cfg, s, responsive, secs, x, before);
      hide Act, Sound, CooldownElapsed, UsbCycleAllowed;
    } else if !d.Wait? && !d.GoDormant? {
      hide CooldownElapsed, UsbCycleAllowed;
      assert forall i :: |before| <= i < |o.effects| ==> !o.effects[i].UsbCycle?;
    }
  }

  lemma DispatchSound(cfg: Config, s0: State, secs: nat, x: Input, before: seq<Effect>)
    requires LoggedBy(s0, x.actAt) && x.actAt <= x.loggedAt && NoCycles(before)
    ensures Sound(cfg, s0, Dispatch(cfg, s0, secs, x, before), x)
  {
    hide FollowThrough;
    hide Decide;
    hide Diagnose;
    hide CooldownElapsed;
    hide UsbCycleAllowed;
    var symptom := Diagnose(s0, x.probe, x.actAt);
    var s := if symptom.Unresponsive? then s0.(atFailures := s0.atFailures + 1) else s0;
    CyclesPassGate(cfg, s, symptom, secs, x);
    FollowThroughSound(cfg, s, Decide(cfg, s, symptom, secs, x), !symptom.Unresponsive?, secs, x, before);
    SoundFromEarlier(cfg, s0, s, Dispatch(cfg, s0, secs, x, before), x);
  }

  lemma SafeSound(cfg: Config, s0: State, secs: nat, x: Input, before: seq<Effect>)
    requires LoggedBy(s0, x.safe.loggedAt) && x.safe.loggedAt <= x.actAt <= x.loggedAt && NoCycles(before)
    ensures Sound(cfg, s0, AfterSafe(cfg, s0, secs, x, before), x)
  {
    hide Dispatch;
    if s0.triedSafeRevert || !x.safeBandsDiffer {
      DispatchSound(cfg, s0, secs, x, before);
    } else {
      var effects := before + RevertEffects(x.safe);
      var s := s0.(triedSafeRevert := true);
      if x.safe.ok { s := s.(lastActionAt := Some(x.safe.loggedAt)); }
      if !x.safe.ok || !x.safe.recovered {
        DispatchSound(cfg, s, secs, x, effects);
        SoundFromEarlier(cfg, s0, s, Dispatch(cfg, s, secs, x, effects), x);
      }
    }
  }

  lemma PrechangeSound(cfg: Config, s0: State, secs: nat, x: Input)
    requires LoggedBy(s0, x.prechange.loggedAt) && Timed(x)
    ensures Sound(cfg, s0, AfterPrechange(cfg, s0, secs, x), x)
  {
    hide AfterSafe;
    if !PrechangeDue(s0, x) {
      SafeSound(cfg, s0, secs, x, []);
    } else {
      var effects := RevertEffects(x.prechange);
      var s := s0.(triedPrechangeRevert := true);
      if x.prechange.ok { s := s.(lastActionAt := Some(x.prechange.loggedAt)); }
      if !x.prechange.ok || !x.prechange.recovered {
        SafeSound(cfg, s, secs, x, effects);
        SoundFromEarlier(cfg, s0, s, AfterSafe(cfg, s, secs, x, effects), x);
      }
    }
  }

  lemma TickSound(cfg: Config, s: State, x: Input)
    requires LoggedBy(s, x.now) && Timed(x)
    ensures Sound(cfg, s, TickOutcome(cfg, s, x), x)
  {
    hide AfterPrechange;
    if !Suppressed(x) && !x.connected {
      var dropped := Dropped(s, x);
      PrechangeSound(cfg, dropped, DownFor(s, x) / SECOND, x);
      SoundFromEarlier(cfg, s, dropped, AfterPrechange(cfg, dropped, DownFor(s, x) / SECOND, x), x);
    }
  }

  /** Each USB cycle of the current episode was logged no later than the last action, and left an attempt counted. */
  predicate CyclesLogged(s: State, episode: seq<Effect>) {
    forall i :: 0 <= i < |episode| && episode[i].UsbCycle? ==>
      s.l3Attempts >= 1 && s.lastActionAt.Some? && episode[i].loggedAt <= s.lastActionAt.value
  }

  /** A later USB cycle of an episode begins at least 600 s after an earlier one was logged. */
  predicate CyclesSpaced(episode: seq<Effect>) {
    forall i, j :: 0 <= i < j < |episode| && episode[i].UsbCycle? && episode[j].UsbCycle? ==>
      episode[j].begunAt >= episode[i].loggedAt + 600 * SECOND
  }

  predicate CyclesAllowed(cfg: Config, episode: seq<Effect>) {
    forall i :: 0 <= i < |episode| && episode[i].UsbCycle? ==>
      UsbCycleAllowed(cfg, episode[i].disconnectSecs, episode[i].sysfsPresent)
  }

  ghost predicate Paced(cfg: Config, r: Run)
    requires r.episodes != []
  {
    && ExhaustedIsDormant(r.state)
    && CyclesLogged(r.state, r.episodes[|r.episodes| - 1])
    && forall i :: 0 <= i < |r.episodes| ==> CyclesSpaced(r.episodes[i]) && CyclesAllowed(cfg, r.episodes[i])
  }

  /** One tick's effects on an episode. */
  lemma EpisodeGrows(cfg: Config, s: State, episode: seq<Effect>, o: Outcome, x: Input)
    requires ExhaustedIsDormant(s) && CyclesLogged(s, episode) && CyclesSpaced(episode) && CyclesAllowed(cfg, episode)
    requires Sound(cfg, s, o, x)
    ensures CyclesSpaced(episode + o.effects) && CyclesAllowed(cfg, episode + o.effects)
    ensures o.reset == NoReset ==> CyclesLogged(o.state, episode + o.effects)
  {
    hide UsbCycleAllowed;
    var all := episode + o.effects;
    assert forall i :: 0 <= i < |episode| ==> all[i] == episode[i];
    if NoCycles(o.effects) {
      assert forall i :: |episode| <= i < |all| ==> !all[i].UsbCycle?;
    } else {
      var n := |o.effects| - 1;
      assert forall i :: |episode| <= i < |all| - 1 ==> all[i] == o.effects[..n][i - |episode|];
      assert all[|all| - 1] == o.effects[n];
    }
  }

  lemma ExtendKeepsPace(cfg: Config, r: Run, o: Outcome, x: Input)
    requires r.episodes != [] && Paced(cfg, r) && Sound(cfg, r.state, o, x)
    ensures Paced(cfg, Extend(r, o))
  {
    EpisodeGrows(cfg, r.state, r.episodes[|r.episodes| - 1], o, x);
  }

  /**
   On every run: three failed USB cycles mean dormancy; in every episode USB
   cycles keep 600 s apart; and each of them, whatever led to it, had its
   evidence.
   */
  lemma {:induction false} RunsArePaced(cfg: Config, xs: seq<Input>)
    requires AllTimed(xs)
    ensures Paced(cfg, After(cfg, xs))
    ensures LoggedBy(After(cfg, xs).state, if xs == [] then 0 else xs[|xs| - 1].loggedAt)
  {
    hide TickOutcome;
    if xs != [] {
      var before, x := xs[..|xs| - 1], xs[|xs| - 1];
      var r := After(cfg, before);
      RunsArePaced(cfg, before);
      TickSound(cfg, r.state, x);
      ExtendKeepsPace(cfg, r, TickOutcome(cfg, r.state, x), x);
    }
  }

  // ----- The gate, whatever the clock does -----

  /** Each USB cycle had its evidence, and the time down it was judged by. */
  predicate CyclesFrom(cfg: Config, secs: nat, es: seq<Effect>) {
    forall i :: 0 <= i < |es| && es[i].UsbCycle? ==>
      UsbCycleAllowed(cfg, es[i].disconnectSecs, es[i].sysfsPresent) && es[i].disconnectSecs == secs
  }

  lemma DispatchGated(cfg: Config, s0: State, secs: nat, x: Input, before: seq<Effect>)
    requires CyclesFrom(cfg, secs, before)
    ensures CyclesFrom(cfg, secs, Dispatch(cfg, s0, secs, x, before).effects)
  {
    var symptom := Diagnose(s0, x.probe, x.actAt);
    var s := if symptom.Unresponsive? then s0.(atFailures := s0.atFailures + 1) else s0;
    CyclesPassGate(cfg, s, symptom, secs, x);
    hide Decide, Diagnose, UsbCycleAllowed, CooldownElapsed;
  }

  lemma SafeGated(cfg: Config, s: State, secs: nat, x: Input, before: seq<Effect>)
    requires CyclesFrom(cfg, secs, before)
    ensures CyclesFrom(cfg, secs, AfterSafe(cfg, s, secs, x, before).effects)
  {
    hide Dispatch, UsbCycleAllowed;
    var effects := before + RevertEffects(x.safe);
    var tried := s.(triedSafeRevert := true);
    DispatchGated(cfg, s, secs, x, before);
    DispatchGated(cfg, tried, secs, x, effects);
    DispatchGated(cfg, tried.(lastActionAt := Some(x.safe.loggedAt)), secs, x, effects);
  }

  lemma TickGated(cfg: Config, s: State, x: Input)
    ensures CyclesFrom(cfg, DownFor(s, x) / SECOND, TickOutcome(cfg, s, x).effects)
  {
    hide AfterSafe, UsbCycleAllowed;
    if !Suppressed(x) && !x.connected {
      var dropped, secs := Dropped(s, x), DownFor(s, x) / SECOND;
      var effects := RevertEffects(x.prechange);
      var tried := dropped.(triedPrechangeRevert := true);
      SafeGated(cfg, dropped, secs, x, []);
      SafeGated(cfg, tried, secs, x, effects);
      SafeGated(cfg, tried.(lastActionAt := Some(x.prechange.loggedAt)), secs, x, effects);
    }
  }

  /** In every run, whatever the clock does, each USB cycle had its evidence at the gate. */
  lemma {:induction false} CyclesAreGated(cfg: Config, xs: seq<Input>, i: nat)
    requires i < |After(cfg, xs).episodes|
    ensures CyclesAllowed(cfg, After(cfg, xs).episodes[i])
  {
    hide TickOutcome, UsbCycleAllowed;
    if xs != [] {
      var before, x := xs[..|xs| - 1], xs[|xs| - 1];
      var r := After(cfg, before);
      TickGated(cfg, r.state, x);
      if i < |r.episodes| { CyclesAreGated(cfg, before, i); }
    }
  }

  // ----- The drop behind a cycle -----

  predicate FoundDown(x: Input) { !Suppressed(x) && !x.connected }

  function OutcomeAt(cfg: Config, xs: seq<Input>, k: nat): Outcome
    requires k < |xs|
  {
    TickOutcome(cfg, After(cfg, xs[..k]).state, xs[k])
  }

  /** Tick `k` found the tunnel down, and no reset has ended its episode since. */
  predicate DroppedAt(cfg: Config, xs: seq<Input>, k: nat) {
    && k < |xs| && FoundDown(xs[k])
    && forall m :: k <= m < |xs| ==> OutcomeAt(cfg, xs, m).reset == NoReset
  }

  lemma DispatchKeepsSince(cfg: Config, s: State, secs: nat, x: Input, before: seq<Effect>)
    ensures Dispatch(cfg, s, secs, x, before).state.disconnectSince == s.disconnectSince
  {
    hide Decide, Diagnose;
  }

  lemma TickKeepsSince(cfg: Config, s: State, x: Input)
    ensures TickOutcome(cfg, s, x).state.disconnectSince
         == if FoundDown(x) then Dropped(s, x).disconnectSince else s.disconnectSince
  {
    hide Dispatch;
    forall t: State, secs: nat, before: seq<Effect>
      ensures Dispatch(cfg, t, secs, x, before).state.disconnectSince == t.disconnectSince
    {
      DispatchKeepsSince(cfg, t, secs, x, before);
    }
  }

  /** A recorded drop was seen by a tick of the current episode. */
  lemma {:induction false} DropIsSeen(cfg: Config, xs: seq<Input>) returns (k: nat)
    requires After(cfg, xs).state.disconnectSince.Some?
    ensures DroppedAt(cfg, xs, k) && xs[k].now == After(cfg, xs).state.disconnectSince.value
  {
    hide TickOutcome, Suppressed;
    var last := |xs| - 1;
    var before, x := xs[..last], xs[last];
    var s := After(cfg, before).state;
    TickKeepsSince(cfg, s, x);
    assert OutcomeAt(cfg, xs, last) == TickOutcome(cfg, s, x);
    if s.disconnectSince.None? {
      k := last;
    } else {
      k := DropIsSeen(cfg, before);
      forall m | k <= m < last ensures OutcomeAt(cfg, xs, m).reset == NoReset {
        assert before[..m] == xs[..m];
        assert OutcomeAt(cfg, before, m) == OutcomeAt(cfg, xs, m);
      }
    }
  }

  /**
   At every tick of every run: a USB cycle is done only if an earlier tick of the same episode, or this one, found
   the tunnel down, as long ago as the cycle's evidence says and at least the configured minimum.
   */
  lemma CyclesFollowDrops(cfg: Config, xs: seq<Input>, x: Input, e: Effect) returns (k: nat)
    requires e in OutcomeAt(cfg, xs + [x], |xs|).effects && e.UsbCycle?
    ensures k <= |xs| && (k < |xs| ==> DroppedAt(cfg, xs, k)) && (k == |xs| ==> FoundDown(x))
    ensures Elapsed(x.now, (xs + [x])[k].now) / SECOND == e.disconnectSecs >= cfg.minSustainedSecs
  {
    assert (xs + [x])[..|xs|] == xs;
    var s := After(cfg, xs).state;
    TickGated(cfg, s, x);
    assert FoundDown(x);
    if s.disconnectSince.Some? { k := DropIsSeen(cfg, xs); } else { k := |xs|; }
    hide TickOutcome, Suppressed;
  }

  /** Below escalation level 4, and so at the default 3, the watchdog never power-cycles the modem. */
  lemma NoCycleBelowLevelFour(cfg: Config, xs: seq<Input>, i: nat)
    requires cfg.maxEscalationLevel < 4 && i < |After(cfg, xs).episodes|
    ensures NoCycles(After(cfg, xs).episodes[i])
  {
    CyclesAreGated(cfg, xs, i);
  }

  // ----- First, do no harm -----

  predicate OnlyReverts(es: seq<Effect>) {
    forall i :: 0 <= i < |es| ==> es[i] == IfaceRestart(BandRevert)
  }

  /** The data path is up, or being rebuilt by the tunnel client, or there is no modem to act on. */
  predicate NothingToCure(p: Probe) {
    || (!p.atOk && !p.sysfsPresent)
    || (p.atOk && p.hasIpv4
        && (p.reconnecting || p.registration == Some(RegHome) || p.registration == Some(RegRoaming)))
  }

  lemma DispatchLeavesAlone(cfg: Config, s: State, secs: nat, x: Input, before: seq<Effect>)
    requires NothingToCure(x.probe)
    ensures Dispatch(cfg, s, secs, x, before).effects == before
  {
    hide TryUsbCycle;
    hide TryAirplane;
    hide TryRestart;
  }

  lemma SafeLeavesAlone(cfg: Config, s: State, secs: nat, x: Input, before: seq<Effect>)
    requires NothingToCure(x.probe) && OnlyReverts(before)
    ensures OnlyReverts(AfterSafe(cfg, s, secs, x, before).effects)
  {
    hide Dispatch;
    var effects := before + RevertEffects(x.safe);
    var tried := s.(triedSafeRevert := true);
    DispatchLeavesAlone(cfg, s, secs, x, before);
    DispatchLeavesAlone(cfg, tried, secs, x, effects);
    DispatchLeavesAlone(cfg, tried.(lastActionAt := Some(x.safe.loggedAt)), secs, x, effects);
  }

  /** With nothing to cure a tick may revert a band change, but never touches registration, radio, interface or USB. */
  lemma TickDoesNoHarm(cfg: Config, s: State, x: Input)
    requires NothingToCure(x.probe)
    ensures OnlyReverts(TickOutcome(cfg, s, x).effects)
  {
    hide AfterSafe;
    if !Suppressed(x) && !x.connected {
      var dropped, secs := Dropped(s, x), DownFor(s, x) / SECOND;
      var effects := RevertEffects(x.prechange);
      var tried := dropped.(triedPrechangeRevert := true);
      SafeLeavesAlone(cfg, dropped, secs, x, []);
      SafeLeavesAlone(cfg, tried, secs, x, effects);
      SafeLeavesAlone(cfg, tried.(lastActionAt := Some(x.prechange.loggedAt)), secs, x, effects);
    }
  }
}

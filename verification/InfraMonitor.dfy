/**
 The infrastructure monitor: per-target status with hysteresis, and recovery
 commands on a budget.
 */
module InfraMonitor {
  import opened Basics

  const U32_MAX: nat := 0xFFFF_FFFF
  const MAX_RECOVERY_LOG := 50

  datatype Status = Unknown | Up | Degraded | Down

  datatype Check = Check(ok: bool, latency: Option<nat>)

  datatype Recovery = Recovery(enabled: bool, cooldown: nat, maxRetries: nat)

  datatype Target = Target(degradedThreshold: nat, downAfter: nat, upAfter: nat, recovery: Option<Recovery>)

  datatype TargetState = TargetState(status: Status, consecutiveOk: nat, consecutiveFail: nat)

  /** When recovery last ran for a target, and how often since it was last reset. */
  datatype Budget = Budget(lastExec: nat, count: nat)

  // ----- One target -----

  /** `u32` addition as a release build does it. */
  function WrappingIncrement(n: nat): nat { if n < U32_MAX then n + 1 else 0 }

  function SaturatingIncrement(n: nat): nat { if n < U32_MAX then n + 1 else U32_MAX }

  function ComputeStatus(prev: Status, check: Check, t: Target, fails: nat, oks: nat): Status {
    match prev
    case Unknown => if check.ok then Up else Degraded
    case Up =>
      if !check.ok then Degraded
      else if check.latency.Some? && check.latency.value > t.degradedThreshold then Degraded
      else Up
    case Degraded =>
      if check.ok && WrappingIncrement(oks) >= t.upAfter then Up
      else if !check.ok && WrappingIncrement(fails) >= t.downAfter then Down
      else Degraded
    case Down =>
      if check.ok && WrappingIncrement(oks) >= t.upAfter then Up else Down
  }

  const UNSEEN := TargetState(Unknown, 0, 0)

  /** A target never checked before counts as unknown with empty counters. */
  function Observed(cur: TargetState, t: Target, check: Check): TargetState {
    TargetState(
      ComputeStatus(cur.status, check, t, cur.consecutiveFail, cur.consecutiveOk),
      if check.ok then SaturatingIncrement(cur.consecutiveOk) else 0,
      if check.ok then 0 else SaturatingIncrement(cur.consecutiveFail))
  }

  const UNSPENT := Budget(0, 0)

  /** The budget allows a run: retries are left and the cooldown has passed, on a clock that may step back. */
  predicate MayRecover(b: Budget, r: Recovery, now: nat) {
    b.count < r.maxRetries && (if now < b.lastExec then 0 else now - b.lastExec) >= r.cooldown
  }

  /** What the monitor keeps about one target. */
  datatype Local = Local(cur: TargetState, budget: Option<Budget>)

  function GetBudget(b: Option<Budget>): Budget { if b.None? then UNSPENT else b.value }

  predicate RecoveryRuns(l: Local, t: Target, check: Check, now: nat) {
    && Observed(l.cur, t, check).status.Down?
    && t.recovery.Some? && t.recovery.value.enabled
    && MayRecover(GetBudget(l.budget), t.recovery.value, now)
  }

  function LocalStep(l: Local, t: Target, check: Check, now: nat): Local {
    var cur := Observed(l.cur, t, check);
    Local(cur,
          if RecoveryRuns(l, t, check, now) then Some(Budget(now, GetBudget(l.budget).count + 1))
          else if cur.status.Up? && l.cur.status.Down? then None
          else l.budget)
  }

  // ----- All targets -----

  datatype LogEntry = LogEntry(id: string, at: nat)

  datatype State = State(targets: map<string, TargetState>, tracker: map<string, Budget>, log: seq<LogEntry>)

  function LocalOf(s: State, id: string): Local {
    Local(if id in s.targets then s.targets[id] else UNSEEN,
          if id in s.tracker then Some(s.tracker[id]) else None)
  }

  function PushLog(log: seq<LogEntry>, e: LogEntry): (log': seq<LogEntry>)
    ensures |log| <= MAX_RECOVERY_LOG ==> |log'| <= MAX_RECOVERY_LOG
  {
    (if |log| >= MAX_RECOVERY_LOG then log[1..] else log) + [e]
  }

  /** The log after some entries have been pushed. */
  function Logged(es: seq<LogEntry>): seq<LogEntry> {
    if es == [] then [] else PushLog(Logged(es[..|es| - 1]), es[|es| - 1])
  }

  /** The log is the newest entries, in order, up to its bound. */
  lemma {:induction false} LogHoldsNewest(es: seq<LogEntry>)
    ensures Logged(es) == es[Max(0, |es| - MAX_RECOVERY_LOG)..]
  {
    if es != [] {
      var before, last := es[..|es| - 1], es[|es| - 1];
      LogHoldsNewest(before);
      if |before| >= MAX_RECOVERY_LOG {
        var from := |before| - MAX_RECOVERY_LOG;
        assert before[from..][1..] + [last] == es[from + 1..];
      } else {
        assert before[0..] + [last] == es;
      }
    }
  }

  class Monitor {
    var targets: map<string, TargetState>
    var tracker: map<string, Budget>
    var log: seq<LogEntry>

    constructor ()
      ensures View() == State(map[], map[], [])
    {
      targets, tracker, log := map[], map[], [];
    }

    function View(): State
      reads this
    {
      State(targets, tracker, log)
    }

    method TryRecovery(id: string, r: Recovery, now: nat) returns (ran: bool)
      modifies this`tracker, this`log
      ensures var b := GetBudget(LocalOf(old(View()), id).budget);
              && ran == MayRecover(b, r, now)
              && tracker == (if ran then old(tracker)[id := Budget(now, b.count + 1)] else old(tracker))
              && log == (if ran then PushLog(old(log), LogEntry(id, now)) else old(log))
    {
      var b := if id in tracker then tracker[id] else UNSPENT;
      if b.count >= r.maxRetries {
        return false;
      }
      if (if now < b.lastExec then 0 else now - b.lastExec) < r.cooldown {
        return false;
      }
      log := PushLog(log, LogEntry(id, now));
      tracker := tracker[id := Budget(now, b.count + 1)];
      return true;
    }

    /** One check result: the target's own record follows the single-target step, no other record changes. */
    method CheckTarget(id: string, t: Target, check: Check, now: nat) returns (ran: bool)
      modifies this
      ensures ran == RecoveryRuns(LocalOf(old(View()), id), t, check, now)
      ensures LocalOf(View(), id) == LocalStep(LocalOf(old(View()), id), t, check, now)
      ensures forall other :: other != id ==> LocalOf(View(), other) == LocalOf(old(View()), other)
      ensures log == if ran then PushLog(old(log), LogEntry(id, now)) else old(log)
    {
      var cur := if id in targets then targets[id] else UNSEEN;
      var prevStatus := cur.status;
      var newStatus := ComputeStatus(prevStatus, check, t, cur.consecutiveFail, cur.consecutiveOk);
      var oks, fails := 0, 0;
      if check.ok {
        oks := SaturatingIncrement(cur.consecutiveOk);
      } else {
        fails := SaturatingIncrement(cur.consecutiveFail);
      }
      targets := targets[id := TargetState(newStatus, oks, fails)];
      ran := false;
      if newStatus == Down {
        if t.recovery.Some? && t.recovery.value.enabled {
          ran := TryRecovery(id, t.recovery.value, now);
        }
      }
      if newStatus == Up && prevStatus == Down {
        tracker := tracker - {id};
      }
    }
  }

  // ----- Check histories of one target -----

  datatype Observation = Observation(check: Check, now: nat)

  function After(t: Target, h: seq<Observation>): Local {
    if h == [] then Local(UNSEEN, None)
    else LocalStep(After(t, Init(h)), t, Last(h).check, Last(h).now)
  }

  function Init<T>(s: seq<T>): seq<T>
    requires s != []
  {
    s[..|s| - 1]
  }

  function Last<T>(s: seq<T>): T
    requires s != []
  {
    s[|s| - 1]
  }

  function StatusAfter(t: Target, h: seq<Observation>): Status { After(t, h).cur.status }

  /** How many checks at the end of a history failed, succeeded, or succeeded fast enough. */
  function FailRun(h: seq<Observation>): nat {
    if h != [] && !Last(h).check.ok then 1 + FailRun(Init(h)) else 0
  }

  function OkRun(h: seq<Observation>): nat {
    if h != [] && Last(h).check.ok then 1 + OkRun(Init(h)) else 0
  }

  predicate Fast(t: Target, c: Check) {
    c.ok && (c.latency.None? || c.latency.value <= t.degradedThreshold)
  }

  function FastRun(t: Target, h: seq<Observation>): nat {
    if h != [] && Fast(t, Last(h).check) then 1 + FastRun(t, Init(h)) else 0
  }

  /** The counters are the runs at the end of a history, as far as 32 bits go. */
  lemma {:induction false} CountersAreRuns(t: Target, h: seq<Observation>)
    ensures After(t, h).cur.consecutiveOk == Min(OkRun(h), U32_MAX)
    ensures After(t, h).cur.consecutiveFail == Min(FailRun(h), U32_MAX)
    ensures h != [] <==> After(t, h).cur.status != Unknown
  {
    if h != [] { CountersAreRuns(t, Init(h)); }
  }

  /** A run reaches a threshold; past 32 bits the comparison wraps, and only a threshold of zero is still reached. */
  predicate Reaches(run: nat, threshold: nat) {
    run > 0 && if run <= U32_MAX then run >= threshold else threshold == 0
  }

  /** Down is entered exactly from Degraded, at the end of enough straight failures. */
  lemma DownIsEarned(t: Target, h: seq<Observation>)
    requires h != [] && StatusAfter(t, Init(h)) != Down
    ensures StatusAfter(t, h) == Down
       <==> StatusAfter(t, Init(h)) == Degraded && Reaches(FailRun(h), t.downAfter)
  {
    CountersAreRuns(t, Init(h));
  }

  /** Up is re-entered exactly after enough straight successes. */
  lemma UpIsEarned(t: Target, h: seq<Observation>)
    requires h != [] && StatusAfter(t, Init(h)) in {Degraded, Down}
    ensures StatusAfter(t, h) == Up <==> Reaches(OkRun(h), t.upAfter)
  {
    CountersAreRuns(t, Init(h));
  }

  /**
   The whole status law, on the history alone: a first check decides by success; a target that is up stays so by
   fast successes and else degrades; a degraded one waits for its run of successes or failures; a down one only
   for successes.
   */
  lemma StatusLaw(t: Target, h: seq<Observation>)
    requires h != []
    ensures var c := Last(h).check;
            var recovered, lost := Reaches(OkRun(h), t.upAfter), Reaches(FailRun(h), t.downAfter);
            && (|h| == 1 ==> StatusAfter(t, h) == if c.ok then Up else Degraded)
            && (|h| > 1 ==>
                  StatusAfter(t, h) ==
                  match StatusAfter(t, Init(h))
                  case Up =>
                    if c.ok && (c.latency == None || c.latency.value <= t.degradedThreshold) then Up else Degraded
                  case Degraded => if recovered then Up else if lost then Down else Degraded
                  case Down => if recovered then Up else Down
                  case Unknown => Unknown)
            && (|h| > 1 ==> StatusAfter(t, Init(h)) != Unknown)
  {
    CountersAreRuns(t, Init(h));
  }

  /** Recovery is for targets that ask for it: without a recovery, or with it switched off, none runs. */
  lemma NoRecoveryUnasked(t: Target, h: seq<Observation>)
    requires h != [] && (t.recovery == None || !t.recovery.value.enabled || StatusAfter(t, h) != Down)
    ensures !RanAt(t, h)
  {
  }

  lemma {:induction false} FailingIsBad(t: Target, h: seq<Observation>)
    requires FailRun(h) >= 1 && t.downAfter <= U32_MAX
    ensures StatusAfter(t, h) in {Degraded, Down}
    ensures FailRun(h) >= Max(2, t.downAfter) ==> StatusAfter(t, h) == Down
  {
    StatusLaw(t, h);
    if FailRun(h) >= 2 { FailingIsBad(t, Init(h)); }
  }

  lemma {:induction false} FastRunsAreOkRuns(t: Target, h: seq<Observation>)
    ensures FastRun(t, h) <= OkRun(h)
  {
    if h != [] { FastRunsAreOkRuns(t, Init(h)); }
  }

  lemma {:induction false} FastIsGood(t: Target, h: seq<Observation>)
    requires FastRun(t, h) >= Max(1, t.upAfter) && OkRun(h) - FastRun(t, h) + Max(1, t.upAfter) <= U32_MAX
    ensures StatusAfter(t, h) == Up
  {
    StatusLaw(t, h);
    FastRunsAreOkRuns(t, h);
    if FastRun(t, h) > Max(1, t.upAfter) { FastIsGood(t, Init(h)); }
  }

  /**
   Whatever came before, enough failures end in Down, and enough fast successes end in Up if the run of successes
   they belong to reaches their number within 32 bits.
   */
  lemma RunsDecide(t: Target, h: seq<Observation>)
    requires t.downAfter <= U32_MAX
    ensures FailRun(h) >= Max(2, t.downAfter) ==> StatusAfter(t, h) == Down
    ensures FastRun(t, h) >= Max(1, t.upAfter) && OkRun(h) - FastRun(t, h) + Max(1, t.upAfter) <= U32_MAX ==>
              StatusAfter(t, h) == Up
  {
    if FailRun(h) >= Max(2, t.downAfter) { FailingIsBad(t, h); }
    if FastRun(t, h) >= Max(1, t.upAfter) && OkRun(h) - FastRun(t, h) + Max(1, t.upAfter) <= U32_MAX {
      FastIsGood(t, h);
    }
  }

  /** Past that, straight successes leave a degraded target degraded: the counter no longer reaches its threshold. */
  lemma WrappedRunSticks(t: Target, h: seq<Observation>)
    requires h != [] && OkRun(h) > U32_MAX && t.upAfter > 0 && StatusAfter(t, Init(h)) == Degraded
    ensures StatusAfter(t, h) == Degraded
  {
    StatusLaw(t, h);
  }

  // ----- Recovery within a Down interval -----

  predicate RanAt(t: Target, h: seq<Observation>)
    requires h != []
  {
    RecoveryRuns(After(t, Init(h)), t, Last(h).check, Last(h).now)
  }

  /** The times recovery ran in the Down interval a history ends in; outside one, none. */
  function RunsInInterval(t: Target, h: seq<Observation>): seq<nat> {
    if h == [] || StatusAfter(t, h) != Down then []
    else RunsInInterval(t, Init(h)) + if RanAt(t, h) then [Last(h).now] else []
  }

  /** Each time is a cooldown after the one before; with no cooldown the clock may also have stepped back. */
  ghost predicate Spaced(times: seq<nat>, cooldown: nat) {
    forall i :: 0 < i < |times| ==> cooldown == 0 || times[i] >= times[i - 1] + cooldown
  }

  /** Recovery keeps to its budget in every Down interval, and the budget is whole again at the next. */
  lemma {:induction false} RecoveryKeepsBudget(t: Target, r: Recovery, h: seq<Observation>)
    requires t.recovery == Some(r)
    ensures var runs := RunsInInterval(t, h);
            && |runs| <= r.maxRetries && Spaced(runs, r.cooldown)
            && GetBudget(After(t, h).budget).count == |runs|
            && (runs != [] ==> GetBudget(After(t, h).budget).lastExec == Last(runs))
            && (StatusAfter(t, h) != Down ==> After(t, h).budget == None)
  {
    if h != [] { RecoveryKeepsBudget(t, r, Init(h)); }
  }

  /** Recovery runs at a check exactly when the target is Down after it, runs are left, and the cooldown is over. */
  lemma RecoveryRunsWhenDue(t: Target, r: Recovery, h: seq<Observation>)
    requires h != [] && t.recovery == Some(r) && r.enabled && StatusAfter(t, h) == Down
    ensures var runs := RunsInInterval(t, Init(h));
            var last := if runs == [] then 0 else Last(runs);
            RanAt(t, h) <==> |runs| < r.maxRetries && (r.cooldown == 0 || Last(h).now >= last + r.cooldown)
  {
    RecoveryKeepsBudget(t, r, Init(h));
    NoRunsNoBudget(t, r, Init(h));
  }

  lemma {:induction false} NoRunsNoBudget(t: Target, r: Recovery, h: seq<Observation>)
    requires t.recovery == Some(r)
    ensures RunsInInterval(t, h) == [] ==> After(t, h).budget == None
  {
    RecoveryKeepsBudget(t, r, h);
    if h != [] { NoRunsNoBudget(t, r, Init(h)); }
  }

  // ----- Targets do not interfere -----

  datatype Event = Event(id: string, check: Check, now: nat)

  ghost predicate Steps(config: map<string, Target>, s: State, e: Event, s': State)
    requires e.id in config
  {
    && LocalOf(s', e.id) == LocalStep(LocalOf(s, e.id), config[e.id], e.check, e.now)
    && forall other :: other != e.id ==> LocalOf(s', other) == LocalOf(s, other)
  }

  /** A run of the monitor, as `CheckTarget` steps it from the empty state. */
  ghost predicate IsRun(config: map<string, Target>, states: seq<State>, events: seq<Event>) {
    && |states| == |events| + 1
    && states[0] == State(map[], map[], [])
    && (forall i :: 0 <= i < |events| ==> events[i].id in config)
    && forall i :: 0 <= i < |events| ==> Steps(config, states[i], events[i], states[i + 1])
  }

  function Own(events: seq<Event>, id: string): seq<Observation> {
    if events == [] then [] else
      var e := Last(events);
      if e.id == id then Own(Init(events), id) + [Observation(e.check, e.now)] else Own(Init(events), id)
  }

  /** What the monitor keeps about a target depends on that target's own checks alone. */
  lemma {:induction false} TargetsAreIndependent(
      config: map<string, Target>, states: seq<State>, events: seq<Event>, id: string)
    requires IsRun(config, states, events) && id in config
    ensures LocalOf(Last(states), id) == After(config[id], Own(events, id))
  {
    hide LocalStep;
    if events != [] {
      var before := Init(states);
      var n := |events| - 1;
      assert IsRun(config, before, Init(events)) by {
        forall i | 0 <= i < n ensures Steps(config, before[i], Init(events)[i], before[i + 1]) {
          assert Steps(config, states[i], events[i], states[i + 1]);
        }
      }
      TargetsAreIndependent(config, before, Init(events), id);
      assert Steps(config, states[n], events[n], states[n + 1]);
      var own := Own(events, id);
      if events[n].id == id {
        assert Init(own) == Own(Init(events), id);
      }
    }
  }
}

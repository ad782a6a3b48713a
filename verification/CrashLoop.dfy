/**
 The server supervisor: restart backoff, and the rolling window of crash times
 that engages safe mode.
 */
module CrashLoop {
  import opened Basics

  /** Instants are nanoseconds on a monotonic clock. */
  const SECOND: nat := 1_000_000_000
  const WINDOW: nat := 180 * SECOND
  const THRESHOLD := 3
  const SAFE_MODE_BACKOFF := 300

  datatype Config = Config(maxBackoff: nat, stableThreshold: nat)

  /** One abnormal exit: when it was noticed and how long the child had run. */
  datatype Crash = Crash(at: nat, uptime: nat)

  datatype State = State(history: seq<nat>, engaged: bool, backoff: nat)

  const INITIAL := State([], false, 1)

  /** Drop entries older than the window from the front, stopping at the first that is not. */
  function DropOld(history: seq<nat>, now: nat): seq<nat> {
    if history != [] && now - history[0] > WINDOW then DropOld(history[1..], now) else history
  }

  /** The state once a crash is handled, and the seconds slept before the restart. */
  function OnCrash(cfg: Config, s: State, c: Crash): (State, nat) {
    var history := DropOld(s.history + [c.at], c.at);
    var trip := |history| >= THRESHOLD;
    (State(history, s.engaged || trip,
           if c.uptime >= cfg.stableThreshold then 1 else Min(s.backoff * 2, cfg.maxBackoff)),
     if trip then SAFE_MODE_BACKOFF else s.backoff)
  }

  class Supervisor {
    const cfg: Config
    var history: seq<nat>
    var engaged: bool
    var backoff: nat

    constructor (cfg: Config)
      ensures View() == INITIAL && this.cfg == cfg
    {
      this.cfg := cfg;
      history, engaged, backoff := [], false, 1;
    }

    function View(): State
      reads this
    {
      State(history, engaged, backoff)
    }

    method RecordCrashAndPickBackoff(now: nat) returns (sleep: nat)
      modifies this`history, this`engaged
      ensures history == DropOld(old(history) + [now], now)
      ensures engaged == (old(engaged) || |history| >= THRESHOLD)
      ensures sleep == if |history| >= THRESHOLD then SAFE_MODE_BACKOFF else backoff
    {
      history := history + [now];
      while history != [] && now - history[0] > WINDOW
        invariant DropOld(history, now) == DropOld(old(history) + [now], now)
        invariant engaged == old(engaged)
        decreases |history|
      {
        history := history[1..];
      }
      if |history| >= THRESHOLD {
        engaged := true;
        sleep := SAFE_MODE_BACKOFF;
      } else {
        sleep := backoff;
      }
    }

    method HandleCrash(c: Crash) returns (sleep: nat)
      modifies this
      ensures (View(), sleep) == OnCrash(cfg, old(View()), c)
    {
      sleep := RecordCrashAndPickBackoff(c.at);
      if c.uptime >= cfg.stableThreshold {
        backoff := 1;
      } else {
        backoff := Min(backoff * 2, cfg.maxBackoff);
      }
    }
  }

  // ----- Whole runs -----

  function After(cfg: Config, cs: seq<Crash>): State {
    if cs == [] then INITIAL else OnCrash(cfg, After(cfg, cs[..|cs| - 1]), cs[|cs| - 1]).0
  }

  /** The sleep chosen at the last crash of a run. */
  function LastSleep(cfg: Config, cs: seq<Crash>): nat
    requires cs != []
  {
    OnCrash(cfg, After(cfg, cs[..|cs| - 1]), cs[|cs| - 1]).1
  }

  /** Each crash comes no earlier than the end of the sleep chosen at the one before. */
  predicate RespectsSleeps(cfg: Config, cs: seq<Crash>) {
    |cs| >= 2 ==>
      var before := cs[..|cs| - 1];
      && RespectsSleeps(cfg, before)
      && cs[|cs| - 1].at >= cs[|cs| - 2].at + LastSleep(cfg, before) * SECOND
  }

  /** All crash times of a run within the window that ends at `now`. */
  function Recent(cs: seq<Crash>, now: nat): seq<nat> {
    if cs == [] then [] else
      var earlier, t := Recent(cs[..|cs| - 1], now), cs[|cs| - 1].at;
      if now - t <= WINDOW then earlier + [t] else earlier
  }

  function Unstable(cfg: Config, cs: seq<Crash>): nat {
    if cs != [] && cs[|cs| - 1].uptime < cfg.stableThreshold
    then 1 + Unstable(cfg, cs[..|cs| - 1]) else 0
  }

  ghost predicate Ordered(cs: seq<Crash>) {
    forall i, j :: 0 <= i <= j < |cs| ==> cs[i].at <= cs[j].at
  }

  lemma {:induction false} RespectfulIsOrdered(cfg: Config, cs: seq<Crash>)
    requires RespectsSleeps(cfg, cs)
    ensures Ordered(cs)
  {
    if |cs| >= 2 {
      var before := cs[..|cs| - 1];
      RespectfulIsOrdered(cfg, before);
      assert before[|cs| - 2].at <= cs[|cs| - 1].at;
    }
  }

  lemma {:induction false} RecentAreEarlier(cs: seq<Crash>, now: nat)
    requires Ordered(cs)
    ensures forall t :: t in Recent(cs, now) ==> now - t <= WINDOW && t <= cs[|cs| - 1].at
    ensures forall i, j :: 0 <= i <= j < |Recent(cs, now)| ==> Recent(cs, now)[i] <= Recent(cs, now)[j]
  {
    if cs != [] {
      var before := cs[..|cs| - 1];
      RecentAreEarlier(before, now);
      var r := Recent(before, now);
      assert forall i :: 0 <= i < |r| ==> r[i] in r;
    }
  }

  /** Advancing the clock, what leaves the window is a prefix: popping from the front is filtering. */
  lemma {:induction false} DropOldIsRecent(cs: seq<Crash>, now: nat, later: nat)
    requires now <= later && Ordered(cs)
    ensures DropOld(Recent(cs, now), later) == Recent(cs, later)
  {
    if cs != [] {
      var before, t := cs[..|cs| - 1], cs[|cs| - 1].at;
      DropOldIsRecent(before, now, later);
      DropOldAppend(Recent(before, now), t, later);
      RecentAreEarlier(before, later);
      var kept := Recent(before, later);
      if kept != [] {
        assert kept[0] in kept && before[|before| - 1].at <= t;
      }
    }
  }

  lemma {:induction false} DropOldAppend(h: seq<nat>, t: nat, now: nat)
    ensures DropOld(h + [t], now)
         == if DropOld(h, now) != [] then DropOld(h, now) + [t]
            else if now - t > WINDOW then [] else [t]
  {
    if h == [] {
      assert [] + [t] == [t];
    } else {
      assert (h + [t])[1..] == h[1..] + [t];
      if now - h[0] > WINDOW { DropOldAppend(h[1..], t, now); }
    }
  }

  /** The deque is exactly the crashes of the last 180 s, and never holds more than three. */
  lemma {:induction false} WindowIsExact(cfg: Config, cs: seq<Crash>)
    requires RespectsSleeps(cfg, cs) && cs != []
    ensures After(cfg, cs).history == Recent(cs, cs[|cs| - 1].at)
    ensures 1 <= |After(cfg, cs).history| <= THRESHOLD
    ensures LastSleep(cfg, cs) == SAFE_MODE_BACKOFF || |After(cfg, cs).history| < THRESHOLD
  {
    var before, last := cs[..|cs| - 1], cs[|cs| - 1].at;
    RespectfulIsOrdered(cfg, cs);
    if before == [] {
      assert Recent(cs, last) == Recent(before, last) + [last];
      DropOldAppend([], last, last);
    } else {
      WindowIsExact(cfg, before);
      var prev := before[|before| - 1].at;
      var h := Recent(before, prev);
      DropOldAppend(h, last, last);
      assert before[|before| - 1] == cs[|cs| - 2];
      DropOldIsRecent(before, prev, last);
      assert Recent(cs, last) == Recent(before, last) + [last];
      DropOldShrinks(h, last);
      if |h| >= THRESHOLD {
        RecentAreEarlier(before, prev);
        AllExpired(h, last);
      }
    }
  }

  lemma {:induction false} DropOldShrinks(h: seq<nat>, now: nat)
    ensures |DropOld(h, now)| <= |h|
  {
    if h != [] && now - h[0] > WINDOW { DropOldShrinks(h[1..], now); }
  }

  lemma {:induction false} AllExpired(h: seq<nat>, now: nat)
    requires forall t :: t in h ==> now - t > WINDOW
    ensures DropOld(h, now) == []
  {
    if h != [] {
      assert h[0] in h;
      assert forall t :: t in h[1..] ==> t in h;
      AllExpired(h[1..], now);
    }
  }

  /** The first crash after a safe-mode trip finds the window empty but for itself. */
  lemma OneAfterTrip(cfg: Config, cs: seq<Crash>)
    requires RespectsSleeps(cfg, cs) && |cs| >= 2
    requires |After(cfg, cs[..|cs| - 1]).history| >= THRESHOLD
    ensures After(cfg, cs).history == [cs[|cs| - 1].at]
  {
    var before, last := cs[..|cs| - 1], cs[|cs| - 1].at;
    WindowIsExact(cfg, before);
    RespectfulIsOrdered(cfg, before);
    RecentAreEarlier(before, before[|before| - 1].at);
    assert before[|before| - 1] == cs[|cs| - 2];
    AllExpired(After(cfg, before).history, last);
    DropOldAppend(After(cfg, before).history, last, last);
  }

  /** Safe mode trips at a crash exactly when it is the third within 180 s. */
  lemma TripIsThirdInWindow(cfg: Config, cs: seq<Crash>)
    requires RespectsSleeps(cfg, cs) && cs != []
    ensures |After(cfg, cs).history| >= THRESHOLD
       <==> |cs| >= 3 && cs[|cs| - 1].at - cs[|cs| - 3].at <= WINDOW
  {
    var now := cs[|cs| - 1].at;
    WindowIsExact(cfg, cs);
    RespectfulIsOrdered(cfg, cs);
    if |cs| >= 2 {
      var c2, c1 := cs[..|cs| - 1], cs[..|cs| - 2];
      assert c2[..|c2| - 1] == c1;
      assert |Recent(cs, now)| <= |Recent(c1, now)| + 2;
      if |cs| >= 3 {
        assert c1[|c1| - 1] == cs[|cs| - 3] && c2[|c2| - 1] == cs[|cs| - 2];
        if now - cs[|cs| - 3].at > WINDOW {
          forall i | 0 <= i < |c1| ensures now - c1[i].at > WINDOW { assert cs[i].at <= cs[|cs| - 3].at; }
          NoneRecent(c1, now);
        } else {
          assert |Recent(c1, now)| >= 1;
          assert |Recent(c2, now)| >= 2;
        }
      }
    }
  }

  lemma {:induction false} NoneRecent(cs: seq<Crash>, now: nat)
    requires forall i :: 0 <= i < |cs| ==> now - cs[i].at > WINDOW
    ensures Recent(cs, now) == []
  {
    if cs != [] { NoneRecent(cs[..|cs| - 1], now); }
  }

  /** The regular backoff doubles per unstable crash in a row, up to the limit. */
  lemma {:induction false} BackoffIsCappedPower(cfg: Config, cs: seq<Crash>)
    requires cfg.maxBackoff >= 1
    ensures After(cfg, cs).backoff == Min(Pow2(Unstable(cfg, cs)), cfg.maxBackoff)
  {
    if cs != [] { BackoffIsCappedPower(cfg, cs[..|cs| - 1]); }
  }

  predicate ThirdInWindow(cs: seq<Crash>, k: nat) {
    2 <= k < |cs| && cs[k].at - cs[k - 2].at <= WINDOW
  }

  lemma EngagedStep(cfg: Config, cs: seq<Crash>)
    requires RespectsSleeps(cfg, cs) && cs != []
    ensures After(cfg, cs).engaged <==> After(cfg, cs[..|cs| - 1]).engaged || ThirdInWindow(cs, |cs| - 1)
  {
    TripIsThirdInWindow(cfg, cs);
    hide RespectsSleeps, DropOld;
  }

  /** Safe mode is engaged exactly from the first third crash in a window on. */
  lemma {:induction false} EngagedOnceTripped(cfg: Config, cs: seq<Crash>)
    requires RespectsSleeps(cfg, cs)
    ensures After(cfg, cs).engaged <==> exists k :: ThirdInWindow(cs, k)
  {
    if cs != [] {
      var before := cs[..|cs| - 1];
      assert RespectsSleeps(cfg, before);
      EngagedStep(cfg, cs);
      hide RespectsSleeps, After;
      EngagedOnceTripped(cfg, before);
      assert forall k: nat ::
          ThirdInWindow(cs, k) <==> ThirdInWindow(before, k) || (k == |cs| - 1 && ThirdInWindow(cs, k));
    }
  }

  /** The restart policy as seen from outside: safe-mode sleep at a third crash in the window, else the capped power. */
  lemma SleepPolicy(cfg: Config, cs: seq<Crash>)
    requires cfg.maxBackoff >= 1 && RespectsSleeps(cfg, cs) && cs != []
    ensures LastSleep(cfg, cs)
         == if |cs| >= 3 && cs[|cs| - 1].at - cs[|cs| - 3].at <= WINDOW then SAFE_MODE_BACKOFF
            else Min(Pow2(Unstable(cfg, cs[..|cs| - 1])), cfg.maxBackoff)
  {
    TripIsThirdInWindow(cfg, cs);
    BackoffIsCappedPower(cfg, cs[..|cs| - 1]);
  }
}

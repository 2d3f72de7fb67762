/** Runs of the daemon: the port after any number of turns, how often things happened on the way,
    what holds in every state a run can reach, and the accounting of power cycles. */
module Runs {
  import opened Integers
  import opened PortTypes
  import opened PortSpec

  /** The port after the turns `envs`, counted from boot. */
  function After(params: Params, config: PortConfig, envs: seq<Env>): Port
    decreases |envs|
  {
    if |envs| == 0 then Boot(config)
    else Tick(params, After(params, config, envs[..|envs| - 1]), envs[|envs| - 1])
  }

  /** The program as it stands: nobody but the handlers raises an event. */
  ghost predicate Closed(envs: seq<Env>) {
    forall i :: 0 <= i < |envs| ==> envs[i].raised == {}
  }

  // ---------- what can happen in a turn ----------

  datatype Happening =
    | PowerCut        // the handler enters POE_DOWN
    | PowerBack       // the handler enters POE_UP
    | TimerArmed      // the power-down deadline is set
    | CountedReset    // an automatic reset within the limit
    | ManualResetDone // manualResetHandler
    | Rearmed         // eventsHandler itself grants a manual request
    | Overwritten     // a reboot is asked for where one was waiting already
    | Revived         // a shut-down port is set back to REGULAR_STATE
    | FailureLost     // a failure is counted with the counter at 255

  ghost predicate Occurs(h: Happening, params: Params, p: Port, env: Env) {
    var seen := Seen(p, env);
    var acted := Acted(params, p, env);
    var idling := seen.reset.state == RebootState && seen.reboot.phase == RebootIdle;
    var counted := idling && AutoRestart in seen.reset.event && seen.reset.resetCount < params.maxReset;
    var manual := idling && ManualRestart in seen.reset.event && Enabled(seen);
    var rearmed := ManualRestart in acted.reset.event && Enabled(acted);
    match h
    case PowerCut => seen.reboot.phase != PoeDown && acted.reboot.phase == PoeDown
    case PowerBack => seen.reboot.phase != PoeUp && acted.reboot.phase == PoeUp
    case TimerArmed => seen.reset.state == RebootState && seen.reboot.phase == PoeDown
                       && RebootStart in seen.reboot.event
    case CountedReset => counted
    case ManualResetDone => manual
    case Rearmed => rearmed
    case Overwritten => (counted && manual) || (rearmed && acted.reboot.phase == RebootInit)
    case Revived => seen.reset.state == IdleState && TestOk in seen.reset.event
    case FailureLost => seen.reset.state == RegularState && Verdict(seen.reset.errorCode) == 1
                        && seen.reset.errorTestCount == 255
  }

  ghost function One(b: bool): nat {
    if b then 1 else 0
  }

  /** In how many of the turns `envs` a thing happened. */
  ghost function Times(h: Happening, params: Params, config: PortConfig, envs: seq<Env>): nat
    decreases |envs|
  {
    if |envs| == 0 then 0
    else
      var front := envs[..|envs| - 1];
      Times(h, params, config, front) + One(Occurs(h, params, After(params, config, front), envs[|envs| - 1]))
  }

  lemma AtBoot(params: Params, config: PortConfig, envs: seq<Env>)
    requires |envs| == 0
    ensures After(params, config, envs) == Boot(config)
    ensures forall h :: Times(h, params, config, envs) == 0
    ensures Wrap8(0) == 0
  {
  }

  /** The run up to its last turn, and that turn. */
  lemma LastTurn(params: Params, config: PortConfig, envs: seq<Env>) returns (front: seq<Env>, p: Port, env: Env)
    requires |envs| > 0
    ensures |front| == |envs| - 1 && envs == front + [env]
    ensures p == After(params, config, front) && After(params, config, envs) == Tick(params, p, env)
    ensures forall h :: Times(h, params, config, envs)
                     == Times(h, params, config, front) + One(Occurs(h, params, p, env))
    ensures Closed(envs) ==> Closed(front) && env.raised == {}
  {
    hide Tick, Boot, Occurs;
    front := envs[..|envs| - 1];
    p, env := After(params, config, front), envs[|envs| - 1];
  }

  // ---------- every reachable state ----------

  /** The error bits agree with the states, a reboot that waits to start has its request pending,
      and the reset counter respects its limit. */
  ghost predicate Consistent(params: Params, config: PortConfig, p: Port) {
    var r := p.reset;
    && (ErrPortShutdown in r.errorCode <==> r.state == IdleState)
    && (ErrRebooting in r.errorCode ==> r.state == RebootState && p.reboot.phase != RebootIdle)
    && (r.state != RebootState ==> p.reboot.phase in {RebootIdle, RebootInit})
    && (r.state == RebootState && p.reboot.phase == RebootIdle ==> AutoRestart in r.event)
    && r.resetCount <= params.maxReset
    && !ConfigError(r.errorCode)
    && p.config.testType == config.testType
    && p.config.alarm == config.alarm
    && p.reboot.delay == REBOOT_DELAY
  }

  /** The bits that a test may change. */
  const TEST_FLAGS: set<ErrorFlag> := {ErrOk, ErrTestLink, ErrTestPing, ErrTestSpeed, ErrTestDisable}

  /** What the handler finds: only the outside inputs and the test bits are new. */
  lemma SeenChanges(p: Port, env: Env)
    ensures var seen := Seen(p, env);
            && seen.reboot == p.reboot && seen.timeStart == p.timeStart && seen.flags == env.flags
            && seen.reset == p.reset.(event := p.reset.event + env.raised, errorCode := seen.reset.errorCode)
            && seen.config.testType == p.config.testType && seen.config.alarm == p.config.alarm
            && seen.commands == p.commands
    ensures forall e :: e !in TEST_FLAGS ==> (e in Seen(p, env).reset.errorCode <==> e in p.reset.errorCode)
  {
  }

  /** What the alarms leave alone. */
  lemma AlarmChanges(p: Port, now: nat)
    ensures var q := HandleAlarms(p, now);
            && q.reboot == p.reboot && q.timeStart == p.timeStart && q.flags == p.flags
            && q.reset == p.reset.(errorCode := q.reset.errorCode)
            && q.config.testType == p.config.testType && q.config.alarm == p.config.alarm
    ensures forall e :: e != ErrPoeDown ==> (e in HandleAlarms(p, now).reset.errorCode <==> e in p.reset.errorCode)
  {
  }

  lemma HandleKeepsConsistent(params: Params, config: PortConfig, p: Port, env: Env)
    requires Consistent(params, config, p)
    ensures Consistent(params, config, Handle(params, p, env))
    ensures Consistent(params, config, Rearm(Handle(params, p, env)))
  {
  }

  lemma SeenIsConsistent(params: Params, config: PortConfig, p: Port, env: Env)
    requires Consistent(params, config, p)
    ensures Consistent(params, config, Seen(p, env))
  {
    hide Seen;
    SeenChanges(p, env);
  }

  lemma AlarmsKeepConsistent(params: Params, config: PortConfig, p: Port, now: nat)
    requires Consistent(params, config, p)
    ensures Consistent(params, config, HandleAlarms(p, now))
  {
    hide HandleAlarms;
    AlarmChanges(p, now);
  }

  lemma TickKeepsConsistent(params: Params, config: PortConfig, p: Port, env: Env)
    requires Consistent(params, config, p)
    ensures Consistent(params, config, Seen(p, env))
    ensures Consistent(params, config, Acted(params, p, env))
    ensures Consistent(params, config, Tick(params, p, env))
  {
    hide Handle, Rearm, Seen, HandleAlarms, Consistent;
    SeenIsConsistent(params, config, p, env);
    HandleKeepsConsistent(params, config, Seen(p, env), env);
    AlarmsKeepConsistent(params, config, Rearm(Acted(params, p, env)), env.alarmClock);
  }

  lemma {:induction false} FlagsAgreeWithState(params: Params, config: PortConfig, envs: seq<Env>)
    ensures Consistent(params, config, After(params, config, envs))
    decreases |envs|
  {
    if |envs| == 0 {
    } else {
      var front := envs[..|envs| - 1];
      FlagsAgreeWithState(params, config, front);
      TickKeepsConsistent(params, config, After(params, config, front), envs[|envs| - 1]);
    }
  }

  // ---------- the accounting of power cycles ----------

  /** A turn's balance: requests for a reboot that come in, against those that are used, still
      waiting, or lost because one was waiting already. */
  ghost predicate Balanced(params: Params, p: Port, env: Env) {
    var q := Rearm(Acted(params, p, env));
    One(Occurs(PowerCut, params, p, env)) + One(q.reboot.phase == RebootInit)
    + One(Occurs(Overwritten, params, p, env))
    == One(p.reboot.phase == RebootInit) + One(Occurs(CountedReset, params, p, env))
       + One(Occurs(ManualResetDone, params, p, env)) + One(Occurs(Rearmed, params, p, env))
  }

  lemma TickBalance(params: Params, config: PortConfig, p: Port, env: Env)
    requires Consistent(params, config, p)
    ensures Balanced(params, p, env)
  {
    hide Seen, WaitPoweredDown, HandleTest, HandleIdle;
    SeenChanges(p, env);
    PhaseChanges(params, Seen(p, env), env);
  }

  /** The phases that the handlers on their own produce, and what they leave alone. */
  lemma PhaseChanges(params: Params, p: Port, env: Env)
    ensures HandleIdle(p).reboot == HandleTest(p, params.testNum).reboot == p.reboot
    ensures HandleIdle(p).reset.totalResetCount == HandleTest(p, params.testNum).reset.totalResetCount
         == p.reset.totalResetCount
    ensures WaitPoweredDown(p, env).reboot.phase in {PoeDown, PoeUp}
    ensures WaitPoweredDown(p, env).reset == p.reset && WaitPoweredDown(p, env).flags == p.flags
    ensures ManualReset(p).reboot.phase == RebootInit && ManualReset(p).flags == p.flags
    ensures ManualReset(p).reset.event == p.reset.event
    ensures var q := AutoReset(p, params.maxReset);
            && q.reboot.phase == (if p.reset.resetCount < params.maxReset then RebootInit else RebootIdle)
            && q.reset.event == p.reset.event && q.flags == p.flags
  {
  }

  ghost function ResetsDone(params: Params, p: Port, env: Env): nat {
    One(Occurs(CountedReset, params, p, env)) + One(Occurs(ManualResetDone, params, p, env))
  }

  lemma TickCountsResets(params: Params, p: Port, env: Env)
    ensures Rearm(Acted(params, p, env)).reset.totalResetCount
         == Wrap8(p.reset.totalResetCount + ResetsDone(params, p, env))
  {
    hide Seen, HandleTest, HandleIdle, WaitPoweredDown, Wrap8;
    SeenChanges(p, env);
    PhaseChanges(params, Seen(p, env), env);
    Wrap8Small(p.reset.totalResetCount);
    Wrap8Add(p.reset.totalResetCount + 1, 1);
  }

  /** Alarms take no part in reboots. */
  lemma TickAfterRearm(params: Params, p: Port, env: Env)
    ensures var q := Rearm(Acted(params, p, env));
            && Tick(params, p, env).reboot == q.reboot
            && Tick(params, p, env).timeStart == q.timeStart
            && Tick(params, p, env).reset == q.reset.(errorCode := Tick(params, p, env).reset.errorCode)
  {
    hide Rearm, Acted, HandleAlarms;
    AlarmChanges(Rearm(Acted(params, p, env)), env.alarmClock);
  }

  lemma TickErrors(params: Params, p: Port, env: Env)
    ensures var before, after := Acted(params, p, env).reset.errorCode, Tick(params, p, env).reset.errorCode;
            && Verdict(after) == Verdict(before)
            && (CountedFailure(after) <==> CountedFailure(before))
            && (ErrRebooting in after <==> ErrRebooting in before)
  {
    hide Acted, HandleAlarms;
    AlarmChanges(Rearm(Acted(params, p, env)), env.alarmClock);
  }

  /** Whatever others raise: power cuts, plus a reboot still waiting, plus requests lost, are one
      more than all the reboots asked for - the one of boot is asked for by nobody. */
  lemma {:induction false} PowerCycleConservation(params: Params, config: PortConfig, envs: seq<Env>)
    ensures Times(PowerCut, params, config, envs)
            + One(After(params, config, envs).reboot.phase == RebootInit)
            + Times(Overwritten, params, config, envs)
         == 1 + Times(CountedReset, params, config, envs)
            + Times(ManualResetDone, params, config, envs)
            + Times(Rearmed, params, config, envs)
    decreases |envs|
  {
    if |envs| == 0 {
    } else {
      hide After, Times, Occurs, Rearm, Acted, Tick, Consistent;
      var front, p, env := LastTurn(params, config, envs);
      PowerCycleConservation(params, config, front);
      FlagsAgreeWithState(params, config, front);
      TickBalance(params, config, p, env);
      TickAfterRearm(params, p, env);
    }
  }

  /** The stored total is the number of resets of either kind, modulo 256. */
  lemma {:induction false} TotalCountsResets(params: Params, config: PortConfig, envs: seq<Env>)
    ensures After(params, config, envs).reset.totalResetCount
         == Wrap8(Times(CountedReset, params, config, envs) + Times(ManualResetDone, params, config, envs))
    decreases |envs|
  {
    hide After, Times, Occurs, Rearm, Acted, Tick, Wrap8;
    if |envs| == 0 {
      AtBoot(params, config, envs);
    } else {
      var front, p, env := LastTurn(params, config, envs);
      var before := Times(CountedReset, params, config, front) + Times(ManualResetDone, params, config, front);
      TotalCountsResets(params, config, front);
      TickCountsResets(params, p, env);
      TickAfterRearm(params, p, env);
      Wrap8Add(before, ResetsDone(params, p, env));
    }
  }

  /** The counted automatic resets since `manualResetHandler` last ran. */
  ghost function CountedSinceManual(params: Params, config: PortConfig, envs: seq<Env>): nat
    decreases |envs|
  {
    if |envs| == 0 then 0
    else
      var front := envs[..|envs| - 1];
      var p, env := After(params, config, front), envs[|envs| - 1];
      if Occurs(ManualResetDone, params, p, env) then 0
      else CountedSinceManual(params, config, front) + One(Occurs(CountedReset, params, p, env))
  }

  lemma ResetCountStep(params: Params, p: Port, env: Env)
    ensures Rearm(Acted(params, p, env)).reset.resetCount
         == if Occurs(ManualResetDone, params, p, env) then 0
            else p.reset.resetCount + One(Occurs(CountedReset, params, p, env))
  {
    hide Seen;
    SeenChanges(p, env);
  }

  lemma {:induction false} ResetCountIsCountedSinceManual(params: Params, config: PortConfig, envs: seq<Env>)
    ensures After(params, config, envs).reset.resetCount
         == CountedSinceManual(params, config, envs) <= params.maxReset
    decreases |envs|
  {
    FlagsAgreeWithState(params, config, envs);
    if |envs| == 0 {
    } else {
      var front := envs[..|envs| - 1];
      ResetCountIsCountedSinceManual(params, config, front);
      FlagsAgreeWithState(params, config, front);
      var p, env := After(params, config, front), envs[|envs| - 1];
      hide Tick, After, Rearm, Acted, Occurs;
      ResetCountStep(params, p, env);
      TickAfterRearm(params, p, env);
    }
  }

  /** Whether the reboot under way, if any, was asked for by a counted reset. */
  ghost predicate CountedUnderWay(params: Params, config: PortConfig, envs: seq<Env>)
    decreases |envs|
  {
    |envs| > 0 &&
    var front, env := envs[..|envs| - 1], envs[|envs| - 1];
    var p := After(params, config, front);
    || Occurs(CountedReset, params, p, env)
    || (CountedUnderWay(params, config, front) && !(p.reset.state == RebootState && p.reboot.phase == PoeUp))
  }

  lemma RebootingStep(params: Params, config: PortConfig, p: Port, env: Env)
    requires Consistent(params, config, p)
    ensures ErrRebooting in Tick(params, p, env).reset.errorCode
       <==> || Occurs(CountedReset, params, p, env)
            || (ErrRebooting in p.reset.errorCode && !(p.reset.state == RebootState && p.reboot.phase == PoeUp))
  {
    hide Tick;
    TickErrors(params, p, env);
  }

  /** ERR_REBOOTING is set exactly from a counted reset to the end of the power cycle it asked for. */
  lemma {:induction false} RebootingMarksCountedReboots(params: Params, config: PortConfig, envs: seq<Env>)
    ensures ErrRebooting in After(params, config, envs).reset.errorCode
       <==> CountedUnderWay(params, config, envs)
    decreases |envs|
  {
    if |envs| == 0 {
    } else {
      hide Tick, Occurs, Consistent;
      var front, p, env := LastTurn(params, config, envs);
      RebootingMarksCountedReboots(params, config, front);
      FlagsAgreeWithState(params, config, front);
      RebootingStep(params, config, p, env);
    }
  }

  // ---------- the program as it stands ----------

  /** What the absence of outside events adds to `Consistent`. */
  ghost predicate Undisturbed(params: Params, p: Port) {
    && p.reset.event <= {AutoRestart}
    && p.reset.totalResetCount == p.reset.resetCount
    && (p.reset.state == IdleState ==> p.reboot.phase == RebootIdle && p.reset.resetCount == params.maxReset)
  }

  lemma NothingManual(params: Params, config: PortConfig, p: Port, env: Env)
    requires Consistent(params, config, p) && Undisturbed(params, p) && env.raised == {}
    ensures !Occurs(ManualResetDone, params, p, env) && !Occurs(Rearmed, params, p, env)
    ensures !Occurs(Overwritten, params, p, env) && !Occurs(Revived, params, p, env)
    ensures p.reset.state == IdleState ==> !Occurs(PowerCut, params, p, env)
  {
    hide Seen, WaitPoweredDown;
    SeenChanges(p, env);
    PhaseChanges(params, Seen(p, env), env);
  }

  lemma TickKeepsUndisturbed(params: Params, config: PortConfig, p: Port, env: Env)
    requires Consistent(params, config, p) && Undisturbed(params, p) && env.raised == {}
    ensures Undisturbed(params, Tick(params, p, env))
    ensures p.reset.state == IdleState ==> Tick(params, p, env).reset.state == IdleState
  {
    hide Tick, Seen, WaitPoweredDown;
    SeenChanges(p, env);
    PhaseChanges(params, Seen(p, env), env);
    TickAfterRearm(params, p, env);
  }

  lemma {:induction false} ClosedRun(params: Params, config: PortConfig, envs: seq<Env>)
    requires Closed(envs)
    ensures Undisturbed(params, After(params, config, envs))
    ensures Times(ManualResetDone, params, config, envs) == Times(Rearmed, params, config, envs) == 0
    ensures Times(Overwritten, params, config, envs) == Times(Revived, params, config, envs) == 0
    ensures Times(CountedReset, params, config, envs) == After(params, config, envs).reset.resetCount
    decreases |envs|
  {
    if |envs| == 0 {
    } else {
      var front := envs[..|envs| - 1];
      ClosedRun(params, config, front);
      FlagsAgreeWithState(params, config, front);
      TickKeepsUndisturbed(params, config, After(params, config, front), envs[|envs| - 1]);
      NothingManual(params, config, After(params, config, front), envs[|envs| - 1]);
      ResetCountIsCountedSinceManual(params, config, envs);
      ResetCountIsCountedSinceManual(params, config, front);
    }
  }

  /** In the program as it stands: every reboot but the first is counted, the stored total equals
      the reset counter, and a port is never switched off more than `max_reset + 1` times. */
  lemma ClosedPowerCycles(params: Params, config: PortConfig, envs: seq<Env>)
    requires Closed(envs)
    ensures var p := After(params, config, envs);
            && Times(PowerCut, params, config, envs) + One(p.reboot.phase == RebootInit)
               == 1 + p.reset.totalResetCount
            && p.reset.totalResetCount == p.reset.resetCount <= params.maxReset
    ensures Times(PowerCut, params, config, envs) <= params.maxReset + 1
  {
    FlagsAgreeWithState(params, config, envs);
    ClosedRun(params, config, envs);
    PowerCycleConservation(params, config, envs);
  }
}

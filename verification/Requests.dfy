/** What requests do: how long they stay pending, what they cannot do, and how manual ones can keep a
    reboot from ever ending. */
module Requests {
  import opened PortTypes
  import opened PortSpec
  import opened Runs
  import opened Turns
  import opened FailureCounter
  import opened Liveness
  import opened Shutdown

  /** An automatic request stays pending until a reboot can start, and each trip of the counter
      makes one. */
  lemma AutoRequestPending(params: Params, p: Port, env: Env)
    ensures AutoRestart in Tick(params, p, env).reset.event
       <==> || ((AutoRestart in p.reset.event || AutoRestart in env.raised)
                && !(p.reset.state == RebootState && p.reboot.phase == RebootIdle))
            || (p.reset.state == RegularState && Tick(params, p, env).reset.state == RebootState)
  {
    hide Tick, Seen;
    EventsAfterTurn(params, p, env);
    StateAfterTurn(params, p, env);
  }

  /** A manual request stays pending exactly while the port or its PoE is disabled, except that
      the end of a power cycle discards it. */
  lemma ManualRequestPending(params: Params, p: Port, env: Env)
    ensures ManualRestart in Tick(params, p, env).reset.event
       <==> && (ManualRestart in p.reset.event || ManualRestart in env.raised)
            && !(env.flags.portEnabled && env.flags.poeEnabled)
            && !(p.reset.state == RebootState && p.reboot.phase == PoeUp)
  {
    hide Tick, Seen;
    EventsAfterTurn(params, p, env);
  }

  /** A shut-down port comes back exactly when a passed test is reported from outside. */
  lemma OnlyTestOkRevives(params: Params, p: Port, env: Env)
    requires p.reset.state == IdleState
    ensures var q := Tick(params, p, env);
            && (q.reset.state == RegularState <==> TestOk in p.reset.event || TestOk in env.raised)
            && (q.reset.state != RegularState ==> q.reset.state == IdleState)
            && q.reset.resetCount == p.reset.resetCount && q.reset.errorTestCount == p.reset.errorTestCount
  {
    hide Tick, Seen;
    SeenChanges(p, env);
    TickAfterRearm(params, p, env);
  }

  // ---------- a manual request on every turn ----------

  ghost predicate Nags(env: Env) {
    ManualRestart in env.raised && env.flags.portEnabled && env.flags.poeEnabled
  }

  ghost predicate AtStartOfReboot(p: Port) {
    p.reset.state == RebootState && p.reboot.phase == RebootInit
  }

  lemma NaggingStep(params: Params, p: Port, env: Env)
    requires AtStartOfReboot(p) && Nags(env)
    ensures AtStartOfReboot(Tick(params, p, env)) && Occurs(Rearmed, params, p, env)
    ensures !Occurs(PowerBack, params, p, env)
  {
    hide Tick, Seen;
    SeenChanges(p, env);
    TickAfterRearm(params, p, env);
  }

  /** Requests granted on every turn put a reboot that has been asked for back to its start for
      ever: REBOOT_STATE is not left, and power does not come back. */
  lemma {:induction false} NaggingStarvesTheReboot(params: Params, config: PortConfig, envs: seq<Env>, more: seq<Env>)
    requires AtStartOfReboot(After(params, config, envs))
    requires forall i :: 0 <= i < |more| ==> Nags(more[i])
    ensures AtStartOfReboot(After(params, config, envs + more))
    ensures Times(PowerBack, params, config, envs + more) == Times(PowerBack, params, config, envs)
    decreases |more|
  {
    hide Tick, Occurs, After, Times, AtStartOfReboot, Nags;
    if |more| == 0 {
      assert envs + more == envs;
    } else {
      var front, p, env := LastTurn(params, config, envs + more);
      assert front == (envs + more)[..|envs + more| - 1] == envs + more[..|more| - 1];
      assert env == (envs + more)[|envs + more| - 1] == more[|more| - 1];
      NaggingStarvesTheReboot(params, config, envs, more[..|more| - 1]);
      NaggingStep(params, p, env);
    }
  }

  /** A dead device in link mode whose user asks for a restart on every turn. */
  function NaggedLink(turns: nat): seq<Env> {
    seq(turns, i requires 0 <= i =>
      Env(true, PortFlags(true, true), false, false, false, {ManualRestart}, None, None, i, i, i))
  }

  lemma NaggedLinkFacts(params: Params, turns: nat)
    requires turns > 0
    ensures var p, env := After(params, LINK_MODE, NaggedLink(turns - 1)), NaggedLink(turns)[turns - 1];
            && After(params, LINK_MODE, NaggedLink(turns)) == Tick(params, p, env)
            && Times(PowerBack, params, LINK_MODE, NaggedLink(turns))
               == Times(PowerBack, params, LINK_MODE, NaggedLink(turns - 1)) + One(Occurs(PowerBack, params, p, env))
            && Nags(env) && Verdict(Seen(p, env).reset.errorCode) == 1
  {
    hide After, Tick, Verdict, Seen, Times, Occurs;
    var envs := NaggedLink(turns);
    var front, p, env := LastTurn(params, LINK_MODE, envs);
    assert front == envs[..turns - 1] == NaggedLink(turns - 1) && env == envs[turns - 1];
    FlagsAgreeWithState(params, LINK_MODE, front);
    ConsistentConfig(params, LINK_MODE, p);
    FailingVerdict(p, env);
  }

  lemma NaggedFailure(params: Params, p: Port, env: Env)
    requires p.reset.state == RegularState && p.reboot.phase == RebootInit && Nags(env)
    requires Verdict(Seen(p, env).reset.errorCode) == 1
    requires p.reset.errorTestCount < Patience(params.testNum)
    ensures var q := Tick(params, p, env);
            && q.reboot.phase == RebootInit && q.reset.errorTestCount == p.reset.errorTestCount + 1
            && q.reset.state == (if p.reset.errorTestCount + 1 < Patience(params.testNum)
                                 then RegularState else RebootState)
    ensures !Occurs(PowerBack, params, p, env)
  {
    hide Tick, Seen, Verdict;
    SeenChanges(p, env);
    TickAfterRearm(params, p, env);
  }

  /** The reboot of this device begins on turn `Patience(test_num)` and never ends, although the
      clock gains a second on every turn. */
  lemma {:induction false} NaggedReboot(params: Params, turns: nat)
    ensures var p := After(params, LINK_MODE, NaggedLink(turns));
            if turns < Patience(params.testNum) then
              p.reset.state == RegularState && p.reboot.phase == RebootInit && p.reset.errorTestCount == turns
            else AtStartOfReboot(p)
    ensures Times(PowerBack, params, LINK_MODE, NaggedLink(turns)) == 0
    decreases turns
  {
    if turns == 0 {
    } else {
      hide After, Tick, Verdict, Seen, Nags, Occurs, Times;
      NaggedLinkFacts(params, turns);
      NaggedReboot(params, turns - 1);
      var p, env := After(params, LINK_MODE, NaggedLink(turns - 1)), NaggedLink(turns)[turns - 1];
      if turns <= Patience(params.testNum) {
        NaggedFailure(params, p, env);
      } else {
        NaggingStep(params, p, env);
      }
    }
  }

  lemma NaggedClock(turns: nat)
    requires turns + REBOOT_DELAY <= 0x1_0000_0000
    ensures ClockInOrder(NaggedLink(turns))
  {
  }

  // ---------- how many requests make the counter wrap ----------

  function FailingTurn(clock: nat, raised: set<ArEvent>): Env {
    Env(true, PortFlags(true, true), false, false, false, raised, None, None,
        clock, clock + REBOOT_DELAY, clock + REBOOT_DELAY)
  }

  /** Between two reboots of a dead device, the counter beyond `test_num`. */
  ghost predicate BetweenReboots(params: Params, envs: seq<Env>) {
    var p := After(params, LINK_MODE, envs);
    && p.reset.state == RegularState && p.reboot.phase == RebootIdle
    && p.reset.errorTestCount >= params.testNum && ManualRestart !in p.reset.event
    && ClockInOrder(envs)
  }

  lemma Appended(params: Params, envs: seq<Env>, raised: set<ArEvent>) returns (longer: seq<Env>, env: Env)
    requires ClockInOrder(envs) && LastClock(envs) <= 2000
    ensures longer == envs + [env] && env == FailingTurn(LastClock(envs) + 1, raised)
    ensures ClockInOrder(longer) && LastClock(longer) == LastClock(envs) + 1
    ensures After(params, LINK_MODE, longer) == Tick(params, After(params, LINK_MODE, envs), env)
    ensures forall h :: Times(h, params, LINK_MODE, longer)
                     == Times(h, params, LINK_MODE, envs)
                        + One(Occurs(h, params, After(params, LINK_MODE, envs), env))
    ensures Verdict(Seen(After(params, LINK_MODE, envs), env).reset.errorCode) == 1
    ensures Consistent(params, LINK_MODE, After(params, LINK_MODE, envs))
  {
    hide After, Tick, Verdict, Seen, Times, Occurs;
    env := FailingTurn(LastClock(envs) + 1, raised);
    longer := envs + [env];
    var front, p, e := LastTurn(params, LINK_MODE, longer);
    assert front == longer[..|longer| - 1] == envs && e == longer[|longer| - 1] == env;
    FlagsAgreeWithState(params, LINK_MODE, envs);
    ConsistentConfig(params, LINK_MODE, p);
    FailingVerdict(p, env);
    if |envs| > 0 {
      assert longer[|envs| - 1] == envs[|envs| - 1];
    }
  }

  /** A trip of the counter with a manual request: the reboot that it starts is not counted. */
  lemma TripAndRearm(params: Params, config: PortConfig, p: Port, env: Env)
    requires Consistent(params, config, p) && p.reset.state == RegularState && p.reboot.phase == RebootIdle
    requires params.testNum <= p.reset.errorTestCount < 255
    requires Verdict(Seen(p, env).reset.errorCode) == 1 && Nags(env) && env.raised == {ManualRestart}
    ensures var q := Tick(params, p, env);
            AtStartOfReboot(q) && q.reset.errorTestCount == p.reset.errorTestCount + 1
            && ManualRestart !in q.reset.event
    ensures Occurs(Rearmed, params, p, env) && !Occurs(Revived, params, p, env)
  {
    hide Tick, Seen, Verdict;
    SeenChanges(p, env);
    TickAfterRearm(params, p, env);
  }

  /** A turn of the power cycle, on a clock that lets the delay pass between its two readings. */
  lemma FastCycleTurn(params: Params, config: PortConfig, p: Port, env: Env)
    requires Consistent(params, config, p) && p.reset.state == RebootState && p.reboot.phase != RebootIdle
    requires p.reboot.phase == PoeDown ==> RebootStart in p.reboot.event
    requires ManualRestart !in p.reset.event && env.raised == {}
    requires env.checkClock == env.armClock + REBOOT_DELAY < 0x1_0000_0000
    ensures var q := Tick(params, p, env);
            && q.reset.errorTestCount == p.reset.errorTestCount && ManualRestart !in q.reset.event
            && q.reset.state == (if p.reboot.phase == PoeUp then RegularState else RebootState)
            && q.reboot.phase == (match p.reboot.phase
                                  case RebootInit => PoeDown
                                  case PoeDown => PoeUp
                                  case _ => RebootIdle)
            && (q.reboot.phase == PoeDown ==> RebootStart in q.reboot.event)
    ensures !Occurs(Rearmed, params, p, env) && !Occurs(Revived, params, p, env)
  {
    hide Tick, Seen;
    SeenChanges(p, env);
    TickAfterRearm(params, p, env);
  }

  /** One uncounted reboot more: the counter goes up by one. */
  lemma OneRearmMore(params: Params, envs: seq<Env>) returns (longer: seq<Env>)
    requires BetweenReboots(params, envs) && LastClock(envs) <= 1990
    requires After(params, LINK_MODE, envs).reset.errorTestCount < 255
    ensures BetweenReboots(params, longer) && LastClock(longer) == LastClock(envs) + 4
    ensures After(params, LINK_MODE, longer).reset.errorTestCount
         == After(params, LINK_MODE, envs).reset.errorTestCount + 1
    ensures Times(Rearmed, params, LINK_MODE, longer) == Times(Rearmed, params, LINK_MODE, envs) + 1
    ensures Times(Revived, params, LINK_MODE, longer) == Times(Revived, params, LINK_MODE, envs)
  {
    hide After, Tick, Verdict, Seen, Times, Occurs, Consistent, ClockInOrder;
    var env;
    var start := envs;
    longer, env := Appended(params, start, {ManualRestart});
    TripAndRearm(params, LINK_MODE, After(params, LINK_MODE, start), env);
    start := longer;
    longer, env := Appended(params, start, {});
    FastCycleTurn(params, LINK_MODE, After(params, LINK_MODE, start), env);
    start := longer;
    longer, env := Appended(params, start, {});
    FastCycleTurn(params, LINK_MODE, After(params, LINK_MODE, start), env);
    start := longer;
    longer, env := Appended(params, start, {});
    FastCycleTurn(params, LINK_MODE, After(params, LINK_MODE, start), env);
  }

  lemma ManyRearms(params: Params, rearms: nat) returns (envs: seq<Env>)
    requires 1 <= params.testNum && params.testNum + rearms <= 255
    ensures BetweenReboots(params, envs) && LastClock(envs) <= 300 + 4 * rearms
    ensures After(params, LINK_MODE, envs).reset.errorTestCount == params.testNum + rearms
    ensures Times(Rearmed, params, LINK_MODE, envs) == rearms && Times(Revived, params, LINK_MODE, envs) == 0
  {
    hide After, Times, ClockInOrder;
    if rearms == 0 {
      envs := DeadLink(params.testNum + REBOOT_DELAY + 3);
      FirstCycleRun(params, |envs|);
      DeadLinkIsAiling(|envs|);
      ClosedRun(params, LINK_MODE, envs);
    } else {
      var shorter := ManyRearms(params, rearms - 1);
      envs := OneRearmMore(params, shorter);
    }
  }

  /** The budget of `FewRequestsLoseNoFailure` is tight: for every `test_num` from 1 there is a run
      with an orderly clock that exceeds it by one, and on which the next failure is lost. */
  lemma RequestBudgetIsTight(params: Params) returns (envs: seq<Env>, env: Env)
    requires 1 <= params.testNum
    ensures ClockInOrder(envs + [env])
    ensures Patience(params.testNum) + Times(Rearmed, params, LINK_MODE, envs + [env])
            + Times(Revived, params, LINK_MODE, envs + [env]) == 255
    ensures Times(FailureLost, params, LINK_MODE, envs + [env]) > 0
  {
    hide After, Times, Tick, ClockInOrder, Verdict;
    envs := ManyRearms(params, 255 - params.testNum);
    var longer;
    longer, env := Appended(params, envs, {});
    var p := After(params, LINK_MODE, envs);
    SeenChanges(p, env);
    assert Occurs(FailureLost, params, p, env);
    assert !Occurs(Rearmed, params, p, env) && !Occurs(Revived, params, p, env);
  }
}

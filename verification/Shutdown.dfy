/** The fate of a port whose polls fail, to the turn; and of a port whose polls pass. */
module Shutdown {
  import opened Integers
  import opened PortTypes
  import opened PortSpec
  import opened Runs
  import opened FailureCounter
  import opened Liveness

  /** Failing polls until a port with the counter at `count` starts a reboot. A counter at its
      eight-bit limit starts over from zero. */
  function FailsToTrip(testNum: uint8, count: uint8): nat {
    if count == 255 && testNum > 0 then 1 + testNum
    else if count + 1 >= testNum then 1
    else testNum - count
  }

  function CycleLength(params: Params): nat {
    Patience(params.testNum) + REBOOT_DELAY + 4
  }

  /** The turns from boot to shutdown if every poll fails and the clock gains one second a turn:
      the uncounted reboot, `max_reset` counted ones, and the turn that refuses another. */
  function TurnsToShutdown(params: Params): nat {
    Patience(params.testNum) + REBOOT_DELAY + 3
    + FailsToTrip(params.testNum, Patience(params.testNum)) + 1
    + params.maxReset * CycleLength(params)
  }

  // ---------- the measure ----------

  ghost function Tail(params: Params, p: Port): nat
    requires p.reset.resetCount <= params.maxReset
  {
    1 + (params.maxReset - p.reset.resetCount) * CycleLength(params)
  }

  /** The turns that are left to a port whose polls all fail. */
  ghost function Rank(params: Params, p: Port, last: int): int
    requires p.reset.resetCount <= params.maxReset
  {
    var t, c := params.testNum, p.reset.errorTestCount;
    match p.reset.state
    case IdleState => 0
    case RegularState =>
      if p.reboot.phase == RebootInit then
        FailsToTrip(t, c) + REBOOT_DELAY + 3 + FailsToTrip(t, Patience(t)) + Tail(params, p)
      else FailsToTrip(t, c) + Tail(params, p)
    case RebootState =>
      if p.reboot.phase == RebootIdle then Tail(params, p)
      else TurnsToReboot(p, last) + FailsToTrip(t, c) + Tail(params, p)
  }

  /** The counter on a run of the program as it stands. */
  ghost predicate CountInOrder(params: Params, p: Port) {
    var c, m := p.reset.errorTestCount, Patience(params.testNum);
    && (p.reset.state == RegularState && p.reboot.phase == RebootInit ==> c < m)
    && (p.reset.state == RegularState && m <= 254 ==> c <= m)
    && (p.reset.state == RebootState && p.reboot.phase != RebootIdle ==> c <= m)
    && (m <= 254 ==> c <= m + 1)
  }

  lemma CountStep(params: Params, config: PortConfig, p: Port, env: Env)
    requires Consistent(params, config, p) && Undisturbed(params, p) && env.raised == {}
    requires CountInOrder(params, p)
    ensures CountInOrder(params, Tick(params, p, env))
  {
    hide Tick, Seen;
    SeenChanges(p, env);
    TickAfterRearm(params, p, env);
  }

  /** A run of the program as it stands, with an orderly clock. */
  ghost predicate Orderly(envs: seq<Env>) {
    Closed(envs) && ClockInOrder(envs)
  }

  lemma OrderlyFront(envs: seq<Env>, front: seq<Env>, env: Env)
    requires Orderly(envs) && envs == front + [env]
    ensures Orderly(front) && env.raised == {} && NextReading(LastClock(front), env)
    ensures LastClock(envs) == env.armClock
  {
    assert envs[|front|] == env && front == envs[..|front|];
    ClockFront(envs, front, env);
  }

  /** A reset is counted: the next cycle is one shorter. */
  lemma TailStep(params: Params, r: nat)
    requires r < params.maxReset
    ensures (params.maxReset - r) * CycleLength(params)
         == CycleLength(params) + (params.maxReset - (r + 1)) * CycleLength(params)
  {
  }

  ghost predicate Nearer(params: Params, p: Port, last: int, q: Port, env: Env)
    requires p.reset.resetCount <= params.maxReset && q.reset.resetCount <= params.maxReset
  {
    && 0 <= Rank(params, q, env.armClock) < Rank(params, p, last)
    && (q.reset.state == IdleState <==> Rank(params, q, env.armClock) == 0)
    && (env.checkClock == env.armClock == last + 1 ==>
          Rank(params, q, env.armClock) == Rank(params, p, last) - 1)
  }

  /** A failure in REGULAR_STATE: one poll less until the counter trips. */
  lemma FailureStep(params: Params, p: Port, env: Env)
    requires p.reset.state == RegularState && p.reboot.phase in {RebootIdle, RebootInit}
    requires Verdict(Seen(p, env).reset.errorCode) == 1 && env.raised == {} && p.reset.event <= {AutoRestart}
    ensures var q := Tick(params, p, env);
            && q.reboot == p.reboot && q.reset.resetCount == p.reset.resetCount
            && q.reset.errorTestCount == Wrap8(p.reset.errorTestCount + 1)
            && q.reset.state == if FailsToTrip(params.testNum, p.reset.errorTestCount) == 1
                                then RebootState else RegularState
  {
    hide Tick, Seen, Verdict;
    SeenChanges(p, env);
    TickAfterRearm(params, p, env);
  }

  /** The waiting request of a reboot is granted or, at the limit, refused. */
  lemma RequestStep(params: Params, p: Port, env: Env)
    requires p.reset.state == RebootState && p.reboot.phase == RebootIdle && AutoRestart in p.reset.event
    requires env.raised == {} && p.reset.event <= {AutoRestart} && p.reset.resetCount <= params.maxReset
    ensures var q := Tick(params, p, env);
            if p.reset.resetCount == params.maxReset then
              q.reset.state == IdleState && q.reset.resetCount == params.maxReset
            else
              && q.reset.state == RebootState && q.reboot.phase == RebootInit
              && q.reset.errorTestCount == 0 && q.reset.resetCount == p.reset.resetCount + 1
    ensures ErrOk !in Tick(params, p, env).reset.errorCode
  {
    hide Tick, Seen;
    SeenChanges(p, env);
    TickAfterRearm(params, p, env);
    TickErrors(params, p, env);
  }

  /** While power is being cycled the counters stand still. */
  lemma CyclingStep(params: Params, p: Port, env: Env)
    requires p.reset.state == RebootState && p.reboot.phase != RebootIdle
    requires env.raised == {} && p.reset.event <= {AutoRestart}
    ensures var q := Tick(params, p, env);
            && q.reset.errorTestCount == p.reset.errorTestCount && q.reset.resetCount == p.reset.resetCount
            && q.reset.state == (if p.reboot.phase == PoeUp then RegularState else RebootState)
            && (q.reboot.phase == RebootIdle <==> p.reboot.phase == PoeUp)
  {
    hide Tick, Seen;
    SeenChanges(p, env);
    TickAfterRearm(params, p, env);
  }

  /** A failing turn brings the shutdown nearer, by exactly one turn if the clock is steady. */
  lemma RankStep(params: Params, config: PortConfig, p: Port, last: int, env: Env)
    requires Settled(params, config, p, last) && NextReading(last, env) && CountInOrder(params, p)
    requires Undisturbed(params, p) && env.raised == {}
    requires Verdict(Seen(p, env).reset.errorCode) == 1
    requires p.reset.state != IdleState
    ensures Tick(params, p, env).reset.resetCount <= params.maxReset
    ensures Nearer(params, p, last, Tick(params, p, env), env)
  {
    hide Tick, Seen, CycleLength, Verdict, Occurs;
    RebootStep(params, config, p, last, env);
    NothingManual(params, config, p, env);
    WaitingStep(params, config, p, last, env);
    if p.reset.state == RegularState {
      FailureStep(params, p, env);
    } else if p.reboot.phase == RebootIdle {
      RequestStep(params, p, env);
      RequestRank(params, p, last, Tick(params, p, env), env);
    } else {
      CyclingStep(params, p, env);
    }
  }

  lemma RequestRank(params: Params, p: Port, last: int, q: Port, env: Env)
    requires p.reset.state == RebootState && p.reboot.phase == RebootIdle
    requires p.reset.resetCount <= params.maxReset
    requires if p.reset.resetCount == params.maxReset then
               q.reset.state == IdleState && q.reset.resetCount == params.maxReset
             else
               && q.reset.state == RebootState && q.reboot.phase == RebootInit
               && q.reset.errorTestCount == 0 && q.reset.resetCount == p.reset.resetCount + 1
    ensures Nearer(params, p, last, q, env)
  {
    if p.reset.resetCount < params.maxReset {
      TailStep(params, p.reset.resetCount);
    }
  }

  // ---------- a port whose polls fail ----------

  predicate FailingPoll(testType: TestType, env: Env) {
    env.gateOpen && testType in {TestLink, TestPing, TestSpeed} && !Passes(testType, env)
  }

  /** The first poll fails, and no later one passes: it fails too, or the gate is closed. */
  ghost predicate Ailing(testType: TestType, more: seq<Env>) {
    && (|more| > 0 ==> FailingPoll(testType, more[0]))
    && (forall i :: 0 <= i < |more| ==> FailingPoll(testType, more[i]) || !more[i].gateOpen)
  }

  lemma VerdictKept(params: Params, p: Port, env: Env)
    requires Verdict(Seen(p, env).reset.errorCode) == 1
    ensures Verdict(Tick(params, p, env).reset.errorCode) == 1
  {
    hide Seen, Tick;
    TickErrors(params, p, env);
  }

  /** The port as the last of the turns `more` finds it. */
  lemma LastOf(params: Params, config: PortConfig, envs: seq<Env>, more: seq<Env>)
    returns (front: seq<Env>, p: Port, env: Env)
    requires |more| > 0
    ensures more == front + [env] && front == more[..|more| - 1] && env == more[|more| - 1]
    ensures p == After(params, config, envs + front)
    ensures After(params, config, envs + more) == Tick(params, p, env)
    ensures Orderly(envs + more) ==>
              && Orderly(envs + front) && env.raised == {} && NextReading(LastClock(envs + front), env)
              && LastClock(envs + more) == env.armClock
    ensures forall testType :: Ailing(testType, more) ==> Ailing(testType, front)
  {
    hide After, Tick, Orderly;
    front, env := more[..|more| - 1], more[|more| - 1];
    var before, q, e := LastTurn(params, config, envs + more);
    assert envs + more == (envs + front) + [env];
    assert before == (before + [e])[..|before|] == (envs + front + [env])[..|envs + front|] == envs + front;
    p := q;
    if Orderly(envs + more) {
      OrderlyFront(envs + more, envs + front, env);
    }
  }

  /** While a port is ailing the handlers always find a failure, stale or new. */
  lemma {:induction false} AilingVerdict(params: Params, config: PortConfig, envs: seq<Env>, more: seq<Env>)
    requires Ailing(config.testType, more) && |more| > 0
    ensures Verdict(Seen(After(params, config, envs + more[..|more| - 1]), more[|more| - 1]).reset.errorCode) == 1
    decreases |more|
  {
    hide Tick, Verdict, Seen, Consistent, FailingPoll, After;
    var front, p, env := LastOf(params, config, envs, more);
    FlagsAgreeWithState(params, config, envs + front);
    ConsistentConfig(params, config, p);
    if FailingPoll(config.testType, env) {
      FailingVerdict(p, env);
    } else {
      AilingVerdict(params, config, envs, front);
      var front', p', env' := LastOf(params, config, envs, front);
      VerdictKept(params, p', env');
      GatedVerdictStands(p, env);
    }
  }

  lemma ConsistentConfig(params: Params, config: PortConfig, p: Port)
    requires Consistent(params, config, p)
    ensures p.config.testType == config.testType
  {
  }

  lemma FailingVerdict(p: Port, env: Env)
    requires FailingPoll(p.config.testType, env)
    ensures Verdict(Seen(p, env).reset.errorCode) == 1
  {
    VerdictsAreFaithful(p, env);
  }

  /** Every turn begins one second after the one before it and reads one clock value; from boot,
      whatever the clock shows on the first turn. */
  ghost predicate Steady(envs: seq<Env>, more: seq<Env>) {
    && (forall i :: 0 <= i < |more| ==> more[i].armClock == more[i].checkClock)
    && (forall i, j :: 0 <= i && j == i + 1 < |more| ==> more[j].armClock == more[i].armClock + 1)
    && (|envs| > 0 && |more| > 0 ==> more[0].armClock == LastClock(envs) + 1)
  }

  /** The clock reading of the turn before `env`; boot counts as a second before the first turn. */
  ghost function Before(front: seq<Env>, env: Env): int {
    if |front| == 0 then env.armClock - 1 else LastClock(front)
  }

  lemma SteadyFront(envs: seq<Env>, front: seq<Env>, env: Env)
    requires Steady(envs, front + [env])
    ensures Steady(envs, front) && env.checkClock == env.armClock == Before(envs + front, env) + 1
  {
    var more := front + [env];
    assert more[|front|] == env;
    assert forall i :: 0 <= i < |front| ==> front[i] == more[i];
    if |front| > 0 {
      assert (envs + front)[|envs + front| - 1] == front[|front| - 1] == more[|front| - 1];
    } else {
      assert envs + front == envs;
    }
  }

  /** What holds between two turns of an orderly run of the program as it stands. */
  ghost predicate InOrder(params: Params, config: PortConfig, p: Port, last: int) {
    Settled(params, config, p, last) && Undisturbed(params, p) && CountInOrder(params, p)
  }

  lemma RunInOrder(params: Params, config: PortConfig, envs: seq<Env>)
    requires Orderly(envs)
    ensures InOrder(params, config, After(params, config, envs), LastClock(envs))
  {
    RunIsSettled(params, config, envs);
    ClosedRun(params, config, envs);
    ClosedCounter(params, config, envs);
  }

  /** No reachable state is further from shutdown than the state of boot. */
  lemma RankIsBounded(params: Params, config: PortConfig, p: Port, last: int)
    requires InOrder(params, config, p, last)
    ensures p.reset.resetCount <= params.maxReset
    ensures Rank(params, p, last) <= TurnsToShutdown(params)
    ensures p.reset.state != IdleState ==> 1 <= Rank(params, p, last)
  {
    hide CycleLength;
    TailBound(params, p.reset.resetCount);
  }

  lemma TailBound(params: Params, r: nat)
    requires r <= params.maxReset
    ensures 0 <= (params.maxReset - r) * CycleLength(params) <= params.maxReset * CycleLength(params)
  {
    assert params.maxReset * CycleLength(params)
        == (params.maxReset - r) * CycleLength(params) + r * CycleLength(params);
  }

  /** After `turns` ailing turns: shut down, or as much nearer to it as turns went by. */
  ghost predicate OnSchedule(params: Params, start: int, turns: nat, p: Port, last: int, steady: bool)
    requires p.reset.resetCount <= params.maxReset
  {
    if p.reset.state == IdleState then steady ==> turns >= start
    else
      && 1 <= Rank(params, p, last) <= start - turns
      && (steady ==> Rank(params, p, last) == start - turns)
  }

  ghost function RankAfter(params: Params, config: PortConfig, envs: seq<Env>): int {
    FlagsAgreeWithState(params, config, envs);
    Rank(params, After(params, config, envs), LastClock(envs))
  }

  lemma {:induction false} AilingRun(params: Params, config: PortConfig, envs: seq<Env>, more: seq<Env>)
    requires Orderly(envs + more) && Ailing(config.testType, more)
    ensures var p := After(params, config, envs + more);
            p.reset.resetCount <= params.maxReset
            && OnSchedule(params, RankAfter(params, config, envs), |more|, p, LastClock(envs + more),
                          Steady(envs, more))
    decreases |more|
  {
    hide Tick, InOrder, Rank, Verdict, Orderly, Seen, After, Steady, Ailing, Before, NextReading;
    RunInOrder(params, config, envs + more);
    RankIsBounded(params, config, After(params, config, envs + more), LastClock(envs + more));
    if |more| == 0 {
      assert envs + more == envs;
      OnScheduleAtStart(params, config, envs);
    } else {
      var front, p, env := LastOf(params, config, envs, more);
      AilingRun(params, config, envs, front);
      AilingVerdict(params, config, envs, more);
      InOrderBefore(params, config, envs + front, env);
      AilingTurn(params, config, envs, front, p, env, RankAfter(params, config, envs));
    }
  }

  /** The measure at boot does not depend on the clock. */
  lemma InOrderBefore(params: Params, config: PortConfig, front: seq<Env>, env: Env)
    requires Orderly(front) && NextReading(LastClock(front), env)
    ensures InOrder(params, config, After(params, config, front), Before(front, env))
    ensures NextReading(Before(front, env), env)
    ensures After(params, config, front).reset.resetCount <= params.maxReset
    ensures Rank(params, After(params, config, front), Before(front, env)) == RankAfter(params, config, front)
  {
    RunInOrder(params, config, front);
  }

  lemma OnScheduleAtStart(params: Params, config: PortConfig, envs: seq<Env>)
    requires InOrder(params, config, After(params, config, envs), LastClock(envs))
    requires After(params, config, envs).reset.resetCount <= params.maxReset
    ensures OnSchedule(params, RankAfter(params, config, envs), 0, After(params, config, envs), LastClock(envs), true)
    ensures OnSchedule(params, RankAfter(params, config, envs), 0, After(params, config, envs), LastClock(envs), false)
  {
    hide After, InOrder;
    RankIsBounded(params, config, After(params, config, envs), LastClock(envs));
  }

  lemma AilingTurn(params: Params, config: PortConfig, envs: seq<Env>, front: seq<Env>, p: Port, env: Env, start: int)
    requires InOrder(params, config, p, Before(envs + front, env)) && NextReading(Before(envs + front, env), env)
    requires env.raised == {} && Verdict(Seen(p, env).reset.errorCode) == 1
    requires p.reset.resetCount <= params.maxReset
    requires OnSchedule(params, start, |front|, p, Before(envs + front, env), Steady(envs, front))
    ensures var q := Tick(params, p, env);
            q.reset.resetCount <= params.maxReset
            && OnSchedule(params, start, |front| + 1, q, env.armClock, Steady(envs, front + [env]))
  {
    hide Tick, Consistent, Waiting, Rank, CountInOrder, Verdict, Seen, NextReading, Steady, Before;
    if Steady(envs, front + [env]) {
      SteadyFront(envs, front, env);
    }
    if p.reset.state == IdleState {
      TickKeepsUndisturbed(params, config, p, env);
      ResetLimit(params, config, p, env);
    } else {
      RankStep(params, config, p, Before(envs + front, env), env);
    }
  }

  lemma ResetLimit(params: Params, config: PortConfig, p: Port, env: Env)
    requires Consistent(params, config, p)
    ensures Tick(params, p, env).reset.resetCount <= params.maxReset
  {
    hide Tick;
    TickKeepsConsistent(params, config, p, env);
  }

  /** From every state that the program as it stands can reach, whatever the polls were so far: an
      ailing port is shut down within `TurnsToShutdown` turns, for every `test_num` and
      `max_reset`, and by then its power was cycled exactly `max_reset + 1` times. */
  lemma AilingPortIsShutDown(params: Params, config: PortConfig, envs: seq<Env>, more: seq<Env>)
    requires Orderly(envs + more) && Ailing(config.testType, more)
    requires |more| >= TurnsToShutdown(params)
    ensures var p := After(params, config, envs + more);
            p.reset.state == IdleState && ErrPortShutdown in p.reset.errorCode
    ensures Times(PowerCut, params, config, envs + more) == params.maxReset + 1
  {
    hide After, Times, Rank, TurnsToShutdown, CountInOrder, Waiting, Ailing;
    AilingRun(params, config, envs, more);
    OrderlyStart(envs, more);
    RunInOrder(params, config, envs);
    RankIsBounded(params, config, After(params, config, envs), LastClock(envs));
    FlagsAgreeWithState(params, config, envs + more);
    ClosedRun(params, config, envs + more);
    ClosedPowerCycles(params, config, envs + more);
  }

  lemma OrderlyStart(envs: seq<Env>, more: seq<Env>)
    requires Orderly(envs + more)
    ensures Orderly(envs)
  {
    assert envs == (envs + more)[..|envs|];
    ClockPrefix(envs + more, |envs|);
  }

  /** The measure is exact: with a steady clock the port is shut down on the turn that it names
      and not before. */
  lemma ShutdownTurnIsExact(params: Params, config: PortConfig, envs: seq<Env>, more: seq<Env>)
    requires Orderly(envs + more) && Ailing(config.testType, more) && Steady(envs, more)
    ensures After(params, config, envs + more).reset.state == IdleState
       <==> |more| >= RankAfter(params, config, envs)
  {
    hide After, Rank, Ailing, Orderly, Steady;
    AilingRun(params, config, envs, more);
  }

  /** From boot that is turn `TurnsToShutdown`, whatever the clock shows on the first turn. */
  lemma ShutdownTurnFromBoot(params: Params, config: PortConfig, envs: seq<Env>)
    requires Orderly(envs) && Ailing(config.testType, envs) && Steady([], envs)
    ensures After(params, config, envs).reset.state == IdleState <==> |envs| >= TurnsToShutdown(params)
  {
    hide After, Rank, TurnsToShutdown, Ailing, Orderly, Steady;
    assert [] + envs == envs;
    ShutdownTurnIsExact(params, config, [], envs);
    RankAtBoot(params, config);
  }

  lemma RankAtBoot(params: Params, config: PortConfig)
    ensures RankAfter(params, config, []) == TurnsToShutdown(params)
  {
  }

  /** Shutdown is final: no later poll, passing or not, brings the port back or cycles its power. */
  lemma {:induction false} ShutdownIsFinal(params: Params, config: PortConfig, envs: seq<Env>, more: seq<Env>)
    requires Closed(envs + more) && After(params, config, envs).reset.state == IdleState
    ensures After(params, config, envs + more).reset.state == IdleState
    ensures Times(PowerCut, params, config, envs + more) == Times(PowerCut, params, config, envs)
    decreases |more|
  {
    hide After, Times, Tick, Occurs, Consistent, Undisturbed;
    if |more| == 0 {
      assert envs + more == envs;
    } else {
      var front, p, env := LastTurn(params, config, envs + more);
      assert front == (envs + more)[..|envs + more| - 1] == envs + more[..|more| - 1];
      ShutdownIsFinal(params, config, envs, more[..|more| - 1]);
      FlagsAgreeWithState(params, config, front);
      ClosedRun(params, config, front);
      TickKeepsUndisturbed(params, config, p, env);
      NothingManual(params, config, p, env);
    }
  }

  // ---------- the eight bits of the counter ----------

  /** In the program as it stands the counter never exceeds `test_num + 1` (2 for a `test_num` of
      0), so for every `test_num` up to 254 each failure is counted without wrapping. */
  lemma {:induction false} ClosedCounter(params: Params, config: PortConfig, envs: seq<Env>)
    requires Closed(envs)
    ensures CountInOrder(params, After(params, config, envs))
    ensures params.testNum <= 254 ==>
              After(params, config, envs).reset.errorTestCount <= Patience(params.testNum) + 1
    ensures params.testNum <= 254 ==> Times(FailureLost, params, config, envs) == 0
    decreases |envs|
  {
    hide Consistent, Undisturbed, After, Times, Occurs;
    ClosedRun(params, config, envs);
    CounterIsBounded(params, config, envs);
    if params.testNum <= 254 {
      FewRequestsLoseNoFailure(params, config, envs);
    }
    if |envs| == 0 {
      AtBoot(params, config, envs);
    } else {
      hide Tick, CountInOrder, WithinCredit;
      var front, p, env := LastTurn(params, config, envs);
      ClosedCounter(params, config, front);
      FlagsAgreeWithState(params, config, front);
      ClosedRun(params, config, front);
      CountStep(params, config, p, env);
    }
  }

  /** So, as it stands and for these values of `test_num`, reboots begin exactly as promised. */
  lemma ClosedRebootExactlyWhenTripped(params: Params, config: PortConfig, envs: seq<Env>, env: Env)
    requires Closed(envs + [env]) && params.testNum <= 254
    requires After(params, config, envs).reset.state != RebootState
    ensures After(params, config, envs + [env]).reset.state == RebootState
       <==> RebootDue(params, config, envs, env)
  {
    hide After, Times, Occurs, RebootDue, Tick;
    var front, p, last := LastTurn(params, config, envs + [env]);
    assert front == (envs + [env])[..|envs|] == envs;
    ClosedCounter(params, config, envs + [env]);
    RebootExactlyWhenTripped(params, config, envs, env);
  }

  /** A dead device in link mode: its port is polled once a second and is never up. */
  function DeadLink(turns: nat): seq<Env> {
    seq(turns, i requires 0 <= i => Env(true, PortFlags(true, true), false, false, false, {}, None, None, i, i, i))
  }

  const LINK_MODE: PortConfig := PortConfig(TestLink, false, [TimeAlarm(false, 0), TimeAlarm(false, 0)])

  lemma DeadLinkIsAiling(turns: nat)
    requires turns <= 1000
    ensures Orderly(DeadLink(turns)) && Ailing(TestLink, DeadLink(turns))
  {
  }

  /** The way through the first, uncounted reboot: the counter is not set back. */
  ghost predicate FirstCycle(params: Params, p: Port, turns: nat) {
    var t := params.testNum;
    if turns < t then
      p.reset.state == RegularState && p.reboot.phase == RebootInit && p.reset.errorTestCount == turns
    else if turns < t + REBOOT_DELAY + 3 then
      && p.reset.state == RebootState && p.reboot.phase != RebootIdle && p.reset.errorTestCount == t
      && TurnsToReboot(p, turns - 1) == REBOOT_DELAY + 3 - (turns - t)
    else
      p.reset.state == RegularState && p.reboot.phase == RebootIdle && p.reset.errorTestCount == t
  }

  lemma {:induction false} FirstCycleRun(params: Params, turns: nat)
    requires 1 <= params.testNum && turns <= params.testNum + REBOOT_DELAY + 3
    ensures FirstCycle(params, After(params, LINK_MODE, DeadLink(turns)), turns)
    decreases turns
  {
    if turns == 0 {
    } else {
      hide Tick, Verdict, Seen, InOrder, Orderly, Ailing, NextReading;
      DeadLinkTurn(params, turns);
      FirstCycleRun(params, turns - 1);
      var p, env := After(params, LINK_MODE, DeadLink(turns - 1)), DeadLink(turns)[turns - 1];
      FirstCycleTurn(params, p, env, turns);
    }
  }

  lemma DeadLinkTurn(params: Params, turns: nat)
    requires 1 <= turns <= 1000
    ensures var p, env := After(params, LINK_MODE, DeadLink(turns - 1)), DeadLink(turns)[turns - 1];
            && After(params, LINK_MODE, DeadLink(turns)) == Tick(params, p, env)
            && InOrder(params, LINK_MODE, p, turns - 2) && NextReading(turns - 2, env)
            && Verdict(Seen(p, env).reset.errorCode) == 1
  {
    hide After, Tick, Verdict, Seen, InOrder, Orderly, Ailing, NextReading, DeadLink;
    var envs := DeadLink(turns);
    DeadLinkFront(turns);
    DeadLinkIsAiling(turns);
    assert [] + envs == envs;
    var front, p, env := LastOf(params, LINK_MODE, [], envs);
    assert [] + front == front == DeadLink(turns - 1);
    RunInOrder(params, LINK_MODE, front);
    AilingVerdict(params, LINK_MODE, [], envs);
  }

  lemma DeadLinkFront(turns: nat)
    requires turns >= 1
    ensures |DeadLink(turns)| == turns && DeadLink(turns)[..turns - 1] == DeadLink(turns - 1)
    ensures LastClock(DeadLink(turns - 1)) == turns - 2
  {
  }

  lemma FirstCycleTurn(params: Params, p: Port, env: Env, turns: nat)
    requires 1 <= turns <= params.testNum + REBOOT_DELAY + 3 && 1 <= params.testNum
    requires InOrder(params, LINK_MODE, p, turns - 2) && NextReading(turns - 2, env) && env.raised == {}
    requires env.armClock == env.checkClock == turns - 1
    requires Verdict(Seen(p, env).reset.errorCode) == 1
    requires FirstCycle(params, p, turns - 1)
    ensures FirstCycle(params, Tick(params, p, env), turns)
  {
    hide Tick, Verdict, Seen, Occurs;
    RebootStep(params, LINK_MODE, p, turns - 2, env);
    NothingManual(params, LINK_MODE, p, env);
    if p.reset.state == RegularState {
      FailureStep(params, p, env);
    } else {
      CyclingStep(params, p, env);
    }
  }

  /** For a `test_num` of 255 the counter does wrap: the first reboot leaves it at 255, and the
      next failure sets it to zero instead of starting a second reboot. */
  lemma CounterWrapsAt255(params: Params)
    requires params.testNum == 255
    ensures var turns := 255 + REBOOT_DELAY + 3;
            var p, q := After(params, LINK_MODE, DeadLink(turns)), After(params, LINK_MODE, DeadLink(turns + 1));
            && Closed(DeadLink(turns + 1)) && Occurs(FailureLost, params, p, DeadLink(turns + 1)[turns])
            && p.reset.state == q.reset.state == RegularState
            && p.reset.errorTestCount == 255 && q.reset.errorTestCount == 0
  {
    hide Tick, Verdict, Seen, Consistent, Waiting;
    var turns := 255 + REBOOT_DELAY + 3;
    FirstCycleRun(params, turns);
    DeadLinkTurn(params, turns + 1);
    FailureStep(params, After(params, LINK_MODE, DeadLink(turns)), DeadLink(turns + 1)[turns]);
    SeenChanges(After(params, LINK_MODE, DeadLink(turns)), DeadLink(turns + 1)[turns]);
  }

  // ---------- a port whose polls pass ----------

  /** No test fails: all pass, or there are none, or the gate is closed. */
  predicate CalmPoll(testType: TestType, env: Env) {
    !env.gateOpen || testType in {TestDisable, TestMax} || Passes(testType, env)
  }

  ghost predicate Untroubled(p: Port) {
    && p.reset.state == RegularState && p.reset.errorTestCount == 0
    && !CountedFailure(p.reset.errorCode)
  }

  lemma CalmStep(params: Params, config: PortConfig, p: Port, env: Env)
    requires Consistent(params, config, p) && Untroubled(p) && CalmPoll(p.config.testType, env)
    ensures Untroubled(Tick(params, p, env)) && !Occurs(PowerCut, params, p, env)
  {
    hide Tick;
    TickAfterRearm(params, p, env);
    TickErrors(params, p, env);
  }

  /** A port of which no poll fails is never rebooted, whatever is raised from outside. */
  lemma {:induction false} HealthyPortIsLeftAlone(params: Params, config: PortConfig, envs: seq<Env>)
    requires forall i :: 0 <= i < |envs| ==> CalmPoll(config.testType, envs[i])
    ensures Untroubled(After(params, config, envs)) && Times(PowerCut, params, config, envs) == 0
    decreases |envs|
  {
    if |envs| == 0 {
    } else {
      hide Tick, Consistent, CalmPoll, Untroubled, Occurs;
      var front, p, env := LastTurn(params, config, envs);
      assert env == envs[|front|] && front == envs[..|front|];
      HealthyPortIsLeftAlone(params, config, front);
      FlagsAgreeWithState(params, config, front);
      ConsistentConfig(params, config, p);
      CalmStep(params, config, p, env);
    }
  }
}

/** The verdicts of the polls, and how long a reboot takes: on every run it ends, and only a manual
    request that `eventsHandler` grants while it is under way can delay it. */
module Liveness {
  import opened PortTypes
  import opened PortSpec
  import opened Runs
  import opened PowerDown

  // ---------- polls and their verdicts ----------

  predicate Passes(testType: TestType, env: Env) {
    match testType
    case TestLink => env.linkUp
    case TestPing => env.linkUp && env.pingOk
    case _ => false
  }

  /** A gated port is not tested, and the verdict of its last poll stands. */
  lemma GatedVerdictStands(p: Port, env: Env)
    requires !env.gateOpen
    ensures Verdict(Seen(p, env).reset.errorCode) == Verdict(p.reset.errorCode)
  {
  }

  /** Whatever bits earlier polls left behind - ERR_TEST_PING is never cleared - a poll in link or
      ping mode is counted as a pass exactly if all its tests passed and as a failure otherwise;
      a poll in speed mode is always counted as a failure. */
  lemma VerdictsAreFaithful(p: Port, env: Env)
    requires env.gateOpen && p.config.testType in {TestLink, TestPing, TestSpeed}
    ensures Verdict(Seen(p, env).reset.errorCode) == (if Passes(p.config.testType, env) then -1 else 1)
    ensures ErrOk in Seen(p, env).reset.errorCode <==> Passes(p.config.testType, env)
    ensures ErrTestPing in p.reset.errorCode ==> ErrTestPing in Seen(p, env).reset.errorCode
  {
  }

  // ---------- every reboot ends ----------

  /** Each turn begins at least a second after the one before, and reads the clock forwards. */
  ghost predicate Advancing(envs: seq<Env>) {
    && (forall i :: 0 <= i < |envs| ==> envs[i].armClock <= envs[i].checkClock)
    && (forall i, j :: 0 <= i && j == i + 1 < |envs| ==> envs[i].armClock < envs[j].armClock)
  }

  ghost function LastClock(envs: seq<Env>): int {
    if |envs| == 0 then -1 else envs[|envs| - 1].armClock
  }

  ghost predicate ClockInOrder(envs: seq<Env>) {
    Advancing(envs) && ClockFits(envs)
  }

  ghost predicate NextReading(last: int, env: Env) {
    last < env.armClock <= env.checkClock && env.armClock + REBOOT_DELAY < 0x1_0000_0000
  }

  lemma ClockFront(envs: seq<Env>, front: seq<Env>, env: Env)
    requires ClockInOrder(envs) && envs == front + [env]
    ensures ClockInOrder(front) && NextReading(LastClock(front), env) && LastClock(envs) == env.armClock
  {
    assert envs[|front|] == env;
    assert front == envs[..|front|];
  }

  lemma ClockPrefix(envs: seq<Env>, m: nat)
    requires ClockInOrder(envs) && m <= |envs|
    ensures ClockInOrder(envs[..m])
  {
  }

  /** A running power-down timer has not expired. */
  ghost predicate Waiting(p: Port, last: int) {
    p.reset.state == RebootState && p.reboot.phase == PoeDown && RebootStart !in p.reboot.event ==>
      last < p.timeStart <= last + REBOOT_DELAY
  }

  /** What holds between two turns of every run with an orderly clock. */
  ghost predicate Settled(params: Params, config: PortConfig, p: Port, last: int) {
    Consistent(params, config, p) && Waiting(p, last)
  }

  /** How many turns a reboot can still take. */
  ghost function TurnsToReboot(p: Port, last: int): int {
    match p.reboot.phase
    case RebootIdle => REBOOT_DELAY + 4
    case RebootInit => REBOOT_DELAY + 3
    case PoeDown => if RebootStart in p.reboot.event then REBOOT_DELAY + 2 else p.timeStart - last + 1
    case PoeUp => 1
  }

  ghost predicate OneHop(before: RebootPhase, after: RebootPhase) {
    after == before || after == match before
                                case RebootIdle => RebootInit
                                case RebootInit => PoeDown
                                case PoeDown => PoeUp
                                case PoeUp => RebootIdle
  }

  lemma SettledStep(params: Params, config: PortConfig, p: Port, last: int, env: Env)
    requires Settled(params, config, p, last) && NextReading(last, env)
    ensures Settled(params, config, Tick(params, p, env), env.armClock)
  {
    hide Tick, Seen, Consistent;
    TickKeepsConsistent(params, config, p, env);
    WaitingStep(params, config, p, last, env);
  }

  lemma WaitingStep(params: Params, config: PortConfig, p: Port, last: int, env: Env)
    requires Settled(params, config, p, last) && NextReading(last, env)
    ensures Waiting(Tick(params, p, env), env.armClock)
  {
    hide Tick, Seen;
    SeenChanges(p, env);
    TickAfterRearm(params, p, env);
  }

  lemma {:induction false} RunIsSettled(params: Params, config: PortConfig, envs: seq<Env>)
    requires ClockInOrder(envs)
    ensures Settled(params, config, After(params, config, envs), LastClock(envs))
    decreases |envs|
  {
    if |envs| == 0 {
    } else {
      hide Tick, Settled, ClockInOrder, NextReading;
      var front, p, env := LastTurn(params, config, envs);
      ClockFront(envs, front, env);
      RunIsSettled(params, config, front);
      SettledStep(params, config, p, LastClock(front), env);
    }
  }

  /** Exactly one turn makes a reboot under way no shorter: one on which `eventsHandler` grants a
      manual request. Otherwise the phases follow one another, and the reboot comes nearer to its
      end, by one turn if the clock is steady. */
  lemma RebootStep(params: Params, config: PortConfig, p: Port, last: int, env: Env)
    requires Settled(params, config, p, last) && NextReading(last, env)
    ensures var q, rearmed := Tick(params, p, env), Occurs(Rearmed, params, p, env);
            && (!rearmed ==> OneHop(p.reboot.phase, q.reboot.phase))
            && (p.reset.state == RebootState ==> 0 < TurnsToReboot(p, last))
            && (p.reset.state == RebootState && q.reset.state == RebootState ==>
                  && (TurnsToReboot(q, env.armClock) < TurnsToReboot(p, last) <==> !rearmed)
                  && (!rearmed && env.checkClock == env.armClock == last + 1 ==>
                        TurnsToReboot(q, env.armClock) == TurnsToReboot(p, last) - 1))
            && (p.reset.state == RebootState && q.reset.state == RegularState ==> p.reboot.phase == PoeUp)
  {
    hide Tick, Seen;
    SeenChanges(p, env);
    TickAfterRearm(params, p, env);
  }

  /** During a reboot that happens exactly to a request, new or pending, that finds port and PoE
      enabled and the reboot between the grant of its own request and the end of the power-down. */
  lemma RearmedDuringReboot(params: Params, config: PortConfig, p: Port, env: Env)
    requires Consistent(params, config, p) && p.reset.state == RebootState
    ensures Occurs(Rearmed, params, p, env)
       <==> && (ManualRestart in p.reset.event || ManualRestart in env.raised)
            && env.flags.portEnabled && env.flags.poeEnabled
            && p.reboot.phase in {RebootInit, PoeDown}
  {
    hide Seen;
    SeenChanges(p, env);
  }

  ghost predicate RearmedBetween(params: Params, config: PortConfig, envs: seq<Env>, n: nat, m: nat)
    requires m <= |envs|
  {
    exists i :: n <= i < m && Occurs(Rearmed, params, After(params, config, envs[..i]), envs[i])
  }

  /** On every run, a reboot that is under way after `n` turns is over within `REBOOT_DELAY + 4`
      more if `eventsHandler` grants no manual request in that time. */
  lemma EveryRebootEnds(params: Params, config: PortConfig, envs: seq<Env>, n: nat)
    requires ClockInOrder(envs) && n + REBOOT_DELAY + 4 <= |envs|
    requires !RearmedBetween(params, config, envs, n, n + REBOOT_DELAY + 4)
    ensures exists m :: n <= m <= n + REBOOT_DELAY + 4
                        && After(params, config, envs[..m]).reset.state != RebootState
  {
    hide After, ClockInOrder, Occurs;
    var m := n;
    var budget := REBOOT_DELAY + 4;
    TurnsAreLeft(params, config, envs, n);
    while After(params, config, envs[..m]).reset.state == RebootState
      invariant n <= m <= m + budget <= n + REBOOT_DELAY + 4
      invariant After(params, config, envs[..m]).reset.state == RebootState ==>
                  TurnsToReboot(After(params, config, envs[..m]), LastClock(envs[..m])) <= budget
      decreases budget
    {
      TurnsAreLeft(params, config, envs, m);
      RebootTurn(params, config, envs, m);
      m, budget := m + 1, budget - 1;
    }
  }

  lemma TurnsAreLeft(params: Params, config: PortConfig, envs: seq<Env>, m: nat)
    requires ClockInOrder(envs) && m <= |envs|
    ensures var p := After(params, config, envs[..m]);
            p.reset.state == RebootState ==>
              0 < TurnsToReboot(p, LastClock(envs[..m])) <= REBOOT_DELAY + 4
  {
    hide After, ClockInOrder, Consistent;
    ClockPrefix(envs, m);
    RunIsSettled(params, config, envs[..m]);
  }

  /** Turn `m` of a run, for the step lemmas. */
  lemma TurnOf(params: Params, config: PortConfig, envs: seq<Env>, m: nat)
    requires ClockInOrder(envs) && m < |envs|
    ensures Settled(params, config, After(params, config, envs[..m]), LastClock(envs[..m]))
    ensures NextReading(LastClock(envs[..m]), envs[m]) && LastClock(envs[..m + 1]) == envs[m].armClock
    ensures After(params, config, envs[..m + 1]) == Tick(params, After(params, config, envs[..m]), envs[m])
  {
    hide Tick, Settled, ClockInOrder, NextReading;
    ClockPrefix(envs, m);
    ClockPrefix(envs, m + 1);
    assert envs[..m + 1] == envs[..m] + [envs[m]];
    assert envs[..m + 1][..m] == envs[..m];
    ClockFront(envs[..m + 1], envs[..m], envs[m]);
    RunIsSettled(params, config, envs[..m]);
  }

  lemma RebootTurn(params: Params, config: PortConfig, envs: seq<Env>, m: nat)
    requires ClockInOrder(envs) && m < |envs|
    requires After(params, config, envs[..m]).reset.state == RebootState
    ensures var p, q := After(params, config, envs[..m]), After(params, config, envs[..m + 1]);
            q.reset.state == RebootState ==>
              (TurnsToReboot(q, LastClock(envs[..m + 1])) < TurnsToReboot(p, LastClock(envs[..m]))
               <==> !Occurs(Rearmed, params, p, envs[m]))
  {
    hide Tick, Settled, ClockInOrder, NextReading, Occurs;
    TurnOf(params, config, envs, m);
    RebootStep(params, config, After(params, config, envs[..m]), LastClock(envs[..m]), envs[m]);
  }

  // ---------- exactly when a power cycle ends ----------

  /** A power cycle under way leaves REBOOT_STATE from POE_UP only, and a re-arm starts it anew. */
  lemma CycleStep(params: Params, config: PortConfig, p: Port, env: Env)
    requires Consistent(params, config, p) && p.reset.state == RebootState && p.reboot.phase != RebootIdle
    ensures var q := Tick(params, p, env);
            && q.reset.state == (if p.reboot.phase == PoeUp then RegularState else RebootState)
            && (q.reboot.phase == RebootIdle <==> p.reboot.phase == PoeUp)
            && (Occurs(Rearmed, params, p, env) ==> q.reboot.phase == RebootInit)
  {
    hide Tick, Seen;
    SeenChanges(p, env);
    TickAfterRearm(params, p, env);
  }

  /** Turns `n` to `m` take exactly one second each. */
  ghost predicate SteadyBetween(envs: seq<Env>, n: nat, m: nat)
    requires m <= |envs|
  {
    forall i :: n <= i < m ==> envs[i].checkClock == envs[i].armClock == LastClock(envs[..i]) + 1
  }

  /** A power cycle with `left` turns to go when counted from turn `n`, seen at turn `m`. */
  ghost predicate CycleOnTime(p: Port, last: int, left: int, rearmed: bool) {
    if left == 0 && !rearmed then p.reset.state == RegularState
    else
      && p.reset.state == RebootState && p.reboot.phase != RebootIdle
      && (if rearmed then TurnsToReboot(p, last) > left else TurnsToReboot(p, last) == left)
  }

  lemma CycleTurn(params: Params, config: PortConfig, p: Port, last: int, env: Env, left: int, rearmed: bool)
    requires Settled(params, config, p, last) && NextReading(last, env)
    requires env.checkClock == env.armClock == last + 1
    requires 0 < left <= REBOOT_DELAY + 3 && CycleOnTime(p, last, left, rearmed)
    ensures CycleOnTime(Tick(params, p, env), env.armClock, left - 1, rearmed || Occurs(Rearmed, params, p, env))
  {
    hide Tick, Occurs, Consistent, Waiting, NextReading;
    RebootStep(params, config, p, last, env);
    CycleStep(params, config, p, env);
    if p.reboot.phase != PoeUp {
      SettledStep(params, config, p, last, env);
      TurnsArePositive(params, config, Tick(params, p, env), env.armClock);
      TurnsInCycle(params, config, p, last);
    }
  }

  lemma TurnsArePositive(params: Params, config: PortConfig, p: Port, last: int)
    requires Settled(params, config, p, last) && p.reset.state == RebootState
    ensures 0 < TurnsToReboot(p, last)
  {
  }

  lemma TurnsInCycle(params: Params, config: PortConfig, p: Port, last: int)
    requires Settled(params, config, p, last) && p.reset.state == RebootState && p.reboot.phase != RebootIdle
    ensures 0 < TurnsToReboot(p, last) <= REBOOT_DELAY + 3
    ensures TurnsToReboot(p, last) == 1 <==> p.reboot.phase == PoeUp
  {
  }

  lemma {:induction false} CycleRun(params: Params, config: PortConfig, envs: seq<Env>, n: nat, m: nat)
    requires ClockInOrder(envs) && n <= m <= |envs| && SteadyBetween(envs, n, m)
    requires var p := After(params, config, envs[..n]);
             && p.reset.state == RebootState && p.reboot.phase != RebootIdle
             && m - n <= TurnsToReboot(p, LastClock(envs[..n]))
    ensures CycleOnTime(After(params, config, envs[..m]), LastClock(envs[..m]),
                        TurnsToReboot(After(params, config, envs[..n]), LastClock(envs[..n])) - (m - n),
                        RearmedBetween(params, config, envs, n, m))
    decreases m
  {
    hide After, Tick, Occurs, Settled, NextReading, ClockInOrder;
    ClockPrefix(envs, n);
    RunIsSettled(params, config, envs[..n]);
    TurnsInCycle(params, config, After(params, config, envs[..n]), LastClock(envs[..n]));
    if m == n {
    } else {
      CycleRun(params, config, envs, n, m - 1);
      var p := After(params, config, envs[..m - 1]);
      TurnOf(params, config, envs, m - 1);
      CycleTurn(params, config, p, LastClock(envs[..m - 1]), envs[m - 1],
                TurnsToReboot(After(params, config, envs[..n]), LastClock(envs[..n])) - (m - 1 - n),
                RearmedBetween(params, config, envs, n, m - 1));
      assert RearmedBetween(params, config, envs, n, m)
        <==> RearmedBetween(params, config, envs, n, m - 1) || Occurs(Rearmed, params, p, envs[m - 1]);
    }
  }

  /** With a steady clock, a power cycle under way with `left` turns to go is over after these turns
      iff `eventsHandler` grants no manual request on any of them. */
  lemma PowerCycleEndsOnTimeIff(params: Params, config: PortConfig, envs: seq<Env>, n: nat, left: nat)
    requires ClockInOrder(envs) && n + left <= |envs| && SteadyBetween(envs, n, n + left)
    requires var p := After(params, config, envs[..n]);
             && p.reset.state == RebootState && p.reboot.phase != RebootIdle
             && left == TurnsToReboot(p, LastClock(envs[..n]))
    ensures After(params, config, envs[..n + left]).reset.state != RebootState
       <==> !RearmedBetween(params, config, envs, n, n + left)
  {
    hide After, ClockInOrder, RearmedBetween;
    CycleRun(params, config, envs, n, n + left);
  }
}

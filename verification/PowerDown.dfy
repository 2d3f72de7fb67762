/** How long a port stays without power: every visit to POE_DOWN arms its timer once, and is left
    no sooner than the reboot delay after that. */
module PowerDown {
  import opened PortTypes
  import opened PortSpec
  import opened Runs

  /** How often the timer was armed since POE_DOWN was last entered. */
  ghost function ArmsThisVisit(params: Params, config: PortConfig, envs: seq<Env>): nat
    decreases |envs|
  {
    if |envs| == 0 then 0
    else
      var front, env := envs[..|envs| - 1], envs[|envs| - 1];
      var p := After(params, config, front);
      if Occurs(PowerCut, params, p, env) then 0
      else ArmsThisVisit(params, config, front) + One(Occurs(TimerArmed, params, p, env))
  }

  /** The clock reading with which the timer was last armed. */
  ghost function ArmedAt(params: Params, config: PortConfig, envs: seq<Env>): nat
    decreases |envs|
  {
    if |envs| == 0 then 0
    else
      var front, env := envs[..|envs| - 1], envs[|envs| - 1];
      if Occurs(TimerArmed, params, After(params, config, front), env) then env.armClock
      else ArmedAt(params, config, front)
  }

  /** No deadline that the run could set is beyond the 32 bits of `rebootTimeStart`. */
  ghost predicate ClockFits(envs: seq<Env>) {
    forall i :: 0 <= i < |envs| ==> envs[i].armClock + REBOOT_DELAY < 0x1_0000_0000
  }

  /** A visit to POE_DOWN either has its start event and no timer yet, or no event and one timer. */
  ghost predicate VisitInOrder(p: Port, arms: nat, armedAt: nat) {
    p.reset.state == RebootState && p.reboot.phase == PoeDown ==>
      || (RebootStart in p.reboot.event && arms == 0)
      || (p.reboot.event == {} && arms == 1 && p.timeStart == armedAt + REBOOT_DELAY)
  }

  lemma VisitStep(params: Params, config: PortConfig, p: Port, env: Env, arms: nat, armedAt: nat)
    requires Consistent(params, config, p) && VisitInOrder(p, arms, armedAt)
    requires env.armClock + REBOOT_DELAY < 0x1_0000_0000
    ensures
      var armed := Occurs(TimerArmed, params, p, env);
      var arms' := if Occurs(PowerCut, params, p, env) then 0 else arms + One(armed);
      var armedAt' := if armed then env.armClock else armedAt;
      && VisitInOrder(Tick(params, p, env), arms', armedAt')
      && (Occurs(PowerBack, params, p, env) ==> arms' == 1 && env.checkClock >= armedAt' + REBOOT_DELAY)
  {
    hide Tick, Seen;
    SeenChanges(p, env);
    TickAfterRearm(params, p, env);
    assert Consistent(params, config, Seen(p, env)) by { TickKeepsConsistent(params, config, p, env); }
  }

  lemma {:induction false} VisitsInOrder(params: Params, config: PortConfig, envs: seq<Env>)
    requires ClockFits(envs)
    ensures VisitInOrder(After(params, config, envs), ArmsThisVisit(params, config, envs),
                         ArmedAt(params, config, envs))
    decreases |envs|
  {
    if |envs| == 0 {
    } else {
      hide Tick, Occurs, VisitInOrder;
      var front, p, env := LastTurn(params, config, envs);
      VisitsInOrder(params, config, front);
      FlagsAgreeWithState(params, config, front);
      VisitStep(params, config, p, env, ArmsThisVisit(params, config, front), ArmedAt(params, config, front));
    }
  }

  /** On every run, whatever is raised from outside and whatever the clock does within 32 bits:
      when POE_UP is entered, the timer was armed exactly once in this visit to POE_DOWN, and seven
      seconds have passed since. */
  lemma MinimumPowerDown(params: Params, config: PortConfig, envs: seq<Env>)
    requires |envs| > 0 && ClockFits(envs)
    requires Occurs(PowerBack, params, After(params, config, envs[..|envs| - 1]), envs[|envs| - 1])
    ensures ArmsThisVisit(params, config, envs) == 1
    ensures envs[|envs| - 1].checkClock >= ArmedAt(params, config, envs) + 7
  {
    hide Tick, Occurs, VisitInOrder;
    var front, p, env := LastTurn(params, config, envs);
    VisitsInOrder(params, config, front);
    FlagsAgreeWithState(params, config, front);
    VisitStep(params, config, p, env, ArmsThisVisit(params, config, front), ArmedAt(params, config, front));
  }

  /** Why the clock has to fit: a turn that arms the timer and looks at it again before the delay
      has passed gives the power back at once exactly if the deadline does not fit in 32 bits. */
  lemma DeadlineMustFit(params: Params, p: Port, env: Env)
    requires Occurs(TimerArmed, params, p, env) && p.reboot.delay == REBOOT_DELAY
    requires env.armClock <= env.checkClock < env.armClock + REBOOT_DELAY
    ensures Occurs(PowerBack, params, p, env) <==> env.armClock + REBOOT_DELAY >= 0x1_0000_0000
  {
    hide Seen;
    SeenChanges(p, env);
  }
}

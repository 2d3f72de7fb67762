/** The PoE commands that the alarms issue on a run. */
module AlarmLog {
  import opened Integers
  import opened PortTypes
  import opened PortSpec
  import opened Runs

  function Firings(log: seq<IssuedCommand>, c: PoeCommand): nat {
    if |log| == 0 then 0
    else Firings(log[..|log| - 1], c) + (if log[|log| - 1].command == c then 1 else 0)
  }

  function Request(env: Env, i: nat): Option<uint32> {
    if i == ALARM_UP then env.armUp else env.armDown
  }

  /** How often alarm `i` was armed while it was not. */
  ghost function Armings(i: nat, params: Params, config: PortConfig, envs: seq<Env>): nat
    requires i < ALARM_MAX
    decreases |envs|
  {
    if |envs| == 0 then One(config.alarms[i].armed)
    else
      var front, env := envs[..|envs| - 1], envs[|envs| - 1];
      Armings(i, params, config, front)
      + One(Request(env, i).Some? && !After(params, config, front).config.alarms[i].armed)
  }

  /** The command of alarm `i` if it is due. */
  function DueCommand(p: Port, i: nat, now: nat): seq<IssuedCommand>
    requires i < ALARM_MAX
  {
    if p.config.alarm && Due(p, i, now)
    then [IssuedCommand(CommandOf(i), now, p.config.alarms[i].targetTime)] else []
  }

  /** The handlers before the alarms leave the alarms' bookkeeping alone. */
  lemma AlarmsUntouched(params: Params, p: Port, env: Env)
    ensures var q := Rearm(Acted(params, p, env));
            && q.config.alarms == Prepare(p, env).config.alarms && q.config.alarm == p.config.alarm
            && q.commands == p.commands
            && (ErrPoeDown in q.reset.errorCode <==> ErrPoeDown in p.reset.errorCode)
  {
  }

  /** A turn issues exactly the commands that are due, up before down, once: what was due is no
      longer armed, what was not due still is. */
  lemma TurnIssuesWhatIsDue(params: Params, p: Port, env: Env)
    ensures var ready, q, now := Prepare(p, env), Tick(params, p, env), env.alarmClock;
            var issued := DueCommand(ready, ALARM_UP, now) + DueCommand(ready, ALARM_DOWN, now);
            && q.commands == p.commands + issued
            && (forall i :: 0 <= i < ALARM_MAX ==>
                  (q.config.alarms[i].armed <==> ready.config.alarms[i].armed && DueCommand(ready, i, now) == []))
            && (ErrPoeDown in q.reset.errorCode
                <==> if issued == [] then ErrPoeDown in p.reset.errorCode
                     else issued[|issued| - 1].command == PowerDown)
  {
    hide Rearm, Acted;
    AlarmsUntouched(params, p, env);
  }

  lemma FiringsAppend(log: seq<IssuedCommand>, more: seq<IssuedCommand>, c: PoeCommand)
    ensures Firings(log + more, c) == Firings(log, c) + Firings(more, c)
  {
    if |more| == 0 {
      assert log + more == log;
    } else {
      assert (log + more)[..|log + more| - 1] == log + more[..|more| - 1];
      FiringsAppend(log, more[..|more| - 1], c);
    }
  }

  ghost predicate LogInOrder(p: Port) {
    && (forall k :: 0 <= k < |p.commands| ==> p.commands[k].target <= p.commands[k].issuedAt)
    && (ErrPoeDown in p.reset.errorCode
        <==> |p.commands| > 0 && p.commands[|p.commands| - 1].command == PowerDown)
  }

  lemma LogStep(params: Params, p: Port, env: Env)
    requires LogInOrder(p)
    ensures LogInOrder(Tick(params, p, env))
  {
    hide Tick, Prepare;
    TurnIssuesWhatIsDue(params, p, env);
  }

  /** No alarm fires before its time, and ERR_POE_DOWN tells whether the last command issued was
      the one that switches the port off. */
  lemma {:induction false} AlarmLogInOrder(params: Params, config: PortConfig, envs: seq<Env>)
    ensures LogInOrder(After(params, config, envs))
    decreases |envs|
  {
    if |envs| == 0 {
    } else {
      hide Tick, LogInOrder, Times, Occurs;
      var front, p, env := LastTurn(params, config, envs);
      AlarmLogInOrder(params, config, front);
      LogStep(params, p, env);
    }
  }

  lemma FiringsOfDue(i: nat, p: Port, now: nat)
    requires i < ALARM_MAX
    ensures Firings(DueCommand(p, ALARM_UP, now) + DueCommand(p, ALARM_DOWN, now), CommandOf(i))
         == |DueCommand(p, i, now)| <= 1
  {
    FiringsAppend(DueCommand(p, ALARM_UP, now), DueCommand(p, ALARM_DOWN, now), CommandOf(i));
  }

  lemma TurnBalance(i: nat, params: Params, p: Port, env: Env)
    requires i < ALARM_MAX
    ensures var q := Tick(params, p, env);
            Firings(q.commands, CommandOf(i)) + One(q.config.alarms[i].armed)
            == Firings(p.commands, CommandOf(i)) + One(p.config.alarms[i].armed)
               + One(Request(env, i).Some? && !p.config.alarms[i].armed)
  {
    hide Tick, Firings;
    TurnIssuesWhatIsDue(params, p, env);
    var ready, now := Prepare(p, env), env.alarmClock;
    FiringsAppend(p.commands, DueCommand(ready, ALARM_UP, now) + DueCommand(ready, ALARM_DOWN, now), CommandOf(i));
    FiringsOfDue(i, ready, now);
  }

  /** Each arming fires at most once: the commands issued and the alarm still set account for
      every time the alarm was set. */
  lemma {:induction false} EachArmingFiresOnce(i: nat, params: Params, config: PortConfig, envs: seq<Env>)
    requires i < ALARM_MAX
    ensures Firings(After(params, config, envs).commands, CommandOf(i))
            + One(After(params, config, envs).config.alarms[i].armed)
         == Armings(i, params, config, envs)
    decreases |envs|
  {
    if |envs| == 0 {
    } else {
      hide Tick, Firings, Times, Occurs;
      var front, p, env := LastTurn(params, config, envs);
      EachArmingFiresOnce(i, params, config, front);
      TurnBalance(i, params, p, env);
    }
  }
}

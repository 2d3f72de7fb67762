/** The event handlers of events_module.c and the poll loop of ar_mainApp.c that drives them. */
module Events {
  import opened Integers
  import opened PortTypes
  import opened PortSpec
  import opened PortManager
  import opened Runs

  method HandleIdleState(table: PortTable, info: PortInfo)
    modifies info
    ensures table.With(info) == HandleIdle(old(table.With(info)))
  {
    if TestOk in info.reset.event {
      info.ClearEvents({TestOk});
      info.reset := info.reset.(state := RegularState);
      info.ClearErrors({ErrPortShutdown});
    }
  }

  method TestErrorHandler(table: PortTable, info: PortInfo, testNum: uint8)
    requires info.reset.state == RegularState
    modifies info
    ensures table.With(info) == HandleTest(old(table.With(info)), testNum)
  {
    if ErrOk in info.reset.errorCode {
      var count := if info.reset.errorTestCount > 0 then info.reset.errorTestCount - 1 else 0;
      info.reset := info.reset.(errorTestCount := count);
    } else if CountedFailure(info.reset.errorCode) {
      info.reset := info.reset.(errorTestCount := Wrap8(info.reset.errorTestCount + 1));
      if info.reset.errorTestCount >= testNum {
        if info.reset.state != RebootState {
          info.reset := info.reset.(event := info.reset.event + {AutoRestart});
          info.reset := info.reset.(state := RebootState);
        }
      }
    }
  }

  method RebootHandler(table: PortTable, info: PortInfo, env: Env, maxReset: uint8)
    modifies table`timeStart, info
    ensures table.With(info) == HandleReboot(old(table.With(info)), env, maxReset)
  {
    match info.reboot.phase
    case RebootIdle =>
      if AutoRestart in info.reset.event {
        info.ClearEvents({AutoRestart});
        table.AutoResetHandler(maxReset, info);
      }
      if ManualRestart in info.reset.event {
        if info.flags.portEnabled && info.flags.poeEnabled {
          table.ManualResetHandler(info);
          info.ClearEvents({ManualRestart});
        }
      }
    case RebootInit =>
      info.reboot := info.reboot.(phase := PoeDown);
      info.reboot := info.reboot.(event := info.reboot.event + {RebootStart});
    case PoeDown =>
      if RebootStart in info.reboot.event {
        info.reboot := info.reboot.(event := info.reboot.event - {RebootStart});
        table.SetTimeStart(info, env.armClock);
      }
      var event := table.GetRebootEvent(env.checkClock);
      info.reboot := info.reboot.(event := event);
      if TimerStop in info.reboot.event {
        info.reboot := info.reboot.(phase := PoeUp);
      }
    case PoeUp =>
      info.reboot := info.reboot.(event := info.reboot.event - {TimerStop});
      info.reset := info.reset.(state := RegularState);
      info.reboot := info.reboot.(phase := RebootIdle);
      info.ClearErrors({ErrRebooting});
      info.ClearErrors({ErrManualReboot});
      if ManualRestart in info.reset.event {
        info.ClearEvents({ManualRestart});
        info.ClearErrors({ErrPortShutdown});
      }
      assert info.reset == FinishReboot(old(table.With(info))).reset;
  }

  /** Fires the alarms that are due, up before down. Each one writes the configuration of the
      moment into the table, and what stands there afterwards is what the final copy-back brings. */
  method AlarmHandler(table: PortTable, info: PortInfo, now: nat)
    requires info.config.alarm
    modifies table`config, table`commands, info`config, info`reset
    ensures table.With(info) == HandleAlarms(old(table.With(info)), now)
    ensures table.config == if table.commands == old(table.commands) then old(table.config) else info.config
  {
    ghost var before := table.With(info);
    for i := 0 to ALARM_MAX
      invariant i == 0 ==> table.With(info) == before
      invariant i == 1 ==> table.With(info) == FireAlarm(before, ALARM_UP, now)
      invariant i == 2 ==> table.With(info) == FireAlarm(FireAlarm(before, ALARM_UP, now), ALARM_DOWN, now)
      invariant |table.commands| >= |old(table.commands)|
      invariant table.config == if table.commands == old(table.commands) then old(table.config) else info.config
    {
      var alarm := info.config.alarms[i];
      if alarm.armed && now >= alarm.targetTime {
        table.PoeControl(CommandOf(i), now, alarm.targetTime);
        if i == ALARM_DOWN {
          info.SetErrors({ErrPoeDown});
        } else {
          info.ClearErrors({ErrPoeDown});
        }
        info.config := info.config.(alarms := info.config.alarms[i := TimeAlarm(false, alarm.targetTime)]);
        table.UpdateConfig(info.config);
      }
    }
  }

  method EventsHandler(table: PortTable, params: Params, env: Env)
    modifies table
    ensures table.View() == HandleAlarms(Rearm(Handle(params, old(table.View()), env)), env.alarmClock)
  {
    var info := table.GetInfo();
    match info.reset.state {
      case IdleState => HandleIdleState(table, info);
      case RegularState => TestErrorHandler(table, info, params.testNum);
      case RebootState => RebootHandler(table, info, env, params.maxReset);
    }
    if ManualRestart in info.reset.event {
      if info.flags.portEnabled && info.flags.poeEnabled {
        info.reboot := info.reboot.(phase := RebootInit);
        info.ClearEvents({ManualRestart});
      }
    }
    if info.config.alarm {
      AlarmHandler(table, info, env.alarmClock);
    }
    table.UpdateInfo(info);
  }

  /** One turn of the poll loop: the tests that the configuration asks for, then the handlers. */
  method PollOnce(table: PortTable, params: Params, env: Env)
    modifies table
    ensures table.View() == Tick(params, old(table.View()), env)
  {
    table.Disturb(env);
    var testType := table.config.testType;
    if env.gateOpen {
      match testType {
        case TestLink =>
          table.RunTestLink(env.linkUp);
        case TestPing =>
          table.RunTestLink(env.linkUp);
          table.RunTestPing(env.pingOk);
        case TestSpeed =>
          table.RunTestLink(env.linkUp);
          table.RunTestSpeed(env.statsReply, env.armClock);
        case TestDisable =>
          table.RunTestDisable();
        case TestMax =>
      }
    }
    EventsHandler(table, params, env);
  }

  /** The poll loop from boot, for as many turns as the daemon is kept running. */
  method RunTestHandler(config: PortConfig, params: Params, envs: seq<Env>) returns (table: PortTable)
    ensures fresh(table) && table.View() == After(params, config, envs)
  {
    table := new PortTable(config);
    for turn := 0 to |envs|
      invariant fresh(table)
      invariant table.View() == After(params, config, envs[..turn])
    {
      assert envs[..turn + 1][..turn] == envs[..turn];
      PollOnce(table, params, envs[turn]);
    }
    assert envs[..|envs|] == envs;
  }
}

/** The globals of port_manager.c for the one port, the local copy `portInfo_t` on which the event
    handlers work, and the functions that change them in place. */
module PortManager {
  import opened Integers
  import opened PortTypes
  import opened PortSpec

  /** `portInfo_t`: the copy that `eventsHandler` takes, hands to the handlers and writes back. */
  class PortInfo {
    var config: PortConfig
    var flags: PortFlags
    var reset: ResetInfo
    var reboot: RebootInfo

    constructor (config: PortConfig, flags: PortFlags, reset: ResetInfo, reboot: RebootInfo)
      ensures this.config == config && this.flags == flags && this.reset == reset && this.reboot == reboot
    {
      this.config, this.flags, this.reset, this.reboot := config, flags, reset, reboot;
    }

    /** Clears bits of the error word. */
    method ClearErrors(mask: set<ErrorFlag>)
      modifies this`reset
      ensures reset == old(reset).(errorCode := old(reset).errorCode - mask)
    {
      reset := reset.(errorCode := reset.errorCode - mask);
    }

    method SetErrors(mask: set<ErrorFlag>)
      modifies this`reset
      ensures reset == old(reset).(errorCode := old(reset).errorCode + mask)
    {
      reset := reset.(errorCode := reset.errorCode + mask);
    }

    method ClearEvents(mask: set<ArEvent>)
      modifies this`reset
      ensures reset == old(reset).(event := old(reset).event - mask)
    {
      reset := reset.(event := reset.event - mask);
    }
  }

  class PortTable {
    var config: PortConfig
    var flags: PortFlags
    var reset: ResetInfo
    var reboot: RebootInfo
    var timeStart: uint32
    var commands: seq<IssuedCommand>

    ghost function View(): Port
      reads this
    {
      Port(config, flags, reset, reboot, timeStart, commands)
    }

    /** What the port will be once `info` has been written back. */
    ghost function With(info: PortInfo): Port
      reads this, info
    {
      Port(info.config, info.flags, info.reset, info.reboot, timeStart, commands)
    }

    /** `port_manager_init`, then the configuration that `port_manager_load_config` found. */
    constructor (loaded: PortConfig)
      ensures View() == Boot(loaded)
      ensures config == loaded && commands == []
      ensures reset == ResetInfo(0, 0, 0, {ErrOk}, {}, RegularState)
      ensures reboot == RebootInfo(RebootInit, {RebootStart}, 7)
    {
      flags := PortFlags(false, false);
      reset := ResetInfo(0, 0, 0, {ErrOk}, {}, RegularState);
      reboot := RebootInfo(RebootInit, {RebootStart}, REBOOT_DELAY);
      timeStart, commands := 0, [];
      config := loaded;
    }

    /** The writes of other parties between two turns: raised events, alarm times, port flags. */
    method Disturb(env: Env)
      modifies this
      ensures View() == Prepare(old(View()), env)
    {
      flags := env.flags;
      reset := reset.(event := reset.event + env.raised);
      if env.armUp.Some? {
        config := config.(alarms := config.alarms[ALARM_UP := TimeAlarm(true, env.armUp.value)]);
      }
      if env.armDown.Some? {
        config := config.(alarms := config.alarms[ALARM_DOWN := TimeAlarm(true, env.armDown.value)]);
      }
    }

    method SetError(e: ErrorFlag)
      modifies this`reset
      ensures reset == old(reset).(errorCode := old(reset).errorCode + {e})
    {
      reset := reset.(errorCode := reset.errorCode + {e});
    }

    method ClearError(e: ErrorFlag)
      modifies this`reset
      ensures reset == old(reset).(errorCode := old(reset).errorCode - {e})
    {
      reset := reset.(errorCode := reset.errorCode - {e});
    }

    method RunTestDisable()
      modifies this`reset
      ensures reset == old(reset).(errorCode := old(reset).errorCode - {ErrOk} + {ErrTestDisable})
    {
      ClearError(ErrOk);
      SetError(ErrTestDisable);
    }

    method RunTestLink(up: bool)
      modifies this`reset
      ensures reset == old(reset).(errorCode := AfterLink(old(reset).errorCode, up))
      ensures ErrOk in reset.errorCode <==> up
      ensures ErrTestLink in reset.errorCode <==> !up
      ensures forall e :: e !in {ErrOk, ErrTestLink} ==> (e in reset.errorCode <==> e in old(reset).errorCode)
    {
      if up {
        SetError(ErrOk);
        ClearError(ErrTestLink);
      } else {
        SetError(ErrTestLink);
        ClearError(ErrOk);
      }
    }

    method RunTestPing(answered: bool)
      modifies this`reset
      ensures reset == old(reset).(errorCode := AfterPing(old(reset).errorCode, answered))
      ensures ErrOk in reset.errorCode <==> ErrTestLink !in old(reset).errorCode && answered
      ensures ErrTestPing in reset.errorCode
         <==> ErrTestPing in old(reset).errorCode || (ErrTestLink !in old(reset).errorCode && !answered)
      ensures forall e :: e !in {ErrOk, ErrTestPing} ==> (e in reset.errorCode <==> e in old(reset).errorCode)
    {
      ClearError(ErrOk);
      if ErrTestLink in reset.errorCode {
        return;
      }
      if answered {
        SetError(ErrOk);
      } else {
        SetError(ErrTestPing);
      }
    }

    /** With a usable statistics reply the bits are first set to a pass; both clock readings are
        then the same variable, so the elapsed time is zero and the pass is taken back. */
    method RunTestSpeed(reply: bool, now: nat)
      modifies this`reset
      ensures reset == old(reset).(errorCode := AfterSpeed(old(reset).errorCode))
      ensures ErrOk !in reset.errorCode
      ensures ErrTestSpeed in reset.errorCode
         <==> ErrTestSpeed in old(reset).errorCode || ErrTestLink !in old(reset).errorCode
      ensures forall e :: e !in {ErrOk, ErrTestSpeed} ==> (e in reset.errorCode <==> e in old(reset).errorCode)
    {
      ClearError(ErrOk);
      if ErrTestLink in reset.errorCode {
        return;
      }
      if !reply {
        SetError(ErrTestSpeed);
        return;
      }
      ClearError(ErrTestSpeed);
      SetError(ErrOk);
      var timeCurrent := now;
      var timePrevious := timeCurrent;
      if timeCurrent - timePrevious == 0 {
        ClearError(ErrOk);
        SetError(ErrTestSpeed);
      }
    }

    method UpdateConfig(updated: PortConfig)
      modifies this`config
      ensures config == updated
    {
      config := updated;
    }

    method GetInfo() returns (info: PortInfo)
      ensures fresh(info) && With(info) == View()
    {
      info := new PortInfo(config, flags, reset, reboot);
    }

    method UpdateInfo(info: PortInfo)
      modifies this
      ensures View() == old(With(info))
      ensures config == info.config
    {
      config, reset, reboot, flags := info.config, info.reset, info.reboot, info.flags;
    }

    method PoeControl(command: PoeCommand, now: nat, target: uint32)
      modifies this`commands
      ensures commands == old(commands) + [IssuedCommand(command, now, target)]
    {
      commands := commands + [IssuedCommand(command, now, target)];
    }

    /** `set_errorHandler`: a shut-down port with a configuration error is no longer tested. */
    static method SetErrorHandler(info: PortInfo)
      modifies info`config
      ensures info.config == if ConfigError(info.reset.errorCode)
                             then old(info.config).(testType := TestDisable) else old(info.config)
    {
      var code := info.reset.errorCode;
      if ErrIpNotValid in code || ErrTimeNotValid in code || ErrSpeedValue in code || ErrPortDisable in code {
        info.config := info.config.(testType := TestDisable);
      }
    }

    method AutoResetHandler(maxReset: uint8, info: PortInfo)
      modifies info
      ensures With(info) == AutoReset(old(With(info)), maxReset)
      ensures old(info.reset).resetCount < maxReset ==>
                && info.reset.resetCount == old(info.reset).resetCount + 1 && info.reset.errorTestCount == 0
                && info.reset.totalResetCount == (old(info.reset).totalResetCount + 1) % 256
                && info.reset.state == old(info.reset).state && info.reboot.phase == RebootInit
                && info.reset.errorCode == old(info.reset).errorCode - {ErrOk} + {ErrRebooting}
      ensures old(info.reset).resetCount >= maxReset ==>
                && info.reset.resetCount == old(info.reset).resetCount
                && info.reset.errorTestCount == old(info.reset).errorTestCount
                && info.reset.totalResetCount == old(info.reset).totalResetCount
                && info.reset.state == IdleState && info.reboot.phase == RebootIdle
                && info.reset.errorCode == old(info.reset).errorCode - {ErrOk, ErrRebooting} + {ErrPortShutdown}
    {
      info.ClearErrors({ErrOk});
      if info.reset.resetCount >= maxReset {
        info.ClearErrors({ErrRebooting});
        info.SetErrors({ErrPortShutdown});
        info.reboot := info.reboot.(phase := RebootIdle);
        info.reset := info.reset.(state := IdleState);
        assert info.reset.errorCode == AutoReset(old(With(info)), maxReset).reset.errorCode;
        SetErrorHandler(info);
      } else {
        info.reset := info.reset.(errorTestCount := 0);
        info.reset := info.reset.(resetCount := info.reset.resetCount + 1);
        info.reset := info.reset.(totalResetCount := Wrap8(info.reset.totalResetCount + 1));
        info.SetErrors({ErrRebooting});
        info.reboot := info.reboot.(phase := RebootInit);
      }
    }

    method ManualResetHandler(info: PortInfo)
      modifies info
      ensures With(info) == ManualReset(old(With(info)))
      ensures info.reset.resetCount == info.reset.errorTestCount == 0 && info.reboot.phase == RebootInit
      ensures info.reset.totalResetCount == (old(info.reset).totalResetCount + 1) % 256
      ensures info.reset.state == old(info.reset).state && info.reset.event == old(info.reset).event
    {
      info.reset := info.reset.(resetCount := 0);
      info.reset := info.reset.(errorTestCount := 0);
      info.reset := info.reset.(totalResetCount := Wrap8(info.reset.totalResetCount + 1));
      info.reboot := info.reboot.(phase := RebootInit);
    }

    method SetTimeStart(info: PortInfo, now: nat)
      modifies this`timeStart
      ensures timeStart == Wrap32(now + info.reboot.delay)
    {
      timeStart := Wrap32(now + info.reboot.delay);
    }

    method GetRebootEvent(now: nat) returns (event: set<RebootEvent>)
      ensures event == if now >= timeStart then {TimerStop} else {}
    {
      if now >= timeStart {
        event := {TimerStop};
      } else {
        event := {};
      }
    }
  }
}

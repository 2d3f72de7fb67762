/** One turn of the poll loop as a function on values. The methods of `PortManager` and `Events`
    are proved to compute these functions; what the daemon promises is proved about them. */
module PortSpec {
  import opened Integers
  import opened PortTypes

  /** The port after `port_manager_init` and the loading of its configuration. */
  function Boot(config: PortConfig): Port {
    Port(config, PortFlags(false, false),
         ResetInfo(0, 0, 0, {ErrOk}, {}, RegularState),
         RebootInfo(RebootInit, {RebootStart}, REBOOT_DELAY),
         0, [])
  }

  // ---------- what happens before the handlers run ----------

  function Armed(a: TimeAlarm, request: Option<uint32>): TimeAlarm {
    match request
    case None => a
    case Some(target) => TimeAlarm(true, target)
  }

  /** The port with the outside world's changes of this turn. */
  function Prepare(p: Port, env: Env): Port {
    p.(config := p.config.(alarms := [Armed(p.config.alarms[ALARM_UP], env.armUp),
                                      Armed(p.config.alarms[ALARM_DOWN], env.armDown)]),
       flags := env.flags,
       reset := p.reset.(event := p.reset.event + env.raised))
  }

  function AfterLink(code: set<ErrorFlag>, up: bool): set<ErrorFlag> {
    if up then code + {ErrOk} - {ErrTestLink} else code + {ErrTestLink} - {ErrOk}
  }

  function AfterPing(code: set<ErrorFlag>, ok: bool): set<ErrorFlag> {
    if ErrTestLink in code then code - {ErrOk}
    else if ok then code + {ErrOk}
    else code - {ErrOk} + {ErrTestPing}
  }

  function AfterSpeed(code: set<ErrorFlag>): set<ErrorFlag> {
    if ErrTestLink in code then code - {ErrOk} else code - {ErrOk} + {ErrTestSpeed}
  }

  function AfterPoll(code: set<ErrorFlag>, testType: TestType, env: Env): set<ErrorFlag> {
    if !env.gateOpen then code
    else match testType
      case TestLink => AfterLink(code, env.linkUp)
      case TestPing => AfterPing(AfterLink(code, env.linkUp), env.pingOk)
      case TestSpeed => AfterSpeed(AfterLink(code, env.linkUp))
      case TestDisable => code - {ErrOk} + {ErrTestDisable}
      case TestMax => code
  }

  function Poll(p: Port, env: Env): Port {
    p.(reset := p.reset.(errorCode := AfterPoll(p.reset.errorCode, p.config.testType, env)))
  }

  // ---------- the handlers ----------

  predicate CountedFailure(code: set<ErrorFlag>) {
    ErrTestLink in code || ErrTestPing in code || ErrTestSpeed in code
  }

  predicate ConfigError(code: set<ErrorFlag>) {
    ErrIpNotValid in code || ErrTimeNotValid in code || ErrSpeedValue in code || ErrPortDisable in code
  }

  predicate Enabled(p: Port) {
    p.flags.portEnabled && p.flags.poeEnabled
  }

  function HandleIdle(p: Port): Port {
    if TestOk in p.reset.event then
      p.(reset := p.reset.(event := p.reset.event - {TestOk},
                           state := RegularState,
                           errorCode := p.reset.errorCode - {ErrPortShutdown}))
    else p
  }

  /** How the failure counter reads the error bits: a pass, a counted failure, or neither. */
  function Verdict(code: set<ErrorFlag>): int {
    if ErrOk in code then -1 else if CountedFailure(code) then 1 else 0
  }

  function HandleTest(p: Port, testNum: uint8): Port {
    var r := p.reset;
    var verdict := Verdict(r.errorCode);
    if verdict < 0 then
      p.(reset := r.(errorTestCount := if r.errorTestCount > 0 then r.errorTestCount - 1 else 0))
    else if verdict > 0 then
      var count := Wrap8(r.errorTestCount + 1);
      if count >= testNum then
        p.(reset := r.(errorTestCount := count, event := r.event + {AutoRestart}, state := RebootState))
      else p.(reset := r.(errorTestCount := count))
    else p
  }

  function AutoReset(p: Port, maxReset: uint8): Port {
    var r := p.reset;
    if r.resetCount >= maxReset then
      var code := r.errorCode - {ErrOk, ErrRebooting} + {ErrPortShutdown};
      p.(reset := r.(errorCode := code, state := IdleState),
         reboot := p.reboot.(phase := RebootIdle),
         config := if ConfigError(code) then p.config.(testType := TestDisable) else p.config)
    else
      p.(reset := r.(errorCode := r.errorCode - {ErrOk} + {ErrRebooting},
                     errorTestCount := 0,
                     resetCount := r.resetCount + 1,
                     totalResetCount := Wrap8(r.totalResetCount + 1)),
         reboot := p.reboot.(phase := RebootInit))
  }

  function ManualReset(p: Port): Port {
    p.(reset := p.reset.(resetCount := 0,
                         errorTestCount := 0,
                         totalResetCount := Wrap8(p.reset.totalResetCount + 1)),
       reboot := p.reboot.(phase := RebootInit))
  }

  function ClearEvent(p: Port, e: ArEvent): Port {
    p.(reset := p.reset.(event := p.reset.event - {e}))
  }

  /** The resets that are due while no power cycle is under way: an automatic one, then a manual one. */
  function StartReboot(p: Port, maxReset: uint8): Port {
    var q := if AutoRestart in p.reset.event then AutoReset(ClearEvent(p, AutoRestart), maxReset) else p;
    if ManualRestart in q.reset.event && Enabled(q) then ClearEvent(ManualReset(q), ManualRestart) else q
  }

  /** PoE is off: arm the timer on the first turn of the visit, and leave once it has expired. */
  function WaitPoweredDown(p: Port, env: Env): Port {
    var timeStart := if RebootStart in p.reboot.event then Wrap32(env.armClock + p.reboot.delay) else p.timeStart;
    var expired := env.checkClock >= timeStart;
    p.(timeStart := timeStart,
       reboot := p.reboot.(event := if expired then {TimerStop} else {},
                           phase := if expired then PoeUp else PoeDown))
  }

  function FinishReboot(p: Port): Port {
    var manual := ManualRestart in p.reset.event;
    p.(reboot := p.reboot.(event := p.reboot.event - {TimerStop}, phase := RebootIdle),
       reset := p.reset.(state := RegularState,
                         event := p.reset.event - {ManualRestart},
                         errorCode := p.reset.errorCode - {ErrRebooting, ErrManualReboot}
                                      - (if manual then {ErrPortShutdown} else {})))
  }

  function HandleReboot(p: Port, env: Env, maxReset: uint8): Port {
    match p.reboot.phase
    case RebootIdle => StartReboot(p, maxReset)
    case RebootInit => p.(reboot := p.reboot.(phase := PoeDown, event := p.reboot.event + {RebootStart}))
    case PoeDown => WaitPoweredDown(p, env)
    case PoeUp => FinishReboot(p)
  }

  function Handle(params: Params, p: Port, env: Env): Port {
    match p.reset.state
    case IdleState => HandleIdle(p)
    case RegularState => HandleTest(p, params.testNum)
    case RebootState => HandleReboot(p, env, params.maxReset)
  }

  /** The manual request that `eventsHandler` itself grants after the state's handler. */
  function Rearm(p: Port): Port {
    if ManualRestart in p.reset.event && Enabled(p) then
      ClearEvent(p, ManualRestart).(reboot := p.reboot.(phase := RebootInit))
    else p
  }

  predicate Due(p: Port, i: nat, now: nat)
    requires i < ALARM_MAX
  {
    p.config.alarms[i].armed && now >= p.config.alarms[i].targetTime
  }

  function CommandOf(i: nat): PoeCommand {
    if i == ALARM_UP then PowerUp else PowerDown
  }

  function FireAlarm(p: Port, i: nat, now: nat): Port
    requires i < ALARM_MAX
  {
    if Due(p, i, now) then
      var target := p.config.alarms[i].targetTime;
      p.(config := p.config.(alarms := p.config.alarms[i := TimeAlarm(false, target)]),
         reset := p.reset.(errorCode := if i == ALARM_DOWN then p.reset.errorCode + {ErrPoeDown}
                                        else p.reset.errorCode - {ErrPoeDown}),
         commands := p.commands + [IssuedCommand(CommandOf(i), now, target)])
    else p
  }

  function HandleAlarms(p: Port, now: nat): Port {
    if p.config.alarm then FireAlarm(FireAlarm(p, ALARM_UP, now), ALARM_DOWN, now) else p
  }

  // ---------- one turn ----------

  /** The port as the state's handler finds it. */
  function Seen(p: Port, env: Env): Port {
    Poll(Prepare(p, env), env)
  }

  /** The port as the state's handler leaves it. */
  function Acted(params: Params, p: Port, env: Env): Port {
    Handle(params, Seen(p, env), env)
  }

  function Tick(params: Params, p: Port, env: Env): Port {
    HandleAlarms(Rearm(Acted(params, p, env)), env.alarmClock)
  }
}

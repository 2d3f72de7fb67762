/** The data of the auto-restart daemon: the enumerations and structs that port_manager.h and
    global_includs.h declare.

    A C word used as a set of bits is a `set` here: `w |= B` is `w + {B}`, `w &= ~B` is `w - {B}`,
    and the all-zero constants IDLE_EVENT and REBOOT_EVENT_IDLE are `{}`.
 */
module PortTypes {
  import opened Integers

  datatype Option<+T> = None | Some(value: T)

  /** Seconds that a port is kept without power during a reboot; port_manager_init sets it and
      nothing changes it. */
  const REBOOT_DELAY: uint8 := 7

  datatype ErrorFlag =
    | ErrPortDisable | ErrTestType | ErrTestLink | ErrTestPing | ErrTestSpeed | ErrTimeAlarm
    | ErrTestDisable | ErrPoeDown | ErrUnavailableResource | ErrNullObj | ErrCreateThread
    | ErrJoinThread | ErrIpNotValid | ErrPoeDisable | ErrTimeNotValid | ErrSpeedValue | ErrOk
    | ErrPortShutdown | ErrManualReboot | ErrRebooting | ErrSocket | ErrInvalidPort
    | ErrHwAccess | ErrCfgLoad

  datatype ArState = IdleState | RegularState | RebootState

  datatype ArEvent = TestOk | AutoRestart | ManualRestart

  datatype RebootPhase = RebootIdle | RebootInit | PoeDown | PoeUp

  datatype RebootEvent = RebootStart | TimerStop

  datatype TestType = TestDisable | TestLink | TestPing | TestSpeed | TestMax

  datatype PoeCommand = PowerUp | PowerDown

  /** One scheduled PoE command: `time_h_m`. */
  datatype TimeAlarm = TimeAlarm(armed: bool, targetTime: uint32)

  const ALARM_UP := 0
  const ALARM_DOWN := 1
  const ALARM_MAX := 2

  type Alarms = s: seq<TimeAlarm> | |s| == ALARM_MAX witness [TimeAlarm(false, 0), TimeAlarm(false, 0)]

  datatype PortConfig = PortConfig(testType: TestType, alarm: bool, alarms: Alarms)

  datatype PortFlags = PortFlags(portEnabled: bool, poeEnabled: bool)

  datatype ResetInfo = ResetInfo(
    resetCount: uint8,
    totalResetCount: uint8,
    errorTestCount: uint8,
    errorCode: set<ErrorFlag>,
    event: set<ArEvent>,
    state: ArState)

  datatype RebootInfo = RebootInfo(phase: RebootPhase, event: set<RebootEvent>, delay: uint8)

  /** A command handed to the PoE hardware by an alarm, with the clock reading that triggered it
      and the target time it was scheduled for. */
  datatype IssuedCommand = IssuedCommand(command: PoeCommand, issuedAt: nat, target: uint32)

  /** Everything the daemon stores about its one port, with the deadline `rebootTimeStart` and
      the commands that reached the hardware. */
  datatype Port = Port(
    config: PortConfig,
    flags: PortFlags,
    reset: ResetInfo,
    reboot: RebootInfo,
    timeStart: uint32,
    commands: seq<IssuedCommand>)

  /** `test_num` and `max_reset` as the handlers read them: truncated to eight bits. */
  datatype Params = Params(testNum: uint8, maxReset: uint8)

  /** What the outside world does in one turn of the poll loop: the gate and the flags delivered
      by the port query, the test outcomes, the events and alarm times set by other parties
      beforehand, and the three clock readings in the order in which a turn takes them. */
  datatype Env = Env(
    gateOpen: bool,
    flags: PortFlags,
    linkUp: bool,
    pingOk: bool,
    statsReply: bool,
    raised: set<ArEvent>,
    armUp: Option<uint32>,
    armDown: Option<uint32>,
    armClock: nat,
    checkClock: nat,
    alarmClock: nat)
}

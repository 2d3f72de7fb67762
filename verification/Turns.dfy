/** What one turn of the poll loop does, bit by bit and counter by counter, with the constants of the
    source and without the functions that the methods are proved against. Together these lemmas fix
    the whole state of the port after a turn. */
module Turns {
  import opened Integers
  import opened PortTypes
  import opened PortSpec
  import opened Runs

  /** Boot. */
  lemma BootValues(config: PortConfig)
    ensures var p := Boot(config);
            && p.config == config && p.commands == []
            && p.reset.state == RegularState && p.reset.event == {} && p.reset.errorCode == {ErrOk}
            && p.reset.resetCount == p.reset.totalResetCount == p.reset.errorTestCount == 0
            && p.reboot.phase == RebootInit && p.reboot.event == {RebootStart} && p.reboot.delay == 7
            && !p.flags.portEnabled && !p.flags.poeEnabled
  {
  }

  // ---------- the polls ----------

  /** The error word that the handlers find. A closed gate leaves it alone; otherwise each test sets
      and clears the bits that belong to it, in every mode. */
  lemma BitsAfterPoll(p: Port, env: Env)
    ensures var before, after, mode := p.reset.errorCode, Seen(p, env).reset.errorCode, p.config.testType;
            var linked := mode in {TestLink, TestPing, TestSpeed};
            if !env.gateOpen then after == before
            else
              && (ErrTestLink in after <==> if linked then !env.linkUp else ErrTestLink in before)
              && (ErrTestPing in after
                  <==> ErrTestPing in before || (mode == TestPing && env.linkUp && !env.pingOk))
              && (ErrTestSpeed in after <==> ErrTestSpeed in before || (mode == TestSpeed && env.linkUp))
              && (ErrTestDisable in after <==> ErrTestDisable in before || mode == TestDisable)
              && (ErrOk in after <==> match mode
                                      case TestLink => env.linkUp
                                      case TestPing => env.linkUp && env.pingOk
                                      case TestSpeed => false
                                      case TestDisable => false
                                      case TestMax => ErrOk in before)
              && (forall e :: e !in {ErrTestLink, ErrTestPing, ErrTestSpeed, ErrTestDisable, ErrOk} ==>
                    (e in after <==> e in before))
  {
  }

  // ---------- the alarms ----------

  /** Alarm 0 switches the port on and alarm 1 switches it off: each does so if it is set and its
      time has come, in this order, and is not set afterwards. ERR_POE_DOWN follows the last one. */
  lemma AlarmsAfterTurn(params: Params, p: Port, env: Env)
    ensures var q, now := Tick(params, p, env), env.alarmClock;
            var set0 := env.armUp.Some? || p.config.alarms[0].armed;
            var set1 := env.armDown.Some? || p.config.alarms[1].armed;
            var time0 := if env.armUp.Some? then env.armUp.value else p.config.alarms[0].targetTime;
            var time1 := if env.armDown.Some? then env.armDown.value else p.config.alarms[1].targetTime;
            var fires0 := p.config.alarm && set0 && now >= time0;
            var fires1 := p.config.alarm && set1 && now >= time1;
            && q.commands == p.commands
                 + (if fires0 then [IssuedCommand(PowerUp, now, time0)] else [])
                 + (if fires1 then [IssuedCommand(PowerDown, now, time1)] else [])
            && q.config.alarms == [TimeAlarm(set0 && !fires0, time0), TimeAlarm(set1 && !fires1, time1)]
            && q.config.alarm == p.config.alarm
            && (ErrPoeDown in q.reset.errorCode
                <==> if fires1 then true else if fires0 then false else ErrPoeDown in p.reset.errorCode)
  {
    hide Rearm, Acted, Prepare;
    BeforeAlarms(params, p, env);
  }

  lemma BeforeAlarms(params: Params, p: Port, env: Env)
    ensures var q := Rearm(Acted(params, p, env));
            && q.config.alarm == p.config.alarm && q.commands == p.commands
            && (ErrPoeDown in q.reset.errorCode <==> ErrPoeDown in p.reset.errorCode)
            && q.config.alarms == [
                 if env.armUp.Some? then TimeAlarm(true, env.armUp.value) else p.config.alarms[0],
                 if env.armDown.Some? then TimeAlarm(true, env.armDown.value) else p.config.alarms[1]]
  {
  }

  // ---------- the states ----------

  /** The situations of a turn that decide what the handlers do. */
  ghost predicate Idling(p: Port) {
    p.reset.state == RebootState && p.reboot.phase == RebootIdle
  }

  ghost predicate Has(p: Port, env: Env, e: ArEvent) {
    e in p.reset.event || e in env.raised
  }

  ghost predicate Powered(env: Env) {
    env.flags.portEnabled && env.flags.poeEnabled
  }

  /** The test counter, eight bits wide, after the verdict of this turn. */
  ghost function Recount(code: set<ErrorFlag>, count: int): int {
    if ErrOk in code then (if count > 0 then count - 1 else 0)
    else if ErrTestLink in code || ErrTestPing in code || ErrTestSpeed in code then (count + 1) % 256
    else count
  }

  ghost predicate Trips(params: Params, p: Port, env: Env) {
    var code := Seen(p, env).reset.errorCode;
    && p.reset.state == RegularState && ErrOk !in code
    && (ErrTestLink in code || ErrTestPing in code || ErrTestSpeed in code)
    && (p.reset.errorTestCount + 1) % 256 >= params.testNum
  }

  /** The three counters: polls count in REGULAR_STATE, resets where a reboot waits for its request. */
  lemma CountersAfterTurn(params: Params, p: Port, env: Env)
    ensures var q := Tick(params, p, env).reset;
            var counted := Idling(p) && Has(p, env, AutoRestart) && p.reset.resetCount < params.maxReset;
            var manual := Idling(p) && Has(p, env, ManualRestart) && Powered(env);
            && q.errorTestCount == (if counted || manual then 0
                                    else if p.reset.state == RegularState
                                    then Recount(Seen(p, env).reset.errorCode, p.reset.errorTestCount)
                                    else p.reset.errorTestCount)
            && q.resetCount == (if manual then 0 else if counted then p.reset.resetCount + 1 else p.reset.resetCount)
            && q.totalResetCount == (p.reset.totalResetCount + One(counted) + One(manual)) % 256
  {
    hide Tick, Seen, Acted, Recount;
    SeenChanges(p, env);
    TickAfterRearm(params, p, env);
    TestCounter(params, Seen(p, env), env);
    ResetCounters(params, Seen(p, env), env);
    assert Acted(params, p, env) == Handle(params, Seen(p, env), env) by { ActedIs(params, p, env); }
    hide Handle;
    RearmKeepsCounters(Acted(params, p, env));
  }

  lemma ActedIs(params: Params, p: Port, env: Env)
    ensures Acted(params, p, env) == Handle(params, Seen(p, env), env)
  {
    hide Handle, Seen;
  }

  lemma RearmKeepsCounters(p: Port)
    ensures Rearm(p).reset == p.reset.(event := Rearm(p).reset.event)
  {
  }

  lemma TestCounter(params: Params, p: Port, env: Env)
    ensures var counted := Idling(p) && AutoRestart in p.reset.event && p.reset.resetCount < params.maxReset;
            var manual := Idling(p) && ManualRestart in p.reset.event && Enabled(p);
            Handle(params, p, env).reset.errorTestCount
            == if counted || manual then 0
               else if p.reset.state == RegularState then Recount(p.reset.errorCode, p.reset.errorTestCount)
               else p.reset.errorTestCount
  {
  }

  lemma ResetCounters(params: Params, p: Port, env: Env)
    ensures var q := Handle(params, p, env).reset;
            var counted := Idling(p) && AutoRestart in p.reset.event && p.reset.resetCount < params.maxReset;
            var manual := Idling(p) && ManualRestart in p.reset.event && Enabled(p);
            && q.resetCount == (if manual then 0 else if counted then p.reset.resetCount + 1 else p.reset.resetCount)
            && q.totalResetCount == (p.reset.totalResetCount + One(counted) + One(manual)) % 256
  {
    hide Wrap8, HandleTest;
    var total: uint8 := p.reset.totalResetCount;
    Wrap8Small(total);
    Wrap8Add(total + 1, 1);
    Wrap8IsModulo(total + One(true) + One(true));
    Wrap8IsModulo(total + 1);
    Wrap8IsModulo(total);
    TestKeepsResets(p, params.testNum);
  }

  lemma TestKeepsResets(p: Port, testNum: uint8)
    ensures var q := HandleTest(p, testNum).reset;
            q.resetCount == p.reset.resetCount && q.totalResetCount == p.reset.totalResetCount
  {
  }

  lemma Wrap8IsModulo(n: nat)
    ensures Wrap8(n) == n % 256
  {
  }

  /** The state: a trip starts a reboot, the end of POE_UP ends it, a request beyond the limit shuts
      the port down, and a passed test reported from outside brings it back. */
  lemma StateAfterTurn(params: Params, p: Port, env: Env)
    ensures Tick(params, p, env).reset.state
         == match p.reset.state
            case IdleState => if Has(p, env, TestOk) then RegularState else IdleState
            case RegularState => if Trips(params, p, env) then RebootState else RegularState
            case RebootState =>
              if p.reboot.phase == PoeUp then RegularState
              else if Idling(p) && Has(p, env, AutoRestart) && p.reset.resetCount >= params.maxReset then IdleState
              else RebootState
  {
    hide Tick, Seen;
    SeenChanges(p, env);
    TickAfterRearm(params, p, env);
  }

  /** The deadline of the power-down. */
  ghost function Deadline(p: Port, env: Env): int {
    if RebootStart in p.reboot.event then (env.armClock + p.reboot.delay) % 0x1_0000_0000 else p.timeStart
  }

  lemma DeadlineIsTruncated(p: Port, env: Env)
    ensures Deadline(p, env)
         == if RebootStart in p.reboot.event then Wrap32(env.armClock + p.reboot.delay) else p.timeStart
  {
  }

  /** The phase: a manual request that is granted puts it to INIT wherever it is, except at the end of
      POE_UP, which discards the request; otherwise it goes once around the cycle in REBOOT_STATE and
      stands still elsewhere. */
  lemma PhaseAfterTurn(params: Params, p: Port, env: Env)
    ensures Tick(params, p, env).reboot.phase
         == var cycling := p.reset.state == RebootState;
            if cycling && p.reboot.phase == PoeUp then RebootIdle
            else if Has(p, env, ManualRestart) && Powered(env) then RebootInit
            else if !cycling then p.reboot.phase
            else match p.reboot.phase
                 case RebootIdle =>
                   if Has(p, env, AutoRestart) && p.reset.resetCount < params.maxReset then RebootInit else RebootIdle
                 case RebootInit => PoeDown
                 case PoeDown => if env.checkClock >= Deadline(p, env) then PoeUp else PoeDown
                 case PoeUp => RebootIdle
  {
    hide Tick, Seen, Deadline, Wrap32;
    DeadlineIsTruncated(p, env);
    SeenChanges(p, env);
    TickAfterRearm(params, p, env);
  }

  /** The timer: set on the first turn in POE_DOWN, read on every one, and its events with it. */
  lemma TimerAfterTurn(params: Params, p: Port, env: Env)
    ensures var q := Tick(params, p, env);
            var waiting := p.reset.state == RebootState && p.reboot.phase == PoeDown;
            && q.reboot.delay == p.reboot.delay
            && q.timeStart == (if waiting then Deadline(p, env) else p.timeStart)
            && (TimerStop in q.reboot.event
                <==> if waiting then env.checkClock >= Deadline(p, env)
                     else TimerStop in p.reboot.event && !(p.reset.state == RebootState && p.reboot.phase == PoeUp))
            && (RebootStart in q.reboot.event
                <==> if waiting then false
                     else RebootStart in p.reboot.event
                          || (p.reset.state == RebootState && p.reboot.phase == RebootInit))
  {
    hide Tick, Seen, Deadline, Wrap32;
    DeadlineIsTruncated(p, env);
    SeenChanges(p, env);
    TickAfterRearm(params, p, env);
  }

  /** The events that wait for the next turn. */
  lemma EventsAfterTurn(params: Params, p: Port, env: Env)
    ensures var q := Tick(params, p, env).reset.event;
            && (TestOk in q <==> Has(p, env, TestOk) && p.reset.state != IdleState)
            && (AutoRestart in q <==> (Has(p, env, AutoRestart) && !Idling(p)) || Trips(params, p, env))
            && (ManualRestart in q <==> && Has(p, env, ManualRestart) && !Powered(env)
                                        && !(p.reset.state == RebootState && p.reboot.phase == PoeUp))
  {
    hide Tick, Seen, Handle, Rearm;
    SeenChanges(p, env);
    TickAfterRearm(params, p, env);
    HandledEvents(params, Seen(p, env), env);
    RearmedEvents(Acted(params, p, env));
  }

  lemma RearmedEvents(p: Port)
    ensures var q := Rearm(p).reset.event;
            && (TestOk in q <==> TestOk in p.reset.event) && (AutoRestart in q <==> AutoRestart in p.reset.event)
            && (ManualRestart in q <==> ManualRestart in p.reset.event && !Enabled(p))
  {
  }

  lemma HandledEvents(params: Params, p: Port, env: Env)
    ensures var q := Handle(params, p, env);
            var code := p.reset.errorCode;
            var trips := && p.reset.state == RegularState && ErrOk !in code
                         && (ErrTestLink in code || ErrTestPing in code || ErrTestSpeed in code)
                         && (p.reset.errorTestCount + 1) % 256 >= params.testNum;
            && q.flags == p.flags
            && (TestOk in q.reset.event <==> TestOk in p.reset.event && p.reset.state != IdleState)
            && (AutoRestart in q.reset.event <==> (AutoRestart in p.reset.event && !Idling(p)) || trips)
            && (ManualRestart in q.reset.event
                <==> && ManualRestart in p.reset.event && !(Idling(p) && Enabled(p))
                     && !(p.reset.state == RebootState && p.reboot.phase == PoeUp))
  {
  }

  /** The error bits that the handlers change after the poll; the alarms' bit apart, no other does. */
  lemma BitsAfterTurn(params: Params, p: Port, env: Env)
    ensures var seen, q := Seen(p, env).reset.errorCode, Tick(params, p, env).reset.errorCode;
            var auto := Idling(p) && Has(p, env, AutoRestart);
            var limit := p.reset.resetCount >= params.maxReset;
            var finished := p.reset.state == RebootState && p.reboot.phase == PoeUp;
            && (ErrOk in q <==> ErrOk in seen && !auto)
            && (ErrRebooting in q <==> (auto && !limit) || (ErrRebooting in seen && !finished && !auto))
            && (ErrPortShutdown in q
                <==> || (auto && limit)
                     || (ErrPortShutdown in seen && !(p.reset.state == IdleState && Has(p, env, TestOk))
                         && !(finished && Has(p, env, ManualRestart))))
            && (ErrManualReboot in q <==> ErrManualReboot in seen && !finished)
            && (forall e :: e !in {ErrOk, ErrRebooting, ErrPortShutdown, ErrManualReboot, ErrPoeDown} ==>
                  (e in q <==> e in seen))
  {
    hide Seen, HandleAlarms, Handle, Rearm;
    var acted := Acted(params, p, env);
    SeenChanges(p, env);
    RearmKeepsBits(acted);
    AlarmChanges(Rearm(acted), env.alarmClock);
    NamedBits(params, Seen(p, env), env);
    OtherBits(params, Seen(p, env), env);
  }

  lemma RearmKeepsBits(p: Port)
    ensures Rearm(p).reset.errorCode == p.reset.errorCode && Rearm(p).config == p.config && Rearm(p).flags == p.flags
  {
  }

  lemma NamedBits(params: Params, p: Port, env: Env)
    ensures var before, q := p.reset.errorCode, Handle(params, p, env).reset.errorCode;
            var auto := Idling(p) && AutoRestart in p.reset.event;
            var limit := p.reset.resetCount >= params.maxReset;
            var finished := p.reset.state == RebootState && p.reboot.phase == PoeUp;
            && (ErrOk in q <==> ErrOk in before && !auto)
            && (ErrRebooting in q <==> (auto && !limit) || (ErrRebooting in before && !finished && !auto))
            && (ErrPortShutdown in q
                <==> || (auto && limit)
                     || (ErrPortShutdown in before && !(p.reset.state == IdleState && TestOk in p.reset.event)
                         && !(finished && ManualRestart in p.reset.event)))
            && (ErrManualReboot in q <==> ErrManualReboot in before && !finished)
  {
  }

  lemma OtherBits(params: Params, p: Port, env: Env)
    ensures forall e :: e !in {ErrOk, ErrRebooting, ErrPortShutdown, ErrManualReboot} ==>
              (e in Handle(params, p, env).reset.errorCode <==> e in p.reset.errorCode)
  {
  }

  /** The rest: the flags are those of this turn's query, and a port is no longer tested once it has
      been shut down with a configuration error. */
  lemma SettingsAfterTurn(params: Params, p: Port, env: Env)
    ensures var q, seen := Tick(params, p, env), Seen(p, env).reset.errorCode;
            && q.flags == env.flags
            && q.config.testType
               == if && Idling(p) && Has(p, env, AutoRestart) && p.reset.resetCount >= params.maxReset
                     && (ErrIpNotValid in seen || ErrTimeNotValid in seen
                         || ErrSpeedValue in seen || ErrPortDisable in seen)
                  then TestDisable else p.config.testType
  {
    hide Seen, HandleAlarms, Handle, Rearm;
    var acted := Acted(params, p, env);
    SeenChanges(p, env);
    RearmKeepsBits(acted);
    AlarmChanges(Rearm(acted), env.alarmClock);
    HandlerSettings(params, Seen(p, env), env);
  }

  lemma HandlerSettings(params: Params, p: Port, env: Env)
    ensures var q, before := Handle(params, p, env), p.reset.errorCode;
            && q.flags == p.flags
            && q.config.testType
               == if && Idling(p) && AutoRestart in p.reset.event && p.reset.resetCount >= params.maxReset
                     && (ErrIpNotValid in before || ErrTimeNotValid in before
                         || ErrSpeedValue in before || ErrPortDisable in before)
                  then TestDisable else p.config.testType
  {
  }
}

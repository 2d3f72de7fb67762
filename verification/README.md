# Verification of the auto-restart daemon

A Dafny model of the daemon that watches a PoE port and power-cycles the device behind it, with
machine-checked proofs of what the daemon does over whole runs. Three parts of the program are
modelled:

- **The per-port machine** (`events_module.c`, `port_manager.c`, and the poll loop of
  `ar_mainApp.c`): the states IDLE / REGULAR / REBOOT, the four phases of a reboot inside REBOOT,
  the event and error bits that both share, the failure counter, the reset counter, the power-down
  deadline and the two PoE alarms.
- **The ping packets** (`ar_ping.c`): the Internet checksum as a loop with deferred carries and two
  folds, the echo request, and the test applied to a reply.
- **The error history** (`error_handler.c`): a ring of ten slots.

## How the model is built

`Integers` and `PortTypes` hold the data. `PortSpec` defines one turn of the poll loop as a
function, `Tick`. `PortManager` and `Events` hold the program in its own form, classes whose
methods change fields in place, and each method is proved to compute the corresponding function;
`Events.RunTestHandler`, the loop, ends in the state `Runs.After`. The remaining modules prove
properties of one turn and of `Runs.After`, that is, of every state after every sequence of turns:

- `Turns`: the whole effect of one turn, spelled out in bits, counters and the constants of the
  source, without the functions that the methods are proved against;
- `Runs`: what holds in every reachable state, and the accounting of power cycles;
- `PowerDown`: how long the port stays without power;
- `FailureCounter`: what the failure counter counts, and exactly when a reboot begins;
- `Liveness`: faithful verdicts, and exactly when a reboot ends;
- `Shutdown`: the fate of a failing port, to the turn, and of a healthy one;
- `Requests`: how long requests stay pending, and what many of them do;
- `AlarmLog`: the commands that alarms issue.

`OnesComplement` is the algebra of the checksum, `InternetChecksum` the checksum itself, `IcmpEcho`
the packets, and `ErrorHistory` the ring.

A run is a sequence of `Env` records, one a turn: the gate and the port flags that the port query
delivers, the test outcomes, the events and alarm times that other parties set beforehand, and
three clock readings. Results about *every* run allow any event to be raised from outside. Results
about the program *as it stands* (`Closed`) use that nothing raises one: the producers of
`MANUAL_RESTART` and `TEST_OK` are commented out (`src/autorestartd/client_module.c:87`,
`src/autorestartd/port_manager.c:312`). Entering POE_DOWN and POE_UP stands for the hardware
commands that are commented out in `rebootHandler`.

There is one port, as `NUM_PORTS` says. A C word of flags is a set; the eight-bit counters and the
32-bit deadline and accumulator wrap as in C. `max_reset` and `test_num` are eight-bit values that
stay the same during a run.

## What the proofs brought to light

- The first reboot after boot is never counted, so a port can be switched off `max_reset + 1` times,
  and that reboot does not set the failure counter back.
- In speed mode every poll is counted as a failure, because the elapsed time is the difference of a
  variable with itself (`Liveness.VerdictsAreFaithful`); such a port is always shut down.
- A single failed poll followed by a closed gate is enough to have a port shut down: a gated port is
  not tested, but the stale verdict is counted on every turn (`Shutdown.AilingPortIsShutDown`).
- With `test_num` 255, which nothing in the configuration loader refuses, the counter wraps and a
  failure is lost (`Shutdown.CounterWrapsAt255`); for every smaller value it does not
  (`Shutdown.ClosedCounter`). Manual requests and revivals use up the same eight bits, one each
  (`FailureCounter.CounterIsBounded`, `Requests.RequestBudgetIsTight`).
- A reboot grows longer exactly on the turns on which `eventsHandler` itself grants a manual request
  (`Liveness.RebootStep`), so a failing port with such a request on every turn enters REBOOT_STATE
  and never leaves it (`Requests.NaggedReboot`).
- The checksum is right for every buffer of up to 131074 bytes and wrong for one of 131075.
- `validate_reply` looks neither at the code nor at the payload of a reply, and refuses the second
  representation of zero in the checksum field (`IcmpEcho.RecomputeVersusAllOnes`).

## Model

| member | source | states |
|---|---|---|
| Events.RunTestHandler | src/autorestartd/ar_mainApp.c:78-126 | The poll loop: after any number of turns from boot the port is the state that the run function gives, so every lemma about runs is about this loop. |
| Events.PollOnce | src/autorestartd/ar_mainApp.c:95-122 | One turn: the gate, the tests of the configured mode in their order, then the event handlers, is one `Tick` of the port. |
| Events.EventsHandler | src/autorestartd/events_module.c:36-71 | The handler of the state, the manual re-arm and the alarms act on the copy, and the copy-back leaves the table as if they had acted on the table. |
| Events.HandleIdleState | src/autorestartd/events_module.c:73-85 | The idle handler refines its step function. |
| Events.RebootHandler | src/autorestartd/events_module.c:87-168 | The four phases of a reboot, including an automatic and a manual reset in the same turn, refine their step function; only the deadline and the copy change. |
| Events.TestErrorHandler | src/autorestartd/events_module.c:170-191 | The counting of verdicts, with eight-bit wrap-around, refines its step function. |
| Events.AlarmHandler | src/autorestartd/events_module.c:193-218 | The alarm loop refines its step function, and the configuration written in mid-step is the one that the final copy-back writes. |
| PortManager.PortTable.constructor | src/autorestartd/port_manager.c:23-78 | Boot: REGULAR_STATE with a reboot already in its INIT phase, ERR_OK set, all counters zero, a delay of 7. |
| PortManager.PortTable.RunTestLink | src/autorestartd/port_manager.c:175-209 | The link test exchanges ERR_OK and ERR_TEST_LINK and touches no other bit. |
| PortManager.PortTable.RunTestPing | src/autorestartd/port_manager.c:211-237 | The ping test, skipped after a failed link test, with ERR_TEST_PING never cleared. |
| PortManager.PortTable.RunTestSpeed | src/autorestartd/port_manager.c:239-318 | Whatever the statistics reply is, the speed test ends without ERR_OK, and with ERR_TEST_SPEED if the link is up. |
| PortManager.PortTable.RunTestDisable | src/autorestartd/port_manager.c:163-173 | The bits that a disabled test leaves. |
| PortManager.PortTable.GetInfo | src/autorestartd/port_manager.c:456-472 | The handlers get a fresh copy of everything stored. |
| PortManager.PortTable.UpdateInfo | src/autorestartd/port_manager.c:474-494 | The whole copy is written back, the configuration included. |
| PortManager.PortTable.SetErrorHandler | src/autorestartd/port_manager.c:568-579 | The test mode is switched off exactly if one of four error bits is set. |
| PortManager.PortTable.AutoResetHandler | src/autorestartd/port_manager.c:496-552 | A counted reset within the limit, or shutdown at the limit. |
| PortManager.PortTable.ManualResetHandler | src/autorestartd/port_manager.c:554-566 | A manual reset zeroes both counters and asks for a reboot. |
| PortManager.PortTable.SetTimeStart | src/autorestartd/port_manager.c:581-588 | The deadline is the clock plus the delay, truncated to 32 bits. |
| PortManager.PortTable.GetRebootEvent | src/autorestartd/port_manager.c:590-612 | The timer event is delivered exactly from the deadline on, and replaces all earlier ones. |
| PortManager.PortTable.PoeControl | src/autorestartd/port_manager.c:447-454 | A command reaches the hardware after all earlier ones. |
| Turns.BootValues | src/autorestartd/port_manager.c:36-60 | Boot in literal values: a delay of 7, phase INIT with its start event, REGULAR_STATE, only ERR_OK set, no event, three zero counters, no command. |
| Turns.BitsAfterPoll | src/autorestartd/ar_mainApp.c:95-120 | The exact error word after a poll in every mode: which test sets, clears or keeps each of the five test bits, and that a closed gate changes none. |
| Turns.AlarmsAfterTurn | src/autorestartd/events_module.c:193-218 | Alarm 0 issues UP and alarm 1 DOWN, each iff alarms are enabled, it is set and its time has come, UP first; which alarms stay set; ERR_POE_DOWN set by the second, cleared by the first alone, else kept. |
| Turns.CountersAfterTurn | src/autorestartd/events_module.c:170-191 | The exact value of the three counters after a turn, modulo 256 where they wrap. |
| Turns.StateAfterTurn | src/autorestartd/events_module.c:73-191 | Exactly when a turn trips, ends a reboot, shuts the port down and revives it. |
| Turns.PhaseAfterTurn | src/autorestartd/events_module.c:52-160 | The phase after a turn, with the automatic and the manual request and the deadline in any combination. |
| Turns.TimerAfterTurn | src/autorestartd/events_module.c:111-137 | The deadline, modulo 2^32, and the two timer events after a turn. |
| Turns.EventsAfterTurn | src/autorestartd/events_module.c:52-109 | Exactly which of the three events are pending after a turn. |
| Turns.BitsAfterTurn | src/autorestartd/events_module.c:73-191 | The exact value of every error bit after the handlers, and that no other is touched. |
| Turns.SettingsAfterTurn | src/autorestartd/port_manager.c:568-579 | The flags are those of this turn, and the test mode changes only by a shutdown with one of four configuration errors. |
| Runs.FlagsAgreeWithState | src/autorestartd/events_module.c:73-159 | In every reachable state ERR_PORT_SHUTDOWN is set iff the port is in IDLE_STATE, ERR_REBOOTING only during a reboot, a reboot that has not started has AUTO_RESTART pending, POE_DOWN and POE_UP occur in REBOOT_STATE only, and the reset counter is within `max_reset`. |
| Runs.PowerCycleConservation | src/autorestartd/events_module.c:52-160 | On every run: power cuts, plus a reboot waiting to start, plus requests overwritten, equal one plus all counted resets, manual resets and re-arms. |
| Runs.TotalCountsResets | src/autorestartd/port_manager.c:543-566 | On every run the stored total is the number of automatic and manual resets modulo 256. |
| Runs.ResetCountIsCountedSinceManual | src/autorestartd/port_manager.c:531-566 | On every run the reset counter is the number of counted resets since the last manual reset, and never above the limit. |
| Runs.RebootingMarksCountedReboots | src/autorestartd/events_module.c:136-152 | On every run ERR_REBOOTING is set iff a counted reset has been granted whose power cycle has not ended. |
| Runs.ClosedPowerCycles | src/autorestartd/port_manager.c:531-551 | As it stands: power cuts plus a waiting reboot are one more than the total, the total equals the reset counter, and there are never more than `max_reset + 1` power cuts. |
| PowerDown.MinimumPowerDown | src/autorestartd/events_module.c:116-134 | On every run, whatever stale events there are: POE_UP is entered only if the timer was armed exactly once in this visit to POE_DOWN and seven seconds have passed since. |
| PowerDown.DeadlineMustFit | src/autorestartd/port_manager.c:584-610 | A turn that arms the timer and looks at it before the delay has passed gives the power back at once iff the deadline does not fit in 32 bits. |
| FailureCounter.CounterIsBestSuffix | src/autorestartd/events_module.c:174-183 | On every run the counter is the largest excess of failures over passes in a stretch of polls that ends now, counted since it was last zeroed, as long as no failure was counted with the counter at 255. |
| FailureCounter.CounterIsBestSuffixIff | src/autorestartd/events_module.c:174-183 | That condition is exact: the counter is that excess at every point of a run iff no failure is lost on it. |
| FailureCounter.RebootExactlyWhenTripped | src/autorestartd/events_module.c:180-190 | On every run without an earlier loss: REBOOT_STATE is entered iff a poll in REGULAR_STATE fails and completes a stretch with at least `test_num` more failures than passes; and this equivalence holds on a turn iff the turn loses no failure or `test_num` is 0. |
| FailureCounter.CounterIsBounded | src/autorestartd/events_module.c:52-60 | On every run the counter exceeds `test_num` (1 if that is 0) by at most one plus the number of re-arms and revivals, and by less while a reboot waits or is under way and in REGULAR_STATE. |
| FailureCounter.FewRequestsLoseNoFailure | src/autorestartd/events_module.c:182 | On every run with at most 254 for `test_num`, re-arms and revivals together, no failure is lost. |
| Requests.RequestBudgetIsTight | src/autorestartd/events_module.c:182 | For every `test_num` from 1 there is a run with an orderly clock and a sum of 255 on which a failure is lost. |
| Shutdown.ClosedCounter | src/autorestartd/events_module.c:182 | As it stands the counter never exceeds `test_num + 1`, and does not wrap for any `test_num` up to 254. |
| Shutdown.ClosedRebootExactlyWhenTripped | src/autorestartd/events_module.c:180-190 | As it stands REBOOT_STATE is entered exactly when due on every run for every `test_num` up to 254, with no condition on the counter. |
| Shutdown.CounterWrapsAt255 | src/autorestartd/events_module.c:182 | For a `test_num` of 255 there is a run of the program as it stands on which a failure is lost: the counter wraps from 255 to 0 and no reboot begins. |
| Liveness.VerdictsAreFaithful | src/autorestartd/ar_mainApp.c:102-114 | After an ungated link or ping poll ERR_OK is set iff all its tests passed, and a failure is counted otherwise, whatever bits were left behind; a speed poll always counts as a failure. |
| Liveness.GatedVerdictStands | src/autorestartd/ar_mainApp.c:96-100 | A gated port keeps the verdict of its last poll. |
| Liveness.RebootStep | src/autorestartd/events_module.c:92-160 | A turn shortens a reboot under way iff `eventsHandler` grants no manual request on it, by exactly one turn if the clock is steady; without such a grant the phase moves at most one step along the cycle. |
| Liveness.RearmedDuringReboot | src/autorestartd/events_module.c:52-60 | During a reboot such a grant happens iff a manual request is pending or made, port and PoE are enabled and the phase is INIT or POE_DOWN. |
| Liveness.EveryRebootEnds | src/autorestartd/events_module.c:92-160 | On every run with a clock that gains a second a turn, a reboot is over within delay + 4 turns if `eventsHandler` grants no manual request in that time. |
| Liveness.PowerCycleEndsOnTimeIff | src/autorestartd/events_module.c:52-160 | With a steady clock a power cycle under way is over after the turns it has left iff `eventsHandler` grants no manual request on any of them. |
| Requests.NaggingStarvesTheReboot | src/autorestartd/events_module.c:52-60 | From a reboot in phase INIT, a granted manual request on every turn keeps the port in REBOOT_STATE and phase INIT and its power away. |
| Requests.NaggedReboot | src/autorestartd/events_module.c:52-60 | A concrete run: a dead device with a manual request on every turn enters REBOOT_STATE after `test_num` turns (1 if that is 0) and never leaves it, and power never comes back. |
| Requests.ManualRequestPending | src/autorestartd/events_module.c:52-60 | A manual request stays pending iff the port or its PoE is disabled and no power cycle has just ended. |
| Requests.AutoRequestPending | src/autorestartd/events_module.c:95-99 | An automatic request is made by each trip of the counter and stays pending until a reboot can start, so the one of the first reboot survives it. |
| Requests.OnlyTestOkRevives | src/autorestartd/events_module.c:73-85 | IDLE_STATE is left iff TEST_OK is raised, always to REGULAR_STATE, with both counters kept. |
| Shutdown.AilingPortIsShutDown | src/autorestartd/events_module.c:87-191 | From every reachable state of the program as it stands: a port that fails a poll and passes none is in IDLE_STATE with ERR_PORT_SHUTDOWN within `TurnsToShutdown` turns, after exactly `max_reset + 1` power cuts. |
| Shutdown.ShutdownTurnIsExact | src/autorestartd/events_module.c:87-191 | From every reachable state of the program as it stands: with a steady clock an ailing port is shut down on the turn that the measure names and not before. |
| Shutdown.ShutdownTurnFromBoot | src/autorestartd/events_module.c:87-191 | From boot that is turn `TurnsToShutdown`, whatever the clock shows on the first turn. |
| Shutdown.RankStep | src/autorestartd/events_module.c:87-191 | The measure drops on every failing turn, by exactly one if the clock is steady, and is zero exactly in IDLE_STATE. |
| Shutdown.ShutdownIsFinal | src/autorestartd/events_module.c:73-85 | As it stands no later poll brings a shut-down port back or cuts its power again. |
| Shutdown.HealthyPortIsLeftAlone | src/autorestartd/events_module.c:174-190 | On every run a port of which no poll fails stays in REGULAR_STATE and never loses power. |
| AlarmLog.TurnIssuesWhatIsDue | src/autorestartd/events_module.c:193-218 | A turn issues exactly the commands due, UP before DOWN, disarms exactly those, and ERR_POE_DOWN follows the last one. |
| AlarmLog.AlarmLogInOrder | src/autorestartd/events_module.c:201-209 | On every run no command is issued before its target time, and ERR_POE_DOWN is set iff the last command was DOWN. |
| AlarmLog.EachArmingFiresOnce | src/autorestartd/events_module.c:201-215 | On every run commands issued plus the alarm still set equal the times the alarm was set. |
| InternetChecksum.Checksum | src/autorestartd/ar_ping.c:143-161 | The loop, the odd byte, the two folds and the complement compute the checksum function of the first `length` bytes. |
| InternetChecksum.TwoFoldsSuffice | src/autorestartd/ar_ping.c:157-160 | For every 32-bit sum two folds give its one's-complement value. |
| InternetChecksum.WordsWeighBytes | src/autorestartd/ar_ping.c:148-155 | The words add up to the bytes with those at odd places counted 256 times, a last odd byte once. |
| InternetChecksum.ChecksumIsExact | src/autorestartd/ar_ping.c:143-161 | Up to 131074 bytes the checksum is the complement of the end-around-carry sum of RFC 1071, 0 before the complement iff all words are 0 and else in 1..65535 modulo 65535. |
| InternetChecksum.ExactIffNoOverflow | src/autorestartd/ar_ping.c:145-150 | Beyond that the checksum is right iff the 32-bit sum does not overflow. |
| InternetChecksum.OverflowAt131075 | src/autorestartd/ar_ping.c:145-155 | The length is tight: a buffer of 131075 bytes on which the sum overflows and the checksum is wrong. |
| InternetChecksum.OddLengthIsPadded | src/autorestartd/ar_ping.c:153-155 | An odd length counts as if a zero byte followed (section 2 of RFC 1071). |
| InternetChecksum.OrderIndependent | src/autorestartd/ar_ping.c:148-151 | Any rearrangement of the words has the same checksum. |
| InternetChecksum.ByteOrderIndependent | src/autorestartd/ar_ping.c:143-161 | Exchanging the bytes of all words exchanges the bytes of the checksum (section 2(B) of RFC 1071). |
| IcmpEcho.PreparePacket | src/autorestartd/ar_ping.c:163-178 | All 72 bytes of the request: type 8, code 0, identifier and sequence in network order, the counting payload, the checksum over the rest. |
| IcmpEcho.ValidateReply | src/autorestartd/ar_ping.c:180-194 | Acceptance is: the recomputed checksum equals the field, the type is 0, identifier and sequence match; the reply is not changed. |
| IcmpEcho.RequestBytes | src/autorestartd/ar_ping.c:163-178 | The request byte by byte: 8, 0, identifier and sequence high byte first, payload 0 to 63, and a checksum with which the packet sums to all ones. |
| IcmpEcho.AcceptedBytes | src/autorestartd/ar_ping.c:180-194 | Exactly which 72 bytes are accepted: first byte 0, identifier and sequence high byte first, the packet sums to all ones, and the checksum field is not 0xFFFF unless all else is zero. |
| IcmpEcho.RecomputeVersusAllOnes | src/autorestartd/ar_ping.c:180-188 | The comparison succeeds iff the whole packet sums to all ones and the field is not 0xFFFF in a packet that is otherwise not all zero (section 5 of RFC 1624). |
| IcmpEcho.WordChangeIsNoticed | src/autorestartd/ar_ping.c:180-194 | A changed word of an accepted reply is accepted iff it is a payload word changed between 0 and 0xFFFF and another covered word is not zero. |
| IcmpEcho.ByteChangeIsNoticed | src/autorestartd/ar_ping.c:180-194 | Every change of one byte of an accepted reply, so every flipped bit, is rejected. |
| IcmpEcho.PayloadReorderingIsNotNoticed | src/autorestartd/ar_ping.c:180-194 | Payload words in another order are accepted. |
| IcmpEcho.UpdateAgreesWithRecomputing | src/autorestartd/ar_ping.c:143-177 | Equation 3 of RFC 1624 gives the recomputed checksum iff the changed packet is not all zero. |
| IcmpEcho.RoundTrip | src/autorestartd/ar_ping.c:163-194 | For every identifier and sequence: recomputing and Equation 3 give the same reply to our request, it is accepted in this context and no other, and the reflected request is never accepted. |
| ErrorHistory.RecentEntry | src/autorestartd/init_module/error_handler.c:50-52 | From any starting index, the k-th most recent of the last ten entries sits k slots before the newest, and the other slots are blank. |
| ErrorHistory.RecentByIndex | src/autorestartd/init_module/error_handler.c:50-52 | The same by the index: the k-th most recent entry is at index - 1 - k modulo 10. |
| ErrorHistory.EverySlotIsRecent | src/autorestartd/init_module/error_handler.c:50-52 | Every slot of the ring is one of those positions. |
| ErrorHistory.ErrorRing.Clear | src/autorestartd/init_module/error_handler.c:29-31 | Clearing empties the log and leaves the index where it is. |
| ErrorHistory.ErrorRing.Register | src/autorestartd/init_module/error_handler.c:33-52 | Registering appends to the log. |
| ErrorHistory.ErrorRing.GetLast | src/autorestartd/init_module/error_handler.c:71-75 | The entry returned is the last of the log, or a blank one if nothing was registered since the last clearing. |

## Left out

- The port query `port_manager_get_ar_state`: it is called with an index from 0 and subtracts one, so it reads and writes outside its arrays. The gate and the flags it should deliver are inputs of each turn.
- The rate computed by the speed test: the elapsed time is always zero, so only its error bits are modelled.
- Setting alarms: `parse_time_string` has no caller, so alarm times are an input of each turn.
- More than one port: the copies in `port_manager_update_info` and the indexing in the handlers are only meaningful for one.
- Changes of `max_reset` and `test_num` during a run, and the loading of the configuration: the loaded port configuration is an input.
- The entries that the handlers themselves put into the error history, the time stamp text of an automatic reset, and all system log and console output.
- `port_manager_auto_reset`, which has no caller, and the older copy of the port manager in `init_module`.
- The raw socket, the receive buffer and the IP header of a ping, signals, threads, the command-line controller and the client commands, whose bodies are commented out.
- PortManager.PortTable.RunTestLink: does not model a state file that cannot be opened, because the code then goes on to read from it.
- PortManager.PortTable.RunTestSpeed: does not model the rate fields, because no rate is ever computed, nor a reply whose value is not a string, because the code then copies from no string.
- PortManager.PortTable.AutoResetHandler: does not model the time stamp text and the entries in the error history, because no decision reads them.

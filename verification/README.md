# Verification model of the ns-3 QUIC glue

This project models the stateful components that the repository adds between quiche and ns-3 and
proves what they keep over whole runs: the alarm engine with its re-entrant timer pass, the
periodic write channel that uses it, the Copa and Vegas congestion controllers, the server trace's
loss counters, the varint packet tag, and the two self-contained pieces of the CDG sender.

`dafny verify dfyconfig.toml` checks everything.

## How it is laid out

Each component that the source updates in place appears twice: as a class whose methods follow the
source line by line, and as a state machine of plain values that every method is proved to follow.
What the component promises is proved about the state machine, for every input and every run.

- `AlarmQueue`, `AlarmModel`: the deadline-ordered multimap and the engine as a total function. A
  failed assertion, a failed debug check or an erased iterator of the source is a `Crash` outcome.
  An alarm is the `quic::QuicAlarm` deadline plus the `BaseAlarm` inside `Ns3Alarm`. Tokens number
  the registrations; `births`, `fates` and `fired` are history.
- `AlarmInvariant`, `AlarmCommands`, `AlarmEffects`, `AlarmRuns`, `AlarmLocality`, `AlarmPasses`,
  `AlarmBusyPasses`, `AlarmHazards`: the joint invariant of map, set, tokens, alarms, timer and
  history; when each client command is allowed and what it does; whole runs; which passes complete;
  runs that fail.
- `AlarmEngine`: `Ns3QuicAlarmEngine` and `Ns3Alarm` as classes.
- `PeriodicClient`, `WriteChannel`: `BandwidthWriteChannel` as a client of the engine.
- `Flights`, `CopaModel`, `CopaEffects`, `CopaRuns`, `CopaOverflow`, `CopaStall`, `CopaScenarios`,
  `CopaSender`, `VegasModel`, `VegasEffects`, `VegasRoom`, `VegasRuns`, `VegasPause`, `VegasSender`,
  `MinFilter`: the two senders and a windowed minimum filter. The `Effects` modules say what each
  event leaves behind, branch by branch.
- `LossTrace`, `VarintTag`, `CdgGradients`, `CdgExponential`; `Arithmetic` and `Wrappers` help.

Callbacks are lists of commands per alarm, arbitrary and possibly different in every pass: within
one pass an alarm is called at most once, so this covers whatever a callback may do to the engine.

## What is assumed of code outside the repository

- `quic::QuicAlarm`: `Set` needs an alarm that is not set and a deadline that is; `Cancel` of an
  unset alarm does nothing; `Update` with an unset deadline cancels, and does nothing when the
  deadline moves by less than the granularity; `Fire` unsets the alarm and then runs its delegate.
- ns-3: an event that is executing is no longer running; the clock does not pass a pending event;
  `GetMicroSeconds` rounds down.
- quiche's windowed filters are inputs. Copa asks that the best value is one of the samples and not
  above the latest; Vegas also that it is not above a sample of the current round. An exact windowed
  minimum keeps the first contract always (`KeepsCopaContract`) and the second as long as the round
  is in the window (`KeepsVegasContract`); `RunBreaksIff` says for every run with such a filter
  whether Vegas's check fails in it.
- `kDefaultTCPMSS` is 1460 and `kAlarmGranularity` 1 ms.

## Findings

- A callback that cancels or destroys an alarm due in the same pass and not yet called, or updates it
  by its granularity or more, uses an erased iterator (`TwoAlarmsOneInstant`). Passes complete
  exactly when none does that: with callbacks that cancel, destroy and re-arm their own alarm
  (`PassCompletesIff`), and with callbacks that also set and update others as their contracts ask
  (`BusyPassCompletesIff`). An alarm already called may be cancelled. Outside a pass only `Update`
  can fail, on the only alarm (`UpdateOfOnlyAlarm`) or to a past deadline (`UpdateToThePast`,
  `ExecSafeIff`).
- Called directly on an alarm already in the map, `RegisterAlarm` drops the new deadline
  (`RegisterAgainIsDropped`). No alarm of the repository does so, because `Set` needs an alarm that
  is not set.
- `varint_length` announces one byte for a field of 2^63 or more, which takes ten
  (`SizeRightIff`); a zero field is written as nothing and does not read back
  (`RoundTripIffPositive`). Through a buffer of the announced size the tag round trip holds exactly
  for fields from 1 to 2^63 - 1 (`BufferRoundTripIff`).
- Copa can stall for good. Its 64-bit velocity is zero from 66 unchanged directions on
  (`VelocityVanishesFrom66`) and its step already from 62 on (`StepVanishesFrom62`). Four packets
  under 20 ms of standing queue get there in 69 round trips of 30 ms, whatever the smoothed RTT does
  below that (`StallReached`). From then on no event changes the window, even when the rate
  comparison asks for an increase; outside slow start that is so exactly of the states with velocity
  zero (`ZeroIsStalled`, `FrozenIffStalled`).
- Copa's step falls short when its product wraps 64 bits. For one acknowledgement that is at counts
  from 45 to 65 (`OneAckFits`, `StepSizeIs`). A new sender on a path without a queue takes such a
  step in its 49th round trip, less than a sixtieth of the right one (`ShortStepTaken`).
- Copa's window overflows only by a doubling of 2^63 or more in slow start, in any run of fewer than
  2^59 events (`RunNeverOverflows`).
- Vegas's check that the base RTT is not above the round's minimum fails exactly when a round of
  three or more samples ends after its minimum has left the filter's window (`RunBreaksIff`), as
  after a pause of ten seconds in the middle of a round (`PauseBreaks`).
- The loss counter counts late arrivals as lost, and repeats of the maximum as found
  (`ExactUpToReordering`, `RepeatLowersCount`).
- `nexp_u32` is not monotone. From one argument to the next it can only rise at the end of a block of
  256 whose number ends in 2, 3, 4, 5, 8, 10 or 15 ones. There it never falls, and it does rise when
  the gap between the two constants of the carry outweighs the roundings still to come (`NexpStep`),
  as at every value of 2300000 or more (`VisibleRises`) and at the carry over 15 ones
  (`LastCarryRises`). Elsewhere the roundings decide, and can absorb the rise
  (`RiseLostInRounding`). The first rise is from 1023 to 1024 (`NexpRisesAtCarry`).

## Model

Every other method of the classes is proved to reach the state that the state-machine function of
its name gives, and has no row.

| member | source | states |
|---|---|---|
| AlarmRuns.NeverLostEarlyOrLate | quic/model/ns3-quic-alarm-engine.cc:35-142 | In every run of a new engine, a registration that went off did so exactly at max(deadline, registration time) in microseconds; one still waiting is not overdue and the timer is pending no later than it |
| AlarmLocality.LeftInPlaceFiresOnTime | quic/model/ns3-quic-alarm-engine.cc:35-142 | An alarm that nobody commands and no shutdown removes fires at exactly max(deadline, registration time), whatever other alarms and their callbacks do |
| AlarmRuns.FiredInOrderOnce | quic/model/ns3-quic-alarm-engine.cc:103-142 | Over every run alarms go off in strictly increasing (due time, registration) order, so none twice |
| AlarmRuns.EveryRegistrationAccounted | quic/model/ns3-quic-alarm-engine.cc:24-142 | Registrations equal those ended (fired, unregistered, replaced, shut down) plus those in the map; a fate is never revised |
| AlarmRuns.TokensAgree | quic/model/ns3-quic-alarm-engine.cc:24-180 | The membership set is the set of callbacks in the map, one entry each; an alarm is registered iff its token names its own live entry, whose key is its deadline moved up to the registration time |
| AlarmRuns.ExpireFiresExactlyDue | quic/model/ns3-quic-alarm-engine.cc:103-142 | A timer pass that completes fires exactly the entries due on entry, in order, whatever the callbacks add or re-arm, restores the invariant and aims the timer at the new head to the nanosecond; which passes complete is PassCompletesIff |
| AlarmPasses.PassCompletesIff | quic/model/ns3-quic-alarm-engine.cc:103-142 | With callbacks that cancel or destroy any known alarms and may end by updating their own, a pass completes, having fired exactly the due entries, iff no callback names an alarm that is later in the same pass; else an erased token is used |
| AlarmPasses.RearmingAloneCompletes | quic/model/ns3-quic-alarm-engine.cc:103-142 | A pass in which one alarm re-arms itself, for any deadline, and the others are silent always completes |
| AlarmBusyPasses.BusyPassCompletesIff | quic/model/ns3-quic-alarm-engine.cc:103-142 | With callbacks that cancel, destroy, set and update known alarms, every Set of an unset alarm, every Update for now or later, and one waiting alarm that none names, a pass completes iff no command takes effect on an alarm later in the same pass; an update within the granularity takes none |
| AlarmRuns.AllFireEventually | quic/model/ns3-quic-alarm-engine.cc:91-142 | With silent callbacks at most two timer events per waiting alarm fire everything in map order |
| AlarmRuns.QuietExpiry | quic/model/ns3-quic-alarm-engine.cc:91-142 | A timer event fires the head of the map or, being left over from an alarm since removed, re-aims at exactly the head's deadline |
| AlarmRuns.ShutdownKeeps | quic/model/ns3-quic-alarm-engine.cc:24-34 | Shutdown always completes, fires nothing, empties map and set, ends every registration and leaves the timer event pending |
| AlarmEffects.ShutdownTakesEffect | quic/model/ns3-quic-alarm-engine.cc:24-34 | Registered alarms end unregistered and without an engine; deadlines, the other alarms and the timer event stay |
| AlarmHazards.StaleTimerHarmless | quic/model/ns3-quic-alarm-engine.cc:24-34 | The timer event left by Shutdown only moves the clock of a live engine |
| AlarmHazards.CancelWithinBatchCrashes | quic/model/ns3-quic-alarm-engine.cc:110-125 | If the first callback of a pass cancels the alarm due next, an erased iterator is used, whatever the other callbacks would do |
| AlarmHazards.TwoAlarmsOneInstant | quic/model/ns3-quic-alarm-engine.cc:110-125 | A concrete run that does so: two alarms of a new engine set for one microsecond, the first cancelling the second |
| AlarmHazards.UpdateOfOnlyAlarm | quic/model/ns3-quic-alarm-engine.cc:70-78 | A run of two commands on a new engine that trips the assertion that another alarm exists |
| AlarmHazards.UpdateToThePast | quic/model/ns3-quic-alarm-engine.cc:70-99 | A run of three commands on a new engine that trips UpdateTimer's assertion, ReregisterAlarm not clamping |
| AlarmRuns.StepKeeps | quic/model/ns3-quic-alarm-engine.cc:24-230 | Every step of a run keeps the joint invariant of map, set, tokens, timer and history, and only adds to history |
| AlarmCommands.ExecSafeIff | quic/model/ns3-quic-alarm-engine.cc:35-208 | Set, Cancel, Update and destruction go through iff the alarm is not called-for-but-not-run and, for an effective Update of a live alarm, another alarm exists and the deadline is not past; then the invariant is kept, in and out of a pass |
| AlarmEffects.SetTakesEffect | quic/model/ns3-quic-alarm-engine.cc:35-63 | Set leaves the alarm registered under a new token at max(deadline, now), every other entry in place, and aims the timer again exactly if there was none or the new entry is first |
| AlarmEffects.UpdateTakesEffect | quic/model/ns3-quic-alarm-engine.cc:70-90 | Update to a deadline that differs by the granularity or more, earlier or later, replaces the registration by one for exactly that deadline, with its own new token, leaving the other entries; by less it changes nothing |
| AlarmEffects.CancelTakesEffect | quic/model/ns3-quic-alarm-engine.cc:64-69 | Cancel takes exactly the alarm's entry out of map and set, unsets it and leaves the timer event where it was |
| AlarmEffects.DestroyTakesEffect | quic/model/ns3-quic-alarm-engine.cc:147-175 | Destruction does the same but for the deadline |
| AlarmEffects.CallbackFinds | quic/model/ns3-quic-alarm-engine.cc:124-131 | A callback runs with its own alarm unset and unregistered and nothing else changed since the one before, and its commands run in order |
| AlarmCommands.ReregisterKeeps | quic/model/ns3-quic-alarm-engine.cc:70-90 | ReregisterAlarm succeeds iff the token is live, another alarm exists and the deadline is not past, and which assertion fails otherwise |
| AlarmCommands.RegisterKeeps | quic/model/ns3-quic-alarm-engine.cc:35-63 | RegisterAlarm of an unregistered alarm cannot fail and keeps the invariant |
| AlarmCommands.RegisterAgainIsDropped | quic/model/ns3-quic-alarm-engine.cc:54-61 | For direct callers only: RegisterAlarm of an alarm in the map changes at most the timer, towards the same first deadline |
| AlarmCommands.CancelKeeps | quic/model/ns3-quic-alarm-engine.cc:169-198 | Cancel fails, on an erased token, iff the alarm awaits its call; else the alarm ends unset and unregistered |
| AlarmInvariant.UpdateTimerKeeps | quic/model/ns3-quic-alarm-engine.cc:91-102 | UpdateTimer's assertion holds under the invariant and the timer reads exactly the first deadline although the simulator clock is finer |
| AlarmEngine.Ns3QuicAlarmEngine.OnTimeout | quic/model/ns3-quic-alarm-engine.cc:103-142 | Both loops and the final UpdateTimer equal the state machine's pass for every re-entrant callback script that is safe |
| AlarmEngine.Ns3QuicAlarmEngine.Shutdown | quic/model/ns3-quic-alarm-engine.cc:24-34 | The loop equals the state machine's shutdown |
| PeriodicClient.WritesAtExactPeriods | quic/model/ns3-quic-channel.cc:139-148 | Started at t0, the channel's alarm fires at exactly t0 + n * 50 ms for n = 1, 2, ... and at no other time, with exactly one pending alarm between passes and n given by the clock |
| PeriodicClient.SilentAfterDestroy | quic/model/ns3-quic-channel.cc:129-137 | Between passes OnDestroy cannot fail, and the channel's alarm never fires again |
| PeriodicClient.DestroyedInPass | quic/model/ns3-quic-channel.cc:129-137 | Called from a callback, OnDestroy fails iff the channel's alarm is still to be called in the pass; else the alarm fires neither in the rest of the pass nor later |
| WriteChannel.BandwidthWriteChannel.WriteData | quic/model/ns3-quic-channel.cc:149-164 | Writes the packets accepted before the first refusal, at most six; write_bytes_ stays 1500 times all accepted packets modulo 2^32 |
| WriteChannel.BandwidthWriteChannel.StartFillData | quic/model/ns3-quic-channel.cc:144-148 | Writes what the stream accepts and sets the alarm 50 ms ahead, which is the start WritesAtExactPeriods assumes |
| WriteChannel.BandwidthWriteChannel.OnTimeout | quic/model/ns3-quic-channel.cc:139-143 | Writes what the stream accepts and re-arms 50 ms ahead, which is the callback WritesAtExactPeriods assumes |
| WriteChannel.BandwidthWriteChannel.OnDestroy | quic/model/ns3-quic-channel.cc:129-137 | Cancels the alarm if set: always between passes, and inside one unless the alarm awaits its call |
| CopaRuns.EveryRunSafe | quic/model/cc-algo/copa_sender.cc:87-294 | From at least four packets every run keeps four packets and fails at most by overflow of the window addition; velocity law; slow-start window is the initial one times 2^k with k RTTs elapsed; one cutback per flight |
| CopaRuns.EventKeeps | quic/model/cc-algo/copa_sender.cc:80-294 | Every event keeps the invariant; slow start is never re-entered and never shrinks the window |
| CopaRuns.AckedStep | quic/model/cc-algo/copa_sender.cc:145-246 | For a positive standing RTT and non-negative delay an event fails iff a doubling or a step up passes 2^64; else outside slow start the window moves by one step of the resulting velocity, which is above 1 only in the recorded direction |
| CopaEffects.SlowStartEvent | quic/model/cc-algo/copa_sender.cc:192-208 | In slow start the first event that wants an increase starts the clock, one more than a smoothed RTT after the last doubling doubles the window and restarts it, any other changes nothing |
| CopaEffects.SlowStartPace | quic/model/cc-algo/copa_sender.cc:192-208 | From a new sender under pressure the window is the initial one times 2^k with k bounded from both sides by the time elapsed |
| CopaEffects.StepEvent | quic/model/cc-algo/copa_sender.cc:187-246 | Outside slow start an event updates the direction with the old window, drops a velocity for the other direction and moves the window by one step, not below four packets; nothing else changes |
| CopaEffects.DirectionUpdate | quic/model/cc-algo/copa_sender.cc:247-280 | A due record in the recorded direction adds one to the count and doubles the velocity from the third on; in the other both start anew; before that only time passes |
| CopaEffects.RedirectIs | quic/model/cc-algo/copa_sender.cc:281-294 | A velocity above one for the other direction is dropped with its count, and the current window and time go on record |
| CopaEffects.WantsIncreaseIff | quic/model/cc-algo/copa_sender.cc:177-190 | The comparison of the two rounded rates, without division |
| CopaEffects.LossesTakeEffect | quic/model/cc-algo/copa_sender.cc:137-144 | Losses set the marker to the largest sent packet iff one of them was sent after the last cutback, and change nothing else |
| CopaEffects.ReadingFaults | quic/model/cc-algo/copa_sender.cc:160-176 | A negative delay and a zero standing RTT fail their checks |
| CopaOverflow.RunNeverOverflows | quic/model/cc-algo/copa_sender.cc:21-29 | A run of fewer than 2^59 events whose slow-start window stays below 2^63 never overflows |
| CopaRuns.StreakKept | quic/model/cc-algo/copa_sender.cc:247-294 | The direction count counts records at least an RTT apart between which the window really moved in the recorded direction |
| CopaStall.VelocityVanishesFrom66 | quic/model/cc-algo/copa_sender.cc:265-270 | The doubling law is exact iff the count is at most 65; the velocity is zero iff it is at least 66 |
| CopaStall.StepVanishesFrom62 | quic/model/cc-algo/copa_sender.cc:218-240 | Every step is zero, for all windows and acknowledgements, iff the count is at least 62 |
| CopaStall.OneAckFits | quic/model/cc-algo/copa_sender.cc:218-224 | Of the sender's velocity: the product behind the step fits 64 bits for one acknowledgement iff the count is at most 44 or at least 66 |
| CopaStall.StalledForGood | quic/model/cc-algo/copa_sender.cc:80-294 | With velocity zero, direction Down and no more window than on record, every later event of every run leaves the window as it is |
| CopaStall.ZeroIsStalled | quic/model/cc-algo/copa_sender.cc:247-294 | In every reachable state a direction of Up has a count of at most 62, and velocity zero holds iff the sender is stalled |
| CopaStall.FrozenIffStalled | quic/model/cc-algo/copa_sender.cc:80-294 | A reachable state outside slow start keeps its window over every admissible continuation iff it is stalled |
| CopaScenarios.PressureSinks | quic/model/cc-algo/copa_sender.cc:191-280 | From any state at the floor heading down, every round trip with 20 ms of 30 ms queueing adds one to the direction count, for all smoothed RTTs up to 30 ms |
| CopaScenarios.StallReached | quic/model/cc-algo/copa_sender.cc:80-294 | Runs from a new sender of four packets, first smoothed RTT equal to the first sample, reach velocity zero within 69 round trips, and every admissible continuation keeps four packets |
| CopaScenarios.Climbs | quic/model/cc-algo/copa_sender.cc:191-280 | From any state heading up with a window small against MSS^2 * velocity, every round trip without a queue adds one to the direction count, up to 44 |
| CopaScenarios.ShortStepTaken | quic/model/cc-algo/copa_sender.cc:218-226 | Runs from a new sender reach, at count 45, a step of which 61 are still at most what the law gives for one acknowledgement |
| CopaRuns.Equilibrium | quic/model/cc-algo/copa_sender.cc:177-190 | window * delay at most 2 MSS * standing RTT forces an increase, so a decrease means it is above; an increase bounds it to within a byte per second |
| CopaRuns.StepSizeIs | quic/model/cc-algo/copa_sender.cc:218-236 | For every 64-bit window the step is the product acks * MSS^2 * velocity modulo 2^64 over half the window, rounded down; that is the intended step iff the product is below 2^64, and less otherwise |
| CopaRuns.AtMostTwoVelocityPerWindow | quic/model/cc-algo/copa_sender.cc:209-224 | A run of increases at velocity v acknowledging at most one starting window grows the window by at most 2 * v * MSS |
| CopaModel.WindowUntouched | quic/model/cc-algo/copa_sender.cc:137-144 | Losses move only the cutback marker |
| CopaSender.CopaSender.OnCongestionEvent | quic/model/cc-algo/copa_sender.cc:87-98 | Losses first, then the acknowledgements |
| Flights.LossesKeepEpochs | quic/model/cc-algo/vegas_sender.cc:155-166 | Cutback markers strictly increase, stay at or below the largest sent, and each cutback is caused by a packet above the previous marker (section 3.2 of RFC 6582) |
| Flights.OneCutIff | quic/model/cc-algo/vegas_sender.cc:155-166 | A list of losses makes exactly one cutback, marked by the largest sent packet, iff one of them was sent after the last cutback; else none |
| Flights.RecoveryIff | quic/model/cc-algo/vegas_sender.cc:59-63 | After a cutback recovery is on exactly while something, but nothing sent after it, has been acknowledged |
| Flights.LargestIs | quic/model/cc-algo/vegas_sender.cc:171 | The largest acknowledged packet is the largest of all of them |
| VegasRuns.EveryRunSafe | quic/model/cc-algo/vegas_sender.cc:74-233 | Every run of fewer than 2^64 acknowledgements goes through without failed check or division by zero; window at least four packets even where an addition wraps; Vegas mode iff not in recovery; rtt_count_ zero iff min_rtt_ infinite and at most the number of events; round marker at most the largest sent; one halving per flight |
| VegasRoom.EventKeepsRoom | quic/model/cc-algo/vegas_sender.cc:155-233 | Reno mode is only entered after a halving, and while it lasts every packet of window above 2^63 has been paid for by 2^63 / MSS acknowledgements, so no Reno addition wraps |
| VegasRuns.ThresholdStaysClose | quic/model/cc-algo/vegas_sender.cc:155-222 | Once slow start has ended, ssthresh stays at most window + MSS, in every run whose packets fit 64 bits |
| VegasRuns.WrapLosesThreshold | quic/model/cc-algo/vegas_sender.cc:204-221 | A round that grows a window within a packet of 2^64 loses it: the window wraps to the floor below the threshold |
| VegasRuns.EventKeeps | quic/model/cc-algo/vegas_sender.cc:67-122 | In a run of fewer than 2^64 acknowledgements an event fails iff it ends a round of three or more samples whose minimum is below the base RTT; every other keeps the invariant, and a filter that keeps its contract lets none fail |
| VegasRuns.RenoFloorIff | quic/model/cc-algo/vegas_sender.cc:223-233 | A single Reno acknowledgement keeps four packets iff it does not grow a window of 2^64 - 1460 or more, which no run of fewer than 2^64 acknowledgements reaches |
| VegasRuns.OneHalvingPerEvent | quic/model/cc-algo/vegas_sender.cc:90-93 | One event halves the window at most once, down to the floor, and not at all without a packet above the marker |
| VegasEffects.LossesTakeEffect | quic/model/cc-algo/vegas_sender.cc:155-166 | Losses halve window and threshold once, down to four packets, reset the ack count and mark the flight iff one of them was sent after the last cutback; else nothing changes |
| VegasEffects.LossesComeFirst | quic/model/cc-algo/vegas_sender.cc:90-97 | An event that halves and acknowledges only packets inside the round leaves the window at the half, in slow start too |
| VegasEffects.MidRoundAcks | quic/model/cc-algo/vegas_sender.cc:218-221 | Inside a round a list of acknowledgements grows the window by a packet each until the threshold is reached, and changes nothing else but the largest acknowledged packet |
| VegasEffects.MidRoundEvent | quic/model/cc-algo/vegas_sender.cc:74-110 | Before any cutback an event of such acknowledgements adds one sample and that growth |
| VegasEffects.ShortRoundEnd | quic/model/cc-algo/vegas_sender.cc:178-181 | A round of at most two samples ends with a Reno increase, a new marker and no samples |
| VegasEffects.LongRoundEnd | quic/model/cc-algo/vegas_sender.cc:182-217 | Any other ends with a new marker, no samples and the ack count as it was |
| VegasEffects.RenoModeAck | quic/model/cc-algo/vegas_sender.cc:172-176 | Outside Vegas mode an acknowledgement is one of Reno's and nothing else |
| VegasEffects.AckFaults | quic/model/cc-algo/vegas_sender.cc:177-187 | What an acknowledgement in Vegas mode fails on |
| VegasRuns.GammaExit | quic/model/cc-algo/vegas_sender.cc:188-221 | The gamma exit ends slow start, never raises the window and never goes below the floor |
| VegasRuns.SlowStartDecision | quic/model/cc-algo/vegas_sender.cc:183-203 | For all windows and RTTs: slow start ends at a round iff the 64-bit product of window and extra delay is more than one packet's worth of the base RTT |
| VegasRuns.RoundDecision | quic/model/cc-algo/vegas_sender.cc:204-221 | For all windows and RTTs outside slow start, without the division: the round adds a packet if the 64-bit product of window and extra delay is below two packets' worth of the base RTT, removes one if it is above four, and else holds |
| VegasRuns.TargetIs | quic/model/cc-algo/vegas_sender.cc:184-185 | The exit target is window * base / min rounded up to whole packets iff that rounding stays below 2^64; otherwise it is zero |
| VegasRuns.SwitchKeeps | quic/model/cc-algo/vegas_sender.cc:98-109 | The switch keeps Vegas mode equal to not being in recovery |
| VegasEffects.SwitchTakesEffect | quic/model/cc-algo/vegas_sender.cc:98-109 | Entering recovery turns Vegas mode off and keeps the round; leaving it turns it on with the marker at the largest sent packet and no samples |
| VegasEffects.LeavingRecovery | quic/model/cc-algo/vegas_sender.cc:98-109 | After an event that leaves recovery no sample measured in it is in the round |
| VegasRuns.RenoLaw | quic/model/cc-algo/vegas_sender.cc:223-233 | From w packets the window reaches w + k packets after exactly k*w + k(k-1)/2 acknowledgements and does not move in between, as long as one more packet fits 64 bits |
| MinFilter.KeepsCopaContract | quic/model/cc-algo/copa_sender.cc:154-158 | An exact windowed minimum is one of the samples and not above the latest, which is what Copa's runs ask of its filters |
| MinFilter.KeepsVegasContract | quic/model/cc-algo/vegas_sender.cc:183-186 | If the round's first sample is in the window, an exact windowed minimum is also not above any sample of the round |
| MinFilter.RunBreaksIff | quic/model/cc-algo/vegas_sender.cc:74-222 | With an exact ten-second minimum, a run of Vegas fails iff some round of three or more samples ends when its minimum was last measured longer ago than the window |
| MinFilter.ShortRoundsNeverBreak | quic/model/cc-algo/vegas_sender.cc:74-222 | A run in which every round fits the window never fails |
| VegasPause.PauseBreaks | quic/model/cc-algo/vegas_sender.cc:186 | From every new sender, a run of nine events with a ten-second pause fails the check |
| VegasSender.VegasSender.OnCongestionEvent | quic/model/cc-algo/vegas_sender.cc:74-110 | Sample, losses, acknowledgements and mode switch follow the state machine |
| LossTrace.CountersMean | quic/model/ns3-quic-trace.cc:136-147 | For any arrivals the count is the largest number minus the running maxima minus the repeats of the maximum |
| LossTrace.ExactUpToReordering | quic/model/ns3-quic-trace.cc:136-147 | For distinct arrivals the count is the number of missing packets plus the number of late arrivals |
| LossTrace.RightIffInOrder | quic/model/ns3-quic-trace.cc:136-147 | For distinct arrivals the count is right iff they come in increasing order |
| LossTrace.RightIffBalanced | quic/model/ns3-quic-trace.cc:136-147 | With repeats allowed the count is right iff the numbers received are as many as records and repeats |
| LossTrace.RepeatLowersCount | quic/model/ns3-quic-trace.cc:137-140 | A repeat of the maximum lowers the count by one although nothing new arrived |
| LossTrace.CountersFit | quic/model/ns3-quic-trace.cc:136-147 | The counters are 32-bit ints; they hold the values iff records and repeats exceed the largest number by at most 2^31, so for 2^31 arrivals at least |
| LossTrace.ServerTrace.OnOwd | quic/model/ns3-quic-trace.cc:121-148 | The three counters stay those of the arrivals so far |
| VarintTag.RoundTripIffPositive | quic/model/ns3-quic-tag.cc:39-73 | A serialised tag reads back, using exactly its bytes, iff both fields are positive; otherwise the reader runs off the buffer |
| VarintTag.BufferRoundTripIff | quic/model/ns3-quic-tag.cc:36-73 | Through a buffer of the announced size: the tag can be written iff both fields are below 2^63, and comes back iff both are also positive |
| VarintTag.SizeRightIff | quic/model/ns3-quic-tag.cc:5-15 | The announced size is the written size iff both fields are below 2^63, and never above it |
| VarintTag.LongEncoding | quic/model/ns3-quic-tag.cc:5-15 | A field of 2^63 or more takes ten bytes and is announced as one |
| VarintTag.DecodeEncode | quic/model/ns3-quic-tag.cc:47-73 | Every positive 64-bit value decodes from its own bytes, whatever follows |
| VarintTag.DecodeIs | quic/model/ns3-quic-tag.cc:63-73 | Of arbitrary bytes the decoder reads up to the first without its top bit and returns their base-128 value modulo 2^64; it runs off the end iff there is none |
| VarintTag.EncodeValue | quic/model/ns3-quic-tag.cc:47-62 | Bytes with the continuation bit on all but a non-zero last one are the encoding of their value (unsigned LEB128, section 7.6 of DWARF 5) |
| VarintTag.EncodeMinimal | quic/model/ns3-quic-tag.cc:47-62 | A value takes exactly as many bytes as it has base-128 digits |
| VarintTag.PrefixFree | quic/model/ns3-quic-tag.cc:47-62 | No encoding is a prefix of another |
| VarintTag.VarintLength | quic/model/ns3-quic-tag.cc:5-15 | The loop over the signed value |
| VarintTag.VarintEncode | quic/model/ns3-quic-tag.cc:47-62 | Writes exactly the encoding at the cursor and nothing else, or runs off the end iff there is too little room |
| VarintTag.VarintDecode | quic/model/ns3-quic-tag.cc:63-73 | Reads one field in 64-bit arithmetic and moves the cursor past it |
| VarintTag.Ns3QuicTag.Serialize | quic/model/ns3-quic-tag.cc:39-42 | For all 64-bit fields: fills a buffer of the announced size exactly, or runs off its end |
| VarintTag.Ns3QuicTag.Deserialize | quic/model/ns3-quic-tag.cc:43-46 | Reads both fields |
| CdgGradients.SumTelescopes | quic/model/cc-algo/cdg_sender.cc:487-523 | With chained calls the running sum is the current RTT minus the RTT eight calls earlier, or minus the first while there are fewer |
| CdgGradients.GradientIs | quic/model/cc-algo/cdg_sender.cc:501-509 | The gradient handed on is the positive minimum's sum, else the maximum's, times eight over the number of gradients, rounded towards zero, until the ring is full |
| CdgGradients.SumsFit | quic/model/cc-algo/cdg_sender.cc:487-510 | With chained RTTs below 2^28 microseconds every gradient, difference and scaled sum fits the 32-bit ints of the code |
| CdgGradients.RingTurns | quic/model/cc-algo/cdg_sender.cc:489-495 | The slot written over is the one whose gradient expires; the ring then holds the eight newest |
| CdgGradients.CdgWindow.CalculateGrad | quic/model/cc-algo/cdg_sender.cc:487-512 | The running sums equal the sum of the eight slots and of the eight newest gradients; the unfilled branch never divides by zero |
| CdgExponential.NexpU32 | quic/model/cc-algo/cdg_sender.cc:49-72 | Every table index is within the table and the result fits 32 bits |
| CdgExponential.NexpOfPower | quic/model/cc-algo/cdg_sender.cc:56-71 | Linear over the first 256 arguments, one table entry for each power of two above them, zero from 2^24 on |
| CdgExponential.NexpFallsWithinBlock | quic/model/cc-algo/cdg_sender.cc:49-72 | Within 256 arguments that share their high bits the exponential falls, and it never exceeds the scaled start |
| CdgExponential.NexpStep | quic/model/cc-algo/cdg_sender.cc:49-72 | For every argument, which way the next value goes: it never falls at a carry over 2, 3, 4, 5, 8, 10 or 15 ones, rises there if the gap of the constants outweighs one unit per factor to come, and never rises anywhere else |
| CdgExponential.VisibleRises | quic/model/cc-algo/cdg_sender.cc:65-69 | At such a carry it rises at every value of 2300000 or more |
| CdgExponential.LastCarryRises | quic/model/cc-algo/cdg_sender.cc:65-69 | And at the carry over 15 ones |
| CdgExponential.CarryIs | quic/model/cc-algo/cdg_sender.cc:65-69 | Both values at a carry are the same remaining factors applied to one of two constants that depend on the number of ones alone |
| CdgExponential.NexpRisesAtCarry | quic/model/cc-algo/cdg_sender.cc:65-69 | The first rise is from 1023 to 1024 |
| CdgExponential.RiseLostInRounding | quic/model/cc-algo/cdg_sender.cc:65-69 | A carry over ten ones at which the roundings absorb the rise |

## Left out

- AlarmEngine.Ns3Alarm.OnAlarm: always returns 0 as `Ns3AlarmImpl` does, so the repeat loop and the re-registration of `OnTimeout` (quic/model/ns3-quic-alarm-engine.cc:125-136) never act; no other callback class exists in the repository.
- AlarmEngine.Ns3QuicAlarmEngine.OnTimeout: does not call a visitor; the repository never installs one.
- AlarmEngine.Ns3Alarm.Update: does not model permanently cancelled quiche alarms.
- AlarmModel.Exec: a destroyed alarm is only unregistered; a later use of its memory is not modelled, nor is destroying the engine from inside a callback.
- VegasModel.TakeSample: the 32-bit sample count of a round is unbounded; EveryRunSafe bounds it by the number of events.
- CdgExponential.NexpStep: at the rising-type carries of small value where the gap does not outweigh the roundings, it does not say whether the rise is strict; that follows up to thirteen roundings with no shorter condition than the two products of CarryIs.
- AlarmPasses.PassCompletesIff: passes whose callbacks set or update other alarms are BusyPassCompletesIff's; where no waiting alarm is left alone, or Set and Update break their contracts, ExecSafeIff decides command by command.
- VegasRuns.ThresholdStaysClose: asks that the packets of the run fit 64 bits, because a wrapped addition breaks it (WrapLosesThreshold).
- CopaModel.WantsIncrease: the two rates are exact reals rounded down; double rounding and the conversion of rates above 2^63 to a signed integer are not modelled.
- CopaModel.StepSize: the quotient is an exact real rounded down.
- LossTrace.ServerTrace.OnOwd: counters are unbounded integers, which CountersFit relates to the ints of the code; one-way delay, goodput and file output are not modelled.
- CdgGradients.CdgWindow.CalculateGrad: 32-bit overflow (SumsFit says when there is none) and the state names of `cdg_state_` (behind a flag that is off) are not modelled; the source assigns an undeclared `grad`, taken to be the declared `grag`.
- WriteChannel.BandwidthWriteChannel.OnDestroy: the notifier call is not modelled.
- The windowed filters, RTT statistics and packet-number classes of quiche are not part of this model beyond the contracts above.
- Pacing rates, bandwidth estimates, send permission and debug strings of both senders: easy getters.
- The rest of the CDG sender, which is not in the build and does not compile.
- Sockets, applications, topology, quiche sessions and streams, dispatchers, the address-pair order, and convergence or fairness of the controllers.

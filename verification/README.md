# OBD-II engine monitor — Dafny model

A model of the application core of a Particle Tracker One firmware that polls a
vehicle's primary ECU over CAN (OBD-II service $01 of SAE J1979, on the
ISO 15765-4 legislated 11-bit identifiers 0x7DF/0x7E8) for engine speed (PID $0C)
and vehicle speed (PID $0D). Ten times a second, each quantity's previous
reading is classified as off, idle or active against a configurable idle
threshold and folded into running statistics. The loop also pauses the
tracker's sleep while the key is in and resumes it when the key is out. It logs
the statistics every two seconds and, while the engine-speed reading is at
least the idle threshold, asks for extra location publishes. Each location publish harvests a nine-value
snapshot and zeroes the statistics.

The firmware keeps this state in globals that `loop()` and the location
callback update in place, and the model keeps that form:

- `obd.dfy` (module `Obd`) holds the bytes, the wrapping 32-bit millisecond
  clock, the two request payloads and the reply decoder.
- `aggregator.dfy` (module `Aggregator`) holds the classifier and the fold of one
  reading into a quantity's statistics (`Record`). It also holds the invariant
  those statistics keep (`Consistent`), an independent reference description
  of a run of readings, the C truncating mean and the reported durations.
- `poller.dfy` (module `Poller`) holds one quantity's globals as a `Channel`
  object, whose `Tick` method is the poll block (the firmware has two
  copy-paste twins of it). `Tick` is proved against the pure `TickSpec`.
- `sleepgate.dfy` (module `SleepGate`) holds the sleep-gate decision.
- `monitor.dfy` (module `Monitor`) holds the `EngineMonitor` class. It owns the
  two channels, the configuration and the log and fast-publish timestamps.
  `Step` is one iteration of `loop()` in the source's order: sleep gate,
  receive, engine-speed tick, vehicle-speed tick, log, fast publish. `Harvest`
  is the location callback.

Every reading the decoder produces is non-negative. So an active reading is
positive, and the "minimum is still 0" test fires only on the first one.
`Consistent` states the consequence:
- the three class counts partition the samples;
- minimum, maximum and sum are 0 with no active sample;
- otherwise 0 < min <= max and min * active <= sum <= max * active.

Because of the loop order, an iteration whose engine-speed tick fired runs the
fast-publish check with the engine-speed reading already cleared to 0. A fast
publish in that iteration therefore needs an idle threshold of at most 0, and
with a threshold of 0 it can fire with the engine off. `Step` states this and
the model keeps it.

The sleep gate's effect on the tracker is not visible in this code.
`SleepGate.AssumedMode` states the assumption that pausing sets the reported
sleep mode and resuming clears it. Every lemma that uses it (`GateSettles`,
`GateIdempotent`, `TransitionsAreLevelChanges`, `KeyInOutIn`) rests on that
assumption. Starting from a non-paused tracker, the key going in, out and in
again produces three actions: pause, resume, pause.

## Model

| member | source | states |
|---|---|---|
| Obd.Elapsed | src/main.cpp:205 | `now - last` on unsigned 32-bit values: the plain difference without a wrap, `2^32 - last + now` across one wrap |
| Obd.Decode | src/main.cpp:185-199 | only a standard-id frame from 0x7E8 answering service $01 is accepted; engine speed lies in 0..16383 and vehicle speed in 0..255 |
| Obd.DecodeIgnoresOtherFrames | src/main.cpp:185-199 | a frame with another id, another PID/length header or another response code leaves both readings alone |
| Obd.DecodeRpmRoundTrip | src/main.cpp:188-190 | an ECU reply carrying 4 * rpm big-endian decodes to exactly rpm, for every rpm in 0..16383 and any padding and `len` |
| Obd.DecodeSpeedRoundTrip | src/main.cpp:195-196 | an ECU reply carrying a speed byte decodes to that speed, for any padding and `len` |
| Obd.DecodeRpmFloors | src/main.cpp:189-190 | the accepted engine speed is the raw 16-bit value divided by 4 rounded down |
| Obd.ReplyAnswersRequest | src/main.cpp:188-196 | an accepted reply repeats the request's PID, carries its service code plus 0x40, and has single-frame length 2 + value width |
| Aggregator.Classify | src/main.cpp:211-219 | off (0, tested first), idle (below the threshold) or active; its meaning over a run of readings is stated by `FoldCountsClasses` |
| Aggregator.Record | src/main.cpp:210-230 | a tick adds one sample and one to exactly the reading's own class, leaving the other two counters; only an active reading changes sum, min and max: it adds to the sum, replaces a minimum that is 0 or larger and a maximum that is smaller |
| Aggregator.FoldSamples | src/main.cpp:204-234 | a run of ticks, oldest first; `FoldPreservesConsistent`, `FoldCountsClasses` and `FoldAggregatesActive` state what it computes |
| Aggregator.RecordPreservesConsistent | src/main.cpp:210-230 | for a non-negative reading the fold keeps the count partition and the min/max/sum bracket |
| Aggregator.FoldPreservesConsistent | src/main.cpp:210-230 | any run of ticks with non-negative readings keeps the invariant |
| Aggregator.FoldCountsClasses | src/main.cpp:210-221 | from reset statistics, a run of ticks counts every reading once, in its own class |
| Aggregator.FoldAggregatesActive | src/main.cpp:220-229 | from reset statistics, sum, min and max are exactly the sum, minimum and maximum of the active readings (0 when there is none) |
| Aggregator.CDiv | src/main.cpp:311-312 | C's `/` on `int`, truncating toward zero for either sign; the mean computed with it is bounded by `MeanWithinBounds` |
| Aggregator.Mean | src/main.cpp:311-312 | the mean of the active readings, 0 without one; bounded by `MeanWithinBounds` |
| Aggregator.Seconds | src/main.cpp:314-318 | whole seconds of `count` poll periods, truncated; bounded by `ReportBounds` |
| Aggregator.Report | src/main.cpp:311-318 | the six values the log reports for a quantity; `ReportBounds` states their order and the durations' total |
| Aggregator.MeanWithinBounds | src/main.cpp:311-312 | the truncated mean is 0 with no active sample and otherwise lies between min and max |
| Aggregator.ReportBounds | src/main.cpp:314-318 | the reported min <= mean <= max, and the three durations are non-negative and add up to the sampled time less at most two seconds of truncation |
| Aggregator.ExampleRun | src/main.cpp:210-230 | readings 0, 0, 1200, 1800, 2200 at threshold 1600 give off 2, idle 1, active 2, min 1800, max 2200, mean 2000 |
| Poller.SendLatch | src/main.cpp:238-251 | a successful send clears the flag, a failure logs only when the flag was clear; `FailureRunLogsOnce`, `SuccessRearmsLog` and `LogsBoundedBySuccesses` state its effect over a run |
| Poller.TickSpec | src/main.cpp:204-253 | the tick block on a quantity's globals; `TickTiming`, `TickPreservesInv`, `MissedReplyCountsAsOff`, `SendsOnlyWithKey` and `NoSecondTickAtSameInstant` state its properties, and `Channel.Tick` is proved equal to it |
| Poller.TickTiming | src/main.cpp:205-206 | a tick is due exactly when 100 ms have passed on the wrapping clock; it then records `now`, clears the reading and adds a sample, and otherwise changes nothing |
| Poller.TickPreservesInv | src/main.cpp:204-253 | a tick keeps the reading in range and the statistics consistent |
| Poller.MissedReplyCountsAsOff | src/main.cpp:232-234 | with no reply since the previous tick the next tick counts the period as off |
| Poller.SendsOnlyWithKey | src/main.cpp:241-252 | a due tick sends the request exactly when the key is in; without it the error flag is untouched and nothing is logged |
| Poller.NoSecondTickAtSameInstant | src/main.cpp:205-206 | after a tick at `now`, another check at the same `now` is not due |
| Poller.FailureRunLogsOnce | src/main.cpp:238-251 | a run of failed sends logs once if the flag was clear and never if it was set |
| Poller.SuccessRearmsLog | src/main.cpp:243-245 | a successful send clears the flag, so the next failure run logs once again |
| Poller.LogsBoundedBySuccesses | src/main.cpp:238-251 | over any run of sends the error logs number at most the successes plus one |
| Poller.Channel.constructor | src/main.cpp:58-72 | a quantity's globals start at 0 with the error flag clear |
| Poller.Channel.Receive | src/main.cpp:189-196 | a decoded reply replaces the latest reading and nothing else |
| Poller.Channel.Tick | src/main.cpp:204-253 | the tick block changes the globals and reports its outcome exactly as `TickSpec`, keeping the channel invariant |
| Poller.Channel.ResetStats | src/main.cpp:362-368 | the harvest's reset zeroes the statistics and keeps the reading, the tick timestamp and the error flag |
| SleepGate.Decide | src/main.cpp:165-175 | pause or resume is chosen exactly when sleep is not disabled and the key level differs from the sleep mode; pause only with the key in, resume only with it out |
| SleepGate.GateSettles | src/main.cpp:165-175 | under the assumed tracker effect, one decision brings the sleep mode in line with the key |
| SleepGate.GateIdempotent | src/main.cpp:165-175 | under the assumed effect, a second decision at the same key level does nothing |
| SleepGate.TransitionsAreLevelChanges | src/main.cpp:165-175 | under the assumed effect, over any run of iterations the gate acts exactly once per change of the key level |
| SleepGate.KeyInOutIn | src/main.cpp:165-175 | key in, out, in from a non-paused tracker gives pause, resume, pause |
| Monitor.Received | src/main.cpp:185-199 | after the receive branch an ignored or absent frame leaves both readings; a reply replaces only its own quantity's reading, with exactly the value `Decode` gives (bounded by `DecodeRpmFloors` and `DecodeSpeedRoundTrip`), which is in range |
| Monitor.SnapshotOf | src/main.cpp:346-359 | the nine published values: durations and spread of engine speed, spread of vehicle speed; `SnapshotBounds` and `SnapshotOfEmpty` state its properties |
| Monitor.SnapshotBounds | src/main.cpp:346-359 | the published durations come from the engine-speed counts and are non-negative and bounded by the sampled time; each min <= mean <= max, all 0 with no active sample |
| Monitor.SnapshotOfEmpty | src/main.cpp:361-368 | reset statistics publish nine zeros |
| Monitor.LogDue | src/main.cpp:308 | the diagnostic log is due when its 2000 ms period has elapsed on the wrapping clock; `EngineMonitor.LogIfDue` acts on it |
| Monitor.FastPublishDue | src/main.cpp:330-334 | connected, engine speed at least the idle threshold, a positive period, and that period elapsed on the wrapping clock; `FastPublishNotRepeated`, `ZeroPeriodNeverFires` and `FastPublishAcrossWrap` state its behaviour |
| Monitor.FastPublishNotRepeated | src/main.cpp:334-335 | after a fast publish at `now`, a check at the same `now` does not fire |
| Monitor.ZeroPeriodNeverFires | src/main.cpp:334 | a period of 0 never fires |
| Monitor.FastPublishAcrossWrap | src/main.cpp:334 | across a clock wrap, a period of 60000 ms fires at 60001 ms elapsed and not at 59999 |
| Monitor.EngineMonitor.constructor | src/main.cpp:76-86 | both quantities start at 0, both timestamps at 0, configuration 1600 rpm, 10 km/h, 60000 ms |
| Monitor.EngineMonitor.Configure | src/main.cpp:106-110 | a configuration update within the registered ranges sets the three settings and leaves the rest |
| Monitor.EngineMonitor.Step | src/main.cpp:156-341 | one iteration: the sleep decision; both ticks as `TickSpec` on the readings left by the receive branch; the log and fast publish as due on the clock; the configuration unchanged; and a fast publish in an iteration whose engine-speed tick fired only with an idle threshold <= 0 |
| Monitor.EngineMonitor.ReceiveFrame | src/main.cpp:178-202 | the receive branch changes the two readings as `Received` and nothing else |
| Monitor.EngineMonitor.LogIfDue | src/main.cpp:308-327 | every 2000 ms on the wrapping clock the log reports both quantities' current statistics and records `now`; nothing else changes |
| Monitor.EngineMonitor.FastPublishIfDue | src/main.cpp:330-340 | fires exactly when connected, the engine speed is at least the idle threshold, the period is positive and has elapsed; then records `now` |
| Monitor.EngineMonitor.Harvest | src/main.cpp:344-369 | the snapshot of the statistics as they stood, then every accumulator of both quantities reset while readings, tick timestamps and error flags are kept |
| Monitor.HarvestTwice | src/main.cpp:344-369 | a second harvest with no tick in between publishes only zeros |

## Left out

- `setup()` (src/main.cpp:93-154) is not modelled: pin set-up, CAN controller reset and start-up, cloud connection and configuration registration. The registered ranges appear only as the precondition of `Configure`.
- src/TrackerMConfiguration.h is not part of this model: it holds platform constants and no logic.
- The MCP_CAN driver, `digitalRead` and `millis()` are inputs of `Step`: an optional received frame, the send outcome of each quantity, the key level and `now`. The source calls `millis()` separately for each comparison and assignment; the model reads the clock once per iteration.
- The Tracker library calls (`loop`, `pauseSleep`, `resumeSleep`, `getSleepMode`, `isSleepDisabled`, `triggerLocPub`) and `Particle.connected()` are foreign. Their results are inputs and their requests are returned decisions. The effect of pause and resume is the stated assumption `SleepGate.AssumedMode`.
- JSON serialisation and log formatting are left out. The snapshot is a record of nine integers and the log line two reports; the text of log messages is not modelled.
- C `int` overflow of the counters and of the active sum is not modelled. The model uses mathematical integers, which agree with the device as long as those values stay below 2^31.
- The wrap of the unsigned 32-bit product `count * 100` in the reported durations is not modelled. Below about 43 million samples of one class (about 50 days between publishes) the product does not wrap and the values agree with the model.
- The CAN frame identifier 0x7DF of each sent request is not part of the tick outcome, which carries only the payload.

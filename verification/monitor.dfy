/** The engine monitor: the process-wide state of the application, one
    iteration of its control loop (`Step`) and the snapshot the location
    publisher harvests (`Harvest`). The CAN controller, the clock, the key-in
    pin, the cloud connection and the tracker library are outside the model:
    what they return is passed in, what they are asked to do is returned. */
module Monitor {
  import opened Obd
  import opened Aggregator
  import opened Poller
  import SleepGate

  /** How often the loop writes its diagnostic log line, in milliseconds (0 would disable it). */
  const EngineLogPeriodMs: int := 2000

  /** The nine fields added to each location publish: the engine's seconds
      off, idle and non-idle (from the engine-speed counts only), then
      minimum, mean and maximum of engine speed and of vehicle speed. */
  datatype Snapshot = Snapshot(engine: Durations, rpm: Spread, speed: Spread)

  function SnapshotOf(rpm: Stats, speed: Stats): Snapshot {
    Snapshot(Report(rpm).durations, Report(rpm).spread, Report(speed).spread)
  }

  /** What the published numbers promise for consistent statistics. */
  lemma {:induction false} SnapshotBounds(rpm: Stats, speed: Stats)
    requires Consistent(rpm) && Consistent(speed)
    ensures var snap := SnapshotOf(rpm, speed);
            && snap.rpm.min <= snap.rpm.mean <= snap.rpm.max
            && snap.speed.min <= snap.speed.mean <= snap.speed.max
            && (rpm.counts.active == 0 ==> snap.rpm == Spread(0, 0, 0))
            && (speed.counts.active == 0 ==> snap.speed == Spread(0, 0, 0))
            && 0 <= snap.engine.off && 0 <= snap.engine.idle && 0 <= snap.engine.active
            && Seconds(rpm.counts.samples) - 2 <= snap.engine.off + snap.engine.idle + snap.engine.active
            && snap.engine.off + snap.engine.idle + snap.engine.active <= Seconds(rpm.counts.samples)
  {
    ReportBounds(rpm);
    ReportBounds(speed);
  }

  /** Harvesting reset statistics publishes nothing but zeros. */
  lemma SnapshotOfEmpty()
    ensures SnapshotOf(Empty, Empty) == Snapshot(Durations(0, 0, 0), Spread(0, 0, 0), Spread(0, 0, 0))
  {
  }

  /** The two reports of the diagnostic log line. */
  datatype Diagnostic = Diagnostic(rpm: QuantityReport, speed: QuantityReport)

  /** The latest readings after the receive branch: a matching reply replaces
      its own quantity's reading, anything else leaves both as they were. */
  function Received(frame: Option<Frame>, rpmReading: int, speedReading: int): (r: (int, int))
    ensures frame.None? || Decode(frame.value).Ignored? ==> r == (rpmReading, speedReading)
    ensures frame.Some? && Decode(frame.value).RpmReply? ==>
              r == (Decode(frame.value).rpm, speedReading) && 0 <= r.0 <= MaxRpm
    ensures frame.Some? && Decode(frame.value).SpeedReply? ==>
              r == (rpmReading, Decode(frame.value).speed) && 0 <= r.1 <= MaxSpeed
  {
    match frame
    case None => (rpmReading, speedReading)
    case Some(f) =>
      match Decode(f)
      case RpmReply(v) => (v, speedReading)
      case SpeedReply(v) => (rpmReading, v)
      case Ignored => (rpmReading, speedReading)
  }

  function LogDue(lastEngineLog: U32, now: U32): bool {
    EngineLogPeriodMs != 0 && Elapsed(lastEngineLog, now) >= EngineLogPeriodMs
  }

  /** Whether the loop asks the tracker for an out-of-cycle location publish:
      connected, engine at least at idle speed, a positive period configured
      and that period elapsed on the wrapping clock since the last one. */
  function FastPublishDue(connected: bool, lastRpm: int, idleRpm: int, period: int, lastFastPublish: U32, now: U32): bool {
    connected && lastRpm >= idleRpm && period > 0 && Elapsed(lastFastPublish, now) >= period
  }

  /** After a fast publish at `now` the next one at the same instant is not due. */
  lemma FastPublishNotRepeated(connected: bool, lastRpm: int, idleRpm: int, period: int, lastFastPublish: U32, now: U32,
                               connected2: bool, lastRpm2: int, idleRpm2: int)
    requires FastPublishDue(connected, lastRpm, idleRpm, period, lastFastPublish, now)
    ensures !FastPublishDue(connected2, lastRpm2, idleRpm2, period, now, now)
  {
  }

  /** A period of 0 (or less) switches fast publishing off. */
  lemma ZeroPeriodNeverFires(connected: bool, lastRpm: int, idleRpm: int, period: int, lastFastPublish: U32, now: U32)
    requires period <= 0
    ensures !FastPublishDue(connected, lastRpm, idleRpm, period, lastFastPublish, now)
  {
  }

  /** Connected at 2000 rpm against an idle speed of 1600, with the clock
      wrapped since the last fast publish 256 ms before the wrap: due 60001 ms
      later, not yet 59999 ms later. */
  lemma FastPublishAcrossWrap()
    ensures FastPublishDue(true, 2000, 1600, 60000, 0xFFFF_FF00, 59745)
    ensures !FastPublishDue(true, 2000, 1600, 60000, 0xFFFF_FF00, 59743)
  {
  }

  /** What one loop iteration decided: the sleep action, each tick's outcome,
      the log line if one was due, and whether a fast publish was requested. */
  datatype StepOutput = StepOutput(sleep: SleepGate.SleepAction, rpmTick: TickOutcome, speedTick: TickOutcome,
                                   log: Option<Diagnostic>, fastPublish: bool)

  class EngineMonitor {
    const rpm: Channel
    const speed: Channel

    /** Configuration synchronised with the cloud. */
    var idleRpm: int
    var idleSpeed: int
    var fastPublishPeriod: int

    var lastEngineLog: U32
    var lastFastPublish: U32

    ghost predicate Valid()
      reads this, rpm, speed
    {
      && rpm != speed && rpm.Valid() && speed.Valid()
      && rpm.limit == MaxRpm && rpm.request == RpmRequest
      && speed.limit == MaxSpeed && speed.request == SpeedRequest
    }

    /** The globals as the program starts, with the default configuration. */
    constructor ()
      ensures Valid() && fresh(rpm) && fresh(speed)
      ensures rpm.State() == ChannelState(0, 0, Empty, false) && speed.State() == ChannelState(0, 0, Empty, false)
      ensures idleRpm == 1600 && idleSpeed == 10 && fastPublishPeriod == 60000
      ensures lastEngineLog == 0 && lastFastPublish == 0
    {
      rpm := new Channel(MaxRpm, RpmRequest);
      speed := new Channel(MaxSpeed, SpeedRequest);
      idleRpm, idleSpeed, fastPublishPeriod := 1600, 10, 60000;
      lastEngineLog, lastFastPublish := 0, 0;
    }

    /** A configuration update, within the ranges the configuration service
        registers for the three settings. */
    method Configure(newIdleRpm: int, newIdleSpeed: int, newFastPublishPeriod: int)
      requires Valid()
      requires 0 <= newIdleRpm <= 10000 && 0 <= newIdleSpeed <= 300 && 0 <= newFastPublishPeriod <= 3600000
      modifies this
      ensures Valid()
      ensures idleRpm == newIdleRpm && idleSpeed == newIdleSpeed && fastPublishPeriod == newFastPublishPeriod
      ensures lastEngineLog == old(lastEngineLog) && lastFastPublish == old(lastFastPublish)
    {
      idleRpm, idleSpeed, fastPublishPeriod := newIdleRpm, newIdleSpeed, newFastPublishPeriod;
    }

    /** One iteration of the loop, in the source's order: sleep gate, receive,
        engine-speed tick, vehicle-speed tick, log line, fast publish. `now` is
        the millisecond clock, `frame` the frame pending at the CAN controller
        if any, and `rpmSendOk`/`speedSendOk` what the controller would answer
        to a send. */
    method Step(now: U32, keyIn: bool, frame: Option<Frame>, sleepDisabled: bool, sleepMode: bool,
                connected: bool, rpmSendOk: bool, speedSendOk: bool) returns (out: StepOutput)
      requires Valid()
      modifies this, rpm, speed
      ensures Valid()
      ensures out.sleep == SleepGate.Decide(keyIn, sleepDisabled, sleepMode)
      ensures var (r0, s0) := Received(frame, old(rpm.reading), old(speed.reading));
              && (rpm.State(), out.rpmTick)
                 == TickSpec(old(rpm.State()).(reading := r0), RpmRequest, now, keyIn, rpmSendOk, idleRpm)
              && (speed.State(), out.speedTick)
                 == TickSpec(old(speed.State()).(reading := s0), SpeedRequest, now, keyIn, speedSendOk, idleSpeed)
      ensures out.log == if LogDue(old(lastEngineLog), now)
                         then Some(Diagnostic(Report(rpm.stats), Report(speed.stats))) else None
      ensures lastEngineLog == if LogDue(old(lastEngineLog), now) then now else old(lastEngineLog)
      ensures out.fastPublish == FastPublishDue(connected, rpm.reading, idleRpm, fastPublishPeriod, old(lastFastPublish), now)
      ensures lastFastPublish == if out.fastPublish then now else old(lastFastPublish)
      ensures idleRpm == old(idleRpm) && idleSpeed == old(idleSpeed) && fastPublishPeriod == old(fastPublishPeriod)
      // The order of the loop: an engine-speed tick has just cleared the
      // reading, so a fast publish then needs an idle threshold of at most 0.
      ensures out.rpmTick.Due? && out.fastPublish ==> idleRpm <= 0
    {
      var sleep := SleepGate.Decide(keyIn, sleepDisabled, sleepMode);
      ReceiveFrame(frame);
      var rpmTick := rpm.Tick(now, keyIn, rpmSendOk, idleRpm);
      var speedTick := speed.Tick(now, keyIn, speedSendOk, idleSpeed);
      var log := LogIfDue(now);
      var fastPublish := FastPublishIfDue(now, connected);
      out := StepOutput(sleep, rpmTick, speedTick, log, fastPublish);
    }

    /** The receive branch: a decoded reply becomes its quantity's latest
        reading; anything else changes nothing. */
    method ReceiveFrame(frame: Option<Frame>)
      requires Valid()
      modifies rpm, speed
      ensures Valid()
      ensures var (r, s) := Received(frame, old(rpm.reading), old(speed.reading));
              rpm.State() == old(rpm.State()).(reading := r) && speed.State() == old(speed.State()).(reading := s)
    {
      if frame.Some? {
        match Decode(frame.value)
        case RpmReply(v) => rpm.Receive(v);
        case SpeedReply(v) => speed.Receive(v);
        case Ignored =>
      }
    }

    /** The diagnostic log block: every `EngineLogPeriodMs` it reports both
        quantities' statistics as they stand after this iteration's ticks. */
    method LogIfDue(now: U32) returns (log: Option<Diagnostic>)
      modifies this
      ensures log == if LogDue(old(lastEngineLog), now) then Some(Diagnostic(Report(rpm.stats), Report(speed.stats))) else None
      ensures lastEngineLog == if LogDue(old(lastEngineLog), now) then now else old(lastEngineLog)
      ensures lastFastPublish == old(lastFastPublish)
      ensures idleRpm == old(idleRpm) && idleSpeed == old(idleSpeed) && fastPublishPeriod == old(fastPublishPeriod)
    {
      log := None;
      if EngineLogPeriodMs != 0 && Elapsed(lastEngineLog, now) >= EngineLogPeriodMs {
        lastEngineLog := now;
        log := Some(Diagnostic(Report(rpm.stats), Report(speed.stats)));
      }
    }

    /** The fast-publish block, which reads the engine speed as the tick left it. */
    method FastPublishIfDue(now: U32, connected: bool) returns (fire: bool)
      modifies this
      ensures fire == FastPublishDue(connected, rpm.reading, idleRpm, fastPublishPeriod, old(lastFastPublish), now)
      ensures lastFastPublish == if fire then now else old(lastFastPublish)
      ensures lastEngineLog == old(lastEngineLog)
      ensures idleRpm == old(idleRpm) && idleSpeed == old(idleSpeed) && fastPublishPeriod == old(fastPublishPeriod)
    {
      fire := false;
      if connected && rpm.reading >= idleRpm {
        if fastPublishPeriod > 0 && Elapsed(lastFastPublish, now) >= fastPublishPeriod {
          lastFastPublish := now;
          fire := true;
        }
      }
    }

    /** The location-generation callback: the snapshot of both quantities,
        then every accumulator of both back to 0. The latest readings, the
        tick timestamps and the error flags are left as they are. */
    method Harvest() returns (snap: Snapshot)
      requires Valid()
      modifies rpm, speed
      ensures Valid()
      ensures snap == SnapshotOf(old(rpm.stats), old(speed.stats))
      ensures rpm.State() == old(rpm.State()).(stats := Empty)
      ensures speed.State() == old(speed.State()).(stats := Empty)
    {
      var r := Report(rpm.stats);
      snap := Snapshot(r.durations, r.spread, Report(speed.stats).spread);
      rpm.ResetStats();
      speed.ResetStats();
    }
  }

  /** Two harvests with no tick in between: the second publishes only zeros. */
  method HarvestTwice(m: EngineMonitor) returns (first: Snapshot, second: Snapshot)
    requires m.Valid()
    modifies m.rpm, m.speed
    ensures m.Valid()
    ensures first == SnapshotOf(old(m.rpm.stats), old(m.speed.stats))
    ensures second == Snapshot(Durations(0, 0, 0), Spread(0, 0, 0), Spread(0, 0, 0))
  {
    first := m.Harvest();
    second := m.Harvest();
    SnapshotOfEmpty();
  }
}

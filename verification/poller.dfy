/** The per-quantity poll tick. The loop runs the same block twice, once for
    engine speed in rpm and once for vehicle speed, each over its own set of
    globals; here one `Channel` object holds one such set and `Tick` is the
    block, parameterised by the request it sends and the idle threshold. */
module Poller {
  import opened Obd
  import opened Aggregator

  /** The globals of one quantity: the latest reading (0 = none since the last
      tick), the time of the last tick, the statistics and the static error
      flag of its send. */
  datatype ChannelState = ChannelState(reading: int, lastRequest: U32, stats: Stats, errorFlag: bool)

  /** The invariant of a channel: a reading the decoder can produce and
      consistent statistics. */
  predicate ChannelInv(st: ChannelState, limit: int) {
    0 <= st.reading <= limit && Consistent(st.stats)
  }

  /** What one tick did: nothing, or it folded a reading of class `recorded`,
      sent `sent` (nothing without key-in) and maybe logged a send error. */
  datatype TickOutcome = NotDue | Due(recorded: Class, sent: Option<Payload>, errorLogged: bool)

  /** The send-error latch: its new value and whether this send logs. */
  datatype Latch = Latch(flag: bool, logged: bool)

  /** A success clears the flag; a failure logs only if the flag was clear. */
  function SendLatch(flag: bool, sendOk: bool): Latch {
    if sendOk then Latch(false, false)
    else if !flag then Latch(true, true)
    else Latch(true, false)
  }

  /** The tick block as a function of the channel's state before it. */
  function TickSpec(st: ChannelState, request: Payload, now: U32, keyIn: bool, sendOk: bool, threshold: int)
    : (ChannelState, TickOutcome)
  {
    if Elapsed(st.lastRequest, now) < PollPeriodMs then (st, NotDue)
    else
      var latch := if keyIn then SendLatch(st.errorFlag, sendOk) else Latch(st.errorFlag, false);
      (ChannelState(0, now, Record(st.stats, st.reading, threshold), latch.flag),
       Due(Classify(st.reading, threshold), if keyIn then Some(request) else None, latch.logged))
  }

  /** A tick is due exactly when a full period has passed since the last one
      on the wrapping clock; it then records `now`, folds the previous
      reading and clears it, and otherwise changes nothing. */
  lemma TickTiming(st: ChannelState, request: Payload, now: U32, keyIn: bool, sendOk: bool, threshold: int)
    ensures var (st', out) := TickSpec(st, request, now, keyIn, sendOk, threshold);
            && (out.Due? <==> Elapsed(st.lastRequest, now) >= PollPeriodMs)
            && (out.NotDue? ==> st' == st)
            && (out.Due? ==> st'.lastRequest == now && st'.reading == 0
                             && st'.stats.counts.samples == st.stats.counts.samples + 1 && out.recorded == Classify(st.reading, threshold))
  {
  }

  /** The tick keeps the channel invariant. */
  lemma {:induction false} TickPreservesInv(st: ChannelState, limit: int, request: Payload, now: U32, keyIn: bool,
                                            sendOk: bool, threshold: int)
    requires ChannelInv(st, limit)
    ensures ChannelInv(TickSpec(st, request, now, keyIn, sendOk, threshold).0, limit)
  {
    if Elapsed(st.lastRequest, now) >= PollPeriodMs {
      RecordPreservesConsistent(st.stats, st.reading, threshold);
    }
  }

  /** No reply since the previous tick leaves the reading at 0, and the next
      tick counts that period as engine off, exactly as a real 0 reading. */
  lemma MissedReplyCountsAsOff(st: ChannelState, request: Payload, now: U32, keyIn: bool, sendOk: bool, threshold: int)
    requires st.reading == 0 && Elapsed(st.lastRequest, now) >= PollPeriodMs
    ensures var (st', out) := TickSpec(st, request, now, keyIn, sendOk, threshold);
            out == Due(Off, out.sent, out.errorLogged) && st'.stats.counts.off == st.stats.counts.off + 1
            && st'.stats.counts.idle == st.stats.counts.idle && st'.stats.counts.active == st.stats.counts.active
            && st'.stats.totals == st.stats.totals
  {
  }

  /** A request goes out on a due tick exactly when the key is in; without it
      the error flag is left alone and nothing is logged. */
  lemma SendsOnlyWithKey(st: ChannelState, request: Payload, now: U32, keyIn: bool, sendOk: bool, threshold: int)
    ensures var (st', out) := TickSpec(st, request, now, keyIn, sendOk, threshold);
            && (out.Due? ==> (out.sent == Some(request) <==> keyIn) && (out.sent == None <==> !keyIn))
            && (!keyIn ==> st'.errorFlag == st.errorFlag && !(out.Due? && out.errorLogged))
  {
  }

  /** Two iterations at the same instant tick at most once. */
  lemma NoSecondTickAtSameInstant(st: ChannelState, request: Payload, now: U32, keyIn: bool, sendOk: bool,
                                  threshold: int, keyIn2: bool, sendOk2: bool, threshold2: int)
    requires TickSpec(st, request, now, keyIn, sendOk, threshold).1.Due?
    ensures TickSpec(TickSpec(st, request, now, keyIn, sendOk, threshold).0, request, now, keyIn2, sendOk2, threshold2).1 == NotDue
  {
  }

  // The error latch over a run of attempted sends (ticks with the key in).

  /** Number of error logs over the attempted sends with outcomes `oks`. */
  function LogsOver(flag: bool, oks: seq<bool>): nat
    decreases |oks|
  {
    if oks == [] then 0
    else var l := SendLatch(flag, oks[0]); (if l.logged then 1 else 0) + LogsOver(l.flag, oks[1..])
  }

  function Successes(oks: seq<bool>): nat
    decreases |oks|
  {
    if oks == [] then 0 else (if oks[0] then 1 else 0) + Successes(oks[1..])
  }

  /** A run of `n` failures logs once if the flag was clear, and never if an
      earlier failure had already set it. */
  lemma {:induction false} FailureRunLogsOnce(flag: bool, n: nat)
    ensures LogsOver(flag, seq(n, i => false)) == if !flag && n > 0 then 1 else 0
    decreases n
  {
    if n > 0 {
      assert seq(n, i => false)[1..] == seq(n - 1, i => false);
      FailureRunLogsOnce(true, n - 1);
    }
  }

  /** A successful send re-arms the latch: a failure run after it logs once
      again, whatever the flag was before. */
  lemma {:induction false} SuccessRearmsLog(flag: bool, n: nat)
    ensures LogsOver(flag, [true] + seq(n, i => false)) == if n > 0 then 1 else 0
  {
    assert ([true] + seq(n, i => false))[1..] == seq(n, i => false);
    FailureRunLogsOnce(false, n);
  }

  /** Between two logs there is always a successful send: the latch logs at
      most once more than the sends that succeeded. */
  lemma {:induction false} LogsBoundedBySuccesses(flag: bool, oks: seq<bool>)
    ensures LogsOver(flag, oks) <= Successes(oks) + (if flag then 0 else 1)
    decreases |oks|
  {
    if oks != [] {
      var l := SendLatch(flag, oks[0]);
      LogsBoundedBySuccesses(l.flag, oks[1..]);
    }
  }

  /** One quantity's globals, updated in place by the loop and the harvest.
      The seven counters of the source are the fields of `stats`. */
  class Channel {
    /** The largest reading the decoder can store here. */
    const limit: int
    /** The request payload sent on every due tick with the key in. */
    const request: Payload

    var reading: int
    var lastRequest: U32
    var stats: Stats
    var errorFlag: bool

    function State(): ChannelState
      reads this
    {
      ChannelState(reading, lastRequest, stats, errorFlag)
    }

    ghost predicate Valid()
      reads this
    {
      ChannelInv(State(), limit)
    }

    /** All globals start at 0 and the flag clear. */
    constructor (limit: nat, request: Payload)
      ensures Valid() && this.limit == limit && this.request == request
      ensures State() == ChannelState(0, 0, Empty, false)
    {
      this.limit := limit;
      this.request := request;
      reading, lastRequest := 0, 0;
      stats := Empty;
      errorFlag := false;
    }

    /** A matching reply stores its decoded value as the latest reading. */
    method Receive(v: int)
      requires Valid() && 0 <= v <= limit
      modifies this
      ensures Valid() && State() == old(State()).(reading := v)
    {
      reading := v;
    }

    method Tick(now: U32, keyIn: bool, sendOk: bool, threshold: int) returns (out: TickOutcome)
      requires Valid()
      modifies this
      ensures Valid()
      ensures (State(), out) == TickSpec(old(State()), request, now, keyIn, sendOk, threshold)
    {
      ghost var st := State();
      if Elapsed(lastRequest, now) < PollPeriodMs {
        return NotDue;
      }
      lastRequest := now;
      var recorded: Class;
      var counts, totals := stats.counts, stats.totals;
      counts := counts.(samples := counts.samples + 1);
      if reading == 0 {
        counts := counts.(off := counts.off + 1);
        recorded := Off;
      } else if reading < threshold {
        counts := counts.(idle := counts.idle + 1);
        recorded := Idle;
      } else {
        counts := counts.(active := counts.active + 1);
        totals := totals.(sum := totals.sum + reading);
        if reading < totals.min || totals.min == 0 {
          totals := totals.(min := reading);
        }
        if reading > totals.max {
          totals := totals.(max := reading);
        }
        recorded := Active;
      }
      stats := Stats(counts, totals);
      assert stats == Record(st.stats, st.reading, threshold) && recorded == Classify(st.reading, threshold);
      reading := 0;
      var sent: Option<Payload> := None;
      var logged := false;
      if keyIn {
        sent := Some(request);
        if sendOk {
          errorFlag := false;
        } else if !errorFlag {
          logged := true;
          errorFlag := true;
        }
      }
      out := Due(recorded, sent, logged);
      TickPreservesInv(st, limit, request, now, keyIn, sendOk, threshold);
    }

    /** The harvest's reset: every accumulator to 0; reading, timestamp and
        error flag untouched. */
    method ResetStats()
      requires Valid()
      modifies this
      ensures Valid() && State() == old(State()).(stats := Empty)
    {
      stats := Empty;
    }
  }
}

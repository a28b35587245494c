/** The sample classifier and aggregator: what one poll tick does to a
    quantity's statistics, the invariant those statistics keep, and the values
    that the diagnostic log and the published snapshot derive from them. */
module Aggregator {

  /** Poll period of both quantities, in milliseconds (10 requests a second). */
  const PollPeriodMs: int := 100

  /** The counters of one quantity since the last snapshot: `samples` ticks
      in all, split into `off` (reading 0), `idle` (below the idle threshold)
      and `active` ticks. */
  datatype Counts = Counts(samples: int, off: int, idle: int, active: int)

  /** Sum, minimum and maximum of the active readings only; `min` uses 0 for
      "no active reading yet". */
  datatype Totals = Totals(sum: int, min: int, max: int)

  /** The seven running statistics of one quantity, kept as two records. */
  datatype Stats = Stats(counts: Counts, totals: Totals)

  const Empty: Stats := Stats(Counts(0, 0, 0, 0), Totals(0, 0, 0))

  datatype Class = Off | Idle | Active

  /** Off is tested first, so a zero reading is off whatever the threshold. */
  function Classify(v: int, threshold: int): Class {
    if v == 0 then Off else if v < threshold then Idle else Active
  }

  /** One tick folds the previous reading `v` into the statistics. */
  function Record(s: Stats, v: int, threshold: int): (r: Stats)
    ensures r.counts.samples == s.counts.samples + 1
    ensures r.counts.off == s.counts.off + 1 <==> v == 0
    ensures r.counts.idle == s.counts.idle + 1 <==> v != 0 && v < threshold
    ensures r.counts.active == s.counts.active + 1 <==> v != 0 && v >= threshold
    ensures r.counts.off + r.counts.idle + r.counts.active == s.counts.off + s.counts.idle + s.counts.active + 1
    ensures r.counts.active == s.counts.active ==> r.totals == s.totals
    ensures r.counts.active != s.counts.active ==> r.totals.sum == s.totals.sum + v
    // Only the reading's own class moves; the other two counters stay.
    ensures v != 0 ==> r.counts.off == s.counts.off
    ensures (v == 0 || v >= threshold) ==> r.counts.idle == s.counts.idle
    ensures (v == 0 || v < threshold) ==> r.counts.active == s.counts.active
    // An active reading replaces a minimum of 0 ("none yet") or a larger one,
    // and a smaller maximum.
    ensures v != 0 && v >= threshold ==>
              && r.totals.min == (if s.totals.min == 0 || v < s.totals.min then v else s.totals.min)
              && r.totals.max == (if v > s.totals.max then v else s.totals.max)
  {
    var c := s.counts.(samples := s.counts.samples + 1);
    var t := s.totals;
    match Classify(v, threshold)
    case Off => Stats(c.(off := c.off + 1), t)
    case Idle => Stats(c.(idle := c.idle + 1), t)
    case Active =>
      Stats(c.(active := c.active + 1),
            Totals(t.sum + v, if v < t.min || t.min == 0 then v else t.min, if v > t.max then v else t.max))
  }

  /** The invariant of the statistics: the counts partition the samples, and
      min and max are 0 with no active sample and otherwise bracket every
      active reading, hence also their sum. */
  predicate Consistent(s: Stats) {
    var c, t := s.counts, s.totals;
    && 0 <= c.off && 0 <= c.idle && 0 <= c.active
    && c.samples == c.off + c.idle + c.active
    && (c.active == 0 ==> t.sum == 0 && t.min == 0 && t.max == 0)
    && (c.active > 0 ==> 0 < t.min <= t.max && t.min * c.active <= t.sum <= t.max * c.active)
  }

  /** Decoded readings are never negative, so an active one is positive and the
      "min is still 0" test fires on the first active reading only. */
  lemma {:induction false} RecordPreservesConsistent(s: Stats, v: int, threshold: int)
    requires Consistent(s) && v >= 0
    ensures Consistent(Record(s, v, threshold))
  {
    var r, t := Record(s, v, threshold).totals, s.totals;
    if Classify(v, threshold) == Active && s.counts.active > 0 {
      assert r.min == if v < t.min then v else t.min;
      assert r.max == if v > t.max then v else t.max;
      BoundsAbsorb(t.sum, s.counts.active, t.min, t.max, v, r.min, r.max);
    }
  }

  /** `n` values between `lo` and `hi`, plus one more value `v`, lie between
      any `lo'` and `hi'` that bracket both. */
  lemma {:induction false} BoundsAbsorb(sum: int, n: int, lo: int, hi: int, v: int, lo': int, hi': int)
    requires 0 <= n && lo * n <= sum <= hi * n
    requires lo' <= lo && lo' <= v && hi <= hi' && v <= hi'
    ensures lo' * (n + 1) <= sum + v <= hi' * (n + 1)
  {
    MulMonotone(lo', lo, n);
    MulMonotone(hi, hi', n);
    assert lo' * (n + 1) == lo' * n + lo';
    assert hi' * (n + 1) == hi' * n + hi';
  }

  lemma MulMonotone(a: int, b: int, n: int)
    requires a <= b && 0 <= n
    ensures a * n <= b * n
  {
  }

  /** Applies the ticks of `vs`, oldest first. */
  function FoldSamples(s: Stats, vs: seq<int>, threshold: int): Stats
    decreases |vs|
  {
    if vs == [] then s
    else Record(FoldSamples(s, vs[..|vs| - 1], threshold), vs[|vs| - 1], threshold)
  }

  predicate NonNegative(vs: seq<int>) {
    forall i :: 0 <= i < |vs| ==> vs[i] >= 0
  }

  /** After any sequence of ticks the invariant still holds. */
  lemma {:induction false} FoldPreservesConsistent(s: Stats, vs: seq<int>, threshold: int)
    requires Consistent(s) && NonNegative(vs)
    ensures Consistent(FoldSamples(s, vs, threshold))
    decreases |vs|
  {
    if vs != [] {
      FoldPreservesConsistent(s, vs[..|vs| - 1], threshold);
      RecordPreservesConsistent(FoldSamples(s, vs[..|vs| - 1], threshold), vs[|vs| - 1], threshold);
    }
  }

  // An independent description of the statistics of a run of ticks.

  function CountOf(vs: seq<int>, threshold: int, c: Class): nat
    decreases |vs|
  {
    if vs == [] then 0
    else CountOf(vs[..|vs| - 1], threshold, c) + (if Classify(vs[|vs| - 1], threshold) == c then 1 else 0)
  }

  /** The readings classified active, in order. */
  function ActiveValues(vs: seq<int>, threshold: int): seq<int>
    decreases |vs|
  {
    if vs == [] then []
    else ActiveValues(vs[..|vs| - 1], threshold) + (if Classify(vs[|vs| - 1], threshold) == Active then [vs[|vs| - 1]] else [])
  }

  function Sum(xs: seq<int>): int
    decreases |xs|
  {
    if xs == [] then 0 else Sum(xs[..|xs| - 1]) + xs[|xs| - 1]
  }

  function MinOf(xs: seq<int>): int
    requires xs != []
    decreases |xs|
  {
    if |xs| == 1 then xs[0]
    else var m := MinOf(xs[..|xs| - 1]); if xs[|xs| - 1] < m then xs[|xs| - 1] else m
  }

  function MaxOf(xs: seq<int>): int
    requires xs != []
    decreases |xs|
  {
    if |xs| == 1 then xs[0]
    else var m := MaxOf(xs[..|xs| - 1]); if xs[|xs| - 1] > m then xs[|xs| - 1] else m
  }

  /** Starting from empty statistics, a run of ticks with readings `vs` counts
      each class of reading. */
  lemma {:induction false} FoldCountsClasses(vs: seq<int>, threshold: int)
    ensures var r := FoldSamples(Empty, vs, threshold);
            && r.counts.samples == |vs|
            && r.counts.off == CountOf(vs, threshold, Off)
            && r.counts.idle == CountOf(vs, threshold, Idle)
            && r.counts.active == CountOf(vs, threshold, Active) == |ActiveValues(vs, threshold)|
    decreases |vs|
  {
    if vs != [] {
      FoldCountsClasses(vs[..|vs| - 1], threshold);
    }
  }

  /** ... and sums, minimises and maximises exactly the active readings. */
  lemma {:induction false} FoldAggregatesActive(vs: seq<int>, threshold: int)
    requires NonNegative(vs)
    ensures var r := FoldSamples(Empty, vs, threshold).totals;
            var act := ActiveValues(vs, threshold);
            && r.sum == Sum(act)
            && r.min == (if act == [] then 0 else MinOf(act))
            && r.max == (if act == [] then 0 else MaxOf(act))
    decreases |vs|
  {
    if vs != [] {
      var pre, v := vs[..|vs| - 1], vs[|vs| - 1];
      assert NonNegative(pre);
      FoldAggregatesActive(pre, threshold);
      FoldCountsClasses(pre, threshold);
      FoldPreservesConsistent(Empty, pre, threshold);
      var p := FoldSamples(Empty, pre, threshold).totals;
      var act := ActiveValues(pre, threshold);
      assert FoldSamples(Empty, pre, threshold).counts.active == |act|;
      if Classify(v, threshold) == Active {
        var act' := act + [v];
        assert ActiveValues(vs, threshold) == act';
        assert act'[..|act'| - 1] == act;
        assert Sum(act') == Sum(act) + v;
        if act == [] {
          assert p.min == 0 && p.max == 0 && p.sum == 0;
        } else {
          assert p.min > 0;
          assert MinOf(act') == if v < MinOf(act) then v else MinOf(act);
          assert MaxOf(act') == if v > MaxOf(act) then v else MaxOf(act);
        }
      } else {
        assert ActiveValues(vs, threshold) == act;
      }
    }
  }

  /** C's `/`, which truncates toward zero. */
  function CDiv(a: int, b: int): int
    requires b != 0
  {
    var q := (if a < 0 then -a else a) / (if b < 0 then -b else b);
    if (a < 0) == (b < 0) then q else -q
  }

  /** The mean of the active readings, 0 when there is none. */
  function Mean(s: Stats): int {
    if s.counts.active != 0 then CDiv(s.totals.sum, s.counts.active) else 0
  }

  lemma {:induction false} MeanWithinBounds(s: Stats)
    requires Consistent(s)
    ensures s.counts.active == 0 ==> s.totals.min == Mean(s) == s.totals.max == 0
    ensures s.counts.active > 0 ==> 0 < s.totals.min <= Mean(s) <= s.totals.max
  {
    var t, n := s.totals, s.counts.active;
    if n > 0 {
      MulMonotone(1, t.min, n);
      assert Mean(s) == t.sum / n;
      QuotientBetween(t.sum, n, t.min, t.max);
    }
  }

  /** A sum of `n` values between `lo` and `hi` divided by `n` stays between them. */
  lemma {:induction false} QuotientBetween(sum: int, n: int, lo: int, hi: int)
    requires n > 0 && lo * n <= sum <= hi * n
    ensures lo <= sum / n <= hi
  {
    var q := sum / n;
    assert sum == q * n + sum % n;
    if q < lo {
      MulMonotone(q + 1, lo, n);
      assert false;
    }
    if q > hi {
      MulMonotone(hi + 1, q, n);
      assert false;
    }
  }

  /** `count * period / 1000`: whole seconds spent in a class, truncated. */
  function Seconds(count: int): int {
    count * PollPeriodMs / 1000
  }

  /** Seconds off, idle and active (non-idle). */
  datatype Durations = Durations(off: int, idle: int, active: int)

  /** Minimum, mean and maximum of the active readings. */
  datatype Spread = Spread(min: int, mean: int, max: int)

  /** The six values reported for one quantity, in the diagnostic log and
      (for engine speed) in the published snapshot. */
  datatype QuantityReport = QuantityReport(durations: Durations, spread: Spread)

  function Report(s: Stats): QuantityReport {
    QuantityReport(Durations(Seconds(s.counts.off), Seconds(s.counts.idle), Seconds(s.counts.active)),
                   Spread(s.totals.min, Mean(s), s.totals.max))
  }

  /** What the reports promise: min <= mean <= max (all 0 with no active
      sample), and the three durations add up to the whole sampled time,
      less at most two seconds lost to truncating each of them. */
  lemma {:induction false} ReportBounds(s: Stats)
    requires Consistent(s)
    ensures var d, r := Report(s).durations, Report(s).spread;
            && r.min <= r.mean <= r.max
            && (s.counts.active == 0 ==> r.min == r.mean == r.max == 0)
            && 0 <= d.off && 0 <= d.idle && 0 <= d.active
            && d.off + d.idle + d.active <= Seconds(s.counts.samples)
            && Seconds(s.counts.samples) <= d.off + d.idle + d.active + 2
  {
    MeanWithinBounds(s);
    var a, b, c := s.counts.off, s.counts.idle, s.counts.active;
    assert Seconds(a) == a / 10 && Seconds(b) == b / 10 && Seconds(c) == c / 10;
    assert Seconds(s.counts.samples) == (a + b + c) / 10;
    assert a == (a / 10) * 10 + a % 10;
    assert b == (b / 10) * 10 + b % 10;
    assert c == (c / 10) * 10 + c % 10;
  }

  lemma FoldSnoc(s: Stats, vs: seq<int>, v: int, threshold: int)
    ensures FoldSamples(s, vs + [v], threshold) == Record(FoldSamples(s, vs, threshold), v, threshold)
  {
    assert (vs + [v])[..|vs|] == vs;
  }

  /** The readings 0, 0, 1200, 1800, 2200 against an idle threshold of 1600. */
  lemma ExampleRun()
    ensures var s := FoldSamples(Empty, [0, 0, 1200, 1800, 2200], 1600);
            && s.counts == Counts(5, 2, 1, 2)
            && s.totals.min == 1800 && s.totals.max == 2200 && Mean(s) == 2000
  {
    var t := 1600;
    FoldSnoc(Empty, [], 0, t);
    assert FoldSamples(Empty, [0], t) == Stats(Counts(1, 1, 0, 0), Totals(0, 0, 0));
    FoldSnoc(Empty, [0], 0, t);
    assert FoldSamples(Empty, [0, 0], t) == Stats(Counts(2, 2, 0, 0), Totals(0, 0, 0));
    FoldSnoc(Empty, [0, 0], 1200, t);
    assert FoldSamples(Empty, [0, 0, 1200], t) == Stats(Counts(3, 2, 1, 0), Totals(0, 0, 0));
    FoldSnoc(Empty, [0, 0, 1200], 1800, t);
    assert [0, 0, 1200] + [1800] == [0, 0, 1200, 1800];
    assert FoldSamples(Empty, [0, 0, 1200, 1800], t) == Stats(Counts(4, 2, 1, 1), Totals(1800, 1800, 1800));
    FoldSnoc(Empty, [0, 0, 1200, 1800], 2200, t);
    assert [0, 0, 1200, 1800] + [2200] == [0, 0, 1200, 1800, 2200];
  }
}

/** The Age-of-Information metrics of sdk/fins/analysis/aoi_analyzer.hpp in exact integer microseconds: the ring of the
    last sends, the backward window scan, and the one-pass integration of the age sawtooth. */
module AoiAnalyzer {
  import opened Sequences

  const ANALYZER_BUFFER_CAPACITY: nat := 100
  const WINDOW_US: int := 1000000
  const DEFAULT_VIOLATION_THRESHOLD_US: int := 200000

  datatype Sample = Sample(arrival: int, generation: int)

  /** What one call reports, before the final divisions; twiceArea is twice the integral of the age. */
  datatype Metrics = Metrics(
    count: nat, totalDelay: int, twiceArea: int, violation: int, peak: int, duration: int)

  const NO_METRICS: Metrics := Metrics(0, 0, 0, 0, 0, 0)

  // ---------- the window ----------

  /** The record ends the backward scan: it was never set, or it is too old. */
  predicate EndsScan(record: Sample, now: int) {
    record.arrival == 0 || record.arrival < now - WINDOW_US
  }

  /** The backward scan over the first `n` records of the log, at most `k` of them: newest first, skipping arrivals
      later than now. */
  function Scan(log: seq<Sample>, n: nat, k: nat, now: int): (found: seq<Sample>)
    requires n <= |log|
  {
    if n == 0 || k == 0 || EndsScan(log[n - 1], now) then []
    else (if log[n - 1].arrival > now then [] else [log[n - 1]]) + Scan(log, n - 1, k - 1, now)
  }

  /** Records from..n of the log that arrived in the window ending now, in log order. */
  function InWindow(log: seq<Sample>, from: nat, n: nat, now: int): (kept: seq<Sample>)
    requires n <= |log|
  {
    if n <= from then []
    else InWindow(log, from, n - 1, now) + if now - WINDOW_US <= log[n - 1].arrival <= now then [log[n - 1]] else []
  }

  /** The window of the last min(|log|, 100) records. */
  function Window(log: seq<Sample>, now: int): seq<Sample> {
    InWindow(log, Oldest(|log|, ANALYZER_BUFFER_CAPACITY), |log|, now)
  }

  /** The index of the oldest of the last `k` of `n` records. */
  function Oldest(n: nat, k: nat): nat {
    if n <= k then 0 else n - k
  }

  /** What a clock that never goes back gives. */
  ghost predicate ClockOrdered(log: seq<Sample>) {
    && (forall i :: 0 <= i < |log| ==> log[i].arrival > 0)
    && TimeOrdered(log)
  }

  ghost predicate TimeOrdered(samples: seq<Sample>) {
    forall i, j :: 0 <= i < j < |samples| ==> samples[i].arrival <= samples[j].arrival
  }

  lemma {:induction false} NoneInWindow(log: seq<Sample>, from: nat, n: nat, now: int)
    requires n <= |log| && forall i :: from <= i < n ==> log[i].arrival < now - WINDOW_US
    ensures InWindow(log, from, n, now) == []
  {
    if n > from {
      NoneInWindow(log, from, n - 1, now);
    }
  }

  /** The scan, reversed, is the newest records of the log that lie in the window, in log order. */
  lemma {:induction false} ScanIsWindow(log: seq<Sample>, n: nat, k: nat, now: int)
    requires ClockOrdered(log) && n <= |log|
    ensures Reversed(Scan(log, n, k, now)) == InWindow(log, Oldest(n, k), n, now)
  {
    if n > 0 && k > 0 {
      if EndsScan(log[n - 1], now) {
        NoneInWindow(log, Oldest(n, k), n, now);
      } else {
        ScanIsWindow(log, n - 1, k - 1, now);
        if log[n - 1].arrival <= now {
          ReversedCons(log[n - 1], Scan(log, n - 1, k - 1, now));
        }
      }
    }
  }

  lemma {:induction false} InWindowOrdered(log: seq<Sample>, from: nat, n: nat, now: int)
    requires TimeOrdered(log) && n <= |log|
    ensures var kept := InWindow(log, from, n, now);
            && |kept| <= (if n <= from then 0 else n - from) && TimeOrdered(kept)
            && (forall i :: 0 <= i < |kept| ==>
                  now - WINDOW_US <= kept[i].arrival <= now && kept[i].arrival <= log[n - 1].arrival)
  {
    if n > from {
      InWindowOrdered(log, from, n - 1, now);
      assert n > 1 ==> log[n - 2].arrival <= log[n - 1].arrival;
    }
  }

  // ---------- the one-pass integration ----------

  /** The accumulators of the loop. */
  datatype Acc = Acc(delay: int, twiceArea: int, violation: int, peak: int, tPrev: int, sPrev: int)

  /** Extending the sawtooth from tPrev to `t`, with the sample of generation time sPrev the newest one. */
  function Extended(acc: Acc, t: int, threshold: int): Acc {
    if t <= acc.tPrev then acc
    else
      var hStart, hEnd, dt := acc.tPrev - acc.sPrev, t - acc.sPrev, t - acc.tPrev;
      acc.(
        twiceArea := acc.twiceArea + (hStart + hEnd) * dt,
        violation := acc.violation
          + if hStart > threshold then dt else if hEnd > threshold then hEnd - threshold else 0,
        peak := if hEnd > acc.peak then hEnd else acc.peak)
  }

  function Took(acc: Acc, sample: Sample, threshold: int): Acc {
    Extended(acc, sample.arrival, threshold).(
      delay := acc.delay + (sample.arrival - sample.generation), tPrev := sample.arrival, sPrev := sample.generation)
  }

  function Fold(samples: seq<Sample>, n: nat, threshold: int): Acc
    requires 0 < |samples| && n <= |samples|
  {
    if n == 0 then Acc(0, 0, 0, 0, samples[0].arrival, samples[0].generation)
    else Took(Fold(samples, n - 1, threshold), samples[n - 1], threshold)
  }

  function Integrated(samples: seq<Sample>, now: int, threshold: int): (m: Metrics) {
    if samples == [] then NO_METRICS
    else
      var acc := Extended(Fold(samples, |samples|, threshold), now, threshold);
      var span := now - samples[0].arrival;
      Metrics(|samples|, acc.delay, acc.twiceArea, acc.violation, acc.peak, if span < 1 then 1 else span)
  }

  // ---------- the age, tick by tick ----------

  /** The age at the end of tick `tick`: the time since the newest sample that had arrived before it was generated. */
  function AgeAt(samples: seq<Sample>, tick: int): int {
    if samples == [] then 0
    else if samples[|samples| - 1].arrival < tick then tick - samples[|samples| - 1].generation
    else AgeAt(samples[..|samples| - 1], tick)
  }

  /** The sum of 2 * age - 1 over the ticks after `from` up to `to`. */
  function AreaTicks(samples: seq<Sample>, from: int, to: int): int
    decreases (to - from)
  {
    if to <= from then 0 else AreaTicks(samples, from, to - 1) + 2 * AgeAt(samples, to) - 1
  }

  /** How many of those ticks have an age above the threshold. */
  function ViolationTicks(samples: seq<Sample>, threshold: int, from: int, to: int): nat
    decreases (to - from)
  {
    if to <= from then 0
    else ViolationTicks(samples, threshold, from, to - 1) + if AgeAt(samples, to) > threshold then 1 else 0
  }

  /** The greatest of their ages, at least 0. */
  function PeakTicks(samples: seq<Sample>, from: int, to: int): (peak: nat)
    ensures forall tick :: from < tick <= to ==> AgeAt(samples, tick) <= peak
    ensures peak > 0 ==> (exists tick :: from < tick <= to && AgeAt(samples, tick) == peak)
    decreases (to - from)
  {
    if to <= from then 0
    else
      var before := PeakTicks(samples, from, to - 1);
      if AgeAt(samples, to) > before then AgeAt(samples, to) else before
  }

  /** The sum of the times the samples took from their generation to their arrival. */
  function DelaySum(samples: seq<Sample>): int {
    if samples == [] then 0 else samples[0].arrival - samples[0].generation + DelaySum(samples[1..])
  }

  lemma {:induction false} DelaySumLast(samples: seq<Sample>, last: Sample)
    ensures DelaySum(samples + [last]) == DelaySum(samples) + last.arrival - last.generation
  {
    if samples == [] {
      assert samples + [last] == [last];
    } else {
      assert (samples + [last])[1..] == samples[1..] + [last];
      DelaySumLast(samples[1..], last);
    }
  }

  lemma {:induction false} FoldDelay(samples: seq<Sample>, n: nat, threshold: int)
    requires 0 < |samples| && n <= |samples|
    ensures Fold(samples, n, threshold).delay == DelaySum(samples[..n])
  {
    if n > 0 {
      FoldDelay(samples, n - 1, threshold);
      DelaySumLast(samples[..n - 1], samples[n - 1]);
      assert samples[..n] == samples[..n - 1] + [samples[n - 1]];
    }
  }

  /** What the figures of a window of samples are, by their definitions. */
  ghost predicate Describes(m: Metrics, samples: seq<Sample>, now: int, threshold: int) {
    && m.count == |samples| && m.totalDelay == DelaySum(samples)
    && if samples == [] then m.twiceArea == m.violation == m.peak == m.duration == 0
       else
         var first := samples[0].arrival;
         && m.twiceArea == AreaTicks(samples, first, now)
         && m.violation == ViolationTicks(samples, threshold, first, now)
         && m.peak == PeakTicks(samples, first, now)
         && (m.duration == now - first || (m.duration == 1 && now <= first)) && m.duration >= 1
  }

  /** Between two arrivals the age grows from the earlier sample's generation time. */
  lemma {:induction false} AgeBetween(samples: seq<Sample>, k: nat, tick: int)
    requires TimeOrdered(samples) && k < |samples| && samples[k].arrival < tick
    requires k + 1 < |samples| ==> tick <= samples[k + 1].arrival
    ensures AgeAt(samples, tick) == tick - samples[k].generation
  {
    if k + 1 < |samples| {
      assert samples[k + 1].arrival <= samples[|samples| - 1].arrival;
      AgeBetween(samples[..|samples| - 1], k, tick);
    }
  }

  /** The ticks after `from` up to `to` lie on one straight piece of the sawtooth. */
  ghost predicate OnePiece(samples: seq<Sample>, from: int, to: int, generation: int) {
    from <= to && forall tick :: from < tick <= to ==> AgeAt(samples, tick) == tick - generation
  }

  lemma {:induction false} PieceArea(samples: seq<Sample>, start: int, from: int, to: int, generation: int)
    requires start <= from && OnePiece(samples, from, to, generation)
    ensures AreaTicks(samples, start, to)
            == AreaTicks(samples, start, from) + ((from - generation) + (to - generation)) * (to - from)
    decreases (to - from)
  {
    if from < to {
      PieceArea(samples, start, from, to - 1, generation);
      SquareStep(from - generation, to - from);
    }
  }

  lemma {:induction false} PieceViolation(samples: seq<Sample>, threshold: int, start: int, from: int, to: int,
                                          generation: int)
    requires start <= from && OnePiece(samples, from, to, generation)
    ensures ViolationTicks(samples, threshold, start, to) == ViolationTicks(samples, threshold, start, from)
            + (if from - generation > threshold then to - from
               else if to - generation > threshold then to - generation - threshold else 0)
    decreases (to - from)
  {
    if from < to {
      PieceViolation(samples, threshold, start, from, to - 1, generation);
    }
  }

  lemma {:induction false} PiecePeak(samples: seq<Sample>, start: int, from: int, to: int, generation: int)
    requires start <= from && OnePiece(samples, from, to, generation)
    ensures PeakTicks(samples, start, to) ==
            (if from < to && to - generation > PeakTicks(samples, start, from) then to - generation
             else PeakTicks(samples, start, from))
    decreases (to - from)
  {
    if from < to {
      PiecePeak(samples, start, from, to - 1, generation);
    }
  }

  /** Extending the accumulators over one piece takes in exactly its ticks. */
  lemma PieceExact(samples: seq<Sample>, threshold: int, acc: Acc, to: int)
    requires samples != [] && samples[0].arrival <= acc.tPrev && Exact(samples, threshold, acc)
    requires OnePiece(samples, acc.tPrev, to, acc.sPrev)
    ensures Exact(samples, threshold, Extended(acc, to, threshold).(tPrev := to))
  {
    PieceArea(samples, samples[0].arrival, acc.tPrev, to, acc.sPrev);
    PieceViolation(samples, threshold, samples[0].arrival, acc.tPrev, to, acc.sPrev);
    PiecePeak(samples, samples[0].arrival, acc.tPrev, to, acc.sPrev);
  }

  lemma SquareStep(a: int, d: int)
    ensures (2 * a + d) * d == (2 * a + d - 1) * (d - 1) + 2 * (a + d) - 1
  {
  }

  /** The accumulators say what the ticks up to tPrev say. */
  ghost predicate Exact(samples: seq<Sample>, threshold: int, acc: Acc)
    requires samples != []
  {
    && acc.twiceArea == AreaTicks(samples, samples[0].arrival, acc.tPrev)
    && acc.violation == ViolationTicks(samples, threshold, samples[0].arrival, acc.tPrev)
    && acc.peak == PeakTicks(samples, samples[0].arrival, acc.tPrev)
  }

  lemma BetweenIsOnePiece(samples: seq<Sample>, k: nat, to: int)
    requires TimeOrdered(samples) && k < |samples| && samples[k].arrival <= to
    requires k + 1 < |samples| ==> to <= samples[k + 1].arrival
    ensures OnePiece(samples, samples[k].arrival, to, samples[k].generation)
  {
    forall tick | samples[k].arrival < tick <= to ensures AgeAt(samples, tick) == tick - samples[k].generation {
      AgeBetween(samples, k, tick);
    }
  }

  lemma {:induction false} FoldExact(samples: seq<Sample>, n: nat, threshold: int)
    requires TimeOrdered(samples) && 0 < n <= |samples|
    ensures Exact(samples, threshold, Fold(samples, n, threshold))
    ensures var acc := Fold(samples, n, threshold);
            acc.tPrev == samples[n - 1].arrival && acc.sPrev == samples[n - 1].generation
  {
    if n > 1 {
      FoldExact(samples, n - 1, threshold);
      BetweenIsOnePiece(samples, n - 2, samples[n - 1].arrival);
      PieceExact(samples, threshold, Fold(samples, n - 1, threshold), samples[n - 1].arrival);
    } else {
      assert Fold(samples, 0, threshold) == Acc(0, 0, 0, 0, samples[0].arrival, samples[0].generation);
    }
  }

  /** The one pass computes exactly the tick-by-tick figures. */
  lemma IntegrationExact(samples: seq<Sample>, now: int, threshold: int)
    requires TimeOrdered(samples) && samples != [] && samples[|samples| - 1].arrival <= now
    ensures var m := Integrated(samples, now, threshold);
            && m.twiceArea == AreaTicks(samples, samples[0].arrival, now)
            && m.violation == ViolationTicks(samples, threshold, samples[0].arrival, now)
            && m.peak == PeakTicks(samples, samples[0].arrival, now)
            && m.totalDelay == DelaySum(samples) && m.count == |samples|
            && (m.duration == now - samples[0].arrival || (m.duration == 1 && now == samples[0].arrival))
  {
    var n := |samples|;
    FoldDelay(samples, n, threshold);
    assert samples[..n] == samples;
    FoldExact(samples, n, threshold);
    BetweenIsOnePiece(samples, n - 1, now);
    PieceExact(samples, threshold, Fold(samples, n, threshold), now);
  }

  lemma {:induction false} TickBounds(samples: seq<Sample>, threshold: int, from: int, to: int, peak: int)
    requires from <= to && forall tick :: from < tick <= to ==> AgeAt(samples, tick) <= peak
    ensures ViolationTicks(samples, threshold, from, to) <= to - from
    ensures AreaTicks(samples, from, to) <= 2 * peak * (to - from)
    decreases (to - from)
  {
    if from < to {
      TickBounds(samples, threshold, from, to - 1, peak);
      assert 2 * peak * (to - from) == 2 * peak * (to - 1 - from) + 2 * peak;
    }
  }

  /** Violation time <= duration <= the window, and the average age (twiceArea / 2 / duration) <= the peak. */
  lemma MetricsConsistent(log: seq<Sample>, now: int, threshold: int)
    requires ClockOrdered(log)
    ensures var m := Integrated(Window(log, now), now, threshold);
            && 0 <= m.violation <= m.duration <= WINDOW_US
            && m.twiceArea <= 2 * m.peak * m.duration
            && m.count <= ANALYZER_BUFFER_CAPACITY
  {
    var samples := Window(log, now);
    InWindowOrdered(log, Oldest(|log|, ANALYZER_BUFFER_CAPACITY), |log|, now);
    if samples != [] {
      IntegrationExact(samples, now, threshold);
      var peak := PeakTicks(samples, samples[0].arrival, now);
      TickBounds(samples, threshold, samples[0].arrival, now, peak);
    }
  }

  /** The metrics of a log are those of its window. */
  lemma MetricsDescribe(log: seq<Sample>, now: int, threshold: int)
    requires ClockOrdered(log)
    ensures Describes(Integrated(Window(log, now), now, threshold), Window(log, now), now, threshold)
  {
    var samples := Window(log, now);
    InWindowOrdered(log, Oldest(|log|, ANALYZER_BUFFER_CAPACITY), |log|, now);
    if samples != [] {
      IntegrationExact(samples, now, threshold);
    }
  }

  /** What one turn of the scan takes. */
  function Taken(log: seq<Sample>, n: nat, now: int): seq<Sample>
    requires 0 < n <= |log|
  {
    if log[n - 1].arrival > now then [] else [log[n - 1]]
  }

  lemma ScanTurn(samples: seq<Sample>, log: seq<Sample>, n: nat, k: nat, now: int)
    requires n <= |log| && k > 0
    ensures if n == 0 || EndsScan(log[n - 1], now) then Scan(log, n, k, now) == []
            else samples + Taken(log, n, now) + Scan(log, n - 1, k - 1, now) == samples + Scan(log, n, k, now)
  {
  }

  // ---------- the class ----------

  class AoIAnalyzer {
    const arrival: array<int>
    const generation: array<int>
    var head: nat
    var violationThresholdUs: int
    var hasRecord: bool
    ghost var log: seq<Sample>

    /** Slot i % 100 holds record i of the log, for the last 100 records; slots never written hold arrival 0. */
    ghost predicate Valid()
      reads this`head, this`log, arrival, generation
    {
      && arrival.Length == ANALYZER_BUFFER_CAPACITY && generation.Length == ANALYZER_BUFFER_CAPACITY
      && arrival != generation
      && head == |log|
      && (forall i :: 0 <= i < |log| && |log| - ANALYZER_BUFFER_CAPACITY <= i ==> InSlot(i))
      && (forall k :: |log| <= k < ANALYZER_BUFFER_CAPACITY ==> arrival[k] == 0)
    }

    ghost predicate InSlot(i: int)
      requires 0 <= i < |log|
      requires arrival.Length == ANALYZER_BUFFER_CAPACITY && generation.Length == ANALYZER_BUFFER_CAPACITY
      reads this`log, arrival, generation
    {
      && arrival[i % ANALYZER_BUFFER_CAPACITY] == log[i].arrival
      && generation[i % ANALYZER_BUFFER_CAPACITY] == log[i].generation
    }

    constructor ()
      ensures Valid() && fresh(arrival) && fresh(generation)
      ensures log == [] && !hasRecord && violationThresholdUs == DEFAULT_VIOLATION_THRESHOLD_US
    {
      arrival := new int[ANALYZER_BUFFER_CAPACITY](_ => 0);
      generation := new int[ANALYZER_BUFFER_CAPACITY](_ => 0);
      head, violationThresholdUs, hasRecord, log := 0, DEFAULT_VIOLATION_THRESHOLD_US, false, [];
    }

    method RecordSend(acqUs: int, nowUs: int)
      requires Valid()
      modifies this, arrival, generation
      ensures Valid()
      ensures log == old(log) + [Sample(nowUs, acqUs)] && hasRecord
      ensures violationThresholdUs == old(violationThresholdUs)
    {
      var idx := head % ANALYZER_BUFFER_CAPACITY;
      head := head + 1;
      hasRecord := true;
      generation[idx] := acqUs;
      arrival[idx] := nowUs;
      log := log + [Sample(nowUs, acqUs)];
      forall i | 0 <= i < |log| && |log| - ANALYZER_BUFFER_CAPACITY <= i ensures InSlot(i) {
        assert i < |log| - 1 ==> old(InSlot(i)) && i % ANALYZER_BUFFER_CAPACITY != idx;
      }
    }

    /** Slot (head - 1 - i) mod 100 is the i-th newest record, or unset if the log has no more. */
    lemma SlotHolds(i: nat)
      requires Valid() && i < ANALYZER_BUFFER_CAPACITY && i <= |log|
      ensures var idx := (head - 1 - i + ANALYZER_BUFFER_CAPACITY) % ANALYZER_BUFFER_CAPACITY;
              if i < |log| then Sample(arrival[idx], generation[idx]) == log[|log| - 1 - i] else arrival[idx] == 0
    {
      if i < |log| {
        assert InSlot(|log| - 1 - i);
        assert (head - 1 - i + ANALYZER_BUFFER_CAPACITY) % ANALYZER_BUFFER_CAPACITY
               == (|log| - 1 - i) % ANALYZER_BUFFER_CAPACITY;
      }
    }

    method CollectSamples(nowUs: int) returns (samples: seq<Sample>)
      requires Valid()
      ensures samples == Scan(log, |log|, ANALYZER_BUFFER_CAPACITY, nowUs)
    {
      var limitUs := nowUs - WINDOW_US;
      samples := [];
      for i := 0 to ANALYZER_BUFFER_CAPACITY
        invariant i <= |log|
        invariant samples + Scan(log, |log| - i, ANALYZER_BUFFER_CAPACITY - i, nowUs)
                  == Scan(log, |log|, ANALYZER_BUFFER_CAPACITY, nowUs)
      {
        var idx := (head - 1 - i + ANALYZER_BUFFER_CAPACITY) % ANALYZER_BUFFER_CAPACITY;
        var arr, gen := arrival[idx], generation[idx];
        SlotHolds(i);
        ScanTurn(samples, log, |log| - i, ANALYZER_BUFFER_CAPACITY - i, nowUs);
        if arr == 0 || arr < limitUs {
          assert samples + [] == samples;
          break;
        }
        if arr > nowUs {
          assert samples + [] == samples;
          continue;
        }
        samples := samples + [Sample(arr, gen)];
      }
    }

    method Integrate(samples: seq<Sample>, nowUs: int) returns (m: Metrics)
      requires samples != []
      ensures m == Integrated(samples, nowUs, violationThresholdUs)
      ensures TimeOrdered(samples) && samples[|samples| - 1].arrival <= nowUs ==>
                Describes(m, samples, nowUs, violationThresholdUs)
    {
      if TimeOrdered(samples) && samples[|samples| - 1].arrival <= nowUs {
        IntegrationExact(samples, nowUs, violationThresholdUs);
      }
      var delay, twiceArea, violation, peak := 0, 0, 0, 0;
      var threshUs := violationThresholdUs;
      var tPrev, sPrev := samples[0].arrival, samples[0].generation;
      for n := 0 to |samples|
        invariant Acc(delay, twiceArea, violation, peak, tPrev, sPrev) == Fold(samples, n, threshUs)
      {
        var tCurr, sCurr := samples[n].arrival, samples[n].generation;
        delay := delay + (tCurr - sCurr);
        if tCurr > tPrev {
          var hStart, hEnd, dt := tPrev - sPrev, tCurr - sPrev, tCurr - tPrev;
          twiceArea := twiceArea + (hStart + hEnd) * dt;
          if hStart > threshUs {
            violation := violation + dt;
          } else if hEnd > threshUs {
            violation := violation + (hEnd - threshUs);
          }
          if hEnd > peak {
            peak := hEnd;
          }
        }
        tPrev, sPrev := tCurr, sCurr;
      }
      if nowUs > tPrev {
        var hStart, hEnd, dt := tPrev - sPrev, nowUs - sPrev, nowUs - tPrev;
        twiceArea := twiceArea + (hStart + hEnd) * dt;
        if hStart > threshUs {
          violation := violation + dt;
        } else if hEnd > threshUs {
          violation := violation + (hEnd - threshUs);
        }
        if hEnd > peak {
          peak := hEnd;
        }
      }
      var duration := nowUs - samples[0].arrival;
      if duration < 1 {
        duration := 1;
      }
      return Metrics(|samples|, delay, twiceArea, violation, peak, duration);
    }

    /** The record flag is cleared only by a call that found samples. */
    method GetMetrics(nowUs: int) returns (m: Metrics)
      requires Valid()
      modifies this`hasRecord
      ensures Valid()
      ensures m == Integrated(Reversed(Scan(log, |log|, ANALYZER_BUFFER_CAPACITY, nowUs)), nowUs, violationThresholdUs)
      ensures ClockOrdered(log) ==>
                m == Integrated(Window(log, nowUs), nowUs, violationThresholdUs)
                && Describes(m, Window(log, nowUs), nowUs, violationThresholdUs)
      ensures hasRecord == (old(hasRecord) && m.count == 0)
    {
      if ClockOrdered(log) {
        ScanIsWindow(log, |log|, ANALYZER_BUFFER_CAPACITY, nowUs);
        MetricsDescribe(log, nowUs, violationThresholdUs);
      }
      var samples := CollectSamples(nowUs);
      if |samples| == 0 {
        return NO_METRICS;
      }
      samples := Reversed(samples);
      m := Integrate(samples, nowUs);
      hasRecord := false;
    }
  }
}

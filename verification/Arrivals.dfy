/**
 The arrival schedule of the load generator: a piecewise-constant offered rate with an optional burst,
 over exact rationals.
 */
module ArrivalSchedule {
  import opened Common

  const MAX_TASKS := 250_000
  const MAX_INPUT_BYTES := 2147483648

  /** The numeric settings; `burstDuration` zero means that there is no burst. */
  datatype Settings = Settings(
    rate: real, duration: real, burstMultiplier: real, burstDuration: real, burstAt: real, workMs: real,
    concurrency: int, submitters: int, payloadBytes: int, drainTimeout: real, requestTimeout: real,
    sampleInterval: real, maxLatenessMs: real)

  /** Offered arrivals from `start` on, strictly before `end`. */
  datatype Phase = Phase(start: real, end: real, rate: real)

  function Phases(s: Settings): seq<Phase> {
    if s.burstDuration == 0.0 then [Phase(0.0, s.duration, s.rate)]
    else
      [Phase(0.0, s.burstAt, s.rate),
       Phase(s.burstAt, s.burstAt + s.burstDuration, s.rate * s.burstMultiplier),
       Phase(s.burstAt + s.burstDuration, s.duration, s.rate)]
  }

  function PhaseCount(p: Phase): int {
    Ceil((if p.end - p.start > 0.0 then p.end - p.start else 0.0) * p.rate)
  }

  function CountOf(phases: seq<Phase>): int {
    if phases == [] then 0 else CountOf(phases[..|phases| - 1]) + PhaseCount(phases[|phases| - 1])
  }

  predicate InLimits(s: Settings) {
    && 0.1 <= s.rate <= 5000.0 && 0.1 <= s.duration <= 3600.0
    && 1.0 <= s.burstMultiplier <= 20.0 && 0.0 <= s.burstDuration <= 120.0 && 0.0 <= s.burstAt <= 3600.0
    && 0.0 <= s.workMs <= 60_000.0 && 1 <= s.concurrency <= 128 && 1 <= s.submitters <= 64
    && 0 <= s.payloadBytes <= 262_144 && 1.0 <= s.drainTimeout <= 600.0 && 1.0 <= s.requestTimeout <= 30.0
    && 1.0 <= s.sampleInterval <= 60.0 && 1.0 <= s.maxLatenessMs <= 1000.0
  }

  /** The number of arrivals that validated settings will offer, or the reason for refusing them. */
  function Validate(s: Settings): Result<int, string> {
    var count := CountOf(Phases(s));
    if !InLimits(s) then Err("limits")
    else if s.burstDuration != 0.0 && s.burstAt + s.burstDuration > s.duration then Err("burst")
    else if s.burstDuration != 0.0 && s.rate * s.burstMultiplier > 5000.0 then Err("peak")
    else if count > MAX_TASKS then Err("tasks")
    else if count * (s.payloadBytes + 1024) > MAX_INPUT_BYTES then Err("input")
    else Ok(count)
  }

  // ----- What the schedule is meant to be -----

  predicate WellFormed(p: Phase) {
    0.0 <= p.start <= p.end && 0.0 < p.rate
  }

  predicate AllWellFormed(phases: seq<Phase>) {
    forall i | 0 <= i < |phases| :: WellFormed(phases[i])
  }

  function OffsetIn(p: Phase, index: int): real
    requires 0.0 < p.rate
  {
    p.start + index as real / p.rate
  }

  /** The arrivals of one phase: its whole count, one every 1/rate. */
  ghost function PhaseOffsets(p: Phase): (offsets: seq<real>)
    requires WellFormed(p)
    ensures |offsets| == PhaseCount(p)
    ensures forall i | 0 <= i < |offsets| :: offsets[i] == OffsetIn(p, i)
  {
    CountIsNatural(p);
    seq(PhaseCount(p), (i: nat) => OffsetIn(p, i))
  }

  ghost function Offsets(phases: seq<Phase>): seq<real>
    requires AllWellFormed(phases)
  {
    if phases == [] then [] else Offsets(phases[..|phases| - 1]) + PhaseOffsets(phases[|phases| - 1])
  }

  lemma CountIsNatural(p: Phase)
    requires WellFormed(p)
    ensures PhaseCount(p) >= 0
    ensures PhaseCount(p) as real >= (p.end - p.start) * p.rate
    ensures PhaseCount(p) > 0 ==> (PhaseCount(p) - 1) as real < (p.end - p.start) * p.rate
  {
    assert (p.end - p.start) * p.rate >= 0.0;
  }

  /** No arrival of a phase's count reaches its end, so that the generator's filter never drops one. */
  lemma OffsetBeforeEnd(p: Phase, index: int)
    requires WellFormed(p) && 0 <= index < PhaseCount(p)
    ensures p.start <= OffsetIn(p, index) < p.end
  {
    CountIsNatural(p);
    var width := p.end - p.start;
    assert index as real < width * p.rate;
    DivideStrictly(index as real, width, p.rate);
  }

  lemma DivideStrictly(x: real, width: real, rate: real)
    requires 0.0 <= x < width * rate && 0.0 < rate
    ensures 0.0 <= x / rate < width
  {
    assert (x / rate) * rate == x;
    assert (width - x / rate) * rate == width * rate - x;
    PositiveFactor(width - x / rate, rate);
  }

  lemma PositiveFactor(a: real, b: real)
    requires a * b > 0.0 && b > 0.0
    ensures a > 0.0
  {
  }

  /** Consecutive arrivals of a phase are 1/rate apart. */
  lemma SpacedByRate(p: Phase, index: int)
    requires 0.0 < p.rate
    ensures OffsetIn(p, index + 1) - OffsetIn(p, index) == 1.0 / p.rate
  {
    assert (index + 1) as real / p.rate == index as real / p.rate + 1.0 / p.rate;
  }

  predicate Increasing(offsets: seq<real>) {
    forall i, j | 0 <= i < j < |offsets| :: offsets[i] < offsets[j]
  }

  lemma PhaseIncreases(p: Phase)
    requires WellFormed(p)
    ensures Increasing(PhaseOffsets(p))
    ensures forall i | 0 <= i < PhaseCount(p) :: p.start <= PhaseOffsets(p)[i] < p.end
  {
    var offsets := PhaseOffsets(p);
    forall i | 0 <= i < |offsets|
      ensures p.start <= offsets[i] < p.end
    {
      OffsetBeforeEnd(p, i);
    }
    forall i, j | 0 <= i < j < |offsets|
      ensures offsets[i] < offsets[j]
    {
      DivideMonotone(i as real, j as real, p.rate);
    }
  }

  lemma DivideMonotone(x: real, y: real, rate: real)
    requires x < y && 0.0 < rate
    ensures x / rate < y / rate
  {
    assert (y - x) / rate > 0.0;
  }

  /** Phases that follow one another without a gap. */
  predicate Chained(phases: seq<Phase>) {
    && AllWellFormed(phases)
    && (forall i | 0 <= i < |phases| - 1 :: phases[i].end == phases[i + 1].start)
  }

  lemma {:induction false} ChainIncreases(phases: seq<Phase>)
    requires Chained(phases)
    ensures |Offsets(phases)| == CountOf(phases)
    ensures Increasing(Offsets(phases))
    ensures phases != [] ==>
      forall i | 0 <= i < |Offsets(phases)| :: phases[0].start <= Offsets(phases)[i] < phases[|phases| - 1].end
  {
    if phases != [] {
      var front, last := phases[..|phases| - 1], phases[|phases| - 1];
      ChainIncreases(front);
      PhaseIncreases(last);
      if front != [] {
        ChainAscends(front);
      }
    }
  }

  lemma {:induction false} ChainAscends(phases: seq<Phase>)
    requires Chained(phases) && phases != []
    ensures phases[0].start <= phases[|phases| - 1].end
  {
    if |phases| > 1 {
      ChainAscends(phases[..|phases| - 1]);
    }
  }

  lemma ValidatedPhases(s: Settings)
    requires Validate(s).Ok?
    ensures Chained(Phases(s)) && Phases(s)[0].start == 0.0 && Phases(s)[|Phases(s)| - 1].end == s.duration
  {
    var phases := Phases(s);
    if s.burstDuration == 0.0 {
      assert WellFormed(phases[0]);
    } else {
      BurstRateIsPositive(s.rate, s.burstMultiplier);
      assert WellFormed(phases[0]) && WellFormed(phases[1]) && WellFormed(phases[2]);
    }
  }

  lemma BurstRateIsPositive(rate: real, multiplier: real)
    requires rate > 0.0 && multiplier > 0.0
    ensures rate * multiplier > 0.0
  {
  }

  // ----- The generator -----

  method GenerateArrivals(s: Settings) returns (offsets: seq<real>)
    requires Validate(s).Ok?
    ensures AllWellFormed(Phases(s)) && offsets == Offsets(Phases(s))
  {
    ValidatedPhases(s);
    var phases := Phases(s);
    offsets := [];
    for k := 0 to |phases|
      invariant offsets == Offsets(phases[..k])
    {
      var p := phases[k];
      CountIsNatural(p);
      var before := offsets;
      for index := 0 to PhaseCount(p)
        invariant offsets == before + PhaseOffsets(p)[..index]
      {
        var offset := p.start + index as real / p.rate;
        OffsetBeforeEnd(p, index);
        if offset < p.end {
          offsets := offsets + [offset];
        }
      }
      assert phases[..k + 1][..k] == phases[..k];
      assert PhaseOffsets(p)[..PhaseCount(p)] == PhaseOffsets(p);
    }
    assert phases[..|phases|] == phases;
  }

  /**
   For validated settings the generator offers exactly as many arrivals as validation counted, at
   strictly increasing offsets across the phase boundaries too, all of them in [0, duration).
   */
  lemma ScheduleIsExact(s: Settings)
    requires Validate(s).Ok?
    ensures AllWellFormed(Phases(s))
    ensures var offsets := Offsets(Phases(s));
      && |offsets| == Validate(s).value <= MAX_TASKS
      && Increasing(offsets)
      && forall i | 0 <= i < |offsets| :: 0.0 <= offsets[i] < s.duration
  {
    ValidatedPhases(s);
    ChainIncreases(Phases(s));
  }

  /** Inside each phase the schedule is that phase's arrivals, in place. */
  lemma {:induction false} PhaseIsInPlace(phases: seq<Phase>, k: nat, index: nat)
    requires k < |phases| && AllWellFormed(phases) && index < |PhaseOffsets(phases[k])|
    ensures var at := |Offsets(phases[..k])| + index;
      at < |Offsets(phases)| && Offsets(phases)[at] == OffsetIn(phases[k], index)
    decreases |phases|
  {
    var front := phases[..|phases| - 1];
    if k < |front| {
      PhaseIsInPlace(front, k, index);
      assert front[..k] == phases[..k];
    }
  }

  /** Two consecutive arrivals of a phase stay next to one another in the schedule, exactly 1/rate apart. */
  lemma SpacingInPhase(phases: seq<Phase>, k: nat, index: nat)
    requires k < |phases| && AllWellFormed(phases) && index + 1 < PhaseCount(phases[k])
    ensures var at := |Offsets(phases[..k])| + index;
      at + 1 < |Offsets(phases)| && Offsets(phases)[at + 1] - Offsets(phases)[at] == 1.0 / phases[k].rate
  {
    PhaseIsInPlace(phases, k, index);
    PhaseIsInPlace(phases, k, index + 1);
    SpacedByRate(phases[k], index);
  }
}

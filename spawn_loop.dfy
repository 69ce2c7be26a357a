/** The spawn loop of `generateTraffic` (src/TrafficGenerator.cpp): how many rounds it
    runs, what they consume and what is left in the accumulator. The loop is proved for
    any round with the stated properties, then applied to the real spawn round. */
module SpawnLoop {
  import opened Configuration
  import opened Vehicles
  import opened TrafficModel
  import opened TrafficProperties

  /** Every round consumes four ids. */
  ghost predicate ConsumesFour(round: Snapshot --> Snapshot)
    requires IsRound(round)
  {
    forall s {:trigger round(s)} :: WellFormed(s) ==> round(s).nextVehicleId == s.nextVehicleId + 4
  }

  /** No round touches the crossed log. */
  ghost predicate KeepsCrossed(round: Snapshot --> Snapshot)
    requires IsRound(round)
  {
    forall s {:trigger round(s)} :: WellFormed(s) ==> round(s).crossed == s.crossed
  }

  /** No round removes or reorders a queued vehicle. */
  ghost predicate KeepsQueued(round: Snapshot --> Snapshot)
    requires IsRound(round)
  {
    forall s, d {:trigger round(s).Queue(d)} :: WellFormed(s) ==>
      |s.Queue(d)| <= |round(s).Queue(d)| && round(s).Queue(d)[..|s.Queue(d)|] == s.Queue(d)
  }

  /** `RoundAt` is the spawn round. */
  lemma RoundAtIsSpawnRound(config: IntersectionConfig, now: real)
    ensures IsSpawnRound(RoundAt(config, now), config, now)
  {
  }

  /** One turn of the spawn loop, as the loop's own definition unfolds it. */
  lemma NextRoundUnfolds(round: Snapshot --> Snapshot, st: Snapshot, interval: real)
    requires IsRound(round) && interval > 0.0 && WellFormed(st) && st.timeAccumulated >= interval
    ensures var s1 := NextRound(round, st, interval);
      && WellFormed(s1)
      && s1.timeAccumulated == st.timeAccumulated - interval
      && Intervals(s1.timeAccumulated, interval) + 1 == Intervals(st.timeAccumulated, interval)
      && Rounds(round, st, interval) == Rounds(round, s1, interval)
  {
    IntervalsStep(st.timeAccumulated, interval);
  }

  lemma {:induction false} RoundsIds(round: Snapshot --> Snapshot, st: Snapshot, interval: real)
    requires IsRound(round) && ConsumesFour(round) && interval > 0.0 && WellFormed(st)
    ensures Rounds(round, st, interval).nextVehicleId == st.nextVehicleId + 4 * Intervals(st.timeAccumulated, interval)
    decreases Intervals(st.timeAccumulated, interval)
  {
    if st.timeAccumulated >= interval {
      var s1 := NextRound(round, st, interval);
      RoundsIds(round, s1, interval);
    }
  }

  lemma {:induction false} RoundsKeepCrossed(round: Snapshot --> Snapshot, st: Snapshot, interval: real)
    requires IsRound(round) && KeepsCrossed(round) && interval > 0.0 && WellFormed(st)
    ensures Rounds(round, st, interval).crossed == st.crossed
    decreases Intervals(st.timeAccumulated, interval)
  {
    if st.timeAccumulated >= interval {
      var s1 := NextRound(round, st, interval);
      RoundsKeepCrossed(round, s1, interval);
    }
  }

  lemma {:induction false} RoundsKeepQueued(round: Snapshot --> Snapshot, st: Snapshot, interval: real, d: Direction)
    requires IsRound(round) && KeepsQueued(round) && interval > 0.0 && WellFormed(st)
    ensures var q := Rounds(round, st, interval).Queue(d);
      |st.Queue(d)| <= |q| && q[..|st.Queue(d)|] == st.Queue(d)
    decreases Intervals(st.timeAccumulated, interval)
  {
    if st.timeAccumulated >= interval {
      var s1 := NextRound(round, st, interval);
      RoundsKeepQueued(round, s1, interval, d);
      var q := Rounds(round, s1, interval).Queue(d);
      assert q[..|s1.Queue(d)|][..|st.Queue(d)|] == q[..|st.Queue(d)|];
    }
  }

  /** The spawn loop leaves less than one interval in the accumulator, and does not make
      it negative. */
  lemma {:induction false} RoundsTime(round: Snapshot --> Snapshot, st: Snapshot, interval: real)
    requires IsRound(round) && interval > 0.0 && WellFormed(st)
    ensures Rounds(round, st, interval).timeAccumulated < interval
    ensures st.timeAccumulated >= 0.0 ==> Rounds(round, st, interval).timeAccumulated >= 0.0
    decreases Intervals(st.timeAccumulated, interval)
  {
    if st.timeAccumulated >= interval {
      var s1 := NextRound(round, st, interval);
      RoundsTime(round, s1, interval);
    }
  }

  /** `Intervals` counts whole intervals: `t` holds that many intervals and less than one
      more (for a `t` that is not negative). */
  lemma {:induction false} IntervalsSpec(t: real, interval: real)
    requires interval > 0.0 && t >= 0.0
    ensures (Intervals(t, interval) as real) * interval <= t < ((Intervals(t, interval) + 1) as real) * interval
    decreases Intervals(t, interval)
  {
    if t >= interval {
      IntervalsSpec(t - interval, interval);
      var k := Intervals(t - interval, interval);
      assert ((k + 1) as real) * interval == (k as real) * interval + interval;
      assert ((k + 2) as real) * interval == ((k + 1) as real) * interval + interval;
    }
  }

  lemma KeptAsPrefix(a: Snapshot, b: Snapshot, d: Direction, id: nat, now: real)
    requires SameOrAppended(a, b, d, id, now)
    ensures |a.Queue(d)| <= |b.Queue(d)| && b.Queue(d)[..|a.Queue(d)|] == a.Queue(d)
  {
    if b.Queue(d) == a.Queue(d) {
      assert b.Queue(d)[..|a.Queue(d)|] == b.Queue(d);
    }
  }

  /** What one real spawn round does to a well-formed state. */
  lemma RoundAtEffect(config: IntersectionConfig, now: real, s: Snapshot, d: Direction)
    requires WellFormed(s)
    ensures var r := RoundAt(config, now)(s);
      && r.nextVehicleId == s.nextVehicleId + 4 && r.crossed == s.crossed
      && |s.Queue(d)| <= |r.Queue(d)| && r.Queue(d)[..|s.Queue(d)|] == s.Queue(d)
  {
    assert RoundAt(config, now)(s) == SpawnRound(config, s, now);
    SpawnRoundKeepsQueue(config, s, now, d);
  }

  lemma SpawnRoundKeepsQueue(config: IntersectionConfig, s: Snapshot, now: real, d: Direction)
    requires WellFormed(s)
    ensures var r := SpawnRound(config, s, now);
      |s.Queue(d)| <= |r.Queue(d)| && r.Queue(d)[..|s.Queue(d)|] == s.Queue(d)
  {
    SpawnRoundAppendsAt(config, s, now, d);
    KeptAsPrefix(s, SpawnRound(config, s, now), d, s.nextVehicleId + DirectionIndex(d), now);
  }

  lemma SpawnRoundAppendsAt(config: IntersectionConfig, s: Snapshot, now: real, d: Direction)
    requires WellFormed(s)
    ensures SameOrAppended(s, SpawnRound(config, s, now), d, s.nextVehicleId + DirectionIndex(d), now)
  {
    SpawnRoundEffect(config, s, now);
  }

  /** The real spawn round has the three properties. */
  lemma RoundAtProperties(config: IntersectionConfig, now: real)
    ensures ConsumesFour(RoundAt(config, now)) && KeepsCrossed(RoundAt(config, now))
    ensures KeepsQueued(RoundAt(config, now))
  {
    forall s, d | WellFormed(s) {
      RoundAtEffect(config, now, s, d);
    }
    forall s | WellFormed(s) {
      RoundAtEffect(config, now, s, N);
    }
  }

  /** Adding `dt` to the accumulator and running the loop: four ids per round, less than
      one interval left over (not negative when the accumulator was not), the crossed log
      untouched, and every queued vehicle still queued in the same order, ahead of the
      vehicles the rounds add. */
  predicate AccumulatedAndRan(st: Snapshot, r: Snapshot, dt: real, interval: real)
    requires interval > 0.0
  {
    && r.nextVehicleId == st.nextVehicleId + 4 * Intervals(st.timeAccumulated + dt, interval)
    && r.timeAccumulated < interval
    && (st.timeAccumulated + dt >= 0.0 ==> r.timeAccumulated >= 0.0)
    && r.crossed == st.crossed
    && forall d :: |st.Queue(d)| <= |r.Queue(d)| && r.Queue(d)[..|st.Queue(d)|] == st.Queue(d)
  }

  lemma AccumulateKeepsQueue(round: Snapshot --> Snapshot, st: Snapshot, dt: real, interval: real, d: Direction)
    requires IsRound(round) && KeepsQueued(round) && interval > 0.0 && WellFormed(st)
    ensures var q := Accumulated(round, st, dt, interval).Queue(d);
      |st.Queue(d)| <= |q| && q[..|st.Queue(d)|] == st.Queue(d)
  {
    var s0 := st.(timeAccumulated := st.timeAccumulated + dt);
    assert s0.Queue(d) == st.Queue(d);
    RoundsKeepQueued(round, s0, interval, d);
  }

  lemma AccumulateKeepsQueues(round: Snapshot --> Snapshot, st: Snapshot, dt: real, interval: real)
    requires IsRound(round) && KeepsQueued(round) && interval > 0.0 && WellFormed(st)
    ensures forall d :: var q := Accumulated(round, st, dt, interval).Queue(d);
      |st.Queue(d)| <= |q| && q[..|st.Queue(d)|] == st.Queue(d)
  {
    forall d {
      AccumulateKeepsQueue(round, st, dt, interval, d);
    }
  }

  lemma Accumulate(round: Snapshot --> Snapshot, st: Snapshot, dt: real, interval: real)
    requires IsRound(round) && ConsumesFour(round) && KeepsCrossed(round) && KeepsQueued(round)
    requires interval > 0.0 && WellFormed(st)
    ensures AccumulatedAndRan(st, Accumulated(round, st, dt, interval), dt, interval)
  {
    var s0 := st.(timeAccumulated := st.timeAccumulated + dt);
    assert Accumulated(round, st, dt, interval) == Rounds(round, s0, interval);
    RoundsIds(round, s0, interval);
    RoundsTime(round, s0, interval);
    RoundsKeepCrossed(round, s0, interval);
    AccumulateKeepsQueues(round, st, dt, interval);
  }

  /** `generateTraffic` adds `dt` to the accumulator and runs one spawn round per whole
      spawn interval in it, with the effects `AccumulatedAndRan` lists. */
  lemma GenerateSpec(config: IntersectionConfig, rate: real, st: Snapshot, dt: real, now: real)
    requires WellFormed(st)
    ensures AccumulatedAndRan(st, Generate(config, rate, st, dt, now), dt, SpawnInterval(rate))
  {
    var interval := SpawnInterval(rate);
    assert AccumulatedAndRan(st, Accumulated(RoundAt(config, now), st, dt, interval), dt, interval) by {
      RoundAtProperties(config, now);
      Accumulate(RoundAt(config, now), st, dt, interval);
    }
  }
}

/** `planRequiredDuration`: how long charging must run to reach the goal,
    in nanoseconds (Go's `time.Duration`). Float64 arithmetic is taken as
    exact real arithmetic; each float-to-`time.Duration` conversion truncates
    toward zero, as Go's does. */
module PlanDuration {
  import opened Wrappers

  const Minute: int := 60_000_000_000
  const Hour: int := 60 * Minute

  /** What the loadpoint knows about the charging goal on this tick:
      `remainingChargeEnergy()` (kWh, when known), the configured target
      SoC (`Soc.target`, 0 when unset) and the vehicle's SoC in percent. */
  datatype Goal = Goal(remainingEnergy: Option<real>, targetSoc: int, vehicleSoc: real)

  /** `socEstimator.RemainingChargeDuration(targetSoc, maxPower)`. */
  type Estimator = (int, real) -> int

  /** The tapering band that adds time near full charge. */
  datatype Taper = NoTaper | Above80 | Above90

  /** Go's conversion of a float64 to `time.Duration`: truncation toward zero. */
  function TruncToDuration(x: real): (d: int)
    ensures 0.0 <= x ==> 0 <= d && d as real <= x < d as real + 1.0
    ensures x < 0.0 ==> d <= 0 && x <= d as real < x + 1.0
  {
    if x >= 0.0 then x.Floor else -((-x).Floor)
  }

  /** An unset target (0) means a full battery. */
  function EffectiveTarget(targetSoc: int): int {
    if targetSoc == 0 then 100 else targetSoc
  }

  function TaperBand(target: int, maxPower: real): Taper {
    if target > 80 && maxPower > 15000.0 then Above80
    else if target > 90 && maxPower > 4000.0 then Above90
    else NoTaper
  }

  /** The two bands divide by `target - vehicleSoc` unguarded. */
  predicate TaperDefined(target: int, vehicleSoc: real, maxPower: real) {
    TaperBand(target, maxPower) != NoTaper ==> target as real != vehicleSoc
  }

  /** Extra time for the tapering band: none outside both bands, and never
      negative when charging towards a target above the vehicle's SoC from a
      non-negative estimate. */
  function TaperExtra(target: int, vehicleSoc: real, maxPower: real, base: int): (r: int)
    requires TaperDefined(target, vehicleSoc, maxPower)
    ensures TaperBand(target, maxPower) == NoTaper ==> r == 0
    ensures vehicleSoc < target as real && 0 <= base ==> 0 <= r
  {
    match TaperBand(target, maxPower)
    case Above80 => 5 * TruncToDuration((target - 80) as real / (target as real - vehicleSoc) * base as real)
    case Above90 => 3 * TruncToDuration((target - 90) as real / (target as real - vehicleSoc) * base as real)
    case NoTaper => 0
  }

  /** Every division `planRequiredDuration` makes is by a non-zero value. */
  predicate DurationDefined(g: Goal, maxPower: real, efficiency: real) {
    && 0.0 < efficiency <= 1.0
    && match g.remainingEnergy
       case Some(_) => maxPower != 0.0
       case None => TaperDefined(EffectiveTarget(g.targetSoc), g.vehicleSoc, maxPower)
  }

  /** The duration before conversion losses: from the energy still to be
      charged when it is known, otherwise from the SoC estimator plus tapering. */
  function DurationBeforeLosses(g: Goal, maxPower: real, estimate: Estimator): (r: int)
    requires g.remainingEnergy.Some? ==> maxPower != 0.0
    requires g.remainingEnergy.None? ==> TaperDefined(EffectiveTarget(g.targetSoc), g.vehicleSoc, maxPower)
    ensures g.remainingEnergy.Some? && 0.0 <= g.remainingEnergy.value && 0.0 < maxPower ==> 0 <= r
    ensures g.remainingEnergy.None? && g.vehicleSoc < EffectiveTarget(g.targetSoc) as real
      && 0 <= estimate(EffectiveTarget(g.targetSoc), maxPower)
      ==> estimate(EffectiveTarget(g.targetSoc), maxPower) <= r
  {
    match g.remainingEnergy
    case Some(energy) => TruncToDuration(energy * 1000.0 / maxPower * Hour as real)
    case None =>
      var target := EffectiveTarget(g.targetSoc);
      var base := estimate(target, maxPower);
      base + TaperExtra(target, g.vehicleSoc, maxPower, base)
  }

  /** `planRequiredDuration(maxPower)`: the duration before losses divided by
      the charge efficiency; since the efficiency is at most 1, losses never
      shorten a non-negative duration. */
  function RequiredDuration(g: Goal, maxPower: real, estimate: Estimator, efficiency: real): (d: int)
    requires DurationDefined(g, maxPower, efficiency)
    ensures var before := DurationBeforeLosses(g, maxPower, estimate);
      0 <= before ==> before <= d && d as real <= before as real / efficiency
  {
    var before := DurationBeforeLosses(g, maxPower, estimate);
    DivideByEfficiency(before, efficiency);
    TruncToDuration(before as real / efficiency)
  }

  lemma DivideByEfficiency(before: int, efficiency: real)
    requires 0.0 < efficiency <= 1.0
    ensures 0 <= before ==> before as real <= before as real / efficiency
  {
    if 0 <= before {
      var q := before as real / efficiency;
      assert q * efficiency == before as real;
      assert q * efficiency <= q;
    }
  }

  /** A known remaining energy decides alone: target SoC, vehicle SoC and the
      estimator play no part. */
  lemma EnergyGoalIgnoresSoc(g1: Goal, g2: Goal, maxPower: real, est1: Estimator, est2: Estimator, efficiency: real)
    requires g1.remainingEnergy.Some? && g2.remainingEnergy == g1.remainingEnergy
    requires DurationDefined(g1, maxPower, efficiency)
    ensures DurationDefined(g2, maxPower, efficiency)
    ensures RequiredDuration(g1, maxPower, est1, efficiency) == RequiredDuration(g2, maxPower, est2, efficiency)
    ensures RequiredDuration(g1, maxPower, est1, efficiency)
      == TruncToDuration(TruncToDuration(g1.remainingEnergy.value * 1000.0 / maxPower * Hour as real) as real / efficiency)
  {
  }

  /** Without a known energy, an unset target SoC plans for 100 %. */
  lemma UnsetTargetMeansFull(g: Goal, maxPower: real, estimate: Estimator, efficiency: real)
    requires g.remainingEnergy.None? && g.targetSoc == 0
    requires DurationDefined(g, maxPower, efficiency)
    ensures DurationDefined(g.(targetSoc := 100), maxPower, efficiency)
    ensures RequiredDuration(g, maxPower, estimate, efficiency)
      == RequiredDuration(g.(targetSoc := 100), maxPower, estimate, efficiency)
  {
  }

  /** At most one band applies; the >90 % band only when the >80 %/15 kW
      condition fails. */
  lemma TaperBandsExclusive(target: int, maxPower: real)
    ensures TaperBand(target, maxPower) == Above80 <==> target > 80 && maxPower > 15000.0
    ensures TaperBand(target, maxPower) == Above90
      <==> !(target > 80 && maxPower > 15000.0) && target > 90 && maxPower > 4000.0
  {
  }

  /** With a SoC goal above the vehicle's SoC and a non-negative estimate, the
      required duration is never shorter than the estimator's. */
  lemma SocGoalAtLeastEstimate(g: Goal, maxPower: real, estimate: Estimator, efficiency: real)
    requires g.remainingEnergy.None?
    requires g.vehicleSoc < EffectiveTarget(g.targetSoc) as real
    requires 0 <= estimate(EffectiveTarget(g.targetSoc), maxPower)
    requires 0.0 < efficiency <= 1.0
    ensures DurationDefined(g, maxPower, efficiency)
    ensures estimate(EffectiveTarget(g.targetSoc), maxPower) <= RequiredDuration(g, maxPower, estimate, efficiency)
  {
  }

  /** Target 85 % at 84 % and 16 kW: the >80 % band adds 5 * (5 / 1) times the
      estimate, a strictly positive extra for a positive estimate. */
  lemma TaperExample(base: int)
    requires 0 < base
    ensures TaperBand(85, 16000.0) == Above80
    ensures TaperExtra(85, 84.0, 16000.0, base) == 25 * base
    ensures 0 < TaperExtra(85, 84.0, 16000.0, base)
  {
    assert (85 - 80) as real / (85 as real - 84.0) * base as real == (5 * base) as real;
  }
}

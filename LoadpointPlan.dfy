/** The charging-plan activation logic of a loadpoint: `GetPlan` and the
    hysteresis state machine `plannerActive` over the loadpoint's
    `planActive` and `planSlotEnd` fields. */
module LoadpointPlan {
  import opened Wrappers
  import opened Rates
  import opened PlanDuration

  /** `planner.Plan(requiredDuration, targetTime)`: the chosen slots and whether it failed. */
  datatype PlannerResult = PlannerResult(plan: seq<Slot>, err: bool)

  type Planner = (int, int) -> PlannerResult

  /** The loadpoint's collaborators and constants. `planner` and `estimator`
      are None when not configured; `activeSlot` is `planner.ActiveSlot`,
      `planStart` is `planner.Start`, `efficiency` is `soc.ChargeEfficiency`
      and `smallSlot` is `smallSlotDuration`. */
  datatype Env = Env(
    planner: Option<Planner>,
    estimator: Option<Estimator>,
    activeSlot: (seq<Slot>, int) -> Slot,
    planStart: seq<Slot> -> int,
    efficiency: real,
    smallSlot: int)

  /** What one tick reads: the clock, the target time, the maximum power and the goal. */
  datatype Tick = Tick(now: int, targetTime: int, maxPower: real, goal: Goal)

  /** `GetPlan`'s results: required duration, plan, and whether an error came back. */
  datatype PlanOutcome = PlanOutcome(required: int, plan: seq<Slot>, err: bool)

  /** The loadpoint's memory between ticks. */
  datatype PlanState = PlanState(active: bool, slotEnd: int)

  const Cleared := PlanState(false, 0)

  /** `planner.ActiveSlot`'s contract: a slot of the plan containing `now`,
      or a slot whose end is the zero instant. */
  ghost predicate ActiveSlotSound(f: (seq<Slot>, int) -> Slot) {
    forall plan: seq<Slot>, now: int ::
      f(plan, now).end == 0 || (f(plan, now) in plan && f(plan, now).start <= now < f(plan, now).end)
  }

  predicate NotConfigured(env: Env, t: Tick) {
    env.planner.None? || env.estimator.None? || t.targetTime == 0
  }

  /** `GetPlan` answers `(0, nil, nil)` without planning. */
  predicate PlanSkipped(env: Env, t: Tick, planActive: bool) {
    NotConfigured(env, t) || (t.targetTime < t.now && !planActive)
  }

  predicate PlanDefined(env: Env, t: Tick, planActive: bool) {
    PlanSkipped(env, t, planActive) || DurationDefined(t.goal, t.maxPower, env.efficiency)
  }

  /** What `GetPlan` returns. Apart from the two short cuts it is the planner's
      plan for the required duration, stably sorted by start time. */
  function PlanOf(env: Env, t: Tick, planActive: bool): (r: PlanOutcome)
    requires PlanDefined(env, t, planActive)
    ensures PlanSkipped(env, t, planActive) ==> r == PlanOutcome(0, [], false)
    ensures !PlanSkipped(env, t, planActive) ==>
      var out := env.planner.value(r.required, t.targetTime);
      && r.required == RequiredDuration(t.goal, t.maxPower, env.estimator.value, env.efficiency)
      && r.err == out.err
      && SortedByStart(r.plan)
      && multiset(r.plan) == multiset(out.plan)
      && forall k :: WithStart(r.plan, k) == WithStart(out.plan, k)
  {
    if PlanSkipped(env, t, planActive) then PlanOutcome(0, [], false)
    else
      var required := RequiredDuration(t.goal, t.maxPower, env.estimator.value, env.efficiency);
      var out := env.planner.value(required, t.targetTime);
      SortedByTimeSorts(out.plan);
      forall k ensures WithStart(SortedByTime(out.plan), k) == WithStart(out.plan, k) {
        SortedByTimeStable(out.plan, k);
      }
      PlanOutcome(required, SortedByTime(out.plan), out.err)
  }

  /** Why a previously active plan keeps charging while now is in no slot,
      the first matching case winning. */
  datatype KeepReason = AfterTarget | SlotRunning | LittleLeft | RestartSoon | NoReason

  function KeepGoing(env: Env, t: Tick, s: PlanState, o: PlanOutcome): (r: KeepReason)
    ensures (r != NoReason) == (
      || (t.now > t.targetTime && t.targetTime != 0)
      || (t.now < s.slotEnd && s.slotEnd != 0)
      || o.required < 30 * Minute
      || env.planStart(o.plan) - t.now < env.smallSlot)
    ensures r == RestartSoon ==>
      && !(t.now > t.targetTime && t.targetTime != 0)
      && !(t.now < s.slotEnd && s.slotEnd != 0)
      && 30 * Minute <= o.required
      && env.planStart(o.plan) - t.now < env.smallSlot
  {
    if t.now > t.targetTime && t.targetTime != 0 then AfterTarget
    else if t.now < s.slotEnd && s.slotEnd != 0 then SlotRunning
    else if o.required < 30 * Minute then LittleLeft
    else if env.planStart(o.plan) - t.now < env.smallSlot then RestartSoon
    else NoReason
  }

  /** The state `plannerActive` leaves behind, given the state it found; its
      `active` is the value returned. An inactive result always clears the
      remembered slot end. */
  function Decide(env: Env, t: Tick, s: PlanState): (r: PlanState)
    requires PlanDefined(env, t, s.active)
    ensures !r.active ==> r.slotEnd == 0
    ensures r.active ==> r.slotEnd == s.slotEnd || r.slotEnd == env.activeSlot(PlanOf(env, t, s.active).plan, t.now).end
  {
    var o := PlanOf(env, t, s.active);
    if o.err || o.required == 0 then Cleared
    else
      var slot := env.activeSlot(o.plan, t.now);
      if slot.end != 0 then
        if !s.active && slot.end - t.now < env.smallSlot then Cleared
        else PlanState(true, slot.end)
      else if s.active && KeepGoing(env, t, s, o) != NoReason then PlanState(true, s.slotEnd)
      else Cleared
  }

  /** A skipped plan, a planner error or nothing left to charge: inactive, slot end cleared. */
  lemma NothingToDoClears(env: Env, t: Tick, s: PlanState)
    requires PlanDefined(env, t, s.active)
    requires PlanSkipped(env, t, s.active) || PlanOf(env, t, s.active).err || PlanOf(env, t, s.active).required == 0
    ensures Decide(env, t, s) == Cleared
  {
  }

  /** A plan that was not active does not start for the last sliver of a slot. */
  lemma SliverIgnored(env: Env, t: Tick, s: PlanState)
    requires PlanDefined(env, t, s.active)
    requires var o := PlanOf(env, t, s.active);
      && !o.err && o.required != 0
      && env.activeSlot(o.plan, t.now).end != 0
      && !s.active
      && env.activeSlot(o.plan, t.now).end - t.now < env.smallSlot
    ensures Decide(env, t, s) == Cleared
  {
  }

  /** Otherwise a slot containing now activates the plan and its end is remembered. */
  lemma SlotActivates(env: Env, t: Tick, s: PlanState)
    requires PlanDefined(env, t, s.active)
    requires var o := PlanOf(env, t, s.active);
      && !o.err && o.required != 0
      && env.activeSlot(o.plan, t.now).end != 0
      && (s.active || env.activeSlot(o.plan, t.now).end - t.now >= env.smallSlot)
    ensures Decide(env, t, s) == PlanState(true, env.activeSlot(PlanOf(env, t, s.active).plan, t.now).end)
  {
  }

  /** Outside every slot, a previously active plan keeps charging exactly when
      one of the four reasons holds, keeping its slot end; otherwise it stops
      and forgets the slot end. A plan that was not active stays inactive. */
  lemma OutsideSlots(env: Env, t: Tick, s: PlanState)
    requires PlanDefined(env, t, s.active)
    requires var o := PlanOf(env, t, s.active);
      !o.err && o.required != 0 && env.activeSlot(o.plan, t.now).end == 0
    ensures var o := PlanOf(env, t, s.active);
      var keep := s.active && (
        || (t.now > t.targetTime && t.targetTime != 0)
        || (t.now < s.slotEnd && s.slotEnd != 0)
        || o.required < 30 * Minute
        || env.planStart(o.plan) - t.now < env.smallSlot);
      Decide(env, t, s) == if keep then PlanState(true, s.slotEnd) else Cleared
  {
  }

  /** A plan that restarts within `smallSlot` keeps a previously active plan active. */
  lemma RestartSoonStaysActive(env: Env, t: Tick, s: PlanState)
    requires PlanDefined(env, t, s.active)
    requires var o := PlanOf(env, t, s.active);
      && !o.err && o.required != 0 && env.activeSlot(o.plan, t.now).end == 0
      && s.active
      && KeepGoing(env, t, s, o) == RestartSoon
    ensures Decide(env, t, s) == PlanState(true, s.slotEnd)
  {
  }

  /** Hysteresis: while now is before the remembered end of a granted slot and
      there is still a plan to follow, an active plan is not switched off. */
  lemma Hysteresis(env: Env, t: Tick, s: PlanState)
    requires PlanDefined(env, t, s.active)
    requires s.active && s.slotEnd != 0 && t.now < s.slotEnd
    requires !PlanOf(env, t, s.active).err && PlanOf(env, t, s.active).required != 0
    ensures Decide(env, t, s).active
  {
  }

  /** Deciding a second time on the same tick changes nothing. */
  lemma DecideIdempotent(env: Env, t: Tick, s: PlanState)
    requires PlanDefined(env, t, s.active)
    ensures PlanDefined(env, t, Decide(env, t, s).active)
    ensures Decide(env, t, Decide(env, t, s)) == Decide(env, t, s)
  {
  }

  /** When the decision is active, now lies in a plan slot ending at the
      remembered end, or an already active plan keeps its remembered end. */
  lemma ActiveIsJustified(env: Env, t: Tick, s: PlanState)
    requires ActiveSlotSound(env.activeSlot)
    requires PlanDefined(env, t, s.active)
    ensures var r := Decide(env, t, s);
      var plan := PlanOf(env, t, s.active).plan;
      r.active ==>
        || (exists i :: 0 <= i < |plan| && plan[i].start <= t.now < plan[i].end && plan[i].end == r.slotEnd)
        || (s.active && r.slotEnd == s.slotEnd)
  {
    var plan := PlanOf(env, t, s.active).plan;
    var slot := env.activeSlot(plan, t.now);
    var r := Decide(env, t, s);
    if r.active && slot.end != 0 && r.slotEnd == slot.end {
      var i :| 0 <= i < |plan| && plan[i] == slot;
    }
  }

  /** Every step's planning inputs are computable whenever planning is not
      skipped. Planning skipped for an active plan is skipped for an inactive
      one too, so this holds whatever state the step finds. */
  predicate StepsDefined(steps: seq<(Env, Tick)>) {
    forall i :: 0 <= i < |steps| ==> PlanDefined(steps[i].0, steps[i].1, true)
  }

  /** The state after `plannerActive` has run once per step, in order. Each
      step has its own collaborators, since the planner, the estimator and
      `planner.ActiveSlot` answer from the clock and the current rates. */
  function Run(steps: seq<(Env, Tick)>, s: PlanState): PlanState
    requires StepsDefined(steps)
  {
    if steps == [] then s else Run(steps[1..], Decide(steps[0].0, steps[0].1, s))
  }

  /** Hysteresis over many ticks: an active plan that remembers slot end `e`
      stays active on every tick before `e`, as long as each tick still has a
      plan to follow and no slot found ends before `e`. */
  lemma {:induction false} HysteresisOverTicks(steps: seq<(Env, Tick)>, s: PlanState, e: int)
    requires StepsDefined(steps)
    requires s.active && s.slotEnd != 0 && e <= s.slotEnd
    requires forall i :: 0 <= i < |steps| ==>
      var (env, t) := steps[i];
      var o := PlanOf(env, t, true);
      && t.now < e
      && !o.err && o.required != 0
      && (env.activeSlot(o.plan, t.now).end == 0 || e <= env.activeSlot(o.plan, t.now).end)
    ensures Run(steps, s).active
    ensures e <= Run(steps, s).slotEnd
  {
    if steps != [] {
      var (env, t) := steps[0];
      var next := Decide(env, t, s);
      Hysteresis(env, t, s);
      assert next.slotEnd != 0 && e <= next.slotEnd;
      HysteresisOverTicks(steps[1..], next, e);
    }
  }

  /** Without the last condition hysteresis breaks: a new slot found on one
      tick replaces the remembered end, and a later tick before the old end
      but after the new one switches the plan off. */
  lemma ShorterSlotEndsHysteresis(env1: Env, t1: Tick, env2: Env, t2: Tick)
    requires ActiveSlotSound(env1.activeSlot)
    requires 0 <= t1.now < 50
    requires DurationDefined(t1.goal, t1.maxPower, env1.efficiency)
    requires DurationDefined(t2.goal, t2.maxPower, env2.efficiency)
    requires var o := PlanOf(env1, t1, true);
      !o.err && o.required != 0 && env1.activeSlot(o.plan, t1.now) == Slot(0, 50, 0.0)
    requires var o := PlanOf(env2, t2, true);
      && t2.now == 60 && t2.now <= t2.targetTime
      && !o.err && o.required >= 30 * Minute
      && env2.activeSlot(o.plan, t2.now).end == 0
      && env2.planStart(o.plan) - t2.now >= env2.smallSlot
    ensures Run([(env1, t1), (env2, t2)], PlanState(true, 100)) == Cleared
  {
    var steps := [(env1, t1), (env2, t2)];
    var mid := Decide(env1, t1, PlanState(true, 100));
    assert mid == PlanState(true, 50);
    assert steps[1..] == [(env2, t2)];
    assert Run(steps, PlanState(true, 100)) == Run([(env2, t2)], mid);
    assert Decide(env2, t2, mid) == Cleared;
    assert Run([(env2, t2)], mid) == Run([], Cleared);
  }

  class Loadpoint {
    var planActive: bool
    var planSlotEnd: int

    /** An inactive plan remembers no slot end. */
    ghost predicate Valid()
      reads this
    {
      !planActive ==> planSlotEnd == 0
    }

    function State(): PlanState
      reads this
    {
      PlanState(planActive, planSlotEnd)
    }

    constructor ()
      ensures Valid() && State() == Cleared
    {
      planActive := false;
      planSlotEnd := 0;
    }

    /** `setPlanActive`: deactivating forgets the slot end; activating keeps it. */
    method SetPlanActive(active: bool)
      modifies this
      ensures Valid()
      ensures planActive == active
      ensures planSlotEnd == if active then old(planSlotEnd) else 0
    {
      if !active {
        planSlotEnd := 0;
      }
      planActive := active;
    }

    /** `GetPlan`: skips planning without configuration, or when the target
      time has passed and no plan is active; otherwise asks the planner and
      sorts its plan in place, stably, by start time. */
    method GetPlan(env: Env, t: Tick) returns (r: PlanOutcome)
      requires PlanDefined(env, t, planActive)
      ensures r == PlanOf(env, t, planActive)
    {
      if env.planner.None? || env.estimator.None? || t.targetTime == 0 {
        return PlanOutcome(0, [], false);
      }
      if t.targetTime < t.now && !planActive {
        return PlanOutcome(0, [], false);
      }
      var required := RequiredDuration(t.goal, t.maxPower, env.estimator.value, env.efficiency);
      var out := env.planner.value(required, t.targetTime);
      var plan := new Slot[|out.plan|](i requires 0 <= i < |out.plan| => out.plan[i]);
      assert plan[..] == out.plan;
      SortStableByTime(plan);
      r := PlanOutcome(required, plan[..], out.err);
    }

    /** `plannerActive`: decides whether the plan wants charging now and,
      as its deferred `setPlanActive(active)` does, stores that decision. */
    method PlannerActive(env: Env, t: Tick) returns (active: bool)
      requires PlanDefined(env, t, planActive)
      modifies this
      ensures State() == Decide(env, t, old(State()))
      ensures planActive == active
      ensures Valid()
    {
      var o := GetPlan(env, t);
      if o.err || o.required == 0 {
        active := false;
      } else {
        var planStart := env.planStart(o.plan);
        var activeSlot := env.activeSlot(o.plan, t.now);
        active := activeSlot.end != 0;
        if active {
          if !planActive && activeSlot.end - t.now < env.smallSlot {
            active := false;
          } else {
            SetPlanActive(true);
            planSlotEnd := activeSlot.end;
          }
        } else if planActive {
          if t.now > t.targetTime && t.targetTime != 0 {
            active := true;
          } else if t.now < planSlotEnd && planSlotEnd != 0 {
            active := true;
          } else if o.required < 30 * Minute {
            active := true;
          } else if planStart - t.now < env.smallSlot {
            active := true;
          }
        }
      }
      SetPlanActive(active);
    }
  }
}

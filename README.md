# Charging-plan activation for an EV loadpoint

This project models the charging-plan logic of a loadpoint in an energy-management controller (`core/loadpoint_plan.go`). It covers three parts:

- **Required duration** (`planRequiredDuration`): how long charging must run. It uses the remaining energy when that is known. Otherwise it asks the SoC estimator and adds time for the tapering bands above 80 % and 90 %. Finally it divides by the charge efficiency.
- **Plan retrieval** (`GetPlan`): it skips planning when no planner or estimator is configured, when no target time is set, or when the target time has passed and no plan is active. Otherwise it asks the planner and stably sorts the returned slots by start time, in place.
- **Activation state machine** (`plannerActive`): on each tick it decides whether the plan wants charging now. It remembers `planActive` and `planSlotEnd` between ticks through `setPlanActive`.

Modules:

- `Rates` (Rates.dfy): the slot type (`api.Rate`). It holds the stable in-place sort `SortStableByTime`, an insertion sort over an `array<Slot>`. The sort is proved equal to the function `SortedByTime`. Lemmas show that `SortedByTime` is sorted, is a permutation, is stable, and is the only arrangement with those properties. So the model agrees with `slices.SortStableFunc`, whatever algorithm that uses.
- `PlanDuration` (PlanDuration.dfy): the duration estimate as functions over `real`. Every float-to-`time.Duration` conversion is written out as truncation toward zero.
- `LoadpointPlan` (LoadpointPlan.dfy): the collaborators (`Env`), the tick inputs (`Tick`) and the `Loadpoint` class with its two fields. It has methods `SetPlanActive`, `GetPlan` and `PlannerActive`. Two functions specify them: `PlanOf` (what `GetPlan` returns) and `Decide` (the state `plannerActive` leaves behind). Lemmas cover every rule of the state machine, hysteresis, and idempotence within a tick.

Instants and durations are integers in nanoseconds; 0 stands for Go's zero `time.Time`. The clock is one `now` per tick. The planner (`planner.Plan`), `planner.Start`, `planner.ActiveSlot` and the SoC estimator are function-valued fields of `Env`. `smallSlotDuration` and `soc.ChargeEfficiency` are `Env` values. The only assumption made about `planner.ActiveSlot` is `ActiveSlotSound`: it returns a plan slot containing now, or a slot whose end is zero. Only the lemma that relies on it requires it.

Three behaviours worth noting:

- Line 144 ("plan will re-start shortly") returns `true`, so the deferred `setPlanActive(true)` keeps the plan active. `RestartSoonStaysActive` states this.
- Lines 40 and 43 divide by `targetSoc - vehicleSoc` without a guard. The model requires the two to differ whenever a tapering band applies (`TaperDefined`).
- `GetPlan` sorts and returns the planner's plan even when the planner reports an error. `plannerActive` then switches the plan off.

## Model

| member | source | states |
|---|---|---|
| `LoadpointPlan.Loadpoint.SetPlanActive` | core/loadpoint_plan.go:13-19 | the flag becomes the argument; deactivating sets the slot end to the zero instant, activating leaves it unchanged; afterwards an inactive plan has no slot end |
| `PlanDuration.TruncToDuration` | core/loadpoint_plan.go:26 | float-to-duration conversion truncates toward zero: the result has the input's sign and lies within one unit of it, toward zero |
| `PlanDuration.RequiredDuration` | core/loadpoint_plan.go:22-52 | the final duration is the pre-loss duration divided by the efficiency, truncated; with efficiency in (0, 1] it is never shorter than a non-negative pre-loss duration |
| `PlanDuration.DurationBeforeLosses` | core/loadpoint_plan.go:25-47 | the duration before losses: from a known energy (energy * 1000 / maxPower hours, truncated), otherwise the estimate for the effective target plus the tapering extra; a non-negative energy at positive power gives a non-negative duration, and a SoC goal above the vehicle's SoC is never planned shorter than a non-negative estimate |
| `PlanDuration.TaperExtra` | core/loadpoint_plan.go:37-45 | the tapering extra: 5 times the truncated (target - 80) / (target - vehicleSoc) share of the estimate in the >80 % band, 3 times the (target - 90) share in the >90 % band, none outside both; never negative when charging towards a target above the vehicle's SoC from a non-negative estimate |
| `PlanDuration.EnergyGoalIgnoresSoc` | core/loadpoint_plan.go:25-26 | a known remaining energy alone decides the duration (energy * 1000 / maxPower hours, then efficiency); target SoC, vehicle SoC and the estimator do not matter |
| `PlanDuration.UnsetTargetMeansFull` | core/loadpoint_plan.go:29-34 | without a remaining energy, target SoC 0 gives the same duration as target 100 |
| `PlanDuration.TaperBandsExclusive` | core/loadpoint_plan.go:39-45 | the >80 % band applies exactly when target > 80 and power > 15 kW; the >90 % band only when that fails and target > 90 and power > 4 kW |
| `PlanDuration.SocGoalAtLeastEstimate` | core/loadpoint_plan.go:27-49 | for a SoC goal above the vehicle's SoC, the required duration is at least the estimator's duration |
| `PlanDuration.TaperExample` | core/loadpoint_plan.go:39-40 | target 85 % at 84 % and 16 kW: the >80 % band adds 25 times the estimate, a positive extra |
| `Rates.SortStableByTime` | core/loadpoint_plan.go:76-77 | sorting in place leaves the array equal to the stable sort by start of its old contents |
| `Rates.SortedByTimeSorts` | core/loadpoint_plan.go:76-77 | the sorted plan is ascending by start and a permutation of the planner's plan |
| `Rates.SortedByTimeStable` | core/loadpoint_plan.go:77 | slots with equal start times keep their relative order |
| `Rates.StableSortUnique` | core/loadpoint_plan.go:77 | any arrangement that is sorted by start and keeps equal-start slots in order equals the modelled sort |
| `LoadpointPlan.PlanOf` | core/loadpoint_plan.go:63-80 | duration 0, empty plan and no error when not configured or when the target time has passed with no plan active; otherwise the required duration, the planner's error flag and its plan sorted by start, as a stable permutation |
| `LoadpointPlan.Loadpoint.GetPlan` | core/loadpoint_plan.go:63-80 | returns what `PlanOf` specifies, short cuts included, from the loadpoint's current `planActive` |
| `LoadpointPlan.Decide` | core/loadpoint_plan.go:83-149 | the state left after a tick; an inactive decision always has a zero slot end, and an active one keeps the old slot end or takes the active slot's end |
| `LoadpointPlan.KeepGoing` | core/loadpoint_plan.go:129-145 | the first matching reason for a previously active plan to continue outside every slot; there is a reason exactly when one of the four conditions holds, and restart-soon is chosen only when the three earlier conditions fail |
| `LoadpointPlan.Loadpoint.PlannerActive` | core/loadpoint_plan.go:83-149 | the new `planActive`/`planSlotEnd` are `Decide` of the old ones, the stored flag equals the returned value, and an inactive plan has no slot end |
| `LoadpointPlan.NothingToDoClears` | core/loadpoint_plan.go:91-100 | a skipped plan, a planner error or a zero required duration gives inactive with cleared state |
| `LoadpointPlan.SliverIgnored` | core/loadpoint_plan.go:117-122 | in a slot with less than `smallSlotDuration` left and not active before: inactive, cleared |
| `LoadpointPlan.SlotActivates` | core/loadpoint_plan.go:117-126 | otherwise, in a slot: active, remembering that slot's end |
| `LoadpointPlan.OutsideSlots` | core/loadpoint_plan.go:127-148 | outside every slot a previously active plan stays active, with its slot end, exactly when now is after a set target time, before a set slot end, under 30 min remain, or the plan starts within `smallSlotDuration`; otherwise, and whenever it was inactive, cleared |
| `LoadpointPlan.RestartSoonStaysActive` | core/loadpoint_plan.go:142-144 | when only the restart-soon case matches, the plan stays active with its slot end |
| `LoadpointPlan.Hysteresis` | core/loadpoint_plan.go:117-138 | an active plan with a set slot end is not switched off before that end while a non-zero plan exists |
| `LoadpointPlan.HysteresisOverTicks` | core/loadpoint_plan.go:117-138 | over any sequence of ticks, each with its own collaborators, that fall before the remembered end, each having an error-free non-zero plan and no found slot ending before that end: the plan stays active and its slot end never drops below it |
| `LoadpointPlan.ShorterSlotEndsHysteresis` | core/loadpoint_plan.go:124-138 | the last condition is needed: from (active, end 100), a tick at a now in slot [0, 50), with a sound `ActiveSlot`, remembers 50, and a later tick at 60 outside any slot, with 30 min or more left and no imminent restart, switches the plan off |
| `LoadpointPlan.DecideIdempotent` | core/loadpoint_plan.go:83-149 | re-running the decision on the same tick leaves the state unchanged |
| `LoadpointPlan.ActiveIsJustified` | core/loadpoint_plan.go:114-138 | an active decision either lies in a plan slot ending at the remembered end, or continues a previously active plan with its slot end unchanged |

## Left out

- `GetPlannerUnit` (line 54-56): it only passes through `planner.Unit()` and has no logic.
- `lp.publish` and every `lp.log` call: observability only, nothing feeds back into the decision.
- The internals of `planner.Plan`, `planner.Start`, `planner.ActiveSlot`, `planner.Duration`, `planner.AverageCost` and `planner.SortByTime` (package `core/planner` is not part of this model). The first three are opaque functions. `SortByTime` is taken as "ascending by `Start`". `Duration` and `AverageCost` are only logged.
- The internals of `socEstimator.RemainingChargeDuration`, `remainingChargeEnergy`, `GetMaxPower` and `GetTargetTime`: their results are inputs. `GetTargetTime()` (line 91) and `lp.targetTime` (line 130) are taken to be the same instant.
- The clock is read once per tick: all `lp.clock.Now()`/`Until` calls in one `plannerActive` run see the same instant.
- IEEE float64 rounding, Inf/NaN and `int64` overflow of `time.Duration`: arithmetic is exact over `real` and `int`, and only the truncations are modelled.
- `PlanDuration.RequiredDuration`: requires `maxPower != 0` when a remaining energy is known. Go would compute ±Inf or NaN, and its conversion to `time.Duration` is implementation-defined.
- `Rates.SortStableByTime`: it is an insertion sort, not the insertion-sort-plus-merge of `slices.SortStableFunc`. `StableSortUnique` shows that any stable sort by start gives the same result.
- `server/http.go`: HTTP routing and middleware, not part of this model.

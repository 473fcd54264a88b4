# BarTracker event core in Dafny

This project models the real-time core of the BarTracker overlay. The overlay
reads a telemetry stream from a running game, keeps an in-memory picture of
the match and fires scripted triggers. The core has three cooperating parts:

- **The game state store** (`gameStateStore.js`). It holds units, teams, a
  chronological event log with a per-type index, a damage history and a
  stats history. Its mutators change a unit together with the aggregates of
  the owner team and the attacking team.
- **The trigger engine** (`triggerEngine.js`). It is a registry of triggers
  kept in insertion order, each with its own state. `evaluateTriggers` is a
  guarded and short-circuit rule evaluator. `fireTrigger` updates the state
  before any action runs. A deferred reset ends the cooldown.
- **The event pipeline** (`eventHandler.js`). For each message it runs the
  state update, then the log append, then trigger evaluation, then the
  bounded history push. It also holds the one-time game bootstrap, routing
  by event tag and the stats throttle. The same file holds `getName` and the
  audio manager's volume clamp.

Each part is modelled at two levels. First, a pure model gives snapshots as
datatypes and operations as functions:

- `StoreModel`
- `TriggerModel`
- `PipelineModel`
- `Naming`
- `Audio.Clamp`

Second, classes hold the same collections as fields and change them in
place:

- `Store.GameStateStore`
- `Triggers.TriggerEngine`
- `Pipeline.EventHandler`
- `Audio.AudioManager`

Every class method ensures `View() == F(old(View()), …)`, where `F` is the
corresponding pure function (usually of the same name; `RegisterTrigger`
uses `Register`, `SetTriggerEnabled` uses `SetEnabled`, `ExpireCooldown`
uses `Expire`, `SetAllyTeam` uses `AllyTeam`, `SetMasterVolume` uses
`Clamp`, and the helper methods name theirs in their contracts). The loops of `evaluateTriggers`,
`fireTrigger`, `testTrigger` and the ally loop are `while`/`for` loops with
invariants.

The properties are proved as lemmas about the pure functions:

- `StoreInvariants` for the store.
- `TriggerProps` for the engine.
- `PipelineProps` for the pipeline.

Things the code cannot see become parameters:

- **Time.** The clock (`Date.now()`) is the parameter `now`.
- **Trigger conditions.** A condition is opaque. What it does on an input is
  given by an oracle `verdict: (Condition, E) -> Verdict`, where a verdict
  is a truthy result, a falsy result or a throw.
- **Trigger actions.** An action is opaque. Whether it throws is the oracle
  `throws`. The oracle sees the trigger's state after the update, because
  actions run after the update.
- **Speech.** The undefined `say` function becomes `sayThrows: string -> bool`.
- **Soundpack fetching.** The result of fetching a soundpack is the
  parameter `fetched`.
- **Cooldown timers.** `setTimeout` becomes the value `Timer(id, epoch, due)`,
  which `fireTrigger` returns. The host later applies `ExpireCooldown` to
  it. The timer's closure captures the state object that existed when it
  was scheduled. So the model tells state objects apart by an `epoch`, and
  a timer left over from before a re-registration does nothing.

JavaScript Maps that are iterated become a `map` paired with a `seq` that
records insertion order. A value that may be `undefined` is an `Option`.

Some behaviour follows the code as written rather than the design intent:

- `registerTrigger` has no at-most-once cap. It ignores `repeatable`.
  Registering an id again replaces both the definition and the state.
- `initGame` is not idempotent. It overwrites any existing record for the
  player's team with zeroed aggregates, and each call logs another
  `GameInitialized` event. So initialising after units exist breaks the
  team counts (`StoreInvariants.LateInitBreaksCounts`).
- The pipeline calls `triggerEngine.evaluateAllTriggers`, which the engine
  does not define. The model performs that step as `evaluateTriggers`.
- The record the pipeline logs has no `event` field, so the log stores it
  with an undefined type. In a store the pipeline built, `getRecentEvents`
  never sees a `UnitDestroyed` record, and `countKillsInWindow` is always 0
  (`PipelineProps.PipelineKillWindowEmpty`).
- `updateGameState` dispatches
  `AllyStatesUpdate` to `handleAllyStates`, but that handler only acts
  when the tag is `AllyStatsUpdate`. Through the pipeline an ally broadcast
  therefore never changes a team (`PipelineProps.OtherTagsKeepUnitsAndTeams`).
  Called directly with the other tag, the handler throws when `teams` is
  missing, because `Object.entries` fails on it.
- `handleOverflowStatusChanged` sets the flag before it calls `say`. If the
  speech call throws, the flag stays set, but the message is not logged,
  not evaluated and not kept in the history.
- `destroyUnit` credits a kill only when `attackerTeam` is truthy, so team 0
  is never credited.
- Neither `destroyUnit` nor `addUnit` guards its counter updates. Destroying
  a unit twice, or adding a unit under an id already in use, breaks the
  team counts (`StoreInvariants.DoubleDestroyBreaksCounts`,
  `StoreInvariants.ReAddBreaksCounts`).
- `testTrigger` keeps calling conditions after one throws; only a falsy
  result stops it. `evaluateTriggers` stops at either.

## Model

| member | source | states |
|---|---|---|
| StoreModel.LogEvent | src/Widgets/BarTracker/gameStateStore.js:80-99 | exactly one record is appended; its id is the previous log length; its type is the input's `event`, which may be undefined; its timestamp defaults to `now`; that id is appended to the index list of its type, creating the list if it is missing; other lists and all other collections are unchanged |
| StoreModel.InitGame | src/Widgets/BarTracker/gameStateStore.js:42-74 | sets the player's team, player, ally team and name, and marks the game started; it (re)creates the player's team record with `isMyTeam` and zero aggregates, overwriting any old record; other teams keep their records; exactly one `GameInitialized` event is appended |
| StoreModel.AddUnit | src/Widgets/BarTracker/gameStateStore.js:105-143 | the unit is stored under its id with zero damage, not destroyed and not in combat; tier defaults to 1 and cost to 0 when falsy; an existing owner team gains one unit and the unit's cost; no other unit or team changes; a new id joins the end of the iteration order |
| StoreModel.DestroyUnit | src/Widgets/BarTracker/gameStateStore.js:145-168 | an unknown id changes nothing; otherwise the unit is marked destroyed by the attacker at the current game time; the owner team loses one unit and its cost and gains one loss; the attacker team gains one kill only when `attackerTeam` is truthy and the team exists |
| StoreModel.DamageUnit | src/Widgets/BarTracker/gameStateStore.js:170-202 | an unknown id changes nothing and appends no sample; otherwise the unit's damage taken rises by exactly `damage` and it is marked in combat; the attacker team's damage dealt and the victim team's damage taken each rise by `damage`; exactly one sample is appended |
| StoreModel.UpdateTeamStats | src/Widgets/BarTracker/gameStateStore.js:303-318 | an unknown team is a no-op; otherwise the team's metal and energy snapshots are overwritten (missing ones become empty stats) and exactly one sample stamped `now` is appended to the stats history |
| StoreModel.Reset | src/Widgets/BarTracker/gameStateStore.js:360-367 | the unit and team tables, the log, the index and both histories become empty; the game state is kept |
| StoreModel.MatchesCriteria | src/Widgets/BarTracker/gameStateStore.js:349-357 | a unit matches exactly when every truthy criterion holds for it (team, cost bounds, tier, relation, in combat); criteria that are all falsy accept every unit |
| StoreModel.UnitsWhere | src/Widgets/BarTracker/gameStateStore.js:214-230 | the units that `queryUnits`, `getTeamUnits` and `getKilledBy` return: every unit returned passes the filter and is stored, and every stored unit in iteration order that passes the filter is returned; the order and multiplicity are stated by `StoreInvariants.UnitsWhereInOrder`; `getTeamUnits` omits destroyed units unless `includeDestroyed` is set |
| StoreModel.TeamUnits | src/Widgets/BarTracker/gameStateStore.js:225-230 | no contract of its own: `getTeamUnits` is `UnitsWhere` with the team filter, so it returns exactly the team's stored units (live ones only unless `includeDestroyed`) in iteration order; `StoreInvariants.CountsMatchTeamUnits` ties it to the team counters |
| StoreModel.QueryUnits | src/Widgets/BarTracker/gameStateStore.js:214-223 | no contract of its own: `queryUnits` is `UnitsWhere` with `MatchesCriteria`, so it returns exactly the stored units matching every truthy criterion, in iteration order |
| StoreModel.KilledBy | src/Widgets/BarTracker/gameStateStore.js:264-269 | no contract of its own: `getKilledBy` is `UnitsWhere` with the destroyed-by filter, so it returns exactly the stored units destroyed by that attacker, in iteration order; a live unit has `destroyedBy` null and never matches |
| StoreInvariants.UnitsWhereInOrder | src/Widgets/BarTracker/gameStateStore.js:214-230 | the filter result lists, for ascending positions of the iteration order, exactly the positions whose key is stored and accepted, one unit per position: the order-preserving filter |
| StoreModel.Lookup | src/Widgets/BarTracker/gameStateStore.js:242-251 | mapping index ids to records yields only records from the log |
| StoreModel.Since | src/Widgets/BarTracker/gameStateStore.js:242-251 | the window filter keeps exactly the records with `timestamp >= cutoff` |
| StoreModel.Reverse | src/Widgets/BarTracker/gameStateStore.js:242-251 | reversal keeps the length and puts element `i` at position `n-1-i` |
| StoreModel.RecentEvents | src/Widgets/BarTracker/gameStateStore.js:242-251 | every record returned is logged and inside the window |
| StoreModel.CountKillsInWindow | src/Widgets/BarTracker/gameStateStore.js:253-262 | the kill count never exceeds the number of recent `UnitDestroyed` records; what it counts is stated by `StoreInvariants.CountKillsInWindowSpec` |
| StoreModel.CountKillsBounded | src/Widgets/BarTracker/gameStateStore.js:253-262 | counting matching kills in a list of records gives at most its length |
| StoreInvariants.CountKillsIsCard | src/Widgets/BarTracker/gameStateStore.js:253-262 | over a list without repeats, the kill count is the number of distinct records whose attacker is `unitID` and whose game time is at least the cutoff |
| StoreInvariants.CountKillsInWindowSpec | src/Widgets/BarTracker/gameStateStore.js:253-262 | with a consistent index, `countKillsInWindow` equals the number of logged `UnitDestroyed` records inside the clock window whose message names `unitID` as attacker and whose `gameTime` is at least `gameTime - seconds`; it is positive exactly when such a record exists |
| StoreModel.DamageDealtBy | src/Widgets/BarTracker/gameStateStore.js:271-276 | no contract of its own: the sum of the damage samples whose attacker is `unitID`; `StoreInvariants.DamageDealtAfterHit` states how it moves |
| StoreModel.DamageTakenBy | src/Widgets/BarTracker/gameStateStore.js:278-282 | no contract of its own: the stored unit's `damageTaken`, or 0 for an unknown id; `StoreInvariants.DamageTakenMatchesHistory` ties it to the damage history |
| StoreModel.DamageRateInWindow | src/Widgets/BarTracker/gameStateStore.js:284-296 | no contract of its own: 0 without samples of the team in the window, otherwise the quotient of their total damage by `seconds`, which for a 0-second window is Infinity, -Infinity or NaN by the total's sign |
| StoreModel.IsTeamBleeding | src/Widgets/BarTracker/gameStateStore.js:298-300 | no contract of its own: the rate comparison written over integers by cross-multiplying; `StoreInvariants.BleedingIsRateAbove` proves it equal to the source's division |
| StoreInvariants.QuotientAbove | src/Widgets/BarTracker/gameStateStore.js:284-300 | for a non-zero window, `total / seconds > threshold` over the reals holds exactly when the cross-multiplied integer comparison does, with the direction flipped for a negative window |
| StoreInvariants.BleedingIsRateAbove | src/Widgets/BarTracker/gameStateStore.js:284-300 | `isTeamBleeding` holds exactly when `getDamageRateInWindow` exceeds the threshold under JavaScript `>`, for every window including an empty one and one of 0 seconds |
| StoreModel.ResourceStatus | src/Widgets/BarTracker/gameStateStore.js:336-346 | `metal` reads the metal overflow flag, `energy` the energy flag, and anything else gives false |
| StoreModel.GameSummary | src/Widgets/BarTracker/gameStateStore.js:370-389 | the event count is the log length; the team part is present exactly when the player's team record exists, and then it carries that team's aggregates |
| StoreInvariants.AddUnitWellFormed | src/Widgets/BarTracker/gameStateStore.js:133 | `addUnit` keeps the iteration order listing each stored id exactly once |
| StoreInvariants.AddUnitKeepsCounts | src/Widgets/BarTracker/gameStateStore.js:105-143 | under a fresh id, `addUnit` keeps every team's unit count and total cost equal to the number and summed cost of its live units |
| StoreInvariants.ReAddBreaksCounts | src/Widgets/BarTracker/gameStateStore.js:133-140 | re-adding a live unit under its id counts it twice, so the invariant fails afterwards |
| StoreInvariants.DestroyUnitWellFormed | src/Widgets/BarTracker/gameStateStore.js:145-168 | `destroyUnit` keeps the iteration order well formed |
| StoreInvariants.DestroyUnitKeepsCounts | src/Widgets/BarTracker/gameStateStore.js:145-168 | destroying a live unit keeps the counting invariant |
| StoreInvariants.DoubleDestroyBreaksCounts | src/Widgets/BarTracker/gameStateStore.js:146-160 | destroying an already destroyed unit decrements its team again, so the invariant fails afterwards |
| StoreInvariants.DamageUnitKeepsCounts | src/Widgets/BarTracker/gameStateStore.js:170-202 | `damageUnit` keeps the counting invariant, for stored and unknown ids |
| StoreInvariants.UpdateTeamStatsKeepsCounts | src/Widgets/BarTracker/gameStateStore.js:303-318 | `updateTeamStats` keeps the counting invariant |
| StoreInvariants.InitGameKeepsCounts | src/Widgets/BarTracker/gameStateStore.js:42-74 | initialising before the player's team has live units keeps the invariant |
| StoreInvariants.LateInitBreaksCounts | src/Widgets/BarTracker/gameStateStore.js:55-66 | initialising after the player's team has live units zeroes its count, so the invariant fails |
| StoreInvariants.ResetEstablishesInvariants | src/Widgets/BarTracker/gameStateStore.js:360-367 | after `reset` the store is well formed, the counts hold, the index is consistent and the damage ledger holds |
| StoreInvariants.CountsMatchTeamUnits | src/Widgets/BarTracker/gameStateStore.js:225-230 | under the invariant, a team's `unitCount` equals the length of `getTeamUnits(team)` and its `totalMetalCost` equals their summed cost |
| StoreInvariants.LogEventKeepsIndex | src/Widgets/BarTracker/gameStateStore.js:80-99 | `logEvent` keeps record ids equal to log positions and each index list equal to the ids of its type, in increasing order |
| StoreInvariants.RecentEventsAreFilteredLog | src/Widgets/BarTracker/gameStateStore.js:242-251 | under a consistent index, `getRecentEvents(t)` equals the records of type `t` in the window, reversed |
| StoreInvariants.RecentEventsMembers | src/Widgets/BarTracker/gameStateStore.js:242-251 | a record is returned exactly when it is logged, has the type asked for and lies in the window |
| StoreInvariants.RecentEventsNewestFirst | src/Widgets/BarTracker/gameStateStore.js:242-251 | the records returned have strictly decreasing ids, newest first |
| StoreInvariants.KillWindowEmptyWithoutTags | src/Widgets/BarTracker/gameStateStore.js:253-262 | in a log holding only untyped or `GameInitialized` records, there are no recent `UnitDestroyed` records and the kill count is 0 |
| StoreInvariants.AddUnitKeepsLedger | src/Widgets/BarTracker/gameStateStore.js:105-143 | under a fresh id, every unit's damage taken still equals the damage samples naming it |
| StoreInvariants.DamageUnitKeepsLedger | src/Widgets/BarTracker/gameStateStore.js:170-202 | `damageUnit` keeps the damage ledger |
| StoreInvariants.DestroyUnitKeepsLedger | src/Widgets/BarTracker/gameStateStore.js:145-168 | `destroyUnit` keeps the damage ledger |
| StoreInvariants.DamageTakenMatchesHistory | src/Widgets/BarTracker/gameStateStore.js:278-282 | under the ledger, `getDamageTakenBy(k)` is the damage the history records against `k`, for stored and unknown ids alike |
| StoreInvariants.DamageDealtAfterHit | src/Widgets/BarTracker/gameStateStore.js:271-276 | `getDamageDealtBy(a)` grows by exactly the damage of a hit by `a` on a stored unit, and is unchanged otherwise |
| StoreInvariants.PointDefaults | src/Widgets/BarTracker/gameStateStore.js:321-333 | a trend point carries its sample's timestamp; a missing resource gives 0 in all four fields; for a present resource each of income, usage, storage and excess is its value when present and 0 when missing |
| StoreInvariants.TrendMembers | src/Widgets/BarTracker/gameStateStore.js:321-333 | `getResourceTrend` returns exactly the points of that team's samples inside the window, and no more points than samples |
| StoreInvariants.TrendChronological | src/Widgets/BarTracker/gameStateStore.js:321-333 | every trend point lies in the window and has the timestamp of some sample; a chronological history gives a chronological trend |
| StoreModel.ResourceTrend | src/Widgets/BarTracker/gameStateStore.js:321-333 | no contract of its own: `getResourceTrend` over the stats history with the clock window; `StoreInvariants.TrendMembers`, `TrendInOrder` and `TrendChronological` state what it returns |
| StoreInvariants.TrendInOrder | src/Widgets/BarTracker/gameStateStore.js:321-333 | the trend lists, for ascending history positions, exactly the positions holding a sample of the team inside the window, one point per position, each the point of that sample |
| StoreInvariants.UpdateTeamStatsChronological | src/Widgets/BarTracker/gameStateStore.js:303-318 | a stats update at a time no earlier than the history keeps the history chronological |
| Store.GameStateStore.constructor | src/Widgets/BarTracker/gameStateStore.js:8-36 | a new store is empty, with the initial game state |
| Store.GameStateStore.LogEvent | src/Widgets/BarTracker/gameStateStore.js:80-99 | performs `StoreModel.LogEvent` in place and returns the appended record |
| Store.GameStateStore.InitGame | src/Widgets/BarTracker/gameStateStore.js:42-74 | performs `StoreModel.InitGame` in place |
| Store.GameStateStore.AddUnit | src/Widgets/BarTracker/gameStateStore.js:105-143 | performs `StoreModel.AddUnit` in place and returns the stored unit |
| Store.GameStateStore.DestroyUnit | src/Widgets/BarTracker/gameStateStore.js:145-168 | performs `StoreModel.DestroyUnit` in place; returns null exactly for an unknown id, and otherwise the destroyed unit |
| Store.GameStateStore.DamageUnit | src/Widgets/BarTracker/gameStateStore.js:170-202 | performs `StoreModel.DamageUnit` in place; returns null exactly for an unknown id, and otherwise the unit with its damage raised |
| Store.GameStateStore.UpdateTeamStats | src/Widgets/BarTracker/gameStateStore.js:303-318 | performs `StoreModel.UpdateTeamStats` in place |
| Store.GameStateStore.Reset | src/Widgets/BarTracker/gameStateStore.js:360-367 | performs `StoreModel.Reset` in place |
| TriggerModel.AsList | src/Widgets/BarTracker/triggerEngine.js:65-66 | an absent list is empty, a non-array is wrapped into a one-element list, and an array is kept |
| TriggerModel.Register | src/Widgets/BarTracker/triggerEngine.js:46-79 | fails exactly when the id is falsy; otherwise it stores the definition with defaults: name `Trigger <id>` when falsy, description `""` when falsy, enabled unless `false`, the default cooldown when absent, conditions and actions as `AsList` wraps them, creation time `now`; the state is fresh (not fired, count 0, no cooldown, enabled as stored); a new id joins the end of the order; every other trigger and state is unchanged |
| TriggerModel.RegisterKeepsValid | src/Widgets/BarTracker/triggerEngine.js:46-79 | registration keeps the order duplicate-free and in step with the definitions and states |
| TriggerModel.FiredAmong | src/Widgets/BarTracker/triggerEngine.js:85-120 | the fired ids are no more than the ids scanned, and every one is registered |
| TriggerModel.Fired | src/Widgets/BarTracker/triggerEngine.js:136-139 | firing adds one to the fire count, records `now` as the last fire and starts the cooldown; the enabled flag is kept |
| TriggerModel.FireTriggerAt | src/Widgets/BarTracker/triggerEngine.js:125-148 | `fireTrigger` changes the state of the fired trigger and no other; an unknown id changes nothing |
| TriggerModel.FireTrigger | src/Widgets/BarTracker/triggerEngine.js:125-148 | keeps the order, the definitions, the registration counter and the set of ids with a state; `FireTriggerAt` states which state changes |
| TriggerModel.TimerFor | src/Widgets/BarTracker/triggerEngine.js:154-156 | no contract of its own: the timer `fireTrigger` schedules, due after the trigger's cooldown and bound to its current state object; `TriggerProps.TimerEpochIssued` and `StaleTimerIsNoOp` state what it may touch |
| TriggerModel.FiredIds | src/Widgets/BarTracker/triggerEngine.js:85-123 | no contract of its own: the scan of `evaluateTriggers` over the registration order; `TriggerProps.FiredIdsSpec` characterises it |
| TriggerModel.Evaluate | src/Widgets/BarTracker/triggerEngine.js:85-123 | no contract of its own: fires every id `FiredIds` returns; `TriggerProps.EvaluateSpec` states the resulting states |
| TriggerModel.Expire | src/Widgets/BarTracker/triggerEngine.js:153-156 | the deferred reset only clears `cooldownActive`, and only on the state object it was scheduled for |
| TriggerModel.TestTrigger | src/Widgets/BarTracker/triggerEngine.js:450-481 | returns true exactly when the trigger is registered and all its conditions hold, and then fires it; otherwise nothing changes |
| TriggerModel.SetEnabled | src/Widgets/BarTracker/triggerEngine.js:358-367 | changes only `enabled`, and only for a known id |
| TriggerModel.IsEnabled | src/Widgets/BarTracker/triggerEngine.js:381-387 | no contract of its own: true exactly for a known id whose state is enabled; `TriggerProps.SetThenIsEnabled` reads it back after a change |
| TriggerModel.Toggle | src/Widgets/BarTracker/triggerEngine.js:369-379 | no contract of its own: `TriggerProps.ToggleReturnsPrevious` and `ToggleTwiceRestores` state its result |
| TriggerModel.AllTriggers | src/Widgets/BarTracker/triggerEngine.js:389-406 | no contract of its own: `TriggerProps.AllTriggersSpec` states its entries |
| TriggerModel.Stats | src/Widgets/BarTracker/triggerEngine.js:408-425 | stats exist exactly for a registered id |
| TriggerModel.StatsOf | src/Widgets/BarTracker/triggerEngine.js:427-436 | `getAllTriggerStats` gives one entry per registered id, in order, each the id's stats |
| TriggerModel.AllStats | src/Widgets/BarTracker/triggerEngine.js:427-436 | no contract of its own: `StatsOf` over the registration order, so one entry per registered id, in order |
| TriggerModel.SwitchSoundpack | src/Widgets/BarTracker/triggerEngine.js:323-343 | a loaded pack becomes active without reloading; an absent pack is stored and activated if its fetch succeeds; a failed fetch changes nothing |
| TriggerModel.ActiveMapping | src/Widgets/BarTracker/triggerEngine.js:346-349 | no mapping without a truthy active id; otherwise the active pack's mapping |
| TriggerProps.FiredAmongMembers | src/Widgets/BarTracker/triggerEngine.js:85-120 | an id is fired exactly when it was scanned and it fires (enabled, not cooling down, every condition truthy) |
| TriggerProps.FiredAmongOrdered | src/Widgets/BarTracker/triggerEngine.js:85-120 | the fired ids appear in scan order |
| TriggerProps.FiredAmongDistinct | src/Widgets/BarTracker/triggerEngine.js:85-120 | each id is fired at most once per scan |
| TriggerProps.FiredIdsSpec | src/Widgets/BarTracker/triggerEngine.js:85-120 | `evaluateTriggers` returns exactly the enabled, idle triggers whose conditions all hold, each once, in registration order |
| TriggerProps.ApplyFiresAt | src/Widgets/BarTracker/triggerEngine.js:113-116 | firing a duplicate-free list of ids changes exactly those ids' states |
| TriggerProps.EvaluateSpec | src/Widgets/BarTracker/triggerEngine.js:85-120 | after evaluation each trigger's state is the fired state if it fired and unchanged otherwise; the registry is kept valid |
| TriggerProps.CooldownBlocksRefire | src/Widgets/BarTracker/triggerEngine.js:94-95 | a trigger that just fired is not fired again by any later evaluation until its cooldown expires |
| TriggerProps.CoolingTriggerUntouched | src/Widgets/BarTracker/triggerEngine.js:94-95 | a trigger in cooldown is never fired and its state is untouched |
| TriggerProps.ExpiryReadmits | src/Widgets/BarTracker/triggerEngine.js:153-156 | the expiry of a fired trigger's timer clears just its flag, after which the same conditions fire it again |
| TriggerProps.StaleTimerIsNoOp | src/Widgets/BarTracker/triggerEngine.js:71-76 | a timer scheduled before a re-registration does nothing to the new state |
| TriggerProps.TimerEpochIssued | src/Widgets/BarTracker/triggerEngine.js:153-156 | a scheduled timer names a state object that has already been created |
| TriggerProps.FiresAgainAfterExpiry | src/Widgets/BarTracker/triggerEngine.js:125-156 | fire, expire, fire again: the fire count rises by two and the last fire is the second time |
| TriggerProps.TestTriggerBypassesGuard | src/Widgets/BarTracker/triggerEngine.js:450-481 | `testTrigger` fires whenever every condition holds, even when the trigger is disabled or cooling down |
| TriggerProps.SetThenIsEnabled | src/Widgets/BarTracker/triggerEngine.js:358-387 | after `setTriggerEnabled(id, b)`, `isTriggerEnabled(id)` is `b` for a known id and false for an unknown one |
| TriggerProps.ToggleReturnsPrevious | src/Widgets/BarTracker/triggerEngine.js:369-379 | `toggleTrigger` flips `enabled` and returns the previous value; an unknown id returns null and changes nothing |
| TriggerProps.ToggleTwiceRestores | src/Widgets/BarTracker/triggerEngine.js:369-379 | toggling twice restores the engine |
| TriggerProps.EntriesOfAll | src/Widgets/BarTracker/triggerEngine.js:389-406 | for registered ids there is one entry each, in order |
| TriggerProps.AllTriggersSpec | src/Widgets/BarTracker/triggerEngine.js:389-406 | `getAllTriggers` returns one merged entry per trigger, in registration order, whose `enabled` is the state's |
| TriggerProps.StatsAfterFire | src/Widgets/BarTracker/triggerEngine.js:408-425 | after a fire at a nonzero time, the stats show the raised count, the fire time and the active cooldown |
| TriggerProps.StatsLastFiredFalsy | src/Widgets/BarTracker/triggerEngine.js:408-425 | a falsy last-fired time is reported as null |
| TriggerProps.SwitchKeepsPacksValid | src/Widgets/BarTracker/triggerEngine.js:323-343 | switching packs keeps the active id naming a loaded pack |
| TriggerProps.SwitchSelectsMapping | src/Widgets/BarTracker/triggerEngine.js:323-349 | after switching to a loaded or fetched pack, the active mapping is that pack's |
| TriggerProps.ActiveMappingPresent | src/Widgets/BarTracker/triggerEngine.js:346-349 | with valid packs, there is an active mapping exactly when the active id is truthy |
| Triggers.ConditionsMet | src/Widgets/BarTracker/triggerEngine.js:98-110 | the condition loop reports success exactly when every condition returns truthy; it stops right after the first falsy or throwing condition |
| Triggers.TestConditions | src/Widgets/BarTracker/triggerEngine.js:460-471 | the test loop reports success exactly when every condition returns truthy; only a falsy result stops it, and a throw lets it go on |
| Triggers.RunActions | src/Widgets/BarTracker/triggerEngine.js:141-148 | every action runs in order, and a throwing action does not stop later ones |
| Triggers.TriggerEngine.constructor | src/Widgets/BarTracker/triggerEngine.js:13-25 | a new engine has no triggers, no packs and no active pack |
| Triggers.TriggerEngine.RegisterTrigger | src/Widgets/BarTracker/triggerEngine.js:46-79 | performs `TriggerModel.Register` in place; it fails, storing nothing, exactly when the id is falsy |
| Triggers.TriggerEngine.FireTrigger | src/Widgets/BarTracker/triggerEngine.js:125-156 | updates the state before running the actions, runs every action, and returns the cooldown timer; an unknown id changes nothing and schedules nothing |
| Triggers.TriggerEngine.EvaluateTriggers | src/Widgets/BarTracker/triggerEngine.js:85-120 | returns `FiredIds` of the engine as it was, and leaves the engine at `TriggerModel.Evaluate` |
| Triggers.TriggerEngine.EvaluateOne | src/Widgets/BarTracker/triggerEngine.js:88-117 | one pass of the loop fires the trigger exactly when it is enabled, idle and its conditions all hold |
| Triggers.TriggerEngine.ExpireCooldown | src/Widgets/BarTracker/triggerEngine.js:153-156 | performs `TriggerModel.Expire` in place |
| Triggers.TriggerEngine.SetTriggerEnabled | src/Widgets/BarTracker/triggerEngine.js:358-367 | performs `TriggerModel.SetEnabled` in place |
| Triggers.TriggerEngine.ToggleTrigger | src/Widgets/BarTracker/triggerEngine.js:369-379 | performs `TriggerModel.Toggle` in place and returns its value |
| Triggers.TriggerEngine.TestTrigger | src/Widgets/BarTracker/triggerEngine.js:450-481 | performs `TriggerModel.TestTrigger` in place; it schedules a timer exactly when it fires |
| Triggers.TriggerEngine.LoadSoundpack | src/Widgets/BarTracker/triggerEngine.js:279-318 | a successful fetch stores the mapping and makes it active; a failed fetch changes nothing |
| Triggers.TriggerEngine.SwitchSoundpack | src/Widgets/BarTracker/triggerEngine.js:323-343 | performs `TriggerModel.SwitchSoundpack` in place |
| PipelineProps.RouteExact | src/Widgets/BarTracker/eventHandler.js:114-133 | a message reaches a handler exactly when its tag is that handler's case label |
| PipelineModel.Route | src/Widgets/BarTracker/eventHandler.js:114-133 | no contract of its own: the `switch` on the tag; `PipelineProps.RouteExact` states it |
| PipelineModel.RecordOf | src/Widgets/BarTracker/eventHandler.js:60-65 | no contract of its own: the record stamped `now` with `frame` and `gameTime` defaulting to 0 and the whole message as data; `PipelineProps.ConditionsSeeUpdatedStore` shows it is what evaluation and the log receive |
| PipelineModel.AppendBounded | src/Widgets/BarTracker/eventHandler.js:83-86 | no contract of its own: the push and shift; `PipelineProps.AppendBoundedSpec` states it |
| PipelineModel.HandleMessage | src/Widgets/BarTracker/eventHandler.js:54-91 | no contract of its own: `PipelineProps.HistoryStep`, `BootstrapOnce`, `Throttle`, `ConditionsSeeUpdatedStore`, `SayFailureStopsMessage` and `PipelineKeepsIndex` state it |
| PipelineModel.UpdateGameState | src/Widgets/BarTracker/eventHandler.js:97-134 | no contract of its own: `PipelineProps.UpdateFrame` and `CompletedStore` state it |
| PipelineModel.Dispatch | src/Widgets/BarTracker/eventHandler.js:114-133 | no contract of its own: `PipelineProps.DispatchFrame` and the handler lemmas state it |
| PipelineModel.InitializeGame | src/Widgets/BarTracker/eventHandler.js:136-151 | no contract of its own: `initGame` with the message's player fields, then the flag; `PipelineProps.BootstrapOnce` states it |
| PipelineModel.SetClock | src/Widgets/BarTracker/eventHandler.js:106-111 | no contract of its own: game time and frame overwritten only when present; `PipelineProps.CompletedStore` places it |
| PipelineModel.UnitDataOf | src/Widgets/BarTracker/eventHandler.js:188-204 | no contract of its own: the unit fields `handleUnitFinished` passes to `addUnit`; `PipelineProps.UnitFinishedAddsUnit` states the stored unit |
| PipelineModel.HandleUnitFinished | src/Widgets/BarTracker/eventHandler.js:188-204 | no contract of its own: `PipelineProps.UnitFinishedAddsUnit` states it |
| PipelineModel.HandleUnitDamaged | src/Widgets/BarTracker/eventHandler.js:206-223 | no contract of its own: `PipelineProps.UnitDamagedDamagesUnit` states it |
| PipelineModel.HandleUnitDestroyed | src/Widgets/BarTracker/eventHandler.js:225-237 | no contract of its own: `PipelineProps.UnitDestroyedDestroysUnit` states it |
| PipelineModel.HandleFullStatsUpdate | src/Widgets/BarTracker/eventHandler.js:239-257 | no contract of its own: `PipelineProps.FullStatsRecordsMyTeam` and `Throttle` state it |
| PipelineModel.HandleOverflowStatusChanged | src/Widgets/BarTracker/eventHandler.js:153-170 | no contract of its own: `PipelineProps.OverflowSetsResourceStatus` and `SayFailureStopsMessage` state it |
| PipelineModel.HandleAllyStates | src/Widgets/BarTracker/eventHandler.js:172-186 | no contract of its own: no change for another tag, a throw for a missing `teams`, otherwise `AllyTeams`; `PipelineProps.OtherTagsKeepUnitsAndTeams` states it for the pipeline's tag |
| PipelineModel.AllyTeam | src/Widgets/BarTracker/eventHandler.js:175-183 | no contract of its own: one loop iteration; `PipelineProps.AllyTeamsAt` states the loop's result |
| PipelineModel.AllyTeams | src/Widgets/BarTracker/eventHandler.js:172-186 | no contract of its own: `PipelineProps.AllyTeamsAt` states it team by team |
| PipelineProps.AppendBoundedSpec | src/Widgets/BarTracker/eventHandler.js:83-86 | the push and shift keep at most 10000 records, end with the new one, and evict the oldest only when the history is full |
| PipelineProps.DispatchFrame | src/Widgets/BarTracker/eventHandler.js:114-133 | no handler touches the engine, the history, the log or the player identity; only the stats handler moves the throttle; only a throwing speech call makes the dispatch throw |
| PipelineProps.UpdateFrame | src/Widgets/BarTracker/eventHandler.js:97-134 | `updateGameState` sets the bootstrap flag once `myTeamID` is seen, leaves the engine and history alone, and throws only on a failed speech call |
| PipelineProps.HistoryStep | src/Widgets/BarTracker/eventHandler.js:54-91 | a malformed payload changes nothing; a message that completes appends exactly its own record to the bounded history, and any other leaves it as it was; the length never exceeds 10000 |
| PipelineProps.BootstrapOnce | src/Widgets/BarTracker/eventHandler.js:101-103 | the bootstrap flag becomes true on the first message with `myTeamID` and stays true; once set, the player identity never changes; the log grows by one for the bootstrap and one for a completed message |
| PipelineProps.Throttle | src/Widgets/BarTracker/eventHandler.js:250-256 | the throttle time changes exactly on a `FullStatsUpdate` more than 1000 ms after the last refresh, and then becomes `now` |
| PipelineProps.ConditionsSeeUpdatedStore | src/Widgets/BarTracker/eventHandler.js:67-74 | the triggers are evaluated on the store after the state update and the log append; the log grows by one untyped record holding the message; units and teams are as the state update left them |
| PipelineProps.SayFailureStopsMessage | src/Widgets/BarTracker/eventHandler.js:153-170 | when the speech call throws, the flag stays set but the record is neither logged, evaluated nor kept |
| PipelineProps.OverflowSetsResourceStatus | src/Widgets/BarTracker/eventHandler.js:155-159 | after an overflow notice, `getResourceStatus` reports the new flag for that resource and the old flag for the other, whether or not the speech call throws |
| PipelineProps.OtherTagsKeepUnitsAndTeams | src/Widgets/BarTracker/eventHandler.js:127-133 | overflow notices, ally broadcasts and unknown tags change neither units, teams nor the time series beyond the bootstrap |
| PipelineProps.UnitFinishedAddsUnit | src/Widgets/BarTracker/eventHandler.js:188-197 | a `UnitFinished` message stores a fresh unit under its id, of its team, with tier defaulting to 1 and cost to 0 |
| PipelineProps.UnitDamagedDamagesUnit | src/Widgets/BarTracker/eventHandler.js:206-212 | a `UnitDamaged` message raises a known unit's damage by the amount, marks it in combat and appends one sample; an unknown unit changes nothing |
| PipelineProps.UnitDestroyedDestroysUnit | src/Widgets/BarTracker/eventHandler.js:225-230 | a `UnitDestroyed` message marks a known unit destroyed by the attacker and keeps the set of ids; an unknown unit changes no unit or team |
| PipelineProps.FullStatsRecordsMyTeam | src/Widgets/BarTracker/eventHandler.js:239-247 | a `FullStatsUpdate` appends one sample for the player's team carrying the message's stats, if that team exists, and stamps the team with `now` |
| PipelineProps.CompletedStore | src/Widgets/BarTracker/eventHandler.js:67-71 | a completed message leaves the store as: bootstrap, clock, handler, then log append |
| PipelineProps.AllyTeamsAt | src/Widgets/BarTracker/eventHandler.js:172-186 | after the ally loop each team listed gets the name and snapshots of its last entry, a missing team is created as an ally stub, and unlisted teams are unchanged |
| PipelineProps.PipelineKeepsIndex | src/Widgets/BarTracker/eventHandler.js:54-91 | every message keeps the unit order well formed, the log index consistent and the log free of typed records other than `GameInitialized` |
| PipelineProps.PipelineKillWindowEmpty | src/Widgets/BarTracker/eventHandler.js:60-71 | in a store the pipeline built, `countKillsInWindow` is 0 for every unit and window |
| Pipeline.EventHandler.constructor | src/Widgets/BarTracker/eventHandler.js:7-20 | a new handler is not initialised, has throttle time 0 and an empty history |
| Pipeline.EventHandler.HandleMessage | src/Widgets/BarTracker/eventHandler.js:54-91 | performs `PipelineModel.HandleMessage` in place on the store, the engine and its own fields, and keeps the history within 10000 |
| Pipeline.EventHandler.LogAndEvaluate | src/Widgets/BarTracker/eventHandler.js:70-86 | logs the record, evaluates the triggers on the updated store, then pushes the record with the shift |
| Pipeline.EventHandler.UpdateGameState | src/Widgets/BarTracker/eventHandler.js:97-134 | performs `PipelineModel.UpdateGameState` in place and reports whether a handler threw |
| Pipeline.EventHandler.SetClock | src/Widgets/BarTracker/eventHandler.js:106-111 | overwrites the game time and the frame only when the message carries them |
| Pipeline.EventHandler.Dispatch | src/Widgets/BarTracker/eventHandler.js:114-133 | performs `PipelineModel.Dispatch` in place |
| Pipeline.EventHandler.InitializeGame | src/Widgets/BarTracker/eventHandler.js:136-151 | calls `initGame` with the message's player fields and sets the bootstrap flag |
| Pipeline.EventHandler.HandleUnitFinished | src/Widgets/BarTracker/eventHandler.js:188-204 | performs `PipelineModel.HandleUnitFinished` in place |
| Pipeline.EventHandler.HandleUnitDamaged | src/Widgets/BarTracker/eventHandler.js:206-223 | performs `PipelineModel.HandleUnitDamaged` in place |
| Pipeline.EventHandler.HandleUnitDestroyed | src/Widgets/BarTracker/eventHandler.js:225-237 | performs `PipelineModel.HandleUnitDestroyed` in place |
| Pipeline.EventHandler.HandleFullStatsUpdate | src/Widgets/BarTracker/eventHandler.js:239-257 | records the snapshot for the player's team and reports a UI refresh exactly when more than 1000 ms have passed |
| Pipeline.EventHandler.HandleOverflowStatusChanged | src/Widgets/BarTracker/eventHandler.js:153-170 | sets the flag, then reports whether the speech call threw |
| Pipeline.EventHandler.HandleAllyStates | src/Widgets/BarTracker/eventHandler.js:172-186 | acts only on `AllyStatsUpdate`, throws on a missing `teams`, and otherwise runs the loop as `PipelineModel.AllyTeams` |
| Pipeline.EventHandler.SetAllyTeam | src/Widgets/BarTracker/eventHandler.js:175-183 | fetches or creates the ally record, then overwrites its name and snapshots |
| Naming.Split | src/Widgets/BarTracker/eventHandler.js:522-529 | a split never yields an empty list |
| Naming.GetNameChars | src/Widgets/BarTracker/eventHandler.js:522-529 | `getName` keeps the length; each `_` becomes a space, each word's first character is upper-cased, and every other character is kept |
| Naming.GetNameHasNoUnderscore | src/Widgets/BarTracker/eventHandler.js:522-529 | a display name contains no `_` |
| Naming.SplitJoin | src/Widgets/BarTracker/eventHandler.js:522-529 | the pieces of a split contain no separator, and joining them with it gives the string back |
| Naming.GetName | src/Widgets/BarTracker/eventHandler.js:522-529 | no contract of its own: split at `_`, capitalize each word, join with spaces; `Naming.GetNameChars` and `GetNameHasNoUnderscore` state the result |
| Naming.Join | src/Widgets/BarTracker/eventHandler.js:522-529 | no contract of its own: `Naming.SplitJoin` proves it inverts `Split` |
| Naming.Capitalize | src/Widgets/BarTracker/eventHandler.js:522-529 | no contract of its own: `Naming.GetNameChars` states its effect on each word |
| Audio.Clamp | src/Widgets/BarTracker/eventHandler.js:514-516 | the volume is clamped to [0, 1]: kept when in range, moved to the nearer bound otherwise |
| Audio.AudioManager.constructor | src/Widgets/BarTracker/eventHandler.js:510-512 | a new manager starts at volume 0.8 |
| Audio.AudioManager.SetMasterVolume | src/Widgets/BarTracker/eventHandler.js:514-516 | the stored volume is the clamped value, in [0, 1] |

## Left out

- Transport: the `EventSource` connection and its callbacks are network I/O. The model starts from a message that is either malformed (`Raw.Malformed`) or parsed.
- Audio playback, the audio cache, Web Audio set-up and soundpack `fetch` are host I/O. The fetch result is the parameter `fetched`, and `playAudioForTrigger` and the `triggerFired` and `soundpackChanged` events are not modelled.
- Speech synthesis, visual effects and every `uiManager` call: `updateUI`, `handleTriggerFired` and the refresh inside `handleFullStatsUpdate` are assumed not to throw. The fired trigger ids are used only by the UI, so `Pipeline.EventHandler.HandleMessage` drops them.
- Pipeline.EventHandler.HandleMessage: does not return the cooldown timers its trigger evaluation schedules, because `setTimeout` is host scheduling. The host computes them with `TriggerModel.TimerFor` and applies `ExpireCooldown`.
- The store's pending-update batching fields are never read by the shown code.
- `getUnit`, `getTeam` and `getMyTeam` are plain Map lookups, which the model reads directly from the `units` and `teams` maps.
- `getDamageRateInWindow` divides in floating point. `StoreModel.DamageRateInWindow` divides exactly over the reals, so rounding is not modelled.
- Numbers are unbounded integers. JSON `null` is treated as absent. NaN is not a value: damage is always a number, and an ally-created team lacks numeric aggregates (`counters` is None) instead of holding NaN.
- Naming.Upper: upper-cases ASCII letters only, not the full Unicode case mapping of `toUpperCase`.
- The source reads `Date.now()` afresh at each use: for the pipeline record (`eventHandler.js:61`) and the stats throttle (`eventHandler.js:250`), twice inside `initGame` (`gameStateStore.js:66` and `71`), twice inside `updateTeamStats` (`308` and `312`), for the damage sample and the window cutoffs, and for `lastFired` in `fireTrigger` (`triggerEngine.js:137`). In the model every read made while one message is handled is the same `now`, so the small differences between them are not modelled.
- Object.entries key order and `parseInt`: an ally broadcast's `teams` is given as a sequence of (team id, entry) pairs in iteration order.
- An action or condition that re-enters the engine is not modelled, and neither is a non-boolean `enabled`. The `custom` flag a stored trigger carries is constant and is not modelled.
- Settings import/export, `getTriggerConfig`, roster helpers and the other methods called but not defined in the shown files are not part of this model.

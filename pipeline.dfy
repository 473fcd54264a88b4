/** The event pipeline as the object the overlay runs: it holds the store and
    the trigger engine it drives, the bootstrap flag, the stats throttle and
    the bounded history, and applies each message step by step in place.
    Every method is specified by the function of the same name in
    PipelineModel applied to the snapshot `View()`; what those functions
    promise is proved in PipelineProps. */
module Pipeline {
  import opened Js
  import opened Messages
  import opened StoreModel
  import opened TriggerModel
  import opened PipelineModel
  import opened Store
  import opened Triggers

  class EventHandler {
    /** the global `gameState` */
    const store: GameStateStore
    /** the global `triggerEngine` */
    const engine: TriggerEngine
    var gameInitialized: bool
    var lastStatsUpdate: int
    var eventHistory: seq<PipelineRecord>

    function View(): Pipeline
      reads this, store, engine
    {
      Pipeline(store.View(), engine.View(), gameInitialized, lastStatsUpdate, eventHistory)
    }

    ghost predicate Valid()
      reads this, store, engine
    {
      store.Valid() && engine.Valid() && |eventHistory| <= HistoryCap
    }

    constructor(store: GameStateStore, engine: TriggerEngine)
      requires store.Valid() && engine.Valid()
      ensures this.store == store && this.engine == engine
      ensures !gameInitialized && lastStatsUpdate == 0 && eventHistory == []
      ensures Valid()
    {
      this.store := store;
      this.engine := engine;
      gameInitialized := false;
      lastStatsUpdate := 0;
      eventHistory := [];
    }

    /** `handleMessage`. The fired trigger ids are only shown by the UI, so
        they are dropped here. */
    method HandleMessage(raw: Raw, now: int, sayThrows: string -> bool,
                         verdict: (Condition, Observation) -> Verdict,
                         throws: (Action, Observation, FireState) -> bool)
      requires Valid()
      modifies this, store, engine
      ensures View() == PipelineModel.HandleMessage(old(View()), raw, now, sayThrows, verdict) && Valid()
    {
      if raw.Malformed? {
        return;
      }
      var d := raw.data;
      var rec := RecordOf(d, now);
      var threw := UpdateGameState(d, now, sayThrows);
      if threw {
        return;
      }
      LogAndEvaluate(rec, now, verdict, throws);
    }

    /** The steps of `handleMessage` after a state update that did not
        throw: log the record, evaluate the triggers on the updated store,
        append the record to the bounded history. */
    method LogAndEvaluate(rec: PipelineRecord, now: int, verdict: (Condition, Observation) -> Verdict,
                          throws: (Action, Observation, FireState) -> bool)
      requires Valid()
      modifies this, store, engine
      ensures var v := StoreModel.LogEvent(old(store.View()), LogInputOf(rec), now);
        View() == old(View()).(store := v, engine := Evaluate(old(engine.View()), verdict, Observation(rec, v), now),
                               history := AppendBounded(old(eventHistory), rec))
      ensures Valid()
    {
      var _ := store.LogEvent(LogInputOf(rec), now);
      var _ := engine.EvaluateTriggers(Observation(rec, store.View()), now, verdict, throws);
      eventHistory := eventHistory + [rec];
      if |eventHistory| > HistoryCap {
        eventHistory := eventHistory[1..];
      }
    }

    /** `updateGameState`; reports whether a handler threw. */
    method UpdateGameState(d: Payload, now: int, sayThrows: string -> bool) returns (threw: bool)
      requires Valid()
      modifies this, store
      ensures Update(View(), threw) == PipelineModel.UpdateGameState(old(View()), d, now, sayThrows) && Valid()
    {
      ghost var p0 := View();
      if !gameInitialized && d.myTeamID.Some? {
        InitializeGame(d, now);
      }
      ghost var p1 := View();
      assert p1 == if Bootstraps(p0, d) then PipelineModel.InitializeGame(p0, d, now) else p0;
      SetClock(d);
      threw := Dispatch(d, now, sayThrows);
    }

    /** The frame and game time written into the store by `updateGameState`. */
    method SetClock(d: Payload)
      requires Valid()
      modifies store
      ensures View() == old(View()).(store := PipelineModel.SetClock(old(View()).store, d)) && Valid()
    {
      if d.gameTime.Some? {
        store.gameState := store.gameState.(gameTime := d.gameTime.value);
      }
      if d.frame.Some? {
        store.gameState := store.gameState.(frame := d.frame.value);
      }
    }

    /** The `switch` at the end of `updateGameState`. */
    method Dispatch(d: Payload, now: int, sayThrows: string -> bool) returns (threw: bool)
      requires Valid()
      modifies this, store
      ensures Update(View(), threw) == PipelineModel.Dispatch(old(View()), d, now, sayThrows) && Valid()
    {
      threw := false;
      match Route(d.event)
      case None =>
      case Some(UnitFinished) =>
        HandleUnitFinished(d);
      case Some(UnitDamaged) =>
        HandleUnitDamaged(d, now);
      case Some(UnitDestroyed) =>
        HandleUnitDestroyed(d);
      case Some(FullStatsUpdate) =>
        var _ := HandleFullStatsUpdate(d, now);
      case Some(OverflowStatusChanged) =>
        threw := HandleOverflowStatusChanged(d, sayThrows);
      case Some(AllyStates) =>
        threw := HandleAllyStates(d);
    }

    /** `initializeGame` */
    method InitializeGame(d: Payload, now: int)
      requires Valid() && d.myTeamID.Some?
      modifies this, store
      ensures View() == PipelineModel.InitializeGame(old(View()), d, now) && Valid()
    {
      store.InitGame(InfoOf(d), now);
      gameInitialized := true;
    }

    /** `handleUnitFinished` */
    method HandleUnitFinished(d: Payload)
      requires Valid()
      modifies store
      ensures View() == PipelineModel.HandleUnitFinished(old(View()), d) && Valid()
    {
      var _ := store.AddUnit(d.unitID, UnitDataOf(d));
    }

    /** `handleUnitDamaged` */
    method HandleUnitDamaged(d: Payload, now: int)
      requires Valid()
      modifies store
      ensures View() == PipelineModel.HandleUnitDamaged(old(View()), d, now) && Valid()
    {
      var _ := store.DamageUnit(d.unitID, d.damage, d.attackerID, d.attackerTeam, now);
    }

    /** `handleUnitDestroyed` */
    method HandleUnitDestroyed(d: Payload)
      requires Valid()
      modifies store
      ensures View() == PipelineModel.HandleUnitDestroyed(old(View()), d) && Valid()
    {
      var _ := store.DestroyUnit(d.unitID, d.attackerID, d.attackerTeam);
    }

    /** `handleFullStatsUpdate`; reports whether the UI refresh ran. */
    method HandleFullStatsUpdate(d: Payload, now: int) returns (refreshed: bool)
      requires Valid()
      modifies this, store
      ensures View() == PipelineModel.HandleFullStatsUpdate(old(View()), d, now) && Valid()
      ensures refreshed <==> Refreshes(old(lastStatsUpdate), now)
    {
      store.UpdateTeamStats(store.gameState.myTeamID, StatsSnapshot(d.metal, d.energy, d.combat), now);
      refreshed := now - lastStatsUpdate > StatsUpdateInterval;
      if refreshed {
        lastStatsUpdate := now;
      }
    }

    /** `handleOverflowStatusChanged`; reports whether the speech call threw. */
    method HandleOverflowStatusChanged(d: Payload, sayThrows: string -> bool) returns (threw: bool)
      requires Valid()
      modifies store
      ensures Update(View(), threw) == PipelineModel.HandleOverflowStatusChanged(old(View()), d, sayThrows) && Valid()
    {
      if d.resource == Some("metal") {
        store.gameState := store.gameState.(overflowMetal := d.overflowMetal == Some("1"));
      } else if d.resource == Some("energy") {
        store.gameState := store.gameState.(overflowEnergy := d.overflowEnergy == Some("1"));
      }
      threw := sayThrows(Announcement(d));
    }

    /** `handleAllyStates`: the loop over the broadcast's teams; reports
        whether `Object.entries` threw on a missing `teams`. */
    method HandleAllyStates(d: Payload) returns (threw: bool)
      requires Valid()
      modifies store
      ensures Update(View(), threw) == PipelineModel.HandleAllyStates(old(View()), d) && Valid()
    {
      if d.event != Some("AllyStatsUpdate") {
        return false;
      }
      if d.teams.None? {
        return true;
      }
      var entries := d.teams.value;
      for i := 0 to |entries|
        invariant store.View() == old(store.View()).(teams := AllyTeams(old(store.teams), entries[..i]))
        invariant store.Valid()
      {
        SetAllyTeam(entries[i].0, entries[i].1);
        assert entries[..i + 1][..i] == entries[..i];
      }
      assert entries[..|entries|] == entries;
      threw := false;
    }

    /** One iteration of the ally loop: fetch or create the team record,
        then overwrite its name and snapshot. */
    method SetAllyTeam(id: TeamId, entry: AllyEntry)
      requires store.Valid()
      modifies store
      ensures store.View() == old(store.View()).(teams := AllyTeam(old(store.teams), id, entry))
      ensures store.Valid()
    {
      var team: Team;
      if id in store.teams {
        team := store.teams[id];
      } else {
        team := AllyStub(id);
        store.teams := store.teams[id := team];
      }
      store.teams := store.teams[id := team.(playerName := entry.playerName,
                                             metalStats := entry.metal, energyStats := entry.energy)];
    }
  }
}

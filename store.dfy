/** The game state store as the object the overlay mutates: its collections
    are fields, and each mutator updates them in place in the order the
    source does. Every method is specified by the transition of the same
    name in StoreModel, applied to the snapshot `View()`; the properties of
    those transitions are proved in StoreModel and StoreInvariants. */
module Store {
  import opened Js
  import opened Messages
  import opened StoreModel
  import opened StoreInvariants

  class GameStateStore {
    var units: map<UnitKey, Unit>
    /** insertion order of `units`, which Map iteration follows */
    var unitOrder: seq<UnitKey>
    var teams: map<TeamId, Team>
    var events: seq<LogRecord>
    var eventIndex: map<Option<string>, seq<nat>>
    var statsHistory: seq<StatsSample>
    var damageHistory: seq<DamageSample>
    var gameState: GameState

    function View(): StoreView
      reads this
    {
      StoreView(units, unitOrder, teams, events, eventIndex, statsHistory, damageHistory, gameState)
    }

    /** The shape every mutator keeps: the unit order lists each stored key
        once and the type index agrees with the log. */
    ghost predicate Valid()
      reads this
    {
      WellFormed(View()) && IndexConsistent(View())
    }

    constructor()
      ensures View() == EmptyStore && Valid()
    {
      units := map[];
      unitOrder := [];
      teams := map[];
      events := [];
      eventIndex := map[];
      statsHistory := [];
      damageHistory := [];
      gameState := InitialGameState;
    }

    /** `logEvent`; returns the stored record. */
    method LogEvent(input: LogInput, now: int) returns (rec: LogRecord)
      requires Valid()
      modifies this
      ensures View() == StoreModel.LogEvent(old(View()), input, now) && Valid()
      ensures rec == events[|old(events)|] && rec.id == |old(events)|
    {
      LogEventKeepsIndex(View(), input, now);
      rec := LogRecord(|events|, if TruthyInt(input.timestamp) then input.timestamp.value else now,
                       gameState.frame, gameState.gameTime, input.event, input);
      events := events + [rec];
      if input.event !in eventIndex {
        eventIndex := eventIndex[input.event := []];
      }
      eventIndex := eventIndex[input.event := eventIndex[input.event] + [rec.id]];
    }

    /** `initGame` */
    method InitGame(info: PlayerInfo, now: int)
      requires Valid()
      modifies this
      ensures View() == StoreModel.InitGame(old(View()), info, now) && Valid()
    {
      gameState := gameState.(myTeamID := info.myTeamID, myPlayerID := info.myPlayerID,
                              allyTeamID := info.allyTeamID, playerName := info.playerName,
                              gameStarted := true);
      teams := teams[info.myTeamID := MyTeamRecord(info, now)];
      var _ := LogEvent(LogInput(Some("GameInitialized"), Some(now), InitBody(info)), now);
    }

    /** `addUnit`; returns the stored unit. */
    method AddUnit(id: UnitKey, data: UnitData) returns (u: Unit)
      requires Valid()
      modifies this
      ensures View() == StoreModel.AddUnit(old(View()), id, data) && Valid()
      ensures u == units[id]
    {
      AddUnitWellFormed(View(), id, data);
      ghost var target := StoreModel.AddUnit(View(), id, data);
      u := NewUnit(id, data, gameState.gameTime);
      if id !in units {
        unitOrder := unitOrder + [id];
      }
      units := units[id := u];
      AdjustTeam(u.teamID, AddedDelta(u.metalCost));
      assert units == target.units && unitOrder == target.unitOrder && teams == target.teams;
    }

    /** `destroyUnit`; returns the updated unit, or None (`null`) for an
        unknown id. */
    method DestroyUnit(id: UnitKey, attackerID: Option<int>, attackerTeam: Option<int>) returns (r: Option<Unit>)
      requires Valid()
      modifies this
      ensures View() == StoreModel.DestroyUnit(old(View()), id, attackerID, attackerTeam) && Valid()
      ensures r.None? <==> id !in old(units)
      ensures r.Some? ==> r.value == units[id] && r.value.destroyed && r.value.destroyedBy == attackerID
    {
      DestroyUnitWellFormed(View(), id, attackerID, attackerTeam);
      if id !in units {
        return None;
      }
      var unit := units[id];
      unit := unit.(destroyed := true, destroyedAt := Some(gameState.gameTime),
                    destroyedBy := attackerID, destroyedByTeam := attackerTeam);
      units := units[id := unit];
      AdjustTeam(unit.teamID, LostDelta(unit.metalCost));
      if TruthyInt(attackerTeam) {
        AdjustTeam(attackerTeam, KillDelta);
      }
      r := Some(unit);
    }

    /** `damageUnit`; returns the updated unit, or None for an unknown id.
        `now` is the wall-clock time stamped on the damage sample. */
    method DamageUnit(id: UnitKey, damage: int, attackerID: Option<int>, attackerTeam: Option<int>, now: int)
      returns (r: Option<Unit>)
      requires Valid()
      modifies this
      ensures View() == StoreModel.DamageUnit(old(View()), id, damage, attackerID, attackerTeam, now) && Valid()
      ensures r.None? <==> id !in old(units)
      ensures r.Some? ==> r.value == units[id] && r.value.damageTaken == old(units[id].damageTaken) + damage
    {
      if id !in units {
        return None;
      }
      var unit := units[id];
      unit := unit.(damageTaken := unit.damageTaken + damage, lastDamagedAt := Some(gameState.gameTime),
                    lastDamagedBy := attackerID, inCombat := true);
      units := units[id := unit];
      AdjustTeam(attackerTeam, DealtDelta(damage));
      AdjustTeam(unit.teamID, TakenDelta(damage));
      damageHistory := damageHistory + [DamageSample(now, gameState.frame, attackerID, attackerTeam, id, unit.teamID, damage)];
      r := Some(unit);
    }

    /** Add `d` to the aggregates of team `t` when the store has it. */
    method AdjustTeam(t: Option<int>, d: Counters)
      modifies this
      ensures View() == old(View()).(teams := AdjustIfPresent(old(teams), t, d))
    {
      if t.Some? && t.value in teams {
        var team := teams[t.value];
        teams := teams[t.value := Adjust(team, d)];
      }
    }

    /** `updateTeamStats` */
    method UpdateTeamStats(teamID: TeamId, stats: StatsSnapshot, now: int)
      requires Valid()
      modifies this
      ensures View() == StoreModel.UpdateTeamStats(old(View()), teamID, stats, now) && Valid()
    {
      if teamID in teams {
        var team := teams[teamID];
        team := team.(metalStats := Some(stats.metal.GetOr(EmptyStats)),
                      energyStats := Some(stats.energy.GetOr(EmptyStats)),
                      lastUpdate := Some(now));
        teams := teams[teamID := team];
        statsHistory := statsHistory + [StatsSample(now, gameState.frame, teamID, stats)];
      }
    }

    /** `reset` */
    method Reset()
      modifies this
      ensures View() == StoreModel.Reset(old(View())) && Valid()
    {
      units := map[];
      unitOrder := [];
      teams := map[];
      events := [];
      eventIndex := map[];
      statsHistory := [];
      damageHistory := [];
    }
  }
}

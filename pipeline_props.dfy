/** What the pipeline promises about one message: routing by exact tag, the
    bounded history, the single bootstrap, the stats throttle, the failure
    paths, the order of the steps, and what each handler does to the store. */
module PipelineProps {
  import opened Js
  import opened Messages
  import opened StoreModel
  import opened StoreInvariants
  import opened TriggerModel
  import opened PipelineModel

  // ---------------------------------------------------------------------
  // Routing and history
  // ---------------------------------------------------------------------

  /** A message reaches a handler exactly when it carries that handler's tag. */
  lemma RouteExact(event: Option<string>, h: Handler)
    ensures Route(event) == Some(h) <==> event == Some(TagOf(h))
  {
  }

  /** The history keeps at most `HistoryCap` records, always ends with the
      newest one, and evicts only the oldest one when full. */
  lemma AppendBoundedSpec(h: seq<PipelineRecord>, rec: PipelineRecord)
    requires |h| <= HistoryCap
    ensures |AppendBounded(h, rec)| <= HistoryCap
    ensures AppendBounded(h, rec)[|AppendBounded(h, rec)| - 1] == rec
    ensures |h| < HistoryCap ==> AppendBounded(h, rec) == h + [rec]
    ensures |h| == HistoryCap ==> AppendBounded(h, rec) == h[1..] + [rec]
  {
  }

  /** The store the handlers run on: after the bootstrap, if any. */
  function Base(p: Pipeline, d: Payload, now: int): StoreView {
    if Bootstraps(p, d) then InitializeGame(p, d, now).store else p.store
  }

  /** The identity fields only `initGame` writes. */
  function Identity(gs: GameState): (int, Option<int>, Option<int>, Option<string>, bool) {
    (gs.myTeamID, gs.myPlayerID, gs.allyTeamID, gs.playerName, gs.gameStarted)
  }

  /** The parts of the pipeline a routed handler never touches. */
  ghost predicate KeepsFrame(p: Pipeline, q: Pipeline) {
    && q.engine == p.engine && q.history == p.history && q.initialized == p.initialized
    && q.store.events == p.store.events && q.store.eventIndex == p.store.eventIndex
    && Identity(q.store.gameState) == Identity(p.store.gameState)
  }

  /** What the routed handlers leave alone, whichever of them runs. */
  lemma DispatchFrame(p: Pipeline, d: Payload, now: int, sayThrows: string -> bool)
    ensures var u := Dispatch(p, d, now, sayThrows);
      && KeepsFrame(p, u.next)
      && (u.next.lastStatsUpdate != p.lastStatsUpdate ==>
            Route(d.event) == Some(FullStatsUpdate) && u.next.lastStatsUpdate == now)
      && (Route(d.event) == Some(FullStatsUpdate) ==>
            u.next.lastStatsUpdate == if Refreshes(p.lastStatsUpdate, now) then now else p.lastStatsUpdate)
      && (u.threw <==> Route(d.event) == Some(OverflowStatusChanged) && sayThrows(Announcement(d)))
  {
    var u := Dispatch(p, d, now, sayThrows);
    match Route(d.event)
    case None =>
    case Some(UnitFinished) =>
      assert u.next == HandleUnitFinished(p, d);
    case Some(UnitDamaged) =>
      assert u.next == HandleUnitDamaged(p, d, now);
    case Some(UnitDestroyed) =>
      assert u.next == HandleUnitDestroyed(p, d);
    case Some(FullStatsUpdate) =>
      assert u.next == HandleFullStatsUpdate(p, d, now);
    case Some(OverflowStatusChanged) =>
      assert u == HandleOverflowStatusChanged(p, d, sayThrows);
    case Some(AllyStates) =>
      assert d.event == Some("AllyStatesUpdate");
      assert u == Update(p, false);
  }

  /** The shape of `updateGameState`: the handlers run on the bootstrapped
      store, with its clock set from the message. */
  lemma UpdateFrame(p: Pipeline, d: Payload, now: int, sayThrows: string -> bool)
    ensures var u := UpdateGameState(p, d, now, sayThrows);
      && u.next.engine == p.engine && u.next.history == p.history
      && u.next.initialized == (p.initialized || d.myTeamID.Some?)
      && u.next.store.events == Base(p, d, now).events && u.next.store.eventIndex == Base(p, d, now).eventIndex
      && Identity(u.next.store.gameState) == Identity(Base(p, d, now).gameState)
      && (u.next.lastStatsUpdate != p.lastStatsUpdate ==>
            Route(d.event) == Some(FullStatsUpdate) && u.next.lastStatsUpdate == now)
      && (Route(d.event) == Some(FullStatsUpdate) ==>
            u.next.lastStatsUpdate == if Refreshes(p.lastStatsUpdate, now) then now else p.lastStatsUpdate)
      && (u.threw <==> Route(d.event) == Some(OverflowStatusChanged) && sayThrows(Announcement(d)))
  {
    var p1 := if Bootstraps(p, d) then InitializeGame(p, d, now) else p;
    DispatchFrame(p1.(store := SetClock(p1.store, d)), d, now, sayThrows);
  }

  /** Whether a message runs to the end of `handleMessage`: it parses and the
      speech call of an overflow notice does not throw. */
  predicate Completes(raw: Raw, sayThrows: string -> bool) {
    raw.Parsed? && !(Route(raw.data.event) == Some(OverflowStatusChanged) && sayThrows(Announcement(raw.data)))
  }

  /** A message that does not parse changes nothing. Each message that
      completes appends exactly its own record to the bounded history; any
      other leaves the history as it was. */
  lemma HistoryStep(p: Pipeline, raw: Raw, now: int, sayThrows: string -> bool,
                    verdict: (Condition, Observation) -> Verdict)
    requires |p.history| <= HistoryCap
    ensures raw.Malformed? ==> HandleMessage(p, raw, now, sayThrows, verdict) == p
    ensures HandleMessage(p, raw, now, sayThrows, verdict).history ==
      if Completes(raw, sayThrows) then AppendBounded(p.history, RecordOf(raw.data, now)) else p.history
    ensures |HandleMessage(p, raw, now, sayThrows, verdict).history| <= HistoryCap
  {
    if raw.Parsed? {
      UpdateFrame(p, raw.data, now, sayThrows);
      AppendBoundedSpec(p.history, RecordOf(raw.data, now));
    }
  }

  // ---------------------------------------------------------------------
  // Bootstrap and throttle
  // ---------------------------------------------------------------------

  /** The game is bootstrapped by the first parsed message that carries
      `myTeamID` and by no later one: the flag never falls back, later
      messages keep the player's identity, and exactly one initialisation
      record is logged, by the bootstrapping message only. */
  lemma BootstrapOnce(p: Pipeline, raw: Raw, now: int, sayThrows: string -> bool,
                      verdict: (Condition, Observation) -> Verdict)
    ensures var r := HandleMessage(p, raw, now, sayThrows, verdict);
      && (r.initialized <==> p.initialized || (raw.Parsed? && raw.data.myTeamID.Some?))
      && (p.initialized ==> Identity(r.store.gameState) == Identity(p.store.gameState))
      && |r.store.events| == |p.store.events|
           + (if raw.Parsed? && Bootstraps(p, raw.data) then 1 else 0)
           + (if Completes(raw, sayThrows) then 1 else 0)
    ensures raw.Parsed? && Bootstraps(p, raw.data) ==>
      var r := HandleMessage(p, raw, now, sayThrows, verdict);
      && r.store.gameState.myTeamID == raw.data.myTeamID.value
      && r.store.events[|p.store.events|].eventType == Some("GameInitialized")
  {
    if raw.Parsed? {
      var d := raw.data;
      UpdateFrame(p, d, now, sayThrows);
      var u := UpdateGameState(p, d, now, sayThrows);
      if Bootstraps(p, d) {
        var v := InitializeGame(p, d, now).store;
        assert Identity(u.next.store.gameState) == Identity(v.gameState);
        assert u.next.store.events == v.events;
        if !u.threw {
          var w := LogEvent(u.next.store, LogInputOf(RecordOf(d, now)), now);
          assert w.events[..|u.next.store.events|] == u.next.store.events;
          assert w.events[|p.store.events|] == u.next.store.events[|p.store.events|];
        }
      }
    }
  }

  /** The stats refresh happens on a `FullStatsUpdate` message exactly when
      more than the interval has passed since the previous refresh, which
      then moves to `now`; nothing else moves the throttle. So two refreshes
      are always more than `StatsUpdateInterval` apart. */
  lemma Throttle(p: Pipeline, raw: Raw, now: int, sayThrows: string -> bool,
                 verdict: (Condition, Observation) -> Verdict)
    ensures var r := HandleMessage(p, raw, now, sayThrows, verdict);
      && (r.lastStatsUpdate != p.lastStatsUpdate <==>
            raw.Parsed? && Route(raw.data.event) == Some(FullStatsUpdate) && Refreshes(p.lastStatsUpdate, now))
      && (r.lastStatsUpdate != p.lastStatsUpdate ==>
            r.lastStatsUpdate == now && now > p.lastStatsUpdate + StatsUpdateInterval)
  {
    if raw.Parsed? {
      UpdateFrame(p, raw.data, now, sayThrows);
    }
  }

  // ---------------------------------------------------------------------
  // Order of the steps and the failure path
  // ---------------------------------------------------------------------

  /** In a message that completes, the triggers are evaluated after the
      state update and after the record is logged: the conditions observe the
      final store, whose last log entry is this message's untagged record,
      logged on top of the updated store. */
  lemma ConditionsSeeUpdatedStore(p: Pipeline, d: Payload, now: int, sayThrows: string -> bool,
                                  verdict: (Condition, Observation) -> Verdict)
    requires Completes(Parsed(d), sayThrows)
    ensures var r := HandleMessage(p, Parsed(d), now, sayThrows, verdict);
      var updated := UpdateGameState(p, d, now, sayThrows).next.store;
      && r.engine == Evaluate(p.engine, verdict, Observation(RecordOf(d, now), r.store), now)
      && |r.store.events| == |updated.events| + 1
      && r.store.events[..|updated.events|] == updated.events
      && r.store.events[|updated.events|].data == LogInputOf(RecordOf(d, now))
      && r.store.events[|updated.events|].eventType == None
      && r.store.units == updated.units && r.store.teams == updated.teams
  {
    UpdateFrame(p, d, now, sayThrows);
  }

  /** When the speech call of an overflow notice throws, the flag and any
      bootstrap made before it stay, while the record is neither logged nor
      evaluated nor kept in the history. */
  lemma SayFailureStopsMessage(p: Pipeline, d: Payload, now: int, sayThrows: string -> bool,
                               verdict: (Condition, Observation) -> Verdict)
    requires Route(d.event) == Some(OverflowStatusChanged) && sayThrows(Announcement(d))
    ensures var r := HandleMessage(p, Parsed(d), now, sayThrows, verdict);
      && r.history == p.history && r.engine == p.engine
      && r.store.events == Base(p, d, now).events
      && (d.resource == Some("metal") ==> r.store.gameState.overflowMetal == (d.overflowMetal == Some("1")))
      && (d.resource == Some("energy") ==> r.store.gameState.overflowEnergy == (d.overflowEnergy == Some("1")))
  {
    UpdateFrame(p, d, now, sayThrows);
  }

  /** An overflow notice sets the flag `getResourceStatus` reports for its
      resource, leaves the other one, and does so whether or not the
      speech call throws. */
  lemma OverflowSetsResourceStatus(p: Pipeline, d: Payload, now: int, sayThrows: string -> bool,
                                   verdict: (Condition, Observation) -> Verdict)
    requires Route(d.event) == Some(OverflowStatusChanged)
    ensures var r := HandleMessage(p, Parsed(d), now, sayThrows, verdict).store;
      var base := Base(p, d, now);
      && ResourceStatus(r, "metal") ==
           (if d.resource == Some("metal") then d.overflowMetal == Some("1") else base.gameState.overflowMetal)
      && ResourceStatus(r, "energy") ==
           (if d.resource == Some("energy") then d.overflowEnergy == Some("1") else base.gameState.overflowEnergy)
  {
    OverflowGameState(p, d, now, sayThrows, verdict);
  }

  /** After an overflow notice the game state is the flag update applied to
      the clocked state, on both paths. */
  lemma OverflowGameState(p: Pipeline, d: Payload, now: int, sayThrows: string -> bool,
                          verdict: (Condition, Observation) -> Verdict)
    requires Route(d.event) == Some(OverflowStatusChanged)
    ensures HandleMessage(p, Parsed(d), now, sayThrows, verdict).store.gameState ==
      SetOverflow(Clocked(p, d, now).store, d).gameState
  {
    var q := Clocked(p, d, now);
    assert UpdateGameState(p, d, now, sayThrows) == HandleOverflowStatusChanged(q, d, sayThrows);
    if !sayThrows(Announcement(d)) {
      CompletedStore(p, d, now, sayThrows, verdict);
    }
  }

  // ---------------------------------------------------------------------
  // What each tag does to units and teams
  // ---------------------------------------------------------------------

  /** Tags without a unit or stats handler (overflow notices, ally
      broadcasts, unknown tags) change neither units, teams nor the two time
      series beyond what a bootstrap does. In particular an ally broadcast,
      dispatched as `AllyStatesUpdate` but acted on only as
      `AllyStatsUpdate`, never changes a team. */
  lemma OtherTagsKeepUnitsAndTeams(p: Pipeline, d: Payload, now: int, sayThrows: string -> bool,
                                   verdict: (Condition, Observation) -> Verdict)
    requires Route(d.event).None? || Route(d.event) == Some(OverflowStatusChanged) || Route(d.event) == Some(AllyStates)
    ensures var r := HandleMessage(p, Parsed(d), now, sayThrows, verdict);
      var base := Base(p, d, now);
      && r.store.units == base.units && r.store.unitOrder == base.unitOrder && r.store.teams == base.teams
      && r.store.statsHistory == base.statsHistory && r.store.damageHistory == base.damageHistory
  {
    var q := if Bootstraps(p, d) then InitializeGame(p, d, now) else p;
    var p2 := q.(store := SetClock(q.store, d));
    assert UpdateGameState(p, d, now, sayThrows) == Dispatch(p2, d, now, sayThrows);
    DispatchOtherKeeps(p2, d, now, sayThrows);
  }

  lemma DispatchOtherKeeps(p: Pipeline, d: Payload, now: int, sayThrows: string -> bool)
    requires Route(d.event).None? || Route(d.event) == Some(OverflowStatusChanged) || Route(d.event) == Some(AllyStates)
    ensures var s := Dispatch(p, d, now, sayThrows).next.store;
      && s.units == p.store.units && s.unitOrder == p.store.unitOrder && s.teams == p.store.teams
      && s.statsHistory == p.store.statsHistory && s.damageHistory == p.store.damageHistory
  {
    if Route(d.event) == Some(AllyStates) {
      assert d.event == Some("AllyStatesUpdate");
    }
  }

  /** `UnitFinished` stores a fresh unit under the message's id, with tier
      defaulting to 1 and cost to 0. */
  lemma UnitFinishedAddsUnit(p: Pipeline, d: Payload, now: int, sayThrows: string -> bool,
                             verdict: (Condition, Observation) -> Verdict)
    requires d.event == Some("UnitFinished")
    ensures d.unitID in HandleMessage(p, Parsed(d), now, sayThrows, verdict).store.units
    ensures var u := HandleMessage(p, Parsed(d), now, sayThrows, verdict).store.units[d.unitID];
      && u.unitID == d.unitID && u.teamID == d.unitTeam && u.unitName == d.unitName
      && u.unitTier == OrInt(d.unitTier, 1) && u.metalCost == OrInt(d.unitMetalCost, 0)
      && !u.destroyed && u.damageTaken == 0
  {
    var base := Base(p, d, now);
    var data := UnitDataOf(d);
    assert TruthyInt(data.unitTier) && data.unitTier.value == OrInt(d.unitTier, 1);
  }

  /** `UnitDamaged` adds the message's damage to a known unit, or changes no
      unit at all. */
  lemma UnitDamagedDamagesUnit(p: Pipeline, d: Payload, now: int, sayThrows: string -> bool,
                               verdict: (Condition, Observation) -> Verdict)
    requires d.event == Some("UnitDamaged")
    ensures var r := HandleMessage(p, Parsed(d), now, sayThrows, verdict);
      && (d.unitID in p.store.units ==>
            && d.unitID in r.store.units
            && r.store.units[d.unitID].damageTaken == p.store.units[d.unitID].damageTaken + d.damage
            && r.store.units[d.unitID].inCombat
            && |r.store.damageHistory| == |p.store.damageHistory| + 1)
      && (d.unitID !in p.store.units ==>
            r.store.units == p.store.units && r.store.damageHistory == p.store.damageHistory)
  {
    var base := Base(p, d, now);
    assert base.units == p.store.units && base.damageHistory == p.store.damageHistory;
  }

  /** `UnitDestroyed` flags a known unit destroyed by the message's
      attacker, or changes no unit at all. */
  lemma UnitDestroyedDestroysUnit(p: Pipeline, d: Payload, now: int, sayThrows: string -> bool,
                                  verdict: (Condition, Observation) -> Verdict)
    requires d.event == Some("UnitDestroyed")
    ensures var r := HandleMessage(p, Parsed(d), now, sayThrows, verdict);
      && (d.unitID in p.store.units ==>
            && d.unitID in r.store.units
            && r.store.units[d.unitID].destroyed && r.store.units[d.unitID].destroyedBy == d.attackerID
            && r.store.units.Keys == p.store.units.Keys)
      && (d.unitID !in p.store.units ==> r.store.units == p.store.units && r.store.teams == Base(p, d, now).teams)
  {
    var p2 := Clocked(p, d, now);
    CompletedStore(p, d, now, sayThrows, verdict);
    var s := DestroyUnit(p2.store, d.unitID, d.attackerID, d.attackerTeam);
    assert Dispatch(p2, d, now, sayThrows).next.store == s;
    LogEventKeepsUnits(s, LogInputOf(RecordOf(d, now)), now);
    assert p2.store.units == p.store.units && p2.store.teams == Base(p, d, now).teams;
  }

  /** `FullStatsUpdate` records the snapshot for the player's own team: one
      sample is appended when that team exists, none otherwise. */
  lemma FullStatsRecordsMyTeam(p: Pipeline, d: Payload, now: int, sayThrows: string -> bool,
                               verdict: (Condition, Observation) -> Verdict)
    requires d.event == Some("FullStatsUpdate")
    ensures var r := HandleMessage(p, Parsed(d), now, sayThrows, verdict);
      var me := r.store.gameState.myTeamID;
      && |r.store.statsHistory| == |p.store.statsHistory| + (if me in r.store.teams then 1 else 0)
      && (me in r.store.teams ==>
            && r.store.statsHistory[|p.store.statsHistory|].teamID == me
            && r.store.statsHistory[|p.store.statsHistory|].stats == StatsSnapshot(d.metal, d.energy, d.combat)
            && r.store.teams[me].lastUpdate == Some(now))
  {
    var p2 := Clocked(p, d, now);
    CompletedStore(p, d, now, sayThrows, verdict);
    var s := UpdateTeamStats(p2.store, p2.store.gameState.myTeamID, StatsSnapshot(d.metal, d.energy, d.combat), now);
    assert Dispatch(p2, d, now, sayThrows).next.store == s;
    LogEventKeepsUnits(s, LogInputOf(RecordOf(d, now)), now);
    assert p2.store.statsHistory == p.store.statsHistory;
  }

  /** Logging touches nothing but the log. */
  lemma LogEventKeepsUnits(v: StoreView, input: LogInput, now: int)
    ensures var r := LogEvent(v, input, now);
      && r.units == v.units && r.unitOrder == v.unitOrder && r.teams == v.teams
      && r.statsHistory == v.statsHistory && r.damageHistory == v.damageHistory && r.gameState == v.gameState
  {
  }

  /** The state `Dispatch` starts from: bootstrapped, with the clock set. */
  function Clocked(p: Pipeline, d: Payload, now: int): Pipeline {
    var q := if Bootstraps(p, d) then InitializeGame(p, d, now) else p;
    q.(store := SetClock(q.store, d))
  }

  /** The store after a completed message: the handler's store, plus the log
      entry. */
  lemma CompletedStore(p: Pipeline, d: Payload, now: int, sayThrows: string -> bool,
                       verdict: (Condition, Observation) -> Verdict)
    requires Completes(Parsed(d), sayThrows)
    ensures HandleMessage(p, Parsed(d), now, sayThrows, verdict).store ==
      LogEvent(Dispatch(Clocked(p, d, now), d, now, sayThrows).next.store, LogInputOf(RecordOf(d, now)), now)
  {
    assert UpdateGameState(p, d, now, sayThrows) == Dispatch(Clocked(p, d, now), d, now, sayThrows);
    UpdateFrame(p, d, now, sayThrows);
  }

  /** The last entry of the ally broadcast that lists team `id`, if any. */
  function LastEntry(entries: seq<(TeamId, AllyEntry)>, id: TeamId): Option<AllyEntry>
    decreases |entries|
  {
    if |entries| == 0 then None
    else if entries[|entries| - 1].0 == id then Some(entries[|entries| - 1].1)
    else LastEntry(entries[..|entries| - 1], id)
  }

  /** The ally loop, team by team: a team exists afterwards exactly when the
      store had it or the broadcast lists it; a listed team carries the name
      and snapshot of the last entry listing it, on top of the record the
      store had or of a new allied stub without aggregates; an unlisted team
      is untouched. */
  lemma {:induction false} AllyTeamsAt(teams: map<TeamId, Team>, entries: seq<(TeamId, AllyEntry)>, id: TeamId)
    decreases |entries|
    ensures id in AllyTeams(teams, entries) <==> id in teams || LastEntry(entries, id).Some?
    ensures id in AllyTeams(teams, entries) ==>
      AllyTeams(teams, entries)[id] ==
        match LastEntry(entries, id)
        case None => teams[id]
        case Some(e) =>
          (if id in teams then teams[id] else AllyStub(id)).(playerName := e.playerName,
                                                            metalStats := e.metal, energyStats := e.energy)
  {
    if |entries| > 0 {
      var n := |entries| - 1;
      AllyTeamsAt(teams, entries[..n], id);
    }
  }

  // ---------------------------------------------------------------------
  // The store invariants through the pipeline
  // ---------------------------------------------------------------------

  /** Every message keeps the unit order and the type index consistent, and
      logs nothing but untagged records and the initialisation record. As a
      consequence, a log built by the pipeline never answers a kill-window
      query with anything but 0. */
  lemma PipelineKeepsIndex(p: Pipeline, raw: Raw, now: int, sayThrows: string -> bool,
                           verdict: (Condition, Observation) -> Verdict)
    requires WellFormed(p.store) && IndexConsistent(p.store) && OnlyUntaggedOrInit(p.store)
    ensures var r := HandleMessage(p, raw, now, sayThrows, verdict);
      WellFormed(r.store) && IndexConsistent(r.store) && OnlyUntaggedOrInit(r.store)
  {
    if raw.Parsed? {
      var d := raw.data;
      var q := if Bootstraps(p, d) then InitializeGame(p, d, now) else p;
      if Bootstraps(p, d) {
        BootstrapKeepsInvariants(p.store, InfoOf(d), now);
      }
      var p2 := q.(store := SetClock(q.store, d));
      assert UpdateGameState(p, d, now, sayThrows) == Dispatch(p2, d, now, sayThrows);
      DispatchKeepsInvariants(p2, d, now, sayThrows);
      var u := Dispatch(p2, d, now, sayThrows);
      if !u.threw {
        LogEventKeepsIndex(u.next.store, LogInputOf(RecordOf(d, now)), now);
        LogEventKeepsUntagged(u.next.store, LogInputOf(RecordOf(d, now)), now);
      }
    }
  }

  lemma LogEventKeepsUntagged(v: StoreView, input: LogInput, now: int)
    requires OnlyUntaggedOrInit(v) && (input.event == None || input.event == Some("GameInitialized"))
    ensures OnlyUntaggedOrInit(LogEvent(v, input, now))
  {
    var r := LogEvent(v, input, now);
    forall i | 0 <= i < |r.events|
      ensures r.events[i].eventType == None || r.events[i].eventType == Some("GameInitialized")
    {
      if i < |v.events| {
        assert r.events[i] == r.events[..|v.events|][i];
      }
    }
  }

  lemma BootstrapKeepsInvariants(v: StoreView, info: PlayerInfo, now: int)
    requires WellFormed(v) && IndexConsistent(v) && OnlyUntaggedOrInit(v)
    ensures var r := InitGame(v, info, now);
      WellFormed(r) && IndexConsistent(r) && OnlyUntaggedOrInit(r)
  {
    var gs := v.gameState.(myTeamID := info.myTeamID, myPlayerID := info.myPlayerID,
                           allyTeamID := info.allyTeamID, playerName := info.playerName,
                           gameStarted := true);
    var v1 := v.(gameState := gs, teams := v.teams[info.myTeamID := MyTeamRecord(info, now)]);
    var input := LogInput(Some("GameInitialized"), Some(now), InitBody(info));
    assert InitGame(v, info, now) == LogEvent(v1, input, now);
    LogEventKeepsIndex(v1, input, now);
    LogEventKeepsUntagged(v1, input, now);
  }

  lemma DispatchKeepsInvariants(p: Pipeline, d: Payload, now: int, sayThrows: string -> bool)
    requires WellFormed(p.store) && IndexConsistent(p.store) && OnlyUntaggedOrInit(p.store)
    ensures var s := Dispatch(p, d, now, sayThrows).next.store;
      WellFormed(s) && IndexConsistent(s) && OnlyUntaggedOrInit(s)
  {
    var s := Dispatch(p, d, now, sayThrows).next.store;
    DispatchFrame(p, d, now, sayThrows);
    SameLog(p.store, s);
    if Route(d.event) == Some(UnitFinished) {
      AddUnitWellFormed(p.store, d.unitID, UnitDataOf(d));
    } else if Route(d.event) == Some(UnitDestroyed) {
      DestroyUnitWellFormed(p.store, d.unitID, d.attackerID, d.attackerTeam);
    } else if Route(d.event) == Some(UnitDamaged) || Route(d.event) == Some(FullStatsUpdate) {
      SameUnits(p.store, s);
    } else {
      DispatchOtherKeeps(p, d, now, sayThrows);
      SameUnits(p.store, s);
    }
  }

  lemma SameLog(a: StoreView, b: StoreView)
    requires a.events == b.events && a.eventIndex == b.eventIndex
    ensures IndexConsistent(a) ==> IndexConsistent(b)
    ensures OnlyUntaggedOrInit(a) ==> OnlyUntaggedOrInit(b)
  {
  }

  lemma SameUnits(a: StoreView, b: StoreView)
    requires a.units.Keys == b.units.Keys && a.unitOrder == b.unitOrder
    ensures WellFormed(a) ==> WellFormed(b)
  {
  }

  /** Hence a pipeline-built log never reports a kill in any window. */
  lemma PipelineKillWindowEmpty(p: Pipeline, raw: Raw, now: int, sayThrows: string -> bool,
                                verdict: (Condition, Observation) -> Verdict,
                                unitID: Option<int>, seconds: int, later: int)
    requires WellFormed(p.store) && IndexConsistent(p.store) && OnlyUntaggedOrInit(p.store)
    ensures CountKillsInWindow(HandleMessage(p, raw, now, sayThrows, verdict).store, unitID, seconds, later) == 0
  {
    PipelineKeepsIndex(p, raw, now, sayThrows, verdict);
    KillWindowEmptyWithoutTags(HandleMessage(p, raw, now, sayThrows, verdict).store, unitID, seconds, later);
  }
}

/** The event pipeline of the overlay as transitions on values. One message
    of the telemetry stream is applied to a snapshot of everything the
    pipeline touches: the store, the trigger engine, the bootstrap flag, the
    stats throttle and the bounded history. The class in module Pipeline
    performs the same steps in place; the properties are in PipelineProps. */
module PipelineModel {
  import opened Js
  import opened Messages
  import opened StoreModel
  import opened TriggerModel

  /** Minimum spacing, in milliseconds, of two stats refreshes of the UI. */
  const StatsUpdateInterval := 1000
  /** Number of records the history keeps. */
  const HistoryCap := 10000

  /** The handlers `updateGameState` dispatches to. */
  datatype Handler =
    | UnitFinished
    | UnitDamaged
    | UnitDestroyed
    | FullStatsUpdate
    | OverflowStatusChanged
    | AllyStates

  /** The event tag each handler is dispatched for. */
  function TagOf(h: Handler): string {
    match h
    case UnitFinished => "UnitFinished"
    case UnitDamaged => "UnitDamaged"
    case UnitDestroyed => "UnitDestroyed"
    case FullStatsUpdate => "FullStatsUpdate"
    case OverflowStatusChanged => "OverflowStatusChanged"
    case AllyStates => "AllyStatesUpdate"
  }

  /** The `switch` of `updateGameState`; None for a tag without a case. */
  function Route(event: Option<string>): Option<Handler> {
    if event == Some("UnitFinished") then Some(UnitFinished)
    else if event == Some("UnitDamaged") then Some(UnitDamaged)
    else if event == Some("UnitDestroyed") then Some(UnitDestroyed)
    else if event == Some("FullStatsUpdate") then Some(FullStatsUpdate)
    else if event == Some("OverflowStatusChanged") then Some(OverflowStatusChanged)
    else if event == Some("AllyStatesUpdate") then Some(AllyStates)
    else None
  }

  /** The record `handleMessage` builds: stamped with the arrival time,
      `frame` and `gameTime` defaulted with `|| 0`, no `event` field. */
  datatype PipelineRecord = PipelineRecord(timestamp: int, frame: int, gameTime: int, data: Payload)

  function RecordOf(d: Payload, now: int): PipelineRecord {
    PipelineRecord(now, OrInt(d.frame, 0), OrInt(d.gameTime, 0), d)
  }

  /** The record as `logEvent` receives it: its `event` is undefined. */
  function LogInputOf(rec: PipelineRecord): LogInput {
    LogInput(None, Some(rec.timestamp), PipelineBody(rec.frame, rec.gameTime, rec.data))
  }

  /** What a trigger condition is evaluated on: the message's record, and the
      store it can reach through the global `gameState`. */
  datatype Observation = Observation(record: PipelineRecord, store: StoreView)

  /** Everything one message can change. */
  datatype Pipeline = Pipeline(
    store: StoreView,
    engine: EngineView,
    initialized: bool,
    lastStatsUpdate: int,
    history: seq<PipelineRecord>)

  /** The state after `updateGameState`, and whether it threw. */
  datatype Update = Update(next: Pipeline, threw: bool)

  // ---------------------------------------------------------------------
  // updateGameState and its handlers
  // ---------------------------------------------------------------------

  function InfoOf(d: Payload): PlayerInfo
    requires d.myTeamID.Some?
  {
    PlayerInfo(d.myTeamID.value, d.myPlayerID, d.allyTeamID, d.playerName)
  }

  /** `initializeGame` */
  function InitializeGame(p: Pipeline, d: Payload, now: int): Pipeline
    requires d.myTeamID.Some?
  {
    p.(store := InitGame(p.store, InfoOf(d), now), initialized := true)
  }

  /** Overwrite the store's clock with the fields the message carries. */
  function SetClock(v: StoreView, d: Payload): StoreView {
    var gs1 := if d.gameTime.Some? then v.gameState.(gameTime := d.gameTime.value) else v.gameState;
    var gs2 := if d.frame.Some? then gs1.(frame := d.frame.value) else gs1;
    v.(gameState := gs2)
  }

  /** The unit description `handleUnitFinished` passes to `addUnit`. */
  function UnitDataOf(d: Payload): UnitData {
    UnitData(d.unitDefID, d.unitName, d.unitTeam, Some(OrInt(d.unitTier, 1)), Some(OrInt(d.unitMetalCost, 0)),
             d.relation, d.playerName)
  }

  function HandleUnitFinished(p: Pipeline, d: Payload): Pipeline {
    p.(store := AddUnit(p.store, d.unitID, UnitDataOf(d)))
  }

  function HandleUnitDamaged(p: Pipeline, d: Payload, now: int): Pipeline {
    p.(store := DamageUnit(p.store, d.unitID, d.damage, d.attackerID, d.attackerTeam, now))
  }

  function HandleUnitDestroyed(p: Pipeline, d: Payload): Pipeline {
    p.(store := DestroyUnit(p.store, d.unitID, d.attackerID, d.attackerTeam))
  }

  /** Whether a stats message at `now` refreshes the UI. */
  predicate Refreshes(lastStatsUpdate: int, now: int) {
    now - lastStatsUpdate > StatsUpdateInterval
  }

  /** `handleFullStatsUpdate`: the snapshot always goes to the player's team;
      the UI refresh, and the new throttle time, only past the interval. */
  function HandleFullStatsUpdate(p: Pipeline, d: Payload, now: int): Pipeline {
    var v := UpdateTeamStats(p.store, p.store.gameState.myTeamID, StatsSnapshot(d.metal, d.energy, d.combat), now);
    p.(store := v, lastStatsUpdate := if Refreshes(p.lastStatsUpdate, now) then now else p.lastStatsUpdate)
  }

  /** The flag update of `handleOverflowStatusChanged`. */
  function SetOverflow(v: StoreView, d: Payload): StoreView {
    if d.resource == Some("metal") then
      v.(gameState := v.gameState.(overflowMetal := d.overflowMetal == Some("1")))
    else if d.resource == Some("energy") then
      v.(gameState := v.gameState.(overflowEnergy := d.overflowEnergy == Some("1")))
    else v
  }

  /** The sentence handed to the speech call. */
  function Announcement(d: Payload): string {
    d.resource.GetOr("undefined") + " overflow status: " + (if d.overflow == Some("1") then "Overflowing" else "Normal")
  }

  /** `handleOverflowStatusChanged`: the flag is set before the speech call,
      so it stays set when that call throws. */
  function HandleOverflowStatusChanged(p: Pipeline, d: Payload, sayThrows: string -> bool): Update {
    Update(p.(store := SetOverflow(p.store, d)), sayThrows(Announcement(d)))
  }

  /** The record an ally broadcast creates for a team the store lacks. */
  function AllyStub(id: TeamId): Team {
    Team(id, None, false, true, None, None, None, None, None)
  }

  /** One iteration of the ally loop. */
  function AllyTeam(teams: map<TeamId, Team>, id: TeamId, entry: AllyEntry): map<TeamId, Team> {
    var t := if id in teams then teams[id] else AllyStub(id);
    teams[id := t.(playerName := entry.playerName, metalStats := entry.metal, energyStats := entry.energy)]
  }

  /** The ally loop over the entries of `teams`, in order. */
  function AllyTeams(teams: map<TeamId, Team>, entries: seq<(TeamId, AllyEntry)>): map<TeamId, Team>
    decreases |entries|
  {
    if |entries| == 0 then teams
    else
      var n := |entries| - 1;
      AllyTeam(AllyTeams(teams, entries[..n]), entries[n].0, entries[n].1)
  }

  /** `handleAllyStates`: acts only on the tag `AllyStatsUpdate`;
      `Object.entries` of a missing `teams` throws. */
  function HandleAllyStates(p: Pipeline, d: Payload): Update {
    if d.event != Some("AllyStatsUpdate") then Update(p, false)
    else if d.teams.None? then Update(p, true)
    else Update(p.(store := p.store.(teams := AllyTeams(p.store.teams, d.teams.value))), false)
  }

  /** The routed half of `updateGameState`. */
  function Dispatch(p: Pipeline, d: Payload, now: int, sayThrows: string -> bool): Update {
    match Route(d.event)
    case None => Update(p, false)
    case Some(UnitFinished) => Update(HandleUnitFinished(p, d), false)
    case Some(UnitDamaged) => Update(HandleUnitDamaged(p, d, now), false)
    case Some(UnitDestroyed) => Update(HandleUnitDestroyed(p, d), false)
    case Some(FullStatsUpdate) => Update(HandleFullStatsUpdate(p, d, now), false)
    case Some(OverflowStatusChanged) => HandleOverflowStatusChanged(p, d, sayThrows)
    case Some(AllyStates) => HandleAllyStates(p, d)
  }

  /** Whether this message bootstraps the game. */
  predicate Bootstraps(p: Pipeline, d: Payload) {
    !p.initialized && d.myTeamID.Some?
  }

  /** `updateGameState`: bootstrap, clock, then the routed handler. */
  function UpdateGameState(p: Pipeline, d: Payload, now: int, sayThrows: string -> bool): Update {
    var p1 := if Bootstraps(p, d) then InitializeGame(p, d, now) else p;
    Dispatch(p1.(store := SetClock(p1.store, d)), d, now, sayThrows)
  }

  // ---------------------------------------------------------------------
  // handleMessage
  // ---------------------------------------------------------------------

  /** `push` then, past the cap, `shift`. */
  function AppendBounded(h: seq<PipelineRecord>, rec: PipelineRecord): seq<PipelineRecord> {
    var h1 := h + [rec];
    if |h1| > HistoryCap then h1[1..] else h1
  }

  /** `handleMessage`: a message that does not parse changes nothing; one
      whose state update throws keeps the changes made before the throw and
      stops there; otherwise it is logged, the triggers are evaluated on the
      updated store, and the record joins the history. */
  function HandleMessage(p: Pipeline, raw: Raw, now: int, sayThrows: string -> bool,
                         verdict: (Condition, Observation) -> Verdict): Pipeline
  {
    match raw
    case Malformed => p
    case Parsed(d) =>
      var rec := RecordOf(d, now);
      var u := UpdateGameState(p, d, now, sayThrows);
      if u.threw then u.next
      else
        var v := LogEvent(u.next.store, LogInputOf(rec), now);
        u.next.(store := v,
                engine := Evaluate(u.next.engine, verdict, Observation(rec, v), now),
                history := AppendBounded(u.next.history, rec))
  }
}

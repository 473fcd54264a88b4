/** The values kept by the game state store (units, teams, the event log and
    the two time series), its mutations as transitions between snapshots of
    those values, and its query surface. The class in module Store holds the
    same collections as fields and realises each transition in place. */
module StoreModel {
  import opened Js
  import opened Messages

  /** A unit id as a message carries it; a JavaScript Map also accepts
      `undefined` as a key. */
  type UnitKey = Option<int>
  type TeamId = int

  datatype Unit = Unit(
    unitID: UnitKey,
    unitDefID: Option<int>,
    unitName: Option<string>,
    unitTier: int,
    metalCost: int,
    teamID: Option<int>,
    relation: Option<string>,
    createdAt: int,
    damageTaken: int,
    damageDealt: int,
    killCount: int,
    assistCount: int,
    lastDamagedAt: Option<int>,
    lastDamagedBy: Option<int>,
    inCombat: bool,
    destroyed: bool,
    destroyedAt: Option<int>,
    destroyedBy: Option<int>,
    destroyedByTeam: Option<int>,
    creatorPlayer: string)

  /** The running aggregates of a team. */
  datatype Counters = Counters(
    unitCount: int,
    totalMetalCost: int,
    totalDamageDealt: int,
    totalDamageTaken: int,
    killedCount: int,
    lostCount: int)

  const ZeroCounters := Counters(0, 0, 0, 0, 0, 0)

  /** A team record. `counters` is None for a record created by an ally
      broadcast, which has no numeric aggregates: arithmetic on them in
      JavaScript yields NaN, so they never become numbers again. */
  datatype Team = Team(
    teamID: TeamId,
    allyTeamID: Option<int>,
    isMyTeam: bool,
    isMyAlly: bool,
    counters: Option<Counters>,
    metalStats: Option<ResourceStats>,
    energyStats: Option<ResourceStats>,
    lastUpdate: Option<int>,
    playerName: Option<string>)

  datatype GameState = GameState(
    frame: int,
    gameTime: int,
    myTeamID: int,
    myPlayerID: Option<int>,
    allyTeamID: Option<int>,
    playerName: Option<string>,
    gameStarted: bool,
    gameEnded: bool,
    overflowMetal: bool,
    overflowEnergy: bool)

  const InitialGameState := GameState(0, 0, -1, Some(-1), Some(-1), None, false, false, false, false)

  datatype PlayerInfo = PlayerInfo(
    myTeamID: TeamId,
    myPlayerID: Option<int>,
    allyTeamID: Option<int>,
    playerName: Option<string>)

  /** The object handed to `logEvent`: the pipeline's record (which has no
      `event` field) or the game-initialisation record. */
  datatype LogBody =
    | PipelineBody(frame: int, gameTime: int, payload: Payload)
    | InitBody(info: PlayerInfo)

  datatype LogInput = LogInput(event: Option<string>, timestamp: Option<int>, body: LogBody)

  /** A stored entry of the chronological event log. */
  datatype LogRecord = LogRecord(
    id: nat,
    timestamp: int,
    frame: int,
    gameTime: int,
    eventType: Option<string>,
    data: LogInput)

  /** The `{metal, energy, combat}` object given to `updateTeamStats`. */
  datatype StatsSnapshot = StatsSnapshot(
    metal: Option<ResourceStats>,
    energy: Option<ResourceStats>,
    combat: Option<ResourceStats>)

  datatype StatsSample = StatsSample(timestamp: int, frame: int, teamID: TeamId, stats: StatsSnapshot)

  datatype DamageSample = DamageSample(
    timestamp: int,
    frame: int,
    attacker: Option<int>,
    attackerTeam: Option<int>,
    victim: UnitKey,
    victimTeam: Option<int>,
    damage: int)

  /** The second argument of `addUnit`. */
  datatype UnitData = UnitData(
    unitDefID: Option<int>,
    unitName: Option<string>,
    unitTeam: Option<int>,
    unitTier: Option<int>,
    unitMetalCost: Option<int>,
    relation: Option<string>,
    playerName: Option<string>)

  /** Everything the store holds. `unitOrder` is the insertion order of the
      `units` Map, which its iteration follows. */
  datatype StoreView = StoreView(
    units: map<UnitKey, Unit>,
    unitOrder: seq<UnitKey>,
    teams: map<TeamId, Team>,
    events: seq<LogRecord>,
    eventIndex: map<Option<string>, seq<nat>>,
    statsHistory: seq<StatsSample>,
    damageHistory: seq<DamageSample>,
    gameState: GameState)

  const EmptyStore := StoreView(map[], [], map[], [], map[], [], [], InitialGameState)

  /** Shape of the unit map: the order lists each key exactly once. */
  ghost predicate WellFormed(v: StoreView) {
    && Distinct(v.unitOrder)
    && (forall i :: 0 <= i < |v.unitOrder| ==> v.unitOrder[i] in v.units)
    && (forall k :: k in v.units ==> k in v.unitOrder)
  }

  // ---------------------------------------------------------------------
  // Team aggregates
  // ---------------------------------------------------------------------

  /** Adds `d` field by field; a record without aggregates stays without. */
  function Adjust(t: Team, d: Counters): Team {
    match t.counters
    case None => t
    case Some(c) =>
      t.(counters := Some(Counters(
        c.unitCount + d.unitCount,
        c.totalMetalCost + d.totalMetalCost,
        c.totalDamageDealt + d.totalDamageDealt,
        c.totalDamageTaken + d.totalDamageTaken,
        c.killedCount + d.killedCount,
        c.lostCount + d.lostCount)))
  }

  function AdjustIfPresent(teams: map<TeamId, Team>, t: Option<int>, d: Counters): map<TeamId, Team> {
    if t.Some? && t.value in teams then teams[t.value := Adjust(teams[t.value], d)] else teams
  }

  // ---------------------------------------------------------------------
  // Mutations
  // ---------------------------------------------------------------------

  function MyTeamRecord(info: PlayerInfo, now: int): Team {
    Team(info.myTeamID, info.allyTeamID, true, true, Some(ZeroCounters),
         Some(EmptyStats), Some(EmptyStats), Some(now), None)
  }

  /** The record `logEvent` appends for `input`. */
  function NewRecord(v: StoreView, input: LogInput, now: int): LogRecord {
    LogRecord(|v.events|, OrInt(input.timestamp, now), v.gameState.frame, v.gameState.gameTime,
              input.event, input)
  }

  /** `logEvent`: append one record whose id is the previous length of the
      log, and append that id to the index list of its type. */
  function LogEvent(v: StoreView, input: LogInput, now: int): (r: StoreView)
    ensures |r.events| == |v.events| + 1 && r.events[..|v.events|] == v.events
    ensures r.events[|v.events|].id == |v.events|
    ensures r.events[|v.events|].eventType == input.event && r.events[|v.events|].data == input
    ensures r.events[|v.events|].timestamp == (if TruthyInt(input.timestamp) then input.timestamp.value else now)
    ensures r.eventIndex.Keys == v.eventIndex.Keys + {input.event}
    ensures input.event in v.eventIndex ==> r.eventIndex[input.event] == v.eventIndex[input.event] + [|v.events|]
    ensures input.event !in v.eventIndex ==> r.eventIndex[input.event] == [|v.events|]
    ensures forall t :: t in v.eventIndex && t != input.event ==> r.eventIndex[t] == v.eventIndex[t]
    ensures r.units == v.units && r.unitOrder == v.unitOrder && r.teams == v.teams
    ensures r.statsHistory == v.statsHistory && r.damageHistory == v.damageHistory
    ensures r.gameState == v.gameState
  {
    var rec := NewRecord(v, input, now);
    var ids := if input.event in v.eventIndex then v.eventIndex[input.event] else [];
    v.(events := v.events + [rec], eventIndex := v.eventIndex[input.event := ids + [rec.id]])
  }

  /** `initGame`: record the player's identity, (re)create the player's team
      with zero aggregates, then log a `GameInitialized` event. */
  function InitGame(v: StoreView, info: PlayerInfo, now: int): (r: StoreView)
    ensures r.gameState == v.gameState.(myTeamID := info.myTeamID, myPlayerID := info.myPlayerID,
                                        allyTeamID := info.allyTeamID, playerName := info.playerName,
                                        gameStarted := true)
    ensures r.teams.Keys == v.teams.Keys + {info.myTeamID}
    ensures r.teams[info.myTeamID].isMyTeam && r.teams[info.myTeamID].counters == Some(ZeroCounters)
    ensures forall t :: t in v.teams && t != info.myTeamID ==> r.teams[t] == v.teams[t]
    ensures |r.events| == |v.events| + 1 && r.events[..|v.events|] == v.events
    ensures r.events[|v.events|].eventType == Some("GameInitialized")
    ensures r.units == v.units && r.unitOrder == v.unitOrder
    ensures r.statsHistory == v.statsHistory && r.damageHistory == v.damageHistory
  {
    var gs := v.gameState.(myTeamID := info.myTeamID, myPlayerID := info.myPlayerID,
                           allyTeamID := info.allyTeamID, playerName := info.playerName,
                           gameStarted := true);
    var v1 := v.(gameState := gs, teams := v.teams[info.myTeamID := MyTeamRecord(info, now)]);
    LogEvent(v1, LogInput(Some("GameInitialized"), Some(now), InitBody(info)), now)
  }

  function NewUnit(id: UnitKey, data: UnitData, gameTime: int): Unit {
    Unit(id, data.unitDefID, data.unitName, OrInt(data.unitTier, 1), OrInt(data.unitMetalCost, 0),
         data.unitTeam, data.relation, gameTime,
         0, 0, 0, 0, None, None, false,
         false, None, None, None,
         OrString(data.playerName, "Unknown"))
  }

  /** The change `addUnit` makes to the owning team's aggregates. */
  function AddedDelta(cost: int): Counters {
    ZeroCounters.(unitCount := 1, totalMetalCost := cost)
  }

  /** `addUnit`: store a fresh unit under `id` (replacing any unit stored
      there) and credit the owning team, if it exists. */
  function AddUnit(v: StoreView, id: UnitKey, data: UnitData): (r: StoreView)
    ensures id in r.units && r.units.Keys == v.units.Keys + {id}
    ensures var u := r.units[id];
      && u.unitID == id && u.teamID == data.unitTeam
      && u.damageTaken == 0 && !u.destroyed && !u.inCombat
      && u.unitTier == (if TruthyInt(data.unitTier) then data.unitTier.value else 1)
      && u.metalCost == (if TruthyInt(data.unitMetalCost) then data.unitMetalCost.value else 0)
    ensures forall k :: k in v.units && k != id ==> r.units[k] == v.units[k]
    ensures r.unitOrder == if id in v.units then v.unitOrder else v.unitOrder + [id]
    ensures r.teams.Keys == v.teams.Keys
    ensures forall t :: t in v.teams ==>
      r.teams[t] == if data.unitTeam == Some(t) then Adjust(v.teams[t], AddedDelta(r.units[id].metalCost))
                    else v.teams[t]
    ensures r.events == v.events && r.eventIndex == v.eventIndex && r.gameState == v.gameState
    ensures r.statsHistory == v.statsHistory && r.damageHistory == v.damageHistory
  {
    var u := NewUnit(id, data, v.gameState.gameTime);
    v.(units := v.units[id := u],
       unitOrder := if id in v.units then v.unitOrder else v.unitOrder + [id],
       teams := AdjustIfPresent(v.teams, u.teamID, AddedDelta(u.metalCost)))
  }

  /** The change `destroyUnit` makes to the owner's aggregates. */
  function LostDelta(cost: int): Counters {
    ZeroCounters.(unitCount := -1, totalMetalCost := -cost, lostCount := 1)
  }

  const KillDelta := ZeroCounters.(killedCount := 1)

  /** `destroyUnit`: flag the unit destroyed (it stays in the map), debit the
      owner team and credit a truthy, existing attacker team with a kill.
      Unknown ids change nothing. */
  function DestroyUnit(v: StoreView, id: UnitKey, attackerID: Option<int>, attackerTeam: Option<int>): (r: StoreView)
    ensures id !in v.units ==> r == v
    ensures id in v.units ==>
      var u := v.units[id];
      && r.units == v.units[id := u.(destroyed := true, destroyedAt := Some(v.gameState.gameTime),
                                     destroyedBy := attackerID, destroyedByTeam := attackerTeam)]
      && r.teams.Keys == v.teams.Keys
      && (forall t :: t in v.teams ==>
            var owner := if u.teamID == Some(t) then Adjust(v.teams[t], LostDelta(u.metalCost)) else v.teams[t];
            r.teams[t] == if TruthyInt(attackerTeam) && attackerTeam.value == t then Adjust(owner, KillDelta) else owner)
    ensures r.unitOrder == v.unitOrder && r.events == v.events && r.eventIndex == v.eventIndex
    ensures r.statsHistory == v.statsHistory && r.damageHistory == v.damageHistory && r.gameState == v.gameState
  {
    if id !in v.units then v
    else
      var u := v.units[id];
      var u' := u.(destroyed := true, destroyedAt := Some(v.gameState.gameTime),
                   destroyedBy := attackerID, destroyedByTeam := attackerTeam);
      var teams1 := AdjustIfPresent(v.teams, u.teamID, LostDelta(u.metalCost));
      var teams2 := if TruthyInt(attackerTeam) then AdjustIfPresent(teams1, attackerTeam, KillDelta) else teams1;
      v.(units := v.units[id := u'], teams := teams2)
  }

  function DealtDelta(damage: int): Counters {
    ZeroCounters.(totalDamageDealt := damage)
  }

  function TakenDelta(damage: int): Counters {
    ZeroCounters.(totalDamageTaken := damage)
  }

  /** `damageUnit`: add `damage` to the unit, mark it in combat, credit the
      attacker team (team 0 included: this guard is `has`, not truthiness),
      debit the victim team and append one damage sample. Unknown ids change
      nothing. */
  function DamageUnit(v: StoreView, id: UnitKey, damage: int, attackerID: Option<int>,
                      attackerTeam: Option<int>, now: int): (r: StoreView)
    ensures id !in v.units ==> r == v
    ensures id in v.units ==>
      var u := v.units[id];
      && r.units == v.units[id := u.(damageTaken := u.damageTaken + damage, lastDamagedAt := Some(v.gameState.gameTime),
                                     lastDamagedBy := attackerID, inCombat := true)]
      && r.damageHistory == v.damageHistory +
           [DamageSample(now, v.gameState.frame, attackerID, attackerTeam, id, u.teamID, damage)]
      && r.teams.Keys == v.teams.Keys
      && (forall t :: t in v.teams ==>
            var dealt := if attackerTeam == Some(t) then Adjust(v.teams[t], DealtDelta(damage)) else v.teams[t];
            r.teams[t] == if u.teamID == Some(t) then Adjust(dealt, TakenDelta(damage)) else dealt)
    ensures r.unitOrder == v.unitOrder && r.events == v.events && r.eventIndex == v.eventIndex
    ensures r.statsHistory == v.statsHistory && r.gameState == v.gameState
  {
    if id !in v.units then v
    else
      var u := v.units[id];
      var u' := u.(damageTaken := u.damageTaken + damage, lastDamagedAt := Some(v.gameState.gameTime),
                   lastDamagedBy := attackerID, inCombat := true);
      var teams1 := AdjustIfPresent(v.teams, attackerTeam, DealtDelta(damage));
      var teams2 := AdjustIfPresent(teams1, u.teamID, TakenDelta(damage));
      var sample := DamageSample(now, v.gameState.frame, attackerID, attackerTeam, id, u.teamID, damage);
      v.(units := v.units[id := u'], teams := teams2, damageHistory := v.damageHistory + [sample])
  }

  /** `updateTeamStats`: overwrite the team's resource snapshot and append
      one stats sample; an unknown team is a no-op. */
  function UpdateTeamStats(v: StoreView, teamID: TeamId, stats: StatsSnapshot, now: int): (r: StoreView)
    ensures teamID !in v.teams ==> r == v
    ensures teamID in v.teams ==>
      && r.teams == v.teams[teamID := v.teams[teamID].(metalStats := Some(stats.metal.GetOr(EmptyStats)),
                                                       energyStats := Some(stats.energy.GetOr(EmptyStats)),
                                                       lastUpdate := Some(now))]
      && r.statsHistory == v.statsHistory + [StatsSample(now, v.gameState.frame, teamID, stats)]
    ensures r.units == v.units && r.unitOrder == v.unitOrder && r.events == v.events
    ensures r.eventIndex == v.eventIndex && r.damageHistory == v.damageHistory && r.gameState == v.gameState
  {
    if teamID !in v.teams then v
    else
      var t := v.teams[teamID].(metalStats := Some(stats.metal.GetOr(EmptyStats)),
                                energyStats := Some(stats.energy.GetOr(EmptyStats)),
                                lastUpdate := Some(now));
      v.(teams := v.teams[teamID := t],
         statsHistory := v.statsHistory + [StatsSample(now, v.gameState.frame, teamID, stats)])
  }

  /** `reset`: empty every collection; the game state is kept. */
  function Reset(v: StoreView): (r: StoreView)
    ensures r.units == map[] && r.unitOrder == [] && r.teams == map[] && r.events == []
    ensures r.eventIndex == map[] && r.statsHistory == [] && r.damageHistory == []
    ensures r.gameState == v.gameState
  {
    EmptyStore.(gameState := v.gameState)
  }

  // ---------------------------------------------------------------------
  // Unit queries
  // ---------------------------------------------------------------------

  /** Unit search criteria; a falsy field does not constrain. */
  datatype Criteria = Criteria(
    teamID: Option<int>,
    minCost: Option<int>,
    maxCost: Option<int>,
    tier: Option<int>,
    relation: Option<string>,
    inCombat: Option<bool>)

  const NoCriteria := Criteria(None, None, None, None, None, None)

  /** Every field of `c` is falsy. */
  predicate Unconstrained(c: Criteria) {
    !TruthyInt(c.teamID) && !TruthyInt(c.minCost) && !TruthyInt(c.maxCost) && !TruthyInt(c.tier)
    && !TruthyString(c.relation) && c.inCombat != Some(true)
  }

  /** `matchesCriteria`: the chain of early rejections. */
  function MatchesCriteria(u: Unit, c: Criteria): (r: bool)
    ensures Unconstrained(c) ==> r
    ensures r <==>
      && (TruthyInt(c.teamID) ==> u.teamID == c.teamID)
      && (TruthyInt(c.minCost) ==> u.metalCost >= c.minCost.value)
      && (TruthyInt(c.maxCost) ==> u.metalCost <= c.maxCost.value)
      && (TruthyInt(c.tier) ==> u.unitTier == c.tier.value)
      && (TruthyString(c.relation) ==> u.relation == c.relation)
      && (c.inCombat == Some(true) ==> u.inCombat)
  {
    if TruthyInt(c.teamID) && u.teamID != c.teamID then false
    else if TruthyInt(c.minCost) && u.metalCost < c.minCost.value then false
    else if TruthyInt(c.maxCost) && u.metalCost > c.maxCost.value then false
    else if TruthyInt(c.tier) && u.unitTier != c.tier.value then false
    else if TruthyString(c.relation) && u.relation != c.relation then false
    else if c.inCombat == Some(true) && !u.inCombat then false
    else true
  }

  /** The unit filters the store's queries apply. */
  datatype UnitFilter =
    | OfTeam(team: Option<int>, includeDestroyed: bool)
    | Matching(criteria: Criteria)
    | DestroyedBy(attacker: Option<int>)

  predicate Accepts(f: UnitFilter, u: Unit) {
    match f
    case OfTeam(team, incl) => u.teamID == team && (incl || !u.destroyed)
    case Matching(c) => MatchesCriteria(u, c)
    // a unit that is not destroyed has `destroyedBy === null`, which no id equals
    case DestroyedBy(a) => u.destroyed && u.destroyedBy == a
  }

  /** The units in Map iteration order that `f` accepts. */
  function UnitsWhere(order: seq<UnitKey>, units: map<UnitKey, Unit>, f: UnitFilter): (r: seq<Unit>)
    ensures |r| <= |order|
    ensures forall i :: 0 <= i < |r| ==> Accepts(f, r[i])
    ensures forall i :: 0 <= i < |r| ==> r[i] in units.Values
    ensures forall k :: k in order && k in units && Accepts(f, units[k]) ==> units[k] in r
  {
    if |order| == 0 then []
    else
      var k := order[|order| - 1];
      var rest := UnitsWhere(order[..|order| - 1], units, f);
      assert forall j :: j in order ==> j in order[..|order| - 1] || j == k;
      assert forall j :: j in order[..|order| - 1] ==> j in order;
      if k in units && Accepts(f, units[k]) then
        rest + [units[k]]
      else rest
  }

  /** `getTeamUnits` */
  function TeamUnits(v: StoreView, team: Option<int>, includeDestroyed: bool): seq<Unit> {
    UnitsWhere(v.unitOrder, v.units, OfTeam(team, includeDestroyed))
  }

  /** `queryUnits` */
  function QueryUnits(v: StoreView, c: Criteria): seq<Unit> {
    UnitsWhere(v.unitOrder, v.units, Matching(c))
  }

  /** `getKilledBy` */
  function KilledBy(v: StoreView, attacker: Option<int>): seq<Unit> {
    UnitsWhere(v.unitOrder, v.units, DestroyedBy(attacker))
  }

  /** Sum of the metal costs of `us`. */
  function CostSum(us: seq<Unit>): int {
    if |us| == 0 then 0 else CostSum(us[..|us| - 1]) + us[|us| - 1].metalCost
  }

  // ---------------------------------------------------------------------
  // Event log queries
  // ---------------------------------------------------------------------

  /** `ids.map(id => events[id])` with the missing entries dropped by the
      `e &&` filter. */
  function Lookup(events: seq<LogRecord>, ids: seq<nat>): (r: seq<LogRecord>)
    ensures |r| <= |ids|
    ensures forall i :: 0 <= i < |r| ==> r[i] in events
  {
    if |ids| == 0 then []
    else
      var rest := Lookup(events, ids[..|ids| - 1]);
      var id := ids[|ids| - 1];
      if id < |events| then rest + [events[id]] else rest
  }

  function Since(rs: seq<LogRecord>, cutoff: int): (r: seq<LogRecord>)
    ensures |r| <= |rs|
    ensures forall i :: 0 <= i < |r| ==> r[i] in rs && r[i].timestamp >= cutoff
    ensures forall e :: e in rs && e.timestamp >= cutoff ==> e in r
  {
    if |rs| == 0 then []
    else
      var rest := Since(rs[..|rs| - 1], cutoff);
      var e := rs[|rs| - 1];
      assert forall x :: x in rs ==> x in rs[..|rs| - 1] || x == e;
      if e.timestamp >= cutoff then rest + [e] else rest
  }

  function Reverse<T>(s: seq<T>): (r: seq<T>)
    ensures |r| == |s|
    ensures forall i :: 0 <= i < |s| ==> r[i] == s[|s| - 1 - i]
  {
    if |s| == 0 then [] else [s[|s| - 1]] + Reverse(s[..|s| - 1])
  }

  function Cutoff(now: int, seconds: int): int {
    now - seconds * 1000
  }

  /** `getRecentEvents`: the indexed records of `eventType` no older than
      the cutoff, newest first. */
  function RecentEvents(v: StoreView, eventType: Option<string>, seconds: int, now: int): (r: seq<LogRecord>)
    ensures forall i :: 0 <= i < |r| ==> r[i] in v.events && r[i].timestamp >= Cutoff(now, seconds)
  {
    var ids := if eventType in v.eventIndex then v.eventIndex[eventType] else [];
    Reverse(Since(Lookup(v.events, ids), Cutoff(now, seconds)))
  }

  /** `e.data.data.attackerID`: the attacker of the message behind a
      pipeline record; the initialisation record's inner object has none. */
  function AttackerOf(e: LogRecord): Option<int> {
    match e.data.body
    case PipelineBody(_, _, p) => p.attackerID
    case InitBody(_) => None
  }

  function CountKillsBy(rs: seq<LogRecord>, unitID: Option<int>, cutoff: int): nat {
    if |rs| == 0 then 0
    else
      CountKillsBy(rs[..|rs| - 1], unitID, cutoff)
      + (if AttackerOf(rs[|rs| - 1]) == unitID && rs[|rs| - 1].gameTime >= cutoff then 1 else 0)
  }

  /** `countKillsInWindow` */
  function CountKillsInWindow(v: StoreView, unitID: Option<int>, seconds: int, now: int): (r: nat)
    ensures r <= |RecentEvents(v, Some("UnitDestroyed"), seconds, now)|
  {
    var rs := RecentEvents(v, Some("UnitDestroyed"), seconds, now);
    CountKillsBounded(rs, unitID, v.gameState.gameTime - seconds);
    CountKillsBy(rs, unitID, v.gameState.gameTime - seconds)
  }

  lemma {:induction false} CountKillsBounded(rs: seq<LogRecord>, unitID: Option<int>, cutoff: int)
    ensures CountKillsBy(rs, unitID, cutoff) <= |rs|
  {
    if |rs| > 0 {
      CountKillsBounded(rs[..|rs| - 1], unitID, cutoff);
    }
  }

  // ---------------------------------------------------------------------
  // Damage and resource queries
  // ---------------------------------------------------------------------

  /** Total damage in `h` dealt by `attacker`. */
  function DamageDealt(h: seq<DamageSample>, attacker: Option<int>): int {
    if |h| == 0 then 0
    else DamageDealt(h[..|h| - 1], attacker) + (if h[|h| - 1].attacker == attacker then h[|h| - 1].damage else 0)
  }

  /** Total damage in `h` taken by unit `victim`. */
  function DamageTo(h: seq<DamageSample>, victim: UnitKey): int {
    if |h| == 0 then 0
    else DamageTo(h[..|h| - 1], victim) + (if h[|h| - 1].victim == victim then h[|h| - 1].damage else 0)
  }

  /** `getDamageDealtBy` */
  function DamageDealtBy(v: StoreView, unitID: Option<int>): int {
    DamageDealt(v.damageHistory, unitID)
  }

  /** `getDamageTakenBy` */
  function DamageTakenBy(v: StoreView, unitID: UnitKey): int {
    if unitID in v.units then v.units[unitID].damageTaken else 0
  }

  /** Number and total of the samples against team `team` since `cutoff`. */
  function TeamDamageSince(h: seq<DamageSample>, team: TeamId, cutoff: int): (nat, int) {
    if |h| == 0 then (0, 0)
    else
      var (c, t) := TeamDamageSince(h[..|h| - 1], team, cutoff);
      var d := h[|h| - 1];
      if d.victimTeam == Some(team) && d.timestamp >= cutoff then (c + 1, t + d.damage) else (c, t)
  }

  /** A JavaScript number as a division can produce it. */
  datatype JsNumber = Finite(value: real) | Infinity | NegInfinity | NaN

  /** JavaScript `x > t` for an integer `t`: NaN and -Infinity exceed nothing. */
  predicate Exceeds(x: JsNumber, t: int) {
    match x
    case Finite(r) => r > t as real
    case Infinity => true
    case NegInfinity => false
    case NaN => false
  }

  /** `getDamageRateInWindow`: 0 without samples in the window, otherwise
      the floating-point quotient `total / seconds`, which for a 0-second
      window is Infinity, -Infinity or NaN by the sign of the total. */
  function DamageRateInWindow(v: StoreView, team: TeamId, seconds: int, now: int): JsNumber {
    var (count, total) := TeamDamageSince(v.damageHistory, team, Cutoff(now, seconds));
    if count == 0 then Finite(0.0)
    else if seconds != 0 then Finite(total as real / seconds as real)
    else if total > 0 then Infinity
    else if total < 0 then NegInfinity
    else NaN
  }

  /** `isTeamBleeding`: is the damage rate `total / seconds` above the
      threshold? Stated over integers by cross-multiplying; a window of
      0 seconds gives Infinity (above any threshold) for a positive total
      and NaN or -Infinity (above none) otherwise. A window with no samples
      has rate 0. `StoreInvariants.BleedingIsRateAbove` proves it equal to
      comparing `DamageRateInWindow`. */
  function IsTeamBleeding(v: StoreView, team: TeamId, threshold: int, seconds: int, now: int): bool {
    var (count, total) := TeamDamageSince(v.damageHistory, team, Cutoff(now, seconds));
    if count == 0 then 0 > threshold
    else if seconds > 0 then total > threshold * seconds
    else if seconds < 0 then total < threshold * seconds
    else total > 0
  }

  datatype TrendPoint = TrendPoint(timestamp: int, income: int, usage: int, storage: int, excess: int)

  /** `s.stats[resource]` */
  function StatsFor(s: StatsSnapshot, resource: string): Option<ResourceStats> {
    if resource == "metal" then s.metal
    else if resource == "energy" then s.energy
    else if resource == "combat" then s.combat
    else None
  }

  function PointOf(s: StatsSample, resource: string): TrendPoint {
    match StatsFor(s.stats, resource)
    case None => TrendPoint(s.timestamp, 0, 0, 0, 0)
    case Some(rs) =>
      TrendPoint(s.timestamp, OrInt(rs.income, 0), OrInt(rs.usage, 0), OrInt(rs.storage, 0), OrInt(rs.excess, 0))
  }

  function Trend(h: seq<StatsSample>, team: TeamId, cutoff: int, resource: string): seq<TrendPoint> {
    if |h| == 0 then []
    else
      var rest := Trend(h[..|h| - 1], team, cutoff, resource);
      var s := h[|h| - 1];
      if s.teamID == team && s.timestamp >= cutoff then rest + [PointOf(s, resource)] else rest
  }

  /** `getResourceTrend` */
  function ResourceTrend(v: StoreView, team: TeamId, seconds: int, resource: string, now: int): seq<TrendPoint> {
    Trend(v.statsHistory, team, Cutoff(now, seconds), resource)
  }

  /** `getResourceStatus` */
  function ResourceStatus(v: StoreView, resource: string): (r: bool)
    ensures r ==> resource == "metal" || resource == "energy"
    ensures resource == "metal" ==> r == v.gameState.overflowMetal
    ensures resource == "energy" ==> r == v.gameState.overflowEnergy
  {
    if resource == "metal" then v.gameState.overflowMetal
    else if resource == "energy" then v.gameState.overflowEnergy
    else false
  }

  datatype TeamSummary = TeamSummary(totals: Option<Counters>)

  datatype Summary = Summary(gameTime: int, frame: int, myTeam: Option<TeamSummary>, eventCount: nat)

  /** `getGameSummary` */
  function GameSummary(v: StoreView): (r: Summary)
    ensures r.eventCount == |v.events|
    ensures r.myTeam.Some? <==> v.gameState.myTeamID in v.teams
    ensures r.myTeam.Some? ==> r.myTeam.value.totals == v.teams[v.gameState.myTeamID].counters
  {
    var my := if v.gameState.myTeamID in v.teams then Some(TeamSummary(v.teams[v.gameState.myTeamID].counters)) else None;
    Summary(v.gameState.gameTime, v.gameState.frame, my, |v.events|)
  }
}

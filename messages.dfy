/** The shape of one parsed message of the telemetry stream: a JSON object
    carrying an `event` tag and the fields the pipeline reads. Every field
    may be absent. */
module Messages {
  import opened Js

  /** A resource breakdown (`metal`, `energy` or `combat` block). Only the
      four fields that trend queries read are represented. */
  datatype ResourceStats = ResourceStats(
    income: Option<int>,
    usage: Option<int>,
    storage: Option<int>,
    excess: Option<int>)

  /** `{}` */
  const EmptyStats := ResourceStats(None, None, None, None)

  /** One entry of the `teams` object of an ally broadcast, keyed by team id. */
  datatype AllyEntry = AllyEntry(
    playerName: Option<string>,
    metal: Option<ResourceStats>,
    energy: Option<ResourceStats>)

  datatype Payload = Payload(
    event: Option<string>,
    frame: Option<int>,
    gameTime: Option<int>,
    // identity fields of the first message of a game
    myTeamID: Option<int>,
    myPlayerID: Option<int>,
    allyTeamID: Option<int>,
    playerName: Option<string>,
    // unit events
    unitID: Option<int>,
    unitDefID: Option<int>,
    unitName: Option<string>,
    unitTeam: Option<int>,
    unitTier: Option<int>,
    unitMetalCost: Option<int>,
    relation: Option<string>,
    damage: int,
    attackerID: Option<int>,
    attackerTeam: Option<int>,
    // resource snapshot
    metal: Option<ResourceStats>,
    energy: Option<ResourceStats>,
    combat: Option<ResourceStats>,
    // overflow notification
    resource: Option<string>,
    overflow: Option<string>,
    overflowMetal: Option<string>,
    overflowEnergy: Option<string>,
    // ally broadcast: team id -> entry
    teams: Option<seq<(int, AllyEntry)>>)

  /** A message with no fields at all (what a JSON number or array reads as). */
  const EmptyPayload := Payload(
    None, None, None,
    None, None, None, None,
    None, None, None, None, None, None, None, 0, None, None,
    None, None, None,
    None, None, None, None,
    None)

  /** What arrives on the stream: text that `JSON.parse` rejects (or the
      JSON `null`, whose `.event` access throws) or a parsed object. */
  datatype Raw = Malformed | Parsed(data: Payload)
}

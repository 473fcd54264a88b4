/** Invariants of the game state store and the lemmas that say which
    mutations keep them.

    - TeamCountsHold: a team's `unitCount` is the number of its live units
      and `totalMetalCost` their summed cost. The store does not guard it:
      it holds while units are added under fresh ids and only live units
      are destroyed.
    - IndexConsistent: record ids are log positions and the type index
      lists exactly the ids of each type, in order. Every mutation keeps it.
    - DamageLedger: every unit's `damageTaken` is the total of the damage
      samples naming it. Kept under the same fresh-id condition. */
module StoreInvariants {
  import opened Js
  import opened Messages
  import opened StoreModel

  // ---------------------------------------------------------------------
  // Unit filters under updates of the unit map
  // ---------------------------------------------------------------------

  function Indicator(b: bool): int {
    if b then 1 else 0
  }

  function CostIf(b: bool, u: Unit): int {
    if b then u.metalCost else 0
  }

  lemma CostSumAppend(us: seq<Unit>, u: Unit)
    ensures CostSum(us + [u]) == CostSum(us) + u.metalCost
  {
    assert (us + [u])[..|us|] == us;
  }

  /** Storing a unit under a key the order does not list leaves every
      filter over that order unchanged. */
  lemma {:induction false} UnitsWhereUnlisted(order: seq<UnitKey>, units: map<UnitKey, Unit>, f: UnitFilter, k: UnitKey, u: Unit)
    requires k !in order
    ensures UnitsWhere(order, units[k := u], f) == UnitsWhere(order, units, f)
  {
    if |order| > 0 {
      UnitsWhereUnlisted(order[..|order| - 1], units, f, k, u);
    }
  }

  /** What key `k` contributes to a filter. */
  function Hit(units: map<UnitKey, Unit>, f: UnitFilter, k: UnitKey): seq<Unit> {
    if k in units && Accepts(f, units[k]) then [units[k]] else []
  }

  lemma UnitsWhereStep(order: seq<UnitKey>, units: map<UnitKey, Unit>, f: UnitFilter)
    requires |order| > 0
    ensures UnitsWhere(order, units, f) == UnitsWhere(order[..|order| - 1], units, f) + Hit(units, f, order[|order| - 1])
  {
  }

  lemma {:induction false} CostSumConcat(a: seq<Unit>, b: seq<Unit>)
    ensures CostSum(a + b) == CostSum(a) + CostSum(b)
  {
    if |b| > 0 {
      var b' := b[..|b| - 1];
      assert (a + b)[..|a + b| - 1] == a + b';
      CostSumConcat(a, b');
    } else {
      assert a + b == a;
    }
  }

  /** Dropping the last key of a duplicate-free order: the rest is
      duplicate-free and holds `k` exactly when the last key is not `k`. */
  lemma PrefixOfDistinct(order: seq<UnitKey>, k: UnitKey)
    requires Distinct(order) && k in order
    ensures Distinct(order[..|order| - 1])
    ensures k in order[..|order| - 1] <==> order[|order| - 1] != k
  {
    var n := |order|;
    var init := order[..n - 1];
    if order[n - 1] == k {
      forall i | 0 <= i < |init| ensures init[i] != k { assert order[i] == init[i]; }
    } else {
      var i :| 0 <= i < n && order[i] == k;
      assert i < n - 1 && init[i] == k;
    }
  }

  /** Replacing the unit stored under a listed key changes a filter's size
      and cost sum by the difference of the two units' contributions. */
  lemma UnitsWhereReplace(order: seq<UnitKey>, units: map<UnitKey, Unit>, f: UnitFilter, k: UnitKey, u: Unit)
    requires Distinct(order) && k in order && k in units
    ensures |UnitsWhere(order, units[k := u], f)|
         == |UnitsWhere(order, units, f)| - Indicator(Accepts(f, units[k])) + Indicator(Accepts(f, u))
    ensures CostSum(UnitsWhere(order, units[k := u], f))
         == CostSum(UnitsWhere(order, units, f)) - CostIf(Accepts(f, units[k]), units[k]) + CostIf(Accepts(f, u), u)
  {
    ReplaceSize(order, units, f, k, u);
    ReplaceCost(order, units, f, k, u);
  }

  lemma {:induction false} ReplaceSize(order: seq<UnitKey>, units: map<UnitKey, Unit>, f: UnitFilter, k: UnitKey, u: Unit)
    requires Distinct(order) && k in order && k in units
    ensures |UnitsWhere(order, units[k := u], f)|
         == |UnitsWhere(order, units, f)| - Indicator(Accepts(f, units[k])) + Indicator(Accepts(f, u))
  {
    var n := |order|;
    var init := order[..n - 1];
    var last := order[n - 1];
    var units' := units[k := u];
    UnitsWhereStep(order, units, f);
    UnitsWhereStep(order, units', f);
    PrefixOfDistinct(order, k);
    if last == k {
      UnitsWhereUnlisted(init, units, f, k, u);
    } else {
      ReplaceSize(init, units, f, k, u);
      assert Hit(units', f, last) == Hit(units, f, last);
    }
  }

  lemma {:induction false} ReplaceCost(order: seq<UnitKey>, units: map<UnitKey, Unit>, f: UnitFilter, k: UnitKey, u: Unit)
    requires Distinct(order) && k in order && k in units
    ensures CostSum(UnitsWhere(order, units[k := u], f))
         == CostSum(UnitsWhere(order, units, f)) - CostIf(Accepts(f, units[k]), units[k]) + CostIf(Accepts(f, u), u)
  {
    var n := |order|;
    var init := order[..n - 1];
    var last := order[n - 1];
    var units' := units[k := u];
    UnitsWhereStep(order, units, f);
    UnitsWhereStep(order, units', f);
    var a := UnitsWhere(init, units, f);
    var a' := UnitsWhere(init, units', f);
    CostSumConcat(a, Hit(units, f, last));
    CostSumConcat(a', Hit(units', f, last));
    assert CostSum([units[k]]) == units[k].metalCost by { assert [units[k]][..0] == []; }
    assert CostSum([u]) == u.metalCost by { assert [u][..0] == []; }
    PrefixOfDistinct(order, k);
    if last == k {
      UnitsWhereUnlisted(init, units, f, k, u);
    } else {
      ReplaceCost(init, units, f, k, u);
      assert Hit(units', f, last) == Hit(units, f, last);
    }
  }

  /** Appending a key to the order appends its unit to a filter, if accepted. */
  lemma UnitsWhereAppend(order: seq<UnitKey>, units: map<UnitKey, Unit>, f: UnitFilter, k: UnitKey)
    ensures UnitsWhere(order + [k], units, f)
         == UnitsWhere(order, units, f) + (if k in units && Accepts(f, units[k]) then [units[k]] else [])
  {
    assert (order + [k])[..|order|] == order;
  }

  /** The positions of `order` whose key is stored and accepted, ascending. */
  ghost function AcceptedPositions(order: seq<UnitKey>, units: map<UnitKey, Unit>, f: UnitFilter): seq<nat>
    decreases |order|
  {
    if |order| == 0 then []
    else
      var n := |order| - 1;
      AcceptedPositions(order[..n], units, f) + (if order[n] in units && Accepts(f, units[order[n]]) then [n] else [])
  }

  /** `r` lists the units of the positions `pos`, which ascend strictly and
      are exactly the positions of `order` whose key is stored and accepted. */
  ghost predicate ListsPositions(order: seq<UnitKey>, units: map<UnitKey, Unit>, f: UnitFilter, r: seq<Unit>, pos: seq<nat>) {
    && |pos| == |r|
    && (forall k :: 0 <= k < |pos| ==> pos[k] < |order| && order[pos[k]] in units && r[k] == units[order[pos[k]]])
    && (forall k :: 0 <= k < |pos| ==> pos[k] < |order| && order[pos[k]] in units && Accepts(f, units[order[pos[k]]]))
    && (forall k, l :: 0 <= k < l < |pos| ==> pos[k] < pos[l])
    && (forall i :: 0 <= i < |order| && order[i] in units && Accepts(f, units[order[i]]) ==> i in pos)
  }

  lemma ListsPositionsStep(order: seq<UnitKey>, units: map<UnitKey, Unit>, f: UnitFilter,
                           r0: seq<Unit>, p0: seq<nat>, r: seq<Unit>, pos: seq<nat>)
    requires |order| > 0
    requires ListsPositions(order[..|order| - 1], units, f, r0, p0)
    requires r == r0 + Hit(units, f, order[|order| - 1])
    requires pos == p0 + (if order[|order| - 1] in units && Accepts(f, units[order[|order| - 1]]) then [|order| - 1] else [])
    ensures ListsPositions(order, units, f, r, pos)
  {
    var n := |order| - 1;
    var init := order[..n];
    forall k | 0 <= k < |pos| ensures pos[k] < |order| && order[pos[k]] in units && r[k] == units[order[pos[k]]] {
      if k < |p0| {
        assert pos[k] == p0[k] && r[k] == r0[k] && init[p0[k]] == order[p0[k]];
      }
    }
    forall i | 0 <= i < |order| && order[i] in units && Accepts(f, units[order[i]]) ensures i in pos {
      if i < n {
        assert init[i] == order[i];
      }
    }
  }

  /** A filter over Map iteration order returns the units of the accepted
      positions, each position once and in ascending order: `r[k]` is the
      unit of the `k`-th accepted key. */
  lemma {:induction false} UnitsWhereInOrder(order: seq<UnitKey>, units: map<UnitKey, Unit>, f: UnitFilter)
    decreases |order|
    ensures ListsPositions(order, units, f, UnitsWhere(order, units, f), AcceptedPositions(order, units, f))
  {
    if |order| > 0 {
      var n := |order| - 1;
      UnitsWhereInOrder(order[..n], units, f);
      UnitsWhereStep(order, units, f);
      ListsPositionsStep(order, units, f, UnitsWhere(order[..n], units, f), AcceptedPositions(order[..n], units, f),
                         UnitsWhere(order, units, f), AcceptedPositions(order, units, f));
    }
  }

  // ---------------------------------------------------------------------
  // Team counts
  // ---------------------------------------------------------------------

  /** The live units of team `t`, as `getTeamUnits(t)` returns them. */
  function LiveUnits(v: StoreView, t: TeamId): seq<Unit> {
    TeamUnits(v, Some(t), false)
  }

  /** Every team with numeric aggregates counts exactly its live units and
      their metal cost. */
  ghost predicate TeamCountsHold(v: StoreView) {
    forall t :: t in v.teams && v.teams[t].counters.Some? ==>
      && v.teams[t].counters.value.unitCount == |LiveUnits(v, t)|
      && v.teams[t].counters.value.totalMetalCost == CostSum(LiveUnits(v, t))
  }

  lemma AdjustedCounts(t: Team, d: Counters)
    ensures Adjust(t, d).counters.Some? <==> t.counters.Some?
    ensures t.counters.Some? ==>
      && Adjust(t, d).counters.value.unitCount == t.counters.value.unitCount + d.unitCount
      && Adjust(t, d).counters.value.totalMetalCost == t.counters.value.totalMetalCost + d.totalMetalCost
  {
  }

  lemma AddUnitWellFormed(v: StoreView, id: UnitKey, data: UnitData)
    requires WellFormed(v)
    ensures WellFormed(AddUnit(v, id, data))
  {
    var r := AddUnit(v, id, data);
    if id !in v.units {
      assert id !in v.unitOrder;
      assert forall i :: 0 <= i < |v.unitOrder| ==> r.unitOrder[i] == v.unitOrder[i];
    }
  }

  /** `addUnit` under an id not yet stored keeps the counts. */
  lemma AddUnitKeepsCounts(v: StoreView, id: UnitKey, data: UnitData)
    requires WellFormed(v) && TeamCountsHold(v) && id !in v.units
    ensures TeamCountsHold(AddUnit(v, id, data))
  {
    var r := AddUnit(v, id, data);
    assert id !in v.unitOrder;
    forall t | t in r.teams && r.teams[t].counters.Some?
      ensures r.teams[t].counters.value.unitCount == |LiveUnits(r, t)|
      ensures r.teams[t].counters.value.totalMetalCost == CostSum(LiveUnits(r, t))
    {
      AppendUnitCounts(v, r, id, r.units[id], t);
    }
  }

  /** The step of AddUnitKeepsCounts for one team: a live unit stored under
      a new key joins the team's live units exactly when the team owns it,
      and the team is credited with it exactly then. */
  lemma AppendUnitCounts(v: StoreView, r: StoreView, id: UnitKey, u: Unit, t: TeamId)
    requires id !in v.unitOrder && !u.destroyed
    requires r.units == v.units[id := u] && r.unitOrder == v.unitOrder + [id]
    requires t in v.teams && t in r.teams && v.teams[t].counters.Some?
    requires v.teams[t].counters.value.unitCount == |LiveUnits(v, t)|
    requires v.teams[t].counters.value.totalMetalCost == CostSum(LiveUnits(v, t))
    requires r.teams[t] == if u.teamID == Some(t) then Adjust(v.teams[t], AddedDelta(u.metalCost)) else v.teams[t]
    ensures r.teams[t].counters.Some?
    ensures r.teams[t].counters.value.unitCount == |LiveUnits(r, t)|
    ensures r.teams[t].counters.value.totalMetalCost == CostSum(LiveUnits(r, t))
  {
    var f := OfTeam(Some(t), false);
    UnitsWhereAppend(v.unitOrder, r.units, f, id);
    UnitsWhereUnlisted(v.unitOrder, v.units, f, id, u);
    assert LiveUnits(r, t) == LiveUnits(v, t) + (if Accepts(f, u) then [u] else []);
    CostSumAppend(LiveUnits(v, t), u);
    AdjustedCounts(v.teams[t], AddedDelta(u.metalCost));
  }

  /** Re-adding a live unit's id on its own team breaks the counts: the
      replaced unit no longer counts, yet the team is credited again. */
  lemma ReAddBreaksCounts(v: StoreView, id: UnitKey, data: UnitData, t: TeamId)
    requires WellFormed(v) && TeamCountsHold(v)
    requires id in v.units && !v.units[id].destroyed && v.units[id].teamID == Some(t)
    requires t in v.teams && v.teams[t].counters.Some? && data.unitTeam == Some(t)
    ensures !TeamCountsHold(AddUnit(v, id, data))
  {
    var r := AddUnit(v, id, data);
    UnitsWhereReplace(v.unitOrder, v.units, OfTeam(Some(t), false), id, r.units[id]);
    AdjustedCounts(v.teams[t], AddedDelta(r.units[id].metalCost));
    assert r.teams[t].counters.value.unitCount == |LiveUnits(r, t)| + 1;
  }

  lemma DestroyUnitWellFormed(v: StoreView, id: UnitKey, attackerID: Option<int>, attackerTeam: Option<int>)
    requires WellFormed(v)
    ensures WellFormed(DestroyUnit(v, id, attackerID, attackerTeam))
  {
  }

  /** `destroyUnit` on a stored, live unit keeps the counts. */
  lemma DestroyUnitKeepsCounts(v: StoreView, id: UnitKey, attackerID: Option<int>, attackerTeam: Option<int>)
    requires WellFormed(v) && TeamCountsHold(v) && id in v.units && !v.units[id].destroyed
    ensures TeamCountsHold(DestroyUnit(v, id, attackerID, attackerTeam))
  {
    var r := DestroyUnit(v, id, attackerID, attackerTeam);
    var u := v.units[id];
    var u' := r.units[id];
    forall t | t in r.teams && r.teams[t].counters.Some?
      ensures r.teams[t].counters.value.unitCount == |LiveUnits(r, t)|
      ensures r.teams[t].counters.value.totalMetalCost == CostSum(LiveUnits(r, t))
    {
      UnitsWhereReplace(v.unitOrder, v.units, OfTeam(Some(t), false), id, u');
      var owner := if u.teamID == Some(t) then Adjust(v.teams[t], LostDelta(u.metalCost)) else v.teams[t];
      AdjustedCounts(v.teams[t], LostDelta(u.metalCost));
      AdjustedCounts(owner, KillDelta);
    }
  }

  /** Destroying an already destroyed unit breaks the counts: the owner is
      debited a second time for a unit that no longer counts. */
  lemma DoubleDestroyBreaksCounts(v: StoreView, id: UnitKey, attackerID: Option<int>, attackerTeam: Option<int>, t: TeamId)
    requires WellFormed(v) && TeamCountsHold(v)
    requires id in v.units && v.units[id].destroyed && v.units[id].teamID == Some(t)
    requires t in v.teams && v.teams[t].counters.Some?
    ensures !TeamCountsHold(DestroyUnit(v, id, attackerID, attackerTeam))
  {
    var r := DestroyUnit(v, id, attackerID, attackerTeam);
    var u := v.units[id];
    UnitsWhereReplace(v.unitOrder, v.units, OfTeam(Some(t), false), id, r.units[id]);
    var owner := Adjust(v.teams[t], LostDelta(u.metalCost));
    AdjustedCounts(v.teams[t], LostDelta(u.metalCost));
    AdjustedCounts(owner, KillDelta);
    assert r.teams[t].counters.value.unitCount == |LiveUnits(r, t)| - 1;
  }

  /** `damageUnit` keeps the counts, whatever its arguments. */
  lemma DamageUnitKeepsCounts(v: StoreView, id: UnitKey, damage: int, attackerID: Option<int>,
                              attackerTeam: Option<int>, now: int)
    requires WellFormed(v) && TeamCountsHold(v)
    ensures TeamCountsHold(DamageUnit(v, id, damage, attackerID, attackerTeam, now))
  {
    if id in v.units {
      var r := DamageUnit(v, id, damage, attackerID, attackerTeam, now);
      forall t | t in r.teams && r.teams[t].counters.Some?
        ensures r.teams[t].counters.value.unitCount == |LiveUnits(r, t)|
        ensures r.teams[t].counters.value.totalMetalCost == CostSum(LiveUnits(r, t))
      {
        ReplaceKeepsLiveUnits(v, r, id, r.units[id], t);
        var dealt := if attackerTeam == Some(t) then Adjust(v.teams[t], DealtDelta(damage)) else v.teams[t];
        AdjustedCounts(v.teams[t], DealtDelta(damage));
        AdjustedCounts(dealt, TakenDelta(damage));
      }
    }
  }

  /** Replacing a stored unit by one of the same team, cost and liveness
      keeps every team's live-unit count and cost. */
  lemma ReplaceKeepsLiveUnits(v: StoreView, r: StoreView, id: UnitKey, u: Unit, t: TeamId)
    requires WellFormed(v) && id in v.units
    requires r.units == v.units[id := u] && r.unitOrder == v.unitOrder
    requires u.teamID == v.units[id].teamID && u.destroyed == v.units[id].destroyed
    requires u.metalCost == v.units[id].metalCost
    ensures |LiveUnits(r, t)| == |LiveUnits(v, t)|
    ensures CostSum(LiveUnits(r, t)) == CostSum(LiveUnits(v, t))
  {
    UnitsWhereReplace(v.unitOrder, v.units, OfTeam(Some(t), false), id, u);
  }

  /** `updateTeamStats` keeps the counts. */
  lemma UpdateTeamStatsKeepsCounts(v: StoreView, teamID: TeamId, stats: StatsSnapshot, now: int)
    requires TeamCountsHold(v)
    ensures TeamCountsHold(UpdateTeamStats(v, teamID, stats, now))
  {
    var r := UpdateTeamStats(v, teamID, stats, now);
    forall t | t in r.teams && r.teams[t].counters.Some?
      ensures r.teams[t].counters.value.unitCount == |LiveUnits(r, t)|
      ensures r.teams[t].counters.value.totalMetalCost == CostSum(LiveUnits(r, t))
    {
      assert LiveUnits(r, t) == LiveUnits(v, t);
    }
  }

  /** `initGame` keeps the counts when the player's team has no live unit
      yet, because it resets that team's aggregates to zero. */
  lemma InitGameKeepsCounts(v: StoreView, info: PlayerInfo, now: int)
    requires TeamCountsHold(v) && LiveUnits(v, info.myTeamID) == []
    ensures TeamCountsHold(InitGame(v, info, now))
  {
    var r := InitGame(v, info, now);
    forall t | t in r.teams && r.teams[t].counters.Some?
      ensures r.teams[t].counters.value.unitCount == |LiveUnits(r, t)|
      ensures r.teams[t].counters.value.totalMetalCost == CostSum(LiveUnits(r, t))
    {
      assert LiveUnits(r, t) == LiveUnits(v, t);
    }
  }

  /** `initGame` while the player's team has live units breaks the counts. */
  lemma LateInitBreaksCounts(v: StoreView, info: PlayerInfo, now: int)
    requires |LiveUnits(v, info.myTeamID)| > 0
    ensures !TeamCountsHold(InitGame(v, info, now))
  {
    var r := InitGame(v, info, now);
    assert LiveUnits(r, info.myTeamID) == LiveUnits(v, info.myTeamID);
  }

  /** `reset` restores the counts from any state. */
  lemma ResetEstablishesInvariants(v: StoreView)
    ensures WellFormed(Reset(v)) && TeamCountsHold(Reset(v))
    ensures IndexConsistent(Reset(v)) && DamageLedger(Reset(v))
  {
  }

  /** The counts agree with the queries: `unitCount` is the length of
      `getTeamUnits(t)` and `totalMetalCost` the cost of what it returns. */
  lemma CountsMatchTeamUnits(v: StoreView, t: TeamId)
    requires TeamCountsHold(v) && t in v.teams && v.teams[t].counters.Some?
    ensures v.teams[t].counters.value.unitCount == |TeamUnits(v, Some(t), false)|
    ensures v.teams[t].counters.value.totalMetalCost == CostSum(TeamUnits(v, Some(t), false))
    ensures v.teams[t].counters.value.unitCount >= 0
  {
  }

  // ---------------------------------------------------------------------
  // Event log and its index
  // ---------------------------------------------------------------------

  /** The positions of the records of type `t`, in increasing order. */
  function IdsOfType(events: seq<LogRecord>, t: Option<string>): seq<nat> {
    if |events| == 0 then []
    else IdsOfType(events[..|events| - 1], t) + (if events[|events| - 1].eventType == t then [|events| - 1] else [])
  }

  /** The records of type `t`, in log order. */
  function OfType(events: seq<LogRecord>, t: Option<string>): seq<LogRecord> {
    if |events| == 0 then []
    else OfType(events[..|events| - 1], t) + (if events[|events| - 1].eventType == t then [events[|events| - 1]] else [])
  }

  ghost predicate IndexConsistent(v: StoreView) {
    && (forall i :: 0 <= i < |v.events| ==> v.events[i].id == i)
    && (forall i :: 0 <= i < |v.events| ==> v.events[i].eventType in v.eventIndex)
    && (forall t :: t in v.eventIndex ==> v.eventIndex[t] == IdsOfType(v.events, t))
    && (forall t :: t in v.eventIndex ==> |v.eventIndex[t]| > 0)
  }

  /** Appending a record to the log is appending at most one id. */
  lemma IdsOfTypeAppend(events: seq<LogRecord>, e: LogRecord, t: Option<string>)
    ensures IdsOfType(events + [e], t) == IdsOfType(events, t) + (if e.eventType == t then [|events|] else [])
    ensures OfType(events + [e], t) == OfType(events, t) + (if e.eventType == t then [e] else [])
  {
    assert (events + [e])[..|events|] == events;
  }

  lemma {:induction false} IdsOfTypeEmpty(events: seq<LogRecord>, t: Option<string>)
    requires forall i :: 0 <= i < |events| ==> events[i].eventType != t
    ensures IdsOfType(events, t) == [] && OfType(events, t) == []
  {
    if |events| > 0 {
      IdsOfTypeEmpty(events[..|events| - 1], t);
    }
  }

  /** `logEvent` keeps the index consistent with the log. */
  lemma LogEventKeepsIndex(v: StoreView, input: LogInput, now: int)
    requires IndexConsistent(v)
    ensures IndexConsistent(LogEvent(v, input, now))
  {
    var r := LogEvent(v, input, now);
    var e := r.events[|v.events|];
    assert r.events == v.events + [e];
    forall t | t in r.eventIndex ensures r.eventIndex[t] == IdsOfType(r.events, t) {
      IdsOfTypeAppend(v.events, e, t);
      if t == input.event && t !in v.eventIndex {
        IdsOfTypeEmpty(v.events, t);
      }
    }
  }

  /** Looking up the ids of type `t` yields the records of type `t`. */
  lemma {:induction false} LookupIdsOfType(events: seq<LogRecord>, k: nat, t: Option<string>)
    requires k <= |events|
    ensures Lookup(events, IdsOfType(events[..k], t)) == OfType(events[..k], t)
  {
    if k > 0 {
      var pre := events[..k];
      assert pre[..k - 1] == events[..k - 1];
      LookupIdsOfType(events, k - 1, t);
      var ids := IdsOfType(events[..k - 1], t);
      if pre[k - 1].eventType == t {
        var ids' := ids + [k - 1];
        assert ids'[..|ids'| - 1] == ids;
        assert IdsOfType(pre, t) == ids';
        assert Lookup(events, ids') == Lookup(events, ids) + [events[k - 1]];
      } else {
        assert IdsOfType(pre, t) == ids + [] == ids;
        assert OfType(pre, t) == OfType(events[..k - 1], t) + [];
      }
    }
  }

  /** Under a consistent index, `getRecentEvents(t)` is the records of type
      `t` since the cutoff, newest first. */
  lemma RecentEventsAreFilteredLog(v: StoreView, t: Option<string>, seconds: int, now: int)
    requires IndexConsistent(v)
    ensures RecentEvents(v, t, seconds, now) == Reverse(Since(OfType(v.events, t), Cutoff(now, seconds)))
  {
    assert v.events[..|v.events|] == v.events;
    if t in v.eventIndex {
      LookupIdsOfType(v.events, |v.events|, t);
    } else {
      IdsOfTypeEmpty(v.events, t);
    }
  }

  lemma {:induction false} OfTypeMembers(events: seq<LogRecord>, t: Option<string>)
    ensures forall e :: e in OfType(events, t) <==> e in events && e.eventType == t
  {
    if |events| > 0 {
      var init := events[..|events| - 1];
      OfTypeMembers(init, t);
      assert forall e :: e in events <==> e in init || e == events[|events| - 1];
    }
  }

  ghost predicate IdsIncreasing(rs: seq<LogRecord>) {
    forall i, j :: 0 <= i < j < |rs| ==> rs[i].id < rs[j].id
  }

  lemma {:induction false} OfTypeIncreasing(events: seq<LogRecord>, t: Option<string>)
    requires forall i :: 0 <= i < |events| ==> events[i].id == i
    ensures IdsIncreasing(OfType(events, t))
    ensures forall e :: e in OfType(events, t) ==> e.id < |events|
  {
    if |events| > 0 {
      var init := events[..|events| - 1];
      OfTypeIncreasing(init, t);
    }
  }

  lemma {:induction false} SinceIncreasing(rs: seq<LogRecord>, cutoff: int)
    requires IdsIncreasing(rs)
    ensures IdsIncreasing(Since(rs, cutoff))
  {
    if |rs| > 0 {
      var init := rs[..|rs| - 1];
      SinceIncreasing(init, cutoff);
      var s := Since(init, cutoff);
      forall i | 0 <= i < |s| ensures s[i].id < rs[|rs| - 1].id {
        var j :| 0 <= j < |init| && init[j] == s[i];
      }
    }
  }

  /** `getRecentEvents(t)` returns every record of type `t` no older than
      the cutoff and nothing else. */
  lemma RecentEventsMembers(v: StoreView, t: Option<string>, seconds: int, now: int)
    requires IndexConsistent(v)
    ensures forall e :: e in RecentEvents(v, t, seconds, now) <==>
      e in v.events && e.eventType == t && e.timestamp >= Cutoff(now, seconds)
  {
    RecentEventsAreFilteredLog(v, t, seconds, now);
    OfTypeMembers(v.events, t);
    var s := Since(OfType(v.events, t), Cutoff(now, seconds));
    ReverseMembers(s);
  }

  lemma ReverseMembers<T>(s: seq<T>)
    ensures forall e :: e in Reverse(s) <==> e in s
  {
    var r := Reverse(s);
    forall e | e in s ensures e in r {
      var i :| 0 <= i < |s| && s[i] == e;
      assert r[|s| - 1 - i] == e;
    }
  }

  /** `getRecentEvents(t)` lists the records newest first. */
  lemma RecentEventsNewestFirst(v: StoreView, t: Option<string>, seconds: int, now: int)
    requires IndexConsistent(v)
    ensures var r := RecentEvents(v, t, seconds, now);
      forall i, j :: 0 <= i < j < |r| ==> r[i].id > r[j].id
  {
    RecentEventsAreFilteredLog(v, t, seconds, now);
    OfTypeIncreasing(v.events, t);
    SinceIncreasing(OfType(v.events, t), Cutoff(now, seconds));
  }

  /** Every logged record carries no type tag or the initialisation tag:
      what the pipeline and `initGame` log. */
  ghost predicate OnlyUntaggedOrInit(v: StoreView) {
    forall i :: 0 <= i < |v.events| ==> v.events[i].eventType == None || v.events[i].eventType == Some("GameInitialized")
  }

  /** With such a log, `countKillsInWindow` is 0 for every unit: no record
      has the type `UnitDestroyed` it looks up. */
  lemma KillWindowEmptyWithoutTags(v: StoreView, unitID: Option<int>, seconds: int, now: int)
    requires IndexConsistent(v) && OnlyUntaggedOrInit(v)
    ensures RecentEvents(v, Some("UnitDestroyed"), seconds, now) == []
    ensures CountKillsInWindow(v, unitID, seconds, now) == 0
  {
    IdsOfTypeEmpty(v.events, Some("UnitDestroyed"));
    assert Some("UnitDestroyed") !in v.eventIndex;
  }

  /** A record `countKillsInWindow` counts: its message names the attacker
      and its game time is inside the game-time window. */
  ghost predicate IsKillBy(e: LogRecord, unitID: Option<int>, cutoff: int) {
    AttackerOf(e) == unitID && e.gameTime >= cutoff
  }

  /** The distinct records of `rs` that `countKillsInWindow` counts. */
  ghost function KillSet(rs: seq<LogRecord>, unitID: Option<int>, cutoff: int): set<LogRecord> {
    set e | e in rs && IsKillBy(e, unitID, cutoff)
  }

  lemma KillSetSnoc(p: seq<LogRecord>, x: LogRecord, unitID: Option<int>, cutoff: int)
    ensures KillSet(p + [x], unitID, cutoff) ==
      KillSet(p, unitID, cutoff) + (if IsKillBy(x, unitID, cutoff) then {x} else {})
  {
    var a := KillSet(p + [x], unitID, cutoff);
    var b := KillSet(p, unitID, cutoff) + (if IsKillBy(x, unitID, cutoff) then {x} else {});
    forall e | e in a ensures e in b {
      assert e in p || e == x;
    }
  }

  /** Over a list without repeats, the kill count is the number of distinct
      records it counts. */
  lemma {:induction false} CountKillsIsCard(rs: seq<LogRecord>, unitID: Option<int>, cutoff: int)
    requires Distinct(rs)
    decreases |rs|
    ensures CountKillsBy(rs, unitID, cutoff) == |KillSet(rs, unitID, cutoff)|
  {
    if |rs| == 0 {
      assert KillSet(rs, unitID, cutoff) == {};
    } else {
      var n := |rs| - 1;
      var p := rs[..n];
      var x := rs[n];
      assert rs == p + [x];
      DistinctSnoc(rs);
      CountKillsIsCard(p, unitID, cutoff);
      KillSetSnoc(p, x, unitID, cutoff);
    }
  }

  /** Dropping the last element keeps a list without repeats, and that
      element is not among the rest. */
  lemma DistinctSnoc<T>(s: seq<T>)
    requires |s| > 0 && Distinct(s)
    ensures Distinct(s[..|s| - 1]) && s[|s| - 1] !in s[..|s| - 1]
  {
    var n := |s| - 1;
    forall i | 0 <= i < n ensures s[..n][i] != s[n] {
      assert s[..n][i] == s[i];
    }
  }

  /** The logged `UnitDestroyed` records inside the clock window of
      `seconds` whose message names `unitID` as attacker and whose game time
      is at least `gameTime - seconds`. */
  ghost function WindowKills(v: StoreView, unitID: Option<int>, seconds: int, now: int): set<LogRecord> {
    set e | e in v.events && e.eventType == Some("UnitDestroyed") && e.timestamp >= Cutoff(now, seconds)
            && IsKillBy(e, unitID, v.gameState.gameTime - seconds)
  }

  /** Records with strictly decreasing ids are all different. */
  lemma DecreasingIdsDistinct(rs: seq<LogRecord>)
    requires forall i, j :: 0 <= i < j < |rs| ==> rs[i].id > rs[j].id
    ensures Distinct(rs)
  {
    forall i, j | 0 <= i < j < |rs| ensures rs[i] != rs[j] {
      assert rs[i].id > rs[j].id;
    }
  }

  /** Over records with strictly decreasing ids, the kill count is the
      number of distinct counted records. */
  lemma DecreasingKillCount(rs: seq<LogRecord>, unitID: Option<int>, cutoff: int)
    requires forall i, j :: 0 <= i < j < |rs| ==> rs[i].id > rs[j].id
    ensures CountKillsBy(rs, unitID, cutoff) == |KillSet(rs, unitID, cutoff)|
  {
    DecreasingIdsDistinct(rs);
    CountKillsIsCard(rs, unitID, cutoff);
  }

  /** A list holding exactly the logged `UnitDestroyed` records of the clock
      window counts the records of `WindowKills`. */
  lemma KillSetOfWindow(rs: seq<LogRecord>, v: StoreView, unitID: Option<int>, seconds: int, now: int)
    requires forall e :: e in rs <==> e in v.events && e.eventType == Some("UnitDestroyed") && e.timestamp >= Cutoff(now, seconds)
    ensures |KillSet(rs, unitID, v.gameState.gameTime - seconds)| == |WindowKills(v, unitID, seconds, now)|
  {
    assert KillSet(rs, unitID, v.gameState.gameTime - seconds) == WindowKills(v, unitID, seconds, now);
  }

  lemma RecentKillCount(v: StoreView, unitID: Option<int>, seconds: int, now: int)
    requires IndexConsistent(v)
    ensures var rs := RecentEvents(v, Some("UnitDestroyed"), seconds, now);
      CountKillsBy(rs, unitID, v.gameState.gameTime - seconds) == |KillSet(rs, unitID, v.gameState.gameTime - seconds)|
  {
    RecentEventsNewestFirst(v, Some("UnitDestroyed"), seconds, now);
    DecreasingKillCount(RecentEvents(v, Some("UnitDestroyed"), seconds, now), unitID, v.gameState.gameTime - seconds);
  }

  lemma RecentKillSet(v: StoreView, unitID: Option<int>, seconds: int, now: int)
    requires IndexConsistent(v)
    ensures var rs := RecentEvents(v, Some("UnitDestroyed"), seconds, now);
      |KillSet(rs, unitID, v.gameState.gameTime - seconds)| == |WindowKills(v, unitID, seconds, now)|
  {
    RecentEventsMembers(v, Some("UnitDestroyed"), seconds, now);
    KillSetOfWindow(RecentEvents(v, Some("UnitDestroyed"), seconds, now), v, unitID, seconds, now);
  }

  lemma WindowKillsNonEmpty(v: StoreView, unitID: Option<int>, seconds: int, now: int)
    ensures |WindowKills(v, unitID, seconds, now)| > 0 <==>
      exists e :: e in v.events && e.eventType == Some("UnitDestroyed") && e.timestamp >= Cutoff(now, seconds)
                  && IsKillBy(e, unitID, v.gameState.gameTime - seconds)
  {
    var w := WindowKills(v, unitID, seconds, now);
    if exists e :: e in v.events && e.eventType == Some("UnitDestroyed") && e.timestamp >= Cutoff(now, seconds)
                   && IsKillBy(e, unitID, v.gameState.gameTime - seconds) {
      var e :| e in v.events && e.eventType == Some("UnitDestroyed") && e.timestamp >= Cutoff(now, seconds)
               && IsKillBy(e, unitID, v.gameState.gameTime - seconds);
      assert e in w;
    } else {
      assert w == {};
    }
  }

  lemma CountKillsOfRecent(v: StoreView, unitID: Option<int>, seconds: int, now: int)
    ensures CountKillsInWindow(v, unitID, seconds, now) ==
      CountKillsBy(RecentEvents(v, Some("UnitDestroyed"), seconds, now), unitID, v.gameState.gameTime - seconds)
  {
  }

  lemma CountKillsIsWindowKills(v: StoreView, unitID: Option<int>, seconds: int, now: int)
    requires IndexConsistent(v)
    ensures CountKillsInWindow(v, unitID, seconds, now) == |WindowKills(v, unitID, seconds, now)|
  {
    CountKillsOfRecent(v, unitID, seconds, now);
    RecentKillCount(v, unitID, seconds, now);
    RecentKillSet(v, unitID, seconds, now);
  }

  /** `countKillsInWindow` counts exactly the records of `WindowKills`; in
      particular it is positive exactly when such a record exists. */
  lemma CountKillsInWindowSpec(v: StoreView, unitID: Option<int>, seconds: int, now: int)
    requires IndexConsistent(v)
    ensures CountKillsInWindow(v, unitID, seconds, now) == |WindowKills(v, unitID, seconds, now)|
    ensures CountKillsInWindow(v, unitID, seconds, now) > 0 <==>
      exists e :: e in v.events && e.eventType == Some("UnitDestroyed") && e.timestamp >= Cutoff(now, seconds)
                  && IsKillBy(e, unitID, v.gameState.gameTime - seconds)
  {
    CountKillsIsWindowKills(v, unitID, seconds, now);
    WindowKillsNonEmpty(v, unitID, seconds, now);
  }

  // ---------------------------------------------------------------------
  // Damage ledger
  // ---------------------------------------------------------------------

  ghost predicate DamageLedger(v: StoreView) {
    && (forall i :: 0 <= i < |v.damageHistory| ==> v.damageHistory[i].victim in v.units)
    && (forall k :: k in v.units ==> v.units[k].damageTaken == DamageTo(v.damageHistory, k))
  }

  lemma {:induction false} DamageToAbsent(h: seq<DamageSample>, k: UnitKey)
    requires forall i :: 0 <= i < |h| ==> h[i].victim != k
    ensures DamageTo(h, k) == 0
  {
    if |h| > 0 {
      DamageToAbsent(h[..|h| - 1], k);
    }
  }

  lemma DamageAppend(h: seq<DamageSample>, d: DamageSample, k: UnitKey, a: Option<int>)
    ensures DamageTo(h + [d], k) == DamageTo(h, k) + (if d.victim == k then d.damage else 0)
    ensures DamageDealt(h + [d], a) == DamageDealt(h, a) + (if d.attacker == a then d.damage else 0)
  {
    assert (h + [d])[..|h|] == h;
  }

  /** `addUnit` under a fresh id keeps the ledger. */
  lemma AddUnitKeepsLedger(v: StoreView, id: UnitKey, data: UnitData)
    requires DamageLedger(v) && id !in v.units
    ensures DamageLedger(AddUnit(v, id, data))
  {
    DamageToAbsent(v.damageHistory, id);
  }

  /** `damageUnit` keeps the ledger. */
  lemma DamageUnitKeepsLedger(v: StoreView, id: UnitKey, damage: int, attackerID: Option<int>,
                              attackerTeam: Option<int>, now: int)
    requires DamageLedger(v)
    ensures DamageLedger(DamageUnit(v, id, damage, attackerID, attackerTeam, now))
  {
    if id in v.units {
      var r := DamageUnit(v, id, damage, attackerID, attackerTeam, now);
      var d := r.damageHistory[|v.damageHistory|];
      assert r.damageHistory == v.damageHistory + [d];
      forall k | k in r.units ensures r.units[k].damageTaken == DamageTo(r.damageHistory, k) {
        DamageAppend(v.damageHistory, d, k, None);
      }
    }
  }

  /** `destroyUnit` keeps the ledger. */
  lemma DestroyUnitKeepsLedger(v: StoreView, id: UnitKey, attackerID: Option<int>, attackerTeam: Option<int>)
    requires DamageLedger(v)
    ensures DamageLedger(DestroyUnit(v, id, attackerID, attackerTeam))
  {
  }

  /** Under the ledger, `getDamageTakenBy(k)` is the damage the history
      records against `k`, for stored and unknown ids alike. */
  lemma DamageTakenMatchesHistory(v: StoreView, k: UnitKey)
    requires DamageLedger(v)
    ensures DamageTakenBy(v, k) == DamageTo(v.damageHistory, k)
  {
    if k !in v.units {
      DamageToAbsent(v.damageHistory, k);
    }
  }

  /** `getDamageDealtBy(a)` grows by exactly the damage of a hit by `a`, and
      not at all for a hit on an unknown unit. */
  lemma DamageDealtAfterHit(v: StoreView, id: UnitKey, damage: int, attackerID: Option<int>,
                            attackerTeam: Option<int>, now: int, a: Option<int>)
    ensures DamageDealtBy(DamageUnit(v, id, damage, attackerID, attackerTeam, now), a)
         == DamageDealtBy(v, a) + (if id in v.units && attackerID == a then damage else 0)
  {
    if id in v.units {
      var r := DamageUnit(v, id, damage, attackerID, attackerTeam, now);
      var d := r.damageHistory[|v.damageHistory|];
      assert r.damageHistory == v.damageHistory + [d];
      DamageAppend(v.damageHistory, d, id, a);
    }
  }

  /** Dividing by a non-zero number of seconds and comparing with the
      threshold is the integer cross-multiplication. */
  lemma QuotientAbove(total: int, seconds: int, threshold: int)
    requires seconds != 0
    ensures total as real / seconds as real > threshold as real <==>
      if seconds > 0 then total > threshold * seconds else total < threshold * seconds
  {
    var q := total as real / seconds as real;
    assert q * seconds as real == total as real;
    if seconds > 0 {
      assert q > threshold as real <==> q * seconds as real > threshold as real * seconds as real;
    } else {
      assert q > threshold as real <==> q * seconds as real < threshold as real * seconds as real;
    }
  }

  /** `isTeamBleeding` is exactly `getDamageRateInWindow(...) > threshold`,
      with the rate computed by real division. */
  lemma BleedingIsRateAbove(v: StoreView, team: TeamId, threshold: int, seconds: int, now: int)
    ensures IsTeamBleeding(v, team, threshold, seconds, now) <==>
      Exceeds(DamageRateInWindow(v, team, seconds, now), threshold)
  {
    var (count, total) := TeamDamageSince(v.damageHistory, team, Cutoff(now, seconds));
    if count != 0 && seconds != 0 {
      QuotientAbove(total, seconds, threshold);
    }
  }

  // ---------------------------------------------------------------------
  // The resource trend
  // ---------------------------------------------------------------------

  /** Sample timestamps never decrease along the history. */
  ghost predicate Chronological(h: seq<StatsSample>) {
    forall i, j :: 0 <= i < j < |h| ==> h[i].timestamp <= h[j].timestamp
  }

  ghost predicate PointsChronological(ps: seq<TrendPoint>) {
    forall i, j :: 0 <= i < j < |ps| ==> ps[i].timestamp <= ps[j].timestamp
  }

  /** A sample that can be appended after all of `h`. */
  ghost predicate NotBefore(h: seq<StatsSample>, t: int) {
    forall i :: 0 <= i < |h| ==> h[i].timestamp <= t
  }

  /** A missing resource, or a missing field of it, reads as 0; a present
      field reads as its value (a stored 0 is 0 either way). */
  lemma PointDefaults(s: StatsSample, resource: string)
    ensures PointOf(s, resource).timestamp == s.timestamp
    ensures StatsFor(s.stats, resource).None? ==> PointOf(s, resource) == TrendPoint(s.timestamp, 0, 0, 0, 0)
    ensures StatsFor(s.stats, resource).Some? ==>
      var rs := StatsFor(s.stats, resource).value;
      var p := PointOf(s, resource);
      && p.income == (if rs.income.Some? then rs.income.value else 0)
      && p.usage == (if rs.usage.Some? then rs.usage.value else 0)
      && p.storage == (if rs.storage.Some? then rs.storage.value else 0)
      && p.excess == (if rs.excess.Some? then rs.excess.value else 0)
  {
  }

  /** `getResourceTrend` keeps exactly the samples of the team inside the
      window, converted to points, in history order. */
  lemma {:induction false} TrendMembers(h: seq<StatsSample>, team: TeamId, cutoff: int, resource: string)
    decreases |h|
    ensures |Trend(h, team, cutoff, resource)| <= |h|
    ensures forall i :: 0 <= i < |h| && h[i].teamID == team && h[i].timestamp >= cutoff ==>
      PointOf(h[i], resource) in Trend(h, team, cutoff, resource)
    ensures forall p :: p in Trend(h, team, cutoff, resource) ==>
      exists i :: 0 <= i < |h| && h[i].teamID == team && h[i].timestamp >= cutoff && p == PointOf(h[i], resource)
  {
    if |h| > 0 {
      var n := |h| - 1;
      TrendMembers(h[..n], team, cutoff, resource);
      forall p | p in Trend(h, team, cutoff, resource)
        ensures exists i :: 0 <= i < |h| && h[i].teamID == team && h[i].timestamp >= cutoff && p == PointOf(h[i], resource)
      {
        if p in Trend(h[..n], team, cutoff, resource) {
          var i :| 0 <= i < n && h[..n][i].teamID == team && h[..n][i].timestamp >= cutoff && p == PointOf(h[..n][i], resource);
          assert h[i] == h[..n][i];
        } else {
          assert p == PointOf(h[n], resource);
        }
      }
      forall i | 0 <= i < |h| && h[i].teamID == team && h[i].timestamp >= cutoff
        ensures PointOf(h[i], resource) in Trend(h, team, cutoff, resource)
      {
        if i < n {
          assert h[..n][i] == h[i];
        }
      }
    }
  }

  /** The positions of `h` holding a sample of `team` inside the window, ascending. */
  ghost function TrendPositions(h: seq<StatsSample>, team: TeamId, cutoff: int): seq<nat>
    decreases |h|
  {
    if |h| == 0 then []
    else
      var n := |h| - 1;
      TrendPositions(h[..n], team, cutoff) + (if h[n].teamID == team && h[n].timestamp >= cutoff then [n] else [])
  }

  /** `ps` lists the points of the positions `pos`, which ascend strictly and
      are exactly the positions of `h` whose sample is the team's and inside
      the window. */
  ghost predicate PointsAtPositions(h: seq<StatsSample>, team: TeamId, cutoff: int, resource: string,
                                    ps: seq<TrendPoint>, pos: seq<nat>) {
    && |pos| == |ps|
    && (forall k :: 0 <= k < |pos| ==> pos[k] < |h| && ps[k] == PointOf(h[pos[k]], resource))
    && (forall k :: 0 <= k < |pos| ==> pos[k] < |h| && h[pos[k]].teamID == team && h[pos[k]].timestamp >= cutoff)
    && (forall k, l :: 0 <= k < l < |pos| ==> pos[k] < pos[l])
    && (forall i :: 0 <= i < |h| && h[i].teamID == team && h[i].timestamp >= cutoff ==> i in pos)
  }

  lemma PointsAtPositionsStep(h: seq<StatsSample>, team: TeamId, cutoff: int, resource: string,
                              ps0: seq<TrendPoint>, p0: seq<nat>, ps: seq<TrendPoint>, pos: seq<nat>)
    requires |h| > 0
    requires PointsAtPositions(h[..|h| - 1], team, cutoff, resource, ps0, p0)
    requires var s := h[|h| - 1];
      ps == ps0 + (if s.teamID == team && s.timestamp >= cutoff then [PointOf(s, resource)] else [])
    requires var s := h[|h| - 1];
      pos == p0 + (if s.teamID == team && s.timestamp >= cutoff then [|h| - 1] else [])
    ensures PointsAtPositions(h, team, cutoff, resource, ps, pos)
  {
    var n := |h| - 1;
    var init := h[..n];
    forall k | 0 <= k < |pos| ensures pos[k] < |h| && ps[k] == PointOf(h[pos[k]], resource) {
      if k < |p0| {
        assert pos[k] == p0[k] && ps[k] == ps0[k] && init[p0[k]] == h[p0[k]];
      }
    }
    forall k | 0 <= k < |pos| ensures pos[k] < |h| && h[pos[k]].teamID == team && h[pos[k]].timestamp >= cutoff {
      if k < |p0| {
        assert pos[k] == p0[k] && init[p0[k]] == h[p0[k]];
      }
    }
    forall i | 0 <= i < |h| && h[i].teamID == team && h[i].timestamp >= cutoff ensures i in pos {
      if i < n {
        assert init[i] == h[i];
      }
    }
  }

  /** `getResourceTrend` lists the point of every sample of the team inside
      the window, each sample once and in history order. */
  lemma {:induction false} TrendInOrder(h: seq<StatsSample>, team: TeamId, cutoff: int, resource: string)
    decreases |h|
    ensures PointsAtPositions(h, team, cutoff, resource, Trend(h, team, cutoff, resource), TrendPositions(h, team, cutoff))
  {
    if |h| > 0 {
      var n := |h| - 1;
      TrendInOrder(h[..n], team, cutoff, resource);
      PointsAtPositionsStep(h, team, cutoff, resource, Trend(h[..n], team, cutoff, resource), TrendPositions(h[..n], team, cutoff),
                            Trend(h, team, cutoff, resource), TrendPositions(h, team, cutoff));
    }
  }

  /** Every point of the trend lies in the window, and a chronological
      history gives a chronological trend. */
  lemma {:induction false} TrendChronological(h: seq<StatsSample>, team: TeamId, cutoff: int, resource: string)
    decreases |h|
    ensures forall i :: 0 <= i < |Trend(h, team, cutoff, resource)| ==> Trend(h, team, cutoff, resource)[i].timestamp >= cutoff
    ensures forall i :: 0 <= i < |Trend(h, team, cutoff, resource)| ==>
      exists j :: 0 <= j < |h| && Trend(h, team, cutoff, resource)[i].timestamp == h[j].timestamp
    ensures Chronological(h) ==> PointsChronological(Trend(h, team, cutoff, resource))
  {
    if |h| > 0 {
      var n := |h| - 1;
      var rest := Trend(h[..n], team, cutoff, resource);
      TrendChronological(h[..n], team, cutoff, resource);
      forall i | 0 <= i < |rest|
        ensures exists j :: 0 <= j < |h| && rest[i].timestamp == h[j].timestamp
      {
        var j :| 0 <= j < n && rest[i].timestamp == h[..n][j].timestamp;
        assert h[..n][j] == h[j];
      }
      var r := Trend(h, team, cutoff, resource);
      forall i | 0 <= i < |r| ensures exists j :: 0 <= j < |h| && r[i].timestamp == h[j].timestamp {
        if i < |rest| {
          assert r[i] == rest[i];
          var j :| 0 <= j < |h| && rest[i].timestamp == h[j].timestamp;
        } else {
          assert 0 <= n < |h| && r[i].timestamp == h[n].timestamp;
        }
      }
      if h[n].teamID == team && h[n].timestamp >= cutoff {
        assert r == rest + [PointOf(h[n], resource)];
        if Chronological(h) {
          assert Chronological(h[..n]);
          forall i, j | 0 <= i < j < |r| ensures r[i].timestamp <= r[j].timestamp {
            if j == |rest| {
              var k :| 0 <= k < |h| && rest[i].timestamp == h[k].timestamp;
              assert k <= n;
            }
          }
        }
      } else {
        assert r == rest;
        if Chronological(h) {
          assert Chronological(h[..n]);
        }
      }
    } else {
      assert Trend(h, team, cutoff, resource) == [];
    }
  }

  /** `updateTeamStats` at a time no earlier than the history keeps it
      chronological. */
  lemma UpdateTeamStatsChronological(v: StoreView, teamID: TeamId, stats: StatsSnapshot, now: int)
    requires Chronological(v.statsHistory) && NotBefore(v.statsHistory, now)
    ensures Chronological(UpdateTeamStats(v, teamID, stats, now).statsHistory)
  {
  }
}

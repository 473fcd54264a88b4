/** The trigger engine's registry and per-trigger state as values, and its
    operations as transitions. Conditions and actions are opaque callables:
    what a condition returns for an event is given by a `verdict` oracle.
    The deferred cooldown reset is a separate transition `Expire` on the
    timer that firing schedules. */
module TriggerModel {
  import opened Js

  type TriggerId = int

  /** An opaque condition or action, told apart by a handle. */
  datatype Condition = Condition(handle: nat)
  datatype Action = Action(handle: nat)

  /** What calling a condition does: return a truthy or a falsy value, or throw. */
  datatype Verdict = Truthy | Falsy | Throws

  /** A `conditions` or `actions` value: absent, a single callable or an array. */
  datatype Callables<T> = Omitted | One(item: T) | Many(items: seq<T>)

  /** The list `registerTrigger` stores: absent is `[]`, a non-array is
      wrapped into a one-element list. */
  function AsList<T>(c: Callables<T>): (r: seq<T>)
    ensures c.One? ==> r == [c.item]
    ensures c.Many? ==> r == c.items
    ensures c.Omitted? ==> r == []
  {
    match c
    case Omitted => []
    case One(x) => [x]
    case Many(xs) => xs
  }

  /** The object given to `registerTrigger`. */
  datatype TriggerDef = TriggerDef(
    id: Option<int>,
    name: Option<string>,
    description: Option<string>,
    enabled: Option<bool>,
    cooldown: Option<int>,
    conditions: Callables<Condition>,
    actions: Callables<Action>)

  /** A stored trigger definition. */
  datatype Trigger = Trigger(
    id: TriggerId,
    name: string,
    description: string,
    enabled: bool,
    cooldown: int,
    conditions: seq<Condition>,
    actions: seq<Action>,
    createdAt: int)

  /** A trigger's mutable state. `epoch` identifies the state object:
      re-registering creates a new one, and a pending cooldown reset keeps
      referring to the object it was scheduled for. */
  datatype FireState = FireState(
    lastFired: Option<int>,
    fireCount: nat,
    cooldownActive: bool,
    enabled: bool,
    epoch: nat)

  /** A pending cooldown reset for the state object `epoch` of trigger `id`,
      due `due` milliseconds after the epoch of the clock. */
  datatype Timer = Timer(id: TriggerId, epoch: nat, due: int)

  /** The registry. `order` is the insertion order of the `triggers` Map;
      `registrations` counts the state objects created so far. */
  datatype EngineView = EngineView(
    order: seq<TriggerId>,
    triggers: map<TriggerId, Trigger>,
    states: map<TriggerId, FireState>,
    registrations: nat)

  const DefaultCooldown := 1000

  const EmptyEngine := EngineView([], map[], map[], 0)

  ghost predicate EngineValid(e: EngineView) {
    && Distinct(e.order)
    && (forall i :: 0 <= i < |e.order| ==> e.order[i] in e.triggers)
    && (forall k :: k in e.triggers ==> k in e.order)
    && e.states.Keys == e.triggers.Keys
    && (forall k :: k in e.states ==> e.states[k].epoch < e.registrations)
  }

  // ---------------------------------------------------------------------
  // Registration
  // ---------------------------------------------------------------------

  function DefaultName(id: TriggerId): string {
    "Trigger " + IntToString(id)
  }

  function NewTrigger(id: TriggerId, def: TriggerDef, now: int): Trigger {
    Trigger(id, OrString(def.name, DefaultName(id)), OrString(def.description, ""),
            def.enabled.GetOr(true), def.cooldown.GetOr(DefaultCooldown),
            AsList(def.conditions), AsList(def.actions), now)
  }

  /** `registerTrigger`: None when it throws (a falsy id) and stores
      nothing; otherwise the definition with its defaults and a fresh state,
      both replacing any earlier registration of the id. */
  function Register(e: EngineView, def: TriggerDef, now: int): (r: Option<EngineView>)
    ensures r.None? <==> !TruthyInt(def.id)
    ensures r.Some? ==> def.id.value in r.value.triggers && def.id.value in r.value.states
    ensures r.Some? ==>
      var id := def.id.value;
      var t := r.value.triggers[id];
      && t.name == (if TruthyString(def.name) then def.name.value else DefaultName(id))
      && t.enabled == (def.enabled != Some(false))
      && t.cooldown == (if def.cooldown.Some? then def.cooldown.value else DefaultCooldown)
      && t.id == id
      && t.description == (if TruthyString(def.description) then def.description.value else "")
      && t.conditions == AsList(def.conditions) && t.actions == AsList(def.actions)
      && |t.conditions| == (match def.conditions case Omitted => 0 case One(_) => 1 case Many(cs) => |cs|)
      && t.createdAt == now
      && r.value.states[id] == FireState(None, 0, false, t.enabled, e.registrations)
      && r.value.order == (if id in e.triggers then e.order else e.order + [id])
      && r.value.registrations == e.registrations + 1
      && (forall k :: k in e.triggers && k != id ==> k in r.value.triggers && r.value.triggers[k] == e.triggers[k])
      && (forall k :: k in e.states && k != id ==> k in r.value.states && r.value.states[k] == e.states[k])
  {
    if !TruthyInt(def.id) then None
    else
      var id := def.id.value;
      var t := NewTrigger(id, def, now);
      Some(EngineView(
        if id in e.triggers then e.order else e.order + [id],
        e.triggers[id := t],
        e.states[id := FireState(None, 0, false, t.enabled, e.registrations)],
        e.registrations + 1))
  }

  lemma RegisterKeepsValid(e: EngineView, def: TriggerDef, now: int)
    requires EngineValid(e) && TruthyInt(def.id)
    ensures EngineValid(Register(e, def, now).value)
  {
    var id := def.id.value;
    var t := NewTrigger(id, def, now);
    InsertKeepsValid(e, id, t, FireState(None, 0, false, t.enabled, e.registrations));
  }

  /** Storing a definition and a state object newer than all others keeps
      the registry valid. */
  lemma InsertKeepsValid(e: EngineView, id: TriggerId, t: Trigger, s: FireState)
    requires EngineValid(e) && s.epoch == e.registrations
    ensures EngineValid(EngineView(if id in e.triggers then e.order else e.order + [id],
                                   e.triggers[id := t], e.states[id := s], e.registrations + 1))
  {
    if id !in e.triggers {
      var order := e.order + [id];
      assert id !in e.order;
      assert forall i :: 0 <= i < |e.order| ==> order[i] == e.order[i];
    }
  }

  // ---------------------------------------------------------------------
  // Evaluation and firing
  // ---------------------------------------------------------------------

  /** The guard of `evaluateTriggers`: enabled and not cooling down. */
  predicate Eligible(s: FireState) {
    s.enabled && !s.cooldownActive
  }

  /** Every condition returns a truthy value. */
  predicate AllHold<E>(conds: seq<Condition>, verdict: (Condition, E) -> Verdict, ev: E) {
    forall i :: 0 <= i < |conds| ==> verdict(conds[i], ev) == Truthy
  }

  /** Trigger `id` passes the guard and its conditions for event `ev`. */
  predicate Fires<E>(e: EngineView, id: TriggerId, verdict: (Condition, E) -> Verdict, ev: E) {
    id in e.triggers && id in e.states && Eligible(e.states[id]) && AllHold(e.triggers[id].conditions, verdict, ev)
  }

  /** The ids among `ids` that fire, in the order of `ids`. */
  function FiredAmong<E>(ids: seq<TriggerId>, e: EngineView, verdict: (Condition, E) -> Verdict, ev: E): (r: seq<TriggerId>)
    ensures |r| <= |ids|
    ensures forall x :: x in r ==> x in e.triggers && x in e.states
  {
    if |ids| == 0 then []
    else
      var rest := FiredAmong(ids[..|ids| - 1], e, verdict, ev);
      if Fires(e, ids[|ids| - 1], verdict, ev) then rest + [ids[|ids| - 1]] else rest
  }

  /** What `evaluateTriggers` returns: the registered triggers that fire,
      in registration order. A trigger's guard reads only its own state,
      and firing changes only the fired trigger's state, so this is the
      same whether computed before or during the loop. */
  function FiredIds<E>(e: EngineView, verdict: (Condition, E) -> Verdict, ev: E): seq<TriggerId> {
    FiredAmong(e.order, e, verdict, ev)
  }

  /** The state change of `fireTrigger`. */
  function Fired(s: FireState, now: int): (r: FireState)
    ensures r.fireCount == s.fireCount + 1 && r.lastFired == Some(now) && r.cooldownActive
    ensures r.enabled == s.enabled && r.epoch == s.epoch
  {
    s.(lastFired := Some(now), fireCount := s.fireCount + 1, cooldownActive := true)
  }

  /** `fireTrigger` on the engine: an unknown id changes nothing. */
  function FireTrigger(e: EngineView, id: TriggerId, now: int): (r: EngineView)
    ensures r.order == e.order && r.triggers == e.triggers && r.registrations == e.registrations
    ensures r.states.Keys == e.states.Keys
  {
    if id in e.triggers && id in e.states then e.(states := e.states[id := Fired(e.states[id], now)]) else e
  }

  /** `fireTrigger` changes the state of the fired trigger, and only that. */
  lemma FireTriggerAt(e: EngineView, id: TriggerId, now: int)
    ensures var r := FireTrigger(e, id, now);
      forall k :: k in e.states ==>
        r.states[k] == if k == id && id in e.triggers then Fired(e.states[k], now) else e.states[k]
  {
  }

  /** The cooldown reset `fireTrigger` schedules. */
  function TimerFor(e: EngineView, id: TriggerId, now: int): Timer
    requires id in e.triggers && id in e.states
  {
    Timer(id, e.states[id].epoch, now + e.triggers[id].cooldown)
  }

  /** Fire each of `ids` in turn. */
  function ApplyFires(e: EngineView, ids: seq<TriggerId>, now: int): (r: EngineView)
    ensures r.order == e.order && r.triggers == e.triggers && r.registrations == e.registrations
    ensures r.states.Keys == e.states.Keys
  {
    if |ids| == 0 then e else FireTrigger(ApplyFires(e, ids[..|ids| - 1], now), ids[|ids| - 1], now)
  }

  /** The engine after `evaluateTriggers`. */
  function Evaluate<E>(e: EngineView, verdict: (Condition, E) -> Verdict, ev: E, now: int): EngineView {
    ApplyFires(e, FiredIds(e, verdict, ev), now)
  }

  /** The deferred reset: clear the flag of the state object the timer was
      scheduled for, if that object is still the trigger's state. */
  function Expire(e: EngineView, t: Timer): (r: EngineView)
    ensures r.order == e.order && r.triggers == e.triggers && r.registrations == e.registrations
    ensures r.states.Keys == e.states.Keys
    ensures forall k :: k in e.states ==>
      r.states[k] == if k == t.id && e.states[k].epoch == t.epoch then e.states[k].(cooldownActive := false) else e.states[k]
  {
    if t.id in e.states && e.states[t.id].epoch == t.epoch
    then e.(states := e.states[t.id := e.states[t.id].(cooldownActive := false)])
    else e
  }

  /** `testTrigger`: fire when every condition holds, ignoring the guard.
      The first component is the returned boolean. */
  function TestTrigger<E>(e: EngineView, id: TriggerId, verdict: (Condition, E) -> Verdict, ev: E, now: int): (r: (bool, EngineView))
    ensures r.0 <==> id in e.triggers && AllHold(e.triggers[id].conditions, verdict, ev)
    ensures r.1 == if r.0 then FireTrigger(e, id, now) else e
  {
    if id !in e.triggers then (false, e)
    else if AllHold(e.triggers[id].conditions, verdict, ev) then (true, FireTrigger(e, id, now))
    else (false, e)
  }

  // ---------------------------------------------------------------------
  // Enable state, listing and statistics
  // ---------------------------------------------------------------------

  /** `setTriggerEnabled` */
  function SetEnabled(e: EngineView, id: TriggerId, enabled: bool): (r: EngineView)
    ensures r.order == e.order && r.triggers == e.triggers && r.registrations == e.registrations
    ensures r.states.Keys == e.states.Keys
    ensures forall k :: k in e.states ==>
      r.states[k] == if k == id then e.states[k].(enabled := enabled) else e.states[k]
  {
    if id in e.states then e.(states := e.states[id := e.states[id].(enabled := enabled)]) else e
  }

  /** `isTriggerEnabled` */
  predicate IsEnabled(e: EngineView, id: TriggerId) {
    id in e.states && e.states[id].enabled
  }

  /** `toggleTrigger`: the returned value (None for `null`) and the engine after. */
  function Toggle(e: EngineView, id: TriggerId): (Option<bool>, EngineView) {
    if id in e.states then
      var e' := SetEnabled(e, id, !e.states[id].enabled);
      (Some(!e'.states[id].enabled), e')
    else (None, e)
  }

  /** One entry of `getAllTriggers`: the definition overlaid by the state,
      so `enabled` is the state's. */
  datatype TriggerEntry = TriggerEntry(trigger: Trigger, state: Option<FireState>, enabled: bool)

  function EntryFor(e: EngineView, id: TriggerId): TriggerEntry
    requires id in e.triggers
  {
    var t := e.triggers[id];
    if id in e.states then TriggerEntry(t, Some(e.states[id]), e.states[id].enabled)
    else TriggerEntry(t, None, t.enabled)
  }

  function EntriesOf(ids: seq<TriggerId>, e: EngineView): (r: seq<TriggerEntry>)
    ensures |r| <= |ids|
  {
    if |ids| == 0 then []
    else
      var rest := EntriesOf(ids[..|ids| - 1], e);
      var id := ids[|ids| - 1];
      if id in e.triggers then rest + [EntryFor(e, id)] else rest
  }

  /** `getAllTriggers` */
  function AllTriggers(e: EngineView): seq<TriggerEntry> {
    EntriesOf(e.order, e)
  }

  datatype TriggerStats = TriggerStats(
    id: TriggerId,
    name: string,
    enabled: bool,
    fireCount: nat,
    lastFired: Option<int>,
    cooldownActive: bool)

  /** `getTriggerStats`: None (`null`) for an unknown id; a `lastFired` of
      0 is falsy and reads as `null`. */
  function Stats(e: EngineView, id: TriggerId): (r: Option<TriggerStats>)
    ensures r.Some? <==> id in e.triggers && id in e.states
  {
    if id !in e.triggers || id !in e.states then None
    else
      var s := e.states[id];
      Some(TriggerStats(id, e.triggers[id].name, s.enabled, s.fireCount,
                        if TruthyInt(s.lastFired) then s.lastFired else None, s.cooldownActive))
  }

  function StatsOf(ids: seq<TriggerId>, e: EngineView): (r: seq<Option<TriggerStats>>)
    ensures |r| == |ids|
    ensures forall i :: 0 <= i < |ids| ==> r[i] == Stats(e, ids[i])
  {
    if |ids| == 0 then [] else StatsOf(ids[..|ids| - 1], e) + [Stats(e, ids[|ids| - 1])]
  }

  /** `getAllTriggerStats` */
  function AllStats(e: EngineView): seq<Option<TriggerStats>> {
    StatsOf(e.order, e)
  }

  // ---------------------------------------------------------------------
  // Soundpack selection
  // ---------------------------------------------------------------------

  /** A soundpack: trigger id -> audio url. */
  type Mapping = map<TriggerId, string>

  datatype PackView = PackView(packs: map<int, Mapping>, active: Option<int>)

  const NoPacks := PackView(map[], None)

  /** A truthy active id always names a loaded pack. */
  ghost predicate PacksValid(p: PackView) {
    TruthyInt(p.active) ==> p.active.value in p.packs
  }

  /** `switchSoundpack`: a loaded pack is selected at once; otherwise the
      pack is fetched (`fetched` is the mapping the server returned, None
      when the request failed, which the method catches) and then stored
      and selected. */
  function SwitchSoundpack(p: PackView, id: int, fetched: Option<Mapping>): (r: PackView)
    ensures id in p.packs ==> r == p.(active := Some(id))
    ensures id !in p.packs && fetched.Some? ==> r == PackView(p.packs[id := fetched.value], Some(id))
    ensures id !in p.packs && fetched.None? ==> r == p
  {
    if id in p.packs then p.(active := Some(id))
    else match fetched
      case Some(m) => PackView(p.packs[id := m], Some(id))
      case None => p
  }

  /** `getActiveSoundpackMapping`: None (`null`) while the active id is falsy. */
  function ActiveMapping(p: PackView): (r: Option<Mapping>)
    ensures !TruthyInt(p.active) ==> r.None?
    ensures TruthyInt(p.active) && p.active.value in p.packs ==> r == Some(p.packs[p.active.value])
  {
    if !TruthyInt(p.active) then None
    else if p.active.value in p.packs then Some(p.packs[p.active.value])
    else None
  }
}

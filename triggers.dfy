/** The trigger engine as the object the overlay mutates. The loops of
    `evaluateTriggers`, `fireTrigger` and `testTrigger` are methods over the
    registry's fields; each is specified by the transition of TriggerModel
    it performs, whose properties TriggerProps proves. */
module Triggers {
  import opened Js
  import opened TriggerModel
  import opened TriggerProps

  /** The condition loop of `evaluateTriggers`: call the conditions in turn
      and stop at the first that returns a falsy value or throws. `called`
      is the number of conditions called. */
  method ConditionsMet<E>(conds: seq<Condition>, verdict: (Condition, E) -> Verdict, ev: E)
    returns (met: bool, called: nat)
    ensures met <==> AllHold(conds, verdict, ev)
    ensures called <= |conds|
    ensures met ==> called == |conds|
    ensures !met ==> 0 < called && verdict(conds[called - 1], ev) != Truthy
    ensures forall i :: 0 <= i < called - 1 ==> verdict(conds[i], ev) == Truthy
  {
    met := true;
    called := 0;
    while called < |conds|
      invariant met && called <= |conds|
      invariant forall i :: 0 <= i < called ==> verdict(conds[i], ev) == Truthy
    {
      var v := verdict(conds[called], ev);
      called := called + 1;
      if v != Truthy {
        met := false;
        break;
      }
    }
  }

  /** The condition loop of `testTrigger`: a throwing condition marks the
      test failed but the loop goes on; only a falsy result stops it. */
  method TestConditions<E>(conds: seq<Condition>, verdict: (Condition, E) -> Verdict, ev: E)
    returns (met: bool, called: nat)
    ensures met <==> AllHold(conds, verdict, ev)
    ensures called <= |conds|
    ensures called == |conds| || (0 < called && verdict(conds[called - 1], ev) == Falsy)
    ensures forall i :: 0 <= i < called - 1 ==> verdict(conds[i], ev) != Falsy
  {
    met := true;
    called := 0;
    while called < |conds|
      invariant called <= |conds|
      invariant met <==> forall i :: 0 <= i < called ==> verdict(conds[i], ev) == Truthy
      invariant forall i :: 0 <= i < called ==> verdict(conds[i], ev) != Falsy
    {
      var v := verdict(conds[called], ev);
      called := called + 1;
      if v == Falsy {
        met := false;
        return;
      } else if v == Throws {
        met := false;
      }
    }
  }

  datatype Outcome = Completed | Threw

  function OutcomeOf(threw: bool): Outcome {
    if threw then Threw else Completed
  }

  /** The action loop of `fireTrigger`: every action runs, in order, each
      exception caught. `throws(a, ev, s)` says whether action `a` throws
      when it runs for `ev` while the trigger's state is `s`. */
  method RunActions<E>(actions: seq<Action>, throws: (Action, E, FireState) -> bool, ev: E, s: FireState)
    returns (outcomes: seq<Outcome>)
    ensures |outcomes| == |actions|
    ensures forall i :: 0 <= i < |actions| ==> outcomes[i] == OutcomeOf(throws(actions[i], ev, s))
  {
    outcomes := [];
    for i := 0 to |actions|
      invariant |outcomes| == i
      invariant forall j :: 0 <= j < i ==> outcomes[j] == OutcomeOf(throws(actions[j], ev, s))
    {
      var threw := throws(actions[i], ev, s);
      outcomes := outcomes + [if threw then Threw else Completed];
    }
  }

  /** `evaluateTriggers` sees, at position `i`, the state trigger `ids[i]`
      had before the loop: the triggers fired so far are others. */
  lemma FiredAmongStep<E>(ids: seq<TriggerId>, i: nat, e0: EngineView, verdict: (Condition, E) -> Verdict, ev: E, now: int)
    requires EngineValid(e0) && ids == e0.order && i < |ids|
    ensures var fired := FiredAmong(ids[..i], e0, verdict, ev);
      var e := ApplyFires(e0, fired, now);
      && ids[i] in e.states && ids[i] !in fired
      && e.states[ids[i]] == e0.states[ids[i]]
      && e.triggers == e0.triggers
      && ids[i] in e0.triggers
      && (Fires(e, ids[i], verdict, ev) <==> Fires(e0, ids[i], verdict, ev))
      && TimerFor(e, ids[i], now) == TimerFor(e0, ids[i], now)
  {
    var fired := FiredAmong(ids[..i], e0, verdict, ev);
    assert Distinct(ids[..i]) by {
      forall p, q | 0 <= p < q < i ensures ids[..i][p] != ids[..i][q] { assert ids[p] != ids[q]; }
    }
    FiredAmongDistinct(ids[..i], e0, verdict, ev);
    FiredAmongMembers(ids[..i], e0, verdict, ev);
    assert ids[i] !in ids[..i] by {
      forall p | 0 <= p < i ensures ids[..i][p] != ids[i] { assert ids[p] != ids[i]; }
    }
    ApplyFiresAt(e0, fired, now);
  }

  lemma FiredAmongSnoc<E>(ids: seq<TriggerId>, i: nat, e0: EngineView, verdict: (Condition, E) -> Verdict, ev: E)
    requires i < |ids|
    ensures FiredAmong(ids[..i + 1], e0, verdict, ev)
         == FiredAmong(ids[..i], e0, verdict, ev) + (if Fires(e0, ids[i], verdict, ev) then [ids[i]] else [])
  {
    assert ids[..i + 1][..i] == ids[..i];
  }

  lemma ApplyFiresSnoc(e0: EngineView, fired: seq<TriggerId>, id: TriggerId, now: int)
    ensures ApplyFires(e0, fired + [id], now) == FireTrigger(ApplyFires(e0, fired, now), id, now)
  {
    assert (fired + [id])[..|fired|] == fired;
  }

  class TriggerEngine {
    /** insertion order of `triggers` */
    var order: seq<TriggerId>
    var triggers: map<TriggerId, Trigger>
    var states: map<TriggerId, FireState>
    /** state objects created so far; each new one is told apart by it */
    var registrations: nat
    var soundpacks: map<int, Mapping>
    var activeSoundpackId: Option<int>

    function View(): EngineView
      reads this
    {
      EngineView(order, triggers, states, registrations)
    }

    function Packs(): PackView
      reads this
    {
      PackView(soundpacks, activeSoundpackId)
    }

    ghost predicate Valid()
      reads this
    {
      EngineValid(View()) && PacksValid(Packs())
    }

    constructor()
      ensures View() == EmptyEngine && Packs() == NoPacks && Valid()
    {
      order := [];
      triggers := map[];
      states := map[];
      registrations := 0;
      soundpacks := map[];
      activeSoundpackId := None;
    }

    /** `registerTrigger`; `ok` is false where the source throws. */
    method RegisterTrigger(def: TriggerDef, now: int) returns (ok: bool)
      requires Valid()
      modifies this
      ensures ok <==> TruthyInt(def.id)
      ensures ok ==> View() == Register(old(View()), def, now).value
      ensures !ok ==> View() == old(View())
      ensures Packs() == old(Packs()) && Valid()
    {
      if !TruthyInt(def.id) {
        return false;
      }
      RegisterKeepsValid(View(), def, now);
      var id := def.id.value;
      var t := NewTrigger(id, def, now);
      if id !in triggers {
        order := order + [id];
      }
      triggers := triggers[id := t];
      states := states[id := FireState(None, 0, false, t.enabled, registrations)];
      registrations := registrations + 1;
      ok := true;
    }

    /** `fireTrigger`: update the state, then run the actions, then schedule
        the cooldown reset (returned as a timer). The actions observe the
        updated state. An unknown id changes nothing. */
    method FireTrigger<E>(id: TriggerId, ev: E, now: int, throws: (Action, E, FireState) -> bool)
      returns (timer: Option<Timer>, outcomes: seq<Outcome>)
      requires Valid()
      modifies this
      ensures View() == TriggerModel.FireTrigger(old(View()), id, now)
      ensures timer.Some? <==> id in old(triggers)
      ensures timer.Some? ==> timer.value == TimerFor(old(View()), id, now)
      ensures id in old(triggers) ==>
        && |outcomes| == |triggers[id].actions|
        && forall i :: 0 <= i < |outcomes| ==>
             outcomes[i] == OutcomeOf(throws(triggers[id].actions[i], ev, Fired(old(states[id]), now)))
      ensures id !in old(triggers) ==> outcomes == []
      ensures Packs() == old(Packs()) && Valid()
    {
      if id !in triggers {
        return None, [];
      }
      var trigger := triggers[id];
      var state := states[id];
      state := state.(lastFired := Some(now), fireCount := state.fireCount + 1, cooldownActive := true);
      states := states[id := state];
      outcomes := RunActions(trigger.actions, throws, ev, state);
      timer := Some(Timer(id, state.epoch, now + trigger.cooldown));
    }

    /** `evaluateTriggers`: walk the registry in order, skip disabled and
        cooling triggers, fire those whose conditions all hold, and return
        the fired ids. Each fire of trigger `x` schedules the cooldown reset
        `TimerFor(old(View()), x, now)`. */
    method EvaluateTriggers<E>(ev: E, now: int, verdict: (Condition, E) -> Verdict, throws: (Action, E, FireState) -> bool)
      returns (fired: seq<TriggerId>)
      requires Valid()
      modifies this
      ensures fired == FiredIds(old(View()), verdict, ev)
      ensures View() == Evaluate(old(View()), verdict, ev, now)
      ensures Packs() == old(Packs()) && Valid()
    {
      ghost var e0 := View();
      var ids := order;
      fired := [];
      var i := 0;
      while i < |ids|
        invariant 0 <= i <= |ids|
        invariant Valid() && Packs() == old(Packs())
        invariant fired == FiredAmong(ids[..i], e0, verdict, ev)
        invariant View() == ApplyFires(e0, fired, now)
      {
        var didFire := EvaluateStep(e0, ids, i, fired, ev, now, verdict, throws);
        if didFire {
          fired := fired + [ids[i]];
        }
        i := i + 1;
      }
      assert ids[..|ids|] == ids;
    }

    /** Pass `i` of the loop of `evaluateTriggers`, relating the registry
        to the one the loop started from (`e0`), of which the triggers
        `fired` have fired so far. */
    method EvaluateStep<E>(ghost e0: EngineView, ids: seq<TriggerId>, i: nat, ghost fired: seq<TriggerId>,
                           ev: E, now: int, verdict: (Condition, E) -> Verdict, throws: (Action, E, FireState) -> bool)
      returns (didFire: bool)
      requires Valid() && EngineValid(e0) && ids == e0.order && i < |ids|
      requires fired == FiredAmong(ids[..i], e0, verdict, ev) && View() == ApplyFires(e0, fired, now)
      modifies this
      ensures fired + (if didFire then [ids[i]] else []) == FiredAmong(ids[..i + 1], e0, verdict, ev)
      ensures View() == ApplyFires(e0, FiredAmong(ids[..i + 1], e0, verdict, ev), now)
      ensures Packs() == old(Packs()) && Valid()
    {
      FiredAmongStep(ids, i, e0, verdict, ev, now);
      FiredAmongSnoc(ids, i, e0, verdict, ev);
      ApplyFiresSnoc(e0, fired, ids[i], now);
      ghost var before := View();
      assert Fires(before, ids[i], verdict, ev) <==> Fires(e0, ids[i], verdict, ev);
      didFire := EvaluateOne(ids[i], ev, now, verdict, throws);
      if didFire {
        assert View() == ApplyFires(e0, fired + [ids[i]], now);
      } else {
        assert fired + [] == fired;
        assert View() == before;
      }
    }

    /** One pass of the loop of `evaluateTriggers`: the guard, the
        conditions and, when they pass, the fire. */
    method EvaluateOne<E>(id: TriggerId, ev: E, now: int, verdict: (Condition, E) -> Verdict,
                          throws: (Action, E, FireState) -> bool)
      returns (didFire: bool)
      requires Valid() && id in triggers
      modifies this
      ensures didFire <==> Fires(old(View()), id, verdict, ev)
      ensures View() == if didFire then TriggerModel.FireTrigger(old(View()), id, now) else old(View())
      ensures Packs() == old(Packs()) && Valid()
    {
      var state := states[id];
      didFire := false;
      if state.enabled && !state.cooldownActive {
        var met, _ := ConditionsMet(triggers[id].conditions, verdict, ev);
        if met {
          var _, _ := FireTrigger(id, ev, now, throws);
          didFire := true;
        }
      }
    }

    /** The deferred cooldown reset, run when `timer` is due. */
    method ExpireCooldown(timer: Timer)
      requires Valid()
      modifies this
      ensures View() == Expire(old(View()), timer)
      ensures Packs() == old(Packs()) && Valid()
    {
      if timer.id in states && states[timer.id].epoch == timer.epoch {
        states := states[timer.id := states[timer.id].(cooldownActive := false)];
      }
    }

    /** `setTriggerEnabled` */
    method SetTriggerEnabled(id: TriggerId, enabled: bool)
      requires Valid()
      modifies this
      ensures View() == SetEnabled(old(View()), id, enabled)
      ensures Packs() == old(Packs()) && Valid()
    {
      if id in states {
        states := states[id := states[id].(enabled := enabled)];
      }
    }

    /** `toggleTrigger` */
    method ToggleTrigger(id: TriggerId) returns (r: Option<bool>)
      requires Valid()
      modifies this
      ensures (r, View()) == Toggle(old(View()), id)
      ensures Packs() == old(Packs()) && Valid()
    {
      if id in states {
        SetTriggerEnabled(id, !states[id].enabled);
        r := Some(!states[id].enabled);
      } else {
        r := None;
      }
    }

    /** `testTrigger`: fire whenever the conditions hold, whatever the
        enabled flag and the cooldown say. */
    method TestTrigger<E>(id: TriggerId, ev: E, now: int, verdict: (Condition, E) -> Verdict,
                          throws: (Action, E, FireState) -> bool)
      returns (ok: bool, timer: Option<Timer>)
      requires Valid()
      modifies this
      ensures (ok, View()) == TriggerModel.TestTrigger(old(View()), id, verdict, ev, now)
      ensures timer.Some? <==> ok
      ensures ok ==> timer.value == TimerFor(old(View()), id, now)
      ensures Packs() == old(Packs()) && Valid()
    {
      if id !in triggers {
        return false, None;
      }
      var met, _ := TestConditions(triggers[id].conditions, verdict, ev);
      if met {
        var outcomes;
        timer, outcomes := FireTrigger(id, ev, now, throws);
        ok := true;
      } else {
        ok := false;
        timer := None;
      }
    }

    /** `loadSoundpack` with the server's answer as `fetched` (None when the
        request fails, which makes it throw). */
    method LoadSoundpack(id: int, fetched: Option<Mapping>) returns (ok: bool)
      requires Valid()
      modifies this
      ensures ok <==> fetched.Some?
      ensures ok ==> Packs() == PackView(old(soundpacks)[id := fetched.value], Some(id))
      ensures !ok ==> Packs() == old(Packs())
      ensures View() == old(View()) && Valid()
    {
      if fetched.None? {
        return false;
      }
      soundpacks := soundpacks[id := fetched.value];
      activeSoundpackId := Some(id);
      ok := true;
    }

    /** `switchSoundpack` */
    method SwitchSoundpack(id: int, fetched: Option<Mapping>)
      requires Valid()
      modifies this
      ensures Packs() == TriggerModel.SwitchSoundpack(old(Packs()), id, fetched)
      ensures View() == old(View()) && Valid()
    {
      if id in soundpacks {
        activeSoundpackId := Some(id);
      } else {
        var _ := LoadSoundpack(id, fetched);
      }
    }
  }
}

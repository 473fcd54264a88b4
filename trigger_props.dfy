/** What the trigger engine promises, proved over its model: which
    triggers an evaluation fires and in what order, how the cooldown blocks
    and later re-admits a trigger, and the enable and listing surface. */
module TriggerProps {
  import opened Js
  import opened TriggerModel

  // ---------------------------------------------------------------------
  // Which triggers fire
  // ---------------------------------------------------------------------

  /** A trigger is in the result exactly when it is listed and fires. */
  lemma {:induction false} FiredAmongMembers<E>(ids: seq<TriggerId>, e: EngineView, verdict: (Condition, E) -> Verdict, ev: E)
    ensures forall x :: x in FiredAmong(ids, e, verdict, ev) <==> x in ids && Fires(e, x, verdict, ev)
  {
    if |ids| > 0 {
      var init := ids[..|ids| - 1];
      FiredAmongMembers(init, e, verdict, ev);
      assert forall x :: x in ids <==> x in init || x == ids[|ids| - 1];
    }
  }

  /** `a` is `b` with some elements left out, the rest kept in order. */
  ghost predicate SubsequenceOf<T>(a: seq<T>, b: seq<T>)
    decreases |b|
  {
    if |a| == 0 then true
    else if |b| == 0 then false
    else if a[|a| - 1] == b[|b| - 1] then SubsequenceOf(a[..|a| - 1], b[..|b| - 1])
    else SubsequenceOf(a, b[..|b| - 1])
  }

  lemma {:induction false} FiredAmongOrdered<E>(ids: seq<TriggerId>, e: EngineView, verdict: (Condition, E) -> Verdict, ev: E)
    ensures SubsequenceOf(FiredAmong(ids, e, verdict, ev), ids)
  {
    if |ids| > 0 {
      var init := ids[..|ids| - 1];
      FiredAmongOrdered(init, e, verdict, ev);
      var rest := FiredAmong(init, e, verdict, ev);
      if Fires(e, ids[|ids| - 1], verdict, ev) {
        assert (rest + [ids[|ids| - 1]])[..|rest|] == rest;
      } else {
        SubsequenceOfSkip(rest, init, ids[|ids| - 1]);
      }
    }
  }

  /** Appending to the longer sequence keeps a subsequence a subsequence. */
  lemma SubsequenceOfSkip<T>(a: seq<T>, b: seq<T>, x: T)
    requires SubsequenceOf(a, b)
    ensures SubsequenceOf(a, b + [x])
    decreases |b|, 1
  {
    assert (b + [x])[..|b|] == b;
    if |a| > 0 && a[|a| - 1] == x {
      SubsequenceOfPrefix(a, b);
    }
  }

  /** Dropping the last element of a subsequence leaves a subsequence. */
  lemma {:induction false} SubsequenceOfPrefix<T>(a: seq<T>, b: seq<T>)
    requires |a| > 0 && SubsequenceOf(a, b)
    ensures SubsequenceOf(a[..|a| - 1], b)
    decreases |b|, 0
  {
    var n := |b|;
    if |a| == 1 {
    } else if a[|a| - 1] == b[n - 1] {
      SubsequenceOfPrefix(a[..|a| - 1], b[..n - 1]);
      assert a[..|a| - 1][..|a| - 2] == a[..|a| - 2];
      SubsequenceOfSkip(a[..|a| - 1], b[..n - 1], b[n - 1]);
      assert b[..n - 1] + [b[n - 1]] == b;
    } else {
      SubsequenceOfPrefix(a, b[..n - 1]);
      SubsequenceOfSkip(a[..|a| - 1], b[..n - 1], b[n - 1]);
      assert b[..n - 1] + [b[n - 1]] == b;
    }
  }

  lemma {:induction false} FiredAmongDistinct<E>(ids: seq<TriggerId>, e: EngineView, verdict: (Condition, E) -> Verdict, ev: E)
    requires Distinct(ids)
    ensures Distinct(FiredAmong(ids, e, verdict, ev))
  {
    if |ids| > 0 {
      var init := ids[..|ids| - 1];
      var last := ids[|ids| - 1];
      assert Distinct(init) by {
        forall i, j | 0 <= i < j < |init| ensures init[i] != init[j] { assert ids[i] == init[i] && ids[j] == init[j]; }
      }
      FiredAmongDistinct(init, e, verdict, ev);
      FiredAmongMembers(init, e, verdict, ev);
      assert last !in init by {
        forall i | 0 <= i < |init| ensures init[i] != last { assert ids[i] == init[i]; }
      }
    }
  }

  /** `evaluateTriggers` returns exactly the registered triggers that pass
      their guard and all their conditions, each once, in registration
      order. */
  lemma FiredIdsSpec<E>(e: EngineView, verdict: (Condition, E) -> Verdict, ev: E)
    requires EngineValid(e)
    ensures forall x :: x in FiredIds(e, verdict, ev) <==>
      x in e.triggers && Eligible(e.states[x]) && AllHold(e.triggers[x].conditions, verdict, ev)
    ensures Distinct(FiredIds(e, verdict, ev))
    ensures SubsequenceOf(FiredIds(e, verdict, ev), e.order)
  {
    FiredAmongMembers(e.order, e, verdict, ev);
    FiredAmongDistinct(e.order, e, verdict, ev);
    FiredAmongOrdered(e.order, e, verdict, ev);
  }

  // ---------------------------------------------------------------------
  // State after an evaluation
  // ---------------------------------------------------------------------

  /** Firing a duplicate-free list fires each listed, registered trigger
      once and leaves everything else as it was. */
  lemma {:induction false} ApplyFiresAt(e: EngineView, ids: seq<TriggerId>, now: int)
    requires Distinct(ids)
    ensures var r := ApplyFires(e, ids, now);
      && r.order == e.order && r.triggers == e.triggers && r.registrations == e.registrations
      && r.states.Keys == e.states.Keys
      && forall k :: k in e.states ==>
           r.states[k] == if k in ids && k in e.triggers then Fired(e.states[k], now) else e.states[k]
  {
    if |ids| > 0 {
      var init := ids[..|ids| - 1];
      var last := ids[|ids| - 1];
      assert Distinct(init) by {
        forall i, j | 0 <= i < j < |init| ensures init[i] != init[j] { assert ids[i] == init[i] && ids[j] == init[j]; }
      }
      assert last !in init by {
        forall i | 0 <= i < |init| ensures init[i] != last { assert ids[i] == init[i]; }
      }
      ApplyFiresAt(e, init, now);
      assert forall k :: k in ids <==> k in init || k == last;
    }
  }

  /** After `evaluateTriggers` each fired trigger has been fired once and
      every other state is unchanged; the registry stays valid. */
  lemma EvaluateSpec<E>(e: EngineView, verdict: (Condition, E) -> Verdict, ev: E, now: int)
    requires EngineValid(e)
    ensures var r := Evaluate(e, verdict, ev, now);
      && EngineValid(r)
      && r.order == e.order && r.triggers == e.triggers
      && forall k :: k in e.states ==>
           r.states[k] == if Fires(e, k, verdict, ev) then Fired(e.states[k], now) else e.states[k]
  {
    FiredIdsSpec(e, verdict, ev);
    ApplyFiresAt(e, FiredIds(e, verdict, ev), now);
  }

  /** A fired trigger is not fired again by any later evaluation, whatever
      the event and the conditions say. */
  lemma CooldownBlocksRefire<E, F>(e: EngineView, verdict: (Condition, E) -> Verdict, ev: E, now: int,
                                   x: TriggerId, verdict2: (Condition, F) -> Verdict, ev2: F)
    requires EngineValid(e) && x in FiredIds(e, verdict, ev)
    ensures x !in FiredIds(Evaluate(e, verdict, ev, now), verdict2, ev2)
  {
    FiredIdsSpec(e, verdict, ev);
    EvaluateSpec(e, verdict, ev, now);
    var r := Evaluate(e, verdict, ev, now);
    FiredIdsSpec(r, verdict2, ev2);
  }

  /** A trigger that is cooling down stays exactly as it is through an
      evaluation: only the expiry can clear its flag. */
  lemma CoolingTriggerUntouched<E>(e: EngineView, verdict: (Condition, E) -> Verdict, ev: E, now: int, x: TriggerId)
    requires EngineValid(e) && x in e.states && e.states[x].cooldownActive
    ensures x !in FiredIds(e, verdict, ev)
    ensures Evaluate(e, verdict, ev, now).states[x] == e.states[x]
  {
    FiredIdsSpec(e, verdict, ev);
    EvaluateSpec(e, verdict, ev, now);
  }

  /** The expiry of a fire's timer clears only the flag and re-admits the
      trigger: it fires on the next evaluation whose conditions hold. */
  lemma ExpiryReadmits<E>(e: EngineView, verdict: (Condition, E) -> Verdict, ev: E, now: int, x: TriggerId)
    requires EngineValid(e) && x in FiredIds(e, verdict, ev)
    ensures var r := Expire(Evaluate(e, verdict, ev, now), TimerFor(e, x, now));
      && r.states[x] == Fired(e.states[x], now).(cooldownActive := false)
      && x in FiredIds(r, verdict, ev)
  {
    FiredIdsSpec(e, verdict, ev);
    EvaluateSpec(e, verdict, ev, now);
    var r := Expire(Evaluate(e, verdict, ev, now), TimerFor(e, x, now));
    assert EngineValid(r);
    FiredIdsSpec(r, verdict, ev);
  }

  /** Re-registering a trigger makes every timer scheduled before it stale:
      its expiry no longer touches the trigger's new state. */
  lemma StaleTimerIsNoOp(e: EngineView, def: TriggerDef, now: int, t: Timer)
    requires EngineValid(e) && TruthyInt(def.id) && t.id == def.id.value && t.epoch < e.registrations
    ensures Expire(Register(e, def, now).value, t) == Register(e, def, now).value
  {
  }

  /** Timers scheduled by a valid engine carry an epoch it has issued. */
  lemma TimerEpochIssued(e: EngineView, x: TriggerId, now: int)
    requires EngineValid(e) && x in e.triggers
    ensures TimerFor(e, x, now).epoch < e.registrations
  {
  }

  /** There is no at-most-once cap: fire, expire, fire again counts two. */
  lemma FiresAgainAfterExpiry<E>(e: EngineView, verdict: (Condition, E) -> Verdict, ev: E, now1: int, now2: int, x: TriggerId)
    requires EngineValid(e) && x in FiredIds(e, verdict, ev)
    ensures var e1 := Evaluate(e, verdict, ev, now1);
      var e2 := Expire(e1, TimerFor(e, x, now1));
      var e3 := Evaluate(e2, verdict, ev, now2);
      && x in FiredIds(e2, verdict, ev)
      && e3.states[x].fireCount == e.states[x].fireCount + 2
      && e3.states[x].lastFired == Some(now2)
  {
    ExpiryReadmits(e, verdict, ev, now1, x);
    var e1 := Evaluate(e, verdict, ev, now1);
    var e2 := Expire(e1, TimerFor(e, x, now1));
    EvaluateSpec(e, verdict, ev, now1);
    assert EngineValid(e2);
    FiredIdsSpec(e2, verdict, ev);
    EvaluateSpec(e2, verdict, ev, now2);
  }

  /** `testTrigger` fires a registered trigger whose conditions hold even
      when it is disabled or cooling down. */
  lemma TestTriggerBypassesGuard<E>(e: EngineView, x: TriggerId, verdict: (Condition, E) -> Verdict, ev: E, now: int)
    requires EngineValid(e) && x in e.triggers && AllHold(e.triggers[x].conditions, verdict, ev)
    ensures var (ok, r) := TestTrigger(e, x, verdict, ev, now);
      && ok
      && r.states[x] == Fired(e.states[x], now)
  {
  }

  // ---------------------------------------------------------------------
  // Enable state
  // ---------------------------------------------------------------------

  /** `isTriggerEnabled` after `setTriggerEnabled` reads back the value set,
      for a known id; an unknown id stays unknown and reads false. */
  lemma SetThenIsEnabled(e: EngineView, id: TriggerId, b: bool)
    ensures IsEnabled(SetEnabled(e, id, b), id) == (id in e.states && b)
    ensures id !in e.states ==> SetEnabled(e, id, b) == e
  {
  }

  /** `toggleTrigger` returns the value `enabled` had before, flips it, and
      returns None for an unknown id, changing nothing. */
  lemma ToggleReturnsPrevious(e: EngineView, id: TriggerId)
    ensures id in e.states ==>
      && Toggle(e, id).0 == Some(IsEnabled(e, id))
      && IsEnabled(Toggle(e, id).1, id) == !IsEnabled(e, id)
    ensures id !in e.states ==> Toggle(e, id) == (None, e)
  {
  }

  /** Toggling twice restores the engine. */
  lemma ToggleTwiceRestores(e: EngineView, id: TriggerId)
    ensures Toggle(Toggle(e, id).1, id).1 == e
  {
    if id in e.states {
      var s := e.states[id];
      assert s.(enabled := !s.enabled).(enabled := s.enabled) == s;
      assert e.states[id := s] == e.states;
    }
  }

  // ---------------------------------------------------------------------
  // Listing and statistics
  // ---------------------------------------------------------------------

  lemma {:induction false} EntriesOfAll(ids: seq<TriggerId>, e: EngineView)
    requires forall i :: 0 <= i < |ids| ==> ids[i] in e.triggers
    ensures |EntriesOf(ids, e)| == |ids|
    ensures forall i :: 0 <= i < |ids| ==> EntriesOf(ids, e)[i] == EntryFor(e, ids[i])
  {
    if |ids| > 0 {
      EntriesOfAll(ids[..|ids| - 1], e);
    }
  }

  /** `getAllTriggers` lists one entry per registered trigger in
      registration order, carrying the definition and the state's `enabled`. */
  lemma AllTriggersSpec(e: EngineView)
    requires EngineValid(e)
    ensures var r := AllTriggers(e);
      && |r| == |e.order|
      && forall i :: 0 <= i < |r| ==>
           && r[i].trigger == e.triggers[e.order[i]]
           && r[i].state == Some(e.states[e.order[i]])
           && r[i].enabled == e.states[e.order[i]].enabled
  {
    EntriesOfAll(e.order, e);
  }

  /** `getTriggerStats` after a fire at a non-zero time shows the fire. */
  lemma StatsAfterFire(e: EngineView, x: TriggerId, now: int)
    requires x in e.triggers && x in e.states && now != 0
    ensures var s := Stats(FireTrigger(e, x, now), x);
      && s.Some?
      && s.value.fireCount == e.states[x].fireCount + 1
      && s.value.lastFired == Some(now)
      && s.value.cooldownActive
      && s.value.enabled == e.states[x].enabled
  {
  }

  /** A state that never fired, or fired at time 0, reports `lastFired`
      as null. */
  lemma StatsLastFiredFalsy(e: EngineView, x: TriggerId)
    requires x in e.triggers && x in e.states && !TruthyInt(e.states[x].lastFired)
    ensures Stats(e, x).Some? && Stats(e, x).value.lastFired.None?
  {
  }

  // ---------------------------------------------------------------------
  // Soundpack selection
  // ---------------------------------------------------------------------

  lemma SwitchKeepsPacksValid(p: PackView, id: int, fetched: Option<Mapping>)
    requires PacksValid(p)
    ensures PacksValid(SwitchSoundpack(p, id, fetched))
  {
  }

  /** Switching to a loaded (or successfully fetched) pack with a truthy id
      makes its mapping the active one. Pack id 0 is falsy: switching to it
      leaves no active mapping. */
  lemma SwitchSelectsMapping(p: PackView, id: int, fetched: Option<Mapping>)
    requires id in p.packs || fetched.Some?
    ensures var r := SwitchSoundpack(p, id, fetched);
      && (id != 0 ==> ActiveMapping(r) == Some(r.packs[id]))
      && (id == 0 ==> ActiveMapping(r).None?)
      && (id in p.packs ==> r.packs == p.packs)
  {
  }

  /** With the pack invariant, a mapping is active exactly when the active
      id is truthy. */
  lemma ActiveMappingPresent(p: PackView)
    requires PacksValid(p)
    ensures ActiveMapping(p).Some? <==> TruthyInt(p.active)
  {
  }
}

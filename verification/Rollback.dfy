// What is left after a failed run is rolled back.
module Rollback {
  import opened Wrappers
  import opened Fleet
  import opened Plan
  import opened PlanFacts
  import opened World
  import opened Schedule
  import opened Packer
  import opened Resume
  import opened Order
  import opened Reconcile
  import opened Apply
  import opened Capacity

  ghost predicate AllDone(script: seq<Outcome>) {
    forall oc | oc in script :: oc.Done?
  }

  lemma {:induction false} UndoRemoves(cfg: Config, o: Observed, applied: seq<Action>, script: seq<Outcome>)
    requires AllDone(script)
    ensures forall id :: id in Undo(cfg, o, applied, script).reps <==> id in o.reps && !Creates(applied, id)
    ensures forall id | id in Undo(cfg, o, applied, script).reps :: Undo(cfg, o, applied, script).reps[id] == o.reps[id]
    decreases |applied|
  {
    if applied != [] {
      var front, a := applied[..|applied| - 1], applied[|applied| - 1];
      assert forall x :: x in applied <==> x in front || x == a;
      if a.PlaceReplica? || a.UpdateReplica? {
        UndoRemoves(cfg, Attempt(cfg, o, Removal(a), Next(script)), front, Rest(script));
        forall id ensures Creates(applied, id) <==> Creates(front, id) || id == a.Target() {
        }
      } else {
        UndoRemoves(cfg, o, front, script);
        forall id ensures Creates(applied, id) <==> Creates(front, id) {
        }
      }
    }
  }

  ghost predicate Touches(acts: seq<Action>, id: Id) {
    exists a :: a in acts && a.OnReplica() && a.Target() == id
  }

  // What the failed action itself leaves behind; the rollback does not undo it.
  ghost predicate LeavesMark(cfg: Config, a: Action, oc: Outcome) {
    Admitted(cfg, a) && a.OnReplica() && (oc.FailedDirty? || (oc.FailedLost? && a.UpdateReplica?))
  }

  ghost predicate Marks(cfg: Config, a: Action, oc: Outcome, id: Id) {
    LeavesMark(cfg, a, oc) && a.Target() == id
  }

  lemma FailedLeaves(cfg: Config, o: Observed, a: Action, oc: Outcome, id: Id)
    requires !Succeeds(cfg, a, oc)
    ensures !Marks(cfg, a, oc, id) ==> (id in Attempt(cfg, o, a, oc).reps <==> id in o.reps)
    ensures !Marks(cfg, a, oc, id) && id in o.reps ==> Attempt(cfg, o, a, oc).reps[id] == o.reps[id]
    ensures Marks(cfg, a, oc, id) ==> (id in Attempt(cfg, o, a, oc).reps <==> oc.FailedDirty? && !a.RemoveReplica?)
    ensures Marks(cfg, a, oc, id) && oc.FailedDirty? && !a.RemoveReplica? ==>
              Attempt(cfg, o, a, oc).reps[id] == Stamp(cfg, id, GpuRef(a.host, a.gpu), a.tag)
  {
  }

  // A failed run whose removals succeed, replica by replica. One that the failed action
  // did not mark is there exactly if it was there before and untouched. The marked one is
  // there exactly if that action created it all the same and no earlier one did.
  lemma RollbackLeaves(cfg: Config, o: Observed, acts: seq<Action>, script: seq<Outcome>, id: Id)
    requires Served(cfg, acts, script) < |acts| && AllDone(Skip(script, Served(cfg, acts, script) + 1))
    ensures var k := Served(cfg, acts, script);
            var a, oc, w := acts[k], Next(Skip(script, k)), RunEnd(cfg, o, acts, script, true);
            if Marks(cfg, a, oc, id) then
              && (id in w.reps <==> oc.FailedDirty? && !a.RemoveReplica? && !Creates(acts[..k], id))
              && (id in w.reps ==> w.reps[id] == Stamp(cfg, id, GpuRef(a.host, a.gpu), a.tag))
            else
              && (id in w.reps <==> id in o.reps && !Touches(acts[..k], id))
              && (id in w.reps ==> w.reps[id] == o.reps[id])
  {
    var k := Served(cfg, acts, script);
    var a, oc, applied := acts[k], Next(Skip(script, k)), acts[..k];
    NotServed(cfg, acts, script);
    hide Served, Skip, Succeeds, Effects, LeavesMark, Attempt, Undo, Touches, Creates, Removes;
    var reached := Effects(cfg, o, applied);
    var failed := Attempt(cfg, reached, a, oc);
    assert RunEnd(cfg, o, acts, script, true) == Undo(cfg, failed, applied, Skip(script, k + 1));
    EffectsKeep(cfg, o, applied, id);
    FailedLeaves(cfg, reached, a, oc, id);
    UndoneAt(cfg, failed, applied, Skip(script, k + 1), id);
    TouchesSplit(applied, id);
  }

  lemma TouchesSplit(acts: seq<Action>, id: Id)
    ensures Touches(acts, id) <==> Creates(acts, id) || Removes(acts, id)
  {
  }

  lemma UndoneAt(cfg: Config, o: Observed, applied: seq<Action>, script: seq<Outcome>, id: Id)
    requires AllDone(script)
    ensures var w := Undo(cfg, o, applied, script);
            && (id in w.reps <==> id in o.reps && !Creates(applied, id))
            && (id in w.reps ==> w.reps[id] == o.reps[id])
  {
    hide Undo, Creates;
    UndoRemoves(cfg, o, applied, script);
  }

  // ----- a plan places each replica once

  ghost predicate PlacesOnce(acts: seq<Action>) {
    forall i, j | 0 <= i < j < |acts| :: acts[i].PlaceReplica? && acts[j].PlaceReplica? ==> acts[i].Target() != acts[j].Target()
  }

  lemma PlacesOnceConcat(a: seq<Action>, b: seq<Action>)
    requires PlacesOnce(a) && PlacesOnce(b)
    requires (forall x | x in a :: !x.PlaceReplica?) || (forall x | x in b :: !x.PlaceReplica?)
    ensures PlacesOnce(a + b)
  {
    assert forall i | 0 <= i < |a| :: (a + b)[i] == a[i] && a[i] in a;
    assert forall i | |a| <= i < |a + b| :: (a + b)[i] == b[i - |a|] && b[i - |a|] in b;
  }

  lemma PlacesOnceFront(acts: seq<Action>)
    requires PlacesOnce(acts) && acts != []
    ensures var front, last := acts[..|acts| - 1], acts[|acts| - 1];
            PlacesOnce(front) && forall x | x in front && x.PlaceReplica? && last.PlaceReplica? :: x.Target() != last.Target()
  {
    var front := acts[..|acts| - 1];
    assert forall i | 0 <= i < |front| :: front[i] == acts[i];
  }

  lemma PlacesOnceAppend(acts: seq<Action>, a: Action)
    requires PlacesOnce(acts) && forall x | x in acts && x.PlaceReplica? && a.PlaceReplica? :: x.Target() != a.Target()
    ensures PlacesOnce(acts + [a])
  {
    assert forall i | 0 <= i < |acts| :: acts[i] in acts;
  }

  lemma {:induction false} PlacesOnceScoped(acts: seq<Action>, scope: string)
    requires PlacesOnce(acts)
    ensures PlacesOnce(Scoped(acts, scope))
  {
    hide PlacesOnce, InScope;
    if acts == [] {
      WithoutPlaces([]);
    } else {
      var front, last := acts[..|acts| - 1], acts[|acts| - 1];
      PlacesOnceFront(acts);
      PlacesOnceScoped(front, scope);
      ScopedMembers(front, scope);
      PlacesOnceAppend(Scoped(front, scope), last);
      assert Scoped(front, scope) + [] == Scoped(front, scope);
    }
  }

  lemma {:induction false} PlacedOnce(cfg: Config, kept: map<Id, GpuRef>, out: seq<Placed>)
    requires forall i, j | 0 <= i < j < |out| :: out[i].id != out[j].id
    ensures PlacesOnce(Places(cfg, kept, out))
  {
    if out != [] {
      PlacedOnce(cfg, kept, out[1..]);
      PlacesMembers(cfg, kept, out[1..]);
      var rest := Places(cfg, kept, out[1..]);
      forall i | 0 <= i < |rest| ensures rest[i].PlaceReplica? && rest[i].Target() != out[0].id {
        assert rest[i] in rest;
        var p :| p in out[1..] && p.id !in kept && rest[i] == PlaceOf(cfg, p);
        var j :| 0 <= j < |out[1..]| && out[1..][j] == p;
        assert out[j + 1] == p;
      }
    }
  }

  lemma ConvergePlacesOnce(cfg: Config, o: Observed, plan: Plan)
    requires cfg.Valid() && PlanOf(cfg, o) == Ok(plan)
    ensures PlacesOnce(plan.converge)
  {
    PlanParts(cfg, o, plan);
    OutDistinct(cfg, o);
    var out := Scheduled(cfg, o).out;
    hide PlanOf, Scheduled, PlacesOnce;
    PlacedOnce(cfg, Kept(cfg, o.err, o.reps), out);
    var u, p, s := UpdatePhase(cfg, o.err, o.reps), PlacePhase(cfg, o.err, o.reps, out), ServicePhase(cfg, o.err, o.svcs);
    UpdatesTargetIds(cfg, o.reps, Slots(cfg, o.err, Names(cfg.backends)));
    NamesDistinct(cfg.services);
    ServicesMembers(cfg, o.err, o.svcs, Names(cfg.services));
    WithoutPlaces(u);
    WithoutPlaces(s);
    PlacesOnceConcat(u, p);
    PlacesOnceConcat(u + p, s);
  }

  lemma WithoutPlaces(acts: seq<Action>)
    requires forall x | x in acts :: !x.PlaceReplica?
    ensures PlacesOnce(acts)
  {
  }

  lemma RunPlacesOnce(cfg: Config, o: Observed, plan: Plan, scope: string)
    requires cfg.Valid() && PlanOf(cfg, o) == Ok(plan)
    ensures PlacesOnce(Flat(plan.Phases(), scope))
  {
    ConvergePlacesOnce(cfg, o, plan);
    PlanMembers(cfg, o, plan);
    hide PlanOf, PlacesOnce;
    FlatPhases(plan, scope);
    var c, r, d := Scoped(plan.converge, scope), Scoped(plan.rewire, scope), Scoped(plan.drain, scope);
    PlacesOnceScoped(plan.converge, scope);
    ScopedMembers(plan.rewire, scope);
    ScopedMembers(plan.drain, scope);
    WithoutPlaces(r);
    WithoutPlaces(d);
    PlacesOnceConcat(c, r);
    PlacesOnceConcat(c + r, d);
  }

  // ----- when rollback restores

  ghost predicate RunAction(cfg: Config, o: Observed, a: Action) {
    || ConvergeAction(cfg, o, a)
    || a.Rewire?
    || (a.RemoveReplica? && a.Target() in o.reps && Extra(cfg, o.err, a.Target()))
  }

  lemma RunActions(cfg: Config, o: Observed, plan: Plan, scope: string)
    requires cfg.Valid() && PlanOf(cfg, o) == Ok(plan)
    ensures forall a | a in Flat(plan.Phases(), scope) :: RunAction(cfg, o, a)
  {
    hide PlanOf, ConvergeAction, Extra;
    PlanMembers(cfg, o, plan);
    FlatMembers(plan, scope);
  }

  ghost predicate OnlyAdds(acts: seq<Action>) {
    forall a | a in acts :: !a.UpdateReplica? && !a.RemoveReplica?
  }

  // A failed run that is rolled back leaves the replicas as they were if and only if it
  // had neither updated nor drained any and the failed action left nothing behind, for
  // every scope, every point of failure and every way to fail.
  lemma RollbackRestores(cfg: Config, o: Observed, plan: Plan, scope: string, script: seq<Outcome>)
    requires cfg.Valid() && PlanOf(cfg, o) == Ok(plan)
    requires var acts := Flat(plan.Phases(), scope);
             Served(cfg, acts, script) < |acts| && AllDone(Skip(script, Served(cfg, acts, script) + 1))
    ensures var acts := Flat(plan.Phases(), scope);
            var k := Served(cfg, acts, script);
            RunEnd(cfg, o, acts, script, true).reps == o.reps
            <==> OnlyAdds(acts[..k]) && !LeavesMark(cfg, acts[k], Next(Skip(script, k)))
  {
    hide PlanOf, Flat, RunEnd, Effects, Served;
    var acts := Flat(plan.Phases(), scope);
    var k := Served(cfg, acts, script);
    var a, oc, w := acts[k], Next(Skip(script, k)), RunEnd(cfg, o, acts, script, true);
    RunActions(cfg, o, plan, scope);
    RunPlacesOnce(cfg, o, plan, scope);
    assert a in acts && forall x | x in acts[..k] :: x in acts;
    if !OnlyAdds(acts[..k]) {
      var x :| x in acts[..k] && (x.UpdateReplica? || x.RemoveReplica?);
      TouchedIsGone(cfg, o, acts, script, x);
    } else if LeavesMark(cfg, a, oc) {
      RollbackLeaves(cfg, o, acts, script, a.Target());
      MarkIsSeen(cfg, o, acts, k, oc);
    } else {
      forall id
        ensures id in w.reps <==> id in o.reps
        ensures id in w.reps ==> w.reps[id] == o.reps[id]
      {
        RollbackLeaves(cfg, o, acts, script, id);
        assert Touches(acts[..k], id) ==> id !in o.reps;
      }
    }
  }

  // An updated or drained replica is not there after the rollback.
  lemma TouchedIsGone(cfg: Config, o: Observed, acts: seq<Action>, script: seq<Outcome>, x: Action)
    requires Served(cfg, acts, script) < |acts| && AllDone(Skip(script, Served(cfg, acts, script) + 1))
    requires forall a | a in acts :: RunAction(cfg, o, a)
    requires x in acts[..Served(cfg, acts, script)] && (x.UpdateReplica? || x.RemoveReplica?)
    ensures x.Target() in o.reps && x.Target() !in RunEnd(cfg, o, acts, script, true).reps
  {
    hide RunEnd, Effects, Served;
    var k := Served(cfg, acts, script);
    assert x in acts && acts[k] in acts;
    RollbackLeaves(cfg, o, acts, script, x.Target());
    assert Touches(acts[..k], x.Target());
    assert x.UpdateReplica? ==> Creates(acts[..k], x.Target());
  }

  // Whatever the failed action left differs from what was there before the run.
  lemma MarkIsSeen(cfg: Config, o: Observed, acts: seq<Action>, k: nat, oc: Outcome)
    requires k < |acts| && LeavesMark(cfg, acts[k], oc) && PlacesOnce(acts)
    requires RunAction(cfg, o, acts[k]) && OnlyAdds(acts[..k])
    ensures var a := acts[k];
            && (a.PlaceReplica? <==> a.Target() !in o.reps)
            && (a.PlaceReplica? ==> oc.FailedDirty? && !Creates(acts[..k], a.Target()))
            && (a.UpdateReplica? ==> Stamp(cfg, a.Target(), GpuRef(a.host, a.gpu), a.tag) != o.reps[a.Target()])
  {
    var a := acts[k];
    if a.UpdateReplica? {
      StampIsFresh(cfg, a.Target(), GpuRef(a.host, a.gpu));
    } else if a.PlaceReplica? {
      forall x | x in acts[..k] && x.PlaceReplica? ensures x.Target() != a.Target() {
        var i :| 0 <= i < k && acts[..k][i] == x;
        assert acts[i] == x;
      }
    }
  }
}

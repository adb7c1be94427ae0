// What a plan consists of, and what holds between any two actions of any run: serving
// capacity and the order of the phases.
module Capacity {
  import opened Wrappers
  import opened Order
  import opened Fleet
  import opened Schedule
  import opened Packing
  import opened Packer
  import opened Plan
  import opened PlanFacts
  import opened World
  import opened Resume
  import opened Reconcile
  import opened Apply

  // ----- scope

  lemma {:induction false} ScopedMembers(acts: seq<Action>, scope: string)
    ensures forall a :: a in Scoped(acts, scope) <==> a in acts && InScope(a, scope)
    ensures scope == "" ==> Scoped(acts, scope) == acts
  {
    if acts != [] {
      ScopedMembers(acts[..|acts| - 1], scope);
      assert acts == acts[..|acts| - 1] + [acts[|acts| - 1]];
    }
  }

  // The actions of a run are the phases' actions in scope, in phase order.
  lemma FlatPhases(p: Plan, scope: string)
    ensures Flat(p.Phases(), scope) == Scoped(p.converge, scope) + Scoped(p.rewire, scope) + Scoped(p.drain, scope)
  {
    var phases := p.Phases();
    assert phases[..2][..1][..0] == [] && phases[..2][..1] == [phases[0]] && phases[..2] == [phases[0], phases[1]];
    assert Flat(phases[..2][..1], scope) == Scoped(p.converge, scope);
    assert Flat(phases[..2], scope) == Scoped(p.converge, scope) + Scoped(p.rewire, scope);
  }

  // ----- which replicas an action sequence leaves

  ghost predicate Removes(acts: seq<Action>, id: Id) {
    exists a :: a in acts && a.RemoveReplica? && a.Target() == id
  }

  ghost predicate Creates(acts: seq<Action>, id: Id) {
    exists a :: a in acts && (a.PlaceReplica? || a.UpdateReplica?) && a.Target() == id
  }

  lemma EffectKeeps(cfg: Config, o: Observed, a: Action, id: Id)
    requires Admitted(cfg, a)
    ensures a.OnReplica() && a.Target() == id ==> (id in Effect(cfg, o, a).reps <==> !a.RemoveReplica?)
    ensures !(a.OnReplica() && a.Target() == id) ==>
              (id in Effect(cfg, o, a).reps <==> id in o.reps) && (id in o.reps ==> Effect(cfg, o, a).reps[id] == o.reps[id])
  {
  }

  lemma {:induction false} EffectsKeep(cfg: Config, o: Observed, acts: seq<Action>, id: Id)
    requires AllAdmitted(cfg, acts)
    ensures (id in o.reps || Creates(acts, id)) && !Removes(acts, id) ==> id in Effects(cfg, o, acts).reps
    ensures id in Effects(cfg, o, acts).reps ==> id in o.reps || Creates(acts, id)
    ensures !Creates(acts, id) && !Removes(acts, id) && id in o.reps ==> Effects(cfg, o, acts).reps[id] == o.reps[id]
    ensures Removes(acts, id) && !Creates(acts, id) ==> id !in Effects(cfg, o, acts).reps
    decreases |acts|
  {
    if acts != [] {
      var a, rest := acts[0], acts[1..];
      assert acts == [a] + rest;
      assert Creates(acts, id) <==> Creates(rest, id) || ((a.PlaceReplica? || a.UpdateReplica?) && a.Target() == id) by {
        assert forall x :: x in acts <==> x == a || x in rest;
      }
      assert Removes(acts, id) <==> Removes(rest, id) || (a.RemoveReplica? && a.Target() == id) by {
        assert forall x :: x in acts <==> x == a || x in rest;
      }
      EffectKeeps(cfg, o, a, id);
      hide Effect, Creates, Removes;
      EffectsKeep(cfg, Effect(cfg, o, a), rest, id);
    }
  }

  // ----- what a plan consists of

  lemma {:induction false} PlacesMembers(cfg: Config, kept: map<Id, GpuRef>, out: seq<Placed>)
    ensures forall a | a in Places(cfg, kept, out) :: exists p :: p in out && p.id !in kept && a == PlaceOf(cfg, p)
    ensures forall p | p in out && p.id !in kept :: PlaceOf(cfg, p) in Places(cfg, kept, out)
  {
    if out != [] {
      PlacesMembers(cfg, kept, out[1..]);
      assert forall p :: p in out <==> p == out[0] || p in out[1..];
    }
  }

  lemma {:induction false} ServicesMembers(cfg: Config, err: set<string>, svcs: map<string, ObsService>, names: seq<string>)
    requires forall n | n in names :: n in cfg.services
    ensures forall a | a in ServiceChanges(cfg, err, svcs, names) :: OnService(a) && a.host !in err && a.service in names
  {
    if names != [] {
      ServicesMembers(cfg, err, svcs, names[1..]);
    }
  }

  lemma {:induction false} DrainsMembers(reps: map<Id, ObsReplica>, ids: seq<Id>)
    requires forall id | id in ids :: id in reps
    ensures forall a | a in Drains(reps, ids) :: a.RemoveReplica? && a.Target() in ids
    ensures forall id | id in ids :: Removes(Drains(reps, ids), id)
  {
    if ids != [] {
      DrainsMembers(reps, ids[1..]);
      forall id | id in ids ensures Removes(Drains(reps, ids), id) {
        if id == ids[0] {
          assert Drains(reps, ids)[0] in Drains(reps, ids);
        } else {
          assert Removes(Drains(reps, ids[1..]), id);
        }
      }
    }
  }

  ghost predicate ConvergeAction(cfg: Config, o: Observed, a: Action) {
    || (a.PlaceReplica? && Wanted(cfg, o.err, a.Target()) && a.Target() !in o.reps && GpuRef(a.host, a.gpu) in o.free)
    || (a.UpdateReplica? && Wanted(cfg, o.err, a.Target()) && a.Target() in o.reps
        && o.reps[a.Target()].ref == GpuRef(a.host, a.gpu) && Stale(cfg, a.Target(), o.reps[a.Target()])
        && a.tag == cfg.backends[a.backend].imageTag)
    || (OnService(a) && a.host !in o.err)
  }

  lemma UpdatesAreConverge(cfg: Config, o: Observed)
    ensures forall a | a in UpdatePhase(cfg, o.err, o.reps) :: ConvergeAction(cfg, o, a)
  {
    var ids := Slots(cfg, o.err, Names(cfg.backends));
    UpdatesTargetIds(cfg, o.reps, ids);
    forall a | a in Updates(cfg, o.reps, ids) ensures ConvergeAction(cfg, o, a) {
      SlotsAreWanted(cfg, o.err, Names(cfg.backends), a.Target());
    }
  }

  lemma PlacesAreConverge(cfg: Config, o: Observed)
    requires cfg.Valid() && Scheduled(cfg, o).Packed?
    ensures forall a | a in PlacePhase(cfg, o.err, o.reps, Scheduled(cfg, o).out) :: ConvergeAction(cfg, o, a)
  {
    OutDistinct(cfg, o);
    hide Scheduled, Wanted;
    var out, kept := Scheduled(cfg, o).out, Kept(cfg, o.err, o.reps);
    PlacesMembers(cfg, kept, out);
    forall a | a in Places(cfg, kept, out) ensures ConvergeAction(cfg, o, a) {
      var p :| p in out && p.id !in kept && a == PlaceOf(cfg, p);
    }
  }

  lemma PlanMembers(cfg: Config, o: Observed, plan: Plan)
    requires cfg.Valid() && PlanOf(cfg, o) == Ok(plan)
    ensures forall a | a in plan.converge :: ConvergeAction(cfg, o, a)
    ensures forall a | a in plan.rewire :: a.Rewire? && a.host !in o.err && !Blocked(cfg, o.err, a.backend)
    ensures forall a | a in plan.drain :: a.RemoveReplica? && a.Target() in o.reps && Extra(cfg, o.err, a.Target())
  {
    PlanParts(cfg, o, plan);
    hide PlanOf, Scheduled, ServiceChanges, Rewires, UpdatePhase, PlacePhase;
    UpdatesAreConverge(cfg, o);
    PlacesAreConverge(cfg, o);
    NamesDistinct(cfg.services);
    ServicesMembers(cfg, o.err, o.svcs, Names(cfg.services));
    PlanRewires(cfg, o, plan);
    OrdersAreStrictTotal();
    DrainsMembers(o.reps, Sorted(Extras(cfg, o.err, o.reps), IdLess));
  }

  // No action names a blocked backend; nothing is placed, deployed or wired on a host in
  // error (provided no GPU of such a host is offered, as the index guarantees).
  lemma UnreachableLeftAlone(cfg: Config, o: Observed, plan: Plan, a: Action)
    requires cfg.Valid() && PlanOf(cfg, o) == Ok(plan) && a in plan.converge + plan.rewire + plan.drain
    requires forall ref | ref in o.free :: ref.host !in o.err
    ensures a.OnReplica() || a.Rewire? ==> !Blocked(cfg, o.err, a.backend)
    ensures !a.UpdateReplica? && !a.RemoveReplica? ==> a.host !in o.err
  {
    hide PlanOf, Blocked, BackendHosts;
    PlanMembers(cfg, o, plan);
    assert a in plan.converge ==> ConvergeAction(cfg, o, a);
  }

  // Every wanted replica is there already or is placed.
  lemma WantedIsCovered(cfg: Config, o: Observed, plan: Plan, id: Id)
    requires cfg.Valid() && PlanOf(cfg, o) == Ok(plan) && Wanted(cfg, o.err, id)
    ensures id in o.reps || exists a :: a in plan.converge && a.PlaceReplica? && a.Target() == id
  {
    if id !in o.reps {
      PlanParts(cfg, o, plan);
      hide PlanOf, Scheduled, UpdatePhase, ServicePhase, Wanted;
      var out, kept := Scheduled(cfg, o).out, Kept(cfg, o.err, o.reps);
      var p := WantedIsPacked(cfg, o, id);
      PlacesMembers(cfg, kept, out);
      assert PlaceOf(cfg, p) in plan.converge;
    }
  }

  lemma WantedIsPacked(cfg: Config, o: Observed, id: Id) returns (p: Placed)
    requires cfg.Valid() && Scheduled(cfg, o).Packed? && Wanted(cfg, o.err, id)
    ensures p in Scheduled(cfg, o).out && p.id == id
  {
    var bs := SchedBackends(cfg, o.err);
    PackedIsSized(cfg, o);
    NamesDistinct(bs);
    var i := DemandExists(cfg.policy, bs, Names(bs), id.backend, id.replica);
    OutShape(cfg, o);
    p := Scheduled(cfg, o).out[i];
  }

  // ----- the diff, identity by identity

  ghost predicate PlanUpdates(acts: seq<Action>, id: Id) {
    exists a :: a in acts && a.UpdateReplica? && a.Target() == id
  }

  ghost predicate PlanPlaces(acts: seq<Action>, id: Id) {
    exists a :: a in acts && a.PlaceReplica? && a.Target() == id
  }

  // The plan is exactly the difference: a wanted replica is placed when it is missing
  // and updated when it is stale; one beyond what is wanted, and only that, is removed.
  lemma DiffExact(cfg: Config, o: Observed, plan: Plan, id: Id)
    requires cfg.Valid() && PlanOf(cfg, o) == Ok(plan)
    ensures PlanPlaces(plan.converge, id) <==> Wanted(cfg, o.err, id) && id !in o.reps
    ensures PlanUpdates(plan.converge, id) <==> Wanted(cfg, o.err, id) && id in o.reps && Stale(cfg, id, o.reps[id])
    ensures Removes(plan.drain, id) <==> id in o.reps && Extra(cfg, o.err, id)
  {
    PlanParts(cfg, o, plan);
    hide PlanOf, Scheduled, UpdatePhase, PlacePhase, ServicePhase, DrainPhase, Wanted, Stale, Extra;
    PlacedExactly(cfg, o, plan, id);
    UpdatedExactly(cfg, o, id);
    DrainedExactly(cfg, o, id);
    OnlyUpdatesUpdate(cfg, o, id);
    var u := UpdatePhase(cfg, o.err, o.reps);
    UpdatesConcat(u, PlacePhase(cfg, o.err, o.reps, Scheduled(cfg, o).out), id);
    UpdatesConcat(u + PlacePhase(cfg, o.err, o.reps, Scheduled(cfg, o).out), ServicePhase(cfg, o.err, o.svcs), id);
  }

  lemma UpdatesConcat(a: seq<Action>, b: seq<Action>, id: Id)
    ensures PlanUpdates(a + b, id) <==> PlanUpdates(a, id) || PlanUpdates(b, id)
  {
    assert forall x | x in a || x in b :: x in a + b;
  }

  lemma PlacedExactly(cfg: Config, o: Observed, plan: Plan, id: Id)
    requires cfg.Valid() && PlanOf(cfg, o) == Ok(plan)
    ensures PlanPlaces(plan.converge, id) <==> Wanted(cfg, o.err, id) && id !in o.reps
  {
    hide PlanOf, Wanted;
    PlanMembers(cfg, o, plan);
    if Wanted(cfg, o.err, id) && id !in o.reps {
      WantedIsCovered(cfg, o, plan, id);
    }
  }

  lemma OnlyUpdatesUpdate(cfg: Config, o: Observed, id: Id)
    requires Scheduled(cfg, o).Packed?
    ensures !PlanUpdates(PlacePhase(cfg, o.err, o.reps, Scheduled(cfg, o).out), id)
    ensures !PlanUpdates(ServicePhase(cfg, o.err, o.svcs), id)
  {
    hide Scheduled;
    NamesDistinct(cfg.services);
    PlacesMembers(cfg, Kept(cfg, o.err, o.reps), Scheduled(cfg, o).out);
    ServicesMembers(cfg, o.err, o.svcs, Names(cfg.services));
  }

  lemma UpdatedExactly(cfg: Config, o: Observed, id: Id)
    ensures PlanUpdates(UpdatePhase(cfg, o.err, o.reps), id)
       <==> Wanted(cfg, o.err, id) && id in o.reps && Stale(cfg, id, o.reps[id])
  {
    NamesDistinct(cfg.backends);
    SlotsAreWanted(cfg, o.err, Names(cfg.backends), id);
    UpdatesTargetIds(cfg, o.reps, Slots(cfg, o.err, Names(cfg.backends)));
  }

  lemma DrainedExactly(cfg: Config, o: Observed, id: Id)
    ensures Removes(DrainPhase(cfg, o.err, o.reps), id) <==> id in o.reps && Extra(cfg, o.err, id)
  {
    OrdersAreStrictTotal();
    DrainsMembers(o.reps, Sorted(Extras(cfg, o.err, o.reps), IdLess));
  }

  // ----- serving capacity

  ghost function ReplicasOf(o: Observed, backend: string): set<Id> {
    set id | id in o.reps && id.backend == backend
  }

  ghost function FirstReplicas(backend: string, n: nat): set<Id> {
    set r | 0 <= r < n :: Id(backend, r)
  }

  lemma {:induction false} FirstReplicasCount(backend: string, n: nat)
    ensures |FirstReplicas(backend, n)| == n
  {
    if n > 0 {
      FirstReplicasCount(backend, n - 1);
      assert FirstReplicas(backend, n) == FirstReplicas(backend, n - 1) + {Id(backend, n - 1)};
    }
  }

  lemma {:induction false} SubsetCount<T>(a: set<T>, b: set<T>)
    requires a <= b
    ensures |a| <= |b|
  {
    if a != {} {
      var x :| x in a;
      SubsetCount(a - {x}, b - {x});
    }
  }

  function Min(a: int, b: int): int { if a < b then a else b }

  // Until the drain phase nothing is removed.
  lemma CapacityBeforeDrain(cfg: Config, o: Observed, acts: seq<Action>, backend: string)
    requires AllAdmitted(cfg, acts) && forall a | a in acts :: !(a.RemoveReplica? && a.backend == backend)
    ensures |ReplicasOf(Effects(cfg, o, acts), backend)| >= |ReplicasOf(o, backend)|
  {
    forall id | id in ReplicasOf(o, backend) ensures id in ReplicasOf(Effects(cfg, o, acts), backend) {
      EffectsKeep(cfg, o, acts, id);
    }
    SubsetCount(ReplicasOf(o, backend), ReplicasOf(Effects(cfg, o, acts), backend));
  }

  // Once a planned backend's own converge actions are done it has all its replicas, and
  // the drains take none of them.
  lemma CapacityInDrain(cfg: Config, o: Observed, plan: Plan, acts: seq<Action>, backend: string)
    requires cfg.Valid() && PlanOf(cfg, o) == Ok(plan) && AllAdmitted(cfg, acts) && Planned(cfg, o.err, backend)
    requires forall a | a in plan.converge && a.PlaceReplica? && a.backend == backend :: a in acts
    requires forall a | a in acts && a.RemoveReplica? :: a in plan.drain
    ensures |ReplicasOf(Effects(cfg, o, acts), backend)| >= cfg.backends[backend].replicas
  {
    var n := cfg.backends[backend].replicas;
    PlanMembers(cfg, o, plan);
    forall id | id in FirstReplicas(backend, n) ensures id in ReplicasOf(Effects(cfg, o, acts), backend) {
      WantedIsCovered(cfg, o, plan, id);
      EffectsKeep(cfg, o, acts, id);
    }
    FirstReplicasCount(backend, n);
    SubsetCount(FirstReplicas(backend, n), ReplicasOf(Effects(cfg, o, acts), backend));
  }

  // A drain is dispatched only after every converge and rewire action in scope.
  lemma DrainsComeLast(cfg: Config, o: Observed, plan: Plan, scope: string, k: nat, a: Action)
    requires cfg.Valid() && PlanOf(cfg, o) == Ok(plan)
    requires k <= |Flat(plan.Phases(), scope)| && a in Flat(plan.Phases(), scope)[..k] && a.RemoveReplica?
    ensures forall x | x in plan.converge + plan.rewire && InScope(x, scope) :: x in Flat(plan.Phases(), scope)[..k]
  {
    hide PlanOf, Blocked, ConvergeAction;
    NothingRemovedBeforeDrain(cfg, o, plan);
    var first, last := Scoped(plan.converge, scope) + Scoped(plan.rewire, scope), Scoped(plan.drain, scope);
    FlatPhases(plan, scope);
    ScopedMembers(plan.converge, scope);
    ScopedMembers(plan.rewire, scope);
    assert forall x | x in first :: x in plan.converge + plan.rewire;
    assert k > |first|;
    assert (first + last)[..k] == first + last[..k - |first|];
  }

  lemma RemovalsAreDrains(plan: Plan, scope: string)
    requires forall a | a in plan.converge + plan.rewire :: !a.RemoveReplica?
    ensures forall a | a in Flat(plan.Phases(), scope) && a.RemoveReplica? :: a in plan.drain
  {
    FlatMembers(plan, scope);
  }

  lemma NothingRemovedBeforeDrain(cfg: Config, o: Observed, plan: Plan)
    requires cfg.Valid() && PlanOf(cfg, o) == Ok(plan)
    ensures forall a | a in plan.converge + plan.rewire :: !a.RemoveReplica?
  {
    hide PlanOf, Blocked, Wanted, Stale;
    PlanMembers(cfg, o, plan);
  }

  // Serving capacity. After any k actions of a run, in any scope, every backend has at
  // least as many replicas as the smaller of what was observed and what is desired.
  lemma Capacity(cfg: Config, o: Observed, plan: Plan, scope: string, k: nat, backend: string)
    requires cfg.Valid() && PlanOf(cfg, o) == Ok(plan)
    requires k <= |Flat(plan.Phases(), scope)| && AllAdmitted(cfg, Flat(plan.Phases(), scope)[..k])
    ensures |ReplicasOf(Effects(cfg, o, Flat(plan.Phases(), scope)[..k]), backend)|
         >= Min(|ReplicasOf(o, backend)|, Desired(cfg, backend))
  {
    var all := Flat(plan.Phases(), scope);
    var acts := all[..k];
    PlanMembers(cfg, o, plan);
    NothingRemovedBeforeDrain(cfg, o, plan);
    RemovalsAreDrains(plan, scope);
    assert forall a | a in acts :: a in all;
    if a :| a in acts && a.RemoveReplica? && a.backend == backend {
      DrainsComeLast(cfg, o, plan, scope, k, a);
      if backend in cfg.backends {
        forall x | x in plan.converge && x.PlaceReplica? && x.backend == backend ensures x in acts {
          assert InScope(a, scope) by { FlatMembers(plan, scope); }
          assert InScope(x, scope) && x in plan.converge + plan.rewire;
        }
        CapacityInDrain(cfg, o, plan, acts, backend);
      }
    } else {
      CapacityBeforeDrain(cfg, o, acts, backend);
    }
  }

  // While the k-th action is in flight at most the replica it names is away.
  lemma CapacityInFlight(cfg: Config, o: Observed, plan: Plan, scope: string, k: nat, backend: string)
    requires cfg.Valid() && PlanOf(cfg, o) == Ok(plan)
    requires k < |Flat(plan.Phases(), scope)| && AllAdmitted(cfg, Flat(plan.Phases(), scope)[..k])
    requires Flat(plan.Phases(), scope)[k].UpdateReplica?
    ensures var away := Flat(plan.Phases(), scope)[k].Target();
            |ReplicasOf(Effects(cfg, o, Flat(plan.Phases(), scope)[..k]), backend) - {away}|
              >= Min(|ReplicasOf(o, backend)|, Desired(cfg, backend)) - (if away.backend == backend then 1 else 0)
  {
    Capacity(cfg, o, plan, scope, k, backend);
    hide PlanOf, Effects, Flat;
    var there := ReplicasOf(Effects(cfg, o, Flat(plan.Phases(), scope)[..k]), backend);
    var away := Flat(plan.Phases(), scope)[k].Target();
    if away.backend == backend && away in there {
      assert |there - {away}| == |there| - 1;
    } else {
      assert there - {away} == there;
    }
  }

  lemma FlatMembers(plan: Plan, scope: string)
    ensures forall a :: a in Flat(plan.Phases(), scope) <==> a in plan.converge + plan.rewire + plan.drain && InScope(a, scope)
  {
    FlatPhases(plan, scope);
    ScopedMembers(plan.converge, scope);
    ScopedMembers(plan.rewire, scope);
    ScopedMembers(plan.drain, scope);
  }

  // The action that fails costs at most the one replica that was being recreated.
  lemma CapacityAtFailure(cfg: Config, o: Observed, a: Action, oc: Outcome, backend: string)
    ensures a.RemoveReplica? || |ReplicasOf(Attempt(cfg, o, a, oc), backend)| >= |ReplicasOf(o, backend)|
              - (if a.UpdateReplica? && oc.FailedLost? && a.backend == backend then 1 else 0)
  {
    if !a.RemoveReplica? {
      var before, after := ReplicasOf(o, backend), ReplicasOf(Attempt(cfg, o, a, oc), backend);
      if a.UpdateReplica? && oc.FailedLost? && Admitted(cfg, a) && a.backend == backend {
        assert after == before - {a.Target()};
      } else {
        SubsetCount(before, after);
      }
    }
  }

  // The end of any hold run, in any scope and under any pattern of failures.
  lemma CapacityAtEnd(cfg: Config, o: Observed, plan: Plan, scope: string, script: seq<Outcome>, backend: string)
    requires cfg.Valid() && PlanOf(cfg, o) == Ok(plan)
    ensures var acts := Flat(plan.Phases(), scope);
            var k := Served(cfg, acts, script);
            var lost := k < |acts| && acts[k].UpdateReplica? && acts[k].backend == backend && Next(Skip(script, k)).FailedLost?;
            |ReplicasOf(RunEnd(cfg, o, acts, script, false), backend)|
              >= Min(|ReplicasOf(o, backend)|, Desired(cfg, backend)) - (if lost then 1 else 0)
  {
    hide PlanOf, ReplicasOf, Flat, Effects, Served;
    var acts := Flat(plan.Phases(), scope);
    var k := Served(cfg, acts, script);
    Capacity(cfg, o, plan, scope, k, backend);
    if k < |acts| {
      var oc := Next(Skip(script, k));
      if acts[k].RemoveReplica? && (oc.Done? || oc.FailedDirty?) {
        OneMore(cfg, o, acts, k);
        Capacity(cfg, o, plan, scope, k + 1, backend);
      } else if !acts[k].RemoveReplica? {
        CapacityAtFailure(cfg, Effects(cfg, o, acts[..k]), acts[k], oc, backend);
      }
    }
  }
}

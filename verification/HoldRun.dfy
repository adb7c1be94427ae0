// A run that stops at a failure and is started again.
module HoldRun {
  import opened Wrappers
  import opened Order
  import opened Fleet
  import opened Schedule
  import opened Packing
  import opened Packer
  import opened Plan
  import opened PlanFacts
  import opened World
  import opened Resume
  import opened Reconcile
  import opened Apply
  import opened Capacity
  import opened Observe
  import opened Services
  import opened Loss

  lemma FlatUnscoped(plan: Plan)
    ensures Flat(plan.Phases(), "") == plan.converge + plan.rewire + plan.drain
  {
    FlatPhases(plan, "");
    ScopedMembers(plan.converge, "");
    ScopedMembers(plan.rewire, "");
    ScopedMembers(plan.drain, "");
  }

  // The converge and drain work of a plan from its k-th action on, and before it the
  // services that do not settle.
  ghost predicate RestOf(cfg: Config, o: Observed, again: Result<Plan, PackError>, plan: Plan, k: nat) {
    var c := Into(k, 0, |plan.converge|);
    && again.Ok?
    && again.value.converge == Repeats(cfg, o, plan.converge[..c]) + plan.converge[c..]
    && again.value.drain == plan.drain[Into(k, |plan.converge| + |plan.rewire|, |plan.drain|)..]
    && again.value.warnings == plan.warnings
  }

  // Whether the failed action took effect although it failed.
  ghost predicate TookEffect(cfg: Config, a: Action, oc: Outcome) {
    Admitted(cfg, a) && oc.FailedDirty?
  }

  ghost predicate LosesReplica(cfg: Config, a: Action, oc: Outcome) {
    Admitted(cfg, a) && oc.FailedLost? && a.UpdateReplica?
  }

  ghost predicate LosesService(cfg: Config, a: Action, oc: Outcome) {
    Admitted(cfg, a) && oc.FailedLost? && OnService(a)
  }

  // A hold run that gets through leaves nothing to plan but the services that do not
  // settle; one that stops leaves exactly its pending actions besides, with the failed one
  // in front of them unless it took effect. A failed update that lost its container leaves
  // its replica to be placed, if the packer finds room, or its service to be deployed.
  lemma HoldRunResumes(cfg: Config, o: Observed, plan: Plan, script: seq<Outcome>)
    requires cfg.Valid() && Orderly(o) && PlanOf(cfg, o) == Ok(plan)
    ensures var acts := Flat(plan.Phases(), "");
            var k := Served(cfg, acts, script);
            var again := PlanOf(cfg, RunEnd(cfg, o, acts, script, false));
            if k == |acts| then
              RestOf(cfg, o, again, plan, k) && (again == Ok(Plan([], [], [], plan.warnings)) <==> AllSettle(cfg, o, plan))
            else
              var oc := Next(Skip(script, k));
              if TookEffect(cfg, acts[k], oc) then RestOf(cfg, o, again, plan, k + 1)
              else if LosesReplica(cfg, acts[k], oc) then PlacedAnew(cfg, o, again, plan, k, acts[k])
              else if LosesService(cfg, acts[k], oc) then Redeployed(cfg, o, again, plan, k)
              else RestOf(cfg, o, again, plan, k)
  {
    hide PlanOf, Effects, RunEnd, Flat, Served, PlacedAnew, Redeployed, Repeats, AllSettle, Orderly;
    FlatUnscoped(plan);
    var acts := Flat(plan.Phases(), "");
    var k := Served(cfg, acts, script);
    HoldRunEnds(cfg, o, acts, script);
    if k == |acts| {
      assert acts[..k] == acts;
      Resumption(cfg, o, plan, k);
      Fixpoint(cfg, o, plan);
    } else if TookEffect(cfg, acts[k], Next(Skip(script, k))) {
      Resumption(cfg, o, plan, k + 1);
    } else if LosesReplica(cfg, acts[k], Next(Skip(script, k))) {
      ReplicaLost(cfg, o, plan, k);
    } else if LosesService(cfg, acts[k], Next(Skip(script, k))) {
      ServiceLost(cfg, o, plan, k);
    } else {
      Resumption(cfg, o, plan, k);
    }
  }

  // A hold run ends in the state after a prefix of its actions, but for a loss.
  lemma HoldRunEnds(cfg: Config, o: Observed, acts: seq<Action>, script: seq<Outcome>)
    ensures var k := Served(cfg, acts, script);
            var end := RunEnd(cfg, o, acts, script, false);
            if k == |acts| then
              AllAdmitted(cfg, acts) && end == Effects(cfg, o, acts)
            else
              var a, oc := acts[k], Next(Skip(script, k));
              if TookEffect(cfg, a, oc) then
                AllAdmitted(cfg, acts[..k + 1]) && end == Effects(cfg, o, acts[..k + 1])
              else if LosesReplica(cfg, a, oc) || LosesService(cfg, a, oc) then
                end == Attempt(cfg, Effects(cfg, o, acts[..k]), a, FailedLost)
              else
                end == Effects(cfg, o, acts[..k])
  {
    var k := Served(cfg, acts, script);
    if k == |acts| {
      assert acts[..k] == acts;
    } else {
      NotServed(cfg, acts, script);
      if TookEffect(cfg, acts[k], Next(Skip(script, k))) {
        OneMore(cfg, o, acts, k);
      }
    }
  }

  // ----- what rewires point at

  lemma {:induction false} OfMembers(out: seq<Placed>, name: string)
    ensures forall p | p in Of(out, name) :: p in out
  {
    if out != [] {
      OfMembers(out[..|out| - 1], name);
    }
  }

  // Every replica of the backend is up, with the desired tag, where the list says.
  ghost predicate Live(cfg: Config, w: Observed, backend: string, endpoints: seq<string>)
    requires backend in cfg.backends
  {
    && |endpoints| == cfg.backends[backend].replicas
    && forall r | 0 <= r < |endpoints| ::
         && Id(backend, r) in w.reps
         && w.reps[Id(backend, r)].ref.host == endpoints[r]
         && w.reps[Id(backend, r)].tag == cfg.backends[backend].imageTag
  }

  lemma PlacedIsThere(cfg: Config, w: Observed)
    requires Scheduled(cfg, w).Packed? && PlacePhase(cfg, w.err, w.reps, Scheduled(cfg, w).out) == []
    ensures forall p | p in Scheduled(cfg, w).out :: p.id in w.reps && p.ref == w.reps[p.id].ref
  {
    var ds, kept := AllDemands(cfg.policy, SchedBackends(cfg, w.err)), Kept(cfg, w.err, w.reps);
    var out := Scheduled(cfg, w).out;
    PackCovers(ds, kept, Ledger(w.free, Held(kept)));
    NoPlaces(cfg, kept, out);
    forall i | 0 <= i < |out| ensures out[i].id in kept && out[i].ref == kept[out[i].id] {
      assert out[i] in out && Answers(ds[i], kept, w.free, out[i]);
    }
  }

  lemma ConvergedIsLive(cfg: Config, w: Observed, out: seq<Placed>, s: seq<Action>, drain: seq<Action>, backend: string)
    requires cfg.Valid() && Continues(cfg, w, out, [], [], s, drain) && Planned(cfg, w.err, backend)
    ensures Live(cfg, w, backend, HostsOf(Of(out, backend)))
  {
    BackendCovered(cfg, w, backend);
    PlacedIsThere(cfg, w);
    OfMembers(out, backend);
    var ps := Of(out, backend);
    forall r | 0 <= r < |ps|
      ensures Id(backend, r) in w.reps && w.reps[Id(backend, r)].ref == ps[r].ref
      ensures w.reps[Id(backend, r)].tag == cfg.backends[backend].imageTag
    {
      assert ps[r] in ps && ps[r].id == Id(backend, r);
      FreshWhenNoUpdates(cfg, w, Id(backend, r));
    }
  }

  lemma FreshWhenNoUpdates(cfg: Config, w: Observed, id: Id)
    requires UpdatePhase(cfg, w.err, w.reps) == [] && Wanted(cfg, w.err, id) && id in w.reps
    ensures !Stale(cfg, id, w.reps[id])
  {
    NamesDistinct(cfg.backends);
    SlotsAreWanted(cfg, w.err, Names(cfg.backends), id);
    UpdatesTargetIds(cfg, w.reps, Slots(cfg, w.err, Names(cfg.backends)));
  }

  // In an unscoped hold run a rewire is dispatched only once the converge phase is done;
  // from then on, through the drain phase too, it lists one host per desired replica
  // 0..n-1 in order, and that replica is up there with the desired tag.
  lemma RewiresPointAtLive(cfg: Config, o: Observed, plan: Plan, k: nat, a: Action)
    requires cfg.Valid() && Orderly(o) && PlanOf(cfg, o) == Ok(plan) && a in plan.rewire
    requires |plan.converge| <= k <= |Flat(plan.Phases(), "")| && AllAdmitted(cfg, Flat(plan.Phases(), "")[..k])
    ensures a.Rewire? && a.backend in cfg.backends
    ensures Live(cfg, Effects(cfg, o, Flat(plan.Phases(), "")[..k]), a.backend, a.endpoints)
  {
    FlatUnscoped(plan);
    PlanRewires(cfg, o, plan);
    var u, p, s := AfterPrefix(cfg, o, plan, k);
    var w := Effects(cfg, o, Flat(plan.Phases(), "")[..k]);
    EffectsKeepErr(cfg, o, Flat(plan.Phases(), "")[..k]);
    ConvergedIsLive(cfg, w, Scheduled(cfg, o).out, s, plan.drain[Into(k, |plan.converge| + |plan.rewire|, |plan.drain|)..], a.backend);
  }

  // ----- rewires that were not reached

  ghost predicate Wires(cfg: Config, err: set<string>, svcs: map<string, ObsService>, changed: set<string>, out: seq<Placed>, a: Action) {
    && a.Rewire? && a.service in cfg.services
    && a.host == cfg.services[a.service].host && a.host !in err
    && a.backend in cfg.services[a.service].uses && !Blocked(cfg, err, a.backend)
    && (ServiceChange(cfg, err, svcs, a.service) != [] || a.backend in changed)
    && a.endpoints == HostsOf(Of(out, a.backend))
  }

  lemma {:induction false} UsesExact(cfg: Config, err: set<string>, name: string, host: string, uses: seq<string>,
                                     svcChanged: bool, changed: set<string>, out: seq<Placed>, a: Action)
    ensures a in UseRewires(cfg, err, name, host, uses, svcChanged, changed, out) <==>
              && a.Rewire? && a.service == name && a.host == host && a.backend in uses && !Blocked(cfg, err, a.backend)
              && (svcChanged || a.backend in changed) && a.endpoints == HostsOf(Of(out, a.backend))
  {
    if uses != [] {
      UsesExact(cfg, err, name, host, uses[1..], svcChanged, changed, out, a);
      assert a.Rewire? ==> (a.backend in uses <==> a.backend == uses[0] || a.backend in uses[1..]);
    }
  }

  // The rewire phase is exactly the uses of a reachable service whose own deploy or
  // whose backend changed in this plan.
  lemma {:induction false} RewiresExact(cfg: Config, err: set<string>, svcs: map<string, ObsService>, names: seq<string>,
                                        changed: set<string>, out: seq<Placed>, a: Action)
    requires forall n | n in names :: n in cfg.services
    ensures a in Rewires(cfg, err, svcs, names, changed, out) <==>
              Wires(cfg, err, svcs, changed, out, a) && a.service in names
  {
    if names != [] {
      RewiresExact(cfg, err, svcs, names[1..], changed, out, a);
      var s := cfg.services[names[0]];
      UsesExact(cfg, err, names[0], s.host, s.uses, ServiceChange(cfg, err, svcs, names[0]) != [], changed, out, a);
      assert a.Rewire? ==> (a.service in names <==> a.service == names[0] || a.service in names[1..]);
    }
  }

  ghost predicate Changes(acts: seq<Action>, service: string) {
    exists x :: x in acts && OnService(x) && x.service == service
  }

  lemma {:induction false} ServiceChangesExact(cfg: Config, err: set<string>, svcs: map<string, ObsService>, names: seq<string>, name: string)
    requires (forall n | n in names :: n in cfg.services) && name in cfg.services
    ensures Changes(ServiceChanges(cfg, err, svcs, names), name) <==> name in names && ServiceChange(cfg, err, svcs, name) != []
  {
    if names != [] {
      var first, rest := ServiceChange(cfg, err, svcs, names[0]), ServiceChanges(cfg, err, svcs, names[1..]);
      ServiceChangesExact(cfg, err, svcs, names[1..], name);
      assert forall x | x in first || x in rest :: x in first + rest;
      if name == names[0] && first != [] {
        assert first[0] in first;
      }
    }
  }

  // What gates the rewires of a plan is its own replica work and its own service deploys.
  lemma RewiresGated(cfg: Config, w: Observed, out: seq<Placed>, u: seq<Action>, p: seq<Action>, s: seq<Action>,
                     drain: seq<Action>, a: Action)
    requires Continues(cfg, w, out, u, p, s, drain)
    requires a.Rewire? && a.service in cfg.services && a.host == cfg.services[a.service].host && a.host !in w.err
    requires a.backend in cfg.services[a.service].uses && !Blocked(cfg, w.err, a.backend)
    requires a.endpoints == HostsOf(Of(out, a.backend))
    ensures PlanOf(cfg, w).Ok?
    ensures var rest := u + p + s + drain;
            a in PlanOf(cfg, w).value.rewire <==> a.backend in Touched(rest) || Changes(rest, a.service)
  {
    NamesDistinct(cfg.services);
    RewiresExact(cfg, w.err, w.svcs, Names(cfg.services), Touched(u + p + drain), out, a);
    ServiceChangesExact(cfg, w.err, w.svcs, Names(cfg.services), a.service);
    PhaseKinds(cfg, w, out);
    hide Updates, Slots, Places, ServiceChanges, DrainPhase, Rewires, ServiceChange, Blocked, Scheduled;
    KindsSplit(u + p + drain, s, u + p + s + drain, a);
  }

  lemma PhaseKinds(cfg: Config, w: Observed, out: seq<Placed>)
    ensures forall x | x in UpdatePhase(cfg, w.err, w.reps) :: x.OnReplica()
    ensures forall x | x in PlacePhase(cfg, w.err, w.reps, out) :: x.OnReplica()
    ensures forall x | x in ServicePhase(cfg, w.err, w.svcs) :: OnService(x)
    ensures forall x | x in DrainPhase(cfg, w.err, w.reps) :: x.OnReplica()
  {
    NamesDistinct(cfg.services);
    OrdersAreStrictTotal();
    UpdatesTargetIds(cfg, w.reps, Slots(cfg, w.err, Names(cfg.backends)));
    PlacesMembers(cfg, Kept(cfg, w.err, w.reps), out);
    ServicesMembers(cfg, w.err, w.svcs, Names(cfg.services));
    DrainsMembers(w.reps, Sorted(Extras(cfg, w.err, w.reps), IdLess));
  }

  lemma KindsSplit(replicas: seq<Action>, services: seq<Action>, rest: seq<Action>, a: Action)
    requires a.Rewire? && forall x :: x in rest <==> x in replicas || x in services
    requires (forall x | x in replicas :: x.OnReplica()) && forall x | x in services :: OnService(x)
    ensures Touched(rest) == Touched(replicas) && (Changes(rest, a.service) <==> Changes(services, a.service))
  {
  }

  // A rewire of the plan is planned again, wherever an unscoped run stopped, if and only
  // if some of what is left touches its backend's replicas or deploys its service, or that
  // service does not settle. Having been pending is no reason: once that work is done a
  // rewire not reached is forgotten.
  lemma PendingRewires(cfg: Config, o: Observed, plan: Plan, k: nat, a: Action)
    requires cfg.Valid() && Orderly(o) && PlanOf(cfg, o) == Ok(plan) && a in plan.rewire
    requires k <= |plan.converge + plan.rewire + plan.drain|
    requires AllAdmitted(cfg, (plan.converge + plan.rewire + plan.drain)[..k])
    ensures var again := PlanOf(cfg, Effects(cfg, o, (plan.converge + plan.rewire + plan.drain)[..k]));
            var c := Into(k, 0, |plan.converge|);
            var rest := Repeats(cfg, o, plan.converge[..c]) + plan.converge[c..]
                      + plan.drain[Into(k, |plan.converge| + |plan.rewire|, |plan.drain|)..];
            && again.Ok? && a.Rewire?
            && (a in again.value.rewire <==> a.backend in Touched(rest) || Changes(rest, a.service))
  {
    hide PlanOf, Effects, Touched, Changes, Scheduled, Blocked, Continues, HostsOf, Of, Repeats, Orderly;
    var acts := plan.converge + plan.rewire + plan.drain;
    PlanParts(cfg, o, plan);
    PlanRewires(cfg, o, plan);
    var u, p, s := AfterPrefix(cfg, o, plan, k);
    EffectsKeepErr(cfg, o, acts[..k]);
    RewiresGated(cfg, Effects(cfg, o, acts[..k]), Scheduled(cfg, o).out, u, p, s,
                 plan.drain[Into(k, |plan.converge| + |plan.rewire|, |plan.drain|)..], a);
  }
}

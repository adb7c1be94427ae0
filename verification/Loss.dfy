// A failed update that lost its container, and what planning again makes of it.
module Loss {
  import opened Wrappers
  import opened Order
  import opened Fleet
  import opened Observe
  import opened Schedule
  import opened Packing
  import opened Packer
  import opened Plan
  import opened PlanFacts
  import opened World
  import opened Services
  import opened Resume
  import opened Reconcile
  import opened Apply
  import opened Capacity

  // ----- a replica

  // The packing without the lost replica, its memory given back. All of it can be told
  // before the run.
  ghost function PackWithout(cfg: Config, o: Observed, a: Action): PackResult
    requires a.UpdateReplica?
  {
    PlanDeltaSpec(cfg.policy, SchedBackends(cfg, o.err), Charged(o.free, GpuRef(a.host, a.gpu), -NeedAt(cfg, a.backend)),
                  Kept(cfg, o.err, o.reps) - {a.Target()})
  }

  ghost predicate UpdatesInPlace(o: Observed, acts: seq<Action>) {
    forall a | a in acts :: a.UpdateReplica? && a.Target() in o.reps && o.reps[a.Target()].ref == GpuRef(a.host, a.gpu)
  }

  ghost predicate SameRefs(o: Observed, w: Observed) {
    o.reps.Keys == w.reps.Keys && forall id | id in o.reps :: w.reps[id].ref == o.reps[id].ref
  }

  // Updates move no replica and take no memory.
  lemma {:induction false} UpdatesKeepRefs(cfg: Config, o: Observed, acts: seq<Action>)
    requires AllAdmitted(cfg, acts) && UpdatesInPlace(o, acts)
    ensures var w := Effects(cfg, o, acts); SameRefs(o, w) && w.free == o.free
    decreases |acts|
  {
    if acts != [] {
      assert acts[0] in acts && forall x | x in acts[1..] :: x in acts;
      var mid := Effect(cfg, o, acts[0]);
      assert SameRefs(o, mid);
      UpdatesKeepRefs(cfg, mid, acts[1..]);
    }
  }

  lemma {:induction false} UpdateGone(cfg: Config, reps: map<Id, ObsReplica>, ids: seq<Id>, id: Id)
    requires NoDup(ids) && Updates(cfg, reps, ids) != []
    requires Updates(cfg, reps, ids)[0].OnReplica() && Updates(cfg, reps, ids)[0].Target() == id
    ensures Updates(cfg, reps - {id}, ids) == Updates(cfg, reps, ids)[1..]
  {
    if ids[0] in reps && UpdateOf(cfg, ids[0], reps[ids[0]]) != [] {
      UpdatesWithout(cfg, reps, ids[1..], id);
    } else {
      UpdatesTargetIds(cfg, reps, ids[1..]);
      assert Updates(cfg, reps, ids[1..])[0] in Updates(cfg, reps, ids[1..]);
      UpdateGone(cfg, reps, ids[1..], id);
    }
  }

  lemma FirstUpdateGone(cfg: Config, err: set<string>, reps: map<Id, ObsReplica>, id: Id)
    requires UpdatePhase(cfg, err, reps) != []
    requires UpdatePhase(cfg, err, reps)[0].OnReplica() && UpdatePhase(cfg, err, reps)[0].Target() == id
    ensures UpdatePhase(cfg, err, reps - {id}) == UpdatePhase(cfg, err, reps)[1..]
  {
    NamesDistinct(cfg.backends);
    SlotsDistinct(cfg, err, Names(cfg.backends));
    UpdateGone(cfg, reps, Slots(cfg, err, Names(cfg.backends)), id);
  }

  lemma DrainsWithout(cfg: Config, err: set<string>, reps: map<Id, ObsReplica>, id: Id)
    requires Wanted(cfg, err, id)
    ensures DrainPhase(cfg, err, reps - {id}) == DrainPhase(cfg, err, reps)
  {
    OrdersAreStrictTotal();
    assert Extras(cfg, err, reps - {id}) == Extras(cfg, err, reps);
    DrainsAgree(reps, reps - {id}, Sorted(Extras(cfg, err, reps), IdLess));
  }

  lemma KeptWithout(cfg: Config, o: Observed, w: Observed, id: Id)
    requires SameRefs(o, w)
    ensures Kept(cfg, o.err, w.reps - {id}) == Kept(cfg, o.err, o.reps) - {id}
  {
  }

  // The state after the updates before the k-th.
  lemma AfterUpdates(cfg: Config, o: Observed, out: seq<Placed>, u: seq<Action>, p: seq<Action>, s: seq<Action>,
                     drain: seq<Action>, k: nat)
    requires cfg.Valid() && Continues(cfg, o, out, u, p, s, drain) && k <= |u| && AllAdmitted(cfg, u[..k])
    ensures var w := Effects(cfg, o, u[..k]);
            && SameServices(o, w) && SameRefs(o, w) && w.free == o.free
            && UpdatePhase(cfg, o.err, w.reps) == u[k..] && DrainPhase(cfg, o.err, w.reps) == drain
  {
    hide Effects, Continues, UpdatePhase, DrainPhase, Wanted;
    UpdatePart(cfg, o, out, u, p, s, drain);
    assert forall x | x in u[..k] || x in u[k..] :: x in u;
    UpdatesKeepRefs(cfg, o, u[..k]);
    assert (u + p)[..k] == u[..k] && (u + p)[k..] == u[k..] + p;
    var u', p' := ReplicaSteps(cfg, o, out, u, p, s, drain, k);
    UpdatesLead(cfg, Effects(cfg, o, u[..k]), out, u', p', s, drain, u[k..], p);
  }

  // And after the loss of the k-th.
  lemma LostState(cfg: Config, o: Observed, out: seq<Placed>, u: seq<Action>, p: seq<Action>, s: seq<Action>,
                  drain: seq<Action>, k: nat)
    requires cfg.Valid() && Continues(cfg, o, out, u, p, s, drain)
    requires k < |u| && AllAdmitted(cfg, u[..k]) && u[k].UpdateReplica? && Admitted(cfg, u[k])
    ensures var a, w := u[k], Attempt(cfg, Effects(cfg, o, u[..k]), u[k], FailedLost);
            && SameServices(o, w)
            && Scheduled(cfg, w) == PackWithout(cfg, o, a)
            && Kept(cfg, o.err, w.reps) == Kept(cfg, o.err, o.reps) - {a.Target()}
            && UpdatePhase(cfg, o.err, w.reps) == u[k + 1..]
            && DrainPhase(cfg, o.err, w.reps) == drain
  {
    hide Effects, UpdatePhase, DrainPhase, Kept, PlanDeltaSpec, Wanted, SchedBackends, Continues;
    var a, reached := u[k], Effects(cfg, o, u[..k]);
    AfterUpdates(cfg, o, out, u, p, s, drain, k);
    UpdatePart(cfg, o, out, u, p, s, drain);
    assert a in u;
    FirstUpdateGone(cfg, o.err, reached.reps, a.Target());
    DrainsWithout(cfg, o.err, reached.reps, a.Target());
    KeptWithout(cfg, o, reached, a.Target());
    assert u[k..][0] == a && u[k..][1..] == u[k + 1..];
  }

  lemma UpdatePart(cfg: Config, o: Observed, out: seq<Placed>, u: seq<Action>, p: seq<Action>, s: seq<Action>, drain: seq<Action>)
    requires Continues(cfg, o, out, u, p, s, drain)
    ensures u == UpdatePhase(cfg, o.err, o.reps) && UpdatesInPlace(o, u)
    ensures forall a | a in u :: Wanted(cfg, o.err, a.Target())
    ensures forall a | a in p :: a.PlaceReplica?
  {
    var names := Names(cfg.backends);
    UpdatesTargetIds(cfg, o.reps, Slots(cfg, o.err, names));
    PlacesArePlaces(cfg, Kept(cfg, o.err, o.reps), out);
    hide Scheduled, Places, Updates, Slots, DrainPhase, ServicePhase;
    forall a | a in u ensures Wanted(cfg, o.err, a.Target()) {
      SlotsAreWanted(cfg, o.err, names, a.Target());
    }
  }

  // Updates and placements can be told apart, so the split of what is left is the split.
  lemma UpdatesLead(cfg: Config, o: Observed, out: seq<Placed>, u: seq<Action>, p: seq<Action>, s: seq<Action>,
                    drain: seq<Action>, u0: seq<Action>, p0: seq<Action>)
    requires Continues(cfg, o, out, u, p, s, drain) && u + p == u0 + p0
    requires (forall a | a in u0 :: a.UpdateReplica?) && forall a | a in p0 :: a.PlaceReplica?
    ensures UpdatePhase(cfg, o.err, o.reps) == u0 && DrainPhase(cfg, o.err, o.reps) == drain
  {
    UpdatesTargetIds(cfg, o.reps, Slots(cfg, o.err, Names(cfg.backends)));
    PlacesArePlaces(cfg, Kept(cfg, o.err, o.reps), out);
    SameSplit(u, p, u0, p0);
  }

  function LeadingUpdates(acts: seq<Action>): nat {
    if acts != [] && acts[0].UpdateReplica? then 1 + LeadingUpdates(acts[1..]) else 0
  }

  lemma {:induction false} Leading(u: seq<Action>, p: seq<Action>)
    requires (forall a | a in u :: a.UpdateReplica?) && forall a | a in p :: a.PlaceReplica?
    ensures LeadingUpdates(u + p) == |u|
  {
    if u == [] {
      assert u + p == p && (p != [] ==> p[0] in p);
    } else {
      assert (u + p)[0] == u[0] && u[0] in u && (u + p)[1..] == u[1..] + p;
      Leading(u[1..], p);
    }
  }

  lemma SameSplit(u: seq<Action>, p: seq<Action>, u0: seq<Action>, p0: seq<Action>)
    requires u + p == u0 + p0
    requires (forall a | a in u || a in u0 :: a.UpdateReplica?) && forall a | a in p || a in p0 :: a.PlaceReplica?
    ensures u == u0
  {
    Leading(u, p);
    Leading(u0, p0);
    assert u == (u + p)[..|u|] && u0 == (u0 + p0)[..|u0|];
  }

  // The plan after the loss of a replica: the error that the packer has without it, or
  // the later updates, what the packer then places, the lost replica among it, and the
  // rest as before.
  ghost predicate PlacedAnew(cfg: Config, o: Observed, again: Result<Plan, PackError>, plan: Plan, k: nat, a: Action)
    requires a.UpdateReplica?
  {
    match PackWithout(cfg, o, a)
    case Stuck(err) => again == Err(err)
    case Packed(out, _) =>
      && again.Ok? && k < |UpdatePhase(cfg, o.err, o.reps)|
      && again.value.converge == UpdatePhase(cfg, o.err, o.reps)[k + 1..]
           + Places(cfg, Kept(cfg, o.err, o.reps) - {a.Target()}, out) + ServicePhase(cfg, o.err, o.svcs)
      && PlanPlaces(again.value.converge, a.Target()) && !PlanPlaces(plan.converge, a.Target())
      && again.value.drain == plan.drain
      && again.value.warnings == plan.warnings
  }

  lemma UpdateIsFirst(cfg: Config, o: Observed, plan: Plan, k: nat)
    requires cfg.Valid() && PlanOf(cfg, o) == Ok(plan) && k < |plan.converge + plan.rewire + plan.drain|
    requires (plan.converge + plan.rewire + plan.drain)[k].UpdateReplica?
    ensures var u := UpdatePhase(cfg, o.err, o.reps);
            && k < |u| && u[k] == (plan.converge + plan.rewire + plan.drain)[k]
            && u[..k] == (plan.converge + plan.rewire + plan.drain)[..k]
  {
    hide PlanOf, Scheduled, UpdatePhase, PlacePhase, ServicePhase, DrainPhase, ConvergeAction, Blocked, Extra;
    PlanParts(cfg, o, plan);
    PlanMembers(cfg, o, plan);
    var out := Scheduled(cfg, o).out;
    var u, p, s := UpdatePhase(cfg, o.err, o.reps), PlacePhase(cfg, o.err, o.reps, out), ServicePhase(cfg, o.err, o.svcs);
    PhaseKindsOf(cfg, o, out);
    var rest := p + s + plan.rewire + plan.drain;
    assert plan.converge + plan.rewire + plan.drain == u + rest;
    assert forall a | a in rest :: !a.UpdateReplica?;
    assert forall i | |u| <= i < |u + rest| :: (u + rest)[i] == rest[i - |u|] && rest[i - |u|] in rest;
  }

  lemma PhaseKindsOf(cfg: Config, o: Observed, out: seq<Placed>)
    ensures forall a | a in PlacePhase(cfg, o.err, o.reps, out) :: a.PlaceReplica?
    ensures forall a | a in ServicePhase(cfg, o.err, o.svcs) :: ServiceAction(cfg, a)
  {
    NamesDistinct(cfg.services);
    PlacesArePlaces(cfg, Kept(cfg, o.err, o.reps), out);
    ChangesAreActions(cfg, o.err, o.svcs, Names(cfg.services));
  }

  // Whether a lost update can be planned again is decided by the packing without it.
  lemma ReplicaLost(cfg: Config, o: Observed, plan: Plan, k: nat)
    requires cfg.Valid() && PlanOf(cfg, o) == Ok(plan)
    requires var acts := plan.converge + plan.rewire + plan.drain;
             k < |acts| && AllAdmitted(cfg, acts[..k]) && acts[k].UpdateReplica? && Admitted(cfg, acts[k])
    ensures var acts := plan.converge + plan.rewire + plan.drain;
            PlacedAnew(cfg, o, PlanOf(cfg, Attempt(cfg, Effects(cfg, o, acts[..k]), acts[k], FailedLost)), plan, k, acts[k])
  {
    hide Effects, PlanOf, PackWithout, Scheduled, UpdatePhase, DrainPhase, ServicePhase, Kept, Places, Continues, Attempt, Wanted, Stale, Extra;
    var acts := plan.converge + plan.rewire + plan.drain;
    UpdateIsFirst(cfg, o, plan, k);
    PlanParts(cfg, o, plan);
    var out := Scheduled(cfg, o).out;
    var u, p, s := UpdatePhase(cfg, o.err, o.reps), PlacePhase(cfg, o.err, o.reps, out), ServicePhase(cfg, o.err, o.svcs);
    LostState(cfg, o, out, u, p, s, plan.drain, k);
    var a, w := acts[k], Attempt(cfg, Effects(cfg, o, acts[..k]), acts[k], FailedLost);
    PlanEnds(cfg, o, plan);
    PlanByParts(cfg, w);
    if PlanOf(cfg, w).Ok? {
      LostIsGone(cfg, o, acts[..k], a);
      LostWasThere(cfg, o, u, k);
      DiffExact(cfg, o, plan, a.Target());
      DiffExact(cfg, w, PlanOf(cfg, w).value, a.Target());
    }
  }

  lemma LostIsGone(cfg: Config, o: Observed, acts: seq<Action>, a: Action)
    requires AllAdmitted(cfg, acts) && a.UpdateReplica? && Admitted(cfg, a)
    ensures a.Target() !in Attempt(cfg, Effects(cfg, o, acts), a, FailedLost).reps
  {
  }

  lemma LostWasThere(cfg: Config, o: Observed, u: seq<Action>, k: nat)
    requires u == UpdatePhase(cfg, o.err, o.reps) && k < |u|
    ensures u[k].UpdateReplica? && u[k].Target() in o.reps && Wanted(cfg, o.err, u[k].Target())
  {
    var names := Names(cfg.backends);
    UpdatesTargetIds(cfg, o.reps, Slots(cfg, o.err, names));
    assert u[k] in u;
    SlotsAreWanted(cfg, o.err, names, u[k].Target());
  }

  lemma PlanEnds(cfg: Config, o: Observed, plan: Plan)
    requires PlanOf(cfg, o) == Ok(plan)
    ensures plan.drain == DrainPhase(cfg, o.err, o.reps)
    ensures plan.warnings == BackendWarnings(cfg, o.err, Names(cfg.backends)) + ServiceWarnings(cfg, o.err, Names(cfg.services))
  {
  }

  lemma PlanByParts(cfg: Config, w: Observed)
    ensures match Scheduled(cfg, w)
            case Stuck(err) => PlanOf(cfg, w) == Err(err)
            case Packed(out, _) =>
              && PlanOf(cfg, w).Ok?
              && PlanOf(cfg, w).value.converge == UpdatePhase(cfg, w.err, w.reps) + Places(cfg, Kept(cfg, w.err, w.reps), out)
                                                  + ServicePhase(cfg, w.err, w.svcs)
              && PlanOf(cfg, w).value.drain == DrainPhase(cfg, w.err, w.reps)
              && PlanOf(cfg, w).value.warnings
                 == BackendWarnings(cfg, w.err, Names(cfg.backends)) + ServiceWarnings(cfg, w.err, Names(cfg.services))
  {
  }

  // ----- a service

  // What is planned for a service once its container on its own host is lost: what the
  // containers on other hosts call for.
  function Reseen(cfg: Config, o: Observed, a: Action): seq<Action>
    requires ServiceAction(cfg, a)
  {
    ServiceChange(cfg, o.err, See(o.svcs, o.hosted - {SvcAt(a.service, a.host)}, a.service), a.service)
  }

  // A service that runs nowhere else is deployed instead of updated.
  lemma LostServiceIsDeployed(cfg: Config, o: Observed, a: Action)
    requires ServiceAction(cfg, a) && a.host !in o.err
    requires forall b | b in o.hosted && b.service == a.service :: b.host == a.host
    ensures Reseen(cfg, o, a) == [DeployService(a.service, a.host, a.tag)]
  {
    assert !OnHosts(o.hosted - {SvcAt(a.service, a.host)}, a.service);
  }

  lemma SeeAgrees(svcs: map<string, ObsService>, hosted: map<SvcAt, ObsService>, svcs': map<string, ObsService>,
                  hosted': map<SvcAt, ObsService>, name: string)
    requires forall a: SvcAt | a.service == name :: (a in hosted <==> a in hosted') && (a in hosted ==> hosted'[a] == hosted[a])
    ensures name in See(svcs, hosted, name) <==> name in See(svcs', hosted', name)
    ensures name in See(svcs, hosted, name) ==> See(svcs', hosted', name)[name] == See(svcs, hosted, name)[name]
  {
    if OnHosts(hosted, name) {
      var a := Last(hosted, name);
      assert IsLast(hosted', a);
      LastIs(hosted', a);
    }
  }

  // The service phase after j of its actions and the loss of the next.
  lemma ServicesAfterLoss(cfg: Config, o: Observed, j: nat)
    requires Orderly(o) && j < |ServicePhase(cfg, o.err, o.svcs)| && AllAdmitted(cfg, ServicePhase(cfg, o.err, o.svcs)[..j])
    requires ServiceAction(cfg, ServicePhase(cfg, o.err, o.svcs)[j])
    ensures var s := ServicePhase(cfg, o.err, o.svcs);
            var w := Down(Effects(cfg, o, s[..j]), s[j].service, s[j].host);
            && w == o.(svcs := w.svcs, hosted := w.hosted)
            && ServicePhase(cfg, w.err, w.svcs) == Repeats(cfg, o, s[..j]) + Reseen(cfg, o, s[j]) + s[j + 1..]
  {
    var names := Names(cfg.services);
    NamesDistinct(cfg.services);
    ChangesAreActions(cfg, o.err, o.svcs, names);
    ChangesAreDistinct(cfg, o.err, o.svcs, names);
    hide ServiceChanges, ServiceChange, Orderly, Names, Repeats, Redo, Down, Effects, Reseen, ServiceAction, DistinctServices;
    var s := ServicePhase(cfg, o.err, o.svcs);
    var w := Down(Effects(cfg, o, s[..j]), s[j].service, s[j].host);
    SeenAfterLoss(cfg, o, s, j, names);
    ChangesRedone(cfg, o.err, o.svcs, w.svcs, names);
    RedoAround(cfg, o, w.svcs, s, j);
  }

  lemma RedoAround(cfg: Config, o: Observed, svcs: map<string, ObsService>, s: seq<Action>, j: nat)
    requires Orderly(o) && j < |s| && AllAdmitted(cfg, s[..j])
    requires forall a | a in s :: ServiceAction(cfg, a) && ServiceChange(cfg, o.err, o.svcs, a.service) == [a]
    requires ServiceAction(cfg, s[j]) && Redo(cfg, o.err, svcs, [s[j]]) == Reseen(cfg, o, s[j])
    requires forall x | x in s[..j] :: IsSeen(cfg, o, svcs, x)
    requires forall x | x in s[j + 1..] :: ServiceAction(cfg, x) && ServiceChange(cfg, o.err, svcs, x.service) == [x]
    ensures Redo(cfg, o.err, svcs, s) == Repeats(cfg, o, s[..j]) + Reseen(cfg, o, s[j]) + s[j + 1..]
  {
    hide ServiceChange, Orderly, Repeats, Redo, Reseen, SeenAfter;
    var done, a, left := s[..j], s[j], s[j + 1..];
    assert s == done + [a] + left;
    assert forall x | x in done || x in left :: x in s;
    RedoConcat(cfg, o.err, svcs, done, [a]);
    RedoConcat(cfg, o.err, svcs, done + [a], left);
    RedoDone(cfg, o, svcs, done);
    RedoUndone(cfg, o.err, svcs, left);
  }

  lemma SeenAfterLoss(cfg: Config, o: Observed, s: seq<Action>, j: nat, names: seq<string>)
    requires Orderly(o) && j < |s| && AllAdmitted(cfg, s[..j]) && DistinctServices(s)
    requires forall a | a in s :: ServiceAction(cfg, a) && ServiceChange(cfg, o.err, o.svcs, a.service) == [a]
    requires ServiceAction(cfg, s[j]) && forall n | n in names :: n in cfg.services
    ensures var w := Down(Effects(cfg, o, s[..j]), s[j].service, s[j].host);
            && w == o.(svcs := w.svcs, hosted := w.hosted)
            && (forall n | n in names && ServiceChange(cfg, o.err, o.svcs, n) == [] :: ServiceChange(cfg, o.err, w.svcs, n) == [])
            && (forall x | x in s[..j] :: IsSeen(cfg, o, w.svcs, x))
            && (forall x | x in s[j + 1..] :: ServiceAction(cfg, x) && ServiceChange(cfg, o.err, w.svcs, x.service) == [x])
            && Redo(cfg, o.err, w.svcs, [s[j]]) == Reseen(cfg, o, s[j])
  {
    hide ServiceChange, Orderly, See, Redo, SeenAfter, Reseen;
    var done, a, left := s[..j], s[j], s[j + 1..];
    assert a in s && forall x | x in done || x in left :: x in s;
    assert DistinctServices(done) by {
      assert forall i | 0 <= i < j :: done[i] == s[i];
    }
    ServiceEffects(cfg, o, done);
    var mid := Effects(cfg, o, done);
    var w := Down(mid, a.service, a.host);
    hide Effects;
    forall n | n != a.service ensures SameService(mid, w, n) {
      DownOthers(mid, a.service, a.host, n);
    }
    forall n | n in names && ServiceChange(cfg, o.err, o.svcs, n) == [] ensures ServiceChange(cfg, o.err, w.svcs, n) == [] {
      assert !Named(done, n);
      SameTwice(o, mid, w, n);
      ChangeAgrees(cfg, o.err, o, w, n);
    }
    forall x | x in done ensures IsSeen(cfg, o, w.svcs, x) {
      NotLast(s, j, x);
      assert IsSeen(cfg, o, mid.svcs, x) && SameService(mid, w, x.service);
    }
    forall x | x in left ensures ServiceChange(cfg, o.err, w.svcs, x.service) == [x] {
      NotBetween(s, j, x);
      SameTwice(o, mid, w, x.service);
      ChangeAgrees(cfg, o.err, o, w, x.service);
    }
    LostRedone(cfg, o, mid, s, j);
  }

  lemma DownOthers(o: Observed, name: string, host: string, other: string)
    requires other != name
    ensures SameService(o, Down(o, name, host), other)
  {
  }

  lemma NotLast(s: seq<Action>, j: nat, x: Action)
    requires j < |s| && DistinctServices(s) && x in s[..j] && OnService(x) && OnService(s[j])
    ensures x.service != s[j].service
  {
    var i :| 0 <= i < j && s[..j][i] == x;
    assert s[i] == x;
  }

  lemma NotBetween(s: seq<Action>, j: nat, x: Action)
    requires j < |s| && DistinctServices(s) && x in s[j + 1..] && OnService(x) && OnService(s[j])
    ensures x.service != s[j].service && !Named(s[..j], x.service)
  {
    var i :| 0 <= i < |s[j + 1..]| && s[j + 1..][i] == x;
    assert s[j + 1 + i] == x;
    assert x in s[j..] by {
      assert s[j..][i + 1] == x;
    }
    NotBefore(s, j, x);
  }

  lemma LostRedone(cfg: Config, o: Observed, mid: Observed, s: seq<Action>, j: nat)
    requires j < |s| && DistinctServices(s) && ServiceAction(cfg, s[j])
    requires forall name | !Named(s[..j], name) :: SameService(o, mid, name)
    ensures Redo(cfg, o.err, Down(mid, s[j].service, s[j].host).svcs, [s[j]]) == Reseen(cfg, o, s[j])
  {
    var a := s[j];
    assert a in s[j..] by {
      assert s[j..][0] == a;
    }
    NotBefore(s, j, a);
    assert SameService(o, mid, a.service);
    var at := SvcAt(a.service, a.host);
    SeeAgrees(o.svcs, o.hosted - {at}, mid.svcs, mid.hosted - {at}, a.service);
    hide See;
    assert [a][1..] == [];
    assert ServiceChange(cfg, o.err, Down(mid, a.service, a.host).svcs, a.service) == Reseen(cfg, o, a);
  }

  // The service phase comes last in converge.
  lemma ServiceIsLast(cfg: Config, o: Observed, plan: Plan, k: nat)
    requires cfg.Valid() && PlanOf(cfg, o) == Ok(plan) && k < |plan.converge + plan.rewire + plan.drain|
    requires OnService((plan.converge + plan.rewire + plan.drain)[k])
    ensures k < |plan.converge| && (plan.converge + plan.rewire + plan.drain)[k] == plan.converge[k]
    ensures ServiceAction(cfg, plan.converge[k])
    ensures Scheduled(cfg, o).Packed?
    ensures var n := |UpdatePhase(cfg, o.err, o.reps) + PlacePhase(cfg, o.err, o.reps, Scheduled(cfg, o).out)|;
            n <= k && k - n < |ServicePhase(cfg, o.err, o.svcs)| && plan.converge[k] == ServicePhase(cfg, o.err, o.svcs)[k - n]
  {
    hide PlanOf, Scheduled, UpdatePhase, PlacePhase, ServicePhase, DrainPhase, ConvergeAction, Blocked, Extra;
    PlanParts(cfg, o, plan);
    PlanMembers(cfg, o, plan);
    var out := Scheduled(cfg, o).out;
    var u, p, s := UpdatePhase(cfg, o.err, o.reps), PlacePhase(cfg, o.err, o.reps, out), ServicePhase(cfg, o.err, o.svcs);
    PhaseKindsOf(cfg, o, out);
    ReplicasFirst(cfg, o, out, u, p, s, plan.drain);
    var late := plan.rewire + plan.drain;
    assert plan.converge + plan.rewire + plan.drain == u + p + s + late;
    assert forall i | 0 <= i < |u + p| :: (u + p + s + late)[i] == (u + p)[i] && (u + p)[i] in u + p;
    assert forall i | |u + p + s| <= i < |u + p + s + late| ::
        (u + p + s + late)[i] == late[i - |u + p + s|] && late[i - |u + p + s|] in late;
    assert forall a | a in late :: !OnService(a);
    assert (u + p + s)[k] == s[k - |u + p|] && s[k - |u + p|] in s;
  }

  // After the loss of a service the new plan has, in place of its update, what the
  // containers left call for.
  lemma ServiceLost(cfg: Config, o: Observed, plan: Plan, k: nat)
    requires cfg.Valid() && Orderly(o) && PlanOf(cfg, o) == Ok(plan)
    requires var acts := plan.converge + plan.rewire + plan.drain;
             k < |acts| && AllAdmitted(cfg, acts[..k]) && OnService(acts[k]) && Admitted(cfg, acts[k])
    ensures var acts := plan.converge + plan.rewire + plan.drain;
            Redeployed(cfg, o, PlanOf(cfg, Attempt(cfg, Effects(cfg, o, acts[..k]), acts[k], FailedLost)), plan, k)
  {
    hide Effects, PlanOf, Scheduled, UpdatePhase, PlacePhase, DrainPhase, ServicePhase, Kept, Continues, Reseen, Repeats, Orderly, ServiceAction;
    var acts := plan.converge + plan.rewire + plan.drain;
    ServiceIsLast(cfg, o, plan, k);
    PlanParts(cfg, o, plan);
    var out := Scheduled(cfg, o).out;
    var u, p, s := UpdatePhase(cfg, o.err, o.reps), PlacePhase(cfg, o.err, o.reps, out), ServicePhase(cfg, o.err, o.svcs);
    var front, j := u + p, k - |u + p|;
    assert acts[..k] == front + s[..j] && front[..|front|] == front && front[|front|..] == [];
    assert AllAdmitted(cfg, front) && AllAdmitted(cfg, s[..j]);
    EffectsConcat(cfg, o, front, s[..j]);
    var u', p' := ReplicaSteps(cfg, o, out, u, p, s, plan.drain, |front|);
    var mid := Effects(cfg, o, front);
    SameOrderly(o, mid);
    ReplicasFirst(cfg, o, out, u, p, s, plan.drain);
    LossAfterReplicas(cfg, o, mid, out, front, s, plan, j);
    assert plan.converge == front + s;
    assert plan.converge[k + 1..] == s[j + 1..] && plan.converge[..k] == front + s[..j];
  }

  ghost predicate Redeployed(cfg: Config, o: Observed, again: Result<Plan, PackError>, plan: Plan, k: nat) {
    && k < |plan.converge| && ServiceAction(cfg, plan.converge[k])
    && again.Ok?
    && again.value.converge == Repeats(cfg, o, plan.converge[..k]) + Reseen(cfg, o, plan.converge[k]) + plan.converge[k + 1..]
    && again.value.drain == plan.drain
    && again.value.warnings == plan.warnings
  }

  lemma LossAfterReplicas(cfg: Config, o: Observed, mid: Observed, out: seq<Placed>, front: seq<Action>, s: seq<Action>, plan: Plan, j: nat)
    requires PlanOf(cfg, o) == Ok(plan) && SameServices(o, mid) && Orderly(mid)
    requires Continues(cfg, mid, out, [], [], s, plan.drain) && (forall a | a in front :: !OnService(a))
    requires j < |s| && AllAdmitted(cfg, s[..j]) && ServiceAction(cfg, s[j])
    ensures var again := PlanOf(cfg, Down(Effects(cfg, mid, s[..j]), s[j].service, s[j].host));
            && again.Ok?
            && again.value.converge == Repeats(cfg, o, front + s[..j]) + Reseen(cfg, o, s[j]) + s[j + 1..]
            && again.value.drain == plan.drain && again.value.warnings == plan.warnings
  {
    ServicesAfterLoss(cfg, mid, j);
    RepeatsAgree(cfg, o, mid, s[..j]);
    RepeatsOfOthers(cfg, o, front);
    RepeatsConcat(cfg, o, front, s[..j]);
    assert Reseen(cfg, mid, s[j]) == Reseen(cfg, o, s[j]);
    PlanEnds(cfg, o, plan);
    hide Effects, ServicePhase, Kept, Reseen, Repeats, Orderly, PlanOf, Down, DrainPhase, UpdatePhase, Places, PlanDeltaSpec;
    var w := Down(Effects(cfg, mid, s[..j]), s[j].service, s[j].host);
    PlanByParts(cfg, w);
    var rest := Repeats(cfg, o, s[..j]) + Reseen(cfg, o, s[j]) + s[j + 1..];
    assert [] + [] + rest == rest && [] + Repeats(cfg, o, s[..j]) == Repeats(cfg, o, s[..j]);
  }
}

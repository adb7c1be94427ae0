// What a plan is, in the words of the configuration and of what is observed.
module PlanExact {
  import opened Wrappers
  import opened Order
  import opened Fleet
  import opened Schedule
  import opened Packing
  import opened Packer
  import opened Plan
  import opened PlanFacts
  import opened World
  import opened Services
  import opened Resume
  import opened Capacity
  import opened HoldRun
  import Greedy
  import Override

  // Replicas may be hidden: the backend goes anywhere on a pool with a host in error, or has
  // a pin on one.
  ghost predicate Hidden(b: Backend, err: set<string>) {
    if b.auto then exists h :: h in b.pool && h in err
    else exists pin :: pin in b.pins && pin.Pin? && pin.host in err
  }

  ghost predicate Reconciled(cfg: Config, err: set<string>, name: string) {
    name in cfg.backends && (cfg.backends[name].auto || cfg.backends[name].pins != []) && !Hidden(cfg.backends[name], err)
  }

  lemma {:induction false} PinHostsExact(pins: seq<Pin>)
    ensures forall h :: h in PinHosts(pins) <==> exists pin :: pin in pins && pin.Pin? && pin.host == h
  {
    if pins != [] {
      PinHostsExact(pins[1..]);
      assert forall pin :: pin in pins <==> pin == pins[0] || pin in pins[1..];
    }
  }

  // Exactly the backends that are hidden in part are blocked.
  lemma BlockedExact(cfg: Config, err: set<string>, name: string)
    requires name in cfg.backends
    ensures Blocked(cfg, err, name) <==>
              (cfg.backends[name].auto || cfg.backends[name].pins != []) && Hidden(cfg.backends[name], err)
    ensures Planned(cfg, err, name) <==> Reconciled(cfg, err, name)
  {
    PinHostsExact(cfg.backends[name].pins);
  }

  // ----- warnings

  lemma {:induction false} BackendWarningsAre(cfg: Config, err: set<string>, names: seq<string>)
    ensures forall w :: w in BackendWarnings(cfg, err, names) <==> w.BackendUnplanned? && w.backend in names && Blocked(cfg, err, w.backend)
  {
    if names != [] {
      BackendWarningsAre(cfg, err, names[1..]);
      assert forall n :: n in names <==> n == names[0] || n in names[1..];
    }
  }

  lemma {:induction false} ServiceWarningsAre(cfg: Config, err: set<string>, names: seq<string>)
    requires forall n | n in names :: n in cfg.services
    ensures forall w :: w in ServiceWarnings(cfg, err, names) <==>
              w.ServiceUnplanned? && w.service in names && w.host == cfg.services[w.service].host && w.host in err
  {
    if names != [] {
      ServiceWarningsAre(cfg, err, names[1..]);
      assert forall n :: n in names <==> n == names[0] || n in names[1..];
    }
  }

  // The operator is warned of exactly the backends that are hidden in part and of the
  // services on hosts in error.
  lemma WarningsExact(cfg: Config, o: Observed, plan: Plan, w: Warning)
    requires PlanOf(cfg, o) == Ok(plan)
    ensures w in plan.warnings <==>
              match w
              case BackendUnplanned(n) =>
                n in cfg.backends && (cfg.backends[n].auto || cfg.backends[n].pins != []) && Hidden(cfg.backends[n], o.err)
              case ServiceUnplanned(n, host) => n in cfg.services && host == cfg.services[n].host && host in o.err
  {
    NamesDistinct(cfg.backends);
    NamesDistinct(cfg.services);
    BackendWarningsAre(cfg, o.err, Names(cfg.backends));
    ServiceWarningsAre(cfg, o.err, Names(cfg.services));
    if w.BackendUnplanned? && w.backend in cfg.backends {
      BlockedExact(cfg, o.err, w.backend);
    }
  }

  // And no action names such a backend.
  lemma HiddenLeftAlone(cfg: Config, o: Observed, plan: Plan, a: Action)
    requires cfg.Valid() && PlanOf(cfg, o) == Ok(plan) && a in plan.converge + plan.rewire + plan.drain
    requires a.OnReplica() || a.Rewire?
    ensures !(a.backend in cfg.backends && (cfg.backends[a.backend].auto || cfg.backends[a.backend].pins != [])
              && Hidden(cfg.backends[a.backend], o.err))
  {
    hide PlanOf, Blocked, Hidden;
    PlanMembers(cfg, o, plan);
    assert a in plan.converge ==> ConvergeAction(cfg, o, a);
    if a.backend in cfg.backends {
      BlockedExact(cfg, o.err, a.backend);
    }
  }

  // ----- the actions

  // The replica's container calls for an update.
  ghost predicate Drifted(cfg: Config, id: Id, r: ObsReplica)
    requires id.backend in cfg.backends
  {
    var b := cfg.backends[id.backend];
    r.tag != b.imageTag
    || (r.hash != "" && r.hash != Override.ReplicaHash(cfg.compose, b.service, id.backend, id.replica, r.ref.idx, b.imageTag))
  }

  ghost predicate ServiceDrifted(cfg: Config, name: string, s: ObsService)
    requires name in cfg.services
  {
    var c := cfg.services[name];
    s.tag != c.imageTag || (s.hash != "" && s.hash != Override.ServiceHash(cfg.compose, c.service, name, c.imageTag))
  }

  // What the plan is to do before it rewires and drains; out is where the packer has the
  // replicas.
  ghost predicate Converges(cfg: Config, o: Observed, out: seq<Placed>, a: Action) {
    match a
    case PlaceReplica(n, r, host, gpu, tag) =>
      && Reconciled(cfg, o.err, n) && 0 <= r < cfg.backends[n].replicas && tag == cfg.backends[n].imageTag
      && Id(n, r) !in o.reps && Placed(Id(n, r), GpuRef(host, gpu)) in out
    case UpdateReplica(n, r, host, gpu, tag, oldTag) =>
      && Reconciled(cfg, o.err, n) && 0 <= r < cfg.backends[n].replicas && tag == cfg.backends[n].imageTag
      && Id(n, r) in o.reps && o.reps[Id(n, r)].ref == GpuRef(host, gpu) && o.reps[Id(n, r)].tag == oldTag
      && Drifted(cfg, Id(n, r), o.reps[Id(n, r)])
    case DeployService(n, host, tag) =>
      && n in cfg.services && host == cfg.services[n].host && host !in o.err && tag == cfg.services[n].imageTag
      && n !in o.svcs
    case UpdateService(n, host, tag, oldTag) =>
      && n in cfg.services && host == cfg.services[n].host && host !in o.err && tag == cfg.services[n].imageTag
      && n in o.svcs && o.svcs[n].tag == oldTag && ServiceDrifted(cfg, n, o.svcs[n])
    case RemoveReplica(_, _, _, _) => false
    case Rewire(_, _, _, _) => false
  }

  ghost predicate Removable(cfg: Config, o: Observed, a: Action) {
    && a.RemoveReplica? && Id(a.backend, a.replica) in o.reps
    && o.reps[Id(a.backend, a.replica)].ref == GpuRef(a.host, a.gpu)
    && if a.backend in cfg.backends then
         && a.replica >= cfg.backends[a.backend].replicas
         && !((cfg.backends[a.backend].auto || cfg.backends[a.backend].pins != []) && Hidden(cfg.backends[a.backend], o.err))
       else a.replica >= 0
  }

  lemma WantedExact(cfg: Config, err: set<string>, id: Id)
    ensures Wanted(cfg, err, id) <==> Reconciled(cfg, err, id.backend) && 0 <= id.replica < cfg.backends[id.backend].replicas
  {
    if id.backend in cfg.backends {
      BlockedExact(cfg, err, id.backend);
    }
  }

  lemma UpdatesExact(cfg: Config, o: Observed, a: Action)
    ensures a in UpdatePhase(cfg, o.err, o.reps) <==> a.UpdateReplica? && Converges(cfg, o, [], a)
  {
    var names := Names(cfg.backends);
    var ids := Slots(cfg, o.err, names);
    NamesDistinct(cfg.backends);
    UpdatesTargetIds(cfg, o.reps, ids);
    if a.UpdateReplica? {
      SlotsAreWanted(cfg, o.err, names, a.Target());
      WantedExact(cfg, o.err, a.Target());
      hide Slots, Updates, Names, Wanted, Reconciled, Override.ReplicaHash;
      if Converges(cfg, o, [], a) {
        var x :| x in Updates(cfg, o.reps, ids) && x.UpdateReplica? && x.Target() == a.Target();
        assert x == a;
      }
    }
  }

  lemma PlacesExact(cfg: Config, o: Observed, a: Action)
    requires cfg.Valid() && Scheduled(cfg, o).Packed?
    ensures a in PlacePhase(cfg, o.err, o.reps, Scheduled(cfg, o).out) <==>
              a.PlaceReplica? && Converges(cfg, o, Scheduled(cfg, o).out, a)
  {
    OutDistinct(cfg, o);
    hide Scheduled;
    var out, kept := Scheduled(cfg, o).out, Kept(cfg, o.err, o.reps);
    PlacesMembers(cfg, kept, out);
    forall p | p in out ensures Wanted(cfg, o.err, p.id) && (p.id in kept <==> p.id in o.reps) {
    }
    if a.PlaceReplica? {
      WantedExact(cfg, o.err, a.Target());
      hide Wanted, Reconciled;
      if Converges(cfg, o, out, a) {
        var p := Placed(a.Target(), GpuRef(a.host, a.gpu));
        assert p in out && PlaceOf(cfg, p) == a;
      }
      if a in Places(cfg, kept, out) {
        var p :| p in out && p.id !in kept && a == PlaceOf(cfg, p);
        assert p == Placed(a.Target(), GpuRef(a.host, a.gpu));
      }
    } else {
      PlacesAreNone(cfg, kept, out, a);
    }
  }

  lemma PlacesAreNone(cfg: Config, kept: map<Id, GpuRef>, out: seq<Placed>, a: Action)
    requires !a.PlaceReplica?
    ensures a !in Places(cfg, kept, out)
  {
    PlacesMembers(cfg, kept, out);
  }

  lemma {:induction false} ChangesMembers(cfg: Config, err: set<string>, svcs: map<string, ObsService>, names: seq<string>, a: Action)
    requires forall n | n in names :: n in cfg.services
    ensures a in ServiceChanges(cfg, err, svcs, names) <==>
              OnService(a) && a.service in names && ServiceChange(cfg, err, svcs, a.service) == [a]
  {
    if names != [] {
      ChangesMembers(cfg, err, svcs, names[1..], a);
      assert forall n :: n in names <==> n == names[0] || n in names[1..];
    }
  }

  lemma ServicesExact(cfg: Config, o: Observed, a: Action)
    ensures a in ServicePhase(cfg, o.err, o.svcs) <==> OnService(a) && Converges(cfg, o, [], a)
  {
    NamesDistinct(cfg.services);
    ChangesMembers(cfg, o.err, o.svcs, Names(cfg.services), a);
  }

  lemma {:induction false} DrainsExactly(reps: map<Id, ObsReplica>, ids: seq<Id>, a: Action)
    requires forall id | id in ids :: id in reps
    ensures a in Drains(reps, ids) <==>
              && a.RemoveReplica? && a.Target() in ids && reps[a.Target()].ref == GpuRef(a.host, a.gpu)
  {
    if ids != [] {
      DrainsExactly(reps, ids[1..], a);
      assert forall id :: id in ids <==> id == ids[0] || id in ids[1..];
    }
  }

  lemma DrainExact(cfg: Config, o: Observed, a: Action)
    ensures a in DrainPhase(cfg, o.err, o.reps) <==> Removable(cfg, o, a)
  {
    OrdersAreStrictTotal();
    var extras := Extras(cfg, o.err, o.reps);
    DrainsExactly(o.reps, Sorted(extras, IdLess), a);
    if a.RemoveReplica? && a.backend in cfg.backends {
      BlockedExact(cfg, o.err, a.backend);
    }
  }

  // The converge and the drain phase, action by action, for every configuration and every
  // observation.
  lemma ActionsExact(cfg: Config, o: Observed, plan: Plan, a: Action)
    requires cfg.Valid() && PlanOf(cfg, o) == Ok(plan)
    ensures Scheduled(cfg, o).Packed?
    ensures a in plan.converge <==> Converges(cfg, o, Scheduled(cfg, o).out, a)
    ensures a in plan.drain <==> Removable(cfg, o, a)
  {
    PlanParts(cfg, o, plan);
    hide PlanOf, Scheduled, UpdatePhase, PlacePhase, ServicePhase, DrainPhase, Reconciled, Hidden, Drifted, ServiceDrifted;
    UpdatesExact(cfg, o, a);
    PlacesExact(cfg, o, a);
    ServicesExact(cfg, o, a);
    DrainExact(cfg, o, a);
  }

  ghost predicate PlacedOn(out: seq<Placed>, id: Id, host: string) {
    exists p :: p in out && p.id == id && p.ref.host == host
  }

  // One host for each replica, in order, where the packer has it.
  ghost predicate Lists(cfg: Config, out: seq<Placed>, backend: string, endpoints: seq<string>)
    requires backend in cfg.backends
  {
    && |endpoints| == cfg.backends[backend].replicas
    && forall r | 0 <= r < |endpoints| :: PlacedOn(out, Id(backend, r), endpoints[r])
  }

  lemma EndpointsExact(cfg: Config, o: Observed, backend: string, endpoints: seq<string>)
    requires cfg.Valid() && Scheduled(cfg, o).Packed? && Planned(cfg, o.err, backend)
    ensures endpoints == HostsOf(Of(Scheduled(cfg, o).out, backend)) <==> Lists(cfg, Scheduled(cfg, o).out, backend, endpoints)
  {
    BackendCovered(cfg, o, backend);
    OutDistinct(cfg, o);
    hide Scheduled, Planned;
    assert ValidBackend(cfg.backends[backend]);
    OfMembers(Scheduled(cfg, o).out, backend);
    HostsListed(cfg, Scheduled(cfg, o).out, Of(Scheduled(cfg, o).out, backend), backend, endpoints);
  }

  lemma HostsListed(cfg: Config, out: seq<Placed>, ps: seq<Placed>, backend: string, endpoints: seq<string>)
    requires backend in cfg.backends && |ps| == cfg.backends[backend].replicas
    requires forall i, j | 0 <= i < j < |out| :: out[i].id != out[j].id
    requires (forall p | p in ps :: p in out) && forall r | 0 <= r < |ps| :: ps[r].id == Id(backend, r)
    ensures endpoints == HostsOf(ps) <==> Lists(cfg, out, backend, endpoints)
  {
    forall r | 0 <= r < |ps| ensures ps[r] in out && PlacedOn(out, Id(backend, r), ps[r].ref.host) {
      assert ps[r] in ps;
    }
    if Lists(cfg, out, backend, endpoints) {
      forall r | 0 <= r < |ps| ensures endpoints[r] == HostsOf(ps)[r] {
        var p :| p in out && p.id == Id(backend, r) && p.ref.host == endpoints[r];
        OnePlace(out, p, ps[r]);
      }
      assert endpoints == HostsOf(ps);
    }
  }

  lemma OnePlace(out: seq<Placed>, p: Placed, q: Placed)
    requires forall i, j | 0 <= i < j < |out| :: out[i].id != out[j].id
    requires p in out && q in out && p.id == q.id
    ensures p == q
  {
  }

  ghost predicate Works(acts: seq<Action>, backend: string) {
    exists x :: x in acts && (x.PlaceReplica? || x.UpdateReplica? || x.RemoveReplica?) && x.backend == backend
  }

  ghost predicate Deploys(acts: seq<Action>, service: string) {
    exists x :: x in acts && (x.DeployService? || x.UpdateService?) && x.service == service
  }

  // The rewire phase: the uses, of services on reachable hosts, of backends that are not
  // hidden, where the plan deploys the service or works on the backend.
  lemma RewireExact(cfg: Config, o: Observed, plan: Plan, a: Action)
    requires cfg.Valid() && PlanOf(cfg, o) == Ok(plan)
    ensures Scheduled(cfg, o).Packed?
    ensures a in plan.rewire <==>
              && a.Rewire? && a.service in cfg.services && a.host == cfg.services[a.service].host && a.host !in o.err
              && a.backend in cfg.services[a.service].uses && a.backend in cfg.backends && !Hidden(cfg.backends[a.backend], o.err)
              && (Deploys(plan.converge, a.service) || Works(plan.converge + plan.drain, a.backend))
              && Lists(cfg, Scheduled(cfg, o).out, a.backend, a.endpoints)
  {
    PlanParts(cfg, o, plan);
    var out := Scheduled(cfg, o).out;
    var u, p, s := UpdatePhase(cfg, o.err, o.reps), PlacePhase(cfg, o.err, o.reps, out), ServicePhase(cfg, o.err, o.svcs);
    RewiresOfPlan(cfg, o, plan, a);
    if a.Rewire? && a.service in cfg.services && a.backend in cfg.services[a.service].uses {
      BlockedExact(cfg, o.err, a.backend);
      assert ValidBackend(cfg.backends[a.backend]);
      Gates(cfg, o, plan, a);
      if !Blocked(cfg, o.err, a.backend) {
        EndpointsExact(cfg, o, a.backend, a.endpoints);
      }
      hide PlanOf, Scheduled, Blocked, Hidden, Lists, Deploys, Works, Of, Touched, ServiceChange, UpdatePhase, PlacePhase, DrainPhase;
    }
  }

  lemma RewiresOfPlan(cfg: Config, o: Observed, plan: Plan, a: Action)
    requires PlanOf(cfg, o) == Ok(plan)
    ensures Scheduled(cfg, o).Packed?
    ensures var out := Scheduled(cfg, o).out;
            var replicas := UpdatePhase(cfg, o.err, o.reps) + PlacePhase(cfg, o.err, o.reps, out);
            a in plan.rewire <==> Wires(cfg, o.err, o.svcs, Touched(replicas + plan.drain), out, a)
  {
    NamesDistinct(cfg.services);
    var out := Scheduled(cfg, o).out;
    var replicas := UpdatePhase(cfg, o.err, o.reps) + PlacePhase(cfg, o.err, o.reps, out);
    RewiresExact(cfg, o.err, o.svcs, Names(cfg.services), Touched(replicas + plan.drain), out, a);
  }

  lemma Gates(cfg: Config, o: Observed, plan: Plan, a: Action)
    requires cfg.Valid() && PlanOf(cfg, o) == Ok(plan) && a.Rewire? && a.service in cfg.services
    ensures Scheduled(cfg, o).Packed?
    ensures ServiceChange(cfg, o.err, o.svcs, a.service) != [] <==> Deploys(plan.converge, a.service)
    ensures var replicas := UpdatePhase(cfg, o.err, o.reps) + PlacePhase(cfg, o.err, o.reps, Scheduled(cfg, o).out);
            a.backend in Touched(replicas + plan.drain) <==> Works(plan.converge + plan.drain, a.backend)
  {
    PlanParts(cfg, o, plan);
    var out := Scheduled(cfg, o).out;
    PhaseKinds(cfg, o, out);
    NamesDistinct(cfg.services);
    ServiceChangesExact(cfg, o.err, o.svcs, Names(cfg.services), a.service);
    hide PlanOf, Scheduled, Updates, Slots, Places, ServiceChanges, ServiceChange, DrainPhase, Names;
    var u, p, s := UpdatePhase(cfg, o.err, o.reps), PlacePhase(cfg, o.err, o.reps, out), ServicePhase(cfg, o.err, o.svcs);
    GatesSplit(u + p, s, plan.drain, a);
  }

  lemma GatesSplit(replicas: seq<Action>, services: seq<Action>, drain: seq<Action>, a: Action)
    requires a.Rewire? && (forall x | x in replicas || x in drain :: x.OnReplica()) && forall x | x in services :: OnService(x)
    ensures Changes(services, a.service) <==> Deploys(replicas + services, a.service)
    ensures a.backend in Touched(replicas + drain) <==> Works(replicas + services + drain, a.backend)
  {
    assert forall x :: x in replicas + services <==> x in replicas || x in services;
    assert forall x :: x in replicas + drain <==> x in replicas || x in drain;
    assert forall x :: x in replicas + services + drain <==> x in replicas || x in services || x in drain;
  }

  // ----- the order

  // In (backend, index) order.
  ghost predicate IdBefore(x: Id, y: Id) {
    StringLess(x.backend, y.backend) || (x.backend == y.backend && x.replica < y.replica)
  }

  ghost predicate Before(a: Action, b: Action) {
    if a.UpdateReplica? then b.UpdateReplica? ==> IdBefore(a.Target(), b.Target())
    else if a.PlaceReplica? then !b.UpdateReplica? && (b.PlaceReplica? ==> IdBefore(a.Target(), b.Target()))
    else if OnService(a) then OnService(b) && StringLess(a.service, b.service)
    else if a.RemoveReplica? then b.RemoveReplica? && IdBefore(a.Target(), b.Target())
    else true
  }

  ghost predicate Ordered(acts: seq<Action>) {
    forall i, j | 0 <= i < j < |acts| :: Before(acts[i], acts[j])
  }

  lemma OrderedConcat(a: seq<Action>, b: seq<Action>)
    requires Ordered(a) && Ordered(b) && forall x, y | x in a && y in b :: Before(x, y)
    ensures Ordered(a + b)
  {
    hide Before;
    var ab := a + b;
    forall i, j | 0 <= i < j < |ab| ensures Before(ab[i], ab[j]) {
      assert i < |a| ==> ab[i] == a[i] && a[i] in a;
      assert i >= |a| ==> ab[i] == b[i - |a|];
      assert j < |a| ==> ab[j] == a[j];
      assert j >= |a| ==> ab[j] == b[j - |a|] && b[j - |a|] in b;
    }
  }

  lemma {:induction false} UpdatesOrdered(cfg: Config, reps: map<Id, ObsReplica>, ids: seq<Id>)
    requires forall i, j | 0 <= i < j < |ids| :: IdBefore(ids[i], ids[j])
    ensures Ordered(Updates(cfg, reps, ids))
  {
    if ids != [] {
      UpdatesOrdered(cfg, reps, ids[1..]);
      UpdatesTargetIds(cfg, reps, ids[1..]);
      var first := if ids[0] in reps then UpdateOf(cfg, ids[0], reps[ids[0]]) else [];
      forall x, y | x in first && y in Updates(cfg, reps, ids[1..]) ensures Before(x, y) {
        var k :| 0 <= k < |ids[1..]| && ids[1..][k] == y.Target();
        assert ids[k + 1] == y.Target();
      }
      OrderedConcat(first, Updates(cfg, reps, ids[1..]));
    }
  }

  lemma {:induction false} PlacesOrdered(cfg: Config, kept: map<Id, GpuRef>, out: seq<Placed>)
    requires forall i, j | 0 <= i < j < |out| :: IdBefore(out[i].id, out[j].id)
    ensures Ordered(Places(cfg, kept, out))
  {
    if out != [] {
      PlacesOrdered(cfg, kept, out[1..]);
      PlacesMembers(cfg, kept, out[1..]);
      var first := if out[0].id in kept then [] else [PlaceOf(cfg, out[0])];
      forall x, y | x in first && y in Places(cfg, kept, out[1..]) ensures Before(x, y) {
        var p :| p in out[1..] && p.id !in kept && y == PlaceOf(cfg, p);
        var k :| 0 <= k < |out[1..]| && out[1..][k] == p;
        assert out[k + 1] == p;
      }
      OrderedConcat(first, Places(cfg, kept, out[1..]));
    }
  }

  lemma {:induction false} ChangesOrdered(cfg: Config, err: set<string>, svcs: map<string, ObsService>, names: seq<string>)
    requires (forall n | n in names :: n in cfg.services) && Increasing(names, StringLess)
    ensures Ordered(ServiceChanges(cfg, err, svcs, names))
  {
    if names != [] {
      ChangesOrdered(cfg, err, svcs, names[1..]);
      ServicesMembers(cfg, err, svcs, names[1..]);
      var first := ServiceChange(cfg, err, svcs, names[0]);
      forall x, y | x in first && y in ServiceChanges(cfg, err, svcs, names[1..]) ensures Before(x, y) {
        var k :| 0 <= k < |names[1..]| && names[1..][k] == y.service;
        assert names[k + 1] == y.service && StringLess(names[0], names[k + 1]);
      }
      OrderedConcat(first, ServiceChanges(cfg, err, svcs, names[1..]));
    }
  }

  lemma {:induction false} DrainsOrdered(reps: map<Id, ObsReplica>, ids: seq<Id>)
    requires (forall id | id in ids :: id in reps) && forall i, j | 0 <= i < j < |ids| :: IdBefore(ids[i], ids[j])
    ensures Ordered(Drains(reps, ids))
  {
    if ids != [] {
      DrainsOrdered(reps, ids[1..]);
      DrainsMembers(reps, ids[1..]);
      var first := [RemoveReplica(ids[0].backend, ids[0].replica, reps[ids[0]].ref.host, reps[ids[0]].ref.idx)];
      forall x, y | x in first && y in Drains(reps, ids[1..]) ensures Before(x, y) {
        var k :| 0 <= k < |ids[1..]| && ids[1..][k] == y.Target();
        assert ids[k + 1] == y.Target();
      }
      OrderedConcat(first, Drains(reps, ids[1..]));
    }
  }

  lemma {:induction false} SlotsOrdered(cfg: Config, err: set<string>, names: seq<string>)
    requires Increasing(names, StringLess)
    ensures forall i, j | 0 <= i < j < |Slots(cfg, err, names)| :: IdBefore(Slots(cfg, err, names)[i], Slots(cfg, err, names)[j])
  {
    if names != [] {
      SlotsOrdered(cfg, err, names[1..]);
      var first := if Planned(cfg, err, names[0]) then BackendSlots(names[0], cfg.backends[names[0]]) else [];
      var rest := Slots(cfg, err, names[1..]);
      forall i | 0 <= i < |rest| ensures StringLess(names[0], rest[i].backend) {
        assert rest[i] in rest;
        SlotsAreWanted(cfg, err, names[1..], rest[i]);
        var k :| 0 <= k < |names[1..]| && names[1..][k] == rest[i].backend;
        assert names[k + 1] == rest[i].backend;
      }
    }
  }

  lemma OutOrdered(cfg: Config, o: Observed)
    requires Scheduled(cfg, o).Packed?
    ensures forall i, j | 0 <= i < j < |Scheduled(cfg, o).out| :: IdBefore(Scheduled(cfg, o).out[i].id, Scheduled(cfg, o).out[j].id)
  {
    OutShape(cfg, o);
    Greedy.AllInOrder(cfg.policy, SchedBackends(cfg, o.err));
  }

  // Converge has the updates, then the placements, each by backend and index, then the
  // services by name; drain is by backend and index.
  lemma PlanOrdered(cfg: Config, o: Observed, plan: Plan)
    requires cfg.Valid() && PlanOf(cfg, o) == Ok(plan)
    ensures Ordered(plan.converge) && Ordered(plan.drain)
  {
    PlanParts(cfg, o, plan);
    var out := Scheduled(cfg, o).out;
    PhasesOrdered(cfg, o);
    PhaseKinds(cfg, o, out);
    KindsOf(cfg, o, out);
    hide PlanOf, Scheduled, UpdatePhase, PlacePhase, ServicePhase, DrainPhase, Ordered, ValidBackend;
    OrderedThree(UpdatePhase(cfg, o.err, o.reps), PlacePhase(cfg, o.err, o.reps, out), ServicePhase(cfg, o.err, o.svcs));
  }

  lemma OrderedThree(u: seq<Action>, p: seq<Action>, s: seq<Action>)
    requires Ordered(u) && Ordered(p) && Ordered(s)
    requires (forall a | a in u :: a.UpdateReplica?) && (forall a | a in p :: a.PlaceReplica?) && forall a | a in s :: OnService(a)
    ensures Ordered(u + p + s)
  {
    hide Ordered;
    OrderedConcat(u, p);
    OrderedConcat(u + p, s);
  }

  lemma KindsOf(cfg: Config, o: Observed, out: seq<Placed>)
    ensures forall a | a in UpdatePhase(cfg, o.err, o.reps) :: a.UpdateReplica?
    ensures forall a | a in PlacePhase(cfg, o.err, o.reps, out) :: a.PlaceReplica?
  {
    UpdatesTargetIds(cfg, o.reps, Slots(cfg, o.err, Names(cfg.backends)));
    PlacesMembers(cfg, Kept(cfg, o.err, o.reps), out);
  }

  lemma PhasesOrdered(cfg: Config, o: Observed)
    requires cfg.Valid() && Scheduled(cfg, o).Packed?
    ensures Ordered(UpdatePhase(cfg, o.err, o.reps)) && Ordered(PlacePhase(cfg, o.err, o.reps, Scheduled(cfg, o).out))
    ensures Ordered(ServicePhase(cfg, o.err, o.svcs)) && Ordered(DrainPhase(cfg, o.err, o.reps))
  {
    OutOrdered(cfg, o);
    hide Scheduled, Ordered;
    OrdersAreStrictTotal();
    NamesDistinct(cfg.services);
    SlotsOrdered(cfg, o.err, Names(cfg.backends));
    UpdatesOrdered(cfg, o.reps, Slots(cfg, o.err, Names(cfg.backends)));
    PlacesOrdered(cfg, Kept(cfg, o.err, o.reps), Scheduled(cfg, o).out);
    ChangesOrdered(cfg, o.err, o.svcs, Names(cfg.services));
    DrainsOrdered(o.reps, Sorted(Extras(cfg, o.err, o.reps), IdLess));
  }

  // The service's uses have the first backend before the second.
  ghost predicate UsedBefore(uses: seq<string>, x: string, y: string) {
    exists p, q :: 0 <= p < q < |uses| && uses[p] == x && uses[q] == y
  }

  // In the order of the uses.
  ghost predicate InUseOrder(uses: seq<string>, r: seq<Action>) {
    && (forall a | a in r :: a.Rewire? && a.backend in uses)
    && forall i, j | 0 <= i < j < |r| :: r[i] in r && r[j] in r && UsedBefore(uses, r[i].backend, r[j].backend)
  }

  lemma {:induction false} UsesOrdered(cfg: Config, err: set<string>, name: string, host: string, uses: seq<string>,
                                       svcChanged: bool, changed: set<string>, out: seq<Placed>)
    ensures var r := UseRewires(cfg, err, name, host, uses, svcChanged, changed, out);
            InUseOrder(uses, r) && forall a | a in r :: a.Rewire? && a.service == name
  {
    if uses != [] {
      UsesOrdered(cfg, err, name, host, uses[1..], svcChanged, changed, out);
      var rest := UseRewires(cfg, err, name, host, uses[1..], svcChanged, changed, out);
      UseAdded(uses, Rewire(name, uses[0], host, HostsOf(Of(out, uses[0]))), rest);
    }
  }

  lemma UseAdded(uses: seq<string>, a: Action, rest: seq<Action>)
    requires uses != [] && InUseOrder(uses[1..], rest) && a.Rewire? && a.backend == uses[0]
    ensures InUseOrder(uses, rest) && InUseOrder(uses, [a] + rest)
  {
    hide UsedBefore;
    forall i, j | 0 <= i < j < |rest| ensures rest[i] in rest && rest[j] in rest && UsedBefore(uses, rest[i].backend, rest[j].backend) {
      UsedLater(uses, rest[i].backend, rest[j].backend);
    }
    forall j | 0 <= j < |rest| ensures UsedBefore(uses, a.backend, rest[j].backend) {
      assert rest[j] in rest;
      UsedFirst(uses, rest[j].backend);
    }
    var r := [a] + rest;
    assert forall x :: x in r <==> x == a || x in rest;
    forall i, j | 0 <= i < j < |r| ensures r[i] in r && r[j] in r && UsedBefore(uses, r[i].backend, r[j].backend) {
      assert r[j] == rest[j - 1] && (i > 0 ==> r[i] == rest[i - 1]);
    }
  }

  lemma UsedFirst(uses: seq<string>, y: string)
    requires uses != [] && y in uses[1..]
    ensures UsedBefore(uses, uses[0], y)
  {
    var q :| 0 <= q < |uses[1..]| && uses[1..][q] == y;
    assert uses[q + 1] == y;
  }

  lemma UsedLater(uses: seq<string>, x: string, y: string)
    requires uses != [] && UsedBefore(uses[1..], x, y)
    ensures UsedBefore(uses, x, y)
  {
    var p, q :| 0 <= p < q < |uses[1..]| && uses[1..][p] == x && uses[1..][q] == y;
    assert uses[p + 1] == x && uses[q + 1] == y;
  }

  ghost predicate RewireBefore(cfg: Config, a: Action, b: Action) {
    && a.Rewire? && b.Rewire? && a.service in cfg.services
    && (StringLess(a.service, b.service)
        || (a.service == b.service && UsedBefore(cfg.services[a.service].uses, a.backend, b.backend)))
  }

  ghost predicate InRewireOrder(cfg: Config, r: seq<Action>) {
    forall i, j | 0 <= i < j < |r| :: RewireBefore(cfg, r[i], r[j])
  }

  lemma {:induction false} RewiresOrdered(cfg: Config, err: set<string>, svcs: map<string, ObsService>, names: seq<string>,
                                          changed: set<string>, out: seq<Placed>)
    requires (forall n | n in names :: n in cfg.services) && Increasing(names, StringLess)
    ensures var r := Rewires(cfg, err, svcs, names, changed, out);
            InRewireOrder(cfg, r) && forall a | a in r :: a.Rewire? && a.service in names
  {
    if names != [] {
      RewiresOrdered(cfg, err, svcs, names[1..], changed, out);
      var s := cfg.services[names[0]];
      UsesOrdered(cfg, err, names[0], s.host, s.uses, ServiceChange(cfg, err, svcs, names[0]) != [], changed, out);
      var first, rest := ServiceRewires(cfg, err, svcs, names[0], changed, out), Rewires(cfg, err, svcs, names[1..], changed, out);
      hide UseRewires, ServiceChange, UsedBefore, StringLess;
      assert first == [] || forall a | a in first :: a.Rewire? && a.service == names[0];
      RewiresConcat(cfg, names, first, rest);
    }
  }

  lemma RewiresConcat(cfg: Config, names: seq<string>, first: seq<Action>, rest: seq<Action>)
    requires names != [] && Increasing(names, StringLess) && names[0] in cfg.services
    requires (forall a | a in first :: a.Rewire? && a.service == names[0]) && InUseOrder(cfg.services[names[0]].uses, first)
    requires (forall a | a in rest :: a.Rewire? && a.service in names[1..]) && InRewireOrder(cfg, rest)
    ensures InRewireOrder(cfg, first + rest)
  {
    hide UsedBefore, StringLess;
    forall a | a in rest ensures StringLess(names[0], a.service) {
      var k :| 0 <= k < |names[1..]| && names[1..][k] == a.service;
      assert names[k + 1] == a.service;
    }
    var r := first + rest;
    forall i, j | 0 <= i < j < |r| ensures RewireBefore(cfg, r[i], r[j]) {
      assert i < |first| ==> r[i] == first[i] && first[i] in first;
      assert i >= |first| ==> r[i] == rest[i - |first|];
      assert j < |first| ==> r[j] == first[j] && first[j] in first;
      assert j >= |first| ==> r[j] == rest[j - |first|] && rest[j - |first|] in rest;
    }
  }

  // Rewires come by service name and then in the order of its uses.
  lemma RewireOrdered(cfg: Config, o: Observed, plan: Plan)
    requires PlanOf(cfg, o) == Ok(plan)
    ensures InRewireOrder(cfg, plan.rewire)
  {
    NamesDistinct(cfg.services);
    var out := Scheduled(cfg, o).out;
    var replicas := UpdatePhase(cfg, o.err, o.reps) + PlacePhase(cfg, o.err, o.reps, out);
    NamesIncrease(cfg);
    hide InRewireOrder, Scheduled, UpdatePhase, PlacePhase, DrainPhase;
    RewiresOrdered(cfg, o.err, o.svcs, Names(cfg.services), Touched(replicas + plan.drain), out);
  }

  lemma NamesIncrease(cfg: Config)
    ensures Increasing(Names(cfg.services), StringLess) && Increasing(Names(cfg.backends), StringLess)
  {
    OrdersAreStrictTotal();
  }

  ghost predicate WarnedBefore(a: Warning, b: Warning) {
    if a.BackendUnplanned? then b.BackendUnplanned? ==> StringLess(a.backend, b.backend)
    else b.ServiceUnplanned? && StringLess(a.service, b.service)
  }

  ghost predicate WarnedInOrder(ws: seq<Warning>) {
    forall i, j | 0 <= i < j < |ws| :: WarnedBefore(ws[i], ws[j])
  }

  lemma WarnedConcat(a: seq<Warning>, b: seq<Warning>)
    requires WarnedInOrder(a) && WarnedInOrder(b) && forall x, y | x in a && y in b :: WarnedBefore(x, y)
    ensures WarnedInOrder(a + b)
  {
    hide WarnedBefore;
    var ab := a + b;
    forall i, j | 0 <= i < j < |ab| ensures WarnedBefore(ab[i], ab[j]) {
      assert i < |a| ==> ab[i] == a[i] && a[i] in a;
      assert i >= |a| ==> ab[i] == b[i - |a|];
      assert j < |a| ==> ab[j] == a[j];
      assert j >= |a| ==> ab[j] == b[j - |a|] && b[j - |a|] in b;
    }
  }

  lemma {:induction false} BackendsWarnedInOrder(cfg: Config, err: set<string>, names: seq<string>)
    requires Increasing(names, StringLess)
    ensures WarnedInOrder(BackendWarnings(cfg, err, names))
  {
    if names != [] {
      BackendsWarnedInOrder(cfg, err, names[1..]);
      BackendWarningsAre(cfg, err, names[1..]);
      var first := if Blocked(cfg, err, names[0]) then [BackendUnplanned(names[0])] else [];
      forall x, y | x in first && y in BackendWarnings(cfg, err, names[1..]) ensures WarnedBefore(x, y) {
        var k :| 0 <= k < |names[1..]| && names[1..][k] == y.backend;
        assert names[k + 1] == y.backend && StringLess(names[0], names[k + 1]);
      }
      WarnedConcat(first, BackendWarnings(cfg, err, names[1..]));
    }
  }

  lemma {:induction false} ServicesWarnedInOrder(cfg: Config, err: set<string>, names: seq<string>)
    requires (forall n | n in names :: n in cfg.services) && Increasing(names, StringLess)
    ensures WarnedInOrder(ServiceWarnings(cfg, err, names))
  {
    if names != [] {
      ServicesWarnedInOrder(cfg, err, names[1..]);
      ServiceWarningsAre(cfg, err, names[1..]);
      var host := cfg.services[names[0]].host;
      var first := if host in err then [ServiceUnplanned(names[0], host)] else [];
      forall x, y | x in first && y in ServiceWarnings(cfg, err, names[1..]) ensures WarnedBefore(x, y) {
        var k :| 0 <= k < |names[1..]| && names[1..][k] == y.service;
        assert names[k + 1] == y.service && StringLess(names[0], names[k + 1]);
      }
      WarnedConcat(first, ServiceWarnings(cfg, err, names[1..]));
    }
  }

  // Backends are warned of first, each kind by name and once.
  lemma WarningsOrdered(cfg: Config, o: Observed, plan: Plan)
    requires PlanOf(cfg, o) == Ok(plan)
    ensures WarnedInOrder(plan.warnings)
  {
    OrdersAreStrictTotal();
    NamesDistinct(cfg.services);
    BackendsWarnedInOrder(cfg, o.err, Names(cfg.backends));
    ServicesWarnedInOrder(cfg, o.err, Names(cfg.services));
    BackendWarningsAre(cfg, o.err, Names(cfg.backends));
    ServiceWarningsAre(cfg, o.err, Names(cfg.services));
    hide BackendWarnings, ServiceWarnings, WarnedInOrder, StringLess;
    WarnedConcat(BackendWarnings(cfg, o.err, Names(cfg.backends)), ServiceWarnings(cfg, o.err, Names(cfg.services)));
  }
}

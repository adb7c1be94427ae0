// Compute itself: the loops of fleet/plan/plan.go, against PlanOf.
module Compute {
  import opened Wrappers
  import opened Order
  import opened Fleet
  import opened Schedule
  import opened Packing
  import opened Packer
  import opened Plan
  import opened PlanFacts
  import Observe
  import Override

  method IsBlocked(cfg: Config, err: set<string>, name: string) returns (blocked: bool)
    requires name in cfg.backends
    ensures blocked <==> Blocked(cfg, err, name)
  {
    if !GpuScheduled(cfg.backends[name]) {
      return false;
    }
    var hosts := BackendHosts(cfg.backends[name]);
    for j := 0 to |hosts|
      invariant forall h | h in hosts[..j] :: h !in err
    {
      if hosts[j] in err {
        return true;
      }
    }
    return false;
  }

  method BlockedBackends(cfg: Config, err: set<string>, names: seq<string>)
    returns (blocked: set<string>, warnings: seq<Warning>)
    requires forall n :: n in names <==> n in cfg.backends
    ensures forall n :: n in blocked <==> Blocked(cfg, err, n)
    ensures warnings == BackendWarnings(cfg, err, names)
  {
    blocked, warnings := {}, [];
    assert names[0..] == names;
    for i := 0 to |names|
      invariant forall n :: n in blocked <==> n in names[..i] && Blocked(cfg, err, n)
      invariant BackendWarnings(cfg, err, names) == warnings + BackendWarnings(cfg, err, names[i..])
    {
      var name := names[i];
      assert name in names && names[i..][0] == name && names[i..][1..] == names[i + 1..];
      var b := IsBlocked(cfg, err, name);
      var w := if b then [BackendUnplanned(name)] else [];
      Assoc(warnings, w, BackendWarnings(cfg, err, names[i + 1..]));
      warnings := warnings + w;
      blocked := blocked + if b then {name} else {};
    }
  }

  lemma {:induction false} UpdatesConcat(cfg: Config, reps: map<Id, ObsReplica>, a: seq<Id>, b: seq<Id>)
    ensures Updates(cfg, reps, a + b) == Updates(cfg, reps, a) + Updates(cfg, reps, b)
  {
    if a == [] {
      assert a + b == b;
    } else {
      assert (a + b)[1..] == a[1..] + b;
      UpdatesConcat(cfg, reps, a[1..], b);
    }
  }

  lemma TouchedConcat(a: seq<Action>, b: seq<Action>)
    ensures Touched(a + b) == Touched(a) + Touched(b)
  {
  }

  // kept holds the observed replicas among those visited, where they are.
  ghost predicate KeptAmong(kept: map<Id, GpuRef>, reps: map<Id, ObsReplica>, visited: seq<Id>) {
    && (forall id :: id in kept <==> id in reps && id in visited)
    && (forall id | id in kept :: kept[id] == reps[id].ref)
  }

  method DiffReplica(cfg: Config, o: Observed, id: Id, kept: map<Id, GpuRef>, ghost visited: seq<Id>)
    returns (kept': map<Id, GpuRef>, updates: seq<Action>)
    requires id.backend in cfg.backends && KeptAmong(kept, o.reps, visited)
    ensures KeptAmong(kept', o.reps, visited + [id])
    ensures updates == Updates(cfg, o.reps, [id])
  {
    assert Updates(cfg, o.reps, [id]) == if id in o.reps then UpdateOf(cfg, id, o.reps[id]) else [];
    kept', updates := kept, [];
    if id in o.reps {
      var obs := o.reps[id];
      kept' := kept[id := obs.ref];
      if Stale(cfg, id, obs) {
        updates := [UpdateReplica(id.backend, id.replica, obs.ref.host, obs.ref.idx, cfg.backends[id.backend].imageTag, obs.tag)];
      }
    }
  }

  // One backend's observed replicas: kept as they are, updated where stale.
  method DiffBackend(cfg: Config, o: Observed, name: string, kept: map<Id, GpuRef>, ghost visited: seq<Id>)
    returns (kept': map<Id, GpuRef>, updates: seq<Action>, changed: bool)
    requires name in cfg.backends && KeptAmong(kept, o.reps, visited)
    ensures KeptAmong(kept', o.reps, visited + BackendSlots(name, cfg.backends[name]))
    ensures updates == Updates(cfg, o.reps, BackendSlots(name, cfg.backends[name]))
    ensures Touched(updates) == if changed then {name} else {}
  {
    kept', updates, changed := kept, [], false;
    ghost var ids := BackendSlots(name, cfg.backends[name]);
    var r := 0;
    assert visited + ids[..0] == visited;
    while r < cfg.backends[name].replicas
      invariant 0 <= r <= |ids|
      invariant updates == Updates(cfg, o.reps, ids[..r])
      invariant KeptAmong(kept', o.reps, visited + ids[..r])
      invariant changed <==> updates != []
    {
      var id := Id(name, r);
      assert ids[..r + 1] == ids[..r] + [id] && visited + ids[..r + 1] == visited + ids[..r] + [id];
      UpdatesConcat(cfg, o.reps, ids[..r], [id]);
      var more;
      kept', more := DiffReplica(cfg, o, id, kept', visited + ids[..r]);
      updates := updates + more;
      changed := changed || more != [];
      r := r + 1;
    }
    assert ids[..r] == ids;
    BackendTouched(cfg, o.reps, name, updates);
  }

  lemma SlotsFrom(cfg: Config, err: set<string>, names: seq<string>, i: nat)
    requires i < |names|
    ensures Planned(cfg, err, names[i]) ==>
              Slots(cfg, err, names[i..]) == BackendSlots(names[i], cfg.backends[names[i]]) + Slots(cfg, err, names[i + 1..])
    ensures !Planned(cfg, err, names[i]) ==> Slots(cfg, err, names[i..]) == Slots(cfg, err, names[i + 1..])
  {
    assert names[i..][0] == names[i] && names[i..][1..] == names[i + 1..];
    assert [] + Slots(cfg, err, names[i + 1..]) == Slots(cfg, err, names[i + 1..]);
  }

  lemma KeptComplete(cfg: Config, o: Observed, names: seq<string>, kept: map<Id, GpuRef>)
    requires forall n :: n in names <==> n in cfg.backends
    requires KeptAmong(kept, o.reps, Slots(cfg, o.err, names))
    ensures kept == Kept(cfg, o.err, o.reps)
  {
    forall id ensures id in Slots(cfg, o.err, names) <==> Wanted(cfg, o.err, id) {
      SlotsAreWanted(cfg, o.err, names, id);
    }
  }

  method DiffKept(cfg: Config, o: Observed, blocked: set<string>, names: seq<string>)
    returns (kept: map<Id, GpuRef>, updates: seq<Action>, changed: set<string>)
    requires forall n :: n in names <==> n in cfg.backends
    requires forall n :: n in blocked <==> Blocked(cfg, o.err, n)
    ensures kept == Kept(cfg, o.err, o.reps)
    ensures updates == Updates(cfg, o.reps, Slots(cfg, o.err, names))
    ensures changed == Touched(updates)
  {
    kept, updates, changed := map[], [], {};
    ghost var visited: seq<Id> := [];
    assert names[0..] == names;
    for i := 0 to |names|
      invariant Slots(cfg, o.err, names) == visited + Slots(cfg, o.err, names[i..])
      invariant KeptAmong(kept, o.reps, visited)
      invariant updates == Updates(cfg, o.reps, visited)
      invariant changed == Touched(updates)
    {
      var name := names[i];
      assert name in names;
      SlotsFrom(cfg, o.err, names, i);
      if name in blocked || !GpuScheduled(cfg.backends[name]) {
        continue;
      }
      ghost var front := BackendSlots(name, cfg.backends[name]);
      var more, touched;
      kept, more, touched := DiffBackend(cfg, o, name, kept, visited);
      TouchedConcat(updates, more);
      UpdatesConcat(cfg, o.reps, visited, front);
      Assoc(visited, front, Slots(cfg, o.err, names[i + 1..]));
      changed := changed + if touched then {name} else {};
      updates := updates + more;
      visited := visited + front;
    }
    assert visited == Slots(cfg, o.err, names);
    KeptComplete(cfg, o, names, kept);
  }

  lemma BackendTouched(cfg: Config, reps: map<Id, ObsReplica>, name: string, updates: seq<Action>)
    requires name in cfg.backends && updates == Updates(cfg, reps, BackendSlots(name, cfg.backends[name]))
    ensures Touched(updates) == if updates != [] then {name} else {}
  {
    UpdatesTargetIds(cfg, reps, BackendSlots(name, cfg.backends[name]));
    if updates != [] {
      assert updates[0] in updates;
    }
  }

  // ----- missing replicas

  lemma {:induction false} PlacesConcat(cfg: Config, kept: map<Id, GpuRef>, a: seq<Placed>, b: seq<Placed>)
    ensures Places(cfg, kept, a + b) == Places(cfg, kept, a) + Places(cfg, kept, b)
  {
    if a == [] {
      assert a + b == b;
    } else {
      assert (a + b)[1..] == a[1..] + b;
      PlacesConcat(cfg, kept, a[1..], b);
    }
  }

  // Walking all backends, planned or not, visits every placement once and in order.
  lemma RegroupAll(cfg: Config, o: Observed)
    requires Scheduled(cfg, o).Packed?
    ensures Regroup(Scheduled(cfg, o).out, Names(cfg.backends)) == Scheduled(cfg, o).out
    ensures forall n | n in cfg.backends && !Planned(cfg, o.err, n) :: Of(Scheduled(cfg, o).out, n) == []
  {
    var out, bs := Scheduled(cfg, o).out, SchedBackends(cfg, o.err);
    OutShape(cfg, o);
    PackedIsSized(cfg, o);
    NamesDistinct(bs);
    NamesDistinct(cfg.backends);
    GroupedByBackend(cfg.policy, bs, Names(bs), out);
    forall n | n in cfg.backends && !Planned(cfg, o.err, n) ensures Of(out, n) == [] {
      OfAllOrNone(out, n);
    }
    OrdersAreStrictTotal();
    RegroupSkips(out, Names(cfg.backends), bs.Keys);
    KeepsIncreasing(Names(cfg.backends), bs.Keys);
    SortedUnique(Keeping(Names(cfg.backends), bs.Keys), bs.Keys, StringLess);
  }

  function Keeping(names: seq<string>, s: set<string>): seq<string> {
    if names == [] then [] else (if names[0] in s then [names[0]] else []) + Keeping(names[1..], s)
  }

  lemma {:induction false} KeepsIncreasing(names: seq<string>, s: set<string>)
    requires Increasing(names, StringLess)
    ensures Increasing(Keeping(names, s), StringLess)
    ensures forall n :: n in Keeping(names, s) <==> n in names && n in s
  {
    if names != [] {
      KeepsIncreasing(names[1..], s);
      forall n | n in Keeping(names[1..], s) ensures StringLess(names[0], n) {
        var j :| 0 <= j < |names[1..]| && names[1..][j] == n;
        assert names[j + 1] == n;
      }
    }
  }

  lemma {:induction false} RegroupSkips(out: seq<Placed>, names: seq<string>, s: set<string>)
    requires forall n | n in names && n !in s :: Of(out, n) == []
    ensures Regroup(out, names) == Regroup(out, Keeping(names, s))
  {
    if names != [] {
      RegroupSkips(out, names[1..], s);
      if names[0] !in s {
        assert Of(out, names[0]) == [];
        assert Keeping(names, s) == Keeping(names[1..], s);
      }
    }
  }

  method PlaceBackendMissing(cfg: Config, name: string, kept: map<Id, GpuRef>, ps: seq<Placed>)
    returns (places: seq<Action>, changed: bool)
    requires name in cfg.backends && forall p | p in ps :: p.id.backend == name
    ensures places == Places(cfg, kept, ps)
    ensures Touched(places) == if changed then {name} else {}
  {
    places, changed := [], false;
    assert ps[0..] == ps;
    for j := 0 to |ps|
      invariant Places(cfg, kept, ps) == places + Places(cfg, kept, ps[j..])
      invariant changed <==> places != []
      invariant forall a | a in places :: a.PlaceReplica? && a.backend == name
    {
      assert ps[j..][0] == ps[j] && ps[j..][1..] == ps[j + 1..] && ps[j] in ps;
      ghost var rest := Places(cfg, kept, ps[j + 1..]);
      if ps[j].id in kept {
        assert [] + rest == rest;
        continue;
      }
      var a := PlaceReplica(name, ps[j].id.replica, ps[j].ref.host, ps[j].ref.idx, cfg.backends[name].imageTag);
      Assoc(places, [a], rest);
      places := places + [a];
      changed := true;
    }
    if changed {
      assert places[0] in places;
    }
  }

  method MissingOf(cfg: Config, err: set<string>, blocked: set<string>, kept: map<Id, GpuRef>,
                   placements: map<string, seq<Placed>>, name: string, ghost out: seq<Placed>)
    returns (places: seq<Action>, changed: set<string>)
    requires Get(placements, name) == Of(out, name)
    requires name in cfg.backends && (!Planned(cfg, err, name) ==> Of(out, name) == [])
    requires name in blocked <==> Blocked(cfg, err, name)
    ensures places == Places(cfg, kept, Of(out, name))
    ensures changed == Touched(places)
  {
    if name in blocked || !GpuScheduled(cfg.backends[name]) {
      return [], {};
    }
    OfAreOf(out, name);
    var touched;
    places, touched := PlaceBackendMissing(cfg, name, kept, Get(placements, name));
    changed := if touched then {name} else {};
  }

  method PlaceMissing(cfg: Config, err: set<string>, blocked: set<string>, kept: map<Id, GpuRef>,
                      placements: map<string, seq<Placed>>, names: seq<string>, ghost out: seq<Placed>)
    returns (places: seq<Action>, changed: set<string>)
    requires Holds(placements, out) && Regroup(out, names) == out
    requires forall n | n in names :: n in cfg.backends && (!Planned(cfg, err, n) ==> Of(out, n) == [])
    requires forall n :: n in blocked <==> Blocked(cfg, err, n)
    ensures places == Places(cfg, kept, out)
    ensures changed == Touched(places)
  {
    hide Places, Regroup, Of, Touched;
    places, changed := [], {};
    NothingPlaced(cfg, kept, out, names);
    for i := 0 to |names|
      invariant Places(cfg, kept, out) == places + Places(cfg, kept, Regroup(out, names[i..]))
      invariant changed == Touched(places)
    {
      assert names[i] in names && Get(placements, names[i]) == Of(out, names[i]);
      var more, touched := MissingOf(cfg, err, blocked, kept, placements, names[i], out);
      PlaceStep(cfg, kept, out, names, i, places, more);
      TouchedConcat(places, more);
      places, changed := places + more, changed + touched;
    }
    EverythingPlaced(cfg, kept, out, names, places);
  }

  lemma NothingPlaced(cfg: Config, kept: map<Id, GpuRef>, out: seq<Placed>, names: seq<string>)
    requires Regroup(out, names) == out
    ensures Places(cfg, kept, out) == [] + Places(cfg, kept, Regroup(out, names[0..])) && Touched([]) == {}
  {
    assert names[0..] == names && [] + Places(cfg, kept, out) == Places(cfg, kept, out);
  }

  lemma EverythingPlaced(cfg: Config, kept: map<Id, GpuRef>, out: seq<Placed>, names: seq<string>, places: seq<Action>)
    ensures places + Places(cfg, kept, Regroup(out, names[|names|..])) == places
  {
    assert names[|names|..] == [] && Regroup(out, []) == [];
  }

  lemma PlaceStep(cfg: Config, kept: map<Id, GpuRef>, out: seq<Placed>, names: seq<string>, i: nat,
                  places: seq<Action>, more: seq<Action>)
    requires i < |names| && more == Places(cfg, kept, Of(out, names[i]))
    ensures places + Places(cfg, kept, Regroup(out, names[i..])) == places + more + Places(cfg, kept, Regroup(out, names[i + 1..]))
  {
    assert names[i..][0] == names[i] && names[i..][1..] == names[i + 1..];
    PlacesConcat(cfg, kept, Of(out, names[i]), Regroup(out, names[i + 1..]));
    Assoc(places, more, Places(cfg, kept, Regroup(out, names[i + 1..])));
  }

  lemma {:induction false} OfAreOf(out: seq<Placed>, name: string)
    ensures forall p | p in Of(out, name) :: p.id.backend == name
  {
    if out != [] {
      OfAreOf(out[..|out| - 1], name);
    }
  }

  // ----- extra replicas

  // One backend's replicas at or beyond its desired count, in index order.
  method DrainBackend(cfg: Config, o: Observed, name: string, ghost ids: seq<Id>, drain: seq<Action>, changed: set<string>)
    returns (drain': seq<Action>, changed': set<string>, ghost ids': seq<Id>)
    requires Drained(cfg, o, ids, drain, changed) && forall id | id in ids :: StringLess(id.backend, name)
    ensures Drained(cfg, o, ids', drain', changed')
    ensures forall id :: id in ids' <==> id in ids || (id in o.reps && id.backend == name && id.replica >= Desired(cfg, name))
  {
    OrdersAreStrictTotal();
    drain', changed', ids' := drain, changed, ids;
    var desired := Desired(cfg, name);
    var replicas := set id | id in o.reps && id.backend == name :: id.replica;
    var rs := Sort(replicas, IntLess);
    for j := 0 to |rs|
      invariant Drained(cfg, o, ids', drain', changed')
      invariant forall id :: id in ids' <==> id in ids || (id.backend == name && id.replica in rs[..j] && id.replica >= desired)
    {
      var r := rs[j];
      var id := Id(name, r);
      assert r in rs && id in o.reps;
      if r >= desired {
        DrainOne(cfg, o, ids', drain', changed', id);
        ids' := ids' + [id];
        drain' := drain' + [RemoveReplica(name, r, o.reps[id].ref.host, o.reps[id].ref.idx)];
        changed' := changed' + {name};
      }
    }
    assert rs[..|rs|] == rs;
    forall id | id in o.reps && id.backend == name ensures id.replica in rs {
      assert id.replica in replicas;
    }
  }

  method DrainExtras(cfg: Config, o: Observed, blocked: set<string>) returns (drain: seq<Action>, changed: set<string>)
    requires forall n :: n in blocked <==> Blocked(cfg, o.err, n)
    ensures drain == DrainPhase(cfg, o.err, o.reps)
    ensures changed == Touched(drain)
  {
    hide Drained, DrainPhase, Touched, ExtrasOf;
    OrdersAreStrictTotal();
    drain, changed := [], {};
    ghost var ids: seq<Id> := [];
    NothingDrained(cfg, o);
    var backends := set id | id in o.reps :: id.backend;
    var names := Sort(backends, StringLess);
    for i := 0 to |names|
      invariant Drained(cfg, o, ids, drain, changed)
      invariant ExtrasOf(cfg, o, ids, names[..i])
    {
      ExtrasFrom(cfg, o, ids, names, i);
      ghost var before := ids;
      if names[i] !in blocked {
        drain, changed, ids := DrainBackend(cfg, o, names[i], ids, drain, changed);
      }
      ExtrasNext(cfg, o, before, names, i, ids);
    }
    assert names[..|names|] == names;
    forall id | id in o.reps ensures id.backend in names {
      assert id.backend in backends;
    }
    EverythingDrained(cfg, o, ids, names, drain, changed);
  }

  // The extra replicas of these backends.
  ghost predicate ExtrasOf(cfg: Config, o: Observed, ids: seq<Id>, names: seq<string>) {
    forall id :: id in ids <==> id in Extras(cfg, o.err, o.reps) && id.backend in names
  }

  lemma ExtrasFrom(cfg: Config, o: Observed, ids: seq<Id>, names: seq<string>, i: nat)
    requires i < |names| && Increasing(names, StringLess) && ExtrasOf(cfg, o, ids, names[..i])
    ensures forall id | id in ids :: StringLess(id.backend, names[i])
  {
  }

  lemma ExtrasNext(cfg: Config, o: Observed, ids: seq<Id>, names: seq<string>, i: nat, ids': seq<Id>)
    requires i < |names| && ExtrasOf(cfg, o, ids, names[..i])
    requires if Blocked(cfg, o.err, names[i]) then ids' == ids
             else forall id :: id in ids' <==>
                    (id in ids || (id in o.reps && id.backend == names[i] && id.replica >= Desired(cfg, names[i])))
    ensures ExtrasOf(cfg, o, ids', names[..i + 1])
  {
    assert names[..i + 1] == names[..i] + [names[i]];
  }

  lemma NothingDrained(cfg: Config, o: Observed)
    ensures Drained(cfg, o, [], [], {}) && ExtrasOf(cfg, o, [], [])
  {
  }

  lemma EverythingDrained(cfg: Config, o: Observed, ids: seq<Id>, names: seq<string>, drain: seq<Action>, changed: set<string>)
    requires Drained(cfg, o, ids, drain, changed) && ExtrasOf(cfg, o, ids, names)
    requires forall id | id in o.reps :: id.backend in names
    ensures drain == DrainPhase(cfg, o.err, o.reps) && changed == Touched(drain)
  {
    OrdersAreStrictTotal();
    SortedUnique(ids, Extras(cfg, o.err, o.reps), IdLess);
  }

  ghost predicate Drained(cfg: Config, o: Observed, ids: seq<Id>, drain: seq<Action>, changed: set<string>) {
    && (forall id | id in ids :: id in o.reps)
    && Increasing(ids, IdLess)
    && drain == Drains(o.reps, ids)
    && changed == Touched(drain)
  }

  lemma {:induction false} DrainsConcat(reps: map<Id, ObsReplica>, a: seq<Id>, b: seq<Id>)
    requires forall id | id in a + b :: id in reps
    ensures Drains(reps, a + b) == Drains(reps, a) + Drains(reps, b)
  {
    if a == [] {
      assert a + b == b;
    } else {
      assert (a + b)[1..] == a[1..] + b;
      DrainsConcat(reps, a[1..], b);
    }
  }

  lemma DrainOne(cfg: Config, o: Observed, ids: seq<Id>, drain: seq<Action>, changed: set<string>, id: Id)
    requires Drained(cfg, o, ids, drain, changed) && id in o.reps
    requires forall x | x in ids :: IdLess(x, id)
    ensures Drained(cfg, o, ids + [id],
                    drain + [RemoveReplica(id.backend, id.replica, o.reps[id].ref.host, o.reps[id].ref.idx)],
                    changed + {id.backend})
  {
    var a := RemoveReplica(id.backend, id.replica, o.reps[id].ref.host, o.reps[id].ref.idx);
    DrainsConcat(o.reps, ids, [id]);
    assert Drains(o.reps, [id]) == [a];
    TouchedConcat(drain, [a]);
  }

  // ----- services

  // The rewires of one service, over its uses.
  method RewireUses(cfg: Config, err: set<string>, blocked: set<string>, name: string, svcChanged: bool,
                    changed: set<string>, placements: map<string, seq<Placed>>, ghost out: seq<Placed>)
    returns (rewires: seq<Action>)
    requires name in cfg.services && Holds(placements, out)
    requires forall n :: n in blocked <==> Blocked(cfg, err, n)
    ensures rewires == UseRewires(cfg, err, name, cfg.services[name].host, cfg.services[name].uses, svcChanged, changed, out)
  {
    rewires := [];
    var s := cfg.services[name];
    assert s.uses[0..] == s.uses;
    for i := 0 to |s.uses|
      invariant UseRewires(cfg, err, name, s.host, s.uses, svcChanged, changed, out)
             == rewires + UseRewires(cfg, err, name, s.host, s.uses[i..], svcChanged, changed, out)
    {
      var u := s.uses[i];
      UsesFrom(cfg, err, name, s.host, s.uses, svcChanged, changed, out, i);
      if u in blocked {
        continue;
      }
      if svcChanged || u in changed {
        assert Get(placements, u) == Of(out, u);
        var a := Rewire(name, u, s.host, HostsOf(Get(placements, u)));
        Assoc(rewires, [a], UseRewires(cfg, err, name, s.host, s.uses[i + 1..], svcChanged, changed, out));
        rewires := rewires + [a];
      }
    }
  }

  lemma UsesFrom(cfg: Config, err: set<string>, name: string, host: string, uses: seq<string>, svcChanged: bool,
                 changed: set<string>, out: seq<Placed>, i: nat)
    requires i < |uses|
    ensures var rest := UseRewires(cfg, err, name, host, uses[i + 1..], svcChanged, changed, out);
            UseRewires(cfg, err, name, host, uses[i..], svcChanged, changed, out)
            == if !Blocked(cfg, err, uses[i]) && (svcChanged || uses[i] in changed)
               then [Rewire(name, uses[i], host, HostsOf(Of(out, uses[i])))] + rest
               else rest
  {
    assert uses[i..][0] == uses[i] && uses[i..][1..] == uses[i + 1..];
  }

  method PlanService(cfg: Config, o: Observed, blocked: set<string>, name: string, changed: set<string>,
                     placements: map<string, seq<Placed>>, ghost out: seq<Placed>)
    returns (converge: seq<Action>, rewires: seq<Action>, warnings: seq<Warning>)
    requires name in cfg.services && Holds(placements, out)
    requires forall n :: n in blocked <==> Blocked(cfg, o.err, n)
    ensures converge == ServiceChange(cfg, o.err, o.svcs, name)
    ensures rewires == ServiceRewires(cfg, o.err, o.svcs, name, changed, out)
    ensures warnings == if cfg.services[name].host in o.err then [ServiceUnplanned(name, cfg.services[name].host)] else []
  {
    converge, rewires, warnings := [], [], [];
    var s := cfg.services[name];
    if s.host in o.err {
      warnings := [ServiceUnplanned(name, s.host)];
      return;
    }
    var svcChanged := false;
    if name !in o.svcs {
      converge := [DeployService(name, s.host, s.imageTag)];
      svcChanged := true;
    } else {
      var cur := o.svcs[name];
      if cur.tag != s.imageTag
         || (cur.hash != "" && cur.hash != Override.ServiceHash(cfg.compose, s.service, name, s.imageTag)) {
        converge := [UpdateService(name, s.host, s.imageTag, cur.tag)];
        svcChanged := true;
      }
    }
    rewires := RewireUses(cfg, o.err, blocked, name, svcChanged, changed, placements, out);
  }

  lemma ServicesFrom(cfg: Config, o: Observed, names: seq<string>, changed: set<string>, out: seq<Placed>, i: nat)
    requires i < |names| && forall n | n in names :: n in cfg.services
    ensures forall n | n in names[i..] || n in names[i + 1..] :: n in cfg.services
    ensures ServiceChanges(cfg, o.err, o.svcs, names[i..])
         == ServiceChange(cfg, o.err, o.svcs, names[i]) + ServiceChanges(cfg, o.err, o.svcs, names[i + 1..])
    ensures Rewires(cfg, o.err, o.svcs, names[i..], changed, out)
         == ServiceRewires(cfg, o.err, o.svcs, names[i], changed, out) + Rewires(cfg, o.err, o.svcs, names[i + 1..], changed, out)
    ensures ServiceWarnings(cfg, o.err, names[i..])
         == (if cfg.services[names[i]].host in o.err then [ServiceUnplanned(names[i], cfg.services[names[i]].host)] else [])
            + ServiceWarnings(cfg, o.err, names[i + 1..])
  {
    assert names[i] in names && names[i..][0] == names[i] && names[i..][1..] == names[i + 1..];
  }

  lemma NoServicesLeft(cfg: Config, o: Observed, changed: set<string>, out: seq<Placed>)
    ensures ServiceChanges(cfg, o.err, o.svcs, []) == [] && Rewires(cfg, o.err, o.svcs, [], changed, out) == []
    ensures ServiceWarnings(cfg, o.err, []) == []
  {
  }

  method PlanServices(cfg: Config, o: Observed, blocked: set<string>, names: seq<string>, changed: set<string>,
                      placements: map<string, seq<Placed>>, ghost out: seq<Placed>)
    returns (converge: seq<Action>, rewires: seq<Action>, warnings: seq<Warning>)
    requires (forall n | n in names :: n in cfg.services) && Holds(placements, out)
    requires forall n :: n in blocked <==> Blocked(cfg, o.err, n)
    ensures converge == ServiceChanges(cfg, o.err, o.svcs, names)
    ensures rewires == Rewires(cfg, o.err, o.svcs, names, changed, out)
    ensures warnings == ServiceWarnings(cfg, o.err, names)
  {
    hide ServiceChanges, Rewires, ServiceWarnings, ServiceChange, ServiceRewires, Holds, Blocked;
    converge, rewires, warnings := [], [], [];
    assert names[0..] == names;
    for i := 0 to |names|
      invariant forall n | n in names[i..] :: n in cfg.services
      invariant ServiceChanges(cfg, o.err, o.svcs, names) == converge + ServiceChanges(cfg, o.err, o.svcs, names[i..])
      invariant Rewires(cfg, o.err, o.svcs, names, changed, out) == rewires + Rewires(cfg, o.err, o.svcs, names[i..], changed, out)
      invariant ServiceWarnings(cfg, o.err, names) == warnings + ServiceWarnings(cfg, o.err, names[i..])
    {
      assert names[i] in names;
      var c, r, w := PlanService(cfg, o, blocked, names[i], changed, placements, out);
      ServicesFrom(cfg, o, names, changed, out, i);
      Assoc(converge, c, ServiceChanges(cfg, o.err, o.svcs, names[i + 1..]));
      Assoc(rewires, r, Rewires(cfg, o.err, o.svcs, names[i + 1..], changed, out));
      Assoc(warnings, w, ServiceWarnings(cfg, o.err, names[i + 1..]));
      converge, rewires, warnings := converge + c, rewires + r, warnings + w;
    }
    assert names[|names|..] == [];
    NoServicesLeft(cfg, o, changed, out);
  }

  // ----- the planner

  lemma SchedulerInput(cfg: Config, o: Observed, sched: map<string, Backend>)
    requires forall n :: n in sched <==> n in cfg.backends && !Blocked(cfg, o.err, n)
    requires forall n | n in sched :: sched[n] == cfg.backends[n]
    ensures PlanDeltaSpec(cfg.policy, sched, o.free, Kept(cfg, o.err, o.reps)) == Scheduled(cfg, o)
  {
    assert sched == SchedBackends(cfg, o.err);
  }

  lemma PlanAssembled(cfg: Config, o: Observed, changed: set<string>)
    requires Scheduled(cfg, o).Packed?
    requires var u, p := UpdatePhase(cfg, o.err, o.reps), PlacePhase(cfg, o.err, o.reps, Scheduled(cfg, o).out);
             changed == Touched(u) + Touched(p) + Touched(DrainPhase(cfg, o.err, o.reps))
    ensures var out, services := Scheduled(cfg, o).out, Names(cfg.services);
            var u, p := UpdatePhase(cfg, o.err, o.reps), PlacePhase(cfg, o.err, o.reps, out);
            PlanOf(cfg, o) == Ok(Plan(u + p + ServiceChanges(cfg, o.err, o.svcs, services),
                                      Rewires(cfg, o.err, o.svcs, services, changed, out),
                                      DrainPhase(cfg, o.err, o.reps),
                                      BackendWarnings(cfg, o.err, Names(cfg.backends)) + ServiceWarnings(cfg, o.err, services)))
  {
    hide Touched;
    var u, p := UpdatePhase(cfg, o.err, o.reps), PlacePhase(cfg, o.err, o.reps, Scheduled(cfg, o).out);
    TouchedConcat(u, p);
    TouchedConcat(u + p, DrainPhase(cfg, o.err, o.reps));
  }

  method Compute(cfg: Config, hosts: seq<HostState>) returns (plan: Result<Plan, PackError>)
    ensures plan == PlanOf(cfg, Observe.Indexed(hosts))
  {
    hide Places, Touched, Rewires, ServiceChanges, ServiceWarnings, BackendWarnings, Updates, Slots, Pack, DrainPhase;
    hide Kept, Blocked, PlanDeltaSpec, Holds, Regroup, Planned;
    OrdersAreStrictTotal();
    var o := Observe.Index(hosts);
    var names := Sort(cfg.backends.Keys, StringLess);
    NamesDistinct(cfg.backends);
    var blocked, warnings := BlockedBackends(cfg, o.err, names);
    var kept, updates, updated := DiffKept(cfg, o, blocked, names);
    var sched := map n | n in cfg.backends && n !in blocked :: cfg.backends[n];
    SchedulerInput(cfg, o, sched);
    var placements := PlanDelta(cfg.policy, sched, o.free, kept);
    if placements.Err? {
      return Err(placements.error);
    }
    ghost var out := Scheduled(cfg, o).out;
    RegroupAll(cfg, o);
    var places, placed := PlaceMissing(cfg, o.err, blocked, kept, placements.value, names, out);
    var drain, drained := DrainExtras(cfg, o, blocked);
    var changed := updated + placed + drained;
    var services := Sort(cfg.services.Keys, StringLess);
    NamesDistinct(cfg.services);
    var converge, rewire, unplanned := PlanServices(cfg, o, blocked, services, changed, placements.value, out);
    PlanAssembled(cfg, o, changed);
    return Ok(Plan(updates + places + converge, rewire, drain, warnings + unplanned));
  }
}

// Idempotent resumption: planning again after any prefix of a plan was carried out
// gives exactly the rest of that plan.
module Resume {
  import opened Wrappers
  import opened Order
  import opened Fleet
  import opened Schedule
  import opened Packing
  import opened Packer
  import opened Plan
  import opened PlanFacts
  import opened World

  // ----- updates

  lemma {:induction false} UpdatesAgree(cfg: Config, reps: map<Id, ObsReplica>, ids: seq<Id>, id: Id, r: ObsReplica)
    requires id !in ids || (id !in reps && id.backend in cfg.backends && !Stale(cfg, id, r))
    ensures Updates(cfg, reps[id := r], ids) == Updates(cfg, reps, ids)
  {
    if ids != [] {
      UpdatesAgree(cfg, reps, ids[1..], id, r);
    }
  }

  lemma {:induction false} UpdateDone(cfg: Config, reps: map<Id, ObsReplica>, ids: seq<Id>, id: Id, r: ObsReplica)
    requires NoDup(ids) && id.backend in cfg.backends && !Stale(cfg, id, r)
    requires Updates(cfg, reps, ids) != []
    requires Updates(cfg, reps, ids)[0].OnReplica() && Updates(cfg, reps, ids)[0].Target() == id
    ensures Updates(cfg, reps[id := r], ids) == Updates(cfg, reps, ids)[1..]
  {
    if ids[0] in reps && UpdateOf(cfg, ids[0], reps[ids[0]]) != [] {
      UpdatesAgree(cfg, reps, ids[1..], id, r);
    } else {
      UpdatesTargetIds(cfg, reps, ids[1..]);
      assert Updates(cfg, reps, ids[1..])[0] in Updates(cfg, reps, ids[1..]);
      UpdateDone(cfg, reps, ids[1..], id, r);
    }
  }

  // ----- drains

  lemma {:induction false} DrainsAgree(reps: map<Id, ObsReplica>, reps': map<Id, ObsReplica>, ids: seq<Id>)
    requires forall id | id in ids :: id in reps && id in reps' && reps[id] == reps'[id]
    ensures Drains(reps, ids) == Drains(reps', ids)
  {
    if ids != [] {
      DrainsAgree(reps, reps', ids[1..]);
    }
  }

  // Replicas that are not extra can come and change without changing the drains.
  lemma DrainPhaseAgrees(cfg: Config, err: set<string>, reps: map<Id, ObsReplica>, id: Id, r: ObsReplica)
    requires Wanted(cfg, err, id)
    ensures DrainPhase(cfg, err, reps[id := r]) == DrainPhase(cfg, err, reps)
  {
    OrdersAreStrictTotal();
    assert Extras(cfg, err, reps[id := r]) == Extras(cfg, err, reps);
    DrainsAgree(reps, reps[id := r], Sorted(Extras(cfg, err, reps), IdLess));
  }

  lemma DrainDone(cfg: Config, err: set<string>, reps: map<Id, ObsReplica>)
    requires DrainPhase(cfg, err, reps) != []
    ensures var a := DrainPhase(cfg, err, reps)[0];
            && a.RemoveReplica? && Extra(cfg, err, a.Target())
            && DrainPhase(cfg, err, reps - {a.Target()}) == DrainPhase(cfg, err, reps)[1..]
  {
    OrdersAreStrictTotal();
    var extras := Extras(cfg, err, reps);
    var q := Sorted(extras, IdLess);
    assert q[0] in extras;
    var id := DrainPhase(cfg, err, reps)[0].Target();
    assert Extras(cfg, err, reps - {id}) == extras - {id};
    assert q[1..] == Sorted(extras - {id}, IdLess);
    DrainsAgree(reps, reps - {id}, q[1..]);
  }

  // ----- places

  lemma {:induction false} PlacesAgree(cfg: Config, kept: map<Id, GpuRef>, out: seq<Placed>, id: Id, ref: GpuRef)
    requires forall p | p in out :: p.id != id
    ensures Places(cfg, kept[id := ref], out) == Places(cfg, kept, out)
  {
    if out != [] {
      PlacesAgree(cfg, kept, out[1..], id, ref);
    }
  }

  // The first placement: where it stands in the run, and what is left once it is kept.
  lemma {:induction false} PlaceDone(cfg: Config, kept: map<Id, GpuRef>, out: seq<Placed>) returns (i: nat)
    requires Places(cfg, kept, out) != []
    requires forall i, j | 0 <= i < j < |out| :: out[i].id != out[j].id
    ensures i < |out| && out[i].id !in kept && Places(cfg, kept, out)[0] == PlaceOf(cfg, out[i])
    ensures forall j | 0 <= j < i :: out[j].id in kept
    ensures Places(cfg, kept[out[i].id := out[i].ref], out) == Places(cfg, kept, out)[1..]
  {
    if out[0].id !in kept {
      i := 0;
      PlacesAgree(cfg, kept, out[1..], out[0].id, out[0].ref);
    } else {
      var k := PlaceDone(cfg, kept, out[1..]);
      i := k + 1;
    }
  }

  lemma {:induction false} NoPlaces(cfg: Config, kept: map<Id, GpuRef>, out: seq<Placed>)
    ensures Places(cfg, kept, out) == [] <==> forall p | p in out :: p.id in kept
  {
    if out != [] {
      NoPlaces(cfg, kept, out[1..]);
    }
  }

  // ----- one action

  // The part of a plan that resumption is about: where every replica ends up, and
  // the actions still to do.
  ghost predicate Continues(cfg: Config, o: Observed, out: seq<Placed>,
                            updates: seq<Action>, places: seq<Action>, services: seq<Action>, drain: seq<Action>)
  {
    && Scheduled(cfg, o).Packed?
    && Scheduled(cfg, o).out == out
    && UpdatePhase(cfg, o.err, o.reps) == updates
    && PlacePhase(cfg, o.err, o.reps, out) == places
    && ServicePhase(cfg, o.err, o.svcs) == services
    && DrainPhase(cfg, o.err, o.reps) == drain
  }

  lemma PlanParts(cfg: Config, o: Observed, plan: Plan)
    requires PlanOf(cfg, o) == Ok(plan)
    ensures Scheduled(cfg, o).Packed?
    ensures var out := Scheduled(cfg, o).out;
            var u, p, s := UpdatePhase(cfg, o.err, o.reps), PlacePhase(cfg, o.err, o.reps, out), ServicePhase(cfg, o.err, o.svcs);
            plan.converge == u + p + s && Continues(cfg, o, out, u, p, s, plan.drain)
  {
  }

  lemma UpdatedReplica(cfg: Config, err: set<string>, reps: map<Id, ObsReplica>) returns (id: Id, r: ObsReplica)
    requires UpdatePhase(cfg, err, reps) != [] && Admitted(cfg, UpdatePhase(cfg, err, reps)[0])
    ensures var a := UpdatePhase(cfg, err, reps)[0];
            && a.UpdateReplica? && id == Id(a.backend, a.replica) && id in reps && Wanted(cfg, err, id)
            && r == Stamp(cfg, id, GpuRef(a.host, a.gpu), a.tag) && r.ref == reps[id].ref
            && UpdatePhase(cfg, err, reps[id := r]) == UpdatePhase(cfg, err, reps)[1..]
  {
    var names := Names(cfg.backends);
    var ids := Slots(cfg, err, names);
    NamesDistinct(cfg.backends);
    SlotsDistinct(cfg, err, names);
    UpdatesTargetIds(cfg, reps, ids);
    var a := UpdatePhase(cfg, err, reps)[0];
    assert a in Updates(cfg, reps, ids);
    id := a.Target();
    SlotsAreWanted(cfg, err, names, id);
    r := Stamp(cfg, id, reps[id].ref, a.tag);
    StampIsFresh(cfg, id, reps[id].ref);
    UpdateDone(cfg, reps, ids, id, r);
  }

  lemma AfterUpdate(cfg: Config, o: Observed, out: seq<Placed>,
                    updates: seq<Action>, places: seq<Action>, services: seq<Action>, drain: seq<Action>)
    requires Continues(cfg, o, out, updates, places, services, drain)
    requires updates != [] && Admitted(cfg, updates[0])
    ensures Continues(cfg, Effect(cfg, o, updates[0]), out, updates[1..], places, services, drain)
  {
    hide UpdatePhase, ServicePhase, DrainPhase, Places, Pack;
    var id, r := UpdatedReplica(cfg, o.err, o.reps);
    var o' := Effect(cfg, o, updates[0]);
    assert o'.reps == o.reps[id := r];
    KeptGrows(cfg, o.err, o.reps, id, r);
    assert Kept(cfg, o.err, o'.reps) == Kept(cfg, o.err, o.reps);
    assert Scheduled(cfg, o') == Scheduled(cfg, o);
    DrainPhaseAgrees(cfg, o.err, o.reps, id, r);
  }

  lemma OutDistinct(cfg: Config, o: Observed)
    requires cfg.Valid() && Scheduled(cfg, o).Packed?
    ensures var out, ds := Scheduled(cfg, o).out, AllDemands(cfg.policy, SchedBackends(cfg, o.err));
            && |out| == |ds|
            && (forall i, j | 0 <= i < j < |out| :: out[i].id != out[j].id)
            && (forall i | 0 <= i < |out| ::
                  && Answers(ds[i], Kept(cfg, o.err, o.reps), o.free, out[i])
                  && Wanted(cfg, o.err, out[i].id) && ds[i].need == NeedAt(cfg, out[i].id.backend))
  {
    var ds := AllDemands(cfg.policy, SchedBackends(cfg, o.err));
    var kept := Kept(cfg, o.err, o.reps);
    PackCovers(ds, kept, Ledger(o.free, Held(kept)));
    DemandsAreWanted(cfg, o.err);
    forall i | 0 <= i < |ds| ensures Wanted(cfg, o.err, ds[i].id) && ds[i].need == NeedAt(cfg, ds[i].id.backend) {
      assert Answers(ds[i], kept, o.free, Scheduled(cfg, o).out[i]) && ds[i] in ds;
    }
  }

  // The first placement goes to a wanted replica that is not there.
  lemma FirstPlacement(cfg: Config, o: Observed) returns (i: nat)
    requires cfg.Valid() && Scheduled(cfg, o).Packed?
    requires PlacePhase(cfg, o.err, o.reps, Scheduled(cfg, o).out) != []
    ensures var kept, out := Kept(cfg, o.err, o.reps), Scheduled(cfg, o).out;
            && i < |out| && Wanted(cfg, o.err, out[i].id) && out[i].id !in o.reps
            && (forall j | 0 <= j < i :: out[j].id in kept)
            && Places(cfg, kept, out)[0] == PlaceOf(cfg, out[i])
            && Places(cfg, kept[out[i].id := out[i].ref], out) == Places(cfg, kept, out)[1..]
  {
    OutDistinct(cfg, o);
    i := PlaceDone(cfg, Kept(cfg, o.err, o.reps), Scheduled(cfg, o).out);
  }

  // With it kept and its memory gone, the packer's whole result is what it was.
  lemma RescheduleAfter(cfg: Config, o: Observed, i: nat)
    requires cfg.Valid() && Scheduled(cfg, o).Packed? && i < |Scheduled(cfg, o).out|
    requires var kept, out := Kept(cfg, o.err, o.reps), Scheduled(cfg, o).out;
             out[i].id !in kept && forall j | 0 <= j < i :: out[j].id in kept
    ensures var kept, p := Kept(cfg, o.err, o.reps), Scheduled(cfg, o).out[i];
            PlanDeltaSpec(cfg.policy, SchedBackends(cfg, o.err), Charged(o.free, p.ref, NeedAt(cfg, p.id.backend)),
                          kept[p.id := p.ref]) == Scheduled(cfg, o)
  {
    hide Pack, AllDemands, SchedBackends, Kept, Blocked;
    var ds := AllDemands(cfg.policy, SchedBackends(cfg, o.err));
    var kept, out := Kept(cfg, o.err, o.reps), Scheduled(cfg, o).out;
    var p := out[i];
    OutDistinct(cfg, o);
    DemandsAreWanted(cfg, o.err);
    HeldGrows(kept, p.id, p.ref);
    forall j | 0 <= j <= i ensures ds[j].id == out[j].id {
      assert Answers(ds[j], kept, o.free, out[j]);
    }
    var l := Ledger(o.free, Held(kept));
    PackResumes(ds, kept, l, i);
    assert Reserve(l, p.ref, p.id.backend, ds[i].need)
        == Ledger(Charged(o.free, p.ref, NeedAt(cfg, p.id.backend)), Held(kept[p.id := p.ref]));
  }

  lemma PlacedReplica(cfg: Config, o: Observed) returns (p: Placed)
    requires cfg.Valid() && Scheduled(cfg, o).Packed?
    requires PlacePhase(cfg, o.err, o.reps, Scheduled(cfg, o).out) != []
    ensures var kept, out := Kept(cfg, o.err, o.reps), Scheduled(cfg, o).out;
            && PlacePhase(cfg, o.err, o.reps, out)[0] == PlaceOf(cfg, p)
            && Wanted(cfg, o.err, p.id) && p.id !in o.reps
            && Places(cfg, kept[p.id := p.ref], out) == PlacePhase(cfg, o.err, o.reps, out)[1..]
            && PlanDeltaSpec(cfg.policy, SchedBackends(cfg, o.err), Charged(o.free, p.ref, NeedAt(cfg, p.id.backend)),
                             kept[p.id := p.ref]) == Scheduled(cfg, o)
  {
    var i := FirstPlacement(cfg, o);
    p := Scheduled(cfg, o).out[i];
    RescheduleAfter(cfg, o, i);
  }

  lemma KeptGrows(cfg: Config, err: set<string>, reps: map<Id, ObsReplica>, id: Id, r: ObsReplica)
    requires Wanted(cfg, err, id)
    ensures Kept(cfg, err, reps[id := r]) == Kept(cfg, err, reps)[id := r.ref]
  {
  }

  lemma AfterPlace(cfg: Config, o: Observed, out: seq<Placed>, places: seq<Action>, services: seq<Action>, drain: seq<Action>)
    requires cfg.Valid() && Continues(cfg, o, out, [], places, services, drain)
    requires places != [] && Admitted(cfg, places[0])
    ensures Continues(cfg, Effect(cfg, o, places[0]), out, [], places[1..], services, drain)
  {
    var p := PlacedReplica(cfg, o);
    var o' := Effect(cfg, o, places[0]);
    var r := Stamp(cfg, p.id, p.ref, ImageTag(cfg, p.id.backend));
    assert o' == o.(reps := o.reps[p.id := r], free := Charged(o.free, p.ref, NeedAt(cfg, p.id.backend)));
    KeptGrows(cfg, o.err, o.reps, p.id, r);
    StampIsFresh(cfg, p.id, p.ref);
    UpdatesAgree(cfg, o.reps, Slots(cfg, o.err, Names(cfg.backends)), p.id, r);
    DrainPhaseAgrees(cfg, o.err, o.reps, p.id, r);
  }

  lemma HeldGrows(kept: map<Id, GpuRef>, id: Id, ref: GpuRef)
    requires id !in kept
    ensures Held(kept[id := ref]) == Held(kept) + {Slot(ref, id.backend)}
  {
    var kept' := kept[id := ref];
    forall s | s in Held(kept) + {Slot(ref, id.backend)} ensures s in Held(kept') {
      if s in Held(kept) {
        var k :| k in kept && s == Slot(kept[k], k.backend);
        assert k in kept' && kept'[k] == kept[k];
      } else {
        assert id in kept' && kept'[id] == ref;
      }
    }
  }

  // Once nothing is missing the packer no longer looks at the memory.
  lemma EverythingKept(cfg: Config, o: Observed, free: map<GpuRef, int>)
    requires cfg.Valid() && Scheduled(cfg, o).Packed?
    requires PlacePhase(cfg, o.err, o.reps, Scheduled(cfg, o).out) == []
    ensures Scheduled(cfg, o.(free := free)).Packed? && Scheduled(cfg, o.(free := free)).out == Scheduled(cfg, o).out
  {
    var ds := AllDemands(cfg.policy, SchedBackends(cfg, o.err));
    var kept, out := Kept(cfg, o.err, o.reps), Scheduled(cfg, o).out;
    OutDistinct(cfg, o);
    NoPlaces(cfg, kept, out);
    forall d | d in ds ensures d.id in kept && !d.spot.Unsized? {
      var i :| 0 <= i < |ds| && ds[i] == d;
      assert out[i] in out && Answers(d, kept, o.free, out[i]);
    }
    PackEchoes(ds, kept, Ledger(o.free, Held(kept)));
    PackEchoes(ds, kept, Ledger(free, Held(kept)));
  }

  lemma AfterRemove(cfg: Config, o: Observed, out: seq<Placed>, s: seq<Action>, drain: seq<Action>)
    requires cfg.Valid() && Continues(cfg, o, out, [], [], s, drain) && drain != []
    ensures Admitted(cfg, drain[0]) && Continues(cfg, Effect(cfg, o, drain[0]), out, [], [], s, drain[1..])
  {
    hide DrainPhase, UpdatePhase, PlanDeltaSpec, Kept, Places, ServicePhase, Extra, Wanted;
    DrainDone(cfg, o.err, o.reps);
    var o' := Effect(cfg, o, drain[0]);
    var id := drain[0].Target();
    assert o'.reps == o.reps - {id};
    ExtraIsNotWanted(cfg, o.err, id);
    KeptWithoutExtra(cfg, o.err, o.reps, id);
    EverythingKept(cfg, o, o'.free);
    assert Scheduled(cfg, o') == Scheduled(cfg, o.(free := o'.free));
    NothingStale(cfg, o.err, o.reps, id);
  }

  lemma ExtraIsNotWanted(cfg: Config, err: set<string>, id: Id)
    requires Extra(cfg, err, id)
    ensures !Wanted(cfg, err, id)
  {
  }

  lemma KeptWithoutExtra(cfg: Config, err: set<string>, reps: map<Id, ObsReplica>, id: Id)
    requires !Wanted(cfg, err, id)
    ensures Kept(cfg, err, reps - {id}) == Kept(cfg, err, reps)
  {
  }

  lemma NothingStale(cfg: Config, err: set<string>, reps: map<Id, ObsReplica>, id: Id)
    requires !Wanted(cfg, err, id)
    ensures UpdatePhase(cfg, err, reps - {id}) == UpdatePhase(cfg, err, reps)
  {
    SlotsAreWanted(cfg, err, Names(cfg.backends), id);
    UpdatesWithout(cfg, reps, Slots(cfg, err, Names(cfg.backends)), id);
  }

  lemma {:induction false} UpdatesWithout(cfg: Config, reps: map<Id, ObsReplica>, ids: seq<Id>, id: Id)
    requires id !in ids
    ensures Updates(cfg, reps - {id}, ids) == Updates(cfg, reps, ids)
  {
    if ids != [] {
      UpdatesWithout(cfg, reps, ids[1..], id);
    }
  }
}

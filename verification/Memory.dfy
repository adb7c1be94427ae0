// GPU memory over a run: no prefix of any plan, in any scope, exceeds any GPU.
module Memory {
  import opened Wrappers
  import opened Order
  import opened Fleet
  import opened Schedule
  import opened Packer
  import opened Packing
  import opened Plan
  import opened PlanFacts
  import opened World
  import opened Resume
  import opened Apply
  import opened Capacity

  function LoadOf(cfg: Config, a: Action, g: GpuRef): int {
    if a.PlaceReplica? && GpuRef(a.host, a.gpu) == g then NeedAt(cfg, a.backend) else 0
  }

  // What the placements among the actions take from g.
  function Load(cfg: Config, acts: seq<Action>, g: GpuRef): int {
    if acts == [] then 0 else LoadOf(cfg, acts[0], g) + Load(cfg, acts[1..], g)
  }

  ghost predicate NeedsNonNegative(cfg: Config) {
    forall b :: NeedAt(cfg, b) >= 0
  }

  lemma {:induction false} LoadConcat(cfg: Config, a: seq<Action>, b: seq<Action>, g: GpuRef)
    ensures Load(cfg, a + b, g) == Load(cfg, a, g) + Load(cfg, b, g)
  {
    if a == [] {
      assert a + b == b;
    } else {
      assert (a + b)[1..] == a[1..] + b;
      LoadConcat(cfg, a[1..], b, g);
    }
  }

  lemma {:induction false} LoadNonNegative(cfg: Config, acts: seq<Action>, g: GpuRef)
    requires NeedsNonNegative(cfg)
    ensures Load(cfg, acts, g) >= 0
  {
    if acts != [] {
      LoadNonNegative(cfg, acts[1..], g);
    }
  }

  lemma LoadPrefix(cfg: Config, acts: seq<Action>, k: nat, g: GpuRef)
    requires NeedsNonNegative(cfg) && k <= |acts|
    ensures Load(cfg, acts[..k], g) <= Load(cfg, acts, g)
  {
    assert acts == acts[..k] + acts[k..];
    LoadConcat(cfg, acts[..k], acts[k..], g);
    LoadNonNegative(cfg, acts[k..], g);
  }

  lemma {:induction false} LoadScoped(cfg: Config, acts: seq<Action>, scope: string, g: GpuRef)
    requires NeedsNonNegative(cfg)
    ensures Load(cfg, Scoped(acts, scope), g) <= Load(cfg, acts, g)
  {
    if acts != [] {
      var front, last := acts[..|acts| - 1], acts[|acts| - 1];
      LoadScoped(cfg, front, scope, g);
      assert acts == front + [last];
      LoadConcat(cfg, front, [last], g);
      LoadConcat(cfg, Scoped(front, scope), [last], g);
      assert Scoped(front, scope) + [] == Scoped(front, scope);
    }
  }

  lemma {:induction false} LoadWithoutPlaces(cfg: Config, acts: seq<Action>, g: GpuRef)
    requires forall a | a in acts :: !a.PlaceReplica?
    ensures Load(cfg, acts, g) == 0
  {
    if acts != [] {
      LoadWithoutPlaces(cfg, acts[1..], g);
    }
  }

  // Removals only give memory back; nothing but a placement takes any.
  lemma {:induction false} FreeAtLeast(cfg: Config, o: Observed, acts: seq<Action>, g: GpuRef)
    requires NeedsNonNegative(cfg) && AllAdmitted(cfg, acts) && g in o.free
    ensures g in Effects(cfg, o, acts).free
    ensures Effects(cfg, o, acts).free[g] >= o.free[g] - Load(cfg, acts, g)
    decreases |acts|
  {
    if acts != [] {
      FreeAtLeast(cfg, Effect(cfg, o, acts[0]), acts[1..], g);
    }
  }

  // The placements of a plan take exactly what the packer reserved.
  lemma {:induction false} PlacesLoad(cfg: Config, ds: seq<Demand>, kept: map<Id, GpuRef>, out: seq<Placed>, g: GpuRef)
    requires |ds| == |out|
    requires forall i | 0 <= i < |ds| :: ds[i].id == out[i].id && ds[i].need == NeedAt(cfg, out[i].id.backend)
    ensures Load(cfg, Places(cfg, kept, out), g) == Reserved(ds, kept, out, g)
  {
    if ds != [] {
      PlacesLoad(cfg, ds[1..], kept, out[1..], g);
      var head := if out[0].id in kept then [] else [PlaceOf(cfg, out[0])];
      LoadConcat(cfg, head, Places(cfg, kept, out[1..]), g);
    }
  }

  lemma PlanLoad(cfg: Config, o: Observed, g: GpuRef)
    requires cfg.Valid() && Scheduled(cfg, o).Packed? && g in o.free && o.free[g] >= 0
    ensures Load(cfg, PlacePhase(cfg, o.err, o.reps, Scheduled(cfg, o).out), g) <= o.free[g]
  {
    var ds := AllDemands(cfg.policy, SchedBackends(cfg, o.err));
    var kept := Kept(cfg, o.err, o.reps);
    OutDistinct(cfg, o);
    forall i | 0 <= i < |ds| ensures ds[i].id == Scheduled(cfg, o).out[i].id {
      assert Answers(ds[i], kept, o.free, Scheduled(cfg, o).out[i]);
    }
    PackConserves(ds, kept, Ledger(o.free, Held(kept)), g);
    PlacesLoad(cfg, ds, kept, Scheduled(cfg, o).out, g);
  }

  lemma ConvergeLoad(cfg: Config, o: Observed, plan: Plan, g: GpuRef)
    requires cfg.Valid() && PlanOf(cfg, o) == Ok(plan) && g in o.free && o.free[g] >= 0
    ensures Load(cfg, plan.converge, g) <= o.free[g]
  {
    var u, p := UpdatePhase(cfg, o.err, o.reps), PlacePhase(cfg, o.err, o.reps, Scheduled(cfg, o).out);
    var s := ServicePhase(cfg, o.err, o.svcs);
    UpdatesTargetIds(cfg, o.reps, Slots(cfg, o.err, Names(cfg.backends)));
    NamesDistinct(cfg.services);
    ServicesMembers(cfg, o.err, o.svcs, Names(cfg.services));
    LoadWithoutPlaces(cfg, u, g);
    LoadWithoutPlaces(cfg, s, g);
    LoadConcat(cfg, u, p, g);
    LoadConcat(cfg, u + p, s, g);
    PlanLoad(cfg, o, g);
  }

  // No over-commit. Whatever the scope and wherever a run stops, no GPU that had free
  // memory is driven below zero, although drains run last and give no credit.
  lemma NeverOvercommitted(cfg: Config, o: Observed, plan: Plan, scope: string, k: nat, g: GpuRef)
    requires cfg.Valid() && NeedsNonNegative(cfg) && PlanOf(cfg, o) == Ok(plan) && g in o.free && o.free[g] >= 0
    requires k <= |Flat(plan.Phases(), scope)| && AllAdmitted(cfg, Flat(plan.Phases(), scope)[..k])
    ensures var w := Effects(cfg, o, Flat(plan.Phases(), scope)[..k]); g in w.free && w.free[g] >= 0
  {
    var all := Flat(plan.Phases(), scope);
    var c, r, d := Scoped(plan.converge, scope), Scoped(plan.rewire, scope), Scoped(plan.drain, scope);
    FlatPhases(plan, scope);
    ScopedMembers(plan.rewire, scope);
    ScopedMembers(plan.drain, scope);
    PlanMembers(cfg, o, plan);
    LoadWithoutPlaces(cfg, r, g);
    LoadWithoutPlaces(cfg, d, g);
    LoadConcat(cfg, c, r, g);
    LoadConcat(cfg, c + r, d, g);
    LoadScoped(cfg, plan.converge, scope, g);
    ConvergeLoad(cfg, o, plan, g);
    LoadPrefix(cfg, all, k, g);
    FreeAtLeast(cfg, o, all[..k], g);
  }
}

// Where each replica of a plan goes, in the words of the configuration, what is observed,
// and the plan's own earlier placements.
module Placement {
  import opened Wrappers
  import opened Order
  import opened Fleet
  import opened Schedule
  import opened Packing
  import opened Packer
  import opened Plan
  import opened PlanFacts
  import opened World
  import opened Resume
  import opened Capacity
  import opened Memory
  import opened Greedy
  import opened PlanExact
  import opened HoldRun
  import Vram

  function Need(b: Backend): int {
    match b.vramMin
    case NoVram => 0
    case BadVram => 0
    case Vram(mib) => Vram.NeededMiB(mib)
  }

  // What the placements among the actions take from a GPU.
  function Taken(cfg: Config, acts: seq<Action>, x: GpuRef): int {
    if acts == [] then 0
    else
      var a := acts[0];
      (if a.PlaceReplica? && a.host == x.host && a.gpu == x.idx && a.backend in cfg.backends then Need(cfg.backends[a.backend]) else 0)
      + Taken(cfg, acts[1..], x)
  }

  ghost function LeftAfter(cfg: Config, o: Observed, earlier: seq<Action>): map<GpuRef, int> {
    map x | x in o.free :: o.free[x] - Taken(cfg, earlier, x)
  }

  // A replica of the backend that is to stay is there, or is placed there earlier.
  ghost predicate Occupies(cfg: Config, o: Observed, earlier: seq<Action>, backend: string, x: GpuRef)
    requires backend in cfg.backends
  {
    || (exists id :: id in o.reps && id.backend == backend && 0 <= id.replica < cfg.backends[backend].replicas && o.reps[id].ref == x)
    || (exists a :: a in earlier && a.PlaceReplica? && a.backend == backend && a.host == x.host && a.gpu == x.idx)
  }

  ghost predicate WellPlaced(cfg: Config, o: Observed, earlier: seq<Action>, a: Action)
    requires a.PlaceReplica? && a.backend in cfg.backends && 0 <= a.replica < cfg.backends[a.backend].replicas
    requires cfg.backends[a.backend].pins != [] ==> |cfg.backends[a.backend].pins| == cfg.backends[a.backend].replicas
  {
    var b, ref, left := cfg.backends[a.backend], GpuRef(a.host, a.gpu), LeftAfter(cfg, o, earlier);
    if b.pins != [] then
      b.pins[a.replica] == Pin(a.host, a.gpu) && ref in o.free && left[ref] >= Need(b)
    else
      BestFor(if b.policy != "" then b.policy else if cfg.policy != "" then cfg.policy else "spread", left,
              x => x in o.free && x.host in b.pool && left[x] >= Need(b) && !Occupies(cfg, o, earlier, a.backend, x), ref)
  }

  // ----- placements and turns

  lemma {:induction false} TakenIsLoad(cfg: Config, acts: seq<Action>, x: GpuRef)
    ensures Taken(cfg, acts, x) == Load(cfg, acts, x)
  {
    if acts != [] {
      TakenIsLoad(cfg, acts[1..], x);
    }
  }

  // The turn of the m-th placement.
  lemma {:induction false} PlaceAt(cfg: Config, kept: map<Id, GpuRef>, out: seq<Placed>, m: nat) returns (i: nat)
    requires m < |Places(cfg, kept, out)|
    ensures i < |out| && out[i].id !in kept && Places(cfg, kept, out)[m] == PlaceOf(cfg, out[i])
    ensures Places(cfg, kept, out[..i]) == Places(cfg, kept, out)[..m]
  {
    var first, rest := if out[0].id in kept then [] else [PlaceOf(cfg, out[0])], Places(cfg, kept, out[1..]);
    if out[0].id !in kept && m == 0 {
      i := 0;
    } else {
      var k := PlaceAt(cfg, kept, out[1..], m - |first|);
      i := k + 1;
      assert out[..i][0] == out[0] && out[..i][1..] == out[1..][..k];
      assert (first + rest)[..m] == first + rest[..m - |first|];
    }
  }

  lemma TakenBy(cfg: Config, ds: seq<Demand>, kept: map<Id, GpuRef>, out: seq<Placed>, i: nat, backend: string, x: GpuRef)
    requires i <= |ds| == |out| && forall j | 0 <= j < |ds| :: ds[j].id == out[j].id
    ensures TakenBefore(ds, kept, out, i, backend, x) <==>
              exists a :: a in Places(cfg, kept, out[..i]) && a.PlaceReplica? && a.backend == backend && a.host == x.host && a.gpu == x.idx
  {
    PlacesMembers(cfg, kept, out[..i]);
    if TakenBefore(ds, kept, out, i, backend, x) {
      var j :| 0 <= j < i && ds[j].id !in kept && ds[j].id.backend == backend && out[j].ref == x;
      assert out[..i][j] == out[j] && PlaceOf(cfg, out[j]) in Places(cfg, kept, out[..i]);
    }
    if a :| a in Places(cfg, kept, out[..i]) && a.PlaceReplica? && a.backend == backend && a.host == x.host && a.gpu == x.idx {
      var p :| p in out[..i] && p.id !in kept && a == PlaceOf(cfg, p);
      var j :| 0 <= j < i && out[..i][j] == p;
      assert out[j] == p && ds[j].id == p.id;
    }
  }

  lemma KeptSits(cfg: Config, o: Observed, backend: string, x: GpuRef)
    requires Reconciled(cfg, o.err, backend)
    ensures (exists id :: id in Kept(cfg, o.err, o.reps) && id.backend == backend && Kept(cfg, o.err, o.reps)[id] == x) <==>
              (exists id :: id in o.reps && id.backend == backend && 0 <= id.replica < cfg.backends[backend].replicas && o.reps[id].ref == x)
  {
    var kept := Kept(cfg, o.err, o.reps);
    BlockedExact(cfg, o.err, backend);
    hide Reconciled;
    assert forall id | id in o.reps && id.backend == backend :: id in kept <==> 0 <= id.replica < cfg.backends[backend].replicas;
  }

  // ----- the theorem

  lemma TurnOfPlace(cfg: Config, o: Observed, m: nat) returns (i: nat)
    requires cfg.Valid() && Scheduled(cfg, o).Packed?
    requires m < |PlacePhase(cfg, o.err, o.reps, Scheduled(cfg, o).out)|
    ensures var ds, kept := AllDemands(cfg.policy, SchedBackends(cfg, o.err)), Kept(cfg, o.err, o.reps);
            var out := Scheduled(cfg, o).out;
            var places := PlacePhase(cfg, o.err, o.reps, out);
            && |ds| == |out| && (forall j | 0 <= j < |ds| :: ds[j].id == out[j].id && ds[j].need == NeedAt(cfg, out[j].id.backend))
            && i < |out| && out[i].id !in kept && places[m] == PlaceOf(cfg, out[i])
            && Places(cfg, kept, out[..i]) == places[..m]
            && Wanted(cfg, o.err, out[i].id)
  {
    OutDistinct(cfg, o);
    var ds, kept := AllDemands(cfg.policy, SchedBackends(cfg, o.err)), Kept(cfg, o.err, o.reps);
    var out := Scheduled(cfg, o).out;
    hide Scheduled, AllDemands, Wanted, Kept;
    forall j | 0 <= j < |ds| ensures ds[j].id == out[j].id {
      assert Answers(ds[j], kept, o.free, out[j]);
    }
    i := PlaceAt(cfg, kept, out, m);
  }

  ghost predicate Placeable(cfg: Config, a: Action) {
    && a.PlaceReplica? && a.backend in cfg.backends && 0 <= a.replica < cfg.backends[a.backend].replicas
    && (cfg.backends[a.backend].pins != [] ==> |cfg.backends[a.backend].pins| == cfg.backends[a.backend].replicas)
  }

  lemma LeftAgrees(cfg: Config, o: Observed, ds: seq<Demand>, kept: map<Id, GpuRef>, out: seq<Placed>, i: nat)
    requires i <= |ds| == |out|
    requires forall j | 0 <= j < |ds| :: ds[j].id == out[j].id && ds[j].need == NeedAt(cfg, out[j].id.backend)
    ensures Left(ds, kept, o.free, out, i) == LeftAfter(cfg, o, Places(cfg, kept, out[..i]))
  {
    forall x | x in o.free ensures Reserved(ds[..i], kept, out[..i], x) == Taken(cfg, Places(cfg, kept, out[..i]), x) {
      PlacesLoad(cfg, ds[..i], kept, out[..i], x);
      TakenIsLoad(cfg, Places(cfg, kept, out[..i]), x);
    }
  }

  lemma SitsAgrees(cfg: Config, o: Observed, ds: seq<Demand>, out: seq<Placed>, i: nat, backend: string, x: GpuRef)
    requires i <= |ds| == |out| && (forall j | 0 <= j < |ds| :: ds[j].id == out[j].id) && Reconciled(cfg, o.err, backend)
    ensures var kept := Kept(cfg, o.err, o.reps);
            Sits(ds, kept, out, i, backend, x) <==> Occupies(cfg, o, Places(cfg, kept, out[..i]), backend, x)
  {
    KeptSits(cfg, o, backend, x);
    TakenBy(cfg, ds, Kept(cfg, o.err, o.reps), out, i, backend, x);
  }

  lemma NeedIs(cfg: Config, n: string)
    requires n in cfg.backends
    ensures NeedAt(cfg, n) == Need(cfg.backends[n])
  {
  }

  lemma PlacedWell(cfg: Config, o: Observed, m: nat)
    requires cfg.Valid() && Scheduled(cfg, o).Packed?
    requires m < |PlacePhase(cfg, o.err, o.reps, Scheduled(cfg, o).out)|
    ensures var places := PlacePhase(cfg, o.err, o.reps, Scheduled(cfg, o).out);
            Placeable(cfg, places[m]) && WellPlaced(cfg, o, places[..m], places[m])
  {
    var i := TurnOfPlace(cfg, o, m);
    var bs := SchedBackends(cfg, o.err);
    var ds, kept := AllDemands(cfg.policy, bs), Kept(cfg, o.err, o.reps);
    var out := Scheduled(cfg, o).out;
    var id, ref := out[i].id, out[i].ref;
    TurnExact(ds, kept, o.free, i);
    DemandAsks(cfg.policy, bs, ds[i]);
    WantedExact(cfg, o.err, id);
    NeedIs(cfg, id.backend);
    assert ValidBackend(cfg.backends[id.backend]) && bs[id.backend] == cfg.backends[id.backend];
    LeftAgrees(cfg, o, ds, kept, out, i);
    forall x ensures Sits(ds, kept, out, i, id.backend, x) <==> Occupies(cfg, o, Places(cfg, kept, out[..i]), id.backend, x) {
      SitsAgrees(cfg, o, ds, out, i, id.backend, x);
    }
    hide Scheduled, AllDemands, SchedBackends, Kept, Left, LeftAfter, Sits, Occupies, Reconciled, Wanted, BestFor;
    TurnIsWell(cfg, o, ds, kept, out, i);
  }

  lemma TurnIsWell(cfg: Config, o: Observed, ds: seq<Demand>, kept: map<Id, GpuRef>, out: seq<Placed>, i: nat)
    requires i < |ds| == |out| && ds[i].id == out[i].id && ds[i].id !in kept && out[i].id.backend in cfg.backends
    requires var b := cfg.backends[out[i].id.backend];
             && ValidBackend(b) && 0 <= out[i].id.replica < b.replicas
             && Asks(cfg.policy, b, ds[i]) && ds[i].need == Need(b)
    requires var left, d, ref := Left(ds, kept, o.free, out, i), ds[i], out[i].ref;
             if d.spot.Pinned? then d.spot.pin == Pin(ref.host, ref.idx) && ref in o.free && left[ref] >= d.need
             else d.spot.Anywhere? && BestFor(d.spot.policy, left,
                    x => x in o.free && x.host in d.spot.pool && left[x] >= d.need && !Sits(ds, kept, out, i, d.id.backend, x), ref)
    requires Left(ds, kept, o.free, out, i) == LeftAfter(cfg, o, Places(cfg, kept, out[..i]))
    requires forall x :: Sits(ds, kept, out, i, out[i].id.backend, x) <==>
                         Occupies(cfg, o, Places(cfg, kept, out[..i]), out[i].id.backend, x)
    ensures Placeable(cfg, PlaceOf(cfg, out[i])) && WellPlaced(cfg, o, Places(cfg, kept, out[..i]), PlaceOf(cfg, out[i]))
  {
    var b, d, ref := cfg.backends[out[i].id.backend], ds[i], out[i].ref;
    var earlier := Places(cfg, kept, out[..i]);
    var left := LeftAfter(cfg, o, earlier);
    if d.spot.Anywhere? {
      hide Sits, Occupies;
      BestAgrees(d.spot.policy, left,
                 x => x in o.free && x.host in d.spot.pool && left[x] >= d.need && !Sits(ds, kept, out, i, d.id.backend, x),
                 x => x in o.free && x.host in b.pool && left[x] >= Need(b) && !Occupies(cfg, o, earlier, d.id.backend, x), ref);
      hide BestFor, LeftAfter, Left;
    }
  }

  lemma {:induction false} NothingTaken(cfg: Config, acts: seq<Action>, rest: seq<Action>, x: GpuRef)
    requires forall a | a in acts :: !a.PlaceReplica?
    ensures Taken(cfg, acts + rest, x) == Taken(cfg, rest, x)
  {
    if acts == [] {
      assert acts + rest == rest;
    } else {
      assert acts[0] in acts && (acts + rest)[0] == acts[0] && (acts + rest)[1..] == acts[1..] + rest;
      NothingTaken(cfg, acts[1..], rest, x);
    }
  }

  lemma WellAfterUpdates(cfg: Config, o: Observed, updates: seq<Action>, earlier: seq<Action>, a: Action)
    requires (forall u | u in updates :: u.UpdateReplica?) && Placeable(cfg, a) && WellPlaced(cfg, o, earlier, a)
    ensures WellPlaced(cfg, o, updates + earlier, a)
  {
    forall x { NothingTaken(cfg, updates, earlier, x); }
    assert LeftAfter(cfg, o, updates + earlier) == LeftAfter(cfg, o, earlier);
    assert forall x :: x in updates + earlier <==> x in updates || x in earlier;
    forall x ensures Occupies(cfg, o, updates + earlier, a.backend, x) <==> Occupies(cfg, o, earlier, a.backend, x) {
    }
    var b, ref, left := cfg.backends[a.backend], GpuRef(a.host, a.gpu), LeftAfter(cfg, o, earlier);
    if b.pins == [] {
      hide Occupies, LeftAfter;
      BestAgrees(if b.policy != "" then b.policy else if cfg.policy != "" then cfg.policy else "spread", left,
                 x => x in o.free && x.host in b.pool && left[x] >= Need(b) && !Occupies(cfg, o, earlier, a.backend, x),
                 x => x in o.free && x.host in b.pool && left[x] >= Need(b) && !Occupies(cfg, o, updates + earlier, a.backend, x), ref);
    }
  }

  // Every placement of a plan is where it should be, given what the plan placed before it:
  // on its pin, which has room, or on the GPU that its policy prefers among those of its
  // pool with room left and no replica of its backend.
  lemma PlacementExact(cfg: Config, o: Observed, plan: Plan, k: nat)
    requires cfg.Valid() && PlanOf(cfg, o) == Ok(plan) && k < |plan.converge| && plan.converge[k].PlaceReplica?
    ensures Placeable(cfg, plan.converge[k]) && WellPlaced(cfg, o, plan.converge[..k], plan.converge[k])
  {
    PlanParts(cfg, o, plan);
    hide PlanOf, UpdatePhase, PlacePhase, ServicePhase, Scheduled, WellPlaced, DrainPhase, Placeable;
    var out := Scheduled(cfg, o).out;
    WellPlacedAt(cfg, o, UpdatePhase(cfg, o.err, o.reps), PlacePhase(cfg, o.err, o.reps, out), ServicePhase(cfg, o.err, o.svcs), k);
  }

  lemma WellPlacedAt(cfg: Config, o: Observed, u: seq<Action>, p: seq<Action>, s: seq<Action>, k: nat)
    requires cfg.Valid() && Scheduled(cfg, o).Packed? && k < |u + p + s| && (u + p + s)[k].PlaceReplica?
    requires u == UpdatePhase(cfg, o.err, o.reps) && p == PlacePhase(cfg, o.err, o.reps, Scheduled(cfg, o).out)
    requires s == ServicePhase(cfg, o.err, o.svcs)
    ensures Placeable(cfg, (u + p + s)[k]) && WellPlaced(cfg, o, (u + p + s)[..k], (u + p + s)[k])
  {
    hide UpdatePhase, PlacePhase, ServicePhase, Scheduled, WellPlaced, DrainPhase, Placeable;
    KindsOf(cfg, o, Scheduled(cfg, o).out);
    PhaseKinds(cfg, o, Scheduled(cfg, o).out);
    PlacementsBetween(u, p, s, k);
    PlacedWell(cfg, o, k - |u|);
    WellAfterUpdates(cfg, o, u, p[..k - |u|], p[k - |u|]);
  }

  lemma PlacementsBetween(u: seq<Action>, p: seq<Action>, s: seq<Action>, k: nat)
    requires (forall a | a in u :: a.UpdateReplica?) && forall a | a in s :: OnService(a)
    requires k < |u + p + s| && (u + p + s)[k].PlaceReplica?
    ensures |u| <= k < |u + p| && (u + p + s)[k] == p[k - |u|] && (u + p + s)[..k] == u + p[..k - |u|]
  {
    var c := u + p + s;
    assert forall i | 0 <= i < |u| :: c[i] == u[i] && u[i] in u;
    assert forall i | |u + p| <= i < |c| :: c[i] == s[i - |u + p|] && s[i - |u + p|] in s;
  }
}

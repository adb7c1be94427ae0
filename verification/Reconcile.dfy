// The reconciler's promises: resumption, the fixpoint, and what rewires point at.
module Reconcile {
  import opened Wrappers
  import opened Order
  import opened Fleet
  import opened Schedule
  import opened Packing
  import opened Packer
  import opened Plan
  import opened PlanFacts
  import opened World
  import opened Observe
  import opened Services
  import opened Resume

  lemma ReplicaStep(cfg: Config, o: Observed, out: seq<Placed>,
                    u: seq<Action>, p: seq<Action>, s: seq<Action>, drain: seq<Action>)
    returns (u': seq<Action>, p': seq<Action>)
    requires cfg.Valid() && Continues(cfg, o, out, u, p, s, drain)
    requires u + p != [] && Admitted(cfg, (u + p)[0])
    ensures u' + p' == (u + p)[1..]
    ensures Continues(cfg, Effect(cfg, o, (u + p)[0]), out, u', p', s, drain)
    ensures SameServices(o, Effect(cfg, o, (u + p)[0]))
  {
    HeadOfTwo(u, p);
    if u != [] {
      u', p' := u[1..], p;
      AfterUpdate(cfg, o, out, u, p, s, drain);
      FirstUpdate(cfg, o.err, o.reps);
    } else {
      u', p' := [], p[1..];
      AfterPlace(cfg, o, out, p, s, drain);
      FirstPlace(cfg, o, out);
    }
  }

  ghost predicate SameServices(o: Observed, w: Observed) {
    w.err == o.err && w.svcs == o.svcs && w.hosted == o.hosted
  }

  lemma FirstUpdate(cfg: Config, err: set<string>, reps: map<Id, ObsReplica>)
    requires UpdatePhase(cfg, err, reps) != []
    ensures UpdatePhase(cfg, err, reps)[0].UpdateReplica?
  {
    UpdatesTargetIds(cfg, reps, Slots(cfg, err, Names(cfg.backends)));
    assert UpdatePhase(cfg, err, reps)[0] in UpdatePhase(cfg, err, reps);
  }

  lemma FirstPlace(cfg: Config, o: Observed, out: seq<Placed>)
    requires PlacePhase(cfg, o.err, o.reps, out) != []
    ensures PlacePhase(cfg, o.err, o.reps, out)[0].PlaceReplica?
  {
    PlacesArePlaces(cfg, Kept(cfg, o.err, o.reps), out);
    assert PlacePhase(cfg, o.err, o.reps, out)[0] in PlacePhase(cfg, o.err, o.reps, out);
  }

  lemma {:induction false} PlacesArePlaces(cfg: Config, kept: map<Id, GpuRef>, out: seq<Placed>)
    ensures forall a | a in Places(cfg, kept, out) :: a.PlaceReplica?
  {
    if out != [] {
      PlacesArePlaces(cfg, kept, out[1..]);
    }
  }

  lemma HeadOfTwo<T>(a: seq<T>, b: seq<T>)
    requires a + b != []
    ensures a != [] ==> (a + b)[0] == a[0] && (a + b)[1..] == a[1..] + b
    ensures a == [] ==> (a + b)[0] == b[0] && (a + b)[1..] == [] + b[1..]
  {
  }

  lemma {:induction false} ReplicaSteps(cfg: Config, o: Observed, out: seq<Placed>,
                                        u: seq<Action>, p: seq<Action>, s: seq<Action>, drain: seq<Action>, k: nat)
    returns (u': seq<Action>, p': seq<Action>)
    requires cfg.Valid() && Continues(cfg, o, out, u, p, s, drain)
    requires k <= |u + p| && AllAdmitted(cfg, (u + p)[..k])
    ensures u' + p' == (u + p)[k..]
    ensures Continues(cfg, Effects(cfg, o, (u + p)[..k]), out, u', p', s, drain)
    ensures SameServices(o, Effects(cfg, o, (u + p)[..k]))
    decreases k
  {
    hide Continues;
    var acts := u + p;
    u', p' := u, p;
    if k == 0 {
      EffectsOfNothing(cfg, o);
      assert acts[..0] == [] && acts[0..] == acts;
    } else {
      assert acts[0] in acts[..k];
      u', p' := ReplicaStep(cfg, o, out, u, p, s, drain);
      hide Effect;
      assert forall a | a in acts[1..][..k - 1] :: a in acts[..k];
      u', p' := ReplicaSteps(cfg, Effect(cfg, o, acts[0]), out, u', p', s, drain, k - 1);
      EffectsFrom(cfg, o, acts, k);
      assert acts[1..][k - 1..] == acts[k..];
    }
  }

  // The services once j of their actions were carried out.
  lemma ServiceSteps(cfg: Config, o: Observed, out: seq<Placed>, u: seq<Action>, p: seq<Action>, s: seq<Action>,
                     drain: seq<Action>, j: nat)
    requires Orderly(o) && Continues(cfg, o, out, u, p, s, drain)
    requires j <= |s| && AllAdmitted(cfg, s[..j])
    ensures Continues(cfg, Effects(cfg, o, s[..j]), out, u, p, Repeats(cfg, o, s[..j]) + s[j..], drain)
  {
    ServicesAfter(cfg, o, j);
    hide Effects, Repeats, ServicePhase, Kept, UpdatePhase, Places, DrainPhase, PlanDeltaSpec;
  }

  lemma {:induction false} ConvergeSteps(cfg: Config, o: Observed, out: seq<Placed>,
                                         u: seq<Action>, p: seq<Action>, s: seq<Action>, drain: seq<Action>, k: nat)
    returns (u': seq<Action>, p': seq<Action>, s': seq<Action>)
    requires cfg.Valid() && Orderly(o) && Continues(cfg, o, out, u, p, s, drain)
    requires k <= |u + p + s| && AllAdmitted(cfg, (u + p + s)[..k])
    ensures u' + p' + s' == Repeats(cfg, o, (u + p + s)[..k]) + (u + p + s)[k..]
    ensures k >= |u + p| ==> u' == p' == []
    ensures Continues(cfg, Effects(cfg, o, (u + p + s)[..k]), out, u', p', s', drain)
  {
    hide Continues, Effects, Repeats, Orderly;
    var acts, n := u + p, |u + p|;
    ReplicasFirst(cfg, o, out, u, p, s, drain);
    if k <= n {
      assert (acts + s)[..k] == acts[..k];
      assert forall a | a in acts[..k] :: a in acts;
      u', p' := ReplicaSteps(cfg, o, out, u, p, s, drain, k);
      s' := s;
      RepeatsOfOthers(cfg, o, acts[..k]);
      assert acts[k..] + s == [] + (acts + s)[k..];
    } else {
      var j := k - n;
      assert (acts + s)[..k] == acts + s[..j] && acts[..n] == acts && acts[n..] == [] && (acts + s)[k..] == s[j..];
      assert AllAdmitted(cfg, acts) && AllAdmitted(cfg, s[..j]);
      u', p' := ReplicaSteps(cfg, o, out, u, p, s, drain, n);
      var mid := Effects(cfg, o, acts);
      SameOrderly(o, mid);
      ServiceSteps(cfg, mid, out, [], [], s, drain, j);
      RepeatsAgree(cfg, o, mid, s[..j]);
      RepeatsOfOthers(cfg, o, acts);
      RepeatsConcat(cfg, o, acts, s[..j]);
      EffectsConcat(cfg, o, acts, s[..j]);
      s' := Repeats(cfg, o, s[..j]) + s[j..];
      assert [] + [] + s' == s' && [] + Repeats(cfg, o, s[..j]) == Repeats(cfg, o, s[..j]);
    }
  }

  lemma SameOrderly(o: Observed, w: Observed)
    requires Orderly(o) && SameServices(o, w)
    ensures Orderly(w)
  {
    forall name ensures SeesLast(w, name) {
      assert SeesLast(o, name);
    }
  }

  lemma ReplicasFirst(cfg: Config, o: Observed, out: seq<Placed>, u: seq<Action>, p: seq<Action>, s: seq<Action>, drain: seq<Action>)
    requires Continues(cfg, o, out, u, p, s, drain)
    ensures forall a | a in u + p :: !OnService(a)
  {
    UpdatesTargetIds(cfg, o.reps, Slots(cfg, o.err, Names(cfg.backends)));
    PlacesArePlaces(cfg, Kept(cfg, o.err, o.reps), out);
  }

  lemma {:induction false} DrainSteps(cfg: Config, o: Observed, out: seq<Placed>, s: seq<Action>, drain: seq<Action>, k: nat)
    requires cfg.Valid() && Continues(cfg, o, out, [], [], s, drain) && k <= |drain|
    ensures AllAdmitted(cfg, drain[..k])
    ensures Continues(cfg, Effects(cfg, o, drain[..k]), out, [], [], s, drain[k..])
    decreases k
  {
    hide Continues;
    if k == 0 {
      EffectsOfNothing(cfg, o);
      assert drain[..0] == [] && drain[0..] == drain;
    } else {
      AfterRemove(cfg, o, out, s, drain);
      hide Effect;
      DrainSteps(cfg, Effect(cfg, o, drain[0]), out, s, drain[1..], k - 1);
      EffectsFrom(cfg, o, drain, k);
      assert drain[1..][k - 1..] == drain[k..];
    }
  }

  lemma EffectsOfNothing(cfg: Config, o: Observed)
    ensures AllAdmitted(cfg, []) && Effects(cfg, o, []) == o
  {
  }

  lemma EffectsFrom(cfg: Config, o: Observed, acts: seq<Action>, k: nat)
    requires 0 < k <= |acts| && Admitted(cfg, acts[0]) && AllAdmitted(cfg, acts[1..][..k - 1])
    ensures AllAdmitted(cfg, acts[..k])
    ensures Effects(cfg, o, acts[..k]) == Effects(cfg, Effect(cfg, o, acts[0]), acts[1..][..k - 1])
  {
    assert acts[..k] == [acts[0]] + acts[1..][..k - 1];
    assert acts[..k][1..] == acts[1..][..k - 1];
  }

  lemma {:induction false} RewiresOnly(cfg: Config, err: set<string>, svcs: map<string, ObsService>, names: seq<string>,
                                       changed: set<string>, out: seq<Placed>)
    requires forall n | n in names :: n in cfg.services
    ensures forall a | a in Rewires(cfg, err, svcs, names, changed, out) ::
              && a.Rewire? && a.service in names && a.host == cfg.services[a.service].host && a.host !in err
              && a.backend in cfg.services[a.service].uses && !Blocked(cfg, err, a.backend)
              && a.endpoints == HostsOf(Of(out, a.backend))
    ensures changed == {} && ServiceChanges(cfg, err, svcs, names) == [] ==> Rewires(cfg, err, svcs, names, changed, out) == []
  {
    if names != [] {
      RewiresOnly(cfg, err, svcs, names[1..], changed, out);
      var s := cfg.services[names[0]];
      UsesOnly(cfg, err, names[0], s.host, s.uses, ServiceChange(cfg, err, svcs, names[0]) != [], changed, out);
    }
  }

  lemma {:induction false} UsesOnly(cfg: Config, err: set<string>, name: string, host: string, uses: seq<string>,
                                    svcChanged: bool, changed: set<string>, out: seq<Placed>)
    ensures forall a | a in UseRewires(cfg, err, name, host, uses, svcChanged, changed, out) ::
              && a.Rewire? && a.service == name && a.host == host && a.backend in uses && !Blocked(cfg, err, a.backend)
              && a.endpoints == HostsOf(Of(out, a.backend))
    ensures !svcChanged && changed == {} ==> UseRewires(cfg, err, name, host, uses, svcChanged, changed, out) == []
  {
    if uses != [] {
      UsesOnly(cfg, err, name, host, uses[1..], svcChanged, changed, out);
    }
  }

  lemma {:induction false} RewiresDoNothing(cfg: Config, o: Observed, acts: seq<Action>)
    requires forall a | a in acts :: a.Rewire?
    ensures AllAdmitted(cfg, acts) && Effects(cfg, o, acts) == o
    decreases |acts|
  {
    if acts != [] {
      assert acts[0] in acts;
      RewiresDoNothing(cfg, o, acts[1..]);
      assert AllAdmitted(cfg, acts) && Effect(cfg, o, acts[0]) == o;
    }
  }

  lemma PlanRewires(cfg: Config, o: Observed, plan: Plan)
    requires PlanOf(cfg, o) == Ok(plan)
    ensures forall a | a in plan.rewire ::
              && a.Rewire? && a.service in cfg.services && a.host == cfg.services[a.service].host && a.host !in o.err
              && a.backend in cfg.services[a.service].uses && !Blocked(cfg, o.err, a.backend)
              && a.endpoints == HostsOf(Of(Scheduled(cfg, o).out, a.backend))
  {
    NamesDistinct(cfg.services);
    var replicas := UpdatePhase(cfg, o.err, o.reps) + PlacePhase(cfg, o.err, o.reps, Scheduled(cfg, o).out);
    RewiresOnly(cfg, o.err, o.svcs, Names(cfg.services), Touched(replicas + plan.drain), Scheduled(cfg, o).out);
  }

  // How far a run is into each phase after k actions.
  function Into(k: nat, before: nat, length: nat): (i: nat)
    ensures i <= length
  {
    if k <= before then 0 else if k - before <= length then k - before else length
  }

  lemma PrefixOfThree<T>(a: seq<T>, b: seq<T>, c: seq<T>, k: nat)
    requires k <= |a + b + c|
    ensures (a + b + c)[..k] == a[..Into(k, 0, |a|)] + (b[..Into(k, |a|, |b|)] + c[..Into(k, |a| + |b|, |c|)])
  {
  }

  // The state after k actions, split by phase.
  lemma PrefixSplits(cfg: Config, o: Observed, plan: Plan, k: nat)
    requires forall a | a in plan.rewire :: a.Rewire?
    requires k <= |plan.converge + plan.rewire + plan.drain|
    requires AllAdmitted(cfg, (plan.converge + plan.rewire + plan.drain)[..k])
    ensures var c, d := Into(k, 0, |plan.converge|), Into(k, |plan.converge| + |plan.rewire|, |plan.drain|);
            && AllAdmitted(cfg, plan.converge[..c]) && AllAdmitted(cfg, plan.drain[..d])
            && Effects(cfg, o, (plan.converge + plan.rewire + plan.drain)[..k])
               == Effects(cfg, Effects(cfg, o, plan.converge[..c]), plan.drain[..d])
  {
    PrefixOfThree(plan.converge, plan.rewire, plan.drain, k);
    var first := plan.converge[..Into(k, 0, |plan.converge|)];
    var middle := plan.rewire[..Into(k, |plan.converge|, |plan.rewire|)];
    var last := plan.drain[..Into(k, |plan.converge| + |plan.rewire|, |plan.drain|)];
    assert AllAdmitted(cfg, first) && AllAdmitted(cfg, middle) && AllAdmitted(cfg, last) by {
      assert forall a | a in first || a in middle || a in last :: a in first + (middle + last);
    }
    var mid := Effects(cfg, o, first);
    RewiresDoNothing(cfg, mid, middle);
    EffectsConcat(cfg, o, first, middle + last);
    EffectsConcat(cfg, mid, middle, last);
  }

  // After any k actions the packer's result is what it was, and the converge and drain
  // work left is the rest of the plan, behind the repeats.
  lemma AfterPrefix(cfg: Config, o: Observed, plan: Plan, k: nat) returns (u: seq<Action>, p: seq<Action>, s: seq<Action>)
    requires cfg.Valid() && Orderly(o) && PlanOf(cfg, o) == Ok(plan)
    requires k <= |plan.converge + plan.rewire + plan.drain|
    requires AllAdmitted(cfg, (plan.converge + plan.rewire + plan.drain)[..k])
    ensures var c := Into(k, 0, |plan.converge|);
            u + p + s == Repeats(cfg, o, plan.converge[..c]) + plan.converge[c..] && (c == |plan.converge| ==> u == p == [])
    ensures Continues(cfg, Effects(cfg, o, (plan.converge + plan.rewire + plan.drain)[..k]), Scheduled(cfg, o).out, u, p, s,
                      plan.drain[Into(k, |plan.converge| + |plan.rewire|, |plan.drain|)..])
  {
    hide PlanOf, Continues, Scheduled, Effects, Repeats, Orderly;
    var c, d := Into(k, 0, |plan.converge|), Into(k, |plan.converge| + |plan.rewire|, |plan.drain|);
    PlanParts(cfg, o, plan);
    var out := Scheduled(cfg, o).out;
    PlanRewires(cfg, o, plan);
    PrefixSplits(cfg, o, plan, k);
    var u0, p0 := UpdatePhase(cfg, o.err, o.reps), PlacePhase(cfg, o.err, o.reps, out);
    var s0 := ServicePhase(cfg, o.err, o.svcs);
    u, p, s := ConvergeSteps(cfg, o, out, u0, p0, s0, plan.drain, c);
    var mid := Effects(cfg, o, plan.converge[..c]);
    if d > 0 {
      DrainSteps(cfg, mid, out, s, plan.drain, d);
    } else {
      assert plan.drain[..0] == [] && plan.drain[0..] == plan.drain;
      EffectsOfNothing(cfg, mid);
    }
  }

  // Resumption. Stop an unscoped run after any k of its actions, for whatever reason,
  // and plan again: the new converge and drain phases are the unexecuted converge and
  // drain actions of the first plan, in order, with the same hosts, GPUs and tags. Before
  // them come the services that were carried out but do not settle, once more.
  lemma Resumption(cfg: Config, o: Observed, plan: Plan, k: nat)
    requires cfg.Valid() && Orderly(o) && PlanOf(cfg, o) == Ok(plan)
    requires k <= |plan.converge + plan.rewire + plan.drain|
    requires AllAdmitted(cfg, (plan.converge + plan.rewire + plan.drain)[..k])
    ensures var again := PlanOf(cfg, Effects(cfg, o, (plan.converge + plan.rewire + plan.drain)[..k]));
            var c := Into(k, 0, |plan.converge|);
            && again.Ok?
            && again.value.converge == Repeats(cfg, o, plan.converge[..c]) + plan.converge[c..]
            && again.value.drain == plan.drain[Into(k, |plan.converge| + |plan.rewire|, |plan.drain|)..]
            && again.value.warnings == plan.warnings
  {
    var u, p, s := AfterPrefix(cfg, o, plan, k);
    EffectsKeepErr(cfg, o, (plan.converge + plan.rewire + plan.drain)[..k]);
    hide Effects, Repeats, Orderly, Rewires;
  }

  lemma {:induction false} EffectsKeepErr(cfg: Config, o: Observed, acts: seq<Action>)
    requires AllAdmitted(cfg, acts)
    ensures Effects(cfg, o, acts).err == o.err
    decreases |acts|
  {
    if acts != [] {
      EffectsKeepErr(cfg, Effect(cfg, o, acts[0]), acts[1..]);
    }
  }

  ghost predicate AllSettle(cfg: Config, o: Observed, plan: Plan) {
    forall a | a in plan.converge && OnService(a) && a.service in cfg.services :: Settles(cfg, o, a.service)
  }

  // The fixpoint. Once every action was carried out, planning again succeeds with all
  // three phases empty, unreachable hosts or not, if and only if every service that was
  // deployed or updated settles.
  lemma Fixpoint(cfg: Config, o: Observed, plan: Plan)
    requires cfg.Valid() && Orderly(o) && PlanOf(cfg, o) == Ok(plan)
    requires AllAdmitted(cfg, plan.converge + plan.rewire + plan.drain)
    ensures PlanOf(cfg, Effects(cfg, o, plan.converge + plan.rewire + plan.drain)) == Ok(Plan([], [], [], plan.warnings))
            <==> AllSettle(cfg, o, plan)
  {
    hide PlanOf, Effects, Repeats, Orderly, Settles;
    var acts := plan.converge + plan.rewire + plan.drain;
    var w := Effects(cfg, o, acts);
    assert acts[..|acts|] == acts;
    Resumption(cfg, o, plan, |acts|);
    assert plan.converge[..|plan.converge|] == plan.converge && plan.converge[|plan.converge|..] == [];
    NoRepeats(cfg, o, plan.converge);
    if Repeats(cfg, o, plan.converge) == [] {
      NothingToRewire(cfg, w, plan.warnings);
    }
  }

  // Rewires are gated on change: with nothing to converge or drain there are none.
  lemma NothingToRewire(cfg: Config, o: Observed, warnings: seq<Warning>)
    requires PlanOf(cfg, o).Ok? && PlanOf(cfg, o).value.warnings == warnings
    requires PlanOf(cfg, o).value.converge == [] && PlanOf(cfg, o).value.drain == []
    ensures PlanOf(cfg, o) == Ok(Plan([], [], [], warnings))
  {
    NamesDistinct(cfg.services);
    var out := Scheduled(cfg, o).out;
    var replicas := UpdatePhase(cfg, o.err, o.reps) + PlacePhase(cfg, o.err, o.reps, out);
    assert Touched(replicas + []) == {};
    RewiresOnly(cfg, o.err, o.svcs, Names(cfg.services), Touched(replicas + []), out);
  }
}

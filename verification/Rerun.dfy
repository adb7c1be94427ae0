// Runs that stop and are started again end where one uninterrupted run ends.
module Rerun {
  import opened Wrappers
  import opened Order
  import opened Fleet
  import opened Observe
  import opened Schedule
  import opened Packer
  import opened Plan
  import opened PlanFacts
  import opened World
  import opened Services
  import opened Resume
  import opened Reconcile
  import opened Apply
  import opened Capacity
  import opened Loss
  import opened HoldRun

  // ----- repeating a service changes nothing

  // The service has its container, as it was stamped, on its own host.
  ghost predicate Stamped(cfg: Config, o: Observed, name: string) {
    name in cfg.services &&
    var s := cfg.services[name];
    SvcAt(name, s.host) in o.hosted && o.hosted[SvcAt(name, s.host)] == StampService(cfg, name, s.imageTag)
  }

  lemma UpIsStable(cfg: Config, o: Observed, name: string)
    requires Orderly(o) && Stamped(cfg, o, name)
    ensures Up(cfg, o, name, cfg.services[name].host, cfg.services[name].imageTag) == o
  {
    var s := cfg.services[name];
    assert o.hosted[SvcAt(name, s.host) := StampService(cfg, name, s.imageTag)] == o.hosted;
    assert SeesLast(o, name) && OnHosts(o.hosted, name);
    assert o.svcs[name := o.hosted[Last(o.hosted, name)]] == o.svcs;
  }

  ghost predicate Declared(cfg: Config, acts: seq<Action>) {
    forall a | a in acts && OnService(a) :: ServiceAction(cfg, a)
  }

  lemma {:induction false} EffectsStamp(cfg: Config, o: Observed, acts: seq<Action>)
    requires Orderly(o) && AllAdmitted(cfg, acts) && Declared(cfg, acts)
    ensures var w := Effects(cfg, o, acts);
            Orderly(w) && forall x :: Named(acts, x) || Stamped(cfg, o, x) ==> Stamped(cfg, w, x)
    decreases |acts|
  {
    if acts != [] {
      var a, rest := acts[0], acts[1..];
      assert a in acts && forall x | x in rest :: x in acts;
      var mid := Effect(cfg, o, a);
      StampedNext(cfg, o, a);
      EffectsStamp(cfg, mid, rest);
      hide Effect, Stamped, Orderly;
      forall x | Named(acts, x) ensures Named(rest, x) || (OnService(a) && a.service == x) {
        var y :| y in acts && OnService(y) && y.service == x;
        assert y == a || y in rest;
      }
    }
  }

  lemma StampedNext(cfg: Config, o: Observed, a: Action)
    requires Orderly(o) && Admitted(cfg, a) && (OnService(a) ==> ServiceAction(cfg, a))
    ensures var w := Effect(cfg, o, a);
            && Orderly(w) && (OnService(a) ==> Stamped(cfg, w, a.service))
            && forall x :: Stamped(cfg, o, x) ==> Stamped(cfg, w, x)
  {
    var w := Effect(cfg, o, a);
    if OnService(a) {
      UpSeen(cfg, o, a.service);
    } else {
      SameOrderly(o, w);
    }
  }

  lemma {:induction false} StableEffects(cfg: Config, o: Observed, acts: seq<Action>)
    requires Orderly(o) && forall a | a in acts :: ServiceAction(cfg, a) && Admitted(cfg, a) && Stamped(cfg, o, a.service)
    ensures AllAdmitted(cfg, acts) && Effects(cfg, o, acts) == o
    decreases |acts|
  {
    if acts != [] {
      assert acts[0] in acts && forall x | x in acts[1..] :: x in acts;
      UpIsStable(cfg, o, acts[0].service);
      StableEffects(cfg, o, acts[1..]);
      hide Effect;
    }
  }

  lemma {:induction false} RepeatsAreDeclared(cfg: Config, o: Observed, acts: seq<Action>)
    requires Declared(cfg, acts)
    ensures forall b | b in Repeats(cfg, o, acts) ::
              ServiceAction(cfg, b) && Named(acts, b.service) && (AllAdmitted(cfg, acts) ==> Admitted(cfg, b))
  {
    if acts != [] {
      assert acts[0] in acts && forall x | x in acts[1..] :: x in acts;
      RepeatsAreDeclared(cfg, o, acts[1..]);
      forall b | b in Repeats(cfg, o, acts)
        ensures ServiceAction(cfg, b) && Named(acts, b.service) && (AllAdmitted(cfg, acts) ==> Admitted(cfg, b))
      {
        if b in Repeat(cfg, o, acts[0]) {
        } else {
          assert b in Repeats(cfg, o, acts[1..]) && Named(acts[1..], b.service);
        }
      }
    }
  }

  lemma PlanDeclared(cfg: Config, o: Observed, plan: Plan)
    requires cfg.Valid() && PlanOf(cfg, o) == Ok(plan)
    ensures Declared(cfg, plan.converge) && Declared(cfg, plan.drain)
  {
    hide PlanOf, Scheduled, UpdatePhase, PlacePhase, ServicePhase, DrainPhase, ConvergeAction, Extra, Blocked;
    PlanParts(cfg, o, plan);
    PlanMembers(cfg, o, plan);
    var out := Scheduled(cfg, o).out;
    PhaseKindsOf(cfg, o, out);
    ReplicasFirst(cfg, o, out, UpdatePhase(cfg, o.err, o.reps), PlacePhase(cfg, o.err, o.reps, out), ServicePhase(cfg, o.err, o.svcs), plan.drain);
    hide ServiceAction;
  }

  // ----- one stop

  function Work(plan: Plan): seq<Action> {
    plan.converge + plan.rewire + plan.drain
  }

  // Confluence. Stop a run after any k of its actions, plan again and carry that out: the
  // fleet ends as after the whole first run.
  lemma Confluence(cfg: Config, o: Observed, plan: Plan, k: nat)
    requires cfg.Valid() && Orderly(o) && PlanOf(cfg, o) == Ok(plan)
    requires k <= |Work(plan)| && AllAdmitted(cfg, Work(plan))
    ensures var w := Effects(cfg, o, Work(plan)[..k]);
            && Orderly(w) && PlanOf(cfg, w).Ok?
            && AllAdmitted(cfg, Work(PlanOf(cfg, w).value))
            && Effects(cfg, w, Work(PlanOf(cfg, w).value)) == Effects(cfg, o, Work(plan))
  {
    hide PlanOf, Effects, Repeats, Orderly, Declared, Stamped, Admitted;
    var acts := Work(plan);
    assert forall a | a in acts[..k] :: a in acts;
    var w := Effects(cfg, o, acts[..k]);
    Resumption(cfg, o, plan, k);
    PlanRewires(cfg, o, plan);
    PrefixSplits(cfg, o, plan, k);
    PlanDeclared(cfg, o, plan);
    var again := PlanOf(cfg, w).value;
    PlanRewires(cfg, w, again);
    var c, d := Into(k, 0, |plan.converge|), Into(k, |plan.converge| + |plan.rewire|, |plan.drain|);
    WholeRun(cfg, o, plan);
    FinishFrom(cfg, o, plan, w, c, d, again.rewire);
    assert again.converge == Repeats(cfg, o, plan.converge[..c]) + plan.converge[c..];
  }

  // What is left of the converge and drain phases, behind the repeats.
  lemma FinishFrom(cfg: Config, o: Observed, plan: Plan, w: Observed, c: nat, d: nat, rewires: seq<Action>)
    requires Orderly(o) && AllAdmitted(cfg, Work(plan)) && Declared(cfg, plan.converge) && Declared(cfg, plan.drain)
    requires AllAdmitted(cfg, plan.converge) && AllAdmitted(cfg, plan.drain) && AllAdmitted(cfg, plan.converge + plan.drain)
    requires c <= |plan.converge| && d <= |plan.drain| && (d > 0 ==> c == |plan.converge|)
    requires AllAdmitted(cfg, plan.converge[..c]) && AllAdmitted(cfg, plan.drain[..d])
    requires w == Effects(cfg, Effects(cfg, o, plan.converge[..c]), plan.drain[..d])
    requires forall a | a in rewires :: a.Rewire?
    ensures var rest := Repeats(cfg, o, plan.converge[..c]) + plan.converge[c..] + rewires + plan.drain[d..];
            && Orderly(w) && AllAdmitted(cfg, rest)
            && Effects(cfg, w, rest) == Effects(cfg, o, plan.converge + plan.drain)
  {
    hide Effects, Repeats, Orderly, Declared, Stamped, Admitted;
    var done, left := plan.converge[..c], plan.converge[c..];
    PartsAdmitted(cfg, plan, c, d);
    PartsDeclared(cfg, plan, c, d);
    StoppedState(cfg, o, done, plan.drain[..d]);
    RepeatsStable(cfg, o, w, done);
    Finish(cfg, w, Repeats(cfg, o, done), left, rewires, plan.drain[d..]);
    LeftOver(cfg, o, plan.converge, plan.drain, c, d);
  }

  lemma LeftOver(cfg: Config, o: Observed, converge: seq<Action>, drain: seq<Action>, c: nat, d: nat)
    requires AllAdmitted(cfg, converge) && AllAdmitted(cfg, drain)
    requires c <= |converge| && d <= |drain| && (d > 0 ==> c == |converge|)
    ensures AllAdmitted(cfg, converge[..c]) && AllAdmitted(cfg, drain[..d]) && AllAdmitted(cfg, converge[c..] + drain[d..])
    ensures AllAdmitted(cfg, converge + drain)
    ensures Effects(cfg, Effects(cfg, Effects(cfg, o, converge[..c]), drain[..d]), converge[c..] + drain[d..])
         == Effects(cfg, o, converge + drain)
  {
    hide Effects, Admitted;
    var done, left := converge[..c], converge[c..];
    assert done + left == converge;
    EffectsConcat(cfg, o, converge, drain);
    if d == 0 {
      assert drain[..0] == [] && drain[0..] == drain;
      EffectsOfNothing(cfg, Effects(cfg, o, done));
      EffectsConcat(cfg, o, done, left);
      EffectsConcat(cfg, Effects(cfg, o, done), left, drain);
    } else {
      assert left == [] && done == converge && left + drain[d..] == drain[d..];
      assert drain[..d] + drain[d..] == drain;
      EffectsConcat(cfg, Effects(cfg, o, done), drain[..d], drain[d..]);
    }
  }

  lemma PartsAdmitted(cfg: Config, plan: Plan, c: nat, d: nat)
    requires AllAdmitted(cfg, Work(plan)) && c <= |plan.converge| && d <= |plan.drain|
    ensures AllAdmitted(cfg, plan.converge) && AllAdmitted(cfg, plan.drain)
    ensures AllAdmitted(cfg, plan.converge[..c]) && AllAdmitted(cfg, plan.converge[c..])
    ensures AllAdmitted(cfg, plan.drain[..d]) && AllAdmitted(cfg, plan.drain[d..])
  {
    assert forall a | a in plan.converge || a in plan.drain :: a in Work(plan);
  }

  lemma PartsDeclared(cfg: Config, plan: Plan, c: nat, d: nat)
    requires Declared(cfg, plan.converge) && Declared(cfg, plan.drain) && c <= |plan.converge| && d <= |plan.drain|
    ensures Declared(cfg, plan.converge[..c]) && Declared(cfg, plan.drain[..d])
  {
  }

  lemma StoppedState(cfg: Config, o: Observed, done: seq<Action>, drained: seq<Action>)
    requires Orderly(o) && AllAdmitted(cfg, done) && AllAdmitted(cfg, drained)
    requires Declared(cfg, done) && Declared(cfg, drained)
    ensures var w := Effects(cfg, Effects(cfg, o, done), drained);
            Orderly(w) && forall x :: Named(done, x) ==> Stamped(cfg, w, x)
  {
    hide Effects, Orderly, Stamped, Declared;
    EffectsStamp(cfg, o, done);
    EffectsStamp(cfg, Effects(cfg, o, done), drained);
  }

  lemma RepeatsStable(cfg: Config, o: Observed, w: Observed, done: seq<Action>)
    requires Orderly(w) && AllAdmitted(cfg, done) && Declared(cfg, done)
    requires forall x :: Named(done, x) ==> Stamped(cfg, w, x)
    ensures AllAdmitted(cfg, Repeats(cfg, o, done)) && Effects(cfg, w, Repeats(cfg, o, done)) == w
  {
    hide Effects, Repeats, Orderly, Stamped;
    RepeatsAreDeclared(cfg, o, done);
    StableEffects(cfg, w, Repeats(cfg, o, done));
  }

  lemma Finish(cfg: Config, w: Observed, repeats: seq<Action>, left: seq<Action>, rewires: seq<Action>, drains: seq<Action>)
    requires AllAdmitted(cfg, repeats) && Effects(cfg, w, repeats) == w && AllAdmitted(cfg, left) && AllAdmitted(cfg, drains)
    requires forall a | a in rewires :: a.Rewire?
    ensures AllAdmitted(cfg, repeats + left + rewires + drains) && AllAdmitted(cfg, left + drains)
    ensures Effects(cfg, w, repeats + left + rewires + drains) == Effects(cfg, w, left + drains)
  {
    EffectsConcat(cfg, w, repeats, left);
    var mid := Effects(cfg, w, left);
    RewiresDoNothing(cfg, mid, rewires);
    EffectsConcat(cfg, w, repeats + left, rewires);
    EffectsConcat(cfg, w, repeats + left + rewires, drains);
    EffectsConcat(cfg, w, left, drains);
  }

  lemma WholeRun(cfg: Config, o: Observed, plan: Plan)
    requires AllAdmitted(cfg, Work(plan)) && forall a | a in plan.rewire :: a.Rewire?
    ensures AllAdmitted(cfg, plan.converge) && AllAdmitted(cfg, plan.drain) && AllAdmitted(cfg, plan.converge + plan.drain)
    ensures Effects(cfg, o, Work(plan)) == Effects(cfg, o, plan.converge + plan.drain)
  {
    PartsAdmitted(cfg, plan, 0, 0);
    EffectsOfNothing(cfg, o);
    Finish(cfg, o, [], plan.converge, plan.rewire, plan.drain);
    assert [] + plan.converge == plan.converge;
  }

  // ----- any number of stops

  // Where a fleet is heading: the state after all of its plan.
  ghost predicate Heads(cfg: Config, o: Observed, goal: Observed) {
    && Orderly(o) && PlanOf(cfg, o).Ok?
    && AllAdmitted(cfg, Work(PlanOf(cfg, o).value))
    && Effects(cfg, o, Work(PlanOf(cfg, o).value)) == goal
  }

  ghost function Acts(cfg: Config, o: Observed): seq<Action>
    requires PlanOf(cfg, o).Ok?
  {
    Flat(PlanOf(cfg, o).value.Phases(), "")
  }

  // One hold run, in which no update lost its container.
  ghost predicate HoldRunFrom(cfg: Config, o: Observed, w: Observed, script: seq<Outcome>) {
    && PlanOf(cfg, o).Ok?
    && w == RunEnd(cfg, o, Acts(cfg, o), script, false)
    && !Next(Skip(script, Served(cfg, Acts(cfg, o), script))).FailedLost?
  }

  lemma RerunHeads(cfg: Config, o: Observed, w: Observed, script: seq<Outcome>, goal: Observed)
    requires cfg.Valid() && Heads(cfg, o, goal) && HoldRunFrom(cfg, o, w, script)
    ensures Heads(cfg, w, goal)
    ensures Served(cfg, Acts(cfg, o), script) == |Acts(cfg, o)| ==> w == goal
  {
    hide PlanOf, Effects, Orderly, RunEnd, Flat, Served;
    var plan := PlanOf(cfg, o).value;
    FlatUnscoped(plan);
    var acts := Acts(cfg, o);
    var k := Served(cfg, acts, script);
    HoldRunEnds(cfg, o, acts, script);
    assert acts[..|acts|] == acts;
    var j := if k < |acts| && TookEffect(cfg, acts[k], Next(Skip(script, k))) then k + 1 else k;
    Confluence(cfg, o, plan, j);
  }

  ghost predicate Reruns(cfg: Config, ws: seq<Observed>, scripts: seq<seq<Outcome>>) {
    |ws| == |scripts| + 1 && forall i | 0 <= i < |scripts| :: HoldRunFrom(cfg, ws[i], ws[i + 1], scripts[i])
  }

  // However often a run stops, cleanly or not, and is started again: as soon as one gets
  // through the fleet is where the first plan, carried out without a stop, would have left it.
  lemma {:induction false} RerunsEndAlike(cfg: Config, ws: seq<Observed>, scripts: seq<seq<Outcome>>, goal: Observed)
    requires cfg.Valid() && Reruns(cfg, ws, scripts) && Heads(cfg, ws[0], goal)
    ensures Heads(cfg, ws[|scripts|], goal)
    ensures scripts != [] ==>
              var o, script := ws[|scripts| - 1], scripts[|scripts| - 1];
              PlanOf(cfg, o).Ok? && (Served(cfg, Acts(cfg, o), script) == |Acts(cfg, o)| ==> ws[|scripts|] == goal)
  {
    hide Heads, HoldRunFrom, Served, PlanOf;
    if scripts != [] {
      var n := |scripts| - 1;
      RerunsEndAlike(cfg, ws[..n + 1], scripts[..n], goal);
      assert ws[..n + 1][n] == ws[n];
      RerunHeads(cfg, ws[n], ws[n + 1], scripts[n], goal);
      HeadsPlanned(cfg, ws[n], goal);
    }
  }

  lemma HeadsPlanned(cfg: Config, o: Observed, goal: Observed)
    requires Heads(cfg, o, goal)
    ensures PlanOf(cfg, o).Ok?
  {
  }
}

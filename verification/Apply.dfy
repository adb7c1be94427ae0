// fleet/apply/apply.go: the phased executor, against a fleet in which any command may
// fail, leave nothing, leave its whole effect, or lose the container it recreates.
module Apply {
  import opened Wrappers
  import opened Fleet
  import opened Schedule
  import opened Plan
  import opened World
  import Override

  datatype Outcome = Done | FailedClean | FailedDirty | FailedLost

  datatype Options = Options(rollback: bool, scope: string)

  datatype RunResult = RunResult(applied: seq<Action>, failed: Option<Action>, pending: seq<Action>, warnings: seq<Warning>)

  predicate InScope(a: Action, scope: string) {
    || scope == ""
    || ((a.OnReplica() || a.Rewire?) && a.backend == scope)
    || (!a.OnReplica() && a.service == scope)
  }

  function Scoped(acts: seq<Action>, scope: string): seq<Action> {
    if acts == [] then []
    else Scoped(acts[..|acts| - 1], scope) + if InScope(acts[|acts| - 1], scope) then [acts[|acts| - 1]] else []
  }

  function Flat(phases: seq<Phase>, scope: string): seq<Action> {
    if phases == [] then []
    else Flat(phases[..|phases| - 1], scope) + Scoped(phases[|phases| - 1].actions, scope)
  }

  lemma {:induction false} ScopedConcat(a: seq<Action>, b: seq<Action>, scope: string)
    ensures Scoped(a + b, scope) == Scoped(a, scope) + Scoped(b, scope)
  {
    if b == [] {
      assert a + b == a;
    } else {
      var last := b[|b| - 1];
      assert (a + b)[..|a + b| - 1] == a + b[..|b| - 1] && (a + b)[|a + b| - 1] == last;
      ScopedConcat(a, b[..|b| - 1], scope);
    }
  }

  lemma FlatIsScoped(p: Plan, scope: string)
    ensures Flat(p.Phases(), scope) == Scoped(p.converge + p.rewire + p.drain, scope)
  {
    var phases := p.Phases();
    assert phases[..2][..1][..0] == [] && phases[..2][..1] == [phases[0]] && phases[..2] == [phases[0], phases[1]];
    assert Flat(phases[..2][..1], scope) == Scoped(p.converge, scope);
    assert Flat(phases[..2], scope) == Scoped(p.converge, scope) + Scoped(p.rewire, scope);
    ScopedConcat(p.converge, p.rewire, scope);
    ScopedConcat(p.converge + p.rewire, p.drain, scope);
  }

  // The action carries this name, of a backend or of a service.
  ghost predicate Carries(a: Action, name: string) {
    match a
    case PlaceReplica(b, _, _, _, _) => b == name
    case UpdateReplica(b, _, _, _, _, _) => b == name
    case RemoveReplica(b, _, _, _) => b == name
    case DeployService(s, _, _) => s == name
    case UpdateService(s, _, _, _) => s == name
    case Rewire(s, b, _, _) => s == name || b == name
  }

  // done has the actions of all that carry the scope's name, in their order; at says where.
  ghost predicate Selected(all: seq<Action>, done: seq<Action>, at: seq<nat>, scope: string) {
    && |at| == |done|
    && (forall i, j | 0 <= i < j < |at| :: at[i] < at[j])
    && (forall i | 0 <= i < |at| :: at[i] < |all| && done[i] == all[at[i]])
    && (forall k | 0 <= k < |all| :: k in at <==> scope == "" || Carries(all[k], scope))
  }

  lemma SelectedNext(all: seq<Action>, done: seq<Action>, at: seq<nat>, scope: string)
    requires all != [] && Selected(all[..|all| - 1], done, at, scope)
    ensures var n := |all| - 1;
            if scope == "" || Carries(all[n], scope) then Selected(all, done + [all[n]], at + [n], scope)
            else Selected(all, done, at, scope)
  {
    hide Carries;
    var n := |all| - 1;
    var front := all[..n];
    assert forall k | 0 <= k < n :: front[k] == all[k];
    assert n !in at;
    assert forall k :: k in at + [n] <==> k in at || k == n;
  }

  lemma {:induction false} ScopedSelected(all: seq<Action>, scope: string) returns (at: seq<nat>)
    ensures Selected(all, Scoped(all, scope), at, scope)
  {
    at := [];
    if all != [] {
      var front, last := all[..|all| - 1], all[|all| - 1];
      at := ScopedSelected(front, scope);
      SelectedNext(all, Scoped(front, scope), at, scope);
      hide Selected;
      assert InScope(last, scope) <==> scope == "" || Carries(last, scope);
      if InScope(last, scope) {
        at := at + [|all| - 1];
      } else {
        assert Scoped(front, scope) + [] == Scoped(front, scope);
      }
    }
  }

  // ----- one command

  function Next(script: seq<Outcome>): Outcome {
    if script == [] then Done else script[0]
  }

  function Rest(script: seq<Outcome>): seq<Outcome> {
    if script == [] then [] else script[1..]
  }

  predicate Succeeds(cfg: Config, a: Action, oc: Outcome) {
    Admitted(cfg, a) && oc.Done?
  }

  // What is left behind by an action, whatever it returned. A lost container gives its
  // memory back.
  function Attempt(cfg: Config, o: Observed, a: Action, oc: Outcome): Observed {
    if !Admitted(cfg, a) then o
    else
      match oc
      case Done => Effect(cfg, o, a)
      case FailedClean => o
      case FailedDirty => Effect(cfg, o, a)
      case FailedLost =>
        if a.UpdateReplica? then
          o.(reps := o.reps - {a.Target()}, free := Charged(o.free, GpuRef(a.host, a.gpu), -NeedAt(cfg, a.backend)))
        else if a.DeployService? || a.UpdateService? then
          Down(o, a.service, a.host)
        else
          o
  }

  // How many actions a run gets through.
  function Served(cfg: Config, acts: seq<Action>, script: seq<Outcome>): (k: nat)
    ensures k <= |acts|
    ensures AllAdmitted(cfg, acts[..k])
  {
    if acts != [] && Succeeds(cfg, acts[0], Next(script)) then
      var k := 1 + Served(cfg, acts[1..], Rest(script));
      assert acts[..k] == [acts[0]] + acts[1..][..k - 1];
      k
    else 0
  }

  function Skip(script: seq<Outcome>, k: nat): seq<Outcome> {
    if k <= |script| then script[k..] else []
  }

  lemma ServedFrom(cfg: Config, acts: seq<Action>, script: seq<Outcome>, i: nat)
    requires i < |acts|
    ensures var s := Skip(script, i);
            && Rest(s) == Skip(script, i + 1)
            && Served(cfg, acts[i..], s)
               == if Succeeds(cfg, acts[i], Next(s)) then 1 + Served(cfg, acts[i + 1..], Rest(s)) else 0
  {
    assert acts[i..][0] == acts[i] && acts[i..][1..] == acts[i + 1..];
  }

  // The action a run stops at did not succeed.
  lemma {:induction false} NotServed(cfg: Config, acts: seq<Action>, script: seq<Outcome>)
    requires Served(cfg, acts, script) < |acts|
    ensures var k := Served(cfg, acts, script); !Succeeds(cfg, acts[k], Next(Skip(script, k)))
  {
    if Succeeds(cfg, acts[0], Next(script)) {
      NotServed(cfg, acts[1..], Rest(script));
      var j := Served(cfg, acts[1..], Rest(script));
      assert Skip(Rest(script), j) == Skip(script, j + 1);
    }
  }

  // ----- rollback

  function Removal(a: Action): Action
    requires a.OnReplica()
  {
    RemoveReplica(a.backend, a.replica, a.host, a.gpu)
  }

  function Undo(cfg: Config, o: Observed, applied: seq<Action>, script: seq<Outcome>): Observed
    decreases |applied|
  {
    if applied == [] then o
    else
      var a := applied[|applied| - 1];
      if a.PlaceReplica? || a.UpdateReplica? then
        Undo(cfg, Attempt(cfg, o, Removal(a), Next(script)), applied[..|applied| - 1], Rest(script))
      else
        Undo(cfg, o, applied[..|applied| - 1], script)
  }

  function CountUndone(applied: seq<Action>): nat {
    if applied == [] then 0
    else (if applied[0].PlaceReplica? || applied[0].UpdateReplica? then 1 else 0) + CountUndone(applied[1..])
  }

  // From base on, the commands remove what was placed or updated, the latest first: each
  // comes after those of the later ones.
  ghost predicate UndoneBy(applied: seq<Action>, issued: seq<Action>, base: nat) {
    && |issued| == base + CountUndone(applied)
    && forall i | 0 <= i < |applied| && (applied[i].PlaceReplica? || applied[i].UpdateReplica?) ::
         && base + CountUndone(applied[i + 1..]) < |issued|
         && issued[base + CountUndone(applied[i + 1..])]
            == RemoveReplica(applied[i].backend, applied[i].replica, applied[i].host, applied[i].gpu)
  }

  // The same of the part from the i-th action on.
  ghost predicate UndoneFrom(applied: seq<Action>, issued: seq<Action>, base: nat, i: nat)
    requires i <= |applied|
  {
    && |issued| == base + CountUndone(applied[i..])
    && forall j | i <= j < |applied| && (applied[j].PlaceReplica? || applied[j].UpdateReplica?) ::
         && base + CountUndone(applied[j + 1..]) < |issued|
         && issued[base + CountUndone(applied[j + 1..])]
            == RemoveReplica(applied[j].backend, applied[j].replica, applied[j].host, applied[j].gpu)
  }

  lemma UndoneNext(applied: seq<Action>, issued: seq<Action>, base: nat, i: nat, issued': seq<Action>)
    requires 0 < i <= |applied| && UndoneFrom(applied, issued, base, i)
    requires var a := applied[i - 1];
             issued' == if a.PlaceReplica? || a.UpdateReplica? then issued + [RemoveReplica(a.backend, a.replica, a.host, a.gpu)] else issued
    ensures UndoneFrom(applied, issued', base, i - 1)
  {
    assert applied[i - 1..][0] == applied[i - 1] && applied[i - 1..][1..] == applied[i..];
  }

  lemma UndoneStart(applied: seq<Action>, issued: seq<Action>)
    ensures UndoneFrom(applied, issued, |issued|, |applied|)
  {
    assert applied[|applied|..] == [];
  }

  lemma UndoneAll(applied: seq<Action>, issued: seq<Action>, base: nat)
    requires UndoneFrom(applied, issued, base, 0)
    ensures UndoneBy(applied, issued, base)
  {
    assert applied[0..] == applied;
  }

  // How the i-th command of the run ends.
  function OutcomeAt(script: seq<Outcome>, i: nat): Outcome {
    if i < |script| then script[i] else Done
  }

  ghost predicate AllSucceed(cfg: Config, acts: seq<Action>, script: seq<Outcome>, n: nat) {
    n <= |acts| && forall i | 0 <= i < n :: Succeeds(cfg, acts[i], OutcomeAt(script, i))
  }

  lemma SucceedOn(cfg: Config, acts: seq<Action>, script: seq<Outcome>, n: nat)
    requires AllSucceed(cfg, acts, script, n) && n < |acts| && Succeeds(cfg, acts[n], OutcomeAt(script, n))
    ensures AllSucceed(cfg, acts, script, n + 1)
  {
  }

  // What the executor accepts: a backend or service that is declared, at a tag of the
  // pattern; a service may have none.
  ghost predicate Accepted(cfg: Config, a: Action) {
    match a
    case PlaceReplica(b, _, _, _, tag) => b in cfg.backends && Override.SafeTag(tag)
    case UpdateReplica(b, _, _, _, tag, _) => b in cfg.backends && Override.SafeTag(tag)
    case RemoveReplica(_, _, _, _) => true
    case DeployService(s, _, tag) => s in cfg.services && (tag == "" || Override.SafeTag(tag))
    case UpdateService(s, _, tag, _) => s in cfg.services && (tag == "" || Override.SafeTag(tag))
    case Rewire(_, _, _, _) => true
  }

  // The result: the actions that carry the scope's name, in the plan's order; those that
  // succeeded, the first that did not, and the rest.
  ghost predicate Reports(cfg: Config, p: Plan, opts: Options, script: seq<Outcome>, res: RunResult) {
    var reached := res.applied + (if res.failed.Some? then [res.failed.value] else []);
    && (exists at :: Selected(p.converge + p.rewire + p.drain, reached + res.pending, at, opts.scope))
    && (forall i | 0 <= i < |res.applied| :: Accepted(cfg, res.applied[i]) && OutcomeAt(script, i) == Done)
    && (if res.failed.Some? then !(Accepted(cfg, res.failed.value) && OutcomeAt(script, |res.applied|) == Done) else res.pending == [])
    && res.warnings == p.warnings
  }

  // The commands: those actions up to the one that failed, and then a rollback's removals.
  ghost predicate Issues(opts: Options, before: seq<Action>, after: seq<Action>, res: RunResult) {
    var reached := res.applied + (if res.failed.Some? then [res.failed.value] else []);
    if res.failed.Some? && opts.rollback then before + reached <= after && UndoneBy(res.applied, after, |before + reached|)
    else after == before + reached
  }

  lemma ReportStop(cfg: Config, p: Plan, opts: Options, script: seq<Outcome>, actions: seq<Action>, i: nat)
    requires actions == Scoped(p.converge + p.rewire + p.drain, opts.scope) && i < |actions|
    requires AllSucceed(cfg, actions, script, i) && !Succeeds(cfg, actions[i], OutcomeAt(script, i))
    ensures Reports(cfg, p, opts, script, RunResult(actions[..i], Some(actions[i]), actions[i + 1..], p.warnings))
  {
    var at := ScopedSelected(p.converge + p.rewire + p.drain, opts.scope);
    hide Selected, Scoped;
    assert actions[..i] + [actions[i]] + actions[i + 1..] == actions;
  }

  lemma ReportDone(cfg: Config, p: Plan, opts: Options, script: seq<Outcome>, actions: seq<Action>)
    requires actions == Scoped(p.converge + p.rewire + p.drain, opts.scope) && AllSucceed(cfg, actions, script, |actions|)
    ensures Reports(cfg, p, opts, script, RunResult(actions[..|actions|], None, [], p.warnings))
  {
    var at := ScopedSelected(p.converge + p.rewire + p.drain, opts.scope);
    hide Selected, Scoped;
    assert actions[..|actions|] + [] + [] == actions;
  }

  lemma IssuedAtStop(opts: Options, before: seq<Action>, stopped: seq<Action>, after: seq<Action>, res: RunResult)
    requires res.failed.Some? && stopped == before + res.applied + [res.failed.value]
    requires if opts.rollback then stopped <= after && UndoneBy(res.applied, after, |stopped|) else after == stopped
    ensures Issues(opts, before, after, res)
  {
    hide UndoneBy;
    assert stopped == before + (res.applied + [res.failed.value]);
  }

  lemma IssuedAtEnd(opts: Options, before: seq<Action>, after: seq<Action>, res: RunResult)
    requires res.failed.None? && after == before + res.applied
    ensures Issues(opts, before, after, res)
  {
    assert res.applied + [] == res.applied;
  }

  // Where a run ends.
  ghost function RunEnd(cfg: Config, o: Observed, acts: seq<Action>, script: seq<Outcome>, rollback: bool): Observed {
    var k := Served(cfg, acts, script);
    var reached := Effects(cfg, o, acts[..k]);
    if k == |acts| then reached
    else
      var failed := Attempt(cfg, reached, acts[k], Next(Skip(script, k)));
      if rollback then Undo(cfg, failed, acts[..k], Skip(script, k + 1)) else failed
  }

  lemma NextIsOutcome(script: seq<Outcome>, i: nat)
    ensures Next(Skip(script, i)) == OutcomeAt(script, i)
  {
  }

  lemma NothingServed(cfg: Config, o: Observed, acts: seq<Action>, script: seq<Outcome>)
    ensures Skip(script, 0) == script && acts[0..] == acts && Effects(cfg, o, []) == o
  {
  }

  // ----- the executor

  method Flatten(phases: seq<Phase>, scope: string) returns (actions: seq<Action>)
    ensures actions == Flat(phases, scope)
  {
    actions := [];
    for i := 0 to |phases|
      invariant actions == Flat(phases[..i], scope)
    {
      var acts := phases[i].actions;
      ghost var before := actions;
      for j := 0 to |acts|
        invariant actions == before + Scoped(acts[..j], scope)
      {
        assert acts[..j + 1][..j] == acts[..j];
        if InScope(acts[j], scope) {
          actions := actions + [acts[j]];
        }
      }
      assert acts[..|acts|] == acts && phases[..i + 1][..i] == phases[..i];
    }
    assert phases[..|phases|] == phases;
  }

  class Executor {
    const cfg: Config
    var world: Observed
    var script: seq<Outcome>
    ghost var issued: seq<Action>  // every command so far

    constructor (cfg: Config, world: Observed, script: seq<Outcome>)
      ensures this.cfg == cfg && this.world == world && this.script == script && issued == []
    {
      this.cfg, this.world, this.script, this.issued := cfg, world, script, [];
    }

    method Dispatch(a: Action) returns (ok: bool)
      modifies this
      ensures ok <==> Succeeds(cfg, a, Next(old(script)))
      ensures world == Attempt(cfg, old(world), a, Next(old(script)))
      ensures script == Rest(old(script)) && issued == old(issued) + [a]
    {
      issued := issued + [a];
      var oc := Next(script);
      world := Attempt(cfg, world, a, oc);
      ok := Succeeds(cfg, a, oc);
      script := Rest(script);
    }

    // Undoes placements and updates, latest first; nothing else is undone.
    method Rollback(applied: seq<Action>)
      modifies this
      ensures world == Undo(cfg, old(world), applied, old(script))
      ensures old(issued) <= issued && UndoneBy(applied, issued, |old(issued)|)
    {
      hide UndoneFrom, UndoneBy;
      var i := |applied|;
      assert applied[..i] == applied;
      UndoneStart(applied, issued);
      while i > 0
        invariant 0 <= i <= |applied|
        invariant old(issued) <= issued && UndoneFrom(applied, issued, |old(issued)|, i)
        invariant Undo(cfg, world, applied[..i], script) == Undo(cfg, old(world), applied, old(script))
      {
        assert applied[..i][..i - 1] == applied[..i - 1];
        i := i - 1;
        var a := applied[i];
        ghost var before := issued;
        if a.PlaceReplica? || a.UpdateReplica? {
          var _ := Dispatch(Removal(a));
        }
        UndoneNext(applied, before, |old(issued)|, i + 1, issued);
      }
      UndoneAll(applied, issued, |old(issued)|);
    }

    method Run(p: Plan, opts: Options) returns (res: RunResult)
      modifies this
      ensures var acts := Flat(p.Phases(), opts.scope);
              var k := Served(cfg, acts, old(script));
              && res.applied == acts[..k]
              && res.failed == (if k < |acts| then Some(acts[k]) else None)
              && res.pending == (if k < |acts| then acts[k + 1..] else [])
              && res.warnings == p.warnings
              && world == RunEnd(cfg, old(world), acts, old(script), opts.rollback)
      // What is dispatched: the actions that carry the scope's name, in the plan's order,
      // up to the first that does not succeed, and then the removals of a rollback.
      ensures Reports(cfg, p, opts, old(script), res)
      ensures Issues(opts, old(issued), issued, res)
    {
      hide Selected, UndoneBy, InScope, Reports, Issues;
      hide Flat, Undo, Served, Skip, Rest, Effect, Effects;
      var actions := Flatten(p.Phases(), opts.scope);
      FlatIsScoped(p, opts.scope);
      var applied: seq<Action> := [];
      NothingServed(cfg, world, actions, script);
      for i := 0 to |actions|
        invariant applied == actions[..i] && AllAdmitted(cfg, applied)
        invariant world == Effects(cfg, old(world), applied)
        invariant script == Skip(old(script), i)
        invariant issued == old(issued) + applied
        invariant AllSucceed(cfg, actions, old(script), i)
        invariant Served(cfg, actions, old(script)) == i + Served(cfg, actions[i..], script)
      {
        var a := actions[i];
        ServedFrom(cfg, actions, old(script), i);
        NextIsOutcome(old(script), i);
        var ok := Dispatch(a);
        if !ok {
          ghost var before := issued;
          if opts.rollback {
            Rollback(applied);
          }
          res := RunResult(applied, Some(a), actions[i + 1..], p.warnings);
          ReportStop(cfg, p, opts, old(script), actions, i);
          IssuedAtStop(opts, old(issued), before, issued, res);
          return;
        }
        SucceedOn(cfg, actions, old(script), i);
        OneMore(cfg, old(world), actions, i);
        applied := applied + [a];
      }
      res := RunResult(applied, None, [], p.warnings);
      ReportDone(cfg, p, opts, old(script), actions);
      IssuedAtEnd(opts, old(issued), issued, res);
    }
  }
}

// What each action of a plan does to the fleet (fleet/apply/exec.go), as the next
// observation reports it.
module World {
  import opened Fleet
  import opened Schedule
  import opened Plan
  import opened Observe
  import Override

  function Charged(free: map<GpuRef, int>, ref: GpuRef, amount: int): map<GpuRef, int> {
    if ref in free then free[ref := free[ref] - amount] else free
  }

  function NeedAt(cfg: Config, backend: string): int {
    if backend in cfg.backends then NeedOf(cfg.backends[backend]) else 0
  }

  // The labels and image of a replica's container after compose up with its override.
  function Stamp(cfg: Config, id: Id, ref: GpuRef, tag: string): ObsReplica
    requires id.backend in cfg.backends
  {
    var template := cfg.backends[id.backend].service;
    ObsReplica(ref, Override.TagOf(Override.ImageRef(cfg.Repo(template), tag)),
               Override.ReplicaHash(Override.BaseName(cfg.compose), template, id.backend, id.replica, ref.idx, tag))
  }

  function StampService(cfg: Config, name: string, tag: string): ObsService
    requires name in cfg.services
  {
    var template := cfg.services[name].service;
    ObsService(Override.TagOf(if tag == "" then cfg.Bare(template) else Override.ImageRef(cfg.Repo(template), tag)),
               Override.ServiceHash(Override.BaseName(cfg.compose), template, name, tag))
  }

  // compose up on the service's own host; containers on other hosts stay.
  function Up(cfg: Config, o: Observed, name: string, host: string, tag: string): Observed
    requires name in cfg.services
  {
    var hosted := o.hosted[SvcAt(name, host) := StampService(cfg, name, tag)];
    o.(hosted := hosted, svcs := See(o.svcs, hosted, name))
  }

  // The container there is gone.
  function Down(o: Observed, name: string, host: string): Observed {
    var hosted := o.hosted - {SvcAt(name, host)};
    o.(hosted := hosted, svcs := See(o.svcs, hosted, name))
  }

  // The executor's own guards; an action that does not pass them fails without effect.
  predicate Admitted(cfg: Config, a: Action) {
    match a
    case PlaceReplica(backend, _, _, _, tag) => backend in cfg.backends && Override.SafeTag(tag)
    case UpdateReplica(backend, _, _, _, tag, _) => backend in cfg.backends && Override.SafeTag(tag)
    case DeployService(service, _, tag) => service in cfg.services && (tag == "" || Override.SafeTag(tag))
    case UpdateService(service, _, tag, _) => service in cfg.services && (tag == "" || Override.SafeTag(tag))
    case RemoveReplica(_, _, _, _) => true
    case Rewire(_, _, _, _) => true
  }

  // A placed replica takes exactly its need; a removed one gives it back. An update
  // recreates the container on the GPU it names. The wiring driver is a stub, so a
  // rewire changes nothing that is observed.
  function Effect(cfg: Config, o: Observed, a: Action): Observed
    requires Admitted(cfg, a)
  {
    match a
    case PlaceReplica(backend, r, host, gpu, tag) =>
      o.(reps := o.reps[Id(backend, r) := Stamp(cfg, Id(backend, r), GpuRef(host, gpu), tag)],
         free := Charged(o.free, GpuRef(host, gpu), NeedAt(cfg, backend)))
    case UpdateReplica(backend, r, host, gpu, tag, _) =>
      o.(reps := o.reps[Id(backend, r) := Stamp(cfg, Id(backend, r), GpuRef(host, gpu), tag)])
    case RemoveReplica(backend, r, host, gpu) =>
      o.(reps := o.reps - {Id(backend, r)}, free := Charged(o.free, GpuRef(host, gpu), -NeedAt(cfg, backend)))
    case DeployService(service, host, tag) => Up(cfg, o, service, host, tag)
    case UpdateService(service, host, tag, _) => Up(cfg, o, service, host, tag)
    case Rewire(_, _, _, _) => o
  }

  ghost predicate AllAdmitted(cfg: Config, acts: seq<Action>) {
    forall a | a in acts :: Admitted(cfg, a)
  }

  function Effects(cfg: Config, o: Observed, acts: seq<Action>): Observed
    requires AllAdmitted(cfg, acts)
    decreases |acts|
  {
    if acts == [] then o else Effects(cfg, Effect(cfg, o, acts[0]), acts[1..])
  }

  lemma {:induction false} EffectsConcat(cfg: Config, o: Observed, a: seq<Action>, b: seq<Action>)
    requires AllAdmitted(cfg, a) && AllAdmitted(cfg, b)
    ensures AllAdmitted(cfg, a + b)
    ensures Effects(cfg, o, a + b) == Effects(cfg, Effects(cfg, o, a), b)
    decreases |a|
  {
    if a == [] {
      assert a + b == b;
    } else {
      assert (a + b)[1..] == a[1..] + b;
      EffectsConcat(cfg, Effect(cfg, o, a[0]), a[1..], b);
    }
  }

  lemma OneMore(cfg: Config, o: Observed, acts: seq<Action>, k: nat)
    requires k < |acts| && AllAdmitted(cfg, acts[..k]) && Admitted(cfg, acts[k])
    ensures AllAdmitted(cfg, acts[..k + 1])
    ensures Effects(cfg, o, acts[..k + 1]) == Effect(cfg, Effects(cfg, o, acts[..k]), acts[k])
  {
    var reached := Effects(cfg, o, acts[..k]);
    assert acts[..k + 1] == acts[..k] + [acts[k]];
    assert AllAdmitted(cfg, [acts[k]]) && Effects(cfg, reached, [acts[k]]) == Effect(cfg, reached, acts[k]);
    EffectsConcat(cfg, o, acts[..k], [acts[k]]);
  }

  // What the executor stamps is what the planner asks for.
  lemma StampIsFresh(cfg: Config, id: Id, ref: GpuRef)
    requires id.backend in cfg.backends && Override.SafeTag(cfg.backends[id.backend].imageTag)
    ensures !Stale(cfg, id, Stamp(cfg, id, ref, cfg.backends[id.backend].imageTag))
  {
    var b := cfg.backends[id.backend];
    Override.TagRoundTrip(cfg.Repo(b.service), b.imageTag);
    Override.StampedHashIsDiffedHash(cfg.compose, b.service, id.backend, id.replica, ref.idx, "", b.imageTag);
  }

  // Whether the observer reads the tag of a service back from its image: it always does
  // for a tag, and for none exactly if the bare image has none either.
  predicate ReadsBack(cfg: Config, name: string)
    requires name in cfg.services
  {
    cfg.services[name].imageTag != "" || Override.TagOf(cfg.Bare(cfg.services[name].service)) == ""
  }

  lemma ServiceStampIsFresh(cfg: Config, err: set<string>, svcs: map<string, ObsService>, name: string)
    requires name in cfg.services && name in svcs && cfg.services[name].host !in err
    requires cfg.services[name].imageTag == "" || Override.SafeTag(cfg.services[name].imageTag)
    requires svcs[name] == StampService(cfg, name, cfg.services[name].imageTag)
    ensures ServiceChange(cfg, err, svcs, name) == [] <==> ReadsBack(cfg, name)
  {
    var s := cfg.services[name];
    if s.imageTag != "" {
      Override.TagRoundTrip(cfg.Repo(s.service), s.imageTag);
    }
    Override.StampedHashIsDiffedHash(cfg.compose, s.service, "", 0, 0, name, s.imageTag);
  }
}

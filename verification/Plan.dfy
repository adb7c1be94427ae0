// fleet/plan/plan.go: the diff of a declared fleet against an observed one.
module Plan {
  import opened Wrappers
  import opened Order
  import opened Fleet
  import opened Schedule
  import opened Packing
  import opened Packer
  import Override

  datatype Action =
    | PlaceReplica(backend: string, replica: int, host: string, gpu: int, tag: string)
    | UpdateReplica(backend: string, replica: int, host: string, gpu: int, tag: string, oldTag: string)
    | RemoveReplica(backend: string, replica: int, host: string, gpu: int)
    | DeployService(service: string, host: string, tag: string)
    | UpdateService(service: string, host: string, tag: string, oldTag: string)
    | Rewire(service: string, backend: string, host: string, endpoints: seq<string>)
  {
    // The replica an action creates, recreates or removes.
    predicate OnReplica() { PlaceReplica? || UpdateReplica? || RemoveReplica? }

    function Target(): Id
      requires OnReplica()
    {
      Id(backend, replica)
    }
  }

  datatype Warning = BackendUnplanned(backend: string) | ServiceUnplanned(service: string, host: string)

  datatype Phase = Phase(name: string, actions: seq<Action>)

  // The three phases of assemble, by name.
  datatype Plan = Plan(converge: seq<Action>, rewire: seq<Action>, drain: seq<Action>, warnings: seq<Warning>)
  {
    function Phases(): seq<Phase> {
      [Phase("converge", converge), Phase("rewire", rewire), Phase("drain", drain)]
    }
  }

  // ----- which backends are planned

  function PinHosts(pins: seq<Pin>): seq<string> {
    if pins == [] then []
    else (if pins[0].Pin? then [pins[0].host] else []) + PinHosts(pins[1..])
  }

  function BackendHosts(b: Backend): seq<string> {
    if b.auto then b.pool else PinHosts(b.pins)
  }

  predicate Blocked(cfg: Config, err: set<string>, name: string) {
    && name in cfg.backends
    && GpuScheduled(cfg.backends[name])
    && exists h | h in BackendHosts(cfg.backends[name]) :: h in err
  }

  predicate Planned(cfg: Config, err: set<string>, name: string) {
    name in cfg.backends && GpuScheduled(cfg.backends[name]) && !Blocked(cfg, err, name)
  }

  function SchedBackends(cfg: Config, err: set<string>): map<string, Backend> {
    map n | n in cfg.backends && !Blocked(cfg, err, n) :: cfg.backends[n]
  }

  function BackendWarnings(cfg: Config, err: set<string>, names: seq<string>): seq<Warning> {
    if names == [] then []
    else (if Blocked(cfg, err, names[0]) then [BackendUnplanned(names[0])] else []) + BackendWarnings(cfg, err, names[1..])
  }

  ghost function Names<V>(m: map<string, V>): seq<string> {
    OrdersAreStrictTotal();
    Sorted(m.Keys, StringLess)
  }

  // ----- kept replicas and updates

  predicate Wanted(cfg: Config, err: set<string>, id: Id) {
    Planned(cfg, err, id.backend) && 0 <= id.replica < cfg.backends[id.backend].replicas
  }

  ghost function Kept(cfg: Config, err: set<string>, reps: map<Id, ObsReplica>): map<Id, GpuRef> {
    map id | id in reps && Wanted(cfg, err, id) :: reps[id].ref
  }

  function Replicas(b: Backend): nat {
    if b.replicas < 0 then 0 else b.replicas
  }

  function BackendSlots(name: string, b: Backend): seq<Id> {
    seq(Replicas(b), r => Id(name, r))
  }

  // Every wanted replica, in the order the planner visits them.
  function Slots(cfg: Config, err: set<string>, names: seq<string>): seq<Id> {
    if names == [] then
      []
    else
      var front := if Planned(cfg, err, names[0]) then BackendSlots(names[0], cfg.backends[names[0]]) else [];
      front + Slots(cfg, err, names[1..])
  }

  // A tag change, or a drifted override; an absent hash counts as matching.
  predicate Stale(cfg: Config, id: Id, r: ObsReplica)
    requires id.backend in cfg.backends
  {
    var b := cfg.backends[id.backend];
    || r.tag != b.imageTag
    || (r.hash != "" && r.hash != Override.ReplicaHash(cfg.compose, b.service, id.backend, id.replica, r.ref.idx, b.imageTag))
  }

  function UpdateOf(cfg: Config, id: Id, r: ObsReplica): seq<Action> {
    if id.backend in cfg.backends && Stale(cfg, id, r) then
      [UpdateReplica(id.backend, id.replica, r.ref.host, r.ref.idx, cfg.backends[id.backend].imageTag, r.tag)]
    else
      []
  }

  function Updates(cfg: Config, reps: map<Id, ObsReplica>, ids: seq<Id>): seq<Action> {
    if ids == [] then []
    else (if ids[0] in reps then UpdateOf(cfg, ids[0], reps[ids[0]]) else []) + Updates(cfg, reps, ids[1..])
  }

  // ----- placements

  function ImageTag(cfg: Config, backend: string): string {
    if backend in cfg.backends then cfg.backends[backend].imageTag else ""
  }

  function PlaceOf(cfg: Config, p: Placed): Action {
    PlaceReplica(p.id.backend, p.id.replica, p.ref.host, p.ref.idx, ImageTag(cfg, p.id.backend))
  }

  function Places(cfg: Config, kept: map<Id, GpuRef>, out: seq<Placed>): seq<Action> {
    if out == [] then []
    else (if out[0].id in kept then [] else [PlaceOf(cfg, out[0])]) + Places(cfg, kept, out[1..])
  }

  // ----- drains

  function Desired(cfg: Config, backend: string): int {
    if backend in cfg.backends then cfg.backends[backend].replicas else 0
  }

  predicate Extra(cfg: Config, err: set<string>, id: Id) {
    !Blocked(cfg, err, id.backend) && id.replica >= Desired(cfg, id.backend)
  }

  function Extras(cfg: Config, err: set<string>, reps: map<Id, ObsReplica>): set<Id> {
    set id | id in reps && Extra(cfg, err, id)
  }

  function Drains(reps: map<Id, ObsReplica>, ids: seq<Id>): seq<Action>
    requires forall id | id in ids :: id in reps
  {
    if ids == [] then []
    else [RemoveReplica(ids[0].backend, ids[0].replica, reps[ids[0]].ref.host, reps[ids[0]].ref.idx)] + Drains(reps, ids[1..])
  }

  ghost function DrainPhase(cfg: Config, err: set<string>, reps: map<Id, ObsReplica>): seq<Action> {
    OrdersAreStrictTotal();
    Drains(reps, Sorted(Extras(cfg, err, reps), IdLess))
  }

  // ----- services and rewires

  predicate OnService(a: Action) { a.DeployService? || a.UpdateService? }

  function ServiceChange(cfg: Config, err: set<string>, svcs: map<string, ObsService>, name: string): seq<Action>
    requires name in cfg.services
  {
    var s := cfg.services[name];
    if s.host in err then
      []
    else if name !in svcs then
      [DeployService(name, s.host, s.imageTag)]
    else
      var cur := svcs[name];
      if cur.tag != s.imageTag
         || (cur.hash != "" && cur.hash != Override.ServiceHash(cfg.compose, s.service, name, s.imageTag)) then
        [UpdateService(name, s.host, s.imageTag, cur.tag)]
      else
        []
  }

  function ServiceChanges(cfg: Config, err: set<string>, svcs: map<string, ObsService>, names: seq<string>): seq<Action>
    requires forall n | n in names :: n in cfg.services
  {
    if names == [] then [] else ServiceChange(cfg, err, svcs, names[0]) + ServiceChanges(cfg, err, svcs, names[1..])
  }

  function HostsOf(ps: seq<Placed>): seq<string> {
    seq(|ps|, i requires 0 <= i < |ps| => ps[i].ref.host)
  }

  function UseRewires(cfg: Config, err: set<string>, name: string, host: string, uses: seq<string>, svcChanged: bool,
                      changed: set<string>, out: seq<Placed>): seq<Action>
  {
    if uses == [] then
      []
    else
      var front := if !Blocked(cfg, err, uses[0]) && (svcChanged || uses[0] in changed)
                   then [Rewire(name, uses[0], host, HostsOf(Of(out, uses[0])))]
                   else [];
      front + UseRewires(cfg, err, name, host, uses[1..], svcChanged, changed, out)
  }

  function ServiceRewires(cfg: Config, err: set<string>, svcs: map<string, ObsService>, name: string, changed: set<string>, out: seq<Placed>): seq<Action>
    requires name in cfg.services
  {
    var s := cfg.services[name];
    if s.host in err then []
    else UseRewires(cfg, err, name, s.host, s.uses, ServiceChange(cfg, err, svcs, name) != [], changed, out)
  }

  function Rewires(cfg: Config, err: set<string>, svcs: map<string, ObsService>, names: seq<string>, changed: set<string>,
                   out: seq<Placed>): seq<Action>
    requires forall n | n in names :: n in cfg.services
  {
    if names == [] then []
    else ServiceRewires(cfg, err, svcs, names[0], changed, out) + Rewires(cfg, err, svcs, names[1..], changed, out)
  }

  function ServiceWarnings(cfg: Config, err: set<string>, names: seq<string>): seq<Warning>
    requires forall n | n in names :: n in cfg.services
  {
    if names == [] then
      []
    else
      var host := cfg.services[names[0]].host;
      (if host in err then [ServiceUnplanned(names[0], host)] else []) + ServiceWarnings(cfg, err, names[1..])
  }

  // Backends whose replicas the actions touch; they gate the rewires.
  function Touched(acts: seq<Action>): set<string> {
    set a | a in acts && a.OnReplica() :: a.backend
  }

  // ----- the plan

  ghost function Scheduled(cfg: Config, o: Observed): PackResult {
    PlanDeltaSpec(cfg.policy, SchedBackends(cfg, o.err), o.free, Kept(cfg, o.err, o.reps))
  }

  ghost function UpdatePhase(cfg: Config, err: set<string>, reps: map<Id, ObsReplica>): seq<Action> {
    Updates(cfg, reps, Slots(cfg, err, Names(cfg.backends)))
  }

  ghost function PlacePhase(cfg: Config, err: set<string>, reps: map<Id, ObsReplica>, out: seq<Placed>): seq<Action> {
    Places(cfg, Kept(cfg, err, reps), out)
  }

  ghost function ServicePhase(cfg: Config, err: set<string>, svcs: map<string, ObsService>): seq<Action> {
    ServiceChanges(cfg, err, svcs, Names(cfg.services))
  }

  ghost function PlanWith(cfg: Config, o: Observed, out: seq<Placed>): Plan {
    var services := Names(cfg.services);
    var replicas := UpdatePhase(cfg, o.err, o.reps) + PlacePhase(cfg, o.err, o.reps, out);
    var drain := DrainPhase(cfg, o.err, o.reps);
    Plan(replicas + ServiceChanges(cfg, o.err, o.svcs, services),
         Rewires(cfg, o.err, o.svcs, services, Touched(replicas + drain), out),
         drain,
         BackendWarnings(cfg, o.err, Names(cfg.backends)) + ServiceWarnings(cfg, o.err, services))
  }

  ghost function PlanOf(cfg: Config, o: Observed): Result<Plan, PackError> {
    match Scheduled(cfg, o)
    case Stuck(err) => Err(err)
    case Packed(out, _) => Ok(PlanWith(cfg, o, out))
  }
}

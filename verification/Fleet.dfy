// The declared fleet (fleet/config.go), what is observed of it
// (fleet/observe/observe.go), and the index the planner builds over both.
module Fleet {
  import opened Wrappers
  import opened Order

  // ----- configuration

  // A "host:index" pin as ParsePin reads it.
  datatype Pin = Pin(host: string, idx: int) | BadPin

  // placement.vram_min: unset, not a size, or the MiB that ParseMiB returns.
  datatype VramMin = NoVram | BadVram | Vram(mib: int)

  datatype Backend = Backend(service: string, imageTag: string, replicas: int, vramMin: VramMin,
                             auto: bool, pins: seq<Pin>, pool: seq<string>, policy: string)

  datatype Service = Service(service: string, host: string, imageTag: string, uses: seq<string>)

  // The image that the compose file names for a template: repos gives the repository that
  // a tag is put behind, bare the whole reference that it comes to with an empty tag.
  datatype Config = Config(compose: string, repos: map<string, string>, bare: map<string, string>, policy: string,
                           backends: map<string, Backend>, services: map<string, Service>)
  {
    // What fleet/config.go, validate, guarantees and the theorems rely on.
    ghost predicate Valid() {
      && (forall n | n in backends :: ValidBackend(backends[n]))
      && (forall n | n in services :: forall u | u in services[n].uses :: u in backends)
    }

    function Repo(template: string): string {
      if template in repos then repos[template] else template
    }

    function Bare(template: string): string {
      if template in bare then bare[template] else template
    }
  }

  ghost predicate ValidBackend(b: Backend) {
    && b.replicas >= 1
    && (b.auto || b.pins != [])
    && (b.pins != [] ==> b.replicas == |b.pins|)
  }

  // ----- observation

  datatype GpuState = GpuState(index: int, freeMiB: int)

  // A container with its dockrail labels read as the planner reads them: replica is
  // None when the label is not an integer, gpu is 0 in that case.
  datatype Container = Container(image: string, managed: bool, backend: string, replica: Option<int>,
                                 gpu: int, service: string, hash: string)

  datatype HostState = HostState(name: string, containers: seq<Container>, gpus: seq<GpuState>, err: string)

  // ----- identities

  datatype Id = Id(backend: string, replica: int)

  datatype GpuRef = GpuRef(host: string, idx: int)

  predicate IdLess(x: Id, y: Id) {
    StringLess(x.backend, y.backend) || (x.backend == y.backend && x.replica < y.replica)
  }

  predicate RefLess(x: GpuRef, y: GpuRef) {
    StringLess(x.host, y.host) || (x.host == y.host && x.idx < y.idx)
  }

  predicate IntLess(x: int, y: int) {
    x < y
  }

  lemma OrdersAreStrictTotal()
    ensures StrictTotal(StringLess) && StrictTotal(IntLess) && StrictTotal(IdLess) && StrictTotal(RefLess)
  {
    StringLessStrictTotal();
  }

  // ----- the index

  datatype ObsReplica = ObsReplica(ref: GpuRef, tag: string, hash: string)

  datatype ObsService = ObsService(tag: string, hash: string)

  datatype SvcAt = SvcAt(service: string, host: string)

  // err: unreachable hosts; reps and svcs: the managed containers by identity, as the
  // planner sees them; hosted: the services' containers on every host, of which it sees
  // one each; free: free MiB of every GPU on a reachable host.
  datatype Observed = Observed(err: set<string>, reps: map<Id, ObsReplica>, svcs: map<string, ObsService>,
                               hosted: map<SvcAt, ObsService>, free: map<GpuRef, int>)
}

// The index fleet/plan/plan.go builds over an observation before it plans.
module Observe {
  import opened Wrappers
  import opened Order
  import opened Fleet
  import Override

  predicate ForReplica(c: Container, id: Id) {
    c.managed && c.backend != "" && c.replica == Some(id.replica) && c.backend == id.backend
  }

  function ReadReplica(host: string, c: Container): ObsReplica {
    ObsReplica(GpuRef(host, c.gpu), Override.TagOf(c.image), c.hash)
  }

  function ReadService(c: Container): ObsService {
    ObsService(Override.TagOf(c.image), c.hash)
  }

  function AddContainer(o: Observed, host: string, c: Container): Observed {
    if !c.managed then o
    else if c.backend != "" then
      if c.replica.None? then o
      else o.(reps := o.reps[Id(c.backend, c.replica.value) := ReadReplica(host, c)])
    else if c.service != "" then
      o.(svcs := o.svcs[c.service := ReadService(c)], hosted := o.hosted[SvcAt(c.service, host) := ReadService(c)])
    else o
  }

  function AddContainers(o: Observed, host: string, cs: seq<Container>): Observed {
    if cs == [] then o else AddContainer(AddContainers(o, host, cs[..|cs| - 1]), host, cs[|cs| - 1])
  }

  function AddGpus(free: map<GpuRef, int>, host: string, gpus: seq<GpuState>): map<GpuRef, int> {
    if gpus == [] then free
    else
      var g := gpus[|gpus| - 1];
      AddGpus(free, host, gpus[..|gpus| - 1])[GpuRef(host, g.index) := g.freeMiB]
  }

  // Containers count even on a host in error; its GPUs do not.
  function AddHost(o: Observed, h: HostState): Observed {
    var o' := AddContainers(o, h.name, h.containers);
    if h.err != "" then o'.(err := o'.err + {h.name})
    else o'.(free := AddGpus(o'.free, h.name, h.gpus))
  }

  function Indexed(hosts: seq<HostState>): Observed {
    if hosts == [] then Observed({}, map[], map[], map[], map[])
    else AddHost(Indexed(hosts[..|hosts| - 1]), hosts[|hosts| - 1])
  }

  method Index(hosts: seq<HostState>) returns (o: Observed)
    ensures o == Indexed(hosts)
  {
    var err, reps, svcs, hosted, free := {}, map[], map[], map[], map[];
    for k := 0 to |hosts|
      invariant Observed(err, reps, svcs, hosted, free) == Indexed(hosts[..k])
    {
      var h := hosts[k];
      ghost var before := Observed(err, reps, svcs, hosted, free);
      for i := 0 to |h.containers|
        invariant Observed(err, reps, svcs, hosted, free) == AddContainers(before, h.name, h.containers[..i])
      {
        var c := h.containers[i];
        assert h.containers[..i + 1][..i] == h.containers[..i];
        if c.managed {
          if c.backend != "" {
            if c.replica.Some? {
              reps := reps[Id(c.backend, c.replica.value) := ReadReplica(h.name, c)];
            }
          } else if c.service != "" {
            svcs := svcs[c.service := ReadService(c)];
            hosted := hosted[SvcAt(c.service, h.name) := ReadService(c)];
          }
        }
      }
      assert h.containers[..|h.containers|] == h.containers;
      if h.err != "" {
        err := err + {h.name};
      } else {
        ghost var freeBefore := free;
        for i := 0 to |h.gpus|
          invariant free == AddGpus(freeBefore, h.name, h.gpus[..i])
        {
          free := free[GpuRef(h.name, h.gpus[i].index) := h.gpus[i].freeMiB];
          assert h.gpus[..i + 1][..i] == h.gpus[..i];
        }
        assert h.gpus[..|h.gpus|] == h.gpus;
      }
      assert hosts[..k + 1][..k] == hosts[..k];
    }
    assert hosts[..|hosts|] == hosts;
    return Observed(err, reps, svcs, hosted, free);
  }

  // ----- which container of a service is seen

  predicate OnHosts(hosted: map<SvcAt, ObsService>, name: string) {
    exists a :: a in hosted && a.service == name
  }

  predicate IsLast(hosted: map<SvcAt, ObsService>, a: SvcAt) {
    a in hosted && forall b | b in hosted && b.service == a.service :: b.host == a.host || StringLess(b.host, a.host)
  }

  lemma LastExists(hosted: map<SvcAt, ObsService>, name: string)
    requires OnHosts(hosted, name)
    ensures exists a :: IsLast(hosted, a) && a.service == name
    ensures forall a, b | IsLast(hosted, a) && IsLast(hosted, b) && a.service == b.service :: a == b
  {
    OrdersAreStrictTotal();
    var hosts := set a | a in hosted && a.service == name :: a.host;
    var a :| a in hosted && a.service == name;
    assert a.host in hosts;
    var after := (x: string, y: string) => StringLess(y, x);
    LeastExists(hosts, after);
    var h :| IsLeast(h, hosts, after);
    forall b | b in hosted && b.service == name ensures b.host == h || StringLess(b.host, h) {
      assert b.host in hosts;
    }
    assert IsLast(hosted, SvcAt(name, h));
  }

  // Hosts are listed in name order, so the one seen is on the last host by name.
  function Last(hosted: map<SvcAt, ObsService>, name: string): (a: SvcAt)
    requires OnHosts(hosted, name)
    ensures IsLast(hosted, a) && a.service == name
  {
    LastExists(hosted, name);
    var a :| a in hosted && IsLast(hosted, a) && a.service == name;
    a
  }

  lemma LastIs(hosted: map<SvcAt, ObsService>, a: SvcAt)
    requires IsLast(hosted, a)
    ensures OnHosts(hosted, a.service) && Last(hosted, a.service) == a
  {
    LastExists(hosted, a.service);
  }

  function See(svcs: map<string, ObsService>, hosted: map<SvcAt, ObsService>, name: string): map<string, ObsService> {
    if OnHosts(hosted, name) then svcs[name := hosted[Last(hosted, name)]] else svcs - {name}
  }

  // What is seen of this service is what its last host has.
  ghost predicate SeesLast(o: Observed, name: string) {
    && (name in o.svcs <==> OnHosts(o.hosted, name))
    && (name in o.svcs ==> o.svcs[name] == o.hosted[Last(o.hosted, name)])
  }

  ghost predicate Orderly(o: Observed) {
    forall name :: SeesLast(o, name)
  }

  ghost predicate HostsUpTo(o: Observed, name: string, host: string) {
    forall a | a in o.hosted && a.service == name :: a.host == host || StringLess(a.host, host)
  }

  // Observations are orderly: observe.go lists the hosts by name, each once.
  lemma {:induction false} ListingIsOrderly(hosts: seq<HostState>, name: string)
    requires forall i, j | 0 <= i < j < |hosts| :: StringLess(hosts[i].name, hosts[j].name)
    ensures SeesLast(Indexed(hosts), name)
    ensures hosts != [] ==> HostsUpTo(Indexed(hosts), name, hosts[|hosts| - 1].name)
  {
    if hosts != [] {
      var front, last := hosts[..|hosts| - 1], hosts[|hosts| - 1];
      ListingIsOrderly(front, name);
      OrdersAreStrictTotal();
      if front != [] {
        assert StringLess(hosts[|front| - 1].name, last.name);
      }
      ContainersOrderly(Indexed(front), last.name, last.containers, name);
    }
  }

  lemma {:induction false} ContainersOrderly(o: Observed, host: string, cs: seq<Container>, name: string)
    requires SeesLast(o, name) && HostsUpTo(o, name, host)
    ensures SeesLast(AddContainers(o, host, cs), name) && HostsUpTo(AddContainers(o, host, cs), name, host)
  {
    if cs != [] {
      var o', c := AddContainers(o, host, cs[..|cs| - 1]), cs[|cs| - 1];
      ContainersOrderly(o, host, cs[..|cs| - 1], name);
      ContainerOrderly(o', host, c, name);
    }
  }

  lemma ContainerOrderly(o: Observed, host: string, c: Container, name: string)
    requires SeesLast(o, name) && HostsUpTo(o, name, host)
    ensures SeesLast(AddContainer(o, host, c), name) && HostsUpTo(AddContainer(o, host, c), name, host)
  {
    var o' := AddContainer(o, host, c);
    if c.managed && c.backend == "" && c.service == name != "" {
      assert IsLast(o'.hosted, SvcAt(name, host));
      LastIs(o'.hosted, SvcAt(name, host));
    } else {
      OtherServices(o, o', name);
    }
  }

  // What is seen of a service depends on its own containers only.
  lemma OtherServices(o: Observed, o': Observed, name: string)
    requires SeesLast(o, name)
    requires forall a: SvcAt | a.service == name :: (a in o.hosted <==> a in o'.hosted) && (a in o.hosted ==> o'.hosted[a] == o.hosted[a])
    requires (name in o.svcs <==> name in o'.svcs) && (name in o.svcs ==> o'.svcs[name] == o.svcs[name])
    ensures SeesLast(o', name)
  {
    if OnHosts(o.hosted, name) {
      var a := Last(o.hosted, name);
      assert IsLast(o'.hosted, a);
      LastIs(o'.hosted, a);
    }
  }

  // ----- the index is faithful

  ghost predicate Lists(hosts: seq<HostState>, h: HostState, c: Container) {
    h in hosts && c in h.containers
  }

  // Some listed container is the replica.
  ghost predicate Listed(hosts: seq<HostState>, id: Id) {
    exists h, c :: Lists(hosts, h, c) && ForReplica(c, id)
  }

  ghost predicate Among(cs: seq<Container>, id: Id) {
    exists c :: c in cs && ForReplica(c, id)
  }

  // The entry for id, if there is one, reads back a container of cs or is the old one.
  ghost predicate ReadsOneOf(o: Observed, o': Observed, host: string, cs: seq<Container>, id: Id)
    requires id in o'.reps
  {
    || (id in o.reps && o'.reps[id] == o.reps[id])
    || exists c :: c in cs && ForReplica(c, id) && o'.reps[id] == ReadReplica(host, c)
  }

  lemma {:induction false} ContainersIndexed(o: Observed, host: string, cs: seq<Container>, id: Id)
    ensures id in AddContainers(o, host, cs).reps <==> id in o.reps || Among(cs, id)
    ensures id in AddContainers(o, host, cs).reps ==> ReadsOneOf(o, AddContainers(o, host, cs), host, cs, id)
    ensures AddContainers(o, host, cs).free == o.free && AddContainers(o, host, cs).err == o.err
  {
    if cs != [] {
      var front, last := cs[..|cs| - 1], cs[|cs| - 1];
      ContainersIndexed(o, host, front, id);
      assert forall c :: c in cs <==> c in front || c == last;
      assert Among(cs, id) <==> Among(front, id) || ForReplica(last, id) by {
        assert Among(front, id) ==> exists c :: c in front && c in cs && ForReplica(c, id);
      }
    }
  }

  // With one container per identity the planner sees every managed replica, where it
  // is and what it runs, and sees no other.
  lemma {:induction false} IndexFaithful(hosts: seq<HostState>, id: Id)
    ensures id in Indexed(hosts).reps <==> Listed(hosts, id)
    ensures id in Indexed(hosts).reps ==>
              exists h, c :: Lists(hosts, h, c) && ForReplica(c, id) && Indexed(hosts).reps[id] == ReadReplica(h.name, c)
  {
    if hosts != [] {
      var front, last := hosts[..|hosts| - 1], hosts[|hosts| - 1];
      IndexFaithful(front, id);
      ContainersIndexed(Indexed(front), last.name, last.containers, id);
      assert forall h, c :: Lists(hosts, h, c) <==> Lists(front, h, c) || (h == last && c in last.containers);
      assert Listed(hosts, id) <==> Listed(front, id) || Among(last.containers, id) by {
        if Listed(front, id) {
          var h, c :| Lists(front, h, c) && ForReplica(c, id);
          assert Lists(hosts, h, c);
        }
        if Among(last.containers, id) {
          var c :| c in last.containers && ForReplica(c, id);
          assert Lists(hosts, last, c);
        }
      }
      if id in Indexed(hosts).reps {
        if id in Indexed(front).reps && Indexed(hosts).reps[id] == Indexed(front).reps[id] {
          var h, c :| Lists(front, h, c) && ForReplica(c, id) && Indexed(front).reps[id] == ReadReplica(h.name, c);
          assert Lists(hosts, h, c);
        } else {
          var c :| c in last.containers && ForReplica(c, id) && Indexed(hosts).reps[id] == ReadReplica(last.name, c);
          assert Lists(hosts, last, c);
        }
      }
    }
  }

  lemma UniqueMeansExact(hosts: seq<HostState>, id: Id, h: HostState, c: Container)
    requires Lists(hosts, h, c) && ForReplica(c, id)
    requires forall h', c' | Lists(hosts, h', c') && ForReplica(c', id) :: h' == h && c' == c
    ensures id in Indexed(hosts).reps
    ensures Indexed(hosts).reps[id] == ObsReplica(GpuRef(h.name, c.gpu), Override.TagOf(c.image), c.hash)
  {
    IndexFaithful(hosts, id);
  }

  // No GPU of a host in error can be planned on.
  lemma {:induction false} FreeIsReachable(hosts: seq<HostState>, ref: GpuRef)
    requires forall i, j | 0 <= i < j < |hosts| :: hosts[i].name != hosts[j].name
    ensures ref in Indexed(hosts).free ==> ref.host !in Indexed(hosts).err
    ensures ref.host in Indexed(hosts).err || ref in Indexed(hosts).free ==> exists h :: h in hosts && h.name == ref.host
  {
    if hosts != [] {
      var front, last := hosts[..|hosts| - 1], hosts[|hosts| - 1];
      FreeIsReachable(front, ref);
      ContainersIndexed(Indexed(front), last.name, last.containers, Id("", 0));
      GpusAdded(Indexed(front).free, last.name, last.gpus, ref);
      assert forall h :: h in hosts <==> h in front || h == last;
    }
  }

  lemma {:induction false} GpusAdded(free: map<GpuRef, int>, host: string, gpus: seq<GpuState>, ref: GpuRef)
    ensures ref in AddGpus(free, host, gpus) ==> ref in free || ref.host == host
  {
    if gpus != [] {
      GpusAdded(free, host, gpus[..|gpus| - 1], ref);
    }
  }

  // ----- the last one listed

  predicate ForService(c: Container, name: string) {
    c.managed && c.backend == "" && c.service == name != ""
  }

  ghost predicate NoneFrom(cs: seq<Container>, j: nat, id: Id) {
    forall k | j <= k < |cs| :: !ForReplica(cs[k], id)
  }

  ghost predicate NoServiceFrom(cs: seq<Container>, j: nat, name: string) {
    forall k | j <= k < |cs| :: !ForService(cs[k], name)
  }

  lemma {:induction false} ContainersLast(o: Observed, host: string, cs: seq<Container>, j: nat, id: Id)
    requires j < |cs| && ForReplica(cs[j], id) && NoneFrom(cs, j + 1, id)
    ensures id in AddContainers(o, host, cs).reps
    ensures AddContainers(o, host, cs).reps[id] == ObsReplica(GpuRef(host, cs[j].gpu), Override.TagOf(cs[j].image), cs[j].hash)
  {
    if j < |cs| - 1 {
      ContainersLast(o, host, cs[..|cs| - 1], j, id);
      assert !ForReplica(cs[|cs| - 1], id);
    }
  }

  lemma {:induction false} ContainersWithout(o: Observed, host: string, cs: seq<Container>, id: Id)
    requires NoneFrom(cs, 0, id)
    ensures id in AddContainers(o, host, cs).reps <==> id in o.reps
    ensures id in o.reps ==> AddContainers(o, host, cs).reps[id] == o.reps[id]
  {
    if cs != [] {
      ContainersWithout(o, host, cs[..|cs| - 1], id);
      assert !ForReplica(cs[|cs| - 1], id);
    }
  }

  // The entry of a replica is read from the last container listed with its labels: the
  // host, the GPU label, the tag of the image and the hash label.
  lemma {:induction false} ReplicaIsLastListed(hosts: seq<HostState>, i: nat, j: nat, id: Id)
    requires i < |hosts| && j < |hosts[i].containers| && ForReplica(hosts[i].containers[j], id)
    requires NoneFrom(hosts[i].containers, j + 1, id) && forall k | i < k < |hosts| :: NoneFrom(hosts[k].containers, 0, id)
    ensures var c := hosts[i].containers[j];
            && id in Indexed(hosts).reps
            && Indexed(hosts).reps[id] == ObsReplica(GpuRef(hosts[i].name, c.gpu), Override.TagOf(c.image), c.hash)
  {
    var front, last := hosts[..|hosts| - 1], hosts[|hosts| - 1];
    if i == |hosts| - 1 {
      ContainersLast(Indexed(front), last.name, last.containers, j, id);
    } else {
      ReplicaIsLastListed(front, i, j, id);
      ContainersWithout(Indexed(front), last.name, last.containers, id);
    }
  }

  lemma {:induction false} ServiceContainersLast(o: Observed, host: string, cs: seq<Container>, j: nat, name: string)
    requires j < |cs| && ForService(cs[j], name) && NoServiceFrom(cs, j + 1, name)
    ensures name in AddContainers(o, host, cs).svcs
    ensures AddContainers(o, host, cs).svcs[name] == ObsService(Override.TagOf(cs[j].image), cs[j].hash)
  {
    if j < |cs| - 1 {
      ServiceContainersLast(o, host, cs[..|cs| - 1], j, name);
      assert !ForService(cs[|cs| - 1], name);
    }
  }

  lemma {:induction false} ServiceContainersWithout(o: Observed, host: string, cs: seq<Container>, name: string)
    requires NoServiceFrom(cs, 0, name)
    ensures name in AddContainers(o, host, cs).svcs <==> name in o.svcs
    ensures name in o.svcs ==> AddContainers(o, host, cs).svcs[name] == o.svcs[name]
  {
    if cs != [] {
      ServiceContainersWithout(o, host, cs[..|cs| - 1], name);
      assert !ForService(cs[|cs| - 1], name);
    }
  }

  // The same of a service, and of one that no container is of.
  lemma {:induction false} ServiceIsLastListed(hosts: seq<HostState>, i: nat, j: nat, name: string)
    requires i < |hosts| && j < |hosts[i].containers| && ForService(hosts[i].containers[j], name)
    requires NoServiceFrom(hosts[i].containers, j + 1, name)
    requires forall k | i < k < |hosts| :: NoServiceFrom(hosts[k].containers, 0, name)
    ensures var c := hosts[i].containers[j];
            name in Indexed(hosts).svcs && Indexed(hosts).svcs[name] == ObsService(Override.TagOf(c.image), c.hash)
  {
    var front, last := hosts[..|hosts| - 1], hosts[|hosts| - 1];
    if i == |hosts| - 1 {
      ServiceContainersLast(Indexed(front), last.name, last.containers, j, name);
    } else {
      ServiceIsLastListed(front, i, j, name);
      ServiceContainersWithout(Indexed(front), last.name, last.containers, name);
    }
  }

  lemma {:induction false} UnlistedService(hosts: seq<HostState>, name: string)
    requires forall k | 0 <= k < |hosts| :: NoServiceFrom(hosts[k].containers, 0, name)
    ensures name !in Indexed(hosts).svcs
  {
    if hosts != [] {
      UnlistedService(hosts[..|hosts| - 1], name);
      ServiceContainersWithout(Indexed(hosts[..|hosts| - 1]), hosts[|hosts| - 1].name, hosts[|hosts| - 1].containers, name);
    }
  }

  // ----- hosts in error and free memory

  lemma {:induction false} ContainersKeepRest(o: Observed, host: string, cs: seq<Container>)
    ensures AddContainers(o, host, cs).free == o.free && AddContainers(o, host, cs).err == o.err
  {
    if cs != [] {
      ContainersKeepRest(o, host, cs[..|cs| - 1]);
    }
  }

  lemma {:induction false} ErrorsExact(hosts: seq<HostState>, name: string)
    ensures name in Indexed(hosts).err <==> exists k :: 0 <= k < |hosts| && hosts[k].name == name && hosts[k].err != ""
  {
    if hosts != [] {
      var n := |hosts| - 1;
      ErrorsExact(hosts[..n], name);
      ContainersKeepRest(Indexed(hosts[..n]), hosts[n].name, hosts[n].containers);
      assert forall k | 0 <= k < n :: hosts[..n][k] == hosts[k];
    }
  }

  // The GPU is listed there with its free memory, and not again later on that host.
  ghost predicate GpuAt(gpus: seq<GpuState>, idx: int, mib: int) {
    exists j :: 0 <= j < |gpus| && gpus[j].index == idx && gpus[j].freeMiB == mib && forall k | j < k < |gpus| :: gpus[k].index != idx
  }

  lemma {:induction false} GpusExact(free: map<GpuRef, int>, host: string, gpus: seq<GpuState>, ref: GpuRef, mib: int)
    ensures ref in AddGpus(free, host, gpus) && AddGpus(free, host, gpus)[ref] == mib <==>
              if ref.host == host && exists g :: g in gpus && g.index == ref.idx then GpuAt(gpus, ref.idx, mib)
              else ref in free && free[ref] == mib
  {
    if gpus != [] {
      var n := |gpus| - 1;
      GpusExact(free, host, gpus[..n], ref, mib);
      GpusNext(gpus, ref.idx, mib);
      assert forall g :: g in gpus <==> g in gpus[..n] || g == gpus[n];
    }
  }

  lemma GpusNext(gpus: seq<GpuState>, idx: int, mib: int)
    requires gpus != []
    ensures var n := |gpus| - 1;
            GpuAt(gpus, idx, mib) <==> if gpus[n].index == idx then gpus[n].freeMiB == mib else GpuAt(gpus[..n], idx, mib)
  {
    var n := |gpus| - 1;
    assert forall k | 0 <= k < n :: gpus[..n][k] == gpus[k];
    if gpus[n].index == idx {
      if GpuAt(gpus, idx, mib) {
        var j :| 0 <= j < |gpus| && gpus[j].index == idx && gpus[j].freeMiB == mib && forall k | j < k < |gpus| :: gpus[k].index != idx;
        assert j == n;
      }
    } else {
      if GpuAt(gpus, idx, mib) {
        var j :| 0 <= j < |gpus| && gpus[j].index == idx && gpus[j].freeMiB == mib && forall k | j < k < |gpus| :: gpus[k].index != idx;
        assert gpus[..n][j] == gpus[j];
      }
      if GpuAt(gpus[..n], idx, mib) {
        var j :| 0 <= j < n && gpus[..n][j].index == idx && gpus[..n][j].freeMiB == mib
          && forall k | j < k < n :: gpus[..n][k].index != idx;
        assert gpus[j].index == idx && forall k | j < k < |gpus| :: gpus[k].index != idx by {
          forall k | j < k < |gpus| ensures gpus[k].index != idx {
            assert k < n ==> gpus[..n][k] == gpus[k];
          }
        }
      }
    }
  }

  // What is offered to the packer is exactly the free memory of every GPU listed by a host
  // that is not in error.
  lemma {:induction false} FreeExact(hosts: seq<HostState>, ref: GpuRef, mib: int)
    requires forall i, j | 0 <= i < j < |hosts| :: hosts[i].name != hosts[j].name
    ensures ref in Indexed(hosts).free && Indexed(hosts).free[ref] == mib <==>
              exists k :: 0 <= k < |hosts| && hosts[k].name == ref.host && hosts[k].err == "" && GpuAt(hosts[k].gpus, ref.idx, mib)
  {
    if hosts != [] {
      var n := |hosts| - 1;
      FreeExact(hosts[..n], ref, mib);
      assert forall k | 0 <= k < n :: hosts[..n][k] == hosts[k];
      var o := Indexed(hosts[..n]);
      ContainersKeepRest(o, hosts[n].name, hosts[n].containers);
      if hosts[n].err == "" {
        GpusExact(o.free, hosts[n].name, hosts[n].gpus, ref, mib);
        if hosts[n].name == ref.host && ref in o.free {
          NotOffered(hosts[..n], ref);
        }
      }
    }
  }

  lemma {:induction false} NotOffered(hosts: seq<HostState>, ref: GpuRef)
    requires ref in Indexed(hosts).free
    ensures exists k :: 0 <= k < |hosts| && hosts[k].name == ref.host
  {
    if hosts != [] {
      var n := |hosts| - 1;
      var o := Indexed(hosts[..n]);
      ContainersKeepRest(o, hosts[n].name, hosts[n].containers);
      if hosts[n].err == "" {
        GpusAdded(o.free, hosts[n].name, hosts[n].gpus, ref);
      }
      if ref in o.free {
        NotOffered(hosts[..n], ref);
        var k :| 0 <= k < n && hosts[..n][k].name == ref.host;
        assert hosts[k].name == ref.host;
      }
    }
  }
}

// What the packer decides, in the words of the configuration and the free memory.
module Greedy {
  import opened Order
  import opened Fleet
  import opened Schedule
  import opened Packing
  import opened Packer
  import Vram

  // ----- the ledger between two turns

  lemma Front(ds: seq<Demand>, kept: map<Id, GpuRef>, l: Ledger, i: nat)
    requires Pack(ds, kept, l).Packed? && i < |ds|
    ensures |Pack(ds, kept, l).out| == |ds|
    ensures var front := Pack(ds[..i], kept, l);
            && front.Packed? && front.out == Pack(ds, kept, l).out[..i]
            && TakeTurn(ds[i], kept, front.ledger).Take?
            && TakeTurn(ds[i], kept, front.ledger).ref == Pack(ds, kept, l).out[i].ref
  {
    PackCovers(ds, kept, l);
    assert ds == ds[..i] + ds[i..];
    PackConcat(ds[..i], ds[i..], kept, l);
    var front := Pack(ds[..i], kept, l);
    PackCovers(ds[..i], kept, l);
    var back := Pack(ds[i..], kept, front.ledger);
    assert Pack(ds, kept, l) == Prefixed(front.out, back);
    assert ds[i..][0] == ds[i];
    FirstTurn(ds[i..], kept, front.ledger);
    assert (front.out + back.out)[i] == back.out[0] && (front.out + back.out)[..i] == front.out;
  }

  lemma FirstTurn(ds: seq<Demand>, kept: map<Id, GpuRef>, l: Ledger)
    requires ds != [] && Pack(ds, kept, l).Packed?
    ensures TakeTurn(ds[0], kept, l).Take? && Pack(ds, kept, l).out != []
    ensures Pack(ds, kept, l).out[0] == Placed(ds[0].id, TakeTurn(ds[0], kept, l).ref)
  {
  }

  // Replicas newly placed put their backend on their GPU.
  ghost predicate TakenBefore(ds: seq<Demand>, kept: map<Id, GpuRef>, out: seq<Placed>, i: nat, backend: string, x: GpuRef)
    requires i <= |ds| && i <= |out|
  {
    exists j :: 0 <= j < i && ds[j].id !in kept && ds[j].id.backend == backend && out[j].ref == x
  }

  lemma {:induction false} HeldAfter(ds: seq<Demand>, kept: map<Id, GpuRef>, l: Ledger, backend: string, x: GpuRef)
    requires Pack(ds, kept, l).Packed?
    ensures |Pack(ds, kept, l).out| == |ds|
    ensures Slot(x, backend) in Pack(ds, kept, l).ledger.held <==>
              Slot(x, backend) in l.held || TakenBefore(ds, kept, Pack(ds, kept, l).out, |ds|, backend, x)
  {
    PackCovers(ds, kept, l);
    if ds != [] {
      FirstTurn(ds, kept, l);
      var l' := TakeTurn(ds[0], kept, l).ledger;
      HeldAfter(ds[1..], kept, l', backend, x);
      var out, rest := Pack(ds, kept, l).out, Pack(ds[1..], kept, l').out;
      assert out[1..] == rest;
      HeldHead(ds, kept, out, backend, x);
    }
  }

  lemma HeldHead(ds: seq<Demand>, kept: map<Id, GpuRef>, out: seq<Placed>, backend: string, x: GpuRef)
    requires ds != [] && |out| == |ds|
    ensures TakenBefore(ds, kept, out, |ds|, backend, x) <==>
              (ds[0].id !in kept && ds[0].id.backend == backend && out[0].ref == x)
              || TakenBefore(ds[1..], kept, out[1..], |ds| - 1, backend, x)
  {
    if TakenBefore(ds, kept, out, |ds|, backend, x) {
      var j :| 0 <= j < |ds| && ds[j].id !in kept && ds[j].id.backend == backend && out[j].ref == x;
      assert j > 0 ==> ds[1..][j - 1] == ds[j] && out[1..][j - 1] == out[j];
    }
    if TakenBefore(ds[1..], kept, out[1..], |ds| - 1, backend, x) {
      var j :| 0 <= j < |ds| - 1 && ds[1..][j].id !in kept && ds[1..][j].id.backend == backend && out[1..][j].ref == x;
      assert ds[j + 1].id !in kept;
    }
  }

  // What is left of each GPU after the first i turns.
  ghost function Left(ds: seq<Demand>, kept: map<Id, GpuRef>, free: map<GpuRef, int>, out: seq<Placed>, i: nat): map<GpuRef, int>
    requires i <= |ds| && i <= |out|
  {
    map x | x in free :: free[x] - Reserved(ds[..i], kept, out[..i], x)
  }

  lemma LedgerAfter(ds: seq<Demand>, kept: map<Id, GpuRef>, l: Ledger, i: nat)
    requires Pack(ds, kept, l).Packed? && i < |ds|
    ensures |Pack(ds, kept, l).out| == |ds|
    ensures Pack(ds[..i], kept, l).Packed?
    ensures Pack(ds[..i], kept, l).ledger.free == Left(ds, kept, l.free, Pack(ds, kept, l).out, i)
  {
    Front(ds, kept, l, i);
    PackCovers(ds[..i], kept, l);
    forall x | x in l.free ensures Pack(ds[..i], kept, l).ledger.free[x] == Left(ds, kept, l.free, Pack(ds, kept, l).out, i)[x] {
      PackConserves(ds[..i], kept, l, x);
    }
  }

  // ----- each turn

  // The backend has a replica there, kept or placed in an earlier turn.
  ghost predicate Sits(ds: seq<Demand>, kept: map<Id, GpuRef>, out: seq<Placed>, i: nat, backend: string, x: GpuRef)
    requires i <= |ds| && i <= |out|
  {
    || (exists id :: id in kept && id.backend == backend && kept[id] == x)
    || TakenBefore(ds, kept, out, i, backend, x)
  }

  // Greedy packing, turn by turn. A kept replica stays. A pinned one goes to its pin, which
  // has room. Any other goes to the GPU that the policy prefers among those of its pool
  // with room left and no replica of its backend.
  lemma TurnExact(ds: seq<Demand>, kept: map<Id, GpuRef>, free: map<GpuRef, int>, i: nat)
    requires Pack(ds, kept, Ledger(free, Held(kept))).Packed? && i < |ds|
    ensures |Pack(ds, kept, Ledger(free, Held(kept))).out| == |ds|
    ensures var out := Pack(ds, kept, Ledger(free, Held(kept))).out;
            var left, d, ref := Left(ds, kept, free, out, i), ds[i], out[i].ref;
            && out[i].id == d.id && !d.spot.Unsized?
            && if d.id in kept then ref == kept[d.id]
               else if d.spot.Pinned? then d.spot.pin == Pin(ref.host, ref.idx) && ref in free && left[ref] >= d.need
               else BestFor(d.spot.policy, left,
                            x => x in free && x.host in d.spot.pool && left[x] >= d.need && !Sits(ds, kept, out, i, d.id.backend, x), ref)
  {
    var l := Ledger(free, Held(kept));
    var out, d := Pack(ds, kept, l).out, ds[i];
    PackCovers(ds, kept, l);
    Front(ds, kept, l, i);
    LedgerAfter(ds, kept, l, i);
    assert Answers(d, kept, free, out[i]);
    var now := Pack(ds[..i], kept, l).ledger;
    if d.id !in kept && d.spot.Anywhere? {
      ChoiceIsBest(d.spot.policy, now, d.id.backend, d.spot.pool, d.need);
      var ref := out[i].ref;
      assert ref == Choice(d.spot.policy, now, d.id.backend, d.spot.pool, d.need);
      forall x ensures Slot(x, d.id.backend) in now.held <==> Sits(ds, kept, out, i, d.id.backend, x) {
        HeldAfter(ds[..i], kept, l, d.id.backend, x);
        TakenFront(ds, kept, out, i, d.id.backend, x);
      }
      hide Choice, Pack, TakeTurn, Left, Reserved, Sits;
      BestAgrees(d.spot.policy, now.free,
                 x => x in now.free && x.host in d.spot.pool && now.free[x] >= d.need && Slot(x, d.id.backend) !in now.held,
                 x => x in free && x.host in d.spot.pool && now.free[x] >= d.need && !Sits(ds, kept, out, i, d.id.backend, x), ref);
    }
  }

  lemma BestAgrees(policy: string, free: map<GpuRef, int>, may: GpuRef -> bool, may': GpuRef -> bool, chosen: GpuRef)
    requires BestFor(policy, free, may, chosen) && forall x :: may(x) <==> may'(x)
    ensures BestFor(policy, free, may', chosen)
  {
  }

  lemma TakenFront(ds: seq<Demand>, kept: map<Id, GpuRef>, out: seq<Placed>, i: nat, backend: string, x: GpuRef)
    requires i <= |ds| == |out|
    ensures TakenBefore(ds[..i], kept, out[..i], i, backend, x) <==> TakenBefore(ds, kept, out, i, backend, x)
  {
    assert forall j | 0 <= j < i :: ds[..i][j] == ds[j] && out[..i][j] == out[j];
  }

  // ----- the turns of a configuration

  // What replica r of a backend asks for.
  ghost predicate Asks(policy: string, b: Backend, d: Demand) {
    && (match b.vramMin
        case Vram(mib) => d.need == Vram.NeededMiB(mib)
        case _ => d.need == 0)
    && if b.pins != [] then
         0 <= d.id.replica < |b.pins| && d.spot == Pinned(b.pins[d.id.replica])
       else
         && 0 <= d.id.replica < b.replicas && d.spot.Anywhere?
         && d.spot.policy == (if b.policy != "" then b.policy else if policy != "" then policy else "spread")
         && forall h :: h in d.spot.pool <==> h in b.pool
  }

  ghost predicate OnGpus(backends: map<string, Backend>, name: string) {
    name in backends && (backends[name].auto || backends[name].pins != [])
  }

  ghost predicate HasReplica(backends: map<string, Backend>, name: string, r: int) {
    && OnGpus(backends, name) && !backends[name].vramMin.BadVram?
    && 0 <= r < (if backends[name].pins != [] then |backends[name].pins| else backends[name].replicas)
  }

  // The turns are those of the replicas of all backends on GPUs, by name and then by index.
  // A backend whose size does not parse asks once, for nothing.
  lemma DemandsExact(policy: string, backends: map<string, Backend>)
    ensures forall d | d in AllDemands(policy, backends) ::
              OnGpus(backends, d.id.backend)
              && if backends[d.id.backend].vramMin.BadVram? then d.spot.Unsized? else Asks(policy, backends[d.id.backend], d)
    ensures forall n, r | HasReplica(backends, n, r) ::
              exists d :: d in AllDemands(policy, backends) && d.id == Id(n, r)
    ensures forall n | OnGpus(backends, n) && backends[n].vramMin.BadVram? ::
              exists d :: d in AllDemands(policy, backends) && d.id.backend == n
    ensures forall i, j | 0 <= i < j < |AllDemands(policy, backends)| ::
              var x, y := AllDemands(policy, backends)[i].id, AllDemands(policy, backends)[j].id;
              StringLess(x.backend, y.backend) || (x.backend == y.backend && x.replica < y.replica)
  {
    hide AllDemands, Asks;
    forall d | d in AllDemands(policy, backends)
      ensures OnGpus(backends, d.id.backend)
      ensures if backends[d.id.backend].vramMin.BadVram? then d.spot.Unsized? else Asks(policy, backends[d.id.backend], d)
    {
      DemandAsks(policy, backends, d);
    }
    DemandsComplete(policy, backends);
    AllInOrder(policy, backends);
  }

  lemma DemandAsks(policy: string, backends: map<string, Backend>, d: Demand)
    requires d in AllDemands(policy, backends)
    ensures OnGpus(backends, d.id.backend)
    ensures if backends[d.id.backend].vramMin.BadVram? then d.spot.Unsized? else Asks(policy, backends[d.id.backend], d)
  {
    OrdersAreStrictTotal();
    DemandsOfOthers(policy, backends, Sorted(backends.Keys, StringLess), d);
  }

  lemma DemandsComplete(policy: string, backends: map<string, Backend>)
    ensures forall n, r | HasReplica(backends, n, r) ::
              exists d :: d in AllDemands(policy, backends) && d.id == Id(n, r)
    ensures forall n | OnGpus(backends, n) && backends[n].vramMin.BadVram? ::
              exists d :: d in AllDemands(policy, backends) && d.id.backend == n
  {
    OrdersAreStrictTotal();
    var names := Sorted(backends.Keys, StringLess);
    var ds := AllDemands(policy, backends);
    forall n, r | HasReplica(backends, n, r)
      ensures exists d :: d in ds && d.id == Id(n, r)
    {
      var i := DemandExists(policy, backends, names, n, r);
      assert ds[i] in ds;
    }
    forall n | OnGpus(backends, n) && backends[n].vramMin.BadVram? ensures exists d :: d in ds && d.id.backend == n {
      BadSizeAsks(policy, backends, names, n);
    }
  }

  lemma AllInOrder(policy: string, backends: map<string, Backend>)
    ensures InOrder(AllDemands(policy, backends))
  {
    OrdersAreStrictTotal();
    hide Demands;
    DemandsInOrder(policy, backends, Sorted(backends.Keys, StringLess));
  }

  lemma {:induction false} BadSizeAsks(policy: string, backends: map<string, Backend>, names: seq<string>, n: string)
    requires (forall m | m in names :: m in backends) && n in names && OnGpus(backends, n) && backends[n].vramMin.BadVram?
    ensures exists d :: d in Demands(policy, backends, names) && d.id.backend == n
  {
    var first := BackendDemands(policy, names[0], backends[names[0]]);
    if names[0] == n {
      assert first[0] in Demands(policy, backends, names);
    } else {
      BadSizeAsks(policy, backends, names[1..], n);
      var d :| d in Demands(policy, backends, names[1..]) && d.id.backend == n;
      assert d in Demands(policy, backends, names);
    }
  }

  ghost predicate InOrder(ds: seq<Demand>) {
    forall i, j | 0 <= i < j < |ds| ::
      StringLess(ds[i].id.backend, ds[j].id.backend) || (ds[i].id.backend == ds[j].id.backend && ds[i].id.replica < ds[j].id.replica)
  }

  lemma InOrderConcat(a: seq<Demand>, b: seq<Demand>)
    requires InOrder(a) && InOrder(b) && forall x, y | x in a && y in b :: StringLess(x.id.backend, y.id.backend)
    ensures InOrder(a + b)
  {
    hide StringLess;
    var ab := a + b;
    forall i, j | 0 <= i < j < |ab|
      ensures StringLess(ab[i].id.backend, ab[j].id.backend) || (ab[i].id.backend == ab[j].id.backend && ab[i].id.replica < ab[j].id.replica)
    {
      assert i < |a| ==> ab[i] == a[i] && a[i] in a;
      assert i >= |a| ==> ab[i] == b[i - |a|];
      assert j < |a| ==> ab[j] == a[j];
      assert j >= |a| ==> ab[j] == b[j - |a|] && b[j - |a|] in b;
    }
  }

  lemma {:induction false} DemandsInOrder(policy: string, backends: map<string, Backend>, names: seq<string>)
    requires Increasing(names, StringLess) && forall n | n in names :: n in backends
    ensures InOrder(Demands(policy, backends, names))
  {
    if names != [] {
      var first, rest := BackendDemands(policy, names[0], backends[names[0]]), Demands(policy, backends, names[1..]);
      DemandsInOrder(policy, backends, names[1..]);
      forall x, y | x in first && y in rest ensures StringLess(x.id.backend, y.id.backend) {
        DemandsOfOthers(policy, backends, names[1..], y);
        var k :| 0 <= k < |names[1..]| && names[1..][k] == y.id.backend;
        assert names[k + 1] == y.id.backend && StringLess(names[0], names[k + 1]);
      }
      InOrderConcat(first, rest);
    }
  }
}

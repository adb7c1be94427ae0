// PlanDelta: the demands of a configuration, backend by backend in name order.
module Packer {
  import opened Wrappers
  import opened Order
  import opened Fleet
  import opened Schedule
  import opened Packing
  import Vram

  // ----- the order of the demands

  // Backends with at least one replica that asks for its pin, or for any GPU.
  predicate AsksPins(b: Backend) {
    b.pins != [] && !b.vramMin.BadVram?
  }

  predicate AsksAnywhere(b: Backend) {
    b.auto && b.pins == [] && !b.vramMin.BadVram? && b.replicas > 0
  }

  ghost predicate HasPinned(ds: seq<Demand>) {
    exists d :: d in ds && d.spot.Pinned?
  }

  ghost predicate HasAnywhere(ds: seq<Demand>) {
    exists d :: d in ds && d.spot.Anywhere?
  }

  ghost predicate PinsFirst(ds: seq<Demand>) {
    forall i, j | 0 <= i < j < |ds| :: ds[i].spot.Anywhere? ==> !ds[j].spot.Pinned?
  }

  lemma PinsFirstConcat(a: seq<Demand>, b: seq<Demand>)
    ensures PinsFirst(a + b) <==> PinsFirst(a) && PinsFirst(b) && !(HasAnywhere(a) && HasPinned(b))
    ensures HasPinned(a + b) <==> HasPinned(a) || HasPinned(b)
  {
    assert forall d :: d in a + b <==> d in a || d in b;
    var ab := a + b;
    assert forall i | 0 <= i < |a| :: ab[i] == a[i];
    assert forall i | 0 <= i < |b| :: ab[i + |a|] == b[i];
    if PinsFirst(ab) {
      forall i, j | 0 <= i < |a| && 0 <= j < |b| && a[i].spot.Anywhere? ensures !b[j].spot.Pinned? {
        assert ab[i].spot.Anywhere?;
      }
      forall i, j | 0 <= i < j < |b| && b[i].spot.Anywhere? ensures !b[j].spot.Pinned? {
        assert ab[i + |a|].spot.Anywhere?;
      }
    }
  }

  lemma OneBackendAsks(policy: string, name: string, b: Backend)
    ensures var ds := BackendDemands(policy, name, b);
            PinsFirst(ds) && (HasPinned(ds) <==> AsksPins(b)) && (HasAnywhere(ds) <==> AsksAnywhere(b))
  {
    var ds := BackendDemands(policy, name, b);
    if AsksPins(b) || AsksAnywhere(b) {
      assert ds[0] in ds;
    }
  }

  ghost predicate PinnedNamesFirst(backends: map<string, Backend>, names: seq<string>)
    requires forall n | n in names :: n in backends
  {
    forall i, j | 0 <= i < j < |names| :: AsksAnywhere(backends[names[i]]) ==> !AsksPins(backends[names[j]])
  }

  lemma {:induction false} DemandsFollowNames(policy: string, backends: map<string, Backend>, names: seq<string>)
    requires forall n | n in names :: n in backends
    ensures HasPinned(Demands(policy, backends, names)) <==> exists n :: n in names && AsksPins(backends[n])
    ensures PinsFirst(Demands(policy, backends, names)) <==> PinnedNamesFirst(backends, names)
  {
    if names != [] {
      var rest := names[1..];
      DemandsFollowNames(policy, backends, rest);
      OneBackendAsks(policy, names[0], backends[names[0]]);
      PinsFirstConcat(BackendDemands(policy, names[0], backends[names[0]]), Demands(policy, backends, rest));
      hide PinsFirst, HasPinned, HasAnywhere, AsksPins, AsksAnywhere;
      assert forall n :: n in names <==> n == names[0] || n in rest;
      NamesFirstStep(backends, names);
    }
  }

  lemma NamesFirstStep(backends: map<string, Backend>, names: seq<string>)
    requires names != [] && forall n | n in names :: n in backends
    ensures PinnedNamesFirst(backends, names) <==>
              && PinnedNamesFirst(backends, names[1..])
              && !(AsksAnywhere(backends[names[0]]) && exists n :: n in names[1..] && AsksPins(backends[n]))
  {
    hide AsksPins, AsksAnywhere;
    var rest := names[1..];
    assert forall i | 0 <= i < |rest| :: rest[i] == names[i + 1] && rest[i] in rest;
    if PinnedNamesFirst(backends, names) {
      forall i, j | 0 <= i < j < |rest| && AsksAnywhere(backends[rest[i]]) ensures !AsksPins(backends[rest[j]]) {
        assert AsksAnywhere(backends[names[i + 1]]);
      }
      forall n | n in rest && AsksAnywhere(backends[names[0]]) ensures !AsksPins(backends[n]) {
        var j :| 0 <= j < |rest| && rest[j] == n;
        assert names[j + 1] == n;
      }
    }
    if PinnedNamesFirst(backends, rest) && !(AsksAnywhere(backends[names[0]]) && exists n :: n in rest && AsksPins(backends[n])) {
      forall i, j | 0 <= i < j < |names| && AsksAnywhere(backends[names[i]]) ensures !AsksPins(backends[names[j]]) {
        assert names[j] == rest[j - 1];
        assert i > 0 ==> names[i] == rest[i - 1];
      }
    }
  }

  // Pins are not placed first as such: every pinned replica takes its turn before every
  // other one if and only if no backend that goes anywhere has a name before that of a
  // pinned one.
  lemma PinsFirstExact(policy: string, backends: map<string, Backend>)
    ensures PinsFirst(AllDemands(policy, backends)) <==>
              forall m, n | m in backends && n in backends && AsksAnywhere(backends[m]) && AsksPins(backends[n]) :: StringLess(n, m)
  {
    OrdersAreStrictTotal();
    var names := Sorted(backends.Keys, StringLess);
    DemandsFollowNames(policy, backends, names);
    hide PinsFirst, Demands;
    assert PinsFirst(AllDemands(policy, backends)) <==> PinnedNamesFirst(backends, names);
    NamesInOrder(backends, names);
  }

  lemma NamesInOrder(backends: map<string, Backend>, names: seq<string>)
    requires Increasing(names, StringLess) && forall n :: n in names <==> n in backends
    ensures PinnedNamesFirst(backends, names) <==>
              forall m, n | m in backends && n in backends && AsksAnywhere(backends[m]) && AsksPins(backends[n]) :: StringLess(n, m)
  {
    hide AsksPins, AsksAnywhere, StringLess;
    if PinnedNamesFirst(backends, names) {
      forall m, n | m in backends && n in backends && AsksAnywhere(backends[m]) && AsksPins(backends[n])
        ensures StringLess(n, m)
      {
        var i :| 0 <= i < |names| && names[i] == m;
        var j :| 0 <= j < |names| && names[j] == n;
        NotBoth(backends[m]);
        assert j < i;
      }
    } else {
      var i, j :| 0 <= i < j < |names| && AsksAnywhere(backends[names[i]]) && AsksPins(backends[names[j]]);
      assert names[i] in names && names[j] in names;
      StringLessAsymmetric(names[i], names[j]);
    }
  }

  lemma NotBoth(b: Backend)
    ensures !(AsksAnywhere(b) && AsksPins(b))
  {
  }

  // ----- grouping placements by backend

  lemma {:induction false} OfConcat(a: seq<Placed>, b: seq<Placed>, name: string)
    ensures Of(a + b, name) == Of(a, name) + Of(b, name)
  {
    if b == [] {
      assert a + b == a;
    } else {
      assert (a + b)[..|a + b| - 1] == a + b[..|b| - 1];
      OfConcat(a, b[..|b| - 1], name);
    }
  }

  lemma {:induction false} OfAllOrNone(a: seq<Placed>, name: string)
    ensures (forall p | p in a :: p.id.backend == name) ==> Of(a, name) == a
    ensures (forall p | p in a :: p.id.backend != name) ==> Of(a, name) == []
  {
    if a != [] {
      assert a == a[..|a| - 1] + [a[|a| - 1]];
      OfAllOrNone(a[..|a| - 1], name);
    }
  }

  ghost predicate SameIds(ds: seq<Demand>, out: seq<Placed>) {
    |ds| == |out| && forall i | 0 <= i < |ds| :: ds[i].id == out[i].id
  }

  ghost predicate AllSized(backends: map<string, Backend>) {
    forall n | n in backends :: GpuScheduled(backends[n]) ==> !backends[n].vramMin.BadVram?
  }

  // One host per replica, 0..n-1 in order.
  ghost predicate CoversBackend(ps: seq<Placed>, name: string, b: Backend) {
    && |ps| == (if GpuScheduled(b) then Sized(b) else 0)
    && forall r | 0 <= r < |ps| :: ps[r].id == Id(name, r)
  }

  lemma {:induction false} DemandsOfOthers(policy: string, backends: map<string, Backend>, names: seq<string>, d: Demand)
    requires forall n | n in names :: n in backends
    requires d in Demands(policy, backends, names)
    ensures d.id.backend in names
    ensures GpuScheduled(backends[d.id.backend])
    ensures d.spot.Unsized? <==> backends[d.id.backend].vramMin.BadVram?
    ensures !d.spot.Unsized? ==> 0 <= d.id.replica < Sized(backends[d.id.backend])
    ensures !d.spot.Unsized? ==> d == DemandOf(policy, d.id.backend, backends[d.id.backend], d.id.replica)
  {
    if names != [] && d !in BackendDemands(policy, names[0], backends[names[0]]) {
      DemandsOfOthers(policy, backends, names[1..], d);
    }
  }

  lemma {:induction false} DemandsDistinct(policy: string, backends: map<string, Backend>, names: seq<string>)
    requires forall n | n in names :: n in backends
    requires forall i, j | 0 <= i < j < |names| :: names[i] != names[j]
    ensures Distinct(Demands(policy, backends, names))
  {
    if names != [] {
      DemandsDistinct(policy, backends, names[1..]);
      var front := BackendDemands(policy, names[0], backends[names[0]]);
      var back := Demands(policy, backends, names[1..]);
      forall d | d in back ensures d.id.backend != names[0] {
        DemandsOfOthers(policy, backends, names[1..], d);
      }
      forall i, j | 0 <= i < j < |front + back| ensures (front + back)[i].id != (front + back)[j].id {
        if j >= |front| {
          assert back[j - |front|] in back;
        }
      }
    }
  }

  // A wanted replica has a demand.
  lemma {:induction false} DemandExists(policy: string, backends: map<string, Backend>, names: seq<string>, name: string, r: nat)
    returns (i: nat)
    requires forall n | n in names :: n in backends
    requires name in names && GpuScheduled(backends[name]) && !backends[name].vramMin.BadVram? && r < Sized(backends[name])
    ensures i < |Demands(policy, backends, names)|
    ensures Demands(policy, backends, names)[i] == DemandOf(policy, name, backends[name], r)
  {
    if names[0] == name {
      i := r;
    } else {
      var k := DemandExists(policy, backends, names[1..], name, r);
      i := |BackendDemands(policy, names[0], backends[names[0]])| + k;
    }
  }

  ghost predicate AllIn(ps: seq<Placed>, names: seq<string>) {
    forall p | p in ps :: p.id.backend in names
  }

  ghost predicate DistinctNames(names: seq<string>) {
    forall i, j | 0 <= i < j < |names| :: names[i] != names[j]
  }

  // The run is the first backend's placements and a run for the others.
  lemma HeadGroup(policy: string, backends: map<string, Backend>, names: seq<string>, out: seq<Placed>)
    returns (front: seq<Placed>, back: seq<Placed>)
    requires names != [] && forall n | n in names :: n in backends
    requires AllSized(backends) && SameIds(Demands(policy, backends, names), out)
    ensures out == front + back
    ensures CoversBackend(front, names[0], backends[names[0]]) && SameIds(Demands(policy, backends, names[1..]), back)
    ensures AllIn(front, [names[0]]) && AllIn(back, names[1..])
  {
    var ds, rest := BackendDemands(policy, names[0], backends[names[0]]), Demands(policy, backends, names[1..]);
    front, back := SameIdsSplit(ds, rest, out);
    assert CoversBackend(front, names[0], backends[names[0]]);
    hide Demands, BackendDemands, CoversBackend;
    forall i | 0 <= i < |rest| ensures back[i].id.backend in names[1..] {
      DemandsOfOthers(policy, backends, names[1..], rest[i]);
    }
  }

  lemma SameIdsSplit(a: seq<Demand>, b: seq<Demand>, out: seq<Placed>) returns (front: seq<Placed>, back: seq<Placed>)
    requires SameIds(a + b, out)
    ensures out == front + back && SameIds(a, front) && SameIds(b, back)
  {
    front, back := out[..|a|], out[|a|..];
    assert forall i | 0 <= i < |a| :: (a + b)[i] == a[i];
    assert forall i | 0 <= i < |b| :: (a + b)[|a| + i] == b[i];
  }

  lemma OfFrontGroup(front: seq<Placed>, back: seq<Placed>, name: string, others: seq<string>)
    requires name !in others && AllIn(front, [name]) && AllIn(back, others)
    ensures Of(front + back, name) == front
    ensures forall n | n in others :: Of(front + back, n) == Of(back, n)
  {
    hide Of;
    OfConcat(front, back, name);
    OfAllOrNone(front, name);
    OfAllOrNone(back, name);
    assert front + [] == front;
    forall n | n in others ensures Of(front + back, n) == Of(back, n) {
      OfConcat(front, back, n);
      OfAllOrNone(front, n);
      assert [] + Of(back, n) == Of(back, n);
    }
  }

  // The placements of each backend are exactly its replicas, in order, wherever the
  // backend stands among the others; and the groups in name order are the whole run.
  lemma {:induction false} GroupedByBackend(policy: string, backends: map<string, Backend>, names: seq<string>, out: seq<Placed>)
    requires forall n | n in names :: n in backends
    requires DistinctNames(names)
    requires AllSized(backends) && SameIds(Demands(policy, backends, names), out)
    ensures forall n | n in names :: CoversBackend(Of(out, n), n, backends[n])
    ensures Regroup(out, names) == out
  {
    if names == [] {
      assert out == [];
    } else {
      hide Demands, SameIds, CoversBackend, Of, AllSized, AllIn, DistinctNames;
      var front, back := HeadGroup(policy, backends, names, out);
      DistinctTail(names);
      OfFrontGroup(front, back, names[0], names[1..]);
      GroupedByBackend(policy, backends, names[1..], back);
      RegroupAgrees(out, back, names[1..]);
      assert Regroup(out, names) == front + back;
    }
  }

  lemma DistinctTail(names: seq<string>)
    requires names != [] && DistinctNames(names)
    ensures names[0] !in names[1..] && DistinctNames(names[1..])
    ensures forall n :: n in names <==> n == names[0] || n in names[1..]
  {
  }

  ghost function Regroup(out: seq<Placed>, names: seq<string>): seq<Placed> {
    if names == [] then [] else Of(out, names[0]) + Regroup(out, names[1..])
  }

  lemma {:induction false} RegroupAgrees(a: seq<Placed>, b: seq<Placed>, names: seq<string>)
    requires forall n | n in names :: Of(a, n) == Of(b, n)
    ensures Regroup(a, names) == Regroup(b, names)
  {
    if names != [] {
      RegroupAgrees(a, b, names[1..]);
    }
  }

  // The turn of an auto backend, as PlanDelta meets it: enough eligible GPUs for its
  // missing replicas is exactly what it takes, under every policy.
  lemma BackendFeasible(policy: string, name: string, b: Backend, kept: map<Id, GpuRef>, l: Ledger)
    requires b.auto && b.pins == [] && !b.vramMin.BadVram?
    ensures Pack(BackendDemands(policy, name, b), kept, l).Packed?
       <==> |Candidates(l, name, Pool(b), NeedOf(b))| >= Missing(BackendDemands(policy, name, b), kept)
  {
    AutoFeasible(BackendDemands(policy, name, b), kept, l, name, ResolvePolicy(policy, b), Pool(b), NeedOf(b));
  }

  // ----- the method

  function Get(m: map<string, seq<Placed>>, name: string): seq<Placed> {
    if name in m then m[name] else []
  }

  // A map built by appending to m[name] holds, for every backend, its placements.
  ghost predicate Holds(m: map<string, seq<Placed>>, out: seq<Placed>) {
    forall n :: Get(m, n) == Of(out, n)
  }

  method Append(m: map<string, seq<Placed>>, p: Placed, ghost out: seq<Placed>) returns (m': map<string, seq<Placed>>)
    requires Holds(m, out)
    ensures Holds(m', out + [p])
  {
    m' := m[p.id.backend := Get(m, p.id.backend) + [p]];
    forall n ensures Get(m', n) == Of(out + [p], n) {
      assert (out + [p])[..|out + [p]| - 1] == out;
    }
  }

  // The pin loop of one backend.
  method PlacePins(name: string, b: Backend, ghost policy: string, need: int, kept: map<Id, GpuRef>, l: Ledger,
                   m: map<string, seq<Placed>>, ghost out: seq<Placed>)
    returns (l': Ledger, m': map<string, seq<Placed>>, err: Option<PackError>, ghost added: seq<Placed>)
    requires b.pins != [] && !b.vramMin.BadVram? && need == NeedOf(b) && Holds(m, out)
    ensures var ds := BackendDemands(policy, name, b);
            match err
            case Some(e) => Pack(ds, kept, l) == Stuck(e)
            case None => Pack(ds, kept, l) == Packed(added, l') && Holds(m', out + added)
  {
    l', m', err, added := l, m, None, [];
    assert out + [] == out;
    ghost var ds := BackendDemands(policy, name, b);
    ghost var spec := Pack(ds, kept, l);
    for i := 0 to |b.pins|
      invariant err == None
      invariant spec == Prefixed(added, Pack(ds[i..], kept, l'))
      invariant Holds(m', out + added)
    {
      assert ds[i..][0] == DemandOf(policy, name, b, i) && ds[i..][1..] == ds[i + 1..];
      var ref;
      if Id(name, i) in kept {
        ref := kept[Id(name, i)];
      } else if b.pins[i].BadPin? {
        err := Some(UnparsedPin(name));
        return;
      } else {
        ref := GpuRef(b.pins[i].host, b.pins[i].idx);
        if ref !in l'.free {
          err := Some(UnknownGpu(name, ref));
          return;
        }
        var avail := l'.free[ref];
        if avail < need {
          err := Some(NoRoom(name, i, need, avail, false));
          return;
        }
        l' := Reserve(l', ref, name, need);
      }
      var p := Placed(Id(name, i), ref);
      m' := Append(m', p, out + added);
      assert out + added + [p] == out + (added + [p]);
      PrefixedTwice(added, [p], Pack(ds[i + 1..], kept, l'));
      added := added + [p];
    }
    assert ds[|b.pins|..] == [];
  }

  lemma AutoDemandsAll(name: string, b: Backend, defaultPolicy: string, kept: map<Id, GpuRef>, l: Ledger)
    requires b.auto && b.pins == [] && !b.vramMin.BadVram?
    ensures var ds := BackendDemands(defaultPolicy, name, b);
            |ds| == Sized(b) && ds[0..] == ds && Prefixed([], Pack(ds, kept, l)) == Pack(ds, kept, l)
  {
    PrefixedEmpty(Pack(BackendDemands(defaultPolicy, name, b), kept, l));
  }

  lemma PrefixedEmpty(r: PackResult)
    ensures Prefixed([], r) == r
  {
  }

  lemma AutoDemandAt(name: string, b: Backend, defaultPolicy: string, r: nat)
    requires b.auto && b.pins == [] && !b.vramMin.BadVram? && r < Sized(b)
    ensures var ds := BackendDemands(defaultPolicy, name, b);
            && |ds| == Sized(b)
            && ds[r..][0] == Demand(Id(name, r), NeedOf(b), Anywhere(ResolvePolicy(defaultPolicy, b), Pool(b)))
            && ds[r..][1..] == ds[r + 1..]
  {
  }

  // The replica loop of one auto backend.
  method PlaceAuto(name: string, b: Backend, defaultPolicy: string, need: int, kept: map<Id, GpuRef>, l: Ledger,
                   m: map<string, seq<Placed>>, ghost out: seq<Placed>)
    returns (l': Ledger, m': map<string, seq<Placed>>, err: Option<PackError>, ghost added: seq<Placed>)
    requires b.auto && b.pins == [] && !b.vramMin.BadVram? && need == NeedOf(b) && Holds(m, out)
    ensures var ds := BackendDemands(defaultPolicy, name, b);
            match err
            case Some(e) => Pack(ds, kept, l) == Stuck(e)
            case None => Pack(ds, kept, l) == Packed(added, l') && Holds(m', out + added)
  {
    hide BackendDemands, DemandOf, Choice, Candidates, SomeFits, MaxFree, Holds;
    l', m', err, added := l, m, None, [];
    assert out + [] == out;
    AutoDemandsAll(name, b, defaultPolicy, kept, l);
    var pool := Pool(b);
    var policy := ResolvePolicy(defaultPolicy, b);
    ghost var ds := BackendDemands(defaultPolicy, name, b);
    ghost var spec := Pack(ds, kept, l);
    var r := 0;
    while r < b.replicas
      invariant 0 <= r <= Sized(b)
      invariant err == None
      invariant spec == Prefixed(added, Pack(ds[r..], kept, l'))
      invariant Holds(m', out + added)
    {
      AutoDemandAt(name, b, defaultPolicy, r);
      var ref;
      if Id(name, r) in kept {
        ref := kept[Id(name, r)];
      } else {
        var chosen, ok, best, aff := SelectGpu(policy, l', name, pool, need);
        if !ok {
          err := Some(NoRoom(name, r, need, best, aff));
          return;
        }
        ref := chosen;
        l' := Reserve(l', ref, name, need);
      }
      var p := Placed(Id(name, r), ref);
      m' := Append(m', p, out + added);
      assert out + added + [p] == out + (added + [p]);
      PrefixedTwice(added, [p], Pack(ds[r + 1..], kept, l'));
      added := added + [p];
      r := r + 1;
    }
    assert ds[r..] == [];
  }

  // One backend's turn: its size, then its pins or its replicas.
  method PlaceBackend(name: string, b: Backend, defaultPolicy: string, kept: map<Id, GpuRef>, l: Ledger,
                      m: map<string, seq<Placed>>, ghost out: seq<Placed>)
    returns (l': Ledger, m': map<string, seq<Placed>>, err: Option<PackError>, ghost added: seq<Placed>)
    requires Holds(m, out)
    ensures var ds := BackendDemands(defaultPolicy, name, b);
            match err
            case Some(e) => Pack(ds, kept, l) == Stuck(e)
            case None => Pack(ds, kept, l) == Packed(added, l') && Holds(m', out + added)
  {
    if !GpuScheduled(b) {
      assert out + [] == out;
      return l, m, None, [];
    }
    var need := 0;
    match b.vramMin {
      case NoVram =>
      case BadVram => return l, m, Some(BadVramMin(name)), [];
      case Vram(mib) => need := Vram.NeededMiB(mib);
    }
    if b.pins != [] {
      l', m', err, added := PlacePins(name, b, defaultPolicy, need, kept, l, m, out);
    } else {
      l', m', err, added := PlaceAuto(name, b, defaultPolicy, need, kept, l, m, out);
    }
  }

  lemma PrefixedNothing(r: PackResult)
    ensures Prefixed([], r) == r
  {
    if r.Packed? {
      assert [] + r.out == r.out;
    }
  }

  // The run from the i-th backend on: that backend, then the others.
  lemma PackFrom(policy: string, backends: map<string, Backend>, names: seq<string>, i: nat, kept: map<Id, GpuRef>, l: Ledger)
    requires i < |names| && forall n | n in names[i..] :: n in backends
    ensures forall n | n in names[i + 1..] :: n in backends
    ensures names[i] in backends
    ensures Pack(Demands(policy, backends, names[i..]), kept, l)
         == match Pack(BackendDemands(policy, names[i], backends[names[i]]), kept, l)
            case Stuck(err) => Stuck(err)
            case Packed(out, l') => Prefixed(out, Pack(Demands(policy, backends, names[i + 1..]), kept, l'))
  {
    assert names[i] in names[i..] && names[i..][0] == names[i] && names[i..][1..] == names[i + 1..];
    PackConcat(BackendDemands(policy, names[i], backends[names[i]]), Demands(policy, backends, names[i + 1..]), kept, l);
  }

  lemma PackStart(policy: string, backends: map<string, Backend>, free: map<GpuRef, int>, kept: map<Id, GpuRef>, names: seq<string>)
    requires (forall n | n in names :: n in backends) && AllDemands(policy, backends) == Demands(policy, backends, names)
    ensures forall n | n in names[0..] :: n in backends
    ensures PlanDeltaSpec(policy, backends, free, kept)
         == Prefixed([], Pack(Demands(policy, backends, names[0..]), kept, Ledger(free, Held(kept))))
  {
    assert names[0..] == names;
    PrefixedNothing(PlanDeltaSpec(policy, backends, free, kept));
  }

  lemma PackEnd(policy: string, backends: map<string, Backend>, names: seq<string>, kept: map<Id, GpuRef>, l: Ledger, out: seq<Placed>)
    requires forall n | n in names[|names|..] :: n in backends
    ensures Prefixed(out, Pack(Demands(policy, backends, names[|names|..]), kept, l)) == Packed(out, l)
  {
    assert names[|names|..] == [] && out + [] == out;
  }

  method PlanDelta(defaultPolicy: string, backends: map<string, Backend>, free: map<GpuRef, int>, kept: map<Id, GpuRef>)
    returns (placements: Result<map<string, seq<Placed>>, PackError>)
    ensures var spec := PlanDeltaSpec(defaultPolicy, backends, free, kept);
            match placements
            case Err(e) => spec == Stuck(e)
            case Ok(m) => spec.Packed? && Holds(m, spec.out)
  {
    hide Pack, Demands, BackendDemands, Prefixed, PlanDeltaSpec;
    OrdersAreStrictTotal();
    var held := set id | id in kept :: Slot(kept[id], id.backend);
    var l := Ledger(free, held);
    var names := Sort(backends.Keys, StringLess);
    var m: map<string, seq<Placed>> := map[];
    ghost var out: seq<Placed> := [];
    PackStart(defaultPolicy, backends, free, kept, names);
    for i := 0 to |names|
      invariant forall n | n in names[i..] :: n in backends
      invariant PlanDeltaSpec(defaultPolicy, backends, free, kept)
             == Prefixed(out, Pack(Demands(defaultPolicy, backends, names[i..]), kept, l))
      invariant Holds(m, out)
    {
      PackFrom(defaultPolicy, backends, names, i, kept, l);
      ghost var rest := Demands(defaultPolicy, backends, names[i + 1..]);
      var err;
      ghost var added;
      l, m, err, added := PlaceBackend(names[i], backends[names[i]], defaultPolicy, kept, l, m, out);
      if err.Some? {
        PrefixedStuck(out, err.value);
        return Err(err.value);
      }
      PrefixedTwice(out, added, Pack(rest, kept, l));
      out := out + added;
    }
    PackEnd(defaultPolicy, backends, names, kept, l, out);
    return Ok(m);
  }

  lemma PrefixedStuck(out: seq<Placed>, err: PackError)
    ensures Prefixed(out, Stuck(err)) == Stuck(err)
  {
  }
}

// fleet/schedule/schedule.go: the greedy GPU packer. This file holds what one
// replica's turn means; Pack runs a list of turns.
module Schedule {
  import opened Order
  import opened Fleet
  import Vram

  const SPREAD := "spread"
  const BINPACK := "binpack"
  const FIRST_FIT := "first-fit"

  datatype Slot = Slot(ref: GpuRef, backend: string)

  // free: MiB left on every schedulable GPU. held: which backends sit on which GPU.
  datatype Ledger = Ledger(free: map<GpuRef, int>, held: set<Slot>)

  datatype Spot = Pinned(pin: Pin) | Anywhere(policy: string, pool: set<string>) | Unsized

  // One replica's turn. Unsized stands for a backend whose vram_min does not parse:
  // it stops the packing whether or not anything is kept.
  datatype Demand = Demand(id: Id, need: int, spot: Spot)

  datatype Placed = Placed(id: Id, ref: GpuRef)

  datatype PackError =
    | BadVramMin(backend: string)
    | UnparsedPin(backend: string)
    | UnknownGpu(backend: string, ref: GpuRef)
    | NoRoom(backend: string, replica: int, needed: int, bestFree: int, antiAffinity: bool)

  // ----- one choice

  predicate InPool(l: Ledger, pool: set<string>, ref: GpuRef) {
    ref in l.free && ref.host in pool
  }

  predicate Fits(l: Ledger, pool: set<string>, need: int, ref: GpuRef) {
    InPool(l, pool, ref) && l.free[ref] >= need
  }

  predicate Eligible(l: Ledger, backend: string, pool: set<string>, need: int, ref: GpuRef) {
    Fits(l, pool, need, ref) && Slot(ref, backend) !in l.held
  }

  ghost function Candidates(l: Ledger, backend: string, pool: set<string>, need: int): set<GpuRef> {
    set ref | ref in l.free && Eligible(l, backend, pool, need, ref)
  }

  function FreeOf(free: map<GpuRef, int>, ref: GpuRef): int {
    if ref in free then free[ref] else 0
  }

  // x is chosen before y.
  predicate Preferred(policy: string, free: map<GpuRef, int>, x: GpuRef, y: GpuRef) {
    if policy == BINPACK then
      FreeOf(free, x) < FreeOf(free, y) || (FreeOf(free, x) == FreeOf(free, y) && RefLess(x, y))
    else if policy == FIRST_FIT then
      RefLess(x, y)
    else
      FreeOf(free, x) > FreeOf(free, y) || (FreeOf(free, x) == FreeOf(free, y) && RefLess(x, y))
  }

  ghost function Preference(policy: string, free: map<GpuRef, int>): (lt: (GpuRef, GpuRef) -> bool)
    ensures StrictTotal(lt)
  {
    OrdersAreStrictTotal();
    var lt := (x: GpuRef, y: GpuRef) => Preferred(policy, free, x, y);
    lt
  }

  // The declarative choice: no scan and no map order in it.
  ghost function Choice(policy: string, l: Ledger, backend: string, pool: set<string>, need: int): (ref: GpuRef)
    requires Candidates(l, backend, pool, need) != {}
    ensures Eligible(l, backend, pool, need, ref)
    ensures forall x | x in Candidates(l, backend, pool, need) :: x == ref || Preferred(policy, l.free, ref, x)
  {
    Least(Candidates(l, backend, pool, need), Preference(policy, l.free))
  }

  lemma ChoiceUnique(policy: string, l: Ledger, backend: string, pool: set<string>, need: int, ref: GpuRef)
    requires Eligible(l, backend, pool, need, ref)
    requires forall x | x in l.free && Eligible(l, backend, pool, need, x) :: x == ref || Preferred(policy, l.free, ref, x)
    ensures ref in Candidates(l, backend, pool, need)
    ensures Choice(policy, l, backend, pool, need) == ref
  {
    assert ref in Candidates(l, backend, pool, need);
    var c := Choice(policy, l, backend, pool, need);
    var lt := Preference(policy, l.free);
    assert c != ref ==> lt(ref, c) && lt(c, ref);
  }

  // The largest free memory among the GPUs, never below 0.
  ghost function MaxFree(free: map<GpuRef, int>, refs: set<GpuRef>): (m: int)
    ensures m >= 0 && forall x | x in refs :: FreeOf(free, x) <= m
    ensures m == 0 || exists x :: x in refs && FreeOf(free, x) == m
  {
    if refs == {} then
      0
    else
      var x :| x in refs;
      var rest := MaxFree(free, refs - {x});
      assert forall y | y in refs :: y == x || y in refs - {x};
      if FreeOf(free, x) > rest then FreeOf(free, x) else rest
  }

  ghost function PoolGpus(l: Ledger, pool: set<string>): set<GpuRef> {
    set ref | ref in l.free && InPool(l, pool, ref)
  }

  ghost predicate SomeFits(l: Ledger, pool: set<string>, need: int) {
    exists ref :: ref in l.free && Fits(l, pool, need, ref)
  }

  // ----- one turn

  datatype Turn = Take(ref: GpuRef, ledger: Ledger) | Refuse(err: PackError)

  function Reserve(l: Ledger, ref: GpuRef, backend: string, need: int): Ledger
    requires ref in l.free
  {
    Ledger(l.free[ref := l.free[ref] - need], l.held + {Slot(ref, backend)})
  }

  ghost function TakeTurn(d: Demand, kept: map<Id, GpuRef>, l: Ledger): Turn {
    if d.spot.Unsized? then
      Refuse(BadVramMin(d.id.backend))
    else if d.id in kept then
      Take(kept[d.id], l)
    else
      match d.spot
      case Pinned(BadPin) => Refuse(UnparsedPin(d.id.backend))
      case Pinned(Pin(host, idx)) =>
        var ref := GpuRef(host, idx);
        if ref !in l.free then Refuse(UnknownGpu(d.id.backend, ref))
        else if l.free[ref] < d.need then Refuse(NoRoom(d.id.backend, d.id.replica, d.need, l.free[ref], false))
        else Take(ref, Reserve(l, ref, d.id.backend, d.need))
      case Anywhere(policy, pool) =>
        if Candidates(l, d.id.backend, pool, d.need) == {} then
          Refuse(NoRoom(d.id.backend, d.id.replica, d.need, MaxFree(l.free, PoolGpus(l, pool)), SomeFits(l, pool, d.need)))
        else
          var ref := Choice(policy, l, d.id.backend, pool, d.need);
          Take(ref, Reserve(l, ref, d.id.backend, d.need))
  }

  // ----- a list of turns

  datatype PackResult = Packed(out: seq<Placed>, ledger: Ledger) | Stuck(err: PackError)

  ghost function Pack(ds: seq<Demand>, kept: map<Id, GpuRef>, l: Ledger): PackResult {
    if ds == [] then
      Packed([], l)
    else
      match TakeTurn(ds[0], kept, l)
      case Refuse(err) => Stuck(err)
      case Take(ref, l') => Prefixed([Placed(ds[0].id, ref)], Pack(ds[1..], kept, l'))
  }

  function Prefixed(out: seq<Placed>, r: PackResult): PackResult {
    if r.Stuck? then r else Packed(out + r.out, r.ledger)
  }

  // ----- the demands of a configuration

  function NeedOf(b: Backend): int {
    match b.vramMin
    case Vram(mib) => Vram.NeededMiB(mib)
    case _ => 0
  }

  function ResolvePolicy(defaultPolicy: string, b: Backend): string {
    if b.policy != "" then b.policy
    else if defaultPolicy != "" then defaultPolicy
    else SPREAD
  }

  predicate GpuScheduled(b: Backend) {
    b.auto || b.pins != []
  }

  function Pool(b: Backend): set<string> {
    set h | h in b.pool
  }

  function Sized(b: Backend): int {
    if b.pins != [] then |b.pins| else if b.replicas < 0 then 0 else b.replicas
  }

  function DemandOf(defaultPolicy: string, name: string, b: Backend, r: nat): Demand
    requires r < Sized(b)
  {
    Demand(Id(name, r), NeedOf(b),
           if b.pins != [] then Pinned(b.pins[r]) else Anywhere(ResolvePolicy(defaultPolicy, b), Pool(b)))
  }

  function BackendDemands(defaultPolicy: string, name: string, b: Backend): seq<Demand> {
    if !GpuScheduled(b) then []
    else if b.vramMin.BadVram? then [Demand(Id(name, 0), 0, Unsized)]
    else seq(Sized(b), r requires 0 <= r < Sized(b) => DemandOf(defaultPolicy, name, b, r))
  }

  function Demands(defaultPolicy: string, backends: map<string, Backend>, names: seq<string>): seq<Demand>
    requires forall n | n in names :: n in backends
  {
    if names == [] then []
    else BackendDemands(defaultPolicy, names[0], backends[names[0]]) + Demands(defaultPolicy, backends, names[1..])
  }

  ghost function AllDemands(defaultPolicy: string, backends: map<string, Backend>): seq<Demand> {
    OrdersAreStrictTotal();
    Demands(defaultPolicy, backends, Sorted(backends.Keys, StringLess))
  }

  // Kept replicas are on their GPU already: held for anti-affinity, not deducted.
  ghost function Held(kept: map<Id, GpuRef>): set<Slot> {
    set id | id in kept :: Slot(kept[id], id.backend)
  }

  ghost function PlanDeltaSpec(defaultPolicy: string, backends: map<string, Backend>, free: map<GpuRef, int>,
                               kept: map<Id, GpuRef>): PackResult
  {
    Pack(AllDemands(defaultPolicy, backends), kept, Ledger(free, Held(kept)))
  }

  // The placements of one backend, in the order they were made.
  function Of(out: seq<Placed>, backend: string): seq<Placed> {
    if out == [] then []
    else
      var last := out[|out| - 1];
      Of(out[..|out| - 1], backend) + if last.id.backend == backend then [last] else []
  }

  // ----- the imperative packer

  // What the scan knows once it has visited the GPUs in seen.
  ghost predicate BestSoFar(l: Ledger, seen: set<GpuRef>, bestFree: int) {
    && bestFree >= -1
    && (forall x | x in seen :: FreeOf(l.free, x) <= bestFree)
    && (bestFree == -1 || exists x :: x in seen && FreeOf(l.free, x) == bestFree)
  }

  ghost predicate ChosenSoFar(policy: string, l: Ledger, backend: string, pool: set<string>, need: int,
                              seen: set<GpuRef>, chosen: GpuRef, ok: bool)
  {
    if ok then
      && chosen in seen
      && Eligible(l, backend, pool, need, chosen)
      && forall x | x in seen && Eligible(l, backend, pool, need, x) :: x == chosen || Preferred(policy, l.free, chosen, x)
    else
      forall x | x in seen :: !Eligible(l, backend, pool, need, x)
  }

  ghost predicate BlockedSoFar(l: Ledger, backend: string, pool: set<string>, need: int, seen: set<GpuRef>, blocked: bool) {
    blocked <==> exists x :: x in seen && Fits(l, pool, need, x) && Slot(x, backend) in l.held
  }

  ghost predicate Scanned(policy: string, l: Ledger, backend: string, pool: set<string>, need: int,
                          seen: set<GpuRef>, chosen: GpuRef, ok: bool, bestFree: int, blocked: bool)
  {
    && BestSoFar(l, seen, bestFree)
    && BlockedSoFar(l, backend, pool, need, seen, blocked)
    && ChosenSoFar(policy, l, backend, pool, need, seen, chosen, ok)
  }

  // Visiting one more GPU: it replaces the chosen one exactly when the policy prefers it.
  lemma ScanStep(policy: string, l: Ledger, backend: string, pool: set<string>, need: int,
                 seen: set<GpuRef>, chosen: GpuRef, ok: bool, bestFree: int, blocked: bool, ref: GpuRef)
    requires Scanned(policy, l, backend, pool, need, seen, chosen, ok, bestFree, blocked)
    requires InPool(l, pool, ref) && ref !in seen && forall x | x in seen :: RefLess(x, ref)
    ensures ok ==> chosen in l.free && RefLess(chosen, ref) && !RefLess(ref, chosen)
    ensures
      var best' := if l.free[ref] > bestFree then l.free[ref] else bestFree;
      var fits := l.free[ref] >= need;
      var held := Slot(ref, backend) in l.held;
      var take := fits && !held && (!ok || Preferred(policy, l.free, ref, chosen));
      Scanned(policy, l, backend, pool, need, seen + {ref}, if take then ref else chosen,
              ok || (fits && !held), best', blocked || (fits && held))
  {
    OrdersAreStrictTotal();
    var lt := Preference(policy, l.free);
    if ok && Preferred(policy, l.free, ref, chosen) {
      forall x | x in seen && Eligible(l, backend, pool, need, x) ensures Preferred(policy, l.free, ref, x) {
        assert lt(ref, chosen) && (x == chosen || lt(chosen, x));
      }
    } else if ok {
      assert ref == chosen || lt(ref, chosen) || lt(chosen, ref);
    }
    assert ref in seen + {ref};
  }

  ghost function Visited(refs: seq<GpuRef>, i: nat): set<GpuRef>
    requires i <= |refs|
  {
    set x | x in refs[..i]
  }

  lemma VisitNext(refs: seq<GpuRef>, i: nat)
    requires i < |refs| && Increasing(refs, RefLess)
    ensures Visited(refs, i + 1) == Visited(refs, i) + {refs[i]}
    ensures refs[i] !in Visited(refs, i) && forall x | x in Visited(refs, i) :: RefLess(x, refs[i])
  {
    OrdersAreStrictTotal();
    assert refs[..i + 1] == refs[..i] + [refs[i]];
  }

  lemma VisitedAll(refs: seq<GpuRef>, all: set<GpuRef>)
    requires forall x :: x in refs <==> x in all
    ensures Visited(refs, |refs|) == all
  {
  }

  lemma NothingScanned(policy: string, l: Ledger, backend: string, pool: set<string>, need: int, refs: seq<GpuRef>)
    ensures Scanned(policy, l, backend, pool, need, Visited(refs, 0), GpuRef("", 0), false, -1, false)
  {
  }

  // In (host, index) order.
  ghost predicate RefBefore(x: GpuRef, y: GpuRef) {
    StringLess(x.host, y.host) || (x.host == y.host && x.idx < y.idx)
  }

  // Among those that may be chosen: bin packing takes the least free memory, first-fit
  // the first GPU, any other policy the most free memory; ties go to the first.
  ghost predicate BestFor(policy: string, free: map<GpuRef, int>, may: GpuRef -> bool, chosen: GpuRef) {
    && may(chosen) && chosen in free
    && forall x | may(x) && x in free && x != chosen ::
         if policy == "binpack" then free[chosen] < free[x] || (free[chosen] == free[x] && RefBefore(chosen, x))
         else if policy == "first-fit" then RefBefore(chosen, x)
         else free[chosen] > free[x] || (free[chosen] == free[x] && RefBefore(chosen, x))
  }

  // The choice is the policy's.
  lemma ChoiceIsBest(policy: string, l: Ledger, backend: string, pool: set<string>, need: int)
    ensures Candidates(l, backend, pool, need) != {} <==>
              exists x :: x in l.free && x.host in pool && l.free[x] >= need && Slot(x, backend) !in l.held
    ensures Candidates(l, backend, pool, need) != {} ==>
              BestFor(policy, l.free, x => x in l.free && x.host in pool && l.free[x] >= need && Slot(x, backend) !in l.held,
                      Choice(policy, l, backend, pool, need))
  {
    if x :| x in l.free && x.host in pool && l.free[x] >= need && Slot(x, backend) !in l.held {
      assert x in Candidates(l, backend, pool, need);
    }
    if Candidates(l, backend, pool, need) != {} {
      var chosen := Choice(policy, l, backend, pool, need);
      hide Choice;
      forall x | x in l.free && x.host in pool && l.free[x] >= need && Slot(x, backend) !in l.held && x != chosen
        ensures Preferred(policy, l.free, chosen, x)
      {
        assert x in Candidates(l, backend, pool, need);
      }
    }
  }

  lemma BestOfPool(l: Ledger, pool: set<string>)
    ensures var best := MaxFree(l.free, PoolGpus(l, pool));
            && best >= 0 && (forall x | x in l.free && x.host in pool :: l.free[x] <= best)
            && (best > 0 ==> exists x :: x in l.free && x.host in pool && l.free[x] == best)
  {
    assert forall x | x in l.free && x.host in pool :: x in PoolGpus(l, pool) && FreeOf(l.free, x) == l.free[x];
  }

  // The answer in the words of the pool, the ledger and the policy's name.
  ghost predicate Selects(policy: string, l: Ledger, backend: string, pool: set<string>, need: int,
                          chosen: GpuRef, ok: bool, best: int, affinityBlocked: bool)
  {
    var may := (x: GpuRef) => x in l.free && x.host in pool && l.free[x] >= need && Slot(x, backend) !in l.held;
    && (ok <==> exists x :: x in l.free && may(x))
    && (ok ==> BestFor(policy, l.free, may, chosen))
    && best >= 0 && (forall x | x in l.free && x.host in pool :: l.free[x] <= best)
    && (best > 0 ==> exists x :: x in l.free && x.host in pool && l.free[x] == best)
    && (!ok ==> (affinityBlocked <==> exists x :: x in l.free && x.host in pool && l.free[x] >= need))
  }

  lemma SelectsAnswer(policy: string, l: Ledger, backend: string, pool: set<string>, need: int,
                  chosen: GpuRef, ok: bool, best: int, affinityBlocked: bool)
    requires ok <==> Candidates(l, backend, pool, need) != {}
    requires ok ==> chosen == Choice(policy, l, backend, pool, need)
    requires best == MaxFree(l.free, PoolGpus(l, pool))
    requires !ok ==> (affinityBlocked <==> SomeFits(l, pool, need))
    ensures Selects(policy, l, backend, pool, need, chosen, ok, best, affinityBlocked)
  {
    ChoiceIsBest(policy, l, backend, pool, need);
    BestOfPool(l, pool);
    hide Choice, Candidates, BestFor, MaxFree, PoolGpus;
  }

  // The scan over the pool's GPUs in (host, index) order.
  method SelectGpu(policy: string, l: Ledger, backend: string, pool: set<string>, need: int)
    returns (chosen: GpuRef, ok: bool, best: int, affinityBlocked: bool)
    ensures ok <==> Candidates(l, backend, pool, need) != {}
    ensures ok ==> chosen == Choice(policy, l, backend, pool, need)
    ensures best == MaxFree(l.free, PoolGpus(l, pool))
    ensures !ok ==> (affinityBlocked <==> SomeFits(l, pool, need))
    ensures !ok && !affinityBlocked && need >= 1 ==> best < need
    ensures Selects(policy, l, backend, pool, need, chosen, ok, best, affinityBlocked)
  {
    hide Scanned, Candidates, SomeFits, RefLess, Visited, Selects;
    OrdersAreStrictTotal();
    var poolGpus := set ref | ref in l.free && InPool(l, pool, ref);
    var refs := Sort(poolGpus, RefLess);
    var bestFree := -1;
    chosen, ok, affinityBlocked := GpuRef("", 0), false, false;
    NothingScanned(policy, l, backend, pool, need, refs);
    for i := 0 to |refs|
      invariant Scanned(policy, l, backend, pool, need, Visited(refs, i), chosen, ok, bestFree, affinityBlocked)
    {
      var ref := refs[i];
      assert ref in refs;
      VisitNext(refs, i);
      ScanStep(policy, l, backend, pool, need, Visited(refs, i), chosen, ok, bestFree, affinityBlocked, ref);
      var avail := l.free[ref];
      if avail > bestFree {
        bestFree := avail;
      }
      if avail < need {
        continue;
      }
      if Slot(ref, backend) in l.held {
        affinityBlocked := true;
        continue;
      }
      if !ok {
        chosen, ok := ref, true;
        continue;
      }
      if policy == BINPACK {
        if avail < l.free[chosen] {
          chosen := ref;
        }
      } else if policy == FIRST_FIT {
      } else {
        if avail > l.free[chosen] {
          chosen := ref;
        }
      }
    }
    VisitedAll(refs, PoolGpus(l, pool));
    best := if bestFree < 0 then 0 else bestFree;
    ScanDone(policy, l, backend, pool, need, chosen, ok, bestFree, affinityBlocked);
    SelectsAnswer(policy, l, backend, pool, need, chosen, ok, best, affinityBlocked);
  }

  lemma ScanDone(policy: string, l: Ledger, backend: string, pool: set<string>, need: int,
                 chosen: GpuRef, ok: bool, bestFree: int, blocked: bool)
    requires Scanned(policy, l, backend, pool, need, PoolGpus(l, pool), chosen, ok, bestFree, blocked)
    ensures ok <==> Candidates(l, backend, pool, need) != {}
    ensures ok ==> chosen == Choice(policy, l, backend, pool, need)
    ensures (if bestFree < 0 then 0 else bestFree) == MaxFree(l.free, PoolGpus(l, pool))
    ensures !ok ==> (blocked <==> SomeFits(l, pool, need))
    ensures !ok && !blocked && need >= 1 ==> MaxFree(l.free, PoolGpus(l, pool)) < need
  {
    if ok {
      ChoiceUnique(policy, l, backend, pool, need, chosen);
    } else if SomeFits(l, pool, need) {
      var ref :| ref in l.free && Fits(l, pool, need, ref);
      assert ref in PoolGpus(l, pool) && !Eligible(l, backend, pool, need, ref);
    }
  }
}

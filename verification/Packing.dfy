// Theorems about the greedy packer, and PlanDelta itself.
module Packing {
  import opened Order
  import opened Fleet
  import opened Schedule

  ghost predicate Distinct(ds: seq<Demand>) {
    forall i, j | 0 <= i < j < |ds| :: ds[i].id != ds[j].id
  }

  // ----- the shape of a run

  lemma PrefixedTwice(a: seq<Placed>, b: seq<Placed>, r: PackResult)
    ensures Prefixed(a, Prefixed(b, r)) == Prefixed(a + b, r)
  {
    if r.Packed? {
      assert a + (b + r.out) == a + b + r.out;
    }
  }

  lemma {:induction false} PackConcat(a: seq<Demand>, b: seq<Demand>, kept: map<Id, GpuRef>, l: Ledger)
    ensures Pack(a + b, kept, l)
         == match Pack(a, kept, l)
            case Stuck(err) => Stuck(err)
            case Packed(out, l') => Prefixed(out, Pack(b, kept, l'))
  {
    if a == [] {
      assert a + b == b;
      assert Pack(b, kept, l).Packed? ==> [] + Pack(b, kept, l).out == Pack(b, kept, l).out;
    } else {
      assert (a + b)[1..] == a[1..] + b && (a + b)[0] == a[0];
      match TakeTurn(a[0], kept, l)
      case Refuse(_) =>
      case Take(ref, l1) =>
        PackConcat(a[1..], b, kept, l1);
        var rest := Pack(a[1..], kept, l1);
        if rest.Packed? {
          PrefixedTwice([Placed(a[0].id, ref)], rest.out, Pack(b, kept, rest.ledger));
        }
    }
  }

  // What one placement may be, given what was asked.
  ghost predicate Answers(d: Demand, kept: map<Id, GpuRef>, free: map<GpuRef, int>, p: Placed) {
    && p.id == d.id
    && !d.spot.Unsized?
    && (d.id in kept ==> p.ref == kept[d.id])
    && (d.id !in kept ==> p.ref in free)
    && (d.id !in kept && d.spot.Pinned? ==> d.spot.pin == Pin(p.ref.host, p.ref.idx))
    && (d.id !in kept && d.spot.Anywhere? ==> p.ref.host in d.spot.pool)
  }

  // Coverage: a successful packing answers every demand once, in order; kept replicas
  // stay where they are, the others land on schedulable GPUs of their pin or pool.
  lemma {:induction false} PackCovers(ds: seq<Demand>, kept: map<Id, GpuRef>, l: Ledger)
    requires Pack(ds, kept, l).Packed?
    ensures |Pack(ds, kept, l).out| == |ds|
    ensures forall i | 0 <= i < |ds| :: Answers(ds[i], kept, l.free, Pack(ds, kept, l).out[i])
    ensures Pack(ds, kept, l).ledger.free.Keys == l.free.Keys
    ensures l.held <= Pack(ds, kept, l).ledger.held
  {
    if ds != [] {
      var l1 := TakeTurn(ds[0], kept, l).ledger;
      assert l1.free.Keys == l.free.Keys;
      PackCovers(ds[1..], kept, l1);
      var out := Pack(ds, kept, l).out;
      assert out[1..] == Pack(ds[1..], kept, l1).out;
      forall i | 0 <= i < |ds| ensures Answers(ds[i], kept, l.free, out[i]) {
        if i > 0 {
          assert ds[i] == ds[1..][i - 1] && out[i] == out[1..][i - 1];
        }
      }
    }
  }

  // ----- conservation

  function Charge(d: Demand, kept: map<Id, GpuRef>, p: Placed, g: GpuRef): int {
    if d.id !in kept && p.ref == g then d.need else 0
  }

  // Memory that the run reserves on g.
  function Reserved(ds: seq<Demand>, kept: map<Id, GpuRef>, out: seq<Placed>, g: GpuRef): int
    requires |ds| == |out|
  {
    if ds == [] then 0 else Charge(ds[0], kept, out[0], g) + Reserved(ds[1..], kept, out[1..], g)
  }

  // No over-commit: on every GPU the ledger plus what was reserved is what was free at
  // the start, and it never goes below zero.
  lemma {:induction false} PackConserves(ds: seq<Demand>, kept: map<Id, GpuRef>, l: Ledger, g: GpuRef)
    requires Pack(ds, kept, l).Packed? && g in l.free
    ensures |Pack(ds, kept, l).out| == |ds| && g in Pack(ds, kept, l).ledger.free
    ensures Pack(ds, kept, l).ledger.free[g] + Reserved(ds, kept, Pack(ds, kept, l).out, g) == l.free[g]
    ensures l.free[g] >= 0 ==> Pack(ds, kept, l).ledger.free[g] >= 0
  {
    if ds != [] {
      var l1 := TakeTurn(ds[0], kept, l).ledger;
      PackConserves(ds[1..], kept, l1, g);
      assert Pack(ds, kept, l).out[1..] == Pack(ds[1..], kept, l1).out;
    }
  }

  // ----- anti-affinity

  lemma {:induction false} PackAvoidsHeld(ds: seq<Demand>, kept: map<Id, GpuRef>, l: Ledger, i: nat)
    requires Pack(ds, kept, l).Packed? && i < |ds| && ds[i].id !in kept && ds[i].spot.Anywhere?
    ensures |Pack(ds, kept, l).out| == |ds|
    ensures Slot(Pack(ds, kept, l).out[i].ref, ds[i].id.backend) !in l.held
  {
    PackCovers(ds, kept, l);
    if i > 0 {
      var l1 := TakeTurn(ds[0], kept, l).ledger;
      PackAvoidsHeld(ds[1..], kept, l1, i - 1);
      assert Pack(ds, kept, l).out[i] == Pack(ds[1..], kept, l1).out[i - 1];
    }
  }

  lemma HeadReserved(ds: seq<Demand>, kept: map<Id, GpuRef>, l: Ledger)
    requires Pack(ds, kept, l).Packed? && ds != []
    ensures var l1 := TakeTurn(ds[0], kept, l).ledger;
            && Pack(ds[1..], kept, l1).Packed?
            && (ds[0].id !in kept ==> Slot(Pack(ds, kept, l).out[0].ref, ds[0].id.backend) in l1.held)
  {
  }

  lemma {:induction false} AvoidsLater(ds: seq<Demand>, kept: map<Id, GpuRef>, l: Ledger, i: nat, j: nat)
    requires Pack(ds, kept, l).Packed? && i < j < |ds| && ds[i].id.backend == ds[j].id.backend
    requires ds[i].id !in kept && !ds[i].spot.Unsized? && ds[j].id !in kept && ds[j].spot.Anywhere?
    ensures |Pack(ds, kept, l).out| == |ds|
    ensures Pack(ds, kept, l).out[i].ref != Pack(ds, kept, l).out[j].ref
  {
    PackCovers(ds, kept, l);
    var out, l1 := Pack(ds, kept, l).out, TakeTurn(ds[0], kept, l).ledger;
    var rest := Pack(ds[1..], kept, l1).out;
    assert out[1..] == rest;
    HeadReserved(ds, kept, l);
    hide Pack, TakeTurn, Reserve, Answers;
    if i == 0 {
      PackAvoidsHeld(ds[1..], kept, l1, j - 1);
    } else {
      AvoidsLater(ds[1..], kept, l1, i - 1, j - 1);
      assert out[i] == rest[i - 1];
    }
    assert out[j] == rest[j - 1];
  }

  // A newly placed auto replica shares its GPU with no other replica of its backend,
  // kept or new.
  lemma AntiAffinity(ds: seq<Demand>, kept: map<Id, GpuRef>, l: Ledger, i: nat, j: nat)
    requires Pack(ds, kept, l).Packed? && Held(kept) <= l.held
    requires i < |ds| && j < |ds| && i != j && ds[i].id.backend == ds[j].id.backend
    requires ds[i].id !in kept && ds[i].spot.Anywhere?
    requires ds[j].id in kept || ds[j].spot.Anywhere?
    ensures |Pack(ds, kept, l).out| == |ds|
    ensures Pack(ds, kept, l).out[i].ref != Pack(ds, kept, l).out[j].ref
  {
    if ds[j].id in kept {
      PackCovers(ds, kept, l);
      assert Answers(ds[j], kept, l.free, Pack(ds, kept, l).out[j]);
      assert Slot(kept[ds[j].id], ds[j].id.backend) in Held(kept);
      PackAvoidsHeld(ds, kept, l, i);
    } else if i < j {
      AvoidsLater(ds, kept, l, i, j);
    } else {
      AvoidsLater(ds, kept, l, j, i);
    }
  }

  // ----- exact feasibility

  function Missing(ds: seq<Demand>, kept: map<Id, GpuRef>): nat {
    if ds == [] then 0 else (if ds[0].id in kept then 0 else 1) + Missing(ds[1..], kept)
  }

  lemma ReserveShrinks(l: Ledger, backend: string, pool: set<string>, need: int, ref: GpuRef)
    requires ref in Candidates(l, backend, pool, need)
    ensures Candidates(Reserve(l, ref, backend, need), backend, pool, need) == Candidates(l, backend, pool, need) - {ref}
  {
  }

  // For one auto backend, under every policy: the loop succeeds exactly when there are
  // at least as many eligible GPUs as missing replicas.
  lemma {:induction false} AutoFeasible(ds: seq<Demand>, kept: map<Id, GpuRef>, l: Ledger,
                                        name: string, policy: string, pool: set<string>, need: int)
    requires forall d | d in ds :: d == Demand(Id(name, d.id.replica), need, Anywhere(policy, pool))
    ensures Pack(ds, kept, l).Packed? <==> |Candidates(l, name, pool, need)| >= Missing(ds, kept)
  {
    if ds != [] {
      var d := ds[0];
      assert d in ds;
      if d.id in kept {
        AutoFeasible(ds[1..], kept, l, name, policy, pool, need);
      } else if Candidates(l, name, pool, need) != {} {
        var ref := Choice(policy, l, name, pool, need);
        ReserveShrinks(l, name, pool, need, ref);
        AutoFeasible(ds[1..], kept, Reserve(l, ref, name, need), name, policy, pool, need);
      } else {
        assert |Candidates(l, name, pool, need)| == 0;
      }
    }
  }

  // When it fails, it fails at the missing replica for which exactly as many replicas
  // were placed before as there were eligible GPUs.
  lemma {:induction false} AutoFailsLate(ds: seq<Demand>, kept: map<Id, GpuRef>, l: Ledger,
                                         name: string, policy: string, pool: set<string>, need: int) returns (i: nat)
    requires forall d | d in ds :: d == Demand(Id(name, d.id.replica), need, Anywhere(policy, pool))
    requires Pack(ds, kept, l).Stuck?
    ensures i < |ds| && ds[i].id !in kept
    ensures Missing(ds[..i], kept) == |Candidates(l, name, pool, need)|
    ensures Pack(ds, kept, l).err.NoRoom? && Pack(ds, kept, l).err.replica == ds[i].id.replica
    ensures Pack(ds[..i], kept, l).Packed?
  {
    var d := ds[0];
    assert d in ds;
    if d.id !in kept && Candidates(l, name, pool, need) == {} {
      i := 0;
      assert |Candidates(l, name, pool, need)| == 0;
    } else {
      if d.id !in kept {
        ReserveShrinks(l, name, pool, need, Choice(policy, l, name, pool, need));
      }
      var k := AutoFailsLate(ds[1..], kept, TakeTurn(d, kept, l).ledger, name, policy, pool, need);
      i := k + 1;
      assert ds[..i][1..] == ds[1..][..k] && ds[..i][0] == d;
    }
  }

  // ----- why a run stops

  // A GPU this demand could have, kept replicas aside.
  ghost predicate Acceptable(d: Demand, l: Ledger, ref: GpuRef) {
    match d.spot
    case Unsized => false
    case Pinned(pin) => pin == Pin(ref.host, ref.idx) && ref in l.free && l.free[ref] >= d.need
    case Anywhere(_, pool) =>
      ref in l.free && ref.host in pool && l.free[ref] >= d.need && Slot(ref, d.id.backend) !in l.held
  }

  // The error tells the truth about the ledger at that point.
  ghost predicate Explains(d: Demand, l: Ledger, err: PackError) {
    && err.backend == d.id.backend
    && match err
       case BadVramMin(_) => d.spot == Unsized
       case UnparsedPin(_) => d.spot == Pinned(BadPin)
       case UnknownGpu(_, ref) => d.spot == Pinned(Pin(ref.host, ref.idx)) && ref !in l.free
       case NoRoom(_, r, needed, best, anti) =>
         && r == d.id.replica && needed == d.need
         && match d.spot
            case Unsized => false
            case Pinned(pin) => pin.Pin? && GpuRef(pin.host, pin.idx) in l.free && best == l.free[GpuRef(pin.host, pin.idx)] && best < needed && !anti
            case Anywhere(_, pool) =>
              && best >= 0 && (forall x | x in l.free && x.host in pool :: l.free[x] <= best)
              && (best > 0 ==> exists x :: x in l.free && x.host in pool && l.free[x] == best)
              && (anti <==> exists x :: x in l.free && x.host in pool && l.free[x] >= needed)
              && (forall x | x in l.free && x.host in pool && l.free[x] >= needed :: Slot(x, d.id.backend) in l.held)
  }

  // The packer gives up only at a replica that is not kept and for which no GPU will
  // do, and its error is about that replica.
  lemma {:induction false} StuckExplained(ds: seq<Demand>, kept: map<Id, GpuRef>, l: Ledger) returns (i: nat)
    requires Pack(ds, kept, l).Stuck?
    ensures i < |ds| && Pack(ds[..i], kept, l).Packed?
    ensures ds[i].spot.Unsized? || ds[i].id !in kept
    ensures forall ref :: !Acceptable(ds[i], Pack(ds[..i], kept, l).ledger, ref)
    ensures Explains(ds[i], Pack(ds[..i], kept, l).ledger, Pack(ds, kept, l).err)
  {
    if TakeTurn(ds[0], kept, l).Refuse? {
      i := 0;
      if ds[0].spot.Anywhere? {
        forall ref ensures !Acceptable(ds[0], l, ref) {
          assert ref !in Candidates(l, ds[0].id.backend, ds[0].spot.pool, ds[0].need);
        }
      }
      RefusalExplained(ds[0], kept, l);
    } else {
      var k := StuckExplained(ds[1..], kept, TakeTurn(ds[0], kept, l).ledger);
      i := k + 1;
      assert ds[..i][1..] == ds[1..][..k] && ds[..i][0] == ds[0];
    }
  }

  lemma RefusalExplained(d: Demand, kept: map<Id, GpuRef>, l: Ledger)
    requires TakeTurn(d, kept, l).Refuse?
    ensures Explains(d, l, TakeTurn(d, kept, l).err)
  {
    if d.spot.Anywhere? {
      var pool := d.spot.pool;
      BestOfPool(l, pool);
      assert SomeFits(l, pool, d.need) <==> exists x :: x in l.free && x.host in pool && l.free[x] >= d.need;
      forall x | x in l.free && x.host in pool && l.free[x] >= d.need ensures Slot(x, d.id.backend) in l.held {
        assert x !in Candidates(l, d.id.backend, pool, d.need);
      }
      hide MaxFree, Candidates, PoolGpus, SomeFits;
    }
  }

  // ----- restarting

  lemma {:induction false} PackKeptAgree(ds: seq<Demand>, kept: map<Id, GpuRef>, kept': map<Id, GpuRef>, l: Ledger)
    requires forall d | d in ds :: (d.id in kept <==> d.id in kept') && (d.id in kept ==> kept[d.id] == kept'[d.id])
    ensures Pack(ds, kept, l) == Pack(ds, kept', l)
  {
    if ds != [] {
      assert ds[0] in ds;
      assert TakeTurn(ds[0], kept, l) == TakeTurn(ds[0], kept', l);
      if TakeTurn(ds[0], kept, l).Take? {
        PackKeptAgree(ds[1..], kept, kept', TakeTurn(ds[0], kept, l).ledger);
      }
    }
  }

  // Carry out the first new placement, observe it as kept and its memory as gone:
  // the packer then makes every later choice as before.
  lemma {:induction false} PackResumes(ds: seq<Demand>, kept: map<Id, GpuRef>, l: Ledger, i: nat)
    requires Pack(ds, kept, l).Packed? && Distinct(ds)
    requires i < |ds| && ds[i].id !in kept
    requires forall j | 0 <= j < i :: ds[j].id in kept
    ensures |Pack(ds, kept, l).out| == |ds| && Pack(ds, kept, l).out[i].ref in l.free
    ensures var ref := Pack(ds, kept, l).out[i].ref;
            Pack(ds, kept[ds[i].id := ref], Reserve(l, ref, ds[i].id.backend, ds[i].need)) == Pack(ds, kept, l)
  {
    PackCovers(ds, kept, l);
    var out := Pack(ds, kept, l).out;
    assert Answers(ds[i], kept, l.free, out[i]);
    var ref := out[i].ref;
    var kept' := kept[ds[i].id := ref];
    var l' := Reserve(l, ref, ds[i].id.backend, ds[i].need);
    assert !ds[0].spot.Unsized?;
    if i == 0 {
      assert TakeTurn(ds[0], kept, l) == Take(ref, l');
      PackKeptAgree(ds[1..], kept, kept', l');
    } else {
      PackResumes(ds[1..], kept, l, i - 1);
      assert out[1..] == Pack(ds[1..], kept, l).out;
    }
  }

  ghost function Echo(ds: seq<Demand>, kept: map<Id, GpuRef>): seq<Placed>
    requires forall d | d in ds :: d.id in kept
  {
    if ds == [] then [] else [Placed(ds[0].id, kept[ds[0].id])] + Echo(ds[1..], kept)
  }

  // With everything kept the packer echoes, whatever is free or held.
  lemma {:induction false} PackEchoes(ds: seq<Demand>, kept: map<Id, GpuRef>, l: Ledger)
    requires forall d | d in ds :: d.id in kept && !d.spot.Unsized?
    ensures Pack(ds, kept, l) == Packed(Echo(ds, kept), l)
  {
    if ds != [] {
      assert ds[0] in ds;
      PackEchoes(ds[1..], kept, l);
    }
  }

  // Feeding a whole result back as kept returns it unchanged for any state.
  lemma {:induction false} PackIdempotent(ds: seq<Demand>, kept: map<Id, GpuRef>, l: Ledger,
                                          again: map<Id, GpuRef>, l': Ledger)
    requires Pack(ds, kept, l).Packed?
    requires forall p | p in Pack(ds, kept, l).out :: p.id in again && again[p.id] == p.ref
    ensures Pack(ds, again, l') == Packed(Pack(ds, kept, l).out, l')
  {
    if ds != [] {
      PackCovers(ds, kept, l);
      var out := Pack(ds, kept, l).out;
      assert Answers(ds[0], kept, l.free, out[0]) && out[0] in out;
      var l1 := TakeTurn(ds[0], kept, l).ledger;
      assert out == [out[0]] + Pack(ds[1..], kept, l1).out;
      PackIdempotent(ds[1..], kept, l1, again, l');
    }
  }
}

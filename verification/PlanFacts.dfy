// What the planner's pieces consist of: the wanted replicas, their demands, the updates,
// and a successful packing.
module PlanFacts {
  import opened Wrappers
  import opened Order
  import opened Fleet
  import opened Schedule
  import opened Packing
  import opened Packer
  import opened Plan

  // ----- wanted replicas and demands

  lemma {:induction false} SlotsAreWanted(cfg: Config, err: set<string>, names: seq<string>, id: Id)
    ensures id in Slots(cfg, err, names) <==> id.backend in names && Wanted(cfg, err, id)
  {
    if names != [] {
      SlotsAreWanted(cfg, err, names[1..], id);
      if Planned(cfg, err, names[0]) {
        var front := BackendSlots(names[0], cfg.backends[names[0]]);
        assert id in front <==> id.backend == names[0] && 0 <= id.replica < cfg.backends[names[0]].replicas by {
          if id.backend == names[0] && 0 <= id.replica < cfg.backends[names[0]].replicas {
            assert front[id.replica] == id;
          }
        }
      }
    }
  }

  ghost predicate NoDup(ids: seq<Id>) {
    forall i, j | 0 <= i < j < |ids| :: ids[i] != ids[j]
  }

  lemma {:induction false} SlotsDistinct(cfg: Config, err: set<string>, names: seq<string>)
    requires forall i, j | 0 <= i < j < |names| :: names[i] != names[j]
    ensures NoDup(Slots(cfg, err, names))
  {
    if names != [] {
      SlotsDistinct(cfg, err, names[1..]);
      forall id | id in Slots(cfg, err, names[1..]) ensures id.backend != names[0] {
        SlotsAreWanted(cfg, err, names[1..], id);
      }
    }
  }

  lemma NamesDistinct<V>(m: map<string, V>)
    ensures forall i, j | 0 <= i < j < |Names(m)| :: Names(m)[i] != Names(m)[j]
    ensures forall n :: n in Names(m) <==> n in m
  {
    OrdersAreStrictTotal();
    IncreasingNoDup(Names(m), StringLess);
  }

  // The demands handed to the packer are exactly the wanted replicas.
  lemma DemandsAreWanted(cfg: Config, err: set<string>)
    requires cfg.Valid()
    ensures var ds := AllDemands(cfg.policy, SchedBackends(cfg, err));
            && Distinct(ds)
            && (forall d | d in ds && !d.spot.Unsized? ::
                  Wanted(cfg, err, d.id) && d == DemandOf(cfg.policy, d.id.backend, cfg.backends[d.id.backend], d.id.replica))
  {
    var bs := SchedBackends(cfg, err);
    NamesDistinct(bs);
    DemandsDistinct(cfg.policy, bs, Names(bs));
    forall d | d in AllDemands(cfg.policy, bs) && !d.spot.Unsized?
      ensures Wanted(cfg, err, d.id) && d == DemandOf(cfg.policy, d.id.backend, cfg.backends[d.id.backend], d.id.replica)
    {
      DemandsOfOthers(cfg.policy, bs, Names(bs), d);
    }
  }

  lemma {:induction false} UpdatesTargetIds(cfg: Config, reps: map<Id, ObsReplica>, ids: seq<Id>)
    ensures forall a | a in Updates(cfg, reps, ids) ::
              && a.UpdateReplica? && a.Target() in ids && a.Target() in reps && a.backend in cfg.backends
              && Stale(cfg, a.Target(), reps[a.Target()])
              && a == UpdateReplica(a.backend, a.replica, reps[a.Target()].ref.host, reps[a.Target()].ref.idx,
                                    cfg.backends[a.backend].imageTag, reps[a.Target()].tag)
    ensures forall id | id in ids && id in reps && id.backend in cfg.backends && Stale(cfg, id, reps[id]) ::
              exists a :: a in Updates(cfg, reps, ids) && a.UpdateReplica? && a.Target() == id
  {
    if ids != [] {
      UpdatesTargetIds(cfg, reps, ids[1..]);
      forall id | id in ids && id in reps && id.backend in cfg.backends && Stale(cfg, id, reps[id])
        ensures exists a :: a in Updates(cfg, reps, ids) && a.UpdateReplica? && a.Target() == id
      {
        if id == ids[0] {
          assert UpdateOf(cfg, id, reps[id])[0] in Updates(cfg, reps, ids);
        } else {
          assert id in ids[1..];
          var a :| a in Updates(cfg, reps, ids[1..]) && a.UpdateReplica? && a.Target() == id;
          assert a in Updates(cfg, reps, ids);
        }
      }
    }
  }

  // ----- what a successful packing consists of

  lemma PackedIsSized(cfg: Config, o: Observed)
    requires Scheduled(cfg, o).Packed?
    ensures AllSized(SchedBackends(cfg, o.err))
  {
    var bs := SchedBackends(cfg, o.err);
    NamesDistinct(bs);
    var ds := AllDemands(cfg.policy, bs);
    PackCovers(ds, Kept(cfg, o.err, o.reps), Ledger(o.free, Held(Kept(cfg, o.err, o.reps))));
    forall i | 0 <= i < |ds| ensures !ds[i].spot.Unsized? {
      assert Answers(ds[i], Kept(cfg, o.err, o.reps), o.free, Scheduled(cfg, o).out[i]);
    }
    forall n | n in bs && GpuScheduled(bs[n]) ensures !bs[n].vramMin.BadVram? {
      if bs[n].vramMin.BadVram? {
        var i := UnsizedExists(cfg.policy, bs, Names(bs), n);
        assert false;
      }
    }
  }

  lemma {:induction false} UnsizedExists(policy: string, bs: map<string, Backend>, names: seq<string>, n: string) returns (i: nat)
    requires (forall m | m in names :: m in bs) && n in names && GpuScheduled(bs[n]) && bs[n].vramMin.BadVram?
    ensures i < |Demands(policy, bs, names)| && Demands(policy, bs, names)[i].spot.Unsized?
  {
    if names[0] == n {
      i := 0;
    } else {
      var k := UnsizedExists(policy, bs, names[1..], n);
      i := |BackendDemands(policy, names[0], bs[names[0]])| + k;
    }
  }

  lemma OutShape(cfg: Config, o: Observed)
    requires Scheduled(cfg, o).Packed?
    ensures SameIds(AllDemands(cfg.policy, SchedBackends(cfg, o.err)), Scheduled(cfg, o).out)
    ensures forall p | p in Scheduled(cfg, o).out :: Planned(cfg, o.err, p.id.backend)
  {
    var out, bs := Scheduled(cfg, o).out, SchedBackends(cfg, o.err);
    var ds, kept := AllDemands(cfg.policy, bs), Kept(cfg, o.err, o.reps);
    NamesDistinct(bs);
    PackCovers(ds, kept, Ledger(o.free, Held(kept)));
    forall i | 0 <= i < |ds| ensures ds[i].id == out[i].id && Planned(cfg, o.err, out[i].id.backend) {
      assert Answers(ds[i], kept, o.free, out[i]) && ds[i] in ds;
      DemandsOfOthers(cfg.policy, bs, Names(bs), ds[i]);
    }
  }

  // Each planned backend's placements are its replicas 0..n-1, in order.
  lemma BackendCovered(cfg: Config, o: Observed, backend: string)
    requires Scheduled(cfg, o).Packed? && Planned(cfg, o.err, backend)
    ensures CoversBackend(Of(Scheduled(cfg, o).out, backend), backend, cfg.backends[backend])
  {
    var bs := SchedBackends(cfg, o.err);
    OutShape(cfg, o);
    PackedIsSized(cfg, o);
    NamesDistinct(bs);
    GroupedByBackend(cfg.policy, bs, Names(bs), Scheduled(cfg, o).out);
    assert backend in Names(bs);
  }
}

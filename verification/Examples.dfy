// Concrete fleets at which a promise fails. Each lemma gives the input; the exact
// condition is the lemma it names.
module Examples {
  import opened Wrappers
  import opened Order
  import opened Fleet
  import opened Schedule
  import opened Packing
  import opened Packer
  import opened Plan
  import opened PlanFacts
  import opened World
  import opened Apply
  import opened Rollback
  import Override
  import Observe
  import Services
  import HoldRun
  import Reconcile

  const G0 := GpuRef("h", 0)
  const G1 := GpuRef("h", 1)

  // One backend placed anywhere on the host, needing 12 MiB; one pinned to the second GPU,
  // needing 24; a service that uses the pinned one.
  const ANYWHERE := Backend("t", "v1", 1, Vram(10), true, [], ["h"], "")
  const PINNED := Backend("t", "v1", 1, Vram(20), false, [Pin("h", 1)], [], "")
  const WEB := Service("w", "h", "v1", ["c"])

  function Cfg(): Config {
    Config("compose.yml", map[], map[], "", map["a" := ANYWHERE, "c" := PINNED], map["web" := WEB])
  }

  const DEMAND_A := Demand(Id("a", 0), 12, Anywhere("spread", {"h"}))
  const DEMAND_C := Demand(Id("c", 0), 24, Pinned(Pin("h", 1)))

  lemma CfgIsValid()
    ensures Cfg().Valid()
    ensures SchedBackends(Cfg(), {}) == Cfg().backends
    ensures NeedAt(Cfg(), "a") == 12
  {
  }

  lemma CfgNames()
    ensures Names(Cfg().backends) == ["a", "c"] && Names(Cfg().services) == ["web"]
  {
    OrdersAreStrictTotal();
    SortedUnique(["a", "c"], Cfg().backends.Keys, StringLess);
    SortedUnique(["web"], Cfg().services.Keys, StringLess);
  }

  lemma DemandsOfA()
    ensures BackendDemands("", "a", ANYWHERE) == [DEMAND_A]
  {
    assert Pool(ANYWHERE) == {"h"};
  }

  lemma DemandsOfC()
    ensures BackendDemands("", "c", PINNED) == [DEMAND_C]
  {
  }

  lemma CfgDemands()
    ensures AllDemands("", Cfg().backends) == [DEMAND_A, DEMAND_C]
  {
    CfgNames();
    DemandsOfA();
    DemandsOfC();
    hide BackendDemands;
    var bs := Cfg().backends;
    assert ["a", "c"][1..] == ["c"] && ["c"][1..] == [];
    assert Demands("", bs, []) == [];
    assert Demands("", bs, ["c"]) == [DEMAND_C];
    assert Demands("", bs, ["a", "c"]) == [DEMAND_A] + [DEMAND_C];
  }

  lemma CfgSlots()
    ensures Slots(Cfg(), {}, ["a", "c"]) == [Id("a", 0), Id("c", 0)]
  {
    assert BackendSlots("a", ANYWHERE) == [Id("a", 0)] && BackendSlots("c", PINNED) == [Id("c", 0)];
    assert ["a", "c"][1..] == ["c"] && ["c"][1..] == [];
    assert Slots(Cfg(), {}, ["c"]) == [Id("c", 0)];
  }

  // ----- pins are not placed first

  const FREE := map[G0 := 12, G1 := 24]

  lemma SpreadTakesTheLargest()
    ensures TakeTurn(DEMAND_A, map[], Ledger(FREE, {}))
         == Take(G1, Ledger(map[G0 := 12, G1 := 12], {Slot(G1, "a")}))
  {
    ChoiceUnique("spread", Ledger(FREE, {}), "a", {"h"}, 12, G1);
    assert FREE[G1 := 12] == map[G0 := 12, G1 := 12];
  }

  // The backend that may go anywhere is first by name and takes the GPU that the other
  // one is pinned to, so the packer gives up; with the pin first there is room for both.
  // (Packer.PinsFirstExact has the condition.)
  lemma PinnedBackendIsStarved()
    ensures PlanDeltaSpec("", Cfg().backends, FREE, map[]) == Stuck(NoRoom("c", 0, 24, 12, false))
    ensures Pack([DEMAND_C, DEMAND_A], map[], Ledger(FREE, {})).Packed?
  {
    CfgDemands();
    NameOrderIsStuck();
    PinOrderPacks();
    hide AllDemands, Pack;
    assert Held(map[]) == {};
  }

  lemma NameOrderIsStuck()
    ensures Pack([DEMAND_A, DEMAND_C], map[], Ledger(FREE, {})) == Stuck(NoRoom("c", 0, 24, 12, false))
  {
    SpreadTakesTheLargest();
    hide Choice, Candidates;
    var l := Ledger(map[G0 := 12, G1 := 12], {Slot(G1, "a")});
    assert [DEMAND_A, DEMAND_C][1..] == [DEMAND_C];
    assert Pack([DEMAND_C], map[], l) == Stuck(NoRoom("c", 0, 24, 12, false));
  }

  lemma PinOrderPacks()
    ensures Pack([DEMAND_C, DEMAND_A], map[], Ledger(FREE, {})).Packed?
  {
    var l := Ledger(FREE[G1 := 0], {Slot(G1, "c")});
    assert TakeTurn(DEMAND_C, map[], Ledger(FREE, {})) == Take(G1, l);
    ChoiceUnique("spread", l, "a", {"h"}, 12, G0);
    hide Choice;
    assert [DEMAND_C, DEMAND_A][1..] == [DEMAND_A] && [DEMAND_A][1..] == [];
    assert Pack([DEMAND_A], map[], l).Packed?;
  }

  // ----- a fleet with the first replica up, at some tag, and the pinned one missing

  function With(tag: string): Observed {
    Observed({}, map[Id("a", 0) := ObsReplica(G0, tag, "")], map["web" := ObsService("v1", "")],
             map[SvcAt("web", "h") := ObsService("v1", "")], map[G0 := 0, G1 := 24])
  }

  lemma WithIsOrderly(tag: string)
    ensures Observe.Orderly(With(tag))
  {
    var hosted := With(tag).hosted;
    assert Observe.IsLast(hosted, SvcAt("web", "h"));
    Observe.LastIs(hosted, SvcAt("web", "h"));
  }

  const PLACE_C := PlaceReplica("c", 0, "h", 1, "v1")
  const WIRE := Rewire("web", "c", "h", ["h"])

  function UpdatesAt(tag: string): seq<Action> {
    if tag == "v1" then [] else [UpdateReplica("a", 0, "h", 0, "v1", tag)]
  }

  lemma KeptAt(tag: string)
    ensures Kept(Cfg(), {}, With(tag).reps) == map[Id("a", 0) := G0]
  {
    CfgIsValid();
    assert Wanted(Cfg(), {}, Id("a", 0));
  }

  lemma PackedAt(tag: string)
    ensures Scheduled(Cfg(), With(tag)).Packed?
    ensures Scheduled(Cfg(), With(tag)).out == [Placed(Id("a", 0), G0), Placed(Id("c", 0), G1)]
  {
    CfgIsValid();
    CfgDemands();
    KeptAt(tag);
    var kept := map[Id("a", 0) := G0];
    PackedAfterKept(Held(kept));
    hide Kept, AllDemands, SchedBackends, Pack;
    assert Scheduled(Cfg(), With(tag)) == Pack([DEMAND_A, DEMAND_C], kept, Ledger(With(tag).free, Held(kept)));
  }

  lemma PackedAfterKept(held: set<Slot>)
    ensures var kept := map[Id("a", 0) := G0];
            var packed := Pack([DEMAND_A, DEMAND_C], kept, Ledger(map[G0 := 0, G1 := 24], held));
            packed.Packed? && packed.out == [Placed(Id("a", 0), G0), Placed(Id("c", 0), G1)]
  {
    var kept, l := map[Id("a", 0) := G0], Ledger(map[G0 := 0, G1 := 24], held);
    assert [DEMAND_A, DEMAND_C][1..] == [DEMAND_C] && [DEMAND_C][1..] == [];
    var l' := Reserve(l, G1, "c", 24);
    assert TakeTurn(DEMAND_C, kept, l) == Take(G1, l') && Pack([], kept, l') == Packed([], l');
    var last := Pack([DEMAND_C], kept, l);
    assert last.Packed? && last.out == [Placed(Id("c", 0), G1)];
  }

  lemma UpdatedAt(tag: string)
    ensures UpdatePhase(Cfg(), {}, With(tag).reps) == UpdatesAt(tag)
    ensures DrainPhase(Cfg(), {}, With(tag).reps) == []
  {
    CfgNames();
    CfgSlots();
    OrdersAreStrictTotal();
    var reps := With(tag).reps;
    assert [Id("a", 0), Id("c", 0)][1..] == [Id("c", 0)] && [Id("c", 0)][1..] == [];
    assert Updates(Cfg(), reps, [Id("c", 0)]) == [];
    assert Extras(Cfg(), {}, reps) == {};
  }

  lemma PlacedAt(tag: string)
    ensures PlacePhase(Cfg(), {}, With(tag).reps, [Placed(Id("a", 0), G0), Placed(Id("c", 0), G1)]) == [PLACE_C]
  {
    KeptAt(tag);
    hide Kept;
    var out := [Placed(Id("a", 0), G0), Placed(Id("c", 0), G1)];
    assert out[1..] == [Placed(Id("c", 0), G1)] && out[1..][1..] == [];
    assert Places(Cfg(), map[Id("a", 0) := G0], out[1..]) == [PLACE_C];
  }

  lemma WiredAt(tag: string, changed: set<string>)
    requires "c" in changed
    ensures ServiceChanges(Cfg(), {}, With(tag).svcs, ["web"]) == [] && ServiceWarnings(Cfg(), {}, ["web"]) == []
    ensures Rewires(Cfg(), {}, With(tag).svcs, ["web"], changed, [Placed(Id("a", 0), G0), Placed(Id("c", 0), G1)]) == [WIRE]
    ensures BackendWarnings(Cfg(), {}, ["a", "c"]) == []
  {
    var out := [Placed(Id("a", 0), G0), Placed(Id("c", 0), G1)];
    assert ["web"][1..] == [] && ["a", "c"][1..] == ["c"] && ["c"][1..] == [];
    assert out[..1] == [Placed(Id("a", 0), G0)];
    assert Of(out[..1], "c") == [];
    assert Of(out, "c") == [Placed(Id("c", 0), G1)];
    assert HostsOf(Of(out, "c")) == ["h"];
    assert UseRewires(Cfg(), {}, "web", "h", ["c"], false, changed, out) == [WIRE];
    assert BackendWarnings(Cfg(), {}, ["c"]) == [];
  }

  lemma PlanAt(tag: string)
    ensures PlanOf(Cfg(), With(tag)) == Ok(Plan(UpdatesAt(tag) + [PLACE_C], [WIRE], [], []))
  {
    hide Scheduled, UpdatePhase, DrainPhase, PlacePhase, Rewires, ServiceChanges, BackendWarnings, ServiceWarnings, Names, UpdatesAt;
    CfgNames();
    PackedAt(tag);
    UpdatedAt(tag);
    PlacedAt(tag);
    assert "c" in Touched(UpdatesAt(tag) + [PLACE_C] + []) by {
      assert PLACE_C in UpdatesAt(tag) + [PLACE_C] + [];
    }
    WiredAt(tag, Touched(UpdatesAt(tag) + [PLACE_C] + []));
    assert UpdatesAt(tag) + [PLACE_C] + [] == UpdatesAt(tag) + [PLACE_C];
    var o := With(tag);
    var p := PlanWith(Cfg(), o, [Placed(Id("a", 0), G0), Placed(Id("c", 0), G1)]);
    assert p.drain == [];
    assert p.warnings == [];
    assert p.converge == UpdatesAt(tag) + [PLACE_C];
    assert p.rewire == [WIRE];
    assert PlanOf(Cfg(), o) == Ok(p);
  }

  const UPDATE_A := UpdateReplica("a", 0, "h", 0, "v1", "v0")

  lemma TagIsSafe()
    ensures Override.SafeTag("v1")
  {
    assert Override.TagChar('v') && Override.TagChar('1');
  }

  lemma FreshPlan()
    ensures PlanOf(Cfg(), With("v1")) == Ok(Plan([PLACE_C], [WIRE], [], []))
    ensures Flat(Plan([PLACE_C], [WIRE], [], []).Phases(), "") == [PLACE_C, WIRE]
  {
    hide PlanOf, Flat;
    PlanAt("v1");
    assert UpdatesAt("v1") + [PLACE_C] == [PLACE_C];
    HoldRun.FlatUnscoped(Plan([PLACE_C], [WIRE], [], []));
  }

  lemma StalePlan()
    ensures PlanOf(Cfg(), With("v0")) == Ok(Plan([UPDATE_A, PLACE_C], [WIRE], [], []))
    ensures Flat(Plan([UPDATE_A, PLACE_C], [WIRE], [], []).Phases(), "") == [UPDATE_A, PLACE_C, WIRE]
  {
    hide PlanOf, Flat;
    PlanAt("v0");
    assert UpdatesAt("v0") + [PLACE_C] == [UPDATE_A, PLACE_C];
    HoldRun.FlatUnscoped(Plan([UPDATE_A, PLACE_C], [WIRE], [], []));
  }

  // ----- a rollback that does not restore

  // The first action of the run places a replica, which starts but fails its probe. The
  // run had updated and drained nothing, and yet the rolled back fleet has a replica more.
  // (Rollback.RollbackRestores has the condition.)
  lemma RollbackKeepsTheFailedPlacement()
    ensures PlanOf(Cfg(), With("v1")) == Ok(Plan([PLACE_C], [WIRE], [], []))
    ensures Flat(Plan([PLACE_C], [WIRE], [], []).Phases(), "") == [PLACE_C, WIRE]
    ensures var end := RunEnd(Cfg(), With("v1"), [PLACE_C, WIRE], [FailedDirty], true);
            Id("c", 0) in end.reps && Id("c", 0) !in With("v1").reps
  {
    hide PlanOf, Flat;
    FreshPlan();
    TagIsSafe();
    assert [PLACE_C, WIRE][..0] == [];
    assert Served(Cfg(), [PLACE_C, WIRE], [FailedDirty]) == 0;
  }

  // ----- a rewire that is lost

  // The placement works and the rewire, which the plan asked for, fails: planned again
  // there is nothing to do. (HoldRun.PendingRewires has the condition.)
  lemma RewireIsLost()
    ensures PlanOf(Cfg(), With("v1")) == Ok(Plan([PLACE_C], [WIRE], [], []))
    ensures Flat(Plan([PLACE_C], [WIRE], [], []).Phases(), "") == [PLACE_C, WIRE]
    ensures Served(Cfg(), [PLACE_C, WIRE], [Done, FailedClean]) == 1
    ensures PlanOf(Cfg(), RunEnd(Cfg(), With("v1"), [PLACE_C, WIRE], [Done, FailedClean], false)) == Ok(Plan([], [], [], []))
  {
    hide PlanOf, Flat;
    FreshPlan();
    ServedOne();
    AllDoneButRewire(Plan([PLACE_C], [WIRE], [], []));
  }

  lemma ServedOne()
    ensures Served(Cfg(), [PLACE_C, WIRE], [Done, FailedClean]) == 1
  {
    TagIsSafe();
    assert [PLACE_C, WIRE][1..] == [WIRE] && [Done, FailedClean][1..] == [FailedClean];
    assert Served(Cfg(), [WIRE], [FailedClean]) == 0;
  }

  lemma AllDoneButRewire(plan: Plan)
    requires plan == Plan([PLACE_C], [WIRE], [], []) && PlanOf(Cfg(), With("v1")) == Ok(plan)
    requires Served(Cfg(), [PLACE_C, WIRE], [Done, FailedClean]) == 1
    ensures PlanOf(Cfg(), RunEnd(Cfg(), With("v1"), [PLACE_C, WIRE], [Done, FailedClean], false)) == Ok(Plan([], [], [], []))
  {
    hide PlanOf, Served, Effects;
    var acts := [PLACE_C, WIRE];
    CfgIsValid();
    assert plan.converge + plan.rewire + plan.drain == acts;
    WithIsOrderly("v1");
    Reconcile.Resumption(Cfg(), With("v1"), plan, 1);
    Services.RepeatsOfOthers(Cfg(), With("v1"), plan.converge[..1]);
    var w := Effects(Cfg(), With("v1"), acts[..1]);
    assert plan.converge[1..] == [] && plan.drain[0..] == [];
    Reconcile.NothingToRewire(Cfg(), w, []);
    assert RunEnd(Cfg(), With("v1"), acts, [Done, FailedClean], false) == w;
  }

  // ----- a lost update that finds no room again

  // The update loses its container. Its own GPU is then the smaller one with room, so the
  // replica is packed on the other, where the pinned backend no longer fits.
  // (Loss.ReplicaLost has the condition.)
  lemma LostUpdateCannotBePlanned()
    ensures PlanOf(Cfg(), With("v0")) == Ok(Plan([UPDATE_A, PLACE_C], [WIRE], [], []))
    ensures Flat(Plan([UPDATE_A, PLACE_C], [WIRE], [], []).Phases(), "") == [UPDATE_A, PLACE_C, WIRE]
    ensures PlanOf(Cfg(), RunEnd(Cfg(), With("v0"), [UPDATE_A, PLACE_C, WIRE], [FailedLost], false))
         == Err(NoRoom("c", 0, 24, 12, false))
  {
    hide PlanOf, Flat;
    StalePlan();
    UpdateLost();
    StuckWithout();
  }

  function Without(): Observed {
    Observed({}, map[], map["web" := ObsService("v1", "")], map[SvcAt("web", "h") := ObsService("v1", "")], FREE)
  }

  lemma UpdateLost()
    ensures RunEnd(Cfg(), With("v0"), [UPDATE_A, PLACE_C, WIRE], [FailedLost], false) == Without()
  {
    TagIsSafe();
    CfgIsValid();
    var acts := [UPDATE_A, PLACE_C, WIRE];
    assert acts[..0] == [];
    assert Served(Cfg(), acts, [FailedLost]) == 0;
    assert Attempt(Cfg(), With("v0"), UPDATE_A, FailedLost) == Without();
  }

  lemma StuckWithout()
    ensures PlanOf(Cfg(), Without()) == Err(NoRoom("c", 0, 24, 12, false))
  {
    CfgIsValid();
    PinnedBackendIsStarved();
    assert Kept(Cfg(), {}, map[]) == map[];
  }
}

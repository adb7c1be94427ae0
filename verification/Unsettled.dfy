// Two fleets of one service that is planned again on every run (Services.Settles is the
// condition, Reconcile.Fixpoint the theorem), and one that takes two runs.
module Unsettled {
  import opened Wrappers
  import opened Order
  import opened Fleet
  import opened Observe
  import opened Schedule
  import opened Plan
  import opened World
  import Override

  function OneService(bare: map<string, string>, s: Service): Config {
    Config("compose.yml", map[], bare, "", map[], map["chat" := s])
  }

  lemma OneServicePlan(cfg: Config, o: Observed)
    requires cfg.backends == map[] && cfg.services.Keys == {"chat"} && cfg.services["chat"].uses == []
    requires o.err == {} && o.reps == map[]
    ensures PlanOf(cfg, o) == Ok(Plan(ServiceChange(cfg, {}, o.svcs, "chat"), [], [], []))
  {
    OneServiceNames(cfg);
    NoReplicas(cfg, o);
    OneServicePhase(cfg, o);
    hide ServiceChange, Names, Scheduled, UpdatePhase, PlacePhase, DrainPhase, ServiceChanges, Rewires, Touched;
    assert BackendWarnings(cfg, {}, Names(cfg.backends)) == [];
    var change := ServiceChange(cfg, {}, o.svcs, "chat");
    var p := PlanWith(cfg, o, []);
    assert [] + [] + change == change;
    assert p.converge == change && p.rewire == [] && p.drain == [] && p.warnings == [];
  }

  lemma OneServiceNames(cfg: Config)
    requires cfg.backends == map[] && cfg.services.Keys == {"chat"}
    ensures Names(cfg.services) == ["chat"] && Names(cfg.backends) == []
  {
    OrdersAreStrictTotal();
    SortedUnique(["chat"], cfg.services.Keys, StringLess);
    SortedUnique([], cfg.backends.Keys, StringLess);
  }

  lemma NoReplicas(cfg: Config, o: Observed)
    requires cfg.backends == map[] && o.err == {} && o.reps == map[]
    ensures Scheduled(cfg, o).Packed? && Scheduled(cfg, o).out == []
    ensures UpdatePhase(cfg, {}, o.reps) == [] && PlacePhase(cfg, {}, o.reps, []) == [] && DrainPhase(cfg, {}, o.reps) == []
    ensures Touched([] + [] + []) == {}
  {
    OrdersAreStrictTotal();
    SortedUnique([], cfg.backends.Keys, StringLess);
    SortedUnique([], SchedBackends(cfg, {}).Keys, StringLess);
    SortedUnique([], Extras(cfg, {}, o.reps), IdLess);
    assert AllDemands(cfg.policy, SchedBackends(cfg, {})) == [];
  }

  lemma OneServicePhase(cfg: Config, o: Observed)
    requires cfg.services.Keys == {"chat"} && cfg.services["chat"].uses == []
    ensures ServiceChanges(cfg, {}, o.svcs, ["chat"]) == ServiceChange(cfg, {}, o.svcs, "chat")
    ensures Rewires(cfg, {}, o.svcs, ["chat"], {}, []) == [] && ServiceWarnings(cfg, {}, ["chat"]) == []
  {
    assert ["chat"][1..] == [];
  }

  // ----- a service moved to a host that is listed before its old one

  function Moved(): Config {
    OneService(map[], Service("chat", "a", "v2", []))
  }

  function ChatOn(host: string, tag: string, hash: string): HostState {
    HostState(host, [Container(Override.ImageRef("chat", tag), true, "", None, 0, "chat", hash)], [], "")
  }

  const V1 := ObsService("v1", "")

  function MovedBefore(): Observed {
    Observed({}, map[], map["chat" := V1], map[SvcAt("chat", "b") := V1], map[])
  }

  lemma Listed(host: string, tag: string, hash: string, o: Observed)
    requires Override.SafeTag(tag)
    ensures AddHost(o, ChatOn(host, tag, hash))
         == o.(svcs := o.svcs["chat" := ObsService(tag, hash)], hosted := o.hosted[SvcAt("chat", host) := ObsService(tag, hash)])
  {
    Override.TagRoundTrip("chat", tag);
    var c := ChatOn(host, tag, hash).containers;
    assert c[..0] == [];
    assert AddContainers(o, host, []) == o;
    assert AddContainers(o, host, c) == AddContainer(o, host, c[0]);
    assert AddGpus(o.free, host, []) == o.free;
  }

  lemma TagsAreSafe()
    ensures Override.SafeTag("v1") && Override.SafeTag("v2") && Override.SafeTag("1.25")
  {
    assert Override.TagChar('v') && Override.TagChar('1') && Override.TagChar('2') && Override.TagChar('5') && Override.TagChar('.');
  }

  function MovedAfter(): Observed {
    Observed({}, map[], map["chat" := V1],
             map[SvcAt("chat", "b") := V1, SvcAt("chat", "a") := StampService(Moved(), "chat", "v2")], map[])
  }

  // The service runs on b and is now declared on a, at a new tag. Its update starts a
  // container on a, the one on b stays and is listed last, so the same update is planned
  // again. The states are the indexes of the listings before and after.
  lemma MovedServiceIsUpdatedForever()
    ensures var update := UpdateService("chat", "a", "v2", "v1");
            && MovedBefore() == Indexed([HostState("a", [], [], ""), ChatOn("b", "v1", "")])
            && MovedAfter() == Indexed([ChatOn("a", "v2", StampService(Moved(), "chat", "v2").hash), ChatOn("b", "v1", "")])
            && PlanOf(Moved(), MovedBefore()) == Ok(Plan([update], [], [], []))
            && Admitted(Moved(), update) && Effect(Moved(), MovedBefore(), update) == MovedAfter()
            && PlanOf(Moved(), MovedAfter()) == Ok(Plan([update], [], [], []))
            && Effect(Moved(), MovedAfter(), update) == MovedAfter()
  {
    hide PlanOf, Up, Indexed, ChatOn, StampService;
    TagsAreSafe();
    MovedStamp();
    UpdateIsHidden();
    HiddenAgain(MovedAfter());
    ListingsOfMove(StampService(Moved(), "chat", "v2").hash);
    OneServicePlan(Moved(), MovedBefore());
    OneServicePlan(Moved(), MovedAfter());
  }

  lemma HiddenAgain(o: Observed)
    requires o == Up(Moved(), MovedBefore(), "chat", "a", "v2") == MovedAfter()
    ensures Up(Moved(), o, "chat", "a", "v2") == o
  {
    hide StampService;
    var w := Up(Moved(), o, "chat", "a", "v2");
    assert w.hosted == o.hosted;
  }

  lemma MovedStamp()
    ensures StampService(Moved(), "chat", "v2").tag == "v2"
  {
    TagsAreSafe();
    Override.TagRoundTrip("chat", "v2");
  }

  lemma UpdateIsHidden()
    ensures Up(Moved(), MovedBefore(), "chat", "a", "v2") == MovedAfter()
  {
    assert "chat" in Moved().services;
    hide StampService, Moved;
    var w, b := Up(Moved(), MovedBefore(), "chat", "a", "v2"), SvcAt("chat", "b");
    assert w.hosted == MovedAfter().hosted;
    assert IsLast(w.hosted, b);
    LastIs(w.hosted, b);
    assert w.svcs == map["chat" := V1];
  }

  lemma ListingsOfMove(hash: string)
    ensures Indexed([HostState("a", [], [], ""), ChatOn("b", "v1", "")]) == MovedBefore()
    ensures Indexed([ChatOn("a", "v2", hash), ChatOn("b", "v1", "")])
         == Observed({}, map[], map["chat" := V1], map[SvcAt("chat", "b") := V1, SvcAt("chat", "a") := ObsService("v2", hash)], map[])
  {
    hide ChatOn, AddHost, Indexed;
    TagsAreSafe();
    var empty := Observed({}, map[], map[], map[], map[]);
    EmptyHostListed(empty, "a");
    TwoHosts(HostState("a", [], [], ""), ChatOn("b", "v1", ""));
    Listed("b", "v1", "", empty);
    TwoHosts(ChatOn("a", "v2", hash), ChatOn("b", "v1", ""));
    Listed("a", "v2", hash, empty);
    Listed("b", "v1", "", AddHost(empty, ChatOn("a", "v2", hash)));
  }

  lemma TwoHosts(a: HostState, b: HostState)
    ensures Indexed([a, b]) == AddHost(AddHost(Observed({}, map[], map[], map[], map[]), a), b)
  {
    hide AddHost;
    assert [a, b][..1] == [a] && [a][..0] == [];
    assert Indexed([a]) == AddHost(Indexed([]), a);
  }

  // ----- a service without a tag

  function Untagged(): Config {
    OneService(map["chat" := "nginx:1.25"], Service("chat", "a", "", []))
  }

  function Once(): Observed {
    var stamp := StampService(Untagged(), "chat", "");
    Observed({}, map[], map["chat" := stamp], map[SvcAt("chat", "a") := stamp], map[])
  }

  // The compose file names the image nginx:1.25 for it. The tag observed is then 1.25 and
  // the one declared is none, so an update is planned after the deploy and after every
  // update.
  lemma UntaggedServiceIsUpdatedForever()
    ensures var deploy, update := DeployService("chat", "a", ""), UpdateService("chat", "a", "", "1.25");
            var before := Observed({}, map[], map[], map[], map[]);
            && PlanOf(Untagged(), before) == Ok(Plan([deploy], [], [], []))
            && Effect(Untagged(), before, deploy) == Once()
            && PlanOf(Untagged(), Once()) == Ok(Plan([update], [], [], []))
            && Effect(Untagged(), Once(), update) == Once()
  {
    hide PlanOf, Up, StampService;
    var before := Observed({}, map[], map[], map[], map[]);
    DeployedAlone(before);
    DeployedAlone(Once());
    OneServicePlan(Untagged(), before);
    OneServicePlan(Untagged(), Once());
    UntaggedChange();
  }

  lemma UntaggedChange()
    ensures ServiceChange(Untagged(), {}, Once().svcs, "chat") == [UpdateService("chat", "a", "", "1.25")]
  {
    UntaggedStamp();
    hide StampService;
  }

  lemma UntaggedStamp()
    ensures StampService(Untagged(), "chat", "").tag == "1.25"
  {
    TagsAreSafe();
    Override.TagRoundTrip("nginx", "1.25");
    assert Override.ImageRef("nginx", "1.25") == "nginx:1.25";
  }

  lemma DeployedAlone(o: Observed)
    requires "chat" in Untagged().services
    requires forall a | a in o.hosted :: a == SvcAt("chat", "a")
    requires forall n | n in o.svcs :: n == "chat"
    ensures var stamp := StampService(Untagged(), "chat", "");
            Up(Untagged(), o, "chat", "a", "") == o.(svcs := map["chat" := stamp], hosted := map[SvcAt("chat", "a") := stamp])
  {
    hide StampService, Untagged;
    var w := Up(Untagged(), o, "chat", "a", "");
    assert IsLast(w.hosted, SvcAt("chat", "a"));
    LastIs(w.hosted, SvcAt("chat", "a"));
  }

  // ----- two containers with the labels of one replica

  function NothingDeclared(): Config {
    Config("compose.yml", map[], map[], "", map[], map[])
  }

  function CopyOn(host: string): HostState {
    HostState(host, [Container("llm:v1", true, "llm", Some(0), 0, "", "")], [], "")
  }

  lemma CopyListed(host: string, o: Observed)
    ensures AddHost(o, CopyOn(host))
         == o.(reps := o.reps[Id("llm", 0) := ObsReplica(GpuRef(host, 0), Override.TagOf("llm:v1"), "")])
  {
    var c := CopyOn(host).containers;
    assert c[..0] == [];
    assert AddContainers(o, host, []) == o;
    assert AddContainers(o, host, c) == AddContainer(o, host, c[0]);
    assert AddGpus(o.free, host, []) == o.free;
  }

  lemma DrainOf(reps: map<Id, ObsReplica>, host: string)
    requires reps.Keys == {Id("llm", 0)} && reps[Id("llm", 0)].ref == GpuRef(host, 0)
    ensures DrainPhase(NothingDeclared(), {}, reps) == [RemoveReplica("llm", 0, host, 0)]
  {
    OrdersAreStrictTotal();
    var extras := Extras(NothingDeclared(), {}, reps);
    assert extras == {Id("llm", 0)};
    var ids := [Id("llm", 0)];
    SortedUnique(ids, extras, IdLess);
    assert ids[1..] == [] && Drains(reps, ids[1..]) == [];
    assert Drains(reps, ids) == [RemoveReplica("llm", 0, host, 0)] + Drains(reps, ids[1..]);
  }

  // The index has the last one listed; the other is drained once that one is gone.
  lemma CopiesDrainOneByOne()
    ensures DrainPhase(NothingDeclared(), {}, Indexed([CopyOn("a"), CopyOn("b")]).reps) == [RemoveReplica("llm", 0, "b", 0)]
    ensures DrainPhase(NothingDeclared(), {}, Indexed([CopyOn("a"), HostState("b", [], [], "")]).reps)
         == [RemoveReplica("llm", 0, "a", 0)]
  {
    hide CopyOn, AddHost, DrainPhase, NothingDeclared, Override.TagOf;
    var empty := Observed({}, map[], map[], map[], map[]);
    var b := HostState("b", [], [], "");
    TwoHosts(CopyOn("a"), CopyOn("b"));
    TwoHosts(CopyOn("a"), b);
    CopyListed("a", empty);
    CopyListed("b", AddHost(empty, CopyOn("a")));
    EmptyHostListed(AddHost(empty, CopyOn("a")), "b");
    DrainOf(Indexed([CopyOn("a"), CopyOn("b")]).reps, "b");
    DrainOf(Indexed([CopyOn("a"), b]).reps, "a");
  }

  lemma EmptyHostListed(o: Observed, host: string)
    ensures AddHost(o, HostState(host, [], [], "")) == o
  {
  }
}

// Services over a run: which of their containers is seen, and what is planned again.
module Services {
  import opened Order
  import opened Fleet
  import opened Observe
  import opened Plan
  import opened PlanFacts
  import opened World
  import Override

  // ----- one service

  ghost predicate ServiceAction(cfg: Config, a: Action) {
    OnService(a) && a.service in cfg.services && a.host == cfg.services[a.service].host && a.tag == cfg.services[a.service].imageTag
  }

  // It runs on a host that is listed after this one.
  predicate Later(hosted: map<SvcAt, ObsService>, name: string, host: string) {
    exists a :: a in hosted && a.service == name && StringLess(host, a.host)
  }

  // A service is done with after its deploy or update exactly if nothing hides the new
  // container, and its tag reads back. Both can be told from the observation before.
  predicate Settles(cfg: Config, o: Observed, name: string)
    requires name in cfg.services
  {
    !Later(o.hosted, name, cfg.services[name].host) && ReadsBack(cfg, name)
  }

  // What is seen of the service once it was deployed or updated.
  function SeenAfter(cfg: Config, o: Observed, name: string): ObsService
    requires name in cfg.services
  {
    if Later(o.hosted, name, cfg.services[name].host) && name in o.svcs then o.svcs[name]
    else StampService(cfg, name, cfg.services[name].imageTag)
  }

  // Its update is planned once more unless it settles.
  function Repeat(cfg: Config, o: Observed, a: Action): seq<Action> {
    if !OnService(a) || a.service !in cfg.services || Settles(cfg, o, a.service) then []
    else [UpdateService(a.service, a.host, a.tag, SeenAfter(cfg, o, a.service).tag)]
  }

  function Repeats(cfg: Config, o: Observed, acts: seq<Action>): seq<Action> {
    if acts == [] then [] else Repeat(cfg, o, acts[0]) + Repeats(cfg, o, acts[1..])
  }

  lemma {:induction false} RepeatsConcat(cfg: Config, o: Observed, a: seq<Action>, b: seq<Action>)
    ensures Repeats(cfg, o, a + b) == Repeats(cfg, o, a) + Repeats(cfg, o, b)
  {
    if a == [] {
      assert a + b == b;
    } else {
      assert (a + b)[0] == a[0] && (a + b)[1..] == a[1..] + b;
      RepeatsConcat(cfg, o, a[1..], b);
      Assoc(Repeat(cfg, o, a[0]), Repeats(cfg, o, a[1..]), Repeats(cfg, o, b));
    }
  }

  // There is nothing to repeat exactly if every service settles.
  lemma {:induction false} NoRepeats(cfg: Config, o: Observed, acts: seq<Action>)
    ensures Repeats(cfg, o, acts) == [] <==> forall a | a in acts && OnService(a) && a.service in cfg.services :: Settles(cfg, o, a.service)
  {
    if acts != [] {
      NoRepeats(cfg, o, acts[1..]);
      assert forall a :: a in acts <==> a == acts[0] || a in acts[1..];
    }
  }

  lemma {:induction false} RepeatsAgree(cfg: Config, o: Observed, o': Observed, acts: seq<Action>)
    requires o'.svcs == o.svcs && o'.hosted == o.hosted
    ensures Repeats(cfg, o', acts) == Repeats(cfg, o, acts)
  {
    if acts != [] {
      RepeatsAgree(cfg, o, o', acts[1..]);
    }
  }

  lemma {:induction false} RepeatsOfOthers(cfg: Config, o: Observed, acts: seq<Action>)
    requires forall a | a in acts :: !OnService(a)
    ensures Repeats(cfg, o, acts) == []
  {
    if acts != [] {
      assert acts[0] in acts;
      RepeatsOfOthers(cfg, o, acts[1..]);
    }
  }

  // ----- a deploy or update

  // It leaves every other service as it was.
  ghost predicate SameService(o: Observed, w: Observed, name: string) {
    && (name in o.svcs <==> name in w.svcs) && (name in o.svcs ==> w.svcs[name] == o.svcs[name])
    && forall a: SvcAt | a.service == name :: (a in o.hosted <==> a in w.hosted) && (a in o.hosted ==> w.hosted[a] == o.hosted[a])
  }

  lemma UpSeen(cfg: Config, o: Observed, name: string)
    requires Orderly(o) && name in cfg.services
    ensures var s := cfg.services[name];
            var w := Up(cfg, o, name, s.host, s.imageTag);
            && Orderly(w) && name in w.svcs && w.svcs[name] == SeenAfter(cfg, o, name)
            && (forall other | other != name :: SameService(o, w, other))
            && (Later(w.hosted, name, s.host) <==> Later(o.hosted, name, s.host))
  {
    var s := cfg.services[name];
    var w, at := Up(cfg, o, name, s.host, s.imageTag), SvcAt(name, s.host);
    assert at in w.hosted;
    assert SeesLast(o, name);
    OrdersAreStrictTotal();
    if Later(o.hosted, name, s.host) {
      var a :| a in o.hosted && a.service == name && StringLess(s.host, a.host);
      var last := Last(o.hosted, name);
      assert last.host != s.host;
      assert IsLast(w.hosted, last);
      LastIs(w.hosted, last);
    } else {
      assert IsLast(w.hosted, at);
      LastIs(w.hosted, at);
    }
    forall other | other != name ensures SeesLast(w, other) && SameService(o, w, other) {
      assert SeesLast(o, other);
      OtherServices(o, w, other);
    }
  }

  // ----- several deploys and updates

  ghost predicate Named(acts: seq<Action>, name: string) {
    exists a :: a in acts && OnService(a) && a.service == name
  }

  ghost predicate IsSeen(cfg: Config, o: Observed, svcs: map<string, ObsService>, a: Action) {
    ServiceAction(cfg, a) && a.service in svcs && svcs[a.service] == SeenAfter(cfg, o, a.service)
  }

  ghost predicate DistinctServices(acts: seq<Action>) {
    forall i, j | 0 <= i < j < |acts| :: OnService(acts[i]) && OnService(acts[j]) ==> acts[i].service != acts[j].service
  }

  // Each of them is seen as SeenAfter says, whatever the others; nothing else changes.
  lemma {:induction false} ServiceEffects(cfg: Config, o: Observed, acts: seq<Action>)
    requires Orderly(o) && AllAdmitted(cfg, acts) && DistinctServices(acts) && forall a | a in acts :: ServiceAction(cfg, a)
    ensures var w := Effects(cfg, o, acts);
            && w == o.(svcs := w.svcs, hosted := w.hosted) && Orderly(w)
            && (forall a | a in acts :: IsSeen(cfg, o, w.svcs, a))
            && (forall name | !Named(acts, name) :: SameService(o, w, name))
    decreases |acts|
  {
    if acts != [] {
      var a, rest := acts[0], acts[1..];
      assert a in acts && forall x | x in rest :: x in acts;
      UpSeen(cfg, o, a.service);
      var mid := Effect(cfg, o, a);
      ServiceEffects(cfg, mid, rest);
      var w := Effects(cfg, o, acts);
      NotAgain(acts);
      forall name | !Named(acts, name) ensures SameService(o, w, name) {
        assert !Named(rest, name) && name != a.service;
        SameTwice(o, mid, w, name);
      }
      forall x | x in acts ensures IsSeen(cfg, o, w.svcs, x) {
        if x == a {
          assert SameService(mid, w, a.service);
        } else {
          assert x in rest && IsSeen(cfg, mid, w.svcs, x);
          assert Named(rest, x.service) && SameService(o, mid, x.service);
          SeenAgrees(cfg, o, mid, x.service);
        }
      }
    }
  }

  lemma NotAgain(acts: seq<Action>)
    requires acts != [] && DistinctServices(acts) && OnService(acts[0])
    ensures DistinctServices(acts[1..]) && !Named(acts[1..], acts[0].service)
  {
    var rest := acts[1..];
    assert forall i | 0 <= i < |rest| :: rest[i] == acts[i + 1];
  }

  lemma SameTwice(o: Observed, mid: Observed, w: Observed, name: string)
    requires SameService(o, mid, name) && SameService(mid, w, name)
    ensures SameService(o, w, name)
  {
  }

  lemma SeenAgrees(cfg: Config, o: Observed, mid: Observed, name: string)
    requires SameService(o, mid, name) && name in cfg.services
    ensures SeenAfter(cfg, mid, name) == SeenAfter(cfg, o, name)
  {
    assert forall a: SvcAt | a.service == name :: a in o.hosted <==> a in mid.hosted;
    assert Later(mid.hosted, name, cfg.services[name].host) <==> Later(o.hosted, name, cfg.services[name].host);
  }

  // ----- the service phase of a new plan

  // What is planned for the same services with these seen.
  function Redo(cfg: Config, err: set<string>, svcs: map<string, ObsService>, acts: seq<Action>): seq<Action>
    requires forall a | a in acts :: ServiceAction(cfg, a)
  {
    if acts == [] then
      []
    else
      assert ServiceAction(cfg, acts[0]);
      ServiceChange(cfg, err, svcs, acts[0].service) + Redo(cfg, err, svcs, acts[1..])
  }

  lemma {:induction false} ChangesAreActions(cfg: Config, err: set<string>, svcs: map<string, ObsService>, names: seq<string>)
    requires forall n | n in names :: n in cfg.services
    ensures forall a | a in ServiceChanges(cfg, err, svcs, names) ::
              ServiceAction(cfg, a) && a.service in names && ServiceChange(cfg, err, svcs, a.service) == [a]
  {
    if names != [] {
      ChangesAreActions(cfg, err, svcs, names[1..]);
    }
  }

  lemma {:induction false} ChangesAreDistinct(cfg: Config, err: set<string>, svcs: map<string, ObsService>, names: seq<string>)
    requires forall n | n in names :: n in cfg.services
    requires forall i, j | 0 <= i < j < |names| :: names[i] != names[j]
    ensures DistinctServices(ServiceChanges(cfg, err, svcs, names))
  {
    if names != [] {
      ChangesAreDistinct(cfg, err, svcs, names[1..]);
      ChangesAreActions(cfg, err, svcs, names[1..]);
      var rest := ServiceChanges(cfg, err, svcs, names[1..]);
      assert forall i | 0 <= i < |rest| :: rest[i] in rest;
    }
  }

  // Where no other service comes to need a change, only the planned ones are looked at.
  lemma {:induction false} ChangesRedone(cfg: Config, err: set<string>, svcs: map<string, ObsService>,
                                         svcs': map<string, ObsService>, names: seq<string>)
    requires forall n | n in names :: n in cfg.services
    requires forall n | n in names && ServiceChange(cfg, err, svcs, n) == [] :: ServiceChange(cfg, err, svcs', n) == []
    ensures forall a | a in ServiceChanges(cfg, err, svcs, names) :: ServiceAction(cfg, a)
    ensures ServiceChanges(cfg, err, svcs', names) == Redo(cfg, err, svcs', ServiceChanges(cfg, err, svcs, names))
  {
    if names != [] {
      ChangesAreActions(cfg, err, svcs, names);
      ChangesRedone(cfg, err, svcs, svcs', names[1..]);
      var first, rest := ServiceChange(cfg, err, svcs, names[0]), ServiceChanges(cfg, err, svcs, names[1..]);
      if first == [] {
        assert first + rest == rest;
      } else {
        assert first == [first[0]] && (first + rest)[0] == first[0] && (first + rest)[1..] == rest;
      }
    }
  }

  lemma {:induction false} RedoConcat(cfg: Config, err: set<string>, svcs: map<string, ObsService>, a: seq<Action>, b: seq<Action>)
    requires forall x | x in a || x in b :: ServiceAction(cfg, x)
    ensures forall x | x in a + b :: ServiceAction(cfg, x)
    ensures Redo(cfg, err, svcs, a + b) == Redo(cfg, err, svcs, a) + Redo(cfg, err, svcs, b)
  {
    if a == [] {
      assert a + b == b;
    } else {
      assert (a + b)[0] == a[0] && (a + b)[1..] == a[1..] + b;
      assert a[0] in a && forall x | x in a[1..] :: x in a;
      assert forall x | x in a + b :: x in a || x in b;
      RedoConcat(cfg, err, svcs, a[1..], b);
      Assoc(ServiceChange(cfg, err, svcs, a[0].service), Redo(cfg, err, svcs, a[1..]), Redo(cfg, err, svcs, b));
    }
  }

  lemma {:induction false} RedoUndone(cfg: Config, err: set<string>, svcs: map<string, ObsService>, acts: seq<Action>)
    requires forall a | a in acts :: ServiceAction(cfg, a) && ServiceChange(cfg, err, svcs, a.service) == [a]
    ensures Redo(cfg, err, svcs, acts) == acts
  {
    if acts != [] {
      assert acts[0] in acts;
      RedoUndone(cfg, err, svcs, acts[1..]);
    }
  }

  lemma {:induction false} RedoDone(cfg: Config, o: Observed, svcs: map<string, ObsService>, acts: seq<Action>)
    requires Orderly(o) && AllAdmitted(cfg, acts)
    requires forall a | a in acts :: ServiceAction(cfg, a) && ServiceChange(cfg, o.err, o.svcs, a.service) == [a]
    requires forall a | a in acts :: IsSeen(cfg, o, svcs, a)
    ensures Redo(cfg, o.err, svcs, acts) == Repeats(cfg, o, acts)
  {
    if acts != [] {
      assert acts[0] in acts;
      RedoneOnce(cfg, o, svcs, acts[0]);
      RedoDone(cfg, o, svcs, acts[1..]);
    }
  }

  lemma RedoneOnce(cfg: Config, o: Observed, svcs: map<string, ObsService>, a: Action)
    requires Orderly(o) && Admitted(cfg, a) && ServiceAction(cfg, a) && ServiceChange(cfg, o.err, o.svcs, a.service) == [a]
    requires a.service in svcs && svcs[a.service] == SeenAfter(cfg, o, a.service)
    ensures ServiceChange(cfg, o.err, svcs, a.service) == Repeat(cfg, o, a)
  {
    assert SeesLast(o, a.service);
    if !Later(o.hosted, a.service, a.host) {
      ServiceStampIsFresh(cfg, o.err, svcs, a.service);
    }
  }

  lemma ChangeAgrees(cfg: Config, err: set<string>, o: Observed, w: Observed, name: string)
    requires name in cfg.services && SameService(o, w, name)
    ensures ServiceChange(cfg, err, w.svcs, name) == ServiceChange(cfg, err, o.svcs, name)
  {
  }

  // After the first j service actions of a plan: the phase that a new plan has.
  lemma ServicesAfter(cfg: Config, o: Observed, j: nat)
    requires Orderly(o) && j <= |ServicePhase(cfg, o.err, o.svcs)| && AllAdmitted(cfg, ServicePhase(cfg, o.err, o.svcs)[..j])
    ensures var s := ServicePhase(cfg, o.err, o.svcs);
            var w := Effects(cfg, o, s[..j]);
            && w == o.(svcs := w.svcs, hosted := w.hosted) && Orderly(w)
            && ServicePhase(cfg, w.err, w.svcs) == Repeats(cfg, o, s[..j]) + s[j..]
  {
    var names := Names(cfg.services);
    NamesDistinct(cfg.services);
    ChangesAreActions(cfg, o.err, o.svcs, names);
    ChangesAreDistinct(cfg, o.err, o.svcs, names);
    hide ServiceChanges, ServiceChange, Orderly, Names, DistinctServices, ServiceAction, Effects, Repeats, Redo, IsSeen;
    var s := ServicePhase(cfg, o.err, o.svcs);
    var w := Effects(cfg, o, s[..j]);
    SeenAfterSome(cfg, o, s, j, names);
    ChangesRedone(cfg, o.err, o.svcs, w.svcs, names);
    RedoSplit(cfg, o, w.svcs, s, j);
  }

  lemma SeenAfterSome(cfg: Config, o: Observed, s: seq<Action>, j: nat, names: seq<string>)
    requires Orderly(o) && j <= |s| && AllAdmitted(cfg, s[..j]) && DistinctServices(s)
    requires forall a | a in s :: ServiceAction(cfg, a) && ServiceChange(cfg, o.err, o.svcs, a.service) == [a]
    requires forall n | n in names :: n in cfg.services
    ensures var w := Effects(cfg, o, s[..j]);
            && w == o.(svcs := w.svcs, hosted := w.hosted) && Orderly(w)
            && (forall n | n in names && ServiceChange(cfg, o.err, o.svcs, n) == [] :: ServiceChange(cfg, o.err, w.svcs, n) == [])
            && (forall x | x in s[..j] :: IsSeen(cfg, o, w.svcs, x))
            && (forall x | x in s[j..] :: ServiceAction(cfg, x) && ServiceChange(cfg, o.err, w.svcs, x.service) == [x])
  {
    hide ServiceChange, Orderly, SeenAfter;
    var done, left := s[..j], s[j..];
    assert forall x | x in done || x in left :: x in s;
    assert DistinctServices(done) by {
      assert forall i | 0 <= i < j :: done[i] == s[i];
    }
    ServiceEffects(cfg, o, done);
    hide Effects;
    var w := Effects(cfg, o, done);
    forall n | n in names && ServiceChange(cfg, o.err, o.svcs, n) == [] ensures ServiceChange(cfg, o.err, w.svcs, n) == [] {
      assert !Named(done, n);
      ChangeAgrees(cfg, o.err, o, w, n);
    }
    forall a | a in left ensures ServiceChange(cfg, o.err, w.svcs, a.service) == [a] {
      NotBefore(s, j, a);
      ChangeAgrees(cfg, o.err, o, w, a.service);
    }
  }

  lemma RedoSplit(cfg: Config, o: Observed, svcs: map<string, ObsService>, s: seq<Action>, j: nat)
    requires Orderly(o) && j <= |s| && AllAdmitted(cfg, s[..j])
    requires forall a | a in s :: ServiceAction(cfg, a) && ServiceChange(cfg, o.err, o.svcs, a.service) == [a]
    requires forall x | x in s[..j] :: IsSeen(cfg, o, svcs, x)
    requires forall x | x in s[j..] :: ServiceAction(cfg, x) && ServiceChange(cfg, o.err, svcs, x.service) == [x]
    ensures Redo(cfg, o.err, svcs, s) == Repeats(cfg, o, s[..j]) + s[j..]
  {
    hide ServiceChange, Orderly, Repeats, Redo, SeenAfter;
    var done, left := s[..j], s[j..];
    assert s == done + left;
    assert forall x | x in done || x in left :: x in s;
    RedoConcat(cfg, o.err, svcs, done, left);
    RedoDone(cfg, o, svcs, done);
    RedoUndone(cfg, o.err, svcs, left);
  }

  lemma NotBefore(s: seq<Action>, j: nat, a: Action)
    requires j <= |s| && DistinctServices(s) && a in s[j..] && OnService(a)
    ensures !Named(s[..j], a.service)
  {
    var k :| 0 <= k < |s[j..]| && s[j..][k] == a;
    assert s[j + k] == a;
    forall i | 0 <= i < j && OnService(s[..j][i]) ensures s[..j][i].service != a.service {
      assert s[..j][i] == s[i];
    }
  }
}

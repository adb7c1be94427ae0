// engine/engine.go and engine/retention.go: deploys, rollbacks and pruning over one
// host's history, images and services. The caller holds the deploy lock.
module Engine {
  import opened Wrappers
  import opened History
  import opened BlueGreen
  import opened Recreate

  // An image of the compose file: the repository of a service, at a tag.
  datatype Image = Image(service: string, tag: string)

  // services: those of deploy.yml. fixed: the images that the compose file names with a
  // tag of their own. window: how many deployed tags are retained.
  datatype Setup = Setup(services: set<string>, fixed: set<Image>, window: int)
  {
    // The images that compose maps at some tag.
    predicate Maps(im: Image) { im in fixed || im.service in services }

    // Every image that compose maps at this tag.
    predicate Has(images: set<Image>, tag: string) {
      fixed <= images && forall x | x in services :: Image(x, tag) in images
    }
  }

  // A service by its cutover strategy.
  datatype Slot = Proxied(p: Proxy) | Recreated(k: Container)

  datatype State = State(images: set<Image>, slots: map<string, Slot>, history: seq<Record>)

  datatype Reason = Busy | NotReady | NoPrevious | NotInWindow | ImageGone

  // How an attempt ends; tags are those of the services. Unprepared: secrets or registry
  // failed, before any service. Failed: at one service, with those in done cut over before
  // it. Unrecorded: every service was cut over and appending the success record failed.
  datatype Outcome =
    | Refused(why: Reason)
    | Skipped
    | Unprepared(failTag: string)
    | Failed(tags: map<string, string>, done: set<string>, at: string, cut: Cutover)
    | Unrecorded(tags: map<string, string>, tag: string, hash: string)
    | Succeeded(tags: map<string, string>, tag: string, hash: string, clean: bool)
  {
    // The tag on the record of the attempt.
    function Recorded(): string {
      match this
      case Refused(_) => ""
      case Skipped => ""
      case Unprepared(t) => t
      case Failed(_, _, _, c) => c.tag
      case Unrecorded(_, t, _) => t
      case Succeeded(_, t, _, _) => t
    }
  }

  // ----- retention

  // What prune may remove: a deployed tag outside the window.
  ghost predicate Victim(h: seq<Record>, window: int, tag: string) {
    Deployed(h, tag) && tag !in Window(h, window) && SafeTag(tag)
  }

  ghost predicate HasAll(images: set<Image>, services: set<string>, tag: string) {
    forall x | x in services :: Image(x, tag) in images
  }

  ghost predicate HasTags(images: set<Image>, services: set<string>, tags: map<string, string>) {
    services <= tags.Keys && forall x | x in services :: Image(x, tags[x]) in images
  }

  // Every service has this tag.
  ghost predicate Uniform(tags: map<string, string>, services: set<string>, tag: string) {
    services <= tags.Keys && forall x | x in services :: tags[x] == tag
  }

  // Every tag that may be rolled back to is still on the host.
  ghost predicate WindowKept(s: State, setup: Setup) {
    forall t | t in Window(s.history, setup.window) :: HasAll(s.images, setup.services, t)
  }

  ghost predicate Pruned(h: seq<Record>, setup: Setup, before: set<Image>, after: set<Image>, clean: bool) {
    && after <= before
    && (forall im | im in before && im !in after :: Victim(h, setup.window, im.tag) && setup.Maps(im))
    && (clean ==> forall im | im in after && setup.Maps(im) :: !Victim(h, setup.window, im.tag))
  }

  // ----- what one attempt does

  ghost predicate SlotStep(a: Slot, b: Slot, c: Cutover) {
    match a
    case Proxied(p) => b.Proxied? && CutoverStep(p, b.p, c.tag, c.err, c.sequenced)
    case Recreated(k) => b.Recreated? && RecreateStep(k, b.k, c.tag, c.err)
  }

  // A successful cutover: the proxied service is on its other color alone.
  ghost predicate Replaced(a: Slot, b: Slot, tag: string) {
    match a
    case Proxied(p) => b.Proxied? && Steady(b.p, Other(p.Old()), tag)
    case Recreated(_) => b.Recreated? && b.k.Running? && b.k.tag == tag
  }

  // What a reload for another service does: nginx reads every fragment again.
  function Reloaded(a: Slot): Slot {
    match a
    case Proxied(p) => Proxied(p.(loaded := p.file))
    case Recreated(_) => a
  }

  // A service is as it was, but for what reloads of an nginx that it shares did.
  ghost predicate LeftAlone(a: Slot, b: Slot) {
    b == a || b == Reloaded(a)
  }

  ghost predicate OthersLeft(a: map<string, Slot>, b: map<string, Slot>, x: string) {
    a.Keys == b.Keys && forall y | y in a && y != x :: LeftAlone(a[y], b[y])
  }

  // Exactly these services were cut over.
  ghost predicate CutOver(a: map<string, Slot>, b: map<string, Slot>, done: set<string>, tags: map<string, string>) {
    && done <= a.Keys == b.Keys && done <= tags.Keys
    && (forall x | x in done :: Replaced(a[x], b[x], tags[x]))
    && (forall x | x in a && x !in done :: LeftAlone(a[x], b[x]))
  }

  // Only images of these tags were pulled.
  ghost predicate Pulled(before: set<Image>, after: set<Image>, tags: map<string, string>) {
    before <= after && forall im | im in after && im !in before :: im.service in tags && im.tag == tags[im.service]
  }

  ghost predicate RecordsFailure(h: seq<Record>, h': seq<Record>, tag: string) {
    h' == h || exists r: Record :: !r.Success() && r.tag == tag && h' == h + [r]
  }

  // At most this line was appended.
  ghost predicate Writes(h: seq<Record>, h': seq<Record>, r: Record) {
    h' == h || h' == h + [r]
  }

  ghost predicate RecordsSuccess(h: seq<Record>, h': seq<Record>, tag: string, hash: string) {
    exists r: Record :: r.Success() && r.tag == tag && r.configHash == hash && h' == h + [r]
  }

  ghost predicate Step(s: State, s': State, setup: Setup, oc: Outcome) {
    match oc
    case Refused(_) => s' == s
    case Skipped => s' == s
    case Unprepared(tag) => RecordsFailure(s.history, s'.history, tag) && s'.images == s.images && s'.slots == s.slots
    case Failed(tags, done, at, cut) =>
      && RecordsFailure(s.history, s'.history, cut.tag)
      && Pulled(s.images, s'.images, tags)
      && done <= setup.services && at in setup.services && at !in done && at in s.slots && at in s'.slots
      && at in tags && cut.tag == tags[at] && cut.err.Some?
      && (SlotStep(s.slots[at], s'.slots[at], cut) || SlotStep(Reloaded(s.slots[at]), s'.slots[at], cut))
      && CutOver(s.slots, s'.slots[at := s.slots[at]], done, tags)
    case Unrecorded(tags, tag, hash) =>
      && (s'.history == s.history || RecordsSuccess(s.history, s'.history, tag, hash))
      && Pulled(s.images, s'.images, tags) && HasTags(s'.images, setup.services, tags)
      && CutOver(s.slots, s'.slots, setup.services, tags) && LastOf(setup.services, tags, tag)
    case Succeeded(tags, tag, hash, clean) =>
      && RecordsSuccess(s.history, s'.history, tag, hash)
      && (exists all: set<Image> :: Pulled(s.images, all, tags) && HasTags(all, setup.services, tags)
            && Pruned(s'.history, setup, all, s'.images, clean))
      && CutOver(s.slots, s'.slots, setup.services, tags) && LastOf(setup.services, tags, tag)
  }

  // The record names the tag of the service that happened to come last.
  ghost predicate LastOf(services: set<string>, tags: map<string, string>, tag: string) {
    exists x :: x in services && x in tags && tags[x] == tag
  }

  // The line that the attempt appends, if it does.
  ghost predicate Line(h: seq<Record>, h': seq<Record>, oc: Outcome, failTag: string, step: string, outcome: string) {
    match oc
    case Refused(_) => h' == h
    case Skipped => h' == h
    case Unprepared(tag) =>
      tag == failTag && (Writes(h, h', Record(tag, "failed@secrets", "")) || Writes(h, h', Record(tag, "failed@registry", "")))
    case Failed(_, _, _, cut) => Writes(h, h', Record(cut.tag, "failed@" + step, ""))
    case Unrecorded(_, tag, hash) => Writes(h, h', Record(tag, outcome, hash))
    case Succeeded(_, tag, hash, _) => h' == h + [Record(tag, outcome, hash)]
  }

  // An order in which the services may be visited; the source ranges over a map.
  ghost predicate Visits(order: seq<string>, services: set<string>) {
    NoDup(order) && forall x :: x in order <==> x in services
  }

  class Project {
    const setup: Setup
    var images: set<Image>
    var slots: map<string, Slot>
    var history: seq<Record>
    // Set by the deploys of this engine and stamped on every success record it writes.
    var configHash: string

    constructor (setup: Setup, s: State)
      ensures this.setup == setup && Now() == s && configHash == ""
    {
      this.setup := setup;
      images, slots, history, configHash := s.images, s.slots, s.history, "";
    }

    ghost function Now(): State
      reads this
    {
      State(images, slots, history)
    }

    // One service's slot before and after its cutover, by the strategy it has.
    method CutoverSlot(s: Slot, tag: string) returns (s': Slot, c: Cutover)
      ensures c.tag == tag && SlotStep(s, s', c)
      ensures c.err == None ==> Replaced(s, s', tag) && SafeTag(tag)
    {
      match s {
        case Proxied(p) =>
          var svc := new ProxyService(p);
          var pick: GpuPick, onNoFree: string := *, *;
          var err, sequenced := svc.ProxyCutover(tag, pick, onNoFree);
          c := Cutover(tag, err, sequenced);
          s' := Proxied(svc.p);
        case Recreated(k) =>
          var svc := new RecreatedService(k);
          var err := svc.RecreateService(tag);
          c := Cutover(tag, err, false);
          s' := Recreated(svc.k);
      }
    }

    // One service's cutover; the pull is what brings its image.
    method CutoverService(name: string, tag: string) returns (c: Cutover)
      requires name in slots
      modifies `images, `slots
      ensures c.tag == tag && name in slots && SlotStep(old(slots)[name], slots[name], c)
      ensures OthersLeft(old(slots), slots, name)
      ensures c.err == None ==> Replaced(old(slots)[name], slots[name], tag)
      ensures images == old(images) || images == old(images) + {Image(name, tag)}
      ensures c.err == None ==> Image(name, tag) in images && SafeTag(tag)
      ensures c.err == Some(NotAttempted) ==> images == old(images)
    {
      var s;
      s, c := CutoverSlot(slots[name], tag);
      slots := slots[name := s];
      // Reloads of an nginx that other services share.
      var shared: set<string> := *;
      slots := map x | x in slots :: if x in shared && x != name then Reloaded(slots[x]) else slots[x];
      var pulled: bool := *;
      if c.err != Some(NotAttempted) && (pulled || c.err != Some(PullFailed)) {
        images := images + {Image(name, tag)};
      }
    }

    // Appends a line to the history file; an error may hide that it was written.
    method AppendRecord(r: Record) returns (ok: bool)
      modifies `history
      ensures history == old(history) + [r] || (!ok && history == old(history))
    {
      ok := *;
      var took: bool := *;
      if ok || took {
        history := history + [r];
      }
    }

    method RecordFailure(tag: string, step: string)
      modifies `history
      ensures RecordsFailure(old(history), history, tag)
      ensures Writes(old(history), history, Record(tag, "failed@" + step, ""))
    {
      var r := Record(tag, "failed@" + step, "");
      assert r.outcome[0] == 'f';
      var _ := AppendRecord(r);
    }

    // Removes what compose maps at each deployed tag outside the window and is named with
    // that tag; each lookup and each removal may fail, a removal even half way.
    method Prune(h: seq<Record>) returns (clean: bool)
      modifies `images
      ensures Pruned(h, setup, old(images), images, clean)
      ensures images <= old(images)
      ensures forall im | im in old(images) && im !in images ::
                Deployed(h, im.tag) && im.tag !in Window(h, setup.window) && (im in setup.fixed || im.service in setup.services)
      ensures clean ==> forall im | im in images && (im in setup.fixed || im.service in setup.services) && SafeTag(im.tag) ::
                Deployed(h, im.tag) ==> im.tag in Window(h, setup.window)
    {
      var keep := RetainedTags(h, setup.window);
      var seen: set<string> := {};
      clean := true;
      for i := 0 to |h|
        invariant images <= old(images)
        invariant forall t :: t in seen <==> t !in keep && SafeTag(t) && Deployed(h[..i], t)
        invariant forall im | im in old(images) && im !in images :: im.tag in seen && setup.Maps(im)
        invariant clean ==> forall im | im in images && setup.Maps(im) :: im.tag !in seen
      {
        var r := h[i];
        DeployedStep(h, i);
        if !r.Success() || r.tag in keep || r.tag in seen || !SafeTag(r.tag) {
          continue;
        }
        seen := seen + {r.tag};
        var resolved: bool := *;
        if !resolved {
          clean := false;
          continue;
        }
        var victims := set im | im in images && setup.Maps(im) && im.tag == r.tag;
        var removed: bool := *;
        if removed {
          images := images - victims;
        } else {
          clean := false;
          var some: set<Image> := *;
          images := images - (victims * some);
        }
      }
      assert h[..|h|] == h;
    }

    // Appends the success record, then prunes against the history in memory.
    method Finalize(tag: string, outcome: string, h: seq<Record>) returns (recorded: bool, clean: bool)
      requires h == history && outcome in {"deployed", "rolled-back"}
      modifies `history, `images
      ensures !recorded ==> images == old(images) && (history == h || RecordsSuccess(h, history, tag, configHash))
      ensures Writes(h, history, Record(tag, outcome, configHash)) && (recorded ==> history == h + [Record(tag, outcome, configHash)])
      ensures recorded ==> RecordsSuccess(h, history, tag, configHash) && Pruned(history, setup, old(images), images, clean)
    {
      var rec := Record(tag, outcome, configHash);
      assert rec.Success();
      recorded := AppendRecord(rec);
      clean := false;
      if recorded {
        clean := Prune(h + [rec]);
      }
    }

    // The shared body of deploy and rollback. Each service has its tag; the record gets
    // the one of the last service visited.
    method RunServices(order: seq<string>, tags: map<string, string>, failTag: string, step: string, outcome: string,
                       h: seq<Record>) returns (oc: Outcome)
      requires h == history && outcome in {"deployed", "rolled-back"} && tags.Keys == setup.services
      requires Visits(order, setup.services) && setup.services != {} && setup.services <= slots.Keys
      modifies `images, `slots, `history
      ensures Step(old(Now()), Now(), setup, oc)
      ensures oc.Unprepared? || oc.Failed? || oc.Unrecorded? || oc.Succeeded?
      ensures oc.Unrecorded? || oc.Succeeded? ==> oc.tags == tags && oc.hash == configHash && oc.tag == tags[order[|order| - 1]]
      ensures oc.Failed? ==> oc.tags == tags
      ensures Line(old(history), history, oc, failTag, step, outcome)
    {
      hide Step, CutOver, HasTags, Pulled, SlotStep, Replaced, RecordsFailure, RecordsSuccess, Pruned, Done, OthersLeft, LastOf, Line, Writes;
      assert "failed@" + "secrets" == "failed@secrets" && "failed@" + "registry" == "failed@registry";
      var fetched, loggedIn: bool := *, *;
      if !fetched {
        RecordFailure(failTag, "secrets");
        LineUnprepared(h, history, failTag, step, outcome);
        NothingCutOver(old(Now()), Now(), setup, failTag);
        return Unprepared(failTag);
      }
      if !loggedIn {
        RecordFailure(failTag, "registry");
        LineUnprepared(h, history, failTag, step, outcome);
        NothingCutOver(old(Now()), Now(), setup, failTag);
        return Unprepared(failTag);
      }
      NothingDone(slots, images, order, tags);
      var deployed := "";
      for i := 0 to |order|
        invariant history == h
        invariant CutOver(old(slots), slots, Done(order, i), tags)
        invariant Pulled(old(images), images, tags) && HasTags(images, Done(order, i), tags)
        invariant i > 0 ==> deployed == tags[order[i - 1]]
      {
        DoneNext(order, i);
        CutOverKeys(old(slots), slots, Done(order, i), tags);
        ghost var before, had := slots, images;
        var c := CutoverService(order[i], tags[order[i]]);
        PulledOne(old(images), had, images, order[i], tags);
        if c.err != None {
          RecordFailure(tags[order[i]], step);
          LineFailed(h, history, tags, Done(order, i), order[i], c, failTag, step, outcome);
          FailedAt(old(Now()), before, Now(), setup, tags, Done(order, i), order[i], c);
          return Failed(tags, Done(order, i), order[i], c);
        }
        OneMoreDone(old(slots), before, slots, had, images, Done(order, i), order[i], tags);
        deployed := tags[order[i]];
      }
      AllDone(order, setup.services, tags);
      ghost var all := images;
      var recorded, clean := Finalize(deployed, outcome, h);
      LineDone(h, history, tags, deployed, configHash, clean, failTag, step, outcome);
      if recorded {
        AllSucceeded(old(Now()), Now(), setup, all, tags, deployed, configHash, clean);
      } else {
        AllUnrecorded(old(Now()), Now(), setup, tags, deployed, configHash);
      }
      return if recorded then Succeeded(tags, deployed, configHash, clean) else Unrecorded(tags, deployed, configHash);
    }

    method Deploy(order: seq<string>, tags: map<string, string>, hash: string, force: bool) returns (oc: Outcome)
      requires tags.Keys == setup.services
      requires Visits(order, setup.services) && setup.services != {} && setup.services <= slots.Keys
      modifies this
      ensures Step(old(Now()), Now(), setup, oc)
      ensures oc.Skipped? ==> ShouldSkip(old(history), hash, force)
      ensures ShouldSkip(old(history), hash, force) ==> oc.Skipped? || oc.Refused?
      ensures oc.Unrecorded? || oc.Succeeded? ==> oc.tags == tags && oc.hash == hash && oc.tag == tags[order[|order| - 1]]
      ensures configHash == if oc.Refused? || oc.Skipped? then old(configHash) else hash
      ensures Line(old(history), history, oc, "", "deploy", "deployed")
      // The same deploy once more is a skip.
      ensures oc.Succeeded? && hash != "" ==> ShouldSkip(history, hash, false)
    {
      var locked, ready: bool := *, *;
      if !locked {
        return Refused(Busy);
      }
      if !ready {
        return Refused(NotReady);
      }
      var h := history;
      if ShouldSkip(h, hash, force) {
        return Skipped;
      }
      configHash := hash;
      oc := RunServices(order, tags, "", "deploy", "deployed", h);
      SkipAfter(old(Now()), Now(), setup, oc, hash, false);
    }

    method Rollback(order: seq<string>) returns (oc: Outcome)
      requires Visits(order, setup.services) && setup.services != {} && setup.services <= slots.Keys
      modifies `images, `slots, `history
      ensures Step(old(Now()), Now(), setup, oc)
      ensures oc.Unrecorded? || oc.Succeeded? ==> oc.tag == Previous(old(history)) && oc.hash == configHash
      ensures oc.Unrecorded? || oc.Succeeded? ==> Uniform(oc.tags, setup.services, oc.tag)
      ensures Line(old(history), history, oc, Previous(old(history)), "rollback", "rolled-back")
      ensures Previous(old(history)) == "" ==> oc.Refused?
      ensures oc.Refused? ==> oc.why == Busy || (oc.why == NoPrevious && Previous(old(history)) == "")
      ensures oc.Failed? ==> Uniform(oc.tags, setup.services, Previous(old(history)))
      // No deploy is skipped after it, unless this engine had deployed before.
      ensures oc.Succeeded? && configHash == "" ==> forall hash, force :: !ShouldSkip(history, hash, force)
    {
      var locked: bool := *;
      if !locked {
        return Refused(Busy);
      }
      var h := history;
      var target := PreviousTag(h);
      if target == "" {
        return Refused(NoPrevious);
      }
      oc := RunServices(order, AllAt(setup.services, target), target, "rollback", "rolled-back", h);
      NoSkipAfter(old(Now()), Now(), setup, oc);
    }

    method RollbackTo(order: seq<string>, tag: string) returns (oc: Outcome)
      requires Visits(order, setup.services) && setup.services != {} && setup.services <= slots.Keys
      modifies `images, `slots, `history
      ensures Step(old(Now()), Now(), setup, oc)
      ensures oc.Unrecorded? || oc.Succeeded? ==> oc.tag == tag && tag in Window(old(history), setup.window) && oc.hash == configHash
      ensures oc.Succeeded? && configHash == "" ==> forall hash, force :: !ShouldSkip(history, hash, force)
      ensures oc.Unrecorded? || oc.Succeeded? ==> Uniform(oc.tags, setup.services, oc.tag)
      ensures Line(old(history), history, oc, tag, "rollback", "rolled-back")
      ensures oc == Refused(NotInWindow) ==> tag !in Window(old(history), setup.window)
      ensures tag !in Window(old(history), setup.window) || !SafeTag(tag) ==> oc.Refused?
      ensures oc.Failed? ==> Uniform(oc.tags, setup.services, tag)
      // With an image of the tag missing there is no rollback, and it is found gone only then.
      ensures !setup.Has(old(images), tag) ==> oc.Refused?
      ensures oc == Refused(ImageGone) ==> !setup.Has(old(images), tag)
      // So a tag inside the window is found gone only for an image with a tag of its own.
      ensures oc == Refused(ImageGone) && WindowKept(old(Now()), setup) ==> !(setup.fixed <= old(images))
    {
      var locked, ready: bool := *, *;
      if !SafeTag(tag) {
        return Refused(NotReady);
      }
      if !locked {
        return Refused(Busy);
      }
      var h := history;
      var candidates := RetainedTags(h, setup.window);
      if tag !in candidates {
        return Refused(NotInWindow);
      }
      if !ready {
        return Refused(NotReady);
      }
      if !setup.Has(images, tag) {
        return Refused(ImageGone);
      }
      oc := RunServices(order, AllAt(setup.services, tag), tag, "rollback", "rolled-back", h);
      NoSkipAfter(old(Now()), Now(), setup, oc);
    }
  }

  lemma DeployedStep(h: seq<Record>, i: nat)
    requires i < |h|
    ensures forall t :: Deployed(h[..i + 1], t) <==> Deployed(h[..i], t) || (h[i].Success() && h[i].tag == t)
  {
    forall t ensures Deployed(h[..i + 1], t) <==> Deployed(h[..i], t) || (h[i].Success() && h[i].tag == t) {
      if Deployed(h[..i], t) {
        var j :| 0 <= j < i && h[..i][j].Success() && h[..i][j].tag == t;
        assert h[..i + 1][j] == h[..i][j];
      }
      if h[i].Success() && h[i].tag == t {
        assert h[..i + 1][i] == h[i];
      }
    }
  }

  // ----- the ends of an attempt

  lemma LineUnprepared(h: seq<Record>, h': seq<Record>, failTag: string, step: string, outcome: string)
    requires Writes(h, h', Record(failTag, "failed@secrets", "")) || Writes(h, h', Record(failTag, "failed@registry", ""))
    ensures Line(h, h', Unprepared(failTag), failTag, step, outcome)
  {
  }

  lemma LineFailed(h: seq<Record>, h': seq<Record>, tags: map<string, string>, done: set<string>, at: string, c: Cutover,
                   failTag: string, step: string, outcome: string)
    requires Writes(h, h', Record(c.tag, "failed@" + step, ""))
    ensures Line(h, h', Failed(tags, done, at, c), failTag, step, outcome)
  {
  }

  lemma LineDone(h: seq<Record>, h': seq<Record>, tags: map<string, string>, tag: string, hash: string, clean: bool,
                 failTag: string, step: string, outcome: string)
    requires Writes(h, h', Record(tag, outcome, hash))
    ensures Line(h, h', Unrecorded(tags, tag, hash), failTag, step, outcome)
    ensures h' == h + [Record(tag, outcome, hash)] ==> Line(h, h', Succeeded(tags, tag, hash, clean), failTag, step, outcome)
  {
  }

  lemma NothingCutOver(s: State, s': State, setup: Setup, tag: string)
    requires RecordsFailure(s.history, s'.history, tag) && s'.images == s.images && s'.slots == s.slots
    ensures Step(s, s', setup, Unprepared(tag))
  {
  }

  lemma FailedAt(s: State, before: map<string, Slot>, s': State, setup: Setup, tags: map<string, string>, done: set<string>,
                 at: string, c: Cutover)
    requires RecordsFailure(s.history, s'.history, c.tag) && Pulled(s.images, s'.images, tags)
    requires CutOver(s.slots, before, done, tags) && done <= setup.services && at in setup.services && at !in done
    requires at in tags && c.tag == tags[at] && c.err.Some? && at in before && at in s'.slots
    requires OthersLeft(before, s'.slots, at) && SlotStep(before[at], s'.slots[at], c)
    ensures Step(s, s', setup, Failed(tags, done, at, c))
  {
    var after := s'.slots[at := s.slots[at]];
    StillLeft(s.slots, before, s'.slots, done, at, tags);
    hide SlotStep, Replaced, RecordsFailure, Pulled;
  }

  // Reloads change nothing about a service that was cut over, and two are as good as one.
  lemma StillLeft(a: map<string, Slot>, b: map<string, Slot>, c: map<string, Slot>, done: set<string>, x: string, tags: map<string, string>)
    requires CutOver(a, b, done, tags) && x in a && x !in done && OthersLeft(b, c, x)
    ensures CutOver(a, c[x := a[x]], done, tags)
  {
  }

  lemma AllSucceeded(s: State, s': State, setup: Setup, all: set<Image>, tags: map<string, string>, tag: string, hash: string, clean: bool)
    requires RecordsSuccess(s.history, s'.history, tag, hash)
    requires Pulled(s.images, all, tags) && HasTags(all, setup.services, tags) && Pruned(s'.history, setup, all, s'.images, clean)
    requires CutOver(s.slots, s'.slots, setup.services, tags) && LastOf(setup.services, tags, tag)
    ensures Step(s, s', setup, Succeeded(tags, tag, hash, clean))
  {
  }

  lemma AllUnrecorded(s: State, s': State, setup: Setup, tags: map<string, string>, tag: string, hash: string)
    requires s'.history == s.history || RecordsSuccess(s.history, s'.history, tag, hash)
    requires Pulled(s.images, s'.images, tags) && HasTags(s'.images, setup.services, tags)
    requires CutOver(s.slots, s'.slots, setup.services, tags) && LastOf(setup.services, tags, tag)
    ensures Step(s, s', setup, Unrecorded(tags, tag, hash))
  {
  }

  lemma CutOverKeys(a: map<string, Slot>, b: map<string, Slot>, done: set<string>, tags: map<string, string>)
    requires CutOver(a, b, done, tags)
    ensures b.Keys == a.Keys
  {
  }

  lemma PulledOne(before: set<Image>, had: set<Image>, images: set<Image>, x: string, tags: map<string, string>)
    requires Pulled(before, had, tags) && x in tags && (images == had || images == had + {Image(x, tags[x])})
    ensures Pulled(before, images, tags)
  {
  }

  lemma OneMoreDone(a: map<string, Slot>, b: map<string, Slot>, c: map<string, Slot>,
                    had: set<Image>, images: set<Image>, done: set<string>, x: string, tags: map<string, string>)
    requires CutOver(a, b, done, tags) && x !in done && x in b && x in c && x in tags
    requires OthersLeft(b, c, x) && Replaced(b[x], c[x], tags[x])
    ensures CutOver(a, c, done + {x}, tags)
    ensures HasTags(had, done, tags) && had <= images && Image(x, tags[x]) in images ==> HasTags(images, done + {x}, tags)
  {
    StillLeft(a, b, c, done, x, tags);
    assert Replaced(a[x], c[x], tags[x]);
    hide Replaced, LeftAlone;
  }

  lemma NothingDone(slots: map<string, Slot>, images: set<Image>, order: seq<string>, tags: map<string, string>)
    ensures CutOver(slots, slots, Done(order, 0), tags) && HasTags(images, Done(order, 0), tags) && Pulled(images, images, tags)
  {
  }

  lemma AllDone(order: seq<string>, services: set<string>, tags: map<string, string>)
    requires Visits(order, services) && services != {} && tags.Keys == services
    ensures Done(order, |order|) == services && |order| > 0 && order[|order| - 1] in services
    ensures LastOf(services, tags, tags[order[|order| - 1]])
  {
    assert order[..|order|] == order;
    var x :| x in services;
    assert x in order;
  }

  function AllAt(services: set<string>, tag: string): map<string, string> {
    map x | x in services :: tag
  }

  function Done(order: seq<string>, i: nat): set<string>
    requires i <= |order|
  {
    set x | x in order[..i]
  }

  lemma DoneNext(order: seq<string>, i: nat)
    requires i < |order| && NoDup(order)
    ensures order[i] !in Done(order, i) && Done(order, i + 1) == Done(order, i) + {order[i]}
    ensures order[i] in order && forall x | x in Done(order, i) :: x in order
  {
    assert order[..i + 1] == order[..i] + [order[i]];
  }

  // ----- runs of attempts

  // An attempt keeps the images of every tag in the window if and only if, in case it
  // recorded a success, the images of the recorded tag are all there.
  lemma StepKeepsWindow(s: State, s': State, setup: Setup, oc: Outcome)
    requires Step(s, s', setup, oc) && WindowKept(s, setup) && setup.window >= 1
    ensures WindowKept(s', setup) <==>
              (!Failing(oc) && s'.history != s.history ==> HasAll(s'.images, setup.services, oc.Recorded()))
  {
    hide CutOver, Window, Deployed;
    if s'.history != s.history {
      var r := Written(s, s', setup, oc);
      WindowAfter(s.history, r, setup.window);
    }
    if oc.Succeeded? {
      var all: set<Image> :| Pulled(s.images, all, oc.tags) && Pruned(s'.history, setup, all, s'.images, oc.clean);
      assert forall t | t in Window(s'.history, setup.window) && t != oc.tag :: HasAll(all, setup.services, t);
    }
  }

  // They are when every service has the recorded tag.
  lemma UniformKeeps(s: State, s': State, setup: Setup, oc: Outcome)
    requires Step(s, s', setup, oc) && WindowKept(s, setup) && setup.window >= 1
    requires !Failing(oc) ==> Uniform(oc.tags, setup.services, oc.tag)
    ensures WindowKept(s', setup)
  {
    StepKeepsWindow(s, s', setup, oc);
    hide CutOver, Window, Deployed;
    if !Failing(oc) && s'.history != s.history {
      var r := Written(s, s', setup, oc);
      WindowAfter(s.history, r, setup.window);
    }
  }

  // The one record that an attempt may write.
  lemma Written(s: State, s': State, setup: Setup, oc: Outcome) returns (r: Record)
    requires Step(s, s', setup, oc) && s'.history != s.history
    ensures s'.history == s.history + [r]
    ensures !oc.Refused? && !oc.Skipped? && r.tag == oc.Recorded()
    ensures r.Success() <==> oc.Unrecorded? || oc.Succeeded?
    ensures r.Success() ==> r.configHash == oc.hash
  {
    if oc.Unrecorded? || oc.Succeeded? {
      r :| r.Success() && r.tag == oc.tag && r.configHash == oc.hash && s'.history == s.history + [r];
    } else {
      r :| !r.Success() && r.tag == oc.Recorded() && s'.history == s.history + [r];
    }
  }

  ghost predicate IsRun(ss: seq<State>, ocs: seq<Outcome>, setup: Setup) {
    |ss| == |ocs| + 1 && forall i | 0 <= i < |ocs| :: Step(ss[i], ss[i + 1], setup, ocs[i])
  }

  // Retained images: after any run of successful and failed deploys and rollbacks in which
  // no success mixed tags.
  lemma {:induction false} RunKeepsWindow(ss: seq<State>, ocs: seq<Outcome>, setup: Setup)
    requires IsRun(ss, ocs, setup) && WindowKept(ss[0], setup) && setup.window >= 1
    requires forall oc | oc in ocs && !Failing(oc) :: Uniform(oc.tags, setup.services, oc.tag)
    ensures WindowKept(ss[|ocs|], setup)
  {
    if ocs != [] {
      var n := |ocs| - 1;
      RunKeepsWindow(ss[..n + 1], ocs[..n], setup);
      UniformKeeps(ss[n], ss[n + 1], setup, ocs[n]);
    }
  }

  // A deploy that does mix them records one tag, and the window then holds a tag that
  // the other service never had.
  lemma MixedTagsBreakTheWindow()
    ensures var setup := Setup({"api", "web"}, {}, 5);
            var tags := map["api" := "v1", "web" := "v2"];
            var before := State({}, map["api" := Recreated(Absent), "web" := Recreated(Absent)], []);
            var after := State({Image("api", "v1"), Image("web", "v2")},
                               map["api" := Recreated(Running("v1", 0)), "web" := Recreated(Running("v2", 0))],
                               [Record("v2", "deployed", "")]);
            && Step(before, after, setup, Succeeded(tags, "v2", "", true))
            && WindowKept(before, setup) && !WindowKept(after, setup) && !setup.Has(after.images, "v2")
  {
    hide Window, Deployed, Step;
    var h := [Record("v2", "deployed", "")];
    WindowOfOne("v2");
    MixedTagsStep(h);
    assert !HasAll({Image("api", "v1"), Image("web", "v2")}, {"api", "web"}, "v2") by {
      assert Image("api", "v2") !in {Image("api", "v1"), Image("web", "v2")};
    }
  }

  lemma WindowOfOne(tag: string)
    ensures Window([], 5) == [] && tag in Window([Record(tag, "deployed", "")], 5)
  {
    var h := [Record(tag, "deployed", "")];
    assert h == [] + [h[0]] && h[0].Success();
    WindowAfter([], h[0], 5);
  }

  lemma MixedTagsStep(h: seq<Record>)
    requires h == [Record("v2", "deployed", "")] && "v2" in Window(h, 5)
    ensures var setup := Setup({"api", "web"}, {}, 5);
            var tags := map["api" := "v1", "web" := "v2"];
            Step(State({}, map["api" := Recreated(Absent), "web" := Recreated(Absent)], []),
                 State({Image("api", "v1"), Image("web", "v2")},
                       map["api" := Recreated(Running("v1", 0)), "web" := Recreated(Running("v2", 0))], h),
                 setup, Succeeded(tags, "v2", "", true))
  {
    hide Window, Deployed;
    var setup := Setup({"api", "web"}, {}, 5);
    var tags := map["api" := "v1", "web" := "v2"];
    assert h == [] + [h[0]] && h[0].Success();
    var all := {Image("api", "v1"), Image("web", "v2")};
    OnlyTagKept(h, "v2", 5);
    assert Pulled({}, all, tags) && HasTags(all, setup.services, tags) && Pruned(h, setup, all, all, true);
    assert tags["web"] == "v2";
  }

  lemma OnlyTagKept(h: seq<Record>, tag: string, window: int)
    requires |h| == 1 && h[0].tag == tag && tag in Window(h, window)
    ensures forall t :: !Victim(h, window, t)
  {
  }

  ghost predicate Failing(oc: Outcome) {
    !oc.Unrecorded? && !oc.Succeeded?
  }

  // Some attempt from the j-th on failed with this image among its own.
  ghost predicate FailedSince(ocs: seq<Outcome>, j: nat, im: Image) {
    exists i :: j <= i < |ocs| && FailedWith(ocs[i], im)
  }

  ghost predicate FailedWith(oc: Outcome, im: Image) {
    oc.Failed? && im.service in oc.tags && oc.tags[im.service] == im.tag
  }

  // Retention is exact: let the j-th attempt be the last one that deployed, with removals
  // that all worked. Then however many attempts failed since, every image of compose
  // there is of a deployed tag is in the window, or was pulled again by one that failed.
  lemma {:induction false} CleanAfterSuccess(ss: seq<State>, ocs: seq<Outcome>, setup: Setup, j: nat, im: Image)
    requires IsRun(ss, ocs, setup) && j < |ocs| && ocs[j].Succeeded? && ocs[j].clean
    requires forall oc | oc in ocs[j + 1..] :: Failing(oc)
    requires im in ss[|ocs|].images && setup.Maps(im) && SafeTag(im.tag) && Deployed(ss[|ocs|].history, im.tag)
    ensures im.tag in Window(ss[|ocs|].history, setup.window) || FailedSince(ocs, j + 1, im)
    decreases |ocs|
  {
    var n := |ocs| - 1;
    if j == n {
      assert !Victim(ss[n + 1].history, setup.window, im.tag);
    } else {
      var oc := ocs[j + 1..][n - j - 1];
      assert oc in ocs[j + 1..] && oc == ocs[n];
      FailureKeeps(ss[n], ss[n + 1], setup, oc, im.tag);
      if im in ss[n].images {
        var ss', ocs' := ss[..n + 1], ocs[..n];
        assert ocs[j + 1..] == ocs'[j + 1..] + [oc];
        CleanAfterSuccess(ss', ocs', setup, j, im);
        if FailedSince(ocs', j + 1, im) {
          var i :| j + 1 <= i < n && FailedWith(ocs'[i], im);
          assert FailedWith(ocs[i], im);
        }
      } else {
        assert FailedWith(ocs[n], im);
      }
    }
  }

  lemma FailureKeeps(s: State, s': State, setup: Setup, oc: Outcome, tag: string)
    requires Step(s, s', setup, oc) && Failing(oc)
    ensures Window(s'.history, setup.window) == Window(s.history, setup.window)
    ensures Deployed(s'.history, tag) <==> Deployed(s.history, tag)
  {
    if s'.history != s.history {
      var r := Written(s, s', setup, oc);
      WindowAfter(s.history, r, setup.window);
      DeployedStep(s'.history, |s.history|);
      assert s'.history[..|s.history| + 1] == s'.history && s'.history[..|s.history|] == s.history;
    }
  }

  // An image with a tag of its own is pruned exactly when its tag was deployed and has
  // left the window; RollbackTo finds a tag of the window gone only after that.
  lemma StepKeepsFixed(s: State, s': State, setup: Setup, oc: Outcome)
    requires Step(s, s', setup, oc) && setup.fixed <= s.images
    ensures (forall f | f in setup.fixed :: !Victim(s'.history, setup.window, f.tag)) ==> setup.fixed <= s'.images
    ensures oc.Succeeded? && oc.clean && setup.fixed <= s'.images ==>
              forall f | f in setup.fixed :: !Victim(s'.history, setup.window, f.tag)
  {
  }

  lemma {:induction false} RunKeepsFixed(ss: seq<State>, ocs: seq<Outcome>, setup: Setup)
    requires IsRun(ss, ocs, setup) && setup.fixed <= ss[0].images
    requires forall i, f | 0 < i <= |ocs| && f in setup.fixed :: !Victim(ss[i].history, setup.window, f.tag)
    ensures setup.fixed <= ss[|ocs|].images
  {
    if ocs != [] {
      var n := |ocs| - 1;
      RunKeepsFixed(ss[..n + 1], ocs[..n], setup);
      StepKeepsFixed(ss[n], ss[n + 1], setup, ocs[n]);
    }
  }

  // With a window of one, deploying v2 after v1 prunes a database image that compose
  // happens to pin at v1 too, and then every tag of the window is found gone.
  lemma FixedImageIsLost()
    ensures var setup := Setup({"web"}, {Image("db", "v1")}, 1);
            var before := State({Image("web", "v1"), Image("db", "v1")}, map["web" := Recreated(Running("v1", 0))],
                                [Record("v1", "deployed", "")]);
            var after := State({Image("web", "v2")}, map["web" := Recreated(Running("v2", 1))],
                               [Record("v1", "deployed", ""), Record("v2", "deployed", "")]);
            && setup.Has(before.images, "v1") && Step(before, after, setup, Succeeded(map["web" := "v2"], "v2", "", true))
            && WindowKept(after, setup) && !setup.Has(after.images, "v2")
  {
    var h := [Record("v1", "deployed", ""), Record("v2", "deployed", "")];
    var setup := Setup({"web"}, {Image("db", "v1")}, 1);
    FirstTagLeaves();
    hide Window, Deployed, Victim;
    assert h == [h[0]] + [h[1]] && h[1].Success();
    var all := {Image("web", "v1"), Image("db", "v1"), Image("web", "v2")};
    var tags := map["web" := "v2"];
    assert HasTags(all, setup.services, tags) && Pulled({Image("web", "v1"), Image("db", "v1")}, all, tags);
    assert Pruned(h, setup, all, {Image("web", "v2")}, true) && tags["web"] == "v2";
  }

  lemma FirstTagLeaves()
    ensures var h := [Record("v1", "deployed", ""), Record("v2", "deployed", "")];
            Window(h, 1) == ["v2"] && Victim(h, 1, "v1") && !Victim(h, 1, "v2")
  {
    var one, two := Record("v1", "deployed", ""), Record("v2", "deployed", "");
    var h := [one, two];
    assert h == [one] + [two] && one.Success() && two.Success();
    WindowAfter([one], two, 1);
    assert Window(h, 1) == ["v2"];
    assert h[0].Success() && h[0].tag == "v1" && SafeTag("v1");
  }

  // What the next deploy does about a matching hash: it is skipped exactly after a
  // recorded success that carried that hash, never after a recorded failure.
  lemma SkipAfter(s: State, s': State, setup: Setup, oc: Outcome, hash: string, force: bool)
    requires Step(s, s', setup, oc)
    ensures oc.Succeeded? ==> s'.history != s.history
    ensures s'.history == s.history ==> (ShouldSkip(s'.history, hash, force) <==> ShouldSkip(s.history, hash, force))
    ensures s'.history != s.history ==>
              (ShouldSkip(s'.history, hash, force) <==>
                !force && (oc.Unrecorded? || oc.Succeeded?) && oc.hash != "" && oc.hash == hash)
  {
    if s'.history != s.history {
      var r := Written(s, s', setup, oc);
    }
  }

  lemma NoSkipAfter(s: State, s': State, setup: Setup, oc: Outcome)
    requires Step(s, s', setup, oc)
    ensures oc.Succeeded? && oc.hash == "" ==> forall hash, force :: !ShouldSkip(s'.history, hash, force)
  {
    forall hash, force ensures oc.Succeeded? && oc.hash == "" ==> !ShouldSkip(s'.history, hash, force) {
      SkipAfter(s, s', setup, oc, hash, force);
    }
  }

  lemma SlotsStay(s: State, s': State, setup: Setup, oc: Outcome)
    requires Step(s, s', setup, oc)
    ensures s'.slots.Keys == s.slots.Keys
  {
    if oc.Failed? {
      assert s'.slots[oc.at := s.slots[oc.at]].Keys == s'.slots.Keys;
    }
  }

  // The hash outlives the deploy in its engine: one that deploys and then rolls back
  // stamps it on the rollback's record too, and the deploy that was rolled back is then
  // skipped. (The command line makes an engine for each command.)
  method DeployThenRollback(p: Project, order: seq<string>, tags: map<string, string>, hash: string, force: bool)
    returns (deployed: Outcome, back: Outcome)
    requires tags.Keys == p.setup.services
    requires Visits(order, p.setup.services) && p.setup.services != {} && p.setup.services <= p.slots.Keys
    modifies p
    ensures deployed.Succeeded? && back.Succeeded? && hash != "" ==> ShouldSkip(p.history, hash, false)
  {
    ghost var s0 := p.Now();
    deployed := p.Deploy(order, tags, hash, force);
    ghost var s1 := p.Now();
    SlotsStay(s0, s1, p.setup, deployed);
    back := p.Rollback(order);
    SkipAfter(s1, p.Now(), p.setup, back, hash, false);
  }
}

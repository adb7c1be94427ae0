// What the services serve beside what the history says of them: over the attempts of a
// project, the rollback anchor and the traffic.
module Traffic {
  import opened Wrappers
  import opened History
  import opened BlueGreen
  import opened Recreate
  import opened Engine

  // ----- one attempt

  ghost predicate SlotServes(x: Slot, tag: string) {
    match x
    case Proxied(p) => Serves(p, tag)
    case Recreated(k) => k.Running? && k.tag == tag
  }

  ghost predicate SlotContained(a: Slot, b: Slot, c: Cutover) {
    match a
    case Proxied(p) => b.Proxied? && Contained(p, b.p, c)
    case Recreated(k) => b.Recreated? && RecreateContained(k, b.k, c.err)
  }

  // Every service serves the tag of the latest success.
  ghost predicate Agrees(s: State, services: set<string>) {
    Anchor(s.history).Some? ==> forall x | x in services :: x in s.slots && SlotServes(s.slots[x], Anchor(s.history).value.tag)
  }

  lemma SlotContainedExact(a: Slot, b: Slot, c: Cutover, tag: string)
    requires SlotStep(a, b, c) && SlotServes(a, tag) && c.err.Some? && c.tag != tag
    ensures SlotServes(b, tag) <==> SlotContained(a, b, c)
  {
    match a
    case Proxied(p) => ContainedExact(p, b.p, c, tag);
    case Recreated(k) => RecreateContainedExact(k, b.k, c, tag);
  }

  lemma ReplacedServes(a: Slot, b: Slot, tag: string, other: string)
    requires Replaced(a, b, tag)
    ensures SlotServes(b, other) <==> other == tag
  {
  }

  // Reloads for other services change nothing where the proxy serves a tag.
  lemma ReloadedServes(a: Slot, b: Slot, tag: string)
    requires LeftAlone(a, b) && SlotServes(a, tag)
    ensures b == a
  {
  }

  // When an attempt leaves every service on the anchor's tag, with one exception: a
  // failed cutover to the anchor's own tag, where that is the state of the one service.
  ghost predicate AgreesAfter(s: State, s': State, services: set<string>, oc: Outcome)
    requires Anchor(s.history).Some?
  {
    var tag := Anchor(s.history).value.tag;
    match oc
    case Failed(tags, done, at, cut) =>
      && at in s.slots && at in s'.slots && Uniform(tags, done, tag)
      && if cut.tag == tag then SlotServes(s'.slots[at], tag) else SlotContained(s.slots[at], s'.slots[at], cut)
    case Unrecorded(tags, newTag, _) => Uniform(tags, services, if s'.history != s.history then newTag else tag)
    case Succeeded(tags, newTag, _, _) => Uniform(tags, services, newTag)
    case _ => true
  }

  // A failure keeps the agreement exactly if it moved no service to another tag before
  // the one it came at and was contained there; a success exactly if every service has the
  // tag on the record, or without a new record the anchor's.
  lemma AgreementAfter(s: State, s': State, setup: Setup, oc: Outcome)
    requires Step(s, s', setup, oc) && Anchor(s.history).Some? && Agrees(s, setup.services)
    requires setup.services <= s.slots.Keys
    ensures Agrees(s', setup.services) <==> AgreesAfter(s, s', setup.services, oc)
  {
    AnchorAfter(s, s', setup, oc);
    var anchor := Anchor(s'.history).value.tag;
    match oc
    case Failed(_, _, _, _) => FailedAgreement(s, s', setup, oc);
    case Unrecorded(tags, _, _) => AllReplaced(s, s', setup, tags, anchor);
    case Succeeded(tags, _, _, _) => AllReplaced(s, s', setup, tags, anchor);
    case _ =>
  }

  lemma AllReplaced(s: State, s': State, setup: Setup, tags: map<string, string>, other: string)
    requires CutOver(s.slots, s'.slots, setup.services, tags)
    ensures (forall x | x in setup.services :: x in s'.slots && SlotServes(s'.slots[x], other)) <==> Uniform(tags, setup.services, other)
  {
    forall x | x in setup.services ensures SlotServes(s'.slots[x], other) <==> tags[x] == other {
      ReplacedServes(s.slots[x], s'.slots[x], tags[x], other);
    }
  }

  lemma FailedAgreement(s: State, s': State, setup: Setup, oc: Outcome)
    requires Step(s, s', setup, oc) && oc.Failed? && Anchor(s.history).Some? && Agrees(s, setup.services)
    requires setup.services <= s.slots.Keys && Anchor(s'.history) == Anchor(s.history)
    ensures Agrees(s', setup.services) <==> AgreesAfter(s, s', setup.services, oc)
  {
    hide SlotStep, SlotContained, SlotServes, Replaced, LeftAlone, Reloaded;
    var tag := Anchor(s.history).value.tag;
    assert SlotServes(s.slots[oc.at], tag);
    ReloadedServes(s.slots[oc.at], Reloaded(s.slots[oc.at]), tag) by {
      ReloadIsLeftAlone(s.slots[oc.at]);
    }
    forall x | x in oc.done ensures x in s'.slots && (SlotServes(s'.slots[x], tag) <==> tag == oc.tags[x]) {
      ReplacedServes(s.slots[x], s'.slots[x], oc.tags[x], tag);
    }
    forall x | x in setup.services && x !in oc.done && x != oc.at ensures x in s'.slots && SlotServes(s'.slots[x], tag) {
      ReloadedServes(s.slots[x], s'.slots[x], tag);
    }
    if oc.cut.tag != tag {
      SlotContainedExact(s.slots[oc.at], s'.slots[oc.at], oc.cut, tag);
    }
  }

  lemma ReloadIsLeftAlone(a: Slot)
    ensures LeftAlone(a, Reloaded(a))
  {
  }

  lemma AnchorAfter(s: State, s': State, setup: Setup, oc: Outcome)
    requires Step(s, s', setup, oc)
    ensures Failing(oc) || s'.history == s.history ==>
              Anchor(s'.history) == Anchor(s.history) && SuccessCount(s'.history) == SuccessCount(s.history)
    ensures !Failing(oc) && s'.history != s.history ==>
              && Anchor(s'.history).Some? && Anchor(s'.history).value.tag == oc.Recorded()
              && SuccessCount(s'.history) == SuccessCount(s.history) + 1
  {
    if s'.history != s.history {
      var r := Written(s, s', setup, oc);
      assert s'.history[..|s'.history| - 1] == s.history;
    }
  }

  // ----- whole lives

  function SuccessCount(h: seq<Record>): nat {
    if h == [] then 0 else SuccessCount(h[..|h| - 1]) + if h[|h| - 1].Success() then 1 else 0
  }

  // Without an anchor no color is up. With one, exactly the upstream color is, it serves
  // the anchor's tag, and it is blue after an odd number of successes, green after an
  // even one. A service that is recreated runs the anchor's tag.
  ghost predicate SlotAccounted(x: Slot, h: seq<Record>) {
    match x
    case Proxied(p) =>
      (match Anchor(h)
       case None => p.Active() == None && SuccessCount(h) == 0
       case Some(r) => Steady(p, Turned(Green, SuccessCount(h)), r.tag))
    case Recreated(k) => Anchor(h).Some? ==> k.Running? && k.tag == Anchor(h).value.tag
  }

  ghost predicate Accounted(s: State, services: set<string>) {
    forall x | x in services :: x in s.slots && SlotAccounted(s.slots[x], s.history)
  }

  // A failure that is contained at the first service, and any success that is recorded
  // and brings one tag.
  ghost predicate Harmless(s: State, s': State, services: set<string>, oc: Outcome) {
    match oc
    case Failed(_, done, at, cut) => done == {} && at in s.slots && at in s'.slots && SlotContained(s.slots[at], s'.slots[at], cut)
    case Unrecorded(tags, tag, _) => s'.history != s.history && Uniform(tags, services, tag)
    case Succeeded(tags, tag, _, _) => Uniform(tags, services, tag)
    case _ => true
  }

  lemma SlotLeft(a: Slot, b: Slot, h: seq<Record>, h': seq<Record>)
    requires SlotAccounted(a, h) && LeftAlone(a, b)
    requires Anchor(h') == Anchor(h) && SuccessCount(h') == SuccessCount(h)
    ensures SlotAccounted(b, h')
  {
  }

  lemma SlotSucceeds(a: Slot, b: Slot, h: seq<Record>, h': seq<Record>, tag: string)
    requires SlotAccounted(a, h) && Replaced(a, b, tag)
    requires Anchor(h').Some? && Anchor(h').value.tag == tag && SuccessCount(h') == SuccessCount(h) + 1
    ensures SlotAccounted(b, h')
  {
  }

  lemma SlotFails(a: Slot, b: Slot, h: seq<Record>, h': seq<Record>, c: Cutover)
    requires SlotAccounted(a, h) && (SlotStep(a, b, c) || SlotStep(Reloaded(a), b, c)) && SlotContained(a, b, c) && c.err.Some?
    requires Anchor(h') == Anchor(h) && SuccessCount(h') == SuccessCount(h)
    ensures SlotAccounted(b, h')
  {
  }

  lemma StepAccounted(s: State, s': State, setup: Setup, oc: Outcome)
    requires Accounted(s, setup.services) && Step(s, s', setup, oc) && Harmless(s, s', setup.services, oc)
    ensures Accounted(s', setup.services)
  {
    AnchorAfter(s, s', setup, oc);
    forall x | x in setup.services ensures x in s'.slots && SlotAccounted(s'.slots[x], s'.history) {
      if !Failing(oc) {
        SlotSucceeds(s.slots[x], s'.slots[x], s.history, s'.history, oc.tag);
      } else if oc.Failed? && oc.at == x {
        SlotFails(s.slots[x], s'.slots[x], s.history, s'.history, oc.cut);
      } else {
        SlotLeft(s.slots[x], s'.slots[x], s.history, s'.history);
      }
    }
  }

  // The rollback anchor agrees with the traffic, for every service, over any sequence of
  // deploys, rollbacks, skips and refusals that are harmless.
  lemma {:induction false} AnchorServes(ss: seq<State>, ocs: seq<Outcome>, setup: Setup)
    requires IsRun(ss, ocs, setup) && Accounted(ss[0], setup.services)
    requires forall i | 0 <= i < |ocs| :: Harmless(ss[i], ss[i + 1], setup.services, ocs[i])
    ensures Accounted(ss[|ocs|], setup.services) && Agrees(ss[|ocs|], setup.services)
  {
    if ocs != [] {
      var n := |ocs| - 1;
      AnchorServes(ss[..n + 1], ocs[..n], setup);
      assert ss[..n + 1][n] == ss[n];
      StepAccounted(ss[n], ss[n + 1], setup, ocs[n]);
    }
  }
}

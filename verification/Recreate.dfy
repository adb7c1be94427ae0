// engine/engine.go, recreate: pull, stop, up and probe of a service with one container.
module Recreate {
  import opened Wrappers
  import opened BlueGreen

  ghost predicate RecreateStep(k: Container, k': Container, tag: string, err: Option<CutoverError>) {
    match err
    case None => k'.Running? && k'.tag == tag
    case Some(NotAttempted) => k' == k
    case Some(PullFailed) => k' == k
    case Some(StopFirstFailed) => k' == k || k' == StopOf(k)
    case Some(StartFailed) => k' == StopOf(k) || (!k'.Absent? && k'.tag == tag)
    case Some(ProbeFailed) => !k'.Absent? && k'.tag == tag
    case Some(FlipFailed) => false
    case Some(StopLastFailed) => false
  }

  // There is no way back here: once the container is down, or up with the new tag, it stays so.
  ghost predicate RecreateContained(k: Container, k': Container, err: Option<CutoverError>) {
    match err
    case None => true
    case Some(NotAttempted) => true
    case Some(PullFailed) => true
    case Some(_) => k' == k
  }

  lemma RecreateContainedExact(k: Container, k': Container, c: Cutover, tag: string)
    requires RecreateStep(k, k', c.tag, c.err) && k.Running? && k.tag == tag && c.err.Some? && c.tag != tag
    ensures k'.Running? && k'.tag == tag <==> RecreateContained(k, k', c.err)
  {
  }

  datatype Order = PullImage(tag: string) | StopOld | UpNew(tag: string)

  datatype Ran = Ran(cmd: Order, ok: bool)

  // The commands, and for a success the probe after them.
  ghost predicate RecreateCommands(t: seq<Ran>, err: Option<CutoverError>, tag: string) {
    match err
    case None => t == [Ran(PullImage(tag), true), Ran(StopOld, true), Ran(UpNew(tag), true)]
    case Some(NotAttempted) => t == []
    case Some(PullFailed) => t == [Ran(PullImage(tag), false)]
    case Some(StopFirstFailed) => t == [Ran(PullImage(tag), true), Ran(StopOld, false)]
    case Some(StartFailed) => t == [Ran(PullImage(tag), true), Ran(StopOld, true), Ran(UpNew(tag), false)]
    case Some(ProbeFailed) => t == [Ran(PullImage(tag), true), Ran(StopOld, true), Ran(UpNew(tag), true)]
    case Some(_) => false
  }

  class RecreatedService {
    var k: Container
    ghost var passed: set<nat>  // probed successfully in the last cutover
    ghost var trace: seq<Ran>   // the commands of the last cutover

    constructor (k: Container)
      ensures this.k == k
    {
      this.k, this.passed, this.trace := k, {}, [];
    }

    // One host command: on success it had its effect, on failure it may have had it.
    method Run(cmd: Order, next: Container) returns (ok: bool)
      modifies this
      ensures k == next || (!ok && k == old(k))
      ensures passed == old(passed) && trace == old(trace) + [Ran(cmd, ok)]
    {
      ok := *;
      var took: bool := *;
      if ok || took {
        k := next;
      }
      trace := trace + [Ran(cmd, ok)];
    }

    method Probe() returns (ok: bool)
      modifies this`passed
      ensures ok ==> k.Running? && passed == old(passed) + {k.made}
      ensures !ok ==> passed == old(passed)
    {
      ok := *;
      ok := ok && k.Running?;
      if ok {
        passed := passed + {k.made};
      }
    }

    method RecreateService(tag: string) returns (err: Option<CutoverError>)
      modifies this
      ensures RecreateStep(old(k), k, tag, err)
      ensures RecreateCommands(trace, err, tag)
      ensures !SafeTag(tag) ==> err == Some(NotAttempted)
      ensures err == None ==> k.Running? && k.made in passed
      ensures err == Some(ProbeFailed) ==> passed == {}
    {
      trace, passed := [], {};
      var ready: bool := *;
      if !SafeTag(tag) || !ready {
        return Some(NotAttempted);
      }
      var ok := Run(PullImage(tag), k);
      if !ok {
        return Some(PullFailed);
      }
      ok := Run(StopOld, StopOf(k));
      if !ok {
        return Some(StopFirstFailed);
      }
      var made: nat, how: Start := *, *;
      ok := Run(UpNew(tag), UpOf(k, tag, how, made));
      if !ok {
        return Some(StartFailed);
      }
      ok := Probe();
      return if ok then None else Some(ProbeFailed);
    }
  }
}

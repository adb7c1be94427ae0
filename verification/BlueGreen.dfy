// engine/bluegreen.go and engine/nginx.go: the cutover of one proxied service, command
// by command, on a host where any command may fail with or without its effect.
module BlueGreen {
  import opened Wrappers

  datatype Color = Blue | Green

  function Other(c: Color): Color {
    if c.Blue? then Green else Blue
  }

  // made tells one container from the next under the same name.
  datatype Container = Absent | Stopped(tag: string, made: nat) | Running(tag: string, made: nat)

  // file: the color the nginx fragment names; loaded: the one nginx was last reloaded with.
  datatype Proxy = Proxy(blue: Container, green: Container, file: Option<Color>, loaded: Option<Color>, clock: nat)
  {
    function At(c: Color): Container { if c.Blue? then blue else green }

    function With(c: Color, k: Container): Proxy {
      if c.Blue? then this.(blue := k) else this.(green := k)
    }

    // What activeColor finds: blue first.
    function Active(): Option<Color> {
      if blue.Running? then Some(Blue) else if green.Running? then Some(Green) else None
    }

    // The color that the next cutover replaces; green when none is up.
    function Old(): Color { if Active().Some? then Active().value else Green }
  }

  // What compose up does with a container of the tag it is asked for, which it may find a
  // reason to recreate, and whether the container then exits.
  datatype Start = Start(recreate: bool, exits: bool)

  datatype Command =
    | Pull(c: Color, tag: string)
    | Stop(c: Color)
    | Up(c: Color, tag: string, gpu: string)
    | Restart(c: Color)
    | WriteFragment(c: Color)
    | Reload

  function StopOf(k: Container): Container {
    if k.Running? then Stopped(k.tag, k.made) else k
  }

  function StartOf(k: Container): Container {
    if k.Stopped? then Running(k.tag, k.made) else k
  }

  // up brings back a container of the same tag as it is, unless it is recreated; in every
  // other case it makes a new one.
  function UpOf(k: Container, tag: string, how: Start, made: nat): Container {
    var id := if !how.recreate && !k.Absent? && k.tag == tag then k.made else made;
    if how.exits then Stopped(tag, id) else Running(tag, id)
  }

  // start and stop keep the container there is.
  function Exec(p: Proxy, cmd: Command, how: Start): Proxy {
    match cmd
    case Pull(_, _) => p
    case Stop(c) => p.With(c, StopOf(p.At(c)))
    case Up(c, tag, _) => p.With(c, UpOf(p.At(c), tag, how, p.clock)).(clock := p.clock + 1)
    case Restart(c) => p.With(c, StartOf(p.At(c)))
    case WriteFragment(c) => p.(file := Some(c))
    case Reload => p.(loaded := p.file)
  }

  datatype GpuPick = NotGpu | FreeGpu(idx: string) | NoFreeGpu | PickFailed

  datatype CutoverError =
    | NotAttempted     // unsafe tag, bad readiness, active color unknown, no GPU and told to fail
    | PullFailed
    | StopFirstFailed
    | StartFailed
    | ProbeFailed
    | FlipFailed
    | StopLastFailed

  predicate TagChar(c: char) {
    'A' <= c <= 'Z' || 'a' <= c <= 'z' || '0' <= c <= '9' || c in "_.:/@-"
  }

  // engine/engine.go, safeTag.
  predicate SafeTag(tag: string) {
    tag != "" && forall c | c in tag :: TagChar(c)
  }

  lemma SafeTagExact(tag: string)
    ensures SafeTag(tag) <==>
              && |tag| >= 1
              && forall i | 0 <= i < |tag| ::
                   || 'A' <= tag[i] <= 'Z' || 'a' <= tag[i] <= 'z' || '0' <= tag[i] <= '9'
                   || tag[i] in {'_', '.', ':', '/', '@', '-'}
  {
    assert forall i | 0 <= i < |tag| :: tag[i] in tag;
  }

  // Exactly this color is up, with this tag, and nginx's file and nginx agree on it.
  ghost predicate Steady(p: Proxy, c: Color, tag: string) {
    && p.At(c).Running? && p.At(c).tag == tag
    && !p.At(Other(c)).Running?
    && p.file == Some(c) && p.loaded == Some(c)
  }

  // ----- what every command of a cutover keeps

  // The state after a command, what had passed its probe by then, and how it ended.
  datatype Snap = Snap(p: Proxy, passed: set<nat>, cmd: Command, ok: bool)

  // The container under this name is the one it was, running or stopped.
  ghost predicate NotRecreated(before: Container, after: Container) {
    || after == before
    || (!before.Absent? && !after.Absent? && before.tag == after.tag && before.made == after.made)
  }

  // nginx sends traffic to a running container: the untouched old one, or one of the
  // other color that passed its probe in this cutover.
  ghost predicate Served(p0: Proxy, s: Snap) {
    var oldColor := p0.Old();
    && s.p.loaded.Some?
    && s.p.At(s.p.loaded.value).Running?
    && (if s.p.loaded.value == oldColor then s.p.At(oldColor) == p0.At(oldColor)
        else s.p.At(s.p.loaded.value).made in s.passed)
  }

  ghost predicate AllKept(p0: Proxy, trace: seq<Snap>) {
    forall s | s in trace :: NotRecreated(p0.At(p0.Old()), s.p.At(p0.Old()))
  }

  ghost predicate AllServed(p0: Proxy, trace: seq<Snap>) {
    forall s | s in trace :: Served(p0, s)
  }

  // ----- the commands of a cutover

  // These commands, in this order, all but the last of them successful.
  ghost predicate Commands(t: seq<Snap>, cmds: seq<Command>) {
    |t| == |cmds| && forall i | 0 <= i < |t| :: t[i].cmd == cmds[i] && (i < |t| - 1 ==> t[i].ok)
  }

  ghost predicate LastOk(t: seq<Snap>) {
    t != [] && t[|t| - 1].ok
  }

  // New color up beside the old one, then flip, then stop the old one. A failed probe
  // takes the new color down again.
  ghost predicate ZeroGapCommands(t: seq<Snap>, err: Option<CutoverError>, next: Color, tag: string, gpu: string) {
    match err
    case None => Commands(t, [Up(next, tag, gpu), WriteFragment(next), Reload, Stop(Other(next))]) && LastOk(t)
    case Some(StartFailed) => Commands(t, [Up(next, tag, gpu)]) && !LastOk(t)
    case Some(ProbeFailed) => Commands(t, [Up(next, tag, gpu), Stop(next)])
    case Some(FlipFailed) =>
      && !LastOk(t)
      && (Commands(t, [Up(next, tag, gpu), WriteFragment(next)]) || Commands(t, [Up(next, tag, gpu), WriteFragment(next), Reload]))
    case Some(StopLastFailed) => Commands(t, [Up(next, tag, gpu), WriteFragment(next), Reload, Stop(Other(next))]) && !LastOk(t)
    case Some(_) => false
  }

  // Old color down first, then the new one up, then flip. A failed probe starts the old
  // color again.
  ghost predicate SequencedCommands(t: seq<Snap>, err: Option<CutoverError>, next: Color, tag: string, gpu: string) {
    match err
    case None => Commands(t, [Stop(Other(next)), Up(next, tag, gpu), WriteFragment(next), Reload]) && LastOk(t)
    case Some(StopFirstFailed) => Commands(t, [Stop(Other(next))]) && !LastOk(t)
    case Some(StartFailed) => Commands(t, [Stop(Other(next)), Up(next, tag, gpu)]) && !LastOk(t)
    case Some(ProbeFailed) => Commands(t, [Stop(Other(next)), Up(next, tag, gpu), Restart(Other(next))])
    case Some(FlipFailed) =>
      && !LastOk(t)
      && (Commands(t, [Stop(Other(next)), Up(next, tag, gpu), WriteFragment(next)])
          || Commands(t, [Stop(Other(next)), Up(next, tag, gpu), WriteFragment(next), Reload]))
    case Some(_) => false
  }

  // The failures after the probe, and success.
  ghost predicate PastProbe(err: Option<CutoverError>) {
    err in {None, Some(FlipFailed), Some(StopLastFailed)}
  }

  // ----- what a cutover does, by where it fails

  ghost predicate OldUntouched(p: Proxy, p': Proxy) {
    p'.At(p.Old()) == p.At(p.Old()) && p'.file == p.file && p'.loaded == p.loaded
  }

  ghost predicate NewIsUp(p: Proxy, p': Proxy, tag: string) {
    var newest := p'.At(Other(p.Old()));
    newest.Running? && newest.tag == tag
  }

  ghost predicate Flipped(p: Proxy, p': Proxy) {
    p'.file == Some(Other(p.Old())) && p'.loaded == Some(Other(p.Old()))
  }

  ghost predicate ZeroGapStep(p: Proxy, p': Proxy, tag: string, err: Option<CutoverError>) {
    match err
    case None => Steady(p', Other(p.Old()), tag)
    case Some(NotAttempted) => p' == p
    case Some(PullFailed) => p' == p
    case Some(StopFirstFailed) => false
    case Some(StartFailed) => OldUntouched(p, p')
    case Some(ProbeFailed) => OldUntouched(p, p')
    case Some(FlipFailed) => p'.At(p.Old()) == p.At(p.Old()) && NewIsUp(p, p', tag) && (p'.loaded == p.loaded || Flipped(p, p'))
    case Some(StopLastFailed) => NewIsUp(p, p', tag) && Flipped(p, p')
  }

  // Stop-old-first has a gap: a failed start leaves the old color down; a failed probe
  // restarts it, if that command works, beside the new color, up or exited.
  ghost predicate SequencedStep(p: Proxy, p': Proxy, tag: string, err: Option<CutoverError>) {
    match err
    case None => Steady(p', Other(p.Old()), tag)
    case Some(NotAttempted) => p' == p
    case Some(PullFailed) => p' == p
    case Some(StopFirstFailed) => p' == p || p' == p.With(p.Old(), StopOf(p.At(p.Old())))
    case Some(StartFailed) => p'.At(p.Old()) == StopOf(p.At(p.Old())) && p'.file == p.file && p'.loaded == p.loaded
    case Some(ProbeFailed) =>
      && p'.file == p.file && p'.loaded == p.loaded
      && !p'.At(Other(p.Old())).Absent? && p'.At(Other(p.Old())).tag == tag
      && p'.At(p.Old()) in {StopOf(p.At(p.Old())), StartOf(StopOf(p.At(p.Old())))}
    case Some(FlipFailed) => !p'.At(p.Old()).Running? && NewIsUp(p, p', tag) && (p'.loaded == p.loaded || Flipped(p, p'))
    case Some(StopLastFailed) => false
  }

  ghost predicate CutoverStep(p: Proxy, p': Proxy, tag: string, err: Option<CutoverError>, sequenced: bool) {
    if sequenced then SequencedStep(p, p', tag, err) else ZeroGapStep(p, p', tag, err)
  }

  class ProxyService {
    var p: Proxy
    ghost var passed: set<nat>  // probed successfully in the last cutover
    ghost var trace: seq<Snap>  // after each command of the last cutover

    constructor (p: Proxy)
      ensures this.p == p && trace == []
    {
      this.p, this.passed, this.trace := p, {}, [];
    }

    // One host command: on success it had its effect, on failure it may have had it.
    method Run(cmd: Command) returns (ok: bool, ghost how: Start)
      modifies this
      ensures p == Exec(old(p), cmd, how) || (!ok && p == old(p))
      ensures passed == old(passed) && trace == old(trace) + [Snap(p, passed, cmd, ok)]
    {
      ok := *;
      var took: bool := *;
      var start: Start := *;
      how := start;
      if ok || took {
        p := Exec(p, cmd, start);
      }
      trace := trace + [Snap(p, passed, cmd, ok)];
    }

    // compose ps, container IP and the readiness probe; they change nothing.
    method Probe(c: Color) returns (ok: bool)
      modifies this`passed
      ensures ok ==> p.At(c).Running? && passed == old(passed) + {p.At(c).made}
      ensures !ok ==> passed == old(passed)
    {
      ok := *;
      ok := ok && p.At(c).Running?;
      if ok {
        passed := passed + {p.At(c).made};
      }
    }

    method ActiveColor() returns (c: Option<Color>, ok: bool)
      ensures ok ==> c == p.Active()
    {
      c, ok := None, *;
      if ok && p.blue.Running? {
        c := Some(Blue);
      } else if ok {
        ok := *;
        if p.green.Running? {
          c := Some(Green);
        }
      }
    }

    // Points nginx at the color: the fragment is written, then nginx reloads.
    method FlipUpstream(c: Color) returns (ok: bool)
      modifies this
      ensures ok ==> p == old(p).(file := Some(c), loaded := Some(c))
      ensures p == old(p) || p == old(p).(file := Some(c)) || p == old(p).(file := Some(c), loaded := Some(c))
      ensures passed == old(passed) && old(trace) <= trace
      ensures var t := trace[|old(trace)|..];
              && (Commands(t, [WriteFragment(c), Reload]) || (!ok && Commands(t, [WriteFragment(c)])))
              && (ok <==> LastOk(t))
      ensures forall s | s in trace[|old(trace)|..] ::
                && s.passed == passed
                && (s.p == old(p) || s.p == old(p).(file := Some(c)) || s.p == old(p).(file := Some(c), loaded := Some(c)))
    {
      ghost var how;
      ok, how := Run(WriteFragment(c));
      ghost var t := [trace[|old(trace)|]];
      assert trace[|old(trace)|..] == t;
      if ok {
        ok, how := Run(Reload);
        assert trace[|old(trace)|..] == t + [trace[|old(trace)| + 1]];
      }
    }

    // Green up beside the old color, probe, flip, then stop the old one.
    method ZeroGap(target: Color, tag: string, gpu: string) returns (err: Option<CutoverError>)
      requires target == Other(p.Old())
      modifies this
      ensures ZeroGapStep(old(p), p, tag, err) && err != Some(NotAttempted) && err != Some(PullFailed)
      ensures old(trace) <= trace && ZeroGapCommands(trace[|old(trace)|..], err, target, tag, gpu)
      ensures err == Some(ProbeFailed) && LastOk(trace) ==> !p.At(target).Running?
      ensures PastProbe(err) ==> p.At(target).made in passed
      ensures AllKept(old(p), old(trace)) ==> AllKept(old(p), trace)
      ensures NotRecreated(old(p.At(p.Old())), p.At(old(p.Old())))
      ensures old(p.loaded == Some(p.Old()) && p.At(p.Old()).Running?) && AllServed(old(p), old(trace)) ==> AllServed(old(p), trace)
    {
      hide AllKept, AllServed, ZeroGapCommands, Commands;
      ghost var t0, p0 := trace, p;
      ghost var how;
      var ok;
      ok, how := Run(Up(target, tag, gpu));
      ghost var t1 := trace;
      KeptOn(p0, t0, t1);
      if !ok {
        ZeroGapRan(t0, t1, t1, t1, Some(StartFailed), target, tag, gpu);
        return Some(StartFailed);
      }
      ok := Probe(target);
      if !ok {
        ok, how := Run(Stop(target));
        KeptOn(p0, t1, trace);
        ZeroGapRan(t0, t1, trace, trace, Some(ProbeFailed), target, tag, gpu);
        return Some(ProbeFailed);
      }
      ok := FlipUpstream(target);
      ghost var t2 := trace;
      KeptOn(p0, t1, t2);
      if !ok {
        ZeroGapRan(t0, t1, t2, t2, Some(FlipFailed), target, tag, gpu);
        return Some(FlipFailed);
      }
      ok, how := Run(Stop(Other(target)));
      KeptOn(p0, t2, trace);
      err := if ok then None else Some(StopLastFailed);
      ZeroGapRan(t0, t1, t2, trace, err, target, tag, gpu);
    }

    // The old color down first to free its memory.
    method StopOldFirst(target: Color, tag: string, gpu: string) returns (err: Option<CutoverError>)
      requires target == Other(p.Old())
      modifies this
      ensures SequencedStep(old(p), p, tag, err) && err != Some(NotAttempted) && err != Some(PullFailed)
      ensures old(trace) <= trace && SequencedCommands(trace[|old(trace)|..], err, target, tag, gpu)
      // A restart that works brings back exactly the container that served.
      ensures err == Some(ProbeFailed) && LastOk(trace) && old(p.At(p.Old()).Running?) ==> p.At(old(p.Old())) == old(p.At(p.Old()))
      ensures PastProbe(err) ==> p.At(target).made in passed
      ensures AllKept(old(p), old(trace)) ==> AllKept(old(p), trace)
      ensures NotRecreated(old(p.At(p.Old())), p.At(old(p.Old())))
    {
      hide AllKept, AllServed, SequencedCommands, Commands, NotRecreated, Served;
      ghost var t0, p0 := trace, p;
      KeptOps(p.At(p.Old()));
      ghost var how;
      var ok;
      ok, how := Run(Stop(Other(target)));
      ghost var t1 := trace;
      KeptOn(p0, t0, t1);
      if !ok {
        SequencedRan(t0, t1, t1, t1, Some(StopFirstFailed), target, tag, gpu);
        return Some(StopFirstFailed);
      }
      ok, how := Run(Up(target, tag, gpu));
      ghost var t2 := trace;
      KeptOn(p0, t1, t2);
      if !ok {
        SequencedRan(t0, t1, t2, t2, Some(StartFailed), target, tag, gpu);
        return Some(StartFailed);
      }
      ok := Probe(target);
      if !ok {
        // start, not up: the old container as it is, with its own image.
        ok, how := Run(Restart(Other(target)));
        KeptOn(p0, t2, trace);
        SequencedRan(t0, t1, t2, trace, Some(ProbeFailed), target, tag, gpu);
        return Some(ProbeFailed);
      }
      ok := FlipUpstream(target);
      KeptOn(p0, t2, trace);
      err := if ok then None else Some(FlipFailed);
      SequencedRan(t0, t1, t2, trace, err, target, tag, gpu);
    }

    method ProxyCutover(tag: string, pick: GpuPick, onNoFree: string) returns (err: Option<CutoverError>, sequenced: bool)
      modifies this
      ensures sequenced <==> pick.NoFreeGpu? && onNoFree != "fail" && err != Some(NotAttempted)
      ensures pick.NoFreeGpu? && onNoFree == "fail" ==> err == Some(NotAttempted)
      ensures CutoverStep(old(p), p, tag, err, sequenced)
      ensures !SafeTag(tag) ==> err == Some(NotAttempted)
      // The commands: the color that is not active is pulled and cut over to, blue at first.
      ensures var next := if old(p.blue.Running?) then Green else Blue;
              var gpu := if pick.FreeGpu? then pick.idx else "";
              match err
              case Some(NotAttempted) => trace == []
              case Some(PullFailed) => Commands(trace, [Pull(next, tag)]) && !LastOk(trace)
              case _ =>
                && trace != [] && trace[0].cmd == Pull(next, tag) && trace[0].ok
                && if sequenced then SequencedCommands(trace[1..], err, next, tag, gpu) else ZeroGapCommands(trace[1..], err, next, tag, gpu)
      // From the flip on the new color has passed its probe in this cutover.
      ensures PastProbe(err) ==> p.At(Other(old(p.Old()))).made in passed
      ensures err == Some(ProbeFailed) && LastOk(trace) && sequenced && old(p.At(p.Old()).Running?) ==>
                p.At(old(p.Old())) == old(p.At(p.Old()))
      ensures err == Some(ProbeFailed) && LastOk(trace) && !sequenced ==> !p.At(Other(old(p.Old()))).Running?
      // The old color is never recreated, on any path and at any point.
      ensures AllKept(old(p), trace) && NotRecreated(old(p.At(p.Old())), p.At(old(p.Old())))
      // Zero-gap safety, after every command and for every pattern of failures.
      ensures !sequenced && old(p.loaded == Some(p.Old()) && p.At(p.Old()).Running?) ==> AllServed(old(p), trace)
    {
      hide ZeroGapCommands, SequencedCommands, CutoverStep;
      trace, passed := [], {};
      err, sequenced := Some(NotAttempted), false;
      NothingRan(p, p, tag);
      var ready: bool := *;
      if !SafeTag(tag) || !ready {
        return;
      }
      var active, ok := ActiveColor();
      if !ok {
        return;
      }
      var target := Blue;
      if active.Some? {
        target := Other(active.value);
      }
      var stopFirst, gpu := false, "";
      match pick {
        case NotGpu =>
        case FreeGpu(idx) => gpu := idx;
        case NoFreeGpu =>
          if onNoFree == "fail" {
            return;
          }
          stopFirst := true;
        case PickFailed => return;
      }
      sequenced := stopFirst;
      ghost var how;
      ok, how := Run(Pull(target, tag));
      ghost var pulled := trace;
      assert pulled == [pulled[0]];
      if !ok {
        err := Some(PullFailed);
      } else if sequenced {
        err := StopOldFirst(target, tag, gpu);
        assert trace == pulled + trace[1..];
      } else {
        err := ZeroGap(target, tag, gpu);
        assert trace == pulled + trace[1..];
      }
      StepOf(old(p), p, tag, err, sequenced);
    }
  }

  lemma NothingRan(p: Proxy, p': Proxy, tag: string)
    requires p' == p
    ensures CutoverStep(p, p', tag, Some(NotAttempted), false) && CutoverStep(p, p', tag, Some(NotAttempted), true)
  {
  }

  lemma StepOf(p: Proxy, p': Proxy, tag: string, err: Option<CutoverError>, sequenced: bool)
    requires if err == Some(PullFailed) then p' == p
             else if sequenced then SequencedStep(p, p', tag, err) else ZeroGapStep(p, p', tag, err)
    ensures CutoverStep(p, p', tag, err, sequenced)
  {
  }

  lemma KeptOps(k: Container)
    ensures NotRecreated(k, k) && NotRecreated(k, StopOf(k)) && NotRecreated(k, StartOf(StopOf(k)))
  {
  }

  lemma KeptOn(p0: Proxy, t: seq<Snap>, t': seq<Snap>)
    requires t <= t' && forall s | s in t'[|t|..] :: NotRecreated(p0.At(p0.Old()), s.p.At(p0.Old()))
    ensures AllKept(p0, t) ==> AllKept(p0, t')
    ensures AllServed(p0, t) && (forall s | s in t'[|t|..] :: Served(p0, s)) ==> AllServed(p0, t')
  {
    assert t' == t + t'[|t|..];
  }

  // The commands so far, up to the start, the flip and the end.
  lemma ZeroGapRan(t0: seq<Snap>, t1: seq<Snap>, t2: seq<Snap>, t3: seq<Snap>, err: Option<CutoverError>, next: Color, tag: string, gpu: string)
    requires t0 <= t1 <= t2 <= t3 && |t1| == |t0| + 1 && t1[|t0|].cmd == Up(next, tag, gpu) && (t1[|t0|].ok <==> err != Some(StartFailed))
    requires match err
             case Some(StartFailed) => t3 == t1
             case Some(ProbeFailed) => |t2| == |t1| + 1 && t2[|t1|].cmd == Stop(next) && t3 == t2
             case Some(FlipFailed) =>
               && t3 == t2 && !LastOk(t2[|t1|..])
               && (Commands(t2[|t1|..], [WriteFragment(next)]) || Commands(t2[|t1|..], [WriteFragment(next), Reload]))
             case _ =>
               && (err == None || err == Some(StopLastFailed))
               && Commands(t2[|t1|..], [WriteFragment(next), Reload]) && LastOk(t2[|t1|..])
               && |t3| == |t2| + 1 && t3[|t2|].cmd == Stop(Other(next)) && (t3[|t2|].ok <==> err == None)
    ensures ZeroGapCommands(t3[|t0|..], err, next, tag, gpu)
  {
    assert t3[|t0|..] == [t1[|t0|]] + t2[|t1|..] + t3[|t2|..];
  }

  lemma SequencedRan(t0: seq<Snap>, t1: seq<Snap>, t2: seq<Snap>, t3: seq<Snap>, err: Option<CutoverError>, next: Color, tag: string, gpu: string)
    requires t0 <= t1 <= t2 <= t3 && |t1| == |t0| + 1 && t1[|t0|].cmd == Stop(Other(next)) && (t1[|t0|].ok <==> err != Some(StopFirstFailed))
    requires err == Some(StopFirstFailed) ==> t3 == t1
    requires err != Some(StopFirstFailed) ==>
               && |t2| == |t1| + 1 && t2[|t1|].cmd == Up(next, tag, gpu) && (t2[|t1|].ok <==> err != Some(StartFailed))
               && match err
                  case Some(StartFailed) => t3 == t2
                  case Some(ProbeFailed) => |t3| == |t2| + 1 && t3[|t2|].cmd == Restart(Other(next))
                  case Some(FlipFailed) =>
                    && !LastOk(t3[|t2|..])
                    && (Commands(t3[|t2|..], [WriteFragment(next)]) || Commands(t3[|t2|..], [WriteFragment(next), Reload]))
                  case _ => err == None && Commands(t3[|t2|..], [WriteFragment(next), Reload]) && LastOk(t3[|t2|..])
    ensures SequencedCommands(t3[|t0|..], err, next, tag, gpu)
  {
    assert t3[|t0|..] == [t1[|t0|]] + t2[|t1|..] + t3[|t2|..];
  }

  // ----- runs of cutovers

  datatype Cutover = Cutover(tag: string, err: Option<CutoverError>, sequenced: bool)

  // Succeeded, or failed so that the old color serves on alone: before any command that
  // matters; at a first stop that had no effect; with zero gap, at the start, with the new
  // color down; or at readiness, with the new color down and the old one as it was.
  ghost predicate Contained(p: Proxy, p': Proxy, c: Cutover) {
    match c.err
    case None => true
    case Some(NotAttempted) => true
    case Some(PullFailed) => true
    case Some(StopFirstFailed) => p'.At(p.Old()) == p.At(p.Old())
    case Some(StartFailed) => !c.sequenced && !p'.At(Other(p.Old())).Running?
    case Some(ProbeFailed) => !p'.At(Other(p.Old())).Running? && p'.At(p.Old()) == p.At(p.Old())
    case Some(FlipFailed) => false
    case Some(StopLastFailed) => false
  }

  // The proxy serves this tag: nginx is on the one color that is up, and it has the tag.
  ghost predicate Serves(p: Proxy, tag: string) {
    p.loaded.Some? && Steady(p, p.loaded.value, tag)
  }

  // A failed cutover to another tag leaves the service on its tag if and only if the
  // failure was contained.
  lemma ContainedExact(p: Proxy, p': Proxy, c: Cutover, tag: string)
    requires CutoverStep(p, p', c.tag, c.err, c.sequenced) && Serves(p, tag) && c.err.Some? && c.tag != tag
    ensures Serves(p', tag) <==> Contained(p, p', c)
  {
  }

  ghost predicate ContainedRun(ps: seq<Proxy>, cs: seq<Cutover>) {
    && |ps| == |cs| + 1
    && forall i | 0 <= i < |cs| ::
         CutoverStep(ps[i], ps[i + 1], cs[i].tag, cs[i].err, cs[i].sequenced) && Contained(ps[i], ps[i + 1], cs[i])
  }

  function Successes(cs: seq<Cutover>): nat {
    if cs == [] then 0 else Successes(cs[..|cs| - 1]) + if cs[|cs| - 1].err == None then 1 else 0
  }

  // The tag of the last successful cutover.
  function LastLive(cs: seq<Cutover>, start: string): string {
    if cs == [] then start
    else if cs[|cs| - 1].err == None then cs[|cs| - 1].tag
    else LastLive(cs[..|cs| - 1], start)
  }

  function Turned(c: Color, n: nat): Color {
    if n % 2 == 0 then c else Other(c)
  }

  lemma ContainedStep(p: Proxy, p': Proxy, c: Cutover, color: Color, tag: string)
    requires CutoverStep(p, p', c.tag, c.err, c.sequenced) && Contained(p, p', c) && Steady(p, color, tag)
    ensures if c.err == None then Steady(p', Other(color), c.tag) else Steady(p', color, tag)
  {
  }

  // Through any sequence of such cutovers exactly the upstream color is up, the colors
  // alternate on successes, and the tag served is that of the last success.
  lemma {:induction false} ColorsAlternate(ps: seq<Proxy>, cs: seq<Cutover>, color: Color, tag: string)
    requires ContainedRun(ps, cs) && Steady(ps[0], color, tag)
    ensures Steady(ps[|cs|], Turned(color, Successes(cs)), LastLive(cs, tag))
  {
    if cs != [] {
      var n := |cs| - 1;
      ColorsAlternate(ps[..n + 1], cs[..n], color, tag);
      ContainedStep(ps[n], ps[n + 1], cs[n], Turned(color, Successes(cs[..n])), LastLive(cs[..n], tag));
    }
  }

  // After a failed probe on the stop-old-first path the next cutover takes the old color
  // for the old one again if and only if it is blue and its restart worked, or it is green
  // and the new color is down. A restarted old color is the container it was.
  lemma AfterFailedSequencedProbe(p: Proxy, p': Proxy, tag: string)
    requires SequencedStep(p, p', tag, Some(ProbeFailed))
    ensures p'.Old() == p.Old() <==> if p.Old().Blue? then p'.blue.Running? else !p'.blue.Running?
    ensures p'.At(p.Old()).Running? && p.At(p.Old()).Running? ==> p'.At(p.Old()) == p.At(p.Old())
  {
  }

  // Both ways to lose track are there: with green serving, the new blue color may stay up
  // unready and is then taken for the one that serves; and with blue serving, its restart
  // may fail.
  lemma ServingColorMistaken(tag: string)
    ensures var p := Proxy(Absent, Running("v1", 0), Some(Green), Some(Green), 1);
            var p' := Proxy(Running(tag, 1), Running("v1", 0), Some(Green), Some(Green), 2);
            Serves(p, "v1") && SequencedStep(p, p', tag, Some(ProbeFailed)) && p.Old() == Green && p'.Old() == Blue
    ensures var p := Proxy(Running("v1", 0), Absent, Some(Blue), Some(Blue), 1);
            var p' := Proxy(Stopped("v1", 0), Running(tag, 1), Some(Blue), Some(Blue), 2);
            Serves(p, "v1") && SequencedStep(p, p', tag, Some(ProbeFailed)) && p.Old() == Blue && p'.Old() == Green
  {
  }

  // And a new color that exits at once leaves a restarted old one serving alone.
  lemma ExitedColorIsContained(tag: string)
    ensures var p := Proxy(Absent, Running("v1", 0), Some(Green), Some(Green), 1);
            var p' := Proxy(Stopped(tag, 1), Running("v1", 0), Some(Green), Some(Green), 2);
            && SequencedStep(p, p', tag, Some(ProbeFailed)) && p'.Old() == p.Old()
            && Serves(p', "v1") && Contained(p, p', Cutover(tag, Some(ProbeFailed), true))
  {
  }
}

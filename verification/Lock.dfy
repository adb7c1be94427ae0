// engine/lock.go: the mkdir lock, as a state machine over any number of interleaved
// clients, and the wait loop of one client.
module Lock {
  import opened History

  // Out: not in the critical section (trying, waiting or done). Inside it: Entered,
  // then Loaded with the history read, then Recorded with the history that finalize
  // hands to prune, then Leaving.
  datatype Client = Out | Entered | Loaded(h: seq<Record>) | Recorded(h: seq<Record>) | Leaving | Crashed
  {
    predicate Inside() { !Out? && !Crashed? }
  }

  // held: the lock directory exists; file: the history on the host.
  datatype World = World(held: bool, file: seq<Record>, clients: map<nat, Client>)

  datatype Event =
    | TryOk                                // mkdir made the directory
    | TryLost                              // it did, but the client saw an error
    | TryFail                              // it did not: held by another, or an error
    | Freeze                               // a manual lock acquire, never released
    | Load                                 // read the history
    | Append(r: Record)                    // success record written
    | AppendFails(r: Record, took: bool)   // error seen; the line may be there
    | Fail(r: Record, took: bool)          // failure record, best effort
    | Prune                                // uses the history in memory
    | Quit                                 // refused or skipped: return without a record
    | Release(took: bool)                  // rmdir, best effort
    | Crash

  predicate Enabled(w: World, c: nat, e: Event) {
    && c in w.clients
    && match e
       case TryOk => w.clients[c].Out? && !w.held
       case TryLost => w.clients[c].Out? && !w.held
       case TryFail => w.clients[c].Out?
       case Freeze => w.clients[c].Out? && !w.held
       case Load => w.clients[c].Entered?
       case Append(_) => w.clients[c].Loaded?
       case AppendFails(_, _) => w.clients[c].Loaded?
       case Fail(_, _) => w.clients[c].Loaded?
       case Prune => w.clients[c].Recorded?
       case Quit => w.clients[c].Entered? || w.clients[c].Loaded?
       case Release(_) => w.clients[c].Leaving?
       case Crash => !w.clients[c].Crashed?
  }

  function Next(w: World, c: nat, e: Event): World
    requires Enabled(w, c, e)
  {
    var to := (s: Client) => w.clients[c := s];
    match e
    case TryOk => w.(held := true, clients := to(Entered))
    case TryLost => w.(held := true)
    case TryFail => w
    case Freeze => w.(held := true)
    case Load => w.(clients := to(Loaded(w.file)))
    case Append(r) => w.(file := w.file + [r], clients := to(Recorded(w.clients[c].h + [r])))
    case AppendFails(r, took) => w.(file := if took then w.file + [r] else w.file, clients := to(Leaving))
    case Fail(r, took) => w.(file := if took then w.file + [r] else w.file, clients := to(Leaving))
    case Prune => w.(clients := to(Leaving))
    case Quit => w.(clients := to(Leaving))
    case Release(took) => w.(held := w.held && !took, clients := to(Out))
    case Crash => w.(clients := to(Crashed))
  }

  // ----- safety

  ghost predicate Exclusive(w: World) {
    forall c, d | c in w.clients && d in w.clients && w.clients[c].Inside() && w.clients[d].Inside() :: c == d
  }

  // The history a client holds in memory is the one on the host.
  ghost predicate MemoryIsFile(w: World) {
    forall c | c in w.clients && (w.clients[c].Loaded? || w.clients[c].Recorded?) :: w.clients[c].h == w.file
  }

  ghost predicate Inv(w: World) {
    && Exclusive(w)
    && (forall c | c in w.clients && w.clients[c].Inside() :: w.held)
    && MemoryIsFile(w)
  }

  lemma StepKeepsInv(w: World, c: nat, e: Event)
    requires Inv(w) && Enabled(w, c, e)
    ensures Inv(Next(w, c, e))
  {
    var w' := Next(w, c, e);
    forall d | d in w'.clients && w'.clients[d].Inside() ensures w'.held {
      assert d != c ==> w.clients[d].Inside();
    }
    forall d | d in w'.clients && (w'.clients[d].Loaded? || w'.clients[d].Recorded?) ensures w'.clients[d].h == w'.file {
      assert d != c ==> w.clients[d].Inside();
    }
  }

  datatype Step = Step(c: nat, e: Event)

  ghost predicate IsRun(ws: seq<World>, steps: seq<Step>) {
    && |ws| == |steps| + 1
    && forall i | 0 <= i < |steps| :: Enabled(ws[i], steps[i].c, steps[i].e) && ws[i + 1] == Next(ws[i], steps[i].c, steps[i].e)
  }

  // Any number of clients trying, waiting, crashing, or seeing an error although their
  // mkdir took effect: at most one is inside, and what it hands to prune is the history
  // on the host, so not reading it again is sound.
  lemma {:induction false} MutualExclusion(ws: seq<World>, steps: seq<Step>)
    requires IsRun(ws, steps) && forall c | c in ws[0].clients :: !ws[0].clients[c].Inside()
    ensures Inv(ws[|steps|])
  {
    if steps != [] {
      var n := |steps| - 1;
      MutualExclusion(ws[..n + 1], steps[..n]);
      StepKeepsInv(ws[n], steps[n].c, steps[n].e);
    }
  }

  ghost predicate Stale(w: World) {
    w.held && forall c | c in w.clients :: !w.clients[c].Inside()
  }

  // The price: a lock left by a crash, a lost reply, a failed release or a manual
  // acquire is never entered again, by any client in any run.
  lemma {:induction false} StaleForever(ws: seq<World>, steps: seq<Step>)
    requires IsRun(ws, steps) && Stale(ws[0])
    ensures Stale(ws[|steps|]) && ws[|steps|].file == ws[0].file
  {
    if steps != [] {
      var n := |steps| - 1;
      StaleForever(ws[..n + 1], steps[..n]);
      assert Enabled(ws[n], steps[n].c, steps[n].e);
    }
  }

  // How a lock goes stale: a reply is lost, it is taken by hand, or the one client inside
  // crashes or cannot give it back.
  lemma GoesStale(w: World, c: nat)
    requires Inv(w) && c in w.clients
    ensures w.clients[c].Out? && !w.held ==> Stale(Next(w, c, TryLost)) && Stale(Next(w, c, Freeze))
    ensures w.clients[c].Inside() ==> Stale(Next(w, c, Crash))
    ensures w.clients[c].Leaving? ==> Stale(Next(w, c, Release(false)))
  {
  }

  // A lock that is free is taken, used and given back: a client that nothing disturbs
  // leaves its record and a free lock.
  lemma FreeLockServes(w: World, c: nat, r: Record) returns (ws: seq<World>, steps: seq<Step>)
    requires c in w.clients && w.clients[c].Out? && !w.held
    ensures IsRun(ws, steps) && ws[0] == w && steps != []
    ensures ws[|steps|] == w.(file := w.file + [r])
  {
    var w1 := w.(held := true, clients := w.clients[c := Entered]);
    var w2 := w1.(clients := w1.clients[c := Loaded(w.file)]);
    var w3 := w2.(file := w.file + [r], clients := w2.clients[c := Recorded(w.file + [r])]);
    var w4 := w3.(clients := w3.clients[c := Leaving]);
    var w5 := w4.(held := false, clients := w4.clients[c := Out]);
    ws := [w, w1, w2, w3, w4, w5];
    steps := [Step(c, TryOk), Step(c, Load), Step(c, Append(r)), Step(c, Prune), Step(c, Release(true))];
    assert w5.clients == w.clients;
  }

  // ----- the wait loop

  // One attempt of the wait loop: how much longer than asked the timer slept, how long
  // the mkdir took, whether it succeeded, whether the context was cancelled meanwhile.
  datatype Attempt = Attempt(oversleep: nat, latency: nat, free: bool, cancelled: bool)

  datatype WaitResult = Acquired | GaveUp | Cancelled

  function CeilDiv(a: nat, b: nat): nat
    requires b > 0
  {
    (a + b - 1) / b
  }

  lemma CeilDivBound(k: nat, a: nat, b: nat)
    requires b > 0 && (k > 0 ==> (k - 1) * b < a)
    ensures k <= CeilDiv(a, b)
  {
    if k > 0 {
      assert CeilDiv(a, b) * b >= a;
      LessByFactor(k - 1, CeilDiv(a, b), b);
    }
  }

  lemma LessByFactor(x: int, y: int, b: nat)
    requires x * b < y * b
    ensures x < y
  {
  }

  // The time after the i-th retry, or with 0 after the first attempt: each retry comes
  // after the poll interval, or at the deadline if that is sooner.
  ghost function Clock(env: nat -> Attempt, wait: int, poll: nat, start: nat, i: nat): int {
    if i == 0 then start + env(0).latency
    else
      var before := Clock(env, wait, poll, start, i - 1);
      var left := start + env(0).latency + wait - before;
      before + (if left < 0 then 0 else if left < poll then left else poll) + env(i).oversleep + env(i).latency
  }

  lemma ClockNext(env: nat -> Attempt, wait: int, poll: nat, start: nat, i: nat)
    ensures Clock(env, wait, poll, start, 0) == start + env(0).latency
    ensures var before := Clock(env, wait, poll, start, i);
            var left := start + env(0).latency + wait - before;
            Clock(env, wait, poll, start, i + 1)
            == before + (if left < 0 then 0 else if left < poll then left else poll) + env(i + 1).oversleep + env(i + 1).latency
  {
  }

  // k full sleeps lie behind, and the deadline was not reached by them alone.
  ghost predicate Polled(k: nat, poll: nat, wait: int, elapsed: int) {
    elapsed >= k * poll && k * poll < wait
  }

  lemma PolledNone(poll: nat, wait: int)
    requires wait > 0
    ensures Polled(0, poll, wait, 0)
  {
  }

  lemma PolledOnce(k: nat, poll: nat, wait: int, elapsed: int, later: int)
    requires Polled(k, poll, wait, elapsed) && later >= elapsed + poll && later < wait
    ensures Polled(k + 1, poll, wait, later)
  {
    assert (k + 1) * poll == k * poll + poll;
  }

  lemma PolledBound(k: nat, poll: nat, wait: int, elapsed: int)
    requires poll > 0 && wait > 0 && Polled(k, poll, wait, elapsed)
    ensures k + 1 <= CeilDiv(wait, poll)
  {
    CeilDivBound(k + 1, wait, poll);
  }

  // acquireLockWait, with the clock explicit. tries counts mkdir commands.
  method AcquireLockWait(env: nat -> Attempt, wait: int, poll: nat, start: nat)
    returns (result: WaitResult, tries: nat, now: nat)
    requires poll > 0
    ensures tries >= 1 && tries <= 1 + CeilDiv(if wait > 0 then wait else 0, poll)
    ensures result.Acquired? <==> (env(tries - 1).free && (tries > 1 ==> !env(tries - 1).cancelled))
    ensures forall i | 0 <= i < tries - 1 :: !env(i).free
    // Fail fast without a wait; otherwise never before the deadline, and not without a retry.
    ensures result.GaveUp? && wait > 0 ==> now >= start + env(0).latency + wait && tries >= 2
    ensures wait <= 0 ==> tries == 1 && !result.Cancelled?
    ensures result.Cancelled? ==> env(tries).cancelled
    ensures result.GaveUp? ==> !env(tries - 1).free
    // When it looks at the lock, and how it comes to give up.
    ensures now == Clock(env, wait, poll, start, tries - 1)
    ensures forall i | 0 < i < tries - 1 :: Clock(env, wait, poll, start, i) < start + env(0).latency + wait
    ensures forall i | 0 < i < tries :: !env(i).cancelled
    ensures result.Cancelled? && tries > 1 ==> now < start + env(0).latency + wait
  {
    hide Clock, Polled, CeilDiv;
    assert CeilDiv(0, poll) >= 0;
    ClockNext(env, wait, poll, start, 0);
    now := start + env(0).latency;
    tries := 1;
    if env(0).free {
      return Acquired, tries, now;
    }
    if wait <= 0 {
      return GaveUp, tries, now;
    }
    var deadline := now + wait;
    ghost var k: nat, first := 0, now;
    PolledNone(poll, wait);
    while true
      invariant tries == k + 1 && first <= now && Polled(k, poll, wait, now - first)
      invariant k > 0 ==> now < deadline
      invariant forall i | 0 <= i < tries :: !env(i).free
      invariant forall i | 0 < i < tries :: !env(i).cancelled
      invariant now == Clock(env, wait, poll, start, k) && deadline == first + wait
      invariant forall i | 0 < i <= k :: Clock(env, wait, poll, start, i) < deadline
      decreases deadline - now
    {
      var sleep := poll;
      var remaining := deadline - now;
      if remaining < sleep {
        sleep := remaining;
      }
      if sleep < 0 {
        sleep := 0;
      }
      ClockNext(env, wait, poll, start, k);
      var a := env(tries);
      if a.cancelled {
        PolledBound(k, poll, wait, now - first);
        return Cancelled, tries, now;
      }
      PolledBound(k, poll, wait, now - first);
      ghost var before := now;
      now := now + sleep + a.oversleep;
      tries := tries + 1;
      now := now + a.latency;
      if a.free {
        return Acquired, tries, now;
      }
      if now >= deadline {
        return GaveUp, tries, now;
      }
      assert sleep == poll;
      PolledOnce(k, poll, wait, before - first, now - first);
      k := k + 1;
    }
  }
}

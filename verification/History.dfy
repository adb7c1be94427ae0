// engine/history.go and engine.go, retainedTags: what is derived from the append-only
// deploy history.
module History {
  import opened Wrappers
  import opened Order

  // ts, performer and services are not read back by anything below.
  datatype Record = Record(tag: string, outcome: string, configHash: string)
  {
    predicate Success() { outcome == "deployed" || outcome == "rolled-back" }
  }

  // ----- the reference: success tags by recency, a repeated tag moving to the front

  function Without(tags: seq<string>, drop: set<string>): seq<string> {
    if tags == [] then []
    else if tags[0] in drop then Without(tags[1..], drop)
    else [tags[0]] + Without(tags[1..], drop)
  }

  function ByRecency(h: seq<Record>): seq<string> {
    if h == [] then []
    else
      var front, last := ByRecency(h[..|h| - 1]), h[|h| - 1];
      if last.Success() then [last.tag] + Without(front, {last.tag}) else front
  }

  function FirstOf(tags: seq<string>, n: int): seq<string> {
    if n <= 0 then [] else if n >= |tags| then tags else tags[..n]
  }

  // The tags that may be rolled back to and that prune spares.
  function Window(h: seq<Record>, n: int): seq<string> {
    FirstOf(ByRecency(h), n)
  }

  // ----- facts about Without

  lemma {:induction false} WithoutMembers(tags: seq<string>, drop: set<string>)
    ensures forall t :: t in Without(tags, drop) <==> t in tags && t !in drop
    ensures |Without(tags, drop)| <= |tags|
  {
    if tags != [] {
      WithoutMembers(tags[1..], drop);
      assert forall t :: t in tags <==> t == tags[0] || t in tags[1..];
    }
  }

  lemma {:induction false} WithoutTwice(tags: seq<string>, a: set<string>, b: set<string>)
    ensures Without(Without(tags, a), b) == Without(tags, a + b)
  {
    if tags != [] {
      WithoutTwice(tags[1..], a, b);
      if tags[0] !in a {
        assert ([tags[0]] + Without(tags[1..], a))[1..] == Without(tags[1..], a);
      }
    }
  }

  lemma {:induction false} WithoutAbsent(tags: seq<string>, drop: set<string>)
    requires forall t | t in tags :: t !in drop
    ensures Without(tags, drop) == tags
  {
    if tags != [] {
      WithoutAbsent(tags[1..], drop);
    }
  }

  ghost predicate NoDup(tags: seq<string>) {
    forall i, j | 0 <= i < j < |tags| :: tags[i] != tags[j]
  }

  lemma {:induction false} WithoutNoDup(tags: seq<string>, drop: set<string>)
    requires NoDup(tags)
    ensures NoDup(Without(tags, drop))
  {
    if tags != [] {
      WithoutNoDup(tags[1..], drop);
      WithoutMembers(tags[1..], drop);
    }
  }

  // ----- the window

  ghost predicate Deployed(h: seq<Record>, tag: string) {
    exists i :: 0 <= i < |h| && h[i].Success() && h[i].tag == tag
  }

  // The position after the last success with that tag; 0 when there is none.
  function LastSuccess(h: seq<Record>, tag: string): nat {
    if h == [] then 0
    else if h[|h| - 1].Success() && h[|h| - 1].tag == tag then |h|
    else LastSuccess(h[..|h| - 1], tag)
  }

  lemma {:induction false} LastSuccessBound(h: seq<Record>, tag: string)
    ensures LastSuccess(h, tag) <= |h|
    ensures LastSuccess(h, tag) > 0 <==> Deployed(h, tag)
  {
    if h != [] {
      LastSuccessBound(h[..|h| - 1], tag);
      if Deployed(h[..|h| - 1], tag) {
        var i :| 0 <= i < |h| - 1 && h[..|h| - 1][i].Success() && h[..|h| - 1][i].tag == tag;
        assert h[i].Success() && h[i].tag == tag;
      }
    }
  }

  // The recency list holds every successfully deployed tag once, newest first.
  lemma {:induction false} RecencyExact(h: seq<Record>)
    ensures NoDup(ByRecency(h))
    ensures forall t :: t in ByRecency(h) <==> Deployed(h, t)
    ensures forall i, j | 0 <= i < j < |ByRecency(h)| :: LastSuccess(h, ByRecency(h)[i]) > LastSuccess(h, ByRecency(h)[j])
  {
    if h != [] {
      var front, last := h[..|h| - 1], h[|h| - 1];
      RecencyExact(front);
      forall t ensures Deployed(h, t) <==> Deployed(front, t) || (last.Success() && last.tag == t) {
        LastSuccessBound(h, t);
        LastSuccessBound(front, t);
      }
      if last.Success() {
        RecencyPushed(front, last);
      }
    }
  }

  lemma RecencyPushed(front: seq<Record>, last: Record)
    requires last.Success() && NoDup(ByRecency(front))
    requires forall i, j | 0 <= i < j < |ByRecency(front)| ::
               LastSuccess(front, ByRecency(front)[i]) > LastSuccess(front, ByRecency(front)[j])
    ensures var tags, h := ByRecency(front + [last]), front + [last];
            && tags == [last.tag] + Without(ByRecency(front), {last.tag})
            && NoDup(tags)
            && (forall t :: t in tags <==> t == last.tag || t in ByRecency(front))
            && forall i, j | 0 <= i < j < |tags| :: LastSuccess(h, tags[i]) > LastSuccess(h, tags[j])
  {
    var h := front + [last];
    assert h[..|h| - 1] == front && h[|h| - 1] == last;
    var earlier := ByRecency(front);
    var rest := Without(earlier, {last.tag});
    WithoutMembers(earlier, {last.tag});
    WithoutNoDup(earlier, {last.tag});
    WithoutOrdered(front, earlier, {last.tag});
    assert ByRecency(h) == [last.tag] + rest;
    hide ByRecency, Without;
    forall t | t in rest ensures LastSuccess(h, t) == LastSuccess(front, t) < LastSuccess(h, last.tag) {
      LastSuccessBound(front, t);
    }
    OrderedPushed(h, last.tag, rest);
  }

  lemma OrderedPushed(h: seq<Record>, tag: string, rest: seq<string>)
    requires forall t | t in rest :: LastSuccess(h, t) < LastSuccess(h, tag)
    requires forall i, j | 0 <= i < j < |rest| :: LastSuccess(h, rest[i]) > LastSuccess(h, rest[j])
    ensures var tags := [tag] + rest;
            forall i, j | 0 <= i < j < |tags| :: LastSuccess(h, tags[i]) > LastSuccess(h, tags[j])
  {
    hide LastSuccess;
    var tags := [tag] + rest;
    forall i, j | 0 <= i < j < |tags| ensures LastSuccess(h, tags[i]) > LastSuccess(h, tags[j]) {
      assert tags[j] == rest[j - 1] && rest[j - 1] in rest;
      assert i > 0 ==> tags[i] == rest[i - 1];
    }
  }

  lemma {:induction false} WithoutOrdered(h: seq<Record>, tags: seq<string>, drop: set<string>)
    requires forall i, j | 0 <= i < j < |tags| :: LastSuccess(h, tags[i]) > LastSuccess(h, tags[j])
    ensures var rest := Without(tags, drop);
            forall i, j | 0 <= i < j < |rest| :: LastSuccess(h, rest[i]) > LastSuccess(h, rest[j])
  {
    if tags != [] {
      WithoutOrdered(h, tags[1..], drop);
      WithoutMembers(tags[1..], drop);
      var rest := Without(tags[1..], drop);
      forall t | t in rest ensures LastSuccess(h, tags[0]) > LastSuccess(h, t) {
        var j :| 0 <= j < |tags[1..]| && tags[1..][j] == t;
        assert tags[j + 1] == t;
      }
    }
  }

  // Key to retention: a success brings nothing into the window but its own tag, which
  // it puts first; a failure changes nothing.
  lemma WindowAfter(h: seq<Record>, r: Record, n: int)
    ensures !r.Success() ==> Window(h + [r], n) == Window(h, n)
    ensures r.Success() && n >= 1 ==> Window(h + [r], n) != [] && Window(h + [r], n)[0] == r.tag
    ensures r.Success() ==> forall t | t in Window(h + [r], n) :: t == r.tag || t in Window(h, n)
  {
    assert (h + [r])[..|h + [r]| - 1] == h;
    if r.Success() {
      RecencyExact(h);
      WithoutShifts(ByRecency(h), r.tag);
      hide ByRecency, Without;
      FirstsOfShifted(ByRecency(h), Without(ByRecency(h), {r.tag}), r.tag, n);
    }
  }

  lemma FirstsOfShifted(tags: seq<string>, rest: seq<string>, tag: string, n: int)
    requires |rest| <= |tags|
    requires forall i | 0 <= i < |rest| :: rest[i] == tags[i] || (i + 1 < |tags| && rest[i] == tags[i + 1])
    ensures forall t | t in FirstOf([tag] + rest, n) :: t == tag || t in FirstOf(tags, n)
  {
    var after := FirstOf([tag] + rest, n);
    forall i | 0 < i < |after| ensures after[i] in FirstOf(tags, n) {
      assert after[i] == rest[i - 1];
      assert FirstOf(tags, n)[i - 1] == tags[i - 1];
      assert i < |tags| ==> FirstOf(tags, n)[i] == tags[i];
    }
  }

  // A failure at the end of the history leaves the anchor, the previous tag and the
  // window as they were; only the failure that is shown changes.
  lemma FailureChangesNothing(h: seq<Record>, r: Record, n: int)
    requires !r.Success()
    ensures Anchor(h + [r]) == Anchor(h) && Previous(h + [r]) == Previous(h) && Window(h + [r], n) == Window(h, n)
    ensures LastFailure(h + [r]) == Some(r)
  {
    assert (h + [r])[..|h + [r]| - 1] == h;
    WindowStartsWithAnchor(h);
    WindowStartsWithAnchor(h + [r]);
  }

  // Dropping one tag from a duplicate-free list moves each later tag up by at most one.
  lemma {:induction false} WithoutShifts(tags: seq<string>, tag: string)
    requires NoDup(tags)
    ensures var rest := Without(tags, {tag});
            && |rest| <= |tags|
            && forall i | 0 <= i < |rest| :: rest[i] == tags[i] || (i + 1 < |tags| && rest[i] == tags[i + 1])
  {
    if tags != [] {
      WithoutShifts(tags[1..], tag);
      if tags[0] == tag {
        WithoutAbsent(tags[1..], {tag});
      }
    }
  }

  // The position is that of a success with the tag, and there is no later one.
  lemma {:induction false} LastSuccessExact(h: seq<Record>, tag: string)
    ensures var k := LastSuccess(h, tag);
            && k <= |h|
            && (k > 0 ==> h[k - 1].Success() && h[k - 1].tag == tag)
            && forall j | k <= j < |h| :: !(h[j].Success() && h[j].tag == tag)
  {
    if h != [] {
      LastSuccessExact(h[..|h| - 1], tag);
    }
  }

  // The tags with a later success than this one's.
  ghost function Newer(h: seq<Record>, tag: string): set<string> {
    set r | r in h && r.Success() && LastSuccess(h, r.tag) > LastSuccess(h, tag) :: r.tag
  }

  // The window has exactly the deployed tags with fewer than n newer ones, each once,
  // newest first.
  lemma WindowExact(h: seq<Record>, n: int)
    ensures forall t :: t in Window(h, n) <==> Deployed(h, t) && |Newer(h, t)| < n
    ensures NoDup(Window(h, n))
    ensures forall i, j | 0 <= i < j < |Window(h, n)| :: LastSuccess(h, Window(h, n)[i]) > LastSuccess(h, Window(h, n)[j])
  {
    RecencyExact(h);
    var tags := ByRecency(h);
    forall t ensures t in Window(h, n) <==> Deployed(h, t) && |Newer(h, t)| < n {
      if t in tags {
        var i :| 0 <= i < |tags| && tags[i] == t;
        NewerAre(h, i);
        InFirst(tags, i, n);
      } else {
        FirstsAreSome(tags, n, t);
      }
    }
    assert forall i | 0 <= i < |Window(h, n)| :: Window(h, n)[i] == tags[i];
  }

  lemma InFirst(tags: seq<string>, i: nat, n: int)
    requires i < |tags| && NoDup(tags)
    ensures tags[i] in FirstOf(tags, n) <==> i < n
  {
    if i < n {
      assert FirstOf(tags, n)[i] == tags[i];
    }
  }

  lemma FirstsAreSome(tags: seq<string>, n: int, t: string)
    ensures t in FirstOf(tags, n) ==> t in tags
  {
  }

  lemma NewerAre(h: seq<Record>, i: nat)
    requires i < |ByRecency(h)|
    ensures |Newer(h, ByRecency(h)[i])| == i
  {
    RecencyExact(h);
    var tags := ByRecency(h);
    var first := Firsts(tags, i);
    hide ByRecency, LastSuccess;
    forall u ensures u in Newer(h, tags[i]) <==> u in first {
      if u in Newer(h, tags[i]) {
        var r :| r in h && r.Success() && r.tag == u;
        assert Deployed(h, u) && u in tags;
        var j :| 0 <= j < |tags| && tags[j] == u;
        assert j < i && tags[..i][j] == u;
      }
      if u in first {
        var j :| 0 <= j < i && tags[..i][j] == u;
        assert tags[j] == u && Deployed(h, u);
        var k :| 0 <= k < |h| && h[k].Success() && h[k].tag == u;
        assert h[k] in h;
      }
    }
    assert Newer(h, tags[i]) == first;
    FirstCount(tags, i);
  }

  ghost function Firsts(tags: seq<string>, i: nat): set<string>
    requires i <= |tags|
  {
    set t | t in tags[..i]
  }

  lemma {:induction false} FirstCount(tags: seq<string>, i: nat)
    requires i <= |tags| && NoDup(tags)
    ensures |Firsts(tags, i)| == i
  {
    if i > 0 {
      FirstCount(tags, i - 1);
      assert tags[..i] == tags[..i - 1] + [tags[i - 1]];
      assert Firsts(tags, i) == Firsts(tags, i - 1) + {tags[i - 1]};
      assert tags[i - 1] !in Firsts(tags, i - 1);
    }
  }

  // ----- anchor and previous tag

  // The latest success, and the latest one with another tag.
  function Anchor(h: seq<Record>): Option<Record> {
    if h == [] then None
    else if h[|h| - 1].Success() then Some(h[|h| - 1])
    else Anchor(h[..|h| - 1])
  }

  function LatestOther(h: seq<Record>, tag: string): string {
    if h == [] then ""
    else if h[|h| - 1].Success() && h[|h| - 1].tag != tag then h[|h| - 1].tag
    else LatestOther(h[..|h| - 1], tag)
  }

  function Previous(h: seq<Record>): string {
    match Anchor(h)
    case None => ""
    case Some(r) => LatestOther(h, r.tag)
  }

  lemma {:induction false} LatestOtherIsFirst(h: seq<Record>, tag: string)
    ensures var rest := Without(ByRecency(h), {tag}); LatestOther(h, tag) == if rest == [] then "" else rest[0]
  {
    if h != [] {
      var front, last := h[..|h| - 1], h[|h| - 1];
      LatestOtherIsFirst(front, tag);
      if last.Success() && last.tag == tag {
        WithoutTwice(ByRecency(front), {tag}, {tag});
        assert {tag} + {tag} == {tag};
        assert ByRecency(h)[1..] == Without(ByRecency(front), {tag});
      }
    }
  }

  // The anchor's tag and the previous tag are the first two of the recency list.
  lemma {:induction false} WindowStartsWithAnchor(h: seq<Record>)
    ensures Anchor(h).Some? <==> ByRecency(h) != []
    ensures Anchor(h).Some? ==> Anchor(h).value.Success() && ByRecency(h)[0] == Anchor(h).value.tag
    ensures Previous(h) == if |ByRecency(h)| >= 2 then ByRecency(h)[1] else ""
  {
    if h != [] {
      var front, last := h[..|h| - 1], h[|h| - 1];
      WindowStartsWithAnchor(front);
      if last.Success() {
        var rest := Without(ByRecency(front), {last.tag});
        LatestOtherIsFirst(h, last.tag);
        WithoutMembers(ByRecency(front), {last.tag});
        WithoutAbsent(rest, {last.tag});
        assert ByRecency(h)[1..] == rest;
        assert Without(ByRecency(h), {last.tag}) == rest;
      }
    }
  }

  // The anchor is the success after which there is none, and the previous tag is that of
  // the success after which all have the anchor's.
  lemma {:induction false} AnchorExact(h: seq<Record>)
    ensures match Anchor(h)
            case None => forall i | 0 <= i < |h| :: !h[i].Success()
            case Some(r) => exists i :: 0 <= i < |h| && h[i] == r && r.Success() && forall j | i < j < |h| :: !h[j].Success()
  {
    if h != [] && !h[|h| - 1].Success() {
      AnchorExact(h[..|h| - 1]);
      assert forall i | 0 <= i < |h| - 1 :: h[..|h| - 1][i] == h[i];
    }
  }

  ghost predicate LatestOtherAt(h: seq<Record>, tag: string, i: int) {
    0 <= i < |h| && h[i].Success() && h[i].tag != tag && forall j | i < j < |h| && h[j].Success() :: h[j].tag == tag
  }

  lemma {:induction false} LatestOtherExact(h: seq<Record>, tag: string)
    ensures (exists i :: LatestOtherAt(h, tag, i) && h[i].tag == LatestOther(h, tag))
            || (LatestOther(h, tag) == "" && forall i | 0 <= i < |h| && h[i].Success() :: h[i].tag == tag)
  {
    if h != [] {
      var n := |h| - 1;
      assert forall i | 0 <= i < n :: h[..n][i] == h[i];
      if h[n].Success() && h[n].tag != tag {
        assert LatestOtherAt(h, tag, n);
      } else {
        LatestOtherExact(h[..n], tag);
        if i :| LatestOtherAt(h[..n], tag, i) && h[..n][i].tag == LatestOther(h[..n], tag) {
          assert LatestOtherAt(h, tag, i);
        }
      }
    }
  }

  // A rollback makes the old anchor the new previous tag, so two rollbacks cancel.
  lemma RollbackSwaps(h: seq<Record>, r: Record)
    requires Previous(h) != "" && Anchor(h).Some? && r.Success() && r.tag == Previous(h)
    ensures Anchor(h + [r]) == Some(r)
    ensures Anchor(h).value.tag != r.tag
    ensures Anchor(h).value.tag != "" ==> Previous(h + [r]) == Anchor(h).value.tag
  {
    var h' := h + [r];
    assert h'[..|h'| - 1] == h;
    WindowStartsWithAnchor(h);
    WindowStartsWithAnchor(h');
    RecencyExact(h);
    WithoutShifts(ByRecency(h), r.tag);
    var tags := ByRecency(h);
    WithoutMembers(tags, {r.tag});
    assert tags[0] in Without(tags, {r.tag});
    assert Without(tags, {r.tag})[0] == tags[0];
  }

  lemma TwoRollbacksCancel(h: seq<Record>, back: Record, forth: Record)
    requires Anchor(h).Some? && Anchor(h).value.tag != "" && Previous(h) != "" && back.Success() && forth.Success()
    requires back.tag == Previous(h) && forth.tag == Previous(h + [back])
    ensures Anchor(h + [back] + [forth]).value.tag == Anchor(h).value.tag
    ensures Previous(h + [back] + [forth]) == Previous(h)
  {
    RollbackSwaps(h, back);
    RollbackSwaps(h + [back], forth);
  }

  // ----- the loops

  method CurrentRecord(h: seq<Record>) returns (r: Record, ok: bool)
    ensures ok <==> Anchor(h).Some?
    ensures ok ==> Anchor(h) == Some(r)
    ensures ok ==> exists i :: 0 <= i < |h| && h[i] == r && r.Success() && forall j | i < j < |h| :: !h[j].Success()
    ensures !ok ==> forall i | 0 <= i < |h| :: !h[i].Success()
  {
    AnchorExact(h);
    var i := |h|;
    assert h[..i] == h;
    while i > 0
      invariant 0 <= i <= |h|
      invariant Anchor(h) == Anchor(h[..i])
    {
      assert h[..i][..i - 1] == h[..i - 1];
      i := i - 1;
      if h[i].Success() {
        return h[i], true;
      }
    }
    return Record("", "", ""), false;
  }

  // Reading from the newest record back: until a success is met the rest decides alone;
  // after that only a success under another name counts.
  method PreviousTag(h: seq<Record>) returns (tag: string)
    ensures tag == Previous(h)
    // That of the latest success that has another tag than the anchor, if there is one.
    ensures match Anchor(h)
            case None => tag == ""
            case Some(r) =>
              || (exists i :: LatestOtherAt(h, r.tag, i) && h[i].tag == tag)
              || (tag == "" && forall i | 0 <= i < |h| && h[i].Success() :: h[i].tag == r.tag)
  {
    if Anchor(h).Some? {
      LatestOtherExact(h, Anchor(h).value.tag);
    }
    var curTag, foundCur := "", false;
    var i := |h|;
    assert h[..i] == h;
    while i > 0
      invariant 0 <= i <= |h|
      invariant !foundCur ==> Previous(h) == Previous(h[..i])
      invariant foundCur ==> Previous(h) == LatestOther(h[..i], curTag)
    {
      assert h[..i][..i - 1] == h[..i - 1];
      i := i - 1;
      if !h[i].Success() {
        continue;
      }
      if !foundCur {
        curTag, foundCur := h[i].tag, true;
        continue;
      }
      if h[i].tag != curTag {
        return h[i].tag;
      }
    }
    return "";
  }

  method RetainedTags(h: seq<Record>, n: int) returns (tags: seq<string>)
    ensures tags == Window(h, n)
    ensures forall t :: t in tags <==> Deployed(h, t) && |Newer(h, t)| < n
    ensures forall i, j | 0 <= i < j < |tags| :: tags[i] != tags[j] && LastSuccess(h, tags[i]) > LastSuccess(h, tags[j])
  {
    WindowExact(h, n);
    hide LastSuccess, Newer, Deployed, NoDup;
    tags := [];
    var seen: set<string> := {};
    var i := |h|;
    assert h[..i] == h;
    WithoutAbsent(ByRecency(h), {});
    assert [] + ByRecency(h) == ByRecency(h);
    while i > 0 && |tags| < n
      invariant 0 <= i <= |h|
      invariant if n <= 0 then tags == [] else |tags| <= n
      invariant ByRecency(h) == tags + Without(ByRecency(h[..i]), seen)
      invariant forall t :: t in seen <==> t in tags
    {
      i := i - 1;
      ScanBack(h, i, tags, seen);
      if h[i].Success() && h[i].tag !in seen {
        seen := seen + {h[i].tag};
        tags := tags + [h[i].tag];
      }
    }
  }

  lemma ScanBack(h: seq<Record>, i: nat, tags: seq<string>, seen: set<string>)
    requires i < |h| && ByRecency(h) == tags + Without(ByRecency(h[..i + 1]), seen)
    ensures if h[i].Success() && h[i].tag !in seen
            then ByRecency(h) == (tags + [h[i].tag]) + Without(ByRecency(h[..i]), seen + {h[i].tag})
            else ByRecency(h) == tags + Without(ByRecency(h[..i]), seen)
  {
    assert h[..i + 1][..i] == h[..i] && h[..i + 1][i] == h[i];
    if h[i].Success() {
      PushedBack(ByRecency(h), tags, ByRecency(h[..i]), h[i].tag, seen);
    }
  }

  lemma PushedBack(all: seq<string>, tags: seq<string>, front: seq<string>, tag: string, seen: set<string>)
    requires all == tags + Without([tag] + Without(front, {tag}), seen)
    ensures all == if tag in seen then tags + Without(front, seen) else (tags + [tag]) + Without(front, seen + {tag})
  {
    WithoutPushed(front, tag, seen);
    hide Without;
    if tag !in seen {
      Assoc(tags, [tag], Without(front, seen + {tag}));
    }
  }

  lemma WithoutPushed(front: seq<string>, tag: string, seen: set<string>)
    ensures Without([tag] + Without(front, {tag}), seen)
         == if tag in seen then Without(front, seen) else [tag] + Without(front, seen + {tag})
  {
    var pushed := [tag] + Without(front, {tag});
    assert pushed[0] == tag && pushed[1..] == Without(front, {tag});
    WithoutTwice(front, {tag}, seen);
    assert {tag} + seen == if tag in seen then seen else seen + {tag};
  }

  // The failure an operator is shown: only one with nothing successful after it.
  function LastFailure(h: seq<Record>): Option<Record> {
    if h != [] && !h[|h| - 1].Success() then Some(h[|h| - 1]) else None
  }

  // engine/confighash.go, shouldSkip: anchored on the last record overall.
  function ShouldSkip(h: seq<Record>, hash: string, force: bool): bool {
    if force then false
    else
      h != [] && h[|h| - 1].Success() && h[|h| - 1].configHash != "" && h[|h| - 1].configHash == hash
  }

  // A deploy is skipped exactly if it is not forced, nothing failed since the anchor, and
  // the anchor was deployed with the desired config.
  lemma SkipExact(h: seq<Record>, hash: string, force: bool)
    ensures ShouldSkip(h, hash, force) <==>
              && !force && hash != "" && LastFailure(h) == None
              && Anchor(h).Some? && Anchor(h).value.configHash == hash
  {
  }
}

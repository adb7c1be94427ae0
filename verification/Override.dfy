// fleet/override/override.go with the path and image helpers it is diffed through:
// the executor stamps these hashes on containers and the planner recomputes them.
module Override {

  const SEPARATOR := 0x1f as char

  // ----- filepath.Base on a Unix path

  function StripSlashes(path: string): string {
    if path != "" && path[|path| - 1] == '/' then StripSlashes(path[..|path| - 1]) else path
  }

  // The text after the last c; all of it when c does not occur.
  function AfterLast(s: string, c: char): string {
    if c in s then AfterLast(s[1..], c) else s
  }

  function BaseName(path: string): string {
    if path == "" then "."
    else
      var last := AfterLast(StripSlashes(path), '/');
      if last == "" then "/" else last
  }

  lemma {:induction false} AfterLastHasNone(s: string, c: char)
    ensures c !in AfterLast(s, c)
  {
    if c in s {
      AfterLastHasNone(s[1..], c);
    }
  }

  lemma {:induction false} AfterLastOfSuffix(s: string, t: string, c: char)
    requires c !in t
    ensures AfterLast(s + t, c) == AfterLast(s, c) + t
  {
    if c in s {
      assert (s + t)[1..] == s[1..] + t;
      AfterLastOfSuffix(s[1..], t, c);
    }
  }

  lemma {:induction false} AfterLastOccurrence(s: string, c: char)
    ensures AfterLast(s + [c], c) == ""
  {
    if s == "" {
      assert ("" + [c])[1..] == "";
    } else {
      assert (s + [c])[1..] == s[1..] + [c];
      AfterLastOccurrence(s[1..], c);
    }
  }

  // The executor hands the base name to functions that take the base name again;
  // the planner hands them the full path. Both get the same hash.
  lemma BaseNameIdempotent(path: string)
    ensures BaseName(BaseName(path)) == BaseName(path)
  {
    var last := AfterLast(StripSlashes(path), '/');
    if path != "" && last != "" {
      AfterLastHasNone(StripSlashes(path), '/');
      assert last[|last| - 1] in last;
    } else if path != "" {
      assert StripSlashes("/") == "";
    }
  }

  // ----- image references

  function ImageRef(repo: string, tag: string): string {
    repo + ":" + tag
  }

  // fleet/plan/plan.go, tagOf.
  function TagOf(image: string): string {
    var name := AfterLast(image, '/');
    if ':' in name then AfterLast(name, ':') else ""
  }

  predicate TagChar(c: char) {
    'A' <= c <= 'Z' || 'a' <= c <= 'z' || '0' <= c <= '9' || c in "._-"
  }

  // fleet/apply/exec.go, safeTag.
  predicate SafeTag(tag: string) {
    tag != "" && tag[0] !in "._-" && forall c | c in tag :: TagChar(c)
  }

  // The observer reads back the tag the executor deployed, whatever the repository
  // part of the image (registry ports and path slashes included).
  lemma TagRoundTrip(repo: string, tag: string)
    requires SafeTag(tag)
    ensures TagOf(ImageRef(repo, tag)) == tag
  {
    var tail := ":" + tag;
    assert '/' !in tail && ':' !in tag by {
      assert !TagChar('/') && !TagChar(':');
    }
    AfterLastOfSuffix(repo, tail, '/');
    assert ImageRef(repo, tag) == repo + tail;
    var front := AfterLast(repo, '/') + ":";
    assert front + tag == AfterLast(repo, '/') + tail;
    AfterLastOccurrence(AfterLast(repo, '/'), ':');
    AfterLastOfSuffix(front, tag, ':');
    assert (front + tag)[|front| - 1] == ':';
  }

  // ----- hashes

  function Digits(n: nat): string {
    if n < 10 then [(n + '0' as int) as char] else Digits(n / 10) + [(n % 10 + '0' as int) as char]
  }

  function Itoa(n: int): string {
    if n < 0 then "-" + Digits(-n) else Digits(n)
  }

  function Join(parts: seq<string>): string {
    if parts == [] then ""
    else if |parts| == 1 then parts[0]
    else parts[0] + [SEPARATOR] + Join(parts[1..])
  }

  // The digest is represented by the text it is taken over.
  function Hash(parts: seq<string>): string {
    "sha256:" + Join(parts)
  }

  function ReplicaParts(compose: string, template: string, backend: string, replica: int, gpu: int, tag: string): seq<string> {
    [tag, BaseName(compose), template, backend, Itoa(replica), Itoa(gpu)]
  }

  function ReplicaHash(compose: string, template: string, backend: string, replica: int, gpu: int, tag: string): string {
    Hash(ReplicaParts(compose, template, backend, replica, gpu, tag))
  }

  function ServiceHash(compose: string, template: string, service: string, tag: string): string {
    Hash([tag, BaseName(compose), template, service])
  }

  lemma StampedHashIsDiffedHash(compose: string, template: string, backend: string, replica: int, gpu: int, service: string, tag: string)
    ensures ReplicaHash(BaseName(compose), template, backend, replica, gpu, tag)
         == ReplicaHash(compose, template, backend, replica, gpu, tag)
    ensures ServiceHash(BaseName(compose), template, service, tag) == ServiceHash(compose, template, service, tag)
  {
    BaseNameIdempotent(compose);
  }

  ghost predicate Plain(s: string) { SEPARATOR !in s }

  lemma {:induction false} SplitAtSeparator(a: string, b: string, s: string, t: string)
    requires Plain(a) && Plain(b) && a + [SEPARATOR] + s == b + [SEPARATOR] + t
    ensures a == b && s == t
  {
    var x, y := a + [SEPARATOR] + s, b + [SEPARATOR] + t;
    assert x[|a|] == SEPARATOR && y[|b|] == SEPARATOR;
    assert |a| == |b|;
    assert a == x[..|a|] && b == y[..|b|];
    assert s == x[|a| + 1..] && t == y[|b| + 1..];
  }

  lemma {:induction false} JoinInjective(a: seq<string>, b: seq<string>)
    requires |a| == |b| && Join(a) == Join(b)
    requires forall i | 0 <= i < |a| :: Plain(a[i]) && Plain(b[i])
    ensures a == b
  {
    if |a| > 1 {
      SplitAtSeparator(a[0], b[0], Join(a[1..]), Join(b[1..]));
      JoinInjective(a[1..], b[1..]);
      assert a == [a[0]] + a[1..] && b == [b[0]] + b[1..];
    }
  }

  lemma {:induction false} DigitsShape(n: nat)
    ensures Digits(n) != "" && forall c | c in Digits(n) :: '0' <= c <= '9'
  {
    if n >= 10 {
      DigitsShape(n / 10);
    }
  }

  lemma {:induction false} DigitsInjective(m: nat, n: nat)
    requires Digits(m) == Digits(n)
    ensures m == n
  {
    DigitsShape(m / 10);
    DigitsShape(n / 10);
    if m >= 10 && n >= 10 {
      var x, y := Digits(m), Digits(n);
      assert x[..|x| - 1] == Digits(m / 10) && y[..|y| - 1] == Digits(n / 10);
      assert x[|x| - 1] == y[|y| - 1];
      DigitsInjective(m / 10, n / 10);
    }
  }

  lemma ItoaInjective(m: int, n: int)
    requires Itoa(m) == Itoa(n)
    ensures m == n
  {
    DigitsShape(if m < 0 then -m else m);
    DigitsShape(if n < 0 then -n else n);
    var x, y := Itoa(m), Itoa(n);
    assert x[0] in x && y[0] in y;
    assert x[0] == '-' <==> m < 0;
    if m < 0 && n < 0 {
      assert x[1..] == Digits(-m) && y[1..] == Digits(-n);
      DigitsInjective(-m, -n);
    } else {
      DigitsInjective(m, n);
    }
  }

  // Drift detection is exact: two replicas carry the same hash if and only if every
  // field of the tuple agrees (the compose path up to its directory).
  lemma ReplicaHashExact(compose: string, template: string, backend: string, replica: int, gpu: int, tag: string,
                         compose': string, template': string, backend': string, replica': int, gpu': int, tag': string)
    requires Plain(tag) && Plain(BaseName(compose)) && Plain(template) && Plain(backend)
    requires Plain(tag') && Plain(BaseName(compose')) && Plain(template') && Plain(backend')
    ensures (ReplicaHash(compose, template, backend, replica, gpu, tag)
             == ReplicaHash(compose', template', backend', replica', gpu', tag'))
       <==> (BaseName(compose) == BaseName(compose') && template == template' && backend == backend'
             && replica == replica' && gpu == gpu' && tag == tag')
  {
    var a := ReplicaParts(compose, template, backend, replica, gpu, tag);
    var b := ReplicaParts(compose', template', backend', replica', gpu', tag');
    if Hash(a) == Hash(b) {
      assert Join(a) == Hash(a)[7..] && Join(b) == Hash(b)[7..];
      ItoaPlain(replica); ItoaPlain(gpu); ItoaPlain(replica'); ItoaPlain(gpu');
      JoinInjective(a, b);
      assert a[0] == b[0] && a[1] == b[1] && a[2] == b[2] && a[3] == b[3] && a[4] == b[4] && a[5] == b[5];
      ItoaInjective(replica, replica');
      ItoaInjective(gpu, gpu');
    }
  }

  lemma ItoaPlain(n: int)
    ensures Plain(Itoa(n))
  {
    DigitsShape(if n < 0 then -n else n);
  }

  lemma ServiceHashExact(compose: string, template: string, service: string, tag: string,
                         compose': string, template': string, service': string, tag': string)
    requires Plain(tag) && Plain(BaseName(compose)) && Plain(template) && Plain(service)
    requires Plain(tag') && Plain(BaseName(compose')) && Plain(template') && Plain(service')
    ensures ServiceHash(compose, template, service, tag) == ServiceHash(compose', template', service', tag')
       <==> (BaseName(compose) == BaseName(compose') && template == template' && service == service' && tag == tag')
  {
    var a, b := [tag, BaseName(compose), template, service], [tag', BaseName(compose'), template', service'];
    if Hash(a) == Hash(b) {
      assert Join(a) == Hash(a)[7..] && Join(b) == Hash(b)[7..];
      JoinInjective(a, b);
      assert a[0] == b[0] && a[1] == b[1] && a[2] == b[2] && a[3] == b[3];
    }
  }

  // ----- paths and images, part by part

  ghost predicate AllSlashes(s: string) {
    forall c | c in s :: c == '/'
  }

  lemma {:induction false} StripSlashesOf(path: string, slashes: string)
    requires (path == "" || path[|path| - 1] != '/') && AllSlashes(slashes)
    ensures StripSlashes(path + slashes) == path
  {
    if slashes == "" {
      assert path + slashes == path;
    } else {
      var all := path + slashes;
      assert all[|all| - 1] == slashes[|slashes| - 1] && slashes[|slashes| - 1] in slashes;
      var front := slashes[..|slashes| - 1];
      assert all[..|all| - 1] == path + front && forall c | c in front :: c in slashes;
      StripSlashesOf(path, front);
    }
  }

  lemma {:induction false} AfterLastOf(s: string, t: string, c: char)
    requires c !in t
    ensures AfterLast(s + [c] + t, c) == t
  {
    AfterLastOfSuffix(s + [c], t, c);
    AfterLastOccurrence(s, c);
    assert "" + t == t;
  }

  // The base name is the last part of the path that is not empty; of an empty path it is a
  // dot and of one with slashes only a slash.
  lemma BaseNameOf(dir: string, name: string, slashes: string)
    requires name != "" && '/' !in name && AllSlashes(slashes)
    ensures BaseName(name + slashes) == name && BaseName(dir + "/" + name + slashes) == name
    ensures BaseName("") == "." && (slashes != "" ==> BaseName(slashes) == "/")
  {
    assert name[|name| - 1] in name;
    StripSlashesOf(name, slashes);
    var path := dir + "/" + name;
    assert path[|path| - 1] == name[|name| - 1];
    StripSlashesOf(path, slashes);
    AfterLastOf(dir, name, '/');
    StripSlashesOf("", slashes);
    assert "" + slashes == slashes;
  }

  // The tag is what follows the last colon of the last part of the reference, if it has one.
  lemma TagOfParts(path: string, name: string, tag: string)
    requires '/' !in name && '/' !in tag && ':' !in tag
    ensures TagOf(name + ":" + tag) == tag && TagOf(path + "/" + name + ":" + tag) == tag
    ensures ':' !in name ==> TagOf(name) == "" && TagOf(path + "/" + name) == ""
  {
    var last := name + ":" + tag;
    assert '/' !in last && last[|name|] == ':';
    AfterLastOf(name, tag, ':');
    AfterLastOf(path, last, '/');
    AfterLastOf(path, name, '/');
    assert path + "/" + name + ":" + tag == path + "/" + last;
  }

  // The executor's pattern, character by character.
  lemma SafeTagExact(tag: string)
    ensures SafeTag(tag) <==>
              && |tag| >= 1
              && forall i | 0 <= i < |tag| ::
                   || 'A' <= tag[i] <= 'Z' || 'a' <= tag[i] <= 'z' || '0' <= tag[i] <= '9'
                   || (i > 0 && (tag[i] == '.' || tag[i] == '_' || tag[i] == '-'))
  {
    if tag != "" {
      assert forall i | 0 <= i < |tag| :: tag[i] in tag;
    }
  }
}

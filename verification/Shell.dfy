// engine/shell.go and engine/secrets.go: quoting, and the env-file the target sources.
module Shell {
  import opened Wrappers
  import opened Order

  // ----- the printer

  function Escape(s: string): string {
    if s == "" then ""
    else if s[0] == '\'' then "'\\''" + Escape(s[1..])
    else [s[0]] + Escape(s[1..])
  }

  function ShQuote(s: string): string {
    "'" + Escape(s) + "'"
  }

  function Line(name: string, value: string): string {
    "export " + name + "=" + ShQuote(value) + "\n"
  }

  function Lines(names: seq<string>, secrets: map<string, string>): string
    requires forall n | n in names :: n in secrets
  {
    if names == [] then "" else Line(names[0], secrets[names[0]]) + Lines(names[1..], secrets)
  }

  function Concat(lines: seq<string>): string {
    if lines == [] then "" else lines[0] + Concat(lines[1..])
  }

  // The body of the env-file: one line a secret, in name order.
  method EnvFile(secrets: map<string, string>) returns (body: string, ghost order: seq<string>, ghost lines: seq<string>)
    ensures StrictTotal(StringLess) && body == Lines(Sorted(secrets.Keys, StringLess), secrets)
    ensures (forall i, j | 0 <= i < j < |order| :: StringLess(order[i], order[j])) && forall n :: n in order <==> n in secrets
    ensures |lines| == |order| && body == Concat(lines)
    ensures forall i | 0 <= i < |order| :: lines[i] == "export " + order[i] + "=" + ShQuote(secrets[order[i]]) + "\n"
  {
    hide Line, Lines, Concat, ShQuote, StringLess;
    StringLessStrictTotal();
    var names := Sort(secrets.Keys, StringLess);
    order := names;
    lines := LinesAre(names, secrets);
    body := "";
    LinesFrom(names, secrets, |names|);
    assert names[0..] == names;
    for i := 0 to |names|
      invariant forall n | n in names[i..] :: n in secrets
      invariant Lines(names, secrets) == body + Lines(names[i..], secrets)
    {
      LinesFrom(names, secrets, i);
      Assoc(body, Line(names[i], secrets[names[i]]), Lines(names[i + 1..], secrets));
      body := body + Line(names[i], secrets[names[i]]);
    }
  }

  lemma {:induction false} LinesAre(names: seq<string>, secrets: map<string, string>) returns (lines: seq<string>)
    requires forall n | n in names :: n in secrets
    ensures |lines| == |names| && Lines(names, secrets) == Concat(lines)
    ensures forall i | 0 <= i < |names| :: lines[i] == "export " + names[i] + "=" + ShQuote(secrets[names[i]]) + "\n"
  {
    lines := [];
    if names != [] {
      var rest := LinesAre(names[1..], secrets);
      lines := ["export " + names[0] + "=" + ShQuote(secrets[names[0]]) + "\n"] + rest;
      assert lines[1..] == rest;
    }
  }

  lemma LinesFrom(names: seq<string>, secrets: map<string, string>, i: nat)
    requires i <= |names| && forall n | n in names[i..] :: n in secrets
    ensures i == |names| ==> Lines(names[i..], secrets) == ""
    ensures i < |names| ==> names[i] in secrets && forall n | n in names[i + 1..] :: n in secrets
    ensures i < |names| ==> Lines(names[i..], secrets) == Line(names[i], secrets[names[i]]) + Lines(names[i + 1..], secrets)
  {
    if i < |names| {
      assert names[i] in names[i..] && names[i..][0] == names[i] && names[i..][1..] == names[i + 1..];
    }
  }

  // ----- the reader: POSIX.1-2017 XCU sections 2.2.1 and 2.2.2

  predicate PlainChar(c: char) {
    'A' <= c <= 'Z' || 'a' <= c <= 'z' || '0' <= c <= '9' || c == '_'
  }

  predicate Blank(c: char) {
    c == ' ' || c == '\t' || c == '\n'
  }

  datatype Word = Word(value: string, rest: string)

  function Prepend(s: string, w: Option<Word>): Option<Word> {
    if w.None? then None else Some(Word(s + w.value.value, w.value.rest))
  }

  // One word. An unquoted character that means anything to the shell is not read.
  function Unquoted(t: string): Option<Word>
    decreases |t|
  {
    if t == "" || Blank(t[0]) then Some(Word("", t))
    else if t[0] == '\\' then
      if |t| == 1 then None
      else if t[1] == '\n' then Unquoted(t[2..])
      else Prepend([t[1]], Unquoted(t[2..]))
    else if t[0] == '\'' then Quoted(t[1..])
    else if PlainChar(t[0]) then Prepend([t[0]], Unquoted(t[1..]))
    else None
  }

  // Between single quotes every character but the quote stands for itself.
  function Quoted(t: string): Option<Word>
    decreases |t|
  {
    if t == "" || t[0] == '\0' then None
    else if t[0] == '\'' then Unquoted(t[1..])
    else Prepend([t[0]], Quoted(t[1..]))
  }

  predicate NameStart(c: char) {
    PlainChar(c) && !('0' <= c <= '9')
  }

  predicate ValidName(n: string) {
    n != "" && NameStart(n[0]) && forall c | c in n :: PlainChar(c)
  }

  // The name up to the equals sign.
  function ReadName(t: string): Option<Word> {
    if t == "" then None
    else if t[0] == '=' then Some(Word("", t[1..]))
    else if PlainChar(t[0]) then Prepend([t[0]], ReadName(t[1..]))
    else None
  }

  // The assignments that sourcing the file makes, on top of env.
  function Source(t: string, env: map<string, string>): Option<map<string, string>>
    decreases |t|
  {
    if t == "" then Some(env)
    else if !("export " <= t) then None
    else
      var name := ReadName(t[7..]);
      if name.None? || !ValidName(name.value.value) then None
      else
        var word := Unquoted(name.value.rest);
        if word.None? || word.value.rest == "" || word.value.rest[0] != '\n' then None
        else if |word.value.rest| > |t| then None
        else Source(word.value.rest[1..], env[name.value.value := word.value.value])
  }

  // ----- round trips

  predicate NulFree(s: string) {
    '\0' !in s
  }

  lemma PrependTwice(a: string, b: string, w: Option<Word>)
    ensures Prepend(a, Prepend(b, w)) == Prepend(a + b, w)
    ensures Prepend("", w) == w
  {
    if w.Some? {
      assert a + (b + w.value.value) == a + b + w.value.value && "" + w.value.value == w.value.value;
    }
  }

  lemma {:induction false} QuotedEscape(s: string, rest: string)
    requires NulFree(s)
    ensures Quoted(Escape(s) + "'" + rest) == Prepend(s, Unquoted(rest))
  {
    var t := Escape(s) + "'" + rest;
    if s == "" {
      assert t[0] == '\'' && t[1..] == rest;
      PrependTwice("", "", Unquoted(rest));
    } else {
      var tail := Escape(s[1..]) + "'" + rest;
      QuotedEscape(s[1..], rest);
      PrependTwice([s[0]], s[1..], Unquoted(rest));
      assert [s[0]] + s[1..] == s;
      if s[0] == '\'' {
        QuoteIdiom(tail);
        assert t == "'\\''" + tail;
      } else {
        assert t[0] == s[0] && t[1..] == tail;
      }
    }
  }

  // Close the quotes, an escaped quote, open them again.
  lemma QuoteIdiom(tail: string)
    ensures Quoted("'\\''" + tail) == Prepend("'", Quoted(tail))
  {
    var t := "'\\''" + tail;
    var u := t[1..];
    assert t[0] == '\'' && u == "\\''" + tail;
    assert u[0] == '\\' && u[1] == '\'' && u[2..] == "'" + tail;
    assert ("'" + tail)[0] == '\'' && ("'" + tail)[1..] == tail;
    assert Unquoted(u) == Prepend("'", Unquoted("'" + tail));
  }

  // A quoted value is one shell word, whose value is exactly the string: quotes,
  // newlines, blanks and metacharacters included.
  lemma ShQuoteIsOneWord(s: string, rest: string)
    requires NulFree(s) && (rest == "" || Blank(rest[0]))
    ensures Unquoted(ShQuote(s) + rest) == Some(Word(s, rest))
  {
    var t := ShQuote(s) + rest;
    QuotedEscape(s, rest);
    assert t[0] == '\'' && t[1..] == Escape(s) + "'" + rest;
    assert s + "" == s;
  }

  lemma {:induction false} NameRead(n: string, rest: string)
    requires forall c | c in n :: PlainChar(c)
    ensures ReadName(n + "=" + rest) == Some(Word(n, rest))
  {
    var t := n + "=" + rest;
    if n == "" {
      assert t[0] == '=' && t[1..] == rest;
    } else {
      assert t[0] == n[0] && n[0] in n && t[1..] == n[1..] + "=" + rest;
      NameRead(n[1..], rest);
      assert PlainChar(t[0]) && ReadName(t) == Prepend([n[0]], ReadName(t[1..]));
      assert [n[0]] + n[1..] == n;
    }
  }

  lemma LineSourced(n: string, v: string, rest: string, env: map<string, string>)
    requires ValidName(n) && NulFree(v)
    ensures Source(Line(n, v) + rest, env) == Source(rest, env[n := v])
  {
    var t := Line(n, v) + rest;
    var after := ShQuote(v) + ("\n" + rest);
    assert "export " <= t && t[7..] == n + "=" + after;
    NameRead(n, after);
    ShQuoteIsOneWord(v, "\n" + rest);
    assert ("\n" + rest)[1..] == rest;
  }

  function Bind(env: map<string, string>, names: seq<string>, secrets: map<string, string>): map<string, string>
    requires forall n | n in names :: n in secrets
    decreases |names|
  {
    if names == [] then env else Bind(env[names[0] := secrets[names[0]]], names[1..], secrets)
  }

  lemma {:induction false} BoundExactly(env: map<string, string>, names: seq<string>, secrets: map<string, string>, x: string)
    requires forall n | n in names :: n in secrets
    ensures x in Bind(env, names, secrets) <==> x in env || x in names
    ensures x in names ==> Bind(env, names, secrets)[x] == secrets[x]
    ensures x !in names && x in env ==> Bind(env, names, secrets)[x] == env[x]
    decreases |names|
  {
    if names != [] {
      BoundExactly(env[names[0] := secrets[names[0]]], names[1..], secrets, x);
      assert x in names <==> x == names[0] || x in names[1..];
    }
  }

  lemma {:induction false} LinesSourced(names: seq<string>, secrets: map<string, string>, env: map<string, string>)
    requires forall n | n in names :: n in secrets && ValidName(n) && NulFree(secrets[n])
    ensures Source(Lines(names, secrets), env) == Some(Bind(env, names, secrets))
    decreases |names|
  {
    if names != [] {
      var n := names[0];
      LineSourced(n, secrets[n], Lines(names[1..], secrets), env);
      hide Source;
      LinesSourced(names[1..], secrets, env[n := secrets[n]]);
    }
  }

  // Sourcing the generated file gives exactly the secrets, for every map of valid names
  // to NUL-free values.
  lemma EnvFileRoundTrip(secrets: map<string, string>)
    requires forall n | n in secrets :: ValidName(n) && NulFree(secrets[n])
    ensures StrictTotal(StringLess)
    ensures Source(Lines(Sorted(secrets.Keys, StringLess), secrets), map[]) == Some(secrets)
  {
    hide Source, Lines, ValidName, NulFree;
    StringLessStrictTotal();
    var names := Sorted(secrets.Keys, StringLess);
    hide StringLess, StrictTotal;
    LinesSourced(names, secrets, map[]);
    BoundAll(names, secrets);
  }

  lemma BoundAll(names: seq<string>, secrets: map<string, string>)
    requires forall n :: n in names <==> n in secrets
    ensures Bind(map[], names, secrets) == secrets
  {
    hide Bind;
    forall x ensures x in Bind(map[], names, secrets) <==> x in secrets {
      BoundExactly(map[], names, secrets, x);
    }
    forall x | x in secrets ensures Bind(map[], names, secrets)[x] == secrets[x] {
      BoundExactly(map[], names, secrets, x);
    }
  }
}

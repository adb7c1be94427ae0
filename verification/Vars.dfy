// config/vars.go: the substitution pass over the raw deploy.yml text.
module Vars {
  import opened Order

  datatype Token = Literal(c: char) | Dollar | Ref(name: string)

  const OPEN := "${vars."

  predicate NameChar(c: char) {
    'A' <= c <= 'Z' || 'a' <= c <= 'z' || '0' <= c <= '9' || c == '_' || c == '-'
  }

  // The longest run of name characters at the front.
  function NameRun(s: string): string {
    if s != "" && NameChar(s[0]) then [s[0]] + NameRun(s[1..]) else ""
  }

  // The variable named by a reference at the front of s; "" when there is none.
  function RefName(s: string): (name: string)
    ensures |name| <= |s|
    ensures name != "" ==> |OPEN| + |name| + 1 <= |s|
  {
    if OPEN <= s then
      var name := NameRun(s[|OPEN|..]);
      NameRunPrefix(s[|OPEN|..]);
      if |name| < |s| - |OPEN| && s[|OPEN| + |name|] == '}' then name else ""
    else ""
  }

  lemma {:induction false} NameRunPrefix(s: string)
    ensures NameRun(s) <= s
  {
    if s != "" && NameChar(s[0]) {
      NameRunPrefix(s[1..]);
    }
  }

  // The text a token was read from.
  function Spell(t: Token): string {
    match t
    case Literal(c) => [c]
    case Dollar => "$${"
    case Ref(name) => OPEN + name + "}"
  }

  // The match at the front of the text; a single character when there is none.
  function Next(s: string): (t: Token)
    requires s != ""
    ensures Spell(t) != "" && Spell(t) <= s
  {
    NameRunPrefix(if OPEN <= s then s[|OPEN|..] else "");
    if "$${" <= s then Dollar else if RefName(s) != "" then Ref(RefName(s)) else Literal(s[0])
  }

  // The leftmost matches, with the characters between them.
  function Lex(s: string): seq<Token>
    decreases |s|
  {
    if s == "" then [] else [Next(s)] + Lex(s[|Spell(Next(s))|..])
  }

  function Unlex(ts: seq<Token>): string {
    if ts == [] then "" else Spell(ts[0]) + Unlex(ts[1..])
  }

  // What replaces it; values are inserted verbatim.
  function Render(t: Token, vars: map<string, string>): string {
    match t
    case Literal(c) => [c]
    case Dollar => "${"
    case Ref(name) => if name in vars then vars[name] else Spell(t)
  }

  function RenderAll(ts: seq<Token>, vars: map<string, string>): string {
    if ts == [] then "" else Render(ts[0], vars) + RenderAll(ts[1..], vars)
  }

  function Undefined(ts: seq<Token>, vars: map<string, string>): seq<string> {
    if ts == [] then []
    else (if ts[0].Ref? && ts[0].name !in vars then [ts[0].name] else []) + Undefined(ts[1..], vars)
  }

  datatype Interpolation = Text(out: string) | NewlineInValue(name: string) | UndefinedVars(names: seq<string>)

  method CheckValues(vars: map<string, string>) returns (bad: bool, name: string)
    ensures bad ==> name in vars && '\n' in vars[name]
    ensures !bad ==> forall k | k in vars :: '\n' !in vars[k]
  {
    bad, name := false, "";
    var rest := vars.Keys;
    while rest != {}
      invariant rest <= vars.Keys && forall k | k in vars && k !in rest :: '\n' !in vars[k]
      decreases |rest|
    {
      var k :| k in rest;
      if '\n' in vars[k] {
        return true, k;
      }
      rest := rest - {k};
    }
  }

  // One pass, left to right, over the leftmost matches.
  method Interpolate(raw: string, vars: map<string, string>) returns (r: Interpolation)
    ensures r.NewlineInValue? <==> exists k :: k in vars && '\n' in vars[k]
    ensures r.NewlineInValue? ==> r.name in vars && '\n' in vars[r.name]
    ensures !r.NewlineInValue? && Undefined(Lex(raw), vars) != [] ==> r == UndefinedVars(Undefined(Lex(raw), vars))
    ensures !r.NewlineInValue? && Undefined(Lex(raw), vars) == [] ==> r == Text(RenderAll(Lex(raw), vars))
  {
    hide Next, Spell, Render, Lex, RenderAll, Undefined;
    LexNothing(vars);
    var bad, name := CheckValues(vars);
    if bad {
      return NewlineInValue(name);
    }
    var out, missing := "", [];
    var i := 0;
    assert raw[0..] == raw;
    while i < |raw|
      invariant 0 <= i <= |raw|
      invariant RenderAll(Lex(raw), vars) == out + RenderAll(Lex(raw[i..]), vars)
      invariant Undefined(Lex(raw), vars) == missing + Undefined(Lex(raw[i..]), vars)
      decreases |raw| - i
    {
      var t := Next(raw[i..]);
      LexFrom(raw, i, vars);
      var miss := if t.Ref? && t.name !in vars then [t.name] else [];
      i := i + |Spell(t)|;
      Assoc(out, Render(t, vars), RenderAll(Lex(raw[i..]), vars));
      Assoc(missing, miss, Undefined(Lex(raw[i..]), vars));
      out := out + Render(t, vars);
      missing := missing + miss;
    }
    assert raw[i..] == "" && out + "" == out && missing + [] == missing;
    return if missing != [] then UndefinedVars(missing) else Text(out);
  }

  lemma LexNothing(vars: map<string, string>)
    ensures Lex("") == [] && RenderAll([], vars) == "" && Undefined([], vars) == []
  {
  }

  lemma LexFrom(raw: string, i: nat, vars: map<string, string>)
    requires i < |raw|
    ensures var t := Next(raw[i..]);
            && i + |Spell(t)| <= |raw|
            && RenderAll(Lex(raw[i..]), vars) == Render(t, vars) + RenderAll(Lex(raw[i + |Spell(t)|..]), vars)
            && Undefined(Lex(raw[i..]), vars)
               == (if t.Ref? && t.name !in vars then [t.name] else []) + Undefined(Lex(raw[i + |Spell(t)|..]), vars)
  {
    hide Next, Spell, Render;
    var t := Next(raw[i..]);
    assert raw[i..][|Spell(t)|..] == raw[i + |Spell(t)|..];
    LexTail(raw[i..]);
  }

  lemma LexTail(s: string)
    requires s != ""
    ensures Lex(s) != [] && Lex(s)[0] == Next(s) && Lex(s)[1..] == Lex(s[|Spell(Next(s))|..])
  {
  }

  // ----- what the pass means

  // The tokens spell the text they were read from: nothing is dropped or read twice.
  lemma {:induction false} LexLossless(s: string)
    ensures Unlex(Lex(s)) == s
    decreases |s|
  {
    if s != "" {
      hide Next, Spell, Lex;
      var t := Next(s);
      LexTail(s);
      LexLossless(s[|Spell(t)|..]);
      assert Unlex(Lex(s)) == Spell(t) + Unlex(Lex(s[|Spell(t)|..]));
      hide Unlex;
      assert s == Spell(t) + s[|Spell(t)|..];
    }
  }

  // No match begins inside the text.
  ghost predicate NoMatch(s: string) {
    forall i | 0 <= i < |s| :: Next(s[i..]).Literal?
  }

  // Any other ${...} form is left alone: a text with no match comes through unchanged.
  lemma {:induction false} OtherTextUntouched(s: string, vars: map<string, string>)
    requires NoMatch(s)
    ensures RenderAll(Lex(s), vars) == s && Undefined(Lex(s), vars) == []
    decreases |s|
  {
    if s != "" {
      assert s[0..] == s && Next(s).Literal?;
      forall i | 0 <= i < |s[1..]| ensures Next(s[1..][i..]).Literal? {
        assert s[1..][i..] == s[i + 1..];
      }
      OtherTextUntouched(s[1..], vars);
      LexTail(s);
      assert s == [s[0]] + s[1..];
    }
  }

  // How to write a text that must come through unchanged.
  function Escape(s: string): string {
    if s == "" then ""
    else if "${" <= s then "$${" + Escape(s[2..])
    else [s[0]] + Escape(s[1..])
  }

  // Escaping leaves no dollar sign directly before an open brace at the front.
  lemma {:induction false} EscapeFront(s: string)
    ensures |Escape(s)| >= 2 && Escape(s)[0] == '$' ==> Escape(s)[1] != '{'
    ensures Escape(s) != "" && Escape(s)[0] == '{' ==> s != "" && s[0] == '{'
  {
    if s != "" && !("${" <= s) {
      EscapeFront(s[1..]);
      var e := Escape(s);
      assert e[0] == s[0] && e[1..] == Escape(s[1..]);
      if |e| >= 2 {
        assert e[1] == e[1..][0];
        assert e[1] == '{' ==> s[1] == '{';
      }
    }
  }

  lemma EscapeNext(s: string)
    requires s != ""
    ensures Escape(s) != ""
    ensures "${" <= s ==> Next(Escape(s)) == Dollar && Escape(s)[3..] == Escape(s[2..])
    ensures !("${" <= s) ==> Next(Escape(s)) == Literal(s[0]) && Escape(s)[1..] == Escape(s[1..])
  {
    var e := Escape(s);
    if "${" <= s {
      assert e == "$${" + Escape(s[2..]);
    } else {
      assert e == [s[0]] + Escape(s[1..]) && e[1..] == Escape(s[1..]);
      EscapeFront(s);
      EscapeFront(s[1..]);
      assert |e| > 2 ==> e[1] == e[1..][0] && e[2] == e[1..][1];
      assert OPEN[0] == '$' && OPEN[1] == '{';
      assert !("$${" <= e) && !(OPEN <= e);
    }
  }

  // Printer undone by parser: escaping every "${" makes the pass return the text, with
  // nothing missing, whatever the variables.
  lemma {:induction false} EscapeRoundTrip(s: string, vars: map<string, string>)
    ensures RenderAll(Lex(Escape(s)), vars) == s && Undefined(Lex(Escape(s)), vars) == []
    decreases |s|
  {
    if s != "" {
      hide Next, Escape, Lex;
      EscapeNext(s);
      LexTail(Escape(s));
      if "${" <= s {
        EscapeRoundTrip(s[2..], vars);
        assert s == "${" + s[2..];
      } else {
        EscapeRoundTrip(s[1..], vars);
        assert s == [s[0]] + s[1..];
      }
    }
  }

  // ----- the pass, equation by equation

  // A name as a reference may have it.
  ghost predicate IsName(name: string) {
    name != "" && forall c | c in name :: 'A' <= c <= 'Z' || 'a' <= c <= 'z' || '0' <= c <= '9' || c == '_' || c == '-'
  }

  lemma {:induction false} NameRunOf(name: string, rest: string)
    requires (forall c | c in name :: NameChar(c)) && (rest == "" || !NameChar(rest[0]))
    ensures NameRun(name + rest) == name
  {
    if name == "" {
      assert name + rest == rest;
    } else {
      assert (name + rest)[0] == name[0] && (name + rest)[1..] == name[1..] + rest;
      NameRunOf(name[1..], rest);
    }
  }

  lemma {:induction false} NameRunChars(s: string)
    ensures forall c | c in NameRun(s) :: NameChar(c)
  {
    if s != "" && NameChar(s[0]) {
      NameRunChars(s[1..]);
    }
  }

  // A reference at the front of the text, and nothing else, is read as one.
  lemma ReadsReference(s: string, name: string, rest: string)
    requires IsName(name) && s == "${vars." + name + "}" + rest
    ensures s != "" && Next(s) == Ref(name) && s[|Spell(Ref(name))|..] == rest
  {
    var tail := name + ("}" + rest);
    assert s == OPEN + tail && s[|OPEN|..] == tail;
    NameRunOf(name, "}" + rest);
    assert tail[|name|] == '}' && s[|OPEN| + |name|] == '}';
    assert s[1] == '{' && !("$${" <= s);
    assert Spell(Ref(name)) == "${vars." + name + "}";
  }

  lemma ReadsNothingElse(s: string)
    requires s != "" && Next(s).Ref?
    ensures IsName(Next(s).name) && s == "${vars." + Next(s).name + "}" + s[|Spell(Next(s))|..]
  {
    var name := RefName(s);
    NameRunChars(s[|OPEN|..]);
    assert s == Spell(Next(s)) + s[|Spell(Next(s))|..];
  }

  lemma FirstToken(s: string, t: Token, rest: string, vars: map<string, string>)
    requires s != "" && Next(s) == t && s[|Spell(t)|..] == rest
    ensures RenderAll(Lex(s), vars) == Render(t, vars) + RenderAll(Lex(rest), vars)
    ensures Undefined(Lex(s), vars) == (if t.Ref? && t.name !in vars then [t.name] else []) + Undefined(Lex(rest), vars)
  {
    LexTail(s);
  }

  // A reference gives the value of its variable, or the variable's name among the missing.
  lemma ReferenceReplaced(name: string, rest: string, vars: map<string, string>)
    requires IsName(name)
    ensures var s := "${vars." + name + "}" + rest;
            if name in vars then
              && RenderAll(Lex(s), vars) == vars[name] + RenderAll(Lex(rest), vars)
              && Undefined(Lex(s), vars) == Undefined(Lex(rest), vars)
            else
              Undefined(Lex(s), vars) == [name] + Undefined(Lex(rest), vars)
  {
    var s := "${vars." + name + "}" + rest;
    ReadsReference(s, name, rest);
    FirstToken(s, Ref(name), rest, vars);
    assert [] + Undefined(Lex(rest), vars) == Undefined(Lex(rest), vars);
  }

  // Two dollar signs before a brace give one.
  lemma EscapeReplaced(rest: string, vars: map<string, string>)
    ensures RenderAll(Lex("$${" + rest), vars) == "${" + RenderAll(Lex(rest), vars)
    ensures Undefined(Lex("$${" + rest), vars) == Undefined(Lex(rest), vars)
  {
    var s := "$${" + rest;
    assert s[|Spell(Dollar)|..] == rest;
    FirstToken(s, Dollar, rest, vars);
    assert [] + Undefined(Lex(rest), vars) == Undefined(Lex(rest), vars);
  }

  // Any other character is kept and the pass goes on after it.
  lemma CharacterKept(s: string, vars: map<string, string>)
    requires s != "" && !("$${" <= s) && !(exists name, rest :: IsName(name) && s == "${vars." + name + "}" + rest)
    ensures RenderAll(Lex(s), vars) == [s[0]] + RenderAll(Lex(s[1..]), vars)
    ensures Undefined(Lex(s), vars) == Undefined(Lex(s[1..]), vars)
  {
    if Next(s).Ref? {
      ReadsNothingElse(s);
    }
    FirstToken(s, Literal(s[0]), s[1..], vars);
    assert [] + Undefined(Lex(s[1..]), vars) == Undefined(Lex(s[1..]), vars);
  }
}

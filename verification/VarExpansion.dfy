/**
 The two `${VAR}` expanders: the agent's (crates/lasterm-agent/src/expand.rs) and the
 hub's (packages/shared/src/var-expansion.ts), with case-sensitive lookup. Both look
 a name up in the profile's environment and then in that of the process, but the hub
 does so in JavaScript objects, which have inherited properties too.
 */
module VarExpansion {
  import opened Prelude

  type Lookup = string -> Option<string>

  /** The profile's environment, if any, and the environment of the process. */
  datatype Environments = Environments(profile: Option<map<string, string>>, process: map<string, string>)

  const EMPTY := Environments(None, map[])

  function AgentLookup(env: Environments): Lookup {
    name =>
      if env.profile.Some? && name in env.profile.value then Some(env.profile.value[name])
      else if name in env.process then Some(env.process[name]) else None
  }

  /** Properties every JavaScript object inherits from `Object.prototype`. */
  predicate IsInherited(name: string) {
    name in {
      "constructor", "__defineGetter__", "__defineSetter__", "hasOwnProperty", "__lookupGetter__", "__lookupSetter__",
      "isPrototypeOf", "propertyIsEnumerable", "toString", "valueOf", "__proto__", "toLocaleString"}
  }

  /** An inherited property's value, converted to text. */
  function InheritedText(name: string): (r: Option<string>)
    ensures r.Some? <==> IsInherited(name)
    ensures r.Some? ==> r.value != "" && r.value[0] in {'f', '['}
  {
    if !IsInherited(name) then None
    else if name == "__proto__" then Some("[object Object]")
    else if name == "constructor" then Some("function Object() { [native code] }")
    else Some("function " + name + "() { [native code] }")
  }

  /** Property lookup in two objects, the profile first; each also has what it inherits. */
  function HubLookup(env: Environments): Lookup {
    name =>
      if env.profile.Some? && name in env.profile.value then Some(env.profile.value[name])
      else if env.profile.Some? && IsInherited(name) then InheritedText(name)
      else if name in env.process then Some(env.process[name])
      else InheritedText(name)
  }

  /** The two lookups can only differ on an inherited name. */
  lemma LookupsAgree(env: Environments, name: string)
    requires !IsInherited(name)
    ensures AgentLookup(env)(name) == HubLookup(env)(name)
  {
  }

  /** The profile's own variables come first, then those of the process; the hub finds what
      objects inherit after the profile's own and before the process when there is a profile. */
  lemma {:induction false} ProfileComesFirst(env: Environments, name: string)
    ensures env.profile.Some? && name in env.profile.value ==>
      AgentLookup(env)(name) == HubLookup(env)(name) == Some(env.profile.value[name])
    ensures (env.profile == None || name !in env.profile.value) && name in env.process ==>
      AgentLookup(env)(name) == Some(env.process[name]) && (env.profile == None ==> HubLookup(env)(name) == Some(env.process[name]))
    ensures (env.profile == None || name !in env.profile.value) && name !in env.process ==>
      AgentLookup(env)(name) == None && (HubLookup(env)(name).Some? <==> IsInherited(name))
  {
  }

  // ----- splitting, as the agent does it

  datatype Token =
    | Plain(c: char)
    | Pair                    // two backslashes, standing for one
    | Escaped(name: string)   // \${name}
    | Reference(name: string) // ${name}

  predicate IsBackslash(s: string, i: nat) { i < |s| && s[i] == '\\' }

  predicate OpensReference(s: string, i: nat) { i + 1 < |s| && s[i] == '$' && s[i + 1] == '{' }

  /** The first closing brace from `i` on. */
  function FindClose(s: string, i: nat): (r: Option<nat>)
    ensures r.Some? ==> i <= r.value < |s| && s[r.value] == '}'
    decreases |s| - i
  {
    if i >= |s| then None else if s[i] == '}' then Some(i) else FindClose(s, i + 1)
  }

  function TokenAt(s: string, i: nat): Token
    requires i < |s|
  {
    if IsBackslash(s, i) then
      if IsBackslash(s, i + 1) then Pair
      else if OpensReference(s, i + 1) && FindClose(s, i + 3).Some? then Escaped(s[i + 3..FindClose(s, i + 3).value])
      else Plain(s[i])
    else if OpensReference(s, i) && FindClose(s, i + 2).Some? then Reference(s[i + 2..FindClose(s, i + 2).value])
    else Plain(s[i])
  }

  function SourceText(t: Token): (r: string)
    ensures r != ""
  {
    match t
    case Plain(c) => [c]
    case Pair => "\\\\"
    case Escaped(name) => "\\${" + name + "}"
    case Reference(name) => "${" + name + "}"
  }

  lemma TokenIsSource(s: string, i: nat)
    requires i < |s|
    ensures i + |SourceText(TokenAt(s, i))| <= |s| && s[i..i + |SourceText(TokenAt(s, i))|] == SourceText(TokenAt(s, i))
  {
  }

  function Next(s: string, i: nat): (n: nat)
    requires i < |s|
    ensures i < n <= |s|
  {
    TokenIsSource(s, i);
    i + |SourceText(TokenAt(s, i))|
  }

  function Split(s: string, i: nat): seq<Token>
    decreases |s| - i
  {
    if i >= |s| then [] else [TokenAt(s, i)] + Split(s, Next(s, i))
  }

  function Unsplit(tokens: seq<Token>): string {
    if tokens == [] then "" else SourceText(tokens[0]) + Unsplit(tokens[1..])
  }

  function Value(name: string, lookup: Lookup): string {
    match lookup(name) case Some(v) => v case None => "${" + name + "}"
  }

  function RenderToken(t: Token, lookup: Lookup): string {
    match t
    case Plain(c) => [c]
    case Pair => "\\"
    case Escaped(name) => "${" + name + "}"
    case Reference(name) => Value(name, lookup)
  }

  /** A reference that is not found stays as it is written, an escape loses its backslash,
      a pair one of its two, and nothing else changes. */
  lemma {:induction false} RenderingOfSource(t: Token, lookup: Lookup)
    ensures t.Plain? || (t.Reference? && lookup(t.name) == None) ==> RenderToken(t, lookup) == SourceText(t)
    ensures t.Reference? && lookup(t.name).Some? ==> RenderToken(t, lookup) == lookup(t.name).value
    ensures t.Escaped? || t.Pair? ==> "\\" + RenderToken(t, lookup) == SourceText(t)
  {
    if t.Escaped? { assert "\\" + ("${" + t.name + "}") == "\\${" + t.name + "}"; }
  }

  function Render(tokens: seq<Token>, lookup: Lookup): string {
    if tokens == [] then "" else RenderToken(tokens[0], lookup) + Render(tokens[1..], lookup)
  }

  /** The agent's loop from position `i` on. */
  function RustFrom(s: string, i: nat, lookup: Lookup): string
    decreases |s| - i
  {
    if i >= |s| then "" else RenderToken(TokenAt(s, i), lookup) + RustFrom(s, Next(s, i), lookup)
  }

  /** The loop is render-after-split, with a split that does not see the environment;
      so the values it inserts are never scanned again. */
  lemma {:induction false} ExpansionIsRenderAfterSplit(s: string, i: nat, lookup: Lookup)
    ensures RustFrom(s, i, lookup) == Render(Split(s, i), lookup)
    decreases |s| - i
  {
    if i < |s| {
      ExpansionIsRenderAfterSplit(s, Next(s, i), lookup);
      assert Split(s, i)[1..] == Split(s, Next(s, i));
    }
  }

  lemma TakeToken(s: string, i: nat)
    requires i < |s|
    ensures s[i..] == SourceText(TokenAt(s, i)) + s[Next(s, i)..]
  {
    TokenIsSource(s, i);
    var n := Next(s, i);
    assert s[i..] == s[i..n] + s[n..];
  }

  /** Splitting loses nothing: the tokens spell the input. */
  lemma {:induction false} SplitIsLossless(s: string, i: nat)
    requires i <= |s|
    ensures Unsplit(Split(s, i)) == s[i..]
    decreases |s| - i
  {
    if i < |s| {
      SplitIsLossless(s, Next(s, i));
      TakeToken(s, i);
      assert Split(s, i)[1..] == Split(s, Next(s, i));
    }
  }

  lemma Concat(a: string, b: string, c: string)
    ensures a + b + c == a + (b + c)
  {
  }

  lemma ReferenceText(s: string, i: nat, close: nat)
    requires OpensReference(s, i) && i + 2 <= close < |s| && s[close] == '}'
    ensures s[i..close + 1] == "${" + s[i + 2..close] + "}"
  {
  }

  /** One iteration of the agent's loop at position `i`: what it appends and where it goes on. */
  method ExpandAt(input: string, i: nat, lookup: Lookup) returns (piece: string, next: nat)
    requires i < |input|
    ensures piece == RenderToken(TokenAt(input, i), lookup) && next == Next(input, i)
  {
    if input[i] == '\\' {
      if i + 1 < |input| && input[i + 1] == '\\' { return "\\", i + 2; }
      if i + 2 < |input| && input[i + 1] == '$' && input[i + 2] == '{' {
        var close := FindClose(input, i + 3);
        if close.Some? {
          ReferenceText(input, i + 1, close.value);
          return input[i + 1..close.value + 1], close.value + 1;
        }
      }
      return "\\", i + 1;
    }
    if i + 1 < |input| && input[i] == '$' && input[i + 1] == '{' {
      var close := FindClose(input, i + 2);
      if close.Some? {
        ReferenceText(input, i, close.value);
        var value := lookup(input[i + 2..close.value]);
        return if value.Some? then value.value else input[i..close.value + 1], close.value + 1;
      }
    }
    return [input[i]], i + 1;
  }

  method ExpandVars(input: string, env: Environments) returns (out: string)
    ensures out == RustFrom(input, 0, AgentLookup(env))
    ensures out == Render(Split(input, 0), AgentLookup(env))
  {
    var lookup := AgentLookup(env);
    out := "";
    var i := 0;
    ghost var rest := RustFrom(input, 0, lookup);
    while i < |input|
      invariant 0 <= i <= |input|
      invariant rest == RustFrom(input, i, lookup) && out + rest == RustFrom(input, 0, lookup)
    {
      var piece, next := ExpandAt(input, i, lookup);
      ghost var later := RustFrom(input, next, lookup);
      assert rest == piece + later;
      Concat(out, piece, later);
      out, i, rest := out + piece, next, later;
    }
    ExpansionIsRenderAfterSplit(input, 0, lookup);
  }

  /** Only the names that are referenced matter. */
  lemma {:induction false} OnlyReferencesMatter(s: string, i: nat, lookup: Lookup, other: Lookup)
    requires forall k :: 0 <= k < |Split(s, i)| && Split(s, i)[k].Reference? ==> lookup(Split(s, i)[k].name) == other(Split(s, i)[k].name)
    ensures RustFrom(s, i, lookup) == RustFrom(s, i, other)
    decreases |s| - i
  {
    hide TokenAt, Next;
    if i < |s| {
      var tokens, later := Split(s, i), Split(s, Next(s, i));
      assert tokens[0] == TokenAt(s, i);
      forall k | 0 <= k < |later| && later[k].Reference? ensures lookup(later[k].name) == other(later[k].name) {
        assert later[k] == tokens[k + 1];
      }
      OnlyReferencesMatter(s, Next(s, i), lookup, other);
    }
  }

  // ----- the hub's regular expression

  predicate IsNameStart(c: char) { 'A' <= c <= 'Z' || 'a' <= c <= 'z' || c == '_' }

  predicate IsNameChar(c: char) { IsNameStart(c) || '0' <= c <= '9' }

  predicate IsIdentifier(name: string) {
    name != "" && IsNameStart(name[0]) && forall k :: 0 <= k < |name| ==> IsNameChar(name[k])
  }

  /** End of the run of name characters from `i` on. */
  function NameEnd(s: string, i: nat): (e: nat)
    requires i <= |s|
    ensures i <= e <= |s|
    decreases |s| - i
  {
    if i < |s| && IsNameChar(s[i]) then NameEnd(s, i + 1) else i
  }

  /** `${name}` at `i`: the position of its closing brace. */
  function MatchReference(s: string, i: nat): Option<nat> {
    if !OpensReference(s, i) || i + 2 >= |s| || !IsNameStart(s[i + 2]) then None
    else
      var e := NameEnd(s, i + 2);
      if e < |s| && s[e] == '}' then Some(e) else None
  }

  /** Leftmost match of the alternatives in order, each replaced by its callback. */
  function TsFrom(s: string, i: nat, lookup: Lookup): string
    decreases |s| - i
  {
    if i >= |s| then ""
    else if IsBackslash(s, i) && IsBackslash(s, i + 1) && MatchReference(s, i + 2).Some? then
      var e := MatchReference(s, i + 2).value;
      "\\" + Value(s[i + 4..e], lookup) + TsFrom(s, e + 1, lookup)
    else if IsBackslash(s, i) && MatchReference(s, i + 1).Some? then
      var e := MatchReference(s, i + 1).value;
      "${" + s[i + 3..e] + "}" + TsFrom(s, e + 1, lookup)
    else if MatchReference(s, i).Some? then
      var e := MatchReference(s, i).value;
      Value(s[i + 2..e], lookup) + TsFrom(s, e + 1, lookup)
    else [s[i]] + TsFrom(s, i + 1, lookup)
  }

  lemma {:induction false} CloseIs(s: string, i: nat, e: nat)
    requires i <= e < |s| && s[e] == '}' && forall k :: i <= k < e ==> s[k] != '}'
    ensures FindClose(s, i) == Some(e)
    decreases e - i
  {
    if i < e { CloseIs(s, i + 1, e); }
  }

  lemma {:induction false} NameEndFacts(s: string, i: nat, k: nat)
    requires i <= k <= |s|
    ensures k < NameEnd(s, i) ==> IsNameChar(s[k])
    ensures k == NameEnd(s, i) < |s| ==> !IsNameChar(s[k])
    decreases k - i
  {
    if i < k { NameEndFacts(s, i + 1, k); }
  }

  lemma {:induction false} NameEndIs(s: string, i: nat, e: nat)
    requires i <= e < |s| && !IsNameChar(s[e]) && forall k :: i <= k < e ==> IsNameChar(s[k])
    ensures NameEnd(s, i) == e
    decreases e - i
  {
    if i < e { NameEndIs(s, i + 1, e); }
  }

  lemma MatchCloses(s: string, i: nat)
    requires MatchReference(s, i).Some?
    ensures FindClose(s, i + 2) == MatchReference(s, i) && IsIdentifier(s[i + 2..MatchReference(s, i).value])
  {
    var e := MatchReference(s, i).value;
    forall k | i + 2 <= k < e ensures IsNameChar(s[k]) { NameEndFacts(s, i + 2, k); }
    CloseIs(s, i + 2, e);
    NameEndFacts(s, i + 2, i + 2);
    assert e > i + 2;
  }

  lemma IdentifierMatches(s: string, i: nat)
    requires OpensReference(s, i) && FindClose(s, i + 2).Some? && IsIdentifier(s[i + 2..FindClose(s, i + 2).value])
    ensures MatchReference(s, i) == FindClose(s, i + 2)
  {
    var e := FindClose(s, i + 2).value;
    var name := s[i + 2..e];
    assert name[0] == s[i + 2];
    forall k | i + 2 <= k < e ensures IsNameChar(s[k]) { assert s[k] == name[k - i - 2]; }
    NameEndIs(s, i + 2, e);
  }

  /** The expression matches exactly the closed references whose name is an identifier. */
  lemma MatchIsIdentifierReference(s: string, i: nat)
    ensures MatchReference(s, i).Some? <==>
            OpensReference(s, i) && FindClose(s, i + 2).Some? && IsIdentifier(s[i + 2..FindClose(s, i + 2).value])
    ensures MatchReference(s, i).Some? ==> MatchReference(s, i) == FindClose(s, i + 2)
  {
    if MatchReference(s, i).Some? { MatchCloses(s, i); }
    else if OpensReference(s, i) && FindClose(s, i + 2).Some? && IsIdentifier(s[i + 2..FindClose(s, i + 2).value]) { IdentifierMatches(s, i); }
  }

  // ----- when the two agree

  /** A reference or escaped reference names an identifier, and two backslashes in a
      row stand directly before an identifier reference. */
  predicate ItemOk(s: string, i: nat)
    requires i < |s|
  {
    match TokenAt(s, i)
    case Plain(_) => true
    case Pair => MatchReference(s, i + 2).Some?
    case Escaped(name) => IsIdentifier(name)
    case Reference(name) => IsIdentifier(name)
  }

  predicate Portable(s: string, i: nat)
    decreases |s| - i
  {
    i >= |s| || (ItemOk(s, i) && Portable(s, Next(s, i)))
  }

  /** A step both expanders take alike, to `next`, having appended `piece`. */
  ghost predicate SameStep(s: string, i: nat, lookup: Lookup, piece: string, next: nat) {
    && i < next <= |s|
    && RustFrom(s, i, lookup) == piece + RustFrom(s, next, lookup)
    && TsFrom(s, i, lookup) == piece + TsFrom(s, next, lookup)
  }

  lemma PlainStep(s: string, i: nat, lookup: Lookup)
    requires i < |s| && TokenAt(s, i).Plain?
    ensures SameStep(s, i, lookup, [s[i]], i + 1)
  {
    hide MatchReference, FindClose, IsIdentifier, Value;
    MatchIsIdentifierReference(s, i);
    MatchIsIdentifierReference(s, i + 1);
  }

  lemma TokenEnds(s: string, i: nat)
    requires i < |s|
    ensures TokenAt(s, i).Escaped? ==>
      && IsBackslash(s, i) && OpensReference(s, i + 1) && FindClose(s, i + 3).Some?
      && TokenAt(s, i).name == s[i + 3..FindClose(s, i + 3).value] && Next(s, i) == FindClose(s, i + 3).value + 1
    ensures TokenAt(s, i).Reference? ==>
      && OpensReference(s, i) && FindClose(s, i + 2).Some?
      && TokenAt(s, i).name == s[i + 2..FindClose(s, i + 2).value] && Next(s, i) == FindClose(s, i + 2).value + 1
  {
  }

  lemma RustStep(s: string, i: nat, lookup: Lookup)
    requires i < |s|
    ensures RustFrom(s, i, lookup) == RenderToken(TokenAt(s, i), lookup) + RustFrom(s, Next(s, i), lookup)
  {
    hide TokenAt, Next, RenderToken;
  }

  lemma TsEscape(s: string, i: nat, lookup: Lookup)
    requires IsBackslash(s, i) && MatchReference(s, i + 1).Some?
    ensures var e := MatchReference(s, i + 1).value;
            i + 3 <= e < |s| && TsFrom(s, i, lookup) == "${" + s[i + 3..e] + "}" + TsFrom(s, e + 1, lookup)
  {
    assert !IsBackslash(s, i + 1);
  }

  lemma TsReference(s: string, i: nat, lookup: Lookup)
    requires MatchReference(s, i).Some?
    ensures var e := MatchReference(s, i).value;
            i + 2 <= e < |s| && TsFrom(s, i, lookup) == Value(s[i + 2..e], lookup) + TsFrom(s, e + 1, lookup)
  {
    assert !IsBackslash(s, i);
  }

  lemma EscapedStep(s: string, i: nat, lookup: Lookup)
    requires i < |s| && TokenAt(s, i).Escaped? && IsIdentifier(TokenAt(s, i).name)
    ensures SameStep(s, i, lookup, "${" + TokenAt(s, i).name + "}", Next(s, i))
  {
    hide RustFrom, TsFrom, TokenAt, Next, MatchReference, FindClose, IsIdentifier;
    RustStep(s, i, lookup);
    TokenEnds(s, i);
    MatchIsIdentifierReference(s, i + 1);
    TsEscape(s, i, lookup);
  }

  lemma ReferenceStep(s: string, i: nat, lookup: Lookup)
    requires i < |s| && TokenAt(s, i).Reference? && IsIdentifier(TokenAt(s, i).name)
    ensures SameStep(s, i, lookup, Value(TokenAt(s, i).name, lookup), Next(s, i))
  {
    hide RustFrom, TsFrom, TokenAt, Next, MatchReference, FindClose, IsIdentifier, Value;
    RustStep(s, i, lookup);
    TokenEnds(s, i);
    MatchIsIdentifierReference(s, i);
    TsReference(s, i, lookup);
  }

  lemma PairThenReference(s: string, i: nat)
    requires i < |s| && TokenAt(s, i) == Pair && MatchReference(s, i + 2).Some?
    ensures Next(s, i) == i + 2 && i + 2 < |s|
    ensures var e := MatchReference(s, i + 2).value;
            i + 4 <= e < |s| && TokenAt(s, i + 2) == Reference(s[i + 4..e]) && Next(s, i + 2) == e + 1 && IsIdentifier(s[i + 4..e])
  {
    MatchIsIdentifierReference(s, i + 2);
    TokenEnds(s, i + 2);
  }

  lemma TsPairUnfolds(s: string, i: nat, lookup: Lookup)
    requires IsBackslash(s, i) && IsBackslash(s, i + 1) && MatchReference(s, i + 2).Some?
    ensures var e := MatchReference(s, i + 2).value;
            i + 4 <= e < |s| && TsFrom(s, i, lookup) == "\\" + (Value(s[i + 4..e], lookup) + TsFrom(s, e + 1, lookup))
  {
    var e := MatchReference(s, i + 2).value;
    Concat("\\", Value(s[i + 4..e], lookup), TsFrom(s, e + 1, lookup));
  }

  lemma RustPair(s: string, i: nat, lookup: Lookup)
    requires i < |s| && TokenAt(s, i) == Pair
    ensures RustFrom(s, i, lookup) == "\\" + RustFrom(s, i + 2, lookup)
  {
  }

  lemma RustReference(s: string, i: nat, lookup: Lookup, name: string, next: nat)
    requires i < |s| && TokenAt(s, i) == Reference(name) && Next(s, i) == next
    ensures RustFrom(s, i, lookup) == Value(name, lookup) + RustFrom(s, next, lookup)
  {
  }

  lemma PairSteps(s: string, i: nat, lookup: Lookup, name: string, next: nat)
    requires i < next <= |s|
    requires RustFrom(s, i, lookup) == "\\" + (Value(name, lookup) + RustFrom(s, next, lookup))
    requires TsFrom(s, i, lookup) == "\\" + (Value(name, lookup) + TsFrom(s, next, lookup))
    ensures SameStep(s, i, lookup, "\\" + Value(name, lookup), next)
  {
    Concat("\\", Value(name, lookup), RustFrom(s, next, lookup));
    Concat("\\", Value(name, lookup), TsFrom(s, next, lookup));
  }

  /** Two backslashes and an identifier reference are two tokens but one match. */
  lemma PairStep(s: string, i: nat, lookup: Lookup)
    requires i < |s| && TokenAt(s, i) == Pair && MatchReference(s, i + 2).Some?
    ensures i + 2 < |s| && TokenAt(s, i + 2).Reference?
    ensures SameStep(s, i, lookup, "\\" + Value(TokenAt(s, i + 2).name, lookup), Next(s, i + 2))
  {
    PairThenReference(s, i);
    PairStepAt(s, i, lookup, TokenAt(s, i + 2).name, Next(s, i + 2));
  }

  lemma PairStepAt(s: string, i: nat, lookup: Lookup, name: string, next: nat)
    requires i + 2 < |s| && TokenAt(s, i) == Pair && IsBackslash(s, i) && IsBackslash(s, i + 1) && i + 5 <= next <= |s|
    requires TokenAt(s, i + 2) == Reference(name) && Next(s, i + 2) == next
    requires MatchReference(s, i + 2) == Some(next - 1) && name == s[i + 4..next - 1]
    ensures SameStep(s, i, lookup, "\\" + Value(name, lookup), next)
  {
    hide RustFrom, TsFrom, TokenAt, Next, MatchReference, Value;
    assert RustFrom(s, i, lookup) == "\\" + (Value(name, lookup) + RustFrom(s, next, lookup)) by {
      RustPair(s, i, lookup);
      RustReference(s, i + 2, lookup, name, next);
    }
    assert TsFrom(s, i, lookup) == "\\" + (Value(name, lookup) + TsFrom(s, next, lookup)) by {
      TsPairUnfolds(s, i, lookup);
    }
    PairSteps(s, i, lookup, name, next);
  }

  /** Where both expanders go on: after a token, or after a pair and the reference behind it. */
  function NextItem(s: string, i: nat): (n: nat)
    requires i < |s| && ItemOk(s, i)
    ensures i < n <= |s|
  {
    if TokenAt(s, i) == Pair then PairThenReference(s, i); Next(s, i + 2) else Next(s, i)
  }

  lemma PortableByItem(s: string, i: nat)
    requires i < |s|
    ensures Portable(s, i) <==> ItemOk(s, i) && Portable(s, NextItem(s, i))
  {
    if TokenAt(s, i) == Pair && MatchReference(s, i + 2).Some? { PairThenReference(s, i); }
  }

  /** What both expanders append for an item. */
  function ItemPiece(s: string, i: nat, lookup: Lookup): string
    requires i < |s| && ItemOk(s, i)
  {
    match TokenAt(s, i)
    case Plain(c) => [c]
    case Escaped(name) => "${" + name + "}"
    case Reference(name) => Value(name, lookup)
    case Pair => PairThenReference(s, i); "\\" + Value(TokenAt(s, i + 2).name, lookup)
  }

  lemma CommonStep(s: string, i: nat, lookup: Lookup)
    requires i < |s| && ItemOk(s, i)
    ensures SameStep(s, i, lookup, ItemPiece(s, i, lookup), NextItem(s, i))
  {
    hide RustFrom, TsFrom, MatchReference, Value;
    match TokenAt(s, i) {
      case Plain(c) => PlainStep(s, i, lookup);
      case Escaped(name) => EscapedStep(s, i, lookup);
      case Reference(name) => ReferenceStep(s, i, lookup);
      case Pair => PairStep(s, i, lookup);
    }
  }

  lemma {:induction false} SharedLookupAgrees(s: string, i: nat, lookup: Lookup)
    requires Portable(s, i)
    ensures RustFrom(s, i, lookup) == TsFrom(s, i, lookup)
    decreases |s| - i
  {
    if i < |s| {
      PortableByItem(s, i);
      SharedLookupAgrees(s, NextItem(s, i), lookup);
      CommonStep(s, i, lookup);
    }
  }

  predicate Inherits(t: Token) { t.Reference? && IsInherited(t.name) }

  /** No reference names an inherited property. */
  ghost predicate OwnNames(s: string, i: nat) {
    forall k :: 0 <= k < |Split(s, i)| ==> !Inherits(Split(s, i)[k])
  }

  /** On portable inputs without inherited names both give the same text in every environment. */
  lemma {:induction false} PortableInputsAgree(s: string, env: Environments)
    requires Portable(s, 0) && OwnNames(s, 0)
    ensures RustFrom(s, 0, AgentLookup(env)) == TsFrom(s, 0, HubLookup(env))
  {
    var tokens := Split(s, 0);
    forall k | 0 <= k < |tokens| && tokens[k].Reference? ensures AgentLookup(env)(tokens[k].name) == HubLookup(env)(tokens[k].name) {
      assert !Inherits(tokens[k]);
      LookupsAgree(env, tokens[k].name);
    }
    OnlyReferencesMatter(s, 0, AgentLookup(env), HubLookup(env));
    SharedLookupAgrees(s, 0, HubLookup(env));
  }

  /** A condition on positions, without splitting: every `${` opens an identifier
      reference, and backslashes come in runs of one or two right before one. */
  ghost predicate Tidy(s: string) {
    && (forall i: nat :: OpensReference(s, i) ==> MatchReference(s, i).Some?)
    && (forall i: nat :: IsBackslash(s, i) ==>
          MatchReference(s, i + 1).Some? || (IsBackslash(s, i + 1) && MatchReference(s, i + 2).Some?))
  }

  lemma {:induction false} TidyIsPortable(s: string, i: nat)
    requires Tidy(s)
    ensures Portable(s, i)
    decreases |s| - i
  {
    if i < |s| {
      MatchIsIdentifierReference(s, i);
      MatchIsIdentifierReference(s, i + 1);
      TidyIsPortable(s, Next(s, i));
    }
  }

  lemma TidyInputsAgree(s: string, env: Environments)
    requires Tidy(s) && OwnNames(s, 0)
    ensures RustFrom(s, 0, AgentLookup(env)) == TsFrom(s, 0, HubLookup(env))
  {
    TidyIsPortable(s, 0);
    PortableInputsAgree(s, env);
  }

  // ----- when they do not

  /** No value, and no literal kept for one, starts with a backslash. */
  ghost predicate Quiet(lookup: Lookup) {
    forall name :: Value(name, lookup) != "" && Value(name, lookup)[0] != '\\'
  }

  lemma EmptyIsQuiet()
    ensures Quiet(AgentLookup(EMPTY)) && Quiet(HubLookup(EMPTY))
  {
  }

  function Leading(out: string): nat {
    if out != "" && out[0] == '\\' then 1 + Leading(out[1..]) else 0
  }

  lemma LeadingPrepends(c: char, out: string)
    ensures Leading([c] + out) == if c == '\\' then 1 + Leading(out) else 0
  {
    assert ([c] + out)[1..] == out;
  }

  /** Length of the run of backslashes at `i`. */
  function BackslashRun(s: string, i: nat): (n: nat)
    ensures n > 0 ==> IsBackslash(s, i)
    decreases |s| - i
  {
    if IsBackslash(s, i) then 1 + BackslashRun(s, i + 1) else 0
  }

  lemma LeadingOfText(a: string, b: string)
    requires a != "" && a[0] != '\\'
    ensures Leading(a + b) == 0
  {
  }

  lemma RunUnfolds(s: string, i: nat)
    ensures BackslashRun(s, i) == if IsBackslash(s, i) then 1 + BackslashRun(s, i + 1) else 0
  {
  }

  lemma RustLeadingOfPair(s: string, i: nat, lookup: Lookup)
    requires Quiet(lookup)
    requires IsBackslash(s, i) && IsBackslash(s, i + 1)
    ensures BackslashRun(s, i) == 2 + BackslashRun(s, i + 2)
    ensures Leading(RustFrom(s, i, lookup)) == 1 + Leading(RustFrom(s, i + 2, lookup))
  {
    RunUnfolds(s, i);
    RunUnfolds(s, i + 1);
    RustPair(s, i, lookup);
    LeadingPrepends('\\', RustFrom(s, i + 2, lookup));
  }

  lemma RustLeadingOfText(s: string, i: nat, lookup: Lookup)
    requires Quiet(lookup)
    requires !IsBackslash(s, i)
    ensures Leading(RustFrom(s, i, lookup)) == 0
  {
    if i < |s| { LeadingOfText(RenderToken(TokenAt(s, i), lookup), RustFrom(s, Next(s, i), lookup)); }
  }

  lemma RustLeadingOfOne(s: string, i: nat, lookup: Lookup)
    requires Quiet(lookup)
    requires IsBackslash(s, i) && !IsBackslash(s, i + 1)
    ensures Leading(RustFrom(s, i, lookup)) <= 1
    ensures MatchReference(s, i + 1).Some? ==> Leading(RustFrom(s, i, lookup)) == 0
  {
    hide RustFrom, Leading;
    RustStep(s, i, lookup);
    if MatchReference(s, i + 1).Some? { MatchCloses(s, i + 1); }
    hide MatchReference, FindClose;
    if TokenAt(s, i).Plain? {
      RustLeadingOfText(s, i + 1, lookup);
      LeadingPrepends('\\', RustFrom(s, i + 1, lookup));
    } else {
      LeadingOfText(RenderToken(TokenAt(s, i), lookup), RustFrom(s, Next(s, i), lookup));
    }
  }

  /** The agent halves a run of backslashes. */
  lemma {:induction false} RustLeading(s: string, i: nat, lookup: Lookup)
    requires Quiet(lookup)
    ensures Leading(RustFrom(s, i, lookup)) <= (BackslashRun(s, i) + 1) / 2
    ensures MatchReference(s, i + BackslashRun(s, i)).Some? ==> Leading(RustFrom(s, i, lookup)) == BackslashRun(s, i) / 2
    decreases |s| - i
  {
    hide RustFrom, Leading, MatchReference;
    RunUnfolds(s, i);
    RunUnfolds(s, i + 1);
    if IsBackslash(s, i) && IsBackslash(s, i + 1) {
      RustLeadingOfPair(s, i, lookup);
      RustLeading(s, i + 2, lookup);
    } else if IsBackslash(s, i) {
      RustLeadingOfOne(s, i, lookup);
    } else {
      RustLeadingOfText(s, i, lookup);
    }
  }

  lemma TsLeadingOfText(s: string, i: nat, lookup: Lookup)
    requires Quiet(lookup)
    requires !IsBackslash(s, i)
    ensures Leading(TsFrom(s, i, lookup)) == 0
  {
    if i < |s| {
      if MatchReference(s, i).Some? {
        var e := MatchReference(s, i).value;
        LeadingOfText(Value(s[i + 2..e], lookup), TsFrom(s, e + 1, lookup));
      } else {
        LeadingOfText([s[i]], TsFrom(s, i + 1, lookup));
      }
    }
  }

  lemma TsLeadingOfEscape(s: string, i: nat, lookup: Lookup)
    requires Quiet(lookup)
    requires IsBackslash(s, i) && MatchReference(s, i + 1).Some?
    ensures BackslashRun(s, i) == 1 && Leading(TsFrom(s, i, lookup)) == 0
  {
    RunUnfolds(s, i);
    RunUnfolds(s, i + 1);
    var e := MatchReference(s, i + 1).value;
    LeadingOfText("${" + s[i + 3..e] + "}", TsFrom(s, e + 1, lookup));
  }

  lemma TsLeadingOfOther(s: string, i: nat, lookup: Lookup)
    requires Quiet(lookup)
    requires IsBackslash(s, i) && MatchReference(s, i + 1) == None
    requires !(IsBackslash(s, i + 1) && MatchReference(s, i + 2).Some?)
    ensures Leading(TsFrom(s, i, lookup)) == 1 + Leading(TsFrom(s, i + 1, lookup))
  {
    LeadingPrepends('\\', TsFrom(s, i + 1, lookup));
  }

  /** The hub keeps a run of backslashes, except that one goes before a reference. */
  lemma {:induction false} TsLeading(s: string, i: nat, lookup: Lookup)
    requires Quiet(lookup)
    ensures Leading(TsFrom(s, i, lookup)) ==
            if MatchReference(s, i + BackslashRun(s, i)).Some? && BackslashRun(s, i) > 0 then BackslashRun(s, i) - 1 else BackslashRun(s, i)
    decreases |s| - i
  {
    hide TsFrom, Leading, MatchReference;
    RunUnfolds(s, i);
    RunUnfolds(s, i + 1);
    if !IsBackslash(s, i) {
      TsLeadingOfText(s, i, lookup);
    } else if MatchReference(s, i + 1).Some? {
      TsLeadingOfEscape(s, i, lookup);
    } else if IsBackslash(s, i + 1) && MatchReference(s, i + 2).Some? {
      TsLeadingOfPair(s, i, lookup);
    } else {
      TsLeadingOfOther(s, i, lookup);
      TsLeading(s, i + 1, lookup);
    }
  }

  lemma RunOfPair(s: string, i: nat)
    requires IsBackslash(s, i) && IsBackslash(s, i + 1) && MatchReference(s, i + 2).Some?
    ensures BackslashRun(s, i) == 2
  {
    RunUnfolds(s, i);
    RunUnfolds(s, i + 1);
    RunUnfolds(s, i + 2);
  }

  lemma LeadingOfOne(text: string, value: string, rest: string)
    requires text == "\\" + (value + rest) && value != "" && value[0] != '\\'
    ensures Leading(text) == 1
  {
    LeadingPrepends('\\', value + rest);
    LeadingOfText(value, rest);
  }

  lemma TsLeadingOfPair(s: string, i: nat, lookup: Lookup)
    requires Quiet(lookup)
    requires IsBackslash(s, i) && IsBackslash(s, i + 1) && MatchReference(s, i + 2).Some?
    ensures BackslashRun(s, i) == 2 && Leading(TsFrom(s, i, lookup)) == 1
  {
    hide TsFrom, MatchReference, Value, Leading, BackslashRun;
    RunOfPair(s, i);
    TsPairUnfolds(s, i, lookup);
    var e := MatchReference(s, i + 2).value;
    LeadingOfOne(TsFrom(s, i, lookup), Value(s[i + 4..e], lookup), TsFrom(s, e + 1, lookup));
  }

  // ----- the exact condition

  lemma PairWithoutReferenceDiffers(s: string, i: nat)
    requires i < |s| && TokenAt(s, i) == Pair && MatchReference(s, i + 2) == None
    ensures RustFrom(s, i, AgentLookup(EMPTY)) != TsFrom(s, i, HubLookup(EMPTY))
  {
    EmptyIsQuiet();
    hide RustFrom, TsFrom, Leading, MatchReference, Quiet;
    RustLeading(s, i, AgentLookup(EMPTY));
    TsLeading(s, i, HubLookup(EMPTY));
    RunUnfolds(s, i);
    RunUnfolds(s, i + 1);
  }

  lemma BadEscapeDiffers(s: string, i: nat, agent: Lookup, hub: Lookup)
    requires i < |s| && TokenAt(s, i).Escaped? && !IsIdentifier(TokenAt(s, i).name)
    ensures RustFrom(s, i, agent) != TsFrom(s, i, hub)
  {
    MatchIsIdentifierReference(s, i + 1);
    assert RustFrom(s, i, agent)[0] == '$';
    assert TsFrom(s, i, hub)[0] == '\\';
  }

  lemma BadReferenceDiffers(s: string, i: nat, agent: Lookup, hub: Lookup)
    requires i < |s| && TokenAt(s, i).Reference? && !IsIdentifier(TokenAt(s, i).name)
    requires agent(TokenAt(s, i).name) == Some("x")
    ensures RustFrom(s, i, agent) != TsFrom(s, i, hub)
  {
    MatchIsIdentifierReference(s, i);
    assert RustFrom(s, i, agent)[0] == 'x';
    assert TsFrom(s, i, hub)[0] == '$';
  }

  lemma BadItemDiffers(s: string, i: nat) returns (env: Environments)
    requires i < |s| && !ItemOk(s, i)
    ensures RustFrom(s, i, AgentLookup(env)) != TsFrom(s, i, HubLookup(env))
  {
    env := EMPTY;
    match TokenAt(s, i) {
      case Pair => PairWithoutReferenceDiffers(s, i);
      case Escaped(_) => BadEscapeDiffers(s, i, AgentLookup(env), HubLookup(env));
      case Reference(name) =>
        env := Environments(Some(map[name := "x"]), map[]);
        BadReferenceDiffers(s, i, AgentLookup(env), HubLookup(env));
    }
  }

  /** The token of an item that may be a reference. */
  function ItemToken(s: string, i: nat): Token
    requires i < |s| && ItemOk(s, i)
  {
    if TokenAt(s, i) == Pair then PairThenReference(s, i); TokenAt(s, i + 2) else TokenAt(s, i)
  }

  lemma OwnNamesUnfold(s: string, i: nat)
    requires i < |s|
    ensures OwnNames(s, i) <==> !Inherits(TokenAt(s, i)) && OwnNames(s, Next(s, i))
  {
    hide TokenAt, Next, Inherits;
    var later := Split(s, Next(s, i));
    assert Split(s, i) == [TokenAt(s, i)] + later;
    hide Split;
    forall k | 0 <= k < |later| ensures later[k] == Split(s, i)[k + 1] { }
    if OwnNames(s, i) { assert !Inherits(Split(s, i)[0]); }
  }

  lemma OwnNamesByItem(s: string, i: nat)
    requires i < |s| && ItemOk(s, i)
    ensures OwnNames(s, i) <==> !Inherits(ItemToken(s, i)) && OwnNames(s, NextItem(s, i))
  {
    hide OwnNames;
    OwnNamesUnfold(s, i);
    if TokenAt(s, i) == Pair {
      PairThenReference(s, i);
      OwnNamesUnfold(s, i + 2);
    }
  }

  /** With empty environments the agent keeps the reference and the hub inserts the inherited text. */
  lemma InheritedValues(name: string)
    requires IsInherited(name)
    ensures Value(name, AgentLookup(EMPTY)) == "${" + name + "}"
    ensures Some(Value(name, HubLookup(EMPTY))) == InheritedText(name)
  {
    hide IsInherited;
  }

  lemma DifferentStarts(a: string, restA: string, b: string, restB: string)
    requires a != "" && b != "" && a[0] != b[0]
    ensures a + restA != b + restB && "\\" + a + restA != "\\" + b + restB
  {
    assert (a + restA)[0] == a[0] && (b + restB)[0] == b[0];
    assert ("\\" + a + restA)[1] == a[0] && ("\\" + b + restB)[1] == b[0];
  }

  lemma InheritedItemDiffers(s: string, i: nat)
    requires i < |s| && ItemOk(s, i) && Inherits(ItemToken(s, i))
    ensures RustFrom(s, i, AgentLookup(EMPTY)) != TsFrom(s, i, HubLookup(EMPTY))
  {
    hide RustFrom, TsFrom, AgentLookup, HubLookup, IsInherited, InheritedText, Value, MatchReference, FindClose;
    CommonStep(s, i, AgentLookup(EMPTY));
    CommonStep(s, i, HubLookup(EMPTY));
    var name := ItemToken(s, i).name;
    InheritedValues(name);
    var next := NextItem(s, i);
    DifferentStarts(Value(name, AgentLookup(EMPTY)), RustFrom(s, next, AgentLookup(EMPTY)),
                    Value(name, HubLookup(EMPTY)), TsFrom(s, next, HubLookup(EMPTY)));
  }

  lemma OwnItemIsSame(s: string, i: nat, env: Environments)
    requires i < |s| && ItemOk(s, i) && !Inherits(ItemToken(s, i))
    ensures ItemPiece(s, i, AgentLookup(env)) == ItemPiece(s, i, HubLookup(env))
  {
    hide AgentLookup, HubLookup, IsInherited;
    var t := ItemToken(s, i);
    if TokenAt(s, i) == Pair { PairThenReference(s, i); }
    if t.Reference? { LookupsAgree(env, t.name); }
  }

  /** Outputs that differ after the same piece differ. */
  lemma PieceKeepsDifference(piece: string, agent: string, hub: string)
    requires agent != hub
    ensures piece + agent != piece + hub
  {
    assert (piece + agent)[|piece|..] == agent && (piece + hub)[|piece|..] == hub;
  }

  lemma InputsEnd(s: string, i: nat)
    requires i >= |s|
    ensures Portable(s, i) && OwnNames(s, i)
  {
  }

  /** On every other input some environment tells the expanders apart. */
  lemma {:induction false} OtherInputsDiffer(s: string, i: nat) returns (env: Environments)
    requires !(Portable(s, i) && OwnNames(s, i))
    ensures RustFrom(s, i, AgentLookup(env)) != TsFrom(s, i, HubLookup(env))
    decreases |s| - i
  {
    hide RustFrom, TsFrom, Inherits, OwnNames, ItemOk, AgentLookup, HubLookup;
    if i >= |s| { InputsEnd(s, i); }
    PortableByItem(s, i);
    if !ItemOk(s, i) {
      env := BadItemDiffers(s, i);
    } else {
      OwnNamesByItem(s, i);
      if Inherits(ItemToken(s, i)) {
        env := EMPTY;
        InheritedItemDiffers(s, i);
      } else {
        var next := NextItem(s, i);
        env := OtherInputsDiffer(s, next);
        CommonStep(s, i, AgentLookup(env));
        CommonStep(s, i, HubLookup(env));
        OwnItemIsSame(s, i, env);
        PieceKeepsDifference(ItemPiece(s, i, HubLookup(env)), RustFrom(s, next, AgentLookup(env)), TsFrom(s, next, HubLookup(env)));
      }
    }
  }

  /** The two expanders agree in every environment exactly on the portable inputs none
      of whose references names an inherited property. */
  lemma {:induction false} ExpandersAgreeExactly(s: string)
    ensures (forall env :: RustFrom(s, 0, AgentLookup(env)) == TsFrom(s, 0, HubLookup(env))) <==> Portable(s, 0) && OwnNames(s, 0)
  {
    if Portable(s, 0) && OwnNames(s, 0) {
      forall env ensures RustFrom(s, 0, AgentLookup(env)) == TsFrom(s, 0, HubLookup(env)) { PortableInputsAgree(s, env); }
    } else {
      var env := OtherInputsDiffer(s, 0);
    }
  }

  lemma WholeReference(s: string, name: string, lookup: Lookup)
    requires s == "${" + name + "}" && IsIdentifier(name)
    ensures Portable(s, 0)
    ensures RustFrom(s, 0, lookup) == TsFrom(s, 0, lookup) == Value(name, lookup)
  {
    var close := 2 + |name|;
    forall k | 2 <= k < close ensures s[k] != '}' { assert s[k] == name[k - 2]; }
    CloseIs(s, 2, close);
    assert s[2..close] == name;
    assert TokenAt(s, 0) == Reference(name) && Next(s, 0) == |s|;
    ReferenceStep(s, 0, lookup);
    assert Value(name, lookup) + "" == Value(name, lookup);
  }

  lemma ToStringIsInherited()
    ensures IsInherited("toString") && InheritedText("toString") == Some("function toString() { [native code] }")
  {
    assert "toString"[0] != "__proto__"[0] && "toString"[0] != "constructor"[0];
    assert "function " + "toString" + "() { [native code] }" == "function toString() { [native code] }";
  }

  /** For example `${toString}`, portable as it is. */
  lemma InheritedNameDiffers()
    ensures Portable("${toString}", 0)
    ensures RustFrom("${toString}", 0, AgentLookup(EMPTY)) == "${toString}"
    ensures TsFrom("${toString}", 0, HubLookup(EMPTY)) == "function toString() { [native code] }"
  {
    var name := "toString";
    assert "${toString}" == "${" + name + "}";
    ToStringIsInherited();
    hide RustFrom, TsFrom, Portable, IsInherited, InheritedText, AgentLookup, HubLookup;
    InheritedValues(name);
    WholeReference("${toString}", "toString", AgentLookup(EMPTY));
    WholeReference("${toString}", "toString", HubLookup(EMPTY));
  }
}

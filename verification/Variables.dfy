/**
 `SubstituteVariables` and `ExtractVariables`: placeholders `${NAME}` and `${NAME:-default}`.

 The regular expression is modelled by a matcher that is proved to accept exactly the strings
 of that form; replacing is leftmost and non-overlapping.
 */
module Variables {
  import opened Sequences
  import opened Services
  import opened Wrappers

  // ----- The placeholder pattern

  predicate IsNameStart(c: char) {
    'A' <= c <= 'Z' || 'a' <= c <= 'z' || c == '_'
  }

  predicate IsNameChar(c: char) {
    IsNameStart(c) || '0' <= c <= '9'
  }

  predicate IsName(s: string) {
    s != "" && IsNameStart(s[0]) && forall i :: 0 <= i < |s| ==> IsNameChar(s[i])
  }

  predicate IsDefault(d: Option<string>) {
    d.Some? ==> '}' !in d.value
  }

  function Suffix(d: Option<string>): string {
    if d.None? then "}" else ":-" + d.value + "}"
  }

  function Placeholder(name: string, d: Option<string>): string {
    "${" + name + Suffix(d)
  }

  datatype Match = Match(name: string, default: Option<string>, length: nat)

  /** How many characters of the class come first. */
  function NameLength(s: string): (n: nat)
    ensures n <= |s| && (forall i :: 0 <= i < n ==> IsNameChar(s[i])) && (n < |s| ==> !IsNameChar(s[n]))
  {
    if s != "" && IsNameChar(s[0]) then 1 + NameLength(s[1..]) else 0
  }

  function BraceIndex(s: string): (n: nat)
    ensures n <= |s| && '}' !in s[..n] && (n < |s| ==> s[n] == '}')
  {
    if s == "" || s[0] == '}' then 0
    else
      assert s[..1 + BraceIndex(s[1..])] == [s[0]] + s[1..][..BraceIndex(s[1..])];
      1 + BraceIndex(s[1..])
  }

  /** The optional default and the closing brace, at the start of `s`. */
  function MatchSuffix(s: string): Option<(Option<string>, nat)> {
    if s == "" then None
    else if s[0] == '}' then Some((None, 1))
    else if |s| >= 2 && s[..2] == ":-" then
      var k := BraceIndex(s[2..]);
      if k < |s[2..]| then Some((Some(s[2..][..k]), k + 3)) else None
    else None
  }

  /** A match of the pattern at the start of `s`. */
  function MatchPlaceholder(s: string): (r: Option<Match>)
    ensures r.Some? ==> 0 < r.value.length <= |s|
  {
    if |s| < 3 || s[..2] != "${" || !IsNameStart(s[2]) then None
    else
      var n := NameLength(s[2..]);
      match MatchSuffix(s[2 + n..])
      case None => None
      case Some((d, k)) => Some(Match(s[2..2 + n], d, 2 + n + k))
  }

  predicate StartsWith(s: string, t: string) {
    |t| <= |s| && s[..|t|] == t
  }

  lemma {:induction false} NameLengthIs(name: string, rest: string)
    requires forall i :: 0 <= i < |name| ==> IsNameChar(name[i])
    requires rest != "" ==> !IsNameChar(rest[0])
    ensures NameLength(name + rest) == |name|
  {
    if name != "" {
      assert (name + rest)[1..] == name[1..] + rest;
      NameLengthIs(name[1..], rest);
    } else {
      assert name + rest == rest;
    }
  }

  lemma {:induction false} BraceIndexIs(d: string, rest: string)
    requires '}' !in d
    ensures BraceIndex(d + "}" + rest) == |d|
  {
    if d != "" {
      assert (d + "}" + rest)[1..] == d[1..] + "}" + rest;
      BraceIndexIs(d[1..], rest);
    }
  }

  lemma SuffixMatches(d: Option<string>, rest: string)
    requires IsDefault(d)
    ensures MatchSuffix(Suffix(d) + rest) == Some((d, |Suffix(d)|))
  {
    if d.Some? {
      var s := Suffix(d) + rest;
      assert s[..2] == ":-" && s[2..] == d.value + "}" + rest;
      BraceIndexIs(d.value, rest);
      assert s[2..][..|d.value|] == d.value;
    }
  }

  lemma MatchedSuffix(s: string)
    ensures match MatchSuffix(s)
            case None => true
            case Some((d, k)) => IsDefault(d) && k == |Suffix(d)| && StartsWith(s, Suffix(d))
  {
    if s != "" && s[0] != '}' && |s| >= 2 && s[..2] == ":-" {
      var k := BraceIndex(s[2..]);
      if k < |s[2..]| {
        assert s[..k + 3] == s[..2] + s[2..][..k] + [s[2..][k]];
      }
    }
  }

  lemma PlaceholderMatches(name: string, d: Option<string>, rest: string)
    requires IsName(name) && IsDefault(d)
    ensures MatchPlaceholder(Placeholder(name, d) + rest) == Some(Match(name, d, |Placeholder(name, d)|))
  {
    SuffixMatches(d, rest);
    Associate("${" + name, Suffix(d), rest);
    MatchNameAndSuffix(Placeholder(name, d) + rest, name, Suffix(d) + rest);
  }

  lemma MatchNameAndSuffix(s: string, name: string, tail: string)
    requires s == "${" + name + tail
    requires IsName(name) && tail != "" && !IsNameChar(tail[0]) && MatchSuffix(tail).Some?
    ensures MatchPlaceholder(s) == Some(Match(name, MatchSuffix(tail).value.0, 2 + |name| + MatchSuffix(tail).value.1))
  {
    assert s[..2] == "${" && s[2] == name[0] && s[2..] == name + tail;
    NameLengthIs(name, tail);
    assert s[2..2 + |name|] == name && s[2 + |name|..] == tail;
  }

  lemma TakeBoth(s: string, i: nat, n: nat)
    requires i + n <= |s|
    ensures s[..i + n] == s[..i] + s[i..i + n] && s[i..i + n] == s[i..][..n]
  {
  }

  lemma MatchedPlaceholder(s: string)
    requires MatchPlaceholder(s).Some?
    ensures var m := MatchPlaceholder(s).value;
            IsName(m.name) && IsDefault(m.default) && m.length == |Placeholder(m.name, m.default)|
            && StartsWith(s, Placeholder(m.name, m.default))
  {
    var m := MatchPlaceholder(s).value;
    var n := NameLength(s[2..]);
    MatchedSuffix(s[2 + n..]);
    assert m.name[0] == s[2];
    TakeBoth(s, 2, n);
    TakeBoth(s, 2 + n, |Suffix(m.default)|);
  }

  /** The matcher finds a placeholder exactly when the text starts with one, and reads it correctly. */
  lemma MatcherIsExact(s: string, name: string, d: Option<string>)
    ensures MatchPlaceholder(s) == Some(Match(name, d, |Placeholder(name, d)|))
       <==> IsName(name) && IsDefault(d) && StartsWith(s, Placeholder(name, d))
  {
    if MatchPlaceholder(s) == Some(Match(name, d, |Placeholder(name, d)|)) {
      MatchedPlaceholder(s);
    }
    if IsName(name) && IsDefault(d) && StartsWith(s, Placeholder(name, d)) {
      SplitAt(s, |Placeholder(name, d)|);
      PlaceholderMatches(name, d, s[|Placeholder(name, d)|..]);
    }
  }

  lemma SplitAt(s: string, i: nat)
    requires i <= |s|
    ensures s == s[..i] + s[i..]
  {
  }

  // ----- Substitution as written

  /** The leftmost match anywhere in `s`. */
  function FindMatch(s: string): Option<Match> {
    if s == "" then None
    else if MatchPlaceholder(s).Some? then MatchPlaceholder(s)
    else FindMatch(s[1..])
  }

  predicate Contains(s: string, t: string) {
    StartsWith(s, t) || (s != "" && Contains(s[1..], t))
  }

  /** The callback: looks at the matched text again, with an unmatched group read as empty. */
  function Replacement(text: string, variables: map<string, string>): string {
    match FindMatch(text)
    case None => text
    case Some(m) =>
      var group := if m.default.Some? then m.default.value else "";
      if m.name in variables then variables[m.name]
      else if group != "" then group
      else if |text| > |m.name| + 4 && Contains(text, "${" + m.name + ":-}") then ""
      else text
  }

  function SubstituteVariables(value: string, variables: map<string, string>): string {
    if value == "" then ""
    else
      match MatchPlaceholder(value)
      case Some(m) => Replacement(value[..m.length], variables) + SubstituteVariables(value[m.length..], variables)
      case None => value[..1] + SubstituteVariables(value[1..], variables)
  }

  // ----- Tokens

  datatype Token = Text(c: char) | Var(name: string, default: Option<string>)

  function Tokenise(s: string): seq<Token> {
    if s == "" then []
    else
      match MatchPlaceholder(s)
      case Some(m) => [Var(m.name, m.default)] + Tokenise(s[m.length..])
      case None => [Text(s[0])] + Tokenise(s[1..])
  }

  function PrintToken(t: Token): string {
    match t
    case Text(c) => [c]
    case Var(name, d) => Placeholder(name, d)
  }

  function Print(ts: seq<Token>): string {
    if ts == [] then "" else PrintToken(ts[0]) + Print(ts[1..])
  }

  /** A variable that is set wins over the default; without either the placeholder stays. */
  function RenderToken(t: Token, variables: map<string, string>): string {
    match t
    case Text(c) => [c]
    case Var(name, d) =>
      if name in variables then variables[name]
      else if d.Some? then d.value
      else Placeholder(name, d)
  }

  function Render(ts: seq<Token>, variables: map<string, string>): string {
    if ts == [] then "" else RenderToken(ts[0], variables) + Render(ts[1..], variables)
  }

  lemma MatchSplits(s: string)
    requires MatchPlaceholder(s).Some?
    ensures var m := MatchPlaceholder(s).value; s == Placeholder(m.name, m.default) + s[m.length..]
  {
    MatchedPlaceholder(s);
  }

  lemma PrintFirst(t: Token, ts: seq<Token>)
    ensures Print([t] + ts) == PrintToken(t) + Print(ts)
  {
    assert ([t] + ts)[1..] == ts;
  }

  /** Tokenising loses nothing. */
  lemma {:induction false} PrintedTokensGiveBackTheInput(s: string)
    ensures Print(Tokenise(s)) == s
    decreases |s|
  {
    if s != "" {
      match MatchPlaceholder(s) {
        case Some(m) =>
          MatchSplits(s);
          PrintedTokensGiveBackTheInput(s[m.length..]);
          PrintFirst(Var(m.name, m.default), Tokenise(s[m.length..]));
        case None =>
          PrintedTokensGiveBackTheInput(s[1..]);
          PrintFirst(Text(s[0]), Tokenise(s[1..]));
          assert s == [s[0]] + s[1..];
      }
    }
  }

  /** Looking at a matched text again finds the same match. */
  lemma MatchReadAgain(s: string)
    requires MatchPlaceholder(s).Some?
    ensures var m := MatchPlaceholder(s).value;
            s[..m.length] == Placeholder(m.name, m.default) && FindMatch(s[..m.length]) == Some(m)
  {
    var m := MatchPlaceholder(s).value;
    MatchedPlaceholder(s);
    MatcherIsExact(s[..m.length], m.name, m.default);
  }

  lemma ContainsItself(s: string)
    ensures Contains(s, s)
  {
    assert s[..|s|] == s;
  }

  lemma ReplacementIsRendering(s: string, variables: map<string, string>)
    requires MatchPlaceholder(s).Some?
    ensures var m := MatchPlaceholder(s).value;
            Replacement(s[..m.length], variables) == RenderToken(Var(m.name, m.default), variables)
  {
    var m := MatchPlaceholder(s).value;
    MatchReadAgain(s);
    if m.default == Some("") {
      ContainsItself("${" + m.name + ":-}");
      assert s[..m.length] == "${" + m.name + ":-}";
    }
  }

  function FirstToken(value: string): Token
    requires value != ""
  {
    match MatchPlaceholder(value)
    case Some(m) => Var(m.name, m.default)
    case None => Text(value[0])
  }

  function AfterFirst(value: string): (rest: string)
    requires value != ""
    ensures |rest| < |value|
  {
    match MatchPlaceholder(value)
    case Some(m) => value[m.length..]
    case None => value[1..]
  }

  lemma TokeniseFirst(value: string)
    requires value != ""
    ensures Tokenise(value) == [FirstToken(value)] + Tokenise(AfterFirst(value))
    ensures FirstToken(value).Var? ==> IsName(FirstToken(value).name)
  {
    if MatchPlaceholder(value).Some? {
      MatchedPlaceholder(value);
    }
  }

  lemma SubstituteFirst(value: string, variables: map<string, string>)
    requires value != ""
    ensures SubstituteVariables(value, variables)
         == RenderToken(FirstToken(value), variables) + SubstituteVariables(AfterFirst(value), variables)
  {
    if MatchPlaceholder(value).Some? {
      ReplacementIsRendering(value, variables);
    } else {
      assert value[..1] == [value[0]];
    }
  }

  lemma RenderFirst(t: Token, ts: seq<Token>, variables: map<string, string>)
    ensures Render([t] + ts, variables) == RenderToken(t, variables) + Render(ts, variables)
  {
    assert ([t] + ts)[1..] == ts;
  }

  /** Substitution renders each token of the value once: replaced text is never looked at again. */
  lemma {:induction false} SubstitutionRendersTokens(value: string, variables: map<string, string>)
    ensures SubstituteVariables(value, variables) == Render(Tokenise(value), variables)
    decreases |value|
  {
    if value != "" {
      SubstitutionRendersTokens(AfterFirst(value), variables);
      SubstituteFirst(value, variables);
      TokeniseFirst(value);
      RenderFirst(FirstToken(value), Tokenise(AfterFirst(value)), variables);
    }
  }

  // ----- Substitution in the text

  /** A letter or an underscore, then letters, digits and underscores. */
  predicate LooksLikeName(s: string) {
    && s != "" && !('0' <= s[0] <= '9')
    && forall i :: 0 <= i < |s| ==>
         'A' <= s[i] <= 'Z' || 'a' <= s[i] <= 'z' || s[i] == '_' || '0' <= s[i] <= '9'
  }

  lemma NamesLookLikeNames(s: string)
    ensures IsName(s) <==> LooksLikeName(s)
  {
  }

  /** A placeholder at the front becomes the value of its variable, or else its default, or else stays. */
  lemma PlaceholderIsReplaced(name: string, default: string, rest: string, variables: map<string, string>)
    requires LooksLikeName(name) && '}' !in default
    ensures SubstituteVariables("${" + name + "}" + rest, variables)
         == (if name in variables then variables[name] else "${" + name + "}") + SubstituteVariables(rest, variables)
    ensures SubstituteVariables("${" + name + (":-" + default + "}") + rest, variables)
         == (if name in variables then variables[name] else default) + SubstituteVariables(rest, variables)
  {
    NamesLookLikeNames(name);
    PlaceholderInFront(name, None, rest, variables);
    PlaceholderInFront(name, Some(default), rest, variables);
  }

  lemma PlaceholderInFront(name: string, d: Option<string>, rest: string, variables: map<string, string>)
    requires IsName(name) && IsDefault(d)
    ensures SubstituteVariables(Placeholder(name, d) + rest, variables)
         == RenderToken(Var(name, d), variables) + SubstituteVariables(rest, variables)
  {
    var s := Placeholder(name, d) + rest;
    PlaceholderMatches(name, d, rest);
    ReplacementIsRendering(s, variables);
    assert s[|Placeholder(name, d)|..] == rest;
  }

  /** A character at which no placeholder starts stays. */
  lemma OtherTextStays(s: string, variables: map<string, string>)
    requires s != ""
    requires forall name, d :: LooksLikeName(name) && IsDefault(d) ==> !StartsWith(s, Placeholder(name, d))
    ensures SubstituteVariables(s, variables) == s[..1] + SubstituteVariables(s[1..], variables)
  {
    if MatchPlaceholder(s).Some? {
      MatchedPlaceholder(s);
      NamesLookLikeNames(MatchPlaceholder(s).value.name);
    }
  }

  // ----- A second substitution

  /** Substituting the result once more changes nothing. */
  ghost predicate Idempotent(value: string, variables: map<string, string>) {
    SubstituteVariables(SubstituteVariables(value, variables), variables) == SubstituteVariables(value, variables)
  }

  lemma NoMatchHere(s: string)
    requires s != "" && (s[0] == '$' ==> |s| > 2 && !IsNameStart(s[2]))
    ensures MatchPlaceholder(s).None?
  {
    assert |s| >= 2 ==> s[..2][0] == s[0];
  }

  lemma UnmatchedStays(c: char, rest: string, variables: map<string, string>)
    requires MatchPlaceholder([c] + rest).None?
    ensures SubstituteVariables([c] + rest, variables) == [c] + SubstituteVariables(rest, variables)
  {
    assert ([c] + rest)[..1] == [c] && ([c] + rest)[1..] == rest;
  }

  lemma CharacterStays(c: char, rest: string, variables: map<string, string>)
    requires c == '$' ==> |rest| > 1 && !IsNameStart(rest[1])
    ensures SubstituteVariables([c] + rest, variables) == [c] + SubstituteVariables(rest, variables)
  {
    NoMatchHere([c] + rest);
    UnmatchedStays(c, rest, variables);
  }

  lemma {:induction false} PlainTextStays(text: string, rest: string, variables: map<string, string>)
    requires '$' !in text
    ensures SubstituteVariables(text + rest, variables) == text + SubstituteVariables(rest, variables)
  {
    if text == "" {
      assert text + rest == rest;
    } else {
      var c, more := text[0], text[1..];
      PlainTextStays(more, rest, variables);
      CharacterStays(c, more + rest, variables);
      Associate([c], more, rest);
      Associate([c], more, SubstituteVariables(rest, variables));
      assert text == [c] + more;
    }
  }

  /** What stands in the result for the token holds no dollar sign, except for a placeholder that stays. */
  predicate DollarFree(t: Token, variables: map<string, string>) {
    match t
    case Text(c) => c != '$'
    case Var(name, d) => '$' !in (if name in variables then variables[name] else if d.Some? then d.value else "")
  }

  lemma RenderedTokenStays(t: Token, rest: string, variables: map<string, string>)
    requires DollarFree(t, variables) && (t.Var? ==> IsName(t.name))
    ensures SubstituteVariables(RenderToken(t, variables) + rest, variables)
         == RenderToken(t, variables) + SubstituteVariables(rest, variables)
  {
    if t.Var? && t.name !in variables && t.default.None? {
      PlaceholderInFront(t.name, None, rest, variables);
    } else {
      PlainTextStays(RenderToken(t, variables), rest, variables);
    }
  }

  /** If every dollar sign starts a placeholder and none is put in, a second substitution changes nothing. */
  lemma {:induction false} SubstitutionIsIdempotent(value: string, variables: map<string, string>)
    requires forall t :: t in Tokenise(value) ==> DollarFree(t, variables)
    ensures Idempotent(value, variables)
    decreases |value|
  {
    if value != "" {
      var t, rest := FirstToken(value), AfterFirst(value);
      TokeniseFirst(value);
      SubstituteFirst(value, variables);
      assert t in [t] + Tokenise(rest) && forall u :: u in Tokenise(rest) ==> u in [t] + Tokenise(rest);
      SubstitutionIsIdempotent(rest, variables);
      RenderedTokenStays(t, SubstituteVariables(rest, variables), variables);
    }
  }

  /** A name put between the stray `${` and `}` is a new placeholder, which a second substitution replaces. */
  lemma NestedPlaceholderIsReplacedLater(a: string, b: string, text: string)
    requires IsName(a) && IsName(b) && a != b
    ensures var variables := map[a := b, b := text];
            && SubstituteVariables("${" + (Placeholder(a, None) + "}"), variables) == Placeholder(b, None)
            && SubstituteVariables(Placeholder(b, None), variables) == text
  {
    var variables := map[a := b, b := text];
    var inner := Placeholder(a, None) + "}";
    StrayOpeningStays(inner, variables);
    PlaceholderInFront(a, None, "}", variables);
    PlaceholderInFront(b, None, "", variables);
    PlainTextStays("}", "", variables);
    assert "}" + "" == "}" && "${" + (b + "}") == Placeholder(b, None) == Placeholder(b, None) + "";
  }

  lemma StrayOpeningStays(rest: string, variables: map<string, string>)
    requires rest != "" && !IsNameStart(rest[0])
    ensures SubstituteVariables("${" + rest, variables) == "${" + SubstituteVariables(rest, variables)
  {
    CharacterStays('$', ['{'] + rest, variables);
    CharacterStays('{', rest, variables);
    TwoCharacters(rest);
    TwoCharacters(SubstituteVariables(rest, variables));
  }

  lemma TwoCharacters(rest: string)
    ensures "${" + rest == ['$'] + (['{'] + rest)
  {
  }

  /** For instance. */
  lemma SubstitutionIsNotIdempotent()
    ensures var variables := map["A" := "B", "B" := "text"];
            && SubstituteVariables("${${A}}", variables) == "${B}"
            && SubstituteVariables("${B}", variables) == "text"
            && !Idempotent("${${A}}", variables)
  {
    NestedText();
    NestedPlaceholderIsReplacedLater("A", "B", "text");
  }

  lemma NestedText()
    ensures "${" + (Placeholder("A", None) + "}") == "${${A}}" && Placeholder("B", None) == "${B}"
    ensures IsName("A") && IsName("B")
  {
  }

  // ----- Extraction

  /** The names of all matches, left to right. */
  function FindAllNames(s: string): seq<string> {
    if s == "" then []
    else
      match MatchPlaceholder(s)
      case Some(m) => [m.name] + FindAllNames(s[m.length..])
      case None => FindAllNames(s[1..])
  }

  ghost predicate Uses(services: seq<Service>, name: string) {
    exists s, k :: s in services && UsesIn(s, k, name)
  }

  ghost predicate UsesIn(s: Service, k: string, name: string) {
    k in s.environment && name in FindAllNames(s.environment[k])
  }

  /** The inner loops: the values of one environment in an arbitrary order, each match once. */
  method AddNames(vars0: seq<string>, names: seq<string>) returns (vars: seq<string>)
    requires NoDuplicates(vars0)
    ensures NoDuplicates(vars) && forall n :: n in vars <==> n in vars0 || n in names
  {
    vars := vars0;
    for i := 0 to |names|
      invariant NoDuplicates(vars) && forall n :: n in vars <==> n in vars0 || n in names[..i]
    {
      assert names[..i + 1] == names[..i] + [names[i]];
      if names[i] !in vars {
        vars := vars + [names[i]];
      }
    }
    assert names[..|names|] == names;
  }

  method AddServiceNames(vars0: seq<string>, svc: Service) returns (vars: seq<string>)
    requires NoDuplicates(vars0)
    ensures NoDuplicates(vars) && forall n :: n in vars <==> n in vars0 || exists k :: UsesIn(svc, k, n)
  {
    vars := vars0;
    var remaining := svc.environment.Keys;
    while remaining != {}
      invariant remaining <= svc.environment.Keys && NoDuplicates(vars)
      invariant forall n :: n in vars <==> n in vars0 || exists k :: k !in remaining && UsesIn(svc, k, n)
    {
      var k :| k in remaining;
      ghost var before, was := vars, remaining;
      remaining := remaining - {k};
      vars := AddNames(vars, FindAllNames(svc.environment[k]));
      forall n ensures n in vars <==> n in vars0 || exists j :: j !in remaining && UsesIn(svc, j, n) {
        assert n in FindAllNames(svc.environment[k]) <==> UsesIn(svc, k, n);
      }
    }
  }

  /** Every name used in some environment value, once. */
  method ExtractVariables(services: seq<Service>) returns (vars: seq<string>)
    ensures NoDuplicates(vars) && forall n :: n in vars <==> Uses(services, n)
  {
    vars := [];
    for i := 0 to |services|
      invariant NoDuplicates(vars) && forall n :: n in vars <==> Uses(services[..i], n)
    {
      ghost var before := vars;
      vars := AddServiceNames(vars, services[i]);
      assert services[..i + 1] == services[..i] + [services[i]];
      forall n ensures n in vars <==> Uses(services[..i + 1], n) {
        assert n in before <==> Uses(services[..i], n);
      }
    }
    assert services[..|services|] == services;
  }

  // ----- Extraction reports exactly what substitution depends on

  ghost predicate AgreeOn(a: map<string, string>, b: map<string, string>, name: string) {
    (name in a <==> name in b) && (name in a ==> a[name] == b[name])
  }

  lemma {:induction false} ResultDependsOnReportedNames(value: string, a: map<string, string>, b: map<string, string>)
    requires forall n :: n in FindAllNames(value) ==> AgreeOn(a, b, n)
    ensures SubstituteVariables(value, a) == SubstituteVariables(value, b)
    decreases |value|
  {
    if value != "" {
      match MatchPlaceholder(value) {
        case Some(m) =>
          assert m.name in FindAllNames(value);
          ReplacementIsRendering(value, a);
          ReplacementIsRendering(value, b);
          ResultDependsOnReportedNames(value[m.length..], a, b);
        case None =>
          ResultDependsOnReportedNames(value[1..], a, b);
      }
    }
  }

  /** Two variable maps that agree on the extracted names give the same result for every environment value. */
  lemma ExtractedNamesSuffice(services: seq<Service>, vars: seq<string>, a: map<string, string>, b: map<string, string>,
                              s: Service, k: string)
    requires forall n :: n in vars <==> Uses(services, n)
    requires forall n :: n in vars ==> AgreeOn(a, b, n)
    requires s in services && k in s.environment
    ensures SubstituteVariables(s.environment[k], a) == SubstituteVariables(s.environment[k], b)
  {
    forall n | n in FindAllNames(s.environment[k]) ensures AgreeOn(a, b, n) {
      assert UsesIn(s, k, n);
      assert Uses(services, n);
    }
    ResultDependsOnReportedNames(s.environment[k], a, b);
  }

  lemma {:induction false} SetVariableAppears(value: string, name: string, text: string)
    requires name in FindAllNames(value)
    ensures |SubstituteVariables(value, map[name := text])| >= |text|
    decreases |value|
  {
    match MatchPlaceholder(value) {
      case Some(m) =>
        ReplacementIsRendering(value, map[name := text]);
        if m.name != name {
          SetVariableAppears(value[m.length..], name, text);
        }
      case None =>
        SetVariableAppears(value[1..], name, text);
    }
  }

  /** No extracted name is idle: setting it changes the result of the value that uses it. */
  lemma EveryReportedNameMatters(value: string, name: string)
    requires name in FindAllNames(value)
    ensures exists text :: SubstituteVariables(value, map[name := text]) != SubstituteVariables(value, map[])
  {
    var unset := SubstituteVariables(value, map[]);
    var text := unset + "x";
    SetVariableAppears(value, name, text);
    assert SubstituteVariables(value, map[name := text]) != unset;
  }
  // ----- No value that uses a variable is safe from a second substitution

  lemma Regroup<T>(a: seq<T>, b: seq<T>, c: seq<T>, d: seq<T>, e: seq<T>, f: seq<T>)
    ensures a + b + c + (d + e + f) == a + b + (c + d + e) + f
  {
  }

  lemma SplitAtBrace(s: string) returns (d: string, rest: string)
    requires '}' in s
    ensures '}' !in d && s == d + "}" + rest
  {
    var k := BraceIndex(s);
    assert s[..|s|] == s;
    d, rest := s[..k], s[k + 1..];
  }

  /** An opened default that is closed somewhere is a match. */
  lemma ClosedDefaultMatches(name: string, s: string)
    requires IsName(name) && '}' in s
    ensures MatchPlaceholder("${" + name + ":-" + s).Some?
  {
    var d, rest := SplitAtBrace(s);
    PlaceholderMatches(name, Some(d), rest);
    Regroup("${", name, ":-", d, "}", rest);
  }

  lemma DollarInDefault(name: string, d: Option<string>, i: nat)
    requires IsName(name) && 0 < i < |Placeholder(name, d)| && Placeholder(name, d)[i] == '$'
    ensures d.Some? && i >= |"${" + name + ":-"|
  {
    var p := Placeholder(name, d);
    assert forall j :: 2 <= j < 2 + |name| ==> p[j] == name[j - 2];
    assert forall j :: 2 + |name| <= j < |p| ==> p[j] == Suffix(d)[j - 2 - |name|];
  }

  /** A placeholder that reaches into the text behind does so with its default. */
  lemma OpenDefault(a: string, y: string, name: string, d: Option<string>)
    requires a != "" && y != "" && y[0] == '$' && IsName(name)
    requires StartsWith(a + y, Placeholder(name, d)) && |a| < |Placeholder(name, d)|
    ensures StartsWith(a, "${" + name + ":-")
  {
    var p, head := Placeholder(name, d), "${" + name + ":-";
    assert p[|a|] == (a + y)[|a|];
    DollarInDefault(name, d, |a|);
    assert a[..|head|] == (a + y)[..|head|] == p[..|head|] == head;
  }

  lemma MatchSurvives(a: string, x: string, head: string)
    requires StartsWith(a, head) && MatchPlaceholder(head + (a[|head|..] + x)).Some?
    ensures MatchPlaceholder(a + x).Some?
  {
    SplitAt(a, |head|);
    Associate(head, a[|head|..], x);
  }

  /** Text that does not start a placeholder does not start one either when the next placeholder is replaced. */
  lemma StillNoMatch(a: string, x: string, y: string)
    requires a != "" && y != "" && y[0] == '$' && '}' in x
    requires MatchPlaceholder(a + x).None?
    ensures MatchPlaceholder(a + y).None?
  {
    if MatchPlaceholder(a + y).Some? {
      var m := MatchPlaceholder(a + y).value;
      var p := Placeholder(m.name, m.default);
      MatchedPlaceholder(a + y);
      if |p| <= |a| {
        assert a[..|p|] == (a + y)[..|p|];
        PlaceholderMatches(m.name, m.default, a[|p|..] + x);
        MatchSurvives(a, x, p);
      } else {
        OpenDefault(a, y, m.name, m.default);
        ClosedDefaultMatches(m.name, a[|"${" + m.name + ":-"|..] + x);
        MatchSurvives(a, x, "${" + m.name + ":-");
      }
    }
  }

  /** The text in front of the first placeholder, and what begins with it. */
  function Lead(s: string): string {
    if s == "" || MatchPlaceholder(s).Some? then "" else [s[0]] + Lead(s[1..])
  }

  function FromMatch(s: string): string {
    if s == "" || MatchPlaceholder(s).Some? then s else FromMatch(s[1..])
  }

  lemma {:induction false} LeadSplits(s: string)
    ensures s == Lead(s) + FromMatch(s)
    ensures FindAllNames(s) == FindAllNames(FromMatch(s))
    ensures FindAllNames(s) != [] ==> MatchPlaceholder(FromMatch(s)).Some?
  {
    if s != "" && MatchPlaceholder(s).None? {
      LeadSplits(s[1..]);
      Associate([s[0]], Lead(s[1..]), FromMatch(s[1..]));
      assert s == [s[0]] + s[1..];
    }
  }

  /** The text in front stays as it is, whatever the placeholder behind it turns into. */
  lemma {:induction false} LeadStays(s: string, y: string, variables: map<string, string>)
    requires FindAllNames(s) != [] && y != "" && y[0] == '$'
    ensures SubstituteVariables(Lead(s) + y, variables) == Lead(s) + SubstituteVariables(y, variables)
  {
    if MatchPlaceholder(s).Some? {
      assert Lead(s) + y == y;
    } else {
      var c, more := s[0], Lead(s[1..]);
      LeadStays(s[1..], y, variables);
      LeadSplits(s);
      PlaceholderAhead(FromMatch(s));
      StillNoMatch(Lead(s), FromMatch(s), y);
      Associate([c], more, y);
      UnmatchedStays(c, more + y, variables);
      Associate([c], more, SubstituteVariables(y, variables));
    }
  }

  lemma PlaceholderAhead(x: string)
    requires MatchPlaceholder(x).Some?
    ensures x != "" && x[0] == '$' && '}' in x
  {
    var m := MatchPlaceholder(x).value;
    MatchedPlaceholder(x);
    assert x[m.length - 1] == Placeholder(m.name, m.default)[m.length - 1] == '}';
  }

  /** Each name stands for its own placeholder and one more character. */
  function SelfReferences(names: seq<string>, c: char): map<string, string> {
    map n | n in names :: Placeholder(n, None) + [c]
  }

  /** The result of the rest does not start with that character. */
  lemma NextCharacterDiffers(rest: string, names: seq<string>, c: char)
    requires c != '$' && (rest != "" ==> rest[0] != c) && forall n :: n in FindAllNames(rest) ==> n in names
    ensures var r := SubstituteVariables(rest, SelfReferences(names, c)); r != "" ==> r[0] != c
  {
    if rest != "" {
      SubstituteFirst(rest, SelfReferences(names, c));
    }
  }

  lemma SecondPassGrows(x: string, variables: map<string, string>, c: char)
    requires MatchPlaceholder(x).Some? && c != '$' && variables == SelfReferences(FindAllNames(x), c)
    requires var rest := x[MatchPlaceholder(x).value.length..]; rest != "" ==> rest[0] != c
    ensures var y := SubstituteVariables(x, variables);
            y != "" && y[0] == '$' && SubstituteVariables(y, variables) != y
  {
    var m := MatchPlaceholder(x).value;
    var p, rest := Placeholder(m.name, None), x[m.length..];
    var r := SubstituteVariables(rest, variables);
    MatchedPlaceholder(x);
    ReplacementIsRendering(x, variables);
    Associate(p, [c], r);
    PlaceholderInFront(m.name, None, [c] + r, variables);
    CharacterStays(c, r, variables);
    NextCharacterDiffers(rest, FindAllNames(x), c);
    DifferentTails(p + [c], r, [c] + SubstituteVariables(r, variables));
  }

  lemma DifferentTails(a: string, b: string, c: string)
    requires b != c
    ensures a + b != a + c
  {
    assert b == (a + b)[|a|..] && c == (a + c)[|a|..];
  }

  lemma NotIdempotentForSomeMap(value: string) returns (variables: map<string, string>)
    requires FindAllNames(value) != []
    ensures !Idempotent(value, variables)
  {
    LeadSplits(value);
    var x := FromMatch(value);
    var rest := x[MatchPlaceholder(x).value.length..];
    var c := if rest != "" && rest[0] == 'x' then 'y' else 'x';
    variables := SelfReferences(FindAllNames(x), c);
    var y := SubstituteVariables(x, variables);
    SecondPassGrows(x, variables, c);
    PlaceholderAhead(x);
    LeadStays(value, x, variables);
    LeadStays(value, y, variables);
    DifferentTails(Lead(value), SubstituteVariables(y, variables), y);
  }

  lemma {:induction false} NothingToSubstitute(value: string, variables: map<string, string>)
    requires FindAllNames(value) == []
    ensures SubstituteVariables(value, variables) == value
  {
    if value != "" {
      NothingToSubstitute(value[1..], variables);
      assert value == value[..1] + value[1..];
    }
  }

  /** A second substitution changes nothing under every variable map exactly when the value uses no variable. */
  lemma IdempotentIffNoVariable(value: string)
    ensures (forall variables :: Idempotent(value, variables)) <==> FindAllNames(value) == []
  {
    if FindAllNames(value) == [] {
      forall variables ensures Idempotent(value, variables) {
        NothingToSubstitute(value, variables);
      }
    } else {
      var variables := NotIdempotentForSomeMap(value);
    }
  }
}

/** Permission rules: their text, their matching, and the layered store (`src/mewcode/permissions/rules.py`). */
module PermissionRules {
  import opened Wrappers
  import opened Globs
  import opened GlobRegex
  import Text

  datatype TargetKind = Command | Path | PathGlob | Tool

  datatype Target = Target(tool: string, value: string, kind: TargetKind)

  datatype Effect = Allow | Deny

  datatype Scope = Session | ProjectLocal | Project | User

  datatype Rule = Rule(tool: string, pattern: string, effect: Effect, scope: Scope, isExact: bool,
      specificity: (nat, nat, nat))

  datatype RuleError =
    | EmptyExpression | BadSyntax | BadToolName | UnknownTool | EmptyPattern | BadPattern(error: GlobError)

  // --- Specificity ------------------------------------------------------------------------

  predicate IsFixed(t: GlobToken) {
    t.escaped || !(t.value == '*' || t.value == '?' || t.value == '[' || t.value == ']')
  }

  function FixedText(tokens: seq<GlobToken>): nat {
    if tokens == [] then 0 else (if IsFixed(tokens[0]) then 1 else 0) + FixedText(tokens[1..])
  }

  function Count(s: string, c: char): nat {
    if s == "" then 0 else (if s[0] == c then 1 else 0) + Count(s[1..], c)
  }

  /** `glob_specificity`. */
  function Specificity(pattern: string, tokens: seq<GlobToken>): (nat, nat, nat) {
    (if IsExact(tokens) then 1 else 0, FixedText(tokens), Count(pattern, '/') + 1)
  }

  /** Fixed characters add up; one counts unless it is an unescaped wildcard or bracket. */
  lemma {:induction false} FixedAdds(a: seq<GlobToken>, b: seq<GlobToken>)
    ensures FixedText(a + b) == FixedText(a) + FixedText(b)
  {
    if a == [] {
      assert a + b == b;
    } else {
      assert (a + b)[1..] == a[1..] + b;
      FixedAdds(a[1..], b);
    }
  }

  lemma {:induction false} CountAdds(a: string, b: string, c: char)
    ensures Count(a + b, c) == Count(a, c) + Count(b, c)
  {
    if a == "" {
      assert a + b == b;
    } else {
      assert (a + b)[1..] == a[1..] + b;
      CountAdds(a[1..], b, c);
    }
  }

  lemma FixedOfOne(t: GlobToken)
    ensures FixedText([t]) == (if t.escaped || t.value !in {'*', '?', '[', ']'} then 1 else 0) && FixedText([]) == 0
  {
    assert [t][1..] == [];
  }

  lemma CountOfOne(x: char, c: char)
    ensures Count([x], c) == (if x == c then 1 else 0) && Count("", c) == 0
  {
    assert [x][1..] == "";
  }

  /**
    What makes a pattern specific: first that it has no unescaped wildcard or class, then each character
    that stands for itself (`FixedAdds`, `FixedOfOne`), then each `/` (`CountAdds`, `CountOfOne`).
  */
  lemma SpecificityMeans(pattern: string, tokens: seq<GlobToken>)
    ensures
      var (exact, fixed, depth) := Specificity(pattern, tokens);
      && exact <= 1 && (exact == 1 <==> forall u :: u in tokens ==> u.escaped || u.value !in {'*', '?', '['})
      && fixed == FixedText(tokens) && depth == Count(pattern, '/') + 1
  {
    hide FixedText, Count;
  }

  // --- Texts --------------------------------------------------------------------------------

  /** `str.find`. */
  function Find(s: string, c: char): (i: int)
    ensures -1 <= i < |s|
    ensures i >= 0 ==> s[i] == c && forall k :: 0 <= k < i ==> s[k] != c
    ensures i == -1 ==> c !in s
  {
    if s == "" then -1
    else if s[0] == c then 0
    else
      var i := Find(s[1..], c);
      if i < 0 then
        assert s == [s[0]] + s[1..];
        -1
      else i + 1
  }

  predicate StartsWithAny(s: string, prefixes: seq<string>) {
    exists i :: 0 <= i < |prefixes| && prefixes[i] <= s
  }

  /** `parse_permission_rule`. */
  function ParseRule(
      expression: string, effect: Effect, scope: Scope, known: set<string>, prefixes: seq<string>)
      : Result<Rule, RuleError> {
    if expression == "" then Err(EmptyExpression)
    else
      var opening := Find(expression, '(');
      if opening <= 0 || expression[|expression| - 1] != ')' then Err(BadSyntax)
      else
        var tool, pattern := expression[..opening], expression[opening + 1..|expression| - 1];
        if Text.Strip(tool) != tool then Err(BadToolName)
        else if tool !in known && !StartsWithAny(tool, prefixes) then Err(UnknownTool)
        else if pattern == "" then Err(EmptyPattern)
        else
          match Tokenize(pattern)
          case Err(e) => Err(BadPattern(e))
          case Ok(tokens) => Ok(Rule(tool, pattern, effect, scope, IsExact(tokens), Specificity(pattern, tokens)))
  }

  /** `PermissionRule.expression`. */
  function Expression(r: Rule): string {
    r.tool + "(" + r.pattern + ")"
  }

  /** `PermissionTarget.exact_rule`. */
  function ExactRule(t: Target): string {
    t.tool + "(" + EscapeExact(t.value) + ")"
  }

  /** Names that can stand before the parenthesis of a rule. */
  predicate ToolName(name: string) {
    name != "" && '(' !in name && Text.Strip(name) == name
  }

  lemma {:induction false} FindIs(s: string, c: char, i: nat)
    requires i < |s| && s[i] == c && c !in s[..i]
    ensures Find(s, c) == i
  {
    if i > 0 {
      assert s[0] in s[..i] && s[1..][..i - 1] == s[..i][1..];
      FindIs(s[1..], c, i - 1);
    }
  }

  /** Reading `name(pattern)` for a name without parenthesis. */
  lemma ParseJoined(
      name: string, pattern: string, effect: Effect, scope: Scope, known: set<string>, prefixes: seq<string>)
    requires ToolName(name)
    ensures ParseRule(name + "(" + pattern + ")", effect, scope, known, prefixes)
         == if name !in known && !StartsWithAny(name, prefixes) then Err(UnknownTool)
            else if pattern == "" then Err(EmptyPattern)
            else match Tokenize(pattern)
                 case Err(e) => Err(BadPattern(e))
                 case Ok(tokens) => Ok(Rule(name, pattern, effect, scope, IsExact(tokens),
                     Specificity(pattern, tokens)))
  {
    hide Tokenize, Specificity, IsExact, StartsWithAny, Text.Strip;
    var e, n := name + "(" + pattern + ")", |name|;
    assert e[n] == '(' && e[..n] == name;
    FindIs(e, '(', n);
    assert e[n + 1..|e| - 1] == pattern;
  }

  /** A parsed rule prints to the expression it was read from. */
  lemma PrintParsed(expression: string, effect: Effect, scope: Scope, known: set<string>, prefixes: seq<string>)
    requires ParseRule(expression, effect, scope, known, prefixes).Ok?
    ensures
      var r := ParseRule(expression, effect, scope, known, prefixes).value;
      Expression(r) == expression && ToolName(r.tool) && r.pattern != ""
  {
    hide Tokenize, Specificity, IsExact, StartsWithAny, Text.Strip;
    var opening := Find(expression, '(');
    assert expression == expression[..opening] + "(" + expression[opening + 1..|expression| - 1] + ")";
  }

  /** The text splits into the name and the pattern of a good rule. */
  predicate Splits(expression: string, name: string, pattern: string, known: set<string>, prefixes: seq<string>) {
    && expression == name + "(" + pattern + ")" && ToolName(name) && pattern != "" && Tokenize(pattern).Ok?
    && (name in known || exists i :: 0 <= i < |prefixes| && prefixes[i] <= name)
  }

  /** A text is a rule if and only if it is `name(pattern)` with a known name and a pattern that can be read. */
  lemma ParsesIff(expression: string, effect: Effect, scope: Scope, known: set<string>, prefixes: seq<string>)
    ensures ParseRule(expression, effect, scope, known, prefixes).Ok?
       <==> exists name: string, pattern: string :: Splits(expression, name, pattern, known, prefixes)
    ensures ParseRule(expression, effect, scope, known, prefixes).Ok? ==>
      var r := ParseRule(expression, effect, scope, known, prefixes).value;
      Splits(expression, r.tool, r.pattern, known, prefixes) && r.effect == effect && r.scope == scope
    ensures ParseRule(expression, effect, scope, known, prefixes) == Err(EmptyExpression) <==> expression == ""
  {
    var parsed := ParseRule(expression, effect, scope, known, prefixes);
    if parsed.Ok? {
      PrintParsed(expression, effect, scope, known, prefixes);
      ParseJoined(parsed.value.tool, parsed.value.pattern, effect, scope, known, prefixes);
      hide ParseRule, ToolName, Tokenize, Specificity, IsExact;
      assert Splits(expression, parsed.value.tool, parsed.value.pattern, known, prefixes);
    }
    if name: string, pattern: string :| Splits(expression, name, pattern, known, prefixes) {
      hide ParseRule, ToolName, Tokenize, Specificity, IsExact;
      ParseJoined(name, pattern, effect, scope, known, prefixes);
    }
  }

  /**
    The exact rule of a target reads back, for a store that knows its tool, exactly when the
    tool has a name for rules and the value is not empty; then it keeps tool and pattern.
  */
  lemma ExactRuleRoundTrip(t: Target, effect: Effect, scope: Scope)
    ensures
      var parsed := ParseRule(ExactRule(t), effect, scope, {t.tool}, []);
      && (parsed.Ok? <==> ToolName(t.tool) && t.value != "")
      && (parsed.Ok? ==> parsed.value.tool == t.tool && parsed.value.pattern == EscapeExact(t.value)
                         && parsed.value.isExact && parsed.value.effect == effect && parsed.value.scope == scope)
  {
    var e := ExactRule(t);
    if ToolName(t.tool) {
      ParseJoined(t.tool, EscapeExact(t.value), effect, scope, {t.tool}, []);
      EscapedMatchesOnlyItself(t.value, t.value, false);
      EscapeEmpty(t.value);
      hide Tokenize, Specificity, EscapeExact, Text.Strip;
    } else {
      hide Tokenize, Specificity, EscapeExact, IsExact;
      var opening := Find(e, '(');
      assert e[|t.tool|] == '(' && opening <= |t.tool|;
      if opening == |t.tool| { InPrefix(e, t.tool, opening); }
    }
  }

  lemma InPrefix(e: string, name: string, opening: nat)
    requires opening == |name| <= |e| && e[..opening] == name
    requires forall k :: 0 <= k < opening ==> e[k] != '('
    ensures '(' !in name
  {
  }

  lemma EscapeEmpty(value: string)
    ensures EscapeExact(value) == "" <==> value == ""
  {
  }

  // --- Matching --------------------------------------------------------------------------------

  predicate IsPath(kind: TargetKind) {
    kind.Path? || kind.PathGlob?
  }

  /** `rule_matches`; an error when the pattern does not compile. */
  function RuleMatches(r: Rule, t: Target): Result<bool, MatchError> {
    if r.tool != t.tool then Ok(false) else FullMatch(r.pattern, t.value, IsPath(t.kind))
  }

  function Candidates(rules: seq<Rule>, t: Target): Result<seq<Rule>, MatchError> {
    if rules == [] then Ok([])
    else
      match RuleMatches(rules[0], t)
      case Err(e) => Err(e)
      case Ok(hit) =>
        match Candidates(rules[1..], t)
        case Err(e) => Err(e)
        case Ok(rest) => Ok((if hit then [rules[0]] else []) + rest)
  }

  /** The order of `max`: specificity, then DENY before ALLOW. */
  predicate Below(a: Rule, b: Rule) {
    var x, y := a.specificity, b.specificity;
    || x.0 < y.0
    || (x.0 == y.0 && x.1 < y.1)
    || (x.0 == y.0 && x.1 == y.1 && x.2 < y.2)
    || (x == y && a.effect.Allow? && b.effect.Deny?)
  }

  /** The first of the greatest rules. */
  function Winner(rules: seq<Rule>): (w: Rule)
    requires rules != []
    ensures w in rules && forall i :: 0 <= i < |rules| ==> !Below(w, rules[i])
  {
    if |rules| == 1 then rules[0]
    else
      var w := Winner(rules[..|rules| - 1]);
      var last := rules[|rules| - 1];
      if Below(w, last) then last else w
  }

  method FindWinner(rules: seq<Rule>) returns (w: Rule)
    requires rules != []
    ensures w == Winner(rules)
  {
    w := rules[0];
    var i := 1;
    while i < |rules|
      invariant 1 <= i <= |rules|
      invariant w == Winner(rules[..i])
    {
      assert rules[..i + 1][..i] == rules[..i];
      if Below(w, rules[i]) {
        w := rules[i];
      }
      i := i + 1;
    }
    assert rules[..i] == rules;
  }

  datatype RuleSets = RuleSets(session: seq<Rule>, local: seq<Rule>, project: seq<Rule>, user: seq<Rule>)

  datatype Match = Match(rule: Rule, layer: Scope)

  function MatchLayers(layers: seq<(Scope, seq<Rule>)>, t: Target): Result<Option<Match>, MatchError> {
    if layers == [] then Ok(None)
    else
      match Candidates(layers[0].1, t)
      case Err(e) => Err(e)
      case Ok(found) =>
        if found == [] then MatchLayers(layers[1..], t) else Ok(Some(Match(Winner(found), layers[0].0)))
  }

  function Layers(s: RuleSets): seq<(Scope, seq<Rule>)> {
    [(Session, s.session), (ProjectLocal, s.local), (Project, s.project), (User, s.user)]
  }

  /** `PermissionRuleMatcher.match`. */
  function MatchRules(s: RuleSets, t: Target): Result<Option<Match>, MatchError> {
    MatchLayers(Layers(s), t)
  }

  /** `add_session_allow`. */
  function AddSessionAllow(s: RuleSets, t: Target): Result<RuleSets, RuleError> {
    match ParseRule(ExactRule(t), Allow, Session, {t.tool}, [])
    case Err(e) => Err(e)
    case Ok(rule) => Ok(if rule in s.session then s else s.(session := s.session + [rule]))
  }

  /** An exact rule matches its own tool and value only, for every kind of target. */
  lemma ExactRuleMatches(t: Target, effect: Effect, scope: Scope, other: Target)
    requires ParseRule(ExactRule(t), effect, scope, {t.tool}, []).Ok?
    ensures
      var rule := ParseRule(ExactRule(t), effect, scope, {t.tool}, []).value;
      RuleMatches(rule, other) == Ok(other.tool == t.tool && other.value == t.value)
  {
    ExactRuleRoundTrip(t, effect, scope);
    EscapedMatchesOnlyItself(t.value, other.value, IsPath(other.kind));
    hide ParseRule, FullMatch, ExactRule;
  }

  // --- Candidate lists ------------------------------------------------------------------------------

  lemma {:induction false} CandidatesJoin(a: seq<Rule>, b: seq<Rule>, t: Target)
    ensures Candidates(a + b, t)
         == if Candidates(a, t).Err? then Candidates(a, t)
            else if Candidates(b, t).Err? then Candidates(b, t)
            else Ok(Candidates(a, t).value + Candidates(b, t).value)
  {
    hide RuleMatches;
    if a == [] {
      assert a + b == b;
      if Candidates(b, t).Ok? { assert [] + Candidates(b, t).value == Candidates(b, t).value; }
    } else {
      assert (a + b)[1..] == a[1..] + b;
      CandidatesJoin(a[1..], b, t);
      if Candidates(a, t).Ok? && Candidates(b, t).Ok? {
        var first := if RuleMatches(a[0], t).value then [a[0]] else [];
        assert (first + Candidates(a[1..], t).value) + Candidates(b, t).value
            == first + (Candidates(a[1..], t).value + Candidates(b, t).value);
      }
    }
  }

  lemma {:induction false} CandidatesAre(rules: seq<Rule>, t: Target)
    requires Candidates(rules, t).Ok?
    ensures forall r :: r in Candidates(rules, t).value <==> r in rules && RuleMatches(r, t) == Ok(true)
    ensures forall r :: r in rules ==> RuleMatches(r, t).Ok?
  {
    hide RuleMatches;
    if rules != [] {
      CandidatesAre(rules[1..], t);
      assert rules == [rules[0]] + rules[1..];
    }
  }

  lemma {:induction false} CandidatesOk(rules: seq<Rule>, t: Target)
    requires forall i :: 0 <= i < |rules| ==> RuleMatches(rules[i], t).Ok?
    ensures Candidates(rules, t).Ok?
  {
    hide RuleMatches;
    if rules != [] { CandidatesOk(rules[1..], t); }
  }

  lemma OneCandidate(r: Rule, t: Target)
    ensures Candidates([r], t)
         == match RuleMatches(r, t) { case Err(e) => Err(e) case Ok(hit) => Ok(if hit then [r] else []) }
  {
    hide RuleMatches;
    var none: seq<Rule> := [];
    assert [r][1..] == none && [r] + none == [r] && none + none == none;
  }

  // --- When matching fails -----------------------------------------------------------------------

  /** The pattern of the rule was read, but a range in one of its classes runs downwards. */
  predicate RangeRunsDown(r: Rule, t: Target) {
    Tokenize(r.pattern).Ok? && !RangesOk(Tokenize(r.pattern).value, IsPath(t.kind))
  }

  lemma {:induction false} CandidatesFailIff(rules: seq<Rule>, t: Target)
    requires forall r :: r in rules ==> Tokenize(r.pattern).Ok?
    ensures Candidates(rules, t).Err? <==> exists r :: r in rules && r.tool == t.tool && RangeRunsDown(r, t)
  {
    if rules != [] {
      CandidatesFailIff(rules[1..], t);
      assert rules == [rules[0]] + rules[1..];
      assert RuleMatches(rules[0], t).Err? <==> rules[0].tool == t.tool && RangeRunsDown(rules[0], t) by {
        assert rules[0] in rules;
        hide Tokenize, RangesOk, Matches;
      }
      hide RuleMatches, RangeRunsDown, Tokenize;
    }
  }

  /** Layer `k` is reached: no earlier layer has a matching rule. */
  predicate Reaches(layers: seq<(Scope, seq<Rule>)>, t: Target, k: nat) {
    k < |layers| && forall i :: 0 <= i < k ==> Candidates(layers[i].1, t) == Ok([])
  }

  lemma {:induction false} LayersFailIff(layers: seq<(Scope, seq<Rule>)>, t: Target)
    ensures MatchLayers(layers, t).Err? <==> exists k: nat :: Reaches(layers, t, k) && Candidates(layers[k].1, t).Err?
  {
    hide Candidates, Winner;
    if layers != [] {
      LayersFailIff(layers[1..], t);
      assert forall i :: 0 <= i < |layers[1..]| ==> layers[1..][i] == layers[i + 1];
      if Candidates(layers[0].1, t).Err? {
        assert Reaches(layers, t, 0);
      } else if Candidates(layers[0].1, t) == Ok([]) {
        if k: nat :| Reaches(layers[1..], t, k) && Candidates(layers[1..][k].1, t).Err? {
          assert Reaches(layers, t, k + 1);
        }
        if k: nat :| Reaches(layers, t, k) && Candidates(layers[k].1, t).Err? {
          assert k > 0 && Reaches(layers[1..], t, k - 1);
          assert layers[1..][k - 1] == layers[k];
        }
      } else {
        assert forall k: nat :: Reaches(layers, t, k) && k > 0 ==> Candidates(layers[0].1, t) == Ok([]);
      }
    }
  }

  /** Matching a target fails if and only if a layer that is reached holds a rule of its tool with such a range. */
  lemma MatchFailsIff(s: RuleSets, t: Target)
    requires forall k, r :: 0 <= k < 4 && r in Layers(s)[k].1 ==> Tokenize(r.pattern).Ok?
    ensures
      MatchRules(s, t).Err?
      <==> exists k: nat, r ::
             Reaches(Layers(s), t, k) && r in Layers(s)[k].1 && r.tool == t.tool && RangeRunsDown(r, t)
  {
    hide Tokenize, RangeRunsDown, Candidates, MatchLayers;
    var layers := Layers(s);
    assert MatchRules(s, t) == MatchLayers(layers, t) && |layers| == 4;
    hide Layers, MatchRules;
    LayersFailIff(layers, t);
    forall k: nat | k < 4
      ensures Candidates(layers[k].1, t).Err?
          <==> exists r :: r in layers[k].1 && r.tool == t.tool && RangeRunsDown(r, t)
    {
      CandidatesFailIff(layers[k].1, t);
    }
    if k: nat, r :| Reaches(layers, t, k) && r in layers[k].1 && r.tool == t.tool && RangeRunsDown(r, t) {
      assert Candidates(layers[k].1, t).Err?;
    }
    if k: nat :| Reaches(layers, t, k) && Candidates(layers[k].1, t).Err? {
      var r :| r in layers[k].1 && r.tool == t.tool && RangeRunsDown(r, t);
    }
  }

  /** Such a rule passes the parser: `tool([z-a])`. */
  lemma DescendingRangeIsParsed(tool: string, value: string, kind: TargetKind, effect: Effect, scope: Scope)
    requires ToolName(tool)
    ensures
      var parsed := ParseRule(tool + "(" + "[z-a]" + ")", effect, scope, {tool}, []);
      parsed.Ok? && RuleMatches(parsed.value, Target(tool, value, kind)).Err?
  {
    DescendingRange(IsPath(kind));
    ParseJoined(tool, "[z-a]", effect, scope, {tool}, []);
    hide Tokenize, RangesOk, ParseRule, Specificity;
  }

  function PlainToken(c: char): GlobToken {
    GlobToken(c, false)
  }

  lemma DescendingScan()
    ensures
      Scan("[z-a]") == Ok([PlainToken('['), PlainToken('z'), PlainToken('-'), PlainToken('a'), PlainToken(']')])
  {
    ScanOne('[', "z-a]");
    ScanOne('z', "-a]");
    ScanOne('-', "a]");
    ScanOne('a', "]");
    ScanOne(']', "");
    assert ['['] + "z-a]" == "[z-a]" && ['z'] + "-a]" == "z-a]" && ['-'] + "a]" == "-a]" && ['a'] + "]" == "a]"
        && [']'] + "" == "]";
    assert Scan("") == Ok([]);
    hide Scan, PlainToken;
    var open, z, dash, a, close := PlainToken('['), PlainToken('z'), PlainToken('-'), PlainToken('a'), PlainToken(']');
    assert [close] + [] == [close] && [a] + [close] == [a, close] && [dash] + [a, close] == [dash, a, close];
    assert [z] + [dash, a, close] == [z, dash, a, close] && [open] + [z, dash, a, close] == [open, z, dash, a, close];
  }

  lemma ScanOne(c: char, rest: string)
    requires c != '\\'
    ensures Scan(rest).Ok? ==> Scan([c] + rest) == Ok([PlainToken(c)] + Scan(rest).value)
  {
    assert ([c] + rest)[1..] == rest;
  }

  lemma DescendingValid(open: GlobToken, z: GlobToken, dash: GlobToken, a: GlobToken, close: GlobToken)
    requires open == PlainToken('[') && z == PlainToken('z') && dash == PlainToken('-') && a == PlainToken('a')
        && close == PlainToken(']')
    ensures Validate([open, z, dash, a, close], false, 0).None? && ClassEnd([z, dash, a, close]) == 3
  {
    assert [open, z, dash, a, close][1..] == [z, dash, a, close] && [z, dash, a, close][1..] == [dash, a, close];
    assert [dash, a, close][1..] == [a, close] && [a, close][1..] == [close] && [close][1..] == [];
    assert Validate([], false, 3).None?;
    assert Validate([close], true, 3).None? && Validate([a, close], true, 2).None?;
    assert Validate([dash, a, close], true, 1).None? && Validate([z, dash, a, close], true, 0).None?;
    assert ClassEnd([close]) == 0 && ClassEnd([a, close]) == 1;
  }

  lemma DescendingRange(path: bool)
    ensures Tokenize("[z-a]").Ok? && !RangesOk(Tokenize("[z-a]").value, path)
  {
    DescendingScan();
    var open, z, dash, a, close := PlainToken('['), PlainToken('z'), PlainToken('-'), PlainToken('a'), PlainToken(']');
    var tokens := [open, z, dash, a, close];
    DescendingValid(open, z, dash, a, close);
    hide Scan, Validate;
    assert tokens[1..] == [z, dash, a, close] && tokens[1..4] == [z, dash, a] && Values(tokens[1..4]) == "z-a";
    hide ClassEnd, Values;
    assert FirstPiece(tokens, path) == (Class("z-a"), 5) && !GoodRanges("z-a");
    assert Pieces(tokens, path)[0] == Class("z-a");
  }

  // --- Which rule decides ------------------------------------------------------------------------------

  /** The layers in the order in which they are asked. */
  function Asked(s: RuleSets): seq<(Scope, seq<Rule>)> {
    [(Session, s.session), (ProjectLocal, s.local), (Project, s.project), (User, s.user)]
  }

  predicate Hits(r: Rule, t: Target) {
    RuleMatches(r, t) == Ok(true)
  }

  predicate AnyHits(rules: seq<Rule>, t: Target) {
    exists r :: r in rules && Hits(r, t)
  }

  /** Layer `k` is the first one with a rule that matches. */
  predicate Settles(s: RuleSets, t: Target, k: nat) {
    k < 4 && AnyHits(Asked(s)[k].1, t) && forall j :: 0 <= j < k ==> !AnyHits(Asked(s)[j].1, t)
  }

  /** An exact rule before any other, then more fixed characters, then more path segments. */
  predicate MoreSpecific(a: Rule, b: Rule) {
    var (exact, fixed, depth) := a.specificity;
    var (exact', fixed', depth') := b.specificity;
    exact > exact' || (exact == exact' && (fixed > fixed' || (fixed == fixed' && depth > depth')))
  }

  /**
    No rule of the layer that matches is more specific than `w`, and none that is as specific denies unless `w`
    does.
  */
  predicate Tops(rules: seq<Rule>, t: Target, w: Rule) {
    && w in rules && Hits(w, t)
    && forall r :: r in rules && Hits(r, t) ==>
         !MoreSpecific(r, w) && (r.effect.Deny? && !MoreSpecific(w, r) ==> w.effect.Deny?)
  }

  /** A match is a top rule of the first layer with a rule that matches; there is none when no rule matches. */
  lemma MatchMeans(s: RuleSets, t: Target)
    requires MatchRules(s, t).Ok?
    ensures MatchRules(s, t).value.None? <==> forall k :: 0 <= k < 4 ==> !AnyHits(Asked(s)[k].1, t)
    ensures MatchRules(s, t).value.Some? ==>
      var m := MatchRules(s, t).value.value;
      exists k: nat :: Settles(s, t, k) && m.layer == Asked(s)[k].0 && Tops(Asked(s)[k].1, t, m.rule)
  {
    hide AnyHits, Tops, Layers;
    var layers := Asked(s);
    assert MatchRules(s, t) == MatchLayers(layers, t) by { assert Layers(s) == layers by { LayersAre(s); } }
    hide MatchRules, MatchLayers;
    var k := LayersMean(layers, t);
    if MatchLayers(layers, t).value.Some? { assert Settles(s, t, k); }
  }

  lemma LayersAre(s: RuleSets)
    ensures Layers(s) == Asked(s)
  {
  }

  lemma {:induction false} LayersMean(layers: seq<(Scope, seq<Rule>)>, t: Target) returns (k: nat)
    requires MatchLayers(layers, t).Ok?
    ensures MatchLayers(layers, t).value.None? <==> forall i :: 0 <= i < |layers| ==> !AnyHits(layers[i].1, t)
    ensures MatchLayers(layers, t).value.Some? ==>
      var m := MatchLayers(layers, t).value.value;
      && k < |layers| && AnyHits(layers[k].1, t) && (forall j :: 0 <= j < k ==> !AnyHits(layers[j].1, t))
      && m.layer == layers[k].0 && Tops(layers[k].1, t, m.rule)
  {
    k := 0;
    if layers != [] {
      hide Candidates, Winner, AnyHits, Tops;
      FirstLayer(layers[0].1, t);
      if Candidates(layers[0].1, t).value == [] {
        k := LayersMean(layers[1..], t);
        k := k + 1;
        assert forall i :: 0 < i < |layers| ==> layers[i] == layers[1..][i - 1];
      }
    }
  }

  lemma FirstLayer(rules: seq<Rule>, t: Target)
    requires Candidates(rules, t).Ok?
    ensures Candidates(rules, t).value == [] <==> !AnyHits(rules, t)
    ensures Candidates(rules, t).value != [] ==> Tops(rules, t, Winner(Candidates(rules, t).value))
  {
    CandidatesAre(rules, t);
    hide Candidates, RuleMatches;
    var found := Candidates(rules, t).value;
    if found != [] {
      assert found[0] in found && Hits(found[0], t);
      var w := Winner(found);
      assert Hits(w, t);
      forall r | r in rules && Hits(r, t)
        ensures !MoreSpecific(r, w) && (r.effect.Deny? && !MoreSpecific(w, r) ==> w.effect.Deny?)
      {
        assert r in found;
        var i :| 0 <= i < |found| && found[i] == r;
        assert !Below(w, found[i]);
      }
    }
  }
}

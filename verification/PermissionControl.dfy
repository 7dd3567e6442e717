/** Permission decisions and the user's choices (`src/mewcode/permissions/controller.py`). */
module PermissionControl {
  import opened Wrappers
  import opened Globs
  import opened GlobRegex
  import opened PermissionRules

  datatype Mode = Strict | Default | AllowAll

  datatype Choice = DenyCall | Once | ForSession | Permanent

  datatype Outcome = Allowed | Denied | Ask

  datatype Source = ByRule(layer: Scope) | ByMode | ByUser | ConfigError

  datatype Decision = Decision(outcome: Outcome, source: Source)

  datatype ControlError = MatchFailed(match_: MatchError) | RuleFailed(rule: RuleError) | NotAsked

  /** The mode and the rules of a controller. */
  datatype Control = Control(sets: RuleSets, mode: Mode)

  // --- Decisions --------------------------------------------------------------------------

  /** `evaluate_preflight`. */
  function Evaluate(s: Control, t: Target): Result<Decision, MatchError> {
    match MatchRules(s.sets, t)
    case Err(e) => Err(e)
    case Ok(found) =>
      if found.Some? && found.value.rule.effect.Deny? then Ok(Decision(Denied, ByRule(found.value.layer)))
      else if found.Some? && found.value.layer.Session? then Ok(Decision(Allowed, ByRule(Session)))
      else
        match s.mode
        case Strict => Ok(Decision(Ask, ByMode))
        case Default =>
          if found.Some? then Ok(Decision(Allowed, ByRule(found.value.layer))) else Ok(Decision(Ask, ByMode))
        case AllowAll => Ok(Decision(Allowed, if found.Some? then ByRule(found.value.layer) else ByMode))
  }

  // --- What a decision means ------------------------------------------------------------------

  /** Among the rules of the layer that match, one that denies is not less specific than any other. */
  predicate DenyTops(rules: seq<Rule>, t: Target) {
    exists r :: r in rules && Hits(r, t) && r.effect.Deny?
             && forall q :: q in rules && Hits(q, t) ==> !MoreSpecific(q, r)
  }

  /** The first layer with a rule that matches denies. */
  predicate DenyWins(s: RuleSets, t: Target) {
    exists k: nat :: k < 4 && Settles(s, t, k) && DenyTops(Asked(s)[k].1, t)
  }

  predicate SomeRuleHits(s: RuleSets, t: Target) {
    exists k :: 0 <= k < 4 && AnyHits(Asked(s)[k].1, t)
  }

  /**
    A decision in terms of the rules: a denying layer denies in every mode; otherwise a session rule allows in
    every mode, the mode that allows everything allows, the strict mode asks, and the default mode allows what
    some rule matches and asks about the rest. The source is the layer that matched, unless the mode decided.
  */
  lemma DecisionMeans(s: Control, t: Target)
    requires Evaluate(s, t).Ok?
    ensures
      var decision := Evaluate(s, t).value;
      var session, some := AnyHits(s.sets.session, t), SomeRuleHits(s.sets, t);
      && (decision.outcome.Denied? <==> DenyWins(s.sets, t))
      && (decision.outcome.Allowed? <==>
            !DenyWins(s.sets, t) && (session || s.mode.AllowAll? || (s.mode.Default? && some)))
      && (decision.outcome.Ask? <==>
            !DenyWins(s.sets, t) && !session && (s.mode.Strict? || (s.mode.Default? && !some)))
      && (decision.source.ByRule? <==> some && !decision.outcome.Ask?)
      && (decision.source.ByRule?
          ==> exists k: nat :: Settles(s.sets, t, k) && decision.source.layer == Asked(s.sets)[k].0)
      && (!decision.source.ByRule? ==> decision.source.ByMode?)
  {
    MatchMeans(s.sets, t);
    hide MatchRules, AnyHits, Tops, DenyTops, Hits, MoreSpecific;
    var found := MatchRules(s.sets, t).value;
    assert found.Some? <==> SomeRuleHits(s.sets, t);
    if found.Some? {
      var k: nat :| Settles(s.sets, t, k) && found.value.layer == Asked(s.sets)[k].0
                 && Tops(Asked(s.sets)[k].1, t, found.value.rule);
      TopDecides(Asked(s.sets)[k].1, t, found.value.rule);
      forall j: nat | Settles(s.sets, t, j) ensures j == k { OneSettles(s.sets, t, j, k); }
      assert DenyWins(s.sets, t) <==> found.value.rule.effect.Deny?;
      assert found.value.layer.Session? <==> k == 0;
      assert AnyHits(s.sets.session, t) <==> k == 0 by { assert Asked(s.sets)[0].1 == s.sets.session; }
    } else {
      assert Asked(s.sets)[0].1 == s.sets.session;
      assert forall j: nat :: !Settles(s.sets, t, j);
    }
  }

  lemma TopDecides(rules: seq<Rule>, t: Target, w: Rule)
    requires Tops(rules, t, w)
    ensures DenyTops(rules, t) <==> w.effect.Deny?
  {
    hide Hits;
  }

  lemma OneSettles(s: RuleSets, t: Target, j: nat, k: nat)
    requires Settles(s, t, j) && Settles(s, t, k)
    ensures j == k
  {
    hide AnyHits;
  }

  // --- The project-local file -----------------------------------------------------------------

  /** The rules in the file, None when it cannot be read; `writable` says whether it can be replaced. */
  datatype LocalFile = LocalFile(rules: Option<seq<Rule>>, writable: bool, known: set<string>, prefixes: seq<string>)

  function Reload(rules: seq<(string, Effect)>, known: set<string>, prefixes: seq<string>): Option<seq<Rule>> {
    if rules == [] then Some([])
    else
      match ParseRule(rules[0].0, rules[0].1, ProjectLocal, known, prefixes)
      case Err(_) => None
      case Ok(rule) =>
        match Reload(rules[1..], known, prefixes)
        case None => None
        case Some(rest) => Some([rule] + rest)
  }

  function Written(rules: seq<Rule>): (w: seq<(string, Effect)>)
    ensures |w| == |rules|
  {
    seq(|rules|, i requires 0 <= i < |rules| => (Expression(rules[i]), rules[i].effect))
  }

  predicate HasExact(rules: seq<Rule>, t: Target) {
    exists i :: 0 <= i < |rules| && Expression(rules[i]) == ExactRule(t) && rules[i].effect.Allow?
  }

  /** `add_local_allow`. */
  function AddLocalAllow(file: LocalFile, t: Target): Option<seq<Rule>> {
    if file.rules.None? then None
    else if HasExact(file.rules.value, t) then file.rules
    else if !file.writable then None
    else Reload(Written(file.rules.value) + [(ExactRule(t), Allow)], file.known, file.prefixes)
  }

  // --- Choices ----------------------------------------------------------------------------------

  /** `apply_choice` for a target that was asked about. */
  function ApplyChoice(
      s: Control, t: Target, choice: Choice, file: LocalFile): (Control, Result<Decision, ControlError>) {
    match choice
    case DenyCall => (s, Ok(Decision(Denied, ByUser)))
    case Once => (s, Ok(Decision(Allowed, ByUser)))
    case ForSession => AllowForSession(s, t)
    case Permanent =>
      match AddLocalAllow(file, t)
      case None => (s, Ok(Decision(Denied, ConfigError)))
      case Some(rules) => AllowForSession(s.(sets := s.sets.(local := rules)), t)
  }

  function AllowForSession(s: Control, t: Target): (Control, Result<Decision, ControlError>) {
    match AddSessionAllow(s.sets, t)
    case Err(e) => (s, Err(RuleFailed(e)))
    case Ok(sets) => (s.(sets := sets), Ok(Decision(Allowed, ByUser)))
  }

  datatype Event = SetMode(mode: Mode) | Choose(target: Target, choice: Choice, file: LocalFile)

  function Step(s: Control, event: Event): Control {
    match event
    case SetMode(mode) => s.(mode := mode)
    case Choose(t, choice, file) => ApplyChoice(s, t, choice, file).0
  }

  function Run(s: Control, events: seq<Event>): Control
    decreases |events|
  {
    if events == [] then s else Step(Run(s, events[..|events| - 1]), events[|events| - 1])
  }

  /** A run is its events one after the other. */
  lemma {:induction false} RunJoin(s: Control, a: seq<Event>, b: seq<Event>)
    ensures Run(s, a + b) == Run(Run(s, a), b)
    ensures |b| == 1 ==> Run(s, b) == Step(s, b[0])
    decreases |b|
  {
    hide Step;
    assert forall q: Control :: Run(q, []) == q;
    if b == [] {
      assert a + b == a;
    } else {
      assert (a + b)[..|a + b| - 1] == a + b[..|b| - 1];
      RunJoin(s, a, b[..|b| - 1]);
      if |b| == 1 { assert b[..0] == []; }
    }
  }

  // --- The controller ------------------------------------------------------------------------------

  /** `PermissionRuleStore` and `PermissionController`. */
  class PermissionController {
    var session: seq<Rule>
    var local: seq<Rule>
    const project: seq<Rule>
    const user: seq<Rule>
    var mode: Mode

    function View(): Control
      reads this
    {
      Control(RuleSets(session, local, project, user), mode)
    }

    constructor (sets: RuleSets, mode: Mode)
      ensures View() == Control(sets, mode)
    {
      session, local, project, user := sets.session, sets.local, sets.project, sets.user;
      this.mode := mode;
    }

    method SetModeTo(mode: Mode)
      modifies this
      ensures View() == Step(old(View()), SetMode(mode))
    {
      this.mode := mode;
    }

    method CollectCandidates(rules: seq<Rule>, t: Target) returns (found: Result<seq<Rule>, MatchError>)
      ensures found == Candidates(rules, t)
    {
      var hits: seq<Rule>, i := [], 0;
      assert rules[0..] == rules && Candidates([], t) == Ok([]);
      while i < |rules|
        invariant 0 <= i <= |rules|
        invariant Candidates(rules[..i], t) == Ok(hits)
      {
        var hit := RuleMatches(rules[i], t);
        assert rules[..i + 1] == rules[..i] + [rules[i]];
        CandidatesJoin(rules[..i], [rules[i]], t);
        OneCandidate(rules[i], t);
        hide Candidates, RuleMatches;
        if hit.Err? {
          CandidatesJoin(rules[..i + 1], rules[i + 1..], t);
          assert rules[..i + 1] + rules[i + 1..] == rules;
          return Err(hit.error);
        }
        assert hits + [] == hits;
        if hit.value {
          hits := hits + [rules[i]];
        }
        i := i + 1;
      }
      assert rules[..i] == rules;
      return Ok(hits);
    }

    method MatchTarget(t: Target) returns (m: Result<Option<Match>, MatchError>)
      ensures m == MatchRules(View().sets, t)
    {
      var layers := [(Session, session), (ProjectLocal, local), (Project, project), (User, user)];
      var i := 0;
      assert layers[0..] == Layers(View().sets);
      while i < |layers|
        invariant 0 <= i <= |layers|
        invariant MatchLayers(layers[i..], t) == MatchRules(View().sets, t)
      {
        assert layers[i..][0] == layers[i] && layers[i..][1..] == layers[i + 1..];
        hide Candidates;
        var found := CollectCandidates(layers[i].1, t);
        if found.Err? {
          return Err(found.error);
        }
        if found.value != [] {
          var winner := FindWinner(found.value);
          return Ok(Some(Match(winner, layers[i].0)));
        }
        i := i + 1;
      }
      return Ok(None);
    }

    method EvaluatePreflight(t: Target) returns (r: Result<Decision, MatchError>)
      ensures r == Evaluate(View(), t)
      ensures r.Err? <==> MatchRules(View().sets, t).Err?
      ensures r.Ok? ==>
        var session, some := AnyHits(View().sets.session, t), SomeRuleHits(View().sets, t);
        && (r.value.outcome.Denied? <==> DenyWins(View().sets, t))
        && (r.value.outcome.Allowed? <==>
              !DenyWins(View().sets, t) && (session || mode.AllowAll? || (mode.Default? && some)))
    {
      hide AnyHits, DenyWins, SomeRuleHits;
      if MatchRules(View().sets, t).Ok? { DecisionMeans(View(), t); }
      var found := MatchTarget(t);
      hide MatchRules;
      if found.Err? {
        return Err(found.error);
      }
      var m := found.value;
      if m.Some? && m.value.rule.effect.Deny? {
        return Ok(Decision(Denied, ByRule(m.value.layer)));
      }
      if m.Some? && m.value.layer.Session? {
        return Ok(Decision(Allowed, ByRule(Session)));
      }
      if mode.Strict? {
        return Ok(Decision(Ask, ByMode));
      }
      if mode.Default? {
        return if m.Some? then Ok(Decision(Allowed, ByRule(m.value.layer))) else Ok(Decision(Ask, ByMode));
      }
      return Ok(Decision(Allowed, if m.Some? then ByRule(m.value.layer) else ByMode));
    }

    method AddSessionRule(t: Target) returns (error: Option<RuleError>)
      modifies this`session
      ensures var r := AddSessionAllow(old(View()).sets, t);
        error == (if r.Err? then Some(r.error) else None) && View().sets == if r.Ok? then r.value else old(View()).sets
    {
      var rule := ParseRule(ExactRule(t), Allow, Session, {t.tool}, []);
      if rule.Err? {
        return Some(rule.error);
      }
      if rule.value !in session {
        session := session + [rule.value];
      }
      return None;
    }

    /** `apply_choice`: only an ask decision takes a choice. */
    method Apply(
        decision: Decision, t: Target, choice: Choice, file: LocalFile) returns (r: Result<Decision, ControlError>)
      modifies this
      ensures !decision.outcome.Ask? ==> r == Err(NotAsked) && View() == old(View())
      ensures decision.outcome.Ask? ==> (View(), r) == ApplyChoice(old(View()), t, choice, file)
    {
      hide AddLocalAllow, AddSessionAllow;
      if !decision.outcome.Ask? {
        return Err(NotAsked);
      }
      match choice
      case DenyCall => return Ok(Decision(Denied, ByUser));
      case Once => return Ok(Decision(Allowed, ByUser));
      case ForSession =>
        var error := AddSessionRule(t);
        return if error.Some? then Err(RuleFailed(error.value)) else Ok(Decision(Allowed, ByUser));
      case Permanent =>
        var rules := AddLocalAllow(file, t);
        if rules.None? {
          return Ok(Decision(Denied, ConfigError));
        }
        local := rules.value;
        var error := AddSessionRule(t);
        return if error.Some? then Err(RuleFailed(error.value)) else Ok(Decision(Allowed, ByUser));
    }
  }

  // --- Session rules --------------------------------------------------------------------------------

  /** The rule that allows a target for a session. */
  ghost predicate AllowsExactly(r: Rule, t: Target) {
    ParseRule(ExactRule(t), Allow, Session, {t.tool}, []) == Ok(r)
  }

  ghost predicate AllowsOneTarget(r: Rule) {
    exists t :: AllowsExactly(r, t)
  }

  /** Every session rule came from a choice: it allows one target. */
  ghost predicate SessionOk(rules: seq<Rule>) {
    forall i :: 0 <= i < |rules| ==> AllowsOneTarget(rules[i])
  }

  lemma AllowsOnly(r: Rule, t: Target, other: Target)
    requires AllowsExactly(r, t)
    ensures r.effect.Allow? && RuleMatches(r, other) == Ok(other.tool == t.tool && other.value == t.value)
  {
    ExactRuleMatches(t, Allow, Session, other);
    ExactRuleRoundTrip(t, Allow, Session);
    hide ParseRule, RuleMatches;
  }

  lemma StepKeepsSession(s: Control, event: Event)
    requires SessionOk(s.sets.session)
    ensures SessionOk(Step(s, event).sets.session)
    ensures s.sets.session <= Step(s, event).sets.session
  {
    hide AddLocalAllow, ParseRule, ExactRule, SessionOk, AllowsExactly;
    if event.Choose? {
      var parsed := ParseRule(ExactRule(event.target), Allow, Session, {event.target.tool}, []);
      if parsed.Ok? {
        assert AllowsExactly(parsed.value, event.target) by { IsAllowing(parsed.value, event.target); }
        SessionMore(s.sets.session, parsed.value, event.target);
      }
    }
  }

  lemma IsAllowing(rule: Rule, t: Target)
    requires ParseRule(ExactRule(t), Allow, Session, {t.tool}, []) == Ok(rule)
    ensures AllowsExactly(rule, t)
  {
  }

  lemma SessionMore(rules: seq<Rule>, rule: Rule, t: Target)
    requires SessionOk(rules) && AllowsExactly(rule, t)
    ensures SessionOk(rules + [rule])
  {
    assert AllowsOneTarget(rule);
    hide AllowsOneTarget, AllowsExactly;
  }

  lemma {:induction false} RunKeepsSession(s: Control, events: seq<Event>)
    requires SessionOk(s.sets.session)
    ensures SessionOk(Run(s, events).sets.session) && s.sets.session <= Run(s, events).sets.session
    decreases |events|
  {
    hide Step, SessionOk;
    if events != [] {
      RunKeepsSession(s, events[..|events| - 1]);
      StepKeepsSession(Run(s, events[..|events| - 1]), events[|events| - 1]);
    }
  }

  /** A target with a session rule is allowed, whatever the other layers and the mode say. */
  lemma SessionRuleAllows(s: Control, rule: Rule, t: Target, u: Target)
    requires SessionOk(s.sets.session) && rule in s.sets.session && AllowsExactly(rule, t)
    requires u.tool == t.tool && u.value == t.value
    ensures Evaluate(s, u) == Ok(Decision(Allowed, ByRule(Session)))
  {
    var rules := s.sets.session;
    forall i | 0 <= i < |rules| ensures RuleMatches(rules[i], u).Ok? && rules[i].effect.Allow? {
      assert AllowsOneTarget(rules[i]);
      var v :| AllowsExactly(rules[i], v);
      AllowsOnly(rules[i], v, u);
    }
    AllowsOnly(rule, t, u);
    hide RuleMatches, AllowsExactly;
    CandidatesOk(rules, u);
    CandidatesAre(rules, u);
    var found := Candidates(rules, u).value;
    assert rule in found;
    assert Layers(s.sets)[0] == (Session, rules);
    hide Candidates;
    assert MatchRules(s.sets, u) == Ok(Some(Match(Winner(found), Session)));
    var w := Winner(found);
    assert w in rules;
  }

  /**
    A session choice, or a permanent one that could be stored, allows its target in every later
    state and mode.
  */
  lemma ChoiceAllowsForever(s: Control, t: Target, choice: Choice, file: LocalFile, events: seq<Event>, u: Target)
    requires SessionOk(s.sets.session) && (choice.ForSession? || choice.Permanent?)
    requires ApplyChoice(s, t, choice, file).1 == Ok(Decision(Allowed, ByUser))
    requires u.tool == t.tool && u.value == t.value
    ensures Evaluate(Run(ApplyChoice(s, t, choice, file).0, events), u) == Ok(Decision(Allowed, ByRule(Session)))
  {
    var after := ApplyChoice(s, t, choice, file).0;
    var rule := ParseRule(ExactRule(t), Allow, Session, {t.tool}, []).value;
    StepKeepsSession(s, Choose(t, choice, file));
    RunKeepsSession(after, events);
    hide AddLocalAllow, ParseRule, Evaluate, Run, SessionOk;
    assert rule in after.sets.session && AllowsExactly(rule, t);
    assert rule in Run(after, events).sets.session;
    SessionRuleAllows(Run(after, events), rule, t, u);
  }

  /** A session choice succeeds exactly for a tool with a rule name and a value that is not empty. */
  lemma SessionChoiceWorksIff(s: Control, t: Target, file: LocalFile)
    ensures ApplyChoice(s, t, ForSession, file).1.Ok? <==> ToolName(t.tool) && t.value != ""
  {
    ExactRuleRoundTrip(t, Allow, Session);
    hide ParseRule, ExactRule;
  }

  /**
    What a choice decides: refusing denies and allowing once allows, and neither leaves a trace; a session
    choice allows unless no rule can be written for the target; a permanent one denies when the file cannot
    take it and otherwise is a session choice over the rules of the file. No choice touches mode, project or user rules.
  */
  lemma ChoiceMeans(s: Control, t: Target, choice: Choice, file: LocalFile)
    ensures
      var (after, r) := ApplyChoice(s, t, choice, file);
      var stored, writable := AddLocalAllow(file, t), ToolName(t.tool) && t.value != "";
      && after.mode == s.mode && after.sets.project == s.sets.project && after.sets.user == s.sets.user
      && s.sets.session <= after.sets.session
      && (choice.DenyCall? ==> after == s && r == Ok(Decision(Denied, ByUser)))
      && (choice.Once? ==> after == s && r == Ok(Decision(Allowed, ByUser)))
      && (choice.Permanent? && stored.None? ==> after == s && r == Ok(Decision(Denied, ConfigError)))
      && (choice.Permanent? && stored.Some? ==> after.sets.local == stored.value)
      && (!choice.Permanent? ==> after.sets.local == s.sets.local)
      && (choice.ForSession? || (choice.Permanent? && stored.Some?) ==>
            if writable then r == Ok(Decision(Allowed, ByUser)) && HasExact(after.sets.session, t)
            else r.Err? && after.sets.session == s.sets.session)
  {
    var parsed := ParseRule(ExactRule(t), Allow, Session, {t.tool}, []);
    ExactRuleRoundTrip(t, Allow, Session);
    if parsed.Ok? { PrintParsed(ExactRule(t), Allow, Session, {t.tool}, []); }
    hide ParseRule, ExactRule, AddLocalAllow, ToolName;
    if parsed.Ok? {
      var rules := if parsed.value in s.sets.session then s.sets.session else s.sets.session + [parsed.value];
      assert parsed.value in rules;
      assert HasExact(rules, t);
    }
  }

  /** A session choice changes no decision about another tool or value. */
  lemma OthersGainNothing(s: Control, t: Target, file: LocalFile, u: Target)
    requires u.tool != t.tool || u.value != t.value
    ensures Evaluate(ApplyChoice(s, t, ForSession, file).0, u) == Evaluate(s, u)
  {
    var after := ApplyChoice(s, t, ForSession, file).0;
    var parsed := ParseRule(ExactRule(t), Allow, Session, {t.tool}, []);
    assert after == s || (parsed.Ok? && after == s.(sets := s.sets.(session := s.sets.session + [parsed.value])));
    if after != s { SameMatches(s, parsed.value, t, u); }
    hide ParseRule, ExactRule, MatchRules;
  }

  lemma SameMatches(s: Control, rule: Rule, t: Target, u: Target)
    requires AllowsExactly(rule, t) && (u.tool != t.tool || u.value != t.value)
    ensures MatchRules(s.sets.(session := s.sets.session + [rule]), u) == MatchRules(s.sets, u)
  {
    var rules := s.sets.session;
    AllowsOnly(rule, t, u);
    CandidatesJoin(rules, [rule], u);
    OneCandidate(rule, u);
    hide RuleMatches, Candidates, AllowsExactly;
    if Candidates(rules, u).Ok? { assert Candidates(rules, u).value + [] == Candidates(rules, u).value; }
    assert Candidates(rules + [rule], u) == Candidates(rules, u);
    assert Layers(s.sets.(session := rules + [rule]))[1..] == Layers(s.sets)[1..];
  }

  // --- Permanent choices and other targets ------------------------------------------------------------

  /** What the file makes of the exact rule of a target. */
  function FileRule(t: Target, known: set<string>, prefixes: seq<string>): Result<Rule, RuleError> {
    ParseRule(ExactRule(t), Allow, ProjectLocal, known, prefixes)
  }

  /** The exact rule reads as a rule of another tool: the name holds a parenthesis, and the rest parses. */
  predicate NamesOther(t: Target, known: set<string>, prefixes: seq<string>) {
    '(' in t.tool && FileRule(t, known, prefixes).Ok?
  }

  /** The rule is for another tool exactly when the name holds a parenthesis. */
  lemma FileRuleTool(t: Target, known: set<string>, prefixes: seq<string>)
    requires FileRule(t, known, prefixes).Ok?
    ensures FileRule(t, known, prefixes).value.tool == t.tool <==> '(' !in t.tool
    ensures '(' !in t.tool ==> ToolName(t.tool)
  {
    var r := FileRule(t, known, prefixes).value;
    PrintParsed(ExactRule(t), Allow, ProjectLocal, known, prefixes);
    hide ParseRule, EscapeExact, Text.Strip;
    if '(' !in t.tool {
      var e := ExactRule(t);
      assert e == Expression(r) && e[|r.tool|] == '(' && e[..|r.tool|] == r.tool;
      assert e[|t.tool|] == '(' && e[..|t.tool|] == t.tool;
      FindIs(e, '(', |r.tool|);
      FindIs(e, '(', |t.tool|);
    }
  }

  /**
    A permanent choice that could be stored changes no decision about another tool or value, beyond
    what the rules that the file holds by now decide, unless its rule names another tool.
  */
  lemma PermanentChoiceIsLocal(s: Control, t: Target, file: LocalFile, u: Target)
    requires !NamesOther(t, file.known, file.prefixes) && (u.tool != t.tool || u.value != t.value)
    requires file.rules.Some? ==> Loaded(file.rules.value, file.known, file.prefixes)
    ensures
      Evaluate(ApplyChoice(s, t, Permanent, file).0, u)
      == if AddLocalAllow(file, t).None? then Evaluate(s, u)
         else Evaluate(s.(sets := s.sets.(local := file.rules.value)), u)
  {
    hide ApplyChoice, Evaluate, NamesOther, FileRule, Loaded, HasExact, Reload, Written, ExactRule;
    if AddLocalAllow(file, t).Some? && !HasExact(file.rules.value, t) { AddedIsExact(file, t, u); }
    PermanentWithoutMatch(s, t, file, u);
  }

  /** When the file holds the rules of the store, such a permanent choice changes no decision about others. */
  lemma PermanentOthersGainNothing(s: Control, t: Target, file: LocalFile, u: Target)
    requires !NamesOther(t, file.known, file.prefixes) && (u.tool != t.tool || u.value != t.value)
    requires file.rules == Some(s.sets.local) && Loaded(s.sets.local, file.known, file.prefixes)
    ensures Evaluate(ApplyChoice(s, t, Permanent, file).0, u) == Evaluate(s, u)
  {
    PermanentChoiceIsLocal(s, t, file, u);
  }

  /** A permanent choice, stored in a file that holds the rules of the store, changes the decision about `u`. */
  predicate Reaches(s: Control, t: Target, file: LocalFile, u: Target) {
    && file.rules == Some(s.sets.local) && Loaded(s.sets.local, file.known, file.prefixes)
    && (u.tool != t.tool || u.value != t.value)
    && Evaluate(ApplyChoice(s, t, Permanent, file).0, u) != Evaluate(s, u)
  }

  /**
    A permanent choice can change a decision about another tool or value if and only if its exact rule
    reads as a rule of another tool and that rule does not fail to match everything.
  */
  lemma PermanentReachesOthersIff(t: Target, known: set<string>, prefixes: seq<string>)
    ensures
      (exists s: Control, file: LocalFile, u ::
         file.known == known && file.prefixes == prefixes && Reaches(s, t, file, u))
      <==>
      NamesOther(t, known, prefixes) && exists u :: RuleMatches(FileRule(t, known, prefixes).value, u) != Ok(false)
  {
    hide Reaches, RuleMatches, FileRule;
    if s: Control, file: LocalFile, u: Target :|
      file.known == known && file.prefixes == prefixes && Reaches(s, t, file, u)
    {
      ReachedIsMatched(s, t, file, u);
    }
    if NamesOther(t, known, prefixes) {
      if u :| RuleMatches(FileRule(t, known, prefixes).value, u) != Ok(false) {
        MatchedIsReached(t, known, prefixes, u);
      }
    }
  }

  lemma ReachedIsMatched(s: Control, t: Target, file: LocalFile, u: Target)
    requires Reaches(s, t, file, u)
    ensures NamesOther(t, file.known, file.prefixes)
    ensures RuleMatches(FileRule(t, file.known, file.prefixes).value, u) != Ok(false)
  {
    hide ParseRule, ExactRule, Evaluate, ApplyChoice, AddLocalAllow, RuleMatches, Loaded, HasExact;
    if !NamesOther(t, file.known, file.prefixes) {
      PermanentOthersGainNothing(s, t, file, u);
    } else if RuleMatches(FileRule(t, file.known, file.prefixes).value, u) == Ok(false) {
      PermanentWithoutMatch(s, t, file, u);
    }
  }

  /** An empty store and an empty file show it. */
  lemma MatchedIsReached(t: Target, known: set<string>, prefixes: seq<string>, u: Target)
    requires NamesOther(t, known, prefixes) && RuleMatches(FileRule(t, known, prefixes).value, u) != Ok(false)
    ensures Reaches(Control(RuleSets([], [], [], []), Default), t, LocalFile(Some([]), true, known, prefixes), u)
  {
    var rule := FileRule(t, known, prefixes).value;
    WrittenAlone(t, known, prefixes);
    LocalAlone(rule, u);
    EmptyLayers(u);
    hide ParseRule, ExactRule, AddLocalAllow, HasExact, Reload, Written, MatchRules, FullMatch, ApplyChoice;
  }

  /** The choice fails, yet the file and the store then hold its rule. */
  lemma WrittenAlone(t: Target, known: set<string>, prefixes: seq<string>)
    requires NamesOther(t, known, prefixes)
    ensures
      var s, file := Control(RuleSets([], [], [], []), Default), LocalFile(Some([]), true, known, prefixes);
      var rule := FileRule(t, known, prefixes).value;
      && ApplyChoice(s, t, Permanent, file).0 == s.(sets := s.sets.(local := [rule]))
      && ApplyChoice(s, t, Permanent, file).1.Err?
      && rule.tool != t.tool && rule.effect == Allow
  {
    var rule := FileRule(t, known, prefixes).value;
    FileRuleTool(t, known, prefixes);
    FileRuleEffect(t, known, prefixes);
    ExactRuleRoundTrip(t, Allow, Session);
    ReloadWritten([], (ExactRule(t), Allow), known, prefixes);
    assert [] + [rule] == [rule];
    assert !HasExact([], t) && Written([]) + [(ExactRule(t), Allow)] == [(ExactRule(t), Allow)];
    hide ParseRule, ExactRule, Reload, HasExact, Written;
  }

  lemma FileRuleEffect(t: Target, known: set<string>, prefixes: seq<string>)
    requires FileRule(t, known, prefixes).Ok?
    ensures FileRule(t, known, prefixes).value.effect == Allow
  {
  }

  /** A store with one local rule that does not pass over `u`. */
  lemma LocalAlone(rule: Rule, u: Target)
    requires RuleMatches(rule, u) != Ok(false)
    ensures
      var m := MatchRules(RuleSets([], [rule], [], []), u);
      if RuleMatches(rule, u).Ok? then m == Ok(Some(Match(rule, ProjectLocal))) else m.Err?
  {
    var layers := Layers(RuleSets([], [rule], [], []));
    OneCandidate(rule, u);
    assert Candidates([], u) == Ok([]);
    hide RuleMatches, Candidates;
    assert layers[0] == (Session, []) && layers[1..][0] == (ProjectLocal, [rule]);
    assert MatchLayers(layers, u) == MatchLayers(layers[1..], u);
  }

  /**
    A tool name that makes it happen: a permanent choice about a tool `a(b` writes a rule that allows
    another tool `a`, although the choice itself fails.
  */
  lemma BracketedToolLeaks()
    ensures
      var t, u := Target("a(b", "c", Tool), Target("a", "b(c", Tool);
      var s, file := Control(RuleSets([], [], [], []), Default), LocalFile(Some([]), true, {"a"}, []);
      && NamesOther(t, {"a"}, []) && Reaches(s, t, file, u)
      && Evaluate(s, u) == Ok(Decision(Ask, ByMode))
      && ApplyChoice(s, t, Permanent, file).1.Err?
      && Evaluate(ApplyChoice(s, t, Permanent, file).0, u) == Ok(Decision(Allowed, ByRule(ProjectLocal)))
  {
    var t, u := Target("a(b", "c", Tool), Target("a", "b(c", Tool);
    LeakingRule();
    assert t.tool[1] == '(';
    var rule := FileRule(t, {"a"}, []).value;
    OneCandidate(rule, u);
    hide ParseRule, ExactRule, RuleMatches, Reaches, MatchRules, AddLocalAllow, HasExact, Reload, Written;
    MatchedIsReached(t, {"a"}, [], u);
    WrittenAlone(t, {"a"}, []);
    LocalAlone(rule, u);
    EmptyLayers(u);
  }

  lemma EmptyLayers(u: Target)
    ensures MatchRules(RuleSets([], [], [], []), u) == Ok(None)
  {
    var layers := Layers(RuleSets([], [], [], []));
    assert |layers| == 4;
    assert MatchLayers(layers[1..][1..][1..][1..], u) == Ok(None);
    assert MatchLayers(layers[1..][1..][1..], u) == Ok(None);
    assert MatchLayers(layers[1..][1..], u) == Ok(None);
    assert MatchLayers(layers[1..], u) == Ok(None);
  }

  lemma LeakingRule()
    ensures
      var parsed := ParseRule(ExactRule(Target("a(b", "c", Tool)), Allow, ProjectLocal, {"a"}, []);
      && parsed.Ok? && parsed.value.effect == Allow
      && RuleMatches(parsed.value, Target("a", "b(c", Tool)) == Ok(true)
  {
    var value := "b(c";
    EscapedMatchesOnlyItself(value, value, false);
    assert EscapeExact("c") == "c" by { assert "c"[1..] == ""; }
    assert EscapeExact(value) == value by {
      assert value[1..] == "(c" && value[1..][1..] == "c" && value[1..][1..][1..] == "";
      assert EscapeExact("c") == "c" && EscapeExact("(c") == "(c";
    }
    assert ExactRule(Target("a(b", "c", Tool)) == "a" + "(" + value + ")";
    assert ToolName("a") by { assert Text.Strip("a") == "a"; }
    ParseJoined("a", value, Allow, ProjectLocal, {"a"}, []);
    hide ParseRule, Tokenize, Specificity, EscapeExact, ToolName;
  }

  /** The rule that a stored choice adds matches its own target only. */
  lemma AddedIsExact(file: LocalFile, t: Target, u: Target)
    requires AddLocalAllow(file, t).Some? && !HasExact(file.rules.value, t)
    requires Loaded(file.rules.value, file.known, file.prefixes)
    requires !NamesOther(t, file.known, file.prefixes) && (u.tool != t.tool || u.value != t.value)
    ensures FileRule(t, file.known, file.prefixes).Ok?
    ensures RuleMatches(FileRule(t, file.known, file.prefixes).value, u) == Ok(false)
  {
    ReloadWritten(file.rules.value, (ExactRule(t), Allow), file.known, file.prefixes);
    FileRuleTool(t, file.known, file.prefixes);
    PrintParsed(ExactRule(t), Allow, ProjectLocal, file.known, file.prefixes);
    ExactParts(FileRule(t, file.known, file.prefixes).value, t);
    EscapedMatchesOnlyItself(t.value, u.value, IsPath(u.kind));
    hide ParseRule, Candidates, FullMatch, EscapeExact, Reload, ExactRule;
  }

  /** Without a new rule that matches `u` the choice leaves `u` to the rules of the file. */
  lemma PermanentWithoutMatch(s: Control, t: Target, file: LocalFile, u: Target)
    requires u.tool != t.tool || u.value != t.value
    requires file.rules.Some? ==> Loaded(file.rules.value, file.known, file.prefixes)
    requires AddLocalAllow(file, t).Some? && !HasExact(file.rules.value, t) ==>
      var parsed := FileRule(t, file.known, file.prefixes); parsed.Ok? ==> RuleMatches(parsed.value, u) == Ok(false)
    ensures
      Evaluate(ApplyChoice(s, t, Permanent, file).0, u)
      == if AddLocalAllow(file, t).None? then Evaluate(s, u)
         else Evaluate(s.(sets := s.sets.(local := file.rules.value)), u)
  {
    if AddLocalAllow(file, t).Some? {
      var before, rules := file.rules.value, AddLocalAllow(file, t).value;
      var stored, read := s.(sets := s.sets.(local := rules)), s.(sets := s.sets.(local := before));
      AddedKeeps(file, t, u);
      hide AddLocalAllow, Evaluate, Candidates, Loaded, HasExact, FileRule, RuleMatches, ParseRule, ExactRule;
      SameLocal(read, rules, u);
      OthersGainNothing(stored, t, file, u);
      assert ApplyChoice(s, t, Permanent, file).0 == ApplyChoice(stored, t, ForSession, file).0;
    }
  }

  lemma AddedKeeps(file: LocalFile, t: Target, u: Target)
    requires AddLocalAllow(file, t).Some? && Loaded(file.rules.value, file.known, file.prefixes)
    requires !HasExact(file.rules.value, t) ==>
      var parsed := FileRule(t, file.known, file.prefixes); parsed.Ok? ==> RuleMatches(parsed.value, u) == Ok(false)
    ensures Candidates(AddLocalAllow(file, t).value, u) == Candidates(file.rules.value, u)
  {
    var before := file.rules.value;
    if !HasExact(before, t) {
      ReloadWritten(before, (ExactRule(t), Allow), file.known, file.prefixes);
      var added := FileRule(t, file.known, file.prefixes).value;
      assert AddLocalAllow(file, t) == Some(before + [added]);
      hide *;
      CandidatesJoin(before, [added], u);
      OneCandidate(added, u);
      if Candidates(before, u).Ok? { assert Candidates(before, u).value + [] == Candidates(before, u).value; }
    }
  }

  lemma SameLocal(s: Control, rules: seq<Rule>, u: Target)
    requires Candidates(rules, u) == Candidates(s.sets.local, u)
    ensures Evaluate(s.(sets := s.sets.(local := rules)), u) == Evaluate(s, u)
  {
    hide Candidates, Winner;
    var a, b := Layers(s.sets.(local := rules)), Layers(s.sets);
    assert a[0] == b[0] && a[1..][1..] == b[1..][1..];
    assert a[1..][0] == (ProjectLocal, rules) && b[1..][0] == (ProjectLocal, s.sets.local);
    assert MatchLayers(a[1..], u) == MatchLayers(b[1..], u);
    assert MatchLayers(a, u) == MatchLayers(b, u);
  }

  // --- Permanent choices after a restart ------------------------------------------------------------

  /** Rules that were read from a project-local file. */
  predicate Loaded(rules: seq<Rule>, known: set<string>, prefixes: seq<string>) {
    forall i :: 0 <= i < |rules| ==>
        ParseRule(Expression(rules[i]), rules[i].effect, ProjectLocal, known, prefixes) == Ok(rules[i])
  }

  lemma {:induction false} ReloadWritten(
      rules: seq<Rule>, more: (string, Effect), known: set<string>, prefixes: seq<string>)
    requires Loaded(rules, known, prefixes)
    ensures
      var parsed := ParseRule(more.0, more.1, ProjectLocal, known, prefixes);
      Reload(Written(rules) + [more], known, prefixes) == if parsed.Ok? then Some(rules + [parsed.value]) else None
  {
    hide ParseRule, Expression;
    if rules == [] {
      assert Written(rules) + [more] == [more] && [more][1..] == [];
      var none: seq<Rule> := [];
      assert Reload([], known, prefixes) == Some(none);
      var parsed := ParseRule(more.0, more.1, ProjectLocal, known, prefixes);
      if parsed.Ok? { assert [parsed.value] + none == rules + [parsed.value]; }
    } else {
      ReloadWritten(rules[1..], more, known, prefixes);
      assert (Written(rules) + [more])[1..] == Written(rules[1..]) + [more];
      assert (Written(rules) + [more])[0] == (Expression(rules[0]), rules[0].effect);
      var parsed := ParseRule(more.0, more.1, ProjectLocal, known, prefixes);
      if parsed.Ok? { assert [rules[0]] + (rules[1..] + [parsed.value]) == rules + [parsed.value]; }
    }
  }

  /** Choosing the same for the session again changes nothing: its rule is there once. */
  lemma SessionChoiceIsIdempotent(s: Control, t: Target, file: LocalFile, again: LocalFile)
    ensures
      var once := ApplyChoice(s, t, ForSession, file).0;
      && ApplyChoice(once, t, ForSession, again).0 == once
      && (once.sets.session == s.sets.session || |once.sets.session| == |s.sets.session| + 1)
  {
    hide ParseRule, ExactRule;
  }

  /**
    A permanent choice is stored if and only if the file can be read and holds the exact rule already, or can be
    written and the rule is one; what the file held stays, with at most that rule behind it.
  */
  lemma StoredIff(file: LocalFile, t: Target)
    requires file.rules.Some? ==> Loaded(file.rules.value, file.known, file.prefixes)
    ensures AddLocalAllow(file, t).Some? <==>
              && file.rules.Some?
              && (HasExact(file.rules.value, t)
                  || (file.writable && ParseRule(ExactRule(t), Allow, ProjectLocal, file.known, file.prefixes).Ok?))
    ensures AddLocalAllow(file, t).Some? ==>
      var (before, after) := (file.rules.value, AddLocalAllow(file, t).value);
      if HasExact(before, t) then after == before
      else |after| == |before| + 1 && before <= after && Expression(after[|before|]) == ExactRule(t)
  {
    if file.rules.Some? {
      ReloadWritten(file.rules.value, (ExactRule(t), Allow), file.known, file.prefixes);
      var parsed := ParseRule(ExactRule(t), Allow, ProjectLocal, file.known, file.prefixes);
      if parsed.Ok? { PrintParsed(ExactRule(t), Allow, ProjectLocal, file.known, file.prefixes); }
      hide ParseRule, Expression, ExactRule, Reload, HasExact;
    }
  }

  /** A stored permanent choice leaves a readable file that holds the exact rule. */
  lemma StoredHasExact(file: LocalFile, t: Target)
    requires AddLocalAllow(file, t).Some? && Loaded(file.rules.value, file.known, file.prefixes)
    ensures
      var rules := AddLocalAllow(file, t).value;
      Loaded(rules, file.known, file.prefixes) && HasExact(rules, t) && file.rules.value <= rules
  {
    var before, rules := file.rules.value, AddLocalAllow(file, t).value;
    if !HasExact(before, t) {
      ReloadWritten(before, (ExactRule(t), Allow), file.known, file.prefixes);
      var parsed := ParseRule(ExactRule(t), Allow, ProjectLocal, file.known, file.prefixes);
      PrintParsed(ExactRule(t), Allow, ProjectLocal, file.known, file.prefixes);
      hide ParseRule, Expression, ExactRule, Reload;
      assert rules == before + [parsed.value];
      assert Expression(rules[|before|]) == ExactRule(t) && rules[|before|].effect.Allow? by { EffectKept(file, t); }
      assert forall i :: 0 <= i < |before| ==> rules[i] == before[i];
    }
  }

  lemma EffectKept(file: LocalFile, t: Target)
    requires ParseRule(ExactRule(t), Allow, ProjectLocal, file.known, file.prefixes).Ok?
    ensures ParseRule(ExactRule(t), Allow, ProjectLocal, file.known, file.prefixes).value.effect == Allow
  {
  }

  /** The exact text of a target splits at the parenthesis in one way. */
  lemma ExactParts(r: Rule, t: Target)
    requires ToolName(r.tool) && ToolName(t.tool) && Expression(r) == ExactRule(t)
    ensures r.tool == t.tool && r.pattern == EscapeExact(t.value)
  {
    var e := Expression(r);
    hide Text.Strip, EscapeExact;
    assert e[|r.tool|] == '(' && e[..|r.tool|] == r.tool;
    assert e[|t.tool|] == '(' && e[..|t.tool|] == t.tool;
    FindIs(e, '(', |r.tool|);
    FindIs(e, '(', |t.tool|);
    assert e[|r.tool| + 1..|e| - 1] == r.pattern && e[|t.tool| + 1..|e| - 1] == EscapeExact(t.value);
  }

  /** The rule denies the very target. */
  predicate DeniesExactly(r: Rule, t: Target) {
    r.tool == t.tool && r.pattern == EscapeExact(t.value) && r.effect.Deny?
  }

  /** A loaded rule carries the specificity of its pattern. */
  lemma LoadedRule(r: Rule, known: set<string>, prefixes: seq<string>)
    requires ParseRule(Expression(r), r.effect, ProjectLocal, known, prefixes) == Ok(r)
    ensures ToolName(r.tool) && Tokenize(r.pattern).Ok? && r.isExact == IsExact(Tokenize(r.pattern).value)
    ensures r.specificity == Specificity(r.pattern, Tokenize(r.pattern).value)
  {
    PrintParsed(Expression(r), r.effect, ProjectLocal, known, prefixes);
    hide Tokenize, IsExact, Specificity, Text.Strip, StartsWithAny;
  }

  /** A matching rule is the exact one or less specific than it. */
  lemma ExactIsMostSpecific(r: Rule, t: Target, exact: Rule)
    requires Tokenize(r.pattern).Ok? && r.specificity == Specificity(r.pattern, Tokenize(r.pattern).value)
    requires exact.pattern == EscapeExact(t.value)
    requires exact.specificity == Specificity(exact.pattern, Literals(t.value))
    requires RuleMatches(r, t) == Ok(true)
    ensures r.pattern == exact.pattern ==> r.specificity == exact.specificity
    ensures r.pattern != exact.pattern ==> r.specificity.0 < exact.specificity.0
  {
    var tokens := Tokenize(r.pattern).value;
    EscapedMatchesOnlyItself(t.value, t.value, false);
    if IsExact(tokens) {
      ExactMatchesOne(tokens, IsPath(t.kind), t.value);
      ExactGlobIsEscaped(r.pattern);
    }
    hide Tokenize, Matches, RangesOk, FixedText, Count, EscapeExact;
  }

  /** The pattern of the rule compiles: no range of its classes runs downwards. */
  predicate RangesGood(r: Rule, t: Target) {
    Tokenize(r.pattern).Ok? && RangesOk(Tokenize(r.pattern).value, IsPath(t.kind))
  }

  /**
    After a stored permanent choice a new session allows the target if and only if its mode is not the
    strict one, every rule that the file had for the tool compiles, and none denied that very target.
  */
  lemma PermanentSurvivesRestartIff(file: LocalFile, t: Target, project: seq<Rule>, user: seq<Rule>, mode: Mode)
    requires ToolName(t.tool)
    requires AddLocalAllow(file, t).Some? && Loaded(file.rules.value, file.known, file.prefixes)
    ensures
      var decision := Evaluate(Control(RuleSets([], AddLocalAllow(file, t).value, project, user), mode), t);
      decision == Ok(Decision(Allowed, ByRule(ProjectLocal)))
      <==> && !mode.Strict?
           && (forall r :: r in file.rules.value && r.tool == t.tool ==> RangesGood(r, t))
           && (forall r :: r in file.rules.value ==> !DeniesExactly(r, t))
  {
    var rules := AddLocalAllow(file, t).value;
    StoredHasExact(file, t);
    AddedIsGood(file, t);
    hide AddLocalAllow, Loaded, Evaluate, RangesGood;
    CandidatesOkIff(rules, t);
    if Candidates(rules, t).Ok? {
      DecisionOfFile(rules, file.known, file.prefixes, t, project, user, mode);
    } else {
      LocalFails(RuleSets([], rules, project, user), mode, t);
    }
  }

  /** The rule that the choice adds compiles and denies nothing. */
  lemma AddedIsGood(file: LocalFile, t: Target)
    requires ToolName(t.tool) && AddLocalAllow(file, t).Some? && Loaded(file.rules.value, file.known, file.prefixes)
    ensures
      var before, rules := file.rules.value, AddLocalAllow(file, t).value;
      && ((forall r :: r in rules && r.tool == t.tool ==> RangesGood(r, t))
          <==> (forall r :: r in before && r.tool == t.tool ==> RangesGood(r, t)))
      && ((forall r :: r in rules ==> !DeniesExactly(r, t)) <==> (forall r :: r in before ==> !DeniesExactly(r, t)))
  {
    var before, rules := file.rules.value, AddLocalAllow(file, t).value;
    if !HasExact(before, t) {
      ReloadWritten(before, (ExactRule(t), Allow), file.known, file.prefixes);
      var parsed := ParseRule(ExactRule(t), Allow, ProjectLocal, file.known, file.prefixes);
      PrintParsed(ExactRule(t), Allow, ProjectLocal, file.known, file.prefixes);
      assert rules == before + [parsed.value];
      EffectKept(file, t);
      ExactParts(parsed.value, t);
      EscapedMatchesOnlyItself(t.value, t.value, IsPath(t.kind));
      assert RangesGood(parsed.value, t) by { LiteralRanges(t.value, IsPath(t.kind)); }
      hide *;
    }
  }

  lemma LiteralRanges(value: string, path: bool)
    ensures Tokenize(EscapeExact(value)) == Ok(Literals(value)) && RangesOk(Literals(value), path)
  {
    EscapedMatchesOnlyItself(value, value, path);
    ExactMatchesOne(Literals(value), path, value);
  }

  lemma {:induction false} CandidatesOkIff(rules: seq<Rule>, t: Target)
    ensures Candidates(rules, t).Ok? <==> forall r :: r in rules && r.tool == t.tool ==> RangesGood(r, t)
  {
    if rules != [] {
      CandidatesOkIff(rules[1..], t);
      assert rules == [rules[0]] + rules[1..];
      assert RuleMatches(rules[0], t).Ok?
          <==> (rules[0].tool == t.tool ==> RangesGood(rules[0], t)) by {
        hide Tokenize, RangesOk, Matches;
      }
      hide RuleMatches, RangesGood;
    }
  }

  lemma LocalFails(sets: RuleSets, mode: Mode, t: Target)
    requires sets.session == [] && Candidates(sets.local, t).Err?
    ensures Evaluate(Control(sets, mode), t).Err?
  {
    var layers := Layers(sets);
    assert Candidates([], t) == Ok([]);
    hide Candidates, Winner;
    assert layers[0] == (Session, []) && layers[1..][0] == (ProjectLocal, sets.local);
    assert MatchLayers(layers, t) == MatchLayers(layers[1..], t);
  }

  lemma DecisionOfFile(
      rules: seq<Rule>, known: set<string>, prefixes: seq<string>, t: Target, project: seq<Rule>, user: seq<Rule>,
      mode: Mode)
    requires ToolName(t.tool) && Loaded(rules, known, prefixes) && HasExact(rules, t) && Candidates(rules, t).Ok?
    ensures
      Evaluate(Control(RuleSets([], rules, project, user), mode), t) == Ok(Decision(Allowed, ByRule(ProjectLocal)))
      <==> !mode.Strict? && forall r :: r in rules ==> !DeniesExactly(r, t)
  {
    hide Candidates, ParseRule, Loaded, MatchRules, HasExact, ToolName, RuleMatches;
    var k := ExactPlace(rules, t);
    var found := Candidates(rules, t).value;
    var sets := RuleSets([], rules, project, user);
    var exact := FoundExact(rules, known, prefixes, t, k);
    CandidatesAre(rules, t);
    var w := Winner(found);
    WinnerIsExact(rules, known, prefixes, t, exact, w);
    LocalDecides(sets, t);
    if exists r :: r in rules && DeniesExactly(r, t) {
      var r :| r in rules && DeniesExactly(r, t);
      DenierMatches(r, t);
      assert r in found;
    }
  }

  /** A file that takes the choice and still denies its target after a restart. */
  lemma DenyingFileOverrules(t: Target, project: seq<Rule>, user: seq<Rule>, mode: Mode)
    requires ToolName(t.tool) && t.value != ""
    ensures
      var parsed := ParseRule(ExactRule(t), Deny, ProjectLocal, {t.tool}, []);
      parsed.Ok? &&
      var file := LocalFile(Some([parsed.value]), true, {t.tool}, []);
      && AddLocalAllow(file, t).Some?
      && Evaluate(Control(RuleSets([], AddLocalAllow(file, t).value, project, user), mode), t)
         != Ok(Decision(Allowed, ByRule(ProjectLocal)))
  {
    ExactRuleRoundTrip(t, Deny, ProjectLocal);
    ExactRuleRoundTrip(t, Allow, ProjectLocal);
    var deny := ParseRule(ExactRule(t), Deny, ProjectLocal, {t.tool}, []).value;
    var file := LocalFile(Some([deny]), true, {t.tool}, []);
    PrintParsed(ExactRule(t), Deny, ProjectLocal, {t.tool}, []);
    assert Loaded([deny], {t.tool}, []);
    ReloadWritten([deny], (ExactRule(t), Allow), {t.tool}, []);
    assert AddLocalAllow(file, t).Some? && deny in [deny] && DeniesExactly(deny, t) by {
      hide ParseRule, ExactRule, Reload;
    }
    hide *;
    PermanentSurvivesRestartIff(file, t, project, user, mode);
  }

  lemma ExactPlace(rules: seq<Rule>, t: Target) returns (k: nat)
    requires HasExact(rules, t)
    ensures k < |rules| && Expression(rules[k]) == ExactRule(t) && rules[k].effect.Allow?
  {
    hide Expression, ExactRule;
    k :| 0 <= k < |rules| && Expression(rules[k]) == ExactRule(t) && rules[k].effect.Allow?;
  }

  /** The exact rule of the file is a candidate. */
  lemma FoundExact(rules: seq<Rule>, known: set<string>, prefixes: seq<string>, t: Target, k: nat) returns (exact: Rule)
    requires Loaded(rules, known, prefixes) && Candidates(rules, t).Ok? && ToolName(t.tool)
    requires k < |rules| && Expression(rules[k]) == ExactRule(t) && rules[k].effect.Allow?
    ensures exact in Candidates(rules, t).value && exact.effect.Allow? && exact.tool == t.tool
    ensures exact.pattern == EscapeExact(t.value) && exact.specificity == Specificity(exact.pattern, Literals(t.value))
  {
    exact := rules[k];
    LoadedRule(exact, known, prefixes);
    ExactParts(exact, t);
    EscapedMatchesOnlyItself(t.value, t.value, IsPath(t.kind));
    CandidatesAre(rules, t);
    hide Candidates, ParseRule, Tokenize, FullMatch, Expression, ExactRule, EscapeExact, Specificity;
  }

  lemma DenierMatches(r: Rule, t: Target)
    requires DeniesExactly(r, t)
    ensures RuleMatches(r, t) == Ok(true)
  {
    EscapedMatchesOnlyItself(t.value, t.value, IsPath(t.kind));
    hide FullMatch, EscapeExact;
  }

  /** The winner is the exact pattern, and a denying one if there is any. */
  lemma WinnerIsExact(rules: seq<Rule>, known: set<string>, prefixes: seq<string>, t: Target, exact: Rule, w: Rule)
    requires Loaded(rules, known, prefixes) && Candidates(rules, t).Ok? && exact in Candidates(rules, t).value
    requires exact.effect.Allow? && exact.tool == t.tool && exact.pattern == EscapeExact(t.value)
    requires exact.specificity == Specificity(exact.pattern, Literals(t.value))
    requires w == Winner(Candidates(rules, t).value)
    ensures w in rules && w.tool == t.tool && w.pattern == EscapeExact(t.value)
    ensures forall r :: r in Candidates(rules, t).value && DeniesExactly(r, t) ==> w.effect.Deny?
  {
    var found := Candidates(rules, t).value;
    CandidatesAre(rules, t);
    assert w in found;
    LoadedIn(rules, known, prefixes, w);
    ExactIsMostSpecific(w, t, exact);
    assert w.tool == t.tool;
    hide Candidates, Loaded, Specificity, EscapeExact, RuleMatches, Tokenize;
    assert !Below(w, exact);
    forall r | r in found && DeniesExactly(r, t) ensures w.effect.Deny? {
      LoadedIn(rules, known, prefixes, r);
      ExactIsMostSpecific(r, t, exact);
      assert !Below(w, r);
    }
  }

  lemma LoadedIn(rules: seq<Rule>, known: set<string>, prefixes: seq<string>, r: Rule)
    requires Loaded(rules, known, prefixes) && r in rules
    ensures Tokenize(r.pattern).Ok? && r.specificity == Specificity(r.pattern, Tokenize(r.pattern).value)
  {
    hide ParseRule;
    LoadedRule(r, known, prefixes);
  }

  /** With no session rule a matching local rule decides. */
  lemma LocalDecides(sets: RuleSets, t: Target)
    requires sets.session == [] && Candidates(sets.local, t).Ok? && Candidates(sets.local, t).value != []
    ensures MatchRules(sets, t) == Ok(Some(Match(Winner(Candidates(sets.local, t).value), ProjectLocal)))
  {
    var layers := Layers(sets);
    assert Candidates([], t) == Ok([]);
    hide Candidates, Winner;
    assert layers[0] == (Session, []);
    assert MatchLayers(layers, t) == MatchLayers(layers[1..], t);
    assert layers[1..][0] == (ProjectLocal, sets.local);
  }
}

/** Why an agent run stops, and what it has stored by then (`src/mewcode/agent/runner.py`). */
module AgentOutcomes {
  import opened Wrappers
  import opened Chat
  import opened HistorySelection
  import opened ProviderMessages
  import opened AgentLoop
  import Text

  // --- The checks of an iteration ----------------------------------------------------------

  /** What an iteration knows of the past: its number, the counts of past rounds, and where it stands. */
  datatype Facts = Facts(
    iteration: nat, unknown: nat, denied: nat, finalizing: bool, userStored: bool, canCompact: bool)

  /** A reason to stop, if it applies. */
  datatype Check = Check(applies: bool, reason: StopReason)

  function FirstStop(checks: seq<Check>): Option<StopReason> {
    if checks == [] then None
    else if checks[0].applies then Some(checks[0].reason)
    else FirstStop(checks[1..])
  }

  lemma {:induction false} FirstStopJoin(a: seq<Check>, b: seq<Check>)
    ensures FirstStop(a + b) == if FirstStop(a).Some? then FirstStop(a) else FirstStop(b)
  {
    if a == [] {
      assert a + b == b;
    } else {
      assert (a + b)[1..] == a[1..] + b;
      FirstStopJoin(a[1..], b);
    }
  }

  /** A run that is cancelled ends so, any other exception is an error. */
  function Broken(cancelled: bool): StopReason {
    if cancelled then Cancelled else Error
  }

  function PollChecks(f: Facts, poll: Poll): seq<Check> {
    match poll
    case NoBatch => []
    case NoSink => [Check(true, SessionPersistence)]
    case PollEnds(cancelled) => [Check(true, Broken(cancelled))]
    case Batched(_, userStored, stored, acknowledged) =>
      [Check(!f.userStored && !userStored, SessionPersistence),
       Check(!stored, SessionPersistence),
       Check(!acknowledged.Fine?, Broken(acknowledged.Interrupted?))]
  }

  function PrepareChecks(c: Config, f: Facts, preparation: Preparation): seq<Check> {
    match preparation
    case Fits => []
    case Refused(capacity) => [Check(true, if capacity then ContextCapacity else ContextCompaction)]
    case PreparationEnds(cancelled) => [Check(true, Broken(cancelled))]
    case Shortened(_, fits, stored) =>
      [Check(c.seed.Some? && f.iteration == 1, ContextCapacity),
       Check(!f.canCompact, ContextCapacity),
       Check(!stored, SessionPersistence),
       Check(!fits, ContextCapacity)]
  }

  /** An answer without calls, in the last phase of a plan or outside plans. */
  function AnswerChecks(r: Response, stored: bool): seq<Check> {
    [Check(Text.IsBlank(r.text), EmptyResponse), Check(!stored, SessionPersistence), Check(true, Completed)]
  }

  function RoundChecks(c: Config, f: Facts, t: Turn, r: Response): seq<Check> {
    match t.tools
    case ToolsEnd(cancelled) => [Check(true, Broken(cancelled))]
    case Ran(executions, cancelled) =>
      var unknown := if forall i :: 0 <= i < |r.calls| ==> r.calls[i].name !in t.known then f.unknown + 1 else 0;
      var denied :=
        if executions != [] && (forall i :: 0 <= i < |executions| ==> executions[i].denied) then f.denied + 1 else 0;
      [Check(!t.archived, ContextCompaction),
       Check(!t.stored, SessionPersistence),
       Check(exists i :: 0 <= i < |executions| && executions[i].safePause, SafePause),
       Check(cancelled, Cancelled),
       Check(unknown >= c.unknownLimit, UnknownToolLimit),
       Check(c.denialLimit.Some? && denied >= c.denialLimit.value, ToolDenialLimit)]
  }

  function ResponseChecks(c: Config, f: Facts, t: Turn): seq<Check> {
    match t.stream
    case StreamEnds(cancelled) => [Check(true, Broken(cancelled))]
    case ProviderFails => [Check(true, StreamError)]
    case Replied(r) =>
      [Check(r.finish.Natural? && r.calls != [], Error),
       Check(r.finish.ToolCalls? && r.calls == [], Error),
       Check(r.finish.OutputLimit?, OutputLimitReached)]
      + if f.finalizing then [Check(r.finish.ToolCalls?, Error)] + AnswerChecks(r, t.stored)
        else if r.finish.Natural? then
          (if c.plan then [Check(!t.stored, SessionPersistence)] else AnswerChecks(r, t.stored))
        else [Check(!c.plan && f.iteration == c.maxIterations, IterationLimit)] + RoundChecks(c, f, t, r)
  }

  /** All reasons to stop in an iteration, in the order in which they are looked for. */
  function Checks(c: Config, f: Facts, t: Turn): seq<Check> {
    [Check(t.cancelRequested, Cancelled)] + PollChecks(f, t.poll) + PrepareChecks(c, f, t.preparation)
    + ResponseChecks(c, f, t)
  }

  // --- An iteration stops for the first reason that applies -------------------------------------

  /** What the next iteration of `s` knows. */
  function FactsOf(c: Config, s: Loop, t: Turn): Facts {
    Facts(s.iteration + 1, s.unknown, s.denied, s.finalizing, s.userDone,
          Select(c.floors, s.working + if t.poll.Batched? then t.poll.messages else []).canCompact)
  }

  /** The run goes on exactly when no reason applies, and stops for the first one otherwise. */
  predicate StopsFor(q: Loop, reason: Option<StopReason>) {
    && (q.outcome.Some? <==> reason.Some?)
    && (q.outcome.Some? ==> q.outcome.value.reason == reason.value)
  }

  /** Nothing that the checks ask for differs, but for the user message. */
  predicate SameFacts(s: Loop, q: Loop) {
    q.iteration == s.iteration && q.unknown == s.unknown && q.denied == s.denied && q.finalizing == s.finalizing
  }

  lemma PollStops(c: Config, s: Loop, t: Turn)
    requires s.outcome.None?
    ensures
      var q := PollStage(c, s, t.poll);
      && StopsFor(q, FirstStop(PollChecks(FactsOf(c, s, t).(iteration := s.iteration), t.poll))) && SameFacts(s, q)
      && (q.outcome.None? ==> q.working == s.working + if t.poll.Batched? then t.poll.messages else [])
  {
    hide Select, FirstStop;
    assert s.working + [] == s.working;
    match t.poll
    case Batched(_, _, _, _) => ThreeChecks(PollChecks(FactsOf(c, s, t).(iteration := s.iteration), t.poll));
    case NoBatch => NoCheck();
    case NoSink => OneCheck(Check(true, SessionPersistence));
    case PollEnds(cancelled) => OneCheck(Check(true, Broken(cancelled)));
  }

  lemma NoCheck()
    ensures FirstStop([]) == None
  {
  }

  lemma PrepareStops(c: Config, s: Loop, f: Facts, preparation: Preparation)
    requires s.outcome.None? && f.iteration == s.iteration && f.canCompact == Select(c.floors, s.working).canCompact
    ensures
      var q := PrepareStage(c, s, preparation);
      StopsFor(q, FirstStop(PrepareChecks(c, f, preparation))) && SameFacts(s, q)
  {
    hide Select, Compacted, WithoutUser, FirstStop;
    match preparation
    case Shortened(_, _, _) => FourChecks(PrepareChecks(c, f, preparation));
    case Fits => NoCheck();
    case Refused(capacity) => OneCheck(Check(true, if capacity then ContextCapacity else ContextCompaction));
    case PreparationEnds(cancelled) => OneCheck(Check(true, Broken(cancelled)));
  }

  lemma AnswerStops(c: Config, s: Loop, r: Response, stored: bool)
    requires s.outcome.None?
    ensures !r.finish.ToolCalls? ==> StopsFor(FinalPlanStage(c, s, r, stored), FirstStop(AnswerChecks(r, stored)))
    ensures r.finish.ToolCalls? ==> StopsFor(FinalPlanStage(c, s, r, stored), Some(Error))
    ensures !c.plan ==> StopsFor(NaturalStage(c, s, r, stored), FirstStop(AnswerChecks(r, stored)))
    ensures c.plan ==> StopsFor(NaturalStage(c, s, r, stored), if stored then None else Some(SessionPersistence))
  {
    hide AssistantMessages, Text.IsBlank, FirstStop;
    ThreeChecks(AnswerChecks(r, stored));
  }

  lemma RoundStops(c: Config, s: Loop, f: Facts, t: Turn, r: Response)
    requires s.outcome.None? && f.unknown == s.unknown && f.denied == s.denied
    ensures StopsFor(ToolStage(c, s, r, t), FirstStop(RoundChecks(c, f, t, r)))
  {
    hide FirstStop, Round, GroupId;
    match t.tools
    case ToolsEnd(cancelled) => OneCheck(Check(true, Broken(cancelled)));
    case Ran(_, _) => SixChecks(RoundChecks(c, f, t, r));
  }

  lemma SixChecks(cs: seq<Check>)
    requires |cs| == 6
    ensures FirstStop(cs)
         == if cs[0].applies then Some(cs[0].reason) else if cs[1].applies then Some(cs[1].reason)
            else if cs[2].applies then Some(cs[2].reason) else if cs[3].applies then Some(cs[3].reason)
            else if cs[4].applies then Some(cs[4].reason) else if cs[5].applies then Some(cs[5].reason) else None
  {
    hide FirstStop;
    ThreeChecks(cs[..3]);
    ThreeChecks(cs[3..]);
    FirstStopJoin(cs[..3], cs[3..]);
    assert cs == cs[..3] + cs[3..];
  }

  lemma FourChecks(cs: seq<Check>)
    requires |cs| == 4
    ensures FirstStop(cs)
         == if cs[0].applies then Some(cs[0].reason) else if cs[1].applies then Some(cs[1].reason)
            else if cs[2].applies then Some(cs[2].reason) else if cs[3].applies then Some(cs[3].reason) else None
  {
    hide FirstStop;
    ThreeChecks(cs[..3]);
    OneCheck(cs[3]);
    FirstStopJoin(cs[..3], [cs[3]]);
    assert cs == cs[..3] + [cs[3]];
  }

  lemma ThreeChecks(cs: seq<Check>)
    requires |cs| == 3
    ensures FirstStop(cs)
         == if cs[0].applies then Some(cs[0].reason) else if cs[1].applies then Some(cs[1].reason)
            else if cs[2].applies then Some(cs[2].reason) else None
  {
    hide FirstStop;
    OneCheck(cs[0]);
    OneCheck(cs[1]);
    OneCheck(cs[2]);
    FirstStopJoin([cs[0]], [cs[1]]);
    FirstStopJoin([cs[0]] + [cs[1]], [cs[2]]);
    assert cs == [cs[0]] + [cs[1]] + [cs[2]];
  }

  lemma OneCheck(k: Check)
    ensures FirstStop([k]) == if k.applies then Some(k.reason) else None
  {
    assert [k][1..] == [];
  }

  lemma ResponseStops(c: Config, s: Loop, f: Facts, t: Turn)
    requires s.outcome.None? && f.iteration == s.iteration && f.unknown == s.unknown && f.denied == s.denied
    requires f.finalizing == s.finalizing
    ensures StopsFor(ResponseStage(c, s, t), FirstStop(ResponseChecks(c, f, t)))
  {
    match t.stream
    case StreamEnds(cancelled) => OneCheck(Check(true, Broken(cancelled)));
    case ProviderFails => OneCheck(Check(true, StreamError));
    case Replied(r) => RepliedStops(c, s, f, t, r);
  }

  lemma RepliedStops(c: Config, s: Loop, f: Facts, t: Turn, r: Response)
    requires s.outcome.None? && f.iteration == s.iteration && f.unknown == s.unknown && f.denied == s.denied
    requires f.finalizing == s.finalizing && t.stream == Replied(r)
    ensures StopsFor(ResponseStage(c, s, t), FirstStop(ResponseChecks(c, f, t)))
  {
    var head := [Check(r.finish.Natural? && r.calls != [], Error), Check(r.finish.ToolCalls? && r.calls == [], Error),
                 Check(r.finish.OutputLimit?, OutputLimitReached)];
    ThreeChecks(head);
    AnswerStops(c, s, r, t.stored);
    RoundStops(c, s, f, t, r);
    OneCheck(Check(r.finish.ToolCalls?, Error));
    OneCheck(Check(!t.stored, SessionPersistence));
    OneCheck(Check(!c.plan && f.iteration == c.maxIterations, IterationLimit));
    hide FirstStop, AnswerChecks, RoundChecks, FinalPlanStage, NaturalStage, ToolStage;
    if s.finalizing {
      FirstStopJoin([Check(r.finish.ToolCalls?, Error)], AnswerChecks(r, t.stored));
      FirstStopJoin(head, [Check(r.finish.ToolCalls?, Error)] + AnswerChecks(r, t.stored));
    } else if r.finish.Natural? {
      FirstStopJoin(head, if c.plan then [Check(!t.stored, SessionPersistence)] else AnswerChecks(r, t.stored));
    } else {
      var limit := [Check(!c.plan && f.iteration == c.maxIterations, IterationLimit)];
      FirstStopJoin(limit, RoundChecks(c, f, t, r));
      FirstStopJoin(head, limit + RoundChecks(c, f, t, r));
    }
  }

  /** Main lemma: an iteration stops for the first reason that applies, and goes on when none does. */
  lemma IterationStops(c: Config, s: Loop, t: Turn)
    requires s.outcome.None?
    ensures StopsFor(Iterate(c, s, t), FirstStop(Checks(c, FactsOf(c, s, t), t)))
  {
    var f, begun := FactsOf(c, s, t), s.(iteration := s.iteration + 1);
    var cancel := [Check(t.cancelRequested, Cancelled)];
    IterateStages(c, s, t);
    OneCheck(cancel[0]);
    FirstStopJoin(cancel, PollChecks(f, t.poll));
    FirstStopJoin(cancel + PollChecks(f, t.poll), PrepareChecks(c, f, t.preparation));
    FirstStopJoin(cancel + PollChecks(f, t.poll) + PrepareChecks(c, f, t.preparation), ResponseChecks(c, f, t));
    PollStops(c, begun, t);
    assert FactsOf(c, begun, t).(iteration := begun.iteration) == f;
    hide FirstStop, PollChecks, PrepareChecks, ResponseChecks, PollStage, PrepareStage, ResponseStage, Iterate, Select;
    if !t.cancelRequested {
      var polled := PollStage(c, begun, t.poll);
      if polled.outcome.None? {
        PrepareStops(c, polled, f, t.preparation);
        var prepared := PrepareStage(c, polled, t.preparation);
        if prepared.outcome.None? { ResponseStops(c, prepared, f, t); }
      }
    }
  }

  // --- The counts of a run --------------------------------------------------------------------

  /** The turn runs a tool round, if the run gets that far. */
  predicate CallsTools(t: Turn) {
    t.stream.Replied? && t.stream.response.finish.ToolCalls?
  }

  predicate AnswersNaturally(t: Turn) {
    t.stream.Replied? && t.stream.response.finish.Natural?
  }

  /** No call is of a known tool. */
  predicate AllNew(calls: seq<ToolCall>, known: set<string>) {
    forall i :: 0 <= i < |calls| ==> calls[i].name !in known
  }

  /** How many of the last tool rounds in a row called only unknown tools. */
  function UnknownStreak(turns: seq<Turn>): nat {
    if turns == [] then 0
    else
      var t, before := turns[|turns| - 1], UnknownStreak(turns[..|turns| - 1]);
      if !CallsTools(t) then before
      else if AllNew(t.stream.response.calls, t.known) then before + 1
      else 0
  }

  /** How many of the last tool rounds in a row were denied as a whole. */
  function DeniedStreak(turns: seq<Turn>): nat {
    if turns == [] then 0
    else
      var t, before := turns[|turns| - 1], DeniedStreak(turns[..|turns| - 1]);
      if !CallsTools(t) || !t.tools.Ran? then before
      else if t.tools.executions != [] && forall i :: 0 <= i < |t.tools.executions| ==> t.tools.executions[i].denied
      then before + 1
      else 0
  }

  /** A plan is in its last phase after a natural answer and after its last round of investigation. */
  predicate LastPhase(c: Config, turns: seq<Turn>) {
    c.plan && turns != [] && (AnswersNaturally(turns[|turns| - 1]) || |turns| == c.planLimit)
  }

  /** What a run that is still going knows after these turns. */
  predicate Past(c: Config, turns: seq<Turn>, s: Loop) {
    && s.iteration == |turns| && s.unknown == UnknownStreak(turns) && s.denied == DeniedStreak(turns)
    && (s.finalizing <==> LastPhase(c, turns)) && (s.userDone <==> turns != [])
  }

  lemma {:induction false} IterationsSnoc(c: Config, s: Loop, turns: seq<Turn>, t: Turn)
    ensures Iterations(c, s, turns + [t])
         == if Iterations(c, s, turns).outcome.Some? then Iterations(c, s, turns)
            else Iterate(c, Iterations(c, s, turns), t)
    decreases |turns|
  {
    hide Iterate;
    if turns == [] {
      assert turns + [t] == [t] && [t][1..] == [];
      assert Iterations(c, Iterate(c, s, t), []) == Iterate(c, s, t);
    } else {
      assert (turns + [t])[0] == turns[0] && (turns + [t])[1..] == turns[1..] + [t];
      if s.outcome.None? { IterationsSnoc(c, Iterate(c, s, turns[0]), turns[1..], t); }
    }
  }

  /** A response after which the run goes on: an investigation answer, or a tool round. */
  predicate Continues(c: Config, s: Loop, t: Turn, q: Loop) {
    && !s.finalizing && (AnswersNaturally(t) || CallsTools(t)) && q.iteration == s.iteration && q.userDone
    && (AnswersNaturally(t) ==> c.plan && q.finalizing && q.unknown == s.unknown && q.denied == s.denied)
    && (CallsTools(t) ==>
          && t.tools.Ran? && (q.finalizing <==> c.plan && s.iteration == c.planLimit)
          && q.unknown == (if AllUnknown(t.stream.response.calls, t.known) then s.unknown + 1 else 0)
          && q.denied == (if AllDenied(t.tools.executions) then s.denied + 1 else 0))
  }

  lemma ResponseContinues(c: Config, s: Loop, t: Turn)
    requires s.outcome.None? && ResponseStage(c, s, t).outcome.None?
    ensures Continues(c, s, t, ResponseStage(c, s, t))
  {
    hide AssistantMessages, Text.IsBlank;
    if t.stream.Replied? && t.stream.response.finish.ToolCalls? && !s.finalizing {
      RoundContinues(c, s, t.stream.response, t);
      hide ToolStage;
    } else {
      hide ToolStage;
    }
  }

  lemma RoundContinues(c: Config, s: Loop, r: Response, t: Turn)
    requires s.outcome.None? && ToolStage(c, s, r, t).outcome.None? && !s.finalizing
    ensures
      var q := ToolStage(c, s, r, t);
      && t.tools.Ran? && q.iteration == s.iteration && q.userDone
      && (q.finalizing <==> c.plan && s.iteration == c.planLimit)
      && q.unknown == (if AllUnknown(r.calls, t.known) then s.unknown + 1 else 0)
      && q.denied == (if AllDenied(t.tools.executions) then s.denied + 1 else 0)
  {
    hide Round, GroupId, AllUnknown, AllDenied, Pauses;
  }

  lemma StepPast(c: Config, turns: seq<Turn>, s: Loop, t: Turn)
    requires s.outcome.None? && Past(c, turns, s) && Iterate(c, s, t).outcome.None?
    ensures Past(c, turns + [t], Iterate(c, s, t))
  {
    var begun := s.(iteration := s.iteration + 1);
    IterateStages(c, s, t);
    PollStops(c, begun, t);
    var polled := PollStage(c, begun, t.poll);
    hide PollStage, PrepareStage, ResponseStage, Iterate, Select, FirstStop, PollChecks, PrepareChecks;
    var f := FactsOf(c, s, t).(canCompact := Select(c.floors, polled.working).canCompact);
    if !t.cancelRequested && polled.outcome.None? {
      PrepareStops(c, polled, f, t.preparation);
      var prepared := PrepareStage(c, polled, t.preparation);
      if prepared.outcome.None? {
        ResponseContinues(c, prepared, t);
        PastAfter(c, turns, s, prepared, t, ResponseStage(c, prepared, t));
      }
    }
  }

  lemma PastAfter(c: Config, turns: seq<Turn>, s: Loop, prepared: Loop, t: Turn, q: Loop)
    requires Past(c, turns, s) && Continues(c, prepared, t, q)
    requires SameFacts(s.(iteration := s.iteration + 1), prepared)
    ensures Past(c, turns + [t], q)
  {
    assert (turns + [t])[..|turns|] == turns;
  }

  lemma {:induction false} RunPast(c: Config, history: seq<ChatMessage>, turns: seq<Turn>)
    requires Iterations(c, Init(c, history), turns).outcome.None?
    ensures Past(c, turns, Iterations(c, Init(c, history), turns))
    decreases |turns|
  {
    hide *;
    if turns != [] {
      var before, t := turns[..|turns| - 1], turns[|turns| - 1];
      assert turns == before + [t];
      IterationsSnoc(c, Init(c, history), before, t);
      RunPast(c, history, before);
      StepPast(c, before, Iterations(c, Init(c, history), before), t);
    } else {
      StartPast(c, history);
    }
  }

  lemma StartPast(c: Config, history: seq<ChatMessage>)
    ensures Past(c, [], Iterations(c, Init(c, history), []))
  {
    hide Base;
  }

  /** The facts of the next iteration, from the turns so far and the history they left. */
  function FactsAfter(c: Config, turns: seq<Turn>, working: seq<ChatMessage>, t: Turn): Facts {
    Facts(|turns| + 1, UnknownStreak(turns), DeniedStreak(turns), LastPhase(c, turns), turns != [],
          Select(c.floors, working + if t.poll.Batched? then t.poll.messages else []).canCompact)
  }

  /**
    Every run stops at its first turn for which a reason applies, with the first such reason, and at no other:
    the reasons are found from that turn, the number of turns before it and the rounds among them. A run whose
    turns all go on ends in an error.
  */
  lemma RunStopsFor(c: Config, history: seq<ChatMessage>, turns: seq<Turn>) returns (k: nat)
    requires |turns| >= LoopLimit(c)
    ensures k <= LoopLimit(c) && Iterations(c, Init(c, history), turns[..k]).outcome.None?
    ensures k == LoopLimit(c) ==> Run(c, history, turns).outcome.value.reason == Error
    ensures k < LoopLimit(c) ==>
      var s := Iterations(c, Init(c, history), turns[..k]);
      && Run(c, history, turns) == Iterate(c, s, turns[k])
      && FirstStop(Checks(c, FactsAfter(c, turns[..k], s.working, turns[k]), turns[k]))
         == Some(Run(c, history, turns).outcome.value.reason)
    ensures forall j :: 0 <= j < k ==>
      var s := Iterations(c, Init(c, history), turns[..j]);
      s.outcome.None? && FirstStop(Checks(c, FactsAfter(c, turns[..j], s.working, turns[j]), turns[j])).None?
  {
    k := FirstEnd(c, history, turns, LoopLimit(c));
    hide Iterations, Iterate, FirstStop, Checks, FactsAfter, Init, LoopLimit, GoesOn;
    forall j | 0 <= j < k
      ensures
        var s := Iterations(c, Init(c, history), turns[..j]);
        s.outcome.None? && FirstStop(Checks(c, FactsAfter(c, turns[..j], s.working, turns[j]), turns[j])).None?
    {
      GoesOnSays(c, history, turns, j);
    }
    if k < LoopLimit(c) {
      EndSays(c, history, turns, k);
    }
  }

  /** After the first `j` turns the run is still going, and turn `j` does not stop it. */
  predicate GoesOn(c: Config, history: seq<ChatMessage>, turns: seq<Turn>, j: nat)
    requires j < |turns|
  {
    && Iterations(c, Init(c, history), turns[..j]).outcome.None?
    && Iterations(c, Init(c, history), turns[..j + 1]).outcome.None?
  }

  lemma {:induction false} FirstEnd(c: Config, history: seq<ChatMessage>, turns: seq<Turn>, limit: nat) returns (k: nat)
    requires limit <= |turns|
    ensures k <= limit && Iterations(c, Init(c, history), turns[..k]).outcome.None?
    ensures k < limit ==> Iterations(c, Init(c, history), turns[..k + 1]).outcome.Some?
    ensures forall j :: 0 <= j < k ==> GoesOn(c, history, turns, j)
    decreases limit
  {
    hide Iterations, Init;
    if limit == 0 {
      k := 0;
      Begins(c, history, turns);
    } else {
      k := FirstEnd(c, history, turns, limit - 1);
      if k == limit - 1 && Iterations(c, Init(c, history), turns[..limit]).outcome.None? {
        assert GoesOn(c, history, turns, k);
        k := limit;
      }
    }
  }

  lemma Begins(c: Config, history: seq<ChatMessage>, turns: seq<Turn>)
    ensures Iterations(c, Init(c, history), turns[..0]).outcome.None?
  {
    assert turns[..0] == [];
  }

  lemma GoesOnSays(c: Config, history: seq<ChatMessage>, turns: seq<Turn>, j: nat)
    requires j < |turns| && GoesOn(c, history, turns, j)
    ensures
      var s := Iterations(c, Init(c, history), turns[..j]);
      s.outcome.None? && FirstStop(Checks(c, FactsAfter(c, turns[..j], s.working, turns[j]), turns[j])).None?
  {
    hide Iterations, Iterate, FirstStop, Checks, FactsAfter, Init;
    TurnStops(c, history, turns[..j], turns[j]);
    assert turns[..j + 1] == turns[..j] + [turns[j]];
  }

  lemma EndSays(c: Config, history: seq<ChatMessage>, turns: seq<Turn>, k: nat)
    requires k < LoopLimit(c) <= |turns|
    requires Iterations(c, Init(c, history), turns[..k]).outcome.None?
    requires Iterations(c, Init(c, history), turns[..k + 1]).outcome.Some?
    ensures
      var s := Iterations(c, Init(c, history), turns[..k]);
      && Run(c, history, turns) == Iterate(c, s, turns[k])
      && FirstStop(Checks(c, FactsAfter(c, turns[..k], s.working, turns[k]), turns[k]))
         == Some(Run(c, history, turns).outcome.value.reason)
  {
    hide Iterations, Iterate, FirstStop, Checks, FactsAfter, Init, LoopLimit;
    TurnStops(c, history, turns[..k], turns[k]);
    assert turns[..k + 1] == turns[..k] + [turns[k]];
    assert turns[..LoopLimit(c)] == turns[..k + 1] + turns[k + 1..LoopLimit(c)];
    Stopped(c, Init(c, history), turns[..k + 1], turns[k + 1..LoopLimit(c)]);
  }

  /** One turn more: it stops for the first reason, found from the turns before it. */
  lemma TurnStops(c: Config, history: seq<ChatMessage>, turns: seq<Turn>, t: Turn)
    requires Iterations(c, Init(c, history), turns).outcome.None?
    ensures
      var s := Iterations(c, Init(c, history), turns);
      && Iterations(c, Init(c, history), turns + [t]) == Iterate(c, s, t)
      && StopsFor(Iterate(c, s, t), FirstStop(Checks(c, FactsAfter(c, turns, s.working, t), t)))
  {
    RunPast(c, history, turns);
    hide Iterations, Iterate, FirstStop, Checks, Init, Select, UnknownStreak, DeniedStreak, LastPhase;
    var s := Iterations(c, Init(c, history), turns);
    IterationsSnoc(c, Init(c, history), turns, t);
    IterationStops(c, s, t);
    assert FactsOf(c, s, t) == FactsAfter(c, turns, s.working, t);
  }

  /** A run that has stopped takes no further turn. */
  lemma {:induction false} Stopped(c: Config, s: Loop, turns: seq<Turn>, more: seq<Turn>)
    requires Iterations(c, s, turns).outcome.Some?
    ensures Iterations(c, s, turns + more) == Iterations(c, s, turns)
    decreases |turns|
  {
    hide Iterate;
    if turns != [] && s.outcome.None? {
      assert (turns + more)[0] == turns[0] && (turns + more)[1..] == turns[1..] + more;
      Stopped(c, Iterate(c, s, turns[0]), turns[1..], more);
    }
  }

  // --- What is stored by then ---------------------------------------------------------------------

  /** The state with which the response of an iteration is handled. */
  function Prepared(c: Config, s: Loop, t: Turn): Loop {
    PrepareStage(c, PollStage(c, s.(iteration := s.iteration + 1), t.poll), t.preparation)
  }

  /** `tail` stands at the end of `all`. */
  predicate EndsWith(all: seq<ChatMessage>, tail: seq<ChatMessage>) {
    |tail| <= |all| && all[|all| - |tail|..] == tail
  }

  /** The answer of the turn is stored: it stands at the end of the committed history and of the new messages. */
  predicate AnswerStored(c: Config, p: Loop, t: Turn, q: Loop) {
    && t.stream.Replied? && !Text.IsBlank(t.stream.response.text) && t.stored
    && var answer := AssistantMessages(c.provider, t.stream.response, None);
       && q.committed == p.working + p.planMessages + answer && q.commits == p.commits + [q.committed]
       && q.produced == (if p.userDone then p.produced else p.produced + [c.user]) + answer
       && EndsWith(q.committed, answer) && EndsWith(q.produced, answer)
  }

  /** The answer of the turn is blank, and nothing is stored of it. */
  predicate NothingStored(p: Loop, t: Turn, q: Loop) {
    && t.stream.Replied? && Text.IsBlank(t.stream.response.text)
    && q.committed == p.committed && q.commits == p.commits && q.produced == p.produced
  }

  /** A run that ends Completed has stored its last answer; one that ends EmptyResponse got a blank one. */
  lemma AnswerIsStored(c: Config, s: Loop, t: Turn)
    requires s.outcome.None? && Iterate(c, s, t).outcome.Some?
    ensures
      var q := Iterate(c, s, t);
      && q.outcome.value.committed == q.committed && q.outcome.value.produced == q.produced
      && (q.outcome.value.reason.Completed? ==> AnswerStored(c, Prepared(c, s, t), t, q))
      && (q.outcome.value.reason.EmptyResponse? ==> NothingStored(Prepared(c, s, t), t, q))
  {
    OutcomeReports(c, s, t);
    hide Iterate, ResponseStage, AnswerStored, NothingStored;
    var q := Iterate(c, s, t);
    if FromResponse(q) {
      NotBefore(c, s, t);
      hide Prepared;
      ResponseStores(c, Prepared(c, s, t), t);
    }
  }

  /** The reasons that only a response gives. */
  predicate FromResponse(q: Loop) {
    q.outcome.Some? &&
    match q.outcome.value.reason
    case Completed => true
    case EmptyResponse => true
    case SafePause => true
    case UnknownToolLimit => true
    case ToolDenialLimit => true
    case _ => false
  }

  /** An iteration that goes on, or stops for such a reason, came to handle its response. */
  lemma NotBefore(c: Config, s: Loop, t: Turn)
    requires s.outcome.None? && (Iterate(c, s, t).outcome.None? || FromResponse(Iterate(c, s, t)))
    ensures Prepared(c, s, t).outcome.None? && Iterate(c, s, t) == ResponseStage(c, Prepared(c, s, t), t)
    ensures Prepared(c, s, t).iteration == s.iteration + 1
  {
    hide *;
    var begun := s.(iteration := s.iteration + 1);
    IterateStages(c, s, t);
    PreparedIs(c, s, t);
    PollReasons(c, begun, t.poll);
    CancelledIsOther(begun);
    var polled := PollStage(c, begun, t.poll);
    if polled.outcome.None? { PrepareReasons(c, polled, t.preparation); }
  }

  lemma PreparedIs(c: Config, s: Loop, t: Turn)
    ensures Prepared(c, s, t) == PrepareStage(c, PollStage(c, s.(iteration := s.iteration + 1), t.poll), t.preparation)
  {
    hide PollStage, PrepareStage;
  }

  lemma CancelledIsOther(s: Loop)
    ensures !FromResponse(Finish(s, Cancelled)) && Finish(s, Cancelled).outcome.Some?
  {
  }

  lemma PollReasons(c: Config, s: Loop, poll: Poll)
    requires s.outcome.None?
    ensures !FromResponse(PollStage(c, s, poll)) && PollStage(c, s, poll).iteration == s.iteration
  {
  }

  lemma PrepareReasons(c: Config, s: Loop, preparation: Preparation)
    requires s.outcome.None?
    ensures !FromResponse(PrepareStage(c, s, preparation)) && PrepareStage(c, s, preparation).iteration == s.iteration
  {
    hide Select, Compacted, WithoutUser;
  }

  lemma OutcomeReports(c: Config, s: Loop, t: Turn)
    requires s.outcome.None?
    ensures
      var q := Iterate(c, s, t);
      q.outcome.Some? ==> q.outcome.value.committed == q.committed && q.outcome.value.produced == q.produced
  {
    var begun := s.(iteration := s.iteration + 1);
    IterateStages(c, s, t);
    PollReports(c, begun, t.poll);
    hide PollStage, PrepareStage, ResponseStage, Iterate;
    var polled := PollStage(c, begun, t.poll);
    if polled.outcome.None? {
      PrepareReports(c, polled, t.preparation);
      if PrepareStage(c, polled, t.preparation).outcome.None? {
        ResponseReports(c, PrepareStage(c, polled, t.preparation), t);
      }
    }
  }

  predicate Reports(q: Loop) {
    q.outcome.Some? ==> q.outcome.value.committed == q.committed && q.outcome.value.produced == q.produced
  }

  lemma PollReports(c: Config, s: Loop, poll: Poll)
    requires s.outcome.None?
    ensures Reports(PollStage(c, s, poll))
  {
  }

  lemma PrepareReports(c: Config, s: Loop, preparation: Preparation)
    requires s.outcome.None?
    ensures Reports(PrepareStage(c, s, preparation))
  {
    hide Select, Compacted;
  }

  lemma ResponseReports(c: Config, s: Loop, t: Turn)
    requires s.outcome.None?
    ensures Reports(ResponseStage(c, s, t))
  {
    hide AssistantMessages, Text.IsBlank;
    if t.stream.Replied? {
      RoundReports(c, s, t.stream.response, t);
      hide ToolStage, Reports;
      AnswerReports(c, s, t.stream.response, t.stored);
      assert forall reason :: Reports(Finish(s, reason)) by { FinishReports(s); }
    } else {
      hide ToolStage;
    }
  }

  lemma FinishReports(s: Loop)
    ensures forall reason :: Reports(Finish(s, reason))
  {
  }

  lemma AnswerReports(c: Config, s: Loop, r: Response, stored: bool)
    requires s.outcome.None?
    ensures Reports(FinalPlanStage(c, s, r, stored)) && Reports(NaturalStage(c, s, r, stored))
  {
    hide AssistantMessages, Text.IsBlank;
  }

  lemma RoundReports(c: Config, s: Loop, r: Response, t: Turn)
    requires s.outcome.None?
    ensures Reports(ToolStage(c, s, r, t))
  {
    hide Round, GroupId, AllUnknown, AllDenied, Pauses;
  }

  lemma ResponseStores(c: Config, p: Loop, t: Turn)
    requires p.outcome.None? && ResponseStage(c, p, t).outcome.Some?
    ensures
      var q := ResponseStage(c, p, t);
      && (q.outcome.value.reason.Completed? ==> AnswerStored(c, p, t, q))
      && (q.outcome.value.reason.EmptyResponse? ==> NothingStored(p, t, q))
  {
    hide AnswerStored, NothingStored, FinalPlanStage, NaturalStage, ToolStage;
    if t.stream.Replied? {
      RoundReason(c, p, t.stream.response, t);
      AnswerStores(c, p, t, t.stream.response);
    }
  }

  lemma AnswerStores(c: Config, p: Loop, t: Turn, r: Response)
    requires p.outcome.None? && t.stream == Replied(r)
    ensures
      var q := FinalPlanStage(c, p, r, t.stored);
      q.outcome.Some? ==>
        && (q.outcome.value.reason.Completed? ==> AnswerStored(c, p, t, q))
        && (q.outcome.value.reason.EmptyResponse? ==> NothingStored(p, t, q))
    ensures
      var q := NaturalStage(c, p, r, t.stored);
      q.outcome.Some? ==>
        && (q.outcome.value.reason.Completed? ==> AnswerStored(c, p, t, q))
        && (q.outcome.value.reason.EmptyResponse? ==> NothingStored(p, t, q))
  {
    hide AssistantMessages, Text.IsBlank, EndsWith;
    var answer := AssistantMessages(c.provider, r, None);
    TailOf(p.working + p.planMessages, answer);
    TailOf(if p.userDone then p.produced else p.produced + [c.user], answer);
  }

  lemma TailOf(a: seq<ChatMessage>, b: seq<ChatMessage>)
    ensures EndsWith(a + b, b)
  {
  }

  lemma RoundReason(c: Config, s: Loop, r: Response, t: Turn)
    requires s.outcome.None?
    ensures
      var q := ToolStage(c, s, r, t);
      q.outcome.Some? ==> !q.outcome.value.reason.Completed? && !q.outcome.value.reason.EmptyResponse?
  {
    hide Round, GroupId, AllUnknown, AllDenied, Pauses;
  }

  /** The round of the turn is stored whole, and is the end of the history and of the new messages. */
  predicate RoundStored(c: Config, p: Loop, t: Turn, q: Loop) {
    && t.stream.Replied? && t.tools.Ran?
    && var round := Round(c.provider, t.stream.response, t.tools.executions, GroupId(c, p.iteration));
       && q.committed == q.working == p.working + round && q.commits == p.commits + [q.committed]
       && q.produced == (if p.userDone then p.produced else p.produced + [c.user]) + round
  }

  /** A tool round after which the run goes on, or stops for the round itself, is stored. */
  lemma RoundIsStored(c: Config, s: Loop, t: Turn)
    requires s.outcome.None? && CallsTools(t)
    requires
      var o := Iterate(c, s, t).outcome;
      o.None? || o.value.reason.SafePause? || o.value.reason.UnknownToolLimit? || o.value.reason.ToolDenialLimit?
    ensures Prepared(c, s, t).iteration == s.iteration + 1 && RoundStored(c, Prepared(c, s, t), t, Iterate(c, s, t))
  {
    NotBefore(c, s, t);
    hide Iterate, Prepared, RoundStored, ToolStage, AssistantMessages, Text.IsBlank;
    StoresRound(c, Prepared(c, s, t), t, t.stream.response);
  }

  lemma StoresRound(c: Config, p: Loop, t: Turn, r: Response)
    requires p.outcome.None? && t.stream == Replied(r)
    ensures
      var q := ToolStage(c, p, r, t);
      q.outcome.None? || FromResponse(q) ==> RoundStored(c, p, t, q)
  {
    hide Round, GroupId, AllUnknown, AllDenied, AfterRound;
    if t.tools.Ran? && t.archived && t.stored {
      var round := Round(c.provider, r, t.tools.executions, GroupId(c, p.iteration));
      var told := p.(
        batches := p.batches + 1, unknown := if AllUnknown(r.calls, t.known) then p.unknown + 1 else 0,
        denied := if AllDenied(t.tools.executions) then p.denied + 1 else 0,
        working := p.working + round, committed := p.working + round, commits := p.commits + [p.working + round],
        produced := (if p.userDone then p.produced else p.produced + [c.user]) + round, userDone := true);
      assert ToolStage(c, p, r, t) == AfterRound(c, told, t.tools.executions, t.tools.cancelled);
      AfterKeeps(c, told, t.tools.executions, t.tools.cancelled);
    }
  }

  lemma AfterKeeps(c: Config, s: Loop, executions: seq<Execution>, cancelled: bool)
    ensures
      var q := AfterRound(c, s, executions, cancelled);
      q.working == s.working && q.committed == s.committed && q.commits == s.commits && q.produced == s.produced
  {
    hide Pauses;
  }

  /** Outside PLAN a stored answer with text completes the run, with this answer last. */
  lemma NaturalAnswerCompletes(c: Config, history: seq<ChatMessage>, turns: seq<Turn>, t: Turn)
    requires !c.plan && Iterations(c, Init(c, history), turns).outcome.None?
    requires !t.cancelRequested && t.poll.NoBatch? && t.preparation.Fits? && AnswersNaturally(t) && t.stored
    requires t.stream.response.calls == [] && !Text.IsBlank(t.stream.response.text)
    ensures
      var s, q := Iterations(c, Init(c, history), turns), Iterations(c, Init(c, history), turns + [t]);
      var answer := AssistantMessages(c.provider, t.stream.response, None);
      && q.outcome.Some? && q.outcome.value.reason.Completed?
      && q.outcome.value.committed == s.working + s.planMessages + answer && EndsWith(q.outcome.value.produced, answer)
  {
    var s := Iterations(c, Init(c, history), turns);
    RunPast(c, history, turns);
    IterationsSnoc(c, Init(c, history), turns, t);
    hide Iterations, Init, UnknownStreak, DeniedStreak;
    NaturalEnds(c, s, t);
  }

  lemma NaturalEnds(c: Config, s: Loop, t: Turn)
    requires !c.plan && s.outcome.None? && !s.finalizing
    requires !t.cancelRequested && t.poll.NoBatch? && t.preparation.Fits? && AnswersNaturally(t) && t.stored
    requires t.stream.response.calls == [] && !Text.IsBlank(t.stream.response.text)
    ensures
      var q := Iterate(c, s, t);
      var answer := AssistantMessages(c.provider, t.stream.response, None);
      && q.outcome.Some? && q.outcome.value.reason.Completed?
      && q.outcome.value.committed == s.working + s.planMessages + answer && EndsWith(q.outcome.value.produced, answer)
  {
    hide AssistantMessages, Text.IsBlank, ToolStage, FinalPlanStage;
    var answer := AssistantMessages(c.provider, t.stream.response, None);
    TailOf(if s.userDone then s.produced else s.produced + [c.user], answer);
  }

  /** A batch after which the run goes on is stored behind the history, and the user message before it. */
  lemma BatchIsStored(c: Config, s: Loop, poll: Poll)
    requires s.outcome.None? && poll.Batched? && PollStage(c, s, poll).outcome.None?
    ensures
      var q := PollStage(c, s, poll);
      && q.committed == q.working == s.working + poll.messages
      && q.commits == s.commits + (if s.userDone then [] else [s.working]) + [q.committed]
      && q.produced == (if s.userDone then s.produced else s.produced + [c.user])
      && q.userDone && q.planMessages == s.planMessages
  {
  }

  /** A batch that is refused leaves only the user message before it stored, and the run ends. */
  lemma RefusedBatchIsNotStored(c: Config, s: Loop, poll: Poll)
    requires s.outcome.None? && poll.Batched? && !(poll.stored && (s.userDone || poll.userStored))
    ensures
      var q := PollStage(c, s, poll);
      && q.outcome.Some? && q.outcome.value.reason.SessionPersistence? && q.outcome.value.committed == q.committed
      && q.committed == if !s.userDone && poll.userStored then s.working else s.committed
  {
  }

  /**
    A compaction after which the run goes on is stored at once, without a user message that no answer was stored
    for yet and with the answers of a plan that are held back.
  */
  lemma CompactionIsStored(c: Config, s: Loop, preparation: Preparation)
    requires s.outcome.None? && preparation.Shortened? && PrepareStage(c, s, preparation).outcome.None?
    ensures
      var q := PrepareStage(c, s, preparation);
      && q.working == Compacted(c.floors, s.working, preparation.formal, c.boundary)
      && (s.userDone ==> q.committed == q.working + s.planMessages)
      && (!s.userDone && q.working != [] ==> q.committed == q.working[..|q.working| - 1] + s.planMessages)
      && q.commits == s.commits + [q.committed] && q.produced == s.produced && q.userDone == s.userDone
  {
    hide Select, Compacted;
  }

  /** The answer of an investigation is stored, held back from the requests, and the plan comes to its last phase. */
  lemma InvestigationIsStored(c: Config, p: Loop, t: Turn)
    requires p.outcome.None? && !p.finalizing && AnswersNaturally(t) && ResponseStage(c, p, t).outcome.None?
    ensures
      var q := ResponseStage(c, p, t);
      var answer := AssistantMessages(c.provider, t.stream.response, None);
      && c.plan && q.finalizing && q.working == p.working && q.planMessages == p.planMessages + answer
      && q.committed == p.working + q.planMessages && q.commits == p.commits + [q.committed]
      && q.produced == (if p.userDone then p.produced else p.produced + [c.user]) + answer
  {
    hide AssistantMessages, Text.IsBlank, ToolStage;
    var answer := AssistantMessages(c.provider, t.stream.response, None);
    assert (p.working + p.planMessages) + answer == p.working + (p.planMessages + answer);
  }

  /**
    A run begins with the history, or the seed in its place, and the user message, and has nothing new yet. It may
    take as many turns as the seed says; without a seed one more than a plan may investigate, or the configured
    number outside plans.
  */
  lemma RunBegins(c: Config, history: seq<ChatMessage>)
    ensures
      var s := Init(c, history);
      && (c.seed.None? ==> s.working == history + [c.user])
      && (c.seed.Some? ==> s.working == c.seed.value.messages + [c.user])
      && s.committed == history && s.produced == [] && s.commits == [] && s.planMessages == [] && s.outcome.None?
    ensures c.seed.Some? ==> LoopLimit(c) == c.seed.value.maxIterations
    ensures c.seed.None? && c.plan ==> LoopLimit(c) == c.planLimit + 1
    ensures c.seed.None? && !c.plan ==> LoopLimit(c) == c.maxIterations
  {
  }
}

/**
  The loop of an agent run (`AgentRun.events` in `src/mewcode/agent/runner.py`): one function
  for each stage of an iteration. Whatever the outside decides is an input of the iteration.
*/
module AgentLoop {
  import opened Wrappers
  import opened Chat
  import opened HistorySelection
  import opened ProviderMessages
  import Text

  datatype Seed = Seed(messages: seq<ChatMessage>, maxIterations: nat)

  datatype Config = Config(
    plan: bool, maxIterations: nat, planLimit: nat, unknownLimit: nat, denialLimit: Option<nat>,
    seed: Option<Seed>, provider: Provider, runId: string, user: ChatMessage, floors: Floors, boundary: string)

  predicate ConfigOk(c: Config) {
    && 1 <= c.maxIterations && 1 <= c.planLimit && 1 <= c.unknownLimit
    && (c.denialLimit.Some? ==> 1 <= c.denialLimit.value)
    && FloorsOk(c.floors) && c.user.kind.User? && c.user.groupId.None? && c.user.role == "user"
  }

  function LoopLimit(c: Config): nat {
    if c.seed.Some? then c.seed.value.maxIterations else if c.plan then c.planLimit + 1 else c.maxIterations
  }

  datatype StopReason =
    | Completed | OutputLimitReached | EmptyResponse | IterationLimit | Cancelled | UnknownToolLimit | ToolDenialLimit
    | StreamError | ContextCapacity | ContextCompaction | SessionPersistence | SafePause | Error

  datatype Outcome = Outcome(reason: StopReason, produced: seq<ChatMessage>, committed: seq<ChatMessage>)

  // --- Inputs of an iteration ------------------------------------------------------------------

  /** `Interrupted` is a cancellation, `Failed` any other exception. */
  datatype Ending = Fine | Interrupted | Failed

  datatype Poll =
    | NoBatch
    | NoSink
    | PollEnds(cancelled: bool)
    | Batched(messages: seq<ChatMessage>, userStored: bool, stored: bool, acknowledged: Ending)

  datatype Preparation =
    | Fits
    | Refused(capacity: bool)
    | Shortened(formal: string, fits: bool, stored: bool)
    | PreparationEnds(cancelled: bool)

  datatype Stream = Replied(response: Response) | ProviderFails | StreamEnds(cancelled: bool)

  datatype Tools = Ran(executions: seq<Execution>, cancelled: bool) | ToolsEnd(cancelled: bool)

  /** `archived` and `stored` say whether oversize results were archived and the last commit was written. */
  datatype Turn = Turn(
    cancelRequested: bool, poll: Poll, preparation: Preparation, stream: Stream,
    known: set<string>, tools: Tools, archived: bool, stored: bool)

  // --- State ---------------------------------------------------------------------------------------

  /** `produced` are the new messages; `commits` all histories given to the sink, `batches` the tool batches begun. */
  datatype Loop = Loop(
    working: seq<ChatMessage>, produced: seq<ChatMessage>, committed: seq<ChatMessage>, userDone: bool,
    unknown: nat, denied: nat, iteration: nat, finalizing: bool, planMessages: seq<ChatMessage>,
    batches: nat, commits: seq<seq<ChatMessage>>, outcome: Option<Outcome>)

  function Base(c: Config, history: seq<ChatMessage>): seq<ChatMessage> {
    if c.seed.Some? then c.seed.value.messages else history
  }

  function Init(c: Config, history: seq<ChatMessage>): Loop {
    Loop(Base(c, history) + [c.user], [], history, false, 0, 0, 0, false, [], 0, [], None)
  }

  function Finish(s: Loop, reason: StopReason): Loop {
    s.(outcome := Some(Outcome(reason, s.produced, s.committed)))
  }

  function Ended(cancelled: bool): StopReason {
    if cancelled then Cancelled else Error
  }

  function CommitHistory(s: Loop, candidate: seq<ChatMessage>, stored: bool): Loop {
    if stored then s.(committed := candidate, commits := s.commits + [candidate]) else Finish(s, SessionPersistence)
  }

  function AddUser(c: Config, s: Loop): Loop {
    if s.userDone then s else s.(produced := s.produced + [c.user], userDone := true)
  }

  // --- Stages -----------------------------------------------------------------------------------------

  function PollStage(c: Config, s: Loop, poll: Poll): Loop {
    match poll
    case NoBatch => s
    case NoSink => Finish(s, SessionPersistence)
    case PollEnds(cancelled) => Finish(s, Ended(cancelled))
    case Batched(messages, userStored, stored, acknowledged) =>
      var saved := if s.userDone then s else CommitHistory(s, s.working, userStored);
      if saved.outcome.Some? then saved
      else
        var inbound := CommitHistory(AddUser(c, saved), s.working + messages, stored);
        if inbound.outcome.Some? then inbound
        else
          var after := inbound.(working := s.working + messages);
          if acknowledged.Fine? then after else Finish(after, Ended(acknowledged.Interrupted?))
  }

  /** A seeded run keeps its first request as it is. */
  predicate Preserves(c: Config, s: Loop) {
    c.seed.Some? && s.iteration == 1
  }

  /** The user message is committed with the first answer, so an earlier compaction leaves it out. */
  function WithoutUser(s: Loop, messages: seq<ChatMessage>): seq<ChatMessage> {
    if s.userDone || messages == [] then messages else messages[..|messages| - 1]
  }

  function PrepareStage(c: Config, s: Loop, preparation: Preparation): Loop {
    match preparation
    case Fits => s
    case Refused(capacity) => Finish(s, if capacity then ContextCapacity else ContextCompaction)
    case PreparationEnds(cancelled) => Finish(s, Ended(cancelled))
    case Shortened(formal, fits, stored) =>
      if Preserves(c, s) || !Select(c.floors, s.working).canCompact then Finish(s, ContextCapacity)
      else
        var shorter := Compacted(c.floors, s.working, formal, c.boundary);
        var after := CommitHistory(s.(working := shorter), WithoutUser(s, shorter) + s.planMessages, stored);
        if after.outcome.Some? || fits then after else Finish(after, ContextCapacity)
  }

  /** Commits an answer without calls. */
  function Answer(c: Config, s: Loop, answer: seq<ChatMessage>, stored: bool): Loop {
    var after := CommitHistory(s, s.working + s.planMessages + answer, stored);
    if after.outcome.Some? then after
    else
      var told := AddUser(c, after);
      told.(produced := told.produced + answer)
  }

  function FinalPlanStage(c: Config, s: Loop, r: Response, stored: bool): Loop {
    if r.finish.ToolCalls? then Finish(s, Error)
    else if Text.IsBlank(r.text) then Finish(s, EmptyResponse)
    else
      var after := Answer(c, s, AssistantMessages(c.provider, r, None), stored);
      if after.outcome.Some? then after else Finish(after, Completed)
  }

  function NaturalStage(c: Config, s: Loop, r: Response, stored: bool): Loop {
    var answer := AssistantMessages(c.provider, r, None);
    if c.plan then
      var after := Answer(c, s, answer, stored);
      if after.outcome.Some? then after else after.(planMessages := after.planMessages + answer, finalizing := true)
    else if Text.IsBlank(r.text) then Finish(s, EmptyResponse)
    else
      var after := Answer(c, s, answer, stored);
      if after.outcome.Some? then after else Finish(after, Completed)
  }

  /** A number in decimal digits. */
  function Decimal(n: nat): (s: string)
    ensures s != ""
  {
    if n < 10 then [Digit(n)] else Decimal(n / 10) + [Digit(n % 10)]
  }

  function Digit(d: nat): char
    requires d < 10
  {
    (('0' as int) + d) as char
  }

  function GroupId(c: Config, iteration: nat): string {
    c.runId + ":" + Decimal(iteration)
  }

  predicate AllUnknown(calls: seq<ToolCall>, known: set<string>) {
    forall i :: 0 <= i < |calls| ==> calls[i].name !in known
  }

  predicate AllDenied(executions: seq<Execution>) {
    executions != [] && forall i :: 0 <= i < |executions| ==> executions[i].denied
  }

  predicate Pauses(executions: seq<Execution>) {
    exists i :: 0 <= i < |executions| && executions[i].safePause
  }

  /** Whether the run stops after a tool round, and why. */
  function AfterRound(c: Config, s: Loop, executions: seq<Execution>, cancelled: bool): Loop {
    if Pauses(executions) then Finish(s, SafePause)
    else if cancelled then Finish(s, Cancelled)
    else if s.unknown >= c.unknownLimit then Finish(s, UnknownToolLimit)
    else if c.denialLimit.Some? && s.denied >= c.denialLimit.value then Finish(s, ToolDenialLimit)
    else if c.plan && s.iteration == c.planLimit then s.(finalizing := true)
    else s
  }

  /** Stores a finished tool round. */
  function RoundStage(c: Config, s: Loop, r: Response, executions: seq<Execution>, cancelled: bool, t: Turn): Loop {
    if !t.archived then Finish(s, ContextCompaction)
    else
      var round := Round(c.provider, r, executions, GroupId(c, s.iteration));
      var after := CommitHistory(s, s.working + round, t.stored);
      if after.outcome.Some? then after
      else
        var told := AddUser(c, after);
        AfterRound(c, told.(produced := told.produced + round, working := s.working + round), executions, cancelled)
  }

  function ToolStage(c: Config, s: Loop, r: Response, t: Turn): Loop {
    var begun := s.(batches := s.batches + 1, unknown := if AllUnknown(r.calls, t.known) then s.unknown + 1 else 0);
    match t.tools
    case ToolsEnd(cancelled) => Finish(begun, Ended(cancelled))
    case Ran(executions, cancelled) =>
      var counted := begun.(denied := if AllDenied(executions) then begun.denied + 1 else 0);
      RoundStage(c, counted, r, executions, cancelled, t)
  }

  /** The collector refuses a natural finish with calls and a tool finish without. */
  predicate Collected(r: Response) {
    && (r.finish.Natural? ==> r.calls == [])
    && (r.finish.ToolCalls? ==> r.calls != [])
  }

  function ResponseStage(c: Config, s: Loop, t: Turn): Loop {
    match t.stream
    case StreamEnds(cancelled) => Finish(s, Ended(cancelled))
    case ProviderFails => Finish(s, StreamError)
    case Replied(r) =>
      if !Collected(r) then Finish(s, Error)
      else if r.finish.OutputLimit? then Finish(s, OutputLimitReached)
      else if s.finalizing then FinalPlanStage(c, s, r, t.stored)
      else if r.finish.Natural? then NaturalStage(c, s, r, t.stored)
      else if !c.plan && s.iteration == c.maxIterations then Finish(s, IterationLimit)
      else ToolStage(c, s, r, t)
  }

  function Iterate(c: Config, s: Loop, t: Turn): Loop {
    var begun := s.(iteration := s.iteration + 1);
    if t.cancelRequested then Finish(begun, Cancelled)
    else
      var polled := PollStage(c, begun, t.poll);
      if polled.outcome.Some? then polled
      else
        var prepared := PrepareStage(c, polled, t.preparation);
        if prepared.outcome.Some? then prepared else ResponseStage(c, prepared, t)
  }

  /** Iterations until one has an outcome. */
  function Iterations(c: Config, s: Loop, turns: seq<Turn>): Loop
    decreases |turns|
  {
    if turns == [] || s.outcome.Some? then s else Iterations(c, Iterate(c, s, turns[0]), turns[1..])
  }

  /** The whole run; a loop that falls through raises and so ends in an error. */
  function Run(c: Config, history: seq<ChatMessage>, turns: seq<Turn>): Loop
    requires |turns| >= LoopLimit(c)
  {
    var s := Iterations(c, Init(c, history), turns[..LoopLimit(c)]);
    if s.outcome.None? then Finish(s, Error) else s
  }

  /** The loop ran out of iterations: "Agent loop ended without a stop reason." */
  predicate FallsThrough(c: Config, history: seq<ChatMessage>, turns: seq<Turn>)
    requires |turns| >= LoopLimit(c)
  {
    Iterations(c, Init(c, history), turns[..LoopLimit(c)]).outcome.None?
  }

  // --- Pace: iterations and tool batches ------------------------------------------------------------------

  /** The iterations that the limits of the configuration leave to a loop without outcome. */
  function Reach(c: Config): nat {
    if c.plan then c.planLimit else if c.maxIterations == 0 then 0 else c.maxIterations - 1
  }

  predicate Pace(c: Config, s: Loop) {
    && s.batches <= Reach(c)
    && (s.outcome.None? ==>
          && s.batches <= s.iteration <= Reach(c)
          && (c.plan && !s.finalizing ==> s.iteration < c.planLimit)
          && (!c.plan ==> !s.finalizing))
  }

  predicate SamePace(s: Loop, q: Loop) {
    q.batches == s.batches && q.iteration == s.iteration && q.finalizing == s.finalizing
  }

  lemma PollPace(c: Config, s: Loop, poll: Poll)
    ensures SamePace(s, PollStage(c, s, poll))
  {
  }

  lemma PreparePace(c: Config, s: Loop, preparation: Preparation)
    ensures SamePace(s, PrepareStage(c, s, preparation))
  {
    hide Compacted, Select;
  }

  lemma ResponsePace(c: Config, s: Loop, t: Turn)
    requires ConfigOk(c) && s.outcome.None? && 1 <= s.iteration
    requires s.batches < s.iteration && s.iteration - 1 <= Reach(c)
    requires c.plan && !s.finalizing ==> s.iteration <= c.planLimit
    requires !c.plan ==> !s.finalizing
    ensures Pace(c, ResponseStage(c, s, t))
    ensures ResponseStage(c, s, t).iteration == s.iteration
  {
    if t.stream.Replied? {
      ToolPace(c, s, t);
      AnswerPace(c, s, t);
    }
    hide ToolStage, NaturalStage, FinalPlanStage;
  }

  lemma ToolPace(c: Config, s: Loop, t: Turn)
    requires s.outcome.None? && t.stream.Replied?
    ensures
      var q := ToolStage(c, s, t.stream.response, t);
      && q.batches == s.batches + 1 && q.iteration == s.iteration
      && (q.outcome.None? ==> q.finalizing == (s.finalizing || (c.plan && s.iteration == c.planLimit)))
  {
    hide AssistantMessages, ToolResultMessages, Pauses, AllDenied, AllUnknown, GroupId;
  }

  lemma AnswerPace(c: Config, s: Loop, t: Turn)
    requires s.outcome.None? && t.stream.Replied?
    ensures
      var q := FinalPlanStage(c, s, t.stream.response, t.stored);
      q.batches == s.batches && q.iteration == s.iteration && q.outcome.Some?
    ensures
      var q := NaturalStage(c, s, t.stream.response, t.stored);
      q.batches == s.batches && q.iteration == s.iteration && (q.outcome.None? ==> c.plan && q.finalizing)
  {
    hide AssistantMessages, Text.IsBlank;
  }

  /** The stages of an iteration, each run while there is no outcome. */
  lemma IterateStages(c: Config, s: Loop, t: Turn)
    ensures
      var begun := s.(iteration := s.iteration + 1);
      var polled := PollStage(c, begun, t.poll);
      var prepared := PrepareStage(c, polled, t.preparation);
      Iterate(c, s, t)
      == if t.cancelRequested then Finish(begun, Cancelled)
         else if polled.outcome.Some? then polled
         else if prepared.outcome.Some? then prepared
         else ResponseStage(c, prepared, t)
  {
    hide PollStage, PrepareStage, ResponseStage;
  }

  lemma IteratePace(c: Config, s: Loop, t: Turn)
    requires ConfigOk(c) && Pace(c, s) && s.outcome.None?
    ensures Pace(c, Iterate(c, s, t)) && Iterate(c, s, t).iteration == s.iteration + 1
  {
    hide PollStage, PrepareStage, ResponseStage, Iterate;
    IterateStages(c, s, t);
    var begun := s.(iteration := s.iteration + 1);
    var polled := PollStage(c, begun, t.poll);
    PollPace(c, begun, t.poll);
    var prepared := PrepareStage(c, polled, t.preparation);
    PreparePace(c, polled, t.preparation);
    if !t.cancelRequested && polled.outcome.None? && prepared.outcome.None? { ResponsePace(c, prepared, t); }
  }

  lemma {:induction false} IterationsPace(c: Config, s: Loop, turns: seq<Turn>)
    requires ConfigOk(c) && Pace(c, s)
    ensures Pace(c, Iterations(c, s, turns))
    ensures Iterations(c, s, turns).outcome.None? ==> Iterations(c, s, turns).iteration == s.iteration + |turns|
    decreases |turns|
  {
    hide Iterate, Pace;
    if turns != [] && s.outcome.None? {
      IteratePace(c, s, turns[0]);
      IterationsPace(c, Iterate(c, s, turns[0]), turns[1..]);
    }
  }

  /**
    A run runs at most `maxIterations - 1` tool batches, or `planLimit` in PLAN mode, and cannot
    fall through when its loop limit lies above that reach, as it does for every run without seed.
  */
  lemma RunIsBounded(c: Config, history: seq<ChatMessage>, turns: seq<Turn>)
    requires ConfigOk(c) && |turns| >= LoopLimit(c)
    ensures Run(c, history, turns).batches <= Reach(c)
    ensures Run(c, history, turns).outcome.Some?
    ensures LoopLimit(c) > Reach(c) ==> !FallsThrough(c, history, turns)
    ensures c.seed.None? ==> LoopLimit(c) > Reach(c)
  {
    IterationsPace(c, Init(c, history), turns[..LoopLimit(c)]);
    hide Iterate, Iterations;
  }

  // --- When a loop falls through ------------------------------------------------------------------------------

  /** An iteration of one known tool call that succeeds. */
  function BusyTurn(): Turn {
    var call := ToolCall.ToolCall("c", "tool", Null, "{}");
    Turn(false, NoBatch, Fits, Replied(Response("", [call], ToolCalls, [])), {"tool"},
         Ran([Execution(call, "", true, false, false)], false), true, true)
  }

  lemma BusyRound(c: Config, s: Loop)
    requires ConfigOk(c) && s.outcome.None? && !s.finalizing && 1 <= s.iteration <= Reach(c)
    ensures
      var q := ResponseStage(c, s, BusyTurn());
      q.outcome.None? && q.iteration == s.iteration && (q.finalizing ==> c.plan && q.iteration == c.planLimit)
  {
    var t := BusyTurn();
    var r, executions := t.stream.response, t.tools.executions;
    assert r.calls[0].name in t.known && !AllUnknown(r.calls, t.known);
    assert !executions[0].denied && !AllDenied(executions) && !Pauses(executions);
    hide AllUnknown, AllDenied, Pauses, Round, GroupId;
  }

  lemma BusyIterate(c: Config, s: Loop)
    requires ConfigOk(c) && s.outcome.None? && !s.finalizing && s.iteration < Reach(c)
    ensures
      var q := Iterate(c, s, BusyTurn());
      q.outcome.None? && q.iteration == s.iteration + 1 && (q.finalizing ==> c.plan && q.iteration == c.planLimit)
  {
    var t, begun := BusyTurn(), s.(iteration := s.iteration + 1);
    IterateStages(c, s, t);
    BusyRound(c, begun);
    hide ResponseStage, Iterate;
  }

  lemma {:induction false} BusyIterations(c: Config, s: Loop, turns: seq<Turn>)
    requires ConfigOk(c) && s.outcome.None? && !s.finalizing && s.iteration + |turns| <= Reach(c)
    requires forall i :: 0 <= i < |turns| ==> turns[i] == BusyTurn()
    ensures Iterations(c, s, turns).outcome.None?
    decreases |turns|
  {
    hide Iterate, BusyTurn;
    if turns != [] {
      BusyIterate(c, s);
      if |turns| > 1 { BusyIterations(c, Iterate(c, s, turns[0]), turns[1..]); }
    }
  }

  /** A loop can fall through exactly when its limit does not exceed its reach: a seeded run with a smaller limit. */
  lemma FallsThroughIff(c: Config, history: seq<ChatMessage>)
    requires ConfigOk(c)
    ensures (exists turns: seq<Turn> | |turns| >= LoopLimit(c) :: FallsThrough(c, history, turns))
        <==> LoopLimit(c) <= Reach(c)
  {
    if LoopLimit(c) <= Reach(c) {
      var turns := seq(LoopLimit(c), _ => BusyTurn());
      assert turns[..LoopLimit(c)] == turns;
      BusyIterations(c, Init(c, history), turns);
      assert FallsThrough(c, history, turns);
    } else {
      forall turns: seq<Turn> | |turns| >= LoopLimit(c) ensures !FallsThrough(c, history, turns) {
        RunIsBounded(c, history, turns);
      }
    }
  }
}

/** A run of the agent: the loop of `src/mewcode/agent/runner.py` over the inputs of its iterations. */
module AgentRuns {
  import opened Wrappers
  import opened Chat
  import opened ToolPairing
  import opened HistorySelection
  import opened ProviderMessages
  import opened AgentLoop
  import H = AgentHistory
  import E = AgentOutcomes
  import Text

  datatype RunState = New | Running | Complete

  class AgentRun {
    const config: Config
    const history: seq<ChatMessage>
    var state: RunState
    var outcome: Option<Outcome>
    var committed: seq<ChatMessage>
    var working: seq<ChatMessage>
    var produced: seq<ChatMessage>
    var userDone: bool
    var unknown: nat
    var denied: nat
    var iteration: nat
    var finalizing: bool
    var planMessages: seq<ChatMessage>
    ghost var batches: nat
    ghost var commits: seq<seq<ChatMessage>>      // what the sink received

    constructor (config: Config, history: seq<ChatMessage>)
      requires ConfigOk(config)
      ensures Valid() && View() == Init(config, history) && state.New? && this.config == config
          && this.history == history
    {
      this.config, this.history := config, history;
      state, outcome, committed := New, None, history;
      working, produced, userDone := Base(config, history) + [config.user], [], false;
      unknown, denied, iteration, finalizing, planMessages, batches, commits := 0, 0, 0, false, [], 0, [];
    }

    ghost function View(): Loop
      reads this
    {
      Loop(working, produced, committed, userDone, unknown, denied, iteration, finalizing, planMessages, batches,
          commits, outcome)
    }

    /** Iterations and tool batches keep their pace, and a run is complete exactly when it has an outcome. */
    ghost predicate Valid()
      reads this
    {
      && ConfigOk(config) && Pace(config, View())
      && (state.New? ==> View() == Init(config, history))
      && (state.Complete? <==> outcome.Some?)
    }

    /** Inside an iteration. */
    predicate Live()
      reads this
    {
      if outcome.None? then state.Running? else state.Complete?
    }

    /** `_finish`: an outcome is given once. */
    method FinishRun(reason: StopReason)
      requires outcome.None?
      modifies this
      ensures View() == Finish(old(View()), reason) && state.Complete?
    {
      outcome := Some(Outcome(reason, produced, committed));
      state := Complete;
    }

    /** `_commit_history`: a sink that fails ends the run. */
    method Commit(candidate: seq<ChatMessage>, stored: bool)
      requires outcome.None? && state.Running?
      modifies this
      ensures View() == CommitHistory(old(View()), candidate, stored) && Live()
    {
      if !stored {
        FinishRun(SessionPersistence);
        return;
      }
      committed := candidate;
      commits := commits + [candidate];
    }

    method RecordUser()
      requires outcome.None? && state.Running?
      modifies this
      ensures View() == AddUser(config, old(View())) && outcome.None? && Live()
    {
      if !userDone {
        produced := produced + [config.user];
        userDone := true;
      }
    }

    method PollInbound(poll: Poll)
      requires outcome.None? && state.Running?
      modifies this
      ensures View() == PollStage(config, old(View()), poll) && Live()
    {
      match poll
      case NoBatch =>
      case NoSink => FinishRun(SessionPersistence);
      case PollEnds(cancelled) => FinishRun(Ended(cancelled));
      case Batched(messages, userStored, stored, acknowledged) =>
        if !userDone {
          Commit(working, userStored);
          if outcome.Some? {
            return;
          }
          RecordUser();
        }
        Commit(working + messages, stored);
        if outcome.Some? {
          return;
        }
        working := working + messages;
        if !acknowledged.Fine? {
          FinishRun(Ended(acknowledged.Interrupted?));
        }
    }

    method PrepareContext(preparation: Preparation)
      requires outcome.None? && state.Running? && FloorsOk(config.floors)
      modifies this
      ensures View() == PrepareStage(config, old(View()), preparation) && Live()
    {
      hide Select;
      match preparation
      case Fits =>
      case Refused(capacity) => FinishRun(if capacity then ContextCapacity else ContextCompaction);
      case PreparationEnds(cancelled) => FinishRun(Ended(cancelled));
      case Shortened(formal, fits, stored) =>
        var selection := SelectRecent(config.floors, working);
        if (config.seed.Some? && iteration == 1) || !selection.canCompact {
          FinishRun(ContextCapacity);
          return;
        }
        var shorter := Head(formal, config.boundary) + selection.recent;
        var candidate := shorter;
        if !userDone {
          candidate := shorter[..|shorter| - 1];
        }
        working := shorter;
        Commit(candidate + planMessages, stored);
        if outcome.None? && !fits {
          FinishRun(ContextCapacity);
        }
    }

    method CommitAnswer(answer: seq<ChatMessage>, stored: bool)
      requires outcome.None? && state.Running?
      modifies this
      ensures View() == Answer(config, old(View()), answer, stored) && Live()
    {
      Commit(working + planMessages + answer, stored);
      if outcome.Some? {
        return;
      }
      RecordUser();
      produced := produced + answer;
    }

    /** The last phase of a plan ends the run: completed, with the answer stored last, only if it says something. */
    method FinishPlan(r: Response, stored: bool)
      requires outcome.None? && state.Running?
      modifies this
      ensures View() == FinalPlanStage(config, old(View()), r, stored) && Live() && outcome.Some?
      ensures
        var answer := AssistantMessages(config.provider, r, None);
        var says := !r.finish.ToolCalls? && !Text.IsBlank(r.text);
        && (outcome.value.reason.Completed? <==> says && stored)
        && (outcome.value.reason.Completed? ==> committed == old(working) + old(planMessages) + answer)
        && (!outcome.value.reason.Completed? ==> committed == old(committed))
        && (outcome.value.reason.EmptyResponse? <==> !r.finish.ToolCalls? && Text.IsBlank(r.text))
    {
      hide AssistantMessages, Text.IsBlank;
      if r.finish.ToolCalls? {
        FinishRun(Error);
      } else if Text.IsBlank(r.text) {
        FinishRun(EmptyResponse);
      } else {
        CommitAnswer(AssistantMessages(config.provider, r, None), stored);
        if outcome.None? {
          FinishRun(Completed);
        }
      }
    }

    /**
      A natural end. A blank answer outside PLAN stores nothing; any other one is stored last or the run ends for
      want of it, and a stored one completes the run, except in PLAN, where the last phase begins.
    */
    method HandleNatural(r: Response, stored: bool)
      requires outcome.None? && state.Running?
      modifies this
      ensures View() == NaturalStage(config, old(View()), r, stored) && Live()
      ensures
        var answer := AssistantMessages(config.provider, r, None);
        if !config.plan && Text.IsBlank(r.text) then
          outcome.Some? && outcome.value.reason.EmptyResponse? && committed == old(committed) && commits == old(commits)
        else if !stored then
          outcome.Some? && outcome.value.reason.SessionPersistence? && committed == old(committed)
        else
          && committed == old(working) + old(planMessages) + answer && E.EndsWith(produced, answer)
          && (if config.plan then outcome.None? && finalizing else outcome.Some? && outcome.value.reason.Completed?)
    {
      hide AssistantMessages, Text.IsBlank, E.EndsWith;
      E.TailOf(if userDone then produced else produced + [config.user], AssistantMessages(config.provider, r, None));
      var answer := AssistantMessages(config.provider, r, None);
      if config.plan {
        CommitAnswer(answer, stored);
        if outcome.None? {
          planMessages := planMessages + answer;
          finalizing := true;
        }
      } else if Text.IsBlank(r.text) {
        FinishRun(EmptyResponse);
      } else {
        CommitAnswer(answer, stored);
        if outcome.None? {
          FinishRun(Completed);
        }
      }
    }

    method AllCallsUnknown(calls: seq<ToolCall>, known: set<string>) returns (b: bool)
      ensures b == AllUnknown(calls, known)
    {
      for i := 0 to |calls|
        invariant AllUnknown(calls[..i], known)
      {
        if calls[i].name in known {
          return false;
        }
      }
      return true;
    }

    method AllCallsDenied(executions: seq<Execution>) returns (b: bool)
      ensures b == AllDenied(executions)
    {
      for i := 0 to |executions|
        invariant forall k :: 0 <= k < i ==> executions[k].denied
      {
        if !executions[i].denied {
          return false;
        }
      }
      return executions != [];
    }

    method AnyPause(executions: seq<Execution>) returns (b: bool)
      ensures b == Pauses(executions)
    {
      for i := 0 to |executions|
        invariant forall k :: 0 <= k < i ==> !executions[k].safePause
      {
        if executions[i].safePause {
          return true;
        }
      }
      return false;
    }

    method RunTools(r: Response, t: Turn)
      requires outcome.None? && state.Running?
      modifies this
      ensures View() == ToolStage(config, old(View()), r, t) && Live()
    {
      hide RoundStage, AllDenied, AllUnknown;
      var allUnknown := AllCallsUnknown(r.calls, t.known);
      unknown := if allUnknown then unknown + 1 else 0;
      batches := batches + 1;
      match t.tools
      case ToolsEnd(cancelled) => FinishRun(Ended(cancelled));
      case Ran(executions, cancelled) =>
        var allDenied := AllCallsDenied(executions);
        denied := if allDenied then denied + 1 else 0;
        StoreRound(r, executions, cancelled, t);
    }

    method StoreRound(r: Response, executions: seq<Execution>, cancelled: bool, t: Turn)
      requires outcome.None? && state.Running?
      modifies this
      ensures View() == RoundStage(config, old(View()), r, executions, cancelled, t) && Live()
    {
      hide Round, GroupId, AfterRound;
      if !t.archived {
        FinishRun(ContextCompaction);
        return;
      }
      var round := Round(config.provider, r, executions, GroupId(config, iteration));
      Commit(working + round, t.stored);
      if outcome.Some? {
        return;
      }
      RecordUser();
      produced := produced + round;
      working := working + round;
      StopAfterRound(executions, cancelled);
    }

    method StopAfterRound(executions: seq<Execution>, cancelled: bool)
      requires outcome.None? && state.Running?
      modifies this
      ensures View() == AfterRound(config, old(View()), executions, cancelled) && Live()
    {
      hide Pauses;
      var pauses := AnyPause(executions);
      if pauses {
        FinishRun(SafePause);
      } else if cancelled {
        FinishRun(Cancelled);
      } else if unknown >= config.unknownLimit {
        FinishRun(UnknownToolLimit);
      } else if config.denialLimit.Some? && denied >= config.denialLimit.value {
        FinishRun(ToolDenialLimit);
      } else if config.plan && iteration == config.planLimit {
        finalizing := true;
      }
    }

    method HandleResponse(t: Turn)
      requires outcome.None? && state.Running?
      modifies this
      ensures View() == ResponseStage(config, old(View()), t) && Live()
    {
      hide FinalPlanStage, NaturalStage, ToolStage;
      match t.stream
      case StreamEnds(cancelled) => FinishRun(Ended(cancelled));
      case ProviderFails => FinishRun(StreamError);
      case Replied(r) =>
        if !Collected(r) {
          FinishRun(Error);
        } else if r.finish.OutputLimit? {
          FinishRun(OutputLimitReached);
        } else if finalizing {
          FinishPlan(r, t.stored);
        } else if r.finish.Natural? {
          HandleNatural(r, t.stored);
        } else if !config.plan && iteration == config.maxIterations {
          FinishRun(IterationLimit);
        } else {
          RunTools(r, t);
        }
    }

    /** One iteration; a paired history stays one. */
    method RunIteration(t: Turn)
      requires Valid() && state.Running?
      modifies this
      ensures Valid() && Live() && View() == Iterate(config, old(View()), t) && iteration == old(iteration) + 1
      ensures H.GoodTurn(t) && H.HistoryOk(config, old(View())) ==> H.HistoryOk(config, View())
    {
      hide PollStage, PrepareStage, ResponseStage, Iterate, Pace, H.GoodTurn, H.HistoryOk;
      IterateStages(config, View(), t);
      IteratePace(config, View(), t);
      if H.GoodTurn(t) && H.HistoryOk(config, View()) { H.IterateKeeps(config, View(), t); }
      iteration := iteration + 1;
      if t.cancelRequested {
        FinishRun(Cancelled);
        return;
      }
      PollInbound(t.poll);
      if outcome.None? {
        PrepareContext(t.preparation);
        if outcome.None? {
          HandleResponse(t);
        }
      }
    }

    /**
      `events`: a run is consumed once and ends with one outcome, that of `Run`, within its limits.
      Every history that it committed is paired, if the first one is and the inputs are good ones;
      without mailbox messages and compaction it commits the first history and the new messages.
    */
    method Events(turns: seq<Turn>) returns (refused: bool)
      requires Valid() && |turns| >= LoopLimit(config)
      modifies this
      ensures Valid() && (refused <==> !old(state).New?)
      ensures refused ==> View() == old(View()) && state == old(state)
      ensures !refused ==> View() == Run(config, history, turns) && outcome.Some? && batches <= Reach(config)
      ensures !refused && GoodStart() && (forall i :: 0 <= i < |turns| ==> H.GoodTurn(turns[i])) ==>
        forall k :: 0 <= k < |commits| ==> ValidPrefix(commits[k]) == |commits[k]|
      ensures !refused && (forall i :: 0 <= i < |turns| ==> H.Quiet(turns[i])) ==>
        var o := outcome.value;
        o.committed == if o.produced == [] then history else Base(config, history) + o.produced
    {
      hide Pace, GoodStart, H.GoodTurn, H.Quiet;
      if !state.New? {
        return true;
      }
      Promises(turns);
      state := Running;
      RunLoop(turns);
      return false;
    }

    /** The first history is paired and no message of it carries an id of this run. */
    ghost predicate GoodStart() {
      H.Sound(history) && H.Sound(Base(config, history)) && H.GroupFree(config, Base(config, history), 0)
    }

    lemma Promises(turns: seq<Turn>)
      requires ConfigOk(config) && |turns| >= LoopLimit(config)
      ensures
        var s := Run(config, history, turns);
        && s.batches <= Reach(config) && s.outcome.Some?
        && (GoodStart() && (forall i :: 0 <= i < |turns| ==> H.GoodTurn(turns[i])) ==>
              forall k :: 0 <= k < |s.commits| ==> ValidPrefix(s.commits[k]) == |s.commits[k]|)
        && ((forall i :: 0 <= i < |turns| ==> H.Quiet(turns[i])) ==>
              var o := s.outcome.value;
              o.committed == if o.produced == [] then history else Base(config, history) + o.produced)
    {
      hide Run, H.Sound, H.GroupFree, H.GoodTurn, H.Quiet, ValidPrefix, LoopLimit, Base;
      RunIsBounded(config, history, turns);
      if GoodStart() && (forall i :: 0 <= i < |turns| ==> H.GoodTurn(turns[i])) {
        H.CommittedHistoriesArePaired(config, history, turns);
      }
      if forall i :: 0 <= i < |turns| ==> H.Quiet(turns[i]) {
        H.CommittedIsHistoryAndNew(config, history, turns);
      }
    }

    method RunLoop(turns: seq<Turn>)
      requires Valid() && state.Running? && View() == Init(config, history) && |turns| >= LoopLimit(config)
      modifies this
      ensures Valid() && View() == Run(config, history, turns) && outcome.Some?
    {
      var limit := LoopLimit(config);
      ghost var all := turns[..limit];
      assert all[0..] == all;
      var k := 0;
      while k < limit && outcome.None?
        invariant 0 <= k <= limit
        invariant Iterations(config, View(), all[k..]) == Iterations(config, Init(config, history), all)
        invariant Valid() && !state.New?
      {
        hide Iterate, LoopLimit, Pace, ConfigOk, H.GoodTurn, H.HistoryOk;
        assert all[k..][0] == turns[k] && all[k..][1..] == all[k + 1..];
        RunIteration(turns[k]);
        k := k + 1;
      }
      if outcome.None? {
        FinishRun(Error);
      }
    }
  }
}

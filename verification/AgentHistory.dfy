/** What the histories committed by an agent run look like (`src/mewcode/agent/runner.py`). */
module AgentHistory {
  import opened Wrappers
  import opened Chat
  import opened IdLists
  import opened ToolPairing
  import opened HistorySelection
  import opened ProviderMessages
  import opened AgentLoop

  // --- Group ids --------------------------------------------------------------------------

  lemma {:induction false} DecimalInjective(a: nat, b: nat)
    requires Decimal(a) == Decimal(b)
    ensures a == b
  {
    var s, t := Decimal(a), Decimal(b);
    assert s[|s| - 1] == Digit(a % 10) && t[|t| - 1] == Digit(b % 10);
    assert a % 10 == b % 10;
    assert s[..|s| - 1] == (if a < 10 then [] else Decimal(a / 10))
        && t[..|t| - 1] == (if b < 10 then [] else Decimal(b / 10));
    if a >= 10 && b >= 10 { DecimalInjective(a / 10, b / 10); }
  }

  lemma GroupsDiffer(c: Config, i: nat, j: nat)
    requires i != j
    ensures GroupId(c, i) != GroupId(c, j)
  {
    if GroupId(c, i) == GroupId(c, j) {
      var n := |c.runId| + 1;
      assert GroupId(c, i)[n..] == Decimal(i) && GroupId(c, j)[n..] == Decimal(j);
      DecimalInjective(i, j);
    }
  }

  /** No message belongs to a group of an iteration after `n`. */
  ghost predicate GroupFree(c: Config, m: seq<ChatMessage>, n: nat) {
    forall i, j: nat :: 0 <= i < |m| && n < j ==> m[i].groupId != Some(GroupId(c, j))
  }

  // --- Inputs ----------------------------------------------------------------------------------

  predicate IsPlain(m: ChatMessage) {
    !IsTool(m) && !IsMarker(m) && m.groupId.None?
  }

  predicate AllPlain(m: seq<ChatMessage>) {
    forall i :: 0 <= i < |m| ==> IsPlain(m[i])
  }

  /** Mailbox messages are plain, responses are good and a schedule gave one execution for each call. */
  predicate GoodTurn(t: Turn) {
    && (t.poll.Batched? ==> AllPlain(t.poll.messages))
    && (t.stream.Replied? ==> GoodResponse(t.stream.response))
    && (t.stream.Replied? && t.tools.Ran? ==> OneEach(t.stream.response.calls, t.tools.executions))
  }

  // --- Invariant -----------------------------------------------------------------------------------

  predicate Sound(m: seq<ChatMessage>) {
    Paired(m) && MarkersAtHead(m)
  }

  predicate CommitsOk(committed: seq<ChatMessage>, commits: seq<seq<ChatMessage>>) {
    Sound(committed) && forall k :: 0 <= k < |commits| ==> Sound(commits[k])
  }

  ghost predicate WorkingOk(c: Config, working: seq<ChatMessage>, iteration: nat) {
    working != [] && Sound(working) && GroupFree(c, working, iteration)
  }

  /** The user message is the last one until it is committed. */
  predicate PlanOk(c: Config, working: seq<ChatMessage>, planMessages: seq<ChatMessage>, userDone: bool) {
    AllPlain(planMessages) && (!userDone ==> planMessages == [] && working != [] && working[|working| - 1] == c.user)
  }

  /** Every committed history is paired; the working history of a running loop is too. */
  ghost predicate HistoryOk(c: Config, s: Loop) {
    && CommitsOk(s.committed, s.commits)
    && (s.outcome.Some? ==> s.outcome.value.committed == s.committed)
    && (s.outcome.None? ==> WorkingOk(c, s.working, s.iteration) && PlanOk(c, s.working, s.planMessages, s.userDone))
  }

  // --- Joining ---------------------------------------------------------------------------------------

  lemma AppendSound(w: seq<ChatMessage>, tail: seq<ChatMessage>)
    requires Sound(w) && Paired(tail)
    requires forall i :: 0 <= i < |tail| ==> !IsMarker(tail[i])
    requires w != [] && tail != [] ==> tail[0].groupId.None? || tail[0].groupId != w[|w| - 1].groupId
    ensures Sound(w + tail)
  {
    hide Paired, IsMarker;
    if w == [] || tail == [] {
      assert w + tail == if w == [] then tail else w;
    } else {
      JoinPaired(w, tail);
    }
  }

  lemma AppendPlain(w: seq<ChatMessage>, tail: seq<ChatMessage>)
    requires Sound(w) && AllPlain(tail)
    ensures Sound(w + tail)
  {
    PlainPaired(tail);
    AppendSound(w, tail);
  }

  lemma PlainJoin(a: seq<ChatMessage>, b: seq<ChatMessage>)
    requires AllPlain(a) && AllPlain(b)
    ensures AllPlain(a + b)
  {
    hide IsPlain;
  }

  lemma FreeJoin(c: Config, a: seq<ChatMessage>, b: seq<ChatMessage>, n: nat)
    requires GroupFree(c, a, n) && GroupFree(c, b, n)
    ensures GroupFree(c, a + b, n)
  {
    hide GroupId;
  }

  lemma PlainFree(c: Config, a: seq<ChatMessage>, n: nat)
    requires AllPlain(a)
    ensures GroupFree(c, a, n)
  {
  }

  // --- Each stage keeps it -------------------------------------------------------------------------------

  lemma CommitStep(committed: seq<ChatMessage>, commits: seq<seq<ChatMessage>>, candidate: seq<ChatMessage>)
    requires CommitsOk(committed, commits) && Sound(candidate)
    ensures CommitsOk(candidate, commits + [candidate])
  {
    hide Sound;
  }

  lemma PollKeeps(c: Config, s: Loop, poll: Poll)
    requires HistoryOk(c, s) && s.outcome.None? && (poll.Batched? ==> AllPlain(poll.messages))
    ensures HistoryOk(c, PollStage(c, s, poll))
  {
    if poll.Batched? {
      var after := s.working + poll.messages;
      AppendPlain(s.working, poll.messages);
      PlainFree(c, poll.messages, s.iteration);
      FreeJoin(c, s.working, poll.messages, s.iteration);
      assert WorkingOk(c, after, s.iteration) && PlanOk(c, after, s.planMessages, true);
      hide Sound, GroupFree, WorkingOk, PlanOk;
      assert Sound(s.working) by { WorkingSound(c, s.working, s.iteration); }
      CommitStep(s.committed, s.commits, s.working);
      CommitStep(s.working, s.commits + [s.working], after);
      CommitStep(s.committed, s.commits, after);
      hide CommitsOk;
    }
  }

  lemma WorkingSound(c: Config, working: seq<ChatMessage>, n: nat)
    requires WorkingOk(c, working, n)
    ensures Sound(working) && working != []
  {
  }

  /** A compacted history is a head of two markers and a nonempty tail of the old one. */
  lemma CompactedTail(c: Config, m: seq<ChatMessage>, formal: string) returns (k: nat)
    requires ConfigOk(c) && MarkersAtHead(m) && Select(c.floors, m).canCompact
    ensures k < |m| && Compacted(c.floors, m, formal, c.boundary) == Head(formal, c.boundary) + m[k..]
  {
    hide RecentStart, Ordinary, Early, Head, MarkersAtHead;
    var n := OrdinaryIsTail(m);
    var p := RecentStart(c.floors, Ordinary(m));
    RecentNotEmpty(c.floors, Ordinary(m));
    k := n + p;
    assert m[n..][p..] == m[k..];
  }

  lemma RecentNotEmpty(f: Floors, messages: seq<ChatMessage>)
    requires FloorsOk(f) && RecentStart(f, messages) > 0
    ensures RecentStart(f, messages) < |messages|
  {
    hide RecentStart;
    StartIsRecent(f, messages);
  }

  lemma TailFree(c: Config, m: seq<ChatMessage>, k: nat, formal: string, n: nat)
    requires k < |m| && GroupFree(c, m, n)
    ensures GroupFree(c, Head(formal, c.boundary) + m[k..], n)
    ensures (Head(formal, c.boundary) + m[k..])[1 + |m| - k] == m[|m| - 1]
  {
    hide GroupId;
    var head := Head(formal, c.boundary);
    assert |head| == 2 && head[0].groupId.None? && head[1].groupId.None?;
  }

  lemma PrepareKeeps(c: Config, s: Loop, preparation: Preparation)
    requires ConfigOk(c) && HistoryOk(c, s) && s.outcome.None?
    ensures HistoryOk(c, PrepareStage(c, s, preparation))
  {
    if preparation.Shortened? && !Preserves(c, s) && Select(c.floors, s.working).canCompact {
      var shorter := Compacted(c.floors, s.working, preparation.formal, c.boundary);
      ShorterOk(c, s, preparation.formal);
      hide CommitsOk, Sound, GroupFree, WorkingOk, PlanOk, Compacted, Select, WithoutUser;
      CommitStep(s.committed, s.commits, WithoutUser(s, shorter) + s.planMessages);
    }
  }

  lemma ShorterOk(c: Config, s: Loop, formal: string)
    requires ConfigOk(c) && HistoryOk(c, s) && s.outcome.None? && Select(c.floors, s.working).canCompact
    ensures
      var shorter := Compacted(c.floors, s.working, formal, c.boundary);
      && WorkingOk(c, shorter, s.iteration) && PlanOk(c, shorter, s.planMessages, s.userDone)
      && Sound(WithoutUser(s, shorter) + s.planMessages)
  {
    var shorter := Compacted(c.floors, s.working, formal, c.boundary);
    CompactionKeepsPairing(c.floors, s.working, formal, c.boundary);
    var k := CompactedTail(c, s.working, formal);
    TailFree(c, s.working, k, formal, s.iteration);
    hide Compacted, Select, Paired, MarkersAtHead, GroupFree;
    assert shorter[|shorter| - 1] == s.working[|s.working| - 1];
    ShorterCandidate(c, s, shorter);
  }

  lemma ShorterCandidate(c: Config, s: Loop, shorter: seq<ChatMessage>)
    requires ConfigOk(c) && Sound(shorter) && AllPlain(s.planMessages)
    requires !s.userDone ==> s.planMessages == [] && shorter != [] && shorter[|shorter| - 1] == c.user
    ensures Sound(WithoutUser(s, shorter) + s.planMessages)
  {
    if s.userDone {
      AppendPlain(shorter, s.planMessages);
    } else {
      var n := |shorter| - 1;
      assert WithoutUser(s, shorter) + s.planMessages == shorter[..n];
      CutPrefix(shorter, n);
      hide Paired, ValidPrefix, IsMarker;
    }
  }

  lemma AnswerIsPlain(p: Provider, r: Response)
    requires r.calls == []
    ensures AllPlain(AssistantMessages(p, r, None))
  {
    PlainResponse(p, r, None);
  }

  lemma AnswerKeeps(c: Config, s: Loop, answer: seq<ChatMessage>, stored: bool)
    requires HistoryOk(c, s) && s.outcome.None? && AllPlain(answer)
    ensures
      var q := Answer(c, s, answer, stored);
      && CommitsOk(q.committed, q.commits) && (q.outcome.Some? ==> q.outcome.value.committed == q.committed)
      && q.working == s.working && q.iteration == s.iteration && q.planMessages == s.planMessages
      && (q.outcome.None? ==> q.userDone)
  {
    var candidate := s.working + s.planMessages + answer;
    PlainJoin(s.planMessages, answer);
    AppendPlain(s.working, s.planMessages + answer);
    assert candidate == s.working + (s.planMessages + answer);
    CommitStep(s.committed, s.commits, candidate);
    hide Sound, GroupFree, AllPlain, CommitsOk;
  }

  lemma AnsweredPlan(
      c: Config, working: seq<ChatMessage>, planMessages: seq<ChatMessage>, answer: seq<ChatMessage>, userDone: bool)
    requires PlanOk(c, working, planMessages, userDone) && AllPlain(answer)
    ensures PlanOk(c, working, planMessages + answer, true)
  {
    PlainJoin(planMessages, answer);
  }

  lemma RoundKeeps(c: Config, s: Loop, r: Response, executions: seq<Execution>)
    requires HistoryOk(c, s) && s.outcome.None? && 1 <= s.iteration && GroupFree(c, s.working, s.iteration - 1)
    requires GoodResponse(r) && r.calls != [] && OneEach(r.calls, executions)
    ensures
      var w := s.working + Round(c.provider, r, executions, GroupId(c, s.iteration));
      Sound(w) && GroupFree(c, w, s.iteration)
  {
    var group := GroupId(c, s.iteration);
    var round := Round(c.provider, r, executions, group);
    RoundShape(c.provider, r, executions, group);
    OneEachPairs(c.provider, r, executions, group);
    hide Round, Paired, GoodResponse, CallsFirst, GroupId;
    AppendSound(s.working, round);
    forall j: nat | s.iteration < j ensures Some(group) != Some(GroupId(c, j)) {
      GroupsDiffer(c, s.iteration, j);
    }
    assert GroupFree(c, round, s.iteration);
    FreeJoin(c, s.working, round, s.iteration);
  }

  /**
    A schedule that lost an execution, as a cancelled one may, makes the committed history
    unpaired: it is paired exactly when every call has one result.
  */
  lemma CommittedRoundPairedIff(c: Config, s: Loop, r: Response, executions: seq<Execution>)
    requires Sound(s.working) && 1 <= s.iteration && GroupFree(c, s.working, s.iteration - 1)
    requires GoodResponse(r) && r.calls != [] && "" !in ResultIds(executions)
    ensures
      Paired(s.working + Round(c.provider, r, executions, GroupId(c, s.iteration)))
      <==> NoDuplicates(ResultIds(executions)) && Elements(ResultIds(executions)) == Elements(CallIds(r.calls))
  {
    var w, round := s.working, Round(c.provider, r, executions, GroupId(c, s.iteration));
    RoundShape(c.provider, r, executions, GroupId(c, s.iteration));
    RoundPairedIff(c.provider, r, executions, GroupId(c, s.iteration));
    hide Round, Paired, GoodResponse, CallsFirst, GroupId;
    assert IsBoundary(w + round, |w|);
    JoinPaired(w, round);
  }

  /** The messages of the tool round that a turn runs. */
  function RoundOf(c: Config, s: Loop, r: Response, t: Turn): seq<ChatMessage> {
    if t.tools.Ran? then Round(c.provider, r, t.tools.executions, GroupId(c, s.iteration)) else []
  }

  /** The histories of `q` are those of `s`, and an outcome of `q` reports them. */
  predicate SameHistory(s: Loop, q: Loop) {
    && q.working == s.working && q.produced == s.produced && q.committed == s.committed && q.userDone == s.userDone
    && q.planMessages == s.planMessages && q.iteration == s.iteration && q.commits == s.commits
    && (q.outcome.Some? ==> q.outcome.value.produced == q.produced && q.outcome.value.committed == q.committed)
  }

  /** `s` after a stored tool round. */
  function Stored(c: Config, s: Loop, round: seq<ChatMessage>): Loop {
    s.(working := s.working + round, committed := s.working + round, commits := s.commits + [s.working + round],
       produced := (if s.userDone then s.produced else s.produced + [c.user]) + round, userDone := true)
  }

  lemma AfterRoundFrame(c: Config, s: Loop, executions: seq<Execution>, cancelled: bool)
    requires s.outcome.None?
    ensures SameHistory(s, AfterRound(c, s, executions, cancelled))
  {
    hide Pauses;
  }

  /** A tool stage stops with the histories as they were, or stores the whole round. */
  lemma ToolStageHistory(c: Config, s: Loop, r: Response, t: Turn)
    requires s.outcome.None?
    ensures
      var q := ToolStage(c, s, r, t);
      || (SameHistory(s, q) && q.outcome.Some?)
      || (t.tools.Ran? && SameHistory(Stored(c, s, RoundOf(c, s, r, t)), q))
  {
    hide Round, GroupId, AllUnknown, AllDenied, AfterRound;
    if t.tools.Ran? && t.archived && t.stored {
      var round := RoundOf(c, s, r, t);
      var told := s.(
        batches := s.batches + 1,
        unknown := if AllUnknown(r.calls, t.known) then s.unknown + 1 else 0,
        denied := if AllDenied(t.tools.executions) then s.denied + 1 else 0,
        working := s.working + round, committed := s.working + round, commits := s.commits + [s.working + round],
        produced := (if s.userDone then s.produced else s.produced + [c.user]) + round, userDone := true);
      assert ToolStage(c, s, r, t) == AfterRound(c, told, t.tools.executions, t.tools.cancelled);
      AfterRoundFrame(c, told, t.tools.executions, t.tools.cancelled);
    }
  }

  lemma ToolsKeep(c: Config, s: Loop, r: Response, t: Turn)
    requires HistoryOk(c, s) && s.outcome.None? && 1 <= s.iteration && GroupFree(c, s.working, s.iteration - 1)
    requires GoodTurn(t) && t.stream == Replied(r) && r.calls != []
    ensures HistoryOk(c, ToolStage(c, s, r, t))
  {
    ToolStageHistory(c, s, r, t);
    if t.tools.Ran? {
      var w := s.working + RoundOf(c, s, r, t);
      RoundKeeps(c, s, r, t.tools.executions);
      assert w != [];
      CommitStep(s.committed, s.commits, w);
      assert PlanOk(c, w, s.planMessages, true);
    }
    hide Sound, GroupFree, CommitsOk, PlanOk, ToolStage, Round;
  }

  lemma ResponseKeeps(c: Config, s: Loop, t: Turn)
    requires HistoryOk(c, s) && s.outcome.None? && 1 <= s.iteration && GroupFree(c, s.working, s.iteration - 1)
        && GoodTurn(t)
    ensures HistoryOk(c, ResponseStage(c, s, t))
  {
    hide GroupFree, ToolStage, AssistantMessages, GoodResponse, Answer, CommitsOk, WorkingOk, PlanOk, CallsFirst;
    if t.stream.Replied? {
      var r := t.stream.response;
      if Collected(r) && r.calls == [] {
        var answer := AssistantMessages(c.provider, r, None);
        AnswerIsPlain(c.provider, r);
        AnswerKeeps(c, s, answer, t.stored);
        AnsweredPlan(c, s.working, s.planMessages, answer, s.userDone);
      } else if Collected(r) {
        ToolsKeep(c, s, r, t);
      }
    }
  }

  lemma FreeLater(c: Config, m: seq<ChatMessage>, n: nat)
    requires GroupFree(c, m, n)
    ensures GroupFree(c, m, n + 1)
  {
    hide GroupId;
  }

  lemma PollFree(c: Config, s: Loop, poll: Poll, n: nat)
    requires GroupFree(c, s.working, n) && (poll.Batched? ==> AllPlain(poll.messages))
    ensures GroupFree(c, PollStage(c, s, poll).working, n)
  {
    if poll.Batched? {
      PlainFree(c, poll.messages, n);
      FreeJoin(c, s.working, poll.messages, n);
    }
    hide GroupFree;
  }

  lemma PrepareFree(c: Config, s: Loop, preparation: Preparation, n: nat)
    requires ConfigOk(c) && MarkersAtHead(s.working) && s.working != [] && GroupFree(c, s.working, n)
    ensures GroupFree(c, PrepareStage(c, s, preparation).working, n)
  {
    if preparation.Shortened? && Select(c.floors, s.working).canCompact {
      var k := CompactedTail(c, s.working, preparation.formal);
      TailFree(c, s.working, k, preparation.formal, n);
      hide GroupFree, Compacted, Select, MarkersAtHead;
    }
  }

  lemma IterateKeeps(c: Config, s: Loop, t: Turn)
    requires ConfigOk(c) && HistoryOk(c, s) && s.outcome.None? && GoodTurn(t)
    ensures HistoryOk(c, Iterate(c, s, t))
  {
    var begun := s.(iteration := s.iteration + 1);
    FreeLater(c, s.working, s.iteration);
    IterateStages(c, s, t);
    hide PrepareStage, ResponseStage, PollStage, Iterate, GroupFree, AllPlain, Sound;
    if !t.cancelRequested {
      var polled := PollStage(c, begun, t.poll);
      PollKeeps(c, begun, t.poll);
      PollFree(c, begun, t.poll, s.iteration);
      PollPace(c, begun, t.poll);
      if polled.outcome.None? {
        PrepareKeeps(c, polled, t.preparation);
        assert MarkersAtHead(polled.working) by { SoundHead(polled.working); }
        PrepareFree(c, polled, t.preparation, s.iteration);
        PreparePace(c, polled, t.preparation);
        var prepared := PrepareStage(c, polled, t.preparation);
        if prepared.outcome.None? { ResponseKeeps(c, prepared, t); }
      }
    }
  }

  lemma SoundHead(m: seq<ChatMessage>)
    requires Sound(m)
    ensures MarkersAtHead(m)
  {
  }

  lemma {:induction false} IterationsKeep(c: Config, s: Loop, turns: seq<Turn>)
    requires ConfigOk(c) && HistoryOk(c, s) && forall i :: 0 <= i < |turns| ==> GoodTurn(turns[i])
    ensures HistoryOk(c, Iterations(c, s, turns))
    decreases |turns|
  {
    hide HistoryOk, Iterate, GoodTurn;
    if turns != [] && s.outcome.None? {
      IterateKeeps(c, s, turns[0]);
      IterationsKeep(c, Iterate(c, s, turns[0]), turns[1..]);
    }
  }

  lemma InitOk(c: Config, history: seq<ChatMessage>)
    requires ConfigOk(c) && Sound(history) && Sound(Base(c, history)) && GroupFree(c, Base(c, history), 0)
    ensures HistoryOk(c, Init(c, history))
  {
    AppendPlain(Base(c, history), [c.user]);
    PlainFree(c, [c.user], 0);
    FreeJoin(c, Base(c, history), [c.user], 0);
  }

  /**
    Every history a run commits is fully paired, through tool rounds, plans, mailbox messages
    and compactions, when its first history is and no message of it carries the run's id.
  */
  lemma CommittedHistoriesArePaired(c: Config, history: seq<ChatMessage>, turns: seq<Turn>)
    requires ConfigOk(c) && Sound(history) && Sound(Base(c, history)) && GroupFree(c, Base(c, history), 0)
    requires |turns| >= LoopLimit(c) && forall i :: 0 <= i < |turns| ==> GoodTurn(turns[i])
    ensures
      var s := Run(c, history, turns);
      && (forall k :: 0 <= k < |s.commits| ==> ValidPrefix(s.commits[k]) == |s.commits[k]|)
      && Paired(s.outcome.value.committed)
  {
    InitOk(c, history);
    IterationsKeep(c, Init(c, history), turns[..LoopLimit(c)]);
    hide Iterations, GroupFree;
  }

  // --- Without mailbox and compaction nothing is lost -----------------------------------------------------------

  predicate Quiet(t: Turn) {
    !t.poll.Batched? && !t.preparation.Shortened?
  }

  /** What is committed is the first history and the new messages. */
  predicate Conserves(c: Config, history: seq<ChatMessage>, s: Loop) {
    var base := Base(c, history);
    && (s.outcome.None? ==>
          && (!s.userDone ==>
              s.working == base + [c.user] && s.produced == [] && s.planMessages == [] && s.committed == history)
          && (s.userDone ==> s.working + s.planMessages == base + s.produced == s.committed && s.produced != [])
          && (s.planMessages != [] ==> s.finalizing))
    && (s.outcome.Some? ==>
          s.outcome.value.committed == if s.outcome.value.produced == [] then history
              else base + s.outcome.value.produced)
  }

  lemma AnswerConserves(c: Config, history: seq<ChatMessage>, s: Loop, answer: seq<ChatMessage>, stored: bool)
    requires Conserves(c, history, s) && s.outcome.None? && answer != []
    ensures
      var q := Answer(c, s, answer, stored);
      && (q.outcome.Some? ==> Conserves(c, history, q))
      && (q.outcome.None? ==>
          q.userDone && q.produced != []
              && q.working + q.planMessages + answer == q.committed == Base(c, history) + q.produced)
  {
    var base, q := Base(c, history), Answer(c, s, answer, stored);
    if stored {
      assert q.committed == s.working + s.planMessages + answer;
      assert base + (s.produced + answer) == (base + s.produced) + answer;
      assert base + [c.user] + [] + answer == base + ([] + [c.user] + answer);
    }
  }

  lemma FrameConserves(c: Config, history: seq<ChatMessage>, s: Loop, q: Loop)
    requires Conserves(c, history, s) && s.outcome.None? && s.planMessages == [] && SameHistory(s, q)
    ensures Conserves(c, history, q)
  {
    hide Base;
    assert s.working + [] == s.working;
  }

  lemma StoredConserves(c: Config, history: seq<ChatMessage>, s: Loop, round: seq<ChatMessage>)
    requires Conserves(c, history, s) && s.outcome.None? && s.planMessages == [] && round != []
    ensures Conserves(c, history, Stored(c, s, round))
  {
    var base := Base(c, history);
    hide Base;
    assert s.working + [] == s.working && (s.working + round) + [] == s.working + round;
    if s.userDone {
      assert base + (s.produced + round) == (base + s.produced) + round;
    } else {
      assert base + ([] + [c.user] + round) == base + [c.user] + round;
    }
  }

  lemma RoundConserves(c: Config, history: seq<ChatMessage>, s: Loop, r: Response, t: Turn)
    requires Conserves(c, history, s) && s.outcome.None? && s.planMessages == [] && r.calls != []
    ensures Conserves(c, history, ToolStage(c, s, r, t))
  {
    ToolStageHistory(c, s, r, t);
    var round := RoundOf(c, s, r, t);
    if t.tools.Ran? { RoundShape(c.provider, r, t.tools.executions, GroupId(c, s.iteration)); }
    assert t.tools.Ran? ==> round != [];
    hide ToolStage, RoundOf, Conserves, SameHistory;
    var q := ToolStage(c, s, r, t);
    if SameHistory(s, q) {
      FrameConserves(c, history, s, q);
    } else {
      StoredConserves(c, history, s, round);
      FrameConserves(c, history, Stored(c, s, round), q);
    }
  }

  lemma StopConserves(c: Config, history: seq<ChatMessage>, s: Loop, reason: StopReason)
    requires Conserves(c, history, s) && s.outcome.None?
    ensures Conserves(c, history, Finish(s, reason))
  {
    hide Base;
  }

  /** After a stored answer the run may end, or hold the answer back. */
  lemma AnsweredConserves(c: Config, history: seq<ChatMessage>, q: Loop, answer: seq<ChatMessage>)
    requires q.outcome.None? && q.userDone && q.produced != []
    requires q.working + q.planMessages + answer == q.committed == Base(c, history) + q.produced
    ensures Conserves(c, history, Finish(q, Completed))
    ensures Conserves(c, history, q.(planMessages := q.planMessages + answer, finalizing := true))
  {
    hide Base;
    assert q.working + q.planMessages + answer == q.working + (q.planMessages + answer);
  }

  lemma AnswerStages(c: Config, history: seq<ChatMessage>, s: Loop, r: Response, stored: bool)
    requires Conserves(c, history, s) && s.outcome.None? && r.calls == []
    ensures
      var answer := AssistantMessages(c.provider, r, None);
      var q := Answer(c, s, answer, stored);
      && (q.outcome.Some? ==> Conserves(c, history, q))
      && (q.outcome.None? ==>
            && Conserves(c, history, Finish(q, Completed))
            && Conserves(c, history, q.(planMessages := q.planMessages + answer, finalizing := true)))
  {
    hide AssistantMessages, Answer, Base, Conserves, Finish;
    var answer := AssistantMessages(c.provider, r, None);
    PlainResponse(c.provider, r, None);
    AnswerConserves(c, history, s, answer, stored);
    if Answer(c, s, answer, stored).outcome.None? {
      AnsweredConserves(c, history, Answer(c, s, answer, stored), answer);
    }
  }

  lemma FinalPlanConserves(c: Config, history: seq<ChatMessage>, s: Loop, r: Response, stored: bool)
    requires Conserves(c, history, s) && s.outcome.None? && (!r.finish.ToolCalls? ==> r.calls == [])
    ensures Conserves(c, history, FinalPlanStage(c, s, r, stored))
  {
    hide AssistantMessages, Answer, Conserves, Finish;
    StopConserves(c, history, s, Error);
    StopConserves(c, history, s, EmptyResponse);
    if !r.finish.ToolCalls? { AnswerStages(c, history, s, r, stored); }
  }

  lemma NaturalConserves(c: Config, history: seq<ChatMessage>, s: Loop, r: Response, stored: bool)
    requires Conserves(c, history, s) && s.outcome.None? && r.calls == []
    ensures Conserves(c, history, NaturalStage(c, s, r, stored))
  {
    hide AssistantMessages, Answer, Conserves, Finish;
    StopConserves(c, history, s, EmptyResponse);
    AnswerStages(c, history, s, r, stored);
  }

  lemma HeldBack(c: Config, history: seq<ChatMessage>, s: Loop)
    requires Conserves(c, history, s) && s.outcome.None?
    ensures s.planMessages != [] ==> s.finalizing
  {
    hide Base;
  }

  lemma ResponseConserves(c: Config, history: seq<ChatMessage>, s: Loop, t: Turn)
    requires Conserves(c, history, s) && s.outcome.None?
    ensures Conserves(c, history, ResponseStage(c, s, t))
  {
    hide Conserves, FinalPlanStage, NaturalStage, ToolStage, Finish;
    forall reason ensures Conserves(c, history, Finish(s, reason)) { StopConserves(c, history, s, reason); }
    HeldBack(c, history, s);
    if t.stream.Replied? && Collected(t.stream.response) && !t.stream.response.finish.OutputLimit? {
      var r := t.stream.response;
      if s.finalizing {
        FinalPlanConserves(c, history, s, r, t.stored);
      } else if r.finish.Natural? {
        NaturalConserves(c, history, s, r, t.stored);
      } else {
        RoundConserves(c, history, s, r, t);
      }
    }
  }

  lemma IterateConserves(c: Config, history: seq<ChatMessage>, s: Loop, t: Turn)
    requires Conserves(c, history, s) && s.outcome.None? && Quiet(t)
    ensures Conserves(c, history, Iterate(c, s, t))
  {
    var begun := s.(iteration := s.iteration + 1);
    IterateStages(c, s, t);
    hide Base, ResponseStage, Iterate;
    if !t.cancelRequested {
      var polled := PollStage(c, begun, t.poll);
      if polled.outcome.None? {
        var prepared := PrepareStage(c, polled, t.preparation);
        if prepared.outcome.None? { ResponseConserves(c, history, prepared, t); }
      }
    }
  }

  lemma {:induction false} IterationsConserve(c: Config, history: seq<ChatMessage>, s: Loop, turns: seq<Turn>)
    requires Conserves(c, history, s) && forall i :: 0 <= i < |turns| ==> Quiet(turns[i])
    ensures Conserves(c, history, Iterations(c, s, turns))
    decreases |turns|
  {
    hide Conserves, Iterate, Quiet;
    if turns != [] && s.outcome.None? {
      IterateConserves(c, history, s, turns[0]);
      IterationsConserve(c, history, Iterate(c, s, turns[0]), turns[1..]);
    }
  }

  /**
    Without mailbox messages and compaction a run commits exactly the history it started from
    followed by its new messages, in order, in every mode and however it stops.
  */
  lemma CommittedIsHistoryAndNew(c: Config, history: seq<ChatMessage>, turns: seq<Turn>)
    requires |turns| >= LoopLimit(c) && forall i :: 0 <= i < |turns| ==> Quiet(turns[i])
    ensures
      var o := Run(c, history, turns).outcome.value;
      o.committed == if o.produced == [] then history else Base(c, history) + o.produced
  {
    assert Conserves(c, history, Init(c, history)) by { hide Base; }
    IterationsConserve(c, history, Init(c, history), turns[..LoopLimit(c)]);
    hide Iterations;
  }

  // --- Mailbox messages extend what is stored ---------------------------------------------------------

  /** What `poll` hands to `commit_inbound`: the working history and the messages of the batch. */
  function InboundCandidate(s: Loop, messages: seq<ChatMessage>): seq<ChatMessage> {
    s.working + messages
  }

  /** The history that is stored when `commit_inbound` is called. */
  function StoredBefore(s: Loop): seq<ChatMessage> {
    if s.userDone then s.committed else s.working
  }

  predicate AllInbound(messages: seq<ChatMessage>) {
    forall i :: 0 <= i < |messages| ==> messages[i].kind.TeamInbound?
  }

  /** The sink stores a batch only when the candidate extends what is stored. */
  predicate Accepts(s: Loop, t: Turn) {
    t.poll.Batched? && !t.cancelRequested && t.poll.stored && (s.userDone || t.poll.userStored) ==>
      AllInbound(t.poll.messages) && StoredBefore(s) <= InboundCandidate(s, t.poll.messages)
  }

  /** Such a sink through the iterations of a run. */
  predicate SinkExtends(c: Config, s: Loop, turns: seq<Turn>)
    decreases |turns|
  {
    turns == [] || s.outcome.Some? || (Accepts(s, turns[0]) && SinkExtends(c, Iterate(c, s, turns[0]), turns[1..]))
  }

  /**
    While a run goes on, what is stored is the working history and the investigation answers; there
    are such answers in PLAN mode only, once the run is finalizing, and they are no mailbox messages.
  */
  predicate Tracks(c: Config, s: Loop) {
    s.outcome.None? ==>
      && (s.userDone ==> s.committed == s.working + s.planMessages)
      && (s.planMessages != [] ==> c.plan && s.finalizing && s.userDone)
      && forall i :: 0 <= i < |s.planMessages| ==> !s.planMessages[i].kind.TeamInbound?
  }

  /** The candidate extends what is stored exactly when no investigation answer is held back. */
  lemma ExtendsIff(c: Config, s: Loop, messages: seq<ChatMessage>)
    requires Tracks(c, s) && s.outcome.None? && AllInbound(messages)
    ensures StoredBefore(s) <= InboundCandidate(s, messages) <==> s.planMessages == []
    ensures s.planMessages == [] ==> InboundCandidate(s, messages) == StoredBefore(s) + messages
  {
    if s.planMessages != [] {
      assert StoredBefore(s)[|s.working|] == s.planMessages[0];
      if |messages| > 0 { assert (s.working + messages)[|s.working|] == messages[0]; }
    } else {
      assert s.working + [] == s.working;
    }
  }

  lemma PollTracks(c: Config, s: Loop, t: Turn)
    requires Tracks(c, s) && s.outcome.None? && (c.plan ==> Accepts(s, t)) && !t.cancelRequested
    ensures Tracks(c, PollStage(c, s, t.poll))
  {
    if t.poll.Batched? && t.poll.stored && (s.userDone || t.poll.userStored) {
      if c.plan { ExtendsIff(c, s, t.poll.messages); }
      var after := s.working + t.poll.messages;
      assert after + [] == after;
    }
  }

  lemma PrepareTracks(c: Config, s: Loop, preparation: Preparation)
    requires Tracks(c, s) && s.outcome.None?
    ensures Tracks(c, PrepareStage(c, s, preparation))
  {
    hide Compacted, Select;
  }

  lemma AnswerKinds(p: Provider, r: Response, group: Option<string>)
    ensures forall i :: 0 <= i < |AssistantMessages(p, r, group)| ==>
        !AssistantMessages(p, r, group)[i].kind.TeamInbound?
  {
  }

  lemma ResponseTracks(c: Config, s: Loop, t: Turn)
    requires Tracks(c, s) && s.outcome.None?
    ensures Tracks(c, ResponseStage(c, s, t))
  {
    if t.stream.Replied? {
      var r := t.stream.response;
      var answer := AssistantMessages(c.provider, r, None);
      AnswerKinds(c.provider, r, None);
      hide AssistantMessages;
      assert s.working + s.planMessages + answer == s.working + (s.planMessages + answer);
      if s.finalizing {
        hide ToolStage;
      } else {
        RoundTracks(c, s, r, t);
        hide ToolStage;
      }
    }
  }

  lemma RoundTracks(c: Config, s: Loop, r: Response, t: Turn)
    requires Tracks(c, s) && s.outcome.None? && !s.finalizing
    ensures Tracks(c, ToolStage(c, s, r, t))
  {
    hide Round, GroupId, AllUnknown, AllDenied, Pauses;
    if t.tools.Ran? {
      var after := s.working + Round(c.provider, r, t.tools.executions, GroupId(c, s.iteration));
      assert after + [] == after;
    }
  }

  lemma IterateTracks(c: Config, s: Loop, t: Turn)
    requires Tracks(c, s) && s.outcome.None? && (c.plan ==> Accepts(s, t))
    ensures Tracks(c, Iterate(c, s, t))
  {
    var begun := s.(iteration := s.iteration + 1);
    IterateStages(c, s, t);
    assert Tracks(c, begun) && (c.plan ==> Accepts(begun, t));
    hide PollStage, PrepareStage, ResponseStage, Iterate, Accepts;
    if !t.cancelRequested {
      PollTracks(c, begun, t);
      var polled := PollStage(c, begun, t.poll);
      if polled.outcome.None? {
        PrepareTracks(c, polled, t.preparation);
        var prepared := PrepareStage(c, polled, t.preparation);
        if prepared.outcome.None? { ResponseTracks(c, prepared, t); }
      }
    }
  }

  lemma {:induction false} IterationsTrack(c: Config, s: Loop, turns: seq<Turn>)
    requires Tracks(c, s) && (c.plan ==> SinkExtends(c, s, turns))
    ensures Tracks(c, Iterations(c, s, turns))
    decreases |turns|
  {
    hide Tracks, Iterate, Accepts;
    if turns != [] && s.outcome.None? {
      IterateTracks(c, s, turns[0]);
      IterationsTrack(c, Iterate(c, s, turns[0]), turns[1..]);
    }
  }

  /** Outside PLAN mode `commit_inbound` always appends exactly the batch, whatever the sink checks. */
  lemma InboundAppends(c: Config, history: seq<ChatMessage>, turns: seq<Turn>, messages: seq<ChatMessage>)
    requires !c.plan && Iterations(c, Init(c, history), turns).outcome.None?
    ensures
      var s := Iterations(c, Init(c, history), turns);
      InboundCandidate(s, messages) == StoredBefore(s) + messages
  {
    IterationsTrack(c, Init(c, history), turns);
    var s := Iterations(c, Init(c, history), turns);
    hide Iterations;
    assert s.working + [] == s.working;
  }

  /**
    In every mode, through compactions and batches: the candidate of a batch extends what is stored,
    by exactly the batch, if and only if no investigation answer is held back.
  */
  lemma InboundExtendsIff(c: Config, history: seq<ChatMessage>, turns: seq<Turn>, messages: seq<ChatMessage>)
    requires c.plan ==> SinkExtends(c, Init(c, history), turns)
    requires Iterations(c, Init(c, history), turns).outcome.None? && AllInbound(messages)
    ensures
      var s := Iterations(c, Init(c, history), turns);
      && (StoredBefore(s) <= InboundCandidate(s, messages) <==> s.planMessages == [])
      && (s.planMessages == [] ==> InboundCandidate(s, messages) == StoredBefore(s) + messages)
      && (s.planMessages != [] ==> c.plan && s.finalizing)
  {
    IterationsTrack(c, Init(c, history), turns);
    hide Iterations;
    ExtendsIff(c, Iterations(c, Init(c, history), turns), messages);
  }

  /** Such a batch ends the run: no sink that keeps to its check stores it. */
  lemma PlanInboundFails(c: Config, history: seq<ChatMessage>, turns: seq<Turn>, t: Turn)
    requires SinkExtends(c, Init(c, history), turns)
    requires Iterations(c, Init(c, history), turns).outcome.None?
    requires t.poll.Batched? && !t.cancelRequested && AllInbound(t.poll.messages)
    requires Accepts(Iterations(c, Init(c, history), turns), t)
    ensures
      var s := Iterations(c, Init(c, history), turns);
      s.planMessages != [] ==>
        Iterate(c, s, t).outcome.Some? && Iterate(c, s, t).outcome.value.reason == SessionPersistence
  {
    var s := Iterations(c, Init(c, history), turns);
    IterationsTrack(c, Init(c, history), turns);
    hide Iterations;
    ExtendsIff(c, s, t.poll.messages);
    IterateStages(c, s, t);
    hide Iterate, PrepareStage, ResponseStage;
  }

  /** A PLAN run that ends so: an investigation answer, then any batch. */
  lemma PlanInboundEndsRun(c: Config, history: seq<ChatMessage>, text: string, batch: Turn)
    requires ConfigOk(c) && c.plan
    requires batch.poll.Batched? && !batch.cancelRequested && AllInbound(batch.poll.messages)
    ensures
      var reply := Replied(Response(text, [], Natural, []));
      var answer := Turn(false, NoBatch, Fits, reply, {}, ToolsEnd(false), true, true);
      var s := Iterate(c, Init(c, history), answer);
      && s.outcome.None? && s.planMessages != []
      && (SinkExtends(c, Init(c, history), [answer, batch]) ==>
            var q := Iterations(c, Init(c, history), [answer, batch]);
            q.outcome.Some? && q.outcome.value.reason == SessionPersistence)
  {
    var answer := Turn(false, NoBatch, Fits, Replied(Response(text, [], Natural, [])), {}, ToolsEnd(false), true, true);
    var turns, init := [answer, batch], Init(c, history);
    var s := Iterate(c, init, answer);
    PlainResponse(c.provider, answer.stream.response, None);
    hide AssistantMessages, Base;
    assert s.outcome.None? && s.planMessages != [] && Accepts(init, answer);
    hide Iterate, Accepts, Init;
    TwoTurns(c, init, answer, batch);
    if SinkExtends(c, init, turns) { PlanInboundFails(c, history, [answer], batch); }
  }

  lemma TwoTurns(c: Config, s: Loop, first: Turn, second: Turn)
    requires s.outcome.None?
    ensures Iterations(c, s, [first]) == Iterate(c, s, first)
    ensures Iterate(c, s, first).outcome.None? ==>
      && Iterations(c, s, [first, second]) == Iterate(c, Iterate(c, s, first), second)
      && (SinkExtends(c, s, [first]) <==> Accepts(s, first))
      && (SinkExtends(c, s, [first, second]) <==> Accepts(s, first) && Accepts(Iterate(c, s, first), second))
  {
    hide Iterate, Accepts;
    var q := Iterate(c, s, first);
    assert [first][1..] == [] && [second][1..] == [] && [first, second][1..] == [second];
    assert Iterations(c, q, []) == q && SinkExtends(c, q, []);
    assert Iterations(c, q, [second]) == if q.outcome.Some? then q else Iterations(c, Iterate(c, q, second), []);
    assert q.outcome.None? ==> (SinkExtends(c, q, [second])
        <==> Accepts(q, second) && SinkExtends(c, Iterate(c, q, second), []));
  }
}

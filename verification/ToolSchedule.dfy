/**
  The schedule of the tool calls of one response: batches, pooled reads, side effects alone,
  over every order in which tasks start and finish (`src/mewcode/agent/scheduler.py`).
*/
module ToolSchedule {
  import opened Wrappers
  import opened Chat
  import opened ProviderMessages

  type Requests = seq<ToolCall>

  /** The registry knows the tool of the call as read-only. */
  predicate IsRead(readOnly: set<string>, r: ToolCall) {
    r.name in readOnly
  }

  // --- Batches ------------------------------------------------------------------------------

  /** Where the batch that begins at `start` ends: a run of reads, or one other call. */
  function BatchEnd(readOnly: set<string>, requests: Requests, start: nat): (end: nat)
    requires start < |requests|
    ensures start < end <= |requests|
    ensures !IsRead(readOnly, requests[start]) ==> end == start + 1
    ensures IsRead(readOnly, requests[start]) ==> forall i :: start <= i < end ==> IsRead(readOnly, requests[i])
    ensures IsRead(readOnly, requests[start]) && end < |requests| ==> !IsRead(readOnly, requests[end])
    decreases |requests| - start
  {
    if IsRead(readOnly, requests[start]) && start + 1 < |requests| && IsRead(readOnly, requests[start + 1])
    then BatchEnd(readOnly, requests, start + 1)
    else start + 1
  }

  type Batch = seq<(nat, ToolCall)>

  function Slice(requests: Requests, start: nat, end: nat): (b: Batch)
    requires start <= end <= |requests|
    ensures |b| == end - start
  {
    seq(end - start, i requires 0 <= i < end - start => (start + i, requests[start + i]))
  }

  function Batches(readOnly: set<string>, requests: Requests, start: nat): seq<Batch>
    requires start <= |requests|
    decreases |requests| - start
  {
    if start == |requests| then []
    else
      var end := BatchEnd(readOnly, requests, start);
      [Slice(requests, start, end)] + Batches(readOnly, requests, end)
  }

  function Flat(batches: seq<Batch>): Batch {
    if batches == [] then [] else batches[0] + Flat(batches[1..])
  }

  /** The batches concatenate back to the requests; reads stay together, any other call is alone. */
  lemma {:induction false} BatchesCoverRequests(readOnly: set<string>, requests: Requests, start: nat)
    requires start <= |requests|
    ensures Flat(Batches(readOnly, requests, start)) == Slice(requests, start, |requests|)
    ensures forall b: Batch :: b in Batches(readOnly, requests, start) ==>
      b != [] && (|b| == 1 || forall i :: 0 <= i < |b| ==> IsRead(readOnly, b[i].1))
    decreases |requests| - start
  {
    if start < |requests| {
      hide IsRead;
      var end := BatchEnd(readOnly, requests, start);
      BatchesCoverRequests(readOnly, requests, end);
      assert Slice(requests, start, end) + Slice(requests, end, |requests|) == Slice(requests, start, |requests|);
    }
  }

  lemma OneBatch(readOnly: set<string>, requests: Requests, batches: seq<Batch>, start: nat, end: nat)
    requires start < end <= |requests| && end == BatchEnd(readOnly, requests, start)
    ensures (batches + [Slice(requests, start, end)]) + Batches(readOnly, requests, end)
        == batches + Batches(readOnly, requests, start)
  {
    hide BatchEnd, Slice;
    assert Batches(readOnly, requests, start) == [Slice(requests, start, end)] + Batches(readOnly, requests, end);
  }

  /** `_partition`. */
  method Partition(readOnly: set<string>, requests: Requests) returns (batches: seq<Batch>)
    ensures batches == Batches(readOnly, requests, 0)
  {
    hide IsRead, Batches, BatchEnd, Slice;
    batches := [];
    var readBatch: Batch := [];
    var i := 0;
    ghost var start := 0;
    SliceEnds(requests, 0);
    assert [] + Batches(readOnly, requests, 0) == Batches(readOnly, requests, 0);
    while i < |requests|
      invariant 0 <= start <= i <= |requests|
      invariant readBatch == Slice(requests, start, i)
      invariant forall k :: start <= k < i ==> IsRead(readOnly, requests[k])
      invariant batches + Batches(readOnly, requests, start) == Batches(readOnly, requests, 0)
    {
      SliceEnds(requests, i);
      if IsRead(readOnly, requests[i]) {
        SliceMore(requests, start, i);
        readBatch := readBatch + [(i, requests[i])];
        i := i + 1;
        continue;
      }
      if readBatch != [] {
        EndOfReads(readOnly, requests, start, i);
        OneBatch(readOnly, requests, batches, start, i);
        batches := batches + [readBatch];
        readBatch := [];
        start := i;
      }
      AloneEnd(readOnly, requests, i);
      OneBatch(readOnly, requests, batches, i, i + 1);
      batches := batches + [[(i, requests[i])]];
      i := i + 1;
      start := i;
      SliceEnds(requests, i);
    }
    NoMoreBatches(readOnly, requests);
    if readBatch != [] {
      EndOfReads(readOnly, requests, start, i);
      OneBatch(readOnly, requests, batches, start, i);
      batches := batches + [readBatch];
    }
    assert batches + [] == batches;
  }

  lemma SliceEnds(requests: Requests, i: nat)
    requires i <= |requests|
    ensures Slice(requests, i, i) == []
    ensures i < |requests| ==> Slice(requests, i, i + 1) == [(i, requests[i])]
  {
  }

  lemma NoMoreBatches(readOnly: set<string>, requests: Requests)
    ensures Batches(readOnly, requests, |requests|) == []
  {
  }

  lemma AloneEnd(readOnly: set<string>, requests: Requests, i: nat)
    requires i < |requests| && !IsRead(readOnly, requests[i])
    ensures BatchEnd(readOnly, requests, i) == i + 1
  {
  }

  lemma SliceMore(requests: Requests, start: nat, i: nat)
    requires start <= i < |requests|
    ensures Slice(requests, start, i + 1) == Slice(requests, start, i) + [(i, requests[i])]
  {
  }

  lemma {:induction false} EndOfReads(readOnly: set<string>, requests: Requests, start: nat, end: nat)
    requires start < end <= |requests| && forall k :: start <= k < end ==> IsRead(readOnly, requests[k])
    requires end < |requests| ==> !IsRead(readOnly, requests[end])
    ensures BatchEnd(readOnly, requests, start) == end
  {
  }

  // --- The machine -----------------------------------------------------------------------------

  /** A call that was answered. */
  datatype Entry = Entry(index: nat, output: string, ok: bool, denied: bool, safePause: bool)

  /**
    Calls before `at` are finished. `Deciding` walks the batch: each call is answered at once or
    prepared, and is `checked` once the walk has seen that no cancellation was requested. Prepared
    reads wait for a permit of the pool; a prepared side effect runs alone. `Failed` keeps the calls
    that were pending when the schedule raised.
  */
  datatype Phase =
    | Deciding(next: nat, prepared: seq<nat>, checked: bool)
    | Reading(waiting: set<nat>, running: set<nat>)
    | Serial
    | Over
    | Failed(left: set<nat>, decided: nat)

  datatype Schedule = Schedule(at: nat, phase: Phase, completed: seq<Entry>, lost: set<nat>, cancelled: bool)

  datatype Plan = Plan(readOnly: set<string>, requests: Requests, pool: nat)

  predicate PlanOk(p: Plan) {
    1 <= p.pool
  }

  /** Answers carry no index; the schedule adds it. */
  datatype Answer = Answer(output: string, ok: bool, denied: bool, safePause: bool)

  datatype Event =
    | Check                         // no cancellation was requested when the walk came to the call
    | AnswerNow(a: Answer)          // invalid, denied, cancelled, or a control operation
    | Prepare                       // also when a cancellation arrived after the check
    | Launch
    | Acquire(i: nat)
    | FinishRead(i: nat, a: Answer)
    | FinishSerial(a: Answer)
    | Cancel
    | Lose(i: nat)                  // a cancelled read whose task never took its first step
    | LoseSerial                    // the same of a call that runs alone: the schedule raises
    | Raise                         // any other exception

  function SetOf(prepared: seq<nat>): set<nat> {
    set i | i in prepared
  }

  function Start(p: Plan): Schedule {
    Schedule(0, if p.requests == [] then Over else Deciding(0, [], false), [], {}, false)
  }

  function EndOf(p: Plan, s: Schedule): (end: nat)
    requires s.at < |p.requests|
    ensures s.at < end <= |p.requests|
  {
    BatchEnd(p.readOnly, p.requests, s.at)
  }

  function Add(s: Schedule, i: nat, a: Answer): seq<Entry> {
    s.completed + [Entry(i, a.output, a.ok, a.denied, a.safePause)]
  }

  /** The schedule after a batch that ended at `end`. */
  function NextBatch(p: Plan, s: Schedule, end: nat): Schedule {
    s.(at := end, phase := if end >= |p.requests| then Over else Deciding(end, [], false))
  }

  function AfterReads(p: Plan, s: Schedule, waiting: set<nat>, running: set<nat>): Schedule {
    if waiting + running == {} && s.at < |p.requests| then NextBatch(p, s, EndOf(p, s))
        else s.(phase := Reading(waiting, running))
  }

  /** A step; events that are not enabled change nothing. */
  function Step(p: Plan, s: Schedule, event: Event): Schedule {
    if event.Cancel? then s.(cancelled := true)
    else if s.at >= |p.requests| || s.phase.Failed? then s
    else
      var end := EndOf(p, s);
      match event
      case Check =>
        if s.phase.Deciding? && s.phase.next < end && !s.cancelled && !s.phase.checked
        then s.(phase := Deciding(s.phase.next, s.phase.prepared, true)) else s
      case AnswerNow(a) =>
        if s.phase.Deciding? && s.phase.next < end && (s.phase.checked || s.cancelled)
        then s.(completed := Add(s, s.phase.next, a), phase := Deciding(s.phase.next + 1, s.phase.prepared, false))
            else s
      case Prepare =>
        if s.phase.Deciding? && s.phase.next < end && s.phase.checked
        then s.(phase := Deciding(s.phase.next + 1, s.phase.prepared + [s.phase.next], false)) else s
      case Launch =>
        if !s.phase.Deciding? || s.phase.next != end then s
        else if s.phase.prepared == [] then NextBatch(p, s, end)
        else if IsRead(p.readOnly, p.requests[s.at]) then s.(phase := Reading(SetOf(s.phase.prepared), {}))
        else s.(phase := Serial)
      case Acquire(i) =>
        if s.phase.Reading? && i in s.phase.waiting && |s.phase.running| < p.pool
        then s.(phase := Reading(s.phase.waiting - {i}, s.phase.running + {i})) else s
      case FinishRead(i, a) =>
        if s.phase.Reading? && (i in s.phase.running || (i in s.phase.waiting && s.cancelled))
        then AfterReads(p, s.(completed := Add(s, i, a)), s.phase.waiting - {i}, s.phase.running - {i}) else s
      case FinishSerial(a) => if s.phase.Serial? then NextBatch(p, s.(completed := Add(s, s.at, a)), end) else s
      case Lose(i) =>
        if s.phase.Reading? && s.cancelled && i in s.phase.waiting + s.phase.running
        then AfterReads(p, s.(lost := s.lost + {i}), s.phase.waiting - {i}, s.phase.running - {i}) else s
      case LoseSerial =>
        if s.phase.Serial? && s.cancelled then s.(lost := s.lost + {s.at}, phase := Failed({}, end)) else s
      case Raise => s.(phase := Failed(Pending(s), Decided(p, s)))
  }

  function Run(p: Plan, events: seq<Event>): Schedule
    decreases |events|
  {
    if events == [] then Start(p) else Step(p, Run(p, events[..|events| - 1]), events[|events| - 1])
  }

  // --- Invariant ------------------------------------------------------------------------------------

  function Indices(completed: seq<Entry>): set<nat> {
    set k | 0 <= k < |completed| :: completed[k].index
  }

  predicate Distinct(completed: seq<Entry>) {
    forall j, k :: 0 <= j < k < |completed| ==> completed[j].index != completed[k].index
  }

  function Below(n: nat): (s: set<nat>)
    ensures forall i: nat :: i in s <==> i < n
  {
    if n == 0 then {} else Below(n - 1) + {n - 1}
  }

  /** Calls that were decided on and are not finished. */
  function Pending(s: Schedule): set<nat> {
    match s.phase
    case Deciding(_, prepared, _) => SetOf(prepared)
    case Reading(waiting, running) => waiting + running
    case Serial => {s.at}
    case Over => {}
    case Failed(left, _) => left
  }

  /** How many calls were decided on. */
  function Decided(p: Plan, s: Schedule): nat {
    if s.phase.Deciding? then s.phase.next
    else if s.phase.Failed? then s.phase.decided
    else if s.phase.Over? || s.at >= |p.requests| then |p.requests|
    else EndOf(p, s)
  }

  predicate Accounts(completed: seq<Entry>, lost: set<nat>, pending: set<nat>, decided: nat) {
    && Distinct(completed)
    && Indices(completed) + lost + pending == Below(decided)
    && Indices(completed) !! lost && Indices(completed) !! pending && lost !! pending
  }

  predicate PhaseOk(p: Plan, s: Schedule) {
    && s.at <= |p.requests| && (s.phase.Over? <==> s.at == |p.requests|)
    && (forall i :: i in Pending(s) ==> s.at <= i)
    && (s.phase.Deciding? ==>
          && s.at <= s.phase.next <= EndOf(p, s)
          && (s.phase.checked ==> s.phase.next < EndOf(p, s))
          && forall j, k :: 0 <= j < k < |s.phase.prepared| ==> s.phase.prepared[j] != s.phase.prepared[k])
    && (s.phase.Reading? ==>
          && IsRead(p.readOnly, p.requests[s.at]) && |s.phase.running| <= p.pool
          && s.phase.waiting !! s.phase.running && s.phase.waiting + s.phase.running != {})
    && (s.phase.Serial? ==> !IsRead(p.readOnly, p.requests[s.at]))
    && (s.phase.Failed? ==> s.phase.decided <= |p.requests|)
  }

  predicate Inv(p: Plan, s: Schedule) {
    && PhaseOk(p, s)
    && Accounts(s.completed, s.lost, Pending(s), Decided(p, s))
    && (s.lost != {} ==> s.cancelled)
  }

  lemma IndicesMore(completed: seq<Entry>, e: Entry)
    ensures Indices(completed + [e]) == Indices(completed) + {e.index}
    ensures Distinct(completed + [e]) <==> Distinct(completed) && e.index !in Indices(completed)
  {
    var after := completed + [e];
    assert forall k :: 0 <= k < |completed| ==> after[k] == completed[k];
    assert after[|completed|] == e;
    forall i | i in Indices(completed) ensures i in Indices(after) {
      var k :| 0 <= k < |completed| && completed[k].index == i;
      assert after[k].index == i;
    }
    if Distinct(after) {
      forall k | 0 <= k < |completed| ensures completed[k].index != e.index {
        assert after[k].index != after[|completed|].index;
      }
      forall j, k | 0 <= j < k < |completed| ensures completed[j].index != completed[k].index {
        assert after[j].index != after[k].index;
      }
    }
  }

  /** Answering a pending or a new call. */
  lemma AnswerAccounts(completed: seq<Entry>, lost: set<nat>, pending: set<nat>, decided: nat, e: Entry)
    requires Accounts(completed, lost, pending, decided)
    ensures e.index in pending ==> Accounts(completed + [e], lost, pending - {e.index}, decided)
    ensures e.index == decided ==> Accounts(completed + [e], lost, pending, decided + 1)
  {
    IndicesMore(completed, e);
    hide Indices, Distinct;
    assert Below(decided + 1) == Below(decided) + {decided};
    assert decided !in Below(decided);
  }

  lemma StartOk(p: Plan)
    ensures Inv(p, Start(p))
  {
    assert Below(0) == {};
  }

  lemma DecideKeeps(p: Plan, s: Schedule, event: Event)
    requires Inv(p, s) && (event.Check? || event.AnswerNow? || event.Prepare?)
    ensures Inv(p, Step(p, s, event))
  {
    hide BatchEnd, IsRead;
    if event.Check? {
      hide Accounts;
    } else if s.phase.Deciding? && s.at < |p.requests| && s.phase.next < EndOf(p, s)
        && (s.phase.checked || (event.AnswerNow? && s.cancelled)) {
      var next, prepared := s.phase.next, s.phase.prepared;
      assert Decided(p, s) == next;
      if event.AnswerNow? {
        var a := event.a;
        AnswerAccounts(s.completed, s.lost, Pending(s), next, Entry(next, a.output, a.ok, a.denied, a.safePause));
        hide Accounts;
        assert Pending(Step(p, s, event)) == Pending(s);
      } else {
        assert Below(next + 1) == Below(next) + {next};
        var t := Step(p, s, event);
        assert Pending(t) == Pending(s) + {next};
        assert next !in Below(next);
        hide Indices, Distinct;
        assert forall k :: 0 <= k < |prepared| ==> prepared[k] in Pending(s) && prepared[k] != next;
      }
    }
  }

  /** Moving to the next batch when nothing is pending. */
  lemma NextKeeps(p: Plan, s: Schedule, end: nat)
    requires s.at < |p.requests| && end == EndOf(p, s)
    requires Accounts(s.completed, s.lost, {}, end) && (s.lost != {} ==> s.cancelled)
    ensures Inv(p, NextBatch(p, s, end))
  {
    hide Accounts;
    var t := NextBatch(p, s, end);
    assert Pending(t) == {};
  }

  lemma LaunchStep(p: Plan, s: Schedule)
    requires s.at < |p.requests| && s.phase.Deciding? && s.phase.next == EndOf(p, s)
    ensures Step(p, s, Launch)
         == if s.phase.prepared == [] then NextBatch(p, s, EndOf(p, s))
            else if IsRead(p.readOnly, p.requests[s.at]) then s.(phase := Reading(SetOf(s.phase.prepared), {}))
            else s.(phase := Serial)
  {
    hide BatchEnd, IsRead;
  }

  lemma LaunchKeeps(p: Plan, s: Schedule)
    requires Inv(p, s)
    ensures Inv(p, Step(p, s, Launch))
  {
    hide BatchEnd, IsRead, Inv, NextBatch, EndOf;
    if s.at < |p.requests| && s.phase.Deciding? && s.phase.next == EndOf(p, s) { PreparedLaunch(p, s); }
  }

  lemma PreparedLaunch(p: Plan, s: Schedule)
    requires Inv(p, s) && s.at < |p.requests| && s.phase.Deciding? && s.phase.next == EndOf(p, s)
    ensures Inv(p, Step(p, s, Launch))
  {
    hide *;
    var end, prepared := EndOf(p, s), s.phase.prepared;
    LaunchStep(p, s);
    DecidedFacts(p, s);
    SetOfPrepared(prepared);
    if prepared == [] {
      NextKeeps(p, s, end);
    } else if IsRead(p.readOnly, p.requests[s.at]) {
      assert SetOf(prepared) + {} == SetOf(prepared);
      ReadingOk(p, s, SetOf(prepared), {});
    } else {
      AloneEnds(p, s);
      OnlyOnePrepared(prepared, s.at, s.completed, s.lost);
      LaunchSerial(p, s, end);
    }
  }

  lemma DecidedFacts(p: Plan, s: Schedule)
    requires Inv(p, s) && s.at < |p.requests| && s.phase.Deciding? && s.phase.next == EndOf(p, s)
    ensures Accounts(s.completed, s.lost, SetOf(s.phase.prepared), EndOf(p, s)) && (s.lost != {} ==> s.cancelled)
    ensures forall i :: i in SetOf(s.phase.prepared) ==> s.at <= i
  {
    hide Accounts, EndOf, SetOf;
  }

  lemma SetOfPrepared(prepared: seq<nat>)
    ensures prepared == [] <==> SetOf(prepared) == {}
  {
    if prepared != [] { assert prepared[0] in SetOf(prepared); }
  }

  lemma AloneEnds(p: Plan, s: Schedule)
    requires s.at < |p.requests| && !IsRead(p.readOnly, p.requests[s.at])
    ensures EndOf(p, s) == s.at + 1
  {
    AloneEnd(p.readOnly, p.requests, s.at);
  }

  lemma ReadingOk(p: Plan, s: Schedule, waiting: set<nat>, running: set<nat>)
    requires s.at < |p.requests| && IsRead(p.readOnly, p.requests[s.at]) && |running| <= p.pool && waiting !! running
    requires waiting + running != {} && forall i :: i in waiting + running ==> s.at <= i
    requires Accounts(s.completed, s.lost, waiting + running, EndOf(p, s)) && (s.lost != {} ==> s.cancelled)
    ensures Inv(p, s.(phase := Reading(waiting, running)))
  {
    hide Accounts, BatchEnd, IsRead;
  }

  lemma LaunchSerial(p: Plan, s: Schedule, end: nat)
    requires s.at < |p.requests| && end == EndOf(p, s) && !IsRead(p.readOnly, p.requests[s.at])
    requires Accounts(s.completed, s.lost, {s.at}, end) && (s.lost != {} ==> s.cancelled)
    ensures Inv(p, s.(phase := Serial))
  {
    hide Accounts, BatchEnd, IsRead;
  }

  /** In a batch of one call at most that call is prepared, so taking the first drops nothing. */
  lemma OnlyOnePrepared(prepared: seq<nat>, at: nat, completed: seq<Entry>, lost: set<nat>)
    requires prepared != [] && forall i :: i in SetOf(prepared) ==> at <= i
    requires Accounts(completed, lost, SetOf(prepared), at + 1)
    ensures SetOf(prepared) == {at} && prepared[0] == at
  {
    forall k | k in prepared ensures k == at {
      assert k in Indices(completed) + lost + SetOf(prepared);
      assert k in Below(at + 1);
    }
    assert prepared[0] in prepared;
  }

  lemma OnePrepared(p: Plan, s: Schedule)
    requires Inv(p, s) && s.at < |p.requests| && s.phase.Deciding? && s.phase.next == EndOf(p, s)
    requires !IsRead(p.readOnly, p.requests[s.at]) && s.phase.prepared != []
    ensures s.phase.prepared == [s.at]
  {
    var prepared := s.phase.prepared;
    DecidedFacts(p, s);
    AloneEnds(p, s);
    OnlyOnePrepared(prepared, s.at, s.completed, s.lost);
    PreparedCount(prepared);
    hide Accounts, IsRead, EndOf;
  }

  lemma AcquireKeeps(p: Plan, s: Schedule, i: nat)
    requires Inv(p, s)
    ensures Inv(p, Step(p, s, Acquire(i)))
  {
    hide BatchEnd, IsRead, Accounts;
    if s.phase.Reading? && s.at < |p.requests| && i in s.phase.waiting && |s.phase.running| < p.pool {
      AcquireStep(p, s, i);
      hide Step;
      var waiting, running := s.phase.waiting - {i}, s.phase.running + {i};
      assert Pending(s) == s.phase.waiting + s.phase.running == waiting + running;
      assert i in running;
      ReadingOk(p, s, waiting, running);
    }
  }

  lemma AcquireStep(p: Plan, s: Schedule, i: nat)
    requires s.phase.Reading? && s.at < |p.requests| && i in s.phase.waiting && |s.phase.running| < p.pool
    ensures Step(p, s, Acquire(i)) == s.(phase := Reading(s.phase.waiting - {i}, s.phase.running + {i}))
  {
    hide BatchEnd, IsRead;
  }

  /** A pooled call leaves the pool with its place in the accounts settled. */
  lemma ReadingFacts(p: Plan, s: Schedule)
    requires Inv(p, s) && s.phase.Reading? && s.at < |p.requests|
    ensures Pending(s) == s.phase.waiting + s.phase.running && forall k :: k in Pending(s) ==> s.at <= k
    ensures IsRead(p.readOnly, p.requests[s.at]) && |s.phase.running| <= p.pool && s.phase.waiting !! s.phase.running
  {
    hide Accounts, IsRead, EndOf;
  }

  lemma AfterReadsIs(p: Plan, q: Schedule, waiting: set<nat>, running: set<nat>)
    requires q.at < |p.requests|
    ensures AfterReads(p, q, waiting, running)
         == if waiting + running == {} then NextBatch(p, q, EndOf(p, q)) else q.(phase := Reading(waiting, running))
    ensures forall r: Schedule :: r.at == q.at ==> EndOf(p, r) == EndOf(p, q)
  {
    hide BatchEnd, NextBatch;
  }

  lemma LeaveKeeps(p: Plan, s: Schedule, q: Schedule, i: nat)
    requires Inv(p, s) && s.phase.Reading? && s.at < |p.requests|
    requires q.at == s.at && (q.lost != {} ==> q.cancelled)
    requires Accounts(q.completed, q.lost, Pending(s) - {i}, EndOf(p, s))
    ensures Inv(p, AfterReads(p, q, s.phase.waiting - {i}, s.phase.running - {i}))
  {
    hide *;
    var waiting, running := s.phase.waiting - {i}, s.phase.running - {i};
    ReadingFacts(p, s);
    SmallerOrSame(s.phase.running, i);
    assert waiting + running == Pending(s) - {i};
    AfterReadsIs(p, q, waiting, running);
    if waiting + running == {} {
      NextKeeps(p, q, EndOf(p, q));
    } else {
      ReadingOk(p, q, waiting, running);
    }
  }

  lemma FinishKeeps(p: Plan, s: Schedule, i: nat, a: Answer)
    requires Inv(p, s)
    ensures Inv(p, Step(p, s, FinishRead(i, a)))
  {
    if s.phase.Reading? && s.at < |p.requests| && (i in s.phase.running || (i in s.phase.waiting && s.cancelled)) {
      AnswerAccounts(s.completed, s.lost, Pending(s), EndOf(p, s), Entry(i, a.output, a.ok, a.denied, a.safePause));
      hide Accounts, PhaseOk, BatchEnd, IsRead;
      LeaveKeeps(p, s, s.(completed := Add(s, i, a)), i);
    }
  }

  lemma LoseKeeps(p: Plan, s: Schedule, i: nat)
    requires Inv(p, s)
    ensures Inv(p, Step(p, s, Lose(i)))
  {
    if s.phase.Reading? && s.at < |p.requests| && s.cancelled && i in s.phase.waiting + s.phase.running {
      LoseAccounts(s.completed, s.lost, Pending(s), EndOf(p, s), i);
      hide Accounts, PhaseOk, BatchEnd, IsRead;
      LeaveKeeps(p, s, s.(lost := s.lost + {i}), i);
    }
  }

  lemma LoseAccounts(completed: seq<Entry>, lost: set<nat>, pending: set<nat>, decided: nat, i: nat)
    requires Accounts(completed, lost, pending, decided) && i in pending
    ensures Accounts(completed, lost + {i}, pending - {i}, decided)
  {
    hide Indices, Distinct;
    assert (lost + {i}) + (pending - {i}) == lost + pending;
  }

  lemma SmallerOrSame(a: set<nat>, i: nat)
    ensures |a - {i}| <= |a|
  {
    if i in a { assert a == (a - {i}) + {i}; } else { assert a - {i} == a; }
  }

  lemma SerialKeeps(p: Plan, s: Schedule, a: Answer)
    requires Inv(p, s)
    ensures Inv(p, Step(p, s, FinishSerial(a)))
  {
    if s.phase.Serial? && s.at < |p.requests| {
      AnswerAccounts(s.completed, s.lost, {s.at}, EndOf(p, s), Entry(s.at, a.output, a.ok, a.denied, a.safePause));
      hide Accounts;
      assert {s.at} - {s.at} == {};
      NextKeeps(p, s.(completed := Add(s, s.at, a)), EndOf(p, s));
    }
  }

  lemma LoseSerialKeeps(p: Plan, s: Schedule)
    requires Inv(p, s)
    ensures Inv(p, Step(p, s, LoseSerial))
  {
    if s.phase.Serial? && s.at < |p.requests| && s.cancelled {
      LoseAccounts(s.completed, s.lost, {s.at}, EndOf(p, s), s.at);
      hide Accounts, IsRead;
      assert {s.at} - {s.at} == {};
    }
  }

  lemma RaiseKeeps(p: Plan, s: Schedule)
    requires Inv(p, s)
    ensures Inv(p, Step(p, s, Raise))
  {
    hide Accounts, IsRead;
  }

  lemma CancelKeeps(p: Plan, s: Schedule)
    requires Inv(p, s)
    ensures Inv(p, Step(p, s, Cancel))
  {
    hide Accounts, IsRead;
  }

  lemma StepKeeps(p: Plan, s: Schedule, event: Event)
    requires Inv(p, s)
    ensures Inv(p, Step(p, s, event))
  {
    hide *;
    match event
    case Check => DecideKeeps(p, s, event);
    case AnswerNow(_) => DecideKeeps(p, s, event);
    case Prepare => DecideKeeps(p, s, event);
    case Launch => LaunchKeeps(p, s);
    case Acquire(i) => AcquireKeeps(p, s, i);
    case FinishRead(i, a) => FinishKeeps(p, s, i, a);
    case FinishSerial(a) => SerialKeeps(p, s, a);
    case Cancel => CancelKeeps(p, s);
    case Lose(i) => LoseKeeps(p, s, i);
    case LoseSerial => LoseSerialKeeps(p, s);
    case Raise => RaiseKeeps(p, s);
  }

  lemma {:induction false} RunKeeps(p: Plan, events: seq<Event>)
    ensures Inv(p, Run(p, events))
    decreases |events|
  {
    hide Inv, Step;
    if events == [] {
      StartOk(p);
    } else {
      RunKeeps(p, events[..|events| - 1]);
      StepKeeps(p, Run(p, events[..|events| - 1]), events[|events| - 1]);
    }
  }

  lemma {:induction false} NoCancel(p: Plan, events: seq<Event>)
    requires Cancel !in events
    ensures !Run(p, events).cancelled
    decreases |events|
  {
    if events != [] {
      NoCancel(p, events[..|events| - 1]);
      assert events[|events| - 1] in events;
    }
  }

  // --- Order of the calls ---------------------------------------------------------------------------

  /** Calls that run at this moment. */
  function Active(s: Schedule): set<nat> {
    match s.phase
    case Reading(_, running) => running
    case Serial => {s.at}
    case _ => {}
  }

  predicate BothRead(p: Plan, i: nat, j: nat)
    requires i < |p.requests| && j < |p.requests|
  {
    IsRead(p.readOnly, p.requests[i]) && IsRead(p.readOnly, p.requests[j])
  }

  /**
    In every run, with or without cancellation: at most the configured number of calls run at
    once; a call that is not read-only runs alone; while a call runs, every other call that is
    not read-only is finished or lost if it comes before, and not begun if it comes after.
  */
  lemma CallsKeepOrder(p: Plan, events: seq<Event>)
    requires PlanOk(p)
    ensures
      var s := Run(p, events);
      && |Active(s)| <= p.pool
      && (forall i :: i in Active(s) ==> i < |p.requests|)
      && (forall i, j :: i in Active(s) && 0 <= j < |p.requests| && i != j && !BothRead(p, i, j) ==>
            && j !in Active(s)
            && (j < i ==> j in Indices(s.completed) || j in s.lost)
            && (j > i ==> j !in Indices(s.completed) && j !in s.lost))
  {
    var s := Run(p, events);
    RunKeeps(p, events);
    hide Run;
    forall i | i in Active(s) ensures i < |p.requests| && s.at <= i {
      assert i in Pending(s);
      assert i in Below(Decided(p, s));
    }
    forall i, j | i in Active(s) && 0 <= j < |p.requests| && i != j && !BothRead(p, i, j)
      ensures j !in Active(s) && (j < i ==> j in Indices(s.completed) || j in s.lost)
      ensures j > i ==> j !in Indices(s.completed) && j !in s.lost
    {
      OtherCall(p, s, i, j);
    }
  }

  lemma OtherCall(p: Plan, s: Schedule, i: nat, j: nat)
    requires Inv(p, s) && i in Active(s) && i < |p.requests| && j < |p.requests| && i != j
    requires !BothRead(p, i, j)
    ensures j !in Active(s) && (j < i ==> j in Indices(s.completed) || j in s.lost)
    ensures j > i ==> j !in Indices(s.completed) && j !in s.lost
  {
    hide Indices, Distinct, IsRead, BatchEnd;
    var end := EndOf(p, s);
    assert i in Pending(s) && Pending(s) <= Below(end) && i in Below(end);
    assert s.at <= i < end;
    assert s.phase.Serial? ==> end == s.at + 1;
    assert s.phase.Reading? ==> forall k :: s.at <= k < end ==> IsRead(p.readOnly, p.requests[k]);
    if j < s.at || end <= j {
      assert j !in Pending(s);
      assert j in Below(end) <==> j < s.at;
      assert j in Indices(s.completed) + s.lost + Pending(s) <==> j in Below(end);
    }
  }

  // --- The result ---------------------------------------------------------------------------------------

  /** `sorted(completed, key=index)`: insertion keeps entries with equal keys in order. */
  function Insert(e: Entry, rest: seq<Entry>): (r: seq<Entry>)
    ensures |r| == |rest| + 1
  {
    if rest == [] || e.index <= rest[0].index then [e] + rest else [rest[0]] + Insert(e, rest[1..])
  }

  function Sorted(completed: seq<Entry>): (r: seq<Entry>)
    ensures |r| == |completed|
  {
    if completed == [] then [] else Insert(completed[0], Sorted(completed[1..]))
  }

  predicate Ascending(r: seq<Entry>) {
    forall j, k :: 0 <= j < k < |r| ==> r[j].index <= r[k].index
  }

  lemma {:induction false} InsertKeeps(e: Entry, rest: seq<Entry>)
    requires Ascending(rest)
    ensures Ascending(Insert(e, rest)) && forall x :: x in Insert(e, rest) <==> x == e || x in rest
  {
    if rest != [] && e.index > rest[0].index {
      InsertKeeps(e, rest[1..]);
      var tail := Insert(e, rest[1..]);
      forall k | 0 <= k < |tail| ensures rest[0].index <= tail[k].index {
        assert tail[k] in tail;
        if tail[k] != e {
          var q :| 0 <= q < |rest[1..]| && rest[1..][q] == tail[k];
          assert rest[q + 1] == tail[k];
        }
      }
      assert rest == [rest[0]] + rest[1..];
    }
  }

  lemma {:induction false} SortedIs(completed: seq<Entry>)
    ensures Ascending(Sorted(completed)) && forall x :: x in Sorted(completed) <==> x in completed
  {
    if completed != [] {
      SortedIs(completed[1..]);
      InsertKeeps(completed[0], Sorted(completed[1..]));
      assert completed == [completed[0]] + completed[1..];
    }
  }

  lemma {:induction false} InsertDistinct(e: Entry, rest: seq<Entry>)
    requires Distinct(rest) && e.index !in Indices(rest)
    ensures Distinct(Insert(e, rest)) && Indices(Insert(e, rest)) == Indices(rest) + {e.index}
  {
    if rest == [] || e.index <= rest[0].index {
      FirstIndex(e, rest);
    } else {
      FirstIndex(rest[0], rest[1..]);
      assert rest == [rest[0]] + rest[1..];
      InsertDistinct(e, rest[1..]);
      FirstIndex(rest[0], Insert(e, rest[1..]));
      hide Indices, Distinct, Insert;
    }
  }

  lemma FirstIndex(e: Entry, rest: seq<Entry>)
    ensures Indices([e] + rest) == {e.index} + Indices(rest)
    ensures Distinct([e] + rest) <==> Distinct(rest) && e.index !in Indices(rest)
  {
    var all := [e] + rest;
    assert forall k :: 0 <= k < |rest| ==> all[k + 1] == rest[k];
    assert all[0] == e;
    forall i | i in Indices(rest) ensures i in Indices(all) {
      var k :| 0 <= k < |rest| && rest[k].index == i;
      assert all[k + 1].index == i;
    }
    forall i | i in Indices(all) ensures i == e.index || i in Indices(rest) {
      var k :| 0 <= k < |all| && all[k].index == i;
      if k > 0 { assert rest[k - 1].index == i; }
    }
    if Distinct(all) {
      forall k | 0 <= k < |rest| ensures rest[k].index != e.index { assert all[0].index != all[k + 1].index; }
      forall j, k | 0 <= j < k < |rest|
          ensures rest[j].index != rest[k].index { assert all[j + 1].index != all[k + 1].index; }
    }
  }

  lemma {:induction false} SortedDistinct(completed: seq<Entry>)
    requires Distinct(completed)
    ensures Distinct(Sorted(completed)) && Indices(Sorted(completed)) == Indices(completed)
  {
    if completed != [] {
      FirstIndex(completed[0], completed[1..]);
      assert completed == [completed[0]] + completed[1..];
      hide Indices, Distinct;
      SortedDistinct(completed[1..]);
      InsertDistinct(completed[0], Sorted(completed[1..]));
    }
  }

  lemma SomeIndex(r: seq<Entry>)
    ensures r != [] ==> Indices(r) != {}
  {
    if |r| > 0 { assert r[0].index in Indices(r); }
  }

  /** Distinct indices in order that are all those below `n` are their own places. */
  lemma {:induction false} PlacesAreIndices(r: seq<Entry>, n: nat)
    requires Ascending(r) && Distinct(r) && Indices(r) == Below(n)
    ensures |r| == n && forall i :: 0 <= i < n ==> r[i].index == i
    decreases n
  {
    if n == 0 {
      SomeIndex(r);
    } else {
      LastIndex(r, n);
      var init := r[..|r| - 1];
      assert forall i :: 0 <= i < |init| ==> r[i] == init[i];
      hide Indices, Below;
      PlacesAreIndices(init, n - 1);
    }
  }

  lemma LastIndex(r: seq<Entry>, n: nat)
    requires 0 < n && Ascending(r) && Distinct(r) && Indices(r) == Below(n)
    ensures r != [] && r[|r| - 1].index == n - 1 && Indices(r[..|r| - 1]) == Below(n - 1)
  {
    assert n - 1 in Indices(r);
    var k :| 0 <= k < |r| && r[k].index == n - 1;
    var last, init := r[|r| - 1], r[..|r| - 1];
    assert last.index in Indices(r) && r[k].index <= last.index;
    assert r == init + [last];
    hide Indices, Ascending, Distinct;
    IndicesMore(init, last);
  }

  /** The executions of a finished schedule, in the order of their calls. */
  function Executions(p: Plan, s: Schedule): seq<Execution> {
    ExecutionsOf(p, Sorted(s.completed))
  }

  function ExecutionsOf(p: Plan, r: seq<Entry>): seq<Execution> {
    seq(|r|, i requires 0 <= i < |r| =>
      Execution(if r[i].index < |p.requests| then p.requests[r[i].index] else ToolCall.ToolCall("", "", Null, ""),
                r[i].output, r[i].ok, r[i].denied, r[i].safePause))
  }

  // --- What an execution says ---------------------------------------------------------------------

  /** In state `s` the event settles call `i` with the answer `a`. */
  predicate Settles(s: Schedule, event: Event, i: nat, a: Answer) {
    match event
    case AnswerNow(b) => b == a && s.phase.Deciding? && s.phase.next == i
    case FinishRead(j, b) => b == a && j == i
    case FinishSerial(b) => b == a && s.phase.Serial? && s.at == i
    case _ => false
  }

  function AnswerOf(e: Entry): Answer {
    Answer(e.output, e.ok, e.denied, e.safePause)
  }

  lemma StepSettles(p: Plan, s: Schedule, event: Event)
    ensures forall e :: e in Step(p, s, event).completed ==> e in s.completed || Settles(s, event, e.index, AnswerOf(e))
    ensures s.completed <= Step(p, s, event).completed
  {
    hide BatchEnd, IsRead;
  }

  /** One of the events settled call `i` with `a`. */
  predicate Settled(p: Plan, events: seq<Event>, i: nat, a: Answer) {
    exists k :: 0 <= k < |events| && Settles(Run(p, events[..k]), events[k], i, a)
  }

  lemma {:induction false} RunSettles(p: Plan, events: seq<Event>)
    ensures forall e :: e in Run(p, events).completed ==> Settled(p, events, e.index, AnswerOf(e))
    decreases |events|
  {
    if events != [] {
      var before, event := events[..|events| - 1], events[|events| - 1];
      RunSettles(p, before);
      StepSettles(p, Run(p, before), event);
      hide Step, Settles;
      assert Run(p, events) == Step(p, Run(p, before), event);
      forall e | e in Run(p, events).completed ensures Settled(p, events, e.index, AnswerOf(e)) {
        if e in Run(p, before).completed {
          var k :| 0 <= k < |before| && Settles(Run(p, before[..k]), before[k], e.index, AnswerOf(e));
          assert events[..k] == before[..k] && events[k] == before[k];
          assert Settles(Run(p, events[..k]), events[k], e.index, AnswerOf(e));
        } else {
          assert events[..|before|] == before;
          assert Settles(Run(p, events[..|before|]), events[|before|], e.index, AnswerOf(e));
        }
      }
    }
  }

  /** Each execution carries its request and exactly the answer with which that call was settled. */
  lemma ExecutionsCarryAnswers(p: Plan, events: seq<Event>, j: nat)
    requires Run(p, events).phase.Over? && j < |Executions(p, Run(p, events))|
    ensures
      var x := Executions(p, Run(p, events))[j];
      exists i :: 0 <= i < |p.requests| && x.call == p.requests[i]
               && Settled(p, events, i, Answer(x.output, x.ok, x.denied, x.safePause))
  {
    RunKeeps(p, events);
    RunSettles(p, events);
    var s := Run(p, events);
    SortedIs(s.completed);
    hide Run, Settled, Sorted;
    var r := Sorted(s.completed);
    assert Executions(p, s) == ExecutionsOf(p, r);
    var e := r[j];
    assert e in r && e in s.completed;
    CompletedInRange(p, s, e);
    var x := Executions(p, s)[j];
    assert x.call == p.requests[e.index] && AnswerOf(e) == Answer(x.output, x.ok, x.denied, x.safePause);
    assert Settled(p, events, e.index, Answer(x.output, x.ok, x.denied, x.safePause));
  }

  lemma CompletedInRange(p: Plan, s: Schedule, e: Entry)
    requires Inv(p, s) && e in s.completed
    ensures e.index < |p.requests|
  {
    hide Distinct, BatchEnd, IsRead;
    var k :| 0 <= k < |s.completed| && s.completed[k] == e;
    assert e.index in Indices(s.completed);
    assert e.index in Below(Decided(p, s));
  }

  /** A finished schedule answers every request exactly once, in order, if and only if it lost no call. */
  lemma OneEachIff(p: Plan, events: seq<Event>)
    requires Run(p, events).phase.Over?
    ensures OneEach(p.requests, Executions(p, Run(p, events))) <==> Run(p, events).lost == {}
  {
    RunKeeps(p, events);
    OverOneEachIff(p, Run(p, events));
  }

  lemma OverOneEachIff(p: Plan, s: Schedule)
    requires Inv(p, s) && s.phase.Over?
    ensures OneEach(p.requests, Executions(p, s)) <==> s.lost == {}
  {
    var n := |p.requests|;
    assert Accounts(s.completed, s.lost, {}, n);
    hide PhaseOk, Decided, Pending, Sorted, Executions;
    if s.lost == {} { NoneLost(p, s); } else { SomeLost(p, s); }
  }

  lemma NoneLost(p: Plan, s: Schedule)
    requires Distinct(s.completed) && Indices(s.completed) == Below(|p.requests|)
    ensures OneEach(p.requests, Executions(p, s))
  {
    SortedDistinct(s.completed);
    SortedIs(s.completed);
    hide Indices, Distinct, Ascending, Below, Sorted;
    PlacesAreIndices(Sorted(s.completed), |p.requests|);
  }

  lemma SomeLost(p: Plan, s: Schedule)
    requires Accounts(s.completed, s.lost, {}, |p.requests|) && s.lost != {}
    ensures |Executions(p, s)| < |p.requests|
  {
    var indices := Indices(s.completed);
    assert indices + s.lost == Below(|p.requests|);
    IndicesCount(s.completed);
    BelowCount(|p.requests|);
    hide Indices, Distinct, Below, Sorted;
    assert |indices + s.lost| == |indices| + |s.lost|;
  }

  lemma {:induction false} IndicesCount(completed: seq<Entry>)
    requires Distinct(completed)
    ensures |Indices(completed)| == |completed|
  {
    if completed == [] {
      assert Indices(completed) == {};
    } else {
      FirstIndex(completed[0], completed[1..]);
      assert completed == [completed[0]] + completed[1..];
      hide Indices, Distinct;
      IndicesCount(completed[1..]);
    }
  }

  lemma {:induction false} BelowCount(n: nat)
    ensures |Below(n)| == n
  {
    if n > 0 {
      BelowCount(n - 1);
      assert n - 1 !in Below(n - 1);
    }
  }

  /**
    A schedule that is not cancelled answers every request exactly once, in the order of the
    requests, whatever the order in which the calls finish.
  */
  lemma OneExecutionEach(p: Plan, events: seq<Event>)
    requires Cancel !in events && Run(p, events).phase.Over?
    ensures OneEach(p.requests, Executions(p, Run(p, events)))
  {
    RunKeeps(p, events);
    NoCancel(p, events);
    OneEachIff(p, events);
  }

  /** A cancelled schedule answers each request at most once. */
  lemma AtMostOneExecution(p: Plan, events: seq<Event>)
    ensures Distinct(Run(p, events).completed)
    ensures forall i :: i in Indices(Run(p, events).completed) ==> i < |p.requests|
  {
    var s := Run(p, events);
    RunKeeps(p, events);
    hide Run;
    forall i | i in Indices(s.completed) ensures i < |p.requests| {
      assert i in Below(Decided(p, s));
    }
  }

  // --- Progress ---------------------------------------------------------------------------------------

  predicate Ended(s: Schedule) {
    s.phase.Over? || s.phase.Failed?
  }

  /** A schedule that has not ended can always take a step. */
  lemma NeverStuck(p: Plan, events: seq<Event>) returns (event: Event)
    requires PlanOk(p) && !Ended(Run(p, events))
    ensures !event.Cancel? && !event.Raise? && Step(p, Run(p, events), event) != Run(p, events)
  {
    var s := Run(p, events);
    RunKeeps(p, events);
    hide Run, Accounts, BatchEnd;
    var a := Answer("", true, false, false);
    match s.phase
    case Deciding(next, _, checked) =>
      event := if next == EndOf(p, s) then Launch else if checked || s.cancelled then AnswerNow(a) else Check;
    case Reading(waiting, running) =>
      if running != {} {
        var i :| i in running;
        event := FinishRead(i, a);
      } else {
        event := CanAcquire(p, s);
      }
    case Serial => event := FinishSerial(a);
  }

  lemma CanAcquire(p: Plan, s: Schedule) returns (event: Event)
    requires PlanOk(p) && Inv(p, s) && s.phase.Reading? && s.phase.running == {} && !Ended(s)
    ensures event.Acquire? && Step(p, s, event) != s
  {
    hide Accounts, BatchEnd;
    assert s.phase.waiting + {} == s.phase.waiting;
    var i :| i in s.phase.waiting;
    event := Acquire(i);
    assert i in Step(p, s, event).phase.running;
  }

  /** What is left to do: each call is checked, decided, begun and finished, each batch is ended. */
  function Left(p: Plan, s: Schedule): int {
    if Ended(s) then 0
    else
      5 * (|p.requests| - Decided(p, s)) + (|p.requests| - s.at)
      + match s.phase
        case Deciding(_, prepared, checked) => 3 * |prepared| - (if checked then 1 else 0)
        case Reading(waiting, running) => 2 * |waiting| + |running|
        case _ => 1
  }

  lemma LeftIsNat(p: Plan, s: Schedule)
    requires Inv(p, s)
    ensures Left(p, s) >= 0 && (!Ended(s) ==> Left(p, s) > 0)
  {
    hide Accounts, IsRead;
  }

  /** Every step but a cancellation leaves less to do. */
  lemma StepShrinks(p: Plan, s: Schedule, event: Event)
    requires Inv(p, s) && !event.Cancel? && Step(p, s, event) != s
    ensures Left(p, Step(p, s, event)) < Left(p, s)
  {
    LeftIsNat(p, s);
    if event.Launch? {
      LaunchShrinks(p, s);
    } else if event.Acquire? {
      AcquireStep(p, s, event.i);
      hide Accounts, IsRead, EndOf;
    } else if event.FinishRead? || event.Lose? {
      LeaveShrinks(p, s, event);
    } else if event.FinishSerial? {
      hide Accounts, IsRead;
      NextLeft(p, s.(completed := Add(s, s.at, event.a)));
    } else {
      hide Accounts, IsRead;
    }
  }

  lemma NextLeft(p: Plan, s: Schedule)
    requires s.at < |p.requests|
    ensures Left(p, NextBatch(p, s, EndOf(p, s))) <= 5 * (|p.requests| - EndOf(p, s)) + (|p.requests| - s.at) - 1
  {
    hide BatchEnd;
  }

  lemma LaunchShrinks(p: Plan, s: Schedule)
    requires Inv(p, s) && Step(p, s, Launch) != s
    ensures Left(p, Step(p, s, Launch)) < Left(p, s)
  {
    hide Accounts, IsRead, EndOf, NextBatch;
    var prepared := s.phase.prepared;
    LaunchStep(p, s);
    NextLeft(p, s);
    LeftReading(p, s, SetOf(prepared), {});
    PreparedCount(prepared);
    assert !s.phase.checked && s.phase.next == EndOf(p, s);
    assert Left(p, s) == 5 * (|p.requests| - EndOf(p, s)) + (|p.requests| - s.at) + 3 * |prepared|;
    hide Step;
  }

  lemma {:induction false} PreparedCount(prepared: seq<nat>)
    ensures |SetOf(prepared)| <= |prepared|
    ensures (forall j, k :: 0 <= j < k < |prepared| ==> prepared[j] != prepared[k]) ==> |SetOf(prepared)| == |prepared|
  {
    if prepared != [] {
      var first, rest := prepared[0], prepared[1..];
      PreparedCount(rest);
      assert prepared == [first] + rest;
      assert SetOf(prepared) == {first} + SetOf(rest);
      assert forall k :: 0 <= k < |rest| ==> rest[k] == prepared[k + 1];
      assert first in SetOf(rest) ==> exists k :: 0 <= k < |rest| && rest[k] == first;
    } else {
      assert SetOf(prepared) == {};
    }
  }

  lemma LeaveShrinks(p: Plan, s: Schedule, event: Event)
    requires Inv(p, s) && (event.FinishRead? || event.Lose?) && Step(p, s, event) != s
    ensures Left(p, Step(p, s, event)) < Left(p, s)
  {
    hide Accounts, IsRead, EndOf, AfterReads, NextBatch, Left;
    var i := event.i;
    var w, r := s.phase.waiting, s.phase.running;
    var q := if event.Lose? then s.(lost := s.lost + {i}) else s.(completed := Add(s, i, event.a));
    LeaveStep(p, s, event);
    hide Step;
    AfterReadsIs(p, q, w - {i}, r - {i});
    NextLeft(p, q);
    LeftReading(p, s, w, r);
    LeftReading(p, q, w - {i}, r - {i});
    SmallerOrSame(w, i);
    SmallerOrSame(r, i);
    assert i in w ==> |w - {i}| == |w| - 1;
    assert i in r ==> |r - {i}| == |r| - 1;
  }

  lemma LeftReading(p: Plan, s: Schedule, waiting: set<nat>, running: set<nat>)
    requires s.at < |p.requests|
    ensures Left(p, s.(phase := Reading(waiting, running)))
         == 5 * (|p.requests| - EndOf(p, s)) + (|p.requests| - s.at) + 2 * |waiting| + |running|
    ensures Left(p, s.(phase := Serial)) == 5 * (|p.requests| - EndOf(p, s)) + (|p.requests| - s.at) + 1
  {
    hide BatchEnd;
  }

  /** A read that leaves the pool, answered or lost. */
  lemma LeaveStep(p: Plan, s: Schedule, event: Event)
    requires event.FinishRead? || event.Lose?
    ensures
      var i := event.i;
      if s.at < |p.requests| && s.phase.Reading?
         && (if event.Lose? then s.cancelled && i in s.phase.waiting + s.phase.running
             else i in s.phase.running || (i in s.phase.waiting && s.cancelled))
      then
        var q := if event.Lose? then s.(lost := s.lost + {i}) else s.(completed := Add(s, i, event.a));
        Step(p, s, event) == AfterReads(p, q, s.phase.waiting - {i}, s.phase.running - {i})
      else Step(p, s, event) == s
  {
    hide AfterReads, EndOf, Add;
  }

  /** How many steps of a run changed something, cancellations not counted. */
  function Moves(p: Plan, events: seq<Event>): nat
    decreases |events|
  {
    if events == [] then 0
    else
      var before, event := events[..|events| - 1], events[|events| - 1];
      Moves(p, before) + if !event.Cancel? && Step(p, Run(p, before), event) != Run(p, before) then 1 else 0
  }

  lemma CancelLeaves(p: Plan, s: Schedule)
    ensures Left(p, Step(p, s, Cancel)) == Left(p, s)
  {
  }

  /** A schedule ends: with `n` requests a run makes at most `6 n` moves, and one that has not ended can move. */
  lemma {:induction false} MovesAreBounded(p: Plan, events: seq<Event>)
    ensures Moves(p, events) + Left(p, Run(p, events)) <= 6 * |p.requests|
    ensures Moves(p, events) <= 6 * |p.requests|
    decreases |events|
  {
    RunKeeps(p, events);
    LeftIsNat(p, Run(p, events));
    if events != [] {
      var before, event := events[..|events| - 1], events[|events| - 1];
      MovesAreBounded(p, before);
      RunKeeps(p, before);
      hide Left, Inv, Step;
      if event.Cancel? {
        CancelLeaves(p, Run(p, before));
      } else if Step(p, Run(p, before), event) != Run(p, before) {
        StepShrinks(p, Run(p, before), event);
      }
    }
  }

  // --- When a schedule can lose a call ------------------------------------------------------------

  ghost predicate Reachable(p: Plan, s: Schedule) {
    exists events :: Run(p, events) == s
  }

  lemma ReachStep(p: Plan, s: Schedule, event: Event)
    requires Reachable(p, s)
    ensures Reachable(p, Step(p, s, event))
  {
    var events :| Run(p, events) == s;
    assert (events + [event])[..|events|] == events;
    hide Step;
    assert Run(p, events + [event]) == Step(p, s, event);
  }

  /** Answering the calls of a batch that are not decided yet. */
  lemma {:induction false} AnswerRest(p: Plan, s: Schedule) returns (q: Schedule)
    requires Reachable(p, s) && s.at < |p.requests| && s.phase.Deciding? && s.phase.next <= EndOf(p, s)
        && !s.phase.checked
    ensures Reachable(p, q) && q.at == s.at && q.lost == s.lost && q.cancelled == s.cancelled
    ensures q.phase == Deciding(EndOf(p, s), s.phase.prepared, false)
    decreases EndOf(p, s) - s.phase.next
  {
    hide BatchEnd, Reachable;
    if s.phase.next == EndOf(p, s) {
      q := s;
    } else {
      var a := Answer("", true, false, false);
      ReachStep(p, s, Check);
      ReachStep(p, Step(p, s, Check), AnswerNow(a));
      q := AnswerRest(p, Step(p, Step(p, s, Check), AnswerNow(a)));
    }
  }

  /** Answering batch after batch up to the one that begins at `stop`. */
  lemma {:induction false} AnswerBatches(p: Plan, s: Schedule, stop: nat) returns (q: Schedule)
    requires Reachable(p, s) && s.at <= stop <= |p.requests| && AtBatch(p, s)
    requires stop == |p.requests| || forall k :: s.at <= k < stop ==> !IsRead(p.readOnly, p.requests[k])
    ensures Reachable(p, q) && q.at == stop && q.lost == s.lost && q.cancelled == s.cancelled && AtBatch(p, q)
    decreases stop - s.at
  {
    hide Reachable;
    if s.at == stop {
      q := s;
    } else {
      var r := AnswerRest(p, s);
      ReachStep(p, r, Launch);
      LaunchStep(p, r);
      if stop < |p.requests| { AloneEnds(p, s); }
      hide BatchEnd, IsRead, Step;
      q := AnswerBatches(p, NextBatch(p, r, EndOf(p, r)), stop);
    }
  }

  predicate AtBatch(p: Plan, s: Schedule) {
    s.at <= |p.requests| && s.phase == if s.at == |p.requests| then Over else Deciding(s.at, [], false)
  }

  lemma {:induction false} FirstRead(p: Plan, i: nat) returns (k: nat)
    requires i < |p.requests| && IsRead(p.readOnly, p.requests[i])
    ensures k <= i && IsRead(p.readOnly, p.requests[k]) && forall j :: 0 <= j < k ==> !IsRead(p.readOnly, p.requests[j])
  {
    k := 0;
    while !IsRead(p.readOnly, p.requests[k])
      invariant 0 <= k <= i && forall j :: 0 <= j < k ==> !IsRead(p.readOnly, p.requests[j])
      decreases i - k
    {
      k := k + 1;
    }
  }

  /** A schedule with a read can end without an answer to it: its task is cancelled before its first step. */
  lemma CancelCanLoseACall(p: Plan, i: nat) returns (events: seq<Event>)
    requires i < |p.requests| && IsRead(p.readOnly, p.requests[i])
    ensures Run(p, events).phase.Over? && Run(p, events).lost != {}
  {
    var k := FirstRead(p, i);
    assert Run(p, []) == Start(p);
    assert Reachable(p, Start(p));
    var s := AnswerBatches(p, Start(p), k);
    assert s.lost == {} && !s.cancelled;
    var q := LosingBatch(p, s);
    var last := AnswerBatches(p, q, |p.requests|);
    events :| Run(p, events) == last;
  }

  lemma LosingBatch(p: Plan, s: Schedule) returns (q: Schedule)
    requires Reachable(p, s) && AtBatch(p, s) && s.at < |p.requests| && !s.cancelled
    requires IsRead(p.readOnly, p.requests[s.at])
    ensures Reachable(p, q) && AtBatch(p, q) && q.at == EndOf(p, s) && q.lost == s.lost + {s.at}
  {
    hide Reachable, BatchEnd, IsRead;
    var checked := Step(p, s, Check);
    var prepared := Step(p, checked, Prepare);
    ReachStep(p, s, Check);
    ReachStep(p, checked, Prepare);
    assert prepared.phase == Deciding(s.at + 1, [s.at], false);
    var decided := AnswerRest(p, prepared);
    ReachStep(p, decided, Launch);
    LaunchStep(p, decided);
    var reading := Step(p, decided, Launch);
    assert SetOf([s.at]) == {s.at};
    assert reading == decided.(phase := Reading({s.at}, {}));
    ReachStep(p, reading, Cancel);
    var cancelled := Step(p, reading, Cancel);
    assert cancelled == reading.(cancelled := true);
    hide Step;
    ReachStep(p, cancelled, Lose(s.at));
    q := Step(p, cancelled, Lose(s.at));
    LastReadLost(p, cancelled, s.at);
    AfterReadsIs(p, s, {}, {});
  }

  /** The only read of a batch is lost before its first step. */
  lemma LastReadLost(p: Plan, s: Schedule, i: nat)
    requires s.at < |p.requests| && s.cancelled && s.phase == Reading({i}, {})
    ensures Step(p, s, Lose(i)) == NextBatch(p, s.(lost := s.lost + {i}), EndOf(p, s))
  {
    hide BatchEnd, NextBatch, AfterReads;
    var lost := s.(lost := s.lost + {i});
    assert i in {i} + {} && {i} - {i} == {} && {} - {i} == {};
    AfterReadsIs(p, lost, {}, {});
  }

  /** Calls that run alone are never lost by a schedule that ends with its executions. */
  lemma {:induction false} SidesAreNotLost(p: Plan, events: seq<Event>)
    requires forall i :: 0 <= i < |p.requests| ==> !IsRead(p.readOnly, p.requests[i])
    ensures Run(p, events).lost != {} ==> Run(p, events).phase.Failed?
    decreases |events|
  {
    if events != [] {
      var before := events[..|events| - 1];
      SidesAreNotLost(p, before);
      RunKeeps(p, before);
      hide Run, Accounts, EndOf, IsRead;
    }
  }

  /**
    The exact condition, known before the schedule begins: every run that ends with its executions,
    cancelled or not, answers each request once if and only if no request is read-only.
  */
  lemma AlwaysOneEachIff(p: Plan)
    ensures
      (forall events :: Run(p, events).phase.Over? ==> OneEach(p.requests, Executions(p, Run(p, events))))
      <==> forall i :: 0 <= i < |p.requests| ==> !IsRead(p.readOnly, p.requests[i])
  {
    hide Run, Executions, OneEach, IsRead;
    if forall i :: 0 <= i < |p.requests| ==> !IsRead(p.readOnly, p.requests[i]) {
      forall events | Run(p, events).phase.Over? ensures OneEach(p.requests, Executions(p, Run(p, events))) {
        SidesAreNotLost(p, events);
        OneEachIff(p, events);
      }
    } else {
      var i :| 0 <= i < |p.requests| && IsRead(p.readOnly, p.requests[i]);
      var events := CancelCanLoseACall(p, i);
      OneEachIff(p, events);
    }
  }

  // --- The schedule as an object -------------------------------------------------------------------------

  /** One schedule; its tasks finish in whatever order the event loop chooses. */
  class ToolRun {
    const plan: Plan
    var at: nat
    var phase: Phase
    var completed: seq<Entry>
    ghost var lost: set<nat>
    var cancelled: bool

    /** Every call up to the walk is answered, lost or pending, exactly one of them. */
    ghost predicate Valid()
      reads this
    {
      Inv(plan, View())
    }

    constructor (plan: Plan)
      ensures Valid() && View() == Start(plan) && this.plan == plan
    {
      this.plan, at, phase := plan, 0, if plan.requests == [] then Over else Deciding(0, [], false);
      completed, lost, cancelled := [], {}, false;
      new;
      StartOk(plan);
    }

    ghost function View(): Schedule
      reads this
    {
      Schedule(at, phase, completed, lost, cancelled)
    }

    predicate InBatch()
      reads this
    {
      at < |plan.requests| && phase.Deciding? && phase.next < BatchEnd(plan.readOnly, plan.requests, at)
    }

    /** The walk comes to a call; false when a cancellation was requested before. */
    method CheckCall() returns (goOn: bool)
      requires Valid() && InBatch() && !phase.checked
      modifies this
      ensures Valid() && goOn == !old(cancelled) && InBatch()
      ensures View() == Step(plan, old(View()), Check) && (goOn ==> phase.checked)
    {
      StepKeeps(plan, View(), Check);
      hide Inv;
      goOn := !cancelled;
      if goOn {
        phase := Deciding(phase.next, phase.prepared, true);
      }
    }

    /** A call that is answered while the batch is walked. */
    method AnswerCall(a: Answer)
      requires Valid() && InBatch() && (phase.checked || cancelled)
      modifies this
      ensures Valid() && View() == Step(plan, old(View()), AnswerNow(a))
      ensures old(phase).next in Indices(completed)
    {
      StepKeeps(plan, View(), AnswerNow(a));
      IndicesMore(completed, Entry(phase.next, a.output, a.ok, a.denied, a.safePause));
      hide Inv;
      completed := completed + [Entry(phase.next, a.output, a.ok, a.denied, a.safePause)];
      phase := Deciding(phase.next + 1, phase.prepared, false);
    }

    method PrepareCall()
      requires Valid() && InBatch() && phase.checked
      modifies this
      ensures Valid() && View() == Step(plan, old(View()), Prepare)
    {
      StepKeeps(plan, View(), Prepare);
      hide Inv;
      phase := Deciding(phase.next + 1, phase.prepared + [phase.next], false);
    }

    method EndBatch()
      requires at < |plan.requests|
      modifies this
      ensures View() == NextBatch(plan, old(View()), BatchEnd(plan.readOnly, plan.requests, old(at)))
    {
      at := BatchEnd(plan.readOnly, plan.requests, at);
      phase := if at >= |plan.requests| then Over else Deciding(at, [], false);
    }

    method LaunchPrepared()
      requires Valid() && at < |plan.requests| && phase.Deciding?
          && phase.next == BatchEnd(plan.readOnly, plan.requests, at)
      modifies this
      ensures Valid() && View() == Step(plan, old(View()), Launch)
      ensures phase.Serial? ==> old(phase).prepared == [at]
    {
      StepKeeps(plan, View(), Launch);
      LaunchStep(plan, View());
      DecidedFacts(plan, View());
      if phase.prepared == [] {
        EndBatch();
      } else if IsRead(plan.readOnly, plan.requests[at]) {
        phase := Reading(SetOf(phase.prepared), {});
      } else {
        AloneEnds(plan, View());
        OnePrepared(plan, View());
        phase := Serial;
      }
      hide Inv;
    }

    method TakePermit(i: nat)
      requires Valid() && at < |plan.requests| && phase.Reading? && i in phase.waiting && |phase.running| < plan.pool
      modifies this
      ensures Valid() && View() == Step(plan, old(View()), Acquire(i))
      ensures phase.Reading? && |phase.running| <= plan.pool
    {
      hide Inv, Step;
      StepKeeps(plan, View(), Acquire(i));
      AcquireStep(plan, View(), i);
      phase := Reading(phase.waiting - {i}, phase.running + {i});
    }

    method LeavePool(i: nat)
      requires at < |plan.requests| && phase.Reading?
      modifies this
      ensures View() == AfterReads(plan, old(View()), old(phase).waiting - {i}, old(phase).running - {i})
      ensures completed == old(completed)
    {
      hide BatchEnd;
      var waiting, running := phase.waiting - {i}, phase.running - {i};
      if waiting + running == {} {
        EndBatch();
      } else {
        phase := Reading(waiting, running);
      }
    }

    method FinishPooled(i: nat, a: Answer)
      requires Valid() && at < |plan.requests| && phase.Reading?
          && (i in phase.running || (i in phase.waiting && cancelled))
      modifies this
      ensures Valid() && View() == Step(plan, old(View()), FinishRead(i, a))
      ensures i in Indices(completed)
    {
      hide BatchEnd, Inv, Step, Indices, Distinct, AfterReads;
      StepKeeps(plan, View(), FinishRead(i, a));
      LeaveStep(plan, View(), FinishRead(i, a));
      IndicesMore(completed, Entry(i, a.output, a.ok, a.denied, a.safePause));
      completed := completed + [Entry(i, a.output, a.ok, a.denied, a.safePause)];
      LeavePool(i);
    }

    method FinishAlone(a: Answer)
      requires Valid() && at < |plan.requests| && phase.Serial?
      modifies this
      ensures Valid() && View() == Step(plan, old(View()), FinishSerial(a))
      ensures old(at) in Indices(completed)
    {
      hide BatchEnd, Inv, Indices, Distinct;
      StepKeeps(plan, View(), FinishSerial(a));
      IndicesMore(completed, Entry(at, a.output, a.ok, a.denied, a.safePause));
      completed := completed + [Entry(at, a.output, a.ok, a.denied, a.safePause)];
      EndBatch();
    }

    method RequestCancel()
      requires Valid()
      modifies this
      ensures Valid() && View() == Step(plan, old(View()), Cancel)
    {
      StepKeeps(plan, View(), Cancel);
      hide Inv;
      cancelled := true;
    }

    method LoseTask(i: nat)
      requires Valid() && at < |plan.requests| && phase.Reading? && cancelled && i in phase.waiting + phase.running
      modifies this
      ensures Valid() && View() == Step(plan, old(View()), Lose(i))
    {
      hide BatchEnd, Inv, Step, AfterReads;
      StepKeeps(plan, View(), Lose(i));
      LeaveStep(plan, View(), Lose(i));
      lost := lost + {i};
      LeavePool(i);
    }

    /** The task of a call that runs alone is cancelled before its first step: `await task` raises. */
    method LoseAlone()
      requires Valid() && at < |plan.requests| && phase.Serial? && cancelled
      modifies this
      ensures Valid() && View() == Step(plan, old(View()), LoseSerial) && phase.Failed?
    {
      StepKeeps(plan, View(), LoseSerial);
      hide Inv;
      lost := lost + {at};
      phase := Failed({}, BatchEnd(plan.readOnly, plan.requests, at));
    }

    /** `sorted`: an insertion for each completed entry, from the last one. */
    method SortCompleted() returns (r: seq<Entry>)
      ensures r == Sorted(completed)
    {
      r := [];
      var k := |completed|;
      assert completed[k..] == [];
      while k > 0
        invariant 0 <= k <= |completed|
        invariant r == Sorted(completed[k..])
      {
        k := k - 1;
        assert completed[k..][0] == completed[k] && completed[k..][1..] == completed[k + 1..];
        r := Insert(completed[k], r);
      }
      assert completed[0..] == completed;
    }

    /** `executions`: None unless the schedule ended well. */
    method GetExecutions() returns (r: Option<seq<Execution>>)
      requires Valid()
      ensures r.Some? <==> phase.Over?
      ensures r.Some? ==> (OneEach(plan.requests, r.value) <==> lost == {})
      ensures r.Some? && !cancelled ==> OneEach(plan.requests, r.value)
    {
      if !phase.Over? {
        return None;
      }
      OverOneEachIff(plan, View());
      var sorted := SortCompleted();
      return Some(ExecutionsOf(plan, sorted));
    }
  }
}

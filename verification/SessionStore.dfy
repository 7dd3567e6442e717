/**
  The commits of a live session binding over its log, a crash in the middle of the log,
  and the reopening of a session (`src/mewcode/continuity/session_repository.py`).
*/
module SessionStore {
  import opened Wrappers
  import opened Chat
  import opened IdLists
  import opened SessionRecords
  import opened SessionLog

  /** The file and the binding that writes it. */
  datatype Store = Store(log: Bytes, session: Session)

  datatype Commit =
    | CommitHistory(messages: seq<ChatMessage>, now: int)
    | CommitInbound(messages: seq<ChatMessage>, ids: seq<string>, now: int)
    | CommitPlan(plan: Option<StoredPlan>, now: int)
    | CommitSkills(skills: seq<Skill>, now: int)
    | ResetState(now: int)

  datatype CommitError = RepeatedInboundChanged | InboundMustAppend | InboundMismatch | InvalidInboundIds

  function Fresh(ids: seq<string>, delivered: set<string>): seq<string> {
    if ids == [] then []
    else (if ids[0] in delivered then [] else [ids[0]]) + Fresh(ids[1..], delivered)
  }

  /** The record a commit writes, None when nothing changed. */
  function RecordFor(s: Session, x: Commit): (r: Result<Option<Body>, CommitError>)
    requires !x.ResetState?
  {
    match x
    case CommitHistory(messages, _) =>
      if messages == s.messages then Ok(None)
      else if s.messages < messages then Ok(Some(History(Append, messages[|s.messages|..])))
      else Ok(Some(History(Replace, messages)))
    case CommitInbound(messages, ids, _) =>
      var unseen := Fresh(ids, s.delivered);
      if unseen == [] then (if messages != s.messages then Err(RepeatedInboundChanged) else Ok(None))
      else if !(s.messages <= messages) then Err(InboundMustAppend)
      else if |messages| - |s.messages| != |unseen| then Err(InboundMismatch)
      else if !GoodIds(unseen) then Err(InvalidInboundIds)
      else Ok(Some(Inbound(Append, messages[|s.messages|..], unseen)))
    case CommitPlan(plan, _) => Ok(if plan == s.plan then None else Some(PlanState(plan)))
    case CommitSkills(skills, _) => Ok(if skills == s.skills then None else Some(SkillState(skills)))
  }

  /** What the binding holds after a commit that did not raise. */
  function SessionAfter(s: Session, x: Commit): Session {
    match x
    case CommitHistory(messages, _) => s.(messages := messages)
    case CommitInbound(messages, ids, _) =>
      s.(messages := messages, delivered := s.delivered + Elements(Fresh(ids, s.delivered)))
    case CommitPlan(plan, _) => s.(plan := plan)
    case CommitSkills(skills, _) => s.(skills := skills)
    case ResetState(_) => EMPTY.(created := s.created)
  }

  /** The five records of a reset log. */
  function ResetEntries(sessionId: string, created: int, now: int): seq<Entry> {
    [Entry(created, Start(sessionId)), Entry(now, History(Replace, [])), Entry(now, PlanState(None)),
     Entry(now, SkillState([])), Entry(now, Inbound(Replace, [], []))]
  }

  function Lines(c: TextCodec, entries: seq<Entry>): Bytes {
    if entries == [] then [] else Line(c, entries[0]) + Lines(c, entries[1..])
  }

  function CommitOne(c: TextCodec, sessionId: string, st: Store, x: Commit): Result<Store, CommitError> {
    var s := st.session;
    if x.ResetState? then
      var created := if s.created.Some? then s.created.value else x.now;
      Ok(Store(Lines(c, ResetEntries(sessionId, created, x.now)), SessionAfter(s, x)))
    else
      match RecordFor(s, x)
      case Err(e) => Err(e)
      case Ok(None) => Ok(st)
      case Ok(Some(body)) => Ok(Store(st.log + Line(c, Entry(x.now, body)), SessionAfter(s, x)))
  }

  /**
    Only mailbox messages can be refused. With every id delivered already they must be the history unchanged;
    otherwise they must extend it by one message for each id still to record, and these ids must be good ones.
  */
  lemma CommitRefusedIff(s: Session, x: Commit)
    requires !x.ResetState?
    ensures !x.CommitInbound? ==> RecordFor(s, x).Ok?
    ensures x.CommitInbound? ==>
      var (unseen, r) := (Fresh(x.ids, s.delivered), RecordFor(s, x));
      var repeated, prefix := Elements(x.ids) <= s.delivered, s.messages <= x.messages;
      && (r.Ok? <==>
            if repeated then x.messages == s.messages
            else prefix && |x.messages| == |s.messages| + |unseen| && NoDuplicates(unseen) && "" !in unseen)
      && (r == Err(RepeatedInboundChanged) <==> repeated && x.messages != s.messages)
      && (r == Err(InboundMustAppend) <==> !repeated && !prefix)
      && (r == Err(InboundMismatch) <==> !repeated && prefix && |x.messages| != |s.messages| + |unseen|)
  {
    if x.CommitInbound? { FreshIsFilter(x.ids, s.delivered); }
    hide Fresh, NoDuplicates;
  }

  /**
    A commit that changes nothing writes nothing. New messages are written alone when they extend the history;
    only another history is written whole.
  */
  lemma RecordIsMinimal(s: Session, x: Commit)
    requires !x.ResetState? && RecordFor(s, x).Ok?
    ensures RecordFor(s, x).value.None? <==> SessionAfter(s, x) == s
    ensures RecordFor(s, x).value.Some? ==>
      var body := RecordFor(s, x).value.value;
      && (body.History? || body.Inbound? ==>
            && (body.operation.Append? <==> s.messages < x.messages)
            && (body.operation.Append? ==> s.messages + body.messages == x.messages)
            && (body.operation.Replace? ==> body.messages == x.messages))
      && (body.Inbound? ==> body.operation.Append? && Elements(body.ids) == Elements(x.ids) - s.delivered)
  {
    if x.CommitInbound? { FreshIsFilter(x.ids, s.delivered); }
    hide Fresh, NoDuplicates;
    if x.CommitInbound? && RecordFor(s, x).value.None? {
      assert s.delivered + Elements([]) == s.delivered;
    }
  }

  // --- Log and binding agree -----------------------------------------------------------

  /** Replaying the log gives what the binding holds. */
  ghost predicate LogMatches(c: TextCodec, sessionId: string, st: Store) {
    var r := ReplayLog(c, sessionId, st.log);
    && Whole(st.log) && r.session == st.session && r.validStart && r.last.Some? && st.session.created.Some?
  }

  lemma {:induction false} FreshElements(ids: seq<string>, delivered: set<string>)
    ensures Elements(Fresh(ids, delivered)) == Elements(ids) - delivered
  {
    if ids != [] {
      FreshElements(ids[1..], delivered);
      assert ids == [ids[0]] + ids[1..];
      var tail := Fresh(ids[1..], delivered);
      assert Fresh(ids, delivered) == if ids[0] in delivered then tail else [ids[0]] + tail;
      hide *;
      ElementsCons(ids[0], ids[1..]);
      ElementsCons(ids[0], tail);
    }
  }

  lemma {:induction false} AllFresh(ids: seq<string>, delivered: set<string>)
    requires forall i :: 0 <= i < |ids| ==> ids[i] !in delivered
    ensures Fresh(ids, delivered) == ids
  {
    if ids != [] {
      AllFresh(ids[1..], delivered);
      assert ids == [ids[0]] + ids[1..];
    }
  }

  lemma FreshIsFilter(ids: seq<string>, delivered: set<string>)
    ensures Elements(Fresh(ids, delivered)) == Elements(ids) - delivered
    ensures Fresh(ids, delivered) == [] <==> Elements(ids) <= delivered
    ensures (forall i :: 0 <= i < |ids| ==> ids[i] !in delivered) ==> Fresh(ids, delivered) == ids
  {
    hide Fresh;
    FreshElements(ids, delivered);
    var unseen := Fresh(ids, delivered);
    if unseen != [] {
      assert unseen[0] in Elements(ids) - delivered;
    } else {
      assert forall id :: id in Elements(ids) - delivered ==> id in unseen;
      assert forall id :: id in Elements(ids) && id !in delivered ==> id in Elements(ids) - delivered;
    }
    if forall i :: 0 <= i < |ids| ==> ids[i] !in delivered { AllFresh(ids, delivered); }
  }

  /** A written record does to a replay what the commit did to the binding. */
  lemma RecordTellsCommit(s: Session, x: Commit)
    requires !x.ResetState? && RecordFor(s, x).Ok?
    ensures
      match RecordFor(s, x).value
      case None => SessionAfter(s, x) == s
      case Some(body) => ApplyBody(s, x.now, body) == SessionAfter(s, x) && SessionAfter(s, x) != s
  {
    if x.CommitInbound? {
      FreshIsFilter(x.ids, s.delivered);
      var unseen := Fresh(x.ids, s.delivered);
      if unseen != [] {
        assert unseen[0] in Elements(unseen) && unseen[0] in SessionAfter(s, x).delivered;
      } else {
        assert Elements(unseen) == {};
      }
    }
  }

  /**
    A commit keeps the log equal to the binding exactly when the record it writes, if any,
    is one that a replay accepts: roles, plan texts and skill names not blank, skills distinct.
  */
  lemma CommitKeepsIff(c: TextCodec, sessionId: string, st: Store, x: Commit)
    requires CodecOk(c) && LogMatches(c, sessionId, st) && !x.ResetState? && RecordFor(st.session, x).Ok?
    ensures
      var record := RecordFor(st.session, x).value;
      LogMatches(c, sessionId, CommitOne(c, sessionId, st, x).value)
      <==> (record.Some? ==> GoodBody(sessionId, record.value))
  {
    RecordTellsCommit(st.session, x);
    var record := RecordFor(st.session, x).value;
    if record.Some? {
      AppendLine(c, sessionId, st.log, Entry(x.now, record.value));
      hide ReplayLog, GoodBody, ApplyBody, SessionAfter, RecordFor;
    }
  }

  /** A blank plan is such a record: the commit is written but a replay skips it. */
  lemma BlankPlanIsLost(c: TextCodec, sessionId: string, st: Store, now: int)
    requires CodecOk(c) && LogMatches(c, sessionId, st) && st.session.plan.None?
    ensures
      var after := CommitOne(c, sessionId, st, CommitPlan(Some(StoredPlan("", "text")), now));
      after.Ok? && !LogMatches(c, sessionId, after.value)
  {
    CommitKeepsIff(c, sessionId, st, CommitPlan(Some(StoredPlan("", "text")), now));
  }

  // --- Reset -------------------------------------------------------------------------------

  function ApplyAll(r: Replay, entries: seq<Entry>): Replay
    decreases |entries|
  {
    if entries == [] then r else ApplyAll(ApplyEntry(r, entries[0]), entries[1..])
  }

  lemma LineIsWhole(c: TextCodec, e: Entry)
    ensures Whole(Line(c, e)) && Line(c, e) != []
  {
  }

  /** A log of good records replays record by record. */
  lemma {:induction false} ReplayLines(c: TextCodec, sessionId: string, log: Bytes, entries: seq<Entry>)
    requires CodecOk(c) && Whole(log)
    requires forall i :: 0 <= i < |entries| ==> GoodBody(sessionId, entries[i].body)
    ensures ReplayLog(c, sessionId, log + Lines(c, entries)) == ApplyAll(ReplayLog(c, sessionId, log), entries)
    ensures Whole(log + Lines(c, entries))
    decreases |entries|
  {
    hide ReplayLog, GoodBody, Line, ApplyEntry;
    if entries == [] {
      assert log + [] == log;
    } else {
      var line, rest := Line(c, entries[0]), entries[1..];
      LineIsWhole(c, entries[0]);
      AppendLine(c, sessionId, log, entries[0]);
      WholeJoin(log, line);
      ReplayLines(c, sessionId, log + line, rest);
      assert log + (line + Lines(c, rest)) == (log + line) + Lines(c, rest);
    }
  }

  lemma WholeJoin(a: Bytes, b: Bytes)
    requires Whole(a) && Whole(b)
    ensures Whole(a + b)
  {
  }

  /** The first `k` of the five records of a reset, with at least the first. */
  lemma ResetReplay(sessionId: string, created: int, now: int, k: nat)
    requires 1 <= k <= 5
    ensures
      var r := ApplyAll(NOTHING, ResetEntries(sessionId, created, now)[..k]);
      r.session == EMPTY.(created := Some(created)) && r.validStart && r.last.Some?
  {
    var e := ResetEntries(sessionId, created, now);
    var r1 := ApplyEntry(NOTHING, e[0]);
    assert r1.session == EMPTY.(created := Some(created));
    assert ApplyAll(NOTHING, e[..k]) == ApplyAll(r1, e[1..k]) by { assert e[..k][1..] == e[1..k]; }
    ResetTail(r1, e[1..k], created);
  }

  lemma {:induction false} ResetTail(r: Replay, entries: seq<Entry>, created: int)
    requires r.session == EMPTY.(created := Some(created)) && r.validStart && r.last.Some?
    requires forall i :: 0 <= i < |entries| ==>
      ApplyBody(EMPTY.(created := Some(created)), entries[i].at, entries[i].body) == EMPTY.(created := Some(created))
    ensures var q := ApplyAll(r, entries); q.session == r.session && q.validStart && q.last.Some?
    decreases |entries|
  {
    if entries != [] { ResetTail(ApplyEntry(r, entries[0]), entries[1..], created); }
  }

  lemma EmptyReplay(c: TextCodec, sessionId: string)
    ensures ReplayLog(c, sessionId, []) == NOTHING
  {
  }

  lemma ResetIsGood(sessionId: string, created: int, now: int)
    ensures |ResetEntries(sessionId, created, now)| == 5
    ensures forall i :: 0 <= i < 5 ==> GoodBody(sessionId, ResetEntries(sessionId, created, now)[i].body)
  {
  }

  /** The first records of a reset log already hold the empty session. */
  lemma ResetPrefixMatches(c: TextCodec, sessionId: string, created: int, now: int, k: nat)
    requires CodecOk(c) && 1 <= k <= 5
    ensures |ResetEntries(sessionId, created, now)| == 5
    ensures LogMatches(c, sessionId,
        Store(Lines(c, ResetEntries(sessionId, created, now)[..k]), EMPTY.(created := Some(created))))
  {
    ResetIsGood(sessionId, created, now);
    ResetReplay(sessionId, created, now, k);
    EmptyReplay(c, sessionId);
    hide ReplayLog, ResetEntries, GoodBody, Line, ApplyAll, Lines;
    var entries := ResetEntries(sessionId, created, now)[..k];
    ReplayLines(c, sessionId, [], entries);
    assert [] + Lines(c, entries) == Lines(c, entries);
  }

  lemma ResetKeeps(c: TextCodec, sessionId: string, st: Store, now: int)
    requires CodecOk(c) && LogMatches(c, sessionId, st)
    ensures LogMatches(c, sessionId, CommitOne(c, sessionId, st, ResetState(now)).value)
  {
    var entries := ResetEntries(sessionId, st.session.created.value, now);
    ResetPrefixMatches(c, sessionId, st.session.created.value, now, 5);
    assert entries[..5] == entries;
    hide ReplayLog, ResetEntries, Lines;
  }

  /** The file that `reset_state` writes. */
  function ResetLog(c: TextCodec, sessionId: string, created: Option<int>, now: int): Bytes {
    Lines(c, ResetEntries(sessionId, if created.Some? then created.value else now, now))
  }

  /**
    A reset that raised after its rename leaves log and binding equal exactly when there was nothing
    to reset: the binding held no message, plan, skill or delivered id.
  */
  lemma FailedResetKeepsIff(c: TextCodec, sessionId: string, st: Store, now: int)
    requires CodecOk(c) && LogMatches(c, sessionId, st)
    ensures LogMatches(c, sessionId, Store(ResetLog(c, sessionId, st.session.created, now), st.session))
       <==> st.session == EMPTY.(created := st.session.created)
  {
    ResetKeeps(c, sessionId, st, now);
    hide ReplayLog, Lines, ResetEntries;
  }

  // --- Runs of commits and crashes --------------------------------------------------------------

  /** A commit that raises leaves the store as it was. */
  function Attempt(c: TextCodec, sessionId: string, st: Store, x: Commit): Store {
    var r := CommitOne(c, sessionId, st, x);
    if r.Ok? then r.value else st
  }

  lemma AttemptIs(c: TextCodec, sessionId: string, st: Store, x: Commit)
    requires !x.ResetState? && RecordFor(st.session, x).Ok?
    ensures
      Attempt(c, sessionId, st, x)
      == match RecordFor(st.session, x).value
         case None => st
         case Some(body) => Store(st.log + Line(c, Entry(x.now, body)), SessionAfter(st.session, x))
  {
    hide RecordFor, SessionAfter, Line;
  }

  /** The store before and after each commit of a run. */
  function Stages(c: TextCodec, sessionId: string, st: Store, xs: seq<Commit>): (ss: seq<Store>)
    ensures |ss| == |xs| + 1
    decreases |xs|
  {
    if xs == [] then [st]
    else
      var before := Stages(c, sessionId, st, xs[..|xs| - 1]);
      before + [Attempt(c, sessionId, before[|xs| - 1], xs[|xs| - 1])]
  }

  /** Arguments whose records a replay accepts. */
  predicate GoodCommit(x: Commit) {
    match x
    case CommitHistory(messages, _) => GoodMessages(messages)
    case CommitInbound(messages, _, _) => GoodMessages(messages)
    case CommitPlan(plan, _) => GoodPlan(plan)
    case CommitSkills(skills, _) => GoodSkills(skills)
    case ResetState(_) => true
  }

  function Created(c: TextCodec, sessionId: string, now: int): Store {
    Store(Line(c, Entry(now, Start(sessionId))), EMPTY.(created := Some(now)))
  }

  lemma CreatedMatches(c: TextCodec, sessionId: string, now: int)
    requires CodecOk(c)
    ensures LogMatches(c, sessionId, Created(c, sessionId, now))
  {
    EmptyReplay(c, sessionId);
    AppendLine(c, sessionId, [], Entry(now, Start(sessionId)));
    assert [] + Line(c, Entry(now, Start(sessionId))) == Line(c, Entry(now, Start(sessionId)));
  }

  lemma GoodCommitKeeps(c: TextCodec, sessionId: string, st: Store, x: Commit)
    requires CodecOk(c) && LogMatches(c, sessionId, st) && GoodCommit(x) && CommitOne(c, sessionId, st, x).Ok?
    ensures LogMatches(c, sessionId, CommitOne(c, sessionId, st, x).value)
    ensures CommitOne(c, sessionId, st, x).value.session.created == st.session.created
  {
    if x.ResetState? {
      ResetKeeps(c, sessionId, st, x.now);
    } else {
      if RecordFor(st.session, x).value.Some? { GoodRecord(sessionId, st.session, x); }
      CommitKeepsIff(c, sessionId, st, x);
    }
  }

  /** What a commit that was not refused stores is what a replay of the log reads, and nothing else changes. */
  lemma CommitIsRead(c: TextCodec, sessionId: string, st: Store, x: Commit)
    requires CodecOk(c) && LogMatches(c, sessionId, st) && GoodCommit(x) && CommitOne(c, sessionId, st, x).Ok?
    ensures
      var (s, q) := (st.session, ReplayLog(c, sessionId, CommitOne(c, sessionId, st, x).value.log).session);
      match x
      case CommitHistory(messages, _) => q == s.(messages := messages)
      case CommitInbound(messages, ids, _) =>
        q.messages == messages && q.delivered == s.delivered + Elements(ids) && q.plan == s.plan && q.skills == s.skills
      case CommitPlan(plan, _) => q == s.(plan := plan)
      case CommitSkills(skills, _) => q == s.(skills := skills)
      case ResetState(_) =>
        q.messages == [] && q.plan == None && q.skills == [] && q.delivered == {} && q.created == s.created
  {
    GoodCommitKeeps(c, sessionId, st, x);
    if x.CommitInbound? { FreshIsFilter(x.ids, st.session.delivered); }
    hide ReplayLog, Line, Lines, ResetEntries, GoodCommit, CodecOk;
  }

  lemma GoodRecord(sessionId: string, s: Session, x: Commit)
    requires GoodCommit(x) && !x.ResetState? && RecordFor(s, x).Ok? && RecordFor(s, x).value.Some?
    ensures GoodBody(sessionId, RecordFor(s, x).value.value)
  {
  }

  /** In a run of good commits every stage keeps the log equal to the binding. */
  lemma {:induction false} RunKeeps(c: TextCodec, sessionId: string, st: Store, xs: seq<Commit>)
    requires CodecOk(c) && LogMatches(c, sessionId, st) && forall x :: x in xs ==> GoodCommit(x)
    ensures forall m :: 0 <= m <= |xs| ==>
      && LogMatches(c, sessionId, Stages(c, sessionId, st, xs)[m])
      && Stages(c, sessionId, st, xs)[m].session.created == st.session.created
    decreases |xs|
  {
    hide LogMatches, CommitOne, GoodCommit;
    if xs != [] {
      var before := xs[..|xs| - 1];
      var q := Stages(c, sessionId, st, before)[|before|];
      RunKeeps(c, sessionId, st, before);
      if CommitOne(c, sessionId, q, xs[|xs| - 1]).Ok? { GoodCommitKeeps(c, sessionId, q, xs[|xs| - 1]); }
    }
  }

  lemma WholeEndIs(log: Bytes, k: nat)
    requires k <= |log| && Whole(log[..k]) && NEWLINE !in log[k..]
    ensures WholeEnd(log) == k
  {
  }

  lemma LineHasOneNewline(c: TextCodec, e: Entry)
    requires CodecOk(c)
    ensures forall k :: 0 <= k < |Line(c, e)| ==> NEWLINE !in Line(c, e)[..k]
  {
    var j := EncodeEntry(c, e);
    assert NEWLINE !in c.dumps(j) && c.loads(c.dumps(j) + [NEWLINE]) == Some(j);
    forall k | 0 <= k < |Line(c, e)| ensures NEWLINE !in Line(c, e)[..k] {
      assert Line(c, e)[..k] == c.dumps(j)[..k];
    }
  }

  /** Cutting a log of lines leaves some of its first lines, the first one if all of it survives. */
  lemma {:induction false} CutLines(c: TextCodec, entries: seq<Entry>, n: nat) returns (k: nat)
    requires CodecOk(c) && n <= |Lines(c, entries)|
    ensures k <= |entries|
    ensures Lines(c, entries)[..WholeEnd(Lines(c, entries)[..n])] == Lines(c, entries[..k])
    ensures entries != [] && |Line(c, entries[0])| <= n ==> 1 <= k
    decreases |entries|
  {
    hide EncodeEntry, WholeEnd, Line, Lines, Whole, CodecOk;
    k := 0;
    NoLines(c, entries);
    if entries != [] {
      var line, rest := Line(c, entries[0]), Lines(c, entries[1..]);
      FirstLine(c, entries);
      if n < |line| {
        CutInLine(c, entries[0], rest, n);
      } else {
        var j := CutLines(c, entries[1..], n - |line|);
        CutAfterLine(c, entries[0], rest, n);
        k := j + 1;
        FirstLine(c, entries[..k]);
        assert entries[..k][0] == entries[0] && entries[..k][1..] == entries[1..][..j];
      }
    }
  }

  lemma NoLines(c: TextCodec, entries: seq<Entry>)
    ensures Lines(c, entries[..0]) == [] && Lines(c, [])[..WholeEnd([])] == []
    ensures entries == [] ==> Lines(c, entries) == []
  {
    assert entries[..0] == [];
  }

  lemma FirstLine(c: TextCodec, entries: seq<Entry>)
    requires entries != []
    ensures Lines(c, entries) == Line(c, entries[0]) + Lines(c, entries[1..])
  {
    hide Line;
  }

  /** A cut inside the first line leaves no whole line. */
  lemma CutInLine(c: TextCodec, e: Entry, rest: Bytes, n: nat)
    requires CodecOk(c) && n < |Line(c, e)|
    ensures WholeEnd((Line(c, e) + rest)[..n]) == 0
  {
    hide Line, WholeEnd, CodecOk;
    LineHasOneNewline(c, e);
    var cut := (Line(c, e) + rest)[..n];
    assert cut == Line(c, e)[..n] && cut[..0] == [] && cut[0..] == cut;
    WholeEndIs(cut, 0);
  }

  /** A cut after it leaves the line and what is left whole of the rest. */
  lemma CutAfterLine(c: TextCodec, e: Entry, rest: Bytes, n: nat)
    requires CodecOk(c) && |Line(c, e)| <= n <= |Line(c, e)| + |rest|
    ensures
      var log, line, w := Line(c, e) + rest, Line(c, e), WholeEnd(rest[..n - |Line(c, e)|]);
      WholeEnd(log[..n]) == |line| + w && log[..|line| + w] == line + rest[..w]
  {
    hide Line, WholeEnd, Whole, CodecOk;
    LineIsWhole(c, e);
    var line := Line(c, e);
    var inner, cut := rest[..n - |line|], (line + rest)[..n];
    assert cut == line + inner;
    var w := WholeEnd(inner);
    assert cut[..|line| + w] == line + inner[..w] && cut[|line| + w..] == inner[w..];
    WholeJoin(line, inner[..w]);
    WholeEndIs(cut, |line| + w);
    assert inner[..w] == rest[..w];
  }

  /** Cut after `n` bytes, the log of the last stage replays to stage `i`, and every later stage had a longer log. */
  ghost predicate CutLeaves(c: TextCodec, sessionId: string, stages: seq<Store>, n: nat, i: nat) {
    && i < |stages| && n <= |stages[|stages| - 1].log|
    && (var log := stages[|stages| - 1].log[..n];
        LogMatches(c, sessionId, Store(log[..WholeEnd(log)], stages[i].session)))
    && (forall m :: i < m < |stages| ==> n < |stages[m].log|)
  }

  /**
    A log cut anywhere after its start record replays to the binding as it was after the last
    whole record, and its whole lines are a log that matches that binding: `i` commits survive,
    and every later one lies beyond the cut.
  */
  lemma {:induction false} CutReplay(
      c: TextCodec, sessionId: string, created: int, xs: seq<Commit>, n: nat) returns (i: nat)
    requires CodecOk(c) && forall x :: x in xs ==> GoodCommit(x)
    requires |Created(c, sessionId, created).log| <= n
          <= |Stages(c, sessionId, Created(c, sessionId, created), xs)[|xs|].log|
    ensures i <= |xs| && CutLeaves(c, sessionId, Stages(c, sessionId, Created(c, sessionId, created), xs), n, i)
    decreases |xs|
  {
    var st0 := Created(c, sessionId, created);
    var stages := Stages(c, sessionId, st0, xs);
    var st := stages[|xs|];
    CreatedMatches(c, sessionId, created);
    assert st0.session.created == Some(created) && (xs == [] ==> st == st0);
    hide *;
    RunKeeps(c, sessionId, st0, xs);
    i := |xs|;
    if n == |st.log| {
      WholeCut(c, sessionId, st, n);
      LastLeft(c, sessionId, stages, n);
    } else {
      LastStage(c, sessionId, st0, xs);
      var last, before := xs[|xs| - 1], xs[..|xs| - 1];
      var q := stages[|before|];
      if last.ResetState? {
        ResetSucceeds(c, sessionId, q, last.now);
        CutReset(c, sessionId, created, q, last.now, n);
        LastLeft(c, sessionId, stages, n);
      } else {
        LogGrows(c, sessionId, q, last);
        if n < |q.log| {
          i := CutReplay(c, sessionId, created, before, n);
          EarlierLeft(c, sessionId, stages, n, i);
        } else {
          i := |before|;
          CutInLastLine(c, sessionId, q, last, n);
          PreviousLeft(c, sessionId, stages, n);
        }
      }
    }
  }

  lemma LastLeft(c: TextCodec, sessionId: string, stages: seq<Store>, n: nat)
    requires stages != [] && n <= |stages[|stages| - 1].log|
    requires
      var st := stages[|stages| - 1];
      LogMatches(c, sessionId, Store(st.log[..n][..WholeEnd(st.log[..n])], st.session))
    ensures CutLeaves(c, sessionId, stages, n, |stages| - 1)
  {
    hide LogMatches, WholeEnd;
  }

  lemma PreviousLeft(c: TextCodec, sessionId: string, stages: seq<Store>, n: nat)
    requires |stages| >= 2 && n < |stages[|stages| - 1].log|
    requires
      var (q, cut) := (stages[|stages| - 2], stages[|stages| - 1].log[..n]);
      LogMatches(c, sessionId, Store(cut[..WholeEnd(cut)], q.session))
    ensures CutLeaves(c, sessionId, stages, n, |stages| - 2)
  {
    hide LogMatches, WholeEnd;
  }

  lemma EarlierLeft(c: TextCodec, sessionId: string, stages: seq<Store>, n: nat, i: nat)
    requires |stages| >= 2 && n < |stages[|stages| - 2].log| && stages[|stages| - 2].log <= stages[|stages| - 1].log
    requires CutLeaves(c, sessionId, stages[..|stages| - 1], n, i)
    ensures CutLeaves(c, sessionId, stages, n, i)
  {
    hide LogMatches, WholeEnd;
    var before := stages[..|stages| - 1];
    assert forall m :: 0 <= m < |before| ==> before[m] == stages[m];
    assert stages[|stages| - 1].log[..n] == before[|before| - 1].log[..n];
  }

  lemma LastStage(c: TextCodec, sessionId: string, st: Store, xs: seq<Commit>)
    requires xs != []
    ensures
      var stages, n := Stages(c, sessionId, st, xs), |xs| - 1;
      stages[..|xs|] == Stages(c, sessionId, st, xs[..n]) && stages[|xs|] == Attempt(c, sessionId, stages[n], xs[n])
  {
    hide Attempt;
  }

  /**
    An append that stopped after `k` bytes leaves log and binding equal exactly when nothing was written, or
    the whole of a record that no replay accepts; a replay finds the commit only if it was written whole.
  */
  lemma TornAppend(c: TextCodec, sessionId: string, st: Store, x: Commit, k: nat)
    requires CodecOk(c) && LogMatches(c, sessionId, st) && !x.ResetState?
    requires RecordFor(st.session, x).Ok? && RecordFor(st.session, x).value.Some?
    requires k <= |Line(c, Entry(x.now, RecordFor(st.session, x).value.value))|
    ensures
      var body := RecordFor(st.session, x).value.value;
      var line := Line(c, Entry(x.now, body));
      var torn, whole := st.log + line[..k], k == |line| && GoodBody(sessionId, body);
      && (LogMatches(c, sessionId, Store(torn, st.session)) <==> k == 0 || (k == |line| && !GoodBody(sessionId, body)))
      && ReplayLog(c, sessionId, torn).session == if whole then SessionAfter(st.session, x) else st.session
  {
    var body := RecordFor(st.session, x).value.value;
    var line := Line(c, Entry(x.now, body));
    RecordTellsCommit(st.session, x);
    hide SessionAfter, RecordFor, GoodBody, ApplyBody;
    if k == |line| {
      assert line[..k] == line;
      hide Line;
      AppendLine(c, sessionId, st.log, Entry(x.now, body));
      hide ReplayLog;
    } else {
      hide ReplayLog;
      TornLine(c, sessionId, st, Entry(x.now, body), k);
    }
  }

  /** A proper part of a line is skipped by a replay and makes the log end in the middle of a line. */
  lemma TornLine(c: TextCodec, sessionId: string, st: Store, e: Entry, k: nat)
    requires CodecOk(c) && LogMatches(c, sessionId, st) && k < |Line(c, e)|
    ensures
      var torn := st.log + Line(c, e)[..k];
      && ReplayLog(c, sessionId, torn).session == st.session
      && (LogMatches(c, sessionId, Store(torn, st.session)) <==> k == 0)
  {
    hide Line, ReplayLog, WholeEnd, CodecOk;
    var line := Line(c, e);
    var torn := st.log + line[..k];
    LineHasOneNewline(c, e);
    assert torn[..|st.log|] == st.log && torn[|st.log|..] == line[..k];
    WholeEndIs(torn, |st.log|);
    TornReplay(c, sessionId, torn);
    if k == 0 {
      assert torn == st.log;
    } else {
      assert torn[|torn| - 1] == line[k - 1] && line[k - 1] in line[..k];
    }
  }

  lemma LogGrows(c: TextCodec, sessionId: string, q: Store, x: Commit)
    requires !x.ResetState?
    ensures q.log <= Attempt(c, sessionId, q, x).log
  {
    hide Line;
  }

  lemma ResetSucceeds(c: TextCodec, sessionId: string, q: Store, now: int)
    ensures CommitOne(c, sessionId, q, ResetState(now)).Ok?
    ensures Attempt(c, sessionId, q, ResetState(now)) == CommitOne(c, sessionId, q, ResetState(now)).value
  {
  }

  lemma WholeCut(c: TextCodec, sessionId: string, st: Store, n: nat)
    requires LogMatches(c, sessionId, st) && n == |st.log|
    ensures LogMatches(c, sessionId, Store(st.log[..n][..WholeEnd(st.log[..n])], st.session))
  {
    assert st.log[..n] == st.log && st.log[..|st.log|] == st.log;
  }

  /** The cut lies inside the line of the last commit. */
  lemma CutInLastLine(c: TextCodec, sessionId: string, q: Store, x: Commit, n: nat)
    requires CodecOk(c) && LogMatches(c, sessionId, q) && !x.ResetState?
    requires |q.log| <= n < |Attempt(c, sessionId, q, x).log|
    ensures
      var cut := Attempt(c, sessionId, q, x).log[..n];
      LogMatches(c, sessionId, Store(cut[..WholeEnd(cut)], q.session))
  {
    var body := RecordFor(q.session, x).value.value;
    var line := Line(c, Entry(x.now, body));
    LineHasOneNewline(c, Entry(x.now, body));
    var cut := (q.log + line)[..n];
    assert cut[..|q.log|] == q.log && cut[|q.log|..] == line[..n - |q.log|];
    WholeEndIs(cut, |q.log|);
  }

  /** The cut lies inside the five records of a reset: they all say the same. */
  lemma CutReset(c: TextCodec, sessionId: string, created: int, q: Store, now: int, n: nat)
    requires CodecOk(c) && LogMatches(c, sessionId, q) && q.session.created == Some(created)
    requires |Created(c, sessionId, created).log| <= n <= |CommitOne(c, sessionId, q, ResetState(now)).value.log|
    ensures
      var st := CommitOne(c, sessionId, q, ResetState(now)).value;
      LogMatches(c, sessionId, Store(st.log[..n][..WholeEnd(st.log[..n])], st.session))
  {
    var entries := ResetEntries(sessionId, created, now);
    ResetIsGood(sessionId, created, now);
    assert entries[0] == Entry(created, Start(sessionId));
    var log, st := Lines(c, entries), CommitOne(c, sessionId, q, ResetState(now)).value;
    assert st == Store(log, EMPTY.(created := Some(created)));
    hide ReplayLog, ResetEntries, WholeEnd, Lines, LogMatches, Line, CommitOne, SessionAfter, Created;
    assert |Line(c, entries[0])| <= n by { CreatedLog(c, sessionId, created); }
    var k := CutLines(c, entries, n);
    ResetPrefixMatches(c, sessionId, created, now, k);
    assert log[..n][..WholeEnd(log[..n])] == log[..WholeEnd(log[..n])];
  }

  lemma CreatedLog(c: TextCodec, sessionId: string, created: int)
    ensures Created(c, sessionId, created).log == Line(c, Entry(created, Start(sessionId)))
  {
  }
}

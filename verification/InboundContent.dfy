/**
  What the durable log holds under the id of a delivered message, over every run of `InboundDelivery`
  (`render_inbound_batch` in `src/mewcode/teams/inbound.py`, `commit_inbound` in
  `src/mewcode/continuity/session_repository.py`).
*/
module InboundContents {
  import opened Wrappers
  import opened Chat
  import opened IdLists
  import opened Mailboxes
  import opened InboundBatches
  import opened SessionRecords
  import opened SessionLog
  import opened SessionStore
  import opened SessionRecovery
  import opened InboundDelivery
  import Pairing = ToolPairing

  // --- Messages in the log ------------------------------------------------------------------

  type Delivery = (string, ChatMessage)

  /** The ids of a record with the message at the same place. */
  function EntryPairs(e: Option<Entry>): set<Delivery> {
    if e.Some? && e.value.body.Inbound? then
      var b := e.value.body;
      set i | 0 <= i < |b.ids| && i < |b.messages| :: (b.ids[i], b.messages[i])
    else {}
  }

  /** The messages recorded under mailbox ids in the whole lines of a log. */
  function LogPairs(c: TextCodec, sessionId: string, log: Bytes): set<Delivery>
    decreases |log|
  {
    if NEWLINE !in log then {}
    else EntryPairs(ReadEntry(c, sessionId, log[..LineEnd(log)])) + LogPairs(c, sessionId, log[LineEnd(log)..])
  }

  lemma PairsNext(c: TextCodec, sessionId: string, log: Bytes)
    ensures NEWLINE !in log ==> LogPairs(c, sessionId, log) == {}
    ensures NEWLINE in log ==>
      LogPairs(c, sessionId, log)
      == EntryPairs(ReadEntry(c, sessionId, log[..LineEnd(log)])) + LogPairs(c, sessionId, log[LineEnd(log)..])
  {
  }

  lemma {:induction false} PairsJoin(c: TextCodec, sessionId: string, a: Bytes, b: Bytes)
    requires Whole(a)
    ensures LogPairs(c, sessionId, a + b) == LogPairs(c, sessionId, a) + LogPairs(c, sessionId, b)
    decreases |a|
  {
    hide LogPairs, EntryPairs, ReadEntry;
    PairsNext(c, sessionId, a);
    PairsNext(c, sessionId, a + b);
    if a == [] {
      assert a + b == b;
    } else {
      assert a[|a| - 1] in a;
      var n := LineEnd(a);
      LineEndJoin(a, b);
      WholeRest(a, n);
      hide LineEnd, Whole;
      PairsJoin(c, sessionId, a[n..], b);
    }
  }

  lemma PairsOfLine(c: TextCodec, sessionId: string, e: Entry)
    requires CodecOk(c) && GoodBody(sessionId, e.body)
    ensures LogPairs(c, sessionId, Line(c, e)) == EntryPairs(Some(e))
  {
    hide GoodBody, EntryPairs, LineEnd, LogPairs, CodecOk, Line, ReadEntry;
    ReadsBack(c, sessionId, e);
    LineShape(c, e);
    var line := Line(c, e);
    assert line[..|line|] == line && line[|line|..] == [];
    PairsNext(c, sessionId, line);
    PairsNext(c, sessionId, []);
  }

  lemma ReadsBack(c: TextCodec, sessionId: string, e: Entry)
    requires CodecOk(c) && GoodBody(sessionId, e.body)
    ensures ReadEntry(c, sessionId, Line(c, e)) == Some(e)
  {
    hide GoodBody, DecodeEntry, EncodeEntry;
    EntryRoundTrip(c, sessionId, e);
    var j := EncodeEntry(c, e);
    assert c.loads(c.dumps(j) + [NEWLINE]) == Some(j);
  }

  lemma PairsTorn(c: TextCodec, sessionId: string, log: Bytes)
    ensures LogPairs(c, sessionId, log) == LogPairs(c, sessionId, log[..WholeEnd(log)])
  {
    var n := WholeEnd(log);
    assert log == log[..n] + log[n..];
    PairsNext(c, sessionId, log[n..]);
    hide LogPairs;
    PairsJoin(c, sessionId, log[..n], log[n..]);
  }

  /** Every id in the log has a message. */
  lemma {:induction false} EveryIdHasOne(c: TextCodec, sessionId: string, log: Bytes)
    ensures forall id :: id in LogIds(c, sessionId, log) ==> exists p :: p in LogPairs(c, sessionId, log) && p.0 == id
    decreases |log|
  {
    hide ReadEntry, LogIds, LogPairs, LineEnd;
    LogIdsNext(c, sessionId, log);
    PairsNext(c, sessionId, log);
    if NEWLINE in log {
      var n := LineEnd(log);
      var entry := ReadEntry(c, sessionId, log[..n]);
      LineEndInside(log);
      ReadHasBoth(c, sessionId, log[..n]);
      EveryIdHasOne(c, sessionId, log[n..]);
      forall id | id in LogIds(c, sessionId, log) ensures exists p :: p in LogPairs(c, sessionId, log) && p.0 == id {
        if id in LogIds(c, sessionId, log[n..]) {
          var p :| p in LogPairs(c, sessionId, log[n..]) && p.0 == id;
        } else {
          var b := entry.value.body;
          var i :| 0 <= i < |b.ids| && b.ids[i] == id;
          assert (b.ids[i], b.messages[i]) in EntryPairs(entry);
        }
      }
    }
  }

  lemma LineEndInside(log: Bytes)
    requires NEWLINE in log
    ensures 0 < LineEnd(log) <= |log|
  {
  }

  /** A record that is read holds as many messages as ids. */
  lemma ReadHasBoth(c: TextCodec, sessionId: string, line: Bytes)
    ensures
      var e := ReadEntry(c, sessionId, line);
      e.Some? && e.value.body.Inbound? ==> |e.value.body.ids| == |e.value.body.messages|
  {
    hide DecodeMessages, DecodeIds, DecodeSkills, DecodePlan;
  }

  // --- What commits and repairs add ------------------------------------------------------------

  /** The deliveries that the record of a commit adds. */
  function AddedPairs(s: Session, x: Commit): set<Delivery>
    requires !x.ResetState?
  {
    var record := RecordFor(s, x);
    if record.Ok? && record.value.Some? then EntryPairs(Some(Entry(x.now, record.value.value))) else {}
  }

  lemma AttemptPairs(c: TextCodec, sessionId: string, st: Store, x: Commit)
    requires CodecOk(c) && LogMatches(c, sessionId, st) && GoodCommit(x) && !x.ResetState?
        && RecordFor(st.session, x).Ok?
    ensures LogPairs(c, sessionId, Attempt(c, sessionId, st, x).log)
         == LogPairs(c, sessionId, st.log) + AddedPairs(st.session, x)
  {
    hide LogPairs, EntryPairs, RecordFor, ReplayLog, GoodBody, CodecOk, GoodCommit, Line, SessionAfter;
    AttemptIs(c, sessionId, st, x);
    if RecordFor(st.session, x).value.Some? {
      var entry := Entry(x.now, RecordFor(st.session, x).value.value);
      GoodRecord(sessionId, st.session, x);
      PairsOfLine(c, sessionId, entry);
      PairsJoin(c, sessionId, st.log, Line(c, entry));
    }
  }

  /** Only the record of a batch adds any. */
  lemma OthersAddNone(s: Session, x: Commit)
    requires !x.CommitInbound? && !x.ResetState?
    ensures AddedPairs(s, x) == {}
  {
  }

  lemma BatchAdds(s: Session, x: Commit, messages: seq<ChatMessage>)
    requires x.CommitInbound? && |x.ids| >= 1 && NoDuplicates(x.ids) && "" !in x.ids && Elements(x.ids) !! s.delivered
    requires x.messages == s.messages + messages && |messages| == |x.ids|
    ensures AddedPairs(s, x) == set i | 0 <= i < |x.ids| :: (x.ids[i], messages[i])
  {
    RecordedIds(s, x);
    hide RecordFor, SessionAfter;
    assert x.messages[|s.messages|..] == messages;
  }

  lemma HistoryPairs(c: TextCodec, sessionId: string, st: Store, messages: seq<ChatMessage>, now: int)
    requires CodecOk(c) && LogMatches(c, sessionId, st) && GoodMessages(messages)
    ensures LogPairs(c, sessionId, Attempt(c, sessionId, st, CommitHistory(messages, now)).log)
         == LogPairs(c, sessionId, st.log)
  {
    var x := CommitHistory(messages, now);
    HistoryRecord(st.session, messages, now);
    assert GoodCommit(x);
    hide LogPairs, AddedPairs, RecordFor, LogMatches, GoodMessages, CodecOk, Attempt;
    AttemptPairs(c, sessionId, st, x);
    OthersAddNone(st.session, x);
  }

  lemma ReopenPairs(c: TextCodec, sessionId: string, log: Bytes, now: int)
    requires CodecOk(c) && SessionRecovery.Reopen(c, sessionId, log, now).Some?
    ensures LogPairs(c, sessionId, SessionRecovery.Reopen(c, sessionId, log, now).value.log)
         == LogPairs(c, sessionId, log)
  {
    hide ReplayLog, LogPairs, WholeEnd, GapNotice, Pairing.ValidPrefix, LogMatches, Attempt, CodecOk;
    var r := ReplayLog(c, sessionId, log);
    var valid := r.session.messages[..Pairing.ValidPrefix(r.session.messages)];
    SurvivorMatches(c, sessionId, log);
    PairsTorn(c, sessionId, log);
    NoticeHasRole(c, r.last.value, now);
    RepairsKeepPairs(c, sessionId, Survivor(c, sessionId, log), valid, GapNotice(c, r.last.value, now), now);
  }

  lemma RepairsKeepPairs(
      c: TextCodec, sessionId: string, st: Store, valid: seq<ChatMessage>, notice: ChatMessage, now: int)
    requires CodecOk(c) && LogMatches(c, sessionId, st) && GoodMessages(valid) && notice.role != ""
    ensures
      var repaired := Attempt(c, sessionId, st, CommitHistory(valid, now));
      && LogPairs(c, sessionId, repaired.log) == LogPairs(c, sessionId, st.log)
      && LogPairs(c, sessionId, Attempt(c, sessionId, repaired, CommitHistory(valid + [notice], now)).log)
         == LogPairs(c, sessionId, st.log)
  {
    hide ReplayLog, LogPairs, LogMatches, Attempt, CodecOk;
    HistoryPairs(c, sessionId, st, valid, now);
    HistoryAttempt(c, sessionId, st, valid, now);
    HistoryPairs(c, sessionId, Attempt(c, sessionId, st, CommitHistory(valid, now)), valid + [notice], now);
  }

  lemma TornPairs(c: TextCodec, sessionId: string, log: Bytes, e: Entry, n: nat)
    requires CodecOk(c) && Whole(log) && n < |Line(c, e)|
    ensures LogPairs(c, sessionId, log + Line(c, e)[..n]) == LogPairs(c, sessionId, log)
  {
    hide LogPairs, Line, CodecOk, WholeEnd;
    LineHasOneNewline(c, e);
    PairsNext(c, sessionId, Line(c, e)[..n]);
    PairsJoin(c, sessionId, log, Line(c, e)[..n]);
  }

  // --- Runs ------------------------------------------------------------------------------------------

  /** `x` delivers a posted message with this id. */
  ghost predicate Told(e: Env, mails: seq<Mail>, id: string, x: ChatMessage) {
    exists mail :: mail in mails && mail.id == id && Delivers(e.r, mail, e.limit, x)
  }

  ghost predicate AllTold(e: Env, mails: seq<Mail>, pairs: set<Delivery>) {
    forall p :: p in pairs ==> Told(e, mails, p.0, p.1)
  }

  ghost predicate PhaseTold(e: Env, mails: seq<Mail>, phase: Phase) {
    match phase
    case Looked(page) => forall mail :: mail in page ==> mail in mails
    case Polled(b) =>
      |b.ids| == |b.messages| && forall i :: 0 <= i < |b.ids| ==> Told(e, mails, b.ids[i], b.messages[i])
    case _ => true
  }

  ghost predicate Tells(e: Env, s: State) {
    AllTold(e, Mails(s.records), LogPairs(e.c, e.sessionId, s.log)) && PhaseTold(e, Mails(s.records), s.phase)
  }

  /** Posted messages stay. */
  lemma MailsStay(e: Env, s: State, event: Event)
    ensures forall mail :: mail in Mails(s.records) ==> mail in Mails(Step(e, s, event).records)
  {
    hide Allowed, Attempt, RecordFor, Line, SessionRecovery.Reopen, AppendRead, BatchOf, Page, Except, Mails;
    match event
    case Post(m) => if m.id !in MailIds(Mails(s.records)) { PostedAtEnd(s.records, m); }
    case MarkByTool(ids) => AppendReadMarks(s.records, ids);
    case Repair =>
      if s.live.Some? && s.phase.Looked? {
        AppendReadMarks(s.records, RepairIds(s.phase.page, s.live.value.delivered));
      }
    case Acknowledge => if s.phase.Recorded? { AppendReadMarks(s.records, s.phase.batch.ids); }
    case _ =>
  }

  lemma StillTold(e: Env, a: seq<Mail>, b: seq<Mail>, pairs: set<Delivery>, phase: Phase)
    requires AllTold(e, a, pairs) && PhaseTold(e, a, phase) && forall mail :: mail in a ==> mail in b
    ensures AllTold(e, b, pairs) && PhaseTold(e, b, phase)
  {
    hide Delivers;
  }

  lemma PageIsPosted(e: Env, records: seq<MailRecord>)
    ensures forall mail :: mail in Page(e, records) ==> mail in Mails(records)
  {
    hide Mails, ReadIds;
    ExceptIsPart(Mails(records), ReadIds(records));
  }

  lemma {:induction false} ExceptIsPart(mails: seq<Mail>, skip: set<string>)
    ensures forall mail :: mail in Except(mails, skip) ==> mail in mails
  {
    if mails != [] {
      ExceptIsPart(mails[1..], skip);
      assert mails == [mails[0]] + mails[1..];
    }
  }

  lemma BatchIsTold(e: Env, mails: seq<Mail>, fresh_: seq<Mail>)
    requires EnvOk(e) && fresh_ != [] && forall mail :: mail in fresh_ ==> mail in mails
    ensures PhaseTold(e, mails, Polled(BatchOf(e.r, fresh_, e.limit).value))
  {
    hide BatchOf, Delivers, Mails;
    BatchMakesProgress(e.r, fresh_, e.limit);
    BatchDelivers(e.r, fresh_, e.limit);
    var b := BatchOf(e.r, fresh_, e.limit).value;
    forall i | 0 <= i < |b.ids| ensures Told(e, mails, b.ids[i], b.messages[i]) {
      assert fresh_[i] in fresh_;
    }
  }

  lemma RepairTells(e: Env, s: State)
    requires EnvOk(e) && Tells(e, s)
    ensures Tells(e, Step(e, s, Repair))
  {
    if s.live.Some? && s.phase.Looked? {
      MailsStay(e, s, Repair);
      var d := s.live.value.delivered;
      var unseen, after := Except(s.phase.page, d), Step(e, s, Repair);
      ExceptIsPart(s.phase.page, d);
      hide Except, BatchOf, AppendRead, Mails, LogPairs, Told;
      StillTold(e, Mails(s.records), Mails(after.records), LogPairs(e.c, e.sessionId, s.log), s.phase);
      BatchMakesProgress(e.r, unseen, e.limit);
      if unseen != [] { BatchIsTold(e, Mails(after.records), unseen); }
    }
  }

  lemma WrittenIsTold(e: Env, s: State, x: Commit)
    requires EnvOk(e) && Inv(e, s) && Tells(e, s) && Allowed(s, x)
    ensures AllTold(e, Mails(s.records), AddedPairs(s.live.value, x))
  {
    AllowedLive(s, x);
    if x.CommitInbound? {
      AllowedInbound(e, s, x);
      InboundIs(s, x);
      var b := s.phase.batch;
      hide Inv, EnvOk, Allowed, GoodCommit, AddedPairs, Mails, LogPairs, Told;
      BatchAdds(s.live.value, x, b.messages);
    } else {
      OthersAddNone(s.live.value, x);
    }
  }

  lemma InboundIs(s: State, x: Commit)
    requires Allowed(s, x) && x.CommitInbound?
    ensures s.phase.Polled? && x.ids == s.phase.batch.ids
    ensures x.messages == s.live.value.messages + s.phase.batch.messages
  {
  }

  lemma WriteTells(e: Env, s: State, x: Commit)
    requires EnvOk(e) && Inv(e, s) && Tells(e, s) && Allowed(s, x)
    ensures Tells(e, Step(e, s, Write(x)))
  {
    AllowedLive(s, x);
    WrittenIsTold(e, s, x);
    AllowedRecord(e, s, x);
    WriteStep(e, s, x);
    LiveMatches(e, s);
    hide Step, Inv, EnvOk, Allowed, Attempt, LogPairs, AddedPairs, RecordFor, GoodBody, SessionAfter, GoodCommit, Told,
        Mails;
    AttemptPairs(e.c, e.sessionId, Store(s.log, s.live.value), x);
  }

  lemma LiveMatches(e: Env, s: State)
    requires EnvOk(e) && Inv(e, s) && s.live.Some?
    ensures CodecOk(e.c) && LogMatches(e.c, e.sessionId, Store(s.log, s.live.value)) && Whole(s.log)
  {
    hide LogIds, DeliveryOk, PhaseOk, ReplayLog;
  }

  lemma TearTells(e: Env, s: State, x: Commit, n: nat)
    requires EnvOk(e) && Inv(e, s) && Tells(e, s) && Allowed(s, x)
    ensures Tells(e, Step(e, s, Tear(x, n)))
  {
    hide *;
    AllowedLive(s, x);
    AllowedRecord(e, s, x);
    TearStep(e, s, x, n);
    if RecordFor(s.live.value, x).value.Some? {
      var line := Line(e.c, Entry(x.now, RecordFor(s.live.value, x).value.value));
      TornTells(e, s, x, if n <= |line| then n else |line|);
    }
  }

  lemma TornTells(e: Env, s: State, x: Commit, n: nat)
    requires EnvOk(e) && Inv(e, s) && Tells(e, s) && Allowed(s, x)
    requires RecordFor(s.live.value, x).Ok? && RecordFor(s.live.value, x).value.Some?
    requires n <= |Line(e.c, Entry(x.now, RecordFor(s.live.value, x).value.value))|
    ensures
      var line := Line(e.c, Entry(x.now, RecordFor(s.live.value, x).value.value));
      Tells(e, State(s.records, s.tool, s.log + line[..n], None, Idle))
  {
    hide EnvOk, Inv, Allowed, LogPairs, AddedPairs, RecordFor, GoodBody, SessionAfter, GoodCommit, Told, Mails, Line,
        Attempt;
    hide LogMatches, CodecOk;
    AllowedLive(s, x);
    AllowedRecord(e, s, x);
    WrittenIsTold(e, s, x);
    LiveMatches(e, s);
    var entry := Entry(x.now, RecordFor(s.live.value, x).value.value);
    var line := Line(e.c, entry);
    if n < |line| {
      TornPairs(e.c, e.sessionId, s.log, entry, n);
    } else {
      AttemptPairs(e.c, e.sessionId, Store(s.log, s.live.value), x);
      AttemptIs(e.c, e.sessionId, Store(s.log, s.live.value), x);
      assert line[..|line|] == line;
    }
  }

  lemma ReopenTells(e: Env, s: State, now: int)
    requires EnvOk(e) && Tells(e, s)
    ensures Tells(e, Step(e, s, Event.Reopen(now)))
  {
    ReopenStep(e, s, now);
    hide Step, LogPairs, SessionRecovery.Reopen, Told, Mails;
    if s.live.None? && SessionRecovery.Reopen(e.c, e.sessionId, s.log, now).Some? {
      ReopenPairs(e.c, e.sessionId, s.log, now);
    }
  }

  /** Events that leave the log alone and no message on its way but a page. */
  lemma PlainTells(e: Env, s: State, event: Event)
    requires Tells(e, s)
    requires event.Post? || event.MarkByTool? || event.Look? || event.Acknowledge? || event.Abandon? || event.Crash?
    ensures Tells(e, Step(e, s, event))
  {
    MailsStay(e, s, event);
    PageIsPosted(e, s.records);
    var after := Step(e, s, event);
    hide LogPairs, Told, Mails, Page, AppendRead;
    StillTold(e, Mails(s.records), Mails(after.records), LogPairs(e.c, e.sessionId, s.log), s.phase);
  }

  lemma StepTells(e: Env, s: State, event: Event)
    requires EnvOk(e) && Inv(e, s) && Tells(e, s)
    ensures Tells(e, Step(e, s, event))
  {
    hide Tells, Inv, EnvOk, Allowed, Attempt, RecordFor, Line, SessionRecovery.Reopen, AppendRead, BatchOf, Page,
        Except;
    match event
    case Repair => RepairTells(e, s);
    case Write(x) => if Allowed(s, x) { WriteTells(e, s, x); }
    case Tear(x, n) => if Allowed(s, x) { TearTells(e, s, x, n); }
    case Reopen(now) => ReopenTells(e, s, now);
    case _ => PlainTells(e, s, event);
  }

  lemma {:induction false} RunTells(e: Env, s: State, events: seq<Event>)
    requires EnvOk(e) && Inv(e, s) && Tells(e, s)
    ensures Tells(e, Run(e, s, events))
    decreases |events|
  {
    hide Inv, Step, Tells;
    if events != [] {
      RunTells(e, s, events[..|events| - 1]);
      InboundDelivery.RunKeeps(e, s, events[..|events| - 1]);
      StepTells(e, Run(e, s, events[..|events| - 1]), events[|events| - 1]);
    }
  }

  /**
    Over every run: the message that the durable log holds under a mailbox id delivers the posted message with that
    id, whatever crashes and repairs came between, and under every id it holds one.
  */
  lemma LogTellsPosts(e: Env, created: int, events: seq<Event>)
    requires EnvOk(e)
    ensures
      var s := Run(e, InboundDelivery.Start(e, created), events);
      var pairs := LogPairs(e.c, e.sessionId, s.log);
      && (forall id :: id in LogIds(e.c, e.sessionId, s.log) ==> exists p :: p in pairs && p.0 == id)
      && (forall p :: p in pairs ==>
            exists mail :: mail in Mails(s.records) && mail.id == p.0 && Delivers(e.r, mail, e.limit, p.1))
  {
    var start := InboundDelivery.Start(e, created);
    StartOk(e, created);
    NothingTold(e, created);
    hide InboundDelivery.Start, Inv, LogPairs, LogIds, Mails, Delivers;
    RunTells(e, start, events);
    var s := Run(e, start, events);
    EveryIdHasOne(e.c, e.sessionId, s.log);
    hide Run;
    forall p | p in LogPairs(e.c, e.sessionId, s.log)
      ensures exists mail :: mail in Mails(s.records) && mail.id == p.0 && Delivers(e.r, mail, e.limit, p.1)
    {
      assert Told(e, Mails(s.records), p.0, p.1);
    }
  }

  lemma NothingTold(e: Env, created: int)
    requires EnvOk(e)
    ensures Tells(e, InboundDelivery.Start(e, created))
  {
    PairsOfLine(e.c, e.sessionId, Entry(created, SessionRecords.Start(e.sessionId)));
  }
}

/**
  Delivery of mailbox messages into a session, from posting to the durable log, over every
  interleaving of posting, polling, committing, acknowledging, crashing and reopening
  (`poll` and `acknowledge` in `src/mewcode/teams/inbound.py`, the loop head of
  `src/mewcode/agent/runner.py`, `commit_inbound` in `src/mewcode/continuity/session_repository.py`).
*/
module InboundDelivery {
  import opened Wrappers
  import opened Chat
  import opened IdLists
  import opened Mailboxes
  import opened InboundBatches
  import opened SessionRecords
  import opened SessionLog
  import opened SessionStore
  import opened SessionRecovery
  import Pairing = ToolPairing

  // --- Ids in the log -------------------------------------------------------------------

  function EntryIds(e: Option<Entry>): seq<string> {
    if e.Some? && e.value.body.Inbound? then e.value.body.ids else []
  }

  /** The mailbox ids recorded in the whole lines of a log, in order and with repetition. */
  function LogIds(c: TextCodec, sessionId: string, log: Bytes): seq<string>
    decreases |log|
  {
    if NEWLINE !in log then []
    else EntryIds(ReadEntry(c, sessionId, log[..LineEnd(log)])) + LogIds(c, sessionId, log[LineEnd(log)..])
  }

  lemma LogIdsNext(c: TextCodec, sessionId: string, log: Bytes)
    ensures NEWLINE !in log ==> LogIds(c, sessionId, log) == []
    ensures NEWLINE in log ==>
      LogIds(c, sessionId, log)
      == EntryIds(ReadEntry(c, sessionId, log[..LineEnd(log)])) + LogIds(c, sessionId, log[LineEnd(log)..])
  {
  }

  lemma {:induction false} LogIdsJoin(c: TextCodec, sessionId: string, a: Bytes, b: Bytes)
    requires Whole(a)
    ensures LogIds(c, sessionId, a + b) == LogIds(c, sessionId, a) + LogIds(c, sessionId, b)
    decreases |a|
  {
    hide LogIds, EntryIds, ReadEntry;
    LogIdsNext(c, sessionId, a);
    LogIdsNext(c, sessionId, a + b);
    if a == [] {
      assert a + b == b;
    } else {
      assert a[|a| - 1] in a;
      var n := LineEnd(a);
      LineEndJoin(a, b);
      WholeRest(a, n);
      hide LineEnd, Whole;
      LogIdsJoin(c, sessionId, a[n..], b);
    }
  }

  lemma LogIdsOfLine(c: TextCodec, sessionId: string, e: Entry)
    requires CodecOk(c) && GoodBody(sessionId, e.body)
    ensures LogIds(c, sessionId, Line(c, e)) == EntryIds(Some(e))
  {
    EntryRoundTrip(c, sessionId, e);
    hide GoodBody, DecodeEntry, EncodeEntry;
    var j, line := EncodeEntry(c, e), Line(c, e);
    assert c.loads(c.dumps(j) + [NEWLINE]) == Some(j) && NEWLINE !in c.dumps(j);
    assert line[..|line| - 1] == c.dumps(j);
    LineEndIs(line, |line|);
    assert line[..|line|] == line && line[|line|..] == [];
  }

  /** A torn last line holds no ids. */
  lemma LogIdsTorn(c: TextCodec, sessionId: string, log: Bytes)
    ensures LogIds(c, sessionId, log) == LogIds(c, sessionId, log[..WholeEnd(log)])
  {
    var n := WholeEnd(log);
    assert log == log[..n] + log[n..];
    LogIdsJoin(c, sessionId, log[..n], log[n..]);
  }

  // --- The machine ------------------------------------------------------------------------

  /** Constants of one participant: `page` is the page limit, `limit` the batch limit in bytes. */
  datatype Env = Env(c: TextCodec, sessionId: string, r: Rendering, page: nat, limit: nat)

  ghost predicate EnvOk(e: Env) {
    CodecOk(e.c) && 1 <= e.page <= 1000 && 512 <= e.limit
  }

  /** Where the run stands between two suspension points. */
  datatype Phase =
    | Idle
    | Looked(page: seq<Mail>)       // `poll` holds a page of unread messages
    | Polled(batch: Batch)          // `poll` returned a batch
    | Recorded(batch: Batch)        // its messages and ids are committed

  /** `tool` holds the ids that the agent marked read itself, with its message tool. */
  datatype State = State(records: seq<MailRecord>, tool: set<string>, log: Bytes, live: Option<Session>, phase: Phase)

  datatype Event =
    | Post(mail: Mail)
    | MarkByTool(ids: seq<string>)
    | Look
    | Repair
    | Write(x: Commit)
    | Acknowledge
    | Abandon                       // the run ends, its session stays open
    | Crash
    | Tear(x: Commit, n: nat)       // a crash or a failed write after `n` bytes of a record
    | Reopen(now: int)

  function Page(e: Env, records: seq<MailRecord>): seq<Mail> {
    FirstUnread(records, e.page)
  }

  /** The commits a run makes: any good ones outside PLAN mode, and that of the batch it polled. */
  predicate Allowed(s: State, x: Commit) {
    s.live.Some? &&
    match x
    case CommitHistory(messages, _) => GoodMessages(messages) && (s.phase.Idle? || s.phase.Polled?)
    case CommitPlan(plan, _) => GoodPlan(plan) && s.phase.Idle?
    case CommitSkills(skills, _) => GoodSkills(skills) && s.phase.Idle?
    case CommitInbound(messages, ids, _) =>
      s.phase.Polled? && ids == s.phase.batch.ids && messages == s.live.value.messages + s.phase.batch.messages
    case ResetState(_) => false
  }

  function Step(e: Env, s: State, event: Event): State {
    match event
    case Post(m) =>
      if m.id == "" || m.id in MailIds(Mails(s.records)) then s else s.(records := s.records + [Posted(m)])
    case MarkByTool(ids) =>
      if s.live.None? || !s.phase.Idle? then s
      else s.(records := AppendRead(s.records, ids),
              tool := s.tool + Elements(ids) * Elements(MailIds(Mails(s.records))))
    case Look =>
      if s.live.None? || !s.phase.Idle? then s else s.(phase := Looked(Page(e, s.records)))
    case Repair =>
      if s.live.None? || !s.phase.Looked? then s
      else
        var delivered := s.live.value.delivered;
        var batch := BatchOf(e.r, Except(s.phase.page, delivered), e.limit);
        s.(records := AppendRead(s.records, RepairIds(s.phase.page, delivered)),
           phase := if batch.Some? then Polled(batch.value) else Idle)
    case Write(x) =>
      if !Allowed(s, x) then s
      else
        var after := Attempt(e.c, e.sessionId, Store(s.log, s.live.value), x);
        s.(log := after.log, live := Some(after.session),
           phase := if x.CommitInbound? then Recorded(s.phase.batch) else s.phase)
    case Acknowledge =>
      if !s.phase.Recorded? then s else s.(records := AppendRead(s.records, s.phase.batch.ids), phase := Idle)
    case Abandon => s.(phase := Idle)
    case Crash => s.(live := None, phase := Idle)
    case Tear(x, n) =>
      if !Allowed(s, x) || RecordFor(s.live.value, x).Err? || RecordFor(s.live.value, x).value.None? then s
      else
        var line := Line(e.c, Entry(x.now, RecordFor(s.live.value, x).value.value));
        s.(log := s.log + line[..if n <= |line| then n else |line|], live := None, phase := Idle)
    case Reopen(now) =>
      if s.live.Some? then s
      else
        match SessionRecovery.Reopen(e.c, e.sessionId, s.log, now)
        case None => s
        case Some(st) => s.(log := st.log, live := Some(st.session))
  }

  function Start(e: Env, created: int): State {
    var st := Created(e.c, e.sessionId, created);
    State([], {}, st.log, Some(st.session), Idle)
  }

  function Run(e: Env, s: State, events: seq<Event>): State
    decreases |events|
  {
    if events == [] then s else Step(e, Run(e, s, events[..|events| - 1]), events[|events| - 1])
  }

  /** A run is its events one after the other. */
  lemma {:induction false} RunJoin(e: Env, s: State, a: seq<Event>, b: seq<Event>)
    ensures Run(e, s, a + b) == Run(e, Run(e, s, a), b)
    ensures |b| == 1 ==> Run(e, s, b) == Step(e, s, b[0])
    decreases |b|
  {
    hide Step;
    if b == [] {
      assert a + b == a;
    } else {
      assert (a + b)[..|a + b| - 1] == a + b[..|b| - 1];
      RunJoin(e, s, a, b[..|b| - 1]);
      if |b| == 1 { assert b[..0] == []; }
    }
  }

  /** A fresh message is posted at the end; the agent itself marks exactly the known ones it names, between turns. */
  lemma OthersAct(e: Env, s: State, m: Mail, ids: seq<string>)
    ensures
      var p := Step(e, s, Post(m));
      && p == s.(records := p.records) && ReadIds(p.records) == ReadIds(s.records)
      && Mails(p.records) == Mails(s.records) + if m.id != "" && m.id !in MailIds(Mails(s.records)) then [m] else []
    ensures
      var q, known := Step(e, s, MarkByTool(ids)), Elements(ids) * Elements(MailIds(Mails(s.records)));
      && q == s.(records := q.records, tool := q.tool) && Mails(q.records) == Mails(s.records)
      && (s.live.Some? && s.phase.Idle?
          ==> q.tool == s.tool + known && ReadIds(q.records) == ReadIds(s.records) + known)
      && (s.live.None? || !s.phase.Idle? ==> q == s)
  {
    if m.id !in MailIds(Mails(s.records)) { PostedAtEnd(s.records, m); }
    AppendReadMarks(s.records, ids);
    hide Mails, ReadIds, AppendRead, MailIds, Elements;
    assert Mails(s.records) + [] == Mails(s.records);
  }

  // --- What every step keeps ------------------------------------------------------------------

  function Posts(records: seq<MailRecord>): seq<string> {
    MailIds(Mails(records))
  }

  /** The log and the binding tell the same deliveries. */
  ghost predicate LogOk(e: Env, log: Bytes, live: Option<Session>) {
    && (live.Some? ==> LogMatches(e.c, e.sessionId, Store(log, live.value)))
    && ReplayLog(e.c, e.sessionId, log).session.delivered == Elements(LogIds(e.c, e.sessionId, log))
  }

  /** Posted ids `m`, ids recorded in the log `l`, ids marked read. */
  predicate DeliveryOk(m: seq<string>, l: seq<string>, read: set<string>, tool: set<string>) {
    && NoDuplicates(m) && "" !in m
    && l == Keep(m, Elements(l))
    && Before(m, Elements(l), Elements(l) + tool)
    && read <= Elements(l) + tool && tool <= read
  }

  /** The ids `b` on their way are posted in that order, and nothing before them is passed over. */
  predicate OnTheWay(m: seq<string>, b: seq<string>, known: set<string>, tool: set<string>) {
    b == Keep(m, Elements(b)) && Elements(b) !! tool && Before(m, Elements(b), Elements(b) + known)
  }

  predicate PhaseOk(m: seq<string>, delivered: set<string>, tool: set<string>, phase: Phase) {
    match phase
    case Idle => true
    case Looked(page) => OnTheWay(m, MailIds(page), delivered + tool, tool)
    case Polled(b) =>
      && OnTheWay(m, b.ids, delivered + tool, tool) && Elements(b.ids) !! delivered
      && |b.messages| == |b.ids| >= 1 && GoodMessages(b.messages)
    case Recorded(b) => Elements(b.ids) <= delivered
  }

  ghost predicate Inv(e: Env, s: State) {
    var l := LogIds(e.c, e.sessionId, s.log);
    && LogOk(e, s.log, s.live)
    && DeliveryOk(Posts(s.records), l, ReadIds(s.records), s.tool)
    && PhaseOk(Posts(s.records), Elements(l), s.tool, s.phase)
    && (s.live.None? ==> s.phase.Idle?)
  }

  // Posting and marking.

  lemma PostKeeps(m: seq<string>, id: string, l: seq<string>, read: set<string>, tool: set<string>, phase: Phase)
    requires DeliveryOk(m, l, read, tool) && PhaseOk(m, Elements(l), tool, phase)
    requires id != "" && id !in m
    ensures DeliveryOk(m + [id], l, read, tool) && PhaseOk(m + [id], Elements(l), tool, phase)
  {
    KeepMore(m, id, Elements(l));
    assert Elements(l) <= Elements(m);
    match phase
    case Idle =>
    case Looked(page) => StillOnTheWay(m, id, MailIds(page), Elements(l) + tool, tool);
    case Polled(b) => StillOnTheWay(m, id, b.ids, Elements(l) + tool, tool);
    case Recorded(b) =>
  }

  lemma StillOnTheWay(m: seq<string>, id: string, b: seq<string>, known: set<string>, tool: set<string>)
    requires OnTheWay(m, b, known, tool) && id !in m
    ensures OnTheWay(m + [id], b, known, tool)
  {
    KeepMore(m, id, Elements(b));
    assert Elements(b) <= Elements(m);
  }

  // Looking.

  lemma {:induction false} ExceptIds(mails: seq<Mail>, skip: set<string>)
    ensures MailIds(Except(mails, skip)) == Keep(MailIds(mails), Elements(MailIds(mails)) - skip)
  {
    if mails != [] {
      var id, ids, rest := mails[0].id, MailIds(mails), MailIds(mails[1..]);
      ExceptIds(mails[1..], skip);
      ExceptFirst(mails, skip);
      assert ids == [id] + rest;
      assert MailIds([mails[0]] + Except(mails[1..], skip)) == [id] + MailIds(Except(mails[1..], skip));
      hide MailIds, Except;
      assert Elements(ids) == {id} + Elements(rest);
      assert Elements(rest) * (Elements(ids) - skip) == Elements(rest) * (Elements(rest) - skip);
      KeepSame(rest, Elements(ids) - skip, Elements(rest) - skip);
    }
  }

  lemma PageOnTheWay(e: Env, records: seq<MailRecord>, l: seq<string>, tool: set<string>)
    requires DeliveryOk(Posts(records), l, ReadIds(records), tool)
    ensures OnTheWay(Posts(records), MailIds(Page(e, records)), Elements(l) + tool, tool)
  {
    var m, read, page := Posts(records), ReadIds(records), Page(e, records);
    ExceptIds(Mails(records), read);
    assert MailIds(page) == MailIds(Unread(records))[..|page|];
    PrefixOfKeep(m, Elements(m) - read, |page|);
    var p := MailIds(page);
    assert Elements(p) <= Elements(Keep(m, Elements(m) - read));
    forall i, j | 0 <= i < j < |m| && m[j] in Elements(p) ensures m[i] in Elements(p) + (Elements(l) + tool) {
      assert m[i] in p || m[i] !in Elements(m) - read;
    }
  }

  // Rendering the fresh messages.

  lemma FreshOnTheWay(m: seq<string>, l: seq<string>, tool: set<string>, page: seq<Mail>, n: nat)
    requires NoDuplicates(m) && OnTheWay(m, MailIds(page), Elements(l) + tool, tool)
    requires n <= |MailIds(Except(page, Elements(l)))|
    ensures
      var b := MailIds(Except(page, Elements(l)))[..n];
      OnTheWay(m, b, Elements(l) + tool, tool) && Elements(b) !! Elements(l) && Elements(b) <= Elements(MailIds(page))
  {
    var p, d := MailIds(page), Elements(l);
    ExceptIds(page, d);
    KeepKeep(m, Elements(p), Elements(p) - d);
    var s := Elements(p) * (Elements(p) - d);
    PrefixOfKeep(m, s, n);
    var b := Keep(m, s)[..n];
    assert Elements(b) <= Elements(Keep(m, s));
    forall i, j | 0 <= i < j < |m| && m[j] in Elements(b) ensures m[i] in Elements(b) + (d + tool) {
      assert m[i] in b || m[i] !in s;
      assert m[j] in Elements(p) && m[i] in Elements(p) + (d + tool);
    }
  }

  // Recording a batch.

  lemma RecordKeeps(m: seq<string>, l: seq<string>, b: seq<string>, read: set<string>, tool: set<string>)
    requires DeliveryOk(m, l, read, tool)
    requires OnTheWay(m, b, Elements(l) + tool, tool) && Elements(b) !! Elements(l)
    ensures DeliveryOk(m, l + b, read, tool)
    ensures Elements(l + b) == Elements(l) + Elements(b)
  {
    var d, more := Elements(l), Elements(b);
    assert Elements(l + b) == d + more;
    forall i, j | 0 <= i < j < |m| && m[i] in more ensures m[j] !in d {
      assert m[i] !in d + tool;
    }
    KeepJoin(m, d, more);
  }

  // The log.

  lemma RecordedIds(s: Session, x: Commit)
    requires x.CommitInbound? && |x.ids| >= 1 && NoDuplicates(x.ids) && "" !in x.ids && Elements(x.ids) !! s.delivered
    requires s.messages <= x.messages && |x.messages| == |s.messages| + |x.ids|
    ensures RecordFor(s, x) == Ok(Some(Inbound(Append, x.messages[|s.messages|..], x.ids)))
    ensures SessionAfter(s, x) == s.(messages := x.messages, delivered := s.delivered + Elements(x.ids))
  {
    forall i | 0 <= i < |x.ids| ensures x.ids[i] !in s.delivered {
      assert x.ids[i] in Elements(x.ids);
    }
    FreshIsFilter(x.ids, s.delivered);
  }

  /** The ids that the record of an allowed commit adds to the log. */
  function Added(x: Commit): seq<string> {
    if x.CommitInbound? then x.ids else []
  }

  lemma AllowedRecord(e: Env, s: State, x: Commit)
    requires EnvOk(e) && Inv(e, s) && Allowed(s, x)
    ensures GoodCommit(x) && RecordFor(s.live.value, x).Ok?
    ensures RecordFor(s.live.value, x).value.None? ==> Added(x) == []
    ensures
      var record := RecordFor(s.live.value, x).value;
      record.Some? ==> GoodBody(e.sessionId, record.value) && EntryIds(Some(Entry(x.now, record.value))) == Added(x)
    ensures SessionAfter(s.live.value, x).delivered == s.live.value.delivered + Elements(Added(x))
  {
    hide Inv, EnvOk, GoodMessages, GoodPlan, GoodSkills, GoodBody;
    if x.CommitInbound? {
      AllowedInbound(e, s, x);
      InboundRecord(e, s.live.value, x);
    } else {
      OtherRecord(e, s, x);
    }
  }

  lemma OtherRecord(e: Env, s: State, x: Commit)
    requires Allowed(s, x) && !x.CommitInbound?
    ensures GoodCommit(x) && RecordFor(s.live.value, x).Ok? && Added(x) == []
    ensures
      var record := RecordFor(s.live.value, x).value;
      record.Some? ==> GoodBody(e.sessionId, record.value) && EntryIds(Some(Entry(x.now, record.value))) == []
    ensures SessionAfter(s.live.value, x).delivered == s.live.value.delivered
  {
    hide GoodMessages, GoodPlan, GoodSkills, GoodBody;
    if RecordFor(s.live.value, x).value.Some? { GoodRecord(e.sessionId, s.live.value, x); }
  }

  lemma InboundRecord(e: Env, s: Session, x: Commit)
    requires GoodCommit(x) && x.CommitInbound? && |x.ids| >= 1 && GoodIds(x.ids) && Elements(x.ids) !! s.delivered
    requires s.messages <= x.messages && |x.messages| == |s.messages| + |x.ids|
    ensures RecordFor(s, x).Ok? && RecordFor(s, x).value.Some? && Added(x) == x.ids
    ensures
      var record := RecordFor(s, x).value.value;
      GoodBody(e.sessionId, record) && EntryIds(Some(Entry(x.now, record))) == x.ids
    ensures SessionAfter(s, x).delivered == s.delivered + Elements(x.ids)
  {
    RecordedIds(s, x);
    hide GoodMessages, RecordFor, SessionAfter;
    GoodRecord(e.sessionId, s, x);
  }

  /** A polled batch holds new, distinct ids, and its messages extend the session. */
  lemma AllowedInbound(e: Env, s: State, x: Commit)
    requires EnvOk(e) && Inv(e, s) && Allowed(s, x) && x.CommitInbound?
    ensures GoodCommit(x) && |x.ids| >= 1 && GoodIds(x.ids) && Elements(x.ids) !! s.live.value.delivered
    ensures s.live.value.messages <= x.messages && |x.messages| == |s.live.value.messages| + |x.ids|
  {
    var m, b := Posts(s.records), s.phase.batch;
    MessagesGood(e, s);
    hide LogOk, LogIds, Posts, ReadIds;
    KeepDistinct(m, Elements(b.ids));
    assert Elements(b.ids) <= Elements(m) && "" !in Elements(m);
    assert "" !in b.ids;
  }

  /** What a binding holds came from a replay: every message has a role. */
  lemma MessagesGood(e: Env, s: State)
    requires Inv(e, s) && s.live.Some?
    ensures GoodMessages(s.live.value.messages)
    ensures s.live.value.delivered == Elements(LogIds(e.c, e.sessionId, s.log))
  {
    ReplayIsGood(e.c, e.sessionId, NOTHING, s.log, 0);
  }

  lemma WriteLog(e: Env, s: State, x: Commit)
    requires EnvOk(e) && Inv(e, s) && Allowed(s, x)
    ensures
      var after := Attempt(e.c, e.sessionId, Store(s.log, s.live.value), x);
      && LogIds(e.c, e.sessionId, after.log) == LogIds(e.c, e.sessionId, s.log) + Added(x)
      && LogOk(e, after.log, Some(after.session))
  {
    AllowedRecord(e, s, x);
    MessagesGood(e, s);
    StoreWrites(e, Store(s.log, s.live.value), x, Added(x));
  }

  lemma StoreWrites(e: Env, st: Store, x: Commit, ids: seq<string>)
    requires CodecOk(e.c) && LogMatches(e.c, e.sessionId, st) && GoodCommit(x) && !x.ResetState?
        && RecordFor(st.session, x).Ok?
    requires
      var record := RecordFor(st.session, x).value;
      && (record.Some? ==> GoodBody(e.sessionId, record.value) && EntryIds(Some(Entry(x.now, record.value))) == ids)
      && (record.None? ==> ids == [])
    requires SessionAfter(st.session, x).delivered == st.session.delivered + Elements(ids)
    requires st.session.delivered == Elements(LogIds(e.c, e.sessionId, st.log))
    ensures
      var after := Attempt(e.c, e.sessionId, st, x);
      && LogIds(e.c, e.sessionId, after.log) == LogIds(e.c, e.sessionId, st.log) + ids
      && LogOk(e, after.log, Some(after.session))
  {
    hide GoodBody, RecordFor, LogIds, EntryIds, SessionAfter, ReplayLog, Line, CodecOk, GoodCommit, Attempt;
    StoreMatches(e, st, x);
    AttemptIs(e.c, e.sessionId, st, x);
    RecordTellsCommit(st.session, x);
    var record, before := RecordFor(st.session, x).value, LogIds(e.c, e.sessionId, st.log);
    assert Elements(before + ids) == Elements(before) + Elements(ids);
    if record.Some? {
      var entry := Entry(x.now, record.value);
      LogIdsOfLine(e.c, e.sessionId, entry);
      LogIdsJoin(e.c, e.sessionId, st.log, Line(e.c, entry));
    } else {
      assert before + [] == before;
    }
  }

  lemma StoreMatches(e: Env, st: Store, x: Commit)
    requires CodecOk(e.c) && LogMatches(e.c, e.sessionId, st) && GoodCommit(x) && !x.ResetState?
    requires RecordFor(st.session, x).Ok?
    ensures
      var after := Attempt(e.c, e.sessionId, st, x);
      LogMatches(e.c, e.sessionId, after) && ReplayLog(e.c, e.sessionId, after.log).session == after.session
  {
    hide RecordFor, ReplayLog, SessionAfter, Line, CodecOk, GoodCommit;
    GoodCommitKeeps(e.c, e.sessionId, st, x);
  }

  // Crashing inside a write.

  lemma TearLog(e: Env, s: State, x: Commit, n: nat)
    requires EnvOk(e) && Inv(e, s) && Allowed(s, x) && RecordFor(s.live.value, x).Ok?
        && RecordFor(s.live.value, x).value.Some?
    requires n <= |Line(e.c, Entry(x.now, RecordFor(s.live.value, x).value.value))|
    ensures
      var line := Line(e.c, Entry(x.now, RecordFor(s.live.value, x).value.value));
      var torn := s.log + line[..n];
      && LogIds(e.c, e.sessionId, torn) == LogIds(e.c, e.sessionId, s.log) + (if n == |line| then Added(x) else [])
      && LogOk(e, torn, None)
  {
    var st, entry := Store(s.log, s.live.value), Entry(x.now, RecordFor(s.live.value, x).value.value);
    var line := Line(e.c, entry);
    var torn := s.log + line[..n];
    if n == |line| {
      assert line[..n] == line;
      WriteLog(e, s, x);
      assert torn == Attempt(e.c, e.sessionId, st, x).log;
    } else {
      TornLine(e, s.log, s.live.value, entry, n);
    }
  }

  lemma TornLine(e: Env, log: Bytes, session: Session, entry: Entry, n: nat)
    requires CodecOk(e.c) && n < |Line(e.c, entry)| && LogOk(e, log, Some(session))
    ensures
      var torn := log + Line(e.c, entry)[..n];
      LogIds(e.c, e.sessionId, torn) == LogIds(e.c, e.sessionId, log) && LogOk(e, torn, None)
  {
    var torn := log + Line(e.c, entry)[..n];
    LineHasOneNewline(e.c, entry);
    assert torn[..|log|] == log && torn[|log|..] == Line(e.c, entry)[..n];
    WholeEndIs(torn, |log|);
    LogIdsTorn(e.c, e.sessionId, torn);
    TornReplay(e.c, e.sessionId, torn);
    hide ReplayLog, LogIds, WholeEnd;
  }

  // Reopening.

  lemma HistoryRecord(s: Session, messages: seq<ChatMessage>, now: int)
    ensures
      var record := RecordFor(s, CommitHistory(messages, now));
      record.Ok? && (record.value.Some? ==> record.value.value.History?)
  {
  }

  lemma HistoryIds(e: Env, st: Store, messages: seq<ChatMessage>, now: int)
    requires CodecOk(e.c) && LogMatches(e.c, e.sessionId, st) && GoodMessages(messages)
    ensures LogIds(e.c, e.sessionId, Attempt(e.c, e.sessionId, st, CommitHistory(messages, now)).log)
        == LogIds(e.c, e.sessionId, st.log)
  {
    var x := CommitHistory(messages, now);
    HistoryRecord(st.session, messages, now);
    assert GoodCommit(x);
    hide LogIds, ReplayLog, GoodBody, RecordFor, Attempt, Line, CodecOk, GoodMessages, GoodCommit;
    AttemptIs(e.c, e.sessionId, st, x);
    if RecordFor(st.session, x).value.Some? {
      var entry := Entry(now, RecordFor(st.session, x).value.value);
      GoodRecord(e.sessionId, st.session, x);
      LogIdsOfLine(e.c, e.sessionId, entry);
      LogIdsJoin(e.c, e.sessionId, st.log, Line(e.c, entry));
      assert LogIds(e.c, e.sessionId, st.log) + [] == LogIds(e.c, e.sessionId, st.log);
    }
  }

  lemma ReopenIds(e: Env, log: Bytes, now: int)
    requires CodecOk(e.c) && SessionRecovery.Reopen(e.c, e.sessionId, log, now).Some?
    ensures LogIds(e.c, e.sessionId, SessionRecovery.Reopen(e.c, e.sessionId, log, now).value.log)
        == LogIds(e.c, e.sessionId, log)
  {
    hide ReplayLog, LogIds, WholeEnd, GapNotice, Pairing.ValidPrefix, LogMatches, Attempt, CodecOk;
    var r := ReplayLog(e.c, e.sessionId, log);
    var valid := r.session.messages[..Pairing.ValidPrefix(r.session.messages)];
    SurvivorMatches(e.c, e.sessionId, log);
    LogIdsTorn(e.c, e.sessionId, log);
    NoticeHasRole(e.c, r.last.value, now);
    RepairIdsKept(e, Survivor(e.c, e.sessionId, log), valid, GapNotice(e.c, r.last.value, now), now);
  }

  lemma ReopenLog(e: Env, log: Bytes, now: int)
    requires CodecOk(e.c) && LogOk(e, log, None) && SessionRecovery.Reopen(e.c, e.sessionId, log, now).Some?
    ensures
      var st := SessionRecovery.Reopen(e.c, e.sessionId, log, now).value;
      LogIds(e.c, e.sessionId, st.log) == LogIds(e.c, e.sessionId, log) && LogOk(e, st.log, Some(st.session))
  {
    ReopenIds(e, log, now);
    ReopenRepairs(e.c, e.sessionId, log, now);
    var st := SessionRecovery.Reopen(e.c, e.sessionId, log, now).value;
    assert st.session.delivered == Elements(LogIds(e.c, e.sessionId, log));
    assert ReplayLog(e.c, e.sessionId, st.log).session == st.session;
    hide ReplayLog, LogIds, SessionRecovery.Reopen, LogMatches;
  }

  /** The repairs of a reopened session record no delivery. */
  lemma RepairIdsKept(e: Env, st: Store, valid: seq<ChatMessage>, notice: ChatMessage, now: int)
    requires CodecOk(e.c) && LogMatches(e.c, e.sessionId, st) && GoodMessages(valid) && notice.role != ""
    ensures
      var repaired := Attempt(e.c, e.sessionId, st, CommitHistory(valid, now));
      && LogIds(e.c, e.sessionId, repaired.log) == LogIds(e.c, e.sessionId, st.log)
      && LogIds(e.c, e.sessionId, Attempt(e.c, e.sessionId, repaired, CommitHistory(valid + [notice], now)).log)
         == LogIds(e.c, e.sessionId, st.log)
  {
    HistoryIds(e, st, valid, now);
    HistoryAttempt(e.c, e.sessionId, st, valid, now);
    hide ReplayLog, LogIds, LogMatches, Attempt;
    HistoryIds(e, Attempt(e.c, e.sessionId, st, CommitHistory(valid, now)), valid + [notice], now);
  }

  lemma NoticeHasRole(c: TextCodec, last: int, now: int)
    ensures GapNotice(c, last, now).role != ""
  {
  }

  // --- Every step keeps the invariant -------------------------------------------------------

  lemma PostKeepsInv(e: Env, s: State, x: Mail)
    requires EnvOk(e) && Inv(e, s)
    ensures Inv(e, Step(e, s, Post(x)))
  {
    var l, m := LogIds(e.c, e.sessionId, s.log), Posts(s.records);
    if x.id != "" && x.id !in m {
      PostedAtEnd(s.records, x);
      assert Posts(s.records + [Posted(x)]) == m + [x.id];
      PostKeeps(m, x.id, l, ReadIds(s.records), s.tool, s.phase);
      hide LogIds, LogOk, Mails, ReadIds, DeliveryOk, PhaseOk;
    }
  }

  /** Marking ids that are recorded or that the tool takes responsibility for. */
  lemma MarkKeeps(e: Env, s: State, ids: seq<string>, taken: set<string>)
    requires EnvOk(e) && Inv(e, s)
    requires Elements(ids) * Elements(Posts(s.records)) <= Elements(LogIds(e.c, e.sessionId, s.log)) + taken
    requires taken <= Elements(ids) * Elements(Posts(s.records))
    ensures Inv(e, s.(records := AppendRead(s.records, ids), tool := s.tool + taken, phase := Idle))
  {
    AppendReadMarks(s.records, ids);
    hide LogIds, LogOk, AppendRead, Mails, ReadIds, Keep;
  }

  lemma LookKeeps(e: Env, s: State)
    requires EnvOk(e) && Inv(e, s)
    ensures Inv(e, Step(e, s, Look))
  {
    if s.live.Some? && s.phase.Idle? {
      PageOnTheWay(e, s.records, LogIds(e.c, e.sessionId, s.log), s.tool);
      assert Step(e, s, Look) == s.(phase := Looked(Page(e, s.records)));
      hide LogIds, LogOk, OnTheWay, Step, Page, DeliveryOk;
    }
  }

  lemma RepairKeeps(e: Env, s: State)
    requires EnvOk(e) && Inv(e, s)
    ensures Inv(e, Step(e, s, Repair))
  {
    if s.live.Some? && s.phase.Looked? {
      var l, m := LogIds(e.c, e.sessionId, s.log), Posts(s.records);
      MessagesGood(e, s);
      var page, d := s.phase.page, s.live.value.delivered;
      var unseen, after := Except(page, d), Step(e, s, Repair);
      AppendReadMarks(s.records, RepairIds(page, d));
      assert DeliveryOk(m, l, ReadIds(after.records), s.tool);
      assert after.records == AppendRead(s.records, RepairIds(page, d)) && after.log == s.log && after.live == s.live
          && after.tool == s.tool;
      UnseenOnTheWay(e, m, l, s.tool, page);
      hide LogIds, LogOk, OnTheWay, Keep, Except, BatchOf, AppendRead, DeliveryOk;
    }
  }

  lemma UnseenOnTheWay(e: Env, m: seq<string>, l: seq<string>, tool: set<string>, page: seq<Mail>)
    requires NoDuplicates(m) && OnTheWay(m, MailIds(page), Elements(l) + tool, tool)
    ensures
      var batch := BatchOf(e.r, Except(page, Elements(l)), e.limit);
      PhaseOk(m, Elements(l), tool, if batch.Some? then Polled(batch.value) else Idle)
  {
    var unseen := Except(page, Elements(l));
    BatchMakesProgress(e.r, unseen, e.limit);
    hide BatchOf, OnTheWay, Except;
    if unseen != [] { FreshOnTheWay(m, l, tool, page, |BatchOf(e.r, unseen, e.limit).value.ids|); }
  }

  /** A step that changed the log by the ids of `x` and left the mailbox alone. */
  lemma AddedKeeps(e: Env, s: State, x: Commit, t: State)
    requires EnvOk(e) && Inv(e, s) && Allowed(s, x)
    requires t.records == s.records && t.tool == s.tool && LogOk(e, t.log, t.live) && (t.live.None? ==> t.phase.Idle?)
    requires
      var ids := LogIds(e.c, e.sessionId, t.log);
      ids == LogIds(e.c, e.sessionId, s.log) + Added(x) || (t.phase.Idle? && ids == LogIds(e.c, e.sessionId, s.log))
    requires t.phase.Idle? || t.phase == (if x.CommitInbound? then Recorded(s.phase.batch) else s.phase)
    ensures Inv(e, t)
  {
    var l, m := LogIds(e.c, e.sessionId, s.log), Posts(s.records);
    assert x.CommitInbound? ==> s.phase.Polled? && x.ids == s.phase.batch.ids;
    hide LogIds, LogOk, OnTheWay, DeliveryOk, Allowed, Posts, ReadIds;
    assert l + [] == l;
    if x.CommitInbound? { RecordKeeps(m, l, x.ids, ReadIds(s.records), s.tool); }
  }

  lemma WriteStep(e: Env, s: State, x: Commit)
    requires Allowed(s, x)
    ensures x.CommitInbound? ==> s.phase.Polled?
    ensures
      var after := Attempt(e.c, e.sessionId, Store(s.log, s.live.value), x);
      Step(e, s, Write(x))
      == State(s.records, s.tool, after.log, Some(after.session),
               if x.CommitInbound? then Recorded(s.phase.batch) else s.phase)
  {
    hide Attempt;
  }

  lemma WriteKeeps(e: Env, s: State, x: Commit)
    requires EnvOk(e) && Inv(e, s) && Allowed(s, x)
    ensures Inv(e, Step(e, s, Write(x)))
  {
    WriteLog(e, s, x);
    WriteStep(e, s, x);
    hide Step, LogIds, LogOk, Attempt, Inv, Allowed;
    AddedKeeps(e, s, x, Step(e, s, Write(x)));
  }

  lemma TearStep(e: Env, s: State, x: Commit, n: nat)
    requires Allowed(s, x) && RecordFor(s.live.value, x).Ok?
    ensures
      var record := RecordFor(s.live.value, x).value;
      Step(e, s, Tear(x, n))
      == if record.None? then s
         else
           var line := Line(e.c, Entry(x.now, record.value));
           State(s.records, s.tool, s.log + line[..if n <= |line| then n else |line|], None, Idle)
  {
    hide Line, RecordFor;
  }

  lemma TearKeeps(e: Env, s: State, x: Commit, n: nat)
    requires EnvOk(e) && Inv(e, s) && Allowed(s, x)
    ensures Inv(e, Step(e, s, Tear(x, n)))
  {
    AllowedLive(s, x);
    hide *;
    AllowedRecord(e, s, x);
    TearStep(e, s, x, n);
    if RecordFor(s.live.value, x).value.Some? {
      var line := Line(e.c, Entry(x.now, RecordFor(s.live.value, x).value.value));
      TornKeeps(e, s, x, if n <= |line| then n else |line|);
    }
  }

  lemma AllowedLive(s: State, x: Commit)
    requires Allowed(s, x)
    ensures s.live.Some? && !x.ResetState?
  {
  }

  lemma TornKeeps(e: Env, s: State, x: Commit, n: nat)
    requires EnvOk(e) && Inv(e, s) && Allowed(s, x)
    requires RecordFor(s.live.value, x).Ok? && RecordFor(s.live.value, x).value.Some?
    requires n <= |Line(e.c, Entry(x.now, RecordFor(s.live.value, x).value.value))|
    ensures
      var line := Line(e.c, Entry(x.now, RecordFor(s.live.value, x).value.value));
      Inv(e, State(s.records, s.tool, s.log + line[..n], None, Idle))
  {
    hide *;
    AllowedLive(s, x);
    var line := Line(e.c, Entry(x.now, RecordFor(s.live.value, x).value.value));
    TearLog(e, s, x, n);
    assert LogIds(e.c, e.sessionId, s.log) + [] == LogIds(e.c, e.sessionId, s.log);
    AddedKeeps(e, s, x, State(s.records, s.tool, s.log + line[..n], None, Idle));
  }

  lemma ReopenStep(e: Env, s: State, now: int)
    ensures
      var reopened := SessionRecovery.Reopen(e.c, e.sessionId, s.log, now);
      Step(e, s, Event.Reopen(now))
      == if s.live.Some? || reopened.None? then s
         else State(s.records, s.tool, reopened.value.log, Some(reopened.value.session), s.phase)
  {
    hide SessionRecovery.Reopen;
  }

  lemma ReopenKeeps(e: Env, s: State, now: int)
    requires EnvOk(e) && Inv(e, s)
    ensures Inv(e, Step(e, s, Event.Reopen(now)))
  {
    ReopenStep(e, s, now);
    hide Step, LogIds, SessionRecovery.Reopen, OnTheWay, DeliveryOk, LogMatches, ReplayLog;
    if s.live.None? && SessionRecovery.Reopen(e.c, e.sessionId, s.log, now).Some? {
      ReopenLog(e, s.log, now);
    }
  }

  lemma StepKeeps(e: Env, s: State, event: Event)
    requires EnvOk(e) && Inv(e, s)
    ensures Inv(e, Step(e, s, event))
  {
    hide Inv, Allowed, Attempt, RecordFor, Line, SessionRecovery.Reopen, AppendRead, BatchOf, Page, Except;
    match event
    case Post(x) => PostKeepsInv(e, s, x);
    case MarkByTool(ids) => MarkByToolKeeps(e, s, ids);
    case Acknowledge => AcknowledgeKeeps(e, s);
    case Look => LookKeeps(e, s);
    case Repair => RepairKeeps(e, s);
    case Write(x) => if Allowed(s, x) { WriteKeeps(e, s, x); }
    case Tear(x, n) => if Allowed(s, x) { TearKeeps(e, s, x, n); }
    case Reopen(now) => ReopenKeeps(e, s, now);
    case Abandon => StopKeeps(e, s);
    case Crash => StopKeeps(e, s);
  }

  lemma MarkByToolKeeps(e: Env, s: State, ids: seq<string>)
    requires EnvOk(e) && Inv(e, s)
    ensures Inv(e, Step(e, s, MarkByTool(ids)))
  {
    hide Inv, AppendRead;
    if s.live.Some? && s.phase.Idle? { MarkKeeps(e, s, ids, Elements(ids) * Elements(Posts(s.records))); }
  }

  lemma RecordedFacts(e: Env, s: State)
    requires Inv(e, s) && s.phase.Recorded?
    ensures Elements(s.phase.batch.ids) * Elements(Posts(s.records)) <= Elements(LogIds(e.c, e.sessionId, s.log))
  {
    hide LogOk, DeliveryOk, LogIds, Posts;
  }

  lemma AcknowledgeKeeps(e: Env, s: State)
    requires EnvOk(e) && Inv(e, s)
    ensures Inv(e, Step(e, s, Acknowledge))
  {
    hide Inv, AppendRead, LogIds, EnvOk, Posts;
    if s.phase.Recorded? {
      RecordedFacts(e, s);
      MarkKeeps(e, s, s.phase.batch.ids, {});
      assert s.tool + {} == s.tool;
    }
  }

  lemma StopKeeps(e: Env, s: State)
    requires Inv(e, s)
    ensures Inv(e, s.(phase := Idle)) && Inv(e, s.(live := None, phase := Idle))
  {
    hide LogIds, DeliveryOk, LogMatches, ReplayLog, OnTheWay;
  }

  lemma StartOk(e: Env, created: int)
    requires EnvOk(e)
    ensures Inv(e, Start(e, created))
  {
    var s := Start(e, created);
    CreatedMatches(e.c, e.sessionId, created);
    LogIdsOfLine(e.c, e.sessionId, Entry(created, SessionRecords.Start(e.sessionId)));
  }

  lemma {:induction false} RunKeeps(e: Env, s: State, events: seq<Event>)
    requires EnvOk(e) && Inv(e, s)
    ensures Inv(e, Run(e, s, events))
    decreases |events|
  {
    hide Inv, Step;
    if events != [] {
      RunKeeps(e, s, events[..|events| - 1]);
      StepKeeps(e, Run(e, s, events[..|events| - 1]), events[|events| - 1]);
    }
  }

  // --- What the runs guarantee ----------------------------------------------------------------

  /**
    Over every run: the durable log holds each posted id at most once and in posting order,
    and passes over an id only when the agent's own tool marked it read; a message marked read
    otherwise is already durable; the binding's delivered ids are those of the log, whatever
    history replacements and crashes came between.
  */
  lemma RunGuarantees(e: Env, created: int, events: seq<Event>)
    requires EnvOk(e)
    ensures
      var s := Run(e, Start(e, created), events);
      var log, posts := LogIds(e.c, e.sessionId, s.log), Posts(s.records);
      && NoDuplicates(log)
      && log == Keep(posts, Elements(log))
      && (forall i, j :: 0 <= i < j < |posts| && posts[j] in log ==> posts[i] in log || posts[i] in s.tool)
      && (forall id :: id in ReadIds(s.records) ==> id in log || id in s.tool)
      && (s.live.Some? ==> s.live.value.delivered == Elements(log))
      && ReplayLog(e.c, e.sessionId, s.log).session.delivered == Elements(log)
  {
    var s := Run(e, Start(e, created), events);
    var log, posts := LogIds(e.c, e.sessionId, s.log), Posts(s.records);
    StartOk(e, created);
    RunKeeps(e, Start(e, created), events);
    hide LogIds, ReplayLog, Run, PhaseOk;
    KeepDistinct(posts, Elements(log));
    assert forall id :: id in ReadIds(s.records) ==> id in Elements(log) + s.tool;
    forall i, j | 0 <= i < j < |posts| && posts[j] in log ensures posts[i] in log || posts[i] in s.tool {
      assert posts[j] in Elements(log);
    }
  }

  /** A run whose agent never marks messages itself delivers in posting order without a gap. */
  lemma DeliversInOrder(e: Env, created: int, events: seq<Event>)
    requires EnvOk(e) && forall event :: event in events ==> !event.MarkByTool?
    ensures
      var s := Run(e, Start(e, created), events);
      && LogIds(e.c, e.sessionId, s.log) <= Posts(s.records)
      && ReadIds(s.records) <= Elements(LogIds(e.c, e.sessionId, s.log))
  {
    var s := Run(e, Start(e, created), events);
    StartOk(e, created);
    RunKeeps(e, Start(e, created), events);
    NoToolNoMarks(e, Start(e, created), events);
    hide LogIds, ReplayLog, Run, PhaseOk, Keep;
    KeepIsPrefix(Posts(s.records), Elements(LogIds(e.c, e.sessionId, s.log)));
  }

  lemma {:induction false} NoToolNoMarks(e: Env, s: State, events: seq<Event>)
    requires s.tool == {} && forall event :: event in events ==> !event.MarkByTool?
    ensures Run(e, s, events).tool == {}
    decreases |events|
  {
    if events != [] { NoToolNoMarks(e, s, events[..|events| - 1]); }
  }

  // --- Polling makes progress -----------------------------------------------------------------

  /** A full turn of the loop head: poll, commit the batch, acknowledge it. */
  function Turn(e: Env, s: State, now: int): State {
    var polled := Step(e, Step(e, s, Look), Repair);
    if !polled.phase.Polled? || polled.live.None? then polled
    else
      var b := polled.phase.batch;
      Step(e, Step(e, polled, Write(CommitInbound(polled.live.value.messages + b.messages, b.ids, now))), Acknowledge)
  }

  function UnreadIds(records: seq<MailRecord>): set<string> {
    Elements(Posts(records)) - ReadIds(records)
  }

  lemma TurnKeeps(e: Env, s: State, now: int)
    requires EnvOk(e) && Inv(e, s)
    ensures Inv(e, Turn(e, s, now))
  {
    LookKeeps(e, s);
    RepairKeeps(e, Step(e, s, Look));
    hide Inv, Step;
    var polled := Step(e, Step(e, s, Look), Repair);
    if polled.phase.Polled? && polled.live.Some? {
      var b := polled.phase.batch;
      var x := CommitInbound(polled.live.value.messages + b.messages, b.ids, now);
      StepKeeps(e, polled, Write(x));
      StepKeeps(e, Step(e, polled, Write(x)), Acknowledge);
    }
  }

  /** The step of `poll` that marks what is already delivered and renders the rest. */
  lemma PollStep(e: Env, s: State)
    requires s.live.Some? && s.phase.Idle?
    ensures
      var page, d := Page(e, s.records), s.live.value.delivered;
      var batch := BatchOf(e.r, Except(page, d), e.limit);
      Step(e, Step(e, s, Look), Repair)
      == State(AppendRead(s.records, RepairIds(page, d)), s.tool, s.log, s.live,
               if batch.Some? then Polled(batch.value) else Idle)
  {
    hide Page, BatchOf, AppendRead, RepairIds;
  }

  /** What a turn of a live, idle run does, the whole new state. */
  lemma TurnStep(e: Env, s: State, now: int)
    requires EnvOk(e) && Inv(e, s) && s.live.Some? && s.phase.Idle?
    ensures
      var t, page, d := Turn(e, s, now), Page(e, s.records), s.live.value.delivered;
      var repaired, batch := AppendRead(s.records, RepairIds(page, d)), BatchOf(e.r, Except(page, d), e.limit);
      && t.live.Some? && t.phase.Idle? && t.tool == s.tool
      && LogIds(e.c, e.sessionId, t.log)
         == LogIds(e.c, e.sessionId, s.log) + (if batch.Some? then batch.value.ids else [])
      && t.records == if batch.Some? then AppendRead(repaired, batch.value.ids) else repaired
  {
    PollStep(e, s);
    var polled := Step(e, Step(e, s, Look), Repair);
    LookKeeps(e, s);
    RepairKeeps(e, Step(e, s, Look));
    hide Inv, Step, Page, AppendRead, RepairIds, BatchOf, Except, LogIds;
    assert LogIds(e.c, e.sessionId, s.log) + [] == LogIds(e.c, e.sessionId, s.log);
    if polled.phase.Polled? {
      var b := polled.phase.batch;
      var x := CommitInbound(polled.live.value.messages + b.messages, b.ids, now);
      assert Allowed(polled, x);
      WriteLog(e, polled, x);
      WriteStep(e, polled, x);
      AcknowledgeStep(e, Step(e, polled, Write(x)));
    }
  }

  lemma AcknowledgeStep(e: Env, s: State)
    requires s.phase.Recorded?
    ensures Step(e, s, Acknowledge) == s.(records := AppendRead(s.records, s.phase.batch.ids), phase := Idle)
  {
    hide AppendRead;
  }

  /**
    Progress: a turn loses no message, delivers a nonempty batch whenever the page shows an
    undelivered message, and leaves strictly fewer messages unread while there are any.
  */
  lemma TurnAdvances(e: Env, s: State, now: int)
    requires EnvOk(e) && Inv(e, s) && s.live.Some? && s.phase.Idle?
    ensures
      var t := Turn(e, s, now);
      && t.live.Some? && t.phase.Idle? && t.tool == s.tool && Posts(t.records) == Posts(s.records)
      && LogIds(e.c, e.sessionId, s.log) <= LogIds(e.c, e.sessionId, t.log)
      && (Except(Page(e, s.records), s.live.value.delivered) != [] ==>
            LogIds(e.c, e.sessionId, t.log) != LogIds(e.c, e.sessionId, s.log))
      && UnreadIds(t.records) <= UnreadIds(s.records)
      && (UnreadIds(s.records) != {} ==> UnreadIds(t.records) != UnreadIds(s.records))
  {
    var page, d := Page(e, s.records), s.live.value.delivered;
    var unseen := Except(page, d);
    TurnStep(e, s, now);
    BatchMakesProgress(e.r, unseen, e.limit);
    hide Inv, Turn, LogIds, BatchOf, Page, RepairIds;
    var repaired := AppendRead(s.records, RepairIds(page, d));
    AppendReadMarks(s.records, RepairIds(page, d));
    if unseen != [] { AppendReadMarks(repaired, BatchOf(e.r, unseen, e.limit).value.ids); }
    if UnreadIds(s.records) != {} {
      var id := FirstMarked(e, s.records, d);
      hide AppendRead, Mails, ReadIds;
      assert id in UnreadIds(s.records) && id !in UnreadIds(Turn(e, s, now).records);
    }
  }

  /** The first message that a turn marks read: delivered already, or first of the batch. */
  lemma FirstMarked(e: Env, records: seq<MailRecord>, d: set<string>) returns (id: string)
    requires UnreadIds(records) != {} && EnvOk(e)
    ensures id in UnreadIds(records)
    ensures
      var page := Page(e, records);
      var unseen := Except(page, d);
      id in Elements(RepairIds(page, d)) || (unseen != [] && id in Elements(BatchOf(e.r, unseen, e.limit).value.ids))
  {
    var page, m, read := Page(e, records), Posts(records), ReadIds(records);
    ExceptIds(Mails(records), read);
    var ids := MailIds(Unread(records));
    assert Elements(ids) == UnreadIds(records);
    NoElements(ids);
    assert page[0] == Unread(records)[0] && ids[0] == page[0].id && ids[0] in Elements(ids);
    var unseen := Except(page, d);
    BatchMakesProgress(e.r, unseen, e.limit);
    if page[0].id in d {
      id := page[0].id;
      assert MailIds(page)[0] == id && id in Elements(MailIds(page));
    } else {
      id := page[0].id;
      assert unseen[0] == page[0] && MailIds(unseen)[0] == id;
      assert BatchOf(e.r, unseen, e.limit).value.ids[0] == id;
    }
  }

  function Turns(e: Env, s: State, nows: seq<int>): State
    decreases |nows|
  {
    if nows == [] then s else Turn(e, Turns(e, s, nows[..|nows| - 1]), nows[|nows| - 1])
  }

  lemma SmallerSet<T>(a: set<T>, b: set<T>)
    requires a < b
    ensures |a| < |b|
  {
    assert b == a + (b - a);
  }

  lemma {:induction false} TurnsDrain(e: Env, s: State, nows: seq<int>)
    requires EnvOk(e) && Inv(e, s) && s.live.Some? && s.phase.Idle?
    ensures
      var t := Turns(e, s, nows);
      && Inv(e, t) && t.live.Some? && t.phase.Idle? && t.tool == s.tool && Posts(t.records) == Posts(s.records)
      && (UnreadIds(t.records) == {} || |UnreadIds(t.records)| + |nows| <= |UnreadIds(s.records)|)
    decreases |nows|
  {
    hide Inv, Turn, LogIds, Page, UnreadIds, Posts, EnvOk, Except;
    if nows != [] {
      var before := Turns(e, s, nows[..|nows| - 1]);
      TurnsDrain(e, s, nows[..|nows| - 1]);
      TurnAdvances(e, before, nows[|nows| - 1]);
      TurnKeeps(e, before, nows[|nows| - 1]);
      if UnreadIds(before.records) != {} {
        SmallerSet(UnreadIds(Turn(e, before, nows[|nows| - 1]).records), UnreadIds(before.records));
      }
    }
  }

  /** Enough turns without new posts deliver every message that the agent did not mark itself. */
  lemma EnoughTurnsDeliverAll(e: Env, s: State, nows: seq<int>)
    requires EnvOk(e) && Inv(e, s) && s.live.Some? && s.phase.Idle? && |nows| >= |UnreadIds(s.records)|
    ensures
      var t := Turns(e, s, nows);
      && Posts(t.records) == Posts(s.records)
      && forall id :: id in Posts(s.records) ==> id in LogIds(e.c, e.sessionId, t.log) || id in s.tool
  {
    TurnsDrain(e, s, nows);
    var t := Turns(e, s, nows);
    hide Turns, LogIds, Posts;
    assert UnreadIds(t.records) == {};
    forall id | id in Posts(s.records) ensures id in LogIds(e.c, e.sessionId, t.log) || id in s.tool {
      assert id !in UnreadIds(t.records);
      assert id in ReadIds(t.records);
    }
  }
}

/** A live session binding: fields that its commits update after appending to the file. */
module SessionBindings {
  import opened Wrappers
  import opened Chat
  import opened IdLists
  import opened SessionRecords
  import opened SessionLog
  import opened SessionStore

  datatype BindingError = Closed | Rejected(error: CommitError) | Persistence

  class SessionBinding {
    const codec: TextCodec
    const sessionId: string
    var log: Bytes                    // the file
    var messages: seq<ChatMessage>
    var plan: Option<StoredPlan>
    var skills: seq<Skill>
    var delivered: set<string>
    const created: Option<int>
    var closed: bool

    function Held(): Session
      reads this
    {
      Session(messages, plan, skills, delivered, created)
    }

    function View(): Store
      reads this
    {
      Store(log, Held())
    }

    constructor (codec: TextCodec, sessionId: string, st: Store)
      ensures View() == st && !closed && this.codec == codec && this.sessionId == sessionId
    {
      this.codec, this.sessionId := codec, sessionId;
      log, messages, plan, skills := st.log, st.session.messages, st.session.plan, st.session.skills;
      delivered, created, closed := st.session.delivered, st.session.created, false;
    }

    /** A replay of the file gives what the binding holds. */
    ghost predicate Valid()
      reads this
    {
      CodecOk(codec) && LogMatches(codec, sessionId, View())
    }

    /** A commit that raised for want of disk left the binding alone and some of its record in the file. */
    twostate predicate Torn(line: Bytes)
      reads this
    {
      && Held() == old(Held()) && closed == old(closed)
      && exists k :: 0 <= k <= |line| && log == old(log) + line[..k]
    }

    /** What a commit `x` may do: raise, or take the step of `CommitOne`, or leave a torn record. */
    twostate predicate Committed(x: Commit, new r: Result<(), BindingError>)
      requires !x.ResetState?
      reads this
    {
      var step := CommitOne(codec, sessionId, old(View()), x);
      closed == old(closed) &&
      match r
      case Ok(_) => !closed && step.Ok? && View() == step.value
      case Err(Closed) => closed && View() == old(View())
      case Err(Rejected(e)) => !closed && step == Err(e) && View() == old(View())
      case Err(Persistence) =>
        var record := RecordFor(old(Held()), x);
        !closed && record.Ok? && record.value.Some? && Torn(Line(codec, Entry(x.now, record.value.value)))
    }

    /** `_append_record`: each write stores what the system call accepts; 0 or the end of `writes` is an error. */
    method AppendRecord(payload: Bytes, writes: seq<nat>, synced: bool) returns (ok: bool)
      modifies this`log
      ensures ok ==> log == old(log) + payload
      ensures !ok ==> exists k :: 0 <= k <= |payload| && log == old(log) + payload[..k]
    {
      var sent, call := 0, 0;
      assert old(log) + payload[..0] == old(log);
      while sent < |payload|
        invariant 0 <= sent <= |payload| && 0 <= call <= |writes|
        invariant log == old(log) + payload[..sent]
        decreases |writes| - call
      {
        if call == |writes| || writes[call] == 0 {
          return false;
        }
        var written := if writes[call] <= |payload| - sent then writes[call] else |payload| - sent;
        log := log + payload[sent..sent + written];
        assert payload[..sent] + payload[sent..sent + written] == payload[..sent + written];
        sent, call := sent + written, call + 1;
      }
      assert payload[..sent] == payload;
      return synced;
    }

    method CommitHistory(
        candidate: seq<ChatMessage>, now: int, writes: seq<nat>, synced: bool) returns (r: Result<(), BindingError>)
      modifies this
      ensures Committed(Commit.CommitHistory(candidate, now), r)
      ensures old(Valid()) ==> Kept(codec, sessionId, old(View()), Commit.CommitHistory(candidate, now), r, View())
    {
      if closed {
        return Err(Closed);
      }
      if candidate == messages {
        return Ok(());
      }
      var operation, payload := Replace, candidate;
      if |candidate| > |messages| && candidate[..|messages|] == messages {
        operation, payload := Append, candidate[|messages|..];
      }
      var ok := AppendRecord(Line(codec, Entry(now, History(operation, payload))), writes, synced);
      if !ok {
        AppendFailed(codec, sessionId, old(View()), Commit.CommitHistory(candidate, now), View());
        return Err(Persistence);
      }
      messages := candidate;
      AppendDone(codec, sessionId, old(View()), Commit.CommitHistory(candidate, now), View());
      return Ok(());
    }

    method CommitInbound(candidate: seq<ChatMessage>, ids: seq<string>, now: int, writes: seq<nat>, synced: bool)
        returns (r: Result<(), BindingError>)
      modifies this
      ensures Committed(Commit.CommitInbound(candidate, ids, now), r)
      ensures old(Valid()) ==> Kept(codec, sessionId, old(View()), Commit.CommitInbound(candidate, ids, now), r, View())
    {
      if closed {
        return Err(Closed);
      }
      var newIds := FilterIds(ids, delivered);
      if newIds == [] {
        if candidate != messages {
          return Err(Rejected(RepeatedInboundChanged));
        }
        FreshIsFilter(ids, delivered);
        assert Elements([]) == {};
        return Ok(());
      }
      if |candidate| < |messages| || candidate[..|messages|] != messages {
        return Err(Rejected(InboundMustAppend));
      }
      var payload := candidate[|messages|..];
      if |payload| != |newIds| {
        return Err(Rejected(InboundMismatch));
      }
      if !GoodIds(newIds) {
        return Err(Rejected(InvalidInboundIds));
      }
      var ok := AppendRecord(Line(codec, Entry(now, Inbound(Append, payload, newIds))), writes, synced);
      if !ok {
        AppendFailed(codec, sessionId, old(View()), Commit.CommitInbound(candidate, ids, now), View());
        return Err(Persistence);
      }
      messages := candidate;
      delivered := delivered + Elements(newIds);
      AppendDone(codec, sessionId, old(View()), Commit.CommitInbound(candidate, ids, now), View());
      return Ok(());
    }

    static method FilterIds(ids: seq<string>, delivered: set<string>) returns (newIds: seq<string>)
      ensures newIds == Fresh(ids, delivered)
    {
      newIds := [];
      var i := 0;
      assert ids[0..] == ids;
      while i < |ids|
        invariant 0 <= i <= |ids|
        invariant newIds + Fresh(ids[i..], delivered) == Fresh(ids, delivered)
      {
        assert ids[i..][0] == ids[i] && ids[i..][1..] == ids[i + 1..];
        if ids[i] !in delivered {
          newIds := newIds + [ids[i]];
        }
        i := i + 1;
      }
    }

    method CommitPlan(
        pending: Option<StoredPlan>, now: int, writes: seq<nat>, synced: bool) returns (r: Result<(), BindingError>)
      modifies this
      ensures Committed(Commit.CommitPlan(pending, now), r)
      ensures old(Valid()) ==> Kept(codec, sessionId, old(View()), Commit.CommitPlan(pending, now), r, View())
    {
      if closed {
        return Err(Closed);
      }
      if pending == plan {
        return Ok(());
      }
      var ok := AppendRecord(Line(codec, Entry(now, PlanState(pending))), writes, synced);
      if !ok {
        AppendFailed(codec, sessionId, old(View()), Commit.CommitPlan(pending, now), View());
        return Err(Persistence);
      }
      plan := pending;
      AppendDone(codec, sessionId, old(View()), Commit.CommitPlan(pending, now), View());
      return Ok(());
    }

    method CommitSkills(
        active: seq<Skill>, now: int, writes: seq<nat>, synced: bool) returns (r: Result<(), BindingError>)
      modifies this
      ensures Committed(Commit.CommitSkills(active, now), r)
      ensures old(Valid()) ==> Kept(codec, sessionId, old(View()), Commit.CommitSkills(active, now), r, View())
    {
      if closed {
        return Err(Closed);
      }
      if active == skills {
        return Ok(());
      }
      var ok := AppendRecord(Line(codec, Entry(now, SkillState(active))), writes, synced);
      if !ok {
        AppendFailed(codec, sessionId, old(View()), Commit.CommitSkills(active, now), View());
        return Err(Persistence);
      }
      skills := active;
      AppendDone(codec, sessionId, old(View()), Commit.CommitSkills(active, now), View());
      return Ok(());
    }

    /**
      The new log replaces the old file as a whole. When only the sync of the directory fails, the
      method raises with the new log under the old fields.
    */
    method ResetState(now: int, replaced: bool, synced: bool) returns (r: Result<(), BindingError>)
      modifies this
      ensures closed == old(closed)
      ensures r == if closed then Err(Closed) else if replaced && synced then Ok(()) else Err(Persistence)
      ensures r.Ok? ==> Ok(View()) == CommitOne(codec, sessionId, old(View()), Commit.ResetState(now))
      ensures r.Err? ==> Held() == old(Held())
      ensures r.Err? ==> log == if closed || !replaced then old(log) else ResetLog(codec, sessionId, created, now)
      ensures r.Ok? && CodecOk(codec) ==> (Valid() <==> created.Some?)
      ensures r.Err? && old(Valid()) ==> (Valid() <==> closed || !replaced || Held() == EMPTY.(created := created))
    {
      hide LogMatches, CodecOk, ResetEntries;
      if CodecOk(codec) { ResetOutcome(codec, sessionId, View(), now); }
      if closed {
        return Err(Closed);
      }
      if !replaced {
        return Err(Persistence);
      }
      var first := if created.Some? then created.value else now;
      log := Lines(codec, ResetEntries(sessionId, first, now));
      if !synced {
        return Err(Persistence);
      }
      messages, plan, skills, delivered := [], None, [], {};
      return Ok(());
    }
  }
  // --- When log and binding stay equal ---------------------------------------------------------------

  /**
    What a commit does to a binding whose log replays to it. They stay equal: after a commit that wrote a
    record, exactly when a replay accepts it; after a failed append, exactly when nothing or the whole of a
    record that no replay accepts was written; always when the commit was refused.
  */
  ghost predicate Kept(
      c: TextCodec, sessionId: string, before: Store, x: Commit, r: Result<(), BindingError>, after: Store)
    requires !x.ResetState?
  {
    var record := RecordFor(before.session, x);
    match r
    case Ok(_) =>
      record.Ok?
      && (LogMatches(c, sessionId, after) <==> (record.value.Some? ==> GoodBody(sessionId, record.value.value)))
    case Err(Persistence) =>
      record.Ok? && record.value.Some? &&
      var line, good := Line(c, Entry(x.now, record.value.value)), GoodBody(sessionId, record.value.value);
      var whole := after.log == before.log + line;
      && (LogMatches(c, sessionId, after) <==> after.log == before.log || (whole && !good))
      && ReplayLog(c, sessionId, after.log).session
         == if whole && good then SessionAfter(before.session, x) else before.session
    case Err(_) => LogMatches(c, sessionId, after)
  }

  lemma AppendDone(c: TextCodec, sessionId: string, before: Store, x: Commit, after: Store)
    requires !x.ResetState? && CommitOne(c, sessionId, before, x) == Ok(after)
    ensures CodecOk(c) && LogMatches(c, sessionId, before) ==> Kept(c, sessionId, before, x, Ok(()), after)
  {
    hide LogMatches, GoodBody;
    if CodecOk(c) && LogMatches(c, sessionId, before) { CommitKeepsIff(c, sessionId, before, x); }
  }

  lemma AppendFailed(c: TextCodec, sessionId: string, before: Store, x: Commit, after: Store)
    requires !x.ResetState? && RecordFor(before.session, x).Ok? && RecordFor(before.session, x).value.Some?
    requires after.session == before.session
    requires
      var line := Line(c, Entry(x.now, RecordFor(before.session, x).value.value));
      exists k :: 0 <= k <= |line| && after.log == before.log + line[..k]
    ensures CodecOk(c) && LogMatches(c, sessionId, before) ==> Kept(c, sessionId, before, x, Err(Persistence), after)
  {
    hide LogMatches, GoodBody, CodecOk, RecordFor, SessionAfter, Line, ReplayLog;
    if CodecOk(c) && LogMatches(c, sessionId, before) {
      var line := Line(c, Entry(x.now, RecordFor(before.session, x).value.value));
      var k :| 0 <= k <= |line| && after.log == before.log + line[..k];
      TornAppend(c, sessionId, before, x, k);
      assert line[..0] == [] && line[..|line|] == line;
      assert |after.log| == |before.log| + k;
    }
  }

  /** A reset makes log and binding equal, whatever they were; one that raised after its rename rarely does. */
  lemma ResetOutcome(c: TextCodec, sessionId: string, st: Store, now: int)
    requires CodecOk(c)
    ensures LogMatches(c, sessionId, CommitOne(c, sessionId, st, Commit.ResetState(now)).value)
       <==> st.session.created.Some?
    ensures LogMatches(c, sessionId, st) ==>
      (LogMatches(c, sessionId, Store(ResetLog(c, sessionId, st.session.created, now), st.session))
       <==> st.session == EMPTY.(created := st.session.created))
  {
    if st.session.created.Some? {
      var entries := ResetEntries(sessionId, st.session.created.value, now);
      ResetPrefixMatches(c, sessionId, st.session.created.value, now, 5);
      assert entries[..5] == entries;
    }
    hide ReplayLog, Lines, ResetEntries;
    if LogMatches(c, sessionId, st) { FailedResetKeepsIff(c, sessionId, st, now); }
  }
}

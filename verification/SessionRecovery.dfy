/**
  Reopening a session after a stop or a crash
  (`_open_existing` in `src/mewcode/continuity/session_repository.py`).
*/
module SessionRecovery {
  import opened Wrappers
  import opened Chat
  import opened SessionRecords
  import opened SessionLog
  import opened SessionStore
  import Pairing = ToolPairing

  function GapNotice(c: TextCodec, last: int, now: int): ChatMessage {
    ChatMessage("system",
                Str("Session resumed after a long pause. Last activity: " + c.iso(last)
                    + ". Resumed at: " + c.iso(now) + "."),
                ResumeNotice, None)
  }

  /** `_open_existing` on the file `log`, None when it raises. */
  function Reopen(c: TextCodec, sessionId: string, log: Bytes, now: int): Option<Store> {
    var r := ReplayLog(c, sessionId, log);
    if !r.validStart || r.last.None? || now - r.last.value > RETENTION then None
    else
      var whole := if r.partial.Some? && r.partial.value <= |log| then log[..r.partial.value] else log;
      var valid := r.session.messages[..Pairing.ValidPrefix(r.session.messages)];
      var repaired := Attempt(c, sessionId, Store(whole, r.session), CommitHistory(valid, now));
      if now - r.last.value > GAP
      then Some(Attempt(c, sessionId, repaired, CommitHistory(valid + [GapNotice(c, r.last.value, now)], now)))
      else Some(repaired)
  }

  // --- What a replay can contain ------------------------------------------------------------

  lemma {:induction false} DecodedGood(items: seq<Json>)
    ensures DecodeMessages(items).Some? ==> GoodMessages(DecodeMessages(items).value)
  {
    if items != [] { DecodedGood(items[1..]); }
  }

  ghost predicate GoodReplay(r: Replay) {
    && GoodMessages(r.session.messages) && (r.validStart ==> r.session.created.Some?)
    && (r.session.created.Some? ==> r.last.Some? && r.session.created.value <= r.last.value)
  }

  lemma LineKeepsGood(c: TextCodec, sessionId: string, r: Replay, line: Bytes)
    requires GoodReplay(r)
    ensures GoodReplay(ReplayLine(c, sessionId, r, line))
  {
    var j := c.loads(line);
    if j.Some? && Field(j.value, "messages").Arr? { DecodedGood(Field(j.value, "messages").items); }
    hide DecodeMessages, DecodeSkills, DecodeIds, DecodePlan;
  }

  lemma {:induction false} ReplayIsGood(c: TextCodec, sessionId: string, r: Replay, log: Bytes, offset: nat)
    requires GoodReplay(r)
    ensures GoodReplay(ReplayFrom(c, sessionId, r, log, offset))
    decreases |log|
  {
    hide ReplayLine, ReplayFrom;
    ReplayNext(c, sessionId, r, log, offset);
    if NEWLINE in log {
      LineKeepsGood(c, sessionId, r, log[..LineEnd(log)]);
      ReplayIsGood(c, sessionId, ReplayLine(c, sessionId, r, log[..LineEnd(log)]), log[LineEnd(log)..],
                   offset + LineEnd(log));
    }
  }

  // --- Reopening ----------------------------------------------------------------------------------

  /** The whole lines of the file and what they replay to. */
  function Survivor(c: TextCodec, sessionId: string, log: Bytes): Store {
    Store(log[..WholeEnd(log)], ReplayLog(c, sessionId, log).session)
  }

  lemma SurvivorMatches(c: TextCodec, sessionId: string, log: Bytes)
    requires ReplayLog(c, sessionId, log).validStart && ReplayLog(c, sessionId, log).last.Some?
    ensures LogMatches(c, sessionId, Survivor(c, sessionId, log))
    ensures GoodMessages(ReplayLog(c, sessionId, log).session.messages)
    ensures var r := ReplayLog(c, sessionId, log);
      (if r.partial.Some? && r.partial.value <= |log| then log[..r.partial.value] else log) == log[..WholeEnd(log)]
    ensures ReplayLog(c, sessionId, log[..WholeEnd(log)]).last == ReplayLog(c, sessionId, log).last
  {
    TornReplay(c, sessionId, log);
    hide ReplayFrom, WholeEnd;
    ReplayIsGood(c, sessionId, NOTHING, log, 0);
    assert WholeEnd(log) == |log| ==> log[..|log|] == log;
  }

  /** Committing a good history over a matching store sets its messages and nothing else. */
  lemma HistoryAttempt(c: TextCodec, sessionId: string, st: Store, messages: seq<ChatMessage>, now: int)
    requires CodecOk(c) && LogMatches(c, sessionId, st) && GoodMessages(messages)
    ensures
      var q := Attempt(c, sessionId, st, CommitHistory(messages, now));
      && LogMatches(c, sessionId, q) && q.session == st.session.(messages := messages)
      && ReplayLog(c, sessionId, q.log).last
         == (if messages == st.session.messages then ReplayLog(c, sessionId, st.log).last
             else Later(ReplayLog(c, sessionId, st.log).last, now))
      && ReplayLog(c, sessionId, q.log).last.Some?
  {
    GoodCommitKeeps(c, sessionId, st, CommitHistory(messages, now));
    if messages != st.session.messages {
      var body := RecordFor(st.session, CommitHistory(messages, now)).value.value;
      GoodRecord(sessionId, st.session, CommitHistory(messages, now));
      AppendLine(c, sessionId, st.log, Entry(now, body));
      hide ReplayLog, GoodBody, LogMatches;
    }
  }

  /**
    A reopened session holds what its whole lines replay to, with the history cut to its
    valid tool prefix and a notice after a long pause; its log matches, its history is paired.
  */
  lemma ReopenRepairs(c: TextCodec, sessionId: string, log: Bytes, now: int)
    requires CodecOk(c) && Reopen(c, sessionId, log, now).Some?
    ensures
      var st, r := Reopen(c, sessionId, log, now).value, ReplayLog(c, sessionId, log);
      var valid := r.session.messages[..Pairing.ValidPrefix(r.session.messages)];
      && LogMatches(c, sessionId, st)
      && Pairing.Paired(st.session.messages)
      && r.last.Some?
      && st.session == r.session.(
           messages := if now - r.last.value > GAP then valid + [GapNotice(c, r.last.value, now)] else valid)
      && ReplayLog(c, sessionId, st.log).last.Some? && now - ReplayLog(c, sessionId, st.log).last.value <= GAP
  {
    var r := ReplayLog(c, sessionId, log);
    var valid := r.session.messages[..Pairing.ValidPrefix(r.session.messages)];
    var notice := GapNotice(c, r.last.value, now);
    SurvivorMatches(c, sessionId, log);
    Pairing.PrefixIsIdempotent(r.session.messages);
    Pairing.PlainPaired([notice]);
    Pairing.JoinPaired(valid, [notice]);
    RepairSteps(c, sessionId, Survivor(c, sessionId, log), valid, notice, now);
    hide ReplayLog, LogMatches, Attempt, WholeEnd, GapNotice, Pairing.ValidPrefix, Pairing.Paired;
  }

  lemma RepairSteps(c: TextCodec, sessionId: string, st: Store, valid: seq<ChatMessage>, notice: ChatMessage, now: int)
    requires CodecOk(c) && LogMatches(c, sessionId, st) && GoodMessages(valid) && notice.role != ""
    ensures
      var last := ReplayLog(c, sessionId, st.log).last;
      var repaired := Attempt(c, sessionId, st, CommitHistory(valid, now));
      var q := if now - last.value > GAP then Attempt(c, sessionId, repaired, CommitHistory(valid + [notice], now))
          else repaired;
      && LogMatches(c, sessionId, q)
      && q.session == st.session.(messages := if now - last.value > GAP then valid + [notice] else valid)
      && ReplayLog(c, sessionId, q.log).last.Some? && now - ReplayLog(c, sessionId, q.log).last.value <= GAP
  {
    assert |valid + [notice]| == |valid| + 1;
    HistoryAttempt(c, sessionId, st, valid, now);
    hide ReplayLog, LogMatches, Attempt;
    HistoryAttempt(c, sessionId, Attempt(c, sessionId, st, CommitHistory(valid, now)), valid + [notice], now);
  }

  /** Opening a session again at the same moment finds nothing to repair. */
  lemma ReopenIsIdempotent(c: TextCodec, sessionId: string, log: Bytes, now: int)
    requires CodecOk(c) && Reopen(c, sessionId, log, now).Some?
    ensures Reopen(c, sessionId, Reopen(c, sessionId, log, now).value.log, now) == Reopen(c, sessionId, log, now)
  {
    ReopenRepairs(c, sessionId, log, now);
    hide ReplayLog, LogMatches, Reopen;
    ReopenUnchanged(c, sessionId, Reopen(c, sessionId, log, now).value, now);
  }

  lemma ReopenUnchanged(c: TextCodec, sessionId: string, st: Store, now: int)
    requires LogMatches(c, sessionId, st) && Pairing.Paired(st.session.messages)
    requires ReplayLog(c, sessionId, st.log).last.Some? && now - ReplayLog(c, sessionId, st.log).last.value <= GAP
    ensures Reopen(c, sessionId, st.log, now) == Some(st)
  {
    SurvivorMatches(c, sessionId, st.log);
    hide ReplayLog;
    assert st.log[..WholeEnd(st.log)] == st.log;
    assert st.session.messages[..|st.session.messages|] == st.session.messages;
  }

  /** A log whose whole lines match a binding reopens exactly within the retention time of its last record. */
  lemma ReopensIff(c: TextCodec, sessionId: string, log: Bytes, survived: Session, now: int)
    requires CodecOk(c) && LogMatches(c, sessionId, Store(log[..WholeEnd(log)], survived))
    ensures
      var r := ReplayLog(c, sessionId, log);
      && r.session == survived && survived.created.Some? && r.last.Some? && survived.created.value <= r.last.value
      && (Reopen(c, sessionId, log, now).Some? <==> now - r.last.value <= RETENTION)
  {
    TornReplay(c, sessionId, log);
    hide ReplayFrom, WholeEnd, Attempt, GapNotice, Pairing.ValidPrefix;
    ReplayIsGood(c, sessionId, NOTHING, log, 0);
  }

  /**
    What a reopening brings back of a cut log: it succeeds exactly within the retention time of the last
    whole record, which is never older than the session.
  */
  ghost predicate Recovers(c: TextCodec, sessionId: string, cut: Bytes, survived: Session, now: int) {
    var last := ReplayLog(c, sessionId, cut).last;
    && ReplayLog(c, sessionId, cut).session == survived
    && last.Some? && survived.created.Some? && survived.created.value <= last.value
    && (Reopen(c, sessionId, cut, now).Some? <==> now - last.value <= RETENTION)
    && (Reopen(c, sessionId, cut, now).Some? ==>
          var st := Reopen(c, sessionId, cut, now).value;
          && LogMatches(c, sessionId, st)
          && st.session.plan == survived.plan && st.session.skills == survived.skills
          && st.session.delivered == survived.delivered
          && survived.messages[..Pairing.ValidPrefix(survived.messages)] <= st.session.messages)
  }

  lemma CutRecovers(c: TextCodec, sessionId: string, cut: Bytes, survived: Session, now: int)
    requires CodecOk(c) && LogMatches(c, sessionId, Store(cut[..WholeEnd(cut)], survived))
    ensures Recovers(c, sessionId, cut, survived, now)
  {
    hide ReplayLog, LogMatches, Reopen, WholeEnd, Pairing.ValidPrefix, GapNotice, Pairing.Paired;
    ReopensIff(c, sessionId, cut, survived, now);
    if Reopen(c, sessionId, cut, now).Some? { ReopenRepairs(c, sessionId, cut, now); }
  }

  /**
    A session that crashed anywhere after its start record goes on, when reopened in time, from the last
    commit that reached the file whole: same plan, skills and delivered messages, and its history up to
    the repair.
  */
  lemma CrashThenReopen(
      c: TextCodec, sessionId: string, created: int, xs: seq<Commit>, n: nat, now: int) returns (i: nat)
    requires CodecOk(c) && forall x :: x in xs ==> GoodCommit(x)
    requires |Created(c, sessionId, created).log| <= n
          <= |Stages(c, sessionId, Created(c, sessionId, created), xs)[|xs|].log|
    ensures i <= |xs|
    ensures
      var stages := Stages(c, sessionId, Created(c, sessionId, created), xs);
      && (forall m :: i < m <= |xs| ==> n < |stages[m].log|)
      && stages[i].session.created == Some(created)
      && Recovers(c, sessionId, stages[|xs|].log[..n], stages[i].session, now)
  {
    i := CutReplay(c, sessionId, created, xs, n);
    CreatedMatches(c, sessionId, created);
    var st0 := Created(c, sessionId, created);
    assert st0.session.created == Some(created);
    var stages := Stages(c, sessionId, st0, xs);
    hide Created, Stages, Recovers, LogMatches, WholeEnd, GoodCommit;
    RunKeeps(c, sessionId, st0, xs);
    CutRecovers(c, sessionId, stages[|xs|].log[..n], stages[i].session, now);
  }
}

/** What a session log says, whatever is in it (`replay_file` in `src/mewcode/continuity/session_codec.py`). */
module SessionMeaning {
  import opened Wrappers
  import opened Chat
  import opened IdLists
  import opened SessionRecords
  import opened SessionLog

  // --- The records of a log -----------------------------------------------------------------

  /** The lines that end with a newline. */
  function WholeLines(log: Bytes): (lines: seq<Bytes>)
    decreases |log|
  {
    if NEWLINE !in log then [] else [log[..LineEnd(log)]] + WholeLines(log[LineEnd(log)..])
  }

  /** What stands behind the last newline. */
  function TornLine(log: Bytes): (torn: Bytes)
    ensures NEWLINE !in torn
    decreases |log|
  {
    if NEWLINE !in log then log else TornLine(log[LineEnd(log)..])
  }

  function Concat(lines: seq<Bytes>): Bytes {
    if lines == [] then [] else lines[0] + Concat(lines[1..])
  }

  predicate IsLine(line: Bytes) {
    line != [] && line[|line| - 1] == NEWLINE && NEWLINE !in line[..|line| - 1]
  }

  /** A log is its whole lines and the torn one, each byte once. */
  lemma {:induction false} LinesAreTheLog(log: Bytes)
    ensures Concat(WholeLines(log)) + TornLine(log) == log
    ensures forall i :: 0 <= i < |WholeLines(log)| ==> IsLine(WholeLines(log)[i])
    decreases |log|
  {
    hide *;
    if NEWLINE in log {
      var first, rest := log[..LineEnd(log)], log[LineEnd(log)..];
      LinesAreTheLog(rest);
      FirstIsLine(log);
      NextLines(log);
      ConcatFirst(first, WholeLines(rest));
      Joins(log, LineEnd(log), Concat(WholeLines(rest)), TornLine(rest));
    } else {
      NoLines(log);
    }
  }

  lemma Joins(log: Bytes, n: nat, lines: Bytes, torn: Bytes)
    requires n <= |log| && lines + torn == log[n..]
    ensures (log[..n] + lines) + torn == log
  {
    assert log[..n] + (lines + torn) == log;
  }

  lemma NoLines(log: Bytes)
    requires NEWLINE !in log
    ensures WholeLines(log) == [] && Concat([]) + TornLine(log) == log
  {
  }

  lemma NextLines(log: Bytes)
    requires NEWLINE in log
    ensures WholeLines(log) == [log[..LineEnd(log)]] + WholeLines(log[LineEnd(log)..])
    ensures TornLine(log) == TornLine(log[LineEnd(log)..])
  {
  }

  lemma ConcatFirst(first: Bytes, lines: seq<Bytes>)
    ensures Concat([first] + lines) == first + Concat(lines)
  {
    assert ([first] + lines)[1..] == lines;
  }

  lemma FirstIsLine(log: Bytes)
    requires NEWLINE in log
    ensures IsLine(log[..LineEnd(log)])
  {
    assert log[..LineEnd(log)][..LineEnd(log) - 1] == log[..LineEnd(log) - 1];
  }

  /** The readable records among the lines, in order. */
  function Readable(c: TextCodec, sessionId: string, lines: seq<Bytes>): (es: seq<Entry>)
    ensures |es| <= |lines|
  {
    if lines == [] then []
    else
      var e := ReadEntry(c, sessionId, lines[0]);
      (if e.Some? then [e.value] else []) + Readable(c, sessionId, lines[1..])
  }

  // --- What records say, field by field --------------------------------------------------------

  /** The first record of a start gives the time of creation. */
  ghost predicate CreatedSays(es: seq<Entry>, created: Option<int>) {
    && (created.None? <==> forall k :: 0 <= k < |es| ==> !es[k].body.Start?)
    && (created.Some? ==> exists k :: 0 <= k < |es| && FirstStart(es, k) && created.value == es[k].at)
  }

  predicate FirstStart(es: seq<Entry>, k: int)
    requires 0 <= k < |es|
  {
    es[k].body.Start? && forall j :: 0 <= j < k ==> !es[j].body.Start?
  }

  /** The latest of all times. */
  ghost predicate LatestSays(es: seq<Entry>, last: Option<int>) {
    && (last.None? <==> es == [])
    && (last.Some? ==>
          && (forall k :: 0 <= k < |es| ==> es[k].at <= last.value)
          && exists k :: 0 <= k < |es| && es[k].at == last.value)
  }

  /** The last record about the plan. */
  ghost predicate PlanSays(es: seq<Entry>, plan: Option<StoredPlan>) {
    if forall k :: 0 <= k < |es| ==> !es[k].body.PlanState? then plan.None?
    else exists k :: 0 <= k < |es| && LastPlan(es, k) && plan == es[k].body.plan
  }

  predicate LastPlan(es: seq<Entry>, k: int)
    requires 0 <= k < |es|
  {
    es[k].body.PlanState? && forall j :: k < j < |es| ==> !es[j].body.PlanState?
  }

  /** The last record about the skills. */
  ghost predicate SkillsSay(es: seq<Entry>, skills: seq<Skill>) {
    if forall k :: 0 <= k < |es| ==> !es[k].body.SkillState? then skills == []
    else exists k :: 0 <= k < |es| && LastSkills(es, k) && skills == es[k].body.skills
  }

  predicate LastSkills(es: seq<Entry>, k: int)
    requires 0 <= k < |es|
  {
    es[k].body.SkillState? && forall j :: k < j < |es| ==> !es[j].body.SkillState?
  }

  /** The mailbox ids recorded since the last record that replaces them. */
  ghost predicate DeliveredSays(es: seq<Entry>, delivered: set<string>) {
    forall id :: id in delivered <==> exists k :: 0 <= k < |es| && DeliversAt(es, k, id)
  }

  predicate DeliversAt(es: seq<Entry>, k: int, id: string)
    requires 0 <= k < |es|
  {
    && es[k].body.Inbound? && id in es[k].body.ids
    && forall j :: k < j < |es| ==> !(es[j].body.Inbound? && es[j].body.operation.Replace?)
  }

  /** The messages since the last record that replaces them, one after the other. */
  ghost predicate MessagesSay(es: seq<Entry>, messages: seq<ChatMessage>) {
    exists k :: 0 <= k <= |es| && Since(es, k) && messages == Said(es[k..])
  }

  predicate Brings(e: Entry) {
    e.body.History? || e.body.Inbound?
  }

  predicate Replaces(e: Entry) {
    Brings(e) && e.body.operation.Replace?
  }

  predicate Since(es: seq<Entry>, k: int)
    requires 0 <= k <= |es|
  {
    && (k > 0 ==> k < |es| && Replaces(es[k]))
    && forall j :: k < j < |es| ==> !Replaces(es[j])
  }

  /** The messages of these records, in order. */
  function Said(es: seq<Entry>): seq<ChatMessage> {
    if es == [] then []
    else Said(es[..|es| - 1]) + if Brings(es[|es| - 1]) then es[|es| - 1].body.messages else []
  }

  /** A replay holds what the records say. */
  ghost predicate Says(es: seq<Entry>, r: Replay) {
    && CreatedSays(es, r.session.created) && LatestSays(es, r.last) && (r.validStart <==> r.session.created.Some?)
    && PlanSays(es, r.session.plan) && SkillsSay(es, r.session.skills)
    && DeliveredSays(es, r.session.delivered) && MessagesSay(es, r.session.messages)
  }

  // --- One record more --------------------------------------------------------------------------

  lemma CreatedMore(es: seq<Entry>, r: Replay, e: Entry)
    requires CreatedSays(es, r.session.created)
    ensures CreatedSays(es + [e], ApplyEntry(r, e).session.created)
  {
    var all := es + [e];
    assert all[|es|] == e && forall k :: 0 <= k < |es| ==> all[k] == es[k];
    if r.session.created.Some? {
      var k :| 0 <= k < |es| && FirstStart(es, k) && r.session.created.value == es[k].at;
      assert FirstStart(all, k) && all[k].at == es[k].at;
    } else if e.body.Start? {
      assert FirstStart(all, |es|);
    }
  }

  lemma LatestMore(es: seq<Entry>, r: Replay, e: Entry)
    requires LatestSays(es, r.last)
    ensures LatestSays(es + [e], ApplyEntry(r, e).last)
  {
    var all := es + [e];
    assert all[|es|] == e && forall k :: 0 <= k < |es| ==> all[k] == es[k];
    if r.last.Some? {
      var k :| 0 <= k < |es| && es[k].at == r.last.value;
      assert all[k].at == r.last.value;
    }
  }

  lemma PlanMore(es: seq<Entry>, r: Replay, e: Entry)
    requires PlanSays(es, r.session.plan)
    ensures PlanSays(es + [e], ApplyEntry(r, e).session.plan)
  {
    var all := es + [e];
    assert all[|es|] == e && forall k :: 0 <= k < |es| ==> all[k] == es[k];
    if e.body.PlanState? {
      assert LastPlan(all, |es|);
    } else if exists k :: 0 <= k < |es| && es[k].body.PlanState? {
      var k :| 0 <= k < |es| && LastPlan(es, k) && r.session.plan == es[k].body.plan;
      assert LastPlan(all, k);
    }
  }

  lemma SkillsMore(es: seq<Entry>, r: Replay, e: Entry)
    requires SkillsSay(es, r.session.skills)
    ensures SkillsSay(es + [e], ApplyEntry(r, e).session.skills)
  {
    var all := es + [e];
    assert all[|es|] == e && forall k :: 0 <= k < |es| ==> all[k] == es[k];
    if e.body.SkillState? {
      assert LastSkills(all, |es|);
    } else if exists k :: 0 <= k < |es| && es[k].body.SkillState? {
      var k :| 0 <= k < |es| && LastSkills(es, k) && r.session.skills == es[k].body.skills;
      assert LastSkills(all, k);
    }
  }

  lemma DeliveredMore(es: seq<Entry>, r: Replay, e: Entry)
    requires DeliveredSays(es, r.session.delivered)
    ensures DeliveredSays(es + [e], ApplyEntry(r, e).session.delivered)
  {
    var all, after := es + [e], ApplyEntry(r, e).session.delivered;
    assert all[|es|] == e && forall k :: 0 <= k < |es| ==> all[k] == es[k];
    var drops := e.body.Inbound? && e.body.operation.Replace?;
    forall id ensures id in after <==> exists k :: 0 <= k < |all| && DeliversAt(all, k, id) {
      DeliversMore(es, e, id);
      assert id in after <==> (id in r.session.delivered && !drops) || (e.body.Inbound? && id in e.body.ids);
    }
  }

  lemma DeliversMore(es: seq<Entry>, e: Entry, id: string)
    ensures (exists k :: 0 <= k < |es + [e]| && DeliversAt(es + [e], k, id))
       <==> || (e.body.Inbound? && id in e.body.ids)
            || (!(e.body.Inbound? && e.body.operation.Replace?) && exists k :: 0 <= k < |es| && DeliversAt(es, k, id))
  {
    var all := es + [e];
    assert all[|es|] == e && forall k :: 0 <= k < |es| ==> all[k] == es[k];
    assert DeliversAt(all, |es|, id) <==> e.body.Inbound? && id in e.body.ids;
    assert forall k :: 0 <= k < |es| ==>
      (DeliversAt(all, k, id) <==> DeliversAt(es, k, id) && !(e.body.Inbound? && e.body.operation.Replace?));
  }

  lemma MessagesMore(es: seq<Entry>, r: Replay, e: Entry)
    requires MessagesSay(es, r.session.messages)
    ensures MessagesSay(es + [e], ApplyEntry(r, e).session.messages)
  {
    hide Said;
    var all := es + [e];
    if Replaces(e) {
      SaidOne(e);
      assert all[|es|..] == [e] && Since(all, |es|);
    } else {
      var k :| 0 <= k <= |es| && Since(es, k) && r.session.messages == Said(es[k..]);
      assert all[k..] == es[k..] + [e];
      SaidMore(es[k..], e);
      SinceMore(es, k, e);
      assert r.session.messages + [] == r.session.messages;
    }
  }

  lemma SinceMore(es: seq<Entry>, k: int, e: Entry)
    requires 0 <= k <= |es| && Since(es, k) && !Replaces(e)
    ensures Since(es + [e], k)
  {
    assert forall j :: 0 <= j < |es| ==> (es + [e])[j] == es[j];
  }

  lemma SaidMore(es: seq<Entry>, e: Entry)
    ensures Said(es + [e]) == Said(es) + if Brings(e) then e.body.messages else []
  {
    assert (es + [e])[..|es|] == es;
  }

  lemma SaidOne(e: Entry)
    requires Brings(e)
    ensures Said([e]) == e.body.messages
  {
    assert [] + [e] == [e] && Said([]) == [];
    SaidMore([], e);
  }

  lemma SaysMore(es: seq<Entry>, r: Replay, e: Entry)
    requires Says(es, r)
    ensures Says(es + [e], ApplyEntry(r, e))
  {
    hide CreatedSays, LatestSays, PlanSays, SkillsSay, DeliveredSays, MessagesSay;
    CreatedMore(es, r, e);
    LatestMore(es, r, e);
    PlanMore(es, r, e);
    SkillsMore(es, r, e);
    DeliveredMore(es, r, e);
    MessagesMore(es, r, e);
  }

  lemma NothingSaid()
    ensures Says([], NOTHING)
  {
    var none: seq<Entry> := [];
    assert Since(none, 0) && none[0..] == [] && Said([]) == [];
  }

  // --- The meaning of a log ------------------------------------------------------------------------

  lemma {:induction false} MeansFrom(
      c: TextCodec, sessionId: string, r: Replay, log: Bytes, offset: nat, es: seq<Entry>)
    requires Says(es, r) && r.partial.None?
    ensures
      var q, lines := ReplayFrom(c, sessionId, r, log, offset), WholeLines(log);
      var more, torn := Readable(c, sessionId, lines), TornLine(log);
      && Says(es + more, q) && q.invalid == r.invalid + |lines| - |more| + (if torn == [] then 0 else 1)
      && q.partial == if torn == [] then None else Some(offset + |log| - |torn|)
    decreases |log|
  {
    hide *;
    LogIs(c, sessionId, log);
    ReplayNext(c, sessionId, r, log, offset);
    assert es + [] == es;
    if NEWLINE in log {
      var n := LineEnd(log);
      var line, rest := log[..n], log[n..];
      LineIs(c, sessionId, r, line);
      var e, next := ReadEntry(c, sessionId, line), ReplayLine(c, sessionId, r, line);
      if e.Some? {
        SaysMore(es, r, e.value);
        MeansFrom(c, sessionId, next, rest, offset + n, es + [e.value]);
        var more := Readable(c, sessionId, WholeLines(rest));
        assert es + [e.value] + more == es + ([e.value] + more);
      } else {
        OtherFields(es, r, next);
        MeansFrom(c, sessionId, next, rest, offset + n, es);
        var more := Readable(c, sessionId, WholeLines(rest));
        assert [] + more == more;
      }
    } else if log != [] {
      OtherFields(es, r, r.(partial := Some(offset), invalid := r.invalid + 1));
    }
  }

  /** One step of reading a log. */
  lemma LogIs(c: TextCodec, sessionId: string, log: Bytes)
    ensures NEWLINE !in log ==> WholeLines(log) == [] && TornLine(log) == log && Readable(c, sessionId, []) == []
    ensures NEWLINE in log ==>
      var (line, rest) := (log[..LineEnd(log)], log[LineEnd(log)..]);
      && WholeLines(log) == [line] + WholeLines(rest) && TornLine(log) == TornLine(rest)
      && var e := ReadEntry(c, sessionId, line);
         Readable(c, sessionId, WholeLines(log))
         == (if e.Some? then [e.value] else []) + Readable(c, sessionId, WholeLines(rest))
  {
    hide ReadEntry;
    if NEWLINE in log {
      assert ([log[..LineEnd(log)]] + WholeLines(log[LineEnd(log)..]))[1..] == WholeLines(log[LineEnd(log)..]);
    }
  }

  lemma LineIs(c: TextCodec, sessionId: string, r: Replay, line: Bytes)
    ensures
      var (e, next) := (ReadEntry(c, sessionId, line), ReplayLine(c, sessionId, r, line));
      && (e.Some? ==> next == ApplyEntry(r, e.value) && next.invalid == r.invalid && next.partial == r.partial)
      && (e.None? ==> next == r.(invalid := r.invalid + 1))
  {
    hide ReadEntry;
  }

  lemma OtherFields(es: seq<Entry>, r: Replay, q: Replay)
    requires Says(es, r) && q == r.(partial := q.partial, invalid := q.invalid)
    ensures Says(es, q)
  {
  }

  /**
    Whatever bytes a log holds: its replay says what the readable records among its whole lines say, counts each
    other line and a torn one as invalid, and marks where the torn one begins.
  */
  lemma ReplayMeans(c: TextCodec, sessionId: string, log: Bytes)
    ensures
      var q, lines := ReplayLog(c, sessionId, log), WholeLines(log);
      var es, torn := Readable(c, sessionId, lines), TornLine(log);
      && Says(es, q) && q.invalid == |lines| - |es| + (if torn == [] then 0 else 1)
      && q.partial == if torn == [] then None else Some(|log| - |torn|)
  {
    NothingSaid();
    hide Says, WholeLines, TornLine, Readable, ReplayFrom;
    MeansFrom(c, sessionId, NOTHING, log, 0, []);
    assert [] + Readable(c, sessionId, WholeLines(log)) == Readable(c, sessionId, WholeLines(log));
  }
}

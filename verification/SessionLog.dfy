/**
  The replay of a session log, the commits of a live binding and the reopening of a
  session (`replay_file` in `src/mewcode/continuity/session_codec.py` and
  `src/mewcode/continuity/session_repository.py`).
*/
module SessionLog {
  import opened Wrappers
  import opened Chat
  import opened IdLists
  import opened SessionRecords

  const RETENTION: int := 30 * 24 * 3600
  const GAP: int := 24 * 3600

  // --- Replay ---------------------------------------------------------------------------

  datatype Session = Session(
    messages: seq<ChatMessage>,
    plan: Option<StoredPlan>,
    skills: seq<Skill>,
    delivered: set<string>,
    created: Option<int>)

  datatype Replay = Replay(session: Session, last: Option<int>, invalid: nat, partial: Option<nat>, validStart: bool)

  const EMPTY := Session([], None, [], {}, None)
  const NOTHING := Replay(EMPTY, None, 0, None, false)

  /** What a valid record does to the session. */
  function ApplyBody(s: Session, at: int, b: Body): Session {
    match b
    case Start(_) => s.(created := if s.created.Some? then s.created else Some(at))
    case History(Append, messages) => s.(messages := s.messages + messages)
    case History(Replace, messages) => s.(messages := messages)
    case Inbound(Append, messages, ids) =>
      s.(messages := s.messages + messages, delivered := s.delivered + Elements(ids))
    case Inbound(Replace, messages, ids) => s.(messages := messages, delivered := Elements(ids))
    case PlanState(plan) => s.(plan := plan)
    case SkillState(skills) => s.(skills := skills)
  }

  function Later(last: Option<int>, at: int): Option<int> {
    if last.None? || at > last.value then Some(at) else last
  }

  function ApplyEntry(r: Replay, e: Entry): Replay {
    r.(session := ApplyBody(r.session, e.at, e.body), last := Later(r.last, e.at),
       validStart := r.validStart || e.body.Start?)
  }

  function ReadEntry(c: TextCodec, sessionId: string, line: Bytes): Option<Entry> {
    var j := c.loads(line);
    if j.None? then None else DecodeEntry(c, sessionId, j.value)
  }

  function ReplayLine(c: TextCodec, sessionId: string, r: Replay, line: Bytes): Replay {
    match ReadEntry(c, sessionId, line)
    case None => r.(invalid := r.invalid + 1)
    case Some(e) => ApplyEntry(r, e)
  }

  /** The length of the first line with its newline. */
  function LineEnd(b: Bytes): (n: nat)
    requires NEWLINE in b
    ensures 1 <= n <= |b| && b[n - 1] == NEWLINE && NEWLINE !in b[..n - 1]
  {
    if b[0] == NEWLINE then 1
    else
      assert b[1..] == b[1..] && NEWLINE in b[1..];
      var n := 1 + LineEnd(b[1..]);
      assert b[..n - 1] == [b[0]] + b[1..][..n - 2];
      n
  }

  /** Replay from a state: whole lines in order; a last line without newline is torn. */
  function ReplayFrom(c: TextCodec, sessionId: string, r: Replay, log: Bytes, offset: nat): Replay
    decreases |log|
  {
    if log == [] then r
    else if NEWLINE !in log then r.(partial := Some(offset), invalid := r.invalid + 1)
    else
      var n := LineEnd(log);
      ReplayFrom(c, sessionId, ReplayLine(c, sessionId, r, log[..n]), log[n..], offset + n)
  }

  lemma ReplayNext(c: TextCodec, sessionId: string, r: Replay, log: Bytes, offset: nat)
    ensures log == [] ==> ReplayFrom(c, sessionId, r, log, offset) == r
    ensures log != [] && NEWLINE !in log ==>
      ReplayFrom(c, sessionId, r, log, offset) == r.(partial := Some(offset), invalid := r.invalid + 1)
    ensures NEWLINE in log ==>
      ReplayFrom(c, sessionId, r, log, offset)
      == ReplayFrom(c, sessionId, ReplayLine(c, sessionId, r, log[..LineEnd(log)]), log[LineEnd(log)..],
                    offset + LineEnd(log))
  {
    hide ReplayLine;
  }

  function ReplayLog(c: TextCodec, sessionId: string, log: Bytes): Replay {
    ReplayFrom(c, sessionId, NOTHING, log, 0)
  }

  // --- The loop of `replay_file` ------------------------------------------------------------

  /** The bytes up to the next newline, or all of them. */
  function NextLine(rest: Bytes): Bytes {
    if NEWLINE in rest then rest[..LineEnd(rest)] else rest
  }

  /** `handle.readline()` at `offset`. */
  method ReadLine(log: Bytes, offset: nat) returns (line: Bytes)
    requires offset <= |log|
    ensures line == NextLine(log[offset..])
  {
    ghost var rest := log[offset..];
    var end := offset;
    while end < |log| && log[end] != NEWLINE
      invariant offset <= end <= |log|
      invariant NEWLINE !in log[offset..end]
    {
      end := end + 1;
    }
    if end < |log| {
      end := end + 1;
      assert rest[end - 1 - offset] == NEWLINE;
      LineEndIs(rest, end - offset);
    }
    line := log[offset..end];
    assert line == rest[..end - offset];
  }

  lemma {:induction false} LineEndIs(b: Bytes, n: nat)
    requires 1 <= n <= |b| && b[n - 1] == NEWLINE && NEWLINE !in b[..n - 1]
    ensures NEWLINE in b && LineEnd(b) == n
  {
    if n > 1 {
      assert b[0] in b[..n - 1];
      assert b[1..][..n - 2] == b[..n - 1][1..];
      LineEndIs(b[1..], n - 1);
    }
  }

  lemma NextLineIs(rest: Bytes)
    ensures
      var raw := NextLine(rest);
      && |raw| <= |rest| && (raw == [] <==> rest == [])
      && (raw != [] ==> (raw[|raw| - 1] == NEWLINE <==> NEWLINE in rest))
      && (NEWLINE in rest ==> |raw| == LineEnd(rest) && raw == rest[..LineEnd(rest)])
  {
    hide LineEnd;
    var raw := NextLine(rest);
    if NEWLINE !in rest && raw != [] { assert raw[|raw| - 1] in rest; }
  }

  lemma RestOf(log: Bytes, offset: nat, n: nat)
    requires offset + n <= |log|
    ensures log[offset..][n..] == log[offset + n..]
  {
  }

  lemma ReplayLineNext(c: TextCodec, sessionId: string, r: Replay, rest: Bytes, offset: nat)
    ensures
      var raw := NextLine(rest);
      && |raw| <= |rest|
      && ReplayFrom(c, sessionId, r, rest, offset)
         == if raw == [] then r
            else if raw[|raw| - 1] != NEWLINE then r.(partial := Some(offset), invalid := r.invalid + 1)
            else ReplayFrom(c, sessionId, ReplayLine(c, sessionId, r, raw), rest[|raw|..], offset + |raw|)
  {
    NextLineIs(rest);
    ReplayNext(c, sessionId, r, rest, offset);
    hide *;
  }

  /** One turn of the loop: what is left to replay after the next line. */
  lemma ReplayStep(c: TextCodec, sessionId: string, r: Replay, log: Bytes, offset: nat)
    requires offset <= |log|
    ensures
      var raw := NextLine(log[offset..]);
      && |raw| <= |log| - offset
      && ReplayFrom(c, sessionId, r, log[offset..], offset)
         == if raw == [] then r
            else if raw[|raw| - 1] != NEWLINE then r.(partial := Some(offset), invalid := r.invalid + 1)
            else ReplayFrom(c, sessionId, ReplayLine(c, sessionId, r, raw), log[offset + |raw|..], offset + |raw|)
  {
    hide *;
    var n := |NextLine(log[offset..])|;
    ReplayLineNext(c, sessionId, r, log[offset..], offset);
    RestOf(log, offset, n);
  }

  method ReplayFile(c: TextCodec, sessionId: string, log: Bytes) returns (r: Replay)
    ensures r == ReplayLog(c, sessionId, log)
  {
    hide ReplayFrom;
    r := NOTHING;
    var offset := 0;
    assert log[0..] == log;
    ReplayNext(c, sessionId, NOTHING, [], |log|);
    while true
      invariant 0 <= offset <= |log|
      invariant ReplayFrom(c, sessionId, r, log[offset..], offset) == ReplayLog(c, sessionId, log)
      decreases |log| - offset
    {
      hide NextLine, ReplayLog, ReplayFrom, ReadEntry, ApplyEntry;
      ReplayStep(c, sessionId, r, log, offset);
      var raw := ReadLine(log, offset);
      if raw == [] {
        break;
      }
      var startOffset := offset;
      offset := offset + |raw|;
      if raw[|raw| - 1] != NEWLINE {
        return r.(partial := Some(startOffset), invalid := r.invalid + 1);
      }
      var record := ReadEntry(c, sessionId, raw);
      if record.None? {
        r := r.(invalid := r.invalid + 1);
      } else {
        r := ApplyEntry(r, record.value);
      }
    }
  }

  // --- Logs made of whole lines -----------------------------------------------------------------

  predicate Whole(log: Bytes) {
    log == [] || log[|log| - 1] == NEWLINE
  }

  lemma {:induction false} ReplaySplit(c: TextCodec, sessionId: string, r: Replay, a: Bytes, b: Bytes, offset: nat)
    requires Whole(a)
    ensures ReplayFrom(c, sessionId, r, a + b, offset)
         == ReplayFrom(c, sessionId, ReplayFrom(c, sessionId, r, a, offset), b, offset + |a|)
    decreases |a|
  {
    hide ReplayLine, ReplayFrom;
    ReplayNext(c, sessionId, r, a, offset);
    ReplayNext(c, sessionId, r, a + b, offset);
    if a == [] {
      assert a + b == b;
    } else {
      assert a[|a| - 1] in a;
      var n := LineEnd(a);
      LineEndJoin(a, b);
      WholeRest(a, n);
      hide LineEnd, Whole;
      ReplaySplit(c, sessionId, ReplayLine(c, sessionId, r, a[..n]), a[n..], b, offset + n);
    }
  }

  lemma WholeRest(log: Bytes, n: nat)
    requires n <= |log| && Whole(log)
    ensures Whole(log[n..])
  {
  }

  lemma LineEndJoin(a: Bytes, b: Bytes)
    requires NEWLINE in a
    ensures NEWLINE in a + b && LineEnd(a + b) == LineEnd(a)
    ensures (a + b)[..LineEnd(a)] == a[..LineEnd(a)] && (a + b)[LineEnd(a)..] == a[LineEnd(a)..] + b
  {
    var n := LineEnd(a);
    assert (a + b)[..n - 1] == a[..n - 1];
    LineEndIs(a + b, n);
  }

  lemma {:induction false} WholeHasNoPartial(c: TextCodec, sessionId: string, r: Replay, log: Bytes, offset: nat)
    requires Whole(log)
    ensures ReplayFrom(c, sessionId, r, log, offset).partial == r.partial
    decreases |log|
  {
    hide ReadEntry, ReplayFrom;
    ReplayNext(c, sessionId, r, log, offset);
    if log != [] {
      assert log[|log| - 1] in log;
      var n := LineEnd(log);
      WholeHasNoPartial(c, sessionId, ReplayLine(c, sessionId, r, log[..n]), log[n..], offset + n);
    }
  }

  /** The place after the last newline. */
  function WholeEnd(log: Bytes): (n: nat)
    ensures n <= |log| && Whole(log[..n]) && NEWLINE !in log[n..]
    ensures Whole(log) ==> n == |log|
  {
    if Whole(log) then
      assert log[..|log|] == log;
      |log|
    else
      var n := WholeEnd(log[..|log| - 1]);
      assert log[..|log| - 1][..n] == log[..n] && log[n..] == log[..|log| - 1][n..] + [log[|log| - 1]];
      n
  }

  /** A torn log replays as its whole lines, with the torn line marked and counted. */
  lemma TornReplay(c: TextCodec, sessionId: string, log: Bytes)
    ensures
      var (n, whole) := (WholeEnd(log), ReplayLog(c, sessionId, log[..WholeEnd(log)]));
      && whole.partial.None?
      && ReplayLog(c, sessionId, log)
         == if n == |log| then whole else whole.(partial := Some(n), invalid := whole.invalid + 1)
  {
    hide ReplayFrom, WholeEnd, LineEnd;
    var n := WholeEnd(log);
    assert log[..n] + log[n..] == log;
    ReplayNext(c, sessionId, ReplayLog(c, sessionId, log[..n]), log[n..], n);
    WholeHasNoPartial(c, sessionId, NOTHING, log[..n], 0);
    ReplaySplit(c, sessionId, NOTHING, log[..n], log[n..], 0);
  }

  /** The line of an entry. */
  function Line(c: TextCodec, e: Entry): Bytes {
    c.dumps(EncodeEntry(c, e)) + [NEWLINE]
  }

  lemma AppendLine(c: TextCodec, sessionId: string, log: Bytes, e: Entry)
    requires CodecOk(c) && Whole(log)
    ensures
      var r, q := ReplayLog(c, sessionId, log), ReplayLog(c, sessionId, log + Line(c, e));
      q == if GoodBody(sessionId, e.body) then ApplyEntry(r, e) else r.(invalid := r.invalid + 1)
  {
    hide GoodBody, ReplayFrom, ReplayLine, Line, ApplyEntry, CodecOk, Whole;
    var r, line := ReplayLog(c, sessionId, log), Line(c, e);
    ReplaySplit(c, sessionId, NOTHING, log, line, 0);
    LineShape(c, e);
    LineEntry(c, sessionId, r, e);
    ReplayNext(c, sessionId, r, line, |log|);
    assert line[..|line|] == line && line[|line|..] == [];
    ReplayNext(c, sessionId, ReplayLine(c, sessionId, r, line), [], |log| + |line|);
  }

  lemma LineShape(c: TextCodec, e: Entry)
    requires CodecOk(c)
    ensures NEWLINE in Line(c, e) && LineEnd(Line(c, e)) == |Line(c, e)|
  {
    var j, line := EncodeEntry(c, e), Line(c, e);
    assert NEWLINE !in c.dumps(j);
    assert line[..|line| - 1] == c.dumps(j);
    LineEndIs(line, |line|);
  }

  /** A line reads back as its entry, if its body is good. */
  lemma LineEntry(c: TextCodec, sessionId: string, r: Replay, e: Entry)
    requires CodecOk(c)
    ensures ReplayLine(c, sessionId, r, Line(c, e))
         == if GoodBody(sessionId, e.body) then ApplyEntry(r, e) else r.(invalid := r.invalid + 1)
  {
    hide GoodBody, DecodeEntry, EncodeEntry, ApplyEntry;
    EntryRoundTrip(c, sessionId, e);
    var j := EncodeEntry(c, e);
    assert c.loads(c.dumps(j) + [NEWLINE]) == Some(j);
  }
}

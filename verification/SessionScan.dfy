/** The scan that lists a session without building its history (`scan_file`, `session_title`). */
module SessionScan {
  import opened Wrappers
  import opened Chat
  import opened SessionRecords
  import opened SessionLog

  datatype Scan = Scan(title: string, count: nat, last: Option<int>, invalid: nat, validStart: bool)

  /** The sanitized, space-normalized text of a message; `clean` is opaque. */
  function TitleOf(clean: string -> string, m: ChatMessage): string {
    if m.kind.User? && m.content.Str? then
      var text := clean(m.content.text);
      if |text| > 60 then text[..60] else text
    else ""
  }

  function Title(clean: string -> string, messages: seq<ChatMessage>, fallback: string): string {
    if messages == [] then fallback
    else if TitleOf(clean, messages[0]) != "" then TitleOf(clean, messages[0])
    else Title(clean, messages[1..], fallback)
  }

  /** A message that gives a title: one of the user, a text, that is not blank when cleaned. */
  predicate Titles(clean: string -> string, m: ChatMessage) {
    m.kind.User? && m.content.Str? && clean(m.content.text) != ""
  }

  /** The title is what the first such message says, cut to 60 characters. */
  lemma {:induction false} TitleMeans(clean: string -> string, messages: seq<ChatMessage>, fallback: string, i: nat)
    requires i < |messages| && Titles(clean, messages[i])
    requires forall j :: 0 <= j < i ==> !Titles(clean, messages[j])
    ensures
      var (text, title) := (clean(messages[i].content.text), Title(clean, messages, fallback));
      title <= text && |title| == if |text| < 60 then |text| else 60
  {
    TitlesIff(clean, messages[0]);
    if i > 0 { TitleMeans(clean, messages[1..], fallback, i - 1); }
  }

  /** Without one it is the session id. */
  lemma {:induction false} NoTitle(clean: string -> string, messages: seq<ChatMessage>, fallback: string)
    requires forall i :: 0 <= i < |messages| ==> !Titles(clean, messages[i])
    ensures Title(clean, messages, fallback) == fallback
  {
    if messages != [] {
      TitlesIff(clean, messages[0]);
      NoTitle(clean, messages[1..], fallback);
    }
  }

  lemma TitlesIff(clean: string -> string, m: ChatMessage)
    ensures TitleOf(clean, m) != "" <==> Titles(clean, m)
    ensures Titles(clean, m) ==>
      var (text, title) := (clean(m.content.text), TitleOf(clean, m));
      title <= text && |title| == if |text| < 60 then |text| else 60
  {
  }

  function ScanMessages(
      clean: string -> string, sessionId: string, s: Scan, op: Operation, messages: seq<ChatMessage>): Scan {
    if op.Replace? then s.(count := |messages|, title := Title(clean, messages, sessionId))
    else s.(count := s.count + |messages|,
            title := if s.title == sessionId then Title(clean, messages, sessionId) else s.title)
  }

  function ScanEntry(clean: string -> string, sessionId: string, s: Scan, e: Entry): Scan {
    var next :=
      match e.body
      case Start(_) => s.(validStart := true)
      case History(op, messages) => ScanMessages(clean, sessionId, s, op, messages)
      case Inbound(op, messages, _) => ScanMessages(clean, sessionId, s, op, messages)
      case _ => s;
    next.(last := Later(s.last, e.at))
  }

  function ScanLine(c: TextCodec, clean: string -> string, sessionId: string, s: Scan, line: Bytes): Scan {
    match ReadEntry(c, sessionId, line)
    case None => s.(invalid := s.invalid + 1)
    case Some(e) => ScanEntry(clean, sessionId, s, e)
  }

  function ScanFrom(c: TextCodec, clean: string -> string, sessionId: string, s: Scan, log: Bytes): Scan
    decreases |log|
  {
    if log == [] then s
    else if NEWLINE !in log then s.(invalid := s.invalid + 1)
    else ScanFrom(c, clean, sessionId, ScanLine(c, clean, sessionId, s, log[..LineEnd(log)]), log[LineEnd(log)..])
  }

  lemma ScanNext(c: TextCodec, clean: string -> string, sessionId: string, s: Scan, log: Bytes)
    ensures log == [] ==> ScanFrom(c, clean, sessionId, s, log) == s
    ensures log != [] && NEWLINE !in log ==> ScanFrom(c, clean, sessionId, s, log) == s.(invalid := s.invalid + 1)
    ensures NEWLINE in log ==>
      ScanFrom(c, clean, sessionId, s, log)
      == ScanFrom(c, clean, sessionId, ScanLine(c, clean, sessionId, s, log[..LineEnd(log)]), log[LineEnd(log)..])
  {
    hide ScanLine;
  }

  lemma ScanLineNext(c: TextCodec, clean: string -> string, sessionId: string, s: Scan, rest: Bytes)
    ensures
      var raw := NextLine(rest);
      && |raw| <= |rest|
      && ScanFrom(c, clean, sessionId, s, rest)
         == if raw == [] then s
            else if raw[|raw| - 1] != NEWLINE then s.(invalid := s.invalid + 1)
            else ScanFrom(c, clean, sessionId, ScanLine(c, clean, sessionId, s, raw), rest[|raw|..])
  {
    NextLineIs(rest);
    ScanNext(c, clean, sessionId, s, rest);
    hide *;
  }

  /** One turn of the loop: what is left to scan after the next line. */
  lemma ScanStep(c: TextCodec, clean: string -> string, sessionId: string, s: Scan, log: Bytes, offset: nat)
    requires offset <= |log|
    ensures
      var raw := NextLine(log[offset..]);
      && |raw| <= |log| - offset
      && ScanFrom(c, clean, sessionId, s, log[offset..])
         == if raw == [] then s
            else if raw[|raw| - 1] != NEWLINE then s.(invalid := s.invalid + 1)
            else ScanFrom(c, clean, sessionId, ScanLine(c, clean, sessionId, s, raw), log[offset + |raw|..])
  {
    hide *;
    var n := |NextLine(log[offset..])|;
    ScanLineNext(c, clean, sessionId, s, log[offset..]);
    RestOf(log, offset, n);
  }

  method ScanFile(c: TextCodec, clean: string -> string, sessionId: string, log: Bytes) returns (s: Scan)
    ensures s == ScanFrom(c, clean, sessionId, Scan(sessionId, 0, None, 0, false), log)
  {
    hide ScanFrom;
    s := Scan(sessionId, 0, None, 0, false);
    ghost var whole := ScanFrom(c, clean, sessionId, s, log);
    var offset := 0;
    assert log[0..] == log;
    while true
      invariant 0 <= offset <= |log|
      invariant ScanFrom(c, clean, sessionId, s, log[offset..]) == whole
      decreases |log| - offset
    {
      hide NextLine, ScanFrom, ReadEntry, ScanEntry;
      ScanStep(c, clean, sessionId, s, log, offset);
      var raw := ReadLine(log, offset);
      if raw == [] {
        break;
      }
      offset := offset + |raw|;
      if raw[|raw| - 1] != NEWLINE {
        return s.(invalid := s.invalid + 1);
      }
      var record := ReadEntry(c, sessionId, raw);
      if record.None? {
        s := s.(invalid := s.invalid + 1);
      } else {
        s := ScanEntry(clean, sessionId, s, record.value);
      }
    }
  }

  // --- The title of the scan ---------------------------------------------------------------

  /** The messages of the last replacing record and those of each appending record after it. */
  function Chunks(c: TextCodec, sessionId: string, chunks: seq<seq<ChatMessage>>, log: Bytes): seq<seq<ChatMessage>>
    decreases |log|
  {
    if NEWLINE !in log then chunks
    else Chunks(c, sessionId, LineChunks(c, sessionId, chunks, log[..LineEnd(log)]), log[LineEnd(log)..])
  }

  function LineChunks(
      c: TextCodec, sessionId: string, chunks: seq<seq<ChatMessage>>, line: Bytes): seq<seq<ChatMessage>> {
    match ReadEntry(c, sessionId, line)
    case None => chunks
    case Some(e) =>
      match e.body
      case History(Append, messages) => chunks + [messages]
      case History(Replace, messages) => [messages]
      case Inbound(Append, messages, _) => chunks + [messages]
      case Inbound(Replace, messages, _) => [messages]
      case _ => chunks
  }

  function Joined(chunks: seq<seq<ChatMessage>>): seq<ChatMessage> {
    if chunks == [] then [] else Joined(chunks[..|chunks| - 1]) + chunks[|chunks| - 1]
  }

  /** The first title of a chunk other than the session id, the session id if there is none. */
  function Chosen(clean: string -> string, sessionId: string, chunks: seq<seq<ChatMessage>>): string {
    if chunks == [] then sessionId
    else
      var before := Chosen(clean, sessionId, chunks[..|chunks| - 1]);
      if before == sessionId then Title(clean, chunks[|chunks| - 1], sessionId) else before
  }

  predicate Titled(clean: string -> string, messages: seq<ChatMessage>) {
    exists i :: 0 <= i < |messages| && TitleOf(clean, messages[i]) != ""
  }

  /** The history is titled with the session id, and some chunk of it otherwise. */
  predicate TitlesPart(clean: string -> string, sessionId: string, chunks: seq<seq<ChatMessage>>) {
    Title(clean, Joined(chunks), sessionId) == sessionId
    && exists k :: 0 <= k < |chunks| && Title(clean, chunks[k], sessionId) != sessionId
  }

  lemma {:induction false} TitleJoin(
      clean: string -> string, a: seq<ChatMessage>, b: seq<ChatMessage>, fallback: string)
    ensures Title(clean, a + b, fallback) == Title(clean, a, Title(clean, b, fallback))
  {
    if a == [] {
      assert a + b == b;
    } else {
      assert (a + b)[1..] == a[1..] + b;
      TitleJoin(clean, a[1..], b, fallback);
    }
  }

  lemma {:induction false} TitledIgnoresFallback(clean: string -> string, a: seq<ChatMessage>, f: string, g: string)
    ensures Titled(clean, a) ==> Title(clean, a, f) == Title(clean, a, g)
    ensures !Titled(clean, a) ==> Title(clean, a, f) == f
  {
    if a != [] {
      TitledIgnoresFallback(clean, a[1..], f, g);
      if TitleOf(clean, a[0]) == "" {
        assert forall i :: 0 < i < |a| ==> a[i] == a[1..][i - 1];
        if Titled(clean, a) {
          var i :| 0 <= i < |a| && TitleOf(clean, a[i]) != "";
          assert TitleOf(clean, a[1..][i - 1]) != "";
        }
      }
    }
  }

  lemma TitledJoin(clean: string -> string, a: seq<ChatMessage>, b: seq<ChatMessage>)
    ensures Titled(clean, a + b) <==> Titled(clean, a) || Titled(clean, b)
  {
    hide TitleOf;
    assert forall i :: 0 <= i < |a| ==> (a + b)[i] == a[i];
    assert forall i :: 0 <= i < |b| ==> (a + b)[|a| + i] == b[i];
  }

  lemma TitleOfBoth(clean: string -> string, a: seq<ChatMessage>, b: seq<ChatMessage>, sessionId: string)
    ensures Title(clean, a + b, sessionId) == if Titled(clean, a) then Title(clean, a, sessionId)
        else Title(clean, b, sessionId)
    ensures !Titled(clean, b) ==> Title(clean, b, sessionId) == sessionId
  {
    hide *;
    TitleJoin(clean, a, b, sessionId);
    TitledIgnoresFallback(clean, a, sessionId, Title(clean, b, sessionId));
    TitledIgnoresFallback(clean, a, Title(clean, b, sessionId), sessionId);
    TitledIgnoresFallback(clean, b, sessionId, sessionId);
  }

  lemma LastChunk(clean: string -> string, sessionId: string, chunks: seq<seq<ChatMessage>>)
    requires chunks != []
    ensures Joined(chunks) == Joined(chunks[..|chunks| - 1]) + chunks[|chunks| - 1]
    ensures
      var before := Chosen(clean, sessionId, chunks[..|chunks| - 1]);
      Chosen(clean, sessionId, chunks) == if before == sessionId then Title(clean, chunks[|chunks| - 1], sessionId)
          else before
  {
    hide Title;
  }

  predicate AllTitledSo(clean: string -> string, sessionId: string, chunks: seq<seq<ChatMessage>>) {
    forall k :: 0 <= k < |chunks| ==> Title(clean, chunks[k], sessionId) == sessionId
  }

  lemma AllButLast(clean: string -> string, sessionId: string, chunks: seq<seq<ChatMessage>>)
    requires chunks != []
    ensures AllTitledSo(clean, sessionId, chunks)
         <==>
         AllTitledSo(clean, sessionId, chunks[..|chunks| - 1])
         && Title(clean, chunks[|chunks| - 1], sessionId) == sessionId
  {
    hide Title;
    var before := chunks[..|chunks| - 1];
    assert forall k :: 0 <= k < |before| ==> before[k] == chunks[k];
  }

  /** What the scan chose against the title of the whole history, chunk by chunk. */
  lemma {:induction false} ChosenIs(clean: string -> string, sessionId: string, chunks: seq<seq<ChatMessage>>)
    ensures Chosen(clean, sessionId, chunks) == sessionId <==> AllTitledSo(clean, sessionId, chunks)
    ensures
      var title, chosen := Title(clean, Joined(chunks), sessionId), Chosen(clean, sessionId, chunks);
      (title != sessionId ==> chosen == title) && (!Titled(clean, Joined(chunks)) ==> chosen == sessionId)
  {
    if chunks != [] {
      hide *;
      var before, last := chunks[..|chunks| - 1], chunks[|chunks| - 1];
      ChosenIs(clean, sessionId, before);
      LastChunk(clean, sessionId, chunks);
      AllButLast(clean, sessionId, chunks);
      TitledJoin(clean, Joined(before), last);
      TitleOfBoth(clean, Joined(before), last, sessionId);
    }
  }

  lemma ChosenIff(clean: string -> string, sessionId: string, chunks: seq<seq<ChatMessage>>)
    ensures Chosen(clean, sessionId, chunks) == Title(clean, Joined(chunks), sessionId)
        <==> !TitlesPart(clean, sessionId, chunks)
  {
    ChosenIs(clean, sessionId, chunks);
    hide Chosen, Title, Joined;
  }

  // --- Scan and replay agree ---------------------------------------------------------------

  ghost predicate Agree(clean: string -> string, sessionId: string, s: Scan, r: Replay, chunks: seq<seq<ChatMessage>>) {
    && s.count == |r.session.messages| && s.last == r.last && s.invalid == r.invalid && s.validStart == r.validStart
    && r.session.messages == Joined(chunks) && s.title == Chosen(clean, sessionId, chunks)
  }

  lemma OneChunk(clean: string -> string, sessionId: string, chunks: seq<seq<ChatMessage>>, chunk: seq<ChatMessage>)
    ensures Joined(chunks + [chunk]) == Joined(chunks) + chunk && Joined([chunk]) == chunk
    ensures
      var before := Chosen(clean, sessionId, chunks);
      Chosen(clean, sessionId, chunks + [chunk]) == if before == sessionId then Title(clean, chunk, sessionId)
          else before
    ensures Chosen(clean, sessionId, [chunk]) == Title(clean, chunk, sessionId)
  {
    hide Title;
    assert (chunks + [chunk])[..|chunks|] == chunks && [chunk][..0] == [];
    assert Joined([]) == [] && Chosen(clean, sessionId, []) == sessionId;
    assert [] + chunk == chunk;
  }

  lemma LineAgrees(
    c: TextCodec, clean: string -> string, sessionId: string, s: Scan, r: Replay, chunks: seq<seq<ChatMessage>>,
    line: Bytes)
    requires Agree(clean, sessionId, s, r, chunks)
    ensures Agree(clean, sessionId, ScanLine(c, clean, sessionId, s, line), ReplayLine(c, sessionId, r, line),
                  LineChunks(c, sessionId, chunks, line))
  {
    var read := ReadEntry(c, sessionId, line);
    hide ReadEntry, Title, Joined, Chosen;
    if read.Some? {
      match read.value.body
      case History(_, messages) => OneChunk(clean, sessionId, chunks, messages);
      case Inbound(_, messages, _) => OneChunk(clean, sessionId, chunks, messages);
      case _ =>
    }
  }

  lemma {:induction false} ScanAgrees(
    c: TextCodec, clean: string -> string, sessionId: string, s: Scan, r: Replay, chunks: seq<seq<ChatMessage>>,
    log: Bytes, offset: nat)
    requires Agree(clean, sessionId, s, r, chunks)
    ensures Agree(clean, sessionId, ScanFrom(c, clean, sessionId, s, log), ReplayFrom(c, sessionId, r, log, offset),
                  Chunks(c, sessionId, chunks, log))
    decreases |log|
  {
    hide ScanLine, ReplayLine, ReplayFrom, LineChunks, Joined, Chosen;
    ReplayNext(c, sessionId, r, log, offset);
    if NEWLINE in log {
      var n := LineEnd(log);
      LineAgrees(c, clean, sessionId, s, r, chunks, log[..n]);
      hide Agree, LineEnd;
      ScanAgrees(c, clean, sessionId, ScanLine(c, clean, sessionId, s, log[..n]), ReplayLine(c, sessionId, r, log[..n]),
                 LineChunks(c, sessionId, chunks, log[..n]), log[n..], offset + n);
    }
  }

  /**
    For every log: scan and replay count the same, and give the same title if and only if it is
    not the case that the history is titled with the session id and some chunk of it otherwise.
  */
  lemma ScanMatchesReplay(c: TextCodec, clean: string -> string, sessionId: string, log: Bytes)
    ensures
      var s, r := ScanFrom(c, clean, sessionId, Scan(sessionId, 0, None, 0, false), log), ReplayLog(c, sessionId, log);
      var chunks := Chunks(c, sessionId, [], log);
      && s.count == |r.session.messages| && s.last == r.last && s.invalid == r.invalid && s.validStart == r.validStart
      && r.session.messages == Joined(chunks)
      && (s.title == Title(clean, r.session.messages, sessionId) <==> !TitlesPart(clean, sessionId, chunks))
  {
    var chunks := Chunks(c, sessionId, [], log);
    ScanAgrees(c, clean, sessionId, Scan(sessionId, 0, None, 0, false), NOTHING, [], log, 0);
    hide ScanFrom, Chunks, TitlesPart, Joined, Chosen, Title, ReplayFrom;
    ChosenIff(clean, sessionId, chunks);
  }

  /**
    After an append the titles still agree exactly unless a message is titled like the session
    and the appended messages bring another title, which the scan then takes.
  */
  lemma AppendTitlesAgreeIff(
      clean: string -> string, sessionId: string, s: Scan, before: seq<ChatMessage>, added: seq<ChatMessage>)
    requires s.title == Title(clean, before, sessionId)
    ensures
      ScanMessages(clean, sessionId, s, Append, added).title == Title(clean, before + added, sessionId)
      <==> !(Titled(clean, before) && s.title == sessionId && Title(clean, added, sessionId) != sessionId)
  {
    TitleJoin(clean, before, added, sessionId);
    TitledIgnoresFallback(clean, before, sessionId, Title(clean, added, sessionId));
    TitledIgnoresFallback(clean, before, Title(clean, added, sessionId), sessionId);
    hide Titled, Title;
  }

  /** A user who first sends the id of the session, then in a later turn something else, makes them part. */
  lemma TitlesCanPart()
    ensures
      var clean, id := (text: string) => text, "20240131-093000-1a2b";
      var first, second := ChatMessage("user", Str(id), User, None), ChatMessage("user", Str("hello"), User, None);
      && TitlesPart(clean, id, [[first], [second]])
      && Chosen(clean, id, [[first], [second]]) == "hello" && Title(clean, [first, second], id) == id
  {
    var clean, id := (text: string) => text, "20240131-093000-1a2b";
    var first, second := ChatMessage("user", Str(id), User, None), ChatMessage("user", Str("hello"), User, None);
    assert TitleOf(clean, first) == id && TitleOf(clean, second) == "hello";
    hide TitleOf;
    OneChunk(clean, id, [], [first]);
    OneChunk(clean, id, [[first]], [second]);
    assert [[first]] + [[second]] == [[first], [second]] && [first] + [second] == [first, second];
    assert [[first], [second]][1] == [second];
  }
}

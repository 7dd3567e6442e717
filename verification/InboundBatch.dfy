/** Rendering of mailbox messages into a bounded batch of chat messages (`src/mewcode/teams/inbound.py`). */
module InboundBatches {
  import opened Wrappers
  import opened Chat
  import opened IdLists
  import opened Mailboxes
  import opened Utf8

  const MAX_BODY: nat := 8 * 1024
  const MARKER := "\n[truncated]"

  datatype Batch = Batch(messages: seq<ChatMessage>, ids: seq<string>)

  datatype BatchError = LimitTooSmall

  /** The length of a JSON text and the bounding of a payload (`_safe_json`) stay opaque. */
  datatype Rendering = Rendering(size: Json -> nat, safe: Json -> Json)

  // --- UTF-8 truncation ---------------------------------------------------------------

  /** The whole characters among the first `room` bytes. */
  function TakeBytes(s: string, room: nat): (t: string)
    ensures t <= s
  {
    if s == "" || Width(s[0]) > room then "" else [s[0]] + TakeBytes(s[1..], room - Width(s[0]))
  }

  function Truncate(value: string, limit: nat): string {
    if Utf8Length(value) <= limit then value
    else TakeBytes(value, if limit < |MARKER| then 0 else limit - |MARKER|) + MARKER
  }

  lemma {:induction false} TakeBytesIsLongest(s: string, room: nat)
    ensures Utf8Length(TakeBytes(s, room)) <= room
    ensures forall k :: |TakeBytes(s, room)| < k <= |s| ==> Utf8Length(s[..k]) > room
  {
    if s != "" {
      var w := Width(s[0]);
      if w <= room { TakeBytesIsLongest(s[1..], room - w); }
      forall k | |TakeBytes(s, room)| < k <= |s| ensures Utf8Length(s[..k]) > room {
        assert s[..k][1..] == s[1..][..k - 1];
      }
    }
  }

  /** A text that fits is kept; a longer one becomes its longest fitting prefix and the marker. */
  lemma TruncateFits(value: string, limit: nat)
    requires |MARKER| <= limit
    ensures Utf8Length(Truncate(value, limit)) <= limit
    ensures Utf8Length(value) <= limit ==> Truncate(value, limit) == value
    ensures Utf8Length(value) > limit ==>
      var n := |Truncate(value, limit)| - |MARKER|;
      && 0 <= n < |value| && Truncate(value, limit) == value[..n] + MARKER
      && Utf8Length(value[..n + 1]) + |MARKER| > limit
  {
    var room := limit - |MARKER|;
    if Utf8Length(value) > limit {
      var kept := TakeBytes(value, room);
      assert Truncate(value, limit) == kept + MARKER;
      MarkerLength();
      LongestPart(value, room, kept);
      hide TakeBytes, Utf8Length, Truncate;
      Utf8Join(kept, MARKER);
    }
  }

  lemma LongestPart(value: string, room: nat, kept: string)
    requires Utf8Length(value) > room && kept == TakeBytes(value, room)
    ensures Utf8Length(kept) <= room && |kept| < |value| && kept == value[..|kept|]
    ensures Utf8Length(value[..|kept| + 1]) > room
  {
    TakeBytesIsLongest(value, room);
    hide TakeBytes, Utf8Length;
    assert |kept| == |value| ==> kept == value;
  }

  lemma MarkerLength()
    ensures Utf8Length(MARKER) == |MARKER|
  {
    AsciiLength(MARKER);
  }

  // --- The batch ------------------------------------------------------------------------

  function Content(r: Rendering, m: Mail, body: string, payload: Json): Json {
    Obj(map["boundary" := Str("untrusted_team_peer_message"), "message_id" := Str(m.id), "sender_id" := Str(m.sender),
            "summary" := Str(m.summary), "protocol" := Str(m.protocol), "body" := Str(body), "payload" := payload])
  }

  function FullContent(r: Rendering, m: Mail): Json {
    Content(r, m, Truncate(m.body, MAX_BODY), r.safe(m.payload))
  }

  function Size(r: Rendering, m: Mail): nat {
    r.size(FullContent(r, m))
  }

  /** A message that alone is over the limit loses most of its body and its payload. */
  function Rendered(r: Rendering, m: Mail, limit: nat): ChatMessage {
    var content :=
      if Size(r, m) > limit
      then Content(r, m, Truncate(Truncate(m.body, MAX_BODY), limit / 4), Obj(map["truncated" := Bool(true)]))
      else FullContent(r, m);
    ChatMessage("user", content, TeamInbound, None)
  }

  // --- What a message of a batch shows --------------------------------------------------------------

  /** A text that fits stays; a longer one is cut to its longest prefix that leaves room for the marker. */
  predicate Bounds(value: string, limit: nat, shown: string) {
    && (Utf8Length(value) <= limit ==> shown == value)
    && (Utf8Length(value) > limit ==>
          exists n :: 0 <= n < |value| && shown == value[..n] + MARKER
                   && Utf8Length(value[..n]) + |MARKER| <= limit < Utf8Length(value[..n + 1]) + |MARKER|)
  }

  /** Field by field, the JSON that shows message `m` with this body and payload. */
  predicate Shows(m: Mail, body: string, payload: Json, j: Json) {
    && j.Obj?
    && j.fields.Keys == {"boundary", "message_id", "sender_id", "summary", "protocol", "body", "payload"}
    && j.fields["boundary"] == Str("untrusted_team_peer_message")
    && j.fields["message_id"] == Str(m.id) && j.fields["sender_id"] == Str(m.sender)
    && j.fields["summary"] == Str(m.summary) && j.fields["protocol"] == Str(m.protocol)
    && j.fields["body"] == Str(body) && j.fields["payload"] == payload
  }

  /** The mark that stands for a payload too large for the batch. */
  predicate CutMark(payload: Json) {
    payload.Obj? && payload.fields == map["truncated" := Bool(true)]
  }

  /**
    A chat message that delivers `m`: its bounded body and its payload when they are within the limit together,
    and otherwise at most a quarter of the limit of the body and the mark for its payload.
  */
  ghost predicate Delivers(r: Rendering, m: Mail, limit: nat, x: ChatMessage) {
    && x.role == "user" && x.kind.TeamInbound? && x.groupId.None?
    && exists bounded: string, full: Json ::
         && Bounds(m.body, MAX_BODY, bounded) && Shows(m, bounded, r.safe(m.payload), full)
         && (r.size(full) <= limit ==> x.content == full)
         && (r.size(full) > limit ==>
               exists cut: string, mark: Json ::
                 Bounds(bounded, limit / 4, cut) && Utf8Length(cut) <= limit / 4 && CutMark(mark)
                 && Shows(m, cut, mark, x.content))
  }

  lemma TruncateBounds(value: string, limit: nat)
    requires |MARKER| <= limit
    ensures Bounds(value, limit, Truncate(value, limit)) && Utf8Length(Truncate(value, limit)) <= limit
  {
    TruncateFits(value, limit);
    hide Utf8Length;
    if Utf8Length(value) > limit {
      var n := |Truncate(value, limit)| - |MARKER|;
      assert Truncate(value, limit) == value[..n] + MARKER;
      MarkerLength();
      Utf8Join(value[..n], MARKER);
    }
  }

  lemma ContentShows(r: Rendering, m: Mail, body: string, payload: Json)
    ensures Shows(m, body, payload, Content(r, m, body, payload))
  {
  }

  lemma RenderedDelivers(r: Rendering, m: Mail, limit: nat)
    requires limit >= 512
    ensures Delivers(r, m, limit, Rendered(r, m, limit))
  {
    var bounded, mark := Truncate(m.body, MAX_BODY), Obj(map["truncated" := Bool(true)]);
    TruncateBounds(m.body, MAX_BODY);
    TruncateBounds(bounded, limit / 4);
    ContentShows(r, m, bounded, r.safe(m.payload));
    ContentShows(r, m, Truncate(bounded, limit / 4), mark);
    assert CutMark(mark);
    hide Bounds, Shows, Truncate, Content, Utf8Length, CutMark;
  }

  /** Each message of a batch delivers the message at its place. */
  lemma BatchDelivers(r: Rendering, mails: seq<Mail>, limit: nat)
    requires limit >= 512 && mails != []
    ensures
      var b := BatchOf(r, mails, limit).value;
      && |b.messages| == |b.ids| <= |mails|
      && forall i :: 0 <= i < |b.messages| ==> b.ids[i] == mails[i].id && Delivers(r, mails[i], limit, b.messages[i])
  {
    var b := BatchOf(r, mails, limit).value;
    hide Delivers, Rendered;
    forall i | 0 <= i < |b.messages| ensures Delivers(r, mails[i], limit, b.messages[i]) {
      RenderedDelivers(r, mails[i], limit);
    }
  }

  function Total(r: Rendering, mails: seq<Mail>): nat {
    if mails == [] then 0 else Total(r, mails[..|mails| - 1]) + Size(r, mails[|mails| - 1])
  }

  /** The size of a batch is the sum of the sizes that its messages have when nothing of them is cut. */
  lemma {:induction false} TotalJoin(r: Rendering, a: seq<Mail>, b: seq<Mail>)
    ensures Total(r, a + b) == Total(r, a) + Total(r, b)
    ensures forall m :: Total(r, [m]) == Size(r, m)
    decreases |b|
  {
    if b == [] {
      assert a + b == a;
    } else {
      assert (a + b)[..|a + b| - 1] == a + b[..|b| - 1];
      TotalJoin(r, a, b[..|b| - 1]);
    }
    forall m ensures Total(r, [m]) == Size(r, m) { assert [m][..0] == []; }
  }

  lemma {:induction false} TotalGrows(r: Rendering, mails: seq<Mail>, i: nat, j: nat)
    requires i <= j <= |mails|
    ensures Total(r, mails[..i]) <= Total(r, mails[..j])
    decreases j
  {
    if i < j {
      assert mails[..j][..j - 1] == mails[..j - 1];
      TotalGrows(r, mails, i, j - 1);
    }
  }

  /** `n` leading messages go into a batch: the first always does, the next ones while all fit. */
  predicate Takes(r: Rendering, mails: seq<Mail>, limit: nat, n: nat) {
    && n <= |mails| && (n == 0 <==> mails == [])
    && (n > 1 ==> Total(r, mails[..n]) <= limit)
    && (0 < n < |mails| ==> Total(r, mails[..n + 1]) > limit)
  }

  lemma TakesIsUnique(r: Rendering, mails: seq<Mail>, limit: nat, n: nat, m: nat)
    requires Takes(r, mails, limit, n) && Takes(r, mails, limit, m)
    ensures n == m
  {
    if n < m {
      TotalGrows(r, mails, n + 1, m);
    } else if m < n {
      TotalGrows(r, mails, m + 1, n);
    }
  }

  function Count(r: Rendering, mails: seq<Mail>, limit: nat): (n: nat)
    ensures Takes(r, mails, limit, n)
  {
    if |mails| <= 1 then |mails|
    else
      var before := mails[..|mails| - 1];
      var n := Count(r, before, limit);
      assert mails[..|mails|] == mails && before[..|before|] == before;
      assert n < |before| ==> before[..n + 1] == mails[..n + 1];
      assert before[..n] == mails[..n];
      if n == |before| && Total(r, mails) <= limit then |mails| else n
  }

  /** What `render_inbound_batch` returns for the messages `mails`. */
  function BatchOf(r: Rendering, mails: seq<Mail>, limit: nat): Option<Batch> {
    if mails == [] then None
    else
      var n := Count(r, mails, limit);
      Some(Batch(seq(n, i requires 0 <= i < n => Rendered(r, mails[i], limit)), MailIds(mails[..n])))
  }

  /** A batch holds as many leading messages as fit, never none when there is one to send. */
  lemma BatchMakesProgress(r: Rendering, mails: seq<Mail>, limit: nat)
    ensures BatchOf(r, mails, limit).None? <==> mails == []
    ensures mails != [] ==>
      var b := BatchOf(r, mails, limit).value;
      var n := |b.ids|;
      && 1 <= n <= |mails| && |b.messages| == n && b.ids == MailIds(mails)[..n]
      && (n > 1 ==> Total(r, mails[..n]) <= limit)
      && (n < |mails| ==> Total(r, mails[..n + 1]) > limit)
      && forall i :: 0 <= i < n ==> b.messages[i].role == "user" && b.messages[i].kind.TeamInbound?
  {
    hide Size, Content;
    if mails != [] { assert MailIds(mails[..Count(r, mails, limit)]) == MailIds(mails)[..Count(r, mails, limit)]; }
  }

  method RenderInboundBatch(
      r: Rendering, mails: seq<Mail>, limit: nat) returns (batch: Result<Option<Batch>, BatchError>)
    ensures batch.Err? <==> limit < 512
    ensures batch.Ok? ==> batch.value == BatchOf(r, mails, limit)
  {
    hide Rendered, Content, Size;
    if limit < 512 {
      return Err(LimitTooSmall);
    }
    var rendered: seq<ChatMessage>, ids: seq<string>, used := [], [], 0;
    var k := 0;
    while k < |mails|
      invariant 0 <= k <= |mails|
      invariant |rendered| == k && forall i :: 0 <= i < k ==> rendered[i] == Rendered(r, mails[i], limit)
      invariant ids == MailIds(mails[..k])
      invariant used == Total(r, mails[..k]) && (k > 1 ==> used <= limit)
    {
      var size := Size(r, mails[k]);
      assert mails[..k + 1][..k] == mails[..k];
      assert Total(r, mails[..k + 1]) == used + size;
      if rendered != [] && used + size > limit {
        break;
      }
      rendered := rendered + [Rendered(r, mails[k], limit)];
      ids := ids + [mails[k].id];
      used := used + size;
      k := k + 1;
    }
    if rendered == [] {
      return Ok(None);
    }
    TakesIsUnique(r, mails, limit, k, Count(r, mails, limit));
    assert rendered == BatchOf(r, mails, limit).value.messages;
    return Ok(Some(Batch(rendered, ids)));
  }

  // --- The source -----------------------------------------------------------------------

  /** The delivered ids of a page, marked read again after a restart. */
  function RepairIds(page: seq<Mail>, delivered: set<string>): seq<string> {
    Keep(MailIds(page), delivered)
  }

  datatype PollError = PageLimit | BatchLimit

  class MailboxInboundSource {
    const mailbox: TeamMailbox
    const rendering: Rendering
    const pageLimit: int
    const batchLimit: nat

    constructor (mailbox: TeamMailbox, rendering: Rendering, pageLimit: int, batchLimit: nat)
      ensures this.mailbox == mailbox && this.rendering == rendering
      ensures this.pageLimit == pageLimit && this.batchLimit == batchLimit
    {
      this.mailbox, this.rendering, this.pageLimit, this.batchLimit := mailbox, rendering, pageLimit, batchLimit;
    }

    /** Marks the delivered messages of a page read and renders the others. */
    method Poll(committed: set<string>) returns (r: Result<Option<Batch>, PollError>)
      modifies mailbox
      ensures r == Err(PageLimit) <==> !(1 <= pageLimit <= 1000)
      ensures r == Err(PageLimit) ==> mailbox.records == old(mailbox.records)
      ensures r != Err(PageLimit) ==>
        var page := FirstUnread(old(mailbox.records), pageLimit);
        && mailbox.records == AppendRead(old(mailbox.records), RepairIds(page, committed))
        && r == if batchLimit < 512 then Err(BatchLimit)
            else Ok(BatchOf(rendering, Except(page, committed), batchLimit))
    {
      var page := mailbox.ListUnread(pageLimit);
      if page.None? {
        return Err(PageLimit);
      }
      var repair, fresh_ := Divide(page.value, committed);
      if repair != [] {
        var _ := mailbox.MarkRead(repair);
      }
      var batch := RenderInboundBatch(rendering, fresh_, batchLimit);
      return if batch.Err? then Err(BatchLimit) else Ok(batch.value);
    }

    static method Divide(page: seq<Mail>, committed: set<string>) returns (repair: seq<string>, rest: seq<Mail>)
      ensures repair == RepairIds(page, committed) && rest == Except(page, committed)
    {
      repair, rest := [], [];
      var i := 0;
      assert page[0..] == page;
      while i < |page|
        invariant 0 <= i <= |page|
        invariant repair + RepairIds(page[i..], committed) == RepairIds(page, committed)
        invariant rest + Except(page[i..], committed) == Except(page, committed)
      {
        assert page[i..][1..] == page[i + 1..];
        assert MailIds(page[i..])[1..] == MailIds(page[i + 1..]);
        if page[i].id in committed {
          repair := repair + [page[i].id];
        } else {
          rest := rest + [page[i]];
        }
        i := i + 1;
      }
    }

    method Acknowledge(batch: Batch)
      modifies mailbox
      ensures mailbox.records == AppendRead(old(mailbox.records), batch.ids)
    {
      var _ := mailbox.MarkRead(batch.ids);
    }
  }
}

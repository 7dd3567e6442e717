/**
  The records of the session event log: how they are written as JSON and read back
  (`src/mewcode/continuity/session_codec.py`).
*/
module SessionRecords {
  import opened Wrappers
  import opened Chat
  import opened IdLists
  import Text

  newtype Byte = x: int | 0 <= x < 256

  type Bytes = seq<Byte>

  const NEWLINE: Byte := 10

  /** JSON text and ISO timestamps stay opaque; times are seconds. */
  datatype TextCodec = TextCodec(
    dumps: Json -> Bytes,
    loads: Bytes -> Option<Json>,
    iso: int -> string,
    fromIso: string -> Option<int>)

  /** Loading undoes dumping, and a dumped value has no newline (RFC 8259, section 7). */
  ghost predicate CodecOk(c: TextCodec) {
    && (forall j: Json :: c.loads(c.dumps(j) + [NEWLINE]) == Some(j) && NEWLINE !in c.dumps(j))
    && (forall t: int :: c.fromIso(c.iso(t)) == Some(t))
  }

  // --- Records --------------------------------------------------------------------------

  datatype Operation = Append | Replace

  datatype StoredPlan = StoredPlan(task: string, text: string)

  datatype Skill = Skill(name: string, input: string)

  datatype Body =
    | Start(sessionId: string)
    | History(operation: Operation, messages: seq<ChatMessage>)
    | Inbound(operation: Operation, messages: seq<ChatMessage>, ids: seq<string>)
    | PlanState(plan: Option<StoredPlan>)
    | SkillState(skills: seq<Skill>)

  datatype Entry = Entry(at: int, body: Body)

  function KindName(k: MessageKind): string {
    match k
    case User => "user"
    case Assistant => "assistant"
    case Internal => "internal"
    case ToolCall => "tool_call"
    case ToolResult => "tool_result"
    case Summary => "summary"
    case Boundary => "boundary"
    case ResumeNotice => "resume_notice"
    case TeamInbound => "team_inbound"
  }

  const KINDS: seq<MessageKind> :=
    [User, Assistant, Internal, ToolCall, ToolResult, Summary, Boundary, ResumeNotice, TeamInbound]

  function FindKind(name: string, kinds: seq<MessageKind>): Option<MessageKind> {
    if kinds == [] then None
    else if KindName(kinds[0]) == name then Some(kinds[0])
    else FindKind(name, kinds[1..])
  }

  function EncodeMessage(m: ChatMessage): Json {
    Obj(map["role" := Str(m.role), "kind" := Str(KindName(m.kind)),
            "group_id" := if m.groupId.Some? then Str(m.groupId.value) else Null, "content" := m.content])
  }

  function DecodeMessage(j: Json): Option<ChatMessage> {
    if !j.Obj? || j.fields.Keys != {"role", "kind", "group_id", "content"} then None
    else
      var role, kind, group := j.fields["role"], j.fields["kind"], j.fields["group_id"];
      if !role.Str? || role.text == "" || !kind.Str? || FindKind(kind.text, KINDS).None? then None
      else if !group.Null? && !group.Str? then None
      else Some(ChatMessage(role.text, j.fields["content"], FindKind(kind.text, KINDS).value,
                            if group.Null? then None else Some(group.text)))
  }

  function EncodeMessages(messages: seq<ChatMessage>): seq<Json> {
    seq(|messages|, i requires 0 <= i < |messages| => EncodeMessage(messages[i]))
  }

  function DecodeMessages(items: seq<Json>): Option<seq<ChatMessage>> {
    if items == [] then Some([])
    else
      var head, tail := DecodeMessage(items[0]), DecodeMessages(items[1..]);
      if head.Some? && tail.Some? then Some([head.value] + tail.value) else None
  }

  function EncodeSkills(skills: seq<Skill>): seq<Json> {
    seq(|skills|,
        i requires 0 <= i < |skills| => Obj(map["name" := Str(skills[i].name), "input" := Str(skills[i].input)]))
  }

  function DecodeSkills(items: seq<Json>, seen: set<string>): Option<seq<Skill>> {
    if items == [] then Some([])
    else
      var j := items[0];
      if !j.Obj? || j.fields.Keys != {"name", "input"} || !j.fields["name"].Str? || !j.fields["input"].Str? then None
      else
        var name := j.fields["name"].text;
        if name == "" || name in seen then None
        else
          var tail := DecodeSkills(items[1..], seen + {name});
          if tail.Some? then Some([Skill(name, j.fields["input"].text)] + tail.value) else None
  }

  function EncodePlan(plan: Option<StoredPlan>): Json {
    if plan.None? then Null else Obj(map["task" := Str(plan.value.task), "text" := Str(plan.value.text)])
  }

  function DecodePlan(j: Json): Option<Option<StoredPlan>> {
    if j.Null? then Some(None)
    else if !j.Obj? || j.fields.Keys != {"task", "text"} then None
    else
      var task, text := j.fields["task"], j.fields["text"];
      if !task.Str? || Text.IsBlank(task.text) || !text.Str? || Text.IsBlank(text.text) then None
      else Some(Some(StoredPlan(task.text, text.text)))
  }

  function EncodeIds(ids: seq<string>): seq<Json> {
    seq(|ids|, i requires 0 <= i < |ids| => Str(ids[i]))
  }

  function DecodeIds(items: seq<Json>): Option<seq<string>> {
    if exists i :: 0 <= i < |items| && (!items[i].Str? || items[i].text == "") then None
    else
      var ids := seq(|items|, i requires 0 <= i < |items| => if items[i].Str? then items[i].text else "");
      if NoDuplicates(ids) then Some(ids) else None
  }

  function OperationName(op: Operation): string {
    if op.Append? then "append" else "replace"
  }

  /** The fields besides `version`, `type` and `at`. */
  function BodyFields(b: Body): map<string, Json> {
    match b
    case Start(id) => map["session_id" := Str(id)]
    case History(op, messages) =>
      map["operation" := Str(OperationName(op)), "messages" := Arr(EncodeMessages(messages))]
    case Inbound(op, messages, ids) =>
      map["operation" := Str(OperationName(op)), "messages" := Arr(EncodeMessages(messages)),
          "inbound_ids" := Arr(EncodeIds(ids))]
    case PlanState(plan) => map["pending_plan" := EncodePlan(plan)]
    case SkillState(skills) => map["active_skills" := Arr(EncodeSkills(skills))]
  }

  function BodyType(b: Body): string {
    match b
    case Start(_) => "start"
    case History(_, _) => "history"
    case Inbound(_, _, _) => "inbound_history"
    case PlanState(_) => "plan_state"
    case SkillState(_) => "skill_state"
  }

  function EncodeEntry(c: TextCodec, e: Entry): Json {
    Obj(map["version" := Num(1), "type" := Str(BodyType(e.body)), "at" := Str(c.iso(e.at))] + BodyFields(e.body))
  }

  /** `dict.get`. */
  function Field(j: Json, key: string): Json {
    if j.Obj? && key in j.fields then j.fields[key] else Null
  }

  function DecodeOperation(j: Json): Option<Operation> {
    if j == Str("append") then Some(Append) else if j == Str("replace") then Some(Replace) else None
  }

  function DecodeBody(sessionId: string, j: Json): Option<Body> {
    var messages :=
      if Field(j, "messages").Arr? then DecodeMessages(Field(j, "messages").items) else None;
    var operation := DecodeOperation(Field(j, "operation"));
    match Field(j, "type")
    case Str(name) =>
      if name == "start" then
        (if Field(j, "session_id") == Str(sessionId) then Some(Start(sessionId)) else None)
      else if name == "history" then
        (if messages.Some? && operation.Some? then Some(History(operation.value, messages.value)) else None)
      else if name == "inbound_history" then
        var ids := if Field(j, "inbound_ids").Arr? then DecodeIds(Field(j, "inbound_ids").items) else None;
        (if messages.Some? && operation.Some? && ids.Some? && |messages.value| == |ids.value|
         then Some(Inbound(operation.value, messages.value, ids.value)) else None)
      else if name == "plan_state" then
        var plan := DecodePlan(Field(j, "pending_plan"));
        (if plan.Some? then Some(PlanState(plan.value)) else None)
      else if name == "skill_state" then
        var skills := if Field(j, "active_skills").Arr? then DecodeSkills(Field(j, "active_skills").items, {})
            else None;
        (if skills.Some? then Some(SkillState(skills.value)) else None)
      else None
    case _ => None
  }

  /** The reading of one record; None when it raises. In Python `True == 1`. */
  function DecodeEntry(c: TextCodec, sessionId: string, j: Json): Option<Entry> {
    if !j.Obj? || (Field(j, "version") != Num(1) && Field(j, "version") != Bool(true)) then None
    else if !Field(j, "at").Str? || c.fromIso(Field(j, "at").text).None? then None
    else
      var body := DecodeBody(sessionId, j);
      if body.Some? then Some(Entry(c.fromIso(Field(j, "at").text).value, body.value)) else None
  }

  // --- Round trip ---------------------------------------------------------------------------

  predicate GoodMessages(messages: seq<ChatMessage>) {
    forall i :: 0 <= i < |messages| ==> messages[i].role != ""
  }

  predicate GoodPlan(plan: Option<StoredPlan>) {
    plan.Some? ==> !Text.IsBlank(plan.value.task) && !Text.IsBlank(plan.value.text)
  }

  function Names(skills: seq<Skill>): seq<string> {
    seq(|skills|, i requires 0 <= i < |skills| => skills[i].name)
  }

  predicate GoodSkills(skills: seq<Skill>) {
    "" !in Names(skills) && NoDuplicates(Names(skills))
  }

  predicate GoodIds(ids: seq<string>) {
    "" !in ids && NoDuplicates(ids)
  }

  /** The records that a replay accepts. */
  predicate GoodBody(sessionId: string, b: Body) {
    match b
    case Start(id) => id == sessionId
    case History(_, messages) => GoodMessages(messages)
    case Inbound(_, messages, ids) => GoodMessages(messages) && GoodIds(ids) && |messages| == |ids|
    case PlanState(plan) => GoodPlan(plan)
    case SkillState(skills) => GoodSkills(skills)
  }

  lemma MessageRoundTrip(m: ChatMessage)
    ensures DecodeMessage(EncodeMessage(m)) == if m.role == "" then None else Some(m)
  {
    assert FindKind(KindName(m.kind), KINDS) == Some(m.kind) by {
      hide *;
      KindRoundTrip(m.kind);
    }
    hide FindKind, KindName;
    assert EncodeMessage(m).fields.Keys == {"role", "kind", "group_id", "content"};
  }

  lemma {:induction false} KindRoundTrip(k: MessageKind)
    ensures FindKind(KindName(k), KINDS) == Some(k)
  {
    KindFound(k, KINDS);
  }

  lemma {:induction false} KindFound(k: MessageKind, kinds: seq<MessageKind>)
    requires k in kinds
    ensures FindKind(KindName(k), kinds) == Some(k)
  {
    if kinds[0] != k {
      KindFound(k, kinds[1..]);
      KindNamesDiffer(kinds[0], k);
    }
  }

  lemma KindNamesDiffer(a: MessageKind, b: MessageKind)
    requires a != b
    ensures KindName(a) != KindName(b)
  {
    assert |"user"| == 4 && |"assistant"| == 9 && |"internal"| == 8 && |"tool_call"| == 9 && |"tool_result"| == 11;
    assert |"summary"| == 7 && |"boundary"| == 8 && |"resume_notice"| == 13 && |"team_inbound"| == 12;
    assert "assistant"[0] != "tool_call"[0] && "internal"[0] != "boundary"[0];
  }

  lemma {:induction false} MessagesRoundTrip(messages: seq<ChatMessage>)
    ensures DecodeMessages(EncodeMessages(messages)) == if GoodMessages(messages) then Some(messages) else None
  {
    if messages != [] {
      MessageRoundTrip(messages[0]);
      MessagesRoundTrip(messages[1..]);
      hide DecodeMessage, EncodeMessage;
      assert EncodeMessages(messages)[1..] == EncodeMessages(messages[1..]);
      assert [messages[0]] + messages[1..] == messages;
      assert GoodMessages(messages) <==> messages[0].role != "" && GoodMessages(messages[1..]);
    }
  }

  lemma SkillsFirst(skills: seq<Skill>, seen: set<string>)
    requires skills != []
    ensures
      var name := skills[0].name;
      var tail := DecodeSkills(EncodeSkills(skills[1..]), seen + {name});
      DecodeSkills(EncodeSkills(skills), seen)
      == if name == "" || name in seen || tail.None? then None else Some([skills[0]] + tail.value)
  {
    assert EncodeSkills(skills)[0].fields.Keys == {"name", "input"};
    assert EncodeSkills(skills)[1..] == EncodeSkills(skills[1..]);
    hide EncodeSkills;
  }

  lemma GoodFirst(skills: seq<Skill>, seen: set<string>)
    requires skills != []
    ensures
      var name, rest := skills[0].name, skills[1..];
      GoodSkills(skills) && (forall i :: 0 <= i < |skills| ==> skills[i].name !in seen)
      <==>
      name != "" && name !in seen && GoodSkills(rest) && forall i :: 0 <= i < |rest| ==> rest[i].name !in seen + {name}
  {
    var name, rest := skills[0].name, skills[1..];
    assert Names(skills) == [name] + Names(rest);
    NoDuplicatesCons(name, Names(rest));
    SeenFirst(skills, seen);
    hide Names, NoDuplicates;
  }

  lemma SeenFirst(skills: seq<Skill>, seen: set<string>)
    requires skills != []
    ensures
      var name, rest := skills[0].name, skills[1..];
      name !in Names(rest) && (forall i :: 0 <= i < |skills| ==> skills[i].name !in seen)
      <==> name !in seen && (forall i :: 0 <= i < |rest| ==> rest[i].name !in seen + {name})
  {
    var rest := skills[1..];
    assert forall i :: 0 <= i < |rest| ==> rest[i] == skills[i + 1] && Names(rest)[i] == rest[i].name;
  }

  lemma {:induction false} SkillsRoundTrip(skills: seq<Skill>, seen: set<string>)
    ensures
      DecodeSkills(EncodeSkills(skills), seen)
      == if GoodSkills(skills) && (forall i :: 0 <= i < |skills| ==> skills[i].name !in seen) then Some(skills)
          else None
  {
    if skills != [] {
      var name, rest := skills[0].name, skills[1..];
      SkillsFirst(skills, seen);
      GoodFirst(skills, seen);
      hide *;
      SkillsRoundTrip(rest, seen + {name});
      assert [skills[0]] + rest == skills;
    }
  }

  lemma IdsRoundTrip(ids: seq<string>)
    ensures DecodeIds(EncodeIds(ids)) == if GoodIds(ids) then Some(ids) else None
  {
    var items := EncodeIds(ids);
    var back := seq(|items|, i requires 0 <= i < |items| => if items[i].Str? then items[i].text else "");
    assert back == ids;
    assert (exists i :: 0 <= i < |items| && (!items[i].Str? || items[i].text == "")) <==> "" in ids;
  }

  lemma PlanRoundTrip(plan: Option<StoredPlan>)
    ensures DecodePlan(EncodePlan(plan)) == if GoodPlan(plan) then Some(plan) else None
  {
    if plan.Some? { assert EncodePlan(plan).fields.Keys == {"task", "text"}; }
  }

  /** A record is read back exactly when it is good, and then as it was written. */
  lemma EntryRoundTrip(c: TextCodec, sessionId: string, e: Entry)
    requires CodecOk(c)
    ensures DecodeEntry(c, sessionId, EncodeEntry(c, e)) == if GoodBody(sessionId, e.body) then Some(e) else None
  {
    var j := EncodeEntry(c, e);
    assert Field(j, "version") == Num(1) && Field(j, "at") == Str(c.iso(e.at))
        && Field(j, "type") == Str(BodyType(e.body));
    BodyRoundTrip(sessionId, e.body, j);
  }

  lemma BodyRoundTrip(sessionId: string, b: Body, j: Json)
    requires j.Obj? && Field(j, "type") == Str(BodyType(b))
    requires forall key :: key in BodyFields(b) ==> Field(j, key) == BodyFields(b)[key]
    ensures DecodeBody(sessionId, j) == if GoodBody(sessionId, b) then Some(b) else None
  {
    hide GoodBody, DecodeBody;
    match b
    case History(_, _) => HistoryRoundTrip(sessionId, b, j);
    case Inbound(_, _, _) => InboundRoundTrip(sessionId, b, j);
    case _ => StateRoundTrip(sessionId, b, j);
  }

  lemma HistoryRoundTrip(sessionId: string, b: Body, j: Json)
    requires b.History? && j.Obj? && Field(j, "type") == Str(BodyType(b))
    requires forall key :: key in BodyFields(b) ==> Field(j, key) == BodyFields(b)[key]
    ensures DecodeBody(sessionId, j) == if GoodBody(sessionId, b) then Some(b) else None
  {
    hide DecodeMessages, DecodeSkills, DecodeIds, DecodePlan, GoodMessages;
    assert Field(j, "messages") == Arr(EncodeMessages(b.messages))
        && Field(j, "operation") == Str(OperationName(b.operation));
    MessagesRoundTrip(b.messages);
  }

  lemma InboundRoundTrip(sessionId: string, b: Body, j: Json)
    requires b.Inbound? && j.Obj? && Field(j, "type") == Str(BodyType(b))
    requires forall key :: key in BodyFields(b) ==> Field(j, key) == BodyFields(b)[key]
    ensures DecodeBody(sessionId, j) == if GoodBody(sessionId, b) then Some(b) else None
  {
    hide DecodeMessages, DecodeSkills, DecodeIds, DecodePlan, GoodMessages, GoodIds;
    assert Field(j, "messages") == Arr(EncodeMessages(b.messages))
        && Field(j, "operation") == Str(OperationName(b.operation));
    assert Field(j, "inbound_ids") == Arr(EncodeIds(b.ids));
    MessagesRoundTrip(b.messages);
    IdsRoundTrip(b.ids);
  }

  lemma StateRoundTrip(sessionId: string, b: Body, j: Json)
    requires (b.Start? || b.PlanState? || b.SkillState?) && j.Obj? && Field(j, "type") == Str(BodyType(b))
    requires forall key :: key in BodyFields(b) ==> Field(j, key) == BodyFields(b)[key]
    ensures DecodeBody(sessionId, j) == if GoodBody(sessionId, b) then Some(b) else None
  {
    hide DecodeMessages, DecodeSkills, DecodeIds, DecodePlan, GoodSkills, GoodPlan;
    match b
    case PlanState(plan) =>
      assert Field(j, "pending_plan") == EncodePlan(plan);
      PlanRoundTrip(plan);
    case SkillState(skills) =>
      assert Field(j, "active_skills") == Arr(EncodeSkills(skills));
      SkillsRoundTrip(skills, {});
    case Start(_) =>
  }

  // --- What is read ---------------------------------------------------------------------------

  lemma {:induction false} KindIsNamed(name: string, kinds: seq<MessageKind>)
    ensures var k := FindKind(name, kinds); k.Some? ==> KindName(k.value) == name
  {
    hide KindName;
    if kinds != [] { KindIsNamed(name, kinds[1..]); }
  }

  /** Only what encodes the message is read as it. */
  lemma MessageIsRead(j: Json)
    ensures var m := DecodeMessage(j); m.Some? ==> j == EncodeMessage(m.value)
  {
    hide FindKind, KindName;
    if DecodeMessage(j).Some? {
      KindIsNamed(j.fields["kind"].text, KINDS);
      assert j.fields == EncodeMessage(DecodeMessage(j).value).fields;
    }
  }

  lemma {:induction false} MessagesAreRead(items: seq<Json>)
    ensures var ms := DecodeMessages(items); ms.Some? ==> items == EncodeMessages(ms.value)
  {
    if items != [] {
      MessageIsRead(items[0]);
      MessagesAreRead(items[1..]);
      hide DecodeMessage, EncodeMessage;
      var ms := DecodeMessages(items);
      if ms.Some? { assert items == [items[0]] + items[1..]; }
    }
  }

  lemma {:induction false} SkillsAreRead(items: seq<Json>, seen: set<string>)
    ensures var skills := DecodeSkills(items, seen); skills.Some? ==> items == EncodeSkills(skills.value)
  {
    var skills := DecodeSkills(items, seen);
    if items != [] && skills.Some? {
      var j, s := items[0], skills.value[0];
      SkillsAreRead(items[1..], seen + {s.name});
      assert j.fields == map["name" := Str(s.name), "input" := Str(s.input)];
      assert items == [j] + items[1..] && skills.value == [s] + skills.value[1..];
    }
  }

  lemma IdsAreRead(items: seq<Json>)
    ensures var ids := DecodeIds(items); ids.Some? ==> items == EncodeIds(ids.value)
  {
  }

  lemma PlanIsRead(j: Json)
    ensures var plan := DecodePlan(j); plan.Some? ==> j == EncodePlan(plan.value)
  {
    hide Text.IsBlank;
    var plan := DecodePlan(j);
    if plan.Some? && plan.value.Some? { assert j.fields == EncodePlan(plan.value).fields; }
  }

  /** The record is of the type of the body and holds each of its fields; others do not matter. */
  predicate Carries(j: Json, b: Body) {
    Field(j, "type") == Str(BodyType(b)) && forall key :: key in BodyFields(b) ==> Field(j, key) == BodyFields(b)[key]
  }

  lemma BodyIsRead(sessionId: string, j: Json)
    ensures var b := DecodeBody(sessionId, j); b.Some? ==> Carries(j, b.value)
  {
    hide DecodeMessages, DecodeSkills, DecodeIds, DecodePlan, EncodeMessages, EncodeSkills, EncodeIds, EncodePlan;
    if Field(j, "messages").Arr? { MessagesAreRead(Field(j, "messages").items); }
    if Field(j, "inbound_ids").Arr? { IdsAreRead(Field(j, "inbound_ids").items); }
    if Field(j, "active_skills").Arr? { SkillsAreRead(Field(j, "active_skills").items, {}); }
    PlanIsRead(Field(j, "pending_plan"));
  }

  /**
    A line is read as a record if and only if it is an object of the first version with a readable time, of the
    type of the record, with its fields exactly as they are written, and the record is a good one.
  */
  lemma EntryIsReadIff(c: TextCodec, sessionId: string, j: Json, e: Entry)
    ensures DecodeEntry(c, sessionId, j) == Some(e)
       <==> && j.Obj? && (Field(j, "version") == Num(1) || Field(j, "version") == Bool(true))
            && Field(j, "at").Str? && c.fromIso(Field(j, "at").text) == Some(e.at)
            && Carries(j, e.body) && GoodBody(sessionId, e.body)
  {
    hide DecodeBody, GoodBody, BodyFields;
    BodyIsRead(sessionId, j);
    var b := DecodeBody(sessionId, j);
    if j.Obj? && b.Some? { BodyRoundTrip(sessionId, b.value, j); }
    if j.Obj? && Carries(j, e.body) { BodyRoundTrip(sessionId, e.body, j); }
  }
}

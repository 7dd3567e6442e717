/**
  The chat messages that stand for a model response and for its tool results
  (`assistant_messages` and `tool_result_messages` of both providers).
*/
module ProviderMessages {
  import opened Wrappers
  import opened Chat
  import opened IdLists
  import opened ToolPairing

  datatype Provider = OpenAI | Anthropic

  datatype ToolCall = ToolCall(id: string, name: string, arguments: Json, raw: string)

  datatype FinishReason = Natural | ToolCalls | OutputLimit

  datatype Response = Response(text: string, calls: seq<ToolCall>, finish: FinishReason, internals: seq<Json>)

  /** A finished call; `output` is its serialised result. */
  datatype Execution = Execution(call: ToolCall, output: string, ok: bool, denied: bool, safePause: bool)

  // --- Messages ---------------------------------------------------------------------------

  function CallMessage(call: ToolCall, group: Option<string>): ChatMessage {
    ChatMessage("assistant",
                Obj(map["type" := Str("function_call"), "call_id" := Str(call.id), "name" := Str(call.name),
                        "arguments" := Str(call.raw)]),
                MessageKind.ToolCall, group)
  }

  function ResultMessage(e: Execution, group: Option<string>): ChatMessage {
    ChatMessage("tool",
                Obj(map["type" := Str("function_call_output"), "call_id" := Str(e.call.id), "output" := Str(e.output)]),
                ToolResult, group)
  }

  function CallItem(call: ToolCall): Json {
    Obj(map["type" := Str("tool_use"), "id" := Str(call.id), "name" := Str(call.name), "input" := call.arguments])
  }

  function ResultItem(e: Execution): Json {
    Obj(map["type" := Str("tool_result"), "tool_use_id" := Str(e.call.id), "content" := Str(e.output),
        "is_error" := Bool(!e.ok)])
  }

  function SaysText(r: Response): bool {
    r.text != "" || r.calls == []
  }

  function AssistantMessages(p: Provider, r: Response, group: Option<string>): seq<ChatMessage> {
    match p
    case OpenAI =>
      seq(|r.internals|, i requires 0 <= i < |r.internals| => ChatMessage("assistant", r.internals[i], Internal, group))
      + (if SaysText(r) then [ChatMessage("assistant", Str(r.text), Assistant, group)] else [])
      + seq(|r.calls|, i requires 0 <= i < |r.calls| => CallMessage(r.calls[i], group))
    case Anthropic =>
      [ChatMessage("assistant",
                   Arr(r.internals
                       + (if SaysText(r) then [Obj(map["type" := Str("text"), "text" := Str(r.text)])] else [])
                       + seq(|r.calls|, i requires 0 <= i < |r.calls| => CallItem(r.calls[i]))),
                   if r.calls != [] then MessageKind.ToolCall else Assistant, group)]
  }

  function ToolResultMessages(p: Provider, executions: seq<Execution>, group: Option<string>): seq<ChatMessage> {
    match p
    case OpenAI => seq(|executions|, i requires 0 <= i < |executions| => ResultMessage(executions[i], group))
    case Anthropic =>
      if executions == [] then []
      else [ChatMessage("user", Arr(seq(|executions|, i requires 0 <= i < |executions| => ResultItem(executions[i]))),
          ToolResult, group)]
  }

  // --- What providers promise about a response -------------------------------------------------

  function CallIds(calls: seq<ToolCall>): (ids: seq<string>)
    ensures |ids| == |calls|
  {
    seq(|calls|, i requires 0 <= i < |calls| => calls[i].id)
  }

  function ResultIds(executions: seq<Execution>): (ids: seq<string>)
    ensures |ids| == |executions|
  {
    seq(|executions|, i requires 0 <= i < |executions| => executions[i].call.id)
  }

  /** Call ids are distinct and not empty; internal parts are no tool uses. */
  predicate GoodResponse(r: Response) {
    && NoDuplicates(CallIds(r.calls)) && "" !in CallIds(r.calls)
    && forall i :: 0 <= i < |r.internals| ==> TextField(r.internals[i], "type") != Some("tool_use")
  }

  // --- Nothing of a response or a result is lost -----------------------------------------------

  /** How many parts of a response are its text: one, unless it only calls tools. */
  function TextParts(r: Response): nat {
    if r.text == "" && r.calls != [] then 0 else 1
  }

  /** The content of a call for OpenAI: its id, name and arguments as the model wrote them. */
  predicate SaysCall(j: Json, call: ToolCall) {
    TextField(j, "call_id") == Some(call.id) && TextField(j, "name") == Some(call.name)
    && TextField(j, "arguments") == Some(call.raw)
  }

  /** The item of a call for Anthropic: its id, name and parsed arguments. */
  predicate UsesTool(j: Json, call: ToolCall) {
    TextField(j, "id") == Some(call.id) && TextField(j, "name") == Some(call.name)
    && j.Obj? && "input" in j.fields && j.fields["input"] == call.arguments
  }

  lemma CallsAreSaid(call: ToolCall, group: Option<string>)
    ensures SaysCall(CallMessage(call, group).content, call) && UsesTool(CallItem(call), call)
  {
  }

  /** The messages of a response in order: its internal items, its text, each of its calls. */
  lemma OpenAIKeeps(r: Response, group: Option<string>)
    ensures
      var (ms, n, k) := (AssistantMessages(OpenAI, r, group), |r.internals|, TextParts(r));
      && |ms| == n + k + |r.calls|
      && (forall i :: 0 <= i < n ==> ms[i].content == r.internals[i] && ms[i].kind.Internal?)
      && (k == 1 ==> ms[n].content == Str(r.text) && ms[n].kind.Assistant?)
      && (forall i :: 0 <= i < |r.calls| ==> SaysCall(ms[n + k + i].content, r.calls[i]))
  {
    hide CallMessage, SaysCall;
    var (ms, n, k) := (AssistantMessages(OpenAI, r, group), |r.internals|, TextParts(r));
    forall i | 0 <= i < |r.calls| ensures SaysCall(ms[n + k + i].content, r.calls[i]) {
      assert ms[n + k + i] == CallMessage(r.calls[i], group);
      CallsAreSaid(r.calls[i], group);
    }
  }

  /** The items of the one message of a response, in the same order. */
  lemma AnthropicKeeps(r: Response, group: Option<string>)
    ensures
      var (ms, n, k) := (AssistantMessages(Anthropic, r, group), |r.internals|, TextParts(r));
      && |ms| == 1 && ms[0].content.Arr?
      && var items := ms[0].content.items;
         && |items| == n + k + |r.calls| && items[..n] == r.internals
         && (k == 1 ==> items[n] == Obj(map["type" := Str("text"), "text" := Str(r.text)]))
         && (forall i :: 0 <= i < |r.calls| ==> UsesTool(items[n + k + i], r.calls[i]))
  {
    hide CallItem, UsesTool;
    var (items, n, k) := (AssistantMessages(Anthropic, r, group)[0].content.items, |r.internals|, TextParts(r));
    forall i | 0 <= i < |r.calls| ensures UsesTool(items[n + k + i], r.calls[i]) {
      assert items[n + k + i] == CallItem(r.calls[i]);
      CallsAreSaid(r.calls[i], group);
    }
  }

  /** Each execution is answered under its id with its output, in order. */
  lemma ResultsAreKept(p: Provider, executions: seq<Execution>, group: Option<string>)
    ensures
      var ms := ToolResultMessages(p, executions, group);
      && (p.OpenAI? ==>
            && |ms| == |executions|
            && forall i :: 0 <= i < |executions| ==>
                 && TextField(ms[i].content, "call_id") == Some(executions[i].call.id)
                 && TextField(ms[i].content, "output") == Some(executions[i].output))
      && (p.Anthropic? && executions != [] ==>
            && |ms| == 1 && ms[0].content.Arr? && |ms[0].content.items| == |executions|
            && forall i :: 0 <= i < |executions| ==>
                 var item := ms[0].content.items[i];
                 && TextField(item, "tool_use_id") == Some(executions[i].call.id)
                 && TextField(item, "content") == Some(executions[i].output)
                 && item.fields["is_error"] == Bool(!executions[i].ok))
  {
  }

  // --- A response without calls is plain ---------------------------------------------------------

  lemma PlainResponse(p: Provider, r: Response, group: Option<string>)
    requires r.calls == []
    ensures forall i :: 0 <= i < |AssistantMessages(p, r, group)| ==>
      !IsTool(AssistantMessages(p, r, group)[i]) && AssistantMessages(p, r, group)[i].role == "assistant"
      && AssistantMessages(p, r, group)[i].groupId == group
    ensures AssistantMessages(p, r, group) != []
  {
  }

  // --- The ids of a tool round ---------------------------------------------------------------------

  lemma {:induction false} ItemIdsJoin(a: seq<Json>, b: seq<Json>, expected: string, key: string)
    ensures ItemIds(a + b, expected, key) == ItemIds(a, expected, key) + ItemIds(b, expected, key)
  {
    if a == [] {
      assert a + b == b;
    } else {
      assert (a + b)[1..] == a[1..] + b;
      ItemIdsJoin(a[1..], b, expected, key);
    }
  }

  lemma {:induction false} NoItemIds(items: seq<Json>, expected: string, key: string)
    requires forall i :: 0 <= i < |items| ==> TextField(items[i], "type") != Some(expected)
    ensures ItemIds(items, expected, key) == []
  {
    if items != [] { NoItemIds(items[1..], expected, key); }
  }

  lemma {:induction false} FieldIds(items: seq<Json>, expected: string, key: string, ids: seq<string>)
    requires |items| == |ids| && "" !in ids
    requires forall i :: 0 <= i < |items| ==>
        TextField(items[i], "type") == Some(expected) && TextField(items[i], key) == Some(ids[i])
    ensures ItemIds(items, expected, key) == ids
  {
    if items != [] {
      FieldIds(items[1..], expected, key, ids[1..]);
      assert [ids[0]] + ids[1..] == ids;
    }
  }

  /** Messages of another kind add no ids; each message of the kind adds its own. */
  lemma {:induction false} MessageIds(m: seq<ChatMessage>, kind: MessageKind, ids: seq<string>)
    requires |m| == |ids|
    requires forall i :: 0 <= i < |m| ==> m[i].kind == kind && ToolIds(m[i], kind.ToolResult?) == [ids[i]]
    ensures Ids(m, kind) == ids
  {
    hide ToolIds;
    if m != [] {
      MessageIds(m[1..], kind, ids[1..]);
      assert [ids[0]] + ids[1..] == ids;
    }
  }

  lemma {:induction false} OtherKind(m: seq<ChatMessage>, kind: MessageKind)
    requires forall i :: 0 <= i < |m| ==> m[i].kind != kind
    ensures Ids(m, kind) == []
  {
    if m != [] { OtherKind(m[1..], kind); }
  }

  lemma CallIdsOf(p: Provider, r: Response, group: Option<string>)
    requires GoodResponse(r) && r.calls != []
    ensures Ids(AssistantMessages(p, r, group), MessageKind.ToolCall) == CallIds(r.calls)
    ensures Ids(AssistantMessages(p, r, group), ToolResult) == []
  {
    NoResults(p, r, group);
    hide *;
    OtherKind(AssistantMessages(p, r, group), ToolResult);
    match p
    case OpenAI => OpenAICallIds(r, group);
    case Anthropic => AnthropicCallIds(r, group);
  }

  lemma NoResults(p: Provider, r: Response, group: Option<string>)
    ensures forall i :: 0 <= i < |AssistantMessages(p, r, group)| ==>
        AssistantMessages(p, r, group)[i].kind != ToolResult
  {
  }

  lemma OpenAICallIds(r: Response, group: Option<string>)
    requires GoodResponse(r) && r.calls != []
    ensures Ids(AssistantMessages(OpenAI, r, group), MessageKind.ToolCall) == CallIds(r.calls)
  {
    var m := AssistantMessages(OpenAI, r, group);
    var calls := seq(|r.calls|, i requires 0 <= i < |r.calls| => CallMessage(r.calls[i], group));
    var before := m[..|m| - |calls|];
    assert m == before + calls;
    assert forall i :: 0 <= i < |before| ==> before[i].kind != MessageKind.ToolCall;
    assert forall i :: 0 <= i < |calls| ==> calls[i].kind == MessageKind.ToolCall;
    forall i | 0 <= i < |calls| ensures ToolIds(calls[i], false) == [CallIds(r.calls)[i]] {
      assert CallIds(r.calls)[i] in CallIds(r.calls);
      OneCallId(r.calls[i], group);
    }
    hide *;
    OtherKind(before, MessageKind.ToolCall);
    MessageIds(calls, MessageKind.ToolCall, CallIds(r.calls));
    IdsJoin(before, calls, MessageKind.ToolCall);
  }

  lemma AnthropicCallIds(r: Response, group: Option<string>)
    requires GoodResponse(r) && r.calls != []
    ensures Ids(AssistantMessages(Anthropic, r, group), MessageKind.ToolCall) == CallIds(r.calls)
  {
    var m := AssistantMessages(Anthropic, r, group);
    var text := if SaysText(r) then [Obj(map["type" := Str("text"), "text" := Str(r.text)])] else [];
    var items := seq(|r.calls|, i requires 0 <= i < |r.calls| => CallItem(r.calls[i]));
    assert m == [ChatMessage("assistant", Arr(r.internals + text + items), MessageKind.ToolCall, group)];
    ItemsAreCalls(r, text, items);
    hide ItemIds, AssistantMessages, CallIds, GoodResponse;
    assert ToolIds(m[0], false) == CallIds(r.calls);
    assert m[1..] == [];
  }

  lemma ItemsAreCalls(r: Response, text: seq<Json>, items: seq<Json>)
    requires GoodResponse(r)
    requires text == if SaysText(r) then [Obj(map["type" := Str("text"), "text" := Str(r.text)])] else []
    requires |items| == |r.calls| && forall i :: 0 <= i < |items| ==> items[i] == CallItem(r.calls[i])
    ensures ItemIds(r.internals + text + items, "tool_use", "id") == CallIds(r.calls)
  {
    TextIsNoUse(r.text);
    assert forall i :: 0 <= i < |items| ==>
      TextField(items[i], "type") == Some("tool_use") && TextField(items[i], "id") == Some(CallIds(r.calls)[i]);
    assert forall i :: 0 <= i < |text| ==> TextField(text[i], "type") != Some("tool_use");
    hide ItemIds, TextField, CallItem;
    NoItemIds(r.internals, "tool_use", "id");
    NoItemIds(text, "tool_use", "id");
    FieldIds(items, "tool_use", "id", CallIds(r.calls));
    ItemIdsJoin(r.internals, text, "tool_use", "id");
    ItemIdsJoin(r.internals + text, items, "tool_use", "id");
  }

  lemma TextIsNoUse(text: string)
    ensures TextField(Obj(map["type" := Str("text"), "text" := Str(text)]), "type") != Some("tool_use")
  {
    assert |"text"| != |"tool_use"|;
  }

  lemma OneCallId(call: ToolCall, group: Option<string>)
    requires call.id != ""
    ensures ToolIds(CallMessage(call, group), false) == [call.id]
  {
  }

  lemma OneResultId(e: Execution, group: Option<string>)
    requires e.call.id != ""
    ensures ToolIds(ResultMessage(e, group), true) == [e.call.id]
  {
  }

  lemma ResultIdsOf(p: Provider, executions: seq<Execution>, group: Option<string>)
    requires "" !in ResultIds(executions)
    ensures Ids(ToolResultMessages(p, executions, group), ToolResult) == ResultIds(executions)
    ensures Ids(ToolResultMessages(p, executions, group), MessageKind.ToolCall) == []
  {
    var m := ToolResultMessages(p, executions, group);
    OtherKind(m, MessageKind.ToolCall);
    match p
    case OpenAI =>
      forall i | 0 <= i < |m| ensures ToolIds(m[i], true) == [ResultIds(executions)[i]] {
        assert ResultIds(executions)[i] in ResultIds(executions);
        OneResultId(executions[i], group);
      }
      hide ToolIds;
      MessageIds(m, ToolResult, ResultIds(executions));
    case Anthropic =>
      if executions != [] {
        var items := seq(|executions|, i requires 0 <= i < |executions| => ResultItem(executions[i]));
        FieldIds(items, "tool_result", "tool_use_id", ResultIds(executions));
        assert ToolIds(m[0], true) == ResultIds(executions);
        assert m[1..] == [];
      }
  }

  // --- A tool round is one group ----------------------------------------------------------------------

  /** The messages of a tool round. */
  function Round(p: Provider, r: Response, executions: seq<Execution>, group: string): seq<ChatMessage> {
    AssistantMessages(p, r, Some(group)) + ToolResultMessages(p, executions, Some(group))
  }

  lemma AssistantShape(p: Provider, r: Response, group: string)
    requires r.calls != []
    ensures
      var a := AssistantMessages(p, r, Some(group));
      && a != [] && a[|a| - 1].kind.ToolCall?
      && (forall i :: 0 <= i < |a| ==> !a[i].kind.ToolResult? && a[i].groupId == Some(group) && a[i].role != "")
      && (forall i :: 0 <= i < |a| ==> !a[i].kind.Summary? && !a[i].kind.Boundary?)
  {
  }

  lemma ResultShape(p: Provider, executions: seq<Execution>, group: string)
    ensures
      var b := ToolResultMessages(p, executions, Some(group));
      forall i :: 0 <= i < |b| ==> b[i].kind.ToolResult? && b[i].groupId == Some(group) && b[i].role != ""
  {
  }

  lemma RoundShape(p: Provider, r: Response, executions: seq<Execution>, group: string)
    requires r.calls != []
    ensures
      var m := Round(p, r, executions, group);
      && m != [] && CallsFirst(m) && HasTool(m)
      && (forall i :: 0 <= i < |m| ==> m[i].groupId == Some(group) && m[i].role != "")
      && (forall i :: 0 <= i < |m| ==> !m[i].kind.Summary? && !m[i].kind.Boundary?)
  {
    AssistantShape(p, r, group);
    ResultShape(p, executions, group);
    hide AssistantMessages, ToolResultMessages;
    var a, b, m := AssistantMessages(p, r, Some(group)), ToolResultMessages(p, executions, Some(group)),
        Round(p, r, executions, group);
    assert forall i :: 0 <= i < |m| ==> m[i] == if i < |a| then a[i] else b[i - |a|];
    assert m[|a| - 1].kind.ToolCall? && IsTool(m[|a| - 1]);
  }

  /**
    A tool round is a paired history of its own exactly when each call has one result and
    each result a call.
  */
  lemma RoundPairedIff(p: Provider, r: Response, executions: seq<Execution>, group: string)
    requires GoodResponse(r) && r.calls != [] && "" !in ResultIds(executions)
    ensures
      var calls, results := CallIds(r.calls), ResultIds(executions);
      Paired(Round(p, r, executions, group)) <==> NoDuplicates(results) && Elements(results) == Elements(calls)
  {
    var a, b := AssistantMessages(p, r, Some(group)), ToolResultMessages(p, executions, Some(group));
    var m := Round(p, r, executions, group);
    RoundShape(p, r, executions, group);
    CallIdsOf(p, r, Some(group));
    ResultIdsOf(p, executions, Some(group));
    IdsJoin(a, b, MessageKind.ToolCall);
    IdsJoin(a, b, ToolResult);
    assert Ids(m, MessageKind.ToolCall) == CallIds(r.calls) && Ids(m, ToolResult) == ResultIds(executions);
    assert CallIds(r.calls) != [];
    SameElements(CallIds(r.calls), ResultIds(executions));
    GroupPaired(m);
    hide AssistantMessages, ToolResultMessages, Ids, CallsFirst, Round, NoDuplicates, Paired, CallIds, ResultIds,
        GoodResponse;
    assert WellPaired(m)
        <==> NoDuplicates(ResultIds(executions)) && Elements(ResultIds(executions)) == Elements(CallIds(r.calls));
  }

  lemma SameElements(a: seq<string>, b: seq<string>)
    ensures Elements(b) == Elements(a) <==> (forall id | id in a :: id in b) && (forall id | id in b :: id in a)
  {
    if Elements(a) == Elements(b) {
      assert forall id :: id in a <==> id in Elements(a);
      assert forall id :: id in b <==> id in Elements(b);
    }
  }

  /** One execution for each call, in order. */
  predicate OneEach(calls: seq<ToolCall>, executions: seq<Execution>) {
    |executions| == |calls| && forall i :: 0 <= i < |calls| ==> executions[i].call == calls[i]
  }

  lemma OneEachPairs(p: Provider, r: Response, executions: seq<Execution>, group: string)
    requires GoodResponse(r) && r.calls != [] && OneEach(r.calls, executions)
    ensures Paired(Round(p, r, executions, group))
  {
    assert ResultIds(executions) == CallIds(r.calls);
    RoundPairedIff(p, r, executions, group);
  }
}

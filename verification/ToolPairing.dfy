/**
  Pairing of tool calls and tool results in a history
  (`src/mewcode/continuity/session_codec.py`, `valid_tool_prefix`).
*/
module ToolPairing {
  import opened Wrappers
  import opened Chat
  import opened IdLists

  // --- What the code looks at -------------------------------------------------------

  function NonEmpty(id: Option<string>): seq<string> {
    if id.Some? && id.value != "" then [id.value] else []
  }

  function ItemIds(items: seq<Json>, expected: string, key: string): seq<string> {
    if items == [] then []
    else (if TextField(items[0], "type") == Some(expected) then NonEmpty(TextField(items[0], key)) else [])
         + ItemIds(items[1..], expected, key)
  }

  /** `_tool_ids`. */
  function ToolIds(m: ChatMessage, result: bool): seq<string> {
    match m.content
    case Obj(_) =>
      if TextField(m.content, "type") == Some(if result then "function_call_output" else "function_call")
      then NonEmpty(TextField(m.content, "call_id")) else []
    case Arr(items) =>
      ItemIds(items, if result then "tool_result" else "tool_use", if result then "tool_use_id" else "id")
    case _ => []
  }

  /** The object is of that type and names this id. */
  predicate Names(j: Json, kind: string, key: string, id: string) {
    && j.Obj? && "type" in j.fields && j.fields["type"] == Str(kind) && key in j.fields && j.fields[key] == Str(id)
    && id != ""
  }

  /** An object names its one id, a list the ids of its items in order, and anything else none. */
  lemma {:induction false} ToolIdsAre(m: ChatMessage, result: bool)
    ensures m.content.Obj? ==> forall id ::
              Names(m.content, if result then "function_call_output" else "function_call", "call_id", id)
              <==> ToolIds(m, result) == [id]
    ensures m.content.Obj? ==> |ToolIds(m, result)| <= 1
    ensures m.content.Arr? ==>
              ToolIds(m, result) == ItemIds(m.content.items, if result then "tool_result" else "tool_use",
                                            if result then "tool_use_id" else "id")
    ensures !m.content.Obj? && !m.content.Arr? ==> ToolIds(m, result) == []
  {
  }

  /** The ids of items in order; an item names one id or none. */
  lemma {:induction false} ItemIdsAre(items: seq<Json>, more: seq<Json>, kind: string, key: string)
    ensures ItemIds(items + more, kind, key) == ItemIds(items, kind, key) + ItemIds(more, kind, key)
    ensures |items| == 1 ==> forall id :: Names(items[0], kind, key, id) <==> ItemIds(items, kind, key) == [id]
    ensures |ItemIds(items, kind, key)| <= |items|
  {
    hide TextField;
    if items == [] {
      assert items + more == more;
    } else {
      assert (items + more)[0] == items[0] && (items + more)[1..] == items[1..] + more;
      ItemIdsAre(items[1..], more, kind, key);
      OneItem(items[0], kind, key);
    }
  }

  lemma OneItem(item: Json, kind: string, key: string)
    ensures
      var ids := if TextField(item, "type") == Some(kind) then NonEmpty(TextField(item, key)) else [];
      |ids| <= 1 && forall id :: Names(item, kind, key, id) <==> ids == [id]
  {
  }

  predicate IsTool(m: ChatMessage) {
    m.kind.ToolCall? || m.kind.ToolResult?
  }

  function Ids(group: seq<ChatMessage>, kind: MessageKind): seq<string> {
    if group == [] then []
    else (if group[0].kind == kind then ToolIds(group[0], kind.ToolResult?) else []) + Ids(group[1..], kind)
  }

  predicate CallsFirst(group: seq<ChatMessage>) {
    forall i, j :: 0 <= i < j < |group| ==> !(group[i].kind.ToolResult? && group[j].kind.ToolCall?)
  }

  /** Calls come before results, their ids are distinct, and each call has its result. */
  predicate WellPaired(group: seq<ChatMessage>) {
    var calls, results := Ids(group, ToolCall), Ids(group, ToolResult);
    && CallsFirst(group)
    && calls != [] && NoDuplicates(calls) && NoDuplicates(results)
    && (forall id | id in calls :: id in results) && (forall id | id in results :: id in calls)
  }

  /** The length of the first run: one ungrouped message, or the messages that share its group. */
  function FirstRun(m: seq<ChatMessage>): (n: nat)
    requires m != []
    ensures 1 <= n <= |m|
  {
    if |m| > 1 && m[0].groupId.Some? && m[1].groupId == m[0].groupId then 1 + FirstRun(m[1..]) else 1
  }

  /** A run is in order when it has no tool message, or is one well-paired group. */
  predicate RunOk(run: seq<ChatMessage>)
    requires run != []
  {
    HasTool(run) ==> run[0].groupId.Some? && WellPaired(run)
  }

  predicate HasTool(run: seq<ChatMessage>) {
    exists i :: 0 <= i < |run| && IsTool(run[i])
  }

  /** `valid_tool_prefix`: the length of the leading runs that are in order. */
  function ValidPrefix(m: seq<ChatMessage>): (n: nat)
    ensures n <= |m|
  {
    if m == [] then 0
    else
      var n := FirstRun(m);
      if RunOk(m[..n]) then n + ValidPrefix(m[n..]) else 0
  }

  predicate Paired(m: seq<ChatMessage>) {
    ValidPrefix(m) == |m|
  }

  // --- The loops ----------------------------------------------------------------------

  method ValidToolPrefix(messages: seq<ChatMessage>) returns (prefix: nat)
    ensures prefix == ValidPrefix(messages)
  {
    hide WellPaired, FirstRun;
    var index := 0;
    assert messages[0..] == messages;
    while index < |messages|
      invariant 0 <= index <= |messages|
      invariant ValidPrefix(messages) == index + ValidPrefix(messages[index..])
    {
      var message := messages[index];
      ghost var rest := messages[index..];
      var end, group := CollectRun(messages, index);
      assert messages[end..] == rest[end - index..];
      if message.groupId.None? {
        assert HasTool(group) <==> IsTool(message);
        if IsTool(message) {
          return index;
        }
      } else if HasTool(group) {
        var valid := PairGroup(group);
        if !valid {
          return index;
        }
      }
      index := end;
    }
    return |messages|;
  }

  /** The run that starts at `start`: an ungrouped message alone, or the following messages of its group. */
  method CollectRun(messages: seq<ChatMessage>, start: nat) returns (end: nat, group: seq<ChatMessage>)
    requires start < |messages|
    ensures end == start + FirstRun(messages[start..]) && end <= |messages|
    ensures group == messages[start..end] == messages[start..][..end - start] && group[0] == messages[start]
    ensures messages[start].groupId.None? ==> |group| == 1
  {
    if messages[start].groupId.None? {
      return start + 1, [messages[start]];
    }
    end, group := start, [];
    while end < |messages| && messages[end].groupId == messages[start].groupId
      invariant start <= end <= |messages|
      invariant group == messages[start..end]
      invariant forall i :: start <= i < end ==> messages[i].groupId == messages[start].groupId
      invariant end == start ==> messages[end].groupId == messages[start].groupId
    {
      group := group + [messages[end]];
      end := end + 1;
    }
    FirstRunLength(messages[start..], end - start);
  }

  /** The scan of one tool group. */
  method PairGroup(group: seq<ChatMessage>) returns (ok: bool)
    ensures ok == WellPaired(group)
  {
    hide ToolIds, NoDuplicates;
    var calls, results: seq<string> := [], [];
    var sawResult, valid := false, true;
    var i := 0;
    while i < |group|
      invariant 0 <= i <= |group|
      invariant calls == Ids(group[..i], ToolCall) && results == Ids(group[..i], ToolResult)
      invariant sawResult == HasResult(group[..i]) && valid == CallsFirst(group[..i])
    {
      Snoc(group, i);
      hide Ids, HasResult, CallsFirst;
      if group[i].kind.ToolCall? {
        if sawResult {
          valid := false;
        }
        calls := calls + ToolIds(group[i], false);
      } else if group[i].kind.ToolResult? {
        sawResult := true;
        results := results + ToolIds(group[i], true);
      }
      i := i + 1;
    }
    assert group[..i] == group;
    var same := (set id | id in calls) == (set id | id in results);
    SameIds(calls, results);
    return valid && calls != [] && NoDuplicates(calls) && NoDuplicates(results) && same;
  }

  lemma SameIds(a: seq<string>, b: seq<string>)
    ensures (set id | id in a) == (set id | id in b)
        <==> (forall id | id in a :: id in b) && (forall id | id in b :: id in a)
  {
    var x, y := set id | id in a, set id | id in b;
    if x == y {
      assert forall id :: id in a <==> id in x;
      assert forall id :: id in b <==> id in y;
    }
  }

  predicate HasResult(group: seq<ChatMessage>) {
    exists k :: 0 <= k < |group| && group[k].kind.ToolResult?
  }

  /** What the scan of the next message adds. */
  lemma Snoc(group: seq<ChatMessage>, i: nat)
    requires i < |group|
    ensures
      var before, after, m := group[..i], group[..i + 1], group[i];
      && Ids(after, ToolCall) == Ids(before, ToolCall) + (if m.kind.ToolCall? then ToolIds(m, false) else [])
      && Ids(after, ToolResult) == Ids(before, ToolResult) + (if m.kind.ToolResult? then ToolIds(m, true) else [])
      && (HasResult(after) <==> HasResult(before) || m.kind.ToolResult?)
      && (CallsFirst(after) <==> CallsFirst(before) && !(m.kind.ToolCall? && HasResult(before)))
  {
    var before, m := group[..i], group[i];
    assert group[..i + 1] == before + [m];
    IdsJoin(before, [m], ToolCall);
    IdsJoin(before, [m], ToolResult);
    OneMore(before, m);
    hide ToolIds, HasResult, CallsFirst;
  }

  lemma OneMore(before: seq<ChatMessage>, m: ChatMessage)
    ensures HasResult(before + [m]) <==> HasResult(before) || m.kind.ToolResult?
    ensures CallsFirst(before + [m]) <==> CallsFirst(before) && !(m.kind.ToolCall? && HasResult(before))
  {
    var after := before + [m];
    assert after[|before|] == m && forall k :: 0 <= k < |before| ==> after[k] == before[k];
    if HasResult(before) {
      var k :| 0 <= k < |before| && before[k].kind.ToolResult?;
      assert after[k].kind.ToolResult?;
    }
  }

  lemma {:induction false} IdsJoin(a: seq<ChatMessage>, b: seq<ChatMessage>, kind: MessageKind)
    ensures Ids(a + b, kind) == Ids(a, kind) + Ids(b, kind)
  {
    if a == [] {
      assert a + b == b;
    } else {
      assert (a + b)[1..] == a[1..] + b;
      IdsJoin(a[1..], b, kind);
    }
  }

  lemma {:induction false} FirstRunLength(m: seq<ChatMessage>, n: nat)
    requires 1 <= n <= |m| && m[0].groupId.Some?
    requires forall i :: 0 <= i < n ==> m[i].groupId == m[0].groupId
    requires n < |m| ==> m[n].groupId != m[0].groupId
    ensures FirstRun(m) == n
  {
    if n > 1 { FirstRunLength(m[1..], n - 1); }
  }

  // --- What the prefix is ----------------------------------------------------------------

  /** No run spans place `i`. */
  predicate IsBoundary(m: seq<ChatMessage>, i: nat)
    requires i <= |m|
  {
    i == 0 || i == |m| || m[i].groupId.None? || m[i].groupId != m[i - 1].groupId
  }

  /** The run that starts at the boundary `i` is in order. */
  predicate OkAt(m: seq<ChatMessage>, i: nat)
    requires i < |m|
  {
    RunOk(m[i..][..FirstRun(m[i..])])
  }

  lemma {:induction false} FirstRunMeaning(m: seq<ChatMessage>)
    requires m != []
    ensures IsBoundary(m, FirstRun(m))
    ensures forall i :: 0 < i < FirstRun(m) ==> m[i].groupId == m[0].groupId && !IsBoundary(m, i)
    ensures m[0].groupId.None? ==> FirstRun(m) == 1
  {
    if |m| > 1 && m[0].groupId.Some? && m[1].groupId == m[0].groupId {
      FirstRunMeaning(m[1..]);
      forall i | 0 < i < FirstRun(m) ensures m[i].groupId == m[0].groupId && !IsBoundary(m, i) {
        assert m[i] == m[1..][i - 1];
      }
    }
  }

  lemma PrefixNext(m: seq<ChatMessage>)
    requires m != []
    ensures var n := FirstRun(m); ValidPrefix(m) == if RunOk(m[..n]) then n + ValidPrefix(m[n..]) else 0
  {
    hide RunOk, FirstRun;
  }

  /** What follows a boundary has the same boundaries and runs. */
  lemma Shifted(m: seq<ChatMessage>, n: nat, i: nat)
    requires n <= i <= |m| && IsBoundary(m, n)
    ensures IsBoundary(m[n..], i - n) <==> IsBoundary(m, i)
    ensures i < |m| ==> (OkAt(m[n..], i - n) <==> OkAt(m, i))
  {
    hide RunOk, FirstRun;
    assert m[n..][i - n..] == m[i..];
    if n < i < |m| { assert m[n..][i - n] == m[i] && m[n..][i - n - 1] == m[i - 1]; }
  }

  /**
    The prefix ends at the last boundary before the first run that is not in order:
    it is a boundary, every run before it is in order, and the run at it is not.
  */
  lemma {:induction false} PrefixIsFirstFault(m: seq<ChatMessage>)
    ensures var p := ValidPrefix(m);
      && IsBoundary(m, p)
      && (forall i :: 0 <= i < p && IsBoundary(m, i) ==> OkAt(m, i))
      && (p < |m| ==> !OkAt(m, p))
    decreases |m|
  {
    hide RunOk;
    if m != [] {
      var n := FirstRun(m);
      FirstRunMeaning(m);
      assert m[0..] == m;
      if RunOk(m[..n]) {
        assert OkAt(m, 0);
        var rest := m[n..];
        PrefixNext(m);
        PrefixIsFirstFault(rest);
        var p := ValidPrefix(rest);
        Shifted(m, n, n + p);
        hide FirstRun, OkAt, IsBoundary, ValidPrefix;
        forall i | 0 <= i < n + p && IsBoundary(m, i) ensures OkAt(m, i) {
          if i >= n { Shifted(m, n, i); }
        }
      }
    }
  }

  /** Only one place has these properties. */
  lemma PrefixIsUnique(m: seq<ChatMessage>, p: nat)
    requires p <= |m| && IsBoundary(m, p)
    requires forall i :: 0 <= i < p && IsBoundary(m, i) ==> OkAt(m, i)
    requires p < |m| ==> !OkAt(m, p)
    ensures p == ValidPrefix(m)
  {
    PrefixIsFirstFault(m);
  }

  // --- Cutting and joining histories -------------------------------------------------------

  lemma {:induction false} FirstRunOfCut(m: seq<ChatMessage>, i: nat)
    requires 0 < i <= |m| && IsBoundary(m, i)
    ensures FirstRun(m) <= i && FirstRun(m[..i]) == FirstRun(m)
  {
    if |m| > 1 && m[0].groupId.Some? && m[1].groupId == m[0].groupId {
      assert i > 1;
      assert m[1..][i - 1..] == m[i..];
      FirstRunOfCut(m[1..], i - 1);
      assert m[..i][1..] == m[1..][..i - 1];
    }
  }

  lemma CutParts(m: seq<ChatMessage>, n: nat, i: nat)
    requires n <= i <= |m|
    ensures m[..i][..n] == m[..n] && m[..i][n..] == m[n..][..i - n] && m[n..][i - n..] == m[i..]
  {
  }

  /** A cut at a boundary is the prefix of both sides: cutting keeps what was valid before it. */
  lemma {:induction false} CutPrefix(m: seq<ChatMessage>, i: nat)
    requires i <= |m| && IsBoundary(m, i)
    ensures ValidPrefix(m[..i]) == if ValidPrefix(m) < i then ValidPrefix(m) else i
    ensures ValidPrefix(m) >= i ==> ValidPrefix(m) == i + ValidPrefix(m[i..])
    decreases |m|
  {
    hide RunOk;
    if i > 0 {
      var n := FirstRun(m);
      FirstRunOfCut(m, i);
      FirstRunMeaning(m);
      Shifted(m, n, i);
      PrefixNext(m);
      PrefixNext(m[..i]);
      CutParts(m, n, i);
      hide FirstRun, IsBoundary, OkAt, ValidPrefix;
      if RunOk(m[..n]) { CutPrefix(m[n..], i - n); }
    } else {
      assert m[0..] == m;
    }
  }

  /** Repairing a repaired history changes nothing. */
  lemma PrefixIsIdempotent(m: seq<ChatMessage>)
    ensures Paired(m[..ValidPrefix(m)])
  {
    PrefixIsFirstFault(m);
    CutPrefix(m, ValidPrefix(m));
  }

  /** Histories join to a paired one exactly when both are paired and no run spans the seam. */
  lemma JoinPaired(a: seq<ChatMessage>, b: seq<ChatMessage>)
    requires IsBoundary(a + b, |a|)
    ensures Paired(a + b) <==> Paired(a) && Paired(b)
  {
    assert (a + b)[..|a|] == a && (a + b)[|a|..] == b;
    CutPrefix(a + b, |a|);
  }

  /** Messages without tools are always in order. */
  lemma {:induction false} PlainPaired(m: seq<ChatMessage>)
    requires forall i :: 0 <= i < |m| ==> !IsTool(m[i])
    ensures Paired(m)
    decreases |m|
  {
    if m != [] {
      FirstRunMeaning(m);
      PlainPaired(m[FirstRun(m)..]);
    }
  }

  /** One group with a tool message is a paired history exactly when it is well paired. */
  lemma GroupPaired(m: seq<ChatMessage>)
    requires m != [] && m[0].groupId.Some? && HasTool(m)
    requires forall i :: 0 <= i < |m| ==> m[i].groupId == m[0].groupId
    ensures Paired(m) <==> WellPaired(m)
  {
    FirstRunLength(m, |m|);
    hide WellPaired, HasTool, FirstRun;
    assert m[..|m|] == m && m[|m|..] == [];
    assert RunOk(m) <==> WellPaired(m);
  }
}

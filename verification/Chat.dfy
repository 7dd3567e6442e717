/** JSON values and chat messages (`src/mewcode/providers/base.py`). */
module Chat {
  import opened Wrappers

  datatype Json =
    | Null
    | Bool(value: bool)
    | Num(number: int)
    | Str(text: string)
    | Arr(items: seq<Json>)
    | Obj(fields: map<string, Json>)

  datatype MessageKind =
    | User | Assistant | Internal | ToolCall | ToolResult | Summary | Boundary | ResumeNotice | TeamInbound

  datatype ChatMessage = ChatMessage(role: string, content: Json, kind: MessageKind, groupId: Option<string>)

  /** The text under `key` of an object, or None. */
  function TextField(j: Json, key: string): Option<string> {
    if j.Obj? && key in j.fields && j.fields[key].Str? then Some(j.fields[key].text) else None
  }
}

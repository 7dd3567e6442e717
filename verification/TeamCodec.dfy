/**
  The type-directed JSON codec of team files (`src/mewcode/teams/codec.py`): objects as lists
  of pairs, JSON values, and values of a schema.
*/
module TeamCodec {
  import opened Wrappers
  import opened Chat
  import opened IdLists

  datatype CodecError =
    | Duplicate(key: string) | Mismatch | BadTime | BadEnum | UnknownField | MissingField | Invalid | NoBranch

  // --- Parsed text: objects still hold their pairs in order ------------------------------

  datatype Raw =
    | RNull | RBool(value: bool) | RNum(number: int) | RStr(text: string) | RArr(items: seq<Raw>)
    | RObj(pairs: seq<Pair>)

  datatype Pair = Pair(key: string, value: Raw)

  /** `json.loads` with `_pairs` as the hook for objects. */
  function Load(raw: Raw): Result<Json, CodecError> {
    match raw
    case RNull => Ok(Null)
    case RBool(b) => Ok(Bool(b))
    case RNum(n) => Ok(Num(n))
    case RStr(s) => Ok(Str(s))
    case RArr(items) =>
      (match LoadItems(items)
       case Err(e) => Err(e)
       case Ok(js) => Ok(Arr(js)))
    case RObj(pairs) =>
      (match LoadPairs(pairs)
       case Err(e) => Err(e)
       case Ok(m) => Ok(Obj(m)))
  }

  function LoadItems(items: seq<Raw>): Result<seq<Json>, CodecError> {
    if items == [] then Ok([])
    else
      match Load(items[0])
      case Err(e) => Err(e)
      case Ok(j) =>
        match LoadItems(items[1..])
        case Err(e) => Err(e)
        case Ok(rest) => Ok([j] + rest)
  }

  function LoadPairs(pairs: seq<Pair>): Result<map<string, Json>, CodecError> {
    if pairs == [] then Ok(map[])
    else
      match Load(pairs[0].value)
      case Err(e) => Err(e)
      case Ok(j) =>
        match LoadPairs(pairs[1..])
        case Err(e) => Err(e)
        case Ok(rest) => if pairs[0].key in rest then Err(Duplicate(pairs[0].key)) else Ok(rest[pairs[0].key := j])
  }

  /** `raw` is a text of the value `j`, its object fields in any order but each once. */
  predicate Prints(raw: Raw, j: Json) {
    match raw
    case RNull => j.Null?
    case RBool(b) => j == Bool(b)
    case RNum(n) => j == Num(n)
    case RStr(s) => j == Str(s)
    case RArr(items) => j.Arr? && |j.items| == |items| && forall i :: 0 <= i < |items| ==> Prints(items[i], j.items[i])
    case RObj(pairs) => j.Obj? && PairsPrint(pairs, j.fields)
  }

  predicate PairsPrint(pairs: seq<Pair>, m: map<string, Json>) {
    && NoDuplicates(Keys(pairs)) && Elements(Keys(pairs)) == m.Keys
    && forall i :: 0 <= i < |pairs| ==> pairs[i].key in m && Prints(pairs[i].value, m[pairs[i].key])
  }

  function Keys(pairs: seq<Pair>): (ks: seq<string>)
    ensures |ks| == |pairs|
  {
    seq(|pairs|, i requires 0 <= i < |pairs| => pairs[i].key)
  }

  /** Loading gives a value exactly when the text prints it: duplicate fields at any depth are errors. */
  lemma {:induction false} LoadIffPrints(raw: Raw, j: Json)
    ensures Load(raw) == Ok(j) <==> Prints(raw, j)
  {
    match raw
    case RArr(items) => if j.Arr? { ItemsIffPrints(items, j.items); }
    case RObj(pairs) => if j.Obj? { PairsIffPrints(pairs, j.fields); }
    case _ =>
  }

  lemma {:induction false} ItemsIffPrints(items: seq<Raw>, js: seq<Json>)
    ensures LoadItems(items) == Ok(js) <==> |js| == |items| && forall i :: 0 <= i < |items| ==> Prints(items[i], js[i])
  {
    hide Load, Prints;
    if items != [] {
      if js != [] {
        LoadIffPrints(items[0], js[0]);
        ItemsIffPrints(items[1..], js[1..]);
        assert js == [js[0]] + js[1..];
        assert forall i :: 0 < i < |items| && i < |js| ==> items[i] == items[1..][i - 1] && js[i] == js[1..][i - 1];
        if LoadItems(items) == Ok(js) {
          assert LoadItems(items[1..]).Ok? && [Load(items[0]).value] + LoadItems(items[1..]).value == js;
        }
      }
    }
  }

  lemma {:induction false} PairsIffPrints(pairs: seq<Pair>, m: map<string, Json>)
    ensures LoadPairs(pairs) == Ok(m) <==> PairsPrint(pairs, m)
  {
    if pairs == [] {
      assert m.Keys == {} <==> m == map[];
      assert Elements(Keys(pairs)) == {};
    } else {
      var key, rest := pairs[0].key, m - {pairs[0].key};
      PairsIffPrints(pairs[1..], rest);
      if key in m { LoadIffPrints(pairs[0].value, m[key]); }
      PairsFirst(pairs, m);
      hide PairsPrint, Load, Prints;
      if key in m { assert m == rest[key := m[key]]; }
      if LoadPairs(pairs) == Ok(m) {
        var tail := LoadPairs(pairs[1..]).value;
        assert key !in tail && m == tail[key := Load(pairs[0].value).value];
        assert tail == rest;
      }
    }
  }

  lemma PairsFirst(pairs: seq<Pair>, m: map<string, Json>)
    requires pairs != []
    ensures
      var key, rest := pairs[0].key, m - {pairs[0].key};
      PairsPrint(pairs, m) <==> key in m && Prints(pairs[0].value, m[key]) && PairsPrint(pairs[1..], rest)
  {
    hide Prints;
    var key, tail, rest := pairs[0].key, pairs[1..], m - {pairs[0].key};
    assert Keys(pairs) == [key] + Keys(tail);
    NoDuplicatesCons(key, Keys(tail));
    assert Elements(Keys(pairs)) == {key} + Elements(Keys(tail));
    KeysOf(tail);
    if PairsPrint(pairs, m) {
      assert rest.Keys == Elements(Keys(tail));
      forall i | 0 <= i < |tail| ensures tail[i].key in rest && Prints(tail[i].value, rest[tail[i].key]) {
        assert tail[i] == pairs[i + 1];
      }
    }
    if key in m && Prints(pairs[0].value, m[key]) && PairsPrint(tail, rest) {
      assert m.Keys == {key} + rest.Keys;
      forall i | 0 <= i < |pairs| ensures pairs[i].key in m && Prints(pairs[i].value, m[pairs[i].key]) {
        if i > 0 { assert pairs[i] == tail[i - 1] && tail[i - 1].key in rest; }
      }
    }
  }

  lemma KeysOf(pairs: seq<Pair>)
    ensures forall i :: 0 <= i < |pairs| ==> pairs[i].key in Elements(Keys(pairs))
    ensures forall key :: key in Elements(Keys(pairs)) ==> exists i :: 0 <= i < |pairs| && pairs[i].key == key
  {
    forall i | 0 <= i < |pairs| ensures pairs[i].key in Elements(Keys(pairs)) {
      assert Keys(pairs)[i] == pairs[i].key;
    }
    forall key | key in Elements(Keys(pairs)) ensures exists i :: 0 <= i < |pairs| && pairs[i].key == key {
      var i :| 0 <= i < |Keys(pairs)| && Keys(pairs)[i] == key;
      assert pairs[i].key == key;
    }
  }

  // --- Schemas and values -----------------------------------------------------------------

  datatype Field = Field(name: string, schema: Schema, default: Option<Value>)

  datatype Schema =
    | AnyT | NullT | BoolT | IntT | StrT | TimeT
    | EnumT(names: set<string>) | ArrayT(item: Schema) | MapT(item: Schema)
    | RecordT(name: string, fields: seq<Field>) | UnionT(branches: seq<Schema>)

  datatype Value =
    | VJson(json: Json) | VNull | VBool(value: bool) | VInt(number: int) | VStr(text: string)
    | VTime(at: int) | VEnum(name: string)
    | VArr(items: seq<Value>) | VMap(entries: map<string, Value>) | VRec(record: string, fields: map<string, Value>)

  /** ISO timestamps, and the validation that a record does on its own fields. */
  datatype Env = Env(iso: int -> string, fromIso: string -> Option<int>, accepts: (string, map<string, Value>) -> bool)

  ghost predicate EnvOk(e: Env) {
    forall t: int :: e.fromIso(e.iso(t)) == Some(t)
  }

  /** `_to_json`. */
  function ToJson(e: Env, v: Value): Json {
    match v
    case VJson(j) => j
    case VNull => Null
    case VBool(b) => Bool(b)
    case VInt(n) => Num(n)
    case VStr(s) => Str(s)
    case VTime(t) => Str(e.iso(t))
    case VEnum(name) => Str(name)
    case VArr(items) => Arr(seq(|items|, i requires 0 <= i < |items| => ToJson(e, items[i])))
    case VMap(m) => Obj(map key | key in m :: ToJson(e, m[key]))
    case VRec(_, m) => Obj(map key | key in m :: ToJson(e, m[key]))
  }

  function FieldNames(fields: seq<Field>): (ns: seq<string>)
    ensures |ns| == |fields|
  {
    seq(|fields|, i requires 0 <= i < |fields| => fields[i].name)
  }

  /** Fields without a default must be there. */
  predicate HasRequired(fields: seq<Field>, m: map<string, Json>) {
    forall i :: 0 <= i < |fields| && fields[i].default.None? ==> fields[i].name in m
  }

  /** `_decode_type`. */
  function Decode(e: Env, s: Schema, j: Json): Result<Value, CodecError>
    decreases s, 0
  {
    match s
    case AnyT => Ok(VJson(j))
    case NullT => if j.Null? then Ok(VNull) else Err(Mismatch)
    case BoolT => if j.Bool? then Ok(VBool(j.value)) else Err(Mismatch)
    case IntT => if j.Num? then Ok(VInt(j.number)) else Err(Mismatch)
    case StrT => if j.Str? then Ok(VStr(j.text)) else Err(Mismatch)
    case TimeT =>
      if !j.Str? then Err(Mismatch)
      else if e.fromIso(j.text).None? then Err(BadTime)
      else Ok(VTime(e.fromIso(j.text).value))
    case EnumT(names) => if !j.Str? then Err(Mismatch) else if j.text in names then Ok(VEnum(j.text)) else Err(BadEnum)
    case ArrayT(item) =>
      if !j.Arr? then Err(Mismatch)
      else
        (match DecodeItems(e, item, j.items)
         case Err(x) => Err(x)
         case Ok(items) => Ok(VArr(items)))
    case MapT(item) =>
      if !j.Obj? then Err(Mismatch)
      else if forall key :: key in j.fields ==> Decode(e, item, j.fields[key]).Ok?
      then Ok(VMap(map key | key in j.fields :: Decode(e, item, j.fields[key]).value))
      else Err(Mismatch)
    case RecordT(name, fields) =>
      if !j.Obj? then Err(Mismatch)
      else if !(j.fields.Keys <= Elements(FieldNames(fields))) then Err(UnknownField)
      else if !HasRequired(fields, j.fields) then Err(MissingField)
      else
        (match DecodeFields(e, fields, j.fields)
         case Err(x) => Err(x)
         case Ok(m) => if e.accepts(name, m) then Ok(VRec(name, m)) else Err(Invalid))
    case UnionT(branches) => DecodeUnion(e, branches, j)
  }

  function DecodeItems(e: Env, s: Schema, items: seq<Json>): Result<seq<Value>, CodecError>
    decreases s, |items| + 1
  {
    if items == [] then Ok([])
    else
      match Decode(e, s, items[0])
      case Err(x) => Err(x)
      case Ok(v) =>
        match DecodeItems(e, s, items[1..])
        case Err(x) => Err(x)
        case Ok(rest) => Ok([v] + rest)
  }

  /** The arguments of a record: decoded fields, and defaults for the missing ones. */
  function DecodeFields(e: Env, fields: seq<Field>, m: map<string, Json>): Result<map<string, Value>, CodecError>
    decreases fields, 0
  {
    if fields == [] then Ok(map[])
    else
      var f := fields[0];
      var first := if f.name in m then Decode(e, f.schema, m[f.name])
                   else if f.default.Some? then Ok(f.default.value) else Err(MissingField);
      match first
      case Err(x) => Err(x)
      case Ok(v) =>
        match DecodeFields(e, fields[1..], m)
        case Err(x) => Err(x)
        case Ok(rest) => Ok(rest[f.name := v])
  }

  /** The first branch that decodes. */
  function DecodeUnion(e: Env, branches: seq<Schema>, j: Json): Result<Value, CodecError>
    decreases branches, 0
  {
    if branches == [] then Err(NoBranch)
    else
      var first := Decode(e, branches[0], j);
      if first.Ok? then first else DecodeUnion(e, branches[1..], j)
  }

  // --- Types ----------------------------------------------------------------------------------

  predicate HasType(e: Env, v: Value, s: Schema) {
    match s
    case AnyT => v.VJson?
    case NullT => v.VNull?
    case BoolT => v.VBool?
    case IntT => v.VInt?
    case StrT => v.VStr?
    case TimeT => v.VTime?
    case EnumT(names) => v.VEnum? && v.name in names
    case ArrayT(item) => v.VArr? && forall i :: 0 <= i < |v.items| ==> HasType(e, v.items[i], item)
    case MapT(item) => v.VMap? && forall key :: key in v.entries ==> HasType(e, v.entries[key], item)
    case RecordT(name, fields) =>
      && v.VRec? && v.record == name && v.fields.Keys == Elements(FieldNames(fields)) && e.accepts(name, v.fields)
      && forall i :: 0 <= i < |fields| ==>
          fields[i].name in v.fields && HasType(e, v.fields[fields[i].name], fields[i].schema)
    case UnionT(branches) => exists i :: 0 <= i < |branches| && HasType(e, v, branches[i])
  }

  datatype Shape = NullShape | BoolShape | IntShape | TextShape | ArrayShape | ObjectShape | AnyShape

  /** The JSON shape of the values of a schema that is no union. */
  function ShapeOf(s: Schema): Shape {
    match s
    case NullT => NullShape
    case BoolT => BoolShape
    case IntT => IntShape
    case StrT => TextShape
    case TimeT => TextShape
    case EnumT(_) => TextShape
    case ArrayT(_) => ArrayShape
    case MapT(_) => ObjectShape
    case RecordT(_, _) => ObjectShape
    case _ => AnyShape
  }

  /**
    Schema `a` rejects what values of `b` print: their shapes differ, their enumerations have
    no name in common, or `b` has a field unknown to `a` or lacks one that `a` requires.
  */
  predicate Apart(a: Schema, b: Schema)
    decreases a, b
  {
    if a.UnionT? then forall i :: 0 <= i < |a.branches| ==> Apart(a.branches[i], b)
    else if b.UnionT? then forall i :: 0 <= i < |b.branches| ==> Apart(a, b.branches[i])
    else
      || (!a.AnyT? && !b.AnyT? && ShapeOf(a) != ShapeOf(b))
      || (a.EnumT? && b.EnumT? && a.names !! b.names)
      || (a.RecordT? && b.RecordT? && !FitsRecord(a.fields, b.fields))
  }

  /** An object with exactly the fields of `b` has no field unknown to `a` and all that `a` requires. */
  predicate FitsRecord(a: seq<Field>, b: seq<Field>) {
    && Elements(FieldNames(b)) <= Elements(FieldNames(a))
    && forall i :: 0 <= i < |a| && a[i].default.None? ==> a[i].name in FieldNames(b)
  }

  /** Field names are distinct, and an earlier branch of a union rejects every later one. */
  predicate WellFormed(s: Schema) {
    match s
    case ArrayT(item) => WellFormed(item)
    case MapT(item) => WellFormed(item)
    case RecordT(_, fields) => NoDuplicates(FieldNames(fields)) && forall i :: 0 <= i < |fields| ==>
        WellFormed(fields[i].schema)
    case UnionT(branches) =>
      && (forall i :: 0 <= i < |branches| ==> WellFormed(branches[i]))
      && (forall i, k :: 0 <= i < k < |branches| ==> Apart(branches[i], branches[k]))
    case _ => true
  }

  // --- Round trip -------------------------------------------------------------------------------

  lemma {:induction false} UnionRejects(e: Env, branches: seq<Schema>, j: Json)
    ensures DecodeUnion(e, branches, j).Err? <==> forall i :: 0 <= i < |branches| ==> Decode(e, branches[i], j).Err?
  {
    hide Decode;
    if branches != [] {
      UnionRejects(e, branches[1..], j);
      assert forall i :: 1 <= i < |branches| ==> branches[i] == branches[1..][i - 1];
    }
  }

  lemma {:induction false} ApartRejects(e: Env, a: Schema, b: Schema, v: Value)
    requires Apart(a, b) && HasType(e, v, b)
    ensures Decode(e, a, ToJson(e, v)).Err?
    decreases a, b
  {
    if a.UnionT? {
      forall i | 0 <= i < |a.branches| ensures Decode(e, a.branches[i], ToJson(e, v)).Err? {
        ApartRejects(e, a.branches[i], b, v);
      }
      UnionRejects(e, a.branches, ToJson(e, v));
    } else if b.UnionT? {
      var i :| 0 <= i < |b.branches| && HasType(e, v, b.branches[i]);
      ApartRejects(e, a, b.branches[i], v);
    } else if a.RecordT? && b.RecordT? && !FitsRecord(a.fields, b.fields) {
      RecordRejects(e, a, b, v);
    }
  }

  lemma RecordRejects(e: Env, a: Schema, b: Schema, v: Value)
    requires a.RecordT? && b.RecordT? && !FitsRecord(a.fields, b.fields) && HasType(e, v, b)
    ensures Decode(e, a, ToJson(e, v)).Err?
  {
    var m := ToJson(e, v).fields;
    assert m.Keys == v.fields.Keys == Elements(FieldNames(b.fields));
    hide HasType, ToJson, DecodeFields;
    if Elements(FieldNames(b.fields)) <= Elements(FieldNames(a.fields)) {
      var i :| 0 <= i < |a.fields| && a.fields[i].default.None? && a.fields[i].name !in FieldNames(b.fields);
      assert a.fields[i].name !in m;
    }
  }

  /**
    Main result: every well-typed value of a well-formed schema is printed and decoded to
    itself.
  */
  lemma {:induction false} RoundTrip(e: Env, s: Schema, v: Value)
    requires EnvOk(e) && WellFormed(s) && HasType(e, v, s)
    ensures Decode(e, s, ToJson(e, v)) == Ok(v)
    decreases s, 0
  {
    match s
    case TimeT => assert e.fromIso(e.iso(v.at)) == Some(v.at);
    case ArrayT(item) => ItemsRoundTrip(e, item, v.items);
    case MapT(item) => MapRoundTrip(e, item, v.entries);
    case RecordT(name, fields) => RecordRoundTrip(e, s, v);
    case UnionT(branches) =>
      var i :| 0 <= i < |branches| && HasType(e, v, branches[i]);
      UnionRoundTrip(e, branches, i, v);
    case _ =>
  }

  lemma {:induction false} ItemsRoundTrip(e: Env, item: Schema, items: seq<Value>)
    requires EnvOk(e) && WellFormed(item) && forall i :: 0 <= i < |items| ==> HasType(e, items[i], item)
    ensures DecodeItems(e, item, ToJson(e, VArr(items)).items) == Ok(items)
    decreases item, |items| + 1
  {
    hide Decode, HasType, WellFormed;
    if items != [] {
      RoundTrip(e, item, items[0]);
      ItemsRoundTrip(e, item, items[1..]);
      assert ToJson(e, VArr(items)).items[1..] == ToJson(e, VArr(items[1..])).items;
      assert items == [items[0]] + items[1..];
    }
  }

  lemma {:induction false} MapRoundTrip(e: Env, item: Schema, m: map<string, Value>)
    requires EnvOk(e) && WellFormed(item) && forall key :: key in m ==> HasType(e, m[key], item)
    ensures Decode(e, MapT(item), ToJson(e, VMap(m))) == Ok(VMap(m))
    decreases item, 1
  {
    var j := ToJson(e, VMap(m)).fields;
    forall key | key in m ensures Decode(e, item, j[key]) == Ok(m[key]) {
      RoundTrip(e, item, m[key]);
    }
    MapDecodes(e, item, m, j);
  }

  lemma MapDecodes(e: Env, item: Schema, m: map<string, Value>, j: map<string, Json>)
    requires j.Keys == m.Keys && forall key :: key in m ==> Decode(e, item, j[key]) == Ok(m[key])
    ensures Decode(e, MapT(item), Obj(j)) == Ok(VMap(m))
  {
    var decoded := map key | key in j :: Decode(e, item, j[key]).value;
    assert decoded == m;
    assert forall key :: key in j ==> Decode(e, item, j[key]).Ok?;
  }

  lemma {:induction false} RecordRoundTrip(e: Env, s: Schema, v: Value)
    requires EnvOk(e) && s.RecordT? && WellFormed(s) && HasType(e, v, s)
    ensures Decode(e, s, ToJson(e, v)) == Ok(v)
    decreases s.fields, 1
  {
    hide DecodeFields, KeepFields, NoDuplicates;
    var fields := s.fields;
    FieldsRoundTrip(e, fields, v.fields);
    var m := ToJson(e, v).fields;
    assert m == ToJson(e, VMap(v.fields)).fields;
    assert forall i :: 0 <= i < |fields| ==> fields[i].name in m;
    KeepAll(fields, v.fields);
  }

  /** The entries of `m` that the fields name. */
  function KeepFields(fields: seq<Field>, m: map<string, Value>): map<string, Value> {
    map key | key in m && key in FieldNames(fields) :: m[key]
  }

  lemma KeepAll(fields: seq<Field>, m: map<string, Value>)
    requires m.Keys == Elements(FieldNames(fields))
    ensures KeepFields(fields, m) == m
  {
    assert forall key :: key in m ==> key in Elements(FieldNames(fields));
  }

  lemma {:induction false} FieldsRoundTrip(e: Env, fields: seq<Field>, m: map<string, Value>)
    requires EnvOk(e) && NoDuplicates(FieldNames(fields))
    requires forall i :: 0 <= i < |fields| ==>
      WellFormed(fields[i].schema) && fields[i].name in m && HasType(e, m[fields[i].name], fields[i].schema)
    ensures DecodeFields(e, fields, ToJson(e, VMap(m)).fields) == Ok(KeepFields(fields, m))
    decreases fields, 0
  {
    hide Decode, HasType, WellFormed;
    if fields != [] {
      var f, rest := fields[0], fields[1..];
      assert FieldNames(fields) == [f.name] + FieldNames(rest);
      NoDuplicatesCons(f.name, FieldNames(rest));
      RoundTrip(e, f.schema, m[f.name]);
      FieldsRoundTrip(e, rest, m);
      assert KeepFields(fields, m) == KeepFields(rest, m)[f.name := m[f.name]];
    } else {
      assert KeepFields(fields, m) == map[];
    }
  }

  lemma {:induction false} UnionRoundTrip(e: Env, branches: seq<Schema>, i: nat, v: Value)
    requires EnvOk(e) && i < |branches| && HasType(e, v, branches[i])
    requires forall k :: 0 <= k < |branches| ==> WellFormed(branches[k])
    requires forall k, l :: 0 <= k < l < |branches| ==> Apart(branches[k], branches[l])
    ensures DecodeUnion(e, branches, ToJson(e, v)) == Ok(v)
    decreases branches
  {
    hide Decode, WellFormed, Apart, ToJson;
    if i == 0 {
      RoundTrip(e, branches[0], v);
    } else {
      ApartRejects(e, branches[0], branches[i], v);
      var rest := branches[1..];
      assert forall k :: 0 <= k < |rest| ==> rest[k] == branches[k + 1];
      UnionRoundTrip(e, rest, i - 1, v);
    }
  }

  /** Text and codec together: any text of the printed value loads and decodes to the value. */
  lemma TextRoundTrip(e: Env, s: Schema, v: Value, raw: Raw)
    requires EnvOk(e) && WellFormed(s) && HasType(e, v, s) && Prints(raw, ToJson(e, v))
    ensures Load(raw).Ok? && Decode(e, s, Load(raw).value) == Ok(v)
  {
    LoadIffPrints(raw, ToJson(e, v));
    RoundTrip(e, s, v);
  }

  /** Branches that are not apart: an enumeration behind a string comes back as a string. */
  lemma OverlappingUnionLosesType(e: Env)
    ensures
      var s, v := UnionT([StrT, EnumT({"lead"})]), VEnum("lead");
      HasType(e, v, s) && !WellFormed(s) && Decode(e, s, ToJson(e, v)) == Ok(VStr("lead"))
  {
    var s, v := UnionT([StrT, EnumT({"lead"})]), VEnum("lead");
    assert HasType(e, v, s.branches[1]);
    assert !Apart(s.branches[0], s.branches[1]);
    assert DecodeUnion(e, s.branches, Str("lead")) == Ok(VStr("lead"));
  }

  // --- What every schema accepts ------------------------------------------------------------------

  /** Field names are distinct in every record of the schema. */
  predicate NamesOk(s: Schema) {
    match s
    case ArrayT(item) => NamesOk(item)
    case MapT(item) => NamesOk(item)
    case RecordT(_, fields) => NoDuplicates(FieldNames(fields)) && forall i :: 0 <= i < |fields| ==>
        NamesOk(fields[i].schema)
    case UnionT(branches) => forall i :: 0 <= i < |branches| ==> NamesOk(branches[i])
    case _ => true
  }

  /**
    What JSON value `j` stands for value `v`: a timestamp is any text for its moment; a record has no
    unknown field, and each missing one has its default; of a union the first branch for which `j`
    stands for anything.
  */
  ghost predicate StandsFor(e: Env, s: Schema, j: Json, v: Value)
    decreases s, 0
  {
    match s
    case AnyT => v == VJson(j)
    case NullT => j.Null? && v.VNull?
    case BoolT => j.Bool? && v == VBool(j.value)
    case IntT => j.Num? && v == VInt(j.number)
    case StrT => j.Str? && v == VStr(j.text)
    case TimeT => j.Str? && v.VTime? && e.fromIso(j.text) == Some(v.at)
    case EnumT(names) => j.Str? && j.text in names && v == VEnum(j.text)
    case ArrayT(item) =>
      j.Arr? && v.VArr? && |v.items| == |j.items|
      && forall i :: 0 <= i < |j.items| ==> StandsFor(e, item, j.items[i], v.items[i])
    case MapT(item) =>
      j.Obj? && v.VMap? && v.entries.Keys == j.fields.Keys
      && forall key :: key in j.fields ==> StandsFor(e, item, j.fields[key], v.entries[key])
    case RecordT(name, fields) =>
      && j.Obj? && v.VRec? && v.record == name && e.accepts(name, v.fields)
      && j.fields.Keys <= Elements(FieldNames(fields)) && v.fields.Keys == Elements(FieldNames(fields))
      && forall i :: 0 <= i < |fields| ==>
          fields[i].name in v.fields && FieldStands(e, fields[i], j.fields, v.fields[fields[i].name])
    case UnionT(branches) =>
      FirstStandsFor(e, branches, j, v)
  }

  /** Under one branch the JSON stands for the value, under the earlier ones for nothing. */
  ghost predicate FirstStandsFor(e: Env, branches: seq<Schema>, j: Json, v: Value)
    decreases branches, 0
  {
    branches != []
    && (StandsFor(e, branches[0], j, v) || (StandsForNone(e, branches[0], j) && FirstStandsFor(e, branches[1..], j, v)))
  }

  ghost predicate StandsForNone(e: Env, s: Schema, j: Json)
    decreases s, 1
  {
    forall w :: !StandsFor(e, s, j, w)
  }

  ghost predicate FieldStands(e: Env, f: Field, m: map<string, Json>, v: Value)
    decreases f, 0
  {
    if f.name in m then StandsFor(e, f.schema, m[f.name], v) else f.default == Some(v)
  }

  /**
    Decoding returns exactly the value that the JSON stands for, for every schema: records with
    defaults, timestamps and unions that overlap included.
  */
  lemma {:induction false} DecodeIffStandsFor(e: Env, s: Schema, j: Json, v: Value)
    requires NamesOk(s)
    ensures Decode(e, s, j) == Ok(v) <==> StandsFor(e, s, j, v)
    decreases s, 0
  {
    match s
    case ArrayT(item) => if j.Arr? && v.VArr? { ItemsStand(e, item, j.items, v.items); }
    case MapT(item) => if j.Obj? && v.VMap? { EntriesStand(e, item, j.fields, v.entries); }
    case RecordT(name, fields) => if j.Obj? && v.VRec? { RecordStands(e, s, j, v); }
    case UnionT(branches) =>
      assert Decode(e, s, j) == DecodeUnion(e, branches, j);
      UnionStands(e, branches, j, v);
    case _ =>
  }

  /** The first branch that decodes the JSON gives the value. */
  ghost predicate FirstDecodes(e: Env, branches: seq<Schema>, j: Json, v: Value, i: nat) {
    i < |branches| && Decode(e, branches[i], j) == Ok(v) && forall k :: 0 <= k < i ==> Decode(e, branches[k], j).Err?
  }

  lemma {:induction false} UnionStands(e: Env, branches: seq<Schema>, j: Json, v: Value)
    requires forall k :: 0 <= k < |branches| ==> NamesOk(branches[k])
    ensures DecodeUnion(e, branches, j) == Ok(v) <==> FirstStandsFor(e, branches, j, v)
    decreases branches, 0
  {
    hide Decode, StandsFor, StandsForNone, NamesOk;
    if branches != [] {
      forall w ensures Decode(e, branches[0], j) == Ok(w) <==> StandsFor(e, branches[0], j, w) {
        DecodeIffStandsFor(e, branches[0], j, w);
      }
      NoneIff(e, branches[0], j);
      UnionStands(e, branches[1..], j, v);
    }
  }

  lemma NoneIff(e: Env, s: Schema, j: Json)
    requires forall w :: Decode(e, s, j) == Ok(w) <==> StandsFor(e, s, j, w)
    ensures Decode(e, s, j).Err? <==> StandsForNone(e, s, j)
  {
    hide Decode, StandsFor;
    if Decode(e, s, j).Ok? {
      assert StandsFor(e, s, j, Decode(e, s, j).value);
    } else {
      forall w ensures !StandsFor(e, s, j, w) { assert Decode(e, s, j) != Ok(w); }
    }
  }

  lemma {:induction false} FirstThatDecodes(e: Env, branches: seq<Schema>, j: Json, v: Value)
    ensures DecodeUnion(e, branches, j) == Ok(v) <==> exists i :: FirstDecodes(e, branches, j, v, i)
  {
    hide Decode;
    if branches != [] {
      var rest := branches[1..];
      FirstThatDecodes(e, rest, j, v);
      assert forall k :: 0 <= k < |rest| ==> rest[k] == branches[k + 1];
      if Decode(e, branches[0], j).Ok? {
        if Decode(e, branches[0], j) == Ok(v) { assert FirstDecodes(e, branches, j, v, 0); }
      } else {
        if i: nat :| FirstDecodes(e, rest, j, v, i) { assert FirstDecodes(e, branches, j, v, i + 1); }
        if i: nat :| FirstDecodes(e, branches, j, v, i) { assert FirstDecodes(e, rest, j, v, i - 1); }
      }
    }
  }

  lemma {:induction false} ItemsStand(e: Env, item: Schema, items: seq<Json>, vs: seq<Value>)
    requires NamesOk(item)
    ensures DecodeItems(e, item, items) == Ok(vs)
       <==> |vs| == |items| && forall i :: 0 <= i < |items| ==> StandsFor(e, item, items[i], vs[i])
    decreases item, |items| + 1
  {
    hide Decode, StandsFor, NamesOk;
    if items != [] && vs != [] {
      DecodeIffStandsFor(e, item, items[0], vs[0]);
      ItemsStand(e, item, items[1..], vs[1..]);
      assert vs == [vs[0]] + vs[1..];
    }
  }

  lemma {:induction false} EntriesStand(e: Env, item: Schema, j: map<string, Json>, m: map<string, Value>)
    requires NamesOk(item)
    ensures Decode(e, MapT(item), Obj(j)) == Ok(VMap(m)) <==> StandsFor(e, MapT(item), Obj(j), VMap(m))
    decreases item, 1
  {
    forall key | key in j && key in m ensures Decode(e, item, j[key]) == Ok(m[key])
        <==> StandsFor(e, item, j[key], m[key]) {
      DecodeIffStandsFor(e, item, j[key], m[key]);
    }
    if StandsFor(e, MapT(item), Obj(j), VMap(m)) { MapDecodes(e, item, m, j); }
    if Decode(e, MapT(item), Obj(j)) == Ok(VMap(m)) { MapDecoded(e, item, m, j); }
  }

  lemma MapDecoded(e: Env, item: Schema, m: map<string, Value>, j: map<string, Json>)
    requires Decode(e, MapT(item), Obj(j)) == Ok(VMap(m))
    ensures j.Keys == m.Keys && forall key :: key in m ==> Decode(e, item, j[key]) == Ok(m[key])
  {
    var decoded := map key | key in j :: Decode(e, item, j[key]).value;
    assert forall key :: key in j ==> Decode(e, item, j[key]).Ok?;
    assert m == decoded;
  }

  lemma {:induction false} RecordStands(e: Env, s: Schema, j: Json, v: Value)
    requires s.RecordT? && NamesOk(s) && j.Obj? && v.VRec?
    ensures Decode(e, s, j) == Ok(v) <==> StandsFor(e, s, j, v)
    decreases s.fields, 1
  {
    var fields := s.fields;
    FieldsStand(e, fields, j.fields, v.fields);
    hide DecodeFields, NamesOk;
    assert StandsFor(e, s, j, v) ==> HasRequired(fields, j.fields) by {
      if StandsFor(e, s, j, v) {
        forall i | 0 <= i < |fields| && fields[i].default.None? ensures fields[i].name in j.fields {
          assert FieldStands(e, fields[i], j.fields, v.fields[fields[i].name]);
        }
      }
    }
  }

  ghost predicate AllStand(e: Env, fields: seq<Field>, m: map<string, Json>, vs: map<string, Value>) {
    && vs.Keys == Elements(FieldNames(fields))
    && forall i :: 0 <= i < |fields| ==> fields[i].name in vs && FieldStands(e, fields[i], m, vs[fields[i].name])
  }

  lemma {:induction false} FieldsStand(e: Env, fields: seq<Field>, m: map<string, Json>, vs: map<string, Value>)
    requires NoDuplicates(FieldNames(fields)) && forall i :: 0 <= i < |fields| ==> NamesOk(fields[i].schema)
    ensures DecodeFields(e, fields, m) == Ok(vs) <==> AllStand(e, fields, m, vs)
    decreases fields, 0
  {
    if fields == [] {
      assert Elements(FieldNames(fields)) == {};
    } else {
      var f, rest := fields[0], fields[1..];
      assert fields == [f] + rest && FieldNames(fields) == [f.name] + FieldNames(rest);
      NoDuplicatesCons(f.name, FieldNames(rest));
      FieldsStand(e, rest, m, vs - {f.name});
      if f.name in vs { FieldStandsIff(e, f, m, vs[f.name]); }
      hide *;
      DecodeFieldsNext(e, f, rest, m, vs);
      AllStandNext(e, f, rest, m, vs);
    }
  }

  lemma {:induction false} FieldStandsIff(e: Env, f: Field, m: map<string, Json>, v: Value)
    requires NamesOk(f.schema)
    ensures DecodeField(e, f, m) == Ok(v) <==> FieldStands(e, f, m, v)
    decreases f, 1
  {
    if f.name in m { DecodeIffStandsFor(e, f.schema, m[f.name], v); }
  }

  /** The argument for one field: its decoded entry, or its default. */
  function DecodeField(e: Env, f: Field, m: map<string, Json>): Result<Value, CodecError> {
    if f.name in m then Decode(e, f.schema, m[f.name])
    else if f.default.Some? then Ok(f.default.value) else Err(MissingField)
  }

  lemma DecodeFieldsNext(e: Env, f: Field, rest: seq<Field>, m: map<string, Json>, vs: map<string, Value>)
    requires f.name !in FieldNames(rest)
    ensures DecodeFields(e, [f] + rest, m) == Ok(vs)
       <==> f.name in vs && DecodeField(e, f, m) == Ok(vs[f.name]) && DecodeFields(e, rest, m) == Ok(vs - {f.name})
  {
    assert ([f] + rest)[1..] == rest;
    DecodedNames(e, rest, m);
    hide Decode;
    if DecodeFields(e, rest, m).Ok? {
      var r := DecodeFields(e, rest, m).value;
      assert f.name !in r;
      if DecodeField(e, f, m).Ok? {
        var v := DecodeField(e, f, m).value;
        assert r[f.name := v] - {f.name} == r;
        if f.name in vs && v == vs[f.name] && r == vs - {f.name} { assert r[f.name := v] == vs; }
      }
    }
  }

  lemma {:induction false} DecodedNames(e: Env, fields: seq<Field>, m: map<string, Json>)
    ensures DecodeFields(e, fields, m).Ok? ==> DecodeFields(e, fields, m).value.Keys == Elements(FieldNames(fields))
  {
    hide Decode;
    if fields == [] {
      assert Elements(FieldNames(fields)) == {};
    } else {
      DecodedNames(e, fields[1..], m);
      assert FieldNames(fields) == [fields[0].name] + FieldNames(fields[1..]);
      ElementsCons(fields[0].name, FieldNames(fields[1..]));
    }
  }

  lemma AllStandNext(e: Env, f: Field, rest: seq<Field>, m: map<string, Json>, vs: map<string, Value>)
    requires f.name !in FieldNames(rest)
    ensures AllStand(e, [f] + rest, m, vs)
       <==> f.name in vs && FieldStands(e, f, m, vs[f.name]) && AllStand(e, rest, m, vs - {f.name})
  {
    var fields, less := [f] + rest, vs - {f.name};
    assert FieldNames(fields) == [f.name] + FieldNames(rest);
    ElementsCons(f.name, FieldNames(rest));
    assert forall i :: 0 <= i < |rest| ==> FieldNames(rest)[i] == rest[i].name && fields[i + 1] == rest[i];
    hide FieldStands;
    if AllStand(e, fields, m, vs) {
      assert fields[0] == f;
      forall i | 0 <= i < |rest| ensures rest[i].name in less && FieldStands(e, rest[i], m, less[rest[i].name]) {
        assert fields[i + 1].name in vs;
      }
    }
    if f.name in vs && FieldStands(e, f, m, vs[f.name]) && AllStand(e, rest, m, less) {
      assert vs.Keys == {f.name} + less.Keys;
      forall i | 0 <= i < |fields| ensures fields[i].name in vs && FieldStands(e, fields[i], m, vs[fields[i].name]) {
        if i > 0 { assert fields[i] == rest[i - 1]; }
      }
    }
  }

  // --- What decoding returns ----------------------------------------------------------------------

  /** The default of a field has the type of the field. */
  ghost predicate TypedDefaults(e: Env, s: Schema) {
    match s
    case ArrayT(item) => TypedDefaults(e, item)
    case MapT(item) => TypedDefaults(e, item)
    case RecordT(_, fields) =>
      forall i :: 0 <= i < |fields| ==>
        TypedDefaults(e, fields[i].schema)
            && (fields[i].default.Some? ==> HasType(e, fields[i].default.value, fields[i].schema))
    case UnionT(branches) => forall i :: 0 <= i < |branches| ==> TypedDefaults(e, branches[i])
    case _ => true
  }

  /** `k` is `j` with the missing defaults filled in and the timestamps printed again. */
  ghost predicate Refilled(e: Env, s: Schema, j: Json, k: Json) {
    match s
    case TimeT => j.Str? && e.fromIso(j.text).Some? && k == Str(e.iso(e.fromIso(j.text).value))
    case ArrayT(item) =>
      j.Arr? && k.Arr? && |k.items| == |j.items| && forall i :: 0 <= i < |j.items| ==>
          Refilled(e, item, j.items[i], k.items[i])
    case MapT(item) =>
      j.Obj? && k.Obj? && k.fields.Keys == j.fields.Keys
      && forall key :: key in j.fields ==> Refilled(e, item, j.fields[key], k.fields[key])
    case RecordT(_, fields) =>
      && j.Obj? && k.Obj? && j.fields.Keys <= k.fields.Keys == Elements(FieldNames(fields))
      && forall i :: 0 <= i < |fields| ==>
           fields[i].name in k.fields
           && if fields[i].name in j.fields
               then Refilled(e, fields[i].schema, j.fields[fields[i].name], k.fields[fields[i].name])
              else fields[i].default.Some? && k.fields[fields[i].name] == ToJson(e, fields[i].default.value)
    case UnionT(branches) => exists i :: 0 <= i < |branches| && Refilled(e, branches[i], j, k)
    case _ => k == j
  }

  lemma {:induction false} StandsIsTyped(e: Env, s: Schema, j: Json, v: Value)
    requires TypedDefaults(e, s) && StandsFor(e, s, j, v)
    ensures HasType(e, v, s)
    decreases s
  {
    match s
    case ArrayT(item) => forall i | 0 <= i < |v.items| ensures HasType(e, v.items[i], item) {
      StandsIsTyped(e, item, j.items[i], v.items[i]);
    }
    case MapT(item) => forall key | key in v.entries ensures HasType(e, v.entries[key], item) {
      StandsIsTyped(e, item, j.fields[key], v.entries[key]);
    }
    case RecordT(_, fields) => forall i | 0 <= i < |fields|
        ensures HasType(e, v.fields[fields[i].name], fields[i].schema) {
      var f := fields[i];
      assert FieldStands(e, f, j.fields, v.fields[f.name]);
      if f.name in j.fields { StandsIsTyped(e, f.schema, j.fields[f.name], v.fields[f.name]); }
    }
    case UnionT(branches) =>
      var i := StandingBranch(e, branches, j, v);
      StandsIsTyped(e, branches[i], j, v);
    case _ =>
  }

  lemma {:induction false} StandingBranch(e: Env, branches: seq<Schema>, j: Json, v: Value) returns (i: nat)
    requires FirstStandsFor(e, branches, j, v)
    ensures i < |branches| && StandsFor(e, branches[i], j, v)
  {
    hide StandsFor, StandsForNone;
    if StandsFor(e, branches[0], j, v) {
      i := 0;
    } else {
      i := StandingBranch(e, branches[1..], j, v);
      i := i + 1;
    }
  }

  lemma {:induction false} StandsIsRefilled(e: Env, s: Schema, j: Json, v: Value)
    requires StandsFor(e, s, j, v)
    ensures Refilled(e, s, j, ToJson(e, v))
    decreases s
  {
    match s
    case ArrayT(item) => forall i | 0 <= i < |v.items| ensures Refilled(e, item, j.items[i], ToJson(e, v.items[i])) {
      StandsIsRefilled(e, item, j.items[i], v.items[i]);
    }
    case MapT(item) => forall key | key in v.entries
        ensures Refilled(e, item, j.fields[key], ToJson(e, v.entries[key])) {
      StandsIsRefilled(e, item, j.fields[key], v.entries[key]);
    }
    case RecordT(_, fields) =>
      forall i | 0 <= i < |fields| && fields[i].name in j.fields
        ensures Refilled(e, fields[i].schema, j.fields[fields[i].name], ToJson(e, v.fields[fields[i].name]))
      {
        assert FieldStands(e, fields[i], j.fields, v.fields[fields[i].name]);
        StandsIsRefilled(e, fields[i].schema, j.fields[fields[i].name], v.fields[fields[i].name]);
      }
      assert forall i :: 0 <= i < |fields| ==> FieldStands(e, fields[i], j.fields, v.fields[fields[i].name]);
    case UnionT(branches) =>
      var i := StandingBranch(e, branches, j, v);
      StandsIsRefilled(e, branches[i], j, v);
    case _ =>
  }

  /**
    What decoding returns has the type of the schema and prints to the JSON that was read, with the
    missing defaults filled in and the timestamps printed again; read again, that gives the same value.
  */
  lemma DecodeIsSound(e: Env, s: Schema, j: Json)
    requires NamesOk(s) && TypedDefaults(e, s) && Decode(e, s, j).Ok?
    ensures
      var v := Decode(e, s, j).value;
      && HasType(e, v, s) && Refilled(e, s, j, ToJson(e, v))
      && (EnvOk(e) && WellFormed(s) ==> Decode(e, s, ToJson(e, v)) == Ok(v))
  {
    hide *;
    var v := Decode(e, s, j).value;
    DecodeIffStandsFor(e, s, j, v);
    StandsIsTyped(e, s, j, v);
    StandsIsRefilled(e, s, j, v);
    if EnvOk(e) && WellFormed(s) { RoundTrip(e, s, v); }
  }

  /** An unknown field, or a required one missing, at any depth; for a union under every branch. */
  predicate Malformed(s: Schema, j: Json) {
    match s
    case ArrayT(item) => j.Arr? && exists i :: 0 <= i < |j.items| && Malformed(item, j.items[i])
    case MapT(item) => j.Obj? && exists key :: key in j.fields && Malformed(item, j.fields[key])
    case RecordT(_, fields) =>
      j.Obj? && (!(j.fields.Keys <= Elements(FieldNames(fields))) || !HasRequired(fields, j.fields)
                 || exists i :: 0 <= i < |fields| && fields[i].name in j.fields
                     && Malformed(fields[i].schema, j.fields[fields[i].name]))
    case UnionT(branches) => forall i :: 0 <= i < |branches| ==> Malformed(branches[i], j)
    case _ => false
  }

  lemma {:induction false} MalformedStandsForNone(e: Env, s: Schema, j: Json, v: Value)
    requires Malformed(s, j)
    ensures !StandsFor(e, s, j, v)
    decreases s
  {
    if StandsFor(e, s, j, v) {
      match s
      case ArrayT(item) =>
        var i :| 0 <= i < |j.items| && Malformed(item, j.items[i]);
        MalformedStandsForNone(e, item, j.items[i], v.items[i]);
      case MapT(item) =>
        var key :| key in j.fields && Malformed(item, j.fields[key]);
        MalformedStandsForNone(e, item, j.fields[key], v.entries[key]);
      case RecordT(_, fields) => MalformedRecord(e, s, j, v);
      case UnionT(branches) =>
        var i := StandingBranch(e, branches, j, v);
        MalformedStandsForNone(e, branches[i], j, v);
    }
  }

  lemma {:induction false} MalformedRecord(e: Env, s: Schema, j: Json, v: Value)
    requires s.RecordT? && Malformed(s, j)
    ensures !StandsFor(e, s, j, v)
    decreases s.fields
  {
    var fields := s.fields;
    if StandsFor(e, s, j, v) {
      assert forall i :: 0 <= i < |fields| ==> FieldStands(e, fields[i], j.fields, v.fields[fields[i].name]);
      if i :| 0 <= i < |fields| && fields[i].name in j.fields && Malformed(fields[i].schema, j.fields[fields[i].name]) {
        MalformedStandsForNone(e, fields[i].schema, j.fields[fields[i].name], v.fields[fields[i].name]);
      }
    }
  }

  /** Unknown fields and missing required fields are errors at any depth. */
  lemma MalformedIsRejected(e: Env, s: Schema, j: Json)
    requires NamesOk(s) && Malformed(s, j)
    ensures Decode(e, s, j).Err?
  {
    hide *;
    if Decode(e, s, j).Ok? {
      DecodeIffStandsFor(e, s, j, Decode(e, s, j).value);
      MalformedStandsForNone(e, s, j, Decode(e, s, j).value);
    }
  }

  // --- What prints back as it was read --------------------------------------------------------------

  /**
    Every record has all its fields and every timestamp is written as it would be printed; of a union the
    branch that decodes counts.
  */
  ghost predicate Canonical(e: Env, s: Schema, j: Json)
    decreases s, 0
  {
    match s
    case TimeT => j.Str? && e.fromIso(j.text).Some? && j.text == e.iso(e.fromIso(j.text).value)
    case ArrayT(item) => j.Arr? && forall i :: 0 <= i < |j.items| ==> Canonical(e, item, j.items[i])
    case MapT(item) => j.Obj? && forall key :: key in j.fields ==> Canonical(e, item, j.fields[key])
    case RecordT(_, fields) =>
      j.Obj? && forall i :: 0 <= i < |fields| ==>
        fields[i].name in j.fields && Canonical(e, fields[i].schema, j.fields[fields[i].name])
    case UnionT(branches) => FirstCanonical(e, branches, j)
    case _ => true
  }

  ghost predicate FirstCanonical(e: Env, branches: seq<Schema>, j: Json)
    decreases branches, 0
  {
    branches != []
    && if StandsForNone(e, branches[0], j) then FirstCanonical(e, branches[1..], j) else Canonical(e, branches[0], j)
  }

  /** A decoded value prints to the JSON it was read from exactly when that JSON is canonical. */
  lemma {:induction false} PrintsBackIff(e: Env, s: Schema, j: Json, v: Value)
    requires StandsFor(e, s, j, v)
    ensures ToJson(e, v) == j <==> Canonical(e, s, j)
    decreases s, 0
  {
    match s
    case ArrayT(item) =>
      forall i | 0 <= i < |j.items| ensures ToJson(e, v.items[i]) == j.items[i] <==> Canonical(e, item, j.items[i]) {
        PrintsBackIff(e, item, j.items[i], v.items[i]);
      }
      ArrayPrintsBack(e, j, v);
    case MapT(item) =>
      forall key | key in j.fields
        ensures ToJson(e, v.entries[key]) == j.fields[key] <==> Canonical(e, item, j.fields[key])
      {
        PrintsBackIff(e, item, j.fields[key], v.entries[key]);
      }
      MapPrintsBack(e, j, v);
    case RecordT(_, fields) =>
      forall i | 0 <= i < |fields| && fields[i].name in j.fields
        ensures ToJson(e, v.fields[fields[i].name]) == j.fields[fields[i].name]
           <==> Canonical(e, fields[i].schema, j.fields[fields[i].name])
      {
        assert FieldStands(e, fields[i], j.fields, v.fields[fields[i].name]);
        PrintsBackIff(e, fields[i].schema, j.fields[fields[i].name], v.fields[fields[i].name]);
      }
      RecordPrintsBack(e, fields, j, v);
    case UnionT(branches) => FirstPrintsBack(e, branches, j, v);
    case _ =>
  }

  lemma {:induction false} FirstPrintsBack(e: Env, branches: seq<Schema>, j: Json, v: Value)
    requires FirstStandsFor(e, branches, j, v)
    ensures ToJson(e, v) == j <==> FirstCanonical(e, branches, j)
    decreases branches, 0
  {
    hide StandsFor, Canonical, ToJson;
    if StandsFor(e, branches[0], j, v) {
      PrintsBackIff(e, branches[0], j, v);
    } else {
      FirstPrintsBack(e, branches[1..], j, v);
    }
  }

  lemma ArrayPrintsBack(e: Env, j: Json, v: Value)
    requires j.Arr? && v.VArr? && |v.items| == |j.items|
    ensures ToJson(e, v) == j <==> forall i :: 0 <= i < |j.items| ==> ToJson(e, v.items[i]) == j.items[i]
  {
    var k := ToJson(e, v);
    assert k.Arr? && |k.items| == |j.items| && forall i :: 0 <= i < |j.items| ==> k.items[i] == ToJson(e, v.items[i]);
    hide ToJson;
    if forall i :: 0 <= i < |j.items| ==> ToJson(e, v.items[i]) == j.items[i] { assert k.items == j.items; }
  }

  lemma MapPrintsBack(e: Env, j: Json, v: Value)
    requires j.Obj? && v.VMap? && v.entries.Keys == j.fields.Keys
    ensures ToJson(e, v) == j <==> forall key :: key in j.fields ==> ToJson(e, v.entries[key]) == j.fields[key]
  {
    var k := ToJson(e, v);
    assert k.Obj? && k.fields.Keys == j.fields.Keys;
    assert forall key :: key in j.fields ==> k.fields[key] == ToJson(e, v.entries[key]);
    hide ToJson;
    if forall key :: key in j.fields ==> ToJson(e, v.entries[key]) == j.fields[key] { assert k.fields == j.fields; }
  }

  lemma RecordPrintsBack(e: Env, fields: seq<Field>, j: Json, v: Value)
    requires j.Obj? && v.VRec? && j.fields.Keys <= Elements(FieldNames(fields)) == v.fields.Keys
    requires forall i :: 0 <= i < |fields| ==> fields[i].name in v.fields
    ensures
      ToJson(e, v) == j
      <==>
      forall i :: 0 <= i < |fields| ==>
        fields[i].name in j.fields && ToJson(e, v.fields[fields[i].name]) == j.fields[fields[i].name]
  {
    var k := ToJson(e, v);
    assert k.Obj? && k.fields.Keys == v.fields.Keys;
    assert forall key :: key in k.fields ==> k.fields[key] == ToJson(e, v.fields[key]);
    hide ToJson;
    if forall i :: 0 <= i < |fields| ==>
      fields[i].name in j.fields && ToJson(e, v.fields[fields[i].name]) == j.fields[fields[i].name]
    {
      forall key | key in k.fields ensures key in j.fields && k.fields[key] == j.fields[key] {
        var i :| 0 <= i < |FieldNames(fields)| && FieldNames(fields)[i] == key;
        assert fields[i].name == key;
      }
      assert k.fields == j.fields;
    }
  }

  // --- Schemas without defaults and timestamps ------------------------------------------------------

  /** Field names are distinct and no field has a default; there are no timestamps. */
  predicate Exact(s: Schema) {
    match s
    case TimeT => false
    case ArrayT(item) => Exact(item)
    case MapT(item) => Exact(item)
    case RecordT(_, fields) =>
      NoDuplicates(FieldNames(fields)) && forall i :: 0 <= i < |fields| ==>
          fields[i].default.None? && Exact(fields[i].schema)
    case UnionT(branches) => forall i :: 0 <= i < |branches| ==> Exact(branches[i])
    case _ => true
  }

  lemma {:induction false} ExactIsTyped(e: Env, s: Schema)
    requires Exact(s)
    ensures NamesOk(s) && TypedDefaults(e, s)
    decreases s
  {
    match s
    case ArrayT(item) => ExactIsTyped(e, item);
    case MapT(item) => ExactIsTyped(e, item);
    case RecordT(_, fields) => forall i | 0 <= i < |fields|
        ensures NamesOk(fields[i].schema) && TypedDefaults(e, fields[i].schema) {
      ExactIsTyped(e, fields[i].schema);
    }
    case UnionT(branches) => forall i | 0 <= i < |branches|
        ensures NamesOk(branches[i]) && TypedDefaults(e, branches[i]) {
      ExactIsTyped(e, branches[i]);
    }
    case _ =>
  }

  lemma {:induction false} ExactIsSame(e: Env, s: Schema, j: Json, k: Json)
    requires Exact(s) && Refilled(e, s, j, k)
    ensures k == j
    decreases s
  {
    match s
    case ArrayT(item) =>
      forall i | 0 <= i < |j.items| ensures k.items[i] == j.items[i] { ExactIsSame(e, item, j.items[i], k.items[i]); }
      assert k.items == j.items;
    case MapT(item) =>
      forall key | key in j.fields
          ensures k.fields[key] == j.fields[key] { ExactIsSame(e, item, j.fields[key], k.fields[key]); }
      assert k.fields == j.fields;
    case RecordT(_, fields) =>
      forall key | key in k.fields ensures key in j.fields && k.fields[key] == j.fields[key] {
        var i :| 0 <= i < |FieldNames(fields)| && FieldNames(fields)[i] == key;
        assert fields[i].name == key;
        ExactIsSame(e, fields[i].schema, j.fields[key], k.fields[key]);
      }
      assert k.fields == j.fields;
    case UnionT(branches) =>
      var i :| 0 <= i < |branches| && Refilled(e, branches[i], j, k);
      ExactIsSame(e, branches[i], j, k);
    case _ =>
  }

  lemma {:induction false} WellFormedNames(s: Schema)
    requires WellFormed(s)
    ensures NamesOk(s)
    decreases s
  {
    match s
    case ArrayT(item) => WellFormedNames(item);
    case MapT(item) => WellFormedNames(item);
    case RecordT(_, fields) => forall i | 0 <= i < |fields| ensures NamesOk(fields[i].schema) {
      WellFormedNames(fields[i].schema);
    }
    case UnionT(branches) => forall i | 0 <= i < |branches| ensures NamesOk(branches[i]) {
      WellFormedNames(branches[i]);
    }
    case _ =>
  }

  /**
    On canonical JSON decoding is the exact inverse of printing, for every schema; for a schema without
    defaults and timestamps on all JSON.
  */
  lemma DecodeIffPrinted(e: Env, s: Schema, j: Json, v: Value)
    requires EnvOk(e) && WellFormed(s)
    ensures TypedDefaults(e, s) ==>
      (Decode(e, s, j) == Ok(v) && Canonical(e, s, j) <==> HasType(e, v, s) && ToJson(e, v) == j)
    ensures Exact(s) ==> (Decode(e, s, j) == Ok(v) <==> HasType(e, v, s) && ToJson(e, v) == j)
  {
    hide *;
    WellFormedNames(s);
    if Exact(s) { ExactIsTyped(e, s); }
    if HasType(e, v, s) { RoundTrip(e, s, v); }
    if Decode(e, s, j) == Ok(v) {
      DecodeIffStandsFor(e, s, j, v);
      PrintsBackIff(e, s, j, v);
      if TypedDefaults(e, s) { DecodeIsSound(e, s, j); }
      if Exact(s) { ExactIsSame(e, s, j, ToJson(e, v)); }
    }
  }

  // --- When a union keeps its types -----------------------------------------------------------------

  /** The first branch that accepts the JSON of the value returns the value. */
  ghost predicate ReturnsItself(e: Env, branches: seq<Schema>, v: Value) {
    exists i :: FirstDecodes(e, branches, ToJson(e, v), v, i)
  }

  lemma UnionValue(e: Env, branches: seq<Schema>, v: Value)
    ensures Decode(e, UnionT(branches), ToJson(e, v)) == Ok(v) <==> ReturnsItself(e, branches, v)
    ensures HasType(e, v, UnionT(branches)) <==> exists k :: 0 <= k < |branches| && HasType(e, v, branches[k])
  {
    FirstThatDecodes(e, branches, ToJson(e, v), v);
    assert Decode(e, UnionT(branches), ToJson(e, v)) == DecodeUnion(e, branches, ToJson(e, v));
    hide FirstDecodes, ToJson, DecodeUnion;
  }

  /** A union keeps the type of all its values if and only if each value of each branch returns itself. */
  lemma UnionKeepsTypesIff(e: Env, branches: seq<Schema>)
    ensures
      (forall v :: HasType(e, v, UnionT(branches)) ==> Decode(e, UnionT(branches), ToJson(e, v)) == Ok(v))
      <==> (forall v, k :: 0 <= k < |branches| && HasType(e, v, branches[k]) ==> ReturnsItself(e, branches, v))
  {
    hide *;
    var u := UnionT(branches);
    forall v ensures (HasType(e, v, u) ==> Decode(e, u, ToJson(e, v)) == Ok(v))
                 <==> (forall k :: 0 <= k < |branches| && HasType(e, v, branches[k]) ==> ReturnsItself(e, branches, v))
    {
      UnionValue(e, branches, v);
    }
  }

  // --- Mailbox records ---------------------------------------------------------------------------------

  /** `encode_mailbox_record`: a record with a tag beside it. */
  function TagRecord(e: Env, isMessage: bool, v: Value): Json {
    Obj(map["record_type" := Str(if isMessage then "message" else "read"), "value" := ToJson(e, v)])
  }

  /** `decode_mailbox_record`. */
  function DecodeTagged(e: Env, message: Schema, read: Schema, j: Json): Result<(bool, Value), CodecError> {
    if !j.Obj? || j.fields.Keys != {"record_type", "value"} then Err(Mismatch)
    else
      var isMessage := j.fields["record_type"] == Str("message");
      if !isMessage && j.fields["record_type"] != Str("read") then Err(Mismatch)
      else
        match Decode(e, if isMessage then message else read, j.fields["value"])
        case Err(x) => Err(x)
        case Ok(v) => Ok((isMessage, v))
  }

  /** The tag tells a message from a read receipt, whatever their schemas are. */
  lemma TaggedRoundTrip(e: Env, message: Schema, read: Schema, isMessage: bool, v: Value, raw: Raw)
    requires EnvOk(e) && WellFormed(message) && WellFormed(read) && HasType(e, v, if isMessage then message else read)
    requires Prints(raw, TagRecord(e, isMessage, v))
    ensures Load(raw).Ok? && DecodeTagged(e, message, read, Load(raw).value) == Ok((isMessage, v))
  {
    LoadIffPrints(raw, TagRecord(e, isMessage, v));
    RoundTrip(e, if isMessage then message else read, v);
    hide Decode, HasType, WellFormed, Prints, Load;
    assert |"message"| != |"read"|;
    assert TagRecord(e, isMessage, v).fields.Keys == {"record_type", "value"};
  }
}

/** JSON values as Python's `json` module holds them, and the weight that bounds them by their text. */
module Json {
  import opened PyText

  /** A number is kept as its literal; a dictionary keeps the order of insertion. */
  datatype Json =
    | Null
    | Bool(b: bool)
    | Number(literal: string)
    | Str(s: string)
    | Arr(items: seq<Json>)
    | Obj(fields: seq<Member>)

  datatype Member = Member(key: string, value: Json)

  function Weight(v: Json): (w: nat)
    ensures w > 0
  {
    match v
    case Str(s) => |s| + 1
    case Arr(items) => 1 + WeightItems(items)
    case Obj(fields) => 1 + WeightFields(fields)
    case _ => 1
  }

  function WeightItems(items: seq<Json>): nat {
    if items == [] then 0 else Weight(items[0]) + WeightItems(items[1..])
  }

  function WeightFields(fields: seq<Member>): nat {
    if fields == [] then 0 else |fields[0].key| + Weight(fields[0].value) + WeightFields(fields[1..])
  }

  /** `dict.get(key)`, None when the key is missing. */
  function Get(fields: seq<Member>, key: string): (r: Option<Json>)
    ensures r.Some? ==> Weight(r.value) <= WeightFields(fields)
  {
    if fields == [] then None
    else if fields[0].key == key then Some(fields[0].value)
    else Get(fields[1..], key)
  }

  /** `v.get(key)` where `v` may be no dictionary at all. */
  function Field(v: Json, key: string): Option<Json> {
    if v.Obj? then Get(v.fields, key) else None
  }

  function TextAt(v: Json, key: string): Option<string> {
    var f := Field(v, key);
    if f.Some? && f.value.Str? then Some(f.value.s) else None
  }

  lemma {:induction false} GetAt(fields: seq<Member>, key: string, i: nat)
    requires i < |fields| && fields[i].key == key && forall j :: 0 <= j < i ==> fields[j].key != key
    ensures Get(fields, key) == Some(fields[i].value)
  {
    if i > 0 {
      GetAt(fields[1..], key, i - 1);
    }
  }

  lemma {:induction false} GetNowhere(fields: seq<Member>, key: string)
    requires forall j :: 0 <= j < |fields| ==> fields[j].key != key
    ensures Get(fields, key) == None
  {
    if fields != [] {
      GetNowhere(fields[1..], key);
    }
  }

  /** Dictionary assignment: an existing key keeps its place. */
  function Put(fields: seq<Member>, key: string, value: Json): (r: seq<Member>)
    ensures WeightFields(r) <= WeightFields(fields) + |key| + Weight(value)
  {
    if fields == [] then [Member(key, value)]
    else if fields[0].key == key then [Member(key, value)] + fields[1..]
    else [fields[0]] + Put(fields[1..], key, value)
  }

  predicate Absent(fields: seq<Member>, key: string) {
    forall i :: 0 <= i < |fields| ==> fields[i].key != key
  }

  lemma {:induction false} PutAbsent(fields: seq<Member>, key: string, value: Json)
    requires Absent(fields, key)
    ensures Put(fields, key, value) == fields + [Member(key, value)]
  {
    if fields != [] {
      PutAbsent(fields[1..], key, value);
      assert [fields[0]] + (fields[1..] + [Member(key, value)]) == fields + [Member(key, value)];
    }
  }

  predicate DistinctKeys(fields: seq<Member>) {
    forall i, j :: 0 <= i < j < |fields| ==> fields[i].key != fields[j].key
  }
}

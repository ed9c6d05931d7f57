/** The walk that collects attestation statements from nested JSON and from JSON inside base64 payload strings. */
module Statements {
  import opened PyText
  import opened Json
  import JsonText
  import Encodings

  function WrapperKeys(): seq<string> {
    ["statement", "attestation", "bundle", "dsseEnvelope", "envelope", "verificationResult", "verifiedAttestation",
     "verified_attestation", "result", "results", "attestations"]
  }

  function PayloadKeys(): seq<string> {
    ["payload", "dssePayload"]
  }

  /** Base64, then UTF-8, then JSON; None where any of the three fails. The value is lighter than the string. */
  function DecodePayload(s: string): (r: Option<Json>)
    ensures r.Some? ==> Weight(r.value) <= |s|
  {
    var raw := Encodings.DecodeBase64(s);
    if raw.None? then None
    else
      var text := Encodings.DecodeUtf8(raw.value);
      if text.None? then None else JsonText.Loads(text.value)
  }

  predicate IsStatement(v: Json) {
    && (var subject := Field(v, "subject"); subject.Some? && subject.value.Arr?)
    && (TextAt(v, "_type").Some? || TextAt(v, "predicateType").Some?)
  }

  // ---------------------------------------------------------------- the walk

  function Walk(v: Json): seq<Json>
    decreases Weight(v), 0
  {
    match v
    case Arr(items) => WalkItems(items)
    case Obj(fields) =>
      (if IsStatement(v) then [v] else []) + WalkPayloads(fields, PayloadKeys()) + WalkWrappers(fields, WrapperKeys())
    case _ => []
  }

  function WalkItems(items: seq<Json>): seq<Json>
    decreases WeightItems(items), |items|
  {
    if items == [] then [] else Walk(items[0]) + WalkItems(items[1..])
  }

  /** The decoded value of the payload string under `key`, if there is one. */
  function Unwrapped(fields: seq<Member>, key: string): (r: Option<Json>)
    ensures r.Some? ==> Weight(r.value) < WeightFields(fields)
  {
    var f := Get(fields, key);
    if f.Some? && f.value.Str? then DecodePayload(f.value.s) else None
  }

  function WalkPayloads(fields: seq<Member>, keys: seq<string>): seq<Json>
    decreases WeightFields(fields), |keys|
  {
    if keys == [] then []
    else (if Unwrapped(fields, keys[0]).Some? then Walk(Unwrapped(fields, keys[0]).value) else []) + WalkPayloads(fields, keys[1..])
  }

  function WalkWrappers(fields: seq<Member>, keys: seq<string>): seq<Json>
    decreases WeightFields(fields), |keys| + 1
  {
    if keys == [] then []
    else (if Get(fields, keys[0]).Some? then Walk(Get(fields, keys[0]).value) else []) + WalkWrappers(fields, keys[1..])
  }

  lemma WalkCases(v: Json)
    ensures v.Arr? ==> Walk(v) == WalkItems(v.items)
    ensures v.Obj? ==>
              Walk(v) == (if IsStatement(v) then [v] else [])
                         + WalkPayloads(v.fields, PayloadKeys()) + WalkWrappers(v.fields, WrapperKeys())
    ensures !v.Arr? && !v.Obj? ==> Walk(v) == []
  {
    hide IsStatement, WrapperKeys, PayloadKeys;
  }

  /** The recursive walk with its accumulator. */
  method IterAttestationStatements(value: Json) returns (statements: seq<Json>)
    ensures statements == Walk(value)
    decreases Weight(value), 0
  {
    hide Walk, WalkItems, WalkPayloads, WalkWrappers, Get, PayloadKeys, WrapperKeys;
    WalkCases(value);
    statements := [];
    if value.Arr? {
      statements := IterItems(value.items);
    } else if value.Obj? {
      var subject := Field(value, "subject");
      if subject.Some? && subject.value.Arr? && (TextAt(value, "_type").Some? || TextAt(value, "predicateType").Some?) {
        statements := [value];
      }
      KeyLists();
      var more := IterPayloads(value.fields, ["payload", "dssePayload"]);
      statements := statements + more;
      more := IterWrappers(value.fields, ["statement", "attestation", "bundle", "dsseEnvelope", "envelope", "verificationResult",
                                          "verifiedAttestation", "verified_attestation", "result", "results", "attestations"]);
      statements := statements + more;
    }
  }

  lemma KeyLists()
    ensures PayloadKeys() == ["payload", "dssePayload"]
    ensures WrapperKeys() == ["statement", "attestation", "bundle", "dsseEnvelope", "envelope", "verificationResult",
                              "verifiedAttestation", "verified_attestation", "result", "results", "attestations"]
  {
  }

  method IterItems(items: seq<Json>) returns (statements: seq<Json>)
    ensures statements == WalkItems(items)
    decreases WeightItems(items), 1
  {
    hide Walk;
    statements := [];
    for i := 0 to |items|
      invariant statements + WalkItems(items[i..]) == WalkItems(items)
    {
      ItemWeight(items, i);
      var more := IterAttestationStatements(items[i]);
      assert items[i..][0] == items[i] && items[i..][1..] == items[i + 1..];
      statements := statements + more;
    }
    assert items[|items|..] == [] && statements + [] == statements;
  }

  method IterPayloads(fields: seq<Member>, keys: seq<string>) returns (statements: seq<Json>)
    ensures statements == WalkPayloads(fields, keys)
    decreases WeightFields(fields), 1
  {
    hide Walk, DecodePayload, Get, WalkPayloads;
    statements := [];
    for k := 0 to |keys|
      invariant WalkPayloads(fields, keys) == statements + WalkPayloads(fields, keys[k..])
    {
      PayloadStep(fields, keys, k);
      var found: seq<Json> := [];
      var payload := Get(fields, keys[k]);
      if payload.Some? && payload.value.Str? {
        var decoded := DecodePayload(payload.value.s);
        if decoded.Some? {
          found := IterAttestationStatements(decoded.value);
        }
      }
      Regroup(statements, found, WalkPayloads(fields, keys[k + 1..]));
      statements := statements + found;
    }
    NoKeys(fields, keys);
  }

  method IterWrappers(fields: seq<Member>, keys: seq<string>) returns (statements: seq<Json>)
    ensures statements == WalkWrappers(fields, keys)
    decreases WeightFields(fields), 1
  {
    hide Walk, Get, WalkWrappers;
    statements := [];
    for k := 0 to |keys|
      invariant WalkWrappers(fields, keys) == statements + WalkWrappers(fields, keys[k..])
    {
      WrapperStep(fields, keys, k);
      var found: seq<Json> := [];
      var inner := Get(fields, keys[k]);
      if inner.Some? {
        found := IterAttestationStatements(inner.value);
      }
      Regroup(statements, found, WalkWrappers(fields, keys[k + 1..]));
      statements := statements + found;
    }
    NoKeys(fields, keys);
  }

  lemma Regroup(a: seq<Json>, b: seq<Json>, c: seq<Json>)
    ensures a + (b + c) == (a + b) + c
  {
  }

  lemma NoKeys(fields: seq<Member>, keys: seq<string>)
    ensures WalkPayloads(fields, keys[|keys|..]) == WalkWrappers(fields, keys[|keys|..]) == []
  {
  }

  lemma PayloadStep(fields: seq<Member>, keys: seq<string>, k: nat)
    requires k < |keys|
    ensures WalkPayloads(fields, keys[k..])
            == (if Unwrapped(fields, keys[k]).Some? then Walk(Unwrapped(fields, keys[k]).value) else []) + WalkPayloads(fields, keys[k + 1..])
  {
    hide Walk, Unwrapped;
    assert keys[k..][1..] == keys[k + 1..];
  }

  lemma WrapperStep(fields: seq<Member>, keys: seq<string>, k: nat)
    requires k < |keys|
    ensures WalkWrappers(fields, keys[k..])
            == (if Get(fields, keys[k]).Some? then Walk(Get(fields, keys[k]).value) else []) + WalkWrappers(fields, keys[k + 1..])
  {
    hide Walk, Get;
    assert keys[k..][1..] == keys[k + 1..];
  }

  lemma {:induction false} ItemWeight(items: seq<Json>, i: nat)
    requires i < |items|
    ensures Weight(items[i]) <= WeightItems(items)
  {
    if i > 0 {
      ItemWeight(items[1..], i - 1);
    }
  }

  // ---------------------------------------------------------------- reachability

  datatype Step = Item(i: nat) | Wrapped(key: string) | Decoded(key: string)

  /** The keys under which a statement may be wrapped. */
  predicate IsWrapper(key: string) {
    || key == "statement" || key == "attestation" || key == "attestations" || key == "bundle"
    || key == "envelope" || key == "dsseEnvelope" || key == "result" || key == "results" || key == "verificationResult"
    || key == "verifiedAttestation" || key == "verified_attestation"
  }

  predicate IsPayload(key: string) {
    key == "dssePayload" || key == "payload"
  }

  lemma KeysAre(key: string)
    ensures key in WrapperKeys() <==> IsWrapper(key)
    ensures key in PayloadKeys() <==> IsPayload(key)
  {
    var w, p := WrapperKeys(), PayloadKeys();
    assert key in w <==> key == w[0] || key == w[1] || key == w[2] || key == w[3] || key == w[4] || key == w[5] || key == w[6]
                         || key == w[7] || key == w[8] || key == w[9] || key == w[10];
    assert key in p <==> key == p[0] || key == p[1];
  }

  /** One step from a value: a list item, a value under a wrapper key, or the JSON in the base64 text under a payload key. */
  function Take(v: Json, step: Step): Option<Json> {
    match step
    case Item(i) => if v.Arr? && i < |v.items| then Some(v.items[i]) else None
    case Wrapped(key) => if IsWrapper(key) then Field(v, key) else None
    case Decoded(key) => if IsPayload(key) && TextAt(v, key).Some? then DecodePayload(TextAt(v, key).value) else None
  }

  predicate Reaches(v: Json, path: seq<Step>, target: Json)
    decreases |path|
  {
    if path == [] then v == target
    else Take(v, path[0]).Some? && Reaches(Take(v, path[0]).value, path[1..], target)
  }

  lemma StepThen(v: Json, step: Step, next: Json, tail: seq<Step>, s: Json)
    requires Take(v, step) == Some(next) && Reaches(next, tail, s)
    ensures Reaches(v, [step] + tail, s)
  {
    hide Take;
    assert ([step] + tail)[1..] == tail;
  }

  lemma TakeKeys(v: Json, key: string)
    requires v.Obj?
    ensures key in WrapperKeys() ==> Take(v, Wrapped(key)) == Get(v.fields, key)
    ensures key in PayloadKeys() ==> Take(v, Decoded(key)) == Unwrapped(v.fields, key)
  {
    KeysAre(key);
    hide IsWrapper, IsPayload, WrapperKeys, PayloadKeys, DecodePayload;
  }

  /** Everything collected is a statement reached by some path. */
  lemma {:induction false} WalkIsSound(v: Json, s: Json) returns (path: seq<Step>)
    requires s in Walk(v)
    ensures IsStatement(s) && Reaches(v, path, s)
    decreases Weight(v), 0
  {
    hide IsStatement, WrapperKeys, PayloadKeys, Unwrapped, IsWrapper, IsPayload;
    WalkCases(v);
    if v.Arr? {
      var i, tail := ItemsAreSound(v.items, s);
      path := [Item(i)] + tail;
      StepThen(v, Item(i), v.items[i], tail, s);
    } else if s in WalkPayloads(v.fields, PayloadKeys()) {
      var key, tail := PayloadsAreSound(v.fields, PayloadKeys(), s);
      path := [Decoded(key)] + tail;
      TakeKeys(v, key);
      StepThen(v, Decoded(key), Unwrapped(v.fields, key).value, tail, s);
    } else if s in WalkWrappers(v.fields, WrapperKeys()) {
      var key, tail := WrappersAreSound(v.fields, WrapperKeys(), s);
      path := [Wrapped(key)] + tail;
      TakeKeys(v, key);
      StepThen(v, Wrapped(key), Get(v.fields, key).value, tail, s);
    } else {
      path := [];
    }
  }

  lemma {:induction false} ItemsAreSound(items: seq<Json>, s: Json) returns (i: nat, path: seq<Step>)
    requires s in WalkItems(items)
    ensures i < |items| && IsStatement(s) && Reaches(items[i], path, s)
    decreases WeightItems(items), |items|
  {
    if s in Walk(items[0]) {
      i := 0;
      path := WalkIsSound(items[0], s);
    } else {
      var j;
      j, path := ItemsAreSound(items[1..], s);
      i := j + 1;
    }
  }

  lemma {:induction false} PayloadsAreSound(fields: seq<Member>, keys: seq<string>, s: Json) returns (key: string, path: seq<Step>)
    requires s in WalkPayloads(fields, keys)
    ensures key in keys && IsStatement(s) && Unwrapped(fields, key).Some? && Reaches(Unwrapped(fields, key).value, path, s)
    decreases WeightFields(fields), |keys|
  {
    if Unwrapped(fields, keys[0]).Some? && s in Walk(Unwrapped(fields, keys[0]).value) {
      key := keys[0];
      path := WalkIsSound(Unwrapped(fields, key).value, s);
    } else {
      key, path := PayloadsAreSound(fields, keys[1..], s);
    }
  }

  lemma {:induction false} WrappersAreSound(fields: seq<Member>, keys: seq<string>, s: Json) returns (key: string, path: seq<Step>)
    requires s in WalkWrappers(fields, keys)
    ensures key in keys && IsStatement(s) && Get(fields, key).Some? && Reaches(Get(fields, key).value, path, s)
    decreases WeightFields(fields), |keys| + 1
  {
    if Get(fields, keys[0]).Some? && s in Walk(Get(fields, keys[0]).value) {
      key := keys[0];
      path := WalkIsSound(Get(fields, key).value, s);
    } else {
      key, path := WrappersAreSound(fields, keys[1..], s);
    }
  }

  /** Every statement at the end of a path is collected. */
  lemma {:induction false} WalkIsComplete(v: Json, path: seq<Step>, s: Json)
    requires Reaches(v, path, s) && IsStatement(s)
    ensures s in Walk(v)
    decreases |path|
  {
    if path == [] {
    } else {
      var next := Take(v, path[0]).value;
      WalkIsComplete(next, path[1..], s);
      match path[0]
      case Item(i) => InItems(v.items, i, s);
      case Wrapped(key) => InWrappers(v.fields, WrapperKeys(), key, s);
      case Decoded(key) => InPayloads(v.fields, PayloadKeys(), key, s);
    }
  }

  lemma {:induction false} InItems(items: seq<Json>, i: nat, s: Json)
    requires i < |items| && s in Walk(items[i])
    ensures s in WalkItems(items)
  {
    if i > 0 {
      InItems(items[1..], i - 1, s);
    }
  }

  lemma {:induction false} InWrappers(fields: seq<Member>, keys: seq<string>, key: string, s: Json)
    requires key in keys && Get(fields, key).Some? && s in Walk(Get(fields, key).value)
    ensures s in WalkWrappers(fields, keys)
    decreases |keys|
  {
    if keys[0] != key {
      InWrappers(fields, keys[1..], key, s);
    }
  }

  lemma {:induction false} InPayloads(fields: seq<Member>, keys: seq<string>, key: string, s: Json)
    requires key in keys && Unwrapped(fields, key).Some? && s in Walk(Unwrapped(fields, key).value)
    ensures s in WalkPayloads(fields, keys)
    decreases |keys|
  {
    if keys[0] != key {
      InPayloads(fields, keys[1..], key, s);
    }
  }

  /** What a step reaches is collected with its origin. */
  lemma OneStep(v: Json, step: Step, next: Json, s: Json)
    requires Take(v, step) == Some(next) && s in Walk(next)
    ensures s in Walk(v)
  {
    hide IsStatement, Take;
    var path := WalkIsSound(next, s);
    assert ([step] + path)[1..] == path;
    WalkIsComplete(v, [step] + path, s);
  }

  /** The collected values are exactly the statements reachable from the walked value. */
  lemma WalkIsReachability(v: Json, s: Json)
    ensures s in Walk(v) <==> IsStatement(s) && exists path :: Reaches(v, path, s)
  {
    hide Walk, IsStatement, Take;
    if s in Walk(v) {
      var path := WalkIsSound(v, s);
      assert Reaches(v, path, s);
    } else if IsStatement(s) && exists path :: Reaches(v, path, s) {
      var path :| Reaches(v, path, s);
      WalkIsComplete(v, path, s);
    }
  }

  // ---------------------------------------------------------------- producers of payloads

  lemma {:induction false} DumpsPlain(v: Json)
    requires JsonText.Valid(v)
    ensures JsonText.Plain(JsonText.Dumps(v))
    decreases v, 0
  {
    match v
    case Arr(items) => DumpItemsPlain(items);
    case Obj(fields) => DumpFieldsPlain(fields);
    case _ =>
  }

  lemma {:induction false} DumpItemsPlain(items: seq<Json>)
    requires JsonText.ValidItems(items)
    ensures JsonText.Plain(JsonText.DumpItems(items))
    decreases items, 1
  {
    if items != [] {
      DumpsPlain(items[0]);
      DumpItemsPlain(items[1..]);
    }
  }

  lemma {:induction false} DumpFieldsPlain(fields: seq<Member>)
    requires JsonText.ValidFields(fields)
    ensures JsonText.Plain(JsonText.DumpFields(fields))
    decreases fields, 1
  {
    if fields != [] {
      DumpsPlain(fields[0].value);
      DumpFieldsPlain(fields[1..]);
    }
  }

  /** The base64 of a value's JSON text. */
  function Encode(v: Json): string
    requires JsonText.Valid(v)
  {
    DumpsPlain(v);
    Encodings.EncodeBase64(Encodings.AsciiBytes(JsonText.Dumps(v)))
  }

  /** What an envelope producer encodes, the reader decodes. */
  lemma PayloadRoundTrip(v: Json)
    requires JsonText.Valid(v)
    ensures DecodePayload(Encode(v)) == Some(v)
  {
    DumpsPlain(v);
    var bytes := Encodings.AsciiBytes(JsonText.Dumps(v));
    Encodings.Base64RoundTrip(bytes);
    Encodings.AsciiRoundTrip(JsonText.Dumps(v));
    JsonText.LoadsDumps(v);
  }

  /** A value under a wrapper key, or its base64 text under a payload key. */
  datatype Layer = Plain(key: string) | Coded(key: string)

  predicate IsLayer(l: Layer) {
    if l.Plain? then IsWrapper(l.key) else IsPayload(l.key)
  }

  function Wrap(v: Json, l: Layer): (r: Json)
    requires JsonText.Valid(v)
    ensures JsonText.Valid(r)
  {
    var m := Member(l.key, if l.Plain? then v else Str(Encode(v)));
    assert JsonText.Valid(m.value) && [m][1..] == [];
    assert JsonText.ValidFields([m]) && DistinctKeys([m]);
    Obj([m])
  }

  /** The value in all these layers, the first outermost. */
  function Layered(v: Json, layers: seq<Layer>): (r: Json)
    requires JsonText.Valid(v)
    ensures JsonText.Valid(r)
  {
    if layers == [] then v else Wrap(Layered(v, layers[1..]), layers[0])
  }

  lemma LayerOpens(v: Json, l: Layer, s: Json)
    requires JsonText.Valid(v) && IsLayer(l) && s in Walk(v)
    ensures s in Walk(Wrap(v, l))
  {
    hide Walk, DecodePayload, Encode, IsWrapper, IsPayload;
    PayloadRoundTrip(v);
    OneStep(Wrap(v, l), if l.Plain? then Wrapped(l.key) else Decoded(l.key), v, s);
  }

  /** A statement is found under any wrapper and payload keys, nested in any way. */
  lemma {:induction false} EnvelopesAreOpened(s: Json, layers: seq<Layer>)
    requires JsonText.Valid(s) && IsStatement(s) && forall i :: 0 <= i < |layers| ==> IsLayer(layers[i])
    ensures s in Walk(Layered(s, layers))
  {
    hide Walk, IsStatement, Wrap, IsLayer;
    if layers != [] {
      EnvelopesAreOpened(s, layers[1..]);
      LayerOpens(Layered(s, layers[1..]), layers[0], s);
    } else {
      WalkIsComplete(s, [], s);
    }
  }
}

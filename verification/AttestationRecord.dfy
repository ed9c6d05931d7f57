/** The machine-verification record for attestations: its producer, its validator, and when they agree. */
module AttestationRecord {
  import opened PyText
  import opened Hashing
  import opened Json
  import JsonText
  import Statements
  import Encodings
  import PosixPath
  import Sorting

  /** A file as a directory listing shows it. */
  datatype File = File(name: string, bytes: Bytes)

  /** The listed names of a directory: no slash in any, no name twice. */
  predicate IsListing(files: seq<File>) {
    && (forall i :: 0 <= i < |files| ==> PosixPath.IsPart(files[i].name))
    && forall i, j :: 0 <= i < j < |files| ==> files[i].name != files[j].name
  }

  const SLSA := "https://slsa.dev/provenance/v1"

  predicate IsPlaceholder(value: string) {
    Strip(value) in {"", "not_collected", "NOT_COLLECTED", "TO_BE_COLLECTED", "pending", "PENDING"}
  }

  // ---------------------------------------------------------------- statements

  datatype Subject = Subject(name: string, sha256: string)

  function Lower(s: string): string {
    if s == [] then []
    else [if 'A' <= s[0] <= 'Z' then (s[0] as int + 32) as char else s[0]] + Lower(s[1..])
  }

  function SubjectOf(raw: Json): Option<Subject> {
    var digest := Field(raw, "digest");
    var sha256 := if digest.Some? then TextAt(digest.value, "sha256") else None;
    var name := TextAt(raw, "name");
    if name.Some? && sha256.Some? then Some(Subject(PosixPath.Name(name.value), Lower(sha256.value))) else None
  }

  function SubjectsOf(items: seq<Json>): seq<Subject> {
    if items == [] then []
    else
      var s := SubjectOf(items[|items| - 1]);
      SubjectsOf(items[..|items| - 1]) + if s.Some? then [s.value] else []
  }

  function SubjectsFromStatement(statement: Json): seq<Subject> {
    var raw := Field(statement, "subject");
    if raw.Some? && raw.value.Arr? then SubjectsOf(raw.value.items) else []
  }

  /** `walk_values`: the value and everything inside it. */
  function WalkValues(v: Json): seq<Json>
    decreases Weight(v), 0
  {
    [v] + match v
          case Arr(items) => WalkAll(items)
          case Obj(fields) => WalkFields(fields)
          case _ => []
  }

  function WalkAll(items: seq<Json>): seq<Json>
    decreases WeightItems(items), 1 + |items|
  {
    if items == [] then [] else WalkValues(items[0]) + WalkAll(items[1..])
  }

  function WalkFields(fields: seq<Member>): seq<Json>
    decreases WeightFields(fields), 1 + |fields|
  {
    if fields == [] then [] else WalkValues(fields[0].value) + WalkFields(fields[1..])
  }

  function FirstBuilder(values: seq<Json>): Option<string> {
    if values == [] then None
    else
      var builder := Field(values[0], "builder");
      var id := if builder.Some? then TextAt(builder.value, "id") else None;
      if id.Some? && Strip(id.value) != [] then id else FirstBuilder(values[1..])
  }

  predicate ByKey(a: Member, b: Member) {
    Less(a.key, b.key)
  }

  /** Sorts every dictionary by key, as `json.dumps(..., sort_keys=True)` does. */
  function SortKeys(v: Json): Json
    decreases v, 0
  {
    match v
    case Arr(items) => Arr(SortItems(items))
    case Obj(fields) => Obj(Sorting.Sort(SortFields(fields), ByKey))
    case _ => v
  }

  function SortItems(items: seq<Json>): seq<Json>
    decreases items, 1
  {
    if items == [] then [] else [SortKeys(items[0])] + SortItems(items[1..])
  }

  function SortFields(fields: seq<Member>): seq<Member>
    decreases fields, 1
  {
    if fields == [] then [] else [Member(fields[0].key, SortKeys(fields[0].value))] + SortFields(fields[1..])
  }

  function CanonicalText(v: Json): string {
    JsonText.Dumps(SortKeys(v))
  }

  /** `contains_text(predicate, expected)`, where a missing predicate is Python's None. */
  predicate ContainsText(predicate': Option<Json>, expected: string) {
    expected != [] && Contains(CanonicalText(if predicate'.Some? then predicate'.value else Null), expected)
  }

  // ---------------------------------------------------------------- materials

  /** A number literal up to its exponent; the exponent cannot make it zero. */
  function Mantissa(literal: string): string {
    var m := literal[..Find(literal, 'e')];
    m[..Find(m, 'E')]
  }

  predicate Truthy(v: Json) {
    match v
    case Null => false
    case Bool(b) => b
    case Number(literal) => literal in ["NaN", "Infinity", "-Infinity"] || exists c :: c in Mantissa(literal) && '1' <= c <= '9'
    case Str(s) => s != []
    case Arr(items) => items != []
    case Obj(fields) => fields != []
  }

  function OneOf(v: Json, keys: seq<string>): Option<Json> {
    if keys == [] then None
    else
      var f := Field(v, keys[0]);
      if f.Some? && Truthy(f.value) then f else OneOf(v, keys[1..])
  }

  /** `isinstance(value, (str, int))`; Python counts booleans as integers. */
  predicate IsTextOrInt(v: Json) {
    v.Str? || v.Bool? || (v.Number? && forall c :: c in v.literal ==> c == '-' || IsDigit(c))
  }

  function AsText(v: Json): string {
    match v
    case Str(s) => s
    case Bool(b) => if b then "True" else "False"
    case Number(literal) => if literal == "-0" then "0" else literal
    case _ => []
  }

  function FilterDigest(fields: seq<Member>): seq<Member> {
    if fields == [] then []
    else
      (if IsTextOrInt(fields[0].value) then [Member(fields[0].key, Str(AsText(fields[0].value)))] else [])
      + FilterDigest(fields[1..])
  }

  /** The entry kept for one listed material; None when nothing is left of it. */
  function MaterialEntry(item: Json): Option<Json> {
    var uri := OneOf(item, ["uri", "name", "downloadLocation"]);
    var digest := Field(item, "digest");
    var filtered := if digest.Some? && digest.value.Obj? then FilterDigest(digest.value.fields) else [];
    var entry := (if uri.Some? && uri.value.Str? then [Member("uri", uri.value)] else [])
      + (if filtered != [] then [Member("digest", Obj(filtered))] else []);
    if item.Obj? && entry != [] then Some(Obj(entry)) else None
  }

  function EntriesOf(items: seq<Json>): seq<Json> {
    if items == [] then []
    else
      var e := MaterialEntry(items[0]);
      (if e.Some? then [e.value] else []) + EntriesOf(items[1..])
  }

  function ListedIn(v: Json, key: string): seq<Json> {
    var f := Field(v, key);
    if f.Some? && f.value.Arr? then EntriesOf(f.value.items) else []
  }

  function AllMaterials(values: seq<Json>): seq<Json> {
    if values == [] then []
    else
      ListedIn(values[0], "materials") + ListedIn(values[0], "resolvedDependencies")
      + ListedIn(values[0], "resolved_dependencies") + AllMaterials(values[1..])
  }

  /** One entry per canonical text. */
  function Unique(entries: seq<Json>): (r: seq<Json>)
    ensures entries != [] ==> r != []
  {
    if entries == [] then []
    else
      var r := Unique(entries[..|entries| - 1]);
      var e := entries[|entries| - 1];
      if exists i :: 0 <= i < |r| && CanonicalText(r[i]) == CanonicalText(e) then r else r + [e]
  }

  function CollectMaterials(statement: Json): seq<Json> {
    var p := Field(statement, "predicate");
    Sorting.Sort(Unique(AllMaterials(WalkValues(if p.Some? then p.value else Null))),
                 (a: Json, b: Json) => Less(CanonicalText(a), CanonicalText(b)))
  }

  // ---------------------------------------------------------------- provenance

  datatype Source = Source(repository: string, workflow: string, runId: string, runAttempt: string, ref: string, sourceSha: string)

  datatype Provenance = Provenance(predicateType: string, builderId: string, repository: string, ref: string,
                                   runId: string, runAttempt: string, sourceSha: string, materials: seq<Json>)

  /** The statement's predicate is of the supported type, names a builder and materials, and binds the source. */
  predicate Binds(statement: Json, source: Source) {
    var p := Field(statement, "predicate");
    var builder := FirstBuilder(WalkValues(if p.Some? then p.value else Null));
    && TextAt(statement, "predicateType") == Some(SLSA)
    && builder.Some? && !IsPlaceholder(builder.value)
    && CollectMaterials(statement) != []
    && ContainsText(p, source.repository) && ContainsText(p, source.ref) && ContainsText(p, source.runId)
    && ContainsText(p, source.runAttempt) && ContainsText(p, source.sourceSha)
  }

  function ProvenanceContext(statement: Json, source: Source): Provenance {
    var p := Field(statement, "predicate");
    var builder := FirstBuilder(WalkValues(if p.Some? then p.value else Null));
    Provenance(SLSA, if builder.Some? then builder.value else [], source.repository, source.ref, source.runId,
               source.runAttempt, source.sourceSha, CollectMaterials(statement))
  }

  // ---------------------------------------------------------------- attestation files

  datatype Material = Material(path: string, sha256: string, bytes: nat, subjects: seq<Subject>, provenance: seq<Provenance>)

  function ReadJson(bytes: Bytes): Option<Json> {
    var text := Encodings.DecodeUtf8(bytes);
    if text.Some? then JsonText.Loads(text.value) else None
  }

  /** The bytes of a file that holds a value. */
  function JsonFile(v: Json): (bytes: Bytes)
    requires JsonText.Valid(v)
    ensures ReadJson(bytes) == Some(v) && bytes != []
  {
    Statements.DumpsPlain(v);
    FileIsRead(v);
    Encodings.AsciiBytes(JsonText.Dumps(v))
  }

  lemma FileIsRead(v: Json)
    requires JsonText.Valid(v) && JsonText.Plain(JsonText.Dumps(v))
    ensures var bytes := Encodings.AsciiBytes(JsonText.Dumps(v)); ReadJson(bytes) == Some(v) && bytes != []
  {
    hide JsonText.Dumps, JsonText.Loads, JsonText.Valid, Encodings.AsciiBytes, Encodings.DecodeUtf8;
    Encodings.AsciiRoundTrip(JsonText.Dumps(v));
    JsonText.LoadsDumps(v);
    NothingIsNoJson();
  }

  lemma NothingIsNoJson()
    ensures ReadJson([]).None?
  {
    assert Encodings.DecodeUtf8([]) == Some([]);
  }

  /** The subjects of all statements of one file, in order. */
  function FileSubjects(statements: seq<Json>): seq<Subject> {
    if statements == [] then []
    else FileSubjects(statements[..|statements| - 1]) + SubjectsFromStatement(statements[|statements| - 1])
  }

  function FileProvenance(statements: seq<Json>, source: Source): seq<Provenance> {
    if statements == [] then []
    else
      var last := statements[|statements| - 1];
      FileProvenance(statements[..|statements| - 1], source)
      + if SubjectsFromStatement(last) != [] then [ProvenanceContext(last, source)] else []
  }

  function FileStatements(f: File): seq<Json> {
    var payload := ReadJson(f.bytes);
    if payload.Some? then Statements.Walk(payload.value) else []
  }

  /** The file can be read, has subjects, and each statement that has some binds the source. */
  predicate GoodFile(f: File, source: Source) {
    && f.bytes != [] && ReadJson(f.bytes).Some?
    && FileSubjects(FileStatements(f)) != []
    && forall s :: s in FileStatements(f) && SubjectsFromStatement(s) != [] ==> Binds(s, source)
  }

  function SubjectBefore(a: Subject, b: Subject): bool {
    Less(a.name, b.name) || (a.name == b.name && Less(a.sha256, b.sha256))
  }

  function Minimal(subjects: seq<Subject>): seq<Subject> {
    Sorting.Sort(subjects, SubjectBefore)
  }

  function MaterialOf(f: File, source: Source, sha: Bytes -> string): Material {
    Material(f.name, sha(f.bytes), |f.bytes|, Minimal(FileSubjects(FileStatements(f))), FileProvenance(FileStatements(f), source))
  }

  /** `verified[identity] = subject`: the first occurrence keeps its place. */
  function AddUnique(s: seq<Subject>, more: seq<Subject>): seq<Subject>
    decreases |more|
  {
    if more == [] then s
    else AddUnique(if more[0] in s then s else s + [more[0]], more[1..])
  }

  function Verified(files: seq<File>): seq<Subject> {
    if files == [] then []
    else AddUnique(Verified(files[..|files| - 1]), FileSubjects(FileStatements(files[|files| - 1])))
  }

  lemma {:induction false} AddUniqueAdds(s: seq<Subject>, more: seq<Subject>)
    requires Sorting.NoRepeats(s)
    ensures Sorting.NoRepeats(AddUnique(s, more))
    ensures forall x :: x in AddUnique(s, more) <==> x in s || x in more
    decreases |more|
  {
    if more != [] {
      AddUniqueAdds(if more[0] in s then s else s + [more[0]], more[1..]);
      assert more == [more[0]] + more[1..];
    }
  }

  predicate NamedIn(files: seq<File>, s: Subject) {
    exists i :: 0 <= i < |files| && s in FileSubjects(FileStatements(files[i]))
  }

  lemma NamedInLast(files: seq<File>, s: Subject)
    requires files != []
    ensures NamedIn(files, s) <==>
            NamedIn(files[..|files| - 1], s) || s in FileSubjects(FileStatements(files[|files| - 1]))
  {
    hide FileSubjects, FileStatements;
    var front := files[..|files| - 1];
    if NamedIn(front, s) {
      var i :| 0 <= i < |front| && s in FileSubjects(FileStatements(front[i]));
      assert front[i] == files[i];
    }
    if NamedIn(files, s) {
      var i :| 0 <= i < |files| && s in FileSubjects(FileStatements(files[i]));
      assert i < |front| ==> front[i] == files[i];
    }
  }

  /** The verified subjects are those of the files, each once. */
  lemma {:induction false} VerifiedSubjects(files: seq<File>)
    ensures Sorting.NoRepeats(Verified(files))
    ensures forall s :: s in Verified(files) <==> NamedIn(files, s)
  {
    hide FileSubjects, FileStatements, AddUnique, NamedIn, Sorting.NoRepeats;
    if files == [] {
      NobodyNamed();
    } else {
      var front := files[..|files| - 1];
      VerifiedSubjects(front);
      AddUniqueAdds(Verified(front), FileSubjects(FileStatements(files[|files| - 1])));
      forall s {
        NamedInLast(files, s);
      }
    }
  }

  lemma NobodyNamed()
    ensures Sorting.NoRepeats<Subject>([])
    ensures forall s :: !NamedIn([], s)
  {
  }

  // ---------------------------------------------------------------- the record

  datatype Entry = Entry(subject: Subject, bytes: nat)

  datatype Record = Record(identity: string, issuer: string, generatedAt: string, source: Source,
                           logPath: string, logSha256: string, logBytes: nat,
                           subjects: seq<Entry>, verified: seq<Subject>, files: seq<Material>)

  /** What `create` reads: the release directory and the attestation files in name order, the log, and the run's identity. */
  datatype Input = Input(release: seq<File>, attestations: seq<File>, log: File, identity: string, issuer: string,
                         source: Source, generatedAt: string)

  predicate IsAttested(name: string) {
    !StartsWith(name, "machine-verification") && !EndsWith(name, ".sig") && !EndsWith(name, ".cert")
  }

  function Attested(release: seq<File>, sha: Bytes -> string): seq<Entry> {
    if release == [] then []
    else
      var f := release[|release| - 1];
      Attested(release[..|release| - 1], sha)
      + if IsAttested(f.name) then [Entry(Subject(f.name, sha(f.bytes)), |f.bytes|)] else []
  }

  function SubjectSet(subjects: seq<Subject>): set<Subject> {
    set s | s in subjects
  }

  function EntrySet(entries: seq<Entry>): set<Subject> {
    set e | e in entries :: e.subject
  }

  predicate Collected(input: Input) {
    && !IsPlaceholder(input.identity) && !IsPlaceholder(input.issuer) && !IsPlaceholder(input.source.runId)
    && !IsPlaceholder(input.source.runAttempt) && !IsPlaceholder(input.source.workflow)
    && !IsPlaceholder(input.source.repository) && !IsPlaceholder(input.source.ref) && !IsPlaceholder(input.source.sourceSha)
  }

  /** When `create_record` succeeds. */
  predicate Creatable(input: Input, sha: Bytes -> string) {
    && input.log.bytes != [] && Collected(input)
    && Attested(input.release, sha) != [] && input.attestations != []
    && (forall i :: 0 <= i < |input.attestations| ==> GoodFile(input.attestations[i], input.source))
    && EntrySet(Attested(input.release, sha)) == SubjectSet(Verified(input.attestations))
  }

  function Materials(files: seq<File>, source: Source, sha: Bytes -> string): (r: seq<Material>)
    ensures |r| == |files| && forall i :: 0 <= i < |files| ==> r[i] == MaterialOf(files[i], source, sha)
  {
    if files == [] then []
    else Materials(files[..|files| - 1], source, sha) + [MaterialOf(files[|files| - 1], source, sha)]
  }

  function RecordOf(input: Input, sha: Bytes -> string): Record {
    Record(input.identity, input.issuer, input.generatedAt, input.source,
           input.log.name, sha(input.log.bytes), |input.log.bytes|,
           Attested(input.release, sha), Minimal(Verified(input.attestations)),
           Materials(input.attestations, input.source, sha))
  }

  /** `subjects_from_statement` */
  method SubjectsIn(statement: Json) returns (subjects: seq<Subject>)
    ensures subjects == SubjectsFromStatement(statement)
  {
    hide Get, Lower, PosixPath.Name;
    subjects := [];
    var raw := Field(statement, "subject");
    if raw.None? || !raw.value.Arr? {
      return;
    }
    var items := raw.value.items;
    for i := 0 to |items|
      invariant subjects == SubjectsOf(items[..i])
    {
      assert items[..i + 1][..i] == items[..i];
      if !items[i].Obj? {
        continue;
      }
      var name, digest := Field(items[i], "name"), Field(items[i], "digest");
      var sha256 := if digest.Some? && digest.value.Obj? then Field(digest.value, "sha256") else None;
      if name.Some? && name.value.Str? && sha256.Some? && sha256.value.Str? {
        subjects := subjects + [Subject(PosixPath.Name(name.value.s), Lower(sha256.value.s))];
      }
    }
    assert items[..|items|] == items;
  }

  /** `first_builder_id` */
  method BuilderIn(values: seq<Json>) returns (id: Option<string>)
    ensures id == FirstBuilder(values)
  {
    hide Get, Strip;
    for i := 0 to |values|
      invariant FirstBuilder(values) == FirstBuilder(values[i..])
    {
      assert values[i..][0] == values[i] && values[i..][1..] == values[i + 1..];
      if !values[i].Obj? {
        continue;
      }
      var builder := Field(values[i], "builder");
      if builder.Some? && builder.value.Obj? {
        var name := Field(builder.value, "id");
        if name.Some? && name.value.Str? && Strip(name.value.s) != [] {
          return Some(name.value.s);
        }
      }
    }
    assert values[|values|..] == [];
    id := None;
  }

  /** `uri or name or downloadLocation` */
  method UriOf(item: Json) returns (uri: Option<Json>)
    ensures uri == OneOf(item, ["uri", "name", "downloadLocation"])
  {
    hide Field, Truthy;
    OneOfThree(item);
    uri := Field(item, "uri");
    if uri.Some? && Truthy(uri.value) {
      return;
    }
    uri := Field(item, "name");
    if uri.Some? && Truthy(uri.value) {
      return;
    }
    uri := Field(item, "downloadLocation");
    if uri.Some? && !Truthy(uri.value) {
      uri := None;
    }
  }

  lemma OneOfThree(item: Json)
    ensures var a, b, c := Field(item, "uri"), Field(item, "name"), Field(item, "downloadLocation");
            OneOf(item, ["uri", "name", "downloadLocation"])
            == if a.Some? && Truthy(a.value) then a else if b.Some? && Truthy(b.value) then b
               else if c.Some? && Truthy(c.value) then c else None
  {
    hide Field, Truthy;
    var k1, k2, k3 := "uri", "name", "downloadLocation";
    assert [k1, k2, k3][1..] == [k2, k3] && [k2, k3][1..] == [k3] && [k3][1..] == [];
    assert OneOf(item, [k3]) == if Field(item, k3).Some? && Truthy(Field(item, k3).value) then Field(item, k3) else None;
    assert OneOf(item, [k2, k3]) == if Field(item, k2).Some? && Truthy(Field(item, k2).value) then Field(item, k2) else OneOf(item, [k3]);
  }

  /** `str(value)` of a text or an integer, True and False among them. */
  method TextOf(v: Json) returns (text: Option<string>)
    ensures text == if IsTextOrInt(v) then Some(AsText(v)) else None
  {
    text := None;
    match v
    case Str(s) => text := Some(s);
    case Bool(b) =>
      text := Some("False");
      if b {
        text := Some("True");
      }
    case Number(literal) =>
      if forall c :: c in literal ==> '0' <= c <= '9' || c == '-' {
        text := Some(if literal == "-0" then "0" else literal);
      }
    case _ =>
  }

  method FilterTexts(fields: seq<Member>) returns (filtered: seq<Member>)
    ensures filtered == FilterDigest(fields)
  {
    hide IsTextOrInt, AsText;
    filtered := [];
    for i := 0 to |fields|
      invariant FilterDigest(fields) == filtered + FilterDigest(fields[i..])
    {
      assert fields[i..][0] == fields[i] && fields[i..][1..] == fields[i + 1..];
      var text := TextOf(fields[i].value);
      if text.Some? {
        filtered := filtered + [Member(fields[i].key, Str(text.value))];
      }
    }
    assert fields[|fields|..] == [] && filtered + [] == filtered;
  }

  /** The entry of one listed material, as `collect_materials` builds it. */
  method BuildEntry(item: Json) returns (r: Option<Json>)
    ensures r == MaterialEntry(item)
  {
    hide Get, OneOf, FilterDigest;
    if !item.Obj? {
      return None;
    }
    var named: seq<Member>, sums: seq<Member> := [], [];
    var uri := UriOf(item);
    if uri.Some? && uri.value.Str? {
      named := [Member("uri", uri.value)];
    }
    var digest := Field(item, "digest");
    if digest.Some? && digest.value.Obj? {
      var filtered := FilterTexts(digest.value.fields);
      if filtered != [] {
        sums := [Member("digest", Obj(filtered))];
      }
    }
    var entry := named + sums;
    r := if entry != [] then Some(Obj(entry)) else None;
  }

  method EntriesIn(v: Json, key: string) returns (entries: seq<Json>)
    ensures entries == ListedIn(v, key)
  {
    hide Get, MaterialEntry;
    entries := [];
    var raw := Field(v, key);
    if raw.None? || !raw.value.Arr? {
      return;
    }
    var items := raw.value.items;
    for i := 0 to |items|
      invariant EntriesOf(items) == entries + EntriesOf(items[i..])
    {
      assert items[i..][0] == items[i] && items[i..][1..] == items[i + 1..];
      var entry := BuildEntry(items[i]);
      if entry.Some? {
        entries := entries + [entry.value];
      }
    }
    assert items[|items|..] == [] && entries + [] == entries;
  }

  /** `collect_materials`: the dictionary by canonical text keeps the first place of a key. */
  /** `unique`: one entry per canonical text. */
  method Distinct(entries: seq<Json>) returns (r: seq<Json>)
    ensures r == Unique(entries)
  {
    hide CanonicalText;
    r := [];
    for i := 0 to |entries|
      invariant r == Unique(entries[..i])
    {
      assert entries[..i + 1][..i] == entries[..i];
      var text := CanonicalText(entries[i]);
      var seen := false;
      for k := 0 to |r|
        invariant seen <==> exists j :: 0 <= j < k && CanonicalText(r[j]) == text
      {
        if CanonicalText(r[k]) == text {
          seen := true;
        }
      }
      if !seen {
        r := r + [entries[i]];
      }
    }
    assert entries[..|entries|] == entries;
  }

  method MaterialsIn(statement: Json) returns (materials: seq<Json>)
    ensures materials == CollectMaterials(statement)
  {
    hide Get, WalkValues, ListedIn, Unique, CanonicalText;
    var p := Field(statement, "predicate");
    var values := WalkValues(if p.Some? then p.value else Null);
    var all: seq<Json> := [];
    for i := 0 to |values|
      invariant AllMaterials(values) == all + AllMaterials(values[i..])
    {
      assert values[i..][0] == values[i] && values[i..][1..] == values[i + 1..];
      var a := EntriesIn(values[i], "materials");
      var b := EntriesIn(values[i], "resolvedDependencies");
      var c := EntriesIn(values[i], "resolved_dependencies");
      Rejoin(all, a, b, c, AllMaterials(values[i + 1..]));
      all := all + a + b + c;
    }
    assert values[|values|..] == [] && all + [] == all;
    var unique := Distinct(all);
    materials := Sorting.Sort(unique, (a: Json, b: Json) => Less(CanonicalText(a), CanonicalText(b)));
  }

  lemma Rejoin(all: seq<Json>, a: seq<Json>, b: seq<Json>, c: seq<Json>, rest: seq<Json>)
    ensures all + (a + b + c + rest) == all + a + b + c + rest
  {
  }

  /** `provenance_context` */
  method CheckBinding(statement: Json, source: Source) returns (context: Provenance, failures: seq<string>)
    ensures failures == [] <==> Binds(statement, source)
    ensures failures == [] ==> context == ProvenanceContext(statement, source)
  {
    hide Get, FirstBuilder, WalkValues, CollectMaterials, ContainsText, IsPlaceholder;
    failures := if TextAt(statement, "predicateType") == Some("https://slsa.dev/provenance/v1") then [] else ["predicateType must be supported"];
    var p := Field(statement, "predicate");
    var builder := BuilderIn(WalkValues(if p.Some? then p.value else Null));
    if builder.None? || IsPlaceholder(builder.value) {
      failures := failures + ["builder.id must be present in DSSE predicate"];
    }
    var materials := MaterialsIn(statement);
    if materials == [] {
      failures := failures + ["DSSE predicate must include non-empty materials"];
    }
    var expected := [source.repository, source.ref, source.runId, source.runAttempt, source.sourceSha];
    ghost var before := failures;
    for i := 0 to |expected|
      invariant failures == [] <==> before == [] && forall k :: 0 <= k < i ==> ContainsText(p, expected[k])
    {
      if !ContainsText(p, expected[i]) {
        failures := failures + ["DSSE predicate must bind the source"];
      }
    }
    AllFive(expected, (x: string) => ContainsText(p, x));
    context := Provenance("https://slsa.dev/provenance/v1", if builder.Some? then builder.value else [], source.repository, source.ref,
                          source.runId, source.runAttempt, source.sourceSha, materials);
  }

  lemma AllFive(s: seq<string>, good: string -> bool)
    requires |s| == 5
    ensures (forall k :: 0 <= k < |s| ==> good(s[k])) <==> good(s[0]) && good(s[1]) && good(s[2]) && good(s[3]) && good(s[4])
  {
  }

  lemma FileStep(statements: seq<Json>, i: nat, source: Source)
    requires i < |statements|
    ensures FileSubjects(statements[..i + 1]) == FileSubjects(statements[..i]) + SubjectsFromStatement(statements[i])
    ensures FileProvenance(statements[..i + 1], source)
            == FileProvenance(statements[..i], source)
               + if SubjectsFromStatement(statements[i]) != [] then [ProvenanceContext(statements[i], source)] else []
  {
    hide SubjectsFromStatement, ProvenanceContext;
    assert statements[..i + 1][..i] == statements[..i];
  }

  /** The subjects and the provenance of statements that all bind the source; None if one does not. */
  method LoadStatements(statements: seq<Json>, source: Source) returns (good: bool, subjects: seq<Subject>, provenance: seq<Provenance>)
    ensures good <==> forall s :: s in statements && SubjectsFromStatement(s) != [] ==> Binds(s, source)
    ensures good ==> subjects == FileSubjects(statements) && provenance == FileProvenance(statements, source)
  {
    hide Binds, SubjectsFromStatement, ProvenanceContext, FileSubjects, FileProvenance;
    good, subjects, provenance := true, [], [];
    NoStatements(source);
    for i := 0 to |statements|
      invariant subjects == FileSubjects(statements[..i]) && provenance == FileProvenance(statements[..i], source)
      invariant good && forall k :: 0 <= k < i && SubjectsFromStatement(statements[k]) != [] ==> Binds(statements[k], source)
    {
      FileStep(statements, i, source);
      var own := SubjectsIn(statements[i]);
      subjects := subjects + own;
      if own != [] {
        var context, bad := CheckBinding(statements[i], source);
        if bad != [] {
          assert statements[i] in statements;
          good := false;
          return;
        }
        provenance := provenance + [context];
      } else {
        assert provenance + [] == provenance;
      }
    }
    assert statements[..|statements|] == statements;
  }

  lemma NoStatements(source: Source)
    ensures FileSubjects([]) == [] && FileProvenance([], source) == []
  {
  }

  method LoadFile(f: File, source: Source, sha: Bytes -> string) returns (r: Option<Material>, subjects: seq<Subject>)
    ensures r.Some? <==> GoodFile(f, source)
    ensures r.Some? ==> r.value == MaterialOf(f, source, sha) && subjects == FileSubjects(FileStatements(f))
  {
    hide Binds, SubjectsFromStatement, FileSubjects, FileProvenance, ReadJson;
    subjects := [];
    if f.bytes == [] || ReadJson(f.bytes).None? {
      return None, [];
    }
    var statements := Statements.IterAttestationStatements(ReadJson(f.bytes).value);
    var good, provenance;
    good, subjects, provenance := LoadStatements(statements, source);
    if !good || subjects == [] {
      return None, [];
    }
    r := Some(Material(f.name, sha(f.bytes), |f.bytes|, Minimal(subjects), provenance));
  }

  /** Fields that must have been collected: none is a placeholder. */
  method CheckTexts(texts: seq<string>) returns (failures: seq<string>)
    ensures failures == [] <==> forall k :: 0 <= k < |texts| ==> !IsPlaceholder(texts[k])
  {
    hide IsPlaceholder;
    failures := [];
    for i := 0 to |texts|
      invariant failures == [] <==> forall k :: 0 <= k < i ==> !IsPlaceholder(texts[k])
    {
      if IsPlaceholder(texts[i]) {
        failures := failures + ["must be non-placeholder"];
      }
    }
  }

  method CheckCollected(input: Input) returns (failures: seq<string>)
    ensures failures == [] <==> Collected(input)
  {
    hide IsPlaceholder;
    var s := input.source;
    var texts := [input.identity, input.issuer, s.runId, s.runAttempt, s.workflow, s.repository, s.ref, s.sourceSha];
    failures := CheckTexts(texts);
    assert texts[0] == input.identity && texts[1] == input.issuer && texts[2] == s.runId && texts[3] == s.runAttempt
           && texts[4] == s.workflow && texts[5] == s.repository && texts[6] == s.ref && texts[7] == s.sourceSha;
  }

  /** `attested_subjects` */
  method AttestedSubjects(release: seq<File>, sha: Bytes -> string) returns (entries: seq<Entry>)
    ensures entries == Attested(release, sha)
  {
    entries := [];
    for i := 0 to |release|
      invariant entries == Attested(release[..i], sha)
    {
      assert release[..i + 1][..i] == release[..i];
      var name := release[i].name;
      if StartsWith(name, "machine-verification") {
        continue;
      }
      if EndsWith(name, ".sig") || EndsWith(name, ".cert") {
        continue;
      }
      entries := entries + [Entry(Subject(name, sha(release[i].bytes)), |release[i].bytes|)];
    }
    assert release[..|release|] == release;
  }

  method CreateRecord(input: Input, sha: Bytes -> string) returns (r: Option<Record>)
    ensures r == if Creatable(input, sha) then Some(RecordOf(input, sha)) else None
  {
    hide GoodFile, Collected, MaterialOf, FileSubjects, FileStatements;
    if input.log.bytes == [] {
      return None;
    }
    var missing := CheckCollected(input);
    if missing != [] {
      return None;
    }
    var subjects := AttestedSubjects(input.release, sha);
    if subjects == [] || input.attestations == [] {
      return None;
    }
    var verified: seq<Subject> := [];
    var materials: seq<Material> := [];
    for i := 0 to |input.attestations|
      invariant forall k :: 0 <= k < i ==> GoodFile(input.attestations[k], input.source)
      invariant verified == Verified(input.attestations[..i])
      invariant materials == Materials(input.attestations[..i], input.source, sha)
    {
      var m, more := LoadFile(input.attestations[i], input.source, sha);
      if m.None? {
        return None;
      }
      assert input.attestations[..i + 1][..i] == input.attestations[..i];
      verified := AddUnique(verified, more);
      materials := materials + [m.value];
    }
    assert input.attestations[..|input.attestations|] == input.attestations;
    if EntrySet(subjects) != SubjectSet(verified) {
      return None;
    }
    r := Some(Record(input.identity, input.issuer, input.generatedAt, input.source,
                     input.log.name, sha(input.log.bytes), |input.log.bytes|, subjects, Minimal(verified), materials));
  }

  // ---------------------------------------------------------------- the validator

  function SubjectKey(s: Subject): string {
    s.name + "@" + s.sha256
  }

  predicate SafeSubject(s: Subject) {
    !IsPlaceholder(s.name) && PosixPath.Name(s.name) == s.name && IsSha256(s.sha256)
  }

  predicate ValidSubjects(subjects: seq<Subject>) {
    && subjects != []
    && (forall i :: 0 <= i < |subjects| ==> SafeSubject(subjects[i]))
    && (forall i, j :: 0 <= i < j < |subjects| ==> SubjectKey(subjects[i]) != SubjectKey(subjects[j]))
  }

  method ValidateSubjects(subjects: seq<Subject>) returns (failures: seq<string>)
    ensures failures == [] <==> ValidSubjects(subjects)
  {
    hide SubjectKey, IsPlaceholder, IsSha256;
    if subjects == [] {
      return ["must be a non-empty list"];
    }
    failures := [];
    var seen: set<string> := {};
    for i := 0 to |subjects|
      invariant failures == [] <==>
                (forall k :: 0 <= k < i ==> SafeSubject(subjects[k]))
                && (forall k, j :: 0 <= k < j < i ==> SubjectKey(subjects[k]) != SubjectKey(subjects[j]))
      invariant failures == [] ==> forall key :: key in seen <==> exists k :: 0 <= k < i && SubjectKey(subjects[k]) == key
    {
      var s := subjects[i];
      if IsPlaceholder(s.name) || PosixPath.Name(s.name) != s.name {
        failures := failures + ["name must be a safe file name"];
        continue;
      }
      if SubjectKey(s) in seen {
        failures := failures + ["is duplicated"];
      }
      seen := seen + {SubjectKey(s)};
      if !IsSha256(s.sha256) {
        failures := failures + ["sha256 must be lowercase sha256"];
      }
    }
  }

  predicate ValidProvenance(p: Provenance, source: Source) {
    && p.predicateType == SLSA && !IsPlaceholder(p.builderId) && p.materials != []
    && !IsPlaceholder(p.repository) && !IsPlaceholder(p.ref) && !IsPlaceholder(p.runId)
    && !IsPlaceholder(p.runAttempt) && !IsPlaceholder(p.sourceSha)
    && p.repository == source.repository && p.ref == source.ref && p.runId == source.runId
    && p.runAttempt == source.runAttempt && p.sourceSha == source.sourceSha
  }

  predicate ValidMaterial(m: Material, source: Source) {
    && !IsPlaceholder(m.path) && !IsPlaceholder(m.sha256) && m.bytes > 0
    && ValidSubjects(m.subjects) && m.provenance != []
    && forall i :: 0 <= i < |m.provenance| ==> ValidProvenance(m.provenance[i], source)
  }

  predicate ValidHead(r: Record) {
    && !IsPlaceholder(r.identity) && !IsPlaceholder(r.issuer) && !IsPlaceholder(r.generatedAt)
    && !IsPlaceholder(r.source.repository) && !IsPlaceholder(r.source.workflow) && !IsPlaceholder(r.source.runId)
    && !IsPlaceholder(r.source.runAttempt) && !IsPlaceholder(r.source.ref) && !IsPlaceholder(r.source.sourceSha)
    && !IsPlaceholder(r.logPath) && !IsPlaceholder(r.logSha256) && r.logBytes > 0
  }

  function SubjectsOfEntries(entries: seq<Entry>): (r: seq<Subject>)
    ensures |r| == |entries| && forall i :: 0 <= i < |r| ==> r[i] == entries[i].subject
  {
    seq(|entries|, i requires 0 <= i < |entries| => entries[i].subject)
  }

  predicate Accepted(r: Record) {
    && ValidHead(r)
    && ValidSubjects(SubjectsOfEntries(r.subjects)) && (forall i :: 0 <= i < |r.subjects| ==> r.subjects[i].bytes > 0)
    && ValidSubjects(r.verified) && EntrySet(r.subjects) == SubjectSet(r.verified)
    && r.files != [] && forall i :: 0 <= i < |r.files| ==> ValidMaterial(r.files[i], r.source)
  }

  method CheckHead(r: Record) returns (failures: seq<string>)
    ensures failures == [] <==> ValidHead(r)
  {
    hide IsPlaceholder;
    var s := r.source;
    var texts := [r.identity, r.issuer, r.generatedAt, s.repository, s.workflow, s.runId, s.runAttempt, s.ref, s.sourceSha,
                  r.logPath, r.logSha256];
    failures := CheckTexts(texts);
    assert texts[0] == r.identity && texts[1] == r.issuer && texts[2] == r.generatedAt && texts[3] == s.repository
           && texts[4] == s.workflow && texts[5] == s.runId && texts[6] == s.runAttempt && texts[7] == s.ref
           && texts[8] == s.sourceSha && texts[9] == r.logPath && texts[10] == r.logSha256;
    if r.logBytes == 0 {
      failures := failures + ["log.bytes must be positive"];
    }
  }

  method ValidateRecord(r: Record) returns (failures: seq<string>)
    ensures failures == [] <==> Accepted(r)
  {
    hide ValidHead, ValidSubjects, ValidProvenance;
    failures := CheckHead(r);
    var more := ValidateSubjects(SubjectsOfEntries(r.subjects));
    failures := failures + more;
    for i := 0 to |r.subjects|
      invariant failures == [] <==>
                ValidHead(r) && ValidSubjects(SubjectsOfEntries(r.subjects)) && forall k :: 0 <= k < i ==> r.subjects[k].bytes > 0
    {
      if r.subjects[i].bytes == 0 {
        failures := failures + ["bytes must be positive"];
      }
    }
    more := ValidateSubjects(r.verified);
    failures := failures + more;
    if EntrySet(r.subjects) != SubjectSet(r.verified) {
      failures := failures + ["verified_subjects must exactly match attested release subjects"];
    }
    if r.files == [] {
      failures := failures + ["verification_material.files must be a non-empty list"];
    }
    ghost var before := failures;
    for i := 0 to |r.files|
      invariant failures == [] <==> before == [] && forall k :: 0 <= k < i ==> ValidMaterial(r.files[k], r.source)
    {
      more := ValidateMaterial(r.files[i], r.source);
      failures := failures + more;
    }
  }

  method CheckProvenance(p: Provenance, source: Source) returns (failures: seq<string>)
    ensures failures == [] <==> ValidProvenance(p, source)
  {
    hide IsPlaceholder;
    failures := if p.predicateType == "https://slsa.dev/provenance/v1" then [] else ["predicate_type must be supported"];
    var texts := [p.builderId, p.repository, p.ref, p.runId, p.runAttempt, p.sourceSha];
    var more := CheckTexts(texts);
    assert texts[0] == p.builderId && texts[1] == p.repository && texts[2] == p.ref && texts[3] == p.runId
           && texts[4] == p.runAttempt && texts[5] == p.sourceSha;
    failures := failures + more;
    if p.materials == [] {
      failures := failures + ["materials must be non-empty"];
    }
    var own, expected := [p.repository, p.ref, p.runId, p.runAttempt, p.sourceSha],
                         [source.repository, source.ref, source.runId, source.runAttempt, source.sourceSha];
    if own != expected {
      failures := failures + ["must match record source"];
    }
    assert own[0] == p.repository && own[1] == p.ref && own[2] == p.runId && own[3] == p.runAttempt && own[4] == p.sourceSha;
    assert expected[0] == source.repository && expected[1] == source.ref && expected[2] == source.runId
           && expected[3] == source.runAttempt && expected[4] == source.sourceSha;
  }

  method ValidateMaterial(m: Material, source: Source) returns (failures: seq<string>)
    ensures failures == [] <==> ValidMaterial(m, source)
  {
    hide IsPlaceholder, ValidSubjects, ValidProvenance;
    failures := [];
    if IsPlaceholder(m.path) || IsPlaceholder(m.sha256) {
      failures := failures + ["path and sha256 must be non-placeholder"];
    }
    if m.bytes == 0 {
      failures := failures + ["bytes must be positive"];
    }
    var more := ValidateSubjects(m.subjects);
    failures := failures + more;
    if m.provenance == [] {
      failures := failures + ["provenance must be a non-empty list"];
    }
    ghost var before := failures;
    for i := 0 to |m.provenance|
      invariant failures == [] <==> before == [] && forall k :: 0 <= k < i ==> ValidProvenance(m.provenance[k], source)
    {
      more := CheckProvenance(m.provenance[i], source);
      failures := failures + more;
    }
  }
}

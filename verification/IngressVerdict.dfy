/** When the ingress tool accepts the manifest it created, under the rules it really has; and a tree on which the window decides. */
module IngressVerdict {
  import opened PyText
  import opened Hashing
  import opened Json
  import opened EvidenceGraph
  import opened OperatorIngress
  import opened IngressContract
  import AttestationRecord
  import IngressAgreement
  import JsonText
  import PosixPath
  import SourceIdentity
  import Sorting

  // ---------------------------------------------------------------- the tool's own rules

  /** Every scanned file that is not a required one carries the schema its path demands. */
  predicate OthersCarry(entries: seq<Entry>, rules: Rules) {
    forall k :: 0 <= k < |entries| && IngressAgreement.IsRecorded(entries, rules, entries[k])
                && PosixPath.Join(entries[k].parts) !in rules.required ==>
      CarriesSchema(entries[k].node.bytes, rules.schema(entries[k].parts))
  }

  /** The check of the core files has read the required ones already. */
  lemma RequiredCarry(entries: seq<Entry>, s: Settings, matrix: Matrix, version: string, k: nat)
    requires IsListing(entries) && k < |entries|
    requires var rules := RulesOf(s, matrix, version);
             && IngressAgreement.IsRecorded(entries, rules, entries[k]) && PosixPath.Join(entries[k].parts) in rules.required
             && rules.core(entries)
    ensures CarriesSchema(entries[k].node.bytes, SchemaFor(s.schemas, entries[k].parts))
  {
    hide RequiredPaths, IsName, SchemaFor, AuditPasses, RegistryPasses, AuditPath, RegistryPath, RootIsDirectory, NodeAt,
         PosixPath.Parts, PosixPath.Join, AttestationRecord.ReadJson, PosixPath.IsPart;
    var parts := entries[k].parts;
    NamesAreParts(entries, k);
    PosixPath.PartsOfJoin(parts);
    IngressAgreement.NodeAtEntry(entries, k);
    assert RequiredFilePasses(entries, s.schemas, PosixPath.Join(parts));
  }

  lemma NamesAreParts(entries: seq<Entry>, k: nat)
    requires IsListing(entries) && k < |entries|
    ensures forall i :: 0 <= i < |entries[k].parts| ==> PosixPath.IsPart(entries[k].parts[i])
  {
    hide PosixPath.IsPart;
    assert forall i :: 0 <= i < |entries[k].parts| ==> IsName(entries[k].parts[i]);
  }

  lemma OthersDecide(entries: seq<Entry>, s: Settings, matrix: Matrix, version: string)
    requires IsListing(entries) && RulesOf(s, matrix, version).core(entries)
    ensures var rules := RulesOf(s, matrix, version); IngressAgreement.SchemasCarried(entries, rules) <==> OthersCarry(entries, rules)
  {
    hide IsListing, RequiredPaths, CorePasses, CarriesSchema, SchemaFor, RootIsDirectory, PosixPath.Join;
    var rules := RulesOf(s, matrix, version);
    forall k | 0 <= k < |entries| && IngressAgreement.IsRecorded(entries, rules, entries[k]) && PosixPath.Join(entries[k].parts) in rules.required
      ensures CarriesSchema(entries[k].node.bytes, rules.schema(entries[k].parts))
    {
      RequiredCarry(entries, s, matrix, version, k);
    }
  }

  lemma AuditIsRequired(version: string, matrix: Matrix, policies: map<string, Policy>)
    ensures AuditPath(version) in RequiredPaths(version, matrix, policies) && RegistryPath(version) in RequiredPaths(version, matrix, policies)
  {
    hide AuditPath, RegistryPath, InProduction, ScanPaths, AllRowPaths, AllTargetPaths, HardwareTargets;
  }

  lemma SomethingIsScanned(head: Head, entries: seq<Entry>, s: Settings, matrix: Matrix, sha: Bytes -> string)
    requires CreatesCleanly(head, entries, RulesOf(s, matrix, head.version), sha)
    ensures Scanned(entries, RulesOf(s, matrix, head.version), sha) != []
  {
    hide RequiredPaths, CorePasses, Scanned, CleanScan, AuditPath, RegistryPath;
    AuditIsRequired(head.version, matrix, s.policies);
    assert AuditPath(head.version) in RawPaths(Scanned(entries, RulesOf(s, matrix, head.version), sha));
  }

  /** Under the rules of any contract and matrix, a manifest created without a failure is accepted on the same tree exactly
      if its window is not empty and not over, the producer's fields are filled, the files that are not required carry
      their schemas, and no forbidden root is there. */
  lemma CreatedUnderContract(head: Head, entries: seq<Entry>, s: Settings, matrix: Matrix, context: Context, sha: Bytes -> string)
    requires IsListing(entries) && IsDigest(sha) && Sorting.NoRepeats(s.allowed)
    requires CreatesCleanly(head, entries, RulesOf(s, matrix, head.version), sha)
    ensures var rules := RulesOf(s, matrix, head.version);
            Accepted(Manifest(head, rules.required, Scanned(entries, rules, sha)), entries, rules, context, sha) <==>
            && HeadIsGood(head, context.now) && OthersCarry(entries, rules) && NothingForbidden(entries, rules, head.version, context)
  {
    SomethingIsScanned(head, entries, s, matrix, sha);
    hide IsListing, IsDigest, HeadIsGood, Scanned, CleanScan, RawPaths, Accepted, NothingForbidden, RequiredPaths,
         CorePasses, SchemaFor, IngressAgreement.SchemasCarried, OthersCarry;
    OthersDecide(entries, s, matrix, head.version);
    IngressAgreement.CreatedIsAccepted(head, entries, RulesOf(s, matrix, head.version), context, sha);
  }

  // ---------------------------------------------------------------- dictionaries by the code of their keys

  function Code(key: string): int {
    if |key| < 2 then |key| * 1000 else |key| * 1000 + key[1] as int
  }

  /** The keys come in strictly ascending order of their codes. */
  predicate Ascending(fields: seq<Member>) {
    forall i, j :: 0 <= i < j < |fields| ==> Code(fields[i].key) < Code(fields[j].key)
  }

  lemma FieldsOf(fields: seq<Member>)
    requires Ascending(fields)
    ensures forall i :: 0 <= i < |fields| ==> Field(Obj(fields), fields[i].key) == Some(fields[i].value)
    ensures (forall i :: 0 <= i < |fields| ==> JsonText.Valid(fields[i].value)) ==> JsonText.Valid(Obj(fields))
  {
    hide Get, Code, JsonText.Valid;
    forall i | 0 <= i < |fields|
      ensures Field(Obj(fields), fields[i].key) == Some(fields[i].value)
    {
      GetAt(fields, fields[i].key, i);
    }
    if forall i :: 0 <= i < |fields| ==> JsonText.Valid(fields[i].value) {
      JsonText.FieldsAreValid(fields);
    }
  }

  lemma FieldMissing(fields: seq<Member>, key: string)
    requires forall i :: 0 <= i < |fields| ==> Code(fields[i].key) < Code(key)
    ensures Field(Obj(fields), key) == None
  {
    hide Get;
    GetNowhere(fields, key);
  }

  // ---------------------------------------------------------------- the two governance files

  function Text(key: string, text: string): Member {
    Member(key, Json.Str(text))
  }

  function Count(key: string, n: nat): Member {
    Member(key, Number(Decimal(n)))
  }

  lemma CountIs(n: nat)
    ensures JsonText.Valid(Number(Decimal(n))) && AsInt(Some(Number(Decimal(n)))) == Some(n)
  {
    SourceIdentity.DecimalIsLiteral(n);
    DecimalRoundTrip(n);
  }

  function WindowFields(): seq<Member> {
    [Text("end", "e"), Count("days", 1), Text("start", "s")]
  }

  function ExportFields(digest: string): seq<Member> {
    [Text("path", "p"), Count("bytes", 1), Text("sha256", digest)]
  }

  function AuditFields(digest: string): seq<Member> {
    [Text("query", "q"), Member("replay", Obj([Text("status", "passed")])), Text("status", "collected"),
     Member("collector", Obj([Text("identity", "i")])), Member("raw_export", Obj(ExportFields(digest))), Text("repository", "r"),
     Text("source_kind", "organization"), Count("event_count", 0), Text("events_sha256", digest), Text("schema_version", AUDIT_SCHEMA),
     Member("lookback_window", Obj(WindowFields()))]
  }

  function RegistryFields(): seq<Member> {
    [Text("schema_version", REGISTRY_SCHEMA)]
  }

  lemma WindowIsGood()
    ensures JsonText.Valid(Obj(WindowFields())) && WindowPasses(Obj(WindowFields()))
  {
    hide Get, Decimal, AsInt, JsonText.LiteralLength;
    assert |"end"| == 3 && |"days"| == 4 && |"start"| == 5;
    CountIs(1);
    FieldsOf(WindowFields());
    var fields := WindowFields();
    assert fields[0] == Text("end", "e") && fields[1] == Count("days", 1) && fields[2] == Text("start", "s");
  }

  lemma ExportIsGood(digest: string)
    requires IsRealSha256(digest)
    ensures JsonText.Valid(Obj(ExportFields(digest))) && ExportPasses(Obj(ExportFields(digest)))
  {
    hide Get, Decimal, AsInt, JsonText.LiteralLength, IsRealSha256;
    assert |"path"| == 4 && |"bytes"| == 5 && |"sha256"| == 6;
    CountIs(1);
    FieldsOf(ExportFields(digest));
    var fields := ExportFields(digest);
    assert fields[0] == Text("path", "p") && fields[1] == Count("bytes", 1) && fields[2] == Text("sha256", digest);
  }

  lemma AuditItems(digest: string)
    ensures var fields := AuditFields(digest);
            && |fields| == 11
            && fields[0] == Text("query", "q") && fields[1] == Member("replay", Obj([Text("status", "passed")]))
            && fields[2] == Text("status", "collected") && fields[3] == Member("collector", Obj([Text("identity", "i")]))
            && fields[4] == Member("raw_export", Obj(ExportFields(digest))) && fields[5] == Text("repository", "r")
            && fields[6] == Text("source_kind", "organization") && fields[7] == Count("event_count", 0)
            && fields[8] == Text("events_sha256", digest) && fields[9] == Text("schema_version", AUDIT_SCHEMA)
            && fields[10] == Member("lookback_window", Obj(WindowFields()))
  {
    hide WindowFields, ExportFields, Text, Count, AUDIT_SCHEMA;
  }

  lemma AuditCodes()
    ensures Code("query") == 5117 && Code("replay") == 6101 && Code("status") == 6116 && Code("collector") == 9111
    ensures Code("raw_export") == 10097 && Code("repository") == 10101 && Code("source_kind") == 11111 && Code("event_count") == 11118
    ensures Code("events_sha256") == 13118 && Code("schema_version") == 14099 && Code("lookback_window") == 15111
    ensures Code("unapproved_governance_changes") == 29110
  {
    assert |"query"| == 5 && |"replay"| == 6 && |"status"| == 6 && |"collector"| == 9 && |"raw_export"| == 10 && |"repository"| == 10;
    assert |"source_kind"| == 11 && |"event_count"| == 11 && |"events_sha256"| == 13 && |"schema_version"| == 14 && |"lookback_window"| == 15;
  }

  lemma AuditAscends(digest: string)
    ensures Ascending(AuditFields(digest)) && Field(Obj(AuditFields(digest)), "unapproved_governance_changes") == None
  {
    hide AuditFields, Code, WindowFields, ExportFields, Decimal, AUDIT_SCHEMA, Get;
    AuditItems(digest);
    AuditCodes();
    FieldMissing(AuditFields(digest), "unapproved_governance_changes");
  }

  lemma OneTextIs(key: string, text: string)
    ensures var v := Obj([Text(key, text)]); JsonText.Valid(v) && TextAt(v, key) == Some(text)
  {
    FieldsOf([Text(key, text)]);
    assert [Text(key, text)][0] == Text(key, text);
  }

  lemma AuditValues(digest: string)
    requires IsRealSha256(digest)
    ensures forall i :: 0 <= i < |AuditFields(digest)| ==> JsonText.Valid(AuditFields(digest)[i].value)
  {
    hide AuditFields, WindowFields, ExportFields, Decimal, AUDIT_SCHEMA, IsRealSha256, JsonText.LiteralLength, JsonText.ValidFields,
         DistinctKeys, WindowPasses, ExportPasses, TextAt, AsInt;
    WindowIsGood();
    ExportIsGood(digest);
    CountIs(0);
    OneTextIs("identity", "i");
    OneTextIs("status", "passed");
    AuditItems(digest);
  }

  lemma AuditIsValid(digest: string)
    requires IsRealSha256(digest)
    ensures JsonText.Valid(Obj(AuditFields(digest)))
  {
    hide AuditFields, IsRealSha256, JsonText.Valid, Get;
    AuditAscends(digest);
    AuditValues(digest);
    FieldsOf(AuditFields(digest));
  }

  lemma AuditReads(digest: string)
    ensures var v := Obj(AuditFields(digest));
            && Field(v, "query") == Some(Json.Str("q")) && Field(v, "replay") == Some(Obj([Text("status", "passed")]))
            && Field(v, "status") == Some(Json.Str("collected")) && Field(v, "collector") == Some(Obj([Text("identity", "i")]))
            && Field(v, "raw_export") == Some(Obj(ExportFields(digest))) && Field(v, "repository") == Some(Json.Str("r"))
            && Field(v, "source_kind") == Some(Json.Str("organization")) && Field(v, "event_count") == Some(Number(Decimal(0)))
            && Field(v, "events_sha256") == Some(Json.Str(digest)) && Field(v, "schema_version") == Some(Json.Str(AUDIT_SCHEMA))
            && Field(v, "lookback_window") == Some(Obj(WindowFields()))
  {
    hide AuditFields, Field, WindowFields, ExportFields, Decimal, AUDIT_SCHEMA, Ascending, JsonText.Valid;
    AuditAscends(digest);
    AuditItems(digest);
    FieldsOf(AuditFields(digest));
  }

  lemma AuditHead(digest: string)
    requires IsRealSha256(digest)
    ensures AuditHeadPasses(Obj(AuditFields(digest)))
  {
    hide Field, AuditFields, WindowFields, ExportFields, Text, Decimal, AUDIT_SCHEMA, IsRealSha256, Ascending, JsonText.Valid, AsInt,
         AttestationRecord.Truthy;
    CountIs(0);
    AuditAscends(digest);
    AuditReads(digest);
  }

  lemma OrganizationIsKind()
    ensures "organization" in SOURCE_KINDS
  {
    assert SOURCE_KINDS[0] == "organization";
  }

  lemma AuditSource(digest: string)
    ensures AuditSourcePasses(Obj(AuditFields(digest)))
  {
    hide Field, AuditFields, WindowFields, ExportFields, Text, Decimal, AUDIT_SCHEMA, JsonText.Valid, SOURCE_KINDS;
    OneTextIs("identity", "i");
    AuditReads(digest);
    OrganizationIsKind();
  }

  lemma ReplayIsGood()
    ensures ReplayPasses(Obj([Text("status", "passed")]))
  {
    hide Get;
    OneTextIs("status", "passed");
    assert |"status"| == 6 && |"unapproved_events"| == 17;
    FieldMissing([Text("status", "passed")], "unapproved_events");
  }

  lemma AuditIsGood(digest: string)
    requires IsRealSha256(digest)
    ensures AuditPasses(Obj(AuditFields(digest)))
  {
    hide Field, AuditFields, WindowFields, ExportFields, Text, Decimal, AUDIT_SCHEMA, IsRealSha256, JsonText.Valid,
         AuditHeadPasses, AuditSourcePasses, WindowPasses, ExportPasses, ReplayPasses;
    AuditHead(digest);
    AuditSource(digest);
    WindowIsGood();
    ExportIsGood(digest);
    ReplayIsGood();
    AuditReads(digest);
  }

  lemma RegistryIsGood()
    ensures var v := Obj(RegistryFields()); JsonText.Valid(v) && RegistryPasses(v)
  {
    hide REGISTRY_SCHEMA, JsonText.Valid, Get;
    OneTextIs("schema_version", REGISTRY_SCHEMA);
  }

  // ---------------------------------------------------------------- a tree of these two files

  const GOVERNANCE := "release-governance"
  const VERSION := "v1.0.0-rc.1"

  function FileParts(name: string): seq<string> {
    [GOVERNANCE, VERSION, name]
  }

  function Tree(digest: string): seq<Entry>
    requires IsRealSha256(digest)
  {
    AuditIsValid(digest);
    RegistryIsGood();
    [Entry([GOVERNANCE], Directory), Entry([GOVERNANCE, VERSION], Directory),
     Entry(FileParts("audit-log.json"), Regular(AttestationRecord.JsonFile(Obj(AuditFields(digest))))),
     Entry(FileParts("station-registry.json"), Regular(AttestationRecord.JsonFile(Obj(RegistryFields()))))]
  }

  /** What the example asks of the contract and the matrix: the governance root is allowed, and no row is to be released. */
  predicate AsksForGovernance(s: Settings, matrix: Matrix) {
    && GOVERNANCE in s.allowed && GOVERNANCE !in s.forbidden && Sorting.NoRepeats(s.allowed)
    && forall i :: 0 <= i < |matrix.rows| ==> !matrix.rows[i].release
  }

  lemma {:induction false} NoRowsToRelease(version: string, rows: seq<Row>, hardware: set<string>, policies: map<string, Policy>)
    requires forall i :: 0 <= i < |rows| ==> !rows[i].release
    ensures AllRowPaths(version, rows, hardware, policies) == {}
  {
    hide RowPaths;
    if rows != [] {
      NoRowsToRelease(version, rows[..|rows| - 1], hardware, policies);
    }
  }

  lemma TwoAreRequired(s: Settings, matrix: Matrix)
    requires AsksForGovernance(s, matrix)
    ensures RequiredPaths(VERSION, matrix, s.policies) == {AuditPath(VERSION), RegistryPath(VERSION)}
  {
    hide AuditPath, RegistryPath, InProduction, ScanPaths, AllTargetPaths, HardwareTargets, AllRowPaths, Sorting.NoRepeats, GOVERNANCE;
    NoRowsToRelease(VERSION, matrix.rows, HardwareTargets(matrix.rows), s.policies);
    assert VERSION[6] == '-';
  }

  lemma NamesAreNames()
    ensures IsName(GOVERNANCE) && IsName(VERSION) && IsName("audit-log.json") && IsName("station-registry.json")
    ensures "audit-log.json" != "station-registry.json"
  {
    assert |"audit-log.json"| == 14 && |"station-registry.json"| == 21;
  }

  lemma TreeIsListed(digest: string)
    requires IsRealSha256(digest)
    ensures IsListing(Tree(digest))
  {
    hide GOVERNANCE, VERSION, IsName, IsRealSha256, AuditFields, RegistryFields, AttestationRecord.JsonFile;
    NamesAreNames();
  }

  /** Where the two files are. */
  lemma PathsOfFiles()
    ensures PosixPath.Parts(AuditPath(VERSION)) == FileParts("audit-log.json") && PosixPath.Join(FileParts("audit-log.json")) == AuditPath(VERSION)
    ensures PosixPath.Parts(RegistryPath(VERSION)) == FileParts("station-registry.json")
            && PosixPath.Join(FileParts("station-registry.json")) == RegistryPath(VERSION)
  {
    NamesAreNames();
    PosixPath.JoinThree(GOVERNANCE, VERSION, "audit-log.json");
    PosixPath.JoinThree(GOVERNANCE, VERSION, "station-registry.json");
    PosixPath.PartsOfJoin(FileParts("audit-log.json"));
    PosixPath.PartsOfJoin(FileParts("station-registry.json"));
    assert GOVERNANCE == "release-governance";
    hide VERSION, PosixPath.Join, PosixPath.Parts;
  }

  lemma FilesAreThere(digest: string)
    requires IsRealSha256(digest)
    ensures PayloadAt(Tree(digest), AuditPath(VERSION)) == Some(Obj(AuditFields(digest)))
    ensures PayloadAt(Tree(digest), RegistryPath(VERSION)) == Some(Obj(RegistryFields()))
  {
    hide GOVERNANCE, VERSION, FileParts, IsRealSha256, AuditFields, RegistryFields, AttestationRecord.JsonFile, PosixPath.Parts, IsListing,
         AuditPath, RegistryPath, JsonText.Valid, AttestationRecord.ReadJson, NodeAt;
    PathsOfFiles();
    TreeIsListed(digest);
    AuditIsValid(digest);
    RegistryIsGood();
    IngressAgreement.NodeAtEntry(Tree(digest), 2);
    IngressAgreement.NodeAtEntry(Tree(digest), 3);
  }

  lemma AuditSchema(audit: Json)
    requires AuditPasses(audit)
    ensures audit.Obj? && TextAt(audit, "schema_version") == Some(AUDIT_SCHEMA)
  {
    hide Get, AUDIT_SCHEMA, IsDigestAt, AuditSourcePasses, WindowPasses, ExportPasses, ReplayPasses;
  }

  lemma RegistrySchema(registry: Json)
    requires RegistryPasses(registry)
    ensures registry.Obj? && TextAt(registry, "schema_version") == Some(REGISTRY_SCHEMA)
  {
  }

  lemma SchemasOfFiles(schemas: string -> string)
    ensures CoreSchemaFor(schemas, FileParts("audit-log.json")) == Some(AUDIT_SCHEMA)
    ensures CoreSchemaFor(schemas, FileParts("station-registry.json")) == Some(REGISTRY_SCHEMA)
  {
    hide VERSION, AUDIT_SCHEMA, REGISTRY_SCHEMA;
    assert |"audit-log.json"| == 14 && |"station-registry.json"| == 21;
  }

  lemma ReadFilePasses(entries: seq<Entry>, schemas: string -> string, path: string, v: Json, schema: string)
    requires PayloadAt(entries, path) == Some(v) && v.Obj? && TextAt(v, "schema_version") == Some(schema)
    requires CoreSchemaFor(schemas, PosixPath.Parts(path)) == Some(schema)
    ensures RequiredFilePasses(entries, schemas, path)
  {
    hide CoreSchemaFor, PosixPath.Parts, PayloadAt, TextAt;
  }

  lemma FilesPass(digest: string, schemas: string -> string)
    requires IsRealSha256(digest)
    ensures var entries := Tree(digest);
            RequiredFilePasses(entries, schemas, AuditPath(VERSION)) && RequiredFilePasses(entries, schemas, RegistryPath(VERSION))
  {
    hide VERSION, FileParts, IsRealSha256, AuditFields, RegistryFields, PosixPath.Parts, PosixPath.Join, AuditPath, RegistryPath,
         JsonText.Valid, PayloadAt, Tree, CoreSchemaFor, RegistryPasses, AuditPasses, AUDIT_SCHEMA, REGISTRY_SCHEMA, TextAt,
         RequiredFilePasses;
    FilesAreThere(digest);
    PathsOfFiles();
    AuditIsGood(digest);
    RegistryIsGood();
    SchemasOfFiles(schemas);
    AuditSchema(Obj(AuditFields(digest)));
    RegistrySchema(Obj(RegistryFields()));
    ReadFilePasses(Tree(digest), schemas, AuditPath(VERSION), Obj(AuditFields(digest)), AUDIT_SCHEMA);
    ReadFilePasses(Tree(digest), schemas, RegistryPath(VERSION), Obj(RegistryFields()), REGISTRY_SCHEMA);
  }

  lemma CoreFilesPass(digest: string, s: Settings, matrix: Matrix)
    requires IsRealSha256(digest) && AsksForGovernance(s, matrix)
    ensures RulesOf(s, matrix, VERSION).core(Tree(digest))
  {
    hide VERSION, IsRealSha256, AuditFields, RegistryFields, AuditPath, RegistryPath, JsonText.Valid, PayloadAt, Tree,
         RequiredPaths, AsksForGovernance, RegistryPasses, AuditPasses, RequiredFilePasses;
    FilesAreThere(digest);
    AuditIsGood(digest);
    RegistryIsGood();
    TwoAreRequired(s, matrix);
    FilesPass(digest, s.schemas);
  }

  lemma {:induction false} NodeAbsent(entries: seq<Entry>, parts: seq<string>)
    requires forall i :: 0 <= i < |entries| ==> entries[i].parts != parts
    ensures NodeAt(entries, parts).None?
  {
    if entries != [] {
      NodeAbsent(entries[1..], parts);
    }
  }

  /** The tree at a glance: a root, a directory of the version, and two files. */
  lemma TreeHolds(digest: string)
    requires IsRealSha256(digest)
    ensures var entries := Tree(digest);
            && |entries| == 4 && entries[0] == Entry([GOVERNANCE], Directory) && entries[1] == Entry([GOVERNANCE, VERSION], Directory)
            && entries[2].parts == FileParts("audit-log.json") && entries[2].node.Regular? && entries[2].node.bytes != []
            && entries[3].parts == FileParts("station-registry.json") && entries[3].node.Regular? && entries[3].node.bytes != []
  {
    hide GOVERNANCE, VERSION, FileParts, IsRealSha256, AuditFields, RegistryFields, AttestationRecord.JsonFile, JsonText.Valid,
         RegistryPasses, AttestationRecord.ReadJson;
    AuditIsValid(digest);
    RegistryIsGood();
  }

  /** Nothing lies outside the governance root. */
  lemma OneRoot(digest: string, parts: seq<string>)
    requires IsRealSha256(digest) && parts != [] && parts[0] != GOVERNANCE
    ensures NodeAt(Tree(digest), parts).None?
  {
    hide GOVERNANCE, VERSION, IsRealSha256, Tree, NodeAt;
    TreeHolds(digest);
    NodeAbsent(Tree(digest), parts);
  }

  lemma GovernanceIsDirectory(digest: string)
    requires IsRealSha256(digest)
    ensures RootIsDirectory(Tree(digest), GOVERNANCE)
  {
    hide GOVERNANCE, VERSION, IsRealSha256, Tree;
    TreeHolds(digest);
  }

  lemma GovernanceIsClean(digest: string, rules: Rules)
    requires IsRealSha256(digest) && GOVERNANCE in rules.allowed
    ensures CleanBelow(Tree(digest), GOVERNANCE, rules, VERSION)
  {
    hide GOVERNANCE, VERSION, IsRealSha256, Tree, NodeAt;
    TreeHolds(digest);
  }

  lemma TreeIsClean(digest: string, rules: Rules)
    requires IsRealSha256(digest) && GOVERNANCE in rules.allowed
    ensures CleanScan(Tree(digest), rules, VERSION)
  {
    hide GOVERNANCE, VERSION, IsRealSha256, Tree, NodeAt, RootIsDirectory, CleanBelow;
    GovernanceIsDirectory(digest);
    GovernanceIsClean(digest, rules);
    forall i | 0 <= i < |rules.allowed| && rules.allowed[i] != GOVERNANCE
      ensures !RootExists(Tree(digest), rules.allowed[i])
    {
      OneRoot(digest, [rules.allowed[i]]);
    }
  }

  lemma NothingIsForbidden(digest: string, rules: Rules, now: int)
    requires IsRealSha256(digest) && GOVERNANCE !in rules.forbidden
    ensures NothingForbidden(Tree(digest), rules, VERSION, Context(now, false))
  {
    var manifest := ["release-ingress", VERSION, "ingress-manifest.json"];
    assert |"release-ingress"| == 15 && |GOVERNANCE| == 18 && manifest[0] == "release-ingress";
    hide GOVERNANCE, VERSION, IsRealSha256, Tree, NodeAt;
    OneRoot(digest, manifest);
    forall i | 0 <= i < |rules.forbidden|
      ensures !RootExists(Tree(digest), rules.forbidden[i])
    {
      OneRoot(digest, [rules.forbidden[i]]);
    }
  }

  lemma TwoAreRecorded(digest: string, rules: Rules, k: nat)
    requires IsRealSha256(digest) && GOVERNANCE in rules.allowed && k < |Tree(digest)|
    ensures IngressAgreement.IsRecorded(Tree(digest), rules, Tree(digest)[k]) <==> k == 2 || k == 3
  {
    hide GOVERNANCE, VERSION, IsRealSha256, Tree, RootIsDirectory;
    TreeHolds(digest);
    GovernanceIsDirectory(digest);
  }

  lemma FileIsScanned(digest: string, rules: Rules, k: nat, sha: Bytes -> string)
    requires IsRealSha256(digest) && GOVERNANCE in rules.allowed && (k == 2 || k == 3)
    ensures |Tree(digest)| == 4 && PosixPath.Join(Tree(digest)[k].parts) in RawPaths(Scanned(Tree(digest), rules, sha))
  {
    hide GOVERNANCE, VERSION, IsRealSha256, Tree, FileParts, Scanned, PosixPath.Join, RoleFor, IngressAgreement.IsRecorded;
    TreeHolds(digest);
    TwoAreRecorded(digest, rules, k);
    IngressAgreement.ScannedAre(Tree(digest), rules, sha, ItemOf(Tree(digest)[k], sha));
  }

  /** What the scan records are the two files. */
  lemma TwoAreScanned(digest: string, s: Settings, matrix: Matrix, sha: Bytes -> string)
    requires IsRealSha256(digest) && AsksForGovernance(s, matrix)
    ensures var rules := RulesOf(s, matrix, VERSION);
            rules.required <= RawPaths(Scanned(Tree(digest), rules, sha)) && OthersCarry(Tree(digest), rules)
  {
    hide GOVERNANCE, VERSION, IsRealSha256, Tree, FileParts, Scanned, PosixPath.Join, PosixPath.Parts, RequiredPaths, CorePasses, SchemaFor,
         AuditPath, RegistryPath, Sorting.NoRepeats, IngressAgreement.IsRecorded, CarriesSchema, RawPaths;
    PathsOfFiles();
    TwoAreRequired(s, matrix);
    var entries, rules := Tree(digest), RulesOf(s, matrix, VERSION);
    TreeHolds(digest);
    FileIsScanned(digest, rules, 2, sha);
    FileIsScanned(digest, rules, 3, sha);
    forall k | 0 <= k < |entries| && IngressAgreement.IsRecorded(entries, rules, entries[k])
      ensures PosixPath.Join(entries[k].parts) in rules.required
    {
      TwoAreRecorded(digest, rules, k);
    }
  }

  /** The input on which the window is left to decide. */
  lemma TreeCreatesCleanly(head: Head, s: Settings, matrix: Matrix, digest: string, sha: Bytes -> string)
    requires IsRealSha256(digest) && AsksForGovernance(s, matrix) && head.version == VERSION && head.wellFormed
    ensures CreatesCleanly(head, Tree(digest), RulesOf(s, matrix, VERSION), sha)
  {
    hide GOVERNANCE, VERSION, IsRealSha256, Tree, CleanScan, Scanned, RawPaths, RequiredPaths, CorePasses, OthersCarry, Sorting.NoRepeats,
         SchemaFor;
    CoreFilesPass(digest, s, matrix);
    TreeIsClean(digest, RulesOf(s, matrix, VERSION));
    TwoAreScanned(digest, s, matrix, sha);
  }

  lemma HeadDecides(head: Head, s: Settings, matrix: Matrix, digest: string, now: int, sha: Bytes -> string)
    requires IsRealSha256(digest) && AsksForGovernance(s, matrix) && IsDigest(sha) && head.version == VERSION && head.wellFormed
    ensures var entries, rules := Tree(digest), RulesOf(s, matrix, VERSION);
            Accepted(Manifest(head, rules.required, Scanned(entries, rules, sha)), entries, rules, Context(now, false), sha)
            <==> HeadIsGood(head, now)
  {
    hide GOVERNANCE, VERSION, IsRealSha256, IsDigest, Tree, IsListing, Scanned, Accepted, NothingForbidden, CreatesCleanly, RequiredPaths,
         CorePasses, OthersCarry, Sorting.NoRepeats, SchemaFor, HeadIsGood, RawPaths;
    TreeIsListed(digest);
    TreeCreatesCleanly(head, s, matrix, digest, sha);
    TwoAreScanned(digest, s, matrix, sha);
    NothingIsForbidden(digest, RulesOf(s, matrix, VERSION), now);
    CreatedUnderContract(head, Tree(digest), s, matrix, Context(now, false), sha);
  }

  /** The manifest of this tree is created without a failure whatever its window, and accepted at some time exactly if the
      window is not empty and that time comes before its end. */
  lemma WindowDecides(s: Settings, matrix: Matrix, generated: int, expires: int, now: int, sha: Bytes -> string)
    requires AsksForGovernance(s, matrix) && IsDigest(sha)
    ensures IsRealSha256(sha([]))
    ensures var head, entries, rules := Head(VERSION, true, ["p"], generated, expires), Tree(sha([])), RulesOf(s, matrix, VERSION);
            && IsListing(entries) && CreatesCleanly(head, entries, rules, sha)
            && (Accepted(Manifest(head, rules.required, Scanned(entries, rules, sha)), entries, rules, Context(now, false), sha)
                <==> generated < expires && now < expires)
  {
    hide VERSION, IsRealSha256, Tree, IsListing, Scanned, Accepted, CreatesCleanly, RulesOf, AsksForGovernance;
    assert IsRealSha256(sha([]));
    var head := Head(VERSION, true, ["p"], generated, expires);
    TreeIsListed(sha([]));
    TreeCreatesCleanly(head, s, matrix, sha([]), sha);
    HeadDecides(head, s, matrix, sha([]), now, sha);
  }
}

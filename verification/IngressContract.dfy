/** The rules of the operator ingress as the tool fixes them: required paths, schemas by path, and the core files. */
module IngressContract {
  import opened PyText
  import opened Hashing
  import opened Json
  import opened EvidenceGraph
  import opened OperatorIngress
  import AttestationRecord
  import PosixPath

  // ---------------------------------------------------------------- required paths

  /** What the ingress reads of a row of the build matrix. */
  datatype Row = Row(target: string, release: bool, qemuTest: bool, productionRequired: bool, acceptance: string)

  datatype Matrix = Matrix(rows: seq<Row>, scans: seq<string>)

  /** The evidence contract: allowed and forbidden roots, policies by target, and schema versions by name. */
  datatype Settings = Settings(allowed: seq<string>, forbidden: seq<string>, policies: map<string, Policy>, schemas: string -> string)

  predicate IsProductionVersion(version: string) {
    '-' !in version
  }

  function VersionPath(root: string, version: string, name: string): string {
    root + "/" + version + "/" + name
  }

  function TargetPath(root: string, version: string, target: string, name: string): string {
    root + "/" + version + "/" + target + "/" + name
  }

  function AuditPath(version: string): string {
    VersionPath("release-governance", version, "audit-log.json")
  }

  function RegistryPath(version: string): string {
    VersionPath("release-governance", version, "station-registry.json")
  }

  predicate NeedsHardware(row: Row) {
    row.release && (row.productionRequired || Contains(row.acceptance, "hardware"))
  }

  /** `_release_targets_requiring_hardware` */
  function HardwareTargets(rows: seq<Row>): set<string> {
    set row | row in rows && NeedsHardware(row) :: row.target
  }

  /** `target_policy`, of which the ingress reads two flags; a missing policy has neither. */
  predicate Asks(policies: map<string, Policy>, target: string, flag: Policy -> bool) {
    target in policies && flag(policies[target])
  }

  /** What one release row adds. */
  function RowPaths(version: string, row: Row, hardware: set<string>, policies: map<string, Policy>): set<string> {
    var production := IsProductionVersion(version);
    var target := row.target;
    (if row.qemuTest then {TargetPath("release-lab-input", version, target, "qemu.json")} else {})
    + (if target in hardware then {TargetPath("release-lab-input", version, target, "lab.json")} else {})
    + (if production && Asks(policies, target, (p: Policy) => p.hardwareRequired)
       then {TargetPath("release-lab-input", version, target, "hardware-subject.json"),
             TargetPath("release-lab-input", version, target, "station-acquisition.json")} else {})
    + (if production && Asks(policies, target, (p: Policy) => p.signingRequired)
       then {TargetPath("release-signing", version, target, "signing-manifest.json")} else {})
    + {VersionPath("release-approvals", version, target + ".json"), VersionPath("release-reproducibility", version, target + ".json")}
  }

  function AllRowPaths(version: string, rows: seq<Row>, hardware: set<string>, policies: map<string, Policy>): set<string> {
    if rows == [] then {}
    else
      var row := rows[|rows| - 1];
      AllRowPaths(version, rows[..|rows| - 1], hardware, policies)
      + if row.release then RowPaths(version, row, hardware, policies) else {}
  }

  /** What a target that is not public adds for a production version. */
  function TargetPaths(version: string, target: string, policy: Policy): set<string> {
    if policy.releasePublic then {}
    else
      (if policy.runtimeRequired then {TargetPath("release-runtime", version, target, "production-runtime.json")} else {})
      + (if policy.signingRequired then {TargetPath("release-signing", version, target, "signing-manifest.json")} else {})
      + (if policy.otaCapable then {TargetPath("release-ota", version, target, "ota-artifacts.json")} else {})
  }

  function AllTargetPaths(version: string, policies: map<string, Policy>): set<string> {
    set target, path | target in policies.Keys && path in TargetPaths(version, target, policies[target]) :: path
  }

  function ScanPath(version: string, scan: string): string {
    VersionPath("release-security", version, scan + ".json")
  }

  function ScanPaths(version: string, scans: seq<string>): set<string> {
    set scan | scan in scans :: ScanPath(version, scan)
  }

  function Always(version: string): set<string> {
    {AuditPath(version), RegistryPath(version)}
  }

  function InProduction(version: string): set<string> {
    {VersionPath("release-governance", version, "role-bindings.json"), VersionPath("release-retention", version, "retention-manifest.json")}
  }

  function RequiredPaths(version: string, matrix: Matrix, policies: map<string, Policy>): set<string> {
    Always(version)
    + (if IsProductionVersion(version) then InProduction(version) + ScanPaths(version, matrix.scans) else {})
    + AllRowPaths(version, matrix.rows, HardwareTargets(matrix.rows), policies)
    + (if IsProductionVersion(version) then AllTargetPaths(version, policies) else {})
  }

  /** `operator_required_evidence_paths` */
  method RequiredEvidencePaths(version: string, matrix: Matrix, policies: map<string, Policy>) returns (required: set<string>)
    ensures required == RequiredPaths(version, matrix, policies)
  {
    hide RowPaths, TargetPaths, ScanPath;
    var production := '-' !in version;
    required := {"release-governance" + "/" + version + "/" + "audit-log.json", "release-governance" + "/" + version + "/" + "station-registry.json"};
    if production {
      required := required + {"release-governance" + "/" + version + "/" + "role-bindings.json",
                              "release-retention" + "/" + version + "/" + "retention-manifest.json"};
      var reports := RequiredByScans(version, matrix.scans);
      required := required + reports;
    }
    var hardware := RequiringHardware(matrix.rows);
    var more := RequiredByRows(version, matrix.rows, hardware, policies);
    required := required + more;
    if production {
      more := RequiredByTargets(version, policies);
      required := required + more;
    }
  }

  method RequiredByScans(version: string, scans: seq<string>) returns (required: set<string>)
    ensures required == ScanPaths(version, scans)
  {
    hide ScanPath;
    required := {};
    for i := 0 to |scans|
      invariant required == ScanPaths(version, scans[..i])
    {
      assert scans[..i + 1] == scans[..i] + [scans[i]];
      ScanPathIs(version, scans[i]);
      required := required + {"release-security" + "/" + version + "/" + (scans[i] + ".json")};
    }
    assert scans[..|scans|] == scans;
  }

  lemma ScanPathIs(version: string, scan: string)
    ensures ScanPath(version, scan) == "release-security" + "/" + version + "/" + (scan + ".json")
  {
  }

  method RequiringHardware(rows: seq<Row>) returns (targets: set<string>)
    ensures targets == HardwareTargets(rows)
  {
    hide Contains;
    targets := {};
    for i := 0 to |rows|
      invariant targets == HardwareTargets(rows[..i])
    {
      assert rows[..i + 1] == rows[..i] + [rows[i]];
      if rows[i].release && (rows[i].productionRequired || Contains(rows[i].acceptance, "hardware")) {
        targets := targets + {rows[i].target};
      }
    }
    assert rows[..|rows|] == rows;
  }

  /** What the lab and the signing of one release row add. */
  method RequiredOfRow(version: string, row: Row, hardware: set<string>, policies: map<string, Policy>) returns (required: set<string>)
    ensures required == RowPaths(version, row, hardware, policies)
  {
    var lab := "release-lab-input" + "/" + version + "/" + row.target;
    required := {"release-approvals" + "/" + version + "/" + (row.target + ".json"),
                 "release-reproducibility" + "/" + version + "/" + (row.target + ".json")};
    if row.qemuTest {
      required := required + {lab + "/" + "qemu.json"};
    }
    if row.target in hardware {
      required := required + {lab + "/" + "lab.json"};
    }
    if '-' !in version && row.target in policies {
      var policy := policies[row.target];
      if policy.hardwareRequired {
        required := required + {lab + "/" + "hardware-subject.json", lab + "/" + "station-acquisition.json"};
      }
      if policy.signingRequired {
        required := required + {"release-signing" + "/" + version + "/" + row.target + "/" + "signing-manifest.json"};
      }
    }
  }

  method RequiredByRows(version: string, rows: seq<Row>, hardware: set<string>, policies: map<string, Policy>) returns (required: set<string>)
    ensures required == AllRowPaths(version, rows, hardware, policies)
  {
    hide RowPaths;
    required := {};
    for i := 0 to |rows|
      invariant required == AllRowPaths(version, rows[..i], hardware, policies)
    {
      assert rows[..i + 1][..i] == rows[..i];
      if rows[i].release {
        var more := RequiredOfRow(version, rows[i], hardware, policies);
        required := required + more;
      }
    }
    assert rows[..|rows|] == rows;
  }

  method RequiredOfTarget(version: string, target: string, policy: Policy) returns (required: set<string>)
    ensures required == TargetPaths(version, target, policy)
  {
    required := {};
    if policy.releasePublic {
      return;
    }
    if policy.runtimeRequired {
      required := required + {"release-runtime" + "/" + version + "/" + target + "/" + "production-runtime.json"};
    }
    if policy.signingRequired {
      required := required + {"release-signing" + "/" + version + "/" + target + "/" + "signing-manifest.json"};
    }
    if policy.otaCapable {
      required := required + {"release-ota" + "/" + version + "/" + target + "/" + "ota-artifacts.json"};
    }
  }

  method RequiredByTargets(version: string, policies: map<string, Policy>) returns (required: set<string>)
    ensures required == AllTargetPaths(version, policies)
  {
    hide TargetPaths;
    required := {};
    var rest := policies.Keys;
    while rest != {}
      invariant rest <= policies.Keys
      invariant forall p :: p in required <==> exists t :: t in policies.Keys - rest && p in TargetPaths(version, t, policies[t])
      decreases |rest|
    {
      var target :| target in rest;
      rest := rest - {target};
      var more := RequiredOfTarget(version, target, policies[target]);
      required := required + more;
    }
  }

  // ---------------------------------------------------------------- schemas

  const AUDIT_SCHEMA := "suderra.audit-log-snapshot.v1"
  const REGISTRY_SCHEMA := "suderra.lab-station-registry.v1"

  function GovernanceSchema(schemas: string -> string, name: string): Option<string> {
    if name == "audit-log.json" then Some(AUDIT_SCHEMA)
    else if name == "station-registry.json" then Some(REGISTRY_SCHEMA)
    else if name == "role-bindings.json" then Some(schemas("governance_role_bindings"))
    else None
  }

  function LabSchema(schemas: string -> string, name: string): Option<string> {
    if name == "qemu.json" then Some("suderra.qemu-acceptance.v4")
    else if name == "lab.json" then Some(schemas("lab_evidence"))
    else if name == "hardware-subject.json" then Some(schemas("hardware_subject"))
    else if name == "station-acquisition.json" then Some(schemas("station_acquisition"))
    else None
  }

  /** `required_schema_version_for_path` */
  function SchemaFor(schemas: string -> string, parts: seq<string>): Option<string> {
    if parts == [] then None
    else
      var root, name := parts[0], parts[|parts| - 1];
      if root == "release-governance" then if |parts| >= 3 then GovernanceSchema(schemas, name) else None
      else if root == "release-lab-input" then LabSchema(schemas, name)
      else if root == "release-approvals" then Some("suderra.release-approval.v2")
      else if root == "release-reproducibility" then Some("suderra.reproducibility.v1")
      else if root == "release-runtime" then
        if name == "production-runtime.json" then Some(schemas("production_runtime_suite")) else None
      else if root == "release-signing" then
        if name == "signing-manifest.json" then Some(schemas("signing_manifest"))
        else if IsJsonName(name) then Some(schemas("hsm_signing_session"))
        else None
      else if root == "release-retention" then
        if name == "retention-manifest.json" then Some(schemas("retention_manifest")) else None
      else if root == "release-ota" then
        if name == "ota-artifacts.json" then Some(schemas("ota_artifacts")) else None
      else None
  }

  /** The schema asked of a required file: as above, and that of the security reports. */
  function CoreSchemaFor(schemas: string -> string, parts: seq<string>): Option<string> {
    var schema := SchemaFor(schemas, parts);
    if schema.None? && parts != [] && parts[0] == "release-security" && IsJsonName(parts[|parts| - 1])
    then Some(schemas("release_security_report")) else schema
  }

  // ---------------------------------------------------------------- the audit log

  /** A non-empty text under the key. */
  predicate HasText(v: Json, key: string) {
    TextAt(v, key).Some? && TextAt(v, key).value != []
  }

  /** `isinstance(v, int)`, and its value; booleans are integers. */
  function AsInt(v: Option<Json>): Option<int> {
    if v.None? then None
    else
      match v.value
      case Bool(b) => Some(if b then 1 else 0)
      case Number(s) =>
        if s != [] && AllDigits(s) then Some(ParseDecimal(s) as int)
        else if |s| > 1 && s[0] == '-' && AllDigits(s[1..]) then Some(-(ParseDecimal(s[1..]) as int))
        else None
      case _ => None
  }

  predicate IsDigestAt(v: Json, key: string) {
    TextAt(v, key).Some? && IsRealSha256(TextAt(v, key).value)
  }

  function ObjectAt(v: Json, key: string): Json {
    var f := Field(v, key);
    if f.Some? && f.value.Obj? then f.value else Null
  }

  const SOURCE_KINDS := ["organization", "enterprise", "manual-org-export", "manual-enterprise-export"]

  predicate AuditHeadPasses(audit: Json) {
    var unapproved, count := Field(audit, "unapproved_governance_changes"), AsInt(Field(audit, "event_count"));
    && TextAt(audit, "schema_version") == Some(AUDIT_SCHEMA) && TextAt(audit, "status") == Some("collected")
    && IsDigestAt(audit, "events_sha256") && (unapproved.Some? ==> !AttestationRecord.Truthy(unapproved.value))
    && count.Some? && count.value >= 0
  }

  predicate AuditSourcePasses(audit: Json) {
    var kind := TextAt(audit, "source_kind");
    && kind.Some? && kind.value in SOURCE_KINDS && HasText(audit, "repository") && HasText(audit, "query")
    && HasText(ObjectAt(audit, "collector"), "identity")
  }

  predicate WindowPasses(window: Json) {
    var days := AsInt(Field(window, "days"));
    window.Obj? && HasText(window, "start") && HasText(window, "end") && days.Some? && days.value > 0
  }

  predicate ExportPasses(raw: Json) {
    var bytes := AsInt(Field(raw, "bytes"));
    raw.Obj? && HasText(raw, "path") && bytes.Some? && bytes.value > 0 && IsDigestAt(raw, "sha256")
  }

  predicate ReplayPasses(replay: Json) {
    var events := Field(replay, "unapproved_events");
    replay.Obj? && TextAt(replay, "status") == Some("passed") && (events.None? || events.value.Null? || events.value == Arr([]))
  }

  predicate AuditPasses(audit: Json) {
    && audit.Obj? && AuditHeadPasses(audit) && AuditSourcePasses(audit)
    && WindowPasses(ObjectAt(audit, "lookback_window")) && ExportPasses(ObjectAt(audit, "raw_export"))
    && ReplayPasses(ObjectAt(audit, "replay"))
  }

  /** `not isinstance(value, str) or not value` */
  method CheckText(v: Json, key: string) returns (failures: seq<string>)
    ensures failures == [] <==> HasText(v, key)
  {
    hide TextAt;
    var text := TextAt(v, key);
    failures := if text.None? || |text.value| == 0 then ["must be a non-empty string"] else [];
  }

  /** `check_sha256` */
  method CheckDigest(v: Json, key: string) returns (failures: seq<string>)
    ensures failures == [] <==> IsDigestAt(v, key)
  {
    hide TextAt;
    var text := TextAt(v, key);
    if text.None? || !IsSha256(text.value) {
      return ["must be a lowercase sha256 digest"];
    }
    var k := 0;
    while k < 64 && text.value[k] == '0'
      invariant k <= 64 && forall i :: 0 <= i < k ==> text.value[i] == '0'
    {
      k := k + 1;
    }
    failures := if k == 64 then ["must not be the all-zero sha256 digest"] else [];
  }

  /** `not isinstance(value, int) or value < least` */
  method CheckInt(v: Json, key: string, least: int) returns (failures: seq<string>)
    ensures failures == [] <==> AsInt(Field(v, key)).Some? && AsInt(Field(v, key)).value >= least
  {
    hide Field, AsInt;
    var n := AsInt(Field(v, key));
    failures := if n.None? || n.value < least then ["must be an integer that is large enough"] else [];
  }

  method CheckAuditHead(audit: Json) returns (failures: seq<string>)
    ensures failures == [] <==> AuditHeadPasses(audit)
  {
    hide Get, Field, TextAt, AsInt, IsDigestAt, AttestationRecord.Truthy;
    failures := CheckDigest(audit, "events_sha256");
    var more := CheckInt(audit, "event_count", 0);
    failures := failures + more;
    if TextAt(audit, "schema_version") != Some("suderra.audit-log-snapshot.v1") {
      failures := failures + ["schema_version"];
    }
    if TextAt(audit, "status") != Some("collected") {
      failures := failures + ["status must be collected"];
    }
    var unapproved := Field(audit, "unapproved_governance_changes");
    if unapproved.Some? && AttestationRecord.Truthy(unapproved.value) {
      failures := failures + ["unapproved governance changes must be false"];
    }
  }

  method CheckAuditSource(audit: Json) returns (failures: seq<string>)
    ensures failures == [] <==> AuditSourcePasses(audit)
  {
    hide Get, Field, TextAt, HasText;
    failures := CheckText(audit, "repository");
    var more := CheckText(audit, "query");
    failures := failures + more;
    var collector := Field(audit, "collector");
    if collector.None? || !collector.value.Obj? {
      NoFields("identity");
      failures := failures + ["collector.identity must be a non-empty string"];
    } else {
      more := CheckText(collector.value, "identity");
      failures := failures + more;
    }
    var kind := TextAt(audit, "source_kind");
    if kind.None? || kind.value !in {"organization", "enterprise", "manual-org-export", "manual-enterprise-export"} {
      failures := failures + ["source_kind must identify an org/enterprise audit source"];
    }
  }

  /** What is no object has no text. */
  lemma NoFields(key: string)
    ensures !HasText(Null, key)
  {
  }

  method CheckWindow(window: Option<Json>) returns (failures: seq<string>)
    ensures failures == [] <==> window.Some? && WindowPasses(window.value)
  {
    hide Get, Field, HasText, AsInt;
    if window.None? || !window.value.Obj? {
      return ["lookback_window must be an object"];
    }
    failures := CheckText(window.value, "start");
    var more := CheckText(window.value, "end");
    failures := failures + more;
    more := CheckInt(window.value, "days", 1);
    failures := failures + more;
  }

  method CheckExport(raw: Option<Json>) returns (failures: seq<string>)
    ensures failures == [] <==> raw.Some? && ExportPasses(raw.value)
  {
    hide Get, Field, HasText, AsInt, IsDigestAt;
    if raw.None? || !raw.value.Obj? {
      return ["raw_export must be an object"];
    }
    failures := CheckText(raw.value, "path");
    var more := CheckInt(raw.value, "bytes", 1);
    failures := failures + more;
    more := CheckDigest(raw.value, "sha256");
    failures := failures + more;
  }

  method CheckReplay(replay: Option<Json>) returns (failures: seq<string>)
    ensures failures == [] <==> replay.Some? && ReplayPasses(replay.value)
  {
    hide Get, Field, TextAt;
    if replay.None? || !replay.value.Obj? {
      return ["replay must be an object"];
    }
    failures := if TextAt(replay.value, "status") == Some("passed") then [] else ["replay.status"];
    var events := Field(replay.value, "unapproved_events");
    if events.Some? && !events.value.Null? && events.value != Arr([]) {
      failures := failures + ["replay.unapproved_events"];
    }
  }

  /** The parts of the audit log are objects under their keys. */
  lemma PartsPass(audit: Json)
    ensures var f := Field(audit, "lookback_window"); WindowPasses(ObjectAt(audit, "lookback_window")) <==> f.Some? && WindowPasses(f.value)
    ensures var f := Field(audit, "raw_export"); ExportPasses(ObjectAt(audit, "raw_export")) <==> f.Some? && ExportPasses(f.value)
    ensures var f := Field(audit, "replay"); ReplayPasses(ObjectAt(audit, "replay")) <==> f.Some? && ReplayPasses(f.value)
  {
    hide Field, HasText, AsInt, IsDigestAt, TextAt;
  }

  /** `validate_audit_log` */
  method ValidateAuditLog(audit: Json) returns (failures: seq<string>)
    ensures failures == [] <==> AuditPasses(audit)
  {
    hide AuditHeadPasses, AuditSourcePasses, WindowPasses, ExportPasses, ReplayPasses, ObjectAt, Field;
    if !audit.Obj? {
      return ["audit log must be a JSON object"];
    }
    PartsPass(audit);
    failures := CheckAuditHead(audit);
    var more := CheckAuditSource(audit);
    failures := failures + more;
    more := CheckWindow(Field(audit, "lookback_window"));
    failures := failures + more;
    more := CheckExport(Field(audit, "raw_export"));
    failures := failures + more;
    more := CheckReplay(Field(audit, "replay"));
    failures := failures + more;
  }

  /** A whole number as JSON writes it, or a truth value. */
  ghost predicate Writes(v: Json, n: int) {
    || (v == Bool(n == 1) && (n == 0 || n == 1))
    || exists d :: d != [] && AllDigits(d) && ((v == Number(d) && n == ParseDecimal(d)) || (v == Number("-" + d) && n + ParseDecimal(d) == 0))
  }

  /** The integer read is the one written, and only what writes one is read. */
  lemma AsIntMeans(v: Json, n: int)
    ensures AsInt(Some(v)) == Some(n) <==> Writes(v, n)
  {
    hide ParseDecimal;
    if v.Number? {
      var s := v.literal;
      if |s| > 1 && s[0] == '-' && AllDigits(s[1..]) {
        assert s == "-" + s[1..];
      }
      if d :| d != [] && AllDigits(d) && v == Number("-" + d) {
        assert s[0] == '-' && s[1..] == d;
      }
    }
  }

  // ---------------------------------------------------------------- the core files

  /** The JSON value of the regular file at a path; None where there is none, or none that can be read. */
  function PayloadAt(entries: seq<Entry>, path: string): Option<Json> {
    var bytes := BytesAt(entries, PosixPath.Parts(path));
    if bytes.Some? then AttestationRecord.ReadJson(bytes.value) else None
  }

  predicate RegistryPasses(registry: Json) {
    registry.Obj? && TextAt(registry, "schema_version") == Some(REGISTRY_SCHEMA)
  }

  /** A required file that is there is a JSON object of its schema. */
  predicate RequiredFilePasses(entries: seq<Entry>, schemas: string -> string, path: string) {
    BytesAt(entries, PosixPath.Parts(path)).Some? ==>
      var payload, schema := PayloadAt(entries, path), CoreSchemaFor(schemas, PosixPath.Parts(path));
      payload.Some? && payload.value.Obj? && (schema.Some? ==> TextAt(payload.value, "schema_version") == schema)
  }

  predicate CorePasses(entries: seq<Entry>, schemas: string -> string, version: string, required: set<string>) {
    var audit, registry := PayloadAt(entries, AuditPath(version)), PayloadAt(entries, RegistryPath(version));
    && audit.Some? && AuditPasses(audit.value) && registry.Some? && RegistryPasses(registry.value)
    && forall path :: path in required ==> RequiredFilePasses(entries, schemas, path)
  }

  /** The JSON value of a regular file. */
  method ReadAt(entries: seq<Entry>, path: string) returns (found: bool, payload: Option<Json>)
    ensures payload == PayloadAt(entries, path) && found == BytesAt(entries, PosixPath.Parts(path)).Some?
  {
    hide NodeAt, PosixPath.Parts, AttestationRecord.ReadJson;
    var node := NodeAt(entries, PosixPath.Parts(path));
    found, payload := false, None;
    if node.Some? && node.value.Regular? {
      found, payload := true, AttestationRecord.ReadJson(node.value.bytes);
    }
  }

  method CheckRegistry(registry: Option<Json>) returns (failures: seq<string>)
    ensures failures == [] <==> registry.Some? && RegistryPasses(registry.value)
  {
    hide TextAt;
    failures := [];
    if registry.None? {
      failures := ["missing or invalid station registry JSON"];
    } else if !registry.value.Obj? {
      failures := ["station registry must be a JSON object"];
    } else if TextAt(registry.value, "schema_version") != Some("suderra.lab-station-registry.v1") {
      failures := ["schema_version of the station registry"];
    }
  }

  method CheckRequired(entries: seq<Entry>, schemas: string -> string, path: string) returns (failures: seq<string>)
    ensures failures == [] <==> RequiredFilePasses(entries, schemas, path)
  {
    hide PayloadAt, BytesAt, CoreSchemaFor, TextAt, PosixPath.Parts;
    var found, payload := ReadAt(entries, path);
    failures := [];
    if !found {
      return;
    }
    if payload.None? {
      failures := ["required evidence must be valid JSON"];
    } else if !payload.value.Obj? {
      failures := ["required evidence must be a JSON object"];
    } else {
      var schema := CoreSchemaFor(schemas, PosixPath.Parts(path));
      if schema.Some? && TextAt(payload.value, "schema_version") != schema {
        failures := ["schema_version"];
      }
    }
  }

  /** `validate_core_files`, but for the list of missing paths. */
  method ValidateCoreFiles(entries: seq<Entry>, schemas: string -> string, version: string, required: set<string>)
      returns (failures: seq<string>)
    ensures failures == [] <==> CorePasses(entries, schemas, version, required)
  {
    hide PayloadAt, AuditPasses, RegistryPasses, RequiredFilePasses, BytesAt;
    var root := "release-governance" + "/" + version + "/";
    var _, audit := ReadAt(entries, root + "audit-log.json");
    if audit.None? {
      failures := ["missing or invalid audit log JSON"];
    } else {
      failures := ValidateAuditLog(audit.value);
    }
    var _, registry := ReadAt(entries, root + "station-registry.json");
    var more := CheckRegistry(registry);
    failures := failures + more;
    more := CheckAllRequired(entries, schemas, required);
    failures := failures + more;
  }

  method CheckAllRequired(entries: seq<Entry>, schemas: string -> string, required: set<string>) returns (failures: seq<string>)
    ensures failures == [] <==> forall path :: path in required ==> RequiredFilePasses(entries, schemas, path)
  {
    hide RequiredFilePasses;
    failures := [];
    var rest := required;
    while rest != {}
      invariant rest <= required
      invariant failures == [] <==> forall path :: path in required - rest ==> RequiredFilePasses(entries, schemas, path)
      decreases |rest|
    {
      var path :| path in rest;
      rest := rest - {path};
      var more := CheckRequired(entries, schemas, path);
      failures := failures + more;
    }
  }

  // ---------------------------------------------------------------- the rules

  /** The rules for one version. */
  function RulesOf(s: Settings, matrix: Matrix, version: string): Rules {
    var required := RequiredPaths(version, matrix, s.policies);
    Rules(s.allowed, s.forbidden, required, parts => SchemaFor(s.schemas, parts), entries => CorePasses(entries, s.schemas, version, required))
  }
}

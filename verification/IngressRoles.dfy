/** The two tables of the operator ingress in one, path by path: the role of an evidence file, and the schema it must carry. */
module IngressRoles {
  import opened PyText
  import opened OperatorIngress
  import opened IngressContract

  predicate At(parts: seq<string>, root: string) {
    parts != [] && parts[0] == root
  }

  function Last(parts: seq<string>): string
    requires parts != []
  {
    parts[|parts| - 1]
  }

  /** A suffix `.json` after a name. */
  ghost predicate IsJson(name: string) {
    exists stem :: stem != [] && name == stem + ".json"
  }

  lemma JsonNames(name: string)
    ensures IsJsonName(name) <==> IsJson(name)
  {
    if IsJsonName(name) {
      assert name == name[..|name| - 5] + ".json";
    }
    if stem :| stem != [] && name == stem + ".json" {
      assert name[|name| - 5..] == ".json";
    }
  }

  // ---------------------------------------------------------------- schemas of the listed paths

  /** The role of the path, and the schema asked of the file wherever it is listed. */
  predicate Is(schemas: string -> string, parts: seq<string>, role: string, schema: Option<string>) {
    RoleFor(parts) == role && SchemaFor(schemas, parts) == CoreSchemaFor(schemas, parts) == schema
  }

  /** Governance files carry a schema from the third level on. */
  lemma GovernanceFiles(schemas: string -> string, parts: seq<string>)
    requires At(parts, "release-governance")
    ensures |parts| >= 3 && Last(parts) == "audit-log.json" ==>
              Is(schemas, parts, "governance-audit-log", Some("suderra.audit-log-snapshot.v1"))
    ensures |parts| >= 3 && Last(parts) == "station-registry.json" ==>
              Is(schemas, parts, "station-registry", Some("suderra.lab-station-registry.v1"))
    ensures Last(parts) == "role-bindings.json" ==>
              Is(schemas, parts, "governance-role-bindings", if |parts| >= 3 then Some(schemas("governance_role_bindings")) else None)
    ensures Last(parts) != "role-bindings.json" && (|parts| < 3 || Last(parts) !in ["audit-log.json", "station-registry.json"]) ==>
              Is(schemas, parts, "governance-input", None)
  {
  }

  const LAB_NAMES := ["qemu.json", "lab.json", "hardware-subject.json", "station-acquisition.json", "station-bundle.json",
                      "station-bundle.json.sig", "station-public.pem"]

  lemma LabFiles(schemas: string -> string, parts: seq<string>)
    requires At(parts, "release-lab-input")
    ensures Last(parts) == "qemu.json" ==> Is(schemas, parts, "qemu-input", Some("suderra.qemu-acceptance.v4"))
    ensures Last(parts) == "lab.json" ==> Is(schemas, parts, "lab-input", Some(schemas("lab_evidence")))
    ensures Last(parts) == "hardware-subject.json" ==> Is(schemas, parts, "hardware-subject", Some(schemas("hardware_subject")))
    ensures Last(parts) == "station-acquisition.json" ==> Is(schemas, parts, "station-acquisition", Some(schemas("station_acquisition")))
    ensures Last(parts) == "station-bundle.json" ==> Is(schemas, parts, "lab-station-bundle", None)
    ensures Last(parts) == "station-bundle.json.sig" ==> Is(schemas, parts, "lab-station-signature", None)
    ensures Last(parts) == "station-public.pem" ==> Is(schemas, parts, "lab-station-public-key", None)
    ensures Last(parts) !in LAB_NAMES ==> Is(schemas, parts, "lab-supporting-evidence", None)
  {
  }

  lemma ReleaseFiles(schemas: string -> string, parts: seq<string>)
    ensures At(parts, "release-approvals") ==> Is(schemas, parts, "release-approval", Some("suderra.release-approval.v2"))
    ensures At(parts, "release-reproducibility") ==> Is(schemas, parts, "reproducibility-report", Some("suderra.reproducibility.v1"))
    ensures At(parts, "release-runtime") ==>
              if Last(parts) == "production-runtime.json"
              then Is(schemas, parts, "production-runtime-suite", Some(schemas("production_runtime_suite")))
              else Is(schemas, parts, "production-runtime-supporting-evidence", None)
  {
    hide IsJsonName;
  }

  lemma RetainedFiles(schemas: string -> string, parts: seq<string>)
    ensures At(parts, "release-retention") ==>
              if Last(parts) == "retention-manifest.json" then Is(schemas, parts, "retention-manifest", Some(schemas("retention_manifest")))
              else Is(schemas, parts, "retention-supporting-evidence", None)
    ensures At(parts, "release-ota") ==>
              if Last(parts) == "ota-artifacts.json" then Is(schemas, parts, "ota-artifacts", Some(schemas("ota_artifacts")))
              else Is(schemas, parts, "ota-supporting-evidence", None)
    ensures parts == [] ==> Is(schemas, parts, "operator-evidence", None)
  {
    hide IsJsonName;
  }

  lemma SigningFiles(schemas: string -> string, parts: seq<string>)
    requires At(parts, "release-signing")
    ensures Last(parts) == "signing-manifest.json" ==> Is(schemas, parts, "signing-manifest", Some(schemas("signing_manifest")))
    ensures Last(parts) != "signing-manifest.json" && IsJson(Last(parts)) ==>
              Is(schemas, parts, "hsm-signing-session", Some(schemas("hsm_signing_session")))
    ensures Last(parts) != "signing-manifest.json" && !IsJson(Last(parts)) ==> Is(schemas, parts, "hsm-signing-supporting-evidence", None)
  {
    hide IsJsonName, IsJson;
    JsonNames(Last(parts));
  }

  /** A security report carries its schema among the required files only. */
  lemma SecurityFiles(schemas: string -> string, parts: seq<string>)
    requires At(parts, "release-security")
    ensures IsJson(Last(parts)) ==>
              && RoleFor(parts) == "security-report" && SchemaFor(schemas, parts) == None
              && CoreSchemaFor(schemas, parts) == Some(schemas("release_security_report"))
    ensures !IsJson(Last(parts)) ==> Is(schemas, parts, "security-raw-evidence", None)
  {
    hide IsJsonName, IsJson;
    JsonNames(Last(parts));
  }

  const ROOTS := ["release-governance", "release-approvals", "release-reproducibility", "release-lab-input", "release-runtime",
                  "release-signing", "release-retention", "release-ota", "release-security"]

  lemma OtherFiles(schemas: string -> string, parts: seq<string>)
    requires parts != [] && parts[0] !in ROOTS
    ensures Is(schemas, parts, "operator-evidence", None)
  {
    hide IsJsonName;
  }
}

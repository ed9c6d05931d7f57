/** The operator evidence ingress manifest: the scan of the input tree, the manifest's producer and its validator. */
module OperatorIngress {
  import opened PyText
  import opened Hashing
  import opened EvidenceGraph
  import AttestationRecord
  import Json
  import PosixPath
  import Sorting

  // ---------------------------------------------------------------- the input tree

  /** A symbolic link may lead nowhere. */
  datatype Node = Regular(bytes: Bytes) | Symlink(dangling: bool) | Directory

  /** One path of the tree, by its components, and what is there. */
  datatype Entry = Entry(parts: seq<string>, node: Node)

  predicate IsName(s: string) {
    PosixPath.IsPart(s) && s != ".."
  }

  /** A listing as a file system gives it: paths of names, none twice. */
  predicate IsListing(entries: seq<Entry>) {
    && (forall i :: 0 <= i < |entries| ==> entries[i].parts != [] && forall k :: 0 <= k < |entries[i].parts| ==> IsName(entries[i].parts[k]))
    && forall i, j :: 0 <= i < j < |entries| ==> entries[i].parts != entries[j].parts
  }

  function NodeAt(entries: seq<Entry>, parts: seq<string>): Option<Node> {
    if entries == [] then None else if entries[0].parts == parts then Some(entries[0].node) else NodeAt(entries[1..], parts)
  }

  /** `Path.exists`, which follows symbolic links. */
  predicate Exists(node: Option<Node>) {
    node.Some? && !(node.value.Symlink? && node.value.dangling)
  }

  /** The bytes of a regular file. */
  function BytesAt(entries: seq<Entry>, parts: seq<string>): Option<Bytes> {
    var node := NodeAt(entries, parts);
    if node.Some? && node.value.Regular? then Some(node.value.bytes) else None
  }

  // ---------------------------------------------------------------- roles

  predicate IsJsonName(name: string) {
    |name| > 5 && EndsWith(name, ".json")
  }

  /** `role_for_path` */
  function RoleFor(parts: seq<string>): string {
    if parts == [] then "operator-evidence"
    else
      var root, name := parts[0], parts[|parts| - 1];
      if root == "release-governance" then
        if |parts| >= 3 && name == "audit-log.json" then "governance-audit-log"
        else if |parts| >= 3 && name == "station-registry.json" then "station-registry"
        else if name == "role-bindings.json" then "governance-role-bindings"
        else "governance-input"
      else if root == "release-approvals" then "release-approval"
      else if root == "release-reproducibility" then "reproducibility-report"
      else if root == "release-lab-input" then
        if name == "qemu.json" then "qemu-input"
        else if name == "lab.json" then "lab-input"
        else if name == "hardware-subject.json" then "hardware-subject"
        else if name == "station-acquisition.json" then "station-acquisition"
        else if name == "station-bundle.json" then "lab-station-bundle"
        else if name == "station-bundle.json.sig" then "lab-station-signature"
        else if name == "station-public.pem" then "lab-station-public-key"
        else "lab-supporting-evidence"
      else if root == "release-runtime" then
        if name == "production-runtime.json" then "production-runtime-suite" else "production-runtime-supporting-evidence"
      else if root == "release-signing" then
        if name == "signing-manifest.json" then "signing-manifest"
        else if IsJsonName(name) then "hsm-signing-session"
        else "hsm-signing-supporting-evidence"
      else if root == "release-retention" then
        if name == "retention-manifest.json" then "retention-manifest" else "retention-supporting-evidence"
      else if root == "release-ota" then
        if name == "ota-artifacts.json" then "ota-artifacts" else "ota-supporting-evidence"
      else if root == "release-security" then
        if IsJsonName(name) then "security-report" else "security-raw-evidence"
      else "operator-evidence"
  }

  // ---------------------------------------------------------------- the scan

  /** What the contract fixes: the allowed and forbidden roots, the required paths of this version, the schema a path must
      carry, and the checks on the contents of the core files. */
  datatype Rules = Rules(allowed: seq<string>, forbidden: seq<string>, required: set<string>, schema: seq<string> -> Option<string>,
                           core: seq<Entry> -> bool)

  datatype Item = Item(source: string, role: string, path: string, bytes: int, sha256: string)

  predicate InVersion(rules: Rules, parts: seq<string>, version: string) {
    parts != [] && parts[0] in rules.allowed && |parts| >= 2 && parts[1] == version
  }

  predicate Below(e: Entry, root: string) {
    |e.parts| >= 2 && e.parts[0] == root
  }

  /** The scan has nothing to say against the entry. */
  predicate CleanEntry(rules: Rules, version: string, e: Entry) {
    !e.node.Symlink? && (e.node.Regular? ==> InVersion(rules, e.parts, version) && e.node.bytes != [])
  }

  function ItemOf(e: Entry, sha: Bytes -> string): Item
    requires e.node.Regular?
  {
    Item("operator-evidence", RoleFor(e.parts), PosixPath.Join(e.parts), |e.node.bytes|, sha(e.node.bytes))
  }

  /** What the scan of one root records. */
  function RecordsBelow(entries: seq<Entry>, root: string, sha: Bytes -> string): seq<Item> {
    if entries == [] then []
    else
      var e := entries[|entries| - 1];
      RecordsBelow(entries[..|entries| - 1], root, sha)
      + if Below(e, root) && e.node.Regular? && e.node.bytes != [] then [ItemOf(e, sha)] else []
  }

  predicate RootExists(entries: seq<Entry>, root: string) {
    Exists(NodeAt(entries, [root]))
  }

  predicate RootIsDirectory(entries: seq<Entry>, root: string) {
    NodeAt(entries, [root]) == Some(Directory)
  }

  function Recorded(entries: seq<Entry>, roots: seq<string>, sha: Bytes -> string): seq<Item> {
    if roots == [] then []
    else
      var root := roots[|roots| - 1];
      Recorded(entries, roots[..|roots| - 1], sha) + if RootIsDirectory(entries, root) then RecordsBelow(entries, root, sha) else []
  }

  function Scanned(entries: seq<Entry>, rules: Rules, sha: Bytes -> string): seq<Item> {
    Sorting.Sort(Recorded(entries, rules.allowed, sha), (a: Item, b: Item) => Less(a.path, b.path))
  }

  predicate CleanBelow(entries: seq<Entry>, root: string, rules: Rules, version: string) {
    forall i :: 0 <= i < |entries| && Below(entries[i], root) ==> CleanEntry(rules, version, entries[i])
  }

  predicate CleanRoot(entries: seq<Entry>, root: string, rules: Rules, version: string) {
    RootExists(entries, root) ==> RootIsDirectory(entries, root) && CleanBelow(entries, root, rules, version)
  }

  predicate CleanScan(entries: seq<Entry>, rules: Rules, version: string) {
    forall i :: 0 <= i < |rules.allowed| ==> CleanRoot(entries, rules.allowed[i], rules, version)
  }

  /** `validate_allowed_version_path` */
  method CheckVersion(rules: Rules, parts: seq<string>, version: string) returns (failures: seq<string>)
    ensures failures == [] <==> InVersion(rules, parts, version)
  {
    failures := [];
    if parts == [] {
      failures := ["empty evidence path"];
    } else if parts[0] !in rules.allowed {
      failures := ["top-level directory is not allowed in operator evidence ingress"];
    } else if |parts| < 2 || parts[1] != version {
      failures := ["evidence path must be scoped to the version"];
    }
  }

  method ScanRoot(entries: seq<Entry>, root: string, rules: Rules, version: string, sha: Bytes -> string)
      returns (records: seq<Item>, failures: seq<string>)
    ensures records == RecordsBelow(entries, root, sha)
    ensures failures == [] <==> CleanBelow(entries, root, rules, version)
  {
    hide RoleFor, InVersion;
    records, failures := [], [];
    for i := 0 to |entries|
      invariant records == RecordsBelow(entries[..i], root, sha)
      invariant failures == [] <==> CleanBelow(entries[..i], root, rules, version)
    {
      assert entries[..i + 1][..i] == entries[..i];
      var e := entries[i];
      if |e.parts| < 2 || e.parts[0] != root || e.node.Directory? {
        continue;
      }
      if e.node.Symlink? {
        failures := failures + ["symlinks are not allowed"];
        continue;
      }
      var bad := CheckVersion(rules, e.parts, version);
      failures := failures + bad;
      if e.node.bytes == [] {
        failures := failures + ["evidence file must be non-empty"];
        continue;
      }
      records := records + [Item("operator-evidence", RoleFor(e.parts), PosixPath.Join(e.parts), |e.node.bytes|, sha(e.node.bytes))];
    }
    assert entries[..|entries|] == entries;
  }

  /** `scan_evidence_files` */
  method ScanEvidenceFiles(entries: seq<Entry>, rules: Rules, version: string, sha: Bytes -> string)
      returns (records: seq<Item>, failures: seq<string>)
    ensures records == Scanned(entries, rules, sha)
    ensures failures == [] <==> CleanScan(entries, rules, version)
  {
    hide CleanBelow, RecordsBelow, NodeAt;
    var found: seq<Item> := [];
    failures := [];
    var roots := rules.allowed;
    for i := 0 to |roots|
      invariant found == Recorded(entries, roots[..i], sha)
      invariant failures == [] <==> forall k :: 0 <= k < i ==> CleanRoot(entries, roots[k], rules, version)
    {
      assert roots[..i + 1][..i] == roots[..i];
      var node := NodeAt(entries, [roots[i]]);
      if node.None? || (node.value.Symlink? && node.value.dangling) {
        continue;
      }
      if !node.value.Directory? {
        failures := failures + ["must be a directory and must not be a symlink"];
        continue;
      }
      var more, bad := ScanRoot(entries, roots[i], rules, version, sha);
      found := found + more;
      failures := failures + bad;
    }
    assert roots[..|roots|] == roots;
    records := Sorting.Sort(found, (a: Item, b: Item) => Less(a.path, b.path));
  }

  lemma DirectoryExists(entries: seq<Entry>, root: string)
    ensures RootIsDirectory(entries, root) ==> RootExists(entries, root)
  {
  }

  // ---------------------------------------------------------------- the manifest

  /** The header: what the model keeps of it are the window, the producer's fields, and whether the version, source, run
      and bundle fields are of the demanded form and the expected ones. */
  datatype Head = Head(version: string, wellFormed: bool, producer: seq<string>, generated: int, expires: int)

  datatype Manifest = Manifest(head: Head, required: set<string>, files: seq<Item>)

  /** Time and place of a validation; the preflight context lifts the ban on forbidden roots. */
  datatype Context = Context(now: int, preflight: bool)

  predicate HeadIsGood(head: Head, now: int) {
    head.wellFormed && (forall i :: 0 <= i < |head.producer| ==> head.producer[i] != []) && head.generated < head.expires && now < head.expires
  }

  predicate SafeRel(path: string) {
    PosixPath.IsSafe(path)
  }

  predicate CarriesSchema(bytes: Bytes, schema: Option<string>) {
    schema.Some? ==>
      var payload := AttestationRecord.ReadJson(bytes);
      payload.Some? && Json.TextAt(payload.value, "schema_version") == schema
  }

  /** The item is what the tree holds at its path. */
  predicate ItemIsTrue(entries: seq<Entry>, rules: Rules, version: string, item: Item, sha: Bytes -> string) {
    var parts := PosixPath.Parts(item.path);
    var bytes := BytesAt(entries, parts);
    && InVersion(rules, parts, version) && item.role == RoleFor(parts) && item.bytes > 0 && IsRealSha256(item.sha256)
    && bytes.Some? && bytes.value != [] && |bytes.value| == item.bytes && sha(bytes.value) == item.sha256
    && CarriesSchema(bytes.value, rules.schema(parts))
  }

  predicate GoodItem(entries: seq<Entry>, rules: Rules, version: string, item: Item, sha: Bytes -> string) {
    item.source == "operator-evidence" && SafeRel(item.path) && ItemIsTrue(entries, rules, version, item, sha)
  }

  function PathsOf(items: seq<Item>): set<string> {
    set item | item in items && SafeRel(item.path) :: PosixPath.AsPosix(item.path)
  }

  function RawPaths(items: seq<Item>): set<string> {
    set item | item in items :: item.path
  }

  predicate DistinctPaths(items: seq<Item>) {
    forall i, j :: 0 <= i < j < |items| && SafeRel(items[i].path) && SafeRel(items[j].path) ==>
      PosixPath.AsPosix(items[i].path) != PosixPath.AsPosix(items[j].path)
  }

  predicate GoodItems(entries: seq<Entry>, rules: Rules, version: string, items: seq<Item>, sha: Bytes -> string) {
    (forall i :: 0 <= i < |items| ==> GoodItem(entries, rules, version, items[i], sha)) && DistinctPaths(items)
  }

  predicate NothingForbidden(entries: seq<Entry>, rules: Rules, version: string, context: Context) {
    context.preflight
    || ((forall i :: 0 <= i < |rules.forbidden| && rules.forbidden[i] != "release-ingress" ==> !RootExists(entries, rules.forbidden[i]))
        && !Exists(NodeAt(entries, ["release-ingress", version, "ingress-manifest.json"])))
  }

  predicate Accepted(m: Manifest, entries: seq<Entry>, rules: Rules, context: Context, sha: Bytes -> string) {
    && HeadIsGood(m.head, context.now) && m.files != [] && GoodItems(entries, rules, m.head.version, m.files, sha)
    && m.required == rules.required && rules.required <= PathsOf(m.files)
    && CleanScan(entries, rules, m.head.version) && PathsOf(Scanned(entries, rules, sha)) == PathsOf(m.files)
    && NothingForbidden(entries, rules, m.head.version, context)
    && rules.required <= RawPaths(m.files) && rules.core(entries)
  }

  method CheckSchema(bytes: Bytes, schema: Option<string>) returns (failures: seq<string>)
    ensures failures == [] <==> CarriesSchema(bytes, schema)
  {
    hide AttestationRecord.ReadJson, Json.TextAt;
    failures := [];
    if schema.Some? {
      var payload := AttestationRecord.ReadJson(bytes);
      if payload.None? || Json.TextAt(payload.value, "schema_version") != schema {
        failures := ["schema_version does not match"];
      }
    }
  }

  /** The file of the tree against the item's size and digest. */
  method CheckFile(node: Option<Node>, item: Item, sha: Bytes -> string) returns (failures: seq<string>)
    ensures failures == [] <==> node.Some? && node.value.Regular? && node.value.bytes != [] && |node.value.bytes| == item.bytes
                                && sha(node.value.bytes) == item.sha256
  {
    if node.None? || !node.value.Regular? || node.value.bytes == [] {
      return ["referenced evidence file is missing or empty"];
    }
    failures := if |node.value.bytes| == item.bytes then [] else ["bytes does not match referenced file"];
    if sha(node.value.bytes) != item.sha256 {
      failures := failures + ["sha256 does not match referenced file"];
    }
  }

  /** The checks on one item with a safe path. */
  method CheckItem(entries: seq<Entry>, rules: Rules, version: string, item: Item, sha: Bytes -> string) returns (failures: seq<string>)
    ensures failures == [] <==> ItemIsTrue(entries, rules, version, item, sha)
  {
    hide PosixPath.Parts, RoleFor, NodeAt, InVersion, IsRealSha256, CarriesSchema;
    var parts := PosixPath.Parts(item.path);
    failures := CheckVersion(rules, parts, version);
    if item.role != RoleFor(parts) {
      failures := failures + ["role does not match evidence path role"];
    }
    if item.bytes <= 0 || !IsRealSha256(item.sha256) {
      failures := failures + ["bytes or sha256 is malformed"];
    }
    var node := NodeAt(entries, parts);
    var more := CheckFile(node, item, sha);
    failures := failures + more;
    if node.Some? && node.value.Regular? {
      more := CheckSchema(node.value.bytes, rules.schema(parts));
      failures := failures + more;
    }
  }

  method ValidateItems(entries: seq<Entry>, rules: Rules, version: string, items: seq<Item>, sha: Bytes -> string)
      returns (seen: set<string>, failures: seq<string>)
    ensures seen == PathsOf(items)
    ensures failures == [] <==> GoodItems(entries, rules, version, items, sha)
  {
    hide ItemIsTrue, PosixPath.IsSafe, PosixPath.AsPosix;
    seen, failures := {}, [];
    for i := 0 to |items|
      invariant seen == PathsOf(items[..i])
      invariant failures == [] <==> GoodItems(entries, rules, version, items[..i], sha)
    {
      assert items[..i + 1] == items[..i] + [items[i]];
      GoodItemsStep(entries, rules, version, items[..i], items[i], sha);
      if items[i].source != "operator-evidence" {
        failures := failures + ["source must be operator-evidence"];
      }
      if !PosixPath.IsSafe(items[i].path) {
        failures := failures + ["path must be relative and must not contain '..'"];
        continue;
      }
      if PosixPath.AsPosix(items[i].path) in seen {
        failures := failures + ["path must be unique"];
      }
      seen := seen + {PosixPath.AsPosix(items[i].path)};
      var more := CheckItem(entries, rules, version, items[i], sha);
      failures := failures + more;
    }
    assert items[..|items|] == items;
  }

  lemma GoodItemsStep(entries: seq<Entry>, rules: Rules, version: string, front: seq<Item>, item: Item, sha: Bytes -> string)
    ensures GoodItems(entries, rules, version, front + [item], sha) <==>
            && GoodItems(entries, rules, version, front, sha) && GoodItem(entries, rules, version, item, sha)
            && PosixPath.AsPosix(item.path) !in PathsOf(front)
    ensures PathsOf(front + [item]) == PathsOf(front) + if SafeRel(item.path) then {PosixPath.AsPosix(item.path)} else {}
  {
    hide SafeRel, ItemIsTrue, PosixPath.AsPosix;
    var all := front + [item];
    assert all[|front|] == item;
    assert forall i :: 0 <= i < |front| ==> all[i] == front[i] && front[i] in front;
  }

  method CheckHead(head: Head, now: int) returns (failures: seq<string>)
    ensures failures == [] <==> HeadIsGood(head, now)
  {
    failures := if head.wellFormed then [] else ["$.head"];
    if head.expires <= head.generated {
      failures := failures + ["$.expires_at: must be after generated_at"];
    }
    if head.expires <= now {
      failures := failures + ["$.expires_at: evidence ingress manifest has expired"];
    }
    for i := 0 to |head.producer|
      invariant failures == [] <==> HeadIsGood(head.(producer := head.producer[..i]), now)
    {
      if |head.producer[i]| == 0 {
        failures := failures + ["$.producer: must be non-empty strings"];
      }
    }
    assert head.producer[..|head.producer|] == head.producer;
  }

  method CheckForbidden(entries: seq<Entry>, rules: Rules, version: string, context: Context) returns (failures: seq<string>)
    ensures failures == [] <==> NothingForbidden(entries, rules, version, context)
  {
    hide NodeAt;
    failures := [];
    if context.preflight {
      return;
    }
    for i := 0 to |rules.forbidden|
      invariant failures == [] <==>
                forall k :: 0 <= k < i && rules.forbidden[k] != "release-ingress" ==> !RootExists(entries, rules.forbidden[k])
    {
      var root := NodeAt(entries, [rules.forbidden[i]]);
      if rules.forbidden[i] != "release-ingress" && root.Some? && (root.value.Symlink? ==> !root.value.dangling) {
        failures := failures + ["must not be supplied through operator evidence ingress"];
      }
    }
    var manifest := NodeAt(entries, ["release-ingress", version, "ingress-manifest.json"]);
    if manifest.Some? && (manifest.value.Symlink? ==> !manifest.value.dangling) {
      failures := failures + ["release ingress manifest must not be supplied"];
    }
  }

  /** `validate_manifest` with an input root; the signature is checked elsewhere. */
  method ValidateManifest(m: Manifest, entries: seq<Entry>, rules: Rules, context: Context, sha: Bytes -> string)
      returns (failures: seq<string>)
    ensures failures == [] <==> Accepted(m, entries, rules, context, sha)
  {
    hide HeadIsGood, GoodItems, CleanScan, Scanned, PathsOf, RawPaths, NothingForbidden;
    failures := CheckHead(m.head, context.now);
    if m.files == [] {
      failures := failures + ["$.files: must be a non-empty list"];
    }
    var seen, more := ValidateItems(entries, rules, m.head.version, m.files, sha);
    failures := failures + more;
    if m.required != rules.required {
      failures := failures + ["$.required_paths: must match the contract"];
    }
    if !(rules.required <= seen) {
      failures := failures + ["missing required file records"];
    }
    var scanned, bad := ScanEvidenceFiles(entries, rules, m.head.version, sha);
    failures := failures + bad;
    if PathsOf(scanned) != seen {
      failures := failures + ["manifest and artifact list different files"];
    }
    var forbidden := CheckForbidden(entries, rules, m.head.version, context);
    failures := failures + forbidden;
    if !(rules.required <= RawPaths(m.files)) || !rules.core(entries) {
      failures := failures + ["core files"];
    }
  }

  /** The manifest of the tree is made without a failure. */
  predicate CreatesCleanly(head: Head, entries: seq<Entry>, rules: Rules, sha: Bytes -> string) {
    && head.wellFormed && CleanScan(entries, rules, head.version)
    && rules.required <= RawPaths(Scanned(entries, rules, sha)) && rules.core(entries)
  }

  /** `create_manifest` */
  method CreateManifest(head: Head, entries: seq<Entry>, rules: Rules, sha: Bytes -> string) returns (m: Manifest, failures: seq<string>)
    ensures m == Manifest(head, rules.required, Scanned(entries, rules, sha))
    ensures failures == [] <==> CreatesCleanly(head, entries, rules, sha)
  {
    hide CleanScan, Scanned, RawPaths;
    failures := if head.wellFormed then [] else ["$.head"];
    var files, bad := ScanEvidenceFiles(entries, rules, head.version, sha);
    failures := failures + bad;
    if !(rules.required <= RawPaths(files)) || !rules.core(entries) {
      failures := failures + ["core files"];
    }
    m := Manifest(head, rules.required, files);
  }
}

/** The two lists of required build files: the image-build contract's and the release binding's. */
module BuildFiles {
  import opened PyText
  import opened Hashing
  import opened EvidenceGraph
  import PosixPath

  // ---------------------------------------------------------------- the matrix and what it wants

  datatype Row = Row(name: string, target: string, release: bool, artifacts: seq<string>, prebuild: bool)

  datatype Kind = Image | Log | Installer

  /** One file: who owns it (a defconfig, or `installer-` and an architecture), for which target, under which name. */
  datatype Want = Want(kind: Kind, owner: string, target: string, artifact: string)

  type Key = (string, string, string)

  function KeyOf(w: Want): Key {
    (w.owner, w.target, w.artifact)
  }

  /** The paths at which a wanted file is looked for, in order. */
  function Candidates(w: Want): seq<string> {
    match w.kind
    case Image => [w.owner + "-image" + "/" + w.artifact]
    case Log => [w.owner + "-build-logs" + "/" + w.artifact, w.owner + "-build-logs" + "/" + PosixPath.Name(w.artifact)]
    case Installer => [w.owner + "/" + w.artifact]
  }

  /** The first candidate that is a file. */
  function Found(tree: Tree, paths: seq<string>): Option<string> {
    if paths == [] then None else if FileAt(tree, paths[0]).Some? then Some(paths[0]) else Found(tree, paths[1..])
  }

  function ImageWants(row: Row): (r: seq<Want>)
    ensures |r| == |row.artifacts|
    ensures forall i :: 0 <= i < |r| ==> r[i] == Want(Image, row.name, row.target, row.artifacts[i])
  {
    seq(|row.artifacts|, i requires 0 <= i < |row.artifacts| => Want(Image, row.name, row.target, row.artifacts[i]))
  }

  function LogWant(row: Row, suffix: string): Want {
    Want(Log, row.name, row.target, "build-logs/" + row.name + suffix)
  }

  function LogWants(row: Row, suffixes: seq<string>): (r: seq<Want>)
    ensures |r| == |suffixes| && forall i :: 0 <= i < |r| ==> r[i] == LogWant(row, suffixes[i])
  {
    seq(|suffixes|, i requires 0 <= i < |suffixes| => LogWant(row, suffixes[i]))
  }

  /* Three lists of a defconfig's log files, kept apart as the three programs keep them: what the contract's validator
     expects, what its producer looks for, and what the binding's producer demands. */

  function ExpectedSuffixes(prebuild: bool): seq<string> {
    [".log", ".warnings.json", ".source-identity.json", ".build-time.log", ".build-performance.json"]
    + if prebuild then [".payload-inputs.json", ".payload-package.json", ".usb-installer-base.json"] else []
  }

  function CreatedSuffixes(): seq<string> {
    [".log", ".warnings.json", ".source-identity.json", ".build-time.log", ".build-performance.json",
     ".payload-inputs.json", ".payload-package.json", ".usb-installer-base.json"]
  }

  function DemandedSuffixes(prebuild: bool): seq<string> {
    var always := [".log", ".warnings.json", ".source-identity.json", ".build-time.log", ".build-performance.json"];
    if prebuild then always + [".payload-inputs.json", ".payload-package.json", ".usb-installer-base.json"] else always
  }

  function InstallerWant(arch: string, suffix: string): Want {
    Want(Installer, "installer-" + arch, arch, "suderra-installer-" + arch + suffix)
  }

  /* The installers, again once for each program. */

  function ExpectedInstallers(): seq<Want> {
    [InstallerWant("x86_64", ""), InstallerWant("x86_64", ".sha256"), InstallerWant("aarch64", ""), InstallerWant("aarch64", ".sha256")]
  }

  function CreatedInstallers(): seq<Want> {
    [InstallerWant("x86_64", ""), InstallerWant("x86_64", ".sha256"), InstallerWant("aarch64", ""), InstallerWant("aarch64", ".sha256")]
  }

  function DemandedInstallers(): seq<Want> {
    [InstallerWant("x86_64", ""), InstallerWant("x86_64", ".sha256"), InstallerWant("aarch64", ""), InstallerWant("aarch64", ".sha256")]
  }

  /** What the contract's validator requires of a row; what its producer lists of it where it is there. */
  function RowRequires(row: Row): seq<Want> {
    if row.release then ImageWants(row) + LogWants(row, ExpectedSuffixes(row.prebuild)) else []
  }

  function RowLists(row: Row): seq<Want> {
    if row.release then ImageWants(row) + LogWants(row, CreatedSuffixes()) else []
  }

  function AllRequired(rows: seq<Row>): seq<Want> {
    if rows == [] then [] else AllRequired(rows[..|rows| - 1]) + RowRequires(rows[|rows| - 1])
  }

  function AllListed(rows: seq<Row>): seq<Want> {
    if rows == [] then [] else AllListed(rows[..|rows| - 1]) + RowLists(rows[|rows| - 1])
  }

  function Required(rows: seq<Row>): seq<Want> {
    AllRequired(rows) + ExpectedInstallers()
  }

  function ListedWants(rows: seq<Row>): seq<Want> {
    AllListed(rows) + CreatedInstallers()
  }

  function Keys(wants: seq<Want>): set<Key> {
    set w | w in wants :: KeyOf(w)
  }

  // ---------------------------------------------------------------- the contract's producer

  /** An entry of the contract; a missing field is None. */
  datatype Record = Record(path: string, bytes: nat, sha256: string, defconfig: Option<string>, target: Option<string>,
                           arch: Option<string>, artifact: string)

  function RecordOf(tree: Tree, w: Want, path: string, sha: Bytes -> string): Record
    requires FileAt(tree, path).Some?
  {
    var b := FileAt(tree, path).value;
    if w.kind == Installer then Record(PosixPath.AsPosix(path), |b|, sha(b), None, None, Some(w.target), w.artifact)
    else Record(PosixPath.AsPosix(path), |b|, sha(b), Some(w.owner), Some(w.target), None, w.artifact)
  }

  lemma {:induction false} FoundIsFile(tree: Tree, paths: seq<string>)
    ensures Found(tree, paths).Some? ==> Found(tree, paths).value in paths && FileAt(tree, Found(tree, paths).value).Some?
  {
    hide FileAt;
    if paths != [] && FileAt(tree, paths[0]).None? {
      FoundIsFile(tree, paths[1..]);
    }
  }

  /** The file a want stands for, where there is one. */
  function FileOf(tree: Tree, w: Want): (r: Option<(string, Bytes)>)
    ensures r.Some? <==> Found(tree, Candidates(w)).Some?
    ensures r.Some? ==> FileAt(tree, r.value.0) == Some(r.value.1) && r.value.0 in Candidates(w)
  {
    FoundIsFile(tree, Candidates(w));
    var path := Found(tree, Candidates(w));
    if path.None? then None else Some((path.value, FileAt(tree, path.value).value))
  }

  function RecordsOf(tree: Tree, wants: seq<Want>, sha: Bytes -> string): seq<Record> {
    if wants == [] then []
    else
      RecordsOf(tree, wants[..|wants| - 1], sha) + RecordFor(tree, wants[|wants| - 1], sha)
  }

  /** The entry for a file, where it is there. */
  function RecordFor(tree: Tree, w: Want, sha: Bytes -> string): seq<Record> {
    if FileOf(tree, w).Some? then [RecordOf(tree, w, FileOf(tree, w).value.0, sha)] else []
  }

  predicate IsEmptyFile(tree: Tree, w: Want) {
    FileOf(tree, w).Some? && FileOf(tree, w).value.1 == []
  }

  predicate IsMissing(tree: Tree, w: Want) {
    FileOf(tree, w).None?
  }

  predicate NoneEmpty(tree: Tree, wants: seq<Want>) {
    forall i :: 0 <= i < |wants| ==> !IsEmptyFile(tree, wants[i])
  }

  lemma FoundOfTwo(tree: Tree, a: string, b: string)
    ensures Found(tree, [a]) == if FileAt(tree, a).Some? then Some(a) else None
    ensures Found(tree, [a, b]) == if FileAt(tree, a).Some? then Some(a) else if FileAt(tree, b).Some? then Some(b) else None
  {
    hide FileAt;
    assert [a][1..] == [] && [a, b][1..] == [b] && [b][1..] == [];
  }

  /** The file at the first of at most two paths, the second that of the log file without its directory. */
  method Locate(tree: Tree, w: Want) returns (r: Option<(string, Bytes)>)
    ensures r == FileOf(tree, w)
  {
    hide FileAt, PosixPath.Name, Found;
    var dir := match w.kind
      case Image => w.owner + "-image"
      case Log => w.owner + "-build-logs"
      case Installer => w.owner;
    var path := dir + "/" + w.artifact;
    FoundOfTwo(tree, path, dir + "/" + PosixPath.Name(w.artifact));
    var file := FileAt(tree, path);
    if file.None? && w.kind.Log? {
      path := dir + "/" + PosixPath.Name(w.artifact);
      file := FileAt(tree, path);
    }
    r := if file.Some? then Some((path, file.value)) else None;
  }

  /** `record`, its path normal; installers go by their architecture. */
  method MakeRecord(tree: Tree, w: Want, path: string, bytes: Bytes, sha: Bytes -> string) returns (r: Record)
    requires FileAt(tree, path) == Some(bytes)
    ensures r == RecordOf(tree, w, path, sha)
  {
    hide FileAt, PosixPath.AsPosix;
    r := Record(PosixPath.AsPosix(path), |bytes|, sha(bytes), None, None, None, w.artifact);
    match w.kind
    case Installer => r := r.(arch := Some(w.target));
    case _ => r := r.(defconfig := Some(w.owner), target := Some(w.target));
  }

  /** `record` of every file that is there; an empty one raises. */
  method Records(tree: Tree, wants: seq<Want>, sha: Bytes -> string) returns (r: Result<seq<Record>, string>)
    ensures r.Ok? <==> NoneEmpty(tree, wants)
    ensures r.Ok? ==> r.value == RecordsOf(tree, wants, sha)
  {
    hide RecordOf, FileAt, Candidates, Found;
    var files: seq<Record> := [];
    for i := 0 to |wants|
      invariant NoneEmpty(tree, wants[..i]) && files == RecordsOf(tree, wants[..i], sha)
    {
      assert wants[..i + 1][..i] == wants[..i];
      var file := Locate(tree, wants[i]);
      if file.None? {
        continue;
      }
      if |file.value.1| == 0 {
        return Err(wants[i].artifact);
      }
      var r := MakeRecord(tree, wants[i], file.value.0, file.value.1, sha);
      files := files + [r];
    }
    assert wants[..|wants|] == wants;
    return Ok(files);
  }

  lemma {:induction false} RecordsConcat(tree: Tree, a: seq<Want>, b: seq<Want>, sha: Bytes -> string)
    ensures RecordsOf(tree, a + b, sha) == RecordsOf(tree, a, sha) + RecordsOf(tree, b, sha)
    decreases |b|
  {
    hide RecordFor;
    if b == [] {
      assert a + b == a;
    } else {
      var all := a + b;
      assert all[|all| - 1] == b[|b| - 1];
      assert all[..|all| - 1] == a + b[..|b| - 1];
      RecordsConcat(tree, a, b[..|b| - 1], sha);
    }
  }

  /** The files of the contract; None where an empty file makes `create` raise. */
  function Created(tree: Tree, rows: seq<Row>, sha: Bytes -> string): Option<seq<Record>> {
    if NoneEmpty(tree, ListedWants(rows)) then Some(RecordsOf(tree, ListedWants(rows), sha)) else None
  }

  /** `create`, up to the final sort and the header fields. */
  method Create(tree: Tree, rows: seq<Row>, sha: Bytes -> string) returns (r: Result<seq<Record>, string>)
    ensures r.Ok? <==> Created(tree, rows, sha).Some?
    ensures r.Ok? ==> r.value == Created(tree, rows, sha).value
  {
    hide IsEmptyFile, RecordsOf, RowLists, CreatedInstallers;
    var files: seq<Record> := [];
    RecordsOfNothing(tree, sha);
    for i := 0 to |rows|
      invariant NoneEmpty(tree, AllListed(rows[..i])) && files == RecordsOf(tree, AllListed(rows[..i]), sha)
    {
      assert rows[..i + 1][..i] == rows[..i];
      var wants := RowLists(rows[i]);
      var more := Records(tree, wants, sha);
      RecordsConcat(tree, AllListed(rows[..i]), wants, sha);
      NoneEmptyConcat(tree, AllListed(rows[..i]), wants);
      if more.Err? {
        ghost var before := AllListed(rows[..i + 1]);
        ListedGrows(tree, rows, i + 1);
        NoneEmptyConcat(tree, AllListed(rows), CreatedInstallers());
        return Err(more.error);
      }
      files := files + more.value;
    }
    assert rows[..|rows|] == rows;
    RecordsConcat(tree, AllListed(rows), CreatedInstallers(), sha);
    NoneEmptyConcat(tree, AllListed(rows), CreatedInstallers());
    var more := Records(tree, CreatedInstallers(), sha);
    if more.Err? {
      return Err(more.error);
    }
    return Ok(files + more.value);
  }

  lemma RecordsOfNothing(tree: Tree, sha: Bytes -> string)
    ensures RecordsOf(tree, [], sha) == []
  {
  }

  lemma NoneEmptyConcat(tree: Tree, a: seq<Want>, b: seq<Want>)
    ensures NoneEmpty(tree, a + b) <==> NoneEmpty(tree, a) && NoneEmpty(tree, b)
  {
    hide IsEmptyFile;
    var all := a + b;
    assert forall i :: 0 <= i < |a| ==> all[i] == a[i];
    assert forall i :: 0 <= i < |b| ==> all[|a| + i] == b[i];
  }

  lemma {:induction false} ListedGrows(tree: Tree, rows: seq<Row>, k: nat)
    requires k <= |rows| && !NoneEmpty(tree, AllListed(rows[..k]))
    ensures !NoneEmpty(tree, AllListed(rows))
    decreases |rows|
  {
    hide RowLists, NoneEmpty;
    if k < |rows| {
      var front := rows[..|rows| - 1];
      assert front[..k] == rows[..k];
      ListedGrows(tree, front, k);
      NoneEmptyConcat(tree, AllListed(front), RowLists(rows[|rows| - 1]));
    } else {
      assert rows[..k] == rows;
    }
  }

  // ---------------------------------------------------------------- the contract's validator

  /** The key under which the validator counts an entry. */
  function SeenKey(r: Record): Option<Key> {
    var owner := if r.defconfig.Some? && r.defconfig.value != [] then r.defconfig.value
                 else "installer-" + if r.arch.Some? then r.arch.value else "None";
    var target := if r.target.Some? && r.target.value != [] then r.target else r.arch;
    if target.Some? then Some((owner, target.value, r.artifact)) else None
  }

  predicate RelativeTo(path: string) {
    !("/" <= path) && ".." !in PosixPath.Parts(path)
  }

  /** The entry names a file of the tree and its digest. */
  predicate GoodRecord(tree: Tree, r: Record, sha: Bytes -> string) {
    IsSha256(r.sha256) && RelativeTo(r.path) && FileAt(tree, r.path).Some? && sha(FileAt(tree, r.path).value) == r.sha256
  }

  function SeenKeys(records: seq<Record>): set<Key> {
    set r | r in records && RelativeTo(r.path) && SeenKey(r).Some? :: SeenKey(r).value
  }

  predicate ContractValid(tree: Tree, rows: seq<Row>, records: seq<Record>, sha: Bytes -> string) {
    && records != [] && (forall i :: 0 <= i < |records| ==> GoodRecord(tree, records[i], sha))
    && Keys(Required(rows)) <= SeenKeys(records)
  }

  /** `expected_contract_keys` */
  method ExpectedContractKeys(rows: seq<Row>) returns (expected: set<Key>)
    ensures expected == Keys(Required(rows))
  {
    hide RowRequires, ExpectedInstallers;
    expected := {};
    for i := 0 to |rows|
      invariant expected == Keys(AllRequired(rows[..i]))
    {
      assert rows[..i + 1][..i] == rows[..i];
      KeysConcat(AllRequired(rows[..i]), RowRequires(rows[i]));
      var wants := RowRequires(rows[i]);
      ghost var before := expected;
      for j := 0 to |wants|
        invariant expected == before + Keys(wants[..j])
      {
        assert wants[..j + 1] == wants[..j] + [wants[j]];
        KeysConcat(wants[..j], [wants[j]]);
        expected := expected + {(wants[j].owner, wants[j].target, wants[j].artifact)};
      }
      assert wants[..|wants|] == wants;
    }
    assert rows[..|rows|] == rows;
    KeysConcat(AllRequired(rows), ExpectedInstallers());
    expected := expected + Keys(ExpectedInstallers());
  }

  lemma KeysConcat(a: seq<Want>, b: seq<Want>)
    ensures Keys(a + b) == Keys(a) + Keys(b)
    ensures forall w :: Keys([w]) == {KeyOf(w)}
  {
    hide KeyOf;
    assert forall w :: w in a + b <==> w in a || w in b;
    forall w
      ensures Keys([w]) == {KeyOf(w)}
    {
      assert [w][0] in [w];
    }
  }

  lemma DifferenceIsEmpty(a: set<Key>, b: set<Key>)
    ensures a - b == {} <==> a <= b
  {
    forall k | k in a && a - b == {}
      ensures k in b
    {
      assert k !in a - b;
    }
  }

  /** `item.get("defconfig") or ...` and `item.get("target") or item.get("arch")`: an empty text is as good as none. */
  method Seen(r: Record) returns (key: Option<Key>)
    ensures key == SeenKey(r)
  {
    assert "installer-" + "None" == "installer-None";
    var owner := "installer-None";
    if r.defconfig.Some? && |r.defconfig.value| > 0 {
      owner := r.defconfig.value;
    } else if r.arch.Some? {
      owner := "installer-" + r.arch.value;
    }
    key := None;
    if r.target.Some? && |r.target.value| > 0 {
      key := Some((owner, r.target.value, r.artifact));
    } else if r.arch.Some? {
      key := Some((owner, r.arch.value, r.artifact));
    }
  }

  /** `validate` on an artifact root, its header checks passed. */
  method Validate(tree: Tree, rows: seq<Row>, records: seq<Record>, sha: Bytes -> string) returns (failures: seq<string>)
    ensures failures == [] <==> ContractValid(tree, rows, records, sha)
  {
    hide Required, IsSha256, FileAt, PosixPath.Parts;
    failures := if records == [] then ["files must be a non-empty list"] else [];
    var seen: set<Key> := {};
    for i := 0 to |records|
      invariant failures == [] <==> records != [] && forall k :: 0 <= k < i ==> GoodRecord(tree, records[k], sha)
      invariant seen == SeenKeys(records[..i])
    {
      assert records[..i + 1] == records[..i] + [records[i]];
      var r := records[i];
      if !IsSha256(r.sha256) {
        failures := failures + ["invalid file sha256"];
      }
      if (|r.path| > 0 && r.path[0] == '/') || ".." in PosixPath.Parts(r.path) {
        failures := failures + ["invalid file path"];
        continue;
      }
      var key := Seen(r);
      if key.Some? {
        seen := seen + {key.value};
      }
      var file := FileAt(tree, r.path);
      if file.None? {
        failures := failures + ["contract file missing"];
      } else if IsSha256(r.sha256) && sha(file.value) != r.sha256 {
        failures := failures + ["contract file sha mismatch"];
      }
    }
    assert records[..|records|] == records;
    var required := ExpectedContractKeys(rows);
    DifferenceIsEmpty(required, seen);
    if required - seen != {} {
      failures := failures + ["contract missing required files"];
    }
  }

  // ---------------------------------------------------------------- the binding's producers

  /** One of `artifact_entries`, `build_evidence_entries` and `installer_entries`, on what it wants: an entry for each
      file that is there, an error for each that is not. */
  method Entries(tree: Tree, wants: seq<Want>, sha: Bytes -> string) returns (entries: seq<Record>, errors: seq<string>)
    ensures entries == RecordsOf(tree, wants, sha)
    ensures errors == [] <==> AllFound(tree, wants)
  {
    hide RecordOf, FileAt, Candidates, Found;
    entries, errors := [], [];
    for i := 0 to |wants|
      invariant entries == RecordsOf(tree, wants[..i], sha)
      invariant errors == [] <==> AllFound(tree, wants[..i])
    {
      assert wants[..i + 1][..i] == wants[..i];
      var file := Locate(tree, wants[i]);
      if file.None? {
        errors := errors + [wants[i].artifact];
        continue;
      }
      var r := MakeRecord(tree, wants[i], file.value.0, file.value.1, sha);
      entries := entries + [r];
    }
    assert wants[..|wants|] == wants;
  }

  predicate AllFound(tree: Tree, wants: seq<Want>) {
    forall i :: 0 <= i < |wants| ==> !IsMissing(tree, wants[i])
  }

  function AllImages(rows: seq<Row>): seq<Want> {
    if rows == [] then []
    else AllImages(rows[..|rows| - 1]) + if rows[|rows| - 1].release then ImageWants(rows[|rows| - 1]) else []
  }

  function AllLogs(rows: seq<Row>): seq<Want> {
    if rows == [] then []
    else AllLogs(rows[..|rows| - 1]) + if rows[|rows| - 1].release then LogWants(rows[|rows| - 1], DemandedSuffixes(rows[|rows| - 1].prebuild)) else []
  }

  /** None of the three producers reports a missing file. */
  predicate ProducersAreSatisfied(tree: Tree, rows: seq<Row>) {
    AllFound(tree, AllImages(rows)) && AllFound(tree, AllLogs(rows)) && AllFound(tree, DemandedInstallers())
  }
}

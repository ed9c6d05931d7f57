/** The image-build contract and the release binding demand the same files, and the binding's validator takes what its
    producer lists. */
module BuildFilesAgree {
  import opened PyText
  import opened Hashing
  import opened EvidenceGraph
  import opened BuildFiles
  import PosixPath

  // ---------------------------------------------------------------- conditions on the matrix

  /** Names and artifacts as the matrix validator's patterns have them. */
  predicate PlainRow(row: Row) {
    && row.name != [] && PosixPath.Slashless(row.name) && row.target != []
    && forall i :: 0 <= i < |row.artifacts| ==> PosixPath.IsPart(row.artifacts[i]) && row.artifacts[i] != ".."
  }

  predicate PlainRows(rows: seq<Row>) {
    forall i :: 0 <= i < |rows| && rows[i].release ==> PlainRow(rows[i])
  }

  /** No image of a release row has an installer's name, target and artifact. */
  predicate NoInstallerKey(rows: seq<Row>) {
    forall w, v :: w in AllImages(rows) && v in ExpectedInstallers() ==> KeyOf(w) != KeyOf(v)
  }

  // ---------------------------------------------------------------- what is on the lists

  /** The binding's producer demands the logs the contract's validator expects, and the contract's producer looks for all
      of them. */
  lemma SuffixesAgree(prebuild: bool)
    ensures DemandedSuffixes(prebuild) == ExpectedSuffixes(prebuild)
    ensures ExpectedSuffixes(prebuild) <= CreatedSuffixes()
  {
  }

  /** The installers are the same for the three programs. */
  lemma InstallersAgree()
    ensures ExpectedInstallers() == CreatedInstallers() == DemandedInstallers()
  {
  }

  lemma RowListsCover(row: Row, w: Want)
    requires w in RowRequires(row)
    ensures w in RowLists(row)
  {
    hide ImageWants, LogWant, ExpectedSuffixes, CreatedSuffixes;
    SuffixesAgree(row.prebuild);
    var expected, listed := LogWants(row, ExpectedSuffixes(row.prebuild)), LogWants(row, CreatedSuffixes());
    if w in expected {
      var i :| 0 <= i < |expected| && expected[i] == w;
      assert ExpectedSuffixes(row.prebuild)[i] == CreatedSuffixes()[i];
      assert listed[i] == w;
    }
  }

  lemma {:induction false} ListedCovers(rows: seq<Row>)
    ensures forall w :: w in AllRequired(rows) ==> w in AllListed(rows)
  {
    hide RowRequires, RowLists;
    if rows != [] {
      var row := rows[|rows| - 1];
      ListedCovers(rows[..|rows| - 1]);
      forall w | w in RowRequires(row)
        ensures w in RowLists(row)
      {
        RowListsCover(row, w);
      }
    }
  }

  /** The binding's producers want what the contract requires. */
  lemma {:induction false} ProducersWant(rows: seq<Row>)
    ensures forall w :: w in AllRequired(rows) <==> w in AllImages(rows) || w in AllLogs(rows)
  {
    hide LogWants, ImageWants, ExpectedSuffixes, DemandedSuffixes;
    if rows != [] {
      ProducersWant(rows[..|rows| - 1]);
      SuffixesAgree(rows[|rows| - 1].prebuild);
    }
  }

  /** A row's image goes by a name without a slash, its log by one with a slash. */
  predicate RowWant(w: Want) {
    && w.owner != [] && PosixPath.Slashless(w.owner) && w.target != []
    && match w.kind {
         case Image => PosixPath.IsPart(w.artifact) && w.artifact != ".."
         case Log => !PosixPath.Slashless(w.artifact) && ".." !in PosixPath.Parts(w.artifact)
         case Installer => false
       }
  }

  lemma LogIsRowWant(row: Row, suffix: string)
    requires PlainRow(row) && PosixPath.Slashless(suffix) && |suffix| > 2
    ensures RowWant(LogWant(row, suffix))
  {
    var w, last := LogWant(row, suffix), row.name + suffix;
    assert w.artifact == "build-logs" + "/" + last;
    assert w.artifact[10] == '/' && w.artifact[10] in w.artifact;
    PosixPath.NameOfPart(last);
    PosixPath.PartsBelow("build-logs", last);
  }

  /** A log file is looked for below `build-logs` and then, without that directory, beside it. */
  lemma LogIsLocated(tree: Tree, row: Row, suffix: string)
    requires PlainRow(row) && PosixPath.Slashless(suffix) && |suffix| > 2
    ensures var dir, name := row.name + "-build-logs/", row.name + suffix;
            var nested, flat := dir + "build-logs/" + name, dir + name;
            FileOf(tree, LogWant(row, suffix)) ==
            if FileAt(tree, nested).Some? then Some((nested, FileAt(tree, nested).value))
            else if FileAt(tree, flat).Some? then Some((flat, FileAt(tree, flat).value))
            else None
  {
    var w, name := LogWant(row, suffix), row.name + suffix;
    assert w.artifact == "build-logs" + "/" + name;
    PosixPath.NameOfPart(name);
    PosixPath.PartsBelow("build-logs", name);
    assert PosixPath.Name(w.artifact) == name;
    var dir := row.name + "-build-logs/";
    var nested, flat := dir + "build-logs/" + name, dir + name;
    assert row.name + "-build-logs" + "/" + w.artifact == nested;
    assert row.name + "-build-logs" + "/" + name == flat;
    hide FileAt, PosixPath.Name, Found;
    FoundOfTwo(tree, nested, flat);
  }

  lemma CreatedSuffixesArePlain()
    ensures forall i :: 0 <= i < |CreatedSuffixes()| ==> |CreatedSuffixes()[i]| > 2 && PosixPath.Slashless(CreatedSuffixes()[i])
  {
  }

  lemma LogsAreRowWants(row: Row)
    requires PlainRow(row)
    ensures forall w :: w in LogWants(row, CreatedSuffixes()) ==> RowWant(w) && w.kind == Log
  {
    CreatedSuffixesArePlain();
    var suffixes := CreatedSuffixes();
    hide PlainRow, RowWant, CreatedSuffixes, PosixPath.Slashless;
    forall i | 0 <= i < |suffixes|
      ensures RowWant(LogWants(row, suffixes)[i]) && LogWants(row, suffixes)[i].kind == Log
    {
      LogIsRowWant(row, suffixes[i]);
    }
  }

  lemma ImagesAreRowWants(row: Row)
    requires PlainRow(row)
    ensures forall w :: w in ImageWants(row) ==> RowWant(w) && w.kind == Image
  {
  }

  /** What is listed of the rows, and that its images are those of the binding. */
  lemma {:induction false} ListedAreRowWants(rows: seq<Row>)
    requires PlainRows(rows)
    ensures forall w :: w in AllListed(rows) ==> RowWant(w) && (w.kind == Image ==> w in AllImages(rows))
    ensures forall w :: w in AllImages(rows) ==> w in AllListed(rows) && w.kind == Image
  {
    hide LogWants, CreatedSuffixes, ImageWants, RowWant, PlainRow;
    if rows != [] {
      ListedAreRowWants(rows[..|rows| - 1]);
      if rows[|rows| - 1].release {
        LogsAreRowWants(rows[|rows| - 1]);
        ImagesAreRowWants(rows[|rows| - 1]);
      }
    }
  }

  predicate InstallerShape(w: Want) {
    && w.kind == Installer && w.owner == "installer-" + w.target && (w.target == "x86_64" || w.target == "aarch64")
    && PosixPath.IsPart(w.artifact) && w.artifact != ".."
  }

  lemma InstallerHasShape(arch: string, suffix: string)
    requires (arch == "x86_64" || arch == "aarch64") && (suffix == [] || suffix == ".sha256")
    ensures InstallerShape(InstallerWant(arch, suffix))
  {
    assert PosixPath.Slashless("suderra-installer-");
  }

  lemma InstallersHaveShape()
    ensures forall w :: w in ExpectedInstallers() ==> InstallerShape(w)
  {
    hide InstallerWant, InstallerShape;
    InstallerHasShape("x86_64", "");
    InstallerHasShape("x86_64", ".sha256");
    InstallerHasShape("aarch64", "");
    InstallerHasShape("aarch64", ".sha256");
  }

  predicate IsWant(w: Want) {
    RowWant(w) || InstallerShape(w)
  }

  lemma ListedAreWants(rows: seq<Row>)
    requires PlainRows(rows)
    ensures forall w :: w in ListedWants(rows) ==> IsWant(w)
    ensures forall w :: w in Required(rows) ==> w in ListedWants(rows)
  {
    InstallersAgree();
    hide PlainRows, AllRequired, AllListed, ExpectedInstallers, CreatedInstallers, RowWant, InstallerShape;
    ListedAreRowWants(rows);
    InstallersHaveShape();
    ListedCovers(rows);
  }

  /** Two wanted files with one key are one file, unless one is an image of a release row and the other an installer. */
  lemma KeyDetermines(v: Want, w: Want)
    requires IsWant(v) && IsWant(w) && KeyOf(v) == KeyOf(w)
    ensures v == w || {v.kind, w.kind} == {Image, Installer}
  {
    hide PosixPath.Parts;
  }

  lemma NoTwoOfOneKey(rows: seq<Row>, v: Want, w: Want)
    requires PlainRows(rows) && NoInstallerKey(rows) && v in ListedWants(rows) && w in ListedWants(rows) && KeyOf(v) == KeyOf(w)
    ensures v == w
  {
    InstallersAgree();
    hide PlainRows, AllListed, AllImages, ExpectedInstallers, CreatedInstallers, RowWant, InstallerShape, AllRequired;
    ListedAreWants(rows);
    KeyDetermines(v, w);
    ImagesAndInstallers(rows, v);
    ImagesAndInstallers(rows, w);
  }

  lemma ImagesAndInstallers(rows: seq<Row>, w: Want)
    requires PlainRows(rows) && w in ListedWants(rows)
    ensures w.kind == Image ==> w in AllImages(rows)
    ensures w.kind == Installer ==> w in ExpectedInstallers()
  {
    InstallersAgree();
    hide PlainRows, AllListed, AllImages, ExpectedInstallers, CreatedInstallers;
    ListedAreRowWants(rows);
    InstallersHaveShape();
  }

  // ---------------------------------------------------------------- records

  lemma {:induction false} RecordsAre(tree: Tree, wants: seq<Want>, sha: Bytes -> string, r: Record)
    ensures r in RecordsOf(tree, wants, sha) <==> exists i :: 0 <= i < |wants| && r in RecordFor(tree, wants[i], sha)
  {
    hide RecordFor;
    if wants != [] {
      var front := wants[..|wants| - 1];
      RecordsAre(tree, front, sha, r);
      if i :| 0 <= i < |wants| && r in RecordFor(tree, wants[i], sha) {
        if i < |front| {
          assert front[i] == wants[i];
        }
      }
      if r in RecordsOf(tree, front, sha) {
        var i :| 0 <= i < |front| && r in RecordFor(tree, front[i], sha);
        assert wants[i] == front[i];
      }
    }
  }

  lemma RecordIsGood(tree: Tree, w: Want, sha: Bytes -> string, r: Record)
    requires IsDigest(sha) && IsWant(w) && r in RecordFor(tree, w, sha)
    ensures GoodRecord(tree, r, sha) && SeenKey(r) == Some(KeyOf(w)) && !IsMissing(tree, w)
  {
    var path, bytes := FileOf(tree, w).value.0, FileOf(tree, w).value.1;
    PosixPath.AsPosixNormal(path);
    PosixPath.AsPosixIsRelative(path);
    assert IsRealSha256(sha(bytes));
    hide FileOf, Candidates, PosixPath.AsPosix, PosixPath.Parts, PosixPath.Slashless;
  }

  lemma FoundHasRecord(tree: Tree, w: Want, sha: Bytes -> string)
    requires !IsMissing(tree, w)
    ensures RecordFor(tree, w, sha) != []
  {
  }

  /** Some file wanted under this key is there. */
  ghost predicate Held(tree: Tree, wants: seq<Want>, key: Key) {
    exists w :: w in wants && KeyOf(w) == key && !IsMissing(tree, w)
  }

  /** The keys the validator sees in a fresh contract are those of the files that are there. */
  lemma FreshKeys(tree: Tree, wants: seq<Want>, sha: Bytes -> string, key: Key)
    requires IsDigest(sha) && forall v :: v in wants ==> IsWant(v)
    ensures key in SeenKeys(RecordsOf(tree, wants, sha)) <==> Held(tree, wants, key)
  {
    hide IsDigest, IsWant, RecordFor, IsMissing, KeyOf, RecordsOf, SeenKey, RelativeTo;
    var records := RecordsOf(tree, wants, sha);
    if Held(tree, wants, key) {
      var w :| w in wants && KeyOf(w) == key && !IsMissing(tree, w);
      FoundHasRecord(tree, w, sha);
      var r := RecordFor(tree, w, sha)[0];
      var i :| 0 <= i < |wants| && wants[i] == w;
      RecordsAre(tree, wants, sha, r);
      RecordIsGood(tree, w, sha, r);
      assert r in records && RelativeTo(r.path) && SeenKey(r).Some?;
    }
    if key in SeenKeys(records) {
      var r :| r in records && RelativeTo(r.path) && SeenKey(r).Some? && SeenKey(r).value == key;
      RecordsAre(tree, wants, sha, r);
      var i :| 0 <= i < |wants| && r in RecordFor(tree, wants[i], sha);
      assert wants[i] in wants;
      RecordIsGood(tree, wants[i], sha, r);
    }
  }

  lemma FreshIsGood(tree: Tree, wants: seq<Want>, sha: Bytes -> string)
    requires IsDigest(sha) && (forall v :: v in wants ==> IsWant(v))
    ensures forall r :: r in RecordsOf(tree, wants, sha) ==> GoodRecord(tree, r, sha)
  {
    hide IsDigest, IsWant, RecordFor, RecordsOf, GoodRecord;
    forall r | r in RecordsOf(tree, wants, sha)
      ensures GoodRecord(tree, r, sha)
    {
      RecordsAre(tree, wants, sha, r);
      var k :| 0 <= k < |wants| && r in RecordFor(tree, wants[k], sha);
      assert wants[k] in wants;
      RecordIsGood(tree, wants[k], sha, r);
    }
  }

  lemma AllFoundByElements(tree: Tree, wants: seq<Want>)
    ensures AllFound(tree, wants) <==> forall w :: w in wants ==> !IsMissing(tree, w)
  {
    hide IsMissing;
    assert forall i :: 0 <= i < |wants| ==> wants[i] in wants;
  }

  lemma SatisfiedMeansFound(tree: Tree, rows: seq<Row>)
    ensures ProducersAreSatisfied(tree, rows) <==> forall w :: w in Required(rows) ==> !IsMissing(tree, w)
  {
    InstallersAgree();
    hide IsMissing, AllFound, AllRequired, AllImages, AllLogs, ExpectedInstallers, DemandedInstallers;
    ProducersWant(rows);
    AllFoundByElements(tree, AllImages(rows));
    AllFoundByElements(tree, AllLogs(rows));
    AllFoundByElements(tree, ExpectedInstallers());
  }

  /** What the contract's validator finds out on the tree the contract was made from: each required key is held by some
      file. */
  lemma ContractCountsKeys(tree: Tree, rows: seq<Row>, sha: Bytes -> string)
    requires PlainRows(rows) && IsDigest(sha) && Created(tree, rows, sha).Some?
    ensures ContractValid(tree, rows, Created(tree, rows, sha).value, sha) <==>
            forall w :: w in Required(rows) ==> Held(tree, ListedWants(rows), KeyOf(w))
  {
    hide PlainRows, IsDigest, Required, ListedWants, RecordsOf, GoodRecord, SeenKeys, Keys, KeyOf, IsWant, Held,
         NoneEmpty;
    var wants := ListedWants(rows);
    var records := RecordsOf(tree, wants, sha);
    ListedAreWants(rows);
    FreshIsGood(tree, wants, sha);
    assert forall i :: 0 <= i < |records| ==> records[i] in records;
    forall w | w in Required(rows)
      ensures KeyOf(w) in SeenKeys(records) <==> Held(tree, wants, KeyOf(w))
      ensures KeyOf(w) in SeenKeys(records) ==> records != []
    {
      FreshKeys(tree, wants, sha, KeyOf(w));
      if KeyOf(w) in SeenKeys(records) {
        SeenNeedRecords(records, KeyOf(w));
      }
    }
    KeysAreSeen(Required(rows), SeenKeys(records));
    var installer := RequiredInstaller(rows);
    assert installer in Required(rows);
  }

  lemma RequiredInstaller(rows: seq<Row>) returns (w: Want)
    ensures w in Required(rows)
  {
    hide AllRequired;
    w := ExpectedInstallers()[0];
    assert Required(rows)[|AllRequired(rows)|] == w;
  }

  lemma KeysAreSeen(wants: seq<Want>, seen: set<Key>)
    ensures Keys(wants) <= seen <==> forall w :: w in wants ==> KeyOf(w) in seen
  {
    hide KeyOf;
    forall w | w in wants
      ensures KeyOf(w) in Keys(wants)
    {
    }
  }

  lemma SeenNeedRecords(records: seq<Record>, key: Key)
    requires key in SeenKeys(records)
    ensures records != []
  {
    hide SeenKey, RelativeTo;
  }

  /** Two enumerations, one demand: a contract made from the tree passes its validator on that tree exactly if none of the
      binding's three producers misses a file. */
  lemma TwoListsAgree(tree: Tree, rows: seq<Row>, sha: Bytes -> string)
    requires PlainRows(rows) && NoInstallerKey(rows) && IsDigest(sha) && Created(tree, rows, sha).Some?
    ensures ContractValid(tree, rows, Created(tree, rows, sha).value, sha) <==> ProducersAreSatisfied(tree, rows)
  {
    hide PlainRows, NoInstallerKey, IsDigest, Required, ListedWants, Created, ContractValid, ProducersAreSatisfied,
         IsMissing, KeyOf, IsWant;
    ListedAreWants(rows);
    ContractCountsKeys(tree, rows, sha);
    SatisfiedMeansFound(tree, rows);
    forall w | w in Required(rows)
      ensures Held(tree, ListedWants(rows), KeyOf(w)) <==> !IsMissing(tree, w)
    {
      if v :| v in ListedWants(rows) && KeyOf(v) == KeyOf(w) && !IsMissing(tree, v) {
        NoTwoOfOneKey(rows, v, w);
      }
    }
  }

  // ---------------------------------------------------------------- exactly when the two lists agree

  function Dir(w: Want): string {
    match w.kind
    case Image => w.owner + "-image"
    case Log => w.owner + "-build-logs"
    case Installer => w.owner
  }

  function PathOf(w: Want): string {
    PosixPath.AsPosix(Candidates(w)[0])
  }

  function Paths(wants: seq<Want>): set<string> {
    set w | w in wants :: PathOf(w)
  }

  /** Every listed file but one, with something in it. */
  function HidingTree(rows: seq<Row>, hidden: Want): Tree {
    map p | p in Paths(ListedWants(rows)) && p != PathOf(hidden) :: [0]
  }

  lemma DirIsPart(w: Want)
    requires IsWant(w)
    ensures PosixPath.IsPart(Dir(w)) && Dir(w) != ".." && Dir(w)[0] != '/'
  {
    hide PosixPath.Parts;
    var dir := Dir(w);
    assert |dir| > 2 && dir[0] == w.owner[0] && w.owner[0] in w.owner;
    assert PosixPath.Slashless("-image") && PosixPath.Slashless("-build-logs") && PosixPath.Slashless("installer-");
  }

  lemma WantParts(w: Want)
    requires IsWant(w)
    ensures var path := Candidates(w)[0];
            PosixPath.Parts(path) == [Dir(w)] + PosixPath.Parts(w.artifact) && !("/" <= path) && ".." !in PosixPath.Parts(path)
  {
    DirIsPart(w);
    PosixPath.PartsBelow(Dir(w), w.artifact);
    if w.kind != Log {
      PosixPath.NameOfPart(w.artifact);
    }
    hide PosixPath.Parts, PosixPath.IsPart, PosixPath.Slashless;
    assert Candidates(w)[0] == Dir(w) + "/" + w.artifact;
    assert Candidates(w)[0][0] == Dir(w)[0];
  }

  lemma DirsDiffer(hidden: Want, w: Want)
    requires InstallerShape(hidden) && w.kind != Installer
    ensures Dir(w) != Dir(hidden)
  {
    assert Dir(hidden)[|Dir(hidden)| - 1] == '4';
    assert Dir(w)[|Dir(w)| - 1] == if w.kind == Image then 'e' else 's';
  }

  lemma InstallersDiffer(hidden: Want, w: Want)
    requires InstallerShape(hidden) && InstallerShape(w) && w != hidden
    ensures Dir(w) != Dir(hidden) || w.artifact != hidden.artifact
  {
    assert w.target == w.owner[10..] && hidden.target == hidden.owner[10..];
  }

  lemma InstallerIsApart(hidden: Want, w: Want)
    requires InstallerShape(hidden) && IsWant(w) && w != hidden
    ensures PathOf(w) != PathOf(hidden)
  {
    WantParts(w);
    WantParts(hidden);
    PosixPath.SameNormalForm(Candidates(w)[0], Candidates(hidden)[0]);
    PosixPath.NameOfPart(hidden.artifact);
    if w.kind == Installer {
      PosixPath.NameOfPart(w.artifact);
      InstallersDiffer(hidden, w);
    } else {
      DirsDiffer(hidden, w);
    }
    hide PosixPath.Parts, PosixPath.AsPosix, PosixPath.IsPart, PosixPath.Slashless, Dir, Candidates;
    var front, back := [Dir(w)] + PosixPath.Parts(w.artifact), [Dir(hidden), hidden.artifact];
    assert front[0] == Dir(w) && back[0] == Dir(hidden);
    assert w.kind == Installer ==> front[1] == w.artifact;
    assert back[1] == hidden.artifact;
  }

  lemma HiddenIsMissing(rows: seq<Row>, hidden: Want)
    requires InstallerShape(hidden)
    ensures IsMissing(HidingTree(rows, hidden), hidden)
  {
    hide ListedWants, PosixPath.AsPosix, PosixPath.Parts;
  }

  lemma OthersAreThere(rows: seq<Row>, hidden: Want, w: Want)
    requires InstallerShape(hidden) && IsWant(w) && w in ListedWants(rows) && w != hidden
    ensures !IsMissing(HidingTree(rows, hidden), w) && !IsEmptyFile(HidingTree(rows, hidden), w)
  {
    InstallerIsApart(hidden, w);
    WantParts(w);
    hide ListedWants, PosixPath.AsPosix, PosixPath.Parts, IsWant;
    assert PathOf(w) in HidingTree(rows, hidden);
    assert FileAt(HidingTree(rows, hidden), Candidates(w)[0]) == Some([0]);
  }

  /** A release row with an installer's key hides that installer: with everything there but the installer, the contract is
      made and passes, and a producer of the binding reports the missing file. */
  lemma InstallerKeyHidesMissing(rows: seq<Row>, sha: Bytes -> string, image: Want, installer: Want)
    requires PlainRows(rows) && IsDigest(sha)
    requires image in AllImages(rows) && installer in ExpectedInstallers() && KeyOf(image) == KeyOf(installer)
    ensures var tree := HidingTree(rows, installer);
            && IsMissing(tree, installer) && !ProducersAreSatisfied(tree, rows)
            && Created(tree, rows, sha).Some? && ContractValid(tree, rows, Created(tree, rows, sha).value, sha)
  {
    hide PlainRows, IsDigest, IsMissing, IsEmptyFile, KeyOf, AllRequired, AllListed, AllImages, ExpectedInstallers,
         CreatedInstallers, ContractValid, ProducersAreSatisfied, InstallerShape, RowWant, HidingTree, RecordsOf;
    var tree, wants := HidingTree(rows, installer), ListedWants(rows);
    InstallersHaveShape();
    ListedAreWants(rows);
    ImageIsListed(rows, image, installer);
    HiddenIsMissing(rows, installer);
    forall w | w in wants && w != installer
      ensures !IsMissing(tree, w) && !IsEmptyFile(tree, w)
    {
      OthersAreThere(rows, installer, w);
    }
    MissingIsNotEmpty(tree, installer);
    assert NoneEmpty(tree, wants) by {
      assert forall i :: 0 <= i < |wants| ==> wants[i] in wants;
    }
    forall w | w in Required(rows)
      ensures Held(tree, wants, KeyOf(w))
    {
      var u := if w == installer then image else w;
      assert u in wants && KeyOf(u) == KeyOf(w) && !IsMissing(tree, u);
    }
    ContractCountsKeys(tree, rows, sha);
    SatisfiedMeansFound(tree, rows);
    assert installer in Required(rows);
  }

  lemma ImageIsListed(rows: seq<Row>, image: Want, installer: Want)
    requires PlainRows(rows) && image in AllImages(rows) && installer in ExpectedInstallers()
    ensures image in ListedWants(rows) && image != installer
  {
    InstallersHaveShape();
    hide AllListed, AllImages, CreatedInstallers, ExpectedInstallers, PlainRows;
    ListedAreRowWants(rows);
  }

  lemma MissingIsNotEmpty(tree: Tree, w: Want)
    requires IsMissing(tree, w)
    ensures !IsEmptyFile(tree, w)
  {
  }

  /** The contract from the tree passes on it exactly if the binding misses no file. */
  ghost predicate ListsAgreeOn(tree: Tree, rows: seq<Row>, sha: Bytes -> string) {
    Created(tree, rows, sha).Some? ==>
      (ContractValid(tree, rows, Created(tree, rows, sha).value, sha) <==> ProducersAreSatisfied(tree, rows))
  }

  /** The exact condition: the two lists agree on every tree if and only if no image of a release row has an installer's
      name, target and artifact. */
  lemma ListsAgreeExactly(rows: seq<Row>, sha: Bytes -> string)
    requires PlainRows(rows) && IsDigest(sha)
    ensures (forall tree :: ListsAgreeOn(tree, rows, sha)) <==> NoInstallerKey(rows)
  {
    hide PlainRows, IsDigest, KeyOf, AllImages, ExpectedInstallers, Created, ContractValid, ProducersAreSatisfied,
         HidingTree;
    if NoInstallerKey(rows) {
      forall tree
        ensures ListsAgreeOn(tree, rows, sha)
      {
        if Created(tree, rows, sha).Some? {
          TwoListsAgree(tree, rows, sha);
        }
      }
    } else {
      var w, v :| w in AllImages(rows) && v in ExpectedInstallers() && KeyOf(w) == KeyOf(v);
      InstallerKeyHidesMissing(rows, sha, w, v);
      assert !ListsAgreeOn(HidingTree(rows, v), rows, sha);
    }
  }

  const CLASHING_ROW := Row("installer-x86_64", "x86_64", true, ["suderra-installer-x86_64"], false)

  /** Such a row: with every file there but `installer-x86_64/suderra-installer-x86_64`, the contract passes. */
  lemma ClashingRowHidesInstaller(sha: Bytes -> string)
    requires IsDigest(sha)
    ensures var rows, installer := [CLASHING_ROW], InstallerWant("x86_64", "");
            var tree := HidingTree(rows, installer);
            && PlainRows(rows) && Candidates(installer) == ["installer-x86_64/suderra-installer-x86_64"] && IsMissing(tree, installer)
            && Created(tree, rows, sha).Some? && ContractValid(tree, rows, Created(tree, rows, sha).value, sha)
            && !ProducersAreSatisfied(tree, rows)
  {
    ClashingRowIsPlain();
    hide PlainRow, IsMissing, IsDigest, HidingTree, Created, ContractValid, ProducersAreSatisfied;
    var rows, installer := [CLASHING_ROW], InstallerWant("x86_64", "");
    var image := Want(Image, CLASHING_ROW.name, CLASHING_ROW.target, CLASHING_ROW.artifacts[0]);
    ClashingImage();
    InstallerKeyHidesMissing(rows, sha, image, installer);
  }

  lemma InstallerSpelled()
    ensures var w := InstallerWant("x86_64", "");
            && w == Want(Installer, "installer-x86_64", "x86_64", "suderra-installer-x86_64")
            && Candidates(w) == ["installer-x86_64/suderra-installer-x86_64"]
  {
    assert "installer-" + "x86_64" == "installer-x86_64";
    assert "suderra-installer-" + "x86_64" + "" == "suderra-installer-x86_64";
    assert "installer-x86_64" + "/" + "suderra-installer-x86_64" == "installer-x86_64/suderra-installer-x86_64";
  }

  lemma WantSpelled(arch: string, suffix: string, owner: string, artifact: string)
    requires owner == "installer-" + arch && artifact == "suderra-installer-" + arch + suffix
    ensures InstallerWant(arch, suffix) == Want(Installer, owner, arch, artifact)
  {
  }

  /** The four files of the two installers. */
  lemma InstallersMean()
    ensures ExpectedInstallers() == [
              Want(Installer, "installer-x86_64", "x86_64", "suderra-installer-x86_64"),
              Want(Installer, "installer-x86_64", "x86_64", "suderra-installer-x86_64.sha256"),
              Want(Installer, "installer-aarch64", "aarch64", "suderra-installer-aarch64"),
              Want(Installer, "installer-aarch64", "aarch64", "suderra-installer-aarch64.sha256")]
  {
    hide InstallerWant;
    WantSpelled("x86_64", "", "installer-x86_64", "suderra-installer-x86_64");
    WantSpelled("x86_64", ".sha256", "installer-x86_64", "suderra-installer-x86_64.sha256");
    WantSpelled("aarch64", "", "installer-aarch64", "suderra-installer-aarch64");
    WantSpelled("aarch64", ".sha256", "installer-aarch64", "suderra-installer-aarch64.sha256");
  }

  lemma ClashingImage()
    ensures var image, installer := Want(Image, "installer-x86_64", "x86_64", "suderra-installer-x86_64"), InstallerWant("x86_64", "");
            && image in AllImages([CLASHING_ROW]) && installer in ExpectedInstallers() && KeyOf(image) == KeyOf(installer)
            && Candidates(installer) == ["installer-x86_64/suderra-installer-x86_64"]
  {
    hide InstallerWant, Candidates;
    InstallerSpelled();
    var rows, images := [CLASHING_ROW], ImageWants(CLASHING_ROW);
    assert rows[..|rows| - 1] == [];
    assert AllImages(rows) == AllImages([]) + images;
    assert images[0] in images;
    assert ExpectedInstallers()[0] in ExpectedInstallers();
  }

  lemma ClashingRowIsPlain()
    ensures PlainRow(CLASHING_ROW)
  {
  }

  // ---------------------------------------------------------------- the binding's validator

  type Pair = (string, string)

  function PairOf(w: Want): Pair {
    (w.owner, w.artifact)
  }

  /** `expected_release_artifact_map`, down to the rows' targets: of several rows with one key, the last. */
  function ExpectedMap(wants: seq<Want>): map<Pair, string> {
    if wants == [] then map[]
    else ExpectedMap(wants[..|wants| - 1])[PairOf(wants[|wants| - 1]) := wants[|wants| - 1].target]
  }

  function EntryPair(r: Record): Pair {
    (if r.defconfig.Some? then r.defconfig.value else "None", r.artifact)
  }

  predicate GoodEntry(r: Record, expected: map<Pair, string>, tree: Tree, sha: Bytes -> string) {
    && (if EntryPair(r) in expected then r.target == Some(expected[EntryPair(r)]) else expected == map[])
    && IsRealSha256(r.sha256) && r.bytes > 0 && SafePath(r.path).Some?
    && FileAt(tree, SafePath(r.path).value).Some? && sha(FileAt(tree, SafePath(r.path).value).value) == r.sha256
  }

  function Pairs(entries: seq<Record>): set<Pair> {
    set r | r in entries :: EntryPair(r)
  }

  predicate DistinctPairs(entries: seq<Record>) {
    forall i, j :: 0 <= i < j < |entries| ==> EntryPair(entries[i]) != EntryPair(entries[j])
  }

  predicate BindingsValid(entries: seq<Record>, expected: map<Pair, string>, tree: Tree, sha: Bytes -> string) {
    && entries != [] && (forall i :: 0 <= i < |entries| ==> GoodEntry(entries[i], expected, tree, sha))
    && DistinctPairs(entries) && expected.Keys <= Pairs(entries)
  }

  /** The checks on one entry of the list. */
  method CheckEntry(r: Record, expected: map<Pair, string>, tree: Tree, sha: Bytes -> string) returns (key: Pair, failures: seq<string>)
    ensures key == EntryPair(r) && (failures == [] <==> GoodEntry(r, expected, tree, sha))
  {
    hide IsRealSha256, SafePath, FileAt;
    key := ("None", r.artifact);
    if r.defconfig.Some? {
      key := (r.defconfig.value, r.artifact);
    }
    failures := [];
    if key !in expected {
      if expected.Keys != {} {
        failures := failures + ["unexpected binding artifact"];
      }
    } else if r.target.None? || r.target.value != expected[key] {
      failures := failures + ["target mismatch"];
    }
    if !IsRealSha256(r.sha256) || r.bytes <= 0 {
      failures := failures + ["sha256 or bytes"];
    }
    var rel := SafePath(r.path);
    if rel.None? {
      return key, failures + ["path must be relative"];
    }
    var file := FileAt(tree, rel.value);
    if file.None? || sha(file.value) != r.sha256 {
      failures := failures + ["missing file or sha256 mismatch"];
    }
  }

  method ValidateReleaseArtifactBindings(entries: seq<Record>, expected: map<Pair, string>, tree: Tree, sha: Bytes -> string)
      returns (failures: seq<string>)
    ensures failures == [] <==> BindingsValid(entries, expected, tree, sha)
  {
    hide GoodEntry, EntryPair;
    if entries == [] {
      return ["binding artifacts must be a non-empty list"];
    }
    failures := [];
    var seen: set<Pair> := {};
    for i := 0 to |entries|
      invariant failures == [] <==> (forall k :: 0 <= k < i ==> GoodEntry(entries[k], expected, tree, sha)) && DistinctPairs(entries[..i])
      invariant seen == Pairs(entries[..i])
    {
      assert entries[..i + 1] == entries[..i] + [entries[i]];
      DistinctStep(entries[..i], entries[i]);
      var key, more := CheckEntry(entries[i], expected, tree, sha);
      failures := failures + more;
      if key in seen {
        failures := failures + ["duplicate binding artifact"];
      }
      seen := seen + {key};
    }
    assert entries[..|entries|] == entries;
    if !(expected.Keys <= seen) {
      failures := failures + ["binding artifacts missing matrix-required files"];
    }
  }

  lemma DistinctStep(front: seq<Record>, r: Record)
    ensures DistinctPairs(front + [r]) <==> DistinctPairs(front) && EntryPair(r) !in Pairs(front)
    ensures Pairs(front + [r]) == Pairs(front) + {EntryPair(r)}
  {
    hide EntryPair;
    var all := front + [r];
    assert all[|front|] == r;
    assert forall i :: 0 <= i < |front| ==> all[i] == front[i] && front[i] in front;
  }

  // ---------------------------------------------------------------- when the binding's list passes

  predicate PlainImage(w: Want) {
    w.kind == Image && RowWant(w)
  }

  lemma ImagesAre(rows: seq<Row>)
    requires PlainRows(rows)
    ensures forall i :: 0 <= i < |AllImages(rows)| ==> PlainImage(AllImages(rows)[i])
  {
    hide RowWant, AllImages, AllListed, PlainRows;
    ListedAreRowWants(rows);
    assert forall i :: 0 <= i < |AllImages(rows)| ==> AllImages(rows)[i] in AllImages(rows);
  }

  lemma PlaceholdersAreSlashless(s: string)
    requires IsPlaceholder(s)
    ensures PosixPath.Slashless(Strip(s))
  {
    hide Strip;
  }

  /** The path of a plain image is safe and its own normal form. */
  lemma ImagePath(w: Want)
    requires PlainImage(w)
    ensures var path := w.owner + "-image" + "/" + w.artifact;
            SafePath(path) == Some(path) && PosixPath.AsPosix(path) == path
  {
    var path, dir := Candidates(w)[0], Dir(w);
    WantParts(w);
    PosixPath.NameOfPart(w.artifact);
    hide PosixPath.Parts, Strip, IsPlaceholder, PosixPath.IsPart;
    var parts := [dir, w.artifact];
    assert parts[1..] == [w.artifact];
    assert PosixPath.Join(parts) == path;
    assert path[|dir|] == '/' && !IsSpace('/');
    StripKeeps(path, |dir|);
    if IsPlaceholder(path) {
      PlaceholdersAreSlashless(path);
    }
  }

  /** What the producer lists of an image. */
  lemma ImageRecord(tree: Tree, w: Want, sha: Bytes -> string)
    requires PlainImage(w) && !IsMissing(tree, w) && IsDigest(sha)
    ensures |RecordFor(tree, w, sha)| == 1
    ensures var r := RecordFor(tree, w, sha)[0];
            && EntryPair(r) == PairOf(w) && r.target == Some(w.target) && IsRealSha256(r.sha256) && SafePath(r.path).Some?
            && FileAt(tree, SafePath(r.path).value).Some? && sha(FileAt(tree, SafePath(r.path).value).value) == r.sha256
            && (r.bytes > 0 <==> !IsEmptyFile(tree, w))
  {
    ImagePath(w);
    var path, bytes := FileOf(tree, w).value.0, FileOf(tree, w).value.1;
    assert path == w.owner + "-image" + "/" + w.artifact;
    assert IsRealSha256(sha(bytes));
    hide SafePath, PosixPath.AsPosix, FileAt, IsRealSha256, PosixPath.IsPart, PosixPath.Slashless;
  }

  predicate DistinctImages(wants: seq<Want>) {
    forall i, j :: 0 <= i < j < |wants| ==> PairOf(wants[i]) != PairOf(wants[j])
  }

  lemma {:induction false} MapKeys(wants: seq<Want>)
    ensures forall p :: p in ExpectedMap(wants) <==> exists i :: 0 <= i < |wants| && PairOf(wants[i]) == p
    ensures DistinctImages(wants) ==> forall i :: 0 <= i < |wants| ==> ExpectedMap(wants)[PairOf(wants[i])] == wants[i].target
  {
    hide PairOf;
    if wants != [] {
      var front, last := wants[..|wants| - 1], wants[|wants| - 1];
      MapKeys(front);
      assert forall i :: 0 <= i < |front| ==> front[i] == wants[i];
      forall p | p in ExpectedMap(wants)
        ensures exists i :: 0 <= i < |wants| && PairOf(wants[i]) == p
      {
        if p == PairOf(last) {
          assert PairOf(wants[|wants| - 1]) == p;
        } else {
          assert p in ExpectedMap(front);
          var i :| 0 <= i < |front| && PairOf(front[i]) == p;
          assert PairOf(wants[i]) == p;
        }
      }
      forall i | 0 <= i < |wants|
        ensures PairOf(wants[i]) in ExpectedMap(wants)
      {
        if i < |front| {
          assert PairOf(front[i]) in ExpectedMap(front);
        }
      }
    }
  }

  /** With every file there, the list has one entry for each want, in order. */
  lemma {:induction false} EntriesAlign(tree: Tree, wants: seq<Want>, sha: Bytes -> string)
    requires IsDigest(sha) && AllFound(tree, wants) && forall i :: 0 <= i < |wants| ==> PlainImage(wants[i])
    ensures |RecordsOf(tree, wants, sha)| == |wants|
    ensures forall i :: 0 <= i < |wants| ==> RecordFor(tree, wants[i], sha) == [RecordsOf(tree, wants, sha)[i]]
  {
    hide IsDigest, RecordFor, IsMissing, PlainImage, EntryPair, PairOf;
    if wants != [] {
      EntriesAlign(tree, wants[..|wants| - 1], sha);
      ImageRecord(tree, wants[|wants| - 1], sha);
    }
  }

  /** A missing file's key is on no entry. */
  lemma MissingIsNotListed(tree: Tree, wants: seq<Want>, sha: Bytes -> string, w: Want)
    requires IsDigest(sha) && w in wants && IsMissing(tree, w) && forall i :: 0 <= i < |wants| ==> PlainImage(wants[i])
    ensures PairOf(w) !in Pairs(RecordsOf(tree, wants, sha))
  {
    hide IsDigest, RecordFor, EntryPair, RecordsOf, PlainImage;
    if r :| r in RecordsOf(tree, wants, sha) && EntryPair(r) == PairOf(w) {
      RecordsAre(tree, wants, sha, r);
      var i :| 0 <= i < |wants| && r in RecordFor(tree, wants[i], sha);
      ListedIsFound(tree, wants[i], sha, r);
      ImageRecord(tree, wants[i], sha);
      SamePairSameFile(tree, wants[i], w);
      assert false;
    }
  }

  lemma ListedIsFound(tree: Tree, w: Want, sha: Bytes -> string, r: Record)
    requires r in RecordFor(tree, w, sha)
    ensures !IsMissing(tree, w)
  {
  }

  lemma SamePairSameFile(tree: Tree, v: Want, w: Want)
    requires PlainImage(v) && PlainImage(w) && PairOf(v) == PairOf(w)
    ensures IsMissing(tree, v) <==> IsMissing(tree, w)
  {
    assert Candidates(v) == Candidates(w);
  }

  /** The binding's validator takes the producer's artifact list exactly if there is something to list, no file is missing
      or empty, and no defconfig lists an artifact twice. */
  lemma ArtifactListPasses(tree: Tree, rows: seq<Row>, sha: Bytes -> string)
    requires PlainRows(rows) && IsDigest(sha)
    ensures var wants := AllImages(rows);
            BindingsValid(RecordsOf(tree, wants, sha), ExpectedMap(wants), tree, sha) <==>
            wants != [] && AllFound(tree, wants) && NoneEmpty(tree, wants) && DistinctImages(wants)
  {
    var wants := AllImages(rows);
    ImagesAre(rows);
    hide PlainRows, AllImages;
    MapKeys(wants);
    if AllFound(tree, wants) {
      FoundListPasses(tree, wants, sha);
    } else {
      var i :| 0 <= i < |wants| && IsMissing(tree, wants[i]);
      MissingIsNotListed(tree, wants, sha, wants[i]);
      assert PairOf(wants[i]) in ExpectedMap(wants).Keys;
    }
  }

  lemma FoundListPasses(tree: Tree, wants: seq<Want>, sha: Bytes -> string)
    requires IsDigest(sha) && AllFound(tree, wants) && forall i :: 0 <= i < |wants| ==> PlainImage(wants[i])
    ensures BindingsValid(RecordsOf(tree, wants, sha), ExpectedMap(wants), tree, sha) <==>
            wants != [] && NoneEmpty(tree, wants) && DistinctImages(wants)
  {
    hide IsDigest, RecordFor, RecordsOf, IsMissing, IsEmptyFile, PlainImage, EntryPair, PairOf, SafePath, FileAt,
         IsRealSha256, ExpectedMap;
    var entries := RecordsOf(tree, wants, sha);
    EntriesAlign(tree, wants, sha);
    MapKeys(wants);
    forall i | 0 <= i < |wants|
      ensures EntryPair(entries[i]) == PairOf(wants[i])
      ensures DistinctImages(wants) ==> (GoodEntry(entries[i], ExpectedMap(wants), tree, sha) <==> !IsEmptyFile(tree, wants[i]))
      ensures GoodEntry(entries[i], ExpectedMap(wants), tree, sha) ==> !IsEmptyFile(tree, wants[i])
    {
      assert RecordFor(tree, wants[i], sha)[0] == entries[i];
      ImageRecord(tree, wants[i], sha);
    }
    hide GoodEntry;
    forall p | p in ExpectedMap(wants)
      ensures p in Pairs(entries)
    {
      var i :| 0 <= i < |wants| && PairOf(wants[i]) == p;
      assert entries[i] in entries && EntryPair(entries[i]) == p;
    }
    assert DistinctPairs(entries) <==> DistinctImages(wants);
  }
}

/** The publication manifest of a release directory, and the record that every published asset is attested. */
module Publication {
  import opened PyText
  import opened Hashing
  import opened EvidenceGraph
  import A = AttestationRecord
  import Statements
  import Json
  import PosixPath
  import Sorting

  // ---------------------------------------------------------------- the directory

  type Dir = seq<A.File>

  function Named(dir: Dir, name: string): Option<Bytes> {
    if dir == [] then None else if dir[0].name == name then Some(dir[0].bytes) else Named(dir[1..], name)
  }

  predicate HasBytes(dir: Dir, name: string) {
    Named(dir, name).Some? && Named(dir, name).value != []
  }

  const MANIFEST_NAME := "release-publication-manifest.json"
  const SELF_SIDECARS := ["release-publication-manifest.json.sig", "release-publication-manifest.json.cert"]

  predicate IsSelf(name: string) {
    name == MANIFEST_NAME || name in SELF_SIDECARS
  }

  predicate IsSidecar(name: string) {
    EndsWith(name, ".sig") || EndsWith(name, ".cert")
  }

  // ---------------------------------------------------------------- the manifest

  datatype Item = Item(name: string, role: string, bytes: int, sha256: string)

  datatype Head = Head(schema: string, version: string, classifier: string, source: seq<string>, selfIncluded: bool,
                       sidecarsIncluded: bool, sidecars: seq<string>)

  datatype Manifest = Manifest(head: Head, files: seq<Item>)

  /** The asset classifier and the digest. */
  datatype Tools = Tools(classify: string -> string, sha: Bytes -> string)

  datatype Options = Options(version: Option<string>, selfSidecars: bool, assetSidecars: bool)

  predicate HeadIsGood(h: Head, options: Options) {
    && h.schema == "suderra.release-publication-manifest.v1" && (options.version.Some? ==> h.version == options.version.value)
    && h.classifier == "suderra.release-asset-classifier.v2" && (forall i :: 0 <= i < |h.source| ==> !A.IsPlaceholder(h.source[i]))
    && !h.selfIncluded && !h.sidecarsIncluded && multiset(h.sidecars) == multiset(SELF_SIDECARS)
  }

  function ItemOf(f: A.File, tools: Tools): Item {
    Item(f.name, tools.classify(f.name), |f.bytes|, tools.sha(f.bytes))
  }

  function PublicItems(files: Dir, tools: Tools): seq<Item> {
    if files == [] then []
    else PublicItems(files[..|files| - 1], tools)
         + (var f := files[|files| - 1]; if IsSelf(f.name) then [] else [ItemOf(f, tools)])
  }

  function Listing(dir: Dir): Dir {
    Sorting.Sort(dir, (a: A.File, b: A.File) => Less(a.name, b.name))
  }

  /** `create_manifest` */
  function Created(head: Head, dir: Dir, tools: Tools): Manifest {
    Manifest(head, PublicItems(Listing(dir), tools))
  }

  /** `file_entry` for every file but the manifest and its own sidecars, by name. */
  method CreateManifest(head: Head, dir: Dir, tools: Tools) returns (m: Manifest)
    ensures m == Created(head, dir, tools)
  {
    var files := Sorting.Sort(dir, (a: A.File, b: A.File) => Less(a.name, b.name));
    var items: seq<Item> := [];
    for i := 0 to |files|
      invariant items == PublicItems(files[..i], tools)
    {
      assert files[..i + 1][..i] == files[..i];
      var name := files[i].name;
      if && name != "release-publication-manifest.json"
         && name !in {"release-publication-manifest.json.sig", "release-publication-manifest.json.cert"} {
        items := items + [Item(name, tools.classify(name), |files[i].bytes|, tools.sha(files[i].bytes))];
      }
    }
    assert files[..|files|] == files;
    m := Manifest(head, items);
  }

  // ---------------------------------------------------------------- its validator

  predicate SafeName(name: string) {
    Strip(name) != [] && PosixPath.Name(name) == name
  }

  predicate SidecarsThere(dir: Dir, name: string) {
    HasBytes(dir, name + ".sig") && HasBytes(dir, name + ".cert")
  }

  predicate GoodItem(item: Item, dir: Dir, tools: Tools, options: Options) {
    && SafeName(item.name) && !IsSelf(item.name)
    && (var bytes := Named(dir, item.name);
        bytes.Some? && item.role == tools.classify(item.name) && item.bytes == |bytes.value| && item.sha256 == tools.sha(bytes.value))
    && (options.assetSidecars && !IsSidecar(item.name) ==> SidecarsThere(dir, item.name))
  }

  function SafeNames(items: seq<Item>): set<string> {
    set item | item in items && SafeName(item.name) :: item.name
  }

  function PublicNames(dir: Dir): set<string> {
    set f | f in dir && !IsSelf(f.name) :: f.name
  }

  predicate DistinctNames(items: seq<Item>) {
    forall i, j :: 0 <= i < j < |items| ==> items[i].name != items[j].name
  }

  function RequiredNames(version: string): set<string> {
    var tar := "release-evidence-" + version + ".tar.zst";
    {tar, tar + ".sig", tar + ".cert"}
  }

  predicate GoodItems(items: seq<Item>, dir: Dir, tools: Tools, options: Options) {
    (forall i :: 0 <= i < |items| ==> GoodItem(items[i], dir, tools, options)) && DistinctNames(items)
  }

  predicate SelfSidecarsThere(dir: Dir, options: Options) {
    options.selfSidecars ==> forall i :: 0 <= i < |SELF_SIDECARS| ==> HasBytes(dir, SELF_SIDECARS[i])
  }

  predicate Valid(m: Manifest, dir: Dir, tools: Tools, options: Options) {
    && HeadIsGood(m.head, options) && m.files != [] && GoodItems(m.files, dir, tools, options)
    && SafeNames(m.files) == PublicNames(dir) && SelfSidecarsThere(dir, options)
    && RequiredNames(m.head.version) <= SafeNames(m.files)
  }

  method CheckScope(h: Head) returns (failures: seq<string>)
    ensures failures == [] <==> !h.selfIncluded && !h.sidecarsIncluded && multiset(h.sidecars) == multiset(SELF_SIDECARS)
  {
    failures := [];
    if h.selfIncluded || h.sidecarsIncluded {
      failures := ["scope.self_included and scope.self_sidecars_included must be false"];
    }
    if multiset(h.sidecars) != multiset{"release-publication-manifest.json.cert", "release-publication-manifest.json.sig"} {
      failures := failures + ["scope.self_sidecars must list the publication manifest signature sidecars"];
    }
  }

  method CheckHead(h: Head, options: Options) returns (failures: seq<string>)
    ensures failures == [] <==> HeadIsGood(h, options)
  {
    hide A.IsPlaceholder, SELF_SIDECARS;
    failures := A.CheckTexts(h.source);
    var scope := CheckScope(h);
    failures := failures + scope;
    if h.schema != "suderra.release-publication-manifest.v1" || h.classifier != "suderra.release-asset-classifier.v2" {
      failures := failures + ["schema_version or classifier_version"];
    }
    if options.version.Some? && h.version != options.version.value {
      failures := failures + ["version"];
    }
  }

  /** A file of the directory that is not empty. */
  method CheckThere(dir: Dir, name: string) returns (failures: seq<string>)
    ensures failures == [] <==> HasBytes(dir, name)
  {
    hide Named;
    var bytes := Named(dir, name);
    failures := if bytes.None? || |bytes.value| == 0 then ["missing non-empty file"] else [];
  }

  /** The checks on an item with a safe name. */
  method CheckItem(item: Item, dir: Dir, tools: Tools, options: Options) returns (failures: seq<string>)
    requires SafeName(item.name)
    ensures failures == [] <==> GoodItem(item, dir, tools, options)
  {
    hide SafeName, HasBytes, Named;
    failures := [];
    if item.name in ["release-publication-manifest.json", "release-publication-manifest.json.sig", "release-publication-manifest.json.cert"] {
      failures := ["name must not include manifest self files"];
    }
    var bytes := Named(dir, item.name);
    if bytes.None? {
      return failures + ["name references missing file"];
    }
    if options.assetSidecars && !EndsWith(item.name, ".sig") && !EndsWith(item.name, ".cert") {
      var more := CheckThere(dir, item.name + ".sig");
      failures := failures + more;
      more := CheckThere(dir, item.name + ".cert");
      failures := failures + more;
    }
    if item.role != tools.classify(item.name) || |bytes.value| != item.bytes || tools.sha(bytes.value) != item.sha256 {
      failures := failures + ["role, bytes or sha256 does not match"];
    }
  }

  method ValidateItems(items: seq<Item>, dir: Dir, tools: Tools, options: Options) returns (names: set<string>, failures: seq<string>)
    ensures names == SafeNames(items)
    ensures failures == [] <==> GoodItems(items, dir, tools, options)
  {
    hide GoodItem, Strip, PosixPath.Name;
    names, failures := {}, [];
    for i := 0 to |items|
      invariant names == SafeNames(items[..i])
      invariant failures == [] <==> GoodItems(items[..i], dir, tools, options)
    {
      assert items[..i + 1] == items[..i] + [items[i]];
      GoodItemsStep(items[..i], items[i], dir, tools, options);
      var name := items[i].name;
      if |Strip(name)| == 0 || name != PosixPath.Name(name) {
        failures := failures + ["name must be a safe file name"];
        continue;
      }
      if name in names {
        failures := failures + ["name is duplicated"];
      }
      names := names + {name};
      var more := CheckItem(items[i], dir, tools, options);
      failures := failures + more;
    }
    assert items[..|items|] == items;
  }

  lemma GoodItemsStep(front: seq<Item>, item: Item, dir: Dir, tools: Tools, options: Options)
    ensures GoodItems(front + [item], dir, tools, options) <==>
            && GoodItems(front, dir, tools, options) && SafeName(item.name) && GoodItem(item, dir, tools, options)
            && item.name !in SafeNames(front)
    ensures SafeNames(front + [item]) == SafeNames(front) + if SafeName(item.name) then {item.name} else {}
  {
    var all := front + [item];
    assert all[|front|] == item;
    assert forall i :: 0 <= i < |front| ==> all[i] == front[i] && front[i] in front;
    forall i | 0 <= i < |all| && GoodItem(all[i], dir, tools, options)
      ensures SafeName(all[i].name)
    {
    }
    hide SafeName, GoodItem;
    forall n | n in SafeNames(front)
      ensures exists i :: 0 <= i < |front| && front[i].name == n
    {
      var f :| f in front && SafeName(f.name) && f.name == n;
      var i :| 0 <= i < |front| && front[i] == f;
    }
  }

  /** The names of a release directory that a manifest must list. */
  method NamesOf(dir: Dir) returns (names: set<string>)
    ensures names == PublicNames(dir)
  {
    names := {};
    for i := 0 to |dir|
      invariant names == PublicNames(dir[..i])
    {
      assert dir[..i + 1] == dir[..i] + [dir[i]];
      var name := dir[i].name;
      if && name != "release-publication-manifest.json"
         && name !in {"release-publication-manifest.json.sig", "release-publication-manifest.json.cert"} {
        names := names + {name};
      }
    }
    assert dir[..|dir|] == dir;
  }

  method CheckSelf(dir: Dir, options: Options) returns (failures: seq<string>)
    ensures failures == [] <==> SelfSidecarsThere(dir, options)
  {
    hide HasBytes;
    failures := [];
    if options.selfSidecars {
      failures := CheckThere(dir, "release-publication-manifest.json.cert");
      var more := CheckThere(dir, "release-publication-manifest.json.sig");
      failures := failures + more;
    }
    assert SELF_SIDECARS[0] == "release-publication-manifest.json.sig" && SELF_SIDECARS[1] == "release-publication-manifest.json.cert";
  }

  /** `validate_manifest` on a manifest that can be read. */
  method ValidateManifest(m: Manifest, dir: Dir, tools: Tools, options: Options) returns (failures: seq<string>)
    ensures failures == [] <==> Valid(m, dir, tools, options)
  {
    hide HeadIsGood, GoodItems, SafeNames, PublicNames, SelfSidecarsThere;
    failures := CheckHead(m.head, options);
    if m.files == [] {
      return failures + ["files must be a non-empty list"];
    }
    var names, more := ValidateItems(m.files, dir, tools, options);
    failures := failures + more;
    var public := NamesOf(dir);
    if !(public <= names) || !(names <= public) {
      failures := failures + ["manifest and directory differ"];
    }
    more := CheckSelf(dir, options);
    failures := failures + more;
    var evidence := "release-evidence-" + m.head.version + ".tar.zst";
    if !(evidence in names && evidence + ".sig" in names && evidence + ".cert" in names) {
      failures := failures + ["publication manifest missing final evidence bytes"];
    }
  }

  // ---------------------------------------------------------------- the manifest is the directory

  lemma {:induction false} NamedFile(dir: Dir, k: nat)
    requires A.IsListing(dir) && k < |dir|
    ensures Named(dir, dir[k].name) == Some(dir[k].bytes)
    decreases |dir|
  {
    hide PosixPath.IsPart;
    if k > 0 {
      assert dir[1..][k - 1] == dir[k];
      assert forall i :: 0 <= i < |dir| - 1 ==> dir[1..][i] == dir[i + 1];
      NamedFile(dir[1..], k - 1);
    }
  }

  lemma {:induction false} NamedIsFile(dir: Dir, name: string) returns (k: nat)
    requires Named(dir, name).Some?
    ensures k < |dir| && dir[k] == A.File(name, Named(dir, name).value)
  {
    if dir[0].name == name {
      k := 0;
    } else {
      k := NamedIsFile(dir[1..], name);
      k := k + 1;
    }
  }

  lemma {:induction false} PublicItemsAre(files: Dir, tools: Tools, item: Item)
    ensures item in PublicItems(files, tools) <==> exists k :: 0 <= k < |files| && !IsSelf(files[k].name) && item == ItemOf(files[k], tools)
  {
    hide IsSelf, ItemOf;
    if files != [] {
      var front := files[..|files| - 1];
      PublicItemsAre(front, tools, item);
      assert forall k :: 0 <= k < |front| ==> front[k] == files[k];
    }
  }

  function Elements(items: seq<Item>): set<Item> {
    set item | item in items
  }

  /** The conditions a directory must meet: every public name can be seen, and the sidecars asked for are there. */
  predicate Publishable(dir: Dir, options: Options) {
    && (forall i :: 0 <= i < |dir| && !IsSelf(dir[i].name) ==>
          (Strip(dir[i].name) != [] && (options.assetSidecars && !IsSidecar(dir[i].name) ==> SidecarsThere(dir, dir[i].name))))
    && SelfSidecarsThere(dir, options)
  }

  /** A good item is the item of the file it names. */
  lemma GoodItemIsFile(item: Item, dir: Dir, tools: Tools, options: Options)
    requires A.IsListing(dir)
    ensures GoodItem(item, dir, tools, options) <==>
            exists k :: 0 <= k < |dir| && !IsSelf(dir[k].name) && item == ItemOf(dir[k], tools) && Strip(item.name) != []
                        && (options.assetSidecars && !IsSidecar(item.name) ==> SidecarsThere(dir, item.name))
  {
    hide IsSelf, IsSidecar, SidecarsThere, Strip;
    if GoodItem(item, dir, tools, options) {
      var k := NamedIsFile(dir, item.name);
      assert item == ItemOf(dir[k], tools);
    }
    if k :| 0 <= k < |dir| && !IsSelf(dir[k].name) && item == ItemOf(dir[k], tools) && Strip(item.name) != []
            && (options.assetSidecars && !IsSidecar(item.name) ==> SidecarsThere(dir, item.name)) {
      NamedFile(dir, k);
      PosixPath.NameOfPart(dir[k].name);
    }
  }

  lemma GoodItemsAreFiles(items: seq<Item>, dir: Dir, tools: Tools, options: Options)
    requires A.IsListing(dir) && GoodItems(items, dir, tools, options)
    ensures Elements(items) <= Elements(PublicItems(dir, tools))
    ensures forall item :: item in items ==> Strip(item.name) != [] && item.name in SafeNames(items)
    ensures forall item :: item in items && options.assetSidecars && !IsSidecar(item.name) ==> SidecarsThere(dir, item.name)
  {
    hide IsSelf, IsSidecar, SidecarsThere, Strip, A.IsListing, PublicItems, Named, PosixPath.Name;
    forall item | item in items
      ensures item in PublicItems(dir, tools) && Strip(item.name) != [] && SafeName(item.name)
      ensures options.assetSidecars && !IsSidecar(item.name) ==> SidecarsThere(dir, item.name)
    {
      var i :| 0 <= i < |items| && items[i] == item;
      assert GoodItem(items[i], dir, tools, options);
      GoodItemIsFile(item, dir, tools, options);
      PublicItemsAre(dir, tools, item);
    }
  }

  /** The manifest's items are exactly the directory's public files, each with its size, digest and role, none twice, and
      nothing else is asked for but the header, the sidecars and the final evidence. */
  lemma ManifestIsTheDirectory(m: Manifest, dir: Dir, tools: Tools, options: Options)
    requires A.IsListing(dir)
    ensures Valid(m, dir, tools, options) <==>
            && HeadIsGood(m.head, options) && m.files != [] && DistinctNames(m.files)
            && Elements(m.files) == Elements(PublicItems(dir, tools)) && Publishable(dir, options)
            && RequiredNames(m.head.version) <= PublicNames(dir)
  {
    hide HeadIsGood, RequiredNames, SelfSidecarsThere, A.IsListing, IsSelf, PublicItems, DistinctNames, IsSidecar,
         SidecarsThere, Strip, PosixPath.Name;
    if Valid(m, dir, tools, options) {
      ValidIsPublishable(m, dir, tools, options);
    }
    if && m.files != [] && DistinctNames(m.files) && Elements(m.files) == Elements(PublicItems(dir, tools)) && Publishable(dir, options) {
      PublishableIsGood(m.files, dir, tools, options);
    }
  }

  lemma ValidIsPublishable(m: Manifest, dir: Dir, tools: Tools, options: Options)
    requires A.IsListing(dir) && Valid(m, dir, tools, options)
    ensures Elements(m.files) == Elements(PublicItems(dir, tools)) && Publishable(dir, options)
  {
    hide HeadIsGood, RequiredNames, SelfSidecarsThere, A.IsListing, IsSelf, PublicItems, GoodItems, IsSidecar,
         SidecarsThere, Strip, PosixPath.Name;
    GoodItemsAreFiles(m.files, dir, tools, options);
    forall k | 0 <= k < |dir| && !IsSelf(dir[k].name)
      ensures ItemOf(dir[k], tools) in m.files
    {
      assert dir[k] in dir;
      assert dir[k].name in PublicNames(dir);
      var item :| item in m.files && SafeName(item.name) && item.name == dir[k].name;
      assert item in Elements(m.files);
      PublicItemsAre(dir, tools, item);
      var l :| 0 <= l < |dir| && !IsSelf(dir[l].name) && item == ItemOf(dir[l], tools);
      NamedFile(dir, k);
      NamedFile(dir, l);
    }
    forall item | item in PublicItems(dir, tools)
      ensures item in m.files
    {
      PublicItemsAre(dir, tools, item);
    }
    forall k | 0 <= k < |dir| && !IsSelf(dir[k].name)
      ensures Strip(dir[k].name) != [] && (options.assetSidecars && !IsSidecar(dir[k].name) ==> SidecarsThere(dir, dir[k].name))
    {
      assert ItemOf(dir[k], tools).name == dir[k].name;
    }
  }

  lemma PublishableIsGood(items: seq<Item>, dir: Dir, tools: Tools, options: Options)
    requires A.IsListing(dir) && DistinctNames(items) && Elements(items) == Elements(PublicItems(dir, tools)) && Publishable(dir, options)
    ensures GoodItems(items, dir, tools, options) && SafeNames(items) == PublicNames(dir)
  {
    hide SelfSidecarsThere, A.IsListing, IsSelf, PublicItems, DistinctNames, IsSidecar, SidecarsThere, Strip,
         PosixPath.Name;
    forall i | 0 <= i < |items|
      ensures GoodItem(items[i], dir, tools, options)
    {
      assert items[i] in Elements(items);
      PublicItemsAre(dir, tools, items[i]);
      GoodItemIsFile(items[i], dir, tools, options);
    }
    forall n
      ensures n in SafeNames(items) <==> n in PublicNames(dir)
    {
      if n in SafeNames(items) {
        var item :| item in items && SafeName(item.name) && item.name == n;
        assert item in Elements(items);
        PublicItemsAre(dir, tools, item);
      }
      if n in PublicNames(dir) {
        var f :| f in dir && !IsSelf(f.name) && f.name == n;
        var k :| 0 <= k < |dir| && dir[k] == f;
        PublicItemsAre(dir, tools, ItemOf(f, tools));
        assert ItemOf(f, tools) in Elements(items);
        var i :| 0 <= i < |items| && items[i] == ItemOf(f, tools);
        assert GoodItem(items[i], dir, tools, options);
      }
    }
  }

  // ---------------------------------------------------------------- the producer's manifest

  lemma {:induction false} PublicItemsDiffer(files: Dir, tools: Tools)
    requires A.IsListing(files)
    ensures DistinctNames(PublicItems(files, tools))
  {
    hide IsSelf, PosixPath.IsPart;
    if files != [] {
      var front, last := files[..|files| - 1], files[|files| - 1];
      var items := PublicItems(front, tools);
      PublicItemsDiffer(front, tools);
      forall i | 0 <= i < |items|
        ensures items[i].name != last.name
      {
        PublicItemsAre(front, tools, items[i]);
        assert items[i] in items;
        var k :| 0 <= k < |front| && !IsSelf(front[k].name) && items[i] == ItemOf(front[k], tools);
        assert files[k].name != files[|files| - 1].name;
      }
    }
  }

  lemma ListingIsDir(dir: Dir)
    requires A.IsListing(dir)
    ensures A.IsListing(Listing(dir)) && forall f :: f in Listing(dir) <==> f in dir
  {
    hide PosixPath.IsPart;
    Sorting.SortPermutes(dir, (a: A.File, b: A.File) => Less(a.name, b.name));
    Sorting.SamePermutation(dir, Listing(dir));
    DirByElements(dir);
    DirByElements(Listing(dir));
    hide Listing;
  }

  lemma DirByElements(dir: Dir)
    ensures A.IsListing(dir) <==>
            && Sorting.NoRepeats(dir) && (forall f :: f in dir ==> PosixPath.IsPart(f.name))
            && forall f, h :: f in dir && h in dir && f != h ==> f.name != h.name
  {
    hide PosixPath.IsPart;
    assert forall i :: 0 <= i < |dir| ==> dir[i] in dir;
  }

  /** The manifest created from a directory is accepted on it exactly if the header is good and the directory publishable,
      not empty of public files, and holds the final evidence. */
  lemma CreatedIsValid(head: Head, dir: Dir, tools: Tools, options: Options)
    requires A.IsListing(dir)
    ensures Valid(Created(head, dir, tools), dir, tools, options) <==>
            && HeadIsGood(head, options) && PublicNames(dir) != {} && Publishable(dir, options)
            && RequiredNames(head.version) <= PublicNames(dir)
  {
    hide HeadIsGood, RequiredNames, A.IsListing, IsSelf, PublicItems, DistinctNames, Publishable, Valid, Listing;
    var items := PublicItems(Listing(dir), tools);
    ListingIsDir(dir);
    PublicItemsDiffer(Listing(dir), tools);
    ManifestIsTheDirectory(Created(head, dir, tools), dir, tools, options);
    forall item
      ensures item in items <==> item in PublicItems(dir, tools)
    {
      SameItems(Listing(dir), dir, tools, item);
      SameItems(dir, Listing(dir), tools, item);
    }
    ItemsAndNames(dir, tools);
    if items != [] {
      assert items[0] in PublicItems(dir, tools);
    }
    if PublicItems(dir, tools) != [] {
      assert PublicItems(dir, tools)[0] in items;
    }
  }

  lemma SameItems(a: Dir, b: Dir, tools: Tools, item: Item)
    requires forall f :: f in a ==> f in b
    ensures item in PublicItems(a, tools) ==> item in PublicItems(b, tools)
  {
    hide IsSelf, PublicItems;
    PublicItemsAre(a, tools, item);
    PublicItemsAre(b, tools, item);
    if item in PublicItems(a, tools) {
      var k :| 0 <= k < |a| && !IsSelf(a[k].name) && item == ItemOf(a[k], tools);
      assert a[k] in b;
    }
  }

  lemma ItemsAndNames(dir: Dir, tools: Tools)
    ensures PublicItems(dir, tools) != [] <==> PublicNames(dir) != {}
  {
    hide IsSelf, PublicItems;
    if PublicItems(dir, tools) != [] {
      var item := PublicItems(dir, tools)[0];
      PublicItemsAre(dir, tools, item);
      var k :| 0 <= k < |dir| && !IsSelf(dir[k].name) && item == ItemOf(dir[k], tools);
      assert dir[k] in dir && dir[k].name in PublicNames(dir);
    }
    if n :| n in PublicNames(dir) {
      var f :| f in dir && !IsSelf(f.name) && f.name == n;
      var k :| 0 <= k < |dir| && dir[k] == f;
      PublicItemsAre(dir, tools, ItemOf(f, tools));
    }
  }

  // ---------------------------------------------------------------- the post-publication record

  /** A published asset of the record: what was published and what its attestation says. */
  datatype Asset = Asset(item: Item, subjects: seq<A.Subject>, provenance: seq<A.Provenance>)

  /** What is known of the run: the release directory, the attestation files by name, and the publishing context. */
  datatype Context = Context(dir: Dir, attestations: Dir, version: string, identity: string, issuer: string, source: A.Source)

  function AttestationOf(c: Context, name: string): A.File {
    var bytes := Named(c.attestations, name + ".json");
    A.File(name + ".json", if bytes.Some? then bytes.value else [])
  }

  predicate SourceCollected(c: Context) {
    && !A.IsPlaceholder(c.identity) && !A.IsPlaceholder(c.issuer) && !A.IsPlaceholder(c.source.repository)
    && !A.IsPlaceholder(c.source.workflow) && !A.IsPlaceholder(c.source.runId) && !A.IsPlaceholder(c.source.runAttempt)
    && !A.IsPlaceholder(c.source.ref) && !A.IsPlaceholder(c.source.sourceSha)
  }

  /** The asset, its sidecars and its attestation are there; every statement that has subjects binds the source; and one
      of the subjects is the asset as published. */
  predicate Vouched(c: Context, name: string, sha: Bytes -> string) {
    && Named(c.dir, name).Some? && SidecarsThere(c.dir, name) && A.GoodFile(AttestationOf(c, name), c.source)
    && A.Subject(name, sha(Named(c.dir, name).value)) in A.FileSubjects(A.FileStatements(AttestationOf(c, name)))
  }

  function AssetOf(c: Context, item: Item, sha: Bytes -> string): Asset
    requires Named(c.dir, item.name).Some?
  {
    var f, bytes := AttestationOf(c, item.name), Named(c.dir, item.name).value;
    Asset(Item(item.name, item.role, |bytes|, sha(bytes)), A.Minimal(A.AddUnique([], A.FileSubjects(A.FileStatements(f)))),
          A.FileProvenance(A.FileStatements(f), c.source))
  }

  predicate AllVouched(c: Context, items: seq<Item>, sha: Bytes -> string) {
    forall i :: 0 <= i < |items| && !IsSidecar(items[i].name) ==> Vouched(c, items[i].name, sha)
  }

  function AssetsOf(c: Context, items: seq<Item>, sha: Bytes -> string): seq<Asset>
    requires AllVouched(c, items, sha)
  {
    if items == [] then []
    else
      var item := items[|items| - 1];
      AssetsOf(c, items[..|items| - 1], sha) + if IsSidecar(item.name) then [] else [AssetOf(c, item, sha)]
  }

  const STRICT: Options := Options(None, true, true)

  predicate Recordable(c: Context, m: Manifest, tools: Tools) {
    && Valid(m, c.dir, tools, STRICT.(version := Some(c.version))) && SourceCollected(c) && AllVouched(c, m.files, tools.sha)
    && exists i :: 0 <= i < |m.files| && !IsSidecar(m.files[i].name)
  }

  method VouchFor(c: Context, item: Item, sha: Bytes -> string) returns (r: Option<Asset>)
    ensures r.Some? <==> Vouched(c, item.name, sha)
    ensures r.Some? ==> r.value == AssetOf(c, item, sha)
  {
    hide A.GoodFile, A.FileSubjects, A.FileStatements, A.FileProvenance, A.Minimal, HasBytes, Named;
    var file := Named(c.dir, item.name);
    if file.None? {
      return None;
    }
    var signature := CheckThere(c.dir, item.name + ".sig");
    var certificate := CheckThere(c.dir, item.name + ".cert");
    if signature != [] || certificate != [] {
      return None;
    }
    var attestation := Named(c.attestations, item.name + ".json");
    var material, subjects := A.LoadFile(A.File(item.name + ".json", if attestation.None? then [] else attestation.value), c.source, sha);
    if material.None? || A.Subject(item.name, sha(file.value)) !in subjects {
      return None;
    }
    r := Some(Asset(Item(item.name, item.role, |file.value|, sha(file.value)), A.Minimal(A.AddUnique([], subjects)), material.value.provenance));
  }

  method CheckCollected(c: Context) returns (failures: seq<string>)
    ensures failures == [] <==> SourceCollected(c)
  {
    hide A.IsPlaceholder;
    var s := c.source;
    var texts := [c.identity, c.issuer, s.repository, s.workflow, s.runId, s.runAttempt, s.ref, s.sourceSha];
    failures := A.CheckTexts(texts);
    assert texts[0] == c.identity && texts[1] == c.issuer && texts[2] == s.repository && texts[3] == s.workflow
           && texts[4] == s.runId && texts[5] == s.runAttempt && texts[6] == s.ref && texts[7] == s.sourceSha;
  }

  /** `create_record` on a manifest that can be read. */
  method CreateRecord(c: Context, m: Manifest, tools: Tools) returns (assets: Option<seq<Asset>>)
    ensures assets.Some? <==> Recordable(c, m, tools)
    ensures assets.Some? ==> assets.value == AssetsOf(c, m.files, tools.sha)
  {
    hide Valid, SourceCollected, Vouched, AssetOf, EndsWith;
    var failures := ValidateManifest(m, c.dir, tools, Options(Some(c.version), true, true));
    var missing := CheckCollected(c);
    if failures != [] || missing != [] {
      return None;
    }
    var found: seq<Asset> := [];
    var any := false;
    for i := 0 to |m.files|
      invariant AllVouched(c, m.files[..i], tools.sha) && found == AssetsOf(c, m.files[..i], tools.sha)
      invariant any <==> exists k :: 0 <= k < i && !IsSidecar(m.files[k].name)
    {
      assert m.files[..i + 1][..i] == m.files[..i];
      if EndsWith(m.files[i].name, ".sig") || EndsWith(m.files[i].name, ".cert") {
        continue;
      }
      any := true;
      var asset := VouchFor(c, m.files[i], tools.sha);
      if asset.None? {
        return None;
      }
      assert forall k :: 0 <= k <= i ==> m.files[..i + 1][k] == m.files[k];
      found := found + [asset.value];
    }
    assert m.files[..|m.files|] == m.files;
    return if any then Some(found) else None;
  }

  // ---------------------------------------------------------------- what the record vouches for

  lemma {:induction false} SubjectHasStatement(statements: seq<Json.Json>, s: A.Subject) returns (k: nat)
    requires s in A.FileSubjects(statements)
    ensures k < |statements| && s in A.SubjectsFromStatement(statements[k])
  {
    hide A.SubjectsFromStatement;
    if s in A.SubjectsFromStatement(statements[|statements| - 1]) {
      k := |statements| - 1;
    } else {
      k := SubjectHasStatement(statements[..|statements| - 1], s);
    }
  }

  /** The statement is in the asset's attestation, names the asset with its digest, and binds the source. */
  predicate Attests(c: Context, name: string, sha256: string, s: Json.Json) {
    var payload := A.ReadJson(AttestationOf(c, name).bytes);
    payload.Some? && s in Statements.Walk(payload.value) && A.Subject(name, sha256) in A.SubjectsFromStatement(s) && A.Binds(s, c.source)
  }

  lemma VouchedIsAttested(c: Context, name: string, sha: Bytes -> string)
    requires Vouched(c, name, sha)
    ensures exists s :: Attests(c, name, sha(Named(c.dir, name).value), s)
  {
    hide A.FileSubjects, A.SubjectsFromStatement, A.Binds, A.ReadJson, Statements.Walk, AttestationOf;
    var subject := A.Subject(name, sha(Named(c.dir, name).value));
    var statements := A.FileStatements(AttestationOf(c, name));
    var k := SubjectHasStatement(statements, subject);
    assert statements[k] in statements;
    assert A.SubjectsFromStatement(statements[k]) != [];
    assert A.Binds(statements[k], c.source);
    AttestsBecause(c, name, sha(Named(c.dir, name).value), statements[k]);
  }

  lemma AttestsBecause(c: Context, name: string, sha256: string, s: Json.Json)
    requires s in A.FileStatements(AttestationOf(c, name)) && A.Subject(name, sha256) in A.SubjectsFromStatement(s) && A.Binds(s, c.source)
    ensures Attests(c, name, sha256, s)
  {
    hide A.SubjectsFromStatement, A.Binds, A.ReadJson, Statements.Walk, AttestationOf;
  }

  lemma EndsWithMeans(name: string, suffix: string)
    ensures EndsWith(name, suffix) <==> exists asset :: name == asset + suffix
  {
    if EndsWith(name, suffix) {
      assert name == name[..|name| - |suffix|] + suffix;
    }
    if asset :| name == asset + suffix {
      assert name[|asset|..] == suffix;
    }
  }

  /** The three files a manifest never lists, and the names that go unattested. */
  lemma NamesMean(name: string)
    ensures IsSelf(name) <==>
              name in ["release-publication-manifest.json", "release-publication-manifest.json.cert", "release-publication-manifest.json.sig"]
    ensures IsSidecar(name) <==> (exists asset :: name == asset + ".sig") || exists asset :: name == asset + ".cert"
  {
    hide EndsWith;
    EndsWithMeans(name, ".sig");
    EndsWithMeans(name, ".cert");
  }

  /** A file of that name lies in the directory and is not empty. */
  predicate Holds(dir: Dir, name: string) {
    exists i :: 0 <= i < |dir| && dir[i].name == name && dir[i].bytes != []
  }

  lemma BytesAreHeld(dir: Dir, name: string)
    requires HasBytes(dir, name)
    ensures Holds(dir, name)
  {
    var k := NamedIsFile(dir, name);
  }

  lemma SidecarsAreHeld(dir: Dir, name: string)
    requires SidecarsThere(dir, name)
    ensures Holds(dir, name + ".sig") && Holds(dir, name + ".cert")
  {
    hide HasBytes, Holds;
    BytesAreHeld(dir, name + ".sig");
    BytesAreHeld(dir, name + ".cert");
  }

  /** When a record is made, every file of the directory but the manifest, its two sidecars and the signatures and
      certificates is vouched for: its own signature and certificate are there, and its attestation holds a statement that
      names it with the digest of the very bytes published and binds the publication's source. */
  lemma EveryAssetIsAttested(c: Context, m: Manifest, tools: Tools, k: nat)
    requires A.IsListing(c.dir) && Recordable(c, m, tools)
    requires k < |c.dir| && c.dir[k].name != "release-publication-manifest.json"
    requires (forall asset :: c.dir[k].name != asset + ".sig") && forall asset :: c.dir[k].name != asset + ".cert"
    ensures exists s :: Attests(c, c.dir[k].name, tools.sha(c.dir[k].bytes), s)
    ensures Holds(c.dir, c.dir[k].name + ".sig") && Holds(c.dir, c.dir[k].name + ".cert")
  {
    hide A.IsListing, Recordable, IsSelf, IsSidecar, Attests, SidecarsThere, Holds;
    NamesMean(c.dir[k].name);
    var self := "release-publication-manifest.json";
    assert self + ".sig" == "release-publication-manifest.json.sig" && self + ".cert" == "release-publication-manifest.json.cert";
    PublicAssetIsAttested(c, m, tools, k);
    SidecarsAreHeld(c.dir, c.dir[k].name);
  }

  lemma PublicAssetIsAttested(c: Context, m: Manifest, tools: Tools, k: nat)
    requires A.IsListing(c.dir) && Recordable(c, m, tools)
    requires k < |c.dir| && !IsSelf(c.dir[k].name) && !IsSidecar(c.dir[k].name)
    ensures exists s :: Attests(c, c.dir[k].name, tools.sha(c.dir[k].bytes), s)
    ensures SidecarsThere(c.dir, c.dir[k].name)
  {
    hide A.IsListing, Valid, SourceCollected, Vouched, IsSidecar, IsSelf, Attests, HeadIsGood, DistinctNames,
         Publishable, RequiredNames, SidecarsThere;
    ManifestIsTheDirectory(m, c.dir, tools, STRICT.(version := Some(c.version)));
    PublicItemsAre(c.dir, tools, ItemOf(c.dir[k], tools));
    assert ItemOf(c.dir[k], tools) in Elements(m.files);
    var i :| 0 <= i < |m.files| && m.files[i] == ItemOf(c.dir[k], tools);
    assert Vouched(c, m.files[i].name, tools.sha);
    NamedFile(c.dir, k);
    VouchedIsAttested(c, c.dir[k].name, tools.sha);
    VouchedHasSidecars(c, c.dir[k].name, tools.sha);
  }

  lemma VouchedHasSidecars(c: Context, name: string, sha: Bytes -> string)
    requires Vouched(c, name, sha)
    ensures SidecarsThere(c.dir, name)
  {
    hide SidecarsThere, A.GoodFile;
  }

  function Items(assets: seq<Asset>): set<Item> {
    set a | a in assets :: a.item
  }

  lemma {:induction false} AssetsAre(c: Context, items: seq<Item>, sha: Bytes -> string, x: Item)
    requires AllVouched(c, items, sha)
    ensures x in Items(AssetsOf(c, items, sha)) <==>
            exists i :: 0 <= i < |items| && !IsSidecar(items[i].name)
                        && x == Item(items[i].name, items[i].role, |Named(c.dir, items[i].name).value|, sha(Named(c.dir, items[i].name).value))
  {
    hide Vouched, IsSidecar, A.FileSubjects, A.FileStatements, A.FileProvenance, A.Minimal, A.AddUnique, AttestationOf,
         Named;
    if items != [] {
      var front := items[..|items| - 1];
      AssetsAre(c, front, sha, x);
      assert forall i :: 0 <= i < |front| ==> front[i] == items[i];
      AssetsStep(c, items, sha, x);
    }
  }

  lemma AssetsStep(c: Context, items: seq<Item>, sha: Bytes -> string, x: Item)
    requires items != [] && AllVouched(c, items, sha) && AllVouched(c, items[..|items| - 1], sha)
    ensures var last := items[|items| - 1];
            x in Items(AssetsOf(c, items, sha)) <==>
            || x in Items(AssetsOf(c, items[..|items| - 1], sha))
            || (!IsSidecar(last.name) && Vouched(c, last.name, sha) && x == AssetOf(c, last, sha).item)
  {
    hide IsSidecar, AssetOf, SidecarsThere, A.GoodFile, A.FileSubjects, A.FileStatements, AttestationOf;
    var last := items[|items| - 1];
    if !IsSidecar(last.name) {
      assert AssetOf(c, last, sha) in AssetsOf(c, items, sha);
    }
  }

  /** The record lists exactly the public files that are no sidecars, each with its role, size and digest. */
  lemma RecordIsTheRelease(c: Context, m: Manifest, tools: Tools)
    requires A.IsListing(c.dir) && Recordable(c, m, tools)
    ensures Items(AssetsOf(c, m.files, tools.sha)) == set item | item in PublicItems(c.dir, tools) && !IsSidecar(item.name)
  {
    hide A.IsListing, Valid, SourceCollected, Vouched, IsSidecar, IsSelf, HeadIsGood, DistinctNames, Publishable,
         RequiredNames, PublicItems, AssetsOf;
    ManifestIsTheDirectory(m, c.dir, tools, STRICT.(version := Some(c.version)));
    var listed := Items(AssetsOf(c, m.files, tools.sha));
    forall x
      ensures x in listed <==> x in PublicItems(c.dir, tools) && !IsSidecar(x.name)
    {
      AssetsAre(c, m.files, tools.sha, x);
      if i :| 0 <= i < |m.files| && m.files[i] == x {
        assert x in Elements(m.files);
      }
      forall i | 0 <= i < |m.files|
        ensures m.files[i] in PublicItems(c.dir, tools) && Named(c.dir, m.files[i].name).Some?
        ensures m.files[i] == Item(m.files[i].name, m.files[i].role, |Named(c.dir, m.files[i].name).value|,
                                   tools.sha(Named(c.dir, m.files[i].name).value))
      {
        assert m.files[i] in Elements(m.files);
        ItemIsOfFile(c.dir, tools, m.files[i]);
      }
      if x in PublicItems(c.dir, tools) {
        assert x in Elements(m.files);
      }
    }
  }

  lemma ItemIsOfFile(dir: Dir, tools: Tools, item: Item)
    requires A.IsListing(dir) && item in PublicItems(dir, tools)
    ensures var bytes := Named(dir, item.name);
            bytes.Some? && item == Item(item.name, item.role, |bytes.value|, tools.sha(bytes.value))
  {
    hide A.IsListing, IsSelf, PublicItems;
    PublicItemsAre(dir, tools, item);
    var k :| 0 <= k < |dir| && !IsSelf(dir[k].name) && item == ItemOf(dir[k], tools);
    NamedFile(dir, k);
  }
}

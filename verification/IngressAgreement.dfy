/** What acceptance of an operator evidence manifest means, and when the producer's own manifest is accepted. */
module IngressAgreement {
  import opened PyText
  import opened Hashing
  import opened OperatorIngress
  import PosixPath
  import Sorting

  // ---------------------------------------------------------------- what the scan records

  lemma {:induction false} NodeAtEntry(entries: seq<Entry>, k: nat)
    requires IsListing(entries) && k < |entries|
    ensures NodeAt(entries, entries[k].parts) == Some(entries[k].node)
    decreases |entries|
  {
    if k > 0 {
      assert entries[1..][k - 1] == entries[k];
      TailIsListing(entries);
      NodeAtEntry(entries[1..], k - 1);
    }
  }

  lemma TailIsListing(entries: seq<Entry>)
    requires IsListing(entries) && entries != []
    ensures IsListing(entries[1..])
  {
    hide IsName;
    var tail := entries[1..];
    assert forall i :: 0 <= i < |tail| ==> tail[i] == entries[i + 1];
  }

  /** A file below an allowed root. */
  predicate IsRecorded(entries: seq<Entry>, rules: Rules, e: Entry) {
    |e.parts| >= 2 && e.parts[0] in rules.allowed && RootIsDirectory(entries, e.parts[0]) && e.node.Regular? && e.node.bytes != []
  }

  lemma {:induction false} BelowAre(entries: seq<Entry>, root: string, sha: Bytes -> string, item: Item)
    ensures item in RecordsBelow(entries, root, sha) <==>
            exists k :: 0 <= k < |entries| && Below(entries[k], root) && entries[k].node.Regular? && entries[k].node.bytes != []
                        && item == ItemOf(entries[k], sha)
  {
    hide ItemOf, Below;
    if entries != [] {
      var front, e := entries[..|entries| - 1], entries[|entries| - 1];
      BelowAre(front, root, sha, item);
      assert forall k :: 0 <= k < |front| ==> front[k] == entries[k];
    }
  }

  lemma {:induction false} RecordedAre(entries: seq<Entry>, roots: seq<string>, sha: Bytes -> string, item: Item)
    ensures item in Recorded(entries, roots, sha) <==>
            exists i :: 0 <= i < |roots| && RootIsDirectory(entries, roots[i]) && item in RecordsBelow(entries, roots[i], sha)
  {
    hide RecordsBelow, RootIsDirectory;
    if roots != [] {
      var front := roots[..|roots| - 1];
      RecordedAre(entries, front, sha, item);
      assert forall i :: 0 <= i < |front| ==> front[i] == roots[i];
    }
  }

  /** The scan's records are the non-empty files below the allowed roots. */
  lemma ScannedAre(entries: seq<Entry>, rules: Rules, sha: Bytes -> string, item: Item)
    ensures item in Scanned(entries, rules, sha) <==>
            exists k :: 0 <= k < |entries| && IsRecorded(entries, rules, entries[k]) && item == ItemOf(entries[k], sha)
  {
    hide ItemOf, RootIsDirectory, Recorded, RecordsBelow;
    var found := Recorded(entries, rules.allowed, sha);
    Sorting.SortPermutes(found, (a: Item, b: Item) => Less(a.path, b.path));
    Sorting.SamePermutation(found, Scanned(entries, rules, sha));
    RecordedAre(entries, rules.allowed, sha, item);
    if item in found {
      var i :| 0 <= i < |rules.allowed| && RootIsDirectory(entries, rules.allowed[i]) && item in RecordsBelow(entries, rules.allowed[i], sha);
      BelowAre(entries, rules.allowed[i], sha, item);
      var k :| 0 <= k < |entries| && Below(entries[k], rules.allowed[i]) && entries[k].node.Regular? && entries[k].node.bytes != []
               && item == ItemOf(entries[k], sha);
      assert IsRecorded(entries, rules, entries[k]);
    }
    if k :| 0 <= k < |entries| && IsRecorded(entries, rules, entries[k]) && item == ItemOf(entries[k], sha) {
      var i :| 0 <= i < |rules.allowed| && rules.allowed[i] == entries[k].parts[0];
      BelowAre(entries, rules.allowed[i], sha, item);
    }
  }

  // ---------------------------------------------------------------- paths of records

  /** A record's path is safe, in normal form, and has the entry's components. */
  lemma RecordPath(parts: seq<string>)
    requires |parts| >= 2 && forall k :: 0 <= k < |parts| ==> IsName(parts[k])
    ensures var path := PosixPath.Join(parts); SafeRel(path) && PosixPath.AsPosix(path) == path && PosixPath.Parts(path) == parts
  {
    var path := PosixPath.Join(parts);
    PosixPath.PartsOfJoin(parts);
    PosixPath.AsPosixIsRelative(path);
    assert ".." !in parts;
    assert path[|parts[0]|] == '/' && !IsSpace('/');
    StripKeeps(path, |parts[0]|);
    hide Strip, PosixPath.Parts, PosixPath.Join;
  }

  type Row = (string, string, int, string)

  /** Path, role, size and digest of every item. */
  function Table(items: seq<Item>): set<Row> {
    set item | item in items && SafeRel(item.path) :: (PosixPath.AsPosix(item.path), item.role, item.bytes, item.sha256)
  }

  lemma RecordItem(entries: seq<Entry>, rules: Rules, k: nat, sha: Bytes -> string)
    requires IsListing(entries) && k < |entries| && IsRecorded(entries, rules, entries[k]) && IsDigest(sha)
    ensures var e, item := entries[k], ItemOf(entries[k], sha);
            && SafeRel(item.path) && PosixPath.AsPosix(item.path) == item.path && PosixPath.Parts(item.path) == e.parts
            && BytesAt(entries, e.parts) == Some(e.node.bytes) && IsRealSha256(item.sha256) && item.bytes > 0
            && item.role == RoleFor(e.parts)
  {
    hide SafeRel, PosixPath.Parts, PosixPath.AsPosix, PosixPath.Join, RoleFor, IsName, IsRealSha256;
    RecordPath(entries[k].parts);
    NodeAtEntry(entries, k);
    assert IsRealSha256(sha(entries[k].node.bytes));
  }

  /** An item that says the truth about a file is a row of the scan's table if its path is scanned. */
  lemma TrueItemIsScanned(entries: seq<Entry>, rules: Rules, version: string, item: Item, sha: Bytes -> string)
    requires IsListing(entries) && IsDigest(sha) && SafeRel(item.path) && ItemIsTrue(entries, rules, version, item, sha)
    requires PosixPath.AsPosix(item.path) in PathsOf(Scanned(entries, rules, sha))
    ensures (PosixPath.AsPosix(item.path), item.role, item.bytes, item.sha256) in Table(Scanned(entries, rules, sha))
  {
    hide SafeRel, PosixPath.Parts, PosixPath.AsPosix, RoleFor, IsRealSha256, Scanned, IsListing, RootIsDirectory,
         CarriesSchema, BytesAt;
    var scanned := Scanned(entries, rules, sha);
    var r :| r in scanned && SafeRel(r.path) && PosixPath.AsPosix(r.path) == PosixPath.AsPosix(item.path);
    ScannedAre(entries, rules, sha, r);
    var k :| 0 <= k < |entries| && IsRecorded(entries, rules, entries[k]) && r == ItemOf(entries[k], sha);
    RecordItem(entries, rules, k, sha);
    PosixPath.SameNormalForm(r.path, item.path);
    assert r.role == item.role && r.bytes == item.bytes && r.sha256 == item.sha256;
  }

  /** Conversely, an item whose row is in the scan's table says the truth, if the tree is clean and the schema is there. */
  lemma ScannedItemIsTrue(entries: seq<Entry>, rules: Rules, version: string, item: Item, sha: Bytes -> string)
    requires IsListing(entries) && IsDigest(sha) && SafeRel(item.path) && CleanScan(entries, rules, version)
    requires (PosixPath.AsPosix(item.path), item.role, item.bytes, item.sha256) in Table(Scanned(entries, rules, sha))
    ensures ItemIsTrue(entries, rules, version, item, sha) <==>
            var parts := PosixPath.Parts(item.path);
            BytesAt(entries, parts).Some? && CarriesSchema(BytesAt(entries, parts).value, rules.schema(parts))
  {
    hide SafeRel, PosixPath.Parts, PosixPath.AsPosix, RoleFor, IsRealSha256, Scanned, IsListing, CarriesSchema, BytesAt,
         CleanScan;
    var scanned := Scanned(entries, rules, sha);
    var r :| r in scanned && SafeRel(r.path)
             && (PosixPath.AsPosix(r.path), r.role, r.bytes, r.sha256) == (PosixPath.AsPosix(item.path), item.role, item.bytes, item.sha256);
    ScannedAre(entries, rules, sha, r);
    var k :| 0 <= k < |entries| && IsRecorded(entries, rules, entries[k]) && r == ItemOf(entries[k], sha);
    RecordItem(entries, rules, k, sha);
    PosixPath.SameNormalForm(r.path, item.path);
    RecordedInVersion(entries, rules, version, k);
  }

  lemma RecordedInVersion(entries: seq<Entry>, rules: Rules, version: string, k: nat)
    requires k < |entries| && IsRecorded(entries, rules, entries[k]) && CleanScan(entries, rules, version)
    ensures InVersion(rules, entries[k].parts, version)
  {
    hide RootIsDirectory;
    var i :| 0 <= i < |rules.allowed| && rules.allowed[i] == entries[k].parts[0];
    DirectoryExists(entries, rules.allowed[i]);
    hide RootExists;
    assert CleanRoot(entries, rules.allowed[i], rules, version);
    assert Below(entries[k], rules.allowed[i]);
    assert CleanEntry(rules, version, entries[k]);
  }

  /** Every scanned file carries the schema its path demands. */
  predicate SchemasCarried(entries: seq<Entry>, rules: Rules) {
    forall k :: 0 <= k < |entries| && IsRecorded(entries, rules, entries[k]) ==>
      CarriesSchema(entries[k].node.bytes, rules.schema(entries[k].parts))
  }

  // ---------------------------------------------------------------- acceptance

  /** The manifest's items, on their own: the source is named, paths are safe and differ. */
  predicate GoodShape(items: seq<Item>) {
    (forall i :: 0 <= i < |items| ==> items[i].source == "operator-evidence" && SafeRel(items[i].path)) && DistinctPaths(items)
  }

  lemma TablePaths(a: seq<Item>, b: seq<Item>)
    requires Table(a) == Table(b)
    ensures PathsOf(a) == PathsOf(b)
  {
    hide SafeRel, PosixPath.AsPosix;
    forall p
      ensures p in PathsOf(a) <==> p in PathsOf(b)
    {
      PathHasRow(a, p);
      PathHasRow(b, p);
    }
  }

  lemma PathHasRow(items: seq<Item>, p: string)
    ensures p in PathsOf(items) <==> exists row :: row in Table(items) && row.0 == p
  {
    hide SafeRel, PosixPath.AsPosix;
    if p in PathsOf(items) {
      var item :| item in items && SafeRel(item.path) && PosixPath.AsPosix(item.path) == p;
      assert (p, item.role, item.bytes, item.sha256) in Table(items);
    }
  }

  /** Items that are all true and cover the scanned paths make up the scan's table. */
  lemma TrueItemsAreTheScan(entries: seq<Entry>, rules: Rules, version: string, items: seq<Item>, sha: Bytes -> string)
    requires IsListing(entries) && IsDigest(sha) && GoodItems(entries, rules, version, items, sha)
    requires PathsOf(Scanned(entries, rules, sha)) == PathsOf(items)
    ensures Table(items) == Table(Scanned(entries, rules, sha))
  {
    hide IsListing, IsDigest, SafeRel, PosixPath.AsPosix, Scanned, ItemIsTrue, DistinctPaths;
    var scanned := Scanned(entries, rules, sha);
    forall row | row in Table(items)
      ensures row in Table(scanned)
    {
      var item :| item in items && SafeRel(item.path) && row == (PosixPath.AsPosix(item.path), item.role, item.bytes, item.sha256);
      var i :| 0 <= i < |items| && items[i] == item;
      assert GoodItem(entries, rules, version, items[i], sha);
      assert PosixPath.AsPosix(item.path) in PathsOf(items);
      TrueItemIsScanned(entries, rules, version, item, sha);
    }
    forall row | row in Table(scanned)
      ensures row in Table(items)
    {
      PathHasRow(scanned, row.0);
      PathHasRow(items, row.0);
      var mine :| mine in Table(items) && mine.0 == row.0;
      OneRowPerPath(entries, rules, sha, mine, row);
    }
  }

  lemma OneRowPerPath(entries: seq<Entry>, rules: Rules, sha: Bytes -> string, a: Row, b: Row)
    requires IsListing(entries) && IsDigest(sha) && a in Table(Scanned(entries, rules, sha)) && b in Table(Scanned(entries, rules, sha)) && a.0 == b.0
    ensures a == b
  {
    hide SafeRel, PosixPath.Parts, PosixPath.AsPosix, RoleFor, IsRealSha256, Scanned, IsListing, RootIsDirectory,
         BytesAt;
    var scanned := Scanned(entries, rules, sha);
    var r :| r in scanned && SafeRel(r.path) && a == (PosixPath.AsPosix(r.path), r.role, r.bytes, r.sha256);
    var q :| q in scanned && SafeRel(q.path) && b == (PosixPath.AsPosix(q.path), q.role, q.bytes, q.sha256);
    ScannedAre(entries, rules, sha, r);
    ScannedAre(entries, rules, sha, q);
    var k :| 0 <= k < |entries| && IsRecorded(entries, rules, entries[k]) && r == ItemOf(entries[k], sha);
    var l :| 0 <= l < |entries| && IsRecorded(entries, rules, entries[l]) && q == ItemOf(entries[l], sha);
    RecordItem(entries, rules, k, sha);
    RecordItem(entries, rules, l, sha);
    PosixPath.SameNormalForm(r.path, q.path);
  }

  /** On a clean tree, a well-shaped manifest passes item by item, covering the scan, exactly if its table is the scan's
      and every scanned file carries its schema. */
  lemma ItemsMatchScan(entries: seq<Entry>, rules: Rules, version: string, items: seq<Item>, sha: Bytes -> string)
    requires IsListing(entries) && IsDigest(sha) && CleanScan(entries, rules, version)
    ensures GoodItems(entries, rules, version, items, sha) && PathsOf(Scanned(entries, rules, sha)) == PathsOf(items)
            <==> GoodShape(items) && Table(items) == Table(Scanned(entries, rules, sha)) && SchemasCarried(entries, rules)
  {
    hide IsListing, IsDigest, SafeRel, PosixPath.AsPosix, Scanned, ItemIsTrue, CleanScan, RootIsDirectory,
         DistinctPaths, Table, SchemasCarried;
    var scanned := Scanned(entries, rules, sha);
    if GoodItems(entries, rules, version, items, sha) && PathsOf(scanned) == PathsOf(items) {
      TrueItemsAreTheScan(entries, rules, version, items, sha);
      TrueItemsCarry(entries, rules, version, items, sha);
    }
    if GoodShape(items) && Table(items) == Table(scanned) && SchemasCarried(entries, rules) {
      TablePaths(items, scanned);
      forall i | 0 <= i < |items|
        ensures ItemIsTrue(entries, rules, version, items[i], sha)
      {
        RowOfItem(items, i);
        CarriedItemIsTrue(entries, rules, version, items[i], sha);
      }
    }
  }

  lemma RowOfItem(items: seq<Item>, i: nat)
    requires i < |items| && SafeRel(items[i].path)
    ensures (PosixPath.AsPosix(items[i].path), items[i].role, items[i].bytes, items[i].sha256) in Table(items)
  {
    hide SafeRel, PosixPath.AsPosix;
    assert items[i] in items;
  }

  lemma CarriedItemIsTrue(entries: seq<Entry>, rules: Rules, version: string, item: Item, sha: Bytes -> string)
    requires IsListing(entries) && IsDigest(sha) && SafeRel(item.path) && CleanScan(entries, rules, version) && SchemasCarried(entries, rules)
    requires (PosixPath.AsPosix(item.path), item.role, item.bytes, item.sha256) in Table(Scanned(entries, rules, sha))
    ensures ItemIsTrue(entries, rules, version, item, sha)
  {
    ScannedItemIsTrue(entries, rules, version, item, sha);
    hide SafeRel, PosixPath.Parts, PosixPath.AsPosix, RoleFor, IsRealSha256, Scanned, IsListing, RootIsDirectory,
         CarriesSchema, BytesAt, CleanScan, ItemIsTrue;
    var scanned := Scanned(entries, rules, sha);
    var r :| r in scanned && SafeRel(r.path)
             && (PosixPath.AsPosix(r.path), r.role, r.bytes, r.sha256) == (PosixPath.AsPosix(item.path), item.role, item.bytes, item.sha256);
    ScannedAre(entries, rules, sha, r);
    var k :| 0 <= k < |entries| && IsRecorded(entries, rules, entries[k]) && r == ItemOf(entries[k], sha);
    RecordItem(entries, rules, k, sha);
    PosixPath.SameNormalForm(r.path, item.path);
  }

  lemma TrueItemsCarry(entries: seq<Entry>, rules: Rules, version: string, items: seq<Item>, sha: Bytes -> string)
    requires IsListing(entries) && IsDigest(sha) && GoodItems(entries, rules, version, items, sha)
    requires PathsOf(Scanned(entries, rules, sha)) == PathsOf(items)
    ensures SchemasCarried(entries, rules)
  {
    hide SafeRel, PosixPath.Parts, PosixPath.AsPosix, RoleFor, IsRealSha256, Scanned, IsListing, RootIsDirectory,
         CarriesSchema, BytesAt, DistinctPaths;
    var scanned := Scanned(entries, rules, sha);
    forall k | 0 <= k < |entries| && IsRecorded(entries, rules, entries[k])
      ensures CarriesSchema(entries[k].node.bytes, rules.schema(entries[k].parts))
    {
      var r := ItemOf(entries[k], sha);
      RecordItem(entries, rules, k, sha);
      ScannedAre(entries, rules, sha, r);
      assert PosixPath.AsPosix(r.path) in PathsOf(scanned);
      var item :| item in items && SafeRel(item.path) && PosixPath.AsPosix(item.path) == PosixPath.AsPosix(r.path);
      var i :| 0 <= i < |items| && items[i] == item;
      assert GoodItem(entries, rules, version, items[i], sha);
      PosixPath.SameNormalForm(r.path, item.path);
    }
  }

  /** Acceptance with an input root means that the manifest's table of paths, roles, sizes and digests is the tree's own,
      and nothing else is needed but the conditions that do not concern single files. */
  lemma AcceptanceIsEquality(m: Manifest, entries: seq<Entry>, rules: Rules, context: Context, sha: Bytes -> string)
    requires IsListing(entries) && IsDigest(sha)
    ensures Accepted(m, entries, rules, context, sha) <==>
            && HeadIsGood(m.head, context.now) && m.files != [] && GoodShape(m.files) && CleanScan(entries, rules, m.head.version)
            && Table(m.files) == Table(Scanned(entries, rules, sha)) && SchemasCarried(entries, rules)
            && m.required == rules.required && rules.required <= PathsOf(m.files) && rules.required <= RawPaths(m.files)
            && NothingForbidden(entries, rules, m.head.version, context) && rules.core(entries)
  {
    hide IsListing, IsDigest, HeadIsGood, GoodItems, GoodShape, CleanScan, Table, Scanned, SchemasCarried, PathsOf,
         RawPaths, NothingForbidden;
    if CleanScan(entries, rules, m.head.version) {
      ItemsMatchScan(entries, rules, m.head.version, m.files, sha);
    }
  }

  // ---------------------------------------------------------------- the producer's own manifest

  lemma {:induction false} BelowDiffer(entries: seq<Entry>, root: string, sha: Bytes -> string)
    requires IsListing(entries)
    ensures Sorting.NoRepeats(RecordsBelow(entries, root, sha))
  {
    if entries != [] {
      var front, e := entries[..|entries| - 1], entries[|entries| - 1];
      FrontIsListing(entries);
      BelowDiffer(front, root, sha);
      hide ItemOf, Below, IsListing, RecordsBelow;
      if e.node.Regular? {
        LastIsNew(entries, root, sha);
      }
      RecordsBelowStep(entries, root, sha);
    }
  }

  lemma RecordsBelowStep(entries: seq<Entry>, root: string, sha: Bytes -> string)
    requires entries != []
    ensures var front, e := entries[..|entries| - 1], entries[|entries| - 1];
            || RecordsBelow(entries, root, sha) == RecordsBelow(front, root, sha)
            || (e.node.Regular? && RecordsBelow(entries, root, sha) == RecordsBelow(front, root, sha) + [ItemOf(e, sha)])
  {
    hide ItemOf, Below;
  }

  lemma FrontIsListing(entries: seq<Entry>)
    requires IsListing(entries) && entries != []
    ensures IsListing(entries[..|entries| - 1])
  {
    hide IsName;
  }

  lemma LastIsNew(entries: seq<Entry>, root: string, sha: Bytes -> string)
    requires IsListing(entries) && entries != [] && entries[|entries| - 1].node.Regular?
    ensures ItemOf(entries[|entries| - 1], sha) !in RecordsBelow(entries[..|entries| - 1], root, sha)
  {
    var front, e := entries[..|entries| - 1], entries[|entries| - 1];
    var item := ItemOf(e, sha);
    BelowAre(front, root, sha, item);
    if item in RecordsBelow(front, root, sha) {
      var k :| 0 <= k < |front| && Below(front[k], root) && front[k].node.Regular? && front[k].node.bytes != [] && item == ItemOf(front[k], sha);
      JoinIsReadable(entries[k].parts, e.parts);
      assert false;
    }
  }

  lemma JoinIsReadable(a: seq<string>, b: seq<string>)
    requires (forall k :: 0 <= k < |a| ==> IsName(a[k])) && (forall k :: 0 <= k < |b| ==> IsName(b[k]))
    ensures PosixPath.Join(a) == PosixPath.Join(b) ==> a == b
  {
    PosixPath.PartsOfJoin(a);
    PosixPath.PartsOfJoin(b);
    if PosixPath.Join(a) == PosixPath.Join(b) {
      assert PosixPath.Parts(PosixPath.Join(a)) == PosixPath.Parts(PosixPath.Join(b));
    }
  }

  /** An item is recorded below one root only. */
  lemma BelowIsDisjoint(entries: seq<Entry>, one: string, other: string, sha: Bytes -> string, item: Item)
    requires IsListing(entries) && one != other && item in RecordsBelow(entries, one, sha)
    ensures item !in RecordsBelow(entries, other, sha)
  {
    BelowAre(entries, one, sha, item);
    BelowAre(entries, other, sha, item);
    hide RecordsBelow, IsName, RoleFor;
    if item in RecordsBelow(entries, other, sha) {
      hide PosixPath.Join;
      var k :| 0 <= k < |entries| && Below(entries[k], one) && entries[k].node.Regular? && entries[k].node.bytes != []
               && item == ItemOf(entries[k], sha);
      var l :| 0 <= l < |entries| && Below(entries[l], other) && entries[l].node.Regular? && entries[l].node.bytes != []
               && item == ItemOf(entries[l], sha);
      assert PosixPath.Join(entries[k].parts) == item.path == PosixPath.Join(entries[l].parts);
      JoinIsReadable(entries[k].parts, entries[l].parts);
    }
  }

  /** No path is recorded twice, the allowed roots being different names. */
  lemma {:induction false} RecordedDiffer(entries: seq<Entry>, roots: seq<string>, sha: Bytes -> string)
    requires IsListing(entries) && Sorting.NoRepeats(roots)
    ensures Sorting.NoRepeats(Recorded(entries, roots, sha))
  {
    hide RecordsBelow, RootIsDirectory, IsListing;
    if roots != [] {
      var front, root := roots[..|roots| - 1], roots[|roots| - 1];
      RecordedDiffer(entries, front, sha);
      BelowDiffer(entries, root, sha);
      forall item | item in Recorded(entries, front, sha)
        ensures item !in RecordsBelow(entries, root, sha)
      {
        RecordedAre(entries, front, sha, item);
        var i :| 0 <= i < |front| && RootIsDirectory(entries, front[i]) && item in RecordsBelow(entries, front[i], sha);
        assert roots[i] == front[i];
        BelowIsDisjoint(entries, front[i], root, sha, item);
      }
      Sorting.NoRepeatsConcat(Recorded(entries, front, sha), RecordsBelow(entries, root, sha));
    }
  }

  lemma ScanHasGoodShape(entries: seq<Entry>, rules: Rules, sha: Bytes -> string)
    requires IsListing(entries) && IsDigest(sha) && Sorting.NoRepeats(rules.allowed)
    ensures GoodShape(Scanned(entries, rules, sha))
  {
    var scanned := Scanned(entries, rules, sha);
    RecordedDiffer(entries, rules.allowed, sha);
    Sorting.SortPermutes(Recorded(entries, rules.allowed, sha), (a: Item, b: Item) => Less(a.path, b.path));
    Sorting.SamePermutation(Recorded(entries, rules.allowed, sha), scanned);
    hide SafeRel, PosixPath.Parts, PosixPath.AsPosix, RoleFor, Scanned, IsListing, RootIsDirectory, BytesAt, Recorded,
         IsDigest, IsRealSha256;
    forall i | 0 <= i < |scanned|
      ensures scanned[i].source == "operator-evidence" && SafeRel(scanned[i].path)
    {
      ScannedAre(entries, rules, sha, scanned[i]);
      var k :| 0 <= k < |entries| && IsRecorded(entries, rules, entries[k]) && scanned[i] == ItemOf(entries[k], sha);
      RecordItem(entries, rules, k, sha);
    }
    forall i, j | 0 <= i < j < |scanned|
      ensures PosixPath.AsPosix(scanned[i].path) != PosixPath.AsPosix(scanned[j].path)
    {
      ScannedAre(entries, rules, sha, scanned[i]);
      ScannedAre(entries, rules, sha, scanned[j]);
      var k :| 0 <= k < |entries| && IsRecorded(entries, rules, entries[k]) && scanned[i] == ItemOf(entries[k], sha);
      var l :| 0 <= l < |entries| && IsRecorded(entries, rules, entries[l]) && scanned[j] == ItemOf(entries[l], sha);
      RecordItem(entries, rules, k, sha);
      RecordItem(entries, rules, l, sha);
      PosixPath.SameNormalForm(scanned[i].path, scanned[j].path);
    }
  }

  lemma RecordsAreNormal(entries: seq<Entry>, rules: Rules, sha: Bytes -> string)
    requires IsListing(entries) && IsDigest(sha)
    ensures PathsOf(Scanned(entries, rules, sha)) == RawPaths(Scanned(entries, rules, sha))
  {
    hide SafeRel, PosixPath.Parts, PosixPath.AsPosix, RoleFor, Scanned, IsListing, RootIsDirectory, BytesAt, IsDigest,
         IsRealSha256;
    var scanned := Scanned(entries, rules, sha);
    forall r | r in scanned
      ensures SafeRel(r.path) && PosixPath.AsPosix(r.path) == r.path
    {
      ScannedAre(entries, rules, sha, r);
      var k :| 0 <= k < |entries| && IsRecorded(entries, rules, entries[k]) && r == ItemOf(entries[k], sha);
      RecordItem(entries, rules, k, sha);
    }
  }

  /** The manifest created without a failure is accepted on the same tree exactly if it is not yet expired and its window
      not empty, the producer's fields are filled, there is a file, every file carries the schema its path demands, and
      no forbidden root is there. */
  lemma CreatedIsAccepted(head: Head, entries: seq<Entry>, rules: Rules, context: Context, sha: Bytes -> string)
    requires IsListing(entries) && IsDigest(sha) && Sorting.NoRepeats(rules.allowed)
    requires CreatesCleanly(head, entries, rules, sha)
    ensures Accepted(Manifest(head, rules.required, Scanned(entries, rules, sha)), entries, rules, context, sha) <==>
            && HeadIsGood(head, context.now) && Scanned(entries, rules, sha) != [] && SchemasCarried(entries, rules)
            && NothingForbidden(entries, rules, head.version, context)
  {
    hide IsListing, IsDigest, HeadIsGood, CleanScan, Table, Scanned, SchemasCarried, PathsOf, RawPaths,
         NothingForbidden, GoodShape, Accepted;
    AcceptanceIsEquality(Manifest(head, rules.required, Scanned(entries, rules, sha)), entries, rules, context, sha);
    ScanHasGoodShape(entries, rules, sha);
    RecordsAreNormal(entries, rules, sha);
  }
}

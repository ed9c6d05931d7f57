/** When the references of an assembled bundle are true of its files: exactly if no two copies to one place differ. */
module BundleCopies {
  import opened PyText
  import opened Hashing
  import opened EvidenceGraph
  import opened BundleClosure
  import PosixPath

  /** The reference measures the file at its path. */
  predicate TrueIn(files: Tree, r: Ref, sha: Bytes -> string) {
    var key := PosixPath.AsPosix(r.path);
    key in files && r.measured == Measurement(Some(sha(files[key])), Some(|files[key]|))
  }

  predicate SameMeasure(a: Bytes, b: Bytes, sha: Bytes -> string) {
    sha(a) == sha(b) && |a| == |b|
  }

  function PlaceOf(c: Copy): string {
    PosixPath.AsPosix(c.rel)
  }

  /** Copies to one place agree in digest and size. */
  predicate NoClash(copies: seq<Copy>, sha: Bytes -> string) {
    forall c, d :: c in copies && d in copies && PlaceOf(c) == PlaceOf(d) ==> SameMeasure(c.bytes, d.bytes, sha)
  }

  function RefsOf(copies: seq<Copy>, sha: Bytes -> string): set<Ref> {
    set c | c in copies :: RefOf(c.rel, c.bytes, sha)
  }

  // ---------------------------------------------------------------- copies

  /** A place holds the last copy that goes to it, or what it held before. */
  lemma {:induction false} LaidAt(files: Tree, copies: seq<Copy>, place: string)
    ensures (exists k :: 0 <= k < |copies| && PlaceOf(copies[k]) == place) ==>
              place in Laid(files, copies)
              && exists k :: 0 <= k < |copies| && PlaceOf(copies[k]) == place && Laid(files, copies)[place] == copies[k].bytes
    ensures (forall k :: 0 <= k < |copies| ==> PlaceOf(copies[k]) != place) ==>
              (place in Laid(files, copies) <==> place in files) && (place in files ==> Laid(files, copies)[place] == files[place])
  {
    hide PosixPath.AsPosix;
    if copies != [] {
      var front, last := copies[..|copies| - 1], copies[|copies| - 1];
      LaidAt(files, front, place);
      assert forall k :: 0 <= k < |front| ==> front[k] == copies[k];
      if PlaceOf(last) == place {
        assert copies[|copies| - 1] == last;
      } else if k :| 0 <= k < |copies| && PlaceOf(copies[k]) == place {
        assert front[k] == copies[k];
        var l :| 0 <= l < |front| && PlaceOf(front[l]) == place && Laid(files, front)[place] == front[l].bytes;
        assert copies[l] == front[l];
      }
    }
  }

  /** All references to the copies are true of the files they end up as, exactly if no copies to one place differ. */
  lemma CopiesAreTrue(files: Tree, copies: seq<Copy>, sha: Bytes -> string)
    ensures (forall r :: r in RefsOf(copies, sha) ==> TrueIn(Laid(files, copies), r, sha)) <==> NoClash(copies, sha)
  {
    hide Laid, PosixPath.AsPosix;
    var after := Laid(files, copies);
    forall k | 0 <= k < |copies|
      ensures RefOf(copies[k].rel, copies[k].bytes, sha) in RefsOf(copies, sha)
      ensures PlaceOf(copies[k]) in after
      ensures TrueIn(after, RefOf(copies[k].rel, copies[k].bytes, sha), sha) <==> SameMeasure(copies[k].bytes, after[PlaceOf(copies[k])], sha)
    {
      assert copies[k] in copies;
      LaidAt(files, copies, PlaceOf(copies[k]));
    }
    if NoClash(copies, sha) {
      forall k | 0 <= k < |copies|
        ensures SameMeasure(copies[k].bytes, after[PlaceOf(copies[k])], sha)
      {
        LaidAt(files, copies, PlaceOf(copies[k]));
        var l :| 0 <= l < |copies| && PlaceOf(copies[l]) == PlaceOf(copies[k]) && after[PlaceOf(copies[k])] == copies[l].bytes;
      }
      forall r | r in RefsOf(copies, sha)
        ensures TrueIn(after, r, sha)
      {
        var c :| c in copies && r == RefOf(c.rel, c.bytes, sha);
        var k :| 0 <= k < |copies| && copies[k] == c;
      }
    }
  }

  // ---------------------------------------------------------------- the assembly's references

  function SlotRefs(slot: Option<Ref>): set<Ref> {
    if slot.Some? then {slot.value} else {}
  }

  function ListRefs(entries: seq<Listed>): set<Ref> {
    set entry | entry in entries :: entry.ref
  }

  /** The references that the assembly can add to. */
  function Refs(e: FinalEvidence): set<Ref> {
    SlotRefs(e.releaseInput) + SlotRefs(e.roleBindings) + SlotRefs(e.retention) + SlotRefs(e.reproducibility)
    + ListRefs(e.signingManifests) + ListRefs(e.otaArtifacts) + ListRefs(e.hardwareSubjects)
    + ListRefs(e.securityReports) + ListRefs(e.scannerReports) + ListRefs(e.imageScanReports) + ListRefs(e.runtimeSuites)
  }

  lemma ListRefsConcat(a: seq<Listed>, b: seq<Listed>)
    ensures ListRefs(a + b) == ListRefs(a) + ListRefs(b)
  {
    assert forall x :: x in a + b <==> x in a || x in b;
  }

  lemma RefsOfConcat(a: seq<Copy>, b: seq<Copy>, sha: Bytes -> string)
    ensures RefsOf(a + b, sha) == RefsOf(a, sha) + RefsOf(b, sha)
  {
    hide RefOf;
    assert forall x :: x in a + b <==> x in a || x in b;
  }

  /** What one copy leads to: a filled slot, or an entry. */
  lemma CopyHasRef(i: Inputs, before: Option<Ref>, tag: string, source: string, rel: string)
    ensures RefsOf(CopyOf(i, source, rel), i.sha) <= SlotRefs(Slot(before, i, source, rel)) <= SlotRefs(before) + RefsOf(CopyOf(i, source, rel), i.sha)
    ensures ListRefs(Entry(i, tag, source, rel)) == RefsOf(CopyOf(i, source, rel), i.sha)
  {
    hide HasFile, RefOf, FileAt;
    if HasFile(i.root, source) {
      var c, entry := CopyOf(i, source, rel)[0], Entry(i, tag, source, rel)[0];
      assert c in CopyOf(i, source, rel) && entry in Entry(i, tag, source, rel);
      assert entry.ref == RefOf(c.rel, c.bytes, i.sha);
    }
  }

  lemma {:induction false} ReportRefs(i: Inputs, scans: seq<string>)
    ensures ListRefs(SecurityEntries(i, scans)) == RefsOf(ReportCopies(i, scans), i.sha)
    ensures ListRefs(ReportEntries(i, scans)) <= RefsOf(ReportCopies(i, scans), i.sha)
  {
    hide Entry, CopyOf, ListRefs, RefsOf, ReportSource, ReportCopy, IsImageReport;
    NothingHasNoRefs(i.sha);
    if scans != [] {
      var front, scan := scans[..|scans| - 1], scans[|scans| - 1];
      ReportRefs(i, front);
      var entry, copy := Entry(i, scan, ReportSource(i, scan), ReportCopy(scan)), CopyOf(i, ReportSource(i, scan), ReportCopy(scan));
      CopyHasRef(i, None, scan, ReportSource(i, scan), ReportCopy(scan));
      ListRefsConcat(SecurityEntries(i, front), entry);
      ListRefsConcat(ReportEntries(i, front), if IsImageReport(i, scan) then entry else []);
      RefsOfConcat(ReportCopies(i, front), copy, i.sha);
    }
  }

  lemma NothingHasNoRefs(sha: Bytes -> string)
    ensures ListRefs([]) == {} && RefsOf([], sha) == {}
  {
  }

  lemma {:induction false} SuiteRefs(i: Inputs, suites: seq<string>)
    ensures ListRefs(SuiteEntries(i, suites)) == RefsOf(SuiteCopies(i, suites), i.sha)
  {
    hide Entry, CopyOf, ListRefs, RefsOf, SuiteSource, SuiteCopy;
    NothingHasNoRefs(i.sha);
    if suites != [] {
      var front, suite := suites[..|suites| - 1], suites[|suites| - 1];
      SuiteRefs(i, front);
      CopyHasRef(i, None, suite, SuiteSource(i, suite), SuiteCopy(suite));
      ListRefsConcat(SuiteEntries(i, front), Entry(i, suite, SuiteSource(i, suite), SuiteCopy(suite)));
      RefsOfConcat(SuiteCopies(i, front), CopyOf(i, SuiteSource(i, suite), SuiteCopy(suite)), i.sha);
    }
  }

  /** The references of the copies made for slots and single entries. */
  function SingleRefs(i: Inputs): set<Ref> {
    RefsOf(CopyOf(i, BindingSource(i), BindingCopy(i)), i.sha) + RefsOf(CopyOf(i, RoleBindingsSource(i), ROLE_BINDINGS_COPY), i.sha)
    + RefsOf(CopyOf(i, RetentionSource(i), RETENTION_COPY), i.sha) + RefsOf(CopyOf(i, SigningSource(i), SIGNING_COPY), i.sha)
    + RefsOf(CopyOf(i, OtaSource(i), OTA_COPY), i.sha) + RefsOf(CopyOf(i, HardwareSource(i), HARDWARE_COPY), i.sha)
    + RefsOf(CopyOf(i, ReproducibilitySource(i), REPRODUCIBILITY_COPY), i.sha)
  }

  lemma SlotCopyRefs(i: Inputs)
    ensures RefsOf(SlotCopies(i), i.sha) == SingleRefs(i)
  {
    hide CopyOf, RefsOf, BindingSource, RoleBindingsSource, RetentionSource, SigningSource, OtaSource, HardwareSource,
         ReproducibilitySource, BindingCopy, ROLE_BINDINGS_COPY, RETENTION_COPY, SIGNING_COPY, OTA_COPY, HARDWARE_COPY,
         REPRODUCIBILITY_COPY;
    var a, b := CopyOf(i, BindingSource(i), BindingCopy(i)), CopyOf(i, RoleBindingsSource(i), ROLE_BINDINGS_COPY);
    var c, d := CopyOf(i, RetentionSource(i), RETENTION_COPY), CopyOf(i, SigningSource(i), SIGNING_COPY);
    var e, f := CopyOf(i, OtaSource(i), OTA_COPY), CopyOf(i, HardwareSource(i), HARDWARE_COPY);
    RefsOfConcat(a, b, i.sha);
    RefsOfConcat(a + b, c, i.sha);
    RefsOfConcat(a + b + c, d, i.sha);
    RefsOfConcat(a + b + c + d, e, i.sha);
    RefsOfConcat(a + b + c + d + e, f, i.sha);
    RefsOfConcat(a + b + c + d + e + f, CopyOf(i, ReproducibilitySource(i), REPRODUCIBILITY_COPY), i.sha);
  }

  /** The slots and single entries after the assembly. */
  lemma SingleRefsAppear(e: FinalEvidence, i: Inputs)
    ensures var after := Applied(e, i);
            SingleRefs(i) <= Refs(after)
            && SlotRefs(after.releaseInput) + SlotRefs(after.roleBindings) + SlotRefs(after.retention) + SlotRefs(after.reproducibility)
               + ListRefs(after.signingManifests) + ListRefs(after.otaArtifacts) + ListRefs(after.hardwareSubjects)
               <= Refs(e) + SingleRefs(i)
  {
    hide Slot, Entry, CopyOf, RefsOf, ListRefs, SlotRefs, BindingSource, RoleBindingsSource, RetentionSource,
         SigningSource, OtaSource, HardwareSource, ReproducibilitySource, BindingCopy, ROLE_BINDINGS_COPY,
         RETENTION_COPY, SIGNING_COPY, OTA_COPY, HARDWARE_COPY, REPRODUCIBILITY_COPY, ReportEntries, SecurityEntries,
         SuiteEntries;
    CopyHasRef(i, e.releaseInput, i.target, BindingSource(i), BindingCopy(i));
    CopyHasRef(i, e.roleBindings, i.target, RoleBindingsSource(i), ROLE_BINDINGS_COPY);
    CopyHasRef(i, e.retention, i.target, RetentionSource(i), RETENTION_COPY);
    CopyHasRef(i, e.reproducibility, i.target, ReproducibilitySource(i), REPRODUCIBILITY_COPY);
    CopyHasRef(i, None, i.target, SigningSource(i), SIGNING_COPY);
    CopyHasRef(i, None, i.target, OtaSource(i), OTA_COPY);
    CopyHasRef(i, None, i.target, HardwareSource(i), HARDWARE_COPY);
    ListRefsConcat(e.signingManifests, Entry(i, i.target, SigningSource(i), SIGNING_COPY));
    ListRefsConcat(e.otaArtifacts, Entry(i, i.target, OtaSource(i), OTA_COPY));
    ListRefsConcat(e.hardwareSubjects, Entry(i, i.target, HardwareSource(i), HARDWARE_COPY));
  }

  /** The assembly adds a reference for every copy, and no other. */
  lemma CopiesAreReferenced(e: FinalEvidence, i: Inputs)
    ensures RefsOf(Copies(e, i), i.sha) <= Refs(Applied(e, i)) <= Refs(e) + RefsOf(Copies(e, i), i.sha)
  {
    SingleRefsAppear(e, i);
    SlotCopyRefs(i);
    ReportRefs(i, e.scans);
    SuiteRefs(i, i.suites);
    hide Slot, Entry, RefsOf, ListRefs, SlotRefs, SlotCopies, ReportCopies, SuiteCopies, ReportEntries, SecurityEntries,
         SuiteEntries, SingleRefs;
    RefsOfConcat(SlotCopies(i), ReportCopies(i, e.scans), i.sha);
    RefsOfConcat(SlotCopies(i) + ReportCopies(i, e.scans), SuiteCopies(i, i.suites), i.sha);
    ListRefsConcat(e.securityReports, SecurityEntries(i, e.scans));
    ListRefsConcat(e.scannerReports, ReportEntries(i, e.scans));
    ListRefsConcat(e.imageScanReports, ReportEntries(i, e.scans));
    ListRefsConcat(e.runtimeSuites, SuiteEntries(i, i.suites));
  }

  /** The references of the assembled bundle are all true of its files exactly if no two copies to one place differ, given
      that the bundle's references were true before and none of them points to where the assembly writes. */
  lemma BundleIsTrue(files: Tree, e: FinalEvidence, i: Inputs)
    requires forall r :: r in Refs(e) ==> TrueIn(files, r, i.sha)
    requires forall r, c :: r in Refs(e) && c in Copies(e, i) ==> PosixPath.AsPosix(r.path) != PlaceOf(c)
    ensures (forall r :: r in Refs(Applied(e, i)) ==> TrueIn(Laid(files, Copies(e, i)), r, i.sha)) <==> NoClash(Copies(e, i), i.sha)
  {
    hide Refs, RefsOf, Copies, Laid, NoClash, Applied, PosixPath.AsPosix;
    var copies := Copies(e, i);
    CopiesAreReferenced(e, i);
    CopiesAreTrue(files, copies, i.sha);
    forall r | r in Refs(e)
      ensures TrueIn(Laid(files, copies), r, i.sha)
    {
      LaidAt(files, copies, PosixPath.AsPosix(r.path));
    }
  }

  // ---------------------------------------------------------------- which copies can meet

  /** The second component of a destination, by its length and first letter. */
  function Room(rel: string): int {
    var parts := PosixPath.Parts(rel);
    if |parts| < 2 || parts[1] == [] then 0 else |parts[1]| * 1000 + parts[1][0] as int
  }

  predicate AreIn(copies: seq<Copy>, rooms: set<int>) {
    forall c :: c in copies ==> Room(c.rel) in rooms
  }

  /** Copies to different rooms never meet. */
  lemma ApartInRooms(a: seq<Copy>, ra: set<int>, b: seq<Copy>, rb: set<int>, sha: Bytes -> string)
    requires AreIn(a, ra) && AreIn(b, rb) && ra !! rb
    ensures NoClash(a + b, sha) <==> NoClash(a, sha) && NoClash(b, sha)
    ensures AreIn(a + b, ra + rb)
  {
    hide Room, PosixPath.AsPosix, SameMeasure;
    forall c, d | c in a && d in b
      ensures PlaceOf(c) != PlaceOf(d)
    {
      SameRoom(c.rel, d.rel);
    }
    assert forall c :: c in a + b <==> c in a || c in b;
  }

  lemma SameRoom(p: string, q: string)
    ensures PosixPath.AsPosix(p) == PosixPath.AsPosix(q) ==> Room(p) == Room(q)
  {
    PosixPath.SameNormalForm(p, q);
    hide PosixPath.AsPosix, PosixPath.Parts;
  }

  lemma OneCopy(i: Inputs, source: string, rel: string, room: int)
    requires Room(rel) == room
    ensures AreIn(CopyOf(i, source, rel), {room}) && NoClash(CopyOf(i, source, rel), i.sha)
  {
    hide Room, HasFile, FileAt, PosixPath.AsPosix;
  }

  lemma RoomOf(dir: string, room: string, rest: string)
    requires PosixPath.IsPart(dir) && PosixPath.IsPart(room)
    ensures PosixPath.Parts(dir + "/" + room + "/" + rest) == [dir, room] + PosixPath.Parts(rest)
    ensures PosixPath.Parts(dir + "/" + room) == [dir, room]
    ensures Room(dir + "/" + room + "/" + rest) == Room(dir + "/" + room) == |room| * 1000 + room[0] as int
  {
    PosixPath.NameOfPart(dir);
    PosixPath.NameOfPart(room);
    PosixPath.PartsConcat(dir, room);
    PosixPath.PartsConcat(dir + "/" + room, rest);
    hide PosixPath.Parts, PosixPath.Name;
  }

  lemma RoomOfTwo(dir: string, name: string)
    requires PosixPath.IsPart(dir) && PosixPath.IsPart(name)
    ensures Room(PosixPath.Join([dir, name])) == |name| * 1000 + name[0] as int
  {
    hide Room, PosixPath.Join;
    PosixPath.JoinTwo(dir, name);
    RoomOf(dir, name, "");
  }

  lemma RoomOfThree(dir: string, room: string, name: string)
    requires PosixPath.IsPart(dir) && PosixPath.IsPart(room)
    ensures Room(PosixPath.Join([dir, room, name])) == |room| * 1000 + room[0] as int
  {
    hide Room, PosixPath.Join;
    PosixPath.JoinThree(dir, room, name);
    RoomOf(dir, room, name);
  }

  lemma RoomsOfGovernance(i: Inputs)
    ensures Room(BindingCopy(i)) == 14114 && Room(ROLE_BINDINGS_COPY) == 18114 && Room(RETENTION_COPY) == 23114
  {
    hide PosixPath.Join, PosixPath.Parts, Room, ProfileOf;
    RoomOf("preflight", "release-inputs", ProfileOf(i.version) + ".json");
    assert BindingCopy(i) == "preflight" + "/" + "release-inputs" + "/" + (ProfileOf(i.version) + ".json");
    RoomOfTwo("governance", "role-bindings.json");
    RoomOfTwo("retention", "retention-manifest.json");
  }

  lemma RoomsOfTarget()
    ensures Room(SIGNING_COPY) == 7115 && Room(OTA_COPY) == 3111 && Room(HARDWARE_COPY) == 5105 && Room(REPRODUCIBILITY_COPY) == 15114
  {
    hide PosixPath.Join, PosixPath.Parts, Room;
    RoomOfThree("preflight", "signing", "signing-manifest.json");
    RoomOfThree("preflight", "ota", "ota-artifacts.json");
    RoomOfThree("hardware", "input", "hardware-subject.json");
    RoomOfThree("preflight", "reproducibility", "reproducibility.json");
  }

  const SLOT_ROOMS := {14114, 18114, 23114, 7115, 3111, 5105, 15114}

  lemma SlotsDoNotClash(i: Inputs)
    ensures AreIn(SlotCopies(i), SLOT_ROOMS) && NoClash(SlotCopies(i), i.sha)
  {
    hide CopyOf, AreIn, NoClash, Room, BindingSource, RoleBindingsSource, RetentionSource, SigningSource, OtaSource, HardwareSource,
         ReproducibilitySource, BindingCopy, ROLE_BINDINGS_COPY, RETENTION_COPY, SIGNING_COPY, OTA_COPY, HARDWARE_COPY,
         REPRODUCIBILITY_COPY;
    RoomsOfGovernance(i);
    RoomsOfTarget();
    var a, b := CopyOf(i, BindingSource(i), BindingCopy(i)), CopyOf(i, RoleBindingsSource(i), ROLE_BINDINGS_COPY);
    var c, d := CopyOf(i, RetentionSource(i), RETENTION_COPY), CopyOf(i, SigningSource(i), SIGNING_COPY);
    var e, f := CopyOf(i, OtaSource(i), OTA_COPY), CopyOf(i, HardwareSource(i), HARDWARE_COPY);
    OneCopy(i, BindingSource(i), BindingCopy(i), 14114);
    OneCopy(i, RoleBindingsSource(i), ROLE_BINDINGS_COPY, 18114);
    OneCopy(i, RetentionSource(i), RETENTION_COPY, 23114);
    OneCopy(i, SigningSource(i), SIGNING_COPY, 7115);
    OneCopy(i, OtaSource(i), OTA_COPY, 3111);
    OneCopy(i, HardwareSource(i), HARDWARE_COPY, 5105);
    OneCopy(i, ReproducibilitySource(i), REPRODUCIBILITY_COPY, 15114);
    var two := {14114} + {18114};
    var three := two + {23114};
    var four := three + {7115};
    var five := four + {3111};
    var six := five + {5105};
    ApartInRooms(a, {14114}, b, {18114}, i.sha);
    ApartInRooms(a + b, two, c, {23114}, i.sha);
    ApartInRooms(a + b + c, three, d, {7115}, i.sha);
    ApartInRooms(a + b + c + d, four, e, {3111}, i.sha);
    ApartInRooms(a + b + c + d + e, five, f, {5105}, i.sha);
    ApartInRooms(a + b + c + d + e + f, six, CopyOf(i, ReproducibilitySource(i), REPRODUCIBILITY_COPY), {15114}, i.sha);
    assert six + {15114} == SLOT_ROOMS;
  }

  // ---------------------------------------------------------------- reports and suites

  /** Scans whose reports have one file name have reports of one digest and size. */
  predicate ReportsAgree(i: Inputs, scans: seq<string>) {
    forall s, t :: s in scans && t in scans && HasFile(i.root, ReportSource(i, s)) && HasFile(i.root, ReportSource(i, t))
                   && PosixPath.Name(s + ".json") == PosixPath.Name(t + ".json") ==>
      SameMeasure(FileAt(i.root, ReportSource(i, s)).value, FileAt(i.root, ReportSource(i, t)).value, i.sha)
  }

  lemma {:induction false} ReportCopiesAre(i: Inputs, scans: seq<string>, c: Copy)
    ensures c in ReportCopies(i, scans) <==>
            exists s :: s in scans && HasFile(i.root, ReportSource(i, s)) && c == Copy(ReportCopy(s), FileAt(i.root, ReportSource(i, s)).value)
  {
    hide FileAt, ReportSource, ReportCopy;
    if scans != [] {
      var front, scan := scans[..|scans| - 1], scans[|scans| - 1];
      ReportCopiesAre(i, front, c);
      assert forall s :: s in scans <==> s in front || s == scan;
    }
  }

  lemma {:induction false} SuiteCopiesAre(i: Inputs, suites: seq<string>, c: Copy)
    ensures c in SuiteCopies(i, suites) <==>
            exists s :: s in suites && HasFile(i.root, SuiteSource(i, s)) && c == Copy(SuiteCopy(s), FileAt(i.root, SuiteSource(i, s)).value)
  {
    hide FileAt, SuiteSource, SuiteCopy;
    if suites != [] {
      var front, suite := suites[..|suites| - 1], suites[|suites| - 1];
      SuiteCopiesAre(i, front, c);
      assert forall s :: s in suites <==> s in front || s == suite;
    }
  }

  lemma NameIsPart(path: string)
    ensures PosixPath.Parts(PosixPath.Name(path)) == if PosixPath.Name(path) == [] then [] else [PosixPath.Name(path)]
  {
    PosixPath.PartsAreParts([], path);
    PosixPath.NoParts();
    hide PosixPath.PartsFrom;
    if PosixPath.Parts(path) != [] {
      PosixPath.NameOfPart(PosixPath.Name(path));
    }
  }

  lemma PlacesOfReports(s: string, t: string)
    ensures Room(ReportCopy(s)) == 8115
    ensures PosixPath.AsPosix(ReportCopy(s)) == PosixPath.AsPosix(ReportCopy(t)) <==> PosixPath.Name(s + ".json") == PosixPath.Name(t + ".json")
  {
    hide PosixPath.Parts, PosixPath.Name, PosixPath.AsPosix;
    var p, q := PosixPath.Name(s + ".json"), PosixPath.Name(t + ".json");
    RoomOf("preflight", "security", p);
    RoomOf("preflight", "security", q);
    assert "preflight" + "/" + "security" + "/" == "preflight/security/";
    NameIsPart(s + ".json");
    NameIsPart(t + ".json");
    PosixPath.SameNormalForm(ReportCopy(s), ReportCopy(t));
    assert (["preflight", "security"] + PosixPath.Parts(p))[2..] == PosixPath.Parts(p);
    assert (["preflight", "security"] + PosixPath.Parts(q))[2..] == PosixPath.Parts(q);
  }

  lemma ReportsClash(i: Inputs, scans: seq<string>)
    ensures AreIn(ReportCopies(i, scans), {8115}) && (NoClash(ReportCopies(i, scans), i.sha) <==> ReportsAgree(i, scans))
  {
    hide FileAt, ReportSource, ReportCopy, Room, PosixPath.AsPosix, PosixPath.Name, SameMeasure, ReportCopies;
    var copies := ReportCopies(i, scans);
    forall c | c in copies
      ensures Room(c.rel) == 8115
    {
      ReportCopiesAre(i, scans, c);
      var s :| s in scans && HasFile(i.root, ReportSource(i, s)) && c == Copy(ReportCopy(s), FileAt(i.root, ReportSource(i, s)).value);
      PlacesOfReports(s, s);
    }
    if NoClash(copies, i.sha) {
      forall s, t | s in scans && t in scans && HasFile(i.root, ReportSource(i, s)) && HasFile(i.root, ReportSource(i, t))
                    && PosixPath.Name(s + ".json") == PosixPath.Name(t + ".json")
        ensures SameMeasure(FileAt(i.root, ReportSource(i, s)).value, FileAt(i.root, ReportSource(i, t)).value, i.sha)
      {
        var c, d := Copy(ReportCopy(s), FileAt(i.root, ReportSource(i, s)).value), Copy(ReportCopy(t), FileAt(i.root, ReportSource(i, t)).value);
        ReportCopiesAre(i, scans, c);
        ReportCopiesAre(i, scans, d);
        PlacesOfReports(s, t);
        assert PlaceOf(c) == PlaceOf(d);
      }
    }
    if ReportsAgree(i, scans) {
      forall c, d | c in copies && d in copies && PlaceOf(c) == PlaceOf(d)
        ensures SameMeasure(c.bytes, d.bytes, i.sha)
      {
        ReportCopiesAre(i, scans, c);
        ReportCopiesAre(i, scans, d);
        var s :| s in scans && HasFile(i.root, ReportSource(i, s)) && c == Copy(ReportCopy(s), FileAt(i.root, ReportSource(i, s)).value);
        var t :| t in scans && HasFile(i.root, ReportSource(i, t)) && d == Copy(ReportCopy(t), FileAt(i.root, ReportSource(i, t)).value);
        PlacesOfReports(s, t);
      }
    }
  }

  /** A suite that is read has a relative name, and its destination decides its source. */
  lemma PlacesOfSuites(i: Inputs, s: string, t: string)
    requires HasFile(i.root, SuiteSource(i, s)) && HasFile(i.root, SuiteSource(i, t))
    ensures Room(SuiteCopy(s)) == 7114
    ensures PosixPath.AsPosix(SuiteCopy(s)) == PosixPath.AsPosix(SuiteCopy(t)) ==>
            FileAt(i.root, SuiteSource(i, s)) == FileAt(i.root, SuiteSource(i, t))
  {
    RelativeSuite(i, s);
    RelativeSuite(i, t);
    PosixPath.SameNormalForm(SuiteCopy(s), SuiteCopy(t));
    PosixPath.SameNormalForm(SuiteSource(i, s), SuiteSource(i, t));
    hide PosixPath.Parts, PosixPath.AsPosix, SuiteCopy, SuiteSource, Room;
    if PosixPath.AsPosix(SuiteCopy(s)) == PosixPath.AsPosix(SuiteCopy(t)) {
      SameMiddle(["preflight", "runtime"], PosixPath.Parts(s), PosixPath.Parts(t), ["production-runtime.json"]);
    }
  }

  lemma SameMiddle(front: seq<string>, a: seq<string>, b: seq<string>, back: seq<string>)
    requires front + a + back == front + b + back
    ensures a == b
  {
    assert (front + a + back)[|front|..|front| + |a|] == a;
    assert (front + b + back)[|front|..|front| + |b|] == b;
  }

  lemma RelativeSuite(i: Inputs, s: string)
    requires HasFile(i.root, SuiteSource(i, s))
    ensures PosixPath.Parts(SuiteCopy(s)) == ["preflight", "runtime"] + PosixPath.Parts(s) + ["production-runtime.json"]
    ensures PosixPath.Parts(SuiteSource(i, s)) == PosixPath.Parts("release-runtime" + "/" + i.version) + PosixPath.Parts(s) + ["production-runtime.json"]
    ensures Room(SuiteCopy(s)) == 7114
  {
    hide PosixPath.Parts, PosixPath.AsPosix, Room, SuiteCopy, SuiteSource;
    NotAbsoluteSuite(i, s);
    var base, last := "release-runtime" + "/" + i.version, "production-runtime.json";
    PosixPath.PartsConcat(base, s);
    PosixPath.PartsConcat(base + "/" + s, last);
    LastPart();
    RoomOf("preflight", "runtime", s + "/" + last);
    PosixPath.PartsConcat(s, last);
  }

  lemma LastPart()
    ensures PosixPath.Parts("production-runtime.json") == ["production-runtime.json"] && PosixPath.IsPart("preflight") && PosixPath.IsPart("runtime")
    ensures |"runtime"| == 7 && "runtime"[0] == 'r'
  {
    PosixPath.NameOfPart("production-runtime.json");
  }

  lemma NotAbsoluteSuite(i: Inputs, s: string)
    requires HasFile(i.root, SuiteSource(i, s))
    ensures SuiteSource(i, s) == "release-runtime" + "/" + i.version + "/" + s + "/" + "production-runtime.json"
    ensures SuiteCopy(s) == "preflight" + "/" + "runtime" + "/" + (s + "/" + "production-runtime.json")
  {
    hide PosixPath.Parts, PosixPath.AsPosix;
    var source, last := SuiteSource(i, s), "production-runtime.json";
    assert source == Under(Under("release-runtime", i.version), s) + "/" + last && source[0] != '/';
    assert "preflight/runtime" == "preflight" + "/" + "runtime";
    assert "/" + last == "/production-runtime.json";
  }

  lemma SuitesDoNotClash(i: Inputs, suites: seq<string>)
    ensures AreIn(SuiteCopies(i, suites), {7114}) && NoClash(SuiteCopies(i, suites), i.sha)
  {
    hide FileAt, SuiteSource, SuiteCopy, Room, PosixPath.AsPosix, SuiteCopies;
    var copies := SuiteCopies(i, suites);
    forall c, d | c in copies && d in copies
      ensures Room(c.rel) == 7114 && (PlaceOf(c) == PlaceOf(d) ==> SameMeasure(c.bytes, d.bytes, i.sha))
    {
      SuiteCopiesAre(i, suites, c);
      SuiteCopiesAre(i, suites, d);
      var s :| s in suites && HasFile(i.root, SuiteSource(i, s)) && c == Copy(SuiteCopy(s), FileAt(i.root, SuiteSource(i, s)).value);
      var t :| t in suites && HasFile(i.root, SuiteSource(i, t)) && d == Copy(SuiteCopy(t), FileAt(i.root, SuiteSource(i, t)).value);
      PlacesOfSuites(i, s, t);
    }
  }

  /** Of all the copies of an assembly, only the reports of scans with one file name can overwrite each other. */
  lemma OnlyReportsClash(e: FinalEvidence, i: Inputs)
    ensures NoClash(Copies(e, i), i.sha) <==> ReportsAgree(i, e.scans)
  {
    hide SlotCopies, ReportCopies, SuiteCopies, NoClash, AreIn, ReportsAgree;
    SlotsDoNotClash(i);
    ReportsClash(i, e.scans);
    SuitesDoNotClash(i, i.suites);
    ApartInRooms(SlotCopies(i), SLOT_ROOMS, ReportCopies(i, e.scans), {8115}, i.sha);
    ApartInRooms(SlotCopies(i) + ReportCopies(i, e.scans), SLOT_ROOMS + {8115}, SuiteCopies(i, i.suites), {7114}, i.sha);
  }

  /** So the assembled bundle's references are all true exactly if the reports agree whose scans share a file name. */
  lemma ReportsDecide(files: Tree, e: FinalEvidence, i: Inputs)
    requires forall r :: r in Refs(e) ==> TrueIn(files, r, i.sha)
    requires forall r, c :: r in Refs(e) && c in Copies(e, i) ==> PosixPath.AsPosix(r.path) != PlaceOf(c)
    ensures (forall r :: r in Refs(Applied(e, i)) ==> TrueIn(Laid(files, Copies(e, i)), r, i.sha)) <==> ReportsAgree(i, e.scans)
  {
    hide Refs, Copies, Laid, NoClash, Applied, ReportsAgree, TrueIn, PosixPath.AsPosix;
    BundleIsTrue(files, e, i);
    OnlyReportsClash(e, i);
  }

  // ---------------------------------------------------------------- two scans of one name

  lemma NameBelow(dir: string, name: string)
    requires PosixPath.IsPart(name)
    ensures PosixPath.Name(dir + "/" + name) == name
  {
    PosixPath.PartsConcat(dir, name);
    PosixPath.NameOfPart(name);
  }

  lemma SameName()
    ensures PosixPath.Name("a/x" + ".json") == PosixPath.Name("b/x" + ".json")
  {
    hide PosixPath.Name;
    assert PosixPath.IsPart("x.json");
    assert "a/x" + ".json" == "a" + "/" + "x.json" && "b/x" + ".json" == "b" + "/" + "x.json";
    NameBelow("a", "x.json");
    NameBelow("b", "x.json");
  }

  /** The scans `a/x` and `b/x` write to one place: unless their reports agree in digest and size, one of the references
      that the assembly adds is false of the bundle. */
  lemma SameNameClashes(files: Tree, e: FinalEvidence, i: Inputs)
    requires e.scans == ["a/x", "b/x"] && HasFile(i.root, ReportSource(i, "a/x")) && HasFile(i.root, ReportSource(i, "b/x"))
    requires !SameMeasure(FileAt(i.root, ReportSource(i, "a/x")).value, FileAt(i.root, ReportSource(i, "b/x")).value, i.sha)
    ensures exists r :: r in Refs(Applied(e, i)) && !TrueIn(Laid(files, Copies(e, i)), r, i.sha)
  {
    hide Refs, RefsOf, Applied, Copies, Laid, FileAt, ReportSource, NoClash, SameMeasure, TrueIn, PosixPath.Name;
    SameName();
    assert "a/x" in e.scans && "b/x" in e.scans;
    assert !ReportsAgree(i, e.scans);
    OnlyReportsClash(e, i);
    CopiesAreReferenced(e, i);
    CopiesAreTrue(files, Copies(e, i), i.sha);
  }

  /** Inputs with two such reports, of one byte and of two. */
  function TwoReportInputs(sha: Bytes -> string): Inputs {
    Inputs(map["release-security/1/a/x.json" := [1], "release-security/1/b/x.json" := [1, 1]], "1", "t", [], sha)
  }

  lemma PathOfReport(dir: string)
    requires PosixPath.IsPart(dir) && dir != ".."
    ensures var path := "release-security" + "/" + "1" + "/" + dir + "/" + "x.json";
            PosixPath.AsPosix(path) == path && ".." !in PosixPath.Parts(path)
  {
    var parts := ["release-security", "1", dir, "x.json"];
    assert PosixPath.IsPart("release-security") && PosixPath.IsPart("1") && PosixPath.IsPart("x.json");
    PosixPath.PartsOfJoin(parts);
    PosixPath.JoinFour("release-security", "1", dir, "x.json");
  }

  lemma ReportIsThere(dir: string, scan: string, place: string, sha: Bytes -> string)
    requires PosixPath.IsPart(dir) && dir != ".." && scan == dir + "/" + "x" && place == "release-security" + "/" + "1" + "/" + dir + "/" + "x.json"
    requires place in TwoReportInputs(sha).root
    ensures FileAt(TwoReportInputs(sha).root, ReportSource(TwoReportInputs(sha), scan)) == Some(TwoReportInputs(sha).root[place])
  {
    PathOfReport(dir);
    hide PosixPath.Parts, PosixPath.AsPosix, PosixPath.IsPart;
    NotAbsolute(dir, scan);
    var front := "release-security" + "/" + "1" + "/";
    assert front + (dir + "/" + "x.json") == place;
    assert place[0] == "release-security"[0] == 'r';
  }

  lemma NotAbsolute(dir: string, scan: string)
    requires PosixPath.IsPart(dir) && scan == dir + "/" + "x"
    ensures Under(Under("release-security", "1"), scan + ".json") == "release-security" + "/" + "1" + "/" + (scan + ".json")
    ensures scan + ".json" == dir + "/" + "x.json"
  {
    assert (scan + ".json")[0] == dir[0] && dir[0] in dir;
    assert "x" + ".json" == "x.json";
  }

  lemma TwoReportsClash(files: Tree, e: FinalEvidence, sha: Bytes -> string)
    requires e.scans == ["a/x", "b/x"]
    ensures var i := TwoReportInputs(sha);
            exists r :: r in Refs(Applied(e, i)) && !TrueIn(Laid(files, Copies(e, i)), r, sha)
  {
    PlacesAre();
    hide Refs, Applied, Laid, Copies, FileAt, ReportSource, TrueIn;
    var i := TwoReportInputs(sha);
    ReportIsThere("a", "a/x", "release-security/1/a/x.json", sha);
    ReportIsThere("b", "b/x", "release-security/1/b/x.json", sha);
    SameNameClashes(files, e, i);
  }

  lemma PlacesAre()
    ensures "a" + "/" + "x" == "a/x" && "b" + "/" + "x" == "b/x" && PosixPath.IsPart("a") && PosixPath.IsPart("b")
    ensures "release-security" + "/" + "1" + "/" + "a" + "/" + "x.json" == "release-security/1/a/x.json"
    ensures "release-security" + "/" + "1" + "/" + "b" + "/" + "x.json" == "release-security/1/b/x.json"
    ensures "release-security/1/a/x.json" != "release-security/1/b/x.json"
  {
    assert "release-security/1/a/x.json"[19] != "release-security/1/b/x.json"[19];
  }
}

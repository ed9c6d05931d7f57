/** A bundle assembled from the tree the graph was measured on keeps every required file the graph names. */
module ClosurePreserved {
  import opened PyText
  import opened Hashing
  import opened EvidenceGraph
  import opened SubjectGraph
  import opened BundleClosure
  import LineageProducer
  import LineageInputs
  import LineageRoundTrip
  import GraphReplay
  import PolicyCoverage
  import Sorting

  // ---------------------------------------------------------------- conditions

  predicate Relative(s: string) {
    !("/" <= s)
  }

  /** Graph and bundle belong to one release: same tree, version, target, contract and digest, and the binding's
      profile is the one its version implies. */
  ghost predicate SameRelease(input: Input, row: Row, i: Inputs) {
    && input.tree == Some(i.root) && input.binding.version == i.version && row.target == Some(i.target) && input.sha == i.sha
    && i.suites == SuitesFor(input.contract, i.target) && input.binding.profile == ProfileOf(i.version)
    && Relative(i.version) && Relative(i.target) && forall k :: 0 <= k < |i.suites| ==> Relative(i.suites[k])
  }

  /** The roles whose files the assembly copies. */
  predicate IsCopied(role: string) {
    || role == "release-input-binding" || role == "runtime-suite" || role == "signing-manifest" || role == "hardware-subject"
    || role == "ota-artifacts" || role == "governance-role-bindings" || role == "reproducibility" || role == "retention-manifest"
  }

  lemma ImagesAreNotCopied()
    ensures !IsCopied("raw-image") && !IsCopied("compressed-release-artifact")
  {
  }

  lemma ReportsAreNotCopied()
    ensures !IsCopied("scanner-native-report") && !IsCopied("station-registry") && !IsCopied("governance-snapshot")
  {
  }

  // ---------------------------------------------------------------- references

  lemma MatchedConcat(a: seq<GraphRef>, b: seq<GraphRef>, role: string, sha256: string, bytes: int)
    ensures Matched(a + b, role, sha256, bytes) <==> Matched(a, role, sha256, bytes) || Matched(b, role, sha256, bytes)
  {
    var all := a + b;
    assert forall k :: 0 <= k < |a| ==> all[k] == a[k];
    assert forall k :: 0 <= k < |b| ==> all[|a| + k] == b[k];
  }

  /** A reference is in the final list exactly if it is in one of the parts. */
  lemma FinalParts(e: FinalEvidence, role: string, sha256: string, bytes: int)
    ensures Matched(FinalRefs(e), role, sha256, bytes) <==>
            || Matched(SlotItem("release-input-binding", e.target, e.releaseInput), role, sha256, bytes)
            || Matched(SlotItem("reproducibility", e.target, e.reproducibility), role, sha256, bytes)
            || Matched(SlotItem("retention-manifest", e.target, e.retention), role, sha256, bytes)
            || Matched(SlotItem("governance-role-bindings", e.target, e.roleBindings), role, sha256, bytes)
            || Matched(ListItems("compressed-release-artifact", e.target, false, e.artifacts), role, sha256, bytes)
            || Matched(ListItems("signing-manifest", e.target, true, e.signingManifests), role, sha256, bytes)
            || Matched(ListItems("hardware-subject", e.target, true, e.hardwareSubjects), role, sha256, bytes)
            || Matched(ListItems("ota-artifacts", e.target, true, e.otaArtifacts), role, sha256, bytes)
            || Matched(ListItems("runtime-suite", e.target, false, e.runtimeSuites), role, sha256, bytes)
            || Matched(ListItems("scanner-native-report", e.target, false, e.scannerReports), role, sha256, bytes)
            || Matched(ListItems("scanner-native-report", e.target, false, e.imageScanReports), role, sha256, bytes)
            || Matched(SlotItem("station-registry", e.target, e.stationRegistry), role, sha256, bytes)
            || Matched(SlotItem("governance-snapshot", e.target, e.policyValidation), role, sha256, bytes)
  {
    hide Matched, SlotItem, ListItems;
    var p1 := SlotItem("release-input-binding", e.target, e.releaseInput);
    var p2 := p1 + SlotItem("reproducibility", e.target, e.reproducibility);
    var p3 := p2 + SlotItem("retention-manifest", e.target, e.retention);
    var p4 := p3 + SlotItem("governance-role-bindings", e.target, e.roleBindings);
    var p5 := p4 + ListItems("compressed-release-artifact", e.target, false, e.artifacts);
    var p6 := p5 + ListItems("signing-manifest", e.target, true, e.signingManifests);
    var p7 := p6 + ListItems("hardware-subject", e.target, true, e.hardwareSubjects);
    var p8 := p7 + ListItems("ota-artifacts", e.target, true, e.otaArtifacts);
    var p9 := p8 + ListItems("runtime-suite", e.target, false, e.runtimeSuites);
    var p10 := p9 + ListItems("scanner-native-report", e.target, false, e.scannerReports);
    var p11 := p10 + ListItems("scanner-native-report", e.target, false, e.imageScanReports);
    var p12 := p11 + SlotItem("station-registry", e.target, e.stationRegistry);
    MatchedConcat(p1, SlotItem("reproducibility", e.target, e.reproducibility), role, sha256, bytes);
    MatchedConcat(p2, SlotItem("retention-manifest", e.target, e.retention), role, sha256, bytes);
    MatchedConcat(p3, SlotItem("governance-role-bindings", e.target, e.roleBindings), role, sha256, bytes);
    MatchedConcat(p4, ListItems("compressed-release-artifact", e.target, false, e.artifacts), role, sha256, bytes);
    MatchedConcat(p5, ListItems("signing-manifest", e.target, true, e.signingManifests), role, sha256, bytes);
    MatchedConcat(p6, ListItems("hardware-subject", e.target, true, e.hardwareSubjects), role, sha256, bytes);
    MatchedConcat(p7, ListItems("ota-artifacts", e.target, true, e.otaArtifacts), role, sha256, bytes);
    MatchedConcat(p8, ListItems("runtime-suite", e.target, false, e.runtimeSuites), role, sha256, bytes);
    MatchedConcat(p9, ListItems("scanner-native-report", e.target, false, e.scannerReports), role, sha256, bytes);
    MatchedConcat(p10, ListItems("scanner-native-report", e.target, false, e.imageScanReports), role, sha256, bytes);
    MatchedConcat(p11, SlotItem("station-registry", e.target, e.stationRegistry), role, sha256, bytes);
    MatchedConcat(p12, SlotItem("governance-snapshot", e.target, e.policyValidation), role, sha256, bytes);
  }

  lemma RefItemMatches(role: string, target: string, digest: string, bytes: nat)
    requires IsSha256(digest) && bytes > 0
    ensures Matched(RefItem(role, target, Measurement(Some(digest), Some(bytes))), role, digest, bytes)
  {
    assert RefItem(role, target, Measurement(Some(digest), Some(bytes)))[0] == GraphRef(role, target, digest, bytes);
  }

  /** What a listed entry contributes. */
  lemma {:induction false} ListMatches(role: string, target: string, own: bool, entries: seq<Listed>, entry: Listed, digest: string, bytes: nat)
    requires entry in entries && entry.ref.measured == Measurement(Some(digest), Some(bytes)) && IsSha256(digest) && bytes > 0
    ensures Matched(ListItems(role, target, own, entries), role, digest, bytes)
  {
    hide Matched, RefItem, IsSha256;
    var front, last := entries[..|entries| - 1], entries[|entries| - 1];
    MatchedConcat(ListItems(role, target, own, front), RefItem(role, if own then last.tag else target, last.ref.measured), role, digest, bytes);
    if entry == last {
      RefItemMatches(role, if own then last.tag else target, digest, bytes);
    } else {
      assert entries == front + [last];
      ListMatches(role, target, own, front, entry, digest, bytes);
    }
  }

  lemma {:induction false} ListGives(role: string, target: string, own: bool, entries: seq<Listed>, r: string, digest: string, bytes: int)
    requires Matched(ListItems(role, target, own, entries), r, digest, bytes)
    ensures r == role && exists k :: 0 <= k < |entries| && entries[k].ref.measured == Measurement(Some(digest), Some(bytes))
  {
    hide Matched, IsSha256;
    if entries == [] {
      NothingMatches(r, digest, bytes);
    } else {
      var front, last := entries[..|entries| - 1], entries[|entries| - 1];
      var item := RefItem(role, if own then last.tag else target, last.ref.measured);
      MatchedConcat(ListItems(role, target, own, front), item, r, digest, bytes);
      if Matched(item, r, digest, bytes) {
        ItemGives(role, if own then last.tag else target, last.ref.measured, r, digest, bytes);
        assert entries[|entries| - 1].ref.measured == Measurement(Some(digest), Some(bytes));
      } else {
        ListGives(role, target, own, front, r, digest, bytes);
        var k :| 0 <= k < |front| && front[k].ref.measured == Measurement(Some(digest), Some(bytes));
        assert entries[k] == front[k];
      }
    }
  }

  lemma NothingMatches(r: string, digest: string, bytes: int)
    ensures !Matched([], r, digest, bytes)
  {
  }

  lemma ItemGives(role: string, target: string, m: Measurement, r: string, digest: string, bytes: int)
    requires Matched(RefItem(role, target, m), r, digest, bytes)
    ensures r == role && m == Measurement(Some(digest), Some(bytes))
  {
    hide IsSha256;
  }

  lemma SlotGives(role: string, target: string, slot: Option<Ref>, r: string, digest: string, bytes: int)
    requires Matched(SlotItem(role, target, slot), r, digest, bytes)
    ensures r == role
  {
    hide IsSha256;
  }

  lemma SlotOfRole(role: string, target: string, slot: Option<Ref>, r: string, digest: string, bytes: int)
    ensures Matched(SlotItem(role, target, slot), r, digest, bytes) ==> r == role
  {
    if Matched(SlotItem(role, target, slot), r, digest, bytes) {
      SlotGives(role, target, slot, r, digest, bytes);
    }
  }

  lemma ListOfRole(role: string, target: string, own: bool, entries: seq<Listed>, r: string, digest: string, bytes: int)
    ensures Matched(ListItems(role, target, own, entries), r, digest, bytes) ==> r == role
  {
    if Matched(ListItems(role, target, own, entries), r, digest, bytes) {
      ListGives(role, target, own, entries, r, digest, bytes);
    }
  }

  /** Only the part of its own role can match a reference. */
  lemma PartsByRank(e: FinalEvidence, r: string, digest: string, bytes: int)
    ensures LineageInputs.Rank(r) == 3 ==>
              (Matched(FinalRefs(e), r, digest, bytes)
               <==> Matched(ListItems("compressed-release-artifact", e.target, false, e.artifacts), r, digest, bytes))
    ensures LineageInputs.Rank(r) == 7 ==>
              (Matched(FinalRefs(e), r, digest, bytes) <==> Matched(SlotItem("station-registry", e.target, e.stationRegistry), r, digest, bytes))
    ensures LineageInputs.Rank(r) == 8 ==>
              (Matched(FinalRefs(e), r, digest, bytes)
               <==> || Matched(ListItems("scanner-native-report", e.target, false, e.scannerReports), r, digest, bytes)
                    || Matched(ListItems("scanner-native-report", e.target, false, e.imageScanReports), r, digest, bytes))
    ensures LineageInputs.Rank(r) == 11 ==>
              (Matched(FinalRefs(e), r, digest, bytes) <==> Matched(SlotItem("governance-snapshot", e.target, e.policyValidation), r, digest, bytes))
  {
    hide Matched, SlotItem, ListItems, FinalRefs, LineageInputs.Rank;
    FinalParts(e, r, digest, bytes);
    LineageInputs.Ranks();
    SlotOfRole("release-input-binding", e.target, e.releaseInput, r, digest, bytes);
    SlotOfRole("reproducibility", e.target, e.reproducibility, r, digest, bytes);
    SlotOfRole("retention-manifest", e.target, e.retention, r, digest, bytes);
    SlotOfRole("governance-role-bindings", e.target, e.roleBindings, r, digest, bytes);
    ListOfRole("compressed-release-artifact", e.target, false, e.artifacts, r, digest, bytes);
    ListOfRole("signing-manifest", e.target, true, e.signingManifests, r, digest, bytes);
    ListOfRole("hardware-subject", e.target, true, e.hardwareSubjects, r, digest, bytes);
    ListOfRole("ota-artifacts", e.target, true, e.otaArtifacts, r, digest, bytes);
    ListOfRole("runtime-suite", e.target, false, e.runtimeSuites, r, digest, bytes);
    ListOfRole("scanner-native-report", e.target, false, e.scannerReports, r, digest, bytes);
    ListOfRole("scanner-native-report", e.target, false, e.imageScanReports, r, digest, bytes);
    SlotOfRole("station-registry", e.target, e.stationRegistry, r, digest, bytes);
    SlotOfRole("governance-snapshot", e.target, e.policyValidation, r, digest, bytes);
  }

  // ---------------------------------------------------------------- files

  lemma DigestIsReal(i: Inputs, path: string)
    requires IsDigest(i.sha) && HasFile(i.root, path)
    ensures var b := FileAt(i.root, path).value; IsSha256(i.sha(b)) && IsRealSha256(i.sha(b)) && |b| > 0
  {
    assert IsRealSha256(i.sha(FileAt(i.root, path).value));
  }

  /** The bundle refers to the file at `path` under `role`. */
  predicate Kept(e: FinalEvidence, i: Inputs, role: string, path: string)
    requires HasFile(i.root, path)
  {
    Matched(FinalRefs(e), role, i.sha(FileAt(i.root, path).value), |FileAt(i.root, path).value|)
  }

  lemma SlotIsMatched(i: Inputs, before: Option<Ref>, role: string, target: string, source: string, rel: string)
    requires IsDigest(i.sha) && HasFile(i.root, source)
    ensures Matched(SlotItem(role, target, Slot(before, i, source, rel)), role, i.sha(FileAt(i.root, source).value),
                    |FileAt(i.root, source).value|)
  {
    DigestIsReal(i, source);
    hide IsSha256, IsRealSha256, FileAt, Matched;
    RefItemMatches(role, target, i.sha(FileAt(i.root, source).value), |FileAt(i.root, source).value|);
  }

  lemma EntryIsMatched(i: Inputs, role: string, target: string, own: bool, entries: seq<Listed>, tag: string, source: string, rel: string)
    requires IsDigest(i.sha) && HasFile(i.root, source) && Entry(i, tag, source, rel) != []
    requires Entry(i, tag, source, rel)[0] in entries
    ensures Matched(ListItems(role, target, own, entries), role, i.sha(FileAt(i.root, source).value), |FileAt(i.root, source).value|)
  {
    DigestIsReal(i, source);
    hide IsSha256, IsRealSha256, FileAt, Matched, ListItems;
    ListMatches(role, target, own, entries, Entry(i, tag, source, rel)[0], i.sha(FileAt(i.root, source).value), |FileAt(i.root, source).value|);
  }

  lemma SlotsAreKept(e: FinalEvidence, i: Inputs)
    requires IsDigest(i.sha)
    ensures HasFile(i.root, BindingSource(i)) ==> Kept(Applied(e, i), i, "release-input-binding", BindingSource(i))
    ensures HasFile(i.root, ReproducibilitySource(i)) ==> Kept(Applied(e, i), i, "reproducibility", ReproducibilitySource(i))
    ensures HasFile(i.root, RetentionSource(i)) ==> Kept(Applied(e, i), i, "retention-manifest", RetentionSource(i))
    ensures HasFile(i.root, RoleBindingsSource(i)) ==> Kept(Applied(e, i), i, "governance-role-bindings", RoleBindingsSource(i))
  {
    hide FinalRefs, Slot, Entry, SlotItem, ListItems, Matched, BindingSource, ReproducibilitySource, RetentionSource,
         RoleBindingsSource, SuiteEntries, ReportEntries, BindingCopy, FileAt;
    var after := Applied(e, i);
    if HasFile(i.root, BindingSource(i)) {
      var b := FileAt(i.root, BindingSource(i)).value;
      SlotIsMatched(i, e.releaseInput, "release-input-binding", e.target, BindingSource(i), BindingCopy(i));
      FinalParts(after, "release-input-binding", i.sha(b), |b|);
    }
    if HasFile(i.root, ReproducibilitySource(i)) {
      var b := FileAt(i.root, ReproducibilitySource(i)).value;
      SlotIsMatched(i, e.reproducibility, "reproducibility", e.target, ReproducibilitySource(i), REPRODUCIBILITY_COPY);
      FinalParts(after, "reproducibility", i.sha(b), |b|);
    }
    if HasFile(i.root, RetentionSource(i)) {
      var b := FileAt(i.root, RetentionSource(i)).value;
      SlotIsMatched(i, e.retention, "retention-manifest", e.target, RetentionSource(i), RETENTION_COPY);
      FinalParts(after, "retention-manifest", i.sha(b), |b|);
    }
    if HasFile(i.root, RoleBindingsSource(i)) {
      var b := FileAt(i.root, RoleBindingsSource(i)).value;
      SlotIsMatched(i, e.roleBindings, "governance-role-bindings", e.target, RoleBindingsSource(i), ROLE_BINDINGS_COPY);
      FinalParts(after, "governance-role-bindings", i.sha(b), |b|);
    }
  }

  lemma EntriesAreKept(e: FinalEvidence, i: Inputs)
    requires IsDigest(i.sha)
    ensures HasFile(i.root, SigningSource(i)) ==> Kept(Applied(e, i), i, "signing-manifest", SigningSource(i))
    ensures HasFile(i.root, OtaSource(i)) ==> Kept(Applied(e, i), i, "ota-artifacts", OtaSource(i))
    ensures HasFile(i.root, HardwareSource(i)) ==> Kept(Applied(e, i), i, "hardware-subject", HardwareSource(i))
  {
    hide FinalRefs, Slot, SlotItem, ListItems, Matched, SigningSource, OtaSource, HardwareSource, SuiteEntries,
         ReportEntries, BindingCopy, FileAt;
    var after := Applied(e, i);
    if HasFile(i.root, SigningSource(i)) {
      var b := FileAt(i.root, SigningSource(i)).value;
      EntryIsMatched(i, "signing-manifest", e.target, true, after.signingManifests, i.target, SigningSource(i), SIGNING_COPY);
      FinalParts(after, "signing-manifest", i.sha(b), |b|);
    }
    if HasFile(i.root, OtaSource(i)) {
      var b := FileAt(i.root, OtaSource(i)).value;
      EntryIsMatched(i, "ota-artifacts", e.target, true, after.otaArtifacts, i.target, OtaSource(i), OTA_COPY);
      FinalParts(after, "ota-artifacts", i.sha(b), |b|);
    }
    if HasFile(i.root, HardwareSource(i)) {
      var b := FileAt(i.root, HardwareSource(i)).value;
      EntryIsMatched(i, "hardware-subject", e.target, true, after.hardwareSubjects, i.target, HardwareSource(i), HARDWARE_COPY);
      FinalParts(after, "hardware-subject", i.sha(b), |b|);
    }
  }

  lemma {:induction false} SuiteIsListed(i: Inputs, suites: seq<string>, k: nat)
    requires k < |suites| && HasFile(i.root, SuiteSource(i, suites[k]))
    ensures Entry(i, suites[k], SuiteSource(i, suites[k]), SuiteCopy(suites[k])) != []
    ensures Entry(i, suites[k], SuiteSource(i, suites[k]), SuiteCopy(suites[k]))[0] in SuiteEntries(i, suites)
  {
    hide SuiteSource, SuiteCopy, HasFile, RefOf;
    if k < |suites| - 1 {
      SuiteIsListed(i, suites[..|suites| - 1], k);
    }
  }

  lemma SuiteIsKept(e: FinalEvidence, i: Inputs, k: nat)
    requires IsDigest(i.sha) && k < |i.suites| && HasFile(i.root, SuiteSource(i, i.suites[k]))
    ensures Kept(Applied(e, i), i, "runtime-suite", SuiteSource(i, i.suites[k]))
  {
    var source := SuiteSource(i, i.suites[k]);
    var b := FileAt(i.root, source).value;
    var after := Applied(e, i);
    SuiteIsListed(i, i.suites, k);
    hide FinalRefs, Slot, Entry, SlotItem, ListItems, Matched, SuiteSource, SuiteEntries, ReportEntries, SuiteCopy,
         FileAt, HasFile;
    EntryIsMatched(i, "runtime-suite", e.target, false, after.runtimeSuites, i.suites[k], source, SuiteCopy(i.suites[k]));
    FinalParts(after, "runtime-suite", i.sha(b), |b|);
  }

  /** The report of the scan is of the second schema version, with this digest and size. */
  predicate ScanHolds(i: Inputs, scan: string, digest: string, bytes: int) {
    IsImageReport(i, scan)
    && i.sha(FileAt(i.root, ReportSource(i, scan)).value) == digest && |FileAt(i.root, ReportSource(i, scan)).value| == bytes
  }

  /** Some entry of the list carries this measurement. */
  predicate Carries(entries: seq<Listed>, m: Measurement) {
    exists k :: 0 <= k < |entries| && entries[k].ref.measured == m
  }

  lemma CarriesConcat(a: seq<Listed>, b: seq<Listed>, m: Measurement)
    ensures Carries(a + b, m) <==> Carries(a, m) || Carries(b, m)
  {
    assert forall k :: 0 <= k < |a| ==> (a + b)[k] == a[k];
    assert forall k :: 0 <= k < |b| ==> (a + b)[|a| + k] == b[k];
  }

  lemma {:induction false} ReportEntriesAre(i: Inputs, scans: seq<string>, digest: string, bytes: int)
    ensures Carries(ReportEntries(i, scans), Measurement(Some(digest), Some(bytes)))
            <==> exists k :: 0 <= k < |scans| && ScanHolds(i, scans[k], digest, bytes)
  {
    hide Carries, IsImageReport, ScanHolds, Entry, ReportSource, ReportCopy;
    var m := Measurement(Some(digest), Some(bytes));
    NothingCarries(m);
    if scans != [] {
      var front, scan := scans[..|scans| - 1], scans[|scans| - 1];
      ReportEntriesAre(i, front, digest, bytes);
      ReportEntryIs(i, scan, digest, bytes);
      CarriesConcat(ReportEntries(i, front), if IsImageReport(i, scan) then Entry(i, scan, ReportSource(i, scan), ReportCopy(scan)) else [], m);
      assert forall k :: 0 <= k < |front| ==> front[k] == scans[k];
    }
  }

  lemma NothingCarries(m: Measurement)
    ensures !Carries([], m)
  {
  }

  lemma ReportEntryIs(i: Inputs, scan: string, digest: string, bytes: int)
    ensures var own := if IsImageReport(i, scan) then Entry(i, scan, ReportSource(i, scan), ReportCopy(scan)) else [];
            Carries(own, Measurement(Some(digest), Some(bytes))) <==> ScanHolds(i, scan, digest, bytes)
  {
    hide FileAt, ReportSource, ReportCopy;
    var own := if IsImageReport(i, scan) then Entry(i, scan, ReportSource(i, scan), ReportCopy(scan)) else [];
    if ScanHolds(i, scan, digest, bytes) {
      assert own[0].ref.measured == Measurement(Some(digest), Some(bytes));
    }
  }

  /** What a list of scanner references holds after the assembly: what it held before, and the reports of the scans. */
  lemma ReportsMatched(i: Inputs, target: string, before: seq<Listed>, scans: seq<string>, digest: string, bytes: int)
    requires IsSha256(digest) && bytes > 0
    ensures Matched(ListItems("scanner-native-report", target, false, before + ReportEntries(i, scans)), "scanner-native-report", digest, bytes)
            <==> || Matched(ListItems("scanner-native-report", target, false, before), "scanner-native-report", digest, bytes)
                 || exists k :: 0 <= k < |scans| && ScanHolds(i, scans[k], digest, bytes)
  {
    hide Matched, ListItems, ReportEntries, ScanHolds, IsSha256, Carries;
    ReportEntriesAre(i, scans, digest, bytes);
    ListExact("scanner-native-report", target, false, before, digest, bytes);
    ListExact("scanner-native-report", target, false, before + ReportEntries(i, scans), digest, bytes);
    CarriesConcat(before, ReportEntries(i, scans), Measurement(Some(digest), Some(bytes)));
  }

  lemma ListExact(role: string, target: string, own: bool, entries: seq<Listed>, digest: string, bytes: int)
    requires IsSha256(digest) && bytes > 0
    ensures Matched(ListItems(role, target, own, entries), role, digest, bytes) <==> Carries(entries, Measurement(Some(digest), Some(bytes)))
  {
    hide Matched, ListItems, IsSha256;
    if Matched(ListItems(role, target, own, entries), role, digest, bytes) {
      ListGives(role, target, own, entries, role, digest, bytes);
    }
    if k :| 0 <= k < |entries| && entries[k].ref.measured == Measurement(Some(digest), Some(bytes)) {
      ListMatches(role, target, own, entries, entries[k], digest, bytes);
    }
  }

  /** Some scan's report stands for the file at `path`: one that the evidence listed before, or one the assembly copies. */
  predicate ReportHeld(e: FinalEvidence, i: Inputs, path: string)
    requires HasFile(i.root, path)
  {
    var digest, bytes := i.sha(FileAt(i.root, path).value), |FileAt(i.root, path).value|;
    || Matched(ListItems("scanner-native-report", e.target, false, e.scannerReports), "scanner-native-report", digest, bytes)
    || Matched(ListItems("scanner-native-report", e.target, false, e.imageScanReports), "scanner-native-report", digest, bytes)
    || exists k :: 0 <= k < |e.scans| && ScanHolds(i, e.scans[k], digest, bytes)
  }

  lemma ReportIsKept(e: FinalEvidence, i: Inputs, path: string)
    requires IsDigest(i.sha) && HasFile(i.root, path)
    ensures Kept(Applied(e, i), i, "scanner-native-report", path) <==> ReportHeld(e, i, path)
  {
    DigestIsReal(i, path);
    LineageInputs.Ranks();
    hide Matched, ListItems, FinalRefs, ReportEntries, SecurityEntries, SuiteEntries, ScanHolds, IsSha256, IsRealSha256,
         FileAt, Slot, Entry, LineageInputs.Rank;
    var digest, bytes := i.sha(FileAt(i.root, path).value), |FileAt(i.root, path).value|;
    PartsByRank(Applied(e, i), "scanner-native-report", digest, bytes);
    ReportsMatched(i, e.target, e.scannerReports, e.scans, digest, bytes);
    ReportsMatched(i, e.target, e.imageScanReports, e.scans, digest, bytes);
  }

  // ---------------------------------------------------------------- graph paths are the assembly's sources

  lemma SourcesArePaths(input: Input, row: Row, i: Inputs)
    requires SameRelease(input, row, i)
    ensures BindingSource(i) == BindingPath(input) && RoleBindingsSource(i) == RoleBindingsPath(input)
    ensures RetentionSource(i) == RetentionPath(input) && SigningSource(i) == SigningPath(input, i.target)
    ensures OtaSource(i) == OtaPath(input, i.target) && HardwareSource(i) == HardwarePath(input, i.target)
    ensures ReproducibilitySource(i) == ReproducibilityPath(input, i.target)
    ensures forall k :: 0 <= k < |i.suites| ==> SuiteSource(i, i.suites[k]) == RuntimePath(input, i.suites[k])
  {
    RelativeProfile(i.version);
    RelativeSuffix(ProfileOf(i.version));
    assert Relative(i.target + ".json") by {
      RelativeSuffix(i.target);
    }
  }

  lemma RelativeProfile(version: string)
    ensures Relative(ProfileOf(version))
  {
    assert "release-candidate"[0] == 'r' && "production-candidate"[0] == 'p';
  }

  lemma RelativeSuffix(s: string)
    requires Relative(s)
    ensures Relative(s + ".json")
  {
    assert (s + ".json")[0] == if s == [] then '.' else s[0];
  }

  // ---------------------------------------------------------------- one node

  predicate IsWord(role: string) {
    role != [] && !IsSpace(role[0]) && role != "raw-image" && role != "compressed-release-artifact"
  }

  lemma CopiedIsWord(role: string)
    requires IsCopied(role)
    ensures IsWord(role)
  {
    ImagesAreNotCopied();
    hide IsSpace;
    assert !IsSpace('r') && !IsSpace('s') && !IsSpace('h') && !IsSpace('o') && !IsSpace('g') by {
      LettersAreNotSpace();
    }
    assert role[0] in "rshog";
  }

  lemma LettersAreNotSpace()
    ensures !IsSpace('r') && !IsSpace('s') && !IsSpace('h') && !IsSpace('o') && !IsSpace('g')
  {
  }

  /** A node measured from a file closes exactly if there is a non-empty file and the bundle keeps that. */
  lemma FileNodeCloses(e: FinalEvidence, input: Input, row: Row, i: Inputs, id: string, s: Spec)
    requires SameRelease(input, row, i) && IsDigest(i.sha) && IsWord(s.role)
    requires s.measured == MeasureFile(input.tree, s.path, input.sha)
    ensures NodeCloses(e, FinalRefs(e), NodeOf(input, id, i.target, s)) <==> HasFile(i.root, s.path) && Kept(e, i, s.role, s.path)
  {
    LineageInputs.StripStartsWith(s.role);
    hide FinalRefs, FileAt, Strip, IsSpace, IsRealSha256, IsSha256, Matched, IsArtifactDigest;
    if HasFile(i.root, s.path) {
      DigestIsReal(i, s.path);
    }
  }

  /** The spec is measured from its file, and the assembled bundle keeps that. */
  ghost predicate SpecKept(e: FinalEvidence, input: Input, i: Inputs, s: Spec) {
    s.measured == MeasureFile(input.tree, s.path, input.sha) && (HasFile(i.root, s.path) ==> Kept(Applied(e, i), i, s.role, s.path))
  }

  lemma SingleFilesAreKept(e: FinalEvidence, input: Input, row: Row, i: Inputs, s: Spec)
    requires SameRelease(input, row, i) && IsDigest(i.sha)
    requires s in [BindingSpec(input)] || s in SigningSpecs(input, i.target) || s in OtaSpecs(input, i.target)
    ensures SpecKept(e, input, i, s)
  {
    SourcesArePaths(input, row, i);
    SlotsAreKept(e, i);
    EntriesAreKept(e, i);
    hide Applied, SameRelease, Kept, HasFile, MeasureFile, BindingSource, SigningSource, OtaSource, BindingPath,
         SigningPath, OtaPath;
  }

  lemma HardwareIsKept(e: FinalEvidence, input: Input, row: Row, i: Inputs, s: Spec)
    requires SameRelease(input, row, i) && IsDigest(i.sha) && s in HardwareSpecs(input, i.target) && IsCopied(s.role)
    ensures SpecKept(e, input, i, s)
  {
    SourcesArePaths(input, row, i);
    EntriesAreKept(e, i);
    ReportsAreNotCopied();
    hide Applied, SameRelease, Kept, HasFile, MeasureFile, HardwareSource, HardwarePath, IsCopied;
  }

  lemma RetentionIsKept(e: FinalEvidence, input: Input, row: Row, i: Inputs, s: Spec)
    requires SameRelease(input, row, i) && IsDigest(i.sha) && s in RetentionSpecs(input)
    ensures SpecKept(e, input, i, s)
  {
    hide Applied, SameRelease, Kept, HasFile, MeasureFile, RetentionSource, RetentionPath;
    SourcesArePaths(input, row, i);
    SlotsAreKept(e, i);
  }

  lemma GateIsKept(e: FinalEvidence, input: Input, row: Row, i: Inputs, s: Spec)
    requires SameRelease(input, row, i) && IsDigest(i.sha) && s in GateSpecs(input, i.target) && IsCopied(s.role)
    ensures SpecKept(e, input, i, s)
  {
    hide Applied, SameRelease, Kept, HasFile, MeasureFile, RoleBindingsSource, RetentionSource, ReproducibilitySource,
         RoleBindingsPath, RetentionPath, ReproducibilityPath, IsCopied, RetentionSpecs, IsDigest;
    ReportsAreNotCopied();
    if s in RetentionSpecs(input) {
      RetentionIsKept(e, input, row, i, s);
    } else {
      SourcesArePaths(input, row, i);
      SlotsAreKept(e, i);
    }
  }

  lemma ArtifactRole(input: Input, role: string, ref: Option<Bound>, s: Spec)
    requires s in ArtifactSpecs(input, role, ref)
    ensures s.role == role
  {
    hide RelativePath;
  }

  /** Every spec of a copied role, whichever block it is in. */
  lemma CopiedSpecIsKept(e: FinalEvidence, input: Input, row: Row, i: Inputs, s: Spec)
    requires Covered(input, row) && SameRelease(input, row, i) && IsDigest(i.sha) && s in Specs(input, row) && IsCopied(s.role)
    ensures SpecKept(e, input, i, s)
  {
    var policy := input.contract.policies[i.target];
    var raw, compressed := RawRef(input, row, i.target), CompressedRef(input, row, i.target);
    ImagesAreNotCopied();
    ReportsAreNotCopied();
    LineageInputs.FlaggedBlocks(input, row, s);
    hide Covered, Specs, IsDigest, IsCopied, SpecKept, RuntimeSpecs, ScanSpecs, SigningSpecs, OtaSpecs, HardwareSpecs,
         GateSpecs, BindingSpec, ArtifactSpecs, RawRef, CompressedRef, SuitesFor;
    if s in ArtifactSpecs(input, "raw-image", raw) {
      ArtifactRole(input, "raw-image", raw, s);
      assert false;
    } else if s in ArtifactSpecs(input, "compressed-release-artifact", compressed) {
      ArtifactRole(input, "compressed-release-artifact", compressed, s);
      assert false;
    } else if s in ScanSpecs(input, input.scans) {
      ScanSpecsAreReports(input, input.scans, s);
      assert false;
    } else if s in RuntimeSpecs(input, policy, i.suites) {
      RuntimeSpecIsKept(e, input, policy, row, i, s);
    } else if s in HardwareSpecs(input, i.target) {
      HardwareIsKept(e, input, row, i, s);
    } else if s in GateSpecs(input, i.target) {
      GateIsKept(e, input, row, i, s);
    } else {
      SingleFilesAreKept(e, input, row, i, s);
    }
  }

  lemma {:induction false} RuntimeSpecAt(input: Input, policy: Policy, suites: seq<string>, s: Spec) returns (k: nat)
    requires s in RuntimeSpecs(input, policy, suites)
    ensures k < |suites| && s == RuntimeSpec(input, policy, suites[k])
  {
    hide RuntimeSpec;
    if s == RuntimeSpec(input, policy, suites[0]) {
      k := 0;
    } else {
      k := RuntimeSpecAt(input, policy, suites[1..], s);
      k := k + 1;
    }
  }

  lemma RuntimeSpecIsKept(e: FinalEvidence, input: Input, policy: Policy, row: Row, i: Inputs, s: Spec)
    requires SameRelease(input, row, i) && IsDigest(i.sha) && s in RuntimeSpecs(input, policy, i.suites)
    ensures SpecKept(e, input, i, s)
  {
    var k := RuntimeSpecAt(input, policy, i.suites, s);
    SourcesArePaths(input, row, i);
    hide Applied, SameRelease, Kept, HasFile, MeasureFile, SuiteSource, RuntimePath, RuntimeSpecs;
    if HasFile(i.root, s.path) {
      SuiteIsKept(e, i, k);
    }
  }

  lemma {:induction false} ScanSpecsAreReports(input: Input, scans: seq<string>, s: Spec)
    requires s in ScanSpecs(input, scans)
    ensures s.role == "scanner-native-report"
  {
    hide MeasureFile, ScanPath;
    if s != ScanSpec(input, scans[0]) {
      ScanSpecsAreReports(input, scans[1..], s);
    }
  }

  // ---------------------------------------------------------------- the whole subject

  lemma {:induction false} RequiredAre(nodes: seq<Node>, subjectId: string)
    ensures forall n :: n in RequiredNodes(nodes, subjectId) <==> n in nodes && n.required && n.subjectId == subjectId
  {
    if nodes != [] {
      RequiredAre(nodes[..|nodes| - 1], subjectId);
      assert nodes == nodes[..|nodes| - 1] + [nodes[|nodes| - 1]];
    }
  }

  /** The required nodes of a covered row's subject come from the row's specs. */
  lemma RequiredComeFromSpecs(input: Input, k: nat, n: Node)
    requires Target in input.contract.template && LineageProducer.DistinctRows(input, input.rows)
    requires k < |input.rows| && Covered(input, input.rows[k])
    ensures var row := input.rows[k]; var id := IdOf(input, row.target.value);
            n in RequiredNodes(GraphOf(input).nodes, id)
            <==> exists s :: s in Specs(input, row) && s.required && n == NodeOf(input, id, row.target.value, s)
  {
    hide Covered, GraphOf, RequiredNodes, Specs, LineageProducer.DistinctRows, IdOf, NodesOf;
    var row := input.rows[k];
    var graph := GraphOf(input);
    LineageProducer.OwnedInGraph(input, k);
    LineageProducer.SubjectTarget(input, row);
    var id := IdOf(input, row.target.value);
    RequiredAre(graph.nodes, id);
    LineageRoundTrip.NodesForOwn(graph.nodes, id);
    Sorting.SamePermutation(GraphReplay.NodesFor(graph.nodes, id), RowNodes(input, row));
    NodesComeFromSpecs(input, id, row.target.value, Specs(input, row), n);
  }

  lemma NodesComeFromSpecs(input: Input, id: string, target: string, specs: seq<Spec>, n: Node)
    ensures n in NodesOf(input, id, target, specs) <==> exists s :: s in specs && n == NodeOf(input, id, target, s)
  {
    hide NodeOf;
    if s :| s in specs && n == NodeOf(input, id, target, s) {
      var j :| 0 <= j < |specs| && specs[j] == s;
      assert NodesOf(input, id, target, specs)[j] == n;
    }
  }

  /** In the assembled bundle a required node of a copied role raises no closure error exactly if its file is there
      and not empty. */
  lemma CopiedNodeCloses(e: FinalEvidence, input: Input, k: nat, i: Inputs, n: Node)
    requires Target in input.contract.template && LineageProducer.DistinctRows(input, input.rows)
    requires k < |input.rows| && Covered(input, input.rows[k]) && SameRelease(input, input.rows[k], i) && IsDigest(i.sha)
    requires n in RequiredNodes(GraphOf(input).nodes, IdOf(input, i.target)) && IsCopied(n.role)
    ensures NodeCloses(Applied(e, i), FinalRefs(Applied(e, i)), n) <==> HasFile(i.root, n.path)
  {
    var row := input.rows[k];
    var id := IdOf(input, i.target);
    RequiredComeFromSpecs(input, k, n);
    CopiedIsWord(n.role);
    hide Covered, GraphOf, RequiredNodes, Specs, LineageProducer.DistinctRows, IdOf, IsCopied, IsWord, Applied,
         FinalRefs, HasFile, Kept, NodeCloses;
    var s :| s in Specs(input, row) && s.required && n == NodeOf(input, id, i.target, s);
    CopiedSpecIsKept(e, input, row, i, s);
    FileNodeCloses(Applied(e, i), input, row, i, id, s);
  }

  // ---------------------------------------------------------------- the other roles

  lemma {:induction false} ScansMeasured(input: Input, scans: seq<string>, s: Spec)
    requires s in ScanSpecs(input, scans)
    ensures s.measured == MeasureFile(input.tree, s.path, input.sha)
  {
    hide MeasureFile, ScanPath;
    if s != ScanSpec(input, scans[0]) {
      ScansMeasured(input, scans[1..], s);
    }
  }

  lemma {:induction false} SuitesMeasured(input: Input, policy: Policy, suites: seq<string>, s: Spec)
    requires s in RuntimeSpecs(input, policy, suites)
    ensures s.measured == MeasureFile(input.tree, s.path, input.sha)
  {
    hide MeasureFile, RuntimePath;
    if s != RuntimeSpec(input, policy, suites[0]) {
      SuitesMeasured(input, policy, suites[1..], s);
    }
  }

  lemma SinglesMeasured(input: Input, target: string, s: Spec)
    requires s == BindingSpec(input) || s in SigningSpecs(input, target) || s in HardwareSpecs(input, target) || s in OtaSpecs(input, target)
             || s in GateSpecs(input, target)
    ensures s.measured == MeasureFile(input.tree, s.path, input.sha)
  {
    hide MeasureFile, BindingPath, SigningPath, HardwarePath, RegistryPath, OtaPath, RoleBindingsPath, SnapshotPath,
         ReproducibilityPath, RetentionPath, IsProduction;
  }

  /** The required scanner nodes are measured from files of the tree. */
  lemma ReportIsMeasured(input: Input, row: Row, s: Spec)
    requires Covered(input, row) && s in Specs(input, row) && LineageInputs.Rank(s.role) == 8
    ensures s.measured == MeasureFile(input.tree, s.path, input.sha)
  {
    hide Covered, Specs, RuntimeSpecs, ScanSpecs, SigningSpecs, OtaSpecs, HardwareSpecs, GateSpecs, BindingSpec,
         ArtifactSpecs, RawRef, CompressedRef, SuitesFor, MeasureFile, LineageInputs.Rank;
    CoveredHasTarget(input, row);
    LineageInputs.FlaggedBlocks(input, row, s);
    LineageInputs.Ranks();
    var target := row.target.value;
    var policy := input.contract.policies[target];
    if s in ArtifactSpecs(input, "raw-image", RawRef(input, row, target)) {
      ArtifactRole(input, "raw-image", RawRef(input, row, target), s);
      assert false;
    } else if s in ArtifactSpecs(input, "compressed-release-artifact", CompressedRef(input, row, target)) {
      ArtifactRole(input, "compressed-release-artifact", CompressedRef(input, row, target), s);
      assert false;
    } else if s in RuntimeSpecs(input, policy, SuitesFor(input.contract, target)) {
      SuitesMeasured(input, policy, SuitesFor(input.contract, target), s);
    } else if s in ScanSpecs(input, input.scans) {
      ScansMeasured(input, input.scans, s);
    } else {
      SinglesMeasured(input, target, s);
    }
  }

  lemma ReportIsWord()
    ensures IsWord("scanner-native-report") && LineageInputs.Rank("scanner-native-report") == 8
  {
    LineageInputs.Ranks();
    assert |"scanner-native-report"| == 21 && |"raw-image"| == 9 && |"compressed-release-artifact"| == 27;
  }

  /** A required scanner node closes exactly if its report is there and not empty, and a report of the same content is held:
      listed by the evidence before, or of the second schema version and copied for one of the evidence's scans. */
  lemma ReportNodeCloses(e: FinalEvidence, input: Input, k: nat, i: Inputs, n: Node)
    requires Target in input.contract.template && LineageProducer.DistinctRows(input, input.rows)
    requires k < |input.rows| && Covered(input, input.rows[k]) && SameRelease(input, input.rows[k], i) && IsDigest(i.sha)
    requires n in RequiredNodes(GraphOf(input).nodes, IdOf(input, i.target)) && n.role == "scanner-native-report"
    ensures NodeCloses(Applied(e, i), FinalRefs(Applied(e, i)), n) <==> HasFile(i.root, n.path) && ReportHeld(e, i, n.path)
  {
    var row := input.rows[k];
    var id := IdOf(input, i.target);
    RequiredComeFromSpecs(input, k, n);
    ReportIsWord();
    hide Covered, GraphOf, RequiredNodes, Specs, LineageProducer.DistinctRows, IdOf, IsWord, Applied, FinalRefs,
         HasFile, Kept, NodeCloses, ReportHeld, LineageInputs.Rank;
    var s :| s in Specs(input, row) && s.required && n == NodeOf(input, id, i.target, s);
    ReportIsMeasured(input, row, s);
    FileNodeCloses(Applied(e, i), input, row, i, id, s);
    if HasFile(i.root, n.path) {
      ReportIsKept(e, i, n.path);
    }
  }

  /** In particular the node of a scan closes when the scan is one of the evidence's and its report is of the second
      schema version. */
  lemma CurrentReportCloses(e: FinalEvidence, input: Input, k: nat, i: Inputs, n: Node, scan: string)
    requires Target in input.contract.template && LineageProducer.DistinctRows(input, input.rows)
    requires k < |input.rows| && Covered(input, input.rows[k]) && SameRelease(input, input.rows[k], i) && IsDigest(i.sha)
    requires n in RequiredNodes(GraphOf(input).nodes, IdOf(input, i.target)) && n.role == "scanner-native-report"
    requires n.path == ScanPath(input, scan) && Relative(scan) && scan in e.scans && IsImageReport(i, scan)
    ensures NodeCloses(Applied(e, i), FinalRefs(Applied(e, i)), n)
  {
    ReportPath(input, input.rows[k], i, scan);
    hide Covered, GraphOf, RequiredNodes, LineageProducer.DistinctRows, IdOf, Applied, FinalRefs, NodeCloses, FileAt,
         ReportSource, Matched;
    ReportNodeCloses(e, input, k, i, n);
    var j :| 0 <= j < |e.scans| && e.scans[j] == scan;
    var b := FileAt(i.root, n.path).value;
    assert ScanHolds(i, e.scans[j], i.sha(b), |b|);
  }

  lemma ReportPath(input: Input, row: Row, i: Inputs, scan: string)
    requires SameRelease(input, row, i) && Relative(scan)
    ensures ReportSource(i, scan) == ScanPath(input, scan)
  {
    RelativeSuffix(scan);
  }

  /** For the other roles the assembly changes nothing. */
  lemma OtherNodesUnchanged(e: FinalEvidence, i: Inputs, n: Node)
    requires LineageInputs.Rank(n.role) in {2, 3, 7, 11}
    ensures NodeCloses(Applied(e, i), FinalRefs(Applied(e, i)), n) <==> NodeCloses(e, FinalRefs(e), n)
  {
    RawImageByRank(n.role);
    hide Matched, ListItems, SlotItem, FinalRefs, ReportEntries, SecurityEntries, SuiteEntries, IsSha256, IsRealSha256,
         FileAt, Slot, Entry, LineageInputs.Rank, Strip;
    if n.measured.sha256.Some? && n.measured.bytes.Some? {
      PartsByRank(Applied(e, i), n.role, n.measured.sha256.value, n.measured.bytes.value);
      PartsByRank(e, n.role, n.measured.sha256.value, n.measured.bytes.value);
    }
    assert Applied(e, i).artifacts == e.artifacts;
  }

  lemma RawImageByRank(role: string)
    ensures LineageInputs.Rank(role) == 2 <==> role == "raw-image"
  {
    LineageInputs.Ranks();
  }

  /** The roles of a subject's nodes, by their places. */
  lemma NodeHasRank(input: Input, k: nat, n: Node)
    requires Target in input.contract.template && LineageProducer.DistinctRows(input, input.rows)
    requires k < |input.rows| && Covered(input, input.rows[k])
    requires n in RequiredNodes(GraphOf(input).nodes, IdOf(input, input.rows[k].target.value))
    ensures 1 <= LineageInputs.Rank(n.role) <= 13
  {
    hide Covered, GraphOf, RequiredNodes, Specs, LineageProducer.DistinctRows, IdOf, LineageInputs.Rank, NodeId;
    var row := input.rows[k];
    CoveredHasTarget(input, row);
    RequiredComeFromSpecs(input, k, n);
    var id, target := IdOf(input, row.target.value), row.target.value;
    var s :| s in Specs(input, row) && s.required && n == NodeOf(input, id, target, s);
    PolicyCoverage.SpecHasRank(input, row, s);
  }

  lemma CopiedByRank(role: string)
    requires 1 <= LineageInputs.Rank(role) <= 13
    ensures !IsCopied(role) && role != "scanner-native-report" ==> LineageInputs.Rank(role) in {2, 3, 7, 11}
  {
  }

  /** When a required node closes in the assembled bundle: a node of a copied role if its file is there and not empty, a
      scanner node if its report is there and one of its content is held, any other as it did before the assembly. */
  predicate ClosesAfter(e: FinalEvidence, i: Inputs, n: Node) {
    if IsCopied(n.role) then HasFile(i.root, n.path)
    else if n.role == "scanner-native-report" then HasFile(i.root, n.path) && ReportHeld(e, i, n.path)
    else NodeCloses(e, FinalRefs(e), n)
  }

  /** Closure preservation: the check on the assembled bundle passes exactly if every required node of the subject closes
      in this sense, which is said of the input tree and of the evidence before the assembly. */
  lemma ClosureIsPreserved(e: FinalEvidence, input: Input, k: nat, i: Inputs)
    requires Target in input.contract.template && LineageProducer.DistinctRows(input, input.rows)
    requires k < |input.rows| && Covered(input, input.rows[k]) && SameRelease(input, input.rows[k], i) && IsDigest(i.sha)
    ensures var graph := GraphOf(input); var id := IdOf(input, i.target);
            Closed(Applied(e, i), graph, id) <==> forall n :: n in RequiredNodes(graph.nodes, id) ==> ClosesAfter(e, i, n)
  {
    var after := Applied(e, i);
    var graph := GraphOf(input);
    var id := IdOf(input, i.target);
    var nodes := RequiredNodes(graph.nodes, id);
    BindingIsRequired(input, k);
    hide Covered, SameRelease, GraphOf, RequiredNodes, IdOf, IsCopied, Applied, FinalRefs, HasFile, NodeCloses,
         ReportHeld, LineageProducer.DistinctRows, LineageInputs.Rank;
    forall n | n in nodes
      ensures NodeCloses(after, FinalRefs(after), n) <==> ClosesAfter(e, i, n)
    {
      if IsCopied(n.role) {
        CopiedNodeCloses(e, input, k, i, n);
      } else if n.role == "scanner-native-report" {
        ReportNodeCloses(e, input, k, i, n);
      } else {
        NodeHasRank(input, k, n);
        CopiedByRank(n.role);
        OtherNodesUnchanged(e, i, n);
      }
    }
    assert forall j :: 0 <= j < |nodes| ==> nodes[j] in nodes;
  }

  lemma BindingIsRequired(input: Input, k: nat)
    requires Target in input.contract.template && LineageProducer.DistinctRows(input, input.rows)
    requires k < |input.rows| && Covered(input, input.rows[k])
    ensures RequiredNodes(GraphOf(input).nodes, IdOf(input, input.rows[k].target.value)) != []
  {
    var row := input.rows[k];
    var id := IdOf(input, row.target.value);
    var s := BindingSpec(input);
    assert s in Specs(input, row) by {
      assert Specs(input, row)[0] == s;
    }
    RequiredComeFromSpecs(input, k, NodeOf(input, id, row.target.value, s));
  }
}

# Release-evidence model

Suderra OS releases are gated by Python tools that derive manifests, graphs and records from a build matrix and a file
tree, and by validators that replay them. This project models the hard part of those tools and proves what the gates
mean: that an index agrees with the thing it indexes, that a line-by-line scanner computes a structured meaning, that a
producer's output passes its validator, and exactly when.

How the model is built:

- A directory tree is a map (or a listing) from paths to bytes. A digest is a function parameter; `Hashing.IsDigest`
  says all that is known of it: 64 lower-case hexadecimal digits, never all zeros. Nothing assumes that digests differ,
  except `LineageInputs.NoCollision`, which asks it of the truncated node ids of one subject.
- The clock, the work tree, git's answers and the contents of policy files are inputs.
- `json.loads`, `json.dumps`, lenient base64 (section 4 of RFC 4648, characters outside the alphabet skipped as in
  section 3.3), UTF-8 decoding, `str.strip`, `str.splitlines` and pure POSIX paths are modelled outright.
- Loops and objects of the tools are methods and classes. Each is proved against a specification function or predicate,
  and the theorems are about those. The imperative validators are specified as "no failure if and only if ...".
- The modules and lemmas whose names end in `Meaning`, `Mean` or `Means` say of the texts and fields themselves what a
  definition yields, without using the definition.

Where the theorems start, component by component:

- Matrix and configuration scanners: `MatrixReader`, `MatrixWords`, `MatrixPrinter`, `MatrixLines`, `MatrixImage`, `GenimageLabels`,
  `BuildTimeLog`.
- Attestations: `Encodings`, `JsonText`, `Statements`, `AttestationRecord`, `AttestationAgreement`, `CanonicalJson`,
  `AttestationMeaning`, `AttestationExample`.
- Subject-graph lineage: `EvidenceGraph`, `SubjectGraph`, `GraphMeaning`, `PolicyCoverage`, `GraphReplay`, `LineageRoundTrip`,
  `ReplayMeaning`, `LineageProducer`, `LineageInputs`, and on to the final bundle in `BundleClosure`, `BundleCopies`, `ClosurePreserved`.
- Identity and build files: `SourceIdentity`, `IdentityVerdict`, `BuildFiles`, `BuildFilesAgree`.
- Gates: `OperatorIngress`, `IngressContract`, `IngressRoles`, `IngressAgreement`, `IngressVerdict`, `Publication`, `WarningGate`,
  `StationOrder`, `ApprovalInput`, `ReviewGate`, `ApprovalGate`.
- Shared: `PyText`, `PosixPath`, `Sorting`, `Json`, `Hashing`, `TextMeaning`, `Timestamps`, `Reporting`.

Conditions that the tools leave implicit and that the proofs brought out, each with its exact condition and an input on
which it fails:

- The attestation record its producer writes is refused by its validator if one attestation file names a subject twice,
  if the log's name, a release file's name or the time stamp is a placeholder, or if an attested release file is empty:
  `AttestationAgreement.ValidatorAgrees`, and `AttestationExample.VerdictOnExample` for a release of one file.
- The round trip of the subject graph fails for suites or needed scans whose paths climb with `..` or differ as texts but
  not as normal paths: `LineageInputs.LineageRoundTrips`, and `LineageInputs.TwoSpellingsExample` for the scans `a` and
  `./a`.
- Two scans of one file name overwrite each other in the bundle, and unless their reports agree, a reference to the first
  is then false; no other copies can meet: `BundleCopies.ReportsDecide`, and `BundleCopies.TwoReportsClash` for the scans
  `a/x` and `b/x`.
- The image-build contract is blind to a missing installer exactly if some release row has an installer's name, target and
  artifact: `BuildFilesAgree.ListsAgreeExactly`, and `BuildFilesAgree.ClashingRowHidesInstaller` for such a row. Unique
  rows are not needed for the two lists to agree, only for the binding's validator to accept what they list
  (`BuildFilesAgree.ArtifactListPasses`).
- An operator manifest created without a failure can still be refused: for an empty validity window, an empty producer
  field, a schema that a listed file which is not required does not carry, or a forbidden root:
  `IngressAgreement.CreatedIsAccepted` for any rules, `IngressVerdict.CreatedUnderContract` for those of a contract and a
  matrix, and `IngressVerdict.WindowDecides` for a candidate's tree of the two governance files and any window.
- The evidence gate reads times without the white space around them and the approval validator does not; with that, the
  header, repeated roles and the draft's defaults set aside, the two judge alike: `ApprovalGate.GatesAgree`, and
  `ApprovalGate.TrailingBlankParts` for one blank behind the times.
- The warning gate without a policy lets third-party warnings through that the bundle's gate refuses:
  `WarningGate.OpenGateDiffers`, and `WarningGate.OneThirdPartyWarning` for a log of one line.

## Model

| member | source | states |
|---|---|---|
| MatrixReader.ScanComment | scripts/ci/validate-build-matrix.py:96-115 | the loop with quote and escape flags cuts the line at the first `#` outside quotes and trims the rest |
| MatrixReader.LoadMatrix | scripts/ci/validate-build-matrix.py:138-192 | the loop over section, current entry and pending key computes `ReadMatrix`, its errors with their line numbers included |
| MatrixWords.ScalarMeans | scripts/ci/validate-build-matrix.py:118-128 | a trimmed word reads as a value exactly if the value is its meaning: true, false, null for `null` or `~`, the text between its quotes, the number of its digits, or else the word itself |
| MatrixLines.FieldLine | scripts/ci/validate-build-matrix.py:167-188 | a written pair `key: word` puts the word's meaning under the key of the open entry, whatever the word |
| MatrixLines.FileIsRead | scripts/ci/validate-build-matrix.py:118-192 | a written file of pairs, a list and a scan reads as the matrix of its words' meanings, each under its key |
| MatrixPrinter.StripCommentIsPrefix | scripts/ci/validate-build-matrix.py:96-115 | stripping takes a prefix and is idempotent |
| MatrixPrinter.CommentIsInvisible | scripts/ci/validate-build-matrix.py:96-115 | a remark after any line that ends outside quotes and escapes is stripped away again, with the blank before it |
| MatrixPrinter.CommentsNeverChangeMeaning | scripts/ci/validate-build-matrix.py:96-192 | remarks on any number of lines leave the loaded matrix, or the error, unchanged |
| MatrixPrinter.PrinterIsComplete | scripts/ci/validate-build-matrix.py:118-128 | in whatever state the comment scanner is, a string that a comment-free text denotes there is one the printer can write there |
| MatrixPrinter.MatrixRoundTrip | scripts/ci/validate-build-matrix.py:138-192 | reading the printed lines of any valid matrix of sections, entries, scalars and lists gives the matrix back, entries that start with a list and keys with an odd quote included |
| MatrixPrinter.MatrixTextRoundTrip | scripts/ci/validate-build-matrix.py:138-192 | the same from the file's text through line splitting |
| MatrixImage.ValidIsReadable | scripts/ci/validate-build-matrix.py:96-192 | the valid matrices are exactly those that some text denotes |
| MatrixImage.RereadIsIdentity | scripts/ci/validate-build-matrix.py:96-192 | whatever file is read without an error, its matrix printed and read again is the same matrix |
| GenimageLabels.GenimageLabelErrors | scripts/ci/validate-build-matrix.py:246-285 | the loop over the block stack computes the scan |
| GenimageLabels.ScanIsTreeMeaning | scripts/ci/validate-build-matrix.py:246-285 | for every file, reported errors are those of a block tree that flattens to it: labels over the limit of their nearest enclosing file system, in line order, stray braces ignored |
| GenimageLabels.MeaningIsUnique | scripts/ci/validate-build-matrix.py:246-285 | whatever tree flattens to the file, the meaning is the same |
| GenimageLabels.LineMeans | scripts/ci/validate-build-matrix.py:246-285 | a line closes a block exactly if it is a bare brace, opens one exactly if it is a word and an opening brace, and labels exactly if it sets a quoted label |
| GenimageLabels.WordCharMeans | scripts/ci/validate-build-matrix.py:246-285 | the characters of a block's name, by their codes |
| BuildTimeLog.ParseBuildTimeLog | scripts/ci/buildroot-build-evidence.py:59-129 | counts obey both conservation laws (ends are completed or unmatched, starts completed, open or overwritten), both books hold the totals of the matched durations and sum to them, total seconds span first to last time stamp |
| BuildTimeLog.LineMeans | scripts/ci/buildroot-build-evidence.py:72-91 | a line yields an event exactly if it has four parts, of which the first three hold no colon, a readable time, and a step and a package that are not blank; and then the event of those four without the white space around them |
| BuildTimeLog.PrintedLineIsRead | scripts/ci/buildroot-build-evidence.py:72-91 | the written line of an event reads as that event, packages with colons included |
| BuildTimeLog.PrintedLogIsRead | scripts/ci/buildroot-build-evidence.py:72-100 | the written log of any events has just those events, in order |
| BuildTimeLog.CompletesMeansPairs | scripts/ci/buildroot-build-evidence.py:72-100 | an end completes exactly if it has a same-key start with no same-key event between, and its duration is counted from that start |
| BuildTimeLog.PairsAreDisjoint | scripts/ci/buildroot-build-evidence.py:72-100 | a start is closed by one end at most |
| BuildTimeLog.DurationWithinSpan | scripts/ci/buildroot-build-evidence.py:72-108 | every booked duration lies between zero and the span of the log |
| BuildTimeLog.Top | scripts/ci/buildroot-build-evidence.py:110-116 | twenty entries at most, in order, and nothing left out comes before anything listed |
| JsonText.LoadsWritten | scripts/evidence/machine-verification-record.py:122-128 | a value is read from every text that writes it, with any blanks between its parts and around it |
| JsonText.LoadsDumps | scripts/evidence/machine-verification-record.py:561-568 | reading the printing of a JSON value gives the value back, compact or with an indent of two and a final line break |
| JsonText.LiteralMeans | scripts/evidence/machine-verification-record.py:122-128 | the scanner takes a text for a number exactly if it has the parts of the grammar in section 6 of RFC 8259, or is one of Python's three words |
| JsonText.EscapesMean | scripts/evidence/machine-verification-record.py:122-128 | the short escapes of a string are the eight of section 7 of RFC 8259 |
| Encodings.Utf8Means | scripts/evidence/machine-verification-record.py:122-128 | bytes decode to a text exactly if they are the shortest forms of its characters, one after another |
| Encodings.Base64RoundTrip | scripts/evidence/machine-verification-record.py:122-128 | the lenient decoder inverts the encoder |
| Encodings.JunkIsSkipped | scripts/evidence/machine-verification-record.py:122-128 | in an ASCII text, characters outside the alphabet make no difference to the decoder |
| Encodings.PaddingMeans | scripts/evidence/machine-verification-record.py:122-128 | letters alone decode exactly in whole groups of four; a group of three is closed by one sign and one of two by two, whatever stands behind, and one letter alone by neither |
| Statements.IterAttestationStatements | scripts/evidence/machine-verification-record.py:130-166 | the recursion with its accumulator terminates, its measure dropping through decoded payloads, and computes the walk |
| Statements.WalkIsReachability | scripts/evidence/machine-verification-record.py:130-166 | collected are exactly the statement-shaped objects reachable through lists, the listed keys and decoded payload strings |
| Statements.EnvelopesAreOpened | scripts/evidence/machine-verification-record.py:122-166 | a statement is found below any layers of objects that hold it under one of the listed keys, as a value or as a base64 payload |
| AttestationRecord.CreateRecord | scripts/evidence/machine-verification-record.py:356-429 | the creation loop succeeds exactly when `Creatable` holds and then yields the record |
| AttestationRecord.VerifiedSubjects | scripts/evidence/machine-verification-record.py:295-343 | the verified subjects are those named by the files' statements, each once |
| AttestationRecord.ValidateRecord | scripts/evidence/machine-verification-record.py:457-551 | the validator's loops report nothing exactly on accepted records |
| AttestationAgreement.CreatedRecordIsSound | scripts/evidence/machine-verification-record.py:295-429 | a created record attests exactly the release files with their digests; each is named in some statement that binds the source, and every contributing statement binds repository, ref, run, attempt and commit |
| AttestationMeaning.CreatedRecordMeans | scripts/evidence/machine-verification-record.py:186-429 | said of the texts: every release file is listed with its digest by some statement of the attestations; every statement that lists anything is of the SLSA type, names a builder and shows repository, ref, run, attempt and commit, none of them empty, in the sorted text of its predicate; and it lists release files only |
| AttestationMeaning.TruthyMeans | scripts/evidence/machine-verification-record.py:227 | a number counts as false exactly if no digit but zero stands before its exponent |
| AttestationMeaning.UniqueMeans | scripts/evidence/machine-verification-record.py:242-246 | the materials kept are among those listed, one for each canonical text and none left out |
| AttestationMeaning.MinimalIsSorted | scripts/evidence/machine-verification-record.py:108-116 | a material's subjects are listed by name, and those of one name by digest |
| CanonicalJson.CanonicalTextMeans | scripts/evidence/machine-verification-record.py:185-186 | the text searched for the source is the compact printing of the value with its fields reordered, so that the keys of every object ascend |
| AttestationAgreement.ValidatorAgrees | scripts/evidence/machine-verification-record.py:356-551 | the validator accepts a created record if and only if the side conditions hold |
| AttestationExample.VerdictOnExample | scripts/evidence/machine-verification-record.py:356-551 | for a release of one file with one attestation the record is always created, and accepted exactly if the file is not empty, is not named twice and the time stamp is no placeholder |
| AttestationExample.SourceDecides | scripts/evidence/machine-verification-record.py:260-429 | on that release, for any source: a record is made if and only if the source's fields are collected and its five texts occur in the predicate |
| AttestationExample.OtherRunIsRefused | scripts/evidence/machine-verification-record.py:260-429 | so for a run that the predicate does not show no record is made |
| SubjectGraph.Evidence.Append | scripts/evidence/prepare-release-inputs.py:500-538 | one call appends the node and its edge to the two lists in place, and the node's id to those of the row |
| SubjectGraph.SubjectGraphPayload | scripts/evidence/prepare-release-inputs.py:541-831 | the nested loops over rows and evidence build the specified graph |
| GraphMeaning.GraphIsSorted | scripts/evidence/prepare-release-inputs.py:817-819 | subjects are sorted by target, nodes by target, role and path, edges by source, role and end: at the first difference the former has the lesser text |
| GraphMeaning.EdgesFollowNodes | scripts/evidence/prepare-release-inputs.py:500-538 | every node has an edge from its subject and every edge its node, and the edge requires the node exactly if the node is required, and observes it otherwise |
| EvidenceGraph.SubjectIdsDiffer | scripts/evidence/evidence_contract.py:588-603 | a template that names the target gives distinct targets distinct subject ids |
| PolicyCoverage.EvidenceFollowsPolicy | scripts/evidence/prepare-release-inputs.py:590-787 | a subject's slice of the sorted graph holds a node of a given role, path and necessity exactly if the target's policy and the profile demand it, for all thirteen roles, suites and scans included |
| PolicyCoverage.RequirementFollowsProfile | scripts/evidence/prepare-release-inputs.py:590-787 | which nodes are required: binding and reproducibility always, the rest in production only, runtime suites only where demanded |
| GraphReplay.Replay | scripts/evidence/rc-evidence-dry-run.py:685-802 | the replay loop reports nothing exactly if every plan agrees with the graph and plan targets equal graph targets |
| GraphReplay.CanonicalNodes | scripts/evidence/rc-evidence-dry-run.py:472-535 | the set builder returns the canonical nodes and fails exactly on a malformed or repeated node |
| LineageRoundTrip.SliceReplayRoundTrip | scripts/evidence/rc-evidence-dry-run.py:634-802 | any graph, sliced into one plan per subject and replayed, passes if and only if it is replayable, a condition on the graph alone |
| ReplayMeaning.ReplayIsSound | scripts/evidence/rc-evidence-dry-run.py:472-802 | a passing replay means a plan for every subject and none beyond, each with the subject's id, target, build name, commit and run, the same real digest and positive size or none for the raw and for the compressed artifact alike, and the records, edges, required evidence and retention of the graph, all said field by field |
| ReplayMeaning.MirrorsPass | scripts/evidence/rc-evidence-dry-run.py:685-802 | conversely plans that mirror the subjects of a replayable graph, one for each target, pass |
| ReplayMeaning.OneFieldFails | scripts/evidence/rc-evidence-dry-run.py:711-720 | a plan that differs from its subject in one of these fields alone, or in one artifact's digest or size, defeats the replay |
| ReplayMeaning.MissingRecordFails | scripts/evidence/rc-evidence-dry-run.py:472-802 | so does a plan without a record of one of the subject's nodes |
| LineageProducer.ProducedGraphReplays | scripts/evidence/prepare-release-inputs.py:541-831 | the produced graph survives slicing and replay if and only if every covered row's evidence is clean |
| LineageInputs.PreimagesDiffer | scripts/evidence/prepare-release-inputs.py:495-497 | role and path can be read off a node id's preimage |
| LineageInputs.LineageRoundTrips | scripts/evidence/prepare-release-inputs.py:541-831 | over any matrix with distinct targets, plain version and targets, valid digests and non-empty files, the whole round trip succeeds if and only if in every covered row the normal paths of suites, and of scans where needed, are safe and all different |
| LineageInputs.TwoSpellingsFail | scripts/evidence/prepare-release-inputs.py:541-831 | with the scans `a` and `./a` no graph with a row that needs scans survives, whatever else the input holds |
| LineageInputs.TwoSpellingsExample | scripts/evidence/prepare-release-inputs.py:541-831 | such an input in full |
| BundleClosure.Bundle.Preserve | scripts/evidence/release-evidence.py:712-726 | the file is copied into the bundle and the reference measures the copy |
| BundleClosure.Bundle.ApplyReleaseInputs | scripts/evidence/release-evidence.py:1201-1381 | evidence after the in-place update, slot by slot and list by list, and the files after the copies in their order |
| BundleCopies.CopiesAreReferenced | scripts/evidence/release-evidence.py:1201-1381 | the assembly adds a reference for every copy it makes, and no other |
| BundleCopies.BundleIsTrue | scripts/evidence/release-evidence.py:712-726 | if the bundle's references were true and lie apart from the destinations, then after the assembly all references measure the files at their paths if and only if no two copies to one normal destination differ in digest or size |
| BundleCopies.OnlyReportsClash | scripts/evidence/release-evidence.py:1201-1381 | of all copies of an assembly only reports can overwrite each other: copies to one destination agree if and only if the reports of any two scans with one file name agree in digest and size |
| BundleCopies.ReportsDecide | scripts/evidence/release-evidence.py:1201-1381 | so, under the same conditions, all references of the assembled bundle are true if and only if those reports agree |
| BundleCopies.TwoReportsClash | scripts/evidence/release-evidence.py:1281-1288 | the scans `a/x` and `b/x` go to one file, and with reports of different size a reference is false |
| BundleClosure.FinalEvidenceGraphRefs | scripts/evidence/release-evidence.py:2140-2177 | the loops collect the references with a well-formed digest and a size, in order |
| BundleClosure.ValidateSubjectGraphClosure | scripts/evidence/release-evidence.py:2180-2223 | errors are added exactly if a required node does not close or none is required |
| ClosurePreserved.CopiedNodeCloses | scripts/evidence/release-evidence.py:1201-1381 | a required node of one of the eight copied roles raises no error exactly if its file is there and not empty |
| ClosurePreserved.ReportNodeCloses | scripts/evidence/release-evidence.py:1281-1305 | a required scanner node raises no error exactly if its report is there and not empty and a report of its content is held, listed before or of the second schema version and copied for one of the evidence's scans |
| ClosurePreserved.CurrentReportCloses | scripts/evidence/release-evidence.py:1281-1305 | so the node of a scan closes when the scan is one of the evidence's and its report is of the second schema version |
| ClosurePreserved.ClosureIsPreserved | scripts/evidence/release-evidence.py:2180-2223 | for a graph and a bundle of one release, closure after the assembly is said of the input tree and of the evidence before it: copied roles by their files, scanner nodes by their reports, the other roles unchanged by the assembly |
| SourceIdentity.EffectiveIsReadable | scripts/ci/buildroot-patch-identity.py:181-199 | the effective-id text determines index, ref, mode, patch set and diff, even if the ref contains line breaks |
| SourceIdentity.ReleaseIsReadable | scripts/ci/buildroot-patch-identity.py:155-163 | the release-source text determines its three fields |
| SourceIdentity.PatchsetIsReadable | scripts/ci/buildroot-patch-identity.py:98-103 | the canonical patch-set text determines the patches, their order included |
| IdentityVerdict.Metadata | scripts/ci/buildroot-patch-identity.py:236-286 | the dictionary filled step by step is the specified payload |
| IdentityVerdict.ValidateMetadataPayload | scripts/ci/buildroot-patch-identity.py:359-511 | no failure exactly on valid payloads |
| IdentityVerdict.ProducerIsAccepted | scripts/ci/buildroot-patch-identity.py:236-511 | for well-formed git inputs the producer's payload is valid if and only if the source is unpatched on the pinned commit with no work-tree diff, or patched with one |
| IdentityVerdict.BuildrootMetadataForBinding | scripts/evidence/prepare-release-inputs.py:98-124 | the loop copies the present fields and renames the schema version |
| IdentityVerdict.IngressManifest | scripts/evidence/release-ingress.py:334-371 | some fields copied always, others only when not null |
| IdentityVerdict.BuildrootIdentityPayloadFromMapping | scripts/evidence/release-ingress.py:128-153 | the loop that undoes the renaming |
| IdentityVerdict.VerdictSurvivesRenaming | scripts/evidence/release-ingress.py:128-371 | the verdict is the same for the payload, for what comes back from the binding, and for what comes back from the ingress manifest |
| BuildFiles.Create | scripts/ci/image-build-contract.py:64-115 | the nested loops record every wanted file that is there and fail exactly on an empty one |
| BuildFiles.ExpectedContractKeys | scripts/ci/image-build-contract.py:144-176 | the set of keys that must be seen |
| BuildFiles.Validate | scripts/ci/image-build-contract.py:178-240 | no failure exactly if the entries are true of the tree and no required key is missing |
| BuildFiles.Entries | scripts/evidence/prepare-release-inputs.py:196-303 | each producer lists what is there and reports an error exactly if something is missing |
| BuildFilesAgree.LogIsLocated | scripts/ci/image-build-contract.py:59-61 | a log file is taken from below `build-logs` and else from beside that directory |
| BuildFilesAgree.InstallersMean | scripts/ci/image-build-contract.py:112-116 | the four installer files, spelled out |
| BuildFilesAgree.ContractCountsKeys | scripts/ci/image-build-contract.py:64-240 | the contract made from a tree is valid on it if and only if every required key is held by some file of that key |
| BuildFilesAgree.TwoListsAgree | scripts/ci/image-build-contract.py:64-240 | where no image has an installer's key, the contract made from a tree is valid on it if and only if none of the binding's three producers misses a file |
| BuildFilesAgree.ListsAgreeExactly | scripts/ci/image-build-contract.py:178-240 | for rows of plain names, the two agree on every tree if and only if no image of a release row has an installer's name, target and artifact |
| BuildFilesAgree.InstallerKeyHidesMissing | scripts/ci/image-build-contract.py:178-240 | for every such image there is a tree without the installer whose contract is made and passes |
| BuildFilesAgree.ClashingRowHidesInstaller | scripts/ci/image-build-contract.py:178-240 | a row `installer-x86_64` for `x86_64` with that artifact, and the tree that shows it |
| BuildFilesAgree.ValidateReleaseArtifactBindings | scripts/evidence/evidence_contract.py:853-900 | the validator's loop over seen keys, no failure exactly on valid lists |
| BuildFilesAgree.ArtifactListPasses | scripts/evidence/evidence_contract.py:844-900 | the binding's own artifact list is valid if and only if it is not empty, no file is missing or empty, and no defconfig lists an artifact twice |
| OperatorIngress.ScanEvidenceFiles | scripts/evidence/operator-evidence-ingress.py:366-396 | records and failures of the scan over the allowed roots |
| OperatorIngress.ValidateManifest | scripts/evidence/operator-evidence-ingress.py:533-663 | the loops with their seen paths report nothing exactly on accepted manifests |
| OperatorIngress.CreateManifest | scripts/evidence/operator-evidence-ingress.py:450-491 | the manifest holds the scan's records, and fails exactly on a bad header, an unclean scan or the core files |
| IngressAgreement.AcceptanceIsEquality | scripts/evidence/operator-evidence-ingress.py:533-663 | acceptance with an input root means that paths, roles, sizes and digests are exactly the tree's, each path once, with the remaining conditions spelt out |
| IngressAgreement.CreatedIsAccepted | scripts/evidence/operator-evidence-ingress.py:450-663 | a manifest created without failure is accepted on the same tree exactly before expiry, with a window that is not empty, filled producer fields, a file, carried schemas and no forbidden root |
| IngressContract.RequiredEvidencePaths | scripts/evidence/evidence_contract.py:758-813 | the loops over scans, release rows and targets collect the required paths, with a target that needs hardware known from any of its rows |
| IngressRoles.GovernanceFiles | scripts/evidence/operator-evidence-ingress.py:268-329 | role and schema of every governance path, which carries a schema from the third level on |
| IngressRoles.LabFiles | scripts/evidence/operator-evidence-ingress.py:283-337 | role and schema of every lab path by its file name |
| IngressRoles.ReleaseFiles | scripts/evidence/operator-evidence-ingress.py:279-346 | role and schema of approvals, reproducibility reports and runtime suites |
| IngressRoles.SigningFiles | scripts/evidence/operator-evidence-ingress.py:303-348 | a signing manifest, a session in any other JSON file, and supporting evidence |
| IngressRoles.RetainedFiles | scripts/evidence/operator-evidence-ingress.py:309-352 | role and schema of retention manifests and OTA artifacts |
| IngressRoles.OtherFiles | scripts/evidence/operator-evidence-ingress.py:268-352 | below any other root a file is operator evidence without a schema |
| IngressRoles.SecurityFiles | scripts/evidence/operator-evidence-ingress.py:318-447 | a security report carries its schema among the required files only |
| IngressContract.AsIntMeans | scripts/evidence/operator-evidence-ingress.py:183-202 | the integer read from a JSON value is the one its digits write, or that of a truth value, and nothing else is read |
| IngressContract.ValidateAuditLog | scripts/evidence/operator-evidence-ingress.py:160-208 | no failure exactly on audit logs that pass, on untyped JSON |
| IngressContract.ValidateCoreFiles | scripts/evidence/operator-evidence-ingress.py:399-447 | no failure exactly if the audit log and the station registry pass and every required file that is there is an object of its schema |
| IngressVerdict.CreatedUnderContract | scripts/evidence/operator-evidence-ingress.py:323-663 | under the rules of any contract and matrix, a manifest created without failure is accepted on the same tree exactly with a window that is neither empty nor over, filled producer fields, schemas carried by the files that are not required, and no forbidden root |
| IngressVerdict.WindowDecides | scripts/evidence/operator-evidence-ingress.py:450-663 | for a candidate, any contract that allows the governance root and any matrix without release rows: on a tree of the audit log and the station registry the manifest is created without failure whatever its window, and accepted exactly inside a window that is not empty |
| Publication.ValidateManifest | scripts/evidence/release-publication-manifest.py:113-212 | no failure exactly on valid manifests |
| Publication.ManifestIsTheDirectory | scripts/evidence/release-publication-manifest.py:113-212 | a valid manifest lists exactly the directory's public files with size, digest and role, none twice, and nothing else is asked but the stated rest |
| Publication.CreateManifest | scripts/evidence/release-publication-manifest.py:73-105 | the loop over the sorted listing lists every file but the manifest and its two sidecars |
| Publication.CreatedIsValid | scripts/evidence/release-publication-manifest.py:73-212 | when the created manifest is valid on its directory, exactly |
| Publication.CreateRecord | scripts/evidence/post-publication-verification.py:71-198 | the loop succeeds exactly if the manifest is valid, the source collected and every asset vouched for |
| Publication.EveryAssetIsAttested | scripts/evidence/post-publication-verification.py:107-198 | with a record, every file but the manifest and the names that end in `.sig` or `.cert` has its own signature and certificate beside it, not empty, and a reachable statement that names it with the digest of the published bytes and binds the publication's source |
| Publication.RecordIsTheRelease | scripts/evidence/post-publication-verification.py:107-198 | the record lists exactly those files with role, size and digest |
| WarningGate.Collect | scripts/ci/classify-build-warnings.py:209-239 | the loop that carries the current package computes the collection |
| WarningGate.CollectedMean | scripts/ci/classify-build-warnings.py:126-239 | every collected warning is owned exactly if its line shows an environment failure or an own path, or the package of the nearest line that names one is `suderra` or starts with `suderra-`, behind an optional `host-`; third-party exactly if it is not owned, matches no upstream pattern and has no package; upstream otherwise |
| WarningGate.EveryWarningIsMeant | scripts/ci/classify-build-warnings.py:209-239 | no warning line is left out |
| WarningGate.CountsAddUp | scripts/ci/classify-build-warnings.py:242-257 | category counts and fingerprint counts both add up to the number of warnings |
| WarningGate.PolicyFailures | scripts/ci/classify-build-warnings.py:269-332 | no failure exactly under a valid, unexpired policy that allows every upstream fingerprint, with no third-party warning |
| WarningGate.ClassifyLogs | scripts/ci/classify-build-warnings.py:367-404 | document and exit status of a run over several logs |
| WarningGate.OwnWarningBlocks | scripts/ci/classify-build-warnings.py:367-404 | a log with an owned warning, be it only for its package, is never let through, whatever the policy |
| WarningGate.CheckDocument | scripts/evidence/release-evidence.py:1926-1943 | no error exactly on documents the bundle accepts |
| WarningGate.PolicyGateAgrees | scripts/evidence/release-evidence.py:1926-1943 | under a policy, exit 0, the bundle's checks on the emitted document, and "valid policy and only approved upstream warnings" are one and the same |
| WarningGate.OpenGateDiffers | scripts/ci/classify-build-warnings.py:367-404 | without a policy the bundle's gate is stricter by exactly the third-party warnings |
| WarningGate.OneThirdPartyWarning | scripts/ci/classify-build-warnings.py:367-404 | for a log of one line that is a warning without owner, package or known pattern, the run exits with 0 and the document it emits is refused |
| StationOrder.ValidateEvents | scripts/evidence/station-acquisition.py:300-376 | the accumulation of roles and the comparison of positions, no error exactly on accepted events |
| StationOrder.SortedMeansAscending | scripts/evidence/station-acquisition.py:373-375 | a list of positions equals its sorted form exactly if it ascends |
| StationOrder.OrderMeansEmbedding | scripts/evidence/station-acquisition.py:373-375 | the comparison succeeds exactly if the first occurrences of the distinct roles come in order |
| StationOrder.AcceptedEventsAreOrdered | scripts/evidence/station-acquisition.py:300-376 | accepted events contain the required order as a subsequence, at strictly increasing first occurrences |
| ApprovalInput.ValidateApprovalPayload | scripts/evidence/release_approval.py:37-141 | with and without `require_pass`, the loops over approvals, fields and risk items report nothing exactly on passing inputs |
| ReviewGate.Evidence.ApplyApprovals | scripts/evidence/release-evidence.py:1497-1511 | the copied sections replace the initial ones where they have the right type |
| ReviewGate.ValidateReview | scripts/evidence/release-evidence.py:3283-3376 | with and without `require_pass`, the three evidence checks add no error exactly where the sections hold |
| ApprovalGate.GatesAgree | scripts/evidence/release_approval.py:62-141 | for either value of `require_pass`, an approval passes its validator if and only if, at the same time, the evidence gate passes the sections copied from it and the input meets what only the validator asks |
| ApprovalGate.TrailingBlankParts | scripts/evidence/release_approval.py:19-29 | one blank behind the times of a good approval: its validator refuses it and the evidence gate passes it |
| TextMeaning.StripMeans | scripts/evidence/evidence_contract.py:606-607 | `strip()` is the text whose ends are no white space and around which there is nothing else |
| TextMeaning.LessMeans | scripts/evidence/prepare-release-inputs.py:817-819 | one text comes before another exactly if it does at their first difference, or ends there |
| TextMeaning.PlaceholdersMean | scripts/evidence/evidence_contract.py:37-47 | a placeholder is one of the listed words with any white space around it |
| TextMeaning.SafeMeans | scripts/evidence/evidence_contract.py:610-616 | a path is safe exactly if it is not blank, does not start with a slash and has no piece `..` between slashes or its ends |
| TextMeaning.DigestsMean | scripts/evidence/evidence_contract.py:36 | a digest is sixty-four of the sixteen digits, and a real one is not sixty-four zeros |

## Left out

- Foreign programs: git, cosign, openssl, gh, genimage, xz, rauc, qemu and station adapters; their results are inputs.
- Printing, argument parsing, environment variables, module loading by path, writing JSON to disk.
- Failure messages: the model keeps that a failure is reported, mostly not its wording. Where one predicate covers several checks, one failure stands for them.
- Ill-typed JSON fields in graphs, plans, bindings, build-file and publication lists: those records are typed. The walker, the record's statements, approvals and the identity payload are modelled on untyped values.
- JsonText.LoadsDumps: a lone surrogate escape, which Python reads into a string, is refused here, because a Dafny character cannot hold it. Float literals are kept as read. Limits on digits and on recursion depth are not modelled.
- An undecodable byte in an evidence file raises in the assembly and counts as unreadable here.
- EvidenceGraph.FileAt: an absolute path or one with `..` names no file, where the tools would look outside the tree.
- BuildTimeLog.ParseBuildTimeLog: times are exact rationals; the rounding of totals and top lists, NaN and infinities are not modelled.
- GraphReplay.Replay: the artifact inventory, the governance snapshot and the role payloads that the dry run replays besides.
- BundleClosure.Bundle.ApplyReleaseInputs: the copies, and references, of raw scanner evidence, runtime logs, signing sessions, station events and the graph itself, and the statuses set from payloads, do not bear on closure. Station registry and governance snapshot are written by other functions; their references are fields that this one leaves alone.
- ClosurePreserved.ClosureIsPreserved: compressed artifact, station registry and governance snapshot close by the evidence before the assembly, which other functions fill.
- IdentityVerdict.Valid: a source mode that cannot be hashed makes Python raise and counts as invalid here. Keys are an enumeration in place of texts.
- BuildFiles.Record: roles and the release artifact's name in the entries, the contract's header and its own digest.
- OperatorIngress.Exists: what lies behind a symbolic link is not part of the listing.
- OperatorIngress.HeadIsGood: the formats of version, commit, run numbers and bundle provenance are one flag of the header.
- IngressContract.ValidateAuditLog: a `source_kind` that is a list or an object makes Python raise and counts as refused here.
- IngressContract.RequiredEvidencePaths: rows of the matrix and policies are typed.
- Publication.Tools: the classifier of release assets is a parameter. The digest over the set of assets is not modelled.
- WarningGate.Patterns: the regular expressions are predicates and total functions; the normaliser is not modelled.
- StationOrder.Event: the checks on a single event are one flag.
- Timestamps.Instant: in a date-only text such as `2999-01-01Z`, Python takes the offset's `+` for the separator before a time and reads a time without a zone; comparing it with the clock then raises. The model gives it an instant, so `ApprovalInput.AcceptancePasses` and `ReviewGate.AcceptedInTime` answer there.
- ApprovalGate.IsoIsStrict: all that is used of `datetime.fromisoformat`, which `Clock.iso` stands for.
- ApprovalInput.Passes and ReviewGate.Holds: a status that is a list or an object makes Python raise and counts as refused here.
- AttestationRecord.Truthy: a float literal so small that Python reads it as zero counts as true here.
- SARIF, budgets, OTA and retention producers, USB packaging, workflow-contract text checks and the policy files' contents.

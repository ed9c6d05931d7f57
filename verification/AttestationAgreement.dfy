/** What a created record guarantees, and exactly when the validator accepts it. */
module AttestationAgreement {
  import opened PyText
  import opened Hashing
  import opened Json
  import opened AttestationRecord
  import Sorting
  import PosixPath

  // ---------------------------------------------------------------- the attested set

  predicate ReleaseSubject(release: seq<File>, sha: Bytes -> string, s: Subject) {
    exists i :: 0 <= i < |release| && IsAttested(release[i].name) && s == Subject(release[i].name, sha(release[i].bytes))
  }

  lemma {:induction false} AttestedEntries(release: seq<File>, sha: Bytes -> string)
    ensures forall e :: e in Attested(release, sha) <==>
              exists i :: 0 <= i < |release| && IsAttested(release[i].name)
                          && e == Entry(Subject(release[i].name, sha(release[i].bytes)), |release[i].bytes|)
  {
    if release != [] {
      var front := release[..|release| - 1];
      AttestedEntries(front, sha);
      assert forall i :: 0 <= i < |front| ==> front[i] == release[i];
    }
  }

  lemma AttestedSet(release: seq<File>, sha: Bytes -> string)
    ensures forall s :: s in EntrySet(Attested(release, sha)) <==> ReleaseSubject(release, sha, s)
  {
    AttestedEntries(release, sha);
    hide Attested, IsAttested;
    forall s
      ensures s in EntrySet(Attested(release, sha)) <==> ReleaseSubject(release, sha, s)
    {
      if ReleaseSubject(release, sha, s) {
        var i :| 0 <= i < |release| && IsAttested(release[i].name) && s == Subject(release[i].name, sha(release[i].bytes));
        assert Entry(s, |release[i].bytes|) in Attested(release, sha);
      }
    }
  }

  lemma MinimalSame(subjects: seq<Subject>)
    ensures SubjectSet(Minimal(subjects)) == SubjectSet(subjects)
    ensures |Minimal(subjects)| == |subjects|
    ensures Sorting.NoRepeats(Minimal(subjects)) <==> Sorting.NoRepeats(subjects)
  {
    Sorting.SortPermutes(subjects, SubjectBefore);
    Sorting.SamePermutation(Minimal(subjects), subjects);
  }

  lemma {:induction false} SubjectFromSomeStatement(statements: seq<Json>, s: Subject) returns (st: Json)
    requires s in FileSubjects(statements)
    ensures st in statements && s in SubjectsFromStatement(st)
  {
    var last := statements[|statements| - 1];
    if s in SubjectsFromStatement(last) {
      st := last;
    } else {
      st := SubjectFromSomeStatement(statements[..|statements| - 1], s);
    }
  }

  /** The statement `st`, reachable in the attestation file `f`, names `s` and binds the source. */
  predicate Vouches(f: File, st: Json, s: Subject, source: Source) {
    st in FileStatements(f) && s in SubjectsFromStatement(st) && Binds(st, source)
  }

  /** A created record lists exactly the digests of the release files, and for each of them some attestation file holds
      a statement that names it and binds repository, ref, run, attempt and commit. */
  lemma CreatedRecordIsSound(input: Input, sha: Bytes -> string)
    requires Creatable(input, sha)
    ensures forall s :: s in SubjectSet(RecordOf(input, sha).verified) <==> ReleaseSubject(input.release, sha, s)
    ensures forall s | ReleaseSubject(input.release, sha, s) ::
              exists i, st :: 0 <= i < |input.attestations| && Vouches(input.attestations[i], st, s, input.source)
    ensures forall i, st | 0 <= i < |input.attestations| && st in FileStatements(input.attestations[i])
                           && SubjectsFromStatement(st) != [] :: Binds(st, input.source)
  {
    hide Binds, SubjectsFromStatement, FileStatements, Attested, Verified, Materials, ReleaseSubject, Collected;
    AttestedSet(input.release, sha);
    VerifiedSubjects(input.attestations);
    MinimalSame(Verified(input.attestations));
    forall s | ReleaseSubject(input.release, sha, s)
      ensures exists i, st :: 0 <= i < |input.attestations| && Vouches(input.attestations[i], st, s, input.source)
    {
      assert s in Verified(input.attestations);
      var i :| 0 <= i < |input.attestations| && s in FileSubjects(FileStatements(input.attestations[i]));
      var st := SubjectFromSomeStatement(FileStatements(input.attestations[i]), s);
      assert GoodFile(input.attestations[i], input.source);
      assert Vouches(input.attestations[i], st, s, input.source);
    }
  }

  // ---------------------------------------------------------------- acceptance

  /** The side conditions under which the validator accepts what the producer made. */
  predicate Acceptable(input: Input) {
    && !IsPlaceholder(input.generatedAt) && !IsPlaceholder(input.log.name)
    && (forall i :: 0 <= i < |input.release| && IsAttested(input.release[i].name) ==>
          !IsPlaceholder(input.release[i].name) && input.release[i].bytes != [])
    && forall i :: 0 <= i < |input.attestations| ==> Sorting.NoRepeats(FileSubjects(FileStatements(input.attestations[i])))
  }

  lemma KeysAreUnique(a: Subject, b: Subject)
    requires |a.sha256| == |b.sha256| && SubjectKey(a) == SubjectKey(b)
    ensures a == b
  {
    var k := SubjectKey(a);
    assert |a.name| == |b.name|;
    assert k[..|a.name|] == a.name && k[..|b.name|] == b.name;
    assert k[|a.name| + 1..] == a.sha256 && k[|b.name| + 1..] == b.sha256;
  }

  /** For safe subjects, the keys repeat exactly where the subjects do. */
  lemma ValidSubjectsMeansNoRepeats(subjects: seq<Subject>)
    requires subjects != [] && forall i :: 0 <= i < |subjects| ==> SafeSubject(subjects[i])
    ensures ValidSubjects(subjects) <==> Sorting.NoRepeats(subjects)
  {
    forall i, j | 0 <= i < j < |subjects| && SubjectKey(subjects[i]) == SubjectKey(subjects[j])
      ensures subjects[i] == subjects[j]
    {
      assert SafeSubject(subjects[i]) && SafeSubject(subjects[j]);
      KeysAreUnique(subjects[i], subjects[j]);
    }
  }

  lemma DigestIsNoPlaceholder(s: string)
    requires IsSha256(s)
    ensures !IsPlaceholder(s)
  {
    assert !IsSpace(s[0]) && !IsSpace(s[63]);
    StripTrimmed(s);
  }

  lemma JsonNameIsNoPlaceholder(name: string)
    requires EndsWith(name, ".json")
    ensures !IsPlaceholder(name)
  {
    var n := |name|;
    assert name[n - 5..][4] == 'n';
    assert name[n - 1] == 'n' && !IsSpace('n');
    TrimLeftShape(name);
    var t := Strip(name);
    if t == [] {
      assert false;
    }
    assert t[|t| - 1] == 'n';
  }

  lemma {:induction false} ProvenanceOfFile(statements: seq<Json>, source: Source)
    ensures FileSubjects(statements) != [] ==> FileProvenance(statements, source) != []
    ensures forall p :: p in FileProvenance(statements, source) ==>
              exists st :: st in statements && SubjectsFromStatement(st) != [] && p == ProvenanceContext(st, source)
  {
    hide SubjectsFromStatement, ProvenanceContext;
    if statements != [] {
      var front := statements[..|statements| - 1];
      ProvenanceOfFile(front, source);
      assert forall st :: st in front ==> st in statements;
    }
  }

  lemma BoundProvenanceIsValid(st: Json, source: Source, input: Input)
    requires Binds(st, source) && Collected(input) && source == input.source
    ensures ValidProvenance(ProvenanceContext(st, source), source)
  {
    hide FirstBuilder, CollectMaterials, ContainsText, IsPlaceholder;
  }

  /** One attestation file of a creatable input: it is accepted exactly if it repeats no subject. */
  lemma MaterialAcceptance(input: Input, sha: Bytes -> string, i: nat)
    requires Creatable(input, sha) && IsDigest(sha) && i < |input.attestations|
    requires EndsWith(input.attestations[i].name, ".json")
    requires forall s :: s in Verified(input.attestations) ==> SafeSubject(s)
    ensures ValidMaterial(MaterialOf(input.attestations[i], input.source, sha), input.source)
            <==> Sorting.NoRepeats(FileSubjects(FileStatements(input.attestations[i])))
  {
    hide Binds, SubjectsFromStatement, FileStatements, Attested, Verified, SafeSubject, IsPlaceholder, ValidProvenance,
         ProvenanceContext;
    var f := input.attestations[i];
    var m := MaterialOf(f, input.source, sha);
    var statements := FileStatements(f);
    var subjects := FileSubjects(statements);
    assert GoodFile(f, input.source);
    JsonNameIsNoPlaceholder(f.name);
    DigestIsNoPlaceholder(sha(f.bytes));
    ProvenanceOfFile(statements, input.source);
    assert forall k :: 0 <= k < |m.provenance| ==> ValidProvenance(m.provenance[k], input.source) by {
      forall k | 0 <= k < |m.provenance|
        ensures ValidProvenance(m.provenance[k], input.source)
      {
        assert m.provenance[k] in m.provenance;
        var st :| st in statements && SubjectsFromStatement(st) != [] && m.provenance[k] == ProvenanceContext(st, input.source);
        BoundProvenanceIsValid(st, input.source, input);
      }
    }
    MinimalSame(subjects);
    VerifiedSubjects(input.attestations);
    forall k | 0 <= k < |m.subjects|
      ensures SafeSubject(m.subjects[k])
    {
      assert m.subjects[k] in SubjectSet(m.subjects);
      assert NamedIn(input.attestations, m.subjects[k]);
    }
    ValidSubjectsMeansNoRepeats(m.subjects);
  }

  lemma {:induction false} AttestedOnce(release: seq<File>, sha: Bytes -> string)
    requires IsListing(release)
    ensures Sorting.NoRepeats(SubjectsOfEntries(Attested(release, sha)))
  {
    hide IsAttested;
    if release != [] {
      var front := release[..|release| - 1];
      AttestedOnce(front, sha);
      AttestedEntries(front, sha);
      forall k | 0 <= k < |Attested(front, sha)|
        ensures Attested(front, sha)[k].subject.name != release[|release| - 1].name
      {
        assert Attested(front, sha)[k] in Attested(front, sha);
      }
    }
  }

  /** All attested subjects are safe and non-empty exactly if no such name is a placeholder and no such file empty. */
  lemma SafeEntries(release: seq<File>, sha: Bytes -> string)
    requires IsListing(release) && IsDigest(sha)
    ensures (forall e :: e in Attested(release, sha) ==> SafeSubject(e.subject) && e.bytes > 0)
            <==> (forall i :: 0 <= i < |release| && IsAttested(release[i].name) ==>
                    !IsPlaceholder(release[i].name) && release[i].bytes != [])
  {
    AttestedEntries(release, sha);
    hide IsAttested, IsPlaceholder, IsSha256, Attested;
    forall i | 0 <= i < |release| && IsAttested(release[i].name)
      ensures var e := Entry(Subject(release[i].name, sha(release[i].bytes)), |release[i].bytes|);
              && e in Attested(release, sha)
              && (SafeSubject(e.subject) && e.bytes > 0 <==> !IsPlaceholder(release[i].name) && release[i].bytes != [])
    {
      PosixPath.NameOfPart(release[i].name);
    }
  }

  ghost predicate AllSafe(subjects: set<Subject>) {
    forall s :: s in subjects ==> SafeSubject(s)
  }

  lemma AllSafeList(subjects: seq<Subject>)
    ensures AllSafe(SubjectSet(subjects)) <==> forall i :: 0 <= i < |subjects| ==> SafeSubject(subjects[i])
    ensures AllSafe(SubjectSet(subjects)) <==> forall s :: s in subjects ==> SafeSubject(s)
  {
    hide SafeSubject;
    assert forall i :: 0 <= i < |subjects| ==> subjects[i] in SubjectSet(subjects);
  }

  lemma AllSafeEntries(entries: seq<Entry>)
    ensures AllSafe(EntrySet(entries)) <==> forall i :: 0 <= i < |entries| ==> SafeSubject(SubjectsOfEntries(entries)[i])
    ensures AllSafe(EntrySet(entries)) <==> forall e :: e in entries ==> SafeSubject(e.subject)
  {
    hide SafeSubject;
    assert forall e :: e in entries ==> e.subject in EntrySet(entries);
    assert forall i :: 0 <= i < |entries| ==> entries[i] in entries;
    var subjects := SubjectsOfEntries(entries);
    if forall i :: 0 <= i < |entries| ==> SafeSubject(subjects[i]) {
      forall e | e in entries
        ensures SafeSubject(e.subject)
      {
        var i :| 0 <= i < |entries| && entries[i] == e;
        assert SafeSubject(subjects[i]);
      }
    }
  }

  /** The verdict on a created record: accepted exactly under the side conditions. */
  lemma ValidatorAgrees(input: Input, sha: Bytes -> string)
    requires Creatable(input, sha) && IsDigest(sha) && IsListing(input.release)
    requires forall i :: 0 <= i < |input.attestations| ==> EndsWith(input.attestations[i].name, ".json")
    ensures Accepted(RecordOf(input, sha)) <==> Acceptable(input)
  {
    hide IsAttested, IsPlaceholder, FileSubjects, FileStatements, ValidMaterial, MaterialOf, SafeSubject, Attested,
         Verified, GoodFile, Sorting.NoRepeats, AllSafe;
    var r := RecordOf(input, sha);
    var verified := Verified(input.attestations);
    var subjects := SubjectsOfEntries(r.subjects);
    DigestIsNoPlaceholder(sha(input.log.bytes));
    SafeEntries(input.release, sha);
    AttestedOnce(input.release, sha);
    VerifiedSubjects(input.attestations);
    MinimalSame(verified);
    assert r.subjects[0].subject in EntrySet(r.subjects);
    AllSafeList(verified);
    AllSafeList(r.verified);
    AllSafeEntries(r.subjects);
    if AllSafe(SubjectSet(verified)) {
      forall i | 0 <= i < |input.attestations| {
        MaterialAcceptance(input, sha, i);
      }
      ValidSubjectsMeansNoRepeats(subjects);
      ValidSubjectsMeansNoRepeats(r.verified);
    }
  }
}

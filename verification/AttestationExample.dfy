/** A release of one file with one attestation, on which the attestation record's producer and validator can be compared. */
module AttestationExample {
  import opened PyText
  import opened Hashing
  import opened Json
  import opened AttestationRecord
  import AttestationAgreement
  import AttestationMeaning
  import JsonText
  import PosixPath
  import Sorting
  import Statements

  const SOURCE := Source("b", "b", "b", "b", "b", "b")

  /** A predicate with a builder and a material, in which the texts of `SOURCE` occur. */
  const PREDICATE: Json :=
    Obj([Member("builder", Obj([Member("id", Json.Str("b"))])), Member("materials", Arr([Obj([Member("uri", Json.Str("b"))])]))])

  function SubjectJson(digest: string): Json {
    Obj([Member("name", Json.Str("e")), Member("digest", Obj([Member("sha256", Json.Str(digest))]))])
  }

  /** The statement about a file `e`. */
  function Statement(digest: string): Json {
    Obj([Member("predicateType", Json.Str(SLSA)), Member("subject", Arr([SubjectJson(digest)])), Member("predicate", PREDICATE)])
  }

  function Payload(digest: string, twice: bool): Json {
    if twice then Arr([Statement(digest), Statement(digest)]) else Statement(digest)
  }

  lemma OneIsValid(m: Member)
    requires JsonText.Valid(m.value)
    ensures JsonText.Valid(Obj([m])) && JsonText.ValidFields([m]) && JsonText.Valid(Arr([m.value]))
  {
    assert [m][1..] == [] && JsonText.ValidFields([m]);
    assert [m.value][1..] == [] && JsonText.ValidItems([m.value]);
  }

  lemma TextIsValid(s: string)
    ensures JsonText.Valid(Json.Str(s))
  {
  }

  lemma PredicateIsValid()
    ensures JsonText.Valid(PREDICATE)
  {
    hide JsonText.Valid;
    TextIsValid("b");
    OneIsValid(Member("id", Json.Str("b")));
    OneIsValid(Member("uri", Json.Str("b")));
    OneIsValid(Member("", Obj([Member("uri", Json.Str("b"))])));
    assert |"builder"| == 7 && |"materials"| == 9;
    JsonText.FieldsAreValid(PREDICATE.fields);
  }

  lemma SubjectIsValid(digest: string)
    ensures JsonText.Valid(SubjectJson(digest))
  {
    hide JsonText.Valid;
    TextIsValid("e");
    TextIsValid(digest);
    OneIsValid(Member("sha256", Json.Str(digest)));
    assert |"name"| == 4 && |"digest"| == 6;
    JsonText.FieldsAreValid(SubjectJson(digest).fields);
  }

  lemma StatementIsValid(digest: string)
    ensures JsonText.Valid(Statement(digest))
  {
    hide JsonText.Valid, PREDICATE, SubjectJson, SLSA;
    PredicateIsValid();
    SubjectIsValid(digest);
    TextIsValid(SLSA);
    OneIsValid(Member("", SubjectJson(digest)));
    assert |"predicateType"| == 13 && |"subject"| == 7 && |"predicate"| == 9;
    JsonText.FieldsAreValid(Statement(digest).fields);
  }

  lemma PayloadIsValid(digest: string, twice: bool)
    ensures JsonText.Valid(Payload(digest, twice))
  {
    StatementIsValid(digest);
    PairIsValid(Statement(digest));
  }

  lemma PairIsValid(v: Json)
    requires JsonText.Valid(v)
    ensures JsonText.Valid(Arr([v, v]))
  {
    assert [v, v][1..] == [v] && [v][1..] == [];
    assert JsonText.ValidItems([v]) && JsonText.ValidItems([v, v]);
  }

  function Encoded(digest: string, twice: bool): Bytes {
    PayloadIsValid(digest, twice);
    JsonFile(Payload(digest, twice))
  }

  /** The release's one file, whether its attestation names it twice, and the record's time stamp. */
  function Example(bytes: Bytes, twice: bool, at: string, sha: Bytes -> string): Input {
    Input([File("e", bytes)], [File("a.json", Encoded(sha(bytes), twice))], File("l", [0]), "b", "b", SOURCE, at)
  }

  // ---------------------------------------------------------------- what the attestation file says

  lemma PayloadIsRead(digest: string, twice: bool)
    ensures ReadJson(Encoded(digest, twice)) == Some(Payload(digest, twice)) && Encoded(digest, twice) != []
  {
    PayloadIsValid(digest, twice);
    hide ReadJson, Payload, JsonFile, JsonText.Valid;
  }

  /** No key of a statement. */
  predicate Foreign(key: string) {
    |key| != 13 && (|key| == 7 ==> key[0] != 's') && (|key| == 9 ==> key[0] != 'p')
  }

  lemma ForeignIsMissing(digest: string, key: string)
    requires Foreign(key)
    ensures Get(Statement(digest).fields, key) == None
  {
    hide Get, SubjectJson, PREDICATE;
    var fields := Statement(digest).fields;
    assert |"predicateType"| == 13 && |"subject"| == 7 && |"predicate"| == 9 && "subject"[0] == 's' && "predicate"[0] == 'p';
    GetNowhere(fields, key);
  }

  lemma {:induction false} NoPayloads(digest: string, keys: seq<string>)
    requires forall i :: 0 <= i < |keys| ==> Foreign(keys[i])
    ensures Statements.WalkPayloads(Statement(digest).fields, keys) == []
    decreases |keys|
  {
    hide Get, Foreign, Statement, Statements.Walk, Statements.DecodePayload;
    if keys != [] {
      ForeignIsMissing(digest, keys[0]);
      NoPayloads(digest, keys[1..]);
    }
  }

  lemma {:induction false} NoWrappers(digest: string, keys: seq<string>)
    requires forall i :: 0 <= i < |keys| ==> Foreign(keys[i])
    ensures Statements.WalkWrappers(Statement(digest).fields, keys) == []
    decreases |keys|
  {
    hide Get, Foreign, Statement, Statements.Walk;
    if keys != [] {
      ForeignIsMissing(digest, keys[0]);
      NoWrappers(digest, keys[1..]);
    }
  }

  lemma KeysAreForeign()
    ensures forall i :: 0 <= i < |Statements.PayloadKeys()| ==> Foreign(Statements.PayloadKeys()[i])
    ensures forall i :: 0 <= i < |Statements.WrapperKeys()| ==> Foreign(Statements.WrapperKeys()[i])
  {
  }

  lemma StatementFields(digest: string)
    ensures var v := Statement(digest);
            && TextAt(v, "predicateType") == Some(SLSA) && Field(v, "subject") == Some(Arr([SubjectJson(digest)]))
            && Field(v, "predicate") == Some(PREDICATE)
  {
    hide Get, SubjectJson, PREDICATE, SLSA;
    var fields := Statement(digest).fields;
    assert |"predicateType"| == 13 && |"subject"| == 7 && |"predicate"| == 9;
    GetAt(fields, "predicateType", 0);
    GetAt(fields, "subject", 1);
    GetAt(fields, "predicate", 2);
  }

  lemma WalkOfStatement(digest: string)
    ensures Statements.Walk(Statement(digest)) == [Statement(digest)]
  {
    KeysAreForeign();
    StatementFields(digest);
    hide Get, Foreign, Statements.Walk, Statements.PayloadKeys, Statements.WrapperKeys, SubjectJson, PREDICATE, SLSA;
    NoPayloads(digest, Statements.PayloadKeys());
    NoWrappers(digest, Statements.WrapperKeys());
    Statements.WalkCases(Statement(digest));
  }

  lemma WalkOfPayload(digest: string, twice: bool)
    ensures Statements.Walk(Payload(digest, twice)) == if twice then [Statement(digest), Statement(digest)] else [Statement(digest)]
  {
    WalkOfStatement(digest);
    Statements.WalkCases(Payload(digest, twice));
    hide Statements.Walk, Statement;
    if twice {
      var pair := [Statement(digest), Statement(digest)];
      assert pair[1..] == [Statement(digest)] && pair[1..][1..] == [];
      assert Statements.WalkItems(pair) == [Statement(digest)] + ([Statement(digest)] + Statements.WalkItems([]));
    }
  }

  /** Lower-case digests stay as they are. */
  lemma {:induction false} LowerIsSame(s: string)
    requires forall i :: 0 <= i < |s| ==> IsDigit(s[i]) || 'a' <= s[i] <= 'f'
    ensures Lower(s) == s
  {
    if s != [] {
      LowerIsSame(s[1..]);
      assert s == [s[0]] + s[1..];
    }
  }

  lemma SubjectOfStatement(digest: string)
    requires IsSha256(digest)
    ensures SubjectsFromStatement(Statement(digest)) == [Subject("e", digest)]
  {
    StatementFields(digest);
    SubjectRead(digest);
    hide Field, Statement, SubjectJson, SubjectOf;
    var items := [SubjectJson(digest)];
    assert items[..0] == [] && SubjectsOf([]) == [];
    assert SubjectsOf(items) == SubjectsOf(items[..0]) + [Subject("e", digest)];
  }

  lemma SubjectRead(digest: string)
    requires IsSha256(digest)
    ensures SubjectOf(SubjectJson(digest)) == Some(Subject("e", digest))
  {
    hide Get, PosixPath.Name, Lower;
    var fields, inner := SubjectJson(digest).fields, [Member("sha256", Json.Str(digest))];
    assert |"name"| == 4 && |"digest"| == 6;
    GetAt(fields, "name", 0);
    GetAt(fields, "digest", 1);
    GetAt(inner, "sha256", 0);
    PosixPath.NameOfPart("e");
    LowerIsSame(digest);
  }

  // ---------------------------------------------------------------- the statement binds the source

  lemma PredicateFields()
    ensures Field(PREDICATE, "builder") == Some(Obj([Member("id", Json.Str("b"))]))
    ensures Field(PREDICATE, "materials") == Some(Arr([Obj([Member("uri", Json.Str("b"))])]))
  {
    hide Get;
    assert |"builder"| == 7 && |"materials"| == 9;
    GetAt(PREDICATE.fields, "builder", 0);
    GetAt(PREDICATE.fields, "materials", 1);
  }

  lemma BuilderIsFound()
    ensures FirstBuilder(WalkValues(PREDICATE)) == Some("b") && !IsPlaceholder("b")
  {
    PredicateFields();
    var values := WalkValues(PREDICATE);
    assert values[0] == PREDICATE;
    hide WalkValues, Get, PREDICATE;
    GetAt([Member("id", Json.Str("b"))], "id", 0);
    assert Strip("b") == "b";
  }

  lemma MaterialIsKept(digest: string)
    ensures CollectMaterials(Statement(digest)) != []
  {
    StatementFields(digest);
    PredicateFields();
    var values := WalkValues(PREDICATE);
    assert values[0] == PREDICATE;
    MaterialEntryOfUri();
    hide WalkValues, Field, PREDICATE, MaterialEntry, Statement, CanonicalText, Unique;
    var items := [Obj([Member("uri", Json.Str("b"))])];
    assert EntriesOf(items) != [];
    assert AllMaterials(values) != [];
    Sorting.SortPermutes(Unique(AllMaterials(values)), (a: Json, b: Json) => Less(CanonicalText(a), CanonicalText(b)));
    assert |multiset(Unique(AllMaterials(values)))| > 0;
  }

  lemma MaterialEntryOfUri()
    ensures MaterialEntry(Obj([Member("uri", Json.Str("b"))])).Some?
  {
    hide Get;
    GetAt([Member("uri", Json.Str("b"))], "uri", 0);
  }

  lemma {:induction false} KeyShows(fields: seq<Member>, c: char, i: nat)
    requires i < |fields| && c in JsonText.PrintString(fields[i].key)
    ensures c in JsonText.DumpFields(fields)
    decreases |fields|
  {
    hide JsonText.Dumps, JsonText.PrintString;
    if i > 0 {
      KeyShows(fields[1..], c, i - 1);
    }
  }

  lemma FirstSorted(fields: seq<Member>)
    requires fields != []
    ensures SortFields(fields) != [] && SortFields(fields)[0].key == fields[0].key
  {
    hide SortKeys;
  }

  lemma {:induction false} LetterOccurs(text: string, c: char)
    requires c in text
    ensures Contains(text, [c])
  {
    var k :| 0 <= k < |text| && text[k] == c;
    assert OccursAt(text, [c], k);
  }

  lemma KeyOccurs(fields: seq<Member>, c: char)
    requires fields != [] && c in JsonText.PrintString(fields[0].key)
    ensures c in CanonicalText(Obj(fields))
  {
    hide SortKeys, JsonText.PrintString, JsonText.DumpFields, SortFields;
    var before := ByKey;
    var plain := SortFields(fields);
    var sorted := Sorting.Sort(plain, before);
    FirstSorted(fields);
    Sorting.SortPermutes(plain, before);
    assert plain[0] in multiset(sorted);
    var i :| 0 <= i < |sorted| && sorted[i] == plain[0];
    KeyShows(sorted, c, i);
    SortedObject(fields, sorted);
  }

  lemma SortedObject(fields: seq<Member>, sorted: seq<Member>)
    requires sorted == Sorting.Sort(SortFields(fields), ByKey)
    ensures CanonicalText(Obj(fields)) == "{" + JsonText.DumpFields(sorted) + "}"
  {
    hide JsonText.DumpFields, Sorting.Sort, SortFields;
  }

  lemma WordOccurs()
    ensures Contains(CanonicalText(PREDICATE), "b")
  {
    hide CanonicalText, JsonText.PrintString;
    LetterShows();
    KeyOccurs(PREDICATE.fields, 'b');
    LetterOccurs(CanonicalText(PREDICATE), 'b');
  }

  lemma LetterShows()
    ensures 'b' in JsonText.PrintString("builder")
  {
    assert "builder"[0] == 'b';
    assert JsonText.PrintBody("builder")[0] == 'b';
    assert JsonText.PrintString("builder")[1] == 'b';
  }

  lemma StatementBinds(digest: string)
    ensures Binds(Statement(digest), SOURCE)
  {
    StatementFields(digest);
    BuilderIsFound();
    MaterialIsKept(digest);
    WordOccurs();
    hide Field, WalkValues, FirstBuilder, CollectMaterials, CanonicalText, PREDICATE, Statement, SLSA, Contains,
         IsPlaceholder;
  }

  // ---------------------------------------------------------------- the verdicts

  lemma SubjectsOfList(st: Json, s: Subject, twice: bool)
    requires SubjectsFromStatement(st) == [s]
    ensures FileSubjects(if twice then [st, st] else [st]) == if twice then [s, s] else [s]
  {
    hide SubjectsFromStatement;
    assert [st][..0] == [] && FileSubjects([]) == [];
    assert FileSubjects([st]) == FileSubjects([st][..0]) + [s];
    assert [st, st][..1] == [st];
    assert FileSubjects([st, st]) == FileSubjects([st]) + [s];
  }

  lemma StatementsOfFile(digest: string, twice: bool)
    ensures FileStatements(File("a.json", Encoded(digest, twice))) == if twice then [Statement(digest), Statement(digest)] else [Statement(digest)]
  {
    hide Statements.Walk, ReadJson, Encoded, Statement, Payload;
    PayloadIsRead(digest, twice);
    WalkOfPayload(digest, twice);
  }

  lemma SubjectsOfFile(digest: string, twice: bool)
    requires IsSha256(digest)
    ensures var f := File("a.json", Encoded(digest, twice)); var s := Subject("e", digest);
            GoodFile(f, SOURCE) && FileSubjects(FileStatements(f)) == if twice then [s, s] else [s]
  {
    hide FileStatements, FileSubjects, ReadJson, Encoded, Statement, SubjectsFromStatement, Binds, Payload, SOURCE,
         IsSha256;
    PayloadIsRead(digest, twice);
    StatementsOfFile(digest, twice);
    SubjectOfStatement(digest);
    StatementBinds(digest);
    SubjectsOfList(Statement(digest), Subject("e", digest), twice);
  }

  lemma VerifiedIs(bytes: Bytes, twice: bool, at: string, sha: Bytes -> string)
    requires IsSha256(sha(bytes))
    ensures SubjectSet(Verified(Example(bytes, twice, at, sha).attestations)) == {Subject("e", sha(bytes))}
  {
    hide Encoded, FileSubjects, FileStatements, Verified, GoodFile, IsSha256, SOURCE;
    SubjectsOfFile(sha(bytes), twice);
    var files := Example(bytes, twice, at, sha).attestations;
    VerifiedSubjects(files);
    var s := Subject("e", sha(bytes));
    assert s in FileSubjects(FileStatements(files[0]));
    assert NamedIn(files, s);
    forall x | x in Verified(files)
      ensures x == s
    {
      assert NamedIn(files, x);
    }
  }

  lemma AttestedIs(bytes: Bytes, sha: Bytes -> string)
    ensures IsAttested("e") && Attested([File("e", bytes)], sha) == [Entry(Subject("e", sha(bytes)), |bytes|)]
  {
    var files := [File("e", bytes)];
    assert |"machine-verification"| > 1 && |".sig"| > 1 && |".cert"| > 1;
    assert IsAttested("e");
    assert files[..0] == [] && Attested([], sha) == [];
    hide IsAttested;
    assert Attested(files, sha) == Attested(files[..0], sha) + [Entry(Subject("e", sha(bytes)), |bytes|)];
  }

  lemma WordsAreCollected()
    ensures !IsPlaceholder("b") && !IsPlaceholder("l") && !IsPlaceholder("e")
  {
    assert Strip("b") == "b" && Strip("l") == "l" && Strip("e") == "e";
  }

  lemma EntrySetOfOne(e: Entry)
    ensures EntrySet([e]) == {e.subject}
  {
    assert [e][0] in [e];
  }

  lemma SourceIsCollected(bytes: Bytes, twice: bool, at: string, sha: Bytes -> string)
    ensures Collected(Example(bytes, twice, at, sha))
  {
    hide IsPlaceholder, Encoded;
    WordsAreCollected();
  }

  lemma DigestIsSha256(bytes: Bytes, sha: Bytes -> string)
    requires IsDigest(sha)
    ensures IsSha256(sha(bytes))
  {
    assert IsRealSha256(sha(bytes));
  }

  lemma ExampleIsCreatable(bytes: Bytes, twice: bool, at: string, sha: Bytes -> string)
    requires IsDigest(sha)
    ensures Creatable(Example(bytes, twice, at, sha), sha)
  {
    hide Encoded, Attested, Verified, GoodFile, Collected, IsDigest, IsSha256, SOURCE, EntrySet, SubjectSet, IsAttested,
         FileSubjects, FileStatements;
    DigestIsSha256(bytes, sha);
    AttestedIs(bytes, sha);
    SourceIsCollected(bytes, twice, at, sha);
    SubjectsOfFile(sha(bytes), twice);
    VerifiedIs(bytes, twice, at, sha);
    EntrySetOfOne(Entry(Subject("e", sha(bytes)), |bytes|));
  }

  lemma RepeatsIfTwice(digest: string, twice: bool)
    ensures var s := Subject("e", digest); Sorting.NoRepeats(if twice then [s, s] else [s]) <==> !twice
  {
    var s := Subject("e", digest);
    if twice {
      assert [s, s][0] == [s, s][1];
    }
  }

  lemma ExampleIsAcceptable(bytes: Bytes, twice: bool, at: string, sha: Bytes -> string)
    requires IsDigest(sha)
    ensures AttestationAgreement.Acceptable(Example(bytes, twice, at, sha)) <==> bytes != [] && !twice && !IsPlaceholder(at)
  {
    hide IsPlaceholder, Encoded, IsAttested, FileSubjects, FileStatements, GoodFile, IsDigest, IsSha256, SOURCE,
         Sorting.NoRepeats;
    DigestIsSha256(bytes, sha);
    WordsAreCollected();
    AttestedIs(bytes, sha);
    SubjectsOfFile(sha(bytes), twice);
    RepeatsIfTwice(sha(bytes), twice);
    var input := Example(bytes, twice, at, sha);
    assert input.release[0] == File("e", bytes);
    assert input.attestations[0] == File("a.json", Encoded(sha(bytes), twice));
  }

  /** The producer makes a record of the example in any case; the validator takes it exactly if the release's file is not
      empty, its attestation does not name it twice, and the time stamp is no placeholder. */
  lemma VerdictOnExample(bytes: Bytes, twice: bool, at: string, sha: Bytes -> string)
    requires IsDigest(sha)
    ensures var input := Example(bytes, twice, at, sha);
            && Creatable(input, sha)
            && (Accepted(RecordOf(input, sha)) <==> bytes != [] && !twice && !IsPlaceholder(at))
  {
    hide IsDigest, Creatable, Accepted, RecordOf, IsPlaceholder, Encoded, AttestationAgreement.Acceptable, SOURCE;
    ExampleIsCreatable(bytes, twice, at, sha);
    ExampleIsAcceptable(bytes, twice, at, sha);
    ExampleIsListed();
    AttestationAgreement.ValidatorAgrees(Example(bytes, twice, at, sha), sha);
  }

  lemma ExampleIsListed()
    ensures PosixPath.IsPart("e") && EndsWith("a.json", ".json")
  {
    assert "a.json"[1..] == ".json";
  }

  // ---------------------------------------------------------------- the same release under another source

  /** The five texts that the example's predicate must show. */
  ghost predicate ShownBy(text: string, source: Source) {
    && source.repository != "" && source.ref != "" && source.runId != "" && source.runAttempt != "" && source.sourceSha != ""
    && AttestationMeaning.Occurs(text, source.repository) && AttestationMeaning.Occurs(text, source.ref)
    && AttestationMeaning.Occurs(text, source.runId) && AttestationMeaning.Occurs(text, source.runAttempt)
    && AttestationMeaning.Occurs(text, source.sourceSha)
  }

  lemma BindsWhatItShows(digest: string, source: Source)
    ensures Binds(Statement(digest), source) <==> ShownBy(CanonicalText(PREDICATE), source)
  {
    hide Get, WalkValues, FirstBuilder, CollectMaterials, CanonicalText, PREDICATE, Statement, SLSA, Contains, IsPlaceholder,
         AttestationMeaning.Occurs;
    StatementFields(digest);
    BuilderIsFound();
    MaterialIsKept(digest);
    AttestationMeaning.ContainsMeans(CanonicalText(PREDICATE), source.repository);
    AttestationMeaning.ContainsMeans(CanonicalText(PREDICATE), source.ref);
    AttestationMeaning.ContainsMeans(CanonicalText(PREDICATE), source.runId);
    AttestationMeaning.ContainsMeans(CanonicalText(PREDICATE), source.runAttempt);
    AttestationMeaning.ContainsMeans(CanonicalText(PREDICATE), source.sourceSha);
  }

  lemma FileIsGoodIf(digest: string, twice: bool, source: Source)
    requires IsSha256(digest)
    ensures GoodFile(File("a.json", Encoded(digest, twice)), source) <==> Binds(Statement(digest), source)
  {
    hide FileStatements, FileSubjects, ReadJson, Encoded, Statement, SubjectsFromStatement, Binds, Payload, SOURCE, IsSha256;
    PayloadIsRead(digest, twice);
    StatementsOfFile(digest, twice);
    SubjectOfStatement(digest);
    SubjectsOfList(Statement(digest), Subject("e", digest), twice);
    var list := if twice then [Statement(digest), Statement(digest)] else [Statement(digest)];
    assert list[0] == Statement(digest);
    assert forall s :: s in list ==> s == Statement(digest);
  }

  /** An attestation of the same bytes serves another source exactly if that source's fields are collected and its repository,
      ref, run, attempt and commit all occur in the statement's predicate. */
  lemma SourceDecides(bytes: Bytes, twice: bool, at: string, sha: Bytes -> string, source: Source)
    requires IsDigest(sha)
    ensures var input := Example(bytes, twice, at, sha).(source := source);
            Creatable(input, sha) <==> Collected(input) && ShownBy(CanonicalText(PREDICATE), source)
  {
    hide Encoded, Attested, Verified, GoodFile, Collected, IsDigest, IsSha256, SOURCE, EntrySet, SubjectSet, IsAttested,
         FileSubjects, FileStatements, Binds, Statement, ShownBy, CanonicalText;
    DigestIsSha256(bytes, sha);
    ExampleIsCreatable(bytes, twice, at, sha);
    FileIsGoodIf(sha(bytes), twice, source);
    BindsWhatItShows(sha(bytes), source);
    var input := Example(bytes, twice, at, sha).(source := source);
    var f := File("a.json", Encoded(sha(bytes), twice));
    assert input.attestations == [f] && input.attestations[0] == f;
    assert (forall i :: 0 <= i < |input.attestations| ==> GoodFile(input.attestations[i], source)) <==> GoodFile(f, source);
  }

  /** A run that the predicate does not show: no record is made. */
  lemma OtherRunIsRefused(bytes: Bytes, twice: bool, at: string, sha: Bytes -> string)
    requires IsDigest(sha)
    ensures var run := CanonicalText(PREDICATE) + "b";
            !Creatable(Example(bytes, twice, at, sha).(source := SOURCE.(runId := run)), sha)
  {
    hide Creatable, IsDigest, Collected, CanonicalText, PREDICATE, Encoded;
    var text := CanonicalText(PREDICATE);
    SourceDecides(bytes, twice, at, sha, SOURCE.(runId := text + "b"));
    forall a, b
      ensures text != a + (text + "b") + b
    {
      assert |a + (text + "b") + b| > |text|;
    }
  }
}

/** What a created attestation record says about the texts it was made from. */
module AttestationMeaning {
  import opened PyText
  import opened Hashing
  import opened Json
  import opened AttestationRecord
  import AttestationAgreement
  import PosixPath
  import Sorting
  import Statements

  // ---------------------------------------------------------------- values inside values

  /** `x` is `v` or lies somewhere inside it. */
  ghost predicate Within(v: Json, x: Json)
    decreases v
  {
    || x == v
    || (v.Arr? && exists i :: 0 <= i < |v.items| && Within(v.items[i], x))
    || (v.Obj? && exists i :: 0 <= i < |v.fields| && Within(v.fields[i].value, x))
  }

  lemma {:induction false} WalkedAre(v: Json, x: Json)
    ensures x in WalkValues(v) <==> Within(v, x)
    decreases v, 0
  {
    match v
    case Arr(items) => WalkedItemsAre(items, x);
    case Obj(fields) => WalkedFieldsAre(fields, x);
    case _ =>
  }

  lemma {:induction false} WalkedItemsAre(items: seq<Json>, x: Json)
    ensures x in WalkAll(items) <==> exists i :: 0 <= i < |items| && Within(items[i], x)
    decreases items, 1
  {
    hide Within, WalkValues;
    if items != [] {
      WalkedAre(items[0], x);
      WalkedItemsAre(items[1..], x);
      assert forall i :: 1 <= i < |items| ==> items[i] == items[1..][i - 1];
      if exists i :: 0 <= i < |items[1..]| && Within(items[1..][i], x) {
        var i :| 0 <= i < |items[1..]| && Within(items[1..][i], x);
        assert items[i + 1] == items[1..][i];
      }
    }
  }

  lemma {:induction false} WalkedFieldsAre(fields: seq<Member>, x: Json)
    ensures x in WalkFields(fields) <==> exists i :: 0 <= i < |fields| && Within(fields[i].value, x)
    decreases fields, 1
  {
    hide Within, WalkValues;
    if fields != [] {
      WalkedAre(fields[0].value, x);
      WalkedFieldsAre(fields[1..], x);
      assert forall i :: 1 <= i < |fields| ==> fields[i] == fields[1..][i - 1];
      if exists i :: 0 <= i < |fields[1..]| && Within(fields[1..][i].value, x) {
        var i :| 0 <= i < |fields[1..]| && Within(fields[1..][i].value, x);
        assert fields[i + 1] == fields[1..][i];
      }
    }
  }

  // ---------------------------------------------------------------- builder and materials

  /** The value names a builder whose id is more than white space. */
  predicate NamesBuilder(x: Json, id: string) {
    Field(x, "builder").Some? && TextAt(Field(x, "builder").value, "id") == Some(id) && Strip(id) != []
  }

  lemma {:induction false} BuilderMeans(values: seq<Json>)
    ensures FirstBuilder(values).None? ==> forall x, id :: x in values ==> !NamesBuilder(x, id)
    ensures FirstBuilder(values).Some? ==> exists x :: x in values && NamesBuilder(x, FirstBuilder(values).value)
  {
    hide Strip, Get;
    if values != [] {
      BuilderMeans(values[1..]);
      var x := values[0];
      var builder := Field(x, "builder");
      var id := if builder.Some? then TextAt(builder.value, "id") else None;
      if id.Some? && Strip(id.value) != [] {
        assert NamesBuilder(x, id.value);
        assert FirstBuilder(values) == id;
      } else {
        assert FirstBuilder(values) == FirstBuilder(values[1..]);
        assert forall t :: !NamesBuilder(x, t);
        assert forall y :: y in values ==> y == x || y in values[1..];
      }
    }
  }

  // ---------------------------------------------------------------- texts

  /** The text occurs. */
  ghost predicate Occurs(text: string, part: string) {
    exists a, b :: text == a + part + b
  }

  lemma ContainsMeans(text: string, part: string)
    ensures Contains(text, part) <==> Occurs(text, part)
  {
    if Contains(text, part) {
      var i :| 0 <= i <= |text| && OccursAt(text, part, i);
      assert text == text[..i] + part + text[i + |part|..];
    }
    forall a, b | text == a + part + b
      ensures Contains(text, part)
    {
      assert OccursAt(text, part, |a|);
    }
  }

  /** The predicate's JSON text, keys sorted; null for a statement without one. */
  function PredicateText(statement: Json): string {
    CanonicalText(if Field(statement, "predicate").Some? then Field(statement, "predicate").value else Null)
  }

  ghost predicate SaysText(statement: Json, text: string) {
    text != "" && Occurs(PredicateText(statement), text)
  }

  /** What is demanded of a statement, in the words of the statement. */
  ghost predicate Vouched(statement: Json, source: Source) {
    var p := Field(statement, "predicate");
    && TextAt(statement, "predicateType") == Some("https://slsa.dev/provenance/v1")
    && p.Some? && (exists x, id :: Within(p.value, x) && NamesBuilder(x, id))
    && SaysText(statement, source.repository) && SaysText(statement, source.ref) && SaysText(statement, source.runId)
    && SaysText(statement, source.runAttempt) && SaysText(statement, source.sourceSha)
  }

  lemma TextMeans(statement: Json, text: string)
    ensures ContainsText(Field(statement, "predicate"), text) <==> SaysText(statement, text)
  {
    hide Field, CanonicalText, Contains, Occurs;
    ContainsMeans(PredicateText(statement), text);
  }

  lemma BuilderIsNamed(statement: Json)
    ensures var p := Field(statement, "predicate");
            FirstBuilder(WalkValues(if p.Some? then p.value else Null)).Some? <==>
            p.Some? && exists x, id :: Within(p.value, x) && NamesBuilder(x, id)
  {
    hide Get, Within, WalkValues, NamesBuilder, FirstBuilder;
    var p := Field(statement, "predicate");
    var v := if p.Some? then p.value else Null;
    BuilderMeans(WalkValues(v));
    NullNamesNobody();
    forall x {
      WalkedAre(v, x);
    }
  }

  lemma NullNamesNobody()
    ensures forall x, id :: x in WalkValues(Null) ==> !NamesBuilder(x, id)
  {
    assert WalkValues(Null) == [Null];
  }

  lemma BindsMeans(statement: Json, source: Source)
    requires Binds(statement, source)
    ensures Vouched(statement, source)
  {
    hide Get, Within, WalkValues, NamesBuilder, FirstBuilder, ContainsText, SaysText, CollectMaterials;
    BuilderIsNamed(statement);
    TextMeans(statement, source.repository);
    TextMeans(statement, source.ref);
    TextMeans(statement, source.runId);
    TextMeans(statement, source.runAttempt);
    TextMeans(statement, source.sourceSha);
  }

  // ---------------------------------------------------------------- subjects

  /** The text in small letters: capitals, which are the characters 65 to 90, move up by 32. */
  predicate LowersTo(text: string, small: string) {
    && |text| == |small|
    && forall i :: 0 <= i < |text| ==> small[i] as int == text[i] as int + if 65 <= text[i] as int <= 90 then 32 else 0
  }

  lemma {:induction false} LowerMeans(text: string, small: string)
    ensures Lower(text) == small <==> LowersTo(text, small)
  {
    if text != [] && small != [] {
      LowerMeans(text[1..], small[1..]);
      assert small == [small[0]] + small[1..];
      assert LowersTo(text, small) <==>
             LowersTo(text[1..], small[1..]) && small[0] as int == text[0] as int + if 65 <= text[0] as int <= 90 then 32 else 0 by {
        assert forall i :: 1 <= i < |text| ==> text[i] == text[1..][i - 1];
        assert forall i :: 1 <= i < |small| ==> small[i] == small[1..][i - 1];
      }
    }
  }

  /** The statement lists a subject of this name and digest; the name is the last part of a path, letters of the digest may be
      capitals. */
  predicate Lists(statement: Json, name: string, digest: string) {
    var raw := Field(statement, "subject");
    && raw.Some? && raw.value.Arr?
    && exists i :: 0 <= i < |raw.value.items| && ListsAs(raw.value.items[i], name, digest)
  }

  predicate ListsAs(item: Json, name: string, digest: string) {
    var sums := Field(item, "digest");
    && sums.Some? && TextAt(item, "name").Some? && TextAt(sums.value, "sha256").Some?
    && PosixPath.Name(TextAt(item, "name").value) == name && LowersTo(TextAt(sums.value, "sha256").value, digest)
  }

  lemma {:induction false} SubjectsMean(items: seq<Json>, name: string, digest: string)
    ensures Subject(name, digest) in SubjectsOf(items) <==> exists i :: 0 <= i < |items| && ListsAs(items[i], name, digest)
  {
    hide Get, Lower, LowersTo, PosixPath.Name, SubjectOf, ListsAs;
    if items != [] {
      var front := items[..|items| - 1];
      SubjectsMean(front, name, digest);
      assert forall i :: 0 <= i < |front| ==> front[i] == items[i];
      ItemMeans(items[|items| - 1], name, digest);
    }
  }

  lemma ItemMeans(item: Json, name: string, digest: string)
    ensures SubjectOf(item) == Some(Subject(name, digest)) <==> ListsAs(item, name, digest)
  {
    hide Get, Lower, LowersTo, PosixPath.Name;
    var sums := Field(item, "digest");
    if sums.Some? && TextAt(sums.value, "sha256").Some? {
      LowerMeans(TextAt(sums.value, "sha256").value, digest);
    }
  }

  lemma ListsMeans(statement: Json, name: string, digest: string)
    ensures Subject(name, digest) in SubjectsFromStatement(statement) <==> Lists(statement, name, digest)
  {
    hide Get, SubjectsOf, ListsAs;
    var raw := Field(statement, "subject");
    if raw.Some? && raw.value.Arr? {
      SubjectsMean(raw.value.items, name, digest);
    }
  }

  /** Does the name belong to a release file, rather than to a record of this kind or to a signature? */
  ghost predicate IsReleased(name: string) {
    && !(exists rest :: name == "machine-verification" + rest)
    && !(exists front :: name == front + ".sig") && !(exists front :: name == front + ".cert")
  }

  lemma EndMeans(name: string, end: string)
    ensures EndsWith(name, end) <==> exists front :: name == front + end
  {
    if EndsWith(name, end) {
      assert name == name[..|name| - |end|] + end;
    }
    forall front | name == front + end
      ensures EndsWith(name, end)
    {
      assert |name| - |end| == |front| && name[|front|..] == end;
    }
  }

  lemma AttestedMeans(name: string)
    ensures IsAttested(name) <==> IsReleased(name)
  {
    EndMeans(name, ".sig");
    EndMeans(name, ".cert");
    if "machine-verification" <= name {
      assert name == "machine-verification" + name[|"machine-verification"|..];
    }
  }

  // ---------------------------------------------------------------- the record

  /** The statement is found in the file by some path. */
  ghost predicate FoundIn(f: File, statement: Json) {
    && ReadJson(f.bytes).Some? && Statements.IsStatement(statement)
    && exists path :: Statements.Reaches(ReadJson(f.bytes).value, path, statement)
  }

  lemma FoundMeans(f: File, statement: Json)
    ensures statement in FileStatements(f) <==> FoundIn(f, statement)
  {
    hide ReadJson, Statements.IsStatement, Statements.Take;
    if ReadJson(f.bytes).Some? {
      var v := ReadJson(f.bytes).value;
      Statements.WalkIsReachability(v, statement);
      if FoundIn(f, statement) {
        var path :| Statements.Reaches(v, path, statement);
        Statements.WalkIsComplete(v, path, statement);
      }
    }
  }

  /** For every release file some attestation file holds a statement that lists it with its digest; and every statement that
      lists anything, wherever it is found, is of the SLSA type, names a builder, and shows repository, ref, run, attempt and
      commit in its predicate; and it lists release files only. */
  lemma CreatedRecordMeans(input: Input, sha: Bytes -> string)
    requires Creatable(input, sha)
    ensures forall f :: f in input.release && IsReleased(f.name) ==>
              exists a, st :: a in input.attestations && FoundIn(a, st) && Lists(st, f.name, sha(f.bytes))
    ensures forall a, st, name, digest :: a in input.attestations && FoundIn(a, st) && Lists(st, name, digest) ==>
              Vouched(st, input.source)
              && exists f :: f in input.release && IsReleased(f.name) && f.name == name && sha(f.bytes) == digest
  {
    hide Creatable, FoundIn, Lists, Vouched, IsReleased, FileStatements, SubjectsFromStatement, Binds, IsAttested, RecordOf;
    forall f | f in input.release && IsReleased(f.name)
      ensures exists a, st :: a in input.attestations && FoundIn(a, st) && Lists(st, f.name, sha(f.bytes))
    {
      var i :| 0 <= i < |input.release| && input.release[i] == f;
      var a, st := FileIsListed(input, sha, i);
    }
    forall a, st, name, digest | a in input.attestations && FoundIn(a, st) && Lists(st, name, digest)
      ensures Vouched(st, input.source)
              && exists f :: f in input.release && IsReleased(f.name) && f.name == name && sha(f.bytes) == digest
    {
      ListedIsFile(input, sha, a, st, name, digest);
    }
  }

  lemma FileIsListed(input: Input, sha: Bytes -> string, i: nat) returns (a: File, st: Json)
    requires Creatable(input, sha) && i < |input.release| && IsReleased(input.release[i].name)
    ensures a in input.attestations && FoundIn(a, st) && Lists(st, input.release[i].name, sha(input.release[i].bytes))
  {
    hide Creatable, FoundIn, Lists, IsReleased, FileStatements, SubjectsFromStatement, Binds, IsAttested, RecordOf;
    var f := input.release[i];
    var s := Subject(f.name, sha(f.bytes));
    AttestedMeans(f.name);
    AttestationAgreement.CreatedRecordIsSound(input, sha);
    assert AttestationAgreement.ReleaseSubject(input.release, sha, s);
    var k, found :| 0 <= k < |input.attestations| && AttestationAgreement.Vouches(input.attestations[k], found, s, input.source);
    a, st := input.attestations[k], found;
    FoundMeans(a, st);
    ListsMeans(st, f.name, sha(f.bytes));
  }

  lemma ListedIsFile(input: Input, sha: Bytes -> string, a: File, st: Json, name: string, digest: string)
    requires Creatable(input, sha) && a in input.attestations && FoundIn(a, st) && Lists(st, name, digest)
    ensures Vouched(st, input.source)
    ensures exists f :: f in input.release && IsReleased(f.name) && f.name == name && sha(f.bytes) == digest
  {
    hide FoundIn, Lists, IsReleased, FileStatements, SubjectsFromStatement, Binds, IsAttested, RecordOf, Collected, Attested, Verified,
         Vouched, GoodFile, FileSubjects;
    var k :| 0 <= k < |input.attestations| && input.attestations[k] == a;
    var s := Subject(name, digest);
    FoundMeans(a, st);
    ListsMeans(st, name, digest);
    assert GoodFile(input.attestations[k], input.source);
    StatementBinds(a, st, input.source);
    BindsMeans(st, input.source);
    SubjectOfStatement(FileStatements(a), st, s);
    VerifiedSubjects(input.attestations);
    assert NamedIn(input.attestations, s);
    AttestationAgreement.AttestedSet(input.release, sha);
    assert s in SubjectSet(Verified(input.attestations));
    var i :| 0 <= i < |input.release| && IsAttested(input.release[i].name) && s == Subject(input.release[i].name, sha(input.release[i].bytes));
    AttestedMeans(input.release[i].name);
    assert input.release[i] in input.release;
  }

  lemma StatementBinds(a: File, st: Json, source: Source)
    requires GoodFile(a, source) && st in FileStatements(a) && SubjectsFromStatement(st) != []
    ensures Binds(st, source)
  {
    hide FileStatements, SubjectsFromStatement, Binds, FileSubjects, ReadJson;
  }

  lemma {:induction false} SubjectOfStatement(statements: seq<Json>, st: Json, s: Subject)
    requires st in statements && s in SubjectsFromStatement(st)
    ensures s in FileSubjects(statements)
  {
    hide SubjectsFromStatement;
    if statements[|statements| - 1] != st {
      SubjectOfStatement(statements[..|statements| - 1], st, s);
    }
  }

  /** Some entry has this text. */
  predicate Shown(entries: seq<Json>, text: string) {
    exists i :: 0 <= i < |entries| && CanonicalText(entries[i]) == text
  }

  predicate TextsDiffer(entries: seq<Json>) {
    forall i, j :: 0 <= i < j < |entries| ==> CanonicalText(entries[i]) != CanonicalText(entries[j])
  }

  lemma OneMore(r: seq<Json>, e: Json, text: string)
    ensures Shown(r + [e], text) <==> Shown(r, text) || CanonicalText(e) == text
    ensures TextsDiffer(r + [e]) <==> TextsDiffer(r) && !Shown(r, CanonicalText(e))
  {
    hide CanonicalText;
    var all := r + [e];
    assert all[|r|] == e && forall i :: 0 <= i < |r| ==> all[i] == r[i];
  }

  /** The materials kept are among those listed, one for each text. */
  lemma {:induction false} UniqueMeans(entries: seq<Json>)
    ensures forall e :: e in Unique(entries) ==> e in entries
    ensures forall text :: Shown(entries, text) <==> Shown(Unique(entries), text)
    ensures TextsDiffer(Unique(entries))
  {
    if entries != [] {
      var front, e := entries[..|entries| - 1], entries[|entries| - 1];
      UniqueMeans(front);
      assert entries == front + [e];
      var shown := Shown(Unique(front), CanonicalText(e));
      assert Unique(entries) == if shown then Unique(front) else Unique(front) + [e];
      hide CanonicalText, Unique, Shown, TextsDiffer;
      OneMore(Unique(front), e, CanonicalText(e));
      forall text
        ensures Shown(entries, text) <==> Shown(Unique(entries), text)
      {
        OneMore(front, e, text);
        OneMore(Unique(front), e, text);
      }
    }
  }

  // ---------------------------------------------------------------- numbers and order

  /** A digit other than zero stands before any exponent. */
  ghost predicate HasWeight(literal: string) {
    exists before, digit, after :: literal == before + [digit] + after && digit in "123456789" && 'e' !in before && 'E' !in before
  }

  /** What is left of a literal before its exponent. */
  lemma MantissaMeans(literal: string)
    ensures var m := Mantissa(literal);
            m <= literal && 'e' !in m && 'E' !in m && (|m| < |literal| ==> literal[|m|] == 'e' || literal[|m|] == 'E')
  {
    var e := Find(literal, 'e');
    var k := Find(literal[..e], 'E');
  }

  lemma WeightIsInMantissa(literal: string)
    ensures HasWeight(literal) <==> exists c :: c in Mantissa(literal) && '1' <= c <= '9'
  {
    hide Mantissa;
    MantissaMeans(literal);
    var m := Mantissa(literal);
    if c :| c in m && '1' <= c <= '9' {
      var i :| 0 <= i < |m| && m[i] == c;
      assert literal == literal[..i] + [c] + literal[i + 1..];
      assert literal[..i] == m[..i];
      assert "123456789"[c as int - '1' as int] == c;
      assert HasWeight(literal);
    }
    if before, digit, after :| literal == before + [digit] + after && digit in "123456789" && 'e' !in before && 'E' !in before {
      assert literal[|before|] == digit && '1' <= digit <= '9';
      assert |m| > |before| by {
        assert forall i :: 0 <= i < |before| ==> literal[i] == before[i];
      }
      assert m[|before|] == digit && digit in m;
    }
  }

  /** A number counts as false exactly if it is written with zeros alone. */
  lemma TruthyMeans(literal: string)
    ensures Truthy(Number(literal)) <==> literal == "NaN" || literal == "Infinity" || literal == "-Infinity" || HasWeight(literal)
  {
    hide Mantissa, HasWeight;
    WeightIsInMantissa(literal);
  }

  /** The subjects are listed by name, and those of one name by digest. */
  lemma MinimalIsSorted(subjects: seq<Subject>)
    ensures var r := Minimal(subjects);
            && multiset(r) == multiset(subjects)
            && forall i, j :: 0 <= i < j < |r| ==>
                 (r[i].name == r[j].name && !Less(r[j].sha256, r[i].sha256)) || Less(r[i].name, r[j].name)
  {
    hide Less, Sorting.Sort;
    forall a, b | SubjectBefore(a, b)
      ensures !SubjectBefore(b, a)
    {
      LessIsKeyOrder(a.name, b.name, a.name);
      LessIsKeyOrder(a.sha256, b.sha256, a.sha256);
    }
    forall a, b, c | !SubjectBefore(b, a) && !SubjectBefore(c, b)
      ensures !SubjectBefore(c, a)
    {
      LessIsKeyOrder(a.name, b.name, c.name);
      LessIsKeyOrder(a.sha256, b.sha256, c.sha256);
    }
    Sorting.SortAscends(subjects, SubjectBefore);
    Sorting.SortPermutes(subjects, SubjectBefore);
    var r := Minimal(subjects);
    forall i, j | 0 <= i < j < |r|
      ensures (r[i].name == r[j].name && !Less(r[j].sha256, r[i].sha256)) || Less(r[i].name, r[j].name)
    {
      assert !SubjectBefore(r[j], r[i]);
      LessIsKeyOrder(r[i].name, r[j].name, r[i].name);
    }
  }
}

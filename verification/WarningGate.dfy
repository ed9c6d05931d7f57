/** Build warnings: how they are collected from a log, the policy gate, and its agreement with the bundle's gate. */
module WarningGate {
  import opened PyText

  // ---------------------------------------------------------------- one line

  datatype Category = Owned | KnownUpstream | ThirdParty

  /** What the patterns say of a text: the line without its CI time stamp, the package a build message names, a core
      context, a warning, a failing build environment, a path of the repository, a pattern of known upstream warnings, and
      the two fingerprints. */
  datatype Patterns = Patterns(
    unstamped: string -> string, package: string -> Option<string>, core: string -> bool, warning: string -> bool,
    environment: string -> bool, ownPath: string -> bool, upstream: string -> bool, raw: string -> string,
    fingerprint: string -> string, canonical: (Option<string>, string) -> string)

  datatype Warning = Warning(line: nat, text: string, category: Category, fingerprint: string, raw: string, package: Option<string>)

  /** The gate's own output is no build message. */
  predicate IsEcho(line: string) {
    "build warning summary:" <= line || "policy: " <= line
  }

  predicate IsSuderra(package: string) {
    var name := if "host-" <= package then package[5..] else package;
    name == "suderra" || "suderra-" <= name
  }

  function Classify(p: Patterns, line: string, package: Option<string>): Category {
    if p.environment(line) || p.ownPath(line) then Owned
    else if package.Some? && package.value != [] && IsSuderra(package.value) then Owned
    else if p.upstream(line) || (package.Some? && package.value != []) then KnownUpstream
    else ThirdParty
  }

  /** The package a line sets; None leaves the one before. */
  function SetsPackage(p: Patterns, line: string): Option<string> {
    if IsEcho(line) then None
    else if p.package(line).Some? then p.package(line)
    else if p.core(line) then Some("buildroot-kconfig")
    else None
  }

  predicate IsWarning(p: Patterns, line: string) {
    !IsEcho(line) && (p.warning(line) || p.environment(line))
  }

  function Prefixed(p: Patterns, line: string, package: Option<string>, key: string): string {
    if package.Some? && package.value != [] && !p.ownPath(line) then package.value + ": " + key else key
  }

  function WarningOf(p: Patterns, at: nat, line: string, package: Option<string>): Warning {
    var text := Strip(line);
    Warning(at, text, Classify(p, line, package), Prefixed(p, line, package, p.canonical(package, p.fingerprint(text))),
            Prefixed(p, line, package, p.raw(text)), package)
  }

  // ---------------------------------------------------------------- a log

  /** The package that holds after the lines: the one set last. */
  function PackageAfter(p: Patterns, lines: seq<string>): Option<string> {
    if lines == [] then None
    else
      var line := p.unstamped(lines[|lines| - 1]);
      if SetsPackage(p, line).Some? then SetsPackage(p, line) else PackageAfter(p, lines[..|lines| - 1])
  }

  function Collected(p: Patterns, lines: seq<string>): seq<Warning> {
    if lines == [] then []
    else
      var line := p.unstamped(lines[|lines| - 1]);
      Collected(p, lines[..|lines| - 1])
      + if IsWarning(p, line) then [WarningOf(p, |lines|, line, PackageAfter(p, lines))] else []
  }

  method Collect(p: Patterns, lines: seq<string>) returns (warnings: seq<Warning>)
    ensures warnings == Collected(p, lines)
  {
    hide IsEcho, WarningOf;
    warnings := [];
    var current: Option<string> := None;
    for i := 0 to |lines|
      invariant warnings == Collected(p, lines[..i]) && current == PackageAfter(p, lines[..i])
    {
      assert lines[..i + 1][..i] == lines[..i];
      var line := p.unstamped(lines[i]);
      if IsEcho(line) {
        continue;
      }
      if p.package(line).Some? {
        current := p.package(line);
      } else if p.core(line) {
        current := Some("buildroot-kconfig");
      }
      if !(p.warning(line) || p.environment(line)) {
        continue;
      }
      warnings := warnings + [WarningOf(p, i + 1, line, current)];
    }
    assert lines[..|lines|] == lines;
  }

  /** The package at a line was set by the nearest line up to there that sets one. */
  predicate IsNearest(p: Patterns, lines: seq<string>, at: nat, package: Option<string>)
    requires at <= |lines|
  {
    if package.None? then forall k :: 0 <= k < at ==> SetsPackage(p, p.unstamped(lines[k])).None?
    else exists k :: 0 <= k < at && SetsPackage(p, p.unstamped(lines[k])) == package
                     && forall l :: k < l < at ==> SetsPackage(p, p.unstamped(lines[l])).None?
  }

  lemma {:induction false} PackageIsNearest(p: Patterns, lines: seq<string>)
    ensures IsNearest(p, lines, |lines|, PackageAfter(p, lines))
  {
    hide SetsPackage;
    if lines != [] {
      var front := lines[..|lines| - 1];
      PackageIsNearest(p, front);
      assert forall k :: 0 <= k < |front| ==> front[k] == lines[k];
    }
  }

  /** The warning is that of its line, in the context of the nearest package line. */
  predicate IsOf(p: Patterns, lines: seq<string>, w: Warning) {
    && 1 <= w.line <= |lines| && IsWarning(p, p.unstamped(lines[w.line - 1]))
    && w == WarningOf(p, w.line, p.unstamped(lines[w.line - 1]), w.package) && IsNearest(p, lines, w.line, w.package)
  }

  lemma IsOfLonger(p: Patterns, lines: seq<string>, w: Warning)
    requires lines != [] && IsOf(p, lines[..|lines| - 1], w)
    ensures IsOf(p, lines, w)
  {
    hide IsWarning, WarningOf, IsNearest;
    NearestInFront(p, lines, w.line, w.package);
  }

  lemma NearestInFront(p: Patterns, lines: seq<string>, at: nat, package: Option<string>)
    requires lines != [] && at <= |lines| - 1
    ensures IsNearest(p, lines[..|lines| - 1], at, package) <==> IsNearest(p, lines, at, package)
  {
    hide SetsPackage;
    var front := lines[..|lines| - 1];
    assert forall k :: 0 <= k < |front| ==> front[k] == lines[k];
  }

  lemma LastIsOf(p: Patterns, lines: seq<string>)
    requires lines != [] && IsWarning(p, p.unstamped(lines[|lines| - 1]))
    ensures IsOf(p, lines, WarningOf(p, |lines|, p.unstamped(lines[|lines| - 1]), PackageAfter(p, lines)))
  {
    hide IsWarning, IsNearest, Classify, Prefixed, Strip, SetsPackage;
    PackageIsNearest(p, lines);
  }

  /** The warnings of a log are those of its warning lines, in order, each in the context of its nearest package line. */
  lemma {:induction false} CollectedAre(p: Patterns, lines: seq<string>)
    ensures forall i :: 0 <= i < |Collected(p, lines)| ==> IsOf(p, lines, Collected(p, lines)[i])
    ensures forall i, j :: 0 <= i < j < |Collected(p, lines)| ==> Collected(p, lines)[i].line < Collected(p, lines)[j].line
  {
    hide IsOf, IsWarning, WarningOf, PackageAfter;
    if lines != [] {
      var front := lines[..|lines| - 1];
      var before := Collected(p, front);
      CollectedAre(p, front);
      forall i | 0 <= i < |before|
        ensures IsOf(p, lines, before[i]) && before[i].line < |lines|
      {
        IsOfLonger(p, lines, before[i]);
        OfHasLine(p, front, before[i]);
      }
      if IsWarning(p, p.unstamped(lines[|lines| - 1])) {
        LastIsOf(p, lines);
        LineOf(p, |lines|, p.unstamped(lines[|lines| - 1]), PackageAfter(p, lines));
      }
    }
  }

  lemma OfHasLine(p: Patterns, lines: seq<string>, w: Warning)
    requires IsOf(p, lines, w)
    ensures 1 <= w.line <= |lines|
  {
  }

  lemma LineOf(p: Patterns, at: nat, line: string, package: Option<string>)
    ensures WarningOf(p, at, line, package).line == at
  {
  }

  /** No warning line is left out. */
  lemma {:induction false} EveryWarningIsCollected(p: Patterns, lines: seq<string>, k: nat)
    requires k < |lines| && IsWarning(p, p.unstamped(lines[k]))
    ensures exists i :: 0 <= i < |Collected(p, lines)| && Collected(p, lines)[i].line == k + 1
  {
    hide IsWarning, WarningOf, PackageAfter;
    var front, all := lines[..|lines| - 1], Collected(p, lines);
    if k == |lines| - 1 {
      LineOf(p, |lines|, p.unstamped(lines[k]), PackageAfter(p, lines));
      assert all[|all| - 1].line == k + 1;
    } else {
      EveryWarningIsCollected(p, front, k);
      var i :| 0 <= i < |Collected(p, front)| && Collected(p, front)[i].line == k + 1;
      assert all[i].line == k + 1;
    }
  }

  // ---------------------------------------------------------------- what a collected warning means

  ghost predicate Begins(s: string, start: string) {
    exists rest :: s == start + rest
  }

  /** Output of the gate itself, which counts for nothing. */
  ghost predicate GateSays(line: string) {
    Begins(line, "build warning summary:") || Begins(line, "policy: ")
  }

  /** The line is about this package: a build message names it, or a core context stands for Buildroot's configuration. */
  ghost predicate Names(p: Patterns, line: string, package: string) {
    && !GateSays(line)
    && (p.package(line) == Some(package) || (p.package(line).None? && p.core(line) && package == "buildroot-kconfig"))
  }

  /** The package that the nearest line up to `at` is about. */
  ghost predicate InContext(p: Patterns, lines: seq<string>, at: nat, package: Option<string>)
    requires at <= |lines|
  {
    if package.None? then forall k, n :: 0 <= k < at ==> !Names(p, p.unstamped(lines[k]), n)
    else exists k :: 0 <= k < at && Names(p, p.unstamped(lines[k]), package.value)
                     && forall l, n :: k < l < at ==> !Names(p, p.unstamped(lines[l]), n)
  }

  /** A package of this repository, built for the target or for the host. */
  ghost predicate OwnPackage(name: string) {
    name == "suderra" || name == "host-suderra" || Begins(name, "suderra-") || Begins(name, "host-suderra-")
  }

  ghost predicate IsOwned(p: Patterns, line: string, package: Option<string>) {
    p.environment(line) || p.ownPath(line) || (package.Some? && OwnPackage(package.value))
  }

  predicate NoPackage(package: Option<string>) {
    package == None || package == Some("")
  }

  /** The key of a warning: that of its text, behind the package's name unless there is none or the line shows an own path. */
  ghost predicate IsKey(p: Patterns, line: string, package: Option<string>, key: string, name: string) {
    if NoPackage(package) || p.ownPath(line) then key == name else key == package.value + ": " + name
  }

  ghost predicate IsMeant(p: Patterns, lines: seq<string>, w: Warning) {
    && 1 <= w.line <= |lines| && InContext(p, lines, w.line, w.package)
    && var line := p.unstamped(lines[w.line - 1]);
    && !GateSays(line) && (p.warning(line) || p.environment(line)) && w.text == Strip(line)
    && (w.category == Owned <==> IsOwned(p, line, w.package))
    && (w.category == ThirdParty <==> !IsOwned(p, line, w.package) && !p.upstream(line) && NoPackage(w.package))
    && IsKey(p, line, w.package, w.raw, p.raw(w.text))
    && IsKey(p, line, w.package, w.fingerprint, p.canonical(w.package, p.fingerprint(w.text)))
  }

  lemma PrefixMeans(s: string, start: string)
    ensures start <= s <==> Begins(s, start)
  {
    if start <= s {
      assert s == start + s[|start|..];
    }
  }

  lemma EchoMeans(line: string)
    ensures IsEcho(line) <==> GateSays(line)
  {
    PrefixMeans(line, "build warning summary:");
    PrefixMeans(line, "policy: ");
    hide Begins;
  }

  lemma SetsMeans(p: Patterns, line: string)
    ensures forall n :: Names(p, line, n) <==> SetsPackage(p, line) == Some(n)
  {
    EchoMeans(line);
    hide IsEcho, GateSays;
  }

  lemma NearestMeans(p: Patterns, lines: seq<string>, at: nat, package: Option<string>)
    requires at <= |lines|
    ensures IsNearest(p, lines, at, package) <==> InContext(p, lines, at, package)
  {
    hide SetsPackage, Names;
    forall k | 0 <= k < at
      ensures forall n :: Names(p, p.unstamped(lines[k]), n) <==> SetsPackage(p, p.unstamped(lines[k])) == Some(n)
    {
      SetsMeans(p, p.unstamped(lines[k]));
    }
    forall k | 0 <= k < at
      ensures SetsPackage(p, p.unstamped(lines[k])).None? <==> forall n :: !Names(p, p.unstamped(lines[k]), n)
    {
      if SetsPackage(p, p.unstamped(lines[k])).Some? {
        assert Names(p, p.unstamped(lines[k]), SetsPackage(p, p.unstamped(lines[k])).value);
      }
    }
  }

  lemma OwnMeans(name: string)
    ensures name != [] && IsSuderra(name) <==> OwnPackage(name)
  {
    PrefixMeans(name, "host-");
    PrefixMeans(name, "suderra-");
    PrefixMeans(name, "host-suderra-");
    assert "host-" + "suderra" == "host-suderra" && "host-" + "suderra-" == "host-suderra-";
    if "host-" <= name {
      var rest := name[5..];
      PrefixMeans(rest, "suderra-");
      assert name == "host-" + rest;
      if "suderra-" <= rest {
        assert name == "host-suderra-" + rest[8..];
      }
      if "host-suderra-" <= name {
        assert name == "host-" + ("suderra-" + name[13..]);
      }
      assert name[0] == 'h' && "suderra"[0] == 's' && "suderra-"[0] == 's';
    }
    hide Begins;
  }

  lemma CategoryMeans(p: Patterns, line: string, package: Option<string>)
    ensures Classify(p, line, package) == Owned <==> IsOwned(p, line, package)
    ensures Classify(p, line, package) == ThirdParty <==> !IsOwned(p, line, package) && !p.upstream(line) && NoPackage(package)
  {
    if package.Some? {
      OwnMeans(package.value);
    }
    hide IsSuderra, OwnPackage;
  }

  /** Every collected warning is owned, upstream or third-party by its line and by the package of the nearest line that names
      one, and carries that package in front of its keys. */
  lemma CollectedMean(p: Patterns, lines: seq<string>)
    ensures forall i :: 0 <= i < |Collected(p, lines)| ==> IsMeant(p, lines, Collected(p, lines)[i])
  {
    hide IsOf, IsMeant, Collected;
    CollectedAre(p, lines);
    forall i | 0 <= i < |Collected(p, lines)|
      ensures IsMeant(p, lines, Collected(p, lines)[i])
    {
      OfIsMeant(p, lines, Collected(p, lines)[i]);
    }
  }

  lemma OfIsMeant(p: Patterns, lines: seq<string>, w: Warning)
    requires IsOf(p, lines, w)
    ensures IsMeant(p, lines, w)
  {
    hide IsNearest, InContext, Classify, IsOwned, IsEcho, GateSays, Strip;
    var line := p.unstamped(lines[w.line - 1]);
    NearestMeans(p, lines, w.line, w.package);
    CategoryMeans(p, line, w.package);
    EchoMeans(line);
  }

  /** No warning line is left out. */
  lemma EveryWarningIsMeant(p: Patterns, lines: seq<string>, k: nat)
    requires k < |lines|
    requires var line := p.unstamped(lines[k]); !GateSays(line) && (p.warning(line) || p.environment(line))
    ensures exists i :: 0 <= i < |Collected(p, lines)| && Collected(p, lines)[i].line == k + 1
  {
    EchoMeans(p.unstamped(lines[k]));
    hide Collected, IsEcho, GateSays;
    EveryWarningIsCollected(p, lines, k);
  }

  // ---------------------------------------------------------------- counts

  datatype Summary = Summary(owned: nat, knownUpstream: nat, thirdParty: nat)

  function CountOf(warnings: seq<Warning>, c: Category): nat {
    if warnings == [] then 0 else CountOf(warnings[..|warnings| - 1], c) + if warnings[|warnings| - 1].category == c then 1 else 0
  }

  function Fingerprints(warnings: seq<Warning>): (r: seq<string>)
    ensures |r| == |warnings| && forall i :: 0 <= i < |r| ==> r[i] == warnings[i].fingerprint
  {
    seq(|warnings|, i requires 0 <= i < |warnings| => warnings[i].fingerprint)
  }

  /** `summarize` */
  method Summarize(warnings: seq<Warning>) returns (s: Summary)
    ensures s == Summary(CountOf(warnings, Owned), CountOf(warnings, KnownUpstream), CountOf(warnings, ThirdParty))
  {
    s := Summary(0, 0, 0);
    for i := 0 to |warnings|
      invariant s == Summary(CountOf(warnings[..i], Owned), CountOf(warnings[..i], KnownUpstream), CountOf(warnings[..i], ThirdParty))
    {
      assert warnings[..i + 1][..i] == warnings[..i];
      match warnings[i].category
      case Owned => s := s.(owned := s.owned + 1);
      case KnownUpstream => s := s.(knownUpstream := s.knownUpstream + 1);
      case ThirdParty => s := s.(thirdParty := s.thirdParty + 1);
    }
    assert warnings[..|warnings|] == warnings;
  }

  /** The categories' counts add up to the number of warnings, and so do the fingerprints' counts. */
  lemma {:induction false} CountsAddUp(warnings: seq<Warning>)
    ensures CountOf(warnings, Owned) + CountOf(warnings, KnownUpstream) + CountOf(warnings, ThirdParty) == |warnings|
    ensures |multiset(Fingerprints(warnings))| == |warnings|
  {
    if warnings != [] {
      CountsAddUp(warnings[..|warnings| - 1]);
    }
  }

  lemma {:induction false} NoneCounted(warnings: seq<Warning>, c: Category)
    ensures CountOf(warnings, c) == 0 <==> forall i :: 0 <= i < |warnings| ==> warnings[i].category != c
  {
    if warnings != [] {
      NoneCounted(warnings[..|warnings| - 1], c);
    }
  }

  // ---------------------------------------------------------------- the policy

  /** The policy file: None where a field is missing or of the wrong type. */
  datatype Policy = Policy(schema: Option<string>, owner: Option<string>, allowed: Option<seq<string>>, expires: Option<int>,
                           thirdPartyFails: Option<bool>)

  predicate PolicyIsValid(policy: Policy, now: int) {
    && policy.schema == Some("suderra.build-warning-policy.v1") && policy.owner.Some? && Strip(policy.owner.value) != []
    && policy.allowed.Some? && (forall i :: 0 <= i < |policy.allowed.value| ==> Strip(policy.allowed.value[i]) != [])
    && policy.expires.Some? && now < policy.expires.value && policy.thirdPartyFails == Some(true)
  }

  function Unapproved(warnings: seq<Warning>, allowed: seq<string>): set<string> {
    set w | w in warnings && w.category == KnownUpstream && w.fingerprint !in allowed :: w.fingerprint
  }

  predicate PolicyPasses(policy: Option<Policy>, warnings: seq<Warning>, now: int) {
    && policy.Some? && PolicyIsValid(policy.value, now)
    && Unapproved(warnings, policy.value.allowed.value) == {} && CountOf(warnings, ThirdParty) == 0
  }

  method CheckPolicy(policy: Policy, now: int) returns (failures: seq<string>)
    ensures failures == [] <==> PolicyIsValid(policy, now)
  {
    hide Strip;
    failures := if policy.schema == Some("suderra.build-warning-policy.v1") then [] else ["schema_version"];
    if policy.owner.None? || Strip(policy.owner.value) == [] {
      failures := failures + ["known_upstream.owner must be set"];
    }
    if policy.allowed.None? {
      failures := failures + ["known_upstream.allowed_fingerprints must be a string list"];
    } else {
      ghost var before := failures;
      for i := 0 to |policy.allowed.value|
        invariant failures == [] <==> before == [] && forall k :: 0 <= k < i ==> Strip(policy.allowed.value[k]) != []
      {
        if Strip(policy.allowed.value[i]) == [] {
          failures := failures + ["known_upstream.allowed_fingerprints must be a string list"];
        }
      }
    }
    if policy.expires.None? {
      failures := failures + ["known_upstream.expires_at must be a timestamp"];
    } else if policy.expires.value <= now {
      failures := failures + ["known_upstream.expires_at is expired"];
    }
    if policy.thirdPartyFails != Some(true) {
      failures := failures + ["third_party.fail must be true"];
    }
  }

  /** `policy_failures`; None is a file that is not there or holds no object. */
  method PolicyFailures(policy: Option<Policy>, warnings: seq<Warning>, now: int) returns (failures: seq<string>)
    ensures failures == [] <==> PolicyPasses(policy, warnings, now)
  {
    hide Strip, Unapproved;
    if policy.None? {
      return ["cannot read warning policy"];
    }
    failures := CheckPolicy(policy.value, now);
    if failures != [] {
      return;
    }
    if Unapproved(warnings, policy.value.allowed.value) != {} {
      failures := failures + ["known-upstream warning fingerprints are not policy-approved"];
    }
    var summary := Summarize(warnings);
    if summary.thirdParty != 0 {
      failures := failures + ["unclassified third-party warnings require triage"];
    }
  }

  lemma ValidHasList(policy: Policy, now: int)
    requires PolicyIsValid(policy, now)
    ensures policy.allowed.Some?
  {
  }

  // ---------------------------------------------------------------- the command and its document

  datatype Document = Document(summary: Summary, fingerprints: multiset<string>, warnings: seq<Warning>, failing: seq<Warning>,
                               policyErrors: seq<string>)

  datatype Options = Options(policy: Option<Option<Policy>>, failThirdParty: bool, now: int)

  function Failing(warnings: seq<Warning>, failThirdParty: bool): seq<Warning> {
    if warnings == [] then []
    else
      var w := warnings[|warnings| - 1];
      Failing(warnings[..|warnings| - 1], failThirdParty)
      + if w.category == Owned || (failThirdParty && w.category == ThirdParty) then [w] else []
  }

  lemma {:induction false} FailingAre(warnings: seq<Warning>, failThirdParty: bool)
    ensures Failing(warnings, failThirdParty) == [] <==>
            CountOf(warnings, Owned) == 0 && (failThirdParty ==> CountOf(warnings, ThirdParty) == 0)
  {
    if warnings != [] {
      FailingAre(warnings[..|warnings| - 1], failThirdParty);
    }
  }

  function AllCollected(p: Patterns, logs: seq<seq<string>>): seq<Warning> {
    if logs == [] then [] else AllCollected(p, logs[..|logs| - 1]) + Collected(p, logs[|logs| - 1])
  }

  /** The document of a run, whatever the warnings it lists. */
  predicate IsRun(d: Document, options: Options) {
    && d.failing == Failing(d.warnings, options.failThirdParty)
    && d.summary == Summary(CountOf(d.warnings, Owned), CountOf(d.warnings, KnownUpstream), CountOf(d.warnings, ThirdParty))
    && d.fingerprints == multiset(Fingerprints(d.warnings))
    && (d.policyErrors == [] <==> options.policy.Some? ==> PolicyPasses(options.policy.value, d.warnings, options.now))
  }

  /** The document of a run over these logs. */
  predicate IsRunOver(d: Document, p: Patterns, logs: seq<seq<string>>, options: Options) {
    d.warnings == AllCollected(p, logs) && IsRun(d, options)
  }

  predicate Exits0(d: Document) {
    d.failing == [] && d.policyErrors == []
  }

  /** `main`, once every log is there: the exit status and the document it emits. */
  method ClassifyLogs(p: Patterns, logs: seq<seq<string>>, options: Options) returns (status: int, document: Document)
    ensures IsRunOver(document, p, logs, options)
    ensures status == if Exits0(document) then 0 else 1
  {
    hide Collected, CountOf, PolicyPasses;
    var warnings: seq<Warning> := [];
    for i := 0 to |logs|
      invariant warnings == AllCollected(p, logs[..i])
    {
      assert logs[..i + 1][..i] == logs[..i];
      var more := Collect(p, logs[i]);
      warnings := warnings + more;
    }
    assert logs[..|logs|] == logs;
    var summary := Summarize(warnings);
    var errors: seq<string> := [];
    if options.policy.Some? {
      errors := PolicyFailures(options.policy.value, warnings, options.now);
    }
    document := Document(summary, multiset(Fingerprints(warnings)), warnings, Failing(warnings, options.failThirdParty), errors);
    status := if document.failing != [] || errors != [] then 1 else 0;
  }

  // ---------------------------------------------------------------- the bundle's gate

  /** What the evidence validator demands of a warning document. */
  predicate BundleAccepts(d: Document) {
    d.summary.owned == 0 && d.summary.thirdParty == 0 && d.failing == [] && d.policyErrors == []
  }

  /** The checks of `release-evidence.py` on a classifier document. */
  method CheckDocument(d: Document) returns (errors: seq<string>)
    ensures errors == [] <==> BundleAccepts(d)
  {
    errors := [];
    if d.summary.owned != 0 {
      errors := errors + ["warning owned count must be 0"];
    }
    if d.summary.thirdParty != 0 {
      errors := errors + ["warning third-party count must be 0"];
    }
    if |d.failing| > 0 {
      errors := errors + ["warning failing must be empty"];
    }
    if |d.policyErrors| > 0 {
      errors := errors + ["warning policy_errors must be empty"];
    }
  }

  /** No warning is owned or third-party, and every known-upstream fingerprint is allowed. */
  predicate OnlyApproved(warnings: seq<Warning>, allowed: seq<string>) {
    forall i :: 0 <= i < |warnings| ==> warnings[i].category == KnownUpstream && warnings[i].fingerprint in allowed
  }

  /** A run under a policy exits with 0 exactly if the policy is valid and unexpired and the log shows only approved
      upstream warnings, and exactly then does the bundle's gate take the document it emits. */
  lemma PolicyGateAgrees(d: Document, options: Options)
    requires IsRun(d, options) && options.policy.Some?
    ensures Exits0(d) <==> BundleAccepts(d)
    ensures Exits0(d) <==>
            && options.policy.value.Some? && PolicyIsValid(options.policy.value.value, options.now)
            && OnlyApproved(d.warnings, options.policy.value.value.allowed.value)
  {
    hide PolicyIsValid, Failing, CountOf;
    FailingAre(d.warnings, options.failThirdParty);
    NoneCounted(d.warnings, Owned);
    NoneCounted(d.warnings, ThirdParty);
    if options.policy.value.Some? && PolicyIsValid(options.policy.value.value, options.now) {
      ValidHasList(options.policy.value.value, options.now);
      UnapprovedAre(d.warnings, options.policy.value.value.allowed.value);
    }
  }

  lemma UnapprovedAre(warnings: seq<Warning>, allowed: seq<string>)
    ensures Unapproved(warnings, allowed) == {} <==>
            forall i :: 0 <= i < |warnings| && warnings[i].category == KnownUpstream ==> warnings[i].fingerprint in allowed
  {
    if Unapproved(warnings, allowed) == {} {
      forall i | 0 <= i < |warnings| && warnings[i].category == KnownUpstream
        ensures warnings[i].fingerprint in allowed
      {
        assert warnings[i] in warnings;
        assert warnings[i].fingerprint !in Unapproved(warnings, allowed);
      }
    }
  }

  /** Without a policy the two gates differ: the bundle's also refuses third-party warnings, whatever the option says. */
  lemma OpenGateDiffers(d: Document, options: Options)
    requires IsRun(d, options) && options.policy.None?
    ensures BundleAccepts(d) <==> Exits0(d) && CountOf(d.warnings, ThirdParty) == 0
    ensures Exits0(d) && !BundleAccepts(d) ==> !options.failThirdParty
  {
    hide CountOf;
    FailingAre(d.warnings, options.failThirdParty);
  }

  lemma {:induction false} CollectedInAll(p: Patterns, logs: seq<seq<string>>, j: nat, w: Warning)
    requires j < |logs| && w in Collected(p, logs[j])
    ensures w in AllCollected(p, logs)
  {
    hide Collected;
    if j < |logs| - 1 {
      CollectedInAll(p, logs[..|logs| - 1], j, w);
    }
  }

  /** A warning that is owned, be it only for the package it is about, is never let through, whatever the policy. */
  lemma OwnWarningBlocks(p: Patterns, logs: seq<seq<string>>, j: nat, k: nat, package: Option<string>, options: Options, d: Document)
    requires IsRunOver(d, p, logs, options) && j < |logs| && k < |logs[j]|
    requires var line := p.unstamped(logs[j][k]); !GateSays(line) && (p.warning(line) || p.environment(line)) && IsOwned(p, line, package)
    requires InContext(p, logs[j], k + 1, package)
    ensures !Exits0(d) && !BundleAccepts(d)
  {
    hide IsEcho, GateSays, IsOwned, Collected, InContext, AllCollected, PolicyPasses, Failing, CountOf;
    EveryWarningIsMeant(p, logs[j], k);
    CollectedMean(p, logs[j]);
    var i :| 0 <= i < |Collected(p, logs[j])| && Collected(p, logs[j])[i].line == k + 1;
    var w := Collected(p, logs[j])[i];
    assert IsMeant(p, logs[j], w);
    OneContext(p, logs[j], k + 1, package, w.package);
    CollectedInAll(p, logs, j, w);
    NoneCounted(d.warnings, Owned);
    FailingAre(d.warnings, options.failThirdParty);
  }

  /** There is one nearest package. */
  lemma OneContext(p: Patterns, lines: seq<string>, at: nat, a: Option<string>, b: Option<string>)
    requires at <= |lines| && InContext(p, lines, at, a) && InContext(p, lines, at, b)
    ensures a == b
  {
    hide Names;
    if a.Some? && b.Some? {
      var k :| 0 <= k < at && Names(p, p.unstamped(lines[k]), a.value) && forall l, n :: k < l < at ==> !Names(p, p.unstamped(lines[l]), n);
      var l :| 0 <= l < at && Names(p, p.unstamped(lines[l]), b.value) && forall m, n :: l < m < at ==> !Names(p, p.unstamped(lines[m]), n);
      assert k == l;
      NamesOne(p, p.unstamped(lines[k]), a.value, b.value);
    }
  }

  lemma NamesOne(p: Patterns, line: string, a: string, b: string)
    requires Names(p, line, a) && Names(p, line, b)
    ensures a == b
  {
  }

  /** A warning with no owner, of no package and of no known pattern. */
  predicate IsStray(p: Patterns, line: string) {
    && !IsEcho(line) && p.warning(line) && !p.environment(line) && !p.ownPath(line) && !p.upstream(line)
    && p.package(line).None? && !p.core(line)
  }

  /** A log of one such line: a run that leaves third-party warnings alone exits with 0, and the bundle's gate refuses the
      document it emits. */
  lemma OneThirdPartyWarning(p: Patterns, line: string, now: int, d: Document)
    requires IsStray(p, p.unstamped(line)) && IsRunOver(d, p, [[line]], Options(None, false, now))
    ensures d.warnings == [WarningOf(p, 1, p.unstamped(line), None)] && Exits0(d) && !BundleAccepts(d)
  {
    hide IsEcho, Strip, Prefixed;
    StrayIsCollected(p, line);
    var ws := d.warnings;
    assert ws[0].category == ThirdParty && ws[..0] == [];
    assert Failing(ws[..0], false) == [] && forall c :: CountOf(ws[..0], c) == 0;
  }

  lemma StrayIsCollected(p: Patterns, line: string)
    requires IsStray(p, p.unstamped(line))
    ensures AllCollected(p, [[line]]) == [WarningOf(p, 1, p.unstamped(line), None)]
  {
    hide IsEcho, WarningOf;
    assert [line][..0] == [] && Collected(p, []) == [] && PackageAfter(p, []) == None;
    assert PackageAfter(p, [line]) == None;
    assert Collected(p, [line]) == [WarningOf(p, 1, p.unstamped(line), None)];
    assert [[line]][..0] == [] && AllCollected(p, []) == [];
  }
}

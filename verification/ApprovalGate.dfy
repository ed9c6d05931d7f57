/** Exactly how far the validator of approval inputs and the review gate of the evidence agree. */
module ApprovalGate {
  import opened PyText
  import opened Json
  import opened Timestamps
  import I = ApprovalInput
  import R = ReviewGate

  // ---------------------------------------------------------------- the two ways to read a time

  /** `fromisoformat` takes no text that is empty or starts with white space. */
  ghost predicate IsoIsStrict(clock: Clock) {
    forall s :: clock.iso(s).Some? ==> s != [] && !IsSpace(s[0])
  }

  predicate IsTrimmed(v: Option<Json>) {
    v.Some? && v.value.Str? ==> Trimmed(v.value.s)
  }

  /** A time the input validator reads is trimmed, and the evidence gate reads the same time. */
  lemma InputTimeIsEvidenceTime(v: Option<Json>, clock: Clock)
    requires IsoIsStrict(clock) && I.Time(v, clock).Some?
    ensures IsTrimmed(v) && NonBlank(v) && R.Parsed(v, clock) == I.Time(v, clock)
  {
    var s := v.value.s;
    assert s[..|s| - 1] != [] && !IsSpace(s[..|s| - 1][0]);
    assert !IsSpace('Z');
    assert Trimmed(s);
    StripTrimmed(s);
  }

  lemma TimesAgree(v: Option<Json>, clock: Clock)
    requires IsoIsStrict(clock)
    ensures I.Time(v, clock).Some? <==> R.Parsed(v, clock).Some? && IsTrimmed(v)
    ensures R.TimeHolds(v, true, clock) <==> R.Parsed(v, clock).Some?
    ensures I.Time(v, clock).Some? ==> R.Parsed(v, clock) == I.Time(v, clock)
  {
    if I.Time(v, clock).Some? {
      InputTimeIsEvidenceTime(v, clock);
    } else if IsTrimmed(v) && NonBlank(v) {
      StripTrimmed(v.value.s);
    }
  }

  // ---------------------------------------------------------------- approvals

  predicate TimesTrimmed(approvals: seq<Json>) {
    forall i :: 0 <= i < |approvals| ==> IsTrimmed(Field(approvals[i], "approved_at"))
  }

  lemma ApprovalAgrees(a: Json, clock: Clock)
    requires IsoIsStrict(clock)
    ensures I.ApprovalPasses(a, clock) <==> R.Signed(a, clock) && IsTrimmed(Field(a, "approved_at"))
  {
    TimesAgree(Field(a, "approved_at"), clock);
    hide HasTexts, NonBlank, Field, IsTrimmed, I.Time, R.Parsed, R.TimeHolds, IsoIsStrict;
  }

  lemma RolesAgree(approvals: seq<Json>)
    ensures I.SeenRoles(approvals) == R.Roles(approvals)
    ensures I.RolesPass(I.SeenRoles(approvals)) <==> R.RolesHold(R.Roles(approvals))
  {
    forall a
      ensures TextAt(a, "role").Some? ==> a.Obj?
    {
    }
    hide TextAt;
    assert I.SeenRoles(approvals) == R.Roles(approvals);
    OneOfTwo(R.Roles(approvals));
  }

  lemma OneOfTwo(roles: set<string>)
    ensures {"maintainer", "security-compliance"} * roles != {} <==> "maintainer" in roles || "security-compliance" in roles
  {
    var both := {"maintainer", "security-compliance"} * roles;
    if "maintainer" in roles {
      assert "maintainer" in both;
    }
    if "security-compliance" in roles {
      assert "security-compliance" in both;
    }
  }

  lemma ApprovalsAgree(v: Option<Json>, clock: Clock, requirePass: bool)
    requires IsoIsStrict(clock) && IsList(v)
    ensures I.ApprovalsPass(v, clock, requirePass) <==>
            R.ApprovalsHold(v.value, clock, requirePass) && I.UniqueRoles(v.value.items) && TimesTrimmed(v.value.items)
  {
    hide I.ApprovalPasses, R.Signed, I.SeenRoles, R.Roles, I.RolesPass, R.RolesHold, I.UniqueRoles, Field, IsTrimmed,
         IsoIsStrict;
    var items := v.value.items;
    RolesAgree(items);
    forall i | 0 <= i < |items|
      ensures I.ApprovalPasses(items[i], clock) <==> R.Signed(items[i], clock) && IsTrimmed(Field(items[i], "approved_at"))
    {
      ApprovalAgrees(items[i], clock);
    }
  }

  // ---------------------------------------------------------------- the decision

  /** The input validator wants decision and date in any case, the evidence gate only to let a release pass. */
  predicate DecisionStated(p: Json) {
    var d := Field(p, "release_decision");
    IsObject(d) && NonBlank(Field(d.value, "decided_by")) && NonBlank(Field(d.value, "decided_at")) && IsTrimmed(Field(d.value, "decided_at"))
  }

  lemma DecisionTexts(d: Json, requirePass: bool)
    requires NonBlank(Field(d, "decided_by")) && NonBlank(Field(d, "decided_at"))
    ensures HasTexts(d, I.DECISION_FIELDS) <==>
            forall i :: 0 <= i < |R.RATIONALE| ==> R.TextHolds(Field(d, R.RATIONALE[i]), requirePass || R.RATIONALE[i] == "rationale")
  {
    hide NonBlank, Field, IsNone;
    assert I.DECISION_FIELDS[2] == R.RATIONALE[2] == "rationale";
  }

  lemma DecisionHasTexts(d: Json)
    requires HasTexts(d, I.DECISION_FIELDS)
    ensures NonBlank(Field(d, "decided_by")) && NonBlank(Field(d, "decided_at"))
  {
    hide NonBlank, Field;
    assert I.DECISION_FIELDS[0] == "decided_by" && I.DECISION_FIELDS[1] == "decided_at";
  }

  lemma StatusAgrees(d: Json)
    ensures I.Approves(TextAt(d, "status")) <==> TextAt(d, "status") in [R.APPROVED, R.APPROVED_WITH_RISK]
    ensures (I.Approves(TextAt(d, "status")) || TextAt(d, "status") == Some("blocked")) <==>
            TextAt(d, "status") in [R.APPROVED, R.APPROVED_WITH_RISK, R.BLOCKED]
  {
    hide TextAt;
  }

  lemma DecisionAgrees(d: Json, clock: Clock, requirePass: bool)
    requires IsoIsStrict(clock)
    ensures I.DecisionPasses(d, clock, requirePass) <==>
            && R.DecisionHolds(d, clock, requirePass) && NonBlank(Field(d, "decided_by")) && NonBlank(Field(d, "decided_at"))
            && IsTrimmed(Field(d, "decided_at"))
  {
    hide HasTexts, NonBlank, IsNone, R.TextHolds, R.RATIONALE, R.APPROVED, R.APPROVED_WITH_RISK, R.BLOCKED,
         I.DECISION_FIELDS, I.Approves, I.Time, R.Parsed, R.TimeHolds, Field, TextAt, IsTrimmed, IsoIsStrict;
    StatusAgrees(d);
    TimesAgree(Field(d, "decided_at"), clock);
    if NonBlank(Field(d, "decided_by")) && NonBlank(Field(d, "decided_at")) {
      DecisionTexts(d, requirePass);
      PresentTime(Field(d, "decided_at"), requirePass, clock);
    }
    if HasTexts(d, I.DECISION_FIELDS) {
      DecisionHasTexts(d);
    }
  }

  lemma PresentTime(v: Option<Json>, required: bool, clock: Clock)
    requires NonBlank(v)
    ensures R.TimeHolds(v, required, clock) <==> R.TimeHolds(v, true, clock)
  {
  }

  // ---------------------------------------------------------------- residual risk

  predicate AcceptanceTrimmed(risk: Json) {
    IsTrimmed(Field(risk, "accepted_at")) && IsTrimmed(Field(risk, "expires_at"))
  }

  lemma AcceptanceAgrees(risk: Json, clock: Clock)
    requires IsoIsStrict(clock)
    ensures I.AcceptancePasses(risk, clock) <==> R.AcceptedInTime(risk, clock) && AcceptanceTrimmed(risk)
  {
    TimesAgree(Field(risk, "accepted_at"), clock);
    TimesAgree(Field(risk, "expires_at"), clock);
    hide HasTexts, Field, IsTrimmed, I.Time, R.Parsed, R.TimeHolds, IsoIsStrict;
  }

  lemma ItemsAgree(v: Option<Json>)
    ensures I.ItemsPass(v) <==> IsList(v) && forall i :: 0 <= i < |v.value.items| ==> R.Listed(v.value.items[i])
  {
    hide HasTexts;
    assert I.ITEM_FIELDS == R.RISK;
  }

  lemma ClearanceAgrees(risk: Json, decision: Json, clock: Clock)
    requires IsoIsStrict(clock) && IsList(Field(risk, "items"))
    ensures I.RiskFits(risk, TextAt(decision, "status"), clock) <==>
            && R.RiskCleared(risk, decision, clock)
            && (TextAt(decision, "status") == Some("approved_with_residual_risk") ==> AcceptanceTrimmed(risk))
  {
    AcceptanceAgrees(risk, clock);
    hide TextAt, Field, I.AcceptancePasses, R.AcceptedInTime, AcceptanceTrimmed, IsoIsStrict;
  }

  lemma RiskAgrees(risk: Json, decision: Json, clock: Clock, requirePass: bool)
    requires IsoIsStrict(clock)
    ensures I.RiskPasses(risk, TextAt(decision, "status"), clock, requirePass) <==>
            && R.RiskHolds(risk, decision, clock, requirePass)
            && (requirePass && TextAt(decision, "status") == Some("approved_with_residual_risk") ==> AcceptanceTrimmed(risk))
  {
    var items := Field(risk, "items");
    ItemsAgree(items);
    if IsList(items) {
      ClearanceAgrees(risk, decision, clock);
    }
    hide TextAt, Field, I.ItemsPass, R.Listed, I.RiskFits, R.RiskCleared, AcceptanceTrimmed, IsoIsStrict;
  }

  /** The risk that is assumed where none is given, and the one fresh evidence starts with, are judged alike. */
  lemma NoRiskIsNoReview(decision: Json, clock: Clock, requirePass: bool)
    ensures R.RiskHolds(I.NO_RISK, decision, clock, requirePass) <==> R.RiskHolds(R.NO_REVIEW.risk, decision, clock, requirePass)
  {
    NoRiskFields();
    hide TextAt, Field, I.NO_RISK, R.NO_REVIEW, R.AcceptedInTime, R.Listed, R.BLOCKED, R.APPROVED, R.APPROVED_WITH_RISK,
         R.ACCEPTED;
  }

  lemma NoRiskFields()
    ensures TextAt(I.NO_RISK, "status") == TextAt(R.NO_REVIEW.risk, "status") == Some("none")
    ensures Field(I.NO_RISK, "items") == Field(R.NO_REVIEW.risk, "items") == Some(Arr([]))
    ensures I.NO_RISK.Obj? && R.NO_REVIEW.risk.Obj?
  {
  }

  // ---------------------------------------------------------------- agreement

  /** What the input validator asks beyond the evidence gate: the header, a list of approvals with one approval a role, a
      stated decision, a residual risk that is an object where it is given, and times without white space around them. */
  predicate InputOnly(p: Json, e: I.Expected, requirePass: bool) {
    var approvals, decision := Field(p, "approvals"), I.DecisionOf(p);
    && p.Obj? && I.HeaderPasses(p, e)
    && IsList(approvals) && I.UniqueRoles(approvals.value.items) && TimesTrimmed(approvals.value.items)
    && DecisionStated(p)
    && (Field(p, "residual_risk").Some? ==> Field(p, "residual_risk").value.Obj?)
    && (requirePass && TextAt(decision, "status") == Some("approved_with_residual_risk") ==> AcceptanceTrimmed(I.RiskOf(p)))
  }

  lemma PassingRiskIsObject(risk: Json, decision: Option<string>, clock: Clock, requirePass: bool)
    requires I.RiskPasses(risk, decision, clock, requirePass)
    ensures risk.Obj?
  {
  }

  lemma NoRiskIsTrimmed()
    ensures AcceptanceTrimmed(I.NO_RISK)
  {
  }

  lemma PassingDecisionIsObject(d: Json, clock: Clock, requirePass: bool)
    requires I.DecisionPasses(d, clock, requirePass)
    ensures d.Obj?
  {
  }

  /** With `require_pass` or without: the input validator passes an approval exactly if the evidence gate, at the same
      time, passes the sections copied from it into fresh evidence, and the input meets what only its validator asks. */
  lemma GatesAgree(p: Json, e: I.Expected, clock: Clock, requirePass: bool)
    requires IsoIsStrict(clock)
    ensures I.Passes(p, e, clock, requirePass) <==>
            InputOnly(p, e, requirePass) && R.Holds(R.Copied(R.NO_REVIEW, p), clock, requirePass)
  {
    hide I.HeaderPasses, I.ApprovalsPass, R.ApprovalsHold, I.UniqueRoles, TimesTrimmed, I.DecisionPasses,
         R.DecisionHolds, I.RiskPasses, R.RiskHolds, AcceptanceTrimmed, IsTrimmed, NonBlank, IsoIsStrict, R.NO_REVIEW,
         I.NO_RISK, Field, TextAt;
    var approvals, decision, risk := Field(p, "approvals"), I.DecisionOf(p), I.RiskOf(p);
    if IsList(approvals) {
      ApprovalsAgree(approvals, clock, requirePass);
    } else {
      NoListNoPass(approvals, clock, requirePass);
    }
    DecisionAgrees(decision, clock, requirePass);
    RiskAgrees(risk, decision, clock, requirePass);
    NoRiskIsNoReview(decision, clock, requirePass);
    NoRiskIsTrimmed();
    if I.DecisionPasses(decision, clock, requirePass) {
      PassingDecisionIsObject(decision, clock, requirePass);
    }
    if I.RiskPasses(risk, TextAt(decision, "status"), clock, requirePass) {
      PassingRiskIsObject(risk, TextAt(decision, "status"), clock, requirePass);
    }
  }

  lemma NoListNoPass(v: Option<Json>, clock: Clock, requirePass: bool)
    requires !IsList(v)
    ensures !I.ApprovalsPass(v, clock, requirePass)
  {
  }

  // ---------------------------------------------------------------- where they part

  const RELEASE := I.Expected("1.0", "x", None)

  function Signature(role: string, at: string): Json {
    Obj([Member("role", Json.Str(role)), Member("name", Json.Str("N")), Member("approved_at", Json.Str(at))])
  }

  function Decision(at: string): Json {
    Obj([Member("status", Json.Str("approved")), Member("decided_by", Json.Str("N")), Member("decided_at", Json.Str(at)),
         Member("rationale", Json.Str("R"))])
  }

  /** An approval of version 1.0 for the target x, signed twice and decided at one time. */
  function Approval(at: string): Json {
    Obj([Member("approvals", Arr([Signature("release-owner", at), Signature("maintainer", at)])),
         Member("release_decision", Decision(at)),
         Member("schema_version", Json.Str("suderra.release-approval.v2")),
         Member("version", Json.Str("1.0")), Member("target", Json.Str("x"))])
  }

  lemma SignatureIs(role: string, at: string)
    ensures var a := Signature(role, at);
            && TextAt(a, "role") == Some(role) && Field(a, "name") == Some(Json.Str("N")) && Field(a, "approved_at") == Some(Json.Str(at))
            && Field(a, "ticket").None?
  {
    hide Get;
    var f := Signature(role, at).fields;
    assert "role"[0] != "name"[0] && "role"[0] != "approved_at"[0] && "name"[0] != "approved_at"[0] && |"ticket"| == 6;
    GetAt(f, "role", 0);
    GetAt(f, "name", 1);
    GetAt(f, "approved_at", 2);
    GetNowhere(f, "ticket");
  }

  lemma DecisionIs(at: string)
    ensures var d := Decision(at);
            && TextAt(d, "status") == Some("approved") && Field(d, "decided_by") == Some(Json.Str("N"))
            && Field(d, "decided_at") == Some(Json.Str(at)) && Field(d, "rationale") == Some(Json.Str("R"))
  {
    hide Get;
    var f := Decision(at).fields;
    assert |"status"| == 6 && |"rationale"| == 9 && |"decided_by"| == |"decided_at"| == 10;
    assert "decided_by"[8] != "decided_at"[8];
    GetAt(f, "status", 0);
    GetAt(f, "decided_by", 1);
    GetAt(f, "decided_at", 2);
    GetAt(f, "rationale", 3);
  }

  lemma ApprovalSections(at: string)
    ensures var p := Approval(at);
            && Field(p, "approvals") == Some(Arr([Signature("release-owner", at), Signature("maintainer", at)]))
            && Field(p, "release_decision") == Some(Decision(at)) && Field(p, "residual_risk").None? && p.Obj?
  {
    hide Get, Signature, Decision;
    var f := Approval(at).fields;
    assert |"approvals"| == 9 && |"release_decision"| == 16 && |"schema_version"| == 14 && |"version"| == 7 && |"target"| == 6;
    assert |"residual_risk"| == 13;
    GetAt(f, "approvals", 0);
    GetAt(f, "release_decision", 1);
    GetNowhere(f, "residual_risk");
  }

  lemma ApprovalHeader(at: string)
    ensures I.HeaderPasses(Approval(at), RELEASE)
  {
    hide Get, Signature, Decision;
    var f := Approval(at).fields;
    assert |"approvals"| == 9 && |"release_decision"| == 16 && |"schema_version"| == 14 && |"version"| == 7 && |"target"| == 6;
    assert |"source_sha"| == 10;
    GetAt(f, "schema_version", 2);
    GetAt(f, "version", 3);
    GetAt(f, "target", 4);
    GetNowhere(f, "source_sha");
  }

  lemma SignatureHolds(role: string, at: string, clock: Clock)
    requires R.Parsed(Some(Json.Str(at)), clock).Some? && Strip(role) != []
    ensures R.Signed(Signature(role, at), clock)
  {
    SignatureIs(role, at);
    assert Strip("N") == "N";
    hide Field, Strip, R.Parsed, Signature;
  }

  lemma DecisionHolds(at: string, clock: Clock)
    requires R.Parsed(Some(Json.Str(at)), clock).Some?
    ensures R.DecisionHolds(Decision(at), clock, true)
  {
    DecisionIs(at);
    assert Strip("N") == "N" && Strip("R") == "R";
    hide Field, Strip, R.Parsed;
  }

  lemma TwoRoles(at: string)
    ensures R.RolesHold(R.Roles([Signature("release-owner", at), Signature("maintainer", at)]))
    ensures I.UniqueRoles([Signature("release-owner", at), Signature("maintainer", at)])
  {
    SignatureIs("release-owner", at);
    SignatureIs("maintainer", at);
    hide Field, TextAt;
    var both := [Signature("release-owner", at), Signature("maintainer", at)];
    assert both[0] in both && both[1] in both;
    assert R.Roles(both) == {"release-owner", "maintainer"};
    assert |"maintainer"| < |"release-owner"|;
  }

  lemma RolesAreTexts()
    ensures Strip("release-owner") != [] && Strip("maintainer") != []
  {
    StripTrimmed("release-owner");
    StripTrimmed("maintainer");
  }

  lemma SignaturesHold(at: string, clock: Clock)
    requires R.Parsed(Some(Json.Str(at)), clock).Some?
    ensures R.ApprovalsHold(Arr([Signature("release-owner", at), Signature("maintainer", at)]), clock, true)
  {
    hide R.Parsed, R.Signed, R.RolesHold, R.Roles, Signature;
    RolesAreTexts();
    SignatureHolds("release-owner", at, clock);
    SignatureHolds("maintainer", at, clock);
    TwoRoles(at);
  }

  /** The evidence gate passes the example whenever it can read its time. */
  lemma ExampleHolds(at: string, clock: Clock)
    requires R.Parsed(Some(Json.Str(at)), clock).Some?
    ensures R.Holds(R.Copied(R.NO_REVIEW, Approval(at)), clock, true)
  {
    hide Field, TextAt, Approval, R.Parsed, R.ApprovalsHold, R.DecisionHolds, R.RiskHolds, Signature, R.NO_REVIEW;
    ApprovalSections(at);
    SignaturesHold(at, clock);
    DecisionHolds(at, clock);
    DecisionIs(at);
    ExampleRisk(Decision(at), clock);
  }

  lemma ExampleRisk(decision: Json, clock: Clock)
    requires TextAt(decision, "status") == Some("approved")
    ensures R.RiskHolds(R.NO_REVIEW.risk, decision, clock, true)
  {
    NoRiskFields();
    hide Field, TextAt, R.NO_REVIEW, R.AcceptedInTime, R.Listed;
    assert |"approved"| < |"approved_with_residual_risk"|;
  }

  /** One blank behind the times: the evidence gate still passes the approval, its own validator refuses it, and without
      the blank both pass it. */
  lemma TrailingBlankParts(text: string, clock: Clock)
    requires IsoIsStrict(clock) && clock.iso(text).Some?
    ensures I.Passes(Approval(text + "Z"), RELEASE, clock, true) && R.Holds(R.Copied(R.NO_REVIEW, Approval(text + "Z")), clock, true)
    ensures !I.Passes(Approval(text + "Z "), RELEASE, clock, true) && R.Holds(R.Copied(R.NO_REVIEW, Approval(text + "Z ")), clock, true)
  {
    var plain, blank := text + "Z", text + "Z ";
    BlankIsStripped(text, clock);
    hide I.Passes, R.Holds, IsoIsStrict, Approval, InputOnly, R.Parsed;
    ExampleHolds(plain, clock);
    ExampleHolds(blank, clock);
    ExampleMeets(plain);
    ExampleIsNotTrimmed(blank);
    GatesAgree(Approval(plain), RELEASE, clock, true);
    GatesAgree(Approval(blank), RELEASE, clock, true);
  }

  lemma BlankIsStripped(text: string, clock: Clock)
    requires IsoIsStrict(clock) && clock.iso(text).Some?
    ensures Trimmed(text + "Z") && text + "Z" != [] && !Trimmed(text + "Z ")
    ensures R.Parsed(Some(Json.Str(text + "Z")), clock).Some? && R.Parsed(Some(Json.Str(text + "Z ")), clock).Some?
  {
    var plain, blank := text + "Z", text + "Z ";
    assert text != [] && !IsSpace(text[0]);
    assert plain[0] == text[0] && plain[..|plain| - 1] == text;
    StripTrimmed(plain);
    assert blank == plain + " ";
    TrimRightAppend(plain, " ");
    assert blank[|blank| - 1] == ' ';
  }

  lemma ExampleMeets(at: string)
    requires Trimmed(at) && at != []
    ensures InputOnly(Approval(at), RELEASE, true)
  {
    hide Field, TextAt, Approval, Trimmed, Decision, Signature, I.UniqueRoles, I.HeaderPasses, TimesTrimmed,
         AcceptanceTrimmed, DecisionStated, R.RolesHold;
    ApprovalSections(at);
    ApprovalHeader(at);
    TwoRoles(at);
    ExampleTimes(at);
    DecisionIs(at);
    assert |"approved"| < |"approved_with_residual_risk"|;
  }

  lemma ExampleTimes(at: string)
    requires Trimmed(at) && at != []
    ensures TimesTrimmed([Signature("release-owner", at), Signature("maintainer", at)]) && DecisionStated(Approval(at))
  {
    StripTrimmed(at);
    assert Strip("N") == "N";
    hide Field, TextAt, Trimmed, Strip, Approval, Decision, Signature;
    ApprovalSections(at);
    SignatureIs("release-owner", at);
    SignatureIs("maintainer", at);
    DecisionIs(at);
    DecisionIsObject(at);
  }

  lemma DecisionIsObject(at: string)
    ensures Decision(at).Obj?
  {
  }

  lemma ExampleIsNotTrimmed(at: string)
    requires !Trimmed(at)
    ensures !InputOnly(Approval(at), RELEASE, true)
  {
    hide Field, TextAt, Trimmed, Approval, Decision;
    ApprovalSections(at);
    DecisionIs(at);
    assert !IsTrimmed(Some(Json.Str(at)));
    assert !DecisionStated(Approval(at));
  }
}

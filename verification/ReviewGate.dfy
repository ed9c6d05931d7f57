/** The release review in the evidence: the sections copied from an approval, and the gate of `release-evidence.py`. */
module ReviewGate {
  import opened PyText
  import opened Json
  import opened Reporting
  import opened Timestamps

  // ---------------------------------------------------------------- the sections

  datatype Sections = Sections(approvals: Json, risk: Json, decision: Json)

  /** The three sections of fresh evidence. */
  const NO_REVIEW: Sections :=
    Sections(Arr([]),
             Obj([Member("status", Json.Str("none")), Member("items", Arr([])), Member("accepted_by", Null), Member("accepted_at", Null),
                  Member("expires_at", Null)]),
             Obj([Member("status", Json.Str("blocked")), Member("decided_by", Null), Member("decided_at", Null),
                  Member("rationale", Json.Str("Evidence has not been reviewed."))]))

  function Copied(s: Sections, p: Json): Sections {
    Sections(if IsList(Field(p, "approvals")) then Field(p, "approvals").value else s.approvals,
             if IsObject(Field(p, "residual_risk")) then Field(p, "residual_risk").value else s.risk,
             if IsObject(Field(p, "release_decision")) then Field(p, "release_decision").value else s.decision)
  }

  class Evidence {
    var sections: Sections

    constructor ()
      ensures sections == NO_REVIEW
    {
      var risk := [Member("status", Json.Str("none")), Member("items", Arr([])), Member("accepted_by", Null), Member("accepted_at", Null),
                   Member("expires_at", Null)];
      var decision := [Member("status", Json.Str("blocked")), Member("decided_by", Null), Member("decided_at", Null),
                       Member("rationale", Json.Str("Evidence has not been reviewed."))];
      sections := Sections(Arr([]), Obj(risk), Obj(decision));
    }

    /** The part of `apply_release_inputs` that copies an approval's sections. */
    method ApplyApprovals(p: Json)
      modifies this
      ensures sections == Copied(old(sections), p)
    {
      var approvals, risk, decision := Field(p, "approvals"), Field(p, "residual_risk"), Field(p, "release_decision");
      if approvals.Some? && approvals.value.Arr? {
        sections := sections.(approvals := approvals.value);
      }
      if risk.Some? && risk.value.Obj? {
        sections := sections.(risk := risk.value);
      }
      if decision.Some? && decision.value.Obj? {
        sections := sections.(decision := decision.value);
      }
    }
  }

  // ---------------------------------------------------------------- what holds

  /** `parse_timestamp`: the text without the white space around it. */
  function Parsed(v: Option<Json>, clock: Clock): Option<int> {
    if NonBlank(v) then Instant(Strip(v.value.s), clock) else None
  }

  predicate TimeHolds(v: Option<Json>, required: bool, clock: Clock) {
    (!required && IsNone(v)) || Parsed(v, clock).Some?
  }

  const NO_RISK := Some("none")
  const ACCEPTED := Some("accepted")
  const BLOCKED := Some("blocked")
  const APPROVED := Some("approved")
  const APPROVED_WITH_RISK := Some("approved_with_residual_risk")

  const SIGNATURE := ["role", "name", "approved_at"]
  const RATIONALE := ["decided_by", "decided_at", "rationale"]
  const RISK := ["id", "severity", "description", "mitigation", "owner", "ticket"]
  const ACCEPTANCE := ["accepted_by", "accepted_at", "expires_at"]

  predicate Signed(a: Json, clock: Clock) {
    && a.Obj? && HasTexts(a, SIGNATURE) && TimeHolds(Field(a, "approved_at"), true, clock)
    && (Field(a, "ticket").Some? ==> NonBlank(Field(a, "ticket")))
  }

  function Roles(approvals: seq<Json>): set<string> {
    set a | a in approvals && a.Obj? && TextAt(a, "role").Some? :: TextAt(a, "role").value
  }

  predicate RolesHold(roles: set<string>) {
    "release-owner" in roles && ("maintainer" in roles || "security-compliance" in roles) && |roles| >= 2
  }

  predicate ApprovalsHold(approvals: Json, clock: Clock, requirePass: bool) {
    && approvals.Arr? && (forall i :: 0 <= i < |approvals.items| ==> Signed(approvals.items[i], clock))
    && (requirePass ==> approvals.items != [] && RolesHold(Roles(approvals.items)))
  }

  predicate Listed(item: Json) {
    item.Obj? && HasTexts(item, RISK)
  }

  /** The risks are accepted by someone, and for longer than now. */
  predicate AcceptedInTime(risk: Json, clock: Clock) {
    && HasTexts(risk, ACCEPTANCE) && TimeHolds(Field(risk, "accepted_at"), true, clock) && TimeHolds(Field(risk, "expires_at"), true, clock)
    && Parsed(Field(risk, "expires_at"), clock).value > clock.now
  }

  /** A release with these risks may go out under this decision. */
  predicate RiskCleared(risk: Json, decision: Json, clock: Clock)
    requires IsList(Field(risk, "items"))
  {
    var status, decided, items := TextAt(risk, "status"), TextAt(decision, "status"), Field(risk, "items").value.items;
    && status != BLOCKED
    && (decided == APPROVED ==> status == NO_RISK && items == [])
    && (decided == APPROVED_WITH_RISK ==> status == ACCEPTED && items != [] && AcceptedInTime(risk, clock))
  }

  predicate RiskHolds(risk: Json, decision: Json, clock: Clock, requirePass: bool) {
    var items := Field(risk, "items");
    && risk.Obj? && TextAt(risk, "status") in [NO_RISK, ACCEPTED, BLOCKED]
    && IsList(items) && (forall i :: 0 <= i < |items.value.items| ==> Listed(items.value.items[i]))
    && (requirePass ==> RiskCleared(risk, decision, clock))
  }

  /** A text where one is required, and otherwise no field or a text. */
  predicate TextHolds(v: Option<Json>, required: bool) {
    (!required && IsNone(v)) || NonBlank(v)
  }

  predicate DecisionHolds(d: Json, clock: Clock, requirePass: bool) {
    && d.Obj? && TextAt(d, "status") in [APPROVED, APPROVED_WITH_RISK, BLOCKED]
    && (forall i :: 0 <= i < |RATIONALE| ==> TextHolds(Field(d, RATIONALE[i]), requirePass || RATIONALE[i] == "rationale"))
    && TimeHolds(Field(d, "decided_at"), requirePass, clock)
    && (requirePass ==> TextAt(d, "status") in [APPROVED, APPROVED_WITH_RISK])
  }

  predicate Holds(s: Sections, clock: Clock, requirePass: bool) {
    && ApprovalsHold(s.approvals, clock, requirePass) && DecisionHolds(s.decision, clock, requirePass)
    && RiskHolds(s.risk, s.decision, clock, requirePass)
  }

  // ---------------------------------------------------------------- the gate

  method CheckString(v: Validation, path: string, value: Option<Json>)
    modifies v
    ensures old(v.errors) <= v.errors
    ensures v.errors == old(v.errors) <==> NonBlank(value)
  {
    hide Strip;
    if value.None? || !value.value.Str? || |Strip(value.value.s)| == 0 {
      v.Error(path, "must be a non-empty string");
    }
  }

  method CheckStrings(v: Validation, path: string, value: Json, fields: seq<string>)
    modifies v
    ensures old(v.errors) <= v.errors
    ensures v.errors == old(v.errors) <==> HasTexts(value, fields)
  {
    hide NonBlank, Field;
    for i := 0 to |fields|
      invariant old(v.errors) <= v.errors
      invariant v.errors == old(v.errors) <==> forall k :: 0 <= k < i ==> NonBlank(Field(value, fields[k]))
    {
      CheckString(v, path + "." + fields[i], Field(value, fields[i]));
    }
  }

  method ParseTimestamp(v: Validation, path: string, value: Option<Json>, required: bool, clock: Clock) returns (time: Option<int>)
    modifies v
    ensures old(v.errors) <= v.errors
    ensures time == Parsed(value, clock)
    ensures v.errors == old(v.errors) <==> TimeHolds(value, required, clock)
  {
    hide Strip;
    if !required && (value.None? || value.value.Null?) {
      return None;
    }
    if !NonBlank(value) {
      v.Error(path, "must be an ISO-8601 UTC timestamp");
      return None;
    }
    var text := Strip(value.value.s);
    if text == [] || text[|text| - 1] != 'Z' {
      v.Error(path, "must use UTC Z suffix");
      return None;
    }
    time := clock.iso(text[..|text| - 1]);
    if time.None? {
      v.Error(path, "must be an ISO-8601 UTC timestamp");
    }
  }

  method ValidateApproval(v: Validation, path: string, a: Json, clock: Clock)
    modifies v
    ensures old(v.errors) <= v.errors
    ensures v.errors == old(v.errors) <==> Signed(a, clock)
  {
    hide HasTexts, TimeHolds, NonBlank, Field, Parsed;
    if !a.Obj? {
      v.Error(path, "must be an object");
      return;
    }
    CheckStrings(v, path, a, SIGNATURE);
    var _ := ParseTimestamp(v, path + ".approved_at", Field(a, "approved_at"), true, clock);
    if Field(a, "ticket").Some? {
      CheckString(v, path + ".ticket", Field(a, "ticket"));
    }
  }

  method ValidateRoles(v: Validation, roles: set<string>)
    modifies v
    ensures old(v.errors) <= v.errors
    ensures v.errors == old(v.errors) <==> RolesHold(roles)
  {
    if "release-owner" !in roles {
      v.Error("$.approvals", "must include release-owner approval");
    }
    if "maintainer" !in roles && "security-compliance" !in roles {
      v.Error("$.approvals", "must include maintainer or security-compliance approval");
    }
    if |roles| < 2 {
      v.Error("$.approvals", "must include at least two distinct approval roles");
    }
  }

  method ValidateApprovals(v: Validation, approvals: Json, clock: Clock, requirePass: bool)
    modifies v
    ensures old(v.errors) <= v.errors
    ensures v.errors == old(v.errors) <==> ApprovalsHold(approvals, clock, requirePass)
  {
    hide Signed, Roles, RolesHold, Decimal;
    if !approvals.Arr? {
      v.Error("$.approvals", "must be a list");
      return;
    }
    var items := approvals.items;
    for i := 0 to |items|
      invariant old(v.errors) <= v.errors
      invariant v.errors == old(v.errors) <==> forall k :: 0 <= k < i ==> Signed(items[k], clock)
    {
      ValidateApproval(v, "$.approvals[" + Decimal(i) + "]", items[i], clock);
    }
    if requirePass && items == [] {
      v.Error("$.approvals", "must include at least one approval");
    }
    if requirePass {
      ValidateRoles(v, Roles(items));
    }
  }

  method ValidateItems(v: Validation, field: Option<Json>)
    modifies v
    ensures old(v.errors) <= v.errors
    ensures v.errors == old(v.errors) <==> IsList(field) && forall i :: 0 <= i < |field.value.items| ==> Listed(field.value.items[i])
  {
    hide HasTexts;
    if field.None? || !field.value.Arr? {
      v.Error("$.residual_risk.items", "must be a list");
      return;
    }
    var items := field.value.items;
    for i := 0 to |items|
      invariant old(v.errors) <= v.errors
      invariant v.errors == old(v.errors) <==> forall k :: 0 <= k < i ==> Listed(items[k])
    {
      var path := "$.residual_risk.items[" + Decimal(i) + "]";
      if !items[i].Obj? {
        v.Error(path, "must be an object");
        continue;
      }
      CheckStrings(v, path, items[i], RISK);
    }
  }

  method ValidateAcceptance(v: Validation, risk: Json, clock: Clock)
    modifies v
    ensures old(v.errors) <= v.errors
    ensures v.errors == old(v.errors) <==> AcceptedInTime(risk, clock)
  {
    hide HasTexts, Parsed, Field;
    CheckStrings(v, "$.residual_risk", risk, ACCEPTANCE);
    var _ := ParseTimestamp(v, "$.residual_risk.accepted_at", Field(risk, "accepted_at"), true, clock);
    var expires := ParseTimestamp(v, "$.residual_risk.expires_at", Field(risk, "expires_at"), true, clock);
    if expires.Some? && expires.value <= clock.now {
      v.Error("$.residual_risk.expires_at", "must be in the future");
    }
  }

  method ValidateApproved(v: Validation, status: Option<string>, items: seq<Json>)
    modifies v
    ensures old(v.errors) <= v.errors
    ensures v.errors == old(v.errors) <==> status == NO_RISK && items == []
  {
    hide NO_RISK;
    if status != NO_RISK {
      v.Error("$.residual_risk.status", "must be none");
    }
    if items != [] {
      v.Error("$.residual_risk.items", "must be empty");
    }
  }

  method ValidateApprovedWithRisk(v: Validation, risk: Json, status: Option<string>, items: seq<Json>, clock: Clock)
    modifies v
    ensures old(v.errors) <= v.errors
    ensures v.errors == old(v.errors) <==> status == ACCEPTED && items != [] && AcceptedInTime(risk, clock)
  {
    hide AcceptedInTime, ACCEPTED;
    if status != ACCEPTED {
      v.Error("$.residual_risk.status", "must be accepted");
    }
    if items == [] {
      v.Error("$.residual_risk.items", "must list accepted residual risks");
    }
    ValidateAcceptance(v, risk, clock);
  }

  method ValidateClearance(v: Validation, risk: Json, items: seq<Json>, decision: Json, clock: Clock)
    requires IsList(Field(risk, "items")) ==> items == Field(risk, "items").value.items
    modifies v
    ensures old(v.errors) <= v.errors
    ensures IsList(Field(risk, "items")) ==> (v.errors == old(v.errors) <==> RiskCleared(risk, decision, clock))
  {
    hide AcceptedInTime, TextAt, Field, NO_RISK, ACCEPTED, BLOCKED, APPROVED, APPROVED_WITH_RISK;
    var status, decided := TextAt(risk, "status"), TextAt(decision, "status");
    if status == BLOCKED {
      v.Error("$.residual_risk.status", "must not be blocked");
    }
    if decided == APPROVED {
      ValidateApproved(v, status, items);
    }
    if decided == APPROVED_WITH_RISK {
      ValidateApprovedWithRisk(v, risk, status, items, clock);
    }
  }

  method ValidateResidualRisk(v: Validation, risk: Json, decision: Json, clock: Clock, requirePass: bool)
    modifies v
    ensures old(v.errors) <= v.errors
    ensures v.errors == old(v.errors) <==> RiskHolds(risk, decision, clock, requirePass)
  {
    hide Listed, RiskCleared, TextAt, Field, NO_RISK, ACCEPTED, BLOCKED;
    if !risk.Obj? {
      v.Error("$.residual_risk", "must be an object");
      return;
    }
    if TextAt(risk, "status") !in [NO_RISK, ACCEPTED, BLOCKED] {
      v.Error("$.residual_risk.status", "must be one of: accepted, blocked, none");
    }
    var field := Field(risk, "items");
    ValidateItems(v, field);
    if requirePass {
      ValidateClearance(v, risk, if field.Some? && field.value.Arr? then field.value.items else [], decision, clock);
    }
  }

  method ValidateReleaseDecision(v: Validation, d: Json, clock: Clock, requirePass: bool)
    modifies v
    ensures old(v.errors) <= v.errors
    ensures v.errors == old(v.errors) <==> DecisionHolds(d, clock, requirePass)
  {
    hide NonBlank, TimeHolds, Parsed, TextAt, Field, RATIONALE, BLOCKED, APPROVED, APPROVED_WITH_RISK;
    if !d.Obj? {
      v.Error("$.release_decision", "must be an object");
      return;
    }
    var status := TextAt(d, "status");
    if status !in [APPROVED, APPROVED_WITH_RISK, BLOCKED] {
      v.Error("$.release_decision.status", "must be one of: approved, approved_with_residual_risk, blocked");
    }
    ghost var before := v.errors;
    for i := 0 to |RATIONALE|
      invariant before <= v.errors
      invariant v.errors == before <==> forall k :: 0 <= k < i ==> TextHolds(Field(d, RATIONALE[k]), requirePass || RATIONALE[k] == "rationale")
    {
      var required := requirePass || RATIONALE[i] == "rationale";
      var value := Field(d, RATIONALE[i]);
      if required || (value.Some? && !value.value.Null?) {
        CheckString(v, "$.release_decision." + RATIONALE[i], value);
      }
    }
    var _ := ParseTimestamp(v, "$.release_decision.decided_at", Field(d, "decided_at"), requirePass, clock);
    if requirePass && status !in [APPROVED, APPROVED_WITH_RISK] {
      v.Error("$.release_decision.status", "must be approved for release-ready evidence");
    }
  }

  /** The three checks of the review, as the evidence validator calls them. */
  method ValidateReview(v: Validation, s: Sections, clock: Clock, requirePass: bool)
    modifies v
    ensures old(v.errors) <= v.errors
    ensures v.errors == old(v.errors) <==> Holds(s, clock, requirePass)
  {
    hide ApprovalsHold, RiskHolds, DecisionHolds;
    ValidateApprovals(v, s.approvals, clock, requirePass);
    ValidateReleaseDecision(v, s.decision, clock, requirePass);
    ValidateResidualRisk(v, s.risk, s.decision, clock, requirePass);
  }
}

/** The validator of approval inputs, `release_approval.py`. */
module ApprovalInput {
  import opened PyText
  import opened Hashing
  import opened Json
  import opened Timestamps

  datatype Expected = Expected(version: string, target: string, sourceSha: Option<string>)

  // ---------------------------------------------------------------- what passes

  predicate HeaderPasses(p: Json, e: Expected) {
    var source := Field(p, "source_sha");
    && TextAt(p, "schema_version") == Some("suderra.release-approval.v2") && TextAt(p, "version") == Some(e.version)
    && TextAt(p, "target") == Some(e.target)
    && (if IsNone(source) then e.sourceSha.None?
        else source.value.Str? && IsHex(source.value.s, 40) && (e.sourceSha.Some? ==> source.value.s == e.sourceSha.value))
  }

  /** `_timestamp`: the text as it is. */
  function Time(v: Option<Json>, clock: Clock): Option<int> {
    if v.Some? && v.value.Str? then Instant(v.value.s, clock) else None
  }

  const APPROVAL_FIELDS := ["role", "name", "approved_at"]
  const DECISION_FIELDS := ["decided_by", "decided_at", "rationale"]
  const ITEM_FIELDS := ["id", "severity", "description", "mitigation", "owner", "ticket"]
  const ACCEPTANCE_FIELDS := ["accepted_by", "accepted_at", "expires_at"]

  predicate ApprovalPasses(a: Json, clock: Clock) {
    && a.Obj? && HasTexts(a, APPROVAL_FIELDS) && Time(Field(a, "approved_at"), clock).Some?
    && (Field(a, "ticket").Some? ==> NonBlank(Field(a, "ticket")))
  }

  function SeenRoles(approvals: seq<Json>): set<string> {
    set a | a in approvals && TextAt(a, "role").Some? :: TextAt(a, "role").value
  }

  predicate UniqueRoles(approvals: seq<Json>) {
    forall i, j :: 0 <= i < j < |approvals| && TextAt(approvals[i], "role").Some? ==> TextAt(approvals[i], "role") != TextAt(approvals[j], "role")
  }

  predicate EachPasses(approvals: seq<Json>, clock: Clock) {
    UniqueRoles(approvals) && forall i :: 0 <= i < |approvals| ==> ApprovalPasses(approvals[i], clock)
  }

  predicate RolesPass(seen: set<string>) {
    "release-owner" in seen && {"maintainer", "security-compliance"} * seen != {} && |seen| >= 2
  }

  predicate ApprovalsPass(v: Option<Json>, clock: Clock, requirePass: bool) {
    IsList(v) && EachPasses(v.value.items, clock) && (requirePass ==> v.value.items != [] && RolesPass(SeenRoles(v.value.items)))
  }

  /** `payload.get("release_decision")` */
  function DecisionOf(p: Json): Json {
    if Field(p, "release_decision").Some? then Field(p, "release_decision").value else Null
  }

  predicate Approves(status: Option<string>) {
    status == Some("approved") || status == Some("approved_with_residual_risk")
  }

  predicate DecisionPasses(d: Json, clock: Clock, requirePass: bool) {
    var status := TextAt(d, "status");
    && d.Obj? && (Approves(status) || status == Some("blocked")) && HasTexts(d, DECISION_FIELDS)
    && Time(Field(d, "decided_at"), clock).Some? && (requirePass ==> Approves(status))
  }

  const NO_RISK: Json := Obj([Member("status", Json.Str("none")), Member("items", Arr([]))])

  /** `payload.get("residual_risk", {"status": "none", "items": []})` */
  function RiskOf(p: Json): Json {
    if Field(p, "residual_risk").Some? then Field(p, "residual_risk").value else NO_RISK
  }

  predicate ItemPasses(item: Json) {
    item.Obj? && HasTexts(item, ITEM_FIELDS)
  }

  predicate ItemsPass(v: Option<Json>) {
    IsList(v) && forall i :: 0 <= i < |v.value.items| ==> ItemPasses(v.value.items[i])
  }

  predicate AcceptancePasses(risk: Json, clock: Clock) {
    var expires := Time(Field(risk, "expires_at"), clock);
    HasTexts(risk, ACCEPTANCE_FIELDS) && Time(Field(risk, "accepted_at"), clock).Some? && expires.Some? && expires.value > clock.now
  }

  /** The residual risk goes with an approval. */
  predicate RiskFits(risk: Json, decision: Option<string>, clock: Clock)
    requires IsList(Field(risk, "items"))
  {
    var status, items := TextAt(risk, "status"), Field(risk, "items").value.items;
    && (decision == Some("approved") ==> status == Some("none") && items == [])
    && (decision == Some("approved_with_residual_risk") ==> status == Some("accepted") && items != [] && AcceptancePasses(risk, clock))
    && status != Some("blocked")
  }

  predicate RiskPasses(risk: Json, decision: Option<string>, clock: Clock, requirePass: bool) {
    var status := TextAt(risk, "status");
    && risk.Obj? && (status == Some("none") || status == Some("accepted") || status == Some("blocked"))
    && ItemsPass(Field(risk, "items")) && (requirePass ==> RiskFits(risk, decision, clock))
  }

  predicate Passes(p: Json, e: Expected, clock: Clock, requirePass: bool) {
    && p.Obj? && HeaderPasses(p, e) && ApprovalsPass(Field(p, "approvals"), clock, requirePass)
    && DecisionPasses(DecisionOf(p), clock, requirePass)
    && RiskPasses(RiskOf(p), TextAt(DecisionOf(p), "status"), clock, requirePass)
  }

  // ---------------------------------------------------------------- the validator

  /** `_string` on each of the fields. */
  method CheckTexts(v: Json, fields: seq<string>, path: string) returns (errors: seq<string>)
    ensures errors == [] <==> HasTexts(v, fields)
  {
    hide NonBlank, Field;
    errors := [];
    for i := 0 to |fields|
      invariant errors == [] <==> forall k :: 0 <= k < i ==> NonBlank(Field(v, fields[k]))
    {
      if !NonBlank(Field(v, fields[i])) {
        errors := errors + [path + "." + fields[i] + ": must be a non-empty string"];
      }
    }
  }

  /** `_timestamp`, required. */
  method CheckTime(v: Option<Json>, path: string, clock: Clock) returns (time: Option<int>, errors: seq<string>)
    ensures time == Time(v, clock)
    ensures errors == [] <==> time.Some?
  {
    if v.None? || !v.value.Str? || v.value.s == [] || v.value.s[|v.value.s| - 1] != 'Z' {
      return None, [path + ": must be an ISO-8601 UTC timestamp ending in Z"];
    }
    time := clock.iso(v.value.s[..|v.value.s| - 1]);
    errors := if time.Some? then [] else [path + ": must be an ISO-8601 UTC timestamp"];
  }

  method CheckApproval(a: Json, path: string, seen: set<string>, clock: Clock) returns (errors: seq<string>, roles: set<string>)
    ensures errors == [] <==> ApprovalPasses(a, clock) && (TextAt(a, "role").Some? ==> TextAt(a, "role").value !in seen)
    ensures roles == seen + if TextAt(a, "role").Some? then {TextAt(a, "role").value} else {}
  {
    hide HasTexts, NonBlank, Time;
    if !a.Obj? {
      return [path + ": must be an object"], seen;
    }
    errors := CheckTexts(a, APPROVAL_FIELDS, path);
    roles := seen;
    var role := TextAt(a, "role");
    if role.Some? {
      if role.value in seen {
        errors := errors + [path + ".role: must be unique within approvals"];
      }
      roles := roles + {role.value};
    }
    var _, more := CheckTime(Field(a, "approved_at"), path + ".approved_at", clock);
    errors := errors + more;
    if Field(a, "ticket").Some? {
      more := CheckTexts(a, ["ticket"], path);
      errors := errors + more;
      TicketAlone(a);
    }
  }

  lemma TicketAlone(a: Json)
    ensures HasTexts(a, ["ticket"]) <==> NonBlank(Field(a, "ticket"))
  {
    hide NonBlank, Field;
    assert ["ticket"][0] == "ticket";
  }

  lemma UniqueStep(front: seq<Json>, a: Json)
    ensures UniqueRoles(front + [a]) <==> UniqueRoles(front) && (TextAt(a, "role").Some? ==> TextAt(a, "role").value !in SeenRoles(front))
    ensures SeenRoles(front + [a]) == SeenRoles(front) + if TextAt(a, "role").Some? then {TextAt(a, "role").value} else {}
  {
    hide TextAt;
    var all := front + [a];
    assert all[|front|] == a;
    assert forall i :: 0 <= i < |front| ==> all[i] == front[i] && front[i] in front;
    if UniqueRoles(all) && TextAt(a, "role").Some? {
      forall r | r in SeenRoles(front)
        ensures r != TextAt(a, "role").value
      {
        var f :| f in front && TextAt(f, "role").Some? && TextAt(f, "role").value == r;
        var i :| 0 <= i < |front| && front[i] == f;
        assert TextAt(all[i], "role") != TextAt(all[|front|], "role");
      }
    }
  }

  method CheckRoles(seen: set<string>) returns (errors: seq<string>)
    ensures errors == [] <==> RolesPass(seen)
  {
    errors := if "release-owner" in seen then [] else ["$.approvals: must include release-owner approval"];
    if {"maintainer", "security-compliance"} * seen == {} {
      errors := errors + ["$.approvals: must include maintainer or security-compliance approval"];
    }
    if |seen| < 2 {
      errors := errors + ["$.approvals: must include at least two distinct approval roles"];
    }
  }

  method CheckApprovals(v: Option<Json>, clock: Clock, requirePass: bool) returns (errors: seq<string>)
    ensures errors == [] <==> ApprovalsPass(v, clock, requirePass)
  {
    hide ApprovalPasses, TextAt, UniqueRoles, SeenRoles, RolesPass, Decimal;
    var isList := v.Some? && v.value.Arr?;
    errors := if isList then [] else ["$.approvals: must be a list"];
    var approvals := if isList then v.value.items else [];
    if requirePass && approvals == [] {
      errors := errors + ["$.approvals: must not be empty"];
    }
    ghost var before := errors;
    var seen: set<string> := {};
    NoRoles();
    for i := 0 to |approvals|
      invariant seen == SeenRoles(approvals[..i])
      invariant errors == [] <==> before == [] && EachPasses(approvals[..i], clock)
    {
      assert approvals[..i + 1] == approvals[..i] + [approvals[i]];
      UniqueStep(approvals[..i], approvals[i]);
      var more;
      more, seen := CheckApproval(approvals[i], "$.approvals[" + Decimal(i) + "]", seen, clock);
      errors := errors + more;
    }
    assert approvals[..|approvals|] == approvals;
    if requirePass {
      var more := CheckRoles(seen);
      errors := errors + more;
    }
  }

  lemma NoRoles()
    ensures SeenRoles([]) == {} && UniqueRoles([])
  {
  }

  method CheckDecision(d: Json, clock: Clock, requirePass: bool) returns (errors: seq<string>)
    ensures errors == [] <==> DecisionPasses(d, clock, requirePass)
  {
    hide HasTexts, Time, TextAt, Field;
    errors := if d.Obj? then [] else ["$.release_decision: must be an object"];
    var status := TextAt(d, "status");
    if !Approves(status) && status != Some("blocked") {
      errors := errors + ["$.release_decision.status: must be approved, approved_with_residual_risk, or blocked"];
    }
    var more := CheckTexts(d, DECISION_FIELDS, "$.release_decision");
    errors := errors + more;
    var _, late := CheckTime(Field(d, "decided_at"), "$.release_decision.decided_at", clock);
    errors := errors + late;
    if requirePass && !Approves(status) {
      errors := errors + ["$.release_decision.status: must approve the release input"];
    }
  }

  method CheckItems(v: Option<Json>) returns (errors: seq<string>)
    ensures errors == [] <==> ItemsPass(v)
  {
    hide HasTexts;
    var isList := v.Some? && v.value.Arr?;
    errors := if isList then [] else ["$.residual_risk.items: must be a list"];
    var items := if isList then v.value.items else [];
    for i := 0 to |items|
      invariant errors == [] <==> IsList(v) && forall k :: 0 <= k < i ==> ItemPasses(items[k])
    {
      var path := "$.residual_risk.items[" + Decimal(i) + "]";
      if !items[i].Obj? {
        errors := errors + [path + ": must be an object"];
        continue;
      }
      var more := CheckTexts(items[i], ITEM_FIELDS, path);
      errors := errors + more;
    }
  }

  method CheckAcceptance(risk: Json, clock: Clock) returns (errors: seq<string>)
    ensures errors == [] <==> AcceptancePasses(risk, clock)
  {
    hide HasTexts, Time, Field;
    errors := CheckTexts(risk, ACCEPTANCE_FIELDS, "$.residual_risk");
    var _, more := CheckTime(Field(risk, "accepted_at"), "$.residual_risk.accepted_at", clock);
    errors := errors + more;
    var expires, late := CheckTime(Field(risk, "expires_at"), "$.residual_risk.expires_at", clock);
    errors := errors + late;
    if expires.Some? && expires.value <= clock.now {
      errors := errors + ["$.residual_risk.expires_at: must be in the future"];
    }
  }

  method CheckRiskFits(risk: Json, items: seq<Json>, decision: Option<string>, clock: Clock) returns (errors: seq<string>)
    requires IsList(Field(risk, "items")) ==> items == Field(risk, "items").value.items
    ensures IsList(Field(risk, "items")) ==> (errors == [] <==> RiskFits(risk, decision, clock))
  {
    hide AcceptancePasses, TextAt, Field;
    errors := [];
    var status := TextAt(risk, "status");
    if decision == Some("approved") {
      if status != Some("none") {
        errors := errors + ["$.residual_risk.status: must be none"];
      }
      if items != [] {
        errors := errors + ["$.residual_risk.items: must be empty"];
      }
    }
    if decision == Some("approved_with_residual_risk") {
      if status != Some("accepted") {
        errors := errors + ["$.residual_risk.status: must be accepted"];
      }
      if items == [] {
        errors := errors + ["$.residual_risk.items: must list risks"];
      }
      var more := CheckAcceptance(risk, clock);
      errors := errors + more;
    }
    if status == Some("blocked") {
      errors := errors + ["$.residual_risk.status: must not be blocked"];
    }
  }

  method CheckRisk(risk: Json, decision: Option<string>, clock: Clock, requirePass: bool) returns (errors: seq<string>)
    ensures errors == [] <==> RiskPasses(risk, decision, clock, requirePass)
  {
    hide ItemPasses, RiskFits, TextAt, Field;
    errors := if risk.Obj? then [] else ["$.residual_risk: must be an object"];
    var status := TextAt(risk, "status");
    if status != Some("none") && status != Some("accepted") && status != Some("blocked") {
      errors := errors + ["$.residual_risk.status: must be known"];
    }
    var field := Field(risk, "items");
    var more := CheckItems(field);
    errors := errors + more;
    if requirePass {
      more := CheckRiskFits(risk, if field.Some? && field.value.Arr? then field.value.items else [], decision, clock);
      errors := errors + more;
    }
  }

  method CheckHeader(p: Json, e: Expected) returns (errors: seq<string>)
    ensures errors == [] <==> HeaderPasses(p, e)
  {
    hide IsHex, Field;
    errors := if TextAt(p, "schema_version") == Some("suderra.release-approval.v2") then [] else ["$.schema_version: must be known"];
    if TextAt(p, "version") != Some(e.version) {
      errors := errors + ["$.version: must match " + e.version];
    }
    if TextAt(p, "target") != Some(e.target) {
      errors := errors + ["$.target: must match " + e.target];
    }
    var source := Field(p, "source_sha");
    if source.Some? && !source.value.Null? {
      if !source.value.Str? || !IsHex(source.value.s, 40) {
        errors := errors + ["$.source_sha: must be a lowercase git commit sha"];
      } else if e.sourceSha.Some? && source.value.s != e.sourceSha.value {
        errors := errors + ["$.source_sha: must match bound source sha " + e.sourceSha.value];
      }
    } else if e.sourceSha.Some? {
      errors := errors + ["$.source_sha: must be present when source binding is enforced"];
    }
  }

  /** `validate_approval_payload` */
  method ValidateApprovalPayload(p: Json, e: Expected, clock: Clock, requirePass: bool) returns (errors: seq<string>)
    ensures errors == [] <==> Passes(p, e, clock, requirePass)
  {
    hide HeaderPasses, ApprovalsPass, DecisionPasses, RiskPasses, Field, TextAt;
    if !p.Obj? {
      return ["approval input must be a JSON object"];
    }
    errors := CheckHeader(p, e);
    var more := CheckApprovals(Field(p, "approvals"), clock, requirePass);
    errors := errors + more;
    more := CheckDecision(DecisionOf(p), clock, requirePass);
    errors := errors + more;
    more := CheckRisk(RiskOf(p), TextAt(DecisionOf(p), "status"), clock, requirePass);
    errors := errors + more;
  }
}

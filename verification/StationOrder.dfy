/** The order of station events: what the validator's comparison of first positions means. */
module StationOrder {
  import opened PyText
  import Sorting

  // ---------------------------------------------------------------- first positions

  /** `list.index` */
  function IndexOf(roles: seq<string>, role: string): (i: nat)
    requires role in roles
    ensures i < |roles| && roles[i] == role && role !in roles[..i]
  {
    if roles[0] == role then 0 else 1 + IndexOf(roles[1..], role)
  }

  /** The first positions of the ordered roles that occur. */
  function Positions(order: seq<string>, roles: seq<string>): seq<nat> {
    if order == [] then []
    else Positions(order[..|order| - 1], roles)
         + (var last := order[|order| - 1]; if last in roles then [IndexOf(roles, last)] else [])
  }

  predicate Smaller(a: nat, b: nat) {
    a < b
  }

  function SortedPositions(positions: seq<nat>): seq<nat> {
    Sorting.Sort(positions, Smaller)
  }

  predicate Ascending(s: seq<nat>) {
    forall i, j :: 0 <= i < j < |s| ==> s[i] <= s[j]
  }

  lemma {:induction false} InsertKeepsAscending(x: nat, s: seq<nat>)
    requires Ascending(s)
    ensures Ascending(Sorting.Insert(x, s, Smaller))
  {
    if s != [] && !Smaller(x, s[0]) {
      var rest := Sorting.Insert(x, s[1..], Smaller);
      InsertKeepsAscending(x, s[1..]);
      forall i | 0 <= i < |rest|
        ensures s[0] <= rest[i]
      {
        InsertElements(x, s[1..], rest[i]);
      }
    }
  }

  lemma {:induction false} InsertElements(x: nat, s: seq<nat>, y: nat)
    requires y in Sorting.Insert(x, s, Smaller)
    ensures y == x || exists k :: 0 <= k < |s| && s[k] == y
  {
    if s != [] && !Smaller(x, s[0]) && y != s[0] {
      InsertElements(x, s[1..], y);
      if k :| 0 <= k < |s[1..]| && s[1..][k] == y {
        assert s[k + 1] == y;
      }
    }
  }

  lemma {:induction false} SortIsAscending(s: seq<nat>)
    ensures Ascending(SortedPositions(s))
  {
    if s != [] {
      SortIsAscending(s[..|s| - 1]);
      InsertKeepsAscending(s[|s| - 1], SortedPositions(s[..|s| - 1]));
    }
  }

  /** Inserting above everything appends. */
  lemma {:induction false} InsertLast(x: nat, s: seq<nat>)
    requires forall i :: 0 <= i < |s| ==> s[i] <= x
    ensures Sorting.Insert(x, s, Smaller) == s + [x]
  {
    if s != [] {
      InsertLast(x, s[1..]);
      assert s + [x] == [s[0]] + (s[1..] + [x]);
    }
  }

  /** A list equals its sorted form exactly if it ascends. */
  lemma {:induction false} SortedMeansAscending(s: seq<nat>)
    ensures SortedPositions(s) == s <==> Ascending(s)
  {
    SortIsAscending(s);
    if Ascending(s) && s != [] {
      SortedMeansAscending(s[..|s| - 1]);
      InsertLast(s[|s| - 1], s[..|s| - 1]);
    }
  }

  // ---------------------------------------------------------------- the validator

  /** An event: its role where that is a text, and whether the checks on the event alone pass. */
  datatype Event = Event(role: Option<string>, good: bool)

  function RolesOf(events: seq<Event>): seq<string> {
    if events == [] then []
    else RolesOf(events[..|events| - 1]) + if events[|events| - 1].role.Some? then [events[|events| - 1].role.value] else []
  }

  predicate Accepted(events: seq<Event>, order: seq<string>) {
    && events != [] && (forall i :: 0 <= i < |events| ==> events[i].good)
    && (forall i :: 0 <= i < |order| ==> order[i] in RolesOf(events))
    && SortedPositions(Positions(order, RolesOf(events))) == Positions(order, RolesOf(events))
  }

  method OrderPositions(order: seq<string>, roles: seq<string>) returns (positions: seq<nat>)
    ensures positions == Positions(order, roles)
  {
    positions := [];
    for i := 0 to |order|
      invariant positions == Positions(order[..i], roles)
    {
      assert order[..i + 1][..i] == order[..i];
      if order[i] in roles {
        positions := positions + [IndexOf(roles, order[i])];
      }
    }
    assert order[..|order|] == order;
  }

  /** The accumulation of roles in `validate_payload`; the required roles are those of the required order. */
  method ValidateEvents(events: seq<Event>, order: seq<string>) returns (errors: seq<string>)
    ensures errors == [] <==> Accepted(events, order)
  {
    if events == [] {
      return ["events must be a non-empty list"];
    }
    errors := [];
    var roles: set<string> := {};
    var orderedRoles: seq<string> := [];
    for i := 0 to |events|
      invariant errors == [] <==> forall k :: 0 <= k < i ==> events[k].good
      invariant orderedRoles == RolesOf(events[..i]) && forall r :: r in roles <==> r in orderedRoles
    {
      assert events[..i + 1][..i] == events[..i];
      if events[i].role.Some? {
        roles := roles + {events[i].role.value};
        orderedRoles := orderedRoles + [events[i].role.value];
      }
      if !events[i].good {
        errors := errors + ["event"];
      }
    }
    assert events[..|events|] == events;
    if exists i :: 0 <= i < |order| && order[i] !in roles {
      errors := errors + ["events missing required adapter roles"];
    }
    var positions := OrderPositions(order, orderedRoles);
    if positions != SortedPositions(positions) {
      errors := errors + ["events must preserve station acquisition order"];
    }
  }

  // ---------------------------------------------------------------- what acceptance means

  /** The roles occur in this order, at these strictly increasing places. */
  predicate Embeds(order: seq<string>, roles: seq<string>, places: seq<nat>) {
    && |places| == |order| && (forall i :: 0 <= i < |order| ==> places[i] < |roles| && roles[places[i]] == order[i])
    && forall i, j :: 0 <= i < j < |order| ==> places[i] < places[j]
  }

  predicate FirstAt(roles: seq<string>, role: string, place: nat) {
    place < |roles| && roles[place] == role && role !in roles[..place]
  }

  lemma {:induction false} PositionsAreFirst(order: seq<string>, roles: seq<string>)
    requires forall i :: 0 <= i < |order| ==> order[i] in roles
    ensures |Positions(order, roles)| == |order|
    ensures forall i :: 0 <= i < |order| ==> FirstAt(roles, order[i], Positions(order, roles)[i])
  {
    if order != [] {
      PositionsAreFirst(order[..|order| - 1], roles);
    }
  }

  /** With every ordered role there and the roles distinct, the comparison succeeds exactly if the first occurrences come
      in the required order. */
  lemma OrderMeansEmbedding(order: seq<string>, roles: seq<string>)
    requires Sorting.NoRepeats(order) && forall i :: 0 <= i < |order| ==> order[i] in roles
    ensures SortedPositions(Positions(order, roles)) == Positions(order, roles) <==> Embeds(order, roles, Positions(order, roles))
  {
    hide Positions, SortedPositions;
    PositionsAreFirst(order, roles);
    SortedMeansAscending(Positions(order, roles));
  }

  /** Accepted events run through the required roles in order: their first occurrences are strictly increasing places, so
      the required order is a subsequence of the events' roles. */
  lemma AcceptedEventsAreOrdered(events: seq<Event>, order: seq<string>) returns (places: seq<nat>)
    requires Accepted(events, order) && Sorting.NoRepeats(order)
    ensures Embeds(order, RolesOf(events), places)
    ensures forall i :: 0 <= i < |order| ==> FirstAt(RolesOf(events), order[i], places[i])
  {
    hide Positions, SortedPositions, RolesOf;
    places := Positions(order, RolesOf(events));
    PositionsAreFirst(order, RolesOf(events));
    OrderMeansEmbedding(order, RolesOf(events));
  }
}

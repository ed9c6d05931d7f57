/** The Buildroot timing log: pairing of start and end events, totals per package and per step, and the top lists. */
module BuildTimeLog {
  import opened PyText

  // ---------------------------------------------------------------- events

  datatype Event = Event(time: real, state: string, step: string, package: string)

  type Key = (string, string)

  function KeyOf(e: Event): Key {
    (e.package, e.step)
  }

  /** One log line, `time:state:step:package`. `toFloat` is Python's `float`, None where it raises. */
  function ParseLine(raw: string, toFloat: string -> Option<real>): Option<Event> {
    var i := Find(raw, ':');
    if i == |raw| then None
    else
      var r1 := raw[i + 1..];
      var j := Find(r1, ':');
      if j == |r1| then None
      else
        var r2 := r1[j + 1..];
        var k := Find(r2, ':');
        if k == |r2| || toFloat(raw[..i]).None? || Strip(r2[..k]) == [] || Strip(r2[k + 1..]) == [] then None
        else Some(Event(toFloat(raw[..i]).value, Strip(r1[..j]), Strip(r2[..k]), Strip(r2[k + 1..])))
  }

  /** The line in four parts, cut at its first three colons. */
  predicate Parts(raw: string, a: string, b: string, c: string, d: string) {
    raw == a + ":" + b + ":" + c + ":" + d && ':' !in a && ':' !in b && ':' !in c
  }

  /** The parts are those of the event: a readable time, then state, step and package, which white space may surround. */
  predicate Reads(a: string, b: string, c: string, d: string, toFloat: string -> Option<real>, e: Event) {
    && toFloat(a) == Some(e.time) && Strip(b) == e.state && Strip(c) == e.step && Strip(d) == e.package
    && e.step != [] && e.package != []
  }

  /** A line yields exactly the event of its parts, and none if it has no four parts, if its time cannot be read, or if its
      step or package is blank. */
  lemma LineMeans(raw: string, toFloat: string -> Option<real>, e: Event)
    ensures ParseLine(raw, toFloat) == Some(e) <==> exists a, b, c, d :: Parts(raw, a, b, c, d) && Reads(a, b, c, d, toFloat, e)
  {
    hide Strip, ParseLine, Parts, Reads;
    forall a, b, c, d | Parts(raw, a, b, c, d)
      ensures ParseLine(raw, toFloat) == Some(e) <==> Reads(a, b, c, d, toFloat, e)
    {
      PartsAreRead(raw, a, b, c, d, toFloat, e);
    }
    if ParseLine(raw, toFloat) == Some(e) {
      var a, b, c, d := EventHasParts(raw, toFloat);
    }
  }

  lemma PartsAreRead(raw: string, a: string, b: string, c: string, d: string, toFloat: string -> Option<real>, e: Event)
    requires Parts(raw, a, b, c, d)
    ensures ParseLine(raw, toFloat) == Some(e) <==> Reads(a, b, c, d, toFloat, e)
  {
    hide Strip, Find;
    var r2 := c + ":" + d;
    var r1 := b + ":" + r2;
    Chained(a, b, c, d);
    CutAtColon(raw, a, r1);
    CutAtColon(r1, b, r2);
    CutAtColon(r2, c, d);
  }

  lemma EventHasParts(raw: string, toFloat: string -> Option<real>) returns (a: string, b: string, c: string, d: string)
    requires ParseLine(raw, toFloat).Some?
    ensures Parts(raw, a, b, c, d)
  {
    hide ParseLine, Find;
    var r1, r2;
    HasThreeColons(raw, toFloat);
    a, r1 := UncutAtColon(raw);
    b, r2 := UncutAtColon(r1);
    c, d := UncutAtColon(r2);
    Substituted(raw, a, r1, b, r2, c, d);
  }

  lemma HasThreeColons(raw: string, toFloat: string -> Option<real>)
    requires ParseLine(raw, toFloat).Some?
    ensures Find(raw, ':') < |raw|
    ensures var r1 := raw[Find(raw, ':') + 1..];
            Find(r1, ':') < |r1| && (var r2 := r1[Find(r1, ':') + 1..]; Find(r2, ':') < |r2|)
  {
    hide Strip, Find;
  }

  lemma UncutAtColon(s: string) returns (front: string, back: string)
    requires Find(s, ':') < |s|
    ensures s == front + ":" + back && ':' !in front && back == s[Find(s, ':') + 1..]
  {
    hide Find;
    front, back := s[..Find(s, ':')], s[Find(s, ':') + 1..];
  }

  lemma Substituted(raw: string, a: string, r1: string, b: string, r2: string, c: string, d: string)
    requires raw == a + ":" + r1 && r1 == b + ":" + r2 && r2 == c + ":" + d
    ensures raw == a + ":" + b + ":" + c + ":" + d
  {
    Chained(a, b, c, d);
  }

  lemma Chained(a: string, b: string, c: string, d: string)
    ensures a + ":" + (b + ":" + (c + ":" + d)) == a + ":" + b + ":" + c + ":" + d
  {
  }

  lemma CutAtColon(s: string, front: string, back: string)
    requires ':' !in front && s == front + ":" + back
    ensures Find(s, ':') == |front| < |s| && s[..|front|] == front && s[|front| + 1..] == back
  {
    FindAt(s, ':', |front|);
  }

  /** A line as Buildroot writes it. */
  function PrintLine(time: string, e: Event): string {
    time + ":" + e.state + ":" + e.step + ":" + e.package
  }

  /** What can be written for an event: the package may hold colons. */
  predicate Prints(time: string, e: Event, toFloat: string -> Option<real>) {
    && toFloat(time) == Some(e.time) && ':' !in time && ':' !in e.state && ':' !in e.step
    && Trimmed(e.state) && Trimmed(e.step) && Trimmed(e.package) && e.step != [] && e.package != []
    && NoBreak(PrintLine(time, e))
  }

  lemma PrintedLineIsRead(time: string, e: Event, toFloat: string -> Option<real>)
    requires Prints(time, e, toFloat)
    ensures ParseLine(PrintLine(time, e), toFloat) == Some(e)
  {
    StripTrimmed(e.state);
    StripTrimmed(e.step);
    StripTrimmed(e.package);
    hide Strip, ParseLine;
    assert Parts(PrintLine(time, e), time, e.state, e.step, e.package);
    LineMeans(PrintLine(time, e), toFloat, e);
  }

  function PrintLog(times: seq<string>, es: seq<Event>): seq<string>
    requires |times| == |es|
  {
    seq(|es|, i requires 0 <= i < |es| => PrintLine(times[i], es[i]))
  }

  function Events(lines: seq<string>, toFloat: string -> Option<real>): seq<Event> {
    if lines == [] then []
    else
      var last := ParseLine(lines[|lines| - 1], toFloat);
      Events(lines[..|lines| - 1], toFloat) + if last.Some? then [last.value] else []
  }

  /** The log that is written for a list of events has just those events. */
  lemma PrintedLogIsRead(times: seq<string>, es: seq<Event>, toFloat: string -> Option<real>)
    requires |times| == |es| && forall i :: 0 <= i < |es| ==> Prints(times[i], es[i], toFloat)
    ensures Events(SplitLines(JoinLines(PrintLog(times, es))), toFloat) == es
  {
    SplitJoin(PrintLog(times, es));
    EventsOfLog(times, es, toFloat);
  }

  lemma {:induction false} EventsOfLog(times: seq<string>, es: seq<Event>, toFloat: string -> Option<real>)
    requires |times| == |es| && forall i :: 0 <= i < |es| ==> Prints(times[i], es[i], toFloat)
    ensures Events(PrintLog(times, es), toFloat) == es
  {
    hide ParseLine, PrintLine, Prints;
    if es != [] {
      var n := |es| - 1;
      EventsOfLog(times[..n], es[..n], toFloat);
      PrintedLineIsRead(times[n], es[n], toFloat);
      assert PrintLog(times, es)[..n] == PrintLog(times[..n], es[..n]);
      assert es == es[..n] + [es[n]];
    }
  }

  predicate Starts(e: Event, key: Key) {
    e.state == "start" && KeyOf(e) == key
  }

  predicate Ends(e: Event, key: Key) {
    e.state == "end" && KeyOf(e) == key
  }

  predicate SameKey(a: Event, b: Event) {
    a.package == b.package && a.step == b.step
  }

  /** The end event `j` closes the start event `i`: same package and step, and no start or end of these between them. */
  ghost predicate Pairs(es: seq<Event>, i: nat, j: nat) {
    && i < j < |es| && es[i].state == "start" && es[j].state == "end" && SameKey(es[i], es[j])
    && forall k :: i < k < j && SameKey(es[k], es[j]) ==> es[k].state != "start" && es[k].state != "end"
  }

  /** Before position `n`, the start event `i` of `key` is neither ended nor started over. */
  ghost predicate OpenAt(es: seq<Event>, key: Key, i: nat, n: nat) {
    i < n <= |es| && Starts(es[i], key) && forall k :: i < k < n ==> !Starts(es[k], key) && !Ends(es[k], key)
  }

  /** The start of `key` that is open before position `n`, found by looking backwards. */
  function OpenStart(es: seq<Event>, key: Key, n: nat): (r: Option<nat>)
    requires n <= |es|
    ensures r.Some? ==> OpenAt(es, key, r.value, n)
    ensures r.None? ==> forall i :: !OpenAt(es, key, i, n)
  {
    if n == 0 then None
    else if Starts(es[n - 1], key) then Some(n - 1)
    else if Ends(es[n - 1], key) then None
    else
      var r := OpenStart(es, key, n - 1);
      assert r.None? ==> forall i {:trigger OpenAt(es, key, i, n)} :: OpenAt(es, key, i, n) ==> OpenAt(es, key, i, n - 1);
      r
  }

  lemma OpenStartUnique(es: seq<Event>, key: Key, i: nat, n: nat)
    requires OpenAt(es, key, i, n)
    ensures OpenStart(es, key, n) == Some(i)
  {
    var j := OpenStart(es, key, n).value;
    if i < j || j < i {
      assert false;
    }
  }

  predicate Completes(es: seq<Event>, j: nat)
    requires j < |es|
  {
    es[j].state == "end" && OpenStart(es, KeyOf(es[j]), j).Some?
  }

  /** Seconds booked by event `j`: the time since the start it closes, and nothing for any other event. */
  function Duration(es: seq<Event>, j: nat): real
    requires j < |es|
  {
    if Completes(es, j) then Max(0.0, es[j].time - es[OpenStart(es, KeyOf(es[j]), j).value].time) else 0.0
  }

  function Max(a: real, b: real): real {
    if a < b then b else a
  }

  function Min(a: real, b: real): real {
    if b < a then b else a
  }

  // ---------------------------------------------------------------- totals

  function PackageTotal(es: seq<Event>, n: nat, package: string): real
    requires n <= |es|
  {
    if n == 0 then 0.0
    else PackageTotal(es, n - 1, package) + if es[n - 1].package == package then Duration(es, n - 1) else 0.0
  }

  function StepTotal(es: seq<Event>, n: nat, step: string): real
    requires n <= |es|
  {
    if n == 0 then 0.0 else StepTotal(es, n - 1, step) + if es[n - 1].step == step then Duration(es, n - 1) else 0.0
  }

  function Booked(es: seq<Event>, n: nat): real
    requires n <= |es|
  {
    if n == 0 then 0.0 else Booked(es, n - 1) + Duration(es, n - 1)
  }

  function CountState(es: seq<Event>, n: nat, state: string): nat
    requires n <= |es|
  {
    if n == 0 then 0 else CountState(es, n - 1, state) + if es[n - 1].state == state then 1 else 0
  }

  function CountCompleted(es: seq<Event>, n: nat): nat
    requires n <= |es|
  {
    if n == 0 then 0 else CountCompleted(es, n - 1) + if Completes(es, n - 1) then 1 else 0
  }

  /** Start events that replace a start of the same key still open. */
  function CountOverwritten(es: seq<Event>, n: nat): nat
    requires n <= |es|
  {
    if n == 0 then 0
    else
      CountOverwritten(es, n - 1)
      + if es[n - 1].state == "start" && OpenStart(es, KeyOf(es[n - 1]), n - 1).Some? then 1 else 0
  }

  ghost predicate Spans(es: seq<Event>, first: real, last: real) {
    && (forall i :: 0 <= i < |es| ==> first <= es[i].time <= last)
    && (es != [] ==> (exists i :: 0 <= i < |es| && es[i].time == first) && exists i :: 0 <= i < |es| && es[i].time == last)
  }

  /** Every booked duration lies between zero and the span of the log. */
  lemma DurationWithinSpan(es: seq<Event>, j: nat, first: real, last: real)
    requires j < |es| && Spans(es, first, last)
    ensures 0.0 <= Duration(es, j) <= last - first
  {
    var open := OpenStart(es, KeyOf(es[j]), j);
    if open.Some? {
      assert first <= es[open.value].time <= last;
    }
    assert first <= es[j].time <= last;
  }

  /** An event completes exactly when it ends a start that is open; that start is unique. */
  lemma CompletesMeansPairs(es: seq<Event>, j: nat)
    requires j < |es|
    ensures Completes(es, j) <==> exists i: nat :: Pairs(es, i, j)
    ensures forall i: nat :: Pairs(es, i, j) ==> Duration(es, j) == Max(0.0, es[j].time - es[i].time)
  {
    forall i: nat | Pairs(es, i, j)
      ensures OpenStart(es, KeyOf(es[j]), j) == Some(i)
    {
      OpenStartUnique(es, KeyOf(es[j]), i, j);
    }
    if Completes(es, j) {
      assert Pairs(es, OpenStart(es, KeyOf(es[j]), j).value, j);
    }
  }

  /** A start is closed by at most one end. */
  lemma PairsAreDisjoint(es: seq<Event>, i: nat, j: nat, k: nat)
    requires Pairs(es, i, j) && Pairs(es, i, k)
    ensures j == k
  {
    if j < k || k < j {
      assert false;
    }
  }

  ghost function Pick(m: map<string, real>): (k: string)
    requires m != map[]
    ensures k in m
  {
    assert m.Keys != {};
    var k :| k in m;
    k
  }

  ghost function Sum(m: map<string, real>): real
    decreases |m|
  {
    if m == map[] then 0.0 else m[Pick(m)] + Sum(m - {Pick(m)})
  }

  lemma {:induction false} SumWithout(m: map<string, real>, k: string)
    requires k in m
    ensures Sum(m) == m[k] + Sum(m - {k})
    decreases |m|
  {
    var j := Pick(m);
    if j != k {
      assert (m - {j} - {k}) == (m - {k} - {j});
      SumWithout(m - {j}, k);
      SumWithout(m - {k}, j);
    }
  }

  /** `mapping[k] += d` on a defaultdict. */
  function Add(m: map<string, real>, k: string, d: real): map<string, real> {
    m[k := (if k in m then m[k] else 0.0) + d]
  }

  lemma SumAdd(m: map<string, real>, k: string, d: real)
    ensures Sum(Add(m, k, d)) == Sum(m) + d
  {
    var m' := Add(m, k, d);
    SumWithout(m', k);
    assert m' - {k} == m - {k};
    if k in m {
      SumWithout(m, k);
    } else {
      assert m - {k} == m;
    }
  }

  // ---------------------------------------------------------------- the loop

  datatype Timing = Timing(
    totalSeconds: real, eventCount: nat, completed: nat, unmatchedStarts: nat, unmatchedEnds: nat,
    packageSeconds: map<string, real>, stepSeconds: map<string, real>)

  /** Both conservation laws: every end is completed or unmatched, every start is completed, still open or overwritten. */
  predicate Counted(es: seq<Event>, events: nat, completed: nat, stillOpen: nat, unmatchedEnds: nat) {
    && events == |es|
    && completed == CountCompleted(es, |es|)
    && completed + unmatchedEnds == CountState(es, |es|, "end")
    && CountState(es, |es|, "start") == completed + stillOpen + CountOverwritten(es, |es|)
  }

  function At(m: map<string, real>, k: string): real {
    if k in m then m[k] else 0.0
  }

  /** The totals per package and per step are those of the completed events, and both books sum to all of them. */
  ghost predicate Totalled(es: seq<Event>, packageSeconds: map<string, real>, stepSeconds: map<string, real>) {
    && (forall p :: At(packageSeconds, p) == PackageTotal(es, |es|, p))
    && (forall s :: At(stepSeconds, s) == StepTotal(es, |es|, s))
    && Sum(packageSeconds) == Booked(es, |es|) == Sum(stepSeconds)
  }

  /** `starts` holds, for each key, the time of the start that is open after all of `es`. */
  ghost predicate HoldsOpen(starts: map<Key, real>, es: seq<Event>) {
    forall key :: (key in starts <==> OpenStart(es, key, |es|).Some?)
                  && (key in starts ==> starts[key] == es[OpenStart(es, key, |es|).value].time)
  }

  lemma {:induction false} Prefix(es: seq<Event>, e: Event, n: nat)
    requires n <= |es|
    ensures forall key :: OpenStart(es + [e], key, n) == OpenStart(es, key, n)
    ensures CountCompleted(es + [e], n) == CountCompleted(es, n) && CountOverwritten(es + [e], n) == CountOverwritten(es, n)
    ensures forall s :: CountState(es + [e], n, s) == CountState(es, n, s)
    ensures forall s :: PackageTotal(es + [e], n, s) == PackageTotal(es, n, s) && StepTotal(es + [e], n, s) == StepTotal(es, n, s)
    ensures Booked(es + [e], n) == Booked(es, n)
  {
    if n > 0 {
      Prefix(es, e, n - 1);
      assert (es + [e])[n - 1] == es[n - 1];
    }
  }

  lemma NextOpen(starts: map<Key, real>, es: seq<Event>, e: Event)
    requires HoldsOpen(starts, es)
    ensures HoldsOpen(if e.state == "start" then starts[KeyOf(e) := e.time]
                      else if e.state == "end" then starts - {KeyOf(e)} else starts, es + [e])
  {
    Prefix(es, e, |es|);
    assert (es + [e])[|es|] == e;
    forall key
      ensures OpenStart(es + [e], key, |es| + 1)
              == (if Starts(e, key) then Some(|es|) else if Ends(e, key) then None else OpenStart(es, key, |es|))
    {
    }
  }

  lemma NothingYet()
    ensures Counted([], 0, 0, 0, 0) && Totalled([], map[], map[]) && HoldsOpen(map[], [])
  {
  }

  lemma PutSize(starts: map<Key, real>, key: Key, time: real)
    ensures |starts[key := time]| == |starts| + if key in starts then 0 else 1
  {
    assert starts[key := time].Keys == starts.Keys + {key};
  }

  lemma CountStart(es: seq<Event>, e: Event, starts: map<Key, real>, completed: nat, unmatchedEnds: nat)
    requires Counted(es, |es|, completed, |starts|, unmatchedEnds) && HoldsOpen(starts, es) && e.state == "start"
    ensures Counted(es + [e], |es| + 1, completed, |starts[KeyOf(e) := e.time]|, unmatchedEnds)
  {
    var key := KeyOf(e);
    assert key in starts <==> OpenStart(es, key, |es|).Some?;
    PutSize(starts, key, e.time);
    hide HoldsOpen, OpenStart, PackageTotal, StepTotal, Booked;
    Prefix(es, e, |es|);
    assert (es + [e])[|es|] == e;
  }

  lemma CountEnd(es: seq<Event>, e: Event, starts: map<Key, real>, completed: nat, unmatchedEnds: nat)
    requires Counted(es, |es|, completed, |starts|, unmatchedEnds) && HoldsOpen(starts, es)
    requires e.state == "end" && KeyOf(e) in starts
    ensures Counted(es + [e], |es| + 1, completed + 1, |starts - {KeyOf(e)}|, unmatchedEnds)
  {
    var key := KeyOf(e);
    assert OpenStart(es, key, |es|).Some?;
    assert (starts - {key}).Keys == starts.Keys - {key};
    hide HoldsOpen, OpenStart, PackageTotal, StepTotal, Booked;
    Prefix(es, e, |es|);
    assert (es + [e])[|es|] == e;
  }

  lemma CountSkipped(es: seq<Event>, e: Event, starts: map<Key, real>, completed: nat, unmatchedEnds: nat)
    requires Counted(es, |es|, completed, |starts|, unmatchedEnds) && HoldsOpen(starts, es)
    requires e.state != "start" && (e.state == "end" ==> KeyOf(e) !in starts)
    ensures Counted(es + [e], |es| + 1, completed, |starts|, unmatchedEnds + if e.state == "end" then 1 else 0)
  {
    Prefix(es, e, |es|);
    assert (es + [e])[|es|] == e;
  }

  lemma TotalSkipped(es: seq<Event>, e: Event, starts: map<Key, real>, packageSeconds: map<string, real>, stepSeconds: map<string, real>)
    requires Totalled(es, packageSeconds, stepSeconds) && HoldsOpen(starts, es) && (e.state == "end" ==> KeyOf(e) !in starts)
    ensures Totalled(es + [e], packageSeconds, stepSeconds)
  {
    Prefix(es, e, |es|);
    assert (es + [e])[|es|] == e;
    assert !Completes(es + [e], |es|);
    assert Duration(es + [e], |es|) == 0.0;
    hide Duration, OpenStart, HoldsOpen, Sum;
  }

  lemma TotalEnd(es: seq<Event>, e: Event, starts: map<Key, real>, packageSeconds: map<string, real>, stepSeconds: map<string, real>, d: real)
    requires Totalled(es, packageSeconds, stepSeconds) && HoldsOpen(starts, es)
    requires e.state == "end" && KeyOf(e) in starts && d == Max(0.0, e.time - starts[KeyOf(e)])
    ensures Totalled(es + [e], Add(packageSeconds, e.package, d), Add(stepSeconds, e.step, d))
  {
    Prefix(es, e, |es|);
    var es' := es + [e];
    assert es'[|es|] == e && Duration(es', |es|) == d;
    hide Duration, OpenStart, HoldsOpen, Sum;
    SumAdd(packageSeconds, e.package, d);
    SumAdd(stepSeconds, e.step, d);
    forall p
      ensures At(Add(packageSeconds, e.package, d), p) == PackageTotal(es', |es'|, p)
    {
      assert At(packageSeconds, p) == PackageTotal(es, |es|, p);
    }
    forall s
      ensures At(Add(stepSeconds, e.step, d), s) == StepTotal(es', |es'|, s)
    {
      assert At(stepSeconds, s) == StepTotal(es, |es|, s);
    }
  }

  lemma EventsNone(toFloat: string -> Option<real>)
    ensures Events([], toFloat) == []
  {
  }

  lemma EventsStep(lines: seq<string>, i: nat, toFloat: string -> Option<real>)
    requires i < |lines|
    ensures var last := ParseLine(lines[i], toFloat);
            Events(lines[..i + 1], toFloat) == if last.Some? then Events(lines[..i], toFloat) + [last.value] else Events(lines[..i], toFloat)
  {
    hide ParseLine;
    assert lines[..i + 1][..i] == lines[..i];
  }

  /** The first and last time stamp seen. */
  ghost predicate Seen(es: seq<Event>, first: Option<real>, last: Option<real>) {
    (es == [] <==> first.None?) && (es == [] <==> last.None?) && (es != [] ==> Spans(es, first.value, last.value))
  }

  /** The loop's variables after the events `es`. */
  ghost predicate Booking(es: seq<Event>, starts: map<Key, real>, completed: nat, unmatchedEnds: nat,
                          packageSeconds: map<string, real>, stepSeconds: map<string, real>) {
    Counted(es, |es|, completed, |starts|, unmatchedEnds) && Totalled(es, packageSeconds, stepSeconds) && HoldsOpen(starts, es)
  }

  lemma BookStart(es: seq<Event>, e: Event, starts: map<Key, real>, completed: nat, unmatchedEnds: nat,
                  packageSeconds: map<string, real>, stepSeconds: map<string, real>)
    requires Booking(es, starts, completed, unmatchedEnds, packageSeconds, stepSeconds) && e.state == "start"
    ensures Booking(es + [e], starts[KeyOf(e) := e.time], completed, unmatchedEnds, packageSeconds, stepSeconds)
  {
    hide Counted, Totalled, HoldsOpen, KeyOf;
    NextOpen(starts, es, e);
    CountStart(es, e, starts, completed, unmatchedEnds);
    TotalSkipped(es, e, starts, packageSeconds, stepSeconds);
  }

  lemma BookEnd(es: seq<Event>, e: Event, starts: map<Key, real>, completed: nat, unmatchedEnds: nat,
                packageSeconds: map<string, real>, stepSeconds: map<string, real>, d: real)
    requires Booking(es, starts, completed, unmatchedEnds, packageSeconds, stepSeconds)
    requires e.state == "end" && KeyOf(e) in starts && d == Max(0.0, e.time - starts[KeyOf(e)])
    ensures Booking(es + [e], starts - {KeyOf(e)}, completed + 1, unmatchedEnds,
                    Add(packageSeconds, e.package, d), Add(stepSeconds, e.step, d))
  {
    hide Counted, Totalled, HoldsOpen, KeyOf, Add;
    NextOpen(starts, es, e);
    CountEnd(es, e, starts, completed, unmatchedEnds);
    TotalEnd(es, e, starts, packageSeconds, stepSeconds, d);
  }

  lemma BookOther(es: seq<Event>, e: Event, starts: map<Key, real>, completed: nat, unmatchedEnds: nat,
                  packageSeconds: map<string, real>, stepSeconds: map<string, real>)
    requires Booking(es, starts, completed, unmatchedEnds, packageSeconds, stepSeconds)
    requires e.state != "start" && (e.state == "end" ==> KeyOf(e) !in starts)
    ensures Booking(es + [e], starts, completed, unmatchedEnds + if e.state == "end" then 1 else 0, packageSeconds, stepSeconds)
  {
    hide Counted, Totalled, HoldsOpen, KeyOf;
    NextOpen(starts, es, e);
    assert KeyOf(e) !in starts ==> starts - {KeyOf(e)} == starts;
    CountSkipped(es, e, starts, completed, unmatchedEnds);
    TotalSkipped(es, e, starts, packageSeconds, stepSeconds);
  }

  method ParseBuildTimeLog(text: string, toFloat: string -> Option<real>) returns (t: Timing)
    ensures var es := Events(SplitLines(text), toFloat);
            && Counted(es, t.eventCount, t.completed, t.unmatchedStarts, t.unmatchedEnds)
            && Totalled(es, t.packageSeconds, t.stepSeconds)
            && (if es == [] then t.totalSeconds == 0.0
                else exists first, last :: Spans(es, first, last) && t.totalSeconds == last - first)
  {
    hide Counted, Totalled, HoldsOpen, Spans, ParseLine, SplitLines, Add, Min, Events, Booking, Seen, KeyOf;
    var lines := SplitLines(text);
    var starts: map<Key, real> := map[];
    var packageSeconds: map<string, real>, stepSeconds: map<string, real> := map[], map[];
    var completed, unmatchedEnd, eventCount := 0, 0, 0;
    var firstTs: Option<real>, lastTs: Option<real> := None, None;
    ghost var es: seq<Event> := [];
    NothingBooked();
    EventsNone(toFloat);
    for i := 0 to |lines|
      invariant es == Events(lines[..i], toFloat) && eventCount == |es| && Seen(es, firstTs, lastTs)
      invariant Booking(es, starts, completed, unmatchedEnd, packageSeconds, stepSeconds)
    {
      var parsed := ParseLine(lines[i], toFloat);
      EventsStep(lines, i, toFloat);
      if parsed.None? {
        continue;
      }
      var e := parsed.value;
      SpanGrows(es, e, firstTs, lastTs);
      eventCount := eventCount + 1;
      firstTs := Some(if firstTs.None? then e.time else Min(firstTs.value, e.time));
      lastTs := Some(if lastTs.None? then e.time else Max(lastTs.value, e.time));
      var key := KeyOf(e);
      if e.state == "start" {
        BookStart(es, e, starts, completed, unmatchedEnd, packageSeconds, stepSeconds);
        starts := starts[key := e.time];
      } else if e.state == "end" && key in starts {
        var duration := Max(0.0, e.time - starts[key]);
        BookEnd(es, e, starts, completed, unmatchedEnd, packageSeconds, stepSeconds, duration);
        starts := starts - {key};
        packageSeconds := Add(packageSeconds, e.package, duration);
        stepSeconds := Add(stepSeconds, e.step, duration);
        completed := completed + 1;
      } else {
        BookOther(es, e, starts, completed, unmatchedEnd, packageSeconds, stepSeconds);
        if e.state == "end" {
          unmatchedEnd := unmatchedEnd + 1;
        }
      }
      es := es + [e];
    }
    assert lines[..|lines|] == lines;
    var totalSeconds := 0.0;
    if firstTs.Some? && lastTs.Some? {
      totalSeconds := Max(0.0, lastTs.value - firstTs.value);
    }
    SeenIsSpan(es, firstTs, lastTs);
    BookingMeans(es, starts, completed, unmatchedEnd, packageSeconds, stepSeconds);
    t := Timing(totalSeconds, eventCount, completed, |starts|, unmatchedEnd, packageSeconds, stepSeconds);
  }

  lemma NothingBooked()
    ensures Booking([], map[], 0, 0, map[], map[]) && Seen([], None, None)
  {
    NothingYet();
    hide Counted, Totalled, HoldsOpen;
  }

  lemma BookingMeans(es: seq<Event>, starts: map<Key, real>, completed: nat, unmatchedEnds: nat,
                     packageSeconds: map<string, real>, stepSeconds: map<string, real>)
    requires Booking(es, starts, completed, unmatchedEnds, packageSeconds, stepSeconds)
    ensures Counted(es, |es|, completed, |starts|, unmatchedEnds) && Totalled(es, packageSeconds, stepSeconds)
  {
    hide Counted, Totalled, HoldsOpen;
  }

  lemma SeenIsSpan(es: seq<Event>, first: Option<real>, last: Option<real>)
    requires Seen(es, first, last)
    ensures (es == [] <==> first.None?) && (es == [] <==> last.None?)
    ensures es != [] ==> Spans(es, first.value, last.value) && Max(0.0, last.value - first.value) == last.value - first.value
  {
    if es != [] {
      SpanNotNegative(es, first.value, last.value);
    }
    hide Spans;
  }

  lemma SpanGrows(es: seq<Event>, e: Event, first: Option<real>, last: Option<real>)
    requires Seen(es, first, last)
    ensures Seen(es + [e], Some(if first.None? then e.time else Min(first.value, e.time)),
                 Some(if last.None? then e.time else Max(last.value, e.time)))
  {
    var es' := es + [e];
    assert es'[|es|] == e;
    if es != [] {
      var i :| 0 <= i < |es| && es[i].time == first.value;
      var j :| 0 <= j < |es| && es[j].time == last.value;
      assert es'[i] == es[i] && es'[j] == es[j];
    }
  }

  lemma SpanNotNegative(es: seq<Event>, first: real, last: real)
    requires es != [] && Spans(es, first, last)
    ensures first <= last
  {
    assert first <= es[0].time <= last;
  }

  // ---------------------------------------------------------------- top lists

  type Ranked = (string, real)

  /** More seconds first; equal seconds in the order of the names. */
  predicate Before(a: Ranked, b: Ranked) {
    a.1 > b.1 || (a.1 == b.1 && Less(a.0, b.0))
  }

  predicate Sorted(s: seq<Ranked>) {
    forall i, j :: 0 <= i < j < |s| ==> Before(s[i], s[j])
  }

  function Insert(x: Ranked, s: seq<Ranked>): seq<Ranked> {
    if s == [] || Before(x, s[0]) then [x] + s else [s[0]] + Insert(x, s[1..])
  }

  lemma {:induction false} InsertSorted(x: Ranked, s: seq<Ranked>)
    requires Sorted(s) && forall i :: 0 <= i < |s| ==> s[i].0 != x.0
    ensures Sorted(Insert(x, s)) && |Insert(x, s)| == |s| + 1
    ensures forall y :: y in Insert(x, s) <==> y == x || y in s
  {
    if s != [] && !Before(x, s[0]) {
      LessTotal(x.0, s[0].0);
      InsertSorted(x, s[1..]);
      assert s == [s[0]] + s[1..];
      forall y | y in Insert(x, s[1..])
        ensures Before(s[0], y)
      {
      }
    } else if s != [] {
      forall i | 0 <= i < |s|
        ensures Before(x, s[i])
      {
        BeforeTransitive(x, s[0], s[i]);
      }
    }
  }

  lemma BeforeTransitive(a: Ranked, b: Ranked, c: Ranked)
    requires Before(a, b) && (b == c || Before(b, c))
    ensures Before(a, c)
  {
    if b != c && a.1 == b.1 == c.1 {
      LessTransitive(a.0, b.0, c.0);
    }
  }

  /** The twenty first entries of a book in that order: nothing left out comes before anything listed. */
  method Top(seconds: map<string, real>) returns (r: seq<Ranked>)
    ensures |r| == if |seconds| < 20 then |seconds| else 20
    ensures forall i, j :: 0 <= i < j < |r| ==> r[i].1 > r[j].1 || (r[i].1 == r[j].1 && Less(r[i].0, r[j].0))
    ensures forall x :: x in r ==> x.0 in seconds && seconds[x.0] == x.1
    ensures forall k, x :: k in seconds && (k, seconds[k]) !in r && x in r ==> x.1 > seconds[k] || (x.1 == seconds[k] && Less(x.0, k))
  {
    var all: seq<Ranked> := [];
    var names := seconds.Keys;
    while names != {}
      invariant names <= seconds.Keys && |all| + |names| == |seconds|
      invariant Sorted(all)
      invariant forall x :: x in all <==> x.0 in seconds && x.0 !in names && seconds[x.0] == x.1
    {
      var k :| k in names;
      InsertSorted((k, seconds[k]), all);
      all := Insert((k, seconds[k]), all);
      names := names - {k};
    }
    r := if |all| < 20 then all else all[..20];
    forall k, x | k in seconds && (k, seconds[k]) !in r && x in r
      ensures Before(x, (k, seconds[k]))
    {
      assert (k, seconds[k]) in all;
    }
  }
}

/** One Body pass with a semantic sibling output: the two host hooks it installs, what they capture, and the single
    admission they may lead to. */
module SemanticPass {
  import opened Wrappers
  import opened JsonValues

  datatype SourceRef = SourceRef(recordId: string, version: string)

  /** Prose and sibling output of one model message; the output may be any JSON value but null. */
  datatype Envelope = Envelope(prose: string, delta: Option<Json>)

  datatype Message = Message(id: nat, assistant: bool, toolCalls: bool, content: string)

  datatype Appended = Row(id: Option<int>) | AppendFailed

  datatype Looked = Found | NotFound | LookupFailed(code: string, commit: bool)

  datatype Admitted = Accepted(status: string) | Refused(code: string, commit: bool)

  /** What the conversation does while the hooks are installed, with the answers it meets: it appends a row, of the
      current session's user or not, or it persists its messages. */
  datatype Event =
    | Append(currentUser: bool, answer: Appended, source: Option<SourceRef>)
    | Persist(last: Option<Message>, looked: Looked, admitted: Admitted)

  datatype Status = Missing | Malformed | Replay | Committed(status: string) | Failed(code: string, commit: bool)

  datatype Submission = Submission(source: SourceRef, delta: Json)

  /** What the pass reports about the shape of the output. */
  datatype Counts = Counts(points: nat, dependencies: nat, deferred: nat)

  datatype Pass = Pass(
    native: Option<int>, source: Option<SourceRef>, prose: Option<string>, submitted: bool, processed: map<nat, string>,
    admissions: seq<Submission>, status: Status, counts: Counts)

  const FRESH := Pass(None, None, None, false, map[], [], Missing, Counts(0, 0, 0))

  datatype World = World(
    parse: string -> Envelope, decode: string -> Option<Json>, rowText: int -> string, guard: Option<string -> bool>)

  const SCOPE_MISMATCH := "SCOPE_MISMATCH"
  const INVALID_SCHEMA := "INVALID_SCHEMA"

  /** The source is read back right after the first current-session user row, and never again once that row has an id. */
  function OnAppend(s: Pass, currentUser: bool, answer: Appended, source: Option<SourceRef>): Pass {
    if currentUser && s.native.None? && answer.Row? then s.(native := answer.id, source := source) else s
  }

  /** The frozen source is that of the row the database gave this turn. */
  predicate Bound(w: World, s: Pass) {
    s.source.Some? && s.native.Some? && w.rowText(s.native.value) == s.source.value.recordId
  }

  // ---- counting what was submitted ---------------------------------------------------------

  function Lookup(fields: seq<Field>, key: string): Option<Json> {
    if fields == [] then None else if fields[0].key == key then Some(fields[0].value) else Lookup(fields[1..], key)
  }

  /** Subscripting with a text: only an object that has the key answers. */
  function At(v: Json, key: string): Option<Json> {
    if v.Object? then Lookup(v.fields, key) else None
  }

  /** What `len` answers. */
  function Length(v: Json): Option<nat> {
    match v
    case Text(s) => Some(|s|)
    case List(items) => Some(|items|)
    case Object(fields) => Some(|fields|)
    case _ => None
  }

  /** What iterating over a value with a length yields. */
  function Iterated(v: Json): seq<Json> {
    match v
    case Text(s) => seq(|s|, i requires 0 <= i < |s| => Text([s[i]]))
    case List(items) => items
    case Object(fields) => seq(|fields|, i requires 0 <= i < |fields| => Text(fields[i].key))
    case _ => []
  }

  predicate Truthy(v: Json) {
    match v
    case Null => false
    case Bool(b) => b
    case Number(n) => n != 0.0
    case Text(s) => s != ""
    case List(items) => items != []
    case Object(fields) => fields != []
  }

  /** The point defers, by its status or by a reference it leaves open. */
  predicate Defers(point: Json) {
    At(point, "status") == Some(Text("defer"))
    || (At(point, "unresolved_refs").Some? && Truthy(At(point, "unresolved_refs").value))
  }

  /** The number of deferring points, unless one of them has no status. */
  function DeferredIn(points: seq<Json>): Option<nat> {
    if points == [] then Some(0) else
    var last := points[|points| - 1];
    var sofar := DeferredIn(points[..|points| - 1]);
    if sofar.None? || At(last, "status").None? then None else Some(sofar.value + if Defers(last) then 1 else 0)
  }

  /** A text is decoded first; anything else is taken as it is. */
  function Decoded(w: World, delta: Json): Option<Json> {
    if delta.Text? then w.decode(delta.s) else Some(delta)
  }

  datatype Tallied = Tallied(counts: Counts, complete: bool)

  /** The counts are filled in one after the other, up to the first that fails. */
  function Tally(w: World, counts: Counts, delta: Json): Tallied {
    var payload := Decoded(w, delta);
    if payload.None? then Tallied(counts, false) else
    var points, dependencies := At(payload.value, "points"), At(payload.value, "dependencies");
    if points.None? || Length(points.value).None? then Tallied(counts, false) else
    var one := counts.(points := Length(points.value).value);
    if dependencies.None? || Length(dependencies.value).None? then Tallied(one, false) else
    var two := one.(dependencies := Length(dependencies.value).value);
    var deferred := DeferredIn(Iterated(points.value));
    if deferred.None? then Tallied(two, false) else Tallied(two.(deferred := deferred.value), true)
  }

  /** A payload with points and dependencies, every point an object with a status. An empty text or object also passes for
      points, and any text or object for dependencies. */
  predicate Shaped(payload: Json) {
    var points, dependencies := At(payload, "points"), At(payload, "dependencies");
    && points.Some? && dependencies.Some?
    && (dependencies.value.List? || dependencies.value.Text? || dependencies.value.Object?)
    && match points.value
       case List(items) => forall i | 0 <= i < |items| :: At(items[i], "status").Some?
       case Text(s) => s == ""
       case Object(fields) => fields == []
       case _ => false
  }

  /** The counted report of a decision about the output. */
  function Counted(w: World, s: Pass, delta: Json, status: Status): Pass {
    var tallied := Tally(w, s.counts, delta);
    s.(counts := tallied.counts, status := if tallied.complete then status else Failed(INVALID_SCHEMA, false))
  }

  function Submit(w: World, s: Pass, delta: Json, looked: Looked, admitted: Admitted): Pass {
    if !Bound(w, s) then s.(status := Failed(SCOPE_MISMATCH, false))
    else match looked
      case LookupFailed(code, commit) => s.(status := Failed(code, commit))
      case Found => Counted(w, s, delta, Replay)
      case NotFound =>
        var tried := s.(admissions := s.admissions + [Submission(s.source.value, delta)]);
        match admitted
        case Refused(code, commit) => tried.(status := Failed(code, commit))
        case Accepted(status) => Counted(w, tried, delta, Committed(status))
  }

  predicate Fresh(s: Pass, last: Option<Message>) {
    last.Some? && last.value.assistant && !last.value.toolCalls && last.value.id !in s.processed
  }

  function OnPersist(w: World, s: Pass, last: Option<Message>, looked: Looked, admitted: Admitted): Pass {
    if !Fresh(s, last) then s else
    var envelope := w.parse(last.value.content);
    var read := s.(processed := s.processed[last.value.id := envelope.prose], prose := Some(envelope.prose));
    if envelope.delta.Some? then
      (if s.submitted then read else Submit(w, read.(submitted := true), envelope.delta.value, looked, admitted))
    else if s.submitted then read
    else read.(status := Malformed)
  }

  function Step(w: World, s: Pass, e: Event): Pass {
    match e
    case Append(currentUser, answer, source) => OnAppend(s, currentUser, answer, source)
    case Persist(last, looked, admitted) => OnPersist(w, s, last, looked, admitted)
  }

  function Fold(w: World, events: seq<Event>): Pass {
    if events == [] then FRESH else Step(w, Fold(w, events[..|events| - 1]), events[|events| - 1])
  }

  // ---- the one admission -------------------------------------------------------------------

  /** The event froze this row and this source: the first user append of the session that was given a row id. */
  predicate Froze(events: seq<Event>, i: nat, row: int, source: SourceRef)
    requires i < |events|
  {
    && events[i] == Append(true, Row(Some(row)), Some(source))
    && forall j | 0 <= j < i && events[j].Append? && events[j].currentUser && events[j].answer.Row? :: events[j].answer.id.None?
  }

  /** The event is the first message of the pass to carry a sibling output. */
  predicate FirstDelta(w: World, events: seq<Event>, k: nat, delta: Json)
    requires k < |events|
  {
    && events[k].Persist? && Fresh(Fold(w, events[..k]), events[k].last)
    && w.parse(events[k].last.value.content).delta == Some(delta)
    && !Fold(w, events[..k]).submitted
  }

  predicate Justified(w: World, events: seq<Event>, a: Submission, i: nat, k: nat, row: int) {
    && i < k < |events| && Froze(events, i, row, a.source) && w.rowText(row) == a.source.recordId
       && FirstDelta(w, events, k, a.delta)
  }

  /** The captured row and source are those of the first successful user append, whatever happened since. */
  lemma {:induction false} CapturedIsFrozen(w: World, events: seq<Event>)
    ensures var s := Fold(w, events);
            && (s.native.None? ==> forall j | 0 <= j < |events| && events[j].Append? && events[j].currentUser && events[j].answer.Row? ::
                                     events[j].answer.id.None?)
            && (s.native.Some? && s.source.Some? ==>
                  exists i :: 0 <= i < |events| && Froze(events, i, s.native.value, s.source.value))
  {
    if events != [] {
      var last := |events| - 1;
      var init := events[..last];
      CapturedIsFrozen(w, init);
      assert forall j | 0 <= j < last :: init[j] == events[j];
      var before, s := Fold(w, init), Fold(w, events);
      if before.native.Some? {
        assert s.native == before.native && s.source == before.source;
        if s.source.Some? {
          var i :| 0 <= i < last && Froze(init, i, s.native.value, s.source.value);
          assert Froze(events, i, s.native.value, s.source.value);
        }
      } else if s.native.Some? && s.source.Some? {
        assert Froze(events, last, s.native.value, s.source.value);
      }
    }
  }

  /** In every conversation admission is called at most once; when it is, it is for the first sibling output, after the
      first user row of the session, with the source frozen there, whose record id is that row. */
  lemma {:induction false} AdmissionIsSingleAndBound(w: World, events: seq<Event>)
    ensures var s := Fold(w, events);
            && |s.admissions| <= 1 && (!s.submitted ==> s.admissions == [])
            && (s.admissions != [] ==> exists i, k, row :: Justified(w, events, s.admissions[0], i, k, row))
  {
    if events != [] {
      var last := |events| - 1;
      var init := events[..last];
      AdmissionIsSingleAndBound(w, init);
      var before, s := Fold(w, init), Fold(w, events);
      if s.admissions == before.admissions {
        if before.admissions != [] {
          var i, k, row :| Justified(w, init, before.admissions[0], i, k, row);
          JustifiedLater(w, events, before.admissions[0], i, k, row);
        }
      } else {
        CapturedIsFrozen(w, init);
        NewAdmission(w, events, before, s);
        var i :| 0 <= i < last && Froze(init, i, before.native.value, before.source.value);
        assert Justified(w, events, s.admissions[0], i, last, before.native.value);
      }
    }
  }

  lemma JustifiedLater(w: World, events: seq<Event>, a: Submission, i: nat, k: nat, row: int)
    requires events != [] && Justified(w, events[..|events| - 1], a, i, k, row)
    ensures Justified(w, events, a, i, k, row)
  {
    hide Fold;
    var init := events[..|events| - 1];
    assert init[..k] == events[..k];
    assert forall j | 0 <= j < |init| :: init[j] == events[j];
  }

  lemma NewAdmission(w: World, events: seq<Event>, before: Pass, s: Pass)
    requires events != [] && before == Fold(w, events[..|events| - 1]) && s == Step(w, before, events[|events| - 1])
    requires s.admissions != before.admissions
    requires !before.submitted ==> before.admissions == []
    ensures Bound(w, before) && |s.admissions| == 1 && s.admissions[0].source == before.source.value
    ensures FirstDelta(w, events, |events| - 1, s.admissions[0].delta)
  {
    hide Fold;
  }

  /** A sibling output is submitted at most once, and afterwards no later message changes what was reported for it. */
  lemma {:induction false} FirstDeltaDecides(w: World, events: seq<Event>, n: nat)
    requires n <= |events| && Fold(w, events[..n]).submitted
    ensures Fold(w, events).submitted && Fold(w, events).status == Fold(w, events[..n]).status
            && Fold(w, events).admissions == Fold(w, events[..n]).admissions
    decreases |events|
  {
    if n == |events| {
      assert events[..n] == events;
    } else {
      var init := events[..|events| - 1];
      assert init[..n] == events[..n];
      FirstDeltaDecides(w, init, n);
    }
  }

  // ---- what stands before an output, and what is said ------------------------------------------

  /** Before an output is submitted, the report tells whether any message of the pass was read at all. */
  lemma {:induction false} StatusBeforeOutput(w: World, events: seq<Event>)
    ensures var s := Fold(w, events);
            && (!s.submitted ==> s.status == (if s.processed == map[] then Missing else Malformed))
            && (s.prose.None? <==> s.processed == map[])
            && (s.submitted ==> s.processed != map[])
  {
    if events != [] {
      StatusBeforeOutput(w, events[..|events| - 1]);
      hide Submit, Fold;
      var s, e := Fold(w, events[..|events| - 1]), events[|events| - 1];
      if e.Persist? && Fresh(s, e.last) { assert e.last.value.id in Step(w, s, e).processed; }
      SubmitKeeps(w, s, e);
    }
  }

  lemma SubmitKeeps(w: World, s: Pass, e: Event)
    ensures var after := Step(w, s, e);
            && after.processed == (if e.Persist? && Fresh(s, e.last)
                                   then s.processed[e.last.value.id := w.parse(e.last.value.content).prose] else s.processed)
            && after.prose == (if e.Persist? && Fresh(s, e.last) then Some(w.parse(e.last.value.content).prose) else s.prose)
            && after.submitted == (s.submitted || (e.Persist? && Fresh(s, e.last) && w.parse(e.last.value.content).delta.Some?))
  {
    hide Tally;
  }

  /** The event is the first that persists a final assistant message with this id. */
  predicate Reads(events: seq<Event>, k: nat)
    requires k < |events|
  {
    && events[k].Persist? && events[k].last.Some? && events[k].last.value.assistant && !events[k].last.value.toolCalls
    && forall j | 0 <= j < k && events[j].Persist? && events[j].last.Some? && events[j].last.value.assistant
                  && !events[j].last.value.toolCalls :: events[j].last.value.id != events[k].last.value.id
  }

  /** Every final assistant message is read once, when it is first persisted, and replaced by its own prose; the prose that is
      kept is that of the last message read. */
  lemma {:induction false} MessagesAreReadOnce(w: World, events: seq<Event>)
    ensures var s := Fold(w, events);
            && (forall id :: id in s.processed <==> exists k :: 0 <= k < |events| && Reads(events, k) && events[k].last.value.id == id)
            && (forall k | 0 <= k < |events| && Reads(events, k) ::
                  events[k].last.value.id in s.processed
                  && s.processed[events[k].last.value.id] == w.parse(events[k].last.value.content).prose)
            && (forall k | 0 <= k < |events| && Reads(events, k) && (forall j | k < j < |events| :: !Reads(events, j)) ::
                  s.prose == Some(w.parse(events[k].last.value.content).prose))
  {
    if events != [] {
      var last := |events| - 1;
      var init := events[..last];
      MessagesAreReadOnce(w, init);
      assert forall j | 0 <= j < last :: init[j] == events[j];
      assert forall k | 0 <= k < last :: Reads(init, k) <==> Reads(events, k);
      SubmitKeeps(w, Fold(w, init), events[last]);
      assert Fold(w, events) == Step(w, Fold(w, init), events[last]);
      hide Fold, Step;
      var s := Fold(w, init);
      forall id
        ensures id in s.processed <==> exists k :: 0 <= k < |events| - 1 && Reads(events, k) && events[k].last.value.id == id
      {
        if k :| 0 <= k < last && Reads(events, k) && events[k].last.value.id == id { assert Reads(init, k); }
        if id in s.processed {
          var k :| 0 <= k < last && Reads(init, k) && init[k].last.value.id == id;
          assert Reads(events, k);
        }
      }
      FreshIsRead(events, s);
    }
  }

  lemma FreshIsRead(events: seq<Event>, s: Pass)
    requires events != []
    requires forall id :: id in s.processed
                          <==> exists k :: 0 <= k < |events| - 1 && Reads(events, k) && events[k].last.value.id == id
    ensures var e := events[|events| - 1]; e.Persist? && Fresh(s, e.last) <==> Reads(events, |events| - 1)
  {
    var last := |events| - 1;
    if events[last].Persist? && Fresh(s, events[last].last) {
      forall j | 0 <= j < last && events[j].Persist? && events[j].last.Some? && events[j].last.value.assistant
                 && !events[j].last.value.toolCalls
        ensures events[j].last.value.id != events[last].last.value.id
      {
        FirstReads(events, j);
      }
    }
  }

  /** A final message that was persisted was read at its first time. */
  lemma {:induction false} FirstReads(events: seq<Event>, j: nat)
    requires j < |events| && events[j].Persist? && events[j].last.Some? && events[j].last.value.assistant
    requires !events[j].last.value.toolCalls
    ensures exists k :: 0 <= k <= j && Reads(events, k) && events[k].last.value.id == events[j].last.value.id
    decreases j
  {
    if !Reads(events, j) {
      var i :| 0 <= i < j && events[i].Persist? && events[i].last.Some? && events[i].last.value.assistant
               && !events[i].last.value.toolCalls && events[i].last.value.id == events[j].last.value.id;
      FirstReads(events, i);
    }
  }

  /** What is said at the end: the prose kept from the messages, or else that of the final response, unless there is a guard
      and it refuses it. */
  lemma SpokenIs(w: World, s: Pass, response: string)
    ensures var prose := if s.prose.Some? then s.prose.value else w.parse(response).prose;
            && (Spoken(w, s, response) == prose || Spoken(w, s, response) == "")
            && (Spoken(w, s, response) != prose ==> w.guard.Some? && !w.guard.value(prose))
            && (w.guard.Some? && Spoken(w, s, response) != "" ==> w.guard.value(Spoken(w, s, response)))
  {
  }

  // ---- what is reported ----------------------------------------------------------------------

  lemma {:induction false} DeferredInIff(points: seq<Json>)
    ensures DeferredIn(points).Some? <==> forall i | 0 <= i < |points| :: At(points[i], "status").Some?
  {
    hide At, Defers;
    if points != [] {
      DeferredInIff(points[..|points| - 1]);
      assert forall i | 0 <= i < |points| - 1 :: points[..|points| - 1][i] == points[i];
    }
  }

  /** The places of the deferring points. */
  function Deferring(points: seq<Json>): set<nat> {
    set i | 0 <= i < |points| && Defers(points[i])
  }

  lemma DeferringNext(points: seq<Json>)
    requires points != []
    ensures var last := |points| - 1;
            |Deferring(points)| == |Deferring(points[..last])| + if Defers(points[last]) then 1 else 0
  {
    hide Defers;
    var last := |points| - 1;
    var init := points[..last];
    assert forall i | 0 <= i < last :: init[i] == points[i];
    assert Deferring(points) == if Defers(points[last]) then Deferring(init) + {last} else Deferring(init);
  }

  lemma {:induction false} DeferredInCounts(points: seq<Json>)
    requires DeferredIn(points).Some?
    ensures DeferredIn(points).value == |Deferring(points)|
  {
    hide At, Defers;
    if points != [] {
      hide Deferring;
      DeferredInCounts(points[..|points| - 1]);
      DeferringNext(points);
    }
  }

  /** Which points defer: those whose status says so, and those that leave a reference open, an open reference being any value
      but the empty ones. */
  lemma DefersIff(point: Json)
    ensures Defers(point)
            <==> || At(point, "status") == Some(Text("defer"))
                 || (At(point, "unresolved_refs").Some?
                     && At(point, "unresolved_refs").value
                        !in [Null, Bool(false), Number(0.0), Text(""), List([]), Object([])])
  {
    hide At;
  }

  lemma NoStatusInText(v: Json, i: nat)
    requires (v.Text? || v.Object?) && i < |Iterated(v)|
    ensures At(Iterated(v)[i], "status").None?
  {
  }

  /** Counting goes through exactly for a well-shaped payload, whatever was admitted, and then gives its numbers of points,
      of dependencies and of deferring points. */
  lemma CountedIff(w: World, counts: Counts, delta: Json)
    ensures var payload, tallied := Decoded(w, delta), Tally(w, counts, delta);
            && (tallied.complete <==> payload.Some? && Shaped(payload.value))
            && (tallied.complete ==>
                  var points := Iterated(At(payload.value, "points").value);
                  && tallied.counts.points == |points|
                  && Some(tallied.counts.dependencies) == Length(At(payload.value, "dependencies").value)
                  && tallied.counts.deferred == |Deferring(points)|)
  {
    var payload := Decoded(w, delta);
    hide Decoded, Defers;
    if payload.Some? && At(payload.value, "points").Some? {
      var points := At(payload.value, "points").value;
      hide At, Deferring;
      DeferredInIff(Iterated(points));
      if DeferredIn(Iterated(points)).Some? { DeferredInCounts(Iterated(points)); }
      if (points.Text? || points.Object?) && Iterated(points) != [] { NoStatusInText(points, 0); }
    }
  }

  predicate WellFormed(w: World, delta: Json) {
    Decoded(w, delta).Some? && Shaped(Decoded(w, delta).value)
  }

  /** What the report says of an output about which admission knows or accepts something: its status exactly when the
      payload is well shaped, and otherwise a validation failure, although the receipt is there. */
  lemma ReportedIff(w: World, s: Pass, delta: Json, looked: Looked, admitted: Admitted)
    requires Bound(w, s) && (looked.Found? || (looked.NotFound? && admitted.Accepted?))
    ensures var after := Submit(w, s, delta, looked, admitted);
            var status := if looked.Found? then Replay else Committed(admitted.status);
            && after.admissions == s.admissions + (if looked.Found? then [] else [Submission(s.source.value, delta)])
            && (after.status == status <==> WellFormed(w, delta))
            && (after.status == Failed(INVALID_SCHEMA, false) <==> !WellFormed(w, delta))
            && (WellFormed(w, delta) ==>
                  var payload := Decoded(w, delta).value;
                  var points := Iterated(At(payload, "points").value);
                  && after.counts.points == |points| && after.counts.deferred == |Deferring(points)|
                  && Some(after.counts.dependencies) == Length(At(payload, "dependencies").value))
  {
    CountedIff(w, s.counts, delta);
    hide Decoded, Shaped, Tally;
  }

  /** A refusal is reported as what it is: an output without the frozen source of its row, a failed lookup, and a refused
      admission, of which only the last has called admission. */
  lemma RefusalIsReported(w: World, s: Pass, delta: Json, looked: Looked, admitted: Admitted)
    ensures var after := Submit(w, s, delta, looked, admitted);
            && (!Bound(w, s) ==> after == s.(status := Failed("SCOPE_MISMATCH", false)))
            && (Bound(w, s) && looked.LookupFailed? ==> after == s.(status := Failed(looked.code, looked.commit)))
            && (Bound(w, s) && looked.NotFound? && admitted.Refused? ==>
                  after == s.(status := Failed(admitted.code, admitted.commit),
                              admissions := s.admissions + [Submission(s.source.value, delta)]))
  {
  }

  /** So a replay of an interaction with a receipt, whose new output lacks its dependencies, is reported as invalid: nothing
      has validated that output, and nothing of it was admitted. */
  lemma ReplayReportedInvalid(w: World, s: Pass, points: Json, admitted: Admitted)
    requires Bound(w, s)
    ensures var after := Submit(w, s, Object([Field("points", points)]), Found, admitted);
            after.admissions == s.admissions && after.status == Failed(INVALID_SCHEMA, false)
  {
    var delta := Object([Field("points", points)]);
    assert Lookup([Field("points", points)][1..], "dependencies") == None;
    assert !WellFormed(w, delta);
    hide Submit, WellFormed;
    ReportedIff(w, s, delta, Found, admitted);
    NothingSubmitted(w, s, delta, admitted);
  }

  lemma NothingSubmitted(w: World, s: Pass, delta: Json, admitted: Admitted)
    requires Bound(w, s)
    ensures Submit(w, s, delta, Found, admitted).admissions == s.admissions
  {
  }

  // ---- the pass as it runs -------------------------------------------------------------------

  datatype Hook = Native(id: nat) | Installed

  /** The agent and its session database, with the four places the pass borrows. */
  class Host {
    var prompt: Option<string>
    var stream: Option<Hook>
    var persist: Hook
    var append: Hook

    constructor (prompt: Option<string>, stream: Option<Hook>, persist: Hook, append: Hook)
      ensures this.prompt == prompt && this.stream == stream && this.persist == persist && this.append == append
    {
      this.prompt, this.stream, this.persist, this.append := prompt, stream, persist, append;
    }
  }

  /** How the conversation ends: with a final response, or with an exception. */
  datatype Ending = Final(response: string) | Raised

  /** Captured prose wins over the final response, and the guard may empty it. */
  function Spoken(w: World, s: Pass, response: string): string {
    var prose := if s.prose.Some? then s.prose.value else w.parse(response).prose;
    if w.guard.Some? && prose != "" && !w.guard.value(prose) then "" else prose
  }

  /** However the conversation goes and ends, the host gets back its own prompt and hooks, and during it only the
      installed ones are in place. */
  method RunOnePass(w: World, host: Host, instructions: string, events: seq<Event>, ending: Ending)
    returns (result: Option<string>, s: Pass)
    modifies host
    ensures s == Fold(w, events)
    ensures result == (match ending case Final(response) => Some(Spoken(w, s, response)) case Raised => None)
    ensures host.prompt == old(host.prompt) && host.stream == old(host.stream)
            && host.persist == old(host.persist) && host.append == old(host.append)
  {
    var oldPrompt, oldStream, oldPersist, oldAppend := host.prompt, host.stream, host.persist, host.append;
    s := FRESH;
    host.prompt := Some((if oldPrompt.Some? then oldPrompt.value else "") + "\n" + instructions);
    host.stream := None;
    host.persist := Installed;
    host.append := Installed;
    var i := 0;
    while i < |events|
      invariant i <= |events|
      invariant s == Fold(w, events[..i])
      invariant host.persist == Installed && host.append == Installed && host.stream == None
    {
      assert events[..i + 1][..i] == events[..i];
      s := Converse(w, host, s, events[i]);
      i := i + 1;
    }
    assert events[..i] == events;
    match ending {
      case Final(response) =>
        var prose := if s.prose.Some? then s.prose.value else w.parse(response).prose;
        if w.guard.Some? && prose != "" && !w.guard.value(prose) { prose := ""; }
        result := Some(prose);
      case Raised => result := None;
    }
    host.prompt := oldPrompt;
    host.stream := oldStream;
    host.persist := oldPersist;
    host.append := oldAppend;
  }

  /** One callback, reached through the hook the pass installed. */
  method Converse(w: World, host: Host, s: Pass, e: Event) returns (after: Pass)
    requires host.persist == Installed && host.append == Installed
    ensures after == Step(w, s, e)
  {
    after := s;
    match e {
      case Append(currentUser, answer, source) =>
        if currentUser && s.native.None? {
          if answer.Row? { after := after.(native := answer.id, source := source); }
        }
      case Persist(last, looked, admitted) =>
        if last.Some? && last.value.assistant && !last.value.toolCalls && last.value.id !in s.processed {
          var envelope := w.parse(last.value.content);
          after := after.(processed := after.processed[last.value.id := envelope.prose]);
          after := after.(prose := Some(envelope.prose));
          if envelope.delta.Some? && !after.submitted {
            after := after.(submitted := true);
            after := Submitted(w, after, envelope.delta.value, looked, admitted);
          } else if envelope.delta.None? && !after.submitted {
            after := after.(status := Malformed);
          }
        }
    }
  }

  method Submitted(w: World, s: Pass, delta: Json, looked: Looked, admitted: Admitted) returns (after: Pass)
    ensures after == Submit(w, s, delta, looked, admitted)
  {
    after := s;
    if s.source.None? || s.native.None? || w.rowText(s.native.value) != s.source.value.recordId {
      return after.(status := Failed(SCOPE_MISMATCH, false));
    }
    if looked.LookupFailed? { return after.(status := Failed(looked.code, looked.commit)); }
    if looked.Found? {
      after := after.(status := Replay);
    } else {
      after := after.(admissions := after.admissions + [Submission(s.source.value, delta)]);
      if admitted.Refused? { return after.(status := Failed(admitted.code, admitted.commit)); }
      after := after.(status := Committed(admitted.status));
    }
    var counts, complete := Count(w, s.counts, delta);
    after := after.(counts := counts);
    if !complete { after := after.(status := Failed(INVALID_SCHEMA, false)); }
  }

  /** Reads the three counts off the payload; whatever raises leaves those already read. */
  method Count(w: World, counts0: Counts, delta: Json) returns (counts: Counts, complete: bool)
    ensures Tallied(counts, complete) == Tally(w, counts0, delta)
  {
    counts, complete := counts0, false;
    var payload := Decoded(w, delta);
    if payload.None? { return; }
    var points := At(payload.value, "points");
    if points.None? || Length(points.value).None? { return; }
    counts := counts.(points := Length(points.value).value);
    var dependencies := At(payload.value, "dependencies");
    if dependencies.None? || Length(dependencies.value).None? { return; }
    counts := counts.(dependencies := Length(dependencies.value).value);
    var deferred := CountDeferred(Iterated(points.value));
    if deferred.None? { return; }
    counts := counts.(deferred := deferred.value);
    complete := true;
  }

  method CountDeferred(points: seq<Json>) returns (deferred: Option<nat>)
    ensures deferred == DeferredIn(points)
  {
    hide At, Defers;
    var n := 0;
    var i := 0;
    while i < |points|
      invariant i <= |points|
      invariant DeferredIn(points[..i]) == Some(n)
    {
      assert points[..i + 1][..i] == points[..i];
      if At(points[i], "status").None? {
        FailureStays(points, i + 1);
        return None;
      }
      if Defers(points[i]) { n := n + 1; }
      i := i + 1;
    }
    assert points[..i] == points;
    deferred := Some(n);
  }

  lemma {:induction false} FailureStays(points: seq<Json>, i: nat)
    requires i <= |points| && DeferredIn(points[..i]).None?
    ensures DeferredIn(points).None?
    decreases |points|
  {
    if i == |points| {
      assert points[..i] == points;
    } else {
      assert points[..|points| - 1][..i] == points[..i];
      FailureStays(points[..|points| - 1], i);
    }
  }
}

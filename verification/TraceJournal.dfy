/** The observer's trace journal: what is kept out of it, how its events are numbered, and how its usage rows add up. */
module TraceJournal {
  import opened Wrappers
  import opened JsonValues
  import opened Texts

  // ---- redaction -----------------------------------------------------------------------------

  /** Lower-casing, as the runtime's strings do it. */
  type Lower = string -> string

  const SECRET_PARTS := ["api_key", "secret", "token", "auth", "password", "bearer"]
  const THOUGHT_KEYS := {"reasoning", "reasoning_content", "chain_of_thought", "internal_thought"}
  const PREFIXES := ["Bearer ", "sk-"]
  const MAX_LENGTH := 4000
  const TAIL := " ... [TRUNCATED]"
  const REDACTED := "[REDACTED]"
  const REDACTED_THOUGHT := "[REDACTED_INTERNAL_THOUGHT]"

  datatype KeyClass = Plain | Secret | Thought

  /** A key that looks secret is redacted as such even when it names a thought. */
  function Classify(lower: Lower, key: string): KeyClass {
    if exists i :: 0 <= i < |SECRET_PARTS| && Contains(lower(key), SECRET_PARTS[i]) then Secret
    else if lower(key) in THOUGHT_KEYS then Thought
    else Plain
  }

  predicate LooksSecret(text: string) {
    PREFIXES[0] <= text || PREFIXES[1] <= text
  }

  function SanitizeText(text: string): string {
    if LooksSecret(text) then REDACTED
    else if |text| > MAX_LENGTH then text[..MAX_LENGTH] + TAIL
    else text
  }

  function Sanitize(lower: Lower, v: Json): Json {
    match v
    case Text(s) => Text(SanitizeText(s))
    case List(items) => List(seq(|items|, i requires 0 <= i < |items| => Sanitize(lower, items[i])))
    case Object(fields) => Object(seq(|fields|, i requires 0 <= i < |fields| =>
        match Classify(lower, fields[i].key)
        case Secret => fields[i].(value := Text(REDACTED))
        case Thought => fields[i].(value := Text(REDACTED_THOUGHT))
        case Plain => fields[i].(value := Sanitize(lower, fields[i].value))))
    case _ => v
  }

  /** Nothing to hide, at any depth: no text with a secret's prefix, no over-long text that was not cut, and under secret
      or thought keys only the marks. */
  predicate Clean(lower: Lower, v: Json) {
    match v
    case Text(s) => !LooksSecret(s) && (|s| > MAX_LENGTH ==> s == s[..MAX_LENGTH] + TAIL)
    case List(items) => forall i | 0 <= i < |items| :: Clean(lower, items[i])
    case Object(fields) => forall i | 0 <= i < |fields| :: CleanField(lower, fields[i])
    case _ => true
  }

  predicate CleanField(lower: Lower, f: Field) {
    match Classify(lower, f.key)
    case Secret => f.value == Text(REDACTED)
    case Thought => f.value == Text(REDACTED_THOUGHT)
    case Plain => Clean(lower, f.value)
  }

  lemma PrefixOfHead(p: string, s: string, n: nat)
    requires |p| <= n <= |s|
    ensures p <= s[..n] + TAIL <==> p <= s
  {
    if p <= s { assert s[..|p|] == s[..n][..|p|]; }
    if p <= s[..n] + TAIL { assert (s[..n] + TAIL)[..|p|] == s[..n][..|p|] == s[..|p|]; }
  }

  lemma TextIsCleaned(s: string)
    ensures !LooksSecret(SanitizeText(s))
    ensures |SanitizeText(s)| > MAX_LENGTH ==> SanitizeText(s) == SanitizeText(s)[..MAX_LENGTH] + TAIL
    ensures SanitizeText(s) == s <==> !LooksSecret(s) && (|s| > MAX_LENGTH ==> s == s[..MAX_LENGTH] + TAIL)
  {
    if LooksSecret(s) {
      assert REDACTED[0] == '[';
    } else if |s| > MAX_LENGTH {
      PrefixOfHead(PREFIXES[0], s, MAX_LENGTH);
      PrefixOfHead(PREFIXES[1], s, MAX_LENGTH);
      assert (s[..MAX_LENGTH] + TAIL)[..MAX_LENGTH] == s[..MAX_LENGTH];
    }
  }

  lemma ListIsCleaned(lower: Lower, items: seq<Json>)
    requires forall i | 0 <= i < |items| ::
               Clean(lower, Sanitize(lower, items[i])) && (Sanitize(lower, items[i]) == items[i] <==> Clean(lower, items[i]))
    ensures Clean(lower, Sanitize(lower, List(items)))
    ensures Sanitize(lower, List(items)) == List(items) <==> Clean(lower, List(items))
  {
    var out := Sanitize(lower, List(items)).items;
    assert out == items <==> forall i | 0 <= i < |items| :: out[i] == items[i];
  }

  lemma ObjectIsCleaned(lower: Lower, fields: seq<Field>)
    requires forall i | 0 <= i < |fields| ::
               && Clean(lower, Sanitize(lower, fields[i].value))
               && (Sanitize(lower, fields[i].value) == fields[i].value <==> Clean(lower, fields[i].value))
    ensures Clean(lower, Sanitize(lower, Object(fields)))
    ensures Sanitize(lower, Object(fields)) == Object(fields) <==> Clean(lower, Object(fields))
  {
    hide Classify;
    var out := Sanitize(lower, Object(fields)).fields;
    assert out == fields <==> forall i | 0 <= i < |fields| :: out[i] == fields[i];
  }

  /** Sanitizing leaves nothing to hide, and changes a value exactly when it had something to hide. */
  lemma {:induction false} SanitizedIsClean(lower: Lower, v: Json)
    ensures Clean(lower, Sanitize(lower, v))
    ensures Sanitize(lower, v) == v <==> Clean(lower, v)
    decreases v
  {
    match v
    case Text(s) => TextIsCleaned(s);
    case List(items) =>
      forall i | 0 <= i < |items| { SanitizedIsClean(lower, items[i]); }
      ListIsCleaned(lower, items);
    case Object(fields) =>
      forall i | 0 <= i < |fields| { SanitizedIsClean(lower, fields[i].value); }
      ObjectIsCleaned(lower, fields);
    case _ =>
  }

  /** Sanitizing twice is sanitizing once. */
  lemma SanitizeIsIdempotent(lower: Lower, v: Json)
    ensures Sanitize(lower, Sanitize(lower, v)) == Sanitize(lower, v)
  {
    SanitizedIsClean(lower, v);
    SanitizedIsClean(lower, Sanitize(lower, v));
  }

  /** The part of a value that a path of positions leads to. */
  function Follow(v: Json, path: seq<nat>): Option<Json> {
    if path == [] then Some(v)
    else if v.List? && path[0] < |v.items| then Follow(v.items[path[0]], path[1..])
    else if v.Object? && path[0] < |v.fields| then Follow(v.fields[path[0]].value, path[1..])
    else None
  }

  /** The keys under which the path leads, outermost first. */
  function KeysOn(v: Json, path: seq<nat>): seq<string> {
    if path == [] then []
    else if v.List? && path[0] < |v.items| then KeysOn(v.items[path[0]], path[1..])
    else if v.Object? && path[0] < |v.fields| then [v.fields[path[0]].key] + KeysOn(v.fields[path[0]].value, path[1..])
    else []
  }

  predicate AllPlain(lower: Lower, keys: seq<string>) {
    forall i | 0 <= i < |keys| :: Classify(lower, keys[i]).Plain?
  }

  /** Everything reached under plain keys alone is where it was, sanitized itself. */
  lemma {:induction false} PlainPathsAreKept(lower: Lower, v: Json, path: seq<nat>)
    requires AllPlain(lower, KeysOn(v, path))
    ensures Follow(Sanitize(lower, v), path)
            == (match Follow(v, path) case None => None case Some(part) => Some(Sanitize(lower, part)))
    decreases |path|
  {
    hide Classify, SanitizeText;
    if path != [] {
      if v.List? && path[0] < |v.items| {
        PlainPathsAreKept(lower, v.items[path[0]], path[1..]);
      } else if v.Object? && path[0] < |v.fields| {
        var keys := KeysOn(v, path);
        assert keys[0] == v.fields[path[0]].key;
        assert forall i | 0 <= i < |keys| - 1 :: keys[1..][i] == keys[i + 1];
        PlainPathsAreKept(lower, v.fields[path[0]].value, path[1..]);
      }
    }
  }

  /** What becomes of the rest: a secret's prefix and a secret key redact, a thought key marks the thought, and an over-long
      text keeps its first characters and says that it was cut; other leaves stay. */
  lemma LeavesBecome(lower: Lower, s: string, fields: seq<Field>, i: nat)
    requires i < |fields|
    ensures var text := Sanitize(lower, Text(s));
            && ("Bearer " <= s || "sk-" <= s ==> text == Text("[REDACTED]"))
            && (!("Bearer " <= s) && !("sk-" <= s) && |s| > 4000 ==> text == Text(s[..4000] + " ... [TRUNCATED]"))
            && (!("Bearer " <= s) && !("sk-" <= s) && |s| <= 4000 ==> text == Text(s))
    ensures var value := Sanitize(lower, Object(fields)).fields[i].value;
            && (Classify(lower, fields[i].key).Secret? ==> value == Text("[REDACTED]"))
            && (Classify(lower, fields[i].key).Thought? ==> value == Text("[REDACTED_INTERNAL_THOUGHT]"))
    ensures forall leaf: Json | leaf.Null? || leaf.Bool? || leaf.Number? :: Sanitize(lower, leaf) == leaf
  {
    hide Classify;
    forall leaf: Json | leaf.Null? || leaf.Bool? || leaf.Number? ensures Sanitize(lower, leaf) == leaf {}
  }

  /** A key is secret when its lower-case form has a telling part, and otherwise a thought when it names one. */
  lemma ClassifyIff(lower: Lower, key: string)
    ensures Classify(lower, key).Secret?
            <==> exists part :: part in ["api_key", "secret", "token", "auth", "password", "bearer"] && Contains(lower(key), part)
    ensures Classify(lower, key).Thought?
            <==> !Classify(lower, key).Secret?
                 && lower(key) in {"reasoning", "reasoning_content", "chain_of_thought", "internal_thought"}
  {
    hide Contains;
  }

  /** Where redaction does not reach: a secret used as a key stays, exactly as it was. */
  lemma KeysAreKept(lower: Lower, fields: seq<Field>, i: nat)
    requires i < |fields|
    ensures Sanitize(lower, Object(fields)).Object? && |Sanitize(lower, Object(fields)).fields| == |fields|
    ensures Sanitize(lower, Object(fields)).fields[i].key == fields[i].key
  {
    hide Classify;
  }

  // ---- numbering --------------------------------------------------------------------------------

  datatype Row = Row(interaction: string, number: nat, payload: Json)

  /** COALESCE(MAX(sequence_no), 0) over one interaction. */
  function Highest(rows: seq<Row>, interaction: string): nat {
    if rows == [] then 0 else
    var sofar := Highest(rows[..|rows| - 1], interaction);
    var last := rows[|rows| - 1];
    if last.interaction == interaction && last.number > sofar then last.number else sofar
  }

  /** The rows of one interaction, in the order they were inserted. */
  function Of(rows: seq<Row>, interaction: string): seq<Row> {
    if rows == [] then [] else
    var sofar := Of(rows[..|rows| - 1], interaction);
    if rows[|rows| - 1].interaction == interaction then sofar + [rows[|rows| - 1]] else sofar
  }

  class TransientTraceJournal {
    const lower: Lower
    var rows: seq<Row>

    constructor (lower: Lower)
      ensures this.lower == lower && rows == []
    {
      this.lower, rows := lower, [];
    }

    /** One event, sanitized and numbered in the insert itself; an insert the database refuses is dropped. */
    method Record(interaction: string, payload: Json, accepted: bool)
      modifies this`rows
      ensures rows == Recorded(old(rows), lower, Attempt(interaction, payload, accepted))
    {
      var sanitized := Sanitize(lower, payload);
      if accepted {
        rows := rows + [Row(interaction, Highest(rows, interaction) + 1, sanitized)];
      }
    }
  }

  datatype Attempt = Attempt(interaction: string, payload: Json, accepted: bool)

  function Recorded(rows: seq<Row>, lower: Lower, a: Attempt): seq<Row> {
    if a.accepted then rows + [Row(a.interaction, Highest(rows, a.interaction) + 1, Sanitize(lower, a.payload))] else rows
  }

  function Journal(lower: Lower, attempts: seq<Attempt>): seq<Row> {
    if attempts == [] then [] else Recorded(Journal(lower, attempts[..|attempts| - 1]), lower, attempts[|attempts| - 1])
  }

  /** The accepted payloads of one interaction, sanitized, in the order they were recorded. */
  function Payloads(lower: Lower, attempts: seq<Attempt>, interaction: string): seq<Json> {
    if attempts == [] then [] else
    var sofar := Payloads(lower, attempts[..|attempts| - 1], interaction);
    var last := attempts[|attempts| - 1];
    if last.accepted && last.interaction == interaction then sofar + [Sanitize(lower, last.payload)] else sofar
  }

  /** Whatever is recorded for whichever interactions, and whatever is dropped, the events of an interaction carry the
      numbers one to n in the order of their insertion, with their own payloads. */
  lemma {:induction false} EventsAreNumbered(lower: Lower, attempts: seq<Attempt>, interaction: string)
    ensures var events := Of(Journal(lower, attempts), interaction);
            && Highest(Journal(lower, attempts), interaction) == |events| == |Payloads(lower, attempts, interaction)|
            && forall i | 0 <= i < |events| ::
                 events[i] == Row(interaction, i + 1, Payloads(lower, attempts, interaction)[i])
  {
    hide Sanitize;
    if attempts != [] {
      var init, last := attempts[..|attempts| - 1], attempts[|attempts| - 1];
      EventsAreNumbered(lower, init, interaction);
      var rows := Journal(lower, init);
      if last.accepted {
        var row := Row(last.interaction, Highest(rows, last.interaction) + 1, Sanitize(lower, last.payload));
        assert (rows + [row])[..|rows|] == rows;
      }
    }
  }

  // ---- usage ---------------------------------------------------------------------------------------

  datatype Usage = Usage(calls: nat, prompt: int, completion: int, total: int)

  /** A usage row; an absent model counts as "unknown" and an absent number as zero. */
  datatype Call = Call(model: Option<string>, prompt: Option<int>, completion: Option<int>, total: Option<int>)

  const NOTHING := Usage(0, 0, 0, 0)

  function Plus(a: Usage, b: Usage): Usage {
    Usage(a.calls + b.calls, a.prompt + b.prompt, a.completion + b.completion, a.total + b.total)
  }

  function OrZero(n: Option<int>): int { if n.Some? then n.value else 0 }

  function ModelOf(c: Call): string {
    if c.model.Some? && c.model.value != "" then c.model.value else "unknown"
  }

  function UsageOf(c: Call): Usage {
    Usage(1, OrZero(c.prompt), OrZero(c.completion), OrZero(c.total))
  }

  /** A call counts once, under its own model, with its own three numbers; what is missing counts as zero, and a call without
      a model or with an empty one as unknown. */
  lemma CallIsRead(c: Call)
    ensures var u := UsageOf(c);
            && u.calls == 1
            && (forall n :: c.prompt == Some(n) ==> u.prompt == n) && (c.prompt.None? ==> u.prompt == 0)
            && (forall n :: c.completion == Some(n) ==> u.completion == n) && (c.completion.None? ==> u.completion == 0)
            && (forall n :: c.total == Some(n) ==> u.total == n) && (c.total.None? ==> u.total == 0)
    ensures forall m :: m != "" && c.model == Some(m) ==> ModelOf(c) == m
    ensures c.model in {None, Some("")} ==> ModelOf(c) == "unknown"
  {
  }

  function Total(calls: seq<Call>): Usage {
    if calls == [] then NOTHING else Plus(Total(calls[..|calls| - 1]), UsageOf(calls[|calls| - 1]))
  }

  function ByModel(calls: seq<Call>, model: string): Usage {
    if calls == [] then NOTHING else
    var sofar := ByModel(calls[..|calls| - 1], model);
    if ModelOf(calls[|calls| - 1]) == model then Plus(sofar, UsageOf(calls[|calls| - 1])) else sofar
  }

  function Models(calls: seq<Call>): set<string> {
    set c | c in calls :: ModelOf(c)
  }

  ghost predicate Tabulates(table: map<string, Usage>, calls: seq<Call>) {
    table.Keys == Models(calls) && forall m | m in table :: table[m] == ByModel(calls, m)
  }

  /** The running table of usage by model, filled row by row. */
  method GroupByModel(calls: seq<Call>) returns (table: map<string, Usage>)
    ensures Tabulates(table, calls)
  {
    hide ByModel, UsageOf, ModelOf, Tabulates, Plus;
    table := map[];
    EmptyTable();
    assert calls[..0] == [];
    var i := 0;
    while i < |calls|
      invariant i <= |calls|
      invariant Tabulates(table, calls[..i])
    {
      TableGrows(table, calls, i);
      var m := ModelOf(calls[i]);
      var sofar := if m in table then table[m] else NOTHING;
      table := table[m := Plus(sofar, UsageOf(calls[i]))];
      i := i + 1;
    }
    assert calls[..i] == calls;
  }

  lemma EmptyTable()
    ensures Tabulates(map[], [])
  {
  }

  lemma TableGrows(table: map<string, Usage>, calls: seq<Call>, i: nat)
    requires i < |calls| && Tabulates(table, calls[..i])
    ensures var m := ModelOf(calls[i]);
            Tabulates(table[m := Plus(if m in table then table[m] else NOTHING, UsageOf(calls[i]))], calls[..i + 1])
  {
    ModelsGrow(calls, i);
    hide *;
    OneEntryChanges(table, ModelOf(calls[i]), UsageOf(calls[i]), calls[..i], calls[..i + 1]);
  }

  lemma OneEntryChanges(table: map<string, Usage>, m: string, u: Usage, before: seq<Call>, after: seq<Call>)
    requires Tabulates(table, before) && Models(after) == Models(before) + {m}
    requires forall x :: ByModel(after, x) == if x == m then Plus(ByModel(before, x), u) else ByModel(before, x)
    requires m !in Models(before) ==> ByModel(before, m) == NOTHING
    ensures Tabulates(table[m := Plus(if m in table then table[m] else NOTHING, u)], after)
  {
    hide ByModel, Models, Plus;
  }

  lemma {:induction false} UnknownModel(calls: seq<Call>, model: string)
    requires model !in Models(calls)
    ensures ByModel(calls, model) == NOTHING
  {
    if calls != [] {
      var init := calls[..|calls| - 1];
      assert calls[|calls| - 1] in calls && forall c | c in init :: c in calls;
      UnknownModel(init, model);
    }
  }

  lemma ModelsGrow(calls: seq<Call>, i: nat)
    requires i < |calls|
    ensures Models(calls[..i + 1]) == Models(calls[..i]) + {ModelOf(calls[i])}
    ensures forall m :: ByModel(calls[..i + 1], m)
                        == if m == ModelOf(calls[i]) then Plus(ByModel(calls[..i], m), UsageOf(calls[i])) else ByModel(calls[..i], m)
    ensures ModelOf(calls[i]) !in Models(calls[..i]) ==> ByModel(calls[..i], ModelOf(calls[i])) == NOTHING
  {
    assert calls[..i + 1] == calls[..i] + [calls[i]] && calls[..i + 1][..i] == calls[..i];
    if ModelOf(calls[i]) !in Models(calls[..i]) { UnknownModel(calls[..i], ModelOf(calls[i])); }
  }

  ghost function Pick(models: set<string>): (m: string)
    requires models != {}
    ensures m in models
  {
    var m :| m in models; m
  }

  ghost function SumOver(models: set<string>, calls: seq<Call>): Usage {
    if models == {} then NOTHING else
    var m := Pick(models);
    Plus(ByModel(calls, m), SumOver(models - {m}, calls))
  }

  lemma SumOverUnfolds(models: set<string>, calls: seq<Call>)
    ensures SumOver(models, calls)
            == if models == {} then NOTHING else Plus(ByModel(calls, Pick(models)), SumOver(models - {Pick(models)}, calls))
  {
    hide ByModel, Plus;
  }

  lemma {:induction false} SumOverNext(models: set<string>, calls: seq<Call>, i: nat)
    requires i < |calls|
    ensures SumOver(models, calls[..i + 1])
            == if ModelOf(calls[i]) in models then Plus(SumOver(models, calls[..i]), UsageOf(calls[i])) else SumOver(models, calls[..i])
    decreases models
  {
    hide ByModel, UsageOf, SumOver;
    SumOverUnfolds(models, calls[..i + 1]);
    SumOverUnfolds(models, calls[..i]);
    if models != {} {
      ModelsGrow(calls, i);
      SumOverNext(models - {Pick(models)}, calls, i);
    }
  }

  lemma NothingPlus(u: Usage)
    ensures Plus(NOTHING, u) == u
  {
  }

  lemma NoCalls(model: string)
    ensures ByModel([], model) == NOTHING
  {
  }

  lemma {:induction false} SumOverNothing(models: set<string>)
    ensures SumOver(models, []) == NOTHING
  {
    hide *;
    SumOverUnfolds(models, []);
    if models != {} {
      NothingPlus(SumOver(models - {Pick(models)}, []));
      NoCalls(Pick(models));
      SumOverNothing(models - {Pick(models)});
    }
  }

  /** The usage of any models that include all those called adds up to the total: each call is counted under one model. */
  lemma {:induction false} ModelsSumToTotal(calls: seq<Call>, models: set<string>)
    requires Models(calls) <= models
    ensures SumOver(models, calls) == Total(calls)
    decreases |calls|
  {
    hide SumOver, ByModel, UsageOf;
    if calls == [] {
      SumOverNothing(models);
    } else {
      var last := |calls| - 1;
      assert calls[..last + 1] == calls && calls[last] in calls;
      assert forall c | c in calls[..last] :: c in calls;
      SumOverNext(models, calls, last);
      ModelsSumToTotal(calls[..last], models);
    }
  }
}

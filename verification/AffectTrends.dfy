/** Affect trajectories: the values the recent turns projected, carried forward between projections, with the change of
    each turn rounded to four decimals. */
module AffectTrends {
  import opened Wrappers
  import opened Texts

  datatype State = State(dimension: string, value: real, evidence: seq<string>)

  /** A committed turn with the ids of the states it projected, in order; an id may name no stored state. */
  datatype Turn = Turn(id: string, projected: seq<string>)

  type States = map<string, State>

  datatype Origin = EventEffect | Dynamics | Unchanged | Unavailable

  /** What a point shows for one dimension; the value and the change are missing together. */
  datatype Reading = Reading(value: Option<real>, delta: Option<real>, origin: Origin)

  type Point = map<string, Reading>

  const STEP := 10000.0
  const HALF := 0.00005
  const NOISE := 0.000000001

  /** Four decimals, ties to even. */
  function Round4(x: real): real {
    var scaled := x * STEP;
    var down := scaled.Floor;
    var rest := scaled - down as real;
    (if rest < 0.5 || (rest == 0.5 && down % 2 == 0) then down else down + 1) as real / STEP
  }

  predicate Cites(state: State, id: string) {
    exists i :: 0 <= i < |state.evidence| && Contains(state.evidence[i], id)
  }

  // ---- what a turn says about one dimension ------------------------------------------------

  /** The states of a dimension among the projected ids, in their order. */
  function Projections(states: States, ids: seq<string>, d: string): seq<State> {
    if ids == [] then [] else
    var sofar := Projections(states, ids[..|ids| - 1], d);
    var id := ids[|ids| - 1];
    if id in states && states[id].dimension == d then sofar + [states[id]] else sofar
  }

  function Last(s: seq<State>): State
    requires s != []
  {
    s[|s| - 1]
  }

  /** The value a dimension has after some turns. */
  function Carried(states: States, turns: seq<Turn>, d: string): Option<real> {
    if turns == [] then None else
    var here := Projections(states, turns[|turns| - 1].projected, d);
    if here != [] then Some(Last(here).value) else Carried(states, turns[..|turns| - 1], d)
  }

  /** What the last projection of a turn is compared with: the one before it in the turn, or what was carried into the
      turn, or itself. */
  function Base(here: seq<State>, carried: Option<real>): real
    requires here != []
  {
    if |here| > 1 then here[|here| - 2].value else if carried.Some? then carried.value else Last(here).value
  }

  function DeltaOf(here: seq<State>, carried: Option<real>): Option<real> {
    if here != [] then Some(Round4(Last(here).value - Base(here, carried)))
    else if carried.Some? then Some(0.0) else None
  }

  function OriginOf(here: seq<State>, carried: Option<real>, id: string): Origin {
    if here == [] then (if carried.Some? then Unchanged else Unavailable)
    else if Cites(Last(here), id) then EventEffect
    else
      var delta := DeltaOf(here, carried).value;
      if delta > NOISE || -delta > NOISE then Dynamics else Unchanged
  }

  /** What a turn leaves to carry on. */
  function CarriedOn(here: seq<State>, carried: Option<real>): Option<real> {
    if here != [] then Some(Last(here).value) else carried
  }

  function ReadingOf(here: seq<State>, carried: Option<real>, id: string): Reading {
    Reading(CarriedOn(here, carried), DeltaOf(here, carried), OriginOf(here, carried, id))
  }

  /** The change shown at the last of some turns. */
  function Delta(states: States, turns: seq<Turn>, d: string): Option<real>
    requires turns != []
  {
    DeltaOf(Projections(states, turns[|turns| - 1].projected, d), Carried(states, turns[..|turns| - 1], d))
  }

  /** What the last of some turns shows. */
  function Shown(states: States, turns: seq<Turn>, d: string): (r: Reading)
    requires turns != []
    ensures r.value == Carried(states, turns, d) && r.delta == Delta(states, turns, d)
  {
    var last := turns[|turns| - 1];
    ReadingOf(Projections(states, last.projected, d), Carried(states, turns[..|turns| - 1], d), last.id)
  }

  // ---- the loops ---------------------------------------------------------------------------

  function Targets(dims: seq<string>): set<string> {
    set d | d in dims
  }

  function Get<T>(m: map<string, T>, d: string): Option<T> {
    if d in m then Some(m[d]) else None
  }

  /** A dimension's entry after some of a turn's projections were read: none before the first. */
  function Read(here: seq<State>, carried: Option<real>, id: string): Option<Reading> {
    if here == [] then None else Some(ReadingOf(here, carried, id))
  }

  /** One more projection replaces the entry by one that starts from the value just before it. */
  lemma ReadNext(here: seq<State>, carried: Option<real>, id: string, state: State)
    ensures var was := if CarriedOn(here, carried).Some? then CarriedOn(here, carried).value else state.value;
            var delta := Round4(state.value - was);
            && Read(here + [state], carried, id)
               == Some(Reading(Some(state.value), Some(delta),
                               if Cites(state, id) then EventEffect else if delta > NOISE || -delta > NOISE then Dynamics else Unchanged))
            && CarriedOn(here + [state], carried) == Some(state.value)
  {
    hide Round4, Cites;
  }

  predicate Knows(states: States, ids: seq<string>, carried: Option<real>, id: string, d: string, point: Point,
                  prev: map<string, real>) {
    var here := Projections(states, ids, d);
    Get(point, d) == Read(here, carried, id) && Get(prev, d) == CarriedOn(here, carried)
  }

  /** Reads the projected states of a turn in order, tracking the previous value of each dimension. */
  method ReadTurn(states: States, turn: Turn, dims: set<string>, prev0: map<string, real>, ghost before: seq<Turn>)
    returns (point: Point, prev: map<string, real>)
    requires forall d | d in dims :: Get(prev0, d) == Carried(states, before, d)
    ensures point.Keys <= dims
    ensures forall d | d in dims :: Knows(states, turn.projected, Carried(states, before, d), turn.id, d, point, prev)
  {
    hide Round4, Cites, Carried, ReadingOf;
    point, prev := map[], prev0;
    var i := 0;
    while i < |turn.projected|
      invariant i <= |turn.projected| && point.Keys <= dims
      invariant forall d | d in dims :: Knows(states, turn.projected[..i], Carried(states, before, d), turn.id, d, point, prev)
    {
      assert turn.projected[..i + 1][..i] == turn.projected[..i];
      var pid := turn.projected[i];
      if pid in states && states[pid].dimension in dims {
        var d, state := states[pid].dimension, states[pid];
        assert Knows(states, turn.projected[..i], Carried(states, before, d), turn.id, d, point, prev);
        ReadNext(Projections(states, turn.projected[..i], d), Carried(states, before, d), turn.id, state);
        var was := if d in prev then prev[d] else state.value;
        var delta := Round4(state.value - was);
        var origin := if Cites(state, turn.id) then EventEffect else if delta > NOISE || -delta > NOISE then Dynamics else Unchanged;
        point := point[d := Reading(Some(state.value), Some(delta), origin)];
        prev := prev[d := state.value];
      }
      i := i + 1;
    }
    assert turn.projected[..i] == turn.projected;
  }

  /** What a dimension not projected by the turn shows: the value it had, or that it never had one. */
  function Filled(carried: Option<real>): Reading {
    if carried.Some? then Reading(carried, Some(0.0), Unchanged) else Reading(None, None, Unavailable)
  }

  /** Dimensions the turn did not project keep their value; those never projected stay unavailable, and are never zero. */
  method FillForward(dims: seq<string>, prev: map<string, real>, read: Point) returns (point: Point)
    ensures point.Keys == read.Keys + Targets(dims)
    ensures forall d | d in point :: point[d] == if d in read then read[d] else Filled(Get(prev, d))
  {
    point := read;
    var i := 0;
    while i < |dims|
      invariant i <= |dims|
      invariant point.Keys == read.Keys + Targets(dims[..i])
      invariant forall d | d in point :: point[d] == if d in read then read[d] else Filled(Get(prev, d))
    {
      assert dims[..i + 1] == dims[..i] + [dims[i]];
      if dims[i] !in point {
        if dims[i] in prev {
          point := point[dims[i] := Reading(Some(prev[dims[i]]), Some(0.0), Unchanged)];
        } else {
          point := point[dims[i] := Reading(None, None, Unavailable)];
        }
      }
      i := i + 1;
    }
    assert dims[..i] == dims;
  }

  /** One point a turn, oldest first. */
  method Trend(states: States, turns: seq<Turn>, dims: seq<string>) returns (points: seq<Point>)
    ensures |points| == |turns|
    ensures forall n | 0 <= n < |turns| :: points[n] == map d | d in Targets(dims) :: Shown(states, turns[..n + 1], d)
  {
    hide Projections, Carried, Shown, Knows;
    points := [];
    var prev: map<string, real> := map[];
    assert forall d :: Get(prev, d) == Carried(states, turns[..0], d) by { NothingCarried(states); }
    var n := 0;
    while n < |turns|
      invariant n <= |turns| && |points| == n
      invariant forall d | d in Targets(dims) :: Get(prev, d) == Carried(states, turns[..n], d)
      invariant forall m | 0 <= m < n :: points[m] == map d | d in Targets(dims) :: Shown(states, turns[..m + 1], d)
    {
      var read, after := ReadTurn(states, turns[n], Targets(dims), prev, turns[..n]);
      var point := FillForward(dims, after, read);
      forall d | d in Targets(dims)
        ensures Get(after, d) == Carried(states, turns[..n + 1], d) && point[d] == Shown(states, turns[..n + 1], d)
      {
        TurnIsShown(states, turns, n, d, read, after);
      }
      points := points + [point];
      prev := after;
      n := n + 1;
    }
  }

  lemma NothingCarried(states: States)
    ensures forall d :: Carried(states, [], d) == None
  {
  }

  lemma TurnIsShown(states: States, turns: seq<Turn>, n: nat, d: string, read: Point, after: map<string, real>)
    requires n < |turns| && Knows(states, turns[n].projected, Carried(states, turns[..n], d), turns[n].id, d, read, after)
    ensures Get(after, d) == Carried(states, turns[..n + 1], d)
    ensures (if d in read then read[d] else Filled(Get(after, d))) == Shown(states, turns[..n + 1], d)
  {
    assert turns[..n + 1][..n] == turns[..n];
    hide Projections, Round4, Cites;
  }

  // ---- what the values mean ----------------------------------------------------------------

  /** A projected id that names a stored state of the dimension. */
  predicate Names(states: States, id: string, d: string) {
    id in states && states[id].dimension == d
  }

  /** The last projection of a dimension is the state that the last such id names, and the one before it the state of the
      last such id before that. */
  lemma {:induction false} LastProjectionIs(states: States, ids: seq<string>, d: string, i: nat)
    requires i < |ids| && Names(states, ids[i], d) && forall j | i < j < |ids| :: !Names(states, ids[j], d)
    ensures var here := Projections(states, ids, d);
            here == Projections(states, ids[..i], d) + [states[ids[i]]] && Last(here) == states[ids[i]]
    decreases |ids|
  {
    if i < |ids| - 1 {
      var init := ids[..|ids| - 1];
      assert init[..i] == ids[..i] && forall j | 0 <= j < |init| :: init[j] == ids[j];
      LastProjectionIs(states, init, d, i);
    }
  }

  lemma {:induction false} ProjectsNothingIff(states: States, ids: seq<string>, d: string)
    ensures Projections(states, ids, d) == [] <==> forall j | 0 <= j < |ids| :: !Names(states, ids[j], d)
  {
    if ids != [] {
      var init := ids[..|ids| - 1];
      ProjectsNothingIff(states, init, d);
      assert forall j | 0 <= j < |init| :: init[j] == ids[j];
    }
  }

  /** What the last of some turns shows of a dimension it projects once: the change from the value carried in, or none for a
      first value; the effect of an event when the state cites the turn, and otherwise dynamics when it changed. */
  lemma ShownOnce(states: States, turns: seq<Turn>, d: string, i: nat)
    requires turns != []
    requires var ids := turns[|turns| - 1].projected;
             i < |ids| && Names(states, ids[i], d) && forall j | 0 <= j < |ids| && j != i :: !Names(states, ids[j], d)
    ensures var last, r := turns[|turns| - 1], Shown(states, turns, d);
            var state, carried := states[last.projected[i]], Carried(states, turns[..|turns| - 1], d);
            && r.value == Some(state.value)
            && r.delta == Some(if carried.Some? then Round4(state.value - carried.value) else 0.0)
            && (r.origin == EventEffect <==> exists e :: e in state.evidence && Contains(e, last.id))
            && (r.origin == Dynamics <==> r.origin != EventEffect && (r.delta.value > 0.000000001 || r.delta.value < -0.000000001))
            && r.origin != Unavailable
  {
    var ids := turns[|turns| - 1].projected;
    LastProjectionIs(states, ids, d, i);
    ProjectsNothingIff(states, ids[..i], d);
    hide Contains, Projections, Carried;
    RoundZero();
  }

  /** And of one it does not project: the carried value without a change, or nothing at all. */
  lemma ShownNot(states: States, turns: seq<Turn>, d: string)
    requires turns != []
    requires var ids := turns[|turns| - 1].projected; forall j | 0 <= j < |ids| :: !Names(states, ids[j], d)
    ensures var r, carried := Shown(states, turns, d), Carried(states, turns[..|turns| - 1], d);
            r == if carried.Some? then Reading(carried, Some(0.0), Unchanged) else Reading(None, None, Unavailable)
  {
    ProjectsNothingIff(states, turns[|turns| - 1].projected, d);
  }

  lemma RoundZero()
    ensures Round4(0.0) == 0.0
  {
  }

  /** The turn is the last one, up to the last turn listed, to have projected the dimension. */
  predicate LatestTurn(states: States, turns: seq<Turn>, d: string, j: nat) {
    && j < |turns| && Projections(states, turns[j].projected, d) != []
    && forall i | j < i < |turns| :: Projections(states, turns[i].projected, d) == []
  }

  lemma {:induction false} LatestIsCarried(states: States, turns: seq<Turn>, d: string, j: nat)
    requires LatestTurn(states, turns, d, j)
    ensures Carried(states, turns, d) == Some(Last(Projections(states, turns[j].projected, d)).value)
    decreases |turns|
  {
    hide Projections;
    var init := turns[..|turns| - 1];
    assert forall i | 0 <= i < |init| :: init[i] == turns[i];
    if j < |turns| - 1 { LatestIsCarried(states, init, d, j); }
  }

  lemma {:induction false} CarriedHasLatest(states: States, turns: seq<Turn>, d: string) returns (j: nat)
    requires exists i :: 0 <= i < |turns| && Projections(states, turns[i].projected, d) != []
    ensures LatestTurn(states, turns, d, j)
    decreases |turns|
  {
    hide Projections;
    var last := |turns| - 1;
    if Projections(states, turns[last].projected, d) != [] {
      j := last;
    } else {
      assert forall i | 0 <= i < last :: turns[..last][i] == turns[i];
      j := CarriedHasLatest(states, turns[..last], d);
    }
  }

  lemma {:induction false} NeverProjected(states: States, turns: seq<Turn>, d: string)
    requires forall i | 0 <= i < |turns| :: Projections(states, turns[i].projected, d) == []
    ensures Carried(states, turns, d).None?
  {
    hide Projections;
    if turns != [] { NeverProjected(states, turns[..|turns| - 1], d); }
  }

  /** A point shows a value exactly when the latest turn to project the dimension projected it last; it shows none
      exactly when no turn so far did. */
  lemma ValueIsTheLatestProjected(states: States, turns: seq<Turn>, d: string, v: real)
    ensures Carried(states, turns, d) == Some(v)
            <==> exists j: nat :: LatestTurn(states, turns, d, j) && Last(Projections(states, turns[j].projected, d)).value == v
    ensures Carried(states, turns, d).None?
            <==> forall i | 0 <= i < |turns| :: Projections(states, turns[i].projected, d) == []
  {
    hide Projections, Carried;
    if forall i | 0 <= i < |turns| :: Projections(states, turns[i].projected, d) == [] {
      NeverProjected(states, turns, d);
    } else {
      var j := CarriedHasLatest(states, turns, d);
      LatestIsCarried(states, turns, d, j);
    }
  }

  // ---- do the changes add up? ----------------------------------------------------------------

  predicate OnGrid(x: real) {
    x * STEP == (x * STEP).Floor as real
  }

  /** Rounding moves a number by at most half a step, and not at all exactly on the four-decimal grid. */
  lemma RoundingIsClose(x: real)
    ensures -HALF <= Round4(x) - x <= HALF
    ensures Round4(x) == x <==> OnGrid(x)
    ensures OnGrid(Round4(x))
    ensures Round4(x) - x == HALF || Round4(x) - x == -HALF ==> (Round4(x) * 10000.0).Floor % 2 == 0
  {
    var scaled := x * STEP;
    var down := scaled.Floor;
    var rest := scaled - down as real;
    assert 0.0 <= rest < 1.0;
    var n := if rest < 0.5 || (rest == 0.5 && down % 2 == 0) then down else down + 1;
    assert Round4(x) * STEP == n as real;
    assert n as real == down as real || n as real == down as real + 1.0;
  }

  lemma GridDifference(x: real, y: real)
    requires OnGrid(x) && OnGrid(y)
    ensures OnGrid(x - y)
  {
    assert (x - y) * STEP == ((x * STEP).Floor - (y * STEP).Floor) as real;
  }

  /** The first value the dimension was shown with. */
  function FirstKnown(states: States, turns: seq<Turn>, d: string): Option<real> {
    if turns == [] then None else
    var before := FirstKnown(states, turns[..|turns| - 1], d);
    if before.Some? then before else Carried(states, turns, d)
  }

  function Sum(states: States, turns: seq<Turn>, d: string): real {
    if turns == [] then 0.0 else
    Sum(states, turns[..|turns| - 1], d) + (if Delta(states, turns, d).Some? then Delta(states, turns, d).value else 0.0)
  }

  /** First known value plus the changes so far is the current value. */
  predicate AddsUp(states: States, turns: seq<Turn>, d: string) {
    Carried(states, turns, d).Some? ==>
      FirstKnown(states, turns, d).Some? && FirstKnown(states, turns, d).value + Sum(states, turns, d) == Carried(states, turns, d).value
  }

  /** The last turn's change starts from the value carried into the turn, not from another projection inside it. */
  predicate Joined(states: States, turns: seq<Turn>, d: string) {
    turns == [] ||
    var here := Projections(states, turns[|turns| - 1].projected, d);
    var carried := Carried(states, turns[..|turns| - 1], d);
    here == [] || Base(here, carried) == (if carried.Some? then carried.value else Last(here).value)
  }

  /** One projection of the dimension is always joined. */
  lemma OneProjectionIsJoined(states: States, turns: seq<Turn>, d: string)
    requires turns != [] ==> |Projections(states, turns[|turns| - 1].projected, d)| <= 1
    ensures Joined(states, turns, d)
  {
    hide Projections;
  }

  ghost predicate ValuesOnGrid(states: States) {
    forall id | id in states :: OnGrid(states[id].value)
  }

  lemma {:induction false} ProjectionsOnGrid(states: States, ids: seq<string>, d: string)
    requires ValuesOnGrid(states)
    ensures forall i | 0 <= i < |Projections(states, ids, d)| :: OnGrid(Projections(states, ids, d)[i].value)
  {
    hide OnGrid;
    if ids != [] { ProjectionsOnGrid(states, ids[..|ids| - 1], d); }
  }

  lemma {:induction false} CarriedOnGrid(states: States, turns: seq<Turn>, d: string)
    requires ValuesOnGrid(states)
    ensures Carried(states, turns, d).Some? ==> OnGrid(Carried(states, turns, d).value)
  {
    hide OnGrid, Projections;
    if turns != [] {
      ProjectionsOnGrid(states, turns[|turns| - 1].projected, d);
      CarriedOnGrid(states, turns[..|turns| - 1], d);
    }
  }

  /** On the grid the change of a turn is not rounded. */
  lemma GridDelta(states: States, turns: seq<Turn>, d: string)
    requires ValuesOnGrid(states) && turns != [] && Projections(states, turns[|turns| - 1].projected, d) != []
    ensures var here := Projections(states, turns[|turns| - 1].projected, d);
            Delta(states, turns, d) == Some(Last(here).value - Base(here, Carried(states, turns[..|turns| - 1], d)))
  {
    hide OnGrid, Projections, Round4;
    var here := Projections(states, turns[|turns| - 1].projected, d);
    var carried := Carried(states, turns[..|turns| - 1], d);
    ProjectionsOnGrid(states, turns[|turns| - 1].projected, d);
    CarriedOnGrid(states, turns[..|turns| - 1], d);
    assert OnGrid(Last(here).value) && OnGrid(Base(here, carried));
    GridDifference(Last(here).value, Base(here, carried));
    RoundingIsClose(Last(here).value - Base(here, carried));
  }

  lemma AddsUpNext(states: States, turns: seq<Turn>, d: string)
    requires ValuesOnGrid(states) && turns != [] && AddsUp(states, turns[..|turns| - 1], d)
    requires Carried(states, turns[..|turns| - 1], d).None? ==>
              Sum(states, turns[..|turns| - 1], d) == 0.0 && FirstKnown(states, turns[..|turns| - 1], d).None?
    ensures AddsUp(states, turns, d) <==> Joined(states, turns, d)
    ensures Carried(states, turns, d).None? ==> Sum(states, turns, d) == 0.0 && FirstKnown(states, turns, d).None?
  {
    if Projections(states, turns[|turns| - 1].projected, d) != [] { GridDelta(states, turns, d); }
    hide Projections, Round4, OnGrid, Base;
  }

  lemma {:induction false} UnknownSumsToZero(states: States, turns: seq<Turn>, d: string)
    requires Carried(states, turns, d).None?
    ensures Sum(states, turns, d) == 0.0 && FirstKnown(states, turns, d).None?
  {
    hide Projections, Round4;
    if turns != [] { UnknownSumsToZero(states, turns[..|turns| - 1], d); }
  }

  lemma NothingAddsUp(states: States, d: string)
    ensures AddsUp(states, [], d) && Joined(states, [], d)
  {
  }

  /** With values of four decimals, the changes add up at every point exactly when every turn's change is joined to the
      value carried into it; a turn that projects a dimension twice usually is not. */
  lemma {:induction false} ChangesAddUpIff(states: States, turns: seq<Turn>, d: string)
    requires ValuesOnGrid(states)
    ensures (forall n | 0 <= n <= |turns| :: AddsUp(states, turns[..n], d))
            <==> forall n | 0 <= n <= |turns| :: Joined(states, turns[..n], d)
  {
    hide Projections, Base, AddsUp, Joined, Carried, Sum, FirstKnown;
    assert turns[..0] == [] && turns[..|turns|] == turns;
    if turns == [] {
      assert AddsUp(states, [], d) && Joined(states, [], d) by { NothingAddsUp(states, d); }
    } else {
      var init := turns[..|turns| - 1];
      ChangesAddUpIff(states, init, d);
      assert forall n | 0 <= n <= |init| :: init[..n] == turns[..n];
      assert init[..|init|] == init;
      if AddsUp(states, init, d) {
        if Carried(states, init, d).None? { UnknownSumsToZero(states, init, d); }
        AddsUpNext(states, turns, d);
      }
    }
  }

  /** A turn that projects a dimension twice, to different values: its change is counted from inside the turn. */
  lemma TwiceProjectedDoesNotAddUp(states: States, first: string, second: string, id: string, d: string)
    requires first in states && second in states && states[first].dimension == d && states[second].dimension == d
    requires ValuesOnGrid(states)
    ensures AddsUp(states, [Turn(id, [first, second])], d) <==> states[first].value == states[second].value
  {
    var turns := [Turn(id, [first, second])];
    assert [first, second][..1] == [first] && [first][..0] == [] && turns[..0] == [];
    assert Projections(states, [first], d) == [states[first]];
    assert Projections(states, [first, second], d) == [states[first], states[second]];
    hide Round4, OnGrid;
    AddsUpNext(states, turns, d);
  }

  /** How many turns changed or could have changed the dimension. */
  function Projecting(states: States, turns: seq<Turn>, d: string): nat {
    if turns == [] then 0 else
    Projecting(states, turns[..|turns| - 1], d) + (if Projections(states, turns[|turns| - 1].projected, d) != [] then 1 else 0)
  }

  predicate ProjectsAny(states: States, turn: Turn, d: string) {
    exists j :: 0 <= j < |turn.projected| && Names(states, turn.projected[j], d)
  }

  function ProjectingTurns(states: States, turns: seq<Turn>, d: string): set<nat> {
    set i | 0 <= i < |turns| && ProjectsAny(states, turns[i], d)
  }

  lemma NoTurns(states: States, d: string)
    ensures ProjectingTurns(states, [], d) == {}
  {
  }

  lemma OneMoreTurn(states: States, turns: seq<Turn>, d: string)
    requires turns != []
    ensures var last := |turns| - 1;
            |ProjectingTurns(states, turns, d)|
            == |ProjectingTurns(states, turns[..last], d)| + if ProjectsAny(states, turns[last], d) then 1 else 0
  {
    hide ProjectsAny;
    var last := |turns| - 1;
    var init := turns[..last];
    assert forall i | 0 <= i < last :: init[i] == turns[i];
    assert ProjectingTurns(states, turns, d) == ProjectingTurns(states, init, d) + if ProjectsAny(states, turns[last], d) then {last} else {};
  }

  lemma {:induction false} ProjectingIsCounted(states: States, turns: seq<Turn>, d: string)
    ensures Projecting(states, turns, d) == |ProjectingTurns(states, turns, d)|
  {
    hide Projections, Names, ProjectingTurns;
    if turns != [] {
      ProjectingIsCounted(states, turns[..|turns| - 1], d);
      ProjectsNothingIff(states, turns[|turns| - 1].projected, d);
      OneMoreTurn(states, turns, d);
    } else {
      NoTurns(states, d);
    }
  }

  /** With values of any precision the changes of joined turns drift from the current value by at most half a step for
      every turn that projected the dimension. */
  lemma {:induction false} DriftIsBounded(states: States, turns: seq<Turn>, d: string)
    requires forall n | 0 <= n <= |turns| :: Joined(states, turns[..n], d)
    ensures Carried(states, turns, d).Some? ==> FirstKnown(states, turns, d).Some?
    ensures Carried(states, turns, d).Some? ==>
              var drift := FirstKnown(states, turns, d).value + Sum(states, turns, d) - Carried(states, turns, d).value;
              -HALF * Projecting(states, turns, d) as real <= drift <= HALF * Projecting(states, turns, d) as real
  {
    if turns != [] {
      var init := turns[..|turns| - 1];
      assert forall n | 0 <= n <= |init| :: init[..n] == turns[..n];
      assert turns[..|turns|] == turns;
      DriftIsBounded(states, init, d);
      if Carried(states, init, d).None? { UnknownSumsToZero(states, init, d); }
      DriftNext(states, turns, d);
    }
  }

  lemma DriftNext(states: States, turns: seq<Turn>, d: string)
    requires turns != [] && Joined(states, turns, d)
    requires var init := turns[..|turns| - 1];
             if Carried(states, init, d).None? then Sum(states, init, d) == 0.0 && FirstKnown(states, init, d).None?
             else
               FirstKnown(states, init, d).Some?
               && var drift := FirstKnown(states, init, d).value + Sum(states, init, d) - Carried(states, init, d).value;
                  -HALF * Projecting(states, init, d) as real <= drift <= HALF * Projecting(states, init, d) as real
    ensures Carried(states, turns, d).Some? ==>
              FirstKnown(states, turns, d).Some?
              && var drift := FirstKnown(states, turns, d).value + Sum(states, turns, d) - Carried(states, turns, d).value;
                 -HALF * Projecting(states, turns, d) as real <= drift <= HALF * Projecting(states, turns, d) as real
  {
    hide Projections, Round4;
    var here := Projections(states, turns[|turns| - 1].projected, d);
    if here != [] {
      RoundingIsClose(Last(here).value - Base(here, Carried(states, turns[..|turns| - 1], d)));
    }
  }
}

/** Storage namespaces: which labels are accepted, where they lead, and who owns the directory they lead to. */
module StorageNamespace {
  import opened Wrappers

  datatype Environment = PRODUCTION | LAB

  /** The four identities and the environment; the manifest of a namespace records exactly these five fields. */
  datatype Binding = Binding(personaId: string, agentId: string, runtimeId: string, namespace: string, environment: Environment)

  /** A resolved path, as its segments. */
  type Path = seq<string>

  datatype Paths = Paths(root: Path, facts: Path, state: Path, manifest: Path)

  datatype BindError = Isolation | Mismatch | Unreadable

  const COMPAT := "production/xiyue"
  const FACTS := "facts.sqlite"
  const STATE := "cognition_state.sqlite"
  const MANIFEST := "binding.json"

  // ---- labels --------------------------------------------------------------------------

  function Split(s: string): (segments: seq<string>)
    ensures |segments| > 0
  {
    if s == "" then [""]
    else if s[0] == '/' then [""] + Split(s[1..])
    else var rest := Split(s[1..]); [[s[0]] + rest[0]] + rest[1..]
  }

  lemma SplitHead(s: string)
    ensures Split(s)[0] == "" <==> s == "" || s[0] == '/'
    ensures |Split(s)| == 1 && s != "" ==> s[0] != '/'
  {
  }

  /** Splitting loses nothing: different labels have different segments. */
  lemma {:induction false} SplitIsInjective(s: string, t: string)
    requires Split(s) == Split(t)
    ensures s == t
  {
    SplitHead(s);
    SplitHead(t);
    if s != "" && t != "" {
      var x, y := Split(s[1..]), Split(t[1..]);
      if s[0] == '/' && t[0] == '/' {
        assert ([""] + x)[1..] == x && ([""] + y)[1..] == y;
        SplitIsInjective(s[1..], t[1..]);
      } else if s[0] != '/' && t[0] != '/' {
        SameHead(s[0], x, t[0], y);
        SplitIsInjective(s[1..], t[1..]);
      }
      assert s[0] == t[0] ==> s == [s[0]] + s[1..] && t == [t[0]] + t[1..];
    }
  }

  function Join(segments: seq<string>): string {
    if segments == [] then "" else if |segments| == 1 then segments[0] else segments[0] + "/" + Join(segments[1..])
  }

  lemma JoinHead(c: char, segments: seq<string>)
    requires segments != []
    ensures Join([[c] + segments[0]] + segments[1..]) == [c] + Join(segments)
  {
    var longer := [[c] + segments[0]] + segments[1..];
    assert longer[1..] == segments[1..];
    if |segments| > 1 { assert [c] + segments[0] + "/" + Join(segments[1..]) == [c] + (segments[0] + "/" + Join(segments[1..])); }
  }

  /** The segments are what stands between the slashes. */
  lemma {:induction false} SplitIsBetweenSlashes(s: string)
    ensures Join(Split(s)) == s
    ensures forall i | 0 <= i < |Split(s)| :: '/' !in Split(s)[i]
  {
    if s != "" {
      var rest := Split(s[1..]);
      SplitIsBetweenSlashes(s[1..]);
      assert s == [s[0]] + s[1..];
      if s[0] == '/' {
        assert ([""] + rest)[1..] == rest;
      } else {
        JoinHead(s[0], rest);
      }
    }
  }

  lemma SameHead(c: char, x: seq<string>, d: char, y: seq<string>)
    requires |x| > 0 && |y| > 0 && [[c] + x[0]] + x[1..] == [[d] + y[0]] + y[1..]
    ensures c == d && x == y
  {
    var p, q := [[c] + x[0]] + x[1..], [[d] + y[0]] + y[1..];
    assert p[0] == q[0] && p[1..] == x[1..] && q[1..] == y[1..];
    assert p[0][0] == c && q[0][0] == d && p[0][1..] == x[0] && q[0][1..] == y[0];
    assert x == [x[0]] + x[1..] && y == [y[0]] + y[1..];
  }

  predicate Alnum(c: char) {
    'A' <= c <= 'Z' || 'a' <= c <= 'z' || '0' <= c <= '9'
  }

  predicate LabelChar(c: char) {
    Alnum(c) || c == '.' || c == '_' || c == '/' || c == '-'
  }

  predicate LabelText(s: string) {
    |s| > 0 && Alnum(s[0]) && forall i | 0 <= i < |s| :: LabelChar(s[i])
  }

  /** `$` also matches before a final line break. */
  predicate NamespacePattern(s: string) {
    LabelText(s) || (|s| > 1 && s[|s| - 1] == '\n' && LabelText(s[..|s| - 1]))
  }

  predicate Blank(c: char) {
    c == ' ' || c == '\t' || c == '\n' || c == '\r'
  }

  predicate Visible(s: string) {
    exists i :: 0 <= i < |s| && !Blank(s[i])
  }

  /** No segment is empty or leads nowhere or up. */
  predicate LeadsDown(s: string) {
    forall i | 0 <= i < |Split(s)| :: Split(s)[i] != "" && Split(s)[i] != "." && Split(s)[i] != ".."
  }

  predicate ValidNamespace(s: string) {
    Visible(s) && '\\' !in s && s[0] != '/' && LeadsDown(s) && NamespacePattern(s)
  }

  /** By code point: the ASCII digits and letters. */
  predicate Ascii(c: char) {
    48 <= c as int <= 57 || 65 <= c as int <= 90 || 97 <= c as int <= 122
  }

  lemma AlnumIs(c: char)
    ensures Alnum(c) <==> Ascii(c)
  {
  }

  predicate Announced(t: string) {
    t != "" && Ascii(t[0]) && forall c | c in t :: Ascii(c) || c in "._/-"
  }

  /** The label without one final line break. */
  function Core(s: string): string {
    if s != "" && s[|s| - 1] == '\n' then s[..|s| - 1] else s
  }

  /** Which labels are accepted: a letter or digit, then letters, digits and four marks, apart from one final line break, in
      segments none of which is empty or leads nowhere. */
  lemma AcceptedIff(s: string)
    ensures ValidNamespace(s)
            <==> Announced(Core(s)) && forall segment | segment in Split(s) :: segment != "" && segment != "." && segment != ".."
  {
    LabelTextIff(Core(s));
    PatternIsCore(s);
    LeadsDownIff(s);
    hide Split, LabelText, NamespacePattern, Visible, Core, LeadsDown, Announced;
    if LabelText(Core(s)) { CoreIsPlain(s); }
  }

  lemma LeadsDownIff(s: string)
    ensures LeadsDown(s) <==> forall segment | segment in Split(s) :: segment != "" && segment != "." && segment != ".."
  {
    hide Split;
    if LeadsDown(s) {
      forall segment | segment in Split(s) ensures segment != "" && segment != "." && segment != ".." {
        var i :| 0 <= i < |Split(s)| && Split(s)[i] == segment;
      }
    } else {
      var i :| 0 <= i < |Split(s)| && (Split(s)[i] == "" || Split(s)[i] == "." || Split(s)[i] == "..");
      assert Split(s)[i] in Split(s);
    }
  }

  lemma LabelTextIff(t: string)
    ensures LabelText(t) <==> Announced(t)
  {
    forall c: char ensures Alnum(c) <==> Ascii(c) { AlnumIs(c); }
    hide Alnum, Ascii;
    if LabelText(t) {
      forall c | c in t ensures LabelChar(c) {
        var i :| 0 <= i < |t| && t[i] == c;
      }
    } else if t != "" && Alnum(t[0]) {
      var i :| 0 <= i < |t| && !LabelChar(t[i]);
      assert t[i] in t;
    }
  }

  lemma PatternIsCore(s: string)
    ensures NamespacePattern(s) <==> LabelText(Core(s))
  {
    hide Alnum;
    assert !LabelChar('\n') by { NewlineIsNoLabel(); }
  }

  lemma NewlineIsNoLabel()
    ensures !LabelChar('\n') && !LabelChar('\\')
    ensures !Alnum('/') && !Alnum(' ') && !Alnum('\t') && !Alnum('\r') && !Alnum('\n')
  {
  }

  lemma CoreIsPlain(s: string)
    requires LabelText(Core(s))
    ensures Visible(s) && '\\' !in s && s[0] != '/'
  {
    NewlineIsNoLabel();
    hide Alnum;
    assert !Blank(s[0]) && s[0] == Core(s)[0];
    assert forall i | 0 <= i < |s| :: i < |Core(s)| ==> s[i] == Core(s)[i];
  }

  /** An accepted label holds only the announced characters exactly when it does not end in a line break. */
  lemma AcceptedTextIff(s: string)
    requires ValidNamespace(s)
    ensures LabelText(s) <==> s[|s| - 1] != '\n'
  {
  }

  lemma {:induction false} SplitNewline(s: string)
    ensures |Split(s + "\n")| == |Split(s)|
    ensures forall i | 0 <= i < |Split(s)| :: Split(s + "\n")[i] == if i < |Split(s)| - 1 then Split(s)[i] else Split(s)[i] + "\n"
  {
    if s == "" {
      assert "" + "\n" == "\n" && "\n"[1..] == "";
    } else {
      assert (s + "\n")[1..] == s[1..] + "\n";
      SplitNewline(s[1..]);
      if s[0] != '/' {
        var rest := Split(s[1..]);
        if |rest| == 1 { assert [s[0]] + (rest[0] + "\n") == [s[0]] + rest[0] + "\n"; }
      }
    }
  }

  /** Every clean label is accepted a second time with a line break at its end, as another namespace. */
  lemma LineBreakIsAccepted(s: string)
    requires ValidNamespace(s) && LabelText(s)
    ensures ValidNamespace(s + "\n") && Split(s + "\n") != Split(s)
  {
    SplitNewline(s);
    var t := s + "\n";
    assert t[..|t| - 1] == s;
    assert !Blank(t[0]);
    forall i | 0 <= i < |Split(t)| ensures Split(t)[i] != "" && Split(t)[i] != "." && Split(t)[i] != ".." {
      if i == |Split(s)| - 1 {
        var x := Split(t)[i];
        assert x[|x| - 1] == '\n';
      }
    }
    var last := |Split(s)| - 1;
    assert |Split(t)[last]| == |Split(s)[last]| + 1;
  }

  // ---- where a label leads -----------------------------------------------------------------

  predicate Within(inner: Path, outer: Path) {
    |outer| <= |inner| && inner[..|outer|] == outer
  }

  predicate Disjoint(a: Path, b: Path) {
    !Within(a, b) && !Within(b, a)
  }

  lemma WithinIff(inner: Path, outer: Path)
    ensures Within(inner, outer) <==> exists rest: Path :: inner == outer + rest
  {
    if Within(inner, outer) { assert inner == outer + inner[|outer|..]; }
  }

  /** Two directories are disjoint exactly when no path lies within both. */
  lemma DisjointIff(a: Path, b: Path)
    ensures Disjoint(a, b) <==> forall x: Path :: !(Within(x, a) && Within(x, b))
  {
    assert Within(a, a) && Within(b, b);
    forall x: Path ensures Within(x, a) && Within(x, b) ==> Within(a, b) || Within(b, a) { AncestorsAreNested(x, a, b); }
  }

  function Parent(p: Path): Path {
    if p == [] then [] else p[..|p| - 1]
  }

  /** The relocation variables move only the databases of the compatibility namespace. */
  function PathsOf(b: Binding, production: Path, lab: Path, factsAt: Option<Path>, stateAt: Option<Path>): Paths {
    if b.environment.PRODUCTION? && b.namespace == COMPAT then
      var facts := if factsAt.Some? then factsAt.value else production + [FACTS];
      var state := if stateAt.Some? then stateAt.value else production + [STATE];
      Paths(Parent(state), facts, state, Parent(state) + [MANIFEST])
    else
      var root := (if b.environment.PRODUCTION? then production else lab) + Split(b.namespace);
      Paths(root, root + [FACTS], root + [STATE], root + [MANIFEST])
  }

  function Resolve(b: Binding, production: Path, lab: Path, factsAt: Option<Path>,
                   stateAt: Option<Path>): Result<Paths, BindError> {
    var paths := PathsOf(b, production, lab, factsAt, stateAt);
    match b.environment
    case PRODUCTION =>
      if Disjoint(Parent(paths.facts), lab) && Disjoint(Parent(paths.state), lab) then Ok(paths) else Err(Isolation)
    case LAB =>
      if b.namespace != COMPAT && Disjoint(lab, production) then Ok(paths) else Err(Isolation)
  }

  /** Everything a binding stores lies in one of these directories. */
  function Directories(p: Paths): set<Path> {
    {p.root, Parent(p.facts), Parent(p.state)}
  }

  function Files(p: Paths): set<Path> {
    {p.facts, p.state, p.manifest}
  }

  lemma WithinIsTransitive(a: Path, b: Path, c: Path)
    ensures Within(a, b) && Within(b, c) ==> Within(a, c)
  {
    if Within(a, b) && Within(b, c) { assert a[..|c|] == a[..|b|][..|c|]; }
  }

  lemma AncestorsAreNested(x: Path, a: Path, b: Path)
    ensures Within(x, a) && Within(x, b) ==> Within(a, b) || Within(b, a)
  {
    if Within(x, a) && Within(x, b) {
      if |a| <= |b| { assert x[..|b|][..|a|] == x[..|a|]; } else { assert x[..|a|][..|b|] == x[..|b|]; }
    }
  }

  lemma BesideStaysBeside(d: Path, lab: Path, inner: Path)
    requires Disjoint(d, lab) && Within(inner, lab)
    ensures Disjoint(d, inner)
  {
    WithinIsTransitive(d, inner, lab);
    AncestorsAreNested(inner, d, lab);
    hide Within;
  }

  /** A production and a lab binding that both resolve under the same roots share no directory and no ancestor of one,
      with or without relocation. */
  lemma LabIsApart(p: Binding, l: Binding, production: Path, lab: Path, factsAt: Option<Path>, stateAt: Option<Path>)
    requires p.environment.PRODUCTION? && l.environment.LAB?
    requires Resolve(p, production, lab, factsAt, stateAt).Ok? && Resolve(l, production, lab, factsAt, stateAt).Ok?
    ensures forall d, e |
              d in Directories(Resolve(p, production, lab, factsAt, stateAt).value)
              && e in Directories(Resolve(l, production, lab, factsAt, stateAt).value) :: Disjoint(d, e)
  {
    var pp := Resolve(p, production, lab, factsAt, stateAt).value;
    var lp := Resolve(l, production, lab, factsAt, stateAt).value;
    assert lp.root == lab + Split(l.namespace);
    assert Parent(lp.facts) == lp.root && Parent(lp.state) == lp.root && Within(lp.root, lab);
    assert pp.root == Parent(pp.state);
    hide Disjoint, Parent, Split, Within;
    forall d | d in Directories(pp) ensures Disjoint(d, lp.root) {
      BesideStaysBeside(d, lab, lp.root);
    }
  }

  /** The segments by which a binding's directory lies below its environment's root. */
  function Offset(b: Binding): Path {
    if b.environment.PRODUCTION? && b.namespace == COMPAT then [] else Split(b.namespace)
  }

  lemma RootIsOffset(b: Binding, production: Path, lab: Path)
    ensures var p := PathsOf(b, production, lab, None, None);
            && p.root == (if b.environment.PRODUCTION? then production else lab) + Offset(b)
            && p.facts == p.root + [FACTS] && p.state == p.root + [STATE] && p.manifest == p.root + [MANIFEST]
  {
    assert (production + [STATE])[..|production|] == production;
  }

  lemma OffsetIsInjective(a: Binding, b: Binding)
    requires a.environment == b.environment && Offset(a) == Offset(b)
    ensures a.namespace == b.namespace
  {
    if Offset(a) == Split(a.namespace) && Offset(b) == Split(b.namespace) { SplitIsInjective(a.namespace, b.namespace); }
  }

  lemma SameLast(a: Path, b: Path, x: string, y: string)
    requires a + [x] == b + [y]
    ensures a == b && x == y
  {
    assert (a + [x])[|a|] == x && (b + [y])[|b|] == y;
    assert (a + [x])[..|a|] == a && (b + [y])[..|b|] == b;
  }

  /** Without relocation, two bindings of one environment share a file exactly when they have the same namespace. */
  lemma FilesAreSharedIff(a: Binding, b: Binding, production: Path, lab: Path)
    requires a.environment == b.environment
    ensures Files(PathsOf(a, production, lab, None, None)) !! Files(PathsOf(b, production, lab, None, None))
            <==> a.namespace != b.namespace
  {
    RootIsOffset(a, production, lab);
    RootIsOffset(b, production, lab);
    var p, q := PathsOf(a, production, lab, None, None), PathsOf(b, production, lab, None, None);
    if a.namespace == b.namespace {
      assert p.facts in Files(p) && p.facts in Files(q);
    } else {
      assert p.root != q.root by {
        var top := if a.environment.PRODUCTION? then production else lab;
        if p.root == q.root {
          assert (top + Offset(a))[|top|..] == Offset(a) && (top + Offset(b))[|top|..] == Offset(b);
          OffsetIsInjective(a, b);
        }
      }
      forall f | f in Files(p) ensures f !in Files(q) {
        if f in Files(q) {
          var x: string :| x in {FACTS, STATE, MANIFEST} && f == p.root + [x];
          var y: string :| y in {FACTS, STATE, MANIFEST} && f == q.root + [y];
          SameLast(p.root, q.root, x, y);
        }
      }
    }
  }

  lemma NestedIff(top: Path, x: Path, y: Path)
    ensures Within(top + y, top + x) <==> Within(y, x)
  {
    if |x| <= |y| {
      assert (top + y)[..|top + x|] == top + y[..|x|];
      if top + y[..|x|] == top + x {
        assert (top + y[..|x|])[|top|..] == y[..|x|] && (top + x)[|top|..] == x;
      }
    }
  }

  /** Directories of one environment are apart exactly when neither label leads below the other; the compatibility
      directory contains every other production directory. */
  lemma DirectoriesAreApartIff(a: Binding, b: Binding, production: Path, lab: Path)
    requires a.environment == b.environment
    ensures Disjoint(PathsOf(a, production, lab, None, None).root, PathsOf(b, production, lab, None, None).root)
            <==> Disjoint(Offset(a), Offset(b))
    ensures a.environment.PRODUCTION? && a.namespace == COMPAT ==>
              Within(PathsOf(b, production, lab, None, None).root, PathsOf(a, production, lab, None, None).root)
  {
    RootIsOffset(a, production, lab);
    RootIsOffset(b, production, lab);
    var top := if a.environment.PRODUCTION? then production else lab;
    NestedIff(top, Offset(a), Offset(b));
    NestedIff(top, Offset(b), Offset(a));
    hide Split;
    if a.environment.PRODUCTION? && a.namespace == COMPAT { assert Within(Offset(b), []); }
  }

  // ---- relocation --------------------------------------------------------------------------

  predicate Compat(b: Binding) {
    b.environment.PRODUCTION? && b.namespace == COMPAT
  }

  /** The variable of the facts database moves that database and nothing else. */
  lemma FactsVariableMovesFacts(b: Binding, production: Path, lab: Path, f: Option<Path>, g: Option<Path>, stateAt: Option<Path>)
    requires Compat(b) && Resolve(b, production, lab, f, stateAt).Ok? && Resolve(b, production, lab, g, stateAt).Ok?
    ensures var x, y := Resolve(b, production, lab, f, stateAt).value, Resolve(b, production, lab, g, stateAt).value;
            && x.state == y.state && x.root == y.root && x.manifest == y.manifest
            && x.facts == (if f.Some? then f.value else production + [FACTS])
  {
  }

  /** The variable of the state database moves that database, and the root and the manifest into its directory; the facts
      stay. */
  lemma StateVariableMovesTheRest(b: Binding, production: Path, lab: Path, factsAt: Option<Path>, s: Option<Path>, t: Option<Path>)
    requires Compat(b) && Resolve(b, production, lab, factsAt, s).Ok? && Resolve(b, production, lab, factsAt, t).Ok?
    ensures var x, y := Resolve(b, production, lab, factsAt, s).value, Resolve(b, production, lab, factsAt, t).value;
            && x.facts == y.facts
            && x.state == (if s.Some? then s.value else production + [STATE])
            && x.manifest == x.root + [MANIFEST] && (s.None? ==> x.root == production)
            && (s.Some? && s.value != [] ==> x.state == x.root + [s.value[|s.value| - 1]])
  {
    assert (production + [STATE])[..|production|] == production;
    if s.Some? && s.value != [] { assert s.value == s.value[..|s.value| - 1] + [s.value[|s.value| - 1]]; }
  }

  /** To every other binding both variables mean nothing. */
  lemma OthersIgnoreRelocation(b: Binding, production: Path, lab: Path, factsAt: Option<Path>, stateAt: Option<Path>)
    requires !Compat(b)
    ensures Resolve(b, production, lab, factsAt, stateAt) == Resolve(b, production, lab, None, None)
  {
  }

  /** A binding resolves exactly when its databases lie apart from the lab root, and a lab binding when the two roots lie
      apart and it does not ask for the compatibility namespace; otherwise the refusal is an isolation error. */
  lemma ResolvesIff(b: Binding, production: Path, lab: Path, factsAt: Option<Path>, stateAt: Option<Path>)
    ensures var r := Resolve(b, production, lab, factsAt, stateAt);
            && (r.Ok? || r == Err(Isolation))
            && (b.environment.LAB? ==> (r.Ok? <==> b.namespace != COMPAT && Disjoint(lab, production)))
            && (b.environment.PRODUCTION? && b.namespace != COMPAT ==> (r.Ok? <==> Disjoint(production + Split(b.namespace), lab)))
            && (Compat(b) ==>
                  (r.Ok? <==> && Disjoint(if factsAt.Some? then Parent(factsAt.value) else production, lab)
                              && Disjoint(if stateAt.Some? then Parent(stateAt.value) else production, lab)))
  {
    hide Disjoint, Split;
    assert (production + [STATE])[..|production|] == production && (production + [FACTS])[..|production|] == production;
    var root := production + Split(b.namespace);
    assert (root + [STATE])[..|root|] == root && (root + [FACTS])[..|root|] == root;
  }

  // ---- claiming a directory ----------------------------------------------------------------

  /** A manifest as a reader finds it; a write that was cut short leaves text no reader can parse. */
  datatype Manifest = Owner(binding: Binding) | Torn

  type Manifests = map<Path, Manifest>

  function Claim(m: Manifests, at: Path, b: Binding): Result<Manifests, BindError> {
    if at in m then
      match m[at]
      case Torn => Err(Unreadable)
      case Owner(o) => if o == b then Ok(m) else Err(Mismatch)
    else Ok(m[at := Owner(b)])
  }

  /** Where a process runs: its roots and its relocation variables. */
  datatype Site = Site(production: Path, lab: Path, factsAt: Option<Path>, stateAt: Option<Path>)

  function ResolveAt(b: Binding, s: Site): Result<Paths, BindError> {
    Resolve(b, s.production, s.lab, s.factsAt, s.stateAt)
  }

  class NamespaceStore {
    var manifests: Manifests

    constructor ()
      ensures manifests == map[]
    {
      manifests := map[];
    }

    method WriteOrVerifyManifest(at: Path, b: Binding) returns (r: Result<(), BindError>)
      modifies this
      ensures match Claim(old(manifests), at, b)
              case Ok(m) => manifests == m && r == Ok(())
              case Err(e) => manifests == old(manifests) && r == Err(e)
    {
      if at in manifests {
        match manifests[at] {
          case Torn => return Err(Unreadable);
          case Owner(o) =>
            if o != b { return Err(Mismatch); }
            return Ok(());
        }
      }
      manifests := manifests[at := Owner(b)];
      r := Ok(());
    }

    method BindStorage(b: Binding, s: Site) returns (r: Result<Paths, BindError>)
      modifies this
      ensures r == Bound(old(manifests), b, s) && manifests == AfterBind(old(manifests), b, s, true)
    {
      var paths := ResolveAt(b, s);
      if paths.Err? { return paths; }
      var claimed := WriteOrVerifyManifest(paths.value.manifest, b);
      if claimed.Err? { return Err(claimed.error); }
      r := paths;
    }
  }

  function Bound(m: Manifests, b: Binding, s: Site): Result<Paths, BindError> {
    var paths := ResolveAt(b, s);
    if paths.Err? then paths else
    match Claim(m, paths.value.manifest, b) case Ok(_) => paths case Err(e) => Err(e)
  }

  /** A bind succeeds exactly when its binding resolves there and nobody else, whole or torn, has the manifest; it answers
      those paths, and the manifest is then the binding's, with every other manifest as it was. */
  lemma BoundIff(m: Manifests, b: Binding, s: Site, p: Paths)
    ensures Bound(m, b, s) == Ok(p) <==>
              && Resolve(b, s.production, s.lab, s.factsAt, s.stateAt) == Ok(p)
              && (p.manifest in m ==> m[p.manifest] == Owner(b))
    ensures Bound(m, b, s) == Ok(p) ==> AfterBind(m, b, s, true) == m[p.manifest := Owner(b)]
    ensures Bound(m, b, s) == Ok(p) && p.manifest !in m ==> AfterBind(m, b, s, false) == m[p.manifest := Torn]
    ensures Bound(m, b, s).Err? ==> AfterBind(m, b, s, true) == AfterBind(m, b, s, false) == m
  {
    hide Resolve;
    if Bound(m, b, s) == Ok(p) && p.manifest in m { assert m[p.manifest := Owner(b)] == m; }
  }

  /** The manifests after a bind; a first write that is not completed leaves a torn one. */
  function AfterBind(m: Manifests, b: Binding, s: Site, completed: bool): Manifests {
    var paths := ResolveAt(b, s);
    if paths.Err? then m else
    match Claim(m, paths.value.manifest, b)
    case Err(_) => m
    case Ok(after) => if completed || paths.value.manifest in m then after else m[paths.value.manifest := Torn]
  }

  datatype Attempt = Attempt(binding: Binding, site: Site, completed: bool)

  function Run(m: Manifests, attempts: seq<Attempt>): Manifests {
    if attempts == [] then m else
    var last := attempts[|attempts| - 1];
    AfterBind(Run(m, attempts[..|attempts| - 1]), last.binding, last.site, last.completed)
  }

  /** The attempt completed, and its caller was given this manifest path. */
  predicate Holds(m: Manifests, attempts: seq<Attempt>, i: nat, at: Path)
    requires i < |attempts|
  {
    var before := Run(m, attempts[..i]);
    var a := attempts[i];
    a.completed && Bound(before, a.binding, a.site).Ok? && Bound(before, a.binding, a.site).value.manifest == at
  }

  lemma {:induction false} ManifestsOnlyGrow(m: Manifests, attempts: seq<Attempt>, i: nat, at: Path)
    requires i <= |attempts| && at in Run(m, attempts[..i])
    ensures at in Run(m, attempts) && Run(m, attempts)[at] == Run(m, attempts[..i])[at]
    decreases |attempts|
  {
    if i == |attempts| {
      assert attempts[..i] == attempts;
    } else {
      var init := attempts[..|attempts| - 1];
      assert init[..i] == attempts[..i];
      ManifestsOnlyGrow(m, init, i, at);
    }
  }

  lemma HolderIsOwner(m: Manifests, attempts: seq<Attempt>, i: nat, at: Path)
    requires i < |attempts| && Holds(m, attempts, i, at)
    ensures at in Run(m, attempts) && Run(m, attempts)[at] == Owner(attempts[i].binding)
  {
    assert attempts[..i + 1][..i] == attempts[..i];
    assert at in Run(m, attempts[..i + 1]) && Run(m, attempts[..i + 1])[at] == Owner(attempts[i].binding);
    hide Run, Holds;
    ManifestsOnlyGrow(m, attempts, i + 1, at);
  }

  /** Over every sequence of binds, from whatever sites and however their writes were cut, a manifest path is held by
      one identity only; re-binding that identity succeeds and re-binding any other fails. */
  lemma OneHolderPerNamespace(m: Manifests, attempts: seq<Attempt>, i: nat, at: Path, b: Binding, s: Site)
    requires i < |attempts| && Holds(m, attempts, i, at)
    requires ResolveAt(b, s).Ok? && ResolveAt(b, s).value.manifest == at
    ensures Bound(Run(m, attempts), b, s).Ok? <==> b == attempts[i].binding
    ensures forall j | 0 <= j < |attempts| && Holds(m, attempts, j, at) :: attempts[j].binding == attempts[i].binding
  {
    HolderIsOwner(m, attempts, i, at);
    hide Holds, Run, ResolveAt;
    forall j | 0 <= j < |attempts| && Holds(m, attempts, j, at) ensures attempts[j].binding == attempts[i].binding {
      HolderIsOwner(m, attempts, j, at);
    }
  }

  predicate Targets(a: Attempt, at: Path) {
    ResolveAt(a.binding, a.site).Ok? && ResolveAt(a.binding, a.site).value.manifest == at
  }

  /** The first attempt whose paths resolve to this manifest, or the end. */
  function FirstAt(attempts: seq<Attempt>, at: Path): (n: nat)
    ensures n <= |attempts|
  {
    if attempts == [] then 0 else
    var n := FirstAt(attempts[..|attempts| - 1], at);
    if n == |attempts| - 1 && !Targets(attempts[n], at) then n + 1 else n
  }

  lemma {:induction false} FirstAtIs(attempts: seq<Attempt>, at: Path)
    ensures var n := FirstAt(attempts, at);
            (n < |attempts| ==> Targets(attempts[n], at)) && forall i | 0 <= i < n :: !Targets(attempts[i], at)
  {
    hide Targets;
    if attempts != [] {
      var init := attempts[..|attempts| - 1];
      FirstAtIs(init, at);
      assert forall i | 0 <= i < |init| :: init[i] == attempts[i];
    }
  }

  /** An unclaimed manifest is made by the first attempt at it, as that attempt left it, and by nothing later. */
  lemma {:induction false} FirstAttemptMakesIt(m: Manifests, attempts: seq<Attempt>, at: Path)
    requires at !in m
    ensures var n := FirstAt(attempts, at);
            && (at in Run(m, attempts) <==> n < |attempts|)
            && (n < |attempts| ==> Run(m, attempts)[at] == if attempts[n].completed then Owner(attempts[n].binding) else Torn)
    decreases |attempts|
  {
    hide ResolveAt;
    if attempts != [] { FirstAttemptMakesIt(m, attempts[..|attempts| - 1], at); }
  }

  /** Over every history that starts without this manifest, what a bind is told is decided by the first attempt at its manifest:
      none was made, or a completed one of the same identity, and it succeeds; the first one was cut, and the manifest is
      unreadable for everyone, for good; a completed one of another identity, and it is refused. */
  lemma FirstAttemptDecides(m: Manifests, attempts: seq<Attempt>, b: Binding, s: Site)
    requires ResolveAt(b, s).Ok? && ResolveAt(b, s).value.manifest !in m
    ensures var n := FirstAt(attempts, ResolveAt(b, s).value.manifest);
            var r := Bound(Run(m, attempts), b, s);
            && (r.Ok? <==> n == |attempts| || (attempts[n].completed && attempts[n].binding == b))
            && (r == Err(Unreadable) <==> n < |attempts| && !attempts[n].completed)
            && (r == Err(Mismatch) <==> n < |attempts| && attempts[n].completed && attempts[n].binding != b)
            && (n < |attempts| ==> Targets(attempts[n], ResolveAt(b, s).value.manifest))
            && (forall i | 0 <= i < n :: !Targets(attempts[i], ResolveAt(b, s).value.manifest))
  {
    FirstAtIs(attempts, ResolveAt(b, s).value.manifest);
    hide ResolveAt, Run, Targets;
    FirstAttemptMakesIt(m, attempts, ResolveAt(b, s).value.manifest);
  }

  /** A torn manifest stays torn: no later attempt repairs it. */
  lemma TornStaysClosed(m: Manifests, attempts: seq<Attempt>, i: nat, at: Path, b: Binding, s: Site)
    requires i <= |attempts| && at in Run(m, attempts[..i]) && Run(m, attempts[..i])[at].Torn?
    requires ResolveAt(b, s).Ok? && ResolveAt(b, s).value.manifest == at
    ensures Bound(Run(m, attempts), b, s) == Err(Unreadable)
  {
    ManifestsOnlyGrow(m, attempts, i, at);
  }
}

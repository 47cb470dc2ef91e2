/**
 The reviewed dependency graphs of the Python client: which packages each target needs, and a lock
 that must mean the same on every target.
 */
module Dependencies {
  import opened Common

  datatype Os = Linux | MacOs

  /** A wheel target: an operating system and a CPython 3 minor version. */
  datatype Target = Target(os: Os, minor: nat)

  const TARGETS := {
    Target(Linux, 11), Target(Linux, 12), Target(Linux, 13), Target(Linux, 14),
    Target(MacOs, 11), Target(MacOs, 12), Target(MacOs, 13), Target(MacOs, 14)}

  datatype Operator = Eq | NotEq | Lt | LtE | Gt | GtE

  // ----- Versions -----

  /** The numbers of a version text, or None when it is not digits separated by dots. */
  function ParseVersion(text: string): Option<seq<nat>>
    decreases |text|
  {
    var dot := DotAt(text);
    if !IsDigits(text[..dot]) then None
    else if dot == |text| then Some([Number(text)])
    else
      var rest := ParseVersion(text[dot + 1..]);
      if rest.None? then None else Some([Number(text[..dot])] + rest.value)
  }

  function DotAt(text: string): (dot: nat)
    ensures dot <= |text| && (dot < |text| ==> text[dot] == '.') && forall i | 0 <= i < dot :: text[i] != '.'
  {
    if text == "" || text[0] == '.' then 0 else 1 + DotAt(text[1..])
  }

  /** At least four numbers, filled up with zeros. */
  function Padded(numbers: seq<nat>): seq<nat> {
    if |numbers| < 4 then numbers + seq(4 - |numbers|, _ => 0) else numbers
  }

  function Version(text: string): Option<seq<nat>> {
    var numbers := ParseVersion(text);
    if numbers.None? then None else Some(Padded(numbers.value))
  }

  /** The order of tuples. */
  predicate Before(a: seq<nat>, b: seq<nat>) {
    if b == [] then false
    else if a == [] then true
    else if a[0] != b[0] then a[0] < b[0]
    else Before(a[1..], b[1..])
  }

  predicate Holds(op: Operator, a: seq<nat>, b: seq<nat>) {
    match op
    case Eq => a == b
    case NotEq => a != b
    case Lt => Before(a, b)
    case LtE => !Before(b, a)
    case Gt => Before(b, a)
    case GtE => !Before(a, b)
  }

  /** One bound of a specification; None is an item whose syntax was not reviewed. */
  datatype Bound = Bound(op: Operator, version: string)

  /** Whether a version meets every bound; a refusal to judge is an error. */
  function Satisfies(selected: string, bounds: seq<Option<Bound>>): Result<bool, string> {
    if bounds == [] then Ok(true)
    else
      var front := Satisfies(selected, bounds[..|bounds| - 1]);
      if front.Err? || !front.value then front
      else
        var last := bounds[|bounds| - 1];
        if last.None? then Err("requirement syntax")
        else
          var left, right := Version(selected), Version(last.value.version);
          if left.None? || right.None? then Err("version syntax") else Ok(Holds(last.value.op, left.value, right.value))
  }

  // ----- Markers -----

  datatype Variable = PythonVersion | SysPlatform | Implementation | Extra

  /** A parsed environment marker; `Unreviewed` is any other syntax. */
  datatype Marker =
    | Text(text: string)
    | Name(variable: Variable)
    | And(left: Marker, right: Marker)
    | Or(left: Marker, right: Marker)
    | Compare(op: Operator, left: Marker, right: Marker)
    | Unreviewed

  datatype Value = Str(text: string) | Truth(truth: bool)

  function Environment(target: Target, variable: Variable): string {
    match variable
    case PythonVersion => PythonOf(target)
    case SysPlatform => if target.os.MacOs? then "darwin" else "linux"
    case Implementation => "CPython"
    case Extra => ""
  }

  function PythonOf(target: Target): string {
    "3." + Decimal(target.minor)
  }

  predicate Truthy(value: Value) {
    match value
    case Str(text) => text != ""
    case Truth(truth) => truth
  }

  function Codes(text: string): seq<nat> {
    seq(|text|, i requires 0 <= i < |text| => text[i] as nat)
  }

  function Rank(truth: bool): seq<nat> {
    if truth then [1] else [0]
  }

  /** A comparison of two evaluated operands; a text is never equal to a truth value, nor ordered with one. */
  function Compared(op: Operator, a: Value, b: Value): Result<bool, string> {
    if a.Str? && b.Str? then Ok(Holds(op, Codes(a.text), Codes(b.text)))
    else if a.Truth? && b.Truth? then Ok(Holds(op, Rank(a.truth), Rank(b.truth)))
    else if op.Eq? || op.NotEq? then Ok(op.NotEq?)
    else Err("marker operands")
  }

  function ComparedVersions(op: Operator, a: Value, b: Value): Result<bool, string> {
    if a.Truth? || b.Truth? then Err("marker operands")
    else
      var v, w := Version(a.text), Version(b.text);
      if v.None? || w.None? then Err("version syntax") else Ok(Holds(op, v.value, w.value))
  }

  function Evaluate(marker: Marker, target: Target): Result<Value, string> {
    match marker
    case Text(text) => Ok(Str(text))
    case Name(variable) => Ok(Str(Environment(target, variable)))
    case Unreviewed => Err("marker syntax")
    case And(left, right) =>
      var a, b := Evaluate(left, target), Evaluate(right, target);
      if a.Err? then a else if b.Err? then b else Ok(Truth(Truthy(a.value) && Truthy(b.value)))
    case Or(left, right) =>
      var a, b := Evaluate(left, target), Evaluate(right, target);
      if a.Err? then a else if b.Err? then b else Ok(Truth(Truthy(a.value) || Truthy(b.value)))
    case Compare(op, left, right) =>
      var a, b := Evaluate(left, target), Evaluate(right, target);
      if a.Err? then a else if b.Err? then b
      else
        var truth :=
          if left == Name(PythonVersion) then ComparedVersions(op, a.value, b.value)
          else Compared(op, a.value, b.value);
        if truth.Err? then Err(truth.error) else Ok(Truth(truth.value))
  }

  function MarkerApplies(marker: Marker, target: Target): Result<bool, string> {
    var value := Evaluate(marker, target);
    if value.Err? then Err(value.error) else Ok(Truthy(value.value))
  }

  // ----- The inventory -----

  /** `name` is None when the requirement does not start with a name; `marker` is None without a marker. */
  datatype Requirement = Requirement(name: Option<string>, bounds: seq<Option<Bound>>, marker: Option<Marker>)

  datatype Artifact = Artifact(
    sha256: string, targets: set<Target>, requiresPython: seq<Option<Bound>>, requiresDist: seq<Requirement>)

  datatype Package = Package(name: string, version: string, artifacts: seq<Artifact>)

  type Packages = map<string, Package>

  /** The packages by name; a repeated name keeps its last package. */
  function ByName(packages: seq<Package>): Packages {
    if packages == [] then map[]
    else ByName(packages[..|packages| - 1])[packages[|packages| - 1].name := packages[|packages| - 1]]
  }

  function Serving(artifacts: seq<Artifact>, target: Target): seq<Artifact> {
    if artifacts == [] then []
    else
      var last := artifacts[|artifacts| - 1];
      Serving(artifacts[..|artifacts| - 1], target) + (if target in last.targets then [last] else [])
  }

  /** The one wheel that serves a target. */
  function ArtifactFor(package: Package, target: Target): Option<Artifact> {
    var matching := Serving(package.artifacts, target);
    if |matching| == 1 then Some(matching[0]) else None
  }

  predicate Active(requirement: Requirement, target: Target) {
    requirement.marker.None? || MarkerApplies(requirement.marker.value, target) != Ok(false)
  }

  /**
   One requirement of a wheel: nothing when it is inactive, else the dependency, if it is reviewed and its pin
   fits.
   */
  function Dependency(packages: Packages, requirement: Requirement, target: Target): Result<Option<string>, string> {
    if requirement.marker.Some? && MarkerApplies(requirement.marker.value, target).Err? then Err("marker")
    else if !Active(requirement, target) then Ok(None)
    else if requirement.name.None? then Err("requirement")
    else
      var name := requirement.name.value;
      if name !in packages then Err("unreviewed active dependency")
      else if Satisfies(packages[name].version, requirement.bounds) != Ok(true) then Err("pin")
      else Ok(Some(name))
  }

  function ActiveFrom(packages: Packages, requirements: seq<Requirement>, target: Target): Result<seq<string>, string> {
    if requirements == [] then Ok([])
    else
      var front := ActiveFrom(packages, requirements[..|requirements| - 1], target);
      if front.Err? then front
      else
        var last := Dependency(packages, requirements[|requirements| - 1], target);
        if last.Err? then Err(last.error)
        else Ok(front.value + (if last.value.Some? then [last.value.value] else []))
  }

  /** What a selected package brings in on a target, or why it may not be selected. */
  function Examine(packages: Packages, name: string, target: Target): Result<seq<string>, string> {
    if name !in packages then Err("unreviewed dependency")
    else
      var wheel := ArtifactFor(packages[name], target);
      if wheel.None? then Err("expected exactly one wheel")
      else if Satisfies(PythonOf(target), wheel.value.requiresPython) != Ok(true) then Err("unsupported Python")
      else ActiveFrom(packages, wheel.value.requiresDist, target)
  }

  // ----- Closures -----

  /** A set that holds the roots and, with every acceptable package, what it brings in. */
  ghost predicate Closed(packages: Packages, roots: seq<string>, target: Target, names: set<string>) {
    && (forall root <- roots :: root in names)
    && forall name <- names :: var found := Examine(packages, name, target);
         found.Ok? ==> forall dependency <- found.value :: dependency in names
  }

  /** A name that every closed set holds. */
  ghost predicate Needed(packages: Packages, roots: seq<string>, target: Target, name: string) {
    forall names: set<string> | Closed(packages, roots, target, names) :: name in names
  }

  /** The least closed set, when each of its packages is acceptable on the target. */
  ghost predicate IsClosure(packages: Packages, roots: seq<string>, target: Target, names: set<string>) {
    && Closed(packages, roots, target, names)
    && (forall name <- names :: Needed(packages, roots, target, name))
    && (forall name <- names :: Examine(packages, name, target).Ok?)
  }

  /** The worklist; packages are taken from its end, and may be on it many times. */
  method Closure(packages: Packages, roots: seq<string>, target: Target) returns (result: Result<set<string>, string>)
    ensures result.Ok? ==> IsClosure(packages, roots, target, result.value)
    ensures result.Err? ==> exists name :: Needed(packages, roots, target, name) && Examine(packages, name, target).Err?
  {
    var pending, seen: set<string> := roots, {};
    while pending != []
      invariant seen <= packages.Keys
      invariant forall name <- seen :: Needed(packages, roots, target, name) && Examine(packages, name, target).Ok?
      invariant forall name <- pending :: Needed(packages, roots, target, name)
      invariant forall root <- roots :: root in seen || root in pending
      invariant forall name <- seen :: forall dependency <- Examine(packages, name, target).value ::
                  dependency in seen || dependency in pending
      decreases packages.Keys - seen, |pending|
    {
      var name := pending[|pending| - 1];
      var rest := pending[..|pending| - 1];
      assert pending == rest + [name];
      if name in seen {
        pending := rest;
      } else {
        var found := Examine(packages, name, target);
        if found.Err? {
          return Err(found.error);
        }
        seen := seen + {name};
        NeedsIts(packages, roots, target, name);
        pending := rest + found.value;
      }
    }
    return Ok(seen);
  }

  lemma NeedsIts(packages: Packages, roots: seq<string>, target: Target, name: string)
    requires Needed(packages, roots, target, name) && Examine(packages, name, target).Ok?
    ensures forall dependency <- Examine(packages, name, target).value :: Needed(packages, roots, target, dependency)
  {
  }

  /** The outcome does not depend on the order of the worklist: a closure is unique, and excludes a failure. */
  lemma ClosureIsUnique(packages: Packages, roots: seq<string>, target: Target, a: set<string>, b: set<string>)
    requires IsClosure(packages, roots, target, a) && IsClosure(packages, roots, target, b)
    ensures a == b
    ensures forall name :: Needed(packages, roots, target, name) ==> Examine(packages, name, target).Ok?
  {
    assert forall name <- a :: name in b;
    assert forall name <- b :: name in a;
  }

  /** A name is needed exactly when it is in the closure. */
  lemma ClosureIsTheNeeded(packages: Packages, roots: seq<string>, target: Target, names: set<string>)
    requires IsClosure(packages, roots, target, names)
    ensures forall name :: name in names <==> Needed(packages, roots, target, name)
  {
    forall name | Needed(packages, roots, target, name)
      ensures name in names
    {
    }
  }

  // ----- What a closure promises -----

  /** A bound that the version meets. */
  predicate Meets(version: string, bound: Option<Bound>) {
    && bound.Some?
    && Version(version).Some? && Version(bound.value.version).Some?
    && Holds(bound.value.op, Version(version).value, Version(bound.value.version).value)
  }

  lemma {:induction false} SatisfiesEvery(selected: string, bounds: seq<Option<Bound>>)
    ensures Satisfies(selected, bounds) == Ok(true) <==> forall bound <- bounds :: Meets(selected, bound)
    ensures Satisfies(selected, bounds) == Ok(false) ==>
      exists bound <- bounds :: bound.Some? && !Meets(selected, bound)
  {
    if bounds != [] {
      var front, last := bounds[..|bounds| - 1], bounds[|bounds| - 1];
      SatisfiesEvery(selected, front);
      FrontAndLast(bounds);
      assert last in bounds;
    }
  }

  lemma {:induction false} ServingIsWhatServes(artifacts: seq<Artifact>, target: Target)
    ensures forall artifact :: artifact in Serving(artifacts, target) <==>
      artifact in artifacts && target in artifact.targets
  {
    if artifacts != [] {
      ServingIsWhatServes(artifacts[..|artifacts| - 1], target);
      assert artifacts == artifacts[..|artifacts| - 1] + [artifacts[|artifacts| - 1]];
    }
  }

  /** The wheel for a target is the only artifact of the package that serves it. */
  lemma ArtifactForIsTheOne(package: Package, target: Target)
    requires ArtifactFor(package, target).Some?
    ensures forall artifact :: artifact in package.artifacts && target in artifact.targets <==>
              artifact == ArtifactFor(package, target).value
  {
    ServingIsWhatServes(package.artifacts, target);
    var matching := Serving(package.artifacts, target);
    assert matching == [matching[0]];
  }

  /** An active requirement names a reviewed package, and its pinned version meets every bound. */
  predicate Met(packages: Packages, requirement: Requirement) {
    && requirement.name.Some? && requirement.name.value in packages
    && forall bound <- requirement.bounds :: Meets(packages[requirement.name.value].version, bound)
  }

  lemma DependencyMeets(packages: Packages, requirement: Requirement, target: Target)
    requires Dependency(packages, requirement, target).Ok?
    ensures Active(requirement, target) ==>
              Met(packages, requirement) && Dependency(packages, requirement, target) ==
                Ok(Some(requirement.name.value))
    ensures !Active(requirement, target) ==> Dependency(packages, requirement, target) == Ok(None)
  {
    if requirement.name.Some? && requirement.name.value in packages {
      SatisfiesEvery(packages[requirement.name.value].version, requirement.bounds);
    }
  }

  lemma {:induction false} ActiveFromMeets(packages: Packages, requirements: seq<Requirement>, target: Target)
    requires ActiveFrom(packages, requirements, target).Ok?
    ensures forall requirement <- requirements | Active(requirement, target) ::
              Met(packages, requirement) && requirement.name.value in ActiveFrom(packages, requirements, target).value
  {
    if requirements != [] {
      var front, last := requirements[..|requirements| - 1], requirements[|requirements| - 1];
      ActiveFromMeets(packages, front, target);
      DependencyMeets(packages, last, target);
      FrontAndLast(requirements);
    }
  }

  /**
   Every member of a closure has one wheel for the target, supports its Python, and has each active
   requirement met by a pinned member.
   */
  lemma ClosureIsCompatible(packages: Packages, roots: seq<string>, target: Target, names: set<string>, name: string)
    requires IsClosure(packages, roots, target, names) && name in names
    ensures name in packages && ArtifactFor(packages[name], target).Some?
    ensures var wheel := ArtifactFor(packages[name], target).value;
      && (forall bound <- wheel.requiresPython :: Meets(PythonOf(target), bound))
      && forall requirement <- wheel.requiresDist | Active(requirement, target) ::
           Met(packages, requirement) && requirement.name.value in names
  {
    var wheel := ArtifactFor(packages[name], target).value;
    SatisfiesEvery(PythonOf(target), wheel.requiresPython);
    ActiveFromMeets(packages, wheel.requiresDist, target);
  }

  // ----- The lock -----

  /** The marker of a Python version below the given one. */
  function Below(limit: Target): Marker {
    Compare(Lt, Name(PythonVersion), Text(PythonOf(limit)))
  }

  const LIMIT := Target(Linux, 13)

  /** A line of the lock; its marker, when it has one, keeps it to Python versions below 3.13. */
  datatype LockLine = LockLine(name: string, version: string, marker: Option<Marker>, hashes: set<string>)

  function OldTargets(): set<Target> {
    set target | target in TARGETS && (target.minor == 11 || target.minor == 12)
  }

  predicate Reviewed(chosen: set<Target>) {
    chosen == TARGETS || chosen == OldTargets()
  }

  function LineFor(packages: Packages, name: string, chosen: set<Target>): LockLine
    requires name in packages
  {
    var package := packages[name];
    LockLine(
      name,
      package.version,
      if chosen == TARGETS then None else Some(Below(LIMIT)),
      set artifact | artifact in package.artifacts && artifact.targets * chosen != {} :: artifact.sha256)
  }

  predicate Applies(line: LockLine, target: Target) {
    line.marker.None? || MarkerApplies(line.marker.value, target) == Ok(true)
  }

  lemma DigitsParse(minor: nat)
    ensures ParseVersion(Decimal(minor)) == Some([minor])
  {
    var digits := Decimal(minor);
    NumberOfDecimal(minor);
    var dot := DotAt(digits);
    assert dot == |digits|;
    assert digits[..dot] == digits;
  }

  lemma PythonVersionParses(target: Target)
    ensures Version(PythonOf(target)) == Some([3, target.minor, 0, 0])
  {
    DigitsParse(target.minor);
    var digits := Decimal(target.minor);
    var text := PythonOf(target);
    assert text[0] == '3' && text[1] == '.';
    var dot := DotAt(text);
    assert dot == 1 && text[..dot] == [text[0]] && text[dot + 1..] == digits;
    assert text[..dot][..0] == [];
    assert Number(text[..dot]) == 3;
    assert ParseVersion(text).value == [3] + [target.minor] == [3, target.minor];
    assert Padded([3, target.minor]) == [3, target.minor, 0, 0];
  }

  lemma MinorsDecide(a: nat, b: nat)
    ensures Before([3, a, 0, 0], [3, b, 0, 0]) == (a < b)
  {
    var v, w := [3, a, 0, 0], [3, b, 0, 0];
    assert v[1..] == [a, 0, 0] && w[1..] == [b, 0, 0];
    assert v[1..][1..] == w[1..][1..];
    NotBeforeItself(v[1..][1..]);
  }

  lemma {:induction false} NotBeforeItself(a: seq<nat>)
    ensures !Before(a, a)
  {
    if a != [] {
      NotBeforeItself(a[1..]);
    }
  }

  lemma BelowApplies(limit: Target, target: Target)
    ensures MarkerApplies(Below(limit), target) == Ok(target.minor < limit.minor)
  {
    PythonVersionParses(target);
    PythonVersionParses(limit);
    MinorsDecide(target.minor, limit.minor);
    var left, right := Str(PythonOf(target)), Str(PythonOf(limit));
    assert ComparedVersions(Lt, left, right) == Ok(target.minor < limit.minor);
    assert Evaluate(Name(PythonVersion), target) == Ok(left);
    assert Evaluate(Text(PythonOf(limit)), target) == Ok(right);
  }

  /** The line of a package applies on the reviewed targets that selected it, and on no others. */
  lemma LineApplies(packages: Packages, name: string, chosen: set<Target>, target: Target)
    requires name in packages && Reviewed(chosen) && target in TARGETS
    ensures Applies(LineFor(packages, name, chosen), target) <==> target in chosen
  {
    BelowApplies(LIMIT, target);
  }

  /** The hashes of a line are those of the wheels that its targets select. */
  lemma LineHashes(packages: Packages, name: string, chosen: set<Target>, hash: string)
    requires name in packages && forall target <- chosen :: ArtifactFor(packages[name], target).Some?
    ensures hash in LineFor(packages, name, chosen).hashes
       <==> exists target <- chosen :: ArtifactFor(packages[name], target).value.sha256 == hash
  {
    var package := packages[name];
    forall target <- chosen {
      ArtifactForIsTheOne(package, target);
    }
    if hash in LineFor(packages, name, chosen).hashes {
      var artifact :| artifact in package.artifacts && artifact.targets * chosen != {} && artifact.sha256 == hash;
      var target :| target in artifact.targets * chosen;
      assert artifact == ArtifactFor(package, target).value;
    }
    if target :| target in chosen && ArtifactFor(package, target).value.sha256 == hash {
      var artifact := ArtifactFor(package, target).value;
      assert target in artifact.targets * chosen;
    }
  }

  // ----- The order of names -----

  lemma {:induction false} BeforeIsTotal(a: seq<nat>, b: seq<nat>)
    ensures a == b || Before(a, b) || Before(b, a)
  {
    if a != [] && b != [] && a[0] == b[0] {
      BeforeIsTotal(a[1..], b[1..]);
      assert a == [a[0]] + a[1..] && b == [b[0]] + b[1..];
    }
  }

  lemma {:induction false} BeforeIsTransitive(a: seq<nat>, b: seq<nat>, c: seq<nat>)
    requires Before(a, b) && Before(b, c)
    ensures Before(a, c)
  {
    if a != [] && a[0] == b[0] == c[0] {
      BeforeIsTransitive(a[1..], b[1..], c[1..]);
    }
  }

  predicate Precedes(name: string, other: string) {
    Before(Codes(name), Codes(other))
  }

  predicate Least(name: string, names: set<string>) {
    name in names && forall other <- names :: other == name || Precedes(name, other)
  }

  lemma LeastExists(names: set<string>)
    requires names != {}
    ensures exists name :: Least(name, names)
    decreases |names|
  {
    var some :| some in names;
    var rest := names - {some};
    assert names == rest + {some};
    if rest == {} {
      assert Least(some, names);
    } else {
      LeastExists(rest);
      var least :| Least(least, rest);
      BeforeIsTotal(Codes(some), Codes(least));
      if Precedes(some, least) {
        forall other <- rest | other != least
          ensures Precedes(some, other)
        {
          BeforeIsTransitive(Codes(some), Codes(least), Codes(other));
        }
        assert Least(some, names);
      } else {
        CodesDiffer(some, least);
        assert Least(least, names);
      }
    }
  }

  lemma CodesDiffer(a: string, b: string)
    requires a != b
    ensures Codes(a) != Codes(b)
  {
    if |a| == |b| {
      var i :| 0 <= i < |a| && a[i] != b[i];
      assert Codes(a)[i] != Codes(b)[i];
    }
  }

  // ----- Generating the lock -----

  /** The targets that need a package. */
  ghost function NeededOn(packages: Packages, roots: seq<string>, targets: seq<Target>, name: string): set<Target> {
    set target | target in targets && Needed(packages, roots, target, name)
  }

  /** Every needed package may be selected, and is needed on a reviewed choice of targets. */
  ghost predicate Lockable(packages: Packages, roots: seq<string>, targets: seq<Target>) {
    && (forall target <- targets :: forall name | Needed(packages, roots, target, name) ::
          Examine(packages, name, target).Ok?)
    && forall name: string ::
         var chosen := NeededOn(packages, roots, targets, name); chosen == {} || Reviewed(chosen)
  }

  /** One line for each needed package, in the order of their names. */
  ghost predicate IsLock(packages: Packages, roots: seq<string>, targets: seq<Target>, lines: seq<LockLine>) {
    && (forall i, j | 0 <= i < j < |lines| :: Precedes(lines[i].name, lines[j].name))
    && (forall line <- lines :: line.name in packages && NeededOn(packages, roots, targets, line.name) != {}
          && line == LineFor(packages, line.name, NeededOn(packages, roots, targets, line.name)))
    && (forall name: string :: NeededOn(packages, roots, targets, name) != {} ==>
      exists line <- lines :: line.name == name)
  }

  type Selections = map<Target, set<string>>

  function SelectedOn(selections: Selections, name: string): set<Target> {
    set target | target in selections && name in selections[target]
  }

  /** The union of the selections. */
  function AllNames(selections: Selections): (names: set<string>)
    ensures forall name: string :: name in names <==> SelectedOn(selections, name) != {}
  {
    var names := set target, name | target in selections && name in selections[target] :: name;
    assert forall name: string, target | target in SelectedOn(selections, name) :: name in names;
    assert forall name <- names ::
        exists target :: target in selections && name in selections[target] && target in SelectedOn(selections, name);
    names
  }

  ghost predicate AreClosures(packages: Packages, roots: seq<string>, targets: seq<Target>, selections: Selections) {
    && (forall target :: target in selections <==> target in targets)
    && forall target <- selections :: IsClosure(packages, roots, target, selections[target])
  }

  lemma SelectedIsNeeded(
    packages: Packages, roots: seq<string>, targets: seq<Target>, selections: Selections, name: string)
    requires AreClosures(packages, roots, targets, selections)
    ensures SelectedOn(selections, name) == NeededOn(packages, roots, targets, name)
  {
    forall target <- selections {
      ClosureIsTheNeeded(packages, roots, target, selections[target]);
    }
  }

  method SelectAll(packages: Packages, roots: seq<string>, targets: seq<Target>)
    returns (result: Result<Selections, string>)
    ensures result.Ok? ==> AreClosures(packages, roots, targets, result.value)
    ensures result.Err? ==> !Lockable(packages, roots, targets)
  {
    var selections: Selections := map[];
    for i := 0 to |targets|
      invariant AreClosures(packages, roots, targets[..i], selections)
    {
      var selected := Closure(packages, roots, targets[i]);
      if selected.Err? {
        ghost var name :| Needed(packages, roots, targets[i], name) && Examine(packages, name, targets[i]).Err?;
        assert targets[i] in targets;
        return Err(selected.error);
      }
      selections := selections[targets[i] := selected.value];
      assert targets[..i + 1] == targets[..i] + [targets[i]];
    }
    assert targets[..|targets|] == targets;
    return Ok(selections);
  }

  /** The lines written so far: all the names but those left, which come later. */
  ghost predicate Written(packages: Packages, selections: Selections, left: set<string>, lines: seq<LockLine>) {
    && (forall i, j | 0 <= i < j < |lines| :: Precedes(lines[i].name, lines[j].name))
    && (forall line <- lines :: forall name <- left :: Precedes(line.name, name))
    && (forall line <- lines :: line.name in packages && SelectedOn(selections, line.name) != {}
          && Reviewed(SelectedOn(selections, line.name)) &&
            line == LineFor(packages, line.name, SelectedOn(selections, line.name)))
    && (forall name: string :: SelectedOn(selections, name) != {} ==>
      name in left || exists line <- lines :: line.name == name)
  }

  lemma WriteLine(packages: Packages, selections: Selections, left: set<string>, lines: seq<LockLine>, name: string)
    requires Written(packages, selections, left, lines) && Least(name, left)
    requires name in packages && SelectedOn(selections, name) != {} && Reviewed(SelectedOn(selections, name))
    ensures Written(packages, selections, left - {name},
      lines + [LineFor(packages, name, SelectedOn(selections, name))])
  {
    var line := LineFor(packages, name, SelectedOn(selections, name));
    assert line in lines + [line];
  }

  lemma WrittenIsLock(
    packages: Packages, roots: seq<string>, targets: seq<Target>, selections: Selections, lines: seq<LockLine>)
    requires AreClosures(packages, roots, targets, selections) && Written(packages, selections, {}, lines)
    ensures Lockable(packages, roots, targets) && IsLock(packages, roots, targets, lines)
  {
    forall name: string
      ensures SelectedOn(selections, name) == NeededOn(packages, roots, targets, name)
    {
      SelectedIsNeeded(packages, roots, targets, selections, name);
    }
    forall target <- targets {
      ClosureIsTheNeeded(packages, roots, target, selections[target]);
    }
  }

  method LockText(inventory: seq<Package>, roots: seq<string>, targets: seq<Target>)
    returns (result: Result<seq<LockLine>, string>)
    ensures result.Ok? <==> Lockable(ByName(inventory), roots, targets)
    ensures result.Ok? ==> IsLock(ByName(inventory), roots, targets, result.value)
  {
    var packages := ByName(inventory);
    var chosen := SelectAll(packages, roots, targets);
    if chosen.Err? {
      return Err(chosen.error);
    }
    var selections := chosen.value;
    var left := AllNames(selections);
    var lines: seq<LockLine> := [];
    while left != {}
      invariant forall name <- left :: SelectedOn(selections, name) != {}
      invariant Written(packages, selections, left, lines)
    {
      LeastExists(left);
      var name :| Least(name, left);
      var on := SelectedOn(selections, name);
      ghost var target :| target in on;
      assert Examine(packages, name, target).Ok?;
      if !Reviewed(on) {
        SelectedIsNeeded(packages, roots, targets, selections, name);
        return Err("unreviewed lock marker");
      }
      WriteLine(packages, selections, left, lines, name);
      lines := lines + [LineFor(packages, name, on)];
      left := left - {name};
    }
    WrittenIsLock(packages, roots, targets, selections, lines);
    return Ok(lines);
  }

  // ----- What the lock means -----

  /** On each locked target, the lines that apply name exactly the closure of that target. */
  lemma LockNamesTheClosure(
    packages: Packages, roots: seq<string>, targets: seq<Target>, lines: seq<LockLine>,
    target: Target, names: set<string>, name: string)
    requires Lockable(packages, roots, targets) && IsLock(packages, roots, targets, lines)
    requires target in targets && target in TARGETS && IsClosure(packages, roots, target, names)
    ensures name in names <==> exists line <- lines :: line.name == name && Applies(line, target)
  {
    ClosureIsTheNeeded(packages, roots, target, names);
    var chosen := NeededOn(packages, roots, targets, name);
    if name in names {
      assert target in chosen;
      var line :| line in lines && line.name == name;
      LineApplies(packages, name, chosen, target);
    }
    if line :| line in lines && line.name == name && Applies(line, target) {
      LineApplies(packages, name, chosen, target);
    }
  }

  /** A line holds the hash of the wheel that each of its targets selects, and no other hash. */
  lemma LockHashesAreSelected(
    packages: Packages, roots: seq<string>, targets: seq<Target>, lines: seq<LockLine>, line: LockLine, hash: string)
    requires Lockable(packages, roots, targets) && IsLock(packages, roots, targets, lines) && line in lines
    ensures forall target <- NeededOn(packages, roots, targets, line.name) ::
      ArtifactFor(packages[line.name], target).Some?
    ensures hash in line.hashes <==>
            exists target <- NeededOn(packages, roots, targets, line.name) ::
              ArtifactFor(packages[line.name], target).value.sha256 == hash
  {
    var chosen := NeededOn(packages, roots, targets, line.name);
    forall target <- chosen
      ensures ArtifactFor(packages[line.name], target).Some?
    {
      assert Examine(packages, line.name, target).Ok?;
    }
    LineHashes(packages, line.name, chosen, hash);
  }
}

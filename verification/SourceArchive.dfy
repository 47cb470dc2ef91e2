/**
 The corresponding-source archive: a manifest that pins every member, the archive of a collected tree,
 and the check that publication and reuse share.
 */
module SourceArchive {
  import opened Common
  import ControlRecord

  /** A member as the archive reader reports it; a member that is no regular file has no use. */
  datatype Member = Member(path: string, regular: bool, content: Bytes)

  /** The names that the archive reserves, and the form of its control records. */
  datatype Layout = Layout(
    prefix: string, manifest: string, inventory: string, readme: string, suffix: string, control: ControlRecord.Format)

  const CORRESPONDING_SOURCE := Layout(
    "corresponding-source/", "source-manifest.json", "runtime-inventory.json", "README.txt", ".dsc",
      ControlRecord.DEBIAN)

  const METADATA_LIMIT := 8 * 1024 * 1024

  datatype Record = Record(path: string, sha256: string, size: int, url: string)

  datatype Source = Source(name: string, version: string, files: seq<Record>)

  datatype Identity = Identity(
    id: Option<string>, reference: Option<string>, digests: seq<string>, platform: Option<string>)

  datatype Manifest = Manifest(
    format: int, complete: bool, image: Identity, python: Record, recipe: Record, debian: seq<Source>,
    inventorySha256: string, baseImage: string, binaryPackages: int, sourcePackages: int)

  datatype Package = Package(sourceName: string, sourceVersion: string)

  datatype Inventory = Inventory(
    baseImage: string, packages: seq<Package>,
    pythonSha256: string, pythonUrl: string, recipeSha256: string, recipeUrl: string)

  /**
   What the check takes from its library: a digest, the decoding of control records, and the reading of a
   manifest and of a valid inventory, None when the reading raises an error.
   */
  datatype Library = Library(
    digest: Bytes -> string,
    textOf: Bytes -> Option<string>,
    manifestOf: Bytes -> Option<Manifest>,
    inventoryOf: Bytes -> Option<Inventory>)

  /** What the caller already knows of the archive. */
  datatype Expectation = Expectation(image: Option<string>, platform: Option<string>, manifest: Option<Bytes>)

  // ----- Paths -----

  function Slash(name: string): (at: nat)
    ensures at <= |name| && (at < |name| ==> name[at] == '/') && forall i | 0 <= i < at :: name[i] != '/'
  {
    if name == "" || name[0] == '/' then 0 else 1 + Slash(name[1..])
  }

  /** The text between the slashes. */
  function Components(name: string): (components: seq<string>)
    ensures components != []
    decreases |name|
  {
    var at := Slash(name);
    if at == |name| then [name] else [name[..at]] + Components(name[at + 1..])
  }

  predicate Kept(component: string) {
    component != "" && component != "."
  }

  /** The parts of a relative path: its components but the empty ones and the single dots. */
  function Parts(components: seq<string>): seq<string> {
    if components == [] then []
    else (if Kept(components[0]) then [components[0]] else []) + Parts(components[1..])
  }

  function Join(parts: seq<string>): string {
    if parts == [] then "" else if |parts| == 1 then parts[0] else parts[0] + "/" + Join(parts[1..])
  }

  predicate Absolute(name: string) {
    name != "" && name[0] == '/'
  }

  /** A relative path as the path library writes it again. */
  function PathText(name: string): string {
    var parts := Parts(Components(name));
    if parts == [] then "." else Join(parts)
  }

  predicate NormalPath(name: string) {
    !Absolute(name) && ".." !in Parts(Components(name)) && PathText(name) == name
  }

  predicate ValidName(name: string) {
    Parts(Components(name)) != [] && NormalPath(name) && '\\' !in name
  }

  lemma SlashAfter(part: string, rest: string)
    requires '/' !in part
    ensures Components(part) == [part] && Components(part + "/" + rest) == [part] + Components(rest)
  {
    var end := Slash(part);
    assert end == |part| && part[..end] == part;
    var name := part + "/" + rest;
    assert name[|part|] == '/' && forall i | 0 <= i < |part| :: name[i] == part[i];
    var at := Slash(name);
    assert at == |part|;
    assert name[..at] == part && name[at + 1..] == rest;
  }

  lemma {:induction false} JoinComponents(name: string)
    ensures Join(Components(name)) == name
    ensures forall component <- Components(name) :: '/' !in component
    decreases |name|
  {
    var at := Slash(name);
    var first := name[..at];
    if at == |name| {
      assert first == name;
    } else {
      var rest := name[at + 1..];
      JoinComponents(rest);
      assert name == first + "/" + rest;
      SlashAfter(first, rest);
      assert ([first] + Components(rest))[1..] == Components(rest);
    }
  }

  lemma {:induction false} ComponentsJoin(parts: seq<string>)
    requires parts != [] && forall part <- parts :: '/' !in part
    ensures Components(Join(parts)) == parts
  {
    SlashAfter(parts[0], Join(parts[1..]));
    if |parts| > 1 {
      ComponentsJoin(parts[1..]);
      assert parts == [parts[0]] + parts[1..];
    }
  }

  lemma {:induction false} PartsAreKept(components: seq<string>)
    ensures forall part :: part in Parts(components) <==> part in components && Kept(part)
    ensures (forall component <- components :: Kept(component)) ==> Parts(components) == components
  {
    if components != [] {
      PartsAreKept(components[1..]);
      assert components == [components[0]] + components[1..];
    }
  }

  /** A valid name has no backslash, and no component that is empty or made of dots alone. */
  lemma ValidNameMeans(name: string)
    ensures ValidName(name) <==>
            '\\' !in name && forall component <- Components(name) ::
              component != "" && component != "." && component != ".."
  {
    var components := Components(name);
    var parts := Parts(components);
    JoinComponents(name);
    PartsAreKept(components);
    if ValidName(name) {
      ComponentsJoin(parts);
      assert components == parts;
    }
    if Absolute(name) {
      assert Slash(name) == 0;
      assert components[0] == "";
    }
  }

  // ----- The members -----

  predicate StartsWith(text: string, part: string) {
    |part| <= |text| && text[..|part|] == part
  }

  predicate EndsWith(text: string, part: string) {
    |part| <= |text| && text[|text| - |part|..] == part
  }

  /** A path without the prefix of the archive. */
  function NameOf(layout: Layout, path: string): string {
    if StartsWith(path, layout.prefix) then path[|layout.prefix|..] else path
  }

  predicate IsMetadata(layout: Layout, name: string) {
    name == layout.inventory || name == layout.manifest || EndsWith(name, layout.suffix)
  }

  /** Members and records are judged given the test of their names. */
  type Test = string -> bool

  predicate ReadableMember(valid: Test, layout: Layout, member: Member) {
    && member.regular
    && StartsWith(member.path, layout.prefix)
    && valid(NameOf(layout, member.path))
    && (IsMetadata(layout, NameOf(layout, member.path)) ==> |member.content| < METADATA_LIMIT)
  }

  type Files = map<string, Bytes>

  /** The content of each name; of two members with one name, the later. */
  function Contents(layout: Layout, members: seq<Member>): Files {
    if members == [] then map[]
    else
      var last := members[|members| - 1];
      Contents(layout, members[..|members| - 1])[NameOf(layout, last.path) := last.content]
  }

  /** Regular files under the prefix with valid names and small metadata, each name new. */
  predicate Readable(valid: Test, layout: Layout, members: seq<Member>) {
    members == [] ||
    var front, last := members[..|members| - 1], members[|members| - 1];
    && Readable(valid, layout, front)
    && ReadableMember(valid, layout, last)
    && NameOf(layout, last.path) !in Contents(layout, front)
  }

  lemma {:induction false} ContentsOf(layout: Layout, members: seq<Member>)
    ensures forall member <- members :: NameOf(layout, member.path) in Contents(layout, members)
    ensures forall name <- Contents(layout, members) :: exists i ::
              0 <= i < |members| && NameOf(layout, members[i].path) == name &&
                members[i].content == Contents(layout, members)[name]
  {
    if members != [] {
      var front, last := members[..|members| - 1], members[|members| - 1];
      ContentsOf(layout, front);
      FrontAndLast(members);
      forall name <- Contents(layout, members)
        ensures exists i ::
          0 <= i < |members| && NameOf(layout, members[i].path) == name &&
            members[i].content == Contents(layout, members)[name]
      {
        if name == NameOf(layout, last.path) {
          assert members[|front|] == last;
        } else {
          var i :| 0 <= i < |front| && NameOf(layout, front[i].path) == name &&
            front[i].content == Contents(layout, front)[name];
          assert members[i] == front[i];
        }
      }
    }
  }

  datatype Seen = Seen(size: nat, sha256: string)

  ghost function Observed(library: Library, files: Files): map<string, Seen> {
    map name | name in files :: Seen(|files[name]|, library.digest(files[name]))
  }

  ghost function Metadata(layout: Layout, files: Files): Files {
    map name | name in files && IsMetadata(layout, name) :: files[name]
  }

  lemma OneMoreFile(library: Library, layout: Layout, files: Files, name: string, content: Bytes)
    requires name !in files
    ensures Observed(library, files[name := content]) ==
            Observed(library, files)[name := Seen(|content|, library.digest(content))]
    ensures Metadata(layout, files[name := content]) ==
            if IsMetadata(layout, name) then Metadata(layout, files)[name := content] else Metadata(layout, files)
  {
  }

  lemma OneMoreMember(valid: Test, layout: Layout, members: seq<Member>, member: Member)
    ensures Readable(valid, layout, members + [member]) <==>
            && Readable(valid, layout, members)
            && ReadableMember(valid, layout, member)
            && NameOf(layout, member.path) !in Contents(layout, members)
    ensures Contents(layout, members + [member]) ==
      Contents(layout, members)[NameOf(layout, member.path) := member.content]
  {
    assert (members + [member])[..|members|] == members;
  }

  lemma {:induction false} ReadablePrefix(valid: Test, layout: Layout, members: seq<Member>, n: nat)
    requires n <= |members|
    ensures Readable(valid, layout, members) ==> Readable(valid, layout, members[..n])
  {
    if n < |members| {
      var front := members[..|members| - 1];
      ReadablePrefix(valid, layout, front, n);
      assert front[..n] == members[..n];
    } else {
      assert members[..n] == members;
    }
  }

  method ReadMembers(valid: Test, library: Library, layout: Layout, members: seq<Member>)
    returns (result: Result<(map<string, Seen>, Files), string>)
    ensures result.Ok? <==> Readable(valid, layout, members)
    ensures result.Ok? ==> result.value.0 == Observed(library, Contents(layout, members))
    ensures result.Ok? ==> result.value.1 == Metadata(layout, Contents(layout, members))
  {
    var observed: map<string, Seen>, metadata: Files := map[], map[];
    for i := 0 to |members|
      invariant Readable(valid, layout, members[..i])
      invariant observed == Observed(library, Contents(layout, members[..i]))
      invariant metadata == Metadata(layout, Contents(layout, members[..i]))
    {
      var member := members[i];
      var name := NameOf(layout, member.path);
      assert members[..i + 1] == members[..i] + [member];
      OneMoreMember(valid, layout, members[..i], member);
      ReadablePrefix(valid, layout, members, i + 1);
      if !member.regular || !StartsWith(member.path, layout.prefix) {
        return Err("unsupported member");
      }
      if !valid(name) || name in observed {
        return Err("invalid or duplicate member");
      }
      OneMoreFile(library, layout, Contents(layout, members[..i]), name, member.content);
      if IsMetadata(layout, name) {
        if |member.content| >= METADATA_LIMIT {
          return Err("metadata too large");
        }
        metadata := metadata[name := member.content];
      }
      observed := observed[name := Seen(|member.content|, library.digest(member.content))];
    }
    assert members[..|members|] == members;
    return Ok((observed, metadata));
  }

  // ----- The records of the manifest -----

  function FilesOf(sources: seq<Source>): seq<Record> {
    if sources == [] then [] else FilesOf(sources[..|sources| - 1]) + sources[|sources| - 1].files
  }

  function Records(manifest: Manifest): seq<Record> {
    [manifest.python, manifest.recipe] + FilesOf(manifest.debian)
  }

  predicate ValidRecord(valid: Test, record: Record) {
    valid(record.path) && IsSha256(record.sha256) && 0 <= record.size
  }

  function PathsOf(records: seq<Record>): (paths: set<string>)
    ensures forall path :: path in paths <==> exists i :: 0 <= i < |records| && records[i].path == path
  {
    if records == [] then {} else PathsOf(records[..|records| - 1]) + {records[|records| - 1].path}
  }

  /** Valid records, each with a path of its own. */
  predicate ValidRecords(valid: Test, records: seq<Record>) {
    records == [] ||
    var front, last := records[..|records| - 1], records[|records| - 1];
    ValidRecords(valid, front) && ValidRecord(valid, last) && last.path !in PathsOf(front)
  }

  lemma OneMoreRecord(valid: Test, records: seq<Record>, record: Record)
    ensures ValidRecords(valid, records + [record]) <==>
            ValidRecords(valid, records) && ValidRecord(valid, record) && record.path !in PathsOf(records)
    ensures PathsOf(records + [record]) == PathsOf(records) + {record.path}
  {
    assert (records + [record])[..|records|] == records;
  }

  lemma {:induction false} ValidRecordsPrefix(valid: Test, records: seq<Record>, n: nat)
    requires n <= |records|
    ensures ValidRecords(valid, records) ==> ValidRecords(valid, records[..n])
  {
    if n < |records| {
      var front := records[..|records| - 1];
      ValidRecordsPrefix(valid, front, n);
      assert front[..n] == records[..n];
    } else {
      assert records[..n] == records;
    }
  }

  lemma {:induction false} RecordsAreValid(valid: Test, records: seq<Record>)
    requires ValidRecords(valid, records)
    ensures forall record <- records :: ValidRecord(valid, record) && record.path in PathsOf(records)
  {
    if records != [] {
      var front := records[..|records| - 1];
      RecordsAreValid(valid, front);
      assert records == front + [records[|records| - 1]];
    }
  }

  method ReadRecords(valid: Test, records: seq<Record>) returns (result: Result<set<string>, string>)
    ensures result.Ok? <==> ValidRecords(valid, records)
    ensures result.Ok? ==> result.value == PathsOf(records)
  {
    var paths := {};
    for i := 0 to |records|
      invariant ValidRecords(valid, records[..i])
      invariant paths == PathsOf(records[..i])
    {
      var record := records[i];
      assert records[..i + 1] == records[..i] + [record];
      OneMoreRecord(valid, records[..i], record);
      ValidRecordsPrefix(valid, records, i + 1);
      if !ValidRecord(valid, record) || record.path in paths {
        return Err("invalid manifest record");
      }
      paths := paths + {record.path};
    }
    assert records[..|records|] == records;
    return Ok(paths);
  }

  // ----- Control records -----

  function BaseName(path: string): string {
    var parts := Parts(Components(path));
    if parts == [] then "" else parts[|parts| - 1]
  }

  function Controls(layout: Layout, records: seq<Record>): seq<Record> {
    if records == [] then []
    else
      var last := records[|records| - 1];
      Controls(layout, records[..|records| - 1]) + (if EndsWith(last.path, layout.suffix) then [last] else [])
  }

  lemma {:induction false} ControlsAreRecords(layout: Layout, records: seq<Record>)
    ensures forall record <- Controls(layout, records) :: record in records && EndsWith(record.path, layout.suffix)
  {
    if records != [] {
      ControlsAreRecords(layout, records[..|records| - 1]);
      assert records == records[..|records| - 1] + [records[|records| - 1]];
    }
  }

  /** The files of a source other than its control record, by the last part of their path. */
  function Delivered(layout: Layout, records: seq<Record>): ControlRecord.Payloads
    requires forall record <- records :: 0 <= record.size
  {
    if records == [] then map[]
    else
      var front, last := Delivered(layout, records[..|records| - 1]), records[|records| - 1];
      if EndsWith(last.path, layout.suffix) then front
      else front[BaseName(last.path) := ControlRecord.Payload(last.sha256, last.size)]
  }

  /** What the one control record of a source says of it, given the content of the metadata. */
  function Declared(library: Library, layout: Layout, metadata: Files, source: Source)
    : Result<ControlRecord.Payloads, string>
  {
    var controls := Controls(layout, source.files);
    if |controls| != 1 || controls[0].path !in metadata then Err("source package has no unique control record")
    else
      var text := library.textOf(metadata[controls[0].path]);
      if text.None? then Err("source control record is no text")
      else ControlRecord.Parsed(layout.control, text.value, source.name, source.version)
  }

  predicate ControlAgrees(library: Library, layout: Layout, metadata: Files, source: Source)
    requires forall record <- source.files :: 0 <= record.size
  {
    Declared(library, layout, metadata, source) == Ok(Delivered(layout, source.files))
  }

  // ----- What the check accepts -----

  function Fixed(layout: Layout): set<string> {
    {layout.manifest, layout.inventory, layout.readme}
  }

  /** The records and the reserved names are all the files, and each record has the size and digest of its file. */
  ghost predicate Pins(library: Library, layout: Layout, files: Files, manifest: Manifest) {
    && ValidRecords(NormalPath, Records(manifest))
    && PathsOf(Records(manifest)) !! Fixed(layout)
    && files.Keys == PathsOf(Records(manifest)) + Fixed(layout)
    && (forall record <- Records(manifest) :: record.path in files
          && record.size == |files[record.path]| && record.sha256 == library.digest(files[record.path]))
    && library.digest(files[layout.inventory]) == manifest.inventorySha256
  }

  function Installed(inventory: Inventory): set<(string, string)> {
    set package | package in inventory.packages :: (package.sourceName, package.sourceVersion)
  }

  function Collected(manifest: Manifest): set<(string, string)> {
    set source | source in manifest.debian :: (source.name, source.version)
  }

  predicate Covers(manifest: Manifest, inventory: Inventory) {
    && inventory.baseImage == manifest.baseImage
    && |inventory.packages| == manifest.binaryPackages
    && Installed(inventory) == Collected(manifest)
    && |manifest.debian| == manifest.sourcePackages == |Installed(inventory)|
    && manifest.python.sha256 == inventory.pythonSha256 && manifest.python.url == inventory.pythonUrl
    && manifest.recipe.sha256 == inventory.recipeSha256 && manifest.recipe.url == inventory.recipeUrl
  }

  /** A manifest that truly and completely describes a set of files. */
  ghost predicate Describes(library: Library, layout: Layout, files: Files, manifest: Manifest) {
    && manifest.format == 1 && manifest.complete
    && Pins(library, layout, files, manifest)
    && library.inventoryOf(files[layout.inventory]).Some?
    && Covers(manifest, library.inventoryOf(files[layout.inventory]).value)
    && SourcesAgree(library, layout, files, manifest)
  }

  ghost predicate SourcesAgree(library: Library, layout: Layout, files: Files, manifest: Manifest) {
    forall source <- manifest.debian ::
      (forall record <- source.files :: 0 <= record.size) && ControlAgrees(library, layout, files, source)
  }

  predicate Identified(expectation: Expectation, image: Identity) {
    && (expectation.image.Some? ==>
          expectation.image == image.id || expectation.image == image.reference ||
            expectation.image.value in image.digests)
    && (expectation.platform.Some? ==> expectation.platform == image.platform)
  }

  /** The files hold a manifest, the expected one if any, that identifies the image and describes the files. */
  ghost predicate AcceptableFiles(library: Library, layout: Layout, expectation: Expectation, files: Files) {
    && layout.manifest in files
    && (expectation.manifest.Some? ==> expectation.manifest.value == files[layout.manifest])
    && var manifest := library.manifestOf(files[layout.manifest]);
    && manifest.Some?
    && Identified(expectation, manifest.value.image)
    && Describes(library, layout, files, manifest.value)
  }

  ghost predicate Acceptable(library: Library, layout: Layout, expectation: Expectation, members: seq<Member>) {
    Readable(ValidName, layout, members) && AcceptableFiles(library, layout, expectation, Contents(layout, members))
  }

  lemma {:induction false} FilesOfSources(sources: seq<Source>)
    ensures forall source <- sources :: forall record <- source.files :: record in FilesOf(sources)
  {
    if sources != [] {
      FilesOfSources(sources[..|sources| - 1]);
      assert sources == sources[..|sources| - 1] + [sources[|sources| - 1]];
    }
  }

  method CheckPayloads(records: seq<Record>, observed: map<string, Seen>) returns (agree: bool)
    requires forall record <- records :: record.path in observed
    ensures agree <==> forall record <- records ::
              record.size == observed[record.path].size && record.sha256 == observed[record.path].sha256
  {
    for i := 0 to |records|
      invariant forall record <- records[..i] ::
          record.size == observed[record.path].size && record.sha256 == observed[record.path].sha256
    {
      assert records[..i + 1] == records[..i] + [records[i]];
      if records[i].size != observed[records[i].path].size || records[i].sha256 != observed[records[i].path].sha256 {
        return false;
      }
    }
    assert records[..|records|] == records;
    return true;
  }

  method CheckSources(library: Library, layout: Layout, metadata: Files, sources: seq<Source>) returns (agree: bool)
    requires forall source <- sources :: forall record <- source.files :: 0 <= record.size
    ensures agree <==> forall source <- sources :: ControlAgrees(library, layout, metadata, source)
  {
    for i := 0 to |sources|
      invariant forall source <- sources[..i] :: ControlAgrees(library, layout, metadata, source)
    {
      var source := sources[i];
      if !ControlAgrees(library, layout, metadata, source) {
        return false;
      }
      assert sources[..i + 1] == sources[..i] + [source];
    }
    assert sources[..|sources|] == sources;
    return true;
  }

  /** The control records are metadata, so what they declare can be read there. */
  lemma DeclaredInMetadata(library: Library, layout: Layout, files: Files, source: Source)
    ensures Declared(library, layout, Metadata(layout, files), source) == Declared(library, layout, files, source)
  {
    ControlsAreRecords(layout, source.files);
    var controls := Controls(layout, source.files);
    assert forall record <- controls :: record.path in Metadata(layout, files) <==> record.path in files;
  }

  /** The records of a manifest against what was read of the files. */
  method CheckPins(library: Library, layout: Layout, ghost files: Files, manifest: Manifest,
    observed: map<string, Seen>, metadata: Files) returns (result: Result<bool, string>)
    requires observed == Observed(library, files) && metadata == Metadata(layout, files)
    ensures result.Ok? <==> Pins(library, layout, files, manifest)
  {
    var listed := Records(manifest);
    var paths := ReadRecords(NormalPath, listed);
    if paths.Err? {
      return Err(paths.error);
    }
    if paths.value * Fixed(layout) != {} || observed.Keys != paths.value + Fixed(layout) {
      return Err("inventory mismatch or incomplete source archive");
    }
    assert forall record <- listed :: record.path in observed;
    var same := CheckPayloads(listed, observed);
    if !same {
      return Err("payload checksum mismatch");
    }
    assert layout.inventory in observed;
    if library.digest(metadata[layout.inventory]) != manifest.inventorySha256 {
      return Err("runtime inventory checksum mismatch");
    }
    return Ok(true);
  }

  method CheckManifest(library: Library, layout: Layout, ghost files: Files, manifest: Manifest,
    observed: map<string, Seen>, metadata: Files) returns (result: Result<Bytes, string>)
    requires observed == Observed(library, files) && metadata == Metadata(layout, files)
    ensures result.Ok? <==> Describes(library, layout, files, manifest)
    ensures result.Ok? ==> files[layout.inventory] == result.value
  {
    if manifest.format != 1 || !manifest.complete {
      return Err("source collection is not complete");
    }
    var pinned := CheckPins(library, layout, files, manifest, observed, metadata);
    if pinned.Err? {
      return Err(pinned.error);
    }
    var inventoryBytes := metadata[layout.inventory];
    var inventory := library.inventoryOf(inventoryBytes);
    if inventory.None? || !Covers(manifest, inventory.value) {
      return Err("source package coverage mismatch");
    }
    FilesOfSources(manifest.debian);
    var agree := CheckSources(library, layout, metadata, manifest.debian);
    forall source <- manifest.debian {
      DeclaredInMetadata(library, layout, files, source);
    }
    if !agree {
      return Err("control/payload inventory mismatch");
    }
    return Ok(inventoryBytes);
  }

  method VerifyArchive(library: Library, layout: Layout, expectation: Expectation, members: seq<Member>)
    returns (result: Result<(Manifest, Bytes), string>)
    ensures result.Ok? <==> Acceptable(library, layout, expectation, members)
    ensures result.Ok? ==> library.manifestOf(Contents(layout, members)[layout.manifest]) == Some(result.value.0)
    ensures result.Ok? ==> Contents(layout, members)[layout.inventory] == result.value.1
  {
    var reading := ReadMembers(ValidName, library, layout, members);
    if reading.Err? {
      return Err(reading.error);
    }
    var (observed, metadata) := reading.value;
    ghost var files := Contents(layout, members);
    if layout.manifest !in metadata {
      return Err("source archive is incomplete");
    }
    if expectation.manifest.Some? && expectation.manifest.value != metadata[layout.manifest] {
      return Err("inner and outer source manifests differ");
    }
    var manifest := library.manifestOf(metadata[layout.manifest]);
    if manifest.None? {
      return Err("unreadable manifest");
    }
    if !Identified(expectation, manifest.value.image) {
      return Err("source artifact identity mismatch");
    }
    var inventory := CheckManifest(library, layout, files, manifest.value, observed, metadata);
    if inventory.Err? {
      return Err(inventory.error);
    }
    return Ok((manifest.value, inventory.value));
  }

  // ----- What an accepted archive holds -----

  ghost predicate CollisionFree(digest: Bytes -> string) {
    forall a, b :: digest(a) == digest(b) ==> a == b
  }

  /** The reserved names differ, and the readme is no metadata. */
  predicate SoundLayout(layout: Layout) {
    layout.manifest != layout.inventory && layout.readme != layout.manifest && !IsMetadata(layout, layout.readme)
  }

  lemma ReservedNamesAreSound()
    ensures SoundLayout(CORRESPONDING_SOURCE)
  {
    var readme, suffix := CORRESPONDING_SOURCE.readme, CORRESPONDING_SOURCE.suffix;
    assert |readme| == 10 && |suffix| == 4;
    assert readme[9] == 't' && suffix[3] == 'c';
    assert readme[6..][3] == readme[9];
  }

  /** A name of an accepted archive is reserved, or its record gives the digest of its content. */
  lemma NameIsPinned(library: Library, layout: Layout, files: Files, manifest: Manifest, name: string)
    requires Pins(library, layout, files, manifest) && name in files && name !in Fixed(layout)
    ensures exists record <- Records(manifest) :: record.path == name && library.digest(files[name]) == record.sha256
  {
    assert name in PathsOf(Records(manifest));
    var i :| 0 <= i < |Records(manifest)| && Records(manifest)[i].path == name;
    assert Records(manifest)[i] in Records(manifest);
  }

  lemma PinsFixContents(library: Library, layout: Layout, files: Files, others: Files, manifest: Manifest, name: string)
    requires CollisionFree(library.digest)
    requires Pins(library, layout, files, manifest) && Pins(library, layout, others, manifest)
    ensures files.Keys == others.Keys
    ensures name in files && name != layout.manifest && name != layout.readme ==> files[name] == others[name]
  {
    if name in files && name !in Fixed(layout) {
      NameIsPinned(library, layout, files, manifest, name);
    }
  }

  /** Accepted archives with one manifest have the same members, and the same contents but for the readme. */
  lemma ManifestPinsContents(library: Library, layout: Layout,
    known: Expectation, members: seq<Member>, otherKnown: Expectation, others: seq<Member>, name: string)
    requires CollisionFree(library.digest)
    requires Acceptable(library, layout, known, members) && Acceptable(library, layout, otherKnown, others)
    requires Contents(layout, members)[layout.manifest] == Contents(layout, others)[layout.manifest]
    ensures Contents(layout, members).Keys == Contents(layout, others).Keys
    ensures name in Contents(layout, members) && name != layout.readme ==>
              Contents(layout, members)[name] == Contents(layout, others)[name]
  {
    var files := Contents(layout, members);
    var manifest := library.manifestOf(files[layout.manifest]).value;
    PinsFixContents(library, layout, files, Contents(layout, others), manifest, name);
  }

  lemma PinsIgnoreReadme(library: Library, layout: Layout, files: Files, manifest: Manifest, readme: Bytes)
    requires SoundLayout(layout) && Pins(library, layout, files, manifest)
    ensures Pins(library, layout, files[layout.readme := readme], manifest)
  {
    RecordsAreValid(NormalPath, Records(manifest));
    assert layout.readme !in PathsOf(Records(manifest));
  }

  lemma SourcesIgnoreReadme(library: Library, layout: Layout, files: Files, manifest: Manifest, readme: Bytes)
    requires SoundLayout(layout) && SourcesAgree(library, layout, files, manifest)
    ensures SourcesAgree(library, layout, files[layout.readme := readme], manifest)
  {
    var changed := files[layout.readme := readme];
    forall source <- manifest.debian
      ensures Declared(library, layout, changed, source) == Declared(library, layout, files, source)
    {
      ControlsAreRecords(layout, source.files);
      assert forall record <- Controls(layout, source.files) :: IsMetadata(layout, record.path);
    }
  }

  /** A set of files with any other readme is as acceptable. */
  lemma ReadmeContentIsFree(library: Library, layout: Layout, known: Expectation, files: Files, readme: Bytes)
    requires SoundLayout(layout) && AcceptableFiles(library, layout, known, files)
    ensures AcceptableFiles(library, layout, known, files[layout.readme := readme])
  {
    var manifest := library.manifestOf(files[layout.manifest]).value;
    PinsIgnoreReadme(library, layout, files, manifest, readme);
    SourcesIgnoreReadme(library, layout, files, manifest, readme);
  }

  /** The members with another content in one place. */
  function Replaced(members: seq<Member>, i: nat, content: Bytes): seq<Member>
    requires i < |members|
  {
    members[i := members[i].(content := content)]
  }

  lemma {:induction false} ReplacedContents(
    valid: Test, layout: Layout, members: seq<Member>, i: nat, content: Bytes)
    requires i < |members| && Readable(valid, layout, members)
    requires !IsMetadata(layout, NameOf(layout, members[i].path))
    ensures Readable(valid, layout, Replaced(members, i, content))
    ensures NameOf(layout, members[i].path) in Contents(layout, members)
    ensures Contents(layout, Replaced(members, i, content)) ==
            Contents(layout, members)[NameOf(layout, members[i].path) := content]
  {
    var front, last := members[..|members| - 1], members[|members| - 1];
    FrontAndLast(members);
    ReplacedSplits(members, i, content);
    OneMoreMember(valid, layout, front, last);
    if i < |front| {
      ReplacedContents(valid, layout, front, i, content);
      OneMoreMember(valid, layout, Replaced(front, i, content), last);
      UpdatesCommute(
        Contents(layout, front), NameOf(layout, front[i].path), content, NameOf(layout, last.path), last.content);
    } else {
      OneMoreMember(valid, layout, front, last.(content := content));
    }
  }

  lemma UpdatesCommute(files: Files, name: string, content: Bytes, other: string, otherContent: Bytes)
    requires name != other
    ensures files[name := content][other := otherContent] == files[other := otherContent][name := content]
    ensures files[name := content].Keys == files.Keys + {name}
  {
  }

  lemma ReplacedSplits(members: seq<Member>, i: nat, content: Bytes)
    requires i < |members|
    ensures var front, last := members[..|members| - 1], members[|members| - 1];
      Replaced(members, i, content) ==
      if i < |front| then Replaced(front, i, content) + [last] else front + [last.(content := content)]
  {
  }

  /** The manifest does not pin the readme: an accepted archive is accepted with any other readme. */
  lemma ReadmeIsFree(
    library: Library, layout: Layout, known: Expectation, members: seq<Member>, i: nat, readme: Bytes)
    requires SoundLayout(layout) && Acceptable(library, layout, known, members)
    requires i < |members| && NameOf(layout, members[i].path) == layout.readme
    ensures Acceptable(library, layout, known, Replaced(members, i, readme))
  {
    ReplacedContents(ValidName, layout, members, i, readme);
    ReadmeContentIsFree(library, layout, known, Contents(layout, members), readme);
  }

  lemma {:induction false} DeliveredAreFiles(layout: Layout, records: seq<Record>)
    requires forall record <- records :: 0 <= record.size
    ensures forall name <- Delivered(layout, records) :: exists record <- records ::
              BaseName(record.path) == name &&
                Delivered(layout, records)[name] == ControlRecord.Payload(record.sha256, record.size)
  {
    if records != [] {
      var front, last := records[..|records| - 1], records[|records| - 1];
      DeliveredAreFiles(layout, front);
      FrontAndLast(records);
      assert last in records;
    }
  }

  ghost predicate PayloadPresent(library: Library, files: Files, name: string, payload: ControlRecord.Payload) {
    exists path <- files ::
      BaseName(path) == name && |files[path]| == payload.size && library.digest(files[path]) == payload.sha256
  }

  ghost predicate PayloadsPresent(library: Library, files: Files, payloads: ControlRecord.Payloads) {
    forall name <- payloads :: PayloadPresent(library, files, name, payloads[name])
  }

  lemma DeliveredArePresent(library: Library, layout: Layout, files: Files, manifest: Manifest, source: Source)
    requires Pins(library, layout, files, manifest) && source in manifest.debian
    requires forall record <- source.files :: 0 <= record.size
    ensures PayloadsPresent(library, files, Delivered(layout, source.files))
  {
    var payloads := Delivered(layout, source.files);
    FilesOfSources(manifest.debian);
    DeliveredAreFiles(layout, source.files);
    assert forall record <- source.files :: record in Records(manifest);
    forall name <- payloads
      ensures PayloadPresent(library, files, name, payloads[name])
    {
      var record :| record in source.files && BaseName(record.path) == name &&
        payloads[name] == ControlRecord.Payload(record.sha256, record.size);
      assert record.path in files;
    }
  }

  /** A source of the package, with a control record in the archive that declares payloads of the archive. */
  ghost predicate HasItsSource(library: Library, layout: Layout, files: Files, package: Package, source: Source) {
    && source.name == package.sourceName && source.version == package.sourceVersion
    && Declared(library, layout, files, source).Ok?
    && PayloadsPresent(library, files, Declared(library, layout, files, source).value)
  }

  /** Every installed package has its source in an accepted archive, with all the payloads that source declares. */
  lemma EveryPackageHasItsSource(library: Library, layout: Layout, known: Expectation, files: Files,
    inventory: Inventory, package: Package)
    requires AcceptableFiles(library, layout, known, files)
    requires library.inventoryOf(files[layout.inventory]) == Some(inventory) && package in inventory.packages
    ensures exists source <- library.manifestOf(files[layout.manifest]).value.debian ::
              HasItsSource(library, layout, files, package, source)
  {
    var manifest := library.manifestOf(files[layout.manifest]).value;
    CoversPackage(manifest, inventory, package);
    var source :| source in manifest.debian && source.name == package.sourceName &&
      source.version == package.sourceVersion;
    assert ControlAgrees(library, layout, files, source);
    DeliveredArePresent(library, layout, files, manifest, source);
  }

  lemma CoversPackage(manifest: Manifest, inventory: Inventory, package: Package)
    requires Covers(manifest, inventory) && package in inventory.packages
    ensures exists source <- manifest.debian ::
      source.name == package.sourceName && source.version == package.sourceVersion
  {
    assert (package.sourceName, package.sourceVersion) in Installed(inventory);
    assert (package.sourceName, package.sourceVersion) in Collected(manifest);
  }

  // ----- Archiving a tree -----

  /** An entry of a tree: the content of a file, or None for a directory. */
  datatype Entry = Entry(path: string, content: Option<Bytes>)

  function Tree(entries: seq<Entry>): Files {
    if entries == [] then map[]
    else
      var front, last := Tree(entries[..|entries| - 1]), entries[|entries| - 1];
      if last.content.None? then front else front[last.path := last.content.value]
  }

  function Archived(layout: Layout, entries: seq<Entry>): seq<Member> {
    if entries == [] then []
    else
      var front, last := Archived(layout, entries[..|entries| - 1]), entries[|entries| - 1];
      if last.content.None? then front else front + [Member(layout.prefix + last.path, true, last.content.value)]
  }

  /** A listing of a tree that the archive can hold: each file once, with a valid name and small metadata. */
  predicate Listing(valid: Test, layout: Layout, entries: seq<Entry>) {
    entries == [] ||
    var front, last := entries[..|entries| - 1], entries[|entries| - 1];
    && Listing(valid, layout, front)
    && (last.content.Some? ==>
          && valid(last.path) && last.path !in Tree(front)
          && (IsMetadata(layout, last.path) ==> |last.content.value| < METADATA_LIMIT))
  }

  method ArchiveTree(layout: Layout, entries: seq<Entry>) returns (members: seq<Member>)
    ensures members == Archived(layout, entries)
  {
    members := [];
    for i := 0 to |entries|
      invariant members == Archived(layout, entries[..i])
    {
      assert entries[..i + 1][..i] == entries[..i];
      if entries[i].content.None? {
        continue;
      }
      members := members + [Member(layout.prefix + entries[i].path, true, entries[i].content.value)];
    }
    assert entries[..|entries|] == entries;
  }

  lemma {:induction false} ArchivedIsReadable(valid: Test, layout: Layout, entries: seq<Entry>)
    ensures Readable(valid, layout, Archived(layout, entries)) <==> Listing(valid, layout, entries)
    ensures Contents(layout, Archived(layout, entries)) == Tree(entries)
  {
    if entries != [] {
      var front, last := entries[..|entries| - 1], entries[|entries| - 1];
      ArchivedIsReadable(valid, layout, front);
      if last.content.Some? {
        var path := layout.prefix + last.path;
        assert NameOf(layout, path) == last.path;
        OneMoreMember(valid, layout, Archived(layout, front), Member(path, true, last.content.value));
      }
    }
  }

  /** The archive of a tree is accepted exactly when the tree can be listed and its manifest describes it. */
  lemma ArchivedTreeIsAccepted(library: Library, layout: Layout, known: Expectation, entries: seq<Entry>)
    ensures Acceptable(library, layout, known, Archived(layout, entries)) <==>
            Listing(ValidName, layout, entries) && AcceptableFiles(library, layout, known, Tree(entries))
    ensures Contents(layout, Archived(layout, entries)) == Tree(entries)
  {
    ArchivedIsReadable(ValidName, layout, entries);
  }
}

/** The driver store: an in-memory map over a directory of Lua files and YAML manifests.
    Paths are relative to the store's base directory. */
module DriverStore {
  import opened Common

  /** `details` stands for every field but the name. */
  datatype Manifest = Manifest(name: string, details: string)

  /** What a `Driver` object holds at one moment. */
  datatype Entry = Entry(manifest: Manifest, source: string, path: string)

  /** The YAML library. */
  datatype Yaml = Yaml(marshal: Manifest -> string, unmarshal: string -> Option<Manifest>)

  ghost predicate Inverse(yaml: Yaml) {
    forall m :: yaml.unmarshal(yaml.marshal(m)) == Some(m)
  }

  datatype Disk = Disk(files: map<string, string>, dirs: set<string>)

  const MANIFESTS := "manifests"
  const DRIVERS := "drivers"
  const LUA := "lua"

  // ---- paths ----

  predicate Plain(name: string) {
    '/' !in name
  }

  function File(dir: string, name: string, ext: string): string {
    dir + "/" + name + ext
  }

  function SourceFile(dir: string, name: string): string {
    File(dir, name, ".lua")
  }

  function ManifestFile(name: string): string {
    File(MANIFESTS, name, ".yaml")
  }

  /** Two files of plain directory and file names are the same only if all the parts are. */
  lemma FileInjective(dir: string, name: string, dir': string, name': string, ext: string)
    requires Plain(dir) && Plain(dir') && File(dir, name, ext) == File(dir', name', ext)
    ensures dir == dir' && name == name'
  {
    var p, p' := File(dir, name, ext), File(dir', name', ext);
    assert p[|dir|] == '/' && p'[|dir'|] == '/';
    assert forall k :: 0 <= k < |dir| ==> p[k] == dir[k] && dir[k] in dir;
    assert forall k :: 0 <= k < |dir'| ==> p'[k] == dir'[k] && dir'[k] in dir';
    assert dir == p[..|dir|] && dir' == p'[..|dir'|];
    assert name == p[|dir| + 1..|p| - |ext|] && name' == p'[|dir'| + 1..|p'| - |ext|];
  }

  lemma ManifestIsNoSource(dir: string, name: string, other: string)
    ensures ManifestFile(name) != SourceFile(dir, other)
  {
    var p, q := ManifestFile(name), SourceFile(dir, other);
    assert p[|p| - 1] == 'l' && q[|q| - 1] == 'a';
  }

  lemma ManifestInjective(name: string, name': string)
    ensures ManifestFile(name) == ManifestFile(name') ==> name == name'
  {
    if ManifestFile(name) == ManifestFile(name') {
      FileInjective(MANIFESTS, name, MANIFESTS, name', ".yaml");
    }
  }

  predicate InDir(path: string, dir: string, ext: string) {
    && |path| >= |dir| + 1 + |ext|
    && path == File(dir, path[|dir| + 1..|path| - |ext|], ext)
    && Plain(path[|dir| + 1..|path| - |ext|])
  }

  /** The names a glob for the extension finds in a directory. */
  function Names(files: map<string, string>, dir: string, ext: string): (r: set<string>)
    ensures forall n :: n in r <==> Plain(n) && File(dir, n, ext) in files
  {
    var r := set p | p in files && InDir(p, dir, ext) :: p[|dir| + 1..|p| - |ext|];
    assert forall n :: Plain(n) && File(dir, n, ext) in files ==> n in r by {
      forall n | Plain(n) && File(dir, n, ext) in files ensures n in r {
        var p := File(dir, n, ext);
        assert p[|dir| + 1..|p| - |ext|] == n;
        assert InDir(p, dir, ext);
      }
    }
    r
  }

  // ---- what a load of the directory yields ----

  /** A populated drivers/ wins over lua/. */
  function SourceDir(disk: Disk): string {
    if Names(disk.files, DRIVERS, ".lua") != {} then DRIVERS else LUA
  }

  function ManifestFor(yaml: Yaml, files: map<string, string>, name: string): Manifest {
    var path := ManifestFile(name);
    if path !in files || yaml.unmarshal(files[path]).None? then Manifest(name, "")
    else
      var m := yaml.unmarshal(files[path]).value;
      if m.name == "" then m.(name := name) else m
  }

  function EntryAt(yaml: Yaml, files: map<string, string>, dir: string, name: string): Entry
    requires name in Names(files, dir, ".lua")
  {
    Entry(ManifestFor(yaml, files, name), files[SourceFile(dir, name)], SourceFile(dir, name))
  }

  function LoadedFrom(yaml: Yaml, files: map<string, string>, dir: string): map<string, Entry> {
    map n | n in Names(files, dir, ".lua") :: EntryAt(yaml, files, dir, n)
  }

  function Loaded(yaml: Yaml, disk: Disk): map<string, Entry> {
    LoadedFrom(yaml, disk.files, SourceDir(disk))
  }

  /** What a load gives, file by file: the names are those of the Lua files in the directory chosen, each
      with its text and with its manifest, or with nothing but its name if that is missing or unreadable.
      A manifest without a name takes the file's; a manifest with another name keeps it. */
  lemma LoadedExactly(yaml: Yaml, disk: Disk, name: string)
    ensures var populated := exists n :: Plain(n) && SourceFile("drivers", n) in disk.files;
      var path := (if populated then "drivers" else "lua") + "/" + name + ".lua";
      var found := "manifests/" + name + ".yaml" in disk.files;
      var parsed := if found then yaml.unmarshal(disk.files["manifests/" + name + ".yaml"]) else None;
      && (name in Loaded(yaml, disk) <==> '/' !in name && path in disk.files)
      && (name in Loaded(yaml, disk) ==>
            && Loaded(yaml, disk)[name].path == path && Loaded(yaml, disk)[name].source == disk.files[path]
            && (parsed.None? ==> Loaded(yaml, disk)[name].manifest == Manifest(name, ""))
            && (parsed.Some? && parsed.value.name != "" ==> Loaded(yaml, disk)[name].manifest == parsed.value)
            && (parsed.Some? && parsed.value.name == "" ==>
                  Loaded(yaml, disk)[name].manifest == Manifest(name, parsed.value.details)))
  {
    assert ManifestFile(name) == "manifests/" + name + ".yaml";
    var names := Names(disk.files, DRIVERS, ".lua");
    if names != {} {
      var n :| n in names;
      assert SourceFile("drivers", n) in disk.files;
    }
    assert names != {} <==> exists n :: Plain(n) && SourceFile("drivers", n) in disk.files;
  }

  // ---- the store as a state machine ----

  datatype State = State(disk: Disk, drivers: map<string, Entry>)

  /** Where a create gives up. */
  datatype Failure = NoFailure | ManifestDir | SourceSubdir | Marshal | ManifestWrite | SourceWrite

  datatype Action =
    | Load
    | Save(name: string, source: string, fails: bool)
    | Create(name: string, manifest: Manifest, source: string, failure: Failure)

  /** A create prefers an existing lua/. */
  function CreateDir(disk: Disk): string {
    if LUA in disk.dirs then LUA else DRIVERS
  }

  predicate Succeeds(s: State, a: Action) {
    match a
    case Load => true
    case Save(name, _, fails) => name in s.drivers && !fails
    case Create(name, _, _, failure) => name !in s.drivers && failure.NoFailure?
  }

  function DiskAfterCreate(yaml: Yaml, disk: Disk, name: string, manifest: Manifest, source: string,
                           failure: Failure): Disk
  {
    var dir := CreateDir(disk);
    var disk1 := disk.(dirs := disk.dirs + {MANIFESTS});
    var disk2 := disk1.(dirs := disk1.dirs + {dir});
    var disk3 := disk2.(files := disk2.files[ManifestFile(name) := yaml.marshal(manifest.(name := name))]);
    match failure
    case ManifestDir => disk
    case SourceSubdir => disk1
    case Marshal => disk2
    case ManifestWrite => disk2
    case SourceWrite => disk3
    case NoFailure => disk3.(files := disk3.files[SourceFile(dir, name) := source])
  }

  function Step(yaml: Yaml, s: State, a: Action): State {
    match a
    case Load => s.(drivers := Loaded(yaml, s.disk))
    case Save(name, source, _) =>
      if !Succeeds(s, a) then s
      else
        var d := s.drivers[name];
        State(s.disk.(files := s.disk.files[d.path := source]), s.drivers[name := d.(source := source)])
    case Create(name, manifest, source, failure) =>
      if name in s.drivers then s
      else
        var path := SourceFile(CreateDir(s.disk), name);
        State(DiskAfterCreate(yaml, s.disk, name, manifest, source, failure),
              if Succeeds(s, a) then s.drivers[name := Entry(manifest.(name := name), source, path)] else s.drivers)
  }

  /** A save that is carried out replaces one text on disk and in memory; any other changes nothing. */
  lemma SaveExactly(yaml: Yaml, s: State, name: string, source: string, fails: bool)
    ensures var next := Step(yaml, s, Save(name, source, fails));
      if name in s.drivers && !fails then
        && next.drivers.Keys == s.drivers.Keys && next.drivers[name] == s.drivers[name].(source := source)
        && (forall n :: n in s.drivers && n != name ==> next.drivers[n] == s.drivers[n])
        && next.disk.dirs == s.disk.dirs && s.drivers[name].path in next.disk.files
        && next.disk.files[s.drivers[name].path] == source
        && (forall p :: p != s.drivers[name].path ==>
              (p in next.disk.files <==> p in s.disk.files)
              && (p in s.disk.files ==> next.disk.files[p] == s.disk.files[p]))
      else next == s
  {
  }

  /** What a create leaves, failure by failure: nothing for a known name; the manifest before the source,
      each only after both directories; and a driver in memory only when everything was written. */
  lemma CreateExactly(yaml: Yaml, s: State, name: string, manifest: Manifest, source: string, failure: Failure)
    ensures var next := Step(yaml, s, Create(name, manifest, source, failure));
      var dir := if "lua" in s.disk.dirs then "lua" else "drivers";
      var path, text := dir + "/" + name + ".lua", yaml.marshal(Manifest(name, manifest.details));
      if name in s.drivers then next == s
      else
        && next.drivers == (if failure.NoFailure?
                            then s.drivers[name := Entry(Manifest(name, manifest.details), source, path)]
                            else s.drivers)
        && next.disk.files == (match failure
                               case NoFailure => s.disk.files["manifests/" + name + ".yaml" := text][path := source]
                               case SourceWrite => s.disk.files["manifests/" + name + ".yaml" := text]
                               case _ => s.disk.files)
        && next.disk.dirs == (match failure
                              case ManifestDir => s.disk.dirs
                              case SourceSubdir => s.disk.dirs + {"manifests"}
                              case _ => s.disk.dirs + {"manifests", dir})
  {
    assert ManifestFile(name) == "manifests/" + name + ".yaml";
    assert s.disk.dirs + {"manifests"} + {CreateDir(s.disk)} == s.disk.dirs + {"manifests", CreateDir(s.disk)};
  }

  predicate PlainAction(a: Action) {
    a.Create? ==> Plain(a.name)
  }

  function After(yaml: Yaml, s: State, run: seq<Action>): State
    decreases |run|
  {
    if run == [] then s else After(yaml, Step(yaml, s, run[0]), run[1..])
  }

  // ---- agreement of memory and disk ----

  /** lua/ exists and drivers/ has Lua files too. */
  predicate Coexists(disk: Disk) {
    LUA in disk.dirs && Names(disk.files, DRIVERS, ".lua") != {}
  }

  /** A directory with files in it exists. */
  predicate WellFormed(disk: Disk) {
    Names(disk.files, LUA, ".lua") != {} ==> LUA in disk.dirs
  }

  ghost predicate InSync(yaml: Yaml, s: State) {
    s.drivers == Loaded(yaml, s.disk)
  }

  /** The names in memory that a fresh load would not find. */
  function Extras(yaml: Yaml, s: State): set<string> {
    s.drivers.Keys - Loaded(yaml, s.disk).Keys
  }

  /** Whatever a fresh load would find is in memory as it would find it; only with both layouts
      present is there more, and that lies in lua/. */
  ghost predicate Consistent(yaml: Yaml, s: State) {
    && WellFormed(s.disk)
    && (forall n :: n in Loaded(yaml, s.disk) ==> n in s.drivers && s.drivers[n] == Loaded(yaml, s.disk)[n])
    && (forall n :: n in s.drivers && n !in Loaded(yaml, s.disk) ==>
          Coexists(s.disk) && Plain(n) && s.drivers[n].path == SourceFile(LUA, n))
  }

  lemma InSyncIff(yaml: Yaml, s: State)
    ensures InSync(yaml, s) ==> Extras(yaml, s) == {}
    ensures WellFormed(s.disk) && InSync(yaml, s) ==> Consistent(yaml, s)
    ensures Consistent(yaml, s) && Extras(yaml, s) == {} ==> InSync(yaml, s)
  {
    hide Coexists, WellFormed, Loaded;
    if Consistent(yaml, s) && Extras(yaml, s) == {} {
      assert forall n :: n in s.drivers ==> n in Loaded(yaml, s.disk) by {
        assert forall n :: n in s.drivers && n !in Loaded(yaml, s.disk) ==> n in Extras(yaml, s);
      }
    }
  }

  /** Writing one plain source file changes at most one name of one directory. */
  lemma NamesAfterWrite(files: map<string, string>, dir: string, name: string, source: string, other: string)
    requires Plain(dir) && Plain(other) && Plain(name)
    ensures Names(files[SourceFile(dir, name) := source], other, ".lua") ==
            Names(files, other, ".lua") + (if dir == other then {name} else {})
  {
    forall n | Plain(n)
      ensures SourceFile(other, n) in files[SourceFile(dir, name) := source] <==>
              SourceFile(other, n) in files || (dir == other && n == name)
    {
      if SourceFile(other, n) == SourceFile(dir, name) {
        FileInjective(other, n, dir, name, ".lua");
      }
    }
  }

  lemma NamesAfterManifest(files: map<string, string>, name: string, text: string, other: string)
    ensures Names(files[ManifestFile(name) := text], other, ".lua") == Names(files, other, ".lua")
  {
    forall n | Plain(n)
      ensures File(other, n, ".lua") in files[ManifestFile(name) := text] <==> File(other, n, ".lua") in files
    {
      ManifestIsNoSource(other, name, n);
    }
  }

  /** A manifest without its Lua file is not seen, and no other driver's is disturbed. */
  lemma StrayManifestInvisible(yaml: Yaml, disk: Disk, name: string, text: string)
    requires name !in Loaded(yaml, disk)
    ensures Loaded(yaml, disk.(files := disk.files[ManifestFile(name) := text])) == Loaded(yaml, disk)
  {
    hide Names, File;
    var next := disk.(files := disk.files[ManifestFile(name) := text]);
    NamesAfterManifest(disk.files, name, text, DRIVERS);
    NamesAfterManifest(disk.files, name, text, LUA);
    forall n | n in Loaded(yaml, disk) ensures Loaded(yaml, next)[n] == Loaded(yaml, disk)[n] {
      ManifestIsNoSource(SourceDir(disk), name, n);
      ManifestInjective(n, name);
    }
  }

  lemma ManifestAfterSource(yaml: Yaml, files: map<string, string>, dir: string, name: string, source: string,
                            n: string)
    ensures ManifestFor(yaml, files[SourceFile(dir, name) := source], n) == ManifestFor(yaml, files, n)
  {
    ManifestIsNoSource(dir, n, name);
  }

  lemma NamesAfterOwnWrite(disk: Disk, dir: string, name: string, source: string)
    requires Plain(name) && (dir == DRIVERS || dir == LUA)
    requires dir == SourceDir(disk) || (dir == DRIVERS && Names(disk.files, SourceDir(disk), ".lua") == {})
    ensures var next := disk.(files := disk.files[SourceFile(dir, name) := source]);
      && SourceDir(next) == dir
      && Names(next.files, dir, ".lua") == Names(disk.files, SourceDir(disk), ".lua") + {name}
  {
    hide Names, File;
    assert Plain(DRIVERS) && Plain(LUA) && DRIVERS[0] != LUA[0];
    NamesAfterWrite(disk.files, dir, name, source, DRIVERS);
    NamesAfterWrite(disk.files, dir, name, source, LUA);
  }

  lemma EntryAfterWrite(yaml: Yaml, files: map<string, string>, dir: string, name: string, source: string, n: string)
    requires Plain(dir) && n in Names(files[SourceFile(dir, name) := source], dir, ".lua")
    ensures var next := files[SourceFile(dir, name) := source];
      && (n == name ==> EntryAt(yaml, next, dir, n) == Entry(ManifestFor(yaml, files, n), source, SourceFile(dir, n)))
      && (n != name && n in Names(files, dir, ".lua") ==> EntryAt(yaml, next, dir, n) == EntryAt(yaml, files, dir, n))
  {
    hide Names, File, ManifestFor;
    ManifestAfterSource(yaml, files, dir, name, source, n);
    SourceInjective(dir, n, name);
  }

  /** Writing a source file where a load looks for it, or the first one of drivers/, shows up under its name alone. */
  lemma LoadedAfterOwnWrite(yaml: Yaml, disk: Disk, dir: string, name: string, source: string)
    requires Plain(name) && (dir == DRIVERS || dir == LUA)
    requires dir == SourceDir(disk) || (dir == DRIVERS && Loaded(yaml, disk) == map[])
    ensures Loaded(yaml, disk.(files := disk.files[SourceFile(dir, name) := source])) ==
            Loaded(yaml, disk)[name := Entry(ManifestFor(yaml, disk.files, name), source, SourceFile(dir, name))]
  {
    hide Names, File, ManifestFor, SourceDir, EntryAt;
    assert Loaded(yaml, disk).Keys == Names(disk.files, SourceDir(disk), ".lua");
    assert Plain(DRIVERS) && Plain(LUA);
    NamesAfterOwnWrite(disk, dir, name, source);
    var files := disk.files[SourceFile(dir, name) := source];
    forall n | n in Names(files, dir, ".lua")
      ensures n == name ==>
                EntryAt(yaml, files, dir, n) == Entry(ManifestFor(yaml, disk.files, n), source, SourceFile(dir, n))
      ensures n != name && n in Names(disk.files, dir, ".lua") ==>
                EntryAt(yaml, files, dir, n) == EntryAt(yaml, disk.files, dir, n)
    {
      EntryAfterWrite(yaml, disk.files, dir, name, source, n);
    }
    hide SourceFile, Plain;
  }

  lemma SourceInjective(dir: string, name: string, name': string)
    requires Plain(dir)
    ensures SourceFile(dir, name) == SourceFile(dir, name') ==> name == name'
  {
    if SourceFile(dir, name) == SourceFile(dir, name') {
      FileInjective(dir, name, dir, name', ".lua");
    }
  }

  /** Writing into lua/ beside a populated drivers/ does not show up at all. */
  lemma LoadedAfterOtherWrite(yaml: Yaml, disk: Disk, name: string, source: string)
    requires Plain(name) && Names(disk.files, DRIVERS, ".lua") != {}
    ensures var next := disk.(files := disk.files[SourceFile(LUA, name) := source]);
            Loaded(yaml, next) == Loaded(yaml, disk) && SourceDir(next) == DRIVERS
  {
    hide Names, File;
    var next := disk.(files := disk.files[SourceFile(LUA, name) := source]);
    assert Plain(DRIVERS) && Plain(LUA);
    assert DRIVERS[0] != LUA[0];
    NamesAfterWrite(disk.files, LUA, name, source, DRIVERS);
    forall n | n in Loaded(yaml, disk) ensures Loaded(yaml, next)[n] == Loaded(yaml, disk)[n] {
      ManifestAfterSource(yaml, disk.files, LUA, name, source, n);
      DirsApart(n, name);
    }
  }

  lemma DirsApart(name: string, name': string)
    ensures SourceFile(DRIVERS, name) != SourceFile(LUA, name')
  {
    assert SourceFile(DRIVERS, name)[0] == 'd' && SourceFile(LUA, name')[0] == 'l';
  }

  // ---- one step ----

  /** The store writes a source file only where one of that name is, into an existing lua/, or into
      drivers/ for want of lua/; so which layout the directory has never changes. */
  lemma LayoutAfterSource(disk: Disk, dir: string, name: string, source: string)
    requires WellFormed(disk) && Plain(name) && (dir == DRIVERS || dir == LUA)
    requires name in Names(disk.files, dir, ".lua") || (dir == LUA <==> LUA in disk.dirs)
    ensures var next := disk.(files := disk.files[SourceFile(dir, name) := source]);
            WellFormed(next) && Coexists(next) == Coexists(disk)
  {
    hide Names, File;
    assert Plain(DRIVERS) && Plain(LUA) && DRIVERS[0] != LUA[0];
    NamesAfterWrite(disk.files, dir, name, source, DRIVERS);
    NamesAfterWrite(disk.files, dir, name, source, LUA);
    if name in Names(disk.files, dir, ".lua") {
      assert Names(disk.files, dir, ".lua") + {name} == Names(disk.files, dir, ".lua");
    }
  }

  lemma SaveStep(yaml: Yaml, s: State, name: string, source: string)
    requires Consistent(yaml, s) && name in s.drivers
    ensures var next := Step(yaml, s, Save(name, source, false));
      && Consistent(yaml, next) && Coexists(next.disk) == Coexists(s.disk) && Extras(yaml, next) == Extras(yaml, s)
  {
    hide Names, File;
    if name in Loaded(yaml, s.disk) {
      SaveLoaded(yaml, s, name, source);
    } else {
      LayoutAfterSource(s.disk, LUA, name, source);
      LoadedAfterOtherWrite(yaml, s.disk, name, source);
      hide Loaded, WellFormed;
    }
  }

  /** Saving a driver that a load would find. */
  lemma SaveLoaded(yaml: Yaml, s: State, name: string, source: string)
    requires Consistent(yaml, s) && name in Loaded(yaml, s.disk)
    ensures var next := Step(yaml, s, Save(name, source, false));
      && Consistent(yaml, next) && Coexists(next.disk) == Coexists(s.disk) && Extras(yaml, next) == Extras(yaml, s)
  {
    hide Names, File;
    var dir, loaded := SourceDir(s.disk), Loaded(yaml, s.disk);
    assert s.drivers[name] == loaded[name];
    LayoutAfterSource(s.disk, dir, name, source);
    LoadedAfterOwnWrite(yaml, s.disk, dir, name, source);
    var next := Step(yaml, s, Save(name, source, false));
    assert Loaded(yaml, next.disk) == loaded[name := next.drivers[name]];
    hide Loaded, Coexists, WellFormed, SourceFile;
  }

  /** The disk a create leaves behind before it writes the source: directories and perhaps a manifest. */
  lemma PreparedDisk(yaml: Yaml, disk: Disk, name: string, manifest: Manifest, source: string, failure: Failure)
    requires failure != NoFailure && name !in Loaded(yaml, disk) && WellFormed(disk)
    ensures var next := DiskAfterCreate(yaml, disk, name, manifest, source, failure);
      && Loaded(yaml, next) == Loaded(yaml, disk) && Coexists(next) == Coexists(disk) && WellFormed(next)
      && CreateDir(next) == CreateDir(disk) && SourceDir(next) == SourceDir(disk)
  {
    hide Names, File;
    assert MANIFESTS[0] != LUA[0] && DRIVERS[0] != LUA[0];
    var text := yaml.marshal(manifest.(name := name));
    NamesAfterManifest(disk.files, name, text, DRIVERS);
    NamesAfterManifest(disk.files, name, text, LUA);
    StrayManifestInvisible(yaml, disk, name, text);
    var next := DiskAfterCreate(yaml, disk, name, manifest, source, failure);
    assert next.files == disk.files || next.files == disk.files[ManifestFile(name) := text];
    assert Loaded(yaml, next) == Loaded(yaml, disk.(files := next.files));
  }

  lemma FailedCreateStep(yaml: Yaml, s: State, a: Action)
    requires Consistent(yaml, s) && a.Create? && !Succeeds(s, a)
    ensures var next := Step(yaml, s, a);
      && next.drivers == s.drivers && Loaded(yaml, next.disk) == Loaded(yaml, s.disk)
      && Consistent(yaml, next) && Coexists(next.disk) == Coexists(s.disk) && Extras(yaml, next) == Extras(yaml, s)
  {
    hide Loaded, DiskAfterCreate, Coexists, WellFormed;
    if a.name !in s.drivers {
      PreparedDisk(yaml, s.disk, a.name, a.manifest, a.source, a.failure);
    }
  }

  lemma CreateMemory(yaml: Yaml, s: State, name: string, manifest: Manifest, source: string)
    requires name !in s.drivers
    ensures var next := Step(yaml, s, Create(name, manifest, source, NoFailure));
      && next.drivers == s.drivers[name := Entry(manifest.(name := name), source, SourceFile(CreateDir(s.disk), name))]
      && next.disk == DiskAfterCreate(yaml, s.disk, name, manifest, source, NoFailure)
  {
  }

  /** Writing the source onto a prepared disk makes the new driver what a fresh load finds, unless
      both layouts are present. */
  lemma SourceLoaded(yaml: Yaml, disk: Disk, name: string, manifest: Manifest, source: string)
    requires Inverse(yaml) && Plain(name) && name !in Loaded(yaml, disk) && WellFormed(disk)
    requires ManifestFile(name) in disk.files && disk.files[ManifestFile(name)] == yaml.marshal(manifest.(name := name))
    ensures var dir := CreateDir(disk);
      var next := disk.(files := disk.files[SourceFile(dir, name) := source]);
      && WellFormed(next) && Coexists(next) == Coexists(disk)
      && Loaded(yaml, next) ==
         (if Coexists(disk) then Loaded(yaml, disk)
          else Loaded(yaml, disk)[name := Entry(manifest.(name := name), source, SourceFile(dir, name))])
  {
    hide Names, File, Plain;
    var dir := CreateDir(disk);
    LayoutAfterSource(disk, dir, name, source);
    if Coexists(disk) {
      LoadedAfterOtherWrite(yaml, disk, name, source);
    } else {
      LoadedAfterOwnWrite(yaml, disk, dir, name, source);
    }
  }

  lemma CreateLoaded(yaml: Yaml, s: State, name: string, manifest: Manifest, source: string)
    requires Inverse(yaml) && Consistent(yaml, s) && Plain(name) && name !in s.drivers
    ensures var next := Step(yaml, s, Create(name, manifest, source, NoFailure));
      && WellFormed(next.disk) && Coexists(next.disk) == Coexists(s.disk)
      && Loaded(yaml, next.disk) ==
         (if Coexists(s.disk) then Loaded(yaml, s.disk) else Loaded(yaml, s.disk)[name := next.drivers[name]])
  {
    hide Names, File, Plain, Loaded, Coexists, WellFormed, SourceDir;
    var ready := DiskAfterCreate(yaml, s.disk, name, manifest, source, SourceWrite);
    PreparedDisk(yaml, s.disk, name, manifest, source, SourceWrite);
    SourceLoaded(yaml, ready, name, manifest, source);
    CreateMemory(yaml, s, name, manifest, source);
    assert DiskAfterCreate(yaml, s.disk, name, manifest, source, NoFailure)
        == ready.(files := ready.files[SourceFile(CreateDir(ready), name) := source]);
  }

  lemma CreateStep(yaml: Yaml, s: State, name: string, manifest: Manifest, source: string)
    requires Inverse(yaml) && Consistent(yaml, s) && Plain(name) && name !in s.drivers
    ensures var next := Step(yaml, s, Create(name, manifest, source, NoFailure));
      && Consistent(yaml, next) && Coexists(next.disk) == Coexists(s.disk)
      && Extras(yaml, next) == Extras(yaml, s) + (if Coexists(s.disk) then {name} else {})
  {
    hide Step, Loaded, DiskAfterCreate, WellFormed, File, Names;
    CreateLoaded(yaml, s, name, manifest, source);
    CreateMemory(yaml, s, name, manifest, source);
    var next := Step(yaml, s, Create(name, manifest, source, NoFailure));
    assert Coexists(s.disk) ==> next.drivers[name].path == SourceFile(LUA, name);
    hide Coexists, CreateDir, SourceFile;
    assert name !in Loaded(yaml, s.disk);
  }

  /** The names created since the last load, added to what `earlier` holds. */
  function CreatedSince(yaml: Yaml, s: State, run: seq<Action>, earlier: set<string>): set<string>
    decreases |run|
  {
    if run == [] then earlier
    else
      CreatedSince(yaml, Step(yaml, s, run[0]), run[1..], CreatedNow(s, run[0], earlier))
  }

  function CreatedNow(s: State, a: Action, earlier: set<string>): set<string> {
    match a
    case Load => {}
    case Save(_, _, _) => earlier
    case Create(name, _, _, _) => if Succeeds(s, a) then earlier + {name} else earlier
  }

  lemma StepConsistent(yaml: Yaml, s: State, a: Action)
    requires Inverse(yaml) && Consistent(yaml, s) && PlainAction(a)
    ensures Consistent(yaml, Step(yaml, s, a)) && Coexists(Step(yaml, s, a).disk) == Coexists(s.disk)
    ensures Extras(yaml, Step(yaml, s, a)) ==
            if Coexists(s.disk) then CreatedNow(s, a, Extras(yaml, s)) else {}
  {
    hide Loaded, DiskAfterCreate, File, Names;
    assert !Coexists(s.disk) ==> Extras(yaml, s) == {};
    hide Coexists;
    match a
    case Load => InSyncIff(yaml, Step(yaml, s, a));
    case Save(name, source, _) => if Succeeds(s, a) { SaveStep(yaml, s, name, source); }
    case Create(name, manifest, source, failure) =>
      if Succeeds(s, a) {
        CreateStep(yaml, s, name, manifest, source);
      } else {
        FailedCreateStep(yaml, s, a);
      }
  }

  // ---- whole runs ----

  /** After any run of loads, saves and creates, failed ones included, a fresh load finds what is in
      memory, but for the names created since the last load where both layouts are present. */
  lemma {:induction false} RunConsistent(yaml: Yaml, s: State, run: seq<Action>)
    requires Inverse(yaml) && Consistent(yaml, s) && (forall a :: a in run ==> PlainAction(a))
    ensures Consistent(yaml, After(yaml, s, run)) && Coexists(After(yaml, s, run).disk) == Coexists(s.disk)
    ensures Coexists(s.disk) ==> Extras(yaml, After(yaml, s, run)) == CreatedSince(yaml, s, run, Extras(yaml, s))
    ensures !Coexists(s.disk) ==> Extras(yaml, After(yaml, s, run)) == {}
    decreases |run|
  {
    assert !Coexists(s.disk) ==> Extras(yaml, s) == {};
    hide Loaded, DiskAfterCreate, File, Names, Coexists;
    if run != [] {
      StepConsistent(yaml, s, run[0]);
      RunConsistent(yaml, Step(yaml, s, run[0]), run[1..]);
    }
  }

  /** From a synced store: still synced exactly when the layouts do not coexist or nothing was created since a load. */
  lemma SyncedIff(yaml: Yaml, s: State, run: seq<Action>)
    requires Inverse(yaml) && WellFormed(s.disk) && InSync(yaml, s) && (forall a :: a in run ==> PlainAction(a))
    ensures InSync(yaml, After(yaml, s, run)) <==> (!Coexists(s.disk) || CreatedSince(yaml, s, run, {}) == {})
  {
    hide Loaded, DiskAfterCreate, File, Names, Coexists, After, Consistent;
    InSyncIff(yaml, s);
    RunConsistent(yaml, s, run);
    InSyncIff(yaml, After(yaml, s, run));
  }

  /** A create that failed anywhere leaves nothing in the way of the next one under the same name. */
  lemma RetryHeals(yaml: Yaml, s: State, name: string, failed: Manifest, lost: string, failure: Failure,
                   manifest: Manifest, source: string)
    requires failure != NoFailure && name !in s.drivers
    ensures var after := Step(yaml, s, Create(name, failed, lost, failure));
            Step(yaml, after, Create(name, manifest, source, NoFailure)) ==
            Step(yaml, s, Create(name, manifest, source, NoFailure))
  {
    assert MANIFESTS[0] != LUA[0] && DRIVERS[0] != LUA[0];
  }

  const BOTH := Disk(map["drivers/a.lua" := "return"], {"drivers", "lua"})

  lemma BothLayouts(yaml: Yaml)
    ensures WellFormed(BOTH) && Coexists(BOTH) && "b" !in Loaded(yaml, BOTH)
  {
    assert File(DRIVERS, "a", ".lua") == "drivers/a.lua";
    assert "a" in Names(BOTH.files, DRIVERS, ".lua");
    assert File(DRIVERS, "b", ".lua")[8] == 'b' && "drivers/a.lua"[8] == 'a';
  }

  /** With a lua/ beside a populated drivers/ a new driver is only in memory: it is gone after a restart. */
  lemma CreatedIsLost(yaml: Yaml, manifest: Manifest, source: string)
    requires Inverse(yaml)
    ensures var after := After(yaml, State(BOTH, Loaded(yaml, BOTH)), [Create("b", manifest, source, NoFailure)]);
            "b" in after.drivers && !InSync(yaml, after)
  {
    hide Loaded, Names, File, DiskAfterCreate, Coexists, WellFormed;
    var s := State(BOTH, Loaded(yaml, BOTH));
    var create := Create("b", manifest, source, NoFailure);
    BothLayouts(yaml);
    assert [create][1..] == [];
    assert After(yaml, s, [create]) == After(yaml, Step(yaml, s, create), []);
    assert CreatedSince(yaml, s, [create], {}) == CreatedSince(yaml, Step(yaml, s, create), [], {"b"});
    SyncedIff(yaml, s, [create]);
  }

  // ---- the objects ----

  /** A create either leaves memory alone or adds one name to it. */
  lemma CreateShape(yaml: Yaml, s: State, name: string, manifest: Manifest, source: string, failure: Failure)
    ensures Step(yaml, s, Create(name, manifest, source, failure)) ==
            if name in s.drivers then s
            else
              var e := Entry(manifest.(name := name), source, SourceFile(CreateDir(s.disk), name));
              State(DiskAfterCreate(yaml, s.disk, name, manifest, source, failure),
                    if failure.NoFailure? then s.drivers[name := e] else s.drivers)
  {
  }

  class Filesystem {
    var files: map<string, string>
    var dirs: set<string>

    function View(): Disk
      reads this
    {
      Disk(files, dirs)
    }

    /** `fails` is what the operating system decides. */
    method MkdirAll(dir: string, fails: bool) returns (ok: bool)
      modifies `dirs
      ensures ok == !fails && dirs == (if fails then old(dirs) else old(dirs) + {dir})
    {
      ok := !fails;
      if ok {
        dirs := dirs + {dir};
      }
    }

    method WriteFile(path: string, data: string, fails: bool) returns (ok: bool)
      modifies `files
      ensures ok == !fails && files == (if fails then old(files) else old(files)[path := data])
    {
      ok := !fails;
      if ok {
        files := files[path := data];
      }
    }
  }

  class Driver {
    const manifest: Manifest
    const path: string
    var source: string

    constructor (manifest: Manifest, source: string, path: string)
      ensures Value() == Entry(manifest, source, path)
    {
      this.manifest, this.source, this.path := manifest, source, path;
    }

    function Value(): Entry
      reads this
    {
      Entry(manifest, source, path)
    }
  }

  datatype Outcome = Done | NotFound | AlreadyExists | Failed(at: Failure)

  function EntryFrom(manifests: map<string, Manifest>, source: string, dir: string, name: string): Entry {
    Entry(if name in manifests then manifests[name] else Manifest(name, ""), source, SourceFile(dir, name))
  }

  /** A driver's manifest is the one read under its name, or a bare one. */
  ghost predicate AreManifests(yaml: Yaml, files: map<string, string>, manifests: map<string, Manifest>) {
    forall n :: Plain(n) ==>
                  (if n in manifests then manifests[n] else Manifest(n, "")) == ManifestFor(yaml, files, n)
  }

  lemma EntriesAreLoaded(yaml: Yaml, disk: Disk, manifests: map<string, Manifest>, entries: map<string, Entry>)
    requires AreManifests(yaml, disk.files, manifests)
    requires entries.Keys == Names(disk.files, SourceDir(disk), ".lua")
    requires var dir := SourceDir(disk);
             forall n :: n in entries ==> entries[n] == EntryFrom(manifests, disk.files[SourceFile(dir, n)], dir, n)
    ensures entries == Loaded(yaml, disk)
  {
    hide ManifestFor, Plain;
  }

  class Store {
    const yaml: Yaml
    const disk: Filesystem
    var drivers: map<string, Driver>

    /** Every name has its own object. */
    ghost predicate Valid()
      reads this
    {
      forall a, b :: a in drivers && b in drivers && a != b ==> drivers[a] != drivers[b]
    }

    function View(): State
      reads this, disk, drivers.Values
    {
      State(disk.View(), map n | n in drivers :: drivers[n].Value())
    }

    constructor (yaml: Yaml, disk: Filesystem)
      ensures Valid() && this.yaml == yaml && this.disk == disk
      ensures View() == State(disk.View(), map[])
    {
      this.yaml, this.disk, this.drivers := yaml, disk, map[];
    }

    /** The manifests that parse, by file name, each with a name. */
    method ReadManifests() returns (manifests: map<string, Manifest>)
      ensures AreManifests(yaml, disk.files, manifests)
    {
      hide File, Names;
      manifests := map[];
      ghost var all := Names(disk.files, MANIFESTS, ".yaml");
      var todo := Names(disk.files, MANIFESTS, ".yaml");
      while todo != {}
        invariant todo <= all
        invariant forall n :: n in manifests ==> n in all - todo && manifests[n] == ManifestFor(yaml, disk.files, n)
        invariant forall n :: n in all - todo && n !in manifests ==> yaml.unmarshal(disk.files[ManifestFile(n)]).None?
        decreases |todo|
      {
        var name :| name in todo;
        todo := todo - {name};
        var parsed := yaml.unmarshal(disk.files[ManifestFile(name)]);
        if parsed.Some? {
          var m := parsed.value;
          if m.name == "" {
            m := m.(name := name);
          }
          manifests := manifests[name := m];
        }
      }
    }

    method ReadSources(dir: string, manifests: map<string, Manifest>) returns (found: map<string, Driver>)
      ensures found.Keys == Names(disk.files, dir, ".lua")
      ensures forall n :: n in found ==> fresh(found[n])
      ensures forall a, b :: a in found && b in found && a != b ==> found[a] != found[b]
      ensures forall n :: n in found ==>
                found[n].Value() == EntryFrom(manifests, disk.files[SourceFile(dir, n)], dir, n)
    {
      hide File, Names, EntryFrom;
      found := map[];
      var todo := Names(disk.files, dir, ".lua");
      while todo != {}
        invariant todo <= Names(disk.files, dir, ".lua") && found.Keys == Names(disk.files, dir, ".lua") - todo
        invariant forall n :: n in found ==> fresh(found[n])
        invariant forall a, b :: a in found && b in found && a != b ==> found[a] != found[b]
        invariant forall n :: n in found ==>
                    found[n].Value() == EntryFrom(manifests, disk.files[SourceFile(dir, n)], dir, n)
        decreases |todo|
      {
        var name :| name in todo;
        todo := todo - {name};
        var e := EntryFrom(manifests, disk.files[SourceFile(dir, name)], dir, name);
        var d := new Driver(e.manifest, e.source, e.path);
        found := found[name := d];
      }
    }

    /** Replaces the map by new objects; one handed out earlier stays as it is. */
    method Load()
      modifies this
      ensures Valid() && fresh(drivers.Values)
      ensures View() == Step(yaml, old(View()), Action.Load)
    {
      hide File, Names, ManifestFor, AreManifests, EntryFrom, Loaded;
      var manifests := ReadManifests();
      var dir := DRIVERS;
      if Names(disk.files, dir, ".lua") == {} {
        dir := LUA;
      }
      drivers := ReadSources(dir, manifests);
      EntriesAreLoaded(yaml, disk.View(), manifests, View().drivers);
    }

    method Get(name: string) returns (d: Driver?)
      ensures (d != null <==> name in View().drivers) && (d != null ==> d.Value() == View().drivers[name])
    {
      d := if name in drivers then drivers[name] else null;
    }

    /** Updates the object in place, so whoever holds it sees the new source. */
    method SaveSource(name: string, source: string, fails: bool) returns (outcome: Outcome)
      requires Valid()
      modifies disk, drivers.Values
      ensures Valid() && drivers == old(drivers)
      ensures View() == Step(yaml, old(View()), Action.Save(name, source, fails))
      ensures outcome == if name !in drivers then NotFound else if fails then Failed(SourceWrite) else Done
    {
      if name !in drivers {
        return NotFound;
      }
      var d := drivers[name];
      var written := disk.WriteFile(d.path, source, fails);
      if !written {
        return Failed(SourceWrite);
      }
      d.source := source;
      outcome := Done;
    }

    /** The writes of a create, up to the first that fails. */
    method WriteDriver(name: string, manifest: Manifest, source: string, dir: string, failure: Failure)
      returns (at: Failure)
      requires dir == CreateDir(disk.View())
      modifies disk
      ensures at == failure && disk.View() == DiskAfterCreate(yaml, old(disk.View()), name, manifest, source, failure)
    {
      hide File;
      var ok := disk.MkdirAll(MANIFESTS, failure.ManifestDir?);
      if !ok {
        return ManifestDir;
      }
      ok := disk.MkdirAll(dir, failure.SourceSubdir?);
      if !ok {
        return SourceSubdir;
      }
      if failure.Marshal? {
        return Marshal;
      }
      ok := disk.WriteFile(ManifestFile(name), yaml.marshal(manifest.(name := name)), failure.ManifestWrite?);
      if !ok {
        return ManifestWrite;
      }
      ok := disk.WriteFile(SourceFile(dir, name), source, failure.SourceWrite?);
      at := if ok then NoFailure else SourceWrite;
    }

    /** A new object under a new name. */
    method AddDriver(name: string, e: Entry)
      requires Valid() && name !in drivers
      modifies `drivers
      ensures Valid() && name in drivers && fresh(drivers[name]) && drivers == old(drivers)[name := drivers[name]]
      ensures View() == State(old(View()).disk, old(View()).drivers[name := e])
    {
      var d := new Driver(e.manifest, e.source, e.path);
      drivers := drivers[name := d];
    }

    method CreateDriver(name: string, manifest: Manifest, source: string, failure: Failure) returns (outcome: Outcome)
      requires Valid()
      modifies this, disk
      ensures Valid() && fresh(drivers.Values - old(drivers.Values))
      ensures View() == Step(yaml, old(View()), Action.Create(name, manifest, source, failure))
      ensures outcome == if name in old(drivers) then AlreadyExists
                         else if failure.NoFailure? then Done else Failed(failure)
    {
      hide SourceFile, DiskAfterCreate, Loaded, Names, Valid, Step;
      ghost var before := View();
      CreateShape(yaml, before, name, manifest, source, failure);
      if name in drivers {
        return AlreadyExists;
      }
      var dir := if LUA in disk.dirs then LUA else DRIVERS;
      var at := WriteDriver(name, manifest, source, dir, failure);
      assert View().drivers == before.drivers;
      if at != NoFailure {
        return Failed(at);
      }
      AddDriver(name, Entry(manifest.(name := name), source, SourceFile(dir, name)));
      outcome := Done;
    }

    /** A store that was loaded stays in sync with its directory through any calls, but for what is
        created beside a populated drivers/. */
    method Serve(calls: seq<Action>)
      requires Valid() && Inverse(yaml) && WellFormed(disk.View()) && (forall a :: a in calls ==> PlainAction(a))
      modifies this, disk, drivers.Values
      ensures Valid()
      ensures View() == After(yaml, Step(yaml, old(View()), Action.Load), calls)
      ensures InSync(yaml, View()) <==>
              (!Coexists(old(disk.View()))
               || CreatedSince(yaml, Step(yaml, old(View()), Action.Load), calls, {}) == {})
    {
      Load();
      ghost var start := View();
      SyncedIff(yaml, start, calls);
      for i := 0 to |calls|
        invariant Valid() && fresh(drivers.Values)
        invariant After(yaml, View(), calls[i..]) == After(yaml, start, calls)
      {
        var a := calls[i];
        assert calls[i..][0] == a && calls[i..][1..] == calls[i + 1..];
        match a
        case Load => Load();
        case Save(name, source, fails) => var _ := SaveSource(name, source, fails);
        case Create(name, manifest, source, failure) => var _ := CreateDriver(name, manifest, source, failure);
      }
    }
  }
}

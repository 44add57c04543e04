/**
 * The plugin Manager of manager.go: Install, Uninstall, Enable, Disable, List,
 * Search, Upgrade and Fetch over a plugin directory, with readMetadata. Each
 * operation is a specification function from the file system tree it starts
 * on to its error and the tree it leaves, and a method of the Manager class
 * that performs the os calls one by one on a Disk and is proved to agree.
 */
module Lifecycle {
  import opened Outcomes
  import opened Strings
  import opened Paths
  import opened Plugin
  import opened Disk
  import opened Pipeline

  /** Why readMetadata fails: os.ReadFile fails, or json.Unmarshal rejects the bytes. */
  datatype MetadataError = Unreadable(cause: DiskError) | Unparseable

  /** The errors the Manager returns, one per distinct message of manager.go. */
  datatype Error =
    | ContextCancelled                                   // "context cancelled …"
    | NoPluginDirectory                                  // "no valid plugin directory found"
    | AlreadyInstalled(name: string)                     // "plugin %s is already installed"
    | NotFound(name: string)                             // "plugin %s not found in plugin directory"
    | NotInstalled(name: string)                         // "plugin %s is not installed"
    | AlreadyAtVersion(name: string, version: string)    // "plugin %s is already at version %s"
    | CreateDirFailed(cause: DiskError)                  // the plugin or temporary upgrade directory
    | FetchFailed                                        // "failed to fetch plugin …"
    | WriteFailed(reason: WriteError)                    // writePluginFiles returned an error
    | Panicked                                           // writePluginFiles panicked (NilReader)
    | MarshalFailed                                      // "failed to marshal metadata"
    | SaveFailed(cause: DiskError)                       // writing metadata.json
    | MetadataFailed(problem: MetadataError)             // reading or parsing the plugin's metadata
    | ReadDirFailed(cause: DiskError)                    // "failed to read plugin directory"
    | PluginMetadataFailed(name: string, problem: MetadataError)  // List, for one plugin
    | SearchFailed                                       // "failed to search available plugins"
    | ListFailed(inner: Error)                           // "failed to list installed plugins"
    | RemoveFailed(cause: DiskError)                     // "failed to remove plugin directory"
    | BackupFailed(cause: DiskError)                     // "failed to backup existing plugin"
    | SwapFailed(cause: DiskError)                       // "failed to install upgrade"

  /** What a Manager works with: its plugin directory, the process's working directory, its store, and the libraries. */
  datatype Config = Config(pluginDir: string, cwd: Path, store: Store, lib: Library)

  const MetadataFile := "metadata.json"

  // ---------------------------------------------------------------- readMetadata and Fetch

  /** readMetadata: a metadata record is read back; bytes that are not one do not parse. */
  function ReadMetadata(t: Tree, cwd: Path, path: string): Result<Info, MetadataError> {
    match ReadFileAt(t, cwd, path)
    case Err(e) => Err(Unreadable(e))
    case Ok(Raw(_)) => Err(Unparseable)
    case Ok(Record(i)) => Ok(i)
  }

  /** Manager.Fetch: the record at <pluginDir>/<name>/metadata.json. It checks no context. */
  function FetchSpec(c: Config, t: Tree, name: string): Result<Info, MetadataError> {
    ReadMetadata(t, c.cwd, Join3(c.pluginDir, name, MetadataFile))
  }

  /** How an error of writePluginFiles reaches the caller: the nil-reader copy is a panic, not an error. */
  function WriteFailure(e: WriteError): Error {
    if e == NilReader then Panicked else WriteFailed(e)
  }

  // ---------------------------------------------------------------- Install

  /** How the saved record is stamped: by Install, or by Upgrade over the current record. */
  datatype Stamp = Fresh(version: string, now: string) | Replacing(version: string, now: string, current: Info)

  /**
   * The record saved for `info`: the requested version, and for Install
   * enabled and installed `now`, for Upgrade the old status and where it was
   * upgraded from (a missing key reads as "").
   */
  function Stamped(stamp: Stamp, info: Info): Info {
    match stamp
    case Fresh(version, now) =>
      info.(version := version, status := "enabled", metadata := map["installed" := now])
    case Replacing(version, now, current) =>
      info.(version := version, status := current.status,
            metadata := map["installed" := now, "upgraded_from" := current.version,
                            "previous_install" := Lookup(current.metadata, "installed")])
  }

  /** A metadata value, or "" when the key is missing (a Go map lookup). */
  function Lookup(m: map<string, string>, key: string): string {
    if key in m then m[key] else ""
  }

  /** writePluginFiles into `dir`, then the stamped record marshalled and saved as <dir>/metadata.json. */
  function DeploySpec(c: Config, t: Tree, ctx: Context, faults: set<Fault>, dir: string, info: Info,
                      stamp: Stamp): (Option<Error>, Tree)
  {
    var (w, t1) := WriteSpec(t, c.cwd, c.lib, faults, ctx, 1, dir, info);
    match w
    case Err(e) => (Some(WriteFailure(e)), t1)
    case Ok(written) =>
      var rec := Stamped(stamp, written);
      if !Encodable(rec) then (Some(MarshalFailed), t1)
      else
        match Try(MetadataSave in faults, WriteFileAt(t1, c.cwd, Join(dir, MetadataFile), Record(Stored(rec))))
        case Err(e) => (Some(SaveFailed(e)), t1)
        case Ok(t2) => (None, t2)
  }

  /**
   * The building steps Install and Upgrade share: MkdirAll of `dir` (failing
   * when `fail`), the store's fetch, then the deployment into `dir`.
   */
  function BuildSpec(c: Config, t: Tree, ctx: Context, faults: set<Fault>, fail: bool, dir: string,
                     fetched: Option<Info>, stamp: Stamp): (Option<Error>, Tree)
  {
    match Try(fail, MkdirAllAt(t, c.cwd, dir))
    case Err(e) => (Some(CreateDirFailed(e)), t)
    case Ok(t1) =>
      match fetched
      case None => (Some(FetchFailed), t1)
      case Some(info) => DeploySpec(c, t1, ctx, faults, dir, info, stamp)
  }

  /** Install after its deferred cleanup is registered: the steps that may fail and leave `dir` behind. */
  function InstallSteps(c: Config, t: Tree, ctx: Context, name: string, version: string, now: string,
                        faults: set<Fault>, dir: string): (Option<Error>, Tree)
  {
    BuildSpec(c, t, ctx, faults, InstallDirCreate in faults, dir, c.store.fetch(name, version), Fresh(version, now))
  }

  /** Manager.Install. On any failure after the existence check, <pluginDir>/<name> is removed again. */
  function InstallSpec(c: Config, t: Tree, ctx: Context, name: string, version: string, now: string,
                       faults: set<Fault>): (Option<Error>, Tree)
  {
    if Cancelled(ctx, 0) then (Some(ContextCancelled), t)
    else if c.pluginDir == "" then (Some(NoPluginDirectory), t)
    else
      var dir := Join(c.pluginDir, name);
      if StatAt(t, c.cwd, dir).Ok? then (Some(AlreadyInstalled(name)), t)
      else
        var (r, u) := InstallSteps(c, t, ctx, name, version, now, faults, dir);
        if r.None? then (None, u) else (r, Settle(u, RemoveAllAt(u, c.cwd, dir)))
  }

  // ---------------------------------------------------------------- Uninstall

  /** Manager.Uninstall: only ENOENT from os.Stat counts as not installed. */
  function UninstallSpec(c: Config, t: Tree, ctx: Context, name: string): (Option<Error>, Tree) {
    if Cancelled(ctx, 0) then (Some(ContextCancelled), t)
    else
      var dir := Join(c.pluginDir, name);
      if StatAt(t, c.cwd, dir) == Err(NotExist) then (Some(NotFound(name)), t)
      else
        match RemoveAllAt(t, c.cwd, dir)
        case Err(e) => (Some(RemoveFailed(e)), t)
        case Ok(u) => (None, u)
  }

  // ---------------------------------------------------------------- Enable and Disable

  /** Manager.Enable (`status` "enabled") and Manager.Disable ("disabled"): rewrite the record with the new status. */
  function SetStatusSpec(c: Config, t: Tree, ctx: Context, name: string, status: string,
                         faults: set<Fault>): (Option<Error>, Tree)
  {
    if Cancelled(ctx, 0) then (Some(ContextCancelled), t)
    else
      var path := Join(Join(c.pluginDir, name), MetadataFile);
      match ReadMetadata(t, c.cwd, path)
      case Err(m) => (Some(MetadataFailed(m)), t)
      case Ok(i) =>
        var rec := i.(status := status);
        if !Encodable(rec) then (Some(MarshalFailed), t)
        else
          match Try(MetadataSave in faults, WriteFileAt(t, c.cwd, path, Record(Stored(rec))))
          case Err(e) => (Some(SaveFailed(e)), t)
          case Ok(u) => (None, u)
  }

  // ---------------------------------------------------------------- List

  /** The loop of List over directory entries from the front: skip non-directories and plugins without metadata. */
  function Collect(t: Tree, cwd: Path, pluginDir: string, es: seq<DirEntry>): Result<seq<Info>, Error>
    decreases |es|
  {
    if es == [] then Ok([])
    else if !es[0].isDir then Collect(t, cwd, pluginDir, es[1..])
    else
      match ReadMetadata(t, cwd, Join3(pluginDir, es[0].name, MetadataFile))
      case Err(Unreadable(NotExist)) => Collect(t, cwd, pluginDir, es[1..])
      case Err(m) => Err(PluginMetadataFailed(es[0].name, m))
      case Ok(i) =>
        match Collect(t, cwd, pluginDir, es[1..])
        case Err(e) => Err(e)
        case Ok(rest) => Ok([i] + rest)
  }

  /** Manager.List, whose context check is the operation's k-th. A missing plugin directory lists nothing. */
  function ListSpec(c: Config, t: Tree, ctx: Context, k: nat): Result<seq<Info>, Error> {
    if Cancelled(ctx, k) then Err(ContextCancelled)
    else
      match ReadDirAt(t, c.cwd, c.pluginDir)
      case Err(NotExist) => Ok([])
      case Err(e) => Err(ReadDirFailed(e))
      case Ok(es) => Collect(t, c.cwd, c.pluginDir, es)
  }

  // ---------------------------------------------------------------- Search

  /** installedMap: each listed name with its version; a later entry overrides an earlier one. */
  function Versions(xs: seq<Info>): map<string, string>
    decreases |xs|
  {
    if xs == [] then map[] else Versions(xs[..|xs| - 1])[xs[|xs| - 1].name := xs[|xs| - 1].version]
  }

  /** One search result marked with its installation status. */
  function Mark(a: Info, versions: map<string, string>): Info {
    if a.name in versions then a.(status := "installed", metadata := a.metadata["installed_version" := versions[a.name]])
    else a.(status := "available")
  }

  /** Manager.Search: the store's results, marked against List (the operation's second context check). */
  function SearchSpec(c: Config, t: Tree, ctx: Context, opts: SearchOptions): Result<seq<Info>, Error> {
    if Cancelled(ctx, 0) then Err(ContextCancelled)
    else
      match c.store.search(opts)
      case None => Err(SearchFailed)
      case Some(available) =>
        match ListSpec(c, t, ctx, 1)
        case Err(e) => Err(ListFailed(e))
        case Ok(installed) =>
          var versions := Versions(installed);
          Ok(seq(|available|, i requires 0 <= i < |available| => Mark(available[i], versions)))
  }

  // ---------------------------------------------------------------- Upgrade

  /** The rename back from .backup after a failed swap; its error is ignored. */
  function Restore(c: Config, t: Tree, faults: set<Fault>, dir: string): Tree {
    Settle(t, Try(RestoreRename in faults, RenameAt(t, c.cwd, dir + ".backup", dir)))
  }

  /** Upgrade after its deferred removal of `tmp` is registered, up to the swap: the new version staged in `tmp`. */
  function StagingSpec(c: Config, t: Tree, ctx: Context, name: string, version: string, now: string,
                       faults: set<Fault>, tmp: string, current: Info): (Option<Error>, Tree)
  {
    BuildSpec(c, t, ctx, faults, UpgradeDirCreate in faults, tmp, c.store.fetch(name, version), Replacing(version, now, current))
  }

  /** The swap: the live directory to .backup, the staged one in, the backup dropped (or moved back on failure). */
  function SwapSpec(c: Config, t: Tree, faults: set<Fault>, dir: string, tmp: string): (Option<Error>, Tree) {
    match Try(BackupRename in faults, RenameAt(t, c.cwd, dir, dir + ".backup"))
    case Err(e) => (Some(BackupFailed(e)), t)
    case Ok(t1) =>
      match Try(SwapRename in faults, RenameAt(t1, c.cwd, tmp, dir))
      case Err(e) => (Some(SwapFailed(e)), Restore(c, t1, faults, dir))
      case Ok(t2) => (None, Settle(t2, RemoveAllAt(t2, c.cwd, dir + ".backup")))
  }

  function UpgradeSteps(c: Config, t: Tree, ctx: Context, name: string, version: string, now: string,
                        faults: set<Fault>, dir: string, tmp: string, current: Info): (Option<Error>, Tree)
  {
    var (r, u) := StagingSpec(c, t, ctx, name, version, now, faults, tmp, current);
    if r.Some? then (r, u) else SwapSpec(c, u, faults, dir, tmp)
  }

  /**
   * Manager.Upgrade: build the new version in <name>.upgrade, move the live
   * directory to <name>.backup, move the new one in, drop the backup; the
   * temporary directory is removed on every return after the version check.
   */
  function UpgradeSpec(c: Config, t: Tree, ctx: Context, name: string, version: string, now: string,
                       faults: set<Fault>): (Option<Error>, Tree)
  {
    if Cancelled(ctx, 0) then (Some(ContextCancelled), t)
    else
      var dir := Join(c.pluginDir, name);
      if StatAt(t, c.cwd, dir) == Err(NotExist) then (Some(NotInstalled(name)), t)
      else
        match ReadMetadata(t, c.cwd, Join(dir, MetadataFile))
        case Err(m) => (Some(MetadataFailed(m)), t)
        case Ok(current) =>
          if current.version == version then (Some(AlreadyAtVersion(name, version)), t)
          else
            var tmp := dir + ".upgrade";
            var (r, u) := UpgradeSteps(c, t, ctx, name, version, now, faults, dir, tmp, current);
            (r, Settle(u, RemoveAllAt(u, c.cwd, tmp)))
  }

  // ---------------------------------------------------------------- the Manager object

  /**
   * Manager. Its mutex only serialises the operations, which are modelled one
   * at a time. `now` is the time.Now() an operation formats; `faults` names
   * the calls that fail for reasons the tree does not explain.
   */
  class Manager {
    const pluginDir: string
    const store: Store
    const lib: Library
    const disk: Disk

    /** NewManager */
    constructor (pluginDir: string, store: Store, lib: Library, disk: Disk)
      ensures this.pluginDir == pluginDir && this.store == store && this.lib == lib && this.disk == disk
    {
      this.pluginDir := pluginDir;
      this.store := store;
      this.lib := lib;
      this.disk := disk;
    }

    function Settings(): Config {
      Config(pluginDir, disk.cwd, store, lib)
    }

    method Install(ctx: Context, name: string, version: string, now: string, faults: set<Fault>)
      returns (err: Option<Error>)
      modifies disk
      ensures (err, disk.tree) == InstallSpec(Settings(), old(disk.tree), ctx, name, version, now, faults)
    {
      if Cancelled(ctx, 0) {
        return Some(ContextCancelled);
      }
      if pluginDir == "" {
        return Some(NoPluginDirectory);
      }
      var dir := Join(pluginDir, name);
      var found := disk.Stat(dir);
      if found.Ok? {
        return Some(AlreadyInstalled(name));
      }
      err := InstallFiles(ctx, name, version, now, faults, dir);
      if err.Some? {
        var ignored := disk.RemoveAll(dir);
      }
    }

    method InstallFiles(ctx: Context, name: string, version: string, now: string, faults: set<Fault>, dir: string)
      returns (err: Option<Error>)
      modifies disk
      ensures (err, disk.tree) == InstallSteps(Settings(), old(disk.tree), ctx, name, version, now, faults, dir)
    {
      var failed := disk.MkdirAll(dir, InstallDirCreate in faults);
      if failed.Some? {
        return Some(CreateDirFailed(failed.value));
      }
      var fetched := store.fetch(name, version);
      if fetched.None? {
        return Some(FetchFailed);
      }
      err := Deploy(ctx, faults, dir, fetched.value, Fresh(version, now));
    }

    method Deploy(ctx: Context, faults: set<Fault>, dir: string, info: Info, stamp: Stamp)
      returns (err: Option<Error>)
      modifies disk
      ensures (err, disk.tree) == DeploySpec(Settings(), old(disk.tree), ctx, faults, dir, info, stamp)
    {
      var written := WritePluginFiles(disk, lib, faults, ctx, 1, dir, info);
      if written.Err? {
        return Some(WriteFailure(written.error));
      }
      var rec := Stamped(stamp, written.value);
      if !Encodable(rec) {
        return Some(MarshalFailed);
      }
      var failed := disk.WriteFile(Join(dir, MetadataFile), Record(Stored(rec)), MetadataSave in faults);
      if failed.Some? {
        return Some(SaveFailed(failed.value));
      }
      err := None;
    }

    method Uninstall(ctx: Context, name: string) returns (err: Option<Error>)
      modifies disk
      ensures (err, disk.tree) == UninstallSpec(Settings(), old(disk.tree), ctx, name)
    {
      if Cancelled(ctx, 0) {
        return Some(ContextCancelled);
      }
      var dir := Join(pluginDir, name);
      var found := disk.Stat(dir);
      if found == Err(NotExist) {
        return Some(NotFound(name));
      }
      var failed := disk.RemoveAll(dir);
      if failed.Some? {
        return Some(RemoveFailed(failed.value));
      }
      err := None;
    }

    method Enable(ctx: Context, name: string, faults: set<Fault>) returns (err: Option<Error>)
      modifies disk
      ensures (err, disk.tree) == SetStatusSpec(Settings(), old(disk.tree), ctx, name, "enabled", faults)
    {
      err := SetStatus(ctx, name, "enabled", faults);
    }

    method Disable(ctx: Context, name: string, faults: set<Fault>) returns (err: Option<Error>)
      modifies disk
      ensures (err, disk.tree) == SetStatusSpec(Settings(), old(disk.tree), ctx, name, "disabled", faults)
    {
      err := SetStatus(ctx, name, "disabled", faults);
    }

    method SetStatus(ctx: Context, name: string, status: string, faults: set<Fault>) returns (err: Option<Error>)
      modifies disk
      ensures (err, disk.tree) == SetStatusSpec(Settings(), old(disk.tree), ctx, name, status, faults)
    {
      if Cancelled(ctx, 0) {
        return Some(ContextCancelled);
      }
      var path := Join(Join(pluginDir, name), MetadataFile);
      var current := ReadRecord(path);
      if current.Err? {
        return Some(MetadataFailed(current.error));
      }
      var rec := current.value.(status := status);
      if !Encodable(rec) {
        return Some(MarshalFailed);
      }
      var failed := disk.WriteFile(path, Record(Stored(rec)), MetadataSave in faults);
      if failed.Some? {
        return Some(SaveFailed(failed.value));
      }
      err := None;
    }

    /** readMetadata */
    method ReadRecord(path: string) returns (r: Result<Info, MetadataError>)
      ensures r == ReadMetadata(disk.tree, disk.cwd, path)
    {
      var data := disk.ReadFile(path);
      if data.Err? {
        return Err(Unreadable(data.error));
      }
      match data.value
      case Raw(_) => r := Err(Unparseable);
      case Record(i) => r := Ok(i);
    }

    method Fetch(name: string) returns (r: Result<Info, MetadataError>)
      ensures r == FetchSpec(Settings(), disk.tree, name)
    {
      r := ReadRecord(Join3(pluginDir, name, MetadataFile));
    }

    method List(ctx: Context) returns (r: Result<seq<Info>, Error>)
      ensures r == ListSpec(Settings(), disk.tree, ctx, 0)
    {
      r := Listing(ctx, 0);
    }

    /** List's body, as the k-th context check of the calling operation. */
    method Listing(ctx: Context, k: nat) returns (r: Result<seq<Info>, Error>)
      ensures r == ListSpec(Settings(), disk.tree, ctx, k)
    {
      if Cancelled(ctx, k) {
        return Err(ContextCancelled);
      }
      var listed := disk.ReadDir(pluginDir);
      if listed.Err? {
        if listed.error == NotExist {
          return Ok([]);
        }
        return Err(ReadDirFailed(listed.error));
      }
      var entries := listed.value;
      var plugins: seq<Info> := [];
      var i := 0;
      PrefixedNothing(Collect(disk.tree, disk.cwd, pluginDir, entries));
      assert entries[i..] == entries;
      while i < |entries|
        invariant 0 <= i <= |entries|
        invariant Collect(disk.tree, disk.cwd, pluginDir, entries)
               == Prefixed(plugins, Collect(disk.tree, disk.cwd, pluginDir, entries[i..]))
      {
        CollectUnfold(disk.tree, disk.cwd, pluginDir, entries, i);
        if entries[i].isDir {
          var name := entries[i].name;
          var data := ReadRecord(Join3(pluginDir, name, MetadataFile));
          if data.Err? {
            if data.error != Unreadable(NotExist) {
              return Err(PluginMetadataFailed(name, data.error));
            }
          } else {
            PrefixedAppend(plugins, data.value, Collect(disk.tree, disk.cwd, pluginDir, entries[i + 1..]));
            plugins := plugins + [data.value];
          }
        }
        i := i + 1;
      }
      assert entries[i..] == [] && plugins + [] == plugins;
      r := Ok(plugins);
    }

    method Search(ctx: Context, opts: SearchOptions) returns (r: Result<seq<Info>, Error>)
      ensures r == SearchSpec(Settings(), disk.tree, ctx, opts)
    {
      if Cancelled(ctx, 0) {
        return Err(ContextCancelled);
      }
      var found := store.search(opts);
      if found.None? {
        return Err(SearchFailed);
      }
      var installed := Listing(ctx, 1);
      if installed.Err? {
        return Err(ListFailed(installed.error));
      }
      var plugins := installed.value;
      var versions: map<string, string> := map[];
      var i := 0;
      while i < |plugins|
        invariant 0 <= i <= |plugins|
        invariant versions == Versions(plugins[..i])
      {
        assert plugins[..i + 1][..i] == plugins[..i];
        versions := versions[plugins[i].name := plugins[i].version];
        i := i + 1;
      }
      assert plugins[..|plugins|] == plugins;
      var available := found.value;
      var j := 0;
      while j < |available|
        invariant 0 <= j <= |available| && |available| == |found.value|
        invariant forall n :: 0 <= n < j ==> available[n] == Mark(found.value[n], versions)
        invariant forall n :: j <= n < |available| ==> available[n] == found.value[n]
      {
        ghost var before := available;
        if available[j].name in versions {
          available := available[j := available[j].(status := "installed",
                                        metadata := available[j].metadata["installed_version" := versions[available[j].name]])];
        } else {
          available := available[j := available[j].(status := "available")];
        }
        assert available[j] == Mark(found.value[j], versions);
        assert forall n :: 0 <= n < |available| && n != j ==> available[n] == before[n];
        j := j + 1;
      }
      var marked := seq(|found.value|, n requires 0 <= n < |found.value| => Mark(found.value[n], versions));
      assert available == marked;
      assert SearchSpec(Settings(), disk.tree, ctx, opts) == Ok(marked);
      r := Ok(available);
    }

    method Upgrade(ctx: Context, name: string, version: string, now: string, faults: set<Fault>)
      returns (err: Option<Error>)
      modifies disk
      ensures (err, disk.tree) == UpgradeSpec(Settings(), old(disk.tree), ctx, name, version, now, faults)
    {
      if Cancelled(ctx, 0) {
        return Some(ContextCancelled);
      }
      var dir := Join(pluginDir, name);
      var found := disk.Stat(dir);
      if found == Err(NotExist) {
        return Some(NotInstalled(name));
      }
      var current := ReadRecord(Join(dir, MetadataFile));
      if current.Err? {
        return Some(MetadataFailed(current.error));
      }
      if current.value.version == version {
        return Some(AlreadyAtVersion(name, version));
      }
      var tmp := dir + ".upgrade";
      err := UpgradeFiles(ctx, name, version, now, faults, dir, tmp, current.value);
      var ignored := disk.RemoveAll(tmp);
    }

    method UpgradeFiles(ctx: Context, name: string, version: string, now: string, faults: set<Fault>,
                        dir: string, tmp: string, current: Info)
      returns (err: Option<Error>)
      modifies disk
      ensures (err, disk.tree) == UpgradeSteps(Settings(), old(disk.tree), ctx, name, version, now, faults, dir, tmp, current)
    {
      err := StageUpgrade(ctx, name, version, now, faults, tmp, current);
      if err.None? {
        err := Swap(faults, dir, tmp);
      }
    }

    method StageUpgrade(ctx: Context, name: string, version: string, now: string, faults: set<Fault>,
                 tmp: string, current: Info)
      returns (err: Option<Error>)
      modifies disk
      ensures (err, disk.tree) == StagingSpec(Settings(), old(disk.tree), ctx, name, version, now, faults, tmp, current)
    {
      var failed := disk.MkdirAll(tmp, UpgradeDirCreate in faults);
      if failed.Some? {
        return Some(CreateDirFailed(failed.value));
      }
      var fetched := store.fetch(name, version);
      if fetched.None? {
        return Some(FetchFailed);
      }
      err := Deploy(ctx, faults, tmp, fetched.value, Replacing(version, now, current));
    }

    method Swap(faults: set<Fault>, dir: string, tmp: string) returns (err: Option<Error>)
      modifies disk
      ensures (err, disk.tree) == SwapSpec(Settings(), old(disk.tree), faults, dir, tmp)
    {
      var backup := dir + ".backup";
      var failed := disk.Rename(dir, backup, BackupRename in faults);
      if failed.Some? {
        return Some(BackupFailed(failed.value));
      }
      failed := disk.Rename(tmp, dir, SwapRename in faults);
      if failed.Some? {
        var ignored := disk.Rename(backup, dir, RestoreRename in faults);
        return Some(SwapFailed(failed.value));
      }
      var ignored := disk.RemoveAll(backup);
      err := None;
    }
  }

  /** `xs` in front of a list that succeeded; an error passes through. */
  function Prefixed(xs: seq<Info>, r: Result<seq<Info>, Error>): Result<seq<Info>, Error> {
    if r.Ok? then Ok(xs + r.value) else r
  }

  lemma PrefixedNothing(r: Result<seq<Info>, Error>)
    ensures Prefixed([], r) == r
  {
    if r.Ok? {
      assert [] + r.value == r.value;
    }
  }

  lemma PrefixedAppend(xs: seq<Info>, x: Info, r: Result<seq<Info>, Error>)
    ensures Prefixed(xs, Prefixed([x], r)) == Prefixed(xs + [x], r)
  {
    if r.Ok? {
      assert xs + ([x] + r.value) == xs + [x] + r.value;
    }
  }

  /** One step of List's loop: the entry at `i` decides, then the rest. */
  lemma CollectUnfold(t: Tree, cwd: Path, pluginDir: string, es: seq<DirEntry>, i: nat)
    requires i < |es|
    ensures Collect(t, cwd, pluginDir, es[i..]) ==
      if !es[i].isDir then Collect(t, cwd, pluginDir, es[i + 1..])
      else match ReadMetadata(t, cwd, Join3(pluginDir, es[i].name, MetadataFile))
        case Err(Unreadable(NotExist)) => Collect(t, cwd, pluginDir, es[i + 1..])
        case Err(m) => Err(PluginMetadataFailed(es[i].name, m))
        case Ok(x) => Prefixed([x], Collect(t, cwd, pluginDir, es[i + 1..]))
  {
    assert es[i..][1..] == es[i + 1..] && es[i..][0] == es[i];
  }

  // ---------------------------------------------------------------- where things are

  /**
   * The setting the properties below rely on: the plugin directory is an
   * absolute, clean path to the location R, and the plugin is named by a
   * plain name.
   */
  predicate Rooted(c: Config, r: Path, name: string) {
    c.pluginDir == Render(Loc(true, r)) && PlainPath(r) && Plain(name)
  }

  /** The store gives the record it fetches a plain Name and a plain or empty FileName. */
  predicate FetchedPlain(store: Store, name: string, version: string) {
    store.fetch(name, version).Some? ==>
      Plain(store.fetch(name, version).value.name) &&
      (Plain(store.fetch(name, version).value.fileName) || store.fetch(name, version).value.fileName == "")
  }

  /** Nothing is at or below `d`, not even a stray entry. */
  predicate Vacant(t: Tree, d: Path) {
    forall k :: k in t ==> !Under(k, d)
  }

  lemma MetadataFilePlain()
    ensures Plain(MetadataFile)
  {
    assert forall i :: 0 <= i < |MetadataFile| ==> MetadataFile[i] != '/';
  }

  /** Where <pluginDir>/<name> and its metadata.json are. */
  lemma Layout(c: Config, r: Path, name: string)
    requires Rooted(c, r, name)
    ensures c.pluginDir != ""
    ensures Join(c.pluginDir, name) == Render(Loc(true, r + [name]))
    ensures Resolve(c.cwd, c.pluginDir) == Ok(r)
    ensures Resolve(c.cwd, Join(c.pluginDir, name)) == Ok(r + [name])
    ensures Resolve(c.cwd, Join(Join(c.pluginDir, name), MetadataFile)) == Ok(r + [name, MetadataFile])
    ensures Resolve(c.cwd, Join3(c.pluginDir, name, MetadataFile)) == Ok(r + [name, MetadataFile])
  {
    MetadataFilePlain();
    LocateRender(c.cwd, r);
    PluginPaths(c.cwd, r, name, MetadataFile);
    LocateJoin3(c.cwd, c.pluginDir, name, MetadataFile);
  }

  /** Where <pluginDir>/<name> is, alone. */
  lemma DirLayout(c: Config, r: Path, name: string)
    requires Rooted(c, r, name)
    ensures PlainPath(r + [name])
    ensures Join(c.pluginDir, name) == Render(Loc(true, r + [name]))
    ensures Resolve(c.cwd, Join(c.pluginDir, name)) == Ok(r + [name])
  {
    PluginPaths(c.cwd, r, name, "");
    assert PlainPath(r + [name]) by {
      assert forall j :: 0 <= j < |r + [name]| ==> (r + [name])[j] == if j < |r| then r[j] else name;
    }
  }

  /** Where <pluginDir>/<name><suffix> is, for the suffixes .upgrade and .backup. */
  lemma SuffixLayout(c: Config, r: Path, name: string, suffix: string)
    requires Rooted(c, r, name)
    requires suffix == ".upgrade" || suffix == ".backup"
    ensures PlainPath(r + [name + suffix])
    ensures Join(c.pluginDir, name) + suffix == Render(Loc(true, r + [name + suffix]))
    ensures Resolve(c.cwd, Join(c.pluginDir, name) + suffix) == Ok(r + [name + suffix])
    ensures Resolve(c.cwd, Join(Join(c.pluginDir, name) + suffix, MetadataFile)) == Ok(r + [name + suffix, MetadataFile])
  {
    SuffixPlain(name, suffix);
    var n := name + suffix;
    assert PlainPath(r + [n]) by {
      assert forall i :: 0 <= i < |r| ==> (r + [n])[i] == r[i];
    }
    Layout(c, r, name);
    RenderSuffix(r + [name], suffix);
    assert (r + [name])[..|r|] + [n] == r + [n];
    MetadataFilePlain();
    PluginPaths(c.cwd, r, n, MetadataFile);
  }

  lemma SuffixPlain(name: string, suffix: string)
    requires Plain(name)
    requires suffix == ".upgrade" || suffix == ".backup"
    ensures Plain(name + suffix)
  {
    assert '/' !in suffix;
    assert |name + suffix| > 2;
  }

  // ---------------------------------------------------------------- properties of Install and Upgrade

  /**
   * Deploying into the directory D changes nothing outside D and keeps D a
   * directory; on success D/metadata.json holds the stamped record.
   */
  lemma DeployInside(c: Config, t: Tree, ctx: Context, faults: set<Fault>, d: Path, info: Info, stamp: Stamp)
    requires PlainPath(d) && |d| >= 1 && IsDirAt(t, d)
    requires Plain(info.name) && (Plain(info.fileName) || info.fileName == "")
    ensures Confined(t, DeploySpec(c, t, ctx, faults, Render(Loc(true, d)), info, stamp).1, d)
    ensures IsDirAt(DeploySpec(c, t, ctx, faults, Render(Loc(true, d)), info, stamp).1, d)
    ensures DeploySpec(c, t, ctx, faults, Render(Loc(true, d)), info, stamp).0.None? ==>
              ReadFile(DeploySpec(c, t, ctx, faults, Render(Loc(true, d)), info, stamp).1, d + [MetadataFile])
              == Ok(Record(Stored(Stamped(stamp, info))))
  {
    var dir := Render(Loc(true, d));
    FilesConfined(t, c.cwd, c.lib, faults, ctx, 1, d, info);
    var (w, t1) := WriteSpec(t, c.cwd, c.lib, faults, ctx, 1, dir, info);
    assert !Below(d, d);
    assert IsDirAt(t1, d);
    if w.Ok? {
      WriteKeepsRecord(t, c.cwd, c.lib, faults, ctx, 1, dir, info);
      var rec := Stamped(stamp, w.value);
      assert Stored(rec) == Stored(Stamped(stamp, info));
      var m := d + [MetadataFile];
      MetadataFilePlain();
      LocateRender(c.cwd, d);
      LocateJoin(c.cwd, dir, MetadataFile);
      assert Resolve(c.cwd, Join(dir, MetadataFile)) == Ok(m);
      assert Below(m, d) && m[..|m| - 1] == d;
      WriteFileChild(t1, m, Record(Stored(rec)));
      if Encodable(rec) && MetadataSave !in faults && !IsDirAt(t1, m) {
        var t2 := t1[m := File(Record(Stored(rec)))];
        assert DeploySpec(c, t, ctx, faults, dir, info, stamp) == (None, t2);
        UpdateConfined(t1, m, File(Record(Stored(rec))), d);
        ConfinedTrans(t, t1, t2, d);
      }
    }
  }

  /** Whatever happens, the steps of Install change nothing outside <pluginDir>/<name>, and on success it is a directory. */
  lemma InstallStepsInside(c: Config, t: Tree, ctx: Context, name: string, version: string, now: string,
                           faults: set<Fault>, r: Path)
    requires Rooted(c, r, name) && IsDirAt(t, r) && FetchedPlain(c.store, name, version)
    ensures forall k :: !Under(k, r + [name]) ==>
              At(InstallSteps(c, t, ctx, name, version, now, faults, Join(c.pluginDir, name)).1, k) == At(t, k)
    ensures InstallSteps(c, t, ctx, name, version, now, faults, Join(c.pluginDir, name)).0.None? ==>
              IsDirAt(InstallSteps(c, t, ctx, name, version, now, faults, Join(c.pluginDir, name)).1, r + [name]) &&
              c.store.fetch(name, version).Some? &&
              ReadFile(InstallSteps(c, t, ctx, name, version, now, faults, Join(c.pluginDir, name)).1, r + [name, MetadataFile])
              == Ok(Record(Stored(Stamped(Fresh(version, now), c.store.fetch(name, version).value))))
  {
    DirLayout(c, r, name);
    assert (r + [name])[..|r + [name]| - 1] == r;
    BuildInside(c, t, ctx, faults, InstallDirCreate in faults, Join(c.pluginDir, name), r + [name],
                c.store.fetch(name, version), Fresh(version, now));
    var res := InstallSteps(c, t, ctx, name, version, now, faults, Join(c.pluginDir, name));
    var fetched := c.store.fetch(name, version);
    assert res == BuildSpec(c, t, ctx, faults, InstallDirCreate in faults, Join(c.pluginDir, name), fetched, Fresh(version, now));
    assert r + [name] + [MetadataFile] == r + [name, MetadataFile];
    if res.0.None? {
      assert ReadFile(res.1, r + [name, MetadataFile]) == Ok(Record(Stored(Stamped(Fresh(version, now), fetched.value))));
    }
  }

  /**
   * The building steps change nothing outside the directory they build, and
   * on success leave it a directory holding the stamped record.
   */
  lemma BuildInside(c: Config, t: Tree, ctx: Context, faults: set<Fault>, fail: bool, dir: string, d: Path,
                    fetched: Option<Info>, stamp: Stamp)
    requires PlainPath(d) && |d| >= 1 && IsDirAt(t, d[..|d| - 1])
    requires dir == Render(Loc(true, d)) && Resolve(c.cwd, dir) == Ok(d)
    requires fetched.Some? ==> Plain(fetched.value.name) && (Plain(fetched.value.fileName) || fetched.value.fileName == "")
    ensures forall k :: !Under(k, d) ==> At(BuildSpec(c, t, ctx, faults, fail, dir, fetched, stamp).1, k) == At(t, k)
    ensures BuildSpec(c, t, ctx, faults, fail, dir, fetched, stamp).0.None? ==>
              IsDirAt(BuildSpec(c, t, ctx, faults, fail, dir, fetched, stamp).1, d) && fetched.Some? &&
              ReadFile(BuildSpec(c, t, ctx, faults, fail, dir, fetched, stamp).1, d + [MetadataFile])
              == Ok(Record(Stored(Stamped(stamp, fetched.value))))
  {
    var res := BuildSpec(c, t, ctx, faults, fail, dir, fetched, stamp);
    assert MkdirAllAt(t, c.cwd, dir) == MkdirAll(t, d);
    MkdirAllChild(t, d);
    if fail || IsFileAt(t, d) {
      assert res.1 == t;
    } else {
      var t1 := if d in t then t else t[d := Directory];
      assert MkdirAllAt(t, c.cwd, dir) == Ok(t1);
      MadeOutside(t, d);
      if fetched.None? {
        assert res == (Some(FetchFailed), t1);
      } else {
        assert IsDirAt(t1, d);
        DeployInside(c, t1, ctx, faults, d, fetched.value, stamp);
        assert res == DeploySpec(c, t1, ctx, faults, dir, fetched.value, stamp);
        OutsideThenConfined(t, t1, res.1, d);
      }
    }
  }

  /**
   * Install where <pluginDir> is not a directory yet: MkdirAll of
   * <pluginDir>/<name> creates it first. A file at <pluginDir>, or a fault
   * there, fails the attempt before anything is made; otherwise Install runs
   * as it would once MkdirAll had made <pluginDir>.
   */
  lemma FirstInstall(c: Config, t: Tree, ctx: Context, name: string, version: string, now: string,
                     faults: set<Fault>, r: Path)
    requires Rooted(c, r, name) && !Cancelled(ctx, 0) && !Blocked(t, r) && !IsDirAt(t, r)
    requires At(t, r + [name]).None?
    ensures IsFileAt(t, r) || InstallDirCreate in faults ==>
              InstallSpec(c, t, ctx, name, version, now, faults).0.Some? &&
              InstallSpec(c, t, ctx, name, version, now, faults).1 == Cleared(t, r + [name])
    ensures !IsFileAt(t, r) && InstallDirCreate !in faults ==>
              MkdirAll(t, r).Ok? &&
              InstallSpec(c, t, ctx, name, version, now, faults)
                == InstallSpec(c, MkdirAll(t, r).value, ctx, name, version, now, faults)
  {
    var d := r + [name];
    var dir := Join(c.pluginDir, name);
    Layout(c, r, name);
    assert StatAt(t, c.cwd, dir).Err?;
    InstallUnfold(c, t, ctx, name, version, now, faults, r);
    assert d[..|d| - 1] == r;
    if IsFileAt(t, r) {
      assert MkdirAll(t, d).Err?;
      assert InstallSteps(c, t, ctx, name, version, now, faults, dir).0.Some?;
    } else if InstallDirCreate in faults {
      assert InstallSteps(c, t, ctx, name, version, now, faults, dir).1 == t;
    } else {
      MkdirAllMade(t, r);
      var t0 := MkdirAll(t, r).value;
      assert At(t0, d) == At(t, d);
      MkdirAllChild(t0, d);
      assert MkdirAll(t, d) == Ok(t0[d := Directory]);
      assert InstallSteps(c, t, ctx, name, version, now, faults, dir) == InstallSteps(c, t0, ctx, name, version, now, faults, dir);
      assert StatAt(t0, c.cwd, dir).Err?;
      InstallUnfold(c, t0, ctx, name, version, now, faults, r);
    }
  }

  /**
   * A failed Install leaves the file system as it found it, except for the
   * directories MkdirAll made at and above <pluginDir>, provided nothing was
   * at <pluginDir>/<name> before: its deferred RemoveAll takes away that
   * directory and whatever was extracted into it. When <pluginDir> existed,
   * the file system is exactly as it was.
   */
  lemma InstallFailureUndone(c: Config, t: Tree, ctx: Context, name: string, version: string, now: string,
                             faults: set<Fault>, r: Path)
    requires Rooted(c, r, name) && !Blocked(t, r) && FetchedPlain(c.store, name, version)
    requires Vacant(t, r + [name])
    ensures InstallSpec(c, t, ctx, name, version, now, faults).0.Some? && IsDirAt(t, r) ==>
              forall k :: At(InstallSpec(c, t, ctx, name, version, now, faults).1, k) == At(t, k)
    ensures InstallSpec(c, t, ctx, name, version, now, faults).0.Some? ==>
              forall k :: At(InstallSpec(c, t, ctx, name, version, now, faults).1, k) == At(t, k) ||
                          (Under(r, k) && At(t, k).None? && IsDirAt(InstallSpec(c, t, ctx, name, version, now, faults).1, k))
    decreases if IsDirAt(t, r) then 0 else 1
  {
    if IsDirAt(t, r) {
      var d := r + [name];
      var dir := Join(c.pluginDir, name);
      Layout(c, r, name);
      if !Cancelled(ctx, 0) {
        assert StatAt(t, c.cwd, dir).Err?;
        InstallStepsInside(c, t, ctx, name, version, now, faults, r);
        InstallUnfold(c, t, ctx, name, version, now, faults, r);
        var (e, u) := InstallSteps(c, t, ctx, name, version, now, faults, dir);
        if e.Some? {
          ReachableKept(t, u, r);
          ReachableChild(u, r, name);
          RemoveAllSpec(u, d);
          var v := InstallSpec(c, t, ctx, name, version, now, faults).1;
          assert v == RemoveAll(u, d);
          forall k ensures At(v, k) == At(t, k) {
            if Under(k, d) {
              assert k !in v && k !in t;
            }
          }
        }
      }
    } else if !Cancelled(ctx, 0) {
      var d := r + [name];
      FirstInstall(c, t, ctx, name, version, now, faults, r);
      if IsFileAt(t, r) || InstallDirCreate in faults {
        if !Blocked(t, d) {
          RemoveAllSpec(t, d);
          forall k ensures At(RemoveAll(t, d), k) == At(t, k) {
            if Under(k, d) {
              assert k !in t;
            }
          }
        }
      } else {
        MadeVacant(t, r, name);
        InstallFailureUndone(c, MkdirAll(t, r).value, ctx, name, version, now, faults, r);
      }
    }
  }

  /** MkdirAll of <pluginDir> adds nothing at or below <pluginDir>/<name>. */
  lemma MadeVacant(t: Tree, r: Path, name: string)
    requires !Blocked(t, r) && !IsFileAt(t, r) && Vacant(t, r + [name])
    ensures MkdirAll(t, r).Ok? && Reachable(MkdirAll(t, r).value, r)
    ensures Vacant(MkdirAll(t, r).value, r + [name])
    ensures forall k :: At(MkdirAll(t, r).value, k) == At(t, k) ||
                        (Under(r, k) && At(t, k).None? && IsDirAt(MkdirAll(t, r).value, k))
  {
    MkdirAllMade(t, r);
    var t0 := MkdirAll(t, r).value;
    forall k | k in t0 ensures !Under(k, r + [name]) {
      if k !in t && k != [] {
        assert At(t0, k) != At(t, k);
      }
    }
  }

  /**
   * With a regular file on the way to <pluginDir>, Install fails at MkdirAll
   * with ENOTDIR (or the injected fault) and changes nothing.
   */
  lemma InstallBlocked(c: Config, t: Tree, ctx: Context, name: string, version: string, now: string,
                       faults: set<Fault>, r: Path)
    requires Rooted(c, r, name) && !Cancelled(ctx, 0) && Proper(t) && Blocked(t, r)
    ensures InstallSpec(c, t, ctx, name, version, now, faults)
         == (Some(CreateDirFailed(if InstallDirCreate in faults then Denied else NotDir)), t)
  {
    var d := r + [name];
    Layout(c, r, name);
    assert d[..|d| - 1] == r;
    assert Blocked(t, d);
    assert d !in t;
    MkdirAllBlocked(t, d);
  }

  /** Install refuses a plugin that is already there and changes nothing, whatever the store holds. */
  lemma InstallRefusesExisting(c: Config, t: Tree, ctx: Context, name: string, version: string, now: string,
                               faults: set<Fault>, r: Path)
    requires Rooted(c, r, name) && !Cancelled(ctx, 0) && At(t, r + [name]).Some?
    ensures InstallSpec(c, t, ctx, name, version, now, faults) == (Some(AlreadyInstalled(name)), t)
  {
    Layout(c, r, name);
  }

  /**
   * Past the checks, Install's deferred RemoveAll of a failed attempt removes
   * the subtree at <pluginDir>/<name>, unless a file stands on the way to it.
   */
  lemma InstallUnfold(c: Config, t: Tree, ctx: Context, name: string, version: string, now: string,
                      faults: set<Fault>, r: Path)
    requires Rooted(c, r, name) && !Cancelled(ctx, 0) && StatAt(t, c.cwd, Join(c.pluginDir, name)).Err?
    ensures var s := InstallSteps(c, t, ctx, name, version, now, faults, Join(c.pluginDir, name));
            InstallSpec(c, t, ctx, name, version, now, faults)
              == if s.0.None? then s else (s.0, Cleared(s.1, r + [name]))
  {
    Layout(c, r, name);
    var s := InstallSteps(c, t, ctx, name, version, now, faults, Join(c.pluginDir, name));
    RemoveAllRendered(s.1, c.cwd, r + [name]);
  }

  /**
   * A successful Install leaves a record that Fetch reads back: the fetched
   * record with the requested version, enabled, installed `now`. Outside
   * <pluginDir>/<name> nothing changes but the directories MkdirAll made at
   * and above <pluginDir>, and nothing at all when <pluginDir> existed.
   */
  lemma InstallRecorded(c: Config, t: Tree, ctx: Context, name: string, version: string, now: string,
                        faults: set<Fault>, r: Path)
    requires Rooted(c, r, name) && (IsDirAt(t, r) || !Blocked(t, r)) && FetchedPlain(c.store, name, version)
    ensures InstallSpec(c, t, ctx, name, version, now, faults).0.None? ==>
              c.store.fetch(name, version).Some? &&
              FetchSpec(c, InstallSpec(c, t, ctx, name, version, now, faults).1, name)
                == Ok(Stored(c.store.fetch(name, version).value.(version := version, status := "enabled",
                                                                   metadata := map["installed" := now])))
    ensures IsDirAt(t, r) ==>
              forall k :: !Under(k, r + [name]) ==> At(InstallSpec(c, t, ctx, name, version, now, faults).1, k) == At(t, k)
    ensures forall k :: !Under(k, r + [name]) ==>
              At(InstallSpec(c, t, ctx, name, version, now, faults).1, k) == At(t, k) ||
              (Under(r, k) && At(t, k).None? && IsDirAt(InstallSpec(c, t, ctx, name, version, now, faults).1, k))
    decreases if IsDirAt(t, r) then 0 else 1
  {
    if IsDirAt(t, r) {
      var d := r + [name];
      var dir := Join(c.pluginDir, name);
      Layout(c, r, name);
      if !Cancelled(ctx, 0) && StatAt(t, c.cwd, dir).Err? {
        InstallStepsInside(c, t, ctx, name, version, now, faults, r);
        InstallUnfold(c, t, ctx, name, version, now, faults, r);
        var (e, u) := InstallSteps(c, t, ctx, name, version, now, faults, dir);
        if e.Some? {
          RemoveAllSpec(u, d);
        }
      }
    } else if !Cancelled(ctx, 0) && StatAt(t, c.cwd, Join(c.pluginDir, name)).Err? {
      var d := r + [name];
      Layout(c, r, name);
      FirstInstall(c, t, ctx, name, version, now, faults, r);
      if IsFileAt(t, r) || InstallDirCreate in faults {
        RemoveAllSpec(t, d);
      } else {
        MkdirAllMade(t, r);
        InstallRecorded(c, MkdirAll(t, r).value, ctx, name, version, now, faults, r);
      }
    }
  }

  /**
   * Uninstall after a successful Install takes the file system back to where
   * it was, except for the directories MkdirAll made at and above
   * <pluginDir>; exactly to where it was when <pluginDir> existed.
   */
  lemma InstallThenUninstall(c: Config, t: Tree, ctx: Context, name: string, version: string, now: string,
                             faults: set<Fault>, r: Path, ctx2: Context)
    requires Rooted(c, r, name) && !Blocked(t, r) && FetchedPlain(c.store, name, version)
    requires Vacant(t, r + [name]) && !Cancelled(ctx2, 0)
    requires InstallSpec(c, t, ctx, name, version, now, faults).0.None?
    ensures UninstallSpec(c, InstallSpec(c, t, ctx, name, version, now, faults).1, ctx2, name).0.None?
    ensures IsDirAt(t, r) ==>
              forall k :: At(UninstallSpec(c, InstallSpec(c, t, ctx, name, version, now, faults).1, ctx2, name).1, k) == At(t, k)
    ensures forall k :: At(UninstallSpec(c, InstallSpec(c, t, ctx, name, version, now, faults).1, ctx2, name).1, k) == At(t, k) ||
                        (Under(r, k) && At(t, k).None? &&
                         IsDirAt(UninstallSpec(c, InstallSpec(c, t, ctx, name, version, now, faults).1, ctx2, name).1, k))
    decreases if IsDirAt(t, r) then 0 else 1
  {
    if IsDirAt(t, r) {
      var d := r + [name];
      var dir := Join(c.pluginDir, name);
      Layout(c, r, name);
      assert StatAt(t, c.cwd, dir).Err?;
      InstallStepsInside(c, t, ctx, name, version, now, faults, r);
      InstallUnfold(c, t, ctx, name, version, now, faults, r);
      var u := InstallSpec(c, t, ctx, name, version, now, faults).1;
      assert u == InstallSteps(c, t, ctx, name, version, now, faults, dir).1;
      assert IsDirAt(u, d);
      ReachableKept(t, u, r);
      ReachableChild(u, r, name);
      UninstallRemoves(c, u, ctx2, name, r);
      RemoveAllSpec(u, d);
      var v := RemoveAll(u, d);
      assert UninstallSpec(c, u, ctx2, name) == (None, v);
      forall k ensures At(v, k) == At(t, k) {
        if Under(k, d) {
          assert k !in v && k !in t;
        }
      }
    } else {
      FirstInstall(c, t, ctx, name, version, now, faults, r);
      MadeVacant(t, r, name);
      InstallThenUninstall(c, MkdirAll(t, r).value, ctx, name, version, now, faults, r, ctx2);
    }
  }

  // ---------------------------------------------------------------- properties of Uninstall

  /**
   * Uninstall succeeds exactly when something is at <pluginDir>/<name> and no
   * file stands on the way to it; it then removes everything at and below
   * that location and nothing else. A file on the way fails os.RemoveAll
   * with ENOTDIR (os.Stat's ENOTDIR is not taken for not-installed), and a
   * missing entry is NotFound; neither changes anything.
   */
  lemma UninstallRemoves(c: Config, t: Tree, ctx: Context, name: string, r: Path)
    requires Rooted(c, r, name) && !Cancelled(ctx, 0)
    ensures UninstallSpec(c, t, ctx, name).0.None? <==> At(t, r + [name]).Some? && !Blocked(t, r + [name])
    ensures UninstallSpec(c, t, ctx, name).0.None? ==> UninstallSpec(c, t, ctx, name).1 == RemoveAll(t, r + [name])
    ensures Blocked(t, r + [name]) ==> UninstallSpec(c, t, ctx, name) == (Some(RemoveFailed(NotDir)), t)
    ensures At(t, r + [name]).None? && !Blocked(t, r + [name]) ==> UninstallSpec(c, t, ctx, name) == (Some(NotFound(name)), t)
  {
    Layout(c, r, name);
    RemoveAllRendered(t, c.cwd, r + [name]);
    UninstallAt(c, t, ctx, name, r + [name]);
  }

  /** Uninstall of a name that resolves to `d`, where RemoveAll is refused only by a file on the way. */
  lemma UninstallAt(c: Config, t: Tree, ctx: Context, name: string, d: Path)
    requires !Cancelled(ctx, 0) && Resolve(c.cwd, Join(c.pluginDir, name)) == Ok(d)
    requires RemoveAllAt(t, c.cwd, Join(c.pluginDir, name)) == if Blocked(t, d) then Err(NotDir) else Ok(RemoveAll(t, d))
    ensures UninstallSpec(c, t, ctx, name).0.None? <==> At(t, d).Some? && !Blocked(t, d)
    ensures UninstallSpec(c, t, ctx, name).0.None? ==> UninstallSpec(c, t, ctx, name).1 == RemoveAll(t, d)
    ensures Blocked(t, d) ==> UninstallSpec(c, t, ctx, name) == (Some(RemoveFailed(NotDir)), t)
    ensures At(t, d).None? && !Blocked(t, d) ==> UninstallSpec(c, t, ctx, name) == (Some(NotFound(name)), t)
  {
  }

  /**
   * The name is not checked: Uninstall("..") removes the directory that holds
   * the plugin directory, every plugin with it; when that is the root,
   * os.RemoveAll ends in EBUSY.
   */
  lemma UninstallParent(c: Config, t: Tree, ctx: Context, r: Path)
    requires c.pluginDir == Render(Loc(true, r)) && PlainPath(r) && |r| >= 1 && !Cancelled(ctx, 0)
    requires IsDirAt(t, r[..|r| - 1])
    ensures UninstallSpec(c, t, ctx, "..")
              == if |r| == 1 then (Some(RemoveFailed(Busy)), t)
                 else if Blocked(t, r[..|r| - 1]) then (Some(RemoveFailed(NotDir)), t)
                 else (None, RemoveAll(t, r[..|r| - 1]))
  {
    var parent := r[..|r| - 1];
    JoinParent(r);
    assert PlainPath(parent);
    LocateRender(c.cwd, parent);
    RemoveAllRendered(t, c.cwd, parent);
  }

  // ---------------------------------------------------------------- properties of Enable and Disable

  /** A failed Enable or Disable leaves the file system as it was. */
  lemma SetStatusFailureKeeps(c: Config, t: Tree, ctx: Context, name: string, status: string, faults: set<Fault>)
    ensures SetStatusSpec(c, t, ctx, name, status, faults).0.Some? ==> SetStatusSpec(c, t, ctx, name, status, faults).1 == t
  {
    var res := SetStatusSpec(c, t, ctx, name, status, faults);
    if !Cancelled(ctx, 0) {
      var path := Join(Join(c.pluginDir, name), MetadataFile);
      var read := ReadMetadata(t, c.cwd, path);
      if read.Ok? && Encodable(read.value.(status := status)) {
        var w := Try(MetadataSave in faults, WriteFileAt(t, c.cwd, path, Record(Stored(read.value.(status := status)))));
        assert res == if w.Err? then (Some(SaveFailed(w.error)), t) else (None, w.value);
      }
    }
  }

  /**
   * Enable and Disable need a readable record: an unreadable metadata.json
   * fails with the read's error, one that is not a record with a parse
   * error, and the file system stays as it was.
   */
  lemma SetStatusNeedsRecord(c: Config, t: Tree, ctx: Context, name: string, status: string, faults: set<Fault>,
                             r: Path)
    requires Rooted(c, r, name) && !Cancelled(ctx, 0)
    ensures ReadFile(t, r + [name, MetadataFile]).Err? ==>
              SetStatusSpec(c, t, ctx, name, status, faults)
                == (Some(MetadataFailed(Unreadable(ReadFile(t, r + [name, MetadataFile]).error))), t)
    ensures ReadFile(t, r + [name, MetadataFile]).Ok? && ReadFile(t, r + [name, MetadataFile]).value.Raw? ==>
              SetStatusSpec(c, t, ctx, name, status, faults) == (Some(MetadataFailed(Unparseable)), t)
  {
    Layout(c, r, name);
  }

  /**
   * A successful Enable or Disable changes only the record at <pluginDir>/<name>/metadata.json, whose status alone is
   * replaced; Fetch reads the new status back.
   */
  lemma SetStatusRecorded(c: Config, t: Tree, ctx: Context, name: string, status: string, faults: set<Fault>,
                          r: Path, i: Info)
    requires Rooted(c, r, name)
    ensures !Cancelled(ctx, 0) && MetadataSave !in faults && ReadFile(t, r + [name, MetadataFile]) == Ok(Record(i)) && Encodable(i) ==>
              SetStatusSpec(c, t, ctx, name, status, faults)
                == (None, t[r + [name, MetadataFile] := File(Record(Stored(i.(status := status))))]) &&
              FetchSpec(c, SetStatusSpec(c, t, ctx, name, status, faults).1, name) == Ok(Stored(i.(status := status)))
  {
    Layout(c, r, name);
    var m := r + [name, MetadataFile];
    var path := Join(Join(c.pluginDir, name), MetadataFile);
    if !Cancelled(ctx, 0) && MetadataSave !in faults && ReadFile(t, m) == Ok(Record(i)) && Encodable(i) {
      var rec := Stored(i.(status := status));
      var u := t[m := File(Record(rec))];
      assert ReadMetadata(t, c.cwd, path) == Ok(i);
      assert m in t && t[m] == File(Record(i));
      assert WriteFileAt(t, c.cwd, path, Record(rec)) == Ok(u);
      assert SetStatusSpec(c, t, ctx, name, status, faults) == (None, u);
      assert ReadFile(u, m) == Ok(Record(rec));
    }
  }

  /** When the record reads back and the save succeeds, Enable or Disable ends with the rewritten record written. */
  lemma SetStatusWrites(c: Config, t: Tree, ctx: Context, name: string, status: string, faults: set<Fault>,
                        path: string, i: Info)
    requires path == Join(Join(c.pluginDir, name), MetadataFile)
    requires !Cancelled(ctx, 0) && MetadataSave !in faults
    requires ReadMetadata(t, c.cwd, path) == Ok(i) && Encodable(i.(status := status))
    requires WriteFileAt(t, c.cwd, path, Record(Stored(i.(status := status)))).Ok?
    ensures SetStatusSpec(c, t, ctx, name, status, faults)
         == (None, WriteFileAt(t, c.cwd, path, Record(Stored(i.(status := status)))).value)
  {
  }

  /** Enabling an enabled plugin (or disabling a disabled one) a second time changes nothing. */
  lemma SetStatusIdempotent(c: Config, t: Tree, ctx: Context, ctx2: Context, name: string, status: string,
                            faults: set<Fault>)
    requires SetStatusSpec(c, t, ctx, name, status, faults).0.None?
    requires !Cancelled(ctx2, 0) && MetadataSave !in faults
    ensures SetStatusSpec(c, SetStatusSpec(c, t, ctx, name, status, faults).1, ctx2, name, status, faults)
         == (None, SetStatusSpec(c, t, ctx, name, status, faults).1)
  {
    var path := Join(Join(c.pluginDir, name), MetadataFile);
    var i := ReadMetadata(t, c.cwd, path).value;
    var rec := Stored(i.(status := status));
    WriteFileAtAgain(t, c.cwd, path, Record(rec));
    var u := WriteFileAt(t, c.cwd, path, Record(rec)).value;
    SetStatusWrites(c, t, ctx, name, status, faults, path, i);
    assert ReadMetadata(u, c.cwd, path) == Ok(rec);
    assert Stored(rec.(status := status)) == rec;
    SetStatusWrites(c, u, ctx2, name, status, faults, path, rec);
  }

  /** Setting another status and then the old one back restores a saved record and the whole file system. */
  lemma SetStatusUndone(c: Config, t: Tree, ctx: Context, ctx2: Context, name: string, status: string,
                        other: string, faults: set<Fault>, i: Info)
    requires ReadMetadata(t, c.cwd, Join(Join(c.pluginDir, name), MetadataFile)) == Ok(i)
    requires i.status == status && i.content == Absent
    requires !Cancelled(ctx, 0) && !Cancelled(ctx2, 0) && MetadataSave !in faults
    ensures SetStatusSpec(c, t, ctx, name, other, faults).0.None?
    ensures SetStatusSpec(c, SetStatusSpec(c, t, ctx, name, other, faults).1, ctx2, name, status, faults) == (None, t)
  {
    var path := Join(Join(c.pluginDir, name), MetadataFile);
    var rec := Stored(i.(status := other));
    MetadataRecord(t, c.cwd, path, i);
    WriteFileAtRestore(t, c.cwd, path, Record(rec), Record(i));
    var u := WriteFileAt(t, c.cwd, path, Record(rec)).value;
    SetStatusWrites(c, t, ctx, name, other, faults, path, i);
    MetadataRecord(u, c.cwd, path, rec);
    assert Stored(rec.(status := status)) == i;
    SetStatusWrites(c, u, ctx2, name, status, faults, path, rec);
  }

  // ---------------------------------------------------------------- properties of List

  /** Every listed record is the metadata of some directory entry, read in the entries' order. */
  lemma {:induction false} CollectSound(t: Tree, cwd: Path, pluginDir: string, es: seq<DirEntry>)
    ensures Collect(t, cwd, pluginDir, es).Ok? ==> |Collect(t, cwd, pluginDir, es).value| <= |es|
    ensures Collect(t, cwd, pluginDir, es).Ok? ==>
              forall x :: x in Collect(t, cwd, pluginDir, es).value ==>
                exists j :: 0 <= j < |es| && es[j].isDir && ReadMetadata(t, cwd, Join3(pluginDir, es[j].name, MetadataFile)) == Ok(x)
    decreases |es|
  {
    if es != [] {
      CollectSound(t, cwd, pluginDir, es[1..]);
      var res := Collect(t, cwd, pluginDir, es);
      if res.Ok? {
        forall x | x in res.value
          ensures exists j :: 0 <= j < |es| && es[j].isDir && ReadMetadata(t, cwd, Join3(pluginDir, es[j].name, MetadataFile)) == Ok(x)
        {
          var rest := Collect(t, cwd, pluginDir, es[1..]);
          if x in rest.value {
            var j :| 0 <= j < |es[1..]| && es[1..][j].isDir && ReadMetadata(t, cwd, Join3(pluginDir, es[1..][j].name, MetadataFile)) == Ok(x);
            assert es[j + 1] == es[1..][j];
          } else {
            assert es[0].isDir && ReadMetadata(t, cwd, Join3(pluginDir, es[0].name, MetadataFile)) == Ok(x);
          }
        }
      }
    }
  }

  /** Every directory entry with readable metadata is listed, and one whose metadata fails otherwise than by ENOENT fails the list. */
  lemma {:induction false} CollectComplete(t: Tree, cwd: Path, pluginDir: string, es: seq<DirEntry>, j: nat)
    requires j < |es| && es[j].isDir
    ensures ReadMetadata(t, cwd, Join3(pluginDir, es[j].name, MetadataFile)).Ok? && Collect(t, cwd, pluginDir, es).Ok? ==>
              ReadMetadata(t, cwd, Join3(pluginDir, es[j].name, MetadataFile)).value in Collect(t, cwd, pluginDir, es).value
    ensures ReadMetadata(t, cwd, Join3(pluginDir, es[j].name, MetadataFile)).Err? &&
            ReadMetadata(t, cwd, Join3(pluginDir, es[j].name, MetadataFile)).error != Unreadable(NotExist) ==>
              Collect(t, cwd, pluginDir, es).Err?
    decreases j
  {
    if j > 0 {
      CollectComplete(t, cwd, pluginDir, es[1..], j - 1);
      assert es[1..][j - 1] == es[j];
    }
  }

  /** Every path of the tree is made of plain names, as the operating system's are. */
  predicate PlainNames(t: Tree) {
    forall k :: k in t ==> PlainPath(k)
  }

  /** `x` is the record saved for a plugin directory `n` of the location `r`. */
  predicate HasRecord(t: Tree, r: Path, n: string, x: Info) {
    IsDirAt(t, r + [n]) && ReadFile(t, r + [n, MetadataFile]) == Ok(Record(x))
  }

  /** A name of an entry of a directory is a plain name when every path of the tree is made of them. */
  lemma ChildPlain(t: Tree, r: Path, n: string)
    requires PlainNames(t) && n in Children(t, r)
    ensures Plain(n)
  {
    var k :| k in t && |k| == |r| + 1 && k[..|r|] == r && k[|r|] == n;
    assert PlainPath(k);
  }

  /** The j-th entry of the plugin directory: its name, whether it is a directory and where its metadata is. */
  lemma ListEntry(c: Config, t: Tree, r: Path, es: seq<DirEntry>, j: nat)
    requires c.pluginDir == Render(Loc(true, r)) && PlainPath(r) && PlainNames(t)
    requires ReadDirAt(t, c.cwd, c.pluginDir) == Ok(es) && j < |es|
    ensures es[j].name in Children(t, r) && es[j].isDir == IsDirAt(t, r + [es[j].name])
    ensures Resolve(c.cwd, Join3(c.pluginDir, es[j].name, MetadataFile)) == Ok(r + [es[j].name, MetadataFile])
  {
    LocateRender(c.cwd, r);
    var names := SortedNames(Children(t, r));
    assert es[j].name == names[j];
    assert es[j].name in Children(t, r);
    ChildPlain(t, r, es[j].name);
    Layout(c, r, es[j].name);
  }

  /**
   * A parsed metadata record is the record stored in the file the path names,
   * and, where the path resolves, in the file at the resolved components.
   */
  lemma MetadataRecord(t: Tree, cwd: Path, s: string, x: Info)
    ensures ReadMetadata(t, cwd, s) == Ok(x) <==> ReadFileAt(t, cwd, s) == Ok(Record(x))
    ensures Resolve(cwd, s).Ok? ==>
              (ReadMetadata(t, cwd, s) == Ok(x) <==> ReadFile(t, Resolve(cwd, s).value) == Ok(Record(x)))
  {
  }

  /** Every record List returns is the saved record of a directory in the plugin directory. */
  lemma ListSound(c: Config, t: Tree, ctx: Context, k: nat, r: Path, x: Info)
    requires c.pluginDir == Render(Loc(true, r)) && PlainPath(r) && PlainNames(t)
    requires ListSpec(c, t, ctx, k).Ok? && x in ListSpec(c, t, ctx, k).value
    ensures exists n :: HasRecord(t, r, n, x)
  {
    LocateRender(c.cwd, r);
    var d := ReadDirAt(t, c.cwd, c.pluginDir);
    assert d.Ok?;
    var es := d.value;
    assert ListSpec(c, t, ctx, k) == Collect(t, c.cwd, c.pluginDir, es);
    assert exists j :: 0 <= j < |es| && es[j].isDir && ReadMetadata(t, c.cwd, Join3(c.pluginDir, es[j].name, MetadataFile)) == Ok(x) by {
      CollectSound(t, c.cwd, c.pluginDir, es);
    }
    var j :| 0 <= j < |es| && es[j].isDir && ReadMetadata(t, c.cwd, Join3(c.pluginDir, es[j].name, MetadataFile)) == Ok(x);
    ListEntry(c, t, r, es, j);
    var n := es[j].name;
    MetadataRecord(t, c.cwd, Join3(c.pluginDir, n, MetadataFile), x);
    assert HasRecord(t, r, n, x);
  }

  /** List returns the saved record of every directory in the plugin directory. */
  lemma ListComplete(c: Config, t: Tree, ctx: Context, k: nat, r: Path, n: string, x: Info)
    requires c.pluginDir == Render(Loc(true, r)) && PlainPath(r) && PlainNames(t) && IsDirAt(t, r)
    requires ListSpec(c, t, ctx, k).Ok? && HasRecord(t, r, n, x)
    ensures x in ListSpec(c, t, ctx, k).value
  {
    LocateRender(c.cwd, r);
    var es := ReadDirAt(t, c.cwd, c.pluginDir).value;
    var names := SortedNames(Children(t, r));
    assert (r + [n])[..|r|] == r && (r + [n])[|r|] == n;
    assert n in Children(t, r);
    var j :| 0 <= j < |names| && names[j] == n;
    assert es[j].name == n;
    ListEntry(c, t, r, es, j);
    CollectComplete(t, c.cwd, c.pluginDir, es, j);
  }

  /**
   * One unreadable or unparseable metadata file fails the whole list: after a
   * successful List, the metadata of every plugin directory is a record or
   * absent.
   */
  lemma ListAllOrNothing(c: Config, t: Tree, ctx: Context, k: nat, r: Path, n: string)
    requires c.pluginDir == Render(Loc(true, r)) && PlainPath(r) && PlainNames(t) && IsDirAt(t, r)
    requires IsDirAt(t, r + [n])
    ensures ListSpec(c, t, ctx, k).Ok? ==>
              ReadFile(t, r + [n, MetadataFile]) == Err(NotExist) ||
              (ReadFile(t, r + [n, MetadataFile]).Ok? && ReadFile(t, r + [n, MetadataFile]).value.Record?)
  {
    if ListSpec(c, t, ctx, k).Ok? {
      LocateRender(c.cwd, r);
      var es := ReadDirAt(t, c.cwd, c.pluginDir).value;
      var names := SortedNames(Children(t, r));
      assert (r + [n])[..|r|] == r && (r + [n])[|r|] == n;
      assert n in Children(t, r);
      var j :| 0 <= j < |names| && names[j] == n;
      assert es[j].name == n;
      ListEntry(c, t, r, es, j);
      CollectComplete(t, c.cwd, c.pluginDir, es, j);
    }
  }

  /** A plugin directory that does not exist lists as empty; one that is a file fails the list. */
  lemma ListMissing(c: Config, t: Tree, ctx: Context, k: nat, r: Path)
    requires c.pluginDir == Render(Loc(true, r)) && PlainPath(r) && !Cancelled(ctx, k)
    ensures At(t, r).None? && !Blocked(t, r) ==> ListSpec(c, t, ctx, k) == Ok([])
    ensures IsFileAt(t, r) ==> ListSpec(c, t, ctx, k) == Err(ReadDirFailed(NotDir))
  {
    LocateRender(c.cwd, r);
  }

  // ---------------------------------------------------------------- properties of Search

  /** installedMap holds exactly the listed names. */
  lemma {:induction false} VersionsDomain(xs: seq<Info>)
    ensures forall n :: n in Versions(xs) <==> exists j :: 0 <= j < |xs| && xs[j].name == n
    decreases |xs|
  {
    if xs != [] {
      var ys := xs[..|xs| - 1];
      VersionsDomain(ys);
      forall n ensures n in Versions(xs) <==> exists j :: 0 <= j < |xs| && xs[j].name == n {
        if exists j :: 0 <= j < |ys| && ys[j].name == n {
          var j :| 0 <= j < |ys| && ys[j].name == n;
          assert xs[j] == ys[j];
        }
        if exists j :: 0 <= j < |xs| && xs[j].name == n {
          var j :| 0 <= j < |xs| && xs[j].name == n;
          if j < |ys| {
            assert ys[j] == xs[j];
          }
        }
      }
    }
  }

  /** Each listed name maps to the version of the last listed record of that name. */
  lemma {:induction false} VersionsLast(xs: seq<Info>, j: nat)
    requires j < |xs| && forall j2 :: j < j2 < |xs| ==> xs[j2].name != xs[j].name
    ensures xs[j].name in Versions(xs) && Versions(xs)[xs[j].name] == xs[j].version
    decreases |xs|
  {
    var ys := xs[..|xs| - 1];
    if j < |ys| {
      assert xs[|xs| - 1].name != xs[j].name;
      assert ys[j] == xs[j];
      forall j2 | j < j2 < |ys| ensures ys[j2].name != ys[j].name {
        assert ys[j2] == xs[j2];
      }
      VersionsLast(ys, j);
    }
  }

  /**
   * How a search result `y` is marked for the store's result `a` against the
   * listed records: "installed", with the version of the last listed record
   * of that name under "installed_version", when one is listed, "available"
   * otherwise; every other field is the store's.
   */
  predicate Marked(a: Info, y: Info, installed: seq<Info>) {
    y.(status := a.status, metadata := a.metadata) == a &&
    y.status == (if exists j :: 0 <= j < |installed| && installed[j].name == a.name then "installed" else "available") &&
    (y.status == "available" ==> y.metadata == a.metadata) &&
    forall j :: 0 <= j < |installed| && installed[j].name == a.name &&
                (forall j2 :: j < j2 < |installed| ==> installed[j2].name != a.name) ==>
                  y.metadata == a.metadata["installed_version" := installed[j].version]
  }

  /**
   * Search succeeds when the store's search and List both succeed, and then
   * returns the store's results, in order, each marked against List.
   */
  lemma SearchMarked(c: Config, t: Tree, ctx: Context, opts: SearchOptions)
    ensures SearchSpec(c, t, ctx, opts).Ok? <==> !Cancelled(ctx, 0) && c.store.search(opts).Some? && ListSpec(c, t, ctx, 1).Ok?
    ensures SearchSpec(c, t, ctx, opts).Ok? ==>
              |SearchSpec(c, t, ctx, opts).value| == |c.store.search(opts).value| &&
              forall i :: 0 <= i < |SearchSpec(c, t, ctx, opts).value| ==>
                Marked(c.store.search(opts).value[i], SearchSpec(c, t, ctx, opts).value[i], ListSpec(c, t, ctx, 1).value)
  {
    if SearchSpec(c, t, ctx, opts).Ok? {
      var av := c.store.search(opts).value;
      var installed := ListSpec(c, t, ctx, 1).value;
      var ys := SearchSpec(c, t, ctx, opts).value;
      VersionsDomain(installed);
      forall i | 0 <= i < |ys| ensures Marked(av[i], ys[i], installed) {
        assert ys[i] == Mark(av[i], Versions(installed));
        forall j | 0 <= j < |installed| && installed[j].name == av[i].name &&
                   (forall j2 :: j < j2 < |installed| ==> installed[j2].name != av[i].name)
          ensures ys[i].metadata == av[i].metadata["installed_version" := installed[j].version]
        {
          VersionsLast(installed, j);
        }
      }
    }
  }

  // ---------------------------------------------------------------- properties of Upgrade

  /** Nothing at or below one entry of a directory is at or below another. */
  lemma Apart(r: Path, x: string, y: string, s: Path)
    requires x != y
    ensures !Under(r + [x] + s, r + [y])
  {
    assert (r + [x] + s)[|r|] == x;
  }

  /** The plugin's directory and its two siblings .upgrade and .backup are three different names. */
  lemma SiblingNames(name: string)
    ensures name != name + ".upgrade" && name != name + ".backup" && name + ".upgrade" != name + ".backup"
  {
    assert (name + ".upgrade")[|name| + 1] == 'u';
    assert (name + ".backup")[|name| + 1] == 'b';
  }

  /**
   * Staging touches nothing outside <name>.upgrade, and on success has saved
   * there the fetched record stamped as replacing the current one.
   */
  lemma StagingInside(c: Config, t: Tree, ctx: Context, name: string, version: string, now: string,
                      faults: set<Fault>, r: Path, current: Info)
    requires Rooted(c, r, name) && IsDirAt(t, r) && FetchedPlain(c.store, name, version)
    ensures forall k :: !Under(k, r + [name + ".upgrade"]) ==>
              At(StagingSpec(c, t, ctx, name, version, now, faults, Join(c.pluginDir, name) + ".upgrade", current).1, k) == At(t, k)
    ensures StagingSpec(c, t, ctx, name, version, now, faults, Join(c.pluginDir, name) + ".upgrade", current).0.None? ==>
              IsDirAt(StagingSpec(c, t, ctx, name, version, now, faults, Join(c.pluginDir, name) + ".upgrade", current).1, r + [name + ".upgrade"]) &&
              c.store.fetch(name, version).Some? &&
              ReadFile(StagingSpec(c, t, ctx, name, version, now, faults, Join(c.pluginDir, name) + ".upgrade", current).1,
                       r + [name + ".upgrade", MetadataFile])
              == Ok(Record(Stored(Stamped(Replacing(version, now, current), c.store.fetch(name, version).value))))
  {
    var d := r + [name + ".upgrade"];
    SuffixLayout(c, r, name, ".upgrade");
    assert d[..|d| - 1] == r;
    BuildInside(c, t, ctx, faults, UpgradeDirCreate in faults, Join(c.pluginDir, name) + ".upgrade", d,
                c.store.fetch(name, version), Replacing(version, now, current));
    assert d + [MetadataFile] == r + [name + ".upgrade", MetadataFile];
  }

  /**
   * A failed swap whose rename back from .backup is not itself failed leaves
   * everything outside <name>.backup as it was before the swap.
   */
  lemma SwapFails(c: Config, u: Tree, faults: set<Fault>, r: Path, name: string)
    requires Rooted(c, r, name) && IsDirAt(u, r) && RestoreRename !in faults
    requires SwapSpec(c, u, faults, Join(c.pluginDir, name), Join(c.pluginDir, name) + ".upgrade").0.Some?
    ensures forall k :: !Under(k, r + [name + ".backup"]) ==>
              At(SwapSpec(c, u, faults, Join(c.pluginDir, name), Join(c.pluginDir, name) + ".upgrade").1, k) == At(u, k)
  {
    var dir := Join(c.pluginDir, name);
    var d := r + [name];
    var b := r + [name + ".backup"];
    Layout(c, r, name);
    SuffixLayout(c, r, name, ".backup");
    SuffixLayout(c, r, name, ".upgrade");
    SiblingNames(name);
    var res := SwapSpec(c, u, faults, dir, dir + ".upgrade");
    var first := Try(BackupRename in faults, RenameAt(u, c.cwd, dir, dir + ".backup"));
    if first.Ok? {
      assert first == Rename(u, d, b);
      RenameBack(u, r, name, name + ".backup");
      var t1 := Move(u, d, b);
      assert first == Ok(t1);
      assert RenameAt(t1, c.cwd, dir + ".backup", dir) == Ok(Move(t1, b, d));
      assert res.1 == Move(t1, b, d);
      MoveBack(u, d, b);
    }
  }

  /**
   * os.Rename refuses an existing directory as its target: while a directory
   * sits at <name>.backup, for instance one stranded by an earlier Upgrade,
   * the swap fails at its first rename and changes nothing.
   */
  lemma SwapRefusesBackup(c: Config, u: Tree, faults: set<Fault>, r: Path, name: string)
    requires Rooted(c, r, name) && IsDirAt(u, r + [name + ".backup"])
    ensures SwapSpec(c, u, faults, Join(c.pluginDir, name), Join(c.pluginDir, name) + ".upgrade")
         == (Some(BackupFailed(if BackupRename in faults then Denied
                               else if At(u, r + [name]).Some? then Exist else Missing(u, r + [name]))), u)
  {
    var dir := Join(c.pluginDir, name);
    Layout(c, r, name);
    SuffixLayout(c, r, name, ".backup");
    SiblingNames(name);
    assert r + [name] != r + [name + ".backup"];
    assert RenameAt(u, c.cwd, dir, dir + ".backup") == Rename(u, r + [name], r + [name + ".backup"]);
  }

  /** After a rename between two siblings succeeds, the rename back succeeds too. */
  lemma RenameBack(u: Tree, r: Path, x: string, y: string)
    requires x != y && IsDirAt(u, r) && Rename(u, r + [x], r + [y]).Ok?
    ensures Rename(u, r + [x], r + [y]) == Ok(Move(u, r + [x], r + [y]))
    ensures var t1 := Move(u, r + [x], r + [y]);
            Rename(t1, r + [y], r + [x]) == Ok(Move(t1, r + [y], r + [x]))
  {
    var d := r + [x];
    var b := r + [y];
    RenameMoved(u, d, b);
    var t1 := Move(u, d, b);
    Apart(r, x, y, []);
    assert d + [] == d && b + [] == b;
    MoveVacates(u, d, b, d);
    MoveAt(u, d, b, []);
    assert d[..|d| - 1] == r;
    MoveElsewhere(u, d, b, r);
    Apart(r, y, x, []);
    RenameMoves(t1, b, d);
  }

  /**
   * A successful swap puts what was staged in .upgrade at <pluginDir>/<name>,
   * leaves nothing at .upgrade or .backup, and changes nothing else.
   */
  lemma SwapSucceeds(c: Config, u: Tree, faults: set<Fault>, r: Path, name: string)
    requires Rooted(c, r, name)
    requires SwapSpec(c, u, faults, Join(c.pluginDir, name), Join(c.pluginDir, name) + ".upgrade").0.None?
    ensures SwapSpec(c, u, faults, Join(c.pluginDir, name), Join(c.pluginDir, name) + ".upgrade").1
         == Cleared(Move(Move(u, r + [name], r + [name + ".backup"]), r + [name + ".upgrade"], r + [name]), r + [name + ".backup"])
  {
    var d := r + [name];
    var b := r + [name + ".backup"];
    var n := r + [name + ".upgrade"];
    Layout(c, r, name);
    SuffixLayout(c, r, name, ".backup");
    SuffixLayout(c, r, name, ".upgrade");
    SiblingNames(name);
    assert d[|r|] == name && b[|r|] == name + ".backup" && n[|r|] == name + ".upgrade";
    SwapMoves(c, u, faults, Join(c.pluginDir, name), d, b, n);
  }

  /** A successful swap of `dir` with `dir`.upgrade through `dir`.backup, on resolved paths. */
  lemma SwapMoves(c: Config, u: Tree, faults: set<Fault>, dir: string, d: Path, b: Path, n: Path)
    requires Resolve(c.cwd, dir) == Ok(d) && Resolve(c.cwd, dir + ".backup") == Ok(b)
    requires Resolve(c.cwd, dir + ".upgrade") == Ok(n)
    requires d != b && d != n && PlainPath(b) && dir + ".backup" == Render(Loc(true, b))
    requires SwapSpec(c, u, faults, dir, dir + ".upgrade").0.None?
    ensures SwapSpec(c, u, faults, dir, dir + ".upgrade").1 == Cleared(Move(Move(u, d, b), n, d), b)
  {
    var first := Try(BackupRename in faults, RenameAt(u, c.cwd, dir, dir + ".backup"));
    assert first == Rename(u, d, b);
    RenameMoved(u, d, b);
    var t1 := Move(u, d, b);
    assert first == Ok(t1);
    var second := Try(SwapRename in faults, RenameAt(t1, c.cwd, dir + ".upgrade", dir));
    assert second == Rename(t1, n, d);
    RenameMoved(t1, n, d);
    var t2 := Move(t1, n, d);
    assert second == Ok(t2);
    RemoveAllRendered(t2, c.cwd, b);
  }

  /**
   * When moving the staged directory in fails and so does the rename back,
   * the plugin is left stranded at <name>.backup and nothing is at
   * <pluginDir>/<name>: that error is ignored.
   */
  lemma SwapStrands(c: Config, u: Tree, faults: set<Fault>, r: Path, name: string)
    requires Rooted(c, r, name) && RestoreRename in faults
    requires SwapSpec(c, u, faults, Join(c.pluginDir, name), Join(c.pluginDir, name) + ".upgrade").0.Some?
    requires SwapSpec(c, u, faults, Join(c.pluginDir, name), Join(c.pluginDir, name) + ".upgrade").0.value.SwapFailed?
    ensures At(SwapSpec(c, u, faults, Join(c.pluginDir, name), Join(c.pluginDir, name) + ".upgrade").1, r + [name]).None?
    ensures forall s :: At(SwapSpec(c, u, faults, Join(c.pluginDir, name), Join(c.pluginDir, name) + ".upgrade").1, r + [name + ".backup"] + s)
                     == At(u, r + [name] + s)
  {
    var dir := Join(c.pluginDir, name);
    var d := r + [name];
    var b := r + [name + ".backup"];
    Layout(c, r, name);
    SuffixLayout(c, r, name, ".backup");
    SiblingNames(name);
    var first := Try(BackupRename in faults, RenameAt(u, c.cwd, dir, dir + ".backup"));
    assert first == Rename(u, d, b);
    RenameMoved(u, d, b);
    var t1 := Move(u, d, b);
    assert SwapSpec(c, u, faults, dir, dir + ".upgrade").1 == t1;
    MovedAway(u, d, b);
  }

  /** Whatever the swap's outcome, nothing outside <name>, <name>.upgrade and <name>.backup changes. */
  lemma SwapOutside(c: Config, u: Tree, faults: set<Fault>, r: Path, name: string)
    requires Rooted(c, r, name)
    ensures forall k :: !Under(k, r + [name]) && !Under(k, r + [name + ".upgrade"]) && !Under(k, r + [name + ".backup"]) ==>
              At(SwapSpec(c, u, faults, Join(c.pluginDir, name), Join(c.pluginDir, name) + ".upgrade").1, k) == At(u, k)
  {
    var dir := Join(c.pluginDir, name);
    var d := r + [name];
    var b := r + [name + ".backup"];
    var n := r + [name + ".upgrade"];
    Layout(c, r, name);
    SuffixLayout(c, r, name, ".backup");
    SuffixLayout(c, r, name, ".upgrade");
    SiblingNames(name);
    assert d != b && d != n;
    var res := SwapSpec(c, u, faults, dir, dir + ".upgrade");
    var first := Try(BackupRename in faults, RenameAt(u, c.cwd, dir, dir + ".backup"));
    if first.Ok? {
      assert first == Rename(u, d, b);
      RenameMoved(u, d, b);
      var t1 := Move(u, d, b);
      var second := Try(SwapRename in faults, RenameAt(t1, c.cwd, dir + ".upgrade", dir));
      assert second.Ok? ==> second == Rename(t1, n, d);
      var back := Try(RestoreRename in faults, RenameAt(t1, c.cwd, dir + ".backup", dir));
      assert back.Ok? ==> back == Rename(t1, b, d);
      SwapLeavesOthers(u, d, n, b);
      if second.Ok? {
        SwapSucceeds(c, u, faults, r, name);
        assert res.1 == Cleared(Move(t1, n, d), b);
      } else if back.Ok? {
        RenameMoved(t1, b, d);
        assert res.1 == Move(t1, b, d);
      } else {
        assert res.1 == t1;
      }
    }
  }

  /** Upgrade's checks before it stages anything: not cancelled, installed, readable, and another version. */
  predicate Upgradable(c: Config, t: Tree, ctx: Context, name: string, version: string) {
    !Cancelled(ctx, 0) && StatAt(t, c.cwd, Join(c.pluginDir, name)) != Err(NotExist) &&
    FetchSpec(c, t, name).Ok? && FetchSpec(c, t, name).value.version != version
  }

  /**
   * Upgrade fails without touching the file system unless its checks pass;
   * then it stages and swaps against the current record, and the deferred
   * RemoveAll of <name>.upgrade always follows.
   */
  lemma UpgradeUnfold(c: Config, t: Tree, ctx: Context, name: string, version: string, now: string,
                      faults: set<Fault>, r: Path)
    requires Rooted(c, r, name)
    ensures !Upgradable(c, t, ctx, name, version) ==>
              UpgradeSpec(c, t, ctx, name, version, now, faults).0.Some? && UpgradeSpec(c, t, ctx, name, version, now, faults).1 == t &&
              var e := UpgradeSpec(c, t, ctx, name, version, now, faults).0.value;
              e == ContextCancelled || e == NotInstalled(name) || e.MetadataFailed? || e == AlreadyAtVersion(name, version)
    ensures Upgradable(c, t, ctx, name, version) ==>
              var steps := UpgradeSteps(c, t, ctx, name, version, now, faults, Join(c.pluginDir, name),
                                        Join(c.pluginDir, name) + ".upgrade", FetchSpec(c, t, name).value);
              UpgradeSpec(c, t, ctx, name, version, now, faults) == (steps.0, Cleared(steps.1, r + [name + ".upgrade"]))
  {
    if Upgradable(c, t, ctx, name, version) {
      UpgradeProceeds(c, t, ctx, name, version, now, faults, r);
    } else {
      UpgradeRefused(c, t, ctx, name, version, now, faults, r);
    }
  }

  lemma UpgradeRefused(c: Config, t: Tree, ctx: Context, name: string, version: string, now: string,
                       faults: set<Fault>, r: Path)
    requires Rooted(c, r, name) && !Upgradable(c, t, ctx, name, version)
    ensures UpgradeSpec(c, t, ctx, name, version, now, faults).0.Some? && UpgradeSpec(c, t, ctx, name, version, now, faults).1 == t
    ensures var e := UpgradeSpec(c, t, ctx, name, version, now, faults).0.value;
            e == ContextCancelled || e == NotInstalled(name) || e.MetadataFailed? || e == AlreadyAtVersion(name, version)
  {
    Layout(c, r, name);
    var dir := Join(c.pluginDir, name);
    var res := UpgradeSpec(c, t, ctx, name, version, now, faults);
    assert ReadMetadata(t, c.cwd, Join(dir, MetadataFile)) == FetchSpec(c, t, name);
    if Cancelled(ctx, 0) {
      assert res == (Some(ContextCancelled), t);
    } else if StatAt(t, c.cwd, dir) == Err(NotExist) {
      assert res == (Some(NotInstalled(name)), t);
    } else if FetchSpec(c, t, name).Err? {
      assert res == (Some(MetadataFailed(FetchSpec(c, t, name).error)), t);
    } else {
      assert res == (Some(AlreadyAtVersion(name, version)), t);
    }
  }

  lemma UpgradeProceeds(c: Config, t: Tree, ctx: Context, name: string, version: string, now: string,
                        faults: set<Fault>, r: Path)
    requires Rooted(c, r, name) && Upgradable(c, t, ctx, name, version)
    ensures var steps := UpgradeSteps(c, t, ctx, name, version, now, faults, Join(c.pluginDir, name),
                                      Join(c.pluginDir, name) + ".upgrade", FetchSpec(c, t, name).value);
            UpgradeSpec(c, t, ctx, name, version, now, faults) == (steps.0, Cleared(steps.1, r + [name + ".upgrade"]))
  {
    Layout(c, r, name);
    SuffixLayout(c, r, name, ".upgrade");
    var dir := Join(c.pluginDir, name);
    var tmp := dir + ".upgrade";
    assert ReadMetadata(t, c.cwd, Join(dir, MetadataFile)) == FetchSpec(c, t, name);
    var steps := UpgradeSteps(c, t, ctx, name, version, now, faults, dir, tmp, FetchSpec(c, t, name).value);
    RemoveAllRendered(steps.1, c.cwd, r + [name + ".upgrade"]);
  }

  /** Upgrade changes nothing outside <name>, <name>.upgrade and <name>.backup, whatever its outcome. */
  lemma UpgradeOutside(c: Config, t: Tree, ctx: Context, name: string, version: string, now: string,
                       faults: set<Fault>, r: Path)
    requires Rooted(c, r, name) && IsDirAt(t, r) && FetchedPlain(c.store, name, version)
    ensures forall k :: !Under(k, r + [name]) && !Under(k, r + [name + ".upgrade"]) && !Under(k, r + [name + ".backup"]) ==>
              At(UpgradeSpec(c, t, ctx, name, version, now, faults).1, k) == At(t, k)
  {
    var n := r + [name + ".upgrade"];
    UpgradeUnfold(c, t, ctx, name, version, now, faults, r);
    if Upgradable(c, t, ctx, name, version) {
      var dir := Join(c.pluginDir, name);
      var current := FetchSpec(c, t, name).value;
      StagingInside(c, t, ctx, name, version, now, faults, r, current);
      var su := StagingSpec(c, t, ctx, name, version, now, faults, dir + ".upgrade", current).1;
      var steps := UpgradeSteps(c, t, ctx, name, version, now, faults, dir, dir + ".upgrade", current);
      SwapOutside(c, su, faults, r, name);
      RemoveAllSpec(steps.1, n);
    }
  }

  /** After the swap and the removal of .upgrade, the plugin's metadata file is the one staged in .upgrade. */
  lemma SwappedRecord(su: Tree, r: Path, name: string, x: FileData)
    requires ReadFile(su, r + [name + ".upgrade", MetadataFile]) == Ok(x)
    ensures ReadFile(RemoveAll(RemoveAll(Move(Move(su, r + [name], r + [name + ".backup"]), r + [name + ".upgrade"], r + [name]),
                                         r + [name + ".backup"]), r + [name + ".upgrade"]), r + [name, MetadataFile]) == Ok(x)
  {
    var d := r + [name];
    var n := r + [name + ".upgrade"];
    var b := r + [name + ".backup"];
    SiblingNames(name);
    assert d[|r|] == name && n[|r|] == name + ".upgrade" && b[|r|] == name + ".backup";
    MoveSwapClean(su, d, n, b);
    assert d + [MetadataFile] == r + [name, MetadataFile];
    assert n + [MetadataFile] == r + [name + ".upgrade", MetadataFile];
    var v := RemoveAll(RemoveAll(Move(Move(su, d, b), n, d), b), n);
    SameFile(v, d + [MetadataFile], su, n + [MetadataFile]);
  }

  /**
   * The tree a successful Upgrade leaves: the staged .upgrade moved to
   * <name>, the old <name> (moved to .backup) removed, and .upgrade removed.
   */
  lemma UpgradeSucceeded(c: Config, t: Tree, ctx: Context, name: string, version: string, now: string,
                         faults: set<Fault>, r: Path)
    requires Rooted(c, r, name) && UpgradeSpec(c, t, ctx, name, version, now, faults).0.None?
    ensures Upgradable(c, t, ctx, name, version)
    ensures var staged := StagingSpec(c, t, ctx, name, version, now, faults, Join(c.pluginDir, name) + ".upgrade",
                                      FetchSpec(c, t, name).value);
            staged.0.None? &&
            UpgradeSpec(c, t, ctx, name, version, now, faults).1 ==
              Cleared(Cleared(Move(Move(staged.1, r + [name], r + [name + ".backup"]), r + [name + ".upgrade"], r + [name]),
                              r + [name + ".backup"]), r + [name + ".upgrade"])
  {
    UpgradeUnfold(c, t, ctx, name, version, now, faults, r);
    var dir := Join(c.pluginDir, name);
    var current := FetchSpec(c, t, name).value;
    var staged := StagingSpec(c, t, ctx, name, version, now, faults, dir + ".upgrade", current);
    StepsSucceeded(c, t, ctx, name, version, now, faults, dir, dir + ".upgrade", current);
    SwapSucceeds(c, staged.1, faults, r, name);
    var steps := UpgradeSteps(c, t, ctx, name, version, now, faults, dir, dir + ".upgrade", current);
    var swapped := SwapSpec(c, staged.1, faults, dir, dir + ".upgrade");
    assert steps == swapped;
    assert Upgradable(c, t, ctx, name, version);
    assert UpgradeSpec(c, t, ctx, name, version, now, faults) == (steps.0, Cleared(steps.1, r + [name + ".upgrade"]));
    var moved := Cleared(Move(Move(staged.1, r + [name], r + [name + ".backup"]), r + [name + ".upgrade"], r + [name]),
                         r + [name + ".backup"]);
    assert swapped.1 == moved;
    assert UpgradeSpec(c, t, ctx, name, version, now, faults).1 == Cleared(moved, r + [name + ".upgrade"]);
  }

  /** Upgrade's steps succeed only when staging succeeds and the swap that follows does. */
  lemma StepsSucceeded(c: Config, t: Tree, ctx: Context, name: string, version: string, now: string,
                       faults: set<Fault>, dir: string, tmp: string, current: Info)
    requires UpgradeSteps(c, t, ctx, name, version, now, faults, dir, tmp, current).0.None?
    ensures StagingSpec(c, t, ctx, name, version, now, faults, tmp, current).0.None?
    ensures UpgradeSteps(c, t, ctx, name, version, now, faults, dir, tmp, current)
         == SwapSpec(c, StagingSpec(c, t, ctx, name, version, now, faults, tmp, current).1, faults, dir, tmp)
  {
  }

  /**
   * A successful Upgrade leaves at <pluginDir>/<name> the fetched plugin
   * whose record carries the requested version, keeps the old status, and
   * says when it was installed, which version it replaced and when that one
   * was installed; nothing is left at .upgrade or .backup.
   */
  lemma UpgradeRecorded(c: Config, t: Tree, ctx: Context, name: string, version: string, now: string,
                        faults: set<Fault>, r: Path)
    requires Rooted(c, r, name) && Reachable(t, r) && FetchedPlain(c.store, name, version)
    requires UpgradeSpec(c, t, ctx, name, version, now, faults).0.None?
    ensures Upgradable(c, t, ctx, name, version) && c.store.fetch(name, version).Some?
    ensures FetchSpec(c, UpgradeSpec(c, t, ctx, name, version, now, faults).1, name) ==
              Ok(Stored(c.store.fetch(name, version).value.(
                version := version, status := FetchSpec(c, t, name).value.status,
                metadata := map["installed" := now, "upgraded_from" := FetchSpec(c, t, name).value.version,
                                "previous_install" := Lookup(FetchSpec(c, t, name).value.metadata, "installed")])))
    ensures forall s :: At(UpgradeSpec(c, t, ctx, name, version, now, faults).1, r + [name + ".backup"] + s).None? &&
                        At(UpgradeSpec(c, t, ctx, name, version, now, faults).1, r + [name + ".upgrade"] + s).None?
  {
    var d := r + [name];
    var n := r + [name + ".upgrade"];
    var b := r + [name + ".backup"];
    UpgradeSucceeded(c, t, ctx, name, version, now, faults, r);
    var current := FetchSpec(c, t, name).value;
    var su := StagingSpec(c, t, ctx, name, version, now, faults, Join(c.pluginDir, name) + ".upgrade", current).1;
    var v := UpgradeSpec(c, t, ctx, name, version, now, faults).1;
    StagingInside(c, t, ctx, name, version, now, faults, r, current);
    assert c.store.fetch(name, version).Some? &&
           ReadFile(su, r + [name + ".upgrade", MetadataFile])
             == Ok(Record(Stored(Stamped(Replacing(version, now, current), c.store.fetch(name, version).value))));
    ReachableKept(t, su, r);
    SwapReachable(su, r, name, name + ".backup", name + ".upgrade");
    assert v == RemoveAll(RemoveAll(Move(Move(su, d, b), n, d), b), n);
    var rec := Stored(Stamped(Replacing(version, now, current), c.store.fetch(name, version).value));
    SwappedRecord(su, r, name, Record(rec));
    Layout(c, r, name);
    MetadataRecord(v, c.cwd, Join3(c.pluginDir, name, MetadataFile), rec);
    SiblingNames(name);
    assert d[|r|] == name && n[|r|] == name + ".upgrade" && b[|r|] == name + ".backup";
    MoveSwapClean(su, d, n, b);
  }

  /** No Upgrade succeeds while a directory sits at <name>.backup. */
  lemma UpgradeRefusesBackup(c: Config, t: Tree, ctx: Context, name: string, version: string, now: string,
                             faults: set<Fault>, r: Path)
    requires Rooted(c, r, name) && IsDirAt(t, r) && FetchedPlain(c.store, name, version)
    requires IsDirAt(t, r + [name + ".backup"])
    ensures UpgradeSpec(c, t, ctx, name, version, now, faults).0.Some?
  {
    if UpgradeSpec(c, t, ctx, name, version, now, faults).0.None? {
      var dir := Join(c.pluginDir, name);
      UpgradeSucceeded(c, t, ctx, name, version, now, faults, r);
      var current := FetchSpec(c, t, name).value;
      UpgradeProceeds(c, t, ctx, name, version, now, faults, r);
      var steps := UpgradeSteps(c, t, ctx, name, version, now, faults, dir, dir + ".upgrade", current);
      assert steps.0.None?;
      StepsSucceeded(c, t, ctx, name, version, now, faults, dir, dir + ".upgrade", current);
      var su := StagingSpec(c, t, ctx, name, version, now, faults, dir + ".upgrade", current).1;
      StagingInside(c, t, ctx, name, version, now, faults, r, current);
      SiblingNames(name);
      var b := r + [name + ".backup"];
      assert b[|r|] != (r + [name + ".upgrade"])[|r|];
      assert IsDirAt(su, b);
      SwapRefusesBackup(c, su, faults, r, name);
    }
  }

  /**
   * A failed Upgrade leaves the installed plugin as it was, unless the rename
   * back from .backup fails too (see UpgradeStrands).
   */
  lemma UpgradeFailureKeeps(c: Config, t: Tree, ctx: Context, name: string, version: string, now: string,
                            faults: set<Fault>, r: Path)
    requires Rooted(c, r, name) && IsDirAt(t, r) && FetchedPlain(c.store, name, version) && RestoreRename !in faults
    ensures UpgradeSpec(c, t, ctx, name, version, now, faults).0.Some? ==>
              forall s :: At(UpgradeSpec(c, t, ctx, name, version, now, faults).1, r + [name] + s) == At(t, r + [name] + s)
  {
    var d := r + [name];
    var n := r + [name + ".upgrade"];
    var res := UpgradeSpec(c, t, ctx, name, version, now, faults);
    UpgradeUnfold(c, t, ctx, name, version, now, faults, r);
    if res.0.Some? && Upgradable(c, t, ctx, name, version) {
      SiblingNames(name);
      var dir := Join(c.pluginDir, name);
      var current := FetchSpec(c, t, name).value;
      StagingInside(c, t, ctx, name, version, now, faults, r, current);
      var staged := StagingSpec(c, t, ctx, name, version, now, faults, dir + ".upgrade", current);
      var su := staged.1;
      var steps := UpgradeSteps(c, t, ctx, name, version, now, faults, dir, dir + ".upgrade", current);
      RemoveAllSpec(steps.1, n);
      assert !Under(r, n);
      if staged.0.None? {
        SwapFails(c, su, faults, r, name);
      }
      forall s ensures At(res.1, d + s) == At(t, d + s) {
        Apart(r, name, name + ".upgrade", s);
        Apart(r, name, name + ".backup", s);
      }
    }
  }

  /** An Upgrade that fails in the swap has staged successfully and then removed .upgrade after the swap. */
  lemma UpgradeSwapFailed(c: Config, t: Tree, ctx: Context, name: string, version: string, now: string,
                          faults: set<Fault>, r: Path)
    requires Rooted(c, r, name) && IsDirAt(t, r) && FetchedPlain(c.store, name, version)
    requires UpgradeSpec(c, t, ctx, name, version, now, faults).0.Some?
    requires UpgradeSpec(c, t, ctx, name, version, now, faults).0.value.SwapFailed?
    ensures Upgradable(c, t, ctx, name, version)
    ensures var staged := StagingSpec(c, t, ctx, name, version, now, faults, Join(c.pluginDir, name) + ".upgrade",
                                      FetchSpec(c, t, name).value);
            var swap := SwapSpec(c, staged.1, faults, Join(c.pluginDir, name), Join(c.pluginDir, name) + ".upgrade");
            staged.0.None? && swap.0.Some? && swap.0.value.SwapFailed? &&
            UpgradeSpec(c, t, ctx, name, version, now, faults).1 == Cleared(swap.1, r + [name + ".upgrade"])
  {
    var res := UpgradeSpec(c, t, ctx, name, version, now, faults);
    Layout(c, r, name);
    UpgradeUnfold(c, t, ctx, name, version, now, faults, r);
    assert Upgradable(c, t, ctx, name, version);
    var dir := Join(c.pluginDir, name);
    var current := FetchSpec(c, t, name).value;
    var staged := StagingSpec(c, t, ctx, name, version, now, faults, dir + ".upgrade", current);
    var steps := UpgradeSteps(c, t, ctx, name, version, now, faults, dir, dir + ".upgrade", current);
    assert res == (steps.0, Cleared(steps.1, r + [name + ".upgrade"]));
    StagingErrors(c, t, ctx, name, version, now, faults, dir + ".upgrade", current);
  }

  /** Staging fails with the errors of MkdirAll, the store and the deployment, never with those of the swap. */
  lemma StagingErrors(c: Config, t: Tree, ctx: Context, name: string, version: string, now: string,
                      faults: set<Fault>, tmp: string, current: Info)
    ensures StagingSpec(c, t, ctx, name, version, now, faults, tmp, current).0.Some? ==>
              var e := StagingSpec(c, t, ctx, name, version, now, faults, tmp, current).0.value;
              e.CreateDirFailed? || e == FetchFailed || e.WriteFailed? || e == Panicked || e == MarshalFailed || e.SaveFailed?
  {
    if Try(UpgradeDirCreate in faults, MkdirAllAt(t, c.cwd, tmp)).Ok? && c.store.fetch(name, version).Some? {
      var t1 := Try(UpgradeDirCreate in faults, MkdirAllAt(t, c.cwd, tmp)).value;
      var info := c.store.fetch(name, version).value;
      var w := WriteSpec(t1, c.cwd, c.lib, faults, ctx, 1, tmp, info).0;
      if w.Err? {
        assert WriteFailure(w.error) == Panicked || WriteFailure(w.error).WriteFailed?;
      }
    }
  }

  /**
   * When the staged directory cannot be moved in and the rename back fails
   * too, Upgrade reports the swap's error but leaves nothing at
   * <pluginDir>/<name>: the plugin is stranded at <name>.backup.
   */
  lemma UpgradeStrands(c: Config, t: Tree, ctx: Context, name: string, version: string, now: string,
                       faults: set<Fault>, r: Path)
    requires Rooted(c, r, name) && IsDirAt(t, r) && FetchedPlain(c.store, name, version) && RestoreRename in faults
    requires UpgradeSpec(c, t, ctx, name, version, now, faults).0.Some?
    requires UpgradeSpec(c, t, ctx, name, version, now, faults).0.value.SwapFailed?
    ensures At(UpgradeSpec(c, t, ctx, name, version, now, faults).1, r + [name]).None?
    ensures forall s :: At(UpgradeSpec(c, t, ctx, name, version, now, faults).1, r + [name + ".backup"] + s) == At(t, r + [name] + s)
  {
    var d := r + [name];
    var n := r + [name + ".upgrade"];
    var b := r + [name + ".backup"];
    UpgradeSwapFailed(c, t, ctx, name, version, now, faults, r);
    var current := FetchSpec(c, t, name).value;
    var su := StagingSpec(c, t, ctx, name, version, now, faults, Join(c.pluginDir, name) + ".upgrade", current).1;
    var v := SwapSpec(c, su, faults, Join(c.pluginDir, name), Join(c.pluginDir, name) + ".upgrade").1;
    var u := UpgradeSpec(c, t, ctx, name, version, now, faults).1;
    assert u == Cleared(v, n);
    SwapStrands(c, su, faults, r, name);
    assert forall k :: !Under(k, n) ==> At(su, k) == At(t, k) by {
      StagingInside(c, t, ctx, name, version, now, faults, r, current);
    }
    StrandedCleanup(t, su, v, r, name);
  }

  /** Removing <name>.upgrade after a stranded swap keeps the stranded backup and the empty <name>. */
  lemma StrandedCleanup(t: Tree, su: Tree, v: Tree, r: Path, name: string)
    requires forall k :: !Under(k, r + [name + ".upgrade"]) ==> At(su, k) == At(t, k)
    requires At(v, r + [name]).None?
    requires forall s :: At(v, r + [name + ".backup"] + s) == At(su, r + [name] + s)
    ensures At(Cleared(v, r + [name + ".upgrade"]), r + [name]).None?
    ensures forall s :: At(Cleared(v, r + [name + ".upgrade"]), r + [name + ".backup"] + s) == At(t, r + [name] + s)
  {
    var d := r + [name];
    var n := r + [name + ".upgrade"];
    var b := r + [name + ".backup"];
    RemoveAllSpec(v, n);
    SiblingNames(name);
    Apart(r, name, name + ".upgrade", []);
    assert d + [] == d;
    forall s ensures At(Cleared(v, n), b + s) == At(t, d + s) {
      Apart(r, name + ".backup", name + ".upgrade", s);
      Apart(r, name, name + ".upgrade", s);
    }
  }

}

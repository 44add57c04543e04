/**
 * The extraction pipeline of manager.go: writePluginFiles (normalise the
 * content, sniff its type, create the bin file, then copy or process), the
 * stage table fileProcessorMap, processFile, and the entry loops of
 * extractTar and extractZip with their path check.
 */
module Pipeline {
  import opened Outcomes
  import opened Strings
  import opened Paths
  import opened Plugin
  import opened Disk

  /** The fileProcessor functions: five stream decoders and two archive extractors. */
  datatype Stage = Gunzip | Unxz | Bunzip2 | Unlz4 | Unbrotli | Untar | Unzip

  /** A stage that writes entries and returns a nil reader instead of a stream. */
  predicate Terminal(s: Stage) {
    s == Untar || s == Unzip
  }

  /** fileProcessorMap: the stage chain for each sniffed content type. */
  const Processors: map<string, seq<Stage>> := map[
    "application/gzip" := [Gunzip, Untar],
    "application/x-gzip" := [Gunzip, Untar],
    "application/zip" := [Unzip],
    "application/x-xz" := [Unxz, Untar],
    "application/x-bzip2" := [Bunzip2, Untar],
    "application/x-lz4" := [Unlz4, Untar],
    "application/x-brotli" := [Unbrotli, Untar]
  ]

  /** The header type of an archive entry: tar.TypeDir, tar.TypeReg, or anything else. */
  datatype EntryKind = DirKind | RegularKind | OtherKind

  /**
   * Whether an entry's data can be read: Unopenable entries fail file.Open (zip
   * only; a tar entry has nothing to open), Corrupt ones fail while copying.
   */
  datatype EntryFault = Intact | Unopenable | Corrupt

  datatype Entry = Entry(name: string, kind: EntryKind, data: seq<Byte>, fault: EntryFault)

  /** What tar.Reader yields: the entries read, and whether a header after them fails to read. */
  datatype Listing = Listing(entries: seq<Entry>, broken: bool)

  /**
   * The library code the pipeline calls: http.DetectContentType (given at most
   * 512 bytes, all it reads), the decoders (gzip and xz check a header when
   * the reader is made; bzip2, lz4 and brotli report nothing until read), and
   * the tar and zip readers.
   */
  datatype Library = Library(
    sniff: seq<Byte> -> string,
    gunzip: seq<Byte> -> Option<seq<Byte>>,
    unxz: seq<Byte> -> Option<seq<Byte>>,
    bunzip2: seq<Byte> -> seq<Byte>,
    unlz4: seq<Byte> -> seq<Byte>,
    unbrotli: seq<Byte> -> seq<Byte>,
    untar: seq<Byte> -> Listing,
    unzip: seq<Byte> -> Option<seq<Entry>>)

  /** Calls that may fail for reasons the tree does not explain, by call site. */
  datatype Fault =
    | PluginDirCreate    // MkdirAll of <dir>/<Name> in writePluginFiles
    | BinCreate          // OpenFile of the bin file
    | BinWrite           // io.Copy into the bin file
    | ZipTemp            // the temporary copy of a zip archive: CreateTemp, io.Copy into it, or its Stat
    | InstallDirCreate   // MkdirAll of <pluginDir>/<name> in Install
    | MetadataSave       // os.WriteFile of metadata.json
    | UpgradeDirCreate   // MkdirAll of <pluginDir>/<name>.upgrade
    | BackupRename       // live directory to .backup
    | SwapRename         // .upgrade to the live directory
    | RestoreRename      // .backup back to the live directory

  datatype ExtractError =
    | DecoderFailed             // "failed to create gzip/xz reader"
    | HeaderFailed              // "failed to read tar header"
    | TempFileFailed            // the temporary zip copy: "failed to create temporary file", "failed to write zip content" or "failed to get zip file info"
    | ArchiveFailed             // "failed to create zip reader"
    | InvalidPath(name: string) // "invalid tar/zip path"
    | MkdirFailed(cause: DiskError)
    | CreateFailed(cause: DiskError)
    | EntryOpenFailed           // "failed to open zip file"
    | EntryWriteFailed          // "failed to write file"

  datatype StageError = ProcessingCancelled | ProcessingFailed(reason: ExtractError)

  datatype WriteError =
    | PluginDirFailed(cause: DiskError)  // "failed to create plugin-specific directory"
    | SniffReadFailed                    // "failed to read content for type detection"
    | SeekFailed                         // "failed to seek back after type detection"
    | UnsupportedContent                 // "unsupported plugin data type"
    | BinCreateFailed(cause: DiskError)  // "failed to create plugin file"
    | BinWriteFailed                     // "failed to write plugin data"
    | ProcessFailed(reason: StageError)  // "failed to process file"
    | NilReader                          // io.Copy from the nil reader a terminal stage leaves: a panic

  // ---------------------------------------------------------------- archive entries

  /** The location extractTar and extractZip compute for an entry. */
  function Target(destDir: string, name: string): string {
    Join(destDir, Clean(name))
  }

  /** The path check: the target must start with the destination as a string. */
  predicate Admitted(destDir: string, name: string) {
    HasPrefix(Target(destDir, name), destDir)
  }

  /** One turn of the extraction loop; an error may leave directories or an empty file behind. */
  function EntrySpec(t: Tree, cwd: Path, destDir: string, e: Entry, zip: bool): (Option<ExtractError>, Tree) {
    var target := Target(destDir, e.name);
    if !Admitted(destDir, e.name) then (Some(InvalidPath(e.name)), t)
    else if e.kind == DirKind then
      match MkdirAllAt(t, cwd, target)
      case Err(x) => (Some(MkdirFailed(x)), t)
      case Ok(u) => (None, u)
    else if e.kind == OtherKind && !zip then (None, t)
    else
      match MkdirAllAt(t, cwd, Dir(target))
      case Err(x) => (Some(MkdirFailed(x)), t)
      case Ok(u) =>
        match CreateFileAt(u, cwd, target)
        case Err(x) => (Some(CreateFailed(x)), u)
        case Ok(v) =>
          if zip && e.fault == Unopenable then (Some(EntryOpenFailed), v)
          else if e.fault == Corrupt then (Some(EntryWriteFailed), v)
          else (None, WriteAt(v, cwd, target, e.data))
  }

  /** The extraction loop: entries in order, stopping at the first error. */
  function ExtractSpec(t: Tree, cwd: Path, destDir: string, es: seq<Entry>, zip: bool): (Option<ExtractError>, Tree)
    decreases |es|
  {
    if es == [] then (None, t)
    else
      var (err, u) := EntrySpec(t, cwd, destDir, es[0], zip);
      if err.Some? then (err, u) else ExtractSpec(u, cwd, destDir, es[1..], zip)
  }

  // ---------------------------------------------------------------- stages and processFile

  /** One fileProcessor: Some(stream) for a new reader, None for a terminal stage's nil reader. */
  function StageSpec(t: Tree, cwd: Path, lib: Library, faults: set<Fault>, s: Stage, input: seq<Byte>, destDir: string)
    : (Result<Option<seq<Byte>>, ExtractError>, Tree)
  {
    match s
    case Gunzip => (if lib.gunzip(input).None? then Err(DecoderFailed) else Ok(Some(lib.gunzip(input).value)), t)
    case Unxz => (if lib.unxz(input).None? then Err(DecoderFailed) else Ok(Some(lib.unxz(input).value)), t)
    case Bunzip2 => (Ok(Some(lib.bunzip2(input))), t)
    case Unlz4 => (Ok(Some(lib.unlz4(input))), t)
    case Unbrotli => (Ok(Some(lib.unbrotli(input))), t)
    case Untar =>
      var listing := lib.untar(input);
      var (err, u) := ExtractSpec(t, cwd, destDir, listing.entries, false);
      if err.Some? then (Err(err.value), u)
      else if listing.broken then (Err(HeaderFailed), u)
      else (Ok(None), u)
    case Unzip =>
      if ZipTemp in faults then (Err(TempFileFailed), t)
      else if lib.unzip(input).None? then (Err(ArchiveFailed), t)
      else
        var (err, u) := ExtractSpec(t, cwd, destDir, lib.unzip(input).value, true);
        if err.Some? then (Err(err.value), u) else (Ok(None), u)
  }

  /**
   * processFile: before stage i the context is checked (check number k + i);
   * the first error aborts, a nil reader ends the chain, otherwise each
   * stage's output feeds the next.
   */
  function ProcessSpec(t: Tree, cwd: Path, lib: Library, faults: set<Fault>, ctx: Context, k: nat,
                       input: seq<Byte>, destDir: string, stages: seq<Stage>)
    : (Result<Option<seq<Byte>>, StageError>, Tree)
    decreases |stages|
  {
    if stages == [] then (Ok(Some(input)), t)
    else if Cancelled(ctx, k) then (Err(ProcessingCancelled), t)
    else
      var (r, u) := StageSpec(t, cwd, lib, faults, stages[0], input, destDir);
      match r
      case Err(e) => (Err(ProcessingFailed(e)), u)
      case Ok(None) => (Ok(None), u)
      case Ok(Some(next)) => ProcessSpec(u, cwd, lib, faults, ctx, k + 1, next, destDir, stages[1..])
  }

  // ---------------------------------------------------------------- writePluginFiles

  function Min(a: int, b: int): int {
    if a < b then a else b
  }

  /** What DetectContentType reads of some bytes: at most the first 512. */
  function Head(b: seq<Byte>): seq<Byte> {
    b[..Min(512, |b|)]
  }

  /** The content's type, the bytes the reader will yield, and the content Info holds afterwards. */
  datatype Prepared = Prepared(contentType: string, stream: seq<Byte>, content: Content)

  /**
   * The first switch of writePluginFiles: sniff the content's type. A reader
   * that cannot seek back is replaced by a MultiReader over the bytes already
   * read and the rest, which yields the same bytes.
   */
  function Prepare(c: Content, sniff: seq<Byte> -> string): Result<Prepared, WriteError> {
    match c
    case Text(b) => Ok(Prepared(sniff(Head(b)), b, c))
    case Blob(b) => Ok(Prepared(sniff(Head(b)), b, c))
    case Stream(r) =>
      if r.readFails then Err(SniffReadFailed)
      else
        var n := Min(Min(r.firstRead, 512), |r.data|);
        var contentType := sniff(r.data[..n]);
        if r.seekable then
          if r.seekFails then Err(SeekFailed) else Ok(Prepared(contentType, r.data, c))
        else Ok(Prepared(contentType, r.data, Stream(Reader(r.data, |r.data|, false, false, false, true))))
    case Unsupported => Err(UnsupportedContent)
    case Absent => Err(UnsupportedContent)
  }

  /**
   * writePluginFiles(ctx, dir, info): files go to <dir>/<info.Name>; the bin
   * file <dir>/<info.Name>/<info.FileName> is created before anything is
   * processed. On success the result is `info` with its content as normalised.
   */
  function WriteSpec(t: Tree, cwd: Path, lib: Library, faults: set<Fault>, ctx: Context, k: nat,
                     dir: string, info: Info): (Result<Info, WriteError>, Tree)
  {
    var pluginDir := Join(dir, info.name);
    match Try(PluginDirCreate in faults, MkdirAllAt(t, cwd, pluginDir))
    case Err(e) => (Err(PluginDirFailed(e)), t)
    case Ok(t1) =>
      match Prepare(info.content, lib.sniff)
      case Err(e) => (Err(e), t1)
      case Ok(p) =>
        var binPath := Join(pluginDir, info.fileName);
        match Try(BinCreate in faults, CreateFileAt(t1, cwd, binPath))
        case Err(e) => (Err(BinCreateFailed(e)), t1)
        case Ok(t2) =>
          if p.contentType !in Processors then
            if BinWrite in faults then (Err(BinWriteFailed), t2)
            else (Ok(info.(content := p.content)), WriteAt(t2, cwd, binPath, p.stream))
          else
            var (r, t3) := ProcessSpec(t2, cwd, lib, faults, ctx, k, p.stream, pluginDir, Processors[p.contentType]);
            match r
            case Err(e) => (Err(ProcessFailed(e)), t3)
            case Ok(None) => (Err(NilReader), t3)
            case Ok(Some(b)) =>
              if BinWrite in faults then (Err(BinWriteFailed), t3)
              else (Ok(info.(content := p.content)), WriteAt(t3, cwd, binPath, b))
  }

  // ---------------------------------------------------------------- the imperative code

  /** The loop of extractTar (zip == false) or extractZip (zip == true) over the archive's entries. */
  method ExtractArchive(disk: Disk, entries: seq<Entry>, destDir: string, zip: bool) returns (err: Option<ExtractError>)
    modifies disk
    ensures (err, disk.tree) == ExtractSpec(old(disk.tree), disk.cwd, destDir, entries, zip)
  {
    var i := 0;
    while i < |entries|
      invariant 0 <= i <= |entries|
      invariant ExtractSpec(old(disk.tree), disk.cwd, destDir, entries, zip)
             == ExtractSpec(disk.tree, disk.cwd, destDir, entries[i..], zip)
    {
      assert entries[i..][0] == entries[i] && entries[i..][1..] == entries[i + 1..];
      ghost var t := disk.tree;
      err := ExtractEntry(disk, entries[i], destDir, zip);
      assert ExtractSpec(t, disk.cwd, destDir, entries[i..], zip)
          == if err.Some? then (err, disk.tree) else ExtractSpec(disk.tree, disk.cwd, destDir, entries[i + 1..], zip);
      if err.Some? {
        return;
      }
      i := i + 1;
    }
    err := None;
  }

  /** One turn of the extraction loop: check the entry's name, then create its directory or its file. */
  method ExtractEntry(disk: Disk, e: Entry, destDir: string, zip: bool) returns (err: Option<ExtractError>)
    modifies disk
    ensures (err, disk.tree) == EntrySpec(old(disk.tree), disk.cwd, destDir, e, zip)
  {
    var target := Join(destDir, Clean(e.name));
    if !HasPrefix(target, destDir) {
      return Some(InvalidPath(e.name));
    }
    if e.kind == DirKind {
      var failed := disk.MkdirAll(target, false);
      if failed.Some? {
        return Some(MkdirFailed(failed.value));
      }
    } else if e.kind == RegularKind || zip {
      ghost var t0 := disk.tree;
      var failed := disk.MkdirAll(Dir(target), false);
      if failed.Some? {
        return Some(MkdirFailed(failed.value));
      }
      ghost var u := disk.tree;
      assert MkdirAllAt(t0, disk.cwd, Dir(target)) == Ok(u);
      failed := disk.Create(target, false);
      if failed.Some? {
        return Some(CreateFailed(failed.value));
      }
      assert CreateFileAt(u, disk.cwd, target) == Ok(disk.tree);
      if zip && e.fault == Unopenable {
        return Some(EntryOpenFailed);
      }
      var copied := disk.Write(target, e.data, e.fault == Corrupt);
      if !copied {
        return Some(EntryWriteFailed);
      }
    }
    err := None;
  }

  /** Apply one fileProcessor. */
  method RunStage(disk: Disk, lib: Library, faults: set<Fault>, s: Stage, input: seq<Byte>, destDir: string)
    returns (r: Result<Option<seq<Byte>>, ExtractError>)
    modifies disk
    ensures (r, disk.tree) == StageSpec(old(disk.tree), disk.cwd, lib, faults, s, input, destDir)
  {
    match s {
      case Gunzip =>
        r := if lib.gunzip(input).None? then Err(DecoderFailed) else Ok(Some(lib.gunzip(input).value));
      case Unxz =>
        r := if lib.unxz(input).None? then Err(DecoderFailed) else Ok(Some(lib.unxz(input).value));
      case Bunzip2 =>
        r := Ok(Some(lib.bunzip2(input)));
      case Unlz4 =>
        r := Ok(Some(lib.unlz4(input)));
      case Unbrotli =>
        r := Ok(Some(lib.unbrotli(input)));
      case Untar =>
        var listing := lib.untar(input);
        var err := ExtractArchive(disk, listing.entries, destDir, false);
        r := if err.Some? then Err(err.value) else if listing.broken then Err(HeaderFailed) else Ok(None);
      case Unzip =>
        if ZipTemp in faults {
          r := Err(TempFileFailed);
        } else if lib.unzip(input).None? {
          r := Err(ArchiveFailed);
        } else {
          var err := ExtractArchive(disk, lib.unzip(input).value, destDir, true);
          r := if err.Some? then Err(err.value) else Ok(None);
        }
    }
  }

  /** processFile: thread the stream through the stages. */
  method ProcessFile(disk: Disk, lib: Library, faults: set<Fault>, ctx: Context, k: nat,
                     input: seq<Byte>, destDir: string, stages: seq<Stage>)
    returns (r: Result<Option<seq<Byte>>, StageError>)
    modifies disk
    ensures (r, disk.tree) == ProcessSpec(old(disk.tree), disk.cwd, lib, faults, ctx, k, input, destDir, stages)
  {
    var reader := input;
    var i := 0;
    while i < |stages|
      invariant 0 <= i <= |stages|
      invariant ProcessSpec(old(disk.tree), disk.cwd, lib, faults, ctx, k, input, destDir, stages)
             == ProcessSpec(disk.tree, disk.cwd, lib, faults, ctx, k + i, reader, destDir, stages[i..])
    {
      assert stages[i..][0] == stages[i] && stages[i..][1..] == stages[i + 1..];
      if Cancelled(ctx, k + i) {
        return Err(ProcessingCancelled);
      }
      ghost var t := disk.tree;
      var processed := RunStage(disk, lib, faults, stages[i], reader, destDir);
      assert ProcessSpec(t, disk.cwd, lib, faults, ctx, k + i, reader, destDir, stages[i..])
          == match processed
             case Err(e) => (Err(ProcessingFailed(e)), disk.tree)
             case Ok(None) => (Ok(None), disk.tree)
             case Ok(Some(next)) => ProcessSpec(disk.tree, disk.cwd, lib, faults, ctx, k + i + 1, next, destDir, stages[i + 1..]);
      if processed.Err? {
        return Err(ProcessingFailed(processed.error));
      }
      if processed.value.None? {
        return Ok(None);
      }
      assert ProcessSpec(old(disk.tree), disk.cwd, lib, faults, ctx, k, input, destDir, stages)
          == ProcessSpec(disk.tree, disk.cwd, lib, faults, ctx, k + i + 1, processed.value.value, destDir, stages[i + 1..]);
      reader := processed.value.value;
      i := i + 1;
    }
    assert stages[i..] == [];
    r := Ok(Some(reader));
  }

  /** writePluginFiles. The result carries `info` with its content as the function leaves it. */
  method WritePluginFiles(disk: Disk, lib: Library, faults: set<Fault>, ctx: Context, k: nat, dir: string, info: Info)
    returns (r: Result<Info, WriteError>)
    modifies disk
    ensures (r, disk.tree) == WriteSpec(old(disk.tree), disk.cwd, lib, faults, ctx, k, dir, info)
  {
    var pluginDir := Join(dir, info.name);
    var failed := disk.MkdirAll(pluginDir, PluginDirCreate in faults);
    if failed.Some? {
      return Err(PluginDirFailed(failed.value));
    }
    var prepared := Prepare(info.content, lib.sniff);
    if prepared.Err? {
      return Err(prepared.error);
    }
    var p := prepared.value;
    var binPath := Join(pluginDir, info.fileName);
    failed := disk.Create(binPath, BinCreate in faults);
    if failed.Some? {
      return Err(BinCreateFailed(failed.value));
    }
    var stream := p.stream;
    if p.contentType in Processors {
      var processed := ProcessFile(disk, lib, faults, ctx, k, p.stream, pluginDir, Processors[p.contentType]);
      if processed.Err? {
        return Err(ProcessFailed(processed.error));
      }
      if processed.value.None? {
        return Err(NilReader);
      }
      stream := processed.value.value;
    }
    var copied := disk.Write(binPath, stream, BinWrite in faults);
    if !copied {
      return Err(BinWriteFailed);
    }
    r := Ok(info.(content := p.content));
  }

  // ---------------------------------------------------------------- the stage table

  /** Each chain ends in its one terminal stage: zip alone, every other type a decoder and then tar. */
  lemma ProcessorChains(contentType: string)
    requires contentType in Processors
    ensures |Processors[contentType]| >= 1
    ensures Terminal(Processors[contentType][|Processors[contentType]| - 1])
    ensures forall i :: 0 <= i < |Processors[contentType]| - 1 ==> !Terminal(Processors[contentType][i])
    ensures (Processors[contentType] == [Unzip]) == (contentType == "application/zip")
    ensures contentType != "application/zip" ==> |Processors[contentType]| == 2 && Processors[contentType][1] == Untar
  {
  }

  /** A terminal stage never hands on a stream. */
  lemma TerminalYieldsNothing(t: Tree, cwd: Path, lib: Library, faults: set<Fault>, s: Stage, input: seq<Byte>, destDir: string)
    requires Terminal(s)
    ensures StageSpec(t, cwd, lib, faults, s, input, destDir).0.Ok? ==> StageSpec(t, cwd, lib, faults, s, input, destDir).0.value.None?
  {
  }

  /** A chain that holds a terminal stage never returns a stream from processFile. */
  lemma {:induction false} ChainYieldsNothing(t: Tree, cwd: Path, lib: Library, faults: set<Fault>, ctx: Context, k: nat,
                                              input: seq<Byte>, destDir: string, stages: seq<Stage>, j: nat)
    requires j < |stages| && Terminal(stages[j])
    ensures ProcessSpec(t, cwd, lib, faults, ctx, k, input, destDir, stages).0.Ok? ==>
              ProcessSpec(t, cwd, lib, faults, ctx, k, input, destDir, stages).0.value.None?
    decreases |stages|
  {
    if !Cancelled(ctx, k) {
      var (r, u) := StageSpec(t, cwd, lib, faults, stages[0], input, destDir);
      if j == 0 {
        TerminalYieldsNothing(t, cwd, lib, faults, stages[0], input, destDir);
      } else if r.Ok? && r.value.Some? {
        assert stages[1..][j - 1] == stages[j];
        ChainYieldsNothing(u, cwd, lib, faults, ctx, k + 1, r.value.value, destDir, stages[1..], j - 1);
      }
    }
  }

  /**
   * processFile over `xs + ys` runs `xs` first; the stages of `ys` run only if
   * `xs` handed on a stream, starting at check k + |xs|.
   */
  lemma {:induction false} ProcessAppend(t: Tree, cwd: Path, lib: Library, faults: set<Fault>, ctx: Context, k: nat,
                                         input: seq<Byte>, destDir: string, xs: seq<Stage>, ys: seq<Stage>)
    ensures ProcessSpec(t, cwd, lib, faults, ctx, k, input, destDir, xs + ys)
         == (var (r, u) := ProcessSpec(t, cwd, lib, faults, ctx, k, input, destDir, xs);
             if r.Ok? && r.value.Some? then ProcessSpec(u, cwd, lib, faults, ctx, k + |xs|, r.value.value, destDir, ys)
             else (r, u))
    decreases |xs|
  {
    if xs == [] {
      assert xs + ys == ys;
    } else {
      assert (xs + ys)[0] == xs[0] && (xs + ys)[1..] == xs[1..] + ys;
      if !Cancelled(ctx, k) {
        var (r, u) := StageSpec(t, cwd, lib, faults, xs[0], input, destDir);
        if r.Ok? && r.value.Some? {
          ProcessAppend(u, cwd, lib, faults, ctx, k + 1, r.value.value, destDir, xs[1..], ys);
        }
      }
    }
  }

  /**
   * A context cancelled by check k + j stops processFile before stage j: the
   * result is never a stream, and the tree is what the first j stages left.
   */
  lemma CancelledStops(t: Tree, cwd: Path, lib: Library, faults: set<Fault>, ctx: Context, k: nat,
                       input: seq<Byte>, destDir: string, stages: seq<Stage>, j: nat)
    requires j < |stages| && Cancelled(ctx, k + j)
    ensures ProcessSpec(t, cwd, lib, faults, ctx, k, input, destDir, stages).0.Ok? ==>
              ProcessSpec(t, cwd, lib, faults, ctx, k, input, destDir, stages).0.value.None?
    ensures ProcessSpec(t, cwd, lib, faults, ctx, k, input, destDir, stages).1
         == ProcessSpec(t, cwd, lib, faults, ctx, k, input, destDir, stages[..j]).1
  {
    assert stages == stages[..j] + stages[j..];
    ProcessAppend(t, cwd, lib, faults, ctx, k, input, destDir, stages[..j], stages[j..]);
  }

  // ---------------------------------------------------------------- the path check in the entry loops

  lemma {:induction false} ExtractAppend(t: Tree, cwd: Path, destDir: string, xs: seq<Entry>, ys: seq<Entry>, zip: bool)
    ensures ExtractSpec(t, cwd, destDir, xs + ys, zip)
         == (var (err, u) := ExtractSpec(t, cwd, destDir, xs, zip);
             if err.Some? then (err, u) else ExtractSpec(u, cwd, destDir, ys, zip))
    decreases |xs|
  {
    if xs == [] {
      assert xs + ys == ys;
    } else {
      assert (xs + ys)[0] == xs[0] && (xs + ys)[1..] == xs[1..] + ys;
      var (err, u) := EntrySpec(t, cwd, destDir, xs[0], zip);
      if err.None? {
        ExtractAppend(u, cwd, destDir, xs[1..], ys, zip);
      }
    }
  }

  /** An entry that fails the path check aborts the loop; what the entries before it wrote stays. */
  lemma RejectedEntryAborts(t: Tree, cwd: Path, destDir: string, xs: seq<Entry>, e: Entry, ys: seq<Entry>, zip: bool)
    requires !Admitted(destDir, e.name)
    requires ExtractSpec(t, cwd, destDir, xs, zip).0.None?
    ensures ExtractSpec(t, cwd, destDir, xs + [e] + ys, zip)
         == (Some(InvalidPath(e.name)), ExtractSpec(t, cwd, destDir, xs, zip).1)
  {
    assert xs + [e] + ys == xs + ([e] + ys);
    ExtractAppend(t, cwd, destDir, xs, [e] + ys, zip);
    assert ([e] + ys)[0] == e;
  }

  /**
   * An archive for the destination /plugins/tool/tool with an entry
   * ../../etc/passwd after entries that extracted cleanly fails with an invalid
   * path, keeps what those entries wrote, and never writes /plugins/etc/passwd.
   */
  lemma TraversalEntryAborts(t: Tree, cwd: Path, dcs: seq<string>, ncs: seq<string>, lcs: seq<string>,
                             xs: seq<Entry>, e: Entry, ys: seq<Entry>, zip: bool)
    requires dcs == ["plugins", "tool", "tool"] && ncs == ["..", "..", "etc", "passwd"]
    requires lcs == ["plugins", "etc", "passwd"]
    requires e.name == Glue(ncs)
    requires ExtractSpec(t, cwd, Render(Loc(true, dcs)), xs, zip).0.None?
    ensures ExtractSpec(t, cwd, Render(Loc(true, dcs)), xs + [e] + ys, zip)
         == (Some(InvalidPath(e.name)), ExtractSpec(t, cwd, Render(Loc(true, dcs)), xs, zip).1)
  {
    GuardRejectsTraversal(cwd, dcs, ncs, lcs);
    RejectedEntryAborts(t, cwd, Render(Loc(true, dcs)), xs, e, ys, zip);
  }

  /** A rendered absolute location and its directory resolve to the location and its parent. */
  lemma ResolveRendered(cwd: Path, cs: seq<string>)
    requires PlainPath(cs) && |cs| >= 1
    ensures Resolve(cwd, Render(Loc(true, cs))) == Ok(cs)
    ensures Resolve(cwd, Dir(Render(Loc(true, cs)))) == Ok(cs[..|cs| - 1])
  {
    LocateRender(cwd, cs);
    LocateDir(cwd, cs);
  }

  /** Where the entry ../toolbox/x for the destination /plugins/tool goes, and where its directory is. */
  lemma SiblingTarget(cwd: Path, dcs: seq<string>, ncs: seq<string>, lcs: seq<string>)
    requires dcs == ["plugins", "tool"] && ncs == ["..", "toolbox", "x"] && lcs == ["plugins", "toolbox", "x"]
    ensures Admitted(Render(Loc(true, dcs)), Glue(ncs))
    ensures Target(Render(Loc(true, dcs)), Glue(ncs)) == Render(Loc(true, lcs))
  {
    SiblingJoin(dcs, ncs, lcs);
    SiblingTextPrefix(dcs, lcs);
  }

  /**
   * The check is a string test: the tar entry ../toolbox/x for the destination
   * /plugins/tool passes it and creates /plugins/toolbox/x, outside the destination.
   */
  lemma SiblingEntryEscapes(t: Tree, cwd: Path, dcs: seq<string>, ncs: seq<string>, lcs: seq<string>, e: Entry)
    requires dcs == ["plugins", "tool"] && ncs == ["..", "toolbox", "x"] && lcs == ["plugins", "toolbox", "x"]
    requires e == Entry(Glue(ncs), RegularKind, e.data, Intact)
    requires IsDirAt(t, lcs[..1]) && At(t, lcs[..2]).None? && At(t, lcs).None?
    ensures ExtractSpec(t, cwd, Render(Loc(true, dcs)), [e], false).0.None?
    ensures ReadFile(ExtractSpec(t, cwd, Render(Loc(true, dcs)), [e], false).1, lcs) == Ok(Raw(e.data))
    ensures !Under(lcs, dcs)
  {
    var destDir := Render(Loc(true, dcs));
    SiblingTarget(cwd, dcs, ncs, lcs);
    assert PlainPath(lcs);
    assert lcs[..|lcs| - 2] == lcs[..1] && lcs[..|lcs| - 1] == lcs[..2];
    NewFileEntry(t, cwd, destDir, e, lcs);
    assert [e][1..] == [];
    assert ExtractSpec(t, cwd, destDir, [e], false) == EntrySpec(t, cwd, destDir, e, false);
    assert lcs[..2][1] == "toolbox" && dcs[1] == "tool";
  }

  /** An admitted regular entry whose file and parent directory are new creates the file with the entry's data. */
  lemma NewFileEntry(t: Tree, cwd: Path, destDir: string, e: Entry, lcs: seq<string>)
    requires Admitted(destDir, e.name) && Target(destDir, e.name) == Render(Loc(true, lcs))
    requires PlainPath(lcs) && |lcs| >= 2 && e.kind == RegularKind && e.fault == Intact
    requires IsDirAt(t, lcs[..|lcs| - 2]) && At(t, lcs[..|lcs| - 1]).None? && At(t, lcs).None?
    ensures EntrySpec(t, cwd, destDir, e, false).0.None?
    ensures ReadFile(EntrySpec(t, cwd, destDir, e, false).1, lcs) == Ok(Raw(e.data))
  {
    var up := lcs[..|lcs| - 1];
    var u := t[up := Directory];
    var v := u[lcs := File(Raw([]))];
    NewFileSteps(t, lcs);
    var target := Target(destDir, e.name);
    ResolveRendered(cwd, lcs);
    assert MkdirAllAt(t, cwd, Dir(target)) == Ok(u);
    assert CreateFileAt(u, cwd, target) == Ok(v);
    EntryWritten(t, cwd, destDir, e, false, u, v);
    WriteNewFile(v, cwd, target, lcs, e.data);
  }

  /** Writing through a handle to a freshly created, empty file leaves exactly the data written. */
  lemma WriteNewFile(v: Tree, cwd: Path, s: string, lcs: Path, data: seq<Byte>)
    requires Resolve(cwd, s) == Ok(lcs) && At(v, lcs) == Some(File(Raw([])))
    ensures ReadFile(WriteAt(v, cwd, s, data), lcs) == Ok(Raw(data))
  {
    assert Overwrite(Raw([]), data) == Raw(data);
    assert WriteAt(v, cwd, s, data) == v[lcs := File(Raw(data))];
  }

  /** The entry loop's file branch once its directory and file exist: the entry's data is written. */
  lemma EntryWritten(t: Tree, cwd: Path, destDir: string, e: Entry, zip: bool, u: Tree, v: Tree)
    requires Admitted(destDir, e.name) && e.kind != DirKind && !(e.kind == OtherKind && !zip)
    requires MkdirAllAt(t, cwd, Dir(Target(destDir, e.name))) == Ok(u)
    requires CreateFileAt(u, cwd, Target(destDir, e.name)) == Ok(v)
    requires !(zip && e.fault == Unopenable) && e.fault != Corrupt
    ensures EntrySpec(t, cwd, destDir, e, zip) == (None, WriteAt(v, cwd, Target(destDir, e.name), e.data))
  {
  }

  lemma NewFileSteps(t: Tree, lcs: seq<string>)
    requires |lcs| >= 2
    requires IsDirAt(t, lcs[..|lcs| - 2]) && At(t, lcs[..|lcs| - 1]).None? && At(t, lcs).None?
    ensures MkdirAll(t, lcs[..|lcs| - 1]) == Ok(t[lcs[..|lcs| - 1] := Directory])
    ensures CreateFile(t[lcs[..|lcs| - 1] := Directory], lcs)
         == Ok(t[lcs[..|lcs| - 1] := Directory][lcs := File(Raw([]))])
  {
    var up := lcs[..|lcs| - 1];
    assert up[..|up| - 1] == lcs[..|lcs| - 2];
    assert MkdirAll(t, up[..|up| - 1]) == Ok(t);
    assert lcs != up;
  }

  // ---------------------------------------------------------------- where the pipeline writes

  /**
   * An entry admitted for the destination `dcs` lands strictly below the
   * destination's parent, so the entry loop changes nothing else.
   */
  lemma EntryConfined(t: Tree, cwd: Path, dcs: seq<string>, e: Entry, zip: bool)
    requires PlainPath(dcs) && |dcs| >= 1
    requires IsDirAt(t, dcs[..|dcs| - 1])
    ensures Confined(t, EntrySpec(t, cwd, Render(Loc(true, dcs)), e, zip).1, dcs[..|dcs| - 1])
  {
    var destDir := Render(Loc(true, dcs));
    var parent := dcs[..|dcs| - 1];
    if Admitted(destDir, e.name) {
      var target := Target(destDir, e.name);
      GuardConfines(cwd, dcs, e.name);
      LocateRender(cwd, dcs);
      JoinAbs(cwd, destDir, Clean(e.name));
      var loc := Locate(cwd, target);
      assert loc[..|parent|] == parent;
      if e.kind == DirKind {
        if MkdirAll(t, loc).Ok? {
          MkdirAllConfined(t, loc, parent);
        }
      } else if !(e.kind == OtherKind && !zip) {
        FileEntryConfined(t, cwd, destDir, e, zip, loc, parent);
      }
    }
  }

  /** The file branch of EntryConfined: the parent directories, the created file and its data all stay below `parent`. */
  lemma FileEntryConfined(t: Tree, cwd: Path, destDir: string, e: Entry, zip: bool, loc: Path, parent: Path)
    requires Admitted(destDir, e.name) && e.kind != DirKind && !(e.kind == OtherKind && !zip)
    requires loc == Locate(cwd, Target(destDir, e.name)) && PlainPath(loc) && |loc| >= 1
    requires Target(destDir, e.name) == Render(Loc(true, loc))
    requires |parent| < |loc| && loc[..|parent|] == parent && IsDirAt(t, parent)
    ensures Confined(t, EntrySpec(t, cwd, destDir, e, zip).1, parent)
  {
    var target := Target(destDir, e.name);
    var up := loc[..|loc| - 1];
    ResolveRendered(cwd, loc);
    assert up[..|parent|] == parent;
    var r := EntrySpec(t, cwd, destDir, e, zip);
    assert MkdirAllAt(t, cwd, Dir(target)) == MkdirAll(t, up);
    if MkdirAll(t, up).Err? {
      assert r.1 == t;
    } else {
      var u := MkdirAll(t, up).value;
      MkdirAllConfined(t, up, parent);
      assert CreateFileAt(u, cwd, target) == CreateFile(u, loc);
      if CreateFile(u, loc).Err? {
        assert r.1 == u;
      } else {
        var v := CreateFile(u, loc).value;
        CreateConfined(u, loc, parent);
        ConfinedTrans(t, u, v, parent);
        if (zip && e.fault == Unopenable) || e.fault == Corrupt {
          assert r.1 == v;
        } else {
          assert WriteAt(v, cwd, target, e.data) == Write(v, loc, e.data);
          assert r.1 == Write(v, loc, e.data);
          WriteConfined(v, loc, e.data, parent);
          ConfinedTrans(t, v, Write(v, loc, e.data), parent);
        }
      }
    }
  }

  /** Creating the file `p` strictly below `d` changes nothing outside `d`. */
  lemma CreateConfined(t: Tree, p: Path, d: Path)
    requires Below(p, d) && CreateFile(t, p).Ok?
    ensures Confined(t, CreateFile(t, p).value, d)
  {
    if CreateFile(t, p).value != t {
      UpdateConfined(t, p, File(Raw([])), d);
    }
  }


  lemma {:induction false} ExtractConfined(t: Tree, cwd: Path, dcs: seq<string>, es: seq<Entry>, zip: bool)
    requires PlainPath(dcs) && |dcs| >= 1
    requires IsDirAt(t, dcs[..|dcs| - 1])
    ensures Confined(t, ExtractSpec(t, cwd, Render(Loc(true, dcs)), es, zip).1, dcs[..|dcs| - 1])
    decreases |es|
  {
    var parent := dcs[..|dcs| - 1];
    if es != [] {
      EntryConfined(t, cwd, dcs, es[0], zip);
      var (err, u) := EntrySpec(t, cwd, Render(Loc(true, dcs)), es[0], zip);
      if err.None? {
        assert At(u, parent) == At(t, parent);
        ExtractConfined(u, cwd, dcs, es[1..], zip);
        ConfinedTrans(t, u, ExtractSpec(u, cwd, Render(Loc(true, dcs)), es[1..], zip).1, parent);
      }
    }
  }

  lemma StageConfined(t: Tree, cwd: Path, lib: Library, faults: set<Fault>, s: Stage, input: seq<Byte>, dcs: seq<string>)
    requires PlainPath(dcs) && |dcs| >= 1
    requires IsDirAt(t, dcs[..|dcs| - 1])
    ensures Confined(t, StageSpec(t, cwd, lib, faults, s, input, Render(Loc(true, dcs))).1, dcs[..|dcs| - 1])
  {
    var destDir := Render(Loc(true, dcs));
    match s
    case Untar =>
      ExtractConfined(t, cwd, dcs, lib.untar(input).entries, false);
    case Unzip =>
      if ZipTemp !in faults && lib.unzip(input).Some? {
        ExtractConfined(t, cwd, dcs, lib.unzip(input).value, true);
      }
    case _ =>
  }

  lemma {:induction false} ProcessConfined(t: Tree, cwd: Path, lib: Library, faults: set<Fault>, ctx: Context, k: nat,
                                           input: seq<Byte>, dcs: seq<string>, stages: seq<Stage>)
    requires PlainPath(dcs) && |dcs| >= 1
    requires IsDirAt(t, dcs[..|dcs| - 1])
    ensures Confined(t, ProcessSpec(t, cwd, lib, faults, ctx, k, input, Render(Loc(true, dcs)), stages).1, dcs[..|dcs| - 1])
    decreases |stages|
  {
    var parent := dcs[..|dcs| - 1];
    var destDir := Render(Loc(true, dcs));
    if stages != [] && !Cancelled(ctx, k) {
      StageConfined(t, cwd, lib, faults, stages[0], input, dcs);
      var (r, u) := StageSpec(t, cwd, lib, faults, stages[0], input, destDir);
      if r.Ok? && r.value.Some? {
        assert At(u, parent) == At(t, parent);
        ProcessConfined(u, cwd, lib, faults, ctx, k + 1, r.value.value, dcs, stages[1..]);
        ConfinedTrans(t, u, ProcessSpec(u, cwd, lib, faults, ctx, k + 1, r.value.value, destDir, stages[1..]).1, parent);
      }
    }
  }

  /** Where writePluginFiles puts things for a plain Name under the absolute directory D. */
  lemma PluginPaths(cwd: Path, d: seq<string>, name: string, fileName: string)
    requires PlainPath(d) && Plain(name)
    ensures Resolve(cwd, Join(Render(Loc(true, d)), name)) == Ok(d + [name])
    ensures Join(Render(Loc(true, d)), name) == Render(Loc(true, d + [name]))
    ensures Plain(fileName) ==> Resolve(cwd, Join(Join(Render(Loc(true, d)), name), fileName)) == Ok(d + [name, fileName])
    ensures fileName == "" ==> Resolve(cwd, Join(Join(Render(Loc(true, d)), name), fileName)) == Ok(d + [name])
  {
    var dir := Render(Loc(true, d));
    LocateRender(cwd, d);
    LocateJoin(cwd, dir, name);
    JoinShape(cwd, dir, name);
    var pluginDir := Join(dir, name);
    if Plain(fileName) {
      LocateJoin(cwd, pluginDir, fileName);
      assert d + [name] + [fileName] == d + [name, fileName];
      JoinAbs(cwd, pluginDir, fileName);
    }
    if fileName == "" {
      LocateJoinEmpty(cwd, pluginDir);
      JoinAbs(cwd, pluginDir, fileName);
    }
  }

  /**
   * Given a plain Name and FileName (or none), writePluginFiles into the
   * directory D changes nothing outside D: the bin file, the plugin directory
   * and every admitted archive entry lie strictly below D.
   */
  lemma FilesConfined(t: Tree, cwd: Path, lib: Library, faults: set<Fault>, ctx: Context, k: nat, d: seq<string>, info: Info)
    requires PlainPath(d) && IsDirAt(t, d)
    requires Plain(info.name) && (Plain(info.fileName) || info.fileName == "")
    ensures Confined(t, WriteSpec(t, cwd, lib, faults, ctx, k, Render(Loc(true, d)), info).1, d)
  {
    var dir := Render(Loc(true, d));
    var pluginDir := Join(dir, info.name);
    var binPath := Join(pluginDir, info.fileName);
    PluginPaths(cwd, d, info.name, info.fileName);
    var sub := d + [info.name];
    assert sub[..|d|] == d && sub[..|sub| - 1] == d;
    var bin := Resolve(cwd, binPath).value;
    assert Below(bin, d) by {
      if Plain(info.fileName) {
        assert (d + [info.name, info.fileName])[..|d|] == d;
      }
    }
    var res := WriteSpec(t, cwd, lib, faults, ctx, k, dir, info);
    assert MkdirAllAt(t, cwd, pluginDir) == MkdirAll(t, sub);
    var made := Try(PluginDirCreate in faults, MkdirAll(t, sub));
    if made.Err? {
      assert res.1 == t;
    } else {
      var t1 := made.value;
      MkdirAllConfined(t, sub, d);
      var prep := Prepare(info.content, lib.sniff);
      if prep.Err? {
        assert res.1 == t1;
      } else {
        var p := prep.value;
        assert CreateFileAt(t1, cwd, binPath) == CreateFile(t1, bin);
        var created := Try(BinCreate in faults, CreateFile(t1, bin));
        if created.Err? {
          assert res.1 == t1;
        } else {
          var t2 := created.value;
          CreateConfined(t1, bin, d);
          ConfinedTrans(t, t1, t2, d);
          if p.contentType !in Processors {
            assert WriteAt(t2, cwd, binPath, p.stream) == Write(t2, bin, p.stream);
            assert res.1 == t2 || res.1 == Write(t2, bin, p.stream);
            WriteConfined(t2, bin, p.stream, d);
            ConfinedTrans(t, t2, Write(t2, bin, p.stream), d);
          } else {
            var (r, t3) := ProcessSpec(t2, cwd, lib, faults, ctx, k, p.stream, pluginDir, Processors[p.contentType]);
            ProcessConfined(t2, cwd, lib, faults, ctx, k, p.stream, sub, Processors[p.contentType]);
            ConfinedTrans(t, t2, t3, d);
            if r.Ok? && r.value.Some? {
              assert WriteAt(t3, cwd, binPath, r.value.value) == Write(t3, bin, r.value.value);
              assert res.1 == t3 || res.1 == Write(t3, bin, r.value.value);
              WriteConfined(t3, bin, r.value.value, d);
              ConfinedTrans(t, t3, Write(t3, bin, r.value.value), d);
            } else {
              assert res.1 == t3;
            }
          }
        }
      }
    }
  }

  /**
   * Content whose sniffed type is in the table never installs: the chain ends
   * in tar or zip extraction, and the copy from the nil reader that follows is
   * the panic NilReader, if nothing failed before.
   */
  lemma ArchiveNeverInstalls(t: Tree, cwd: Path, lib: Library, faults: set<Fault>, ctx: Context, k: nat, dir: string, info: Info)
    requires Prepare(info.content, lib.sniff).Ok? && Prepare(info.content, lib.sniff).value.contentType in Processors
    ensures WriteSpec(t, cwd, lib, faults, ctx, k, dir, info).0.Err?
    ensures WriteSpec(t, cwd, lib, faults, ctx, k, dir, info).0.error in
              {NilReader, PluginDirFailed(Denied), PluginDirFailed(NotDir), PluginDirFailed(NotExist)}
            || WriteSpec(t, cwd, lib, faults, ctx, k, dir, info).0.error.BinCreateFailed?
            || WriteSpec(t, cwd, lib, faults, ctx, k, dir, info).0.error.ProcessFailed?
  {
    var p := Prepare(info.content, lib.sniff).value;
    var chain := Processors[p.contentType];
    ProcessorChains(p.contentType);
    var pluginDir := Join(dir, info.name);
    var mk := Try(PluginDirCreate in faults, MkdirAllAt(t, cwd, pluginDir));
    if mk.Err? {
      if PluginDirCreate !in faults && Resolve(cwd, pluginDir).Ok? {
        MkdirAllErr(t, Resolve(cwd, pluginDir).value);
      }
    } else {
      var t1 := mk.value;
      var cr := Try(BinCreate in faults, CreateFileAt(t1, cwd, Join(pluginDir, info.fileName)));
      if cr.Ok? {
        ChainYieldsNothing(cr.value, cwd, lib, faults, ctx, k, p.stream, pluginDir, chain, |chain| - 1);
      }
    }
  }

  /**
   * The content's bytes reach the bin file unchanged: a reader that cannot seek
   * is read again in full. The type is sniffed from at most 512 bytes; for a
   * reader, from what its single first Read returned.
   */
  lemma PrepareKeepsBytes(c: Content, sniff: seq<Byte> -> string)
    ensures c.Text? ==> Prepare(c, sniff) == Ok(Prepared(sniff(Head(c.text)), c.text, c))
    ensures c.Blob? ==> Prepare(c, sniff) == Ok(Prepared(sniff(Head(c.bytes)), c.bytes, c))
    ensures c.Stream? && !c.reader.readFails && !(c.reader.seekable && c.reader.seekFails) ==>
              Prepare(c, sniff).Ok? && Prepare(c, sniff).value.stream == c.reader.data
    ensures c.Stream? && c.reader.readFails ==> Prepare(c, sniff) == Err(SniffReadFailed)
    ensures c.Stream? && !c.reader.readFails && c.reader.seekable && c.reader.seekFails ==> Prepare(c, sniff) == Err(SeekFailed)
    ensures (c.Unsupported? || c.Absent?) ==> Prepare(c, sniff) == Err(UnsupportedContent)
    ensures c.Stream? && Prepare(c, sniff).Ok? ==>
              Prepare(c, sniff).value.contentType ==
                sniff(c.reader.data[..Min(Min(c.reader.firstRead, 512), |c.reader.data|)])
  {
  }

  /**
   * Content of a type outside the table, with no failure injected, lands
   * byte for byte in a new file <D>/<Name>/<FileName>.
   */
  lemma RawContentInstalled(t: Tree, cwd: Path, lib: Library, faults: set<Fault>, ctx: Context, k: nat, d: seq<string>, info: Info)
    requires PlainPath(d) && IsDirAt(t, d) && Plain(info.name) && Plain(info.fileName)
    requires !IsFileAt(t, d + [info.name]) && At(t, d + [info.name, info.fileName]).None?
    requires Prepare(info.content, lib.sniff).Ok? && Prepare(info.content, lib.sniff).value.contentType !in Processors
    requires PluginDirCreate !in faults && BinCreate !in faults && BinWrite !in faults
    ensures WriteSpec(t, cwd, lib, faults, ctx, k, Render(Loc(true, d)), info).0
         == Ok(info.(content := Prepare(info.content, lib.sniff).value.content))
    ensures ReadFile(WriteSpec(t, cwd, lib, faults, ctx, k, Render(Loc(true, d)), info).1, d + [info.name, info.fileName])
         == Ok(Raw(Prepare(info.content, lib.sniff).value.stream))
  {
    var p := Prepare(info.content, lib.sniff).value;
    var sub := d + [info.name];
    var bin := d + [info.name, info.fileName];
    PluginPaths(cwd, d, info.name, info.fileName);
    assert sub[..|sub| - 1] == d && sub != [];
    assert bin[..|bin| - 1] == sub && bin != sub && bin != [];
    var t1 := if sub in t then t else t[sub := Directory];
    assert MkdirAll(t, sub) == Ok(t1);
    assert At(t1, bin).None? && IsDirAt(t1, sub);
    var t2 := t1[bin := File(Raw([]))];
    assert CreateFile(t1, bin) == Ok(t2);
  }

  /**
   * A record without a FileName (the GitHub store sets none) names the plugin
   * directory itself as the bin file, which OpenFile refuses.
   */
  lemma EmptyFileNameFails(t: Tree, cwd: Path, lib: Library, faults: set<Fault>, ctx: Context, k: nat, d: seq<string>, info: Info)
    requires PlainPath(d) && IsDirAt(t, d) && Plain(info.name) && info.fileName == ""
    requires !IsFileAt(t, d + [info.name])
    requires Prepare(info.content, lib.sniff).Ok?
    requires PluginDirCreate !in faults && BinCreate !in faults
    ensures WriteSpec(t, cwd, lib, faults, ctx, k, Render(Loc(true, d)), info).0 == Err(BinCreateFailed(IsDir))
  {
    var sub := d + [info.name];
    PluginPaths(cwd, d, info.name, info.fileName);
    assert sub[..|sub| - 1] == d && sub != [];
    var t1 := if sub in t then t else t[sub := Directory];
    assert MkdirAll(t, sub) == Ok(t1);
  }

  /** writePluginFiles changes nothing of the record but its Content. */
  lemma WriteKeepsRecord(t: Tree, cwd: Path, lib: Library, faults: set<Fault>, ctx: Context, k: nat, dir: string, info: Info)
    requires WriteSpec(t, cwd, lib, faults, ctx, k, dir, info).0.Ok?
    ensures WriteSpec(t, cwd, lib, faults, ctx, k, dir, info).0.value.(content := info.content) == info
  {
  }
}

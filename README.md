# Plugin manager: asset selection and the plugin lifecycle

This project models the core of a plugin system. It covers two parts.

**Asset selection** (`asset.go`):
- `FindAsset` picks the release asset to download for a plugin. It first keeps the assets whose names belong to the plugin. It then tries three name patterns, from the most to the least specific, each with six extensions in a fixed order. The first hit wins, and its runtime is "wasm" when the extension mentions wasm.
- `Filter` keeps the asset names of a release that match the store's naming scheme. A name matches when it is a base pattern or a per-platform pattern followed by one of the allowed extensions.

**The plugin lifecycle** (`manager.go`):
- The `Manager` installs plugins into `<pluginDir>/<name>`, removes them, enables and disables them, lists them, searches a store and upgrades them in place.
- Each plugin directory holds a `metadata.json` record and the plugin's files. `writePluginFiles` writes the files. It sniffs the content's type. Plain content is copied into the bin file. Compressed content runs through the stage chain of `fileProcessorMap`, and an archive stage extracts each entry under the plugin's directory after a path check.

The file system is modelled as a map from component paths to nodes (`Disk`). Go's `filepath.Clean` and `filepath.Join` are modelled on strings (`Paths`). Each imperative operation is a method of the `Manager` class, or of the `Disk` class it owns, and each is proved equal to a specification function. The lemmas about those functions state what the operations promise.

Files:
- `strings.dfy`: prefixes and the lexicographic order.
- `outcomes.dfy`: `Option` and `Result`.
- `paths.dfy`: Clean and Join.
- `plugin.dfy`: Info, content, store and context.
- `disk.dfy`: the file tree, the os calls, and the `Disk` class.
- `asset.dfy`: FindAsset and Filter.
- `pipeline.dfy`: writePluginFiles, processFile and the extractors.
- `manager.dfy`: the `Manager` and its operations.

Some failures the tree cannot explain are chosen by the caller through a `faults` set, one element per call site that can fail this way. Examples are a full disk and a failed rename. The calls without such an element are listed under "Left out". Cancellation is a `Context` that reports whether its k-th check sees the context cancelled.

## Model

| member | source | states |
|---|---|---|
| Asset.FindAsset | asset.go:11-74 | the loop over patterns and extensions returns exactly the specified choice (no valid assets, first hit, or no match) |
| Asset.SearchCandidates | asset.go:56-73 | the loop over the patterns returns the first hit of the first pattern that has one, or none, as SearchPatterns states |
| Asset.SearchPattern | asset.go:57-71 | the loops over the extensions and the valid assets return the first extension, in list order, whose name is a valid asset, with its runtime, as SearchExtensions states |
| Asset.ValidAssetsIff | asset.go:24-36 | an asset survives the first filter iff it is in the input, starts with the plugin name, and ends in none of ".sha256", ".asc" and ".sig" |
| Asset.SearchExtensionsFirst | asset.go:55-71 | for one pattern, the result is the first extension in list order whose name is a valid asset, with its runtime; none means no extension hits |
| Asset.SearchPatternsFirst | asset.go:45-71 | over the remaining patterns, the result is the first of the candidate names, pattern-major then extension order, that is a valid asset |
| Asset.FindAssetKeepsFilter | asset.go:24-36 | a chosen asset is one of the input assets and passed the name filter |
| Asset.FindAssetNoCandidates | asset.go:40-42 | the "no valid assets" error occurs iff no input asset passes the name filter |
| Asset.FindAssetFirstHit | asset.go:45-71 | a success is some candidate k of the 18, with runtime from its extension, and no earlier candidate is a valid asset |
| Asset.FindAssetNoMatch | asset.go:73 | the "no matching asset" error occurs iff valid assets exist but none of the 18 candidates is among them |
| Asset.FindAssetAt | asset.go:56-71 | conversely, if candidate k is the first valid one, FindAsset returns it |
| Asset.RuntimeWasmIff | asset.go:62-65 | among the six extensions, the runtime is "wasm" exactly for ".wasm" |
| Asset.ValidAssetsAllKept | asset.go:24-36 | the first filter drops nothing when every asset belongs to the plugin |
| Asset.ExamplePlatformTarball | asset.go:11-74 | with a platform tarball, a version zip and a bare binary, the platform tarball is chosen with runtime "exec" |
| Asset.ExampleWasmOnly | asset.go:11-74 | a lone "tool.wasm" is chosen with runtime "wasm" |
| Asset.BuildPatterns | asset.go:94-104 | the built list is the two base patterns followed by one pattern per OS and architecture, OS-major |
| Asset.AcceptedNames | asset.go:107-115 | the accepted names are exactly every pattern concatenated with every extension of every class |
| Asset.Filter | asset.go:77-128 | the result is the input names, in input order and with repeats, that are accepted names |
| Asset.SelectMember | asset.go:119-127 | a name is in Filter's result iff it is in the input and accepted |
| Asset.SelectCount | asset.go:119-127 | each accepted name occurs in the result as often as in the input, and others never |
| Asset.SelectAppend | asset.go:119-127 | filtering distributes over concatenation, so order is kept |
| Asset.ClassExtensionsValue | asset.go:87-91 | the allowed extensions are exactly the nine listed ones, including "" |
| Asset.CombineUnionRight | asset.go:107-115 | adding an extension class adds exactly its names |
| Asset.FilterPatternsPrefix | asset.go:94-104 | every one of the 14 patterns starts with "<prefix>-<name>" |
| Asset.AllowedNamesPrefix | asset.go:77-128 | every accepted name starts with "<prefix>-<name>" |
| Asset.FilterRejectsFindAssetName | asset.go:77-128 | Filter rejects the "<name>-<version>-linux-amd64.tar.gz" name that FindAsset prefers whenever it does not begin with "<prefix>-<name>", so the two schemes disagree |
| Asset.FilterAcceptsPlatformTarball | asset.go:94-115 | Filter accepts "<prefix>-<name>-v<version>-linux-amd64.tar.gz" |
| Strings.LexTotal | manager.go:236 | the name order of os.ReadDir is total |
| Strings.LexAntisymmetric | manager.go:236 | the name order of os.ReadDir is antisymmetric |
| Strings.LexTransitive | manager.go:236 | the name order of os.ReadDir is transitive |
| Disk.SortedNames | manager.go:236 | the names os.ReadDir yields are ascending, each child once, and exactly the directory's children |
| Disk.LeastUnique | manager.go:236 | the least name of a set is unique |
| Disk.MkdirAllOk | manager.go:85-87 | a successful MkdirAll leaves the path a directory, keeps every existing entry and adds only directories above or at the path |
| Disk.MkdirAllErr | manager.go:85-87 | MkdirAll fails only with not-a-directory, only when a regular file lies at or on the way to the path, and always succeeds otherwise |
| Disk.MkdirAllMade | manager.go:85-87 | with no file at or on the way, MkdirAll leaves the path a reachable directory and adds directories only at the path and its ancestors, where nothing was |
| Disk.MkdirAllBlocked | manager.go:85-87 | on a file system with no entry below a file, MkdirAll through a regular file fails with not-a-directory |
| Disk.RemoveAllSpec | manager.go:144-146 | RemoveAll removes exactly the entries at or below the path |
| Disk.MoveSwap | manager.go:376-388 | after moving live to backup, staging to live and removing the backup, the live path holds what staging held and nothing else changed |
| Disk.RenameMoves | manager.go:376-383 | a rename onto a missing path whose parent is a directory succeeds and moves the subtree |
| Disk.RenameMoved | manager.go:376-383 | a successful rename between two different paths moved an existing subtree |
| Disk.RemoveAllRendered | manager.go:144-146 | os.RemoveAll of an absolute path fails with EBUSY at the root and with ENOTDIR when a file stands on the way; otherwise it removes the subtree |
| Paths.CleanIdempotent | manager.go:541-548 | Clean is idempotent |
| Paths.CleanRender | manager.go:541-548 | a normal path is the Clean of its own rendering |
| Paths.JoinParent | manager.go:65 | joining ".." to an absolute directory gives its parent |
| Paths.LocateJoin3 | manager.go:250 | the metadata path of an entry is the plugin directory, the entry name and "metadata.json" |
| Paths.GuardConfines | manager.go:545-548 | a target that passes the prefix check lies under the destination, or under a sibling whose name extends the destination's last component |
| Paths.GuardAcceptsInside | manager.go:545-548 | every entry name of plain components passes the check and lands under the destination |
| Paths.GuardRejectsTraversal | manager.go:545-548 | "../../etc/passwd" under /plugins/tool/tool resolves to /plugins/etc/passwd and is rejected |
| Paths.GuardAcceptsSibling | manager.go:545-548 | "../toolbox/x" under /plugins/tool passes the check although it lands outside the destination |
| Pipeline.ExtractArchive | manager.go:531-576 | the entry loop of extractTar and extractZip writes entries in order and stops at the first error, as ExtractSpec states |
| Pipeline.ExtractEntry | manager.go:543-575 | one entry is rejected by the path check, or its directory is made, or its parent is made, the file created and the data copied; each failure is reported, as EntrySpec states |
| Pipeline.RunStage | manager.go:521-697 | one fileProcessor returns a new stream, or the nil reader after extracting, as StageSpec states |
| Pipeline.ProcessFile | manager.go:711-732 | the chain checks the context before each stage, stops at an error or a nil reader, and otherwise feeds each output on |
| Pipeline.WritePluginFiles | manager.go:418-518 | the plugin directory and the bin file are created before processing, and raw content is copied, as WriteSpec states |
| Pipeline.ProcessorChains | manager.go:701-709 | every chain ends in tar or zip extraction and has no terminal stage before that; zip alone is a single stage, and the others are decoder then tar |
| Pipeline.TerminalYieldsNothing | manager.go:531-647 | a successful tar or zip stage returns no stream |
| Pipeline.ChainYieldsNothing | manager.go:711-732 | a chain containing a terminal stage never returns a stream |
| Pipeline.ProcessAppend | manager.go:711-732 | running stages xs then ys is running xs and, if it yields a stream, running ys on it |
| Pipeline.CancelledStops | manager.go:715-717 | cancellation before stage j means no stream and no file-system effect past stage j |
| Pipeline.ExtractAppend | manager.go:543-575 | extracting xs then ys is extracting xs and, if no error, ys |
| Pipeline.RejectedEntryAborts | manager.go:545-548 | an entry that fails the check stops extraction with InvalidPath and nothing written for it or after it |
| Pipeline.TraversalEntryAborts | manager.go:545-548 | a "../../etc/passwd" entry aborts extraction with InvalidPath |
| Pipeline.SiblingEntryEscapes | manager.go:545-566 | a "../toolbox/x" entry is written to /plugins/toolbox/x, outside the destination |
| Pipeline.EntryConfined | manager.go:543-575 | one entry changes nothing outside the destination's parent |
| Pipeline.ExtractConfined | manager.go:531-647 | extraction changes nothing outside the destination's parent |
| Pipeline.StageConfined | manager.go:521-697 | a stage changes nothing outside the destination's parent |
| Pipeline.ProcessConfined | manager.go:711-732 | processFile changes nothing outside the destination's parent |
| Pipeline.PluginPaths | manager.go:421-485 | the plugin directory is <dir>/<name> and the bin file is <dir>/<name>/<fileName>, or the directory itself when fileName is "" |
| Pipeline.FilesConfined | manager.go:418-518 | writePluginFiles changes nothing outside the directory it is given |
| Pipeline.ArchiveNeverInstalls | manager.go:489-513 | content of a type in the processor table always fails: with the nil-reader panic, or an earlier creation or processing error |
| Pipeline.PrepareKeepsBytes | manager.go:428-478 | the type is sniffed from the first 512 bytes of a string or []byte, and from what one Read of at most 512 bytes returned for an io.Reader; the bin file receives the content's bytes unchanged; read and seek failures are reported |
| Pipeline.RawContentInstalled | manager.go:489-498 | content of an unlisted type succeeds without faults and the bin file holds exactly its bytes |
| Pipeline.EmptyFileNameFails | manager.go:480-485 | an empty FileName makes creating the bin file fail with is-a-directory |
| Pipeline.WriteKeepsRecord | manager.go:418-518 | on success writePluginFiles changes nothing in Info but its content |
| Lifecycle.Manager.constructor | manager.go:38-44 | a new manager holds the given plugin directory, store and disk |
| Lifecycle.Manager.Install | manager.go:47-126 | Install's outcome and new tree are as InstallSpec states |
| Lifecycle.Manager.InstallFiles | manager.go:85-121 | the steps after the directory check are as InstallSteps states |
| Lifecycle.Manager.Deploy | manager.go:99-121 | write the files, then save the stamped record, as DeploySpec states |
| Lifecycle.Manager.Uninstall | manager.go:129-149 | Uninstall's outcome and new tree are as UninstallSpec states |
| Lifecycle.Manager.Enable | manager.go:152-186 | Enable is SetStatus with "enabled" |
| Lifecycle.Manager.Disable | manager.go:189-223 | Disable is SetStatus with "disabled" |
| Lifecycle.Manager.SetStatus | manager.go:152-186 | read the record, set its status and save it, as SetStatusSpec states |
| Lifecycle.Manager.ReadRecord | manager.go:403-415 | readMetadata is the record at the path, an unreadable-file error, or a parse error |
| Lifecycle.Manager.Fetch | manager.go:393-400 | Fetch reads <pluginDir>/<name>/metadata.json and changes nothing |
| Lifecycle.Manager.List | manager.go:226-270 | List returns ListSpec and changes nothing |
| Lifecycle.Manager.Listing | manager.go:226-270 | the listing loop over the directory entries equals Collect |
| Lifecycle.Manager.Search | manager.go:273-310 | Search returns SearchSpec and changes nothing |
| Lifecycle.Manager.Upgrade | manager.go:312-391 | Upgrade's outcome and new tree are as UpgradeSpec states |
| Lifecycle.Manager.UpgradeFiles | manager.go:338-388 | stage, then swap, as UpgradeSteps states |
| Lifecycle.Manager.StageUpgrade | manager.go:341-373 | fetch, write and save the stamped record in .upgrade, as StagingSpec states |
| Lifecycle.Manager.Swap | manager.go:376-388 | the three renames and the backup removal, as SwapSpec states |
| Lifecycle.Layout | manager.go:65 | an absolute plugin directory and a plain name give the paths <dir>/<name> and <dir>/<name>/metadata.json |
| Lifecycle.SuffixLayout | manager.go:338-379 | the .upgrade and .backup paths are siblings of the plugin directory |
| Lifecycle.DeployInside | manager.go:99-121 | writing a plugin changes nothing outside its directory and, on success, leaves the stamped record in metadata.json |
| Lifecycle.InstallStepsInside | manager.go:85-121 | nothing outside <pluginDir>/<name> changes; on success the directory exists and holds the record for the fetched plugin |
| Lifecycle.BuildInside | manager.go:85-121 | the building steps shared by Install and the staging of Upgrade change nothing outside the directory they build and, on success, leave it a directory holding the stamped record |
| Lifecycle.InstallRefusesExisting | manager.go:68-72 | when something is at <pluginDir>/<name>, Install reports already-installed and changes nothing |
| Lifecycle.InstallUnfold | manager.go:74-126 | once the checks pass, Install runs its steps and, on failure, the deferred RemoveAll takes <pluginDir>/<name> away unless a file stands on the way, when its ENOTDIR is ignored |
| Lifecycle.InstallFailureUndone | manager.go:74-87 | a failed Install into a vacant name leaves the tree as it was, except for the directories MkdirAll made at and above a missing plugin directory; exactly as it was when the plugin directory existed (the deferred RemoveAll) |
| Lifecycle.FirstInstall | manager.go:84-87 | where the plugin directory is missing, MkdirAll creates it: a file in its place or a fault fails Install before anything is made, and otherwise Install runs as it would once MkdirAll had made the plugin directory |
| Lifecycle.InstallBlocked | manager.go:84-87 | with a regular file on the way to the plugin directory, Install fails with ENOTDIR (or the injected fault) and changes nothing |
| Lifecycle.MadeVacant | manager.go:84-87 | creating the plugin directory adds nothing at or below <pluginDir>/<name>, and leaves the plugin directory reachable |
| Lifecycle.InstallRecorded | manager.go:47-126 | after a successful Install, also a first one that creates the plugin directory, Fetch returns the fetched Info with the requested version, status "enabled" and metadata {installed: now}; outside <pluginDir>/<name> only directories MkdirAll made where nothing was are added, and nothing changes when the plugin directory existed |
| Lifecycle.InstallThenUninstall | manager.go:47-149 | Uninstall after a successful Install into a vacant name succeeds and restores the original tree, except for the plugin directory and its ancestors if Install created them |
| Lifecycle.UninstallRemoves | manager.go:129-149 | Uninstall succeeds iff something is at the path and no file stands on the way, and then removes exactly the subtree; a file on the way fails RemoveAll with ENOTDIR, a missing entry is not-found, and neither changes anything |
| Lifecycle.UninstallParent | manager.go:137-146 | Uninstall("..") removes the parent of the plugin directory; when that parent is the root, RemoveAll fails with EBUSY, and through a file with ENOTDIR |
| Lifecycle.SetStatusRecorded | manager.go:152-223 | a successful call rewrites the record with only its status changed, nothing else changes, and Fetch returns it |
| Lifecycle.SetStatusFailureKeeps | manager.go:152-223 | a failed Enable or Disable leaves the file system as it was |
| Lifecycle.SetStatusNeedsRecord | manager.go:165-172 | an unreadable metadata.json fails Enable and Disable with the read's error, and one that is not a record with a parse error, changing nothing |
| Lifecycle.SetStatusIdempotent | manager.go:152-223 | setting the same status twice changes nothing the second time |
| Lifecycle.SetStatusUndone | manager.go:152-223 | disabling then re-enabling (or the reverse) restores the tree |
| Lifecycle.CollectSound | manager.go:245-267 | every listed record is the metadata of some directory entry, and there are no more records than entries |
| Lifecycle.CollectComplete | manager.go:245-267 | every directory entry with readable metadata is listed, and any other metadata error fails the listing |
| Lifecycle.ListEntry | manager.go:245-267 | an entry of the plugin directory is a plain child of it |
| Lifecycle.MetadataRecord | manager.go:403-415 | readMetadata returns x iff the file the path names holds x's record, stated for the path string and for its resolved components |
| Lifecycle.ListSound | manager.go:226-270 | every plugin List returns is the record in some plugin's metadata.json |
| Lifecycle.ListComplete | manager.go:226-270 | every plugin with a record in its metadata.json is listed when List succeeds |
| Lifecycle.ListAllOrNothing | manager.go:245-267 | when List succeeds, every plugin directory has a record or no metadata file |
| Lifecycle.ListMissing | manager.go:236-243 | a missing plugin directory lists as empty; a file in its place is a read error |
| Lifecycle.VersionsDomain | manager.go:294-297 | the installed map holds exactly the listed names |
| Lifecycle.VersionsLast | manager.go:294-297 | for a repeated name the installed map keeps the last listed version |
| Lifecycle.SearchMarked | manager.go:273-310 | Search succeeds iff not cancelled and both the store search and List succeed; each result differs from the store's plugin only in status "installed" or "available" and, if installed, metadata installed_version |
| Lifecycle.SiblingNames | manager.go:338-379 | the live, .upgrade and .backup names are pairwise distinct |
| Lifecycle.StagingInside | manager.go:341-373 | staging changes nothing outside .upgrade and, on success, .upgrade holds the new record |
| Lifecycle.SwapFails | manager.go:376-385 | a failed swap whose restore succeeds changes nothing outside .backup |
| Lifecycle.SwapRefusesBackup | manager.go:375-379 | while a directory sits at .backup, the first rename fails with EEXIST (or the source's own error, or an injected fault) and nothing changes |
| Lifecycle.SwapSucceeds | manager.go:376-388 | a successful swap puts the staged tree at the live path and removes the backup, unless a file stands on the way to it |
| Lifecycle.SwapMoves | manager.go:376-388 | a successful swap is the move of the live directory to .backup, the move of .upgrade to the live path, and the removal of .backup whose error is ignored |
| Lifecycle.SwapStrands | manager.go:381-385 | if the restore rename fails, the live path is empty and the old plugin sits at .backup |
| Lifecycle.SwapOutside | manager.go:376-388 | the swap changes nothing outside the three sibling paths |
| Lifecycle.UpgradeUnfold | manager.go:312-391 | Upgrade fails without changes when cancelled, not installed, unreadable or already at the version, and otherwise runs the steps and removes .upgrade, ignoring RemoveAll's error |
| Lifecycle.UpgradeRefused | manager.go:316-336 | when a check fails, Upgrade reports cancellation, not installed, a metadata error or already at the version, and changes nothing |
| Lifecycle.UpgradeProceeds | manager.go:338-391 | when the checks pass, Upgrade runs the staging and the swap, then the deferred RemoveAll of .upgrade, whose error is ignored |
| Lifecycle.StagingErrors | manager.go:341-373 | staging fails only with directory, fetch, write, panic, marshal or save errors |
| Lifecycle.UpgradeOutside | manager.go:312-391 | Upgrade changes nothing outside the live, .upgrade and .backup paths |
| Lifecycle.SwappedRecord | manager.go:376-388 | the record staged in .upgrade is read at the live path after the swap |
| Lifecycle.UpgradeSucceeded | manager.go:312-391 | a successful Upgrade checked its preconditions, staged successfully, and swapped |
| Lifecycle.UpgradeRecorded | manager.go:312-391 | after a successful Upgrade, Fetch returns the new Info with the new version, the old status and metadata {installed, upgraded_from, previous_install}, and neither .upgrade nor .backup remains |
| Lifecycle.UpgradeRefusesBackup | manager.go:312-391 | no Upgrade succeeds while a directory sits at .backup |
| Lifecycle.UpgradeFailureKeeps | manager.go:376-388 | a failed Upgrade whose restore succeeds leaves the live plugin as it was |
| Lifecycle.UpgradeSwapFailed | manager.go:376-385 | a swap failure comes after successful staging, and the deferred RemoveAll of .upgrade follows, its error ignored |
| Lifecycle.UpgradeStrands | manager.go:381-385 | if the restore rename fails, the plugin is gone from the live path and survives only at .backup |
| Lifecycle.StrandedCleanup | manager.go:339-385 | removing .upgrade after a stranded swap leaves nothing at the live path and the old plugin at .backup |

## Left out

- The mutex and read lock: the model is sequential.
- The logger passed to NewManager and every log line.
- The store's Fetch and Search, the content sniffer, the decoders and the tar and zip readers are oracles, given as function parameters.
- JSON encoding is partly modelled. Marshalling fails only for content the encoder cannot handle. The model drops the content field when it stores a record. Go writes a non-empty content (`json:"content,omitempty"`), and reading it back gives a generic JSON value, which is not modelled.
- A metadata.json that the model did not write is unparseable. Valid JSON written by other means is not modelled.
- Time: the install time is a parameter `now`.
- Cancellation is a context whose k-th check is given. Timers and deadlines are not modelled.
- Partial writes: a failed write or copy leaves the file as created, empty, not partly filled.
- The seek position of a seekable reader after type detection is taken to be the start.
- Symbolic links, file modes and permissions: a permission failure appears only as an injected fault, at the call sites the `Fault` datatype names.
- Calls without an injected fault fail only as the tree dictates: os.RemoveAll (manager.go:78, 144, 339, 388), os.ReadFile and os.ReadDir, os.Stat, and the extractors' MkdirAll and OpenFile.
- Disk.RemoveAllAt: for the root, Go deletes what it can below it before failing with EBUSY. The model reports EBUSY and changes nothing.
- Disk.Rename: a rename into the source's own subtree is EINVAL even when the source is a file, where rename(2) reports ENOTDIR. The Manager never renames into a subtree.
- Trees are maps and may hold an entry below a file, which no file system can (`Proper` names the trees that do not). The Upgrade lemmas that follow RemoveAll require the plugin directory to be `Reachable` (a directory with no file on the way); an installed plugin's directory always is on a real file system.
- Lifecycle.InstallFailureUndone: requires no file on the way to the plugin directory (`!Blocked`), though the directory itself may be missing. A file on the way makes Install fail without change (Lifecycle.InstallBlocked). A missing plugin directory is created by Install's MkdirAll and stays behind after a failed Install, so the tree is restored only up to the directories MkdirAll made.
- Lifecycle.InstallThenUninstall: requires no file on the way to the plugin directory, for the same reason; a plugin directory that Install created stays behind after Uninstall.
- Lifecycle.InstallRecorded: requires the plugin directory to exist or no file to be on the way to it, for the same reason.
- extractZip's temporary copy (os.CreateTemp("", "plugin-*.zip") in the system temporary directory, removed by a deferred os.Remove) is not in the tree. Its three failures (CreateTemp, io.Copy into it, its Stat) are the one injected fault `ZipTemp`, reported as `TempFileFailed`. Pipeline.FilesConfined speaks of the tree only, so it says nothing about that file outside the plugin directory.
- extractZstd is unreachable from fileProcessorMap and is not modelled. The nil checks on the bzip2, lz4 and brotli readers can never fire and are not modelled.
- Asset.FindAsset: filepath.Match is modelled only for patterns without the metacharacters `*`, `?`, `[` and `\`, where it is equality. The method therefore requires the name, version, OS and architecture to be free of them. Asset.SearchCandidates and Asset.SearchPattern carry the same requirement.
- Search: writing installed_version into an available plugin's nil Metadata map panics in Go. The model treats that map as present.
- Lifecycle lemmas require an absolute plugin directory and plugin and file names of one plain component (`Rooted`, `FetchedPlain`). The operations themselves take any strings. UninstallParent is the exception and covers "..".
- Pipeline lemmas on confinement cover names that are plain after Clean. GuardConfines covers every name.
- Findings are not claimed. The sibling-prefix gap of the path check and an Upgrade whose restore fails are modelled as written and exhibited by Pipeline.SiblingEntryEscapes and Lifecycle.UpgradeStrands.

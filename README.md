# build-box target engine, modelled in Dafny

build-box creates and manages *targets*: root filesystems for building
software for another machine. It keeps them under a target prefix, by default
`~/.bolt/targets`. This project models the engine behind the `target`
commands.

**Package-spec parser.** `BBoxBootstrap._read_package_spec` reads a spec
file of `+pkg`, `-pkg` and `=` lines. It turns them into an ordered list of
`(mode, [pkg, …])` batches and reports malformed lines by their 1-based line
number (`PackageSpec`).

**Emulator selection.** `_copy_qemu` finds the static QEMU user emulator for
the target machine in an ordered prefix table, then copies it to the same
path inside the target (`Qemu`).

**Bootstrap pipeline.** `bootstrap` and `_prepare_target` run a fixed,
fail-fast sequence (`Bootstrap`):
- create the shared package cache and link it from the target as
  `.pkg-cache`;
- read the spec;
- write `opkg.conf` into a temporary directory;
- create the directory skeleton;
- copy the emulator;
- write `etc/target`;
- link `var/run` to `../run`;
- copy the configuration into `etc/opkg`;
- run `opkg update`, then one `opkg install`/`remove` per batch, stopping
  at the first failure.

**Target lifecycle.** `BBoxTarget.create`, `list` and `delete` (`Target`):
- `create` refuses a non-empty target unless forced, then mounts `/dev` and
  bootstraps.
- `list` prints each target with the machine named in its `etc/target`, or
  `defunct` or `unknown`.
- `delete` removes a target only after these gates pass, in this order:
  - the unmount helper succeeds;
  - the reserved subdirectories are empty;
  - nothing in the mount table is mounted inside the target.

**How the host is modelled.** The filesystem is a map from path strings to
nodes (directory, file with its lines, or symbolic link), held by a `Host`
object. `Host` also keeps the log of the argument vectors of the commands
started so far. Each command's exit status comes from a fixed sequence of
booleans: the command started as the k-th of the run succeeds exactly when
entry k is `true`.

**How each operation is proved.** Each operation is a method that changes
the `Host` step by step, as the source does. Each is proved equal to a
specification function from the state before to the state after:
- the new filesystem;
- the commands started;
- the outcome.

The properties the source promises are then proved as lemmas about those
functions. The parser's loop, with its active mode and active batch, is
proved to compute `Group`. `Group` is a reference definition that cuts the
directive stream into maximal runs of one mode.

Modules:
- `Errors`: `Option`, `Result` and the error kinds.
- `Text`: Python's `strip`, `split`, `startswith` and the `\s*(\S*)\s*$`
  pattern.
- `Paths`: `os.path.join`, `dirname`, `basename`, `normpath` and `lstrip("/")`.
- `FileSystem`: the tree, `makedirs`, `rmtree`, `copy2` and the `Host`
  class.
- `PackageSpec`, `Qemu`, `Bootstrap`, `Target`: as above.

## Model

| member | source | states |
|---|---|---|
| Text.Strip | lib/boltlinux/buildbox/bootstrap.py:270 | The stripped line neither starts nor ends with whitespace. It is empty only for an all-whitespace line. It sits inside the line with nothing but whitespace before and after it. |
| Text.StripUnchanged | lib/boltlinux/buildbox/bootstrap.py:270 | A line that neither starts nor ends with whitespace is its own `strip()`. |
| Text.MatchTokenSound | lib/boltlinux/buildbox/bootstrap.py:274 | A successful match of `\s*(\S*)\s*$` splits the text into whitespace, the whitespace-free group and whitespace. |
| Text.MatchTokenComplete | lib/boltlinux/buildbox/bootstrap.py:274 | Conversely, whitespace, then a whitespace-free token, then whitespace always matches, with that token as the group. |
| Text.Fields | lib/org/boltlinux/buildbox/target.py:162 | Each field `split()` returns is non-empty and free of whitespace. |
| Paths.Basename | lib/boltlinux/buildbox/bootstrap.py:106 | The target id is a slash-free suffix of the target directory. |
| Paths.BasenameAfterSlash | lib/boltlinux/buildbox/bootstrap.py:106 | The base name is the whole path, or it starts right after a `/`, so it is everything after the last `/`. |
| Paths.Dirname | lib/boltlinux/buildbox/bootstrap.py:241 | `dirname` returns a prefix of the path that ends at or before its last `/`, with only slashes between. When everything up to that `/` is slashes (or there is no `/`), that whole head is returned. Otherwise the result is non-empty and does not end in `/`. |
| Paths.LStripSlashes | lib/boltlinux/buildbox/bootstrap.py:242 | The result is a suffix of the input that does not start with `/`. Only slashes were removed. |
| Paths.Split | lib/org/boltlinux/buildbox/target.py:134-136 | `split("/")` yields at least one piece, and no piece contains `/`. |
| Paths.JoinSplit | lib/org/boltlinux/buildbox/target.py:134-136 | Joining the pieces of `split("/")` with `/` gives the path back. |
| Paths.JoinSlash | lib/org/boltlinux/buildbox/target.py:134-136 | `"/".join` starts with its first piece. |
| Paths.NormComps | lib/org/boltlinux/buildbox/target.py:134-136 | The components `normpath` keeps are plain names or `..`. Every `..` comes before every plain name, and under a root there is no `..` at all. |
| Paths.Normpath | lib/org/boltlinux/buildbox/target.py:134-136 | `normpath` never returns the empty string, and its result is absolute exactly when the path is. |
| Paths.NormpathRootChild | lib/org/boltlinux/buildbox/target.py:134-136 | A plain name right under `/` is already normal. |
| Paths.NormpathExtend | lib/org/boltlinux/buildbox/target.py:134-136 | Appending `/name` for a plain name to a normal absolute path gives a normal path. |
| Paths.NormpathParent | lib/org/boltlinux/buildbox/target.py:134-136 | A `..` after a plain name cancels it: `p/name/..` normalises to `p`. |
| Paths.RerootedPath | lib/boltlinux/buildbox/bootstrap.py:241-247 | Take the directory of `target_dir` joined with the host path stripped of its leading `/`. Joining that with the path's base name gives `target_dir + path`. |
| FileSystem.MakeDirs | lib/boltlinux/buildbox/bootstrap.py:123 | `makedirs` makes the path exist. Every existing entry is unchanged. Every new entry is a directory: the path or one of its ancestors. |
| FileSystem.MakeDirsStep | lib/boltlinux/buildbox/bootstrap.py:158 | `makedirs` fails, changing nothing and naming the path, exactly when the path is not a directory and it or one of its ancestors exists as a non-directory. Otherwise the path is a directory afterwards, nothing existing changes, and every new entry is a directory: the path or one of its ancestors. |
| FileSystem.Host.Mkdirs | lib/org/boltlinux/buildbox/target.py:43-44 | Does what `MakeDirsStep` specifies and starts no command. |
| FileSystem.RemoveTree | lib/org/boltlinux/buildbox/target.py:173 | `rmtree` removes exactly the path and everything below it. Everything else keeps its node. |
| FileSystem.Copy2Step | lib/boltlinux/buildbox/bootstrap.py:171 | `copy2` succeeds exactly when the source is a regular file and the place it writes is not a directory. That place is the destination, or the source's base name inside it when the destination is a directory. On success, that place holds the source's contents and nothing else changes. A failure changes nothing. It names the source when that is not a regular file, and otherwise the path inside the destination directory. |
| FileSystem.Host.Copy2 | lib/boltlinux/buildbox/bootstrap.py:247 | Does what `Copy2Step` specifies and starts no command. |
| FileSystem.Host.Run | lib/boltlinux/buildbox/bootstrap.py:181 | Starting a command appends its argument vector to the log and leaves the filesystem alone. It succeeds exactly when the oracle says so for that position. |
| Qemu.FirstMatch | lib/boltlinux/buildbox/bootstrap.py:227-230 | The result is the first table entry whose prefix the machine starts with: no earlier entry matches. It is `None` only if no entry matches. |
| Qemu.SelectQemuBinary | lib/boltlinux/buildbox/bootstrap.py:227-233 | The scan with `break` yields the emulator of the first matching prefix, or `""` when none matches. |
| Qemu.QemuBinaryNonEmpty | lib/boltlinux/buildbox/bootstrap.py:204-233 | Every emulator in the table starts with `qemu-`, so the empty string means "no emulator" unambiguously. |
| Qemu.QemuPowerpc64leExample | lib/boltlinux/buildbox/bootstrap.py:213-220 | `powerpc64le` gets `qemu-ppc64le-static` from its own entry, before the shorter `powerpc` entry. |
| Qemu.QemuPowerpcExample | lib/boltlinux/buildbox/bootstrap.py:213-220 | `powerpc` passes over the 64-bit entries and gets `qemu-ppc-static`. |
| Qemu.QemuArmExample | lib/boltlinux/buildbox/bootstrap.py:204-208 | `armv7l` gets `qemu-arm-static`. |
| Qemu.QemuNativeExample | lib/boltlinux/buildbox/bootstrap.py:204-233 | `x86_64` has no emulator, so nothing is copied. |
| Qemu.NoEmulatorFor | lib/boltlinux/buildbox/bootstrap.py:204-230 | A machine whose initial is none of `a`, `m`, `p`, `r`, `s` has no emulator. |
| Qemu.PrefixInitials | lib/boltlinux/buildbox/bootstrap.py:204-225 | Every prefix of the table is non-empty and starts with one of `a`, `m`, `p`, `r`, `s`. |
| Qemu.QemuCopyPath | lib/boltlinux/buildbox/bootstrap.py:241-247 | For a clean absolute host path, the copy into the computed directory lands at `target_dir + source_path`. |
| PackageSpec.Kinds | lib/boltlinux/buildbox/bootstrap.py:267-272 | Every line of the file is classified, one kind per line and in order. |
| PackageSpec.FirstMalformed | lib/boltlinux/buildbox/bootstrap.py:276-280 | The position of the first malformed line: no line before it is malformed. It equals the number of lines when none is malformed. |
| PackageSpec.ClassifyLine | lib/boltlinux/buildbox/bootstrap.py:270-305 | One step of the loop: strip, skip blanks and comments, match the pattern, and refuse `+` or `-` without a package. It agrees with the line classification `Classify`, which the next three rows characterise. |
| PackageSpec.ClassifySkip | lib/boltlinux/buildbox/bootstrap.py:270-272 | A line is skipped exactly when it is empty after stripping or starts with `#`. |
| PackageSpec.ClassifyEntrySound | lib/boltlinux/buildbox/bootstrap.py:274-305 | A line taken as a directive is, after stripping, a mode character `+`, `-` or `=`, whitespace, a whitespace-free token and whitespace. The token is non-empty unless the mode is `=`. |
| PackageSpec.ClassifyEntryComplete | lib/boltlinux/buildbox/bootstrap.py:274-305 | Every line of that shape is taken as the directive with that mode and token. So every other non-skipped line is malformed. |
| PackageSpec.MatchDirectiveSound | lib/boltlinux/buildbox/bootstrap.py:274 | A match of `^(\+\|-\|=)\s*(\S*)\s*$` is the mode character, whitespace, the whitespace-free group and whitespace. |
| PackageSpec.MatchDirectiveComplete | lib/boltlinux/buildbox/bootstrap.py:274 | Conversely, every such string matches, with that mode and group. |
| PackageSpec.Accept | lib/boltlinux/buildbox/bootstrap.py:285-305 | Handling one directive keeps this invariant: the closed batches plus the open one are `Group` of the directives so far, the active mode is the last directive's, and the open batch is non-empty exactly in a `+`/`-` mode. |
| PackageSpec.ParseLines | lib/boltlinux/buildbox/bootstrap.py:257-312 | The loop returns either the 1-based number of the first malformed line, or `Group` of the file's directives, the reference batching. |
| PackageSpec.ParseAccepts | lib/boltlinux/buildbox/bootstrap.py:309-312 | Without a malformed line, the result is the batches of all directives. |
| PackageSpec.ParseStopsAt | lib/boltlinux/buildbox/bootstrap.py:276-280 | A malformed line `k` with none before it is reported as line `k + 1`. |
| PackageSpec.ParseErrorLine | lib/boltlinux/buildbox/bootstrap.py:265-280 | A reported error number `n` is in range. Line `n` (1-based) is malformed and no earlier line is. Skipped lines count. |
| PackageSpec.GroupSnocNewMode | lib/boltlinux/buildbox/bootstrap.py:285-292 | A directive whose mode differs from the previous one closes the batch and opens a new one with its package. `=` opens none. |
| PackageSpec.GroupSnocReset | lib/boltlinux/buildbox/bootstrap.py:285-294 | An `=` right after `=` changes no batch. |
| PackageSpec.GroupSnocExtend | lib/boltlinux/buildbox/bootstrap.py:294-304 | A `+` after `+` (or `-` after `-`) appends its package to the last batch and leaves the others alone. |
| PackageSpec.GroupSnoc | lib/boltlinux/buildbox/bootstrap.py:285-305 | The three cases above together: a batch is flushed exactly when the mode changes. |
| PackageSpec.GroupFlatten | lib/boltlinux/buildbox/bootstrap.py:285-312 | Concatenating the batches gives exactly the `+`/`-` packages, in file order. |
| PackageSpec.FlattenGroupSnoc | lib/boltlinux/buildbox/bootstrap.py:294-304 | Each directive adds its own package, if any, at the end of the concatenated batches. |
| PackageSpec.GroupWellFormed | lib/boltlinux/buildbox/bootstrap.py:285-312 | Every batch installs or removes, and names at least one package. |
| PackageSpec.GroupLastMode | lib/boltlinux/buildbox/bootstrap.py:309-310 | When the last directive is `+` or `-`, the last batch has its mode. |
| PackageSpec.GroupAlternates | lib/boltlinux/buildbox/bootstrap.py:285-292 | Without `=` directives, neighbouring batches have different modes. |
| PackageSpec.ParseBatchesWellFormed | lib/boltlinux/buildbox/bootstrap.py:285-312 | Every batch of a parsed file has mode `+` or `-` and is non-empty. |
| PackageSpec.ParseContents | lib/boltlinux/buildbox/bootstrap.py:285-312 | The batches of a parsed file hold exactly its `+`/`-` packages, in file order. |
| PackageSpec.ParseAlternates | lib/boltlinux/buildbox/bootstrap.py:285-292 | In a parsed file without `=` lines, neighbouring batches have different modes. |
| PackageSpec.SkippedLineTransparent | lib/boltlinux/buildbox/bootstrap.py:267-272 | Inserting a blank or comment line changes no batch. It shifts a later error's line number by one and leaves an earlier one unchanged. |
| PackageSpec.ParseSkipsOnly | lib/boltlinux/buildbox/bootstrap.py:270-272 | A file of blank and comment lines yields no batches. |
| PackageSpec.ClassifyDirective | lib/boltlinux/buildbox/bootstrap.py:274-305 | A mode character followed by a whitespace-free token is accepted as that directive. |
| PackageSpec.ClassifyBare | lib/boltlinux/buildbox/bootstrap.py:294-302 | A lone `=` is accepted. A lone `+` or `-` is malformed. |
| PackageSpec.MalformedUnknownMode | lib/boltlinux/buildbox/bootstrap.py:274-280 | `*x` is malformed. |
| PackageSpec.MalformedTwoTokens | lib/boltlinux/buildbox/bootstrap.py:274-280 | `+a b` is malformed. |
| PackageSpec.MalformedMissingPackage | lib/boltlinux/buildbox/bootstrap.py:297-302 | `+` and `-` without a package are malformed. |
| PackageSpec.ParseResetExample | lib/boltlinux/buildbox/bootstrap.py:285-310 | `+a`, `+b`, `=`, `+c` yields `[(+, [a, b]), (+, [c])]`: `=` closes the batch. |
| Bootstrap.OptionsSectionChecks | lib/boltlinux/buildbox/bootstrap.py:38-49 | Among the option lines, the signature-check option appears exactly when it was substituted. |
| Bootstrap.OtherSectionsSilent | lib/boltlinux/buildbox/bootstrap.py:51-73 | The feed, arch and install-root sections never contain the signature-check option. |
| Bootstrap.OpkgConfChecksSignatures | lib/boltlinux/buildbox/bootstrap.py:94-112 | The generated `opkg.conf` contains `option check_signature` exactly when verification was requested. |
| Bootstrap.TargetPaths | lib/boltlinux/buildbox/bootstrap.py:125-171 | `.pkg-cache`, `etc/target`, `var/run` and `etc/opkg` sit directly under the target directory. |
| Bootstrap.CacheStage | lib/boltlinux/buildbox/bootstrap.py:117-128 | Fails exactly when the cache is absent and `makedirs` of it is blocked, and then changes nothing and names the cache. Otherwise the cache and the link exist afterwards. Nothing existing changes, everything new is the cache, one of its ancestors or the link, and nothing new is a file. A link that was absent points at the cache. |
| Bootstrap.MakeEach | lib/boltlinux/buildbox/bootstrap.py:145-158 | On success every listed directory exists afterwards. A failure names the first blocked directory, in list order. Every directory listed before it has been made, and it is still blocked in the final state. Nothing existing changes, and everything new is a directory. |
| Bootstrap.SkeletonBlockedAtVar | lib/boltlinux/buildbox/bootstrap.py:145-158 | A file where `var` should be stops the skeleton at its first directory. Nothing changes and the error names that path. |
| Bootstrap.QemuStage | lib/boltlinux/buildbox/bootstrap.py:232-247 | The emulator copy fails only with "QEMU not found" or an OS error. |
| Bootstrap.CopyEmulatorStage | lib/boltlinux/buildbox/bootstrap.py:241-247 | Copying a found emulator fails only with an OS error. The error names the emulator, the directory it is copied into, or the path of the copy inside that directory. |
| Bootstrap.QemuStageCopies | lib/boltlinux/buildbox/bootstrap.py:235-247 | An emulator found at a clean absolute path lands at the same path inside the target, with the host file's contents. This holds when its directory can be made and no directory stands at that path. |
| Bootstrap.QemuStageRefusesDirectory | lib/boltlinux/buildbox/bootstrap.py:235-247 | If a directory stands at that path inside the target, the stage fails with an OS error naming it. The directory stays. |
| Bootstrap.FirstFailure | lib/boltlinux/buildbox/bootstrap.py:180-197 | The first command of the plan to fail: every command before it succeeded. It is `None` only if all succeeded. |
| Bootstrap.ConfigureStage | lib/boltlinux/buildbox/bootstrap.py:162-171 | Writing `etc/target`, linking `var/run` and copying `opkg.conf` fails only with an OS error. The error names the configuration file, `etc/target`, or the path of the copy inside `etc/opkg`. Opening `etc/target` for writing fails, changing nothing, exactly when it is a directory. |
| Bootstrap.SetupStage | lib/boltlinux/buildbox/bootstrap.py:145-171 | The steps before the first command fail only with "QEMU not found" or an OS error. |
| Bootstrap.PlanEffect | lib/boltlinux/buildbox/bootstrap.py:173-198 | A failure is the setup's own, or an index-update or batch failure. |
| Bootstrap.BootstrapEffect | lib/boltlinux/buildbox/bootstrap.py:93-139 | `bootstrap` fails only with a spec error, "QEMU not found", an OS error, or an `opkg` failure. |
| Bootstrap.AfterCache | lib/boltlinux/buildbox/bootstrap.py:130-139 | After the cache stage, `bootstrap` fails only with the cache stage's error, a spec error, "QEMU not found", an OS error, or an `opkg` failure. |
| Bootstrap.BBoxBootstrap.constructor | lib/boltlinux/buildbox/bootstrap.py:84-91 | Stores its settings. An absent or empty cache directory falls back to the user's. |
| Bootstrap.BBoxBootstrap.LinkPackageCache | lib/boltlinux/buildbox/bootstrap.py:117-128 | Does what `CacheStage` specifies: the cache if missing, then the link if missing. |
| Bootstrap.BBoxBootstrap.ReadPackageSpec | lib/boltlinux/buildbox/bootstrap.py:250-313 | A missing path is "not found", checked before "not a regular file". Otherwise the result is the file's parse, and a malformed line carries its number. |
| Bootstrap.BBoxBootstrap.CopyQemu | lib/boltlinux/buildbox/bootstrap.py:201-248 | Does what `QemuStage` specifies and starts no command. |
| Bootstrap.BBoxBootstrap.CopyEmulator | lib/boltlinux/buildbox/bootstrap.py:241-247 | Does what `CopyEmulatorStage` specifies and starts no command. |
| Bootstrap.BBoxBootstrap.CreateSkeleton | lib/boltlinux/buildbox/bootstrap.py:145-158 | Creates the skeleton directories, in order, as `Skeleton` specifies. |
| Bootstrap.BBoxBootstrap.MakeEachOn | lib/boltlinux/buildbox/bootstrap.py:157-158 | The loop makes each directory in order and stops at the first that is blocked, as `MakeEach` specifies. |
| Bootstrap.BBoxBootstrap.ConfigureTarget | lib/boltlinux/buildbox/bootstrap.py:162-171 | Does what `ConfigureStage` specifies and starts no command. |
| Bootstrap.BBoxBootstrap.RunOpkgPlan | lib/boltlinux/buildbox/bootstrap.py:173-198 | Starts `update`, then one command per batch in order, stopping at the first failure. The filesystem is unchanged. |
| Bootstrap.BBoxBootstrap.PrepareTarget | lib/boltlinux/buildbox/bootstrap.py:144-199 | Runs the stages in the source's order (skeleton, emulator, `etc/target`, `var/run`, configuration copy, `update`, batches), stopping at the first failure. |
| Bootstrap.BBoxBootstrap.Bootstrap | lib/boltlinux/buildbox/bootstrap.py:93-140 | The whole of `bootstrap`: its filesystem, the commands it started and the outcome. The temporary directory is removed whatever the outcome. |
| Bootstrap.BBoxBootstrap.SpecAndPrepare | lib/boltlinux/buildbox/bootstrap.py:130-139 | The part after the cache stage does what `AfterCache` specifies. |
| Bootstrap.FailsAt | lib/boltlinux/buildbox/bootstrap.py:194-197 | A command that fails after all before it succeeded is the plan's first failure. Nothing after it is started. |
| Bootstrap.FirstFailureStable | lib/boltlinux/buildbox/bootstrap.py:194-197 | A failure among the first commands stays the first failure however many commands follow. |
| Bootstrap.PlanRun | lib/boltlinux/buildbox/bootstrap.py:180-197 | The plan succeeds exactly when every command succeeds, and then all of them are started. Otherwise it stops at its first failure. That failure is the index update's exactly when only one command was started. |
| Bootstrap.PlanPackagesOfPlan | lib/boltlinux/buildbox/bootstrap.py:185-192 | The batch commands name exactly the batches' packages, in order. |
| Bootstrap.PlanSucceeded | lib/boltlinux/buildbox/bootstrap.py:173-198 | A successful plan started every command, and each succeeded. |
| Bootstrap.PlanFailed | lib/boltlinux/buildbox/bootstrap.py:173-198 | A failed plan started a non-empty prefix of the plan, beginning with `update`. Only its last command failed. No later batch was started. |
| Bootstrap.CacheStageKeepsSpec | lib/boltlinux/buildbox/bootstrap.py:117-130 | The cache stage never turns a readable spec unreadable, or the reverse, and never changes a readable spec's batches. |
| Bootstrap.CopyAvoidsEtcTarget | lib/boltlinux/buildbox/bootstrap.py:162-171 | Copying the configuration never overwrites `etc/target`. |
| Bootstrap.CopyAvoidsVarRun | lib/boltlinux/buildbox/bootstrap.py:166-171 | Copying the configuration never overwrites `var/run`. |
| Bootstrap.ConfigureLinksVarRun | lib/boltlinux/buildbox/bootstrap.py:166-168 | `var/run` keeps what was there, and is linked to `../run` only when absent. |
| Bootstrap.ConfigureRefusesDirectory | lib/boltlinux/buildbox/bootstrap.py:162-171 | A directory at `etc/opkg/<name of the configuration file>` makes the copy fail with an OS error naming it. `etc/target` has been written already and the directory stays. |
| Bootstrap.ConfigureWritesIdentity | lib/boltlinux/buildbox/bootstrap.py:162-171 | After configuration, `etc/target` holds the identity lines of the context. |
| Bootstrap.PrepareWritesIdentity | lib/boltlinux/buildbox/bootstrap.py:144-171 | After a successful preparation, `etc/target` holds the identity lines. |
| Bootstrap.BootstrapCacheBlocked | lib/boltlinux/buildbox/bootstrap.py:121-123 | A package cache blocked by a file stops `bootstrap` first. Nothing changes, nothing runs, and the error names the cache. |
| Bootstrap.BootstrapSpecError | lib/boltlinux/buildbox/bootstrap.py:117-130 | A bad spec stops `bootstrap` before any command or configuration file. Only the cache stage has happened. Unless that failed, the error is the spec's own, except that a missing spec path the cache stage has just made a directory is reported as not a regular file. |
| Bootstrap.CacheStageSpecError | lib/boltlinux/buildbox/bootstrap.py:121-130 | A spec that cannot be read before the cache stage cannot be read after it, for the same reason or because it is now a directory. |
| Bootstrap.BootstrapRunsSpec | lib/boltlinux/buildbox/bootstrap.py:130-198 | A successful `bootstrap` ran the whole plan of its spec, and each command succeeded. The commands name exactly the spec's `+`/`-` packages, in file order. |
| Bootstrap.BootstrapFailedCommand | lib/boltlinux/buildbox/bootstrap.py:130-198 | An `opkg` failure comes after the spec was read. Only a prefix of the plan ran, beginning with `update`, and every command but the last succeeded. |
| Bootstrap.AfterCacheFailedCommand | lib/boltlinux/buildbox/bootstrap.py:130-198 | The same for the part after the cache stage: the cache stage succeeded, the spec was read, and a non-empty prefix of its plan ran with only its last command failing. |
| Bootstrap.BootstrapWritesIdentity | lib/boltlinux/buildbox/bootstrap.py:132-164 | After a successful `bootstrap`, `etc/target` names the run's identity, and nothing of the temporary directory remains. |
| Target.TargetPrefixUnderHome | lib/org/boltlinux/buildbox/target.py:176-178 | The default prefix is `<home>/.bolt/targets`. |
| Target.CreateDirsStage | lib/org/boltlinux/buildbox/target.py:40-61 | Nothing existing changes. On success, the target is a directory with a `dev` entry. A failure is an OS error naming the prefix, the target or its `dev`, or a refusal of a non-empty target. A refusal happens only without `force`, for a target directory that has entries. With `force` there is never a refusal. A blocked prefix fails first, changing nothing. |
| Target.CreateDirs | lib/org/boltlinux/buildbox/target.py:40-61 | Does what `CreateDirsStage` specifies and starts no command. |
| Target.Create | lib/org/boltlinux/buildbox/target.py:38-79 | The whole of `create`: the directories, the mount, then the bootstrap with the default release and machine. |
| Target.MountAndBootstrapTarget | lib/org/boltlinux/buildbox/target.py:63-78 | The mount command runs first. A failure stops there. Otherwise the bootstrap follows. |
| Target.BootstrapTarget | lib/org/boltlinux/buildbox/target.py:71-78 | `create` bootstraps with release `stable` and machine `x86_64` unless given, with `musl`, and with signatures checked. |
| Target.CreateBlockedPrefix | lib/org/boltlinux/buildbox/target.py:43-44 | A prefix blocked by a file stops `create` with an OS error naming it. Nothing changes and nothing runs. |
| Target.CreateForcedProceeds | lib/org/boltlinux/buildbox/target.py:46-61 | With `force`, an existing target directory is used whatever it holds. The directory stage succeeds unless `dev` cannot be made. It changes nothing when `dev` exists already. |
| Target.CreateRefusesNonEmpty | lib/org/boltlinux/buildbox/target.py:46-55 | A non-empty existing target without `force` is refused. Nothing changes and nothing runs. |
| Target.CreateMountsFirst | lib/org/boltlinux/buildbox/target.py:59-69 | The first command is always the mount into the target. `MountFailed` happens exactly when the directories were made and the mount failed, and then nothing else runs. |
| Target.CreateRunsSpec | lib/org/boltlinux/buildbox/target.py:38-79 | A successful `create` made the target directory, then ran the mount and the whole `opkg` plan of the spec, each command succeeding. |
| Target.LastSomeSpec | lib/org/boltlinux/buildbox/target.py:111-121 | The value kept is present, and no later line has one. There is none exactly when no line has one. |
| Target.MatchMachineLine | lib/org/boltlinux/buildbox/target.py:114-119 | The `TARGET_MACHINE=<machine>` line that `bootstrap` writes matches, with that machine. |
| Target.NotMachineLine | lib/org/boltlinux/buildbox/target.py:114-118 | A line that differs from `TARGET_MACHINE` within its key does not match. |
| Target.EtcTargetRoundTrip | lib/org/boltlinux/buildbox/target.py:111-121 | Reading a generated `etc/target` back gives the machine it was written with. |
| Target.StatusReportsMachine | lib/org/boltlinux/buildbox/target.py:95-122 | A target with a shell and a generated `etc/target` is reported with its machine. |
| Target.StatusNoEtcTarget | lib/org/boltlinux/buildbox/target.py:107-109 | Without `etc/target`, a target is `defunct`, whatever shells it has. |
| Target.StatusDefunct | lib/org/boltlinux/buildbox/target.py:95-105 | Without either shell, a target is `defunct`. |
| Target.ListEntriesStopsAtError | lib/org/boltlinux/buildbox/target.py:89-125 | After an error, no later entry is looked at. |
| Target.DirEntries | lib/org/boltlinux/buildbox/target.py:89-93 | The kept entries are exactly the entries of the listing that are directories under the prefix. |
| Target.DirEntriesAppend | lib/org/boltlinux/buildbox/target.py:89-93 | The kept entries of a listing split in two are those of the first part, then those of the second, so listing order is kept. |
| Target.ListEntriesShape | lib/org/boltlinux/buildbox/target.py:89-125 | `list` succeeds exactly when every directory entry's status can be read. It then prints exactly one `<entry> (<status>)` line per directory entry, in listing order. |
| Target.ReadMachine | lib/org/boltlinux/buildbox/target.py:111-121 | The loop keeps the machine of the last matching line, or `unknown`. |
| Target.EntryStatus | lib/org/boltlinux/buildbox/target.py:90-122 | The status is `defunct`, the machine, `unknown`, or the error of an unreadable `etc/target`. |
| Target.List | lib/org/boltlinux/buildbox/target.py:81-126 | `list` prints nothing when the prefix is not a directory. Otherwise it prints the lines of its entries. |
| Target.SubdirCheck | lib/org/boltlinux/buildbox/target.py:148-156 | Succeeds exactly when every reserved subdirectory is absent or an empty directory. Otherwise the error comes from the first, in order, that is not clear: residual content for a directory with entries, an OS error for a non-directory. |
| Target.MountCheck | lib/org/boltlinux/buildbox/target.py:158-171 | Succeeds exactly when every mount line has six fields and no mount point strictly inside the target. Otherwise the error comes from the first line, in order, that is not clear. A line without six fields gives a malformed mount entry naming the line. Otherwise the line gives a residual mount naming its normalised mount point. |
| Target.CheckReservedDirs | lib/org/boltlinux/buildbox/target.py:148-156 | The loop checks `dev`, `proc`, `sys`, `home` in order and stops at the first that is not clear. |
| Target.CheckMounts | lib/org/boltlinux/buildbox/target.py:158-171 | The loop returns what `MountCheck` specifies. It stops at the first line that is malformed or mounted inside the target, with that line's error. |
| Target.FirstUnclear | lib/org/boltlinux/buildbox/target.py:161-171 | The scan succeeds exactly when every line is clear. Otherwise its error is the one for the first line, in order, that is not clear, and every earlier line is clear. |
| Target.DeleteTargetBelowPrefix | lib/org/boltlinux/buildbox/target.py:134-136 | For a plain name under a normal prefix, `delete` works on `prefix/name`, strictly below the prefix. |
| Target.DeleteTargetParentName | lib/org/boltlinux/buildbox/target.py:129-136 | The name is not checked: `x/..` normalises to the prefix itself, so `delete` then works on the whole prefix. |
| Target.Delete | lib/org/boltlinux/buildbox/target.py:128-174 | The whole of `delete`: the directory check, the unmount, the reserved directories, the mount table, then the removal. |
| Target.DeleteErrors | lib/org/boltlinux/buildbox/target.py:128-171 | Each failing gate gives its own error. A target that is not a directory is reported as not found, by its name, with nothing started. Otherwise the unmount is the only command started. A failed unmount gives the unmount error. Next comes the error `SubdirCheck` gives for the reserved subdirectories. Last comes the error `MountCheck` gives for the mount table. |
| Target.DeleteOutcome | lib/org/boltlinux/buildbox/target.py:128-174 | `delete` succeeds exactly when every gate passes, and then removes exactly the target tree. Any failure leaves the filesystem untouched. The unmount runs exactly when the target is a directory. |
| Target.TargetMountNotResidual | lib/org/boltlinux/buildbox/target.py:164-165 | A mount of the target directory itself does not stop `delete`. Only mounts strictly inside do. |

The source promises "failed to install batch of packages" with no batch
index, so `BatchFailed` carries none.

The source creates the package cache under the user's cache directory
rather than the directory given to the constructor, and so does the model.

## Left out

- The command-line front end (`lib/boltlinux/buildbox/cli.py`) is not part of this model: it only parses arguments and prints usage. Its `delete` passes a list of names, whereas `BBoxTarget.delete` takes one name, which is what is modelled.
- The mount helper's C header (`c-src/bbox-do.h`) is not part of this model: it has declarations only. The mount and unmount commands are success or failure oracles plus a log of their argument vectors.
- What `opkg` installs or removes is not modelled: its commands change nothing in the model's filesystem, only the log and the outcome.
- `Platform.uname`, `Platform.target_for_machine`, `Platform.find_executable`, `Paths.cache_dir` and `homedir` consult the running system and are parameters.
- `os.path.realpath` resolves symbolic links against the live filesystem and is a parameter. `os.path.normpath` is a string function and is modelled (`Paths.Normpath`).
- The contents of `/proc/mounts` are a parameter. The mount table lines are passed in.
- The result of `os.listdir` on the target prefix is a parameter, its contents as well as its order. Nothing ties it to the entries stored under the prefix in the filesystem. Only entries that are directories under the prefix are reported, as in the source.
- The temporary directory is a parameter, assumed fresh as `tempfile` makes it.
- Symbolic links are not followed. `os.path.exists` is "an entry is stored under this path", so a dangling link counts as present. `makedirs` treats a link on its way as blocking, although the source would pass through a link to a directory.
- `os.symlink` of the package-cache link (bootstrap.py:128) fails in the source when the target directory does not exist yet. The model creates the link regardless.
- `shlex.split` of the command strings is not modelled. The argument vectors are built directly. A target path or a package token (bootstrap.py:188-191) containing a quote or a backslash would split differently in the source, or make `shlex.split` raise `ValueError`.
- File contents are sequences of lines without their newline characters. Writing a template and reading it back line by line are modelled as that sequence.
- Errors from `open` on a spec file that exists but cannot be read (permissions, encoding) are not modelled.
- `copy2`'s metadata copy and byte-level copying are not modelled. The copy gets the source's lines. A symbolic link at the place the copy is written is replaced, whereas the source writes through it. Copying a file onto itself raises in the source but not in the model.
- The comment banners of the `opkg.conf` template are modelled as the literal lines. Nothing is proved about them.
- `list` returns its printed lines instead of printing them.
- Options other than `target_prefix`, `release`, `arch`, `force` and `repo_base` are not modelled. `BBoxTarget.create` passes them to `BBoxBootstrap.bootstrap`, which ignores them. For example, `do_verify` from the `--no-verify` switch of cli.py is dropped: `create` builds `BBoxBootstrap` with its default `do_verify=True`.
- Concurrent use of the shared package cache is not modelled.
- Text.Fields: only states that each field is non-empty and free of whitespace, not that the fields cover every non-whitespace character of the line in order, because `delete` needs only the field count and the second field.
- PackageSpec.ParseLines: refuses a `+`/`-` line without a package before flushing the active batch, whereas the source flushes first. The error discards the batches, so the outcome is the same.
- Qemu.QemuPowerpc64leExample, Qemu.QemuPowerpcExample, Qemu.QemuArmExample and Qemu.QemuNativeExample state single examples. The general rule is Qemu.FirstMatch.

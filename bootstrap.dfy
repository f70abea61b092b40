/**
 * Bootstrapping a target root (`BBoxBootstrap`): the package cache and its
 * link, the two generated configuration files, the directory skeleton, the
 * emulator copy, and the `opkg` commands that fill the root.
 *
 * Each stage is specified by a function from the filesystem before it to the
 * filesystem after it (and, for the stages that start commands, the argument
 * vectors they start and the outcome); the methods of `BBoxBootstrap` do the
 * work step by step on a `Host` and are proved to match those functions.
 */
module Bootstrap {
  import opened Errors
  import opened Text
  import opened Paths
  import opened FileSystem
  import opened PackageSpec
  import opened Qemu

  /** What the engine asks of the running system. */
  datatype Platform = Platform(
    hostArch: string,                    // the host machine name, as `uname -m` prints it
    targetForMachine: string -> string,  // the target triplet for a machine name
    cacheDir: string,                    // the user's cache directory
    findExecutable: string -> string)    // the full path of a program on the search path, "" if none

  /** The values substituted into the two templates. */
  datatype Context = Context(
    release: string, libc: string, arch: string, hostArch: string,
    targetId: string, machine: string, targetType: string,
    optCheckSig: string, repoBase: string)

  const CheckSigOption := "option check_signature"

  /** How Python formats an absent repository base into the feed URLs. */
  function RepoBaseText(repoBase: Option<string>): string {
    match repoBase
    case None => "None"
    case Some(s) => s
  }

  /** The template context `bootstrap` builds; the target's id is the base name of its directory. */
  function MakeContext(release: string, arch: string, libc: string, doVerify: bool,
                       plat: Platform, targetDir: string, repoBase: Option<string>): Context
  {
    Context(release, libc, arch, plat.hostArch, Basename(targetDir), arch,
            plat.targetForMachine(arch), if doVerify then CheckSigOption else "",
            RepoBaseText(repoBase))
  }

  const Banner := "##############################################################################"

  /** The feed directory shared by the four feed lines. */
  function FeedBase(ctx: Context): string {
    ctx.repoBase + "/" + ctx.release + "/core/" + ctx.arch + "/" + ctx.libc
  }

  /** The lines of the generated `opkg.conf`, section by section. */
  function OpkgConfLines(ctx: Context): seq<string> {
    OptionsSection(ctx) + FeedsSection(ctx) + ArchesSection(ctx) + InstallRootSection
  }

  function OptionsSection(ctx: Context): seq<string> {
    [ Banner, "# OPTIONS", Banner, "",
      "option cache_dir /.pkg-cache",
      "option signature_type usign",
      "option no_install_recommends",
      "option force_removal_of_dependent_packages",
      "option force_postinstall",
      "",
      ctx.optCheckSig,
      "" ]
  }

  function FeedsSection(ctx: Context): seq<string> {
    [ Banner, "# FEEDS", Banner, "",
      "src/gz main " + FeedBase(ctx) + "/main",
      "src/gz main-debug " + FeedBase(ctx) + "/main-debug",
      "src/gz tools " + FeedBase(ctx) + "/tools/" + ctx.hostArch,
      "src/gz tools-debug " + FeedBase(ctx) + "/tools-debug/" + ctx.hostArch,
      "" ]
  }

  function ArchesSection(ctx: Context): seq<string> {
    [ Banner, "# ARCHES", Banner, "",
      "arch " + ctx.arch + " 1",
      "arch all 1",
      "arch tools 1",
      "" ]
  }

  const InstallRootSection: seq<string> := [Banner, "# INSTALL ROOT", Banner, "", "dest root /"]

  /** The lines of the generated `etc/target`. */
  function EtcTargetLines(ctx: Context): seq<string> {
    [ "TARGET_ID=" + ctx.targetId,
      "TARGET_MACHINE=" + ctx.machine,
      "TARGET_TYPE=" + ctx.targetType,
      "TOOLS_TYPE=" + ctx.hostArch + "-tools-linux-musl" ]
  }

  /** The generated configuration turns signature checking on exactly when verification was asked for. */
  lemma {:induction false} OpkgConfChecksSignatures(release: string, arch: string, libc: string, doVerify: bool,
                                 plat: Platform, targetDir: string, repoBase: Option<string>)
    ensures var ctx := MakeContext(release, arch, libc, doVerify, plat, targetDir, repoBase);
      CheckSigOption in OpkgConfLines(ctx) <==> doVerify
  {
    var ctx := MakeContext(release, arch, libc, doVerify, plat, targetDir, repoBase);
    OptionsSectionChecks(ctx);
    OtherSectionsSilent(ctx);
  }

  /** Among the options, only the substituted line can be the signature check. */
  lemma {:induction false} OptionsSectionChecks(ctx: Context)
    ensures CheckSigOption in OptionsSection(ctx) <==> ctx.optCheckSig == CheckSigOption
  {
    var o := OptionsSection(ctx);
    assert o[10] == ctx.optCheckSig;
    forall i | 0 <= i < |o| && i != 10 ensures o[i] != CheckSigOption {
      assert |o[i]| != |CheckSigOption|;
    }
  }

  /** No line outside the options section is the signature check: each is empty, or starts with `#`, `s`, `a` or `d`. */
  lemma {:induction false} OtherSectionsSilent(ctx: Context)
    ensures CheckSigOption !in FeedsSection(ctx) + ArchesSection(ctx) + InstallRootSection
  {
    assert CheckSigOption[0] == 'o';
    var f := FeedsSection(ctx);
    assert f[4][0] == f[5][0] == f[6][0] == f[7][0] == 's';
    assert CheckSigOption !in f;
    var a := ArchesSection(ctx);
    assert a[4][0] == 'a';
    assert CheckSigOption !in a;
    assert CheckSigOption !in InstallRootSection;
  }

  // ---------------------------------------------------------------------------
  // Paths inside the target

  /** The package cache shared by all targets of one release, machine and C library. */
  function PackageCache(cacheDir: string, release: string, arch: string, libc: string): string {
    JoinAll(cacheDir, ["bolt", "dists", release, arch, libc])
  }

  function CacheLink(targetDir: string): string {
    Join(targetDir, ".pkg-cache")
  }

  function EtcTargetPath(targetDir: string): string {
    JoinAll(targetDir, ["etc", "target"])
  }

  function VarRunPath(targetDir: string): string {
    JoinAll(targetDir, ["var", "run"])
  }

  function EtcOpkgPath(targetDir: string): string {
    JoinAll(targetDir, ["etc", "opkg"])
  }

  /** The name of the configuration file inside the temporary directory. */
  function ConfPath(tmpDir: string): string {
    Join(tmpDir, "opkg.conf")
  }

  /** For a target directory without a trailing `/`, the fixed paths inside it are plain concatenations. */
  lemma {:induction false} TargetPaths(targetDir: string)
    requires targetDir != [] && targetDir[|targetDir| - 1] != '/'
    ensures CacheLink(targetDir) == targetDir + "/.pkg-cache"
    ensures EtcTargetPath(targetDir) == targetDir + "/etc/target"
    ensures VarRunPath(targetDir) == targetDir + "/var/run"
    ensures EtcOpkgPath(targetDir) == targetDir + "/etc/opkg"
  {
    CacheLinkPath(targetDir);
    EtcTargetPathIs(targetDir);
    VarRunPathIs(targetDir);
    EtcOpkgPathIs(targetDir);
  }

  lemma {:induction false} CacheLinkPath(targetDir: string)
    requires targetDir != [] && targetDir[|targetDir| - 1] != '/'
    ensures CacheLink(targetDir) == targetDir + "/.pkg-cache"
  {
    assert targetDir + "/" + ".pkg-cache" == targetDir + ("/" + ".pkg-cache");
  }

  lemma {:induction false} EtcTargetPathIs(targetDir: string)
    requires targetDir != [] && targetDir[|targetDir| - 1] != '/'
    ensures EtcTargetPath(targetDir) == targetDir + "/etc/target"
  {
    JoinAllTwo(targetDir, "etc", "target");
  }

  lemma {:induction false} VarRunPathIs(targetDir: string)
    requires targetDir != [] && targetDir[|targetDir| - 1] != '/'
    ensures VarRunPath(targetDir) == targetDir + "/var/run"
  {
    JoinAllTwo(targetDir, "var", "run");
  }

  lemma {:induction false} EtcOpkgPathIs(targetDir: string)
    requires targetDir != [] && targetDir[|targetDir| - 1] != '/'
    ensures EtcOpkgPath(targetDir) == targetDir + "/etc/opkg"
  {
    JoinAllTwo(targetDir, "etc", "opkg");
  }

  // ---------------------------------------------------------------------------
  // The stages

  /**
   * The package cache is created if missing, then linked from the target if
   * the link is missing. Creating the cache fails, and nothing changes, when
   * a file stands where it or one of its ancestors should be.
   */
  function CacheStage(fs: Tree, cache: string, targetDir: string): (r: Step)
    ensures r.result.Err? <==> cache !in fs && MakeDirsBlocked(fs, cache)
    ensures r.result.Err? ==> r == Step(fs, Err(OsError(cache)))
    ensures r.result.Ok? ==> cache in r.fs && CacheLink(targetDir) in r.fs
    ensures forall q :: q in fs ==> q in r.fs && r.fs[q] == fs[q]
    ensures forall q :: q in r.fs && q !in fs ==> q == cache || q in Ancestors(cache) || q == CacheLink(targetDir)
    ensures forall q :: q in r.fs && q !in fs ==> !r.fs[q].File?
    ensures var link := CacheLink(targetDir);
      r.result.Ok? && link !in fs && link != cache && link !in Ancestors(cache) ==> r.fs[link] == Symlink(cache)
  {
    var s := if cache in fs then Step(fs, Ok(())) else MakeDirsStep(fs, cache);
    if s.result.Err? then s
    else
      var link := CacheLink(targetDir);
      if link in s.fs then s else Step(s.fs[link := Symlink(cache)], Ok(()))
  }

  /** The directories every target root gets, relative to the root. */
  const SkeletonDirs: seq<string> := [
    "var", "run", "etc", "etc/opkg", "etc/opkg/usign", "tools", "tools/bin", "usr", "usr/bin"
  ]

  /**
   * `os.makedirs(..., exist_ok=True)` of each of `dirs` under `targetDir`, in
   * order, stopping at the first that is blocked.
   */
  function MakeEach(fs: Tree, targetDir: string, dirs: seq<string>): (r: Step)
    ensures r.result.Ok? ==> forall d :: d in dirs ==> IsDir(r.fs, Join(targetDir, d))
    ensures r.result.Err? ==>
      exists i :: 0 <= i < |dirs| && r.result == Err(OsError(Join(targetDir, dirs[i]))) &&
                  MakeDirsBlocked(r.fs, Join(targetDir, dirs[i])) &&
                  forall j :: 0 <= j < i ==> IsDir(r.fs, Join(targetDir, dirs[j]))
    ensures forall q :: q in fs ==> q in r.fs && r.fs[q] == fs[q]
    ensures forall q :: q in r.fs && q !in fs ==> r.fs[q] == Dir
    decreases |dirs|
  {
    if dirs == [] then Step(fs, Ok(()))
    else
      var s := MakeDirsStep(fs, Join(targetDir, dirs[0]));
      if s.result.Err? then s
      else
        var r := MakeEach(s.fs, targetDir, dirs[1..]);
        assert forall d :: d in dirs ==> d == dirs[0] || d in dirs[1..];
        assert forall j :: 1 <= j < |dirs| ==> dirs[1..][j - 1] == dirs[j];
        assert IsDir(r.fs, Join(targetDir, dirs[0]));
        r
  }

  /** The skeleton: every directory of `SkeletonDirs`, or the error of the first that is blocked. */
  function Skeleton(fs: Tree, targetDir: string): Step {
    MakeEach(fs, targetDir, SkeletonDirs)
  }

  /**
   * A file where the target's `var` should be stops the skeleton at its
   * first directory: the error names that path and nothing changes.
   */
  lemma {:induction false} SkeletonBlockedAtVar(fs: Tree, targetDir: string)
    requires Join(targetDir, "var") in fs && fs[Join(targetDir, "var")].File?
    ensures Skeleton(fs, targetDir) == Step(fs, Err(OsError(Join(targetDir, "var"))))
  {
    var p := Join(targetDir, "var");
    assert MakeDirsBlocked(fs, p);
    assert SkeletonDirs[0] == "var";
  }

  /**
   * `_copy_qemu`: with no emulator for the machine nothing happens; otherwise
   * the emulator is looked up on the host and copied to the same path inside
   * the target, creating its directory first.
   */
  function QemuStage(fs: Tree, targetDir: string, arch: string, findExecutable: string -> string): (r: Step)
    ensures r.result.Err? ==> r.result.error.QemuNotFound? || r.result.error.OsError?
  {
    match QemuBinary(arch)
    case None => Step(fs, Ok(()))
    case Some(bin) =>
      var src := findExecutable(bin);
      if src == "" then Step(fs, Err(QemuNotFound(bin)))
      else
        CopyEmulatorStage(fs, targetDir, src)
  }

  /**
   * The end of `_copy_qemu`, the emulator found at `src`: its directory in
   * the target is made if missing, then the file is copied into it.
   */
  function CopyEmulatorStage(fs: Tree, targetDir: string, src: string): (r: Step)
    ensures r.result.Err? ==>
      r.result == Err(OsError(src)) || r.result == Err(OsError(QemuDestDir(targetDir, src))) ||
      r.result == Err(OsError(Join(QemuDestDir(targetDir, src), Basename(src))))
  {
    var dest := QemuDestDir(targetDir, src);
    var s := if dest in fs then Step(fs, Ok(())) else MakeDirsStep(fs, dest);
    if s.result.Err? then s else Copy2Step(s.fs, src, dest)
  }

  /**
   * When the emulator is found at a clean absolute path and its directory in
   * the target can be made, the copy lands at that same path under the
   * target with the host file's contents.
   */
  lemma {:induction false} QemuStageCopies(fs: Tree, targetDir: string, arch: string, findExecutable: string -> string)
    requires QemuBinary(arch).Some?
    requires var src := findExecutable(QemuBinary(arch).value);
      && targetDir != [] && targetDir[|targetDir| - 1] != '/' && CleanAbsolute(src)
      && src in fs && fs[src].File?
      && !MakeDirsBlocked(fs, QemuDestDir(targetDir, src))
      && !IsDir(fs, targetDir + src)
    ensures var src := findExecutable(QemuBinary(arch).value);
      var s := QemuStage(fs, targetDir, arch, findExecutable);
      s.result.Ok? && targetDir + src in s.fs && s.fs[targetDir + src] == fs[src]
  {
    CopyEmulatorLands(fs, targetDir, findExecutable(QemuBinary(arch).value));
  }

  /** The copy of `src` that `CopyEmulatorStage` makes is written at `targetDir + src`. */
  lemma {:induction false} CopyEmulatorLands(fs: Tree, targetDir: string, src: string)
    requires targetDir != [] && targetDir[|targetDir| - 1] != '/' && CleanAbsolute(src)
    requires src in fs && fs[src].File? && !MakeDirsBlocked(fs, QemuDestDir(targetDir, src))
    ensures var s := if QemuDestDir(targetDir, src) in fs then Step(fs, Ok(())) else MakeDirsStep(fs, QemuDestDir(targetDir, src));
      s.result.Ok? && IsDir(s.fs, QemuDestDir(targetDir, src)) && src in s.fs && s.fs[src] == fs[src] &&
      CopyDestination(s.fs, src, QemuDestDir(targetDir, src)) == targetDir + src &&
      (targetDir + src in fs ==> targetDir + src in s.fs && s.fs[targetDir + src] == fs[targetDir + src]) &&
      (targetDir + src !in fs ==> targetDir + src !in s.fs)
  {
    var dest := QemuDestDir(targetDir, src);
    QemuCopyPath(targetDir, src);
    assert |dest| < |targetDir + src|;
  }

  /**
   * A directory already standing where the emulator would be copied makes
   * `copy2` raise: the stage fails with that path and the directory stays.
   */
  lemma {:induction false} QemuStageRefusesDirectory(fs: Tree, targetDir: string, arch: string, findExecutable: string -> string)
    requires QemuBinary(arch).Some?
    requires var src := findExecutable(QemuBinary(arch).value);
      && targetDir != [] && targetDir[|targetDir| - 1] != '/' && CleanAbsolute(src)
      && src in fs && fs[src].File?
      && !MakeDirsBlocked(fs, QemuDestDir(targetDir, src))
      && IsDir(fs, targetDir + src)
    ensures var src := findExecutable(QemuBinary(arch).value);
      var s := QemuStage(fs, targetDir, arch, findExecutable);
      s.result == Err(OsError(targetDir + src)) && IsDir(s.fs, targetDir + src)
  {
    CopyEmulatorLands(fs, targetDir, findExecutable(QemuBinary(arch).value));
  }

  // ---------------------------------------------------------------------------
  // The package manager commands

  function OpkgArgv(conf: string, targetDir: string, args: seq<string>): seq<string> {
    ["opkg", "--conf", conf, "--offline-root", targetDir] + args
  }

  function Subcommand(m: Mode): string {
    if m == Install then "install" else "remove"
  }

  function UpdateArgv(conf: string, targetDir: string): seq<string> {
    OpkgArgv(conf, targetDir, ["update"])
  }

  function BatchArgv(conf: string, targetDir: string, b: Batch): seq<string> {
    OpkgArgv(conf, targetDir, [Subcommand(b.mode)] + b.pkgs)
  }

  /** Everything `_prepare_target` would start if every command succeeded: the index update, then one command per batch. */
  function OpkgPlan(conf: string, targetDir: string, batches: seq<Batch>): seq<seq<string>> {
    [UpdateArgv(conf, targetDir)] +
    seq(|batches|, i requires 0 <= i < |batches| => BatchArgv(conf, targetDir, batches[i]))
  }

  /** The `i`-th command of a plan whose first command is the `k0`-th of the run exits with 0. */
  predicate Passes(exits: seq<bool>, k0: nat, i: nat) {
    Succeeds(exits, k0 + i)
  }

  /** Which of `n` commands, started from the `k0`-th of the run, is the first to fail. */
  function FirstFailure(exits: seq<bool>, k0: nat, n: nat): (r: Option<nat>)
    ensures r.Some? ==>
      r.value < n && !Passes(exits, k0, r.value) &&
      forall i :: 0 <= i < r.value ==> Passes(exits, k0, i)
    ensures r.None? ==> forall i :: 0 <= i < n ==> Passes(exits, k0, i)
    decreases n
  {
    if n == 0 then None
    else
      match FirstFailure(exits, k0, n - 1)
      case Some(i) => Some(i)
      case None => if Passes(exits, k0, n - 1) then None else Some(n - 1)
  }

  /** How many commands of the plan are started: all of them, or up to and including the first failure. */
  function IssuedCount(exits: seq<bool>, k0: nat, n: nat): nat {
    match FirstFailure(exits, k0, n)
    case None => n
    case Some(i) => i + 1
  }

  /** The outcome of running a plan: the update is the plan's first command, the batches the rest. */
  function PlanOutcome(exits: seq<bool>, k0: nat, n: nat): Outcome {
    match FirstFailure(exits, k0, n)
    case None => Ok(())
    case Some(i) => if i == 0 then Err(IndexUpdateFailed) else Err(BatchFailed)
  }

  /** The filesystem after a run, the commands it started in order, and its outcome. */
  datatype Effect = Effect(fs: Tree, issued: seq<seq<string>>, result: Outcome)

  /**
   * The middle of `_prepare_target`: `etc/target` is written, `var/run` is
   * linked to `../run` unless something is there already, and the
   * configuration is copied into `etc/opkg`. Opening a directory at
   * `etc/target` for writing fails before anything changes.
   */
  function ConfigureStage(fs: Tree, conf: string, targetDir: string, ctx: Context): (r: Step)
    ensures r.result.Err? ==>
      r.result == Err(OsError(conf)) || r.result == Err(OsError(EtcTargetPath(targetDir))) ||
      r.result == Err(OsError(Join(EtcOpkgPath(targetDir), Basename(conf))))
    ensures IsDir(fs, EtcTargetPath(targetDir)) <==> r == Step(fs, Err(OsError(EtcTargetPath(targetDir))))
  {
    if IsDir(fs, EtcTargetPath(targetDir)) then Step(fs, Err(OsError(EtcTargetPath(targetDir))))
    else
      var fs1 := fs[EtcTargetPath(targetDir) := File(EtcTargetLines(ctx))];
      var fs2 := if VarRunPath(targetDir) in fs1 then fs1 else fs1[VarRunPath(targetDir) := Symlink("../run")];
      Copy2Step(fs2, conf, EtcOpkgPath(targetDir))
  }

  /** Everything `_prepare_target` does before its first command: the skeleton, the emulator, the configuration files. */
  function SetupStage(fs: Tree, plat: Platform, arch: string, conf: string, targetDir: string, ctx: Context): (r: Step)
    ensures r.result.Err? ==> r.result.error.QemuNotFound? || r.result.error.OsError?
  {
    var sk := Skeleton(fs, targetDir);
    if sk.result.Err? then sk
    else
      var q := QemuStage(sk.fs, targetDir, arch, plat.findExecutable);
      if q.result.Err? then q else ConfigureStage(q.fs, conf, targetDir, ctx)
  }

  /** The plan run after a setup stage: nothing if the setup failed, otherwise the commands up to the first failure. */
  function PlanEffect(setup: Step, conf: string, targetDir: string, batches: seq<Batch>,
                      exits: seq<bool>, k0: nat): (e: Effect)
    ensures e.result.Err? ==> e.result == setup.result || e.result.error in {IndexUpdateFailed, BatchFailed}
  {
    if setup.result.Err? then Effect(setup.fs, [], setup.result)
    else
      var plan := OpkgPlan(conf, targetDir, batches);
      Effect(setup.fs, plan[..IssuedCount(exits, k0, |plan|)], PlanOutcome(exits, k0, |plan|))
  }

  /** `_prepare_target`: the setup, then the plan. */
  function PrepareEffect(fs: Tree, plat: Platform, arch: string, conf: string, targetDir: string,
                         batches: seq<Batch>, ctx: Context, exits: seq<bool>, k0: nat): Effect
  {
    PlanEffect(SetupStage(fs, plat, arch, conf, targetDir, ctx), conf, targetDir, batches, exits, k0)
  }

  /**
   * `bootstrap`: the cache stage, the package spec, the configuration written
   * into a fresh temporary directory, the preparation, and the removal of the
   * temporary directory whatever the preparation's outcome.
   */
  function BootstrapEffect(fs: Tree, release: string, arch: string, libc: string, doVerify: bool,
                           plat: Platform, targetDir: string, specfile: string,
                           repoBase: Option<string>, tmpDir: string, exits: seq<bool>, k0: nat): (e: Effect)
    ensures e.result.Err? ==>
      || e.result.error.SpecNotFound? || e.result.error.SpecNotRegularFile? || e.result.error.SpecMalformed?
      || e.result.error.QemuNotFound? || e.result.error.OsError?
      || e.result.error == IndexUpdateFailed || e.result.error == BatchFailed
  {
    AfterCache(CacheStage(fs, PackageCache(plat.cacheDir, release, arch, libc), targetDir),
               MakeContext(release, arch, libc, doVerify, plat, targetDir, repoBase),
               plat, arch, targetDir, specfile, tmpDir, exits, k0)
  }

  /** `bootstrap` after its cache stage `c`: nothing more if that failed, otherwise the spec, then the preparation. */
  function AfterCache(c: Step, ctx: Context, plat: Platform, arch: string, targetDir: string, specfile: string,
                      tmpDir: string, exits: seq<bool>, k0: nat): (e: Effect)
    ensures e.result.Err? ==>
      || e.result == c.result
      || e.result.error.SpecNotFound? || e.result.error.SpecNotRegularFile? || e.result.error.SpecMalformed?
      || e.result.error.QemuNotFound? || e.result.error.OsError?
      || e.result.error == IndexUpdateFailed || e.result.error == BatchFailed
  {
    if c.result.Err? then Effect(c.fs, [], c.result)
    else
      match ReadSpec(c.fs, specfile)
      case Err(e) => Effect(c.fs, [], Err(e))
      case Ok(batches) =>
        var fs2 := c.fs[tmpDir := Dir][ConfPath(tmpDir) := File(OpkgConfLines(ctx))];
        var p := PrepareEffect(fs2, plat, arch, ConfPath(tmpDir), targetDir, batches, ctx, exits, k0);
        Effect(RemoveTree(p.fs, tmpDir), p.issued, p.result)
  }

  // ---------------------------------------------------------------------------
  // The class

  class BBoxBootstrap {
    const release: string
    const arch: string
    const libc: string
    const doVerify: bool
    /** Kept as the source keeps it; `Bootstrap` takes the cache from the platform instead. */
    const cacheDir: string

    constructor (release: string, arch: string, libc: string, doVerify: bool,
                 cacheDir: Option<string>, plat: Platform)
      ensures this.release == release && this.arch == arch && this.libc == libc
      ensures this.doVerify == doVerify
      ensures this.cacheDir == if cacheDir.None? || cacheDir.value == "" then plat.cacheDir else cacheDir.value
    {
      this.release := release;
      this.arch := arch;
      this.libc := libc;
      this.doVerify := doVerify;
      this.cacheDir := if cacheDir.None? || cacheDir.value == "" then plat.cacheDir else cacheDir.value;
    }

    /** The start of `bootstrap`: the package cache is created and linked from the target. */
    method LinkPackageCache(h: Host, packageCache: string, targetDir: string) returns (r: Outcome)
      modifies h
      ensures var s := CacheStage(old(h.fs), packageCache, targetDir);
        h.fs == s.fs && r == s.result && h.calls == old(h.calls)
    {
      r := Ok(());
      if packageCache !in h.fs {
        r := h.Mkdirs(packageCache);
        if r.Err? {
          return;
        }
      }
      var link := CacheLink(targetDir);
      if link !in h.fs {
        h.fs := h.fs[link := Symlink(packageCache)];
      }
    }

    /** `_read_package_spec`. */
    method ReadPackageSpec(h: Host, specfile: string) returns (r: Result<seq<Batch>, BBoxError>)
      ensures r == ReadSpec(h.fs, specfile)
    {
      if specfile !in h.fs {
        return Err(SpecNotFound(specfile));
      }
      if !h.fs[specfile].File? {
        return Err(SpecNotRegularFile(specfile));
      }
      var parsed := ParseLines(h.fs[specfile].lines);
      match parsed
      case Ok(bs) => r := Ok(bs);
      case Err(n) => r := Err(SpecMalformed(specfile, n));
    }

    /** `_copy_qemu`. */
    method CopyQemu(h: Host, plat: Platform, targetDir: string) returns (r: Outcome)
      modifies h
      ensures h.calls == old(h.calls)
      ensures var s := QemuStage(old(h.fs), targetDir, arch, plat.findExecutable);
        h.fs == s.fs && r == s.result
    {
      var qemuUserStatic := SelectQemuBinary(arch);
      if qemuUserStatic == "" {
        QemuBinaryNonEmpty(arch);
        return Ok(());
      }
      assert QemuBinary(arch) == Some(qemuUserStatic);
      var sourcePath := plat.findExecutable(qemuUserStatic);
      if sourcePath == "" {
        return Err(QemuNotFound(qemuUserStatic));
      }
      r := CopyEmulator(h, targetDir, sourcePath);
    }

    /** The end of `_copy_qemu`: the directory, then the copy. */
    method CopyEmulator(h: Host, targetDir: string, sourcePath: string) returns (r: Outcome)
      modifies h
      ensures var s := CopyEmulatorStage(old(h.fs), targetDir, sourcePath);
        h.fs == s.fs && r == s.result && h.calls == old(h.calls)
    {
      var dest := QemuDestDir(targetDir, sourcePath);
      if dest !in h.fs {
        r := h.Mkdirs(dest);
        if r.Err? {
          return;
        }
      }
      r := h.Copy2(sourcePath, dest);
    }

    /** `_prepare_target`. */
    method PrepareTarget(h: Host, plat: Platform, conf: string, targetDir: string,
                         batches: seq<Batch>, ctx: Context) returns (r: Outcome)
      modifies h
      ensures var e := PrepareEffect(old(h.fs), plat, arch, conf, targetDir, batches, ctx, h.exits, |old(h.calls)|);
        h.fs == e.fs && h.calls == old(h.calls) + e.issued && r == e.result
    {
      r := CreateSkeleton(h, targetDir);
      if r.Err? {
        return;
      }
      r := CopyQemu(h, plat, targetDir);
      ghost var q := QemuStage(Skeleton(old(h.fs), targetDir).fs, targetDir, arch, plat.findExecutable);
      assert h.fs == q.fs && r == q.result;
      if r.Err? {
        return;
      }

      r := ConfigureTarget(h, conf, targetDir, ctx);
      if r.Err? {
        return;
      }
      r := RunOpkgPlan(h, conf, targetDir, batches);
    }

    /** The middle of `_prepare_target`: `etc/target`, the `var/run` link and the copy of the configuration. */
    method ConfigureTarget(h: Host, conf: string, targetDir: string, ctx: Context) returns (r: Outcome)
      modifies h
      ensures var s := ConfigureStage(old(h.fs), conf, targetDir, ctx);
        h.fs == s.fs && r == s.result && h.calls == old(h.calls)
    {
      if IsDir(h.fs, EtcTargetPath(targetDir)) {
        return Err(OsError(EtcTargetPath(targetDir)));
      }
      var fs := h.fs[EtcTargetPath(targetDir) := File(EtcTargetLines(ctx))];
      var varRun := VarRunPath(targetDir);
      if varRun !in fs {
        fs := fs[varRun := Symlink("../run")];
      }
      h.fs := fs;
      r := h.Copy2(conf, EtcOpkgPath(targetDir));
    }

    /** The loop at the start of `_prepare_target` that creates the skeleton directories. */
    method CreateSkeleton(h: Host, targetDir: string) returns (r: Outcome)
      modifies h
      ensures var s := Skeleton(old(h.fs), targetDir);
        h.fs == s.fs && r == s.result && h.calls == old(h.calls)
    {
      r := MakeEachOn(h, targetDir, SkeletonDirs);
    }

    /** `os.makedirs(..., exist_ok=True)` of each of `dirs` under `targetDir`, stopping at the first failure. */
    method MakeEachOn(h: Host, targetDir: string, dirs: seq<string>) returns (r: Outcome)
      modifies h
      ensures var s := MakeEach(old(h.fs), targetDir, dirs);
        h.fs == s.fs && r == s.result && h.calls == old(h.calls)
    {
      r := Ok(());
      var i := 0;
      while i < |dirs|
        invariant i <= |dirs|
        invariant MakeEach(h.fs, targetDir, dirs[i..]) == MakeEach(old(h.fs), targetDir, dirs)
        invariant h.calls == old(h.calls) && r == Ok(())
      {
        r := h.Mkdirs(Join(targetDir, dirs[i]));
        if r.Err? {
          return;
        }
        assert dirs[i..][1..] == dirs[i + 1..];
        i := i + 1;
      }
    }

    /** The commands at the end of `_prepare_target`: the index update, then each batch, stopping at the first failure. */
    method RunOpkgPlan(h: Host, conf: string, targetDir: string, batches: seq<Batch>) returns (r: Outcome)
      modifies h
      ensures var plan := OpkgPlan(conf, targetDir, batches);
        && h.fs == old(h.fs)
        && h.calls == old(h.calls) + plan[..IssuedCount(h.exits, |old(h.calls)|, |plan|)]
        && r == PlanOutcome(h.exits, |old(h.calls)|, |plan|)
    {
      ghost var k0 := |h.calls|;
      ghost var plan := OpkgPlan(conf, targetDir, batches);
      var ok := h.Run(UpdateArgv(conf, targetDir));
      if !ok {
        FailsAt(h.exits, k0, 0, |plan|);
        return Err(IndexUpdateFailed);
      }
      var j := 0;
      while j < |batches|
        invariant j <= |batches|
        invariant h.fs == old(h.fs)
        invariant h.calls == old(h.calls) + plan[..j + 1]
        invariant FirstFailure(h.exits, k0, j + 1) == None
      {
        ok := h.Run(BatchArgv(conf, targetDir, batches[j]));
        TakeSnoc(old(h.calls), plan, j + 1);
        if !ok {
          FailsAt(h.exits, k0, j + 1, |plan|);
          return Err(BatchFailed);
        }
        j := j + 1;
      }
      assert plan[..j + 1] == plan;
      return Ok(());
    }

    /** `bootstrap`; `tmpDir` is the directory the temporary-directory helper creates. */
    method Bootstrap(h: Host, plat: Platform, targetDir: string, specfile: string,
                     repoBase: Option<string>, tmpDir: string) returns (r: Outcome)
      modifies h
      ensures var e := BootstrapEffect(old(h.fs), release, arch, libc, doVerify, plat, targetDir,
                                       specfile, repoBase, tmpDir, h.exits, |old(h.calls)|);
        h.fs == e.fs && h.calls == old(h.calls) + e.issued && r == e.result
    {
      var ctx := MakeContext(release, arch, libc, doVerify, plat, targetDir, repoBase);
      var packageCache := PackageCache(plat.cacheDir, release, arch, libc);
      ghost var c := CacheStage(h.fs, packageCache, targetDir);
      assert BootstrapEffect(h.fs, release, arch, libc, doVerify, plat, targetDir, specfile, repoBase, tmpDir,
                             h.exits, |h.calls|)
        == AfterCache(c, ctx, plat, arch, targetDir, specfile, tmpDir, h.exits, |h.calls|);
      r := LinkPackageCache(h, packageCache, targetDir);
      if r.Err? {
        return;
      }
      assert c == Step(h.fs, Ok(()));
      r := SpecAndPrepare(h, plat, targetDir, specfile, tmpDir, ctx);
    }

    /** The rest of `bootstrap` once the package cache is linked: the spec, then the target, then the temporary directory goes. */
    method SpecAndPrepare(h: Host, plat: Platform, targetDir: string, specfile: string, tmpDir: string,
                          ctx: Context) returns (r: Outcome)
      modifies h
      ensures var e := AfterCache(Step(old(h.fs), Ok(())), ctx, plat, arch, targetDir, specfile, tmpDir,
                                  h.exits, |old(h.calls)|);
        h.fs == e.fs && h.calls == old(h.calls) + e.issued && r == e.result
    {
      var batches := ReadPackageSpec(h, specfile);
      if batches.Err? {
        return Err(batches.error);
      }
      var conf := ConfPath(tmpDir);
      h.fs := h.fs[tmpDir := Dir][conf := File(OpkgConfLines(ctx))];
      r := PrepareTarget(h, plat, conf, targetDir, batches.value, ctx);
      h.fs := RemoveTree(h.fs, tmpDir);
    }
  }

  // ---------------------------------------------------------------------------
  // Properties of a run

  /** The first of `m` commands to fail, when all before it passed, is the first failure among any `n > m`. */
  lemma {:induction false} FailsAt(exits: seq<bool>, k0: nat, m: nat, n: nat)
    requires m < n && FirstFailure(exits, k0, m) == None && !Passes(exits, k0, m)
    ensures FirstFailure(exits, k0, n) == Some(m)
    ensures IssuedCount(exits, k0, n) == m + 1
  {
    assert FirstFailure(exits, k0, m + 1) == Some(m);
    FirstFailureStable(exits, k0, m + 1, n);
  }

  /** One more element taken from `s` after a common prefix. */
  lemma {:induction false} TakeSnoc<T>(pre: seq<T>, s: seq<T>, n: nat)
    requires n < |s|
    ensures pre + s[..n] + [s[n]] == pre + s[..n + 1]
  {
    assert s[..n + 1] == s[..n] + [s[n]];
  }

  /** A failure among the first `m` commands is the first failure among any `n >= m`. */
  lemma {:induction false} FirstFailureStable(exits: seq<bool>, k0: nat, m: nat, n: nat)
    requires m <= n && FirstFailure(exits, k0, m).Some?
    ensures FirstFailure(exits, k0, n) == FirstFailure(exits, k0, m)
    decreases n
  {
    if n > m {
      FirstFailureStable(exits, k0, m, n - 1);
    }
  }

  /**
   * Running a plan of `n >= 1` commands starts at least one; it succeeds
   * exactly when every command exits with 0, and then starts them all; it
   * fails at the last command it starts, after all before it succeeded, and
   * the failure is the index update's exactly when that was the only one.
   */
  lemma {:induction false} PlanRun(exits: seq<bool>, k0: nat, n: nat)
    requires n >= 1
    ensures var c := IssuedCount(exits, k0, n);
      var o := PlanOutcome(exits, k0, n);
      && 1 <= c <= n
      && (o.Ok? <==> forall i :: 0 <= i < n ==> Passes(exits, k0, i))
      && (o.Ok? ==> c == n)
      && (o.Err? ==> !Passes(exits, k0, c - 1) && forall i :: 0 <= i < c - 1 ==> Passes(exits, k0, i))
      && (o.Err? ==> (o.error == IndexUpdateFailed || o.error == BatchFailed))
      && (o.Err? ==> (o.error == IndexUpdateFailed <==> c == 1))
  {
    var o := PlanOutcome(exits, k0, n);
    if o.Ok? {
      assert FirstFailure(exits, k0, n).None?;
    } else {
      var i := FirstFailure(exits, k0, n).value;
      assert !(forall j :: 0 <= j < n ==> Passes(exits, k0, j)) by {
        assert !Passes(exits, k0, i);
      }
    }
  }

  /** The packages named on a list of `opkg` commands: the operands after each command's subcommand. */
  function PlanPackages(cmds: seq<seq<string>>): seq<string> {
    if cmds == [] then []
    else
      var argv := cmds[|cmds| - 1];
      PlanPackages(cmds[..|cmds| - 1]) + (if |argv| <= 6 then [] else argv[6..])
  }

  /** The commands of a plan name exactly the packages of its batches, in order. */
  lemma {:induction false} PlanPackagesOfPlan(conf: string, targetDir: string, bs: seq<Batch>)
    ensures PlanPackages(OpkgPlan(conf, targetDir, bs)) == Flatten(bs)
    decreases |bs|
  {
    var plan := OpkgPlan(conf, targetDir, bs);
    if bs == [] {
      assert plan[..0] == [];
    } else {
      var init := bs[..|bs| - 1];
      var last := bs[|bs| - 1];
      assert plan[..|plan| - 1] == OpkgPlan(conf, targetDir, init);
      PlanPackagesOfPlan(conf, targetDir, init);
      assert plan[|plan| - 1] == BatchArgv(conf, targetDir, last);
      assert BatchArgv(conf, targetDir, last)[6..] == last.pkgs;
    }
  }

  /** A successful run of the plan started the whole plan, and every command of it succeeded. */
  lemma {:induction false} PlanSucceeded(setup: Step, conf: string, targetDir: string, batches: seq<Batch>, exits: seq<bool>, k0: nat)
    requires PlanEffect(setup, conf, targetDir, batches, exits, k0).result.Ok?
    ensures var e := PlanEffect(setup, conf, targetDir, batches, exits, k0);
      e.issued == OpkgPlan(conf, targetDir, batches) &&
      forall i :: 0 <= i < |e.issued| ==> Passes(exits, k0, i)
  {
    var plan := OpkgPlan(conf, targetDir, batches);
    PlanRun(exits, k0, |plan|);
    assert plan[..|plan|] == plan;
  }

  /**
   * A run of the plan that failed on a command started a non-empty prefix
   * of the plan, the index update first, all of whose commands succeeded but
   * the last.
   */
  lemma {:induction false} PlanFailed(setup: Step, conf: string, targetDir: string, batches: seq<Batch>, exits: seq<bool>, k0: nat)
    requires setup.result.Ok?
    requires var r := PlanEffect(setup, conf, targetDir, batches, exits, k0).result;
      r == Err(IndexUpdateFailed) || r == Err(BatchFailed)
    ensures var e := PlanEffect(setup, conf, targetDir, batches, exits, k0);
      var plan := OpkgPlan(conf, targetDir, batches);
      FailedPrefix(e.issued, plan, e.result, exits, k0) && e.issued[0] == UpdateArgv(conf, targetDir)
  {
    var plan := OpkgPlan(conf, targetDir, batches);
    PlanRun(exits, k0, |plan|);
    var c := IssuedCount(exits, k0, |plan|);
    assert |plan[..c]| == c;
  }

  /**
   * `issued` is a non-empty prefix of `plan` whose last command failed after
   * all before it passed; the failure is the index update's exactly when
   * that was the only command.
   */
  predicate FailedPrefix(issued: seq<seq<string>>, plan: seq<seq<string>>, result: Outcome, exits: seq<bool>, k0: nat) {
    && 1 <= |issued| <= |plan| && issued == plan[..|issued|]
    && !Passes(exits, k0, |issued| - 1)
    && (forall i :: 0 <= i < |issued| - 1 ==> Passes(exits, k0, i))
    && (result == Err(IndexUpdateFailed) <==> |issued| == 1)
  }

  /** A path that is not a file before the cache stage is not one after it; one that is, is unchanged. */
  lemma {:induction false} CacheStageKeepsSpec(fs: Tree, cache: string, targetDir: string, specfile: string)
    ensures var fs1 := CacheStage(fs, cache, targetDir).fs;
      ReadSpec(fs1, specfile).Ok? <==> ReadSpec(fs, specfile).Ok?
    ensures var fs1 := CacheStage(fs, cache, targetDir).fs;
      ReadSpec(fs, specfile).Ok? ==> ReadSpec(fs1, specfile) == ReadSpec(fs, specfile)
  {
  }

  /** The configuration copy never lands on `etc/target`. */
  lemma {:induction false} CopyAvoidsEtcTarget(fs: Tree, conf: string, targetDir: string)
    requires targetDir != [] && targetDir[|targetDir| - 1] != '/'
    ensures CopyDestination(fs, conf, EtcOpkgPath(targetDir)) != EtcTargetPath(targetDir)
  {
    TargetPaths(targetDir);
    var d := CopyDestination(fs, conf, EtcOpkgPath(targetDir));
    var n := |targetDir|;
    assert (targetDir + "/etc/target")[n + 5] == 't';
    assert |d| >= n + 6 && d[n + 5] == 'o' by {
      var opkg := targetDir + "/etc/opkg";
      assert opkg[n + 5] == 'o';
      if IsDir(fs, EtcOpkgPath(targetDir)) {
        var b := Basename(conf);
        assert b == [] || b[0] != '/';
        assert opkg[|opkg| - 1] == 'g';
        assert d == opkg + "/" + b;
      }
    }
  }

  /** The configuration copy never lands on `var/run`. */
  lemma {:induction false} CopyAvoidsVarRun(fs: Tree, conf: string, targetDir: string)
    requires targetDir != [] && targetDir[|targetDir| - 1] != '/'
    ensures CopyDestination(fs, conf, EtcOpkgPath(targetDir)) != VarRunPath(targetDir)
  {
    TargetPaths(targetDir);
    var d := CopyDestination(fs, conf, EtcOpkgPath(targetDir));
    var n := |targetDir|;
    assert (targetDir + "/var/run")[n + 1] == 'v';
    assert |d| >= n + 2 && d[n + 1] == 'e' by {
      var opkg := targetDir + "/etc/opkg";
      assert opkg[n + 1] == 'e';
      if IsDir(fs, EtcOpkgPath(targetDir)) {
        var b := Basename(conf);
        assert b == [] || b[0] != '/';
        assert opkg[|opkg| - 1] == 'g';
        assert d == opkg + "/" + b;
      }
    }
  }

  /**
   * A successful configuration stage leaves `var/run` as it found it when
   * something was there, and otherwise a symbolic link to `../run`.
   */
  lemma {:induction false} ConfigureLinksVarRun(fs: Tree, conf: string, targetDir: string, ctx: Context)
    requires targetDir != [] && targetDir[|targetDir| - 1] != '/'
    requires ConfigureStage(fs, conf, targetDir, ctx).result.Ok?
    ensures var r := ConfigureStage(fs, conf, targetDir, ctx).fs; var v := VarRunPath(targetDir);
      v in r && r[v] == (if v in fs then fs[v] else Symlink("../run"))
  {
    var v := VarRunPath(targetDir);
    TargetPaths(targetDir);
    var n := |targetDir|;
    assert v != EtcTargetPath(targetDir) by {
      assert v[n + 1] == 'v' && (targetDir + "/etc/target")[n + 1] == 'e';
    }
    var fs1 := fs[EtcTargetPath(targetDir) := File(EtcTargetLines(ctx))];
    var fs2 := if v in fs1 then fs1 else fs1[v := Symlink("../run")];
    assert fs2[v] == (if v in fs then fs[v] else Symlink("../run"));
    CopyAvoidsVarRun(fs2, conf, targetDir);
  }

  /**
   * A directory standing where the configuration would be copied inside
   * `etc/opkg` makes `copy2` raise: the stage fails with that path, after
   * `etc/target` was written, and the directory stays.
   */
  lemma {:induction false} ConfigureRefusesDirectory(fs: Tree, conf: string, targetDir: string, ctx: Context)
    requires targetDir != [] && targetDir[|targetDir| - 1] != '/'
    requires !IsDir(fs, EtcTargetPath(targetDir))
    requires conf in fs && fs[conf].File? && conf != EtcTargetPath(targetDir)
    requires IsDir(fs, EtcOpkgPath(targetDir)) && IsDir(fs, Join(EtcOpkgPath(targetDir), Basename(conf)))
    ensures var r := ConfigureStage(fs, conf, targetDir, ctx);
      var d := Join(EtcOpkgPath(targetDir), Basename(conf));
      r.result == Err(OsError(d)) && IsDir(r.fs, d) &&
      r.fs[EtcTargetPath(targetDir)] == File(EtcTargetLines(ctx))
  {
    var d := Join(EtcOpkgPath(targetDir), Basename(conf));
    TargetPaths(targetDir);
    var n := |targetDir|;
    assert EtcOpkgPath(targetDir) != EtcTargetPath(targetDir) by {
      assert (targetDir + "/etc/opkg")[n + 5] == 'o' && (targetDir + "/etc/target")[n + 5] == 't';
    }
    CopyAvoidsEtcTarget(fs, conf, targetDir);
    var fs1 := fs[EtcTargetPath(targetDir) := File(EtcTargetLines(ctx))];
    var fs2 := if VarRunPath(targetDir) in fs1 then fs1 else fs1[VarRunPath(targetDir) := Symlink("../run")];
    assert IsDir(fs2, EtcOpkgPath(targetDir)) && IsDir(fs2, d);
    assert conf in fs2 && fs2[conf].File?;
  }

  /** A successful configuration stage leaves `etc/target` holding the generated lines. */
  lemma {:induction false} ConfigureWritesIdentity(fs: Tree, conf: string, targetDir: string, ctx: Context)
    requires targetDir != [] && targetDir[|targetDir| - 1] != '/'
    requires ConfigureStage(fs, conf, targetDir, ctx).result.Ok?
    ensures var r := ConfigureStage(fs, conf, targetDir, ctx).fs;
      EtcTargetPath(targetDir) in r && r[EtcTargetPath(targetDir)] == File(EtcTargetLines(ctx))
  {
    var fs1 := fs[EtcTargetPath(targetDir) := File(EtcTargetLines(ctx))];
    var fs2 := if VarRunPath(targetDir) in fs1 then fs1 else fs1[VarRunPath(targetDir) := Symlink("../run")];
    assert fs2[EtcTargetPath(targetDir)] == File(EtcTargetLines(ctx));
    CopyAvoidsEtcTarget(fs2, conf, targetDir);
  }

  /**
   * A package cache that cannot be made, because a file stands where it or
   * one of its ancestors should be, stops `bootstrap` first: nothing
   * changes, nothing runs, and the error names the cache.
   */
  lemma {:induction false} BootstrapCacheBlocked(fs: Tree, release: string, arch: string, libc: string, doVerify: bool,
                                                 plat: Platform, targetDir: string, specfile: string,
                                                 repoBase: Option<string>, tmpDir: string, exits: seq<bool>, k0: nat)
    requires var cache := PackageCache(plat.cacheDir, release, arch, libc); cache !in fs && MakeDirsBlocked(fs, cache)
    ensures BootstrapEffect(fs, release, arch, libc, doVerify, plat, targetDir, specfile, repoBase, tmpDir, exits, k0)
      == Effect(fs, [], Err(OsError(PackageCache(plat.cacheDir, release, arch, libc))))
  {
  }

  /**
   * A spec file that is missing, not a regular file or malformed stops
   * `bootstrap` before any command: only the cache stage has happened and no
   * temporary directory was made. Unless the cache stage failed first, the
   * error is the spec file's own, except that a missing spec path the cache
   * stage has just created as a directory is reported as not a regular file.
   */
  lemma {:induction false} BootstrapSpecError(fs: Tree, release: string, arch: string, libc: string, doVerify: bool,
                           plat: Platform, targetDir: string, specfile: string,
                           repoBase: Option<string>, tmpDir: string, exits: seq<bool>, k0: nat)
    requires ReadSpec(fs, specfile).Err?
    ensures var e := BootstrapEffect(fs, release, arch, libc, doVerify, plat, targetDir, specfile,
                                     repoBase, tmpDir, exits, k0);
      var c := CacheStage(fs, PackageCache(plat.cacheDir, release, arch, libc), targetDir);
      && e.issued == []
      && e.fs == c.fs
      && e.result.Err?
      && (c.result.Err? ==> e.result == c.result)
      && (c.result.Ok? ==>
            e.result.error == ReadSpec(fs, specfile).error ||
            (ReadSpec(fs, specfile).error == SpecNotFound(specfile) &&
             e.result.error == SpecNotRegularFile(specfile)))
  {
    var cache := PackageCache(plat.cacheDir, release, arch, libc);
    var c := CacheStage(fs, cache, targetDir);
    var ctx := MakeContext(release, arch, libc, doVerify, plat, targetDir, repoBase);
    assert BootstrapEffect(fs, release, arch, libc, doVerify, plat, targetDir, specfile, repoBase, tmpDir, exits, k0)
      == AfterCache(c, ctx, plat, arch, targetDir, specfile, tmpDir, exits, k0);
    CacheStageSpecError(fs, cache, targetDir, specfile);
  }

  /** A spec that cannot be read before the cache stage cannot be read after it, for the same reason or because it is now a directory. */
  lemma {:induction false} CacheStageSpecError(fs: Tree, cache: string, targetDir: string, specfile: string)
    requires ReadSpec(fs, specfile).Err?
    ensures var r := ReadSpec(CacheStage(fs, cache, targetDir).fs, specfile);
      r.Err? && (r.error == ReadSpec(fs, specfile).error ||
                 (ReadSpec(fs, specfile).error == SpecNotFound(specfile) && r.error == SpecNotRegularFile(specfile)))
  {
    var fs1 := CacheStage(fs, cache, targetDir).fs;
    if specfile in fs {
      assert fs1[specfile] == fs[specfile];
    } else if specfile in fs1 {
      assert !fs1[specfile].File?;
    }
  }

  /**
   * A successful `bootstrap` read its spec from the filesystem as it was,
   * started the whole plan for it, every command of which succeeded, and
   * named on its commands exactly the spec's `+` and `-` packages in file
   * order.
   */
  lemma {:induction false} BootstrapRunsSpec(fs: Tree, release: string, arch: string, libc: string, doVerify: bool,
                          plat: Platform, targetDir: string, specfile: string,
                          repoBase: Option<string>, tmpDir: string, exits: seq<bool>, k0: nat)
    requires BootstrapEffect(fs, release, arch, libc, doVerify, plat, targetDir, specfile,
                             repoBase, tmpDir, exits, k0).result.Ok?
    ensures ReadSpec(fs, specfile).Ok?
    ensures var e := BootstrapEffect(fs, release, arch, libc, doVerify, plat, targetDir, specfile,
                                     repoBase, tmpDir, exits, k0);
      && e.issued == OpkgPlan(ConfPath(tmpDir), targetDir, ReadSpec(fs, specfile).value)
      && (forall i :: 0 <= i < |e.issued| ==> Passes(exits, k0, i))
      && PlanPackages(e.issued) == Tokens(Directives(fs[specfile].lines))
  {
    var cache := PackageCache(plat.cacheDir, release, arch, libc);
    var c := CacheStage(fs, cache, targetDir);
    var fs1 := c.fs;
    var ctx := MakeContext(release, arch, libc, doVerify, plat, targetDir, repoBase);
    assert BootstrapEffect(fs, release, arch, libc, doVerify, plat, targetDir, specfile, repoBase, tmpDir, exits, k0)
      == AfterCache(c, ctx, plat, arch, targetDir, specfile, tmpDir, exits, k0);
    assert c.result.Ok? && ReadSpec(fs1, specfile).Ok?;
    CacheStageKeepsSpec(fs, cache, targetDir, specfile);
    var batches := ReadSpec(fs1, specfile).value;
    var conf := ConfPath(tmpDir);
    var fs2 := fs1[tmpDir := Dir][conf := File(OpkgConfLines(ctx))];
    var setup := SetupStage(fs2, plat, arch, conf, targetDir, ctx);
    PlanSucceeded(setup, conf, targetDir, batches, exits, k0);
    PlanPackagesOfPlan(conf, targetDir, batches);
    ParseContents(fs[specfile].lines);
  }

  /**
   * A `bootstrap` that failed on an `opkg` command started a non-empty prefix
   * of the plan for its spec, the index update first, and every command but
   * the last succeeded; the failure is the index update's exactly when that
   * was the only command.
   */
  lemma {:induction false} BootstrapFailedCommand(fs: Tree, release: string, arch: string, libc: string, doVerify: bool,
                               plat: Platform, targetDir: string, specfile: string,
                               repoBase: Option<string>, tmpDir: string, exits: seq<bool>, k0: nat)
    requires var r := BootstrapEffect(fs, release, arch, libc, doVerify, plat, targetDir, specfile,
                                      repoBase, tmpDir, exits, k0).result;
      r == Err(IndexUpdateFailed) || r == Err(BatchFailed)
    ensures ReadSpec(fs, specfile).Ok?
    ensures var e := BootstrapEffect(fs, release, arch, libc, doVerify, plat, targetDir, specfile,
                                     repoBase, tmpDir, exits, k0);
      var plan := OpkgPlan(ConfPath(tmpDir), targetDir, ReadSpec(fs, specfile).value);
      FailedPrefix(e.issued, plan, e.result, exits, k0) && e.issued[0] == UpdateArgv(ConfPath(tmpDir), targetDir)
  {
    var cache := PackageCache(plat.cacheDir, release, arch, libc);
    var c := CacheStage(fs, cache, targetDir);
    var ctx := MakeContext(release, arch, libc, doVerify, plat, targetDir, repoBase);
    assert BootstrapEffect(fs, release, arch, libc, doVerify, plat, targetDir, specfile, repoBase, tmpDir, exits, k0)
      == AfterCache(c, ctx, plat, arch, targetDir, specfile, tmpDir, exits, k0);
    AfterCacheFailedCommand(c, ctx, plat, arch, targetDir, specfile, tmpDir, exits, k0);
    assert ReadSpec(fs, specfile) == ReadSpec(c.fs, specfile) by {
      CacheStageKeepsSpec(fs, cache, targetDir, specfile);
    }
  }

  /** `BootstrapFailedCommand` for the part of `bootstrap` after the cache stage. */
  lemma {:induction false} AfterCacheFailedCommand(c: Step, ctx: Context, plat: Platform, arch: string, targetDir: string,
                                                   specfile: string, tmpDir: string, exits: seq<bool>, k0: nat)
    requires var r := AfterCache(c, ctx, plat, arch, targetDir, specfile, tmpDir, exits, k0).result;
      r == Err(IndexUpdateFailed) || r == Err(BatchFailed)
    requires c.result.Err? ==> c.result.error.OsError?
    ensures c.result.Ok? && ReadSpec(c.fs, specfile).Ok?
    ensures var e := AfterCache(c, ctx, plat, arch, targetDir, specfile, tmpDir, exits, k0);
      var plan := OpkgPlan(ConfPath(tmpDir), targetDir, ReadSpec(c.fs, specfile).value);
      FailedPrefix(e.issued, plan, e.result, exits, k0) && e.issued[0] == UpdateArgv(ConfPath(tmpDir), targetDir)
  {
    var batches := ReadSpec(c.fs, specfile).value;
    var conf := ConfPath(tmpDir);
    var fs2 := c.fs[tmpDir := Dir][conf := File(OpkgConfLines(ctx))];
    PlanFailed(SetupStage(fs2, plat, arch, conf, targetDir, ctx), conf, targetDir, batches, exits, k0);
  }

  /**
   * After a successful `bootstrap` into a target directory that is apart
   * from the temporary directory, `etc/target` holds the identity lines of
   * the run's context, and nothing of the temporary directory is left.
   */
  lemma {:induction false} BootstrapWritesIdentity(fs: Tree, release: string, arch: string, libc: string, doVerify: bool,
                                plat: Platform, targetDir: string, specfile: string,
                                repoBase: Option<string>, tmpDir: string, exits: seq<bool>, k0: nat)
    requires targetDir != [] && targetDir[|targetDir| - 1] != '/' && Apart(targetDir, tmpDir)
    requires BootstrapEffect(fs, release, arch, libc, doVerify, plat, targetDir, specfile,
                             repoBase, tmpDir, exits, k0).result.Ok?
    ensures var e := BootstrapEffect(fs, release, arch, libc, doVerify, plat, targetDir, specfile,
                                     repoBase, tmpDir, exits, k0);
      var ctx := MakeContext(release, arch, libc, doVerify, plat, targetDir, repoBase);
      && EtcTargetPath(targetDir) in e.fs
      && e.fs[EtcTargetPath(targetDir)] == File(EtcTargetLines(ctx))
      && forall q :: q in e.fs ==> q != tmpDir && !Below(q, tmpDir)
  {
    var cache := PackageCache(plat.cacheDir, release, arch, libc);
    var fs1 := CacheStage(fs, cache, targetDir).fs;
    var ctx := MakeContext(release, arch, libc, doVerify, plat, targetDir, repoBase);
    var conf := ConfPath(tmpDir);
    var fs2 := fs1[tmpDir := Dir][conf := File(OpkgConfLines(ctx))];
    PrepareWritesIdentity(fs2, plat, arch, conf, targetDir, ReadSpec(fs1, specfile).value, ctx, exits, k0);
    TargetPaths(targetDir);
    ApartExtension(targetDir, tmpDir, "/etc/target");
  }

  /** A successful preparation leaves `etc/target` holding the identity lines. */
  lemma {:induction false} PrepareWritesIdentity(fs: Tree, plat: Platform, arch: string, conf: string, targetDir: string,
                                                 batches: seq<Batch>, ctx: Context, exits: seq<bool>, k0: nat)
    requires targetDir != [] && targetDir[|targetDir| - 1] != '/'
    requires PrepareEffect(fs, plat, arch, conf, targetDir, batches, ctx, exits, k0).result.Ok?
    ensures var p := PrepareEffect(fs, plat, arch, conf, targetDir, batches, ctx, exits, k0);
      EtcTargetPath(targetDir) in p.fs && p.fs[EtcTargetPath(targetDir)] == File(EtcTargetLines(ctx))
  {
    var q := QemuStage(Skeleton(fs, targetDir).fs, targetDir, arch, plat.findExecutable);
    ConfigureWritesIdentity(q.fs, conf, targetDir, ctx);
  }
}

/**
 * Managing target roots under the target prefix (`BBoxTarget`): creating one
 * (directories, the `/dev` bind mount, then the bootstrap), listing them with
 * the machine each was made for, and deleting one after checking that nothing
 * is still mounted inside it.
 *
 * The class of the source has only class methods and no state, so they are
 * methods of this module working on a `Host`. The home directory, the
 * directory listing order, the contents of the mount table and the
 * resolution of symbolic links (`os.path.realpath`) are parameters.
 */
module Target {
  import opened Errors
  import opened Text
  import opened Paths
  import opened FileSystem
  import opened PackageSpec
  import opened Bootstrap

  /** `~/.bolt/targets`. */
  function TargetPrefix(home: string): string {
    JoinAll(home, [".bolt", "targets"])
  }

  /** For a home directory without a trailing `/`, the prefix is its `.bolt/targets`. */
  lemma {:induction false} TargetPrefixUnderHome(home: string)
    requires home != [] && home[|home| - 1] != '/'
    ensures TargetPrefix(home) == home + "/.bolt/targets"
  {
    JoinAllTwo(home, ".bolt", "targets");
    assert "/" + ".bolt" + "/" + "targets" == "/.bolt/targets";
  }

  /** The keyword options the commands accept; `None` is an option that was not given. */
  datatype Options = Options(
    targetPrefix: Option<string>,
    release: Option<string>,
    arch: Option<string>,
    force: bool,
    repoBase: Option<string>)

  function PrefixOf(opts: Options, home: string): string {
    opts.targetPrefix.GetOr(TargetPrefix(home))
  }

  // ---------------------------------------------------------------------------
  // create

  function MountArgv(targetDir: string): seq<string> {
    ["/usr/bin/build-box", "mount", "-m", "dev", "-t", targetDir, "."]
  }

  /**
   * The directories `create` makes before mounting: the prefix if it is no
   * directory, the target unless it is there, and its `dev`. An existing
   * target with entries is refused unless forced, and each `os.makedirs`
   * fails with its path when a file stands where it or an ancestor should be.
   */
  function CreateDirsStage(fs: Tree, prefix: string, name: string, force: bool): (s: Step)
    ensures forall q :: q in fs ==> q in s.fs && s.fs[q] == fs[q]
    ensures s.result.Ok? ==> IsDir(s.fs, Join(prefix, name)) && Join(Join(prefix, name), "dev") in s.fs
    ensures s.result.Err? ==>
      s.result.error in {OsError(prefix), OsError(Join(prefix, name)), OsError(Join(Join(prefix, name), "dev")),
                         TargetNotEmpty(Join(prefix, name))}
    ensures MakeDirsBlocked(fs, prefix) ==> s == Step(fs, Err(OsError(prefix)))
    ensures s.result == Err(TargetNotEmpty(Join(prefix, name))) ==>
      !force && IsDir(s.fs, Join(prefix, name)) && HasEntries(s.fs, Join(prefix, name))
    ensures force ==> s.result != Err(TargetNotEmpty(Join(prefix, name)))
  {
    var p := if IsDir(fs, prefix) then Step(fs, Ok(())) else MakeDirsStep(fs, prefix);
    if p.result.Err? then p
    else
      var td := Join(prefix, name);
      if td in p.fs && !IsDir(p.fs, td) then Step(p.fs, Err(OsError(td)))
      else if td in p.fs && HasEntries(p.fs, td) && !force then Step(p.fs, Err(TargetNotEmpty(td)))
      else
        var t := if td in p.fs then Step(p.fs, Ok(())) else MakeDirsStep(p.fs, td);
        if t.result.Err? then t
        else
          var dev := Join(td, "dev");
          if dev in t.fs then t else MakeDirsStep(t.fs, dev)
  }

  /** What follows the directory stage `s` of `create`: the mount of `/dev`, then the bootstrap. */
  function MountAndBootstrap(s: Step, plat: Platform, targetDir: string, specfile: string,
                             opts: Options, tmpDir: string, exits: seq<bool>, k0: nat): Effect
  {
    if s.result.Err? then Effect(s.fs, [], s.result)
    else if !Succeeds(exits, k0) then Effect(s.fs, [MountArgv(targetDir)], Err(MountFailed))
    else
      var b := BootstrapEffect(s.fs, opts.release.GetOr("stable"), opts.arch.GetOr("x86_64"), "musl", true,
                               plat, targetDir, specfile, opts.repoBase, tmpDir, exits, k0 + 1);
      Effect(b.fs, [MountArgv(targetDir)] + b.issued, b.result)
  }

  /** `create`: the directories, the mount of `/dev`, then a bootstrap with the default release and machine. */
  function CreateEffect(fs: Tree, plat: Platform, home: string, name: string, specfile: string,
                        opts: Options, tmpDir: string, exits: seq<bool>, k0: nat): Effect
  {
    var prefix := PrefixOf(opts, home);
    MountAndBootstrap(CreateDirsStage(fs, prefix, name, opts.force), plat, Join(prefix, name),
                      specfile, opts, tmpDir, exits, k0)
  }

  /** The directory part of `create`. */
  method CreateDirs(h: Host, prefix: string, name: string, force: bool) returns (r: Outcome)
    modifies h
    ensures var s := CreateDirsStage(old(h.fs), prefix, name, force);
      h.fs == s.fs && r == s.result && h.calls == old(h.calls)
  {
    r := Ok(());
    if !IsDir(h.fs, prefix) {
      r := h.Mkdirs(prefix);
      if r.Err? {
        return;
      }
    }
    var targetDir := Join(prefix, name);
    if targetDir in h.fs {
      if !IsDir(h.fs, targetDir) {
        return Err(OsError(targetDir));
      }
      if HasEntries(h.fs, targetDir) && !force {
        return Err(TargetNotEmpty(targetDir));
      }
    } else {
      r := h.Mkdirs(targetDir);
      if r.Err? {
        return;
      }
    }
    var devDir := Join(targetDir, "dev");
    if devDir !in h.fs {
      r := h.Mkdirs(devDir);
    }
  }

  /** `BBoxTarget.create`; `tmpDir` is the temporary directory the bootstrap will use. */
  method Create(h: Host, plat: Platform, home: string, name: string, specfile: string,
                opts: Options, tmpDir: string) returns (r: Outcome)
    modifies h
    ensures var e := CreateEffect(old(h.fs), plat, home, name, specfile, opts, tmpDir, h.exits, |old(h.calls)|);
      h.fs == e.fs && h.calls == old(h.calls) + e.issued && r == e.result
  {
    var prefix := PrefixOf(opts, home);
    r := CreateDirs(h, prefix, name, opts.force);
    if r.Err? {
      return;
    }
    r := MountAndBootstrapTarget(h, plat, Join(prefix, name), specfile, opts, tmpDir);
  }

  /** The part of `create` after its directory stage. */
  method MountAndBootstrapTarget(h: Host, plat: Platform, targetDir: string, specfile: string,
                                 opts: Options, tmpDir: string) returns (r: Outcome)
    modifies h
    ensures var e := MountAndBootstrap(Step(old(h.fs), Ok(())), plat, targetDir, specfile, opts, tmpDir,
                                       h.exits, |old(h.calls)|);
      h.fs == e.fs && h.calls == old(h.calls) + e.issued && r == e.result
  {
    var ok := h.Run(MountArgv(targetDir));
    if !ok {
      return Err(MountFailed);
    }
    r := BootstrapTarget(h, plat, targetDir, specfile, opts, tmpDir);
    AppendAssoc(old(h.calls), [MountArgv(targetDir)], h.calls[|old(h.calls)| + 1..]);
    MountedBootstrap(old(h.fs), plat, targetDir, specfile, opts, tmpDir, h.exits, |old(h.calls)|);
  }

  /** The bootstrap `create` runs: the default release and machine, the `musl` C library, signatures checked. */
  method BootstrapTarget(h: Host, plat: Platform, targetDir: string, specfile: string,
                         opts: Options, tmpDir: string) returns (r: Outcome)
    modifies h
    ensures var b := BootstrapEffect(old(h.fs), opts.release.GetOr("stable"), opts.arch.GetOr("x86_64"), "musl", true,
                                     plat, targetDir, specfile, opts.repoBase, tmpDir, h.exits, |old(h.calls)|);
      h.fs == b.fs && h.calls == old(h.calls) + b.issued && r == b.result
  {
    var bootstrapper := new BBoxBootstrap(opts.release.GetOr("stable"), opts.arch.GetOr("x86_64"),
                                          "musl", true, None, plat);
    r := bootstrapper.Bootstrap(h, plat, targetDir, specfile, opts.repoBase, tmpDir);
  }

  /** After a successful mount, the effect is the bootstrap's, preceded by the mount command. */
  lemma {:induction false} MountedBootstrap(fs: Tree, plat: Platform, targetDir: string, specfile: string,
                                            opts: Options, tmpDir: string, exits: seq<bool>, k0: nat)
    requires Succeeds(exits, k0)
    ensures var b := BootstrapEffect(fs, opts.release.GetOr("stable"), opts.arch.GetOr("x86_64"), "musl", true,
                                     plat, targetDir, specfile, opts.repoBase, tmpDir, exits, k0 + 1);
      MountAndBootstrap(Step(fs, Ok(())), plat, targetDir, specfile, opts, tmpDir, exits, k0)
        == Effect(b.fs, [MountArgv(targetDir)] + b.issued, b.result)
  {
  }

  lemma {:induction false} AppendAssoc<T>(a: seq<T>, b: seq<T>, c: seq<T>)
    ensures (a + b) + c == a + (b + c)
  {
  }

  /** An existing target directory with entries is refused without `force`: nothing changes and nothing runs. */
  lemma {:induction false} CreateRefusesNonEmpty(fs: Tree, plat: Platform, home: string, name: string, specfile: string,
                              opts: Options, tmpDir: string, exits: seq<bool>, k0: nat)
    requires IsDir(fs, PrefixOf(opts, home))
    requires IsDir(fs, Join(PrefixOf(opts, home), name)) && HasEntries(fs, Join(PrefixOf(opts, home), name))
    requires !opts.force
    ensures CreateEffect(fs, plat, home, name, specfile, opts, tmpDir, exits, k0) ==
      Effect(fs, [], Err(TargetNotEmpty(Join(PrefixOf(opts, home), name))))
  {
  }

  /**
   * With `force`, an existing target directory is used whatever it holds:
   * the directory stage succeeds unless its `dev` cannot be made, and
   * changes nothing when `dev` is there already.
   */
  lemma {:induction false} CreateForcedProceeds(fs: Tree, prefix: string, name: string)
    requires IsDir(fs, prefix) && IsDir(fs, Join(prefix, name))
    requires !MakeDirsBlocked(fs, Join(Join(prefix, name), "dev"))
    ensures CreateDirsStage(fs, prefix, name, true).result.Ok?
    ensures Join(Join(prefix, name), "dev") in fs ==> CreateDirsStage(fs, prefix, name, true) == Step(fs, Ok(()))
  {
  }

  /**
   * A prefix that cannot be made, because a file stands where it or one of
   * its ancestors should be, stops `create` before anything changes or runs.
   */
  lemma {:induction false} CreateBlockedPrefix(fs: Tree, plat: Platform, home: string, name: string, specfile: string,
                                               opts: Options, tmpDir: string, exits: seq<bool>, k0: nat)
    requires MakeDirsBlocked(fs, PrefixOf(opts, home))
    ensures CreateEffect(fs, plat, home, name, specfile, opts, tmpDir, exits, k0) ==
      Effect(fs, [], Err(OsError(PrefixOf(opts, home))))
  {
  }

  /** The first command `create` starts is the mount of `dev` into the target, and nothing else runs when it fails. */
  lemma {:induction false} CreateMountsFirst(fs: Tree, plat: Platform, home: string, name: string, specfile: string,
                          opts: Options, tmpDir: string, exits: seq<bool>, k0: nat)
    ensures var e := CreateEffect(fs, plat, home, name, specfile, opts, tmpDir, exits, k0);
      var td := Join(PrefixOf(opts, home), name);
      e.issued != [] ==> e.issued[0] == MountArgv(td)
    ensures var e := CreateEffect(fs, plat, home, name, specfile, opts, tmpDir, exits, k0);
      var td := Join(PrefixOf(opts, home), name);
      var s := CreateDirsStage(fs, PrefixOf(opts, home), name, opts.force);
      e.result == Err(MountFailed) <==> s.result.Ok? && !Succeeds(exits, k0)
    ensures var e := CreateEffect(fs, plat, home, name, specfile, opts, tmpDir, exits, k0);
      var td := Join(PrefixOf(opts, home), name);
      e.result == Err(MountFailed) ==> e.issued == [MountArgv(td)]
  {
    var prefix := PrefixOf(opts, home);
    var td := Join(prefix, name);
    var s := CreateDirsStage(fs, prefix, name, opts.force);
    if s.result.Ok? && Succeeds(exits, k0) {
      var b := BootstrapEffect(s.fs, opts.release.GetOr("stable"), opts.arch.GetOr("x86_64"), "musl", true,
                               plat, td, specfile, opts.repoBase, tmpDir, exits, k0 + 1);
      assert CreateEffect(fs, plat, home, name, specfile, opts, tmpDir, exits, k0) ==
        Effect(b.fs, [MountArgv(td)] + b.issued, b.result);
    }
  }

  /**
   * A successful `create` made the target directory, mounted `dev`, then
   * started the whole `opkg` plan of the spec as the filesystem stood after
   * the directory stage, every command of which succeeded.
   */
  lemma {:induction false} CreateRunsSpec(fs: Tree, plat: Platform, home: string, name: string, specfile: string,
                       opts: Options, tmpDir: string, exits: seq<bool>, k0: nat)
    requires CreateEffect(fs, plat, home, name, specfile, opts, tmpDir, exits, k0).result.Ok?
    ensures var s := CreateDirsStage(fs, PrefixOf(opts, home), name, opts.force);
      s.result.Ok? && IsDir(s.fs, Join(PrefixOf(opts, home), name)) && ReadSpec(s.fs, specfile).Ok?
    ensures var e := CreateEffect(fs, plat, home, name, specfile, opts, tmpDir, exits, k0);
      var td := Join(PrefixOf(opts, home), name);
      var s := CreateDirsStage(fs, PrefixOf(opts, home), name, opts.force);
      && e.issued == [MountArgv(td)] + OpkgPlan(ConfPath(tmpDir), td, ReadSpec(s.fs, specfile).value)
      && forall i :: 0 <= i < |e.issued| ==> Passes(exits, k0, i)
  {
    var prefix := PrefixOf(opts, home);
    var td := Join(prefix, name);
    var s := CreateDirsStage(fs, prefix, name, opts.force);
    var e := CreateEffect(fs, plat, home, name, specfile, opts, tmpDir, exits, k0);
    assert s.result.Ok? && Succeeds(exits, k0);
    var release := opts.release.GetOr("stable");
    var arch := opts.arch.GetOr("x86_64");
    var b := BootstrapEffect(s.fs, release, arch, "musl", true, plat, td, specfile, opts.repoBase, tmpDir, exits, k0 + 1);
    assert e == Effect(b.fs, [MountArgv(td)] + b.issued, b.result);
    BootstrapRunsSpec(s.fs, release, arch, "musl", true, plat, td, specfile, opts.repoBase, tmpDir, exits, k0 + 1);
    PassesAfterMount(exits, k0, k0 + 1, |b.issued|);
  }

  /** Commands that pass from position `k0 + 1` on, after one that passed at `k0`, pass from `k0` on. */
  lemma {:induction false} PassesAfterMount(exits: seq<bool>, k0: nat, k1: nat, n: nat)
    requires k1 == k0 + 1 && Succeeds(exits, k0)
    requires forall i :: 0 <= i < n ==> Passes(exits, k1, i)
    ensures forall i :: 0 <= i < n + 1 ==> Passes(exits, k0, i)
  {
    forall i | 0 <= i < n + 1 ensures Passes(exits, k0, i) {
      if i > 0 {
        assert Passes(exits, k1, i - 1);
      }
    }
  }

  // ---------------------------------------------------------------------------
  // list

  const MachineKey := "TARGET_MACHINE"

  /** What follows `\s*=` at the start of `s`, if `s` starts that way. */
  function AfterAssign(s: string): Option<string> {
    if s == [] then None
    else if s[0] == '=' then Some(s[1..])
    else if IsSpace(s[0]) then AfterAssign(s[1..])
    else None
  }

  /** The machine named on a line matching `^TARGET_MACHINE\s*=\s*(\S+)\s*$`, if it matches. */
  function MatchMachine(line: string): Option<string> {
    if !StartsWith(line, MachineKey) then None
    else
      match AfterAssign(line[|MachineKey|..])
      case None => None
      case Some(value) =>
        match MatchToken(value)
        case None => None
        case Some(t) => if t == [] then None else Some(t)
  }

  /** What `MatchMachine` finds on each line. */
  function MachineLines(lines: seq<string>): (ms: seq<Option<string>>)
    ensures |ms| == |lines|
    ensures forall i :: 0 <= i < |lines| ==> ms[i] == MatchMachine(lines[i])
  {
    if lines == [] then []
    else MachineLines(lines[..|lines| - 1]) + [MatchMachine(lines[|lines| - 1])]
  }

  /** The last present value among the first `n` of `xs`. */
  function LastSome<T>(xs: seq<Option<T>>, n: nat): Option<T>
    requires n <= |xs|
  {
    if n == 0 then None
    else if xs[n - 1].Some? then xs[n - 1]
    else LastSome(xs, n - 1)
  }

  /**
   * `LastSome` finds a present value after which none is present, and finds
   * nothing exactly when none is present.
   */
  lemma {:induction false} LastSomeSpec<T>(xs: seq<Option<T>>, n: nat)
    requires n <= |xs|
    ensures LastSome(xs, n).None? <==> forall j :: 0 <= j < n ==> xs[j].None?
    ensures LastSome(xs, n).Some? ==>
      exists i :: 0 <= i < n && xs[i] == LastSome(xs, n) && forall j :: i < j < n ==> xs[j].None?
  {
    if n > 0 {
      if xs[n - 1].None? {
        LastSomeSpec(xs, n - 1);
        if LastSome(xs, n - 1).Some? {
          var i :| 0 <= i < n - 1 && xs[i] == LastSome(xs, n - 1) && forall j :: i < j < n - 1 ==> xs[j].None?;
          assert forall j :: i < j < n ==> xs[j].None?;
        }
      } else {
        assert xs[n - 1] == LastSome(xs, n);
      }
    }
  }

  /** The machine of the last line naming one: later lines override earlier ones. */
  function LastMachine(lines: seq<string>): Option<string> {
    LastSome(MachineLines(lines), |lines|)
  }

  /** The `TARGET_MACHINE` line `bootstrap` writes is read back as the machine it names. */
  lemma {:induction false} MatchMachineLine(machine: string)
    requires machine != [] && NoSpace(machine)
    ensures MatchMachine("TARGET_MACHINE=" + machine) == Some(machine)
  {
    var line := "TARGET_MACHINE=" + machine;
    assert line[..|MachineKey|] == MachineKey;
    var rest := line[|MachineKey|..];
    assert rest == "=" + machine;
    assert LeadingSpaces(rest) == 0;
    assert rest[1..] == [] + machine + [];
    MatchTokenComplete([], machine, []);
  }

  /** Round trip: the machine read back from a generated `etc/target` is the context's machine. */
  lemma {:induction false} EtcTargetRoundTrip(ctx: Context)
    requires ctx.machine != [] && NoSpace(ctx.machine)
    ensures LastMachine(EtcTargetLines(ctx)) == Some(ctx.machine)
  {
    var lines := EtcTargetLines(ctx);
    var ms := MachineLines(lines);
    assert ms[1] == Some(ctx.machine) by { MatchMachineLine(ctx.machine); }
    assert ms[2].None? by { NotMachineLine(lines[2], 7); }
    assert ms[3].None? by { NotMachineLine(lines[3], 1); }
    assert LastSome(ms, 2) == Some(ctx.machine);
    assert LastSome(ms, 4) == LastSome(ms, 3) == LastSome(ms, 2);
  }

  /** A line that differs from `TARGET_MACHINE` within its first characters names no machine. */
  lemma {:induction false} NotMachineLine(line: string, i: nat)
    requires i < |line| && i < |MachineKey| && line[i] != MachineKey[i]
    ensures MatchMachine(line) == None
  {
    CharDiffers(line, MachineKey, i);
  }

  /**
   * What `list` reports for a directory entry: `defunct` without a shell or
   * without `etc/target`, otherwise the machine of `etc/target`, or `unknown`
   * when no line names one.
   */
  function Status(fs: Tree, prefix: string, entry: string): Result<string, BBoxError> {
    var shellFound := JoinAll(prefix, [entry, "usr", "bin", "sh"]) in fs ||
                      JoinAll(prefix, [entry, "tools", "bin", "sh"]) in fs;
    var etcTarget := JoinAll(prefix, [entry, "etc", "target"]);
    if !shellFound || etcTarget !in fs then Ok("defunct")
    else if !fs[etcTarget].File? then Err(OsError(etcTarget))
    else Ok(LastMachine(fs[etcTarget].lines).GetOr("unknown"))
  }

  /**
   * A target whose shell is in place and whose `etc/target` holds the lines
   * `bootstrap` writes is reported with the machine it was made for.
   */
  lemma {:induction false} StatusReportsMachine(fs: Tree, prefix: string, entry: string, ctx: Context)
    requires JoinAll(prefix, [entry, "usr", "bin", "sh"]) in fs || JoinAll(prefix, [entry, "tools", "bin", "sh"]) in fs
    requires JoinAll(prefix, [entry, "etc", "target"]) in fs
    requires fs[JoinAll(prefix, [entry, "etc", "target"])] == File(EtcTargetLines(ctx))
    requires ctx.machine != [] && NoSpace(ctx.machine)
    ensures Status(fs, prefix, entry) == Ok(ctx.machine)
  {
    EtcTargetRoundTrip(ctx);
  }

  /** Without `etc/target`, a target is reported defunct whatever shells it has. */
  lemma {:induction false} StatusNoEtcTarget(fs: Tree, prefix: string, entry: string)
    requires JoinAll(prefix, [entry, "etc", "target"]) !in fs
    ensures Status(fs, prefix, entry) == Ok("defunct")
  {
  }

  /** Without a shell, a target is reported defunct whatever its `etc/target` says. */
  lemma {:induction false} StatusDefunct(fs: Tree, prefix: string, entry: string)
    requires JoinAll(prefix, [entry, "usr", "bin", "sh"]) !in fs && JoinAll(prefix, [entry, "tools", "bin", "sh"]) !in fs
    ensures Status(fs, prefix, entry) == Ok("defunct")
  {
  }

  /** The printed lines of `list` and whether it finished. */
  datatype Listing = Listing(lines: seq<string>, result: Outcome)

  /** One printed line per directory entry, in listing order, stopping at the first error. */
  function ListEntries(fs: Tree, prefix: string, listing: seq<string>): Listing
    decreases |listing|
  {
    if listing == [] then Listing([], Ok(()))
    else
      var prev := ListEntries(fs, prefix, listing[..|listing| - 1]);
      var entry := listing[|listing| - 1];
      if prev.result.Err? || !IsDir(fs, Join(prefix, entry)) then prev
      else
        match Status(fs, prefix, entry)
        case Err(e) => Listing(prev.lines, Err(e))
        case Ok(machine) => Listing(prev.lines + [entry + " (" + machine + ")"], Ok(()))
  }

  /** One more entry of the listing, after entries that all succeeded. */
  lemma {:induction false} ListEntriesStep(fs: Tree, prefix: string, listing: seq<string>, i: nat)
    requires i < |listing|
    ensures var prev := ListEntries(fs, prefix, listing[..i]);
      var entry := listing[i];
      ListEntries(fs, prefix, listing[..i + 1]) ==
        if prev.result.Err? || !IsDir(fs, Join(prefix, entry)) then prev
        else match Status(fs, prefix, entry)
          case Err(e) => Listing(prev.lines, Err(e))
          case Ok(machine) => Listing(prev.lines + [entry + " (" + machine + ")"], Ok(()))
  {
    assert listing[..i + 1][..i] == listing[..i];
  }

  /** Once an entry has failed, the entries after it are not looked at. */
  lemma {:induction false} ListEntriesStopsAtError(fs: Tree, prefix: string, listing: seq<string>, n: nat)
    requires n <= |listing| && ListEntries(fs, prefix, listing[..n]).result.Err?
    ensures ListEntries(fs, prefix, listing) == ListEntries(fs, prefix, listing[..n])
    decreases |listing|
  {
    if n == |listing| {
      assert listing[..n] == listing;
    } else {
      var init := listing[..|listing| - 1];
      assert init[..n] == listing[..n];
      ListEntriesStopsAtError(fs, prefix, init, n);
    }
  }

  /** The entries of `listing` that are directories under `prefix`, in listing order. */
  function DirEntries(fs: Tree, prefix: string, listing: seq<string>): (ds: seq<string>)
    ensures forall i :: 0 <= i < |ds| ==> ds[i] in listing && IsDir(fs, Join(prefix, ds[i]))
    ensures forall x :: x in listing && IsDir(fs, Join(prefix, x)) ==> x in ds
    decreases |listing|
  {
    if listing == [] then []
    else
      var entry := listing[|listing| - 1];
      var init := listing[..|listing| - 1];
      assert forall x :: x in init ==> x in listing;
      DirEntries(fs, prefix, init) + (if IsDir(fs, Join(prefix, entry)) then [entry] else [])
  }

  /** The directory entries of a listing split in two are those of the first part, then those of the second. */
  lemma {:induction false} DirEntriesAppend(fs: Tree, prefix: string, a: seq<string>, b: seq<string>)
    ensures DirEntries(fs, prefix, a + b) == DirEntries(fs, prefix, a) + DirEntries(fs, prefix, b)
    decreases |b|
  {
    if b == [] {
      assert a + b == a;
    } else {
      var ab := a + b;
      var b' := b[..|b| - 1];
      assert ab[..|ab| - 1] == a + b';
      assert ab[|ab| - 1] == b[|b| - 1];
      DirEntriesAppend(fs, prefix, a, b');
    }
  }

  /**
   * `list` succeeds exactly when the status of every directory entry can be
   * read, and then prints one line per directory entry, in listing order,
   * naming the entry and its status.
   */
  lemma {:induction false} ListEntriesShape(fs: Tree, prefix: string, listing: seq<string>)
    ensures var ds := DirEntries(fs, prefix, listing); var l := ListEntries(fs, prefix, listing);
      && (l.result.Ok? <==> AllStatusOk(fs, prefix, ds))
      && (l.result.Ok? ==> (|l.lines| == |ds| &&
            forall i :: 0 <= i < |ds| ==> l.lines[i] == ds[i] + " (" + Status(fs, prefix, ds[i]).value + ")"))
    decreases |listing|
  {
    if listing != [] {
      var entry := listing[|listing| - 1];
      var init := listing[..|listing| - 1];
      ListEntriesShape(fs, prefix, init);
      var ds0 := DirEntries(fs, prefix, init);
      var ds := DirEntries(fs, prefix, listing);
      var prev := ListEntries(fs, prefix, init);
      var l := ListEntries(fs, prefix, listing);
      if !IsDir(fs, Join(prefix, entry)) {
        assert ds == ds0 && l == prev;
      } else {
        assert ds == ds0 + [entry];
        AllStatusOkSnoc(fs, prefix, ds0, entry);
        if prev.result.Err? {
          assert l == prev;
        } else if Status(fs, prefix, entry).Err? {
          assert l.result.Err?;
        } else {
          assert l.lines == prev.lines + [entry + " (" + Status(fs, prefix, entry).value + ")"];
        }
      }
    }
  }

  /** The status of every entry of `ds` can be read. */
  predicate AllStatusOk(fs: Tree, prefix: string, ds: seq<string>) {
    forall i :: 0 <= i < |ds| ==> Status(fs, prefix, ds[i]).Ok?
  }

  lemma {:induction false} AllStatusOkSnoc(fs: Tree, prefix: string, ds: seq<string>, entry: string)
    ensures AllStatusOk(fs, prefix, ds + [entry]) <==>
      AllStatusOk(fs, prefix, ds) && Status(fs, prefix, entry).Ok?
  {
    var e := ds + [entry];
    assert forall i :: 0 <= i < |ds| ==> e[i] == ds[i];
    assert e[|ds|] == entry;
  }

  /** `list`: nothing when the prefix is no directory, otherwise the entries of `listing`. */
  function ListEffect(fs: Tree, prefix: string, listing: seq<string>): Listing {
    if !IsDir(fs, prefix) then Listing([], Ok(())) else ListEntries(fs, prefix, listing)
  }

  /** The scan of `etc/target` in `list`: the last line naming a machine wins; `unknown` if none does. */
  method ReadMachine(lines: seq<string>) returns (machine: string)
    ensures machine == LastMachine(lines).GetOr("unknown")
  {
    machine := "unknown";
    ghost var ms := MachineLines(lines);
    var j := 0;
    while j < |lines|
      invariant j <= |lines|
      invariant machine == LastSome(ms, j).GetOr("unknown")
    {
      var m := MatchMachine(lines[j]);
      assert ms[j] == m;
      assert LastSome(ms, j + 1) == if m.Some? then m else LastSome(ms, j);
      if m.Some? {
        machine := m.value;
      }
      j := j + 1;
    }
  }

  /** The status of one directory entry, as the body of the loop of `list` finds it. */
  method EntryStatus(h: Host, prefix: string, entry: string) returns (r: Result<string, BBoxError>)
    ensures r == Status(h.fs, prefix, entry)
  {
    var machine := "unknown";
    var shellFound := false;
    var shellPrefixes := ["usr", "tools"];
    ghost var usrShell := JoinAll(prefix, [entry, "usr", "bin", "sh"]);
    ghost var toolsShell := JoinAll(prefix, [entry, "tools", "bin", "sh"]);
    var k := 0;
    while k < |shellPrefixes|
      invariant k <= |shellPrefixes|
      invariant !shellFound
      invariant k >= 1 ==> usrShell !in h.fs
      invariant k >= 2 ==> toolsShell !in h.fs
    {
      var shell := JoinAll(prefix, [entry, shellPrefixes[k], "bin", "sh"]);
      if shell in h.fs {
        assert shell == usrShell || shell == toolsShell;
        shellFound := true;
        break;
      }
      k := k + 1;
    }
    assert shellFound <==> usrShell in h.fs || toolsShell in h.fs;
    if !shellFound {
      machine := "defunct";
    }
    var etcTarget := JoinAll(prefix, [entry, "etc", "target"]);
    if etcTarget !in h.fs {
      machine := "defunct";
    }
    if machine != "defunct" {
      if !h.fs[etcTarget].File? {
        return Err(OsError(etcTarget));
      }
      machine := ReadMachine(h.fs[etcTarget].lines);
    }
    return Ok(machine);
  }

  /**
   * `BBoxTarget.list`; `listing` is what the directory listing of the prefix
   * returns, in its order. The printed lines are returned.
   */
  method List(h: Host, home: string, opts: Options, listing: seq<string>) returns (out: seq<string>, r: Outcome)
    ensures Listing(out, r) == ListEffect(h.fs, PrefixOf(opts, home), listing)
  {
    var prefix := PrefixOf(opts, home);
    out := [];
    r := Ok(());
    if !IsDir(h.fs, prefix) {
      return;
    }
    var i := 0;
    while i < |listing|
      invariant i <= |listing|
      invariant ListEntries(h.fs, prefix, listing[..i]) == Listing(out, Ok(()))
    {
      var entry := listing[i];
      if IsDir(h.fs, Join(prefix, entry)) {
        var status := EntryStatus(h, prefix, entry);
        if status.Err? {
          assert ListEntries(h.fs, prefix, listing[..i + 1]) == Listing(out, Err(status.error)) by {
            ListEntriesStep(h.fs, prefix, listing, i);
          }
          ListEntriesStopsAtError(h.fs, prefix, listing, i + 1);
          return out, Err(status.error);
        }
        out := out + [entry + " (" + status.value + ")"];
      }
      assert ListEntries(h.fs, prefix, listing[..i + 1]) == Listing(out, Ok(())) by {
        ListEntriesStep(h.fs, prefix, listing, i);
      }
      i := i + 1;
    }
    assert listing[..i] == listing;
  }

  // ---------------------------------------------------------------------------
  // delete

  function UmountArgv(targetDir: string): seq<string> {
    ["/usr/bin/build-box", "umount", "-t", targetDir, "."]
  }

  /** The subdirectories that must be empty before a target is deleted, checked in this order. */
  const ReservedDirs: seq<string> := ["dev", "proc", "sys", "home"]

  /** A reserved subdirectory that is absent, or is an empty directory, does not stop `delete`. */
  predicate SubdirClear(fs: Tree, targetDir: string, subdir: string) {
    var p := Join(targetDir, subdir);
    p !in fs || (IsDir(fs, p) && !HasEntries(fs, p))
  }

  /**
   * The error a reserved subdirectory that is not clear raises: listing a
   * non-directory fails, a directory with entries is residual content.
   */
  function SubdirError(fs: Tree, targetDir: string, subdir: string): BBoxError {
    var p := Join(targetDir, subdir);
    if IsDir(fs, p) then ResidualContent(subdir) else OsError(p)
  }

  /** The first reserved subdirectory that is not clear, in order, as the error it raises. */
  function SubdirCheck(fs: Tree, targetDir: string, subdirs: seq<string>): (r: Outcome)
    ensures r.Ok? <==> forall i :: 0 <= i < |subdirs| ==> SubdirClear(fs, targetDir, subdirs[i])
    ensures r.Err? ==> exists i :: 0 <= i < |subdirs| && !SubdirClear(fs, targetDir, subdirs[i]) &&
                                   (forall j :: 0 <= j < i ==> SubdirClear(fs, targetDir, subdirs[j])) &&
                                   r.error == SubdirError(fs, targetDir, subdirs[i])
    decreases |subdirs|
  {
    if subdirs == [] then Ok(())
    else
      var p := Join(targetDir, subdirs[0]);
      if p in fs && !IsDir(fs, p) then Err(OsError(p))
      else if p in fs && HasEntries(fs, p) then Err(ResidualContent(subdirs[0]))
      else
        var r := SubdirCheck(fs, targetDir, subdirs[1..]);
        assert forall i :: 1 <= i < |subdirs| ==> subdirs[1..][i - 1] == subdirs[i];
        r
  }

  /** The mount point of a mount-table line whose fields are `fields`, as `delete` compares it. */
  function MountPoint(fields: seq<string>, realpath: string -> string): string
    requires |fields| >= 2
  {
    Normpath(realpath(fields[1]))
  }

  /** A mount-table line that has six fields and whose mount point is not inside the target. */
  predicate MountClear(line: string, targetDir: string, realpath: string -> string) {
    var f := Fields(Strip(line));
    |f| == 6 && !StartsWith(MountPoint(f, realpath), targetDir + "/")
  }

  /**
   * The error a mount-table line that is not clear raises: unpacking a line
   * without six fields fails, otherwise its mount point is a residual mount.
   */
  function MountError(line: string, realpath: string -> string): BBoxError {
    var f := Fields(Strip(line));
    if |f| != 6 then MalformedMountEntry(line) else ResidualMount(MountPoint(f, realpath))
  }

  /** The first of `lines`, in order, that `clear` refuses, as the error `error` gives for it. */
  function FirstUnclear(lines: seq<string>, clear: string -> bool, error: string -> BBoxError): (r: Outcome)
    ensures r.Ok? <==> forall i :: 0 <= i < |lines| ==> clear(lines[i])
    ensures r.Err? ==> exists i :: 0 <= i < |lines| && !clear(lines[i]) &&
                                   (forall j :: 0 <= j < i ==> clear(lines[j])) &&
                                   r.error == error(lines[i])
    decreases |lines|
  {
    if lines == [] then Ok(())
    else if !clear(lines[0]) then Err(error(lines[0]))
    else
      var r := FirstUnclear(lines[1..], clear, error);
      assert forall i :: 1 <= i < |lines| ==> lines[1..][i - 1] == lines[i];
      r
  }

  /** The first mount-table line that stops `delete`, as the error it raises. */
  function MountCheck(mounts: seq<string>, targetDir: string,
                      realpath: string -> string): (r: Outcome)
    ensures r.Ok? <==> forall i :: 0 <= i < |mounts| ==> MountClear(mounts[i], targetDir, realpath)
    ensures r.Err? ==> exists i :: 0 <= i < |mounts| && !MountClear(mounts[i], targetDir, realpath) &&
                                   (forall j :: 0 <= j < i ==> MountClear(mounts[j], targetDir, realpath)) &&
                                   r.error == MountError(mounts[i], realpath)
  {
    FirstUnclear(mounts, line => MountClear(line, targetDir, realpath), line => MountError(line, realpath))
  }

  /** The normalised target directory `delete` works on. */
  function DeleteTarget(prefix: string, name: string): string {
    Normpath(Join(prefix, name))
  }

  /** A normal absolute prefix, as `normpath` would leave it, that does not end in `/`. */
  predicate NormalPrefix(prefix: string) {
    |prefix| >= 2 && prefix[0] == '/' && prefix[|prefix| - 1] != '/' && Normpath(prefix) == prefix
  }

  /** For a plain target name under a normal prefix, `delete` works on the entry of that name, strictly below the prefix. */
  lemma {:induction false} DeleteTargetBelowPrefix(prefix: string, name: string)
    requires NormalPrefix(prefix) && Plain(name)
    ensures DeleteTarget(prefix, name) == prefix + "/" + name
    ensures Below(DeleteTarget(prefix, name), prefix)
  {
    NormpathExtend(prefix, name);
    assert (prefix + "/" + name)[..|prefix| + 1] == prefix + "/";
  }

  /**
   * The name is not checked: `x/..` for a plain `x` normalises to the prefix
   * itself, so `delete` then works on the whole target prefix.
   */
  lemma {:induction false} DeleteTargetParentName(prefix: string, name: string)
    requires NormalPrefix(prefix) && Plain(name)
    ensures DeleteTarget(prefix, name + "/..") == prefix
  {
    assert Join(prefix, name + "/..") == prefix + "/" + name + "/..";
    NormpathParent(prefix, name);
  }

  /**
   * `delete`: the target must be a directory, the unmount must succeed, the
   * reserved subdirectories must be clear and nothing may be mounted inside
   * the target; then the whole tree goes.
   */
  function DeleteEffect(fs: Tree, prefix: string, name: string,
                        realpath: string -> string, mounts: seq<string>, exits: seq<bool>, k0: nat): Effect
  {
    var td := DeleteTarget(prefix, name);
    if !IsDir(fs, td) then Effect(fs, [], Err(TargetNotFound(name)))
    else if !Succeeds(exits, k0) then Effect(fs, [UmountArgv(td)], Err(UnmountFailed))
    else
      var sub := SubdirCheck(fs, td, ReservedDirs);
      if sub.Err? then Effect(fs, [UmountArgv(td)], sub)
      else
        var mnt := MountCheck(mounts, td, realpath);
        if mnt.Err? then Effect(fs, [UmountArgv(td)], mnt)
        else Effect(RemoveTree(fs, td), [UmountArgv(td)], Ok(()))
  }

  /**
   * `BBoxTarget.delete` of one target; `mounts` are the lines of the mount
   * table and `realpath` the operating system's resolution of symbolic links.
   */
  method Delete(h: Host, home: string, name: string, opts: Options,
                realpath: string -> string, mounts: seq<string>) returns (r: Outcome)
    modifies h
    ensures var e := DeleteEffect(old(h.fs), PrefixOf(opts, home), name, realpath, mounts,
                                  h.exits, |old(h.calls)|);
      h.fs == e.fs && h.calls == old(h.calls) + e.issued && r == e.result
  {
    var prefix := PrefixOf(opts, home);
    var targetDir := Normpath(Join(prefix, name));
    if !IsDir(h.fs, targetDir) {
      return Err(TargetNotFound(name));
    }
    var ok := h.Run(UmountArgv(targetDir));
    if !ok {
      return Err(UnmountFailed);
    }
    r := CheckReservedDirs(h, targetDir);
    if r.Err? {
      return;
    }
    r := CheckMounts(mounts, targetDir, realpath);
    if r.Err? {
      return;
    }
    h.fs := RemoveTree(h.fs, targetDir);
    return Ok(());
  }

  /** The scan of the reserved subdirectories in `delete`, stopping at the first that is not clear. */
  method CheckReservedDirs(h: Host, targetDir: string) returns (r: Outcome)
    ensures r == SubdirCheck(h.fs, targetDir, ReservedDirs)
  {
    var i := 0;
    while i < |ReservedDirs|
      invariant i <= |ReservedDirs|
      invariant SubdirCheck(h.fs, targetDir, ReservedDirs) == SubdirCheck(h.fs, targetDir, ReservedDirs[i..])
    {
      var subdir := ReservedDirs[i];
      var fullPath := Join(targetDir, subdir);
      if fullPath in h.fs && !IsDir(h.fs, fullPath) {
        return Err(OsError(fullPath));
      }
      if fullPath in h.fs && HasEntries(h.fs, fullPath) {
        return Err(ResidualContent(subdir));
      }
      assert ReservedDirs[i..][1..] == ReservedDirs[i + 1..];
      i := i + 1;
    }
    return Ok(());
  }

  /** The scan of the mount table in `delete`, stopping at the first line that is malformed or inside the target. */
  method CheckMounts(mounts: seq<string>, targetDir: string,
                     realpath: string -> string) returns (r: Outcome)
    ensures r == MountCheck(mounts, targetDir, realpath)
  {
    var j := 0;
    while j < |mounts|
      invariant j <= |mounts|
      invariant MountCheck(mounts, targetDir, realpath) == MountCheck(mounts[j..], targetDir, realpath)
    {
      var line := mounts[j];
      var fields := Fields(Strip(line));
      if |fields| != 6 {
        return Err(MalformedMountEntry(line));
      }
      var mountpoint := Normpath(realpath(fields[1]));
      if StartsWith(mountpoint, targetDir + "/") {
        return Err(ResidualMount(mountpoint));
      }
      assert mounts[j..][1..] == mounts[j + 1..];
      j := j + 1;
    }
    return Ok(());
  }

  /**
   * `delete` succeeds exactly when the target is a directory, the unmount
   * succeeds, every reserved subdirectory is clear and every mount-table
   * line has six fields and no mount point inside the target; then the
   * target and everything below it are gone and nothing else changed.
   * Whenever it fails, the filesystem is untouched.
   */
  lemma {:induction false} DeleteOutcome(fs: Tree, prefix: string, name: string,
                      realpath: string -> string, mounts: seq<string>, exits: seq<bool>, k0: nat)
    ensures var e := DeleteEffect(fs, prefix, name, realpath, mounts, exits, k0);
      var td := DeleteTarget(prefix, name);
      && (e.result.Ok? <==>
            && IsDir(fs, td) && Succeeds(exits, k0)
            && (forall i :: 0 <= i < |ReservedDirs| ==> SubdirClear(fs, td, ReservedDirs[i]))
            && (forall i :: 0 <= i < |mounts| ==> MountClear(mounts[i], td, realpath)))
      && (e.result.Ok? ==> forall q :: q in e.fs <==> q in fs && q != td && !Below(q, td))
      && (e.result.Err? ==> e.fs == fs)
      && (e.issued == [] <==> !IsDir(fs, td))
  {
  }

  /**
   * The error of each gate of `delete`: a missing target is reported by its
   * name with nothing started; after the unmount has been started, a failed
   * unmount, the first reserved subdirectory that is not clear, or the first
   * mount-table line that is not clear stops it, in that order.
   */
  lemma {:induction false} DeleteErrors(fs: Tree, prefix: string, name: string,
                      realpath: string -> string, mounts: seq<string>, exits: seq<bool>, k0: nat)
    ensures var e := DeleteEffect(fs, prefix, name, realpath, mounts, exits, k0);
      var td := DeleteTarget(prefix, name);
      && (!IsDir(fs, td) ==> e == Effect(fs, [], Err(TargetNotFound(name))))
      && (IsDir(fs, td) ==> e.issued == [UmountArgv(td)])
      && (IsDir(fs, td) && !Succeeds(exits, k0) ==> e.result == Err(UnmountFailed))
      && (IsDir(fs, td) && Succeeds(exits, k0) && SubdirCheck(fs, td, ReservedDirs).Err? ==>
            e.result == SubdirCheck(fs, td, ReservedDirs))
      && ((IsDir(fs, td) && Succeeds(exits, k0) && SubdirCheck(fs, td, ReservedDirs).Ok? &&
           MountCheck(mounts, td, realpath).Err?) ==> e.result == MountCheck(mounts, td, realpath))
  {
  }

  /** A mount of the target directory itself is no residual mount: only mounts strictly inside it are. */
  lemma {:induction false} TargetMountNotResidual(line: string, targetDir: string, realpath: string -> string)
    requires |Fields(Strip(line))| == 6
    requires MountPoint(Fields(Strip(line)), realpath) == targetDir
    ensures MountClear(line, targetDir, realpath)
  {
    assert |targetDir + "/"| > |targetDir|;
  }
}

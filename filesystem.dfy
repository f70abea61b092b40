/**
 * The machine the engine runs on, reduced to what the core observes: a
 * filesystem as a map from path strings to nodes, and the external commands
 * it starts, whose exit statuses are an oracle fixed in advance.
 *
 * Paths are the literal strings the source builds with `os.path.join`; the
 * model does not resolve symbolic links, so a probe of a path looks at the
 * node stored under exactly that string.
 */
module FileSystem {
  import opened Errors
  import opened Text
  import opened Paths

  datatype Node = Dir | File(lines: seq<string>) | Symlink(target: string)

  type Tree = map<string, Node>

  predicate IsDir(fs: Tree, p: string) {
    p in fs && fs[p].Dir?
  }

  /** `q` lies strictly below `p`: it starts with `p + "/"`. */
  predicate Below(q: string, p: string) {
    StartsWith(q, p + "/")
  }

  /** `os.listdir(p)` is not empty: something lies below `p`. */
  predicate HasEntries(fs: Tree, p: string) {
    exists q :: q in fs && Below(q, p)
  }

  /** The proper ancestors of `p` that `os.makedirs` creates on the way: every prefix ending before a `/`. */
  function Ancestors(p: string): set<string> {
    set i: int | 0 < i < |p| && p[i] == '/' :: p[..i]
  }

  /** Neither of `a` and `b` contains the other: they are different and neither lies below the other. */
  predicate Apart(a: string, b: string) {
    a != b && !Below(a, b) && !Below(b, a)
  }

  /** A path made by extending `a` with `/...` is neither `b` nor below `b` when `a` and `b` are apart. */
  lemma {:induction false} ApartExtension(a: string, b: string, rest: string)
    requires Apart(a, b) && rest != [] && rest[0] == '/'
    ensures a + rest != b && !Below(a + rest, b)
  {
    ExtensionRelations(a, b, rest);
  }

  /** What `b` must be to `a` when `a + rest` is `b` or lies below it. */
  lemma {:induction false} ExtensionRelations(a: string, b: string, rest: string)
    requires rest != [] && rest[0] == '/'
    ensures a + rest == b ==> Below(b, a)
    ensures Below(a + rest, b) ==> b == a || Below(a, b) || Below(b, a)
  {
    var p := a + rest;
    assert p[..|a| + 1] == a + "/";
    if Below(p, b) {
      if |b| < |a| {
        assert a[..|b| + 1] == p[..|b| + 1];
      } else if |b| == |a| {
        assert b == p[..|a|];
      } else {
        assert b[..|a| + 1] == p[..|a| + 1];
      }
    }
  }

  /** `os.makedirs(p, exist_ok=True)`: `p` and its missing ancestors become directories; nothing else changes. */
  function MakeDirs(fs: Tree, p: string): (r: Tree)
    ensures p in r
    ensures forall q :: q in fs ==> q in r && r[q] == fs[q]
    ensures forall q :: q in r && q !in fs ==> r[q] == Dir && (q == p || q in Ancestors(p))
  {
    fs + map q | q in Ancestors(p) + {p} && q !in fs :: Dir
  }

  /** The filesystem after a stage and whether the stage succeeded. */
  datatype Step = Step(fs: Tree, result: Outcome)

  /**
   * `os.makedirs(p)` raises: `p` is not a directory, and `p` itself or one of
   * the ancestors it would pass through is there as something other than a
   * directory (a file, or a link the model does not follow).
   */
  predicate MakeDirsBlocked(fs: Tree, p: string) {
    !IsDir(fs, p) && exists q :: q in fs && !fs[q].Dir? && (q == p || q in Ancestors(p))
  }

  /**
   * `os.makedirs(p, exist_ok=True)`: nothing to do when `p` is a directory;
   * an error naming `p`, and no change, when it is blocked; otherwise `p` and
   * its missing ancestors become directories.
   */
  function MakeDirsStep(fs: Tree, p: string): (s: Step)
    ensures s.result.Err? <==> MakeDirsBlocked(fs, p)
    ensures s.result.Err? ==> s == Step(fs, Err(OsError(p)))
    ensures s.result.Ok? ==> IsDir(s.fs, p)
    ensures forall q :: q in fs ==> q in s.fs && s.fs[q] == fs[q]
    ensures forall q :: q in s.fs && q !in fs ==> s.fs[q] == Dir && (q == p || q in Ancestors(p))
  {
    if IsDir(fs, p) then Step(fs, Ok(()))
    else if MakeDirsBlocked(fs, p) then Step(fs, Err(OsError(p)))
    else Step(MakeDirs(fs, p), Ok(()))
  }

  /** `shutil.rmtree(p)`: `p` and everything below it disappear; nothing else changes. */
  function RemoveTree(fs: Tree, p: string): (r: Tree)
    ensures forall q :: q in r <==> q in fs && q != p && !Below(q, p)
    ensures forall q :: q in r ==> r[q] == fs[q]
  {
    map q | q in fs && q != p && !Below(q, p) :: fs[q]
  }

  /** Where `shutil.copy2(src, dst)` writes: inside `dst` under the source's base name when `dst` is a directory. */
  function CopyDestination(fs: Tree, src: string, dst: string): string {
    if IsDir(fs, dst) then Join(dst, Basename(src)) else dst
  }

  /**
   * `shutil.copy2(src, dst)`: the source must be a regular file, and the
   * place the copy is written must not be a directory; either failure raises
   * before anything changes. Otherwise that place holds the source's lines.
   */
  function Copy2Step(fs: Tree, src: string, dst: string): (s: Step)
    ensures s.result.Ok? <==> src in fs && fs[src].File? && !IsDir(fs, CopyDestination(fs, src, dst))
    ensures s.result.Ok? ==> s.fs == fs[CopyDestination(fs, src, dst) := fs[src]]
    ensures s.result.Err? ==> s.fs == fs
    ensures !(src in fs && fs[src].File?) ==> s.result == Err(OsError(src))
    ensures src in fs && fs[src].File? && s.result.Err? ==>
      IsDir(fs, dst) && s.result == Err(OsError(Join(dst, Basename(src))))
  {
    if !(src in fs && fs[src].File?) then Step(fs, Err(OsError(src)))
    else
      var d := CopyDestination(fs, src, dst);
      if IsDir(fs, d) then Step(fs, Err(OsError(d)))
      else Step(fs[d := fs[src]], Ok(()))
  }

  /** The oracle: the command started as the `k`-th of the run exits with status 0. */
  predicate Succeeds(exits: seq<bool>, k: nat) {
    k < |exits| && exits[k]
  }

  /** The host: its filesystem, the argument vectors of the commands started so far, and their exit statuses. */
  class Host {
    var fs: Tree
    var calls: seq<seq<string>>
    const exits: seq<bool>

    constructor (fs0: Tree, exits0: seq<bool>)
      ensures fs == fs0 && calls == [] && exits == exits0
    {
      fs := fs0;
      calls := [];
      exits := exits0;
    }

    /** `os.makedirs(p, exist_ok=True)` on the host. */
    method Mkdirs(p: string) returns (r: Outcome)
      modifies this
      ensures var s := MakeDirsStep(old(fs), p);
        fs == s.fs && r == s.result && calls == old(calls)
    {
      if IsDir(fs, p) {
        return Ok(());
      }
      if MakeDirsBlocked(fs, p) {
        return Err(OsError(p));
      }
      fs := MakeDirs(fs, p);
      return Ok(());
    }

    /** `shutil.copy2(src, dst)` on the host. */
    method Copy2(src: string, dst: string) returns (r: Outcome)
      modifies this
      ensures var s := Copy2Step(old(fs), src, dst);
        fs == s.fs && r == s.result && calls == old(calls)
    {
      if !(src in fs && fs[src].File?) {
        return Err(OsError(src));
      }
      var d := CopyDestination(fs, src, dst);
      if IsDir(fs, d) {
        return Err(OsError(d));
      }
      fs := fs[d := fs[src]];
      return Ok(());
    }

    /** `subprocess.run(argv)`: logs the argument vector and reports whether the command exited with 0. */
    method Run(argv: seq<string>) returns (ok: bool)
      modifies this
      ensures fs == old(fs)
      ensures calls == old(calls) + [argv]
      ensures ok == Succeeds(exits, |old(calls)|)
    {
      ok := Succeeds(exits, |calls|);
      calls := calls + [argv];
    }
  }
}

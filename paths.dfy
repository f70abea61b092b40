/**
 * The POSIX path functions of Python's `os.path` that the source uses,
 * on path strings: `join`, `dirname`, `basename`, `normpath`, and
 * `str.lstrip("/")`. (`realpath` resolves symbolic links against the live
 * filesystem and is a parameter of the operation that uses it.)
 */
module Paths {

  predicate AllSlashes(s: string) {
    forall i :: 0 <= i < |s| ==> s[i] == '/'
  }

  predicate NoSlash(s: string) {
    forall i :: 0 <= i < |s| ==> s[i] != '/'
  }

  /** `os.path.join(a, b)`: an absolute `b` replaces `a`; otherwise one separator goes between. */
  function Join(a: string, b: string): string {
    if |b| > 0 && b[0] == '/' then b
    else if a == [] || a[|a| - 1] == '/' then a + b
    else a + "/" + b
  }

  /** `os.path.join(a, *parts)`, joining left to right. */
  function JoinAll(a: string, parts: seq<string>): string
    decreases |parts|
  {
    if parts == [] then a else JoinAll(Join(a, parts[0]), parts[1..])
  }

  /** One past the position of the last `/` in `p` (`p.rfind("/") + 1`), 0 when there is none. */
  function SlashEnd(p: string): (i: nat)
    ensures i <= |p|
    ensures i > 0 ==> p[i - 1] == '/'
    ensures NoSlash(p[i..])
  {
    if p == [] then 0
    else if p[|p| - 1] == '/' then |p|
    else
      var i := SlashEnd(p[..|p| - 1]);
      assert p[i..] == p[..|p| - 1][i..] + [p[|p| - 1]];
      i
  }

  /** `os.path.basename(p)`: the part after the last `/`. */
  function Basename(p: string): (r: string)
    ensures NoSlash(r)
    ensures |r| <= |p| && p[|p| - |r|..] == r
  {
    p[SlashEnd(p)..]
  }

  /** The base name is the whole path, or it follows a `/`. */
  lemma {:induction false} BasenameAfterSlash(p: string)
    ensures var r := Basename(p); r == p || p[|p| - |r| - 1] == '/'
  {
    assert |p| - |Basename(p)| == SlashEnd(p);
  }

  /** `s.rstrip("/")`. */
  function RStripSlashes(s: string): (r: string)
    ensures |r| <= |s| && s[..|r|] == r && AllSlashes(s[|r|..])
    ensures r == [] || r[|r| - 1] != '/'
  {
    if s == [] || s[|s| - 1] != '/' then s
    else
      var r := RStripSlashes(s[..|s| - 1]);
      assert s[|r|..] == s[..|s| - 1][|r|..] + ['/'];
      r
  }

  /** `s.lstrip("/")`. */
  function LStripSlashes(s: string): (r: string)
    ensures |r| <= |s| && s[|s| - |r|..] == r && AllSlashes(s[..|s| - |r|])
    ensures r == [] || r[0] != '/'
  {
    if s == [] || s[0] != '/' then s
    else
      var r := LStripSlashes(s[1..]);
      assert s[..|s| - |r|] == ['/'] + s[1..][..|s| - 1 - |r|];
      r
  }

  /**
   * `os.path.dirname(p)`: everything up to the last `/`, with trailing
   * slashes removed unless nothing but slashes is left.
   */
  function Dirname(p: string): (r: string)
    ensures |r| <= SlashEnd(p) && p[..|r|] == r
    ensures AllSlashes(p[|r|..SlashEnd(p)])
    ensures AllSlashes(p[..SlashEnd(p)]) ==> r == p[..SlashEnd(p)]
    ensures !AllSlashes(p[..SlashEnd(p)]) ==> r != [] && r[|r| - 1] != '/'
  {
    var head := p[..SlashEnd(p)];
    if head != [] && !AllSlashes(head) then
      var r := RStripSlashes(head);
      assert p[|r|..SlashEnd(p)] == head[|r|..];
      r
    else head
  }

  /** Joining two relative components onto a directory without a trailing `/` puts one `/` before each. */
  lemma {:induction false} JoinAllTwo(a: string, x: string, y: string)
    requires a != [] && a[|a| - 1] != '/'
    requires x != [] && x[0] != '/' && x[|x| - 1] != '/' && y != [] && y[0] != '/'
    ensures JoinAll(a, [x, y]) == a + ("/" + x + "/" + y)
  {
    var ax := Join(a, x);
    assert ax == a + "/" + x;
    assert ax[|ax| - 1] == x[|x| - 1];
    assert [x, y][1..] == [y];
    assert JoinAll(ax, [y]) == JoinAll(Join(ax, y), []);
    assert a + "/" + x + "/" + y == a + ("/" + x + "/" + y);
  }

  /** An absolute path with no empty component: one leading `/`, no `//`, no trailing `/`. */
  predicate CleanAbsolute(p: string) {
    && |p| > 1 && p[0] == '/' && p[|p| - 1] != '/'
    && forall i :: 0 <= i <= |p| - 2 ==> Pair(p, i) != "//"
  }

  /** The two characters of `p` starting at `i`. */
  function Pair(p: string, i: nat): (r: string)
    requires i + 2 <= |p|
    ensures r == [p[i], p[i + 1]]
  {
    p[i..i + 2]
  }

  /** The last `/` of `a + b` is the last `/` of `b` when `b` starts with one. */
  lemma {:induction false} SlashEndAppend(a: string, b: string)
    requires b != [] && b[0] == '/'
    ensures SlashEnd(a + b) == |a| + SlashEnd(b)
    decreases |b|
  {
    var ab := a + b;
    if b[|b| - 1] != '/' {
      var b' := b[..|b| - 1];
      assert ab[..|ab| - 1] == a + b';
      SlashEndAppend(a, b');
    }
  }

  lemma {:induction false} PrefixOfConcat(a: string, b: string, k: nat)
    requires k <= |b|
    ensures (a + b)[..|a| + k] == a + b[..k]
  {
  }

  /** Stripping a single trailing `/` that follows a non-slash. */
  lemma {:induction false} RStripOneSlash(s: string)
    requires |s| >= 2 && s[|s| - 1] == '/' && s[|s| - 2] != '/'
    ensures RStripSlashes(s) == s[..|s| - 1]
  {
  }

  /** Joining a directory and a clean absolute path with its leading `/` stripped is plain concatenation. */
  lemma {:induction false} JoinStripped(td: string, p: string)
    requires td != [] && td[|td| - 1] != '/' && CleanAbsolute(p)
    ensures Join(td, LStripSlashes(p)) == td + p
  {
    assert Pair(p, 0) != "//";
    assert LStripSlashes(p[1..]) == p[1..];
    assert p == "/" + p[1..];
  }

  /** When the last `/` of `s` follows a non-slash, `dirname` cuts just before it. */
  lemma {:induction false} DirnameSingleSlash(s: string)
    requires SlashEnd(s) >= 2 && s[SlashEnd(s) - 2] != '/'
    ensures Dirname(s) == s[..SlashEnd(s) - 1]
  {
    var head := s[..SlashEnd(s)];
    assert !AllSlashes(head) by {
      assert head[|head| - 2] != '/';
    }
    RStripOneSlash(head);
    assert head[..|head| - 1] == s[..SlashEnd(s) - 1];
  }

  /** In `td + p`, the character before a `/` of `p` is no `/`. */
  lemma {:induction false} BeforeSlash(td: string, p: string, k: nat)
    requires td != [] && td[|td| - 1] != '/' && CleanAbsolute(p)
    requires 1 <= k < |p| && p[k - 1] == '/'
    ensures (td + p)[|td| + k - 2] != '/'
  {
    if k >= 2 {
      assert Pair(p, k - 2) != "//";
    }
  }

  /** The directory part of `td + p` is `td` followed by the directory part of `p`. */
  lemma {:induction false} DirnameRerooted(td: string, p: string)
    requires td != [] && td[|td| - 1] != '/' && CleanAbsolute(p)
    ensures var k := SlashEnd(p);
      1 <= k < |p| && p[k - 1] == '/' && Dirname(td + p) == td + p[..k - 1]
  {
    var full := td + p;
    var k := SlashEnd(p);
    SlashEndAppend(td, p);
    assert 1 <= k < |p|;
    BeforeSlash(td, p, k);
    DirnameSingleSlash(full);
    PrefixOfConcat(td, p, k - 1);
  }

  /**
   * Re-rooting a clean absolute path under a directory: the directory of
   * `td` joined with the path without its leading slashes, then joined with
   * the path's base name, is the plain concatenation `td + p`.
   */
  lemma {:induction false} RerootedPath(td: string, p: string)
    requires td != [] && td[|td| - 1] != '/' && CleanAbsolute(p)
    ensures Join(Dirname(Join(td, LStripSlashes(p))), Basename(p)) == td + p
  {
    JoinStripped(td, p);
    DirnameRerooted(td, p);
    var k := SlashEnd(p);
    BeforeSlash(td, p, k);
    PrefixOfConcat(td, p, k - 1);
    SplitAtSlash(td, p, k);
  }

  lemma {:induction false} SplitAtSlash(td: string, p: string, k: nat)
    requires 1 <= k < |p| && p[k - 1] == '/'
    ensures td + p[..k - 1] + "/" + p[k..] == td + p
  {
    assert p == p[..k - 1] + "/" + p[k..];
  }

  // ---------------------------------------------------------------------------
  // normpath

  /** `s.split("/")`: the pieces between the slashes, empty ones included. */
  function Split(s: string): (parts: seq<string>)
    ensures |parts| >= 1
    ensures forall i :: 0 <= i < |parts| ==> NoSlash(parts[i])
    decreases |s|
  {
    var k := SlashEnd(s);
    if k == 0 then [s] else Split(s[..k - 1]) + [s[k..]]
  }

  /** `"/".join(parts)`. */
  function JoinSlash(parts: seq<string>): (r: string)
    ensures parts != [] ==> |parts[0]| <= |r| && r[..|parts[0]|] == parts[0]
    decreases |parts|
  {
    if parts == [] then []
    else if |parts| == 1 then parts[0]
    else
      var init := parts[..|parts| - 1];
      assert init[0] == parts[0];
      JoinSlash(init) + "/" + parts[|parts| - 1]
  }

  /** Joining the pieces of a split with `/` gives back the string. */
  lemma {:induction false} JoinSplit(s: string)
    ensures JoinSlash(Split(s)) == s
    decreases |s|
  {
    var k := SlashEnd(s);
    if k > 0 {
      var init := Split(s[..k - 1]);
      var parts := init + [s[k..]];
      assert parts[..|parts| - 1] == init;
      JoinSplit(s[..k - 1]);
      assert s == s[..k - 1] + "/" + s[k..];
    }
  }

  /** A path component that names an entry: not empty, no `/`, neither `.` nor `..`. */
  predicate Plain(c: string) {
    c != [] && NoSlash(c) && c != "." && c != ".."
  }

  /**
   * The components `normpath` keeps: each one plain or `..`; every `..`
   * comes before every plain component; and below a root there is no `..`.
   */
  predicate NormalComps(cs: seq<string>, rooted: bool) {
    && (forall i :: 0 <= i < |cs| ==> Plain(cs[i]) || (cs[i] == ".." && !rooted))
    && (forall i, j :: 0 <= i < j < |cs| && cs[j] == ".." ==> cs[i] == "..")
  }

  /** One turn of the loop of `normpath` over the components of the path. */
  function NormStep(acc: seq<string>, comp: string, rooted: bool): seq<string> {
    if comp == "" || comp == "." then acc
    else if comp != ".." || (!rooted && acc == []) || (acc != [] && acc[|acc| - 1] == "..") then acc + [comp]
    else if acc != [] then acc[..|acc| - 1]
    else acc
  }

  /** The loop of `normpath` over `comps`, left to right: `.` and empty ones drop, `..` cancels the component before it. */
  function NormComps(comps: seq<string>, rooted: bool): (acc: seq<string>)
    requires forall i :: 0 <= i < |comps| ==> NoSlash(comps[i])
    ensures NormalComps(acc, rooted)
    decreases |comps|
  {
    if comps == [] then []
    else
      var init := comps[..|comps| - 1];
      assert forall i :: 0 <= i < |init| ==> init[i] == comps[i];
      NormStep(NormComps(init, rooted), comps[|comps| - 1], rooted)
  }

  /**
   * The slashes `normpath` keeps in front: `//` when the path starts with
   * exactly two, `/` when it starts with one or with three or more.
   */
  function Root(p: string): string {
    if |p| >= 2 && p[0] == '/' && p[1] == '/' && (|p| == 2 || p[2] != '/') then "//"
    else if p != [] && p[0] == '/' then "/"
    else ""
  }

  /**
   * `os.path.normpath(p)`: the root, then the components with `.`, empty
   * ones and cancelled `..` removed, joined with `/`; `.` when nothing is
   * left. The result is never empty and is absolute exactly when `p` is.
   */
  function Normpath(p: string): (r: string)
    ensures r != []
    ensures r[0] == '/' <==> p != [] && p[0] == '/'
  {
    if p == [] then "."
    else
      var root := Root(p);
      var cs := NormComps(Split(p), root != []);
      var r := root + JoinSlash(cs);
      if r == [] then "."
      else
        assert root == [] ==> cs != [] && r[..|cs[0]|] == cs[0] && (Plain(cs[0]) || cs[0] == "..");
        r
  }

  /** The pieces of `a + "/" + name` are those of `a` and then `name`. */
  lemma {:induction false} SplitExtend(a: string, name: string)
    requires NoSlash(name)
    ensures Split(a + "/" + name) == Split(a) + [name]
  {
    var s := a + "/" + name;
    var k := SlashEnd(s);
    assert s[|a|] == '/';
    assert s[..k - 1] == a && s[k..] == name;
  }

  /** The root of an absolute path that does not end in `/` survives appending `"/" + name`. */
  lemma {:induction false} RootExtend(p: string, name: string)
    requires |p| >= 2 && p[0] == '/' && p[|p| - 1] != '/'
    ensures Root(p + "/" + name) == Root(p)
  {
    var s := p + "/" + name;
    assert s[0] == p[0] && s[1] == p[1];
    if |p| >= 3 {
      assert s[2] == p[2];
    }
  }

  /** The loop of `normpath` over one more component is one more turn. */
  lemma {:induction false} NormCompsSnoc(comps: seq<string>, c: string, rooted: bool)
    requires forall i :: 0 <= i < |comps| ==> NoSlash(comps[i])
    requires NoSlash(c)
    ensures forall i :: 0 <= i < |comps + [c]| ==> NoSlash((comps + [c])[i])
    ensures NormComps(comps + [c], rooted) == NormStep(NormComps(comps, rooted), c, rooted)
  {
    var ext := comps + [c];
    assert ext[..|ext| - 1] == comps;
  }

  lemma {:induction false} JoinSlashSnoc(cs: seq<string>, x: string)
    requires cs != []
    ensures JoinSlash(cs + [x]) == JoinSlash(cs) + "/" + x
  {
    var ext := cs + [x];
    assert ext[..|ext| - 1] == cs;
  }

  /** `normpath` of an absolute path: its root, then the kept components joined with `/`. */
  lemma {:induction false} NormpathAbsolute(p: string)
    requires p != [] && p[0] == '/'
    ensures Root(p) != []
    ensures Normpath(p) == Root(p) + JoinSlash(NormComps(Split(p), true))
  {
  }

  /**
   * A plain name under a normal absolute directory stays where it is: when
   * `normpath` leaves `p` alone, it leaves `p + "/" + name` alone too.
   */
  lemma {:induction false} NormpathExtend(p: string, name: string)
    requires |p| >= 2 && p[0] == '/' && p[|p| - 1] != '/' && Normpath(p) == p
    requires Plain(name)
    ensures Normpath(p + "/" + name) == p + "/" + name
  {
    var q := p + "/" + name;
    var root := Root(p);
    RootExtend(p, name);
    SplitExtend(p, name);
    NormpathAbsolute(p);
    NormpathAbsolute(q);
    var cs := NormComps(Split(p), true);
    NormCompsSnoc(Split(p), name, true);
    assert NormComps(Split(q), true) == cs + [name];
    assert cs != [];
    JoinSlashSnoc(cs, name);
  }

  /** A plain name right under the root is normal. */
  lemma {:induction false} NormpathRootChild(name: string)
    requires Plain(name)
    ensures Normpath("/" + name) == "/" + name
  {
    var p := "/" + name;
    assert Root(p) == "/" by {
      assert p[1] == name[0];
    }
    assert Split(p) == ["", name] by {
      assert p == "" + "/" + name;
      SplitExtend("", name);
      assert Split("") == [""];
    }
    assert NormComps(["", name], true) == [name] by {
      NormCompsSnoc([], "", true);
      assert [] + [""] == [""];
      NormCompsSnoc([""], name, true);
      assert [""] + [name] == ["", name];
    }
    NormpathAbsolute(p);
    assert JoinSlash([name]) == name;
  }

  /** `normpath` of an absolute path with `/..` appended: one more turn of the loop, on `..`. */
  lemma {:induction false} NormpathUp(q: string)
    requires |q| >= 2 && q[0] == '/' && q[|q| - 1] != '/'
    ensures Normpath(q + "/..") == Root(q) + JoinSlash(NormStep(NormComps(Split(q), true), "..", true))
  {
    var s := q + "/..";
    assert s == q + "/" + "..";
    RootExtend(q, "..");
    SplitExtend(q, "..");
    NormpathAbsolute(s);
    var parts := Split(q);
    assert Split(s) == parts + [".."];
    NormCompsSnoc(parts, "..", true);
    assert NormComps(Split(s), true) == NormStep(NormComps(parts, true), "..", true);
  }

  /** A `..` after a plain name cancels it: `normpath` of `p + "/" + name + "/.."` is `p` again. */
  lemma {:induction false} NormpathParent(p: string, name: string)
    requires |p| >= 2 && p[0] == '/' && p[|p| - 1] != '/' && Normpath(p) == p
    requires Plain(name)
    ensures Normpath(p + "/" + name + "/..") == p
  {
    var q := p + "/" + name;
    NormpathUp(q);
    RootExtend(p, name);
    SplitExtend(p, name);
    NormpathAbsolute(p);
    var cs := NormComps(Split(p), true);
    NormCompsSnoc(Split(p), name, true);
    assert NormComps(Split(q), true) == cs + [name];
    assert (cs + [name])[..|cs|] == cs;
  }
}

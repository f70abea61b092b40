/**
 * The package-spec mini-language and its parser.
 *
 * A spec file is read line by line. After stripping, a blank line or one
 * starting with `#` is skipped; every other line must match
 * `^(+|-|=)\s*(\S*)\s*$`. `+` installs the token, `-` removes it, and `=`
 * changes the mode without contributing a package (its token, if any, is
 * ignored). `+` and `-` need a non-empty token.
 *
 * The parser turns the directives into batches. The reference definition
 * here, `Group`, cuts the directive stream into maximal runs of one mode and
 * drops the runs of `=`; `ParseLines` is the source's loop with its active
 * mode and active batch, proved to compute the same thing.
 */
module PackageSpec {
  import opened Errors
  import opened Text
  import opened FileSystem

  /** `+`, `-` and `=`. */
  datatype Mode = Install | Remove | Reset

  datatype Directive = Directive(mode: Mode, pkg: string)

  /** One `(mode, [pkg, …])` pair of the parser's output. */
  datatype Batch = Batch(mode: Mode, pkgs: seq<string>)

  datatype LineKind = Skip | Entry(directive: Directive) | Malformed

  function ModeOf(c: char): Option<Mode> {
    if c == '+' then Some(Install)
    else if c == '-' then Some(Remove)
    else if c == '=' then Some(Reset)
    else None
  }

  /**
   * The directive pattern of the package spec: a leading mode character
   * (`+`, `-` or `=`), optional whitespace, a group of non-whitespace
   * characters that may be empty, and optional trailing whitespace to the
   * end of the line.
   */
  function MatchDirective(line: string): Option<Directive> {
    if line == [] || ModeOf(line[0]).None? then None
    else
      match MatchToken(line[1..])
      case None => None
      case Some(pkg) => Some(Directive(ModeOf(line[0]).value, pkg))
  }

  /** What the parser makes of one raw line of the file. */
  function Classify(line: string): LineKind {
    var s := Strip(line);
    if s == [] || s[0] == '#' then Skip
    else
      match MatchDirective(s)
      case None => Malformed
      case Some(d) => if d.mode != Reset && d.pkg == [] then Malformed else Entry(d)
  }

  /** A line is skipped exactly when it is blank after stripping or starts with `#`. */
  lemma {:induction false} ClassifySkip(line: string)
    ensures Classify(line) == Skip <==> Strip(line) == [] || Strip(line)[0] == '#'
  {
  }

  /**
   * A line taken as a directive is, after stripping, its mode character,
   * whitespace, a whitespace-free token and whitespace; the token is
   * non-empty unless the mode is `=`.
   */
  lemma {:induction false} ClassifyEntrySound(line: string)
    requires Classify(line).Entry?
    ensures var s := Strip(line); var d := Classify(line).directive;
      && s != [] && ModeOf(s[0]) == Some(d.mode) && NoSpace(d.pkg) && (d.mode == Reset || d.pkg != [])
      && exists w1, w2 :: AllSpace(w1) && AllSpace(w2) && s == [s[0]] + w1 + d.pkg + w2
  {
    var s := Strip(line);
    var w1, w2 := MatchDirectiveSound(s);
  }

  /** A match of the directive pattern is the mode character, whitespace `w1`, the token and whitespace `w2`. */
  lemma {:induction false} MatchDirectiveSound(s: string) returns (w1: string, w2: string)
    requires MatchDirective(s).Some?
    ensures var d := MatchDirective(s).value;
      && s != [] && ModeOf(s[0]) == Some(d.mode) && NoSpace(d.pkg)
      && AllSpace(w1) && AllSpace(w2) && s == [s[0]] + w1 + d.pkg + w2
  {
    var rest := s[1..];
    var t := MatchToken(rest).value;
    assert t == MatchDirective(s).value.pkg;
    var i := LeadingSpaces(rest);
    w1 := rest[..i];
    w2 := rest[i + |t|..];
    MatchTokenSound(rest);
    ConsParts(s, w1, t, w2);
  }

  lemma {:induction false} ConsParts<T>(s: seq<T>, a: seq<T>, b: seq<T>, c: seq<T>)
    requires s != [] && s[1..] == a + b + c
    ensures s == [s[0]] + a + b + c
  {
    assert s == [s[0]] + s[1..];
  }

  /** Every such line is taken as that directive. */
  lemma {:induction false} ClassifyEntryComplete(line: string, c: char, m: Mode, w1: string, t: string, w2: string)
    requires ModeOf(c) == Some(m) && AllSpace(w1) && NoSpace(t) && AllSpace(w2) && (m == Reset || t != [])
    requires Strip(line) == [c] + w1 + t + w2
    ensures Classify(line) == Entry(Directive(m, t))
  {
    MatchDirectiveComplete(c, m, w1, t, w2);
  }

  /** The directive pattern matches its mode character, whitespace, a token and whitespace, with that mode and token. */
  lemma {:induction false} MatchDirectiveComplete(c: char, m: Mode, w1: string, t: string, w2: string)
    requires ModeOf(c) == Some(m) && AllSpace(w1) && NoSpace(t) && AllSpace(w2)
    ensures MatchDirective([c] + w1 + t + w2) == Some(Directive(m, t))
  {
    var s := [c] + w1 + t + w2;
    MatchTokenComplete(w1, t, w2);
    assert s[1..] == w1 + t + w2;
  }

  predicate IsMalformed(line: string) {
    Classify(line).Malformed?
  }

  /** How each line of the file is classified, in order. */
  function Kinds(lines: seq<string>): (ks: seq<LineKind>)
    ensures |ks| == |lines|
    ensures forall i :: 0 <= i < |lines| ==> ks[i] == Classify(lines[i])
  {
    if lines == [] then []
    else Kinds(lines[..|lines| - 1]) + [Classify(lines[|lines| - 1])]
  }

  /** The index of the first malformed line, `|ks|` when there is none. */
  function FirstMalformed(ks: seq<LineKind>): (n: nat)
    ensures n <= |ks|
    ensures forall j :: 0 <= j < n ==> !ks[j].Malformed?
    ensures n < |ks| ==> ks[n].Malformed?
  {
    if ks == [] || ks[0].Malformed? then 0 else 1 + FirstMalformed(ks[1..])
  }

  /** The directive a classified line contributes: none for skipped and malformed lines. */
  function EntryOf(k: LineKind): seq<Directive> {
    match k case Entry(d) => [d] case _ => []
  }

  /** The directives among classified lines, in order. */
  function Entries(ks: seq<LineKind>): seq<Directive> {
    if ks == [] then [] else Entries(ks[..|ks| - 1]) + EntryOf(ks[|ks| - 1])
  }

  /** The directives of the file, in order. */
  function Directives(lines: seq<string>): seq<Directive> {
    Entries(Kinds(lines))
  }

  /** The packages named by the `+` and `-` directives, in order. */
  function Tokens(ds: seq<Directive>): seq<string> {
    if ds == [] then [] else Tokens(ds[..|ds| - 1]) + TokenOf(ds[|ds| - 1])
  }

  /** The package a directive names for installation or removal: none for `=`. */
  function TokenOf(d: Directive): seq<string> {
    if d.mode == Reset then [] else [d.pkg]
  }

  /** All packages of a list of batches, batch after batch. */
  function Flatten(bs: seq<Batch>): seq<string> {
    if bs == [] then [] else Flatten(bs[..|bs| - 1]) + bs[|bs| - 1].pkgs
  }

  /** The token of every directive, `=` ones included. */
  function Packages(ds: seq<Directive>): (ps: seq<string>)
    ensures |ps| == |ds|
  {
    if ds == [] then [] else Packages(ds[..|ds| - 1]) + [ds[|ds| - 1].pkg]
  }

  /** The length of the run of mode `m` at the end of `ds`. */
  function TrailingRun(ds: seq<Directive>, m: Mode): (n: nat)
    ensures n <= |ds|
    ensures n < |ds| ==> ds[|ds| - n - 1].mode != m
  {
    if ds == [] || ds[|ds| - 1].mode != m then 0 else 1 + TrailingRun(ds[..|ds| - 1], m)
  }

  /** The batch a run of mode `m` becomes: none for `=`. */
  function RunBatch(m: Mode, pkgs: seq<string>): seq<Batch> {
    if m == Reset then [] else [Batch(m, pkgs)]
  }

  /**
   * The reference batching: one batch per maximal run of `+` or of `-`
   * directives, the last run taken off the end first.
   */
  function Group(ds: seq<Directive>): seq<Batch>
    decreases |ds|
  {
    if ds == [] then []
    else
      var m := ds[|ds| - 1].mode;
      var n := TrailingRun(ds, m);
      Group(ds[..|ds| - n]) + RunBatch(m, Packages(ds[|ds| - n..]))
  }

  /** The parser's result on classified lines: the batches, or the 1-based number of the first malformed one. */
  function ParseKinds(ks: seq<LineKind>): Result<seq<Batch>, nat> {
    var n := FirstMalformed(ks);
    if n < |ks| then Err(n + 1) else Ok(Group(Entries(ks)))
  }

  /** The parser's result on the lines of a file. */
  function Parse(lines: seq<string>): Result<seq<Batch>, nat> {
    ParseKinds(Kinds(lines))
  }

  /** `_read_package_spec` on the filesystem: the existence check, then the regular-file check, then parsing. */
  function ReadSpec(fs: Tree, specfile: string): Result<seq<Batch>, BBoxError> {
    if specfile !in fs then Err(SpecNotFound(specfile))
    else if !fs[specfile].File? then Err(SpecNotRegularFile(specfile))
    else
      match Parse(fs[specfile].lines)
      case Ok(bs) => Ok(bs)
      case Err(n) => Err(SpecMalformed(specfile, n))
  }

  // ---------------------------------------------------------------------------
  // The source's loop

  function LastMode(ds: seq<Directive>): Option<Mode> {
    if ds == [] then None else Some(ds[|ds| - 1].mode)
  }

  /** The batch still open in the loop, if it holds anything. */
  function Pending(activeMode: Option<Mode>, activeBatch: seq<string>): seq<Batch> {
    if activeBatch != [] && activeMode.Some? then [Batch(activeMode.value, activeBatch)] else []
  }

  /** The directives of the first `k + 1` classified lines: those of the first `k` and what line `k` contributes. */
  lemma {:induction false} EntriesStep(ks: seq<LineKind>, k: nat)
    requires k < |ks|
    ensures Entries(ks[..k + 1]) == Entries(ks[..k]) + EntryOf(ks[k])
  {
    assert ks[..k + 1][..k] == ks[..k];
  }

  /** No classified line is malformed. */
  predicate NoneMalformed(ks: seq<LineKind>) {
    forall j :: 0 <= j < |ks| ==> !ks[j].Malformed?
  }

  lemma {:induction false} NoneMalformedStep(ks: seq<LineKind>, k: nat)
    requires k < |ks| && NoneMalformed(ks[..k]) && !ks[k].Malformed?
    ensures NoneMalformed(ks[..k + 1])
  {
    assert forall j :: 0 <= j < k ==> ks[..k + 1][j] == ks[..k][j];
  }

  /** Classified lines none of which is malformed parse to the batches of their directives. */
  lemma {:induction false} ParseAccepts(ks: seq<LineKind>)
    requires NoneMalformed(ks)
    ensures ParseKinds(ks) == Ok(Group(Entries(ks)))
  {
  }

  /** A malformed line `k` with none before it is the parser's error, reported as `k + 1`. */
  lemma {:induction false} ParseStopsAt(ks: seq<LineKind>, k: nat)
    requires k < |ks| && NoneMalformed(ks[..k]) && ks[k].Malformed?
    ensures ParseKinds(ks) == Err(k + 1)
  {
    assert forall j :: 0 <= j < k ==> ks[..k][j] == ks[j];
    assert FirstMalformed(ks) == k;
  }

  /** What the loop keeps: the closed batches and the open one together are the batches of the directives so far. */
  predicate InStep(ds: seq<Directive>, batches: seq<Batch>, activeMode: Option<Mode>, activeBatch: seq<string>) {
    && batches + Pending(activeMode, activeBatch) == Group(ds)
    && activeMode == LastMode(ds)
    && (activeMode.None? || activeMode == Some(Reset) ==> activeBatch == [])
    && (activeMode.Some? && activeMode.value != Reset ==> activeBatch != [])
  }

  lemma {:induction false} StepNewMode(ds: seq<Directive>, d: Directive,
      batches: seq<Batch>, activeMode: Option<Mode>, activeBatch: seq<string>,
      batches': seq<Batch>, activeBatch': seq<string>)
    requires InStep(ds, batches, activeMode, activeBatch)
    requires ds == [] || ds[|ds| - 1].mode != d.mode
    requires batches' == batches + Pending(activeMode, activeBatch)
    requires activeBatch' == [] + (if d.mode == Reset then [] else [d.pkg])
    ensures InStep(ds + [d], batches', Some(d.mode), activeBatch')
  {
    assert batches' + Pending(Some(d.mode), activeBatch') == Group(ds + [d]) by {
      assert activeBatch' == (if d.mode == Reset then [] else [d.pkg]);
      assert Pending(Some(d.mode), activeBatch') == RunBatch(d.mode, [d.pkg]);
      GroupSnocNewMode(ds, d);
    }
    assert LastMode(ds + [d]) == Some(d.mode);
  }

  lemma {:induction false} StepExtend(ds: seq<Directive>, d: Directive,
      batches: seq<Batch>, activeMode: Option<Mode>, activeBatch: seq<string>,
      batches': seq<Batch>, activeBatch': seq<string>)
    requires InStep(ds, batches, activeMode, activeBatch)
    requires ds != [] && ds[|ds| - 1].mode == d.mode != Reset
    requires batches' == batches && activeBatch' == activeBatch + [d.pkg]
    ensures InStep(ds + [d], batches', Some(d.mode), activeBatch')
  {
    GroupSnocExtend(ds, d);
    var g := Group(ds);
    assert g == batches + [Batch(d.mode, activeBatch)];
    assert g[..|g| - 1] == batches;
  }

  /**
   * What the loop of `_read_package_spec` does with one raw line before it
   * touches the batches: strip it, skip it when blank or a comment, match it
   * against the directive pattern, and refuse `+` or `-` without a package.
   */
  method ClassifyLine(raw: string) returns (k: LineKind)
    ensures k == Classify(raw)
  {
    var line := Strip(raw);
    if line == [] || line[0] == '#' {
      return Skip;
    }
    var m := MatchDirective(line);
    if m.None? {
      return Malformed;
    }
    var d := m.value;
    if (d.mode == Install || d.mode == Remove) && d.pkg == [] {
      return Malformed;
    }
    return Entry(d);
  }

  /**
   * One accepted directive in the loop of `_read_package_spec`: a change of
   * mode flushes the active batch and switches the active mode, then a `+` or
   * `-` package joins the active batch. The loop stays in step with `Group`.
   */
  method Accept(ghost ds: seq<Directive>, d: Directive,
                batches: seq<Batch>, activeMode: Option<Mode>, activeBatch: seq<string>)
    returns (batches': seq<Batch>, activeMode': Option<Mode>, activeBatch': seq<string>)
    requires InStep(ds, batches, activeMode, activeBatch)
    ensures InStep(ds + [d], batches', activeMode', activeBatch')
  {
    batches', activeMode', activeBatch' := batches, activeMode, activeBatch;
    if Some(d.mode) != activeMode' {
      if activeBatch' != [] {
        batches' := batches' + [Batch(activeMode'.value, activeBatch')];
        activeBatch' := [];
      }
      activeMode' := Some(d.mode);
    }
    if d.mode == Install || d.mode == Remove {
      activeBatch' := activeBatch' + [d.pkg];
    }
    if Some(d.mode) != activeMode {
      assert batches' == batches + Pending(activeMode, activeBatch);
      StepNewMode(ds, d, batches, activeMode, activeBatch, batches', activeBatch');
    } else if d.mode == Reset {
      GroupSnocReset(ds, d);
    } else {
      StepExtend(ds, d, batches, activeMode, activeBatch, batches', activeBatch');
    }
  }

  /**
   * The loop of `_read_package_spec` over the lines of the file: it keeps an
   * active mode and an active batch, flushes the batch when a directive's mode
   * differs from the active mode, and flushes it once more at the end. (The
   * source flushes before it refuses an empty `+` or `-` token; the error
   * discards the batches, so refusing first gives the same result.)
   */
  method ParseLines(lines: seq<string>) returns (r: Result<seq<Batch>, nat>)
    ensures r == Parse(lines)
  {
    var batches: seq<Batch> := [];
    var activeBatch: seq<string> := [];
    var activeMode: Option<Mode> := None;
    var lineno := 0;
    ghost var ks := Kinds(lines);
    ghost var ds: seq<Directive> := [];
    while lineno < |lines|
      invariant lineno <= |lines| && NoneMalformed(ks[..lineno])
      invariant ds == Entries(ks[..lineno])
      invariant InStep(ds, batches, activeMode, activeBatch)
    {
      var k := ClassifyLine(lines[lineno]);
      assert k == ks[lineno];
      lineno := lineno + 1;
      if k.Malformed? {
        ParseStopsAt(ks, lineno - 1);
        return Err(lineno);
      }
      EntriesStep(ks, lineno - 1);
      NoneMalformedStep(ks, lineno - 1);
      if k.Skip? {
        continue;
      }
      var d := k.directive;
      batches, activeMode, activeBatch := Accept(ds, d, batches, activeMode, activeBatch);
      ds := ds + [d];
    }
    if activeBatch != [] {
      batches := batches + [Batch(activeMode.value, activeBatch)];
    }
    assert batches == Group(ds);
    assert ks[..lineno] == ks;
    ParseAccepts(ks);
    return Ok(batches);
  }

  // ---------------------------------------------------------------------------
  // Properties of the batching

  /** One more directive of the last run's mode lengthens the run; any other mode starts a run of one. */
  lemma {:induction false} TrailingRunSnoc(ds: seq<Directive>, d: Directive)
    ensures TrailingRun(ds + [d], d.mode) == 1 + TrailingRun(ds, d.mode)
  {
    assert (ds + [d])[..|ds|] == ds;
  }

  /** The batches of `ds + [d]`: those before the run `d` ends, then the batch of that run. */
  lemma {:induction false} GroupSnocRun(ds: seq<Directive>, d: Directive)
    ensures var k := TrailingRun(ds, d.mode);
      Group(ds + [d]) == Group(ds[..|ds| - k]) + RunBatch(d.mode, Packages(ds[|ds| - k..]) + [d.pkg])
  {
    var e := ds + [d];
    var j := |ds| - TrailingRun(ds, d.mode);
    TrailingRunSnoc(ds, d);
    assert |e| - TrailingRun(e, d.mode) == j;
    SnocSlices(ds, d, j);
    PackagesSnoc(ds[j..], d);
    GroupLastRun(e, d.mode);
    calc {
      Group(e);
      Group(e[..j]) + RunBatch(d.mode, Packages(e[j..]));
      Group(ds[..j]) + RunBatch(d.mode, Packages(ds[j..] + [d]));
    }
  }

  /** Slicing a sequence with one element appended, at or before its old end. */
  lemma {:induction false} SnocSlices<T>(s: seq<T>, x: T, n: nat)
    requires n <= |s|
    ensures (s + [x])[..n] == s[..n] && (s + [x])[n..] == s[n..] + [x]
  {
  }

  lemma {:induction false} PackagesSnoc(ds: seq<Directive>, d: Directive)
    ensures Packages(ds + [d]) == Packages(ds) + [d.pkg]
  {
    assert (ds + [d])[..|ds|] == ds;
  }

  /** A directive whose mode differs from the last one opens a new batch (none for `=`). */
  lemma {:induction false} GroupSnocNewMode(ds: seq<Directive>, d: Directive)
    requires ds == [] || ds[|ds| - 1].mode != d.mode
    ensures Group(ds + [d]) == Group(ds) + RunBatch(d.mode, [d.pkg])
  {
    var e := ds + [d];
    TrailingRunSnoc(ds, d);
    assert TrailingRun(e, d.mode) == 1 by {
      assert TrailingRun(ds, d.mode) == 0;
    }
    assert e[|e| - 1].mode == d.mode;
    GroupLastRun(e, d.mode);
    SnocParts(ds, d);
    calc {
      Group(e);
      Group(e[..|ds|]) + RunBatch(d.mode, Packages(e[|ds|..]));
      Group(ds) + RunBatch(d.mode, Packages([d]));
    }
    assert Packages([d]) == [d.pkg];
  }

  /** A non-empty sequence is its prefix with its last element appended. */
  lemma {:induction false} LastSplit<T>(s: seq<T>)
    requires s != []
    ensures s == s[..|s| - 1] + [s[|s| - 1]]
  {
  }

  lemma {:induction false} SnocParts<T>(s: seq<T>, x: T)
    ensures (s + [x])[..|s|] == s && (s + [x])[|s|..] == [x]
  {
  }

  /** The batches of a stream whose last run has mode `m`: those before the run, then the run's batch. */
  lemma {:induction false} GroupLastRun(ds: seq<Directive>, m: Mode)
    requires ds != [] && ds[|ds| - 1].mode == m
    ensures var k := TrailingRun(ds, m);
      Group(ds) == Group(ds[..|ds| - k]) + RunBatch(m, Packages(ds[|ds| - k..]))
  {
  }

  /** Another `=` right after `=` changes no batch. */
  lemma {:induction false} GroupSnocReset(ds: seq<Directive>, d: Directive)
    requires ds != [] && ds[|ds| - 1].mode == d.mode == Reset
    ensures Group(ds + [d]) == Group(ds)
  {
    GroupSnocRun(ds, d);
    GroupLastRun(ds, d.mode);
  }

  /** `h` is `g` with package `p` added to its last batch, which gets mode `m`. */
  predicate ExtendsLast(g: seq<Batch>, h: seq<Batch>, m: Mode, p: string) {
    g != [] && h == g[..|g| - 1] + [Batch(m, g[|g| - 1].pkgs + [p])]
  }

  /** A `+` after `+` (or `-` after `-`) joins the last batch. */
  lemma {:induction false} GroupSnocExtend(ds: seq<Directive>, d: Directive)
    requires ds != [] && ds[|ds| - 1].mode == d.mode != Reset
    ensures ExtendsLast(Group(ds), Group(ds + [d]), d.mode, d.pkg)
  {
    var j := |ds| - TrailingRun(ds, d.mode);
    var g0, ps := Group(ds[..j]), Packages(ds[j..]);
    GroupSnocRun(ds, d);
    GroupLastRun(ds, d.mode);
    calc {
      Group(ds);
      g0 + RunBatch(d.mode, ps);
      g0 + [Batch(d.mode, ps)];
    }
    calc {
      Group(ds + [d]);
      g0 + RunBatch(d.mode, ps + [d.pkg]);
      g0 + [Batch(d.mode, ps + [d.pkg])];
    }
    ExtendsLastSnoc(g0, d.mode, ps, d.pkg);
  }

  lemma {:induction false} ExtendsLastSnoc(g0: seq<Batch>, m: Mode, ps: seq<string>, p: string)
    ensures ExtendsLast(g0 + [Batch(m, ps)], g0 + [Batch(m, ps + [p])], m, p)
  {
    SnocParts(g0, Batch(m, ps));
  }

  /**
   * Appending one directive to the stream either opens a new batch (the mode
   * changed), leaves the batches alone (another `=`), or extends the last
   * batch (the same `+`/`-` mode again): the flush rule of the source.
   */
  lemma {:induction false} GroupSnoc(ds: seq<Directive>, d: Directive)
    ensures (ds == [] || ds[|ds| - 1].mode != d.mode) ==>
      Group(ds + [d]) == Group(ds) + RunBatch(d.mode, [d.pkg])
    ensures ds != [] && ds[|ds| - 1].mode == d.mode && d.mode == Reset ==>
      Group(ds + [d]) == Group(ds)
    ensures ds != [] && ds[|ds| - 1].mode == d.mode && d.mode != Reset ==>
      ExtendsLast(Group(ds), Group(ds + [d]), d.mode, d.pkg)
  {
    if ds == [] || ds[|ds| - 1].mode != d.mode {
      GroupSnocNewMode(ds, d);
    } else if d.mode == Reset {
      GroupSnocReset(ds, d);
    } else {
      GroupSnocExtend(ds, d);
    }
  }

  lemma {:induction false} FlattenSnoc(g: seq<Batch>, b: Batch)
    ensures Flatten(g + [b]) == Flatten(g) + b.pkgs
  {
    assert (g + [b])[..|g|] == g;
  }

  lemma {:induction false} FlattenExtendLast(g: seq<Batch>, m: Mode, p: string)
    requires g != []
    ensures Flatten(g[..|g| - 1] + [Batch(m, g[|g| - 1].pkgs + [p])]) == Flatten(g) + [p]
  {
    var init, last := g[..|g| - 1], g[|g| - 1].pkgs;
    FlattenSnoc(init, Batch(m, last + [p]));
    assert Flatten(g) == Flatten(init) + last;
    AppendAssoc(Flatten(init), last, [p]);
  }

  lemma {:induction false} AppendAssoc<T>(a: seq<T>, b: seq<T>, c: seq<T>)
    ensures a + (b + c) == (a + b) + c
  {
  }

  /** Concatenating the batches gives back the `+`/`-` packages in file order. */
  lemma {:induction false} GroupFlatten(ds: seq<Directive>)
    ensures Flatten(Group(ds)) == Tokens(ds)
    decreases |ds|
  {
    if ds != [] {
      var init, d := ds[..|ds| - 1], ds[|ds| - 1];
      GroupFlatten(init);
      FlattenGroupSnoc(init, d);
      LastSplit(ds);
      assert Tokens(ds) == Tokens(init) + TokenOf(d);
    }
  }

  /** One more directive adds its own token, if any, to the end of the flattened batches. */
  lemma {:induction false} FlattenGroupSnoc(ds: seq<Directive>, d: Directive)
    ensures Flatten(Group(ds + [d])) == Flatten(Group(ds)) + TokenOf(d)
  {
    var g := Group(ds);
    if ds == [] || ds[|ds| - 1].mode != d.mode {
      GroupSnocNewMode(ds, d);
      if d.mode != Reset {
        FlattenSnoc(g, Batch(d.mode, [d.pkg]));
      } else {
        assert g + [] == g;
      }
    } else if d.mode == Reset {
      GroupSnocReset(ds, d);
    } else {
      GroupSnocExtend(ds, d);
      FlattenExtendLast(g, d.mode, d.pkg);
    }
  }

  /** The last batch comes from the last directive when that one installs or removes. */
  lemma {:induction false} GroupLastMode(ds: seq<Directive>)
    requires ds != [] && ds[|ds| - 1].mode != Reset
    ensures Group(ds) != [] && Group(ds)[|Group(ds)| - 1].mode == ds[|ds| - 1].mode
  {
    var d := ds[|ds| - 1];
    var init := ds[..|ds| - 1];
    LastSplit(ds);
    if init == [] || init[|init| - 1].mode != d.mode {
      GroupSnocNewMode(init, d);
    } else {
      GroupSnocExtend(init, d);
    }
  }

  /** Neighbouring batches have different modes. */
  predicate Alternating(g: seq<Batch>) {
    forall i :: 0 <= i < |g| - 1 ==> g[i].mode != g[i + 1].mode
  }

  predicate NoReset(ds: seq<Directive>) {
    forall i :: 0 <= i < |ds| ==> ds[i].mode != Reset
  }

  lemma {:induction false} AlternatingSnoc(g: seq<Batch>, b: Batch)
    requires Alternating(g) && (g == [] || g[|g| - 1].mode != b.mode)
    ensures Alternating(g + [b])
  {
    var g2 := g + [b];
    forall i | 0 <= i < |g2| - 1 ensures g2[i].mode != g2[i + 1].mode {
      if i + 1 < |g| {
        assert g2[i] == g[i] && g2[i + 1] == g[i + 1];
      } else {
        assert g2[i] == g[|g| - 1];
      }
    }
  }

  lemma {:induction false} AlternatingReplaceLast(g: seq<Batch>, b: Batch)
    requires Alternating(g) && g != [] && g[|g| - 1].mode == b.mode
    ensures Alternating(g[..|g| - 1] + [b])
  {
    var g2 := g[..|g| - 1] + [b];
    assert forall i :: 0 <= i < |g2| ==> g2[i].mode == g[i].mode;
  }

  /** Without `=` directives, neighbouring batches never share a mode. */
  lemma {:induction false} GroupAlternates(ds: seq<Directive>)
    requires NoReset(ds)
    ensures Alternating(Group(ds))
    decreases |ds|
  {
    if ds != [] {
      var d := ds[|ds| - 1];
      var init := ds[..|ds| - 1];
      LastSplit(ds);
      assert forall i :: 0 <= i < |init| ==> init[i] == ds[i];
      GroupAlternates(init);
      var g := Group(init);
      if init == [] || init[|init| - 1].mode != d.mode {
        GroupSnocNewMode(init, d);
        if init != [] {
          GroupLastMode(init);
        }
        AlternatingSnoc(g, Batch(d.mode, [d.pkg]));
      } else {
        GroupSnocExtend(init, d);
        GroupLastMode(init);
        AlternatingReplaceLast(g, Batch(d.mode, g[|g| - 1].pkgs + [d.pkg]));
      }
    }
  }

  /** Every batch installs or removes, and names at least one package. */
  lemma {:induction false} GroupWellFormed(ds: seq<Directive>)
    ensures forall b :: b in Group(ds) ==> b.mode != Reset && b.pkgs != []
    decreases |ds|
  {
    if ds != [] {
      var d := ds[|ds| - 1];
      var init := ds[..|ds| - 1];
      LastSplit(ds);
      GroupWellFormed(init);
      var g := Group(init);
      if init == [] || init[|init| - 1].mode != d.mode {
        GroupSnocNewMode(init, d);
      } else if d.mode == Reset {
        GroupSnocReset(init, d);
      } else {
        GroupSnocExtend(init, d);
        assert forall b :: b in g[..|g| - 1] ==> b in g;
      }
    }
  }

  // ---------------------------------------------------------------------------
  // Properties of the parser on whole files

  /** An error names the first malformed line, counting from 1 and counting skipped lines. */
  lemma {:induction false} ParseErrorLine(lines: seq<string>)
    requires Parse(lines).Err?
    ensures var n := Parse(lines).error;
      1 <= n <= |lines| && IsMalformed(lines[n - 1]) &&
      forall j :: 0 <= j < n - 1 ==> !IsMalformed(lines[j])
  {
    var ks := Kinds(lines);
    var n := FirstMalformed(ks);
    assert n < |lines| && Parse(lines).error == n + 1;
    assert ks[n] == Classify(lines[n]);
    forall j | 0 <= j < n ensures !IsMalformed(lines[j]) {
      assert ks[j] == Classify(lines[j]);
    }
  }

  /** Every batch of a parsed file installs or removes at least one package. */
  lemma {:induction false} ParseBatchesWellFormed(lines: seq<string>)
    requires Parse(lines).Ok?
    ensures forall b :: b in Parse(lines).value ==> (b.mode == Install || b.mode == Remove) && b.pkgs != []
  {
    GroupWellFormed(Directives(lines));
  }

  /** The batches of a parsed file hold exactly its `+`/`-` packages, in file order. */
  lemma {:induction false} ParseContents(lines: seq<string>)
    requires Parse(lines).Ok?
    ensures Flatten(Parse(lines).value) == Tokens(Directives(lines))
  {
    GroupFlatten(Directives(lines));
  }

  /** In a file without `=` lines, neighbouring batches have different modes. */
  lemma {:induction false} ParseAlternates(lines: seq<string>)
    requires forall i :: 0 <= i < |lines| ==> !(Classify(lines[i]).Entry? && Classify(lines[i]).directive.mode == Reset)
    requires Parse(lines).Ok?
    ensures Alternating(Parse(lines).value)
  {
    var ks := Kinds(lines);
    forall i | 0 <= i < |ks| ensures !(ks[i].Entry? && ks[i].directive.mode == Reset) {
      assert ks[i] == Classify(lines[i]);
    }
    NoResetEntries(ks);
    GroupAlternates(Entries(ks));
  }

  lemma {:induction false} NoResetEntries(ks: seq<LineKind>)
    requires forall i :: 0 <= i < |ks| ==> !(ks[i].Entry? && ks[i].directive.mode == Reset)
    ensures NoReset(Entries(ks))
    decreases |ks|
  {
    if ks != [] {
      NoResetEntries(ks[..|ks| - 1]);
    }
  }

  // ---------------------------------------------------------------------------
  // Skipped lines and examples

  /** The directives of two runs of classified lines one after the other. */
  lemma {:induction false} EntriesAppend(p: seq<LineKind>, q: seq<LineKind>)
    ensures Entries(p + q) == Entries(p) + Entries(q)
    decreases |q|
  {
    if q == [] {
      assert p + q == p;
    } else {
      var q' := q[..|q| - 1];
      assert (p + q)[..|p + q| - 1] == p + q';
      EntriesAppend(p, q');
      calc {
        Entries(p + q);
        Entries(p + q') + EntryOf(q[|q| - 1]);
        (Entries(p) + Entries(q')) + EntryOf(q[|q| - 1]);
        { AppendAssoc(Entries(p), Entries(q'), EntryOf(q[|q| - 1])); }
        Entries(p) + (Entries(q') + EntryOf(q[|q| - 1]));
      }
    }
  }

  /** `n` is the first malformed position when every line before it is well formed and it is malformed or the end. */
  lemma {:induction false} FirstMalformedIs(ks: seq<LineKind>, n: nat)
    requires n <= |ks| && (forall j :: 0 <= j < n ==> !ks[j].Malformed?) && (n < |ks| ==> ks[n].Malformed?)
    ensures FirstMalformed(ks) == n
  {
  }

  /** The element at `j` of `p` with `x` inserted after it, in terms of `p + q`. */
  lemma {:induction false} InsertAt<T>(p: seq<T>, x: T, q: seq<T>, j: nat)
    requires j < |p| + 1 + |q|
    ensures (p + [x] + q)[j] == if j < |p| then (p + q)[j] else if j == |p| then x else (p + q)[j - 1]
  {
  }

  /** A skipped line between two runs of classified lines adds no directive. */
  lemma {:induction false} SkipKindEntries(p: seq<LineKind>, q: seq<LineKind>)
    ensures Entries(p + [Skip] + q) == Entries(p + q)
  {
    SnocParts(p, Skip);
    calc {
      Entries(p + [Skip] + q);
      { EntriesAppend(p + [Skip], q); }
      Entries(p + [Skip]) + Entries(q);
      Entries(p) + Entries(q);
      { EntriesAppend(p, q); }
      Entries(p + q);
    }
  }

  /** A skipped line between two runs of classified lines shifts a later first malformed position by one. */
  lemma {:induction false} SkipKindFirstMalformed(p: seq<LineKind>, q: seq<LineKind>)
    ensures var n := FirstMalformed(p + q);
      FirstMalformed(p + [Skip] + q) == if n < |p| then n else n + 1
  {
    var n := FirstMalformed(p + q);
    var n' := if n < |p| then n else n + 1;
    forall j | 0 <= j < n' ensures !(p + [Skip] + q)[j].Malformed? {
      InsertAt(p, Skip, q, j);
    }
    if n' < |p| + 1 + |q| {
      InsertAt(p, Skip, q, n');
    }
    FirstMalformedIs(p + [Skip] + q, n');
  }

  /** Classifying two runs of lines one after the other. */
  lemma {:induction false} KindsAppend(a: seq<string>, b: seq<string>)
    ensures Kinds(a + b) == Kinds(a) + Kinds(b)
  {
    var ks, ka, kb := Kinds(a + b), Kinds(a), Kinds(b);
    forall i | 0 <= i < |ks| ensures ks[i] == (ka + kb)[i] {
      if i < |a| {
        assert (a + b)[i] == a[i];
      } else {
        assert (a + b)[i] == b[i - |a|];
      }
    }
  }

  /**
   * A blank or comment line changes nothing but the numbering: inserting one
   * after the first `|a|` lines of a file leaves its batches as they were,
   * and an error on a later line is reported one line further down.
   */
  lemma {:induction false} SkippedLineTransparent(a: seq<string>, x: string, b: seq<string>)
    requires Classify(x) == Skip
    ensures Parse(a + [x] + b).Ok? <==> Parse(a + b).Ok?
    ensures Parse(a + b).Ok? ==> Parse(a + [x] + b) == Parse(a + b)
    ensures Parse(a + b).Err? ==>
      Parse(a + [x] + b).error == if Parse(a + b).error <= |a| then Parse(a + b).error else Parse(a + b).error + 1
  {
    KindsAppend(a + [x], b);
    KindsAppend(a, [x]);
    KindsAppend(a, b);
    assert Kinds([x]) == [Skip];
    SkipKindEntries(Kinds(a), Kinds(b));
    SkipKindFirstMalformed(Kinds(a), Kinds(b));
  }

  /** A file of blank and comment lines only has no batches. */
  lemma {:induction false} ParseSkipsOnly(lines: seq<string>)
    requires forall i :: 0 <= i < |lines| ==> Classify(lines[i]) == Skip
    ensures Parse(lines) == Ok([])
  {
    var ks := Kinds(lines);
    FirstMalformedIs(ks, |ks|);
    NoEntries(ks);
  }

  lemma {:induction false} NoEntries(ks: seq<LineKind>)
    requires forall i :: 0 <= i < |ks| ==> ks[i] == Skip
    ensures Entries(ks) == []
    decreases |ks|
  {
    if ks != [] {
      NoEntries(ks[..|ks| - 1]);
    }
  }

  /** A mode character followed by a whitespace-free token is that directive. */
  lemma {:induction false} ClassifyDirective(c: char, m: Mode, t: string)
    requires ModeOf(c) == Some(m) && t != [] && NoSpace(t)
    ensures Classify([c] + t) == Entry(Directive(m, t))
  {
    var s := [c] + t;
    DirectiveLineStripped(c, m, t);
    DirectiveLineToken(c, t);
    MatchDirectiveOf(s, m, t);
    ClassifyOf(s, Directive(m, t));
  }

  lemma {:induction false} DirectiveLineStripped(c: char, m: Mode, t: string)
    requires ModeOf(c) == Some(m) && t != [] && NoSpace(t)
    ensures var s := [c] + t; Strip(s) == s && s[0] == c && c != '#'
  {
    var s := [c] + t;
    assert c == '+' || c == '-' || c == '=';
    assert s[0] == c && s[|s| - 1] == t[|t| - 1];
    StripUnchanged(s);
  }

  lemma {:induction false} DirectiveLineToken(c: char, t: string)
    requires NoSpace(t)
    ensures ([c] + t)[1..] == t && MatchToken(t) == Some(t)
  {
    assert "" + t + "" == t;
    MatchTokenComplete("", t, "");
  }

  /** A stripped line that is no comment and matches a directive with a package where one is needed is that directive. */
  lemma {:induction false} ClassifyOf(line: string, d: Directive)
    requires Strip(line) == line && line != [] && line[0] != '#'
    requires MatchDirective(line) == Some(d) && (d.mode == Reset || d.pkg != [])
    ensures Classify(line) == Entry(d)
  {
  }

  /** A line made of a mode character and what the token pattern matches after it. */
  lemma {:induction false} MatchDirectiveOf(line: string, m: Mode, t: string)
    requires line != [] && ModeOf(line[0]) == Some(m) && MatchToken(line[1..]) == Some(t)
    ensures MatchDirective(line) == Some(Directive(m, t))
  {
  }

  /** A mode character alone is a directive without a package. */
  lemma {:induction false} ClassifyBare(c: char, m: Mode)
    requires ModeOf(c) == Some(m)
    ensures Classify([c]) == if m == Reset then Entry(Directive(Reset, "")) else Malformed
  {
    assert !IsSpace(c) by { assert c == '+' || c == '-' || c == '='; }
    StripUnchanged([c]);
    assert [c][1..] == "";
    assert MatchToken("") == Some("");
  }

  /** A line that starts with no mode character is malformed. */
  lemma {:induction false} MalformedUnknownMode()
    ensures IsMalformed("*x")
  {
    StripUnchanged("*x");
  }

  /** A second token on a line makes it malformed. */
  lemma {:induction false} MalformedTwoTokens()
    ensures IsMalformed("+a b")
  {
    var s := "+a b";
    StripUnchanged(s);
    var r := s[1..];
    assert r == "a b" && r[1..] == " b" && r[1..][1..] == "b";
    assert TokenLength(r) == 1;
    assert LeadingSpaces(r[1..]) == 1;
  }

  /** `+` or `-` without a package is malformed. */
  lemma {:induction false} MalformedMissingPackage()
    ensures IsMalformed("+") && IsMalformed("-")
  {
    ClassifyBare('+', Install);
    ClassifyBare('-', Remove);
    assert "+" == ['+'] && "-" == ['-'];
  }

  /**
   * An `=` line between two `+` lines ends the first batch: the second `+`
   * starts a new batch of the same mode instead of joining the first
   * (`+a`, `+b`, `=`, `+c` gives `(+, [a, b])` then `(+, [c])`).
   */
  lemma {:induction false} ParseResetExample(a: string, b: string, c: string)
    requires a != [] && NoSpace(a) && b != [] && NoSpace(b) && c != [] && NoSpace(c)
    ensures Parse(["+" + a, "+" + b, "=", "+" + c]) == Ok([Batch(Install, [a, b]), Batch(Install, [c])])
  {
    var lines := ["+" + a, "+" + b, "=", "+" + c];
    var d1, d2, d3, d4 := Directive(Install, a), Directive(Install, b), Directive(Reset, ""), Directive(Install, c);
    ClassifyPlus(a);
    ClassifyPlus(b);
    ClassifyPlus(c);
    ClassifyBare('=', Reset);
    assert "=" == ['='];
    var ks := Kinds(lines);
    assert ks[0] == Entry(d1) && ks[1] == Entry(d2) && ks[2] == Entry(d3) && ks[3] == Entry(d4);
    SeqOfFour(ks, Entry(d1), Entry(d2), Entry(d3), Entry(d4));
    ResetExampleParseKinds(d1, d2, d3, d4);
  }

  lemma {:induction false} SeqOfFour<T>(s: seq<T>, x0: T, x1: T, x2: T, x3: T)
    requires |s| == 4 && s[0] == x0 && s[1] == x1 && s[2] == x2 && s[3] == x3
    ensures s == [x0, x1, x2, x3]
  {
  }

  lemma {:induction false} ResetExampleParseKinds(d1: Directive, d2: Directive, d3: Directive, d4: Directive)
    requires d1.mode == Install && d2.mode == Install && d3 == Directive(Reset, "") && d4.mode == Install
    ensures ParseKinds([Entry(d1), Entry(d2), Entry(d3), Entry(d4)]) == Ok([Batch(Install, [d1.pkg, d2.pkg]), Batch(Install, [d4.pkg])])
  {
    var ks := [Entry(d1), Entry(d2), Entry(d3), Entry(d4)];
    FirstMalformedIs(ks, 4);
    ResetExampleEntries(d1, d2, d3, d4);
    ResetExampleGroup(d1, d2, d3, d4);
  }

  /** A `+` followed directly by a whitespace-free token installs that token. */
  lemma {:induction false} ClassifyPlus(t: string)
    requires t != [] && NoSpace(t)
    ensures Classify("+" + t) == Entry(Directive(Install, t))
  {
    ClassifyDirective('+', Install, t);
    assert "+" + t == ['+'] + t;
  }

  lemma {:induction false} ResetExampleEntries(d1: Directive, d2: Directive, d3: Directive, d4: Directive)
    ensures Entries([Entry(d1), Entry(d2), Entry(d3), Entry(d4)]) == [d1, d2, d3, d4]
  {
    var k1 := [Entry(d1)];
    assert k1 == [] + [Entry(d1)];
    EntriesSnoc([], d1);
    var k2 := k1 + [Entry(d2)];
    EntriesSnoc(k1, d2);
    var k3 := k2 + [Entry(d3)];
    EntriesSnoc(k2, d3);
    EntriesSnoc(k3, d4);
    assert k3 + [Entry(d4)] == [Entry(d1), Entry(d2), Entry(d3), Entry(d4)];
  }

  lemma {:induction false} EntriesSnoc(ks: seq<LineKind>, d: Directive)
    ensures Entries(ks + [Entry(d)]) == Entries(ks) + [d]
  {
    SnocParts(ks, Entry(d));
  }

  lemma {:induction false} ResetExampleGroup(d1: Directive, d2: Directive, d3: Directive, d4: Directive)
    requires d1.mode == Install && d2.mode == Install && d3.mode == Reset && d4.mode == Install
    ensures Group([d1, d2, d3, d4]) == [Batch(Install, [d1.pkg, d2.pkg]), Batch(Install, [d4.pkg])]
  {
    var s2 := [d1] + [d2];
    ResetExampleFirstRun(d1, d2);
    ResetExampleLastRun(s2, d3, d4);
    FourParts(d1, d2, d3, d4);
  }

  lemma {:induction false} FourParts<T>(a: T, b: T, c: T, d: T)
    ensures [a] + [b] + [c] + [d] == [a, b, c, d]
  {
  }

  /** Two `+` lines make one batch of both packages. */
  lemma {:induction false} ResetExampleFirstRun(d1: Directive, d2: Directive)
    requires d1.mode == Install && d2.mode == Install
    ensures Group([d1] + [d2]) == [Batch(Install, [d1.pkg, d2.pkg])]
  {
    GroupSingle(d1);
    GroupSnocExtend([d1], d2);
    ExtendsLastSingle(Batch(Install, [d1.pkg]), Group([d1] + [d2]), Install, d2.pkg);
    assert [d1.pkg] + [d2.pkg] == [d1.pkg, d2.pkg];
  }

  lemma {:induction false} GroupSingle(d: Directive)
    ensures Group([d]) == RunBatch(d.mode, [d.pkg])
  {
    GroupSnocNewMode([], d);
    assert [] + [d] == [d];
  }

  lemma {:induction false} ExtendsLastSingle(b: Batch, h: seq<Batch>, m: Mode, p: string)
    requires ExtendsLast([b], h, m, p)
    ensures h == [Batch(m, b.pkgs + [p])]
  {
    assert [b][..0] == [];
  }

  /** An `=` after a `+` run closes it, and the next `+` starts a batch of its own. */
  lemma {:induction false} ResetExampleLastRun(s: seq<Directive>, d3: Directive, d4: Directive)
    requires s != [] && s[|s| - 1].mode == Install && d3.mode == Reset && d4.mode == Install
    ensures Group(s + [d3] + [d4]) == Group(s) + [Batch(Install, [d4.pkg])]
  {
    GroupSnocNewMode(s, d3);
    var s3 := s + [d3];
    assert s3[|s3| - 1] == d3;
    GroupSnocNewMode(s3, d4);
  }
}

/**
 * Choosing the user-mode emulator that lets the host run the target's
 * binaries, and where its copy lands inside the target (`_copy_qemu`).
 *
 * The table is searched in its declared order and the first prefix that the
 * target architecture starts with wins, so `powerpc64le` finds its own entry
 * before the shorter `powerpc`.
 */
module Qemu {
  import opened Errors
  import opened Text
  import opened Paths

  /** The architecture prefixes and their static emulators, in search order. */
  const PrefixMap: seq<(string, string)> := [
    ("aarch64", "qemu-aarch64-static"),
    ("arm", "qemu-arm-static"),
    ("mips64el", "qemu-mips64el-static"),
    ("mipsel", "qemu-mipsel-static"),
    ("powerpc64el", "qemu-ppc64le-static"),
    ("powerpc64le", "qemu-ppc64le-static"),
    ("ppc64le", "qemu-ppc64le-static"),
    ("powerpc", "qemu-ppc-static"),
    ("riscv64", "qemu-riscv64-static"),
    ("s390x", "qemu-s390x-static")
  ]

  /** The position of the first entry of `table` whose prefix `arch` starts with. */
  function FirstMatch(arch: string, table: seq<(string, string)>): (r: Option<nat>)
    ensures r.Some? ==>
      r.value < |table| && StartsWith(arch, table[r.value].0) &&
      forall j :: 0 <= j < r.value ==> !StartsWith(arch, table[j].0)
    ensures r.None? ==> forall j :: 0 <= j < |table| ==> !StartsWith(arch, table[j].0)
    decreases |table|
  {
    if table == [] then None
    else if StartsWith(arch, table[0].0) then Some(0)
    else
      match FirstMatch(arch, table[1..])
      case None => None
      case Some(i) => Some(i + 1)
  }

  /** The emulator for `arch`, if the table has one. */
  function QemuBinary(arch: string): Option<string> {
    match FirstMatch(arch, PrefixMap)
    case None => None
    case Some(i) => Some(PrefixMap[i].1)
  }

  /**
   * The scan of `_copy_qemu` over the table, stopping at the first match; the
   * empty string stands for "no emulator", as in the source.
   */
  method SelectQemuBinary(arch: string) returns (qemuUserStatic: string)
    ensures qemuUserStatic == QemuBinary(arch).GetOr("")
  {
    qemuUserStatic := "";
    var i := 0;
    while i < |PrefixMap|
      invariant i <= |PrefixMap|
      invariant forall j :: 0 <= j < i ==> !StartsWith(arch, PrefixMap[j].0)
      invariant qemuUserStatic == ""
    {
      var (prefix, qemuBinary) := PrefixMap[i];
      if StartsWith(arch, prefix) {
        qemuUserStatic := qemuBinary;
        assert FirstMatch(arch, PrefixMap) == Some(i);
        return;
      }
      i := i + 1;
    }
  }

  /** Every emulator name in the table starts with `qemu-`, so none is empty. */
  lemma {:induction false} QemuBinaryNonEmpty(arch: string)
    ensures QemuBinary(arch).Some? ==> StartsWith(QemuBinary(arch).value, "qemu-")
  {
    match FirstMatch(arch, PrefixMap)
    case None =>
    case Some(i) =>
      var b := PrefixMap[i].1;
      assert b[..5] == "qemu-" by {
        if i == 0 { assert b == "qemu-aarch64-static"; }
        else if i == 1 { assert b == "qemu-arm-static"; }
        else if i == 2 { assert b == "qemu-mips64el-static"; }
        else if i == 3 { assert b == "qemu-mipsel-static"; }
        else if i == 4 || i == 5 || i == 6 { assert b == "qemu-ppc64le-static"; }
        else if i == 7 { assert b == "qemu-ppc-static"; }
        else if i == 8 { assert b == "qemu-riscv64-static"; }
        else { assert b == "qemu-s390x-static"; }
      }
  }

  /** The longer `powerpc64le` entry is found, although `powerpc` also matches further down. */
  lemma {:induction false} QemuPowerpc64leExample()
    ensures QemuBinary("powerpc64le") == Some("qemu-ppc64le-static")
  {
    var x := "powerpc64le";
    forall j | 0 <= j < 5 ensures !StartsWith(x, PrefixMap[j].0) {
      CharDiffers(x, PrefixMap[j].0, if j < 4 then 0 else 9);
    }
    assert x[..11] == PrefixMap[5].0;
  }

  /** Plain `powerpc` passes over the three 64-bit entries and takes its own. */
  lemma {:induction false} QemuPowerpcExample()
    ensures QemuBinary("powerpc") == Some("qemu-ppc-static")
  {
    var x := "powerpc";
    forall j | 0 <= j < 7 ensures !StartsWith(x, PrefixMap[j].0) {
      if j < 4 || j == 6 {
        CharDiffers(x, PrefixMap[j].0, if j < 4 then 0 else 1);
      }
    }
    assert x[..7] == PrefixMap[7].0;
  }

  /** `armv7l` takes the `arm` emulator. */
  lemma {:induction false} QemuArmExample()
    ensures QemuBinary("armv7l") == Some("qemu-arm-static")
  {
    CharDiffers("armv7l", PrefixMap[0].0, 1);
    assert "armv7l"[..3] == PrefixMap[1].0;
  }

  /** `x86_64` has no emulator, so nothing is copied. */
  lemma {:induction false} QemuNativeExample()
    ensures QemuBinary("x86_64") == None
  {
    NoEmulatorFor("x86_64");
  }

  /** A machine name whose initial starts no prefix of the table has no emulator. */
  lemma {:induction false} NoEmulatorFor(arch: string)
    requires arch != [] && arch[0] !in "amprs"
    ensures QemuBinary(arch) == None
  {
    PrefixInitials();
    forall j | 0 <= j < |PrefixMap| ensures !StartsWith(arch, PrefixMap[j].0) {
      CharDiffers(arch, PrefixMap[j].0, 0);
    }
  }

  /** Every prefix in the table starts with one of `a`, `m`, `p`, `r` or `s`. */
  lemma {:induction false} PrefixInitials()
    ensures forall j :: 0 <= j < |PrefixMap| ==>
      PrefixMap[j].0 != [] && PrefixMap[j].0[0] in "amprs"
  {
  }

  /** The directory the emulator is copied into: its host directory, re-rooted under the target. */
  function QemuDestDir(targetDir: string, sourcePath: string): string {
    Dirname(Join(targetDir, LStripSlashes(sourcePath)))
  }

  /**
   * For a clean absolute host path, the copy made into `QemuDestDir` sits at
   * the same path inside the target: `/usr/bin/qemu-arm-static` becomes
   * `<target>/usr/bin/qemu-arm-static`.
   */
  lemma {:induction false} QemuCopyPath(targetDir: string, sourcePath: string)
    requires targetDir != [] && targetDir[|targetDir| - 1] != '/' && CleanAbsolute(sourcePath)
    ensures Join(QemuDestDir(targetDir, sourcePath), Basename(sourcePath)) == targetDir + sourcePath
  {
    RerootedPath(targetDir, sourcePath);
  }
}

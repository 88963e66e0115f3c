/**
 When each stage of 'all' has nothing to do, by the names of its files, and what is there when none has; and
 which files a Yocto image counts as built from.
 */
module StageNames {
  import opened FileSystem
  import opened Stages
  import opened InputWalk
  import opened KeepBootNames

  /** `p` is a file no older than `q`. */
  predicate NotOlder(fs: Fs, p: Path, q: Path) {
    IsFile(fs, p) && Mtime(fs, p) >= Mtime(fs, q)
  }

  /** The boot file and the flash image beside it. */
  function BootNamed(t: Target, suffix: string): Path {
    ["Vitis", "boot", t.name,
     if t.family != Microblaze then "BOOT.BIN" else if t.combineBitElf then t.bd + "_boot" + suffix else t.bd + suffix]
  }

  /** The standalone stage of a target that has it: with the workspace cleaned, the boot file must be as new as the
      XSA; with a workspace, that must be complete and as new as the XSA, and the boot file as new as its program. */
  lemma StandaloneByName(fs: Fs, t: Target, tools: bool)
    requires XsaIsThere(fs, t) && t.baremetal && IsDir(fs, ["Vitis", "py"])
    ensures var xsa, boot := ["Vivado", t.name, t.bd + "_wrapper.xsa"], BootNamed(t, ".bit");
            var ws, platform := ["Vitis", t.name + "_workspace"], t.name + "_platform";
            var elf := ws + [t.app, "build", t.app + ".elf"];
            SkipsStandalone(fs, t, tools) <==>
            if !Exists(fs, ws) then NotOlder(fs, boot, xsa)
            else && tools && IsDir(fs, ws) && Mtime(fs, ws) >= Mtime(fs, xsa) && NotOlder(fs, boot, elf) && IsFile(fs, elf)
                 && IsFile(fs, ws + [platform, "export", platform, platform + ".xpfm"])
  {
    var ws, platform := ["Vitis", t.name + "_workspace"], t.name + "_platform";
    assert ws + [t.app, "build", t.app + ".elf"] == AppElf(t);
    assert platform + ".xpfm" == t.name + "_platform.xpfm";
    assert ws + [platform, "export", platform, platform + ".xpfm"] == Xpfm(t);
    BootIsNamed(t);
  }

  lemma BootIsNamed(t: Target)
    ensures BootNamed(t, ".bit") == BootFile(t)
    ensures t.family == Microblaze && t.baremetal ==> BootNamed(t, ".mcs") == Mcs(t)
  {
  }

  lemma FlashIsNamed(t: Target)
    requires !(t.family == Microblaze && t.baremetal)
    ensures Mcs(t) == ["Vivado", t.name, t.bd + "_wrapper.mcs"]
  {
    assert t.bd + "_wrapper" + ".mcs" == t.bd + "_wrapper.mcs";
  }

  /** The flash image of a target without a MicroBlaze application: as new as the device image. */
  lemma CfgmemByName(fs: Fs, t: Target, tools: bool)
    requires XsaIsThere(fs, t) && t.cfgmem && IsFile(fs, ["Vivado", "scripts", "cfgmem.tcl"])
    requires !(t.family == Microblaze && t.baremetal)
    ensures var image := if t.family == Versal then "_wrapper.pdi" else "_wrapper.bit";
            var bits := ["Vivado", t.name, t.name + ".runs", "impl_1", t.bd + image];
            SkipsCfgmem(fs, t, tools) <==>
            IsFile(fs, bits) && NotOlder(fs, ["Vivado", t.name, t.bd + "_wrapper.mcs"], bits)
  {
    FlashIsNamed(t);
  }

  /** And with one: as new as the boot file, which is itself up to date. */
  lemma CfgmemOfBootFile(fs: Fs, t: Target, tools: bool)
    requires XsaIsThere(fs, t) && t.cfgmem && IsFile(fs, ["Vivado", "scripts", "cfgmem.tcl"])
    requires t.family == Microblaze && t.baremetal
    ensures SkipsCfgmem(fs, t, tools) <==>
            && SkipsStandalone(fs, t, tools) && IsFile(fs, BootNamed(t, ".bit"))
            && NotOlder(fs, BootNamed(t, ".mcs"), BootNamed(t, ".bit"))
  {
    BootIsNamed(t);
  }

  /** The Yocto stage: the images are there, and no stamp beside them or one that tells the inputs as they are. */
  lemma YoctoByName(fs: Fs, t: Target, rd: Reader)
    requires t.yocto && IsFile(fs, ["Yocto", "scripts", "build-image.sh"])
    ensures var stamp, xsa := ["Yocto", t.name, "images", "linux", ".inputs-sha256"], ["Vivado", t.name, t.bd + "_wrapper.xsa"];
            SkipsYocto(fs, t, rd) <==>
            && YoctoImagesAreThere(fs, t)
            && (IsFile(fs, stamp) ==> Yocto.Same(rd.stamp(HashAt(fs, stamp)), Inputs(fs, t, rd), xsa))
  {
    YoctoBuiltByName(fs, t);
    var stamp := ReadStamp(fs, t, rd);
    if stamp.Some? { Yocto.UpToDateIsSame(stamp.value, Inputs(fs, t, rd), Xsa(t)); }
  }

  // ---------------------------------------------------------------- packaging

  function PetalinuxNames(t: Target): seq<string> {
    if t.family == Microblaze then ["boot.mcs", "boot.prm", "image.elf", "system.bit"]
    else ["BOOT.BIN", "image.ub", "boot.scr", "rootfs.tar.gz"]
  }

  /** The zip is there and, if all that goes into it is, as new as each of them. */
  predicate ZipIsCurrent(fs: Fs, zip: string, dir: Path, names: seq<string>) {
    && IsFile(fs, ["bootimages", zip])
    && ((forall n <- names :: IsFile(fs, dir + [n])) ==> forall n <- names :: NotOlder(fs, ["bootimages", zip], dir + [n]))
  }

  lemma ZipCurrentIs(fs: Fs, zip: string, dir: Path, names: seq<string>)
    ensures ZipCurrent(fs, ["bootimages", zip], set n | n in names :: dir + [n]) <==> ZipIsCurrent(fs, zip, dir, names)
  {
    var sources := set n | n in names :: dir + [n];
    assert forall n <- names :: dir + [n] in sources;
    if ZipIsCurrent(fs, zip, dir, names) && forall n <- names :: IsFile(fs, dir + [n]) {
      forall s <- sources ensures Mtime(fs, ["bootimages", zip]) >= Mtime(fs, s) {
        var n :| n in names && s == dir + [n];
        assert NotOlder(fs, ["bootimages", zip], dir + [n]);
      }
    }
  }

  lemma ZippedIs(dir: Path, names: seq<string>)
    requires |names| == 3 || |names| == 4
    ensures (set n | n in names :: dir + [n])
         == {dir + [names[0]], dir + [names[1]], dir + [names[2]], dir + [names[|names| - 1]]}
  {
    assert forall n <- names :: n == names[0] || n == names[1] || n == names[2] || n == names[|names| - 1];
  }

  lemma PetlSourcesAre(t: Target)
    ensures PetlSources(t) == set n | n in PetalinuxNames(t) :: ["PetaLinux", t.name, "images", "linux"] + [n]
  {
    var dir, names := ["PetaLinux", t.name, "images", "linux"], PetalinuxNames(t);
    ZippedIs(dir, names);
    assert dir + [names[0]] == PetlImg(t, names[0]) && dir + [names[1]] == PetlImg(t, names[1]);
    assert dir + [names[2]] == PetlImg(t, names[2]) && dir + [names[3]] == PetlImg(t, names[3]);
  }

  lemma YoctoSourcesAre(t: Target)
    ensures YoctoSources(t)
         == set n | n in ["rootfs.wic.xz", "rootfs.wic.bmap", "BOOT.BIN"] :: ["Yocto", t.name, "images", "linux"] + [n]
  {
    var dir, names := ["Yocto", t.name, "images", "linux"], ["rootfs.wic.xz", "rootfs.wic.bmap", "BOOT.BIN"];
    ZippedIs(dir, names);
    assert dir + [names[0]] == YoctoImg(t, names[0]) && dir + [names[1]] == YoctoImg(t, names[1]);
    assert dir + [names[2]] == YoctoImg(t, names[2]);
  }

  /** What the zips must hold. */
  lemma ZipsByName(fs: Fs, t: Target)
    requires SkipsPackage(fs, t)
    ensures t.petalinux ==> ZipIsCurrent(fs, t.petlZip, ["PetaLinux", t.name, "images", "linux"], PetalinuxNames(t))
    ensures t.yocto ==> ZipIsCurrent(fs, t.yoctoZip, ["Yocto", t.name, "images", "linux"],
                                     ["rootfs.wic.xz", "rootfs.wic.bmap", "BOOT.BIN"])
  {
    PetlSourcesAre(t);
    YoctoSourcesAre(t);
    ZipCurrentIs(fs, t.petlZip, ["PetaLinux", t.name, "images", "linux"], PetalinuxNames(t));
    ZipCurrentIs(fs, t.yoctoZip, ["Yocto", t.name, "images", "linux"], ["rootfs.wic.xz", "rootfs.wic.bmap", "BOOT.BIN"]);
  }

  // ---------------------------------------------------------------- nothing to do

  /** When 'all' has nothing to do, what it is to build is there. */
  lemma DoneMeansBuilt(fs: Fs, t: Target, tools: bool, rd: Reader)
    requires NothingToDo(fs, t, tools, rd)
    ensures XsaIsThere(fs, t)
    ensures t.baremetal && IsDir(fs, ["Vitis", "py"]) ==> BootFileIsThere(fs, t) && IsFile(fs, ["bootimages", t.bareZip])
    ensures t.cfgmem && IsFile(fs, ["Vivado", "scripts", "cfgmem.tcl"]) && !(t.family == Microblaze && t.baremetal) ==>
              IsFile(fs, ["Vivado", t.name, t.bd + "_wrapper.mcs"])
    ensures t.cfgmem && IsFile(fs, ["Vivado", "scripts", "cfgmem.tcl"]) && t.family == Microblaze && t.baremetal ==>
              IsFile(fs, BootNamed(t, ".mcs"))
    ensures t.petalinux ==> PetalinuxImageIsThere(fs, t) && IsFile(fs, ["bootimages", t.petlZip])
    ensures t.yocto ==> IsFile(fs, ["bootimages", t.yoctoZip])
    ensures t.yocto && IsFile(fs, ["Yocto", "scripts", "build-image.sh"]) ==> YoctoImagesAreThere(fs, t)
  {
    NothingToDoIff(fs, t, tools, rd);
    BootIsNamed(t);
    BootFileByName(fs, t);
    YoctoBuiltByName(fs, t);
    if !(t.family == Microblaze && t.baremetal) { FlashIsNamed(t); }
  }

  // ---------------------------------------------------------------- the inputs

  /** The directories searched: the bsp of the target or else of its board, its port configuration if it has one,
      and the layers that the bsp's list names. */
  predicate IsInputDir(fs: Fs, t: Target, rd: Reader, d: Path) {
    var bsp := ["Yocto", "bsp", if IsDir(fs, ["Yocto", "bsp", t.name]) then t.name else t.board];
    || d == bsp
    || (t.portcfg.Some? && t.portcfg.value != "" && d == ["Yocto", "bsp", "port-configs", t.portcfg.value])
    || (IsFile(fs, bsp + ["bblayers-extra.txt"]) && d in rd.layers(HashAt(fs, bsp + ["bblayers-extra.txt"])))
  }

  /** A file below `d`, but for byte code, caches and version control. */
  ghost predicate CountsBelow(fs: Fs, d: Path, p: Path) {
    && d in fs && fs[d].Dir? && d < p && p in fs && fs[p].File?
    && p[|p| - 1] != ".git" && (forall stem: string :: p[|p| - 1] != stem + ".pyc")
    && forall i :: |d| <= i < |p| - 1 ==> p[i] != "__pycache__" && p[i] != ".git"
  }

  lemma CountsBelowIs(fs: Fs, d: Path, p: Path)
    ensures CountsBelow(fs, d, p) <==> d in fs && fs[d].Dir? && InputBelow(fs, d, p)
  {
    if p != [] { EndsWithStem(p[|p| - 1], ".pyc"); }
  }

  lemma InputDirsByName(fs: Fs, t: Target, rd: Reader, d: Path)
    ensures d in InputDirs(fs, t, rd) <==> IsInputDir(fs, t, rd, d)
  {
    assert BspDir(fs, t) == ["Yocto", "bsp", if IsDir(fs, ["Yocto", "bsp", t.name]) then t.name else t.board];
    assert d in PortCfg(t) <==> t.portcfg.Some? && t.portcfg.value != ""
                                && d == ["Yocto", "bsp", "port-configs", t.portcfg.value];
  }

  /** In a tree whose input directories hold no links, the inputs are just these files and the XSA, each with the
      hash of its content. */
  lemma InputsByName(fs: Fs, t: Target, rd: Reader, p: Path)
    requires Tree(fs) && AllPlain(fs, InputDirs(fs, t, rd)) && Faithful(rd.listing)
    ensures p in Inputs(fs, t, rd) <==>
            || (XsaIsThere(fs, t) && p == ["Vivado", t.name, t.bd + "_wrapper.xsa"])
            || exists d :: IsInputDir(fs, t, rd, d) && CountsBelow(fs, d, p)
    ensures p in Inputs(fs, t, rd) && p in fs && fs[p].File? && Plain(fs, p) ==> Inputs(fs, t, rd)[p] == fs[p].hash
  {
    var dirs := InputDirs(fs, t, rd);
    InputFilesAre(fs, dirs, rd.listing, p);
    forall d ensures d in dirs <==> IsInputDir(fs, t, rd, d) { InputDirsByName(fs, t, rd, d); }
    forall d ensures CountsBelow(fs, d, p) <==> d in fs && fs[d].Dir? && InputBelow(fs, d, p) { CountsBelowIs(fs, d, p); }
    if Plain(fs, p) { PlainResolve(fs, p); }
  }
}

/**
 The tests by which the stages of 'all' decide that there is nothing to do for a target. Hosts other than
 Windows.
 */
module Stages {
  import opened Ledger
  import opened FileSystem
  import opened Prune
  import Yocto

  datatype Family = Microblaze | Zynq | ZynqMp | Versal

  /** A design of data.json with the names the repository settings add to it. */
  datatype Target = Target(
    name: string, family: Family, board: string, bd: string, app: string,
    baremetal: bool, cfgmem: bool, petalinux: bool, yocto: bool,
    combineBitElf: bool, portcfg: Option<string>,
    bareZip: string, petlZip: string, yoctoZip: string, bitZip: string)

  /** What reading a file gives, as a function of its content: the stamp it records and the layers it
      names; and the order in which the file system lists a directory. */
  datatype Reader = Reader(
    stamp: nat -> map<Path, nat>, layers: nat -> seq<Path>, listing: set<string> -> seq<string>)

  /** The hash of the content a path leads to. */
  function HashAt(fs: Fs, p: Path): nat {
    var q := Resolve(fs, p);
    if q.Some? && q.value in fs && fs[q.value].File? then fs[q.value].hash else 0
  }

  // ---------------------------------------------------------------- paths

  function VivPrj(t: Target): Path { ["Vivado", t.name] }
  function Xsa(t: Target): Path { ["Vivado", t.name, t.bd + "_wrapper.xsa"] }
  function ImplDir(t: Target): Path { ["Vivado", t.name, t.name + ".runs", "impl_1"] }

  function DevImage(t: Target): Path {
    ["Vivado", t.name, t.name + ".runs", "impl_1", t.bd + (if t.family == Versal then "_wrapper.pdi" else "_wrapper.bit")]
  }

  function WsName(t: Target): string { t.name + "_workspace" }
  function VitWs(t: Target): Path { ["Vitis", WsName(t)] }
  function AppElf(t: Target): Path { ["Vitis", WsName(t), t.app, "build", t.app + ".elf"] }

  function Xpfm(t: Target): Path {
    ["Vitis", WsName(t), t.name + "_platform", "export", t.name + "_platform", t.name + "_platform.xpfm"]
  }

  function VitBoot(t: Target): Path { ["Vitis", "boot", t.name] }
  function BootStem(t: Target): string { if t.combineBitElf then t.bd + "_boot" else t.bd }

  function BootFile(t: Target): Path {
    ["Vitis", "boot", t.name, if t.family == Microblaze then BootStem(t) + ".bit" else "BOOT.BIN"]
  }

  predicate FlashesApp(t: Target) {
    t.family == Microblaze && t.baremetal
  }

  function CfgmemSrc(t: Target): Path {
    if FlashesApp(t) then BootFile(t) else DevImage(t)
  }

  function CfgmemOut(t: Target, suffix: string): Path {
    if FlashesApp(t) then ["Vitis", "boot", t.name, BootStem(t) + suffix]
    else ["Vivado", t.name, t.bd + "_wrapper" + suffix]
  }

  function Mcs(t: Target): Path { CfgmemOut(t, ".mcs") }
  function Prm(t: Target): Path { CfgmemOut(t, ".prm") }
  function PetlImg(t: Target, f: string): Path { ["PetaLinux", t.name, "images", "linux", f] }
  function YoctoWork(t: Target): Path { ["Yocto", t.name] }
  function YoctoImg(t: Target, f: string): Path { ["Yocto", t.name, "images", "linux", f] }
  function Zip(name: string): Path { ["bootimages", name] }

  // ---------------------------------------------------------------- when a stage has nothing to do

  predicate SkipsXsa(fs: Fs, t: Target) {
    IsFile(fs, Xsa(t))
  }

  predicate VitisFlow(fs: Fs) {
    IsDir(fs, ["Vitis", "py"])
  }

  /** stage_workspace neither builds nor fails; `tools` says whether Vitis was found. */
  predicate SkipsWorkspace(fs: Fs, t: Target, tools: bool) {
    && tools && IsDir(fs, VitWs(t)) && Exists(fs, Xsa(t)) && Mtime(fs, Xsa(t)) <= Mtime(fs, VitWs(t))
    && IsFile(fs, Xpfm(t)) && IsFile(fs, AppElf(t))
  }

  predicate SkipsStandalone(fs: Fs, t: Target, tools: bool) {
    || !t.baremetal || !VitisFlow(fs)
    || (IsFile(fs, BootFile(t)) && !Exists(fs, VitWs(t))
        && (!IsFile(fs, Xsa(t)) || Mtime(fs, BootFile(t)) >= Mtime(fs, Xsa(t))))
    || (SkipsWorkspace(fs, t, tools) && IsFile(fs, BootFile(t)) && IsFile(fs, AppElf(t))
        && Mtime(fs, BootFile(t)) >= Mtime(fs, AppElf(t)))
  }

  predicate SkipsCfgmem(fs: Fs, t: Target, tools: bool) {
    || !t.cfgmem || !IsFile(fs, ["Vivado", "scripts", "cfgmem.tcl"])
    || (SkipsXsa(fs, t) && (FlashesApp(t) ==> SkipsStandalone(fs, t, tools))
        && IsFile(fs, CfgmemSrc(t)) && IsFile(fs, Mcs(t)) && Mtime(fs, Mcs(t)) >= Mtime(fs, CfgmemSrc(t)))
  }

  predicate PetalinuxBuilt(fs: Fs, t: Target) {
    IsFile(fs, PetlImg(t, "BOOT.BIN")) || IsFile(fs, PetlImg(t, "boot.mcs"))
  }

  predicate SkipsPetalinux(fs: Fs, t: Target) {
    !t.petalinux || PetalinuxBuilt(fs, t)
  }

  function YoctoProducts(t: Target): set<string> {
    {"BOOT.BIN", if t.family == Zynq then "uImage" else "Image", "rootfs.tar.gz", "rootfs.wic.xz"}
  }

  predicate YoctoBuilt(fs: Fs, t: Target) {
    forall f <- YoctoProducts(t) :: IsFile(fs, YoctoImg(t, f))
  }

  function BspDir(fs: Fs, t: Target): Path {
    if IsDir(fs, ["Yocto", "bsp", t.name]) then ["Yocto", "bsp", t.name] else ["Yocto", "bsp", t.board]
  }

  function LayerList(fs: Fs, t: Target): Path { BspDir(fs, t) + ["bblayers-extra.txt"] }

  /** The layers that bblayers-extra.txt names. */
  function NamedLayers(fs: Fs, t: Target, rd: Reader): seq<Path> {
    if IsFile(fs, LayerList(fs, t)) then rd.layers(HashAt(fs, LayerList(fs, t))) else []
  }

  function PortCfg(t: Target): seq<Path> {
    if t.portcfg.Some? && t.portcfg.value != "" then [["Yocto", "bsp", "port-configs", t.portcfg.value]] else []
  }

  /** The directories that are walked, where they exist. */
  function InputDirs(fs: Fs, t: Target, rd: Reader): seq<Path> {
    [BspDir(fs, t)] + PortCfg(t) + NamedLayers(fs, t, rd)
  }

  predicate EndsWith(s: string, suffix: string) {
    |suffix| <= |s| && s[|s| - |suffix|..] == suffix
  }

  function Dirs(fs: Fs): set<Path> {
    set p | p in fs && fs[p].Dir?
  }

  /** The names of a directory that are directories to be walked; version control and caches are not. */
  function SubDirs(fs: Fs, d: Path, names: seq<string>): seq<Path> {
    if names == [] then []
    else (if IsDir(fs, d + [names[0]]) && names[0] !in {"__pycache__", ".git"} then [d + [names[0]]] else [])
         + SubDirs(fs, d, names[1..])
  }

  /** The names of a directory that are input files; byte code is not. */
  function FilesOf(fs: Fs, d: Path, names: seq<string>): set<Path> {
    set n | n in names && IsFile(fs, d + [n]) && !EndsWith(n, ".pyc") && n != ".git" :: d + [n]
  }

  /** os.walk with links followed: the files found from the directories `pending`, each real directory
      being entered once. */
  function WalkFiles(fs: Fs, listing: set<string> -> seq<string>, pending: seq<Path>, seen: set<Path>): set<Path>
    decreases Dirs(fs) - seen, |pending|
  {
    if pending == [] then {}
    else
      var d, rest := pending[0], pending[1..];
      var at := Resolve(fs, d);
      if at.None? || at.value !in fs || !fs[at.value].Dir? || at.value in seen then WalkFiles(fs, listing, rest, seen)
      else
        var names := listing(Names(fs, at.value));
        assert at.value in Dirs(fs) - seen && at.value !in Dirs(fs) - (seen + {at.value});
        FilesOf(fs, d, names) + WalkFiles(fs, listing, SubDirs(fs, d, names) + rest, seen + {at.value})
  }

  function InputFiles(fs: Fs, dirs: seq<Path>, listing: set<string> -> seq<string>): set<Path> {
    if dirs == [] then {}
    else WalkFiles(fs, listing, [dirs[0]], {}) + InputFiles(fs, dirs[1..], listing)
  }

  /** yocto_inputs. */
  function Inputs(fs: Fs, t: Target, rd: Reader): map<Path, nat> {
    var files := InputFiles(fs, InputDirs(fs, t, rd), rd.listing) + (if IsFile(fs, Xsa(t)) then {Xsa(t)} else {});
    map p | p in files :: HashAt(fs, p)
  }

  function ReadStamp(fs: Fs, t: Target, rd: Reader): Option<map<Path, nat>> {
    var f := YoctoImg(t, ".inputs-sha256");
    if IsFile(fs, f) then Some(rd.stamp(HashAt(fs, f))) else None
  }

  predicate SkipsYocto(fs: Fs, t: Target, rd: Reader) {
    || !t.yocto || !IsFile(fs, ["Yocto", "scripts", "build-image.sh"])
    || (YoctoBuilt(fs, t)
        && (ReadStamp(fs, t, rd).None?
            || Yocto.UpToDate(ReadStamp(fs, t, rd).value, Inputs(fs, t, rd), Xsa(t))))
  }

  /** _zip_current. */
  predicate ZipCurrent(fs: Fs, zip: Path, sources: set<Path>) {
    IsFile(fs, zip) && ((exists s <- sources :: !IsFile(fs, s)) || forall s <- sources :: Mtime(fs, zip) >= Mtime(fs, s))
  }

  /** The files below the boot directory; links in it are not entered. */
  function BareSources(fs: Fs, t: Target): set<Path> {
    var at := Resolve(fs, VitBoot(t));
    if !IsFile(fs, BootFile(t)) || at.None? then {}
    else set q | q in fs && at.value < q && IsFile(fs, VitBoot(t) + q[|at.value|..]) :: VitBoot(t) + q[|at.value|..]
  }

  function PetlSources(t: Target): set<Path> {
    if t.family == Microblaze
    then {PetlImg(t, "boot.mcs"), PetlImg(t, "boot.prm"), PetlImg(t, "image.elf"), PetlImg(t, "system.bit")}
    else {PetlImg(t, "BOOT.BIN"), PetlImg(t, "image.ub"), PetlImg(t, "boot.scr"), PetlImg(t, "rootfs.tar.gz")}
  }

  function YoctoSources(t: Target): set<Path> {
    {YoctoImg(t, "rootfs.wic.xz"), YoctoImg(t, "rootfs.wic.bmap"), YoctoImg(t, "BOOT.BIN")}
  }

  function BitSources(fs: Fs, t: Target): set<Path> {
    {DevImage(t)} + (set p | p in {Mcs(t), Prm(t)} && IsFile(fs, p))
  }

  predicate HasSoftware(t: Target) {
    t.baremetal || t.petalinux || t.yocto
  }

  /** stage_bootimage writes no zip and fails nowhere. */
  predicate SkipsPackage(fs: Fs, t: Target) {
    && (t.baremetal && VitisFlow(fs) ==> ZipCurrent(fs, Zip(t.bareZip), BareSources(fs, t)))
    && (t.petalinux ==> ZipCurrent(fs, Zip(t.petlZip), PetlSources(t)))
    && (t.yocto ==> ZipCurrent(fs, Zip(t.yoctoZip), YoctoSources(t)))
    && (!HasSoftware(t) ==> ZipCurrent(fs, Zip(t.bitZip), BitSources(fs, t)) || !IsFile(fs, DevImage(t)))
  }

  datatype Stage = XsaStage | Standalone | Cfgmem | Petalinux | YoctoStage | Package

  /** stages_for('all'). */
  function StagesForAll(t: Target): seq<Stage> {
    [XsaStage]
    + (if t.baremetal then [Standalone] else []) + (if t.cfgmem then [Cfgmem] else [])
    + (if t.petalinux then [Petalinux] else []) + (if t.yocto then [YoctoStage] else [])
    + [Package]
  }

  predicate Skips(fs: Fs, t: Target, tools: bool, rd: Reader, stage: Stage) {
    match stage
    case XsaStage => SkipsXsa(fs, t)
    case Standalone => SkipsStandalone(fs, t, tools)
    case Cfgmem => SkipsCfgmem(fs, t, tools)
    case Petalinux => SkipsPetalinux(fs, t)
    case YoctoStage => SkipsYocto(fs, t, rd)
    case Package => SkipsPackage(fs, t)
  }

  /** 'all' has nothing to do. */
  predicate NothingToDo(fs: Fs, t: Target, tools: bool, rd: Reader) {
    forall stage <- StagesForAll(t) :: Skips(fs, t, tools, rd, stage)
  }

  /** Stage by stage. */
  lemma NothingToDoIff(fs: Fs, t: Target, tools: bool, rd: Reader)
    ensures NothingToDo(fs, t, tools, rd) <==>
            && SkipsXsa(fs, t) && (t.baremetal ==> SkipsStandalone(fs, t, tools))
            && (t.cfgmem ==> SkipsCfgmem(fs, t, tools)) && (t.petalinux ==> SkipsPetalinux(fs, t))
            && (t.yocto ==> SkipsYocto(fs, t, rd)) && SkipsPackage(fs, t)
  {
    assert forall stage :: stage in StagesForAll(t) <==>
                           match stage
                           case XsaStage => true
                           case Standalone => t.baremetal
                           case Cfgmem => t.cfgmem
                           case Petalinux => t.petalinux
                           case YoctoStage => t.yocto
                           case Package => true;
    if NothingToDo(fs, t, tools, rd) {
      assert Skips(fs, t, tools, rd, XsaStage) && Skips(fs, t, tools, rd, Package);
      assert t.baremetal ==> Skips(fs, t, tools, rd, Standalone);
      assert t.cfgmem ==> Skips(fs, t, tools, rd, Cfgmem);
      assert t.petalinux ==> Skips(fs, t, tools, rd, Petalinux);
      assert t.yocto ==> Skips(fs, t, tools, rd, YoctoStage);
    }
  }
}

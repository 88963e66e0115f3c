/**
 What 'clean --keep-boot' promises, by the names of the files: which files are there afterwards, and which are
 not.
 */
module KeepBootNames {
  import opened FileSystem
  import opened Prune
  import opened Stages
  import opened KeepBoot
  import opened KeepBootPlain
  import opened KeepBootInputs

  /** In the Vivado project: the XSA, the device image with the debug-probe and memory-map files beside it, and,
      unless the flash image carries a MicroBlaze application, the flash image and its parameters. */
  ghost predicate KeptInVivado(t: Target, p: Path) {
    var prj, impl := ["Vivado", t.name], ["Vivado", t.name, t.name + ".runs", "impl_1"];
    || prj + [t.bd + "_wrapper.xsa"] <= p
    || impl + [t.bd + (if t.family == Versal then "_wrapper.pdi" else "_wrapper.bit")] <= p
    || (exists stem: string :: impl + [stem + ".ltx"] <= p)
    || (exists stem: string :: impl + [stem + ".mmi"] <= p)
    || (!(t.family == Microblaze && t.baremetal)
        && (prj + [t.bd + "_wrapper.mcs"] <= p || prj + [t.bd + "_wrapper.prm"] <= p))
  }

  predicate XsaIsThere(fs: Fs, t: Target) {
    IsFile(fs, ["Vivado", t.name, t.bd + "_wrapper.xsa"])
  }

  predicate BootFileIsThere(fs: Fs, t: Target) {
    IsFile(fs, ["Vitis", "boot", t.name,
                if t.family != Microblaze then "BOOT.BIN"
                else if t.combineBitElf then t.bd + "_boot.bit" else t.bd + ".bit"])
  }

  predicate PetalinuxImageIsThere(fs: Fs, t: Target) {
    || IsFile(fs, ["PetaLinux", t.name, "images", "linux", "BOOT.BIN"])
    || IsFile(fs, ["PetaLinux", t.name, "images", "linux", "boot.mcs"])
  }

  predicate YoctoImagesAreThere(fs: Fs, t: Target) {
    && IsFile(fs, ["Yocto", t.name, "images", "linux", "BOOT.BIN"])
    && IsFile(fs, ["Yocto", t.name, "images", "linux", if t.family == Zynq then "uImage" else "Image"])
    && IsFile(fs, ["Yocto", t.name, "images", "linux", "rootfs.tar.gz"])
    && IsFile(fs, ["Yocto", t.name, "images", "linux", "rootfs.wic.xz"])
  }

  /** Generated IP of the target: built for its board, or in a core of its own. */
  ghost predicate IsIpOutput(fs: Fs, t: Target, p: Path) {
    if IsFile(fs, ["Vivado", "ip", "get_part.tcl"]) then ["Vivado", "ip", "build", t.name] <= p
    else exists core: string :: IsFile(fs, ["HLS", core, core + ".tcl"]) && ["HLS", core, t.name] <= p
  }

  /** The file is to go: its area is done with, and it is not among what is kept of it. */
  ghost predicate Dispensable(fs: Fs, t: Target, p: Path) {
    || (XsaIsThere(fs, t) && ["Vivado", t.name] < p && !KeptInVivado(t, p))
    || (XsaIsThere(fs, t) && IsIpOutput(fs, t, p))
    || (BootFileIsThere(fs, t) && ["Vitis", t.name + "_workspace"] <= p)
    || (PetalinuxImageIsThere(fs, t)
        && (["PetaLinux", t.name, "build"] <= p || ["PetaLinux", t.name, "components"] <= p))
    || (YoctoImagesAreThere(fs, t) && ["Yocto", t.name] < p && !(["Yocto", t.name, "images"] <= p))
  }

  // ---------------------------------------------------------------- area by area

  /** What is above a file, or is the file, is there. */
  lemma PrefixExists(fs: Fs, k: Path, p: Path)
    requires Tree(fs) && p in fs && fs[p].File? && k <= p
    ensures Exists(fs, k) && (k < p ==> IsDir(fs, k))
  {
    if k < p {
      AboveAFile(fs, k, p);
    } else {
      assert k == p;
      forall q <- fs | q <= p ensures !fs[q].Link? { if q != p { AncestorsAreDirs(fs, q, p); } }
      PlainResolve(fs, p);
    }
  }

  lemma EndsWithStem(name: string, suffix: string)
    ensures EndsWith(name, suffix) <==> exists stem: string :: name == stem + suffix
  {
    if EndsWith(name, suffix) {
      var stem := name[..|name| - |suffix|];
      assert name == stem + suffix;
    }
    if stem: string :| name == stem + suffix { assert name[|name| - |suffix|..] == suffix; }
  }

  /** The companions of the image, by name. */
  lemma CompanionsByName(fs: Fs, t: Target, k: Path, p: Path)
    requires Tree(fs) && p in fs && fs[p].File? && k <= p
    ensures k in Companions(fs, t) <==>
            |k| == 5 && k[..4] == ["Vivado", t.name, t.name + ".runs", "impl_1"]
            && (EndsWith(k[4], ".ltx") || EndsWith(k[4], ".mmi"))
  {
    var impl := ["Vivado", t.name, t.name + ".runs", "impl_1"];
    if |k| == 5 && k[..4] == impl {
      assert k == impl + [k[4]] && impl < p;
      AboveAFile(fs, impl, p);
      PlainResolve(fs, impl);
      assert impl in fs by { AncestorsAreDirs(fs, impl, p); }
      NamesAreChildren(fs, impl, k[4]);
      assert k in fs by { if k != p { AncestorsAreDirs(fs, k, p); } }
    }
    if k in Companions(fs, t) {
      var n :| n in Names(fs, Resolve(fs, ImplDir(t)).value) && (EndsWith(n, ".ltx") || EndsWith(n, ".mmi"))
               && k == ImplDir(t) + [n];
      assert k[..4] == impl && k[4] == n;
    }
  }

  /** The five-name path of a companion lies on the way to `p`. */
  lemma CompanionOnTheWay(t: Target, p: Path, suffix: string)
    ensures (exists stem: string :: ["Vivado", t.name, t.name + ".runs", "impl_1"] + [stem + suffix] <= p)
            <==> |p| >= 5 && p[..4] == ["Vivado", t.name, t.name + ".runs", "impl_1"] && EndsWith(p[4], suffix)
  {
    var impl := ["Vivado", t.name, t.name + ".runs", "impl_1"];
    if stem: string :| impl + [stem + suffix] <= p {
      assert p[..5] == impl + [stem + suffix];
      assert p[..4] == impl && p[4] == stem + suffix;
      EndsWithStem(p[4], suffix);
    }
    if |p| >= 5 && p[..4] == impl && EndsWith(p[4], suffix) {
      EndsWithStem(p[4], suffix);
      var stem: string :| p[4] == stem + suffix;
      assert p[..5] == impl + [stem + suffix];
    }
  }

  lemma KeptIsCovered(fs: Fs, t: Target, p: Path, k: Path)
    requires Tree(fs) && p in fs && fs[p].File? && k in VivKeep(fs, t) && ["Vivado", t.name] < k <= p
    ensures Covered(Existing(fs, VivKeep(fs, t)), VivPrj(t), p)
  {
    PrefixExists(fs, k, p);
    assert k in Existing(fs, VivKeep(fs, t));
  }

  /** The names are those of the kept paths. */
  lemma NamesAreKept(t: Target)
    ensures ["Vivado", t.name] + [t.bd + "_wrapper.xsa"] == Xsa(t)
    ensures ["Vivado", t.name, t.name + ".runs", "impl_1"]
            + [t.bd + (if t.family == Versal then "_wrapper.pdi" else "_wrapper.bit")] == DevImage(t)
    ensures if t.family == Microblaze && t.baremetal then Mcs(t)[0] == "Vitis" && Prm(t)[0] == "Vitis"
            else ["Vivado", t.name] + [t.bd + "_wrapper.mcs"] == Mcs(t) && ["Vivado", t.name] + [t.bd + "_wrapper.prm"] == Prm(t)
  {
    assert t.bd + "_wrapper" + ".mcs" == t.bd + "_wrapper.mcs" && t.bd + "_wrapper" + ".prm" == t.bd + "_wrapper.prm";
  }

  predicate IsCompanionPath(t: Target, k: Path) {
    && |k| == 5 && k[..4] == ["Vivado", t.name, t.name + ".runs", "impl_1"]
    && (EndsWith(k[4], ".ltx") || EndsWith(k[4], ".mmi"))
  }

  /** Kept by name is: under one of the four files, or under a companion. */
  lemma KeptInVivadoIs(t: Target, p: Path)
    ensures KeptInVivado(t, p) <==>
            || Xsa(t) <= p || DevImage(t) <= p || (|p| >= 5 && IsCompanionPath(t, p[..5]))
            || (!(t.family == Microblaze && t.baremetal) && (Mcs(t) <= p || Prm(t) <= p))
  {
    NamesAreKept(t);
    CompanionOnTheWay(t, p, ".ltx");
    CompanionOnTheWay(t, p, ".mmi");
    if |p| >= 5 { assert p[..5][..4] == p[..4] && p[..5][4] == p[4]; }
  }

  lemma VivadoKeepsByName(fs: Fs, t: Target, p: Path)
    requires Tree(fs) && p in fs && fs[p].File? && KeptInVivado(t, p)
    ensures Covered(Existing(fs, VivKeep(fs, t)), VivPrj(t), p)
  {
    KeptInVivadoIs(t, p);
    NamesAreKept(t);
    if |p| >= 5 && IsCompanionPath(t, p[..5]) {
      CompanionsByName(fs, t, p[..5], p);
      assert p[..5][0] == p[..5][..4][0] && p[..5][1] == p[..5][..4][1];
      KeptIsCovered(fs, t, p, p[..5]);
    } else if Xsa(t) <= p {
      KeptIsCovered(fs, t, p, Xsa(t));
    } else if DevImage(t) <= p {
      KeptIsCovered(fs, t, p, DevImage(t));
    } else if Mcs(t) <= p {
      KeptIsCovered(fs, t, p, Mcs(t));
    } else {
      KeptIsCovered(fs, t, p, Prm(t));
    }
  }

  lemma VivadoCoversByName(fs: Fs, t: Target, p: Path)
    requires Tree(fs) && p in fs && fs[p].File? && Covered(Existing(fs, VivKeep(fs, t)), VivPrj(t), p)
    ensures KeptInVivado(t, p)
  {
    var k :| k in Existing(fs, VivKeep(fs, t)) && VivPrj(t) < k <= p;
    KeptInVivadoIs(t, p);
    NamesAreKept(t);
    assert k[0] == "Vivado" by { assert k[0] == VivPrj(t)[0]; }
    CoveredBy(fs, t, k, p);
  }

  lemma CoveredBy(fs: Fs, t: Target, k: Path, p: Path)
    requires Tree(fs) && p in fs && fs[p].File? && k in VivKeep(fs, t) && k <= p && k != [] && k[0] == "Vivado"
    ensures Xsa(t) <= p || DevImage(t) <= p || (|p| >= 5 && IsCompanionPath(t, p[..5]))
            || (!(t.family == Microblaze && t.baremetal) && (Mcs(t) <= p || Prm(t) <= p))
  {
    if k in Companions(fs, t) {
      CompanionsByName(fs, t, k, p);
      assert p[..5] == k;
    } else {
      NamesAreKept(t);
    }
  }

  lemma TakesVivadoByName(fs: Fs, t: Target, p: Path)
    requires Tree(fs) && p in fs && fs[p].File?
    ensures TakesVivado(fs, t, p) <==> XsaIsThere(fs, t) && ["Vivado", t.name] < p && !KeptInVivado(t, p)
  {
    if VivPrj(t) < p { AboveAFile(fs, VivPrj(t), p); }
    if KeptInVivado(t, p) { VivadoKeepsByName(fs, t, p); }
    if Covered(Existing(fs, VivKeep(fs, t)), VivPrj(t), p) { VivadoCoversByName(fs, t, p); }
  }

  lemma TakesIpByName(fs: Fs, t: Target, p: Path)
    requires Tree(fs) && p in fs && fs[p].File?
    ensures TakesIp(fs, t, p) <==> XsaIsThere(fs, t) && IsIpOutput(fs, t, p)
  {
    IpOutputGoes(fs, t, p);
    if IsIpOutput(fs, t, p) { IpOutputIsThere(fs, t, p); }
    if q :| q in IpOutputs(fs, t) && Exists(fs, q) && q <= p { IpOutputByName(fs, t, q, p); }
  }

  /** The Vivado area counts as done as soon as one of its paths is there with the XSA. */
  lemma IpOutputGoes(fs: Fs, t: Target, p: Path)
    ensures TakesIp(fs, t, p) <==> XsaIsThere(fs, t) && exists q <- IpOutputs(fs, t) :: Exists(fs, q) && q <= p
  {
  }

  lemma IpOutputIsThere(fs: Fs, t: Target, p: Path)
    requires Tree(fs) && p in fs && fs[p].File? && IsIpOutput(fs, t, p)
    ensures exists q <- IpOutputs(fs, t) :: Exists(fs, q) && q <= p
  {
    if IsFile(fs, ["Vivado", "ip", "get_part.tcl"]) {
      PrefixExists(fs, ["Vivado", "ip", "build", t.name], p);
    } else {
      var core: string :| IsFile(fs, ["HLS", core, core + ".tcl"]) && ["HLS", core, t.name] <= p;
      CoreIsListed(fs, t, core, p);
      PrefixExists(fs, ["HLS", core, t.name], p);
      assert ["HLS", core, t.name] in IpOutputs(fs, t);
    }
  }

  lemma IpOutputByName(fs: Fs, t: Target, q: Path, p: Path)
    requires q in IpOutputs(fs, t) && q <= p
    ensures IsIpOutput(fs, t, p)
  {
    if !IsFile(fs, ["Vivado", "ip", "get_part.tcl"]) {
      var core :| core in Cores(fs) && q == ["HLS", core, t.name];
      assert IsFile(fs, ["HLS", core, core + ".tcl"]) && ["HLS", core, t.name] <= p;
    }
  }

  lemma CoreIsListed(fs: Fs, t: Target, core: string, p: Path)
    requires Tree(fs) && p in fs && fs[p].File? && IsFile(fs, ["HLS", core, core + ".tcl"]) && ["HLS", core, t.name] <= p
    ensures IsDir(fs, ["HLS"]) && core in Cores(fs)
  {
    assert p[..2] == ["HLS", core] && p[..1] == ["HLS"];
    AboveAFile(fs, ["HLS"], p);
    AboveAFile(fs, ["HLS", core], p);
    PlainResolve(fs, ["HLS"]);
    AncestorsAreDirs(fs, ["HLS", core], p);
    AncestorsAreDirs(fs, ["HLS"], p);
    assert ["HLS"] + [core] == ["HLS", core];
    NamesAreChildren(fs, ["HLS"], core);
  }

  lemma BootFileByName(fs: Fs, t: Target)
    ensures IsFile(fs, BootFile(t)) <==> BootFileIsThere(fs, t)
  {
    assert t.bd + "_boot" + ".bit" == t.bd + "_boot.bit";
  }

  lemma TakesWorkspaceByName(fs: Fs, t: Target, p: Path)
    requires Tree(fs) && p in fs && fs[p].File?
    ensures TakesWorkspace(fs, t, p) <==> BootFileIsThere(fs, t) && ["Vitis", t.name + "_workspace"] <= p
  {
    BootFileByName(fs, t);
    if VitWs(t) <= p { PrefixExists(fs, VitWs(t), p); }
  }

  lemma TakesPetalinuxByName(fs: Fs, t: Target, p: Path)
    requires Tree(fs) && p in fs && fs[p].File?
    ensures TakesPetalinux(fs, t, p) <==>
            PetalinuxImageIsThere(fs, t) && (["PetaLinux", t.name, "build"] <= p || ["PetaLinux", t.name, "components"] <= p)
  {
    var build, components := ["PetaLinux", t.name, "build"], ["PetaLinux", t.name, "components"];
    assert build in PetlBig(t) && components in PetlBig(t);
    if build <= p { PrefixExists(fs, build, p); }
    if components <= p { PrefixExists(fs, components, p); }
  }

  lemma YoctoBuiltByName(fs: Fs, t: Target)
    ensures YoctoBuilt(fs, t) <==> YoctoImagesAreThere(fs, t)
  {
    var products := YoctoProducts(t);
    assert "BOOT.BIN" in products && (if t.family == Zynq then "uImage" else "Image") in products;
    assert "rootfs.tar.gz" in products && "rootfs.wic.xz" in products;
    assert forall f <- products :: f == "BOOT.BIN" || f == (if t.family == Zynq then "uImage" else "Image")
                                   || f == "rootfs.tar.gz" || f == "rootfs.wic.xz";
  }

  lemma TakesYoctoByName(fs: Fs, t: Target, p: Path)
    ensures TakesYocto(fs, t, p) <==>
            YoctoImagesAreThere(fs, t) && ["Yocto", t.name] < p && !(["Yocto", t.name, "images"] <= p)
  {
    YoctoBuiltByName(fs, t);
  }

  // ---------------------------------------------------------------- the promise

  /** Where no link lies on a path that matters, a file is gone after the clean exactly when it is dispensable. */
  lemma GoneIffDispensable(fs: Fs, t: Target, p: Path)
    requires Tree(fs) && PlainPaths(fs, t) && p in fs && fs[p].File?
    ensures p !in Cleaned(fs, t) <==> Dispensable(fs, t, p)
  {
    GoneIffTaken(fs, t, p);
    TakesVivadoByName(fs, t, p);
    TakesIpByName(fs, t, p);
    TakesWorkspaceByName(fs, t, p);
    TakesPetalinuxByName(fs, t, p);
    TakesYoctoByName(fs, t, p);
  }

  /** All that is there afterwards was there before, and is as it was. */
  lemma NothingIsChanged(fs: Fs, t: Target, p: Path)
    requires p in Cleaned(fs, t)
    ensures p in fs && Cleaned(fs, t)[p] == fs[p]
  {
  }

  /** Where dispensable files lie. */
  predicate InArea(t: Target, p: Path) {
    && |p| >= 2
    && match p[0]
       case "Vivado" => p[1] == t.name || p[1] == "ip"
       case "HLS" => true
       case "Vitis" => p[1] == t.name + "_workspace"
       case "PetaLinux" => p[1] == t.name && |p| >= 3 && (p[2] == "build" || p[2] == "components")
       case "Yocto" => p[1] == t.name && !(["Yocto", t.name, "images"] <= p)
       case _ => false
  }

  lemma Below(a: Path, p: Path)
    requires a <= p
    ensures |p| >= |a| && forall i :: 0 <= i < |a| ==> p[i] == a[i]
  {
  }

  lemma DispensableLies(fs: Fs, t: Target, p: Path)
    requires Dispensable(fs, t, p)
    ensures InArea(t, p)
    ensures ProperName(t) && ["Vivado", t.name] <= p ==> !KeptInVivado(t, p)
  {
    var prj := ["Vivado", t.name];
    if prj <= p { Below(prj, p); }
    if IsIpOutput(fs, t, p) {
      if IsFile(fs, ["Vivado", "ip", "get_part.tcl"]) {
        Below(["Vivado", "ip", "build", t.name], p);
      } else {
        var core: string :| IsFile(fs, ["HLS", core, core + ".tcl"]) && ["HLS", core, t.name] <= p;
        Below(["HLS", core, t.name], p);
      }
    }
    OtherAreas(t, p);
  }

  lemma OtherAreas(t: Target, p: Path)
    ensures ["Vitis", t.name + "_workspace"] <= p ==> |p| >= 2 && p[0] == "Vitis" && p[1] == t.name + "_workspace"
    ensures ["PetaLinux", t.name, "build"] <= p ==> |p| >= 3 && p[0] == "PetaLinux" && p[1] == t.name && p[2] == "build"
    ensures ["PetaLinux", t.name, "components"] <= p ==>
              |p| >= 3 && p[0] == "PetaLinux" && p[1] == t.name && p[2] == "components"
    ensures ["Yocto", t.name] <= p ==> |p| >= 2 && p[0] == "Yocto" && p[1] == t.name
  {
  }

  /** What is kept by name in the Vivado project stays. */
  lemma KeptInVivadoStays(fs: Fs, t: Target, p: Path)
    requires Tree(fs) && PlainPaths(fs, t) && ProperName(t) && p in fs && fs[p].File?
    requires ["Vivado", t.name] <= p && KeptInVivado(t, p)
    ensures p in Cleaned(fs, t)
  {
    GoneIffDispensable(fs, t, p);
    if Dispensable(fs, t, p) { DispensableLies(fs, t, p); }
  }

  /** In particular the debug-probe and memory-map files stay beside the image. */
  lemma CompanionsStay(fs: Fs, t: Target, stem: string, p: Path)
    requires Tree(fs) && PlainPaths(fs, t) && ProperName(t) && p in fs && fs[p].File?
    requires || p == ["Vivado", t.name, t.name + ".runs", "impl_1"] + [stem + ".ltx"]
             || p == ["Vivado", t.name, t.name + ".runs", "impl_1"] + [stem + ".mmi"]
    ensures p in Cleaned(fs, t)
  {
    assert ["Vivado", t.name] <= p;
    assert KeptInVivado(t, p);
    KeptInVivadoStays(fs, t, p);
  }

  /** So do the XSA, the device image and, next to them, the flash image and its parameters. */
  lemma ImagesStayByName(fs: Fs, t: Target, p: Path)
    requires Tree(fs) && PlainPaths(fs, t) && ProperName(t) && p in fs && fs[p].File?
    requires || p == ["Vivado", t.name] + [t.bd + "_wrapper.xsa"]
             || p == ["Vivado", t.name, t.name + ".runs", "impl_1"]
                     + [t.bd + (if t.family == Versal then "_wrapper.pdi" else "_wrapper.bit")]
             || (!(t.family == Microblaze && t.baremetal)
                 && (p == ["Vivado", t.name] + [t.bd + "_wrapper.mcs"] || p == ["Vivado", t.name] + [t.bd + "_wrapper.prm"]))
    ensures p in Cleaned(fs, t)
  {
    assert ["Vivado", t.name] <= p;
    assert KeptInVivado(t, p);
    KeptInVivadoStays(fs, t, p);
  }

  /** What lies elsewhere stays: the PetaLinux images and project specification, the Yocto images, the Vitis boot
      files, the zips and the logs. */
  lemma OthersStay(fs: Fs, t: Target, p: Path)
    requires Tree(fs) && PlainPaths(fs, t) && p in fs && fs[p].File? && !InArea(t, p)
    ensures p in Cleaned(fs, t)
  {
    GoneIffDispensable(fs, t, p);
    if Dispensable(fs, t, p) { DispensableLies(fs, t, p); }
  }

  lemma ElsewhereByName(t: Target, p: Path)
    requires || ["PetaLinux", t.name, "images"] <= p || ["PetaLinux", t.name, "project-spec"] <= p
             || ["Yocto", t.name, "images"] <= p || ["Vitis", "boot", t.name] <= p || ["bootimages"] <= p
             || (["Vivado", "logs"] <= p && t.name != "logs") || ["Vitis", "logs"] <= p
    ensures !InArea(t, p)
  {
    assert |t.name + "_workspace"| > |"boot"|;
  }

  /** And the PetaLinux build and components go once there is an image. */
  lemma BuildGoes(fs: Fs, t: Target, p: Path)
    requires Tree(fs) && PlainPaths(fs, t) && p in fs && fs[p].File? && PetalinuxImageIsThere(fs, t)
    requires ["PetaLinux", t.name, "build"] <= p || ["PetaLinux", t.name, "components"] <= p
    ensures p !in Cleaned(fs, t)
  {
    GoneIffDispensable(fs, t, p);
  }
}

/** Inputs of path_id with unwelcome outcomes, on the paths of a running system. */
module Inputs {
  import opened Text
  import opened Glob
  import opened PathId
  import opened Climbing
  import opened Identity
  import opened Paths
  import opened Hardware
  import opened Endpoints

  const BUS := "0000:00"

  lemma BusIsNumber(slot: string)
    requires slot != "" && IsDigit(slot[0]) && '/' !in slot
    ensures Behind(BUS, [] + [slot])
  {
    hide Clear;
    assert BUS[4] == ':' && IsDigit(BUS[5]);
    NumericOne(slot);
    assert [] + [slot] == [slot];
  }

  // ---------- a firewire disk without an identifier ----------

  const EMPTY := Sysfs(map[], map[], {})

  /** Any firewire node without an identifier, with the variables unset: the loop runs for ever. */
  lemma FirewireRunsForEver(fs: Sysfs, dev: string)
    requires ArmOf(dev).Firewire? && Read(fs, dev + "/ieee1394_id", "") == ""
    ensures !Ends(fs, dev, StartAt(dev))
  {
    hide InOrder;
    ArmHasSlash(dev);
    SlashNotInNothing();
    SticksAtOnce(fs, dev, StartAt(dev));
  }

  lemma SlashNotInNothing()
    ensures !Has("/", "")
  {
  }

  /** The node of a disk behind a firewire host. */
  const SBP2 := ["sys", "devices", "pci0000:00", "0000:00:1e.0", "fw-host0", "1", "1-0"]

  /** A disk behind a firewire host in a tree without its identifier. */
  lemma RunsForEver()
    ensures !Ends(EMPTY, PathOf(SBP2), StartAt(PathOf(SBP2)))
  {
    hide InOrder, PathOf, Others, ArmOf, Ends;
    var ctrl, below := PciPath(BUS, ["0000:00:1e.0"]), ["1", "1-0"];
    BusIsNumber("0000:00:1e.0");
    assert [] + ["0000:00:1e.0"] == ["0000:00:1e.0"];
    PciIsClear(BUS, ["0000:00:1e.0"]);
    BelowIsEarly(below);
    FirewireArm(ctrl, 0, below);
    assert "fw-host" + Dec(0) == "fw-host0" && "pci" + BUS == "pci0000:00";
    assert FirewirePath(ctrl, 0, below) == SBP2;
    FirewireRunsForEver(EMPTY, PathOf(SBP2));
  }

  lemma BelowIsEarly(below: seq<string>)
    requires Numeric(below)
    ensures Early(below)
  {
    hide Others, Numeric;
    NumericIsClear(below);
  }

  // ---------- SCSI devices behind a cciss controller ----------

  const SLOT := "0000:00:02.0"

  const CTRL := PciPath(BUS, [] + [SLOT])

  const DISK := "block:cciss!c0d0"

  /** The controller, its first disk, and one SCSI host. */
  const CCISS := Sysfs(
    map[PathOf(CTRL) := [DISK, "host0"]], map[], {PathOf(CTRL) + "/" + DISK})

  /** The disk's name, as the pci arm finds it. */
  lemma DiskFound()
    ensures CcissAt(CCISS, PathOf(CTRL)) == Some("cciss-c0d0")
  {
    hide PathOf, CcissDisk, AfterFirst, IsCcissLink, CCISS, List, CTRL;
    DiskName();
    DiskListed();
    LastDisk(CCISS, PathOf(CTRL), [DISK, "host0"], 0);
    assert "cciss-" + "c0d0" == "cciss-c0d0";
  }

  lemma DiskListed()
    ensures List(CCISS, PathOf(CTRL)) == [DISK, "host0"]
    ensures IsCcissLink(CCISS, PathOf(CTRL), DISK) && !IsCcissLink(CCISS, PathOf(CTRL), "host0")
  {
    hide PathOf, Has, AfterFirst, CTRL;
    DiskName();
  }

  lemma DiskName()
    ensures "block" <= DISK && !("block" <= "host0") && Has("cciss", DISK) && AfterFirst("cciss!", DISK) == "c0d0"
  {
    var w := "cciss!";
    hide FirstAt, At, Has, AfterFirst, CutFirst;
    var s := "block:" + w + "c0d0";
    assert s == DISK;
    assert "block"[0] != "host0"[0];
    WordAt(w, "block:", "c0d0");
    WordPrefix(w, "cciss", s);
  }

  /** A word found behind a text in which its first two letters do not stand. */
  lemma WordAt(w: string, before: string, after: string)
    requires |w| > 1 && '#' !in w
    requires forall j :: 0 <= j < |before| ==> before[j] != w[0] || (before + w)[j + 1] != w[1]
    ensures var s := before + w + after; Has(w, s) && AfterFirst(w, s) == after && CutFirst(w, s) == before
  {
    var s, i := before + w + after, |before|;
    assert s[i..] == w + after && s[i + |w|..] == after && s[..i] == before;
    StartsWith(w, after);
    forall j | 0 <= j < i
      ensures !At(w, s[j..])
    {
      assert s[j..][0] == before[j] && s[j..][1] == (before + w)[j + 1];
      NotAt(w, s[j..]);
    }
    FirstAtIs(w, s, i);
  }

  lemma NotAt(w: string, s: string)
    requires |w| > 1 && |s| > 1 && '#' !in w && (s[0] != w[0] || s[1] != w[1])
    ensures !At(w, s)
  {
    assert w[0] in w && w[1] in w;
  }

  /** All SCSI devices behind such a controller get one identifier, that of its first disk. */
  lemma OneNameForAll(a: Addr)
    ensures IdPath(CCISS, ScsiPath(PathOf(CTRL), a), None) == Some("pci-0000:00:02.0-cciss-c0d0")
  {
    hide PathOf, ScsiPath, CCISS, IdPath, CcissAt, PciPath, Behind, ScsiText, IsFirst;
    var entries := List(CCISS, PathOf(CTRL));
    DiskFound();
    BusIsNumber(SLOT);
    FirstExists("host", entries, a.host);
    ScsiDisk(CCISS, BUS, [], SLOT, a, PortOffset("host", a.host, entries), None);
    assert "pci-" + SLOT + "-" + "cciss-c0d0" + "" == "pci-0000:00:02.0-cciss-c0d0";
  }
}

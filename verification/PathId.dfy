/**
 path_id as a function of sysfs: the arms of `handle_device` and the climb they make
 together from a device up to the root of its path.
 */
module PathId {
  import opened Text
  import opened Glob
  import opened Lun

  // ---------- sysfs ----------

  /** Directory listings by path, the first line of each attribute file by path, and the symbolic links. */
  datatype Sysfs = Sysfs(dirs: map<string, seq<string>>, attrs: map<string, string>, links: set<string>)

  function List(fs: Sysfs, path: string): seq<string> {
    if path in fs.dirs then fs.dirs[path] else []
  }

  /** `[ -e file ] && read var < file`: the variable keeps its value if there is no file. */
  function Read(fs: Sysfs, path: string, before: string): string {
    if path in fs.attrs then fs.attrs[path] else before
  }

  // ---------- the walk ----------

  /** `Left`: the unhandled arm returned. `Failed`: arithmetic on a text that is not a number. */
  datatype Status = Walking | Left | Failed

  /** Variables that survive from one round of the loop to the next. */
  datatype Regs = Regs(
    channel: string, wwpn: string, lun: string, ieeeId: string,
    phyPort: string, endAddress: string, endId: string)

  const NO_REGS := Regs("", "", "", "", "", "", "")

  /** `dev` is `$D`, `id` is `$d`. */
  datatype Walk = Walk(dev: string, id: string, result: nat, status: Status, regs: Regs)

  function StartAt(dev: string): Walk {
    Walk(dev, "", 1, Walking, NO_REGS)
  }

  predicate Finished(w: Walk) {
    w.status != Walking || w.dev == ""
  }

  datatype Arm = Ide | Css | Fc | Sas | Firewire | Iscsi | Scsi | Tty | Usb | Pci | Serio | Platform | Root | Unhandled

  const FC := ["/rport-#", ":#", "-#", "/"]
  const SAS := ["/end_device-#", ":#", ":#", "/"]
  const FIREWIRE := ["/fw-host#", "/"]
  const ISCSI := ["/session#", "/"]
  const SCSI := ["/host#", "/#", ":#", ":#", ":#"]
  const USB := ["/usb#", "/#", "/"]
  const PCI := ["/pci#", ":#"]

  /** The `case "$D" in` of `handle_device`, in its order. */
  function ArmOf(dev: string): Arm {
    if InOrder(["/ide#/#.#"], dev) || InOrder(["/ide##/##.#"], dev) then Ide
    else if InOrder(["/css0/"], dev) then Css
    else if InOrder(FC, dev) then Fc
    else if InOrder(SAS, dev) then Sas
    else if InOrder(FIREWIRE, dev) then Firewire
    else if InOrder(ISCSI, dev) then Iscsi
    else if InOrder(SCSI, dev) then Scsi
    else if InOrder(["/ttyUSB"], dev) then Tty
    else if InOrder(USB, dev) then Usb
    else if InOrder(PCI, dev) then Pci
    else if InOrder(["/serio#"], dev) then Serio
    else if InOrder(["/platform/"], dev) then Platform
    else if |dev| >= 8 && dev[|dev| - 8..] == "/devices" then Root
    else Unhandled
  }

  /** `d="$seg-$d"`, or `d="$seg"` when `d` is empty. */
  function Prepend(seg: string, id: string): string {
    if id == "" then seg else seg + "-" + id
  }

  /** Going on from `dev` with `seg` in front. */
  function Onward(w: Walk, seg: string, dev: string): Walk {
    w.(dev := dev, id := Prepend(seg, w.id), result := 0)
  }

  function Base(path: string): string {
    AfterLast("/", path)
  }

  function Dir(path: string): string {
    CutLast("/", path)
  }

  // ---------- ports ----------

  /** The port of a directory entry that matches `$type[0-9]*`, if it is a number. */
  function PortOf(kind: string, entry: string): Option<nat> {
    if At(kind + "#", entry) then TestNumber(entry[|kind|..]) else None
  }

  /** `get_port_offset` */
  function PortOffset(kind: string, offset: nat, entries: seq<string>): nat {
    if entries == [] then offset
    else
      var o, port := PortOffset(kind, offset, entries[..|entries| - 1]), PortOf(kind, entries[|entries| - 1]);
      if port.Some? && port.value < o then port.value else o
  }

  /** Least of the own port and all listed ones. */
  lemma {:induction false} PortOffsetIsMin(kind: string, offset: nat, entries: seq<string>)
    ensures var o := PortOffset(kind, offset, entries);
      && o <= offset
      && (forall i :: 0 <= i < |entries| && PortOf(kind, entries[i]).Some? ==> o <= PortOf(kind, entries[i]).value)
      && (o == offset || exists i :: 0 <= i < |entries| && PortOf(kind, entries[i]) == Some(o))
  {
    if entries != [] {
      var front := entries[..|entries| - 1];
      PortOffsetIsMin(kind, offset, front);
      assert forall i :: 0 <= i < |front| ==> front[i] == entries[i];
      var o := PortOffset(kind, offset, front);
      if o != offset {
        var i :| 0 <= i < |front| && PortOf(kind, front[i]) == Some(o);
        assert PortOf(kind, entries[i]) == Some(o);
      }
    }
  }

  /** The port counted from the controller's first: never negative. */
  function RelativePort(kind: string, port: nat, entries: seq<string>): nat {
    PortOffsetIsMin(kind, port, entries);
    port - PortOffset(kind, port, entries)
  }

  // ---------- bus arms: each puts a segment in front, pci perhaps of a name of its own ----------

  /** A `block*` link to a disk of a cciss controller, which has no sysfs node of its own. */
  predicate IsCcissLink(fs: Sysfs, dev: string, entry: string) {
    "block" <= entry && dev + "/" + entry in fs.links && Has("cciss", entry)
  }

  /** The name such a link gives to the disk: the last one listed wins. */
  function CcissDisk(fs: Sysfs, dev: string, entries: seq<string>): (disk: Option<string>)
    ensures disk.Some? ==> disk.value != ""
    ensures disk.Some? <==> exists i :: 0 <= i < |entries| && IsCcissLink(fs, dev, entries[i])
  {
    if entries == [] then None
    else
      var last := entries[|entries| - 1];
      if IsCcissLink(fs, dev, last) then Some("cciss-" + AfterFirst("cciss!", last))
      else CcissDisk(fs, dev, entries[..|entries| - 1])
  }

  function CcissAt(fs: Sysfs, dev: string): Option<string> {
    CcissDisk(fs, dev, List(fs, dev))
  }

  /** Such a disk takes the place of all that has been collected. */
  function HandlePci(fs: Sysfs, w: Walk): Walk {
    var disk := CcissAt(fs, w.dev);
    Onward(if disk.Some? then w.(id := disk.value) else w, "pci-" + Base(w.dev), CutFirst("/pci#", w.dev))
  }

  function HandlePlatform(w: Walk): Walk {
    Onward(w, "platform-" + Base(w.dev), CutFirst("/platform", w.dev))
  }

  function HandleSerio(w: Walk): Walk {
    Onward(w, "serio-" + AfterLast("/serio", w.dev), CutFirst("/serio", w.dev))
  }

  function HandleIde(fs: Sysfs, w: Walk): Walk {
    var port := if "ide" <= Base(w.dev) then Base(w.dev)[3..] else Base(w.dev);
    var drive := AfterFirst(".", port);
    var channel := if drive == "0" || drive == "1" then drive else w.regs.channel;
    var controller := Dir(Dir(w.dev));
    match TestNumber(CutLast(".", port))
    case None => w.(status := Failed)
    case Some(n) =>
      Onward(w.(regs := w.regs.(channel := channel)),
             "ide-" + Dec(RelativePort("ide", n, List(fs, controller))) + ":" + channel, controller)
  }

  function HandleScsi(fs: Sysfs, w: Walk): Walk {
    var cil := AfterFirst(":", Base(w.dev));
    var host := Dir(Dir(w.dev));
    var controller := Dir(host);
    match TestNumber(AfterLast("/host", host))
    case None => w.(status := Failed)
    case Some(n) =>
      Onward(w, "scsi-" + Dec(RelativePort("host", n, List(fs, controller))) + ":" + cil, controller)
  }

  /** The path down to the component at which `word` first occurs, that component included. */
  function ThroughFirst(word: string, path: string): string
    requires word != ""
  {
    var i := FirstAt(word, path);
    if i.None? then path
    else
      var rest := path[i.value + 1..];
      path[..i.value + 1] + CutFirst("/", rest)
  }

  function HandleUsb(fs: Sysfs, w: Walk): Walk {
    var port := AfterFirst("-", Base(w.dev));
    var above := CutFirst("/usb", w.dev);
    match TestNumber(AfterLast("/usb", ThroughFirst("/usb", w.dev)))
    case None => w.(status := Failed)
    case Some(n) =>
      Onward(w, "usb-" + Dec(RelativePort("usb", n, List(fs, above))) + ":" + port, above)
  }

  // ---------- endpoint arms: each starts the identifier anew ----------

  function HandleFirewire(fs: Sysfs, w: Walk): Walk {
    var id := Read(fs, w.dev + "/ieee1394_id", w.regs.ieeeId);
    var v := w.(regs := w.regs.(ieeeId := id));
    if id == "" then v.(result := 1)
    else v.(id := "ieee1394-0x" + id, dev := CutLast("/fw-host", w.dev), result := 0)
  }

  function HandleFc(fs: Sysfs, w: Walk): Walk {
    var lun := AfterLast(":", Base(w.dev));
    var target := Dir(w.dev);
    var wwpn := Read(fs, target + "/fc_transport/" + Base(target) + "/port_name", w.regs.wwpn);
    if wwpn == "" then w.(dev := "", result := 1)
    else
      match TestNumber(lun)
      case None => w.(status := Failed)
      case Some(n) =>
        w.(regs := w.regs.(wwpn := wwpn, lun := LunText(n)),
           id := "fc-" + wwpn + ":" + LunText(n), dev := CutLast("/host#", target), result := 0)
  }

  // The path with its shortest prefix up to a host component and the slash after it removed.
  function BelowHost(path: string): string {
    var i := FirstAt("/host", path);
    if i.None? then path
    else
      var rest := path[i.value + 5..];
      if Has("/", rest) then AfterFirst("/", rest) else path
  }

  // The phy identifiers found in one sas_phy directory.
  function PhysIn(fs: Sysfs, dir: string, entries: seq<string>): seq<string> {
    if entries == [] then []
    else
      var last := entries[|entries| - 1];
      var path := dir + "/" + last;
      PhysIn(fs, dir, entries[..|entries| - 1])
      + (if "phy-" <= last && path in fs.dirs && path + "/phy_identifier" in fs.attrs
         then [fs.attrs[path + "/phy_identifier"]] else [])
  }

  function AllPhys(fs: Sysfs, dir: string, entries: seq<string>): seq<string> {
    if entries == [] then []
    else
      var last := entries[|entries| - 1];
      var sub := dir + "/" + last + "/sas_phy";
      AllPhys(fs, dir, entries[..|entries| - 1]) + (if "phy-" <= last then PhysIn(fs, sub, List(fs, sub)) else [])
  }

  /** The loop over phys: the least identifier below `least`. */
  function LeastPhy(least: nat, phys: seq<string>): nat {
    if phys == [] then least
    else
      var m, n := LeastPhy(least, phys[..|phys| - 1]), TestNumber(phys[|phys| - 1]);
      if n.Some? && n.value < m then n.value else m
  }

  /** Least of `least` and all numbers found. */
  lemma {:induction false} LeastPhyIsLeast(least: nat, phys: seq<string>)
    ensures var o := LeastPhy(least, phys);
      && o <= least
      && (forall p :: p in phys && TestNumber(p).Some? ==> o <= TestNumber(p).value)
      && (o == least || exists p :: p in phys && TestNumber(p) == Some(o))
  {
    if phys != [] {
      var front, last := phys[..|phys| - 1], phys[|phys| - 1];
      LeastPhyIsLeast(least, front);
      assert phys == front + [last];
      var o := LeastPhy(least, front);
      if o != least {
        var p :| p in front && TestNumber(p) == Some(o);
        assert p in phys;
      }
    }
  }

  /** The directory `sub` holds a phy whose identifier reads `p`. */
  predicate HoldsPhy(fs: Sysfs, sub: string, entries: seq<string>, p: string) {
    exists e :: e in entries && "phy-" <= e && sub + "/" + e in fs.dirs
      && sub + "/" + e + "/phy_identifier" in fs.attrs && fs.attrs[sub + "/" + e + "/phy_identifier"] == p
  }

  lemma {:induction false} PhysInAre(fs: Sysfs, sub: string, entries: seq<string>)
    ensures forall p :: p in PhysIn(fs, sub, entries) <==> HoldsPhy(fs, sub, entries, p)
  {
    if entries != [] {
      PhysInAre(fs, sub, entries[..|entries| - 1]);
      assert entries == entries[..|entries| - 1] + [entries[|entries| - 1]];
    }
  }

  /** The identifiers found are those of the phys in the `sas_phy` directories below `dir`. */
  lemma {:induction false} AllPhysAre(fs: Sysfs, dir: string, entries: seq<string>)
    ensures forall p :: p in AllPhys(fs, dir, entries) <==>
      exists e :: e in entries && "phy-" <= e
        && HoldsPhy(fs, dir + "/" + e + "/sas_phy", List(fs, dir + "/" + e + "/sas_phy"), p)
  {
    hide HoldsPhy, PhysIn;
    if entries != [] {
      var last := entries[|entries| - 1];
      var sub := dir + "/" + last + "/sas_phy";
      AllPhysAre(fs, dir, entries[..|entries| - 1]);
      PhysInAre(fs, sub, List(fs, sub));
      assert entries == entries[..|entries| - 1] + [last];
    }
  }

  const NO_PHY: nat := 255

  // The directory of the phys. Without a host component its last part is empty, and so is then left out.
  function SasPhyPath(dev: string): string {
    var end := CutFirst("/target", dev);
    var part := CutFirst("/", BelowHost(end));
    if part == "" then CutFirst("/port", end) else CutFirst("/port", end) + "/" + part
  }

  function SasPhy(fs: Sysfs, dev: string): nat {
    LeastPhy(NO_PHY, AllPhys(fs, SasPhyPath(dev), List(fs, SasPhyPath(dev))))
  }

  function SasRegs(fs: Sysfs, w: Walk): Regs {
    var port := "/sys/class/sas_port/port-" + AfterLast("/port-", SasPhyPath(w.dev));
    var end := "/sys/class/sas_device/end_device-" + AfterLast("end_device-", CutFirst("/target", w.dev));
    var r := w.regs.(phyPort := Read(fs, port + "/num_phys", w.regs.phyPort));
    if end + "/sas_address" in fs.attrs then
      r.(endAddress := fs.attrs[end + "/sas_address"], endId := Read(fs, end + "/phy_identifier", r.endId))
    else r
  }

  function SasAbove(dev: string): string {
    CutLast("/host#", CutFirst("/port", CutFirst("/target", dev)))
  }

  function HandleSas(fs: Sysfs, w: Walk): Walk {
    var phy := SasPhy(fs, w.dev);
    if phy == NO_PHY then w.(dev := "", result := 1)
    else
      var r := SasRegs(fs, w);
      if r.endAddress == "" then w.(regs := r, dev := "", result := 1)
      else
        w.(regs := r, dev := SasAbove(w.dev), result := 0,
           id := "sas-phy" + Dec(phy) + ":" + r.phyPort + "-" + r.endAddress + ":" + r.endId
             + "-lun" + AfterLast(":", w.dev))
  }

  /** The connection numbered 0: the last one listed. */
  function Connection(dir: string, entries: seq<string>): string {
    if entries == [] then ""
    else
      var last := entries[|entries| - 1];
      if "connection" <= last && AfterLast(":", dir + "/" + last) == "0" then last
      else Connection(dir, entries[..|entries| - 1])
  }

  function HandleIscsi(fs: Sysfs, w: Walk): Walk {
    var dir := CutFirst("/target", w.dev);
    var session := "/sys/class/iscsi_session/" + Base(dir);
    var conn := Connection(dir, List(fs, dir));
    var path := "/sys/class/iscsi_connection/" + conn;
    var name := Read(fs, session + "/targetname", "");
    var address := Read(fs, path + "/persistent_address", "");
    var port := Read(fs, path + "/persistent_port", "");
    if session !in fs.dirs || conn == "" || path !in fs.dirs || name == "" || address == "" then
      w.(dev := "", result := 1)
    else
      w.(dev := "", result := 0,
         id := "ip-" + address + ":" + port + "-iscsi-" + name + "-lun-" + AfterLast(":", w.dev))
  }

  /** The S/390 arm; `start` is the device the walk started from. */
  function HandleCss(fs: Sysfs, start: string, w: Walk): Walk {
    var wwpn := Read(fs, start + "/wwpn", w.regs.wwpn);
    var lun := Read(fs, start + "/fcp_lun", w.regs.lun);
    var bus := Read(fs, start + "/hba_id", "");
    w.(dev := "", result := 0, regs := w.regs.(wwpn := wwpn, lun := lun),
       id := if bus != "" && wwpn != "" && lun != "" then "ccw-" + bus + "-zfcp-" + wwpn + ":" + lun
             else "ccw-" + Base(w.dev))
  }

  // ---------- the climb ----------

  /** One round of the loop. */
  function Step(fs: Sysfs, start: string, w: Walk): Walk {
    match ArmOf(w.dev)
    case Ide => HandleIde(fs, w)
    case Css => HandleCss(fs, start, w)
    case Fc => HandleFc(fs, w)
    case Sas => HandleSas(fs, w)
    case Firewire => HandleFirewire(fs, w)
    case Iscsi => HandleIscsi(fs, w)
    case Scsi => HandleScsi(fs, w)
    case Tty => w.(dev := CutLast("/ttyUSB", w.dev))
    case Usb => HandleUsb(fs, w)
    case Pci => HandlePci(fs, w)
    case Serio => HandleSerio(w)
    case Platform => HandlePlatform(w)
    case Root => w.(dev := "")
    case Unhandled => w.(status := Left, result := 1)
  }

  /** The whole loop; `None` if a round leaves the walk where it was. */
  function Climb(fs: Sysfs, start: string, w: Walk): Option<Walk>
    decreases |w.dev|
  {
    if Finished(w) then Some(w)
    else
      var v := Step(fs, start, w);
      if Finished(v) then Some(v)
      else if |v.dev| < |w.dev| then Climb(fs, start, v)
      else None
  }

  /** `n` rounds of the loop. */
  function Rounds(fs: Sysfs, start: string, w: Walk, n: nat): Walk {
    if n == 0 then w
    else
      var v := Rounds(fs, start, w, n - 1);
      if Finished(v) then v else Step(fs, start, v)
  }

  // ---------- the end of the script ----------

  /** What follows `st` in a tape's name, reduced to the letter of its mode. */
  function TapeMode(name: string): string {
    var m := AfterLast("st", name);
    if m != "" && m[|m| - 1] in "lma" then [m[|m| - 1]] else ""
  }

  /** What is appended for a tape of this name, and for other devices. */
  function Tail(tape: Option<string>): string {
    match tape
    case None => ""
    case Some(name) => "-" + CutFirst("st", name) + "st" + TapeMode(name)
  }

  /** The arm that returns skips the end of the function. */
  function TailOf(w: Walk, tape: Option<string>): string {
    if w.status == Left then "" else Tail(tape)
  }

  /**
   What path_id prints for the device at `dev`, a SCSI tape of the given name or another
   device; `None` if it prints nothing or never ends.
   */
  function IdPath(fs: Sysfs, dev: string, tape: Option<string>): Option<string> {
    match Climb(fs, dev, StartAt(dev))
    case None => None
    case Some(w) => if w.status == Failed || w.id == "" then None else Some(w.id + TailOf(w, tape))
  }
}

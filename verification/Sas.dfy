/** The identifier of a SAS device, spelt out. */
module Sas {
  import opened Text
  import opened Glob
  import opened PathId
  import opened Climbing
  import opened Identity
  import opened Paths
  import opened Hardware
  import opened Endpoints

  /** No arm before that of SAS applies. */
  predicate PastFc(cs: seq<string>) {
    PastCss(cs) && Others(cs, "rport-")
  }

  lemma PastFcConcat(a: seq<string>, b: seq<string>)
    ensures PastFc(a + b) <==> PastFc(a) && PastFc(b)
  {
    hide Others, PastCss;
    PastCssConcat(a, b);
    OthersConcat(a, b, "rport-");
  }

  /** A unit of an end device behind port `port` of a host, `mids` standing between port and end device. */
  datatype SasUnit = SasUnit(a: Addr, port: string, mids: seq<string>, x: nat, y: nat, z: nat)

  function EndNumbers(u: SasUnit): string {
    Dec(u.x) + ":" + Dec(u.y) + ":" + Dec(u.z)
  }

  function EndPart(u: SasUnit): string {
    "end_device-" + EndNumbers(u)
  }

  function PortPart(u: SasUnit): string {
    "port-" + u.port
  }

  /** The directory with the phys of the port. */
  function PortDir(ctrl: seq<string>, u: SasUnit): seq<string> {
    ctrl + [HostPart(u.a)] + [PortPart(u)]
  }

  function EndDir(ctrl: seq<string>, u: SasUnit): seq<string> {
    PortDir(ctrl, u) + (u.mids + [EndPart(u)])
  }

  function SasPath(ctrl: seq<string>, u: SasUnit): seq<string> {
    EndDir(ctrl, u) + ([TargetPart(u.a)] + [UnitPart(u.a)])
  }

  /** The components of the path are in their places, and bring in no arm before that of SAS. */
  predicate IsSas(ctrl: seq<string>, u: SasUnit) {
    && PastFc(ctrl) && Others(ctrl, "host") && Others(ctrl, "port") && Others(ctrl, "target")
    && PastFc(u.mids) && Others(u.mids, "target") && '/' !in u.port
  }

  // ---------- the path and its words ----------

  lemma EndNumbersAre(u: SasUnit)
    ensures '/' !in EndNumbers(u) && 'e' !in EndNumbers(u)
  {
    hide Dec;
    DecHasNo(u.x, '/');
    DecHasNo(u.y, '/');
    DecHasNo(u.z, '/');
    DecHasNo(u.x, 'e');
    DecHasNo(u.y, 'e');
    DecHasNo(u.z, 'e');
  }

  lemma SasText(ctrl: seq<string>, u: SasUnit)
    ensures var host, down := PathOf(ctrl + [HostPart(u.a)]), PathOf(u.mids + [EndPart(u)]);
      && host == PathOf(ctrl) + ("/" + HostPart(u.a))
      && PathOf(PortDir(ctrl, u)) == host + ("/" + PortPart(u))
      && PathOf(EndDir(ctrl, u)) == host + ("/" + PortPart(u) + down)
      && PathOf(EndDir(ctrl, u)) == PathOf(PortDir(ctrl, u) + u.mids) + ("/" + EndPart(u))
  {
    hide PathOf, HostPart, PortPart, EndPart;
    var host, down := PathOf(ctrl + [HostPart(u.a)]), PathOf(u.mids + [EndPart(u)]);
    PathOfMore(ctrl, HostPart(u.a));
    PathOfMore(ctrl + [HostPart(u.a)], PortPart(u));
    PathOfConcat(PortDir(ctrl, u), u.mids + [EndPart(u)]);
    PathOfMore(PortDir(ctrl, u) + u.mids, EndPart(u));
    assert PortDir(ctrl, u) + u.mids + [EndPart(u)] == EndDir(ctrl, u);
    assert PathOf(ctrl) + "/" + HostPart(u.a) == PathOf(ctrl) + ("/" + HostPart(u.a));
    assert host + "/" + PortPart(u) == host + ("/" + PortPart(u));
    assert host + "/" + PortPart(u) + down == host + ("/" + PortPart(u) + down);
  }

  lemma UnitText(ctrl: seq<string>, u: SasUnit)
    ensures PathOf(SasPath(ctrl, u)) == PathOf(EndDir(ctrl, u)) + ("/" + TargetPart(u.a) + "/" + UnitPart(u.a))
    ensures PathOf(SasPath(ctrl, u)) == PathOf(EndDir(ctrl, u) + [TargetPart(u.a)]) + "/" + UnitPart(u.a)
  {
    hide PathOf, EndDir, TargetPart, UnitPart;
    PathOfMore(EndDir(ctrl, u), TargetPart(u.a));
    PathOfMore(EndDir(ctrl, u) + [TargetPart(u.a)], UnitPart(u.a));
    assert EndDir(ctrl, u) + [TargetPart(u.a)] + [UnitPart(u.a)] == SasPath(ctrl, u);
    assert PathOf(EndDir(ctrl, u)) + "/" + TargetPart(u.a) + "/" + UnitPart(u.a)
      == PathOf(EndDir(ctrl, u)) + ("/" + TargetPart(u.a) + "/" + UnitPart(u.a));
  }

  /** The host, port and end device components bring in no word of the other kinds. */
  lemma PartsAre(u: SasUnit)
    requires '/' !in u.port
    ensures PastFc([HostPart(u.a)]) && PastFc([PortPart(u)]) && PastFc([EndPart(u)])
    ensures Others([HostPart(u.a)], "port")
    ensures Others([HostPart(u.a)], "target") && Others([PortPart(u)], "target") && Others([EndPart(u)], "target")
  {
    hide Others, HostPart, TargetPart, UnitPart, EndNumbers;
    AddrParts(u.a);
    EndNumbersAre(u);
    CalmByFirst(HostPart(u.a));
    CalmByFirst(PortPart(u));
    OneOther(EndPart(u), "ide", 0);
    OneOther(EndPart(u), "css0", 0);
    OneOther(EndPart(u), "rport-", 0);
    OneOther(HostPart(u.a), "port", 0);
    OneOther(HostPart(u.a), "target", 0);
    OneOther(PortPart(u), "target", 0);
    OneOther(EndPart(u), "target", 0);
  }

  lemma EndDirIs(ctrl: seq<string>, u: SasUnit)
    requires IsSas(ctrl, u)
    ensures PastFc(EndDir(ctrl, u)) && Others(EndDir(ctrl, u), "target")
    ensures Others(ctrl + [HostPart(u.a)], "port")
  {
    hide Others, PastFc, HostPart, PortPart, EndPart;
    PartsAre(u);
    var h, p, e := [HostPart(u.a)], [PortPart(u)], [EndPart(u)];
    PastFcConcat(ctrl, h);
    PastFcConcat(ctrl + h, p);
    PastFcConcat(u.mids, e);
    PastFcConcat(PortDir(ctrl, u), u.mids + e);
    OthersConcat(ctrl, h, "target");
    OthersConcat(ctrl + h, p, "target");
    OthersConcat(u.mids, e, "target");
    OthersConcat(PortDir(ctrl, u), u.mids + e, "target");
    OthersConcat(ctrl, h, "port");
  }

  lemma EndMatches(u: SasUnit, tail: string)
    requires tail != "" && tail[0] == '/'
    ensures InOrder(SAS, "/" + EndPart(u) + tail)
  {
    hide InOrder, Dec, EndPart;
    var ws := SAS;
    assert ws[3..] == ["/"] && ws[1..][1..] == ws[2..] && ws[2..][1..] == ws[3..];
    SlashMatches(tail);
    var x, y := ":" + Dec(u.y), ":" + Dec(u.z);
    AtDigit(ws[2..], ":", Dec(u.z), tail);
    AtDigit(ws[1..], ":", Dec(u.y), y + tail);
    AtDigit(ws, "/end_device-", Dec(u.x), x + (y + tail));
    EndIs(u, tail);
  }

  lemma EndIs(u: SasUnit, tail: string)
    ensures "/end_device-" + Dec(u.x) + (":" + Dec(u.y) + (":" + Dec(u.z) + tail)) == "/" + EndPart(u) + tail
  {
    hide Dec;
  }

  /** A unit behind an end device takes the sas arm, before those of its host and its pci device. */
  lemma SasArm(ctrl: seq<string>, u: SasUnit)
    requires IsSas(ctrl, u)
    ensures ArmOf(PathOf(SasPath(ctrl, u))).Sas?
  {
    hide InOrder, PathOf, Others, SasPath;
    SasIsPast(ctrl, u);
    NotIde(SasPath(ctrl, u));
    NotCss(SasPath(ctrl, u));
    NotFc(SasPath(ctrl, u));
    SasMatches(ctrl, u);
  }

  lemma SasIsPast(ctrl: seq<string>, u: SasUnit)
    requires IsSas(ctrl, u)
    ensures PastFc(SasPath(ctrl, u))
  {
    hide Others, EndDir, TargetPart, UnitPart, IsSas;
    EndDirIs(ctrl, u);
    UnitPathIsPast(u.a);
    PastFcConcat(EndDir(ctrl, u), [TargetPart(u.a)] + [UnitPart(u.a)]);
  }

  lemma SasMatches(ctrl: seq<string>, u: SasUnit)
    ensures InOrder(SAS, PathOf(SasPath(ctrl, u)))
  {
    hide InOrder, PathOf, SasPath, EndDir, PortDir, EndPart, TargetPart, UnitPart;
    SasText(ctrl, u);
    UnitText(ctrl, u);
    var tail := "/" + TargetPart(u.a) + "/" + UnitPart(u.a);
    EndMatches(u, tail);
    var up := PathOf(PortDir(ctrl, u) + u.mids);
    InOrderAfter(SAS, up, "/" + EndPart(u) + tail);
    assert up + ("/" + EndPart(u) + tail) == PathOf(SasPath(ctrl, u));
  }

  // ---------- what the arm cuts out of it ----------

  lemma TargetCut(ctrl: seq<string>, u: SasUnit)
    requires IsSas(ctrl, u)
    ensures CutFirst("/target", PathOf(SasPath(ctrl, u))) == PathOf(EndDir(ctrl, u))
  {
    hide PathOf, Others, IsSas, EndDir, SasPath, CutFirst, At, TargetPart, UnitPart;
    EndDirIs(ctrl, u);
    UnitText(ctrl, u);
    TargetBegins(u.a, "/" + UnitPart(u.a));
    var rest := "/" + TargetPart(u.a) + "/" + UnitPart(u.a);
    assert "/" + TargetPart(u.a) + ("/" + UnitPart(u.a)) == rest && "/" + "target" == "/target";
    FirstIsAt("target", "/target", EndDir(ctrl, u), rest);
  }

  lemma PortCut(ctrl: seq<string>, u: SasUnit)
    requires IsSas(ctrl, u)
    ensures CutFirst("/port", PathOf(EndDir(ctrl, u))) == PathOf(ctrl + [HostPart(u.a)])
  {
    hide PathOf, Others, IsSas, EndDir, CutFirst, At, HostPart, EndPart;
    EndDirIs(ctrl, u);
    SasText(ctrl, u);
    var down := PathOf(u.mids + [EndPart(u)]);
    StartsWith("/port", "-" + u.port + down);
    var rest := "/" + PortPart(u) + down;
    assert "/port" + ("-" + u.port + down) == rest && "/" + "port" == "/port";
    FirstIsAt("port", "/port", ctrl + [HostPart(u.a)], rest);
  }

  lemma BelowHostIs(ctrl: seq<string>, u: SasUnit)
    requires IsSas(ctrl, u)
    ensures BelowHost(PathOf(EndDir(ctrl, u))) == PortPart(u) + PathOf(u.mids + [EndPart(u)])
  {
    hide PathOf, Others, EndDir, CutFirst, AfterFirst, FirstAt, At, PortPart, EndPart, Dec, PastFc;
    SasText(ctrl, u);
    var s, up, h := PathOf(EndDir(ctrl, u)), PathOf(ctrl), Dec(u.a.host);
    var y := PortPart(u) + PathOf(u.mids + [EndPart(u)]);
    var rest := "/host" + h + ("/" + y);
    assert s == up + rest;
    StartsWith("/host", h + ("/" + y));
    assert "/host" + (h + ("/" + y)) == rest && "/" + "host" == "/host";
    FirstIsAt("host", "/host", ctrl, rest);
    assert s[|up| + 5..] == h + "/" + y;
    DecHasNo(u.a.host, '/');
    AfterSign('/', h, y);
    HasSlash(h, y);
  }

  lemma HasSlash(h: string, y: string)
    ensures Has("/", h + "/" + y)
  {
    var s := h + "/" + y;
    assert s[|h|..][0] == '/';
    Occurs("/", s, |h|);
  }

  /** The directory in which the arm looks for phys. */
  lemma PhyPathIs(ctrl: seq<string>, u: SasUnit)
    requires IsSas(ctrl, u)
    ensures SasPhyPath(PathOf(SasPath(ctrl, u))) == PathOf(PortDir(ctrl, u))
  {
    hide PathOf, SasPath, EndDir, CutFirst, BelowHost, HostPart, EndPart, Others, PastFc;
    TargetCut(ctrl, u);
    PortCut(ctrl, u);
    BelowHostIs(ctrl, u);
    SasText(ctrl, u);
    BeginsPath(u.mids + [EndPart(u)]);
    CutAtSlash(PortPart(u), PathOf(u.mids + [EndPart(u)]));
    var host := PathOf(ctrl + [HostPart(u.a)]);
    assert host + "/" + PortPart(u) == host + ("/" + PortPart(u));
  }

  lemma PortNumber(ctrl: seq<string>, u: SasUnit)
    requires '/' !in u.port
    ensures AfterLast("/port-", PathOf(PortDir(ctrl, u))) == u.port
  {
    hide PathOf, PortDir, HostPart, AfterLast;
    SasText(ctrl, u);
    LastWord("port-", PathOf(ctrl + [HostPart(u.a)]), u.port);
    assert "/" + "port-" == "/port-";
  }

  lemma EndNumber(ctrl: seq<string>, u: SasUnit)
    ensures AfterLast("end_device-", PathOf(EndDir(ctrl, u))) == EndNumbers(u)
  {
    hide PathOf, EndDir, PortDir, AfterLast, EndNumbers;
    SasText(ctrl, u);
    EndNumbersAre(u);
    var up := PathOf(PortDir(ctrl, u) + u.mids) + "/";
    assert PathOf(EndDir(ctrl, u)) == up + EndPart(u);
    EndWord(up, EndNumbers(u));
  }

  lemma EndWord(up: string, e: string)
    requires 'e' !in e
    ensures AfterLast("end_device-", up + ("end_device-" + e)) == e
  {
    var w := "end_device-";
    var s, r := up + (w + e), w + e;
    forall j | |up| < j <= |s|
      ensures !At(w, s[j..])
    {
      NoOverlap(e, j - |up|);
      assert s[j..] == r[j - |up|..];
    }
    assert s[|up|..] == r;
    StartsWith(w, e);
    LastAtIs(w, s, |up|);
    assert s[|up| + |w|..] == e;
  }

  lemma NoOverlap(e: string, j: nat)
    requires 'e' !in e && 0 < j <= |"end_device-" + e|
    ensures !At("end_device-", ("end_device-" + e)[j..])
  {
    var w := "end_device-";
    var r := w + e;
    assert w[0] == 'e' && w[1] == 'n' && w[2] == 'd';
    if j < |w| {
      assert r[j..][0] == w[j];
      assert j + 1 < |w| ==> r[j..][1] == w[j + 1];
    } else if j < |r| {
      assert r[j..][0] == e[j - |w|] && e[j - |w|] in e;
    }
  }

  lemma AboveIs(ctrl: seq<string>, u: SasUnit)
    requires IsSas(ctrl, u)
    ensures SasAbove(PathOf(SasPath(ctrl, u))) == PathOf(ctrl)
    ensures |PathOf(ctrl)| < |PathOf(SasPath(ctrl, u))|
    ensures AfterLast(":", PathOf(SasPath(ctrl, u))) == Dec(u.a.lun)
  {
    hide PathOf, SasPath, EndDir, PortDir, CutFirst, CutLast, HostPart, TargetPart, UnitPart, IsSas, Dec, AfterLast;
    TargetCut(ctrl, u);
    PortCut(ctrl, u);
    SasText(ctrl, u);
    UnitText(ctrl, u);
    NoMore();
    HostCut(PathOf(ctrl), u.a, []);
    assert "/" + HostPart(u.a) + "" == "/" + HostPart(u.a);
    LunIs(PathOf(EndDir(ctrl, u) + [TargetPart(u.a)]), u.a);
  }

  // ---------- phys ----------

  /** A phy of the port has an identifier file that reads `p`. */
  ghost predicate IsPhy(fs: Sysfs, dir: string, p: string) {
    exists e :: e in List(fs, dir) && "phy-" <= e
      && HoldsPhy(fs, dir + "/" + e + "/sas_phy", List(fs, dir + "/" + e + "/sas_phy"), p)
  }

  /** Phy `n` is the least of the port's, and below 255. */
  ghost predicate IsLeastPhy(fs: Sysfs, dir: string, n: nat) {
    && n < 255
    && (exists p :: IsPhy(fs, dir, p) && TestNumber(p) == Some(n))
    && forall p :: IsPhy(fs, dir, p) && TestNumber(p).Some? ==> n <= TestNumber(p).value
  }

  /** The phy the arm settles on is the least one, and 255 exactly if none is below. */
  lemma PhyIsLeast(fs: Sysfs, dir: string)
    ensures var n := LeastPhy(NO_PHY, AllPhys(fs, dir, List(fs, dir)));
      && n <= 255
      && (n == 255 <==> forall p :: IsPhy(fs, dir, p) && TestNumber(p).Some? ==> TestNumber(p).value >= 255)
      && forall k :: IsLeastPhy(fs, dir, k) <==> k == n && n < 255
  {
    hide HoldsPhy, TestNumber, LeastPhy, AllPhys;
    var phys := AllPhys(fs, dir, List(fs, dir));
    AllPhysAre(fs, dir, List(fs, dir));
    assert forall p :: IsPhy(fs, dir, p) <==> p in phys;
    hide IsPhy;
    LeastPhyIsLeast(NO_PHY, phys);
  }

  // ---------- the arm ----------

  function PortFile(u: SasUnit): string {
    "/sys/class/sas_port/port-" + u.port
  }

  function EndFile(u: SasUnit): string {
    "/sys/class/sas_device/end_device-" + EndNumbers(u)
  }

  /** The address of the end device; without its file, what the variable held before. */
  function Address(fs: Sysfs, u: SasUnit, before: Regs): string {
    Read(fs, EndFile(u) + "/sas_address", before.endAddress)
  }

  /** Its phy, read only along with the address. */
  function EndPhy(fs: Sysfs, u: SasUnit, before: Regs): string {
    if EndFile(u) + "/sas_address" in fs.attrs then Read(fs, EndFile(u) + "/phy_identifier", before.endId)
    else before.endId
  }

  /** The identifier with phy `n`. */
  function SasId(fs: Sysfs, u: SasUnit, n: nat, before: Regs): string {
    "sas-phy" + Dec(n) + ":" + Read(fs, PortFile(u) + "/num_phys", before.phyPort)
    + "-" + Address(fs, u, before) + ":" + EndPhy(fs, u, before) + "-lun" + Dec(u.a.lun)
  }

  /**
   The sas arm: the least phy of the port, its number of phys, the end device's address and phy, and the LUN,
   whatever was collected. It fails exactly if no phy is numbered below 255 or there is no address.
   */
  lemma SasSpelled(fs: Sysfs, start: string, ctrl: seq<string>, u: SasUnit, w: Walk)
    requires IsSas(ctrl, u) && w.dev == PathOf(SasPath(ctrl, u))
    ensures var v, dir := Step(fs, start, w), PathOf(PortDir(ctrl, u));
      && v.status == w.status
      && (if (forall p :: IsPhy(fs, dir, p) && TestNumber(p).Some? ==> TestNumber(p).value >= 255)
             || Address(fs, u, w.regs) == ""
          then v.dev == "" && v.id == w.id && v.result == 1
          else v.dev == PathOf(ctrl) && v.result == 0
               && forall n :: IsLeastPhy(fs, dir, n) ==> v.id == SasId(fs, u, n, w.regs))
  {
    hide PathOf, SasPath, PortDir, EndDir, ArmOf, IsSas, SasAbove, SasPhyPath, AfterLast, SasRegs, AllPhys, LeastPhy;
    hide IsPhy, IsLeastPhy, List, Address, TestNumber, EndPhy, Dec;
    var dir := PathOf(PortDir(ctrl, u));
    SasArm(ctrl, u);
    PhyPathIs(ctrl, u);
    AboveIs(ctrl, u);
    PhyIsLeast(fs, dir);
    RegsAre(fs, ctrl, u, w);
  }

  lemma RegsAre(fs: Sysfs, ctrl: seq<string>, u: SasUnit, w: Walk)
    requires IsSas(ctrl, u) && w.dev == PathOf(SasPath(ctrl, u))
    ensures var r := SasRegs(fs, w);
      && r.phyPort == Read(fs, PortFile(u) + "/num_phys", w.regs.phyPort)
      && r.endAddress == Address(fs, u, w.regs) && r.endId == EndPhy(fs, u, w.regs)
  {
    hide PathOf, SasPath, PortDir, EndDir, IsSas, SasPhyPath, AfterLast, CutFirst, EndNumbers;
    NoSlashInPort(ctrl, u);
    PhyPathIs(ctrl, u);
    PortNumber(ctrl, u);
    TargetCut(ctrl, u);
    EndNumber(ctrl, u);
  }

  lemma NoSlashInPort(ctrl: seq<string>, u: SasUnit)
    requires IsSas(ctrl, u)
    ensures '/' !in u.port
  {
    hide Others, PastFc;
  }

  /** A unit behind a SAS adapter on pci, to the identifier printed. */
  lemma SasDisk(fs: Sysfs, bus: string, slots: seq<string>, slot: string, u: SasUnit, n: nat, tape: Option<string>)
    requires IsBusNumber(bus) && Clear(slots + [slot]) && IsSas(PciPath(bus, slots + [slot]), u)
    requires IsLeastPhy(fs, PathOf(PortDir(PciPath(bus, slots + [slot]), u)), n) && Address(fs, u, NO_REGS) != ""
    ensures var cs := PciPath(bus, slots + [slot]);
      IdPath(fs, PathOf(SasPath(cs, u)), tape)
      == Some(Dashed("pci-" + slot, Kept(fs, PathOf(cs), SasId(fs, u, n, NO_REGS))) + Tail(tape))
  {
    hide PathOf, SasPath, PortDir, IsSas, Clear, Climb, Step, IsBusNumber, Tail, Kept, SasId, Address, IsPhy, IdPath;
    var cs := PciPath(bus, slots + [slot]);
    var dev := PathOf(SasPath(cs, u));
    SasSpelled(fs, dev, cs, u, StartAt(dev));
    AboveIs(cs, u);
    FirstRound(fs, dev, StartAt(dev));
    FromPci(fs, dev, bus, slots, slot, Step(fs, dev, StartAt(dev)));
    PrintedIs(fs, dev, Climb(fs, dev, StartAt(dev)).value, tape);
  }
}

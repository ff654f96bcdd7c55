/** The identifiers of Fibre Channel, firewire, iSCSI and S/390 devices, spelt out. */
module Endpoints {
  import opened Text
  import opened Glob
  import opened Lun
  import opened PathId
  import opened Climbing
  import opened Identity
  import opened Paths
  import opened Hardware

  // ---------- what comes first in the case ----------

  /** No arm before Fibre Channel's applies. */
  predicate PastCss(cs: seq<string>) {
    Others(cs, "ide") && Others(cs, "css0")
  }

  lemma PastCssConcat(a: seq<string>, b: seq<string>)
    ensures PastCss(a + b) <==> PastCss(a) && PastCss(b)
  {
    hide Others;
    OthersConcat(a, b, "ide");
    OthersConcat(a, b, "css0");
  }

  /** The components of a SCSI target and unit bring in no arm before that of scsi, and are no hosts. */
  lemma UnitPathIsPast(a: Addr)
    ensures var cs := [TargetPart(a)] + [UnitPart(a)];
      Calm(cs) && Others(cs, "host") && '/' !in TargetPart(a) && '/' !in UnitPart(a)
  {
    hide Others, TargetPart, UnitPart;
    AddrParts(a);
    CalmByFirst(TargetPart(a));
    NumericOne(UnitPart(a));
    OneOther(TargetPart(a), "host", 0);
    EarlyConcat([TargetPart(a)], [UnitPart(a)]);
    OthersConcat([TargetPart(a)], [UnitPart(a)], "host");
  }

  /** The LUN, as the arms read it from the last component. */
  lemma LunIs(up: string, a: Addr)
    ensures AfterLast(":", UnitPart(a)) == Dec(a.lun) && AfterLast(":", up + "/" + UnitPart(a)) == Dec(a.lun)
  {
    hide Dec, AfterLast;
    var x := Dec(a.host) + ":" + Dec(a.channel) + ":" + Dec(a.id);
    assert UnitPart(a) == x + ":" + Dec(a.lun);
    DecHasNo(a.lun, ':');
    AfterLastSign(':', x, Dec(a.lun));
    AfterLastSign(':', up + "/" + x, Dec(a.lun));
    assert up + "/" + UnitPart(a) == up + "/" + x + ":" + Dec(a.lun);
  }

  lemma AfterLastSign(c: char, x: string, y: string)
    requires c != '#' && c !in y
    ensures AfterLast([c], x + [c] + y) == y
  {
    var s := x + [c] + y;
    forall j | |x| < j <= |s|
      ensures !At([c], s[j..])
    {
      assert j < |s| ==> s[j..][0] == y[j - |x| - 1] && y[j - |x| - 1] in y;
    }
    assert s[|x|..][0] == c;
    LastAtIs([c], s, |x|);
    assert s[|x| + 1..] == y;
  }

  // ---------- Fibre Channel ----------

  function RportPart(a: Addr, r: nat): string {
    "rport-" + (Dec(a.host) + ":" + Dec(a.channel) + "-" + Dec(r))
  }

  /** The directory of the target of remote port `r`. */
  function FcTarget(ctrl: seq<string>, a: Addr, r: nat): seq<string> {
    ctrl + [HostPart(a)] + ([RportPart(a, r)] + [TargetPart(a)])
  }

  function FcPath(ctrl: seq<string>, a: Addr, r: nat): seq<string> {
    FcTarget(ctrl, a, r) + [UnitPart(a)]
  }

  lemma RportIsPast(a: Addr, r: nat)
    ensures PastCss([RportPart(a, r)]) && Others([RportPart(a, r)], "host") && '/' !in RportPart(a, r)
  {
    hide Dec;
    DecHasNo(a.host, '/');
    DecHasNo(a.channel, '/');
    DecHasNo(r, '/');
    OneOther(RportPart(a, r), "ide", 0);
    OneOther(RportPart(a, r), "css0", 0);
    OneOther(RportPart(a, r), "host", 0);
  }

  lemma FcText(ctrl: seq<string>, a: Addr, r: nat)
    ensures var more := [RportPart(a, r)] + [TargetPart(a)];
      && PathOf(FcTarget(ctrl, a, r)) == PathOf(ctrl) + ("/" + HostPart(a) + PathOf(more))
      && PathOf(more) == "/" + RportPart(a, r) + ("/" + TargetPart(a))
      && PathOf(FcPath(ctrl, a, r)) == PathOf(FcTarget(ctrl, a, r)) + "/" + UnitPart(a)
  {
    hide PathOf, HostPart, RportPart, TargetPart, UnitPart;
    var more := [RportPart(a, r)] + [TargetPart(a)];
    PathOfMore(ctrl, HostPart(a));
    PathOfConcat(ctrl + [HostPart(a)], more);
    PathOfOne(RportPart(a, r));
    PathOfMore([RportPart(a, r)], TargetPart(a));
    PathOfMore(FcTarget(ctrl, a, r), UnitPart(a));
    assert PathOf(ctrl) + "/" + HostPart(a) + PathOf(more) == PathOf(ctrl) + ("/" + HostPart(a) + PathOf(more));
    assert "/" + RportPart(a, r) + "/" + TargetPart(a) == "/" + RportPart(a, r) + ("/" + TargetPart(a));
  }

  lemma RportMatches(a: Addr, r: nat, tail: string)
    requires tail != "" && tail[0] == '/'
    ensures InOrder(FC, "/" + RportPart(a, r) + tail)
  {
    hide InOrder, Dec;
    var ws := FC;
    assert ws[3..] == ["/"] && ws[1..][1..] == ws[2..] && ws[2..][1..] == ws[3..];
    SlashMatches(tail);
    var x, y := ":" + Dec(a.channel), "-" + Dec(r);
    AtDigit(ws[2..], "-", Dec(r), tail);
    AtDigit(ws[1..], ":", Dec(a.channel), y + tail);
    AtDigit(ws, "/rport-", Dec(a.host), x + (y + tail));
    assert "/rport-" + Dec(a.host) + (x + (y + tail)) == "/" + RportPart(a, r) + tail;
  }

  /** A unit behind a remote port takes the fc arm, before those of its host and its pci device. */
  lemma FcArm(ctrl: seq<string>, a: Addr, r: nat)
    requires PastCss(ctrl)
    ensures ArmOf(PathOf(FcPath(ctrl, a, r))).Fc?
  {
    hide InOrder, PathOf, Others, FcPath;
    FcIsPast(ctrl, a, r);
    NotIde(FcPath(ctrl, a, r));
    NotCss(FcPath(ctrl, a, r));
    FcMatches(ctrl, a, r);
  }

  lemma FcIsPast(ctrl: seq<string>, a: Addr, r: nat)
    requires PastCss(ctrl)
    ensures PastCss(FcPath(ctrl, a, r))
  {
    hide Others, HostPart, RportPart, TargetPart, UnitPart;
    AddrIsCalm(a);
    var h, p, y, z := [HostPart(a)], [RportPart(a, r)], [TargetPart(a)], [UnitPart(a)];
    EarlyConcat(h + y, z);
    EarlyConcat(h, y);
    RportIsPast(a, r);
    PastCssConcat(ctrl, h);
    PastCssConcat(p, y);
    PastCssConcat(ctrl + h, p + y);
    PastCssConcat(ctrl + h + (p + y), z);
  }

  lemma FcMatches(ctrl: seq<string>, a: Addr, r: nat)
    ensures InOrder(FC, PathOf(FcPath(ctrl, a, r)))
  {
    hide InOrder, PathOf, FcPath, FcTarget, HostPart, RportPart, TargetPart, UnitPart;
    FcText(ctrl, a, r);
    var tail := "/" + TargetPart(a) + "/" + UnitPart(a);
    RportMatches(a, r, tail);
    var up := PathOf(ctrl) + "/" + HostPart(a);
    InOrderAfter(FC, up, "/" + RportPart(a, r) + tail);
    assert up + ("/" + RportPart(a, r) + tail) == PathOf(FcPath(ctrl, a, r));
  }

  lemma FcParts(ctrl: seq<string>, a: Addr, r: nat)
    ensures var dev, target := PathOf(FcPath(ctrl, a, r)), PathOf(FcTarget(ctrl, a, r));
      Base(dev) == UnitPart(a) && Dir(dev) == target && Base(target) == TargetPart(a) && |target| < |dev|
  {
    hide PathOf, HostPart, RportPart, TargetPart, UnitPart, Dir, Base;
    UnitPathIsPast(a);
    DirOf(FcTarget(ctrl, a, r), UnitPart(a));
    DirOf(ctrl + [HostPart(a)] + [RportPart(a, r)], TargetPart(a));
    assert ctrl + [HostPart(a)] + [RportPart(a, r)] + [TargetPart(a)] == FcTarget(ctrl, a, r);
    FcText(ctrl, a, r);
  }

  /** Cutting before the last host leads out to the controller. */
  lemma HostCut(ctrl: string, a: Addr, more: seq<string>)
    requires Others(more, "host")
    ensures CutLast("/host#", ctrl + ("/" + HostPart(a) + PathOf(more))) == ctrl
  {
    hide PathOf, Others, At, CutLast, Dec;
    DecHasNo(a.host, '/');
    HostWord(a, PathOf(more));
    assert "/" + "host" <= "/host#";
    LastIsAt("host", "/host#", ctrl, HostPart(a), more);
  }

  lemma HostWord(a: Addr, tail: string)
    ensures At("/host#", "/" + HostPart(a) + tail)
  {
    hide Dec;
    WordDigit("/host", Dec(a.host));
    assert "/host" + "#" == "/host#";
    assert forall k :: 0 <= k < |"/host" + Dec(a.host)| ==> ("/" + HostPart(a) + tail)[k] == ("/host" + Dec(a.host))[k];
  }

  lemma FcCut(ctrl: seq<string>, a: Addr, r: nat)
    ensures CutLast("/host#", PathOf(FcTarget(ctrl, a, r))) == PathOf(ctrl)
  {
    hide PathOf, Others, HostPart, RportPart, TargetPart, FcTarget, CutLast;
    FcText(ctrl, a, r);
    RportIsPast(a, r);
    UnitPathIsPast(a);
    OthersConcat([TargetPart(a)], [UnitPart(a)], "host");
    OthersConcat([RportPart(a, r)], [TargetPart(a)], "host");
    HostCut(PathOf(ctrl), a, [RportPart(a, r)] + [TargetPart(a)]);
  }

  /** The file with the name of the remote port. */
  function PortName(ctrl: seq<string>, a: Addr, r: nat): string {
    PathOf(FcTarget(ctrl, a, r)) + "/fc_transport/" + TargetPart(a) + "/port_name"
  }

  /** The fc arm: the port's name and the LUN, whatever was collected; without a name, the end. */
  lemma FcSpelled(fs: Sysfs, start: string, ctrl: seq<string>, a: Addr, r: nat, w: Walk)
    requires PastCss(ctrl) && w.dev == PathOf(FcPath(ctrl, a, r))
    ensures var v, wwpn := Step(fs, start, w), Read(fs, PortName(ctrl, a, r), w.regs.wwpn);
      && v.status == w.status
      && if wwpn == "" then v.dev == "" && v.id == w.id && v.result == 1
         else v.dev == PathOf(ctrl) && v.id == "fc-" + wwpn + ":" + LunText(a.lun) && v.result == 0
  {
    hide PathOf, FcPath, FcTarget, ArmOf, Base, Dir, AfterLast, CutLast, TestNumber, UnitPart, TargetPart, LunText;
    FcArm(ctrl, a, r);
    FcParts(ctrl, a, r);
    FcCut(ctrl, a, r);
    LunIs("", a);
    DecNumber(a.lun);
    assert PathOf(FcTarget(ctrl, a, r)) + "/fc_transport/" + TargetPart(a) + "/port_name" == PortName(ctrl, a, r);
  }

  /** A unit behind a Fibre Channel adapter on pci, to the identifier printed. */
  lemma FcDisk(fs: Sysfs, bus: string, slots: seq<string>, slot: string, a: Addr, r: nat, tape: Option<string>)
    requires Behind(bus, slots + [slot]) && Read(fs, PortName(PciPath(bus, slots + [slot]), a, r), "") != ""
    ensures var cs := PciPath(bus, slots + [slot]);
      IdPath(fs, PathOf(FcPath(cs, a, r)), tape)
      == Some(Dashed("pci-" + slot, Kept(fs, PathOf(cs),
                "fc-" + Read(fs, PortName(cs, a, r), "") + ":" + LunText(a.lun))) + Tail(tape))
  {
    hide PathOf, FcPath, PortName, Others, Climb, Step, IsBusNumber, Tail, Kept, LunText, Read, IdPath;
    var cs := PciPath(bus, slots + [slot]);
    var dev := PathOf(FcPath(cs, a, r));
    PciIsClear(bus, slots + [slot]);
    FcSpelled(fs, dev, cs, a, r, StartAt(dev));
    FcLonger(cs, a, r);
    FirstRound(fs, dev, StartAt(dev));
    FromPci(fs, dev, bus, slots, slot, Step(fs, dev, StartAt(dev)));
    PrintedIs(fs, dev, Climb(fs, dev, StartAt(dev)).value, tape);
  }

  lemma FcLonger(ctrl: seq<string>, a: Addr, r: nat)
    ensures |PathOf(ctrl)| < |PathOf(FcPath(ctrl, a, r))|
  {
    hide PathOf, FcPath, FcTarget, HostPart, RportPart, TargetPart, UnitPart;
    FcText(ctrl, a, r);
  }

  // ---------- firewire ----------

  function FirewirePath(ctrl: seq<string>, h: nat, below: seq<string>): seq<string> {
    ctrl + ["fw-host" + Dec(h)] + below
  }

  lemma FirewireText(ctrl: seq<string>, h: nat, below: seq<string>)
    ensures PathOf(FirewirePath(ctrl, h, below)) == PathOf(ctrl) + ("/" + ("fw-host" + Dec(h)) + PathOf(below))
  {
    hide PathOf, Dec;
    PathOfMore(ctrl, "fw-host" + Dec(h));
    PathOfConcat(ctrl + ["fw-host" + Dec(h)], below);
    assert PathOf(ctrl) + "/" + ("fw-host" + Dec(h)) + PathOf(below)
      == PathOf(ctrl) + ("/" + ("fw-host" + Dec(h)) + PathOf(below));
  }

  /** A node below a firewire host takes the firewire arm. */
  lemma FirewireArm(ctrl: seq<string>, h: nat, below: seq<string>)
    requires Early(ctrl) && Early(below) && below != []
    ensures ArmOf(PathOf(FirewirePath(ctrl, h, below))).Firewire?
  {
    hide InOrder, PathOf, Others, FirewirePath;
    FirewireIsEarly(ctrl, h, below);
    NotEarly(FirewirePath(ctrl, h, below));
    FirewireMatches(ctrl, h, below);
  }

  lemma FirewireIsEarly(ctrl: seq<string>, h: nat, below: seq<string>)
    requires Early(ctrl) && Early(below)
    ensures Early(FirewirePath(ctrl, h, below))
  {
    hide Others, Dec;
    var c := "fw-host" + Dec(h);
    DecHasNo(h, '/');
    OneOther(c, "ide", 0);
    OneOther(c, "css0", 0);
    OneOther(c, "rport-", 0);
    OneOther(c, "end_device-", 0);
    EarlyConcat(ctrl, [c]);
    EarlyConcat(ctrl + [c], below);
  }

  lemma FirewireMatches(ctrl: seq<string>, h: nat, below: seq<string>)
    requires below != []
    ensures InOrder(FIREWIRE, PathOf(FirewirePath(ctrl, h, below)))
  {
    hide InOrder, PathOf, FirewirePath, Dec;
    FirewireText(ctrl, h, below);
    PathBegins(below);
    var tail := PathOf(below);
    assert FIREWIRE[1..] == ["/"];
    SlashMatches(tail);
    AtDigit(FIREWIRE, "/fw-host", Dec(h), tail);
    assert "/fw-host" + Dec(h) + tail == "/" + ("fw-host" + Dec(h)) + tail;
    InOrderAfter(FIREWIRE, PathOf(ctrl), "/" + ("fw-host" + Dec(h)) + tail);
  }

  /** The firewire arm: the node's identifier, whatever was collected; without one, nothing moves. */
  lemma FirewireSpelled(fs: Sysfs, start: string, ctrl: seq<string>, h: nat, below: seq<string>, w: Walk)
    requires Early(ctrl) && Early(below) && below != [] && Others(below, "fw-host")
    requires w.dev == PathOf(FirewirePath(ctrl, h, below))
    ensures var v, id := Step(fs, start, w), Read(fs, w.dev + "/ieee1394_id", w.regs.ieeeId);
      && v.status == w.status
      && if id == "" then v.dev == w.dev && v.id == w.id && v.result == 1
         else v.dev == PathOf(ctrl) && v.id == "ieee1394-0x" + id && v.result == 0
  {
    hide PathOf, FirewirePath, ArmOf, CutLast, Others, Early;
    FirewireArm(ctrl, h, below);
    FirewireCut(ctrl, h, below);
  }

  lemma FirewireCut(ctrl: seq<string>, h: nat, below: seq<string>)
    requires Others(below, "fw-host")
    ensures CutLast("/fw-host", PathOf(FirewirePath(ctrl, h, below))) == PathOf(ctrl)
    ensures |PathOf(ctrl)| < |PathOf(FirewirePath(ctrl, h, below))|
  {
    hide PathOf, FirewirePath, CutLast, Others, Dec;
    FirewireText(ctrl, h, below);
    DecHasNo(h, '/');
    assert "/" + "fw-host" == "/fw-host";
    LastWordOf("fw-host", PathOf(ctrl), Dec(h), below);
  }

  /** A node behind a firewire host on pci, to the identifier printed. */
  lemma FirewireDisk(fs: Sysfs, bus: string, slots: seq<string>, slot: string, h: nat, below: seq<string>,
                     tape: Option<string>)
    requires Behind(bus, slots + [slot]) && Early(below) && below != [] && Others(below, "fw-host")
    requires Read(fs, PathOf(FirewirePath(PciPath(bus, slots + [slot]), h, below)) + "/ieee1394_id", "") != ""
    ensures var cs := PciPath(bus, slots + [slot]);
      var dev := PathOf(FirewirePath(cs, h, below));
      IdPath(fs, dev, tape)
      == Some(Dashed("pci-" + slot, Kept(fs, PathOf(cs), "ieee1394-0x" + Read(fs, dev + "/ieee1394_id", "")))
              + Tail(tape))
  {
    hide PathOf, FirewirePath, Others, Climb, Step, IsBusNumber, Tail, Kept, Read, Early, IdPath;
    var cs := PciPath(bus, slots + [slot]);
    var dev := PathOf(FirewirePath(cs, h, below));
    PciIsClear(bus, slots + [slot]);
    FirewireSpelled(fs, dev, cs, h, below, StartAt(dev));
    FirewireCut(cs, h, below);
    FirstRound(fs, dev, StartAt(dev));
    FromPci(fs, dev, bus, slots, slot, Step(fs, dev, StartAt(dev)));
    PrintedIs(fs, dev, Climb(fs, dev, StartAt(dev)).value, tape);
  }

  // ---------- iSCSI ----------

  function SessionPart(s: nat): string {
    "session" + Dec(s)
  }

  function IscsiPath(up: seq<string>, s: nat, a: Addr): seq<string> {
    up + [SessionPart(s)] + ([TargetPart(a)] + [UnitPart(a)])
  }

  lemma IscsiText(up: seq<string>, s: nat, a: Addr)
    ensures var dir, dev := PathOf(up + [SessionPart(s)]), PathOf(IscsiPath(up, s, a));
      && dir == PathOf(up) + "/" + SessionPart(s)
      && dev == dir + ("/" + TargetPart(a) + "/" + UnitPart(a))
      && dev == PathOf(up + [SessionPart(s)] + [TargetPart(a)]) + "/" + UnitPart(a)
  {
    hide PathOf, SessionPart, TargetPart, UnitPart;
    PathOfMore(up, SessionPart(s));
    PathOfMore(up + [SessionPart(s)], TargetPart(a));
    PathOfMore(up + [SessionPart(s)] + [TargetPart(a)], UnitPart(a));
    assert up + [SessionPart(s)] + [TargetPart(a)] + [UnitPart(a)] == IscsiPath(up, s, a);
    var dir := PathOf(up + [SessionPart(s)]);
    assert dir + "/" + TargetPart(a) + "/" + UnitPart(a) == dir + ("/" + TargetPart(a) + "/" + UnitPart(a));
  }

  /** A unit behind a session takes the iscsi arm, before that of its host. */
  lemma IscsiArm(up: seq<string>, s: nat, a: Addr)
    requires Early(up) && Others(up, "fw-host")
    ensures ArmOf(PathOf(IscsiPath(up, s, a))).Iscsi?
  {
    hide InOrder, PathOf, Others, IscsiPath;
    IscsiIsEarly(up, s, a);
    NotEarly(IscsiPath(up, s, a));
    NotFirewireOrIscsi(IscsiPath(up, s, a));
    IscsiMatches(up, s, a);
  }

  lemma IscsiIsEarly(up: seq<string>, s: nat, a: Addr)
    requires Early(up) && Others(up, "fw-host")
    ensures Early(IscsiPath(up, s, a)) && Others(IscsiPath(up, s, a), "fw-host")
  {
    hide Others, Dec, TargetPart, UnitPart;
    var c := SessionPart(s);
    SessionIsOther(s);
    UnitPathIsPast(a);
    var more := [TargetPart(a)] + [UnitPart(a)];
    EarlyConcat(up, [c]);
    EarlyConcat(up + [c], more);
    OthersConcat(up, [c], "fw-host");
    OthersConcat(up + [c], more, "fw-host");
  }

  lemma SessionIsOther(s: nat)
    ensures var c := SessionPart(s);
      Early([c]) && Others([c], "fw-host") && Others([c], "target") && '/' !in c
  {
    hide Others, Dec;
    var c := SessionPart(s);
    DecHasNo(s, '/');
    OneOther(c, "ide", 0);
    OneOther(c, "css0", 0);
    OneOther(c, "rport-", 0);
    OneOther(c, "end_device-", 0);
    OneOther(c, "fw-host", 0);
    OneOther(c, "target", 0);
  }

  lemma IscsiMatches(up: seq<string>, s: nat, a: Addr)
    ensures InOrder(ISCSI, PathOf(IscsiPath(up, s, a)))
  {
    hide InOrder, PathOf, IscsiPath, Dec, TargetPart, UnitPart;
    IscsiText(up, s, a);
    var tail := TargetPart(a) + "/" + UnitPart(a);
    assert ISCSI[1..] == ["/"];
    SlashMatches("/" + tail);
    AtDigit(ISCSI, "/session", Dec(s), "/" + tail);
    InOrderAfter(ISCSI, PathOf(up), "/session" + Dec(s) + ("/" + tail));
    assert PathOf(up) + ("/session" + Dec(s) + ("/" + tail)) == PathOf(IscsiPath(up, s, a));
  }

  lemma IscsiParts(up: seq<string>, s: nat, a: Addr)
    requires Others(up, "target")
    ensures var dir, dev := PathOf(up + [SessionPart(s)]), PathOf(IscsiPath(up, s, a));
      CutFirst("/target", dev) == dir && Base(dir) == SessionPart(s) && AfterLast(":", dev) == Dec(a.lun)
  {
    hide PathOf, Others, SessionPart, UnitPart, IscsiPath, CutFirst, Base, At, AfterLast, Dec;
    SessionIsOther(s);
    DirOf(up, SessionPart(s));
    IscsiText(up, s, a);
    OthersConcat(up, [SessionPart(s)], "target");
    var rest := "/" + TargetPart(a) + "/" + UnitPart(a);
    TargetBegins(a, "/" + UnitPart(a));
    assert "/" + TargetPart(a) + ("/" + UnitPart(a)) == rest && "/" + "target" == "/target";
    FirstIsAt("target", "/target", up + [SessionPart(s)], rest);
    LunIs(PathOf(up + [SessionPart(s)] + [TargetPart(a)]), a);
  }

  lemma TargetBegins(a: Addr, tail: string)
    ensures At("/target", "/" + TargetPart(a) + tail)
  {
    hide Dec;
    var more := Dec(a.host) + ":" + Dec(a.channel) + ":" + Dec(a.id);
    StartsWith("/target", more + tail);
    assert "/target" + (more + tail) == "/" + TargetPart(a) + tail;
  }

  /** A connection entry numbered 0. */
  predicate IsConnection(entry: string) {
    "connection" <= entry && entry[|entry| - 2..] == ":0"
  }

  /** The entry is the last connection listed with number 0. */
  ghost predicate IsLastConnection(entries: seq<string>, entry: string) {
    exists i :: 0 <= i < |entries| && entries[i] == entry && IsConnection(entry)
      && forall j :: i < j < |entries| ==> !IsConnection(entries[j])
  }

  lemma EndsInZero(s: string)
    requires |s| >= 2
    ensures AfterLast(":", s) == "0" <==> s[|s| - 2..] == ":0"
  {
    var n := |s| - 2;
    if s[n..] == ":0" {
      assert s == s[..n] + ":" + "0";
      AfterLastSign(':', s[..n], "0");
    }
    if AfterLast(":", s) == "0" {
      var i := LastAt(":", s);
      assert i.Some? && s[i.value..][0] == ':' && i.value == n;
    }
  }

  lemma EmptyIsNone()
    ensures !IsConnection("")
  {
    assert |"connection"| == 10;
  }

  lemma IsTaken(dir: string, entry: string)
    ensures "connection" <= entry && AfterLast(":", dir + "/" + entry) == "0" <==> IsConnection(entry)
  {
    hide AfterLast;
    if "connection" <= entry {
      EndsInZero(dir + "/" + entry);
      assert (dir + "/" + entry)[|dir + "/" + entry| - 2..] == entry[|entry| - 2..];
    }
  }

  /** The connection the arm uses is the last one listed with number 0, and none exactly if there is none. */
  lemma {:induction false} ConnectionIsLast(dir: string, entries: seq<string>)
    ensures var c := Connection(dir, entries);
      if c == "" then forall e :: e in entries ==> !IsConnection(e) else IsLastConnection(entries, c)
  {
    hide AfterLast, IsConnection;
    if entries != [] {
      var front, last := entries[..|entries| - 1], entries[|entries| - 1];
      assert entries == front + [last];
      ConnectionIsLast(dir, front);
      IsTaken(dir, last);
      EmptyIsNone();
      var c := Connection(dir, entries);
      if c != "" && c != last {
        var i :| 0 <= i < |front| && front[i] == c && forall j :: i < j < |front| ==> !IsConnection(front[j]);
        assert entries[i] == c;
      }
    }
  }

  /** The files the arm reads. */
  function SessionFile(s: nat): string {
    "/sys/class/iscsi_session/" + SessionPart(s)
  }

  function ConnectionFile(conn: string): string {
    "/sys/class/iscsi_connection/" + conn
  }

  /** The iscsi arm: address, port, target name and LUN, whatever was collected, and the end. */
  lemma IscsiSpelled(fs: Sysfs, start: string, up: seq<string>, s: nat, a: Addr, w: Walk)
    requires Early(up) && Others(up, "fw-host") && Others(up, "target") && w.dev == PathOf(IscsiPath(up, s, a))
    ensures var v, entries := Step(fs, start, w), List(fs, PathOf(up + [SessionPart(s)]));
      var name := Read(fs, SessionFile(s) + "/targetname", "");
      && v.dev == "" && v.status == w.status
      && (if exists e :: IsLastConnection(entries, e) && SessionFile(s) in fs.dirs && ConnectionFile(e) in fs.dirs
               && name != "" && Read(fs, ConnectionFile(e) + "/persistent_address", "") != ""
          then v.result == 0 else v.result == 1 && v.id == w.id)
      && forall e :: IsLastConnection(entries, e) && v.result == 0 ==>
           v.id == "ip-" + Read(fs, ConnectionFile(e) + "/persistent_address", "")
                   + ":" + Read(fs, ConnectionFile(e) + "/persistent_port", "")
                   + "-iscsi-" + name + "-lun-" + Dec(a.lun)
  {
    hide PathOf, IscsiPath, ArmOf, Others, Early, CutFirst, Base, AfterLast, Read, SessionPart, IsLastConnection, Dec;
    hide List;
    IscsiArm(up, s, a);
    IscsiParts(up, s, a);
    var dir := PathOf(up + [SessionPart(s)]);
    var conn := Connection(dir, List(fs, dir));
    ConnectionIs(dir, List(fs, dir));
    assert conn != "" ==> IsLastConnection(List(fs, dir), conn);
    assert "/sys/class/iscsi_session/" + SessionPart(s) == SessionFile(s);
    assert "/sys/class/iscsi_connection/" + conn == ConnectionFile(conn);
  }

  lemma ConnectionIs(dir: string, entries: seq<string>)
    ensures forall e :: IsLastConnection(entries, e) <==> e != "" && Connection(dir, entries) == e
  {
    hide Connection, IsConnection;
    ConnectionIsLast(dir, entries);
    EmptyIsNone();
    forall e | IsLastConnection(entries, e)
      ensures Connection(dir, entries) == e && e != ""
    {
      OneLast(entries, e, Connection(dir, entries));
    }
  }

  lemma OneLast(entries: seq<string>, e: string, f: string)
    requires IsLastConnection(entries, e)
    requires IsLastConnection(entries, f) || (f == "" && forall e :: e in entries ==> !IsConnection(e))
    ensures e == f
  {
    hide IsConnection;
    var i :| 0 <= i < |entries| && entries[i] == e && IsConnection(e)
      && forall j :: i < j < |entries| ==> !IsConnection(entries[j]);
  }

  // ---------- S/390 ----------

  function CssPath(up: seq<string>, mids: seq<string>, name: string): seq<string> {
    up + ["css0"] + (mids + [name])
  }

  lemma CssText(up: seq<string>, mids: seq<string>, name: string)
    ensures PathOf(CssPath(up, mids, name)) == PathOf(up) + ("/css0" + PathOf(mids + [name]))
    ensures PathOf(mids + [name]) != "" && PathOf(mids + [name])[0] == '/'
  {
    hide PathOf;
    PathOfMore(up, "css0");
    PathOfConcat(up + ["css0"], mids + [name]);
    PathBegins(mids + [name]);
    assert PathOf(up) + "/" + "css0" + PathOf(mids + [name]) == PathOf(up) + ("/css0" + PathOf(mids + [name]));
  }

  /** What stands below the channel subsystem takes its arm, before every other arm but that of ide. */
  lemma CssArm(up: seq<string>, mids: seq<string>, name: string)
    requires Others(up, "ide") && Others(mids + [name], "ide")
    ensures ArmOf(PathOf(CssPath(up, mids, name))).Css?
  {
    hide InOrder, PathOf, Others;
    var cs := CssPath(up, mids, name);
    var rest := PathOf(mids + [name]);
    OneOther("css0", "ide", 0);
    OthersConcat(up, ["css0"], "ide");
    OthersConcat(up + ["css0"], mids + [name], "ide");
    NotIde(cs);
    CssText(up, mids, name);
    NothingMatches(rest[1..]);
    assert ["/css0/"][1..] == [];
    AtText(["/css0/"], rest[1..]);
    assert "/css0/" + rest[1..] == "/css0" + rest;
    InOrderAfter(["/css0/"], PathOf(up), "/css0" + rest);
  }

  /** The S/390 arm: adapter, port and LUN if all three files of the device give them, else the name; and the end. */
  lemma CssSpelled(fs: Sysfs, start: string, up: seq<string>, mids: seq<string>, name: string, w: Walk)
    requires Others(up, "ide") && Others(mids + [name], "ide") && w.dev == PathOf(CssPath(up, mids, name))
    ensures var v := Step(fs, start, w);
      var wwpn, lun := Read(fs, start + "/wwpn", w.regs.wwpn), Read(fs, start + "/fcp_lun", w.regs.lun);
      var bus := Read(fs, start + "/hba_id", "");
      && v.dev == "" && v.result == 0 && v.status == w.status
      && v.id == if bus == "" || wwpn == "" || lun == "" then "ccw-" + name
                 else "ccw-" + bus + "-zfcp-" + wwpn + ":" + lun
  {
    hide PathOf, ArmOf, Others, Base, Read;
    CssArm(up, mids, name);
    NameHasNoSlash(mids, name, "ide");
    DirOf(up + ["css0"] + mids, name);
    assert up + ["css0"] + mids + [name] == CssPath(up, mids, name);
  }

  lemma NameHasNoSlash(mids: seq<string>, name: string, v: string)
    requires Others(mids + [name], v)
    ensures '/' !in name
  {
    assert (mids + [name])[|mids|] == name;
  }

  /** A DASD, of which none of the three files is there, to the identifier printed. */
  lemma Dasd(fs: Sysfs, up: seq<string>, mids: seq<string>, name: string, tape: Option<string>)
    requires Others(up, "ide") && Others(mids + [name], "ide")
    requires PathOf(CssPath(up, mids, name)) + "/hba_id" !in fs.attrs
    ensures IdPath(fs, PathOf(CssPath(up, mids, name)), tape) == Some("ccw-" + name + Tail(tape))
  {
    hide PathOf, CssPath, Others, Step, Tail, IdPath, Climb;
    var dev := PathOf(CssPath(up, mids, name));
    CssSpelled(fs, dev, up, mids, name, StartAt(dev));
    CssText(up, mids, name);
    LastRound(fs, dev, StartAt(dev));
    PrintedIs(fs, dev, Step(fs, dev, StartAt(dev)), tape);
  }

  lemma LastRound(fs: Sysfs, start: string, w: Walk)
    requires !Finished(w) && Finished(Step(fs, start, w))
    ensures Climb(fs, start, w) == Some(Step(fs, start, w))
  {
    hide Step;
  }

  /** A unit behind an iSCSI session, to the identifier printed. */
  lemma IscsiDisk(fs: Sysfs, up: seq<string>, s: nat, a: Addr, conn: string, tape: Option<string>)
    requires Early(up) && Others(up, "fw-host") && Others(up, "target")
    requires IsLastConnection(List(fs, PathOf(up + [SessionPart(s)])), conn)
    requires SessionFile(s) in fs.dirs && ConnectionFile(conn) in fs.dirs
    ensures var name := Read(fs, SessionFile(s) + "/targetname", "");
      var address := Read(fs, ConnectionFile(conn) + "/persistent_address", "");
      IdPath(fs, PathOf(IscsiPath(up, s, a)), tape)
      == if name == "" || address == "" then None
         else Some("ip-" + address + ":" + Read(fs, ConnectionFile(conn) + "/persistent_port", "")
                   + "-iscsi-" + name + "-lun-" + Dec(a.lun) + Tail(tape))
  {
    hide PathOf, Others, Step, Tail, Climb, SessionFile, ConnectionFile, SessionPart, Read, IsLastConnection;
    hide Early, Dec;
    var dev := PathOf(IscsiPath(up, s, a));
    IscsiSpelled(fs, dev, up, s, a, StartAt(dev));
    PathBegins(IscsiPath(up, s, a));
    ConnectionIs(PathOf(up + [SessionPart(s)]), List(fs, PathOf(up + [SessionPart(s)])));
    LastRound(fs, dev, StartAt(dev));
  }
}

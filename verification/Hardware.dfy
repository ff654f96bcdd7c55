/**
 The identifiers of the kinds of devices path_id knows, spelt out: which arm each path
 takes, and what is printed for it.
 */
module Hardware {
  import opened Text
  import opened Glob
  import opened Lun
  import opened PathId
  import opened Climbing
  import opened Identity
  import opened Paths

  // ---------- counting from the first ----------

  /** The entry is the kind and the number `k`. */
  predicate NumberedBy(kind: string, entry: string, k: nat) {
    kind <= entry && entry[|kind|..] != "" && AllDigits(entry[|kind|..]) && Value(entry[|kind|..]) == k
  }

  /** `m` is the least of `n` and the numbers of all listed entries of the kind. */
  ghost predicate IsFirst(kind: string, entries: seq<string>, n: nat, m: nat) {
    && m <= n
    && (m == n || exists e :: e in entries && NumberedBy(kind, e, m))
    && forall e, k: nat :: e in entries && NumberedBy(kind, e, k) ==> m <= k
  }

  lemma PortIsNumber(kind: string, entry: string, k: nat)
    requires '#' !in kind
    ensures PortOf(kind, entry) == Some(k) <==> NumberedBy(kind, entry, k)
  {
    var w := kind + "#";
    assert forall i :: 0 <= i < |kind| ==> w[i] == kind[i] && kind[i] in kind;
    assert w[|kind|] == '#';
    assert |kind| < |entry| ==> entry[|kind|..][0] == entry[|kind|];
  }

  /** There always is a first number. */
  lemma FirstExists(kind: string, entries: seq<string>, n: nat)
    requires '#' !in kind
    ensures IsFirst(kind, entries, n, PortOffset(kind, n, entries))
  {
    hide PortOf, PortOffset, NumberedBy;
    PortOffsetIsMin(kind, n, entries);
    var o := PortOffset(kind, n, entries);
    if o != n {
      var i :| 0 <= i < |entries| && PortOf(kind, entries[i]) == Some(o);
      PortIsNumber(kind, entries[i], o);
    }
    forall e, k: nat | e in entries && NumberedBy(kind, e, k)
      ensures o <= k
    {
      PortIsNumber(kind, e, k);
      var i :| 0 <= i < |entries| && entries[i] == e;
      assert PortOf(kind, entries[i]) == Some(k);
    }
  }

  /** The relative port, from the first number. */
  lemma CountsFromFirst(kind: string, entries: seq<string>, n: nat, m: nat)
    requires '#' !in kind && IsFirst(kind, entries, n, m)
    ensures RelativePort(kind, n, entries) == n - m
  {
    hide PortOf, PortOffset, NumberedBy;
    PortOffsetIsMin(kind, n, entries);
    var o := PortOffset(kind, n, entries);
    if m != n {
      var e :| e in entries && NumberedBy(kind, e, m);
      PortIsNumber(kind, e, m);
      var i :| 0 <= i < |entries| && entries[i] == e;
      assert PortOf(kind, entries[i]) == Some(m);
    }
    if o != n {
      var i :| 0 <= i < |entries| && PortOf(kind, entries[i]) == Some(o);
      PortIsNumber(kind, entries[i], o);
    }
  }

  lemma FirstIsBelow(kind: string, entries: seq<string>, n: nat, m: nat)
    requires IsFirst(kind, entries, n, m)
    ensures m <= n
  {
  }

  /** What a segment and what was collected before it make together. */
  function Dashed(seg: string, id: string): string {
    if id == "" then seg else seg + "-" + id
  }

  // ---------- behind a pci device ----------

  const UP := ["sys", "devices"]

  /** `domain:bus`, of digits where the pattern looks for them. */
  predicate IsBusNumber(bus: string) {
    && '/' !in bus && bus != "" && IsDigit(bus[0])
    && exists i :: 0 < i < |bus| - 1 && bus[i] == ':' && IsDigit(bus[i + 1])
  }

  /** The components of the path of a pci device. */
  function PciPath(bus: string, slots: seq<string>): seq<string> {
    UP + ["pci" + bus] + slots
  }

  /** Components below a pci bus that bring in no arm before pci's. They may well be serio or platform ones. */
  predicate Behind(bus: string, slots: seq<string>) {
    IsBusNumber(bus) && slots != [] && Clear(slots)
  }

  lemma UpIsClear()
    ensures Clear(UP) && Others(UP, "pci") && Others(UP, "serio") && Others(UP, "platform")
  {
    hide Others;
    SysIsClear();
    ClearByFirst("devices");
    OneOther("devices", "pci", 0);
    OneOther("devices", "serio", 0);
    OneOther("devices", "platform", 0);
    EarlyConcat(["sys"], ["devices"]);
    OthersConcat(["sys"], ["devices"], "pci");
    OthersConcat(["sys"], ["devices"], "serio");
    OthersConcat(["sys"], ["devices"], "platform");
    assert ["sys"] + ["devices"] == UP;
  }

  lemma SysIsClear()
    ensures Clear(["sys"]) && Others(["sys"], "pci") && Others(["sys"], "serio") && Others(["sys"], "platform")
  {
    hide Others;
    var c := "sys";
    OneOther(c, "ide", 0);
    OneOther(c, "css0", 0);
    OneOther(c, "rport-", 0);
    OneOther(c, "end_device-", 0);
    OneOther(c, "fw-host", 0);
    OneOther(c, "session", 1);
    OneOther(c, "host", 0);
    OneOther(c, "ttyUSB", 0);
    OneOther(c, "usb", 0);
    OneOther(c, "pci", 0);
    OneOther(c, "serio", 1);
    OneOther(c, "platform", 0);
  }

  lemma BusIsClear(bus: string)
    requires '/' !in bus
    ensures Clear(["pci" + bus])
  {
    hide Clear;
    ClearByFirst("pci" + bus);
  }

  lemma PciIsClear(bus: string, slots: seq<string>)
    requires IsBusNumber(bus) && Clear(slots)
    ensures Clear(PciPath(bus, slots))
  {
    hide Clear;
    UpIsClear();
    BusIsClear(bus);
    EarlyConcat(UP, ["pci" + bus]);
    EarlyConcat(UP + ["pci" + bus], slots);
  }

  lemma PciText(bus: string, slots: seq<string>)
    ensures PathOf(PciPath(bus, slots)) == PathOf(UP) + ("/pci" + bus + PathOf(slots))
  {
    hide PathOf;
    PathOfConcat(UP, ["pci" + bus] + slots);
    PathOfConcat(["pci" + bus], slots);
    PathOfOne("pci" + bus);
    assert UP + (["pci" + bus] + slots) == PciPath(bus, slots);
    assert "/" + ("pci" + bus) == "/pci" + bus;
  }

  lemma BusMatches(bus: string, tail: string)
    requires IsBusNumber(bus)
    ensures InOrder(PCI, "/pci" + bus + tail)
  {
    hide InOrder;
    var i :| 0 < i < |bus| - 1 && bus[i] == ':' && IsDigit(bus[i + 1]);
    assert PCI[1..] == [":#"] && [":#"][1..] == [];
    NothingMatches(tail);
    AtDigit([":#"], ":", bus[i + 1..], tail);
    InOrderAfter([":#"], bus[1..i], ":" + bus[i + 1..] + tail);
    assert bus[1..i] + (":" + bus[i + 1..] + tail) == bus[1..] + tail;
    AtDigit(PCI, "/pci", bus[..1], bus[1..] + tail);
    assert "/pci" + bus[..1] + (bus[1..] + tail) == "/pci" + bus + tail;
  }

  /** Whatever stands below it, a path with a pci bus and no earlier arm's component takes the pci arm. */
  lemma PciArm(bus: string, slots: seq<string>)
    requires Behind(bus, slots)
    ensures ArmOf(PathOf(PciPath(bus, slots))).Pci?
  {
    hide InOrder, PathOf, Others, IsBusNumber;
    var cs := PciPath(bus, slots);
    PciIsClear(bus, slots);
    NotEarly(cs);
    NotFirewireOrIscsi(cs);
    NotScsiTtyOrUsb(cs);
    PciText(bus, slots);
    BusMatches(bus, PathOf(slots));
    InOrderAfter(PCI, PathOf(UP), "/pci" + bus + PathOf(slots));
  }

  lemma PciCut(bus: string, slots: seq<string>)
    requires IsBusNumber(bus)
    ensures CutFirst("/pci#", PathOf(PciPath(bus, slots))) == PathOf(UP)
  {
    hide PathOf, Others, At, CutFirst;
    UpIsClear();
    PciText(bus, slots);
    var rest := "/pci" + bus + PathOf(slots);
    PciWord(bus, PathOf(slots));
    assert "/" + "pci" <= "/pci#";
    FirstIsAt("pci", "/pci#", UP, rest);
  }

  lemma PciWord(bus: string, tail: string)
    requires bus != "" && IsDigit(bus[0])
    ensures At("/pci#", "/pci" + bus + tail)
  {
    WordDigit("/pci", bus);
    assert "/pci" + "#" == "/pci#";
  }

  lemma UpArm()
    ensures ArmOf(PathOf(UP)).Root? && PathOf(UP) != ""
  {
    hide InOrder, Others;
    UpIsClear();
    NotEarly(UP);
    NotFirewireOrIscsi(UP);
    NotScsiTtyOrUsb(UP);
    NotLate(UP);
    PathOfMore(["sys"], "devices");
    assert ["sys"] + ["devices"] == UP;
    PathOfOne("sys");
    assert "/sys" + "/" + "devices" == "/sys/devices" && "/sys/devices"[4..] == "/devices";
    assert "/" + "sys" == "/sys";
  }

  /** What the pci arm keeps of what was collected. */
  function Kept(fs: Sysfs, dev: string, id: string): string {
    if CcissAt(fs, dev).Some? then CcissAt(fs, dev).value else id
  }

  /** Of several cciss links the last one listed names the disk, by what follows `cciss!`. */
  lemma {:induction false} LastDisk(fs: Sysfs, dev: string, entries: seq<string>, i: nat)
    requires i < |entries| && IsCcissLink(fs, dev, entries[i])
    requires forall j :: i < j < |entries| ==> !IsCcissLink(fs, dev, entries[j])
    ensures CcissDisk(fs, dev, entries) == Some("cciss-" + AfterFirst("cciss!", entries[i]))
  {
    hide IsCcissLink, AfterFirst;
    if i < |entries| - 1 {
      LastDisk(fs, dev, entries[..|entries| - 1], i);
    }
  }

  /** The climb from a pci device: its own name in front, and the end. */
  lemma FromPci(fs: Sysfs, start: string, bus: string, slots: seq<string>, slot: string, w: Walk)
    requires Behind(bus, slots + [slot]) && w.dev == PathOf(PciPath(bus, slots + [slot])) && w.status == Walking
    ensures Climb(fs, start, w)
      == Some(w.(dev := "", result := 0, id := Dashed("pci-" + slot, Kept(fs, w.dev, w.id))))
  {
    hide PathOf, Others, CcissAt, IsBusNumber, Step, Calm;
    var v := w.(dev := PathOf(UP), result := 0, id := Dashed("pci-" + slot, Kept(fs, w.dev, w.id)));
    PciStep(fs, start, bus, slots, slot, w);
    UpArm();
    UpStep(fs, start, v);
    Shorter(bus, slots + [slot]);
    FirstRound(fs, start, w);
  }

  lemma Shorter(bus: string, slots: seq<string>)
    ensures |PathOf(UP)| < |PathOf(PciPath(bus, slots))|
  {
    hide PathOf;
    PciText(bus, slots);
  }

  lemma UpStep(fs: Sysfs, start: string, v: Walk)
    requires v.dev == PathOf(UP)
    ensures Step(fs, start, v) == v.(dev := "")
  {
    hide PathOf, ArmOf;
    UpArm();
  }

  lemma PciStep(fs: Sysfs, start: string, bus: string, slots: seq<string>, slot: string, w: Walk)
    requires Behind(bus, slots + [slot]) && w.dev == PathOf(PciPath(bus, slots + [slot]))
    ensures Step(fs, start, w)
      == w.(dev := PathOf(UP), result := 0, id := Dashed("pci-" + slot, Kept(fs, w.dev, w.id)))
  {
    hide PathOf, ArmOf, Others, CcissAt, IsBusNumber, CutFirst, Base, Calm;
    PciArm(bus, slots + [slot]);
    PciCut(bus, slots + [slot]);
    SlotHasNoSlash(slots, slot);
    DirOf(PciPath(bus, slots), slot);
    assert PciPath(bus, slots) + [slot] == PciPath(bus, slots + [slot]);
  }

  lemma SlotHasNoSlash(slots: seq<string>, slot: string)
    requires Clear(slots + [slot])
    ensures '/' !in slot
  {
    assert (slots + [slot])[|slots|] == slot && Others(slots + [slot], "usb");
  }

  // ---------- numerals in components ----------

  lemma DecHasNo(n: nat, c: char)
    requires !IsDigit(c)
    ensures c !in Dec(n)
  {
    hide Dec;
    DigitsHaveNo(Dec(n), c);
  }

  lemma DecNumber(n: nat)
    ensures TestNumber(Dec(n)) == Some(n)
  {
    ValueOfDec(n);
  }

  /** A component made of a word and a numeral. */
  lemma WordNumeral(v: string, n: nat)
    requires '/' !in v
    ensures '/' !in v + Dec(n) && v <= v + Dec(n)
  {
    hide Dec;
    DecHasNo(n, '/');
  }

  /** Numerals joined by signs, as one component. */
  lemma NumericOne(c: string)
    requires c != "" && IsDigit(c[0]) && '/' !in c
    ensures Clear([c])
  {
    hide Clear;
    NumericIsClear([c]);
  }

  // ---------- scsi ----------

  function HostPart(a: Addr): string {
    "host" + Dec(a.host)
  }

  function TargetPart(a: Addr): string {
    "target" + Dec(a.host) + ":" + Dec(a.channel) + ":" + Dec(a.id)
  }

  function UnitPart(a: Addr): string {
    Dec(a.host) + ":" + Cil(a)
  }

  lemma ScsiPathIs(cs: seq<string>, a: Addr)
    ensures ScsiPath(PathOf(cs), a) == PathOf(cs + [HostPart(a)] + [TargetPart(a)] + [UnitPart(a)])
  {
    hide PathOf, Dec, Cil;
    PathOfMore(cs, HostPart(a));
    PathOfMore(cs + [HostPart(a)], TargetPart(a));
    PathOfMore(cs + [HostPart(a)] + [TargetPart(a)], UnitPart(a));
    assert PathOf(cs) + ("/host" + Dec(a.host)) == PathOf(cs) + "/" + HostPart(a);
  }

  lemma AddrParts(a: Addr)
    ensures '/' !in HostPart(a) && '/' !in TargetPart(a) && '/' !in UnitPart(a) && ':' in UnitPart(a)
    ensures HostPart(a)[0] == 'h' && TargetPart(a)[0] == 't' && UnitPart(a) != "" && IsDigit(UnitPart(a)[0])
    ensures |TargetPart(a)| > 1 && TargetPart(a)[1] == 'a' && |HostPart(a)| > 1 && HostPart(a)[1] == 'o'
  {
    hide Dec;
    DecHasNo(a.host, '/');
    DecHasNo(a.channel, '/');
    DecHasNo(a.id, '/');
    DecHasNo(a.lun, '/');
    assert UnitPart(a)[|Dec(a.host)|] == ':';
  }

  /** The address parts bring in no arm before scsi's. */
  lemma AddrIsCalm(a: Addr)
    ensures Calm([HostPart(a)] + [TargetPart(a)] + [UnitPart(a)])
  {
    hide Others, HostPart, TargetPart, UnitPart;
    AddrParts(a);
    CalmByFirst(HostPart(a));
    CalmByFirst(TargetPart(a));
    NumericOne(UnitPart(a));
    EarlyConcat([HostPart(a)], [TargetPart(a)]);
    EarlyConcat([HostPart(a)] + [TargetPart(a)], [UnitPart(a)]);
  }

  lemma CalmByFirst(c: string)
    requires c != "" && '/' !in c && (c[0] == 'h' || c[0] == 't' || c[0] == 'p')
    ensures Calm([c])
  {
    hide Others;
    OneOther(c, "ide", 0);
    OneOther(c, "css0", 0);
    OneOther(c, "rport-", 0);
    OneOther(c, "end_device-", 0);
    OneOther(c, "fw-host", 0);
    OneOther(c, "session", 0);
  }

  lemma UnitMatches(a: Addr)
    ensures InOrder(SCSI[1..], "/" + UnitPart(a))
  {
    hide InOrder, Dec;
    var ws := SCSI[1..];
    assert ws[4..] == [];
    NothingMatches("");
    assert ws[3..][1..] == ws[4..] && ws[2..][1..] == ws[3..] && ws[1..][1..] == ws[2..];
    var l, i, c := ":" + Dec(a.lun) + "", ":" + Dec(a.id), ":" + Dec(a.channel);
    AtDigit(ws[3..], ":", Dec(a.lun), "");
    AtDigit(ws[2..], ":", Dec(a.id), l);
    AtDigit(ws[1..], ":", Dec(a.channel), i + l);
    AtDigit(ws, "/", Dec(a.host), c + (i + l));
    assert l == ":" + Dec(a.lun);
    assert "/" + Dec(a.host) + (c + (i + l)) == "/" + UnitPart(a);
  }

  /** A device of some host, on a path without an earlier arm's component, takes the scsi arm. */
  lemma ScsiTakes(cs: seq<string>, a: Addr)
    requires Calm(cs)
    ensures ArmOf(ScsiPath(PathOf(cs), a)).Scsi?
  {
    hide InOrder, PathOf, Others, HostPart, TargetPart, UnitPart, ScsiPath;
    var parts := [HostPart(a)] + [TargetPart(a)] + [UnitPart(a)];
    var all := cs + parts;
    AddrIsCalm(a);
    EarlyConcat(cs, parts);
    ScsiPathIs(cs, a);
    assert cs + [HostPart(a)] + [TargetPart(a)] + [UnitPart(a)] == all;
    NotEarly(all);
    NotFirewireOrIscsi(all);
    ScsiMatches(cs, a);
  }

  lemma ScsiMatches(cs: seq<string>, a: Addr)
    ensures InOrder(SCSI, PathOf(cs + [HostPart(a)] + [TargetPart(a)] + [UnitPart(a)]))
  {
    hide InOrder, PathOf, Dec, TargetPart, UnitPart;
    var y, z := "/" + TargetPart(a), "/" + UnitPart(a);
    PathOfMore(cs, HostPart(a));
    PathOfMore(cs + [HostPart(a)], TargetPart(a));
    PathOfMore(cs + [HostPart(a)] + [TargetPart(a)], UnitPart(a));
    UnitMatches(a);
    InOrderAfter(SCSI[1..], y, z);
    AtDigit(SCSI, "/host", Dec(a.host), y + z);
    InOrderAfter(SCSI, PathOf(cs), "/host" + Dec(a.host) + (y + z));
    assert PathOf(cs) + ("/host" + Dec(a.host) + (y + z))
      == PathOf(cs) + "/" + HostPart(a) + "/" + TargetPart(a) + "/" + UnitPart(a);
  }

  /** The segment of a SCSI device whose controller's first host is `m`. */
  function ScsiText(a: Addr, m: nat): string
    requires m <= a.host
  {
    "scsi-" + Dec(a.host - m) + ":" + Dec(a.channel) + ":" + Dec(a.id) + ":" + Dec(a.lun)
  }

  /** The scsi arm: the port counted from the first listed, channel, target, LUN, and on from the controller. */
  lemma ScsiSpelled(fs: Sysfs, start: string, ctrl: string, a: Addr, m: nat)
    requires ArmOf(ScsiPath(ctrl, a)).Scsi? && IsFirst("host", List(fs, ctrl), a.host, m)
    ensures Step(fs, start, StartAt(ScsiPath(ctrl, a))) == Walk(ctrl, ScsiText(a, m), 0, Walking, NO_REGS)
  {
    hide ArmOf, Step, ScsiPath, ScsiText, ScsiSegment;
    ScsiArm(fs, start, ctrl, a);
    SegmentIsText(fs, ctrl, a, m);
  }

  lemma SegmentIsText(fs: Sysfs, ctrl: string, a: Addr, m: nat)
    requires IsFirst("host", List(fs, ctrl), a.host, m)
    ensures ScsiSegment(fs, ctrl, a) == ScsiText(a, m)
  {
    hide Dec, RelativePort;
    assert '#' !in "host";
    CountsFromFirst("host", List(fs, ctrl), a.host, m);
  }

  /** What is printed after a climb to the end. */
  lemma PrintedIs(fs: Sysfs, dev: string, w: Walk, tape: Option<string>)
    requires dev != "" && Climb(fs, dev, StartAt(dev)) == Some(w) && w.status == Walking && w.id != ""
    ensures IdPath(fs, dev, tape) == Some(w.id + Tail(tape))
  {
    hide Climb, Tail;
  }

  /** A SCSI disk or tape of a pci controller, from its directory to the identifier printed. */
  lemma ScsiDisk(fs: Sysfs, bus: string, slots: seq<string>, slot: string, a: Addr, m: nat, tape: Option<string>)
    requires Behind(bus, slots + [slot])
    requires IsFirst("host", List(fs, PathOf(PciPath(bus, slots + [slot]))), a.host, m)
    ensures var ctrl := PathOf(PciPath(bus, slots + [slot]));
      IdPath(fs, ScsiPath(ctrl, a), tape)
      == Some(Dashed("pci-" + slot, Kept(fs, ctrl, ScsiText(a, m))) + Tail(tape))
  {
    hide PathOf, ArmOf, Step, ScsiPath, IsFirst, Clear, ScsiText, Climb, Kept, Tail, IdPath;
    var cs := PciPath(bus, slots + [slot]);
    var dev := ScsiPath(PathOf(cs), a);
    BehindIsCalm(bus, slots + [slot]);
    ScsiTakes(cs, a);
    ScsiSpelled(fs, dev, PathOf(cs), a, m);
    CtrlIsPrefix(PathOf(cs), a);
    FirstRound(fs, dev, StartAt(dev));
    FromPci(fs, dev, bus, slots, slot, Step(fs, dev, StartAt(dev)));
    PrintedIs(fs, dev, Climb(fs, dev, StartAt(dev)).value, tape);
  }

  lemma BehindIsCalm(bus: string, slots: seq<string>)
    requires Behind(bus, slots)
    ensures Clear(PciPath(bus, slots)) && Calm(PciPath(bus, slots))
  {
    hide Calm, IsBusNumber;
    PciIsClear(bus, slots);
  }

  /** A device that hangs on the pci bus itself: no component between is named. */
  lemma PciDevice(fs: Sysfs, bus: string, slots: seq<string>, slot: string, tape: Option<string>)
    requires Behind(bus, slots + [slot])
    ensures var dev := PathOf(PciPath(bus, slots + [slot]));
      IdPath(fs, dev, tape) == Some(Dashed("pci-" + slot, Kept(fs, dev, "")) + Tail(tape))
  {
    hide PathOf, Climb, Kept, Tail, IdPath, Clear, IsBusNumber;
    var dev := PathOf(PciPath(bus, slots + [slot]));
    FromPci(fs, dev, bus, slots, slot, StartAt(dev));
    PathBegins(PciPath(bus, slots + [slot]));
    PrintedIs(fs, dev, Climb(fs, dev, StartAt(dev)).value, tape);
  }

  // ---------- what no arm knows ----------

  /** The climb leaves a directory no arm knows with what was collected. */
  lemma UnknownEnds(fs: Sysfs, start: string, w: Walk)
    requires !Finished(w) && ArmOf(w.dev).Unhandled?
    ensures Climb(fs, start, w) == Some(w.(status := Left, result := 1))
  {
    hide Step;
    UnknownStep(fs, start, w);
  }

  lemma UnknownStep(fs: Sysfs, start: string, w: Walk)
    requires ArmOf(w.dev).Unhandled?
    ensures Step(fs, start, w) == w.(status := Left, result := 1)
  {
    hide ArmOf, HandleIde, HandleScsi, HandleUsb, HandlePci, HandleSerio, HandlePlatform;
    hide HandleCss, HandleFc, HandleSas, HandleFirewire, HandleIscsi, CutLast;
  }

  /** A device of such a directory prints nothing. */
  lemma UnknownDevice(fs: Sysfs, dev: string, tape: Option<string>)
    requires dev != "" && ArmOf(dev).Unhandled?
    ensures IdPath(fs, dev, tape) == None
  {
    hide ArmOf, Climb, Tail;
    UnknownEnds(fs, dev, StartAt(dev));
  }

  /** A SCSI device whose controller no arm knows gets its own segment, and a tape then no suffix. */
  lemma ScsiAlone(fs: Sysfs, ctrl: string, a: Addr, m: nat, tape: Option<string>)
    requires ArmOf(ScsiPath(ctrl, a)).Scsi? && ctrl != "" && ArmOf(ctrl).Unhandled?
    requires IsFirst("host", List(fs, ctrl), a.host, m)
    ensures IdPath(fs, ScsiPath(ctrl, a), tape) == Some(ScsiText(a, m))
  {
    hide ArmOf, Climb, Step, Tail, ScsiPath, ScsiText, IsFirst;
    var dev := ScsiPath(ctrl, a);
    FirstIsBelow("host", List(fs, ctrl), a.host, m);
    ScsiSpelled(fs, dev, ctrl, a, m);
    CtrlIsPrefix(ctrl, a);
    FirstRound(fs, dev, StartAt(dev));
    UnknownEnds(fs, dev, Step(fs, dev, StartAt(dev)));
    TextNotEmpty(a, m);
    assert ScsiText(a, m) + "" == ScsiText(a, m);
  }

  lemma TextNotEmpty(a: Addr, m: nat)
    requires m <= a.host
    ensures ScsiText(a, m) != ""
  {
  }

  // ---------- tapes ----------

  /** The suffix of a tape `r` + `st` + `x`: the letter of its mode instead of its number. */
  lemma TapeSuffix(r: string, x: string)
    requires 's' !in r && 's' !in x
    ensures var last := if x == "" then ' ' else x[|x| - 1];
      Tail(Some(r + "st" + x))
      == "-" + r + "st" + if last == 'l' then "l" else if last == 'm' then "m" else if last == 'a' then "a" else ""
  {
    hide CutFirst, AfterLast;
    TapeParts(r, x);
    assert "lma"[0] == 'l' && "lma"[1] == 'm' && "lma"[2] == 'a';
  }

  lemma TapeParts(r: string, x: string)
    requires 's' !in r && 's' !in x
    ensures CutFirst("st", r + "st" + x) == r && AfterLast("st", r + "st" + x) == x
  {
    var s := r + "st" + x;
    forall j | 0 <= j < |r|
      ensures !At("st", s[j..])
    {
      assert s[j..][0] == r[j] && r[j] in r;
    }
    forall j | |r| < j <= |s|
      ensures !At("st", s[j..])
    {
      if j < |s| {
        assert s[j..][0] == if j == |r| + 1 then 't' else x[j - |r| - 2];
        assert j > |r| + 1 ==> x[j - |r| - 2] in x;
      }
    }
    assert s[|r|..] == "st" + x;
    StartsWith("st", x);
    FirstAtIs("st", s, |r|);
    LastAtIs("st", s, |r|);
    assert s[..|r|] == r && s[|r| + 2..] == x;
  }
}

/**
 The identifier of a SCSI device: different for different devices of one controller,
 and the same after the controller's hosts have been renumbered.
 */
module Identity {
  import opened Text
  import opened Glob
  import opened PathId
  import opened Climbing

  // ---------- above a bus arm there are only bus arms ----------

  /** No arm that starts the identifier anew applies here. */
  predicate EndpointFree(dev: string) {
    && !InOrder(["/css0/"], dev) && !InOrder(FC, dev) && !InOrder(SAS, dev)
    && !InOrder(FIREWIRE, dev) && !InOrder(ISCSI, dev)
  }

  /** The patterns of the endpoint arms end in a star, so what holds below holds above. */
  lemma AncestorsAreFree(p: string, dev: string)
    requires EndpointFree(dev) && p <= dev
    ensures EndpointFree(p)
  {
    hide InOrder;
    var t := dev[|p|..];
    assert p + t == dev;
    forall ws | InOrder(ws, p)
      ensures InOrder(ws, dev)
    {
      InOrderExtends(ws, p, t);
    }
  }

  lemma ScsiIsEndpointFree(dev: string)
    requires ArmOf(dev).Scsi?
    ensures EndpointFree(dev)
  {
    hide InOrder;
  }

  predicate IsBus(a: Arm) {
    !a.Css? && !a.Fc? && !a.Sas? && !a.Firewire? && !a.Iscsi?
  }

  lemma FreeMeansBus(dev: string)
    requires EndpointFree(dev)
    ensures IsBus(ArmOf(dev))
  {
    hide InOrder;
  }

  // ---------- a bus climb only puts text in front ----------

  /**
   The two trees list the same entries in every directory above `dev`, and name the same
   cciss disk, if any, there and at `dev` itself.
   */
  ghost predicate Agree(fs: Sysfs, fs': Sysfs, dev: string) {
    && (forall p :: p < dev ==> List(fs, p) == List(fs', p))
    && (forall p :: p <= dev ==> CcissAt(fs, p) == CcissAt(fs', p))
  }

  /** The pci arm finds a cciss disk here and forgets what has been collected. */
  predicate StartsAnew(fs: Sysfs, dev: string) {
    ArmOf(dev).Pci? && CcissAt(fs, dev).Some?
  }

  /** Where a bus arm goes on. */
  function Above(dev: string): string {
    match ArmOf(dev)
    case Ide => Dir(Dir(dev))
    case Scsi => Dir(Dir(Dir(dev)))
    case Tty => CutLast("/ttyUSB", dev)
    case Usb => CutFirst("/usb", dev)
    case Pci => CutFirst("/pci#", dev)
    case Serio => CutFirst("/serio", dev)
    case Platform => CutFirst("/platform", dev)
    case Root => ""
    case _ => dev
  }

  /** A climb through bus arms from `dev` comes to a pci node with a cciss disk. */
  predicate PassesDisk(fs: Sysfs, dev: string)
    decreases |dev|
  {
    dev != "" && (StartsAnew(fs, dev) || (|Above(dev)| < |dev| && PassesDisk(fs, Above(dev))))
  }

  lemma BusGoesOn(fs: Sysfs, start: string, w: Walk)
    requires !Finished(w) && IsBus(ArmOf(w.dev))
    ensures var v := Step(fs, start, w);
      (v.status == Walking ==> v.dev == Above(w.dev)) && (v.status == Left ==> Above(w.dev) == w.dev)
  {
    hide ArmOf, CutFirst, CutLast, Dir, Base, AfterLast, AfterFirst, RelativePort, TestNumber;
    hide Dec, Prepend, List, CcissAt, ThroughFirst;
  }

  lemma DirsAreAbove(dev: string)
    requires Has("/", dev)
    ensures Dir(dev) < dev && Dir(Dir(dev)) < dev && Dir(Dir(Dir(dev))) < dev
  {
    DirShortens(dev);
  }

  /** The walk with another identifier collected so far. */
  function WithId(w: Walk, id: string): Walk {
    w.(id := id)
  }

  lemma OnwardSame(w: Walk, seg: string, dev: string, id: string)
    requires w.id != "" && id != ""
    ensures Onward(WithId(w, id), seg, dev) == WithId(Onward(w, seg, dev), seg + "-" + id)
    ensures Onward(w, seg, dev).id == seg + "-" + w.id
  {
  }

  lemma IdeRound(fs: Sysfs, fs': Sysfs, w: Walk, id: string) returns (pre: string)
    requires !Finished(w) && ArmOf(w.dev).Ide? && w.id != "" && id != ""
    requires Agree(fs, fs', w.dev)
    ensures HandleIde(fs, w).id == pre + w.id
    ensures HandleIde(fs', WithId(w, id)) == WithId(HandleIde(fs, w), pre + id)
  {
    hide InOrder, CutFirst, CutLast, RelativePort, AfterLast, AfterFirst, TestNumber;
    hide Onward, Dec, Dir, Base, Finished, ArmOf, Has;
    ArmHasSlash(w.dev);
    DirsAreAbove(w.dev);
    pre := "";
    assert "" + w.id == w.id && "" + id == id;
    var port := if "ide" <= Base(w.dev) then Base(w.dev)[3..] else Base(w.dev);
    var n := TestNumber(CutLast(".", port));
    if n.Some? {
      var drive := AfterFirst(".", port);
      var channel := if drive == "0" || drive == "1" then drive else w.regs.channel;
      var above := Dir(Dir(w.dev));
      var seg := "ide-" + Dec(RelativePort("ide", n.value, List(fs, above))) + ":" + channel;
      OnwardSame(w.(regs := w.regs.(channel := channel)), seg, above, id);
      pre := seg + "-";
    }
  }

  lemma ScsiRound(fs: Sysfs, fs': Sysfs, w: Walk, id: string) returns (pre: string)
    requires !Finished(w) && ArmOf(w.dev).Scsi? && w.id != "" && id != ""
    requires Agree(fs, fs', w.dev)
    ensures HandleScsi(fs, w).id == pre + w.id
    ensures HandleScsi(fs', WithId(w, id)) == WithId(HandleScsi(fs, w), pre + id)
  {
    hide InOrder, CutFirst, CutLast, RelativePort, AfterLast, AfterFirst, TestNumber;
    hide Onward, Dec, Dir, Base, Finished, ArmOf, Has;
    ArmHasSlash(w.dev);
    DirsAreAbove(w.dev);
    pre := "";
    assert "" + w.id == w.id && "" + id == id;
    var host := Dir(Dir(w.dev));
    var n := TestNumber(AfterLast("/host", host));
    if n.Some? {
      var seg := "scsi-" + Dec(RelativePort("host", n.value, List(fs, Dir(host)))) + ":" + AfterFirst(":", Base(w.dev));
      OnwardSame(w, seg, Dir(host), id);
      pre := seg + "-";
    }
  }

  lemma UsbRound(fs: Sysfs, fs': Sysfs, w: Walk, id: string) returns (pre: string)
    requires !Finished(w) && ArmOf(w.dev).Usb? && w.id != "" && id != ""
    requires Agree(fs, fs', w.dev)
    ensures HandleUsb(fs, w).id == pre + w.id
    ensures HandleUsb(fs', WithId(w, id)) == WithId(HandleUsb(fs, w), pre + id)
  {
    hide InOrder, CutFirst, CutLast, RelativePort, AfterLast, AfterFirst, TestNumber;
    hide Onward, Dec, ThroughFirst, Base, Finished, ArmOf, Has;
    ArmHasWord(w.dev);
    CutShortens("/usb", w.dev);
    pre := "";
    assert "" + w.id == w.id && "" + id == id;
    var n := TestNumber(AfterLast("/usb", ThroughFirst("/usb", w.dev)));
    if n.Some? {
      var above := CutFirst("/usb", w.dev);
      var seg := "usb-" + Dec(RelativePort("usb", n.value, List(fs, above))) + ":" + AfterFirst("-", Base(w.dev));
      OnwardSame(w, seg, above, id);
      pre := seg + "-";
    }
  }

  lemma PciRound(fs: Sysfs, fs': Sysfs, w: Walk, id: string) returns (pre: string)
    requires w.id != "" && id != "" && Agree(fs, fs', w.dev)
    ensures var v, v' := HandlePci(fs, w), HandlePci(fs', WithId(w, id));
      if CcissAt(fs, w.dev).Some? then v' == v && v.id != ""
      else v.id == pre + w.id && v' == WithId(v, pre + id)
  {
    hide CutFirst, Base, CcissAt;
    assert CcissAt(fs, w.dev) == CcissAt(fs', w.dev);
    OnwardSame(w, "pci-" + Base(w.dev), CutFirst("/pci#", w.dev), id);
    pre := "pci-" + Base(w.dev) + "-";
  }

  /**
   One round of a bus arm: the same move whatever has been collected; and either the same
   text in front of it or, exactly at a pci node with a cciss disk, the same new text.
   */
  lemma BusRound(fs: Sysfs, fs': Sysfs, start: string, start': string, w: Walk, id: string) returns (pre: string)
    requires !Finished(w) && IsBus(ArmOf(w.dev)) && w.id != "" && id != ""
    requires Agree(fs, fs', w.dev)
    ensures var v, v' := Step(fs, start, w), Step(fs', start', WithId(w, id));
      if StartsAnew(fs, w.dev) then v' == v && v.id != ""
      else v.id == pre + w.id && v' == WithId(v, pre + id)
  {
    hide ArmOf, CutFirst, CutLast, AfterLast, Base, Onward, Finished,
         HandleIde, HandleScsi, HandleUsb, HandlePci, HandleCss, HandleSas, HandleFc, HandleFirewire, HandleIscsi;
    hide Agree, CcissAt;
    pre := "";
    assert "" + w.id == w.id && "" + id == id;
    match ArmOf(w.dev)
    case Ide => pre := IdeRound(fs, fs', w, id);
    case Scsi => pre := ScsiRound(fs, fs', w, id);
    case Usb => pre := UsbRound(fs, fs', w, id);
    case Pci => pre := PciRound(fs, fs', w, id);
    case Serio =>
      OnwardSame(w, "serio-" + AfterLast("/serio", w.dev), CutFirst("/serio", w.dev), id);
      pre := "serio-" + AfterLast("/serio", w.dev) + "-";
    case Platform =>
      OnwardSame(w, "platform-" + Base(w.dev), CutFirst("/platform", w.dev), id);
      pre := "platform-" + Base(w.dev) + "-";
    case _ =>
  }

  predicate IsEndpoint(a: Arm) {
    a.Fc? || a.Sas? || a.Firewire? || a.Iscsi? || a.Css?
  }

  /**
   One round of an endpoint arm: it either fails, leaving what has been collected as it
   is, or starts anew, whatever has been collected.
   */
  lemma EndpointRound(fs: Sysfs, start: string, w: Walk, id: string)
    requires !Finished(w) && IsEndpoint(ArmOf(w.dev))
    ensures var v, v' := Step(fs, start, w), Step(fs, start, WithId(w, id));
      if v.result == 0 && v.status == Walking then v' == v else v.id == w.id && v' == WithId(v, id)
  {
    hide ArmOf, Dec, AfterLast, CutFirst, CutLast, Connection, SasPhy, SasPhyPath, SasAbove, Read;
  }

  /**
   What two climbs, begun with different identifiers, have in common. `pre` is the text both
   put in front, unless they pass a cciss disk and so forget what they began with.
   */
  ghost predicate Alike(forget: bool, pre: string, w: Walk, id: string, r: Option<Walk>, r': Option<Walk>) {
    && r.Some? && r'.Some? && r.value.id != ""
    && (r.value.status == Failed <==> r'.value.status == Failed)
    && (r.value.status != Failed ==>
          if forget then r' == r else r.value.id == pre + w.id && r' == Some(WithId(r.value, pre + id)))
  }

  /**
   A whole climb through bus arms always ends. Unless it fails, it ends with the identifier
   it began with behind a text that does not depend on it, or, exactly if it passes a cciss
   disk, with an identifier that does not depend on it at all.
   */
  lemma {:induction false} BusClimb(fs: Sysfs, fs': Sysfs, start: string, start': string, w: Walk, id: string)
    returns (pre: string)
    requires EndpointFree(w.dev) && w.id != "" && id != "" && w.status == Walking
    requires Agree(fs, fs', w.dev)
    ensures Alike(PassesDisk(fs, w.dev), pre, w, id, Climb(fs, start, w), Climb(fs', start', WithId(w, id)))
    decreases |w.dev|
  {
    hide InOrder, Step, Stuck, ArmOf, Finished, EndpointFree, Agree, IsAncestor, WithId, StartsAnew, Above, Alike;
    WithIdIs(w, id);
    if Finished(w) {
      pre := "";
      AtTheEnd(fs, w, id);
    } else {
      StillWalking(w);
      FreeMeansBus(w.dev);
      pre := BusRound(fs, fs', start, start', w, id);
      var v, v' := Step(fs, start, w), Step(fs', start', WithId(w, id));
      var next := if StartsAnew(fs, w.dev) then v.id else pre + id;
      WithIdIs(v, next);
      WithIdIs(v, v.id);
      BusNotStuck(fs, w);
      RoundExact(fs, start, w);
      BusGoesOn(fs, start, w);
      if Finished(v) {
        OneRoundOnly(fs, pre, w, id, v, v');
      } else {
        AncestorIsPrefix(fs, start, w);
        AncestorsAreFree(v.dev, w.dev);
        AgreeAbove(fs, fs', v.dev, w.dev);
        StillWalking(v);
        var more := BusClimb(fs, fs', start, start', v, next);
        pre := Onwards(fs, pre, more, w, id, v, Climb(fs, start, v), Climb(fs', start', v'));
      }
    }
  }

  lemma StillWalking(w: Walk)
    requires !Finished(w)
    ensures w.status == Walking && w.dev != ""
  {
  }

  lemma AtTheEnd(fs: Sysfs, w: Walk, id: string)
    requires Finished(w) && w.status == Walking && w.id != ""
    ensures Alike(PassesDisk(fs, w.dev), "", w, id, Some(w), Some(WithId(w, id)))
  {
    assert "" + w.id == w.id && "" + id == id;
  }

  /** The walk ends with its first round. */
  lemma OneRoundOnly(fs: Sysfs, pre: string, w: Walk, id: string, v: Walk, v': Walk)
    requires Finished(v) && w.dev != "" && w.id != "" && id != ""
    requires if StartsAnew(fs, w.dev) then v' == v && v.id != "" else v.id == pre + w.id && v' == WithId(v, pre + id)
    requires v.status == Walking ==> v.dev == Above(w.dev)
    requires v.status == Left ==> Above(w.dev) == w.dev
    ensures Alike(PassesDisk(fs, w.dev), pre, w, id, Some(v), Some(v'))
  {
    hide StartsAnew, Above;
  }

  /** A first round, and what is alike in the climbs from there. */
  lemma Onwards(fs: Sysfs, pre: string, more: string, w: Walk, id: string, v: Walk, r: Option<Walk>, r': Option<Walk>)
    returns (all: string)
    requires w.dev != "" && v.dev == Above(w.dev) && |v.dev| < |w.dev| && v.dev != ""
    requires !StartsAnew(fs, w.dev) ==> v.id == pre + w.id
    requires Alike(PassesDisk(fs, v.dev), more, v, if StartsAnew(fs, w.dev) then v.id else pre + id, r, r')
    ensures Alike(PassesDisk(fs, w.dev), all, w, id, r, r')
  {
    hide StartsAnew, Above;
    all := more + pre;
    Associate(more, pre, w.id);
    Associate(more, pre, id);
  }

  lemma Associate(x: string, y: string, z: string)
    ensures x + (y + z) == (x + y) + z
  {
  }

  lemma WithIdIs(w: Walk, id: string)
    ensures WithId(w, w.id) == w
    ensures WithId(w, id).dev == w.dev && (Finished(WithId(w, id)) <==> Finished(w)) && WithId(w, id).id == id
  {
  }

  lemma AgreeAbove(fs: Sysfs, fs': Sysfs, p: string, dev: string)
    requires Agree(fs, fs', dev) && p <= dev
    ensures Agree(fs, fs', p)
  {
  }

  lemma AncestorIsPrefix(fs: Sysfs, start: string, w: Walk)
    ensures Step(fs, start, w).dev <= w.dev
  {
    hide Step;
    StepClimbs(fs, start, w);
  }

  lemma BusNotStuck(fs: Sysfs, w: Walk)
    requires IsBus(ArmOf(w.dev))
    ensures !Stuck(fs, w)
  {
    hide ArmOf;
  }

  // ---------- SCSI devices ----------

  /** A SCSI device under a controller: host, channel, target id, LUN. */
  datatype Addr = Addr(host: nat, channel: nat, id: nat, lun: nat)

  /** `channel:id:lun` */
  function Cil(a: Addr): string {
    Dec(a.channel) + ":" + (Dec(a.id) + ":" + Dec(a.lun))
  }

  /** The path of the device's directory. */
  function ScsiPath(ctrl: string, a: Addr): string {
    ctrl + ("/host" + Dec(a.host))
    + "/" + ("target" + Dec(a.host) + ":" + Dec(a.channel) + ":" + Dec(a.id))
    + "/" + (Dec(a.host) + ":" + Cil(a))
  }

  /** The segment of the device, counting ports from the controller's first. */
  function ScsiSegment(fs: Sysfs, ctrl: string, a: Addr): string {
    "scsi-" + Dec(RelativePort("host", a.host, List(fs, ctrl))) + ":" + Cil(a)
  }

  lemma SplitLast(a: string, b: string)
    requires forall i :: 0 <= i < |b| ==> b[i] != '/'
    ensures Dir(a + "/" + b) == a && Base(a + "/" + b) == b
  {
    var s := a + "/" + b;
    forall j | |a| < j <= |s|
      ensures !At("/", s[j..])
    {
      assert j < |s| ==> s[j..][0] == b[j - |a| - 1];
    }
    assert s[|a|..][0] == '/';
    LastAtIs("/", s, |a|);
    assert s[..|a|] == a && s[|a| + 1..] == b;
  }

  lemma DigitsHaveNo(s: string, c: char)
    requires AllDigits(s) && !IsDigit(c)
    ensures forall i :: 0 <= i < |s| ==> s[i] != c
  {
  }

  lemma ScsiComponents(a: Addr)
    ensures forall i :: 0 <= i < |Dec(a.host) + ":" + Cil(a)| ==> (Dec(a.host) + ":" + Cil(a))[i] != '/'
    ensures var t := "target" + Dec(a.host) + ":" + Dec(a.channel) + ":" + Dec(a.id);
      forall i :: 0 <= i < |t| ==> t[i] != '/'
  {
    hide Dec;
    DigitsHaveNo(Dec(a.host), '/');
    DigitsHaveNo(Dec(a.channel), '/');
    DigitsHaveNo(Dec(a.id), '/');
    DigitsHaveNo(Dec(a.lun), '/');
  }

  lemma ScsiDirs(ctrl: string, a: Addr)
    ensures var dev := ScsiPath(ctrl, a);
      && Base(dev) == Dec(a.host) + ":" + Cil(a)
      && Dir(Dir(dev)) == ctrl + ("/host" + Dec(a.host))
      && Dir(Dir(Dir(dev))) == ctrl
  {
    hide Dec, Cil, Dir, Base;
    ScsiComponents(a);
    var host := ctrl + ("/host" + Dec(a.host));
    var target := "target" + Dec(a.host) + ":" + Dec(a.channel) + ":" + Dec(a.id);
    SplitLast(host + "/" + target, Dec(a.host) + ":" + Cil(a));
    SplitLast(host, target);
    DigitsHaveNo(Dec(a.host), '/');
    SplitLast(ctrl, "host" + Dec(a.host));
    assert ctrl + "/" + ("host" + Dec(a.host)) == host;
  }

  lemma HostNumber(ctrl: string, n: nat)
    ensures AfterLast("/host", ctrl + ("/host" + Dec(n))) == Dec(n)
  {
    hide Dec;
    DigitsHaveNo(Dec(n), '/');
    var s := ctrl + ("/host" + Dec(n));
    forall j | |ctrl| < j <= |s|
      ensures !At("/host", s[j..])
    {
      assert j < |s| ==> s[j..][0] == ("/host" + Dec(n))[j - |ctrl|];
    }
    assert s[|ctrl|..] == "/host" + Dec(n);
    LastAtIs("/host", s, |ctrl|);
    assert s[|ctrl| + 5..] == Dec(n);
  }

  lemma AfterColon(x: string, y: string)
    requires AllDigits(x)
    ensures AfterFirst(":", x + ":" + y) == y
  {
    DigitsHaveNo(x, ':');
    var s := x + ":" + y;
    forall j | 0 <= j < |x|
      ensures !At(":", s[j..])
    {
      assert s[j..][0] == x[j];
    }
    assert s[|x|..][0] == ':';
    FirstAtIs(":", s, |x|);
    assert s[|x| + 1..] == y;
  }

  /** The SCSI arm on such a path: its own segment, and on from the controller. */
  lemma ScsiArm(fs: Sysfs, start: string, ctrl: string, a: Addr)
    requires ArmOf(ScsiPath(ctrl, a)).Scsi?
    ensures Step(fs, start, StartAt(ScsiPath(ctrl, a)))
            == Walk(ctrl, ScsiSegment(fs, ctrl, a), 0, Walking, NO_REGS)
  {
    hide Dec, Cil, ScsiPath, ArmOf, Dir, Base, RelativePort, AfterFirst, AfterLast;
    ScsiDirs(ctrl, a);
    HostNumber(ctrl, a.host);
    ValueOfDec(a.host);
    AfterColon(Dec(a.host), Cil(a));
    assert TestNumber(Dec(a.host)) == Some(a.host);
  }

  // ---------- ports of one controller ----------

  lemma PortOfHost(n: nat)
    ensures PortOf("host", "host" + Dec(n)) == Some(n)
  {
    ValueOfDec(n);
    var e := "host" + Dec(n);
    assert e[4..] == Dec(n);
    assert At("host#", e) by {
      assert e[4] == Dec(n)[0];
    }
  }

  predicate Listed(n: nat, entries: seq<string>) {
    "host" + Dec(n) in entries
  }

  lemma ListedPort(n: nat, entries: seq<string>)
    requires Listed(n, entries)
    ensures exists i :: 0 <= i < |entries| && PortOf("host", entries[i]) == Some(n)
  {
    PortOfHost(n);
    var i :| 0 <= i < |entries| && entries[i] == "host" + Dec(n);
    assert PortOf("host", entries[i]) == Some(n);
  }

  /** All devices of a controller count from the same first port. */
  lemma SameOffset(m: nat, n: nat, entries: seq<string>)
    requires Listed(m, entries) && Listed(n, entries)
    ensures PortOffset("host", m, entries) == PortOffset("host", n, entries)
  {
    hide PortOf;
    PortOffsetIsMin("host", m, entries);
    PortOffsetIsMin("host", n, entries);
    ListedPort(m, entries);
    ListedPort(n, entries);
  }

  lemma SplitAtColon(x: string, y: string, x': string, y': string)
    requires AllDigits(x) && AllDigits(x') && x + ":" + y == x' + ":" + y'
    ensures x == x' && y == y'
  {
    hide AfterFirst;
    AfterColon(x, y);
    AfterColon(x', y');
    assert x == (x + ":" + y)[..|x|] && x' == (x' + ":" + y')[..|x'|];
  }

  lemma CilInjective(a: Addr, b: Addr)
    requires Cil(a) == Cil(b)
    ensures a.channel == b.channel && a.id == b.id && a.lun == b.lun
  {
    hide Dec;
    SplitAtColon(Dec(a.channel), Dec(a.id) + ":" + Dec(a.lun), Dec(b.channel), Dec(b.id) + ":" + Dec(b.lun));
    SplitAtColon(Dec(a.id), Dec(a.lun), Dec(b.id), Dec(b.lun));
    DecInjective(a.channel, b.channel);
    DecInjective(a.id, b.id);
    DecInjective(a.lun, b.lun);
  }

  /** Two devices of one controller have the same segment only if they are the same. */
  lemma SegmentInjective(fs: Sysfs, ctrl: string, a: Addr, b: Addr)
    requires Listed(a.host, List(fs, ctrl)) && Listed(b.host, List(fs, ctrl))
    requires ScsiSegment(fs, ctrl, a) == ScsiSegment(fs, ctrl, b)
    ensures a == b
  {
    hide Dec, Cil, List;
    var entries := List(fs, ctrl);
    var p, q := RelativePort("host", a.host, entries), RelativePort("host", b.host, entries);
    var s, t := Dec(p) + ":" + Cil(a), Dec(q) + ":" + Cil(b);
    assert ScsiSegment(fs, ctrl, a) == "scsi-" + s && ScsiSegment(fs, ctrl, b) == "scsi-" + t;
    assert s == ("scsi-" + s)[5..] && t == ("scsi-" + t)[5..];
    SplitAtColon(Dec(p), Cil(a), Dec(q), Cil(b));
    DecInjective(p, q);
    SameOffset(a.host, b.host, entries);
    PortOffsetIsMin("host", a.host, entries);
    PortOffsetIsMin("host", b.host, entries);
    CilInjective(a, b);
  }

  // ---------- the two main results ----------

  /**
   The whole run for a SCSI device. What comes before the segment depends on the controller
   alone; and if the climb from the controller passes a cciss disk, so does all but the
   suffix of a tape, `end` being where the climb ends.
   */
  lemma ScsiIdPath(fs: Sysfs, fs': Sysfs, ctrl: string, a: Addr, b: Addr, s: Option<string>, t: Option<string>)
    returns (pre: string, end: Walk)
    requires ArmOf(ScsiPath(ctrl, a)).Scsi? && ArmOf(ScsiPath(ctrl, b)).Scsi?
    requires Agree(fs, fs', ctrl)
    ensures var x, y := IdPath(fs, ScsiPath(ctrl, a), s), IdPath(fs', ScsiPath(ctrl, b), t);
      if end.status == Failed then x.None? && y.None?
      else if PassesDisk(fs, ctrl) then x == Some(pre + TailOf(end, s)) && y == Some(pre + TailOf(end, t))
      else
        && x == Some(pre + ScsiSegment(fs, ctrl, a) + TailOf(end, s))
        && y == Some(pre + ScsiSegment(fs', ctrl, b) + TailOf(end, t))
  {
    hide ArmOf, Step, ScsiSegment, EndpointFree, Stuck, PassesDisk, Agree, Tail;
    var da, db := ScsiPath(ctrl, a), ScsiPath(ctrl, b);
    var sa, sb := ScsiSegment(fs, ctrl, a), ScsiSegment(fs', ctrl, b);
    SegmentNonempty(fs, ctrl, a);
    SegmentNonempty(fs', ctrl, b);
    ScsiArm(fs, da, ctrl, a);
    ScsiArm(fs', db, ctrl, b);
    ScsiIsEndpointFree(da);
    CtrlIsPrefix(ctrl, a);
    CtrlIsPrefix(ctrl, b);
    AncestorsAreFree(ctrl, da);
    var w := Walk(ctrl, sa, 0, Walking, NO_REGS);
    pre := BusClimb(fs, fs', da, db, w, sb);
    FirstRound(fs, da, StartAt(da));
    FirstRound(fs', db, StartAt(db));
    assert WithId(w, sb) == Walk(ctrl, sb, 0, Walking, NO_REGS);
    end := Climb(fs, da, w).value;
    if PassesDisk(fs, ctrl) {
      pre := end.id;
    }
  }

  lemma SegmentNonempty(fs: Sysfs, ctrl: string, a: Addr)
    ensures ScsiSegment(fs, ctrl, a) != ""
  {
  }

  lemma CtrlIsPrefix(ctrl: string, a: Addr)
    ensures ctrl <= ScsiPath(ctrl, a) && |ctrl| < |ScsiPath(ctrl, a)|
  {
    hide Dec, Cil;
  }

  lemma FirstRound(fs: Sysfs, start: string, w: Walk)
    requires !Finished(w) && |Step(fs, start, w).dev| < |w.dev|
    ensures Climb(fs, start, w) == Climb(fs, start, Step(fs, start, w))
  {
    hide Step;
  }

  /** No dash after the first. */
  lemma SegmentDashes(fs: Sysfs, ctrl: string, a: Addr)
    ensures var g := ScsiSegment(fs, ctrl, a); |g| >= 5 && forall i :: 5 <= i < |g| ==> g[i] != '-'
  {
    hide Dec;
    var p := Dec(RelativePort("host", a.host, List(fs, ctrl)));
    DigitsHaveNo(p, '-');
    DigitsHaveNo(Dec(a.channel), '-');
    DigitsHaveNo(Dec(a.id), '-');
    DigitsHaveNo(Dec(a.lun), '-');
    var c := Cil(a);
    assert forall i :: 0 <= i < |c| ==> c[i] != '-';
    var g := ScsiSegment(fs, ctrl, a);
    assert g == "scsi-" + (p + ":" + c);
    forall i | 5 <= i < |g|
      ensures g[i] != '-'
    {
      assert g[i] == (p + ":" + c)[i - 5];
    }
  }

  lemma TailDash(w: Walk, tape: Option<string>)
    ensures TailOf(w, tape) == "" || TailOf(w, tape)[0] == '-'
  {
  }

  /** A text without a dash after its fifth character, and what follows it, are told apart by the dash. */
  lemma SplitAtDash(x: string, y: string, x': string, y': string)
    requires |x| >= 5 && |x'| >= 5 && x + y == x' + y'
    requires forall i :: 5 <= i < |x| ==> x[i] != '-'
    requires forall i :: 5 <= i < |x'| ==> x'[i] != '-'
    requires (y == "" || y[0] == '-') && (y' == "" || y'[0] == '-')
    ensures x == x' && y == y'
  {
    var s := x + y;
    assert forall i :: 5 <= i < |x| ==> s[i] == x[i];
    assert forall i :: 5 <= i < |x'| ==> s[i] == x'[i];
    DashIs(s, 5, |x|);
    DashIs(s, 5, |x'|);
    assert x == s[..|x|] && x' == s[..|x'|] && y == s[|x|..] && y' == s[|x'|..];
  }

  /** The first dash from `i` on. */
  function Dash(s: string, i: nat): nat
    requires i <= |s|
    decreases |s| - i
  {
    if i == |s| || s[i] == '-' then i else Dash(s, i + 1)
  }

  lemma {:induction false} DashIs(s: string, i: nat, n: nat)
    requires i <= n <= |s| && forall k :: i <= k < n ==> s[k] != '-'
    requires n < |s| ==> s[n] == '-'
    ensures Dash(s, i) == n
    decreases n - i
  {
    if i < n {
      DashIs(s, i + 1, n);
    }
  }

  /** Two names behind the same text, with suffixes: the same only for one device. */
  lemma NamesApart(fs: Sysfs, ctrl: string, a: Addr, b: Addr, pre: string, y: string, y': string)
    requires Listed(a.host, List(fs, ctrl)) && Listed(b.host, List(fs, ctrl))
    requires (y == "" || y[0] == '-') && (y' == "" || y'[0] == '-')
    requires pre + ScsiSegment(fs, ctrl, a) + y == pre + ScsiSegment(fs, ctrl, b) + y'
    ensures a == b
  {
    hide ScsiSegment, Listed;
    var g, h := ScsiSegment(fs, ctrl, a), ScsiSegment(fs, ctrl, b);
    assert g + y == (pre + g + y)[|pre|..] && h + y' == (pre + h + y')[|pre|..];
    SegmentDashes(fs, ctrl, a);
    SegmentDashes(fs, ctrl, b);
    SplitAtDash(g, y, h, y');
    SegmentInjective(fs, ctrl, a, b);
  }

  /**
   Sibling devices are told apart, exactly. Take two SCSI devices under one controller, whose
   hosts are both listed there, tapes or not. If the one gets an identifier, so does the
   other. If the two identifiers are the same, the devices are, or the climb from the
   controller comes to a pci node with a cciss disk; and in these two cases they are the
   same, unless they are tapes of different suffixes.
   */
  lemma SiblingsDiffer(fs: Sysfs, ctrl: string, a: Addr, b: Addr, s: Option<string>, t: Option<string>)
    requires ArmOf(ScsiPath(ctrl, a)).Scsi? && ArmOf(ScsiPath(ctrl, b)).Scsi?
    requires Listed(a.host, List(fs, ctrl)) && Listed(b.host, List(fs, ctrl))
    ensures var x, y := IdPath(fs, ScsiPath(ctrl, a), s), IdPath(fs, ScsiPath(ctrl, b), t);
      x.Some? ==>
        && y.Some?
        && (x == y ==> a == b || PassesDisk(fs, ctrl))
        && (Tail(s) == Tail(t) ==> (x == y <==> a == b || PassesDisk(fs, ctrl)))
  {
    hide ArmOf, ScsiSegment, ScsiPath, IdPath, Listed, PassesDisk, Tail;
    var pre, end := ScsiIdPath(fs, fs, ctrl, a, b, s, t);
    var x, y := IdPath(fs, ScsiPath(ctrl, a), s), IdPath(fs, ScsiPath(ctrl, b), t);
    if x.Some? && !PassesDisk(fs, ctrl) && x == y {
      TailDash(end, s);
      TailDash(end, t);
      NamesApart(fs, ctrl, a, b, pre, TailOf(end, s), TailOf(end, t));
    }
  }

  /** A host with this number is listed. */
  predicate HasHost(entries: seq<string>, n: nat) {
    exists i :: 0 <= i < |entries| && PortOf("host", entries[i]) == Some(n)
  }

  /** The hosts listed under the controller are those of the other tree, each number raised by `k`. */
  ghost predicate Shifted(entries: seq<string>, entries': seq<string>, k: nat) {
    && (forall n: nat :: HasHost(entries, n) ==> HasHost(entries', n + k))
    && (forall m: nat :: HasHost(entries', m) ==> m >= k && HasHost(entries, m - k))
  }

  lemma LeastHost(n: nat, entries: seq<string>)
    ensures var o := PortOffset("host", n, entries);
      o <= n && (o == n || HasHost(entries, o)) && forall m: nat :: HasHost(entries, m) ==> o <= m
  {
    hide PortOf, PortOffset;
    PortOffsetIsMin("host", n, entries);
  }

  lemma ShiftedOffset(n: nat, k: nat, entries: seq<string>, entries': seq<string>)
    requires Shifted(entries, entries', k)
    ensures RelativePort("host", n + k, entries') == RelativePort("host", n, entries)
  {
    hide PortOffset, Shifted;
    OffsetShifts(n, k, entries, entries');
  }

  lemma OffsetShifts(n: nat, k: nat, entries: seq<string>, entries': seq<string>)
    requires Shifted(entries, entries', k)
    ensures PortOffset("host", n + k, entries') == PortOffset("host", n, entries) + k
  {
    hide PortOffset, HasHost;
    LeastHost(n, entries);
    LeastHost(n + k, entries');
  }

  /**
   Renumbering stability: raise every host number under the controller by the same
   amount, in whatever order they are then listed, and the identifier of every SCSI
   device below it stays exactly the same, to the last character.
   */
  lemma RenumberingStable(fs: Sysfs, fs': Sysfs, ctrl: string, a: Addr, k: nat, tape: Option<string>)
    requires var b := a.(host := a.host + k); ArmOf(ScsiPath(ctrl, a)).Scsi? && ArmOf(ScsiPath(ctrl, b)).Scsi?
    requires Agree(fs, fs', ctrl)
    requires Shifted(List(fs, ctrl), List(fs', ctrl), k)
    ensures IdPath(fs, ScsiPath(ctrl, a), tape) == IdPath(fs', ScsiPath(ctrl, a.(host := a.host + k)), tape)
  {
    hide ArmOf, ScsiPath, IdPath, Shifted, RelativePort, PassesDisk, Agree;
    var b := a.(host := a.host + k);
    var pre, end := ScsiIdPath(fs, fs', ctrl, a, b, tape, tape);
    ShiftedOffset(a.host, k, List(fs, ctrl), List(fs', ctrl));
    assert Cil(a) == Cil(b);
  }
}

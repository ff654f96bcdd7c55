/**
 The identifiers of usb devices, and of disks and serial lines behind usb, spelt out.
 */
module Usb {
  import opened Text
  import opened Glob
  import opened PathId
  import opened Climbing
  import opened Identity
  import opened Paths
  import opened Hardware

  /** The port in the name of a component: what follows its first dash. */
  ghost predicate IsPort(last: string, port: string) {
    if '-' in last then exists x :: '-' !in x && last == x + "-" + port else port == last
  }

  lemma PortIsAfterDash(last: string, port: string)
    requires IsPort(last, port)
    ensures AfterFirst("-", last) == port
  {
    if '-' in last {
      var x :| '-' !in x && last == x + "-" + port;
      AfterSign('-', x, port);
    } else {
      NoSign('-', last);
    }
  }

  /** A component that begins with a digit. */
  ghost predicate HasNumeric(cs: seq<string>) {
    exists i :: 0 <= i < |cs| && cs[i] != "" && IsDigit(cs[i][0])
  }

  /** The components of the path of a device on the usb bus numbered `n`. */
  function UsbPath(ctrl: seq<string>, n: nat, below: seq<string>, last: string): seq<string> {
    ctrl + ["usb" + Dec(n)] + (below + [last])
  }

  /**
   Nothing on the path brings in an arm before usb's, and the bus is the first component named so.
   Below it there may well be serio, platform or pci components, and further ones named so.
   */
  ghost predicate OnUsb(ctrl: seq<string>, below: seq<string>, last: string) {
    && Clear(ctrl) && HasNumeric(below)
    && Calm(below + [last]) && Others(below + [last], "host") && Others(below + [last], "ttyUSB")
  }

  lemma UsbPartIsQuiet(n: nat)
    ensures Calm(["usb" + Dec(n)]) && Others(["usb" + Dec(n)], "host") && Others(["usb" + Dec(n)], "ttyUSB")
  {
    hide Dec;
    WordNumeral("usb", n);
    var c := "usb" + Dec(n);
    OneOther(c, "ide", 0);
    OneOther(c, "css0", 0);
    OneOther(c, "rport-", 0);
    OneOther(c, "end_device-", 0);
    OneOther(c, "fw-host", 0);
    OneOther(c, "session", 0);
    OneOther(c, "host", 0);
    OneOther(c, "ttyUSB", 0);
  }

  lemma UsbPathIsQuiet(ctrl: seq<string>, n: nat, below: seq<string>, last: string)
    requires OnUsb(ctrl, below, last)
    ensures var cs := UsbPath(ctrl, n, below, last); Calm(cs) && Others(cs, "host") && Others(cs, "ttyUSB")
  {
    hide Others, Dec, HasNumeric;
    UsbPartIsQuiet(n);
    EarlyConcat(ctrl, ["usb" + Dec(n)]);
    EarlyConcat(ctrl + ["usb" + Dec(n)], below + [last]);
    OthersConcat(ctrl, ["usb" + Dec(n)], "host");
    OthersConcat(ctrl + ["usb" + Dec(n)], below + [last], "host");
    OthersConcat(ctrl, ["usb" + Dec(n)], "ttyUSB");
    OthersConcat(ctrl + ["usb" + Dec(n)], below + [last], "ttyUSB");
  }

  lemma UsbText(ctrl: seq<string>, n: nat, below: seq<string>, last: string)
    ensures PathOf(UsbPath(ctrl, n, below, last)) == PathOf(ctrl) + ("/usb" + Dec(n) + PathOf(below + [last]))
    ensures PathOf(below + [last]) == PathOf(below) + ("/" + last)
  {
    hide PathOf, Dec;
    PathOfMore(ctrl, "usb" + Dec(n));
    PathOfConcat(ctrl + ["usb" + Dec(n)], below + [last]);
    PathOfMore(below, last);
    assert PathOf(ctrl) + "/" + ("usb" + Dec(n)) + PathOf(below + [last])
      == PathOf(ctrl) + ("/usb" + Dec(n) + PathOf(below + [last]));
    assert PathOf(below) + "/" + last == PathOf(below) + ("/" + last);
  }

  lemma NumericMatches(below: seq<string>, last: string)
    requires HasNumeric(below)
    ensures InOrder(USB[1..], PathOf(below) + ("/" + last))
  {
    hide InOrder, PathOf;
    var i :| 0 <= i < |below| && below[i] != "" && IsDigit(below[i][0]);
    var ws := USB[1..];
    assert ws[1..] == ["/"];
    var up, c, down := PathOf(below[..i]), below[i], PathOf(below[i + 1..]);
    SlashMatches("/" + last);
    InOrderAfter(["/"], down, "/" + last);
    AtDigit(ws, "/", c, down + ("/" + last));
    InOrderAfter(ws, up, "/" + c + (down + ("/" + last)));
    PathOfMore(below[..i], c);
    PathOfConcat(below[..i] + [c], below[i + 1..]);
    assert below[..i] + [c] + below[i + 1..] == below;
    assert up + ("/" + c + (down + ("/" + last))) == PathOf(below) + ("/" + last);
  }

  lemma UsbMatches(ctrl: seq<string>, n: nat, below: seq<string>, last: string)
    requires HasNumeric(below)
    ensures InOrder(USB, PathOf(UsbPath(ctrl, n, below, last)))
  {
    hide InOrder, PathOf, HasNumeric, UsbPath, Dec;
    UsbText(ctrl, n, below, last);
    NumericMatches(below, last);
    AtDigit(USB, "/usb", Dec(n), PathOf(below) + ("/" + last));
    InOrderAfter(USB, PathOf(ctrl), "/usb" + Dec(n) + PathOf(below + [last]));
  }

  /** Such a device takes the usb arm, although every one on a pci bus matches the pattern of the pci arm too. */
  lemma UsbArm(ctrl: seq<string>, n: nat, below: seq<string>, last: string)
    requires OnUsb(ctrl, below, last)
    ensures ArmOf(PathOf(UsbPath(ctrl, n, below, last))).Usb?
  {
    hide InOrder, PathOf, Others, HasNumeric, UsbPath;
    var cs := UsbPath(ctrl, n, below, last);
    UsbPathIsQuiet(ctrl, n, below, last);
    NotEarly(cs);
    NotFirewireOrIscsi(cs);
    NotScsiTtyOrUsb(cs);
    UsbMatches(ctrl, n, below, last);
  }

  lemma UsbCut(ctrl: seq<string>, n: nat, below: seq<string>, last: string)
    requires Others(ctrl, "usb")
    ensures var s := PathOf(UsbPath(ctrl, n, below, last));
      FirstAt("/usb", s) == Some(|PathOf(ctrl)|) && CutFirst("/usb", s) == PathOf(ctrl)
  {
    hide PathOf, Others, UsbPath, Dec;
    UsbText(ctrl, n, below, last);
    var rest := "/usb" + Dec(n) + PathOf(below + [last]);
    StartsWith("/usb", Dec(n) + PathOf(below + [last]));
    assert "/usb" + (Dec(n) + PathOf(below + [last])) == rest;
    FirstIsAt("usb", "/usb", ctrl, rest);
  }

  /** The path down to a component. */
  lemma ThroughComponent(word: string, up: string, c: string, down: string)
    requires word != "" && '/' !in c && (down == "" || down[0] == '/')
    requires FirstAt(word, up + ("/" + c + down)) == Some(|up|)
    ensures ThroughFirst(word, up + ("/" + c + down)) == up + ("/" + c)
  {
    hide FirstAt, CutFirst;
    var s := up + ("/" + c + down);
    var rest := s[|up| + 1..];
    assert rest == c + down;
    CutAtSlash(c, down);
    assert s[..|up| + 1] + c == up + ("/" + c);
  }

  /** The number of the bus, as the arm reads it. */
  lemma UsbNumber(ctrl: seq<string>, n: nat, below: seq<string>, last: string)
    requires Others(ctrl, "usb")
    ensures TestNumber(AfterLast("/usb", ThroughFirst("/usb", PathOf(UsbPath(ctrl, n, below, last))))) == Some(n)
  {
    hide PathOf, Others, UsbPath, Dec, ThroughFirst, TestNumber, FirstAt, AfterLast, CutLast, CutFirst;
    var up, c, down := PathOf(ctrl), "usb" + Dec(n), PathOf(below + [last]);
    UsbText(ctrl, n, below, last);
    UsbCut(ctrl, n, below, last);
    DecHasNo(n, '/');
    BeginsPath(below + [last]);
    assert "/usb" + Dec(n) + down == "/" + c + down;
    ThroughComponent("/usb", up, c, down);
    assert "/" + "usb" == "/usb";
    LastWord("usb", up, Dec(n));
    DecNumber(n);
  }

  /** The segment of a device on bus `n`, the controller's first bus being `m`. */
  function UsbSegment(n: nat, m: nat, port: string): string
    requires m <= n
  {
    "usb-" + Dec(n - m) + ":" + port
  }

  /** The usb arm: the bus counted from the first listed and the port, in front, and on from `ctrl`. */
  lemma UsbSpelled(fs: Sysfs, start: string, ctrl: seq<string>, n: nat, m: nat, below: seq<string>, last: string,
                   port: string, w: Walk)
    requires OnUsb(ctrl, below, last) && IsPort(last, port)
    requires IsFirst("usb", List(fs, PathOf(ctrl)), n, m)
    requires w.dev == PathOf(UsbPath(ctrl, n, below, last))
    ensures Step(fs, start, w) == w.(dev := PathOf(ctrl), result := 0, id := Dashed(UsbSegment(n, m, port), w.id))
  {
    hide PathOf, UsbPath, OnUsb, ArmOf, Dec, CutFirst, AfterLast, ThroughFirst, AfterFirst, Base, IsPort, FirstAt;
    hide HandleUsb, IsFirst, TestNumber;
    UsbArm(ctrl, n, below, last);
    UsbParts(ctrl, n, below, last);
    UsbCut(ctrl, n, below, last);
    UsbNumber(ctrl, n, below, last);
    PortIsAfterDash(last, port);
    UsbMove(fs, PathOf(ctrl), n, m, last, port, w);
  }

  lemma UsbMove(fs: Sysfs, ctrl: string, n: nat, m: nat, last: string, port: string, w: Walk)
    requires Base(w.dev) == last && AfterFirst("-", last) == port && CutFirst("/usb", w.dev) == ctrl
    requires TestNumber(AfterLast("/usb", ThroughFirst("/usb", w.dev))) == Some(n)
    requires IsFirst("usb", List(fs, ctrl), n, m)
    ensures HandleUsb(fs, w) == w.(dev := ctrl, result := 0, id := Dashed(UsbSegment(n, m, port), w.id))
  {
    hide Dec, CutFirst, AfterLast, ThroughFirst, AfterFirst, Base, RelativePort, List, TestNumber, IsFirst;
    FirstIsBelow("usb", List(fs, ctrl), n, m);
    assert '#' !in "usb";
    CountsFromFirst("usb", List(fs, ctrl), n, m);
  }

  lemma UsbParts(ctrl: seq<string>, n: nat, below: seq<string>, last: string)
    requires OnUsb(ctrl, below, last)
    ensures Others(ctrl, "usb") && '/' !in last && Base(PathOf(UsbPath(ctrl, n, below, last))) == last
    ensures |PathOf(ctrl)| < |PathOf(UsbPath(ctrl, n, below, last))|
  {
    hide PathOf, Dec, Base;
    assert (below + [last])[|below|] == last && Others(below + [last], "host");
    DirOf(ctrl + ["usb" + Dec(n)] + below, last);
    assert ctrl + ["usb" + Dec(n)] + below + [last] == UsbPath(ctrl, n, below, last);
    UsbText(ctrl, n, below, last);
  }

  /** The place of a usb device behind a pci one: the pci device, the bus, and the components below it. */
  datatype Place = Place(bus: string, slots: seq<string>, slot: string, n: nat, below: seq<string>, last: string)

  function Controller(u: Place): seq<string> {
    PciPath(u.bus, u.slots + [u.slot])
  }

  function Parts(u: Place): seq<string> {
    UsbPath(Controller(u), u.n, u.below, u.last)
  }

  /** The device's port is `port`, and the first bus of its controller is numbered `m`. */
  ghost predicate IsAt(fs: Sysfs, u: Place, m: nat, port: string) {
    && IsBusNumber(u.bus) && Clear(u.slots + [u.slot]) && OnUsb(Controller(u), u.below, u.last)
    && IsPort(u.last, port) && IsFirst("usb", List(fs, PathOf(Controller(u))), u.n, m)
  }

  /** The identifier of a device at this place, with what was collected below it. */
  function UsbId(fs: Sysfs, u: Place, m: nat, port: string, id: string): string
    requires m <= u.n
  {
    Dashed("pci-" + u.slot, Kept(fs, PathOf(Controller(u)), Dashed(UsbSegment(u.n, m, port), id)))
  }

  /** The climb from a usb device behind a pci one: the bus and port in front, then the pci device, and the end. */
  lemma FromUsb(fs: Sysfs, start: string, u: Place, m: nat, port: string, w: Walk)
    requires IsAt(fs, u, m, port) && w.dev == PathOf(Parts(u)) && w.status == Walking
    ensures Climb(fs, start, w) == Some(w.(dev := "", result := 0, id := UsbId(fs, u, m, port, w.id)))
  {
    hide PathOf, UsbPath, OnUsb, Step, IsFirst, IsPort, IsBusNumber, Clear, Kept, Climb, UsbSegment;
    UsbSpelled(fs, start, Controller(u), u.n, m, u.below, u.last, port, w);
    UsbParts(Controller(u), u.n, u.below, u.last);
    FirstRound(fs, start, w);
    FromPci(fs, start, u.bus, u.slots, u.slot, Step(fs, start, w));
  }

  /** A usb device itself. */
  lemma UsbDevice(fs: Sysfs, u: Place, m: nat, port: string, tape: Option<string>)
    requires IsAt(fs, u, m, port)
    ensures IdPath(fs, PathOf(Parts(u)), tape) == Some(UsbId(fs, u, m, port, "") + Tail(tape))
  {
    hide PathOf, Parts, IsAt, Climb, UsbId, Tail, IdPath;
    var dev := PathOf(Parts(u));
    FromUsb(fs, dev, u, m, port, StartAt(dev));
    PartsNotEmpty(u);
    PlaceIsQuiet(fs, u, m, port);
    UsbIdNotEmpty(fs, u, m, port, "");
    PrintedIs(fs, dev, Climb(fs, dev, StartAt(dev)).value, tape);
  }

  lemma PartsNotEmpty(u: Place)
    ensures PathOf(Parts(u)) != ""
  {
    hide PathOf;
    PathBegins(Parts(u));
  }

  lemma UsbIdNotEmpty(fs: Sysfs, u: Place, m: nat, port: string, id: string)
    requires m <= u.n
    ensures UsbId(fs, u, m, port, id) != ""
  {
    hide Kept, PathOf, UsbSegment;
  }

  /** A disk behind usb: the scsi segment behind the usb one behind the pci one. */
  lemma UsbDisk(fs: Sysfs, u: Place, m: nat, port: string, a: Addr, k: nat, tape: Option<string>)
    requires IsAt(fs, u, m, port) && IsFirst("host", List(fs, PathOf(Parts(u))), a.host, k)
    ensures IdPath(fs, ScsiPath(PathOf(Parts(u)), a), tape)
      == Some(UsbId(fs, u, m, port, ScsiText(a, k)) + Tail(tape))
  {
    hide PathOf, Parts, IsAt, Climb, UsbId, Tail, IdPath, ArmOf, Step, ScsiPath, IsFirst, ScsiText;
    var ctrl := PathOf(Parts(u));
    var dev := ScsiPath(ctrl, a);
    PlaceIsQuiet(fs, u, m, port);
    FirstIsBelow("host", List(fs, ctrl), a.host, k);
    ScsiTakes(Parts(u), a);
    ScsiSpelled(fs, dev, ctrl, a, k);
    CtrlIsPrefix(ctrl, a);
    FirstRound(fs, dev, StartAt(dev));
    FromUsb(fs, dev, u, m, port, Step(fs, dev, StartAt(dev)));
    UsbIdNotEmpty(fs, u, m, port, ScsiText(a, k));
    PrintedIs(fs, dev, Climb(fs, dev, StartAt(dev)).value, tape);
  }

  lemma PlaceIsQuiet(fs: Sysfs, u: Place, m: nat, port: string)
    requires IsAt(fs, u, m, port)
    ensures Calm(Parts(u)) && Others(Parts(u), "host") && m <= u.n
  {
    hide Clear, Calm, Others, PathOf, IsPort, UsbPath, OnUsb, PciPath;
    UsbPathIsQuiet(Controller(u), u.n, u.below, u.last);
  }

  /** A serial line behind usb is named like the usb device it belongs to. */
  lemma UsbTty(fs: Sysfs, u: Place, m: nat, port: string, name: string, tape: Option<string>)
    requires IsAt(fs, u, m, port) && '/' !in name
    ensures IdPath(fs, PathOf(Parts(u) + ["ttyUSB" + name]), tape) == Some(UsbId(fs, u, m, port, "") + Tail(tape))
  {
    hide PathOf, Parts, IsAt, Climb, UsbId, Tail, IdPath, Step, ArmOf;
    var cs := Parts(u);
    var dev := PathOf(cs + ["ttyUSB" + name]);
    PlaceIsQuiet(fs, u, m, port);
    TtyStep(fs, dev, cs, name);
    PathOfMore(cs, "ttyUSB" + name);
    FirstRound(fs, dev, StartAt(dev));
    FromUsb(fs, dev, u, m, port, Step(fs, dev, StartAt(dev)));
    UsbIdNotEmpty(fs, u, m, port, "");
    PrintedIs(fs, dev, Climb(fs, dev, StartAt(dev)).value, tape);
  }

  /** The tty arm comes before usb's and pci's, and names nothing. */
  lemma TtyStep(fs: Sysfs, start: string, cs: seq<string>, name: string)
    requires Calm(cs) && Others(cs, "host") && '/' !in name
    ensures var w := StartAt(PathOf(cs + ["ttyUSB" + name])); Step(fs, start, w) == w.(dev := PathOf(cs))
  {
    hide PathOf, Others, InOrder, CutLast;
    var c := "ttyUSB" + name;
    CalmByFirst(c);
    OneOther(c, "host", 0);
    EarlyConcat(cs, [c]);
    OthersConcat(cs, [c], "host");
    NotEarly(cs + [c]);
    NotFirewireOrIscsi(cs + [c]);
    NotScsiTtyOrUsb(cs + [c]);
    TtyMatches(cs, name);
  }

  lemma TtyMatches(cs: seq<string>, name: string)
    requires '/' !in name
    ensures var s := PathOf(cs + ["ttyUSB" + name]); InOrder(["/ttyUSB"], s) && CutLast("/ttyUSB", s) == PathOf(cs)
  {
    hide PathOf, InOrder, CutLast, Others;
    PathOfMore(cs, "ttyUSB" + name);
    NothingMatches(name);
    assert ["/ttyUSB"][1..] == [];
    AtText(["/ttyUSB"], name);
    InOrderAfter(["/ttyUSB"], PathOf(cs), "/ttyUSB" + name);
    assert PathOf(cs) + ("/" + ("ttyUSB" + name)) == PathOf(cs) + ("/ttyUSB" + name);
    assert PathOf(cs) + ("/" + ("ttyUSB" + name)) == PathOf(cs) + "/" + ("ttyUSB" + name);
    LastWord("ttyUSB", PathOf(cs), name);
    assert "/" + "ttyUSB" == "/ttyUSB";
  }
}

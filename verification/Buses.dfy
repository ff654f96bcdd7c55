/** The identifiers of ide, serio and platform devices, spelt out. */
module Buses {
  import opened Text
  import opened Glob
  import opened PathId
  import opened Climbing
  import opened Identity
  import opened Paths
  import opened Hardware

  // ---------- ide ----------

  /** Drive `c` of the interface numbered `k`. */
  function DrivePart(k: nat, c: nat): string {
    Dec(k) + "." + Dec(c)
  }

  function IdePath(ctrl: seq<string>, k: nat, c: nat): seq<string> {
    ctrl + ["ide" + Dec(k)] + [DrivePart(k, c)]
  }

  lemma DriveIsPart(k: nat, c: nat)
    ensures '/' !in DrivePart(k, c) && DrivePart(k, c) != "" && IsDigit(DrivePart(k, c)[0])
    ensures !("ide" <= DrivePart(k, c))
    ensures AfterFirst(".", DrivePart(k, c)) == Dec(c) && CutLast(".", DrivePart(k, c)) == Dec(k)
  {
    hide Dec, AfterFirst, CutLast;
    DecHasNo(k, '/');
    DecHasNo(c, '/');
    DecHasNo(k, '.');
    DecHasNo(c, '.');
    AfterSign('.', Dec(k), Dec(c));
    UpToSign('.', Dec(k), Dec(c));
    assert DrivePart(k, c)[0] == Dec(k)[0] && "ide"[0] == 'i';
  }

  lemma UpToSign(c: char, x: string, y: string)
    requires c != '#' && c !in y
    ensures CutLast([c], x + [c] + y) == x
  {
    var s := x + [c] + y;
    forall j | |x| < j <= |s|
      ensures !At([c], s[j..])
    {
      assert j < |s| ==> s[j..][0] == y[j - |x| - 1] && y[j - |x| - 1] in y;
    }
    assert s[|x|..][0] == c;
    LastAtIs([c], s, |x|);
    assert s[..|x|] == x;
  }

  /** The one word of the pattern, for one digit and for two. */
  lemma IdeWord(k: nat, c: nat)
    requires k < 100
    ensures var s := "/ide" + Dec(k) + "/" + DrivePart(k, c); At("/ide#/#.#", s) || At("/ide##/##.#", s)
  {
    var s := "/ide" + Dec(k) + "/" + DrivePart(k, c);
    var d := Dec(k);
    if k < 10 {
      assert s == "/ide" + [d[0]] + "/" + [d[0]] + "." + Dec(c);
    } else {
      assert k / 10 < 10;
      assert d == Dec(k / 10) + [DigitChar(k % 10)] && |Dec(k / 10)| == 1;
      assert s == "/ide" + [d[0], d[1]] + "/" + [d[0], d[1]] + "." + Dec(c);
    }
  }

  /** A drive takes the ide arm, whatever else is on its path. */
  lemma IdeArm(ctrl: seq<string>, k: nat, c: nat)
    requires k < 100
    ensures ArmOf(PathOf(IdePath(ctrl, k, c))).Ide?
  {
    hide InOrder, PathOf, Dec, At;
    var s := "/ide" + Dec(k) + "/" + DrivePart(k, c);
    IdeText(ctrl, k, c);
    IdeWord(k, c);
    var w := if At("/ide#/#.#", s) then "/ide#/#.#" else "/ide##/##.#";
    WholeWord(w, s);
    InOrderAfter([w], PathOf(ctrl), s);
  }

  lemma WholeWord(w: string, s: string)
    requires At(w, s)
    ensures InOrder([w], s)
  {
    NothingMatches(s[|w|..]);
    assert [w][1..] == [];
  }

  lemma IdeText(ctrl: seq<string>, k: nat, c: nat)
    ensures PathOf(IdePath(ctrl, k, c)) == PathOf(ctrl) + ("/ide" + Dec(k) + "/" + DrivePart(k, c))
  {
    hide PathOf, Dec, DrivePart;
    PathOfMore(ctrl, "ide" + Dec(k));
    PathOfMore(ctrl + ["ide" + Dec(k)], DrivePart(k, c));
    assert PathOf(ctrl) + "/" + ("ide" + Dec(k)) + "/" + DrivePart(k, c)
      == PathOf(ctrl) + ("/ide" + Dec(k) + "/" + DrivePart(k, c));
  }

  lemma IdeParts(ctrl: seq<string>, k: nat, c: nat)
    ensures var dev := PathOf(IdePath(ctrl, k, c));
      Base(dev) == DrivePart(k, c) && Dir(Dir(dev)) == PathOf(ctrl) && |PathOf(ctrl)| < |dev|
  {
    hide PathOf, Dec, DrivePart, Dir, Base;
    DriveIsPart(k, c);
    WordNumeral("ide", k);
    DirOf(ctrl + ["ide" + Dec(k)], DrivePart(k, c));
    DirOf(ctrl, "ide" + Dec(k));
    IdeText(ctrl, k, c);
  }

  lemma MasterOrSlave(c: nat)
    ensures Dec(c) == "0" || Dec(c) == "1" <==> c < 2
  {
    assert Dec(0) == "0" && Dec(1) == "1";
    if Dec(c) == "0" {
      DecInjective(c, 0);
    } else if Dec(c) == "1" {
      DecInjective(c, 1);
    }
  }

  /** The segment of a drive, the controller's first interface being `m`; a third drive keeps the channel before. */
  function IdeSegment(k: nat, m: nat, c: nat, before: string): string
    requires m <= k
  {
    "ide-" + Dec(k - m) + ":" + (if c < 2 then Dec(c) else before)
  }

  /** The ide arm: the interface counted from the first listed, the channel, and on from the controller. */
  lemma IdeSpelled(fs: Sysfs, start: string, ctrl: seq<string>, k: nat, m: nat, c: nat, w: Walk)
    requires k < 100 && IsFirst("ide", List(fs, PathOf(ctrl)), k, m) && w.dev == PathOf(IdePath(ctrl, k, c))
    ensures var v := Step(fs, start, w);
      && v.dev == PathOf(ctrl) && v.id == Dashed(IdeSegment(k, m, c, w.regs.channel), w.id)
      && v.result == 0 && v.status == w.status
  {
    hide PathOf, IdePath, ArmOf, Dec, Base, Dir, AfterFirst, CutLast, TestNumber, IsFirst, List, RelativePort;
    hide DrivePart;
    IdeArm(ctrl, k, c);
    IdeParts(ctrl, k, c);
    DriveIsPart(k, c);
    DecNumber(k);
    MasterOrSlave(c);
    FirstIsBelow("ide", List(fs, PathOf(ctrl)), k, m);
    assert '#' !in "ide";
    CountsFromFirst("ide", List(fs, PathOf(ctrl)), k, m);
  }

  /** A drive of a pci controller, from its directory to the identifier printed. */
  lemma IdeDisk(fs: Sysfs, bus: string, slots: seq<string>, slot: string, k: nat, m: nat, c: nat, tape: Option<string>)
    requires Behind(bus, slots + [slot]) && k < 100
    requires IsFirst("ide", List(fs, PathOf(PciPath(bus, slots + [slot]))), k, m)
    ensures var cs := PciPath(bus, slots + [slot]);
      IdPath(fs, PathOf(IdePath(cs, k, c)), tape)
      == Some(Dashed("pci-" + slot, Kept(fs, PathOf(cs), IdeSegment(k, m, c, ""))) + Tail(tape))
  {
    hide PathOf, IdePath, Step, IsFirst, Behind, IdeSegment, Climb, Kept, Tail, IdPath;
    var cs := PciPath(bus, slots + [slot]);
    var dev := PathOf(IdePath(cs, k, c));
    IdeSpelled(fs, dev, cs, k, m, c, StartAt(dev));
    IdeParts(cs, k, c);
    FirstRound(fs, dev, StartAt(dev));
    FromPci(fs, dev, bus, slots, slot, Step(fs, dev, StartAt(dev)));
    PrintedIs(fs, dev, Climb(fs, dev, StartAt(dev)).value, tape);
  }

  // ---------- serio ----------

  /** Nothing on the path brings in an arm before serio's. */
  predicate Plain(cs: seq<string>) {
    Clear(cs) && Others(cs, "pci")
  }

  lemma PlainConcat(a: seq<string>, b: seq<string>)
    ensures Plain(a + b) <==> Plain(a) && Plain(b)
  {
    hide Clear, Others;
    EarlyConcat(a, b);
    OthersConcat(a, b, "pci");
  }

  function SerioPath(up: seq<string>, n: nat, below: seq<string>): seq<string> {
    up + ["serio" + Dec(n)] + below
  }

  lemma SerioPartIsPlain(n: nat)
    ensures Plain(["serio" + Dec(n)])
  {
    hide Dec, Others;
    WordNumeral("serio", n);
    var c := "serio" + Dec(n);
    OneOther(c, "ide", 0);
    OneOther(c, "css0", 0);
    OneOther(c, "rport-", 0);
    OneOther(c, "end_device-", 0);
    OneOther(c, "fw-host", 0);
    OneOther(c, "session", 2);
    OneOther(c, "host", 0);
    OneOther(c, "ttyUSB", 0);
    OneOther(c, "usb", 0);
    OneOther(c, "pci", 0);
  }

  lemma SerioText(up: seq<string>, n: nat, below: seq<string>)
    ensures PathOf(SerioPath(up, n, below)) == PathOf(up) + ("/" + ("serio" + Dec(n)) + PathOf(below))
  {
    hide PathOf, Dec;
    PathOfMore(up, "serio" + Dec(n));
    PathOfConcat(up + ["serio" + Dec(n)], below);
    assert PathOf(up) + "/" + ("serio" + Dec(n)) + PathOf(below)
      == PathOf(up) + ("/" + ("serio" + Dec(n)) + PathOf(below));
  }

  /** Its arm comes before platform's. */
  lemma SerioArm(up: seq<string>, n: nat, below: seq<string>)
    requires Plain(up) && Plain(below)
    ensures ArmOf(PathOf(SerioPath(up, n, below))).Serio?
  {
    hide InOrder, PathOf, Others, SerioPath;
    var cs := SerioPath(up, n, below);
    SerioIsPlain(up, n, below);
    NotEarly(cs);
    NotFirewireOrIscsi(cs);
    NotScsiTtyOrUsb(cs);
    NotLate(cs);
    SerioMatches(up, n, below);
  }

  lemma SerioIsPlain(up: seq<string>, n: nat, below: seq<string>)
    requires Plain(up) && Plain(below)
    ensures Plain(SerioPath(up, n, below))
  {
    hide Plain, Dec;
    SerioPartIsPlain(n);
    PlainConcat(up, ["serio" + Dec(n)]);
    PlainConcat(up + ["serio" + Dec(n)], below);
  }

  lemma SerioMatches(up: seq<string>, n: nat, below: seq<string>)
    ensures InOrder(["/serio#"], PathOf(SerioPath(up, n, below)))
  {
    hide InOrder, PathOf, SerioPath, Dec;
    SerioText(up, n, below);
    NothingMatches(PathOf(below));
    assert ["/serio#"][1..] == [];
    AtDigit(["/serio#"], "/serio", Dec(n), PathOf(below));
    assert "/serio" + Dec(n) + PathOf(below) == "/" + ("serio" + Dec(n)) + PathOf(below);
    InOrderAfter(["/serio#"], PathOf(up), "/" + ("serio" + Dec(n)) + PathOf(below));
  }

  lemma SerioCuts(up: seq<string>, n: nat, below: seq<string>)
    requires Others(up, "serio") && Others(below, "serio")
    ensures var s := PathOf(SerioPath(up, n, below));
      CutFirst("/serio", s) == PathOf(up) && AfterLast("/serio", s) == Dec(n) + PathOf(below)
  {
    hide PathOf, Others, SerioPath, Dec, CutFirst, AfterLast, At;
    SerioText(up, n, below);
    DecHasNo(n, '/');
    assert "/" + "serio" == "/serio";
    LastWordOf("serio", PathOf(up), Dec(n), below);
    var rest := "/" + ("serio" + Dec(n)) + PathOf(below);
    StartsWith("/serio", Dec(n) + PathOf(below));
    assert "/serio" + (Dec(n) + PathOf(below)) == rest;
    FirstIsAt("serio", "/serio", up, rest);
  }

  /** The serio arm: the number and all that stands below it, in front of what was collected, and on from above. */
  lemma SerioSpelled(fs: Sysfs, start: string, up: seq<string>, n: nat, below: seq<string>, w: Walk)
    requires Plain(up) && Plain(below) && Others(up, "serio") && Others(below, "serio")
    requires w.dev == PathOf(SerioPath(up, n, below))
    ensures Step(fs, start, w)
      == w.(dev := PathOf(up), result := 0, id := Dashed("serio-" + (Dec(n) + PathOf(below)), w.id))
  {
    hide PathOf, SerioPath, ArmOf, Others, Plain, Dec, CutFirst, AfterLast;
    SerioArm(up, n, below);
    SerioCuts(up, n, below);
  }

  // ---------- platform ----------

  /** The path of a platform device. */
  function PlatformPath(mids: seq<string>, name: string): seq<string> {
    UP + ["platform"] + (mids + [name])
  }

  /** Nothing on the path brings in an arm before platform's. */
  predicate IsPlatform(mids: seq<string>, name: string) {
    Plain(mids + [name]) && Others(mids + [name], "serio")
  }

  lemma PlatformIsPlain(mids: seq<string>, name: string)
    requires IsPlatform(mids, name)
    ensures Plain(PlatformPath(mids, name)) && Others(PlatformPath(mids, name), "serio") && '/' !in name
  {
    hide Others, Clear;
    UpIsClear();
    var c := "platform";
    ClearByFirst(c);
    OneOther(c, "pci", 1);
    OneOther(c, "serio", 0);
    PlainConcat(UP, [c]);
    PlainConcat(UP + [c], mids + [name]);
    OthersConcat(UP, [c], "serio");
    OthersConcat(UP + [c], mids + [name], "serio");
    LastHasNoSlash(mids, name);
  }

  lemma LastHasNoSlash(mids: seq<string>, name: string)
    requires Others(mids + [name], "serio")
    ensures '/' !in name
  {
    assert (mids + [name])[|mids|] == name;
  }

  lemma PlatformText(mids: seq<string>, name: string)
    ensures PathOf(PlatformPath(mids, name)) == PathOf(UP) + ("/platform" + PathOf(mids + [name]))
    ensures PathOf(mids + [name]) != "" && PathOf(mids + [name])[0] == '/'
  {
    hide PathOf;
    PathOfMore(UP, "platform");
    PathOfConcat(UP + ["platform"], mids + [name]);
    PathBegins(mids + [name]);
    assert PathOf(UP) + "/" + "platform" + PathOf(mids + [name]) == PathOf(UP) + ("/platform" + PathOf(mids + [name]));
  }

  lemma PlatformArm(mids: seq<string>, name: string)
    requires IsPlatform(mids, name)
    ensures ArmOf(PathOf(PlatformPath(mids, name))).Platform?
  {
    hide InOrder, PathOf, Others, PlatformPath;
    var cs := PlatformPath(mids, name);
    PlatformIsPlain(mids, name);
    NotEarly(cs);
    NotFirewireOrIscsi(cs);
    NotScsiTtyOrUsb(cs);
    NotLate(cs);
    PlatformMatches(mids, name);
  }

  lemma PlatformMatches(mids: seq<string>, name: string)
    ensures InOrder(["/platform/"], PathOf(PlatformPath(mids, name)))
  {
    hide InOrder, PathOf, PlatformPath;
    var rest := PathOf(mids + [name]);
    PlatformText(mids, name);
    NothingMatches(rest[1..]);
    assert ["/platform/"][1..] == [];
    AtText(["/platform/"], rest[1..]);
    assert "/platform/" + rest[1..] == "/platform" + rest;
    InOrderAfter(["/platform/"], PathOf(UP), "/platform" + rest);
  }

  lemma PlatformCut(mids: seq<string>, name: string)
    ensures CutFirst("/platform", PathOf(PlatformPath(mids, name))) == PathOf(UP)
    ensures |PathOf(UP)| < |PathOf(PlatformPath(mids, name))|
  {
    hide PathOf, PlatformPath, CutFirst, At, Others;
    UpIsClear();
    PlatformText(mids, name);
    StartsWith("/platform", PathOf(mids + [name]));
    assert "/" + "platform" == "/platform";
    FirstIsAt("platform", "/platform", UP, "/platform" + PathOf(mids + [name]));
  }

  /** The climb from a platform device: its name in front, and the end. */
  lemma FromPlatform(fs: Sysfs, start: string, mids: seq<string>, name: string, w: Walk)
    requires IsPlatform(mids, name) && w.dev == PathOf(PlatformPath(mids, name)) && w.status == Walking
    ensures Climb(fs, start, w) == Some(w.(dev := "", result := 0, id := Dashed("platform-" + name, w.id)))
  {
    hide PathOf, PlatformPath, IsPlatform, Step;
    var v := w.(dev := PathOf(UP), result := 0, id := Dashed("platform-" + name, w.id));
    PlatformStep(fs, start, mids, name, w);
    PlatformCut(mids, name);
    UpArm();
    UpStep(fs, start, v);
    FirstRound(fs, start, w);
  }

  lemma PlatformStep(fs: Sysfs, start: string, mids: seq<string>, name: string, w: Walk)
    requires IsPlatform(mids, name) && w.dev == PathOf(PlatformPath(mids, name))
    ensures Step(fs, start, w) == w.(dev := PathOf(UP), result := 0, id := Dashed("platform-" + name, w.id))
  {
    hide PathOf, IsPlatform, ArmOf, CutFirst, Base, Plain, Others;
    PlatformArm(mids, name);
    PlatformCut(mids, name);
    PlatformIsPlain(mids, name);
    DirOf(UP + ["platform"] + mids, name);
    assert UP + ["platform"] + mids + [name] == PlatformPath(mids, name);
  }

  /** A platform device, from its directory to the identifier printed. */
  lemma PlatformDevice(fs: Sysfs, mids: seq<string>, name: string, tape: Option<string>)
    requires IsPlatform(mids, name)
    ensures IdPath(fs, PathOf(PlatformPath(mids, name)), tape) == Some("platform-" + name + Tail(tape))
  {
    hide PathOf, PlatformPath, IsPlatform, Climb, Tail, IdPath;
    var dev := PathOf(PlatformPath(mids, name));
    FromPlatform(fs, dev, mids, name, StartAt(dev));
    PlatformCut(mids, name);
    PrintedIs(fs, dev, Climb(fs, dev, StartAt(dev)).value, tape);
  }

  /** A serial port of a platform device, a keyboard's say: its own segment behind the device's. */
  lemma PlatformSerio(fs: Sysfs, mids: seq<string>, name: string, n: nat, below: seq<string>, tape: Option<string>)
    requires IsPlatform(mids, name) && Plain(below) && Others(below, "serio")
    ensures IdPath(fs, PathOf(SerioPath(PlatformPath(mids, name), n, below)), tape)
      == Some("platform-" + name + "-" + ("serio-" + (Dec(n) + PathOf(below))) + Tail(tape))
  {
    hide PathOf, PlatformPath, SerioPath, IsPlatform, Climb, Tail, IdPath, Step, Plain, Others, Dec;
    var up := PlatformPath(mids, name);
    var dev := PathOf(SerioPath(up, n, below));
    PlatformIsPlain(mids, name);
    SerioSpelled(fs, dev, up, n, below, StartAt(dev));
    SerioText(up, n, below);
    FirstRound(fs, dev, StartAt(dev));
    FromPlatform(fs, dev, mids, name, Step(fs, dev, StartAt(dev)));
    PrintedIs(fs, dev, Climb(fs, dev, StartAt(dev)).value, tape);
  }
}

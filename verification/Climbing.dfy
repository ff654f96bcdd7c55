/**
 The climb of path_id: when it ends, where it goes, and what the end of the path
 contributes to the identifier.
 */
module Climbing {
  import opened Text
  import opened Glob
  import opened PathId

  // ---------- words ----------

  /** A word that occurs takes its beginnings with it. */
  lemma WordPrefix(w: string, v: string, s: string)
    requires v <= w && Has(w, s)
    ensures Has(v, s)
  {
    var i := FirstAt(w, s).value;
    assert At(v, s[i..]) by {
      assert forall k :: 0 <= k < |v| ==> v[k] == w[k];
    }
    Occurs(v, s, i);
  }

  lemma OneWord(w: string, s: string)
    requires InOrder([w], s)
    ensures Has(w, s)
  {
    FirstWordOccurs([w], s);
  }

  // ---------- termination ----------

  /**
   A round that leaves the walk on the same node: a firewire node without an identifier,
   or a SAS node whose path has no component to cut at.
   */
  predicate Stuck(fs: Sysfs, w: Walk) {
    match ArmOf(w.dev)
    case Firewire => Read(fs, w.dev + "/ieee1394_id", w.regs.ieeeId) == ""
    case Sas =>
      && SasPhy(fs, w.dev) != NO_PHY && SasRegs(fs, w).endAddress != ""
      && !Has("/target", w.dev) && !Has("/port", w.dev) && !Has("/host#", w.dev)
    case _ => false
  }

  lemma DirShortens(dev: string)
    requires Has("/", dev)
    ensures |Dir(dev)| < |dev| && |Dir(Dir(dev))| < |dev| && |Dir(Dir(Dir(dev)))| < |dev|
  {
    CutShortens("/", dev);
  }

  lemma NoCut(w: string, s: string)
    requires w != ""
    ensures CutFirst(w, s) == s <==> !Has(w, s)
    ensures CutLast(w, s) == s <==> !Has(w, s)
  {
    LastIffFirst(w, s);
    if Has(w, s) {
      CutShortens(w, s);
    }
  }

  lemma SasAboveExact(dev: string)
    ensures |SasAbove(dev)| <= |dev|
    ensures |SasAbove(dev)| == |dev| <==> !Has("/target", dev) && !Has("/port", dev) && !Has("/host#", dev)
    ensures |SasAbove(dev)| == |dev| ==> SasAbove(dev) == dev
  {
    var a := CutFirst("/target", dev);
    var b := CutFirst("/port", a);
    NoCut("/target", dev);
    NoCut("/port", a);
    NoCut("/host#", b);
    assert a <= dev && b <= a && SasAbove(dev) <= b;
    assert |a| == |dev| ==> a == dev;
    assert |b| == |a| ==> b == a;
    assert |SasAbove(dev)| == |b| ==> SasAbove(dev) == b;
  }

  /** The arms with a slash in their pattern stand on a path with a slash. */
  lemma ArmHasSlash(dev: string)
    requires !ArmOf(dev).Unhandled? && !ArmOf(dev).Root?
    ensures Has("/", dev)
  {
    var a := ArmOf(dev);
    var ws := match a
      case Ide => if InOrder(["/ide#/#.#"], dev) then ["/ide#/#.#"] else ["/ide##/##.#"]
      case Css => ["/css0/"]
      case Fc => FC
      case Sas => SAS
      case Firewire => FIREWIRE
      case Iscsi => ISCSI
      case Scsi => SCSI
      case Tty => ["/ttyUSB"]
      case Usb => USB
      case Pci => PCI
      case Serio => ["/serio#"]
      case _ => ["/platform/"];
    FirstWordOccurs(ws, dev);
    WordPrefix(ws[0], "/", dev);
  }

  lemma ArmHasWord(dev: string)
    ensures ArmOf(dev).Firewire? ==> Has("/fw-host", dev)
    ensures ArmOf(dev).Usb? ==> Has("/usb", dev)
    ensures ArmOf(dev).Pci? ==> Has("/pci#", dev)
    ensures ArmOf(dev).Serio? ==> Has("/serio", dev)
    ensures ArmOf(dev).Platform? ==> Has("/platform", dev)
    ensures ArmOf(dev).Tty? ==> Has("/ttyUSB", dev)
  {
    match ArmOf(dev)
    case Firewire => FirstWordOccurs(FIREWIRE, dev); WordPrefix("/fw-host#", "/fw-host", dev);
    case Usb => FirstWordOccurs(USB, dev); WordPrefix("/usb#", "/usb", dev);
    case Pci => FirstWordOccurs(PCI, dev);
    case Serio => OneWord("/serio#", dev); WordPrefix("/serio#", "/serio", dev);
    case Platform => OneWord("/platform/", dev); WordPrefix("/platform/", "/platform", dev);
    case Tty => OneWord("/ttyUSB", dev);
    case _ =>
  }

  /** Every round either ends the walk, or shortens the path, or is stuck on it. */
  lemma RoundExact(fs: Sysfs, start: string, w: Walk)
    requires !Finished(w)
    ensures var v := Step(fs, start, w);
      && (Stuck(fs, w) <==> !Finished(v) && |v.dev| >= |w.dev|)
      && (Stuck(fs, w) ==> v.dev == w.dev)
  {
    hide InOrder, FirstAt, LastAt, PortOffset, SasPhy, SasRegs, TestNumber, AfterLast, AfterFirst;
    var dev := w.dev;
    ArmHasWord(dev);
    if !ArmOf(dev).Unhandled? && !ArmOf(dev).Root? {
      ArmHasSlash(dev);
      DirShortens(dev);
    }
    match ArmOf(dev)
    case Sas => SasAboveExact(dev);
    case Firewire => CutShortens("/fw-host", dev);
    case Fc =>
    case Usb => CutShortens("/usb", dev);
    case Pci => CutShortens("/pci#", dev);
    case Serio => CutShortens("/serio", dev);
    case Platform => CutShortens("/platform", dev);
    case Tty => CutShortens("/ttyUSB", dev);
    case _ =>
  }

  /** A stuck walk stays stuck. */
  lemma StuckStays(fs: Sysfs, start: string, w: Walk)
    requires !Finished(w) && Stuck(fs, w)
    ensures Stuck(fs, Step(fs, start, w)) && !Finished(Step(fs, start, w))
  {
    hide InOrder, FirstAt, LastAt, PortOffset, SasPhy;
    RoundExact(fs, start, w);
  }

  lemma {:induction false} RoundsFirst(fs: Sysfs, start: string, w: Walk, n: nat)
    requires !Finished(w)
    ensures Rounds(fs, start, w, n + 1) == Rounds(fs, start, Step(fs, start, w), n)
  {
    hide Step, Finished;
    if n == 0 {
      assert Rounds(fs, start, w, 0) == w;
    } else {
      RoundsFirst(fs, start, w, n - 1);
    }
  }

  lemma {:induction false} StuckForEver(fs: Sysfs, start: string, w: Walk, n: nat)
    requires !Finished(w) && Stuck(fs, w)
    ensures var v := Rounds(fs, start, w, n); !Finished(v) && Stuck(fs, v)
  {
    hide Step, Finished, Stuck;
    if n > 0 {
      StuckForEver(fs, start, w, n - 1);
      StuckStays(fs, start, Rounds(fs, start, w, n - 1));
    }
  }

  lemma {:induction false} FinishedStays(fs: Sysfs, start: string, w: Walk, n: nat)
    requires Finished(w)
    ensures Rounds(fs, start, w, n) == w
  {
    hide Step, Finished;
    if n > 0 {
      FinishedStays(fs, start, w, n - 1);
    }
  }

  ghost predicate Ends(fs: Sysfs, start: string, w: Walk) {
    exists n: nat :: Finished(Rounds(fs, start, w, n))
  }

  ghost predicate ComesToStick(fs: Sysfs, start: string, w: Walk) {
    exists n: nat :: !Finished(Rounds(fs, start, w, n)) && Stuck(fs, Rounds(fs, start, w, n))
  }

  lemma ShiftOneRound(fs: Sysfs, start: string, w: Walk)
    requires !Finished(w) && !Stuck(fs, w)
    ensures Ends(fs, start, w) <==> Ends(fs, start, Step(fs, start, w))
    ensures ComesToStick(fs, start, w) <==> ComesToStick(fs, start, Step(fs, start, w))
  {
    hide Step, Finished, Stuck;
    var v := Step(fs, start, w);
    assert Rounds(fs, start, w, 0) == w;
    forall n: nat
      ensures Rounds(fs, start, w, n + 1) == Rounds(fs, start, v, n)
    {
      RoundsFirst(fs, start, w, n);
    }
    if Ends(fs, start, w) {
      var n: nat :| Finished(Rounds(fs, start, w, n));
      assert Finished(Rounds(fs, start, v, n - 1));
    }
    if Ends(fs, start, v) {
      var n: nat :| Finished(Rounds(fs, start, v, n));
      assert Finished(Rounds(fs, start, w, n + 1));
    }
    if ComesToStick(fs, start, w) {
      var n: nat :| !Finished(Rounds(fs, start, w, n)) && Stuck(fs, Rounds(fs, start, w, n));
      assert Stuck(fs, Rounds(fs, start, v, n - 1));
    }
    if ComesToStick(fs, start, v) {
      var n: nat :| !Finished(Rounds(fs, start, v, n)) && Stuck(fs, Rounds(fs, start, v, n));
      assert Stuck(fs, Rounds(fs, start, w, n + 1));
    }
  }

  lemma EndsAtOnce(fs: Sysfs, start: string, w: Walk)
    requires Finished(w)
    ensures Ends(fs, start, w) && !ComesToStick(fs, start, w)
  {
    hide Step, Finished, Stuck;
    assert Rounds(fs, start, w, 0) == w;
    forall n: nat
      ensures Rounds(fs, start, w, n) == w
    {
      FinishedStays(fs, start, w, n);
    }
  }

  lemma SticksAtOnce(fs: Sysfs, start: string, w: Walk)
    requires !Finished(w) && Stuck(fs, w)
    ensures !Ends(fs, start, w) && ComesToStick(fs, start, w)
  {
    hide Step, Finished, Stuck;
    assert Rounds(fs, start, w, 0) == w;
    forall n: nat
      ensures !Finished(Rounds(fs, start, w, n))
    {
      StuckForEver(fs, start, w, n);
    }
  }

  /**
   Termination, exactly. The loop of `handle_device` ends after some number of rounds
   if and only if it never comes to a stuck node, and `Climb` says which.
   */
  lemma {:induction false} EndsExactly(fs: Sysfs, start: string, w: Walk)
    ensures Ends(fs, start, w) <==> !ComesToStick(fs, start, w)
    ensures Climb(fs, start, w).Some? <==> Ends(fs, start, w)
    decreases |w.dev|
  {
    hide Step, Finished, Stuck, Ends, ComesToStick;
    if Finished(w) {
      EndsAtOnce(fs, start, w);
    } else {
      var v := Step(fs, start, w);
      RoundExact(fs, start, w);
      if Stuck(fs, w) {
        SticksAtOnce(fs, start, w);
      } else {
        ShiftOneRound(fs, start, w);
        if Finished(v) {
          EndsAtOnce(fs, start, v);
        } else {
          EndsExactly(fs, start, v);
        }
      }
    }
  }

  /** `Climb` is where the rounds of the loop lead. */
  lemma {:induction false} ClimbIsRounds(fs: Sysfs, start: string, w: Walk) returns (n: nat)
    requires Climb(fs, start, w).Some?
    ensures Climb(fs, start, w) == Some(Rounds(fs, start, w, n)) && Finished(Rounds(fs, start, w, n))
    decreases |w.dev|
  {
    hide Step, Finished, Stuck;
    if Finished(w) {
      n := 0;
    } else {
      var v := Step(fs, start, w);
      if Finished(v) {
        n := 0;
        assert Rounds(fs, start, v, 0) == v;
      } else {
        n := ClimbIsRounds(fs, start, v);
      }
      RoundsFirst(fs, start, w, n);
      n := n + 1;
    }
  }

  // ---------- ancestors ----------

  /** `p` is `dev`, one of the directories above it, or empty. */
  predicate IsAncestor(p: string, dev: string) {
    p == "" || (p <= dev && (|p| < |dev| ==> dev[|p|] == '/'))
  }

  lemma AncestorTrans(p: string, q: string, dev: string)
    requires IsAncestor(p, q) && IsAncestor(q, dev)
    ensures IsAncestor(p, dev)
  {
    if p != "" && |p| < |q| {
      assert dev[|p|] == q[|p|];
    }
  }

  lemma CutIsAncestor(w: string, s: string)
    requires w != "" && w[0] == '/'
    ensures IsAncestor(CutFirst(w, s), s) && IsAncestor(CutLast(w, s), s)
  {
    var i, j := FirstAt(w, s), LastAt(w, s);
    if i.Some? {
      assert s[i.value..][0] == s[i.value];
    }
    if j.Some? {
      assert s[j.value..][0] == s[j.value];
    }
  }

  lemma SasAboveIsAncestor(dev: string)
    ensures IsAncestor(SasAbove(dev), dev)
  {
    hide FirstAt, LastAt, CutFirst, CutLast;
    var a := CutFirst("/target", dev);
    var b := CutFirst("/port", a);
    CutIsAncestor("/target", dev);
    CutIsAncestor("/port", a);
    CutIsAncestor("/host#", b);
    AncestorTrans(b, a, dev);
    AncestorTrans(SasAbove(dev), b, dev);
  }

  lemma DirsAreAncestors(dev: string)
    ensures IsAncestor(Dir(dev), dev) && IsAncestor(Dir(Dir(dev)), dev) && IsAncestor(Dir(Dir(Dir(dev))), dev)
  {
    hide FirstAt, LastAt, CutLast;
    CutIsAncestor("/", dev);
    CutIsAncestor("/", Dir(dev));
    CutIsAncestor("/", Dir(Dir(dev)));
    AncestorTrans(Dir(Dir(dev)), Dir(dev), dev);
    AncestorTrans(Dir(Dir(Dir(dev))), Dir(Dir(dev)), dev);
  }

  /** Where each arm may send the walk. */
  predicate IsExit(p: string, dev: string) {
    || p == "" || p == dev || p == Dir(Dir(dev)) || p == Dir(Dir(Dir(dev)))
    || p == SasAbove(dev) || p == CutLast("/host#", Dir(dev)) || p == CutLast("/fw-host", dev)
    || p == CutLast("/ttyUSB", dev) || p == CutFirst("/usb", dev) || p == CutFirst("/pci#", dev)
    || p == CutFirst("/serio", dev) || p == CutFirst("/platform", dev)
  }

  lemma BusExits(fs: Sysfs, w: Walk)
    ensures HandleIde(fs, w).dev == w.dev || HandleIde(fs, w).dev == Dir(Dir(w.dev))
    ensures HandleScsi(fs, w).dev == w.dev || HandleScsi(fs, w).dev == Dir(Dir(Dir(w.dev)))
    ensures HandleUsb(fs, w).dev == w.dev || HandleUsb(fs, w).dev == CutFirst("/usb", w.dev)
  {
    hide CutFirst, Dir, Base, RelativePort, TestNumber, AfterLast, AfterFirst, Prepend, List, Dec, ThroughFirst;
  }

  lemma EndpointExits(fs: Sysfs, start: string, w: Walk)
    ensures HandleSas(fs, w).dev == "" || HandleSas(fs, w).dev == SasAbove(w.dev)
    ensures HandleFc(fs, w).dev in ["", w.dev, CutLast("/host#", Dir(w.dev))]
    ensures HandleFirewire(fs, w).dev == w.dev || HandleFirewire(fs, w).dev == CutLast("/fw-host", w.dev)
    ensures HandleIscsi(fs, w).dev == "" && HandleCss(fs, start, w).dev == ""
  {
    hide CutFirst, CutLast, Dir, Base, SasPhy, SasRegs, TestNumber, AfterLast, SasAbove, Read, List, Connection, Dec;
  }

  lemma StepExits(fs: Sysfs, start: string, w: Walk)
    ensures IsExit(Step(fs, start, w).dev, w.dev)
  {
    hide ArmOf, CutFirst, CutLast, Dir, Base, SasAbove, AfterLast, Prepend,
         HandleIde, HandleScsi, HandleUsb, HandleSas, HandleFc, HandleFirewire, HandleIscsi, HandleCss;
    BusExits(fs, w);
    EndpointExits(fs, start, w);
  }

  lemma ExitsAreAncestors(p: string, dev: string)
    requires IsExit(p, dev)
    ensures IsAncestor(p, dev)
  {
    hide CutFirst, CutLast, Dir, SasAbove;
    DirsAreAncestors(dev);
    SasAboveIsAncestor(dev);
    CutIsAncestor("/host#", Dir(dev));
    AncestorTrans(CutLast("/host#", Dir(dev)), Dir(dev), dev);
    CutIsAncestor("/fw-host", dev);
    CutIsAncestor("/ttyUSB", dev);
    CutIsAncestor("/usb", dev);
    CutIsAncestor("/pci#", dev);
    CutIsAncestor("/serio", dev);
    CutIsAncestor("/platform", dev);
  }

  lemma StepClimbs(fs: Sysfs, start: string, w: Walk)
    ensures IsAncestor(Step(fs, start, w).dev, w.dev)
  {
    hide IsExit, IsAncestor, Step;
    StepExits(fs, start, w);
    ExitsAreAncestors(Step(fs, start, w).dev, w.dev);
  }

  /** At every round the walk stands on the device, on a directory above it, or at the end. */
  lemma {:induction false} StaysOnThePath(fs: Sysfs, start: string, w: Walk, n: nat)
    ensures IsAncestor(Rounds(fs, start, w, n).dev, w.dev)
  {
    hide Step, Finished;
    if n > 0 {
      var v := Rounds(fs, start, w, n - 1);
      StaysOnThePath(fs, start, w, n - 1);
      StepClimbs(fs, start, v);
      AncestorTrans(Step(fs, start, v).dev, v.dev, w.dev);
    }
  }

  // ---------- termination, from the tree alone ----------

  /**
   A node the loop cannot leave, for some values of the variables the script never sets: a
   firewire node without an identifier of its own, or a SAS node with phys and without a
   component to cut at, unless it has an empty address file.
   */
  predicate Trap(fs: Sysfs, p: string) {
    match ArmOf(p)
    case Firewire => Read(fs, p + "/ieee1394_id", "") == ""
    case Sas =>
      && SasPhy(fs, p) != NO_PHY && SasRegs(fs, StartWith(p, ADDRESSED)).endAddress != ""
      && !Has("/target", p) && !Has("/port", p) && !Has("/host#", p)
    case _ => false
  }

  /** A start with variables taken over from the environment. */
  function StartWith(dev: string, regs: Regs): Walk {
    StartAt(dev).(regs := regs)
  }

  const ADDRESSED := NO_REGS.(endAddress := "a")

  lemma StuckIsTrap(fs: Sysfs, w: Walk)
    requires Stuck(fs, w)
    ensures Trap(fs, w.dev)
  {
    hide ArmOf, SasPhyPath, AllPhys, AfterLast, CutFirst, Has;
  }

  lemma TrapSticks(fs: Sysfs, p: string)
    requires p != "" && Trap(fs, p)
    ensures Stuck(fs, StartWith(p, ADDRESSED)) && !Finished(StartWith(p, ADDRESSED))
  {
    hide ArmOf, SasPhyPath, AllPhys, AfterLast, CutFirst, Has;
  }

  /** No directory from the device up to the root is a trap. */
  ghost predicate TrapFree(fs: Sysfs, dev: string) {
    forall p :: p != "" && IsAncestor(p, dev) ==> !Trap(fs, p)
  }

  /** The loop ends on every device whose path holds no trap, whatever the variables held before. */
  lemma EndsWithoutTraps(fs: Sysfs, start: string, w: Walk)
    requires TrapFree(fs, w.dev)
    ensures Ends(fs, start, w)
  {
    hide Stuck, Trap, IsAncestor, Rounds, Ends;
    EndsExactly(fs, start, w);
    if ComesToStick(fs, start, w) {
      var n: nat :| !Finished(Rounds(fs, start, w, n)) && Stuck(fs, Rounds(fs, start, w, n));
      StaysOnThePath(fs, start, w, n);
      StuckIsTrap(fs, Rounds(fs, start, w, n));
    }
  }

  /** From `p` the loop ends, whatever the variables held before. */
  ghost predicate EndsAlways(fs: Sysfs, p: string) {
    forall regs :: Ends(fs, p, StartWith(p, regs))
  }

  /**
   Termination from the tree alone, exactly. For the device and every directory above it
   the loop ends, whatever the script's variables held before, if and only if none of them
   is a trap.
   */
  lemma EndsStatically(fs: Sysfs, dev: string)
    ensures (forall p :: p != "" && IsAncestor(p, dev) ==> EndsAlways(fs, p)) <==> TrapFree(fs, dev)
  {
    hide Stuck, Trap, IsAncestor, Ends, Finished;
    if TrapFree(fs, dev) {
      forall p, regs | p != "" && IsAncestor(p, dev)
        ensures Ends(fs, p, StartWith(p, regs))
      {
        forall q | q != "" && IsAncestor(q, p)
          ensures !Trap(fs, q)
        {
          AncestorTrans(q, p, dev);
        }
        EndsWithoutTraps(fs, p, StartWith(p, regs));
      }
    } else {
      var p :| p != "" && IsAncestor(p, dev) && Trap(fs, p);
      TrapSticks(fs, p);
      SticksAtOnce(fs, p, StartWith(p, ADDRESSED));
      assert !EndsAlways(fs, p);
    }
  }

  lemma NotInOrder(ws: seq<string>, s: string)
    requires ws != [] && !Has(ws[0], s)
    ensures !InOrder(ws, s)
  {
    if InOrder(ws, s) {
      FirstWordOccurs(ws, s);
    }
  }
}

/**
 path_id as it runs: the shell's globals are fields, each handler rewrites them, and
 `handle_device` loops until `D` is empty. The functions of module PathId specify it.
 */
module Walker {
  import opened Text
  import opened Glob
  import opened Lun
  import opened PathId
  import opened Climbing

  // ---------- loops ----------

  /** `get_port_offset`: the least of the own port and every listed one. */
  method GetPortOffset(kind: string, offset: nat, entries: seq<string>) returns (o: nat)
    ensures o == PortOffset(kind, offset, entries)
    ensures o <= offset
    ensures forall i :: 0 <= i < |entries| && PortOf(kind, entries[i]).Some? ==> o <= PortOf(kind, entries[i]).value
    ensures o == offset || exists i :: 0 <= i < |entries| && PortOf(kind, entries[i]) == Some(o)
  {
    o := offset;
    for i := 0 to |entries|
      invariant o == PortOffset(kind, offset, entries[..i])
    {
      assert entries[..i + 1][..i] == entries[..i];
      var port := PortOf(kind, entries[i]);
      if port.Some? && port.value < o {
        o := port.value;
      }
    }
    assert entries[..|entries|] == entries;
    PortOffsetIsMin(kind, offset, entries);
  }

  /** A word for the beginning of one path component. */
  predicate ComponentWord(w: string) {
    |w| > 1 && w[0] == '/' && forall k :: 1 <= k < |w| ==> w[k] != '/'
  }

  lemma AtSlash(s: string)
    ensures At("/", s) <==> s != "" && s[0] == '/'
  {
  }

  lemma SlashAt(p: string, j: nat)
    requires j < |p|
    ensures At("/", p[j..]) <==> p[j] == '/'
  {
    AtSlash(p[j..]);
  }

  // Cutting the shortest suffix that begins with a slash cuts at the last slash.
  lemma LastSlash(p: string, i: nat)
    requires i < |p| && p[i] == '/'
    ensures var j := |Dir(p)|;
      i <= j < |p| && Dir(p) == p[..j] && p[j] == '/' && forall m :: j < m < |p| ==> p[m] != '/'
  {
    hide At;
    SlashAt(p, i);
    Occurs("/", p, i);
    var j := LastAt("/", p).value;
    SlashAt(p, j);
    forall m | j < m < |p|
      ensures p[m] != '/'
    {
      SlashAt(p, m);
    }
  }

  // Cutting the longest suffix that begins with a slash cuts at the first slash.
  lemma FirstSlash(p: string, n: nat)
    requires n <= |p| && forall j :: 0 <= j < n ==> p[j] != '/'
    requires n < |p| ==> p[n] == '/'
    ensures CutFirst("/", p) == p[..n]
  {
    hide At;
    var r := FirstAt("/", p);
    if r.Some? {
      SlashAt(p, r.value);
    }
    if n < |p| {
      SlashAt(p, n);
    }
  }

  /** Inside an occurrence of the word there is no slash but its first character. */
  lemma InsideWord(w: string, path: string, i: nat)
    requires ComponentWord(w) && i + |w| <= |path| && At(w, path[i..])
    ensures path[i] == '/' && forall j :: i < j < i + |w| ==> path[j] != '/'
  {
    var s := path[i..];
    assert Fits(w[0], s[0]);
    forall j | i < j < i + |w|
      ensures path[j] != '/'
    {
      assert Fits(w[j - i], s[j - i]) && s[j - i] == path[j];
    }
  }

  lemma OccursInPrefix(w: string, path: string, n: nat, i: nat)
    requires i + |w| <= n <= |path| && At(w, path[i..])
    ensures Has(w, path[..n])
  {
    var p := path[..n];
    assert forall k :: 0 <= k < |w| ==> p[i..][k] == path[i..][k];
    Occurs(w, p, i);
  }

  /** Cutting the last component keeps the first occurrence of the word, or ends just before it. */
  lemma CutComponent(w: string, path: string, n: nat, i: nat)
    requires ComponentWord(w) && i + |w| <= n <= |path| && At(w, path[i..])
    ensures var j := |Dir(path[..n])|;
      && Dir(path[..n]) == path[..j] && j < n
      && (j == i || i + |w| <= j)
      && path[j] == '/'
      && (forall m :: j < m < n ==> path[m] != '/')
  {
    hide At;
    var p := path[..n];
    InsideWord(w, path, i);
    assert p[i] == path[i];
    LastSlash(p, i);
    var j := |Dir(p)|;
    assert p[..j] == path[..j] && p[j] == path[j];
    assert forall m :: j < m < n ==> p[m] == path[m];
  }

  /** The climbs of the pci, platform, serio and usb handlers: out to above the first such component. */
  method ClimbOut(word: string, path: string) returns (above: string, last: string)
    requires ComponentWord(word)
    ensures above == CutFirst(word, path)
    ensures Has(word, path) ==> last == ThroughFirst(word, path)
  {
    above, last := path, path;
    ghost var i := FirstAt(word, path);
    ghost var m := |path|;
    while above != "" && Has(word, above)
      invariant above <= path && last <= path && m == |last| && (m < |path| ==> path[m] == '/')
      invariant i.None? ==> above == path
      invariant i.Some? ==> (|above| == i.value || i.value + |word| <= |above|) && i.value + |word| <= m
      invariant i.Some? && |above| == i.value ==> forall j :: i.value < j < m ==> path[j] != '/'
      invariant above != path ==> path[|above|] == '/'
      decreases |above|
    {
      assert above == path[..|above|];
      FirstOfPrefix(word, path, |above|);
      CutComponent(word, path, |above|, i.value);
      last := above;
      m := |last|;
      above := Dir(above);
    }
    if i.Some? {
      assert above == path[..|above|];
      if i.value + |word| <= |above| {
        OccursInPrefix(word, path, |above|, i.value);
      }
      Through(word, path, i.value, m);
      assert last == path[..m];
    }
  }

  /** What occurs in a prefix occurs in the whole, and no earlier. */
  lemma FirstOfPrefix(w: string, path: string, n: nat)
    requires w != "" && n <= |path| && Has(w, path[..n])
    ensures Has(w, path) && FirstAt(w, path).value + |w| <= n
  {
    var p := path[..n];
    var i := FirstAt(w, p).value;
    assert forall k :: 0 <= k < |w| ==> p[i..][k] == path[i..][k];
    Occurs(w, path, i);
  }

  lemma Through(w: string, path: string, i: nat, m: nat)
    requires ComponentWord(w) && FirstAt(w, path) == Some(i) && i + |w| <= m <= |path|
    requires m < |path| ==> path[m] == '/'
    requires forall j :: i < j < m ==> path[j] != '/'
    ensures ThroughFirst(w, path) == path[..m]
  {
    hide At, CutFirst;
    var rest := path[i + 1..];
    var n := m - i - 1;
    assert forall j :: 0 <= j < n ==> rest[j] == path[i + 1 + j];
    FirstSlash(rest, n);
    assert path[..i + 1] + rest[..n] == path[..m];
  }

  /** The loop of handle_sas over the phys found. */
  method FindLeastPhy(phys: seq<string>) returns (least: nat)
    ensures least == LeastPhy(NO_PHY, phys)
    ensures least <= 255 && forall p :: p in phys && TestNumber(p).Some? ==> least <= TestNumber(p).value
    ensures least == 255 || exists p :: p in phys && TestNumber(p) == Some(least)
  {
    LeastPhyIsLeast(NO_PHY, phys);
    least := NO_PHY;
    for i := 0 to |phys|
      invariant least == LeastPhy(NO_PHY, phys[..i])
    {
      assert phys[..i + 1][..i] == phys[..i];
      var n := TestNumber(phys[i]);
      if n.Some? && n.value < least {
        least := n.value;
      }
    }
    assert phys[..|phys|] == phys;
  }

  /** The loop of handle_iscsi over the connections: the last one numbered 0 wins. */
  method FindConnection(dir: string, entries: seq<string>) returns (conn: string)
    ensures conn == Connection(dir, entries)
  {
    conn := "";
    for i := 0 to |entries|
      invariant conn == Connection(dir, entries[..i])
    {
      assert entries[..i + 1][..i] == entries[..i];
      if "connection" <= entries[i] && AfterLast(":", dir + "/" + entries[i]) == "0" {
        conn := entries[i];
      }
    }
    assert entries[..|entries|] == entries;
  }

  /** The loop of handle_pci over the block links: each cciss link overwrites what has been collected. */
  method NameCcissDisk(fs: Sysfs, dev: string, entries: seq<string>, id: string) returns (d: string)
    ensures d == if CcissDisk(fs, dev, entries).Some? then CcissDisk(fs, dev, entries).value else id
  {
    hide AfterFirst, IsCcissLink;
    d := id;
    for n := 0 to |entries|
      invariant d == if CcissDisk(fs, dev, entries[..n]).Some? then CcissDisk(fs, dev, entries[..n]).value else id
    {
      assert entries[..n + 1][..n] == entries[..n];
      if IsCcissLink(fs, dev, entries[n]) {
        d := "cciss-" + AfterFirst("cciss!", entries[n]);
      }
    }
    assert entries[..|entries|] == entries;
  }

  // ---------- handlers ----------

  class Walker {
    const fs: Sysfs
    const start: string
    var dev: string       // $D
    var id: string        // $d
    var result: nat
    var status: Status
    var regs: Regs

    constructor (fs: Sysfs, start: string)
      ensures this.fs == fs && this.start == start && State() == StartAt(start)
    {
      this.fs, this.start := fs, start;
      dev, id, result, status, regs := start, "", 1, Walking, NO_REGS;
    }

    function State(): Walk
      reads this
    {
      Walk(dev, id, result, status, regs)
    }

    /** The end of every bus handler. */
    method GoOn(seg: string, above: string)
      modifies this
      ensures State() == Onward(old(State()), seg, above)
    {
      if id != "" {
        id := seg + "-" + id;
      } else {
        id := seg;
      }
      dev := above;
      result := 0;
    }

    method HandlePciNode()
      modifies this
      ensures State() == HandlePci(fs, old(State()))
    {
      hide CcissDisk;
      id := NameCcissDisk(fs, dev, List(fs, dev), id);
      var above, last := ClimbOut("/pci#", dev);
      GoOn("pci-" + Base(dev), above);
    }

    method HandlePlatformNode()
      modifies this
      ensures State() == HandlePlatform(old(State()))
    {
      var above, last := ClimbOut("/platform", dev);
      GoOn("platform-" + Base(dev), above);
    }

    method HandleSerioNode()
      modifies this
      ensures State() == HandleSerio(old(State()))
    {
      var above, last := ClimbOut("/serio", dev);
      GoOn("serio-" + AfterLast("/serio", dev), above);
    }

    method HandleIdeNode()
      modifies this
      ensures State() == HandleIde(fs, old(State()))
    {
      hide Dec, AfterFirst, AfterLast, CutLast;
      var port := if "ide" <= Base(dev) then Base(dev)[3..] else Base(dev);
      var controller := Dir(Dir(dev));
      var channel := regs.channel;
      if AfterFirst(".", port) == "0" {
        channel := "0";
      } else if AfterFirst(".", port) == "1" {
        channel := "1";
      }
      var n := TestNumber(CutLast(".", port));
      if n.None? {
        status := Failed;
        return;
      }
      var offset := GetPortOffset("ide", n.value, List(fs, controller));
      regs := regs.(channel := channel);
      GoOn("ide-" + Dec(n.value - offset) + ":" + channel, controller);
    }

    method HandleScsiNode()
      modifies this
      ensures State() == HandleScsi(fs, old(State()))
    {
      hide Dec, AfterFirst, AfterLast, CutLast;
      var cil := AfterFirst(":", Base(dev));
      var host := Dir(Dir(dev));
      var controller := Dir(host);
      var n := TestNumber(AfterLast("/host", host));
      if n.None? {
        status := Failed;
        return;
      }
      var offset := GetPortOffset("host", n.value, List(fs, controller));
      GoOn("scsi-" + Dec(n.value - offset) + ":" + cil, controller);
    }

    method HandleUsbNode()
      requires ArmOf(dev).Usb?
      modifies this
      ensures State() == HandleUsb(fs, old(State()))
    {
      hide Dec, AfterFirst, AfterLast, CutFirst, ThroughFirst, ArmOf, Has, Base, Onward;
      ArmHasWord(dev);
      var port := AfterFirst("-", Base(dev));
      var above, host := ClimbOut("/usb", dev);
      var n := TestNumber(AfterLast("/usb", host));
      if n.None? {
        status := Failed;
        return;
      }
      var offset := GetPortOffset("usb", n.value, List(fs, above));
      GoOn("usb-" + Dec(n.value - offset) + ":" + port, above);
    }

    method HandleFirewireNode()
      modifies this
      ensures State() == HandleFirewire(fs, old(State()))
    {
      if dev + "/ieee1394_id" in fs.attrs {
        regs := regs.(ieeeId := fs.attrs[dev + "/ieee1394_id"]);
      }
      if regs.ieeeId == "" {
        result := 1;
        return;
      }
      id := "ieee1394-0x" + regs.ieeeId;
      dev := CutLast("/fw-host", dev);
      result := 0;
    }

    method HandleFcNode()
      modifies this
      ensures State() == HandleFc(fs, old(State()))
    {
      var target := Dir(dev);
      var wwpn := Read(fs, target + "/fc_transport/" + Base(target) + "/port_name", regs.wwpn);
      if wwpn == "" {
        dev, result := "", 1;
        return;
      }
      var n := TestNumber(AfterLast(":", Base(dev)));
      if n.None? {
        status := Failed;
        return;
      }
      regs := regs.(wwpn := wwpn, lun := LunText(n.value));
      id := "fc-" + wwpn + ":" + LunText(n.value);
      dev := CutLast("/host#", target);
      result := 0;
    }

    method HandleSasNode()
      modifies this
      ensures State() == HandleSas(fs, old(State()))
    {
      hide Dec, AfterFirst, AfterLast, CutLast, CutFirst, SasPhyPath, AllPhys, LeastPhy, SasAbove, SasRegs;
      var phyPath := SasPhyPath(dev);
      var phy := FindLeastPhy(AllPhys(fs, phyPath, List(fs, phyPath)));
      if phy == NO_PHY {
        dev, result := "", 1;
        return;
      }
      regs := SasRegs(fs, State());
      if regs.endAddress == "" {
        dev, result := "", 1;
        return;
      }
      id := "sas-phy" + Dec(phy) + ":" + regs.phyPort + "-" + regs.endAddress + ":" + regs.endId
        + "-lun" + AfterLast(":", dev);
      dev := SasAbove(dev);
      result := 0;
    }

    method HandleIscsiNode()
      modifies this
      ensures State() == HandleIscsi(fs, old(State()))
    {
      hide AfterLast, CutFirst, Connection;
      var lun := AfterLast(":", dev);
      var dir := CutFirst("/target", dev);
      var session := "/sys/class/iscsi_session/" + Base(dir);
      var conn := FindConnection(dir, List(fs, dir));
      var path := "/sys/class/iscsi_connection/" + conn;
      dev, result := "", 1;
      if session !in fs.dirs || conn == "" || path !in fs.dirs {
        return;
      }
      var name := Read(fs, session + "/targetname", "");
      var address := Read(fs, path + "/persistent_address", "");
      if name == "" || address == "" {
        return;
      }
      var port := Read(fs, path + "/persistent_port", "");
      id := "ip-" + address + ":" + port + "-iscsi-" + name + "-lun-" + lun;
      result := 0;
    }

    method HandleCssNode()
      modifies this
      ensures State() == HandleCss(fs, start, old(State()))
    {
      hide AfterLast;
      var wwpn := Read(fs, start + "/wwpn", regs.wwpn);
      var lun := Read(fs, start + "/fcp_lun", regs.lun);
      var bus := Read(fs, start + "/hba_id", "");
      regs := regs.(wwpn := wwpn, lun := lun);
      if bus != "" && wwpn != "" && lun != "" {
        id := "ccw-" + bus + "-zfcp-" + wwpn + ":" + lun;
      } else {
        id := "ccw-" + Base(dev);
      }
      dev, result := "", 0;
    }

    // ---------- the loop ----------

    /** One pass through the `case`. */
    method Dispatch()
      modifies this
      ensures State() == Step(fs, start, old(State()))
    {
      hide ArmOf, HandleIde, HandleScsi, HandleUsb, HandlePci, HandleSerio, HandlePlatform, HandleFirewire, HandleFc,
           HandleSas,
           HandleIscsi, HandleCss, CutLast;
      match ArmOf(dev)
      case Ide => HandleIdeNode();
      case Css => HandleCssNode();
      case Fc => HandleFcNode();
      case Sas => HandleSasNode();
      case Firewire => HandleFirewireNode();
      case Iscsi => HandleIscsiNode();
      case Scsi => HandleScsiNode();
      case Tty => dev := CutLast("/ttyUSB", dev);
      case Usb => HandleUsbNode();
      case Pci => HandlePciNode();
      case Serio => HandleSerioNode();
      case Platform => HandlePlatformNode();
      case Root => dev := "";
      case Unhandled => status, result := Left, 1;
    }

    /**
     The `while` of handle_device, on every walk that ends: it computes the recursive
     climb. It is called on no other, since there the loop runs for ever.
     */
    method HandleDevice()
      requires Ends(fs, start, State())
      modifies this
      ensures Climb(fs, start, old(State())) == Some(State())
    {
      hide Step, Ends, Stuck;
      EndsExactly(fs, start, State());
      while status == Walking && dev != ""
        invariant Climb(fs, start, State()).Some?
        invariant Climb(fs, start, State()) == Climb(fs, start, old(State()))
        decreases status == Walking, |dev|
      {
        Dispatch();
      }
    }
  }

  /** The end of handle_device: the suffix of a tape. */
  method AppendTail(id: string, tape: Option<string>) returns (d: string)
    ensures d == if id != "" then id + Tail(tape) else ""
  {
    d := id;
    if tape.Some? {
      var rewind, mode := CutFirst("st", tape.value), AfterLast("st", tape.value);
      if mode != "" && mode[|mode| - 1] == 'l' {
        mode := "l";
      } else if mode != "" && mode[|mode| - 1] == 'm' {
        mode := "m";
      } else if mode != "" && mode[|mode| - 1] == 'a' {
        mode := "a";
      } else {
        mode := "";
      }
      if d != "" {
        d := d + ("-" + rewind + "st" + mode);
      }
    }
  }

  /** The script's output line for a device whose walk ends. */
  method PrintIdPath(fs: Sysfs, dev: string, tape: Option<string>) returns (out: Option<string>)
    requires Ends(fs, dev, StartAt(dev))
    ensures out == IdPath(fs, dev, tape)
  {
    hide Tail, Climb, Ends;
    var w := new Walker(fs, dev);
    w.HandleDevice();
    if w.status == Failed {
      return None;
    }
    var d := w.id;
    if w.status != Left {
      d := AppendTail(d, tape);
    } else {
      assert d + "" == d;
    }
    out := if d == "" then None else Some(d);
  }
}

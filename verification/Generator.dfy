/**
 The scripts as they run, step by step, on a disk: the shell globals are fields, the
 functions of rule_generator.functions are methods, and each script is one method. The
 functions of module Scripts are their specification.
 */
module Generator {
  import opened Text
  import opened Rules
  import opened Allocator
  import opened Scripts
  import opened Turns
  import opened Serial
  import opened Protocol

  /** The part of the file system the scripts touch. */
  class Disk {
    const udevDir: bool
    const dirWriteable: bool
    var lock: bool
    var link: bool
    var main: Option<seq<Line>>
    var tmp: Option<seq<Line>>

    constructor (udevDir: bool, dirWriteable: bool, link: bool, f: Files)
      ensures this.udevDir == udevDir && this.dirWriteable == dirWriteable
      ensures !lock && this.link == link && Files() == f
    {
      this.udevDir, this.dirWriteable := udevDir, dirWriteable;
      lock, this.link := false, link;
      main, tmp := f.main, f.tmp;
    }

    function Files(): Files
      reads this
    {
      Scripts.Files.Files(main, tmp)
    }

    function Snap(): Snapshot
      reads this
    {
      Snapshot(lock, link, Files())
    }
  }

  datatype Snapshot = Snapshot(lock: bool, link: bool, files: Files)

  /**
   What a script leaves behind, given the plan it found, the answer about the directory,
   and whether it got the lock.
   */
  predicate Outcome(udevDir: bool, plan: Plan, w: bool, locked: bool, code: nat, before: Snapshot, after: Snapshot) {
    && after.link == before.link
    && (!locked ==> code == 2 && after == before)
    && (locked && !plan.Write? ==> after.files == before.files && code == if plan.NoMatch? then 1 else 2)
    && (locked && plan.Write? ==> code == 0 && after.files == Append(before.files, w, plan.lines))
    && (locked && udevDir ==> after.lock == plan.Crash?)
    && (!udevDir ==> after.lock == before.lock)
  }

  /**
   What the process meets at an attempt to lock: the lock free, or held, and then the files
   and the probe link as others have left them when it has slept.
   */
  datatype Attempt = Free | Held(files: Files, link: bool)

  /** How often the lock is found held before it is first found free. */
  function Refusals(waits: seq<Attempt>): (n: nat)
    ensures n <= |waits| && forall i :: 0 <= i < n ==> waits[i].Held?
    ensures n < |waits| ==> waits[n].Free?
  {
    if waits == [] || waits[0].Free? then 0 else 1 + Refusals(waits[1..])
  }

  /** The disk after so many sleeps. */
  function Waited(s: Snapshot, waits: seq<Attempt>, n: nat): Snapshot
    requires n <= |waits|
  {
    if n > 0 && waits[n - 1].Held? then Snapshot(s.lock, waits[n - 1].link, waits[n - 1].files) else s
  }

  /** The lock is had: there is none to be had, or it is found free at one of 31 attempts. */
  predicate Locks(udevDir: bool, waits: seq<Attempt>) {
    udevDir ==> Refusals(waits) < 31
  }

  /** The disk as it is when the lock is taken, or when the script gives up. */
  function AtLock(udevDir: bool, s: Snapshot, waits: seq<Attempt>): Snapshot {
    if !udevDir then s else Waited(s, waits, if Refusals(waits) < 31 then Refusals(waits) else 30)
  }

  /** One process. */
  class Process {
    const disk: Disk
    var writesTmp: bool          // RULES_FILE is the temporary file, RO_RULES_FILE the real one
    var printHeader: bool
    var rulesLock: bool
    var symlinks: seq<string>

    constructor (disk: Disk)
      ensures this.disk == disk && AtStart()
    {
      this.disk := disk;
      writesTmp, printHeader, rulesLock, symlinks := false, false, false, [];
    }

    predicate AtStart()
      reads this
    {
      !writesTmp && !printHeader && !rulesLock && symlinks == []
    }

    /**
     `lock_rules_file`: the lock is taken at the first of 31 attempts that finds it free;
     without success the script exits with status 2. Others may write in the meantime.
     */
    method LockRulesFile(waits: seq<Attempt>) returns (ok: bool)
      requires |waits| > RETRIES
      modifies this`rulesLock, disk`lock, disk`main, disk`tmp, disk`link
      ensures ok == Locks(disk.udevDir, waits) && rulesLock == (old(rulesLock) || disk.udevDir)
      ensures var s := AtLock(disk.udevDir, old(disk.Snap()), waits);
        disk.Snap() == if disk.udevDir && ok then s.(lock := true) else s
    {
      if !disk.udevDir {
        return true;
      }
      rulesLock := true;
      var retry := RETRIES;
      ghost var n := 0;
      while waits[RETRIES - retry].Held?
        invariant 0 <= retry <= RETRIES && n == RETRIES - retry && n <= Refusals(waits)
        invariant rulesLock && disk.Snap() == Waited(old(disk.Snap()), waits, n)
        decreases retry
      {
        if retry == 0 {
          return false;
        }
        var meanwhile := waits[RETRIES - retry];
        disk.main, disk.tmp, disk.link := meanwhile.files.main, meanwhile.files.tmp, meanwhile.link;
        retry := retry - 1;
        n := n + 1;
      }
      assert n == Refusals(waits);
      ghost var s := disk.Snap();
      disk.lock := true;
      assert disk.Snap() == s.(lock := true);
      ok := true;
    }

    /** `unlock_rules_file` */
    method UnlockRulesFile()
      modifies disk`lock
      ensures disk.lock == (old(disk.lock) && !rulesLock)
    {
      if rulesLock {
        disk.lock := false;
      }
    }

    /** `writeable`: true exactly if the directory takes the probe link; leaves no trace. */
    method Writeable() returns (ok: bool)
      modifies disk`link
      ensures ok == (disk.dirWriteable && !old(disk.link)) && disk.link == old(disk.link)
    {
      if disk.dirWriteable && !disk.link {
        disk.link := true;
        disk.link := false;
        ok := true;
      } else {
        ok := false;
      }
    }

    /** `choose_rules_file` */
    method ChooseRulesFile()
      modifies this`writesTmp, this`printHeader, disk`link
      ensures writesTmp == !(disk.dirWriteable && !old(disk.link)) && disk.link == old(disk.link)
      ensures printHeader == (old(printHeader) || BothAbsent(disk.Files()))
    {
      if disk.main.None? && disk.tmp.None? {
        printHeader := true;
      }
      var ok := Writeable();
      writesTmp := !ok;
    }

    /** `find_all_rules`: the read-only file, if any, before the file to be written. */
    method FindAllRules(key: string, re: NameRe) returns (found: string)
      ensures found == Join(Scan(RenderAll(Scanned(disk.Files(), !writesTmp)), key, re))
    {
      var lines := if writesTmp then Content(disk.main) + Content(disk.tmp) else Content(disk.main);
      var text := RenderAll(lines);
      found := Join(Scan(text, key, re));
    }

    /** `echo ... >> $RULES_FILE` */
    method Echo(line: Line)
      modifies disk`main, disk`tmp
      ensures disk.Files() == Append(old(disk.Files()), !writesTmp, [line])
    {
      if writesTmp {
        disk.tmp := Some(Content(disk.tmp) + [line]);
      } else {
        disk.main := Some(Content(disk.main) + [line]);
      }
    }

    /** Several lines in order. */
    method EchoAll(lines: seq<Line>)
      modifies disk`main, disk`tmp
      ensures disk.Files() == Append(old(disk.Files()), !writesTmp, lines)
    {
      ghost var f := disk.Files();
      AppendNothing(f, !writesTmp);
      for i := 0 to |lines|
        invariant disk.Files() == Append(f, !writesTmp, lines[..i])
      {
        Echo(lines[i]);
        assert lines[..i + 1] == lines[..i] + [lines[i]];
        AppendAppend(f, !writesTmp, lines[..i], [lines[i]]);
      }
      assert lines[..|lines|] == lines;
    }

    /** `write_rule` of write_net_rules: a banner if one is due, and only once. */
    method WriteNetRule(keys: string, name: string, comment: string)
      modifies this`printHeader, disk`main, disk`tmp
      ensures disk.Files() == Append(old(disk.Files()), !writesTmp, NetRuleLines(old(printHeader), keys, name, comment))
      ensures !printHeader
    {
      ghost var f := disk.Files();
      ghost var lines: seq<Line> := [];
      AppendNothing(f, !writesTmp);
      if printHeader {
        printHeader := false;
        EchoAll(NET_BANNER);
        lines := NET_BANNER;
      }
      Echo(Blank);
      AppendAppend(f, !writesTmp, lines, [Blank]);
      lines := lines + [Blank];
      if comment != "" {
        Echo(Comment(comment));
      }
      AppendNothing(Append(f, !writesTmp, lines), !writesTmp);
      AppendAppend(f, !writesTmp, lines, CommentLines(comment));
      lines := lines + CommentLines(comment);
      Echo(NetRule(keys, name));
      AppendAppend(f, !writesTmp, lines, [NetRule(keys, name)]);
    }

    /** `write_rule` of write_cd_rules, which also collects the link. */
    method WriteCdRule(keys: string, link: string, comment: string)
      modifies this`printHeader, this`symlinks, disk`main, disk`tmp
      ensures disk.Files() == Append(old(disk.Files()), !writesTmp, CdRuleLines(old(printHeader), keys, link, comment))
      ensures !printHeader && symlinks == old(symlinks) + [link]
    {
      ghost var f := disk.Files();
      ghost var lines: seq<Line> := [];
      AppendNothing(f, !writesTmp);
      if printHeader {
        printHeader := false;
        EchoAll(CD_BANNER);
        lines := CD_BANNER;
      }
      if comment != "" {
        Echo(Comment(comment));
      }
      AppendNothing(Append(f, !writesTmp, lines), !writesTmp);
      AppendAppend(f, !writesTmp, lines, CommentLines(comment));
      lines := lines + CommentLines(comment);
      Echo(CdRule(keys, link));
      AppendAppend(f, !writesTmp, lines, [CdRule(keys, link)]);
      symlinks := symlinks + [link];
    }

    /** One more key of the match, if its variable is set. */
    method AddClause(keys: string, key: string, value: string) returns (more: string)
      ensures more == keys + Clause(key, value)
    {
      more := keys;
      if value != "" {
        more := more + (key + value + "\"");
      }
    }

    /** The match keys, built up clause by clause. */
    method BuildMatch(r: NetRequest) returns (keys: string)
      ensures keys == NetKeys(r)
    {
      hide Clause;
      keys := AddClause("", ADDR, r.addr);
      assert keys == Clause(ADDR, r.addr);
      keys := AddClause(keys, DRV, r.drv);
      keys := AddClause(keys, DEVID, r.devid);
      keys := AddClause(keys, ID, r.id);
      keys := AddClause(keys, IFTYPE, r.iftype);
    }

    /** The choice of the name, and the name announced as INTERFACE_NEW, if any. */
    method ChooseName(r: NetRequest) returns (name: Option<string>, announced: Option<string>)
      ensures name == NetName(r, RenderAll(Scanned(disk.Files(), !writesTmp)))
      ensures announced.Some? ==> name == announced
      ensures announced.None? && name.Some? ==> name.value == r.iface
    {
      if r.custom != "" {
        return Some(r.custom), if r.custom != r.iface then Some(r.custom) else None;
      }
      var taken := FindAllRules(KeyOf(NetKind), Exact(r.iface));
      if taken != "" {
        var used := FindAllRules(KeyOf(NetKind), Family(Stem(r.iface)));
        var n := RawFindNextAvailable(used);
        if n.None? {
          return None, None;
        }
        name := Some(Stem(r.iface) + n.value);
        announced := name;
      } else {
        name, announced := Some(r.iface), None;
      }
    }

    /**
     write_net_rules. Exit 1 before the lock for a missing interface, 2 when the lock
     cannot be had, 1 for a missing match with the lock released, 2 with the lock kept when
     the arithmetic fails, and otherwise 0 with exactly the planned lines appended.
     */
    method NetMain(r: NetRequest, waits: seq<Attempt>) returns (code: nat, announced: Option<string>)
      requires AtStart() && |waits| > RETRIES
      modifies this, disk
      ensures r.iface == "" ==> code == 1 && disk.Files() == old(disk.Files()) && disk.lock == old(disk.lock)
      ensures r.iface != "" ==>
        var s := AtLock(disk.udevDir, old(disk.Snap()), waits);
        var w := disk.dirWriteable && !s.link;
        var plan := NetPlan(r, BothAbsent(s.files), RenderAll(Scanned(s.files, w)));
        var locked := Locks(disk.udevDir, waits);
        && Outcome(disk.udevDir, plan, w, locked, code, s, disk.Snap())
        && (locked && plan.Write? ==> Names(plan.lines) == [if announced.Some? then announced.value else r.iface])
    {
      hide Append, NetName, NetKeys, NetRuleLines, Scanned, RenderAll, Names, NetComment, Stem;
      announced := None;
      if r.iface == "" {
        return 1, None;
      }
      var ok := LockRulesFile(waits);
      ghost var f := disk.Files();
      if !ok {
        return 2, None;
      }
      ChooseRulesFile();
      var keys := BuildMatch(r);
      if keys == "" {
        UnlockRulesFile();
        return 1, None;
      }
      keys := keys + (KERNEL + Stem(r.iface) + "*\"");
      var name, told := ChooseName(r);
      if name.None? {
        return 2, None;
      }
      announced := told;
      WriteNetRule(keys, name.value, NetComment(r));
      NamesOfNetRule(BothAbsent(f), keys, name.value, NetComment(r));
      UnlockRulesFile();
      code := 0;
    }

    /**
     write_cd_rules: the same outcomes, and on success it prints exactly the links it
     wrote, in order.
     */
    method CdMain(r: CdRequest, waits: seq<Attempt>) returns (code: nat, printed: string)
      requires AtStart() && |waits| > RETRIES
      modifies this, disk
      ensures CdKeys(r).None? ==> code == 1 && disk.Files() == old(disk.Files()) && disk.lock == old(disk.lock)
      ensures CdKeys(r).Some? ==>
        var s := AtLock(disk.udevDir, old(disk.Snap()), waits);
        var w := disk.dirWriteable && !s.link;
        var plan := CdPlan(r, BothAbsent(s.files), RenderAll(Scanned(s.files, w)));
        var locked := Locks(disk.udevDir, waits);
        && Outcome(disk.udevDir, plan, w, locked, code, s, disk.Snap())
        && (locked && plan.Write? ==> printed == Join(Names(plan.lines)))
    {
      hide Append, CdKeys, CdLines, Scanned, RenderAll, Names, Scan, NextAvailable, Join;
      printed := "";
      var rule := CdKeys(r);
      if rule.None? {
        return 1, "";
      }
      var ok := LockRulesFile(waits);
      ghost var f := disk.Files();
      if !ok {
        return 2, "";
      }
      ChooseRulesFile();
      var used := FindAllRules(KeyOf(CdKind), Family("cdrom"));
      var n := RawFindNextAvailable(used);
      if n.None? {
        return 2, "";
      }
      var keys := CD_HEAD + rule.value;
      var comment := r.model + " (" + r.path + ")";
      WriteCdLinks(r, keys, n.value, comment);
      UnlockRulesFile();
      return 0, Join(symlinks);
    }

    /** The up to four rules of one drive, from one allocated number. */
    method WriteCdLinks(r: CdRequest, keys: string, n: string, comment: string)
      requires symlinks == []
      modifies this`printHeader, this`symlinks, disk`main, disk`tmp
      ensures disk.Files() == Append(old(disk.Files()), !writesTmp, CdLines(r, old(printHeader), keys, n, comment))
      ensures symlinks == Names(CdLines(r, old(printHeader), keys, n, comment))
    {
      hide Append, CdRuleLines, Names;
      ghost var f, h := disk.Files(), printHeader;
      WriteCdRule(keys, "cdrom" + n, comment);
      ghost var lines := CdRuleLines(h, keys, "cdrom" + n, comment);
      NamesOfCdRule(h, keys, "cdrom" + n, comment);
      if r.cdR || r.cdRw {
        WriteCdRule(keys, "cdrw" + n, "");
        lines := OneMoreRule(f, !writesTmp, lines, keys, "cdrw" + n);
      }
      if r.dvd {
        WriteCdRule(keys, "dvd" + n, "");
        lines := OneMoreRule(f, !writesTmp, lines, keys, "dvd" + n);
      }
      if r.dvdR || r.dvdRw || r.dvdRam {
        WriteCdRule(keys, "dvdrw" + n, "");
        lines := OneMoreRule(f, !writesTmp, lines, keys, "dvdrw" + n);
      }
      assert lines == CdLines(r, h, keys, n, comment);
    }
  }

  /**
   A script that got the lock has taken exactly the turn from which the serial order of
   the concurrent runs is built; it exits with 0 exactly when the turn writes.
   */
  lemma OutcomeIsTurn(udevDir: bool, req: Request, p: Pid, w: bool, code: nat, before: Snapshot, after: Snapshot)
    requires !ExitsEarly(req)
    requires var plan := PlanOf(req, BothAbsent(before.files), RenderAll(Scanned(before.files, w)));
      Outcome(udevDir, plan, w, true, code, before, after)
    ensures after.files == TakeTurn(before.files, Turn(p, req, w))
    ensures code == 0 <==> PlanOf(req, BothAbsent(before.files), RenderAll(Scanned(before.files, w))).Write?
  {
    hide PlanOf, RenderAll, Scanned, BothAbsent, ExitsEarly;
    AppendNothing(before.files, w);
  }

  /** Another rule of the same run: what it adds to the files and to the names. */
  lemma OneMoreRule(f: Files, w: bool, lines: seq<Line>, keys: string, link: string) returns (all: seq<Line>)
    ensures all == lines + CdRuleLines(false, keys, link, "")
    ensures Append(Append(f, w, lines), w, CdRuleLines(false, keys, link, "")) == Append(f, w, all)
    ensures Names(all) == Names(lines) + [link]
  {
    hide Append, CdRuleLines, Names;
    all := lines + CdRuleLines(false, keys, link, "");
    AppendAppend(f, w, lines, CdRuleLines(false, keys, link, ""));
    NamesConcat(lines, CdRuleLines(false, keys, link, ""));
    NamesOfCdRule(false, keys, link, "");
  }

  lemma AppendAppend(f: Files, w: bool, a: seq<Line>, b: seq<Line>)
    ensures Append(Append(f, w, a), w, b) == Append(f, w, a + b)
  {
    assert a + [] == a && [] + b == b;
    assert Content(f.main) + a + b == Content(f.main) + (a + b);
    assert Content(f.tmp) + a + b == Content(f.tmp) + (a + b);
  }
}

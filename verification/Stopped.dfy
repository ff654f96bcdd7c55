/**
 A process that stops for ever while it holds the lock, and the generated banner.
 */
module Stopped {
  import opened Text
  import opened Rules
  import opened Scripts
  import opened Allocator
  import opened Serial
  import opened Protocol
  import opened Guarantees

  // ---------- a stopped holder ----------

  /** How many steps the schedule gives to `p`. */
  function StepsOf(acts: seq<Action>, p: Pid): nat {
    if acts == [] then 0
    else StepsOf(acts[..|acts| - 1], p) + (if acts[|acts| - 1] == Act(p) then 1 else 0)
  }

  /** Where a process stands after `n` steps against a lock that is never released. */
  function Waiting(n: nat): Pc {
    if n == 0 then Start
    else if n <= 31 then Trying(31 - n)
    else Exited(2)
  }

  /** The lock is held by `h`, which has stopped. */
  ghost predicate HeldForEver(s: State, h: Pid) {
    Exclusive(s) && s.lock == Some(h) && h in s.procs && !s.procs[h].live
  }

  lemma StepUnderStopped(cfg: Config, s: State, h: Pid, a: Action)
    requires cfg.udevDir && HeldForEver(s, h)
    ensures var t := Apply(cfg, s, a);
      && HeldForEver(t, h) && t.files == s.files && t.log == s.log
      && t.procs.Keys == s.procs.Keys
      && (forall p :: p in s.procs && a != Act(p) ==> t.procs[p].pc == s.procs[p].pc)
      && (forall p :: p in s.procs && a != Stop(p) ==> t.procs[p].live == s.procs[p].live)
      && (forall p :: p in s.procs ==> t.procs[p].req == s.procs[p].req)
  {
    hide PlanOf, Append, Decide, ExitsEarly;
    var t := Apply(cfg, s, a);
    if a.Act? && a.pid in s.procs && s.procs[a.pid].live {
      var p := a.pid;
      assert !Holds(s, p);
      assert !Critical(t.procs[p].pc);
      ExclusiveAfter(s, t, p);
    } else {
      forall q
        ensures Holds(t, q) <==> t.lock == Some(q)
      {
        assert Holds(s, q) <==> s.lock == Some(q);
      }
    }
  }

  /**
   If the holder of the lock has stopped, then under every later schedule no file ever
   changes again, and a process that had not yet started goes through exactly the start,
   thirty-one lock attempts, and the exit with status 2.
   */
  lemma {:induction false} StoppedHolder(cfg: Config, s: State, h: Pid, acts: seq<Action>, p: Pid)
    requires cfg.udevDir && HeldForEver(s, h)
    requires p in s.procs && s.procs[p].live && s.procs[p].pc == Start && !ExitsEarly(s.procs[p].req)
    requires Stop(p) !in acts
    ensures var t := Run(cfg, s, acts);
      && HeldForEver(t, h) && t.files == s.files && t.log == s.log
      && p in t.procs && t.procs[p].live && t.procs[p].req == s.procs[p].req
      && t.procs[p].pc == Waiting(StepsOf(acts, p))
  {
    hide ExitsEarly, Exclusive, Decide, Append, BothAbsent;
    if acts != [] {
      var front, a := acts[..|acts| - 1], acts[|acts| - 1];
      assert a in acts && forall b :: b in front ==> b in acts;
      StoppedHolder(cfg, s, h, front, p);
      StepUnderStopped(cfg, Run(cfg, s, front), h, a);
    }
  }

  /** A run that has stopped inside its critical section leaves the lock held for ever. */
  lemma StoppingHolds(cfg: Config, s0: State, acts: seq<Action>, h: Pid)
    requires cfg.udevDir && Fresh(s0)
    requires var s := Run(cfg, s0, acts); Holds(s, h) && !s.procs[h].live
    ensures HeldForEver(Run(cfg, s0, acts), h)
  {
    FreshInv(s0);
    RunKeepsInv(cfg, s0.files, s0, acts);
  }

  // ---------- the banner ----------

  predicate HeaderFree(lines: seq<Line>) {
    forall i :: 0 <= i < |lines| ==> !lines[i].Header?
  }

  /** Header lines occur only as the leading part of the banner, at the top of the file. */
  predicate HeaderAtTop(k: Kind, lines: seq<Line>) {
    forall i :: 0 <= i < |lines| && lines[i].Header? ==> i < |Banner(k)| && lines[..i + 1] == Banner(k)[..i + 1]
  }

  predicate OneBanner(k: Kind, f: Files) {
    && HeaderAtTop(k, Content(f.main)) && HeaderAtTop(k, Content(f.tmp))
    && (HeaderFree(Content(f.main)) || HeaderFree(Content(f.tmp)))
  }

  /** `lines` is a banner, if wanted, and then no header line. */
  predicate Bannered(k: Kind, header: bool, lines: seq<Line>) {
    var b := if header then Banner(k) else [];
    b <= lines && HeaderFree(lines[|b|..])
  }

  lemma BanneredIs(k: Kind, header: bool, rest: seq<Line>)
    requires HeaderFree(rest)
    ensures Bannered(k, header, (if header then Banner(k) else []) + rest)
  {
    var b := if header then Banner(k) else [];
    assert (b + rest)[|b|..] == rest;
  }

  lemma NetLinesBannered(header: bool, keys: string, name: string, comment: string)
    ensures Bannered(NetKind, header, NetRuleLines(header, keys, name, comment))
  {
    var rest := [Blank] + CommentLines(comment) + [NetRule(keys, name)];
    hide Bannered;
    BanneredIs(NetKind, header, rest);
    assert NetRuleLines(header, keys, name, comment) == (if header then Banner(NetKind) else []) + rest;
  }

  lemma CdLinesBannered(header: bool, keys: string, link: string, comment: string)
    ensures Bannered(CdKind, header, CdRuleLines(header, keys, link, comment))
  {
    var rest := CommentLines(comment) + [CdRule(keys, link)];
    hide Bannered;
    BanneredIs(CdKind, header, rest);
    assert CdRuleLines(header, keys, link, comment) == (if header then Banner(CdKind) else []) + rest;
  }

  lemma BanneredMore(k: Kind, header: bool, lines: seq<Line>, more: seq<Line>)
    requires Bannered(k, header, lines) && HeaderFree(more)
    ensures Bannered(k, header, lines + more)
  {
    var b := if header then Banner(k) else [];
    assert (lines + more)[|b|..] == lines[|b|..] + more;
  }

  /** A later rule of a run of write_cd_rules, written or not: never a banner. */
  lemma PartIsHeaderFree(wanted: bool, keys: string, link: string)
    ensures HeaderFree(if wanted then CdRuleLines(false, keys, link, "") else [])
  {
    CdLinesBannered(false, keys, link, "");
  }

  /** The lines of one run: its banner if one is due, and no header line otherwise. */
  lemma PlanIsBannered(req: Request, header: bool, text: seq<string>)
    requires !ExitsEarly(req)
    ensures var p := PlanOf(req, header, text); p.Write? ==> Bannered(KindOf(req), header, p.lines)
  {
    hide NetName, NetKeys, CdKeys, Bannered, HeaderFree, NetRuleLines, CdRuleLines;
    var p := PlanOf(req, header, text);
    if p.Write? {
      match req {
        case Net(r) =>
          var n := NetName(r, text).value;
          NetLinesBannered(header, NetKeys(r) + (KERNEL + Stem(r.iface) + "*\""), n, NetComment(r));
        case Cd(r) => CdIsBannered(r, header, text);
      }
    }
  }

  lemma CdIsBannered(r: CdRequest, header: bool, text: seq<string>)
    requires CdKeys(r).Some?
    ensures var p := CdPlan(r, header, text); p.Write? ==> Bannered(CdKind, header, p.lines)
  {
    hide CdKeys, Bannered, HeaderFree, CdRuleLines;
    var a := NextAvailable(Join(Scan(text, KeyOf(CdKind), Family("cdrom"))));
    if a.Some? {
      var n, keys := a.value, CD_HEAD + CdKeys(r).value;
      var l0 := CdRuleLines(header, keys, "cdrom" + n, r.model + " (" + r.path + ")");
      var l1 := if r.cdR || r.cdRw then CdRuleLines(false, keys, "cdrw" + n, "") else [];
      var l2 := if r.dvd then CdRuleLines(false, keys, "dvd" + n, "") else [];
      var l3 := if r.dvdR || r.dvdRw || r.dvdRam then CdRuleLines(false, keys, "dvdrw" + n, "") else [];
      CdLinesBannered(header, keys, "cdrom" + n, r.model + " (" + r.path + ")");
      PartIsHeaderFree(r.cdR || r.cdRw, keys, "cdrw" + n);
      PartIsHeaderFree(r.dvd, keys, "dvd" + n);
      PartIsHeaderFree(r.dvdR || r.dvdRw || r.dvdRam, keys, "dvdrw" + n);
      BanneredMore(CdKind, header, l0, l1);
      BanneredMore(CdKind, header, l0 + l1, l2);
      BanneredMore(CdKind, header, l0 + l1 + l2, l3);
    }
  }

  lemma TurnKeepsOneBanner(k: Kind, f: Files, t: Turn)
    requires OneBanner(k, f) && KindOf(t.req) == k
    ensures OneBanner(k, TakeTurn(f, t))
  {
    hide PlanOf, Banner;
    var lines := LinesOf(f, t);
    if lines != [] {
      PlanIsBannered(t.req, BothAbsent(f), RenderAll(Scanned(f, t.writeable)));
      if BothAbsent(f) {
        AtTop(k, lines);
        assert [] + lines == lines;
      } else {
        AtTopMore(k, Content(f.main), lines);
        AtTopMore(k, Content(f.tmp), lines);
      }
    }
  }

  lemma AtTop(k: Kind, lines: seq<Line>)
    requires Bannered(k, true, lines)
    ensures HeaderAtTop(k, lines)
  {
    var b := Banner(k);
    assert forall j :: |b| <= j < |lines| ==> lines[j] == lines[|b|..][j - |b|];
    forall i | 0 <= i < |lines| && lines[i].Header?
      ensures i < |b| && lines[..i + 1] == b[..i + 1]
    {
    }
  }

  lemma AtTopMore(k: Kind, c: seq<Line>, lines: seq<Line>)
    requires HeaderAtTop(k, c) && Bannered(k, false, lines)
    ensures HeaderAtTop(k, c + lines)
    ensures HeaderFree(c) ==> HeaderFree(c + lines)
  {
    assert lines[0..] == lines;
    forall i | 0 <= i < |c + lines| && (c + lines)[i].Header?
      ensures i < |Banner(k)| && (c + lines)[..i + 1] == Banner(k)[..i + 1]
    {
      assert i < |c| && (c + lines)[..i + 1] == c[..i + 1];
    }
  }

  lemma {:induction false} ReplayHasOneBanner(k: Kind, f: Files, log: seq<Turn>)
    requires OneBanner(k, f) && forall i :: 0 <= i < |log| ==> KindOf(log[i].req) == k
    ensures OneBanner(k, Replay(f, log))
  {
    hide OneBanner, TakeTurn;
    if log != [] {
      ReplayHasOneBanner(k, f, log[..|log| - 1]);
      TurnKeepsOneBanner(k, Replay(f, log[..|log| - 1]), log[|log| - 1]);
    }
  }

  lemma PartHasOneBanner(k: Kind, f: Files, w: bool, todo: seq<Line>)
    requires OneBanner(k, Append(f, w, todo))
    ensures OneBanner(k, f)
  {
    hide Banner;
    if todo != [] {
      if w {
        PrefixAtTop(k, Content(f.main), todo);
      } else {
        PrefixAtTop(k, Content(f.tmp), todo);
      }
    }
  }

  lemma PrefixAtTop(k: Kind, c: seq<Line>, todo: seq<Line>)
    requires HeaderAtTop(k, c + todo)
    ensures HeaderAtTop(k, c)
    ensures HeaderFree(c + todo) ==> HeaderFree(c)
  {
    hide Banner;
    var all := c + todo;
    forall i | 0 <= i < |c|
      ensures c[i] == all[i] && c[..i + 1] == all[..i + 1]
    {
    }
  }

  lemma NoFilesNoBanner(k: Kind, f: Files)
    requires BothAbsent(f)
    ensures OneBanner(k, f)
  {
  }

  /**
   Starting with neither file present, all runs together write at most one banner,
   whatever answers they get about the directory: its lines stand at the top of one of
   the two files, before every rule, and the other file has none.
   */
  lemma OneBannerEver(k: Kind, cfg: Config, s0: State, acts: seq<Action>)
    requires cfg.udevDir && Fresh(s0) && BothAbsent(s0.files)
    requires forall p :: p in s0.procs ==> KindOf(s0.procs[p].req) == k
    ensures OneBanner(k, Run(cfg, s0, acts).files)
  {
    hide OneBanner, Replay;
    FreshInv(s0);
    RunKeepsInv(cfg, s0.files, s0, acts);
    RunKeepsProcs(cfg, s0, acts);
    var s := Run(cfg, s0, acts);
    NoFilesNoBanner(k, s0.files);
    ReplayHasOneBanner(k, s0.files, s.log);
    match s.lock
    case None =>
    case Some(p) =>
      if p in s.procs && s.procs[p].pc.Writing? {
        PartHasOneBanner(k, s.files, s.procs[p].pc.writeable, s.procs[p].pc.todo);
      }
  }
}

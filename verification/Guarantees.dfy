/**
 What holds in every state that any schedule of the protocol reaches.
 */
module Guarantees {
  import opened Text
  import opened Rules
  import opened Scripts
  import opened Turns
  import opened Serial
  import opened Reversion
  import opened Reach
  import opened Protocol

  // ---------- mutual exclusion and serial order ----------

  /**
   At most one process is between its `mkdir` and its `rmdir`; the lock exists exactly
   when there is one; and a process about to remove the lock removes its own.
   */
  lemma MutualExclusion(cfg: Config, s0: State, acts: seq<Action>)
    requires cfg.udevDir && Fresh(s0)
    ensures var s := Run(cfg, s0, acts);
      && (forall p, q :: Holds(s, p) && Holds(s, q) ==> p == q)
      && (s.lock.Some? <==> exists p :: Holds(s, p))
      && (forall p :: p in s.procs && s.procs[p].pc.Releasing? ==> s.lock == Some(p))
      && (forall p :: p in s.procs && s.procs[p].pc.Exited? ==> s.lock != Some(p))
  {
    hide Replay, Projected, LogFits;
    FreshInv(s0);
    RunKeepsInv(cfg, s0.files, s0, acts);
    var s := Run(cfg, s0, acts);
    if s.lock.Some? {
      assert Holds(s, s.lock.value);
    }
    forall p | p in s.procs && s.procs[p].pc.Releasing?
      ensures s.lock == Some(p)
    {
      assert Holds(s, p);
    }
    forall p | p in s.procs && s.procs[p].pc.Exited?
      ensures s.lock != Some(p)
    {
      assert !Holds(s, p);
    }
  }

  /**
   Serializability. In every reachable state the files are those of the serial execution
   recorded in the log, short only of the lines the holder of the lock has still to write.
   */
  lemma Serializable(cfg: Config, s0: State, acts: seq<Action>)
    requires cfg.udevDir && Fresh(s0)
    ensures var s := Run(cfg, s0, acts);
      && Projected(s) == Replay(s0.files, s.log)
      && (s.lock.None? ==> s.files == Replay(s0.files, s.log))
  {
    FreshInv(s0);
    RunKeepsInv(cfg, s0.files, s0, acts);
  }

  /**
   A process that exits with status 1 or 2 has put nothing into the serial execution,
   hence nothing into the files, and one that exits with 0 is in it exactly once.
   */
  lemma ExitsAddNothing(cfg: Config, s0: State, acts: seq<Action>, p: Pid)
    requires cfg.udevDir && Fresh(s0) && p in Run(cfg, s0, acts).procs
    ensures var s := Run(cfg, s0, acts);
      && (s.procs[p].pc == Exited(1) || s.procs[p].pc == Exited(2) ==> !InLog(s.log, p))
      && (s.procs[p].pc == Exited(0) ==>
            exists i :: 0 <= i < |s.log| && s.log[i].pid == p
              && forall j :: 0 <= j < |s.log| && s.log[j].pid == p ==> j == i)
  {
    hide Replay, Projected, Exclusive, HeaderDue, PastStart, Run;
    FreshInv(s0);
    RunKeepsInv(cfg, s0.files, s0, acts);
    var s := Run(cfg, s0, acts);
    if s.procs[p].pc == Exited(0) {
      assert InLog(s.log, p);
      var i :| 0 <= i < |s.log| && s.log[i].pid == p;
      assert forall j :: 0 <= j < |s.log| && s.log[j].pid == p ==> j == i;
    }
  }

  // ---------- exit statuses ----------

  /** The request gives nothing to tell its device by. */
  predicate SaysNothing(req: Request) {
    match req
    case Net(r) => r.iface == "" || (r.addr == "" && r.drv == "" && r.devid == "" && r.id == "" && r.iftype == "")
    case Cd(r) => CdKeys(r).None?
  }

  /** What the place of a process says about its request. */
  predicate StatusFits(proc: Proc) {
    match proc.pc
    case Trying(_) => !ExitsEarly(proc.req)
    case Writing(_, _) => !SaysNothing(proc.req)
    case Releasing(c) => c <= 1 && (c == 1 <==> SaysNothing(proc.req))
    case Exited(c) =>
      && c <= 2 && (c == 1 ==> SaysNothing(proc.req)) && (c == 0 ==> !SaysNothing(proc.req))
      && (c == 2 ==> !ExitsEarly(proc.req))
    case _ => true
  }

  lemma SaysNothingOrEarly(req: Request)
    ensures ExitsEarly(req) ==> SaysNothing(req)
  {
  }

  lemma NoMatchSaysNothing(req: Request, header: bool, text: seq<string>)
    requires !ExitsEarly(req)
    ensures PlanOf(req, header, text).NoMatch? <==> SaysNothing(req)
  {
    hide NetName, Stem, Scan, CdLines;
    if req.Net? {
      NoKeys(req.net);
    }
  }

  lemma NoKeys(r: NetRequest)
    ensures NetKeys(r) == "" <==> r.addr == "" && r.drv == "" && r.devid == "" && r.id == "" && r.iftype == ""
  {
    NoClause(ADDR, r.addr);
    NoClause(DRV, r.drv);
    NoClause(DEVID, r.devid);
    NoClause(ID, r.id);
    NoClause(IFTYPE, r.iftype);
  }

  lemma NoClause(key: string, value: string)
    ensures Clause(key, value) == "" <==> value == ""
  {
  }

  lemma StepKeepsStatus(cfg: Config, v: View, p: Pid)
    requires StatusFits(v.proc)
    ensures StatusFits(StepOf(cfg, v, p).proc)
  {
    hide PlanOf, Append, ExitsEarly, BothAbsent, SaysNothing, Scanned, RenderAll;
    SaysNothingOrEarly(v.proc.req);
    if v.proc.pc.Deciding? && !ExitsEarly(v.proc.req) {
      NoMatchSaysNothing(v.proc.req, v.proc.pc.header, RenderAll(Scanned(v.files, v.proc.pc.writeable)));
    }
  }

  /**
   The statuses in plain terms, whatever the schedule: no status but 0, 1 and 2; a process that
   exits with 1 was given nothing to tell its device by, one with 0 was given something, and one
   with 2 had come as far as the lock.
   */
  lemma {:induction false} StatusTells(cfg: Config, s0: State, acts: seq<Action>, p: Pid)
    requires Fresh(s0) && p in s0.procs
    ensures var s := Run(cfg, s0, acts); p in s.procs && StatusFits(s.procs[p])
  {
    hide StepOf, StatusFits;
    if acts == [] {
      StartFits(s0.procs[p]);
    } else {
      var s, a := Run(cfg, s0, acts[..|acts| - 1]), acts[|acts| - 1];
      StatusTells(cfg, s0, acts[..|acts| - 1], p);
      if a == Act(p) {
        StepKeepsStatus(cfg, ViewOf(s, p), p);
      }
      var y := Apply(cfg, s, a).procs[p];
      if y.pc == s.procs[p].pc && y.req == s.procs[p].req {
        SameStatus(s.procs[p], y);
      }
    }
  }

  lemma StartFits(proc: Proc)
    requires proc.pc == Start
    ensures StatusFits(proc)
  {
  }

  lemma SameStatus(x: Proc, y: Proc)
    requires StatusFits(x) && x.req == y.req && x.pc == y.pc
    ensures StatusFits(y)
  {
  }

  // ---------- append-only ----------

  predicate Extends(f: Files, g: Files) {
    && Content(f.main) <= Content(g.main) && (f.main.Some? ==> g.main.Some?)
    && Content(f.tmp) <= Content(g.tmp) && (f.tmp.Some? ==> g.tmp.Some?)
  }

  lemma AppendExtends(f: Files, w: bool, lines: seq<Line>)
    ensures Extends(f, Append(f, w, lines)) && Extends(f, f)
  {
  }

  /** Only a writing process touches the files. */
  lemma StepFiles(cfg: Config, v: View, p: Pid)
    ensures var pc := v.proc.pc;
      StepOf(cfg, v, p).files
      == if pc.Writing? && pc.todo != [] then Append(v.files, pc.writeable, [pc.todo[0]]) else v.files
  {
    hide PlanOf, Append, ExitsEarly, BothAbsent;
  }

  lemma StepAppends(cfg: Config, s: State, a: Action)
    ensures Extends(s.files, Apply(cfg, s, a).files)
  {
    hide StepOf, Append, Extends;
    AppendExtends(s.files, true, []);
    if a.Act? && a.pid in s.procs {
      var pc := s.procs[a.pid].pc;
      StepFiles(cfg, ViewOf(s, a.pid), a.pid);
      if pc.Writing? && pc.todo != [] {
        AppendExtends(s.files, pc.writeable, [pc.todo[0]]);
      }
    }
  }

  /** No schedule ever takes back or changes a line: a name stays with its rule. */
  lemma {:induction false} AppendOnly(cfg: Config, s: State, before: seq<Action>, after: seq<Action>)
    ensures Extends(Run(cfg, s, before).files, Run(cfg, s, before + after).files)
  {
    hide Apply;
    if after == [] {
      assert before + after == before;
    } else {
      var all, front := before + after, after[..|after| - 1];
      assert all[..|all| - 1] == before + front && all[|all| - 1] == after[|after| - 1];
      AppendOnly(cfg, s, before, front);
      StepAppends(cfg, Run(cfg, s, before + front), after[|after| - 1]);
    }
  }

  // ---------- uniqueness ----------

  ghost predicate AllProcs(k: Kind, s: State) {
    forall p :: p in s.procs ==> Ordinary(k, s.procs[p].req)
  }

  lemma StepKeepsRequest(cfg: Config, v: View, p: Pid)
    ensures StepOf(cfg, v, p).proc.req == v.proc.req
  {
    hide PlanOf, Append, ExitsEarly, BothAbsent;
  }

  lemma StepKeepsProcs(cfg: Config, s: State, a: Action)
    ensures var t := Apply(cfg, s, a);
      t.procs.Keys == s.procs.Keys && forall p :: p in s.procs ==> t.procs[p].req == s.procs[p].req
  {
    hide StepOf;
    if a.Act? && a.pid in s.procs {
      StepKeepsRequest(cfg, ViewOf(s, a.pid), a.pid);
    }
  }

  lemma {:induction false} RunKeepsProcs(cfg: Config, s: State, acts: seq<Action>)
    ensures var t := Run(cfg, s, acts);
      t.procs.Keys == s.procs.Keys && forall p :: p in s.procs ==> t.procs[p].req == s.procs[p].req
  {
    if acts != [] {
      RunKeepsProcs(cfg, s, acts[..|acts| - 1]);
      StepKeepsProcs(cfg, Run(cfg, s, acts[..|acts| - 1]), acts[|acts| - 1]);
    }
  }

  lemma LogIsOrdinary(k: Kind, cfg: Config, s0: State, acts: seq<Action>)
    requires cfg.udevDir && Fresh(s0) && AllProcs(k, s0)
    ensures var s := Run(cfg, s0, acts);
      AllOrdinary(k, s.log) && forall i :: 0 <= i < |s.log| ==> !ExitsEarly(s.log[i].req)
  {
    hide Replay, Projected, Ordinary, ExitsEarly;
    FreshInv(s0);
    RunKeepsInv(cfg, s0.files, s0, acts);
    RunKeepsProcs(cfg, s0, acts);
    var s := Run(cfg, s0, acts);
    forall i | 0 <= i < |s.log|
      ensures Ordinary(k, s.log[i].req)
    {
      assert s.log[i].pid in s0.procs;
    }
  }

  /** The files as they are, given that they are sound once the holder has finished. */
  lemma PartOfSound(k: Kind, f: Files, w: bool, todo: seq<Line>)
    requires Sound(k, Append(f, w, todo))
    ensures Sound(k, f)
  {
    var a, b := Content(f.main), Content(f.tmp);
    if todo != [] {
      if w {
        assert Content(Append(f, w, todo).main)[..|a|] == a;
        PrefixIsGood(k, a, todo);
        NamesConcat(a, todo);
        assert Names(b) + [] == Names(b);
        DistinctPart(Names(a), Names(todo), Names(b), []);
      } else {
        PrefixIsGood(k, b, todo);
        NamesConcat(b, todo);
        assert Names(a) + [] == Names(a);
        DistinctPart(Names(a), [], Names(b), Names(todo));
      }
    }
  }

  lemma PrefixIsGood(k: Kind, a: seq<Line>, b: seq<Line>)
    requires GoodLines(k, a + b)
    ensures GoodLines(k, a)
    ensures k == CdKind && Covered(Names(a + b)) ==> Covered(Names(a))
  {
    NamesConcat(a, b);
    assert forall i :: 0 <= i < |a| ==> a[i] == (a + b)[i];
    forall n | n in Names(a)
      ensures n in Names(a + b)
    {
    }
    if k == CdKind && Covered(Names(a + b)) {
      var ns, all := Names(a), Names(a + b);
      forall i | 0 <= i < |ns| && InCdFamily(ns[i])
        ensures exists j :: 0 <= j <= i && IsCdrom(ns[j]) && NumberOf(ns[j]) == NumberOf(ns[i])
      {
        assert all[i] == ns[i];
        var j :| 0 <= j <= i && IsCdrom(all[j]) && NumberOf(all[j]) == NumberOf(all[i]);
        assert all[j] == ns[j];
      }
    }
  }

  /**
   Uniqueness. Whatever the schedule, with whatever processes stopped, all names in the
   two files are distinct, and every number of an optical-drive family is covered by a
   cdrom rule before it, as long as the answers about the directory have not reverted and
   no run that was let in could reach a name left in the temporary file at the start.
   */
  lemma NamesStayUnique(k: Kind, cfg: Config, s0: State, acts: seq<Action>)
    requires cfg.udevDir && Fresh(s0) && AllProcs(k, s0) && Sound(k, s0.files)
    requires var log := Run(cfg, s0, acts).log; NoReversion(log) && ReachSafe(k, s0.files, log)
    ensures Sound(k, Run(cfg, s0, acts).files)
  {
    hide Sound, AllOrdinary, Replay, NoReversion, ReachSafe;
    var s := Run(cfg, s0, acts);
    LogIsOrdinary(k, cfg, s0, acts);
    ReplayIsSound(k, s0.files, s.log);
    Serializable(cfg, s0, acts);
    match s.lock
    case None =>
    case Some(p) =>
      if p in s.procs && s.procs[p].pc.Writing? {
        PartOfSound(k, s.files, s.procs[p].pc.writeable, s.procs[p].pc.todo);
      }
  }

  /** Every process gets as far as writing, and all compete with `r` for the same names. */
  ghost predicate AllCompete(k: Kind, r: Request, s: State) {
    && Ready(k, r)
    && forall p :: p in s.procs && !ExitsEarly(s.procs[p].req) ==>
         Ready(k, s.procs[p].req) && Same(s.procs[p].req, r)
  }

  lemma LogIsSeries(k: Kind, r: Request, cfg: Config, s0: State, acts: seq<Action>)
    requires cfg.udevDir && Fresh(s0) && AllCompete(k, r, s0)
    ensures Series(k, r, Run(cfg, s0, acts).log)
  {
    hide Replay, Projected, Ready, ExitsEarly, Same;
    FreshInv(s0);
    RunKeepsInv(cfg, s0.files, s0, acts);
    RunKeepsProcs(cfg, s0, acts);
    var s := Run(cfg, s0, acts);
    forall i | 0 <= i < |s.log|
      ensures Ready(k, s.log[i].req) && Same(s.log[i].req, r)
    {
      assert s.log[i].pid in s0.procs;
    }
  }

  /**
   The exact condition, for either script and any sound starting files: whenever the lock
   is free, all names are distinct if and only if every run that was let in fits in. The
   runs are those of any drives, or of interfaces to which the kernel gave the same name.
   */
  lemma NamesUniqueExactly(k: Kind, r: Request, cfg: Config, s0: State, acts: seq<Action>)
    requires cfg.udevDir && Fresh(s0) && Sound(k, s0.files) && AllCompete(k, r, s0)
    ensures var s := Run(cfg, s0, acts);
      s.lock.None? ==> (Distinct(AllNames(s.files)) <==> Fits(MainNames(s0.files), TmpNames(s0.files), s.log))
  {
    hide Sound, AllCompete, Series, Replay, Fits;
    LogIsSeries(k, r, cfg, s0, acts);
    Serializable(cfg, s0, acts);
    UniqueExactly(k, r, s0.files, Run(cfg, s0, acts).log);
  }

  /** For write_cd_rules in numbers, for all processes, also those that exit before the lock. */
  lemma CdNamesUniqueExactly(cfg: Config, s0: State, acts: seq<Action>)
    requires cfg.udevDir && Fresh(s0) && AllProcs(CdKind, s0) && Sound(CdKind, s0.files)
    ensures var s := Run(cfg, s0, acts);
      s.lock.None? ==> (Distinct(AllNames(s.files)) <==> CdFits(s0.files, s.log))
  {
    hide Sound, Replay, CdFits, Ordinary;
    LogIsOrdinary(CdKind, cfg, s0, acts);
    Serializable(cfg, s0, acts);
    CdLogIsReady(Run(cfg, s0, acts).log);
    CdUniqueExactly(s0.files, Run(cfg, s0, acts).log);
  }

  lemma CdLogIsReady(log: seq<Turn>)
    requires AllOrdinary(CdKind, log) && forall i :: 0 <= i < |log| ==> !ExitsEarly(log[i].req)
    ensures AllReady(CdKind, log)
  {
  }

  /** With a temporary file that is behind, the condition is that the answers never revert. */
  lemma BehindNamesUniqueExactly(k: Kind, r: Request, cfg: Config, s0: State, acts: seq<Action>)
    requires cfg.udevDir && Fresh(s0) && Sound(k, s0.files) && AllCompete(k, r, s0)
    requires Behind(r, MainNames(s0.files), TmpNames(s0.files))
    ensures var s := Run(cfg, s0, acts);
      s.lock.None? ==> (Distinct(AllNames(s.files)) <==> NoReversion(s.log))
  {
    hide Sound, AllCompete, Series, Replay, Behind, NoReversion;
    LogIsSeries(k, r, cfg, s0, acts);
    Serializable(cfg, s0, acts);
    BehindUniqueExactly(k, r, s0.files, Run(cfg, s0, acts).log);
  }

  // ---------- one script alone ----------

  predicate NoOther(acts: seq<Action>) {
    forall i :: 0 <= i < |acts| ==> acts[i].Act? || acts[i].Stop?
  }

  /** The probe link exists only while the holder of the lock is between `ln` and `rm`. */
  ghost predicate LinkIsOwn(s: State) {
    s.link.Some? ==> exists p :: p in s.procs && s.procs[p].pc.Linked?
  }

  /** Every answer given so far is the permission of the directory. */
  ghost predicate AnswersAre(s: State, answer: bool) {
    && (forall p :: p in s.procs && s.procs[p].pc.Linked? ==> answer)
    && (forall p :: p in s.procs && s.procs[p].pc.Deciding? ==> s.procs[p].pc.writeable == answer)
    && (forall i :: 0 <= i < |s.log| ==> s.log[i].writeable == answer)
  }

  lemma StepKeepsLinkOwn(cfg: Config, f0: Files, s: State, a: Action)
    requires cfg.udevDir && Inv(f0, s) && LinkIsOwn(s) && (a.Act? || a.Stop?)
    ensures LinkIsOwn(Apply(cfg, s, a))
  {
    hide PlanOf, Append, Replay, Projected, LogFits, HeaderDue, PastStart, ExitsEarly;
    var t, p := Apply(cfg, s, a), a.pid;
    if t.link.Some? {
      if s.link.Some? {
        var q :| q in s.procs && s.procs[q].pc.Linked?;
        assert Holds(s, q);
        assert q in t.procs && t.procs[q].pc.Linked?;
      } else {
        assert p in t.procs && t.procs[p].pc.Linked?;
      }
    }
  }

  /** No stale link meets a process that is about to probe. */
  lemma ProbeFindsNoLink(s: State, p: Pid)
    requires Exclusive(s) && LinkIsOwn(s) && p in s.procs && s.procs[p].pc.Probing?
    ensures s.link.None?
  {
    assert Holds(s, p);
    assert forall q :: q in s.procs && s.procs[q].pc.Linked? ==> Holds(s, q);
  }

  /** What one step of `p` makes of its own answer. */
  lemma OwnAnswer(cfg: Config, s: State, p: Pid)
    requires p in s.procs && AnswersAre(s, cfg.dirWriteable) && (s.procs[p].pc.Probing? ==> s.link.None?)
    ensures var t := Advance(cfg, s, p);
      && t.procs == s.procs[p := t.procs[p]]
      && (t.procs[p].pc.Linked? ==> cfg.dirWriteable)
      && (t.procs[p].pc.Deciding? ==> t.procs[p].pc.writeable == cfg.dirWriteable)
      && (|| t.log == s.log
          || (|t.log| == |s.log| + 1 && t.log[..|s.log|] == s.log && t.log[|s.log|].writeable == cfg.dirWriteable))
  {
    hide PlanOf, Append, ExitsEarly, BothAbsent;
  }

  lemma StepKeepsAnswers(cfg: Config, f0: Files, s: State, a: Action)
    requires cfg.udevDir && Inv(f0, s) && LinkIsOwn(s) && AnswersAre(s, cfg.dirWriteable)
    requires a.Act? || a.Stop?
    ensures AnswersAre(Apply(cfg, s, a), cfg.dirWriteable)
  {
    hide PlanOf, Append, Replay, Projected, LogFits, HeaderDue, PastStart, ExitsEarly, Advance, Decide;
    var t, p := Apply(cfg, s, a), a.pid;
    if a.Act? && p in s.procs && s.procs[p].live {
      if s.procs[p].pc.Probing? {
        ProbeFindsNoLink(s, p);
      }
      OwnAnswer(cfg, s, p);
      forall i | 0 <= i < |t.log|
        ensures t.log[i].writeable == cfg.dirWriteable
      {
        assert i < |s.log| ==> t.log[i] == t.log[..|s.log|][i];
      }
    }
  }

  lemma {:induction false} AnswersAreConstant(cfg: Config, s0: State, acts: seq<Action>)
    requires cfg.udevDir && Fresh(s0) && NoOther(acts)
    ensures LinkIsOwn(Run(cfg, s0, acts)) && AnswersAre(Run(cfg, s0, acts), cfg.dirWriteable)
  {
    if acts != [] {
      var front := acts[..|acts| - 1];
      AnswersAreConstant(cfg, s0, front);
      FreshInv(s0);
      RunKeepsInv(cfg, s0.files, s0, front);
      StepKeepsLinkOwn(cfg, s0.files, Run(cfg, s0, front), acts[|acts| - 1]);
      StepKeepsAnswers(cfg, s0.files, Run(cfg, s0, front), acts[|acts| - 1]);
    }
  }

  /**
   Run by itself, with the permission of the directory fixed, each script keeps all names
   unique in every reachable state of every schedule, provided that, if the directory is
   writeable, the names left in the temporary file are out of reach.
   */
  lemma AloneNamesStayUnique(k: Kind, cfg: Config, s0: State, acts: seq<Action>)
    requires cfg.udevDir && Fresh(s0) && AllProcs(k, s0) && Sound(k, s0.files)
    requires NoOther(acts) && (cfg.dirWriteable ==> OutOfReach(k, s0.files))
    ensures Sound(k, Run(cfg, s0, acts).files)
  {
    hide Sound, AllOrdinary, Replay;
    hide OutOfReach;
    AnswersAreConstant(cfg, s0, acts);
    NamesStayUnique(k, cfg, s0, acts);
  }
}

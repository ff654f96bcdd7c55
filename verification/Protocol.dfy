/**
 The generators running concurrently: any number of processes of one script, each
 advancing by atomic steps in any order, each able to stop for ever anywhere, next to
 the other script, which probes the same directory.
 */
module Protocol {
  import opened Text
  import opened Rules
  import opened Scripts
  import opened Serial

  // ---------- state ----------

  /** Where a process stands in its script. */
  datatype Pc =
    | Start
    | Trying(retry: nat)                           // before a mkdir attempt
    | Probing                                      // before the file tests and `ln -s`
    | Linked(header: bool)                         // the probe link exists; before `rm`
    | Deciding(writeable: bool, header: bool)      // before scanning and choosing names
    | Writing(writeable: bool, todo: seq<Line>)    // lines still to be echoed
    | Releasing(code: nat)                         // before `rmdir`
    | Exited(code: nat)

  datatype Proc = Proc(req: Request, pc: Pc, live: bool)

  datatype Maker = Own | Other

  /**
   `lock` is the lock directory; the id of the process that made it is bookkeeping that
   no step tests. `link` is `.is-writeable`, made by this script or by the other one.
   `log`, too, is bookkeeping: the runs that reached the point of writing, in order.
   */
  datatype State = State(lock: Option<Pid>, link: Option<Maker>, files: Files, procs: map<Pid, Proc>, log: seq<Turn>)

  /** Whether `/dev/.udev/` exists, and whether the rules directory takes new entries. */
  datatype Config = Config(udevDir: bool, dirWriteable: bool)

  datatype Action = Act(pid: Pid) | Stop(pid: Pid) | OtherLinks | OtherUnlinks

  const RETRIES: nat := 30

  // ---------- steps ----------

  /** What a process sees and changes in one step: everything shared, and itself. */
  datatype View = View(lock: Option<Pid>, link: Option<Maker>, files: Files, log: seq<Turn>, proc: Proc)

  function Goto(v: View, pc: Pc): View {
    v.(proc := v.proc.(pc := pc))
  }

  /** Scanning and choosing the names, under the lock. */
  function Decide(v: View, p: Pid, writeable: bool, header: bool): View {
    if ExitsEarly(v.proc.req) then v
    else
      match PlanOf(v.proc.req, header, RenderAll(Scanned(v.files, writeable)))
      case NoMatch => Goto(v, Releasing(1))
      case Crash => v.(proc := v.proc.(live := false))
      case Write(lines) =>
        Goto(v, Writing(writeable, lines)).(log := v.log + [Turn(p, v.proc.req, writeable)])
  }

  /** The next atomic step of process `p`. */
  function StepOf(cfg: Config, v: View, p: Pid): View {
    match v.proc.pc
    case Start =>
      if ExitsEarly(v.proc.req) then Goto(v, Exited(1))
      else if cfg.udevDir then Goto(v, Trying(RETRIES))
      else Goto(v, Probing)
    case Trying(n) =>
      if v.lock.None? then Goto(v, Probing).(lock := Some(p))
      else if n == 0 then Goto(v, Exited(2))
      else Goto(v, Trying(n - 1))
    case Probing =>
      if cfg.dirWriteable && v.link.None? then Goto(v, Linked(BothAbsent(v.files))).(link := Some(Own))
      else Goto(v, Deciding(false, BothAbsent(v.files)))
    case Linked(h) => Goto(v, Deciding(true, h)).(link := None)
    case Deciding(w, h) => Decide(v, p, w, h)
    case Writing(w, todo) =>
      if todo == [] then Goto(v, Releasing(0))
      else Goto(v, Writing(w, todo[1..])).(files := Append(v.files, w, [todo[0]]))
    case Releasing(c) => Goto(v, Exited(c)).(lock := if cfg.udevDir then None else v.lock)
    case Exited(_) => v
  }

  function ViewOf(s: State, p: Pid): View
    requires p in s.procs
  {
    View(s.lock, s.link, s.files, s.log, s.procs[p])
  }

  function With(s: State, p: Pid, v: View): State {
    State(v.lock, v.link, v.files, s.procs[p := v.proc], v.log)
  }

  function Advance(cfg: Config, s: State, p: Pid): State
    requires p in s.procs
  {
    With(s, p, StepOf(cfg, ViewOf(s, p), p))
  }

  function Apply(cfg: Config, s: State, a: Action): State {
    match a
    case Act(p) => if p in s.procs && s.procs[p].live then Advance(cfg, s, p) else s
    case Stop(p) => if p in s.procs then s.(procs := s.procs[p := s.procs[p].(live := false)]) else s
    case OtherLinks => if cfg.dirWriteable && s.link.None? then s.(link := Some(Other)) else s
    case OtherUnlinks => if s.link == Some(Other) then s.(link := None) else s
  }

  /** The state after any schedule. */
  function Run(cfg: Config, s: State, acts: seq<Action>): State {
    if acts == [] then s else Apply(cfg, Run(cfg, s, acts[..|acts| - 1]), acts[|acts| - 1])
  }

  /** Nobody has started, nothing is locked. */
  ghost predicate Fresh(s: State) {
    && s.lock.None? && s.link.None? && s.log == []
    && forall p :: p in s.procs ==> s.procs[p].pc == Start && s.procs[p].live
  }

  // ---------- mutual exclusion ----------

  /** Between a successful `mkdir` and the `rmdir`, whether running or stopped. */
  predicate Critical(pc: Pc) {
    pc.Probing? || pc.Linked? || pc.Deciding? || pc.Writing? || pc.Releasing?
  }

  predicate Holds(s: State, p: Pid) {
    p in s.procs && Critical(s.procs[p].pc)
  }

  /** The lock exists exactly when a process holds it, and it is that process's own. */
  ghost predicate Exclusive(s: State) {
    forall p :: Holds(s, p) <==> s.lock == Some(p)
  }

  // ---------- serial order ----------

  /** The files once the holder of the lock has written what it has decided to write. */
  function Projected(s: State): Files {
    match s.lock
    case None => s.files
    case Some(p) =>
      if p in s.procs && s.procs[p].pc.Writing? then Append(s.files, s.procs[p].pc.writeable, s.procs[p].pc.todo)
      else s.files
  }

  ghost predicate HeaderDue(s: State, p: Pid)
    requires p in s.procs
  {
    match s.procs[p].pc
    case Linked(h) => h == BothAbsent(s.files)
    case Deciding(_, h) => h == BothAbsent(s.files)
    case _ => true
  }

  /** A process that passed its early exits never fails them later. */
  ghost predicate PastStart(s: State, p: Pid)
    requires p in s.procs
  {
    s.procs[p].pc != Start && !s.procs[p].pc.Exited? ==> !ExitsEarly(s.procs[p].req)
  }

  /** The process got as far as writing, or past it. */
  predicate HasWritten(pc: Pc) {
    pc.Writing? || pc == Releasing(0) || pc == Exited(0)
  }

  ghost predicate InLog(log: seq<Turn>, p: Pid) {
    exists i :: 0 <= i < |log| && log[i].pid == p
  }

  /** Each process is in the log once it writes, and only once. */
  ghost predicate LogFits(s: State) {
    && (forall i :: 0 <= i < |s.log| ==> s.log[i].pid in s.procs && s.log[i].req == s.procs[s.log[i].pid].req)
    && (forall i, j :: 0 <= i < j < |s.log| ==> s.log[i].pid != s.log[j].pid)
    && (forall p :: p in s.procs ==> (HasWritten(s.procs[p].pc) <==> InLog(s.log, p)))
    && (forall i :: 0 <= i < |s.log| ==> !ExitsEarly(s.log[i].req))
  }

  /** The invariant of the protocol, for files that started as `f0`. */
  ghost predicate Inv(f0: Files, s: State) {
    && Exclusive(s)
    && (forall p :: p in s.procs ==> PastStart(s, p) && HeaderDue(s, p))
    && LogFits(s)
    && Projected(s) == Replay(f0, s.log)
  }

  // ---------- the invariant holds in every reachable state ----------

  lemma FreshInv(s: State)
    requires Fresh(s)
    ensures Inv(s.files, s)
  {
    forall p
      ensures Holds(s, p) <==> s.lock == Some(p)
    {
    }
  }

  /** Changing a program counter that neither starts nor undoes writing. */
  lemma MoveKeepsLog(s: State, t: State, p: Pid)
    requires LogFits(s) && p in s.procs && p in t.procs
    requires t.procs == s.procs[p := t.procs[p]] && t.log == s.log && t.procs[p].req == s.procs[p].req
    requires HasWritten(t.procs[p].pc) <==> HasWritten(s.procs[p].pc)
    ensures LogFits(t)
  {
    forall q | q in t.procs
      ensures HasWritten(t.procs[q].pc) <==> InLog(t.log, q)
    {
      assert q in s.procs;
    }
  }

  lemma AppendOneByOne(f: Files, w: bool, todo: seq<Line>)
    requires todo != []
    ensures Append(Append(f, w, [todo[0]]), w, todo[1..]) == Append(f, w, todo)
  {
    assert [todo[0]] + todo[1..] == todo;
    var g := Append(f, w, [todo[0]]);
    assert Append(f, w, todo) == Append(g, w, todo[1..]) || todo[1..] != [] by {
      if todo[1..] == [] {
        assert todo == [todo[0]];
      }
    }
    assert Content(f.main) + [todo[0]] + todo[1..] == Content(f.main) + todo;
    assert Content(f.tmp) + [todo[0]] + todo[1..] == Content(f.tmp) + todo;
  }

  lemma ReplayOneMore(f0: Files, log: seq<Turn>, turn: Turn, lines: seq<Line>)
    requires !ExitsEarly(turn.req)
    requires var f := Replay(f0, log);
      PlanOf(turn.req, BothAbsent(f), RenderAll(Scanned(f, turn.writeable))) == Write(lines)
    ensures Replay(f0, log + [turn]) == Append(Replay(f0, log), turn.writeable, lines)
  {
    hide PlanOf, Append;
    assert (log + [turn])[..|log|] == log;
  }

  /** Deciding adds one turn to the serial order, with the very lines that turn would add. */
  lemma DecideKeepsInv(cfg: Config, f0: Files, s: State, p: Pid)
    requires Inv(f0, s) && p in s.procs && s.procs[p].pc.Deciding?
    ensures Inv(f0, Advance(cfg, s, p))
  {
    hide PlanOf, LinesOf, Append, Replay, ExitsEarly, BothAbsent, Scanned, RenderAll;
    assert Holds(s, p) && PastStart(s, p) && HeaderDue(s, p);
    var w, h := s.procs[p].pc.writeable, s.procs[p].pc.header;
    var t := Advance(cfg, s, p);
    match PlanOf(s.procs[p].req, h, RenderAll(Scanned(s.files, w)))
    case NoMatch => MoveKeepsInv(f0, s, t, p);
    case Crash => LiveOnly(f0, s, t);
    case Write(lines) =>
      var turn := Turn(p, s.procs[p].req, w);
      ReplayOneMore(f0, s.log, turn, lines);
      WriteKeepsInv(f0, s, t, p, turn);
  }

  lemma WriteKeepsInv(f0: Files, s: State, t: State, p: Pid, turn: Turn)
    requires Inv(f0, s) && s.lock == Some(p) && p in s.procs && !HasWritten(s.procs[p].pc)
    requires turn.pid == p && turn.req == s.procs[p].req && !ExitsEarly(turn.req)
    requires p in t.procs && t.procs[p].req == turn.req && t.procs[p].pc.Writing?
    requires t.procs == s.procs[p := t.procs[p]] && t.lock == s.lock && t.files == s.files
    requires t.log == s.log + [turn] && Projected(t) == Replay(f0, t.log)
    ensures Inv(f0, t)
  {
    hide PlanOf, LinesOf, Append, Replay, ExitsEarly, BothAbsent;
    WriteKeepsLog(s, t, p, turn);
    ExclusiveAfter(s, t, p);
    forall q | q in t.procs
      ensures HeaderDue(t, q) && PastStart(t, q)
    {
      assert PastStart(s, q) && HeaderDue(s, q);
    }
  }

  lemma WriteKeepsLog(s: State, t: State, p: Pid, turn: Turn)
    requires LogFits(s) && p in s.procs && !HasWritten(s.procs[p].pc)
    requires turn.pid == p && turn.req == s.procs[p].req && !ExitsEarly(turn.req)
    requires t.log == s.log + [turn]
    requires p in t.procs && t.procs == s.procs[p := t.procs[p]]
    requires t.procs[p].req == turn.req && HasWritten(t.procs[p].pc)
    ensures LogFits(t)
  {
    hide ExitsEarly;
    assert !InLog(s.log, p);
    assert t.log[|s.log|] == turn;
    forall q | q in t.procs
      ensures HasWritten(t.procs[q].pc) <==> InLog(t.log, q)
    {
      if InLog(s.log, q) {
        var i :| 0 <= i < |s.log| && s.log[i].pid == q;
        assert t.log[i].pid == q;
      }
    }
  }

  lemma ActKeepsInv(cfg: Config, f0: Files, s: State, p: Pid)
    requires cfg.udevDir && Inv(f0, s) && p in s.procs
    ensures Inv(f0, Advance(cfg, s, p))
  {
    hide PlanOf, LinesOf, Append, Replay, LogFits, Projected, ExitsEarly, Decide;
    var t := Advance(cfg, s, p);
    assert PastStart(s, p) && HeaderDue(s, p);
    assert Holds(s, p) <==> s.lock == Some(p);
    match s.procs[p].pc
    case Deciding(w, h) => DecideKeepsInv(cfg, f0, s, p);
    case Writing(w, todo) => WritingKeepsInv(cfg, f0, s, p);
    case _ => MoveKeepsInv(f0, s, t, p);
  }

  /** A step that moves one process without touching the files. */
  lemma MoveKeepsInv(f0: Files, s: State, t: State, p: Pid)
    requires Inv(f0, s) && p in s.procs && p in t.procs
    requires t.procs == s.procs[p := t.procs[p]] && t.procs[p].req == s.procs[p].req
    requires t.log == s.log && t.files == s.files
    requires t.lock == s.lock || (s.lock.None? && t.lock == Some(p)) || (s.lock == Some(p) && t.lock.None?)
    requires Critical(t.procs[p].pc) <==> t.lock == Some(p)
    requires !s.procs[p].pc.Writing? && !t.procs[p].pc.Writing?
    requires HasWritten(s.procs[p].pc) <==> HasWritten(t.procs[p].pc)
    requires HeaderDue(t, p) && PastStart(t, p)
    ensures Inv(f0, t)
  {
    hide PlanOf, LinesOf, Append, Replay, ExitsEarly, BothAbsent;
    ExclusiveAfter(s, t, p);
    MoveKeepsLog(s, t, p);
    assert LogFits(t);
    forall q | q in t.procs
      ensures HeaderDue(t, q) && PastStart(t, q)
    {
      assert PastStart(s, q) && HeaderDue(s, q);
    }
    assert Projected(t) == Projected(s);
  }

  lemma ExclusiveAfter(s: State, t: State, p: Pid)
    requires Exclusive(s) && p in s.procs
    requires p in t.procs && t.procs == s.procs[p := t.procs[p]]
    requires t.lock == s.lock || (s.lock.None? && t.lock == Some(p)) || (s.lock == Some(p) && t.lock.None?)
    requires Critical(t.procs[p].pc) <==> t.lock == Some(p)
    ensures Exclusive(t)
  {
    forall q
      ensures Holds(t, q) <==> t.lock == Some(q)
    {
      assert Holds(s, q) <==> s.lock == Some(q);
    }
  }

  lemma WritingKeepsInv(cfg: Config, f0: Files, s: State, p: Pid)
    requires cfg.udevDir && Inv(f0, s) && p in s.procs && s.procs[p].pc.Writing?
    ensures Inv(f0, Advance(cfg, s, p))
  {
    hide PlanOf, LinesOf, Replay, ExitsEarly, Append, Decide;
    var t := Advance(cfg, s, p);
    var w, todo := s.procs[p].pc.writeable, s.procs[p].pc.todo;
    assert Holds(s, p);
    ExclusiveAfter(s, t, p);
    MoveKeepsLog(s, t, p);
    assert t.log == s.log;
    if todo != [] {
      AppendOneByOne(s.files, w, todo);
    } else {
      AppendNothing(s.files, w);
    }
    forall q | q in t.procs
      ensures HeaderDue(t, q) && PastStart(t, q)
    {
      assert PastStart(s, q) && HeaderDue(s, q);
      assert q != p ==> !Holds(s, q);
    }
  }

  lemma StepKeepsInv(cfg: Config, f0: Files, s: State, a: Action)
    requires cfg.udevDir && Inv(f0, s)
    ensures Inv(f0, Apply(cfg, s, a))
  {
    hide PlanOf, LinesOf, Append, Advance, Replay, LogFits, HeaderDue, PastStart, Projected, Exclusive;
    var t := Apply(cfg, s, a);
    match a
    case Act(p) =>
      if p in s.procs && s.procs[p].live {
        ActKeepsInv(cfg, f0, s, p);
      }
    case Stop(p) =>
      if p in s.procs {
        assert forall q :: q in s.procs ==> t.procs[q].pc == s.procs[q].pc && t.procs[q].req == s.procs[q].req;
        LiveOnly(f0, s, t);
      }
    case _ => LiveOnly(f0, s, t);
  }

  lemma LiveOnly(f0: Files, s: State, t: State)
    requires Inv(f0, s) && t.lock == s.lock && t.files == s.files && t.log == s.log
    requires t.procs.Keys == s.procs.Keys
    requires forall q :: q in s.procs ==> t.procs[q].pc == s.procs[q].pc && t.procs[q].req == s.procs[q].req
    ensures Inv(f0, t)
  {
    hide PlanOf, LinesOf, Append, Replay, ExitsEarly;
    forall q
      ensures Holds(t, q) <==> t.lock == Some(q)
    {
      assert Holds(s, q) <==> s.lock == Some(q);
    }
    forall q | q in t.procs
      ensures HeaderDue(t, q) && PastStart(t, q)
    {
      assert q in s.procs && HeaderDue(s, q) && PastStart(s, q);
    }
    forall q | q in t.procs
      ensures HasWritten(t.procs[q].pc) <==> InLog(t.log, q)
    {
      assert q in s.procs;
    }
    assert Projected(t) == Projected(s);
  }

  lemma {:induction false} RunKeepsInv(cfg: Config, f0: Files, s: State, acts: seq<Action>)
    requires cfg.udevDir && Inv(f0, s)
    ensures Inv(f0, Run(cfg, s, acts))
  {
    if acts != [] {
      RunKeepsInv(cfg, f0, s, acts[..|acts| - 1]);
      StepKeepsInv(cfg, f0, Run(cfg, s, acts[..|acts| - 1]), acts[|acts| - 1]);
    }
  }
}

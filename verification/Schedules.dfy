/**
 Particular schedules: a process left to run alone always finishes; and two schedules
 that break uniqueness, one through the other script's probe, one without `/dev/.udev/`.
 */
module Schedules {
  import opened Text
  import opened Rules
  import opened Scripts
  import opened Turns
  import opened Serial
  import opened Reversion
  import opened Reach
  import opened Protocol
  import opened Guarantees

  lemma {:induction false} RunConcat(cfg: Config, s: State, a: seq<Action>, b: seq<Action>)
    ensures Run(cfg, s, a + b) == Run(cfg, Run(cfg, s, a), b)
  {
    hide Apply;
    if b == [] {
      assert a + b == a;
    } else {
      var all := a + b;
      assert all[..|all| - 1] == a + b[..|b| - 1];
      RunConcat(cfg, s, a, b[..|b| - 1]);
    }
  }

  /** `n` steps for `p` and nobody else. */
  function Alone(p: Pid, n: nat): (acts: seq<Action>)
    ensures |acts| == n && NoOther(acts)
  {
    if n == 0 then [] else Alone(p, n - 1) + [Act(p)]
  }

  /** `n` steps of the view of `p`. */
  function Steps(cfg: Config, v: View, p: Pid, n: nat): View {
    if n == 0 then v
    else
      var w := Steps(cfg, v, p, n - 1);
      if w.proc.live then StepOf(cfg, w, p) else w
  }

  lemma WithLaws(s: State, p: Pid, v: View, w: View)
    requires p in s.procs
    ensures With(s, p, ViewOf(s, p)) == s
    ensures p in With(s, p, v).procs && ViewOf(With(s, p, v), p) == v
    ensures With(With(s, p, v), p, w) == With(s, p, w)
  {
    assert s.procs[p := s.procs[p]] == s.procs;
    assert s.procs[p := v.proc][p := w.proc] == s.procs[p := w.proc];
  }

  lemma ActIsStep(cfg: Config, s: State, p: Pid, v: View)
    requires p in s.procs
    ensures Apply(cfg, With(s, p, v), Act(p)) == With(s, p, if v.proc.live then StepOf(cfg, v, p) else v)
  {
    hide StepOf;
    WithLaws(s, p, v, StepOf(cfg, v, p));
  }

  lemma {:induction false} AloneIsSteps(cfg: Config, s: State, p: Pid, n: nat)
    requires p in s.procs
    ensures Run(cfg, s, Alone(p, n)) == With(s, p, Steps(cfg, ViewOf(s, p), p, n))
  {
    hide StepOf, Apply, With, ViewOf;
    if n == 0 {
      WithLaws(s, p, ViewOf(s, p), ViewOf(s, p));
    } else {
      AloneIsSteps(cfg, s, p, n - 1);
      var acts := Alone(p, n);
      assert acts[..n - 1] == Alone(p, n - 1) && acts[n - 1] == Act(p);
      ActIsStep(cfg, s, p, Steps(cfg, ViewOf(s, p), p, n - 1));
    }
  }

  lemma {:induction false} StepsConcat(cfg: Config, v: View, p: Pid, m: nat, n: nat)
    ensures Steps(cfg, v, p, m + n) == Steps(cfg, Steps(cfg, v, p, m), p, n)
  {
    hide StepOf;
    if n > 0 {
      StepsConcat(cfg, v, p, m, n - 1);
    }
  }

  lemma {:induction false} FirstStep(cfg: Config, v: View, p: Pid, n: nat)
    requires n > 0 && v.proc.live
    ensures Steps(cfg, v, p, n) == Steps(cfg, StepOf(cfg, v, p), p, n - 1)
  {
    hide StepOf;
    assert Steps(cfg, v, p, 0) == v;
    assert Steps(cfg, v, p, 1) == StepOf(cfg, v, p);
    StepsConcat(cfg, v, p, 1, n - 1);
  }

  /** The loop of echoes: after as many steps as there are lines, all have been appended. */
  lemma {:induction false} WriteOut(cfg: Config, v: View, p: Pid, w: bool, todo: seq<Line>)
    requires v.proc.live && v.proc.pc == Writing(w, todo)
    ensures Steps(cfg, v, p, |todo|) == Goto(v, Writing(w, [])).(files := Append(v.files, w, todo))
    decreases |todo|
  {
    hide Append, PlanOf, Decide;
    if todo == [] {
      AppendNothing(v.files, w);
    } else {
      var u := StepOf(cfg, v, p);
      FirstStep(cfg, v, p, |todo|);
      WriteOut(cfg, u, p, w, todo[1..]);
      AppendOneByOne(v.files, w, todo);
    }
  }

  /** What `p` finds out about the directory if it probes now. */
  function ProbeNow(cfg: Config, v: View): bool {
    cfg.dirWriteable && v.link.None?
  }

  /** From the start to the point of deciding, under the lock if there is one. */
  function StepsToDecide(cfg: Config, v: View): nat {
    1 + (if cfg.udevDir then 1 else 0) + (if ProbeNow(cfg, v) then 2 else 1)
  }

  lemma ReachDecide(cfg: Config, v: View, p: Pid)
    requires v.proc.live && v.proc.pc == Start && !ExitsEarly(v.proc.req)
    requires cfg.udevDir ==> v.lock.None?
    ensures Steps(cfg, v, p, StepsToDecide(cfg, v))
            == Goto(v, Deciding(ProbeNow(cfg, v), BothAbsent(v.files)))
               .(lock := if cfg.udevDir then Some(p) else v.lock)
  {
    hide ExitsEarly, Append, Decide, BothAbsent;
    var n := StepsToDecide(cfg, v);
    FirstStep(cfg, v, p, n);
    var v1 := StepOf(cfg, v, p);
    var v2 := v1;
    if cfg.udevDir {
      FirstStep(cfg, v1, p, n - 1);
      v2 := StepOf(cfg, v1, p);
    }
    var m := if ProbeNow(cfg, v) then 2 else 1;
    FirstStep(cfg, v2, p, m);
    var v3 := StepOf(cfg, v2, p);
    if ProbeNow(cfg, v) {
      FirstStep(cfg, v3, p, 1);
    }
  }

  /** The turn `p` takes if it runs now. */
  function TurnOf(cfg: Config, v: View, p: Pid): Turn {
    Turn(p, v.proc.req, ProbeNow(cfg, v))
  }

  /** Does a run of `t` on `f` get to write? */
  predicate Writes(f: Files, t: Turn) {
    !ExitsEarly(t.req) && PlanOf(t.req, BothAbsent(f), RenderAll(Scanned(f, t.writeable))).Write?
  }

  /** One step past the decision: the lines of the turn are all there is left to write. */
  function StepsToWrite(cfg: Config, v: View): nat {
    StepsToDecide(cfg, v) + 1
  }

  lemma ReachWriting(cfg: Config, v: View, p: Pid)
    requires v.proc.live && v.proc.pc == Start && (cfg.udevDir ==> v.lock.None?)
    requires Writes(v.files, TurnOf(cfg, v, p))
    ensures var t := TurnOf(cfg, v, p);
      Steps(cfg, v, p, StepsToWrite(cfg, v))
      == View(if cfg.udevDir then Some(p) else v.lock, v.link, v.files, v.log + [t],
              v.proc.(pc := Writing(t.writeable, LinesOf(v.files, t))))
  {
    hide Append, PlanOf, BothAbsent, ExitsEarly, StepsToDecide, ProbeNow, Scanned, RenderAll;
    var n := StepsToDecide(cfg, v);
    ReachDecide(cfg, v, p);
    StepsConcat(cfg, v, p, n, 1);
    FirstStep(cfg, Steps(cfg, v, p, n), p, 1);
  }

  lemma Finish(cfg: Config, v: View, p: Pid, w: bool, todo: seq<Line>)
    requires cfg.udevDir && v.proc.live && v.proc.pc == Writing(w, todo)
    ensures Steps(cfg, v, p, |todo| + 2)
            == View(None, v.link, Append(v.files, w, todo), v.log, v.proc.(pc := Exited(0)))
  {
    hide Append, Decide;
    WriteOut(cfg, v, p, w, todo);
    StepsConcat(cfg, v, p, |todo|, 2);
    var u := Steps(cfg, v, p, |todo|);
    FirstStep(cfg, u, p, 2);
    FirstStep(cfg, StepOf(cfg, u, p), p, 1);
  }

  /** How many steps a whole run takes, all with the lock free. */
  function RunLength(cfg: Config, v: View, p: Pid): nat {
    StepsToWrite(cfg, v) + (|LinesOf(v.files, TurnOf(cfg, v, p))| + 2)
  }

  /**
   A process left to run alone while the lock is free always gets through: it takes one
   whole turn on the files, leaves the lock free, and exits with status 0.
   */
  lemma AloneTakesATurn(cfg: Config, v: View, p: Pid)
    requires cfg.udevDir && v.lock.None? && v.proc.live && v.proc.pc == Start
    requires Writes(v.files, TurnOf(cfg, v, p))
    ensures var t := TurnOf(cfg, v, p);
      Steps(cfg, v, p, RunLength(cfg, v, p))
      == View(None, v.link, TakeTurn(v.files, t), v.log + [t], v.proc.(pc := Exited(0)))
  {
    hide Append, LinesOf, StepOf, Writes, StepsToWrite, TurnOf;
    var t := TurnOf(cfg, v, p);
    var n, lines := StepsToWrite(cfg, v), LinesOf(v.files, t);
    ReachWriting(cfg, v, p);
    StepsConcat(cfg, v, p, n, |lines| + 2);
    Finish(cfg, Steps(cfg, v, p, n), p, t.writeable, lines);
  }

  // ---------- the other script's probe ----------

  /** A run that is ready always gets to write. */
  lemma ReadyWrites(k: Kind, f: Files, t: Turn)
    requires GoodFiles(k, f) && Ready(k, t.req)
    ensures Writes(f, t)
  {
    hide GoodLines, ValidRequest, CdKeys, NetKeys, CdPlan, NetPlan, BothAbsent, Names;
    var seen := Scanned(f, t.writeable);
    GoodConcat(k, Content(f.main), Content(f.tmp));
    if k == NetKind {
      NetPlanIsFresh(t.req.net, BothAbsent(f), seen);
      NetPlanGoesOn(t.req.net, BothAbsent(f), RenderAll(seen));
    } else {
      CdPlanLinks(t.req.cd, BothAbsent(f), seen);
    }
  }

  lemma NetPlanGoesOn(r: NetRequest, header: bool, text: seq<string>)
    ensures var p := NetPlan(r, header, text); p.NoMatch? || p.Crash? || p.Write?
  {
  }

  /** A process about to start that will get as far as writing. */
  predicate Willing(k: Kind, s: State, p: Pid) {
    p in s.procs && s.procs[p].live && s.procs[p].pc == Start && Ready(k, s.procs[p].req)
  }

  /** A run of `p` alone, as a schedule. */
  lemma AloneRun(k: Kind, cfg: Config, s: State, p: Pid) returns (acts: seq<Action>)
    requires cfg.udevDir && s.lock.None? && GoodFiles(k, s.files) && Willing(k, s, p)
    ensures NoOther(acts)
    ensures var t := Turn(p, s.procs[p].req, cfg.dirWriteable && s.link.None?);
      Run(cfg, s, acts)
      == State(None, s.link, TakeTurn(s.files, t), s.procs[p := s.procs[p].(pc := Exited(0))], s.log + [t])
  {
    hide GoodFiles, Ready, TakeTurn, RunLength, Writes;
    var v := ViewOf(s, p);
    ReadyWrites(k, s.files, TurnOf(cfg, v, p));
    AloneTakesATurn(cfg, v, p);
    acts := Alone(p, RunLength(cfg, v, p));
    AloneIsSteps(cfg, s, p, RunLength(cfg, v, p));
  }

  /** One run refused because of the other script's probe, and then one let in. */
  lemma ProbeSchedule(k: Kind, s0: State, p: Pid, q: Pid) returns (acts: seq<Action>)
    requires Fresh(s0) && GoodFiles(k, s0.files) && Willing(k, s0, p) && Willing(k, s0, q) && p != q
    ensures var s := Run(Config(true, true), s0, acts);
      s.files == Replay(s0.files, [Turn(p, s0.procs[p].req, false), Turn(q, s0.procs[q].req, true)])
  {
    hide Ready, TakeTurn, GoodFiles, Apply;
    var cfg := Config(true, true);
    var t, u := Turn(p, s0.procs[p].req, false), Turn(q, s0.procs[q].req, true);
    var s1 := s0.(link := Some(Other));
    OtherSteps(cfg, s0);
    var a := AloneRun(k, cfg, s1, p);
    var s2 := Run(cfg, s1, a);
    TurnGives(k, s1.files, t);
    OtherSteps(cfg, s2);
    var s3 := s2.(link := None);
    var b := AloneRun(k, cfg, s3, q);
    acts := [OtherLinks] + a + [OtherUnlinks] + b;
    RunConcat(cfg, s0, [OtherLinks], a);
    RunConcat(cfg, s0, [OtherLinks] + a, [OtherUnlinks]);
    RunConcat(cfg, s0, [OtherLinks] + a + [OtherUnlinks], b);
    TwoTurns(s0.files, t, u);
  }

  lemma TwoTurns(f: Files, t: Turn, u: Turn)
    ensures Replay(f, [t, u]) == TakeTurn(TakeTurn(f, t), u)
  {
    hide TakeTurn;
    assert [t, u][..1] == [t] && [t][..0] == [];
    assert Replay(f, []) == f && Replay(f, [t]) == TakeTurn(f, t);
  }

  /**
   The claim fails when the two scripts run side by side, though the directory stays
   writeable throughout: while the other script's probe link exists, a run takes the
   directory for not writeable and puts its rules in the temporary file; a later run,
   finding it writeable, does not look there and gives out the same names again. Any two
   drives will do, or any two interfaces of one kernel name, from any files of which the
   temporary one is behind, as it is when it has no rules.
   */
  lemma ProbeRace(k: Kind, s0: State, p: Pid, q: Pid) returns (acts: seq<Action>)
    requires Fresh(s0) && Sound(k, s0.files) && Willing(k, s0, p) && Willing(k, s0, q) && p != q
    requires var r := s0.procs[p].req; Same(s0.procs[q].req, r) && Behind(r, MainNames(s0.files), TmpNames(s0.files))
    ensures !Distinct(AllNames(Run(Config(true, true), s0, acts).files))
  {
    hide Sound, Ready, Replay, MainNames, TmpNames, GoodFiles, Run, Behind, Same, Distinct;
    var t, u := Turn(p, s0.procs[p].req, false), Turn(q, s0.procs[q].req, true);
    SoundIsGood(k, s0.files);
    acts := ProbeSchedule(k, s0, p, q);
    SameAsItself(t.req);
    BehindUniqueExactly(k, t.req, s0.files, [t, u]);
    assert [t, u][1].writeable && ![t, u][0].writeable;
  }

  lemma SameAsItself(r: Request)
    ensures Same(r, r)
  {
  }

  lemma OtherSteps(cfg: Config, s: State)
    ensures cfg.dirWriteable && s.link.None? ==> Run(cfg, s, [OtherLinks]) == s.(link := Some(Other))
    ensures s.link == Some(Other) ==> Run(cfg, s, [OtherUnlinks]) == s.(link := None)
  {
    assert [OtherLinks][..0] == [] && [OtherUnlinks][..0] == [];
    assert Run(cfg, s, []) == s;
  }

  // ---------- rules left in the temporary file ----------

  /**
   Nor is a script by itself safe when the directory is writeable and the first name it
   gives out is left in the temporary file: one run repeats it.
   */
  lemma LeftoverRepeated(k: Kind, s0: State, p: Pid) returns (acts: seq<Action>)
    requires Fresh(s0) && GoodFiles(k, s0.files) && Willing(k, s0, p)
    requires Head(s0.procs[p].req, MainNames(s0.files)) in TmpNames(s0.files)
    ensures NoOther(acts) && !Distinct(AllNames(Run(Config(true, true), s0, acts).files))
  {
    hide Ready, TakeTurn, MainNames, TmpNames, GoodFiles, Run, Given, Distinct;
    var f, t := s0.files, Turn(p, s0.procs[p].req, true);
    acts := AloneRun(k, Config(true, true), s0, p);
    TurnGives(k, f, t);
    TwiceIsNotDistinct(MainNames(TakeTurn(f, t)), TmpNames(TakeTurn(f, t)), Head(t.req, MainNames(f)));
  }

  function Crowd(r: Request, m: nat): (procs: map<Pid, Proc>)
    ensures forall p :: p in procs <==> 0 <= p < m
    ensures forall p :: p in procs ==> procs[p] == Proc(r, Start, true)
  {
    if m == 0 then map[] else Crowd(r, m - 1)[m - 1 := Proc(r, Start, true)]
  }

  /** `m` processes with the request `r`, none of them started. */
  function Queue(f: Files, r: Request, m: nat): State {
    State(None, None, f, Crowd(r, m), [])
  }

  /** The first `j` have finished, the others have not started. */
  ghost predicate Queued(s: State, r: Request, j: nat) {
    s.lock.None? && s.link.None? && forall p :: p in s.procs && p >= j ==> s.procs[p] == Proc(r, Start, true)
  }

  /** The first `j` of them, one after the other, with these answers. */
  lemma {:induction false} QueueRuns(k: Kind, f: Files, r: Request, ws: seq<bool>, j: nat) returns (acts: seq<Action>)
    requires GoodFiles(k, f) && Ready(k, r) && j <= |ws|
    ensures (forall i :: 0 <= i < j ==> ws[i]) ==> NoOther(acts)
    ensures var s := Run(Config(true, true), Queue(f, r, |ws|), acts);
      && Queued(s, r, j) && s.procs.Keys == Crowd(r, |ws|).Keys
      && s.files == Replay(f, Answering(r, ws[..j])) && Answered(s.log, ws[..j])
  {
    hide GoodFiles, Ready, TakeTurn, Apply, Queued, AllReady, Answered;
    var cfg, s0 := Config(true, true), Queue(f, r, |ws|);
    if j == 0 {
      acts := [];
      NobodyStarted(f, r, |ws|);
    } else {
      var most := QueueRuns(k, f, r, ws, j - 1);
      var s := Run(cfg, s0, most);
      AnsweringIsSeries(k, r, ws[..j - 1]);
      SeriesIs(k, r, Answering(r, ws[..j - 1]));
      ReplayIsGood(k, f, Answering(r, ws[..j - 1]));
      var last := NextInQueue(k, s, r, |ws|, j - 1, ws[j - 1]);
      acts := most + last;
      RunConcat(cfg, s0, most, last);
      AnsweringFront(r, ws, j - 1);
      AnsweredMore(s.log, ws, j - 1, Turn(j - 1, r, ws[j - 1]));
    }
  }

  lemma NobodyStarted(f: Files, r: Request, m: nat)
    ensures Queued(Queue(f, r, m), r, 0) && Answered([], [])
  {
  }

  lemma AnsweredMore(log: seq<Turn>, ws: seq<bool>, j: nat, t: Turn)
    requires j < |ws| && Answered(log, ws[..j]) && t.writeable == ws[j]
    ensures Answered(log + [t], ws[..j + 1])
  {
  }

  /** The next one, let in, or refused because of the other script's probe. */
  lemma NextInQueue(k: Kind, s: State, r: Request, m: nat, j: nat, w: bool) returns (acts: seq<Action>)
    requires GoodFiles(k, s.files) && Ready(k, r) && j < m && Queued(s, r, j) && s.procs.Keys == Crowd(r, m).Keys
    ensures w ==> NoOther(acts)
    ensures var t := Run(Config(true, true), s, acts);
      && Queued(t, r, j + 1) && t.procs.Keys == s.procs.Keys
      && t.files == TakeTurn(s.files, Turn(0, r, w)) && t.log == s.log + [Turn(j, r, w)]
  {
    hide GoodFiles, Ready, TakeTurn, Run;
    var cfg := Config(true, true);
    assert j in s.procs.Keys;
    AnyPid(s.files, r, j, w);
    if w {
      acts := AloneRun(k, cfg, s, j);
    } else {
      OtherSteps(cfg, s);
      var a := AloneRun(k, cfg, s.(link := Some(Other)), j);
      acts := [OtherLinks] + a + [OtherUnlinks];
      RunConcat(cfg, s, [OtherLinks], a);
      RunConcat(cfg, s, [OtherLinks] + a, [OtherUnlinks]);
      OtherSteps(cfg, Run(cfg, s, [OtherLinks] + a));
    }
  }

  /** The files do not depend on who it is. */
  lemma AnyPid(f: Files, r: Request, p: Pid, w: bool)
    ensures TakeTurn(f, Turn(p, r, w)) == TakeTurn(f, Turn(0, r, w))
  {
  }

  /** Processes of one script and nobody else, started from the files `f`. */
  ghost predicate Lone(k: Kind, f: Files, s0: State, acts: seq<Action>) {
    Fresh(s0) && s0.files == f && AllProcs(k, s0) && NoOther(acts)
  }

  /**
   One script by itself, in a directory that is writeable throughout: the names are
   distinct after every schedule of any processes, if and only if the names left in the
   temporary file at the start are out of reach.
   */
  lemma AloneUniqueExactly(k: Kind, f: Files)
    requires Sound(k, f)
    ensures (forall s0: State, acts: seq<Action> :: Lone(k, f, s0, acts)
               ==> Distinct(AllNames(Run(Config(true, true), s0, acts).files)))
      <==> OutOfReach(k, f)
  {
    hide Sound, OutOfReach, Fresh, AllProcs, NoOther, Run, Distinct;
    if OutOfReach(k, f) {
      forall s0: State, acts: seq<Action> | Lone(k, f, s0, acts)
        ensures Distinct(AllNames(Run(Config(true, true), s0, acts).files))
      {
        AloneNamesStayUnique(k, Config(true, true), s0, acts);
        SoundIsDistinct(k, Run(Config(true, true), s0, acts).files);
      }
    } else {
      var s0, acts := LoneCollides(k, f);
    }
  }

  lemma SoundIsDistinct(k: Kind, f: Files)
    requires Sound(k, f)
    ensures Distinct(AllNames(f))
  {
  }

  lemma LoneCollides(k: Kind, f: Files) returns (s0: State, acts: seq<Action>)
    requires Sound(k, f) && !OutOfReach(k, f)
    ensures Lone(k, f, s0, acts) && !Distinct(AllNames(Run(Config(true, true), s0, acts).files))
  {
    hide Sound, Ready, Ordinary, Obtainable, GoodFiles, MainNames, TmpNames, Run, Replay, Distinct, Fits;
    var n :| n in TmpNames(f) && Obtainable(k, MainNames(f), n);
    SoundIsGood(k, f);
    var r, m := Reached(k, f, n);
    s0 := Queue(f, r, m);
    acts := QueueRuns(k, f, r, Trues(m), m);
    assert Trues(m)[..m] == Trues(m);
    TimesIsAnswering(r, m);
    ReadyIsOrdinary(k, r);
    TimesIsSeries(k, r, m);
    ReversionCollides(k, r, f, Times(r, m));
  }

  // ---------- any sequence of answers ----------

  /** Runs of write_net_rules from the files `f`, next to the other script, that get these answers. */
  ghost predicate Gets(f: Files, ws: seq<bool>, s0: State, acts: seq<Action>) {
    && Fresh(s0) && s0.files == f && AllProcs(NetKind, s0)
    && Answered(Run(Config(true, true), s0, acts).log, ws)
  }

  /**
   For any sequence of answers: every schedule of any runs of write_net_rules, next to the
   other script, in which they get these answers leaves the names distinct, if and only if
   the answers never revert and, unless all are refusals, the names left in the temporary
   file are out of reach.
   */
  lemma NetSchedulesExactly(f: Files, ws: seq<bool>)
    requires Sound(NetKind, f)
    ensures (forall s0: State, acts: seq<Action> :: Gets(f, ws, s0, acts)
               ==> Distinct(AllNames(Run(Config(true, true), s0, acts).files)))
      <==> NeverReverts(ws) && (true in ws ==> OutOfReach(NetKind, f))
  {
    hide Sound, OutOfReach, Fresh, AllProcs, Run, Distinct, NeverReverts, Answered;
    if NeverReverts(ws) && (true in ws ==> OutOfReach(NetKind, f)) {
      forall s0: State, acts: seq<Action> | Gets(f, ws, s0, acts)
        ensures Distinct(AllNames(Run(Config(true, true), s0, acts).files))
      {
        var s := Run(Config(true, true), s0, acts);
        AnsweredSafely(f, s.log, ws);
        NamesStayUnique(NetKind, Config(true, true), s0, acts);
        SoundIsDistinct(NetKind, s.files);
      }
    } else if !NeverReverts(ws) {
      var r := Reverting(f, ws);
      var s0, acts := GetsTo(f, r, ws);
    } else {
      var r := Reaching(f, ws);
      var s0, acts := GetsTo(f, r, ws);
    }
  }

  lemma AnsweredSafely(f: Files, log: seq<Turn>, ws: seq<bool>)
    requires Answered(log, ws) && NeverReverts(ws) && (true in ws ==> OutOfReach(NetKind, f))
    ensures NoReversion(log) && ReachSafe(NetKind, f, log)
  {
    hide OutOfReach;
  }

  lemma GetsTo(f: Files, r: Request, ws: seq<bool>) returns (s0: State, acts: seq<Action>)
    requires Sound(NetKind, f) && Ready(NetKind, r)
    ensures Gets(f, ws, s0, acts)
    ensures Run(Config(true, true), s0, acts).files == Replay(f, Answering(r, ws))
  {
    hide Sound, Ready, Ordinary, GoodFiles, Run, Replay, Answered;
    SoundIsGood(NetKind, f);
    ReadyIsOrdinary(NetKind, r);
    s0 := Queue(f, r, |ws|);
    acts := QueueRuns(NetKind, f, r, ws, |ws|);
    assert ws[..|ws|] == ws;
  }

  // ---------- without /dev/.udev/ ----------

  /** Two runs that both decided before either wrote put the same name in the file twice. */
  lemma BothDecidedCollide(k: Kind, f: Files, t: Turn, u: Turn)
    requires GoodFiles(k, f) && t.writeable && u.writeable
    requires Ready(k, t.req) && Ready(k, u.req) && Same(t.req, u.req)
    ensures !Distinct(MainNames(Append(Append(f, true, LinesOf(f, t)), true, LinesOf(f, u))))
  {
    hide GoodFiles, LinesOf, Ready, Same, Names, Append, Given, Distinct;
    var a, b, c := LinesOf(f, t), LinesOf(f, u), Content(f.main);
    LinesAreGiven(k, f, t);
    LinesAreGiven(k, f, u);
    SameHead(k, t.req, u.req, Names(c));
    NamesConcat(c, a);
    NamesConcat(c + a, b);
    TwiceIsNotDistinct(Names(c) + Names(a), Names(b), Head(u.req, Names(c)));
    AppendTwice(f, a, b);
  }

  lemma AppendTwice(f: Files, a: seq<Line>, b: seq<Line>)
    ensures Content(Append(Append(f, true, a), true, b).main) == Content(f.main) + a + b
  {
    assert Content(f.main) + [] == Content(f.main);
  }

  /**
   The lock is taken only where `/dev/.udev/` exists. Without it, runs of any two drives,
   or of any two interfaces of one kernel name, can give out the same names.
   */
  lemma NoLockRace(k: Kind, s0: State, p: Pid, q: Pid) returns (acts: seq<Action>)
    requires Fresh(s0) && GoodFiles(k, s0.files) && Willing(k, s0, p) && Willing(k, s0, q) && p != q
    requires Same(s0.procs[p].req, s0.procs[q].req)
    ensures !Distinct(MainNames(Run(Config(false, true), s0, acts).files))
  {
    hide Ready, MainNames, GoodFiles, StepOf, Append, LinesOf, Distinct, Writes, StepsToWrite, With, ViewOf, Same;
    var cfg := Config(false, true);
    var f := s0.files;
    var v := ViewOf(s0, p);
    var t := Turn(p, s0.procs[p].req, true);
    var u := Turn(q, s0.procs[q].req, true);
    ViewIs(s0, p);
    ReadyWrites(k, f, t);
    ReadyWrites(k, f, u);
    assert TurnOf(cfg, v, p) == t;
    ReachWriting(cfg, v, p);
    var m, n := StepsToWrite(cfg, v), |LinesOf(f, t)|;
    var v1 := Steps(cfg, v, p, m);
    var s1 := With(s0, p, v1);
    AloneIsSteps(cfg, s0, p, m);
    WithLeaves(s0, p, v1, q);
    var w := ViewOf(s1, q);
    assert TurnOf(cfg, w, q) == u;
    ReachWriting(cfg, w, q);
    var w1 := Steps(cfg, w, q, StepsToWrite(cfg, w));
    var s2 := With(s1, q, w1);
    AloneIsSteps(cfg, s1, q, StepsToWrite(cfg, w));
    WithLeaves(s1, q, w1, p);
    var x := ViewOf(s2, p);
    WriteOut(cfg, x, p, true, LinesOf(f, t));
    var x1 := Steps(cfg, x, p, n);
    var s3 := With(s2, p, x1);
    AloneIsSteps(cfg, s2, p, n);
    WithLeaves(s2, p, x1, q);
    var y := ViewOf(s3, q);
    WriteOut(cfg, y, q, true, LinesOf(f, u));
    AloneIsSteps(cfg, s3, q, |LinesOf(f, u)|);
    WithFiles(s3, q, Steps(cfg, y, q, |LinesOf(f, u)|));
    BothDecidedCollide(k, f, t, u);
    var a, b := Alone(p, m), Alone(q, StepsToWrite(cfg, w));
    var c, d := Alone(p, n), Alone(q, |LinesOf(f, u)|);
    acts := a + b + c + d;
    RunConcat(cfg, s0, a, b);
    RunConcat(cfg, s0, a + b, c);
    RunConcat(cfg, s0, a + b + c, d);
  }

  lemma ViewIs(s: State, p: Pid)
    requires p in s.procs
    ensures ViewOf(s, p) == View(s.lock, s.link, s.files, s.log, s.procs[p])
  {
  }

  lemma WithFiles(s: State, p: Pid, v: View)
    requires p in s.procs
    ensures With(s, p, v).files == v.files
  {
  }

  /** What a step of `p` leaves `q` with: the shared state of the step, and itself as before. */
  lemma WithLeaves(s: State, p: Pid, v: View, q: Pid)
    requires p in s.procs && q in s.procs && p != q
    ensures var t := With(s, p, v);
      p in t.procs && q in t.procs && t.procs[p] == v.proc && t.procs[q] == s.procs[q]
      && ViewOf(t, q) == View(v.lock, v.link, v.files, v.log, s.procs[q])
  {
  }
}

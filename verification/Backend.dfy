/**
 update_backend.sh, its user interface and the background `dd`, as a machine whose
 every observable deed goes into a log.
 */
module Backend {

  // ---------- the machine ----------

  /** One `read -t 1`: a line, or a timeout, which clears `LINE` or leaves it, as the shell has it. */
  datatype Input = Text(line: string) | Timeout(clears: bool)

  datatype Event =
    | Read(line: string)        // a line arrived
    | CardReport                // the answer to Syscheck about the card
    | CheckStart | CheckDone    // the checksum pass over the update files
    | Unmount
    | PowerStep(updated: bool)  // the power controller looked after
    | WriteStart                // zcat | dd launched in the background
    | DdStart | DdProgress | DdEnd
    | PollFails                 // killall finds no dd
    | WriteDone
    | Shutdown

  datatype Pc = Commands | Unmounting | Powering | Launching | Polling | Announcing | Awaiting | ShuttingDown | Halted

  /** `Forked`: launched, but not yet a process that `killall` finds under the name dd. */
  datatype Dd = Absent | Forked | Running | Ended

  datatype State = State(pc: Pc, line: string, usbChecked: bool, dd: Dd, log: seq<Event>)

  /** Whether the firmware file is there, and the version found in the controller. */
  datatype Config = Config(hexFile: bool, version: int)

  const PMIC_VERSION := 7

  /** Input to a `read`, a step of the script, or a step of dd. */
  datatype Action = Input(input: Input) | Script | Dd(step: DdStep)

  datatype DdStep = Begin | Report | End

  const INIT := State(Commands, "", false, Absent, [])

  function NewLine(line: string, i: Input): string {
    match i
    case Text(l) => l
    case Timeout(c) => if c then "" else line
  }

  function ReadEvents(i: Input): seq<Event> {
    if i.Text? then [Read(i.line)] else []
  }

  /** What one pass of the command loop does that can be seen. */
  function CommandEvents(s: State, i: Input): seq<Event> {
    ReadEvents(i)
    + (if NewLine(s.line, i) != "Syscheck" then []
       else if s.usbChecked then [CardReport]
       else [CardReport, CheckStart, CheckDone])
  }

  /** One pass of the command loop: the input, then whatever `LINE` now asks for. */
  function Command(s: State, i: Input): State {
    var line := NewLine(s.line, i);
    State(
      if line == "Start" then Unmounting else Commands,
      line,
      s.usbChecked || line == "Syscheck",
      s.dd,
      s.log + CommandEvents(s, i))
  }

  /** One pass of the last loop, whose condition is tested before each read. */
  function AwaitLine(s: State, i: Input): State {
    var line := NewLine(s.line, i);
    State(if line == "PowerDown" then ShuttingDown else Awaiting, line, s.usbChecked, s.dd, s.log + ReadEvents(i))
  }

  function ScriptStep(cfg: Config, s: State): State {
    match s.pc
    case Unmounting => s.(pc := Powering, log := s.log + [Unmount])
    case Powering => s.(pc := Launching, log := s.log + [PowerStep(cfg.hexFile && cfg.version < PMIC_VERSION)])
    case Launching => s.(pc := Polling, dd := Forked, log := s.log + [WriteStart])
    case Polling => if s.dd.Running? then s else s.(pc := Announcing, log := s.log + [PollFails])
    case Announcing =>
      s.(pc := if s.line == "PowerDown" then ShuttingDown else Awaiting, log := s.log + [WriteDone])
    case ShuttingDown => s.(pc := Halted, log := s.log + [Shutdown])
    case _ => s
  }

  function DdMoves(s: State, d: DdStep): State {
    match d
    case Begin => if s.dd.Forked? then s.(dd := Running, log := s.log + [DdStart]) else s
    case Report => if s.dd.Running? then s.(log := s.log + [DdProgress]) else s
    case End => if s.dd.Running? then s.(dd := Ended, log := s.log + [DdEnd]) else s
  }

  function Apply(cfg: Config, s: State, a: Action): State {
    match a
    case Input(i) => if s.pc.Commands? then Command(s, i) else if s.pc.Awaiting? then AwaitLine(s, i) else s
    case Script => ScriptStep(cfg, s)
    case Dd(d) => DdMoves(s, d)
  }

  /** The state after any interleaving. */
  function Run(cfg: Config, acts: seq<Action>): State {
    if acts == [] then INIT else Apply(cfg, Run(cfg, acts[..|acts| - 1]), acts[|acts| - 1])
  }

  // ---------- the order of events ----------

  /** `e` is among the first `n` events. */
  predicate Seen(log: seq<Event>, n: nat, e: Event)
    requires n <= |log|
  {
    e in log[..n]
  }

  /** `a` happened, and happened before every `b`. */
  ghost predicate Precedes(log: seq<Event>, a: Event, b: Event) {
    forall j :: 0 <= j < |log| && log[j] == b ==> Seen(log, j, a)
  }

  predicate AtMostOnce(log: seq<Event>, e: Event) {
    forall i, j :: 0 <= i < j < |log| ==> !(log[i] == e && log[j] == e)
  }

  /** How far the script has come. */
  function Stage(pc: Pc): nat {
    match pc
    case Commands => 0
    case Unmounting => 1
    case Powering => 2
    case Launching => 3
    case Polling => 4
    case Announcing => 5
    case Awaiting => 6
    case ShuttingDown => 6
    case Halted => 7
  }

  /** The script's milestones, in order, and the stage at which each is behind it. */
  function Milestones(cfg: Config): seq<Event> {
    [Unmount, PowerStep(cfg.hexFile && cfg.version < PMIC_VERSION), WriteStart, PollFails, WriteDone, Shutdown]
  }

  /** The milestone before: for the first, the line that left the command loop. */
  function Before(cfg: Config, k: nat): Event
    requires k < 6
  {
    if k == 0 then Read("Start") else Milestones(cfg)[k - 1]
  }

  /** Each milestone is in the log once the script is past it, once only, and after the one before. */
  ghost predicate InOrder(cfg: Config, s: State) {
    && (Stage(s.pc) >= 1 ==> Read("Start") in s.log)
    && (forall k :: 0 <= k < 6 ==> Placed(cfg, s, k))
  }

  ghost predicate Placed(cfg: Config, s: State, k: nat)
    requires k < 6
  {
    var m := Milestones(cfg)[k];
    && (m in s.log <==> Stage(s.pc) >= k + 2)
    && AtMostOnce(s.log, m)
    && Precedes(s.log, Before(cfg, k), m)
  }

  /** What `LINE` can be: `Start` from the moment it leaves the command loop until it is read anew. */
  predicate LineOk(s: State) {
    && (s.pc.Commands? ==> s.line != "Start")
    && (1 <= Stage(s.pc) <= 5 ==> s.line == "Start")
    && (s.pc.Awaiting? ==> s.line != "PowerDown")
  }

  lemma PrecedesMore(log: seq<Event>, more: seq<Event>, a: Event, b: Event)
    requires Precedes(log, a, b) && (b in more ==> a in log)
    ensures Precedes(log + more, a, b)
  {
    var all := log + more;
    forall j | 0 <= j < |all| && all[j] == b
      ensures Seen(all, j, a)
    {
      if j < |log| {
        assert all[..j] == log[..j] && log[j] == b;
      } else {
        assert more[j - |log|] in more;
        assert all[..j] == log + more[..j - |log|];
      }
    }
  }

  lemma OnceMore(log: seq<Event>, more: seq<Event>, e: Event)
    requires AtMostOnce(log, e) && AtMostOnce(more, e) && (e in more ==> e !in log)
    ensures AtMostOnce(log + more, e)
  {
    var all := log + more;
    forall i, j | 0 <= i < j < |all|
      ensures !(all[i] == e && all[j] == e)
    {
      assert i < |log| ==> all[i] == log[i] && log[i] in log;
      assert j >= |log| ==> all[j] == more[j - |log|] && more[j - |log|] in more;
    }
  }

  /** Events that are no milestones change nothing about the order. */
  lemma OtherEvents(cfg: Config, s: State, t: State, more: seq<Event>)
    requires InOrder(cfg, s) && t.log == s.log + more
    requires forall e :: e in more ==>
      e.Read? || e.CardReport? || e.CheckStart? || e.CheckDone? || e.DdStart? || e.DdProgress? || e.DdEnd?
    requires Stage(t.pc) == Stage(s.pc) || (Stage(s.pc) == 0 && Stage(t.pc) == 1 && Read("Start") in t.log)
    ensures InOrder(cfg, t)
  {
    forall k | 0 <= k < 6
      ensures Placed(cfg, t, k)
    {
      var m := Milestones(cfg)[k];
      assert Placed(cfg, s, k) && m !in more;
      OnceMore(s.log, more, m);
      PrecedesMore(s.log, more, Before(cfg, k), m);
    }
  }

  /** The script passes its next milestone. */
  lemma NextMilestone(cfg: Config, s: State, t: State, k: nat)
    requires InOrder(cfg, s) && k < 6 && Stage(s.pc) == k + 1 && Stage(t.pc) == k + 2
    requires t.log == s.log + [Milestones(cfg)[k]]
    ensures InOrder(cfg, t)
  {
    hide Precedes, AtMostOnce;
    assert k > 0 ==> Placed(cfg, s, k - 1);
    assert Before(cfg, k) in s.log;
    forall n | 0 <= n < 6
      ensures Placed(cfg, t, n)
    {
      assert Placed(cfg, s, n);
      PlaceOne(cfg, s, t, k, n);
    }
    assert Read("Start") in t.log;
  }

  lemma PlaceOne(cfg: Config, s: State, t: State, k: nat, n: nat)
    requires k < 6 && n < 6 && Stage(s.pc) == k + 1 && Stage(t.pc) == k + 2
    requires t.log == s.log + [Milestones(cfg)[k]]
    requires Placed(cfg, s, n) && Before(cfg, k) in s.log
    ensures Placed(cfg, t, n)
  {
    var m, more := Milestones(cfg)[n], [Milestones(cfg)[k]];
    assert n != k ==> m != Milestones(cfg)[k];
    assert AtMostOnce(more, m);
    hide Precedes, AtMostOnce;
    OnceMore(s.log, more, m);
    PrecedesMore(s.log, more, Before(cfg, n), m);
  }

  lemma StepInOrder(cfg: Config, s: State, a: Action)
    requires InOrder(cfg, s) && LineOk(s)
    ensures InOrder(cfg, Apply(cfg, s, a))
  {
    hide InOrder;
    var t := Apply(cfg, s, a);
    match a
    case Input(i) =>
      if s.pc.Commands? || s.pc.Awaiting? {
        InputInOrder(cfg, s, i);
      }
    case Dd(d) =>
      if t != s {
        OtherEvents(cfg, s, t, [t.log[|s.log|]]);
      }
    case Script =>
      if t != s {
        NextMilestone(cfg, s, t, Stage(s.pc) - 1);
      }
  }

  lemma InputInOrder(cfg: Config, s: State, i: Input)
    requires InOrder(cfg, s) && LineOk(s) && (s.pc.Commands? || s.pc.Awaiting?)
    ensures InOrder(cfg, Apply(cfg, s, Input(i)))
  {
    var t := Apply(cfg, s, Input(i));
    var more := t.log[|s.log|..];
    assert t.log == s.log + more;
    OtherEvents(cfg, s, t, more);
  }

  lemma StepLineOk(cfg: Config, s: State, a: Action)
    requires LineOk(s)
    ensures LineOk(Apply(cfg, s, a))
  {
    assert "Start" != "PowerDown" && "Start" != "" && "PowerDown" != "" by {
      assert "Start"[0] != "PowerDown"[0];
    }
  }

  // ---------- the checksum pass ----------

  ghost predicate ChecksOk(s: State) {
    && AtMostOnce(s.log, CheckStart)
    && (CheckStart in s.log <==> s.usbChecked)
  }

  lemma StepChecksOk(cfg: Config, s: State, a: Action)
    requires ChecksOk(s)
    ensures ChecksOk(Apply(cfg, s, a))
  {
    var t := Apply(cfg, s, a);
    LogGrows(cfg, s, a);
    var more := t.log[|s.log|..];
    assert t.log == s.log + more;
    if CheckStart in more {
      CheckEvents(cfg, s, a);
    }
    OnceMore(s.log, more, CheckStart);
  }

  lemma LogGrows(cfg: Config, s: State, a: Action)
    ensures s.log <= Apply(cfg, s, a).log
  {
  }

  lemma CommandChecks(s: State, i: Input)
    ensures var more, check := CommandEvents(s, i), NewLine(s.line, i) == "Syscheck";
      AtMostOnce(more, CheckStart) && (CheckStart in more <==> check && !s.usbChecked)
  {
    var n := |ReadEvents(i)|;
    var more := CommandEvents(s, i);
    if NewLine(s.line, i) == "Syscheck" && !s.usbChecked {
      assert more[n + 1] == CheckStart;
    }
  }

  /** A pass starts only on a command, only the first time. */
  lemma CheckEvents(cfg: Config, s: State, a: Action)
    ensures var t := Apply(cfg, s, a);
      var more := t.log[|s.log|..];
      && AtMostOnce(more, CheckStart)
      && (CheckStart in more ==> !s.usbChecked && t.usbChecked)
      && (CheckStart !in more ==> t.usbChecked == s.usbChecked)
  {
    hide CommandEvents;
    if a.Input? && s.pc.Commands? {
      CommandChecks(s, a.input);
      assert Apply(cfg, s, a).log[|s.log|..] == CommandEvents(s, a.input);
    }
  }

  // ---------- dd ----------

  /**
   dd begins, then ends, each at most once; it reports nothing after its end; and when the
   poll fails, it has ended if and only if it had begun.
   */
  ghost predicate DdOk(s: State) {
    && (s.dd.Absent? <==> Stage(s.pc) < 4)
    && (Seen(s.log, |s.log|, DdStart) <==> s.dd.Running? || s.dd.Ended?)
    && (Seen(s.log, |s.log|, DdEnd) <==> s.dd.Ended?)
    && (forall i, j :: 0 <= i < j < |s.log| && s.log[i] == DdEnd ==> s.log[j] != DdProgress)
    && (forall j :: 0 <= j < |s.log| && s.log[j] == PollFails ==> (Seen(s.log, j, DdStart) <==> Seen(s.log, j, DdEnd)))
  }

  lemma SeenMore(log: seq<Event>, more: seq<Event>, n: nat, e: Event)
    requires n <= |log|
    ensures Seen(log + more, n, e) <==> Seen(log, n, e)
    ensures Seen(log + more, |log + more|, e) <==> Seen(log, |log|, e) || e in more
  {
    var all := log + more;
    assert all[..n] == log[..n] && all[..|all|] == all && log[..|log|] == log;
  }

  lemma DdMore(s: State, t: State, more: seq<Event>)
    requires DdOk(s) && t.log == s.log + more
    requires t.dd.Absent? <==> Stage(t.pc) < 4
    requires DdStart in more <==> (t.dd.Running? || t.dd.Ended?) && !(s.dd.Running? || s.dd.Ended?)
    requires DdEnd in more <==> t.dd.Ended? && !s.dd.Ended?
    requires s.dd.Running? ==> t.dd.Running? || t.dd.Ended?
    requires s.dd.Ended? ==> t.dd.Ended? && DdProgress !in more
    requires DdEnd in more ==> |more| == 1
    requires PollFails in more ==> more == [PollFails] && !s.dd.Running?
    ensures DdOk(t)
  {
    SeenMore(s.log, more, |s.log|, DdStart);
    SeenMore(s.log, more, |s.log|, DdEnd);
    assert forall k :: 0 <= k < |more| ==> t.log[|s.log| + k] == more[k] && more[k] in more;
    forall i, j | 0 <= i < j < |t.log| && t.log[i] == DdEnd
      ensures t.log[j] != DdProgress
    {
      if i < |s.log| <= j {
        assert Seen(s.log, |s.log|, DdEnd);
      }
    }
    forall j | 0 <= j < |t.log| && t.log[j] == PollFails
      ensures Seen(t.log, j, DdStart) <==> Seen(t.log, j, DdEnd)
    {
      if j < |s.log| {
        SeenMore(s.log, more, j, DdStart);
        SeenMore(s.log, more, j, DdEnd);
      } else {
        assert more == [PollFails] && j == |s.log|;
      }
    }
  }

  lemma StepDdOk(cfg: Config, s: State, a: Action)
    requires DdOk(s)
    ensures DdOk(Apply(cfg, s, a))
  {
    hide DdOk, CommandEvents;
    DdAbsent(s);
    match a
    case Input(i) => InputDdOk(cfg, s, i);
    case Script => ScriptDdOk(cfg, s);
    case Dd(d) =>
      var t := DdMoves(s, d);
      var more := t.log[|s.log|..];
      assert t.log == s.log + more;
      DdMore(s, t, more);
  }

  lemma InputDdOk(cfg: Config, s: State, i: Input)
    requires DdOk(s)
    ensures DdOk(Apply(cfg, s, Input(i)))
  {
    hide DdOk, CommandEvents, ReadEvents;
    DdAbsent(s);
    var t := Apply(cfg, s, Input(i));
    InputEvents(cfg, s, i);
    LogGrows(cfg, s, Input(i));
    var more := t.log[|s.log|..];
    assert t.log == s.log + more;
    DdMore(s, t, more);
  }

  lemma ScriptDdOk(cfg: Config, s: State)
    requires DdOk(s)
    ensures DdOk(ScriptStep(cfg, s))
  {
    hide DdOk;
    DdAbsent(s);
    var t := ScriptStep(cfg, s);
    var more := t.log[|s.log|..];
    assert t.log == s.log + more;
    DdMore(s, t, more);
  }

  lemma DdAbsent(s: State)
    requires DdOk(s)
    ensures s.dd.Absent? <==> Stage(s.pc) < 4
  {
  }

  lemma InputEvents(cfg: Config, s: State, i: Input)
    ensures var more := Apply(cfg, s, Input(i)).log[|s.log|..];
      forall e :: e in more ==> e.Read? || e.CardReport? || e.CheckStart? || e.CheckDone?
  {
  }

  // ---------- power down ----------

  /** Among the first `n` events, `PowerDown` was read after `WriteDone` was said. */
  ghost predicate PowerDownRead(log: seq<Event>, n: nat)
    requires n <= |log|
  {
    exists i, j :: 0 <= i < j < n && log[i] == WriteDone && log[j] == Read("PowerDown")
  }

  ghost predicate PowerDownOk(s: State) {
    && (s.pc.ShuttingDown? ==> PowerDownRead(s.log, |s.log|))
    && (forall k :: 0 <= k < |s.log| && s.log[k] == Shutdown ==> PowerDownRead(s.log, k))
  }

  lemma PowerDownReadMore(log: seq<Event>, more: seq<Event>, n: nat)
    requires n <= |log| && PowerDownRead(log, n)
    ensures PowerDownRead(log + more, n)
  {
    var i, j :| 0 <= i < j < n && log[i] == WriteDone && log[j] == Read("PowerDown");
    assert (log + more)[i] == log[i] && (log + more)[j] == log[j];
  }

  lemma PowerDownMore(s: State, t: State, more: seq<Event>)
    requires PowerDownOk(s) && t.log == s.log + more
    requires Shutdown in more ==> more == [Shutdown] && s.pc.ShuttingDown?
    requires t.pc.ShuttingDown? ==>
      || (s.pc.ShuttingDown? && Shutdown !in more)
      || (WriteDone in s.log && more == [Read("PowerDown")])
    ensures PowerDownOk(t)
  {
    if s.pc.ShuttingDown? {
      PowerDownReadMore(s.log, more, |s.log|);
      WholeLog(s.log, more);
    } else if t.pc.ShuttingDown? {
      var i :| 0 <= i < |s.log| && s.log[i] == WriteDone;
      assert t.log[i] == WriteDone && t.log[|s.log|] == Read("PowerDown");
    }
    forall k | 0 <= k < |t.log| && t.log[k] == Shutdown
      ensures PowerDownRead(t.log, k)
    {
      if k < |s.log| {
        PowerDownReadMore(s.log, more, k);
      } else {
        assert t.log[k] == more[k - |s.log|];
      }
    }
  }

  lemma WholeLog(log: seq<Event>, more: seq<Event>)
    requires PowerDownRead(log + more, |log|)
    ensures PowerDownRead(log + more, |log + more|)
  {
    var i, j :| 0 <= i < j < |log| && (log + more)[i] == WriteDone && (log + more)[j] == Read("PowerDown");
  }

  lemma StepPowerDownOk(cfg: Config, s: State, a: Action)
    requires PowerDownOk(s) && LineOk(s) && InOrder(cfg, s)
    ensures PowerDownOk(Apply(cfg, s, a))
  {
    hide PowerDownOk, InOrder, CommandEvents;
    match a
    case Input(i) => InputPowerDownOk(cfg, s, i);
    case Script =>
      var t := ScriptStep(cfg, s);
      var more := t.log[|s.log|..];
      assert t.log == s.log + more;
      PowerDownMore(s, t, more);
    case Dd(d) =>
      var t := DdMoves(s, d);
      var more := t.log[|s.log|..];
      assert t.log == s.log + more;
      PowerDownMore(s, t, more);
  }

  lemma InputPowerDownOk(cfg: Config, s: State, i: Input)
    requires PowerDownOk(s) && LineOk(s) && InOrder(cfg, s)
    ensures PowerDownOk(Apply(cfg, s, Input(i)))
  {
    hide PowerDownOk, InOrder, CommandEvents;
    var t := Apply(cfg, s, Input(i));
    LogGrows(cfg, s, Input(i));
    InputEvents(cfg, s, i);
    var more := t.log[|s.log|..];
    assert t.log == s.log + more;
    if s.pc.Awaiting? {
      AwaitingSaid(cfg, s);
    }
    PowerDownMore(s, t, more);
  }

  lemma AwaitingSaid(cfg: Config, s: State)
    requires InOrder(cfg, s) && s.pc.Awaiting?
    ensures WriteDone in s.log
  {
    assert Placed(cfg, s, 4) && Milestones(cfg)[4] == WriteDone;
  }

  // ---------- every run ----------

  ghost predicate Inv(cfg: Config, s: State) {
    InOrder(cfg, s) && LineOk(s) && ChecksOk(s) && DdOk(s) && PowerDownOk(s)
  }

  lemma {:induction false} RunInv(cfg: Config, acts: seq<Action>)
    ensures Inv(cfg, Run(cfg, acts))
  {
    hide InOrder, LineOk, ChecksOk, DdOk, PowerDownOk, Apply;
    if acts == [] {
      InitInv(cfg);
    } else {
      var s, a := Run(cfg, acts[..|acts| - 1]), acts[|acts| - 1];
      RunInv(cfg, acts[..|acts| - 1]);
      StepInOrder(cfg, s, a);
      StepLineOk(cfg, s, a);
      StepChecksOk(cfg, s, a);
      StepDdOk(cfg, s, a);
      StepPowerDownOk(cfg, s, a);
    }
  }

  lemma InitInv(cfg: Config)
    ensures Inv(cfg, INIT)
  {
    assert "" != "Start";
  }

  /**
   In every run the image write is launched at most once, and only after a `Start` line,
   the unmount, and the care of the power controller, in this order.
   */
  lemma WriteLaunchedOnceInOrder(cfg: Config, acts: seq<Action>)
    ensures var log, power := Run(cfg, acts).log, PowerStep(cfg.hexFile && cfg.version < 7);
      && AtMostOnce(log, WriteStart)
      && Precedes(log, Read("Start"), Unmount) && Precedes(log, Unmount, power) && Precedes(log, power, WriteStart)
      && Precedes(log, WriteStart, PollFails) && Precedes(log, PollFails, WriteDone)
  {
    hide LineOk, ChecksOk, DdOk, PowerDownOk, Run, Precedes, AtMostOnce;
    RunInv(cfg, acts);
    var s := Run(cfg, acts);
    assert Placed(cfg, s, 0) && Placed(cfg, s, 1) && Placed(cfg, s, 2) && Placed(cfg, s, 3) && Placed(cfg, s, 4);
    var m := Milestones(cfg);
    assert m[0] == Unmount && m[2] == WriteStart && m[3] == PollFails && m[4] == WriteDone;
    assert Before(cfg, 0) == Read("Start") && Before(cfg, 1) == m[0] && Before(cfg, 2) == m[1];
    assert Before(cfg, 3) == m[2] && Before(cfg, 4) == m[3];
  }

  /** However often Syscheck arrives or is left standing in `LINE`, the checksum pass runs at most once. */
  lemma ChecksumOnce(cfg: Config, acts: seq<Action>)
    ensures AtMostOnce(Run(cfg, acts).log, CheckStart)
  {
    hide InOrder, LineOk, DdOk, PowerDownOk, Run, AtMostOnce;
    RunInv(cfg, acts);
  }

  // ---------- the answers to Syscheck ----------

  /** The last line read among the first `n` events was `l`. */
  ghost predicate LastRead(log: seq<Event>, n: nat, l: string)
    requires n <= |log|
  {
    exists i :: 0 <= i < n && log[i] == Read(l) && forall k :: i < k < n ==> !log[k].Read?
  }

  /** Each `Syscheck` line is answered at once. */
  predicate Answered(log: seq<Event>) {
    forall j :: 0 <= j < |log| && log[j] == Read("Syscheck") ==> j + 1 < |log| && log[j + 1] == CardReport
  }

  /** The card is reported only while the last line read is `Syscheck`. */
  ghost predicate OnlyAnswers(log: seq<Event>) {
    forall j :: 0 <= j < |log| && log[j] == CardReport ==> LastRead(log, j, "Syscheck")
  }

  ghost predicate AnswersOk(s: State) {
    && OnlyAnswers(s.log)
    && (s.line == "Syscheck" ==> LastRead(s.log, |s.log|, "Syscheck"))
    && (s.pc.Commands? ==> Answered(s.log))
    && (CardReport in s.log <==> s.usbChecked)
  }

  lemma LastReadMore(log: seq<Event>, more: seq<Event>, n: nat, l: string)
    requires n <= |log|
    ensures LastRead(log + more, n, l) <==> LastRead(log, n, l)
  {
    var all := log + more;
    assert forall i :: 0 <= i < n ==> all[i] == log[i];
    if LastRead(log, n, l) {
      var i :| 0 <= i < n && log[i] == Read(l) && forall k :: i < k < n ==> !log[k].Read?;
      assert all[i] == Read(l);
    }
    if LastRead(all, n, l) {
      var i :| 0 <= i < n && all[i] == Read(l) && forall k :: i < k < n ==> !all[k].Read?;
      assert log[i] == Read(l);
    }
  }

  /** Other events after the line leave it the last one read. */
  lemma LastReadQuiet(log: seq<Event>, more: seq<Event>, l: string)
    requires LastRead(log, |log|, l) && forall e :: e in more ==> !e.Read?
    ensures LastRead(log + more, |log + more|, l)
  {
    var all := log + more;
    var i :| 0 <= i < |log| && log[i] == Read(l) && forall k :: i < k < |log| ==> !log[k].Read?;
    assert all[i] == Read(l);
    forall k | i < k < |all|
      ensures !all[k].Read?
    {
      assert k >= |log| ==> all[k] in more;
    }
  }

  lemma JustRead(log: seq<Event>, l: string)
    ensures LastRead(log + [Read(l)], |log| + 1, l)
  {
    assert (log + [Read(l)])[|log|] == Read(l);
  }

  lemma LaterIsNew(log: seq<Event>, more: seq<Event>, j: nat)
    requires j < |log + more|
    ensures j >= |log| ==> (log + more)[j] in more
  {
  }

  /** Events without a report keep the reports in order. */
  lemma OnlyAnswersMore(log: seq<Event>, more: seq<Event>)
    requires OnlyAnswers(log) && CardReport !in more
    ensures OnlyAnswers(log + more)
  {
    hide LastRead;
    var all := log + more;
    forall j | 0 <= j < |all| && all[j] == CardReport
      ensures LastRead(all, j, "Syscheck")
    {
      LaterIsNew(log, more, j);
      LastReadMore(log, more, j, "Syscheck");
    }
  }

  /** A report while the last line read is `Syscheck`. */
  lemma ReportAdded(log: seq<Event>)
    requires OnlyAnswers(log) && LastRead(log, |log|, "Syscheck")
    ensures OnlyAnswers(log + [CardReport])
  {
    hide LastRead;
    var all := log + [CardReport];
    forall j | 0 <= j < |all| && all[j] == CardReport
      ensures LastRead(all, j, "Syscheck")
    {
      LastReadMore(log, [CardReport], j, "Syscheck");
    }
  }

  lemma AnsweredMore(log: seq<Event>, more: seq<Event>)
    requires Answered(log) && Read("Syscheck") !in more
    ensures Answered(log + more)
  {
    var all := log + more;
    forall j | 0 <= j < |all| && all[j] == Read("Syscheck")
      ensures j + 1 < |all| && all[j + 1] == CardReport
    {
      LaterIsNew(log, more, j);
    }
  }

  lemma AnswerAdded(log: seq<Event>)
    requires Answered(log)
    ensures Answered(log + [Read("Syscheck")] + [CardReport])
  {
  }

  /** What `LINE` holds after a read was the last line read. */
  lemma LineRead(s: State, i: Input)
    requires AnswersOk(s)
    ensures var log := s.log + ReadEvents(i);
      && OnlyAnswers(log) && (CardReport in log <==> s.usbChecked)
      && (NewLine(s.line, i) == "Syscheck" ==> LastRead(log, |log|, "Syscheck"))
  {
    hide LastRead, OnlyAnswers;
    OnlyAnswersMore(s.log, ReadEvents(i));
    if i.Text? {
      JustRead(s.log, i.line);
    } else {
      assert s.log + [] == s.log;
    }
  }

  /** A pass that finds `Syscheck` in `LINE` reports the card and, the first time, checks the files. */
  lemma CommandAnswers(s: State, i: Input)
    requires AnswersOk(s) && s.pc.Commands?
    ensures AnswersOk(Command(s, i))
  {
    hide LastRead, OnlyAnswers, Answered;
    var log := s.log + ReadEvents(i);
    LineRead(s, i);
    if NewLine(s.line, i) == "Syscheck" {
      var checks := if s.usbChecked then [] else [CheckStart, CheckDone];
      ReportAdded(log);
      OnlyAnswersMore(log + [CardReport], checks);
      LastReadQuiet(log, [CardReport] + checks, "Syscheck");
      if i.Text? {
        AnswerAdded(s.log);
      } else {
        AnsweredMore(s.log, [CardReport]);
        assert log == s.log;
      }
      AnsweredMore(log + [CardReport], checks);
      assert Command(s, i).log == log + [CardReport] + checks == log + ([CardReport] + checks);
      assert CardReport in log + [CardReport];
    } else {
      AnsweredMore(s.log, ReadEvents(i));
      assert Command(s, i).log == log;
    }
  }

  lemma OtherLog(cfg: Config, s: State, a: Action)
    requires !(a.Input? && (s.pc.Commands? || s.pc.Awaiting?))
    ensures var t := Apply(cfg, s, a);
      var more := t.log[|s.log|..];
      && s.log <= t.log && t.log == s.log + more && (forall e :: e in more ==> !e.Read? && e != CardReport)
      && t.line == s.line && t.usbChecked == s.usbChecked && (t.pc.Commands? ==> s.pc.Commands?)
  {
    hide Command, CommandEvents, AwaitLine;
  }

  /** The script and dd neither read nor report, but at a read. */
  lemma OthersAnswer(cfg: Config, s: State, a: Action)
    requires AnswersOk(s) && !(a.Input? && s.pc.Commands?)
    ensures AnswersOk(Apply(cfg, s, a))
  {
    hide LastRead, OnlyAnswers, Answered, ScriptStep, DdMoves;
    if a.Input? && s.pc.Awaiting? {
      LineRead(s, a.input);
    } else {
      hide Apply;
      OtherLog(cfg, s, a);
      var more := Apply(cfg, s, a).log[|s.log|..];
      OnlyAnswersMore(s.log, more);
      if s.line == "Syscheck" {
        LastReadQuiet(s.log, more, "Syscheck");
      }
      if s.pc.Commands? {
        AnsweredMore(s.log, more);
      }
    }
  }

  lemma {:induction false} RunAnswers(cfg: Config, acts: seq<Action>)
    ensures AnswersOk(Run(cfg, acts))
  {
    hide AnswersOk, Apply;
    if acts == [] {
      InitAnswers();
    } else {
      var s, a := Run(cfg, acts[..|acts| - 1]), acts[|acts| - 1];
      RunAnswers(cfg, acts[..|acts| - 1]);
      if a.Input? && s.pc.Commands? {
        CommandAnswers(s, a.input);
        CommandIs(cfg, s, a.input);
      } else {
        OthersAnswer(cfg, s, a);
      }
    }
  }

  lemma InitAnswers()
    ensures AnswersOk(INIT)
  {
  }

  lemma CommandIs(cfg: Config, s: State, i: Input)
    requires s.pc.Commands?
    ensures Apply(cfg, s, Input(i)) == Command(s, i)
  {
  }

  /**
   In every run the card is reported only while `Syscheck` is the last line read, every
   `Syscheck` in the command loop is answered at once, and there has been a checksum pass
   exactly if there has been a report.
   */
  lemma SyscheckAnswered(cfg: Config, acts: seq<Action>)
    ensures var s := Run(cfg, acts);
      && OnlyAnswers(s.log) && (s.pc.Commands? ==> Answered(s.log))
      && (CheckStart in s.log <==> CardReport in s.log)
  {
    hide Run, OnlyAnswers, Answered, InOrder, LineOk, DdOk, PowerDownOk;
    RunInv(cfg, acts);
    RunAnswers(cfg, acts);
  }

  /** Every shutdown comes after `WriteDone`, and after a `PowerDown` read later than that. */
  lemma ShutdownOnlyAfter(cfg: Config, acts: seq<Action>, k: nat)
    requires var log := Run(cfg, acts).log; k < |log| && log[k] == Shutdown
    ensures PowerDownRead(Run(cfg, acts).log, k)
  {
    hide InOrder, LineOk, ChecksOk, DdOk, Run, PowerDownRead;
    RunInv(cfg, acts);
  }

  /**
   Exactly when the poll can be trusted: at the moment it fails, dd has ended if and only
   if it had begun; and if it had begun, it reports nothing from then on.
   */
  lemma PollTellsTheEnd(cfg: Config, acts: seq<Action>, n: nat)
    requires var log := Run(cfg, acts).log; n < |log| && log[n] == PollFails
    ensures var log := Run(cfg, acts).log;
      && (Seen(log, n, DdEnd) <==> Seen(log, n, DdStart))
      && (Seen(log, n, DdStart) ==> forall j :: n < j < |log| ==> log[j] != DdProgress)
  {
    hide InOrder, LineOk, ChecksOk, PowerDownOk, Run;
    RunInv(cfg, acts);
    var log := Run(cfg, acts).log;
    if Seen(log, n, DdStart) {
      var i :| 0 <= i < n && log[i] == DdEnd;
    }
  }

  lemma RunOne(cfg: Config, acts: seq<Action>, a: Action)
    ensures Run(cfg, acts + [a]) == Apply(cfg, Run(cfg, acts), a)
  {
    hide Apply;
    assert (acts + [a])[..|acts|] == acts;
  }

  lemma {:induction false} LogExtends(cfg: Config, acts: seq<Action>, more: seq<Action>)
    ensures Run(cfg, acts).log <= Run(cfg, acts + more).log
  {
    hide Apply;
    if more == [] {
      assert acts + more == acts;
    } else {
      var most, a := more[..|more| - 1], more[|more| - 1];
      LogExtends(cfg, acts, most);
      assert acts + more == (acts + most) + [a];
      RunOne(cfg, acts + most, a);
      LogGrows(cfg, Run(cfg, acts + most), a);
    }
  }

  /** From the next poll on, dd reports nothing, whatever the interleaving. */
  predicate QuietAfter(cfg: Config, acts: seq<Action>, more: seq<Action>) {
    LogExtends(cfg, acts, [Script] + more);
    DdProgress !in Run(cfg, acts + ([Script] + more)).log[|Run(cfg, acts).log|..]
  }

  /**
   Whenever a poll is about to find no dd, what follows is surely free of dd's output
   exactly when dd had begun by then.
   */
  lemma QuietExactly(cfg: Config, acts: seq<Action>)
    requires Run(cfg, acts).pc.Polling? && !Run(cfg, acts).dd.Running?
    ensures (forall more :: QuietAfter(cfg, acts, more)) <==> Seen(Run(cfg, acts).log, |Run(cfg, acts).log|, DdStart)
  {
    var s := Run(cfg, acts);
    if Seen(s.log, |s.log|, DdStart) {
      forall more
        ensures QuietAfter(cfg, acts, more)
      {
        BegunIsQuiet(cfg, acts, more);
      }
    } else {
      UnbegunIsNot(cfg, acts);
    }
  }

  lemma BegunIsQuiet(cfg: Config, acts: seq<Action>, more: seq<Action>)
    requires Run(cfg, acts).pc.Polling? && !Run(cfg, acts).dd.Running?
    requires Seen(Run(cfg, acts).log, |Run(cfg, acts).log|, DdStart)
    ensures QuietAfter(cfg, acts, more)
  {
    hide Run;
    var s, all := Run(cfg, acts), acts + ([Script] + more);
    var log, n := Run(cfg, all).log, |Run(cfg, acts).log|;
    RunOne(cfg, acts, Script);
    LogExtends(cfg, acts + [Script], more);
    assert acts + [Script] + more == all;
    assert (s.log + [PollFails])[n] == PollFails;
    assert log[..n] == s.log && s.log[..n] == s.log;
    PollTellsTheEnd(cfg, all, n);
  }

  lemma UnbegunIsNot(cfg: Config, acts: seq<Action>)
    requires Run(cfg, acts).pc.Polling? && !Run(cfg, acts).dd.Running?
    requires !Seen(Run(cfg, acts).log, |Run(cfg, acts).log|, DdStart)
    ensures !QuietAfter(cfg, acts, [Dd(Begin), Dd(Report)])
  {
    hide Run;
    var s, more := Run(cfg, acts), [Dd(Begin), Dd(Report)];
    RunInv(cfg, acts);
    assert s.dd == Forked by {
      hide InOrder, LineOk, ChecksOk, PowerDownOk;
    }
    hide Inv;
    RunOne(cfg, acts, Script);
    RunOne(cfg, acts + [Script], Dd(Begin));
    RunOne(cfg, acts + [Script] + [Dd(Begin)], Dd(Report));
    assert acts + ([Script] + more) == acts + [Script] + [Dd(Begin)] + [Dd(Report)];
    var log := Run(cfg, acts + ([Script] + more)).log;
    assert log == s.log + [PollFails] + [DdStart] + [DdProgress];
    assert log[|s.log|..][2] == DdProgress;
  }

  /**
   The other case does arise: a poll that comes before dd has begun, `WriteDone` said, and
   only then dd begins and reports.
   */
  lemma EarlyPoll(cfg: Config)
    ensures var acts := [Input(Text("Start")), Script, Script, Script, Script, Script, Dd(Begin), Dd(Report)];
      var log := Run(cfg, acts).log;
      |log| == 8 && log[5] == WriteDone && log[6] == DdStart && log[7] == DdProgress
  {
    var acts := [Input(Text("Start")), Script, Script, Script, Script, Script, Dd(Begin), Dd(Report)];
    hide Run, Apply;
    RunNothing(cfg, acts);
    var s := EarlyStates(cfg);
    EarlyAfter(cfg, acts, 1, INIT, s[0]);
    EarlyAfter(cfg, acts, 2, s[0], s[1]);
    EarlyAfter(cfg, acts, 3, s[1], s[2]);
    EarlyAfter(cfg, acts, 4, s[2], s[3]);
    EarlyAfter(cfg, acts, 5, s[3], s[4]);
    EarlyAfter(cfg, acts, 6, s[4], s[5]);
    EarlyAfter(cfg, acts, 7, s[5], s[6]);
    EarlyAfter(cfg, acts, 8, s[6], s[7]);
    assert acts[..8] == acts;
  }

  lemma EarlyStates(cfg: Config) returns (s: seq<State>)
    ensures |s| == 8 && Apply(cfg, INIT, Input(Text("Start"))) == s[0]
    ensures forall i :: 0 <= i < 5 ==> Apply(cfg, s[i], Script) == s[i + 1]
    ensures Apply(cfg, s[5], Dd(Begin)) == s[6] && Apply(cfg, s[6], Dd(Report)) == s[7]
    ensures var log := s[7].log; |log| == 8 && log[5] == WriteDone && log[6] == DdStart && log[7] == DdProgress
  {
    var l0 := [Read("Start"), Unmount];
    var l1 := l0 + [PowerStep(cfg.hexFile && cfg.version < PMIC_VERSION)];
    var l2 := l1 + [WriteStart];
    var l3 := l2 + [PollFails];
    var l4 := l3 + [WriteDone];
    s := [State(Unmounting, "Start", false, Absent, [Read("Start")]),
          State(Powering, "Start", false, Absent, l0),
          State(Launching, "Start", false, Absent, l1),
          State(Polling, "Start", false, Forked, l2),
          State(Announcing, "Start", false, Forked, l3),
          State(Awaiting, "Start", false, Forked, l4),
          State(Awaiting, "Start", false, Running, l4 + [DdStart]),
          State(Awaiting, "Start", false, Running, l4 + [DdStart] + [DdProgress])];
    assert CommandEvents(INIT, Text("Start")) == [Read("Start")];
    assert "Start" != "PowerDown" by {
      assert "Start"[0] != "PowerDown"[0];
    }
  }

  lemma RunNothing(cfg: Config, acts: seq<Action>)
    ensures Run(cfg, acts[..0]) == INIT
  {
  }

  lemma EarlyAfter(cfg: Config, acts: seq<Action>, n: nat, s: State, t: State)
    requires 0 < n <= |acts| && Run(cfg, acts[..n - 1]) == s && Apply(cfg, s, acts[n - 1]) == t
    ensures Run(cfg, acts[..n]) == t
  {
    hide Apply;
    assert acts[..n][..n - 1] == acts[..n - 1];
  }
}

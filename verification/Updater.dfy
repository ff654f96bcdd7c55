/** update_backend.sh as it is written: loops over its variables, each step one of the machine's. */
module Updater {
  import opened Backend

  /** The reads, in order, as actions of the machine. */
  function Reads(inputs: seq<Input>): (acts: seq<Action>)
    ensures |acts| == |inputs|
  {
    if inputs == [] then [] else Reads(inputs[..|inputs| - 1]) + [Input(inputs[|inputs| - 1])]
  }

  /** dd on its own: where it is after some steps. */
  function DdAfter(dd: Backend.Dd, steps: seq<DdStep>): Backend.Dd {
    if steps == [] then dd else
      var d := DdAfter(dd, steps[..|steps| - 1]);
      match steps[|steps| - 1]
      case Begin => if d.Forked? then Running else d
      case Report => d
      case End => if d.Running? then Ended else d
  }

  function Moves(steps: seq<DdStep>): seq<Action> {
    if steps == [] then [] else Moves(steps[..|steps| - 1]) + [Dd(steps[|steps| - 1])]
  }

  /** Before each poll dd takes some steps. */
  function Polls(before: seq<seq<DdStep>>): seq<Action> {
    if before == [] then [] else Polls(before[..|before| - 1]) + Moves(before[|before| - 1]) + [Action.Script]
  }

  /** What happens up to and at one read of the last loop: dd may still be moving. */
  datatype Final = Final(moves: seq<DdStep>, input: Input)

  function Waits(finals: seq<Final>): seq<Action> {
    if finals == [] then []
    else
      var last := finals[|finals| - 1];
      Waits(finals[..|finals| - 1]) + Moves(last.moves) + [Input(last.input)]
  }

  predicate Arrives(line: string, finals: seq<Final>) {
    exists i :: 0 <= i < |finals| && finals[i].input == Text(line)
  }

  /** One of the polls finds no dd. */
  predicate Missed(dd: Backend.Dd, before: seq<seq<DdStep>>)
    decreases |before|
  {
    before != [] && (!DdAfter(dd, before[0]).Running? || Missed(DdAfter(dd, before[0]), before[1..]))
  }

  class Update {
    const cfg: Config
    var pc: Pc
    var line: string
    var usbChecked: bool
    var dd: Backend.Dd
    var log: seq<Event>
    ghost var acts: seq<Action>

    ghost function Now(): State
      reads this
    {
      State(pc, line, usbChecked, dd, log)
    }

    /** The variables are those of the machine after `acts`. */
    ghost predicate Valid()
      reads this
    {
      Run(cfg, acts) == Now()
    }

    constructor (cfg: Config)
      ensures Valid() && this.cfg == cfg && acts == [] && Now() == INIT
    {
      this.cfg := cfg;
      pc, line, usbChecked, dd, log := Commands, "", false, Absent, [];
      acts := [];
    }

    method Read(i: Input)
      modifies `line, `log
      ensures line == NewLine(old(line), i) && log == old(log) + ReadEvents(i)
    {
      match i
      case Text(l) =>
        line := l;
        log := log + [Event.Read(l)];
      case Timeout(clears) =>
        if clears {
          line := "";
        }
    }

    /** One pass of the command loop. */
    method CommandPass(i: Input)
      requires Valid() && pc.Commands?
      modifies `pc, `line, `usbChecked, `log, `acts
      ensures Valid() && acts == old(acts) + [Input(i)]
    {
      hide Run;
      ghost var s := Now();
      Read(i);
      if line == "Syscheck" {
        log := log + [CardReport];
        if !usbChecked {
          usbChecked := true;
          log := log + [CheckStart];
          log := log + [CheckDone];
        }
      }
      if line == "Start" {
        pc := Unmounting;
      }
      RunOne(cfg, acts, Input(i));
      acts := acts + [Input(i)];
      assert log == s.log + CommandEvents(s, i);
    }

    /** The loop leaves on the first `Start`, and on nothing else. */
    method CommandLoop(inputs: seq<Input>) returns (used: nat)
      requires Valid() && pc.Commands?
      modifies `pc, `line, `usbChecked, `log, `acts
      ensures Valid() && used <= |inputs| && acts == old(acts) + Reads(inputs[..used])
      ensures if Text("Start") in inputs then pc.Unmounting? else pc.Commands? && used == |inputs|
    {
      hide Run, CommandEvents, Reads;
      used := 0;
      ReadsNone();
      while used < |inputs| && pc.Commands?
        invariant Valid() && used <= |inputs| && acts == old(acts) + Reads(inputs[..used])
        invariant pc.Commands? || pc.Unmounting?
        invariant pc.Unmounting? <==> Text("Start") in inputs[..used]
        decreases |inputs| - used
      {
        CommandLine(cfg, acts);
        RunOne(cfg, acts, Input(inputs[used]));
        CommandPass(inputs[used]);
        ReadsOne(inputs, used);
        used := used + 1;
      }
      assert inputs[..|inputs|] == inputs;
    }

    /** The card unmounted, the power controller looked after, and the write launched. */
    method Launch()
      requires Valid() && pc.Unmounting?
      modifies `pc, `dd, `log, `acts
      ensures Valid() && acts == old(acts) + [Action.Script, Action.Script, Action.Script]
      ensures pc.Polling? && dd.Forked?
    {
      hide Run;
      ghost var was := acts;
      log := log + [Unmount];
      pc := Powering;
      Stepped();
      var updated := false;
      if cfg.hexFile {
        if cfg.version < PMIC_VERSION {
          updated := true;
        }
      }
      log := log + [PowerStep(updated)];
      pc := Launching;
      Stepped();
      dd := Forked;
      log := log + [WriteStart];
      pc := Polling;
      Stepped();
      assert acts == was + [Action.Script, Action.Script, Action.Script];
    }

    /** Records that the script has just made the machine's next step. */
    ghost method Stepped()
      requires ScriptStep(cfg, Run(cfg, acts)) == Now()
      modifies `acts
      ensures Valid() && acts == old(acts) + [Action.Script]
    {
      hide Run;
      RunOne(cfg, acts, Action.Script);
      acts := acts + [Action.Script];
    }

    /** dd, in the background. */
    method Background(steps: seq<DdStep>)
      requires Valid()
      modifies `dd, `log, `acts
      ensures Valid() && acts == old(acts) + Moves(steps) && dd == DdAfter(old(dd), steps)
    {
      hide Run;
      var n := 0;
      while n < |steps|
        invariant n <= |steps| && Valid()
        invariant acts == old(acts) + Moves(steps[..n]) && dd == DdAfter(old(dd), steps[..n])
        invariant pc == old(pc) && line == old(line) && usbChecked == old(usbChecked)
      {
        assert steps[..n + 1][..n] == steps[..n];
        RunOne(cfg, acts, Dd(steps[n]));
        match steps[n] {
          case Begin =>
            if dd.Forked? {
              dd := Running;
              log := log + [DdStart];
            }
          case Report =>
            if dd.Running? {
              log := log + [DdProgress];
            }
          case End =>
            if dd.Running? {
              dd := Ended;
              log := log + [DdEnd];
            }
        }
        acts := acts + [Dd(steps[n])];
        n := n + 1;
      }
      assert steps[..|steps|] == steps;
    }

    /** The poll loop leaves at the first poll that finds no dd. */
    method PollLoop(before: seq<seq<DdStep>>) returns (used: nat)
      requires Valid() && pc.Polling?
      modifies `pc, `dd, `log, `acts
      ensures Valid() && used <= |before| && acts == old(acts) + Polls(before[..used])
      ensures if Missed(old(dd), before) then pc.Announcing? else pc.Polling? && used == |before|
    {
      hide Run, DdAfter, Moves;
      used := 0;
      while used < |before| && pc.Polling?
        invariant Valid() && used <= |before| && acts == old(acts) + Polls(before[..used])
        invariant pc.Polling? ==> (Missed(dd, before[used..]) <==> Missed(old(dd), before))
        invariant pc.Announcing? ==> Missed(old(dd), before)
        invariant pc.Polling? || pc.Announcing?
        decreases |before| - used
      {
        assert before[..used + 1][..used] == before[..used] && before[used..][1..] == before[used + 1..];
        Background(before[used]);
        if !dd.Running? {
          log := log + [PollFails];
          pc := Announcing;
        }
        Stepped();
        used := used + 1;
      }
    }

    method Announce()
      requires Valid() && pc.Announcing?
      modifies `pc, `log, `acts
      ensures Valid() && acts == old(acts) + [Action.Script] && pc.Awaiting?
    {
      hide Run;
      AnnouncingLine(cfg, acts);
      log := log + [WriteDone];
      pc := Awaiting;
      Stepped();
    }

    /** The last loop tests `LINE` before each read, and leaves on `PowerDown` alone. */
    method AwaitLoop(finals: seq<Final>) returns (used: nat)
      requires Valid() && pc.Awaiting?
      modifies `pc, `line, `dd, `log, `acts
      ensures Valid() && used <= |finals| && acts == old(acts) + Waits(finals[..used])
      ensures if Arrives("PowerDown", finals) then pc.ShuttingDown? else pc.Awaiting? && used == |finals|
    {
      hide Run, Waits, Moves, DdAfter;
      used := 0;
      WaitsNone();
      AwaitingLine(cfg, acts);
      while used < |finals| && line != "PowerDown"
        invariant Valid() && used <= |finals| && acts == old(acts) + Waits(finals[..used])
        invariant if line == "PowerDown" then pc.ShuttingDown? else pc.Awaiting?
        invariant line == "PowerDown" <==> Arrives("PowerDown", finals[..used])
        decreases |finals| - used
      {
        var final := finals[used];
        Background(final.moves);
        RunOne(cfg, acts, Input(final.input));
        Read(final.input);
        if line == "PowerDown" {
          pc := ShuttingDown;
        }
        acts := acts + [Input(final.input)];
        WaitsOne(finals, used);
        ArrivesOne("PowerDown", finals, used);
        used := used + 1;
      }
      assert finals[..|finals|] == finals;
      if line == "PowerDown" {
        ArrivesMore("PowerDown", finals, used);
      }
    }

    /**
     The whole script, fed with what arrives in its three loops, with dd moving wherever it
     can. It shuts down exactly when `Start` arrives in the first, a poll misses dd in the
     second, and `PowerDown` arrives in the third.
     */
    method Perform(commands: seq<Input>, before: seq<seq<DdStep>>, said: seq<DdStep>,
                   finals: seq<Final>, off: seq<DdStep>)
      requires Valid() && acts == [] && pc.Commands?
      modifies this
      ensures Valid()
      ensures pc.Halted? <==> Text("Start") in commands && Missed(Forked, before) && Arrives("PowerDown", finals)
    {
      hide Run, Missed, Reads, Polls, Waits, Moves, DdAfter, Arrives;
      var used := CommandLoop(commands);
      if pc.Commands? {
        return;
      }
      Launch();
      used := PollLoop(before);
      if pc.Polling? {
        return;
      }
      Background(said);
      Announce();
      used := AwaitLoop(finals);
      if pc.Awaiting? {
        return;
      }
      Background(off);
      log := log + [Shutdown];
      pc := Halted;
      Stepped();
    }
  }

  lemma WaitsNone()
    ensures Waits([]) == []
  {
  }

  lemma WaitsOne(finals: seq<Final>, n: nat)
    requires n < |finals|
    ensures Waits(finals[..n + 1]) == Waits(finals[..n]) + Moves(finals[n].moves) + [Input(finals[n].input)]
  {
    hide Moves;
    assert finals[..n + 1][..n] == finals[..n];
  }

  lemma ArrivesOne(line: string, finals: seq<Final>, n: nat)
    requires n < |finals|
    ensures Arrives(line, finals[..n + 1]) <==> Arrives(line, finals[..n]) || finals[n].input == Text(line)
  {
    var now := finals[..n + 1];
    assert now[n] == finals[n] && forall i :: 0 <= i < n ==> now[i] == finals[..n][i];
  }

  lemma ArrivesMore(line: string, finals: seq<Final>, n: nat)
    requires n <= |finals| && Arrives(line, finals[..n])
    ensures Arrives(line, finals)
  {
    var i :| 0 <= i < n && finals[..n][i].input == Text(line);
    assert finals[i].input == Text(line);
  }

  lemma ReadsNone()
    ensures Reads([]) == []
  {
  }

  lemma ReadsOne(inputs: seq<Input>, n: nat)
    requires n < |inputs|
    ensures Reads(inputs[..n + 1]) == Reads(inputs[..n]) + [Input(inputs[n])]
  {
    assert inputs[..n + 1][..n] == inputs[..n];
  }

  lemma CommandLine(cfg: Config, acts: seq<Action>)
    requires Run(cfg, acts).pc.Commands?
    ensures Run(cfg, acts).line != "Start"
  {
    hide InOrder, ChecksOk, DdOk, PowerDownOk, Run;
    RunInv(cfg, acts);
  }

  lemma AnnouncingLine(cfg: Config, acts: seq<Action>)
    requires Run(cfg, acts).pc.Announcing?
    ensures Run(cfg, acts).line == "Start" && "Start" != "PowerDown"
  {
    hide InOrder, ChecksOk, DdOk, PowerDownOk, Run;
    RunInv(cfg, acts);
    assert "Start"[0] != "PowerDown"[0];
  }

  lemma AwaitingLine(cfg: Config, acts: seq<Action>)
    requires Run(cfg, acts).pc.Awaiting?
    ensures Run(cfg, acts).line != "PowerDown"
  {
    hide InOrder, ChecksOk, DdOk, PowerDownOk, Run;
    RunInv(cfg, acts);
  }
}

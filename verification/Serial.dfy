/**
 Serial executions: a list of runs of the generators, one after the other. What such
 a list leaves in the files, and when all names stay distinct.
 */
module Serial {
  import opened Text
  import opened Rules
  import opened Scripts
  import opened Turns

  type Pid = int

  /** Process `pid` wrote its rules, having found the rules directory writeable or not. */
  datatype Turn = Turn(pid: Pid, req: Request, writeable: bool)

  /** The lines a turn adds, given the files it starts from. */
  function LinesOf(f: Files, t: Turn): seq<Line> {
    if ExitsEarly(t.req) then []
    else
      match PlanOf(t.req, BothAbsent(f), RenderAll(Scanned(f, t.writeable)))
      case Write(lines) => lines
      case _ => []
  }

  function TakeTurn(f: Files, t: Turn): Files {
    Append(f, t.writeable, LinesOf(f, t))
  }

  function Replay(f: Files, log: seq<Turn>): Files {
    if log == [] then f else TakeTurn(Replay(f, log[..|log| - 1]), log[|log| - 1])
  }

  // ---------- uniqueness ----------

  function MainNames(f: Files): seq<string> {
    Names(Content(f.main))
  }

  function TmpNames(f: Files): seq<string> {
    Names(Content(f.tmp))
  }

  function AllNames(f: Files): seq<string> {
    MainNames(f) + TmpNames(f)
  }

  /** What is asked of the files before the first run, and kept by every run. */
  predicate Sound(k: Kind, f: Files) {
    && GoodLines(k, Content(f.main)) && GoodLines(k, Content(f.tmp))
    && Distinct(AllNames(f))
    && (k == CdKind ==> Covered(Names(Content(f.main))) && Covered(Names(Content(f.tmp))))
  }

  /** A run of kind `k` that does not write a name requested from outside. */
  predicate Ordinary(k: Kind, req: Request) {
    && KindOf(req) == k
    && ValidRequest(req)
    && (req.Net? ==> req.net.custom == "")
  }

  /** Moreover, one that gets as far as writing. */
  predicate Ready(k: Kind, req: Request) {
    Ordinary(k, req) && !ExitsEarly(req) && (req.Net? ==> NetKeys(req.net) != "")
  }

  predicate AllOrdinary(k: Kind, log: seq<Turn>) {
    forall i :: 0 <= i < |log| ==> Ordinary(k, log[i].req)
  }

  /** The directory is never found writeable again after it was found not writeable. */
  predicate NoReversion(log: seq<Turn>) {
    forall i, j :: 0 <= i < j < |log| && log[j].writeable ==> log[i].writeable
  }

  predicate GoodFiles(k: Kind, f: Files) {
    GoodLines(k, Content(f.main)) && GoodLines(k, Content(f.tmp))
  }

  /** Some run that finds the names `ns` in use might be given the name `n`. */
  predicate Obtainable(k: Kind, ns: seq<string>, n: string) {
    match k
    case NetKind => KernelName(n) && !Taken(n, ns)
    case CdKind => IsLink(n) && NumberOf(n) >= NextCd(ns)
  }

  /** No name of the temporary file can be given out by a run that looks at the real file alone. */
  predicate OutOfReach(k: Kind, f: Files) {
    forall n :: n in TmpNames(f) ==> !Obtainable(k, MainNames(f), n)
  }

  /** The more names are in use, the fewer can be obtained. */
  lemma ObtainableLess(k: Kind, a: seq<string>, b: seq<string>, n: string)
    requires Obtainable(k, a + b, n)
    ensures Obtainable(k, a, n)
  {
    hide KernelName, InRe, InFamily, IsLink;
    match k
    case NetKind =>
      TakenConcat(n, a, b);
    case CdKind => NextOfConcat("cdrom", a, b);
  }

  lemma GoodConcat(k: Kind, a: seq<Line>, b: seq<Line>)
    requires GoodLines(k, a) && GoodLines(k, b)
    ensures GoodLines(k, a + b)
  {
    NamesConcat(a, b);
  }

  lemma CoveredConcat(a: seq<string>, b: seq<string>)
    requires Covered(a) && Covered(b)
    ensures Covered(a + b)
  {
    var c := a + b;
    forall i | 0 <= i < |c| && InCdFamily(c[i])
      ensures exists j :: 0 <= j <= i && IsCdrom(c[j]) && NumberOf(c[j]) == NumberOf(c[i])
    {
      if i < |a| {
        var j :| 0 <= j <= i && IsCdrom(a[j]) && NumberOf(a[j]) == NumberOf(a[i]);
        assert c[j] == a[j];
      } else {
        var j :| 0 <= j <= i - |a| && IsCdrom(b[j]) && NumberOf(b[j]) == NumberOf(b[i - |a|]);
        assert c[|a| + j] == b[j];
      }
    }
  }

  lemma NoLines(k: Kind)
    ensures GoodLines(k, []) && Names([]) == [] && Distinct(Names([]))
  {
  }

  lemma NetTurnAddsFresh(f: Files, t: Turn)
    requires GoodLines(NetKind, Scanned(f, t.writeable)) && Ordinary(NetKind, t.req)
    ensures var lines, seen := LinesOf(f, t), Names(Scanned(f, t.writeable));
      && GoodLines(NetKind, lines)
      && Distinct(Names(lines))
      && (forall n :: n in Names(lines) ==> n !in seen && Obtainable(NetKind, seen, n))
      && (Ready(NetKind, t.req) ==> Names(lines) == [NetChoice(t.req.net.iface, seen)])
  {
    hide NetName, Names, GoodLines, NetKeys, Scanned, BothAbsent, NetRuleLines, KernelName, Taken, NetChoice, RenderAll;
    NoLines(NetKind);
    var r, seen := t.req.net, Scanned(f, t.writeable);
    if !ExitsEarly(t.req) && NetKeys(r) != "" {
      NetPlanIsFresh(r, BothAbsent(f), seen);
      NetNameByNames(r, seen);
      PlainOfGood(NetKind, seen);
      ChoiceIsFresh(r.iface, Names(seen));
      var keys := NetKeys(r) + (KERNEL + Stem(r.iface) + "*\"");
      NamesOfNetRule(BothAbsent(f), keys, NetChoice(r.iface, Names(seen)), NetComment(r));
    }
  }

  lemma PlainOfGood(k: Kind, lines: seq<Line>)
    requires GoodLines(k, lines)
    ensures PlainNames(Names(lines))
  {
  }

  lemma CdTurnAddsFresh(f: Files, t: Turn)
    requires GoodLines(CdKind, Scanned(f, t.writeable)) && Ordinary(CdKind, t.req)
    requires Covered(Names(Scanned(f, t.writeable)))
    ensures var lines, seen := LinesOf(f, t), Names(Scanned(f, t.writeable));
      && GoodLines(CdKind, lines)
      && Distinct(Names(lines))
      && (forall n :: n in Names(lines) ==> n !in seen && Obtainable(CdKind, seen, n))
      && Covered(Names(lines))
  {
    hide CdPlan, Names, LinksOf, NextCd, Scanned, BothAbsent, ValidLines, ValidRequest, CdKeys, IsLink, NumberOf;
    if !ExitsEarly(t.req) {
      var seen := Scanned(f, t.writeable);
      CdPlanLinks(t.req.cd, BothAbsent(f), seen);
      LinksAreFresh(t.req.cd, Names(seen));
      LinksShape(t.req.cd, NextCd(Names(seen)));
      CdLinksCovered(t.req.cd, NextCd(Names(seen)));
    } else {
      NoLines(CdKind);
    }
  }

  lemma ScannedIsGood(k: Kind, f: Files, w: bool)
    requires Sound(k, f)
    ensures GoodLines(k, Scanned(f, w))
    ensures k == CdKind ==> Covered(Names(Scanned(f, w)))
    ensures Names(Scanned(f, w)) == if w then Names(Content(f.main)) else AllNames(f)
  {
    hide GoodLines, Covered, Names, Distinct;
    GoodConcat(k, Content(f.main), Content(f.tmp));
    NamesConcat(Content(f.main), Content(f.tmp));
    if k == CdKind {
      CoveredConcat(Names(Content(f.main)), Names(Content(f.tmp)));
    }
  }

  /** What one turn adds: well-formed lines whose names are new among those it scanned, and obtainable. */
  lemma TurnAddsFresh(k: Kind, f: Files, t: Turn)
    requires Sound(k, f) && Ordinary(k, t.req)
    ensures var lines, seen := LinesOf(f, t), Names(Scanned(f, t.writeable));
      && GoodLines(k, lines)
      && Distinct(Names(lines))
      && (forall n :: n in Names(lines) ==> n !in seen && Obtainable(k, seen, n))
      && (k == CdKind ==> Covered(Names(lines)))
  {
    hide LinesOf, GoodLines, Distinct, Covered, Names, Scanned, Ordinary, Obtainable;
    ScannedIsGood(k, f, t.writeable);
    if k == NetKind {
      NetTurnAddsFresh(f, t);
    } else {
      CdTurnAddsFresh(f, t);
    }
  }

  lemma CdLinksCovered(r: CdRequest, k: nat)
    ensures Covered(LinksOf(r, k))
  {
    LinksShape(r, k);
    var s := LinksOf(r, k);
    assert forall i :: 0 <= i < |s| ==> s[i] in s;
  }

  lemma DistinctSplit(a: seq<string>, b: seq<string>)
    requires Distinct(a + b)
    ensures Distinct(a) && Distinct(b) && forall x :: x in b ==> x !in a
  {
    var v := a + b;
    assert forall i :: 0 <= i < |a| ==> v[i] == a[i];
    assert forall i :: 0 <= i < |b| ==> v[|a| + i] == b[i];
  }

  lemma DistinctInsert(a: seq<string>, b: seq<string>, c: seq<string>)
    requires Distinct(a + b) && Distinct(c) && forall x :: x in c ==> x !in a && x !in b
    ensures Distinct(a + c + b)
  {
    DistinctSplit(a, b);
    DistinctAppend(a, c);
    DistinctAppend(a + c, b);
  }

  /** The turn writes no name that is in the temporary file. */
  predicate AvoidsTmp(f: Files, t: Turn) {
    forall n :: n in Names(LinesOf(f, t)) ==> n !in TmpNames(f)
  }

  /**
   One turn keeps the files sound, provided a run that finds the directory writeable
   (and so does not look at the temporary file) is given no name that is there.
   */
  lemma TurnKeepsSound(k: Kind, f: Files, t: Turn)
    requires Sound(k, f) && Ordinary(k, t.req)
    requires t.writeable ==> AvoidsTmp(f, t)
    ensures Sound(k, TakeTurn(f, t))
  {
    hide LinesOf, GoodLines, Distinct, Covered, Names, Ordinary, Obtainable, Sound, Append, Content;
    var lines := LinesOf(f, t);
    ScannedIsGood(k, f, t.writeable);
    TurnAddsFresh(k, f, t);
    if lines == [] {
      AppendNothing(f, t.writeable);
    } else if t.writeable {
      AppendToMain(k, f, lines);
    } else {
      AppendToTmp(k, f, lines);
    }
  }

  lemma OutOfReachAvoidsTmp(k: Kind, f: Files, t: Turn)
    requires Sound(k, f) && Ordinary(k, t.req) && t.writeable && OutOfReach(k, f)
    ensures AvoidsTmp(f, t)
  {
    hide LinesOf, GoodLines, Distinct, Covered, Names, Ordinary, Obtainable, Sound, Content;
    ScannedIsGood(k, f, true);
    TurnAddsFresh(k, f, t);
    forall n | n in Names(LinesOf(f, t))
      ensures n !in TmpNames(f)
    {
      assert Obtainable(k, MainNames(f), n);
    }
  }

  lemma AppendNothing(f: Files, w: bool)
    ensures Append(f, w, []) == f
  {
  }

  lemma DistinctPart(a: seq<string>, x: seq<string>, b: seq<string>, y: seq<string>)
    requires Distinct((a + x) + (b + y))
    ensures Distinct(a + b)
  {
    DistinctSplit(a + x, b + y);
    DistinctSplit(a, x);
    DistinctSplit(b, y);
    assert forall n :: n in b ==> n in b + y;
    assert forall n :: n in a ==> n in a + x;
    DistinctAppend(a, b);
  }

  lemma AppendToMain(k: Kind, f: Files, lines: seq<Line>)
    requires Sound(k, f) && GoodLines(k, lines) && lines != [] && Distinct(Names(lines))
    requires forall n :: n in Names(lines) ==> n !in Names(Content(f.main)) && n !in Names(Content(f.tmp))
    requires k == CdKind ==> Covered(Names(lines))
    ensures Sound(k, Append(f, true, lines))
  {
    hide GoodLines, Covered, Names, Distinct;
    var a, b, c := Names(Content(f.main)), Names(Content(f.tmp)), Names(lines);
    NamesConcat(Content(f.main), lines);
    GoodConcat(k, Content(f.main), lines);
    DistinctInsert(a, b, c);
    if k == CdKind {
      CoveredConcat(a, c);
    }
  }

  lemma Associate(a: seq<string>, b: seq<string>, c: seq<string>)
    ensures a + b + c == a + (b + c)
  {
  }

  lemma AppendToTmp(k: Kind, f: Files, lines: seq<Line>)
    requires Sound(k, f) && GoodLines(k, lines) && lines != [] && Distinct(Names(lines))
    requires forall n :: n in Names(lines) ==> n !in AllNames(f)
    requires k == CdKind ==> Covered(Names(lines))
    ensures Sound(k, Append(f, false, lines))
  {
    hide GoodLines, Covered, Names, Distinct;
    var a, b, c := Names(Content(f.main)), Names(Content(f.tmp)), Names(lines);
    NamesConcat(Content(f.tmp), lines);
    GoodConcat(k, Content(f.tmp), lines);
    DistinctAppend(a + b, c);
    Associate(a, b, c);
    if k == CdKind {
      CoveredConcat(b, c);
    }
  }

  lemma {:induction false} WriteableKeepsTmp(f: Files, log: seq<Turn>)
    requires forall i :: 0 <= i < |log| ==> log[i].writeable
    ensures Replay(f, log).tmp == f.tmp
  {
    if log != [] {
      WriteableKeepsTmp(f, log[..|log| - 1]);
    }
  }

  /** A run that finds the directory writeable brings nothing of the temporary file into reach. */
  lemma TurnKeepsReach(k: Kind, f: Files, t: Turn)
    requires OutOfReach(k, f) && t.writeable
    ensures OutOfReach(k, TakeTurn(f, t))
  {
    hide LinesOf, Names, Obtainable;
    var g, lines := TakeTurn(f, t), LinesOf(f, t);
    NamesConcat(Content(f.main), lines);
    assert MainNames(g) == MainNames(f) + Names(lines) by {
      NamesOfNone();
      assert MainNames(f) + [] == MainNames(f);
    }
    forall n | n in TmpNames(g)
      ensures !Obtainable(k, MainNames(g), n)
    {
      if Obtainable(k, MainNames(g), n) {
        ObtainableLess(k, MainNames(f), Names(lines), n);
      }
    }
  }

  lemma NamesOfNone()
    ensures Names([]) == []
  {
  }

  lemma {:induction false} WriteableKeepsReach(k: Kind, f: Files, log: seq<Turn>)
    requires OutOfReach(k, f) && forall i :: 0 <= i < |log| ==> log[i].writeable
    ensures OutOfReach(k, Replay(f, log))
  {
    hide OutOfReach, TakeTurn;
    if log != [] {
      WriteableKeepsReach(k, f, log[..|log| - 1]);
      TurnKeepsReach(k, Replay(f, log[..|log| - 1]), log[|log| - 1]);
    }
  }

  /** What holds of all turns and their order holds of all but the last, and of the last. */
  lemma FrontOf(k: Kind, f: Files, log: seq<Turn>)
    requires log != [] && AllOrdinary(k, log) && NoReversion(log) && ReachSafe(k, f, log)
    ensures var front, t := log[..|log| - 1], log[|log| - 1];
      && AllOrdinary(k, front) && NoReversion(front) && ReachSafe(k, f, front)
      && Ordinary(k, t.req)
      && (t.writeable ==> OutOfReach(k, f) && forall i :: 0 <= i < |front| ==> front[i].writeable)
  {
    hide OutOfReach, Ordinary;
  }

  /** Runs that find the directory writeable start from a temporary file out of their reach. */
  predicate ReachSafe(k: Kind, f: Files, log: seq<Turn>) {
    (exists i :: 0 <= i < |log| && log[i].writeable) ==> OutOfReach(k, f)
  }

  /**
   Any serial execution keeps all names distinct, as long as the answers about the
   directory never revert and no writeable run can reach a name of the temporary file.
   */
  lemma {:induction false} ReplayIsSound(k: Kind, f: Files, log: seq<Turn>)
    requires Sound(k, f) && AllOrdinary(k, log) && NoReversion(log) && ReachSafe(k, f, log)
    ensures Sound(k, Replay(f, log))
  {
    hide Sound, AllOrdinary, NoReversion, ReachSafe, OutOfReach, TakeTurn, Ordinary, AvoidsTmp;
    if log != [] {
      var front, t := log[..|log| - 1], log[|log| - 1];
      FrontOf(k, f, log);
      ReplayIsSound(k, f, front);
      if t.writeable {
        WriteableKeepsReach(k, f, front);
        OutOfReachAvoidsTmp(k, Replay(f, front), t);
      }
      TurnKeepsSound(k, Replay(f, front), t);
    }
  }

  // ---------- what a run is given ----------

  /** The names a run writes, from the names it finds in use. */
  function Given(req: Request, ns: seq<string>): (names: seq<string>)
    ensures names != []
  {
    match req
    case Net(r) => [NetChoice(r.iface, ns)]
    case Cd(r) => LinksOf(r, NextCd(ns))
  }

  predicate AllReady(k: Kind, log: seq<Turn>) {
    forall i :: 0 <= i < |log| ==> Ready(k, log[i].req)
  }

  lemma LinesAreGiven(k: Kind, f: Files, t: Turn)
    requires GoodFiles(k, f) && Ready(k, t.req)
    ensures var lines := LinesOf(f, t);
      GoodLines(k, lines) && Names(lines) == Given(t.req, Names(Scanned(f, t.writeable)))
  {
    hide CdPlan, Names, LinksOf, NextCd, BothAbsent, ValidLines, ValidRequest, CdKeys, NetKeys, NetChoice, PlainName;
    var seen := Scanned(f, t.writeable);
    GoodConcat(k, Content(f.main), Content(f.tmp));
    if k == NetKind {
      NetTurnAddsFresh(f, t);
    } else {
      CdPlanLinks(t.req.cd, BothAbsent(f), seen);
      LinksShape(t.req.cd, NextCd(Names(seen)));
    }
  }

  /** One turn: what it is given goes to the file the answer points to, and the other keeps its names. */
  lemma TurnGives(k: Kind, f: Files, t: Turn)
    requires GoodFiles(k, f) && Ready(k, t.req)
    ensures var g := TakeTurn(f, t);
      && GoodFiles(k, g)
      && (t.writeable ==> MainNames(g) == MainNames(f) + Given(t.req, MainNames(f)) && TmpNames(g) == TmpNames(f))
      && (!t.writeable ==> MainNames(g) == MainNames(f) && TmpNames(g) == TmpNames(f) + Given(t.req, AllNames(f)))
  {
    hide LinesOf, Names, GoodLines, Given, Ready;
    var lines := LinesOf(f, t);
    LinesAreGiven(k, f, t);
    assert lines != [] by {
      NoLines(k);
    }
    NamesConcat(Content(f.main), Content(f.tmp));
    NamesConcat(Content(f.main), lines);
    NamesConcat(Content(f.tmp), lines);
    GoodConcat(k, Content(f.main), lines);
    GoodConcat(k, Content(f.tmp), lines);
  }

  lemma {:induction false} ReplayIsGood(k: Kind, f: Files, log: seq<Turn>)
    requires GoodFiles(k, f) && AllReady(k, log)
    ensures GoodFiles(k, Replay(f, log))
  {
    hide GoodFiles, TakeTurn, Ready;
    if log != [] {
      ReplayIsGood(k, f, log[..|log| - 1]);
      TurnGives(k, Replay(f, log[..|log| - 1]), log[|log| - 1]);
    }
  }

  /** A name once written stays. */
  lemma {:induction false} NamesStay(k: Kind, f: Files, log: seq<Turn>)
    requires GoodFiles(k, f) && AllReady(k, log)
    ensures Within(MainNames(f), MainNames(Replay(f, log)))
    ensures Within(TmpNames(f), TmpNames(Replay(f, log)))
  {
    hide GoodFiles, TakeTurn, Ready, MainNames, TmpNames, Given;
    if log != [] {
      var front := log[..|log| - 1];
      NamesStay(k, f, front);
      ReplayIsGood(k, f, front);
      TurnGives(k, Replay(f, front), log[|log| - 1]);
    }
  }
}

/**
 Runs that are refused the rules directory and runs that are not: when the two hand out
 one name twice. The exact condition, for either script and any starting files.
 */
module Reversion {
  import opened Text
  import opened Rules
  import opened Scripts
  import opened Turns
  import opened Serial

  // ---------- runs that compete for the same names ----------

  /** Two drives, or two interfaces to which the kernel gave the same name. */
  predicate Same(a: Request, b: Request) {
    (a.Cd? && b.Cd?) || (a.Net? && b.Net? && a.net.iface == b.net.iface)
  }

  /** Runs that get as far as writing, all competing with `r`. */
  predicate Series(k: Kind, r: Request, log: seq<Turn>) {
    Ready(k, r) && AllReady(k, log) && forall i :: 0 <= i < |log| ==> Same(log[i].req, r)
  }

  /** The first name given depends on the kind of competition only. */
  function Head(r: Request, ns: seq<string>): string {
    Given(r, ns)[0]
  }

  lemma SameHead(k: Kind, a: Request, b: Request, ns: seq<string>)
    requires Ready(k, a) && Ready(k, b) && Same(a, b)
    ensures Head(a, ns) == Head(b, ns) && Head(b, ns) in Given(a, ns)
    ensures k == NetKind ==> Given(a, ns) == Given(b, ns)
  {
    hide NextCd, NetChoice;
  }

  lemma NumbersGiven(r: Request, ns: seq<string>, n: string)
    requires r.Cd? && n in Given(r, ns)
    ensures IsLink(n) && NumberOf(n) == NextCd(ns)
  {
    hide LinksOf, NextCd;
    LinksShape(r.cd, NextCd(ns));
  }

  /** What is given is new, and keeps the names plain. */
  lemma GivenIsPlain(k: Kind, r: Request, ns: seq<string>)
    requires Ready(k, r) && PlainNames(ns)
    ensures PlainNames(ns + Given(r, ns))
    ensures k == NetKind ==> Head(r, ns) !in ns && KernelName(Head(r, ns))
  {
    hide LinksOf, NextCd, NetChoice, PlainName, PlainNumber, Stem, IsLink;
    match r
    case Net(q) => ChoiceIsFresh(q.iface, ns);
    case Cd(q) => LinksShape(q, NextCd(ns));
  }

  // ---------- two laws of what is given ----------

  /**
   A name given out both by a run that saw at least the names `ts` and by one that sees
   `ns`: then `ts` makes no difference to the latter.
   */
  lemma Overlap(k: Kind, a: Request, all: seq<string>, b: Request, ns: seq<string>, ts: seq<string>, n: string)
    requires Ready(k, a) && Ready(k, b) && Same(a, b) && PlainNames(all) && PlainNames(ns)
    requires Within(ts, all) && n in Given(a, all) && n in Given(b, ns)
    ensures Given(b, ns + ts) == Given(b, ns)
  {
    match k
    case NetKind => NetOverlap(b.net.iface, all, ns, ts);
    case CdKind =>
      hide LinksOf, NextOf, IsLink;
      NumbersGiven(a, all, n);
      NumbersGiven(b, ns, n);
      NextOfWithin("cdrom", ts, all);
      NextOfConcat("cdrom", ns, ts);
  }

  lemma NetOverlap(iface: string, all: seq<string>, ns: seq<string>, ts: seq<string>)
    requires KernelName(iface) && PlainNames(all) && PlainNames(ns)
    requires Within(ts, all) && NetChoice(iface, all) == NetChoice(iface, ns)
    ensures NetChoice(iface, ns + ts) == NetChoice(iface, ns)
  {
    hide Stem, PlainName, PlainNumber, NextOf, Taken, InFamily, Numbered, KernelName;
    var b := Stem(iface);
    StemIsPlain(iface);
    ChoiceIsFresh(iface, all);
    ChoiceIsFresh(iface, ns);
    NumberedName(b, NextOf(b, all));
    NumberedName(b, NextOf(b, ns));
    NextOfWithin(b, ts, all);
    NextOfConcat(b, ns, ts);
    TakenConcat(iface, ns, ts);
    if Taken(iface, ts) {
      TakenWithin(iface, ts, all);
    }
  }

  /**
   A name given out that is not among `ts`, and would not be given if `ts` were seen:
   giving it out makes no difference to what is given when `ts` is seen.
   */
  lemma StillNext(k: Kind, a: Request, ns: seq<string>, ts: seq<string>)
    requires Ready(k, a) && PlainNames(ns)
    requires Given(a, ns + ts) != Given(a, ns) && forall n :: n in Given(a, ns) ==> n !in ts
    ensures Head(a, ns + Given(a, ns) + ts) == Head(a, ns + ts)
  {
    match k
    case NetKind => NetStillNext(a.net.iface, ns, ts);
    case CdKind =>
      hide LinksOf, NextOf, IsLink;
      var links := Given(a, ns);
      NextOfConcat("cdrom", ns, ts);
      NextAfterLinks(ns, a.cd);
      NextOfConcat("cdrom", ns + links, ts);
      HeadOfCd(a, ns + ts);
      HeadOfCd(a, ns + links + ts);
  }

  lemma HeadOfCd(r: Request, ns: seq<string>)
    requires r.Cd?
    ensures Head(r, ns) == CdName(NextCd(ns))
  {
    hide NextCd, LinkSuffix;
  }

  lemma NetStillNext(iface: string, ns: seq<string>, ts: seq<string>)
    requires KernelName(iface) && PlainNames(ns)
    requires NetChoice(iface, ns + ts) != NetChoice(iface, ns) && NetChoice(iface, ns) !in ts
    ensures NetChoice(iface, ns + [NetChoice(iface, ns)] + ts) == NetChoice(iface, ns + ts)
  {
    hide Stem, PlainName, PlainNumber, NextOf, Taken, InFamily, KernelName;
    var b, c := Stem(iface), NetChoice(iface, ns);
    StemIsPlain(iface);
    NumberedName(b, NextOf(b, ns));
    NextOfConcat(b, ns, ts);
    NextOfConcat(b, ns, [c]);
    NextOfConcat(b, ns + [c], ts);
    NextOfOne(b, c);
    TakenConcat(iface, ns, ts);
    TakenConcat(iface, ns, [c]);
    TakenConcat(iface, ns + [c], ts);
    if !Taken(iface, ns) {
      TakenIfUsed(iface, ts);
      DottedIsNotNumbered(iface);
    }
  }

  lemma DottedIsNotNumbered(n: string)
    requires KernelName(n) && '.' in n
    ensures !InFamily(Stem(n), n)
  {
    if Numbered(n) {
      NumberedHasNoDot(n);
    }
  }

  lemma NextOfOne(b: string, n: string)
    ensures NextOf(b, [n]) == if InFamily(b, n) then NumberOf(n) + 1 else 0
  {
    assert [n][..0] == [];
    assert NextOf(b, [n][..0]) == 0;
  }

  // ---------- write_cd_rules counts on ----------

  function CdName(n: nat): string {
    "cdrom" + LinkSuffix(n)
  }

  lemma NextAfterLinks(ns: seq<string>, r: CdRequest)
    ensures NextCd(ns + LinksOf(r, NextCd(ns))) == NextCd(ns) + 1
  {
    hide InFamily, InCdFamily;
    var k := NextCd(ns);
    LinksShape(r, k);
    NextOfBounds("cdrom", ns);
    var links := LinksOf(r, k);
    var all := ns + links;
    assert links[0] in all && links[0] in links;
    NextOfIs("cdrom", all, k + 1);
  }

  // ---------- the condition ----------

  /** The names in the real file after the runs in `log` that find the directory writeable. */
  function Granted(ns: seq<string>, log: seq<Turn>): seq<string> {
    if log == [] then ns
    else
      var m, t := Granted(ns, log[..|log| - 1]), log[|log| - 1];
      if t.writeable then m + Given(t.req, m) else m
  }

  predicate AllGranted(log: seq<Turn>) {
    forall i :: 0 <= i < |log| ==> log[i].writeable
  }

  /**
   The names `ns` are in the real file and `ts` were in the temporary file at the start.
   The run of `r` is given nothing of `ts`; and if seeing `ts` would have made no
   difference to it, then no run before it was refused.
   */
  predicate FitsAt(r: Request, ns: seq<string>, ts: seq<string>, before: seq<Turn>) {
    && (forall n :: n in Given(r, ns) ==> n !in ts)
    && (Given(r, ns + ts) == Given(r, ns) ==> AllGranted(before))
  }

  /** Every run that finds the directory writeable fits in. */
  predicate Fits(ns: seq<string>, ts: seq<string>, log: seq<Turn>) {
    forall j :: 0 <= j < |log| && log[j].writeable ==> FitsAt(log[j].req, Granted(ns, log[..j]), ts, log[..j])
  }

  lemma FitsFront(ns: seq<string>, ts: seq<string>, log: seq<Turn>)
    requires log != []
    ensures var n, front := |log| - 1, log[..|log| - 1];
      Fits(ns, ts, log)
      <==> Fits(ns, ts, front) && (log[n].writeable ==> FitsAt(log[n].req, Granted(ns, front), ts, front))
  {
    hide FitsAt, Granted;
    var front := log[..|log| - 1];
    assert forall j :: 0 <= j < |front| ==> front[..j] == log[..j] && front[j] == log[j];
    if Fits(ns, ts, log) {
      forall j | 0 <= j < |front| && front[j].writeable
        ensures FitsAt(front[j].req, Granted(ns, front[..j]), ts, front[..j])
      {
        assert log[j].writeable;
      }
    }
  }

  lemma SeriesFront(k: Kind, r: Request, log: seq<Turn>)
    requires Series(k, r, log) && log != []
    ensures var t, front := log[|log| - 1], log[..|log| - 1];
      Series(k, r, front) && AllReady(k, front) && Ready(k, t.req) && Ready(k, r) && Same(t.req, r)
  {
  }

  /** The real file holds what the granted runs were given, whatever the others do. */
  lemma {:induction false} MainIsGranted(k: Kind, f: Files, log: seq<Turn>)
    requires GoodFiles(k, f) && AllReady(k, log)
    ensures MainNames(Replay(f, log)) == Granted(MainNames(f), log)
  {
    hide GoodFiles, TakeTurn, Ready, MainNames, TmpNames, Given;
    if log != [] {
      var front := log[..|log| - 1];
      MainIsGranted(k, f, front);
      ReplayIsGood(k, f, front);
      TurnGives(k, Replay(f, front), log[|log| - 1]);
    }
  }

  lemma {:induction false} GrantedIsPlain(k: Kind, ns: seq<string>, log: seq<Turn>)
    requires PlainNames(ns) && AllReady(k, log)
    ensures PlainNames(Granted(ns, log))
  {
    hide PlainNames, Ready, Given;
    if log != [] {
      GrantedIsPlain(k, ns, log[..|log| - 1]);
      GivenIsPlain(k, log[|log| - 1].req, Granted(ns, log[..|log| - 1]));
    }
  }

  lemma GoodIsPlain(k: Kind, f: Files)
    requires GoodFiles(k, f)
    ensures PlainNames(MainNames(f)) && PlainNames(TmpNames(f)) && PlainNames(AllNames(f))
  {
    hide PlainName, PlainNumber, ValidLines;
  }

  /** The temporary file, as long as nobody is refused. */
  lemma {:induction false} GrantedKeepTmp(k: Kind, f: Files, log: seq<Turn>)
    requires GoodFiles(k, f) && AllReady(k, log) && AllGranted(log)
    ensures TmpNames(Replay(f, log)) == TmpNames(f)
  {
    hide GoodFiles, TakeTurn, Ready, MainNames, TmpNames, Given;
    if log != [] {
      var front := log[..|log| - 1];
      GrantedKeepTmp(k, f, front);
      ReplayIsGood(k, f, front);
      TurnGives(k, Replay(f, front), log[|log| - 1]);
    }
  }

  // ---------- a refused run lays claim to the next name ----------

  /**
   After a refused run, and as long as every run has fitted in, the temporary file holds
   the very name that comes next after the real file and the starting temporary file.
   */
  lemma {:induction false} FirstRefusal(k: Kind, r: Request, f: Files, log: seq<Turn>)
    requires GoodFiles(k, f) && Series(k, r, log)
    requires Fits(MainNames(f), TmpNames(f), log) && !AllGranted(log)
    ensures Head(r, Granted(MainNames(f), log) + TmpNames(f)) in TmpNames(Replay(f, log))
  {
    hide GoodFiles, Series, Fits, FitsAt, Same, Ready, MainNames, TmpNames, TakeTurn, Given, Head, AllReady;
    var ns, ts, front, t := MainNames(f), TmpNames(f), log[..|log| - 1], log[|log| - 1];
    var g := Replay(f, front);
    FitsFront(ns, ts, log);
    SeriesFront(k, r, log);
    ReplayIsGood(k, f, front);
    TurnGives(k, g, t);
    if AllGranted(front) {
      RefusedNow(k, r, f, log);
    } else {
      FirstRefusal(k, r, f, front);
      if t.writeable {
        FittingRun(k, r, f, log);
      }
    }
  }

  lemma RefusedNow(k: Kind, r: Request, f: Files, log: seq<Turn>)
    requires GoodFiles(k, f) && Series(k, r, log) && log != []
    requires AllGranted(log[..|log| - 1]) && !log[|log| - 1].writeable
    ensures Head(r, Granted(MainNames(f), log) + TmpNames(f)) in TmpNames(Replay(f, log))
  {
    hide GoodFiles, Series, Same, Ready, MainNames, TmpNames, TakeTurn, Given, Head, AllReady;
    var front, t := log[..|log| - 1], log[|log| - 1];
    var g := Replay(f, front);
    SeriesFront(k, r, log);
    ReplayIsGood(k, f, front);
    GrantedKeepTmp(k, f, front);
    MainIsGranted(k, f, front);
    TurnGives(k, g, t);
    SameHead(k, t.req, r, AllNames(g));
  }

  /** A run that fits in after a refusal leaves the claim where it was. */
  lemma FittingRun(k: Kind, r: Request, f: Files, log: seq<Turn>)
    requires GoodFiles(k, f) && Series(k, r, log) && log != [] && log[|log| - 1].writeable
    requires var front := log[..|log| - 1];
      !AllGranted(front) && FitsAt(log[|log| - 1].req, Granted(MainNames(f), front), TmpNames(f), front)
    ensures Head(r, Granted(MainNames(f), log) + TmpNames(f))
            == Head(r, Granted(MainNames(f), log[..|log| - 1]) + TmpNames(f))
  {
    hide GoodFiles, Series, Same, Ready, MainNames, TmpNames, Given, Head, AllReady, PlainNames;
    var ts, front, t := TmpNames(f), log[..|log| - 1], log[|log| - 1];
    var ns := Granted(MainNames(f), front);
    SeriesFront(k, r, log);
    GoodIsPlain(k, f);
    GrantedIsPlain(k, MainNames(f), front);
    StillNext(k, t.req, ns, ts);
    SameHead(k, t.req, r, ns + ts);
    SameHead(k, t.req, r, ns + Given(t.req, ns) + ts);
  }

  /**
   A name put into the temporary file by a refused run and now given to `r`: then seeing
   the temporary file of the start would make no difference to `r`.
   */
  lemma {:induction false} FromRefused(k: Kind, r: Request, f: Files, log: seq<Turn>, ns: seq<string>, n: string)
    requires GoodFiles(k, f) && Series(k, r, log) && PlainNames(ns)
    requires n in TmpNames(Replay(f, log)) && n !in TmpNames(f) && n in Given(r, ns)
    ensures Given(r, ns + TmpNames(f)) == Given(r, ns) && !AllGranted(log)
  {
    hide GoodFiles, Series, Same, Ready, MainNames, TmpNames, TakeTurn, Given, AllReady, PlainNames;
    if log == [] {
      assert false;
    } else {
      var front, t := log[..|log| - 1], log[|log| - 1];
      var g := Replay(f, front);
      SeriesFront(k, r, log);
      ReplayIsGood(k, f, front);
      TurnGives(k, g, t);
      if n in TmpNames(g) {
        FromRefused(k, r, f, front, ns, n);
      } else {
        NamesStay(k, f, front);
        GoodIsPlain(k, g);
        Overlap(k, t.req, AllNames(g), r, ns, TmpNames(f), n);
      }
    }
  }

  // ---------- the exact condition ----------

  /** A run that fits in is given nothing that is in the temporary file by then. */
  lemma FittingIsNew(k: Kind, r: Request, f: Files, log: seq<Turn>)
    requires GoodFiles(k, f) && Series(k, r, log)
    requires FitsAt(r, Granted(MainNames(f), log), TmpNames(f), log)
    ensures forall n :: n in Given(r, Granted(MainNames(f), log)) ==> n !in TmpNames(Replay(f, log))
  {
    hide GoodFiles, Series, Same, Ready, MainNames, TmpNames, TakeTurn, Given, AllReady, PlainNames;
    var ns := Granted(MainNames(f), log);
    assert AllReady(k, log) by {
      SeriesIs(k, r, log);
    }
    GoodIsPlain(k, f);
    GrantedIsPlain(k, MainNames(f), log);
    forall n | n in Given(r, ns)
      ensures n !in TmpNames(Replay(f, log))
    {
      if n in TmpNames(Replay(f, log)) {
        FromRefused(k, r, f, log, ns, n);
      }
    }
  }

  lemma SeriesIs(k: Kind, r: Request, log: seq<Turn>)
    requires Series(k, r, log)
    ensures AllReady(k, log) && Ready(k, r)
  {
  }

  /** A run that does not fit in, after runs that all did, is given a name that is there. */
  lemma MisfitIsOld(k: Kind, r: Request, f: Files, log: seq<Turn>) returns (n: string)
    requires GoodFiles(k, f) && Series(k, r, log) && Fits(MainNames(f), TmpNames(f), log)
    requires !FitsAt(r, Granted(MainNames(f), log), TmpNames(f), log)
    ensures n in Given(r, Granted(MainNames(f), log)) && n in TmpNames(Replay(f, log))
  {
    hide GoodFiles, Series, Fits, Same, Ready, MainNames, TmpNames, TakeTurn, Given, AllReady;
    var ns, ts := Granted(MainNames(f), log), TmpNames(f);
    SeriesIs(k, r, log);
    if m :| m in Given(r, ns) && m in ts {
      NamesStay(k, f, log);
      n := m;
    } else {
      FirstRefusal(k, r, f, log);
      n := Head(r, ns + ts);
    }
  }

  lemma TwiceIsNotDistinct(a: seq<string>, b: seq<string>, n: string)
    requires n in a && n in b
    ensures !Distinct(a + b)
  {
    var i :| 0 <= i < |a| && a[i] == n;
    var j :| 0 <= j < |b| && b[j] == n;
    assert (a + b)[i] == (a + b)[|a| + j];
  }

  /** What is repeated stays repeated. */
  lemma RepeatedStays(k: Kind, f: Files, t: Turn)
    requires GoodFiles(k, f) && Ready(k, t.req) && !Distinct(AllNames(f))
    ensures !Distinct(AllNames(TakeTurn(f, t)))
  {
    hide GoodFiles, Ready, MainNames, TmpNames, Given, Distinct, TakeTurn;
    TurnGives(k, f, t);
    var a, b := MainNames(f), TmpNames(f);
    assert a + [] == a && b + [] == b;
    if Distinct(AllNames(TakeTurn(f, t))) {
      if t.writeable {
        DistinctPart(a, Given(t.req, a), b, []);
      } else {
        DistinctPart(a, [], b, Given(t.req, AllNames(f)));
      }
    }
  }

  /** If some run does not fit in, a name is given out twice. */
  lemma {:induction false} ReversionCollides(k: Kind, r: Request, f: Files, log: seq<Turn>)
    requires GoodFiles(k, f) && Series(k, r, log) && !Fits(MainNames(f), TmpNames(f), log)
    ensures !Distinct(AllNames(Replay(f, log)))
  {
    hide GoodFiles, Series, FitsAt, Same, Ready, MainNames, TmpNames, TakeTurn, Given, AllReady, Distinct;
    var front, t := log[..|log| - 1], log[|log| - 1];
    var g := Replay(f, front);
    FitsFront(MainNames(f), TmpNames(f), log);
    SeriesFront(k, r, log);
    ReplayIsGood(k, f, front);
    if !Fits(MainNames(f), TmpNames(f), front) {
      ReversionCollides(k, r, f, front);
      RepeatedStays(k, g, t);
    } else {
      SeriesOf(k, r, t.req, front);
      var n := MisfitIsOld(k, t.req, f, front);
      MainIsGranted(k, f, front);
      TurnGives(k, g, t);
      TwiceIsNotDistinct(MainNames(TakeTurn(g, t)), TmpNames(TakeTurn(g, t)), n);
    }
  }

  lemma SeriesOf(k: Kind, r: Request, a: Request, log: seq<Turn>)
    requires Series(k, r, log) && Ready(k, a) && Same(a, r)
    ensures Series(k, a, log)
  {
  }

  lemma FittingLines(k: Kind, f: Files, log: seq<Turn>, t: Turn)
    requires GoodFiles(k, f) && Series(k, t.req, log) && t.writeable
    requires FitsAt(t.req, Granted(MainNames(f), log), TmpNames(f), log)
    ensures AvoidsTmp(Replay(f, log), t)
  {
    hide GoodFiles, Series, FitsAt, Ready, TmpNames, Given, AllReady, Granted, LinesOf, Names;
    var g := Replay(f, log);
    SeriesIs(k, t.req, log);
    ReplayIsGood(k, f, log);
    FittingIsNew(k, t.req, f, log);
    MainIsGranted(k, f, log);
    LinesAreGiven(k, g, t);
  }

  /** If every run fits in, the files stay sound. */
  lemma {:induction false} FittingIsSound(k: Kind, r: Request, f: Files, log: seq<Turn>)
    requires Sound(k, f) && Series(k, r, log) && Fits(MainNames(f), TmpNames(f), log)
    ensures Sound(k, Replay(f, log))
  {
    hide Sound, Series, Fits, FitsAt, Same, Ready, MainNames, TmpNames, TakeTurn, Given, AllReady, GoodFiles, Ordinary;
    hide Granted, AvoidsTmp;
    if log != [] {
      var front, t := log[..|log| - 1], log[|log| - 1];
      FitsFront(MainNames(f), TmpNames(f), log);
      SeriesFront(k, r, log);
      SoundIsGood(k, f);
      FittingIsSound(k, r, f, front);
      ReadyIsOrdinary(k, t.req);
      if t.writeable {
        SeriesOf(k, r, t.req, front);
        FittingLines(k, f, front, t);
      }
      TurnKeepsSound(k, Replay(f, front), t);
    }
  }

  lemma SoundIsGood(k: Kind, f: Files)
    requires Sound(k, f)
    ensures GoodFiles(k, f)
  {
  }

  lemma ReadyIsOrdinary(k: Kind, r: Request)
    requires Ready(k, r)
    ensures Ordinary(k, r)
  {
  }

  /**
   The exact condition. From any sound files, runs that compete for the same names leave
   all names distinct if and only if every run that finds the directory writeable fits in.
   */
  lemma UniqueExactly(k: Kind, r: Request, f: Files, log: seq<Turn>)
    requires Sound(k, f) && Series(k, r, log)
    ensures Distinct(AllNames(Replay(f, log))) <==> Fits(MainNames(f), TmpNames(f), log)
  {
    hide Series, Fits, Replay, GoodLines;
    if Fits(MainNames(f), TmpNames(f), log) {
      FittingIsSound(k, r, f, log);
    } else {
      ReversionCollides(k, r, f, log);
    }
  }
}

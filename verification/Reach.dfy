/**
 The exact condition in plain terms: numbers for optical drives, files whose temporary part
 is behind, files whose temporary part is out of reach, and sequences of answers.
 */
module Reach {
  import opened Text
  import opened Rules
  import opened Scripts
  import opened Turns
  import opened Serial
  import opened Reversion

  // ---------- write_cd_rules, in numbers ----------

  function WriteableCount(log: seq<Turn>): nat {
    if log == [] then 0
    else WriteableCount(log[..|log| - 1]) + (if log[|log| - 1].writeable then 1 else 0)
  }

  /** Every number from `lo` up to `hi` has its cdrom link. */
  predicate Gapless(ns: seq<string>, lo: nat, hi: nat) {
    forall x :: lo <= x < hi ==> CdName(x) in ns
  }

  lemma GaplessMore(ns: seq<string>, more: seq<string>, lo: nat, hi: nat)
    requires Gapless(ns, lo, hi) && CdName(hi) in more
    ensures Gapless(ns + more, lo, hi + 1)
  {
    forall x | lo <= x < hi + 1
      ensures CdName(x) in ns + more
    {
      assert x < hi ==> CdName(x) in ns;
    }
  }

  /** The granted runs are given the numbers from the next one on, one each. */
  lemma {:induction false} GrantedNumbers(ns: seq<string>, log: seq<Turn>)
    requires AllReady(CdKind, log)
    ensures var m := Granted(ns, log);
      NextCd(m) == NextCd(ns) + WriteableCount(log) && Gapless(m, NextCd(ns), NextCd(m))
  {
    hide NextCd, Ready, LinksOf, Gapless;
    if log != [] {
      var front, t := log[..|log| - 1], log[|log| - 1];
      var m := Granted(ns, front);
      GrantedNumbers(ns, front);
      if t.writeable {
        IsCd(t.req);
        NextAfterLinks(m, t.req.cd);
        HeadIsFirst(t.req, m);
        GaplessMore(m, Given(t.req, m), NextCd(ns), NextCd(m));
      }
    } else {
      GaplessNone(ns, NextCd(ns));
    }
  }

  lemma GaplessNone(ns: seq<string>, n: nat)
    ensures Gapless(ns, n, n)
  {
  }

  lemma IsCd(r: Request)
    requires Ready(CdKind, r)
    ensures r.Cd?
  {
  }

  lemma HeadIsFirst(r: Request, ns: seq<string>)
    requires r.Cd?
    ensures CdName(NextCd(ns)) in Given(r, ns)
  {
    hide NextCd, LinkSuffix;
    assert Given(r, ns)[0] == CdName(NextCd(ns));
  }

  /** The rules file proper receives the numbers from the next one on, without a gap. */
  lemma MainNumbers(f: Files, log: seq<Turn>)
    requires GoodFiles(CdKind, f) && AllReady(CdKind, log)
    ensures var ns, n := MainNames(Replay(f, log)), NextCd(MainNames(f));
      NextCd(ns) == n + WriteableCount(log) && Gapless(ns, n, NextCd(ns))
  {
    hide Gapless, NextCd, GoodFiles;
    MainIsGranted(CdKind, f, log);
    GrantedNumbers(MainNames(f), log);
  }

  /**
   Run `j` gets the number after those of the granted runs before it: none of its links
   may be left in the temporary file, and once the number reaches the next one of the
   temporary file, no run before it may have been refused.
   */
  predicate CdFitsAt(f: Files, log: seq<Turn>, j: nat)
    requires j < |log| && log[j].req.Cd?
  {
    var x := NextCd(MainNames(f)) + WriteableCount(log[..j]);
    && (forall l :: l in LinksOf(log[j].req.cd, x) ==> l !in TmpNames(f))
    && (x >= NextCd(TmpNames(f)) ==> AllGranted(log[..j]))
  }

  predicate CdFits(f: Files, log: seq<Turn>) {
    forall j :: 0 <= j < |log| && log[j].writeable ==> log[j].req.Cd? && CdFitsAt(f, log, j)
  }

  lemma GivenByNumber(r: Request, ns: seq<string>, ts: seq<string>)
    requires r.Cd?
    ensures Given(r, ns + ts) == Given(r, ns) <==> NextCd(ns) >= NextCd(ts)
  {
    hide NextOf, LinksOf, IsLink;
    NextOfConcat("cdrom", ns, ts);
    if Given(r, ns + ts) == Given(r, ns) {
      NumbersGiven(r, ns, Given(r, ns)[0]);
      NumbersGiven(r, ns + ts, Given(r, ns)[0]);
    }
  }

  lemma CdFitsIsAt(f: Files, log: seq<Turn>, j: nat)
    requires j < |log| && AllReady(CdKind, log) && log[j].req.Cd?
    ensures CdFitsAt(f, log, j) <==> FitsAt(log[j].req, Granted(MainNames(f), log[..j]), TmpNames(f), log[..j])
  {
    hide NextCd, LinksOf, Ready, WriteableCount, MainNames, TmpNames;
    GrantedNumbers(MainNames(f), log[..j]);
    GivenByNumber(log[j].req, Granted(MainNames(f), log[..j]), TmpNames(f));
  }

  lemma CdFitsIs(f: Files, log: seq<Turn>)
    requires AllReady(CdKind, log)
    ensures CdFits(f, log) <==> Fits(MainNames(f), TmpNames(f), log)
  {
    hide CdFitsAt, FitsAt, Ready, MainNames, TmpNames, Granted;
    forall j | 0 <= j < |log|
      ensures log[j].req.Cd?
      ensures CdFitsAt(f, log, j) <==> FitsAt(log[j].req, Granted(MainNames(f), log[..j]), TmpNames(f), log[..j])
    {
      IsCd(log[j].req);
      CdFitsIsAt(f, log, j);
    }
  }

  lemma CdSeries(log: seq<Turn>)
    requires AllReady(CdKind, log) && log != []
    ensures Series(CdKind, log[0].req, log)
  {
    forall i | 0 <= i < |log|
      ensures Same(log[i].req, log[0].req)
    {
      IsCd(log[i].req);
      IsCd(log[0].req);
    }
  }

  /** Any serial execution of write_cd_rules, from any sound files: the exact condition. */
  lemma CdUniqueExactly(f: Files, log: seq<Turn>)
    requires Sound(CdKind, f) && AllReady(CdKind, log)
    ensures Distinct(AllNames(Replay(f, log))) <==> CdFits(f, log)
  {
    hide Series, Fits, GoodLines, AllReady, CdFitsAt, Ready, TakeTurn;
    if log != [] {
      CdSeries(log);
      UniqueExactly(CdKind, log[0].req, f, log);
      CdFitsIs(f, log);
    }
  }

  // ---------- a temporary file that is behind ----------

  /** Seeing the names of the temporary file makes no difference to a run of `r`, now or later. */
  predicate Behind(r: Request, ns: seq<string>, ts: seq<string>) {
    match r
    case Net(q) => NextOf(Stem(q.iface), ts) <= NextOf(Stem(q.iface), ns) && (Taken(q.iface, ts) ==> Taken(q.iface, ns))
    case Cd(_) => NextCd(ts) <= NextCd(ns)
  }

  lemma NothingIsBehind(r: Request, ns: seq<string>)
    ensures Behind(r, ns, [])
  {
  }

  lemma BehindMore(r: Request, ns: seq<string>, ts: seq<string>, more: seq<string>)
    requires Behind(r, ns, ts) && Within(ns, more)
    ensures Behind(r, more, ts)
  {
    hide NextOf, Taken, Stem;
    match r
    case Net(q) =>
      NextOfWithin(Stem(q.iface), ns, more);
      if Taken(q.iface, ns) {
        TakenWithin(q.iface, ns, more);
      }
    case Cd(_) => NextOfWithin("cdrom", ns, more);
  }

  lemma BehindNow(k: Kind, r: Request, ns: seq<string>, ts: seq<string>)
    requires Ready(k, r) && Behind(r, ns, ts) && PlainNames(ns) && (k == CdKind ==> Covered(ts))
    ensures Given(r, ns + ts) == Given(r, ns) && forall n :: n in Given(r, ns) ==> n !in ts
  {
    match k
    case NetKind => NetBehindNow(r.net.iface, ns, ts);
    case CdKind =>
      hide NextOf, LinksOf, InFamily, InCdFamily;
      GivenByNumber(r, ns, ts);
      NumbersBelowNext(ts);
      forall n | n in Given(r, ns)
        ensures n !in ts
      {
        NumbersGiven(r, ns, n);
      }
  }

  lemma NetBehindNow(iface: string, ns: seq<string>, ts: seq<string>)
    requires KernelName(iface)
    requires NextOf(Stem(iface), ts) <= NextOf(Stem(iface), ns) && (Taken(iface, ts) ==> Taken(iface, ns))
    ensures NetChoice(iface, ns + ts) == NetChoice(iface, ns) && NetChoice(iface, ns) !in ts
  {
    hide NextOf, Taken, Stem, InFamily, PlainName, PlainNumber, KernelName;
    var b := Stem(iface);
    NextOfConcat(b, ns, ts);
    TakenConcat(iface, ns, ts);
    TakenIfUsed(iface, ts);
    StemIsPlain(iface);
    NumberedName(b, NextOf(b, ns));
    NextOfBounds(b, ts);
  }

  lemma {:induction false} GrantedGrows(ns: seq<string>, log: seq<Turn>)
    ensures Within(ns, Granted(ns, log))
  {
    hide Given;
    if log != [] {
      GrantedGrows(ns, log[..|log| - 1]);
    }
  }

  lemma BehindFits(k: Kind, r: Request, ns: seq<string>, ts: seq<string>, log: seq<Turn>)
    requires Series(k, r, log) && Behind(r, ns, ts) && PlainNames(ns) && (k == CdKind ==> Covered(ts))
    ensures Fits(ns, ts, log) <==> NoReversion(log)
  {
    hide Behind, Given, Granted, Ready, PlainNames, Covered, Same;
    forall j | 0 <= j < |log|
      ensures FitsAt(log[j].req, Granted(ns, log[..j]), ts, log[..j]) <==> AllGranted(log[..j])
    {
      GrantedIsPlain(k, ns, log[..j]);
      GrantedGrows(ns, log[..j]);
      BehindSame(k, log[j].req, r, ns, ts);
      BehindMore(log[j].req, ns, ts, Granted(ns, log[..j]));
      BehindNow(k, log[j].req, Granted(ns, log[..j]), ts);
    }
    GrantedBefore(log);
  }

  lemma BehindSame(k: Kind, a: Request, b: Request, ns: seq<string>, ts: seq<string>)
    requires Same(a, b)
    ensures Behind(a, ns, ts) <==> Behind(b, ns, ts)
  {
  }

  lemma GrantedBefore(log: seq<Turn>)
    ensures NoReversion(log) <==> forall j :: 0 <= j < |log| && log[j].writeable ==> AllGranted(log[..j])
  {
    if forall j :: 0 <= j < |log| && log[j].writeable ==> AllGranted(log[..j]) {
      forall i, j | 0 <= i < j < |log| && log[j].writeable
        ensures log[i].writeable
      {
        assert AllGranted(log[..j]) && log[..j][i] == log[i];
      }
    }
  }

  /**
   If the temporary file is behind, as it is when it holds no rule, runs that compete for
   the same names leave all names distinct if and only if the directory is never found
   writeable again after it was found not writeable.
   */
  lemma BehindUniqueExactly(k: Kind, r: Request, f: Files, log: seq<Turn>)
    requires Sound(k, f) && Series(k, r, log) && Behind(r, MainNames(f), TmpNames(f))
    ensures Distinct(AllNames(Replay(f, log))) <==> NoReversion(log)
  {
    hide Series, Fits, Replay, Behind, NoReversion;
    GoodIsPlain(k, f);
    UniqueExactly(k, r, f, log);
    BehindFits(k, r, MainNames(f), TmpNames(f), log);
  }

  // ---------- a temporary file out of reach ----------

  /** A drive that gets a link of every family. */
  const EVERY := CdRequest("d", "1", "", "p", "", "", "", true, true, true, true, true, true)

  /** An interface with this name and a match. */
  function ForName(n: string): NetRequest {
    NetRequest(n, "", "a", "", "", "", "", "")
  }

  function Times(r: Request, n: nat): (log: seq<Turn>)
    ensures |log| == n && AllGranted(log) && forall i :: 0 <= i < n ==> log[i].req == r
  {
    if n == 0 then [] else Times(r, n - 1) + [Turn(0, r, true)]
  }

  lemma EveryIsReady()
    ensures Ready(CdKind, Cd(EVERY))
  {
    assert CdKeys(EVERY) == Some(PATH + "p" + "\"");
  }

  lemma ForNameIsReady(n: string)
    requires KernelName(n)
    ensures Ready(NetKind, Net(ForName(n)))
  {
    hide KernelName;
    StemIsPart(n);
    assert n != "";
    assert Clause(ADDR, "a") != "";
  }

  lemma StemIsPart(n: string)
    requires KernelName(n)
    ensures n != ""
  {
  }

  lemma TimesIsSeries(k: Kind, r: Request, n: nat)
    requires Ready(k, r)
    ensures Series(k, r, Times(r, n))
  {
  }

  lemma {:induction false} TimesCount(r: Request, n: nat)
    ensures WriteableCount(Times(r, n)) == n
  {
    if n > 0 {
      TimesCount(r, n - 1);
      assert Times(r, n)[..n - 1] == Times(r, n - 1);
    }
  }

  lemma {:induction false} TimesPrefix(r: Request, n: nat, m: nat)
    requires m <= n
    ensures Times(r, n)[..m] == Times(r, m)
  {
    if m < n {
      TimesPrefix(r, n - 1, m);
      assert Times(r, n)[..m] == Times(r, n - 1)[..m];
    }
  }

  /** A name that can be reached is reached, by enough runs of one request. */
  lemma Reached(k: Kind, f: Files, n: string) returns (r: Request, m: nat)
    requires GoodFiles(k, f) && n in TmpNames(f) && Obtainable(k, MainNames(f), n)
    ensures Ready(k, r) && !Fits(MainNames(f), TmpNames(f), Times(r, m))
  {
    hide GoodFiles, MainNames, TmpNames, Ready, FitsAt, Granted, Stem, Numbered, PlainName, PlainNumber;
    match k
    case NetKind =>
      r, m := Net(ForName(n)), 1;
      ForNameIsReady(n);
      MisfitsFirst(r, MainNames(f), TmpNames(f), n);
    case CdKind =>
      r, m := Cd(EVERY), NumberOf(n) - NextCd(MainNames(f)) + 1;
      EveryIsReady();
      MisfitsLast(MainNames(f), TmpNames(f), n, m - 1);
  }

  lemma MisfitsFirst(r: Request, ns: seq<string>, ts: seq<string>, n: string)
    requires r == Net(ForName(n)) && n in ts && !Taken(n, ns)
    ensures !Fits(ns, ts, Times(r, 1))
  {
    var log := Times(r, 1);
    assert log[..0] == [] && log[0].writeable && Granted(ns, log[..0]) == ns;
    assert n in Given(r, ns);
  }

  /** Enough runs for all families give out the link `n`. */
  lemma Arrives(ns: seq<string>, n: string, m: nat)
    requires IsLink(n) && NumberOf(n) == NextCd(ns) + m
    ensures n in Given(Cd(EVERY), Granted(ns, Times(Cd(EVERY), m)))
  {
    hide Ready, NextCd, Gapless, LinksOf, Granted, WriteableCount;
    var r := Cd(EVERY);
    EveryIsReady();
    TimesCount(r, m);
    GrantedNumbers(ns, Times(r, m));
    EveryFamily(n);
  }

  lemma MisfitsLast(ns: seq<string>, ts: seq<string>, n: string, m: nat)
    requires n in ts && IsLink(n) && NumberOf(n) == NextCd(ns) + m
    ensures !Fits(ns, ts, Times(Cd(EVERY), m + 1))
  {
    hide NextCd, IsLink, LinksOf, Granted, Given;
    var r := Cd(EVERY);
    var log := Times(r, m + 1);
    Arrives(ns, n, m);
    TimesPrefix(r, m + 1, m);
    assert log[m].writeable && log[m].req == r && !FitsAt(r, Granted(ns, log[..m]), ts, log[..m]);
  }

  lemma EveryFamily(n: string)
    requires IsLink(n)
    ensures n in LinksOf(EVERY, NumberOf(n))
  {
    hide LinkSuffix, NumberOf;
    StemsDiffer();
    var s := LinkSuffix(NumberOf(n));
    var links := LinksOf(EVERY, NumberOf(n));
    assert links == ["cdrom" + s, "cdrw" + s, "dvd" + s, "dvdrw" + s];
    assert links[0] == "cdrom" + s && links[1] == "cdrw" + s && links[2] == "dvd" + s && links[3] == "dvdrw" + s;
  }

  /**
   With the directory writeable throughout, whatever requests come leave all names
   distinct if and only if every name left in the temporary file is out of reach.
   */
  lemma OutOfReachExactly(k: Kind, f: Files)
    requires Sound(k, f)
    ensures (forall log :: AllOrdinary(k, log) && AllGranted(log) ==> Distinct(AllNames(Replay(f, log))))
      <==> OutOfReach(k, f)
  {
    hide Sound, AllOrdinary, Replay, Obtainable, Distinct;
    if OutOfReach(k, f) {
      forall log | AllOrdinary(k, log) && AllGranted(log)
        ensures Distinct(AllNames(Replay(f, log)))
      {
        SoundIfReachSafe(k, f, log);
      }
    } else {
      var n :| n in TmpNames(f) && Obtainable(k, MainNames(f), n);
      SoundIsGood(k, f);
      var r, m := Reached(k, f, n);
      TimesIsSeries(k, r, m);
      ReversionCollides(k, r, f, Times(r, m));
      SeriesIsOrdinary(k, r, Times(r, m));
    }
  }

  lemma SoundIfReachSafe(k: Kind, f: Files, log: seq<Turn>)
    requires Sound(k, f) && AllOrdinary(k, log) && NoReversion(log) && ReachSafe(k, f, log)
    ensures Distinct(AllNames(Replay(f, log)))
  {
    hide AllOrdinary, NoReversion, ReachSafe, Replay;
    ReplayIsSound(k, f, log);
  }

  lemma SeriesIsOrdinary(k: Kind, r: Request, log: seq<Turn>)
    requires Series(k, r, log)
    ensures AllOrdinary(k, log)
  {
  }

  /** A temporary file with one rule, beside no rules file. */
  const LEFTOVER := Files(None, Some([CdRule("K", "cdrom")]))

  lemma LeftoverNames()
    ensures MainNames(LEFTOVER) == [] && TmpNames(LEFTOVER) == ["cdrom"] && AllNames(LEFTOVER) == ["cdrom"]
  {
    OneName(CdRule("K", "cdrom"));
  }

  lemma CdromIsLink()
    ensures IsLink("cdrom") && IsCdrom("cdrom") && NumberOf("cdrom") == 0
    ensures PlainName("cdrom") && PlainNumber("cdrom")
  {
    hide PlainName, PlainNumber, NumberOf, Numbered;
    assert FAMILIES[0] == "cdrom";
    LinkIs("cdrom", 0);
    assert "cdrom" + LinkSuffix(0) == "cdrom";
  }

  /**
   Rules left in the temporary file of a directory that is writeable again: distinct names
   to start with, and one of them within reach.
   */
  lemma LeftoverInput()
    ensures Sound(CdKind, LEFTOVER) && !OutOfReach(CdKind, LEFTOVER)
  {
    hide PlainName, PlainNumber, NumberOf, Numbered, Stem, IsLink, Names;
    LeftoverNames();
    CdromIsLink();
    assert NextCd([]) == 0 && "cdrom" in TmpNames(LEFTOVER);
    LeftoverIsValid();
    assert ["cdrom"][0] == "cdrom";
  }

  lemma LeftoverIsValid()
    ensures ValidLines(CdKind, Content(LEFTOVER.tmp)) && ValidLines(CdKind, Content(LEFTOVER.main))
  {
    assert Clean("K", 'S');
  }

  // ---------- links whose number no cdrom link has ----------

  /** Every link of either file has a number below the next one. */
  predicate NoneBeyond(f: Files) {
    forall n :: n in AllNames(f) && IsLink(n) ==> NumberOf(n) < NextCd(MainNames(f))
  }

  lemma BelowStays(f: Files, t: Turn)
    requires GoodFiles(CdKind, f) && Distinct(AllNames(f)) && NoneBeyond(f) && Ready(CdKind, t.req) && t.writeable
    ensures var g := TakeTurn(f, t); GoodFiles(CdKind, g) && Distinct(AllNames(g)) && NoneBeyond(g)
  {
    hide GoodFiles, Ready, TakeTurn, MainNames, TmpNames, LinksOf, NextCd, IsLink, Distinct;
    IsCd(t.req);
    var ns, ts := MainNames(f), TmpNames(f);
    var k := NextCd(ns);
    var links := LinksOf(t.req.cd, k);
    TurnGives(CdKind, f, t);
    LinksAreNew(t.req.cd, k, ns + ts);
    DistinctInsert(ns, ts, links);
    NextAfterLinks(ns, t.req.cd);
  }

  lemma LinksAreNew(r: CdRequest, k: nat, ns: seq<string>)
    requires forall n :: n in ns && IsLink(n) ==> NumberOf(n) < k
    ensures var links := LinksOf(r, k);
      Distinct(links) && forall l :: l in links ==> l !in ns && IsLink(l) && NumberOf(l) == k
  {
    hide LinksOf, IsLink;
    LinksShape(r, k);
  }

  lemma {:induction false} BelowIsUnique(f: Files, log: seq<Turn>)
    requires GoodFiles(CdKind, f) && Distinct(AllNames(f)) && NoneBeyond(f)
    requires AllOrdinary(CdKind, log) && AllGranted(log)
    ensures var g := Replay(f, log); GoodFiles(CdKind, g) && Distinct(AllNames(g)) && NoneBeyond(g)
  {
    hide GoodFiles, Ordinary, Ready, TakeTurn, AllNames, NoneBeyond, Distinct;
    if log != [] {
      var t := log[|log| - 1];
      BelowIsUnique(f, log[..|log| - 1]);
      var g := Replay(f, log[..|log| - 1]);
      if Ready(CdKind, t.req) {
        BelowStays(g, t);
      } else {
        IdleTurn(g, t);
      }
    }
  }

  lemma IdleTurn(f: Files, t: Turn)
    requires Ordinary(CdKind, t.req) && !Ready(CdKind, t.req)
    ensures TakeTurn(f, t) == f
  {
    AppendNothing(f, t.writeable);
  }

  /** A number beyond, in either file, is reached and its link given out again. */
  lemma BeyondCollides(f: Files, n: string) returns (log: seq<Turn>)
    requires GoodFiles(CdKind, f) && n in AllNames(f) && IsLink(n) && NumberOf(n) >= NextCd(MainNames(f))
    ensures AllOrdinary(CdKind, log) && AllGranted(log) && !Distinct(AllNames(Replay(f, log)))
  {
    hide GoodFiles, Ready, MainNames, TmpNames, Fits, Distinct, NextCd, Replay;
    var r, m := Cd(EVERY), NumberOf(n) - NextCd(MainNames(f));
    log := Times(r, m + 1);
    EveryIsReady();
    TimesIsSeries(CdKind, r, m + 1);
    SeriesIsOrdinary(CdKind, r, log);
    if n in TmpNames(f) {
      MisfitsLast(MainNames(f), TmpNames(f), n, m);
      ReversionCollides(CdKind, r, f, log);
    } else {
      GivenAgain(f, n, m);
    }
  }

  lemma GivenAgain(f: Files, n: string, m: nat)
    requires GoodFiles(CdKind, f) && n in MainNames(f) && IsLink(n) && NumberOf(n) == NextCd(MainNames(f)) + m
    ensures !Distinct(AllNames(Replay(f, Times(Cd(EVERY), m + 1))))
  {
    hide GoodFiles, Ready, MainNames, TmpNames, Distinct, NextCd, IsLink, Given, Replay;
    var r, log := Cd(EVERY), Times(Cd(EVERY), m + 1);
    EveryIsReady();
    TimesPrefix(r, m + 1, m);
    TimesIsSeries(CdKind, r, m + 1);
    SeriesIs(CdKind, r, log);
    GrantedGrows(MainNames(f), Times(r, m));
    Arrives(MainNames(f), n, m);
    MainIsGranted(CdKind, f, log);
    var g := Granted(MainNames(f), Times(r, m));
    TwiceIsNotDistinct(g, Given(r, g), n);
    if Distinct(AllNames(Replay(f, log))) {
      DistinctSplit(MainNames(Replay(f, log)), TmpNames(Replay(f, log)));
    }
  }

  /**
   For drives and a directory writeable throughout, without asking that numbers are covered:
   from any files of the generators' own form whose names are distinct, all requests keep
   them so if and only if every link of either file has a number below the next one.
   */
  lemma NoneBeyondExactly(f: Files)
    requires GoodFiles(CdKind, f) && Distinct(AllNames(f))
    ensures (forall log :: AllOrdinary(CdKind, log) && AllGranted(log) ==> Distinct(AllNames(Replay(f, log))))
      <==> NoneBeyond(f)
  {
    hide GoodFiles, AllOrdinary, AllNames, Replay, Distinct, NextCd;
    if NoneBeyond(f) {
      forall log | AllOrdinary(CdKind, log) && AllGranted(log)
        ensures Distinct(AllNames(Replay(f, log)))
      {
        BelowIsUnique(f, log);
      }
    } else {
      var n :| n in AllNames(f) && IsLink(n) && NumberOf(n) >= NextCd(MainNames(f));
      var log := BeyondCollides(f, n);
    }
  }

  // ---------- sequences of answers ----------

  /** The answers the runs get about the directory. */
  predicate Answered(log: seq<Turn>, ws: seq<bool>) {
    |log| == |ws| && forall i :: 0 <= i < |ws| ==> log[i].writeable == ws[i]
  }

  predicate NeverReverts(ws: seq<bool>) {
    forall i, j :: 0 <= i < j < |ws| && ws[j] ==> ws[i]
  }

  function Answering(r: Request, ws: seq<bool>): (log: seq<Turn>)
    ensures Answered(log, ws) && forall i :: 0 <= i < |log| ==> log[i].req == r
  {
    if ws == [] then [] else Answering(r, ws[..|ws| - 1]) + [Turn(0, r, ws[|ws| - 1])]
  }

  lemma AnsweringFront(r: Request, ws: seq<bool>, j: nat)
    requires j < |ws|
    ensures Answering(r, ws[..j + 1]) == Answering(r, ws[..j]) + [Turn(0, r, ws[j])]
  {
    assert ws[..j + 1][..j] == ws[..j];
  }

  function Trues(n: nat): (ws: seq<bool>)
    ensures |ws| == n && forall i :: 0 <= i < n ==> ws[i]
  {
    if n == 0 then [] else Trues(n - 1) + [true]
  }

  lemma {:induction false} TimesIsAnswering(r: Request, n: nat)
    ensures Times(r, n) == Answering(r, Trues(n))
  {
    if n > 0 {
      TimesIsAnswering(r, n - 1);
      assert Trues(n)[..n - 1] == Trues(n - 1);
    }
  }

  /** `n` times the letter a. */
  function Letters(n: nat): (s: string)
    ensures |s| == n && forall i :: 0 <= i < n ==> s[i] == 'a'
  {
    if n == 0 then "" else Letters(n - 1) + "a"
  }

  /** An interface name longer than all names in use. */
  lemma {:induction false} Longer(ns: seq<string>) returns (n: nat)
    ensures n > 0 && forall x :: x in ns ==> |x| < n
  {
    if ns == [] {
      n := 1;
    } else {
      n := Longer(ns[..|ns| - 1]);
      n := Max(n, |ns[|ns| - 1]| + 1);
      assert forall x :: x in ns ==> x in ns[..|ns| - 1] || x == ns[|ns| - 1];
    }
  }

  lemma LettersAreName(n: nat)
    requires n > 0
    ensures KernelName(Letters(n)) && Stem(Letters(n)) == Letters(n)
  {
    var s := Letters(n);
    StemIs(s, s);
    assert s[|s|..] == "";
  }

  /** Nothing in use is taken for a name longer than all of it, or for one of its family. */
  lemma LongIsBehind(n: nat, ns: seq<string>, ts: seq<string>)
    requires n > 0 && forall x :: x in ts ==> |x| < n
    ensures Behind(Net(ForName(Letters(n))), ns, ts)
  {
    var s := Letters(n);
    LettersAreName(n);
    NextOfBounds(s, ts);
    NoneOfTheLength(s, ts);
  }

  lemma {:induction false} NoneOfTheLength(s: string, ts: seq<string>)
    requires forall x :: x in ts ==> |x| < |s|
    ensures !Taken(s, ts)
  {
    if ts != [] {
      NoneOfTheLength(s, ts[..|ts| - 1]);
    }
  }

  /**
   For any given sequence of answers: whatever interfaces the runs of write_net_rules are
   for, all names stay distinct, if and only if the answers never revert and, unless all
   runs are refused, every name left in the temporary file is out of reach.
   */
  lemma NetAnswersExactly(f: Files, ws: seq<bool>)
    requires Sound(NetKind, f)
    ensures (forall log :: AllOrdinary(NetKind, log) && Answered(log, ws) ==> Distinct(AllNames(Replay(f, log))))
      <==> NeverReverts(ws) && (true in ws ==> OutOfReach(NetKind, f))
  {
    hide Sound, AllOrdinary, Replay, OutOfReach, Distinct;
    if NeverReverts(ws) && (true in ws ==> OutOfReach(NetKind, f)) {
      forall log | AllOrdinary(NetKind, log) && Answered(log, ws)
        ensures Distinct(AllNames(Replay(f, log)))
      {
        SoundIfReachSafe(NetKind, f, log);
      }
    } else if !NeverReverts(ws) {
      var r := Reverting(f, ws);
    } else {
      var r := Reaching(f, ws);
    }
  }

  /** Whatever files and answers that revert: an interface for which they repeat a name. */
  lemma Reverting(f: Files, ws: seq<bool>) returns (r: Request)
    requires Sound(NetKind, f) && !NeverReverts(ws)
    ensures Ready(NetKind, r) && var log := Answering(r, ws);
      AllOrdinary(NetKind, log) && !Distinct(AllNames(Replay(f, log)))
  {
    hide Sound, Replay, Distinct, Behind, Ready;
    var n := Longer(TmpNames(f));
    r := Net(ForName(Letters(n)));
    var log := Answering(r, ws);
    LettersAreName(n);
    ForNameIsReady(Letters(n));
    LongIsBehind(n, MainNames(f), TmpNames(f));
    AnsweringIsSeries(NetKind, r, ws);
    SeriesIsOrdinary(NetKind, r, log);
    BehindUniqueExactly(NetKind, r, f, log);
  }

  lemma AnsweringIsSeries(k: Kind, r: Request, ws: seq<bool>)
    requires Ready(k, r)
    ensures Series(k, r, Answering(r, ws))
  {
  }

  lemma Reaching(f: Files, ws: seq<bool>) returns (r: Request)
    requires Sound(NetKind, f) && true in ws && !OutOfReach(NetKind, f)
    ensures Ready(NetKind, r) && var log := Answering(r, ws);
      AllOrdinary(NetKind, log) && !Distinct(AllNames(Replay(f, log)))
  {
    hide Sound, Replay, Distinct, Ready, KernelName, Taken, Given, GoodFiles;
    var n :| n in TmpNames(f) && Obtainable(NetKind, MainNames(f), n);
    r := Net(ForName(n));
    var log := Answering(r, ws);
    ForNameIsReady(n);
    AnsweringIsSeries(NetKind, r, ws);
    SeriesIsOrdinary(NetKind, r, log);
    SoundIsGood(NetKind, f);
    var j := FirstTrue(ws);
    NoneGranted(MainNames(f), log[..j]);
    NamesItself(n, MainNames(f));
    assert log[j].writeable && log[j].req == r && !FitsAt(r, MainNames(f), TmpNames(f), log[..j]);
    ReversionCollides(NetKind, r, f, log);
  }

  lemma NamesItself(n: string, ns: seq<string>)
    requires !Taken(n, ns)
    ensures n in Given(Net(ForName(n)), ns)
  {
  }

  function FirstTrue(ws: seq<bool>): (j: nat)
    requires true in ws
    ensures j < |ws| && ws[j] && forall i :: 0 <= i < j ==> !ws[i]
  {
    if ws[0] then 0 else 1 + FirstTrue(ws[1..])
  }

  lemma {:induction false} NoneGranted(ns: seq<string>, log: seq<Turn>)
    requires forall i :: 0 <= i < |log| ==> !log[i].writeable
    ensures Granted(ns, log) == ns
  {
    if log != [] {
      NoneGranted(ns, log[..|log| - 1]);
    }
  }
}

/**
 One run of a generator, alone, as a step on the files: the name it writes is fresh
 among the names it scanned.
 */
module Turns {
  import opened Text
  import opened Rules
  import opened Allocator
  import opened Scripts

  // ---------- families of names ----------

  function Rest(name: string): string {
    name[|Stem(name)|..]
  }

  /** The name is a stem followed by digits only. */
  predicate Numbered(name: string) {
    AllDigits(Rest(name))
  }

  function NumberOf(name: string): nat
    requires Numbered(name)
  {
    Value(Rest(name))
  }

  predicate DigitFree(b: string) {
    forall i :: 0 <= i < |b| ==> !IsDigit(b[i]) && b[i] != '.'
  }

  lemma {:induction false} StemIs(b: string, name: string)
    requires b <= name && forall i :: 0 <= i < |b| ==> !IsDigit(b[i])
    requires |b| < |name| ==> IsDigit(name[|b|])
    ensures Stem(name) == b
  {
    var s := Stem(name);
    assert forall i :: 0 <= i < |b| ==> name[i] == b[i];
    assert forall i :: 0 <= i < |s| ==> name[i] == s[i];
    assert b == name[..|b|] && s == name[..|s|];
  }

  /** `base[0-9]*` matches exactly the numbered names with that stem. */
  lemma FamilyIsStem(b: string, name: string)
    requires DigitFree(b)
    ensures InRe(Family(b), name) <==> Stem(name) == b && Numbered(name)
  {
    NoDots(b, name);
    if InRe(Family(b), name) {
      if |b| < |name| {
        assert name[|b|..][0] == name[|b|];
      }
      StemIs(b, name);
    }
  }

  lemma MemberOfFamily(b: string, name: string)
    requires DigitFree(b) && InRe(Family(b), name) && PlainName(name) && PlainNumber(name)
    ensures IsMember(b, name) && Numbered(name) && Number(b, name) == NumberOf(name)
    ensures name == b || Canonical(name[|b|..])
  {
    FamilyIsStem(b, name);
    assert name == b <==> Rest(name) == "";
  }

  lemma MakeName(b: string, n: string)
    requires PlainName(b) && DigitFree(b) && (n == "" || Canonical(n))
    ensures Stem(b + n) == b && Rest(b + n) == n && PlainName(b + n) && PlainNumber(b + n)
  {
    var name := b + n;
    assert name[|b|..] == n;
    StemIs(b, name);
    assert forall i :: 0 <= i < |n| ==> IsDigit(n[i]);
  }

  /** Every name is non-empty, free of separators and quotes, and without a leading zero in its number. */
  predicate PlainNames(ns: seq<string>) {
    forall n :: n in ns ==> PlainName(n) && PlainNumber(n)
  }

  lemma MatchingAreMembers(b: string, ns: seq<string>)
    requires PlainName(b) && DigitFree(b) && PlainNames(ns)
    ensures var used := Matching(Family(b), ns);
      && IsBase(b) && AllMembers(b, used) && AllCanonical(b, used)
      && (forall n :: n in used <==> n in ns && InFamily(b, n))
      && (forall n :: n in used ==> Number(b, n) == NumberOf(n))
  {
    hide PlainName, PlainNumber, InRe, Stem, Canonical, Numbered;
    var used := Matching(Family(b), ns);
    MatchingMembers(Family(b), ns);
    BaseIsBase(b);
    forall n | n in ns
      ensures n in used <==> InFamily(b, n)
      ensures n in used ==> IsMember(b, n) && Number(b, n) == NumberOf(n) && (n == b || Canonical(n[|b|..]))
    {
      FamilyIsStem(b, n);
      if n in used {
        MemberOfFamily(b, n);
      }
    }
  }

  lemma BaseIsBase(b: string)
    requires PlainName(b) && DigitFree(b)
    ensures IsBase(b)
  {
  }

  // ---------- the next number of a family ----------

  predicate InFamily(b: string, n: string) {
    Stem(n) == b && Numbered(n)
  }

  /** One more than the largest number in use in the family of `b`, and 0 when there is none. */
  function NextOf(b: string, ns: seq<string>): nat {
    if ns == [] then 0
    else
      var n, last := NextOf(b, ns[..|ns| - 1]), ns[|ns| - 1];
      if InFamily(b, last) && NumberOf(last) >= n then NumberOf(last) + 1 else n
  }

  lemma {:induction false} NextOfBounds(b: string, ns: seq<string>)
    ensures forall n :: n in ns && InFamily(b, n) ==> NumberOf(n) < NextOf(b, ns)
    ensures NextOf(b, ns) > 0 ==> exists n :: n in ns && InFamily(b, n) && NumberOf(n) == NextOf(b, ns) - 1
  {
    if ns != [] {
      NextOfBounds(b, ns[..|ns| - 1]);
      assert ns == ns[..|ns| - 1] + [ns[|ns| - 1]];
    }
  }

  lemma NextOfIs(b: string, ns: seq<string>, m: nat)
    requires forall n :: n in ns && InFamily(b, n) ==> NumberOf(n) < m
    requires m > 0 ==> exists n :: n in ns && InFamily(b, n) && NumberOf(n) == m - 1
    ensures NextOf(b, ns) == m
  {
    NextOfBounds(b, ns);
  }

  /** The next number of two lists together is the larger one. */
  lemma NextOfConcat(b: string, x: seq<string>, y: seq<string>)
    ensures NextOf(b, x + y) == Max(NextOf(b, x), NextOf(b, y))
  {
    hide InFamily;
    NextOfBounds(b, x);
    NextOfBounds(b, y);
    NextOfIs(b, x + y, Max(NextOf(b, x), NextOf(b, y)));
  }

  lemma NextOfWithin(b: string, x: seq<string>, y: seq<string>)
    requires Within(x, y)
    ensures NextOf(b, x) <= NextOf(b, y)
  {
    NextOfBounds(b, x);
    NextOfBounds(b, y);
  }

  function LinkSuffix(n: nat): string {
    if n == 0 then "" else Dec(n)
  }

  /** The name made of a stem and a number, and back. */
  lemma NumberedName(b: string, n: nat)
    requires PlainName(b) && DigitFree(b)
    ensures var l := b + LinkSuffix(n);
      InFamily(b, l) && NumberOf(l) == n && PlainName(l) && PlainNumber(l)
  {
    ValueOfDec(n);
    DecCanonical(n);
    assert Value("") == 0;
    MakeName(b, LinkSuffix(n));
  }

  /** The allocator, asked for `base[0-9]*`, returns the next number of the family. */
  lemma AllocatesNext(b: string, ns: seq<string>)
    requires PlainName(b) && DigitFree(b) && PlainNames(ns)
    ensures NextAvailable(Join(Matching(Family(b), ns))) == Some(LinkSuffix(NextOf(b, ns)))
  {
    hide PlainName, PlainNumber, Stem, NextAvailable, Join, MaxText, IsMember, InFamily;
    var used := Matching(Family(b), ns);
    MatchingAreMembers(b, ns);
    CanonicalReadsAlike(b, used);
    NextAvailableIsFresh(b, used);
    NextOfBounds(b, ns);
    if used != [] {
      var k: nat :| IsLargest(b, used, k) && NextAvailable(Join(used)).value == Dec(k + 1);
      NextOfIs(b, ns, k + 1);
    }
  }

  // ---------- write_net_rules ----------

  /** A file of the generator's own format whose names are plain. */
  predicate GoodLines(k: Kind, lines: seq<Line>) {
    ValidLines(k, lines) && PlainNames(Names(lines))
  }

  lemma JoinOfScan(lines: seq<Line>, k: Kind, re: NameRe)
    requires GoodLines(k, lines) && Askable(k, re)
    ensures var found := Scan(RenderAll(lines), KeyOf(k), re);
      && found == Matching(re, Names(lines))
      && (Join(found) == "" <==> found == [])
  {
    ScanReturnsNames(k, lines, re);
    MatchingMembers(re, Names(lines));
    var found := Matching(re, Names(lines));
    if found != [] {
      forall w | w in found
        ensures IsWord(w)
      {
        assert PlainName(w);
      }
      JoinNonempty(found);
    }
  }

  /** The interface's present name is in some rule, as far as the expression can tell. */
  predicate Taken(iface: string, ns: seq<string>) {
    Matching(Exact(iface), ns) != []
  }

  /** The name of a new rule, from the kernel's name and the names in use. */
  function NetChoice(iface: string, ns: seq<string>): string {
    if Taken(iface, ns) then Stem(iface) + LinkSuffix(NextOf(Stem(iface), ns)) else iface
  }

  lemma StemIsPlain(n: string)
    requires KernelName(n)
    ensures PlainName(Stem(n)) && DigitFree(Stem(n))
  {
  }

  /** A name in use is taken; and a name without a dot is taken only if it is in use. */
  lemma TakenIfUsed(iface: string, ns: seq<string>)
    ensures iface in ns ==> Taken(iface, ns)
    ensures '.' !in iface ==> (Taken(iface, ns) <==> iface in ns)
  {
    MatchingMembers(Exact(iface), ns);
    assert InRe(Exact(iface), iface);
    if '.' !in iface && Taken(iface, ns) {
      var n := Matching(Exact(iface), ns)[0];
      assert n in ns && InRe(Exact(iface), n);
      assert n == iface by {
        assert forall i :: 0 <= i < |iface| ==> iface[i] in iface;
      }
    }
  }

  lemma TakenWithin(iface: string, a: seq<string>, b: seq<string>)
    requires Within(a, b) && Taken(iface, a)
    ensures Taken(iface, b)
  {
    MatchingMembers(Exact(iface), a);
    MatchingMembers(Exact(iface), b);
    assert Matching(Exact(iface), a)[0] in Matching(Exact(iface), b);
  }

  lemma TakenConcat(iface: string, a: seq<string>, b: seq<string>)
    ensures Taken(iface, a + b) <==> Taken(iface, a) || Taken(iface, b)
  {
    MatchingMembers(Exact(iface), a);
    MatchingMembers(Exact(iface), b);
    MatchingMembers(Exact(iface), a + b);
    if Taken(iface, a) {
      TakenWithin(iface, a, a + b);
    }
    if Taken(iface, b) {
      TakenWithin(iface, b, a + b);
    }
    if Taken(iface, a + b) {
      var n := Matching(Exact(iface), a + b)[0];
      assert n in a + b && (n in Matching(Exact(iface), a) || n in Matching(Exact(iface), b));
    }
  }

  lemma NumberedHasNoDot(n: string)
    requires KernelName(n) && Numbered(n)
    ensures '.' !in n
  {
    var b := Stem(n);
    assert n == b + Rest(n);
    assert forall i :: 0 <= i < |n| ==> n[i] == if i < |b| then b[i] else Rest(n)[i - |b|];
    assert !IsDigit('.');
    assert forall i :: 0 <= i < |b| ==> b[i] in b;
  }

  /** The name chosen is new, plain, and one the kernel might give. */
  lemma ChoiceIsFresh(iface: string, ns: seq<string>)
    requires KernelName(iface) && PlainNames(ns)
    ensures NetChoice(iface, ns) !in ns && KernelName(NetChoice(iface, ns))
    ensures !Taken(NetChoice(iface, ns), ns)
  {
    hide PlainName, PlainNumber, Stem, Matching, Numbered;
    var b := Stem(iface);
    TakenIfUsed(iface, ns);
    StemIsPlain(iface);
    if Taken(iface, ns) {
      var n := b + LinkSuffix(NextOf(b, ns));
      NextOfBounds(b, ns);
      NumberedName(b, NextOf(b, ns));
      NumberedHasNoDot(n);
      TakenIfUsed(n, ns);
    }
  }

  /** The name chosen depends on the kernel's name and on the names in use, and on nothing else. */
  lemma NetNameByNames(r: NetRequest, lines: seq<Line>)
    requires ValidRequest(Net(r)) && r.iface != "" && r.custom == ""
    requires GoodLines(NetKind, lines)
    ensures NetName(r, RenderAll(lines)) == Some(NetChoice(r.iface, Names(lines)))
  {
    hide PlainNumber, Stem, Matching, NextAvailable, Join, Scan, RenderAll;
    var b := Stem(r.iface);
    JoinOfScan(lines, NetKind, Exact(r.iface));
    StemIsPlain(r.iface);
    JoinOfScan(lines, NetKind, Family(b));
    AllocatesNext(b, Names(lines));
  }

  /** The number `k` is in use behind the stem `b`; the bare stem counts as 0. */
  predicate UsesNumber(b: string, ns: seq<string>, k: nat) {
    b + Dec(k) in ns || (k == 0 && b in ns)
  }

  /** A name in use, as an expression in which a dot stands for any character sees it. */
  ghost predicate LooksTaken(iface: string, ns: seq<string>) {
    exists n :: n in ns && |n| == |iface| && forall i :: 0 <= i < |n| ==> iface[i] == '.' || iface[i] == n[i]
  }

  lemma TakenIsLooks(iface: string, ns: seq<string>)
    ensures Taken(iface, ns) <==> LooksTaken(iface, ns)
  {
    MatchingMembers(Exact(iface), ns);
    if Taken(iface, ns) {
      var n := Matching(Exact(iface), ns)[0];
      assert n in ns && InRe(Exact(iface), n);
      assert DotMatch(iface, n);
    }
    if LooksTaken(iface, ns) {
      var n :| n in ns && |n| == |iface| && forall i :: 0 <= i < |n| ==> iface[i] == '.' || iface[i] == n[i];
      assert DotMatch(iface, n) && InRe(Exact(iface), n);
      assert n in Matching(Exact(iface), ns);
    }
  }

  lemma UsedNumbers(b: string, ns: seq<string>, k: nat)
    requires PlainName(b) && DigitFree(b) && PlainNames(ns)
    ensures UsesNumber(b, ns, k) <==> exists n :: n in ns && InFamily(b, n) && NumberOf(n) == k
  {
    hide PlainName, PlainNumber, Dec;
    if UsesNumber(b, ns, k) {
      DecCanonical(k);
      ValueOfDec(k);
      MakeName(b, Dec(k));
      MakeName(b, "");
      assert b + "" == b && Value("") == 0;
      var n := if b + Dec(k) in ns then b + Dec(k) else b;
      assert n in ns && InFamily(b, n) && NumberOf(n) == k;
    }
    if exists n :: n in ns && InFamily(b, n) && NumberOf(n) == k {
      var n :| n in ns && InFamily(b, n) && NumberOf(n) == k;
      NumberText(n);
      assert n == b + Rest(n);
      assert if Rest(n) == "" then n == b && k == 0 else n == b + Dec(k);
    }
  }

  lemma NumberText(n: string)
    requires PlainNumber(n) && Numbered(n)
    ensures if Rest(n) == "" then NumberOf(n) == 0 else Dec(NumberOf(n)) == Rest(n)
  {
    if Rest(n) != "" {
      DecOfValue(Rest(n));
    }
  }

  /**
   The name in plain terms: the kernel's own as long as no rule seems to use it, otherwise its stem
   and one more than the largest number in use behind that stem.
   */
  lemma NetNameIs(r: NetRequest, lines: seq<Line>, k: nat)
    requires ValidRequest(Net(r)) && r.iface != "" && r.custom == ""
    requires GoodLines(NetKind, lines)
    ensures var ns, b := Names(lines), Stem(r.iface);
      && (!LooksTaken(r.iface, ns) ==> NetName(r, RenderAll(lines)) == Some(r.iface))
      && (LooksTaken(r.iface, ns) && UsesNumber(b, ns, k) && (forall j: nat :: UsesNumber(b, ns, j) ==> j <= k) ==>
            NetName(r, RenderAll(lines)) == Some(b + Dec(k + 1)))
      && (LooksTaken(r.iface, ns) && (forall j: nat :: !UsesNumber(b, ns, j)) ==>
            NetName(r, RenderAll(lines)) == Some(b))
  {
    hide PlainNumber, PlainName, Stem, InFamily, NextOf, NetName, RenderAll, LooksTaken, Taken, UsesNumber, Dec, Names;
    var ns, b := Names(lines), Stem(r.iface);
    NetNameByNames(r, lines);
    TakenIsLooks(r.iface, ns);
    StemIsPlain(r.iface);
    NextByNumbers(b, ns, k);
    assert b + "" == b;
  }

  lemma NextByNumbers(b: string, ns: seq<string>, k: nat)
    requires PlainName(b) && DigitFree(b) && PlainNames(ns)
    ensures UsesNumber(b, ns, k) && (forall j: nat :: UsesNumber(b, ns, j) ==> j <= k) ==> NextOf(b, ns) == k + 1
    ensures (forall j: nat :: !UsesNumber(b, ns, j)) ==> NextOf(b, ns) == 0
  {
    hide PlainNumber, PlainName, Stem, InFamily, NextOf, UsesNumber, Numbered;
    var m := NextOf(b, ns);
    NextOfBounds(b, ns);
    UsedNumbers(b, ns, k);
    if m > 0 {
      UsedNumbers(b, ns, m - 1);
    }
  }

  /** The number in plain terms: one more than the largest cdrom number in use, none if none is. */
  lemma CdNumberIs(ns: seq<string>, k: nat)
    requires PlainNames(ns)
    ensures UsesNumber("cdrom", ns, k) && (forall j: nat :: UsesNumber("cdrom", ns, j) ==> j <= k) ==>
      LinkSuffix(NextCd(ns)) == Dec(k + 1)
    ensures (forall j: nat :: !UsesNumber("cdrom", ns, j)) ==> LinkSuffix(NextCd(ns)) == ""
  {
    hide PlainName, PlainNumber, DigitFree, UsesNumber, NextOf, Dec;
    CdromIsBase();
    NextByNumbers("cdrom", ns, k);
  }

  /**
   The name write_net_rules picks is in use by no rule it scanned, whether it keeps
   the kernel's name or allocates a new one.
   */
  lemma NetNameIsFresh(r: NetRequest, lines: seq<Line>)
    requires ValidRequest(Net(r)) && r.iface != "" && r.custom == ""
    requires GoodLines(NetKind, lines)
    ensures var n := NetName(r, RenderAll(lines));
      n.Some? && n.value !in Names(lines) && PlainName(n.value) && PlainNumber(n.value)
  {
    hide NetName, NetChoice, Names, RenderAll;
    NetNameByNames(r, lines);
    ChoiceIsFresh(r.iface, Names(lines));
  }

  lemma NetRuleLinesAreValid(header: bool, keys: string, name: string, comment: string)
    ensures Clean(keys, 'N') && PlainName(name) ==> ValidLines(NetKind, NetRuleLines(header, keys, name, comment))
  {
    hide Clean, PlainName;
  }

  lemma NamesOfNetRule(header: bool, keys: string, name: string, comment: string)
    ensures Names(NetRuleLines(header, keys, name, comment)) == [name]
    ensures Clean(keys, 'N') && PlainName(name) ==> ValidLines(NetKind, NetRuleLines(header, keys, name, comment))
  {
    NetRuleLinesAreValid(header, keys, name, comment);
    hide Names, Clean, PlainName, ValidLines;
    var a, c := if header then NET_BANNER else [], CommentLines(comment);
    NoNames(a);
    NoNames([Blank]);
    NoNames(c);
    NamesConcat(a, [Blank]);
    NamesConcat(a + [Blank], c);
    NamesConcat(a + [Blank] + c, [NetRule(keys, name)]);
    OneName(NetRule(keys, name));
  }

  lemma {:induction false} NoNames(lines: seq<Line>)
    requires forall i :: 0 <= i < |lines| ==> !IsRule(lines[i])
    ensures Names(lines) == []
  {
    if lines != [] {
      NoNames(lines[..|lines| - 1]);
    }
  }

  lemma OneName(line: Line)
    requires IsRule(line)
    ensures Names([line]) == [line.name]
  {
    assert [line][..0] == [];
  }

  /** A run of write_net_rules: it always has a name to write, and the name is fresh. */
  lemma NetPlanIsFresh(r: NetRequest, header: bool, lines: seq<Line>)
    requires ValidRequest(Net(r)) && r.iface != "" && r.custom == ""
    requires GoodLines(NetKind, lines)
    ensures var p := NetPlan(r, header, RenderAll(lines));
      && (p.NoMatch? <==> NetKeys(r) == "")
      && !p.Crash?
      && (p.Write? ==>
            && GoodLines(NetKind, p.lines)
            && |Names(p.lines)| == 1
            && Names(p.lines)[0] !in Names(lines))
  {
    NetNameIsFresh(r, lines);
    NetKeysAreClean(r);
    var n := NetName(r, RenderAll(lines)).value;
    NamesOfNetRule(header, NetKeys(r) + (KERNEL + Stem(r.iface) + "*\""), n, NetComment(r));
  }

  // ---------- write_cd_rules ----------

  predicate InCdFamily(n: string) {
    Stem(n) in FAMILIES && Numbered(n)
  }

  /** A link as the script writes it: its number 0 is never spelt out. */
  predicate IsLink(n: string) {
    InCdFamily(n) && n == Stem(n) + LinkSuffix(NumberOf(n))
  }

  predicate IsCdrom(n: string) {
    InFamily("cdrom", n)
  }

  /** Every number used in any link family is used by a cdrom rule at or before it. */
  predicate Covered(ns: seq<string>) {
    forall i :: 0 <= i < |ns| && InCdFamily(ns[i]) ==>
      exists j :: 0 <= j <= i && IsCdrom(ns[j]) && NumberOf(ns[j]) == NumberOf(ns[i])
  }

  /** One more than the largest cdrom number in use, and 0 when there is none. */
  function NextCd(ns: seq<string>): nat {
    NextOf("cdrom", ns)
  }

  /** The allocator, asked for `cdrom[0-9]*`, returns the next cdrom number. */
  lemma CdAllocates(lines: seq<Line>)
    requires GoodLines(CdKind, lines)
    ensures NextAvailable(Join(Scan(RenderAll(lines), KeyOf(CdKind), Family("cdrom"))))
            == Some(LinkSuffix(NextCd(Names(lines))))
  {
    hide Scan, RenderAll, NextAvailable, Join, PlainName, DigitFree, Askable, NextOf, Matching, LinkSuffix;
    CdromIsBase();
    JoinOfScan(lines, CdKind, Family("cdrom"));
    AllocatesNext("cdrom", Names(lines));
  }

  lemma CdromIsBase()
    ensures PlainName("cdrom") && DigitFree("cdrom") && Askable(CdKind, Family("cdrom"))
  {
  }

  /** The links a drive gets from one allocated number, in the order written. */
  function LinksOf(r: CdRequest, n: nat): seq<string> {
    ["cdrom" + LinkSuffix(n)]
    + (if r.cdR || r.cdRw then ["cdrw" + LinkSuffix(n)] else [])
    + (if r.dvd then ["dvd" + LinkSuffix(n)] else [])
    + (if r.dvdR || r.dvdRw || r.dvdRam then ["dvdrw" + LinkSuffix(n)] else [])
  }

  lemma LinkIs(b: string, n: nat)
    requires b in FAMILIES
    ensures var l := b + LinkSuffix(n);
      Stem(l) == b && Numbered(l) && NumberOf(l) == n && PlainName(l) && PlainNumber(l)
  {
    NumberedName(b, n);
  }

  lemma NamesOfCdRule(header: bool, keys: string, link: string, comment: string)
    ensures Names(CdRuleLines(header, keys, link, comment)) == [link]
  {
    hide Names;
    var a, c := if header then CD_BANNER else [], CommentLines(comment);
    NoNames(a);
    NoNames(c);
    NamesConcat(a, c);
    NamesConcat(a + c, [CdRule(keys, link)]);
    OneName(CdRule(keys, link));
  }

  lemma CdRuleIsValid(header: bool, keys: string, link: string, comment: string)
    requires Clean(keys, 'S') && keys != [] && keys[0] != '#' && PlainName(link)
    ensures ValidLines(CdKind, CdRuleLines(header, keys, link, comment))
  {
    hide PlainName, Clean;
  }

  /** One of the later rules of a run, written or not. */
  lemma NamesOfPart(before: seq<Line>, wanted: bool, keys: string, link: string)
    requires Clean(keys, 'S') && keys != [] && keys[0] != '#' && PlainName(link)
    requires ValidLines(CdKind, before)
    ensures var all := before + (if wanted then CdRuleLines(false, keys, link, "") else []);
      && Names(all) == Names(before) + (if wanted then [link] else [])
      && ValidLines(CdKind, all)
  {
    hide PlainName, Clean, CdRuleLines;
    NamesOfCdRule(false, keys, link, "");
    CdRuleIsValid(false, keys, link, "");
    var part := if wanted then CdRuleLines(false, keys, link, "") else [];
    NamesConcat(before, part);
  }

  /** A run of write_cd_rules writes the links of the next cdrom number, and nothing else that names. */
  lemma CdPlanLinks(r: CdRequest, header: bool, lines: seq<Line>)
    requires ValidRequest(Cd(r)) && CdKeys(r).Some? && GoodLines(CdKind, lines)
    ensures var p := CdPlan(r, header, RenderAll(lines));
      && p.Write?
      && ValidLines(CdKind, p.lines)
      && Names(p.lines) == LinksOf(r, NextCd(Names(lines)))
  {
    hide PlainName, Clean, ValidLines, Names, ValidRequest;
    var k := NextCd(Names(lines));
    var n := LinkSuffix(k);
    CdAllocates(lines);
    CdKeysAreClean(r);
    LinkIs("cdrom", k);
    LinkIs("cdrw", k);
    LinkIs("dvd", k);
    LinkIs("dvdrw", k);
    var keys := CD_HEAD + CdKeys(r).value;
    var comment := r.model + " (" + r.path + ")";
    var l0 := CdRuleLines(header, keys, "cdrom" + n, comment);
    NamesOfCdRule(header, keys, "cdrom" + n, comment);
    CdRuleIsValid(header, keys, "cdrom" + n, comment);
    var l1 := l0 + (if r.cdR || r.cdRw then CdRuleLines(false, keys, "cdrw" + n, "") else []);
    NamesOfPart(l0, r.cdR || r.cdRw, keys, "cdrw" + n);
    var l2 := l1 + (if r.dvd then CdRuleLines(false, keys, "dvd" + n, "") else []);
    NamesOfPart(l1, r.dvd, keys, "dvd" + n);
    NamesOfPart(l2, r.dvdR || r.dvdRw || r.dvdRam, keys, "dvdrw" + n);
  }

  /** Only cdrom names are counted, yet every number of every family lies below the next one. */
  lemma NumbersBelowNext(ns: seq<string>)
    requires Covered(ns)
    ensures forall n :: n in ns && InCdFamily(n) ==> NumberOf(n) < NextCd(ns)
  {
    NextOfBounds("cdrom", ns);
    forall n | n in ns && InCdFamily(n)
      ensures NumberOf(n) < NextCd(ns)
    {
      var i :| 0 <= i < |ns| && ns[i] == n;
      var j :| 0 <= j <= i && IsCdrom(ns[j]) && NumberOf(ns[j]) == NumberOf(n);
      assert ns[j] in ns;
    }
  }

  /** The new links are fresh in all four families, though only cdrom names were looked at. */
  lemma LinksAreFresh(r: CdRequest, ns: seq<string>)
    requires PlainNames(ns) && Covered(ns)
    ensures var links := LinksOf(r, NextCd(ns));
      && (forall l :: l in links ==> l !in ns)
      && Distinct(links)
      && PlainNames(links)
      && Covered(ns + links)
  {
    hide PlainName, PlainNumber, LinksOf, NextCd;
    var k := NextCd(ns);
    var links := LinksOf(r, k);
    LinksShape(r, k);
    NumbersBelowNext(ns);
    assert forall l :: l in links ==> l !in ns;
    var all := ns + links;
    forall i | 0 <= i < |all| && InCdFamily(all[i])
      ensures exists j :: 0 <= j <= i && IsCdrom(all[j]) && NumberOf(all[j]) == NumberOf(all[i])
    {
      if i < |ns| {
        var j :| 0 <= j <= i && IsCdrom(ns[j]) && NumberOf(ns[j]) == NumberOf(ns[i]);
        assert all[j] == ns[j];
      } else {
        assert all[i] == links[i - |ns|] && all[i] in links;
        assert all[|ns|] == links[0];
      }
    }
  }

  /** Links of number `k`, at most one for each of the stems `bs`. */
  predicate LinksNumbered(s: seq<string>, k: nat, bs: set<string>) {
    && Distinct(s)
    && (forall l :: l in s ==> IsLink(l) && NumberOf(l) == k && PlainName(l) && PlainNumber(l) && Stem(l) in bs)
  }

  lemma AddLink(s: seq<string>, wanted: bool, b: string, k: nat, bs: set<string>)
    requires LinksNumbered(s, k, bs) && b in FAMILIES && b !in bs
    ensures LinksNumbered(s + (if wanted then [b + LinkSuffix(k)] else []), k, bs + {b})
  {
    hide Stem, Numbered, PlainName, PlainNumber, LinkSuffix;
    LinkIs(b, k);
    DistinctAppend(s, if wanted then [b + LinkSuffix(k)] else []);
  }

  lemma LinksShape(r: CdRequest, k: nat)
    ensures var links := LinksOf(r, k);
      && |links| > 0 && IsCdrom(links[0])
      && LinksNumbered(links, k, {"cdrom", "cdrw", "dvd", "dvdrw"})
  {
    hide PlainName, PlainNumber, LinkSuffix, Numbered, Stem;
    StemsDiffer();
    LinkIs("cdrom", k);
    var n := LinkSuffix(k);
    var s0 := ["cdrom" + n];
    var s1 := s0 + (if r.cdR || r.cdRw then ["cdrw" + n] else []);
    var s2 := s1 + (if r.dvd then ["dvd" + n] else []);
    assert LinksNumbered(s0, k, {"cdrom"});
    AddLink(s0, r.cdR || r.cdRw, "cdrw", k, {"cdrom"});
    AddLink(s1, r.dvd, "dvd", k, {"cdrom", "cdrw"});
    AddLink(s2, r.dvdR || r.dvdRw || r.dvdRam, "dvdrw", k, {"cdrom", "cdrw", "dvd"});
  }

  lemma StemsDiffer()
    ensures "cdrom" != "cdrw" && "cdrom" != "dvd" && "cdrom" != "dvdrw"
    ensures "cdrw" != "dvd" && "cdrw" != "dvdrw" && "dvd" != "dvdrw"
    ensures forall b :: b in FAMILIES <==> b == "cdrom" || b == "cdrw" || b == "dvd" || b == "dvdrw"
  {
    assert "cdrom"[0] != "dvdrw"[0];
    assert forall b :: b in FAMILIES <==> b == FAMILIES[0] || b == FAMILIES[1] || b == FAMILIES[2] || b == FAMILIES[3];
  }
}

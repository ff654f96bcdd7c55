/**
 Rules files: the lines the two generators write, and the `sed` scan of
 `find_all_rules` over their text.
 */
module Rules {
  import opened Text

  // ---------- lines ----------

  /**
   A line of a rules file. `Header` is a line of the generated banner (its text begins
   with '#'), `NetRule` and `CdRule` are the rules of write_net_rules and write_cd_rules.
   */
  datatype Line =
    | Header(text: string)
    | Blank
    | Comment(text: string)
    | NetRule(keys: string, name: string)
    | CdRule(keys: string, name: string)

  function Render(line: Line): string {
    match line
    case Header(t) => "#" + t
    case Blank => ""
    case Comment(t) => "# " + t
    case NetRule(m, n) => NetHead() + m + ", " + (KeyOf(NetKind) + "\"" + (n + "\""))
    case CdRule(m, n) => m + ", " + (KeyOf(CdKind) + "\"" + (n + CdTail()))
  }

  function NetHead(): string {
    "SUBSYSTEM==\"net\", ACTION==\"add\""
  }

  function CdTail(): string {
    "\", ENV{GENERATED}=\"1\""
  }

  datatype Kind = NetKind | CdKind

  function KeyOf(k: Kind): string {
    if k.NetKind? then "NAME=" else "SYMLINK+="
  }

  function RenderAll(lines: seq<Line>): (text: seq<string>)
    ensures |text| == |lines|
    ensures forall i :: 0 <= i < |lines| ==> text[i] == Render(lines[i])
  {
    if lines == [] then [] else RenderAll(lines[..|lines| - 1]) + [Render(lines[|lines| - 1])]
  }

  predicate IsRule(line: Line) {
    line.NetRule? || line.CdRule?
  }

  /** The names assigned by the rules of a file, in order. */
  function Names(lines: seq<Line>): seq<string> {
    if lines == [] then []
    else
      var last := lines[|lines| - 1];
      Names(lines[..|lines| - 1]) + (if IsRule(last) then [last.name] else [])
  }

  lemma {:induction false} NamesConcat(a: seq<Line>, b: seq<Line>)
    ensures Names(a + b) == Names(a) + Names(b)
  {
    if b == [] {
      assert a + b == a;
    } else {
      NamesConcat(a, b[..|b| - 1]);
      assert (a + b)[..|a + b| - 1] == a + b[..|b| - 1];
    }
  }

  // ---------- the scan ----------

  /** The regular expressions used for a name: one name, or `base[0-9]*`; a `.` in either is a wildcard. */
  datatype NameRe = Exact(re: string) | Family(base: string)

  predicate InRe(re: NameRe, name: string) {
    match re
    case Exact(r) => DotMatch(r, name)
    case Family(b) => StartsLike(b, name) && AllDigits(name[|b|..])
  }

  predicate DotMatch(re: string, s: string) {
    |re| == |s| && forall i :: 0 <= i < |s| ==> re[i] == '.' || re[i] == s[i]
  }

  predicate StartsLike(re: string, s: string) {
    |re| <= |s| && DotMatch(re, s[..|re|])
  }

  /** `[[:space:],]` */
  predicate IsSep(c: char) {
    c == ' ' || c == ',' || c == '\t' || c == '\n' || c == '\r' || c == '\U{000B}' || c == '\U{000C}'
  }

  function DigitRun(s: string): (n: nat)
    ensures n <= |s| && AllDigits(s[..n])
    ensures n < |s| ==> !IsDigit(s[n])
  {
    if s == [] || !IsDigit(s[0]) then 0 else 1 + DigitRun(s[1..])
  }

  /** The name matched at the start of `t`, when a closing quote follows it. */
  function MatchName(re: NameRe, t: string): Option<string> {
    match re
    case Exact(r) =>
      if |r| < |t| && DotMatch(r, t[..|r|]) && t[|r|] == '\"' then Some(t[..|r|]) else None
    case Family(b) =>
      if StartsLike(b, t) then
        var n := |b| + DigitRun(t[|b|..]);
        if n < |t| && t[n] == '\"' then Some(t[..n]) else None
      else None
  }

  /** `[[:space:],]key"(re)"` at index `i`. */
  function CaptureAt(line: string, i: nat, key: string, re: NameRe): Option<string>
    requires i < |line|
  {
    var lead := key + "\"";
    if IsSep(line[i]) && lead <= line[i + 1..] then MatchName(re, line[i + 1 + |lead|..]) else None
  }

  // The leading wildcard is greedy: the last index below `n` at which the rest matches.
  function LastCapture(line: string, n: nat, key: string, re: NameRe): Option<string>
    requires n <= |line|
  {
    if n == 0 then None
    else
      var c := CaptureAt(line, n - 1, key, re);
      if c.Some? then c else LastCapture(line, n - 1, key, re)
  }

  // One line through sed: a comment line is emptied, then the captured name is printed.
  function Extract(line: string, key: string, re: NameRe): Option<string> {
    if line != [] && line[0] == '#' then None else LastCapture(line, |line|, key, re)
  }

  /** `find_all_rules` before `echo` joins the names. */
  function Scan(text: seq<string>, key: string, re: NameRe): seq<string> {
    if text == [] then []
    else
      var c := Extract(text[|text| - 1], key, re);
      Scan(text[..|text| - 1], key, re) + (if c.Some? then [c.value] else [])
  }

  // ---------- the generators' own format ----------

  /** No separator of `s` stands before `c`, and none ends `s`: no key beginning with `c` hides in it. */
  predicate Clean(s: string, c: char) {
    forall i :: 0 <= i < |s| && IsSep(s[i]) ==> i + 1 < |s| && s[i + 1] != c
  }

  predicate PlainName(n: string) {
    && n != []
    && forall i :: 0 <= i < |n| ==> !IsSep(n[i]) && n[i] != '\"'
  }

  /** A line as the generator of kind `k` writes it. */
  predicate ValidLine(k: Kind, line: Line) {
    match line
    case Header(_) => true
    case Blank => true
    case Comment(_) => true
    case NetRule(m, n) => k == NetKind && Clean(m, 'N') && PlainName(n)
    case CdRule(m, n) => k == CdKind && m != [] && m[0] != '#' && Clean(m, 'S') && PlainName(n)
  }

  predicate ValidLines(k: Kind, lines: seq<Line>) {
    forall i :: 0 <= i < |lines| ==> ValidLine(k, lines[i])
  }

  lemma {:induction false} QuietRegion(line: string, lo: nat, n: nat, key: string, re: NameRe)
    requires lo <= n <= |line| && key != []
    requires forall i :: lo <= i < n && IsSep(line[i]) ==> i + 1 < |line| && line[i + 1] != key[0]
    ensures LastCapture(line, n, key, re) == LastCapture(line, lo, key, re)
  {
    if lo < n {
      assert key + "\"" <= line[n..] ==> (key + "\"")[0] == key[0] == line[n];
      QuietRegion(line, lo, n - 1, key, re);
    }
  }

  lemma PrefixBeforeQuote(b: string, name: string, tail: string)
    requires forall i :: 0 <= i < |b| ==> b[i] != '\"'
    requires tail != [] && tail[0] == '\"'
    ensures b <= name + tail <==> b <= name
  {
    var t := name + tail;
    assert t[|name|] == '\"' && name <= t;
    assert b <= t && |b| <= |name| ==> b == t[..|b|] == name[..|b|];
  }

  lemma NoDots(b: string, s: string)
    requires forall i :: 0 <= i < |b| ==> b[i] != '.'
    ensures StartsLike(b, s) <==> b <= s
  {
  }

  lemma DigitRunIs(s: string, n: nat)
    requires n <= |s| && forall i :: 0 <= i < n ==> IsDigit(s[i])
    requires n < |s| ==> !IsDigit(s[n])
    ensures DigitRun(s) == n
  {
  }

  /** At the rule's own key, the scan captures the name if the regular expression matches it. */
  lemma MatchFamily(b: string, name: string, tail: string)
    requires tail != [] && tail[0] == '\"'
    requires forall i :: 0 <= i < |b| ==> b[i] != '\"' && b[i] != '.'
    requires PlainName(name)
    ensures MatchName(Family(b), name + tail) == if InRe(Family(b), name) then Some(name) else None
  {
    var t := name + tail;
    PrefixBeforeQuote(b, name, tail);
    NoDots(b, name);
    NoDots(b, t);
    if b <= name {
      var r, m := name[|b|..], |name| - |b|;
      assert t[|b|..] == r + tail && t[..|name|] == name;
      if AllDigits(r) {
        DigitRunIs(r + tail, m);
      } else {
        var n := DigitRun(r);
        DigitRunIs(r + tail, n);
        assert t[|b| + n] == name[|b| + n];
      }
    }
  }

  lemma MatchExact(r: string, name: string)
    requires PlainName(name)
    ensures MatchName(Exact(r), name + "\"") == if InRe(Exact(r), name) then Some(name) else None
  {
    var t := name + "\"";
    assert t[..|name|] == name;
    if |r| <= |name| {
      assert |r| < |name| ==> t[|r|] == name[|r|];
    }
  }

  lemma QuietSuffix(front: string, rest: string, key: string, re: NameRe)
    requires key != [] && Clean(rest, key[0])
    ensures LastCapture(front + rest, |front + rest|, key, re) == LastCapture(front + rest, |front|, key, re)
  {
    var line := front + rest;
    forall i | |front| <= i < |line| && IsSep(line[i])
      ensures i + 1 < |line| && line[i + 1] != key[0]
    {
      assert line[i] == rest[i - |front|];
    }
    QuietRegion(line, |front|, |line|, key, re);
  }

  lemma CaptureAtKey(front: string, key: string, t: string, re: NameRe)
    requires front != [] && IsSep(front[|front| - 1])
    ensures CaptureAt(front + (key + "\"" + t), |front| - 1, key, re) == MatchName(re, t)
  {
    var lead := key + "\"";
    var line := front + (lead + t);
    assert line[|front|..] == lead + t;
    assert (lead + t)[|lead|..] == t;
    assert line[|front| + |lead|..] == t;
  }

  /** The part of the line before the rule's key hides no name. */
  lemma NothingBefore(pre: string, rest: string, key: string, re: NameRe)
    requires key != [] && !IsSep(key[0]) && Clean(pre, key[0])
    ensures LastCapture(pre + ", " + rest, |pre| + 1, key, re) == None
  {
    var line := pre + ", " + rest;
    assert line[|pre| + 1] == ' ';
    forall i | 0 <= i < |pre| + 1 && IsSep(line[i])
      ensures i + 1 < |line| && line[i + 1] != key[0]
    {
      assert i < |pre| ==> line[i] == pre[i];
      assert i + 1 < |pre| ==> line[i + 1] == pre[i + 1];
    }
    QuietRegion(line, 0, |pre| + 1, key, re);
  }

  /**
   The scan of one rule: exactly its own name, and only if the regular expression
   matches it. Nothing in the match keys before it or in the keys after it is taken
   for a name.
   */
  lemma ExtractRule(pre: string, name: string, tail: string, key: string, re: NameRe)
    requires key != [] && forall i :: 0 <= i < |key| ==> !IsSep(key[i])
    requires Clean(pre, key[0])
    requires PlainName(name) && Clean(tail, key[0])
    requires MatchName(re, name + tail) == if InRe(re, name) then Some(name) else None
    ensures var line := pre + ", " + (key + "\"" + (name + tail));
      LastCapture(line, |line|, key, re) == if InRe(re, name) then Some(name) else None
  {
    var front, t := pre + ", ", name + tail;
    var rest := key + "\"" + t;
    CleanConcat(name, tail, key[0]);
    CleanConcat(key + "\"", t, key[0]);
    QuietSuffix(front, rest, key, re);
    CaptureAtKey(front, key, t, re);
    NothingBefore(pre, rest, key, re);
  }

  lemma CleanConcat(a: string, b: string, c: char)
    requires Clean(a, c) && Clean(b, c)
    ensures Clean(a + b, c)
  {
  }

  /** What `find_all_rules` is allowed to be asked with on a file of kind `k`. */
  predicate Askable(k: Kind, re: NameRe) {
    match re
    case Exact(r) => k == NetKind
    case Family(b) => forall i :: 0 <= i < |b| ==> b[i] != '\"' && b[i] != '.'
  }

  lemma FixedTextIsClean()
    ensures Clean(NetHead(), 'N') && Clean(CdTail(), 'S') && Clean("\"", 'N')
    ensures NetHead()[0] == 'S' && CdTail()[0] == '\"'
    ensures KeyOf(NetKind)[0] == 'N' && KeyOf(CdKind)[0] == 'S'
    ensures forall k: Kind, i :: 0 <= i < |KeyOf(k)| ==> !IsSep(KeyOf(k)[i])
  {
  }

  lemma ExtractNet(m: string, n: string, re: NameRe)
    requires Clean(m, 'N') && PlainName(n) && Askable(NetKind, re)
    ensures Extract(Render(NetRule(m, n)), KeyOf(NetKind), re) == if InRe(re, n) then Some(n) else None
  {
    FixedTextIsClean();
    CleanConcat(NetHead(), m, 'N');
    match re {
      case Exact(r) => MatchExact(r, n);
      case Family(b) => MatchFamily(b, n, "\"");
    }
    ExtractRule(NetHead() + m, n, "\"", KeyOf(NetKind), re);
  }

  lemma ExtractCd(m: string, n: string, re: NameRe)
    requires m != [] && m[0] != '#' && Clean(m, 'S') && PlainName(n) && Askable(CdKind, re)
    ensures Extract(Render(CdRule(m, n)), KeyOf(CdKind), re) == if InRe(re, n) then Some(n) else None
  {
    FixedTextIsClean();
    MatchFamily(re.base, n, CdTail());
    ExtractRule(m, n, CdTail(), KeyOf(CdKind), re);
  }

  /** Every line: banner lines, comments and blank lines give nothing, a rule its name. */
  lemma ExtractLine(k: Kind, line: Line, re: NameRe)
    requires ValidLine(k, line) && Askable(k, re)
    ensures Extract(Render(line), KeyOf(k), re)
            == if IsRule(line) && InRe(re, line.name) then Some(line.name) else None
  {
    match line {
      case Header(t) => assert Render(line)[0] == '#';
      case Comment(t) => assert Render(line)[0] == '#';
      case Blank =>
      case NetRule(m, n) => ExtractNet(m, n, re);
      case CdRule(m, n) => ExtractCd(m, n, re);
    }
  }

  /** The names of `ns` that the regular expression matches, in order. */
  function Matching(re: NameRe, ns: seq<string>): seq<string> {
    if ns == [] then []
    else
      var last := ns[|ns| - 1];
      Matching(re, ns[..|ns| - 1]) + (if InRe(re, last) then [last] else [])
  }

  /**
   Write/scan round trip: whatever sequence of lines the generators have written,
   scanning the text returns exactly the names of the requested family, in order.
   */
  lemma {:induction false} ScanReturnsNames(k: Kind, lines: seq<Line>, re: NameRe)
    requires ValidLines(k, lines) && Askable(k, re)
    ensures Scan(RenderAll(lines), KeyOf(k), re) == Matching(re, Names(lines))
  {
    if lines != [] {
      var front, last := lines[..|lines| - 1], lines[|lines| - 1];
      ScanReturnsNames(k, front, re);
      ExtractLine(k, last, re);
      var text := RenderAll(lines);
      assert text[..|text| - 1] == RenderAll(front) && text[|text| - 1] == Render(last);
      if IsRule(last) {
        assert (Names(front) + [last.name])[..|Names(front)|] == Names(front);
      } else {
        assert Names(lines) == Names(front);
      }
    }
  }

  lemma {:induction false} MatchingMembers(re: NameRe, ns: seq<string>)
    ensures forall n :: n in Matching(re, ns) <==> n in ns && InRe(re, n)
  {
    if ns != [] {
      var front, last := ns[..|ns| - 1], ns[|ns| - 1];
      MatchingMembers(re, front);
      assert ns == front + [last];
    }
  }
}

/** Device paths given by their components, and what the patterns of path_id find in them. */
module Paths {
  import opened Text
  import opened Glob
  import opened PathId
  import opened Climbing
  import opened Identity

  // ---------- components ----------

  function PathOf(cs: seq<string>): string {
    if cs == [] then "" else "/" + cs[0] + PathOf(cs[1..])
  }

  lemma {:induction false} PathOfConcat(a: seq<string>, b: seq<string>)
    ensures PathOf(a + b) == PathOf(a) + PathOf(b)
  {
    if a == [] {
      assert a + b == b;
    } else {
      PathOfConcat(a[1..], b);
      assert (a + b)[1..] == a[1..] + b;
    }
  }

  lemma PathOfOne(c: string)
    ensures PathOf([c]) == "/" + c
  {
    assert [c][1..] == [];
    assert "/" + c + "" == "/" + c;
  }

  lemma PathOfMore(cs: seq<string>, c: string)
    ensures PathOf(cs + [c]) == PathOf(cs) + "/" + c
  {
    hide PathOf;
    PathOfConcat(cs, [c]);
    PathOfOne(c);
    assert PathOf(cs) + ("/" + c) == PathOf(cs) + "/" + c;
  }

  lemma DirOf(cs: seq<string>, c: string)
    requires '/' !in c
    ensures Dir(PathOf(cs + [c])) == PathOf(cs) && Base(PathOf(cs + [c])) == c
  {
    hide PathOf, Dir, Base;
    PathOfMore(cs, c);
    assert forall i :: 0 <= i < |c| ==> c[i] in c;
    SplitLast(PathOf(cs), c);
  }

  lemma PathBegins(cs: seq<string>)
    ensures PathOf(cs) == "" <==> cs == []
    ensures cs != [] ==> PathOf(cs)[0] == '/'
  {
  }

  /** A word for the beginning of a component. */
  predicate IsWord(v: string) {
    v != "" && '/' !in v && '#' !in v
  }

  /** No component begins with `v`. */
  predicate Others(cs: seq<string>, v: string) {
    forall i :: 0 <= i < |cs| ==> '/' !in cs[i] && !(v <= cs[i])
  }

  lemma OthersConcat(a: seq<string>, b: seq<string>, v: string)
    ensures Others(a + b, v) <==> Others(a, v) && Others(b, v)
  {
    assert forall i :: 0 <= i < |a| ==> (a + b)[i] == a[i];
    assert forall i :: 0 <= i < |b| ==> (a + b)[|a| + i] == b[i];
  }

  /** The word does not match at the beginning of another component. */
  lemma NotHere(v: string, c: string, rest: string)
    requires IsWord(v) && '/' !in c && !(v <= c) && (rest == "" || rest[0] == '/')
    ensures !At("/" + v, "/" + c + rest)
  {
    var w, s := "/" + v, "/" + c + rest;
    if k :| 0 <= k < |v| && k < |c| && v[k] != c[k] {
      assert w[k + 1] == v[k] && v[k] in v && s[k + 1] == c[k];
    } else {
      assert |c| < |v|;
      if rest != "" {
        assert w[|c| + 1] == v[|c|] && v[|c|] in v && s[|c| + 1] == rest[0];
      }
    }
  }

  lemma NotInside(v: string, c: string, s: string, j: nat)
    requires '/' !in c && j < |c|
    ensures !At("/" + v, (c + s)[j..])
  {
    assert (c + s)[j..][0] == c[j] && c[j] in c;
  }

  /** Before `rest` the word matches nowhere. */
  lemma {:induction false} LacksBefore(v: string, cs: seq<string>, rest: string, j: nat)
    requires IsWord(v) && Others(cs, v) && (rest == "" || rest[0] == '/') && j < |PathOf(cs)|
    ensures !At("/" + v, (PathOf(cs) + rest)[j..])
  {
    hide At, IsWord;
    var c, more := cs[0], PathOf(cs[1..]) + rest;
    var s := PathOf(cs) + rest;
    PathBegins(cs[1..]);
    assert s == "/" + c + more;
    if j == 0 {
      assert s[0..] == s;
      NotHere(v, c, more);
    } else if j <= |c| {
      assert s[j..] == (c + more)[j - 1..];
      NotInside(v, c, more, j - 1);
    } else {
      assert s[j..] == more[j - 1 - |c|..];
      LacksBefore(v, cs[1..], rest, j - 1 - |c|);
    }
  }

  lemma Lacks(v: string, cs: seq<string>)
    requires IsWord(v) && Others(cs, v)
    ensures !Has("/" + v, PathOf(cs))
  {
    hide At, IsWord, PathOf;
    var s := PathOf(cs);
    assert s + "" == s;
    forall j | 0 <= j <= |s|
      ensures !At("/" + v, s[j..])
    {
      if j < |s| {
        LacksBefore(v, cs, "", j);
      } else {
        assert s[j..] == "";
        NotAtEnd(v);
      }
    }
  }

  lemma NotAtEnd(v: string)
    ensures !At("/" + v, "")
  {
  }

  /** A pattern whose first word begins a component so. */
  lemma LacksPattern(v: string, ws: seq<string>, cs: seq<string>)
    requires IsWord(v) && Others(cs, v) && ws != [] && "/" + v <= ws[0]
    ensures !Has(ws[0], PathOf(cs)) && !InOrder(ws, PathOf(cs))
  {
    hide InOrder, Others, PathOf, IsWord;
    Lacks(v, cs);
    if Has(ws[0], PathOf(cs)) {
      WordPrefix(ws[0], "/" + v, PathOf(cs));
    } else {
      NotInOrder(ws, PathOf(cs));
    }
  }

  // ---------- where a word is found ----------

  /** The first occurrence is at the first component that begins so. */
  lemma FirstIsAt(v: string, w: string, cs: seq<string>, rest: string)
    requires IsWord(v) && Others(cs, v) && "/" + v <= w && rest != "" && rest[0] == '/' && At(w, rest)
    ensures var s := PathOf(cs) + rest; FirstAt(w, s) == Some(|PathOf(cs)|) && CutFirst(w, s) == PathOf(cs)
  {
    hide At, IsWord, Others, PathOf;
    var s := PathOf(cs) + rest;
    assert s[|PathOf(cs)|..] == rest;
    AtFits(w, rest);
    forall j | 0 <= j < |PathOf(cs)|
      ensures !At(w, s[j..])
    {
      LacksBefore(v, cs, rest, j);
      if At(w, s[j..]) {
        AtPrefix(w, "/" + v, s[j..]);
      }
    }
    FirstAtIs(w, s, |PathOf(cs)|);
    assert s[..|PathOf(cs)|] == PathOf(cs);
  }

  lemma AtFits(w: string, s: string)
    requires At(w, s)
    ensures |w| <= |s|
  {
  }

  lemma AtPrefix(w: string, v: string, s: string)
    requires v <= w && At(w, s)
    ensures At(v, s)
  {
    assert forall k :: 0 <= k < |v| ==> v[k] == w[k];
  }

  /** The last occurrence, if no later component begins so. */
  lemma LastIsAt(v: string, w: string, before: string, c: string, more: seq<string>)
    requires IsWord(v) && Others(more, v) && '/' !in c && "/" + v <= w && At(w, "/" + c + PathOf(more))
    ensures var s := before + ("/" + c + PathOf(more));
      LastAt(w, s) == Some(|before|) && CutLast(w, s) == before && AfterLast(w, s) == s[|before| + |w|..]
  {
    hide At, IsWord, Others, PathOf;
    var rest := "/" + c + PathOf(more);
    var s := before + rest;
    assert s[|before|..] == rest;
    AtFits(w, rest);
    forall j | |before| < j <= |s|
      ensures !At(w, s[j..])
    {
      var i := j - |before|;
      assert s[j..] == rest[i..];
      NotLater(v, c, more, i);
      if At(w, s[j..]) {
        AtPrefix(w, "/" + v, s[j..]);
      }
    }
    LastAtIs(w, s, |before|);
    assert s[..|before|] == before;
  }

  lemma NotLater(v: string, c: string, more: seq<string>, i: nat)
    requires IsWord(v) && Others(more, v) && '/' !in c && 0 < i <= |"/" + c + PathOf(more)|
    ensures !At("/" + v, ("/" + c + PathOf(more))[i..])
  {
    hide At, IsWord, Others, PathOf;
    var rest, p := "/" + c + PathOf(more), PathOf(more);
    if i <= |c| {
      assert rest[i..] == (c + p)[i - 1..];
      NotInside(v, c, p, i - 1);
    } else {
      Lacks(v, more);
      assert rest[i..] == p[i - 1 - |c|..];
    }
  }

  // ---------- cutting at a sign, and at a word of the last component ----------

  lemma StartsWith(w: string, tail: string)
    requires '#' !in w
    ensures At(w, w + tail)
  {
    assert forall k :: 0 <= k < |w| ==> w[k] in w;
  }

  lemma NoSign(c: char, s: string)
    requires c != '#' && c !in s
    ensures AfterFirst([c], s) == s && CutFirst([c], s) == s && CutLast([c], s) == s
  {
    forall j | 0 <= j <= |s|
      ensures !At([c], s[j..])
    {
      assert j < |s| ==> s[j..][0] == s[j] && s[j] in s;
    }
  }

  lemma AfterSign(c: char, x: string, y: string)
    requires c != '#' && c !in x
    ensures AfterFirst([c], x + [c] + y) == y
  {
    var s := x + [c] + y;
    forall j | 0 <= j < |x|
      ensures !At([c], s[j..])
    {
      assert s[j..][0] == x[j] && x[j] in x;
    }
    assert s[|x|..][0] == c;
    FirstAtIs([c], s, |x|);
    assert s[|x| + 1..] == y;
  }

  lemma BeforeSign(c: char, x: string, y: string)
    requires c != '#' && c !in x && y != "" && y[0] == c
    ensures CutFirst([c], x + y) == x
  {
    var s := x + y;
    forall j | 0 <= j < |x|
      ensures !At([c], s[j..])
    {
      assert s[j..][0] == x[j] && x[j] in x;
    }
    assert s[|x|..][0] == c;
    FirstAtIs([c], s, |x|);
    assert s[..|x|] == x;
  }

  lemma CutAtSlash(c: string, down: string)
    requires '/' !in c && (down == "" || down[0] == '/')
    ensures CutFirst("/", c + down) == c
  {
    if down == "" {
      NoSign('/', c);
      assert c + down == c;
    } else {
      BeforeSign('/', c, down);
    }
  }

  /** Cutting at the word the last component begins with. */
  lemma LastWord(v: string, up: string, tail: string)
    requires IsWord(v) && '/' !in tail
    ensures var s := up + ("/" + (v + tail)); CutLast("/" + v, s) == up && AfterLast("/" + v, s) == tail
  {
    hide PathOf, Others, CutLast, AfterLast;
    NoMore();
    LastWordOf(v, up, tail, []);
    assert "/" + (v + tail) + "" == "/" + (v + tail) && tail + "" == tail;
  }

  /** Cutting at a word that begins one component and no later one. */
  lemma LastWordOf(v: string, up: string, tail: string, more: seq<string>)
    requires IsWord(v) && '/' !in tail && Others(more, v)
    ensures var s := up + ("/" + (v + tail) + PathOf(more));
      CutLast("/" + v, s) == up && AfterLast("/" + v, s) == tail + PathOf(more)
  {
    hide PathOf, Others;
    var s := up + ("/" + (v + tail) + PathOf(more));
    assert "/" + (v + tail) + PathOf(more) == "/" + v + (tail + PathOf(more));
    StartsWith("/" + v, tail + PathOf(more));
    LastIsAt(v, "/" + v, up, v + tail, more);
    assert s[|up| + |"/" + v|..] == tail + PathOf(more);
  }

  lemma NoMore()
    ensures PathOf([]) == "" && forall v :: Others([], v)
  {
  }

  lemma BeginsPath(cs: seq<string>)
    ensures PathOf(cs) == "" || PathOf(cs)[0] == '/'
  {
  }

  // ---------- patterns that match ----------

  /** What matches the end of a path matches the path. */
  lemma {:induction false} InOrderAfter(ws: seq<string>, a: string, s: string)
    requires InOrder(ws, s)
    ensures InOrder(ws, a + s)
  {
    if a == "" {
      assert a + s == s;
    } else {
      InOrderAfter(ws, a[1..], s);
      assert (a + s)[1..] == a[1..] + s;
    }
  }

  lemma FirstThen(ws: seq<string>, a: string, s: string)
    requires ws != [] && |ws[0]| == |a| && At(ws[0], a) && InOrder(ws[1..], s)
    ensures InOrder(ws, a + s)
  {
    assert forall k :: 0 <= k < |a| ==> (a + s)[k] == a[k];
    assert (a + s)[|a|..] == s;
  }

  lemma NothingMatches(s: string)
    ensures InOrder([], s)
  {
  }

  /** A word that ends in a digit, at a text that begins with one. */
  lemma AtDigit(ws: seq<string>, p: string, d: string, tail: string)
    requires ws != [] && ws[0] == p + "#" && '#' !in p && d != "" && IsDigit(d[0]) && InOrder(ws[1..], tail)
    ensures InOrder(ws, p + d + tail)
  {
    hide InOrder;
    var a := p + d[..1];
    InOrderAfter(ws[1..], d[1..], tail);
    WordDigit(p, d);
    FirstThen(ws, a, d[1..] + tail);
    assert a + (d[1..] + tail) == p + d + tail;
  }

  lemma WordDigit(p: string, d: string)
    requires '#' !in p && d != "" && IsDigit(d[0])
    ensures At(p + "#", p + d[..1]) && At(p + "#", p + d)
  {
    var w := p + "#";
    assert forall k :: 0 <= k < |p| ==> w[k] == p[k] && p[k] in p;
  }

  /** A word in full. */
  lemma AtText(ws: seq<string>, tail: string)
    requires ws != [] && '#' !in ws[0] && InOrder(ws[1..], tail)
    ensures InOrder(ws, ws[0] + tail)
  {
    hide InOrder;
    assert forall k :: 0 <= k < |ws[0]| ==> ws[0][k] in ws[0];
    FirstThen(ws, ws[0], tail);
  }

  lemma SlashMatches(tail: string)
    requires tail != "" && tail[0] == '/'
    ensures InOrder(["/"], tail)
  {
    hide InOrder;
    assert ["/"][1..] == [] && "/" + tail[1..] == tail;
    NothingMatches(tail[1..]);
    AtText(["/"], tail[1..]);
  }

  // ---------- the arms ----------

  /** No arm before firewire's applies. */
  predicate Early(cs: seq<string>) {
    Others(cs, "ide") && Others(cs, "css0") && Others(cs, "rport-") && Others(cs, "end_device-")
  }

  /** No arm before scsi's applies. */
  predicate Calm(cs: seq<string>) {
    Early(cs) && Others(cs, "fw-host") && Others(cs, "session")
  }

  /** No arm before pci's applies. */
  predicate Clear(cs: seq<string>) {
    Calm(cs) && Others(cs, "host") && Others(cs, "ttyUSB") && Others(cs, "usb")
  }

  lemma EarlyConcat(a: seq<string>, b: seq<string>)
    ensures Early(a + b) <==> Early(a) && Early(b)
    ensures Calm(a + b) <==> Calm(a) && Calm(b)
    ensures Clear(a + b) <==> Clear(a) && Clear(b)
  {
    hide Others;
    OthersConcat(a, b, "ide");
    OthersConcat(a, b, "css0");
    OthersConcat(a, b, "rport-");
    OthersConcat(a, b, "end_device-");
    OthersConcat(a, b, "fw-host");
    OthersConcat(a, b, "session");
    OthersConcat(a, b, "host");
    OthersConcat(a, b, "ttyUSB");
    OthersConcat(a, b, "usb");
  }

  lemma NotIde(cs: seq<string>)
    requires Others(cs, "ide")
    ensures !InOrder(["/ide#/#.#"], PathOf(cs)) && !InOrder(["/ide##/##.#"], PathOf(cs))
  {
    hide InOrder, Others, PathOf;
    LacksPattern("ide", ["/ide#/#.#"], cs);
    LacksPattern("ide", ["/ide##/##.#"], cs);
  }

  lemma NotCss(cs: seq<string>)
    requires Others(cs, "css0")
    ensures !InOrder(["/css0/"], PathOf(cs))
  {
    hide InOrder, Others, PathOf;
    LacksPattern("css0", ["/css0/"], cs);
  }

  lemma NotFc(cs: seq<string>)
    requires Others(cs, "rport-")
    ensures !InOrder(FC, PathOf(cs))
  {
    hide InOrder, Others, PathOf;
    LacksPattern("rport-", FC, cs);
  }

  lemma NotSas(cs: seq<string>)
    requires Others(cs, "end_device-")
    ensures !InOrder(SAS, PathOf(cs))
  {
    hide InOrder, Others, PathOf;
    LacksPattern("end_device-", SAS, cs);
  }

  lemma NotFirewireOrIscsi(cs: seq<string>)
    ensures Others(cs, "fw-host") ==> !InOrder(FIREWIRE, PathOf(cs))
    ensures Others(cs, "session") ==> !InOrder(ISCSI, PathOf(cs))
  {
    hide InOrder, Others, PathOf;
    if Others(cs, "fw-host") {
      LacksPattern("fw-host", FIREWIRE, cs);
    }
    if Others(cs, "session") {
      LacksPattern("session", ISCSI, cs);
    }
  }

  lemma NotScsiTtyOrUsb(cs: seq<string>)
    ensures Others(cs, "host") ==> !InOrder(SCSI, PathOf(cs))
    ensures Others(cs, "ttyUSB") ==> !InOrder(["/ttyUSB"], PathOf(cs))
    ensures Others(cs, "usb") ==> !InOrder(USB, PathOf(cs))
  {
    hide InOrder, Others, PathOf;
    if Others(cs, "host") {
      LacksPattern("host", SCSI, cs);
    }
    if Others(cs, "ttyUSB") {
      LacksPattern("ttyUSB", ["/ttyUSB"], cs);
    }
    if Others(cs, "usb") {
      LacksPattern("usb", USB, cs);
    }
  }

  lemma NotLate(cs: seq<string>)
    ensures Others(cs, "pci") ==> !InOrder(PCI, PathOf(cs))
    ensures Others(cs, "serio") ==> !InOrder(["/serio#"], PathOf(cs))
    ensures Others(cs, "platform") ==> !InOrder(["/platform/"], PathOf(cs))
  {
    hide InOrder, Others, PathOf;
    if Others(cs, "pci") {
      LacksPattern("pci", PCI, cs);
    }
    if Others(cs, "serio") {
      LacksPattern("serio", ["/serio#"], cs);
    }
    if Others(cs, "platform") {
      LacksPattern("platform", ["/platform/"], cs);
    }
  }

  lemma NotEarly(cs: seq<string>)
    requires Early(cs)
    ensures var s := PathOf(cs);
      && !InOrder(["/ide#/#.#"], s) && !InOrder(["/ide##/##.#"], s) && !InOrder(["/css0/"], s)
      && !InOrder(FC, s) && !InOrder(SAS, s)
  {
    hide InOrder, Others, PathOf;
    NotIde(cs);
    NotCss(cs);
    NotFc(cs);
    NotSas(cs);
  }

  /** A component that begins with a digit begins with no word of letters. */
  predicate Numeric(cs: seq<string>) {
    forall i :: 0 <= i < |cs| ==> cs[i] != "" && IsDigit(cs[i][0]) && '/' !in cs[i]
  }

  lemma NumericIsOther(cs: seq<string>, v: string)
    requires Numeric(cs) && v != "" && !IsDigit(v[0])
    ensures Others(cs, v)
  {
  }

  lemma NumericIsClear(cs: seq<string>)
    requires Numeric(cs)
    ensures Clear(cs)
  {
    hide Others;
    NumericIsOther(cs, "ide");
    NumericIsOther(cs, "css0");
    NumericIsOther(cs, "rport-");
    NumericIsOther(cs, "end_device-");
    NumericIsOther(cs, "fw-host");
    NumericIsOther(cs, "session");
    NumericIsOther(cs, "host");
    NumericIsOther(cs, "ttyUSB");
    NumericIsOther(cs, "usb");
  }

  /** A component that differs from the word at place `k`. */
  lemma OneOther(c: string, v: string, k: nat)
    requires '/' !in c && k < |c| && k < |v| && c[k] != v[k]
    ensures Others([c], v)
  {
  }

  /** A component whose first letter begins none of the words. */
  lemma ClearByFirst(c: string)
    requires c != "" && '/' !in c && c[0] !in "icrefshtu"
    ensures Clear([c])
  {
    hide Others;
    var x := c[0];
    NotAmong(x);
    OneOther(c, "ide", 0);
    OneOther(c, "css0", 0);
    OneOther(c, "rport-", 0);
    OneOther(c, "end_device-", 0);
    OneOther(c, "fw-host", 0);
    OneOther(c, "session", 0);
    OneOther(c, "host", 0);
    OneOther(c, "ttyUSB", 0);
    OneOther(c, "usb", 0);
  }

  lemma NotAmong(x: char)
    requires x !in "icrefshtu"
    ensures x != 'i' && x != 'c' && x != 'r' && x != 'e' && x != 'f' && x != 's' && x != 'h' && x != 't' && x != 'u'
  {
    var l := "icrefshtu";
    assert l[0] in l && l[1] in l && l[2] in l && l[3] in l && l[4] in l;
    assert l[5] in l && l[6] in l && l[7] in l && l[8] in l;
  }
}

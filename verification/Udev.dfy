/**
 How udev reads a rule: pairs of a key, an operator and a quoted value, and the devices
 that match them. Nothing here knows how the generators write their rules.
 */
module Udev {
  import opened Text

  // ---------- reading a rule ----------

  datatype Pair = Pair(key: string, op: string, value: string)

  predicate IsGap(c: char) {
    c == ' ' || c == ','
  }

  function SkipGaps(s: string): (r: string)
    ensures |r| <= |s| && (r != "" ==> !IsGap(r[0]))
  {
    if s != "" && IsGap(s[0]) then SkipGaps(s[1..]) else s
  }

  /** The place of the first character of `cs`. */
  function FirstOf(cs: string, s: string): (n: nat)
    ensures n <= |s| && forall i :: 0 <= i < n ==> s[i] !in cs
    ensures n < |s| ==> s[n] in cs
  {
    if s == "" || s[0] in cs then 0 else 1 + FirstOf(cs, s[1..])
  }

  function OpAt(s: string): string {
    if "==" <= s then "==" else if "+=" <= s then "+=" else if "=" <= s then "=" else ""
  }

  datatype Reading = Reading(pair: Pair, rest: string)

  /** One pair at the beginning of `s`, and what follows it. */
  function FirstPair(s: string): (r: Option<Reading>)
    ensures r.Some? ==> |r.value.rest| < |s|
  {
    var n := FirstOf("=+", s);
    var op := OpAt(s[n..]);
    if n == 0 || op == "" then None
    else
      var quoted := s[n + |op|..];
      if quoted == "" || quoted[0] != '\"' then None
      else
        var m := FirstOf("\"", quoted[1..]);
        if m == |quoted| - 1 then None
        else Some(Reading(Pair(s[..n], op, quoted[1..m + 1]), quoted[m + 2..]))
  }

  /** The pairs of a line, as far as it can be read. */
  function Pairs(line: string): seq<Pair>
    decreases |line|
  {
    match FirstPair(SkipGaps(line))
    case None => []
    case Some(r) => [r.pair] + Pairs(r.rest)
  }

  // ---------- what is written is what is read ----------

  function PairText(p: Pair): string {
    p.key + p.op + "\"" + p.value + "\""
  }

  predicate KeyChar(c: char) {
    c != '=' && c != '+' && c != ' ' && c != ','
  }

  predicate Writable(p: Pair) {
    && p.key != "" && (forall i :: 0 <= i < |p.key| ==> KeyChar(p.key[i]))
    && (p.op == "==" || p.op == "=" || p.op == "+=")
    && '\"' !in p.value
  }

  lemma FirstOfIs(cs: string, s: string, n: nat)
    requires n <= |s| && forall i :: 0 <= i < n ==> s[i] !in cs
    requires n < |s| ==> s[n] in cs
    ensures FirstOf(cs, s) == n
  {
  }

  lemma OpIs(op: string, rest: string)
    requires op == "==" || op == "=" || op == "+="
    requires rest != "" && rest[0] == '\"'
    ensures OpAt(op + rest) == op
  {
    var s := op + rest;
    assert s[0] == op[0] && s[1] == if |op| == 2 then op[1] else '\"';
    if op == "==" {
      assert s[..2] == "==";
    } else if op == "+=" {
      assert s[..2] == "+=";
    } else {
      assert s[..1] == "=";
    }
  }

  lemma PairsOfOne(p: Pair, rest: string)
    requires Writable(p)
    ensures Pairs(PairText(p) + rest) == [p] + Pairs(rest)
  {
    hide FirstPair, Writable;
    var line := PairText(p) + rest;
    FirstPairIs(p, rest);
    StartsWithKey(p, rest);
  }

  lemma StartsWithKey(p: Pair, rest: string)
    requires Writable(p)
    ensures SkipGaps(PairText(p) + rest) == PairText(p) + rest
  {
    assert (PairText(p) + rest)[0] == p.key[0];
  }

  lemma FirstPairIs(p: Pair, rest: string)
    requires Writable(p)
    ensures FirstPair(PairText(p) + rest) == Some(Reading(p, rest))
  {
    hide FirstOf, OpAt, PairText, KeyChar;
    var q := "\"" + p.value + "\"" + rest;
    PairParts(p, rest);
    KeyEnds(p.key, p.op + q);
    OpIs(p.op, q);
    ValueOf(p.value, rest);
  }

  lemma PairParts(p: Pair, rest: string)
    ensures var line, q, n := PairText(p) + rest, "\"" + p.value + "\"" + rest, |p.key|;
      && line == p.key + (p.op + q) && n + |p.op| <= |line|
      && line[n..] == p.op + q && line[..n] == p.key && line[n + |p.op|..] == q
  {
    var line, q, n := PairText(p) + rest, "\"" + p.value + "\"" + rest, |p.key|;
    assert line == p.key + (p.op + q);
    assert (p.op + q)[|p.op|..] == q;
  }

  lemma KeyEnds(key: string, rest: string)
    requires forall i :: 0 <= i < |key| ==> KeyChar(key[i])
    requires rest != "" && (rest[0] == '=' || rest[0] == '+')
    ensures FirstOf("=+", key + rest) == |key|
  {
    hide FirstOf;
    var s := key + rest;
    forall i | 0 <= i < |key|
      ensures s[i] !in "=+"
    {
      assert s[i] == key[i];
    }
    assert s[|key|] == rest[0] && "=+"[0] == '=' && "=+"[1] == '+';
    FirstOfIs("=+", s, |key|);
  }

  lemma ValueOf(value: string, rest: string)
    requires '\"' !in value
    ensures var q := "\"" + value + "\"" + rest;
      && FirstOf("\"", q[1..]) == |value| && |value| < |q| - 1
      && q[0] == '\"' && q[1..|value| + 1] == value && q[|value| + 2..] == rest
  {
    var q := "\"" + value + "\"" + rest;
    var v := q[1..];
    assert v == value + ("\"" + rest);
    forall i | 0 <= i < |value|
      ensures v[i] !in "\""
    {
      assert v[i] == value[i] && value[i] in value;
    }
    assert v[|value|] == '\"' && '\"' in "\"";
    FirstOfIs("\"", v, |value|);
    assert q[1..|value| + 1] == v[..|value|] && q[|value| + 2..] == v[|value| + 1..];
  }

  lemma PairsAfterGap(s: string)
    ensures Pairs(", " + s) == Pairs(s)
  {
    hide FirstPair;
    var t := ", " + s;
    assert t[1..] == " " + s && (" " + s)[1..] == s;
    assert SkipGaps(t) == SkipGaps(" " + s) == SkipGaps(s);
  }

  /** Pairs, each after a comma and a blank. */
  function Listed(ps: seq<Pair>): string {
    if ps == [] then "" else ", " + PairText(ps[0]) + Listed(ps[1..])
  }

  predicate AllWritable(ps: seq<Pair>) {
    forall i :: 0 <= i < |ps| ==> Writable(ps[i])
  }

  lemma {:induction false} PairsOfListed(ps: seq<Pair>, rest: string)
    requires AllWritable(ps)
    ensures Pairs(Listed(ps) + rest) == ps + Pairs(rest)
  {
    hide Pairs, PairText, Writable;
    if ps == [] {
      assert Listed(ps) + rest == rest;
    } else {
      var p, more := ps[0], Listed(ps[1..]) + rest;
      PairsOfListed(ps[1..], rest);
      PairsOfOne(p, more);
      PairsAfterGap(PairText(p) + more);
      assert Listed(ps) + rest == ", " + (PairText(p) + more);
      assert ps == [p] + ps[1..];
    }
  }

  lemma {:induction false} ListedConcat(a: seq<Pair>, b: seq<Pair>)
    ensures Listed(a + b) == Listed(a) + Listed(b)
  {
    hide PairText;
    if a == [] {
      assert a + b == b;
    } else {
      ListedConcat(a[1..], b);
      assert (a + b)[1..] == a[1..] + b;
    }
  }

  lemma ListedOne(p: Pair)
    ensures Listed([p]) == ", " + PairText(p)
  {
    assert [p][1..] == [];
  }

  // ---------- patterns ----------

  /** A value matches: `*` stands for any text, `?` for any character. */
  predicate Fits(p: string, s: string)
    decreases |p| + |s|
  {
    if p == "" then s == ""
    else if p[0] == '*' then Fits(p[1..], s) || (s != "" && Fits(p, s[1..]))
    else s != "" && (p[0] == '?' || p[0] == s[0]) && Fits(p[1..], s[1..])
  }

  /** A value without characters that stand for others. */
  predicate Literal(v: string) {
    forall i :: 0 <= i < |v| ==> v[i] !in "*?[|\""
  }

  lemma {:induction false} LiteralFits(v: string, s: string)
    requires Literal(v)
    ensures Fits(v, s) <==> v == s
  {
    if v != "" && s != "" {
      LiteralFits(v[1..], s[1..]);
      assert v[0] !in "*?[|\"";
      assert v == [v[0]] + v[1..] && s == [s[0]] + s[1..];
    } else if v != "" {
      assert v[0] !in "*?[|\"";
    }
  }

  lemma {:induction false} StarFits(s: string)
    ensures Fits("*", s)
  {
    assert "*"[1..] == "";
    if s != "" {
      StarFits(s[1..]);
    }
  }

  lemma SomethingFits(s: string)
    ensures Fits("?*", s) <==> s != ""
  {
    assert "?*"[1..] == "*";
    if s != "" {
      StarFits(s[1..]);
    }
  }

  lemma {:induction false} BeginningFits(v: string, s: string)
    requires Literal(v)
    ensures Fits(v + "*", s) <==> v <= s
  {
    if v == "" {
      assert v + "*" == "*";
      StarFits(s);
    } else {
      assert v[0] !in "*?[|\"" && (v + "*")[0] == v[0] && (v + "*")[1..] == v[1..] + "*";
      if s != "" {
        BeginningFits(v[1..], s[1..]);
        assert v[1..] <= s[1..] && v[0] == s[0] <==> v <= s;
      }
    }
  }

  // ---------- devices ----------

  datatype Node = Node(kernel: string, driver: string)

  /** A device with its attributes, its environment, and the chain from itself up through its parents. */
  datatype Device = Device(
    subsystem: string, kernel: string, attrs: map<string, string>, env: map<string, string>, chain: seq<Node>)

  function Lookup(m: map<string, string>, x: string): Option<string> {
    if x in m then Some(m[x]) else None
  }

  /** The text a condition is about; keys in the plural look at one node of the chain. */
  function Subject(d: Device, action: string, node: Node, key: string): Option<string> {
    if key == "SUBSYSTEM" then Some(d.subsystem)
    else if key == "ACTION" then Some(action)
    else if key == "KERNEL" then Some(d.kernel)
    else if key == "KERNELS" then Some(node.kernel)
    else if key == "DRIVERS" then Some(node.driver)
    else if "ATTR{" <= key && key[|key| - 1] == '}' then Lookup(d.attrs, key[5..|key| - 1])
    else if "ENV{" <= key && key[|key| - 1] == '}' then Lookup(d.env, key[4..|key| - 1])
    else None
  }

  predicate Holds(d: Device, action: string, node: Node, p: Pair) {
    var s := Subject(d, action, node, p.key);
    s.Some? && Fits(p.value, s.value)
  }

  predicate AllHold(d: Device, action: string, node: Node, ps: seq<Pair>) {
    forall i :: 0 <= i < |ps| && ps[i].op == "==" ==> Holds(d, action, node, ps[i])
  }

  /** The rule applies: all conditions hold, those in the plural for one node of the chain. */
  predicate Applies(line: string, d: Device, action: string) {
    exists i :: 0 <= i < |d.chain| && AllHold(d, action, d.chain[i], Pairs(line))
  }

  lemma AllHoldConcat(d: Device, action: string, node: Node, a: seq<Pair>, b: seq<Pair>)
    ensures AllHold(d, action, node, a + b) <==> AllHold(d, action, node, a) && AllHold(d, action, node, b)
  {
    hide Holds;
    var c := a + b;
    assert forall i :: 0 <= i < |a| ==> c[i] == a[i];
    assert forall i :: 0 <= i < |b| ==> c[|a| + i] == b[i];
  }

  lemma AllHoldOne(d: Device, action: string, node: Node, p: Pair)
    ensures AllHold(d, action, node, [p]) <==> (p.op == "==" ==> Holds(d, action, node, p))
  {
    hide Holds;
    assert [p][0] == p;
  }
}

/**
 The allocator of rule_generator.functions: from the names in use, the suffix
 of the first free device.
 */
module Allocator {
  import opened Text

  // ---------- the shell function ----------

  /** `${links%%[ 0-9]*}`: everything before the first space or digit. */
  function BaseOf(links: string): (base: string)
    ensures base <= links
    ensures forall i :: 0 <= i < |base| ==> base[i] != ' ' && !IsDigit(base[i])
  {
    if links == [] || links[0] == ' ' || IsDigit(links[0]) then []
    else [links[0]] + BaseOf(links[1..])
  }

  /** `${name#$basename}`, with the empty text replaced by 0. */
  function NumText(base: string, name: string): string {
    var num := if base <= name then name[|base|..] else name;
    if num == [] then "0" else num
  }

  /** The loop's `max` after the names `ws`; `None` stands for the initial -1. */
  function MaxText(base: string, ws: seq<string>): (m: Option<string>)
    ensures m.Some? ==> m.value != [] && AllDigits(m.value)
  {
    if ws == [] then None
    else
      var m, num := MaxText(base, ws[..|ws| - 1]), NumText(base, ws[|ws| - 1]);
      if TestNumber(num).Some? && (m.None? || TestNumber(num).value > Value(m.value)) then Some(num) else m
  }

  /** What `raw_find_next_available` prints; `None` when `$((...))` rejects the numeral. */
  function NextAvailable(links: string): Option<string> {
    match MaxText(BaseOf(links), Words(links))
    case None => Some("")
    case Some(m) =>
      match Arith(m)
      case None => None
      case Some(v) => Some(Dec(v + 1))
  }

  /** The function as it runs: one pass over the words, keeping the largest number's text. */
  method RawFindNextAvailable(links: string) returns (r: Option<string>)
    ensures r == NextAvailable(links)
  {
    var base := BaseOf(links);
    var names := Words(links);
    var max: Option<string> := None;
    for i := 0 to |names|
      invariant max == MaxText(base, names[..i])
    {
      var num := if base <= names[i] then names[i][|base|..] else names[i];
      if num == [] {
        num := "0";
      }
      var n := TestNumber(num);
      assert names[..i + 1][..i] == names[..i];
      if n.Some? && (max.None? || n.value > Value(max.value)) {
        max := Some(num);
      }
    }
    assert names[..|names|] == names;
    if max.None? {
      return Some("");
    }
    var v := Arith(max.value);
    r := if v.None? then None else Some(Dec(v.value + 1));
  }

  // ---------- what it promises ----------

  predicate IsBase(base: string) {
    forall i :: 0 <= i < |base| ==> base[i] != ' ' && !IsDigit(base[i])
  }

  /** `base` itself, or `base` followed by digits. */
  predicate IsMember(base: string, name: string) {
    name != [] && base <= name && AllDigits(name[|base|..])
  }

  /** A bare name counts as number 0. */
  function Number(base: string, name: string): nat
    requires IsMember(base, name)
  {
    Value(name[|base|..])
  }

  predicate AllMembers(base: string, names: seq<string>) {
    forall n :: n in names ==> IsMember(base, n)
  }

  /** No numeral of the list has a leading zero. */
  predicate AllCanonical(base: string, names: seq<string>)
    requires AllMembers(base, names)
  {
    forall n :: n in names ==> n == base || Canonical(n[|base|..])
  }

  lemma MembersAreWords(base: string, names: seq<string>)
    requires IsBase(base) && AllMembers(base, names)
    ensures forall n :: n in names ==> IsWord(n)
  {
    forall n | n in names
      ensures IsWord(n)
    {
      assert IsMember(base, n);
      forall i | 0 <= i < |n|
        ensures n[i] != ' '
      {
        assert i < |base| ==> n[i] == base[i];
        assert i >= |base| ==> n[|base|..][i - |base|] == n[i];
      }
    }
  }

  lemma {:induction false} BaseOfPrefix(base: string, links: string)
    requires IsBase(base) && base <= links
    requires |base| < |links| ==> links[|base|] == ' ' || IsDigit(links[|base|])
    ensures BaseOf(links) == base
  {
    if base != [] {
      assert links[0] == base[0];
      BaseOfPrefix(base[1..], links[1..]);
    }
  }

  /** The base is recovered from the first name of the list. */
  lemma BaseRecovered(base: string, names: seq<string>)
    requires IsBase(base) && names != [] && AllMembers(base, names)
    ensures BaseOf(Join(names)) == base
  {
    var links, first := Join(names), names[0];
    assert first in names && IsMember(base, first);
    assert first <= links;
    if first != base {
      assert first[|base|..][0] == first[|base|];
    }
    BaseOfPrefix(base, links);
  }

  /** The text of the member's number: `0` for a bare name. */
  lemma NumTextOf(base: string, name: string)
    requires IsMember(base, name)
    ensures var num := NumText(base, name);
      && num != []
      && AllDigits(num) && Value(num) == Number(base, name) && (num == name[|base|..] || (name == base && num == "0"))
  {
    if name[|base|..] == [] {
      assert name == base;
      assert "0"[..0] == "" && Value("0") == 0;
    }
  }

  /** The loop ends with the text of the largest number, and that text is in the list. */
  lemma {:induction false} MaxIsMax(base: string, names: seq<string>)
    requires names != [] && AllMembers(base, names)
    ensures var m := MaxText(base, names);
      && m.Some?
      && IsLargest(base, names, Value(m.value))
      && exists n :: n in names && NumText(base, n) == m.value
  {
    hide NumText;
    var last, front := names[|names| - 1], names[..|names| - 1];
    assert last in names && IsMember(base, last);
    NumTextOf(base, last);
    assert forall n :: n in names ==> n in front || n == last;
    if front == [] {
      assert MaxText(base, front) == None;
    } else {
      assert forall n :: n in front ==> n in names;
      MaxIsMax(base, front);
    }
  }

  /** `k` is the largest number in use, and it is in use. */
  predicate IsLargest(base: string, names: seq<string>, k: nat) {
    && (forall n :: n in names ==> IsMember(base, n) && Number(base, n) <= k)
    && (exists n :: n in names && IsMember(base, n) && Number(base, n) == k)
  }

  lemma AboveLargestIsFresh(base: string, names: seq<string>, k: nat)
    requires AllMembers(base, names) && IsLargest(base, names, k)
    ensures base + Dec(k + 1) !in names
  {
    var name := base + Dec(k + 1);
    ValueOfDec(k + 1);
    assert name[|base|..] == Dec(k + 1);
    assert IsMember(base, name) ==> Number(base, name) == k + 1;
  }

  /** What is printed, from the text of the largest number. */
  lemma NextFromMax(base: string, names: seq<string>)
    requires IsBase(base) && AllMembers(base, names) && names != []
    ensures var m := MaxText(base, names);
      m.Some? && NextAvailable(Join(names)) == match Arith(m.value) case None => None case Some(v) => Some(Dec(v + 1))
  {
    MembersAreWords(base, names);
    WordsOfJoin(names);
    BaseRecovered(base, names);
    MaxIsMax(base, names);
  }

  /**
   The allocator's law. For every list of names of one family whose largest numeral both
   readings take for the same number: the result is empty exactly when the list is,
   otherwise it is one more than the largest number in use (a bare name counting as 0),
   and the name it makes is not in the list.
   */
  lemma NextAvailableIsFresh(base: string, names: seq<string>)
    requires IsBase(base) && AllMembers(base, names)
    requires var m := MaxText(base, names); m.Some? ==> Arith(m.value) == Some(Value(m.value))
    ensures var r := NextAvailable(Join(names));
      && r.Some?
      && (r.value == "" <==> names == [])
      && (names != [] ==> exists k: nat :: IsLargest(base, names, k) && r.value == Dec(k + 1))
      && base + r.value !in names
  {
    hide NextAvailable, MaxText, Arith, Join, IsMember, IsLargest, AllMembers, Dec, Value;
    if names != [] {
      NextFromMax(base, names);
      MaxIsMax(base, names);
      AboveLargestIsFresh(base, names, Value(MaxText(base, names).value));
    } else {
      NextOfNone();
    }
  }

  lemma NextOfNone()
    ensures NextAvailable(Join([])) == Some("")
  {
  }

  /** Numerals without leading zeros are read alike, so for them the law holds always. */
  lemma CanonicalReadsAlike(base: string, names: seq<string>)
    requires AllMembers(base, names) && AllCanonical(base, names)
    ensures var m := MaxText(base, names); m.Some? ==> Arith(m.value) == Some(Value(m.value))
  {
    if names != [] {
      MaxIsMax(base, names);
      var m := MaxText(base, names).value;
      var n :| n in names && NumText(base, n) == m;
      NumTextOf(base, n);
      DecOfValue(m);
    }
  }

  // ---------- where it stops holding ----------

  /** The list gets a number, and the name made from it is not in the list. */
  predicate GetsFresh(base: string, names: seq<string>) {
    var r := NextAvailable(Join(names));
    r.Some? && base + r.value !in names
  }

  /** A list of members whose largest numeral is written `m`. */
  predicate LargestIs(base: string, names: seq<string>, m: string) {
    AllMembers(base, names) && MaxText(base, names) == Some(m)
  }

  /**
   The exact condition. All lists whose largest numeral is written `m` get a fresh name
   if and only if `test` and `$((...))` take `m` for the same number.
   */
  lemma FreshExactly(base: string, m: string)
    requires IsBase(base) && m != [] && AllDigits(m)
    ensures (forall names :: LargestIs(base, names, m) ==> GetsFresh(base, names)) <==> Arith(m) == Some(Value(m))
  {
    if Arith(m) == Some(Value(m)) {
      forall names | LargestIs(base, names, m)
        ensures GetsFresh(base, names)
      {
        NextAvailableIsFresh(base, names);
      }
    } else {
      var names := Unlucky(base, m);
      assert LargestIs(base, names, m) && !GetsFresh(base, names);
    }
  }

  lemma {:induction false} OctalIsLess(s: string)
    requires AllDigits(s)
    ensures ValueIn(8, s) <= Value(s)
  {
    if s != [] {
      OctalIsLess(s[..|s| - 1]);
    }
  }

  /** A list with largest numeral `m` that gets no name, or one in use. */
  lemma Unlucky(base: string, m: string) returns (names: seq<string>)
    requires IsBase(base) && m != [] && AllDigits(m) && Arith(m) != Some(Value(m))
    ensures LargestIs(base, names, m) && !GetsFresh(base, names)
  {
    hide Arith, NextAvailable, TestNumber;
    MaxOfOne(base, m);
    if Arith(m).None? {
      names := [base + m];
    } else {
      var d := Dec(Arith(m).value + 1);
      NoMore(m);
      names := [base + m, base + d];
      assert (base + d)[|base|..] == d && names[..1] == [base + m];
      assert names[1] == base + d && names[1] in names;
      TestOf(d);
      assert NumText(base, base + d) == d;
    }
    assert forall n :: n in names ==> IsMember(base, n);
    NextFromMax(base, names);
  }

  lemma TestOf(s: string)
    requires s != [] && AllDigits(s)
    ensures TestNumber(s) == Some(Value(s))
  {
  }

  /** An octal reading that differs is smaller, so one more is no more than the decimal reading. */
  lemma NoMore(m: string)
    requires m != [] && AllDigits(m) && Arith(m).Some? && Arith(m) != Some(Value(m))
    ensures Value(Dec(Arith(m).value + 1)) <= Value(m)
  {
    OctalIsLess(m);
    ValueOfDec(Arith(m).value + 1);
  }

  lemma MaxOfOne(base: string, m: string)
    requires m != [] && AllDigits(m)
    ensures MaxText(base, [base + m]) == Some(m) && IsMember(base, base + m)
  {
    assert (base + m)[|base|..] == m && [base + m][..0] == [];
    assert MaxText(base, [base + m][..0]) == None;
  }

  /**
   A list on which it fails: `test` takes 010 for ten, `$((...))`
   takes it for eight, and the name allocated, eth9, is one of the two in use.
   */
  lemma LeadingZeroCollides()
    ensures NextAvailable(Join(["eth9", "eth010"])) == Some("9")
  {
    var ws := ["eth9", "eth010"];
    var links := Join(ws);
    assert links == "eth9" + " " + "eth010" by {
      assert ws[1..] == ["eth010"];
    }
    WordsOfJoin(ws);
    BaseOfPrefix("eth", links);
    Numerals();
    assert "eth9"[3..] == "9" && "eth010"[3..] == "010";
    assert ws[..1] == ["eth9"] && ws[..1][..0] == [];
    assert MaxText("eth", ws[..1][..0]) == None;
    assert MaxText("eth", ws[..1]) == Some("9");
    assert MaxText("eth", ws) == Some("010");
  }

  lemma Numerals()
    ensures Value("9") == 9 && Value("010") == 10
    ensures Arith("010") == Some(8) && Dec(9) == "9"
  {
    assert "9"[..0] == "" && "0"[..0] == "" && "01"[..1] == "0" && "010"[..2] == "01";
    assert Value("") == 0 && ValueIn(8, "") == 0;
    assert Value("0") == 0 && Value("01") == 1;
    assert ValueIn(8, "0") == 0 && ValueIn(8, "01") == 1;
  }
}

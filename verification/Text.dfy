/**
 Text as the shell scripts see it: decimal numerals, the two readings of a
 numeral (`test` reads base 10, `$((...))` reads a leading zero as octal), and
 lists of words joined by single spaces.
 */
module Text {

  datatype Option<+T> = None | Some(value: T)

  // ---------- numerals ----------

  predicate IsDigit(c: char) {
    '0' <= c <= '9'
  }

  predicate AllDigits(s: string) {
    forall i :: 0 <= i < |s| ==> IsDigit(s[i])
  }

  function DigitValue(c: char): (v: nat)
    requires IsDigit(c)
    ensures v < 10
  {
    c as int - '0' as int
  }

  function DigitChar(d: nat): (c: char)
    requires d < 10
    ensures IsDigit(c) && DigitValue(c) == d
    ensures d != 0 ==> c != '0'
  {
    ('0' as int + d) as char
  }

  /** The numeral a shell prints for `n`. */
  function Dec(n: nat): (s: string)
    ensures s != [] && AllDigits(s)
  {
    if n < 10 then [DigitChar(n)] else Dec(n / 10) + [DigitChar(n % 10)]
  }

  /** The number a digit string denotes in base `b`. */
  function ValueIn(b: nat, s: string): nat
    requires AllDigits(s)
  {
    if s == [] then 0 else b * ValueIn(b, s[..|s| - 1]) + DigitValue(s[|s| - 1])
  }

  function Value(s: string): nat
    requires AllDigits(s)
  {
    ValueIn(10, s)
  }

  /** A decimal numeral without a leading zero: what the scripts themselves write. */
  predicate Canonical(s: string) {
    && s != []
    && AllDigits(s)
    && (|s| > 1 ==> s[0] != '0')
  }

  /** The operand of `test`'s `-gt`, `-lt`: base 10, and not a number unless all digits. */
  function TestNumber(s: string): Option<nat> {
    if s != [] && AllDigits(s) then Some(Value(s)) else None
  }

  /** The operand of `$((...))`: a leading zero means octal, and 8 or 9 is then an error. */
  function Arith(s: string): Option<nat>
    requires AllDigits(s)
  {
    if |s| > 1 && s[0] == '0' then
      if exists i :: 0 <= i < |s| && s[i] > '7' then None else Some(ValueIn(8, s))
    else
      Some(Value(s))
  }

  lemma {:induction false} ValueOfDec(n: nat)
    ensures Value(Dec(n)) == n
  {
    if n >= 10 {
      ValueOfDec(n / 10);
      var s, d := Dec(n), DigitChar(n % 10);
      assert s == Dec(n / 10) + [d];
      assert s[..|s| - 1] == Dec(n / 10) && s[|s| - 1] == d;
      assert Value(s) == 10 * Value(Dec(n / 10)) + DigitValue(d);
    } else {
      var s := [DigitChar(n)];
      assert s[..0] == "" && ValueIn(10, s[..0]) == 0 && Dec(n) == s;
    }
  }

  lemma {:induction false} DecCanonical(n: nat)
    ensures Canonical(Dec(n))
    ensures n != 0 ==> Dec(n)[0] != '0'
  {
    if n >= 10 {
      DecCanonical(n / 10);
    }
  }

  /** A canonical numeral is the one printed for its value: equal values, equal text. */
  lemma {:induction false} DecOfValue(s: string)
    requires Canonical(s)
    ensures Dec(Value(s)) == s
    ensures Arith(s) == Some(Value(s))
  {
    var n := |s| - 1;
    if n > 0 {
      DecOfValue(s[..n]);
      var d := DigitValue(s[n]);
      var v := Value(s[..n]);
      LeadingDigit(s[..n]);
      assert Value(s) == 10 * v + d;
      assert (10 * v + d) / 10 == v && (10 * v + d) % 10 == d;
      assert s == s[..n] + [s[n]];
    }
  }

  lemma {:induction false} LeadingDigit(s: string)
    requires s != [] && AllDigits(s) && s[0] != '0'
    ensures Value(s) > 0
  {
    if |s| > 1 {
      LeadingDigit(s[..|s| - 1]);
    }
  }

  lemma DecInjective(a: nat, b: nat)
    requires Dec(a) == Dec(b)
    ensures a == b
  {
    ValueOfDec(a);
    ValueOfDec(b);
  }

  // ---------- words ----------

  function FirstSpace(s: string): (n: nat)
    ensures n <= |s|
    ensures forall i :: 0 <= i < n ==> s[i] != ' '
    ensures n < |s| ==> s[n] == ' '
  {
    if s == [] || s[0] == ' ' then 0 else 1 + FirstSpace(s[1..])
  }

  /** What an unquoted expansion yields as the words of a `for` loop. */
  function Words(s: string): seq<string>
    decreases |s|
  {
    if s == [] then []
    else
      var n := FirstSpace(s);
      if n == 0 then Words(s[1..]) else [s[..n]] + Words(s[n..])
  }

  /** What `echo $(...)` prints for a list of words. */
  function Join(ws: seq<string>): string {
    if ws == [] then ""
    else if |ws| == 1 then ws[0]
    else ws[0] + " " + Join(ws[1..])
  }

  predicate IsWord(w: string) {
    w != [] && ' ' !in w
  }

  lemma FirstSpaceIs(s: string, n: nat)
    requires n <= |s|
    requires forall i :: 0 <= i < n ==> s[i] != ' '
    requires n < |s| ==> s[n] == ' '
    ensures FirstSpace(s) == n
  {
  }

  lemma WordThenRest(w: string, rest: string)
    requires IsWord(w) && (rest == "" || rest[0] == ' ')
    ensures Words(w + rest) == [w] + Words(rest)
  {
    var s := w + rest;
    assert forall i :: 0 <= i < |w| ==> s[i] == w[i] && w[i] in w;
    FirstSpaceIs(s, |w|);
    assert s[..|w|] == w && s[|w|..] == rest;
  }

  lemma SkipSpace(s: string)
    ensures Words(" " + s) == Words(s)
  {
    assert FirstSpace(" " + s) == 0 && (" " + s)[1..] == s;
  }

  lemma NoMoreWords(w: string)
    requires IsWord(w)
    ensures Words(w) == [w]
  {
    WordThenRest(w, "");
    assert w + "" == w;
  }

  lemma JoinMore(w: string, rest: seq<string>)
    requires rest != []
    ensures Join([w] + rest) == w + (" " + Join(rest))
  {
    assert ([w] + rest)[1..] == rest;
  }

  /** Splitting undoes joining. */
  lemma {:induction false} WordsOfJoin(ws: seq<string>)
    requires forall i :: 0 <= i < |ws| ==> IsWord(ws[i])
    ensures Words(Join(ws)) == ws
  {
    if ws != [] {
      hide Words, IsWord, Join;
      var w, rest := ws[0], ws[1..];
      assert ws == [w] + rest;
      if rest == [] {
        OneWord(w);
      } else {
        WordsOfJoin(rest);
        SkipSpace(Join(rest));
        JoinMore(w, rest);
        WordThenRest(w, " " + Join(rest));
      }
    }
  }

  lemma OneWord(w: string)
    requires IsWord(w)
    ensures Words(Join([w])) == [w]
  {
    NoMoreWords(w);
  }

  lemma JoinNonempty(ws: seq<string>)
    requires ws != [] && forall i :: 0 <= i < |ws| ==> IsWord(ws[i])
    ensures Join(ws) != []
  {
  }

  // ---------- lists ----------

  predicate Distinct<T(==)>(s: seq<T>) {
    forall i, j :: 0 <= i < j < |s| ==> s[i] != s[j]
  }

  lemma DistinctAppend<T>(s: seq<T>, t: seq<T>)
    requires Distinct(s) && Distinct(t)
    requires forall x :: x in t ==> x !in s
    ensures Distinct(s + t)
  {
    var u := s + t;
    forall i, j | 0 <= i < j < |u|
      ensures u[i] != u[j]
    {
      if i < |s| <= j {
        assert t[j - |s|] in t;
      }
    }
  }

  function Max(a: nat, b: nat): nat {
    if a >= b then a else b
  }

  /** Everything in `a` is in `b`. */
  predicate Within<T(==)>(a: seq<T>, b: seq<T>) {
    forall x :: x in a ==> x in b
  }
}

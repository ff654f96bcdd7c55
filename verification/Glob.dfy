/**
 Shell patterns and parameter expansions, as far as path_id uses them. A word is a
 stretch of a pattern between two stars; in it '#' stands for `[0-9]` and every other
 character for itself.
 */
module Glob {
  import opened Text

  predicate Fits(t: char, c: char) {
    if t == '#' then IsDigit(c) else t == c
  }

  /** The word matches at the start of `s`. */
  predicate At(w: string, s: string) {
    |w| <= |s| && forall k :: 0 <= k < |w| ==> Fits(w[k], s[k])
  }

  /** The first place where the word matches. */
  function FirstAt(w: string, s: string): (r: Option<nat>)
    ensures r.Some? ==> r.value + |w| <= |s| && At(w, s[r.value..])
    ensures r.Some? ==> forall j :: 0 <= j < r.value ==> !At(w, s[j..])
    ensures r.None? ==> forall j :: 0 <= j <= |s| ==> !At(w, s[j..])
  {
    if At(w, s) then
      assert s[0..] == s;
      Some(0)
    else if s == [] then None
    else
      var r := FirstAt(w, s[1..]);
      assert forall j :: 0 < j <= |s| ==> s[1..][j - 1..] == s[j..];
      assert s[0..] == s;
      if r.Some? then Some(r.value + 1) else None
  }

  /** The last place where the word matches. */
  function LastAt(w: string, s: string): (r: Option<nat>)
    ensures r.Some? ==> r.value + |w| <= |s| && At(w, s[r.value..])
    ensures r.Some? ==> forall j :: r.value < j <= |s| ==> !At(w, s[j..])
    ensures r.None? ==> forall j :: 0 <= j <= |s| ==> !At(w, s[j..])
  {
    if s == [] then
      if At(w, s) then Some(0) else None
    else
      var r := LastAt(w, s[1..]);
      assert forall j :: 0 < j <= |s| ==> s[1..][j - 1..] == s[j..];
      assert s[0..] == s;
      if r.Some? then Some(r.value + 1)
      else if At(w, s) then Some(0)
      else None
  }

  /** `*w*` */
  predicate Has(w: string, s: string) {
    FirstAt(w, s).Some?
  }

  /** `*w1*w2*...*wn*`: the words occur in this order without overlap. */
  predicate InOrder(ws: seq<string>, s: string)
    decreases |ws| + |s|
  {
    if ws == [] then true
    else
      || (At(ws[0], s) && InOrder(ws[1..], s[|ws[0]|..]))
      || (s != [] && InOrder(ws, s[1..]))
  }

  /** `${s%w*}` */
  function CutLast(w: string, s: string): (r: string)
    ensures r <= s
  {
    var i := LastAt(w, s);
    if i.Some? then s[..i.value] else s
  }

  /** `${s%%w*}` */
  function CutFirst(w: string, s: string): (r: string)
    ensures r <= s
  {
    var i := FirstAt(w, s);
    if i.Some? then s[..i.value] else s
  }

  /** `${s##*w}` */
  function AfterLast(w: string, s: string): string {
    var i := LastAt(w, s);
    if i.Some? then s[i.value + |w|..] else s
  }

  /** `${s#*w}` */
  function AfterFirst(w: string, s: string): string {
    var i := FirstAt(w, s);
    if i.Some? then s[i.value + |w|..] else s
  }

  // ---------- what the expansions mean ----------

  lemma Occurs(w: string, s: string, i: nat)
    requires i + |w| <= |s| && At(w, s[i..])
    ensures Has(w, s)
    ensures FirstAt(w, s).value <= i && LastAt(w, s).Some? && i <= LastAt(w, s).value
  {
  }

  lemma FirstAtIs(w: string, s: string, i: nat)
    requires i + |w| <= |s| && At(w, s[i..])
    requires forall j :: 0 <= j < i ==> !At(w, s[j..])
    ensures FirstAt(w, s) == Some(i)
  {
  }

  lemma LastAtIs(w: string, s: string, i: nat)
    requires i + |w| <= |s| && At(w, s[i..])
    requires forall j :: i < j <= |s| ==> !At(w, s[j..])
    ensures LastAt(w, s) == Some(i)
  {
  }

  lemma LastIffFirst(w: string, s: string)
    ensures LastAt(w, s).Some? <==> Has(w, s)
  {
  }

  /** A trailing star: a longer text still matches. */
  lemma {:induction false} InOrderExtends(ws: seq<string>, s: string, t: string)
    requires InOrder(ws, s)
    ensures InOrder(ws, s + t)
    decreases |ws| + |s|
  {
    if ws != [] {
      if At(ws[0], s) && InOrder(ws[1..], s[|ws[0]|..]) {
        InOrderExtends(ws[1..], s[|ws[0]|..], t);
        assert (s + t)[|ws[0]|..] == s[|ws[0]|..] + t;
      } else {
        InOrderExtends(ws, s[1..], t);
        assert (s + t)[1..] == s[1..] + t;
      }
    }
  }

  /** Each word of a matching pattern occurs somewhere. */
  lemma {:induction false} FirstWordOccurs(ws: seq<string>, s: string)
    requires ws != [] && InOrder(ws, s)
    ensures Has(ws[0], s)
    decreases |s|
  {
    if At(ws[0], s) {
      assert s[0..] == s;
      Occurs(ws[0], s, 0);
    } else {
      FirstWordOccurs(ws, s[1..]);
      var i := FirstAt(ws[0], s[1..]).value;
      assert s[1..][i..] == s[i + 1..];
      Occurs(ws[0], s, i + 1);
    }
  }

  /** Cutting at a word that occurs makes the text shorter. */
  lemma CutShortens(w: string, s: string)
    requires w != [] && Has(w, s)
    ensures |CutFirst(w, s)| < |s| && |CutLast(w, s)| < |s|
  {
    LastIffFirst(w, s);
  }
}

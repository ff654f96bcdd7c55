/**
 The text of a Fibre Channel LUN: two 16-bit halves in hexadecimal, the low one first.
 */
module Lun {

  const HALF: nat := 0x1_0000
  const WORD: nat := 0x1_0000_0000

  function HexDigit(d: nat): char
    requires d < 16
  {
    if d < 10 then ('0' as int + d) as char else ('a' as int + d - 10) as char
  }

  predicate IsHex(c: char) {
    '0' <= c <= '9' || 'a' <= c <= 'f'
  }

  function HexValue(c: char): (v: nat)
    requires IsHex(c)
    ensures v < 16
  {
    if c <= '9' then c as int - '0' as int else c as int - 'a' as int + 10
  }

  /** `printf "%04x"` of a number below 0x10000. */
  function Hex4(n: nat): (s: string)
    requires n < HALF
    ensures |s| == 4 && forall i :: 0 <= i < 4 ==> IsHex(s[i])
  {
    [HexDigit(n / 4096), HexDigit(n / 256 % 16), HexDigit(n / 16 % 16), HexDigit(n % 16)]
  }

  function Unhex4(s: string): nat
    requires |s| == 4 && forall i :: 0 <= i < 4 ==> IsHex(s[i])
  {
    4096 * HexValue(s[0]) + 256 * HexValue(s[1]) + 16 * HexValue(s[2]) + HexValue(s[3])
  }

  /** `$x & 0xFFFF` */
  function LowHalf(n: nat): (r: nat)
    ensures r < HALF
  {
    n % HALF
  }

  /** The branch `lun == 0` of the script. */
  const ZERO := "0x0000000000000000"

  function General(lun: nat): string {
    "0x" + Hex4(LowHalf(lun)) + Hex4(LowHalf(lun / HALF)) + "0000" + "0000"
  }

  function LunText(lun: nat): string {
    if lun == 0 then ZERO else General(lun)
  }

  /** The number read back from the two printed halves. */
  function Decode(s: string): nat
    requires |s| == 18 && forall i :: 2 <= i < 10 ==> IsHex(s[i])
  {
    Unhex4(s[2..6]) + HALF * Unhex4(s[6..10])
  }

  lemma DigitBack(d: nat)
    requires d < 16
    ensures IsHex(HexDigit(d)) && HexValue(HexDigit(d)) == d
  {
  }

  lemma Unhex4OfHex4(n: nat)
    requires n < HALF
    ensures Unhex4(Hex4(n)) == n
  {
    hide HexDigit, HexValue, IsHex;
    DigitBack(n / 4096);
    DigitBack(n / 256 % 16);
    DigitBack(n / 16 % 16);
    DigitBack(n % 16);
    assert n / 256 == 16 * (n / 4096) + n / 256 % 16;
    assert n / 16 == 16 * (n / 256) + n / 16 % 16;
  }

  /** The special case for zero prints what the general formula would. */
  lemma ZeroAgrees()
    ensures General(0) == ZERO
  {
    assert Hex4(0) == "0000";
  }

  /** Always `0x` and sixteen hexadecimal digits, the last eight zero. */
  lemma Shape(lun: nat)
    ensures var s := LunText(lun);
      |s| == 18 && s[..2] == "0x" && s[10..] == "00000000" && forall i :: 2 <= i < 18 ==> IsHex(s[i])
  {
    ZeroAgrees();
    var s := General(lun);
    var a, b := Hex4(LowHalf(lun)), Hex4(LowHalf(lun / HALF));
    assert s == "0x" + a + b + "00000000";
    assert s[2..6] == a && s[6..10] == b && s[10..] == "00000000";
    forall i | 2 <= i < 18
      ensures IsHex(s[i])
    {
      if i < 6 {
        assert s[i] == a[i - 2];
      } else if i < 10 {
        assert s[i] == b[i - 6];
      } else {
        assert s[i] == "00000000"[i - 10];
      }
    }
  }

  lemma Halves(lun: nat)
    ensures LowHalf(lun) + HALF * LowHalf(lun / HALF) == lun % WORD
  {
    var q := lun / WORD;
    var r := lun % WORD;
    assert lun == q * WORD + r;
    assert lun / HALF == q * HALF + r / HALF;
    assert lun % HALF == r % HALF;
  }

  /** Decoding recovers the low 32 bits, the whole of every LUN Linux hands out. */
  lemma DecodeOfText(lun: nat)
    ensures |LunText(lun)| == 18 && (forall i :: 2 <= i < 10 ==> IsHex(LunText(lun)[i]))
    ensures Decode(LunText(lun)) == lun % WORD
  {
    Shape(lun);
    ZeroAgrees();
    var s := General(lun);
    var a, b := Hex4(LowHalf(lun)), Hex4(LowHalf(lun / HALF));
    assert s == "0x" + a + b + "00000000";
    assert s[2..6] == a && s[6..10] == b;
    Unhex4OfHex4(LowHalf(lun));
    Unhex4OfHex4(LowHalf(lun / HALF));
    Halves(lun);
  }

  /** Two LUNs print alike exactly when they agree modulo 2^32. */
  lemma SameTextExactly(a: nat, b: nat)
    ensures LunText(a) == LunText(b) <==> a % WORD == b % WORD
  {
    DecodeOfText(a);
    DecodeOfText(b);
    if a % WORD == b % WORD {
      ZeroAgrees();
      HalvesOf(a);
      HalvesOf(b);
    }
  }

  lemma HalvesOf(lun: nat)
    ensures LowHalf(lun) == LowHalf(lun % WORD)
    ensures LowHalf(lun / HALF) == LowHalf(lun % WORD / HALF)
  {
    var q, r := lun / WORD, lun % WORD;
    assert lun == q * WORD + r;
    assert lun / HALF == q * HALF + r / HALF;
    assert lun % HALF == r % HALF;
    assert (q * HALF + r / HALF) % HALF == (r / HALF) % HALF;
  }
}

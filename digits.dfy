/** The per-chunk computation: every byte is read as a one-character decimal
    numeral, and the bytes that are not numerals count as 0. */
module Digits {
  import opened Common

  /** What `strconv.Atoi` returns: the value, and whether the text parsed
      (Go's `err == nil`). */
  datatype Parsed = Parsed(n: int, ok: bool)

  predicate IsDigitChar(c: char) {
    '0' <= c <= '9'
  }

  predicate AllDigits(d: string) {
    forall i :: 0 <= i < |d| ==> IsDigitChar(d[i])
  }

  /** The value of a run of decimal digits, read left to right. */
  function Decimal(d: string): nat
    requires AllDigits(d)
  {
    if d == [] then 0 else Decimal(d[..|d| - 1]) * 10 + (d[|d| - 1] as int - '0' as int)
  }

  /** `strconv.Atoi` on a string of fewer than 19 runes (Go's limit counts
      bytes; the only strings it is given here are one rune long): an
      optional sign followed by at least one decimal digit; anything else is
      a syntax error with value 0. */
  function Atoi(s: string): (r: Parsed)
    requires |s| < 19
    ensures !r.ok ==> r.n == 0
    ensures |s| == 1 ==> (r.ok <==> IsDigitChar(s[0]))
  {
    if |s| == 0 then Parsed(0, false)
    else
      var digits := if s[0] == '-' || s[0] == '+' then s[1..] else s;
      if digits == [] || !AllDigits(digits) then Parsed(0, false)
      else if s[0] == '-' then Parsed(-(Decimal(digits) as int), true)
      else Parsed(Decimal(digits), true)
  }

  /** `string(k)` for a byte `k`: the one-rune string whose rune has code
      `k`. Go encodes codes from 0x80 up as two UTF-8 bytes; those runes are
      not numerals, so the parse fails on them either way. */
  function RuneString(b: byte): (s: string)
    ensures |s| == 1
  {
    [(b as int) as char]
  }

  predicate IsDigit(b: byte) {
    48 <= b <= 57
  }

  /** What one byte adds to the sum: a numeral '0' to '9' its value, any
      other byte nothing. */
  function DigitValue(b: byte): (v: nat)
    ensures v <= 9
  {
    if IsDigit(b) then b as int - 48 else 0
  }

  /** `n, _ := strconv.Atoi(string(k))` with the error ignored gives exactly
      the digit value of `k`: a numeral parses to its value, and every other
      byte (a sign, a zero byte, a letter, a non-ASCII byte) fails to parse
      and leaves 0. */
  lemma AtoiOfByte(b: byte)
    ensures Atoi(RuneString(b)).n == DigitValue(b)
    ensures Atoi(RuneString(b)).ok <==> IsDigit(b)
  {
    var s := RuneString(b);
    assert s[..0] == [];
    assert AllDigits(s) ==> Decimal(s) == b as int - 48;
  }

  /** The sum of the digit values of `s`, accumulated left to right. */
  function DigitSum(s: seq<byte>): (r: nat)
    ensures r <= 9 * |s|
  {
    if s == [] then 0 else DigitSum(s[..|s| - 1]) + DigitValue(s[|s| - 1])
  }

  /** The digit sum of a concatenation is the sum of the digit sums: how a
      chunked job can add up its partial results. */
  lemma {:induction false} DigitSumAppend(a: seq<byte>, b: seq<byte>)
    ensures DigitSum(a + b) == DigitSum(a) + DigitSum(b)
  {
    if b == [] {
      assert a + b == a;
    } else {
      var b' := b[..|b| - 1];
      assert (a + b)[..|a + b| - 1] == a + b';
      DigitSumAppend(a, b');
    }
  }

  /** One more byte of the loop adds its digit value. */
  lemma DigitSumPrefixStep(s: seq<byte>, k: nat)
    requires k < |s|
    ensures DigitSum(s[..k + 1]) == DigitSum(s[..k]) + DigitValue(s[k])
  {
    assert s[..k + 1][..k] == s[..k];
  }

  /** Zero bytes contribute nothing. */
  lemma {:induction false} DigitSumZeros(k: nat)
    ensures DigitSum(Zeros(k)) == 0
  {
    if k > 0 {
      assert Zeros(k)[..k - 1] == Zeros(k - 1);
      DigitSumZeros(k - 1);
    }
  }

  /** Padding a buffer with zero bytes leaves its digit sum unchanged. */
  lemma DigitSumPadded(s: seq<byte>, k: nat)
    ensures DigitSum(s + Zeros(k)) == DigitSum(s)
  {
    DigitSumAppend(s, Zeros(k));
    DigitSumZeros(k);
  }

  /** A chunk sums to 0 exactly when none of its bytes is a numeral other
      than '0'. */
  lemma {:induction false} DigitSumZeroIffNoNonZeroDigit(s: seq<byte>)
    ensures DigitSum(s) == 0 <==> forall i :: 0 <= i < |s| ==> DigitValue(s[i]) == 0
  {
    if s != [] {
      var s' := s[..|s| - 1];
      DigitSumZeroIffNoNonZeroDigit(s');
      assert forall i :: 0 <= i < |s'| ==> s'[i] == s[i];
    }
  }

  /** The bytes of an ASCII text. */
  function Ascii(t: string): (s: seq<byte>)
    requires forall i :: 0 <= i < |t| ==> t[i] as int < 256
    ensures |s| == |t| && forall i :: 0 <= i < |t| ==> s[i] as int == t[i] as int
  {
    seq(|t|, i requires 0 <= i < |t| => t[i] as int as byte)
  }

  /** The worker's own example, summing the digits of three chunks. */
  lemma ChunkScenarioSums()
    ensures DigitSum(Ascii("123")) == 6
    ensures DigitSum(Ascii("456")) == 15
    ensures DigitSum(Ascii("789")) == 24
  {
    var a, b, c := Ascii("123"), Ascii("456"), Ascii("789");
    assert a == [49, 50, 51] && b == [52, 53, 54] && c == [55, 56, 57];
    assert a[..2][..1][..0] == [] && b[..2][..1][..0] == [] && c[..2][..1][..0] == [];
  }

  /** "123456789" as input bytes. */
  const NineDigits: seq<byte> := [49, 50, 51, 52, 53, 54, 55, 56, 57]

  lemma NineDigitsText()
    ensures NineDigits == Ascii("123456789")
  {
  }

  /** The nine digits add up to 45. */
  lemma NineDigitsSum()
    ensures DigitSum(NineDigits) == 45
  {
    var s := NineDigits;
    assert s[..0] == [];
    DigitSumPrefixStep(s, 0);
    DigitSumPrefixStep(s, 1);
    DigitSumPrefixStep(s, 2);
    DigitSumPrefixStep(s, 3);
    DigitSumPrefixStep(s, 4);
    DigitSumPrefixStep(s, 5);
    DigitSumPrefixStep(s, 6);
    DigitSumPrefixStep(s, 7);
    DigitSumPrefixStep(s, 8);
    assert s[..9] == s;
  }
}

/** The line-number prefix `fprintf(out, "%6d  ", number)` (cat.c:161): the
    counter in decimal, right-justified to width 6, then two spaces. */
module Decimal {
  import opened Bytes

  predicate IsDigit(b: byte) {
    DIGIT_ZERO <= b <= DIGIT_ZERO + 9
  }

  /** The decimal digits of n, most significant first, without leading zeros. */
  function Digits(n: nat): (r: seq<byte>)
    ensures |r| >= 1
    ensures forall k :: 0 <= k < |r| ==> IsDigit(r[k])
    ensures |r| > 1 ==> r[0] != DIGIT_ZERO
  {
    if n < 10 then [DIGIT_ZERO + n] else Digits(n / 10) + [DIGIT_ZERO + n % 10]
  }

  /** The number a string of decimal digits denotes. */
  function Value(ds: seq<byte>): nat
    requires forall k :: 0 <= k < |ds| ==> IsDigit(ds[k])
  {
    if ds == [] then 0
    else
      assert IsDigit(ds[|ds| - 1]);
      10 * Value(ds[..|ds| - 1]) + (ds[|ds| - 1] - DIGIT_ZERO)
  }

  /** Digits is read back by Value: the written number is the counter. */
  lemma {:induction false} DigitsValue(n: nat)
    ensures Value(Digits(n)) == n
  {
    if n >= 10 {
      DigitsValue(n / 10);
      assert Init(Digits(n)) == Digits(n / 10);
    }
  }

  function Pow10(k: nat): (r: nat)
    ensures r >= 1
  {
    if k == 0 then 1 else 10 * Pow10(k - 1)
  }

  /** A number takes at most k digits exactly when it is below 10^k. */
  lemma {:induction false} DigitsLength(n: nat, k: nat)
    requires k >= 1
    ensures |Digits(n)| <= k <==> n < Pow10(k)
  {
    if n >= 10 && k > 1 {
      DigitsLength(n / 10, k - 1);
      assert n / 10 < Pow10(k - 1) <==> n < 10 * Pow10(k - 1);
    } else if n < 10 && k > 1 {
      assert Pow10(k) == 10 * Pow10(k - 1);
    }
  }

  function Spaces(k: nat): (r: seq<byte>)
    ensures |r| == k && forall i :: 0 <= i < k ==> r[i] == SPACE
  {
    if k == 0 then [] else Spaces(k - 1) + [SPACE]
  }

  /** `%6d  `: spaces to fill a field of six, the digits, two spaces. */
  function NumberPrefix(n: nat): (r: seq<byte>)
    ensures |r| == (if |Digits(n)| < 6 then 6 else |Digits(n)|) + 2
    ensures r[|r| - 2..] == [SPACE, SPACE]
    ensures NL !in r
  {
    var ds := Digits(n);
    (if |ds| < 6 then Spaces(6 - |ds|) else []) + ds + [SPACE, SPACE]
  }

  /** The counter can be read back from its prefix: after the leading spaces
      come exactly the digits of the counter, right-justified in a field of six. */
  lemma PrefixReadsBack(n: nat)
    ensures var p := NumberPrefix(n); var w := |p| - 2; var lead := w - |Digits(n)|;
      && (forall i :: 0 <= i < lead ==> p[i] == SPACE)
      && (forall i :: lead <= i < w ==> IsDigit(p[i]))
      && Value(p[lead..w]) == n
      && (n < 1000000 ==> |p| == 8)
  {
    PrefixLayout(n);
    DigitsValue(n);
    DigitsLength(n, 6);
  }

  /** The prefix is the padding, then the digits, then two spaces. */
  lemma PrefixLayout(n: nat)
    ensures var p := NumberPrefix(n); var w := |p| - 2; var lead := w - |Digits(n)|;
      && (forall i :: 0 <= i < lead ==> p[i] == SPACE)
      && (forall i :: lead <= i < w ==> IsDigit(p[i]))
      && p[lead..w] == Digits(n)
  {
    var ds := Digits(n);
    var p := NumberPrefix(n);
    var lead := |p| - 2 - |ds|;
    assert p[lead..|p| - 2] == ds;
  }

  /** `%6d  ` for a one-digit counter: five spaces of padding. */
  lemma PrefixPadded()
    ensures NumberPrefix(1) == Ascii("     1  ")
  {
    assert Digits(1) == [49];
    assert Spaces(5) == [SPACE, SPACE, SPACE, SPACE, SPACE];
    assert Ascii("     1  ") == [SPACE, SPACE, SPACE, SPACE, SPACE, 49, SPACE, SPACE];
  }

  /** A six-digit counter fills the field exactly. */
  lemma PrefixFull()
    ensures NumberPrefix(123456) == Ascii("123456  ")
  {
    assert Digits(123456) == [49, 50, 51, 52, 53, 54];
    assert Ascii("123456  ") == [49, 50, 51, 52, 53, 54, SPACE, SPACE];
  }

  /** A seven-digit counter no longer fits and widens the field. */
  lemma PrefixWidens()
    ensures NumberPrefix(1234567) == Ascii("1234567  ")
  {
    assert Digits(1234567) == [49, 50, 51, 52, 53, 54, 55];
    assert Ascii("1234567  ") == [49, 50, 51, 52, 53, 54, 55, SPACE, SPACE];
  }
}

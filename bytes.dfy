/** Bytes as the scanner sees them: fgetc yields an unsigned value 0..255, and
    every output byte is one of those too. */
module Bytes {

  type byte = x: int | 0 <= x < 256

  const TAB: byte := 9
  const NL: byte := 10
  const SPACE: byte := 32
  const DOLLAR: byte := 36
  const DASH: byte := 45
  const DIGIT_ZERO: byte := 48
  const AT: byte := 64
  const UPPER_M: byte := 77
  const CARET: byte := 94
  const DEL: byte := 127

  /** isspace in the C locale: tab, newline, vertical tab, form feed, carriage return, space. */
  predicate IsSpace(c: byte) {
    9 <= c <= 13 || c == SPACE
  }

  /** A line is blank when it holds no byte other than white space; the empty line is blank. */
  predicate IsBlank(s: seq<byte>) {
    forall k :: 0 <= k < |s| ==> IsSpace(s[k])
  }

  lemma BlankConcat(a: seq<byte>, b: seq<byte>)
    ensures IsBlank(a + b) <==> IsBlank(a) && IsBlank(b)
  {
    if IsBlank(a) && IsBlank(b) {
      forall k | 0 <= k < |a + b| ensures IsSpace((a + b)[k]) {
        if k >= |a| { assert (a + b)[k] == b[k - |a|]; }
      }
    }
    if IsBlank(a + b) {
      forall k | 0 <= k < |a| ensures IsSpace(a[k]) {
        assert (a + b)[k] == a[k];
      }
      forall k | 0 <= k < |b| ensures IsSpace(b[k]) {
        assert (a + b)[|a| + k] == b[k];
      }
    }
  }

  /** The bytes of an ASCII string, used to write the concrete scenarios. */
  function Ascii(s: string): seq<byte> {
    seq(|s|, k requires 0 <= k < |s| => (s[k] as int) % 256)
  }

  datatype Option<T> = None | Some(value: T)

  function Init<T>(s: seq<T>): seq<T>
    requires |s| > 0
  {
    s[..|s| - 1]
  }

  function Last<T>(s: seq<T>): T
    requires |s| > 0
  {
    s[|s| - 1]
  }
}

/** printChar (cat.c:110-128): the bytes written for one buffered byte, in
    `^X` and `M-` notation when non-printing characters are shown. */
module CharRender {
  import opened Bytes
  import opened CatOptions

  /** The output of printChar for byte `c`. A byte with the high bit set is
      written as "M-" and the rendering of the byte without it; the
      recursion goes one level deep. */
  function PrintChar(opt: Options, c: byte): (r: seq<byte>)
    decreases c
    ensures 1 <= |r| <= (if c < 0x80 then 2 else 4)
    ensures NL in r <==> c == NL && !opt.showNonprinting
    ensures c < 0x80 && |r| == 2 ==> r[0] == CARET
  {
    if opt.showNonprinting then
      if c == TAB then
        if opt.showTabs then [CARET, 'I' as byte] else [TAB]
      else if c >= 0x80 then
        [UPPER_M, DASH] + PrintChar(opt, c - 0x80)
      else if c < SPACE then
        [CARET, AT + c]
      else
        [c]
    else
      [c]
  }

  /** The rendering of a whole buffered line: printChar of each byte in order
      (cat.c:165-167). */
  function PrintChars(opt: Options, s: seq<byte>): (r: seq<byte>)
    ensures |s| <= |r| <= 4 * |s|
  {
    if s == [] then [] else PrintChars(opt, Init(s)) + PrintChar(opt, Last(s))
  }

  /** Reads back the byte below 0x80 that one rendering without "M-" stands for. */
  function ReadLow(opt: Options, r: seq<byte>): Option<byte> {
    if |r| == 1 && (SPACE <= r[0] < 0x80 || (r[0] == TAB && !opt.showTabs)) then
      Some(r[0])
    else if |r| == 2 && r[0] == CARET && AT <= r[1] < AT + SPACE && (r[1] - AT != TAB || opt.showTabs) then
      Some(r[1] - AT)
    else
      None
  }

  /** Reads back the byte that a rendering stands for, or None when no byte
      renders that way. */
  function ReadChar(opt: Options, r: seq<byte>): Option<byte> {
    if !opt.showNonprinting then
      if |r| == 1 then Some(r[0]) else None
    else if |r| > 2 && r[0] == UPPER_M && r[1] == DASH then
      match ReadLow(opt, r[2..])
      case Some(x) => Some(x + 0x80)
      case None => None
    else
      ReadLow(opt, r)
  }

  /** The rendering loses nothing: every byte is recovered from its rendering. */
  lemma PrintCharRoundTrip(opt: Options, c: byte)
    ensures ReadChar(opt, PrintChar(opt, c)) == Some(c)
  {
    if opt.showNonprinting && c >= 0x80 {
      var low := PrintChar(opt, c - 0x80);
      assert PrintChar(opt, c)[2..] == low;
      assert ReadLow(opt, low) == Some(c - 0x80);
    }
  }

  /** Two distinct bytes never render alike, whatever the flags. */
  lemma PrintCharInjective(opt: Options, c: byte, d: byte)
    ensures PrintChar(opt, c) == PrintChar(opt, d) ==> c == d
  {
    PrintCharRoundTrip(opt, c);
    PrintCharRoundTrip(opt, d);
  }

  /** Without show_nonprinting a byte is written unchanged whatever show_tabs
      says (cat.c:111, 125-127): `-T` alone has no visible effect. */
  lemma PlainPassThrough(opt: Options, c: byte)
    requires !opt.showNonprinting
    ensures PrintChar(opt, c) == [c]
    ensures PrintChar(opt, c) == PrintChar(opt.(showTabs := !opt.showTabs), c)
  {
  }

  /** With show_nonprinting, the four cases of cat.c:112-124. */
  lemma EscapeCases(opt: Options, c: byte)
    requires opt.showNonprinting
    ensures c == TAB ==> PrintChar(opt, c) == if opt.showTabs then Ascii("^I") else [TAB]
    ensures c >= 0x80 ==> PrintChar(opt, c) == Ascii("M-") + PrintChar(opt, c - 0x80)
    ensures c < SPACE && c != TAB ==> PrintChar(opt, c) == [CARET, AT + c]
    ensures SPACE <= c < 0x80 ==> PrintChar(opt, c) == [c]
  {
    assert Ascii("^I") == [CARET, 'I' as byte];
    assert Ascii("M-") == [UPPER_M, DASH];
  }

  /** "M-" is written at most once for a byte: its rest never starts a second one. */
  lemma AtMostOneMeta(opt: Options, c: byte)
    ensures |PrintChar(opt, c)| > 2 ==>
      PrintChar(opt, c)[..2] == [UPPER_M, DASH] && |PrintChar(opt, c)[2..]| <= 2 &&
      (|PrintChar(opt, c)[2..]| == 2 ==> PrintChar(opt, c)[2] == CARET)
  {
  }

  /** Examples: 0xC1 is "M-A", 0x01 is "^A", 0x89 is "M-^I" with show_tabs, and
      DEL is not escaped, so 0xFF is "M-" followed by a raw DEL. */
  lemma Examples(opt: Options)
    requires opt.showNonprinting
    ensures PrintChar(opt, 0xC1) == Ascii("M-A")
    ensures PrintChar(opt, 0x01) == Ascii("^A")
    ensures opt.showTabs ==> PrintChar(opt, 0x89) == Ascii("M-^I")
    ensures !opt.showTabs ==> PrintChar(opt, 0x89) == Ascii("M-\t")
    ensures PrintChar(opt, DEL) == [DEL]
    ensures PrintChar(opt, 0xFF) == Ascii("M-") + [DEL]
  {
    assert Ascii("M-A") == [UPPER_M, DASH, 'A' as byte];
    assert Ascii("^A") == [CARET, 'A' as byte];
    assert Ascii("M-^I") == [UPPER_M, DASH, CARET, 'I' as byte];
    assert Ascii("M-\t") == [UPPER_M, DASH, TAB];
    assert Ascii("M-") == [UPPER_M, DASH];
  }
}

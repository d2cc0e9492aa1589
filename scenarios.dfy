/** Runs of printFile on inputs of a given shape, computed through the
    line-level reference. */
module Scenarios {
  import opened Bytes
  import opened CatOptions
  import opened CharRender
  import opened Decimal
  import opened Scanner
  import opened ScannerProperties

  /** The output for an input given as its complete lines. */
  lemma RenderJoined(opt: Options, ls: seq<seq<byte>>)
    requires NoNewlines(ls)
    ensures Render(opt, JoinLines(ls)) == Serialize(opt, RenderLines(opt, ls).rows)
  {
    LinesOfJoin(ls);
  }

  lemma JoinSnoc(ls: seq<seq<byte>>, line: seq<byte>)
    ensures JoinLines(ls + [line]) == JoinLines(ls) + line + [NL]
  {
    assert Init(ls + [line]) == ls;
  }

  /** Flags that leave the bytes of a line as they are. */
  predicate Unadorned(opt: Options) {
    !opt.number && !opt.numberNonblank && !opt.showNonprinting && !opt.showEnds
  }

  /** Rows without number prefix, one per text. */
  function Unnumbered(ts: seq<seq<byte>>): seq<Row> {
    seq(|ts|, k requires 0 <= k < |ts| => Row(None, ts[k]))
  }

  lemma UnnumberedSnoc(ts: seq<seq<byte>>)
    requires ts != []
    ensures Unnumbered(ts) == Unnumbered(Init(ts)) + [Row(None, Last(ts))]
  {
  }

  /** With Unadorned flags, rows without prefix are written as their texts,
      one per line. */
  lemma {:induction false} SerializeUnnumbered(opt: Options, ts: seq<seq<byte>>)
    requires Unadorned(opt)
    ensures Serialize(opt, Unnumbered(ts)) == JoinLines(ts)
  {
    if ts != [] {
      var t := Last(ts);
      UnnumberedSnoc(ts);
      SerializeUnnumbered(opt, Init(ts));
      SerializeSnoc(opt, Unnumbered(Init(ts)), Row(None, t));
      PlainRowBytesOf(opt, Row(None, t));
      assert JoinLines(Init(ts)) + ([] + t + [NL]) == JoinLines(Init(ts)) + t + [NL];
    }
  }

  /** A line that is not blank and then an empty line: two rows, blank_end set. */
  lemma OpeningRows(opt: Options, a: seq<byte>)
    requires !opt.number && !opt.numberNonblank && !IsBlank(a)
    ensures RenderLines(opt, [a, []]) == LineState([], 1, true, [Row(None, a), Row(None, [])])
  {
    var e: seq<byte> := [];
    var r1 := [Row(None, a)];
    assert RenderLines(opt, [a]) == LineState([], 1, false, r1) by {
      RenderLinesSnoc(opt, [], a);
      assert [a] == [] + [a] && [] + a == a;
    }
    RenderLinesSnoc(opt, [a], e);
    assert [a, e] == [a] + [e] && e + e == e;
    assert r1 + [Row(None, e)] == [Row(None, a), Row(None, e)];
  }

  /** Lines whose rows carry their texts unnumbered are written as those texts. */
  lemma RenderViaRows(opt: Options, ls: seq<seq<byte>>, ts: seq<seq<byte>>)
    requires Unadorned(opt) && NoNewlines(ls)
    requires RenderLines(opt, ls).rows == Unnumbered(ts)
    ensures Render(opt, JoinLines(ls)) == JoinLines(ts)
  {
    RenderJoined(opt, ls);
    SerializeUnnumbered(opt, ts);
  }

  lemma SqueezeBetweenRows(opt: Options, a: seq<byte>, b: seq<byte>)
    requires opt.squeezeBlank && !opt.number && !opt.numberNonblank && !IsBlank(a) && !IsBlank(b)
    ensures RenderLines(opt, [a, [], [], b]).rows == Unnumbered([a, [], b])
  {
    var e: seq<byte> := [];
    var r2 := [Row(None, a), Row(None, e)];
    OpeningRows(opt, a);
    assert RenderLines(opt, [a, e, e]) == LineState([], 1, true, r2) by {
      RenderLinesSnoc(opt, [a, e], e);
      assert [a, e, e] == [a, e] + [e];
    }
    RenderLinesSnoc(opt, [a, e, e], b);
    assert [a, e, e, b] == [a, e, e] + [b] && e + b == b;
    var u := Unnumbered([a, e, b]);
    assert |u| == 3 && u[0] == Row(None, a) && u[1] == Row(None, e) && u[2] == Row(None, b);
    assert r2 + [Row(None, b)] == u;
  }

  /** Under squeeze_blank, two empty lines between two lines that are not
      blank come out as one: "foo\n\n\nbar\n" is written "foo\n\nbar\n". */
  lemma SqueezeBetween(opt: Options, a: seq<byte>, b: seq<byte>)
    requires opt.squeezeBlank && Unadorned(opt)
    requires !IsBlank(a) && !IsBlank(b) && NL !in a && NL !in b
    ensures Render(opt, JoinLines([a, [], [], b])) == JoinLines([a, [], b])
  {
    var ls: seq<seq<byte>> := [a, [], [], b];
    assert NoNewlines(ls) by {
      forall k | 0 <= k < |ls| ensures NL !in ls[k] {
        assert k == 0 || k == 1 || k == 2 || k == 3;
      }
    }
    SqueezeBetweenRows(opt, a, b);
    RenderViaRows(opt, ls, [a, [], b]);
  }

  lemma SqueezedSpaceRows(opt: Options, a: seq<byte>, b: seq<byte>)
    requires opt.squeezeBlank && !opt.number && !opt.numberNonblank && !IsBlank(a) && !IsBlank(b)
    ensures RenderLines(opt, [a, [], [SPACE], b]).rows == Unnumbered([a, [], [SPACE] + b])
  {
    var e: seq<byte> := [];
    var sp: seq<byte> := [SPACE];
    var r2 := [Row(None, a), Row(None, e)];
    OpeningRows(opt, a);
    assert RenderLines(opt, [a, e, sp]) == LineState(sp, 1, true, r2) by {
      RenderLinesSnoc(opt, [a, e], sp);
      assert [a, e, sp] == [a, e] + [sp] && e + sp == sp && IsSpace(sp[0]);
    }
    RenderLinesSnoc(opt, [a, e, sp], b);
    assert [a, e, sp, b] == [a, e, sp] + [b];
    BlankConcat(sp, b);
    var u := Unnumbered([a, e, sp + b]);
    assert |u| == 3 && u[0] == Row(None, a) && u[1] == Row(None, e) && u[2] == Row(None, sp + b);
    assert r2 + [Row(None, sp + b)] == u;
  }

  /** White space on a squeezed line is not dropped: it stays in the buffer
      and is written at the start of the next row. Under squeeze_blank,
      "a\n\n \nb\n" is written "a\n\n b\n". */
  lemma SqueezedSpaceCarried(opt: Options, a: seq<byte>, b: seq<byte>)
    requires opt.squeezeBlank && Unadorned(opt)
    requires !IsBlank(a) && !IsBlank(b) && NL !in a && NL !in b
    ensures Render(opt, JoinLines([a, [], [SPACE], b])) == JoinLines([a, [], [SPACE] + b])
  {
    var ls: seq<seq<byte>> := [a, [], [SPACE], b];
    assert NoNewlines(ls) by {
      forall k | 0 <= k < |ls| ensures NL !in ls[k] {
        assert k == 0 || k == 1 || k == 2 || k == 3;
      }
    }
    SqueezedSpaceRows(opt, a, b);
    RenderViaRows(opt, ls, [a, [], [SPACE] + b]);
  }

  const FOO: seq<byte> := [102, 111, 111]
  const BAR: seq<byte> := [98, 97, 114]

  lemma FooBarText()
    ensures JoinLines([FOO, [], [], BAR]) == Ascii("foo\n\n\nbar\n")
    ensures JoinLines([FOO, [], BAR]) == Ascii("foo\n\nbar\n")
  {
    FooBarFour();
    FooBarThree();
  }

  lemma FooBarFour()
    ensures JoinLines([FOO, [], [], BAR]) == [102, 111, 111, 10, 10, 10, 98, 97, 114, 10]
  {
    var e: seq<byte> := [];
    JoinSnoc([], FOO);
    JoinSnoc([FOO], e);
    JoinSnoc([FOO, e], e);
    JoinSnoc([FOO, e, e], BAR);
    assert [FOO] == [] + [FOO] && [FOO, e] == [FOO] + [e];
    assert [FOO, e, e] == [FOO, e] + [e] && [FOO, e, e, BAR] == [FOO, e, e] + [BAR];
  }

  lemma FooBarThree()
    ensures JoinLines([FOO, [], BAR]) == [102, 111, 111, 10, 10, 98, 97, 114, 10]
  {
    var e: seq<byte> := [];
    JoinSnoc([], FOO);
    JoinSnoc([FOO], e);
    JoinSnoc([FOO, e], BAR);
    assert [FOO] == [] + [FOO] && [FOO, e] == [FOO] + [e];
    assert [FOO, e, BAR] == [FOO, e] + [BAR];
  }

  /** The squeeze example itself: `cat -s` on "foo\n\n\nbar\n". */
  lemma SqueezeFooBar()
    ensures Render(NoOptions.(squeezeBlank := true), Ascii("foo\n\n\nbar\n")) == Ascii("foo\n\nbar\n")
  {
    FooBarText();
    assert !IsSpace(FOO[0]) && !IsSpace(BAR[0]);
    assert NL !in FOO && NL !in BAR;
    SqueezeBetween(NoOptions.(squeezeBlank := true), FOO, BAR);
  }

  const TAB_LINE: seq<byte> := [97, TAB, 98]

  lemma TabLineText()
    ensures Ascii("a\tb\n") == JoinLines([TAB_LINE])
    ensures Ascii("a^Ib$\n") == [97, CARET, 'I' as byte, 98, DOLLAR, NL]
    ensures Ascii("a^Ib\n") == [97, CARET, 'I' as byte, 98, NL]
  {
    JoinSnoc([], TAB_LINE);
    assert [TAB_LINE] == [] + [TAB_LINE];
  }

  lemma TabLineEscaped(opt: Options)
    requires opt.showNonprinting && opt.showTabs
    ensures PrintChars(opt, TAB_LINE) == [97, CARET, 'I' as byte, 98]
  {
    assert PrintChars(opt, [97]) == [97] by {
      assert Init([97]) == [] && Last([97]) == 97;
    }
    assert PrintChars(opt, [97, TAB]) == [97, CARET, 'I' as byte] by {
      assert Init([97, TAB]) == [97] && Last([97, TAB]) == TAB;
    }
    assert Init(TAB_LINE) == [97, TAB] && Last(TAB_LINE) == 98;
  }

  lemma TabLineRow(opt: Options)
    requires !opt.number && !opt.numberNonblank
    ensures RenderLines(opt, [TAB_LINE]).rows == [Row(None, TAB_LINE)]
  {
    FirstLine(opt, TAB_LINE);
    assert !IsSpace(TAB_LINE[0]) && [] + TAB_LINE == TAB_LINE;
  }

  /** The first line of a file is written from the start state. */
  lemma FirstLine(opt: Options, line: seq<byte>)
    ensures RenderLines(opt, [line]) == EndLine(opt, Start, line)
  {
    assert Init([line]) == [] && Last([line]) == line;
  }

  lemma TabLineBytes(opt: Options)
    requires opt.showNonprinting && opt.showTabs
    ensures Serialize(opt, [Row(None, TAB_LINE)])
      == [97, CARET, 'I' as byte, 98] + (if opt.showEnds then [DOLLAR] else []) + [NL]
  {
    var row := Row(None, TAB_LINE);
    TabLineEscaped(opt);
    assert [row] == [] + [row];
    SerializeSnoc(opt, [], row);
    assert [] + RowBytes(opt, row) == RowBytes(opt, row);
  }

  lemma TabLineRendered(opt: Options)
    requires opt.showNonprinting && opt.showTabs && !opt.number && !opt.numberNonblank
    ensures Render(opt, JoinLines([TAB_LINE]))
      == [97, CARET, 'I' as byte, 98] + (if opt.showEnds then [DOLLAR] else []) + [NL]
  {
    assert NoNewlines([TAB_LINE]);
    RenderJoined(opt, [TAB_LINE]);
    TabLineRow(opt);
    TabLineBytes(opt);
  }

  /** `cat -vTE` on "a\tb\n" writes "a^Ib$\n"; without `-E` it writes "a^Ib\n". */
  lemma TabsAndEnds(opt: Options)
    requires opt.showNonprinting && opt.showTabs && !opt.number && !opt.numberNonblank
    ensures Render(opt, Ascii("a\tb\n")) == if opt.showEnds then Ascii("a^Ib$\n") else Ascii("a^Ib\n")
  {
    TabLineText();
    TabLineRendered(opt);
  }

  /** The rows of a line, an empty line and a line: numbered 1, 2, 3 under
      `-n`; under `-b` the empty line is skipped by the counter. */
  lemma NumberedRows(opt: Options, a: seq<byte>, b: seq<byte>)
    requires opt.number || opt.numberNonblank
    requires !IsBlank(a) && !IsBlank(b)
    ensures RenderLines(opt, [a, [], b]).rows ==
      [Row(Some(1), a), Row(if opt.numberNonblank then None else Some(2), []), Row(Some(if opt.numberNonblank then 2 else 3), b)]
  {
    var e: seq<byte> := [];
    var r1 := [Row(Some(1), a)];
    assert RenderLines(opt, [a]) == LineState([], 2, false, r1) by {
      RenderLinesSnoc(opt, [], a);
      assert [a] == [] + [a] && [] + a == a;
    }
    var r2 := r1 + [Row(if opt.numberNonblank then None else Some(2), e)];
    var next := if opt.numberNonblank then 2 else 3;
    assert RenderLines(opt, [a, e]) == LineState([], next, true, r2) by {
      RenderLinesSnoc(opt, [a], e);
      assert [a, e] == [a] + [e] && e + e == e;
    }
    RenderLinesSnoc(opt, [a, e], b);
    assert [a, e, b] == [a, e] + [b] && e + b == b;
  }

  /** A row written without escapes or "$": its prefix, its text, a newline. */
  lemma PlainRowBytesOf(opt: Options, row: Row)
    requires !opt.showNonprinting && !opt.showEnds
    ensures RowBytes(opt, row) == Prefix(row.number) + row.text + [NL]
  {
    PrintCharsPlain(opt, row.text);
    assert (if opt.showEnds then [DOLLAR] else []) == [];
    assert Prefix(row.number) + row.text + [] == Prefix(row.number) + row.text;
  }

  /** Three rows written without escapes or "$". */
  lemma SerializeThree(opt: Options, x: Row, y: Row, z: Row)
    requires !opt.showNonprinting && !opt.showEnds
    ensures Serialize(opt, [x, y, z]) ==
      (Prefix(x.number) + x.text + [NL]) + (Prefix(y.number) + y.text + [NL]) + (Prefix(z.number) + z.text + [NL])
  {
    var bx := Prefix(x.number) + x.text + [NL];
    var by_ := Prefix(y.number) + y.text + [NL];
    var bz := Prefix(z.number) + z.text + [NL];
    assert Serialize(opt, [x]) == bx by {
      assert [x] == [] + [x];
      SerializeSnoc(opt, [], x);
      PlainRowBytesOf(opt, x);
    }
    assert Serialize(opt, [x, y]) == bx + by_ by {
      assert [x, y] == [x] + [y];
      SerializeSnoc(opt, [x], y);
      PlainRowBytesOf(opt, y);
    }
    assert [x, y, z] == [x, y] + [z];
    SerializeSnoc(opt, [x, y], z);
    PlainRowBytesOf(opt, z);
  }

  /** `cat -n` on "a\n\nb\n" numbers all three lines; `cat -b` numbers
      only the two that are not blank, and the empty line gets no prefix. */
  lemma NumberingExample(opt: Options, a: seq<byte>, b: seq<byte>)
    requires (opt.number || opt.numberNonblank) && !opt.showNonprinting && !opt.showEnds
    requires !IsBlank(a) && !IsBlank(b) && NL !in a && NL !in b
    ensures Render(opt, JoinLines([a, [], b])) ==
      (NumberPrefix(1) + a + [NL])
      + (if opt.numberNonblank then [NL] else NumberPrefix(2) + [NL])
      + (NumberPrefix(if opt.numberNonblank then 2 else 3) + b + [NL])
  {
    var ls: seq<seq<byte>> := [a, [], b];
    assert NoNewlines(ls) by {
      forall k | 0 <= k < |ls| ensures NL !in ls[k] {
        assert k == 0 || k == 1 || k == 2;
      }
    }
    RenderJoined(opt, ls);
    NumberedRows(opt, a, b);
    NumberedBytes(opt, a, b);
  }

  /** The bytes of the three rows of the numbering example. */
  lemma NumberedBytes(opt: Options, a: seq<byte>, b: seq<byte>)
    requires !opt.showNonprinting && !opt.showEnds
    ensures Serialize(opt, [Row(Some(1), a), Row(if opt.numberNonblank then None else Some(2), []), Row(Some(if opt.numberNonblank then 2 else 3), b)]) ==
      (NumberPrefix(1) + a + [NL])
      + (if opt.numberNonblank then [NL] else NumberPrefix(2) + [NL])
      + (NumberPrefix(if opt.numberNonblank then 2 else 3) + b + [NL])
  {
    var y := Row(if opt.numberNonblank then None else Some(2), []);
    SerializeThree(opt, Row(Some(1), a), y, Row(Some(if opt.numberNonblank then 2 else 3), b));
    assert Prefix(y.number) + y.text + [NL] == if opt.numberNonblank then [NL] else NumberPrefix(2) + [NL];
  }

}

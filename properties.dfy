/** What printFile promises about its output, proved over the line-level
    reference of module Scanner: the state it keeps between lines, when a line
    is written, how lines are numbered, and the shape of what is written. */
module ScannerProperties {
  import opened Bytes
  import opened CatOptions
  import opened CharRender
  import opened Decimal
  import opened Scanner

  /** The numbers shown in the prefixes of the rows, in order. */
  function Shown(rows: seq<Row>): seq<nat> {
    if rows == [] then []
    else Shown(Init(rows)) + (if Last(rows).number.Some? then [Last(rows).number.value] else [])
  }

  /** 1, 2, ..., n. */
  function UpTo(n: nat): seq<nat> {
    if n == 0 then [] else UpTo(n - 1) + [n]
  }

  predicate NoNewlines(ls: seq<seq<byte>>) {
    forall k :: 0 <= k < |ls| ==> NL !in ls[k]
  }

  /** What holds of the line-level state after any sequence of lines:
      - only white space from suppressed lines is ever carried, and only
        under squeeze_blank after a blank row;
      - blank_end says whether the last row written was blank (a blank row
        has no text; any other row has some);
      - the numbers shown are 1, 2, ... without gaps, and the counter is the
        next one;
      - a row is numbered exactly when `-n` numbers every row and `-b` is
        off, or `-b` is on and the row is not blank;
      - no row text holds a newline;
      - under squeeze_blank no two blank rows are adjacent. */
  ghost predicate Consistent(opt: Options, st: LineState) {
    && CarryKept(opt, st)
    && NumbersFromOne(st)
    && BlankEndTracks(st)
    && RowsFormed(opt, st.rows)
    && (opt.squeezeBlank ==> NoAdjacentBlanks(st.rows))
  }

  /** Only white space is carried, and only under squeeze_blank after a blank row. */
  ghost predicate CarryKept(opt: Options, st: LineState) {
    && IsBlank(st.carry) && NL !in st.carry
    && (st.carry != [] ==> opt.squeezeBlank && st.blankEnd)
  }

  /** The numbers shown are 1, 2, ... without gaps, and the counter is the next one. */
  ghost predicate NumbersFromOne(st: LineState) {
    st.counter >= 1 && Shown(st.rows) == UpTo(st.counter - 1)
  }

  /** blank_end says whether the last row written was blank. */
  ghost predicate BlankEndTracks(st: LineState) {
    st.blankEnd <==> |st.rows| > 0 && Last(st.rows).text == []
  }

  /** No row text holds a newline, and a row is numbered exactly as the flags say. */
  ghost predicate RowsFormed(opt: Options, rows: seq<Row>) {
    && (forall k :: 0 <= k < |rows| ==> NL !in rows[k].text)
    && (forall k :: 0 <= k < |rows| ==> (rows[k].number.Some? <==> Numbered(opt, rows[k].text == [])))
  }

  /** No blank row directly follows another. */
  ghost predicate NoAdjacentBlanks(rows: seq<Row>) {
    forall k :: 0 < k < |rows| ==> !(rows[k - 1].text == [] && rows[k].text == [])
  }

  lemma RowsFormedSnoc(opt: Options, rows: seq<Row>, row: Row)
    requires RowsFormed(opt, rows) && NL !in row.text
    requires row.number.Some? <==> Numbered(opt, row.text == [])
    ensures RowsFormed(opt, rows + [row])
  {
    forall k | 0 <= k < |rows + [row]|
      ensures NL !in (rows + [row])[k].text
      ensures (rows + [row])[k].number.Some? <==> Numbered(opt, (rows + [row])[k].text == [])
    {
      if k < |rows| { assert (rows + [row])[k] == rows[k]; }
    }
  }

  lemma NoAdjacentBlanksSnoc(rows: seq<Row>, row: Row)
    requires NoAdjacentBlanks(rows)
    requires rows != [] && Last(rows).text == [] ==> row.text != []
    ensures NoAdjacentBlanks(rows + [row])
  {
    forall k | 0 < k < |rows + [row]|
      ensures !((rows + [row])[k - 1].text == [] && (rows + [row])[k].text == [])
    {
      if k < |rows| {
        assert (rows + [row])[k - 1] == rows[k - 1] && (rows + [row])[k] == rows[k];
      } else {
        assert (rows + [row])[k - 1] == Last(rows);
      }
    }
  }

  /** Shown gains the new number exactly when the new row has one. */
  lemma ShownSnoc(rows: seq<Row>, row: Row)
    ensures Shown(rows + [row]) == Shown(rows) + (if row.number.Some? then [row.number.value] else [])
  {
    assert Init(rows + [row]) == rows && Last(rows + [row]) == row;
  }

  /** The state EndLine leaves when it writes a row. */
  lemma EndLineWritten(opt: Options, st: LineState, line: seq<byte>)
    requires !(st.blankEnd && IsBlank(st.carry + line) && opt.squeezeBlank)
    ensures var buf := st.carry + line; var blank := IsBlank(buf); var numbered := Numbered(opt, blank);
      EndLine(opt, st, line) == LineState([], if numbered then st.counter + 1 else st.counter, blank,
        st.rows + [Row(if numbered then Some(st.counter) else None, if blank then [] else buf)])
  {
  }

  /** EndLine keeps CarryKept: a suppressed line is blank and is added to a blank carry. */
  lemma EndLineCarry(opt: Options, st: LineState, line: seq<byte>)
    requires CarryKept(opt, st) && NL !in line
    ensures CarryKept(opt, EndLine(opt, st, line))
  {
  }

  /** EndLine keeps NumbersFromOne: a numbered row takes the counter, which moves on. */
  lemma EndLineNumbers(opt: Options, st: LineState, line: seq<byte>)
    requires NumbersFromOne(st)
    ensures NumbersFromOne(EndLine(opt, st, line))
  {
    var buf := st.carry + line;
    var blank := IsBlank(buf);
    if !(st.blankEnd && blank && opt.squeezeBlank) {
      var numbered := Numbered(opt, blank);
      EndLineWritten(opt, st, line);
      ShownSnoc(st.rows, Row(if numbered then Some(st.counter) else None, if blank then [] else buf));
    }
  }

  /** EndLine keeps BlankEndTracks. */
  lemma EndLineBlankEnd(opt: Options, st: LineState, line: seq<byte>)
    requires BlankEndTracks(st)
    ensures BlankEndTracks(EndLine(opt, st, line))
  {
    var buf := st.carry + line;
    var blank := IsBlank(buf);
    if !(st.blankEnd && blank && opt.squeezeBlank) {
      var numbered := Numbered(opt, blank);
      var row := Row(if numbered then Some(st.counter) else None, if blank then [] else buf);
      EndLineWritten(opt, st, line);
      assert !blank ==> buf != [];
      assert Last(st.rows + [row]) == row;
    }
  }

  /** EndLine keeps RowsFormed. */
  lemma EndLineRows(opt: Options, st: LineState, line: seq<byte>)
    requires RowsFormed(opt, st.rows) && NL !in st.carry && NL !in line
    ensures RowsFormed(opt, EndLine(opt, st, line).rows)
  {
    var buf := st.carry + line;
    var blank := IsBlank(buf);
    if !(st.blankEnd && blank && opt.squeezeBlank) {
      var numbered := Numbered(opt, blank);
      var row := Row(if numbered then Some(st.counter) else None, if blank then [] else buf);
      EndLineWritten(opt, st, line);
      assert !blank ==> buf != [];
      assert NL !in buf;
      RowsFormedSnoc(opt, st.rows, row);
    }
  }

  /** EndLine keeps NoAdjacentBlanks under squeeze_blank. */
  lemma EndLineAdjacent(opt: Options, st: LineState, line: seq<byte>)
    requires opt.squeezeBlank && NoAdjacentBlanks(st.rows) && BlankEndTracks(st)
    ensures NoAdjacentBlanks(EndLine(opt, st, line).rows)
  {
    var buf := st.carry + line;
    var blank := IsBlank(buf);
    if !(st.blankEnd && blank) {
      var numbered := Numbered(opt, blank);
      var row := Row(if numbered then Some(st.counter) else None, if blank then [] else buf);
      EndLineWritten(opt, st, line);
      assert !blank ==> buf != [];
      NoAdjacentBlanksSnoc(st.rows, row);
    }
  }

  /** EndLine keeps Consistent. */
  lemma EndLineConsistent(opt: Options, st: LineState, line: seq<byte>)
    requires Consistent(opt, st) && NL !in line
    ensures Consistent(opt, EndLine(opt, st, line))
  {
    EndLineCarry(opt, st, line);
    EndLineNumbers(opt, st, line);
    EndLineBlankEnd(opt, st, line);
    EndLineRows(opt, st, line);
    if opt.squeezeBlank {
      EndLineAdjacent(opt, st, line);
    }
  }

  /** Consistent holds after every sequence of complete lines. */
  lemma {:induction false} RenderConsistent(opt: Options, ls: seq<seq<byte>>)
    requires NoNewlines(ls)
    ensures Consistent(opt, RenderLines(opt, ls))
  {
    if ls != [] {
      assert NoNewlines(Init(ls)) by {
        forall k | 0 <= k < |Init(ls)| ensures NL !in Init(ls)[k] { assert Init(ls)[k] == ls[k]; }
      }
      RenderConsistent(opt, Init(ls));
      EndLineConsistent(opt, RenderLines(opt, Init(ls)), Last(ls));
    }
  }

  /** NoNewlines holds of every prefix of a newline-free sequence of lines. */
  lemma NoNewlinesInit(ls: seq<seq<byte>>)
    requires ls != [] && NoNewlines(ls)
    ensures NoNewlines(Init(ls)) && NL !in Last(ls)
  {
    forall k | 0 <= k < |Init(ls)| ensures NL !in Init(ls)[k] { assert Init(ls)[k] == ls[k]; }
  }

  /** blank_end at a newline is exactly "the previous line was blank": a
      suppressed line was blank itself, and only white space is carried. */
  lemma {:induction false} BlankEndIsLastLineBlank(opt: Options, ls: seq<seq<byte>>)
    requires NoNewlines(ls)
    ensures RenderLines(opt, ls).blankEnd <==> |ls| > 0 && IsBlank(Last(ls))
  {
    if ls != [] {
      NoNewlinesInit(ls);
      var st := RenderLines(opt, Init(ls));
      RenderConsistent(opt, Init(ls));
      BlankConcat(st.carry, Last(ls));
    }
  }

  /** When a line is written. Under squeeze_blank a blank line right after a
      blank line writes nothing; every other line writes exactly one row, and
      rows already written are never changed. */
  lemma SqueezeRule(opt: Options, ls: seq<seq<byte>>, line: seq<byte>)
    requires NoNewlines(ls) && NL !in line
    ensures var before := RenderLines(opt, ls).rows; var after := RenderLines(opt, ls + [line]).rows;
      && before <= after
      && (if opt.squeezeBlank && |ls| > 0 && IsBlank(Last(ls)) && IsBlank(line)
          then after == before
          else |after| == |before| + 1)
  {
    var st := RenderLines(opt, ls);
    assert Init(ls + [line]) == ls && Last(ls + [line]) == line;
    BlankEndIsLastLineBlank(opt, ls);
    RenderConsistent(opt, ls);
    BlankConcat(st.carry, line);
  }

  /** Without squeeze_blank every line writes one row: its bytes, or nothing
      when the line is blank. */
  lemma {:induction false} NoSqueezeAllWritten(opt: Options, ls: seq<seq<byte>>)
    requires !opt.squeezeBlank
    ensures var st := RenderLines(opt, ls);
      && st.carry == []
      && |st.rows| == |ls|
      && forall k :: 0 <= k < |ls| ==> st.rows[k].text == if IsBlank(ls[k]) then [] else ls[k]
  {
    if ls != [] {
      NoSqueezeAllWritten(opt, Init(ls));
      var st := RenderLines(opt, ls);
      assert st.carry + Last(ls) == Last(ls);
      forall k | 0 <= k < |ls|
        ensures st.rows[k].text == if IsBlank(ls[k]) then [] else ls[k]
      {
        if k < |ls| - 1 { assert Init(ls)[k] == ls[k]; }
      }
    }
  }

  predicate AllBlank(ls: seq<seq<byte>>) {
    forall k :: 0 <= k < |ls| ==> IsBlank(ls[k])
  }

  /** Under squeeze_blank a run of blank lines after a line that is not
      blank, or at the start, is written as exactly one blank row. */
  lemma {:induction false} BlankRunWrittenOnce(opt: Options, ls: seq<seq<byte>>, run: seq<seq<byte>>)
    requires opt.squeezeBlank && NoNewlines(ls) && NoNewlines(run)
    requires ls == [] || !IsBlank(Last(ls))
    requires |run| >= 1 && AllBlank(run)
    ensures var before := RenderLines(opt, ls).rows; var after := RenderLines(opt, ls + run).rows;
      |after| == |before| + 1 && after[..|before|] == before && Last(after).text == []
  {
    var before := RenderLines(opt, ls).rows;
    if |run| == 1 {
      assert ls + run == ls + [run[0]];
      SqueezeRule(opt, ls, run[0]);
      assert NoNewlines(ls + run) by {
        forall k | 0 <= k < |ls + run| ensures NL !in (ls + run)[k] {
          if k >= |ls| { assert (ls + run)[k] == run[k - |ls|]; }
        }
      }
      RenderConsistent(opt, ls + run);
      BlankEndIsLastLineBlank(opt, ls + run);
      assert Last(ls + run) == run[0];
    } else {
      var run' := Init(run);
      NoNewlinesInit(run);
      assert AllBlank(run') by {
        forall k | 0 <= k < |run'| ensures IsBlank(run'[k]) { assert run'[k] == run[k]; }
      }
      BlankRunWrittenOnce(opt, ls, run');
      assert ls + run == (ls + run') + [Last(run)];
      assert NoNewlines(ls + run') by {
        forall k | 0 <= k < |ls + run'| ensures NL !in (ls + run')[k] {
          if k >= |ls| { assert (ls + run')[k] == run'[k - |ls|]; }
        }
      }
      assert Last(ls + run') == Last(run');
      SqueezeRule(opt, ls + run', Last(run));
    }
  }

  /** The lines one after the other, without separators. */
  function Concat(ls: seq<seq<byte>>): seq<byte> {
    if ls == [] then [] else Concat(Init(ls)) + Last(ls)
  }

  /** Under squeeze_blank, after a run of blank lines that follows a line
      that is not blank (or starts the input), the first line of the run has
      been written as a blank row and every later one is still buffered:
      the carry is those lines one after the other, and blank_end is set. */
  lemma {:induction false} CarryAfterRun(opt: Options, ls: seq<seq<byte>>, run: seq<seq<byte>>)
    requires opt.squeezeBlank && NoNewlines(ls) && NoNewlines(run)
    requires ls == [] || !IsBlank(Last(ls))
    requires |run| >= 1 && AllBlank(run)
    ensures var st := RenderLines(opt, ls + run); st.carry == Concat(run[1..]) && st.blankEnd
  {
    AllBlankInit(run);
    if |run| == 1 {
      assert ls + run == ls + [Last(run)] && run[1..] == [];
      RenderLinesSnoc(opt, ls, Last(run));
      RenderConsistent(opt, ls);
      BlankEndIsLastLineBlank(opt, ls);
      FirstBlankWritten(opt, RenderLines(opt, ls), Last(run));
    } else {
      var run' := Init(run);
      NoNewlinesInit(run);
      CarryAfterRun(opt, ls, run');
      assert ls + run == (ls + run') + [Last(run)];
      RenderLinesSnoc(opt, ls + run', Last(run));
      NoNewlinesAppend(ls, run');
      RenderConsistent(opt, ls + run');
      BlankCarried(opt, RenderLines(opt, ls + run'), Last(run));
      ConcatTail(run);
    }
  }

  lemma AllBlankInit(run: seq<seq<byte>>)
    requires |run| >= 1 && AllBlank(run)
    ensures AllBlank(Init(run)) && IsBlank(Last(run))
  {
    assert forall k :: 0 <= k < |Init(run)| ==> Init(run)[k] == run[k];
  }

  lemma NoNewlinesAppend(ls: seq<seq<byte>>, more: seq<seq<byte>>)
    requires NoNewlines(ls) && NoNewlines(more)
    ensures NoNewlines(ls + more)
  {
    forall k | 0 <= k < |ls + more| ensures NL !in (ls + more)[k] {
      if k >= |ls| { assert (ls + more)[k] == more[k - |ls|]; }
    }
  }

  /** A blank line after a line that was not blank is written as a blank
      row, and nothing is carried. */
  lemma FirstBlankWritten(opt: Options, st: LineState, line: seq<byte>)
    requires CarryKept(opt, st) && !st.blankEnd && IsBlank(line)
    ensures EndLine(opt, st, line).carry == [] && EndLine(opt, st, line).blankEnd
  {
  }

  /** Under squeeze_blank a blank line after a blank row is added to the
      carried white space. */
  lemma BlankCarried(opt: Options, st: LineState, line: seq<byte>)
    requires opt.squeezeBlank && st.blankEnd && IsBlank(st.carry) && IsBlank(line)
    ensures EndLine(opt, st, line).carry == st.carry + line && EndLine(opt, st, line).blankEnd
  {
    BlankConcat(st.carry, line);
  }

  lemma ConcatTail(run: seq<seq<byte>>)
    requires |run| >= 2
    ensures Concat(run[1..]) == Concat(Init(run)[1..]) + Last(run)
  {
    assert Init(run[1..]) == Init(run)[1..] && Last(run[1..]) == Last(run);
  }

  /** So the white space of the suppressed lines leads the next line that is
      not blank: it is written as one row whose text is those lines followed
      by it. */
  lemma SqueezedRunLeads(opt: Options, ls: seq<seq<byte>>, run: seq<seq<byte>>, line: seq<byte>)
    requires opt.squeezeBlank && NoNewlines(ls) && NoNewlines(run) && NL !in line
    requires ls == [] || !IsBlank(Last(ls))
    requires |run| >= 1 && AllBlank(run) && !IsBlank(line)
    ensures var before := RenderLines(opt, ls + run).rows;
      var after := RenderLines(opt, ls + run + [line]).rows;
      after == before + [Row(if Numbered(opt, false) then Some(RenderLines(opt, ls + run).counter) else None,
                             Concat(run[1..]) + line)]
  {
    CarryAfterRun(opt, ls, run);
    var st := RenderLines(opt, ls + run);
    assert Init(ls + run + [line]) == ls + run && Last(ls + run + [line]) == line;
    BlankConcat(st.carry, line);
  }

  /** Without show_nonprinting the rendering of a line is the line itself. */
  lemma {:induction false} PrintCharsPlain(opt: Options, s: seq<byte>)
    requires !opt.showNonprinting
    ensures PrintChars(opt, s) == s
  {
    if s != [] {
      PrintCharsPlain(opt, Init(s));
      assert s == Init(s) + [Last(s)];
    }
  }

  /** A newline is only ever written at the end of a row: the rendering of a
      line without newline holds none. */
  lemma {:induction false} PrintCharsNoNewline(opt: Options, s: seq<byte>)
    requires NL !in s
    ensures NL !in PrintChars(opt, s)
  {
    if s != [] {
      assert s == Init(s) + [Last(s)];
      PrintCharsNoNewline(opt, Init(s));
    }
  }

  /** Bytes without a newline complete no line: they only extend the
      unfinished one. */
  lemma {:induction false} AppendNoNewline(s: seq<byte>, t: seq<byte>)
    requires NL !in t
    ensures Lines(s + t) == Lines(s) && Rest(s + t) == Rest(s) + t
  {
    if t != [] {
      AppendNoNewline(s, Init(t));
      assert t == Init(t) + [Last(t)];
      assert Init(s + t) == s + Init(t) && Last(s + t) == Last(t);
    } else {
      assert s + t == s;
    }
  }

  /** A line without newline followed by a newline completes exactly one line. */
  lemma AppendLine(s: seq<byte>, x: seq<byte>)
    requires NL !in x
    ensures Lines(s + x + [NL]) == Lines(s) + [Rest(s) + x] && Rest(s + x + [NL]) == []
  {
    AppendNoNewline(s, x);
    assert Init(s + x + [NL]) == s + x;
  }

  /** Bytes after the last newline are never written, however many. */
  lemma TailNeverWritten(opt: Options, s: seq<byte>, t: seq<byte>)
    requires NL !in t
    ensures Render(opt, s + t) == Render(opt, s)
  {
    AppendNoNewline(s, t);
  }

  /** The bytes of a row before its newline: the number prefix, the rendered
      text, and "$" under show_ends. */
  function RowLine(opt: Options, r: Row): seq<byte> {
    Prefix(r.number) + PrintChars(opt, r.text) + (if opt.showEnds then [DOLLAR] else [])
  }

  function RowLines(opt: Options, rows: seq<Row>): seq<seq<byte>> {
    if rows == [] then [] else RowLines(opt, Init(rows)) + [RowLine(opt, Last(rows))]
  }

  predicate TextsWithoutNewline(rows: seq<Row>) {
    forall k :: 0 <= k < |rows| ==> NL !in rows[k].text
  }

  /** The output splits back into the rows: its k-th line is the k-th row,
      and it ends with a newline (or is empty). */
  lemma {:induction false} OutputLines(opt: Options, rows: seq<Row>)
    requires TextsWithoutNewline(rows)
    ensures Lines(Serialize(opt, rows)) == RowLines(opt, rows)
    ensures Rest(Serialize(opt, rows)) == []
  {
    if rows != [] {
      var r := Last(rows);
      assert TextsWithoutNewline(Init(rows)) by {
        forall k | 0 <= k < |Init(rows)| ensures NL !in Init(rows)[k].text { assert Init(rows)[k] == rows[k]; }
      }
      OutputLines(opt, Init(rows));
      var line := RowLine(opt, r);
      RowLineNoNewline(opt, r);
      assert Serialize(opt, rows) == Serialize(opt, Init(rows)) + line + [NL];
      AppendLine(Serialize(opt, Init(rows)), line);
      assert [] + line == line;
    }
  }

  lemma RowLineNoNewline(opt: Options, r: Row)
    requires NL !in r.text
    ensures NL !in RowLine(opt, r) && RowBytes(opt, r) == RowLine(opt, r) + [NL]
  {
    PrintCharsNoNewline(opt, r.text);
    if r.number.Some? { assert NL !in NumberPrefix(r.number.value); }
  }

  /** The shape of every written line: printFile's output is, line by line,
      the rows of the reference, each complete with its newline. */
  lemma RenderShape(opt: Options, input: seq<byte>)
    ensures var rows := RenderLines(opt, Lines(input)).rows;
      Lines(Render(opt, input)) == RowLines(opt, rows) && Rest(Render(opt, input)) == []
  {
    RenderConsistent(opt, Lines(input));
    OutputLines(opt, RenderLines(opt, Lines(input)).rows);
  }

  /** Under show_ends every written line ends with '$'. */
  lemma {:induction false} ShowEndsMarksLines(opt: Options, rows: seq<Row>)
    requires opt.showEnds
    ensures forall k :: 0 <= k < |RowLines(opt, rows)| ==>
      |RowLines(opt, rows)[k]| > 0 && Last(RowLines(opt, rows)[k]) == DOLLAR
  {
    if rows != [] {
      ShowEndsMarksLines(opt, Init(rows));
    }
  }

  /** Each line, with a blank one emptied. */
  function Emptied(ls: seq<seq<byte>>): (r: seq<seq<byte>>)
    ensures |r| == |ls|
  {
    if ls == [] then [] else Emptied(Init(ls)) + [if IsBlank(Last(ls)) then [] else Last(ls)]
  }

  /** With no flag that changes the output, each complete line is written
      as it is, except that a line of white space only is written empty; the
      bytes after the last newline are dropped. */
  lemma {:induction false} PlainRender(opt: Options, input: seq<byte>)
    requires !opt.number && !opt.numberNonblank && !opt.squeezeBlank
    requires !opt.showNonprinting && !opt.showEnds
    ensures Render(opt, input) == JoinLines(Emptied(Lines(input)))
  {
    PlainRows(opt, Lines(input));
  }

  lemma {:induction false} PlainRows(opt: Options, ls: seq<seq<byte>>)
    requires !opt.number && !opt.numberNonblank && !opt.squeezeBlank
    requires !opt.showNonprinting && !opt.showEnds
    ensures Serialize(opt, RenderLines(opt, ls).rows) == JoinLines(Emptied(ls))
  {
    if ls != [] {
      PlainRows(opt, Init(ls));
      PlainStep(opt, ls);
      var text := if IsBlank(Last(ls)) then [] else Last(ls);
      assert Init(Emptied(ls)) == Emptied(Init(ls)) && Last(Emptied(ls)) == text;
    }
  }

  lemma {:induction false} NoSqueezeNoCarry(opt: Options, ls: seq<seq<byte>>)
    requires !opt.squeezeBlank
    ensures RenderLines(opt, ls).carry == []
  {
    if ls != [] {
      NoSqueezeNoCarry(opt, Init(ls));
    }
  }

  /** The last line, with no flags, is written as itself, emptied if blank. */
  lemma PlainStep(opt: Options, ls: seq<seq<byte>>)
    requires !opt.number && !opt.numberNonblank && !opt.squeezeBlank
    requires !opt.showNonprinting && !opt.showEnds
    requires ls != []
    ensures var text := if IsBlank(Last(ls)) then [] else Last(ls);
      Serialize(opt, RenderLines(opt, ls).rows) == Serialize(opt, RenderLines(opt, Init(ls)).rows) + text + [NL]
  {
    var text := if IsBlank(Last(ls)) then [] else Last(ls);
    PlainLastRow(opt, ls);
    PlainRowBytes(opt, text);
    SerializeSnoc(opt, RenderLines(opt, Init(ls)).rows, Row(None, text));
  }

  lemma PlainLastRow(opt: Options, ls: seq<seq<byte>>)
    requires !opt.number && !opt.numberNonblank && !opt.squeezeBlank
    requires ls != []
    ensures RenderLines(opt, ls).rows ==
      RenderLines(opt, Init(ls)).rows + [Row(None, if IsBlank(Last(ls)) then [] else Last(ls))]
  {
    NoSqueezeNoCarry(opt, Init(ls));
    assert RenderLines(opt, Init(ls)).carry + Last(ls) == Last(ls);
  }

  lemma PlainRowBytes(opt: Options, text: seq<byte>)
    requires !opt.showNonprinting && !opt.showEnds
    ensures RowBytes(opt, Row(None, text)) == text + [NL]
  {
    PrintCharsPlain(opt, text);
    assert [] + text + [] == text;
  }



  /** So without flags the input comes out unchanged when it ends with a
      newline and has no line of white space only that is not empty. */
  lemma PlainIdentity(input: seq<byte>)
    requires Rest(input) == []
    requires forall k :: 0 <= k < |Lines(input)| ==> IsBlank(Lines(input)[k]) ==> Lines(input)[k] == []
    ensures Render(NoOptions, input) == input
  {
    PlainRender(NoOptions, input);
    EmptiedUnchanged(Lines(input));
    SplitJoin(input);
  }

  lemma {:induction false} EmptiedUnchanged(ls: seq<seq<byte>>)
    requires forall k :: 0 <= k < |ls| ==> IsBlank(ls[k]) ==> ls[k] == []
    ensures Emptied(ls) == ls
  {
    if ls != [] {
      EmptiedInit(ls);
      EmptiedUnchanged(Init(ls));
      assert ls == Init(ls) + [Last(ls)];
    }
  }

  lemma EmptiedInit(ls: seq<seq<byte>>)
    requires ls != []
    requires forall k :: 0 <= k < |ls| ==> IsBlank(ls[k]) ==> ls[k] == []
    ensures forall k :: 0 <= k < |Init(ls)| ==> IsBlank(Init(ls)[k]) ==> Init(ls)[k] == []
    ensures IsBlank(Last(ls)) ==> Last(ls) == []
  {
    assert forall k :: 0 <= k < |Init(ls)| ==> Init(ls)[k] == ls[k];
  }

  /** Which flags RenderLines reads: only the numbering and squeezing ones. */
  lemma {:induction false} LineFlagsOnly(opt: Options, opt': Options, ls: seq<seq<byte>>)
    requires opt.number == opt'.number && opt.numberNonblank == opt'.numberNonblank
    requires opt.squeezeBlank == opt'.squeezeBlank
    ensures RenderLines(opt, ls) == RenderLines(opt', ls)
  {
    if ls != [] {
      LineFlagsOnly(opt, opt', Init(ls));
    }
  }

  lemma {:induction false} SerializeWithoutEscapes(opt: Options, opt': Options, rows: seq<Row>)
    requires !opt.showNonprinting && !opt'.showNonprinting && opt.showEnds == opt'.showEnds
    ensures Serialize(opt, rows) == Serialize(opt', rows)
  {
    if rows != [] {
      SerializeWithoutEscapes(opt, opt', Init(rows));
      PrintCharsPlain(opt, Last(rows).text);
      PrintCharsPlain(opt', Last(rows).text);
    }
  }

  /** show_tabs without show_nonprinting changes nothing in the output. */
  lemma ShowTabsAloneInvisible(opt: Options, input: seq<byte>)
    requires !opt.showNonprinting
    ensures Render(opt, input) == Render(opt.(showTabs := !opt.showTabs), input)
  {
    var opt' := opt.(showTabs := !opt.showTabs);
    LineFlagsOnly(opt, opt', Lines(input));
    SerializeWithoutEscapes(opt, opt', RenderLines(opt, Lines(input)).rows);
  }

  lemma {:induction false} UpToLength(n: nat)
    ensures |UpTo(n)| == n
  {
    if n > 0 { UpToLength(n - 1); }
  }

  /** The line numbers of one source: 1, 2, 3, ... without gaps, one per
      row under `-n`; under `-b` (which wins over `-n`) exactly the rows that
      are not blank are numbered. */
  lemma Numbering(opt: Options, input: seq<byte>)
    ensures NumberedByFlags(opt, RenderLines(opt, Lines(input)))
  {
    RenderConsistent(opt, Lines(input));
    ConsistentNumbering(opt, RenderLines(opt, Lines(input)));
  }

  /** The numbers shown run 1, 2, ... without gaps and the counter is the next
      one; a row is numbered exactly when -n is on and -b off, or -b is on
      and the row is not blank; under -n alone every row is numbered. */
  ghost predicate NumberedByFlags(opt: Options, st: LineState) {
    && st.counter >= 1
    && Shown(st.rows) == UpTo(st.counter - 1)
    && (forall k :: 0 <= k < |st.rows| ==>
          (st.rows[k].number.Some? <==>
             (opt.number && !opt.numberNonblank) || (opt.numberNonblank && st.rows[k].text != [])))
    && (opt.number && !opt.numberNonblank ==> st.counter - 1 == |st.rows|)
  }

  /** Every consistent state is numbered as the flags say. */
  lemma ConsistentNumbering(opt: Options, st: LineState)
    requires Consistent(opt, st)
    ensures NumberedByFlags(opt, st)
  {
    if opt.number && !opt.numberNonblank {
      ShownAll(st.rows);
      UpToLength(st.counter - 1);
    }
  }

  lemma {:induction false} ShownAll(rows: seq<Row>)
    requires forall k :: 0 <= k < |rows| ==> rows[k].number.Some?
    ensures |Shown(rows)| == |rows|
  {
    if rows != [] {
      assert forall k :: 0 <= k < |Init(rows)| ==> Init(rows)[k] == rows[k];
      ShownAll(Init(rows));
    }
  }

  /** Joining lines and splitting them again gives them back. */
  lemma {:induction false} LinesOfJoin(ls: seq<seq<byte>>)
    requires NoNewlines(ls)
    ensures Lines(JoinLines(ls)) == ls && Rest(JoinLines(ls)) == []
  {
    if ls != [] {
      NoNewlinesInit(ls);
      LinesOfJoin(Init(ls));
      AppendLine(JoinLines(Init(ls)), Last(ls));
      assert [] + Last(ls) == Last(ls);
      assert ls == Init(ls) + [Last(ls)];
    }
  }

  lemma RenderLinesSnoc(opt: Options, ls: seq<seq<byte>>, line: seq<byte>)
    ensures RenderLines(opt, ls + [line]) == EndLine(opt, RenderLines(opt, ls), line)
  {
    assert Init(ls + [line]) == ls;
  }
}

/** printFile (cat.c:139-189): the byte-at-a-time line scanner, specified
    against a line-by-line reference. The input is split into its complete
    lines; each line either is suppressed by squeezing or becomes one written
    row (number prefix, rendered content, "$", newline). */
module Scanner {
  import opened Bytes
  import opened CatOptions
  import opened CharRender
  import opened Decimal
  import opened LineBuffers

  /** line_cap before any growth (cat.c:142). */
  const INITIAL_CAPACITY: nat := 80

  /** The bytes after the last newline of s: a line that has not ended. */
  function Rest(s: seq<byte>): (r: seq<byte>)
    ensures NL !in r
    ensures |r| <= |s|
  {
    if s == [] then []
    else if Last(s) == NL then []
    else Rest(Init(s)) + [Last(s)]
  }

  /** The complete lines of s, each without the newline that ends it. */
  function Lines(s: seq<byte>): (r: seq<seq<byte>>)
    ensures forall k :: 0 <= k < |r| ==> NL !in r[k]
  {
    if s == [] then []
    else if Last(s) == NL then Lines(Init(s)) + [Rest(Init(s))]
    else Lines(Init(s))
  }

  /** Each line followed by a newline, all in order. */
  function JoinLines(ls: seq<seq<byte>>): seq<byte> {
    if ls == [] then [] else JoinLines(Init(ls)) + Last(ls) + [NL]
  }

  /** Splitting loses nothing: the complete lines, each with its newline, then
      the unterminated rest, give back the input. With the newline-free
      ensures of Lines and Rest this makes the split unique. */
  lemma {:induction false} SplitJoin(s: seq<byte>)
    ensures JoinLines(Lines(s)) + Rest(s) == s
  {
    if s != [] {
      SplitJoin(Init(s));
      var p := Init(s);
      assert s == p + [Last(s)];
      if Last(s) == NL {
        assert JoinLines(Lines(s)) == JoinLines(Lines(p)) + Rest(p) + [NL] by {
          assert Lines(s) == Lines(p) + [Rest(p)];
          assert Init(Lines(s)) == Lines(p);
        }
        assert Rest(s) == [];
        calc {
          JoinLines(Lines(s)) + Rest(s);
          JoinLines(Lines(p)) + Rest(p) + [NL];
          p + [NL];
        }
      } else {
        assert Lines(s) == Lines(p) && Rest(s) == Rest(p) + [Last(s)];
        calc {
          JoinLines(Lines(s)) + Rest(s);
          JoinLines(Lines(p)) + (Rest(p) + [Last(s)]);
          (JoinLines(Lines(p)) + Rest(p)) + [Last(s)];
        }
      }
    }
  }

  /** One written line: the number its prefix shows, if any, and the bytes
      rendered after it (none for a blank line). */
  datatype Row = Row(number: Option<nat>, text: seq<byte>)

  /** The scanner's state between lines: bytes still buffered from suppressed
      lines, the line counter, blank_end, and the rows written so far. */
  datatype LineState = LineState(carry: seq<byte>, counter: nat, blankEnd: bool, rows: seq<Row>)

  /** The state at the start of every file (cat.c:141-145): counter 1, blank_end false. */
  const Start := LineState([], 1, false, [])

  /** Whether a line gets a number prefix (cat.c:160). */
  predicate Numbered(opt: Options, blank: bool) {
    (opt.number && !opt.numberNonblank) || (opt.numberNonblank && !blank)
  }

  /** What the newline that ends `line` does (cat.c:149-175). The buffer holds
      the carried bytes and the line; a blank line after a blank one is
      suppressed under squeeze_blank and leaves the buffer as it is. */
  function EndLine(opt: Options, st: LineState, line: seq<byte>): LineState {
    var buf := st.carry + line;
    var blank := IsBlank(buf);
    if st.blankEnd && blank && opt.squeezeBlank then
      st.(carry := buf)
    else
      var numbered := Numbered(opt, blank);
      LineState(
        [],
        if numbered then st.counter + 1 else st.counter,
        blank,
        st.rows + [Row(if numbered then Some(st.counter) else None, if blank then [] else buf)])
  }

  /** The state after the given complete lines, from the start of a file. */
  function RenderLines(opt: Options, ls: seq<seq<byte>>): LineState {
    if ls == [] then Start else EndLine(opt, RenderLines(opt, Init(ls)), Last(ls))
  }

  /** The bytes of one row: `%6d  ` if numbered, printChar of each byte, "$"
      under show_ends, newline (cat.c:160-175). */
  function RowBytes(opt: Options, r: Row): seq<byte> {
    Prefix(r.number)
    + PrintChars(opt, r.text)
    + (if opt.showEnds then [DOLLAR] else [])
    + [NL]
  }

  function Prefix(number: Option<nat>): seq<byte> {
    match number
    case Some(n) => NumberPrefix(n)
    case None => []
  }

  function Serialize(opt: Options, rows: seq<Row>): seq<byte> {
    if rows == [] then [] else Serialize(opt, Init(rows)) + RowBytes(opt, Last(rows))
  }

  /** What printFile writes for one input: the rows of its complete lines.
      Bytes after the last newline are never written. */
  function Render(opt: Options, input: seq<byte>): seq<byte> {
    Serialize(opt, RenderLines(opt, Lines(input)).rows)
  }

  /** The variables of printFile between two input bytes (cat.c:140-146): what
      has been written so far, `number`, `blank_flag`, `blank_end`, and the
      bytes in the line buffer. */
  datatype ScanState = ScanState(out: seq<byte>, number: nat, blankFlag: bool, blankEnd: bool, buffered: seq<byte>)

  /** The initialisations of cat.c:141-146. */
  const Initial := ScanState([], 1, true, false, [])

  /** One turn of the loop of cat.c:148-188 for the byte c. A newline is
      skipped when it ends a blank line after a blank line under
      squeeze_blank; any other newline writes the buffer as one row and
      empties it. Any other byte is buffered, and a non-space one clears
      both blank flags. */
  function Step(opt: Options, s: ScanState, c: byte): ScanState {
    if c == NL then
      if s.blankEnd && s.blankFlag && opt.squeezeBlank then
        s
      else
        var numbered := Numbered(opt, s.blankFlag);
        ScanState(
          s.out + RowBytes(opt, Row(if numbered then Some(s.number) else None, if s.blankFlag then [] else s.buffered)),
          if numbered then s.number + 1 else s.number,
          true,
          s.blankFlag,
          [])
    else
      ScanState(s.out, s.number, s.blankFlag && IsSpace(c), s.blankEnd && IsSpace(c), s.buffered + [c])
  }

  /** The state after the bytes of s, from the start of a file. */
  function Scan(opt: Options, s: seq<byte>): ScanState {
    if s == [] then Initial else Step(opt, Scan(opt, Init(s)), Last(s))
  }

  /** How the scanner's variables stand after reading `seen`, in terms of the
      line-level reference. blank_end is also cleared by every non-space byte
      (cat.c:177-180), so it equals the line-level flag only while the
      current line is still blank. */
  ghost predicate Scanned(opt: Options, seen: seq<byte>, t: ScanState) {
    var st := RenderLines(opt, Lines(seen));
    && t.out == Serialize(opt, st.rows)
    && t.number == st.counter
    && t.buffered == st.carry + Rest(seen)
    && t.blankFlag == IsBlank(t.buffered)
    && t.blankEnd == (st.blankEnd && IsBlank(Rest(seen)))
  }

  /** A byte other than newline extends the unfinished line. */
  lemma ScanOther(opt: Options, seen: seq<byte>, c: byte, t: ScanState)
    requires c != NL
    requires Scanned(opt, seen, t)
    ensures Scanned(opt, seen + [c], Step(opt, t, c))
  {
    var s := seen + [c];
    assert Init(s) == seen && Last(s) == c;
    assert Lines(s) == Lines(seen) && Rest(s) == Rest(seen) + [c];
    var st := RenderLines(opt, Lines(seen));
    assert t.buffered + [c] == st.carry + Rest(s);
    BlankConcat(t.buffered, [c]);
    BlankConcat(Rest(seen), [c]);
  }

  /** A newline completes the unfinished line and leaves nothing unfinished. */
  lemma NewlineEndsLine(seen: seq<byte>)
    ensures Lines(seen + [NL]) == Lines(seen) + [Rest(seen)]
    ensures Rest(seen + [NL]) == []
  {
    assert Init(seen + [NL]) == seen;
  }

  /** Serializing one more row appends its bytes. */
  lemma SerializeSnoc(opt: Options, rows: seq<Row>, row: Row)
    ensures Serialize(opt, rows + [row]) == Serialize(opt, rows) + RowBytes(opt, row)
  {
    assert Init(rows + [row]) == rows;
  }

  /** A newline ending a blank line right after a blank line, under
      squeeze_blank, changes nothing (cat.c:150-152). */
  lemma ScanSqueezed(opt: Options, seen: seq<byte>, t: ScanState)
    requires t.blankEnd && t.blankFlag && opt.squeezeBlank
    requires Scanned(opt, seen, t)
    ensures Scanned(opt, seen + [NL], t)
  {
    NewlineEndsLine(seen);
    assert Init(Lines(seen) + [Rest(seen)]) == Lines(seen);
  }

  /** Any other newline writes the row that EndLine appends and empties the
      buffer (cat.c:153-175). */
  lemma ScanWritten(opt: Options, seen: seq<byte>, t: ScanState)
    requires !(t.blankEnd && t.blankFlag && opt.squeezeBlank)
    requires Scanned(opt, seen, t)
    ensures Scanned(opt, seen + [NL], Step(opt, t, NL))
  {
    NewlineEndsLine(seen);
    assert Init(Lines(seen) + [Rest(seen)]) == Lines(seen);
    WrittenAgrees(opt, RenderLines(opt, Lines(seen)), Rest(seen), t);
  }

  /** The scanner's newline step, for a line that is written, matches
      EndLine on the line-level state. */
  lemma WrittenAgrees(opt: Options, st: LineState, rest: seq<byte>, t: ScanState)
    requires t.out == Serialize(opt, st.rows) && t.number == st.counter
    requires t.buffered == st.carry + rest && t.blankFlag == IsBlank(t.buffered)
    requires t.blankEnd == (st.blankEnd && IsBlank(rest))
    requires !(t.blankEnd && t.blankFlag && opt.squeezeBlank)
    ensures var st', t' := EndLine(opt, st, rest), Step(opt, t, NL);
      && t'.out == Serialize(opt, st'.rows) && t'.number == st'.counter
      && t'.buffered == st'.carry + [] && t'.blankFlag == IsBlank(t'.buffered)
      && t'.blankEnd == (st'.blankEnd && IsBlank([]))
  {
    BlankConcat(st.carry, rest);
    var numbered := Numbered(opt, t.blankFlag);
    var row := Row(if numbered then Some(t.number) else None, if t.blankFlag then [] else t.buffered);
    assert EndLine(opt, st, rest).rows == st.rows + [row];
    SerializeSnoc(opt, st.rows, row);
  }


  /** The byte-at-a-time scanner agrees with the line-by-line reference after
      every prefix of the input. */
  lemma {:induction false} ScanAgrees(opt: Options, s: seq<byte>)
    ensures Scanned(opt, s, Scan(opt, s))
  {
    if s != [] {
      ScanAgrees(opt, Init(s));
      ScanStep(opt, s, Scan(opt, Init(s)));
    }
  }

  /** Each byte keeps the scanner in step with the reference. */
  lemma ScanStep(opt: Options, s: seq<byte>, t: ScanState)
    requires s != [] && Scanned(opt, Init(s), t)
    ensures Scanned(opt, s, Step(opt, t, Last(s)))
  {
    var seen, c := Init(s), Last(s);
    assert s == seen + [c];
    if c != NL {
      ScanOther(opt, seen, c, t);
    } else if t.blankEnd && t.blankFlag && opt.squeezeBlank {
      ScanSqueezed(opt, seen, t);
    } else {
      ScanWritten(opt, seen, t);
    }
  }

  /** What the scanner has written after the whole input is the reference
      rendering: the rows of the complete lines, and nothing of the bytes
      after the last newline. */
  lemma ScanRender(opt: Options, s: seq<byte>)
    ensures Scan(opt, s).out == Render(opt, s)
  {
    ScanAgrees(opt, s);
  }

  /** The loop `for (i = 0; i < line_len; i++) printChar(line[i], out)`
      (cat.c:165-167): the rendering of every buffered byte, in order. */
  method PrintBuffered(opt: Options, buf: LineBuffer) returns (out: seq<byte>)
    requires buf.Valid()
    ensures out == PrintChars(opt, buf.Contents())
  {
    out := [];
    var k := 0;
    while k < buf.len
      invariant 0 <= k <= buf.len
      invariant out == PrintChars(opt, buf.Contents()[..k])
    {
      assert buf.Contents()[..k + 1] == buf.Contents()[..k] + [buf.line[k]];
      out := out + PrintChar(opt, buf.line[k]);
      k := k + 1;
    }
    assert buf.Contents()[..k] == buf.Contents();
  }

  /** One written line (cat.c:160-175, without `line_len = 0`): the number
      prefix when the line is numbered, then the buffered bytes unless the line
      is blank, then "$" under show_ends, then a newline. */
  method WriteLine(opt: Options, buf: LineBuffer, number: nat, blank: bool) returns (bytes: seq<byte>, number': nat)
    requires buf.Valid()
    ensures var numbered := Numbered(opt, blank);
      && bytes == RowBytes(opt, Row(if numbered then Some(number) else None, if blank then [] else buf.Contents()))
      && number' == if numbered then number + 1 else number
  {
    ghost var numbered := Numbered(opt, blank);
    ghost var row := Row(if numbered then Some(number) else None, if blank then [] else buf.Contents());
    bytes, number' := [], number;
    if (opt.number && !opt.numberNonblank) || (opt.numberNonblank && !blank) {
      bytes := bytes + NumberPrefix(number');
      number' := number' + 1;
    }
    assert bytes == Prefix(row.number);
    if !blank {
      var content := PrintBuffered(opt, buf);
      bytes := bytes + content;
    }
    assert bytes == Prefix(row.number) + PrintChars(opt, row.text);
    ghost var head := bytes;
    if opt.showEnds {
      bytes := bytes + [DOLLAR, NL];
      assert bytes == (head + [DOLLAR]) + [NL];
    } else {
      bytes := bytes + [NL];
      assert head + [] == head;
    }
  }

  /** The local state of one printFile call (cat.c:140-146): the line buffer,
      the counter `number`, `blank_flag` and `blank_end`, and what has been
      written to the output stream so far. */
  class FileScanner {
    const opt: Options
    var buf: LineBuffer
    var number: nat
    var blankFlag: bool
    var blankEnd: bool
    var out: seq<byte>
    ghost var Repr: set<object>

    ghost predicate Valid()
      reads this, Repr
    {
      && this in Repr && buf in Repr && buf.Repr <= Repr && this !in buf.Repr
      && buf.Valid()
    }

    /** The scanner's variables as a value. */
    ghost function State(): ScanState
      reads this, Repr
      requires Valid()
    {
      ScanState(out, number, blankFlag, blankEnd, buf.Contents())
    }

    /** The initialisations of cat.c:141-146. */
    constructor (opt: Options)
      ensures Valid() && fresh(Repr)
      ensures this.opt == opt && State() == Initial && buf.line.Length == INITIAL_CAPACITY
    {
      this.opt := opt;
      buf := new LineBuffer(INITIAL_CAPACITY);
      number := 1;
      blankFlag := true;
      blankEnd := false;
      out := [];
      new;
      Repr := {this} + buf.Repr;
    }

    /** One turn of the loop of cat.c:148-188 for the byte c. */
    method Read(c: byte)
      requires Valid()
      modifies Repr
      ensures Valid() && fresh(Repr - old(Repr))
      ensures State() == Step(opt, old(State()), c)
    {
      if c == NL {
        EndOfLine();
      } else {
        if !IsSpace(c) {
          blankEnd := false;
          blankFlag := false;
        }
        buf.Push(c);
        Repr := Repr + buf.Repr;
      }
    }

    /** A newline (cat.c:149-175). */
    method EndOfLine()
      requires Valid()
      modifies Repr
      ensures Valid() && Repr == old(Repr)
      ensures State() == Step(opt, old(State()), NL)
    {
      if blankEnd && blankFlag && opt.squeezeBlank {
        return;
      }
      var bytes, next := WriteLine(opt, buf, number, blankFlag);
      buf.Clear();
      out, number := out + bytes, next;
      blankEnd := blankFlag;
      blankFlag := true;
    }
  }

  /** printFile: reads the input one byte at a time and writes each line when
      its newline arrives. Its output is the line-by-line reference. */
  method PrintFile(opt: Options, input: seq<byte>) returns (out: seq<byte>)
    ensures out == Render(opt, input)
  {
    var scanner := new FileScanner(opt);
    var i := 0;
    while i < |input|
      invariant 0 <= i <= |input|
      invariant scanner.Valid() && fresh(scanner.Repr)
      invariant scanner.opt == opt && scanner.State() == Scan(opt, input[..i])
    {
      assert Init(input[..i + 1]) == input[..i] && Last(input[..i + 1]) == input[i];
      scanner.Read(input[i]);
      i := i + 1;
    }
    assert input[..i] == input;
    out := scanner.out;
    ScanRender(opt, input);
  }
}

/** main (cat.c:212-238): parse the arguments, print the usage text or fail,
    otherwise run printFile over every source in order. Opening a file is a
    lookup in the files that can be opened; standard input is a byte
    sequence of its own. */
module CatMain {
  import opened Bytes
  import opened CatOptions
  import opened Scanner

  /** How a run of cat ends: its exit status, whether the usage text was
      printed, and the bytes printFile wrote to standard output. */
  datatype Outcome = Outcome(status: int, usage: bool, out: seq<byte>)

  /** What main reads for a source name (cat.c:225-232): standard input for
      "-", otherwise the file, or None when it cannot be opened. */
  function Source(name: string, stdin: seq<byte>, files: map<string, seq<byte>>): Option<seq<byte>> {
    if name == "-" then Some(stdin)
    else if name in files then Some(files[name])
    else None
  }

  /** The loop of cat.c:223-235 from the first of `names` on: each source is
      printed in turn; the first one that cannot be opened ends the run with
      status 2, after what the sources before it wrote. */
  function RunSources(opt: Options, names: seq<string>, stdin: seq<byte>, files: map<string, seq<byte>>): Outcome {
    if names == [] then Outcome(0, false, [])
    else
      match Source(names[0], stdin, files)
      case None => Outcome(2, false, [])
      case Some(content) =>
        var rest := RunSources(opt, names[1..], stdin, files);
        Outcome(rest.status, false, Render(opt, content) + rest.out)
  }

  /** main: status 1 after a parse error, the usage text and status 0 after
      a request for help, otherwise the sources (standard input when none is
      named). */
  function Main(argv: seq<string>, stdin: seq<byte>, files: map<string, seq<byte>>): Outcome {
    var p := ParseArgs(argv);
    if p.code == 1 then Outcome(1, false, [])
    else if p.code == -1 then Outcome(0, true, [])
    else RunSources(p.opt, DefaultSources(p.files), stdin, files)
  }

  /** The output of printFile run on each source in turn: every call starts
      afresh, so numbering restarts at 1 for each source. */
  function CatOutput(opt: Options, sources: seq<seq<byte>>): seq<byte> {
    if sources == [] then [] else Render(opt, sources[0]) + CatOutput(opt, sources[1..])
  }

  /** The contents of the sources that open, up to the first one that does not. */
  function Opened(names: seq<string>, stdin: seq<byte>, files: map<string, seq<byte>>): (r: seq<seq<byte>>)
    ensures |r| <= |names|
  {
    if names == [] then []
    else
      match Source(names[0], stdin, files)
      case None => []
      case Some(content) => [content] + Opened(names[1..], stdin, files)
  }

  /** Concatenating sources concatenates their outputs: nothing of one
      printFile call, neither the counter nor the squeeze state nor the
      buffered tail, reaches the next. */
  lemma {:induction false} CatOutputAppend(opt: Options, a: seq<seq<byte>>, b: seq<seq<byte>>)
    ensures CatOutput(opt, a + b) == CatOutput(opt, a) + CatOutput(opt, b)
  {
    if a == [] {
      assert a + b == b;
    } else {
      assert (a + b)[0] == a[0] && (a + b)[1..] == a[1..] + b;
      CatOutputAppend(opt, a[1..], b);
      ghost var x, y, z := Render(opt, a[0]), CatOutput(opt, a[1..]), CatOutput(opt, b);
      assert x + (y + z) == (x + y) + z;
    }
  }

  /** The loop writes the output of the sources that open, and ends with
      status 0 exactly when all of them open, 2 otherwise. */
  lemma {:induction false} RunSourcesOutput(opt: Options, names: seq<string>, stdin: seq<byte>, files: map<string, seq<byte>>)
    ensures var r := RunSources(opt, names, stdin, files);
      var read := Opened(names, stdin, files);
      && r.out == CatOutput(opt, read)
      && r.status == (if |read| == |names| then 0 else 2)
      && !r.usage
  {
    if names != [] {
      match Source(names[0], stdin, files)
      case None =>
      case Some(content) =>
        RunSourcesOutput(opt, names[1..], stdin, files);
    }
  }

  /** The exit status is 0, 1 or 2: 1 exactly on a parse error, the usage
      text only with status 0 and no other output, and 2 only when a source
      could not be opened. */
  lemma MainStatus(argv: seq<string>, stdin: seq<byte>, files: map<string, seq<byte>>)
    ensures var r := Main(argv, stdin, files);
      && (r.status == 0 || r.status == 1 || r.status == 2)
      && (r.status == 1 <==> ParseArgs(argv).code == 1)
      && (r.usage <==> ParseArgs(argv).code == -1)
      && (r.usage ==> r.status == 0 && r.out == [])
      && (r.status == 2 ==> exists name :: name in DefaultSources(ParseArgs(argv).files) && Source(name, stdin, files).None?)
  {
    var p := ParseArgs(argv);
    if p.code == 0 {
      var names := DefaultSources(p.files);
      RunSourcesOutput(p.opt, names, stdin, files);
      if Main(argv, stdin, files).status == 2 {
        FirstUnopened(names, stdin, files);
      }
    }
  }

  /** When not every source opens, the one after those that did is a name
      that cannot be opened. */
  lemma {:induction false} FirstUnopened(names: seq<string>, stdin: seq<byte>, files: map<string, seq<byte>>)
    requires |Opened(names, stdin, files)| < |names|
    ensures var k := |Opened(names, stdin, files)|; Source(names[k], stdin, files).None?
  {
    if Source(names[0], stdin, files).Some? {
      FirstUnopened(names[1..], stdin, files);
    }
  }

  predicate NamesOnly(names: seq<string>) {
    forall k :: 0 <= k < |names| ==> !IsOptionToken(names[k])
  }

  /** Every name stored by parseOption is a source name, never an option and
      so never "-". */
  lemma {:induction false} StoredAreNames(ts: seq<string>, opt: Options, files: seq<string>)
    requires NamesOnly(files)
    ensures NamesOnly(ParseTokens(ts, opt, files).files)
  {
    if ts != [] {
      var a := ts[0];
      if IsOptionToken(a) {
        if IsLongToken(a) {
          if LongOption(a).Sets? {
            StoredAreNames(ts[1..], Merge(opt, LongOption(a).mask), files);
          }
        } else if ApplyCluster(a[1..], opt).Continue? {
          StoredAreNames(ts[1..], ApplyCluster(a[1..], opt).opt, files);
        }
      } else if |files| < FILE_MAXLEN {
        assert NamesOnly(files + [a]) by {
          forall k | 0 <= k < |files + [a]| ensures !IsOptionToken((files + [a])[k]) {
            if k < |files| { assert (files + [a])[k] == files[k]; }
          }
        }
        StoredAreNames(ts[1..], opt, files + [a]);
      }
    }
  }

  /** Sources that do not include "-" never read standard input. */
  lemma {:induction false} NamedSourcesIgnoreStdin(opt: Options, names: seq<string>, stdin: seq<byte>, stdin': seq<byte>, files: map<string, seq<byte>>)
    requires forall k :: 0 <= k < |names| ==> names[k] != "-"
    ensures RunSources(opt, names, stdin, files) == RunSources(opt, names, stdin', files)
  {
    if names != [] {
      NamedSourcesIgnoreStdin(opt, names[1..], stdin, stdin', files);
    }
  }

  /** Standard input is read only when no source is named: a lone "-" on
      the command line does not name it. */
  lemma StdinOnlyByDefault(argv: seq<string>, stdin: seq<byte>, stdin': seq<byte>, files: map<string, seq<byte>>)
    requires ParseArgs(argv).files != []
    ensures Main(argv, stdin, files) == Main(argv, stdin', files)
  {
    var p := ParseArgs(argv);
    assert p == ParseTokens(Arguments(argv), NoOptions, []);
    StoredAreNames(Arguments(argv), NoOptions, []);
    forall k | 0 <= k < |p.files| ensures p.files[k] != "-" {
      assert !IsOptionToken(p.files[k]);
    }
    NamedSourcesIgnoreStdin(p.opt, p.files, stdin, stdin', files);
  }

  /** main names standard input at most once: either "-" is its only source
      (the default), or no source is "-". */
  lemma StdinAtMostOnce(argv: seq<string>)
    ensures var names := DefaultSources(ParseArgs(argv).files);
      names == ["-"] || "-" !in names
  {
    var p := ParseArgs(argv);
    assert p == ParseTokens(Arguments(argv), NoOptions, []);
    StoredAreNames(Arguments(argv), NoOptions, []);
  }

  /** One turn of main's loop in terms of RunSources: a source that opens is
      printed before the rest, one that does not ends the run. */
  lemma RunSourcesStep(opt: Options, names: seq<string>, i: nat, stdin: seq<byte>, files: map<string, seq<byte>>)
    requires i < |names|
    ensures Source(names[i], stdin, files).None? ==> RunSources(opt, names[i..], stdin, files).status == 2
    ensures var rest := RunSources(opt, names[i + 1..], stdin, files);
      var r := RunSources(opt, names[i..], stdin, files);
      Source(names[i], stdin, files).Some? ==>
        r.status == rest.status && r.out == Render(opt, Source(names[i], stdin, files).value) + rest.out
  {
    assert names[i..][0] == names[i] && names[i..][1..] == names[i + 1..];
  }

  /** One source of main's loop (cat.c:225-233): standard input for "-",
      otherwise the named file if it opens, then printFile on it. */
  method PrintSource(opt: Options, name: string, stdin: seq<byte>, files: map<string, seq<byte>>)
    returns (ok: bool, written: seq<byte>)
    ensures ok == Source(name, stdin, files).Some?
    ensures ok ==> written == Render(opt, Source(name, stdin, files).value)
  {
    var content: seq<byte>;
    if name == "-" {
      content := stdin;
    } else if name in files {
      content := files[name];
    } else {
      return false, [];
    }
    ok := true;
    written := PrintFile(opt, content);
  }

  /** What main's loop has done after the first i sources: written `out`, and
      what the rest will do completes RunSources. */
  ghost predicate LoopDone(opt: Options, names: seq<string>, i: nat, out: seq<byte>, stdin: seq<byte>, files: map<string, seq<byte>>) {
    && i <= |names|
    && RunSources(opt, names, stdin, files).status == RunSources(opt, names[i..], stdin, files).status
    && RunSources(opt, names, stdin, files).out == out + RunSources(opt, names[i..], stdin, files).out
  }

  /** Printing a source that opens moves the loop on by one. */
  lemma LoopAdvance(opt: Options, names: seq<string>, i: nat, out: seq<byte>, written: seq<byte>, stdin: seq<byte>, files: map<string, seq<byte>>)
    requires LoopDone(opt, names, i, out, stdin, files) && i < |names|
    requires Source(names[i], stdin, files).Some?
    requires written == Render(opt, Source(names[i], stdin, files).value)
    ensures LoopDone(opt, names, i + 1, out + written, stdin, files)
  {
    RunSourcesStep(opt, names, i, stdin, files);
    ghost var later := RunSources(opt, names[i + 1..], stdin, files).out;
    assert out + (written + later) == (out + written) + later;
  }

  /** A source that does not open ends the loop with status 2. */
  lemma LoopFails(opt: Options, names: seq<string>, i: nat, out: seq<byte>, stdin: seq<byte>, files: map<string, seq<byte>>)
    requires LoopDone(opt, names, i, out, stdin, files) && i < |names|
    requires Source(names[i], stdin, files).None?
    ensures Outcome(2, false, out) == RunSources(opt, names, stdin, files)
  {
    RunSourcesStep(opt, names, i, stdin, files);
    assert RunSources(opt, names[i..], stdin, files) == Outcome(2, false, []) by {
      assert names[i..][0] == names[i];
    }
    assert out + [] == out;
  }

  /** After the last source the loop ends with status 0. */
  lemma LoopEnds(opt: Options, names: seq<string>, out: seq<byte>, stdin: seq<byte>, files: map<string, seq<byte>>)
    requires LoopDone(opt, names, |names|, out, stdin, files)
    ensures Outcome(0, false, out) == RunSources(opt, names, stdin, files)
  {
    assert names[|names|..] == [];
    assert out + [] == out;
    RunSourcesOutput(opt, names, stdin, files);
  }

  /** main's loop over the sources (cat.c:223-235). */
  method RunSourcesLoop(opt: Options, names: seq<string>, stdin: seq<byte>, files: map<string, seq<byte>>)
    returns (status: int, out: seq<byte>)
    ensures Outcome(status, false, out) == RunSources(opt, names, stdin, files)
  {
    out := [];
    var i := 0;
    assert names[0..] == names;
    while i < |names|
      invariant LoopDone(opt, names, i, out, stdin, files)
    {
      var ok, written := PrintSource(opt, names[i], stdin, files);
      if !ok {
        LoopFails(opt, names, i, out, stdin, files);
        return 2, out;
      }
      LoopAdvance(opt, names, i, out, written, stdin, files);
      out := out + written;
      i := i + 1;
    }
    LoopEnds(opt, names, out, stdin, files);
    status := 0;
  }

  /** main (cat.c:212-238). */
  method RunMain(argv: seq<string>, stdin: seq<byte>, files: map<string, seq<byte>>)
    returns (status: int, usage: bool, out: seq<byte>)
    ensures Outcome(status, usage, out) == Main(argv, stdin, files)
  {
    var code, opt, parsed := ParseOption(argv);
    if code == 1 {
      return 1, false, [];
    } else if code == -1 {
      return 0, true, [];
    }
    assert code == 0;
    var names := parsed;
    if |names| == 0 {
      names := names + ["-"];
    }
    assert names == DefaultSources(parsed);
    usage := false;
    status, out := RunSourcesLoop(opt, names, stdin, files);
  }
}

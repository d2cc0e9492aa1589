/** The option model of cat.c: six display flags, the list of requested
    sources, and the command-line parser that fills both (cat.c:8-105), plus
    the rule in main that reads standard input when no source is named
    (cat.c:219-221). */
module CatOptions {

  /** Capacity of the global file list (cat.c:10). */
  const FILE_MAXLEN: nat := 100

  /** The global option struct (cat.c:15-22), passed around as a value. */
  datatype Options = Options(
    number: bool,
    numberNonblank: bool,
    squeezeBlank: bool,
    showNonprinting: bool,
    showEnds: bool,
    showTabs: bool)

  /** The struct as zero-initialised storage leaves it before parsing. */
  const NoOptions := Options(false, false, false, false, false, false)

  /** Every flag set in `a` is set in `b`. */
  predicate Implies(a: Options, b: Options) {
    && (a.number ==> b.number)
    && (a.numberNonblank ==> b.numberNonblank)
    && (a.squeezeBlank ==> b.squeezeBlank)
    && (a.showNonprinting ==> b.showNonprinting)
    && (a.showEnds ==> b.showEnds)
    && (a.showTabs ==> b.showTabs)
  }

  /** Sets in `o` every flag that is set in `mask`; no flag is ever cleared. */
  function Merge(o: Options, mask: Options): (r: Options)
    ensures Implies(o, r) && Implies(mask, r)
    ensures forall p :: Implies(o, p) && Implies(mask, p) ==> Implies(r, p)
  {
    Options(
      o.number || mask.number,
      o.numberNonblank || mask.numberNonblank,
      o.squeezeBlank || mask.squeezeBlank,
      o.showNonprinting || mask.showNonprinting,
      o.showEnds || mask.showEnds,
      o.showTabs || mask.showTabs)
  }

  /** What one option does: set some flags, ask for help, or be rejected. */
  datatype Effect = Sets(mask: Options) | Help | Unknown

  /** The letters of a short-option cluster (cat.c:54-93). */
  function ShortOption(c: char): Effect {
    match c
    case 'b' => Sets(NoOptions.(numberNonblank := true))
    case 'e' => Sets(NoOptions.(showNonprinting := true, showEnds := true))
    case 'n' => Sets(NoOptions.(number := true))
    case 's' => Sets(NoOptions.(squeezeBlank := true))
    case 't' => Sets(NoOptions.(showNonprinting := true, showTabs := true))
    case 'u' => Sets(NoOptions)
    case 'v' => Sets(NoOptions.(showNonprinting := true))
    case 'A' => Sets(NoOptions.(showNonprinting := true, showEnds := true, showTabs := true))
    case 'E' => Sets(NoOptions.(showEnds := true))
    case 'T' => Sets(NoOptions.(showTabs := true))
    case 'h' => Help
    case _ => Unknown
  }

  /** The long options, compared with the whole token (cat.c:29-50). */
  function LongOption(a: string): Effect {
    if a == "--number-nonbreak" then Sets(NoOptions.(numberNonblank := true))
    else if a == "--number" then Sets(NoOptions.(number := true))
    else if a == "--squeeze-blank" then Sets(NoOptions.(squeezeBlank := true))
    else if a == "--show-nonprinting" then Sets(NoOptions.(showNonprinting := true))
    else if a == "--show-all" then Sets(NoOptions.(showNonprinting := true, showEnds := true, showTabs := true))
    else if a == "--show-ends" then Sets(NoOptions.(showEnds := true))
    else if a == "--show-tabs" then Sets(NoOptions.(showTabs := true))
    else if a == "--help" then Help
    else Unknown
  }

  /** A token that starts with '-' is an option (cat.c:26); any other token names a source. */
  predicate IsOptionToken(a: string) {
    |a| >= 1 && a[0] == '-'
  }

  /** An option token whose second character is '-' is a long option (cat.c:27). */
  predicate IsLongToken(a: string) {
    |a| >= 2 && a[0] == '-' && a[1] == '-'
  }

  /** Outcome of applying part of a cluster: keep going, or stop with a result code. */
  datatype ClusterResult = Continue(opt: Options) | Stop(code: int, opt: Options)

  /** Applies the letters of one short cluster left to right; the first 'h'
      or unknown letter stops, and the letters after it are not applied. */
  function ApplyCluster(letters: seq<char>, opt: Options): (r: ClusterResult)
    ensures Implies(opt, r.opt)
    ensures r.Stop? ==> r.code == 1 || r.code == -1
  {
    if letters == [] then Continue(opt)
    else
      match ShortOption(letters[0])
      case Sets(mask) => ApplyCluster(letters[1..], Merge(opt, mask))
      case Help => Stop(-1, opt)
      case Unknown => Stop(1, opt)
  }

  /** What parseOption returns, together with the global state it leaves. */
  datatype Parsed = Parsed(code: int, opt: Options, files: seq<string>)

  /** The tokens after the program name, handled left to right from the
      options and files gathered so far. Result code 0 is success, 1 an
      error, -1 a request for help. */
  function ParseTokens(ts: seq<string>, opt: Options, files: seq<string>): (r: Parsed)
    ensures r.code == 0 || r.code == 1 || r.code == -1
    ensures Implies(opt, r.opt)
    ensures files <= r.files
    ensures |files| <= FILE_MAXLEN ==> |r.files| <= FILE_MAXLEN
  {
    if ts == [] then Parsed(0, opt, files)
    else
      var a := ts[0];
      if IsOptionToken(a) then
        if IsLongToken(a) then
          match LongOption(a)
          case Sets(mask) => ParseTokens(ts[1..], Merge(opt, mask), files)
          case Help => Parsed(-1, opt, files)
          case Unknown => Parsed(1, opt, files)
        else
          match ApplyCluster(a[1..], opt)
          case Continue(o) => ParseTokens(ts[1..], o, files)
          case Stop(code, o) => Parsed(code, o, files)
      else if |files| >= FILE_MAXLEN then Parsed(1, opt, files)
      else ParseTokens(ts[1..], opt, files + [a])
  }

  /** The tokens parseOption looks at: argv without argv[0]. */
  function Arguments(argv: seq<string>): seq<string> {
    if |argv| == 0 then [] else argv[1..]
  }

  /** parseOption(argc, argv) starting from the zero-initialised globals. */
  function ParseArgs(argv: seq<string>): Parsed {
    ParseTokens(Arguments(argv), NoOptions, [])
  }

  /** Result code of one option token: 0 to go on, otherwise what parseOption returns. */
  function EffectCode(e: Effect): int {
    match e
    case Sets(_) => 0
    case Help => -1
    case Unknown => 1
  }

  /** The long-option branch of parseOption (cat.c:29-50): sets the flags the
      token names, or reports help (-1) or an unknown option (1). */
  method LongOptionStep(a: string, opt: Options) returns (code: int, opt': Options)
    ensures code == EffectCode(LongOption(a))
    ensures opt' == if LongOption(a).Sets? then Merge(opt, LongOption(a).mask) else opt
  {
    code, opt' := 0, opt;
    if a == "--number-nonbreak" {
      opt' := opt'.(numberNonblank := true);
    } else if a == "--number" {
      opt' := opt'.(number := true);
    } else if a == "--squeeze-blank" {
      opt' := opt'.(squeezeBlank := true);
    } else if a == "--show-nonprinting" {
      opt' := opt'.(showNonprinting := true);
    } else if a == "--show-all" {
      opt' := opt'.(showNonprinting := true, showEnds := true, showTabs := true);
    } else if a == "--show-ends" {
      opt' := opt'.(showEnds := true);
    } else if a == "--show-tabs" {
      opt' := opt'.(showTabs := true);
    } else if a == "--help" {
      return -1, opt';
    } else {
      return 1, opt';
    }
  }

  /** The short-option branch of parseOption (cat.c:53-94): applies the letters
      after the leading '-' left to right and stops at the first 'h' (-1) or
      unknown letter (1), with the flags set by the letters before it. */
  method ClusterStep(a: string, opt: Options) returns (code: int, opt': Options)
    requires |a| >= 1
    ensures var r := ApplyCluster(a[1..], opt);
      code == (if r.Stop? then r.code else 0) && opt' == r.opt
  {
    opt' := opt;
    var j := 1;
    while j < |a|
      invariant 1 <= j <= |a|
      invariant ApplyCluster(a[1..], opt) == ApplyCluster(a[j..], opt')
    {
      assert a[j..][0] == a[j] && a[j..][1..] == a[j + 1..];
      match a[j] {
        case 'b' => opt' := opt'.(numberNonblank := true);
        case 'e' => opt' := opt'.(showNonprinting := true, showEnds := true);
        case 'n' => opt' := opt'.(number := true);
        case 's' => opt' := opt'.(squeezeBlank := true);
        case 't' => opt' := opt'.(showNonprinting := true, showTabs := true);
        case 'u' =>
        case 'v' => opt' := opt'.(showNonprinting := true);
        case 'A' => opt' := opt'.(showNonprinting := true, showEnds := true, showTabs := true);
        case 'E' => opt' := opt'.(showEnds := true);
        case 'T' => opt' := opt'.(showTabs := true);
        case 'h' => return -1, opt';
        case _ => return 1, opt';
      }
      j := j + 1;
    }
    assert a[j..] == [];
    code := 0;
  }

  /** parseOption (cat.c:24-105): the global option struct and file array are
      passed back as out-parameters; the file list keeps its fixed-size array. */
  method ParseOption(argv: seq<string>) returns (code: int, opt: Options, files: seq<string>)
    ensures Parsed(code, opt, files) == ParseArgs(argv)
  {
    opt := NoOptions;
    var file := new string[FILE_MAXLEN];
    var fileLen := 0;
    var i := 1;
    while i < |argv|
      invariant 1 <= i && (|argv| > 0 ==> i <= |argv|)
      invariant fileLen <= file.Length == FILE_MAXLEN
      invariant ParseArgs(argv) == ParseTokens(if i < |argv| then argv[i..] else [], opt, file[..fileLen])
    {
      var a := argv[i];
      assert argv[i..][0] == a && argv[i..][1..] == if i + 1 < |argv| then argv[i + 1..] else [];
      if |a| >= 1 && a[0] == '-' {
        if |a| >= 2 && a[1] == '-' {
          code, opt := LongOptionStep(a, opt);
        } else {
          code, opt := ClusterStep(a, opt);
        }
        if code != 0 {
          return code, opt, file[..fileLen];
        }
      } else {
        if fileLen >= FILE_MAXLEN {
          return 1, opt, file[..fileLen];
        }
        ghost var before := file[..fileLen];
        file[fileLen] := a;
        fileLen := fileLen + 1;
        assert file[..fileLen] == before + [a];
      }
      i := i + 1;
    }
    return 0, opt, file[..fileLen];
  }

  /** main's rule (cat.c:219-221): with no source named, read standard input, written "-". */
  function DefaultSources(files: seq<string>): (r: seq<string>)
    ensures |r| >= 1
    ensures files != [] ==> r == files
  {
    if files == [] then ["-"] else files
  }
}

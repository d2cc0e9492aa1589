/** Properties of parseOption (cat.c:24-105) and of main's default source
    (cat.c:219-221), stated over the functional model in CatOptions. */
module ParseProperties {
  import opened CatOptions

  /** Whether an option token ends parsing by itself: an unknown or help long
      option, or a cluster holding 'h' or an unknown letter. */
  predicate Stops(a: string) {
    IsOptionToken(a) &&
    if IsLongToken(a) then !LongOption(a).Sets? else ApplyCluster(a[1..], NoOptions).Stop?
  }

  predicate NoneStops(ts: seq<string>) {
    forall k :: 0 <= k < |ts| ==> !Stops(ts[k])
  }

  /** The flags a token sets when it is applied in full; a source name sets none. */
  function TokenMask(a: string): Options {
    if !IsOptionToken(a) then NoOptions
    else if IsLongToken(a) then (if LongOption(a).Sets? then LongOption(a).mask else NoOptions)
    else ApplyCluster(a[1..], NoOptions).opt
  }

  /** Every flag any of the tokens sets. */
  function Flags(ts: seq<string>): Options {
    if ts == [] then NoOptions else Merge(TokenMask(ts[0]), Flags(ts[1..]))
  }

  /** The tokens that name sources, in order. */
  function FileTokens(ts: seq<string>): seq<string> {
    if ts == [] then []
    else (if IsOptionToken(ts[0]) then [] else [ts[0]]) + FileTokens(ts[1..])
  }

  /** A cluster acts on the flags already set only by adding its own: where it
      stops, and with which code, does not depend on them. */
  lemma {:induction false} ClusterMerge(letters: seq<char>, opt: Options)
    ensures var r0 := ApplyCluster(letters, NoOptions); var r := ApplyCluster(letters, opt);
      && r.Stop? == r0.Stop?
      && (r.Stop? ==> r.code == r0.code)
      && r.opt == Merge(opt, r0.opt)
  {
    if letters != [] {
      var e := ShortOption(letters[0]);
      if e.Sets? {
        var rest := ApplyCluster(letters[1..], NoOptions);
        ClusterMerge(letters[1..], Merge(opt, e.mask));
        ClusterMerge(letters[1..], Merge(NoOptions, e.mask));
        MergeNothing(e.mask);
        MergeAssociates(opt, e.mask, rest.opt);
      }
    }
  }

  /** The letters of a cluster are applied left to right: the letters of l1
      then those of l2 act as l1 and then, only if l1 did not stop, l2 from
      the flags l1 left. So after 'h' or an unknown letter no later letter of
      the cluster is applied. */
  lemma {:induction false} ClusterCompose(l1: seq<char>, l2: seq<char>, opt: Options)
    ensures var r1 := ApplyCluster(l1, opt);
      ApplyCluster(l1 + l2, opt) == if r1.Stop? then r1 else ApplyCluster(l2, r1.opt)
  {
    if l1 == [] {
      assert l1 + l2 == l2;
    } else {
      assert (l1 + l2)[0] == l1[0] && (l1 + l2)[1..] == l1[1..] + l2;
      match ShortOption(l1[0])
      case Sets(mask) => ClusterCompose(l1[1..], l2, Merge(opt, mask));
      case Help =>
      case Unknown =>
    }
  }

  /** Parsing is sequential: the tokens of ts1 then those of ts2 are parsed
      as ts1 and then, only if ts1 ended without a stop, ts2 from where ts1
      left the flags and the file list. So after help or an error no later
      token is looked at. */
  lemma {:induction false} ParseCompose(ts1: seq<string>, ts2: seq<string>, opt: Options, files: seq<string>)
    ensures var r1 := ParseTokens(ts1, opt, files);
      ParseTokens(ts1 + ts2, opt, files) == if r1.code == 0 then ParseTokens(ts2, r1.opt, r1.files) else r1
  {
    if ts1 != [] {
      var a := ts1[0];
      assert (ts1 + ts2)[0] == a && (ts1 + ts2)[1..] == ts1[1..] + ts2;
      if IsOptionToken(a) {
        if IsLongToken(a) {
          if LongOption(a).Sets? {
            ParseCompose(ts1[1..], ts2, Merge(opt, LongOption(a).mask), files);
          }
        } else if ApplyCluster(a[1..], opt).Continue? {
          ParseCompose(ts1[1..], ts2, ApplyCluster(a[1..], opt).opt, files);
        }
      } else if |files| < FILE_MAXLEN {
        ParseCompose(ts1[1..], ts2, opt, files + [a]);
      }
    } else {
      assert ts1 + ts2 == ts2;
    }
  }

  lemma NoneStopsCons(ts: seq<string>)
    requires ts != []
    ensures NoneStops(ts) <==> !Stops(ts[0]) && NoneStops(ts[1..])
  {
    assert forall k :: 0 <= k < |ts[1..]| ==> ts[1..][k] == ts[k + 1];
    if !Stops(ts[0]) && NoneStops(ts[1..]) {
      forall k | 0 <= k < |ts| ensures !Stops(ts[k]) {
        if k > 0 { assert ts[k] == ts[1..][k - 1]; }
      }
    }
  }

  /** parseOption on ts, from the given flags and file list, returns 0
      exactly when no token stops it and the sources fit in the file array;
      it then has set every flag the tokens name and stored every source, in
      order. */
  ghost predicate SucceedsExactly(ts: seq<string>, opt: Options, files: seq<string>) {
    var r := ParseTokens(ts, opt, files);
    && (r.code == 0 <==> NoneStops(ts) && |files| + |FileTokens(ts)| <= FILE_MAXLEN)
    && (r.code == 0 ==> r.opt == Merge(opt, Flags(ts)) && r.files == files + FileTokens(ts))
  }

  /** parseOption succeeds exactly when no token stops it and the sources fit
      in the file array; it then has set every flag the tokens name and
      stored every source, in order. */
  lemma {:induction false} ParseSucceeds(ts: seq<string>, opt: Options, files: seq<string>)
    requires |files| <= FILE_MAXLEN
    ensures SucceedsExactly(ts, opt, files)
    decreases |ts|, 1
  {
    if ts != [] {
      if !IsOptionToken(ts[0]) {
        SucceedsAfterFile(ts, opt, files);
      } else if Stops(ts[0]) {
        NoneStopsCons(ts);
        StopStep(ts, opt, files);
      } else {
        SucceedsAfterOption(ts, opt, files);
      }
    }
  }

  /** ParseSucceeds when the first token names a source. */
  lemma {:induction false} SucceedsAfterFile(ts: seq<string>, opt: Options, files: seq<string>)
    requires |files| <= FILE_MAXLEN
    requires ts != [] && !IsOptionToken(ts[0])
    ensures SucceedsExactly(ts, opt, files)
    decreases |ts|, 0
  {
    NoneStopsCons(ts);
    FileStep(ts, opt, files);
    if |files| < FILE_MAXLEN {
      ParseSucceeds(ts[1..], opt, files + [ts[0]]);
    }
  }

  /** A source name sets no flag and, while the file array has room, is
      stored before parsing goes on; with the array full parsing fails. */
  lemma FileStep(ts: seq<string>, opt: Options, files: seq<string>)
    requires ts != [] && !IsOptionToken(ts[0])
    ensures !Stops(ts[0]) && Flags(ts) == Flags(ts[1..])
    ensures files + FileTokens(ts) == (files + [ts[0]]) + FileTokens(ts[1..])
    ensures |files| < FILE_MAXLEN ==> ParseTokens(ts, opt, files) == ParseTokens(ts[1..], opt, files + [ts[0]])
    ensures |files| >= FILE_MAXLEN ==> ParseTokens(ts, opt, files).code == 1
  {
    assert FileTokens(ts) == [ts[0]] + FileTokens(ts[1..]);
  }

  /** ParseSucceeds when the first token is an option that does not stop. */
  lemma {:induction false} SucceedsAfterOption(ts: seq<string>, opt: Options, files: seq<string>)
    requires |files| <= FILE_MAXLEN
    requires ts != [] && IsOptionToken(ts[0]) && !Stops(ts[0])
    ensures SucceedsExactly(ts, opt, files)
    decreases |ts|, 0
  {
    NoneStopsCons(ts);
    ContinueStep(ts, opt, files);
    OptionHead(ts, opt);
    ParseSucceeds(ts[1..], Merge(opt, TokenMask(ts[0])), files);
  }

  /** An option token names no source, and the flags it sets are merged
      before those of the tokens after it. */
  lemma OptionHead(ts: seq<string>, opt: Options)
    requires ts != [] && IsOptionToken(ts[0])
    ensures Merge(Merge(opt, TokenMask(ts[0])), Flags(ts[1..])) == Merge(opt, Flags(ts))
    ensures FileTokens(ts) == FileTokens(ts[1..])
  {
    MergeAssociates(opt, TokenMask(ts[0]), Flags(ts[1..]));
  }

  lemma MergeAssociates(a: Options, b: Options, c: Options)
    ensures Merge(Merge(a, b), c) == Merge(a, Merge(b, c))
  {
  }

  lemma MergeNothing(a: Options)
    ensures Merge(NoOptions, a) == a
  {
  }

  /** An option token that does not stop adds its flags and parsing goes on. */
  lemma ContinueStep(ts: seq<string>, opt: Options, files: seq<string>)
    requires ts != [] && IsOptionToken(ts[0]) && !Stops(ts[0])
    ensures ParseTokens(ts, opt, files) == ParseTokens(ts[1..], Merge(opt, TokenMask(ts[0])), files)
  {
    if !IsLongToken(ts[0]) {
      ClusterMerge(ts[0][1..], opt);
    }
  }

  /** An option token that stops ends parsing with a code other than 0. */
  lemma StopStep(ts: seq<string>, opt: Options, files: seq<string>)
    requires ts != [] && Stops(ts[0])
    ensures ParseTokens(ts, opt, files).code != 0
  {
    if !IsLongToken(ts[0]) {
      ClusterMerge(ts[0][1..], opt);
    }
  }

  /** With only source names on the command line, they are stored in order
      until the array is full; the 101st name makes parseOption fail with 1,
      and is not stored. */
  lemma {:induction false} FileLimit(ts: seq<string>, opt: Options, files: seq<string>)
    requires |files| <= FILE_MAXLEN
    requires forall k :: 0 <= k < |ts| ==> !IsOptionToken(ts[k])
    ensures var r := ParseTokens(ts, opt, files);
      && r.opt == opt
      && (if |files| + |ts| <= FILE_MAXLEN then r.code == 0 && r.files == files + ts
          else r.code == 1 && r.files == (files + ts)[..FILE_MAXLEN])
  {
    if ts != [] {
      if |files| < FILE_MAXLEN {
        assert forall k :: 0 <= k < |ts[1..]| ==> ts[1..][k] == ts[k + 1];
        FileLimit(ts[1..], opt, files + [ts[0]]);
        assert files + [ts[0]] + ts[1..] == files + ts;
      } else {
        assert (files + ts)[..FILE_MAXLEN] == files;
      }
    }
  }

  /** A lone "-" is a cluster with no letters: it is neither an option that
      does anything nor a source name. */
  lemma LoneDash(ts: seq<string>, opt: Options, files: seq<string>)
    ensures ParseTokens(["-"] + ts, opt, files) == ParseTokens(ts, opt, files)
  {
    assert (["-"] + ts)[0] == "-" && (["-"] + ts)[1..] == ts;
    assert "-"[1..] == [];
  }

  /** -A is -vET: show_nonprinting, show_ends and show_tabs. */
  lemma ShowAllIsVET(opt: Options)
    ensures ApplyCluster("A", opt) == ApplyCluster("vET", opt)
  {
    ClusterOne('A', opt);
    ClusterCompose("v", "ET", opt);
    ClusterOne('v', opt);
    ClusterTwo('E', 'T', Merge(opt, ShortOption('v').mask));
  }

  /** -e is -vE and -t is -vT. */
  lemma ShortCombinations(opt: Options)
    ensures ApplyCluster("e", opt) == ApplyCluster("vE", opt)
    ensures ApplyCluster("t", opt) == ApplyCluster("vT", opt)
  {
    ClusterOne('e', opt);
    ClusterTwo('v', 'E', opt);
    ClusterOne('t', opt);
    ClusterTwo('v', 'T', opt);
  }

  /** A one-letter cluster whose letter sets flags merges them in. */
  lemma ClusterOne(c: char, opt: Options)
    requires ShortOption(c).Sets?
    ensures ApplyCluster([c], opt) == Continue(Merge(opt, ShortOption(c).mask))
  {
    assert [c][1..] == [];
  }

  /** A two-letter cluster whose letters set flags merges them in, in order. */
  lemma ClusterTwo(c1: char, c2: char, opt: Options)
    requires ShortOption(c1).Sets? && ShortOption(c2).Sets?
    ensures ApplyCluster([c1, c2], opt) == Continue(Merge(Merge(opt, ShortOption(c1).mask), ShortOption(c2).mask))
  {
    assert [c1, c2][1..] == [c2];
    ClusterOne(c2, Merge(opt, ShortOption(c1).mask));
  }

  /** -u is accepted and does nothing. */
  lemma UnbufferedIgnored(opt: Options)
    ensures ApplyCluster("u", opt) == Continue(opt)
  {
    assert "u"[1..] == [];
  }

  /** Each long option does what its short letter does; a long option must
      match in full, so a prefix of one is unknown. */
  lemma LongMatchesShort()
    ensures LongOption("--number-nonbreak") == ShortOption('b')
    ensures LongOption("--number") == ShortOption('n')
    ensures LongOption("--squeeze-blank") == ShortOption('s')
    ensures LongOption("--show-nonprinting") == ShortOption('v')
    ensures LongOption("--show-all") == ShortOption('A')
    ensures LongOption("--show-ends") == ShortOption('E')
    ensures LongOption("--show-tabs") == ShortOption('T')
    ensures LongOption("--help") == ShortOption('h')
    ensures LongOption("--num") == Unknown
  {
  }

  /** Help and errors are first come, first served: `-h -z` asks for help,
      `-z -h` is an error, and in `-nhs` the 'n' is applied but not the 's'. */
  lemma FirstStopWins()
    ensures ParseArgs(["cat", "-h", "-z"]).code == -1
    ensures ParseArgs(["cat", "-z", "-h"]).code == 1
    ensures var r := ParseArgs(["cat", "-nhs"]); r.code == -1 && r.opt.number && !r.opt.squeezeBlank
  {
    assert Arguments(["cat", "-h", "-z"]) == ["-h", "-z"];
    assert Arguments(["cat", "-z", "-h"]) == ["-z", "-h"];
    assert Arguments(["cat", "-nhs"]) == ["-nhs"];
    assert "-nhs"[1..] == "nhs" && "nhs"[1..] == "hs";
    assert "-h"[1..] == "h" && "-z"[1..] == "z";
  }

  /** main reads standard input when parsing succeeded without a source name,
      and otherwise reads the named sources in the order given. */
  lemma StdinByDefault(argv: seq<string>)
    requires ParseArgs(argv).code == 0
    ensures var names := FileTokens(Arguments(argv));
      DefaultSources(ParseArgs(argv).files) == if names == [] then ["-"] else names
  {
    ParseSucceeds(Arguments(argv), NoOptions, []);
  }
}

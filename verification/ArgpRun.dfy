/** The scanner run on the tables of a parser: every option the command line holds is handed
    to the parser that declared it. */
module ArgpRun {
  import opened ArgpSpec
  import opened Common
  import opened ArgpRoute
  import opened ArgpNames
  import opened ArgpColons
  import opened GetoptMask
  import opened GetoptSpec
  import opened GetoptSpell
  import Argp
  import Getopt
  import GetoptScan

  const KEY_END: int := -1
  const KEY_ARG: int := 1
  const KEY_ERR: int := '?' as int

  /** The long table as the scanner reads it: no row names a variable to set. */
  function LongTable(long: seq<LongRow>): (l: seq<LongOpt>)
    ensures |l| == |long|
    ensures forall k :: 0 <= k < |long| ==> l[k] == LongOpt(long[k].name, long[k].hasArg, 0, long[k].val)
  {
    seq(|long|, k requires 0 <= k < |long| => LongOpt(long[k].name, long[k].hasArg, 0, long[k].val))
  }

  function ParserConfig(t: Tables, longOnly: bool): Config { Config(t.short, Some(LongTable(t.long)), longOnly) }

  /** What becomes of one report of the scanner: an error, an argument offered to the parsers
      in turn, or an option handed to one group. */
  datatype Handed = Refused | ToArgs(arg: Option<string>) | ToGroup(group: nat, key: int, arg: Option<string>) | Lost

  function Delivered(d: Option<(nat, int)>, arg: Option<string>): Handed {
    if d.None? then Lost else ToGroup(d.value.0, d.value.1, arg)
  }

  function Handing(t: Tables, o: Outcome): Handed {
    if o.code == KEY_ERR && o.opt.Some? then Refused
    else if o.code == KEY_ARG then ToArgs(o.arg)
    else Delivered(Dispatch(t, o.code), o.arg)
  }

  /** The key the parser of row k of group g receives. */
  function RowKey(t: Tables, g: nat, k: nat): int
    requires g < |t.groups| && k < |t.groups[g].options|
  {
    Signed(Or(t.groups[g].options[k].key, Real(t.groups[g].options, k).key), H24)
  }

  ghost predicate LongRight(t: Tables, o: Outcome)
    requires o.index.Some?
  {
    && o.index.value < |t.long| && o.opt.None?
    && exists g: nat, k: nat :: EnteredBy(t.groups, LastRows(t.groups), t.long[o.index.value], g, k)
                                && Handing(t, o) == ToGroup(g, RowKey(t, g, k), o.arg)
                                && ArgFits(Real(t.groups[g].options, k), o)
  }

  /** The argument is what the row asks for: none, one always, or one that is attached. */
  predicate ArgFits(main: Opt, o: Outcome) {
    && (!main.arg ==> o.arg.None?)
    && (main.arg && !main.optional ==> o.arg.Some?)
    && (main.arg && main.optional ==> o.taken != 2)
  }

  ghost predicate FirstToPut(groups: seq<Group>, g: nat) {
    && g < |groups| && PutsColon(groups[g])
    && forall h :: 0 <= h < g ==> !PutsColon(groups[h])
  }

  ghost predicate ErrorRight(t: Tables, o: Outcome) {
    if o.code == COLON then exists g :: FirstToPut(t.groups, g) && Handing(t, o) == ToGroup(g, COLON, o.arg)
    else Handing(t, o) == Refused
  }

  /** Where the argument a letter takes may be read wrongly: the letter is taken for an ordering
      prefix, or followed by the letter ':'. */
  ghost predicate Misread(t: Tables, g: nat, k: nat, c: char)
    requires g < |t.groups| && k < |t.groups[g].options|
  {
    var main := Real(t.groups[g].options, k);
    || ((c == '-' || c == '+') && [c] <= t.short)
    || (ColonNext(t.groups, g, k) && !(main.arg && main.optional))
  }

  ghost predicate LetterRight(t: Tables, prefix: string, o: Outcome) {
    && 0 <= o.code < 128 && o.code != COLON
    && var c := o.code as char;
       if c !in prefix then
         exists g: nat, k: nat :: FirstRow(t.groups, g, k, c) && Handing(t, o) == ToGroup(g, o.code, o.arg)
                                  && (Misread(t, g, k, c) || ArgFits(Real(t.groups[g].options, k), o))
       else Handing(t, o) == if t.groups == [] then Lost else ToGroup(0, o.code, o.arg)
  }

  /** A long option reaches the first row in preorder that declares its name; a letter the
      first group that declares it, with the argument its row asks for -- the ordering prefix
      as a letter the first group of all; an error is refused, except that a missing argument,
      when it is reported as ':', is handed on as an option ':'. */
  ghost predicate Right(t: Tables, prefix: string, o: Outcome) {
    if o.index.Some? then LongRight(t, o)
    else if o.opt.Some? then ErrorRight(t, o)
    else if o.code == KEY_ARG then o.arg.Some?
    else LetterRight(t, prefix, o)
  }

  // ---- one report ----------------------------------------------------------------------------

  predicate IsLetter(opts: string, c: char, code: int) { c in opts && c != ':' && code == c as int }

  /** 0 asks for no argument, 1 for one, 2 for one that is attached or none. */
  predicate ArgMatches(asked: nat, d: Outcome) {
    (asked == 0 ==> d.arg.None?) && (asked == 1 ==> d.arg.Some?) && (asked == 2 ==> d.taken != 2)
  }

  /** The report is letter c of the option string, with the argument the colons ask for. */
  predicate IsOption(opts: string, c: char, d: Outcome) {
    IsLetter(opts, c, d.code) && ArgMatches(Wants(opts, c), d)
  }

  /** The three kinds of reports the decoder makes. */
  lemma DecodeShape(cfg: Config, opts: string, elem: string, next: string, following: Option<string>)
    requires Decodable(cfg, elem, next) && cfg.long.Some?
    requires forall k :: 0 <= k < |cfg.long.value| ==> cfg.long.value[k].flag == 0 && cfg.long.value[k].val != KEY_END
    ensures var d := Decode(cfg, opts, elem, next, following);
      && (d.index.Some? ==> d.opt.None? && d.index.value < |cfg.long.value|
                            && d.code == cfg.long.value[d.index.value].val
                            && ArgMatches(cfg.long.value[d.index.value].hasArg, d))
      && (d.opt.Some? ==> d.opt.value != KEY_END
                          && (d.code == QUESTION || (d.code == COLON && opts != "" && opts[0] == ':')))
      && (d.index.None? && d.opt.None? ==> exists c :: IsOption(opts, c, d))
  {
    hide DecodeShort, DecodeLong, Wants, FindLong, Key;
    if next != "" {
      ShortSpells(opts, next, following);
      var d := DecodeShort(opts, next, following);
      assert d.opt.None? ==> IsOption(opts, next[0], d);
    }
    LongSpells(cfg, opts, elem, next, following);
  }

  /** The letters of the short option string are printable, and declared by some group. */
  lemma LetterKnown(argp: ArgpSpec.Argp, flags: Flags, c: char)
    requires c in ParserTables(argp, flags).short
    ensures c as int < 128
    ensures c !in Prefix(flags) ==> Route(ParserTables(argp, flags), c).Some?
  {
    hide Writes, Route, Convert, Segmented;
    var t := ParserTables(argp, flags);
    assert Segmented(Prefix(flags), Tables(Prefix(flags), [], [], 0)) by { NothingSegmented(Prefix(flags)); }
    ConvertSegmented(Prefix(flags), argp, None, 0, Tables(Prefix(flags), [], [], 0));
    if c !in Prefix(flags) {
      WrittenSomewhere(Prefix(flags), t, c);
      WriterRoutes(argp, flags, c);
      var g :| 0 <= g < |t.groups| && Writes(t.groups[g], c);
      WritesWhat(t.groups[g], c);
    }
  }

  lemma WrittenSomewhere(prefix: string, t: Tables, c: char)
    requires Segmented(prefix, t) && c in t.short && c !in prefix
    ensures exists g :: 0 <= g < |t.groups| && Writes(t.groups[g], c)
  {
    hide Text, Writes;
    TextHolds(t.groups, |t.groups|, c);
  }

  lemma LeastRow(g: Group, c: char) returns (k: nat)
    requires Declares(g, c)
    ensures k < |g.options| && DeclaresLetter(g.options, k) && g.options[k].key == c as int
    ensures forall j :: 0 <= j < k ==> !(DeclaresLetter(g.options, j) && g.options[j].key == c as int)
  {
    hide DeclaresLetter;
    k := 0;
    while !(DeclaresLetter(g.options, k) && g.options[k].key == c as int)
      invariant k < |g.options|
      invariant forall j :: 0 <= j < k ==> !(DeclaresLetter(g.options, j) && g.options[j].key == c as int)
      invariant exists j :: k <= j < |g.options| && DeclaresLetter(g.options, j) && g.options[j].key == c as int
      decreases |g.options| - k
    {
      k := k + 1;
    }
  }

  /** The option string of one call: that of the tables, or what follows an ordering prefix. */
  predicate Read(short: string, opts: string) {
    opts == short || (("-" <= short || "+" <= short) && opts == short[1..])
  }

  lemma ArgumentRead(argp: ArgpSpec.Argp, flags: Flags, opts: string, g: nat, k: nat, c: char, o: Outcome)
    requires c != ':' && c !in Prefix(flags) && FirstRow(ParserTables(argp, flags).groups, g, k, c)
    requires Read(ParserTables(argp, flags).short, opts) && c in opts && ArgMatches(Wants(opts, c), o)
    ensures var t := ParserTables(argp, flags); Misread(t, g, k, c) || ArgFits(Real(t.groups[g].options, k), o)
  {
    hide ParserTables, Wants, ColonNext, Real;
    var t := ParserTables(argp, flags);
    ArgumentSurvives(argp, flags, g, k, c);
    if opts != t.short && t.short[0] != c { WantsBehind(t.short, c); }
  }

  lemma LetterGoes(argp: ArgpSpec.Argp, flags: Flags, opts: string, c: char, o: Outcome)
    requires o.index.None? && o.opt.None? && o.code != KEY_ARG
    requires Read(ParserTables(argp, flags).short, opts) && IsOption(opts, c, o)
    ensures LetterRight(ParserTables(argp, flags), Prefix(flags), o)
  {
    hide Route, ParserTables, Declares, Misread, ArgFits, ArgMatches, Wants;
    var t := ParserTables(argp, flags);
    assert c in t.short;
    LetterKnown(argp, flags, c);
    assert (o.code % 256) as char == c == o.code as char && GroupKey(o.code) == 0;
    if c !in Prefix(flags) {
      ShortRoutes(argp, flags, c);
      var g := Route(t, c).value;
      assert FirstToDeclare(t.groups, g, c);
      var k := LeastRow(t.groups[g], c);
      assert FirstRow(t.groups, g, k, c);
      ArgumentRead(argp, flags, opts, g, k, c, o);
    } else if t.groups != [] {
      PrefixRoutesFirst(argp, flags);
    } else {
      NoGroupNoRoute(t, c);
    }
  }

  lemma NoGroupNoRoute(t: Tables, c: char)
    requires t.groups == []
    ensures Route(t, c).None?
  {
  }

  lemma ErrorGoes(argp: ArgpSpec.Argp, flags: Flags, o: Outcome)
    requires o.opt.Some? && (o.code == QUESTION || (o.code == COLON && ':' in ParserTables(argp, flags).short))
    ensures ErrorRight(ParserTables(argp, flags), o)
  {
    hide Route, ParserTables, PutsColon;
    var t := ParserTables(argp, flags);
    if o.code == COLON {
      LetterKnown(argp, flags, ':');
      ColonRoutes(argp, flags);
      assert (COLON % 256) as char == ':' && GroupKey(COLON) == 0;
      assert FirstToPut(t.groups, Route(t, ':').value);
    }
  }

  lemma LongGoes(argp: ArgpSpec.Argp, flags: Flags, o: Outcome)
    requires |ParserTables(argp, flags).groups| <= 127 && o.index.Some? && o.opt.None?
    requires var t := ParserTables(argp, flags);
      o.index.value < |t.long| && o.code == t.long[o.index.value].val && ArgMatches(t.long[o.index.value].hasArg, o)
    ensures LongRight(ParserTables(argp, flags), o)
  {
    hide ParserTables, Dispatch, Signed, Or, Real;
    var t := ParserTables(argp, flags);
    LongRoutes(argp, flags, o.index.value);
    var g: nat, k: nat :| EnteredBy(t.groups, LastRows(t.groups), t.long[o.index.value], g, k)
                          && Dispatch(t, o.code) == Some((g, RowKey(t, g, k)));
  }

  /** No packed value is the end mark, so the table is one the scanner can be run on. */
  lemma TableSafe(argp: ArgpSpec.Argp, flags: Flags, longOnly: bool)
    requires |ParserTables(argp, flags).groups| <= 127
    ensures var long := ParserConfig(ParserTables(argp, flags), longOnly).long.value;
      forall k :: 0 <= k < |long| ==> long[k].flag == 0 && long[k].val != KEY_END
  {
    hide ParserTables;
    var t := ParserTables(argp, flags);
    forall k | 0 <= k < |t.long| ensures t.long[k].val != KEY_END { LongRoutes(argp, flags, k); }
  }

  lemma DecodedRight(argp: ArgpSpec.Argp, flags: Flags, longOnly: bool, first: bool,
                     elem: string, next: string, following: Option<string>)
    requires var t := ParserTables(argp, flags);
      |t.groups| <= 127 && Decodable(ParserConfig(t, longOnly), elem, next)
    ensures var t := ParserTables(argp, flags);
      var cfg := ParserConfig(t, longOnly);
      var d := Decode(cfg, cfg.Letters(first), elem, next, following);
      Right(t, Prefix(flags), d) && d.opt != Some(KEY_END)
  {
    hide ParserTables, Decode, LongRight, ErrorRight, LetterRight, Wants, ArgMatches;
    var t := ParserTables(argp, flags);
    var cfg := ParserConfig(t, longOnly);
    var opts := cfg.Letters(first);
    TableSafe(argp, flags, longOnly);
    DecodeShape(cfg, opts, elem, next, following);
    var d := Decode(cfg, opts, elem, next, following);
    assert forall c: char :: c in opts ==> c in t.short;
    if d.index.Some? {
      LongGoes(argp, flags, d);
    } else if d.opt.Some? {
      ErrorGoes(argp, flags, d);
    } else {
      var c :| IsOption(opts, c, d);
      LettersAreNotMarks(argp, flags, c);
      LetterGoes(argp, flags, opts, c, d);
    }
  }

  lemma LettersAreNotMarks(argp: ArgpSpec.Argp, flags: Flags, c: char)
    requires c in ParserTables(argp, flags).short && c != ':'
    ensures c as int != KEY_ARG
  {
    hide Route, Convert, Segmented, Letters;
    if c !in Prefix(flags) {
      LetterKnown(argp, flags, c);
      ShortRoutes(argp, flags, c);
    }
  }

  // ---- all reports -----------------------------------------------------------------------------

  /** Every report is handled rightly, and errors are told from the letter '?'. */
  ghost predicate AllRight(t: Tables, prefix: string, reports: seq<Outcome>) {
    forall r :: 0 <= r < |reports| ==> Right(t, prefix, reports[r]) && reports[r].opt != Some(KEY_END)
  }

  lemma OneMoreRight(t: Tables, prefix: string, o: Outcome, reports: seq<Outcome>)
    requires AllRight(t, prefix, reports) && Right(t, prefix, o) && o.opt != Some(KEY_END)
    ensures AllRight(t, prefix, [o] + reports)
  {
    hide Right;
  }

  lemma {:induction false} ScanRight(argp: ArgpSpec.Argp, flags: Flags, longOnly: bool, ord: Ordering,
                                     a: seq<string>, i: nat, first: bool)
    requires |ParserTables(argp, flags).groups| <= 127 && i <= |a|
    ensures var t := ParserTables(argp, flags);
      AllRight(t, Prefix(flags), Scan(ParserConfig(t, longOnly), ord, a, i, first).reports)
    decreases |a| - i, 1, 0
  {
    hide ParserTables, AllRight, Prefix;
    var t := ParserTables(argp, flags);
    var cfg := ParserConfig(t, longOnly);
    assert AllRight(t, Prefix(flags), []) by { NoneWrong(t, Prefix(flags)); }
    if i == |a| || a[i] == "--" {
    } else if !NonOption(a[i]) {
      ClusterRight(argp, flags, longOnly, ord, a, i, Opening(cfg, a[i]), first);
    } else if ord == Permute {
      ScanRight(argp, flags, longOnly, ord, a, i + 1, first);
    } else if ord == ReturnInOrder {
      ScanRight(argp, flags, longOnly, ord, a, i + 1, false);
      OneMoreRight(t, Prefix(flags), Outcome(1, Some(a[i]), None, None, None, "", 1),
                   Scan(cfg, ord, a, i + 1, false).reports);
    }
  }

  lemma NoneWrong(t: Tables, prefix: string)
    ensures AllRight(t, prefix, [])
  {
  }

  lemma {:induction false} ClusterRight(argp: ArgpSpec.Argp, flags: Flags, longOnly: bool, ord: Ordering,
                                        a: seq<string>, i: nat, next: string, first: bool)
    requires |ParserTables(argp, flags).groups| <= 127 && i < |a|
    requires Decodable(ParserConfig(ParserTables(argp, flags), longOnly), a[i], next)
    ensures var t := ParserTables(argp, flags);
      AllRight(t, Prefix(flags), Cluster(ParserConfig(t, longOnly), ord, a, i, next, first).reports)
    decreases |a| - i, 0, |next|
  {
    hide ParserTables, AllRight, Prefix, Decode, Right;
    var t := ParserTables(argp, flags);
    var cfg := ParserConfig(t, longOnly);
    var d := Decode(cfg, cfg.Letters(first), a[i], next, Following(a, i));
    DecodeProgress(cfg, cfg.Letters(first), a[i], next, Following(a, i));
    DecodedRight(argp, flags, longOnly, first, a[i], next, Following(a, i));
    if d.taken == 0 {
      ClusterRight(argp, flags, longOnly, ord, a, i, d.rest, false);
      OneMoreRight(t, Prefix(flags), d, Cluster(cfg, ord, a, i, d.rest, false).reports);
    } else {
      ScanRight(argp, flags, longOnly, ord, a, i + d.taken, false);
      OneMoreRight(t, Prefix(flags), d, Scan(cfg, ord, a, i + d.taken, false).reports);
    }
  }

  /** With ARGP_IN_ORDER only what is after "--" is left to the caller; with ARGP_NO_ARGS alone
      also what is after the first non-option that no option took. */
  lemma FlagsOrder(argp: ArgpSpec.Argp, flags: Flags, longOnly: bool, posix: bool, a: seq<string>, i: nat, k: nat)
    requires i <= k < |a| && (flags.inOrder || flags.noArgs)
    ensures var cfg := ParserConfig(ParserTables(argp, flags), longOnly);
      var sp := Spans(cfg, cfg.OrderingOf(posix), a, i, true);
      !Scan(cfg, cfg.OrderingOf(posix), a, i, true).mask[k - i] <==>
        PastMark(sp, a, k) || (!flags.inOrder && PastNonOption(sp, a, k))
  {
    hide Scan, Spans, PastMark, PastNonOption, Convert;
    NothingSegmented(Prefix(flags));
    ConvertSegmented(Prefix(flags), argp, None, 0, Tables(Prefix(flags), [], [], 0));
    OrderingMeans(ParserConfig(ParserTables(argp, flags), longOnly), posix, a, i, k);
  }

  // ---- the options of a command line ---------------------------------------------------------

  lemma ReportRight(t: Tables, prefix: string, reports: seq<Outcome>, k: nat)
    requires AllRight(t, prefix, reports) && k < |reports|
    ensures Right(t, prefix, reports[k]) && reports[k].opt != Some(KEY_END)
  {
    hide Right;
  }

  /** An option value is inside the groups of the parser. */
  lemma RightInGroups(t: Tables, prefix: string, o: Outcome)
    requires Right(t, prefix, o) && o.code != KEY_ARG && !(o.code == KEY_ERR && o.opt.Some?)
    ensures GroupKey(o.code) == 0 || 1 <= GroupKey(o.code) <= |t.groups|
  {
    hide EnteredBy, FirstToDeclare, FirstToPut, UserKey, Route, RowKey;
  }

  /** Hand on what the scanner reports next; `done` at the end of the options. */
  method ParseNext(parser: Argp.Parser, data: Getopt.GetoptData, argv: array<string>, cfg: Config, posix: bool,
                   ghost t: Tables, ghost prefix: string)
    returns (done: bool, handed: Handed)
    requires parser.Valid() && parser.View() == t && cfg.NoW() && cfg.NoClash()
    requires argv.Length >= 1 && data.Ready(argv, cfg) && AllRight(t, prefix, data.Ahead(argv, cfg, posix))
    modifies data, argv
    ensures done ==> old(data.Ahead(argv, cfg, posix)) == []
    ensures !done ==>
      && data.Ready(argv, cfg) && data.Bound(argv) < old(data.Bound(argv))
      && var ahead := old(data.Ahead(argv, cfg, posix));
         ahead != [] && handed == Handing(t, ahead[0]) && data.Ahead(argv, cfg, posix) == ahead[1..]
  {
    hide AllRight, Right, Dispatch, Scan, Cluster, GetoptScan.Settled, GetoptScan.Weight, Getopt.Tracks;
    ghost var ahead := data.Ahead(argv, cfg, posix);
    data.optopt := KEY_END;
    assert data.Ready(argv, cfg) && data.Ahead(argv, cfg, posix) == ahead
        && data.Bound(argv) == old(data.Bound(argv));
    var code, index, store;
    ghost var ended;
    code, index, store, ended := data.Getopt(argv, cfg, posix);
    if code == KEY_END { return true, Refused; }
    done := false;
    ReportRight(t, prefix, ahead, 0);
    if code == KEY_ERR && data.optopt != KEY_END { return false, Refused; }
    if code == KEY_ARG { return false, ToArgs(data.optarg); }
    RightInGroups(t, prefix, ahead[0]);
    var target := parser.ParseOpt(code);
    handed := Delivered(target, data.optarg);
  }

  /** Each report is handed on in turn, up to the first error. */
  ghost predicate HandedOn(t: Tables, reports: seq<Outcome>, handed: seq<Handed>) {
    && |handed| <= |reports|
    && (forall k :: 0 <= k < |handed| ==> handed[k] == Handing(t, reports[k]))
    && (forall k :: 0 <= k < |handed| - 1 ==> handed[k] != Refused)
    && (|handed| < |reports| ==> handed != [] && handed[|handed| - 1] == Refused)
  }

  lemma OneMoreHanded(t: Tables, reports: seq<Outcome>, handed: seq<Handed>, h: Handed)
    requires |handed| < |reports| && h == Handing(t, reports[|handed|])
    requires forall k :: 0 <= k < |handed| ==> handed[k] == Handing(t, reports[k]) && handed[k] != Refused
    ensures forall k :: 0 <= k < |handed| + 1 ==> (handed + [h])[k] == Handing(t, reports[k])
    ensures h == Refused ==> HandedOn(t, reports, handed + [h])
  {
    hide Handing;
  }

  /** Take option after option. */
  method TakeOptions(parser: Argp.Parser, data: Getopt.GetoptData, argv: array<string>, cfg: Config, posix: bool,
                     ghost t: Tables, ghost prefix: string)
    returns (handed: seq<Handed>)
    requires parser.Valid() && parser.View() == t && cfg.NoW() && cfg.NoClash()
    requires argv.Length >= 1 && data.Ready(argv, cfg) && AllRight(t, prefix, data.Ahead(argv, cfg, posix))
    modifies data, argv
    ensures HandedOn(t, old(data.Ahead(argv, cfg, posix)), handed)
  {
    hide AllRight, Handing, Scan, Cluster, GetoptScan.Settled, GetoptScan.Weight, Getopt.Tracks;
    ghost var reports := data.Ahead(argv, cfg, posix);
    handed := [];
    while true
      invariant parser.Valid() && parser.View() == t
      invariant data.Ready(argv, cfg) && |handed| <= |reports|
      invariant data.Ahead(argv, cfg, posix) == reports[|handed|..]
      invariant forall k :: 0 <= k < |handed| ==> handed[k] == Handing(t, reports[k]) && handed[k] != Refused
      decreases data.Bound(argv)
    {
      RestRight(t, prefix, reports, |handed|);
      var done, h := ParseNext(parser, data, argv, cfg, posix, t, prefix);
      if done { return; }
      OneMoreHanded(t, reports, handed, h);
      handed := handed + [h];
      if h == Refused { return; }
    }
  }

  lemma RestRight(t: Tables, prefix: string, reports: seq<Outcome>, k: nat)
    requires AllRight(t, prefix, reports) && k <= |reports|
    ensures AllRight(t, prefix, reports[k..])
  {
    hide Right;
  }

  /** Take the options of a command line, up to the first error: each is handed to the group
      its declaration belongs to. */
  method ParseOptions(argp: ArgpSpec.Argp, flags: Flags, longOnly: bool, argv: array<string>, posix: bool)
    returns (handed: seq<Handed>)
    requires !flags.noArgs || !Full(argp)
    requires |ParserTables(argp, flags).groups| <= 127
    requires ParserConfig(ParserTables(argp, flags), longOnly).NoW()
    modifies argv
    ensures argv.Length < 1 ==> handed == []
    ensures argv.Length >= 1 ==>
      var t := ParserTables(argp, flags);
      var cfg := ParserConfig(t, longOnly);
      var reports := Scan(cfg, cfg.OrderingOf(posix), old(argv[..]), 1, true).reports;
      HandedOn(t, reports, handed) && AllRight(t, Prefix(flags), reports)
  {
    hide Full, ParserTables, AllRight, HandedOn, Scan, Prefix;
    var parser := Argp.ParserInit(argp, flags);
    ghost var t := ParserTables(argp, flags);
    var cfg := Config(parser.shortOpts[..parser.shortEnd],
                      Some(LongTable(Argp.RowsOf(parser.longOpts[..parser.longEnd]))), longOnly);
    assert cfg == ParserConfig(t, longOnly);
    TableSafe(argp, flags, longOnly);
    if argv.Length < 1 { return []; }
    ScanRight(argp, flags, longOnly, cfg.OrderingOf(posix), argv[..], 1, true);
    var data := new Getopt.GetoptData(0);
    handed := TakeOptions(parser, data, argv, cfg, posix, t, Prefix(flags));
  }
}

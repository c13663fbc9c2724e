/** One call of the scanner, and a whole run of it. */
module Getopt {
  import opened Common
  import opened GetoptSpec
  import opened GetoptScan

  // ---- what each branch does to the account, on values ---------------------------------

  /** The vector cur, with p elements read and `plan` still to come, is on its way to the
      partition that mask describes; without permutation nothing has moved. */
  ghost predicate Tracks(ord: Ordering, cur: seq<string>, a: seq<string>, s: nat, mask: seq<bool>,
                         f: nat, l: nat, p: nat, plan: Plan)
  {
    && s <= p <= |a| && |mask| == |a| - s && plan.mask == mask[p - s..]
    && Layout(cur, a, s, mask[..p - s], f, l, p)
    && (ord != Permute ==> f == l && cur == a)
  }

  lemma TrackStart(cfg: Config, ord: Ordering, a: seq<string>, s: nat)
    requires s <= |a|
    ensures var plan := Scan(cfg, ord, a, s, true);
      Tracks(ord, a, a, s, plan.mask, s, s, s, plan)
  {
    var plan := Scan(cfg, ord, a, s, true);
    assert plan.mask[..0] == [] && a[s..s] == [];
  }

  lemma TrackExchange(cur: seq<string>, a: seq<string>, s: nat, mask: seq<bool>,
                      f: nat, l: nat, p: nat, plan: Plan)
    requires Tracks(Permute, cur, a, s, mask, f, l, p, plan)
    ensures Tracks(Permute, Rotated(cur, f, l, p), a, s, mask, f + (p - l), p, p, plan)
  {
    LayoutExchange(cur, a, s, mask[..p - s], f, l, p);
  }

  lemma TrackCollapse(ord: Ordering, cur: seq<string>, a: seq<string>, s: nat, mask: seq<bool>,
                      f: nat, p: nat, plan: Plan)
    requires Tracks(ord, cur, a, s, mask, f, f, p, plan)
    ensures Tracks(ord, cur, a, s, mask, p, p, p, plan)
  {
    LayoutCollapse(cur, a, s, mask[..p - s], f, p);
  }

  lemma MaskSplits(mask: seq<bool>, k: nat, head: seq<bool>, tail: seq<bool>)
    requires k <= |mask| && mask[k..] == head + tail
    ensures mask[..k + |head|] == mask[..k] + head && mask[k + |head|..] == tail
  {
    assert mask == mask[..k] + (head + tail);
  }

  lemma TrackSkip(cfg: Config, cur: seq<string>, a: seq<string>, s: nat, mask: seq<bool>, f: nat, p: nat, first: bool)
    requires p < |a| && NonOption(a[p])
    requires Tracks(Permute, cur, a, s, mask, f, p, p, Scan(cfg, Permute, a, p, first))
    ensures Tracks(Permute, cur, a, s, mask, f, p + 1, p + 1, Scan(cfg, Permute, a, p + 1, first))
    ensures Scan(cfg, Permute, a, p, first).reports == Scan(cfg, Permute, a, p + 1, first).reports
  {
    MaskSplits(mask, p - s, [false], Scan(cfg, Permute, a, p + 1, first).mask);
    LayoutSkip(cur, a, s, mask[..p - s], f, p, [false]);
  }

  lemma TrackTake(ord: Ordering, cur: seq<string>, a: seq<string>, s: nat, mask: seq<bool>,
                  f: nat, l: nat, p: nat, t: nat, plan: Plan, tail: Plan)
    requires Tracks(ord, cur, a, s, mask, f, l, p, plan) && p + t <= |a|
    requires plan.mask == Fill(true, t) + tail.mask
    ensures Tracks(ord, cur, a, s, mask, f, l, p + t, tail)
  {
    MaskSplits(mask, p - s, Fill(true, t), tail.mask);
    LayoutTake(cur, a, s, mask[..p - s], f, l, p, t);
  }

  /** All that is left is non-options: the scan may stop here. */
  lemma TrackStop(ord: Ordering, cur: seq<string>, a: seq<string>, s: nat, mask: seq<bool>, f: nat, p: nat, plan: Plan)
    requires Tracks(ord, cur, a, s, mask, f, p, p, plan) && plan.mask == Fill(false, |a| - p)
    ensures Settled(cur, a, s, mask, f)
  {
    MaskSplits(mask, p - s, plan.mask, []);
    assert plan.mask + [] == plan.mask && mask[..|a| - s] == mask;
    LayoutSkip(cur, a, s, mask[..p - s], f, p, plan.mask);
    LayoutSettles(cur, a, s, mask, f);
  }

  lemma TrackBounds(ord: Ordering, cur: seq<string>, a: seq<string>, s: nat, mask: seq<bool>,
                    f: nat, l: nat, p: nat, plan: Plan)
    requires Tracks(ord, cur, a, s, mask, f, l, p, plan)
    ensures |cur| == |a| && s <= f <= l <= p <= |a| && |mask| == |a| - s
    ensures ord != Permute ==> f == l && cur == a
    ensures forall k :: p <= k < |a| ==> cur[k] == a[k]
  {
    forall k | p <= k < |a| ensures cur[k] == a[k] {
      assert cur[p..][k - p] == a[p..][k - p];
    }
  }

  /** Where the scan stops when the vector is exhausted. */
  lemma TrackEnd(cfg: Config, ord: Ordering, cur: seq<string>, a: seq<string>, s: nat, mask: seq<bool>,
                 f: nat, l: nat, first: bool)
    requires Tracks(ord, cur, a, s, mask, f, l, |a|, Scan(cfg, ord, a, |a|, first))
    requires ord == Permute ==> l == |a|
    ensures Settled(cur, a, s, mask, if f != l then f else |a|) && Scan(cfg, ord, a, |a|, first).reports == []
  {
    var plan := Scan(cfg, ord, a, |a|, first);
    TrackBounds(ord, cur, a, s, mask, f, l, |a|, plan);
    if f == l {
      TrackCollapse(ord, cur, a, s, mask, f, |a|, plan);
      TrackStop(ord, cur, a, s, mask, |a|, |a|, plan);
    } else {
      TrackStop(ord, cur, a, s, mask, f, |a|, plan);
    }
  }

  /** Where the scan stops at a non-option that may not be passed. */
  lemma TrackHalt(cfg: Config, cur: seq<string>, a: seq<string>, s: nat, mask: seq<bool>,
                  f: nat, l: nat, p: nat, first: bool)
    requires p < |a| && NonOption(a[p])
    requires Tracks(RequireOrder, cur, a, s, mask, f, l, p, Scan(cfg, RequireOrder, a, p, first))
    ensures Settled(cur, a, s, mask, p) && Scan(cfg, RequireOrder, a, p, first).reports == []
  {
    var plan := Scan(cfg, RequireOrder, a, p, first);
    TrackCollapse(RequireOrder, cur, a, s, mask, f, p, plan);
    TrackStop(RequireOrder, cur, a, s, mask, p, p, plan);
  }

  lemma TrackPass(cfg: Config, cur: seq<string>, a: seq<string>, s: nat, mask: seq<bool>,
                  f: nat, l: nat, p: nat, first: bool)
    requires p < |a| && NonOption(a[p])
    requires Tracks(ReturnInOrder, cur, a, s, mask, f, l, p, Scan(cfg, ReturnInOrder, a, p, first))
    ensures Tracks(ReturnInOrder, cur, a, s, mask, f, l, p + 1, Scan(cfg, ReturnInOrder, a, p + 1, false))
    ensures Scan(cfg, ReturnInOrder, a, p, first).reports
         == [Outcome(1, Some(a[p]), None, None, None, "", 1)] + Scan(cfg, ReturnInOrder, a, p + 1, false).reports
  {
    var plan, tail := Scan(cfg, ReturnInOrder, a, p, first), Scan(cfg, ReturnInOrder, a, p + 1, false);
    assert plan.mask == Fill(true, 1) + tail.mask;
    TrackTake(ReturnInOrder, cur, a, s, mask, f, l, p, 1, plan, tail);
  }

  lemma OpenElement(cfg: Config, ord: Ordering, a: seq<string>, p: nat, first: bool)
    requires p < |a| && a[p] != "--" && !NonOption(a[p])
    ensures Scan(cfg, ord, a, p, first) == Cluster(cfg, ord, a, p, Opening(cfg, a[p]), first)
  {
  }

  function Min(x: nat, y: nat): nat { if x > y then y else x }

  /** The account after one decoding step. */
  lemma TrackDecode(cfg: Config, ord: Ordering, cur: seq<string>, a: seq<string>, s: nat, mask: seq<bool>,
                    f: nat, l: nat, p: nat, next: string, first: bool)
    requires p < |a| && Decodable(cfg, a[p], next)
    requires Tracks(ord, cur, a, s, mask, f, l, p, Cluster(cfg, ord, a, p, next, first))
    ensures var d := Decode(cfg, cfg.Letters(first), a[p], next, Following(a, p));
      && p + d.taken <= |a|
      && (d.taken == 0 ==>
           && d.rest != "" && |d.rest| < |next|
           && Tracks(ord, cur, a, s, mask, f, l, p, Cluster(cfg, ord, a, p, d.rest, false))
           && Cluster(cfg, ord, a, p, next, first).reports == [d] + Cluster(cfg, ord, a, p, d.rest, false).reports)
      && (d.taken != 0 ==>
           && d.rest == ""
           && Tracks(ord, cur, a, s, mask, f, l, p + d.taken, Scan(cfg, ord, a, p + d.taken, false))
           && Cluster(cfg, ord, a, p, next, first).reports == [d] + Scan(cfg, ord, a, p + d.taken, false).reports)
  {
    hide Layout, Decode, Scan;
    var d := Decode(cfg, cfg.Letters(first), a[p], next, Following(a, p));
    DecodeProgress(cfg, cfg.Letters(first), a[p], next, Following(a, p));
    var plan := Cluster(cfg, ord, a, p, next, first);
    if d.taken != 0 {
      TrackTake(ord, cur, a, s, mask, f, l, p, d.taken, plan, Scan(cfg, ord, a, p + d.taken, false));
    }
  }

  /** What the caller sees of one option. */
  datatype Report = Report(code: int, arg: Option<string>, opt: int, index: Option<nat>, store: Option<(nat, int)>)

  predicate Matches(o: Outcome, r: Report) {
    r.code == o.code && r.arg == o.arg && r.index == o.index && r.store == o.store
    && (o.opt.Some? ==> r.opt == o.opt.value)
  }

  /** How the search for the next option element ends. */
  datatype Pause = Stop | Pass | Open

  class GetoptData {
    var optind: nat
    var nextchar: string                // "" also stands for the null pointer
    var ordering: Ordering
    var firstNonopt: nat
    var lastNonopt: nat
    var initialized: bool
    var optarg: Option<string>
    var optopt: int

    ghost var orig: seq<string>         // the vector when the scan was initialized
    ghost var start: nat
    ghost var mask: seq<bool>

    constructor (index: nat)
      ensures optind == index && !initialized && nextchar == ""
    {
      optind, nextchar, ordering, firstNonopt, lastNonopt := index, "", Permute, 0, 0;
      initialized, optarg, optopt := false, None, QUESTION;
      orig, start, mask := [], 0, [];
    }

    /** What the reference scan of the original vector still has to report. */
    ghost function Rest(cfg: Config, first: bool): Plan
      requires optind <= |orig| && (nextchar != "" ==> optind < |orig| && |orig[optind]| >= 2)
      reads this
    {
      if nextchar == "" then Scan(cfg, ordering, orig, optind, first)
      else Cluster(cfg, ordering, orig, optind, nextchar, first)
    }

    ghost predicate Scanning(argv: array<string>, cfg: Config, first: bool)
      reads this, argv
    {
      && optind <= |orig| && (nextchar != "" ==> optind < |orig| && |orig[optind]| >= 2)
      && Tracks(ordering, argv[..], orig, start, mask, firstNonopt, lastNonopt, optind, Rest(cfg, first))
    }

    /** The option element at optind is open and nextchar is its unread part. */
    ghost predicate Opened(argv: array<string>, cfg: Config, first: bool)
      reads this, argv
    {
      && optind < |orig| && Decodable(cfg, orig[optind], nextchar)
      && Tracks(ordering, argv[..], orig, start, mask, firstNonopt, lastNonopt, optind,
                Cluster(cfg, ordering, orig, optind, nextchar, first))
    }

    ghost predicate Finished(argv: array<string>)
      reads this, argv
    {
      && Settled(argv[..], orig, start, mask, optind)
      && (ordering != Permute ==> argv[..] == orig)
    }

    /** A bound on the calls still to come. */
    ghost function Unread(): nat
      reads this
    {
      if nextchar == "" then Weight(orig, optind) else |nextchar| + Weight(orig, optind + 1)
    }

    method Exchange(argv: array<string>)
      requires firstNonopt <= lastNonopt <= optind <= argv.Length
      modifies this`firstNonopt, this`lastNonopt, argv
      ensures argv[..] == Rotated(old(argv[..]), old(firstNonopt), old(lastNonopt), optind)
      ensures firstNonopt == old(firstNonopt) + (optind - old(lastNonopt)) && lastNonopt == optind
    {
      Rotate(argv, firstNonopt, lastNonopt, optind);
      firstNonopt := firstNonopt + (optind - lastNonopt);
      lastNonopt := optind;
    }

    method Initialize(argv: array<string>, cfg: Config, posix: bool)
      requires optind <= argv.Length
      modifies this
      ensures optind == old(optind) == start && orig == argv[..] && nextchar == ""
      ensures initialized && ordering == cfg.OrderingOf(posix) && optarg == old(optarg) && optopt == old(optopt)
      ensures Scanning(argv, cfg, true) && mask == Scan(cfg, ordering, orig, start, true).mask
    {
      hide Tracks, Scan, Cluster;
      firstNonopt, lastNonopt := optind, optind;
      nextchar := "";
      if |cfg.optstring| > 0 && cfg.optstring[0] == '-' {
        ordering := ReturnInOrder;
      } else if |cfg.optstring| > 0 && cfg.optstring[0] == '+' {
        ordering := RequireOrder;
      } else if posix {
        ordering := RequireOrder;
      } else {
        ordering := Permute;
      }
      initialized := true;
      orig, start := argv[..], optind;
      mask := Scan(cfg, ordering, orig, start, true).mask;
      TrackStart(cfg, ordering, orig, start);
    }

    /** With a permuting scan: bring processed options before skipped non-options, then
        skip more of these. */
    method SkipNonOptions(argv: array<string>, cfg: Config, ghost first: bool)
      requires Scanning(argv, cfg, first) && nextchar == "" && ordering == Permute
      modifies this`optind, this`firstNonopt, this`lastNonopt, argv
      ensures Scanning(argv, cfg, first) && lastNonopt == optind && old(optind) <= optind
      ensures Rest(cfg, first).reports == old(Rest(cfg, first).reports)
      ensures optind < argv.Length ==> !NonOption(argv[optind])
    {
      hide Layout, Rotated, Scan, Cluster, Tracks;
      TrackBounds(ordering, argv[..], orig, start, mask, firstNonopt, lastNonopt, optind, Rest(cfg, first));
      if firstNonopt != lastNonopt && lastNonopt != optind {
        TrackExchange(argv[..], orig, start, mask, firstNonopt, lastNonopt, optind, Rest(cfg, first));
        Exchange(argv);
      } else if lastNonopt != optind {
        TrackCollapse(ordering, argv[..], orig, start, mask, firstNonopt, optind, Rest(cfg, first));
        firstNonopt := optind;
      }
      while optind < argv.Length && NonOption(argv[optind])
        invariant old(optind) <= optind <= |orig| == argv.Length
        invariant Tracks(Permute, argv[..], orig, start, mask, firstNonopt, optind, optind,
                         Scan(cfg, Permute, orig, optind, first))
        invariant Scan(cfg, Permute, orig, optind, first).reports == old(Rest(cfg, first).reports)
      {
        TrackBounds(Permute, argv[..], orig, start, mask, firstNonopt, optind, optind, Rest(cfg, first));
        TrackSkip(cfg, argv[..], orig, start, mask, firstNonopt, optind, first);
        optind := optind + 1;
      }
      lastNonopt := optind;
    }

    /** "--" counts as an option; everything after it does not. */
    method SkipRest(argv: array<string>, cfg: Config, ghost first: bool)
      requires Scanning(argv, cfg, first) && nextchar == "" && optind < argv.Length && argv[optind] == "--"
      modifies this`optind, this`firstNonopt, this`lastNonopt, argv
      ensures optind == lastNonopt == argv.Length && firstNonopt <= lastNonopt
      ensures Settled(argv[..], orig, start, mask, firstNonopt) && old(Rest(cfg, first).reports) == []
      ensures ordering != Permute ==> argv[..] == orig
    {
      hide Layout, Rotated, Cluster, Tracks, Settled;
      ghost var before, p := argv[..], optind;
      ghost var plan := Scan(cfg, ordering, orig, p, first);
      TrackBounds(ordering, before, orig, start, mask, firstNonopt, lastNonopt, p, plan);
      ghost var tail := Plan([], Fill(false, |orig| - p - 1));
      assert plan.mask == Fill(true, 1) + tail.mask;
      TrackTake(ordering, before, orig, start, mask, firstNonopt, lastNonopt, p, 1, plan, tail);
      optind := optind + 1;
      if firstNonopt != lastNonopt && lastNonopt != optind {
        TrackExchange(before, orig, start, mask, firstNonopt, lastNonopt, optind, tail);
        Exchange(argv);
      } else if firstNonopt == lastNonopt {
        TrackCollapse(ordering, before, orig, start, mask, firstNonopt, optind, tail);
        firstNonopt := optind;
      }
      TrackStop(ordering, argv[..], orig, start, mask, firstNonopt, p + 1, tail);
      TrackBounds(ordering, argv[..], orig, start, mask, firstNonopt, p + 1, p + 1, tail);
      lastNonopt := argv.Length;
      optind := argv.Length;
    }

    /** A non-option that was not permuted stops the scan or is passed by. */
    method MeetNonOption(argv: array<string>, cfg: Config, ghost first: bool) returns (pause: Pause)
      requires Scanning(argv, cfg, first) && nextchar == "" && optind < argv.Length
      requires NonOption(argv[optind]) && ordering != Permute
      modifies this`optind, this`optarg
      ensures pause.Stop? ==> old(Rest(cfg, first).reports) == [] && Finished(argv) && optarg == old(optarg)
      ensures pause.Pass? ==>
        && Scanning(argv, cfg, false) && optarg.Some? && optind == old(optind) + 1
        && old(Rest(cfg, first).reports)
           == [Outcome(1, optarg, None, None, None, "", 1)] + Rest(cfg, false).reports
      ensures !pause.Open?
    {
      hide Layout, Cluster, Tracks, Settled, Scan;
      TrackBounds(ordering, argv[..], orig, start, mask, firstNonopt, lastNonopt, optind, Rest(cfg, first));
      if ordering == RequireOrder {
        TrackHalt(cfg, argv[..], orig, start, mask, firstNonopt, lastNonopt, optind, first);
        return Stop;
      }
      TrackPass(cfg, argv[..], orig, start, mask, firstNonopt, lastNonopt, optind, first);
      optarg := Some(argv[optind]);
      optind := optind + 1;
      return Pass;
    }

    /** Bring the scan to its next option element, or stop it, or pass an element by. */
    method BeginElement(argv: array<string>, cfg: Config, ghost first: bool) returns (pause: Pause)
      requires Scanning(argv, cfg, first) && nextchar == ""
      modifies this`optind, this`firstNonopt, this`lastNonopt, this`nextchar, this`optarg, argv
      ensures pause.Stop? ==> old(Rest(cfg, first).reports) == [] && Finished(argv) && optarg == old(optarg)
      ensures pause.Pass? ==>
        && Scanning(argv, cfg, false) && nextchar == "" && optarg.Some? && Unread() < old(Unread())
        && old(Rest(cfg, first).reports)
           == [Outcome(1, optarg, None, None, None, "", 1)] + Rest(cfg, false).reports
      ensures pause.Open? ==>
        && Opened(argv, cfg, first) && optarg == old(optarg)
        && |nextchar| + Weight(orig, optind + 1) < old(Unread())
        && old(Rest(cfg, first).reports)
           == Cluster(cfg, ordering, orig, optind, nextchar, first).reports
    {
      hide Layout, Rotated, Cluster, Tracks, Settled, Weight, Scan;
      TrackBounds(ordering, argv[..], orig, start, mask, firstNonopt, lastNonopt, optind, Rest(cfg, first));
      lastNonopt := Min(lastNonopt, optind);
      firstNonopt := Min(firstNonopt, optind);
      if ordering == Permute { SkipNonOptions(argv, cfg, first); }
      TrackBounds(ordering, argv[..], orig, start, mask, firstNonopt, lastNonopt, optind, Rest(cfg, first));
      WeightDrops(orig, old(optind), optind);
      if optind != argv.Length && argv[optind] == "--" {
        SkipRest(argv, cfg, first);
      } else if optind == argv.Length {
        TrackEnd(cfg, ordering, argv[..], orig, start, mask, firstNonopt, lastNonopt, first);
      }
      if optind == argv.Length {
        if firstNonopt != lastNonopt { optind := firstNonopt; }
        return Stop;
      }
      WeightDrops(orig, optind, optind + 1);
      if NonOption(argv[optind]) {
        pause := MeetNonOption(argv, cfg, first);
        return;
      }
      OpenElement(cfg, ordering, orig, optind, first);
      nextchar := if cfg.long.Some? && argv[optind][1] == '-' then argv[optind][2..] else argv[optind][1..];
      return Open;
    }

    /** The end of the option's name: the first '=' or the end of the element. */
    method NameEnd(next: string) returns (n: nat)
      ensures n == |Key(next)|
    {
      n := 0;
      while n < |next| && next[n] != '='
        invariant n <= |next| && |Key(next)| == n + |Key(next[n..])|
      {
        assert next[n..][1..] == next[n + 1..];
        n := n + 1;
      }
    }

    /** Test all long options for an exact or an abbreviated match. */
    method FindRow(long: seq<LongOpt>, key: string, only: bool) returns (r: Lookup)
      ensures r == FindLong(long, key, only)
    {
      var found: Option<nat>, exact, ambig, k := None, false, false, 0;
      while k < |long| && !exact
        invariant k <= |long| && (found.Some? ==> found.value < |long|)
        invariant FindLong(long, key, only)
               == if exact then (if found.Some? then Found(found.value) else NotFound)
                  else Search(long, key, only, k, found, ambig)
        invariant exact ==> found.Some?
        decreases |long| - k, !exact
      {
        if key <= long[k].name {
          if |key| == |long[k].name| {
            assert key == long[k].name;
            found, exact := Some(k), true;
          } else {
            if found.None? {
              found := Some(k);
            } else if only || Differ(long[found.value], long[k]) {
              ambig := true;
            }
            k := k + 1;
          }
        } else {
          k := k + 1;
        }
      }
      if ambig && !exact { return Ambiguous; }
      return if found.Some? then Found(found.value) else NotFound;
    }

    /** The fields after a step that decoded d. */
    ghost predicate Became(d: Outcome, optind0: nat, optopt0: int)
      reads this
    {
      && optind == optind0 + d.taken && nextchar == d.rest && optarg == d.arg
      && optopt == if d.opt.Some? then d.opt.value else optopt0
    }

    method DecodeLetter(argv: array<string>, opts: string) returns (code: int)
      requires optind < argv.Length && nextchar != "" && optarg == None
      modifies this`optind, this`nextchar, this`optarg, this`optopt
      ensures var d := DecodeShort(opts, old(nextchar), Following(argv[..], old(optind)));
        && Became(d, old(optind), old(optopt)) && code == d.code && d.index == None && d.store == None
    {
      var c := nextchar[0];
      nextchar := nextchar[1..];
      if nextchar == "" { optind := optind + 1; }
      if c !in opts || c == ':' {
        optopt := c as int;
        return QUESTION;
      }
      var k := Position(opts, c);
      code := c as int;
      if CharAt(opts, k + 1, ':') {
        if CharAt(opts, k + 2, ':') {
          if nextchar != "" {
            optarg := Some(nextchar);
            optind := optind + 1;
          } else {
            optarg := None;
          }
          nextchar := "";
        } else {
          if nextchar != "" {
            optarg := Some(nextchar);
            optind := optind + 1;
          } else if optind == argv.Length {
            optopt := c as int;
            code := if opts != "" && opts[0] == ':' then COLON else QUESTION;
          } else {
            optarg := Some(argv[optind]);
            optind := optind + 1;
          }
          nextchar := "";
        }
      }
    }

    /** The part of the decoder for long options; `done` says it dealt with the element. */
    method DecodeName(argv: array<string>, cfg: Config, opts: string)
      returns (done: bool, code: int, index: Option<nat>, store: Option<(nat, int)>)
      requires optind < argv.Length && Decodable(cfg, argv[optind], nextchar) && optarg == None && cfg.long.Some?
      modifies this`optind, this`nextchar, this`optarg, this`optopt
      ensures var elem := argv[old(optind)];
        var d := DecodeLong(cfg, opts, elem, old(nextchar), Following(argv[..], old(optind)));
        if done then Became(d, old(optind), old(optopt)) && code == d.code && index == d.index && store == d.store
        else old(nextchar) != "" && d == DecodeShort(opts, old(nextchar), Following(argv[..], old(optind)))
             && optind == old(optind) && nextchar == old(nextchar) && optarg == None && optopt == old(optopt)
    {
      var long := cfg.long.value;
      done, code, index, store := true, QUESTION, None, None;
      var end := NameEnd(nextchar);
      assert nextchar[..end] == Key(nextchar);
      var row := FindRow(long, nextchar[..end], cfg.longOnly);
      FindLongMeans(long, nextchar[..end], cfg.longOnly);
      match row {
        case Ambiguous =>
          nextchar := "";
          optind := optind + 1;
          optopt := 0;
        case Found(k) =>
          optind := optind + 1;
          if end < |nextchar| {
            if long[k].hasArg != 0 {
              optarg := Some(nextchar[end + 1..]);
            } else {
              nextchar := "";
              optopt := long[k].val;
              return;
            }
          } else if long[k].hasArg == 1 {
            if optind < argv.Length {
              optarg := Some(argv[optind]);
              optind := optind + 1;
            } else {
              nextchar := "";
              optopt := long[k].val;
              code := if opts != "" && opts[0] == ':' then COLON else QUESTION;
              return;
            }
          }
          nextchar := "";
          index := Some(k);
          if long[k].flag != 0 {
            store := Some((long[k].flag, long[k].val));
            code := 0;
          } else {
            code := long[k].val;
          }
        case NotFound =>
          if !cfg.longOnly || argv[optind][1] == '-' || nextchar[0] !in opts {
            nextchar := "";
            optind := optind + 1;
            optopt := 0;
          } else {
            done := false;
          }
      }
    }

    method DecodeElement(argv: array<string>, cfg: Config, opts: string)
      returns (code: int, index: Option<nat>, store: Option<(nat, int)>)
      requires optind < argv.Length && Decodable(cfg, argv[optind], nextchar) && optarg == None
      modifies this`optind, this`nextchar, this`optarg, this`optopt
      ensures var d := Decode(cfg, opts, argv[old(optind)], old(nextchar), Following(argv[..], old(optind)));
        Became(d, old(optind), old(optopt)) && code == d.code && index == d.index && store == d.store
    {
      if cfg.long.Some? && (argv[optind][1] == '-'
                            || (cfg.longOnly && (|argv[optind]| > 2 || argv[optind][1] !in opts))) {
        var done: bool;
        done, code, index, store := DecodeName(argv, cfg, opts);
        if done { return; }
      }
      index, store := None, None;
      code := DecodeLetter(argv, opts);
    }

    /** The scan has begun; an index of 0 asks for a new one. */
    predicate Begun()
      reads this
    {
      initialized && optind != 0
    }

    /** The caller may call: the scan has not ended, and nobody else moved the cursor. */
    ghost predicate Ready(argv: array<string>, cfg: Config)
      reads this, argv
    {
      if Begun() then start >= 1 && Scanning(argv, cfg, false)
      else (if optind == 0 then 1 else optind) <= argv.Length
    }

    /** What is still to be reported, from the first call on. */
    ghost function Ahead(argv: array<string>, cfg: Config, posix: bool): seq<Outcome>
      requires Ready(argv, cfg)
      reads this, argv
    {
      if Begun() then Rest(cfg, false).reports
      else Scan(cfg, cfg.OrderingOf(posix), argv[..], if optind == 0 then 1 else optind, true).reports
    }

    ghost function Bound(argv: array<string>): nat
      reads this, argv
    {
      if Begun() then Unread() else Weight(argv[..], if optind == 0 then 1 else optind)
    }

    /** The account belongs to the scan that the first call began. */
    twostate predicate SameScan(argv: array<string>, cfg: Config, posix: bool)
      reads this, argv
    {
      if old(Begun()) then
        orig == old(orig) && start == old(start) && mask == old(mask) && ordering == old(ordering)
      else
        && orig == old(argv[..]) && start == (if old(optind) == 0 then 1 else old(optind)) <= |orig|
        && ordering == cfg.OrderingOf(posix) && mask == Scan(cfg, ordering, orig, start, true).mask
    }

    /** What the caller sees of report o; without a refused option optopt keeps its value opt0. */
    ghost predicate Shows(o: Outcome, code: int, index: Option<nat>, store: Option<(nat, int)>, opt0: int)
      reads this
    {
      code == o.code && optarg == o.arg && index == o.index && store == o.store
      && optopt == if o.opt.Some? then o.opt.value else opt0
    }

    /** The call proper: find the element, unless one is open, and decode one option. */
    method Advance(argv: array<string>, cfg: Config, opts: string, ghost first: bool)
      returns (code: int, index: Option<nat>, store: Option<(nat, int)>, ghost ended: bool)
      requires Scanning(argv, cfg, first) && start >= 1 && optarg == None && opts == cfg.Letters(first)
      modifies this`optind, this`firstNonopt, this`lastNonopt, this`nextchar, this`optarg, this`optopt, argv
      ensures ended ==> code == -1 && old(Rest(cfg, first).reports) == [] && Finished(argv)
      ensures !ended ==>
        && Scanning(argv, cfg, false) && optind >= 1 && Unread() < old(Unread())
        && var ahead := old(Rest(cfg, first).reports);
           ahead != [] && Shows(ahead[0], code, index, store, old(optopt)) && Rest(cfg, false).reports == ahead[1..]
      ensures cfg.NoClash() ==> (code == -1 <==> ended)
    {
      hide Layout, Rotated, Cluster, Tracks, Settled, Weight, Scan, Decode;
      index, store := None, None;
      if nextchar == "" {
        var pause := BeginElement(argv, cfg, first);
        if pause.Stop? {
          return -1, None, None, true;
        } else if pause.Pass? {
          TrackBounds(ordering, argv[..], orig, start, mask, firstNonopt, lastNonopt, optind, Rest(cfg, false));
          return 1, None, None, false;
        }
      }
      var p := optind;
      TrackBounds(ordering, argv[..], orig, start, mask, firstNonopt, lastNonopt, p,
                  Cluster(cfg, ordering, orig, p, nextchar, first));
      TrackDecode(cfg, ordering, argv[..], orig, start, mask, firstNonopt, lastNonopt, p, nextchar, first);
      assert Following(argv[..], p) == Following(orig, p);
      if cfg.NoClash() { DecodeCode(cfg, opts, orig[p], nextchar, Following(orig, p)); }
      code, index, store := DecodeElement(argv, cfg, opts);
      if optind != p { WeightDrops(orig, p + 1, optind); }
      ended := false;
    }

    /** One call: report the next option of the original vector and come closer to the
        end, or end the scan with the vector partitioned. */
    method Getopt(argv: array<string>, cfg: Config, posix: bool)
      returns (code: int, index: Option<nat>, store: Option<(nat, int)>, ghost ended: bool)
      requires (argv.Length >= 1 ==> Ready(argv, cfg)) && cfg.NoW()
      modifies this, argv
      ensures argv.Length < 1 ==> code == -1 && ended && unchanged(this)
      ensures argv.Length >= 1 ==> SameScan(argv, cfg, posix)
      ensures argv.Length >= 1 && ended ==>
        code == -1 && old(Ahead(argv, cfg, posix)) == [] && Finished(argv)
      ensures !ended ==> firstNonopt <= lastNonopt <= optind <= argv.Length
      ensures !ended ==>
        && argv.Length >= 1 && Begun() && Ready(argv, cfg) && Bound(argv) < old(Bound(argv))
        && var ahead := old(Ahead(argv, cfg, posix));
           ahead != [] && Shows(ahead[0], code, index, store, old(optopt)) && Ahead(argv, cfg, posix) == ahead[1..]
      ensures cfg.NoClash() ==> (code == -1 <==> ended)
    {
      hide Layout, Rotated, Cluster, Tracks, Settled, Weight, Scan, Finished;
      if argv.Length < 1 { return -1, None, None, true; }
      optarg := None;
      var opts := cfg.optstring;
      ghost var first := !Begun();
      if optind == 0 || !initialized {
        if optind == 0 { optind := 1; }
        Initialize(argv, cfg, posix);
        opts := cfg.Letters(true);
      }
      code, index, store, ended := Advance(argv, cfg, opts, first);
      if !ended {
        TrackBounds(ordering, argv[..], orig, start, mask, firstNonopt, lastNonopt, optind, Rest(cfg, false));
      }
    }

    /** What a caller does: call until the scan ends. */
    method ScanAll(argv: array<string>, cfg: Config, posix: bool) returns (reports: seq<Report>)
      requires !Begun() && cfg.NoW() && cfg.NoClash()
      requires argv.Length >= 1 ==> optind <= argv.Length
      modifies this, argv
      ensures argv.Length < 1 ==> reports == [] && optind == old(optind)
      ensures argv.Length >= 1 ==>
        var s := if old(optind) == 0 then 1 else old(optind);
        var ord, a := cfg.OrderingOf(posix), old(argv[..]);
        var plan := Scan(cfg, ord, a, s, true);
        && Settled(argv[..], a, s, plan.mask, optind)
        && (ord != Permute ==> argv[..] == a)
        && |reports| == |plan.reports| <= Weight(a, s)
        && forall k :: 0 <= k < |reports| ==> Matches(plan.reports[k], reports[k])
    {
      hide Layout, Rotated, Cluster, Tracks, Settled, Weight, Scan;
      reports := [];
      if argv.Length < 1 { return; }
      ghost var a, s := argv[..], if optind == 0 then 1 else optind;
      ghost var plan := Scan(cfg, cfg.OrderingOf(posix), a, s, true);
      var code, index, store;
      ghost var ended, opt0 := false, optopt;
      code, index, store, ended := Getopt(argv, cfg, posix);
      while code != -1
        invariant code != -1 <==> !ended
        invariant SameScan(argv, cfg, posix)
        invariant ended ==> Finished(argv) && |reports| == |plan.reports|
        invariant !ended ==> Begun() && Ready(argv, cfg) && Bound(argv) + |reports| < Weight(a, s)
        invariant !ended ==> |reports| < |plan.reports| && Shows(plan.reports[|reports|], code, index, store, opt0)
        invariant !ended ==> Ahead(argv, cfg, posix) == plan.reports[|reports| + 1..]
        invariant |reports| <= |plan.reports| && |reports| <= Weight(a, s)
        invariant forall k :: 0 <= k < |reports| ==> Matches(plan.reports[k], reports[k])
        decreases if ended then 0 else 1 + Bound(argv)
      {
        reports := reports + [Report(code, optarg, optopt, index, store)];
        opt0 := optopt;
        code, index, store, ended := Getopt(argv, cfg, posix);
      }
    }
  }
}

/** What reports say about the elements they come from: read in order, they spell them back. */
module GetoptSpell {
  import opened Common
  import opened GetoptSpec
  import opened GetoptMask

  // ---- one report ------------------------------------------------------------------------------

  /** The argument is the rest of the element, not the next element. */
  predicate Attached(d: Outcome) { d.arg.Some? && d.taken == 1 }

  /** How many colons follow the first c of the option string, up to two: no argument, a
      required one, an optional one. */
  function Wants(opts: string, c: char): (n: nat)
    requires c in opts
    ensures n <= 2
    ensures exists pre, post :: opts == pre + [c] + post && c !in pre
              && (n >= 1 <==> ":" <= post) && (n == 2 <==> "::" <= post)
  {
    var k := Position(opts, c);
    var n := if !CharAt(opts, k + 1, ':') then 0 else if CharAt(opts, k + 2, ':') then 2 else 1;
    assert opts == opts[..k] + [c] + opts[k + 1..] && c !in opts[..k]
        && (n >= 1 <==> ":" <= opts[k + 1..]) && (n == 2 <==> "::" <= opts[k + 1..]);
    n
  }

  predicate Known(opts: string, c: char) { c in opts && c != ':' }

  /** The report is about letter c, which the head of the unread text is, with the argument if
      that is attached. */
  predicate SaysLetter(d: Outcome, c: char, head: string) {
    && d.index.None? && d.store.None?
    && head == [c] + (if Attached(d) then d.arg.value else "")
    && (if d.opt.Some? then d.opt.value == c as int && d.arg.None? else d.code == c as int)
  }

  /** The report is about the long option key, attached argument included. */
  predicate SaysName(long: seq<LongOpt>, d: Outcome, key: string, head: string) {
    && d.opt.None? && d.index.Some? && d.index.value < |long| && key <= long[d.index.value].name
    && '=' !in key && head == key + (if Attached(d) then "=" + d.arg.value else "")
  }

  /** An option with hasArg 0 has no argument, with 1 always one, with 2 never the next element. */
  predicate TakesArg(hasArg: nat, d: Outcome, attached: bool) {
    if hasArg == 0 then d.arg.None? && d.taken != 2
    else if hasArg == 1 then d.arg.Some? && (d.taken == 2 <==> !attached)
    else d.taken != 2 && (d.arg.Some? <==> attached)
  }

  /** The unread text of a letter is the letter, then the argument or what is left; the letter
      is refused exactly when it is unknown or lacks its argument. */
  lemma ShortSpells(opts: string, next: string, following: Option<string>)
    requires next != ""
    ensures var d, c := DecodeShort(opts, next, following), next[0];
      && next == (if Attached(d) then [c] + d.arg.value else [c] + d.rest)
      && SaysLetter(d, c, next[..|next| - |d.rest|])
      && (d.taken == 2 ==> next == [c] && following.Some? && d.arg == following)
      && (d.opt.Some? <==> !Known(opts, c) || (Wants(opts, c) == 1 && next == [c] && following.None?))
      && (d.opt.Some? ==> d.code == if Known(opts, c) && opts[0] == ':' then COLON else QUESTION)
      && (d.opt.None? ==> TakesArg(Wants(opts, c), d, |next| > 1))
  {
    var d, c := DecodeShort(opts, next, following), next[0];
    assert next == [c] + next[1..];
    if Known(opts, c) { WantsIs(opts, c); }
  }

  lemma WantsIs(opts: string, c: char)
    requires c in opts
    ensures var k := Position(opts, c);
      && (Wants(opts, c) >= 1 <==> CharAt(opts, k + 1, ':'))
      && (Wants(opts, c) == 2 <==> CharAt(opts, k + 1, ':') && CharAt(opts, k + 2, ':'))
  {
  }

  /** A name that no row or more than one has. */
  predicate NameUnclear(d: Outcome) {
    d.code == QUESTION && d.opt == Some(0) && d.index.None? && d.arg.None? && d.rest == "" && d.taken == 1
  }

  /** The unread text of a long option is its name, or an abbreviation, and the attached argument
      after '='; a name that matches no row, or several, is refused with 0, one with a wrong or
      missing argument with the row's value. */
  lemma LongSpells(cfg: Config, opts: string, elem: string, next: string, following: Option<string>)
    requires cfg.long.Some? && Decodable(cfg, elem, next)
    ensures var d, long, key := DecodeLong(cfg, opts, elem, next, following), cfg.long.value, Key(next);
      match FindLong(long, key, cfg.longOnly)
      case Found(k) =>
        && k < |long| && key <= long[k].name
        && var given := |key| < |next|;
           if (given && long[k].hasArg == 0) || (!given && long[k].hasArg == 1 && following.None?) then
             && d.opt == Some(long[k].val) && d.index.None? && d.arg.None? && d.store.None?
             && d.rest == "" && d.taken == 1
             && d.code == if !given && opts != "" && opts[0] == ':' then COLON else QUESTION
           else
             && SaysName(long, d, key, next) && d.index == Some(k) && d.rest == ""
             && TakesArg(long[k].hasArg, d, given) && (d.taken == 2 ==> d.arg == following)
             && (if long[k].flag != 0 then d.code == 0 && d.store == Some((long[k].flag, long[k].val))
                 else d.code == long[k].val && d.store.None?)
      case NotFound =>
        if cfg.longOnly && elem[1] != '-' && next[0] in opts then d == DecodeShort(opts, next, following)
        else NameUnclear(d)
      case Ambiguous => NameUnclear(d)
  {
    hide FindLong, Key, DecodeShort;
    var key := Key(next);
    FoundRow(cfg.long.value, key, cfg.longOnly);
    assert |key| < |next| ==> next == key + "=" + next[|key| + 1..];
  }

  /** Some row's name begins with the key. */
  ghost predicate Matches(long: seq<LongOpt>, key: string) {
    exists k :: 0 <= k < |long| && key <= long[k].name
  }

  /** The whole text is read as a name, found or refused. */
  ghost predicate ReadAsName(long: seq<LongOpt>, d: Outcome, next: string) {
    && d.rest == ""
    && (SaysName(long, d, Key(next), next)
        || NameUnclear(d)
        || (Matches(long, Key(next)) && RefusedFor(long, d, Key(next))))
  }

  /** Refused with the value of a row whose name begins with the key. */
  ghost predicate RefusedFor(long: seq<LongOpt>, d: Outcome, key: string) {
    && d.index.None? && d.arg.None? && d.taken == 1
    && exists k :: 0 <= k < |long| && key <= long[k].name && d.opt == Some(long[k].val)
  }

  /** Two marks introduce a name.  With long-only options one mark does as well, unless a single
      known letter follows, or no name begins so but a letter does.  All else is letters. */
  lemma NameOrLetter(cfg: Config, opts: string, elem: string, next: string, following: Option<string>)
    requires Decodable(cfg, elem, next)
    ensures var d := Decode(cfg, opts, elem, next, following);
      if cfg.long.Some? && elem[1] == '-' then ReadAsName(cfg.long.value, d, next)
      else if cfg.long.Some? && cfg.longOnly && (|elem| > 2 || elem[1] !in opts)
              && (Matches(cfg.long.value, Key(next)) || next[0] !in opts) then ReadAsName(cfg.long.value, d, next)
      else d == DecodeShort(opts, next, following)
  {
    hide FindLong, Key, DecodeShort;
    if cfg.long.Some? {
      FindLongMeans(cfg.long.value, Key(next), cfg.longOnly);
      LongSpells(cfg, opts, elem, next, following);
    }
  }

  /** The ordering prefix is no letter for the call that begins the scan, and one for the rest. */
  lemma PrefixLetter(cfg: Config, c: char, rest: string, following: Option<string>)
    requires (c == '-' || c == '+') && cfg.optstring == [c] + rest && c !in rest
    ensures DecodeShort(cfg.Letters(true), [c], following).opt == Some(c as int)
    ensures DecodeShort(cfg.Letters(false), [c], following).opt.None? || ":" <= rest
  {
    assert cfg.optstring[1..] == rest;
    ShortSpells(cfg.Letters(false), [c], following);
    WantsIs(cfg.optstring, c);
    assert Position(cfg.optstring, c) == 0;
  }

  lemma FoundRow(long: seq<LongOpt>, key: string, only: bool)
    ensures var r := FindLong(long, key, only); r.Found? ==> r.k < |long| && key <= long[r.k].name
  {
    FindLongMeans(long, key, only);
  }

  // ---- one element -----------------------------------------------------------------------------

  /** The reports an option element gives rise to. */
  function ElementReports(cfg: Config, a: seq<string>, i: nat, next: string, first: bool): (rs: seq<Outcome>)
    requires i < |a| && Decodable(cfg, a[i], next)
    ensures rs != []
    decreases |next|
  {
    var d := Decode(cfg, cfg.Letters(first), a[i], next, Following(a, i));
    DecodeProgress(cfg, cfg.Letters(first), a[i], next, Following(a, i));
    if d.taken == 0 then [d] + ElementReports(cfg, a, i, d.rest, false) else [d]
  }

  /** A long option that is refused. */
  predicate NameRefused(cfg: Config, d: Outcome) {
    cfg.long.Some? && d.opt.Some? && d.index.None? && d.arg.None? && d.taken == 1
  }

  /** The report says what the text is: a letter, a long option, or a long option refused. */
  ghost predicate Says(cfg: Config, d: Outcome, head: string) {
    || (exists c :: SaysLetter(d, c, head))
    || (cfg.long.Some? && exists key :: SaysName(cfg.long.value, d, key, head))
    || NameRefused(cfg, d)
  }

  /** One report after the other says the text, up to its end. */
  ghost predicate SpellOut(cfg: Config, rs: seq<Outcome>, text: string) {
    rs != [] && exists head, tail ::
      && text == head + tail && Says(cfg, rs[0], head)
      && if |rs| == 1 then tail == "" else SpellOut(cfg, rs[1..], tail)
  }

  lemma DecodeSays(cfg: Config, opts: string, elem: string, next: string, following: Option<string>)
    requires Decodable(cfg, elem, next)
    ensures var d := Decode(cfg, opts, elem, next, following);
      |d.rest| <= |next| && next[|next| - |d.rest|..] == d.rest && Says(cfg, d, next[..|next| - |d.rest|])
  {
    hide DecodeShort, DecodeLong, SaysName, SaysLetter;
    var d := Decode(cfg, opts, elem, next, following);
    if next != "" {
      ShortSays(opts, next, following);
      assert d == DecodeShort(opts, next, following) ==> SaysLetter(d, next[0], next[..|next| - |d.rest|]);
    }
    if cfg.long.Some? {
      LongSays(cfg, opts, elem, next, following);
      assert next[..|next|] == next && next[|next|..] == "";
    }
  }

  lemma ShortSays(opts: string, next: string, following: Option<string>)
    requires next != ""
    ensures var d := DecodeShort(opts, next, following);
      |d.rest| <= |next| && next[|next| - |d.rest|..] == d.rest && SaysLetter(d, next[0], next[..|next| - |d.rest|])
  {
    ShortSpells(opts, next, following);
  }

  lemma LongSays(cfg: Config, opts: string, elem: string, next: string, following: Option<string>)
    requires cfg.long.Some? && Decodable(cfg, elem, next)
    ensures var d := DecodeLong(cfg, opts, elem, next, following);
      || (d.rest == "" && (NameRefused(cfg, d) || SaysName(cfg.long.value, d, Key(next), next)))
      || (next != "" && d == DecodeShort(opts, next, following))
  {
    LongSpells(cfg, opts, elem, next, following);
  }

  /** The reports of an element, in order, spell its unread text. */
  lemma {:induction false} ElementSpells(cfg: Config, a: seq<string>, i: nat, next: string, first: bool)
    requires i < |a| && Decodable(cfg, a[i], next)
    ensures SpellOut(cfg, ElementReports(cfg, a, i, next, first), next)
    decreases |next|
  {
    hide Decode, Says;
    var d := Decode(cfg, cfg.Letters(first), a[i], next, Following(a, i));
    DecodeProgress(cfg, cfg.Letters(first), a[i], next, Following(a, i));
    DecodeSays(cfg, cfg.Letters(first), a[i], next, Following(a, i));
    var rs := ElementReports(cfg, a, i, next, first);
    var head := next[..|next| - |d.rest|];
    assert next == head + d.rest;
    if d.taken == 0 {
      ElementSpells(cfg, a, i, d.rest, false);
      assert rs[1..] == ElementReports(cfg, a, i, d.rest, false);
    }
  }

  lemma {:induction false} ClusterReports(cfg: Config, ord: Ordering, a: seq<string>, i: nat, next: string, first: bool)
    requires i < |a| && Decodable(cfg, a[i], next)
    ensures var w := Width(cfg, a, i, next, first);
      Cluster(cfg, ord, a, i, next, first).reports
      == ElementReports(cfg, a, i, next, first) + Scan(cfg, ord, a, i + w, false).reports
    decreases |next|
  {
    hide Decode, Scan;
    var d := Decode(cfg, cfg.Letters(first), a[i], next, Following(a, i));
    DecodeProgress(cfg, cfg.Letters(first), a[i], next, Following(a, i));
    if d.taken == 0 { ClusterReports(cfg, ord, a, i, d.rest, false); }
  }

  // ---- the whole vector ------------------------------------------------------------------------

  /** The reports of a scan, span by span. */
  function Told(cfg: Config, ord: Ordering, a: seq<string>, i: nat, first: bool): seq<seq<Outcome>>
    requires i <= |a|
    decreases |a| - i
  {
    if i == |a| then []
    else if Stops(ord, a[i]) then [[]]
    else if NonOption(a[i]) then
      [if ord == Permute then [] else [Outcome(1, Some(a[i]), None, None, None, "", 1)]]
      + Told(cfg, ord, a, i + 1, ord == Permute && first)
    else
      var next := Opening(cfg, a[i]);
      [ElementReports(cfg, a, i, next, first)] + Told(cfg, ord, a, i + Width(cfg, a, i, next, first), false)
  }

  function Flat(rs: seq<seq<Outcome>>): seq<Outcome> { if rs == [] then [] else rs[0] + Flat(rs[1..]) }

  /** What one span is told as: an element of '-' or '/' and more, as the text after that and,
      with long options, after a second '-'; any other, where it is reported, as itself;
      "--" not at all. */
  ghost predicate ToldAs(cfg: Config, ord: Ordering, elem: string, rs: seq<Outcome>) {
    if elem == "--" then rs == []
    else if |elem| >= 2 && (elem[0] == '-' || elem[0] == '/') then
      SpellOut(cfg, rs, elem[if cfg.long.Some? && elem[1] == '-' then 2 else 1..])
    else if ord == ReturnInOrder then |rs| == 1 && rs[0].code == 1 && rs[0].arg == Some(elem)
    else rs == []
  }

  /** One span further. */
  lemma ToldStep(cfg: Config, ord: Ordering, a: seq<string>, i: nat, first: bool)
    requires i < |a| && !Stops(ord, a[i])
    ensures var told, sp := Told(cfg, ord, a, i, first), Spans(cfg, ord, a, i, first);
      var go := NonOption(a[i]) && ord == Permute && first;
      var w := if NonOption(a[i]) then 1 else Width(cfg, a, i, Opening(cfg, a[i]), first);
      && told != [] && told[1..] == Told(cfg, ord, a, i + w, go) && ToldAs(cfg, ord, a[i], told[0])
      && sp == [Span(i, w)] + Spans(cfg, ord, a, i + w, go)
      && Scan(cfg, ord, a, i, first).reports == told[0] + Scan(cfg, ord, a, i + w, go).reports
  {
    hide SpellOut, Cluster, Width, ElementReports;
    if !NonOption(a[i]) {
      ElementSpells(cfg, a, i, Opening(cfg, a[i]), first);
      ClusterReports(cfg, ord, a, i, Opening(cfg, a[i]), first);
    }
  }

  lemma ToldStops(cfg: Config, ord: Ordering, a: seq<string>, i: nat, first: bool)
    requires i < |a| && Stops(ord, a[i])
    ensures Told(cfg, ord, a, i, first) == [[]] && Scan(cfg, ord, a, i, first).reports == []
    ensures Spans(cfg, ord, a, i, first) == [Span(i, 1)] && Flat([[]]) == [] && ToldAs(cfg, ord, a[i], [])
  {
    hide Cluster;
    var nothing: seq<seq<Outcome>> := [[]];
    assert nothing[1..] == [];
  }

  /** Span by span, the reports are those of the element the span starts with. */
  ghost predicate AllTold(cfg: Config, ord: Ordering, a: seq<string>, sp: seq<Span>, told: seq<seq<Outcome>>)
    requires forall m :: 0 <= m < |sp| ==> sp[m].at < |a|
  {
    |told| == |sp| && forall m :: 0 <= m < |sp| ==> ToldAs(cfg, ord, a[sp[m].at], told[m])
  }

  lemma AllToldGrows(cfg: Config, ord: Ordering, a: seq<string>, s: Span, sp: seq<Span>, told: seq<seq<Outcome>>)
    requires s.at < |a| && forall m :: 0 <= m < |sp| ==> sp[m].at < |a|
    requires told != [] && ToldAs(cfg, ord, a[s.at], told[0]) && AllTold(cfg, ord, a, sp, told[1..])
    ensures AllTold(cfg, ord, a, [s] + sp, told)
  {
    hide ToldAs;
    forall m | 0 <= m < |[s] + sp| ensures ToldAs(cfg, ord, a[([s] + sp)[m].at], told[m]) {
      if m > 0 { assert told[m] == told[1..][m - 1]; }
    }
  }

  /** The reports of a whole scan, in order, spell the options of the vector back. */
  lemma {:induction false} ScanSpells(cfg: Config, ord: Ordering, a: seq<string>, i: nat, first: bool)
    requires i <= |a|
    ensures Flat(Told(cfg, ord, a, i, first)) == Scan(cfg, ord, a, i, first).reports
    ensures AllTold(cfg, ord, a, Spans(cfg, ord, a, i, first), Told(cfg, ord, a, i, first))
    decreases |a| - i
  {
    hide ToldAs, Scan, Told, Spans, Width, Opening, NonOption, Stops, AllTold;
    if i == |a| {
      ToldEnds(cfg, ord, a, first);
    } else if Stops(ord, a[i]) {
      ToldStops(cfg, ord, a, i, first);
      ToldOnce(cfg, ord, a, i);
    } else {
      ToldStep(cfg, ord, a, i, first);
      var go := NonOption(a[i]) && ord == Permute && first;
      var w := if NonOption(a[i]) then 1 else Width(cfg, a, i, Opening(cfg, a[i]), first);
      ScanSpells(cfg, ord, a, i + w, go);
      AllToldGrows(cfg, ord, a, Span(i, w), Spans(cfg, ord, a, i + w, go), Told(cfg, ord, a, i, first));
    }
  }

  lemma ToldEnds(cfg: Config, ord: Ordering, a: seq<string>, first: bool)
    ensures Flat(Told(cfg, ord, a, |a|, first)) == Scan(cfg, ord, a, |a|, first).reports
    ensures AllTold(cfg, ord, a, Spans(cfg, ord, a, |a|, first), Told(cfg, ord, a, |a|, first))
  {
    hide Cluster;
  }

  lemma ToldOnce(cfg: Config, ord: Ordering, a: seq<string>, i: nat)
    requires i < |a| && ToldAs(cfg, ord, a[i], [])
    ensures AllTold(cfg, ord, a, [Span(i, 1)], [[]])
  {
  }
}

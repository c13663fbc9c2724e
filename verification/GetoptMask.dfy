/** What the marks of a scan mean, element by element of the original vector. */
module GetoptMask {
  import opened Common
  import opened GetoptSpec

  /** A stretch of the vector read as one: an element, or an option with the separate argument
      after it. */
  datatype Span = Span(at: nat, width: nat)

  /** How many elements the option element i takes, of which next is unread. */
  function Width(cfg: Config, a: seq<string>, i: nat, next: string, first: bool): (w: nat)
    requires i < |a| && Decodable(cfg, a[i], next)
    ensures 1 <= w <= 2 && i + w <= |a|
    decreases |next|
  {
    var d := Decode(cfg, cfg.Letters(first), a[i], next, Following(a, i));
    DecodeProgress(cfg, cfg.Letters(first), a[i], next, Following(a, i));
    if d.taken == 0 then Width(cfg, a, i, d.rest, false) else d.taken
  }

  /** The scan reads nothing after this element. */
  predicate Stops(ord: Ordering, elem: string) {
    elem == "--" || (ord == RequireOrder && NonOption(elem))
  }

  function Spans(cfg: Config, ord: Ordering, a: seq<string>, i: nat, first: bool): (sp: seq<Span>)
    requires i <= |a|
    ensures forall m :: 0 <= m < |sp| ==> i <= sp[m].at < |a|
    decreases |a| - i
  {
    if i == |a| then []
    else if Stops(ord, a[i]) then [Span(i, 1)]
    else if NonOption(a[i]) then [Span(i, 1)] + Spans(cfg, ord, a, i + 1, ord == Permute && first)
    else
      var w := Width(cfg, a, i, Opening(cfg, a[i]), first);
      [Span(i, w)] + Spans(cfg, ord, a, i + w, false)
  }

  /** Element k is the separate argument of an option. */
  ghost predicate Consumed(sp: seq<Span>, k: nat) {
    exists m :: 0 <= m < |sp| && sp[m].at < k < sp[m].at + sp[m].width
  }

  /** Element k is after a "--" that is no argument. */
  ghost predicate PastMark(sp: seq<Span>, a: seq<string>, k: nat)
    requires forall m :: 0 <= m < |sp| ==> sp[m].at < |a|
  {
    exists m :: 0 <= m < |sp| && sp[m].at < k && a[sp[m].at] == "--"
  }

  /** Element k is the first non-option that is no argument, or after it. */
  ghost predicate PastNonOption(sp: seq<Span>, a: seq<string>, k: nat)
    requires forall m :: 0 <= m < |sp| ==> sp[m].at < |a|
  {
    exists m :: 0 <= m < |sp| && sp[m].at <= k && NonOption(a[sp[m].at])
  }

  ghost predicate Left(ord: Ordering, sp: seq<Span>, a: seq<string>, k: nat)
    requires k < |a| && forall m :: 0 <= m < |sp| ==> sp[m].at < |a|
  {
    || PastMark(sp, a, k)
    || (ord == Permute && NonOption(a[k]) && !Consumed(sp, k))
    || (ord == RequireOrder && PastNonOption(sp, a, k))
  }

  /** What stands behind a span that does not stop the scan is judged without it. */
  lemma LeftBehind(ord: Ordering, s: Span, rest: seq<Span>, a: seq<string>, k: nat)
    requires s.at + s.width <= k < |a| && !Stops(ord, a[s.at])
    requires forall m :: 0 <= m < |rest| ==> s.at + s.width <= rest[m].at < |a|
    ensures Left(ord, [s] + rest, a, k) <==> Left(ord, rest, a, k)
  {
    var sp := [s] + rest;
    assert forall m :: 0 < m < |sp| ==> sp[m] == rest[m - 1];
    assert forall m :: 0 <= m < |rest| ==> rest[m] == sp[m + 1];
    assert Consumed(sp, k) <==> Consumed(rest, k);
    assert PastMark(sp, a, k) <==> PastMark(rest, a, k);
    if ord == RequireOrder { assert PastNonOption(sp, a, k) <==> PastNonOption(rest, a, k); }
  }

  /** ... and what stands in the first span by that span alone. */
  lemma LeftInside(ord: Ordering, s: Span, rest: seq<Span>, a: seq<string>, k: nat)
    requires s.at <= k < s.at + s.width && k < |a| && !Stops(ord, a[s.at])
    requires forall m :: 0 <= m < |rest| ==> s.at + s.width <= rest[m].at < |a|
    ensures Left(ord, [s] + rest, a, k) <==> ord == Permute && k == s.at && NonOption(a[k])
  {
    var sp := [s] + rest;
    assert sp[0] == s;
    assert forall m :: 0 < m < |sp| ==> sp[m] == rest[m - 1];
    if k > s.at { assert Consumed(sp, k); }
  }

  lemma {:induction false} ClusterMarks(cfg: Config, ord: Ordering, a: seq<string>, i: nat, next: string, first: bool)
    requires i < |a| && Decodable(cfg, a[i], next)
    ensures var w := Width(cfg, a, i, next, first);
      Cluster(cfg, ord, a, i, next, first).mask == Fill(true, w) + Scan(cfg, ord, a, i + w, false).mask
    decreases |next|
  {
    hide Decode, Scan;
    var d := Decode(cfg, cfg.Letters(first), a[i], next, Following(a, i));
    DecodeProgress(cfg, cfg.Letters(first), a[i], next, Following(a, i));
    if d.taken == 0 { ClusterMarks(cfg, ord, a, i, d.rest, false); }
  }

  /** The marks and the spans of a scan that has not stopped yet, one span further. */
  lemma ScanMarks(cfg: Config, ord: Ordering, a: seq<string>, i: nat, first: bool)
    requires i < |a| && !Stops(ord, a[i])
    ensures var mask, sp := Scan(cfg, ord, a, i, first).mask, Spans(cfg, ord, a, i, first);
      if NonOption(a[i]) then
        && mask == [ord == ReturnInOrder] + Scan(cfg, ord, a, i + 1, ord == Permute && first).mask
        && sp == [Span(i, 1)] + Spans(cfg, ord, a, i + 1, ord == Permute && first)
      else
        var w := Width(cfg, a, i, Opening(cfg, a[i]), first);
        && mask == Fill(true, w) + Scan(cfg, ord, a, i + w, false).mask
        && sp == [Span(i, w)] + Spans(cfg, ord, a, i + w, false)
  {
    hide Cluster, Width;
    if !NonOption(a[i]) { ClusterMarks(cfg, ord, a, i, Opening(cfg, a[i]), first); }
  }

  lemma ScanStops(cfg: Config, ord: Ordering, a: seq<string>, i: nat, first: bool, k: nat)
    requires i <= k < |a| && Stops(ord, a[i])
    ensures Spans(cfg, ord, a, i, first) == [Span(i, 1)]
    ensures Scan(cfg, ord, a, i, first).mask[k - i] <==> k == i && a[i] == "--"
  {
    hide Cluster;
  }

  /** An element is unmarked exactly when it is after the "--"; or, permuting, when it is a
      non-option that no option consumed; or, requiring order, when it is the first such
      non-option or after it. */
  lemma {:induction false} MaskMeans(cfg: Config, ord: Ordering, a: seq<string>, i: nat, first: bool, k: nat)
    requires i <= k < |a|
    ensures !Scan(cfg, ord, a, i, first).mask[k - i] <==> Left(ord, Spans(cfg, ord, a, i, first), a, k)
    decreases |a| - i
  {
    hide Scan, Spans, Width, Left, Opening;
    if Stops(ord, a[i]) {
      ScanStops(cfg, ord, a, i, first, k);
      StopsHere(ord, a, i, k);
      return;
    }
    ScanMarks(cfg, ord, a, i, first);
    var go := if NonOption(a[i]) then ord == Permute && first else false;
    var w := if NonOption(a[i]) then 1 else Width(cfg, a, i, Opening(cfg, a[i]), first);
    var rest := Spans(cfg, ord, a, i + w, go);
    if k < i + w {
      LeftInside(ord, Span(i, w), rest, a, k);
    } else {
      MaskMeans(cfg, ord, a, i + w, go, k);
      LeftBehind(ord, Span(i, w), rest, a, k);
    }
  }

  lemma StopsHere(ord: Ordering, a: seq<string>, i: nat, k: nat)
    requires i <= k < |a| && Stops(ord, a[i])
    ensures Left(ord, [Span(i, 1)], a, k) <==> k > i || a[i] != "--"
  {
    var sp := [Span(i, 1)];
    assert sp[0].at == i;
  }

  /** The same by the option string and the environment: '-' in front leaves only what is after
      "--"; '+' in front, or POSIXLY_CORRECT without a '-', requires order. */
  lemma OrderingMeans(cfg: Config, posix: bool, a: seq<string>, i: nat, k: nat)
    requires i <= k < |a|
    ensures var sp := Spans(cfg, cfg.OrderingOf(posix), a, i, true);
      !Scan(cfg, cfg.OrderingOf(posix), a, i, true).mask[k - i] <==>
        || PastMark(sp, a, k)
        || (!("-" <= cfg.optstring) && if "+" <= cfg.optstring || posix then PastNonOption(sp, a, k)
                                       else NonOption(a[k]) && !Consumed(sp, k))
  {
    hide Scan, Spans, PastMark, PastNonOption, Consumed;
    MaskMeans(cfg, cfg.OrderingOf(posix), a, i, true, k);
  }

  // ---- what the spans are -----------------------------------------------------------------

  /** Some option reports element j as its separate argument. */
  ghost predicate Reported(reports: seq<Outcome>, arg: string) {
    exists r :: 0 <= r < |reports| && reports[r].taken == 2 && reports[r].arg == Some(arg)
  }

  /** Whatever is reported in `more` is reported in `reports`. */
  ghost predicate Keeps(more: seq<Outcome>, reports: seq<Outcome>) {
    forall r :: r in more ==> r in reports
  }

  lemma ReportedKept(more: seq<Outcome>, reports: seq<Outcome>, arg: string)
    requires Reported(more, arg) && Keeps(more, reports)
    ensures Reported(reports, arg)
  {
    var r :| 0 <= r < |more| && more[r].taken == 2 && more[r].arg == Some(arg);
    assert more[r] in reports;
  }

  lemma DecodeTakesTwo(cfg: Config, opts: string, elem: string, next: string, following: Option<string>)
    requires Decodable(cfg, elem, next)
    ensures var d := Decode(cfg, opts, elem, next, following); d.taken == 2 ==> following.Some? && d.arg == following
  {
  }

  lemma {:induction false} ClusterTakes(cfg: Config, ord: Ordering, a: seq<string>, i: nat, next: string, first: bool)
    requires i < |a| && Decodable(cfg, a[i], next)
    ensures var w, reports := Width(cfg, a, i, next, first), Cluster(cfg, ord, a, i, next, first).reports;
      && (w == 2 ==> Reported(reports, a[i + 1]))
      && Keeps(Scan(cfg, ord, a, i + w, false).reports, reports)
    decreases |next|
  {
    hide Decode, Scan, Reported;
    var opts := cfg.Letters(first);
    var d := Decode(cfg, opts, a[i], next, Following(a, i));
    DecodeProgress(cfg, opts, a[i], next, Following(a, i));
    DecodeTakesTwo(cfg, opts, a[i], next, Following(a, i));
    if d.taken == 0 {
      var rest := Cluster(cfg, ord, a, i, d.rest, false).reports;
      ClusterTakes(cfg, ord, a, i, d.rest, false);
      if Width(cfg, a, i, next, first) == 2 { ReportedKept(rest, [d] + rest, a[i + 1]); }
    } else if d.taken == 2 {
      HeadReported(d, Scan(cfg, ord, a, i + 2, false).reports, a[i + 1]);
    }
  }

  lemma HeadReported(d: Outcome, rest: seq<Outcome>, arg: string)
    requires d.taken == 2 && d.arg == Some(arg)
    ensures Reported([d] + rest, arg)
  {
    assert ([d] + rest)[0] == d;
  }

  /** The second element of a span is reported as the argument of the option that opens it. */
  ghost predicate SpanOk(ord: Ordering, a: seq<string>, s: Span, reports: seq<Outcome>) {
    && 1 <= s.width <= 2 && s.at + s.width <= |a|
    && (s.width == 2 ==> !NonOption(a[s.at]) && !Stops(ord, a[s.at]) && Reported(reports, a[s.at + 1]))
  }

  ghost predicate Follows(ord: Ordering, a: seq<string>, s: Span, t: Span) {
    s.at < |a| && t.at == s.at + s.width && !Stops(ord, a[s.at])
  }

  /** The spans lie end to end from i to the end or to the element that stops the scan. */
  ghost predicate Tiles(ord: Ordering, a: seq<string>, i: nat, sp: seq<Span>, reports: seq<Outcome>) {
    && (forall s :: s in sp ==> SpanOk(ord, a, s, reports))
    && (forall m :: 0 <= m < |sp| - 1 ==> Follows(ord, a, sp[m], sp[m + 1]))
    && if sp == [] then i == |a|
       else sp[0].at == i && var z := sp[|sp| - 1]; z.at + z.width == |a| || (z.at < |a| && Stops(ord, a[z.at]))
  }

  lemma SpanKept(ord: Ordering, a: seq<string>, s: Span, reports: seq<Outcome>, more: seq<Outcome>)
    requires SpanOk(ord, a, s, more) && Keeps(more, reports)
    ensures SpanOk(ord, a, s, reports)
  {
    if s.width == 2 { ReportedKept(more, reports, a[s.at + 1]); }
  }

  lemma TilesGrow(ord: Ordering, a: seq<string>, s: Span, rest: seq<Span>, reports: seq<Outcome>, more: seq<Outcome>)
    requires s.at < |a| && !Stops(ord, a[s.at]) && SpanOk(ord, a, s, reports)
    requires Tiles(ord, a, s.at + s.width, rest, more) && Keeps(more, reports)
    ensures Tiles(ord, a, s.at, [s] + rest, reports)
  {
    hide SpanOk, Stops, Keeps;
    var sp := [s] + rest;
    forall t | t in rest ensures SpanOk(ord, a, t, reports) { SpanKept(ord, a, t, reports, more); }
    forall m | 0 <= m < |sp| - 1 ensures Follows(ord, a, sp[m], sp[m + 1]) {
      if m > 0 { assert Follows(ord, a, rest[m - 1], rest[m - 1 + 1]); }
    }
  }

  lemma {:induction false} SpansTile(cfg: Config, ord: Ordering, a: seq<string>, i: nat, first: bool)
    requires i <= |a|
    ensures Tiles(ord, a, i, Spans(cfg, ord, a, i, first), Scan(cfg, ord, a, i, first).reports)
    decreases |a| - i
  {
    hide Cluster, Width, Reported, Tiles;
    var reports := Scan(cfg, ord, a, i, first).reports;
    if i == |a| || Stops(ord, a[i]) {
      TilesHere(ord, a, i, reports);
    } else if NonOption(a[i]) {
      var go := ord == Permute && first;
      SpansTile(cfg, ord, a, i + 1, go);
      TilesGrow(ord, a, Span(i, 1), Spans(cfg, ord, a, i + 1, go), reports, Scan(cfg, ord, a, i + 1, go).reports);
    } else {
      var next := Opening(cfg, a[i]);
      var w := Width(cfg, a, i, next, first);
      SpansTile(cfg, ord, a, i + w, false);
      ClusterTakes(cfg, ord, a, i, next, first);
      TilesGrow(ord, a, Span(i, w), Spans(cfg, ord, a, i + w, false), reports, Scan(cfg, ord, a, i + w, false).reports);
    }
  }

  lemma TilesHere(ord: Ordering, a: seq<string>, i: nat, reports: seq<Outcome>)
    requires i <= |a| && (i < |a| ==> Stops(ord, a[i]))
    ensures Tiles(ord, a, i, if i == |a| then [] else [Span(i, 1)], reports)
  {
  }
}

/** What a scan of the command line should yield, defined on the original argument
    vector alone: no permutation, no cursor between calls. */
module GetoptSpec {
  import opened Common

  datatype Ordering = RequireOrder | Permute | ReturnInOrder

  /** A row of the long-option table; `flag` names the variable to set, 0 for none;
      hasArg is 0 for no argument, 1 for a required one, 2 for an optional one. */
  datatype LongOpt = LongOpt(name: string, hasArg: nat, flag: nat, val: int)

  datatype Config = Config(optstring: string, long: Option<seq<LongOpt>>, longOnly: bool)
  {
    /** The letter W, as the decoder finds it, is not followed by ';', whose branch is not modelled. */
    predicate NoW() { 'W' in optstring ==> !CharAt(optstring, Position(optstring, 'W') + 1, ';') }

    /** No option is reported as -1, which would read as the end of the scan. */
    predicate NoClash() {
      long.Some? ==> forall k :: 0 <= k < |long.value| ==> long.value[k].flag != 0 || long.value[k].val != -1
    }

    /** The string the decoder consults: the ordering prefix is skipped only by the
        call that initializes the scan. */
    function Letters(first: bool): string {
      if first && optstring != "" && (optstring[0] == '-' || optstring[0] == '+') then optstring[1..]
      else optstring
    }

    function OrderingOf(posix: bool): Ordering {
      if optstring != "" && optstring[0] == '-' then ReturnInOrder
      else if optstring != "" && optstring[0] == '+' then RequireOrder
      else if posix then RequireOrder
      else Permute
    }
  }

  /** What one call reports, the unread characters it leaves in the element, and how
      many elements it finishes: 0 inside a cluster of letters, 2 with a separate argument. */
  datatype Outcome = Outcome(code: int, arg: Option<string>, opt: Option<int>, index: Option<nat>,
                             store: Option<(nat, int)>, rest: string, taken: nat)

  const QUESTION: int := '?' as int
  const COLON: int := ':' as int

  predicate NonOption(elem: string) {
    |elem| < 2 || (elem[0] != '-' && elem[0] != '/')
  }

  // ---- long options -----------------------------------------------------------------

  /** The part of s before the first '='. */
  function Key(s: string): (k: string)
    ensures k <= s && '=' !in k && (|k| < |s| ==> s[|k|] == '=')
  {
    if s == "" || s[0] == '=' then "" else [s[0]] + Key(s[1..])
  }

  predicate Differ(a: LongOpt, b: LongOpt) {
    a.hasArg != b.hasArg || a.flag != b.flag || a.val != b.val
  }

  datatype Lookup = NotFound | Ambiguous | Found(k: nat)

  /** The search from row k on; `best` is the first abbreviated match so far. */
  function Search(long: seq<LongOpt>, key: string, only: bool, k: nat, best: Option<nat>, ambig: bool): Lookup
    requires k <= |long| && (best.Some? ==> best.value < |long|)
    decreases |long| - k
  {
    if k == |long| then
      if ambig then Ambiguous else if best.Some? then Found(best.value) else NotFound
    else if !(key <= long[k].name) then Search(long, key, only, k + 1, best, ambig)
    else if key == long[k].name then Found(k)
    else if best.None? then Search(long, key, only, k + 1, Some(k), ambig)
    else Search(long, key, only, k + 1, best, ambig || only || Differ(long[best.value], long[k]))
  }

  function FindLong(long: seq<LongOpt>, key: string, only: bool): Lookup {
    Search(long, key, only, 0, None, false)
  }

  ghost predicate FirstExact(long: seq<LongOpt>, key: string, k: nat) {
    && k < |long| && long[k].name == key
    && forall j :: 0 <= j < k ==> long[j].name != key
  }

  ghost predicate FirstPrefix(long: seq<LongOpt>, key: string, k: nat) {
    && k < |long| && key <= long[k].name
    && forall j :: 0 <= j < k ==> !(key <= long[j].name)
  }

  ghost predicate Rival(long: seq<LongOpt>, key: string, only: bool, k: nat, j: nat)
    requires k < |long|
  {
    k < j < |long| && key <= long[j].name && (only || Differ(long[k], long[j]))
  }

  /** The meaning of a look-up: the first row whose name is the key; failing that, the
      first row the key abbreviates, provided no later such row differs from it (or,
      with long-only options, exists). */
  ghost predicate Means(long: seq<LongOpt>, key: string, only: bool, r: Lookup) {
    if exists k :: 0 <= k < |long| && long[k].name == key then
      r.Found? && FirstExact(long, key, r.k)
    else if exists k :: 0 <= k < |long| && key <= long[k].name then
      exists k :: FirstPrefix(long, key, k)
        && r == if exists j: nat :: Rival(long, key, only, k, j) then Ambiguous else Found(k)
    else
      r == NotFound
  }

  lemma {:induction false} SearchMeans(long: seq<LongOpt>, key: string, only: bool, k: nat,
                                       best: Option<nat>, ambig: bool)
    requires k <= |long|
    requires forall j :: 0 <= j < k ==> long[j].name != key
    requires best.None? ==> !ambig && forall j :: 0 <= j < k ==> !(key <= long[j].name)
    requires best.Some? ==> best.value < k && FirstPrefix(long, key, best.value)
    requires best.Some? ==> (ambig <==> exists j: nat :: j < k && Rival(long, key, only, best.value, j))
    ensures Means(long, key, only, Search(long, key, only, k, best, ambig))
    decreases |long| - k
  {
    if k == |long| {
      if best.Some? {
        assert key <= long[best.value].name;
        assert FirstPrefix(long, key, best.value);
      }
    } else if !(key <= long[k].name) {
      assert long[k].name != key;
      SearchMeans(long, key, only, k + 1, best, ambig);
    } else if key == long[k].name {
      assert FirstExact(long, key, k);
    } else if best.None? {
      assert FirstPrefix(long, key, k);
      SearchMeans(long, key, only, k + 1, Some(k), ambig);
    } else {
      var ambig' := ambig || only || Differ(long[best.value], long[k]);
      if ambig' && !ambig { assert Rival(long, key, only, best.value, k); }
      SearchMeans(long, key, only, k + 1, best, ambig');
    }
  }

  /** The one-pass search finds what it should. */
  lemma FindLongMeans(long: seq<LongOpt>, key: string, only: bool)
    ensures Means(long, key, only, FindLong(long, key, only))
  {
    SearchMeans(long, key, only, 0, None, false);
  }

  // ---- one call ------------------------------------------------------------------------

  function MissingCode(opts: string): int {
    if opts != "" && opts[0] == ':' then COLON else QUESTION
  }

  function Success(p: LongOpt, k: nat, arg: Option<string>, taken: nat): Outcome {
    if p.flag != 0 then Outcome(0, arg, None, Some(k), Some((p.flag, p.val)), "", taken)
    else Outcome(p.val, arg, None, Some(k), None, "", taken)
  }

  function Position(s: string, c: char): (k: nat)
    requires c in s
    ensures k < |s| && s[k] == c && c !in s[..k]
  {
    if s[0] == c then 0 else 1 + Position(s[1..], c)
  }

  predicate CharAt(s: string, k: nat, c: char) { k < |s| && s[k] == c }

  /** The unread characters allow a step: letters are left, or a long name stands here. */
  predicate Decodable(cfg: Config, elem: string, next: string) {
    |elem| >= 2 && (next != "" || (cfg.long.Some? && elem[1] == '-'))
  }

  function DecodeShort(opts: string, next: string, following: Option<string>): Outcome
    requires next != ""
  {
    var c, rest := next[0], next[1..];
    var ends := if rest == "" then 1 else 0;
    if c !in opts || c == ':' then
      Outcome(QUESTION, None, Some(c as int), None, None, rest, ends)
    else
      var k := Position(opts, c);
      if !CharAt(opts, k + 1, ':') then Outcome(c as int, None, None, None, None, rest, ends)
      else if rest != "" then Outcome(c as int, Some(rest), None, None, None, "", 1)
      else if CharAt(opts, k + 2, ':') then Outcome(c as int, None, None, None, None, "", 1)
      else if following.Some? then Outcome(c as int, following, None, None, None, "", 2)
      else Outcome(MissingCode(opts), None, Some(c as int), None, None, "", 1)
  }

  function DecodeLong(cfg: Config, opts: string, elem: string, next: string, following: Option<string>): Outcome
    requires cfg.long.Some? && Decodable(cfg, elem, next)
  {
    var key := Key(next);
    match FindLong(cfg.long.value, key, cfg.longOnly)
    case Ambiguous => Outcome(QUESTION, None, Some(0), None, None, "", 1)
    case Found(k) =>
      (assert k < |cfg.long.value| by { FindLongMeans(cfg.long.value, key, cfg.longOnly); }
       var p := cfg.long.value[k];
       if |key| < |next| then
         if p.hasArg != 0 then Success(p, k, Some(next[|key| + 1..]), 1)
         else Outcome(QUESTION, None, Some(p.val), None, None, "", 1)
       else if p.hasArg != 1 then Success(p, k, None, 1)
       else if following.Some? then Success(p, k, following, 2)
       else Outcome(MissingCode(opts), None, Some(p.val), None, None, "", 1))
    case NotFound =>
      if !cfg.longOnly || elem[1] == '-' || next[0] !in opts then
        Outcome(QUESTION, None, Some(0), None, None, "", 1)
      else DecodeShort(opts, next, following)
  }

  /** Decode the option element elem, of which next is unread. */
  function Decode(cfg: Config, opts: string, elem: string, next: string, following: Option<string>): Outcome
    requires Decodable(cfg, elem, next)
  {
    if cfg.long.Some? && (elem[1] == '-' || (cfg.longOnly && (|elem| > 2 || elem[1] !in opts)))
    then DecodeLong(cfg, opts, elem, next, following)
    else DecodeShort(opts, next, following)
  }

  /** A call either leaves letters of the element unread, fewer than before, or
      finishes the element, and then at most the next one with it. */
  lemma DecodeProgress(cfg: Config, opts: string, elem: string, next: string, following: Option<string>)
    requires Decodable(cfg, elem, next)
    ensures var d := Decode(cfg, opts, elem, next, following);
      && (d.taken == 0 ==> d.rest != "" && |d.rest| < |next|)
      && (d.taken >= 1 ==> d.rest == "")
      && d.taken <= if following.Some? then 2 else 1
  {
  }

  /** A row found by name is the only way a code of -1 could arise. */
  lemma DecodeCode(cfg: Config, opts: string, elem: string, next: string, following: Option<string>)
    requires Decodable(cfg, elem, next) && cfg.NoClash()
    ensures Decode(cfg, opts, elem, next, following).code != -1
  {
    if cfg.long.Some? { FindLongMeans(cfg.long.value, Key(next), cfg.longOnly); }
  }

  // ---- the whole vector -------------------------------------------------------------------

  /** What a whole scan yields: the reports in order, and which elements are options or
      arguments they consumed. */
  datatype Plan = Plan(reports: seq<Outcome>, mask: seq<bool>)

  function Fill(v: bool, n: nat): (m: seq<bool>)
    ensures |m| == n && forall k :: 0 <= k < n ==> m[k] == v
  {
    seq(n, _ => v)
  }

  function Following(a: seq<string>, i: nat): Option<string> {
    if i + 1 < |a| then Some(a[i + 1]) else None
  }

  /** The unread part of an option element when the scan reaches it. */
  function Opening(cfg: Config, elem: string): (next: string)
    requires !NonOption(elem)
    ensures Decodable(cfg, elem, next) && |next| < |elem|
  {
    if cfg.long.Some? && elem[1] == '-' then elem[2..] else elem[1..]
  }

  function Scan(cfg: Config, ord: Ordering, a: seq<string>, i: nat, first: bool): (p: Plan)
    requires i <= |a|
    ensures |p.mask| == |a| - i
    decreases |a| - i, 1, 0
  {
    if i == |a| then Plan([], [])
    else if a[i] == "--" then Plan([], [true] + Fill(false, |a| - i - 1))
    else if !NonOption(a[i]) then Cluster(cfg, ord, a, i, Opening(cfg, a[i]), first)
    else if ord == RequireOrder then Plan([], Fill(false, |a| - i))
    else if ord == Permute then
      var p := Scan(cfg, ord, a, i + 1, first);
      Plan(p.reports, [false] + p.mask)
    else
      var p := Scan(cfg, ord, a, i + 1, false);
      Plan([Outcome(1, Some(a[i]), None, None, None, "", 1)] + p.reports, [true] + p.mask)
  }

  function Cluster(cfg: Config, ord: Ordering, a: seq<string>, i: nat, next: string, first: bool): (p: Plan)
    requires i < |a| && Decodable(cfg, a[i], next)
    ensures |p.mask| == |a| - i
    decreases |a| - i, 0, |next|
  {
    var d := Decode(cfg, cfg.Letters(first), a[i], next, Following(a, i));
    DecodeProgress(cfg, cfg.Letters(first), a[i], next, Following(a, i));
    if d.taken == 0 then
      var p := Cluster(cfg, ord, a, i, d.rest, false);
      Plan([d] + p.reports, p.mask)
    else
      var p := Scan(cfg, ord, a, i + d.taken, false);
      Plan([d] + p.reports, Fill(true, d.taken) + p.mask)
  }

  /** The elements of a whose mark is v, in order. */
  function Pick(a: seq<string>, m: seq<bool>, v: bool): seq<string>
    requires |a| == |m|
  {
    if a == [] then [] else (if m[0] == v then [a[0]] else []) + Pick(a[1..], m[1..], v)
  }

  lemma {:induction false} PickConcat(a: seq<string>, b: seq<string>, m: seq<bool>, n: seq<bool>, v: bool)
    requires |a| == |m| && |b| == |n|
    ensures Pick(a + b, m + n, v) == Pick(a, m, v) + Pick(b, n, v)
  {
    if a == [] {
      assert a + b == b && m + n == n;
    } else {
      assert (a + b)[1..] == a[1..] + b && (m + n)[1..] == m[1..] + n;
      PickConcat(a[1..], b, m[1..], n, v);
    }
  }

  lemma {:induction false} PickAll(a: seq<string>, m: seq<bool>, v: bool)
    requires |a| == |m| && forall k :: 0 <= k < |m| ==> m[k] == v
    ensures Pick(a, m, v) == a && Pick(a, m, !v) == []
  {
    if a != [] { PickAll(a[1..], m[1..], v); }
  }

  /** A stable partition: marked elements first, in order, then the others, in order. */
  function Partition(a: seq<string>, m: seq<bool>): seq<string>
    requires |a| == |m|
  {
    Pick(a, m, true) + Pick(a, m, false)
  }

  /** Position of element k in the partition. */
  function Rank(m: seq<bool>, k: nat): (r: nat)
    requires k < |m|
  {
    if m[k] then Count(m[..k], true) else Count(m, true) + Count(m[..k], false)
  }

  function Count(m: seq<bool>, v: bool): nat {
    if m == [] then 0 else (if m[0] == v then 1 else 0) + Count(m[1..], v)
  }

  lemma {:induction false} PickAt(a: seq<string>, m: seq<bool>, k: nat)
    requires |a| == |m| && k < |m|
    ensures |Pick(a, m, m[k])| == Count(m, m[k])
    ensures Count(m[..k], m[k]) < Count(m, m[k]) && Pick(a, m, m[k])[Count(m[..k], m[k])] == a[k]
  {
    PickLength(a, m, m[k]);
    if k > 0 {
      PickAt(a[1..], m[1..], k - 1);
      assert m[..k][1..] == m[1..][..k - 1];
    }
  }

  lemma {:induction false} PickLength(a: seq<string>, m: seq<bool>, v: bool)
    requires |a| == |m|
    ensures |Pick(a, m, v)| == Count(m, v)
  {
    if a != [] { PickLength(a[1..], m[1..], v); }
  }

  lemma {:induction false} CountSplits(m: seq<bool>)
    ensures Count(m, true) + Count(m, false) == |m|
  {
    if m != [] { CountSplits(m[1..]); }
  }

  lemma {:induction false} CountMonotone(m: seq<bool>, j: nat, k: nat, v: bool)
    requires j < k <= |m|
    ensures Count(m[..j], v) + (if m[j] == v then 1 else 0) <= Count(m[..k], v) <= Count(m, v)
  {
    if j == 0 {
      CountPrefix(m[1..], k - 1, v);
      assert m[..k][1..] == m[1..][..k - 1];
    } else {
      CountMonotone(m[1..], j - 1, k - 1, v);
      assert m[..k][1..] == m[1..][..k - 1] && m[..j][1..] == m[1..][..j - 1];
    }
  }

  lemma {:induction false} CountPrefix(m: seq<bool>, k: nat, v: bool)
    requires k <= |m|
    ensures Count(m[..k], v) <= Count(m, v)
  {
    if k > 0 {
      CountPrefix(m[1..], k - 1, v);
      assert m[..k][1..] == m[1..][..k - 1];
    }
  }

  /** The partition is a rearrangement: element k goes to place Rank(m, k), marked ones
      before unmarked ones, and the order among equals is kept. */
  lemma PartitionStable(a: seq<string>, m: seq<bool>, j: nat, k: nat)
    requires |a| == |m| && j < k < |m|
    ensures |Partition(a, m)| == |a|
    ensures Rank(m, j) < |a| && Partition(a, m)[Rank(m, j)] == a[j]
    ensures Rank(m, k) < |a| && Partition(a, m)[Rank(m, k)] == a[k]
    ensures Rank(m, j) < Rank(m, k) <==> m[j] || !m[k]
    ensures Rank(m, j) != Rank(m, k)
    ensures m[k] <==> Rank(m, k) < Count(m, true)
  {
    PickLength(a, m, true);
    PickLength(a, m, false);
    CountSplits(m);
    PickAt(a, m, j);
    PickAt(a, m, k);
    CountMonotone(m, j, k, m[j]);
    CountMonotone(m, j, k, m[k]);
  }
}

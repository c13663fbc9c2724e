/** The resumable scanner: argv is permuted in place, and the cursor survives
    between calls in the fields of the object. */
module GetoptScan {
  import opened GetoptSpec

  // ---- exchange ------------------------------------------------------------------------

  /** The adjacent segments [b, m) and [m, t) of a, the second moved before the first. */
  function Rotated(a: seq<string>, b: nat, m: nat, t: nat): (r: seq<string>)
    requires b <= m <= t <= |a|
    ensures |r| == |a|
  {
    a[..b] + a[m..t] + a[b..m] + a[t..]
  }

  /** The runs of length len at x and y swapped. */
  predicate Swapped(before: seq<string>, after: seq<string>, x: nat, y: nat, len: nat) {
    && |after| == |before| && x + len <= y && y + len <= |before|
    && after[..x] == before[..x] && after[x..x + len] == before[y..y + len]
    && after[x + len..y] == before[x + len..y]
    && after[y..y + len] == before[x..x + len] && after[y + len..] == before[y + len..]
  }

  /** Element k after the first i pairs have been swapped. */
  function SwappedAt(before: seq<string>, x: nat, y: nat, i: nat, k: nat): string
    requires x <= y && y + i <= |before| && k < |before|
  {
    if x <= k < x + i then before[k + (y - x)]
    else if y <= k < y + i then before[k - (y - x)]
    else before[k]
  }

  lemma AllSwapped(before: seq<string>, after: seq<string>, x: nat, y: nat, len: nat)
    requires |after| == |before| && x + len <= y && y + len <= |before|
    requires forall k :: 0 <= k < |before| ==> after[k] == SwappedAt(before, x, y, len, k)
    ensures Swapped(before, after, x, y, len)
  {
  }

  method SwapRuns(argv: array<string>, x: nat, y: nat, len: nat)
    requires x + len <= y && y + len <= argv.Length
    modifies argv
    ensures Swapped(old(argv[..]), argv[..], x, y, len)
  {
    hide Swapped;
    ghost var before := argv[..];
    var i := 0;
    while i < len
      invariant 0 <= i <= len
      invariant forall k :: 0 <= k < argv.Length ==> argv[k] == SwappedAt(before, x, y, i, k)
    {
      var tem := argv[x + i];
      argv[x + i] := argv[y + i];
      argv[y + i] := tem;
      i := i + 1;
    }
    AllSwapped(before, argv[..], x, y, len);
  }

  /** What is left to do: the middle of cur, rotated once more, is the middle of the goal. */
  ghost predicate HalfRotated(cur: seq<string>, goal: seq<string>, b: nat, m: nat, t: nat) {
    && |cur| == |goal| && b <= m <= t <= |cur|
    && cur[..b] == goal[..b] && cur[t..] == goal[t..]
    && cur[m..t] + cur[b..m] == goal[b..t]
  }

  /** The short bottom run goes to the far end of the top. */
  lemma BottomMoved(cur: seq<string>, next: seq<string>, goal: seq<string>, b: nat, m: nat, t: nat)
    requires HalfRotated(cur, goal, b, m, t) && t - m > m - b > 0
    requires Swapped(cur, next, b, t - (m - b), m - b)
    ensures HalfRotated(next, goal, b, m, t - (m - b))
  {
    var len := m - b;
    assert next[..b] == cur[..b] && next[t..] == cur[t..];
    assert next[b..m] == cur[t - len..t] && next[t - len..t] == cur[b..m] && next[m..t - len] == cur[m..t - len];
    assert goal[b..t] == cur[m..t - len] + cur[t - len..t] + cur[b..m];
    assert goal[b..t - len] == goal[b..t][..t - len - b];
    assert goal[t - len..] == goal[b..t][t - len - b..] + goal[t..];
    assert next[t - len..] == next[t - len..t] + next[t..];
  }

  /** The short top run goes to the bottom. */
  lemma TopMoved(cur: seq<string>, next: seq<string>, goal: seq<string>, b: nat, m: nat, t: nat)
    requires HalfRotated(cur, goal, b, m, t) && 0 < t - m <= m - b
    requires Swapped(cur, next, b, m, t - m)
    ensures HalfRotated(next, goal, b + (t - m), m, t)
  {
    var len := t - m;
    assert next[..b] == cur[..b] && next[t..] == cur[t..];
    assert next[b..b + len] == cur[m..t] && next[m..t] == cur[b..b + len] && next[b + len..m] == cur[b + len..m];
    assert goal[b..t] == cur[m..t] + (cur[b..b + len] + cur[b + len..m]) by {
      assert cur[b..m] == cur[b..b + len] + cur[b + len..m];
    }
    assert goal[b + len..t] == goal[b..t][len..];
    assert goal[..b + len] == goal[..b] + goal[b..t][..len];
    assert next[..b + len] == next[..b] + next[b..b + len];
  }

  lemma RotationStarts(cur: seq<string>, b: nat, m: nat, t: nat)
    requires b <= m <= t <= |cur|
    ensures HalfRotated(cur, Rotated(cur, b, m, t), b, m, t)
  {
    var goal := Rotated(cur, b, m, t);
    assert goal[b..t] == cur[m..t] + cur[b..m];
  }

  lemma RotationEnds(cur: seq<string>, goal: seq<string>, b: nat, m: nat, t: nat)
    requires HalfRotated(cur, goal, b, m, t) && (b == m || m == t)
    ensures cur == goal
  {
    assert cur == cur[..b] + cur[b..t] + cur[t..];
    assert goal == goal[..b] + goal[b..t] + goal[t..];
    assert cur[b..t] == cur[m..t] + cur[b..m];
  }

  /** The segments [bottom, middle) and [middle, top) of argv change places. */
  method Rotate(argv: array<string>, first: nat, middle: nat, end: nat)
    requires first <= middle <= end <= argv.Length
    modifies argv
    ensures argv[..] == Rotated(old(argv[..]), first, middle, end)
  {
    hide Swapped, HalfRotated, Rotated;
    var bottom: nat, top: nat := first, end;
    ghost var goal := Rotated(argv[..], bottom, middle, top);
    RotationStarts(argv[..], bottom, middle, top);
    while top > middle && middle > bottom
      invariant bottom <= middle <= top <= argv.Length
      invariant HalfRotated(argv[..], goal, bottom, middle, top)
      decreases top - bottom
    {
      ghost var cur := argv[..];
      if top - middle > middle - bottom {
        var len := middle - bottom;
        SwapRuns(argv, bottom, top - (middle - bottom), len);
        BottomMoved(cur, argv[..], goal, bottom, middle, top);
        top := top - len;
      } else {
        var len := top - middle;
        SwapRuns(argv, bottom, middle, len);
        TopMoved(cur, argv[..], goal, bottom, middle, top);
        bottom := bottom + len;
      }
    }
    RotationEnds(argv[..], goal, bottom, middle, top);
  }

  // ---- where the scan stands -----------------------------------------------------------

  /** After p elements: the skipped non-options, in order, sit at [f, l), the options
      seen so far, in order, around them; nothing else of the vector has moved. */
  ghost predicate Layout(cur: seq<string>, a: seq<string>, s: nat, done: seq<bool>, f: nat, l: nat, p: nat) {
    && |cur| == |a| && s <= f <= l <= p <= |a| && |done| == p - s
    && cur[..s] == a[..s] && cur[p..] == a[p..]
    && cur[f..l] == Pick(a[s..p], done, false)
    && cur[s..f] + cur[l..p] == Pick(a[s..p], done, true)
  }

  lemma LayoutExchange(cur: seq<string>, a: seq<string>, s: nat, done: seq<bool>, f: nat, l: nat, p: nat)
    requires Layout(cur, a, s, done, f, l, p)
    ensures Layout(Rotated(cur, f, l, p), a, s, done, f + (p - l), p, p)
  {
    var next := Rotated(cur, f, l, p);
    var g := f + (p - l);
    assert next[..s] == cur[..s] && next[p..] == cur[p..];
    assert next[g..p] == cur[f..l];
    assert next[s..g] + next[p..p] == cur[s..f] + cur[l..p];
  }

  lemma LayoutCollapse(cur: seq<string>, a: seq<string>, s: nat, done: seq<bool>, f: nat, p: nat)
    requires Layout(cur, a, s, done, f, f, p)
    ensures Layout(cur, a, s, done, p, p, p)
  {
    assert cur[s..p] + cur[p..p] == cur[s..f] + cur[f..p];
    assert cur[p..p] == cur[f..f];
  }

  lemma Suffix(cur: seq<string>, a: seq<string>, p: nat, q: nat)
    requires |cur| == |a| && p <= q <= |a| && cur[p..] == a[p..]
    ensures cur[p..q] == a[p..q] && cur[q..] == a[q..]
  {
    assert cur[p..q] == cur[p..][..q - p];
    assert a[p..q] == a[p..][..q - p];
    assert cur[q..] == cur[p..][q - p..];
    assert a[q..] == a[p..][q - p..];
  }

  lemma LayoutSkip(cur: seq<string>, a: seq<string>, s: nat, done: seq<bool>, f: nat, p: nat, more: seq<bool>)
    requires Layout(cur, a, s, done, f, p, p) && p + |more| <= |a|
    requires forall k :: 0 <= k < |more| ==> !more[k]
    ensures Layout(cur, a, s, done + more, f, p + |more|, p + |more|)
  {
    hide Pick;
    var q := p + |more|;
    Suffix(cur, a, p, q);
    PickMore(a, s, p, done, more);
    PickAll(a[p..q], more, false);
    assert cur[f..q] == cur[f..p] + cur[p..q];
    assert cur[s..f] + cur[q..q] == cur[s..f] + cur[p..p];
    assert Pick(a[s..p], done, true) + [] == Pick(a[s..p], done, true);
  }

  lemma LayoutTake(cur: seq<string>, a: seq<string>, s: nat, done: seq<bool>, f: nat, l: nat, p: nat, t: nat)
    requires Layout(cur, a, s, done, f, l, p) && p + t <= |a|
    ensures Layout(cur, a, s, done + Fill(true, t), f, l, p + t)
  {
    hide Pick;
    var q := p + t;
    Suffix(cur, a, p, q);
    PickMore(a, s, p, done, Fill(true, t));
    PickAll(a[p..q], Fill(true, t), true);
    assert cur[l..q] == cur[l..p] + cur[p..q];
    assert cur[s..f] + cur[l..q] == (cur[s..f] + cur[l..p]) + cur[p..q];
    assert Pick(a[s..p], done, false) + [] == Pick(a[s..p], done, false);
  }

  lemma PickMore(a: seq<string>, s: nat, p: nat, done: seq<bool>, more: seq<bool>)
    requires s <= p && p + |more| <= |a| && |done| == p - s
    ensures forall v :: Pick(a[s..p + |more|], done + more, v)
                        == Pick(a[s..p], done, v) + Pick(a[p..p + |more|], more, v)
  {
    forall v
      ensures Pick(a[s..p + |more|], done + more, v) == Pick(a[s..p], done, v) + Pick(a[p..p + |more|], more, v)
    {
      assert a[s..p + |more|] == a[s..p] + a[p..p + |more|];
      PickConcat(a[s..p], a[p..p + |more|], done, more, v);
    }
  }

  /** The scan is over: options and consumed arguments first, then the rest. */
  ghost predicate Settled(cur: seq<string>, a: seq<string>, s: nat, mask: seq<bool>, boundary: nat) {
    && s <= |a| == |cur| && |mask| == |a| - s
    && cur == a[..s] + Partition(a[s..], mask)
    && boundary == s + |Pick(a[s..], mask, true)|
  }

  lemma LayoutSettles(cur: seq<string>, a: seq<string>, s: nat, done: seq<bool>, f: nat)
    requires Layout(cur, a, s, done, f, |a|, |a|)
    ensures Settled(cur, a, s, done, f)
  {
    assert a[s..|a|] == a[s..];
    assert cur[s..f] + cur[|a|..|a|] == cur[s..f];
    assert cur == cur[..s] + cur[s..f] + cur[f..];
    assert cur[f..|a|] == cur[f..];
  }

  /** Elements and characters still to be read, plus one for each element. */
  function Weight(a: seq<string>, i: nat): nat
    decreases |a| - i
  {
    if i >= |a| then 0 else |a[i]| + 1 + Weight(a, i + 1)
  }

  lemma {:induction false} WeightDrops(a: seq<string>, i: nat, j: nat)
    requires i <= j
    ensures Weight(a, j) <= Weight(a, i)
    ensures i < j && i < |a| ==> Weight(a, j) + |a[i]| < Weight(a, i)
    decreases j - i
  {
    if i < j { WeightDrops(a, i + 1, j); }
  }
}

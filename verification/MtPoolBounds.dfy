/** Counting arguments: blocks never overlap, there are fewer than half a word
    range of them, and a release never returns more blocks than it has. */
module MtPoolBounds {
  import opened BinMap
  import opened Common
  import opened MtPool
  import opened MtPoolInv
  import opened MtPoolChunk

  /** Two blocks of one chunk. */
  lemma SameChunkApart(base: Addr, size: nat, j: nat, k: nat)
    requires base + j * size < base + k * size
    ensures base + j * size + size <= base + k * size
  {
    if k <= j { MulMonotone(k, j, size); }
    MulMonotone(j + 1, k, size);
    assert (j + 1) * size == j * size + size;
  }

  /** Distinct blocks do not overlap, header and payload together. */
  lemma BlocksApart(cfg: Tune, chunks: map<Addr, nat>, home: map<Addr, Home>, a: Addr, a': Addr)
    requires cfg.Valid() && HomesOk(cfg, chunks, home) && ChunksOk(cfg, chunks)
    requires a in home && a' in home && a < a'
    ensures a + cfg.BlockSize(home[a].bin) <= a'
  {
    var h, h' := home[a], home[a'];
    assert HomeOk(cfg, chunks, a, h) && HomeOk(cfg, chunks, a', h');
    if h.base == h'.base {
      SameChunkApart(h.base, cfg.BlockSize(h.bin), h.index, h'.index);
    } else {
      HomeInChunk(cfg, chunks, a, h);
      HomeInChunk(cfg, chunks, a', h');
    }
  }

  /** Numbers from 1 to 2m with a gap between any two are at most m. */
  lemma {:induction false} Sparse(s: set<nat>, m: nat)
    requires forall a :: a in s ==> 1 <= a <= 2 * m
    requires forall a :: a in s ==> a + 1 !in s
    ensures |s| <= m
    decreases m
  {
    if m == 0 {
      assert s == {};
    } else {
      var r := s - {2 * m, 2 * m - 1};
      Sparse(r, m - 1);
      if 2 * m in s {
        assert 2 * m - 1 !in s by { assert 2 * m - 1 + 1 == 2 * m; }
        assert s == r + {2 * m};
      } else if 2 * m - 1 in s {
        assert s == r + {2 * m - 1};
      } else {
        assert s == r;
      }
    }
  }

  lemma FewBlocks(cfg: Tune, chunks: map<Addr, nat>, home: map<Addr, Home>, s: set<Addr>)
    requires cfg.Valid() && HomesOk(cfg, chunks, home) && ChunksOk(cfg, chunks)
    requires forall a :: a in s ==> a in home
    ensures |s| < cfg.half
  {
    forall a | a in s ensures 1 <= a <= 2 * (cfg.half - 1) && a + 1 !in s {
      assert HomeOk(cfg, chunks, a, home[a]);
      HomeInChunk(cfg, chunks, a, home[a]);
      BlockSizeTwo(cfg, home[a].bin);
      if a + 1 in home { BlocksApart(cfg, chunks, home, a, a + 1); }
    }
    Sparse(s, cfg.half - 1);
  }

  lemma BlockSizeTwo(cfg: Tune, b: nat)
    requires cfg.Valid()
    ensures cfg.BlockSize(b) >= 2
  {
    SizeDoubles(cfg.minBin, b);
  }

  ghost function Elements(l: seq<Addr>): set<Addr> { set a | a in l }

  lemma DistinctSize(l: seq<Addr>)
    requires Distinct(l)
    ensures |Elements(l)| == |l|
  {
    ListedSize(l);
  }

  // ---- the return decision ----------------------------------------------------------

  lemma SignedAtMost(x: int, half: nat)
    requires half >= 1 && 0 < x + half
    ensures Signed(x, half) <= x
    ensures 0 <= x < half || x < 0 ==> Signed(x, half) == x
  {
    if x < 0 {
      assert x % (2 * half) == x + 2 * half by { ModUp(x, 2 * half); }
    } else {
      ModSmall(x, 2 * half);
    }
  }

  lemma ModUp(x: int, m: nat)
    requires x < 0 <= x + m
    ensures x % m == x + m
  {
  }

  lemma ModSmall(x: nat, m: nat)
    requires m >= 1
    ensures 0 <= x % m <= x && (x < m ==> x % m == x)
  {
  }

  lemma ThresholdRange(cfg: Tune, bin: nat)
    requires cfg.Valid() && bin < cfg.Bins()
    ensures 100 * cfg.headroom <= Threshold(cfg.Bins() - bin, cfg.headroom) < cfg.half
  {
    var h := cfg.headroom;
    MulMonotone(1, cfg.Bins() - bin, h);
    MulMonotone(cfg.Bins() - bin, cfg.Bins(), h);
    assert Threshold(cfg.Bins() - bin, h) == 100 * ((cfg.Bins() - bin) * h);
    assert Threshold(cfg.Bins(), h) == 100 * (cfg.Bins() * h);
  }

  lemma QuotientBounds(r: int, h: nat, free: nat)
    requires h >= 1 && h <= r <= free * h
    ensures 1 <= r / h <= free
  {
    if r / h > free { MulMonotone(free + 1, r / h, h); }
  }

  /** When a release returns blocks, it returns at least one and no more than its
      list holds, whatever the headroom; in particular it never divides by zero. */
  lemma SurplusBounds(cfg: Tune, free: nat, used: nat, bin: nat)
    requires cfg.Valid() && bin < cfg.Bins() && free < cfg.half && used < cfg.half
    requires ReturnsBlocks(cfg, free, used, bin)
    ensures cfg.headroom >= 1 && 1 <= Removed(cfg, free, used) <= free
  {
    var h := cfg.headroom;
    ThresholdRange(cfg, bin);
    SignedAtMost(Threshold(cfg.Bins() - bin, h), cfg.half);
    assert free * h >= 0 by { MulMonotone(0, free, h); }
    SignedAtMost(free * h - used, cfg.half);
    var r := Surplus(cfg, free, used);
    assert r > 100 * h;
    if h != 0 { QuotientBounds(r, h, free); }
  }

  /** The surplus in plain integers exceeds the headroom threshold and the list itself. */
  predicate PlainReturn(cfg: Tune, free: int, used: int, bin: int)
    requires cfg.minBin >= 1
  {
    && free * cfg.headroom - used > 100 * (cfg.Bins() - bin) * cfg.headroom
    && free * cfg.headroom - used > free
  }

  /** What is kept, times the headroom, covers the used blocks; with one block less it would not. */
  predicate KeepsFewest(headroom: nat, free: int, used: int, removed: int) {
    used <= headroom * (free - removed) < used + headroom
  }

  lemma SignedFar(x: int, half: nat)
    requires half >= 1 && x >= half
    ensures Signed(x, half) <= x - 2 * half
  {
    var m := 2 * half;
    var q := x / m;
    assert x == m * q + x % m;
    if x % m < half { MulMonotone(1, q, m); }
  }

  lemma QuotientKeeps(free: int, used: int, h: nat, x: int)
    requires h >= 1 && x == free * h - used
    ensures KeepsFewest(h, free, used, x / h)
  {
    var q := x / h;
    assert x == h * q + x % h;
    assert h * (free - q) == h * free - h * q;
  }

  /** As long as the surplus is a signed word, blocks go back exactly when it exceeds the
      threshold and the list, and then the fewest blocks that cover the used ones stay;
      beyond that one or the other is wrong. */
  lemma ReturnExact(cfg: Tune, free: nat, used: nat, bin: nat)
    requires cfg.Valid() && bin < cfg.Bins() && free < cfg.half && used < cfg.half
    ensures free * cfg.headroom - used < cfg.half
       <==> && (ReturnsBlocks(cfg, free, used, bin) <==> PlainReturn(cfg, free, used, bin))
            && (ReturnsBlocks(cfg, free, used, bin) ==>
                  KeepsFewest(cfg.headroom, free, used, Removed(cfg, free, used)))
  {
    hide Size, Which, Largest16, BinCount, Signed;
    var h := cfg.headroom;
    var x := free * h - used;
    ThresholdRange(cfg, bin);
    SignedAtMost(Threshold(cfg.Bins() - bin, h), cfg.half);
    SignedAtMost(free, cfg.half);
    assert free * h >= 0 by { MulMonotone(0, free, h); }
    if x < cfg.half {
      SignedAtMost(x, cfg.half);
      if ReturnsBlocks(cfg, free, used, bin) { QuotientKeeps(free, used, h, x); }
    } else {
      SignedFar(x, cfg.half);
      if ReturnsBlocks(cfg, free, used, bin) {
        var r := Surplus(cfg, free, used);
        QuotientKeeps(free, free * h - r, h, r);
      }
    }
  }

  /** The default tuning with a headroom of 4294967 and 32-bit words: at 501 free blocks of the
      smallest bin and none used the surplus wraps, and nothing goes back. */
  lemma HeadroomOverflows()
    ensures var cfg := Tune(128, 8, 4064, 4096, 4294967, 8, 0x8000_0000);
      cfg.Valid() && PlainReturn(cfg, 501, 0, 0) && !ReturnsBlocks(cfg, 501, 0, 0)
  {
    assert Largest16(8) >= 128 && BinCount(8, 128) == 5 && Size(8, 4) == 128;
  }
}

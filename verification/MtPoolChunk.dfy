/** Carving a new chunk into blocks. */
module MtPoolChunk {
  import opened BinMap
  import opened Common
  import opened MtPool
  import opened MtPoolInv
  import opened MtPoolSteps
  import opened MtPoolMoves
  import opened MtPoolRefill

  // ---- geometry -------------------------------------------------------------------

  lemma ChunkHolds(chunk: nat, size: nat)
    requires size >= 1
    ensures (chunk / size) * size <= chunk
  {
  }

  /** Block k of a chunk lies inside it. */
  lemma BlockInChunk(cfg: Tune, b: nat, k: nat)
    requires cfg.Valid() && k < cfg.BlockCount(b)
    ensures k * cfg.BlockSize(b) + cfg.BlockSize(b) <= cfg.chunkSize
  {
    var size := cfg.BlockSize(b);
    MulMonotone(k + 1, cfg.BlockCount(b), size);
    ChunkHolds(cfg.chunkSize, size);
    assert (k + 1) * size == k * size + size;
  }

  lemma HomeInChunk(cfg: Tune, chunks: map<Addr, nat>, a: Addr, h: Home)
    requires cfg.Valid() && HomeOk(cfg, chunks, a, h)
    ensures h.base <= a && a + cfg.BlockSize(h.bin) <= h.base + cfg.chunkSize
  {
    BlockInChunk(cfg, h.bin, h.index);
  }

  /** The blocks of a chunk, in order. */
  ghost function Blocks(base: Addr, size: nat, count: nat): (l: seq<Addr>)
    ensures |l| == count
    ensures forall k :: 0 <= k < count ==> l[k] == base + k * size
  {
    seq(count, k requires 0 <= k => base + k * size)
  }

  lemma BlocksSpaced(base: Addr, size: nat, count: nat)
    requires size >= 1
    ensures Spaced(Blocks(base, size, count), size)
    ensures Distinct(Blocks(base, size, count))
    ensures count > 0 ==> Blocks(base, size, count)[0] == base
  {
    var l := Blocks(base, size, count);
    forall k | 0 <= k && k + 1 < |l| ensures l[k + 1] == l[k] + size {
      assert (k + 1) * size == k * size + size;
    }
    forall j, k | 0 <= j < k < |l| ensures l[j] != l[k] {
      MulMonotone(j + 1, k, size);
      assert (j + 1) * size == j * size + size;
    }
  }

  ghost function PosOf(l: seq<Addr>, a: Addr): (k: nat)
    requires a in l
    ensures k < |l| && l[k] == a
  {
    var k :| 0 <= k < |l| && l[k] == a; k
  }

  // ---- operator new -----------------------------------------------------------------

  ghost predicate ChunkView(cfg: Tune, c: Shared, g: Aux, i: nat, base: Addr)
    requires cfg.Valid()
  {
    && i < |c.threads| == |g.batch| && c.threads[i].pc.NeedChunk? && c.threads[i].key != 0
    && FreshChunk(cfg, c.chunks, base)
    && AllocOk(cfg, c.threads[i], g.lists)
    && g.batch[i] == [] && g.lists[Slot(c.threads[i].pc.bin, c.threads[i].key)] == []
    && cfg.BlockCount(c.threads[i].pc.bin) >= 1
  }

  ghost function NewBlocks(cfg: Tune, c: Shared, i: nat, base: Addr): seq<Addr>
    requires cfg.Valid() && i < |c.threads| && c.threads[i].pc.NeedChunk?
  {
    Blocks(base, cfg.BlockSize(c.threads[i].pc.bin), cfg.BlockCount(c.threads[i].pc.bin))
  }

  ghost function AfterChunk(cfg: Tune, c: Shared, g: Aux, i: nat, base: Addr): Aux
    requires cfg.Valid() && i < |c.threads| && i < |g.batch| && c.threads[i].pc.NeedChunk?
  {
    var l := NewBlocks(cfg, c, i, base);
    var b := c.threads[i].pc.bin;
    g.(batch := g.batch[i := l],
       place := g.place + map a | a in l :: Batch(i),
       home := g.home + map a | a in l :: Home(base, b, PosOf(l, a)))
  }

  lemma PlacedHaveHomes(cfg: Tune, c: Shared, g: Aux)
    requires cfg.Valid() && PlacesOk(cfg, c, g)
    ensures forall a :: a in g.place ==> a in g.home
  {
    forall a | a in g.place ensures a in g.home {
      assert PlaceOk(cfg, c, g.home, a, g.place[a]);
    }
  }

  lemma OneThread(cfg: Tune, c: Shared, g: Aux, i: nat)
    requires cfg.Valid() && |c.threads| == |g.batch| && ThreadsOk(cfg, c, g) && i < |c.threads|
    ensures ThreadOk(cfg, c, g, i)
  {
  }

  /** No old block has its home inside a chunk handed out only now. */
  lemma NoHomeThere(cfg: Tune, chunks: map<Addr, nat>, home: map<Addr, Home>, base: Addr, a: Addr)
    requires cfg.Valid() && FreshChunk(cfg, chunks, base) && HomesOk(cfg, chunks, home)
    requires base <= a < base + cfg.chunkSize
    ensures a !in home
  {
    if a in home {
      hide Size, Which, Largest16, BinCount, Quotient, Threshold;
      assert HomeOk(cfg, chunks, a, home[a]);
      HomeInChunk(cfg, chunks, a, home[a]);
    }
  }

  lemma NewBlocksAreNew(cfg: Tune, c: Shared, g: Aux, i: nat, base: Addr)
    requires cfg.Valid() && ChunkView(cfg, c, g, i, base) && HomesOk(cfg, c.chunks, g.home)
    requires PlacesOk(cfg, c, g)
    ensures forall a :: a in NewBlocks(cfg, c, i, base) ==> a !in g.home && a !in g.place && a >= base >= 1
  {
    hide Size, Which, Largest16, BinCount, Quotient, Threshold, AllocOk, HomesOk, PlacesOk;
    PlacedHaveHomes(cfg, c, g);
    var b := c.threads[i].pc.bin;
    var l := NewBlocks(cfg, c, i, base);
    forall a | a in l ensures a !in g.home && a >= base {
      BlockInChunk(cfg, b, PosOf(l, a));
      NoHomeThere(cfg, c.chunks, g.home, base, a);
    }
  }

  lemma ChunkHomes(cfg: Tune, c: Shared, g: Aux, i: nat, base: Addr)
    requires cfg.Valid() && ChunkView(cfg, c, g, i, base) && HomesOk(cfg, c.chunks, g.home)
    requires forall a :: a in NewBlocks(cfg, c, i, base) ==> a !in g.home
    ensures HomesOk(cfg, c.chunks[base := c.threads[i].pc.bin], AfterChunk(cfg, c, g, i, base).home)
  {
    hide Filled, Size, Which, Largest16, BinCount, Threshold;
    var b, home := c.threads[i].pc.bin, AfterChunk(cfg, c, g, i, base).home;
    var chunks := c.chunks[base := b];
    var l := NewBlocks(cfg, c, i, base);
    assert base !in c.chunks;
    forall a | a in home ensures HomeOk(cfg, chunks, a, home[a]) {
      if a !in l { assert HomeOk(cfg, c.chunks, a, g.home[a]); }
    }
    forall u | u in chunks ensures Filled(cfg, home, u, chunks[u]) {
      if u == base { ChunkFills(cfg, c, g, i, base); } else { StaysFilled(cfg, g.home, home, u, c.chunks[u]); }
    }
  }

  lemma StaysFilled(cfg: Tune, home: map<Addr, Home>, home': map<Addr, Home>, u: Addr, b: nat)
    requires cfg.Valid() && Filled(cfg, home, u, b)
    requires forall a :: a in home ==> a in home' && home'[a].bin == home[a].bin
    ensures Filled(cfg, home', u, b)
  {
  }

  lemma ChunkFills(cfg: Tune, c: Shared, g: Aux, i: nat, base: Addr)
    requires cfg.Valid() && ChunkView(cfg, c, g, i, base)
    ensures Filled(cfg, AfterChunk(cfg, c, g, i, base).home, base, c.threads[i].pc.bin)
  {
    var home, b := AfterChunk(cfg, c, g, i, base).home, c.threads[i].pc.bin;
    var l := NewBlocks(cfg, c, i, base);
    forall k: nat | k < cfg.BlockCount(b)
      ensures BlockAt(cfg, base, b, k) in home && home[BlockAt(cfg, base, b, k)].bin == b
    {
      assert l[k] == BlockAt(cfg, base, b, k);
    }
  }

  lemma ChunksGrow(cfg: Tune, chunks: map<Addr, nat>, base: Addr, b: nat)
    requires ChunksOk(cfg, chunks) && FreshChunk(cfg, chunks, base)
    ensures ChunksOk(cfg, chunks[base := b])
  {
  }

  lemma ChunkAccount(cfg: Tune, c: Shared, g: Aux, i: nat, base: Addr)
    requires cfg.Valid() && ChunkView(cfg, c, g, i, base)
    requires forall a :: a in NewBlocks(cfg, c, i, base) ==> a !in g.place
    requires ListsOk(cfg, g.lists, g.place) && BatchesOk(|c.threads|, g.batch, g.place)
    ensures var g' := AfterChunk(cfg, c, g, i, base);
      ListsOk(cfg, g'.lists, g'.place) && BatchesOk(|c.threads|, g'.batch, g'.place)
  {
    var g' := AfterChunk(cfg, c, g, i, base);
    forall s | ValidSlot(cfg, s) ensures Members(g.lists[s], g'.place, Listed(s)) {
      assert Members(g.lists[s], g.place, Listed(s));
    }
    BlocksSpaced(base, cfg.BlockSize(c.threads[i].pc.bin), cfg.BlockCount(c.threads[i].pc.bin));
    forall j | 0 <= j < |c.threads|
      ensures Distinct(g'.batch[j]) && Members(g'.batch[j], g'.place, Batch(j))
    {
      assert Members(g.batch[j], g.place, Batch(j));
    }
  }

  /** New blocks join the account as the batch of thread i; no old block notices. */
  lemma PlacesGrow(cfg: Tune, c: Shared, g: Aux, c': Shared, g': Aux, i: nat, b: nat)
    requires cfg.Valid() && PlacesOk(cfg, c, g) && i < |c.threads| == |c'.threads|
    requires c.threads[i].pc.NeedChunk? && c.threads[i].pc.bin == b
    requires c'.threads[i].pc.Carve? && c'.threads[i].pc.bin == b
    requires forall j :: 0 <= j < |c.threads| && j != i ==> c'.threads[j] == c.threads[j]
    requires c'.mem == c.mem && c'.live == c.live
    requires forall a :: a in g.place ==> a in g'.place && g'.place[a] == g.place[a]
    requires forall a :: a in g.home ==> a in g'.home && g'.home[a] == g.home[a]
    requires forall a :: a in g'.place && a !in g.place ==>
               a != 0 && g'.place[a] == Batch(i) && a in g'.home && g'.home[a].bin == b
    requires forall a :: a in g'.home && a !in g.home ==> a in g'.place
    ensures PlacesOk(cfg, c', g')
  {
    hide Size, Which, Largest16, BinCount, Quotient, Threshold;
    forall a | a in g'.place ensures PlaceOk(cfg, c', g'.home, a, g'.place[a]) {
      if a in g.place { assert PlaceOk(cfg, c, g.home, a, g.place[a]); }
    }
    forall a | a in c'.live ensures LiveOk(cfg, c'.live[a], g', a) {
      assert LiveOk(cfg, c.live[a], g, a);
    }
  }

  lemma ChunkPlaces(cfg: Tune, c: Shared, g: Aux, i: nat, base: Addr)
    requires cfg.Valid() && ChunkView(cfg, c, g, i, base) && PlacesOk(cfg, c, g)
    requires forall a :: a in NewBlocks(cfg, c, i, base) ==> a !in g.place && a !in g.home && a >= 1
    ensures PlacesOk(cfg, DoChunk(cfg, c, i, base), AfterChunk(cfg, c, g, i, base))
  {
    hide Size, Which, Largest16, BinCount, Quotient, Threshold, FreshChunk, AllocOk, PlacesOk, NewBlocks;
    PlacesGrow(cfg, c, g, DoChunk(cfg, c, i, base), AfterChunk(cfg, c, g, i, base), i, c.threads[i].pc.bin);
  }

  lemma ChunkUsed(cfg: Tune, c: Shared, g: Aux, i: nat, base: Addr)
    requires cfg.Valid() && ChunkView(cfg, c, g, i, base) && UsedOk(cfg, c, g)
    requires forall a :: a in NewBlocks(cfg, c, i, base) ==> a !in g.place && a !in g.home
    ensures UsedOk(cfg, DoChunk(cfg, c, i, base), AfterChunk(cfg, c, g, i, base))
  {
    var c', g' := DoChunk(cfg, c, i, base), AfterChunk(cfg, c, g, i, base);
    forall s | ValidSlot(cfg, s)
      ensures c'.Used(s) == |Outstanding(c'.mem, g'.place, g'.home, s)|
    {
      assert Outstanding(c'.mem, g'.place, g'.home, s) == Outstanding(c.mem, g.place, g.home, s);
    }
  }

  /** The lists of other threads and the global list are the same in the state after the step. */
  lemma ChunkSlots(cfg: Tune, c: Shared, g: Aux, i: nat, base: Addr, s: Slot)
    requires cfg.Valid() && i < |c.threads| && i < |g.batch| && c.threads[i].pc.NeedChunk?
    requires s.tid != c.threads[i].key
    ensures SameSlot(c, g, DoChunk(cfg, c, i, base), AfterChunk(cfg, c, g, i, base), s)
  {
    hide NewBlocks, Size, Which, Largest16, BinCount, Quotient, Threshold;
  }

  lemma ChunkHands(cfg: Tune, c: Shared, g: Aux, i: nat, base: Addr, a: Addr)
    requires cfg.Valid() && i < |c.threads| && i < |g.batch| && c.threads[i].pc.NeedChunk?
    requires a !in NewBlocks(cfg, c, i, base)
    ensures SameHand(g, AfterChunk(cfg, c, g, i, base), a)
  {
    hide NewBlocks, Size, Which, Largest16, BinCount, Quotient, Threshold;
  }

  lemma ChunkOwn(cfg: Tune, c: Shared, g: Aux, i: nat, base: Addr)
    requires cfg.Valid() && i < |c.threads| == |g.batch| && c.threads[i].pc.NeedChunk?
    requires forall a :: a in NewBlocks(cfg, c, i, base) ==> a !in g.place && a !in g.home
    ensures var c', g' := DoChunk(cfg, c, i, base), AfterChunk(cfg, c, g, i, base);
      |g'.batch| == |c.threads| && OnlyOwn(c, g, c', g', i)
  {
    hide NewBlocks, Size, Which, Largest16, BinCount, Quotient, Threshold, SameSlot, SameHand, Foreign;
    var c', g' := DoChunk(cfg, c, i, base), AfterChunk(cfg, c, g, i, base);
    forall s: Slot | s.tid != c.threads[i].key ensures SameSlot(c, g, c', g', s) {
      ChunkSlots(cfg, c, g, i, base, s);
    }
    forall a | a in g.place ensures SameHand(g, g', a) { ChunkHands(cfg, c, g, i, base, a); }
  }

  /** A thread about to carve the blocks bat, none of which is linked yet. */
  lemma CarveBegins(cfg: Tune, c: Shared, g: Aux, i: nat)
    requires cfg.Valid() && i < |c.threads| && i < |g.batch|
    requires c.threads[i].pc.Carve? && AllocOk(cfg, c.threads[i], g.lists)
    requires var th, bat := c.threads[i], g.batch[i];
      var mine := Slot(th.pc.bin, th.key);
      && g.lists[mine] == [] && |bat| == cfg.BlockCount(th.pc.bin) >= 1 && Spaced(bat, cfg.BlockSize(th.pc.bin))
      && th.pc.block == bat[0] && th.pc.left == |bat| - 1
      && c.First(mine) == bat[0] && c.Free(mine) == |bat|
    ensures ThreadOk(cfg, c, g, i)
  {
  }

  lemma ChunkThread(cfg: Tune, c: Shared, g: Aux, i: nat, base: Addr)
    requires cfg.Valid() && ChunkView(cfg, c, g, i, base)
    ensures ThreadOk(cfg, DoChunk(cfg, c, i, base), AfterChunk(cfg, c, g, i, base), i)
  {
    hide NewBlocks, Spaced, FreshChunk, Size, Which, Largest16, BinCount, Quotient, Threshold, ThreadOk;
    NewBlocksSpaced(cfg, c, i, base);
    CarveBegins(cfg, DoChunk(cfg, c, i, base), AfterChunk(cfg, c, g, i, base), i);
  }

  lemma NewBlocksSpaced(cfg: Tune, c: Shared, i: nat, base: Addr)
    requires cfg.Valid() && i < |c.threads| && c.threads[i].pc.NeedChunk?
    requires cfg.BlockCount(c.threads[i].pc.bin) >= 1
    ensures var b, bat := c.threads[i].pc.bin, NewBlocks(cfg, c, i, base);
      |bat| == cfg.BlockCount(b) && bat[0] == base && Spaced(bat, cfg.BlockSize(b))
  {
    BlocksSpaced(base, cfg.BlockSize(c.threads[i].pc.bin), cfg.BlockCount(c.threads[i].pc.bin));
  }

  /** What the step leaves alone. */
  lemma ChunkSame(cfg: Tune, c: Shared, g: Aux, i: nat, base: Addr)
    requires cfg.Valid() && i < |c.threads| && i < |g.batch| && c.threads[i].pc.NeedChunk?
    requires LocksOk(c.threads, c.locked) && KeysOk(cfg, c.threads, c.idFirst, c.idNext, g.ids)
    ensures var c', g' := DoChunk(cfg, c, i, base), AfterChunk(cfg, c, g, i, base);
      && g'.lists == g.lists && c'.mem == c.mem && c'.chunks == c.chunks[base := c.threads[i].pc.bin]
      && |c'.threads| == |c.threads|
      && LocksOk(c'.threads, c'.locked) && KeysOk(cfg, c'.threads, c'.idFirst, c'.idNext, g'.ids)
  {
    var c', g' := DoChunk(cfg, c, i, base), AfterChunk(cfg, c, g, i, base);
    LocksWithout(c.threads, c.locked, i, c'.threads[i].pc, c.locked);
    KeysKept(cfg, c, c', g.ids, i);
  }

  lemma ChunkSees(cfg: Tune, c: Shared, g: Aux, i: nat, base: Addr)
    requires cfg.Valid() && Enabled(cfg, c, i, Chunk(base)) && |c.threads| == |g.batch|
    requires ThreadOk(cfg, c, g, i)
    ensures ChunkView(cfg, c, g, i, base)
  {
    BlockFits(cfg, c.threads[i].pc.bin);
  }

  lemma ChunkHeads(cfg: Tune, c: Shared, g: Aux, i: nat, base: Addr)
    requires cfg.Valid() && ChunkView(cfg, c, g, i, base) && HeadsOk(cfg, c, g.lists)
    ensures HeadsOk(cfg, DoChunk(cfg, c, i, base), g.lists)
  {
    var c' := DoChunk(cfg, c, i, base);
    var mine := Slot(c.threads[i].pc.bin, c.threads[i].key);
    assert Disturbs(c'.threads[i], mine);
    HeadsMoved(cfg, c, g.lists, c', g.lists, i, {mine});
  }

  lemma KeepChunk(cfg: Tune, c: Shared, g: Aux, i: nat, base: Addr) returns (g': Aux)
    requires cfg.Valid() && Inv(cfg, c, g) && Enabled(cfg, c, i, Chunk(base))
    ensures Inv(cfg, DoChunk(cfg, c, i, base), g')
  {
    hide DoChunk, AfterChunk, HeadsOk, ThreadsOk, HomesOk, ChunksOk, LocksOk, KeysOk, LinksOk, ListsOk,
         UsedOk, PlacesOk, BatchesOk, OnlyOwn, ThreadOk, NewBlocks, ChunkView;
    var c' := DoChunk(cfg, c, i, base);
    g' := AfterChunk(cfg, c, g, i, base);
    assert ThreadOk(cfg, c, g, i) by { OneThread(cfg, c, g, i); }
    ChunkSees(cfg, c, g, i, base);
    ChunkSame(cfg, c, g, i, base);
    NewBlocksAreNew(cfg, c, g, i, base);
    ChunkHomes(cfg, c, g, i, base);
    ChunksGrow(cfg, c.chunks, base, c.threads[i].pc.bin);
    ChunkAccount(cfg, c, g, i, base);
    ChunkPlaces(cfg, c, g, i, base);
    ChunkUsed(cfg, c, g, i, base);
    ChunkHeads(cfg, c, g, i, base);
    ChunkOwn(cfg, c, g, i, base);
    ChunkThread(cfg, c, g, i, base);
    ThreadsMoved(cfg, c, g, c', g', i);
  }
}

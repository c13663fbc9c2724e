/** Returning a batch of blocks to the global list. */
module MtPoolReturn {
  import opened BinMap
  import opened MtPool
  import opened MtPoolInv
  import opened MtPoolSteps
  import opened MtPoolMoves
  import opened MtPoolTransfer
  import opened MtPoolRefill
  import opened MtPoolUse

  // ---- detaching the batch ------------------------------------------------------------

  ghost predicate DetachView(cfg: Tune, c: Shared, g: Aux, i: nat)
    requires cfg.Valid()
  {
    && i < |c.threads| == |g.batch| && c.threads[i].pc.DetachWalk? && c.threads[i].pc.left == 0
    && 1 <= c.threads[i].key <= cfg.maxThreads && g.batch[i] == []
    && HandOk(cfg, c.threads[i], g, c.threads[i].pc.bin, c.threads[i].pc.block, Doomed(i))
    && var mine, pc := Slot(c.threads[i].pc.bin, c.threads[i].key), c.threads[i].pc;
       && ValidSlot(cfg, mine) && HeadOk(c, mine, g.lists[mine])
       && DetachOk(g.lists[mine], pc.head, pc.tmp, 0, pc.removed)
       && Distinct(g.lists[mine]) && AllAt(g.place, g.lists[mine], Listed(mine))
       && Linked(c.mem, g.lists[mine], 0)
  }

  lemma DetachThread(cfg: Tune, c: Shared, g: Aux, i: nat)
    requires cfg.Valid() && i < |c.threads| && i < |g.batch| && ThreadOk(cfg, c, g, i)
    requires c.threads[i].pc.DetachWalk?
    ensures g.batch[i] == [] && 1 <= c.threads[i].key <= cfg.maxThreads
    ensures HandOk(cfg, c.threads[i], g, c.threads[i].pc.bin, c.threads[i].pc.block, Doomed(i))
    ensures var mine, pc := Slot(c.threads[i].pc.bin, c.threads[i].key), c.threads[i].pc;
      DetachOk(g.lists[mine], pc.head, pc.tmp, pc.left, pc.removed)
  {
  }

  lemma DetachSees(cfg: Tune, c: Shared, g: Aux, i: nat)
    requires cfg.Valid() && Inv(cfg, c, g) && i < |c.threads|
    requires c.threads[i].pc.DetachWalk? && c.threads[i].pc.left == 0
    ensures DetachView(cfg, c, g, i)
  {
    hide ThreadOk, PlaceOk, Size, Which, Largest16, Quotient, Threshold;
    var mine := Slot(c.threads[i].pc.bin, c.threads[i].key);
    DetachThread(cfg, c, g, i);
    MineSteady(cfg, c, g, i, mine.bin);
    assert ValidSlot(cfg, mine) && Members(g.lists[mine], g.place, Listed(mine));
  }

  ghost function AfterDetach(c: Shared, g: Aux, i: nat): Aux
    requires i < |c.threads| && i < |g.batch| && c.threads[i].pc.DetachWalk?
    requires var mine := Slot(c.threads[i].pc.bin, c.threads[i].key);
      mine in g.lists && 0 <= c.threads[i].pc.removed <= |g.lists[mine]|
  {
    var mine, n := Slot(c.threads[i].pc.bin, c.threads[i].key), c.threads[i].pc.removed;
    var l := g.lists[mine];
    g.(lists := g.lists[mine := l[n..]], batch := g.batch[i := l[..n]],
       place := Moved(g.place, l[..n], Batch(i)))
  }

  lemma DetachAccount(cfg: Tune, c: Shared, g: Aux, i: nat)
    requires cfg.Valid() && DetachView(cfg, c, g, i)
    requires ListsOk(cfg, g.lists, g.place) && LinksOk(cfg, c.mem, g.lists)
    ensures var mine, n := Slot(c.threads[i].pc.bin, c.threads[i].key), c.threads[i].pc.removed;
      && MovesOk(cfg, |c.threads|, g, AfterDetach(c, g, i), g.lists[mine][..n], Listed(mine), Batch(i))
      && LinksOk(cfg, DoDetach(c, i).mem, AfterDetach(c, g, i).lists)
  {
    hide Size, Which, Largest16, BinCount, Quotient, Threshold, Members, HeadOk, HandOk;
    var mine, n := Slot(c.threads[i].pc.bin, c.threads[i].key), c.threads[i].pc.removed;
    var l := g.lists[mine];
    assert l == l[..n] + l[n..];
    DropLinked(c.mem, l, n);
  }

  lemma DetachThreadAfter(cfg: Tune, c: Shared, g: Aux, i: nat)
    requires cfg.Valid() && DetachView(cfg, c, g, i)
    ensures ThreadOk(cfg, DoDetach(c, i), AfterDetach(c, g, i), i)
  {
    hide Size, Which, Largest16, BinCount, Quotient, Threshold, HeadOk;
    var mine, n := Slot(c.threads[i].pc.bin, c.threads[i].key), c.threads[i].pc.removed;
    var l := g.lists[mine];
    assert l[n - 1] in c.mem && c.mem[l[n - 1]] == Next(if n < |l| then l[n] else 0);
    assert TransitOk(c.mem, l[..n], l[0], l[n - 1], n);
  }

  lemma DetachOwn(cfg: Tune, c: Shared, g: Aux, i: nat)
    requires cfg.Valid() && DetachView(cfg, c, g, i)
    ensures var mine, n := Slot(c.threads[i].pc.bin, c.threads[i].key), c.threads[i].pc.removed;
      OnlyOwn(c, g, DoDetach(c, i), AfterDetach(c, g, i), i)
  {
    hide Size, Which, Largest16, BinCount, Quotient, Threshold, ThreadOk;
  }

  lemma DetachHeads(cfg: Tune, c: Shared, g: Aux, i: nat)
    requires cfg.Valid() && DetachView(cfg, c, g, i)
    ensures HeadsKept(cfg, c, g, DoDetach(c, i), AfterDetach(c, g, i), i)
  {
    hide Size, Which, Largest16, BinCount, Quotient, Threshold;
    var mine, n := Slot(c.threads[i].pc.bin, c.threads[i].key), c.threads[i].pc.removed;
    var l := g.lists[mine];
    assert Follow(c.mem, l[n - 1]) == Head(l[n..]) by {
      assert l[n - 1] in c.mem && c.mem[l[n - 1]] == Next(if n < |l| then l[n] else 0);
    }
  }

  lemma DetachEffects(cfg: Tune, c: Shared, g: Aux, i: nat)
    requires cfg.Valid() && DetachView(cfg, c, g, i)
    requires ThreadOk(cfg, DoDetach(c, i), AfterDetach(c, g, i), i)
    requires OnlyOwn(c, g, DoDetach(c, i), AfterDetach(c, g, i), i)
    ensures var mine, n := Slot(c.threads[i].pc.bin, c.threads[i].key), c.threads[i].pc.removed;
      EffectsOk(cfg, c, g, DoDetach(c, i), AfterDetach(c, g, i), i, g.lists[mine][..n])
  {
    hide OnlyOwn, HeadsKept, HeadOk, Size, Which, Largest16, BinCount, Quotient, Threshold, ThreadOk;
    DetachHeads(cfg, c, g, i);
  }

  lemma DetachRest(cfg: Tune, c: Shared, g: Aux, i: nat)
    requires cfg.Valid() && DetachView(cfg, c, g, i)
    requires PlacesOk(cfg, c, g) && LocksOk(c.threads, c.locked) && UsedOk(cfg, c, g)
    ensures var c', mine, n := DoDetach(c, i), Slot(c.threads[i].pc.bin, c.threads[i].key), c.threads[i].pc.removed;
      && ArriveOk(cfg, c', g.home, g.lists[mine][..n], Batch(i))
      && LocksOk(c'.threads, c'.locked) && UsedOk(cfg, c', AfterDetach(c, g, i))
  {
    hide Size, Which, Largest16, BinCount, Quotient, Threshold, Linked;
    var c', mine, n := DoDetach(c, i), Slot(c.threads[i].pc.bin, c.threads[i].key), c.threads[i].pc.removed;
    var l := g.lists[mine][..n];
    assert AllAt(g.place, l, Listed(mine));
    RefillArrives(cfg, c, g, c', l, mine, Batch(i));
    LocksWithout(c.threads, c.locked, i, c'.threads[i].pc, c.locked);
    UsedMoved(cfg, c, g, c', AfterDetach(c, g, i), l, Listed(mine), Batch(i));
  }

  lemma DetachKept(cfg: Tune, c: Shared, g: Aux, i: nat)
    requires cfg.Valid() && Inv(cfg, c, g) && DetachView(cfg, c, g, i)
    ensures Inv(cfg, DoDetach(c, i), AfterDetach(c, g, i))
  {
    hide BatchesOk, HeadsOk, PlacesOk, ThreadsOk, HomesOk, ChunksOk, LocksOk, KeysOk, LinksOk, ListsOk,
         UsedOk, ArriveOk, EffectsOk, MovesOk, DoDetach, ThreadOk, OnlyOwn, AfterDetach, Linked, Distinct,
         AllAt, HeadOk;
    var mine, n := Slot(c.threads[i].pc.bin, c.threads[i].key), c.threads[i].pc.removed;
    DetachAccount(cfg, c, g, i);
    DetachThreadAfter(cfg, c, g, i);
    DetachOwn(cfg, c, g, i);
    DetachEffects(cfg, c, g, i);
    DetachRest(cfg, c, g, i);
    Transfer(cfg, c, g, DoDetach(c, i), AfterDetach(c, g, i), i, g.lists[mine][..n], Listed(mine), Batch(i));
  }

  lemma KeepDetachEnd(cfg: Tune, c: Shared, g: Aux, i: nat) returns (g': Aux)
    requires cfg.Valid() && Inv(cfg, c, g) && Enabled(cfg, c, i, Go) && c.threads[i].pc.DetachWalk?
    requires c.threads[i].pc.left == 0
    ensures Inv(cfg, DoDetach(c, i), g')
  {
    DetachSees(cfg, c, g, i);
    g' := AfterDetach(c, g, i);
    DetachKept(cfg, c, g, i);
  }

  // ---- splicing it in under the lock ------------------------------------------------------

  ghost predicate SpliceView(cfg: Tune, c: Shared, g: Aux, i: nat)
    requires cfg.Valid()
  {
    && i < |c.threads| == |g.batch| && c.threads[i].pc.Splice?
    && 1 <= c.threads[i].key <= cfg.maxThreads
    && HandOk(cfg, c.threads[i], g, c.threads[i].pc.bin, c.threads[i].pc.block, Doomed(i))
    && var pool, pc := Slot(c.threads[i].pc.bin, 0), c.threads[i].pc;
       && ValidSlot(cfg, pool) && HeadOk(c, pool, g.lists[pool])
       && TransitOk(c.mem, g.batch[i], pc.head, pc.tmp, pc.removed)
       && Distinct(g.batch[i]) && AllAt(g.place, g.batch[i], Batch(i))
  }

  lemma SpliceThread(cfg: Tune, c: Shared, g: Aux, i: nat)
    requires cfg.Valid() && i < |c.threads| && i < |g.batch| && ThreadOk(cfg, c, g, i) && c.threads[i].pc.Splice?
    ensures 1 <= c.threads[i].key <= cfg.maxThreads
    ensures HandOk(cfg, c.threads[i], g, c.threads[i].pc.bin, c.threads[i].pc.block, Doomed(i))
    ensures var pc := c.threads[i].pc; TransitOk(c.mem, g.batch[i], pc.head, pc.tmp, pc.removed)
  {
  }

  lemma SpliceSees(cfg: Tune, c: Shared, g: Aux, i: nat)
    requires cfg.Valid() && Inv(cfg, c, g) && i < |c.threads| && c.threads[i].pc.Splice?
    ensures SpliceView(cfg, c, g, i)
  {
    hide ThreadOk, PlaceOk, Size, Which, Largest16, Quotient, Threshold;
    SpliceThread(cfg, c, g, i);
    PoolSteady(cfg, c, g, i, c.threads[i].pc.bin);
    WholeBatch(|c.threads|, g, i);
    assert ValidSlot(cfg, Slot(c.threads[i].pc.bin, 0));
  }

  ghost function AfterSplice(c: Shared, g: Aux, i: nat): Aux
    requires i < |c.threads| && i < |g.batch| && c.threads[i].pc.Splice? && Slot(c.threads[i].pc.bin, 0) in g.lists
  {
    var pool := Slot(c.threads[i].pc.bin, 0);
    g.(lists := g.lists[pool := g.batch[i] + g.lists[pool]], batch := g.batch[i := []],
       place := Moved(g.place, g.batch[i], Listed(pool)))
  }

  lemma SpliceAccount(cfg: Tune, c: Shared, g: Aux, i: nat)
    requires cfg.Valid() && SpliceView(cfg, c, g, i) && ListsOk(cfg, g.lists, g.place)
    ensures MovesOk(cfg, |c.threads|, g, AfterSplice(c, g, i), g.batch[i], Batch(i),
                    Listed(Slot(c.threads[i].pc.bin, 0)))
  {
    hide Size, Which, Largest16, BinCount, Quotient, Threshold, Members, HeadOk, HandOk, Linked;
  }

  lemma SpliceLinks(cfg: Tune, c: Shared, g: Aux, i: nat)
    requires cfg.Valid() && SpliceView(cfg, c, g, i)
    requires ListsOk(cfg, g.lists, g.place) && LinksOk(cfg, c.mem, g.lists)
    requires BatchesOk(|c.threads|, g.batch, g.place)
    ensures LinksOk(cfg, DoSplice(c, i).mem, AfterSplice(c, g, i).lists)
  {
    hide Size, Which, Largest16, BinCount, Quotient, Threshold, HandOk, Members;
    var pool, bat := Slot(c.threads[i].pc.bin, 0), g.batch[i];
    var mem' := DoSplice(c, i).mem;
    BatchEndWritten(cfg, c.mem, g, |c.threads|, i, pool, Head(g.lists[pool]));
    assert Linked(mem', g.lists[pool], 0);
    JoinLinked(mem', bat, g.lists[pool]);
  }

  lemma JoinLinked(mem: map<Addr, Cell>, l: seq<Addr>, r: seq<Addr>)
    requires l != [] && Linked(mem, l, Head(r)) && Linked(mem, r, 0)
    ensures Linked(mem, l + r, 0)
  {
    var s := l + r;
    forall k | 0 <= k < |s| && k + 1 < |s| ensures s[k] in mem && mem[s[k]] == Next(s[k + 1]) {
      if k < |l| - 1 {
        assert s[k] == l[k] && s[k + 1] == l[k + 1];
      } else if k >= |l| {
        assert s[k] == r[k - |l|] && s[k + 1] == r[k - |l| + 1];
      }
    }
    assert s[|s| - 1] == if r == [] then l[|l| - 1] else r[|r| - 1];
  }

  lemma SpliceThreadAfter(cfg: Tune, c: Shared, g: Aux, i: nat)
    requires cfg.Valid() && SpliceView(cfg, c, g, i)
    ensures ThreadOk(cfg, DoSplice(c, i), AfterSplice(c, g, i), i)
  {
    hide Size, Which, Largest16, BinCount, Quotient, Threshold, HeadOk, Chained, Distinct;
    assert c.threads[i].pc.block !in g.batch[i];
  }

  lemma SpliceOwn(cfg: Tune, c: Shared, g: Aux, i: nat)
    requires cfg.Valid() && SpliceView(cfg, c, g, i)
    requires HeadsOk(cfg, c, g.lists)
    ensures OnlyOwn(c, g, DoSplice(c, i), AfterSplice(c, g, i), i)
  {
    hide Size, Which, Largest16, BinCount, Quotient, Threshold, ThreadOk, Chained, Distinct;
    OwnHeadKept(cfg, c, DoSplice(c, i), g.lists, i, Slot(c.threads[i].pc.bin, c.threads[i].key));
    assert c.threads[i].pc.tmp in g.batch[i];
  }

  lemma SpliceHeads(cfg: Tune, c: Shared, g: Aux, i: nat)
    requires cfg.Valid() && SpliceView(cfg, c, g, i) && HeadsOk(cfg, c, g.lists)
    ensures HeadsKept(cfg, c, g, DoSplice(c, i), AfterSplice(c, g, i), i)
  {
    hide Size, Which, Largest16, BinCount, Quotient, Threshold, Chained, Distinct;
    OwnHeadKept(cfg, c, DoSplice(c, i), g.lists, i, Slot(c.threads[i].pc.bin, c.threads[i].key));
  }

  lemma SpliceEffects(cfg: Tune, c: Shared, g: Aux, i: nat)
    requires cfg.Valid() && SpliceView(cfg, c, g, i)
    requires ThreadOk(cfg, DoSplice(c, i), AfterSplice(c, g, i), i)
    requires HeadsOk(cfg, c, g.lists)
    requires OnlyOwn(c, g, DoSplice(c, i), AfterSplice(c, g, i), i)
    ensures EffectsOk(cfg, c, g, DoSplice(c, i), AfterSplice(c, g, i), i, g.batch[i])
  {
    hide OnlyOwn, HeadsKept, HeadOk, HeadsOk, Size, Which, Largest16, BinCount, Quotient, Threshold, ThreadOk,
         Chained, Distinct;
    SpliceHeads(cfg, c, g, i);
    assert c.threads[i].pc.tmp in g.batch[i];
  }

  lemma SpliceRest(cfg: Tune, c: Shared, g: Aux, i: nat)
    requires cfg.Valid() && SpliceView(cfg, c, g, i)
    requires PlacesOk(cfg, c, g) && LocksOk(c.threads, c.locked) && UsedOk(cfg, c, g)
    ensures var c', pool := DoSplice(c, i), Slot(c.threads[i].pc.bin, 0);
      && ArriveOk(cfg, c', g.home, g.batch[i], Listed(pool))
      && LocksOk(c'.threads, c'.locked) && UsedOk(cfg, c', AfterSplice(c, g, i))
  {
    hide Size, Which, Largest16, BinCount, Quotient, Threshold, Chained, Distinct;
    var c', pool := DoSplice(c, i), Slot(c.threads[i].pc.bin, 0);
    OwnBatchArrives(cfg, c, g, c', i);
    LocksWithout(c.threads, c.locked, i, c'.threads[i].pc, c'.locked);
    assert c.threads[i].pc.tmp in g.batch[i];
    UsedMoved(cfg, c, g, c', AfterSplice(c, g, i), g.batch[i], Batch(i), Listed(pool));
  }

  lemma SpliceKept(cfg: Tune, c: Shared, g: Aux, i: nat)
    requires cfg.Valid() && Inv(cfg, c, g) && SpliceView(cfg, c, g, i)
    ensures Inv(cfg, DoSplice(c, i), AfterSplice(c, g, i))
  {
    hide BatchesOk, HeadsOk, PlacesOk, ThreadsOk, HomesOk, ChunksOk, LocksOk, KeysOk, LinksOk, ListsOk,
         UsedOk, ArriveOk, EffectsOk, MovesOk, DoSplice, ThreadOk, OnlyOwn, AfterSplice, TransitOk, Distinct,
         AllAt, HeadOk;
    SpliceAccount(cfg, c, g, i);
    SpliceLinks(cfg, c, g, i);
    SpliceThreadAfter(cfg, c, g, i);
    SpliceOwn(cfg, c, g, i);
    SpliceEffects(cfg, c, g, i);
    SpliceRest(cfg, c, g, i);
    Transfer(cfg, c, g, DoSplice(c, i), AfterSplice(c, g, i), i, g.batch[i], Batch(i),
             Listed(Slot(c.threads[i].pc.bin, 0)));
  }

  lemma KeepSplice(cfg: Tune, c: Shared, g: Aux, i: nat) returns (g': Aux)
    requires cfg.Valid() && Inv(cfg, c, g) && Enabled(cfg, c, i, Go) && c.threads[i].pc.Splice?
    ensures Inv(cfg, DoSplice(c, i), g')
  {
    SpliceSees(cfg, c, g, i);
    g' := AfterSplice(c, g, i);
    SpliceKept(cfg, c, g, i);
  }
}

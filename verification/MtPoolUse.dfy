/** Handing a block out and taking it back. */
module MtPoolUse {
  import opened BinMap
  import opened MtPool
  import opened MtPoolInv
  import opened MtPoolSteps
  import opened MtPoolMoves
  import opened MtPoolTransfer
  import opened MtPoolBounds

  // ---- popping a block off the thread's own list --------------------------------------

  ghost predicate PopView(cfg: Tune, c: Shared, g: Aux, i: nat)
    requires cfg.Valid()
  {
    && i < |c.threads| == |g.batch| && c.threads[i].pc.Pop? && c.threads[i].key != 0
    && AllocOk(cfg, c.threads[i], g.lists) && g.batch[i] == []
    && var mine := Slot(c.threads[i].pc.bin, c.threads[i].key);
       && g.lists[mine] != [] && HeadOk(c, mine, g.lists[mine])
       && Distinct(g.lists[mine]) && AllAt(g.place, g.lists[mine], Listed(mine))
       && Linked(c.mem, g.lists[mine], 0)
       && PlaceOk(cfg, c, g.home, g.lists[mine][0], Listed(mine))
  }

  lemma PopSees(cfg: Tune, c: Shared, g: Aux, i: nat)
    requires cfg.Valid() && Inv(cfg, c, g) && i < |c.threads| && c.threads[i].pc.Pop?
    ensures PopView(cfg, c, g, i)
  {
    var mine := Slot(c.threads[i].pc.bin, c.threads[i].key);
    BusyHasKey(cfg, c, g, i);
    PopThread(cfg, c, g, i);
    MineSteady(cfg, c, g, i, mine.bin);
    assert ValidSlot(cfg, mine);
    assert Members(g.lists[mine], g.place, Listed(mine));
    assert g.lists[mine][0] in g.lists[mine];
  }

  lemma PopThread(cfg: Tune, c: Shared, g: Aux, i: nat)
    requires cfg.Valid() && i < |c.threads| && i < |g.batch| && ThreadOk(cfg, c, g, i) && c.threads[i].pc.Pop?
    ensures AllocOk(cfg, c.threads[i], g.lists) && g.batch[i] == []
    ensures g.lists[Slot(c.threads[i].pc.bin, c.threads[i].key)] != []
  {
  }

  ghost function AfterPop(c: Shared, g: Aux, i: nat): Aux
    requires i < |c.threads| && c.threads[i].pc.Pop?
    requires var mine := Slot(c.threads[i].pc.bin, c.threads[i].key); mine in g.lists && g.lists[mine] != []
  {
    var mine := Slot(c.threads[i].pc.bin, c.threads[i].key);
    var l := g.lists[mine];
    g.(lists := g.lists[mine := l[1..]], place := Moved(g.place, [l[0]], Popped(i)))
  }

  lemma PopAccount(cfg: Tune, c: Shared, g: Aux, i: nat)
    requires cfg.Valid() && PopView(cfg, c, g, i) && ListsOk(cfg, g.lists, g.place)
    ensures var mine := Slot(c.threads[i].pc.bin, c.threads[i].key);
      MovesOk(cfg, |c.threads|, g, AfterPop(c, g, i), [g.lists[mine][0]], Listed(mine), Popped(i))
  {
    var mine := Slot(c.threads[i].pc.bin, c.threads[i].key);
    var l := g.lists[mine];
    assert l == [l[0]] + l[1..];
    assert l[0] in l;
  }

  lemma PopLinks(cfg: Tune, c: Shared, g: Aux, i: nat)
    requires cfg.Valid() && PopView(cfg, c, g, i)
    requires ListsOk(cfg, g.lists, g.place) && LinksOk(cfg, c.mem, g.lists)
    ensures LinksOk(cfg, DoPop(c, i).mem, AfterPop(c, g, i).lists)
  {
    var c', g' := DoPop(c, i), AfterPop(c, g, i);
    var mine := Slot(c.threads[i].pc.bin, c.threads[i].key);
    var l := g.lists[mine];
    assert l[0] in l;
    forall s | ValidSlot(cfg, s) && s in g'.lists ensures Linked(c'.mem, g'.lists[s], 0) {
      assert Linked(c.mem, g.lists[s], 0);
      if s == mine {
        TailLinked(c.mem, l);
        assert forall k :: 0 <= k < |l| - 1 ==> l[1..][k] == l[k + 1];
      } else {
        assert Members(g.lists[s], g.place, Listed(s)) && l[0] !in g.lists[s];
      }
    }
  }

  lemma TailLinked(mem: map<Addr, Cell>, l: seq<Addr>)
    requires Linked(mem, l, 0) && l != []
    ensures Linked(mem, l[1..], 0) && l[0] in mem && mem[l[0]] == Next(Head(l[1..]))
  {
    var r := l[1..];
    forall k | 0 <= k < |r| && k + 1 < |r| ensures r[k] in mem && mem[r[k]] == Next(r[k + 1]) {
      assert r[k] == l[k + 1] && r[k + 1] == l[k + 1 + 1];
    }
  }

  lemma PopOwn(cfg: Tune, c: Shared, g: Aux, i: nat)
    requires cfg.Valid() && PopView(cfg, c, g, i)
    ensures var mine := Slot(c.threads[i].pc.bin, c.threads[i].key);
      OnlyOwn(c, g, DoPop(c, i), AfterPop(c, g, i), i)
  {
    hide ThreadOk, Size, Which, Largest16, BinCount, Quotient, Threshold;
    var mine := Slot(c.threads[i].pc.bin, c.threads[i].key);
    assert g.lists[mine][0] in g.lists[mine];
    TailLinked(c.mem, g.lists[mine]);
  }

  lemma PopEffects(cfg: Tune, c: Shared, g: Aux, i: nat)
    requires cfg.Valid() && PopView(cfg, c, g, i)
    requires ThreadOk(cfg, DoPop(c, i), AfterPop(c, g, i), i)
    requires var mine := Slot(c.threads[i].pc.bin, c.threads[i].key);
      OnlyOwn(c, g, DoPop(c, i), AfterPop(c, g, i), i)
    ensures var mine := Slot(c.threads[i].pc.bin, c.threads[i].key);
      EffectsOk(cfg, c, g, DoPop(c, i), AfterPop(c, g, i), i, [g.lists[mine][0]])
  {
    hide OnlyOwn, ThreadOk, Size, Which, Largest16, BinCount, Quotient, Threshold;
    var mine := Slot(c.threads[i].pc.bin, c.threads[i].key);
    assert g.lists[mine][0] in g.lists[mine];
    TailLinked(c.mem, g.lists[mine]);
  }

  lemma PopThreadAfter(cfg: Tune, c: Shared, g: Aux, i: nat)
    requires cfg.Valid() && PopView(cfg, c, g, i)
    ensures ThreadOk(cfg, DoPop(c, i), AfterPop(c, g, i), i)
  {
    hide Size, Which, Largest16, BinCount, Quotient, Threshold, Linked;
    var mine := Slot(c.threads[i].pc.bin, c.threads[i].key);
    assert g.lists[mine][0] in g.lists[mine];
  }

  lemma PopRest(cfg: Tune, c: Shared, g: Aux, i: nat)
    requires cfg.Valid() && PopView(cfg, c, g, i) && LocksOk(c.threads, c.locked) && UsedOk(cfg, c, g)
    ensures var c', mine := DoPop(c, i), Slot(c.threads[i].pc.bin, c.threads[i].key);
      && ArriveOk(cfg, c', g.home, [g.lists[mine][0]], Popped(i))
      && LocksOk(c'.threads, c'.locked) && UsedOk(cfg, c', AfterPop(c, g, i))
  {
    hide Size, Which, Largest16, BinCount, Quotient, Threshold, Linked;
    var c', mine := DoPop(c, i), Slot(c.threads[i].pc.bin, c.threads[i].key);
    var l := g.lists[mine];
    assert l[0] in l;
    LocksWithout(c.threads, c.locked, i, c'.threads[i].pc, c.locked);
    UsedMoved(cfg, c, g, c', AfterPop(c, g, i), [l[0]], Listed(mine), Popped(i));
  }

  lemma KeepPop(cfg: Tune, c: Shared, g: Aux, i: nat) returns (g': Aux)
    requires cfg.Valid() && Inv(cfg, c, g) && Enabled(cfg, c, i, Go) && c.threads[i].pc.Pop?
    ensures Inv(cfg, DoPop(c, i), g')
  {
    PopSees(cfg, c, g, i);
    g' := AfterPop(c, g, i);
    PopKept(cfg, c, g, i);
  }

  lemma PopKept(cfg: Tune, c: Shared, g: Aux, i: nat)
    requires cfg.Valid() && Inv(cfg, c, g) && PopView(cfg, c, g, i)
    ensures Inv(cfg, DoPop(c, i), AfterPop(c, g, i))
  {
    hide BatchesOk, HeadsOk, PlacesOk, ThreadsOk, HomesOk, ChunksOk, LocksOk, KeysOk, LinksOk, ListsOk,
         UsedOk, ArriveOk, EffectsOk, MovesOk, DoPop, ThreadOk, OnlyOwn, AfterPop, PlaceOk, Linked, Distinct, AllAt;
    var mine := Slot(c.threads[i].pc.bin, c.threads[i].key);
    PopAccount(cfg, c, g, i);
    PopLinks(cfg, c, g, i);
    PopThreadAfter(cfg, c, g, i);
    PopOwn(cfg, c, g, i);
    PopEffects(cfg, c, g, i);
    PopRest(cfg, c, g, i);
    Transfer(cfg, c, g, DoPop(c, i), AfterPop(c, g, i), i, [g.lists[mine][0]], Listed(mine), Popped(i));
  }

  // ---- moves of the block in hand -------------------------------------------------------

  /** The block in hand goes from place p to place q; no list or batch changes. */
  ghost function AfterHand(g: Aux, block: Addr, q: Place): Aux {
    g.(place := Moved(g.place, [block], q))
  }

  lemma HandAccount(cfg: Tune, n: nat, g: Aux, block: Addr, p: Place, q: Place)
    requires cfg.minBin >= 1 && |g.batch| == n && ListsOk(cfg, g.lists, g.place)
    requires block in g.place && g.place[block] == p && p != q
    requires !p.Listed? && !q.Listed? && !p.Batch? && !q.Batch?
    ensures MovesOk(cfg, n, g, AfterHand(g, block, q), [block], p, q)
  {
  }

  ghost predicate HandView(cfg: Tune, c: Shared, g: Aux, i: nat, block: Addr, p: Place)
    requires cfg.Valid()
  {
    && i < |c.threads| == |g.batch| && 1 <= c.threads[i].key <= cfg.maxThreads
    && !c.threads[i].pc.Idle? && g.batch[i] == []
    && HandOk(cfg, c.threads[i], g, c.threads[i].pc.bin, block, p)
    && PlaceOk(cfg, c, g.home, block, p)
  }

  // ---- counting the block and handing it to the program ---------------------------------

  lemma CountSees(cfg: Tune, c: Shared, g: Aux, i: nat)
    requires cfg.Valid() && i < |c.threads| == |g.batch| && ThreadOk(cfg, c, g, i) && PlacesOk(cfg, c, g)
    requires c.threads[i].pc.CountUsed?
    ensures HandView(cfg, c, g, i, c.threads[i].pc.block, Popped(i))
    ensures AllocOk(cfg, c.threads[i], g.lists)
    ensures c.threads[i].pc.block in c.mem && c.mem[c.threads[i].pc.block] == Stamp(c.threads[i].key)
  {
  }

  lemma CountOwn(cfg: Tune, c: Shared, g: Aux, i: nat)
    requires cfg.Valid() && i < |c.threads| && c.threads[i].pc.CountUsed?
    requires HandView(cfg, c, g, i, c.threads[i].pc.block, Popped(i))
    requires HeadsOk(cfg, c, g.lists)
    ensures OnlyOwn(c, g, DoCount(c, i), AfterHand(g, c.threads[i].pc.block, User), i)
  {
    hide Size, Which, Largest16, BinCount, Quotient, Threshold;
    var mine := Slot(c.threads[i].pc.bin, c.threads[i].key);
    OwnHeadKept(cfg, c, DoCount(c, i), g.lists, i, mine);
  }

  lemma CountEffects(cfg: Tune, c: Shared, g: Aux, i: nat)
    requires cfg.Valid() && i < |c.threads| && c.threads[i].pc.CountUsed?
    requires HandView(cfg, c, g, i, c.threads[i].pc.block, Popped(i))
    requires HeadsOk(cfg, c, g.lists)
    requires OnlyOwn(c, g, DoCount(c, i), AfterHand(g, c.threads[i].pc.block, User), i)
    ensures StepEffects(cfg, c, g, DoCount(c, i), AfterHand(g, c.threads[i].pc.block, User), i,
                        [c.threads[i].pc.block])
  {
    hide OnlyOwn, Size, Which, Largest16, BinCount, Quotient, Threshold;
    var mine := Slot(c.threads[i].pc.bin, c.threads[i].key);
    OwnHeadKept(cfg, c, DoCount(c, i), g.lists, i, mine);
  }

  /** A slot whose head and counter the step left alone. */
  lemma OwnHeadKept(cfg: Tune, c: Shared, c': Shared, lists: map<Slot, seq<Addr>>, i: nat, s: Slot)
    requires cfg.Valid() && i < |c.threads| == |c'.threads| && HeadsOk(cfg, c, lists)
    requires ValidSlot(cfg, s) && s in lists && c'.First(s) == c.First(s) && c'.Free(s) == c.Free(s)
    requires forall j :: 0 <= j < |c.threads| && j != i ==> c'.threads[j] == c.threads[j]
    requires !Disturbs(c.threads[i], s)
    ensures Steady(c'.threads, s) ==> HeadOk(c', s, lists[s])
  {
    if Steady(c'.threads, s) { SteadyBack(c.threads, c'.threads, i, s); }
  }

  lemma CountUsedOk(cfg: Tune, c: Shared, g: Aux, i: nat)
    requires cfg.Valid() && i < |c.threads| && c.threads[i].pc.CountUsed? && UsedOk(cfg, c, g)
    requires HandView(cfg, c, g, i, c.threads[i].pc.block, Popped(i))
    requires c.threads[i].pc.block in c.mem && c.mem[c.threads[i].pc.block] == Stamp(c.threads[i].key)
    ensures UsedOk(cfg, DoCount(c, i), AfterHand(g, c.threads[i].pc.block, User))
  {
    hide Size, Which, Largest16, BinCount, Quotient, Threshold;
    var c', block := DoCount(c, i), c.threads[i].pc.block;
    var g' := AfterHand(g, block, User);
    var mine := Slot(c.threads[i].pc.bin, c.threads[i].key);
    forall s | ValidSlot(cfg, s)
      ensures c'.Used(s) == |Outstanding(c'.mem, g'.place, g'.home, s)|
    {
      var before, after := Outstanding(c.mem, g.place, g.home, s), Outstanding(c'.mem, g'.place, g'.home, s);
      if s == mine {
        assert after == before + {block};
      } else {
        assert after == before;
      }
    }
  }

  lemma CountRest(cfg: Tune, c: Shared, g: Aux, i: nat)
    requires cfg.Valid() && i < |c.threads| && c.threads[i].pc.CountUsed? && LocksOk(c.threads, c.locked)
    requires HandView(cfg, c, g, i, c.threads[i].pc.block, Popped(i)) && AllocOk(cfg, c.threads[i], g.lists)
    ensures var c', block := DoCount(c, i), c.threads[i].pc.block;
      && ArriveOk(cfg, c', g.home, [block], User)
      && LiveMoves(cfg, c, c', AfterHand(g, block, User), [block])
      && LocksOk(c'.threads, c'.locked)
      && c'.mem == c.mem
  {
    hide Size, Largest16, BinCount, Quotient, Threshold;
    LocksWithout(c.threads, c.locked, i, Idle, c.locked);
  }

  lemma KeepCount(cfg: Tune, c: Shared, g: Aux, i: nat) returns (g': Aux)
    requires cfg.Valid() && Inv(cfg, c, g) && Enabled(cfg, c, i, Go) && c.threads[i].pc.CountUsed?
    ensures Inv(cfg, DoCount(c, i), g')
  {
    hide BatchesOk, HeadsOk, PlacesOk, HomesOk, ChunksOk, LocksOk, KeysOk, LinksOk, ListsOk,
         UsedOk, ArriveOk, StepEffects, MovesOk, DoCount, ThreadOk, OnlyOwn, AllocOk, LiveMoves, PlaceOk;
    var block := c.threads[i].pc.block;
    g' := AfterHand(g, block, User);
    CountSees(cfg, c, g, i);
    HandAccount(cfg, |c.threads|, g, block, Popped(i), User);
    CountOwn(cfg, c, g, i);
    CountEffects(cfg, c, g, i);
    CountUsedOk(cfg, c, g, i);
    CountRest(cfg, c, g, i);
    TransferAny(cfg, c, g, DoCount(c, i), g', i, [block], Popped(i), User);
  }

  // ---- taking a block back: the decision -------------------------------------------------

  ghost predicate FreeView(cfg: Tune, c: Shared, g: Aux, i: nat, block: Addr)
    requires cfg.Valid()
  {
    && i < |c.threads| == |g.batch| && c.threads[i].pc.Idle? && 1 <= c.threads[i].key <= cfg.maxThreads
    && g.batch[i] == [] && block in c.live && LiveOk(cfg, c.live[block], g, block)
    && PlaceOk(cfg, c, g.home, block, User)
    && var mine := Slot(g.home[block].bin, c.threads[i].key);
       && ValidSlot(cfg, mine) && mine in g.lists && Slot(mine.bin, 0) in g.lists
       && HeadOk(c, mine, g.lists[mine])
       && |g.lists[mine]| < cfg.half && 0 <= c.Used(mine) < cfg.half
  }

  lemma FreeThread(cfg: Tune, c: Shared, g: Aux, i: nat)
    requires cfg.Valid() && i < |c.threads| && i < |g.batch| && ThreadOk(cfg, c, g, i) && c.threads[i].pc.Idle?
    ensures g.batch[i] == [] && c.threads[i].key <= cfg.maxThreads
  {
  }

  lemma FreeSees(cfg: Tune, c: Shared, g: Aux, i: nat, block: Addr)
    requires cfg.Valid() && Inv(cfg, c, g) && Enabled(cfg, c, i, Free(block))
    ensures FreeView(cfg, c, g, i, block)
  {
    hide ThreadOk, LinksOk, BatchesOk, LocksOk, KeysOk, HomesOk, ChunksOk, UsedOk, Size, Which, Largest16, Quotient,
         Threshold;
    assert LiveOk(cfg, c.live[block], g, block);
    FreeThread(cfg, c, g, i);
    BinInRange(cfg, c.live[block]);
    var mine := Slot(g.home[block].bin, c.threads[i].key);
    MineSteady(cfg, c, g, i, mine.bin);
    assert ValidSlot(cfg, mine) && ValidSlot(cfg, Slot(mine.bin, 0));
    CountsSmall(cfg, c, g, mine);
  }

  /** No list is as long as half a word range, and no counter as large. */
  lemma CountsSmall(cfg: Tune, c: Shared, g: Aux, s: Slot)
    requires cfg.Valid() && ValidSlot(cfg, s)
    requires ListsOk(cfg, g.lists, g.place) && PlacesOk(cfg, c, g) && UsedOk(cfg, c, g)
    requires HomesOk(cfg, c.chunks, g.home) && ChunksOk(cfg, c.chunks)
    ensures |g.lists[s]| < cfg.half && 0 <= c.Used(s) < cfg.half
  {
    hide Size, Which, Largest16, BinCount, Quotient, Threshold, HomesOk, ChunksOk;
    var l := g.lists[s];
    forall a | a in Elements(l) ensures a in g.home {
      assert Members(l, g.place, Listed(s));
      assert PlaceOk(cfg, c, g.home, a, g.place[a]);
    }
    DistinctSize(l);
    FewBlocks(cfg, c.chunks, g.home, Elements(l));
    FewBlocks(cfg, c.chunks, g.home, Outstanding(c.mem, g.place, g.home, s));
  }

  lemma FreeThreadAfter(cfg: Tune, c: Shared, g: Aux, i: nat, block: Addr)
    requires cfg.Valid() && FreeView(cfg, c, g, i, block)
    ensures ThreadOk(cfg, DoFree(cfg, c, i, block), AfterHand(g, block, Doomed(i)), i)
  {
    hide Size, Which, Largest16, Quotient, Threshold, Surplus, Removed, ReturnsBlocks;
    var mine := Slot(g.home[block].bin, c.threads[i].key);
    if ReturnsBlocks(cfg, c.Free(mine), c.Used(mine), mine.bin) {
      SurplusBounds(cfg, |g.lists[mine]|, c.Used(mine), mine.bin);
    }
  }

  lemma FreeOwn(cfg: Tune, c: Shared, g: Aux, i: nat, block: Addr)
    requires cfg.Valid() && FreeView(cfg, c, g, i, block) && UsedOk(cfg, c, g)
    requires LocksOk(c.threads, c.locked) && KeysOk(cfg, c.threads, c.idFirst, c.idNext, g.ids)
    ensures var c', g' := DoFree(cfg, c, i, block), AfterHand(g, block, Doomed(i));
      && OnlyOwn(c, g, c', g', i) && UsedOk(cfg, c', g') && |c'.threads| == |c.threads|
      && LocksOk(c'.threads, c'.locked)
      && KeysOk(cfg, c'.threads, c'.idFirst, c'.idNext, g'.ids)
      && c'.mem == c.mem && c'.chunks == c.chunks && g'.lists == g.lists && g'.batch == g.batch
  {
    hide Size, Which, Largest16, Quotient, Threshold, Surplus, Removed, ReturnsBlocks;
    var c', g' := DoFree(cfg, c, i, block), AfterHand(g, block, Doomed(i));
    LocksWithout(c.threads, c.locked, i, c'.threads[i].pc, c.locked);
    KeysKept(cfg, c, c', g.ids, i);
    UsedMoved(cfg, c, g, c', g', [block], User, Doomed(i));
  }

  lemma FreePlaces(cfg: Tune, c: Shared, g: Aux, i: nat, block: Addr)
    requires cfg.Valid() && FreeView(cfg, c, g, i, block) && PlacesOk(cfg, c, g) && HeadsOk(cfg, c, g.lists)
    ensures var c', g' := DoFree(cfg, c, i, block), AfterHand(g, block, Doomed(i));
      PlacesOk(cfg, c', g') && HeadsOk(cfg, c', g.lists)
  {
    hide Size, Which, Largest16, Quotient, Threshold, Surplus, Removed, ReturnsBlocks, PlacesOk, HeadsOk, HeadOk;
    var c', g' := DoFree(cfg, c, i, block), AfterHand(g, block, Doomed(i));
    PlacesMoved(cfg, c, g, c', g', i, [block], Doomed(i));
    HeadsMoved(cfg, c, g.lists, c', g.lists, i, {});
  }

  lemma KeepFree(cfg: Tune, c: Shared, g: Aux, i: nat, block: Addr) returns (g': Aux)
    requires cfg.Valid() && Inv(cfg, c, g) && Enabled(cfg, c, i, Free(block))
    ensures Inv(cfg, DoFree(cfg, c, i, block), g')
  {
    hide BatchesOk, HeadsOk, PlacesOk, HomesOk, ChunksOk, LocksOk, KeysOk, LinksOk, ListsOk,
         UsedOk, MovesOk, DoFree, ThreadOk, ThreadsOk, OnlyOwn;
    g' := AfterHand(g, block, Doomed(i));
    FreeSees(cfg, c, g, i, block);
    HandAccount(cfg, |c.threads|, g, block, User, Doomed(i));
    TransferAccount(cfg, |c.threads|, g, g', [block], User, Doomed(i));
    FreeThreadAfter(cfg, c, g, i, block);
    FreeOwn(cfg, c, g, i, block);
    FreePlaces(cfg, c, g, i, block);
    ThreadsMoved(cfg, c, g, DoFree(cfg, c, i, block), g', i);
  }

  // ---- dropping the owner's count ----------------------------------------------------------

  lemma UncountSees(cfg: Tune, c: Shared, g: Aux, i: nat)
    requires cfg.Valid() && i < |c.threads| == |g.batch| && ThreadOk(cfg, c, g, i) && PlacesOk(cfg, c, g)
    requires c.threads[i].pc.Uncount?
    ensures HandView(cfg, c, g, i, c.threads[i].pc.block, Doomed(i))
  {
  }

  lemma UncountOwn(cfg: Tune, c: Shared, g: Aux, i: nat)
    requires cfg.Valid() && i < |c.threads| && c.threads[i].pc.Uncount? && HeadsOk(cfg, c, g.lists)
    requires HandView(cfg, c, g, i, c.threads[i].pc.block, Doomed(i))
    ensures OnlyOwn(c, g, DoUncount(c, i), AfterHand(g, c.threads[i].pc.block, Dropped(i)), i)
  {
    hide Size, Which, Largest16, BinCount, Quotient, Threshold;
    OwnHeadKept(cfg, c, DoUncount(c, i), g.lists, i, Slot(c.threads[i].pc.bin, c.threads[i].key));
  }

  lemma UncountEffects(cfg: Tune, c: Shared, g: Aux, i: nat)
    requires cfg.Valid() && i < |c.threads| && c.threads[i].pc.Uncount? && HeadsOk(cfg, c, g.lists)
    requires HandView(cfg, c, g, i, c.threads[i].pc.block, Doomed(i))
    requires OnlyOwn(c, g, DoUncount(c, i), AfterHand(g, c.threads[i].pc.block, Dropped(i)), i)
    ensures EffectsOk(cfg, c, g, DoUncount(c, i), AfterHand(g, c.threads[i].pc.block, Dropped(i)), i,
                      [c.threads[i].pc.block])
  {
    hide OnlyOwn, Size, Which, Largest16, BinCount, Quotient, Threshold;
    OwnHeadKept(cfg, c, DoUncount(c, i), g.lists, i, Slot(c.threads[i].pc.bin, c.threads[i].key));
  }

  lemma UncountUsedOk(cfg: Tune, c: Shared, g: Aux, i: nat)
    requires cfg.Valid() && i < |c.threads| && c.threads[i].pc.Uncount? && UsedOk(cfg, c, g)
    requires HandView(cfg, c, g, i, c.threads[i].pc.block, Doomed(i))
    ensures UsedOk(cfg, DoUncount(c, i), AfterHand(g, c.threads[i].pc.block, Dropped(i)))
  {
    hide Size, Which, Largest16, BinCount, Quotient, Threshold;
    var c', block := DoUncount(c, i), c.threads[i].pc.block;
    var g' := AfterHand(g, block, Dropped(i));
    var theirs := Slot(c.threads[i].pc.bin, Owner(c.mem, block));
    forall s | ValidSlot(cfg, s)
      ensures c'.Used(s) == |Outstanding(c'.mem, g'.place, g'.home, s)|
    {
      var before, after := Outstanding(c.mem, g.place, g.home, s), Outstanding(c'.mem, g'.place, g'.home, s);
      if s == theirs {
        assert block in before;
        assert after == before - {block};
      } else {
        assert after == before;
      }
    }
  }

  lemma UncountRest(cfg: Tune, c: Shared, g: Aux, i: nat)
    requires cfg.Valid() && i < |c.threads| && c.threads[i].pc.Uncount? && LocksOk(c.threads, c.locked)
    requires HandView(cfg, c, g, i, c.threads[i].pc.block, Doomed(i))
    ensures var c', block := DoUncount(c, i), c.threads[i].pc.block;
      && ArriveOk(cfg, c', g.home, [block], Dropped(i))
      && LocksOk(c'.threads, c'.locked) && c'.mem == c.mem
  {
    hide Size, Which, Largest16, BinCount, Quotient, Threshold;
    LocksWithout(c.threads, c.locked, i, DoUncount(c, i).threads[i].pc, c.locked);
  }

  lemma KeepUncount(cfg: Tune, c: Shared, g: Aux, i: nat) returns (g': Aux)
    requires cfg.Valid() && Inv(cfg, c, g) && Enabled(cfg, c, i, Go) && c.threads[i].pc.Uncount?
    ensures Inv(cfg, DoUncount(c, i), g')
  {
    hide BatchesOk, HeadsOk, PlacesOk, HomesOk, ChunksOk, LocksOk, KeysOk, LinksOk, ListsOk,
         UsedOk, ArriveOk, EffectsOk, MovesOk, DoUncount, ThreadOk, OnlyOwn, PlaceOk;
    var block := c.threads[i].pc.block;
    g' := AfterHand(g, block, Dropped(i));
    UncountSees(cfg, c, g, i);
    HandAccount(cfg, |c.threads|, g, block, Doomed(i), Dropped(i));
    UncountOwn(cfg, c, g, i);
    UncountEffects(cfg, c, g, i);
    UncountUsedOk(cfg, c, g, i);
    UncountRest(cfg, c, g, i);
    Transfer(cfg, c, g, DoUncount(c, i), g', i, [block], Doomed(i), Dropped(i));
  }

  // ---- pushing the block on the thread's own list ----------------------------------------

  ghost predicate PushView(cfg: Tune, c: Shared, g: Aux, i: nat)
    requires cfg.Valid()
  {
    && i < |c.threads| && c.threads[i].pc.Push?
    && HandView(cfg, c, g, i, c.threads[i].pc.block, Dropped(i))
    && var mine := Slot(c.threads[i].pc.bin, c.threads[i].key);
       ValidSlot(cfg, mine) && HeadOk(c, mine, g.lists[mine])
  }

  lemma PushHand(cfg: Tune, c: Shared, g: Aux, i: nat)
    requires cfg.Valid() && i < |c.threads| == |g.batch| && ThreadOk(cfg, c, g, i) && PlacesOk(cfg, c, g)
    requires c.threads[i].pc.Push?
    ensures HandView(cfg, c, g, i, c.threads[i].pc.block, Dropped(i))
  {
  }

  lemma PushSees(cfg: Tune, c: Shared, g: Aux, i: nat)
    requires cfg.Valid() && Inv(cfg, c, g) && i < |c.threads| && c.threads[i].pc.Push?
    ensures PushView(cfg, c, g, i)
  {
    hide ThreadOk, PlaceOk, LinksOk, Size, Which, Largest16, Quotient, Threshold;
    PushHand(cfg, c, g, i);
    MineSteady(cfg, c, g, i, c.threads[i].pc.bin);
  }

  ghost function AfterPush(c: Shared, g: Aux, i: nat): Aux
    requires i < |c.threads| && c.threads[i].pc.Push?
    requires Slot(c.threads[i].pc.bin, c.threads[i].key) in g.lists
  {
    var mine, block := Slot(c.threads[i].pc.bin, c.threads[i].key), c.threads[i].pc.block;
    g.(lists := g.lists[mine := [block] + g.lists[mine]], place := Moved(g.place, [block], Listed(mine)))
  }

  lemma PushAccount(cfg: Tune, c: Shared, g: Aux, i: nat)
    requires cfg.Valid() && PushView(cfg, c, g, i) && ListsOk(cfg, g.lists, g.place)
    ensures var mine, block := Slot(c.threads[i].pc.bin, c.threads[i].key), c.threads[i].pc.block;
      MovesOk(cfg, |c.threads|, g, AfterPush(c, g, i), [block], Dropped(i), Listed(mine))
  {
    hide Size, Which, Largest16, BinCount, Quotient, Threshold, PlaceOk, Members, HeadOk;
  }

  lemma PushLinks(cfg: Tune, c: Shared, g: Aux, i: nat)
    requires cfg.Valid() && PushView(cfg, c, g, i)
    requires ListsOk(cfg, g.lists, g.place) && LinksOk(cfg, c.mem, g.lists)
    ensures LinksOk(cfg, DoPush(c, i).mem, AfterPush(c, g, i).lists)
  {
    hide Size, Which, Largest16, BinCount, Quotient, Threshold, PlaceOk, Distinct;
    var c', g' := DoPush(c, i), AfterPush(c, g, i);
    var mine, block := Slot(c.threads[i].pc.bin, c.threads[i].key), c.threads[i].pc.block;
    forall s | ValidSlot(cfg, s) && s in g'.lists ensures Linked(c'.mem, g'.lists[s], 0) {
      assert Linked(c.mem, g.lists[s], 0);
      assert Members(g.lists[s], g.place, Listed(s)) && block !in g.lists[s];
      if s == mine { ConsLinked(c.mem, g.lists[mine], block); }
    }
  }

  lemma ConsLinked(mem: map<Addr, Cell>, l: seq<Addr>, a: Addr)
    requires Linked(mem, l, 0) && a !in l
    ensures Linked(mem[a := Next(Head(l))], [a] + l, 0)
  {
    var m, r := mem[a := Next(Head(l))], [a] + l;
    forall k | 0 <= k < |r| && k + 1 < |r| ensures r[k] in m && m[r[k]] == Next(r[k + 1]) {
      if k > 0 { assert r[k] == l[k - 1] && r[k + 1] == l[k - 1 + 1]; }
    }
  }

  lemma PushOwn(cfg: Tune, c: Shared, g: Aux, i: nat)
    requires cfg.Valid() && PushView(cfg, c, g, i)
    ensures OnlyOwn(c, g, DoPush(c, i), AfterPush(c, g, i), i)
  {
    hide Size, Which, Largest16, BinCount, Quotient, Threshold, ThreadOk, PlaceOk;
  }

  lemma PushHeads(cfg: Tune, c: Shared, g: Aux, i: nat)
    requires cfg.Valid() && PushView(cfg, c, g, i)
    ensures HeadsKept(cfg, c, g, DoPush(c, i), AfterPush(c, g, i), i)
  {
    hide Size, Which, Largest16, BinCount, Quotient, Threshold, PlaceOk;
  }

  lemma PushEffects(cfg: Tune, c: Shared, g: Aux, i: nat)
    requires cfg.Valid() && PushView(cfg, c, g, i)
    requires ThreadOk(cfg, DoPush(c, i), AfterPush(c, g, i), i)
    requires OnlyOwn(c, g, DoPush(c, i), AfterPush(c, g, i), i)
    ensures EffectsOk(cfg, c, g, DoPush(c, i), AfterPush(c, g, i), i, [c.threads[i].pc.block])
  {
    hide OnlyOwn, HeadsKept, HeadOk, Size, Which, Largest16, BinCount, Quotient, Threshold, ThreadOk, PlaceOk;
    PushHeads(cfg, c, g, i);
  }

  lemma PushThread(cfg: Tune, c: Shared, g: Aux, i: nat)
    requires cfg.Valid() && PushView(cfg, c, g, i)
    ensures ThreadOk(cfg, DoPush(c, i), AfterPush(c, g, i), i)
  {
    hide Size, Which, Largest16, BinCount, Quotient, Threshold, PlaceOk, HeadOk;
  }

  lemma PushRest(cfg: Tune, c: Shared, g: Aux, i: nat)
    requires cfg.Valid() && PushView(cfg, c, g, i) && LocksOk(c.threads, c.locked) && UsedOk(cfg, c, g)
    ensures var c', mine := DoPush(c, i), Slot(c.threads[i].pc.bin, c.threads[i].key);
      && ArriveOk(cfg, c', g.home, [c.threads[i].pc.block], Listed(mine))
      && LocksOk(c'.threads, c'.locked) && UsedOk(cfg, c', AfterPush(c, g, i))
  {
    hide Size, Which, Largest16, BinCount, Quotient, Threshold;
    var c', mine := DoPush(c, i), Slot(c.threads[i].pc.bin, c.threads[i].key);
    LocksWithout(c.threads, c.locked, i, Idle, c.locked);
    UsedMoved(cfg, c, g, c', AfterPush(c, g, i), [c.threads[i].pc.block], Dropped(i), Listed(mine));
  }

  lemma KeepPush(cfg: Tune, c: Shared, g: Aux, i: nat) returns (g': Aux)
    requires cfg.Valid() && Inv(cfg, c, g) && Enabled(cfg, c, i, Go) && c.threads[i].pc.Push?
    ensures Inv(cfg, DoPush(c, i), g')
  {
    hide BatchesOk, HeadsOk, PlacesOk, ThreadsOk, HomesOk, ChunksOk, LocksOk, KeysOk, LinksOk, ListsOk,
         UsedOk, ArriveOk, EffectsOk, MovesOk, DoPush, ThreadOk, OnlyOwn, PlaceOk;
    PushSees(cfg, c, g, i);
    g' := AfterPush(c, g, i);
    PushAccount(cfg, c, g, i);
    PushLinks(cfg, c, g, i);
    PushThread(cfg, c, g, i);
    PushOwn(cfg, c, g, i);
    PushEffects(cfg, c, g, i);
    PushRest(cfg, c, g, i);
    Transfer(cfg, c, g, DoPush(c, i), g', i, [c.threads[i].pc.block], Dropped(i),
             Listed(Slot(c.threads[i].pc.bin, c.threads[i].key)));
  }
}

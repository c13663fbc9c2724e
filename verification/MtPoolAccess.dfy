/** What single steps of a run may rely on: the headers they read, the sizes of
    the batches they move, exclusive sections, thread ids, and no deadlock. */
module MtPoolAccess {
  import opened BinMap
  import opened MtPool
  import opened MtPoolInv
  import opened MtPoolMoves
  import opened MtPoolRefill
  import opened MtPoolChunk
  import opened MtPoolBounds
  import opened MtPoolUse
  import opened MtPoolIds
  import opened MtPoolRuns
  import opened MtPoolSafety

  // ---- headers ------------------------------------------------------------------------

  lemma WalkReadSafe(cfg: Tune, c: Shared, g: Aux, i: nat)
    requires cfg.Valid() && i < |c.threads| && i < |g.batch| && ThreadOk(cfg, c, g, i)
    requires LinksOk(cfg, c.mem, g.lists)
    requires c.threads[i].pc.GrabWalk? || c.threads[i].pc.DetachWalk?
    ensures ReadSafe(c, i)
  {
    hide Size, Which, Largest16, BinCount, Quotient, Threshold;
    var th := c.threads[i];
    if th.pc.GrabWalk? {
      var l, k := g.batch[i], |g.batch[i]| - 1 - th.pc.left;
      LinkedCell(c.mem, l, Head(g.lists[Slot(th.pc.bin, 0)]), k);
    } else {
      var mine := Slot(th.pc.bin, th.key);
      assert ValidSlot(cfg, mine);
      LinkedCell(c.mem, g.lists[mine], 0, th.pc.removed - 1 - th.pc.left);
    }
  }

  lemma LinkedCell(mem: map<Addr, Cell>, l: seq<Addr>, tail: Addr, k: nat)
    requires Linked(mem, l, tail) && k < |l|
    ensures l[k] in mem && mem[l[k]].Next?
  {
    assert k + 1 < |l| ==> mem[l[k]] == Next(l[k + 1]);
  }

  lemma PopReadSafe(cfg: Tune, c: Shared, g: Aux, i: nat)
    requires cfg.Valid() && Inv(cfg, c, g) && i < |c.threads| && c.threads[i].pc.Pop?
    ensures ReadSafe(c, i)
  {
    hide BatchesOk, LinksOk, PlacesOk, UsedOk, HomesOk, ChunksOk, LocksOk, Size, Which, Largest16, BinCount,
         Quotient, Threshold;
    var mine := Slot(c.threads[i].pc.bin, c.threads[i].key);
    PopSees(cfg, c, g, i);
    LinkedCell(c.mem, g.lists[mine], 0, 0);
  }

  lemma UncountReadSafe(cfg: Tune, c: Shared, g: Aux, i: nat)
    requires cfg.Valid() && i < |c.threads| && i < |g.batch| && ThreadOk(cfg, c, g, i) && PlacesOk(cfg, c, g)
    requires c.threads[i].pc.Uncount?
    ensures ReadSafe(c, i)
  {
    var block := c.threads[i].pc.block;
    assert PlaceOk(cfg, c, g.home, block, g.place[block]);
  }

  /** In every run, whatever a thread is about to read through a header is there:
      a link is never read from a header that holds an owner, an owner never from
      one that holds a link, and no walk runs off the end of its list. */
  lemma ReadsAreSafe(cfg: Tune, n: nat, schedule: seq<(nat, Act)>, c: Shared, i: nat)
    requires cfg.Valid() && ReachedBy(cfg, n, schedule, c) && i < |c.threads|
    ensures ReadSafe(c, i)
  {
    hide ListsOk, BatchesOk, LinksOk, HeadsOk, PlacesOk, ThreadsOk, UsedOk, HomesOk, ChunksOk, LocksOk, KeysOk,
         ThreadOk, Run;
    var g := RunKeeps(cfg, n, schedule);
    OneThread(cfg, c, g, i);
    match c.threads[i].pc {
      case GrabWalk(_, _, _, _) => WalkReadSafe(cfg, c, g, i);
      case DetachWalk(_, _, _, _, _, _) => WalkReadSafe(cfg, c, g, i);
      case Pop(_, _) => PopReadSafe(cfg, c, g, i);
      case Uncount(_, _) => UncountReadSafe(cfg, c, g, i);
      case _ =>
    }
  }

  // ---- batches --------------------------------------------------------------------------

  /** A refill from the global list gives a chunk's worth, or the whole list if that is less,
      and at least one block, and takes exactly that many from the global list. */
  lemma RefillAmount(cfg: Tune, n: nat, schedule: seq<(nat, Act)>, c: Shared, i: nat)
    requires cfg.Valid() && ReachedBy(cfg, n, schedule, c)
    requires Enabled(cfg, c, i, Go) && c.threads[i].pc.Refill?
    requires c.First(Slot(c.threads[i].pc.bin, 0)) != 0
    ensures var c', b := Step(cfg, c, i, Go), c.threads[i].pc.bin;
      var mine, pool := Slot(b, c.threads[i].key), Slot(b, 0);
      && c'.Free(mine) == (if cfg.BlockCount(b) < c.Free(pool) then cfg.BlockCount(b) else c.Free(pool))
      && 1 <= c'.Free(mine) && c'.Free(mine) + c'.Free(pool) == c.Free(pool)
  {
    hide Inv, Run, Size, Which, Largest16, BinCount, Quotient, Threshold;
    var g := RunKeeps(cfg, n, schedule);
    RefillSees(cfg, c, g, i);
    FitsView(cfg, c, g, i);
  }

  /** n pieces of the size fit the total, and one more does not. */
  predicate MostThatFit(n: int, size: nat, total: nat) { n * size <= total < (n + 1) * size }

  lemma QuotientFits(a: nat, d: nat)
    requires d >= 1
    ensures MostThatFit(Quotient(a, d), d, a)
  {
  }

  lemma FitsView(cfg: Tune, c: Shared, g: Aux, i: nat)
    requires cfg.Valid() && RefillView(cfg, c, g, i)
    ensures cfg.BlockCount(c.threads[i].pc.bin) >= 1
  {
    BlockFits(cfg, c.threads[i].pc.bin);
  }

  lemma ChunkGives(cfg: Tune, n: nat, schedule: seq<(nat, Act)>, c: Shared, i: nat, base: Addr)
    requires cfg.Valid() && ReachedBy(cfg, n, schedule, c) && Enabled(cfg, c, i, Chunk(base))
    ensures var c', b := Step(cfg, c, i, Chunk(base)), c.threads[i].pc.bin;
      1 <= c'.Free(Slot(b, c.threads[i].key)) == cfg.BlockCount(b)
  {
    hide ListsOk, BatchesOk, LinksOk, HeadsOk, PlacesOk, UsedOk, HomesOk, ChunksOk, LocksOk, KeysOk,
         Run, Size, Which, Largest16, BinCount, Quotient, Threshold;
    var g := RunKeeps(cfg, n, schedule);
    OneThread(cfg, c, g, i);
    ChunkSees(cfg, c, g, i, base);
  }

  /** A new chunk gives as many blocks, header and payload, as fit it, and at least one. */
  lemma ChunkAmount(cfg: Tune, n: nat, schedule: seq<(nat, Act)>, c: Shared, i: nat, base: Addr)
    requires cfg.Valid() && ReachedBy(cfg, n, schedule, c) && Enabled(cfg, c, i, Chunk(base))
    ensures var c', b := Step(cfg, c, i, Chunk(base)), c.threads[i].pc.bin;
      var got := c'.Free(Slot(b, c.threads[i].key));
      1 <= got && MostThatFit(got, Size(cfg.minBin, b) + cfg.header, cfg.chunkSize)
  {
    hide Run, Size, Which, Largest16, BinCount, Quotient, Threshold, MostThatFit, DoChunk;
    ChunkGives(cfg, n, schedule, c, i, base);
    QuotientFits(cfg.chunkSize, cfg.BlockSize(c.threads[i].pc.bin));
  }

  /** A release returns blocks exactly when the surplus exceeds the threshold and the list,
      and then as many as leave the fewest that cover the used blocks -- as long as the surplus
      fits a signed word.  Even where it does not, it returns at least one and no more than its
      list holds, for every headroom: with headroom 0 it returns none and never divides by zero. */
  lemma ReturnAmount(cfg: Tune, n: nat, schedule: seq<(nat, Act)>, c: Shared, i: nat, block: Addr)
    requires cfg.Valid() && ReachedBy(cfg, n, schedule, c) && Enabled(cfg, c, i, Free(block))
    ensures var pc' := Step(cfg, c, i, Free(block)).threads[i].pc;
      var mine := Slot(Which(cfg.minBin, c.live[block]), c.threads[i].key);
      var free, used, h := c.Free(mine), c.Used(mine), cfg.headroom;
      && free >= 0 && used >= 0 && (if pc'.DetachWalk? then pc'.bin == mine.bin else pc' == Uncount(mine.bin, block))
      && (pc'.DetachWalk? ==> h >= 1 && 1 <= pc'.removed <= free && CountedList(c, mine))
      && (free * h - used < cfg.half ==>
            && (pc'.DetachWalk? <==> PlainReturn(cfg, free, used, mine.bin))
            && (pc'.DetachWalk? ==> KeepsFewest(h, free, used, pc'.removed)))
  {
    hide ListsOk, BatchesOk, LinksOk, HeadsOk, PlacesOk, UsedOk, HomesOk, ChunksOk, LocksOk, KeysOk, ThreadsOk,
         Run, Size, Which, Largest16, Quotient, Threshold, ReturnsBlocks, Removed, CountedList,
         PlainReturn, KeepsFewest;
    var g := RunKeeps(cfg, n, schedule);
    FreeSees(cfg, c, g, i, block);
    var mine := Slot(g.home[block].bin, c.threads[i].key);
    ReturnExact(cfg, |g.lists[mine]|, c.Used(mine), mine.bin);
    if ReturnsBlocks(cfg, c.Free(mine), c.Used(mine), mine.bin) {
      SurplusBounds(cfg, |g.lists[mine]|, c.Used(mine), mine.bin);
      MineSteady(cfg, c, g, i, mine.bin);
      FreeCountsList(cfg, n, schedule, c, mine);
    }
  }

  // ---- ids, locks --------------------------------------------------------------------------

  /** Two threads never hold the same id. */
  lemma IdsDistinct(cfg: Tune, n: nat, schedule: seq<(nat, Act)>, c: Shared, i: nat, j: nat)
    requires cfg.Valid() && ReachedBy(cfg, n, schedule, c) && i < j < |c.threads|
    ensures c.threads[i].key <= cfg.maxThreads
    ensures c.threads[i].key != 0 ==> c.threads[i].key != c.threads[j].key
  {
    hide ListsOk, BatchesOk, LinksOk, HeadsOk, PlacesOk, UsedOk, HomesOk, ChunksOk, LocksOk, ThreadsOk, Run;
    var g := RunKeeps(cfg, n, schedule);
  }

  lemma {:induction false} ThreadsStay(cfg: Tune, n: nat, schedule: seq<(nat, Act)>)
    requires cfg.Valid() && Run(cfg, n, schedule).Some?
    ensures |Run(cfg, n, schedule).value.threads| == n
  {
    hide Step, Enabled;
    if schedule != [] {
      var before := schedule[..|schedule| - 1];
      var (i, act) := schedule[|schedule| - 1];
      ThreadsStay(cfg, n, before);
      StepIsLocal(cfg, Run(cfg, n, before).value, i, act);
    }
  }

  /** With no more threads than ids, however threads come and go, a thread that has
      no id can take one: ids of ended threads are all recycled. */
  lemma IdsRecycled(cfg: Tune, n: nat, schedule: seq<(nat, Act)>, c: Shared, i: nat)
    requires cfg.Valid() && ReachedBy(cfg, n, schedule, c) && n <= cfg.maxThreads
    requires i < |c.threads| && c.threads[i].key == 0
    ensures |c.threads| == n && Enabled(cfg, c, i, TakeId)
  {
    hide ListsOk, BatchesOk, LinksOk, HeadsOk, PlacesOk, UsedOk, HomesOk, ChunksOk, LocksOk, KeysOk,
         Run, Size, Which, Largest16, BinCount, Quotient, Threshold;
    ThreadsStay(cfg, n, schedule);
    var g := RunKeeps(cfg, n, schedule);
    IdAvailable(cfg, c, g, i);
    OneThread(cfg, c, g, i);
  }

  /** At most one thread is in the critical section of a bin. */
  lemma SectionsExclusive(cfg: Tune, n: nat, schedule: seq<(nat, Act)>, c: Shared, i: nat, j: nat, b: nat)
    requires cfg.Valid() && ReachedBy(cfg, n, schedule, c) && i < j < |c.threads|
    ensures !(c.threads[i].pc.Holds(b) && c.threads[j].pc.Holds(b))
  {
    hide ListsOk, BatchesOk, LinksOk, HeadsOk, PlacesOk, UsedOk, HomesOk, ChunksOk, KeysOk, ThreadsOk, Run;
    var g := RunKeeps(cfg, n, schedule);
  }

  /** Every lock that is taken has a thread inside that can go on. */
  predicate LocksServed(c: Shared) {
    forall b :: b in c.locked ==> Served(c.threads, b)
  }

  predicate Served(threads: seq<Thread>, b: nat) {
    exists i :: 0 <= i < |threads| && threads[i].pc.Holds(b)
  }

  /** A step changes no thread but its own, opens only the lock of its own section,
      and keeps that closed as long as it stays inside. */
  ghost predicate LocalStep(c: Shared, c': Shared, i: nat) {
    && i < |c.threads| == |c'.threads|
    && (forall j :: 0 <= j < |c.threads| && j != i ==> c'.threads[j] == c.threads[j])
    && (forall b :: b in c'.locked && c.threads[i].pc.Holds(b) ==> c'.threads[i].pc.Holds(b))
    && (forall b :: b in c'.locked && b !in c.locked ==> c'.threads[i].pc.Holds(b))
  }

  /** A step that sets a program counter and leaves the locks of the thread right. */
  lemma PcIsLocal(c: Shared, c': Shared, i: nat, pc: Pc)
    requires i < |c.threads| && c'.threads == c.threads[i := c.threads[i].(pc := pc)]
    requires forall b :: b in c'.locked && (b !in c.locked || c.threads[i].pc.Holds(b)) ==> pc.Holds(b)
    ensures LocalStep(c, c', i)
  {
  }

  lemma LocalCall(cfg: Tune, c: Shared, i: nat, act: Act)
    requires cfg.Valid() && Enabled(cfg, c, i, act)
    requires !act.Go?
    ensures LocalStep(c, Step(cfg, c, i, act), i)
  {
    hide Size, Which, Largest16, BinCount, Quotient, Threshold, Follow, Owner,
         DoLockRefill, DoRefill, DoGrab, DoCarve, DoPop, DoCount, DoUncount, DoPush, DoDetach, DoLockReturn, DoSplice;
  }

  lemma LocalGrab(cfg: Tune, c: Shared, i: nat, act: Act)
    requires cfg.Valid() && Enabled(cfg, c, i, act)
    requires act.Go? && (c.threads[i].pc.WantLock? || c.threads[i].pc.GrabWalk?)
    ensures LocalStep(c, Step(cfg, c, i, act), i)
  {
    hide LocalStep, Follow, Owner, ReturnsBlocks, Removed, Which;
    var c' := Step(cfg, c, i, act);
    PcIsLocal(c, c', i, c'.threads[i].pc);
  }

  lemma LocalRefill(cfg: Tune, c: Shared, i: nat, act: Act)
    requires cfg.Valid() && Enabled(cfg, c, i, act)
    requires act.Go? && c.threads[i].pc.Refill?
    ensures LocalStep(c, Step(cfg, c, i, act), i)
  {
    hide LocalStep;
    var c' := DoRefill(cfg, c, i);
    PcIsLocal(c, c', i, c'.threads[i].pc);
  }

  lemma LocalReturn(cfg: Tune, c: Shared, i: nat, act: Act)
    requires cfg.Valid() && Enabled(cfg, c, i, act)
    requires act.Go? && (c.threads[i].pc.DetachWalk? || c.threads[i].pc.WantReturn? || c.threads[i].pc.Splice?)
    ensures LocalStep(c, Step(cfg, c, i, act), i)
  {
    hide LocalStep, Follow, Owner, ReturnsBlocks, Removed, Which;
    var c' := Step(cfg, c, i, act);
    PcIsLocal(c, c', i, c'.threads[i].pc);
  }

  lemma LocalCarve(cfg: Tune, c: Shared, i: nat, act: Act)
    requires cfg.Valid() && Enabled(cfg, c, i, act)
    requires act.Go? && c.threads[i].pc.Carve?
    ensures LocalStep(c, Step(cfg, c, i, act), i)
  {
    hide LocalStep;
    var c' := DoCarve(cfg, c, i);
    PcIsLocal(c, c', i, c'.threads[i].pc);
  }

  lemma LocalUse(cfg: Tune, c: Shared, i: nat, act: Act)
    requires cfg.Valid() && Enabled(cfg, c, i, act)
    requires act.Go? && (c.threads[i].pc.Pop? || c.threads[i].pc.CountUsed?)
    ensures LocalStep(c, Step(cfg, c, i, act), i)
  {
    hide LocalStep, Follow, Owner, ReturnsBlocks, Removed, Which;
    var c' := Step(cfg, c, i, act);
    PcIsLocal(c, c', i, c'.threads[i].pc);
  }

  lemma LocalPut(cfg: Tune, c: Shared, i: nat, act: Act)
    requires cfg.Valid() && Enabled(cfg, c, i, act)
    requires act.Go? && (c.threads[i].pc.Uncount? || c.threads[i].pc.Push?)
    ensures LocalStep(c, Step(cfg, c, i, act), i)
  {
    hide LocalStep, Follow, Owner, ReturnsBlocks, Removed, Which;
    var c' := Step(cfg, c, i, act);
    PcIsLocal(c, c', i, c'.threads[i].pc);
  }

  lemma StepIsLocal(cfg: Tune, c: Shared, i: nat, act: Act)
    requires cfg.Valid() && Enabled(cfg, c, i, act)
    ensures LocalStep(c, Step(cfg, c, i, act), i)
  {
    hide Step, LocalStep;
    if !act.Go? {
      LocalCall(cfg, c, i, act);
    } else {
      match c.threads[i].pc {
        case WantLock(_, _) => LocalGrab(cfg, c, i, act);
        case Refill(_, _) => LocalRefill(cfg, c, i, act);
        case GrabWalk(_, _, _, _) => LocalGrab(cfg, c, i, act);
        case DetachWalk(_, _, _, _, _, _) => LocalReturn(cfg, c, i, act);
        case WantReturn(_, _, _, _, _) => LocalReturn(cfg, c, i, act);
        case Splice(_, _, _, _, _) => LocalReturn(cfg, c, i, act);
        case Carve(_, _, _, _) => LocalCarve(cfg, c, i, act);
        case Pop(_, _) => LocalUse(cfg, c, i, act);
        case CountUsed(_, _, _) => LocalUse(cfg, c, i, act);
        case Uncount(_, _) => LocalPut(cfg, c, i, act);
        case Push(_, _) => LocalPut(cfg, c, i, act);
      }
    }
  }

  lemma ServedStep(cfg: Tune, c: Shared, i: nat, act: Act)
    requires cfg.Valid() && Enabled(cfg, c, i, act) && LocksServed(c)
    ensures LocksServed(Step(cfg, c, i, act))
  {
    hide Step, Enabled;
    var c' := Step(cfg, c, i, act);
    StepIsLocal(cfg, c, i, act);
    forall b | b in c'.locked ensures Served(c'.threads, b) {
      if b in c.locked {
        var j :| 0 <= j < |c.threads| && c.threads[j].pc.Holds(b);
        assert c'.threads[j].pc.Holds(b);
      } else {
        assert c'.threads[i].pc.Holds(b);
      }
    }
  }

  lemma {:induction false} RunServed(cfg: Tune, n: nat, schedule: seq<(nat, Act)>)
    requires cfg.Valid() && Run(cfg, n, schedule).Some?
    ensures LocksServed(Run(cfg, n, schedule).value)
  {
    hide LocksServed, Step, Enabled, Start;
    if schedule == [] {
      StartServed(cfg, n);
    } else {
      var before := schedule[..|schedule| - 1];
      var (i, act) := schedule[|schedule| - 1];
      RunServed(cfg, n, before);
      ServedStep(cfg, Run(cfg, n, before).value, i, act);
    }
  }

  lemma StartServed(cfg: Tune, n: nat)
    requires cfg.Valid()
    ensures LocksServed(Start(cfg, n))
  {
  }

  /** No deadlock: a thread inside a call can always take its next step, or waits
      for memory, or waits for a lock whose holder can take its next step. */
  lemma NoDeadlock(cfg: Tune, n: nat, schedule: seq<(nat, Act)>, c: Shared, i: nat)
    requires cfg.Valid() && ReachedBy(cfg, n, schedule, c) && i < |c.threads| && !c.threads[i].pc.Idle?
    ensures Enabled(cfg, c, i, Go) || c.threads[i].pc.NeedChunk?
         || exists j :: 0 <= j < |c.threads| && j != i && c.threads[j].pc.Holds(c.threads[i].pc.bin)
                        && Enabled(cfg, c, j, Go)
  {
    RunServed(cfg, n, schedule);
    if (c.threads[i].pc.WantLock? || c.threads[i].pc.WantReturn?) && c.threads[i].pc.bin in c.locked {
      var j :| 0 <= j < |c.threads| && c.threads[j].pc.Holds(c.threads[i].pc.bin);
      assert Enabled(cfg, c, j, Go);
    }
  }
}

/** The allocator's own routines, on fields updated in place.  Each statement group is
    one step of the machine, so after any sequence of calls -- by any threads, one call at
    a time -- the fields hold a state the machine reaches, and what is proved of every run
    is true of them. */
module MtPoolCode {
  import opened BinMap
  import opened MtPool
  import opened MtPoolInv
  import opened MtPoolBounds
  import opened MtPoolUse
  import opened MtPoolRuns
  import opened MtPoolSafety
  import opened MtPoolAccess

  lemma RunStep(cfg: Tune, n: nat, schedule: seq<(nat, Act)>, c: Shared, i: nat, act: Act)
    requires cfg.Valid() && ReachedBy(cfg, n, schedule, c) && Enabled(cfg, c, i, act)
    ensures ReachedBy(cfg, n, schedule + [(i, act)], Step(cfg, c, i, act))
  {
    hide Step, Enabled, Start;
    var s := schedule + [(i, act)];
    assert s[..|s| - 1] == schedule;
  }

  /** Nobody but thread i is inside a call. */
  predicate Alone(threads: seq<Thread>, i: nat) {
    i < |threads| && forall j :: 0 <= j < |threads| && j != i ==> threads[j].pc.Idle?
  }

  /** With nobody else inside a call, no lock is taken but those thread i holds. */
  lemma AloneUnlocked(cfg: Tune, n: nat, schedule: seq<(nat, Act)>, c: Shared, i: nat)
    requires cfg.Valid() && ReachedBy(cfg, n, schedule, c) && Alone(c.threads, i)
    ensures forall b :: b in c.locked ==> c.threads[i].pc.Holds(b)
  {
    RunServed(cfg, n, schedule);
    forall b | b in c.locked ensures c.threads[i].pc.Holds(b) {
      var j :| 0 <= j < |c.threads| && c.threads[j].pc.Holds(b);
    }
  }

  /** The block a thread is about to pop is not in the program's hands. */
  lemma PoppedIsFree(cfg: Tune, n: nat, schedule: seq<(nat, Act)>, c: Shared, i: nat)
    requires cfg.Valid() && ReachedBy(cfg, n, schedule, c) && i < |c.threads| && c.threads[i].pc.Pop?
    ensures c.First(Slot(c.threads[i].pc.bin, c.threads[i].key)) !in c.live
  {
    hide Run, BatchesOk, HeadsOk, ThreadsOk, UsedOk, HomesOk, ChunksOk, LocksOk, KeysOk;
    var g := RunKeeps(cfg, n, schedule);
    PopSees(cfg, c, g, i);
    assert ValidSlot(cfg, Slot(c.threads[i].pc.bin, c.threads[i].key));
    ListedBlock(cfg, c, g, Slot(c.threads[i].pc.bin, c.threads[i].key), 0);
  }

  /** Every counter 0 and every list empty, for the global pool and each thread. */
  method EmptyBins(bins: nat, maxThreads: nat)
    returns (first: map<Slot, Addr>, free: map<Slot, int>, used: map<Slot, int>)
    ensures first == map b: nat, t: nat | b < bins && t <= maxThreads :: Slot(b, t) := 0
    ensures free == map b: nat, t: nat | b < bins && t <= maxThreads :: Slot(b, t) := 0
    ensures used == free
  {
    first, free, used := map[], map[], map[];
    var n := 0;
    while n < bins
      invariant n <= bins
      invariant forall s: Slot :: s in first <==> s.bin < n && s.tid <= maxThreads
      invariant forall s: Slot :: s in free <==> s.bin < n && s.tid <= maxThreads
      invariant (forall s: Slot :: s in first ==> first[s] == 0) && (forall s: Slot :: s in free ==> free[s] == 0)
      invariant used == free
    {
      var t := 0;
      while t < maxThreads + 1
        invariant t <= maxThreads + 1
        invariant forall s: Slot :: s in first <==> (s.bin < n && s.tid <= maxThreads) || (s.bin == n && s.tid < t)
        invariant forall s: Slot :: s in free <==> (s.bin < n && s.tid <= maxThreads) || (s.bin == n && s.tid < t)
        invariant (forall s: Slot :: s in first ==> first[s] == 0) && (forall s: Slot :: s in free ==> free[s] == 0)
        invariant used == free
      {
        first := first[Slot(n, t) := 0];
        free := free[Slot(n, t) := 0];
        used := used[Slot(n, t) := 0];
        t := t + 1;
      }
      n := n + 1;
    }
    assert forall s: Slot :: s == Slot(s.bin, s.tid);
  }

  /** The list of unused ids: 1, 2, ..., maxThreads. */
  method ListIds(cfg: Tune) returns (next: map<nat, nat>)
    requires cfg.maxThreads >= 1
    ensures next == map k: nat | 1 <= k <= cfg.maxThreads :: SuccessorId(cfg, k)
  {
    next := map[];
    var i := 1;
    while i < cfg.maxThreads
      invariant 1 <= i <= cfg.maxThreads
      invariant next == map k: nat | 1 <= k < i :: SuccessorId(cfg, k)
    {
      next := next[i := i + 1];
      i := i + 1;
    }
    next := next[i := 0];
  }

  function Min(a: int, b: int): int { if a < b then a else b }

  function CountOf(free: map<Slot, int>, s: Slot): int { if s in free then free[s] else 0 }

  /** The first block of a list, all list lengths, and the chunks. */
  datatype Supply = Supply(head: Addr, free: map<Slot, int>, chunks: map<Addr, nat>)

  /** The list `mine` filled: with the front of the global list, whose first block is `stock`,
      up to a chunk's worth; or, that list being empty, with a new chunk at base. */
  function Refilled(cfg: Tune, mine: Slot, stock: Addr, free: map<Slot, int>, chunks: map<Addr, nat>,
                    base: Addr): Supply
    requires cfg.header >= 1
  {
    var pool, count := Slot(mine.bin, 0), cfg.BlockCount(mine.bin);
    if stock == 0 then Supply(base, free[mine := count], chunks[base := mine.bin])
    else
      var n := Min(count, CountOf(free, pool));
      Supply(stock, free[mine := n][pool := CountOf(free, pool) - n], chunks)
  }

  /** n blocks moved from a list to the global one of its bin. */
  function Moved(free: map<Slot, int>, mine: Slot, n: int): map<Slot, int> {
    var pool := Slot(mine.bin, 0);
    if n == 0 then free else free[mine := CountOf(free, mine) - n][pool := CountOf(free, pool) + n]
  }

  function Put(free: map<Slot, int>, mine: Slot): map<Slot, int> { free[mine := CountOf(free, mine) + 1] }

  /** The number of blocks a release may move, from a list of `free` blocks of a thread that
      is charged for `used`: some exactly when the surplus exceeds the threshold and the list,
      and then as many as leave the fewest that cover the used ones -- as long as the surplus
      fits a signed word; and never more than the list holds. */
  predicate Returned(cfg: Tune, bin: int, free: int, used: int, removed: int)
    requires cfg.minBin >= 1
  {
    && 0 <= removed <= free && used >= 0
    && (free * cfg.headroom - used < cfg.half ==>
          if PlainReturn(cfg, free, used, bin) then removed >= 1 && KeepsFewest(cfg.headroom, free, used, removed)
          else removed == 0)
  }

  /** The first block taken off the list. */
  function Taken(mine: Slot, s: Supply): Supply { s.(free := s.free[mine := CountOf(s.free, mine) - 1]) }

  class Pool {
    const cfg: Tune
    const binmap: array<nat>
    var mem: map<Addr, Cell>
    var first: map<Slot, Addr>
    var free: map<Slot, int>
    var used: map<Slot, int>
    var locked: set<nat>
    ghost var chunks: map<Addr, nat>          // what operator new returned, and the bin it was cut for
    var idFirst: nat
    var idNext: map<nat, nat>
    var threads: seq<Thread>                  // the id each thread holds, and where it stands
    ghost var live: map<Addr, nat>            // what the program holds, with the requested size
    ghost var schedule: seq<(nat, Act)>
    ghost const population: nat

    ghost function State(): Shared
      reads this
    {
      Shared(mem, first, free, used, locked, chunks, idFirst, idNext, live, threads)
    }

    /** The fields hold a state of the machine, the table is right, and only thread i may be
        inside a call. */
    ghost predicate Working(i: nat)
      reads this, binmap
    {
      && cfg.Valid() && ReachedBy(cfg, population, schedule, State()) && i < |threads| && Alone(threads, i)
      && binmap.Length == cfg.maxBytes + 1
      && forall bytes :: 0 <= bytes <= cfg.maxBytes ==> binmap[bytes] == Which(cfg.minBin, bytes)
    }

    ghost predicate Valid()
      reads this, binmap
    {
      && cfg.Valid() && ReachedBy(cfg, population, schedule, State()) && Quiescent(State())
      && binmap.Length == cfg.maxBytes + 1
      && forall bytes :: 0 <= bytes <= cfg.maxBytes ==> binmap[bytes] == Which(cfg.minBin, bytes)
    }

    /** The initializer: the bin table, the list of thread ids, and empty lists. */
    constructor (tune: Tune, n: nat)
      requires tune.Valid()
      ensures Valid() && cfg == tune && population == n && |threads| == n && live == map[] && chunks == map[]
      ensures forall s :: ValidSlot(cfg, s) ==> First(s) == 0 && Free(s) == 0 && Used(s) == 0
      ensures idFirst == 1 && forall k :: 1 <= k <= cfg.maxThreads ==>
                                k in idNext && idNext[k] == if k < cfg.maxThreads then k + 1 else 0
    {
      var count, table := BuildBinmap(tune.minBin, tune.maxBytes);
      var heads, frees, useds := EmptyBins(count, tune.maxThreads);
      var ids := ListIds(tune);
      cfg, binmap, population := tune, table, n;
      mem, locked, chunks, idFirst, live := map[], {}, map[], 1, map[];
      first, free, used, idNext := heads, frees, useds, ids;
      threads := seq(n, _ => Thread(0, Idle));
      schedule := [];
    }

    function First(s: Slot): Addr
      reads this
    {
      if s in first then first[s] else 0
    }

    function Free(s: Slot): int
      reads this
    {
      if s in free then free[s] else 0
    }

    function Used(s: Slot): int
      reads this
    {
      if s in used then used[s] else 0
    }

    /** What thread i just did is the step `act`. */
    ghost method Record(i: nat, act: Act, before: Shared)
      requires cfg.Valid() && ReachedBy(cfg, population, schedule, before)
      requires Enabled(cfg, before, i, act) && State() == Step(cfg, before, i, act)
      requires Alone(before.threads, i)
      modifies this`schedule
      ensures ReachedBy(cfg, population, schedule, State()) && Alone(threads, i)
    {
      hide Step, Enabled, Run;
      RunStep(cfg, population, schedule, before, i, act);
      StepIsLocal(cfg, before, i, act);
      schedule := schedule + [(i, act)];
    }

    /** Thread i goes on to pc, which completes the step `act`. */
    method GoOn(i: nat, pc: Pc, act: Act, ghost before: Shared)
      requires cfg.Valid() && ReachedBy(cfg, population, schedule, before) && i < |threads|
      requires Enabled(cfg, before, i, act) && Alone(before.threads, i)
      requires State().SetPc(i, pc) == Step(cfg, before, i, act)
      modifies this`threads, this`schedule
      ensures ReachedBy(cfg, population, schedule, State()) && i < |threads| && Alone(threads, i)
      ensures threads == old(threads)[i := old(threads[i]).(pc := pc)]
    {
      hide Step, Enabled, Run, Alone;
      threads := threads[i := threads[i].(pc := pc)];
      Record(i, act, before);
    }

    /** The thread's id; a thread that has none takes the first of the list. */
    method GetThreadId(i: nat) returns (id: nat)
      requires Working(i) && threads[i].pc.Idle? && population <= cfg.maxThreads
      modifies this
      ensures Working(i) && threads[i].pc.Idle? && id == threads[i].key != 0
      ensures id == if old(threads[i].key) != 0 then old(threads[i].key) else old(idFirst)
      ensures live == old(live) && chunks == old(chunks) && mem == old(mem)
      ensures first == old(first) && free == old(free) && used == old(used)
    {
      if threads[i].key == 0 {
        ghost var before := State();
        IdsRecycled(cfg, population, schedule, before, i);
        var pos := idFirst;
        idFirst := if pos in idNext then idNext[pos] else 0;
        threads := threads[i := Thread(pos, Idle)];
        Record(i, TakeId, before);
      }
      id := threads[i].key;
    }

    /** A thread ends: its id goes back to the front of the list. */
    method DestroyThreadKey(i: nat)
      requires Valid() && i < |threads| && threads[i].key != 0
      modifies this
      ensures Valid() && i < |threads| && threads[i].key == 0 && idFirst == old(threads[i].key) && live == old(live)
      ensures first == old(first) && free == old(free) && used == old(used) && mem == old(mem)
    {
      ghost var before := State();
      var id := threads[i].key;
      idNext := idNext[id := idFirst];
      idFirst := id;
      threads := threads[i := Thread(0, Idle)];
      Record(i, Exit, before);
    }

    /** Between calls, whatever calls were made: held blocks lie in chunks and apart from
        each other, every list is as long as its counter says, every used counter is exact. */
    lemma BetweenCalls()
      requires Valid()
      ensures forall a :: a in live ==>
                exists u :: u in chunks && InChunk(cfg, u, a, a + cfg.header + live[a])
      ensures forall a, a' :: a in live && a' in live && a < a' ==> a + cfg.header + live[a] <= a'
      ensures forall s :: ValidSlot(cfg, s) ==> CountedList(State(), s)
      ensures forall s :: ValidSlot(cfg, s) ==> Used(s) == |HeldFrom(cfg, State(), s)|
    {
      hide Run, Which, CountedList, HeldFrom, InChunk;
      LiveBlocksApart(cfg, population, schedule, State());
      forall s | ValidSlot(cfg, s) ensures CountedList(State(), s) && Used(s) == |HeldFrom(cfg, State(), s)| {
        FreeCountsList(cfg, population, schedule, State(), s);
        UsedCountsHeld(cfg, population, schedule, State(), s);
      }
    }

    // ---- allocate -----------------------------------------------------------------------

    method LockForRefill(i: nat, b: nat, bytes: nat)
      requires Working(i) && threads[i].pc == WantLock(b, bytes)
      modifies this`locked, this`threads, this`schedule
      ensures Working(i) && threads[i].key == old(threads[i].key) && threads[i].pc == Refill(b, bytes)
    {
      hide Run, Alone, Follow, Owner;
      ghost var before := State();
      AloneUnlocked(cfg, population, schedule, before, i);
      locked := locked + {b};
      GoOn(i, Refill(b, bytes), Go, before);
    }

    method UnlockForChunk(i: nat, b: nat, bytes: nat)
      requires Working(i) && threads[i].pc == Refill(b, bytes) && First(Slot(b, 0)) == 0
      modifies this`locked, this`threads, this`schedule
      ensures Working(i) && threads[i].key == old(threads[i].key) && threads[i].pc == NeedChunk(b, bytes)
    {
      hide Run, Alone, Follow, Owner;
      ghost var before := State();
      locked := locked - {b};
      GoOn(i, NeedChunk(b, bytes), Go, before);
    }

    method BeginChunk(i: nat, b: nat, bytes: nat, base: Addr) returns (count: nat)
      requires Working(i) && threads[i].pc == NeedChunk(b, bytes) && FreshChunk(cfg, chunks, base)
      modifies this`first, this`free, this`chunks, this`threads, this`schedule
      ensures Working(i) && threads[i].key == old(threads[i].key) && threads[i].pc == Carve(b, bytes, base, count)
      ensures free == old(free)[Slot(b, threads[i].key) := cfg.BlockCount(b)]
      ensures First(Slot(b, threads[i].key)) == base && chunks == old(chunks)[base := b]
    {
      hide Run, Alone, Follow, Owner, FreshChunk;
      var mine := Slot(b, threads[i].key);
      count := cfg.BlockCount(b);
      ghost var before := State();
      chunks := chunks[base := b];
      first := first[mine := base];
      free := free[mine := count];
      count := if count > 0 then count - 1 else 0;
      GoOn(i, Carve(b, bytes, base, count), Chunk(base), before);
    }

    method CarveOne(i: nat, b: nat, bytes: nat, block: Addr, count: nat) returns (c: Addr)
      requires Working(i) && threads[i].pc == Carve(b, bytes, block, count) && count > 0
      modifies this`mem, this`threads, this`schedule
      ensures Working(i) && threads[i].key == old(threads[i].key) && threads[i].pc == Carve(b, bytes, c, count - 1)
    {
      hide Run, Alone, Follow, Owner;
      ghost var before := State();
      c := block + cfg.BlockSize(b);
      mem := mem[block := Next(c)];
      GoOn(i, Carve(b, bytes, c, count - 1), Go, before);
    }

    method CarveLast(i: nat, b: nat, bytes: nat, block: Addr)
      requires Working(i) && threads[i].pc == Carve(b, bytes, block, 0)
      modifies this`mem, this`threads, this`schedule
      ensures Working(i) && threads[i].key == old(threads[i].key) && threads[i].pc == Pop(b, bytes)
    {
      hide Run, Alone, Follow, Owner;
      ghost var before := State();
      mem := mem[block := Next(0)];
      GoOn(i, Pop(b, bytes), Go, before);
    }

    /** Put a whole new chunk on the thread's own list. */
    method CarveChunk(i: nat, b: nat, bytes: nat, base: Addr)
      requires Working(i) && threads[i].pc == NeedChunk(b, bytes) && FreshChunk(cfg, chunks, base)
      modifies this`mem, this`first, this`free, this`chunks, this`threads, this`schedule
      ensures Working(i) && threads[i].key == old(threads[i].key) && threads[i].pc == Pop(b, bytes)
      ensures free == old(free)[Slot(b, threads[i].key) := cfg.BlockCount(b)]
      ensures First(Slot(b, threads[i].key)) == base && chunks == old(chunks)[base := b]
    {
      hide Run, Alone, Which, FreshChunk;
      var count := BeginChunk(i, b, bytes, base);
      var block := base;
      while count > 0
        invariant Working(i) && threads[i].key == old(threads[i].key) && threads[i].pc == Carve(b, bytes, block, count)
        invariant free == old(free)[Slot(b, threads[i].key) := cfg.BlockCount(b)]
        invariant First(Slot(b, threads[i].key)) == base && chunks == old(chunks)[base := b]
      {
        block := CarveOne(i, b, bytes, block, count);
        count := count - 1;
      }
      CarveLast(i, b, bytes, block);
    }

    method TakeAll(i: nat, b: nat, bytes: nat)
      requires Working(i) && threads[i].pc == Refill(b, bytes)
      requires First(Slot(b, 0)) != 0 && cfg.BlockCount(b) >= Free(Slot(b, 0)) && threads[i].key != 0
      modifies this`first, this`free, this`locked, this`threads, this`schedule
      ensures Working(i) && threads[i].key == old(threads[i].key) && threads[i].pc == Pop(b, bytes)
      ensures free == old(free)[Slot(b, threads[i].key) := old(Free(Slot(b, 0)))][Slot(b, 0) := 0]
      ensures First(Slot(b, threads[i].key)) == old(First(Slot(b, 0)))
    {
      hide Run, Alone, Follow, Owner;
      var mine, pool := Slot(b, threads[i].key), Slot(b, 0);
      ghost var before := State();
      first := first[mine := First(pool)];
      free := free[mine := Free(pool)];
      free := free[pool := 0];
      first := first[pool := 0];
      locked := locked - {b};
      GoOn(i, Pop(b, bytes), Go, before);
    }

    method BeginGrab(i: nat, b: nat, bytes: nat) returns (block: Addr, count: nat)
      requires Working(i) && threads[i].pc == Refill(b, bytes)
      requires First(Slot(b, 0)) != 0 && cfg.BlockCount(b) < Free(Slot(b, 0))
      modifies this`first, this`free, this`threads, this`schedule
      ensures Working(i) && threads[i].key == old(threads[i].key) && threads[i].pc == GrabWalk(b, bytes, block, count)
      ensures free == old(free)[Slot(b, threads[i].key) := cfg.BlockCount(b)]
                               [Slot(b, 0) := old(Free(Slot(b, 0))) - cfg.BlockCount(b)]
      ensures First(Slot(b, threads[i].key)) == old(First(Slot(b, 0)))
    {
      hide Run, Alone, Follow, Owner;
      var mine, pool := Slot(b, threads[i].key), Slot(b, 0);
      ghost var before := State();
      count := cfg.BlockCount(b);
      block := First(pool);
      var rest := Free(pool) - count;
      first := first[mine := block];
      free := free[mine := count];
      free := free[pool := rest];
      count := if count > 0 then count - 1 else 0;
      GoOn(i, GrabWalk(b, bytes, block, count), Go, before);
    }

    method GrabOne(i: nat, b: nat, bytes: nat, block: Addr, count: nat) returns (next: Addr)
      requires Working(i) && threads[i].pc == GrabWalk(b, bytes, block, count) && count > 0
      modifies this`threads, this`schedule
      ensures Working(i) && threads[i].key == old(threads[i].key)
      ensures threads[i].pc == GrabWalk(b, bytes, next, count - 1)
    {
      hide Run, Alone, Follow, Owner;
      ghost var before := State();
      next := Follow(mem, block);
      GoOn(i, GrabWalk(b, bytes, next, count - 1), Go, before);
    }

    method GrabLast(i: nat, b: nat, bytes: nat, block: Addr)
      requires Working(i) && threads[i].pc == GrabWalk(b, bytes, block, 0) && threads[i].key != 0
      modifies this`mem, this`first, this`locked, this`threads, this`schedule
      ensures Working(i) && threads[i].key == old(threads[i].key) && threads[i].pc == Pop(b, bytes)
      ensures First(Slot(b, threads[i].key)) == old(First(Slot(b, threads[i].key)))
    {
      hide Run, Alone, Follow, Owner;
      ghost var before := State();
      first := first[Slot(b, 0) := Follow(mem, block)];
      mem := mem[block := Next(0)];
      locked := locked - {b};
      GoOn(i, Pop(b, bytes), Go, before);
    }

    /** Take the global list, or a chunk's worth of its front, under the lock. */
    method GrabBlocks(i: nat, b: nat, bytes: nat)
      requires Working(i) && threads[i].pc == Refill(b, bytes) && First(Slot(b, 0)) != 0 && threads[i].key != 0
      modifies this`mem, this`first, this`free, this`locked, this`threads, this`schedule
      ensures Working(i) && threads[i].key == old(threads[i].key) && threads[i].pc == Pop(b, bytes)
      ensures var n := Min(cfg.BlockCount(b), old(Free(Slot(b, 0))));
        free == old(free)[Slot(b, threads[i].key) := n][Slot(b, 0) := old(Free(Slot(b, 0))) - n]
      ensures First(Slot(b, threads[i].key)) == old(First(Slot(b, 0)))
    {
      hide Run, Alone, Which, Quotient;
      if cfg.BlockCount(b) >= Free(Slot(b, 0)) {
        TakeAll(i, b, bytes);
        return;
      }
      var block, count := BeginGrab(i, b, bytes);
      while count > 0
        invariant Working(i) && threads[i].key == old(threads[i].key)
        invariant threads[i].pc == GrabWalk(b, bytes, block, count)
        invariant free == old(free)[Slot(b, threads[i].key) := cfg.BlockCount(b)]
                                   [Slot(b, 0) := old(Free(Slot(b, 0))) - cfg.BlockCount(b)]
        invariant First(Slot(b, threads[i].key)) == old(First(Slot(b, 0)))
      {
        block := GrabOne(i, b, bytes, block, count);
        count := count - 1;
      }
      GrabLast(i, b, bytes, block);
    }

    method Unlink(i: nat, b: nat, bytes: nat) returns (block: Addr)
      requires Working(i) && threads[i].pc == Pop(b, bytes)
      modifies this`mem, this`first, this`free, this`threads, this`schedule
      ensures Working(i) && threads[i].key == old(threads[i].key) && threads[i].pc == CountUsed(b, bytes, block)
      ensures block !in live && block == old(First(Slot(b, threads[i].key)))
      ensures free == old(free)[Slot(b, threads[i].key) := old(Free(Slot(b, threads[i].key))) - 1]
    {
      hide Run, Alone, Follow, Owner;
      var mine := Slot(b, threads[i].key);
      ghost var before := State();
      PoppedIsFree(cfg, population, schedule, before, i);
      block := First(mine);
      first := first[mine := Follow(mem, block)];
      mem := mem[block := Stamp(threads[i].key)];
      free := free[mine := Free(mine) - 1];
      GoOn(i, CountUsed(b, bytes, block), Go, before);
    }

    method Count(i: nat, b: nat, bytes: nat, block: Addr)
      requires Working(i) && threads[i].pc == CountUsed(b, bytes, block)
      modifies this`used, this`live, this`threads, this`schedule
      ensures Working(i) && threads[i].key == old(threads[i].key)
      ensures threads[i].pc.Idle? && live == old(live)[block := bytes]
      ensures used == old(used)[Slot(b, threads[i].key) := old(Used(Slot(b, threads[i].key))) + 1]
    {
      hide Run, Alone, Follow, Owner;
      var mine := Slot(b, threads[i].key);
      ghost var before := State();
      used := used[mine := Used(mine) + 1];
      live := live[block := bytes];
      GoOn(i, Idle, Go, before);
    }

    method BeginAllocate(i: nat, bytes: nat) returns (b: nat, refill: bool)
      requires Working(i) && threads[i].pc.Idle? && threads[i].key != 0 && bytes <= cfg.maxBytes
      modifies this`threads, this`schedule
      ensures Working(i) && threads[i].key == old(threads[i].key)
      ensures threads[i].pc == if refill then WantLock(b, bytes) else Pop(b, bytes)
      ensures b == Which(cfg.minBin, bytes) && refill == (First(Slot(b, threads[i].key)) == 0)
    {
      hide Run, Alone, Follow, Owner;
      ghost var before := State();
      b := binmap[bytes];
      refill := First(Slot(b, threads[i].key)) == 0;
      GoOn(i, if refill then WantLock(b, bytes) else Pop(b, bytes), Alloc(bytes), before);
    }

    /** Give the thread's empty list some blocks: of the global list, or of a new chunk. */
    method Replenish(i: nat, b: nat, bytes: nat, base: Addr)
      requires Working(i) && threads[i].pc == WantLock(b, bytes) && FreshChunk(cfg, chunks, base) && threads[i].key != 0
      modifies this`mem, this`first, this`free, this`locked, this`chunks, this`threads, this`schedule
      ensures Working(i) && threads[i].key == old(threads[i].key) && threads[i].pc == Pop(b, bytes)
      ensures Supply(First(Slot(b, threads[i].key)), free, chunks)
           == Refilled(cfg, Slot(b, threads[i].key), old(First(Slot(b, 0))), old(free), old(chunks), base)
    {
      hide Run, Alone, Which, FreshChunk, Quotient;
      LockForRefill(i, b, bytes);
      if First(Slot(b, 0)) == 0 {
        UnlockForChunk(i, b, bytes);
        CarveChunk(i, b, bytes, base);
      } else {
        GrabBlocks(i, b, bytes);
      }
    }

    /** What an allocation does after it has found its bin. */
    method Serve(i: nat, b: nat, bytes: nat, refill: bool, base: Addr) returns (block: Addr)
      requires Working(i) && threads[i].pc == (if refill then WantLock(b, bytes) else Pop(b, bytes))
      requires FreshChunk(cfg, chunks, base) && threads[i].key != 0
      modifies this`mem, this`first, this`free, this`used, this`locked, this`chunks, this`live,
               this`threads, this`schedule
      ensures Working(i) && threads[i].pc.Idle? && block !in old(live) && live == old(live)[block := bytes]
      ensures threads[i].key == old(threads[i].key)
      ensures used == old(used)[Slot(b, threads[i].key) := old(Used(Slot(b, threads[i].key))) + 1]
      ensures var mine := Slot(b, threads[i].key);
        Supply(block, free, chunks)
        == Taken(mine, if refill then Refilled(cfg, mine, old(First(Slot(b, 0))), old(free), old(chunks), base)
                       else Supply(old(First(mine)), old(free), old(chunks)))
    {
      hide Run, Alone, Which, FreshChunk, Quotient;
      if refill { Replenish(i, b, bytes, base); }
      block := Unlink(i, b, bytes);
      Count(i, b, bytes, block);
    }

    /** A block for a request, which nobody held.  `base` is what operator new would return. */
    method Allocate(i: nat, bytes: nat, base: Addr) returns (block: Addr)
      requires Valid() && i < |threads| && population <= cfg.maxThreads
      requires bytes <= cfg.maxBytes && FreshChunk(cfg, chunks, base)
      modifies this
      ensures Valid() && block !in old(live) && live == old(live)[block := bytes] && i < |threads|
      ensures threads[i].key == (if old(threads[i].key) != 0 then old(threads[i].key) else old(idFirst)) != 0
      ensures var mine := Slot(Which(cfg.minBin, bytes), threads[i].key);
        && used == old(used)[mine := old(Used(mine)) + 1]
        && Supply(block, free, chunks)
           == Taken(mine, if old(First(mine)) != 0 then Supply(old(First(mine)), old(free), old(chunks))
                          else Refilled(cfg, mine, old(First(Slot(mine.bin, 0))), old(free), old(chunks), base))
    {
      hide Run, Which, FreshChunk, Quotient;
      var id := GetThreadId(i);
      var b, refill := BeginAllocate(i, bytes);
      block := Serve(i, b, bytes, refill, base);
    }

    // ---- deallocate ----------------------------------------------------------------------

    /** Decide whether blocks go back to the global list, and how many. */
    method BeginDeallocate(i: nat, block: Addr, bytes: nat) returns (b: nat, back: bool, removed: int)
      requires Working(i) && threads[i].pc.Idle? && threads[i].key != 0
      requires block in live && bytes == live[block] <= cfg.maxBytes
      modifies this`live, this`threads, this`schedule
      ensures Working(i) && threads[i].key == old(threads[i].key) && live == old(live) - {block}
      ensures b == Which(cfg.minBin, bytes)
      ensures !back ==> threads[i].pc == Uncount(b, block)
      ensures back ==> var head := First(Slot(b, threads[i].key));
        removed >= 1 && threads[i].pc == DetachWalk(b, block, head, head, removed - 1, removed)
      ensures var mine := Slot(b, threads[i].key);
        Returned(cfg, b, Free(mine), Used(mine), if back then removed else 0)
    {
      hide Run, Alone, Follow, Owner, CountedList, ReturnsBlocks, Removed, PlainReturn, KeepsFewest;
      ghost var before := State();
      b := binmap[bytes];
      var mine := Slot(b, threads[i].key);
      back := ReturnsBlocks(cfg, Free(mine), Used(mine), b);
      removed := Removed(cfg, Free(mine), Used(mine));
      ReturnAmount(cfg, population, schedule, before, i, block);
      live := live - {block};
      var head := First(mine);
      GoOn(i, if back then DetachWalk(b, block, head, head, if removed > 0 then removed - 1 else 0, removed)
              else Uncount(b, block), Act.Free(block), before);
    }

    method DetachOne(i: nat, b: nat, block: Addr, head: Addr, tmp: Addr, left: nat, removed: int) returns (next: Addr)
      requires Working(i) && threads[i].pc == DetachWalk(b, block, head, tmp, left, removed) && left > 0
      modifies this`threads, this`schedule
      ensures Working(i) && threads[i].key == old(threads[i].key)
      ensures threads[i].pc == DetachWalk(b, block, head, next, left - 1, removed)
    {
      hide Run, Alone, Follow, Owner;
      ghost var before := State();
      next := Follow(mem, tmp);
      GoOn(i, DetachWalk(b, block, head, next, left - 1, removed), Go, before);
    }

    method DetachLast(i: nat, b: nat, block: Addr, head: Addr, tmp: Addr, removed: int)
      requires Working(i) && threads[i].pc == DetachWalk(b, block, head, tmp, 0, removed)
      modifies this`first, this`free, this`threads, this`schedule
      ensures Working(i) && threads[i].key == old(threads[i].key)
      ensures threads[i].pc == WantReturn(b, block, head, tmp, removed)
      ensures free == old(free)[Slot(b, threads[i].key) := old(Free(Slot(b, threads[i].key))) - removed]
    {
      hide Run, Alone, Follow, Owner;
      var mine := Slot(b, threads[i].key);
      ghost var before := State();
      first := first[mine := Follow(mem, tmp)];
      free := free[mine := Free(mine) - removed];
      GoOn(i, WantReturn(b, block, head, tmp, removed), Go, before);
    }

    method LockForReturn(i: nat, b: nat, block: Addr, head: Addr, tmp: Addr, removed: int)
      requires Working(i) && threads[i].pc == WantReturn(b, block, head, tmp, removed)
      modifies this`locked, this`threads, this`schedule
      ensures Working(i) && threads[i].key == old(threads[i].key)
      ensures threads[i].pc == Splice(b, block, head, tmp, removed)
    {
      hide Run, Alone, Follow, Owner;
      ghost var before := State();
      AloneUnlocked(cfg, population, schedule, before, i);
      locked := locked + {b};
      GoOn(i, Splice(b, block, head, tmp, removed), Go, before);
    }

    method SpliceBack(i: nat, b: nat, block: Addr, head: Addr, tmp: Addr, removed: int)
      requires Working(i) && threads[i].pc == Splice(b, block, head, tmp, removed)
      modifies this`mem, this`first, this`free, this`locked, this`threads, this`schedule
      ensures Working(i) && threads[i].key == old(threads[i].key) && threads[i].pc == Uncount(b, block)
      ensures free == old(free)[Slot(b, 0) := old(Free(Slot(b, 0))) + removed]
      ensures First(Slot(b, 0)) == head && Owner(mem, block) == old(Owner(mem, block))
    {
      hide Run, Alone, Follow, Owner, Step, Enabled;
      var pool := Slot(b, 0);
      ghost var before := State();
      StepSplices(cfg, before, i, b, block, head, tmp, removed);
      SpliceSpares(cfg, population, schedule, before, i);
      OwnerElsewhere(mem, tmp, First(pool), block);
      mem := mem[tmp := Next(First(pool))];
      first := first[pool := head];
      free := free[pool := Free(pool) + removed];
      locked := locked - {b};
      GoOn(i, Uncount(b, block), Go, before);
    }

    /** Walk to the last of the blocks to move. */
    method FindLast(i: nat, b: nat, block: Addr, head: Addr, removed: int) returns (tmp: Addr)
      requires removed >= 1 && Working(i) && threads[i].pc == DetachWalk(b, block, head, head, removed - 1, removed)
      modifies this`threads, this`schedule
      ensures Working(i) && threads[i].key == old(threads[i].key)
      ensures threads[i].pc == DetachWalk(b, block, head, tmp, 0, removed)
    {
      hide Run, Alone, Which;
      tmp := head;
      var left := removed - 1;
      while left > 0
        invariant left >= 0 && Working(i) && threads[i].key == old(threads[i].key)
        invariant threads[i].pc == DetachWalk(b, block, head, tmp, left, removed)
      {
        tmp := DetachOne(i, b, block, head, tmp, left, removed);
        left := left - 1;
      }
    }

    /** Move the first `removed` blocks of the thread's list to the global one. */
    method ReturnBlocks(i: nat, b: nat, block: Addr, head: Addr, removed: int)
      requires removed >= 1 && Working(i) && threads[i].pc == DetachWalk(b, block, head, head, removed - 1, removed)
      requires threads[i].key != 0
      modifies this`mem, this`first, this`free, this`locked, this`threads, this`schedule
      ensures Working(i) && threads[i].key == old(threads[i].key) && threads[i].pc == Uncount(b, block)
      ensures free == Moved(old(free), Slot(b, threads[i].key), removed)
      ensures First(Slot(b, 0)) == head && Owner(mem, block) == old(Owner(mem, block))
    {
      hide Run, Alone, Which, Owner;
      var tmp := FindLast(i, b, block, head, removed);
      DetachLast(i, b, block, head, tmp, removed);
      LockForReturn(i, b, block, head, tmp, removed);
      SpliceBack(i, b, block, head, tmp, removed);
    }

    /** The counter of the thread the block is stamped with goes down. */
    method Discount(i: nat, b: nat, block: Addr)
      requires Working(i) && threads[i].pc == Uncount(b, block)
      modifies this`used, this`threads, this`schedule
      ensures Working(i) && threads[i].key == old(threads[i].key) && threads[i].pc == Push(b, block)
      ensures var theirs := Slot(b, Owner(mem, block)); used == old(used)[theirs := old(Used(theirs)) - 1]
    {
      hide Run, Alone, Follow, Owner;
      var theirs := Slot(b, Owner(mem, block));
      ghost var before := State();
      used := used[theirs := Used(theirs) - 1];
      GoOn(i, Push(b, block), Go, before);
    }

    /** The block becomes the first of this thread's list, whoever allocated it. */
    method PutBack(i: nat, b: nat, block: Addr)
      requires Working(i) && threads[i].pc == Push(b, block)
      modifies this`mem, this`first, this`free, this`threads, this`schedule
      ensures Working(i) && threads[i].pc.Idle? && First(Slot(b, threads[i].key)) == block
      ensures threads[i].key == old(threads[i].key)
      ensures free == old(free)[Slot(b, threads[i].key) := old(Free(Slot(b, threads[i].key))) + 1]
      ensures forall s: Slot :: s != Slot(b, threads[i].key) ==> First(s) == old(First(s))
    {
      hide Run, Alone, Follow, Owner;
      var mine := Slot(b, threads[i].key);
      ghost var before := State();
      mem := mem[block := Next(First(mine))];
      first := first[mine := block];
      free := free[mine := Free(mine) + 1];
      GoOn(i, Idle, Go, before);
    }

    /** What a release does after its decision: move blocks, if any, then put back its own. */
    method Release(i: nat, b: nat, block: Addr, back: bool, removed: int)
      requires Working(i) && threads[i].key != 0
      requires !back ==> threads[i].pc == Uncount(b, block)
      requires back ==> var head := First(Slot(b, threads[i].key));
        removed >= 1 && threads[i].pc == DetachWalk(b, block, head, head, removed - 1, removed)
      modifies this`mem, this`first, this`free, this`used, this`locked, this`threads, this`schedule
      ensures Working(i) && threads[i].pc.Idle? && First(Slot(b, threads[i].key)) == block
      ensures threads[i].key == old(threads[i].key)
      ensures var mine := Slot(b, threads[i].key);
        && free == Put(if back then Moved(old(free), mine, removed) else old(free), mine)
        && (back ==> First(Slot(b, 0)) == old(First(mine)))
      ensures var theirs := Slot(b, old(Owner(mem, block))); used == old(used)[theirs := old(Used(theirs)) - 1]
    {
      hide Run, Alone, Which, Owner;
      if back { ReturnBlocks(i, b, block, First(Slot(b, threads[i].key)), removed); }
      Discount(i, b, block);
      PutBack(i, b, block);
    }

    /** Take back a block the program holds, of the stated size, from any thread.  `removed` is
        the number of blocks moved from the front of the thread's list to the global one. */
    method Deallocate(i: nat, block: Addr, bytes: nat) returns (ghost removed: int)
      requires Valid() && i < |threads| && population <= cfg.maxThreads && block in live && bytes == live[block]
      modifies this
      ensures Valid() && live == old(live) - {block} && i < |threads|
      ensures threads[i].key == (if old(threads[i].key) != 0 then old(threads[i].key) else old(idFirst)) != 0
      ensures bytes <= cfg.maxBytes && First(Slot(Which(cfg.minBin, bytes), threads[i].key)) == block
      ensures var mine := Slot(Which(cfg.minBin, bytes), threads[i].key);
        && Returned(cfg, mine.bin, old(Free(mine)), old(Used(mine)), removed)
        && free == Put(Moved(old(free), mine, removed), mine)
        && (removed > 0 ==> First(Slot(mine.bin, 0)) == old(First(mine)))
      ensures var theirs := Slot(Which(cfg.minBin, bytes), old(Owner(mem, block)));
        used == old(used)[theirs := old(Used(theirs)) - 1]
    {
      hide Run, Which, FreshChunk, Quotient, Owner;
      HeldIsSmall(cfg, population, schedule, State(), block);
      var id := GetThreadId(i);
      var b, back, count := BeginDeallocate(i, block, bytes);
      Release(i, b, block, back, count);
      removed := if back then count else 0;
    }
  }

  lemma StepSplices(cfg: Tune, c: Shared, i: nat, b: nat, block: Addr, head: Addr, tmp: Addr, removed: int)
    requires cfg.Valid() && i < |c.threads| && c.threads[i].pc == Splice(b, block, head, tmp, removed)
    ensures var pool := Slot(b, 0);
      Enabled(cfg, c, i, Go)
      && Step(cfg, c, i, Go) == c.(mem := c.mem[tmp := Next(c.First(pool))], first := c.first[pool := head],
                                   free := c.free[pool := c.Free(pool) + removed],
                                   locked := c.locked - {b}).SetPc(i, Uncount(b, block))
  {
  }

  lemma OwnerElsewhere(mem: map<Addr, Cell>, a: Addr, next: Addr, block: Addr)
    requires a != block
    ensures Owner(mem[a := Next(next)], block) == Owner(mem, block)
  {
  }

  /** While a batch is spliced, the released block is none of it. */
  lemma SpliceSpares(cfg: Tune, n: nat, schedule: seq<(nat, Act)>, c: Shared, i: nat)
    requires cfg.Valid() && ReachedBy(cfg, n, schedule, c) && i < |c.threads| && c.threads[i].pc.Splice?
    ensures c.threads[i].pc.tmp != c.threads[i].pc.block
  {
    hide Run, ListsOk, LinksOk, HeadsOk, PlacesOk, UsedOk, HomesOk, ChunksOk, LocksOk, KeysOk;
    var g := RunKeeps(cfg, n, schedule);
    assert ThreadOk(cfg, c, g, i);
    assert c.threads[i].pc.tmp in g.batch[i];
    assert Members(g.batch[i], g.place, Batch(i));
  }

  lemma HeldIsSmall(cfg: Tune, n: nat, schedule: seq<(nat, Act)>, c: Shared, block: Addr)
    requires cfg.Valid() && ReachedBy(cfg, n, schedule, c) && block in c.live
    ensures c.live[block] <= cfg.maxBytes
  {
    hide Run, ListsOk, BatchesOk, HeadsOk, ThreadsOk, LinksOk, UsedOk, HomesOk, ChunksOk, LocksOk, KeysOk;
    var g := RunKeeps(cfg, n, schedule);
    assert LiveOk(cfg, c.live[block], g, block);
  }
}

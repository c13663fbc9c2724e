/** The thread-caching pool allocator as a machine of atomic steps.  Every
    thread runs the allocation and release code with its own program counter;
    one step is one access to data another thread can reach, or one iteration of
    a list walk.  Memory is a map from block address to block header, and a
    header is a union: a link while the block is free, an owner while it is out. */
module MtPool {
  import opened BinMap
  import opened Common

  type Addr = nat   // 0 is the null pointer

  datatype Tune = Tune(maxBytes: nat, minBin: nat, chunkSize: nat, maxThreads: nat,
                       headroom: nat, header: nat, half: nat)
  {
    function Bins(): nat requires minBin >= 1 { BinCount(minBin, maxBytes) }

    /** Header plus payload of one block of bin b. */
    function BlockSize(b: nat): (r: nat) ensures r >= header { Size(minBin, b) + header }

    /** Blocks carved from one chunk. */
    function BlockCount(b: nat): nat
      requires header >= 1
    {
      Quotient(chunkSize, BlockSize(b))
    }

    /** The 16-bit table is exact, one block of the largest bin fits a chunk, and
        the headroom threshold is representable; `half` is half the word range. */
    predicate Valid() {
      && 1 <= minBin < U16 && maxBytes < U16 - 1 && maxBytes <= Largest16(minBin) + 1
      && header >= 1 && maxThreads >= 1 && half >= 1
      && BlockSize(Bins() - 1) <= chunkSize
      && Threshold(Bins(), headroom) < half
    }
  }

  function Quotient(a: nat, d: nat): nat requires d >= 1 { a / d }

  /** The surplus below which a release keeps all blocks, for `above` bins from
      here to the largest. */
  function Threshold(above: int, headroom: nat): int { 100 * above * headroom }

  datatype Cell = Next(next: Addr) | Stamp(tid: nat)

  datatype Slot = Slot(bin: nat, tid: nat)

  datatype Pc =
    | Idle
    | WantLock(bin: nat, bytes: nat)
    | Refill(bin: nat, bytes: nat)
    | GrabWalk(bin: nat, bytes: nat, block: Addr, left: nat)
    | NeedChunk(bin: nat, bytes: nat)
    | Carve(bin: nat, bytes: nat, block: Addr, left: nat)
    | Pop(bin: nat, bytes: nat)
    | CountUsed(bin: nat, bytes: nat, block: Addr)
    | DetachWalk(bin: nat, block: Addr, head: Addr, tmp: Addr, left: nat, removed: int)
    | WantReturn(bin: nat, block: Addr, head: Addr, tmp: Addr, removed: int)
    | Splice(bin: nat, block: Addr, head: Addr, tmp: Addr, removed: int)
    | Uncount(bin: nat, block: Addr)
    | Push(bin: nat, block: Addr)
  {
    /** The thread is inside the bin's critical section. */
    predicate Holds(b: nat) {
      (Refill? || GrabWalk? || Splice?) && bin == b
    }
  }

  /** `key` is the thread id held by the thread, 0 while it has none. */
  datatype Thread = Thread(key: nat, pc: Pc)

  datatype Shared = Shared(
    mem: map<Addr, Cell>,
    first: map<Slot, Addr>, free: map<Slot, int>, used: map<Slot, int>,
    locked: set<nat>,
    chunks: map<Addr, nat>,                  // what operator new has handed out, and for which bin
    idFirst: nat, idNext: map<nat, nat>,     // list of unused thread ids
    live: map<Addr, nat>,                    // blocks the program holds, with the requested size
    threads: seq<Thread>)
  {
    function First(s: Slot): Addr { if s in first then first[s] else 0 }
    function Free(s: Slot): int { if s in free then free[s] else 0 }
    function Used(s: Slot): int { if s in used then used[s] else 0 }

    function SetPc(i: nat, pc: Pc): Shared
      requires i < |threads|
    {
      this.(threads := threads[i := threads[i].(pc := pc)])
    }
  }

  /** Reading the link of a header; a header that holds an owner gives garbage. */
  function Follow(mem: map<Addr, Cell>, a: Addr): Addr {
    if a in mem && mem[a].Next? then mem[a].next else 0
  }

  /** Reading the owner of a header. */
  function Owner(mem: map<Addr, Cell>, a: Addr): nat {
    if a in mem && mem[a].Stamp? then mem[a].tid else 0
  }

  /** The next unsynchronised read of thread i finds the kind of header it expects. */
  predicate ReadSafe(c: Shared, i: nat)
    requires i < |c.threads|
  {
    var th := c.threads[i];
    match th.pc
    case GrabWalk(_, _, block, _) => block in c.mem && c.mem[block].Next?
    case Pop(b, _) => var a := c.First(Slot(b, th.key)); a in c.mem && c.mem[a].Next?
    case DetachWalk(_, _, _, tmp, _, _) => tmp in c.mem && c.mem[tmp].Next?
    case Uncount(_, block) => block in c.mem && c.mem[block].Stamp?
    case _ => true
  }

  // ---- word arithmetic of the return decision --------------------------------

  /** The signed surplus a release computes from the two counters. */
  function Surplus(cfg: Tune, free: int, used: int): int
    requires cfg.half >= 1
  {
    Signed(free * cfg.headroom - used, cfg.half)
  }

  /** The condition under which a release moves blocks to the global list. */
  predicate ReturnsBlocks(cfg: Tune, free: int, used: int, bin: nat)
    requires cfg.minBin >= 1 && cfg.half >= 1
  {
    && Surplus(cfg, free, used) > Signed(Threshold(cfg.Bins() - bin, cfg.headroom), cfg.half)
    && Surplus(cfg, free, used) > Signed(free, cfg.half)
  }

  /** How many blocks are then moved.  A headroom of 0 would be a division by
      zero; SurplusBounds shows that ReturnsBlocks excludes it. */
  function Removed(cfg: Tune, free: int, used: int): int
    requires cfg.half >= 1
  {
    if cfg.headroom == 0 then 0 else Surplus(cfg, free, used) / cfg.headroom
  }

  // ---- steps ------------------------------------------------------------------

  /** What the environment chooses: thread birth and death, requests, releases and
      the address of a new chunk.  Go is the one step the code prescribes. */
  datatype Act = TakeId | Exit | Alloc(bytes: nat) | Free(block: Addr) | Chunk(base: Addr) | Go

  predicate FreshChunk(cfg: Tune, chunks: map<Addr, nat>, base: Addr) {
    && 1 <= base && base + cfg.chunkSize <= 2 * cfg.half
    && forall u :: u in chunks ==> base + cfg.chunkSize <= u || u + cfg.chunkSize <= base
  }

  function DoTakeId(c: Shared, i: nat): Shared
    requires i < |c.threads|
  {
    var id := c.idFirst;
    c.(idFirst := if id in c.idNext then c.idNext[id] else 0,
       threads := c.threads[i := Thread(id, Idle)])
  }

  function DoExit(c: Shared, i: nat): Shared
    requires i < |c.threads|
  {
    var id := c.threads[i].key;
    c.(idFirst := id, idNext := c.idNext[id := c.idFirst], threads := c.threads[i := Thread(0, Idle)])
  }

  function DoAlloc(cfg: Tune, c: Shared, i: nat, bytes: nat): Shared
    requires cfg.Valid() && i < |c.threads|
  {
    var b := Which(cfg.minBin, bytes);
    if c.First(Slot(b, c.threads[i].key)) == 0 then c.SetPc(i, WantLock(b, bytes))
    else c.SetPc(i, Pop(b, bytes))
  }

  function DoLockRefill(c: Shared, i: nat): Shared
    requires i < |c.threads| && c.threads[i].pc.WantLock?
  {
    var WantLock(b, bytes) := c.threads[i].pc;
    c.(locked := c.locked + {b}).SetPc(i, Refill(b, bytes))
  }

  function DoRefill(cfg: Tune, c: Shared, i: nat): Shared
    requires cfg.Valid() && i < |c.threads| && c.threads[i].pc.Refill?
  {
    var Refill(b, bytes) := c.threads[i].pc;
    var mine, pool := Slot(b, c.threads[i].key), Slot(b, 0);
    var want := cfg.BlockCount(b);
    if c.First(pool) == 0 then
      c.(locked := c.locked - {b}).SetPc(i, NeedChunk(b, bytes))
    else if want >= c.Free(pool) then
      c.(first := c.first[mine := c.First(pool)][pool := 0],
         free := c.free[mine := c.Free(pool)][pool := 0],
         locked := c.locked - {b}).SetPc(i, Pop(b, bytes))
    else
      c.(first := c.first[mine := c.First(pool)],
         free := c.free[mine := want][pool := c.Free(pool) - want])
       .SetPc(i, GrabWalk(b, bytes, c.First(pool), if want > 0 then want - 1 else 0))
  }

  function DoGrab(c: Shared, i: nat): Shared
    requires i < |c.threads| && c.threads[i].pc.GrabWalk?
  {
    var GrabWalk(b, bytes, block, left) := c.threads[i].pc;
    if left > 0 then c.SetPc(i, GrabWalk(b, bytes, Follow(c.mem, block), left - 1))
    else
      c.(first := c.first[Slot(b, 0) := Follow(c.mem, block)],
         mem := c.mem[block := Next(0)],
         locked := c.locked - {b}).SetPc(i, Pop(b, bytes))
  }

  function DoChunk(cfg: Tune, c: Shared, i: nat, base: Addr): Shared
    requires cfg.Valid() && i < |c.threads| && c.threads[i].pc.NeedChunk?
  {
    var NeedChunk(b, bytes) := c.threads[i].pc;
    var mine, count := Slot(b, c.threads[i].key), cfg.BlockCount(b);
    c.(chunks := c.chunks[base := b], first := c.first[mine := base], free := c.free[mine := count])
     .SetPc(i, Carve(b, bytes, base, if count > 0 then count - 1 else 0))
  }

  function DoCarve(cfg: Tune, c: Shared, i: nat): Shared
    requires cfg.Valid() && i < |c.threads| && c.threads[i].pc.Carve?
  {
    var Carve(b, bytes, block, left) := c.threads[i].pc;
    if left > 0 then
      var next := block + cfg.BlockSize(b);
      c.(mem := c.mem[block := Next(next)]).SetPc(i, Carve(b, bytes, next, left - 1))
    else
      c.(mem := c.mem[block := Next(0)]).SetPc(i, Pop(b, bytes))
  }

  function DoPop(c: Shared, i: nat): Shared
    requires i < |c.threads| && c.threads[i].pc.Pop?
  {
    var Pop(b, bytes) := c.threads[i].pc;
    var mine := Slot(b, c.threads[i].key);
    var block := c.First(mine);
    c.(first := c.first[mine := Follow(c.mem, block)],
       mem := c.mem[block := Stamp(c.threads[i].key)],
       free := c.free[mine := c.Free(mine) - 1]).SetPc(i, CountUsed(b, bytes, block))
  }

  function DoCount(c: Shared, i: nat): Shared
    requires i < |c.threads| && c.threads[i].pc.CountUsed?
  {
    var CountUsed(b, bytes, block) := c.threads[i].pc;
    var mine := Slot(b, c.threads[i].key);
    c.(used := c.used[mine := c.Used(mine) + 1], live := c.live[block := bytes]).SetPc(i, Idle)
  }

  function DoFree(cfg: Tune, c: Shared, i: nat, block: Addr): Shared
    requires cfg.Valid() && i < |c.threads| && block in c.live
  {
    var b := Which(cfg.minBin, c.live[block]);
    var mine := Slot(b, c.threads[i].key);
    var free, used, head := c.Free(mine), c.Used(mine), c.First(mine);
    var removed := Removed(cfg, free, used);
    c.(live := c.live - {block})
     .SetPc(i, if ReturnsBlocks(cfg, free, used, b)
               then DetachWalk(b, block, head, head, if removed > 0 then removed - 1 else 0, removed)
               else Uncount(b, block))
  }

  function DoDetach(c: Shared, i: nat): Shared
    requires i < |c.threads| && c.threads[i].pc.DetachWalk?
  {
    var DetachWalk(b, block, head, tmp, left, removed) := c.threads[i].pc;
    var mine := Slot(b, c.threads[i].key);
    if left > 0 then
      c.SetPc(i, DetachWalk(b, block, head, Follow(c.mem, tmp), left - 1, removed))
    else
      c.(first := c.first[mine := Follow(c.mem, tmp)], free := c.free[mine := c.Free(mine) - removed])
       .SetPc(i, WantReturn(b, block, head, tmp, removed))
  }

  function DoLockReturn(c: Shared, i: nat): Shared
    requires i < |c.threads| && c.threads[i].pc.WantReturn?
  {
    var WantReturn(b, block, head, tmp, removed) := c.threads[i].pc;
    c.(locked := c.locked + {b}).SetPc(i, Splice(b, block, head, tmp, removed))
  }

  function DoSplice(c: Shared, i: nat): Shared
    requires i < |c.threads| && c.threads[i].pc.Splice?
  {
    var Splice(b, block, head, tmp, removed) := c.threads[i].pc;
    var pool := Slot(b, 0);
    c.(mem := c.mem[tmp := Next(c.First(pool))],
       first := c.first[pool := head],
       free := c.free[pool := c.Free(pool) + removed],
       locked := c.locked - {b}).SetPc(i, Uncount(b, block))
  }

  function DoUncount(c: Shared, i: nat): Shared
    requires i < |c.threads| && c.threads[i].pc.Uncount?
  {
    var Uncount(b, block) := c.threads[i].pc;
    var theirs := Slot(b, Owner(c.mem, block));
    c.(used := c.used[theirs := c.Used(theirs) - 1]).SetPc(i, Push(b, block))
  }

  function DoPush(c: Shared, i: nat): Shared
    requires i < |c.threads| && c.threads[i].pc.Push?
  {
    var Push(b, block) := c.threads[i].pc;
    var mine := Slot(b, c.threads[i].key);
    c.(mem := c.mem[block := Next(c.First(mine))],
       first := c.first[mine := block],
       free := c.free[mine := c.Free(mine) + 1]).SetPc(i, Idle)
  }

  /** What thread i may do next. */
  predicate Enabled(cfg: Tune, c: Shared, i: nat, act: Act)
    requires cfg.Valid()
  {
    && i < |c.threads|
    && var th := c.threads[i];
       match act
       case TakeId => th.pc.Idle? && th.key == 0 && c.idFirst != 0
       case Exit => th.pc.Idle? && th.key != 0
       case Alloc(bytes) => th.pc.Idle? && th.key != 0 && bytes <= cfg.maxBytes
       case Free(block) => th.pc.Idle? && th.key != 0 && block in c.live
       case Chunk(base) => th.pc.NeedChunk? && FreshChunk(cfg, c.chunks, base)
       case Go => !th.pc.Idle? && !th.pc.NeedChunk?
                  && (th.pc.WantLock? || th.pc.WantReturn? ==> th.pc.bin !in c.locked)
  }

  function Step(cfg: Tune, c: Shared, i: nat, act: Act): Shared
    requires cfg.Valid() && Enabled(cfg, c, i, act)
  {
    match act
    case TakeId => DoTakeId(c, i)
    case Exit => DoExit(c, i)
    case Alloc(bytes) => DoAlloc(cfg, c, i, bytes)
    case Free(block) => DoFree(cfg, c, i, block)
    case Chunk(base) => DoChunk(cfg, c, i, base)
    case Go =>
      match c.threads[i].pc
      case WantLock(_, _) => DoLockRefill(c, i)
      case Refill(_, _) => DoRefill(cfg, c, i)
      case GrabWalk(_, _, _, _) => DoGrab(c, i)
      case Carve(_, _, _, _) => DoCarve(cfg, c, i)
      case Pop(_, _) => DoPop(c, i)
      case CountUsed(_, _, _) => DoCount(c, i)
      case DetachWalk(_, _, _, _, _, _) => DoDetach(c, i)
      case WantReturn(_, _, _, _, _) => DoLockReturn(c, i)
      case Splice(_, _, _, _, _) => DoSplice(c, i)
      case Uncount(_, _) => DoUncount(c, i)
      case Push(_, _) => DoPush(c, i)
  }

  // ---- runs -------------------------------------------------------------------

  predicate ValidSlot(cfg: Tune, s: Slot)
    requires cfg.minBin >= 1
  {
    s.bin < cfg.Bins() && s.tid <= cfg.maxThreads
  }

  /** Link of the k-th thread record as the initializer leaves it. */
  function SuccessorId(cfg: Tune, k: nat): nat {
    if k < cfg.maxThreads then k + 1 else 0
  }

  /** The state the initializer leaves, with n threads that have no id yet. */
  function Start(cfg: Tune, n: nat): Shared
    requires cfg.Valid()
  {
    Shared(map[],
           map b: nat, t: nat | b < cfg.Bins() && t <= cfg.maxThreads :: Slot(b, t) := 0,
           map b: nat, t: nat | b < cfg.Bins() && t <= cfg.maxThreads :: Slot(b, t) := 0,
           map b: nat, t: nat | b < cfg.Bins() && t <= cfg.maxThreads :: Slot(b, t) := 0,
           {}, map[], 1,
           map k: nat | 1 <= k <= cfg.maxThreads :: SuccessorId(cfg, k),
           map[],
           seq(n, _ => Thread(0, Idle)))
  }

  /** The state after a schedule of steps; None when some step was not enabled. */
  function Run(cfg: Tune, n: nat, schedule: seq<(nat, Act)>): Option<Shared>
    requires cfg.Valid()
  {
    if schedule == [] then Some(Start(cfg, n))
    else
      var before := Run(cfg, n, schedule[..|schedule| - 1]);
      var (i, act) := schedule[|schedule| - 1];
      if before.Some? && Enabled(cfg, before.value, i, act)
      then Some(Step(cfg, before.value, i, act)) else None
  }
}

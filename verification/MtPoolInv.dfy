/** What every step of the pool allocator keeps.  The lists, the batches in
    transit and the place of each block are not part of the machine: the
    invariant says that a consistent account of them exists. */
module MtPoolInv {
  import opened BinMap
  import opened MtPool

  /** Where a block is: on a free list, in a batch one thread is moving, popped but
      not yet counted, held by the program, being released and still counted, or
      being released and no longer counted. */
  datatype Place = Listed(s: Slot) | Batch(th: nat) | Popped(th: nat) | User
                 | Doomed(th: nat) | Dropped(th: nat)
  {
    /** The header holds an owner and the owner's counter includes the block. */
    predicate Counted() { User? || Doomed? }
    predicate Stamped() { Counted() || Popped? || Dropped? }
  }

  /** The chunk a block was carved from, the bin it serves and its index there. */
  datatype Home = Home(base: Addr, bin: nat, index: nat)

  datatype Aux = Aux(lists: map<Slot, seq<Addr>>, batch: seq<seq<Addr>>,
                     place: map<Addr, Place>, home: map<Addr, Home>, ids: seq<nat>)

  // ---- lists ------------------------------------------------------------------

  ghost predicate Distinct(l: seq<Addr>) {
    forall j, k :: 0 <= j < k < |l| ==> l[j] != l[k]
  }

  function Head(l: seq<Addr>): Addr { if l == [] then 0 else l[0] }

  /** The first n elements of l link to their successors. */
  ghost predicate Chained(mem: map<Addr, Cell>, l: seq<Addr>, n: nat) {
    forall k :: 0 <= k < n && k + 1 < |l| ==> l[k] in mem && mem[l[k]] == Next(l[k + 1])
  }

  ghost predicate EndsAt(mem: map<Addr, Cell>, l: seq<Addr>, tail: Addr) {
    l != [] ==> l[|l| - 1] in mem && mem[l[|l| - 1]] == Next(tail)
  }

  ghost predicate Linked(mem: map<Addr, Cell>, l: seq<Addr>, tail: Addr) {
    Chained(mem, l, |l|) && EndsAt(mem, l, tail)
  }

  // ---- parts of the invariant -------------------------------------------------

  /** The free lists partition the blocks whose place is a list. */
  ghost predicate ListsOk(cfg: Tune, lists: map<Slot, seq<Addr>>, place: map<Addr, Place>)
    requires cfg.minBin >= 1
  {
    forall s :: ValidSlot(cfg, s) ==>
      s in lists && Distinct(lists[s]) && Members(lists[s], place, Listed(s))
  }

  ghost predicate Members(l: seq<Addr>, place: map<Addr, Place>, p: Place) {
    forall a :: a in l <==> a in place && place[a] == p
  }

  ghost predicate BatchesOk(n: nat, batch: seq<seq<Addr>>, place: map<Addr, Place>) {
    && |batch| == n
    && forall i :: 0 <= i < n ==> Distinct(batch[i]) && Members(batch[i], place, Batch(i))
  }

  ghost predicate LinksOk(cfg: Tune, mem: map<Addr, Cell>, lists: map<Slot, seq<Addr>>)
    requires cfg.minBin >= 1
  {
    forall s :: ValidSlot(cfg, s) && s in lists ==> Linked(mem, lists[s], 0)
  }

  /** Thread th is rebuilding slot s, whose head and counter are not settled. */
  predicate Disturbs(th: Thread, s: Slot) {
    || (th.pc.Carve? && s == Slot(th.pc.bin, th.key))
    || (th.pc.GrabWalk? && s.bin == th.pc.bin && (s.tid == th.key || s.tid == 0))
  }

  ghost predicate Steady(threads: seq<Thread>, s: Slot) {
    forall i :: 0 <= i < |threads| ==> !Disturbs(threads[i], s)
  }

  ghost predicate HeadOk(c: Shared, s: Slot, l: seq<Addr>) {
    c.First(s) == Head(l) && c.Free(s) == |l|
  }

  ghost predicate HeadsOk(cfg: Tune, c: Shared, lists: map<Slot, seq<Addr>>)
    requires cfg.minBin >= 1
  {
    forall s :: ValidSlot(cfg, s) && s in lists && Steady(c.threads, s) ==> HeadOk(c, s, lists[s])
  }

  /** The stated place fits what the threads and the program are doing. */
  ghost predicate PlaceOk(cfg: Tune, c: Shared, home: map<Addr, Home>, a: Addr, p: Place)
    requires cfg.minBin >= 1
  {
    && a != 0 && a in home
    && (p.Stamped() ==> a in c.mem && c.mem[a].Stamp? && 1 <= c.mem[a].tid <= cfg.maxThreads)
    && match p
       case Listed(s) => ValidSlot(cfg, s) && home[a].bin == s.bin
       case Batch(i) => i < |c.threads| && !c.threads[i].pc.Idle? && home[a].bin == c.threads[i].pc.bin
       case Popped(i) => i < |c.threads| && c.threads[i].pc.CountUsed? && c.threads[i].pc.block == a
       case User => a in c.live
       case Doomed(i) => i < |c.threads| && Releasing(c.threads[i].pc) && c.threads[i].pc.block == a
       case Dropped(i) => i < |c.threads| && c.threads[i].pc.Push? && c.threads[i].pc.block == a
  }

  predicate Releasing(pc: Pc) {
    pc.DetachWalk? || pc.WantReturn? || pc.Splice? || pc.Uncount?
  }

  ghost predicate PlacesOk(cfg: Tune, c: Shared, g: Aux)
    requires cfg.minBin >= 1
  {
    && (forall a :: a in g.place ==> PlaceOk(cfg, c, g.home, a, g.place[a]))
    && (forall a :: a in c.live ==> LiveOk(cfg, c.live[a], g, a))
    && (forall a :: a in g.home ==> a in g.place)
  }

  ghost predicate LiveOk(cfg: Tune, bytes: nat, g: Aux, a: Addr)
    requires cfg.minBin >= 1
  {
    && a in g.place && g.place[a] == User && a in g.home
    && bytes <= cfg.maxBytes && g.home[a].bin == Which(cfg.minBin, bytes)
  }

  ghost predicate AllocOk(cfg: Tune, th: Thread, lists: map<Slot, seq<Addr>>)
    requires cfg.minBin >= 1
    requires th.pc.WantLock? || th.pc.Refill? || th.pc.GrabWalk? || th.pc.NeedChunk?
          || th.pc.Carve? || th.pc.Pop? || th.pc.CountUsed?
  {
    && 1 <= th.key <= cfg.maxThreads
    && th.pc.bytes <= cfg.maxBytes && th.pc.bin == Which(cfg.minBin, th.pc.bytes)
    && th.pc.bin < cfg.Bins()
    && Slot(th.pc.bin, th.key) in lists && Slot(th.pc.bin, 0) in lists
  }

  /** Thread i holds block in its hand, in the stated place. */
  ghost predicate HandOk(cfg: Tune, th: Thread, g: Aux, b: nat, block: Addr, p: Place)
    requires cfg.minBin >= 1
  {
    && 1 <= th.key <= cfg.maxThreads && b < cfg.Bins()
    && block in g.place && g.place[block] == p && block in g.home && g.home[block].bin == b
    && Slot(b, th.key) in g.lists && Slot(b, 0) in g.lists
  }

  ghost predicate ThreadOk(cfg: Tune, c: Shared, g: Aux, i: nat)
    requires cfg.Valid() && i < |c.threads| && i < |g.batch|
  {
    var th, bat := c.threads[i], g.batch[i];
    match th.pc
    case Idle => bat == [] && th.key <= cfg.maxThreads
    case WantLock(b, _) => AllocOk(cfg, th, g.lists) && bat == [] && g.lists[Slot(b, th.key)] == []
    case Refill(b, _) => AllocOk(cfg, th, g.lists) && bat == [] && g.lists[Slot(b, th.key)] == []
    case NeedChunk(b, _) => AllocOk(cfg, th, g.lists) && bat == [] && g.lists[Slot(b, th.key)] == []
    case Pop(b, _) => AllocOk(cfg, th, g.lists) && bat == [] && g.lists[Slot(b, th.key)] != []
    case GrabWalk(b, _, block, left) =>
      AllocOk(cfg, th, g.lists) && GrabOk(cfg, c, th, g.lists, bat, b, block, left)
    case Carve(b, _, block, left) =>
      AllocOk(cfg, th, g.lists) && CarveOk(cfg, c, th, g.lists, bat, b, block, left)
    case CountUsed(b, _, block) =>
      && AllocOk(cfg, th, g.lists) && bat == [] && HandOk(cfg, th, g, b, block, Popped(i))
      && block in c.mem && c.mem[block] == Stamp(th.key)
    case DetachWalk(b, block, head, tmp, left, removed) =>
      && HandOk(cfg, th, g, b, block, Doomed(i)) && bat == []
      && DetachOk(g.lists[Slot(b, th.key)], head, tmp, left, removed)
    case WantReturn(b, block, head, tmp, removed) =>
      && HandOk(cfg, th, g, b, block, Doomed(i)) && TransitOk(c.mem, bat, head, tmp, removed)
    case Splice(b, block, head, tmp, removed) =>
      && HandOk(cfg, th, g, b, block, Doomed(i)) && TransitOk(c.mem, bat, head, tmp, removed)
    case Uncount(b, block) => HandOk(cfg, th, g, b, block, Doomed(i)) && bat == []
    case Push(b, block) => HandOk(cfg, th, g, b, block, Dropped(i)) && bat == []
  }

  /** The blocks being grabbed are the front of the global list, still linked to
      its rest, and both heads still point at the first of them. */
  ghost predicate GrabOk(cfg: Tune, c: Shared, th: Thread, lists: map<Slot, seq<Addr>>,
                         bat: seq<Addr>, b: nat, block: Addr, left: nat)
    requires cfg.Valid() && Slot(b, th.key) in lists && Slot(b, 0) in lists
  {
    var mine, pool := Slot(b, th.key), Slot(b, 0);
    && lists[mine] == [] && lists[pool] != []
    && |bat| == cfg.BlockCount(b) && left < |bat| && block == bat[|bat| - 1 - left]
    && Linked(c.mem, bat, lists[pool][0])
    && c.First(mine) == bat[0] && c.First(pool) == bat[0]
    && c.Free(mine) == |bat| && c.Free(pool) == |lists[pool]|
  }

  /** The blocks of a new chunk, of which all but `left` + 1 are linked. */
  ghost predicate CarveOk(cfg: Tune, c: Shared, th: Thread, lists: map<Slot, seq<Addr>>,
                          bat: seq<Addr>, b: nat, block: Addr, left: nat)
    requires cfg.Valid() && Slot(b, th.key) in lists
  {
    var mine := Slot(b, th.key);
    && lists[mine] == []
    && |bat| == cfg.BlockCount(b) && left < |bat| && block == bat[|bat| - 1 - left]
    && Chained(c.mem, bat, |bat| - 1 - left)
    && Spaced(bat, cfg.BlockSize(b))
    && c.First(mine) == bat[0] && c.Free(mine) == |bat|
  }

  ghost predicate Spaced(bat: seq<Addr>, size: nat) {
    forall k :: 0 <= k && k + 1 < |bat| ==> bat[k + 1] == bat[k] + size
  }

  ghost predicate DetachOk(l: seq<Addr>, head: Addr, tmp: Addr, left: nat, removed: int) {
    && 1 <= removed <= |l| && left < removed
    && head == l[0] && tmp == l[removed - 1 - left]
  }

  /** A detached batch: linked inside, its last link still stale. */
  ghost predicate TransitOk(mem: map<Addr, Cell>, bat: seq<Addr>, head: Addr, tmp: Addr, removed: int) {
    && |bat| == removed && removed >= 1
    && Chained(mem, bat, |bat|) && bat[|bat| - 1] in mem && mem[bat[|bat| - 1]].Next?
    && head == bat[0] && tmp == bat[|bat| - 1]
  }

  ghost predicate ThreadsOk(cfg: Tune, c: Shared, g: Aux)
    requires cfg.Valid() && |g.batch| == |c.threads|
  {
    forall i :: 0 <= i < |c.threads| ==> ThreadOk(cfg, c, g, i)
  }

  /** The outstanding blocks of bin s.bin stamped s.tid. */
  ghost function Outstanding(mem: map<Addr, Cell>, place: map<Addr, Place>, home: map<Addr, Home>,
                             s: Slot): set<Addr>
  {
    set a | a in place && place[a].Counted() && a in home && home[a].bin == s.bin
            && a in mem && mem[a] == Stamp(s.tid)
  }

  ghost predicate UsedOk(cfg: Tune, c: Shared, g: Aux)
    requires cfg.minBin >= 1
  {
    forall s :: ValidSlot(cfg, s) ==> c.Used(s) == |Outstanding(c.mem, g.place, g.home, s)|
  }

  /** Every block sits at its index in its chunk and serves the bin of the chunk. */
  ghost predicate HomeOk(cfg: Tune, chunks: map<Addr, nat>, a: Addr, h: Home)
    requires cfg.Valid()
  {
    && h.base in chunks && chunks[h.base] == h.bin < cfg.Bins() && h.index < cfg.BlockCount(h.bin)
    && a == h.base + h.index * cfg.BlockSize(h.bin)
  }

  ghost predicate HomesOk(cfg: Tune, chunks: map<Addr, nat>, home: map<Addr, Home>)
    requires cfg.Valid()
  {
    && (forall a :: a in home ==> HomeOk(cfg, chunks, a, home[a]))
    && (forall u :: u in chunks ==> Filled(cfg, home, u, chunks[u]))
  }

  /** Block k of a chunk at u that serves bin b. */
  function BlockAt(cfg: Tune, u: Addr, b: nat, k: nat): Addr { u + k * cfg.BlockSize(b) }

  /** Every block the chunk at u was cut into is known, and serves bin b. */
  ghost predicate Filled(cfg: Tune, home: map<Addr, Home>, u: Addr, b: nat)
    requires cfg.Valid()
  {
    && b < cfg.Bins()
    && forall k: nat :: k < cfg.BlockCount(b) ==>
         BlockAt(cfg, u, b, k) in home && home[BlockAt(cfg, u, b, k)].bin == b
  }

  ghost predicate ChunksOk(cfg: Tune, chunks: map<Addr, nat>) {
    && (forall u :: u in chunks ==> 1 <= u && u + cfg.chunkSize <= 2 * cfg.half)
    && (forall u, v :: u in chunks && v in chunks && u != v ==>
          u + cfg.chunkSize <= v || v + cfg.chunkSize <= u)
  }

  ghost predicate LocksOk(threads: seq<Thread>, locked: set<nat>) {
    && (forall i, b :: 0 <= i < |threads| && threads[i].pc.Holds(b) ==> b in locked)
    && (forall i, j, b :: 0 <= i < j < |threads| ==> !(threads[i].pc.Holds(b) && threads[j].pc.Holds(b)))
  }

  predicate Held(threads: seq<Thread>, id: nat) {
    exists i :: 0 <= i < |threads| && threads[i].key == id
  }

  /** The unused ids form a list; held ids are distinct and not on it; and every
      id is one or the other. */
  ghost predicate KeysOk(cfg: Tune, threads: seq<Thread>, idFirst: nat, idNext: map<nat, nat>, ids: seq<nat>) {
    && Distinct(ids) && idFirst == Head(ids)
    && (forall k :: 0 <= k < |ids| ==> IdLinkOk(cfg, idNext, ids, k))
    && (forall i :: 0 <= i < |threads| ==> threads[i].key <= cfg.maxThreads && threads[i].key !in ids)
    && (forall i, j :: 0 <= i < j < |threads| && threads[i].key != 0 ==> threads[i].key != threads[j].key)
    && (forall id :: 1 <= id <= cfg.maxThreads ==> id in ids || Held(threads, id))
  }

  ghost predicate IdLinkOk(cfg: Tune, idNext: map<nat, nat>, ids: seq<nat>, k: nat)
    requires k < |ids|
  {
    && 1 <= ids[k] <= cfg.maxThreads && ids[k] in idNext
    && idNext[ids[k]] == if k + 1 < |ids| then ids[k + 1] else 0
  }

  ghost predicate Inv(cfg: Tune, c: Shared, g: Aux)
    requires cfg.Valid()
  {
    && |g.batch| == |c.threads|
    && ListsOk(cfg, g.lists, g.place)
    && BatchesOk(|c.threads|, g.batch, g.place)
    && LinksOk(cfg, c.mem, g.lists)
    && HeadsOk(cfg, c, g.lists)
    && PlacesOk(cfg, c, g)
    && ThreadsOk(cfg, c, g)
    && UsedOk(cfg, c, g)
    && HomesOk(cfg, c.chunks, g.home)
    && ChunksOk(cfg, c.chunks)
    && LocksOk(c.threads, c.locked)
    && KeysOk(cfg, c.threads, c.idFirst, c.idNext, g.ids)
  }
}

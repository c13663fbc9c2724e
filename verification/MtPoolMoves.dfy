/** Steps that change no more than a program counter, a lock or the id list. */
module MtPoolMoves {
  import opened BinMap
  import opened MtPool
  import opened MtPoolInv
  import opened MtPoolSteps

  lemma BusyHasKey(cfg: Tune, c: Shared, g: Aux, i: nat)
    requires cfg.Valid() && i < |c.threads| && i < |g.batch| && ThreadOk(cfg, c, g, i)
    requires !c.threads[i].pc.Idle?
    ensures 1 <= c.threads[i].key <= cfg.maxThreads && c.threads[i].pc.bin < cfg.Bins()
  {
  }

  /** Nobody but its owner rebuilds a thread's own slot. */
  lemma MineSteady(cfg: Tune, c: Shared, g: Aux, i: nat, b: nat)
    requires cfg.Valid() && Inv(cfg, c, g) && i < |c.threads| && c.threads[i].key != 0
    requires !c.threads[i].pc.Carve? && !c.threads[i].pc.GrabWalk?
    ensures Steady(c.threads, Slot(b, c.threads[i].key))
  {
    var s := Slot(b, c.threads[i].key);
    forall j | 0 <= j < |c.threads| ensures !Disturbs(c.threads[j], s) {
      if j < i {
        assert c.threads[j].key != 0 ==> c.threads[j].key != c.threads[i].key;
      } else if i < j {
        assert c.threads[i].key != c.threads[j].key;
      }
    }
  }

  /** Inside a critical section only a grab in progress unsettles the global list. */
  lemma PoolSteady(cfg: Tune, c: Shared, g: Aux, i: nat, b: nat)
    requires cfg.Valid() && Inv(cfg, c, g) && i < |c.threads|
    requires c.threads[i].pc.Holds(b) && !c.threads[i].pc.GrabWalk?
    ensures Steady(c.threads, Slot(b, 0))
  {
    hide ListsOk, BatchesOk, LinksOk, HeadsOk, PlacesOk, UsedOk, HomesOk, ChunksOk, KeysOk, ThreadOk;
    forall j | 0 <= j < |c.threads| ensures !Disturbs(c.threads[j], Slot(b, 0)) {
      if !c.threads[j].pc.Idle? { BusyHasKey(cfg, c, g, j); }
    }
  }

  lemma BinInRange(cfg: Tune, bytes: nat)
    requires cfg.Valid() && bytes <= cfg.maxBytes
    ensures Which(cfg.minBin, bytes) < cfg.Bins()
  {
    WhichMonotone(cfg.minBin, bytes, cfg.maxBytes);
  }

  lemma KeepAlloc(cfg: Tune, c: Shared, g: Aux, i: nat, bytes: nat)
    requires cfg.Valid() && Inv(cfg, c, g) && Enabled(cfg, c, i, Alloc(bytes))
    ensures Inv(cfg, DoAlloc(cfg, c, i, bytes), g)
  {
    hide BatchesOk, LinksOk, PlacesOk, UsedOk, HomesOk, ChunksOk, LocksOk, KeysOk,
         Size, Which, Largest16, Quotient, Threshold;
    var b := Which(cfg.minBin, bytes);
    var mine := Slot(b, c.threads[i].key);
    BinInRange(cfg, bytes);
    MineSteady(cfg, c, g, i, b);
    assert ThreadOk(cfg, c, g, i);
    assert ValidSlot(cfg, mine) && ValidSlot(cfg, Slot(b, 0));
    assert HeadOk(c, mine, g.lists[mine]);
    NoNullBlocks(cfg, c, g, mine);
    var pc := if c.First(mine) == 0 then WantLock(b, bytes) else Pop(b, bytes);
    LocksWithout(c.threads, c.locked, i, pc, c.locked);
    KeepPc(cfg, c, g, i, pc, c.locked);
  }

  lemma NoNullBlocks(cfg: Tune, c: Shared, g: Aux, s: Slot)
    requires cfg.Valid() && ListsOk(cfg, g.lists, g.place) && PlacesOk(cfg, c, g) && ValidSlot(cfg, s)
    ensures Head(g.lists[s]) == 0 <==> g.lists[s] == []
  {
    if g.lists[s] != [] {
      var a := g.lists[s][0];
      assert a in g.lists[s];
      assert PlaceOk(cfg, c, g.home, a, g.place[a]);
    }
  }

  /** A thread outside every critical section, after its step, leaves locks consistent. */
  lemma LocksWithout(threads: seq<Thread>, locked: set<nat>, i: nat, pc: Pc, locked': set<nat>)
    requires LocksOk(threads, locked) && i < |threads|
    requires forall b :: !pc.Holds(b)
    requires forall b :: b in locked && b !in locked' ==> threads[i].pc.Holds(b)
    ensures LocksOk(threads[i := threads[i].(pc := pc)], locked')
  {
    var threads' := threads[i := threads[i].(pc := pc)];
    forall j, b | 0 <= j < |threads'| && threads'[j].pc.Holds(b) ensures b in locked' {
      assert j != i && threads[j].pc.Holds(b) && b in locked;
    }
    forall j, k, b | 0 <= j < k < |threads'| ensures !(threads'[j].pc.Holds(b) && threads'[k].pc.Holds(b)) {
      assert !(threads[j].pc.Holds(b) && threads[k].pc.Holds(b));
    }
  }

  /** Taking a free lock keeps the critical sections exclusive. */
  lemma LocksTaken(threads: seq<Thread>, locked: set<nat>, i: nat, pc: Pc, b: nat)
    requires LocksOk(threads, locked) && i < |threads| && b !in locked
    requires pc.Holds(b)
    ensures LocksOk(threads[i := threads[i].(pc := pc)], locked + {b})
  {
    var threads' := threads[i := threads[i].(pc := pc)];
    forall j, k, d | 0 <= j < k < |threads'| ensures !(threads'[j].pc.Holds(d) && threads'[k].pc.Holds(d)) {
      assert !(threads[j].pc.Holds(d) && threads[k].pc.Holds(d));
      assert !threads[j].pc.Holds(b) && !threads[k].pc.Holds(b);
    }
  }

  /** A thread that stays in its critical section. */
  lemma LocksKept(threads: seq<Thread>, locked: set<nat>, i: nat, pc: Pc)
    requires LocksOk(threads, locked) && i < |threads|
    requires forall b :: pc.Holds(b) ==> threads[i].pc.Holds(b)
    ensures LocksOk(threads[i := threads[i].(pc := pc)], locked)
  {
    var threads' := threads[i := threads[i].(pc := pc)];
    forall j, k, d | 0 <= j < k < |threads'| ensures !(threads'[j].pc.Holds(d) && threads'[k].pc.Holds(d)) {
      assert !(threads[j].pc.Holds(d) && threads[k].pc.Holds(d));
    }
  }

  lemma KeepLockRefill(cfg: Tune, c: Shared, g: Aux, i: nat)
    requires cfg.Valid() && Inv(cfg, c, g) && Enabled(cfg, c, i, Go) && c.threads[i].pc.WantLock?
    ensures Inv(cfg, DoLockRefill(c, i), g)
  {
    var WantLock(b, bytes) := c.threads[i].pc;
    assert ThreadOk(cfg, c, g, i);
    LocksTaken(c.threads, c.locked, i, Refill(b, bytes), b);
    KeepPc(cfg, c, g, i, Refill(b, bytes), c.locked + {b});
  }

  lemma KeepLockReturn(cfg: Tune, c: Shared, g: Aux, i: nat)
    requires cfg.Valid() && Inv(cfg, c, g) && Enabled(cfg, c, i, Go) && c.threads[i].pc.WantReturn?
    ensures Inv(cfg, DoLockReturn(c, i), g)
  {
    var WantReturn(b, block, head, tmp, removed) := c.threads[i].pc;
    assert ThreadOk(cfg, c, g, i);
    LocksTaken(c.threads, c.locked, i, Splice(b, block, head, tmp, removed), b);
    KeepPc(cfg, c, g, i, Splice(b, block, head, tmp, removed), c.locked + {b});
  }

  lemma KeepRefillEmpty(cfg: Tune, c: Shared, g: Aux, i: nat)
    requires cfg.Valid() && Inv(cfg, c, g) && Enabled(cfg, c, i, Go) && c.threads[i].pc.Refill?
    requires c.First(Slot(c.threads[i].pc.bin, 0)) == 0
    ensures Inv(cfg, DoRefill(cfg, c, i), g)
  {
    var Refill(b, bytes) := c.threads[i].pc;
    assert ThreadOk(cfg, c, g, i);
    LocksWithout(c.threads, c.locked, i, NeedChunk(b, bytes), c.locked - {b});
    KeepPc(cfg, c, g, i, NeedChunk(b, bytes), c.locked - {b});
  }

  lemma GrabAdvances(cfg: Tune, c: Shared, g: Aux, i: nat)
    requires cfg.Valid() && i < |c.threads| && i < |g.batch| && ThreadOk(cfg, c, g, i)
    requires c.threads[i].pc.GrabWalk? && c.threads[i].pc.left > 0
    ensures ThreadOk(cfg, DoGrab(c, i), g, i)
  {
    var GrabWalk(b, bytes, block, left) := c.threads[i].pc;
    var bat := g.batch[i];
    var k := |bat| - 1 - left;
    assert bat[k] in c.mem && c.mem[bat[k]] == Next(bat[k + 1]);
  }

  lemma KeepGrabWalk(cfg: Tune, c: Shared, g: Aux, i: nat)
    requires cfg.Valid() && Inv(cfg, c, g) && Enabled(cfg, c, i, Go) && c.threads[i].pc.GrabWalk?
    requires c.threads[i].pc.left > 0
    ensures Inv(cfg, DoGrab(c, i), g)
  {
    var pc := DoGrab(c, i).threads[i].pc;
    GrabAdvances(cfg, c, g, i);
    LocksKept(c.threads, c.locked, i, pc);
    KeepPc(cfg, c, g, i, pc, c.locked);
  }

  lemma DetachAdvances(cfg: Tune, c: Shared, g: Aux, i: nat)
    requires cfg.Valid() && i < |c.threads| && i < |g.batch| && ThreadOk(cfg, c, g, i)
    requires LinksOk(cfg, c.mem, g.lists)
    requires c.threads[i].pc.DetachWalk? && c.threads[i].pc.left > 0
    ensures ThreadOk(cfg, DoDetach(c, i), g, i)
  {
    var DetachWalk(b, block, head, tmp, left, removed) := c.threads[i].pc;
    var mine := Slot(b, c.threads[i].key);
    var l := g.lists[mine];
    var k := removed - 1 - left;
    assert ValidSlot(cfg, mine) && Linked(c.mem, l, 0);
    assert l[k] in c.mem && c.mem[l[k]] == Next(l[k + 1]);
  }

  lemma KeepDetachWalk(cfg: Tune, c: Shared, g: Aux, i: nat)
    requires cfg.Valid() && Inv(cfg, c, g) && Enabled(cfg, c, i, Go) && c.threads[i].pc.DetachWalk?
    requires c.threads[i].pc.left > 0
    ensures Inv(cfg, DoDetach(c, i), g)
  {
    var pc := DoDetach(c, i).threads[i].pc;
    DetachAdvances(cfg, c, g, i);
    LocksWithout(c.threads, c.locked, i, pc, c.locked);
    KeepPc(cfg, c, g, i, pc, c.locked);
  }
}

/** Refilling an empty thread list from the global list. */
module MtPoolRefill {
  import opened BinMap
  import opened MtPool
  import opened MtPoolInv
  import opened MtPoolSteps
  import opened MtPoolMoves
  import opened MtPoolTransfer

  /** What a thread refilling bin b under the lock knows: its own list is empty
      and the global list is settled. */
  ghost predicate RefillView(cfg: Tune, c: Shared, g: Aux, i: nat)
    requires cfg.Valid()
  {
    && i < |c.threads| == |g.batch| && c.threads[i].pc.Refill? && g.batch[i] == []
    && var b, t := c.threads[i].pc.bin, c.threads[i].key;
       && ValidSlot(cfg, Slot(b, t)) && t != 0
       && AllocOk(cfg, c.threads[i], g.lists)
       && g.lists[Slot(b, t)] == [] && HeadOk(c, Slot(b, 0), g.lists[Slot(b, 0)])
       && Distinct(g.lists[Slot(b, 0)]) && AllAt(g.place, g.lists[Slot(b, 0)], Listed(Slot(b, 0)))
       && Linked(c.mem, g.lists[Slot(b, 0)], 0)
  }

  lemma RefillSees(cfg: Tune, c: Shared, g: Aux, i: nat)
    requires cfg.Valid() && Inv(cfg, c, g) && i < |c.threads| && c.threads[i].pc.Refill?
    ensures RefillView(cfg, c, g, i)
  {
    var b := c.threads[i].pc.bin;
    BusyHasKey(cfg, c, g, i);
    assert ThreadOk(cfg, c, g, i);
    PoolSteady(cfg, c, g, i, b);
    assert ValidSlot(cfg, Slot(b, 0));
  }

  ghost function AfterRefillAll(c: Shared, g: Aux, i: nat): Aux
    requires i < |c.threads| && c.threads[i].pc.Refill? && Slot(c.threads[i].pc.bin, 0) in g.lists
  {
    var mine, pool := Slot(c.threads[i].pc.bin, c.threads[i].key), Slot(c.threads[i].pc.bin, 0);
    var l := g.lists[pool];
    g.(lists := g.lists[mine := l][pool := []], place := Moved(g.place, l, Listed(mine)))
  }

  ghost predicate TakesAll(cfg: Tune, c: Shared, b: nat)
    requires cfg.Valid()
  {
    c.First(Slot(b, 0)) != 0 && cfg.BlockCount(b) >= c.Free(Slot(b, 0))
  }

  lemma RefillAllAccount(cfg: Tune, c: Shared, g: Aux, i: nat)
    requires cfg.Valid() && RefillView(cfg, c, g, i) && TakesAll(cfg, c, c.threads[i].pc.bin)
    requires ListsOk(cfg, g.lists, g.place) && LinksOk(cfg, c.mem, g.lists)
    ensures var pool := Slot(c.threads[i].pc.bin, 0);
      var g' := AfterRefillAll(c, g, i);
      && MovesOk(cfg, |c.threads|, g, g', g.lists[pool], Listed(pool), Listed(Slot(pool.bin, c.threads[i].key)))
      && LinksOk(cfg, DoRefill(cfg, c, i).mem, g'.lists)
  {
  }

  lemma RefillAllOwn(cfg: Tune, c: Shared, g: Aux, i: nat)
    requires cfg.Valid() && RefillView(cfg, c, g, i) && TakesAll(cfg, c, c.threads[i].pc.bin)
    ensures var c', g' := DoRefill(cfg, c, i), AfterRefillAll(c, g, i);
      OnlyOwn(c, g, c', g', i)
  {
  }

  lemma RefillAllEffects(cfg: Tune, c: Shared, g: Aux, i: nat)
    requires cfg.Valid() && RefillView(cfg, c, g, i) && TakesAll(cfg, c, c.threads[i].pc.bin)
    requires var c', g' := DoRefill(cfg, c, i), AfterRefillAll(c, g, i);
      OnlyOwn(c, g, c', g', i)
    ensures var c', g' := DoRefill(cfg, c, i), AfterRefillAll(c, g, i);
      EffectsOk(cfg, c, g, c', g', i, g.lists[Slot(c.threads[i].pc.bin, 0)])
  {
    hide OnlyOwn;
  }

  lemma RefillAllRest(cfg: Tune, c: Shared, g: Aux, i: nat)
    requires cfg.Valid() && RefillView(cfg, c, g, i) && TakesAll(cfg, c, c.threads[i].pc.bin)
    requires PlacesOk(cfg, c, g) && LocksOk(c.threads, c.locked) && UsedOk(cfg, c, g)
    ensures var c', pool := DoRefill(cfg, c, i), Slot(c.threads[i].pc.bin, 0);
      && ArriveOk(cfg, c', g.home, g.lists[pool], Listed(Slot(pool.bin, c.threads[i].key)))
      && LocksOk(c'.threads, c'.locked) && UsedOk(cfg, c', AfterRefillAll(c, g, i))
  {
    hide Size, Which, Largest16, BinCount, Quotient, Threshold, Linked;
    var c', pool := DoRefill(cfg, c, i), Slot(c.threads[i].pc.bin, 0);
    var l, q := g.lists[pool], Listed(Slot(pool.bin, c.threads[i].key));
    RefillArrives(cfg, c, g, c', l, pool, q);
    LocksWithout(c.threads, c.locked, i, c'.threads[i].pc, c'.locked);
    UsedMoved(cfg, c, g, c', AfterRefillAll(c, g, i), l, Listed(pool), q);
  }

  /** The thread takes the whole global list. */
  lemma KeepRefillAll(cfg: Tune, c: Shared, g: Aux, i: nat) returns (g': Aux)
    requires cfg.Valid() && Inv(cfg, c, g) && Enabled(cfg, c, i, Go) && c.threads[i].pc.Refill?
    requires TakesAll(cfg, c, c.threads[i].pc.bin)
    ensures Inv(cfg, DoRefill(cfg, c, i), g')
  {
    RefillSees(cfg, c, g, i);
    var c' := DoRefill(cfg, c, i);
    g' := AfterRefillAll(c, g, i);
    var pool := Slot(c.threads[i].pc.bin, 0);
    var mine, l := Slot(pool.bin, c.threads[i].key), g.lists[pool];
    hide BatchesOk, HeadsOk, PlacesOk, ThreadsOk, HomesOk, ChunksOk, LocksOk, KeysOk, LinksOk, ListsOk,
         UsedOk, ArriveOk, EffectsOk, RefillView, DoRefill;
    RefillAllAccount(cfg, c, g, i);
    RefillAllOwn(cfg, c, g, i);
    RefillAllEffects(cfg, c, g, i);
    RefillAllRest(cfg, c, g, i);
    Transfer(cfg, c, g, c', g', i, l, Listed(pool), Listed(mine));
  }

  lemma RefillArrives(cfg: Tune, c: Shared, g: Aux, c': Shared, l: seq<Addr>, pool: Slot, q: Place)
    requires cfg.Valid() && PlacesOk(cfg, c, g) && AllAt(g.place, l, Listed(pool))
    requires q.Listed? || q.Batch?
    requires q.Listed? ==> ValidSlot(cfg, q.s) && q.s.bin == pool.bin
    requires q.Batch? ==> q.th < |c'.threads| && !c'.threads[q.th].pc.Idle? && c'.threads[q.th].pc.bin == pool.bin
    ensures ArriveOk(cfg, c', g.home, l, q)
  {
    forall a | a in l ensures PlaceOk(cfg, c', g.home, a, q) {
      assert PlaceOk(cfg, c, g.home, a, g.place[a]);
    }
  }

  // ---- the global list has more than one chunk's worth ---------------------------

  lemma BlockFits(cfg: Tune, b: nat)
    requires cfg.Valid() && b < cfg.Bins()
    ensures cfg.BlockCount(b) >= 1
  {
    SizeMonotone(cfg.minBin, b, cfg.Bins() - 1);
  }

  ghost predicate TakesSome(cfg: Tune, c: Shared, b: nat)
    requires cfg.Valid()
  {
    c.First(Slot(b, 0)) != 0 && cfg.BlockCount(b) < c.Free(Slot(b, 0)) && cfg.BlockCount(b) >= 1
  }

  ghost function AfterRefillSome(c: Shared, g: Aux, i: nat, want: nat): Aux
    requires i < |c.threads| && i < |g.batch| && c.threads[i].pc.Refill?
    requires Slot(c.threads[i].pc.bin, 0) in g.lists && want <= |g.lists[Slot(c.threads[i].pc.bin, 0)]|
  {
    var pool := Slot(c.threads[i].pc.bin, 0);
    var l := g.lists[pool];
    g.(lists := g.lists[pool := l[want..]], batch := g.batch[i := l[..want]],
       place := Moved(g.place, l[..want], Batch(i)))
  }

  lemma RefillSomeAccount(cfg: Tune, c: Shared, g: Aux, i: nat, want: nat)
    requires cfg.Valid() && RefillView(cfg, c, g, i) && TakesSome(cfg, c, c.threads[i].pc.bin)
    requires want == cfg.BlockCount(c.threads[i].pc.bin)
    requires ListsOk(cfg, g.lists, g.place) && LinksOk(cfg, c.mem, g.lists)
    ensures var pool := Slot(c.threads[i].pc.bin, 0);
      var g' := AfterRefillSome(c, g, i, want);
      && MovesOk(cfg, |c.threads|, g, g', g.lists[pool][..want], Listed(pool), Batch(i))
      && LinksOk(cfg, DoRefill(cfg, c, i).mem, g'.lists)
  {
    var pool := Slot(c.threads[i].pc.bin, 0);
    var l := g.lists[pool];
    assert l == l[..want] + l[want..];
    assert Linked(c.mem, l[want..], 0) by { DropLinked(c.mem, l, want); }
  }

  lemma DropLinked(mem: map<Addr, Cell>, l: seq<Addr>, n: nat)
    requires Linked(mem, l, 0) && n <= |l|
    ensures Linked(mem, l[n..], 0)
    ensures n < |l| ==> Linked(mem, l[..n], l[n])
  {
    var r := l[n..];
    forall k | 0 <= k < |r| && k + 1 < |r| ensures r[k] in mem && mem[r[k]] == Next(r[k + 1]) {
      assert r[k] == l[n + k] && r[k + 1] == l[n + k + 1];
    }
    if 0 < n < |l| {
      assert l[n - 1] in mem && mem[l[n - 1]] == Next(l[n - 1 + 1]);
    }
  }

  lemma RefillSomeOwn(cfg: Tune, c: Shared, g: Aux, i: nat, want: nat)
    requires cfg.Valid() && RefillView(cfg, c, g, i) && TakesSome(cfg, c, c.threads[i].pc.bin)
    requires want == cfg.BlockCount(c.threads[i].pc.bin)
    ensures var c', g' := DoRefill(cfg, c, i), AfterRefillSome(c, g, i, want);
      OnlyOwn(c, g, c', g', i)
  {
  }

  lemma RefillSomeEffects(cfg: Tune, c: Shared, g: Aux, i: nat, want: nat)
    requires cfg.Valid() && RefillView(cfg, c, g, i) && TakesSome(cfg, c, c.threads[i].pc.bin)
    requires want == cfg.BlockCount(c.threads[i].pc.bin)
    requires var c', g' := DoRefill(cfg, c, i), AfterRefillSome(c, g, i, want);
      OnlyOwn(c, g, c', g', i)
    ensures var c', g' := DoRefill(cfg, c, i), AfterRefillSome(c, g, i, want);
      EffectsOk(cfg, c, g, c', g', i, g.lists[Slot(c.threads[i].pc.bin, 0)][..want])
  {
    hide OnlyOwn;
    var b, t := c.threads[i].pc.bin, c.threads[i].key;
    var c', g' := DoRefill(cfg, c, i), AfterRefillSome(c, g, i, want);
    var l := g.lists[Slot(b, 0)];
    DropLinked(c.mem, l, want);
    assert GrabOk(cfg, c', c'.threads[i], g'.lists, l[..want], b, l[0], want - 1);
    assert Disturbs(c'.threads[i], Slot(b, t)) && Disturbs(c'.threads[i], Slot(b, 0));
  }

  lemma RefillSomeRest(cfg: Tune, c: Shared, g: Aux, i: nat, want: nat)
    requires cfg.Valid() && RefillView(cfg, c, g, i) && TakesSome(cfg, c, c.threads[i].pc.bin)
    requires want == cfg.BlockCount(c.threads[i].pc.bin)
    requires PlacesOk(cfg, c, g) && LocksOk(c.threads, c.locked) && UsedOk(cfg, c, g)
    ensures var c', pool := DoRefill(cfg, c, i), Slot(c.threads[i].pc.bin, 0);
      && ArriveOk(cfg, c', g.home, g.lists[pool][..want], Batch(i))
      && LocksOk(c'.threads, c'.locked)
      && UsedOk(cfg, c', AfterRefillSome(c, g, i, want))
  {
    var c', pool := DoRefill(cfg, c, i), Slot(c.threads[i].pc.bin, 0);
    var l := g.lists[pool][..want];
    assert AllAt(g.place, l, Listed(pool));
    RefillArrives(cfg, c, g, c', l, pool, Batch(i));
    LocksKept(c.threads, c.locked, i, c'.threads[i].pc);
    UsedMoved(cfg, c, g, c', AfterRefillSome(c, g, i, want), l, Listed(pool), Batch(i));
  }

  /** The thread starts cutting a chunk's worth off the global list. */
  lemma KeepRefillSome(cfg: Tune, c: Shared, g: Aux, i: nat) returns (g': Aux)
    requires cfg.Valid() && Inv(cfg, c, g) && Enabled(cfg, c, i, Go) && c.threads[i].pc.Refill?
    requires TakesSome(cfg, c, c.threads[i].pc.bin)
    ensures Inv(cfg, DoRefill(cfg, c, i), g')
  {
    RefillSees(cfg, c, g, i);
    var want, pool := cfg.BlockCount(c.threads[i].pc.bin), Slot(c.threads[i].pc.bin, 0);
    g' := AfterRefillSome(c, g, i, want);
    hide BatchesOk, HeadsOk, PlacesOk, ThreadsOk, HomesOk, ChunksOk, LocksOk, KeysOk, LinksOk, ListsOk,
         UsedOk, ArriveOk, EffectsOk, RefillView, DoRefill;
    RefillSomeAccount(cfg, c, g, i, want);
    RefillSomeOwn(cfg, c, g, i, want);
    RefillSomeEffects(cfg, c, g, i, want);
    RefillSomeRest(cfg, c, g, i, want);
    Transfer(cfg, c, g, DoRefill(cfg, c, i), g', i, g.lists[pool][..want], Listed(pool), Batch(i));
  }

  // ---- the cut itself -------------------------------------------------------------

  ghost predicate GrabView(cfg: Tune, c: Shared, g: Aux, i: nat)
    requires cfg.Valid()
  {
    && i < |c.threads| == |g.batch| && c.threads[i].pc.GrabWalk? && c.threads[i].pc.left == 0
    && c.threads[i].key != 0
    && AllocOk(cfg, c.threads[i], g.lists)
    && GrabOk(cfg, c, c.threads[i], g.lists, g.batch[i], c.threads[i].pc.bin, c.threads[i].pc.block, 0)
    && Distinct(g.batch[i]) && AllAt(g.place, g.batch[i], Batch(i))
  }

  lemma GrabSees(cfg: Tune, c: Shared, g: Aux, i: nat)
    requires cfg.Valid() && Inv(cfg, c, g) && i < |c.threads|
    requires c.threads[i].pc.GrabWalk? && c.threads[i].pc.left == 0
    ensures GrabView(cfg, c, g, i)
  {
    assert ThreadOk(cfg, c, g, i);
    WholeBatch(|c.threads|, g, i);
  }

  lemma WholeBatch(n: nat, g: Aux, i: nat)
    requires BatchesOk(n, g.batch, g.place) && i < n
    ensures Distinct(g.batch[i]) && AllAt(g.place, g.batch[i], Batch(i))
  {
    assert Members(g.batch[i], g.place, Batch(i));
  }

  /** The thread's whole batch becomes its list. */
  ghost function AfterOwnBatch(c: Shared, g: Aux, i: nat): Aux
    requires i < |c.threads| && i < |g.batch| && !c.threads[i].pc.Idle?
  {
    var mine := Slot(c.threads[i].pc.bin, c.threads[i].key);
    g.(lists := g.lists[mine := g.batch[i]], batch := g.batch[i := []],
       place := Moved(g.place, g.batch[i], Listed(mine)))
  }

  lemma GrabAccount(cfg: Tune, c: Shared, g: Aux, i: nat)
    requires cfg.Valid() && GrabView(cfg, c, g, i) && ListsOk(cfg, g.lists, g.place)
    ensures MovesOk(cfg, |c.threads|, g, AfterOwnBatch(c, g, i), g.batch[i], Batch(i),
                    Listed(Slot(c.threads[i].pc.bin, c.threads[i].key)))
  {
  }

  /** Writing the end of a thread's own batch disturbs no list. */
  lemma BatchEndWritten(cfg: Tune, mem: map<Addr, Cell>, g: Aux, n: nat, i: nat, mine: Slot, tail: Addr)
    requires cfg.Valid() && ListsOk(cfg, g.lists, g.place) && LinksOk(cfg, mem, g.lists)
    requires BatchesOk(n, g.batch, g.place) && i < n && g.batch[i] != []
    requires Chained(mem, g.batch[i], |g.batch[i]| - 1)
    ensures var bat := g.batch[i];
      && Linked(mem[bat[|bat| - 1] := Next(tail)], bat, tail)
      && LinksOk(cfg, mem[bat[|bat| - 1] := Next(tail)], g.lists)
      && LinksOk(cfg, mem[bat[|bat| - 1] := Next(0)], g.lists[mine := bat])
  {
    var bat := g.batch[i];
    var last := bat[|bat| - 1];
    assert Members(bat, g.place, Batch(i)) && last in bat;
    forall s | ValidSlot(cfg, s) ensures last !in g.lists[s] {
      assert Members(g.lists[s], g.place, Listed(s));
    }
    forall s, t | ValidSlot(cfg, s) ensures Linked(mem[last := Next(t)], g.lists[s], 0) {
      assert Linked(mem, g.lists[s], 0);
    }
    assert Linked(mem[last := Next(0)], bat, 0);
  }

  lemma GrabOwn(cfg: Tune, c: Shared, g: Aux, i: nat)
    requires cfg.Valid() && GrabView(cfg, c, g, i)
    ensures OnlyOwn(c, g, DoGrab(c, i), AfterOwnBatch(c, g, i), i)
  {
    var bat := g.batch[i];
    assert bat[|bat| - 1] in bat;
  }

  lemma GrabEffects(cfg: Tune, c: Shared, g: Aux, i: nat)
    requires cfg.Valid() && GrabView(cfg, c, g, i)
    requires OnlyOwn(c, g, DoGrab(c, i), AfterOwnBatch(c, g, i), i)
    ensures EffectsOk(cfg, c, g, DoGrab(c, i), AfterOwnBatch(c, g, i), i, g.batch[i])
  {
    hide OnlyOwn;
    var bat := g.batch[i];
    assert bat[|bat| - 1] in bat;
  }

  lemma OwnBatchArrives(cfg: Tune, c: Shared, g: Aux, c': Shared, i: nat)
    requires cfg.Valid() && PlacesOk(cfg, c, g) && i < |c.threads| == |g.batch| && !c.threads[i].pc.Idle?
    requires AllAt(g.place, g.batch[i], Batch(i))
    ensures forall s :: ValidSlot(cfg, s) && s.bin == c.threads[i].pc.bin ==>
              ArriveOk(cfg, c', g.home, g.batch[i], Listed(s))
  {
    forall s, a | ValidSlot(cfg, s) && s.bin == c.threads[i].pc.bin && a in g.batch[i]
      ensures PlaceOk(cfg, c', g.home, a, Listed(s))
    {
      assert PlaceOk(cfg, c, g.home, a, g.place[a]);
    }
  }

  lemma GrabRest(cfg: Tune, c: Shared, g: Aux, i: nat)
    requires cfg.Valid() && GrabView(cfg, c, g, i)
    requires PlacesOk(cfg, c, g) && LocksOk(c.threads, c.locked) && UsedOk(cfg, c, g)
    ensures var c', mine := DoGrab(c, i), Slot(c.threads[i].pc.bin, c.threads[i].key);
      && ArriveOk(cfg, c', g.home, g.batch[i], Listed(mine))
      && LocksOk(c'.threads, c'.locked)
      && UsedOk(cfg, c', AfterOwnBatch(c, g, i))
  {
    var c', mine := DoGrab(c, i), Slot(c.threads[i].pc.bin, c.threads[i].key);
    OwnBatchArrives(cfg, c, g, c', i);
    LocksWithout(c.threads, c.locked, i, c'.threads[i].pc, c'.locked);
    assert c.threads[i].pc.block in g.batch[i];
    UsedMoved(cfg, c, g, c', AfterOwnBatch(c, g, i), g.batch[i], Batch(i), Listed(mine));
  }

  /** The last node of the walk is cut off and the lock released. */
  lemma KeepGrabEnd(cfg: Tune, c: Shared, g: Aux, i: nat) returns (g': Aux)
    requires cfg.Valid() && Inv(cfg, c, g) && Enabled(cfg, c, i, Go) && c.threads[i].pc.GrabWalk?
    requires c.threads[i].pc.left == 0
    ensures Inv(cfg, DoGrab(c, i), g')
  {
    GrabSees(cfg, c, g, i);
    g' := AfterOwnBatch(c, g, i);
    var mine := Slot(c.threads[i].pc.bin, c.threads[i].key);
    assert LinksOk(cfg, DoGrab(c, i).mem, g'.lists) by {
      BatchEndWritten(cfg, c.mem, g, |c.threads|, i, mine, 0);
    }
    hide BatchesOk, HeadsOk, PlacesOk, ThreadsOk, HomesOk, ChunksOk, LocksOk, KeysOk, LinksOk, ListsOk,
         UsedOk, ArriveOk, EffectsOk, GrabView, DoGrab;
    GrabAccount(cfg, c, g, i);
    GrabOwn(cfg, c, g, i);
    GrabEffects(cfg, c, g, i);
    GrabRest(cfg, c, g, i);
    Transfer(cfg, c, g, DoGrab(c, i), g', i, g.batch[i], Batch(i), Listed(mine));
  }
}

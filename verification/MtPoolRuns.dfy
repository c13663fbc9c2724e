/** Every run of the pool, however its threads interleave, keeps the invariant. */
module MtPoolRuns {
  import opened BinMap
  import opened MtPool
  import opened MtPoolInv
  import opened MtPoolSteps
  import opened MtPoolMoves
  import opened MtPoolRefill
  import opened MtPoolChunk
  import opened MtPoolCarve
  import opened MtPoolBounds
  import opened MtPoolUse
  import opened MtPoolReturn
  import opened MtPoolIds

  // ---- the initial state --------------------------------------------------------

  function StartAux(cfg: Tune, n: nat): Aux
    requires cfg.Valid()
  {
    Aux(map b: nat, t: nat | b < cfg.Bins() && t <= cfg.maxThreads :: Slot(b, t) := [],
        seq(n, _ => []), map[], map[], seq(cfg.maxThreads, k => k + 1))
  }

  lemma StartLists(cfg: Tune, n: nat)
    requires cfg.Valid()
    ensures var c, g := Start(cfg, n), StartAux(cfg, n);
      && ListsOk(cfg, g.lists, g.place) && LinksOk(cfg, c.mem, g.lists)
      && HeadsOk(cfg, c, g.lists) && UsedOk(cfg, c, g)
  {
    hide Size, Which, Largest16, BinCount, Quotient, Threshold;
    var c, g := Start(cfg, n), StartAux(cfg, n);
    forall s | ValidSlot(cfg, s)
      ensures s in g.lists && g.lists[s] == [] && c.First(s) == 0 && c.Free(s) == 0 && c.Used(s) == 0
    {
      assert s == Slot(s.bin, s.tid);
    }
    assert forall s :: Outstanding(c.mem, g.place, g.home, s) == {};
  }

  lemma StartThreads(cfg: Tune, n: nat)
    requires cfg.Valid()
    ensures var c, g := Start(cfg, n), StartAux(cfg, n);
      && |g.batch| == |c.threads| && BatchesOk(|c.threads|, g.batch, g.place)
      && PlacesOk(cfg, c, g) && ThreadsOk(cfg, c, g) && HomesOk(cfg, c.chunks, g.home)
      && ChunksOk(cfg, c.chunks) && LocksOk(c.threads, c.locked)
  {
    hide Size, Which, Largest16, BinCount, Quotient, Threshold;
  }

  lemma StartKeys(cfg: Tune, n: nat)
    requires cfg.Valid()
    ensures var c, g := Start(cfg, n), StartAux(cfg, n);
      KeysOk(cfg, c.threads, c.idFirst, c.idNext, g.ids)
  {
    hide Size, Which, Largest16, BinCount, Quotient, Threshold;
    var c, g := Start(cfg, n), StartAux(cfg, n);
    forall k | 0 <= k < |g.ids| ensures IdLinkOk(cfg, c.idNext, g.ids, k) {
      assert c.idNext[k + 1] == SuccessorId(cfg, k + 1);
    }
    forall id | 1 <= id <= cfg.maxThreads ensures id in g.ids {
      assert g.ids[id - 1] == id;
    }
  }

  lemma StartInv(cfg: Tune, n: nat)
    requires cfg.Valid()
    ensures Inv(cfg, Start(cfg, n), StartAux(cfg, n))
  {
    StartLists(cfg, n);
    StartThreads(cfg, n);
    StartKeys(cfg, n);
  }

  // ---- one step --------------------------------------------------------------------

  lemma KeepRefill(cfg: Tune, c: Shared, g: Aux, i: nat) returns (g': Aux)
    requires cfg.Valid() && Inv(cfg, c, g) && Enabled(cfg, c, i, Go) && c.threads[i].pc.Refill?
    ensures Inv(cfg, DoRefill(cfg, c, i), g')
  {
    hide Inv;
    g' := g;
    var b := c.threads[i].pc.bin;
    if c.First(Slot(b, 0)) == 0 {
      KeepRefillEmpty(cfg, c, g, i);
    } else if cfg.BlockCount(b) >= c.Free(Slot(b, 0)) {
      g' := KeepRefillAll(cfg, c, g, i);
    } else {
      BinOfRefill(cfg, c, g, i);
      BlockFits(cfg, b);
      g' := KeepRefillSome(cfg, c, g, i);
    }
  }

  lemma BinOfRefill(cfg: Tune, c: Shared, g: Aux, i: nat)
    requires cfg.Valid() && Inv(cfg, c, g) && i < |c.threads| && c.threads[i].pc.Refill?
    ensures c.threads[i].pc.bin < cfg.Bins()
  {
    hide ListsOk, BatchesOk, LinksOk, HeadsOk, PlacesOk, UsedOk, HomesOk, ChunksOk, LocksOk, KeysOk;
    assert ThreadOk(cfg, c, g, i);
  }

  /** The step of each program counter that has one, split where a walk may go on or end. */
  lemma KeepGo(cfg: Tune, c: Shared, g: Aux, i: nat) returns (g': Aux)
    requires cfg.Valid() && Inv(cfg, c, g) && Enabled(cfg, c, i, Go)
    ensures Inv(cfg, Step(cfg, c, i, Go), g')
  {
    hide Inv, DoLockRefill, DoRefill, DoGrab, DoCarve, DoPop, DoCount, DoDetach, DoLockReturn, DoSplice,
         DoUncount, DoPush;
    g' := g;
    match c.threads[i].pc {
      case WantLock(_, _) => KeepLockRefill(cfg, c, g, i);
      case Refill(_, _) => g' := KeepRefill(cfg, c, g, i);
      case GrabWalk(_, _, _, left) =>
        if left > 0 { KeepGrabWalk(cfg, c, g, i); } else { g' := KeepGrabEnd(cfg, c, g, i); }
      case Carve(_, _, _, left) =>
        if left > 0 { KeepCarveWalk(cfg, c, g, i); } else { g' := KeepCarveEnd(cfg, c, g, i); }
      case Pop(_, _) => g' := KeepPop(cfg, c, g, i);
      case CountUsed(_, _, _) => g' := KeepCount(cfg, c, g, i);
      case DetachWalk(_, _, _, _, left, _) =>
        if left > 0 { KeepDetachWalk(cfg, c, g, i); } else { g' := KeepDetachEnd(cfg, c, g, i); }
      case WantReturn(_, _, _, _, _) => KeepLockReturn(cfg, c, g, i);
      case Splice(_, _, _, _, _) => g' := KeepSplice(cfg, c, g, i);
      case Uncount(_, _) => g' := KeepUncount(cfg, c, g, i);
      case Push(_, _) => g' := KeepPush(cfg, c, g, i);
    }
  }

  lemma StepKeeps(cfg: Tune, c: Shared, g: Aux, i: nat, act: Act) returns (g': Aux)
    requires cfg.Valid() && Inv(cfg, c, g) && Enabled(cfg, c, i, act)
    ensures Inv(cfg, Step(cfg, c, i, act), g')
  {
    hide Inv, DoTakeId, DoExit, DoAlloc, DoFree, DoChunk, Enabled;
    g' := g;
    match act {
      case TakeId => g' := KeepTakeId(cfg, c, g, i);
      case Exit => g' := KeepExit(cfg, c, g, i);
      case Alloc(bytes) => KeepAlloc(cfg, c, g, i, bytes);
      case Free(block) => g' := KeepFree(cfg, c, g, i, block);
      case Chunk(base) => g' := KeepChunk(cfg, c, g, i, base);
      case Go => g' := KeepGo(cfg, c, g, i);
    }
  }

  /** Any schedule of any number of threads ends in a state with a consistent account. */
  lemma {:induction false} RunKeeps(cfg: Tune, n: nat, schedule: seq<(nat, Act)>) returns (g: Aux)
    requires cfg.Valid() && Run(cfg, n, schedule).Some?
    ensures Inv(cfg, Run(cfg, n, schedule).value, g)
  {
    hide Inv, Step, Enabled;
    if schedule == [] {
      StartInv(cfg, n);
      g := StartAux(cfg, n);
    } else {
      var before := schedule[..|schedule| - 1];
      var (i, act) := schedule[|schedule| - 1];
      g := RunKeeps(cfg, n, before);
      g := StepKeeps(cfg, Run(cfg, n, before).value, g, i, act);
    }
  }
}

/** Linking the blocks of a new chunk one by one. */
module MtPoolCarve {
  import opened BinMap
  import opened MtPool
  import opened MtPoolInv
  import opened MtPoolSteps
  import opened MtPoolMoves
  import opened MtPoolTransfer
  import opened MtPoolRefill
  import opened MtPoolChunk

  ghost predicate CarveView(cfg: Tune, c: Shared, g: Aux, i: nat)
    requires cfg.Valid()
  {
    && i < |c.threads| == |g.batch| && c.threads[i].pc.Carve? && c.threads[i].key != 0
    && AllocOk(cfg, c.threads[i], g.lists)
    && CarveOk(cfg, c, c.threads[i], g.lists, g.batch[i], c.threads[i].pc.bin,
               c.threads[i].pc.block, c.threads[i].pc.left)
    && Distinct(g.batch[i]) && AllAt(g.place, g.batch[i], Batch(i))
  }

  lemma CarveSees(cfg: Tune, c: Shared, g: Aux, i: nat)
    requires cfg.Valid() && i < |c.threads| == |g.batch| && ThreadOk(cfg, c, g, i)
    requires BatchesOk(|c.threads|, g.batch, g.place) && c.threads[i].pc.Carve?
    ensures CarveView(cfg, c, g, i)
  {
    WholeBatch(|c.threads|, g, i);
  }

  /** The step writes one header, that of a block of the thread's own batch. */
  lemma OwnHeaderWritten(cfg: Tune, mem: map<Addr, Cell>, g: Aux, n: nat, i: nat, k: nat, cell: Cell)
    requires cfg.Valid() && ListsOk(cfg, g.lists, g.place) && LinksOk(cfg, mem, g.lists)
    requires BatchesOk(n, g.batch, g.place) && i < n && k < |g.batch[i]|
    ensures LinksOk(cfg, mem[g.batch[i][k] := cell], g.lists)
  {
    var a := g.batch[i][k];
    assert Members(g.batch[i], g.place, Batch(i)) && a in g.batch[i];
    forall s | ValidSlot(cfg, s) ensures Linked(mem[a := cell], g.lists[s], 0) {
      assert Members(g.lists[s], g.place, Listed(s)) && a !in g.lists[s];
      assert Linked(mem, g.lists[s], 0);
    }
  }

  lemma CarveWalkThread(cfg: Tune, c: Shared, g: Aux, i: nat)
    requires cfg.Valid() && CarveView(cfg, c, g, i) && c.threads[i].pc.left > 0
    ensures ThreadOk(cfg, DoCarve(cfg, c, i), g, i)
  {
    hide Size, Which, Largest16, BinCount, Quotient, Threshold;
    var Carve(b, bytes, block, left) := c.threads[i].pc;
    var c', bat := DoCarve(cfg, c, i), g.batch[i];
    var k := |bat| - 1 - left;
    assert bat[k + 1] == bat[k] + cfg.BlockSize(b);
    assert Chained(c'.mem, bat, k + 1);
    assert CarveOk(cfg, c', c'.threads[i], g.lists, bat, b, bat[k + 1], left - 1);
  }

  lemma CarveWalkEffects(cfg: Tune, c: Shared, g: Aux, i: nat)
    requires cfg.Valid() && CarveView(cfg, c, g, i) && c.threads[i].pc.left > 0
    requires ThreadOk(cfg, DoCarve(cfg, c, i), g, i)
    ensures EffectsOk(cfg, c, g, DoCarve(cfg, c, i), g, i, [])
  {
    hide Size, Which, Largest16, BinCount, Quotient, Threshold, ThreadOk;
    assert c.threads[i].pc.block in g.batch[i];
  }

  lemma CarveWalkRest(cfg: Tune, c: Shared, g: Aux, i: nat)
    requires cfg.Valid() && CarveView(cfg, c, g, i) && c.threads[i].pc.left > 0
    requires ListsOk(cfg, g.lists, g.place) && LinksOk(cfg, c.mem, g.lists) && UsedOk(cfg, c, g)
    requires BatchesOk(|c.threads|, g.batch, g.place) && LocksOk(c.threads, c.locked)
    ensures var c' := DoCarve(cfg, c, i);
      LinksOk(cfg, c'.mem, g.lists) && UsedOk(cfg, c', g) && LocksOk(c'.threads, c'.locked)
  {
    hide Size, Which, Largest16, BinCount, Quotient, Threshold;
    var c', bat := DoCarve(cfg, c, i), g.batch[i];
    var k := |bat| - 1 - c.threads[i].pc.left;
    OwnHeaderWritten(cfg, c.mem, g, |c.threads|, i, k, c'.mem[bat[k]]);
    assert bat[k] in bat;
    assert g.place == Moved(g.place, [], User);
    UsedMoved(cfg, c, g, c', g, [], User, User);
    LocksWithout(c.threads, c.locked, i, c'.threads[i].pc, c.locked);
  }

  lemma NothingMoves(cfg: Tune, n: nat, g: Aux, p: Place, q: Place)
    requires cfg.minBin >= 1 && p != q && |g.batch| == n && ListsOk(cfg, g.lists, g.place)
    ensures MovesOk(cfg, n, g, g, [], p, q)
  {
    assert g.place == Moved(g.place, [], q);
  }

  lemma KeepCarveWalk(cfg: Tune, c: Shared, g: Aux, i: nat)
    requires cfg.Valid() && Inv(cfg, c, g) && Enabled(cfg, c, i, Go) && c.threads[i].pc.Carve?
    requires c.threads[i].pc.left > 0
    ensures Inv(cfg, DoCarve(cfg, c, i), g)
  {
    hide BatchesOk, HeadsOk, PlacesOk, HomesOk, ChunksOk, LocksOk, KeysOk, LinksOk, ListsOk,
         UsedOk, EffectsOk, MovesOk, CarveView, DoCarve, ThreadOk;
    CarveSees(cfg, c, g, i);
    CarveWalkThread(cfg, c, g, i);
    CarveWalkEffects(cfg, c, g, i);
    CarveWalkRest(cfg, c, g, i);
    NothingMoves(cfg, |c.threads|, g, Batch(i), Dropped(i));
    Transfer(cfg, c, g, DoCarve(cfg, c, i), g, i, [], Batch(i), Dropped(i));
  }

  // ---- the last block ---------------------------------------------------------------

  lemma CarveEndEffects(cfg: Tune, c: Shared, g: Aux, i: nat)
    requires cfg.Valid() && CarveView(cfg, c, g, i) && c.threads[i].pc.left == 0
    ensures EffectsOk(cfg, c, g, DoCarve(cfg, c, i), AfterOwnBatch(c, g, i), i, g.batch[i])
  {
    hide Size, Which, Largest16, BinCount, Quotient, Threshold;
    assert c.threads[i].pc.block in g.batch[i];
  }

  lemma CarveEndAccount(cfg: Tune, c: Shared, g: Aux, i: nat)
    requires cfg.Valid() && CarveView(cfg, c, g, i) && c.threads[i].pc.left == 0
    requires ListsOk(cfg, g.lists, g.place) && LinksOk(cfg, c.mem, g.lists)
    requires BatchesOk(|c.threads|, g.batch, g.place)
    ensures var mine := Slot(c.threads[i].pc.bin, c.threads[i].key);
      && MovesOk(cfg, |c.threads|, g, AfterOwnBatch(c, g, i), g.batch[i], Batch(i), Listed(mine))
      && LinksOk(cfg, DoCarve(cfg, c, i).mem, AfterOwnBatch(c, g, i).lists)
  {
    hide Size, Which, Largest16, BinCount, Quotient, Threshold;
    BatchEndWritten(cfg, c.mem, g, |c.threads|, i, Slot(c.threads[i].pc.bin, c.threads[i].key), 0);
  }

  lemma CarveEndRest(cfg: Tune, c: Shared, g: Aux, i: nat)
    requires cfg.Valid() && CarveView(cfg, c, g, i) && c.threads[i].pc.left == 0
    requires PlacesOk(cfg, c, g) && LocksOk(c.threads, c.locked) && UsedOk(cfg, c, g)
    ensures var c', mine := DoCarve(cfg, c, i), Slot(c.threads[i].pc.bin, c.threads[i].key);
      && ArriveOk(cfg, c', g.home, g.batch[i], Listed(mine))
      && LocksOk(c'.threads, c'.locked)
      && UsedOk(cfg, c', AfterOwnBatch(c, g, i))
  {
    hide Size, Which, Largest16, BinCount, Quotient, Threshold;
    var c', mine := DoCarve(cfg, c, i), Slot(c.threads[i].pc.bin, c.threads[i].key);
    OwnBatchArrives(cfg, c, g, c', i);
    LocksWithout(c.threads, c.locked, i, c'.threads[i].pc, c'.locked);
    assert c.threads[i].pc.block in g.batch[i];
    UsedMoved(cfg, c, g, c', AfterOwnBatch(c, g, i), g.batch[i], Batch(i), Listed(mine));
  }

  lemma KeepCarveEnd(cfg: Tune, c: Shared, g: Aux, i: nat) returns (g': Aux)
    requires cfg.Valid() && Inv(cfg, c, g) && Enabled(cfg, c, i, Go) && c.threads[i].pc.Carve?
    requires c.threads[i].pc.left == 0
    ensures Inv(cfg, DoCarve(cfg, c, i), g')
  {
    hide BatchesOk, HeadsOk, PlacesOk, HomesOk, ChunksOk, LocksOk, KeysOk, LinksOk, ListsOk,
         UsedOk, ArriveOk, EffectsOk, MovesOk, CarveView, DoCarve, ThreadOk;
    CarveSees(cfg, c, g, i);
    g' := AfterOwnBatch(c, g, i);
    CarveEndAccount(cfg, c, g, i);
    CarveEndEffects(cfg, c, g, i);
    CarveEndRest(cfg, c, g, i);
    Transfer(cfg, c, g, DoCarve(cfg, c, i), g', i, g.batch[i], Batch(i),
             Listed(Slot(c.threads[i].pc.bin, c.threads[i].key)));
  }
}

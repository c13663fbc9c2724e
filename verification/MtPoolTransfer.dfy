/** One lemma for every step that moves blocks between lists, batches and hands:
    what such a step has to show for the whole invariant to survive. */
module MtPoolTransfer {
  import opened MtPool
  import opened MtPoolInv
  import opened MtPoolSteps

  /** The account differs by the blocks of l going from place p to place q. */
  ghost predicate MovesOk(cfg: Tune, n: nat, g: Aux, g': Aux, l: seq<Addr>, p: Place, q: Place)
    requires cfg.minBin >= 1
  {
    && g'.place == Moved(g.place, l, q) && g'.home == g.home && g'.ids == g.ids
    && p != q && Distinct(l) && AllAt(g.place, l, p)
    && (forall s :: ValidSlot(cfg, s) ==>
          s in g.lists && s in g'.lists && Shifted(g.lists[s], g'.lists[s], l, Listed(s), p, q))
    && |g.batch| == n && |g'.batch| == n
    && (forall i :: 0 <= i < n ==> Shifted(g.batch[i], g'.batch[i], l, Batch(i), p, q))
  }

  lemma TransferAccount(cfg: Tune, n: nat, g: Aux, g': Aux, l: seq<Addr>, p: Place, q: Place)
    requires cfg.minBin >= 1 && MovesOk(cfg, n, g, g', l, p, q)
    requires ListsOk(cfg, g.lists, g.place) && BatchesOk(n, g.batch, g.place)
    ensures ListsOk(cfg, g'.lists, g'.place) && BatchesOk(n, g'.batch, g'.place)
  {
    ListsMoved(cfg, g.lists, g'.lists, g.place, l, p, q);
    BatchesMoved(n, g.batch, g'.batch, g.place, l, p, q);
  }

  /** The slots the step may touch: the thread's own and, under the lock, the
      bin's global list. */
  function Touched(th: Thread): set<Slot>
    requires !th.pc.Idle?
  {
    {Slot(th.pc.bin, th.key)} + if th.pc.Holds(th.pc.bin) then {Slot(th.pc.bin, 0)} else {}
  }

  ghost predicate HeadsKept(cfg: Tune, c: Shared, g: Aux, c': Shared, g': Aux, i: nat)
    requires cfg.minBin >= 1 && i < |c.threads| && i < |c'.threads| && !c.threads[i].pc.Idle?
  {
    && (forall s :: ValidSlot(cfg, s) && s !in Touched(c.threads[i]) && s in g'.lists ==>
          && s in g.lists && g'.lists[s] == g.lists[s] && c'.First(s) == c.First(s) && c'.Free(s) == c.Free(s)
          && (Disturbs(c.threads[i], s) ==> Disturbs(c'.threads[i], s)))
    && (forall s :: s in Touched(c.threads[i]) && s in g'.lists && Steady(c'.threads, s) ==>
          HeadOk(c', s, g'.lists[s]))
  }

  /** Nothing but the moved blocks changed its header. */
  ghost predicate HeadersKept(c: Shared, g: Aux, c': Shared, l: seq<Addr>) {
    forall a :: a in g.place && g.place[a].Stamped() && a !in l && a in c.mem ==>
      a in c'.mem && c'.mem[a] == c.mem[a]
  }

  ghost predicate ArriveOk(cfg: Tune, c': Shared, home: map<Addr, Home>, l: seq<Addr>, q: Place)
    requires cfg.minBin >= 1
  {
    forall a :: a in l ==> PlaceOk(cfg, c', home, a, q)
  }

  /** What the step did to the machine, as far as the other threads can tell. */
  ghost predicate StepEffects(cfg: Tune, c: Shared, g: Aux, c': Shared, g': Aux, i: nat, l: seq<Addr>)
    requires cfg.Valid()
  {
    && i < |c.threads| == |c'.threads| == |g.batch| == |g'.batch| && !c.threads[i].pc.Idle?
    && c.threads[i].key != 0 && c'.threads[i].key == c.threads[i].key
    && OnlyOwn(c, g, c', g', i) && ThreadOk(cfg, c', g', i)
    && HeadsKept(cfg, c, g, c', g', i) && HeadersKept(c, g, c', l)
    && c'.chunks == c.chunks && c'.idFirst == c.idFirst && c'.idNext == c.idNext
    && RoleEnds(c.threads[i].pc, c'.threads[i].pc, l)
    && (c'.threads[i].pc.Idle? ==> g.batch[i] == [])
  }

  ghost predicate EffectsOk(cfg: Tune, c: Shared, g: Aux, c': Shared, g': Aux, i: nat, l: seq<Addr>)
    requires cfg.Valid()
  {
    StepEffects(cfg, c, g, c', g', i, l) && c'.live == c.live
  }

  /** Only moved blocks enter or leave the program's hands. */
  ghost predicate LiveMoves(cfg: Tune, c: Shared, c': Shared, g': Aux, l: seq<Addr>)
    requires cfg.minBin >= 1
  {
    && (forall a :: a in c'.live && a !in l ==> a in c.live && c'.live[a] == c.live[a])
    && (forall a :: a in c.live && a !in l ==> a in c'.live && c'.live[a] == c.live[a])
    && (forall a :: a in c'.live && a in l ==> LiveOk(cfg, c'.live[a], g', a))
  }

  lemma TransferAny(cfg: Tune, c: Shared, g: Aux, c': Shared, g': Aux, i: nat, l: seq<Addr>, p: Place, q: Place)
    requires cfg.Valid() && Inv(cfg, c, g)
    requires StepEffects(cfg, c, g, c', g', i, l) && LiveMoves(cfg, c, c', g', l)
    requires MovesOk(cfg, |c.threads|, g, g', l, p, q)
    requires LinksOk(cfg, c'.mem, g'.lists)
    requires ArriveOk(cfg, c', g.home, l, q)
    requires UsedOk(cfg, c', g') && LocksOk(c'.threads, c'.locked)
    ensures Inv(cfg, c', g')
  {
    hide ListsOk, BatchesOk, LinksOk, HeadsOk, PlacesOk, ThreadsOk, UsedOk, HomesOk, ChunksOk, LocksOk,
         KeysOk, ThreadOk, ArriveOk, HeadersKept, LiveMoves;
    assert ListsOk(cfg, g'.lists, g'.place) && BatchesOk(|c'.threads|, g'.batch, g'.place) by {
      TransferAccount(cfg, |c.threads|, g, g', l, p, q);
    }
    assert HeadsOk(cfg, c', g'.lists) by {
      HeadsMoved(cfg, c, g.lists, c', g'.lists, i, Touched(c.threads[i]));
    }
    assert PlacesOk(cfg, c', g') by { TransferPlaces(cfg, c, g, c', g', i, l, p, q); }
    assert ThreadsOk(cfg, c', g') by { ThreadsMoved(cfg, c, g, c', g', i); }
    assert KeysOk(cfg, c'.threads, c'.idFirst, c'.idNext, g'.ids) by {
      KeysKept(cfg, c, c', g.ids, i);
    }
  }

  lemma Transfer(cfg: Tune, c: Shared, g: Aux, c': Shared, g': Aux, i: nat, l: seq<Addr>, p: Place, q: Place)
    requires cfg.Valid() && Inv(cfg, c, g)
    requires EffectsOk(cfg, c, g, c', g', i, l)
    requires MovesOk(cfg, |c.threads|, g, g', l, p, q) && q != User && p != User
    requires LinksOk(cfg, c'.mem, g'.lists)
    requires ArriveOk(cfg, c', g.home, l, q)
    requires UsedOk(cfg, c', g') && LocksOk(c'.threads, c'.locked)
    ensures Inv(cfg, c', g')
  {
    hide ListsOk, BatchesOk, LinksOk, HeadsOk, ThreadsOk, UsedOk, HomesOk, ChunksOk, LocksOk,
         KeysOk, ThreadOk, ArriveOk, HeadersKept, StepEffects;
    forall a | a in c'.live ensures a !in l {
      assert LiveOk(cfg, c.live[a], g, a);
    }
    TransferAny(cfg, c, g, c', g', i, l, p, q);
  }

  lemma TransferPlaces(cfg: Tune, c: Shared, g: Aux, c': Shared, g': Aux, i: nat, l: seq<Addr>, p: Place, q: Place)
    requires cfg.Valid() && PlacesOk(cfg, c, g) && i < |c.threads| == |c'.threads|
    requires MovesOk(cfg, |c.threads|, g, g', l, p, q)
    requires BatchesOk(|c.threads|, g.batch, g.place)
    requires forall j :: 0 <= j < |c.threads| && j != i ==> c'.threads[j] == c.threads[j]
    requires HeadersKept(c, g, c', l)
    requires LiveMoves(cfg, c, c', g', l)
    requires RoleEnds(c.threads[i].pc, c'.threads[i].pc, l)
    requires c'.threads[i].pc.Idle? ==> g.batch[i] == []
    requires ArriveOk(cfg, c', g.home, l, q)
    ensures PlacesOk(cfg, c', g')
  {
    forall a | a in g.place && g.place[a] == Batch(i) ensures !c'.threads[i].pc.Idle? {
      assert Members(g.batch[i], g.place, Batch(i));
    }
    PlacesMoved(cfg, c, g, c', g', i, l, q);
  }
}

module MtPoolSteps {
  import opened BinMap
  import opened MtPool
  import opened MtPoolInv

  // ---- frames -----------------------------------------------------------------

  ghost predicate SameHand(g: Aux, g': Aux, a: Addr) {
    a in g.place && a in g.home ==>
      a in g'.place && a in g'.home && g'.place[a] == g.place[a] && g'.home[a] == g.home[a]
  }

  ghost predicate SameSlot(c: Shared, g: Aux, c': Shared, g': Aux, s: Slot) {
    s in g.lists ==> s in g'.lists && g'.lists[s] == g.lists[s] && c'.First(s) == c.First(s) && c'.Free(s) == c.Free(s)
  }

  /** What thread i relies on is the same in both states. */
  ghost predicate SameFor(c: Shared, g: Aux, c': Shared, g': Aux, i: nat)
    requires i < |c.threads| && i < |g.batch|
  {
    var th := c.threads[i];
    && i < |c'.threads| && i < |g'.batch| && c'.threads[i] == th && g'.batch[i] == g.batch[i]
    && (forall a :: a in g.batch[i] && a in c.mem ==> a in c'.mem && c'.mem[a] == c.mem[a])
    && (!th.pc.Idle? ==>
         && SameSlot(c, g, c', g', Slot(th.pc.bin, th.key))
         && (Slot(th.pc.bin, 0) in g.lists ==> Slot(th.pc.bin, 0) in g'.lists))
    && (th.pc.GrabWalk? ==> SameSlot(c, g, c', g', Slot(th.pc.bin, 0)))
    && (th.pc.CountUsed? || th.pc.Push? || Releasing(th.pc) ==> SameHand(g, g', th.pc.block))
    && (th.pc.CountUsed? && th.pc.block in c.mem ==>
          th.pc.block in c'.mem && c'.mem[th.pc.block] == c.mem[th.pc.block])
  }

  lemma ThreadFrame(cfg: Tune, c: Shared, g: Aux, c': Shared, g': Aux, i: nat)
    requires cfg.Valid() && i < |c.threads| && i < |g.batch|
    requires ThreadOk(cfg, c, g, i) && SameFor(c, g, c', g', i)
    ensures ThreadOk(cfg, c', g', i)
  {
    var th, bat := c.threads[i], g.batch[i];
    match th.pc {
      case GrabWalk(b, _, block, left) =>
        assert Linked(c'.mem, bat, g.lists[Slot(b, 0)][0]);
      case Carve(b, _, block, left) =>
        assert Chained(c'.mem, bat, |bat| - 1 - left);
      case WantReturn(b, block, head, tmp, removed) =>
        assert TransitOk(c'.mem, bat, head, tmp, removed);
      case Splice(b, block, head, tmp, removed) =>
        assert TransitOk(c'.mem, bat, head, tmp, removed);
      case _ =>
    }
  }

  // ---- steps that only move a program counter ----------------------------------

  /** The two program counters stand for the same part in the account of blocks. */
  ghost predicate SameRole(pc: Pc, pc': Pc) {
    && (pc.Carve? <==> pc'.Carve?) && (pc.GrabWalk? <==> pc'.GrabWalk?)
    && (pc.CountUsed? <==> pc'.CountUsed?) && (pc.Push? <==> pc'.Push?)
    && (Releasing(pc) <==> Releasing(pc'))
    && (!pc.Idle? ==> !pc'.Idle? && pc'.bin == pc.bin)
    && (pc.CountUsed? || pc.Push? || Releasing(pc) ==> pc'.block == pc.block)
  }

  lemma KeepPc(cfg: Tune, c: Shared, g: Aux, i: nat, pc: Pc, locked: set<nat>)
    requires cfg.Valid() && Inv(cfg, c, g) && i < |c.threads|
    requires SameRole(c.threads[i].pc, pc)
    requires var c' := c.(locked := locked).SetPc(i, pc);
             LocksOk(c'.threads, locked) && ThreadOk(cfg, c', g, i)
    ensures Inv(cfg, c.(locked := locked).SetPc(i, pc), g)
  {
    var c' := c.(locked := locked).SetPc(i, pc);
    assert HeadsOk(cfg, c', g.lists) by { HeadsAfterPc(cfg, c, g.lists, i, pc, locked); }
    assert PlacesOk(cfg, c', g) by { PlacesAfterPc(cfg, c, g, i, pc, locked); }
    assert ThreadsOk(cfg, c', g) by { OthersAfterPc(cfg, c, g, i, pc, locked); }
    assert UsedOk(cfg, c', g) by { assert forall s :: c'.Used(s) == c.Used(s); }
    assert KeysOk(cfg, c'.threads, c'.idFirst, c'.idNext, g.ids) by { KeysKept(cfg, c, c', g.ids, i); }
  }

  lemma KeysKept(cfg: Tune, c: Shared, c': Shared, ids: seq<nat>, i: nat)
    requires KeysOk(cfg, c.threads, c.idFirst, c.idNext, ids)
    requires i < |c.threads| == |c'.threads| && c'.idFirst == c.idFirst && c'.idNext == c.idNext
    requires forall j :: 0 <= j < |c.threads| ==> c'.threads[j].key == c.threads[j].key
    ensures KeysOk(cfg, c'.threads, c'.idFirst, c'.idNext, ids)
  {
    forall id | 1 <= id <= cfg.maxThreads && id !in ids ensures Held(c'.threads, id) {
      var j :| 0 <= j < |c.threads| && c.threads[j].key == id;
      assert c'.threads[j].key == id;
    }
  }

  lemma HeadsAfterPc(cfg: Tune, c: Shared, lists: map<Slot, seq<Addr>>, i: nat, pc: Pc, locked: set<nat>)
    requires cfg.Valid() && HeadsOk(cfg, c, lists) && i < |c.threads|
    requires SameRole(c.threads[i].pc, pc)
    ensures HeadsOk(cfg, c.(locked := locked).SetPc(i, pc), lists)
  {
    var c' := c.(locked := locked).SetPc(i, pc);
    forall s | ValidSlot(cfg, s) && s in lists && Steady(c'.threads, s)
      ensures HeadOk(c', s, lists[s])
    {
      SteadyBack(c.threads, c'.threads, i, s);
    }
  }

  lemma PlacesAfterPc(cfg: Tune, c: Shared, g: Aux, i: nat, pc: Pc, locked: set<nat>)
    requires cfg.Valid() && PlacesOk(cfg, c, g) && i < |c.threads|
    requires SameRole(c.threads[i].pc, pc)
    ensures PlacesOk(cfg, c.(locked := locked).SetPc(i, pc), g)
  {
    var c' := c.(locked := locked).SetPc(i, pc);
    forall a | a in g.place ensures PlaceOk(cfg, c', g.home, a, g.place[a]) {
      assert PlaceOk(cfg, c, g.home, a, g.place[a]);
    }
  }

  lemma OthersAfterPc(cfg: Tune, c: Shared, g: Aux, i: nat, pc: Pc, locked: set<nat>)
    requires cfg.Valid() && |g.batch| == |c.threads| && ThreadsOk(cfg, c, g) && i < |c.threads|
    requires ThreadOk(cfg, c.(locked := locked).SetPc(i, pc), g, i)
    ensures ThreadsOk(cfg, c.(locked := locked).SetPc(i, pc), g)
  {
    var c' := c.(locked := locked).SetPc(i, pc);
    forall j | 0 <= j < |c.threads| && j != i ensures SameFor(c, g, c', g, j) {}
    FrameThreads(cfg, c, g, c', g, i);
  }

  /** If one thread is fine after a step and the others see no change, all are fine. */
  lemma FrameThreads(cfg: Tune, c: Shared, g: Aux, c': Shared, g': Aux, i: nat)
    requires cfg.Valid() && i < |c.threads| == |c'.threads| == |g.batch| == |g'.batch|
    requires ThreadsOk(cfg, c, g) && ThreadOk(cfg, c', g', i)
    requires forall j :: 0 <= j < |c.threads| && j != i ==> SameFor(c, g, c', g', j)
    ensures ThreadsOk(cfg, c', g')
  {
    forall j | 0 <= j < |c'.threads| ensures ThreadOk(cfg, c', g', j) {
      if j != i { ThreadFrame(cfg, c, g, c', g', j); }
    }
  }

  lemma SteadyBack(threads: seq<Thread>, threads': seq<Thread>, i: nat, s: Slot)
    requires i < |threads| == |threads'| && Steady(threads', s)
    requires forall j :: 0 <= j < |threads| && j != i ==> threads'[j] == threads[j]
    requires Disturbs(threads[i], s) ==> Disturbs(threads'[i], s)
    ensures Steady(threads, s)
  {
    forall j | 0 <= j < |threads| ensures !Disturbs(threads[j], s) {
      assert !Disturbs(threads'[j], s);
    }
  }

  // ---- moving blocks from one place to another ---------------------------------

  /** The account after the blocks of l went to place q. */
  ghost function Moved(place: map<Addr, Place>, l: seq<Addr>, q: Place): map<Addr, Place> {
    map a | a in place :: if a in l then q else place[a]
  }

  ghost predicate AllAt(place: map<Addr, Place>, l: seq<Addr>, p: Place) {
    forall a :: a in l ==> a in place && place[a] == p
  }

  /** A list before and after the front l moved from place p to place q. */
  ghost predicate Shifted(before: seq<Addr>, after: seq<Addr>, l: seq<Addr>, own: Place, p: Place, q: Place) {
    if own == p then before == l + after
    else if own == q then after == l + before
    else after == before
  }

  lemma MembersShifted(before: seq<Addr>, after: seq<Addr>, place: map<Addr, Place>, l: seq<Addr>,
                       own: Place, p: Place, q: Place)
    requires Distinct(before) && Members(before, place, own)
    requires p != q && Distinct(l) && AllAt(place, l, p)
    requires Shifted(before, after, l, own, p, q)
    ensures Distinct(after) && Members(after, Moved(place, l, q), own)
  {
    if own == p {
      forall j, k | 0 <= j < k < |after| ensures after[j] != after[k] {
        assert before[|l| + j] == after[j] && before[|l| + k] == after[k];
      }
      forall j, k | 0 <= j < |l| && 0 <= k < |after| ensures l[j] != after[k] {
        assert before[j] == l[j] && before[|l| + k] == after[k];
      }
    } else if own == q {
      forall j, k | 0 <= j < k < |after| ensures after[j] != after[k] {
        assert k >= |l| ==> after[k] == before[k - |l|] && after[k] in before;
        assert j < |l| ==> after[j] == l[j] && after[j] in l;
      }
    }
  }

  lemma ListsMoved(cfg: Tune, lists: map<Slot, seq<Addr>>, lists': map<Slot, seq<Addr>>,
                   place: map<Addr, Place>, l: seq<Addr>, p: Place, q: Place)
    requires cfg.minBin >= 1 && ListsOk(cfg, lists, place)
    requires p != q && Distinct(l) && AllAt(place, l, p)
    requires forall s :: ValidSlot(cfg, s) ==> s in lists' && Shifted(lists[s], lists'[s], l, Listed(s), p, q)
    ensures ListsOk(cfg, lists', Moved(place, l, q))
  {
    forall s | ValidSlot(cfg, s)
      ensures Distinct(lists'[s]) && Members(lists'[s], Moved(place, l, q), Listed(s))
    {
      MembersShifted(lists[s], lists'[s], place, l, Listed(s), p, q);
    }
  }

  lemma BatchesMoved(n: nat, batch: seq<seq<Addr>>, batch': seq<seq<Addr>>,
                     place: map<Addr, Place>, l: seq<Addr>, p: Place, q: Place)
    requires BatchesOk(n, batch, place) && |batch'| == n
    requires p != q && Distinct(l) && AllAt(place, l, p)
    requires forall i :: 0 <= i < n ==> Shifted(batch[i], batch'[i], l, Batch(i), p, q)
    ensures BatchesOk(n, batch', Moved(place, l, q))
  {
    forall i | 0 <= i < n
      ensures Distinct(batch'[i]) && Members(batch'[i], Moved(place, l, q), Batch(i))
    {
      MembersShifted(batch[i], batch'[i], place, l, Batch(i), p, q);
    }
  }

  // ---- what the other threads see ------------------------------------------------

  /** The place names a thread other than i. */
  ghost predicate Foreign(p: Place, i: nat) {
    match p
    case Batch(j) => j != i
    case Popped(j) => j != i
    case Doomed(j) => j != i
    case Dropped(j) => j != i
    case _ => false
  }

  /** Thread i changed only its own slots, the global list of a bin it has locked,
      and headers nobody else is using. */
  ghost predicate OnlyOwn(c: Shared, g: Aux, c': Shared, g': Aux, i: nat)
    requires i < |c.threads|
  {
    var th := c.threads[i];
    && |c'.threads| == |c.threads| == |g.batch| == |g'.batch|
    && (forall j :: 0 <= j < |c.threads| && j != i ==>
          c'.threads[j] == c.threads[j] && g'.batch[j] == g.batch[j])
    && (forall s: Slot :: s.tid != th.key && !(s.tid == 0 && th.pc.Holds(s.bin)) ==> SameSlot(c, g, c', g', s))
    && (forall s :: s in g.lists ==> s in g'.lists)
    && (forall a :: a in g.place && Foreign(g.place[a], i) ==> SameHand(g, g', a))
    && (forall a :: a in g.place && Foreign(g.place[a], i) && a in c.mem ==>
          a in c'.mem && c'.mem[a] == c.mem[a])
  }

  /** Two threads never hold one id or the lock of one bin. */
  lemma ThreadsApart(cfg: Tune, c: Shared, ids: seq<nat>, i: nat, j: nat)
    requires i < |c.threads| && j < |c.threads| && i != j && c.threads[i].key != 0
    requires LocksOk(c.threads, c.locked) && KeysOk(cfg, c.threads, c.idFirst, c.idNext, ids)
    ensures c.threads[j].key != c.threads[i].key
    ensures forall b :: c.threads[j].pc.Holds(b) ==> !c.threads[i].pc.Holds(b)
  {
    hide Distinct, Size, Which, Largest16, BinCount, Quotient, Threshold, IdLinkOk, Held;
  }

  lemma OthersUntouched(cfg: Tune, c: Shared, g: Aux, c': Shared, g': Aux, i: nat, j: nat)
    requires cfg.Valid() && i < |c.threads| && j < |c.threads| && i != j
    requires c.threads[i].key != 0
    requires BatchesOk(|c.threads|, g.batch, g.place) && LocksOk(c.threads, c.locked)
    requires KeysOk(cfg, c.threads, c.idFirst, c.idNext, g.ids)
    requires ThreadOk(cfg, c, g, j) && OnlyOwn(c, g, c', g', i)
    ensures SameFor(c, g, c', g', j)
  {
    hide Size, Which, Largest16, BinCount, Quotient, Threshold, Distinct, Spaced, Chained, KeysOk, LocksOk,
         GrabOk, CarveOk, TransitOk, DetachOk, SameSlot, SameHand;
    ThreadsApart(cfg, c, g.ids, i, j);
    var th := c.threads[j];
    forall a | a in g.batch[j] && a in c.mem ensures a in c'.mem && c'.mem[a] == c.mem[a] {
      assert Members(g.batch[j], g.place, Batch(j));
    }
  }

  lemma ThreadsMoved(cfg: Tune, c: Shared, g: Aux, c': Shared, g': Aux, i: nat)
    requires cfg.Valid() && i < |c.threads| == |g.batch| && c.threads[i].key != 0
    requires BatchesOk(|c.threads|, g.batch, g.place) && LocksOk(c.threads, c.locked)
    requires KeysOk(cfg, c.threads, c.idFirst, c.idNext, g.ids)
    requires ThreadsOk(cfg, c, g)
    requires OnlyOwn(c, g, c', g', i) && ThreadOk(cfg, c', g', i)
    ensures ThreadsOk(cfg, c', g')
  {
    forall j | 0 <= j < |c.threads| && j != i ensures SameFor(c, g, c', g', j) {
      assert ThreadOk(cfg, c, g, j);
      OthersUntouched(cfg, c, g, c', g', i, j);
    }
    FrameThreads(cfg, c, g, c', g', i);
  }

  /** Heads and counters stay right if they do on the touched slots. */
  lemma HeadsMoved(cfg: Tune, c: Shared, lists: map<Slot, seq<Addr>>, c': Shared, lists': map<Slot, seq<Addr>>,
                   i: nat, touched: set<Slot>)
    requires cfg.Valid() && HeadsOk(cfg, c, lists) && i < |c.threads| == |c'.threads|
    requires forall j :: 0 <= j < |c.threads| && j != i ==> c'.threads[j] == c.threads[j]
    requires forall s :: ValidSlot(cfg, s) && s !in touched && s in lists' ==>
               && s in lists && lists'[s] == lists[s] && c'.First(s) == c.First(s) && c'.Free(s) == c.Free(s)
               && (Disturbs(c.threads[i], s) ==> Disturbs(c'.threads[i], s))
    requires forall s :: s in touched && s in lists' && Steady(c'.threads, s) ==> HeadOk(c', s, lists'[s])
    ensures HeadsOk(cfg, c', lists')
  {
    forall s | ValidSlot(cfg, s) && s in lists' && Steady(c'.threads, s)
      ensures HeadOk(c', s, lists'[s])
    {
      if s !in touched { SteadyBack(c.threads, c'.threads, i, s); }
    }
  }

  /** The block in hand either moved or stays in the hand. */
  ghost predicate RoleEnds(pc: Pc, pc': Pc, l: seq<Addr>) {
    && (pc.CountUsed? || pc.Push? ==> pc.block in l)
    && (Releasing(pc) ==> pc.block in l || (Releasing(pc') && pc'.block == pc.block))
    && (!pc.Idle? && !pc'.Idle? ==> pc'.bin == pc.bin)
  }

  /** Places of blocks that did not move stay right. */
  lemma PlacesMoved(cfg: Tune, c: Shared, g: Aux, c': Shared, g': Aux, i: nat, l: seq<Addr>, q: Place)
    requires cfg.Valid() && PlacesOk(cfg, c, g) && i < |c.threads| == |c'.threads|
    requires forall j :: 0 <= j < |c.threads| && j != i ==> c'.threads[j] == c.threads[j]
    requires g'.place == Moved(g.place, l, q) && g'.home == g.home
    requires forall a :: a in g.place && a !in l ==>
               && (g.place[a].Stamped() && a in c.mem ==> a in c'.mem && c'.mem[a] == c.mem[a])
               && (g.place[a].User? && a in c.live ==> a in c'.live && c'.live[a] == c.live[a])
               && (g.place[a] == Batch(i) ==> !c'.threads[i].pc.Idle?)
    requires RoleEnds(c.threads[i].pc, c'.threads[i].pc, l)
    requires forall a :: a in l && a in g.place ==> PlaceOk(cfg, c', g'.home, a, q)
    requires forall a :: a in c'.live && a !in l ==> a in c.live && c'.live[a] == c.live[a]
    requires forall a :: a in c'.live && a in l ==> LiveOk(cfg, c'.live[a], g', a)
    ensures PlacesOk(cfg, c', g')
  {
    forall a | a in g'.place ensures PlaceOk(cfg, c', g'.home, a, g'.place[a]) {
      assert PlaceOk(cfg, c, g.home, a, g.place[a]);
    }
    forall a | a in c'.live ensures LiveOk(cfg, c'.live[a], g', a) {
      if a !in l { assert LiveOk(cfg, c.live[a], g, a); }
    }
  }

  /** If counted blocks stay counted and keep their stamps, no counter is off. */
  lemma UsedMoved(cfg: Tune, c: Shared, g: Aux, c': Shared, g': Aux, l: seq<Addr>, p: Place, q: Place)
    requires cfg.Valid() && UsedOk(cfg, c, g)
    requires AllAt(g.place, l, p) && p.Counted() == q.Counted()
    requires g'.place == Moved(g.place, l, q) && g'.home == g.home
    requires forall a :: a in g.place && g.place[a].Counted() ==>
               (a in c'.mem <==> a in c.mem) && (a in c.mem ==> c'.mem[a] == c.mem[a])
    requires forall s :: ValidSlot(cfg, s) ==> c'.Used(s) == c.Used(s)
    ensures UsedOk(cfg, c', g')
  {
    forall s | ValidSlot(cfg, s)
      ensures c'.Used(s) == |Outstanding(c'.mem, g'.place, g'.home, s)|
    {
      assert Outstanding(c'.mem, g'.place, g'.home, s) == Outstanding(c.mem, g.place, g.home, s);
    }
  }
}

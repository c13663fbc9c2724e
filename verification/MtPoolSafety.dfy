/** What every run of the pool guarantees, stated on the machine alone. */
module MtPoolSafety {
  import opened BinMap
  import opened Common
  import opened MtPool
  import opened MtPoolInv
  import opened MtPoolChunk
  import opened MtPoolBounds
  import opened MtPoolRuns

  /** State c is reached by n threads under some schedule. */
  predicate ReachedBy(cfg: Tune, n: nat, schedule: seq<(nat, Act)>, c: Shared)
    requires cfg.Valid()
  {
    Run(cfg, n, schedule) == Some(c)
  }

  // ---- memory handed to the program -------------------------------------------------

  predicate InChunk(cfg: Tune, u: Addr, a: Addr, end: Addr) { u <= a && end <= u + cfg.chunkSize }

  /** In every run the blocks the program holds are pairwise disjoint, headers
      included, lie inside a chunk after their header, and are as long as asked. */
  lemma LiveBlocksApart(cfg: Tune, n: nat, schedule: seq<(nat, Act)>, c: Shared)
    requires cfg.Valid() && ReachedBy(cfg, n, schedule, c)
    ensures forall a :: a in c.live ==>
              exists u :: u in c.chunks && InChunk(cfg, u, a, a + cfg.header + c.live[a])
    ensures forall a, a' :: a in c.live && a' in c.live && a < a' ==> a + cfg.header + c.live[a] <= a'
  {
    hide ListsOk, BatchesOk, LinksOk, HeadsOk, PlacesOk, ThreadsOk, UsedOk, HomesOk, ChunksOk, LocksOk, KeysOk,
         Size, Which, Largest16, BinCount, Quotient, Threshold, Run;
    var g := RunKeeps(cfg, n, schedule);
    forall a | a in c.live
      ensures exists u :: u in c.chunks && InChunk(cfg, u, a, a + cfg.header + c.live[a])
    {
      LiveHome(cfg, c, g, a);
      assert InChunk(cfg, g.home[a].base, a, a + cfg.header + c.live[a]);
    }
    forall a, a' | a in c.live && a' in c.live && a < a' ensures a + cfg.header + c.live[a] <= a' {
      LiveHome(cfg, c, g, a);
      LiveHome(cfg, c, g, a');
      BlocksApart(cfg, c.chunks, g.home, a, a');
    }
  }

  lemma LiveHome(cfg: Tune, c: Shared, g: Aux, a: Addr)
    requires cfg.Valid() && PlacesOk(cfg, c, g) && HomesOk(cfg, c.chunks, g.home) && a in c.live
    ensures a in g.home && g.home[a].base in c.chunks
    ensures g.home[a].base <= a && a + cfg.BlockSize(g.home[a].bin) <= g.home[a].base + cfg.chunkSize
    ensures cfg.header + c.live[a] <= cfg.BlockSize(g.home[a].bin)
  {
    assert LiveOk(cfg, c.live[a], g, a);
    assert HomeOk(cfg, c.chunks, a, g.home[a]);
    HomeInChunk(cfg, c.chunks, a, g.home[a]);
    WhichIsSmallestFit(cfg.minBin, c.live[a]);
  }

  // ---- free lists ---------------------------------------------------------------------

  /** The block reached from a by following k links. */
  function Walk(mem: map<Addr, Cell>, a: Addr, k: nat): Addr
    decreases k
  {
    if k == 0 then a else Walk(mem, Follow(mem, a), k - 1)
  }

  lemma {:induction false} WalkList(mem: map<Addr, Cell>, l: seq<Addr>, k: nat)
    requires Linked(mem, l, 0) && k <= |l|
    ensures Walk(mem, Head(l), k) == if k < |l| then l[k] else 0
  {
    if k > 0 {
      assert l[0] in mem && mem[l[0]] == Next(Head(l[1..]));
      var r := l[1..];
      forall j | 0 <= j < |r| && j + 1 < |r| ensures r[j] in mem && mem[r[j]] == Next(r[j + 1]) {
        assert l[j + 1] in mem && mem[l[j + 1]] == Next(l[j + 2]);
      }
      WalkList(mem, r, k - 1);
    }
  }

  /** Block a is the j-th of the list that starts at the head of slot s. */
  predicate OnList(c: Shared, s: Slot, j: nat, a: Addr) {
    j < c.Free(s) && Walk(c.mem, c.First(s), j) == a
  }

  /** The list of slot s: as long as its counter says, ended by null, made of
      linked headers only, without repetition. */
  ghost predicate CountedList(c: Shared, s: Slot) {
    && c.Free(s) >= 0 && Walk(c.mem, c.First(s), c.Free(s)) == 0
    && (forall j, a :: OnList(c, s, j, a) ==> a != 0 && a in c.mem && c.mem[a].Next? && a !in c.live)
    && (forall j, k, a :: OnList(c, s, j, a) && OnList(c, s, k, a) ==> j == k)
  }

  lemma ListSeen(cfg: Tune, c: Shared, g: Aux, s: Slot)
    requires cfg.Valid() && Inv(cfg, c, g) && ValidSlot(cfg, s) && Steady(c.threads, s)
    ensures s in g.lists && c.Free(s) == |g.lists[s]| && Distinct(g.lists[s])
    ensures Members(g.lists[s], g.place, Listed(s)) && Linked(c.mem, g.lists[s], 0)
    ensures Walk(c.mem, c.First(s), c.Free(s)) == 0
    ensures forall j: nat :: j < |g.lists[s]| ==> OnList(c, s, j, g.lists[s][j])
    ensures forall j: nat, a :: OnList(c, s, j, a) ==> a == g.lists[s][j]
  {
    hide BatchesOk, PlacesOk, ThreadsOk, UsedOk, HomesOk, ChunksOk, LocksOk, KeysOk;
    assert HeadOk(c, s, g.lists[s]);
    var l := g.lists[s];
    forall j: nat | j <= |l| ensures Walk(c.mem, c.First(s), j) == if j < |l| then l[j] else 0 {
      WalkList(c.mem, l, j);
    }
  }

  /** In every run and for every list no thread is rebuilding -- the global list 0
      of each bin included -- the counter is the length of the list. */
  lemma FreeCountsList(cfg: Tune, n: nat, schedule: seq<(nat, Act)>, c: Shared, s: Slot)
    requires cfg.Valid() && ReachedBy(cfg, n, schedule, c)
    requires ValidSlot(cfg, s) && Steady(c.threads, s)
    ensures CountedList(c, s)
  {
    var g := RunKeeps(cfg, n, schedule);
    ListSeen(cfg, c, g, s);
    forall j, a | OnList(c, s, j, a) ensures a != 0 && a in c.mem && c.mem[a].Next? && a !in c.live {
      ListedBlock(cfg, c, g, s, j);
    }
  }

  lemma ListedBlock(cfg: Tune, c: Shared, g: Aux, s: Slot, j: nat)
    requires cfg.Valid() && PlacesOk(cfg, c, g) && s in g.lists && j < |g.lists[s]|
    requires Members(g.lists[s], g.place, Listed(s)) && Linked(c.mem, g.lists[s], 0)
    ensures var a := g.lists[s][j];
      a != 0 && a in c.mem && c.mem[a].Next? && a !in c.live
  {
    var a := g.lists[s][j];
    assert a in g.lists[s];
    assert PlaceOk(cfg, c, g.home, a, g.place[a]);
    if j + 1 < |g.lists[s]| {
      assert c.mem[a] == Next(g.lists[s][j + 1]);
    } else {
      assert c.mem[a] == Next(0);
    }
    assert a in c.live ==> LiveOk(cfg, c.live[a], g, a);
  }

  // ---- every block, at every moment ----------------------------------------------------

  /** The places of an account are real: lists and batches hold exactly the blocks placed
      there, once each, and lists end; the program holds exactly the blocks placed with it;
      and a block placed in a thread's hand is the one block that thread is working on. */
  ghost predicate PlacesAreReal(cfg: Tune, c: Shared, g: Aux)
    requires cfg.minBin >= 1
  {
    && (forall s :: ValidSlot(cfg, s) ==>
          && s in g.lists && Distinct(g.lists[s]) && Members(g.lists[s], g.place, Listed(s))
          && Linked(c.mem, g.lists[s], 0))
    && |g.batch| == |c.threads|
    && (forall i :: 0 <= i < |c.threads| ==> Distinct(g.batch[i]) && Members(g.batch[i], g.place, Batch(i)))
    && (forall a :: a in c.live <==> a in g.place && g.place[a] == User)
    && (forall a :: a in g.place ==> InHand(c, a, g.place[a]))
  }

  ghost predicate InHand(c: Shared, a: Addr, p: Place) {
    match p
    case Popped(i) => i < |c.threads| && c.threads[i].pc.CountUsed? && c.threads[i].pc.block == a
    case Doomed(i) => i < |c.threads| && Releasing(c.threads[i].pc) && c.threads[i].pc.block == a
    case Dropped(i) => i < |c.threads| && c.threads[i].pc.Push? && c.threads[i].pc.block == a
    case _ => true
  }

  /** a is block k of the chunk at u, which was cut for one bin. */
  predicate BlockOf(cfg: Tune, c: Shared, a: Addr, u: Addr, k: nat)
    requires cfg.Valid()
  {
    u in c.chunks && k < cfg.BlockCount(c.chunks[u]) && a == BlockAt(cfg, u, c.chunks[u], k)
  }

  /** In every state of every run the blocks of all chunks, each chunk cut for its bin, and no
      others have a place, and one only: on one list, in one batch in transit, in one thread's
      hand, or with the program. */
  lemma EveryBlockHasOnePlace(cfg: Tune, n: nat, schedule: seq<(nat, Act)>, c: Shared) returns (g: Aux)
    requires cfg.Valid() && ReachedBy(cfg, n, schedule, c)
    ensures PlacesAreReal(cfg, c, g)
    ensures forall u :: u in c.chunks ==> c.chunks[u] < cfg.Bins()
    ensures forall a :: a in g.place <==> exists u, k: nat :: BlockOf(cfg, c, a, u, k)
  {
    hide Run, HeadsOk, ThreadsOk, UsedOk, ChunksOk, LocksOk, KeysOk, Members, Linked, Distinct,
         Size, Which, Largest16, BinCount, Quotient, Threshold;
    g := RunKeeps(cfg, n, schedule);
    PlacesSeen(cfg, c, g);
    forall u | u in c.chunks ensures c.chunks[u] < cfg.Bins() { assert Filled(cfg, g.home, u, c.chunks[u]); }
    forall a | a in g.place ensures exists u, k: nat :: BlockOf(cfg, c, a, u, k) {
      assert PlaceOk(cfg, c, g.home, a, g.place[a]);
      assert HomeOk(cfg, c.chunks, a, g.home[a]);
      assert BlockOf(cfg, c, a, g.home[a].base, g.home[a].index);
    }
    forall a, u, k: nat | BlockOf(cfg, c, a, u, k) ensures a in g.place { BlockPlaced(cfg, c, g, a, u, k); }
  }

  lemma BlockPlaced(cfg: Tune, c: Shared, g: Aux, a: Addr, u: Addr, k: nat)
    requires cfg.Valid() && PlacesOk(cfg, c, g) && HomesOk(cfg, c.chunks, g.home) && BlockOf(cfg, c, a, u, k)
    ensures a in g.home && a in g.place
  {
    hide Size, Which, Largest16, BinCount, Quotient, Threshold;
    assert Filled(cfg, g.home, u, c.chunks[u]);
    Placed(cfg, c, g, a);
  }

  lemma PlacesSeen(cfg: Tune, c: Shared, g: Aux)
    requires cfg.Valid() && PlacesOk(cfg, c, g)
    ensures forall a :: a in c.live <==> a in g.place && g.place[a] == User
    ensures forall a :: a in g.place ==> InHand(c, a, g.place[a])
  {
    hide Size, Which, Largest16, BinCount, Quotient, Threshold;
    forall a | a in g.place ensures InHand(c, a, g.place[a]) && (g.place[a] == User ==> a in c.live) {
      assert PlaceOk(cfg, c, g.home, a, g.place[a]);
    }
    forall a | a in c.live ensures a in g.place && g.place[a] == User {
      assert LiveOk(cfg, c.live[a], g, a);
    }
  }

  // ---- quiescent points -----------------------------------------------------------------

  predicate Quiescent(c: Shared) {
    forall i :: 0 <= i < |c.threads| ==> c.threads[i].pc.Idle?
  }

  /** The blocks of bin s.bin the program holds whose header names thread id s.tid. */
  function HeldFrom(cfg: Tune, c: Shared, s: Slot): set<Addr>
    requires cfg.minBin >= 1
  {
    set a | a in c.live && Which(cfg.minBin, c.live[a]) == s.bin && a in c.mem && c.mem[a] == Stamp(s.tid)
  }

  /** With no call in progress, every counter of used blocks is exact, whichever
      threads released the blocks. */
  lemma UsedCountsHeld(cfg: Tune, n: nat, schedule: seq<(nat, Act)>, c: Shared, s: Slot)
    requires cfg.Valid() && ReachedBy(cfg, n, schedule, c) && Quiescent(c) && ValidSlot(cfg, s)
    ensures c.Used(s) == |HeldFrom(cfg, c, s)|
  {
    var g := RunKeeps(cfg, n, schedule);
    CountedAreLive(cfg, c, g, s);
  }

  lemma CountedAreLive(cfg: Tune, c: Shared, g: Aux, s: Slot)
    requires cfg.Valid() && PlacesOk(cfg, c, g) && Quiescent(c)
    ensures Outstanding(c.mem, g.place, g.home, s) == HeldFrom(cfg, c, s)
  {
    hide Size, Which, Largest16, BinCount, Quotient, Threshold;
    forall a | a in Outstanding(c.mem, g.place, g.home, s) ensures a in HeldFrom(cfg, c, s) {
      assert PlaceOk(cfg, c, g.home, a, g.place[a]);
      assert LiveOk(cfg, c.live[a], g, a);
    }
    forall a | a in HeldFrom(cfg, c, s) ensures a in Outstanding(c.mem, g.place, g.home, s) {
      assert LiveOk(cfg, c.live[a], g, a);
    }
  }

  /** Block a is held by the program or is on one list, at one position. */
  ghost predicate OncePlaced(cfg: Tune, c: Shared, a: Addr)
    requires cfg.minBin >= 1
  {
    && (a in c.live || exists s, j :: ValidSlot(cfg, s) && OnList(c, s, j, a))
    && (forall s, j :: ValidSlot(cfg, s) && OnList(c, s, j, a) ==> a !in c.live)
    && (forall s, j, s', j' :: ValidSlot(cfg, s) && ValidSlot(cfg, s') && OnList(c, s, j, a) && OnList(c, s', j', a)
          ==> s == s' && j == j')
  }

  /** With no call in progress, every block of every chunk is in exactly one place:
      nothing is lost and nothing is in two lists, or twice in one. */
  lemma BlocksConserved(cfg: Tune, n: nat, schedule: seq<(nat, Act)>, c: Shared, a: Addr, u: Addr, k: nat)
    requires cfg.Valid() && ReachedBy(cfg, n, schedule, c) && Quiescent(c) && BlockOf(cfg, c, a, u, k)
    ensures OncePlaced(cfg, c, a)
  {
    hide Run, BlockOf, OncePlaced, BinCount, Quotient;
    var g := RunKeeps(cfg, n, schedule);
    BlockPlaced(cfg, c, g, a, u, k);
    PlacedOnce(cfg, c, g, a);
  }

  lemma PlacedOnce(cfg: Tune, c: Shared, g: Aux, a: Addr)
    requires cfg.Valid() && Inv(cfg, c, g) && Quiescent(c) && a in g.home
    ensures OncePlaced(cfg, c, a)
  {
    hide ListsOk, BatchesOk, LinksOk, HeadsOk, PlacesOk, ThreadsOk, UsedOk, HomesOk, ChunksOk, LocksOk, KeysOk,
         Size, Which, Largest16, BinCount, Quotient, Threshold;
    assert forall s :: Steady(c.threads, s);
    assert a in g.place && PlaceOk(cfg, c, g.home, a, g.place[a]) by { Placed(cfg, c, g, a); }
    forall s, j: nat | ValidSlot(cfg, s) && OnList(c, s, j, a)
      ensures s in g.lists && j < |g.lists[s]| && g.lists[s][j] == a && g.place[a] == Listed(s)
    {
      ListSeen(cfg, c, g, s);
      assert g.lists[s][j] in g.lists[s];
    }
    SomewhereQuiet(cfg, c, g, a);
    if a in c.live { LiveIsUser(cfg, c, g, a); }
    forall s, j, s', j' | ValidSlot(cfg, s) && ValidSlot(cfg, s') && OnList(c, s, j, a) && OnList(c, s', j', a)
      ensures s == s' && j == j'
    {
      ListSeen(cfg, c, g, s);
    }
  }

  lemma Placed(cfg: Tune, c: Shared, g: Aux, a: Addr)
    requires cfg.Valid() && PlacesOk(cfg, c, g) && a in g.home
    ensures a in g.place && PlaceOk(cfg, c, g.home, a, g.place[a])
  {
  }

  lemma LiveIsUser(cfg: Tune, c: Shared, g: Aux, a: Addr)
    requires cfg.Valid() && PlacesOk(cfg, c, g) && a in c.live
    ensures a in g.place && g.place[a] == User
  {
    assert LiveOk(cfg, c.live[a], g, a);
  }

  lemma SomewhereQuiet(cfg: Tune, c: Shared, g: Aux, a: Addr)
    requires cfg.Valid() && Inv(cfg, c, g) && Quiescent(c)
    requires a in g.place && PlaceOk(cfg, c, g.home, a, g.place[a])
    ensures a in c.live || exists s, j :: ValidSlot(cfg, s) && OnList(c, s, j, a)
  {
    hide ListsOk, BatchesOk, LinksOk, HeadsOk, PlacesOk, ThreadsOk, UsedOk, HomesOk, ChunksOk, LocksOk, KeysOk,
         Size, Which, Largest16, BinCount, Quotient, Threshold;
    if g.place[a].Listed? {
      var s := g.place[a].s;
      ListSeen(cfg, c, g, s);
      assert a in g.lists[s];
      var j :| 0 <= j < |g.lists[s]| && g.lists[s][j] == a;
      assert OnList(c, s, j, a);
    }
  }
}

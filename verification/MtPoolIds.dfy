/** Thread ids: taken from a free list when a thread first allocates or releases,
    put back when it ends. */
module MtPoolIds {
  import opened Common
  import opened MtPool
  import opened MtPoolInv
  import opened MtPoolSteps
  import opened MtPoolBounds

  /** An idle thread changes its id; nothing else in the pool notices. */
  lemma KeepKey(cfg: Tune, c: Shared, g: Aux, i: nat, c': Shared, g': Aux)
    requires cfg.Valid() && Inv(cfg, c, g) && i < |c.threads| && c.threads[i].pc.Idle?
    requires i < |c'.threads|
    requires c' == c.(idFirst := c'.idFirst, idNext := c'.idNext,
                      threads := c.threads[i := Thread(c'.threads[i].key, Idle)])
    requires g' == g.(ids := g'.ids)
    requires KeysOk(cfg, c'.threads, c'.idFirst, c'.idNext, g'.ids)
    ensures Inv(cfg, c', g')
  {
    hide ListsOk, BatchesOk, LinksOk, HeadsOk, PlacesOk, ThreadsOk, UsedOk, HomesOk, ChunksOk, LocksOk, KeysOk;
    KeyHeads(cfg, c, g, i, c');
    KeyThreads(cfg, c, g, i, c', g');
    KeyPlaces(cfg, c, g, i, c', g');
    KeyLocks(c.threads, c.locked, i, c'.threads);
    KeyUsed(cfg, c, g, c', g');
  }

  lemma KeyHeads(cfg: Tune, c: Shared, g: Aux, i: nat, c': Shared)
    requires cfg.Valid() && HeadsOk(cfg, c, g.lists) && i < |c.threads| && c.threads[i].pc.Idle?
    requires i < |c'.threads| && c'.threads == c.threads[i := Thread(c'.threads[i].key, Idle)]
    requires c'.first == c.first && c'.free == c.free
    ensures HeadsOk(cfg, c', g.lists)
  {
    HeadsMoved(cfg, c, g.lists, c', g.lists, i, {});
  }

  lemma KeyThreads(cfg: Tune, c: Shared, g: Aux, i: nat, c': Shared, g': Aux)
    requires cfg.Valid() && |g.batch| == |c.threads| && ThreadsOk(cfg, c, g)
    requires i < |c.threads| && c.threads[i].pc.Idle?
    requires i < |c'.threads|
    requires c' == c.(idFirst := c'.idFirst, idNext := c'.idNext,
                      threads := c.threads[i := Thread(c'.threads[i].key, Idle)])
    requires KeysOk(cfg, c'.threads, c'.idFirst, c'.idNext, g'.ids)
    requires g' == g.(ids := g'.ids)
    ensures ThreadsOk(cfg, c', g')
  {
    IdleThread(cfg, c, g, i, c', g');
    hide ThreadOk;
    FrameThreads(cfg, c, g, c', g', i);
  }

  lemma IdleThread(cfg: Tune, c: Shared, g: Aux, i: nat, c': Shared, g': Aux)
    requires cfg.Valid() && i < |c.threads| && i < |g.batch| && ThreadOk(cfg, c, g, i) && c.threads[i].pc.Idle?
    requires i < |c'.threads| && i < |g'.batch| && c'.threads[i].pc.Idle? && g'.batch[i] == g.batch[i]
    requires c'.threads[i].key <= cfg.maxThreads
    ensures ThreadOk(cfg, c', g', i)
  {
  }

  lemma KeyPlaces(cfg: Tune, c: Shared, g: Aux, i: nat, c': Shared, g': Aux)
    requires cfg.Valid() && PlacesOk(cfg, c, g) && i < |c.threads| && c.threads[i].pc.Idle?
    requires i < |c'.threads|
    requires c' == c.(idFirst := c'.idFirst, idNext := c'.idNext,
                      threads := c.threads[i := Thread(c'.threads[i].key, Idle)])
    requires g' == g.(ids := g'.ids)
    ensures PlacesOk(cfg, c', g')
  {
    forall a | a in g'.place ensures PlaceOk(cfg, c', g'.home, a, g'.place[a]) {
      assert PlaceOk(cfg, c, g.home, a, g.place[a]);
    }
    forall a | a in c'.live ensures LiveOk(cfg, c'.live[a], g', a) {
      assert LiveOk(cfg, c.live[a], g, a);
    }
  }

  lemma KeyLocks(threads: seq<Thread>, locked: set<nat>, i: nat, threads': seq<Thread>)
    requires LocksOk(threads, locked) && i < |threads| && threads[i].pc.Idle?
    requires |threads'| == |threads| && threads'[i].pc.Idle?
    requires forall j :: 0 <= j < |threads| && j != i ==> threads'[j] == threads[j]
    ensures LocksOk(threads', locked)
  {
    forall j, k, b | 0 <= j < k < |threads'| ensures !(threads'[j].pc.Holds(b) && threads'[k].pc.Holds(b)) {
      assert !(threads[j].pc.Holds(b) && threads[k].pc.Holds(b));
    }
  }

  lemma KeyUsed(cfg: Tune, c: Shared, g: Aux, c': Shared, g': Aux)
    requires cfg.Valid() && UsedOk(cfg, c, g) && c'.used == c.used && c'.mem == c.mem
    requires g'.place == g.place && g'.home == g.home
    ensures UsedOk(cfg, c', g')
  {
  }

  lemma KeepTakeId(cfg: Tune, c: Shared, g: Aux, i: nat) returns (g': Aux)
    requires cfg.Valid() && Inv(cfg, c, g) && Enabled(cfg, c, i, TakeId)
    ensures Inv(cfg, DoTakeId(c, i), g')
  {
    g' := g.(ids := g.ids[1..]);
    var c' := DoTakeId(c, i);
    KeysTaken(cfg, c.threads, c.idFirst, c.idNext, g.ids, i);
    assert IdLinkOk(cfg, c.idNext, g.ids, 0);
    KeepKey(cfg, c, g, i, c', g');
  }

  lemma KeysTaken(cfg: Tune, threads: seq<Thread>, idFirst: nat, idNext: map<nat, nat>, ids: seq<nat>, i: nat)
    requires KeysOk(cfg, threads, idFirst, idNext, ids) && i < |threads|
    requires threads[i].pc.Idle? && threads[i].key == 0 && ids != []
    ensures KeysOk(cfg, threads[i := Thread(ids[0], Idle)], Head(ids[1..]), idNext, ids[1..])
  {
    var threads', ids' := threads[i := Thread(ids[0], Idle)], ids[1..];
    assert IdLinkOk(cfg, idNext, ids, 0);
    forall k | 0 <= k < |ids'| ensures IdLinkOk(cfg, idNext, ids', k) {
      assert IdLinkOk(cfg, idNext, ids, k + 1);
    }
    assert ids[0] !in ids' by {
      forall k | 0 <= k < |ids'| ensures ids'[k] != ids[0] { assert ids'[k] == ids[k + 1]; }
    }
    forall j, k | 0 <= j < k < |ids'| ensures ids'[j] != ids'[k] {
      assert ids'[j] == ids[j + 1] && ids'[k] == ids[k + 1];
    }
    forall j | 0 <= j < |threads| && j != i ensures threads[j].key != ids[0] {
      assert ids[0] in ids;
    }
    forall id | 1 <= id <= cfg.maxThreads && id !in ids' ensures Held(threads', id) {
      if id == ids[0] {
        assert threads'[i].key == id;
      } else {
        assert id !in ids by { assert ids == [ids[0]] + ids'; }
        var j :| 0 <= j < |threads| && threads[j].key == id;
        assert threads'[j].key == id;
      }
    }
  }

  lemma KeepExit(cfg: Tune, c: Shared, g: Aux, i: nat) returns (g': Aux)
    requires cfg.Valid() && Inv(cfg, c, g) && Enabled(cfg, c, i, Exit)
    ensures Inv(cfg, DoExit(c, i), g')
  {
    g' := g.(ids := [c.threads[i].key] + g.ids);
    KeysReturned(cfg, c.threads, c.idFirst, c.idNext, g.ids, i);
    KeepKey(cfg, c, g, i, DoExit(c, i), g');
  }

  lemma KeysReturned(cfg: Tune, threads: seq<Thread>, idFirst: nat, idNext: map<nat, nat>, ids: seq<nat>, i: nat)
    requires KeysOk(cfg, threads, idFirst, idNext, ids) && i < |threads|
    requires threads[i].pc.Idle? && threads[i].key != 0
    ensures var id := threads[i].key;
      KeysOk(cfg, threads[i := Thread(0, Idle)], id, idNext[id := idFirst], [id] + ids)
  {
    var id := threads[i].key;
    var threads', idNext', ids' := threads[i := Thread(0, Idle)], idNext[id := idFirst], [id] + ids;
    forall k | 0 <= k < |ids'| ensures IdLinkOk(cfg, idNext', ids', k) {
      if k > 0 {
        assert IdLinkOk(cfg, idNext, ids, k - 1);
        assert ids[k - 1] in ids;
      }
    }
    forall j | 0 <= j < |threads'| && j != i ensures threads'[j].key !in ids' {
      assert threads[if i < j then i else j].key != 0 ==>
        threads[if i < j then i else j].key != threads[if i < j then j else i].key;
    }
    assert 0 !in ids by {
      forall k | 0 <= k < |ids| ensures ids[k] != 0 { assert IdLinkOk(cfg, idNext, ids, k); }
    }
    forall x | 1 <= x <= cfg.maxThreads && x !in ids' ensures Held(threads', x) {
      var j :| 0 <= j < |threads| && threads[j].key == x;
      assert threads'[j].key == x;
    }
  }

  // ---- the list of ids never runs dry ---------------------------------------------------

  /** With no more threads than ids, a thread that has none finds the list non-empty. */
  lemma IdAvailable(cfg: Tune, c: Shared, g: Aux, i: nat)
    requires cfg.Valid() && KeysOk(cfg, c.threads, c.idFirst, c.idNext, g.ids)
    requires i < |c.threads| <= cfg.maxThreads && c.threads[i].key == 0
    ensures c.idFirst != 0
  {
    if g.ids == [] {
      AllHeld(c.threads, cfg.maxThreads, i);
    } else {
      assert IdLinkOk(cfg, c.idNext, g.ids, 0);
    }
  }

  /** Threads that hold every id from 1 to n, beside one that holds none, are more than n. */
  lemma AllHeld(threads: seq<Thread>, n: nat, i: nat)
    requires forall id :: 1 <= id <= n ==> Held(threads, id)
    requires i < |threads| && threads[i].key == 0
    ensures |threads| > n
  {
    var holders := seq(n, k requires 0 <= k < n => HolderOf(threads, k + 1));
    forall k | 0 <= k < n ensures holders[k] < |threads| && threads[holders[k]].key == k + 1 {
      assert Held(threads, k + 1);
    }
    assert Distinct(holders);
    DistinctSize(holders);
    var others := Below(|threads|) - {i};
    assert Elements(holders) <= others;
    SubsetSize(Elements(holders), others);
  }

  ghost function HolderOf(threads: seq<Thread>, id: nat): (i: nat)
    ensures Held(threads, id) ==> i < |threads| && threads[i].key == id
  {
    if Held(threads, id) then var i :| 0 <= i < |threads| && threads[i].key == id; i else 0
  }

  ghost function {:induction false} Below(n: nat): (s: set<nat>)
    ensures |s| == n && forall k: nat :: k in s <==> k < n
  {
    if n == 0 then {} else Below(n - 1) + {n - 1}
  }
}

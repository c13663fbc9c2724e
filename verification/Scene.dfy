/** The search for a place to stand, on the scene's grid of blocked cells. */
module Scene {
  import opened Common
  import opened Ring
  import opened Spiral
  import opened SpiralRun

  class Scene {
    const width: nat
    const height: nat
    const blocks: array2<bool>

    ghost predicate Valid() {
      Map().Valid() && blocks.Length0 == width && blocks.Length1 == height
    }

    function Map(): Bounds { Bounds(width, height) }

    predicate ZPosValidate(p: Pos) { Map().Has(p) }

    /** A cell off the map counts as blocked. */
    predicate CheckBlock(p: Pos)
      requires Valid()
      reads blocks
    {
      !Map().Has(p) || blocks[p.x, p.y]
    }

    predicate Free(p: Pos)
      requires Valid()
      reads blocks
    {
      Map().Has(p) && !blocks[p.x, p.y]
    }

    constructor (w: nat, h: nat)
      requires w < M31 && h < M31
      ensures Valid() && width == w && height == h && fresh(blocks)
      ensures forall p :: Map().Has(p) ==> Free(p)
    {
      width, height := w, h;
      blocks := new bool[w, h]((x, y) => false);
    }

    /** Move on to the next cell of the map.  Some cell of the map must still lie ahead:
        `goal` names it. */
    method GetNextPos(side0: int, direct: nat, org: Pos, clockwise: int, crt0: Pos, ghost p: Spot, ghost goal: Spot)
      returns (ok: bool, side: int, crt: Pos, ghost q: Spot)
      requires Valid() && direct < 8
      requires Map().Has(org) ==>
        && OnSpiral(p) && side0 == p.s && (p.s > 0 ==> crt0 == Place(org, Cell(direct, clockwise == 1, p)))
        && OnSpiral(goal) && goal.s < M31 && Before(p, goal) && MapHas(Map(), org, direct, clockwise == 1, goal)
      ensures ok == Map().Has(org)
      ensures !ok ==> side == side0 + 1 && crt == Pos(0, 0)
      ensures ok ==>
        && FirstAfter(Map(), org, direct, clockwise == 1, p, q) && !Before(goal, q)
        && side == q.s && crt == Place(org, Cell(direct, clockwise == 1, q)) && Map().Has(crt)
    {
      hide Cell, Place, Wrap, AntiClockwise, Clockwise, Next;
      side, crt, q := side0, crt0, p;
      if !ZPosValidate(org) {
        crt := Pos(0, 0);
        side := side + 1;
        return false, side, crt, q;
      }
      ghost var anti := clockwise == 1;
      while true
        invariant OnSpiral(q) && side == q.s && (q.s > 0 ==> crt == Place(org, Cell(direct, anti, q)))
        invariant q == p || Before(p, q)
        invariant Before(q, goal)
        invariant forall r :: OnSpiral(r) && Before(p, r) && !Before(q, r) ==> !MapHas(Map(), org, direct, anti, r)
        decreases goal.s - q.s, 8 * q.s - q.i
      {
        AdvanceIsNext(org, direct, anti, q, crt);
        forall r | OnSpiral(r) ensures Before(q, r) <==> r == Next(q) || Before(Next(q), r) { NextIsNext(q, r); }
        q := Next(q);
        if side == 0 {
          side := side + 1;
          crt := Entry(org, direct, side);
        } else {
          if clockwise == 1 {
            crt := AntiClockwise(side, org, crt);
          } else {
            crt := Clockwise(side, org, crt);
          }
          if crt == Entry(org, direct, side) {
            side := side + 1;
            crt := Entry(org, direct, side);
          }
        }
        if crt.x < M31 && crt.y < M31 && ZPosValidate(crt) { break; }
      }
      ok := true;
    }

    /** The cells that calls in a row return from the start on: every cell of the map but the
        centre, once each, nearer ones first. */
    method VisitAll(org: Pos, direct: nat, clockwise: int) returns (cells: seq<Pos>)
      requires Valid() && direct < 8 && Map().Has(org)
      ensures |cells| == width * height - 1
      ensures forall c :: c in cells <==> Map().Has(c) && c != org
      ensures forall j, k :: 0 <= j < k < |cells| ==>
                cells[j] != cells[k] && Distance(Toward(org, cells[j])) <= Distance(Toward(org, cells[k]))
    {
      hide Cell, Place, Chain, MapHas, FirstAfter, Distance, Toward;
      var side, crt := 0, org;
      ghost var anti := clockwise == 1;
      ghost var spots := [Spot(0, 0)];
      cells := [];
      VisitStarts(org, direct, anti);
      while |cells| + 1 < width * height
        invariant |spots| == |cells| + 1 <= AllCells(Map())
        invariant Chain(Map(), org, direct, anti, spots)
        invariant forall k :: 0 <= k < |spots| ==> OnSpiral(spots[k])
        invariant [org] + cells == Cells(org, direct, anti, spots)
        invariant side == spots[|spots| - 1].s
        invariant side > 0 ==> crt == Place(org, Cell(direct, anti, spots[|spots| - 1]))
        decreases width * height - |cells|
      {
        ghost var goal := CellAhead(Map(), org, direct, anti, spots);
        var moved: bool;
        ghost var q: Spot;
        moved, side, crt, q := GetNextPos(side, direct, org, clockwise, crt, spots[|spots| - 1], goal);
        ChainGrows(Map(), org, direct, anti, spots, q);
        spots := spots + [q];
        cells := cells + [crt];
        ChainOnSpiral(Map(), org, direct, anti, spots);
        assert [org] + cells == Cells(org, direct, anti, spots);
      }
      SearchesEnumerate(Map(), org, direct, anti, spots);
      AllFound(Map(), org, direct, anti, spots);
      VisitEnds(org, cells, Cells(org, direct, anti, spots));
    }

    lemma VisitEnds(org: Pos, cells: seq<Pos>, cs: seq<Pos>)
      requires cs == [org] + cells
      requires (forall k :: 0 <= k < |cs| ==> Map().Has(cs[k])) && forall c :: Map().Has(c) ==> c in cs
      requires forall j, k :: 0 <= j < k < |cs| ==> cs[j] != cs[k]
      requires forall j, k :: 0 <= j < k < |cs| ==> Distance(Toward(org, cs[j])) <= Distance(Toward(org, cs[k]))
      ensures forall c :: c in cells <==> Map().Has(c) && c != org
      ensures forall j, k :: 0 <= j < k < |cells| ==>
                cells[j] != cells[k] && Distance(Toward(org, cells[j])) <= Distance(Toward(org, cells[k]))
    {
      hide Distance, Toward;
      forall c ensures c in cells <==> Map().Has(c) && c != org {
        if c in cells {
          var k :| 0 <= k < |cells| && cells[k] == c;
          assert cs[k + 1] == c && cs[0] == org;
        } else {
          assert c in cs ==> c in [org];
        }
      }
      forall j, k | 0 <= j < k < |cells|
        ensures cells[j] != cells[k] && Distance(Toward(org, cells[j])) <= Distance(Toward(org, cells[k]))
      {
        assert cells[j] == cs[j + 1] && cells[k] == cs[k + 1];
      }
    }

    lemma VisitStarts(org: Pos, direct: nat, anti: bool)
      requires Valid() && direct < 8 && Map().Has(org)
      ensures Chain(Map(), org, direct, anti, [Spot(0, 0)]) && OnSpiral(Spot(0, 0)) && 1 <= width * height
      ensures [org] == Cells(org, direct, anti, [Spot(0, 0)])
    {
      CentreFirst(org, direct, anti, Map());
    }

    /** The search for a place ends: some cell of the map is free, or the map reaches out
        beyond distance 14, or it has more than 784 cells. */
    ghost predicate Ends(pos: Pos)
      requires Valid()
      reads blocks
    {
      || (exists p :: Free(p))
      || (exists p :: Map().Has(p) && Distance(Toward(pos, p)) > 14)
      || AllCells(Map()) > 784
    }

    /** Every cell found is blocked; the search has neither gone too far nor tried too often. */
    ghost predicate Blocked(pos: Pos, direct: nat, anti: bool, spots: seq<Spot>)
      requires Valid() && direct < 8 && forall k :: 0 <= k < |spots| ==> OnSpiral(spots[k])
      reads blocks
    {
      forall c :: c in Cells(pos, direct, anti, spots) ==> CheckBlock(c)
    }

    /** As long as a search that ends has not ended, a cell lies ahead. */
    lemma SearchGoesOn(pos: Pos, direct: nat, anti: bool, spots: seq<Spot>) returns (goal: Spot)
      requires Valid() && Map().Has(pos) && direct < 8 && Ends(pos) && Chain(Map(), pos, direct, anti, spots)
      requires forall k :: 0 <= k < |spots| ==> OnSpiral(spots[k])
      requires Blocked(pos, direct, anti, spots) && spots[|spots| - 1].s <= 14 && |spots| <= 784
      ensures OnSpiral(goal) && goal.s < M31 && Before(spots[|spots| - 1], goal)
      ensures MapHas(Map(), pos, direct, anti, goal)
    {
      hide Cell, SpotOf, Place, FirstAfter, Chain, AllCells;
      AllFound(Map(), pos, direct, anti, spots);
      if |spots| == AllCells(Map()) {
        if p :| Map().Has(p) && Distance(Toward(pos, p)) > 14 {
          SearchesEnumerate(Map(), pos, direct, anti, spots);
          LastIsFarthest(pos, direct, anti, spots, p);
        }
      }
      goal := CellAhead(Map(), pos, direct, anti, spots);
    }

    lemma LastIsFarthest(pos: Pos, direct: nat, anti: bool, spots: seq<Spot>, p: Pos)
      requires Valid() && Map().Has(pos) && direct < 8 && Chain(Map(), pos, direct, anti, spots)
      requires forall k :: 0 <= k < |spots| ==> OnSpiral(spots[k])
      requires p in Cells(pos, direct, anti, spots)
      ensures Distance(Toward(pos, p)) <= spots[|spots| - 1].s
    {
      hide Cell, SpotOf, Place, FirstAfter, Chain;
      var cs, last := Cells(pos, direct, anti, spots), |spots| - 1;
      SearchesEnumerate(Map(), pos, direct, anti, spots);
      ChainSound(Map(), pos, direct, anti, spots, last);
      OnMapIsTrue(Map(), pos, direct, anti, spots[last]);
      var k :| 0 <= k < |cs| && cs[k] == p;
      assert k < last ==> Distance(Toward(pos, cs[k])) <= Distance(Toward(pos, cs[last]));
    }

    /** Otherwise it does not: whatever it has found is blocked, near and not too much, so it
        searches again, until nothing lies ahead on the first 2^31 rings. */
    lemma SearchNeverEnds(pos: Pos, direct: nat, anti: bool, spots: seq<Spot>)
      requires Valid() && Map().Has(pos) && direct < 8 && !Ends(pos) && Chain(Map(), pos, direct, anti, spots)
      requires forall k :: 0 <= k < |spots| ==> OnSpiral(spots[k])
      ensures Blocked(pos, direct, anti, spots) && spots[|spots| - 1].s <= 14 && |spots| - 1 < 784
      ensures |spots| == AllCells(Map()) ==> NoneAfter(Map(), pos, direct, anti, spots[|spots| - 1])
    {
      hide Cell, SpotOf, Place, FirstAfter, AllCells;
      var cs, last := Cells(pos, direct, anti, spots), |spots| - 1;
      AllFound(Map(), pos, direct, anti, spots);
      SearchesEnumerate(Map(), pos, direct, anti, spots);
      ChainSound(Map(), pos, direct, anti, spots, last);
      OnMapIsTrue(Map(), pos, direct, anti, spots[last]);
      assert Distance(Toward(pos, cs[last])) == spots[last].s;
      forall c | c in cs ensures CheckBlock(c) {
        assert !Free(c);
      }
      if |spots| == AllCells(Map()) {
        NothingAhead(Map(), pos, direct, anti, spots);
      }
    }

    /** On a map of a single cell that is blocked the search for a place does not end. */
    lemma OneBlockedCell()
      requires Valid() && width == 1 && height == 1 && blocks[0, 0]
      ensures Map().Has(Pos(0, 0)) && !Ends(Pos(0, 0))
    {
      assert AllCells(Map()) == 1;
    }

    /** Every cell found but the last is blocked, and `found` is the last. */
    ghost predicate Searching(pos: Pos, direct: nat, anti: bool, spots: seq<Spot>, found: Pos)
      requires Valid() && direct < 8
      reads blocks
    {
      && Chain(Map(), pos, direct, anti, spots)
      && (forall k :: 0 <= k < |spots| ==> OnSpiral(spots[k]))
      && found == Place(pos, Cell(direct, anti, spots[|spots| - 1]))
      && forall k :: 0 <= k < |spots| - 1 ==> CheckBlock(Place(pos, Cell(direct, anti, spots[k])))
    }

    lemma SearchStarts(pos: Pos, direct: nat, anti: bool)
      requires Valid() && Map().Has(pos) && direct < 8
      ensures Searching(pos, direct, anti, [Spot(0, 0)], pos)
    {
      CentreFirst(pos, direct, anti, Map());
    }

    /** The found cell was blocked, and another is found. */
    lemma SearchSteps(pos: Pos, direct: nat, anti: bool, spots: seq<Spot>, found: Pos, q: Spot)
      requires Valid() && direct < 8 && Searching(pos, direct, anti, spots, found) && CheckBlock(found)
      requires FirstAfter(Map(), pos, direct, anti, spots[|spots| - 1], q)
      ensures Searching(pos, direct, anti, spots + [q], Place(pos, Cell(direct, anti, q)))
    {
      ChainGrows(Map(), pos, direct, anti, spots, q);
      hide Cell, Place, Chain;
    }

    lemma SearchBlocked(pos: Pos, direct: nat, anti: bool, spots: seq<Spot>, found: Pos)
      requires Valid() && direct < 8 && Searching(pos, direct, anti, spots, found) && CheckBlock(found)
      ensures Blocked(pos, direct, anti, spots)
    {
      hide Cell, Place;
    }

    /** A free cell found by the search is at least as near as any other. */
    lemma FoundNearest(pos: Pos, direct: nat, anti: bool, spots: seq<Spot>, found: Pos, p: Pos)
      requires Valid() && Map().Has(pos) && direct < 8 && Searching(pos, direct, anti, spots, found)
      requires Free(found) && Free(p)
      ensures Distance(Toward(pos, found)) <= Distance(Toward(pos, p))
    {
      hide Cell, Place;
      var last := |spots| - 1;
      ChainSound(Map(), pos, direct, anti, spots, last);
      OnMapIsTrue(Map(), pos, direct, anti, spots[last]);
      if Distance(Toward(pos, p)) < spots[last].s {
        FoundNear(Map(), pos, direct, anti, spots, p);
        assert false;
      }
    }

    /** The cells of the map no farther than r that are blocked. */
    ghost function BlockedNear(pos: Pos, r: nat): (s: set<Pos>)
      requires Valid()
      reads blocks
    {
      set p | p in MapCells(Map()) && Distance(Toward(pos, p)) <= r && CheckBlock(p)
    }

    /** The cells of the map nearer than r. */
    ghost function Nearer(pos: Pos, r: nat): set<Pos> {
      set p | p in MapCells(Map()) && Distance(Toward(pos, p)) < r
    }

    lemma CellsListed(pos: Pos, direct: nat, anti: bool, spots: seq<Spot>)
      requires Valid() && Map().Has(pos) && direct < 8 && Chain(Map(), pos, direct, anti, spots)
      requires forall k :: 0 <= k < |spots| ==> OnSpiral(spots[k])
      ensures |set c | c in Cells(pos, direct, anti, spots)| == |spots|
    {
      hide Cell, Place, Chain;
      SearchesEnumerate(Map(), pos, direct, anti, spots);
      ListedSize(Cells(pos, direct, anti, spots));
    }

    /** A search given up beyond distance 14 has found all cells up to it blocked; one given up
        for its number of tries has found 784 cells up to it blocked. */
    lemma GivenUpWhy(pos: Pos, direct: nat, anti: bool, spots: seq<Spot>, found: Pos)
      requires Valid() && Map().Has(pos) && direct < 8 && Searching(pos, direct, anti, spots, found)
      ensures spots[|spots| - 1].s > 14 ==>
                forall p :: Map().Has(p) && Distance(Toward(pos, p)) <= 14 ==> CheckBlock(p)
      ensures |spots| > 784 && spots[|spots| - 2].s <= 14 ==> |BlockedNear(pos, 14)| >= 784
    {
      hide Cell, Place, FirstAfter, Distance, Toward;
      var last := |spots| - 1;
      if spots[last].s > 14 {
        forall p | Map().Has(p) && Distance(Toward(pos, p)) <= 14 ensures CheckBlock(p) {
          FoundNear(Map(), pos, direct, anti, spots, p);
        }
      }
      if |spots| > 784 && spots[last - 1].s <= 14 {
        var firsts := spots[..last];
        ChainShortens(pos, direct, anti, spots);
        CellsListed(pos, direct, anti, firsts);
        var cs := Cells(pos, direct, anti, firsts);
        forall c | c in cs ensures c in BlockedNear(pos, 14) {
          var k :| 0 <= k < |cs| && cs[k] == c;
          NearBlocked(pos, direct, anti, spots, found, k);
        }
        SubsetSize((set c | c in cs), BlockedNear(pos, 14));
      }
    }

    lemma NearBlocked(pos: Pos, direct: nat, anti: bool, spots: seq<Spot>, found: Pos, k: nat)
      requires Valid() && Map().Has(pos) && direct < 8 && Searching(pos, direct, anti, spots, found)
      requires k < |spots| - 1 && spots[|spots| - 2].s <= 14
      ensures Place(pos, Cell(direct, anti, spots[k])) in BlockedNear(pos, 14)
    {
      hide Cell, Place, FirstAfter, Chain;
      ChainSound(Map(), pos, direct, anti, spots, k);
      OnMapIsTrue(Map(), pos, direct, anti, spots[k]);
      if k < |spots| - 2 { ChainOrdered(Map(), pos, direct, anti, spots, k, |spots| - 2); }
    }

    /** Where a free cell is found: at most one ring beyond the last blocked one, with fewer cells
        nearer than the tries made. */
    lemma FoundWhere(pos: Pos, direct: nat, anti: bool, spots: seq<Spot>, found: Pos)
      requires Valid() && Map().Has(pos) && direct < 8 && Searching(pos, direct, anti, spots, found)
      ensures Distance(Toward(pos, found)) == spots[|spots| - 1].s
      ensures spots[|spots| - 1].s <= if |spots| > 1 then spots[|spots| - 2].s + 1 else 0
      ensures |Nearer(pos, Distance(Toward(pos, found)))| < |spots|
    {
      hide Cell, Place, FirstAfter, Distance, Toward;
      var last := |spots| - 1;
      ChainSound(Map(), pos, direct, anti, spots, last);
      OnMapIsTrue(Map(), pos, direct, anti, spots[last]);
      if last > 0 {
        NoRingSkipped(Map(), pos, direct, anti, spots[last - 1], spots[last]);
        NearerFound(pos, direct, anti, spots, found);
      } else {
        assert Nearer(pos, 0) == {};
      }
    }

    lemma NearerFound(pos: Pos, direct: nat, anti: bool, spots: seq<Spot>, found: Pos)
      requires Valid() && Map().Has(pos) && direct < 8 && Searching(pos, direct, anti, spots, found) && |spots| > 1
      ensures |Nearer(pos, spots[|spots| - 1].s)| < |spots|
    {
      hide Cell, Place, FirstAfter, Distance, Toward, Chain;
      var all := set c | c in Cells(pos, direct, anti, spots);
      CellsListed(pos, direct, anti, spots);
      forall c | c in Nearer(pos, spots[|spots| - 1].s) ensures c in all - {found} {
        FoundNear(Map(), pos, direct, anti, spots, c);
      }
      assert found in all by { assert Cells(pos, direct, anti, spots)[|spots| - 1] == found; }
      SubsetSize(Nearer(pos, spots[|spots| - 1].s), all - {found});
    }

    /** A search given up has found every cell at distance 13 or less blocked. */
    lemma GivenUp(pos: Pos, direct: nat, anti: bool, spots: seq<Spot>, found: Pos, p: Pos)
      requires Valid() && Map().Has(pos) && direct < 8 && Searching(pos, direct, anti, spots, found)
      requires spots[|spots| - 1].s > 14 || |spots| > 784
      requires Map().Has(p) && Distance(Toward(pos, p)) <= 13
      ensures CheckBlock(p)
    {
      hide Cell, Place, FirstAfter;
      if spots[|spots| - 1].s > 14 {
        FoundNear(Map(), pos, direct, anti, spots, p);
      } else {
        var firsts := spots[..|spots| - 1];
        ChainShortens(pos, direct, anti, spots);
        ManyCoverNear(Map(), pos, direct, anti, firsts, p);
      }
    }

    lemma ChainShortens(pos: Pos, direct: nat, anti: bool, spots: seq<Spot>)
      requires direct < 8 && Chain(Map(), pos, direct, anti, spots) && |spots| > 1
      ensures Chain(Map(), pos, direct, anti, spots[..|spots| - 1])
    {
      hide FirstAfter;
    }

    /** Find a free cell near pos and occupy it.  From a centre on the map the search may
        be started only if it ends. */
    method FindPosForUser(pos: Pos, direct: nat, clockwise: int) returns (ok: bool, findedPos: Pos)
      requires Valid() && direct < 8 && (Map().Has(pos) ==> Ends(pos))
      modifies blocks
      ensures ok ==> old(Free(findedPos)) && CheckBlock(findedPos)
      ensures forall p :: Map().Has(p) && !(ok && p == findedPos) ==> CheckBlock(p) == old(CheckBlock(p))
      ensures Map().Has(pos) && ok ==>
        forall p :: old(Free(p)) ==> Distance(Toward(pos, findedPos)) <= Distance(Toward(pos, p))
      ensures Map().Has(pos) && ok ==>
        var r := Distance(Toward(pos, findedPos)); r <= 15 && |Nearer(pos, r)| < 784
      ensures Map().Has(pos) && !ok ==>
        && (forall p :: Map().Has(p) && Distance(Toward(pos, p)) <= 13 ==> old(CheckBlock(p)))
        && ((forall p :: Map().Has(p) && Distance(Toward(pos, p)) <= 14 ==> old(CheckBlock(p)))
            || old(|BlockedNear(pos, 14)|) >= 784)
      ensures !Map().Has(pos) ==> (ok <==> old(Free(Pos(0, 0)))) && (ok ==> findedPos == Pos(0, 0))
    {
      hide Cell, SpotOf, Place, Chain, AllCells, Searching, Blocked, Ends, Distance, Toward, MapHas,
           BlockedNear, Nearer;
      var side, count := 0, 0;
      findedPos := pos;
      ghost var anti := clockwise == 1;
      ghost var spots := [Spot(0, 0)];
      ghost var goal := Spot(0, 0);
      if Map().Has(pos) { SearchStarts(pos, direct, anti); }
      while CheckBlock(findedPos)
        invariant unchanged(blocks)
        invariant 0 <= count < 784 && spots != [] && OnSpiral(spots[|spots| - 1])
        invariant Map().Has(pos) ==> |spots| == count + 1 && side == spots[|spots| - 1].s
        invariant Map().Has(pos) ==> Searching(pos, direct, anti, spots, findedPos)
        invariant Map().Has(pos) && |spots| > 1 ==> spots[|spots| - 2].s <= 14
        invariant !Map().Has(pos) ==> side == count && findedPos == if count == 0 then pos else Pos(0, 0)
        decreases 784 - count
      {
        if Map().Has(pos) {
          SearchBlocked(pos, direct, anti, spots, findedPos);
        }
        if side > 14 {
          if Map().Has(pos) {
            AllNearBlocked(pos, direct, anti, spots, findedPos);
            GivenUpWhy(pos, direct, anti, spots, findedPos);
          }
          return false, findedPos;
        }
        ghost var q := Spot(0, 0);
        if Map().Has(pos) {
          Opened(pos, direct, anti, spots, findedPos);
          goal := SearchGoesOn(pos, direct, anti, spots);
        }
        var moved: bool;
        ghost var before := findedPos;
        moved, side, findedPos, q := GetNextPos(side, direct, pos, clockwise, findedPos, spots[|spots| - 1], goal);
        if Map().Has(pos) {
          SearchSteps(pos, direct, anti, spots, before, q);
          spots := spots + [q];
        }
        count := count + 1;
        if count >= 784 {
          if Map().Has(pos) {
            AllNearBlocked(pos, direct, anti, spots, findedPos);
            GivenUpWhy(pos, direct, anti, spots, findedPos);
          }
          return false, findedPos;
        }
      }
      if Map().Has(pos) {
        FoundWhere(pos, direct, anti, spots, findedPos);
        forall p | Free(p) ensures Distance(Toward(pos, findedPos)) <= Distance(Toward(pos, p)) {
          FoundNearest(pos, direct, anti, spots, findedPos, p);
        }
      }
      blocks[findedPos.x, findedPos.y] := true;
      ok := true;
    }

    lemma AllNearBlocked(pos: Pos, direct: nat, anti: bool, spots: seq<Spot>, found: Pos)
      requires Valid() && Map().Has(pos) && direct < 8 && Searching(pos, direct, anti, spots, found)
      requires spots[|spots| - 1].s > 14 || |spots| > 784
      ensures forall p :: Map().Has(p) && Distance(Toward(pos, p)) <= 13 ==> CheckBlock(p)
    {
      hide Cell, Place, Chain, FirstAfter, Searching;
      forall p | Map().Has(p) && Distance(Toward(pos, p)) <= 13 ensures CheckBlock(p) {
        GivenUp(pos, direct, anti, spots, found, p);
      }
    }

    lemma Opened(pos: Pos, direct: nat, anti: bool, spots: seq<Spot>, found: Pos)
      requires Valid() && direct < 8 && Searching(pos, direct, anti, spots, found)
      ensures Chain(Map(), pos, direct, anti, spots)
      ensures forall k :: 0 <= k < |spots| ==> OnSpiral(spots[k])
      ensures found == Place(pos, Cell(direct, anti, spots[|spots| - 1]))
    {
    }
  }
}

/** Repeated searches from one centre. */
module SpiralRun {
  import opened Common
  import opened Ring
  import opened Spiral

  /** The spots a chain of searches finds, from the centre on. */
  ghost predicate Chain(b: Bounds, o: Pos, direct: nat, anti: bool, spots: seq<Spot>)
    requires direct < 8
  {
    && spots != [] && spots[0] == Spot(0, 0)
    && forall k :: 0 <= k < |spots| - 1 ==> FirstAfter(b, o, direct, anti, spots[k], spots[k + 1])
  }

  lemma {:induction false} ChainOrdered(b: Bounds, o: Pos, direct: nat, anti: bool, spots: seq<Spot>, j: nat, k: nat)
    requires direct < 8 && Chain(b, o, direct, anti, spots) && j < k < |spots|
    ensures OnSpiral(spots[j]) && OnSpiral(spots[k]) && Before(spots[j], spots[k])
    decreases k
  {
    assert FirstAfter(b, o, direct, anti, spots[k - 1], spots[k]);
    if j < k - 1 { ChainOrdered(b, o, direct, anti, spots, j, k - 1); }
  }

  /** No cell of the map is skipped: every spot up to the last that is on the map is in
      the chain. */
  lemma {:induction false} ChainComplete(b: Bounds, o: Pos, direct: nat, anti: bool, spots: seq<Spot>, p: Spot)
    requires direct < 8 && Chain(b, o, direct, anti, spots)
    requires OnSpiral(p) && MapHas(b, o, direct, anti, p) && !Before(spots[|spots| - 1], p)
    ensures p in spots
    decreases |spots|
  {
    var last := |spots| - 1;
    if last == 0 {
      assert p == Spot(0, 0);
    } else {
      assert FirstAfter(b, o, direct, anti, spots[last - 1], spots[last]);
      if Before(spots[last - 1], p) {
        assert p == spots[last];
      } else {
        ChainComplete(b, o, direct, anti, spots[..last], p);
      }
    }
  }

  /** The cells found, centre included. */
  function Cells(o: Pos, direct: nat, anti: bool, spots: seq<Spot>): (cs: seq<Pos>)
    requires direct < 8 && forall k :: 0 <= k < |spots| ==> OnSpiral(spots[k])
    ensures |cs| == |spots|
    ensures forall k :: 0 <= k < |spots| ==> cs[k] == Place(o, Cell(direct, anti, spots[k]))
  {
    seq(|spots|, k requires 0 <= k < |spots| => Place(o, Cell(direct, anti, spots[k])))
  }

  lemma ChainSound(b: Bounds, o: Pos, direct: nat, anti: bool, spots: seq<Spot>, k: nat)
    requires b.Valid() && b.Has(o) && direct < 8 && Chain(b, o, direct, anti, spots) && k < |spots|
    ensures OnSpiral(spots[k]) && spots[k].s < M31 && MapHas(b, o, direct, anti, spots[k])
  {
    if k > 0 {
      assert FirstAfter(b, o, direct, anti, spots[k - 1], spots[k]);
    } else {
      assert Place(o, Cell(direct, anti, Spot(0, 0))) == o;
    }
  }

  lemma ChainOnSpiral(b: Bounds, o: Pos, direct: nat, anti: bool, spots: seq<Spot>)
    requires b.Valid() && b.Has(o) && direct < 8 && Chain(b, o, direct, anti, spots)
    ensures forall k :: 0 <= k < |spots| ==> OnSpiral(spots[k])
  {
    forall k | 0 <= k < |spots| ensures OnSpiral(spots[k]) { ChainSound(b, o, direct, anti, spots, k); }
  }

  /** Repeated searches from a centre on the map return cells of the map, none twice and
      none the centre, in non-decreasing distance; and what they have not returned lies
      further out than, or later on the ring of, what they have. */
  lemma SearchesEnumerate(b: Bounds, o: Pos, direct: nat, anti: bool, spots: seq<Spot>)
    requires b.Valid() && b.Has(o) && direct < 8 && Chain(b, o, direct, anti, spots)
    requires forall k :: 0 <= k < |spots| ==> OnSpiral(spots[k])
    ensures var cs := Cells(o, direct, anti, spots);
      && cs[0] == o
      && (forall k :: 0 <= k < |cs| ==> b.Has(cs[k]))
      && (forall j, k :: 0 <= j < k < |cs| ==> cs[j] != cs[k])
      && (forall j, k :: 0 <= j < k < |cs| ==> Distance(Toward(o, cs[j])) <= Distance(Toward(o, cs[k])))
      && (forall c :: b.Has(c) && !Before(spots[|spots| - 1], Met(direct, anti, o, c)) ==> c in cs)
  {
    hide Cell, SpotOf, Place, FirstAfter;
    var cs := Cells(o, direct, anti, spots);
    forall k | 0 <= k < |cs| ensures b.Has(cs[k]) && Met(direct, anti, o, cs[k]) == spots[k] && cs[0] == o {
      ChainSound(b, o, direct, anti, spots, k);
      OnMapIsTrue(b, o, direct, anti, spots[k]);
      CentreFirst(o, direct, anti, b);
    }
    forall j, k | 0 <= j < k < |cs|
      ensures cs[j] != cs[k] && Distance(Toward(o, cs[j])) <= Distance(Toward(o, cs[k]))
    {
      ChainOrdered(b, o, direct, anti, spots, j, k);
      assert Met(direct, anti, o, cs[j]) == spots[j] && Met(direct, anti, o, cs[k]) == spots[k];
    }
    forall c | b.Has(c) && !Before(spots[|spots| - 1], Met(direct, anti, o, c)) ensures c in cs {
      MetIsThere(b, o, direct, anti, c);
      ChainComplete(b, o, direct, anti, spots, Met(direct, anti, o, c));
      var k :| 0 <= k < |spots| && spots[k] == Met(direct, anti, o, c);
      assert cs[k] == c;
    }
  }

  lemma CentreFirst(o: Pos, direct: nat, anti: bool, b: Bounds)
    requires direct < 8 && b.Valid() && b.Has(o)
    ensures Place(o, Cell(direct, anti, Spot(0, 0))) == o
  {
  }

  // ---- counting cells -----------------------------------------------------------------------------

  ghost function Column(x: int, lo: int, n: nat): (s: set<Pos>)
    ensures forall p :: p in s <==> p.x == x && lo <= p.y < lo + n
    ensures |s| == n
  {
    if n == 0 then {} else Column(x, lo, n - 1) + {Pos(x, lo + n - 1)}
  }

  /** A rectangle of w by h cells has w * h cells. */
  ghost function Rectangle(x: int, y: int, w: nat, h: nat): (s: set<Pos>)
    ensures forall p :: p in s <==> x <= p.x < x + w && y <= p.y < y + h
    ensures |s| == w * h
  {
    if w == 0 then {}
    else
      var rest, last := Rectangle(x, y, w - 1, h), Column(x + w - 1, y, h);
      assert rest * last == {};
      assert (w - 1) * h + h == w * h;
      rest + last
  }

  function AllCells(b: Bounds): nat { b.width * b.height }

  ghost function MapCells(b: Bounds): (s: set<Pos>)
    ensures forall c :: c in s <==> b.Has(c)
    ensures |s| == AllCells(b)
  {
    Rectangle(0, 0, b.width, b.height)
  }

  lemma SameSize(a: set<Pos>, b: set<Pos>)
    requires a <= b && |a| == |b|
    ensures a == b
  {
    if x :| x in b && x !in a { SubsetSize(a, b - {x}); }
  }

  lemma CellsCounted(b: Bounds, cs: seq<Pos>)
    requires forall k :: 0 <= k < |cs| ==> b.Has(cs[k])
    requires forall j, k :: 0 <= j < k < |cs| ==> cs[j] != cs[k]
    ensures |cs| <= AllCells(b)
    ensures (forall c :: b.Has(c) ==> c in cs) <==> |cs| == AllCells(b)
  {
    hide AllCells, MapCells;
    var all := MapCells(b);
    var found := set c | c in cs;
    assert found <= all && |found| == |cs| by { ListedSize(cs); }
    SubsetSize(found, all);
    if |cs| == AllCells(b) { SameSize(found, all); }
    if forall c :: b.Has(c) ==> c in cs { assert found == all; }
  }

  /** With as many cells found as the map has, every cell has been found; with fewer, one
      is left for the next search. */
  lemma AllFound(b: Bounds, o: Pos, direct: nat, anti: bool, spots: seq<Spot>)
    requires b.Valid() && b.Has(o) && direct < 8 && Chain(b, o, direct, anti, spots)
    requires forall k :: 0 <= k < |spots| ==> OnSpiral(spots[k])
    ensures |spots| <= AllCells(b)
    ensures (forall c :: b.Has(c) ==> c in Cells(o, direct, anti, spots)) <==> |spots| == AllCells(b)
  {
    hide Cell, SpotOf, Place, FirstAfter, Chain;
    SearchesEnumerate(b, o, direct, anti, spots);
    CellsCounted(b, Cells(o, direct, anti, spots));
  }

  /** While cells are left, one of them lies ahead; when none is left, none does. */
  lemma CellAhead(b: Bounds, o: Pos, direct: nat, anti: bool, spots: seq<Spot>) returns (goal: Spot)
    requires b.Valid() && b.Has(o) && direct < 8 && Chain(b, o, direct, anti, spots) && |spots| < AllCells(b)
    ensures OnSpiral(goal) && goal.s < M31 && Before(spots[|spots| - 1], goal) && MapHas(b, o, direct, anti, goal)
  {
    hide Cell, SpotOf, Place, FirstAfter, Chain, AllCells;
    ChainOnSpiral(b, o, direct, anti, spots);
    AllFound(b, o, direct, anti, spots);
    SearchesEnumerate(b, o, direct, anti, spots);
    var c :| b.Has(c) && c !in Cells(o, direct, anti, spots);
    goal := Met(direct, anti, o, c);
    MetIsThere(b, o, direct, anti, c);
  }

  /** No place after p on the first 2^31 rings is on the map. */
  ghost predicate NoneAfter(b: Bounds, o: Pos, direct: nat, anti: bool, p: Spot)
    requires direct < 8
  {
    forall q :: OnSpiral(q) && Before(p, q) && q.s < M31 ==> !MapHas(b, o, direct, anti, q)
  }

  lemma NothingAhead(b: Bounds, o: Pos, direct: nat, anti: bool, spots: seq<Spot>)
    requires b.Valid() && b.Has(o) && direct < 8 && Chain(b, o, direct, anti, spots) && |spots| == AllCells(b)
    ensures NoneAfter(b, o, direct, anti, spots[|spots| - 1])
  {
    hide Cell, SpotOf, Place, AllCells, FirstAfter, Chain;
    var last := |spots| - 1;
    ChainOnSpiral(b, o, direct, anti, spots);
    AllFound(b, o, direct, anti, spots);
    var cs := Cells(o, direct, anti, spots);
    forall q | OnSpiral(q) && Before(spots[last], q) && q.s < M31 ensures !MapHas(b, o, direct, anti, q) {
      if MapHas(b, o, direct, anti, q) {
        OnMapIsTrue(b, o, direct, anti, q);
        var k :| 0 <= k < |cs| && cs[k] == Place(o, Cell(direct, anti, q));
        ChainSound(b, o, direct, anti, spots, k);
        OnMapIsTrue(b, o, direct, anti, spots[k]);
        if k < last { ChainOrdered(b, o, direct, anti, spots, k, last); }
        assert false;
      }
    }
  }

  function Clamp(v: int, r: nat): int { if v > r then r else if v < 0 - r then 0 - r else v }

  /** On a rectangular map no ring between two searches is without a cell. */
  lemma NoRingSkipped(b: Bounds, o: Pos, direct: nat, anti: bool, p: Spot, q: Spot)
    requires b.Valid() && b.Has(o) && direct < 8 && FirstAfter(b, o, direct, anti, p, q)
    ensures q.s <= p.s + 1
  {
    hide Cell, SpotOf, Place, Clamp;
    if q.s > p.s + 1 {
      OnMapIsTrue(b, o, direct, anti, q);
      var c := Place(o, Cell(direct, anti, q));
      var d := ClampedCell(b, o, c, p.s + 1);
      MetIsThere(b, o, direct, anti, d);
      assert false;
    }
  }

  /** The cell of ring r in the direction of c. */
  lemma ClampedCell(b: Bounds, o: Pos, c: Pos, r: nat) returns (d: Pos)
    requires b.Has(o) && b.Has(c) && Distance(Toward(o, c)) > r
    ensures b.Has(d) && Distance(Toward(o, d)) == r
  {
    d := Pos(o.x + Clamp(c.x - o.x, r), o.y + Clamp(c.y - o.y, r));
  }

  lemma ChainGrows(b: Bounds, o: Pos, direct: nat, anti: bool, spots: seq<Spot>, q: Spot)
    requires direct < 8 && Chain(b, o, direct, anti, spots)
    requires FirstAfter(b, o, direct, anti, spots[|spots| - 1], q)
    ensures Chain(b, o, direct, anti, spots + [q])
  {
    hide FirstAfter;
  }

  lemma {:induction false} FoundNear(b: Bounds, o: Pos, direct: nat, anti: bool, spots: seq<Spot>, c: Pos)
    requires b.Valid() && b.Has(o) && direct < 8 && Chain(b, o, direct, anti, spots)
    requires b.Has(c) && Distance(Toward(o, c)) < spots[|spots| - 1].s
    ensures forall k :: 0 <= k < |spots| ==> OnSpiral(spots[k])
    ensures c in Cells(o, direct, anti, spots) && c != Place(o, Cell(direct, anti, spots[|spots| - 1]))
  {
    hide Cell, SpotOf, Place, FirstAfter, Chain;
    ChainOnSpiral(b, o, direct, anti, spots);
    SearchesEnumerate(b, o, direct, anti, spots);
    ChainSound(b, o, direct, anti, spots, |spots| - 1);
    OnMapIsTrue(b, o, direct, anti, spots[|spots| - 1]);
  }

  /** 784 cells found cover every cell at distance 13 or less, of which there are 729. */
  lemma ManyCoverNear(b: Bounds, o: Pos, direct: nat, anti: bool, spots: seq<Spot>, c: Pos)
    requires b.Valid() && b.Has(o) && direct < 8 && Chain(b, o, direct, anti, spots)
    requires forall k :: 0 <= k < |spots| ==> OnSpiral(spots[k])
    requires |spots| >= 784 && b.Has(c) && Distance(Toward(o, c)) <= 13
    ensures c in Cells(o, direct, anti, spots)
  {
    hide Cell, SpotOf, Place, FirstAfter, Chain, Rectangle;
    var cs := Cells(o, direct, anti, spots);
    SearchesEnumerate(b, o, direct, anti, spots);
    if c !in cs {
      var last := |spots| - 1;
      ChainSound(b, o, direct, anti, spots, last);
      OnMapIsTrue(b, o, direct, anti, spots[last]);
      assert Distance(Toward(o, cs[last])) <= 13;
      forall k | 0 <= k < |cs| ensures Distance(Toward(o, cs[k])) <= 13 {
        assert k < last ==> Distance(Toward(o, cs[k])) <= Distance(Toward(o, cs[last]));
      }
      InSquare(o, cs);
      assert false;
    }
  }

  lemma InSquare(o: Pos, cs: seq<Pos>)
    requires forall k :: 0 <= k < |cs| ==> Distance(Toward(o, cs[k])) <= 13
    requires forall j, k :: 0 <= j < k < |cs| ==> cs[j] != cs[k]
    ensures |cs| <= 729
  {
    hide Rectangle;
    var square := Rectangle(o.x - 13, o.y - 13, 27, 27);
    var found := set c | c in cs;
    assert |found| == |cs| by { ListedSize(cs); }
    forall c | c in found ensures c in square {
      assert Distance(Toward(o, c)) <= 13;
    }
    SubsetSize(found, square);
  }
}

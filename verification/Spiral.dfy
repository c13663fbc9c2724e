/** Rings strung together: a search outward from a centre that skips cells off the map. */
module Spiral {
  import opened Ring

  /** Step i on ring s; the centre is step 0 of ring 0. */
  datatype Spot = Spot(s: nat, i: nat)

  predicate OnSpiral(p: Spot) { if p.s == 0 then p.i == 0 else p.i < 8 * p.s }

  predicate Before(p: Spot, q: Spot) { p.s < q.s || (p.s == q.s && p.i < q.i) }

  function Next(p: Spot): (q: Spot)
    requires OnSpiral(p)
    ensures OnSpiral(q) && Before(p, q)
  {
    if p.i + 1 < 8 * p.s then Spot(p.s, p.i + 1) else Spot(p.s + 1, 0)
  }

  lemma NextIsNext(p: Spot, r: Spot)
    requires OnSpiral(p) && OnSpiral(r)
    ensures Before(p, r) <==> r == Next(p) || Before(Next(p), r)
  {
  }

  /** Place of the ring at which a search in the given direction enters it. */
  function Origin(direct: nat, s: nat): (j: nat)
    requires direct < 8
    ensures s > 0 ==> j < 8 * s
  {
    match direct
    case 0 => 7 * s
    case 1 => 6 * s
    case 2 => 5 * s
    case 3 => 4 * s
    case 4 => 3 * s
    case 5 => 2 * s
    case 6 => s
    case _ => 0
  }

  /** The displacement visited at a spot. */
  function Cell(direct: nat, anti: bool, p: Spot): (f: Off)
    requires direct < 8 && OnSpiral(p)
    ensures Distance(f) == p.s
  {
    if p.s == 0 then Off(0, 0)
    else RingAt(p.s, Around(p.s, if anti then Origin(direct, p.s) + p.i else Origin(direct, p.s) - p.i))
  }

  function SpotOf(direct: nat, anti: bool, f: Off): (p: Spot)
    requires direct < 8
    ensures OnSpiral(p) && p.s == Distance(f)
  {
    var s := Distance(f);
    if s == 0 then Spot(0, 0)
    else Spot(s, Around(s, if anti then PlaceOn(f) - Origin(direct, s) else Origin(direct, s) - PlaceOn(f)))
  }

  lemma CellOfSpot(direct: nat, anti: bool, f: Off)
    requires direct < 8
    ensures Cell(direct, anti, SpotOf(direct, anti, f)) == f
  {
    var s := Distance(f);
    if s > 0 {
      var j := Origin(direct, s);
      assert Around(s, if anti then j + SpotOf(direct, anti, f).i else j - SpotOf(direct, anti, f).i) == PlaceOn(f);
    }
  }

  lemma SpotOfCell(direct: nat, anti: bool, p: Spot)
    requires direct < 8 && OnSpiral(p)
    ensures SpotOf(direct, anti, Cell(direct, anti, p)) == p
  {
    var s := p.s;
    if s > 0 {
      var j := Origin(direct, s);
      var f := Cell(direct, anti, p);
      RingInjective(s, PlaceOn(f), Around(s, if anti then j + p.i else j - p.i));
    }
  }

  /** The spiral visits every displacement exactly once, nearer rings first. */
  lemma SpiralBijective(direct: nat, anti: bool, p: Spot, q: Spot)
    requires direct < 8 && OnSpiral(p) && OnSpiral(q)
    ensures Cell(direct, anti, p) == Cell(direct, anti, q) ==> p == q
    ensures Before(p, q) ==> Distance(Cell(direct, anti, p)) <= Distance(Cell(direct, anti, q))
  {
    SpotOfCell(direct, anti, p);
    SpotOfCell(direct, anti, q);
  }

  // ---- where the search starts and how it turns ----------------------------------------------

  /** Positive when g lies clockwise of f, with y pointing down. */
  function Cross(f: Off, g: Off): int { f.dx * g.dy - f.dy * g.dx }

  /** Neighbours along one axis. */
  predicate Touch(f: Off, g: Off) {
    || (f.dx == g.dx && (f.dy == g.dy + 1 || g.dy == f.dy + 1))
    || (f.dy == g.dy && (f.dx == g.dx + 1 || g.dx == f.dx + 1))
  }

  /** f and the next cell clockwise around the centre. */
  predicate Turns(f: Off, g: Off) { Touch(f, g) && Cross(f, g) == 1 }

  /** a * b for a unit a. */
  function UnitTimes(a: int, b: int): int { if a == 0 then 0 else if a > 0 then b else 0 - b }

  lemma UnitCross(f: Off, g: Off)
    requires -1 <= f.dx <= 1 && -1 <= f.dy <= 1
    ensures Cross(f, g) == UnitTimes(f.dx, g.dy) - UnitTimes(f.dy, g.dx)
  {
    assert f.dx * g.dy == UnitTimes(f.dx, g.dy) by { UnitProduct(f.dx, g.dy); }
    assert f.dy * g.dx == UnitTimes(f.dy, g.dx) by { UnitProduct(f.dy, g.dx); }
  }

  lemma UnitProduct(a: int, b: int)
    requires -1 <= a <= 1
    ensures a * b == UnitTimes(a, b)
  {
    if a == -1 {
      assert (-1) * b == 0 - b;
    } else if a == 0 {
      assert 0 * b == 0;
    }
  }

  lemma CompassTurns()
    ensures Turns(Off(0, -1), Off(1, -1)) && Turns(Off(1, -1), Off(1, 0)) && Turns(Off(1, 0), Off(1, 1))
    ensures Turns(Off(1, 1), Off(0, 1)) && Turns(Off(0, 1), Off(-1, 1)) && Turns(Off(-1, 1), Off(-1, 0))
    ensures Turns(Off(-1, 0), Off(-1, -1))
  {
    hide Cross;
    UnitCross(Off(0, -1), Off(1, -1));
    UnitCross(Off(1, -1), Off(1, 0));
    UnitCross(Off(1, 0), Off(1, 1));
    UnitCross(Off(1, 1), Off(0, 1));
    UnitCross(Off(0, 1), Off(-1, 1));
    UnitCross(Off(-1, 1), Off(-1, 0));
    UnitCross(Off(-1, 0), Off(-1, -1));
  }

  /** Direction 0 enters the first ring above the centre, and each next direction at the next
      cell clockwise. */
  lemma EntryTurns(direct: nat, anti: bool)
    requires direct < 8
    ensures Cell(0, anti, Spot(1, 0)) == Off(0, -1)
    ensures direct < 7 ==>
      Turns(Cell(direct, anti, Spot(1, 0)), Cell(direct + 1, anti, Spot(1, 0)))
  {
    hide Cell, Turns;
    CompassTurns();
    EntryAt(0, anti, 1);
    EntryAt(direct, anti, 1);
    if direct < 7 { EntryAt(direct + 1, anti, 1); }
  }

  /** Later rings are entered in the same direction, further out. */
  lemma EntryScales(direct: nat, anti: bool, s: nat)
    requires direct < 8 && s >= 1
    ensures var f := Cell(direct, anti, Spot(1, 0)); Cell(direct, anti, Spot(s, 0)) == Off(s * f.dx, s * f.dy)
  {
    hide Cell;
    EntryAt(direct, anti, 1);
    EntryAt(direct, anti, s);
    assert s * 1 == s && s * 0 == 0 && s * (-1) == 0 - s;
  }

  lemma EntryAt(direct: nat, anti: bool, s: nat)
    requires direct < 8 && s >= 1
    ensures Cell(direct, anti, Spot(s, 0))
         == Off(if 1 <= direct <= 3 then s else if direct >= 5 then 0 - s else 0,
                if direct <= 1 || direct == 7 then 0 - s else if 3 <= direct <= 5 then s else 0)
  {
  }

  lemma RingTurns(s: nat, j: nat)
    requires s >= 1 && j < 8 * s
    ensures var f, g := RingAt(s, j), RingAt(s, Around(s, j + 1)); Touch(f, g) && Cross(f, g) == 0 - s
  {
    hide RingAt, Cross;
    RingStep(s, j);
    CrossNext(RingAt(s, j));
  }

  lemma CrossNext(f: Off)
    ensures Cross(f, Off(f.dx, f.dy + 1)) == f.dx && Cross(f, Off(f.dx + 1, f.dy)) == 0 - f.dy
    ensures Cross(f, Off(f.dx, f.dy - 1)) == 0 - f.dx && Cross(f, Off(f.dx - 1, f.dy)) == f.dy
  {
  }

  lemma RingStep(s: nat, j: nat)
    requires s >= 1 && j < 8 * s
    ensures var f, g := RingAt(s, j), RingAt(s, Around(s, j + 1));
      || (f.dx == 0 - s && g == Off(f.dx, f.dy + 1))
      || (f.dy == s && g == Off(f.dx + 1, f.dy))
      || (f.dx == s && g == Off(f.dx, f.dy - 1))
      || (f.dy == 0 - s && g == Off(f.dx - 1, f.dy))
  {
  }

  /** Along a ring the search goes from neighbour to neighbour, anti-clockwise or clockwise all
      the way, and the last cell is a neighbour of the entry again. */
  lemma SpiralTurns(direct: nat, anti: bool, p: Spot)
    requires direct < 8 && OnSpiral(p) && p.s >= 1
    ensures var f := Cell(direct, anti, p);
      var g := Cell(direct, anti, if p.i + 1 < 8 * p.s then Next(p) else Spot(p.s, 0));
      Touch(f, g) && Cross(f, g) == if anti then 0 - p.s else p.s
  {
    hide RingAt, Touch, Cross;
    var s, j := p.s, Origin(direct, p.s);
    if anti {
      RingTurns(s, Around(s, j + p.i));
    } else {
      RingTurns(s, Around(s, j - p.i - 1));
      TurnBack(RingAt(s, Around(s, j - p.i - 1)), RingAt(s, Around(s, j - p.i)));
    }
  }

  lemma TurnBack(f: Off, g: Off)
    ensures Touch(f, g) <==> Touch(g, f)
    ensures Cross(f, g) == 0 - Cross(g, f)
  {
  }

  // ---- one step of the search, in machine arithmetic ------------------------------------------

  /** The eight neighbours a search may start from. */
  function Adjust(direct: nat): Off
    requires direct < 8
  {
    match direct
    case 0 => Off(0, -1)
    case 1 => Off(1, -1)
    case 2 => Off(1, 0)
    case 3 => Off(1, 1)
    case 4 => Off(0, 1)
    case 5 => Off(-1, 1)
    case 6 => Off(-1, 0)
    case _ => Off(-1, -1)
  }

  /** Entry into ring s: the start direction, scaled. */
  function Entry(o: Pos, direct: nat, s: int): Pos
    requires direct < 8
  {
    Pos(Wrap(o.x + Adjust(direct).dx * s), Wrap(o.y + Adjust(direct).dy * s))
  }

  lemma EntryIsFirst(o: Pos, direct: nat, anti: bool, s: nat)
    requires direct < 8 && s >= 1
    ensures Entry(o, direct, s) == Place(o, Cell(direct, anti, Spot(s, 0)))
  {
    hide Wrap;
  }

  /** One iteration of the search loop: walk one place along the ring, or enter the next. */
  function Advance(o: Pos, direct: nat, anti: bool, side: int, c: Pos): (int, Pos)
    requires direct < 8
  {
    if side == 0 then (1, Entry(o, direct, 1))
    else
      var d := if anti then AntiClockwise(side, o, c) else Clockwise(side, o, c);
      if d == Entry(o, direct, side) then (side + 1, Entry(o, direct, side + 1)) else (side, d)
  }

  lemma WalkOneStep(o: Pos, direct: nat, anti: bool, p: Spot)
    requires direct < 8 && Word(o) && OnSpiral(p) && 1 <= p.s < M31
    ensures var c, j := Place(o, Cell(direct, anti, p)), Origin(direct, p.s);
      (if anti then AntiClockwise(p.s, o, c) else Clockwise(p.s, o, c))
      == Place(o, RingAt(p.s, Around(p.s, if anti then Around(p.s, j + p.i) + 1 else Around(p.s, j - p.i) - 1)))
  {
    hide AntiClockwise, Clockwise, Place, RingAt, Wrap;
    var j := Origin(direct, p.s);
    if anti {
      AntiClockwiseSteps(p.s, o, Around(p.s, j + p.i));
    } else {
      ClockwiseSteps(p.s, o, Around(p.s, j - p.i));
    }
  }

  /** After the last place of a ring the walk is back at its entry, and not before. */
  lemma BackAtEntry(o: Pos, direct: nat, anti: bool, p: Spot)
    requires direct < 8 && Word(o) && OnSpiral(p) && 1 <= p.s < M31
    ensures var c := Place(o, Cell(direct, anti, p));
      var d := if anti then AntiClockwise(p.s, o, c) else Clockwise(p.s, o, c);
      if p.i + 1 < 8 * p.s then
        d == Place(o, Cell(direct, anti, Next(p))) && d != Entry(o, direct, p.s)
      else d == Entry(o, direct, p.s)
  {
    hide AntiClockwise, Clockwise, Place, RingAt, Wrap, Entry;
    EntryIsFirst(o, direct, anti, p.s);
    WalkOneStep(o, direct, anti, p);
    if p.i + 1 < 8 * p.s { NotAtEntry(o, direct, anti, Next(p)); }
  }

  lemma NotAtEntry(o: Pos, direct: nat, anti: bool, p: Spot)
    requires direct < 8 && OnSpiral(p) && 1 <= p.s < M31 && p.i > 0
    ensures Place(o, Cell(direct, anti, p)) != Place(o, Cell(direct, anti, Spot(p.s, 0)))
  {
    hide Place, Cell;
    if Place(o, Cell(direct, anti, p)) == Place(o, Cell(direct, anti, Spot(p.s, 0))) {
      PlaceInjective(o, Cell(direct, anti, p), Cell(direct, anti, Spot(p.s, 0)));
      SpiralBijective(direct, anti, p, Spot(p.s, 0));
      assert false;
    }
  }

  lemma AdvanceIsNext(o: Pos, direct: nat, anti: bool, p: Spot, c: Pos)
    requires direct < 8 && Word(o) && OnSpiral(p) && p.s < M31
    requires p.s > 0 ==> c == Place(o, Cell(direct, anti, p))
    ensures Advance(o, direct, anti, p.s, c) == (Next(p).s, Place(o, Cell(direct, anti, Next(p))))
  {
    hide AntiClockwise, Clockwise, Place, Wrap, Entry, Cell;
    EntryIsFirst(o, direct, anti, p.s + 1);
    if p.s > 0 { BackAtEntry(o, direct, anti, p); }
  }

  // ---- the map -------------------------------------------------------------------------------------

  datatype Bounds = Bounds(width: nat, height: nat)
  {
    predicate Valid() { width < M31 && height < M31 }

    predicate Has(p: Pos) { 0 <= p.x < width && 0 <= p.y < height }
  }

  function Toward(o: Pos, c: Pos): Off { Off(c.x - o.x, c.y - o.y) }

  /** Where the search from o meets cell c. */
  function Met(direct: nat, anti: bool, o: Pos, c: Pos): Spot
    requires direct < 8
  {
    SpotOf(direct, anti, Toward(o, c))
  }

  predicate MapHas(b: Bounds, o: Pos, direct: nat, anti: bool, p: Spot)
    requires direct < 8 && OnSpiral(p)
  {
    b.Has(Place(o, Cell(direct, anti, p)))
  }

  lemma WrapTrue(o: int, d: int)
    requires 0 <= o < M31 && 0 - M31 < d < M31
    ensures Wrap(o + d) < M31 ==> Wrap(o + d) == o + d
  {
  }

  /** Wrapped coordinates that are on the map are the true ones. */
  lemma OnMapIsTrue(b: Bounds, o: Pos, direct: nat, anti: bool, p: Spot)
    requires b.Valid() && b.Has(o) && direct < 8 && OnSpiral(p) && p.s < M31 && MapHas(b, o, direct, anti, p)
    ensures Met(direct, anti, o, Place(o, Cell(direct, anti, p))) == p
  {
    hide Cell, Wrap, SpotOf;
    var f := Cell(direct, anti, p);
    WrapTrue(o.x, f.dx);
    WrapTrue(o.y, f.dy);
    SpotOfCell(direct, anti, p);
  }

  lemma MetIsThere(b: Bounds, o: Pos, direct: nat, anti: bool, c: Pos)
    requires b.Valid() && b.Has(o) && b.Has(c) && direct < 8
    ensures var p := Met(direct, anti, o, c);
      OnSpiral(p) && p.s < M31 && Place(o, Cell(direct, anti, p)) == c && MapHas(b, o, direct, anti, p)
  {
    CellOfSpot(direct, anti, Toward(o, c));
  }

  /** q is the first spot after p whose cell is on the map. */
  ghost predicate FirstAfter(b: Bounds, o: Pos, direct: nat, anti: bool, p: Spot, q: Spot)
    requires direct < 8
  {
    && OnSpiral(p) && OnSpiral(q) && Before(p, q) && q.s < M31 && MapHas(b, o, direct, anti, q)
    && forall r :: OnSpiral(r) && Before(p, r) && Before(r, q) ==> !MapHas(b, o, direct, anti, r)
  }
}

/** The square ring at a given Chebyshev distance from a centre, walked in wrapping
    32-bit arithmetic. */
module Ring {
  const M32: int := 0x1_0000_0000
  const M31: int := 0x8000_0000

  datatype Pos = Pos(x: int, y: int)

  /** A displacement from the centre, as integers. */
  datatype Off = Off(dx: int, dy: int)

  function Wrap(v: int): (r: int)
    ensures 0 <= r < M32
  {
    v % M32
  }

  predicate Word(p: Pos) { 0 <= p.x < M32 && 0 <= p.y < M32 }

  function Place(o: Pos, f: Off): Pos { Pos(Wrap(o.x + f.dx), Wrap(o.y + f.dy)) }

  // ---- the two walks, in machine arithmetic -------------------------------------------------

  function AntiClockwise(side: int, o: Pos, c: Pos): Pos {
    if Wrap(c.x + side) == o.x then
      if Wrap(o.y + side) == c.y then Pos(Wrap(c.x + 1), c.y) else Pos(c.x, Wrap(c.y + 1))
    else if Wrap(o.y + side) == c.y then
      if Wrap(o.x + side) == c.x then Pos(c.x, Wrap(c.y - 1)) else Pos(Wrap(c.x + 1), c.y)
    else if Wrap(o.x + side) == c.x then
      if Wrap(c.y + side) == o.y then Pos(Wrap(c.x - 1), c.y) else Pos(c.x, Wrap(c.y - 1))
    else if Wrap(c.y + side) == o.y then
      if Wrap(c.x + side) == o.x then Pos(c.x, Wrap(c.y + 1)) else Pos(Wrap(c.x - 1), c.y)
    else c
  }

  function Clockwise(side: int, o: Pos, c: Pos): Pos {
    if Wrap(c.x + side) == o.x then
      if Wrap(c.y + side) == o.y then Pos(Wrap(c.x + 1), c.y) else Pos(c.x, Wrap(c.y - 1))
    else if Wrap(o.y + side) == c.y then
      if Wrap(c.x + side) == o.x then Pos(c.x, Wrap(c.y - 1)) else Pos(Wrap(c.x - 1), c.y)
    else if Wrap(o.x + side) == c.x then
      if Wrap(o.y + side) == c.y then Pos(Wrap(c.x - 1), c.y) else Pos(c.x, Wrap(c.y + 1))
    else if Wrap(c.y + side) == o.y then
      if Wrap(c.x + side) == o.x then Pos(c.x, Wrap(c.y + 1)) else Pos(Wrap(c.x + 1), c.y)
    else c
  }

  // ---- the ring, in integers -------------------------------------------------------------------

  function Abs(v: int): nat { if v < 0 then -v else v }

  function Distance(f: Off): nat { if Abs(f.dx) < Abs(f.dy) then Abs(f.dy) else Abs(f.dx) }

  /** Place j of the ring, from the top left corner down, right, up and left. */
  function RingAt(s: nat, j: nat): (f: Off)
    requires s == 0 || j < 8 * s
    ensures s > 0 ==> Distance(f) == s
  {
    if s == 0 then Off(0, 0)
    else if j < 2 * s then Off(0 - s, j - s)
    else if j < 4 * s then Off(j - 3 * s, s)
    else if j < 6 * s then Off(s, 5 * s - j)
    else Off(7 * s - j, 0 - s)
  }

  function PlaceOn(f: Off): (j: nat)
    ensures Distance(f) > 0 ==> j < 8 * Distance(f) && RingAt(Distance(f), j) == f
  {
    var s := Distance(f);
    if f.dx == 0 - s && f.dy != s then f.dy + s
    else if f.dy == s && f.dx != s then f.dx + 3 * s
    else if f.dx == s && f.dy != 0 - s then 5 * s - f.dy
    else 7 * s - f.dx
  }

  lemma RingInjective(s: nat, j: nat, k: nat)
    requires j < 8 * s && k < 8 * s && RingAt(s, j) == RingAt(s, k)
    ensures j == k
  {
  }

  /** j + d around a ring of 8s places. */
  function Around(s: nat, j: int): (r: nat)
    requires s > 0 && -8 * s <= j < 16 * s
    ensures r < 8 * s
  {
    if j < 0 then j + 8 * s else if j >= 8 * s then j - 8 * s else j
  }

  // ---- the walks step along the ring -----------------------------------------------------------

  lemma WrapAdd(a: int, b: int)
    ensures Wrap(Wrap(a) + b) == Wrap(a + b)
  {
  }

  lemma WrapEqual(a: int, b: int)
    requires -M32 < a - b < M32
    ensures Wrap(a) == Wrap(b) <==> a == b
  {
    if a < b { WrapGap(a, b); } else if b < a { WrapGap(b, a); }
  }

  lemma WrapGap(a: int, b: int)
    requires a < b < a + M32
    ensures Wrap(a) != Wrap(b)
  {
    assert b - a == M32 * (b / M32 - a / M32) + (Wrap(b) - Wrap(a));
  }

  /** The four edge tests, read as tests on the displacement. */
  lemma EdgeTests(s: nat, o: Pos, f: Off)
    requires 1 <= s < M31 && Word(o) && Distance(f) <= s
    ensures var c := Place(o, f);
      && (Wrap(c.x + s) == o.x <==> f.dx == 0 - s) && (Wrap(o.x + s) == c.x <==> f.dx == s)
      && (Wrap(c.y + s) == o.y <==> f.dy == 0 - s) && (Wrap(o.y + s) == c.y <==> f.dy == s)
  {
    EdgeTest(s, o.x, f.dx);
    EdgeTest(s, o.y, f.dy);
  }

  lemma EdgeTest(s: nat, x: int, d: int)
    requires 1 <= s < M31 && 0 <= x < M32 && Abs(d) <= s
    ensures Wrap(Wrap(x + d) + s) == x <==> d == 0 - s
    ensures Wrap(x + s) == Wrap(x + d) <==> d == s
  {
    WrapAdd(x + d, s);
    WrapEqual(x + d + s, x);
    WrapEqual(x + s, x + d);
  }

  lemma AntiClockwiseSteps(s: nat, o: Pos, j: nat)
    requires 1 <= s < M31 && Word(o) && j < 8 * s
    ensures AntiClockwise(s, o, Place(o, RingAt(s, j))) == Place(o, RingAt(s, Around(s, j + 1)))
  {
    hide Wrap;
    var f := RingAt(s, j);
    EdgeTests(s, o, f);
    WrapAdd(o.x + f.dx, 1);
    WrapAdd(o.x + f.dx, -1);
    WrapAdd(o.y + f.dy, 1);
    WrapAdd(o.y + f.dy, -1);
  }

  lemma ClockwiseSteps(s: nat, o: Pos, j: nat)
    requires 1 <= s < M31 && Word(o) && j < 8 * s
    ensures Clockwise(s, o, Place(o, RingAt(s, j))) == Place(o, RingAt(s, Around(s, j - 1)))
  {
    hide Wrap;
    var f := RingAt(s, j);
    EdgeTests(s, o, f);
    WrapAdd(o.x + f.dx, 1);
    WrapAdd(o.x + f.dx, -1);
    WrapAdd(o.y + f.dy, 1);
    WrapAdd(o.y + f.dy, -1);
  }

  /** Displacements nearer than half the word range do not collide. */
  lemma PlaceInjective(o: Pos, f: Off, g: Off)
    requires Distance(f) < M31 && Distance(g) < M31 && Place(o, f) == Place(o, g)
    ensures f == g
  {
    WrapEqual(o.x + f.dx, o.x + g.dx);
    WrapEqual(o.y + f.dy, o.y + g.dy);
  }

  predicate OnRing(s: nat, o: Pos, c: Pos) {
    exists j: nat :: j < 8 * s && c == Place(o, RingAt(s, j))
  }

  /** On the ring the two walks undo each other. */
  lemma WalksInverse(s: nat, o: Pos, c: Pos)
    requires 1 <= s < M31 && Word(o) && OnRing(s, o, c)
    ensures OnRing(s, o, AntiClockwise(s, o, c)) && OnRing(s, o, Clockwise(s, o, c))
    ensures Clockwise(s, o, AntiClockwise(s, o, c)) == c
    ensures AntiClockwise(s, o, Clockwise(s, o, c)) == c
  {
    hide AntiClockwise, Clockwise, Place, RingAt;
    var j: nat :| j < 8 * s && c == Place(o, RingAt(s, j));
    AntiClockwiseSteps(s, o, j);
    ClockwiseSteps(s, o, Around(s, j + 1));
    ClockwiseSteps(s, o, j);
    AntiClockwiseSteps(s, o, Around(s, j - 1));
  }

  /** n steps of a walk; `anti` selects which. */
  function Walk(anti: bool, s: nat, o: Pos, c: Pos, n: nat): Pos {
    if n == 0 then c
    else
      var b := Walk(anti, s, o, c, n - 1);
      if anti then AntiClockwise(s, o, b) else Clockwise(s, o, b)
  }

  lemma {:induction false} WalkAround(anti: bool, s: nat, o: Pos, j: nat, n: nat)
    requires 1 <= s < M31 && Word(o) && j < 8 * s && n <= 8 * s
    ensures Walk(anti, s, o, Place(o, RingAt(s, j)), n)
         == Place(o, RingAt(s, Around(s, if anti then j + n else j - n)))
  {
    hide AntiClockwise, Clockwise, Place, RingAt;
    if n > 0 {
      WalkAround(anti, s, o, j, n - 1);
      if anti {
        AntiClockwiseSteps(s, o, Around(s, j + (n - 1)));
      } else {
        ClockwiseSteps(s, o, Around(s, j - (n - 1)));
      }
    }
  }

  /** A walk of fewer than 8s steps leads from c to d. */
  predicate Reaches(anti: bool, s: nat, o: Pos, c: Pos, d: Pos) {
    exists n: nat :: n < 8 * s && Walk(anti, s, o, c, n) == d
  }

  /** Each walk is one cycle of length 8s through the whole ring: it returns to its start
      after 8s steps, not before, and reaches every place on the way. */
  lemma SingleCycle(anti: bool, s: nat, o: Pos, c: Pos)
    requires 1 <= s < M31 && Word(o) && OnRing(s, o, c)
    ensures Walk(anti, s, o, c, 8 * s) == c
    ensures forall m: nat, n: nat :: m < n < 8 * s ==> Walk(anti, s, o, c, m) != Walk(anti, s, o, c, n)
    ensures forall d :: OnRing(s, o, d) ==> Reaches(anti, s, o, c, d)
  {
    hide AntiClockwise, Clockwise, Place, RingAt, Reaches;
    var j: nat :| j < 8 * s && c == Place(o, RingAt(s, j));
    WalkAround(anti, s, o, j, 8 * s);
    forall m: nat, n: nat | m < n < 8 * s ensures Walk(anti, s, o, c, m) != Walk(anti, s, o, c, n) {
      NoEarlyReturn(anti, s, o, j, m, n);
    }
    forall d | OnRing(s, o, d) ensures Reaches(anti, s, o, c, d) {
      AllReached(anti, s, o, j, d);
    }
  }

  lemma NoEarlyReturn(anti: bool, s: nat, o: Pos, j: nat, m: nat, n: nat)
    requires 1 <= s < M31 && Word(o) && j < 8 * s && m < n < 8 * s
    ensures var c := Place(o, RingAt(s, j)); Walk(anti, s, o, c, m) != Walk(anti, s, o, c, n)
  {
    hide AntiClockwise, Clockwise, Place, RingAt;
    WalkAround(anti, s, o, j, m);
    WalkAround(anti, s, o, j, n);
    var a, b := Around(s, if anti then j + m else j - m), Around(s, if anti then j + n else j - n);
    if Place(o, RingAt(s, a)) == Place(o, RingAt(s, b)) {
      PlaceInjective(o, RingAt(s, a), RingAt(s, b));
      RingInjective(s, a, b);
      assert false;
    }
  }

  lemma AllReached(anti: bool, s: nat, o: Pos, j: nat, d: Pos)
    requires 1 <= s < M31 && Word(o) && j < 8 * s && OnRing(s, o, d)
    ensures Reaches(anti, s, o, Place(o, RingAt(s, j)), d)
  {
    hide AntiClockwise, Clockwise, Place, RingAt;
    var k: nat :| k < 8 * s && d == Place(o, RingAt(s, k));
    var n := Around(s, if anti then k - j else j - k);
    WalkAround(anti, s, o, j, n);
    assert Around(s, if anti then j + n else j - n) == k;
  }
}

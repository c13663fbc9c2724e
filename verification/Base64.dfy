/** The two passes of each base64 routine: measuring, and writing. */
module Base64 {
  import opened Base64Spec
  import opened Base64Decode

  // ---- encoding -----------------------------------------------------------------------------

  /** The digits t have been written, folded, and col of them are on the current line. */
  ghost predicate Written(out: array<char>, p: nat, col: nat, t: string, w: nat)
    reads out
  {
    p <= out.Length && out[..p] == Fold(t, w) && (w > 0 ==> col == Column(|t|, w))
  }

  lemma {:induction false} FoldMonotone(t: string, u: string, w: nat)
    requires t <= u
    ensures |Fold(t, w)| <= |Fold(u, w)|
    decreases |u|
  {
    if t != u { FoldMonotone(t, u[..|u| - 1], w); }
  }

  /** After a character: end the line if it is full. */
  method CheckLine(out: array<char>, p0: nat, col0: nat, w: nat) returns (p: nat, col: nat)
    requires p0 <= out.Length && (w > 0 && col0 + 1 >= w ==> p0 + 2 <= out.Length)
    modifies out
    ensures p0 <= p <= out.Length && out[p..] == old(out[p..])
    ensures out[..p] == old(out[..p0]) + if w > 0 && col0 + 1 >= w then "\r\n" else ""
    ensures w > 0 ==> col == if col0 + 1 < w then col0 + 1 else 0
  {
    p, col := p0, col0;
    if w == 0 { return; }
    col := col + 1;
    if col < w { return; }
    out[p] := '\r';
    p := p + 1;
    out[p] := '\n';
    p := p + 1;
    col := 0;
  }

  /** Write one digit of the text, and the line end if it is due. */
  method PutChar(out: array<char>, p0: nat, col0: nat, w: nat, c: char, ghost t: string, ghost goal: string)
    returns (p: nat, col: nat)
    requires Written(out, p0, col0, t, w) && t + [c] <= goal && out.Length > |Fold(goal, w)|
    modifies out
    ensures Written(out, p, col, t + [c], w) && p0 <= p <= out.Length
    ensures forall k :: p <= k < out.Length ==> out[k] == old(out[k])
  {
    ghost var u := t + [c];
    FoldMonotone(u, goal, w);
    assert u[..|u| - 1] == t;
    out[p0] := c;
    assert out[..p0 + 1] == old(out[..p0]) + [c];
    p, col := CheckLine(out, p0 + 1, col0, w);
    assert forall k :: p <= k < out.Length ==> out[k] == out[p..][k - p];
  }

  method PutFour(out: array<char>, p0: nat, col0: nat, w: nat, q: string, ghost t: string, ghost goal: string)
    returns (p: nat, col: nat)
    requires |q| == 4 && Written(out, p0, col0, t, w) && t + q <= goal && out.Length > |Fold(goal, w)|
    modifies out
    ensures Written(out, p, col, t + q, w) && p0 <= p <= out.Length
    ensures forall k :: p <= k < out.Length ==> out[k] == old(out[k])
  {
    hide Written, Fold;
    assert t + [q[0]] + [q[1]] + [q[2]] + [q[3]] == t + q;
    p, col := PutChar(out, p0, col0, w, q[0], t, goal);
    p, col := PutChar(out, p, col, w, q[1], t + [q[0]], goal);
    p, col := PutChar(out, p, col, w, q[2], t + [q[0]] + [q[1]], goal);
    p, col := PutChar(out, p, col, w, q[3], t + [q[0]] + [q[1]] + [q[2]], goal);
  }

  lemma QuadsGrow(raw: seq<Byte>, k: nat)
    requires 3 * k + 3 <= |raw|
    ensures Quads(raw, k) + Quad(raw[3 * k], raw[3 * k + 1], raw[3 * k + 2]) == Quads(raw, k + 1)
    ensures Quads(raw, k + 1) <= Digits(raw)
  {
    hide Quad, Padded;
    QuadsPrefix(raw, k + 1, |raw| / 3);
  }

  lemma {:induction false} QuadsPrefix(raw: seq<Byte>, j: nat, k: nat)
    requires j <= k && 3 * k <= |raw|
    ensures Quads(raw, j) <= Quads(raw, k)
    decreases k
  {
    hide Quad;
    if j < k { QuadsPrefix(raw, j, k - 1); }
  }

  /** Without a buffer: the length of the text, right as long as the width fits the word.
      With one: the text and a final null, and its length. */
  method Encode(data: seq<Byte>, size: int, out: array?<char>, w: nat) returns (r: int)
    requires SizeOk(data, size, 0) && w < W32
    requires var n := |Encoded(Given(data, size, 0), w)|; out != null ==> out.Length > n && n < W32
    modifies out
    ensures var raw := Given(data, size, 0);
      out == null ==> (r == |Encoded(raw, w)| <==> |Encoded(raw, w)| < W32 && (w == 0 || |Digits(raw)| + w < W32))
    ensures out != null ==>
      && r == |Encoded(Given(data, size, 0), w)| && out[..r] == Encoded(Given(data, size, 0), w) && out[r] == '\0'
      && out[r + 1..] == old(out[r + 1..])
  {
    hide Given, SizeOk;
    var n := Length(data, size, 0);
    var raw := data[..n];
    if out == null {
      MeasureExact(raw, w);
      r := MeasureText(|raw|, w);
      return;
    }
    r := WriteText(raw, out, w);
  }

  method MeasureText(n: nat, w: nat) returns (length: int)
    requires n < W32 && w < W32
    ensures length == Measured(n, w)
  {
    hide MeasuredLines;
    length := n / 3 * 4;
    if n % 3 != 0 { length := length + 4; }
    length := length % W32;
    if w != 0 { length := AddLineEnds(length, w); }
  }

  method AddLineEnds(chars: nat, w: nat) returns (length: int)
    requires w > 0
    ensures length == MeasuredLines(chars, w)
  {
    length := (chars + ((chars + w) % W32 / w - 1) % W32 * 2) % W32;
  }

  method WriteText(raw: seq<Byte>, out: array<char>, w: nat) returns (r: int)
    requires out.Length > |Encoded(raw, w)|
    modifies out
    ensures r == |Encoded(raw, w)| && out[..r] == Encoded(raw, w) && out[r] == '\0'
    ensures out[r + 1..] == old(out[r + 1..])
  {
    hide Fold, Column, Quad, Quads, Written;
    ghost var goal := Digits(raw);
    var i, p, col, full := 0, 0, 0, |raw| / 3 * 3;
    WrittenNothing(out, raw, w);
    while i < full
      invariant 0 <= i <= full && i % 3 == 0
      invariant Written(out, p, col, Quads(raw, i / 3), w) && p <= out.Length
      invariant forall k :: p <= k < out.Length ==> out[k] == old(out[k])
    {
      QuadsGrow(raw, i / 3);
      p, col := PutFour(out, p, col, w, Quad(raw[i], raw[i + 1], raw[i + 2]), Quads(raw, i / 3), goal);
      i := i + 3;
    }
    ghost var t := Quads(raw, i / 3);
    if |raw| % 3 == 1 {
      p, col := PutFour(out, p, col, w, [Digit(raw[i] / 4), Digit(raw[i] % 4 * 16), '=', '='], t, goal);
    } else if |raw| % 3 == 2 {
      p, col := PutFour(out, p, col, w,
                        [Digit(raw[i] / 4), Digit(raw[i] % 4 * 16 + raw[i + 1] / 16), Digit(raw[i + 1] % 16 * 4), '='],
                        t, goal);
    } else {
      assert t + "" == t;
    }
    WrittenAll(out, p, col, goal, w);
    out[p] := '\0';
    r := p;
  }

  lemma WrittenNothing(out: array<char>, raw: seq<Byte>, w: nat)
    ensures Written(out, 0, 0, Quads(raw, 0), w)
  {
    assert out[..0] == [];
  }

  lemma WrittenAll(out: array<char>, p: nat, col: nat, t: string, w: nat)
    requires Written(out, p, col, t, w)
    ensures p <= out.Length && out[..p] == Fold(t, w) && p == |Fold(t, w)|
  {
  }

  // ---- decoding ------------------------------------------------------------------------------

  lemma StripGrows(text: string, i: nat)
    requires i < |text|
    ensures Strip(text[..i + 1]) == Strip(text[..i]) + if Value(text[i]) == SPACE then "" else [text[i]]
  {
    assert text[..i + 1][..i] == text[..i];
  }

  lemma {:induction false} StripPrefix(text: string, i: nat)
    requires i <= |text|
    ensures Strip(text[..i]) <= Strip(text)
    decreases |text| - i
  {
    if i == |text| {
      assert text[..i] == text;
    } else {
      StripGrows(text, i);
      StripPrefix(text, i + 1);
    }
  }

  /** Nothing but digits and spaces before place i. */
  ghost predicate DigitsUpTo(text: string, i: nat) {
    i <= |text| && AllDigits(Strip(text[..i]))
  }

  lemma DigitsGrow(text: string, i: nat)
    requires i < |text| && DigitsUpTo(text, i) && (Value(text[i]) == SPACE || Value(text[i]) >= 0)
    ensures DigitsUpTo(text, i + 1)
  {
    StripGrows(text, i);
  }

  /** A text that starts with digits u and goes on with a bad character, an '=' or not at all. */
  lemma PrefixDecides(t: string, u: string)
    requires u <= t && AllDigits(u)
    requires |u| < |t| ==> Value(t[|u|]) == BAD || Value(t[|u|]) == END
    ensures Clean(t) <==> |u| == |t| || Value(t[|u|]) == END
    ensures Clean(t) ==> EndAt(t) == |u|
  {
    hide Value;
    assert forall j :: 0 <= j < |u| ==> t[j] == u[j];
  }

  lemma StopsHere(text: string, i: nat)
    requires i < |text| && Value(text[i]) != SPACE
    ensures var u, t := Strip(text[..i]), Strip(text); |u| < |t| && t[|u|] == text[i]
  {
    hide Value;
    StripGrows(text, i);
    StripPrefix(text, i + 1);
    var u := Strip(text[..i]);
    assert (u + [text[i]])[|u|] == text[i];
  }

  /** What the scan up to a bad character, an '=' or the end tells about the whole text. */
  lemma ScanDecides(text: string, i: nat)
    requires DigitsUpTo(text, i) && (i < |text| ==> Value(text[i]) == BAD || Value(text[i]) == END)
    ensures Clean(Strip(text)) <==> i == |text| || Value(text[i]) == END
    ensures Clean(Strip(text)) ==> Body(text) == Strip(text[..i]) && (Ended(text) <==> i < |text|)
  {
    hide Value, Strip, Clean, AllDigits;
    StripPrefix(text, i);
    if i < |text| {
      StopsHere(text, i);
    } else {
      assert text[..i] == text;
    }
    PrefixDecides(Strip(text), Strip(text[..i]));
  }

  /** Count the digits before the end of a clean text; -1 if it is not clean. */
  method CountDigits(text: string) returns (ok: bool, n: nat, ghost stop: nat)
    ensures ok <==> Clean(Strip(text))
    ensures ok ==> n == |Body(text)| && DigitsUpTo(text, stop) && Body(text) == Strip(text[..stop])
    ensures ok ==> stop <= |text| && (stop < |text| ==> Value(text[stop]) == END) && (Ended(text) <==> stop < |text|)
  {
    hide Value, Strip, Clean;
    var i := 0;
    n := 0;
    NothingYet(text);
    while i < |text|
      invariant 0 <= i <= |text| && DigitsUpTo(text, i) && n == |Strip(text[..i])|
    {
      var v := Value(text[i]);
      StripGrows(text, i);
      if v == BAD {
        ScanDecides(text, i);
        return false, n, i;
      }
      if v == END { break; }
      DigitsGrow(text, i);
      i := i + 1;
      if v == SPACE { continue; }
      n := n + 1;
    }
    ScanDecides(text, i);
    ok, stop := true, i;
  }

  lemma NothingYet(text: string)
    ensures DigitsUpTo(text, 0) && Strip(text[..0]) == ""
  {
  }

  lemma DecodedLength(text: string)
    requires Clean(Strip(text))
    ensures |Decoded(text)| == |Body(text)| / 4 * 3 + if Ended(text) then |Body(text)| % 4 * 3 / 4 else 0
  {
  }

  /** Three quarters of the digit count, in 32-bit arithmetic, is the number of bytes exactly
      when the product does not leave the range and no incomplete group goes unended. */
  lemma CountExact(n: nat, ended: bool)
    requires n < W32
    ensures 3 * n % W32 / 4 == n / 4 * 3 + (if ended then n % 4 * 3 / 4 else 0)
       <==> 3 * n < W32 && (ended || n % 4 <= 1)
  {
    if 3 * n < W32 {
      WrapSmall(3 * n);
    } else {
      assert 3 * n % W32 <= 3 * n - W32;
    }
  }

  // ---- the writing pass ------------------------------------------------------------------------

  /** Four digits as one number. */
  function Group(a: int, b: int, c: int, d: int): int { ((a * 64 + b) * 64 + c) * 64 + d }

  /** Byte j of such a number, from the top. */
  function ByteOf(dw: int, j: nat): Byte
    requires j < 3
  {
    if j == 0 then dw / 65536 % 256 else if j == 1 then dw / 256 % 256 else dw % 256
  }

  /** A number is its high part times a power of two and its low part. */
  lemma HighLow(q: int, r: int, m: int)
    requires m == 256 || m == 65536
    requires 0 <= r < m
    ensures (m * q + r) / m == q && (m * q + r) % m == r
  {
  }

  lemma Sixteenths(b: int)
    ensures b == 16 * (b / 16) + b % 16 && 0 <= b % 16 < 16
    ensures b == 4 * (b / 4) + b % 4 && 0 <= b % 4 < 4
    ensures 0 <= b < 64 ==> 0 <= b / 16 < 4 && 0 <= b / 4 < 16
  {
  }

  lemma GroupBytes(a: int, b: int, c: int, d: int)
    requires 0 <= a < 64 && 0 <= b < 64 && 0 <= c < 64 && 0 <= d < 64
    ensures var dw := Group(a, b, c, d); [ByteOf(dw, 0), ByteOf(dw, 1), ByteOf(dw, 2)] == Triple(a, b, c, d)
  {
    hide Group, ByteOf;
    Sixteenths(b);
    Sixteenths(c);
    PartsBytes(a, b / 16, b % 16, c / 4, c % 4, d);
  }

  /** The same with the middle digits cut where the byte borders run. */
  lemma PartsBytes(a: int, b1: int, b0: int, c1: int, c0: int, d: int)
    requires 0 <= a < 64 && 0 <= b1 < 4 && 0 <= b0 < 16 && 0 <= c1 < 16 && 0 <= c0 < 4 && 0 <= d < 64
    ensures var dw := Group(a, 16 * b1 + b0, 4 * c1 + c0, d);
      ByteOf(dw, 0) == a * 4 + b1 && ByteOf(dw, 1) == b0 * 16 + c1 && ByteOf(dw, 2) == c0 * 64 + d
  {
    var dw := Group(a, 16 * b1 + b0, 4 * c1 + c0, d);
    var x0, x1, x2 := a * 4 + b1, b0 * 16 + c1, c0 * 64 + d;
    assert dw == 65536 * x0 + 256 * x1 + x2;
    HighLow(x0, 256 * x1 + x2, 65536);
    HighLow(0, x0, 256);
    HighLow(256 * x0 + x1, x2, 256);
    HighLow(x0, x1, 256);
  }

  /** The number the digits of an incomplete group make. */
  function Partial(t: string): int
    requires AllDigits(t)
  {
    var i := |t| - |t| % 4;
    if |t| % 4 == 0 then 0
    else if |t| % 4 == 1 then Value(t[i])
    else if |t| % 4 == 2 then Value(t[i]) * 64 + Value(t[i + 1])
    else (Value(t[i]) * 64 + Value(t[i + 1])) * 64 + Value(t[i + 2])
  }

  lemma PartialGrows(t: string, c: char)
    requires AllDigits(t) && Value(c) >= 0
    ensures AllDigits(t + [c])
    ensures |t| % 4 < 3 ==> Partial(t + [c]) == Partial(t) * 64 + Value(c)
    ensures |t| % 4 == 3 ==>
      var i := |t| - 3;
      Partial(t) * 64 + Value(c) == Group(Value(t[i]), Value(t[i + 1]), Value(t[i + 2]), Value(c))
  {
    hide Value;
  }

  /** The shift that moves k digits to the top of 24 bits. */
  function Lift(k: nat): int {
    if k == 0 then 16777216 else if k == 1 then 262144 else if k == 2 then 4096 else if k == 3 then 64 else 1
  }

  /** Copy bytes of dw, the first k of them, as far as the buffer takes them. */
  method PutBytes(out: array<Byte>, n0: nat, size: nat, dw: int, k: nat) returns (n: nat)
    requires n0 < size <= out.Length && k <= 3
    modifies out
    ensures n == if n0 + k < size then n0 + k else size
    ensures forall j :: n0 <= j < n ==> out[j] == ByteOf(dw, j - n0)
    ensures forall j :: 0 <= j < out.Length && !(n0 <= j < n) ==> out[j] == old(out[j])
  {
    hide ByteOf;
    var j := 0;
    n := n0;
    while j < k && n < size
      invariant 0 <= j <= k && n == n0 + j <= size
      invariant forall i :: n0 <= i < n ==> out[i] == ByteOf(dw, i - n0)
      invariant forall i :: 0 <= i < out.Length && !(n0 <= i < n) ==> out[i] == old(out[i])
    {
      out[n] := ByteOf(dw, j);
      j := j + 1;
      n := n + 1;
    }
  }

  lemma {:induction false} TriplesOfPrefix(t: string, b: string, k: nat)
    requires t <= b && AllDigits(t) && AllDigits(b) && 4 * k <= |t|
    ensures Triples(t, k) == Triples(b, k)
  {
    hide Value, Triple;
    if k > 0 { TriplesOfPrefix(t, b, k - 1); }
  }

  lemma {:induction false} TriplesGrow(t: string, j: nat, k: nat)
    requires AllDigits(t) && j <= k && 4 * k <= |t|
    ensures Triples(t, j) <= Triples(t, k)
    decreases k
  {
    hide Value, Triple;
    if j < k { TriplesGrow(t, j, k - 1); }
  }

  /** The bytes of the digits read so far are the first bytes of the whole. */
  lemma BytesSoFar(text: string, t: string)
    requires Clean(Strip(text)) && AllDigits(t) && t <= Body(text)
    ensures Triples(t, |t| / 4) <= Decoded(text)
  {
    hide Value, Triples, Leftover;
    var b := Body(text);
    TriplesOfPrefix(t, b, |t| / 4);
    TriplesGrow(b, |t| / 4, |b| / 4);
  }

  /** The fourth digit of a group completes three bytes. */
  lemma FourthDigit(t: string, c: char)
    requires AllDigits(t) && Value(c) >= 0 && |t| % 4 == 3
    ensures AllDigits(t + [c]) && |t + [c]| / 4 == |t| / 4 + 1
    ensures var dw := Partial(t) * 64 + Value(c);
      Triples(t + [c], |t| / 4 + 1) == Triples(t, |t| / 4) + [ByteOf(dw, 0), ByteOf(dw, 1), ByteOf(dw, 2)]
  {
    hide Value, Triple, ByteOf, Group;
    var i := |t| - 3;
    PartialGrows(t, c);
    GroupBytes(Value(t[i]), Value(t[i + 1]), Value(t[i + 2]), Value(c));
    TriplesOfPrefix(t, t + [c], |t| / 4);
  }

  lemma EarlierDigit(t: string, c: char)
    requires AllDigits(t) && Value(c) >= 0 && |t| % 4 < 3
    ensures AllDigits(t + [c]) && |t + [c]| / 4 == |t| / 4
    ensures Triples(t + [c], |t| / 4) == Triples(t, |t| / 4)
    ensures Partial(t + [c]) == Partial(t) * 64 + Value(c)
  {
    hide Value;
    PartialGrows(t, c);
    TriplesOfPrefix(t, t + [c], |t| / 4);
  }

  /** The bytes of an incomplete group, lifted to the top. */
  lemma LeftoverBytes(t: string)
    requires AllDigits(t)
    ensures var dw := Partial(t) * Lift(|t| % 4);
      forall j :: 0 <= j < |Leftover(t)| ==> ByteOf(dw, j) == Leftover(t)[j]
  {
    hide Value, Triple, ByteOf;
    var i := |t| - |t| % 4;
    if |t| % 4 == 2 {
      assert Partial(t) * Lift(2) == Group(Value(t[i]), Value(t[i + 1]), 0, 0);
      GroupBytes(Value(t[i]), Value(t[i + 1]), 0, 0);
    } else if |t| % 4 == 3 {
      assert Partial(t) * Lift(3) == Group(Value(t[i]), Value(t[i + 1]), Value(t[i + 2]), 0);
      GroupBytes(Value(t[i]), Value(t[i + 1]), Value(t[i + 2]), 0);
    }
  }

  /** n is as much of the bytes `got` as fits, and they are in place. */
  ghost predicate Holds(out: array<Byte>, n: nat, size: nat, got: seq<Byte>)
    reads out
  {
    n <= out.Length && n == (if |got| < size then |got| else size) && out[..n] == got[..n]
  }

  lemma HoldsMore(before: seq<Byte>, out: array<Byte>, n0: nat, n: nat, size: nat, got: seq<Byte>, more: seq<Byte>)
    requires |before| == out.Length && n0 < size <= out.Length && n0 == |got| && before[..n0] == got
    requires n == if n0 + |more| < size then n0 + |more| else size
    requires forall j :: n0 <= j < n ==> out[j] == more[j - n0]
    requires forall j :: 0 <= j < n0 ==> out[j] == before[j]
    ensures Holds(out, n, size, got + more)
  {
    assert forall j :: 0 <= j < n0 ==> before[j] == before[..n0][j];
  }

  /** The second pass over a clean text. */
  method WriteBytes(text: string, out: array<Byte>, size: nat, ghost stop: nat) returns (n: nat)
    requires Clean(Strip(text)) && size <= out.Length && stop <= |text|
    requires DigitsUpTo(text, stop) && Body(text) == Strip(text[..stop])
    requires (stop < |text| ==> Value(text[stop]) == END) && (Ended(text) <==> stop < |text|)
    modifies out
    ensures Holds(out, n, size, Decoded(text))
    ensures forall j :: n <= j < out.Length ==> out[j] == old(out[j])
  {
    hide Value, Strip, Clean, Triples, Leftover, Partial, ByteOf, AllDigits, Body, Ended, DigitsUpTo, Holds, Decoded;
    var i, k, dw := 0, 0, 0;
    n := 0;
    ghost var t: string, got: seq<Byte>, done := "", [], false;
    NothingDecoded(text, out, size);
    while i < |text| && n < size
      invariant 0 <= i <= stop && t == Strip(text[..i]) && AllDigits(t) && !done
      invariant k == |t| % 4 && dw == Partial(t) && got == Triples(t, |t| / 4)
      invariant Holds(out, n, size, got)
      invariant forall j :: n <= j < out.Length ==> out[j] == old(out[j])
    {
      var v := Value(text[i]);
      ghost var before := out[..];
      HoldsAll(out, n, size, got);
      if i < stop { BeforeStop(text, i, stop); }
      if v == SPACE {
        i := i + 1;
        continue;
      }
      if v != END {
        if k == 3 { FourthDigit(t, text[i]); } else { EarlierDigit(t, text[i]); }
        dw := dw * 64 + v;
        k := k + 1;
      }
      if k == 4 || v == END {
        dw := dw * Lift(k);
        k := k * 3 / 4;
        var n0 := n;
        n := PutBytes(out, n, size, dw, k);
        if v == END {
          LeftoverBytes(t);
          HoldsMore(before, out, n0, n, size, got, Leftover(t));
          DecodedEnds(text, t);
          done := true;
          break;
        }
        HoldsMore(before, out, n0, n, size, got, [ByteOf(dw, 0), ByteOf(dw, 1), ByteOf(dw, 2)]);
        NewGroup(t + [text[i]]);
        k := 0;
        dw := 0;
      }
      t := t + [text[i]];
      got := Triples(t, |t| / 4);
      i := i + 1;
    }
    if !done { HoldsEnough(text, out, n, size, t, i, stop); }
  }

  lemma NothingDecoded(text: string, out: array<Byte>, size: nat)
    requires size <= out.Length
    ensures Strip(text[..0]) == "" && AllDigits("") && Partial("") == 0 && Triples("", 0) == []
    ensures Holds(out, 0, size, [])
  {
    assert out[..0] == [];
  }

  lemma HoldsAll(out: array<Byte>, n: nat, size: nat, got: seq<Byte>)
    requires Holds(out, n, size, got) && n < size
    ensures n == |got| && n <= out.Length && out[..n] == got
  {
  }

  lemma BeforeStop(text: string, i: nat, stop: nat)
    requires i < stop && DigitsUpTo(text, stop)
    ensures Value(text[i]) == SPACE || Value(text[i]) >= 0
    ensures Strip(text[..i + 1]) == Strip(text[..i]) + if Value(text[i]) == SPACE then "" else [text[i]]
    ensures AllDigits(Strip(text[..i + 1]))
  {
    hide Value;
    StripGrows(text, i);
    var u := text[..stop];
    StripPrefix(u, i + 1);
    assert u[..i + 1] == text[..i + 1];
    var t := Strip(text[..i + 1]);
    assert forall j :: 0 <= j < |t| ==> Value(t[j]) == Value(Strip(u)[j]);
    assert Value(text[i]) != SPACE ==> t[|t| - 1] == text[i];
  }

  lemma DecodedEnds(text: string, t: string)
    requires Clean(Strip(text)) && Ended(text) && t == Body(text)
    ensures Decoded(text) == Triples(t, |t| / 4) + Leftover(t)
  {
  }

  lemma NewGroup(t: string)
    requires AllDigits(t) && |t| % 4 == 0
    ensures Partial(t) == 0
  {
  }

  /** The pass stopped because the text or the buffer is exhausted. */
  lemma HoldsEnough(text: string, out: array<Byte>, n: nat, size: nat, t: string, i: nat, stop: nat)
    requires Clean(Strip(text)) && i <= stop && DigitsUpTo(text, stop) && Body(text) == Strip(text[..stop])
    requires (Ended(text) <==> stop < |text|) && t == Strip(text[..i]) && AllDigits(t)
    requires Holds(out, n, size, Triples(t, |t| / 4)) && (i == |text| || n >= size)
    ensures Holds(out, n, size, Decoded(text))
  {
    hide Value, Strip, Clean, Leftover, Partial, AllDigits, Triples;
    var u := text[..stop];
    StripPrefix(u, i);
    assert u[..i] == text[..i];
    BytesSoFar(text, t);
  }

  /** Two digits without '=': one byte is counted where no group is complete. */
  lemma CountWrong()
    ensures Clean(Strip("AA")) && Body("AA") == "AA" && !Ended("AA") && Decoded("AA") == []
    ensures 3 * |Body("AA")| % W32 / 4 == 1
  {
    assert Value('A') == 0;
    hide Value, Strip, EndAt, Leftover;
    StripIdentity("AA");
    PrefixDecides("AA", "AA");
  }

  /** Without a buffer: the number of bytes by the digit count, which is right unless the
      count is too large for the word or an incomplete group is not ended by '='.  With a
      buffer: as many of the bytes as it takes.  Either way -1 for a text with a character
      that is no base64 before its end. */
  method Decode(data: string, length: int, out: array?<Byte>, size: nat) returns (r: int)
    requires SizeOk(data, length, '\0') && (out != null ==> size <= out.Length)
    modifies out
    ensures r == -1 <==> !Clean(Strip(Given(data, length, '\0')))
    ensures r == -1 && out != null ==> out[..] == old(out[..])
    ensures r != -1 && out == null ==>
      var text := Given(data, length, '\0');
      r == |Decoded(text)| <==> 3 * |Body(text)| < W32 && (Ended(text) || |Body(text)| % 4 <= 1)
    ensures r != -1 && out != null ==>
      var bytes := Decoded(Given(data, length, '\0'));
      && r == (if size < |bytes| then size else |bytes|)
      && out[..r] == bytes[..r] && out[r..] == old(out[r..])
  {
    hide Value, Strip, Clean, Decoded, Body, Ended, Holds, Given, SizeOk;
    var len := Length(data, length, '\0');
    var text := data[..len];
    var ok, n;
    ghost var stop;
    ok, n, stop := CountDigits(text);
    if !ok { return -1; }
    if out == null {
      StripShrinks(text);
      DecodedLength(text);
      CountExact(n, Ended(text));
      return n * 3 % W32 / 4;
    }
    r := WriteBytes(text, out, size, stop);
    HoldsWhole(text, out, r, size);
  }

  lemma {:induction false} StripShrinks(text: string)
    ensures |Strip(text)| <= |text|
    ensures Clean(Strip(text)) ==> |Body(text)| <= |text|
  {
    hide Value, Clean;
    if text != "" {
      hide Body;
      StripShrinks(text[..|text| - 1]);
    }
    BodyShrinks(text);
  }

  lemma BodyShrinks(text: string)
    ensures Clean(Strip(text)) ==> |Body(text)| <= |Strip(text)|
  {
  }

  lemma HoldsWhole(text: string, out: array<Byte>, n: nat, size: nat)
    requires Clean(Strip(text)) && Holds(out, n, size, Decoded(text))
    ensures n == (if size < |Decoded(text)| then size else |Decoded(text)|)
    ensures n <= out.Length && out[..n] == Decoded(text)[..n]
  {
  }
}

/** What bytes a base64 text holds, and that encoding and decoding are inverse. */
module Base64Decode {
  import opened Base64Spec

  /** The text without spaces and line ends. */
  function Strip(s: string): string {
    if s == "" then ""
    else Strip(s[..|s| - 1]) + if Value(s[|s| - 1]) == SPACE then "" else [s[|s| - 1]]
  }

  /** The place of the first '=', or the length. */
  function EndAt(t: string): (e: nat)
    ensures e <= |t| && (e < |t| ==> Value(t[e]) == END)
    ensures forall i :: 0 <= i < e ==> Value(t[i]) != END
  {
    if t == "" then 0
    else
      var e := EndAt(t[..|t| - 1]);
      if e < |t| - 1 || Value(t[|t| - 1]) == END then e else |t|
  }

  predicate Clean(t: string) { forall i :: 0 <= i < EndAt(t) ==> Value(t[i]) != BAD }

  predicate AllDigits(t: string) { forall i :: 0 <= i < |t| ==> Value(t[i]) >= 0 }

  /** The first three bytes of four digits, as far as they go. */
  function Triple(a: int, b: int, c: int, d: int): (s: seq<Byte>)
    requires 0 <= a < 64 && 0 <= b < 64 && 0 <= c < 64 && 0 <= d < 64
    ensures |s| == 3
  {
    [a * 4 + b / 16, b % 16 * 16 + c / 4, c % 4 * 64 + d]
  }

  /** The bytes of the first k groups of four digits. */
  function Triples(t: string, k: nat): (s: seq<Byte>)
    requires AllDigits(t) && 4 * k <= |t|
    ensures |s| == 3 * k
  {
    if k == 0 then []
    else
      Triples(t, k - 1)
      + Triple(Value(t[4 * k - 4]), Value(t[4 * k - 3]), Value(t[4 * k - 2]), Value(t[4 * k - 1]))
  }

  /** The bytes of the incomplete group that '=' ends. */
  function Leftover(t: string): (s: seq<Byte>)
    requires AllDigits(t)
    ensures |s| == |t| % 4 * 3 / 4
  {
    var i := |t| - |t| % 4;
    if |t| % 4 == 2 then Triple(Value(t[i]), Value(t[i + 1]), 0, 0)[..1]
    else if |t| % 4 == 3 then Triple(Value(t[i]), Value(t[i + 1]), Value(t[i + 2]), 0)[..2]
    else []
  }

  predicate NoSpaces(t: string) { forall i :: 0 <= i < |t| ==> Value(t[i]) != SPACE }

  lemma {:induction false} StripHasNoSpaces(s: string)
    ensures NoSpaces(Strip(s))
  {
    if s != "" { StripHasNoSpaces(s[..|s| - 1]); }
  }

  lemma {:induction false} StripIdentity(t: string)
    requires NoSpaces(t)
    ensures Strip(t) == t
  {
    if t != "" { StripIdentity(t[..|t| - 1]); }
  }

  /** The digits before the end mark. */
  function Body(s: string): (t: string)
    requires Clean(Strip(s))
    ensures AllDigits(t)
  {
    StripHasNoSpaces(s);
    Strip(s)[..EndAt(Strip(s))]
  }

  predicate Ended(s: string) { EndAt(Strip(s)) < |Strip(s)| }

  function Decoded(s: string): seq<Byte>
    requires Clean(Strip(s))
  {
    Triples(Body(s), |Body(s)| / 4) + if Ended(s) then Leftover(Body(s)) else []
  }

  // ---- line ends do not matter -----------------------------------------------------------------

  lemma {:induction false} StripConcat(s: string, t: string)
    ensures Strip(s + t) == Strip(s) + Strip(t)
  {
    if t == "" {
      assert s + t == s;
    } else {
      assert (s + t)[..|s + t| - 1] == s + t[..|t| - 1];
      StripConcat(s, t[..|t| - 1]);
    }
  }

  lemma StripLineEnd(c: char)
    requires Value(c) != SPACE
    ensures Strip([c] + "\r\n") == [c] && Strip([c]) == [c]
  {
    assert ([c] + "\r\n")[..2] == [c] + "\r" && ([c] + "\r")[..1] == [c] && [c][..0] == "";
    assert Strip([c]) == Strip("") + [c];
    assert Strip([c] + "\r") == Strip([c]);
  }

  lemma FoldStep(t: string, w: nat)
    requires t != ""
    ensures Fold(t, w) == Fold(t[..|t| - 1], w)
                          + ([t[|t| - 1]] + if w > 0 && Column(|t|, w) == 0 then "\r\n" else "")
  {
  }

  lemma {:induction false} StripFold(t: string, w: nat)
    requires NoSpaces(t)
    ensures Strip(Fold(t, w)) == t
  {
    hide Strip, Value, Column;
    if t == "" {
      StripNothing();
    } else {
      var before, last := t[..|t| - 1], t[|t| - 1];
      var more := [last] + if w > 0 && Column(|t|, w) == 0 then "\r\n" else "";
      StripFold(before, w);
      FoldStep(t, w);
      StripConcat(Fold(before, w), more);
      StripLineEnd(last);
      assert [last] + "" == [last];
    }
  }

  lemma StripNothing()
    ensures Strip("") == ""
  {
  }

  // ---- encoding and decoding are inverse --------------------------------------------------------------

  /** A number put together from a quotient and a remainder comes apart again. */
  lemma Apart(q: int, r: int, m: int)
    requires m == 4 || m == 16 || m == 64
    requires 0 <= r < m
    ensures (q * m + r) / m == q && (q * m + r) % m == r
  {
  }

  lemma Together(x: int, m: int)
    requires m == 4 || m == 16 || m == 64
    ensures x / m * m + x % m == x && 0 <= x % m < m
  {
  }

  lemma ByteParts(x: Byte)
    ensures 0 <= x / 4 < 64 && 0 <= x / 16 < 16 && 0 <= x / 64 < 4
    ensures 0 <= x % 4 < 4 && 0 <= x % 16 < 16 && 0 <= x % 64 < 64
  {
  }

  lemma RejoinParts(a1: int, a0: int, b1: int, b0: int, c1: int, c0: int)
    requires 0 <= a1 < 64 && 0 <= a0 < 4 && 0 <= b1 < 16 && 0 <= b0 < 16 && 0 <= c1 < 4 && 0 <= c0 < 64
    ensures Triple(a1, a0 * 16 + b1, b0 * 4 + c1, c0) == [a1 * 4 + a0, b1 * 16 + b0, c1 * 64 + c0]
  {
    Apart(a0, b1, 16);
    Apart(b0, c1, 4);
  }

  /** Three bytes cut into six-bit pieces and put together again. */
  lemma Rejoin(a: Byte, b: Byte, c: Byte)
    ensures 0 <= a / 4 < 64 && 0 <= a % 4 * 16 + b / 16 < 64 && 0 <= b % 16 * 4 + c / 64 < 64 && 0 <= c % 64 < 64
    ensures Triple(a / 4, a % 4 * 16 + b / 16, b % 16 * 4 + c / 64, c % 64) == [a, b, c]
  {
    hide Triple;
    ByteParts(a);
    ByteParts(b);
    ByteParts(c);
    RejoinParts(a / 4, a % 4, b / 16, b % 16, c / 64, c % 64);
    Together(a, 4);
    Together(b, 16);
    Together(c, 64);
  }

  lemma QuadTriple(a: Byte, b: Byte, c: Byte)
    ensures var q := Quad(a, b, c);
      && Value(q[0]) >= 0 && Value(q[1]) >= 0 && Value(q[2]) >= 0 && Value(q[3]) >= 0
      && Triple(Value(q[0]), Value(q[1]), Value(q[2]), Value(q[3])) == [a, b, c]
  {
    hide Digit, Value, Triple;
    Rejoin(a, b, c);
    DigitValue(a / 4, 'A');
    DigitValue(a % 4 * 16 + b / 16, 'A');
    DigitValue(b % 16 * 4 + c / 64, 'A');
    DigitValue(c % 64, 'A');
  }

  lemma {:induction false} QuadsAt(raw: seq<Byte>, n: nat, k: nat)
    requires 3 * n <= |raw| && k < n
    ensures Quads(raw, n)[4 * k..4 * k + 4] == Quad(raw[3 * k], raw[3 * k + 1], raw[3 * k + 2])
  {
    hide Quad;
    if k < n - 1 {
      QuadsAt(raw, n - 1, k);
      assert Quads(raw, n)[4 * k..4 * k + 4] == Quads(raw, n - 1)[4 * k..4 * k + 4];
    }
  }

  lemma QuadsDigits(raw: seq<Byte>, n: nat)
    requires 3 * n <= |raw|
    ensures AllDigits(Quads(raw, n))
  {
    hide Quad, Value;
    forall i | 0 <= i < |Quads(raw, n)| ensures Value(Quads(raw, n)[i]) >= 0 {
      var k := i / 4;
      QuadsAt(raw, n, k);
      QuadTriple(raw[3 * k], raw[3 * k + 1], raw[3 * k + 2]);
      assert Quads(raw, n)[i] == Quads(raw, n)[4 * k..4 * k + 4][i - 4 * k];
    }
  }

  lemma FourOf(t: string, n: nat, m: nat)
    requires m + 4 <= n <= |t|
    ensures t[..n][m..m + 4] == [t[m], t[m + 1], t[m + 2], t[m + 3]]
  {
  }

  lemma {:induction false} TriplesOfQuads(raw: seq<Byte>, t: string, n: nat, k: nat)
    requires 3 * n <= |raw| && k <= n && AllDigits(t) && 4 * n <= |t| && t[..4 * n] == Quads(raw, n)
    ensures Triples(t, k) == raw[..3 * k]
  {
    hide Quad, Triple, Value;
    if k > 0 {
      TriplesOfQuads(raw, t, n, k - 1);
      QuadsAt(raw, n, k - 1);
      FourOf(t, 4 * n, 4 * k - 4);
      QuadTriple(raw[3 * k - 3], raw[3 * k - 2], raw[3 * k - 1]);
      assert raw[..3 * k] == raw[..3 * k - 3] + [raw[3 * k - 3], raw[3 * k - 2], raw[3 * k - 1]];
    }
  }

  /** The digits of the last, incomplete group, without its padding. */
  function LastDigits(raw: seq<Byte>): (s: string)
    ensures |s| == if |raw| % 3 == 0 then 0 else |raw| % 3 + 1
  {
    Padded(raw)[..if |raw| % 3 == 0 then 0 else |raw| % 3 + 1]
  }

  lemma LastDecodes(raw: seq<Byte>)
    ensures AllDigits(LastDigits(raw))
    ensures Leftover(LastDigits(raw)) == raw[|raw| - |raw| % 3..]
    ensures forall i :: |LastDigits(raw)| <= i < |Padded(raw)| ==> Padded(raw)[i] == '='
  {
    var i := |raw| - |raw| % 3;
    if |raw| % 3 == 1 {
      LastOne(raw[i], LastDigits(raw));
      assert raw[i..] == [raw[i]];
    } else if |raw| % 3 == 2 {
      LastTwo(raw[i], raw[i + 1], LastDigits(raw));
      assert raw[i..] == [raw[i], raw[i + 1]];
    }
  }

  lemma LastOne(a: Byte, t: string)
    requires t == [Digit(a / 4), Digit(a % 4 * 16)]
    ensures AllDigits(t) && Leftover(t) == [a]
  {
    hide Digit, Value, Triple;
    assert t[0] == Quad(a, 0, 0)[0] && t[1] == Quad(a, 0, 0)[1];
    QuadTriple(a, 0, 0);
    assert Value(Quad(a, 0, 0)[2]) == 0 && Value(Quad(a, 0, 0)[3]) == 0 by { DigitValue(0, 'A'); }
  }

  lemma LastTwo(a: Byte, b: Byte, t: string)
    requires t == [Digit(a / 4), Digit(a % 4 * 16 + b / 16), Digit(b % 16 * 4)]
    ensures AllDigits(t) && Leftover(t) == [a, b]
  {
    hide Digit, Value, Triple;
    assert t[0] == Quad(a, b, 0)[0] && t[1] == Quad(a, b, 0)[1] && t[2] == Quad(a, b, 0)[2];
    QuadTriple(a, b, 0);
    assert Value(Quad(a, b, 0)[3]) == 0 by { DigitValue(0, 'A'); }
  }

  // ---- the law --------------------------------------------------------------------------------------

  lemma EndOf(t: string, e: nat)
    requires e <= |t| && AllDigits(t[..e]) && (e < |t| ==> t[e] == '=')
    ensures EndAt(t) == e && Clean(t) && NoSpaces(t[..e])
  {
    forall i | 0 <= i < e ensures Value(t[i]) >= 0 { assert t[i] == t[..e][i]; }
    assert e < |t| ==> Value(t[e]) == END;
  }

  lemma LastIsPrefix(raw: seq<Byte>)
    ensures LastDigits(raw) <= Padded(raw)
  {
  }

  lemma DigitsJoin(t: string, u: string)
    requires AllDigits(t) && AllDigits(u)
    ensures AllDigits(t + u)
  {
    hide Value;
  }

  /** The digits of a buffer: whole groups, the incomplete group, and its padding. */
  lemma DigitsSplit(raw: seq<Byte>)
    ensures var m, t := |raw| / 3, Digits(raw);
      var e := 4 * m + |LastDigits(raw)|;
      && e <= |t| && t[..4 * m] == Quads(raw, m) && t[4 * m..e] == LastDigits(raw)
      && AllDigits(t[..e]) && (e < |t| <==> |raw| % 3 != 0)
      && forall i :: e <= i < |t| ==> t[i] == '='
  {
    hide Padded, Value, Quads, LastDigits, AllDigits, Leftover;
    var m, t := |raw| / 3, Digits(raw);
    var e := 4 * m + |LastDigits(raw)|;
    LastIsPrefix(raw);
    QuadsDigits(raw, m);
    LastDecodes(raw);
    assert t[..e] == Quads(raw, m) + LastDigits(raw);
    DigitsJoin(Quads(raw, m), LastDigits(raw));
    forall i | e <= i < |t| ensures t[i] == '=' { assert t[i] == Padded(raw)[i - 4 * m]; }
  }

  /** Decoding the text of any bytes, folded to lines of any width, gives the bytes back. */
  lemma RoundTrip(raw: seq<Byte>, w: nat)
    ensures Clean(Strip(Encoded(raw, w))) && Decoded(Encoded(raw, w)) == raw
    ensures Ended(Encoded(raw, w)) || |Body(Encoded(raw, w))| % 4 == 0
  {
    hide Padded, Value, Fold, Leftover, Triples, Strip, LastDigits, Digits;
    var m, t := |raw| / 3, Digits(raw);
    DigitsSplit(raw);
    var e := 4 * m + |LastDigits(raw)|;
    EndOf(t, e);
    assert NoSpaces(t) by { PaddedHasNoSpaces(t, e); }
    StripFold(t, w);
    var body := t[..e];
    assert Body(Encoded(raw, w)) == body;
    assert body[..4 * m] == t[..4 * m];
    assert |body| / 4 == m;
    TriplesOfQuads(raw, body, m, m);
    LastDecodes(raw);
    if |raw| % 3 != 0 {
      LeftoverOfTail(body, m, LastDigits(raw));
      assert raw == raw[..3 * m] + raw[3 * m..];
    } else {
      assert raw == raw[..3 * m];
    }
  }

  lemma PaddedHasNoSpaces(t: string, e: nat)
    requires e <= |t| && NoSpaces(t[..e]) && forall i :: e <= i < |t| ==> t[i] == '='
    ensures NoSpaces(t)
  {
    forall i | 0 <= i < |t| ensures Value(t[i]) != SPACE {
      if i < e { assert t[i] == t[..e][i]; }
    }
  }

  lemma LeftoverOfTail(t: string, m: nat, tail: string)
    requires |tail| < 4 && |t| == 4 * m + |tail| && t[4 * m..] == tail && AllDigits(t) && AllDigits(tail)
    ensures Leftover(t) == Leftover(tail)
  {
    hide Value, Triple;
    assert forall j :: 0 <= j < |tail| ==> t[4 * m + j] == tail[j];
  }
}

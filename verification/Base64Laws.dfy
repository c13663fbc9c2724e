/** Which text base64 is: the alphabet, the order of the bits, and where lines end. */
module Base64Laws {
  import opened Common
  import opened Base64Spec
  import opened Base64Decode

  const ALPHABET := "ABCDEFGHIJKLMNOPQRSTUVWXYZ" + "abcdefghijklmnopqrstuvwxyz" + "0123456789+/"

  /** Digit v is character v of the alphabet, and no other character is a digit. */
  lemma AlphabetMeans(v: int, c: char)
    requires 0 <= v < 64
    ensures |ALPHABET| == 64 && Digit(v) == ALPHABET[v]
    ensures Value(c) == v <==> c == ALPHABET[v]
    ensures Value(c) == END <==> c == '='
    ensures Value(c) == SPACE <==> c in " \t\r\n"
  {
    DigitValue(v, c);
    Alphabet(v);
  }

  lemma Alphabet(v: int)
    requires 0 <= v < 64
    ensures Digit(v) == ALPHABET[v]
  {
    if v < 26 {
      assert ALPHABET[v] == "ABCDEFGHIJKLMNOPQRSTUVWXYZ"[v];
    } else if v < 52 {
      assert ALPHABET[v] == "abcdefghijklmnopqrstuvwxyz"[v - 26];
    } else {
      assert ALPHABET[v] == "0123456789+/"[v - 52];
    }
  }

  /** Four digits as one number, the first the highest. */
  function Four(s: string): int
    requires |s| == 4
  {
    ((Value(s[0]) * 64 + Value(s[1])) * 64 + Value(s[2])) * 64 + Value(s[3])
  }

  /** Three bytes as one number, the first the highest. */
  function Three(a: int, b: int, c: int): int { (a * 256 + b) * 256 + c }

  /** Three bytes become four digits that spell the same number, high bits first. */
  lemma QuadMeans(a: Byte, b: Byte, c: Byte)
    ensures var s := Quad(a, b, c);
      && Value(s[0]) >= 0 && Value(s[1]) >= 0 && Value(s[2]) >= 0 && Value(s[3]) >= 0
      && Four(s) == Three(a, b, c)
  {
    hide Digit, Value;
    DigitValue(a / 4, 'A');
    DigitValue(a % 4 * 16 + b / 16, 'A');
    DigitValue(b % 16 * 4 + c / 64, 'A');
    DigitValue(c % 64, 'A');
    Split(a, 4);
    Split(b, 16);
    Split(c, 64);
  }

  lemma Split(v: int, m: int)
    requires m > 0
    ensures v == m * (v / m) + v % m
  {
  }

  /** Four digits become the three bytes of the number they spell, high bits first. */
  lemma TripleMeans(a: int, b: int, c: int, d: int)
    requires 0 <= a < 64 && 0 <= b < 64 && 0 <= c < 64 && 0 <= d < 64
    ensures var s := Triple(a, b, c, d);
      Three(s[0], s[1], s[2]) == ((a * 64 + b) * 64 + c) * 64 + d
  {
    Split(b, 16);
    Split(c, 4);
  }

  /** What is left over is encoded as if zeros followed, and '=' stands for the digits that hold
      none of it. */
  lemma PaddedMeans(raw: seq<Byte>)
    ensures var n, s := |raw|, Padded(raw);
      && (n % 3 == 0 ==> s == "")
      && (n % 3 == 1 ==> s == Quad(raw[n - 1], 0, 0)[..2] + "==")
      && (n % 3 == 2 ==> s == Quad(raw[n - 2], raw[n - 1], 0)[..3] + "=")
  {
  }

  /** Digits 4k to 4k + 3 of a text are those of the triple from byte 3k on. */
  lemma DigitsAt(raw: seq<Byte>, k: nat)
    requires 3 * k + 3 <= |raw|
    ensures Digits(raw)[4 * k..4 * k + 4] == Quad(raw[3 * k], raw[3 * k + 1], raw[3 * k + 2])
  {
    hide Quad, Padded;
    QuadsAt(raw, |raw| / 3, k);
    var q := Quads(raw, |raw| / 3);
    assert (q + Padded(raw))[4 * k..4 * k + 4] == q[4 * k..4 * k + 4];
  }

  // ---- lines -----------------------------------------------------------------------------------

  /** The text as whole lines of w characters, each ended by CR LF, and a last one that is not full. */
  function InLines(s: string, w: nat): string
    requires w > 0
    decreases |s|
  {
    if |s| < w then s else s[..w] + "\r\n" + InLines(s[w..], w)
  }

  lemma {:induction false} FoldWhole(s: string, w: nat, t: string)
    requires w > 0 && |s| % w == 0
    ensures Fold(s + t, w) == Fold(s, w) + Fold(t, w)
  {
    if t == "" {
      assert s + t == s;
    } else {
      var u := t[..|t| - 1];
      assert (s + t)[..|s + t| - 1] == s + u;
      FoldWhole(s, w, u);
      ColumnShifts(|s|, |t|, w);
      FoldLast(s + t, w);
      FoldLast(t, w);
    }
  }

  function LineEnd(n: nat, w: nat): string
    requires w > 0
  {
    if Column(n, w) == 0 then "\r\n" else ""
  }

  lemma FoldLast(s: string, w: nat)
    requires s != "" && w > 0
    ensures Fold(s, w) == Fold(s[..|s| - 1], w) + ([s[|s| - 1]] + LineEnd(|s|, w))
  {
  }

  lemma {:induction false} ColumnShifts(m: nat, n: nat, w: nat)
    requires w > 0 && m % w == 0
    ensures Column(m + n, w) == Column(n, w)
  {
    if n == 0 { ColumnMod(m, w); } else { ColumnShifts(m, n - 1, w); }
  }

  lemma {:induction false} ColumnMod(m: nat, w: nat)
    requires w > 0
    ensures m % w == 0 ==> Column(m, w) == 0
  {
    LinesAreQuotient(m, w);
    Split(m, w);
  }

  lemma {:induction false} ColumnSmall(n: nat, w: nat)
    requires n <= w && w > 0
    ensures Column(n, w) == if n < w then n else 0
  {
    if n > 0 { ColumnSmall(n - 1, w); }
  }

  lemma {:induction false} FoldShort(s: string, w: nat)
    requires w > 0 && |s| <= w
    ensures Fold(s, w) == s + if |s| == w then "\r\n" else ""
  {
    if s != "" {
      var u := s[..|s| - 1];
      FoldShort(u, w);
      FoldLast(s, w);
      ColumnSmall(|s|, w);
      assert s == u + [s[|s| - 1]];
    }
  }

  /** Folding makes such lines; with width 0 there are none. */
  lemma {:induction false} FoldMeans(s: string, w: nat)
    ensures w > 0 ==> Fold(s, w) == InLines(s, w)
    ensures w == 0 ==> Fold(s, w) == s
    decreases |s|
  {
    if w == 0 {
      if s != "" {
        FoldMeans(s[..|s| - 1], w);
        assert s == s[..|s| - 1] + [s[|s| - 1]];
      }
    } else if |s| < w {
      FoldShort(s, w);
      assert s + "" == s;
    } else {
      FoldMeans(s[w..], w);
      FoldShort(s[..w], w);
      FoldWhole(s[..w], w, s[w..]);
      assert s[..w] + s[w..] == s;
    }
  }
}

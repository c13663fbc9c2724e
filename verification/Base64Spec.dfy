/** Base64 with folded lines: what the text of given bytes is, and what bytes a text holds. */
module Base64Spec {
  import opened Common

  type Byte = b: int | 0 <= b < 256

  const W32: int := 0x1_0000_0000

  const BAD: int := -1
  const SPACE: int := -2
  const END: int := -3

  // ---- the alphabet --------------------------------------------------------------------------

  /** The character of a six-bit value. */
  function Digit(v: int): char
    requires 0 <= v < 64
  {
    if v < 26 then ('A' as int + v) as char
    else if v < 52 then ('a' as int + (v - 26)) as char
    else if v < 62 then ('0' as int + (v - 52)) as char
    else if v == 62 then '+' else '/'
  }

  /** The class of a character: its value, or BAD, SPACE or END. */
  function Value(c: char): (v: int)
    ensures BAD == v || SPACE == v || END == v || 0 <= v < 64
  {
    if 'A' <= c <= 'Z' then c as int - 'A' as int
    else if 'a' <= c <= 'z' then c as int - 'a' as int + 26
    else if '0' <= c <= '9' then c as int - '0' as int + 52
    else if c == '+' then 62
    else if c == '/' then 63
    else if c == '=' then END
    else if c == ' ' || c == '\t' || c == '\n' || c == '\r' then SPACE
    else BAD
  }

  /** The two tables are inverse to each other. */
  lemma DigitValue(v: int, c: char)
    requires 0 <= v < 64
    ensures Value(Digit(v)) == v
    ensures Value(c) == v ==> Digit(v) == c
  {
  }

  // ---- encoding --------------------------------------------------------------------------------

  /** Three bytes as four digits. */
  function Quad(a: Byte, b: Byte, c: Byte): (s: string)
    ensures |s| == 4
  {
    [Digit(a / 4), Digit(a % 4 * 16 + b / 16), Digit(b % 16 * 4 + c / 64), Digit(c % 64)]
  }

  /** The first k triples of a buffer. */
  function Quads(raw: seq<Byte>, k: nat): (s: string)
    requires 3 * k <= |raw|
    ensures |s| == 4 * k
  {
    if k == 0 then "" else Quads(raw, k - 1) + Quad(raw[3 * k - 3], raw[3 * k - 2], raw[3 * k - 1])
  }

  /** The one or two bytes left over, padded. */
  function Padded(raw: seq<Byte>): (s: string)
    ensures |s| == if |raw| % 3 == 0 then 0 else 4
  {
    var i := |raw| - |raw| % 3;
    if |raw| % 3 == 1 then [Digit(raw[i] / 4), Digit(raw[i] % 4 * 16), '=', '=']
    else if |raw| % 3 == 2 then
      [Digit(raw[i] / 4), Digit(raw[i] % 4 * 16 + raw[i + 1] / 16), Digit(raw[i + 1] % 16 * 4), '=']
    else ""
  }

  function Digits(raw: seq<Byte>): (s: string)
    ensures |s| == (|raw| + 2) / 3 * 4
  {
    Quads(raw, |raw| / 3) + Padded(raw)
  }

  /** Characters on the current line after n of them, on lines of w. */
  function Column(n: nat, w: nat): (c: nat)
    requires w > 0
    ensures c < w
  {
    if n == 0 then 0 else if Column(n - 1, w) + 1 < w then Column(n - 1, w) + 1 else 0
  }

  /** Line ends after n characters. */
  function Lines(n: nat, w: nat): nat
    requires w > 0
  {
    if n == 0 then 0 else Lines(n - 1, w) + if Column(n, w) == 0 then 1 else 0
  }

  lemma {:induction false} LinesAreQuotient(n: nat, w: nat)
    requires w > 0
    ensures n == w * Lines(n, w) + Column(n, w) && Lines(n, w) == n / w
  {
    if n > 0 {
      LinesAreQuotient(n - 1, w);
      assert w * (Lines(n - 1, w) + 1) == w * Lines(n - 1, w) + w;
    }
    QuotientUnique(n, w, Lines(n, w), Column(n, w));
  }

  lemma QuotientUnique(n: nat, w: nat, q: nat, r: nat)
    requires w > 0 && n == w * q + r && r < w
    ensures q == n / w
  {
    var p := n / w;
    if p < q { MulMonotone(p + 1, q, w); } else if q < p { MulMonotone(q + 1, p, w); }
  }

  /** The text with CR LF after every w characters; w = 0 means no lines. */
  function Fold(s: string, w: nat): string {
    if s == "" then ""
    else Fold(s[..|s| - 1], w) + [s[|s| - 1]] + (if w > 0 && Column(|s|, w) == 0 then "\r\n" else "")
  }

  lemma {:induction false} FoldLines(s: string, w: nat)
    ensures |Fold(s, w)| == |s| + if w == 0 then 0 else 2 * Lines(|s|, w)
  {
    if s != "" { FoldLines(s[..|s| - 1], w); }
  }

  /** The number of whole lines in n characters. */
  function WholeLines(n: nat, w: nat): nat
    requires w > 0
  {
    n / w
  }

  lemma FoldLength(s: string, w: nat)
    ensures |Fold(s, w)| == |s| + if w == 0 then 0 else 2 * WholeLines(|s|, w)
  {
    FoldLines(s, w);
    if w > 0 { LinesAreQuotient(|s|, w); }
  }

  function Encoded(raw: seq<Byte>, w: nat): string { Fold(Digits(raw), w) }

  /** A character count with its line ends as the measuring pass adds them, in 32 bits. */
  function MeasuredLines(chars: nat, w: nat): int
    requires w > 0
  {
    (chars + ((chars + w) % W32 / w - 1) % W32 * 2) % W32
  }

  /** What the measuring pass computes. */
  function Measured(n: nat, w: nat): int {
    var chars := (n / 3 * 4 + if n % 3 != 0 then 4 else 0) % W32;
    if w == 0 then chars else MeasuredLines(chars, w)
  }

  lemma WrapSmall(v: int)
    requires 0 <= v < W32
    ensures v % W32 == v
  {
  }

  lemma QuotientSmall(n: nat, w: nat)
    requires w > 0
    ensures n / w <= n && (n + w) / w == n / w + 1
  {
    var q, r := n / w, n % w;
    MulMonotone(1, w, q);
    ShiftedQuotient(n, w, q, r);
  }

  lemma ShiftedQuotient(n: nat, w: nat, q: nat, r: nat)
    requires w > 0 && n == w * q + r && r < w
    ensures (n + w) / w == q + 1
  {
    assert w * (q + 1) == w * q + w;
    QuotientUnique(n + w, w, q + 1, r);
  }

  lemma MeasureInRange(chars: nat, w: nat)
    requires w > 0 && chars + w < W32 && chars + 2 * (chars / w) < W32
    ensures MeasuredLines(chars, w) == chars + 2 * (chars / w)
  {
    QuotientSmall(chars, w);
    WrapSmall(chars + w);
    WrapSmall(chars / w);
    WrapSmall(chars + 2 * (chars / w));
  }

  lemma MeasureOutOfRange(chars: nat, w: nat)
    requires 0 < w < W32 && chars < W32 <= chars + w
    ensures MeasuredLines(chars, w) == (chars - 2) % W32
  {
    var x := chars + w - W32;
    assert (chars + w) % W32 == x;
    assert x / w == 0 by { QuotientUnique(x, w, 0, x); }
    assert (0 - 1) % W32 == W32 - 1;
    assert chars + (W32 - 1) * 2 == chars - 2 + W32 * 2;
  }

  /** A count that wraps is never the right one. */
  lemma MeasureWrong(chars: nat, lines: nat)
    requires chars + 2 * lines < W32 && lines <= chars
    ensures (chars - 2) % W32 != chars + 2 * lines
  {
  }

  lemma MeasureDecides(chars: nat, w: nat)
    requires 0 < w < W32 && chars + 2 * WholeLines(chars, w) < W32
    ensures MeasuredLines(chars, w) == chars + 2 * WholeLines(chars, w) <==> chars + w < W32
  {
    hide MeasuredLines;
    QuotientSmall(chars, w);
    if chars + w < W32 {
      MeasureInRange(chars, w);
    } else {
      MeasureOutOfRange(chars, w);
      MeasureWrong(chars, chars / w);
    }
  }

  lemma MeasuredIs(n: nat, w: nat, chars: nat)
    requires chars == (n + 2) / 3 * 4 < W32
    ensures Measured(n, w) == if w == 0 then chars else MeasuredLines(chars, w)
  {
    assert n / 3 * 4 + (if n % 3 != 0 then 4 else 0) == chars;
    WrapSmall(chars);
  }

  lemma MeasuredFits(n: nat, w: nat)
    ensures 0 <= Measured(n, w) < W32
  {
  }

  /** The measured length is the written one exactly when that fits the word and the line
      width, added to the character count, does not leave the 32-bit range either. */
  lemma MeasureExact(raw: seq<Byte>, w: nat)
    requires |raw| < W32 && w < W32
    ensures Measured(|raw|, w) == |Encoded(raw, w)|
       <==> |Encoded(raw, w)| < W32 && (w == 0 || |Digits(raw)| + w < W32)
  {
    hide Digits, Fold, MeasuredLines, Measured, WholeLines;
    var chars := |Digits(raw)|;
    FoldLength(Digits(raw), w);
    MeasuredFits(|raw|, w);
    if |Encoded(raw, w)| < W32 {
      MeasuredIs(|raw|, w, chars);
      if w > 0 { MeasureDecides(chars, w); }
    }
  }

  /** One byte on lines of 2^32 - 1 characters: two characters are measured and four written. */
  lemma MeasureWraps()
    ensures Measured(1, W32 - 1) == 2 && |Encoded([0], W32 - 1)| == 4
  {
    FoldLength(Digits([0]), W32 - 1);
  }

  // ---- lengths ---------------------------------------------------------------------------------

  /** The place of the first z. */
  function UpTo<T(==)>(s: seq<T>, z: T): (k: nat)
    requires z in s
    ensures k < |s| && s[k] == z && z !in s[..k]
  {
    if s[0] == z then 0 else 1 + UpTo(s[1..], z)
  }

  predicate SizeOk<T(==)>(data: seq<T>, size: int, z: T) {
    if size == -1 then z in data && UpTo(data, z) < W32 - 1 else 0 <= size <= |data| && size < W32 - 1
  }

  /** What the caller hands over: `size` elements, or with size -1 those before the terminator z. */
  function Given<T(==)>(data: seq<T>, size: int, z: T): (s: seq<T>)
    requires SizeOk(data, size, z)
    ensures |s| < W32 - 1
  {
    data[..if size == -1 then UpTo(data, z) else size]
  }

  method Length<T(==)>(data: seq<T>, size: int, z: T) returns (n: nat)
    requires SizeOk(data, size, z)
    ensures n <= |data| && data[..n] == Given(data, size, z)
  {
    if size != -1 { return size; }
    n := 0;
    while data[n] != z
      invariant n <= UpTo(data, z)
      decreases |data| - n
    {
      n := n + 1;
    }
    assert forall k :: 0 <= k < UpTo(data, z) ==> data[k] == data[..UpTo(data, z)][k];
  }
}

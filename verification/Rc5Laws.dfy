/** RC5 against the recurrences it is defined by, after RFC 2040. */
module Rc5Laws {
  import opened Common
  import opened Zes
  import opened ZesLaws
  import opened Rc5
  import opened Rc5Key

  // ---- rotations ---------------------------------------------------------------------------------

  lemma LeftBit(w: bv32, i: bv32)
    ensures Bit(Left1(w), i) == Bit(w, i - 1)
  {
  }

  lemma OneFurther(a: bv32, n: bv32, i: bv32)
    ensures Bit(a, i - 1 - (n - 1)) == Bit(a, i - n)
  {
  }

  lemma {:induction false} TurnBits(a: bv32, n: bv32, i: bv32)
    requires n <= 31
    ensures Bit(ShiftsL(a, n), i) == Bit(a, i - n)
    decreases n
  {
    hide ShiftsL, Bit;
    if n == 0 {
      TurnNone(a, n, i);
    } else {
      TurnBits(a, n - 1, i - 1);
      TurnStep(a, n, i);
    }
  }

  lemma TurnStep(a: bv32, n: bv32, i: bv32)
    requires 1 <= n <= 31 && Bit(ShiftsL(a, n - 1), i - 1) == Bit(a, i - 1 - (n - 1))
    ensures Bit(ShiftsL(a, n), i) == Bit(a, i - n)
  {
    hide ShiftsL, Left1, Bit;
    LeftStep(a, n);
    LeftBit(ShiftsL(a, n - 1), i);
    OneFurther(a, n, i);
  }

  lemma TurnNone(a: bv32, n: bv32, i: bv32)
    requires n == 0
    ensures Bit(ShiftsL(a, n), i) == Bit(a, i - n)
  {
  }

  /** A rotation to the left by n moves every bit n places up, around the word. */
  lemma RotateBits(a: bv32, n: bv32, i: bv32)
    ensures Bit(RotateL(a, n), i) == Bit(a, i - n)
  {
    TurnBits(a, Amount(n), i);
    AmountBack(a, n, i);
  }

  lemma AmountBack(a: bv32, n: bv32, i: bv32)
    ensures Bit(a, i - Amount(n)) == Bit(a, i - n)
  {
  }

  // ---- the rounds ----------------------------------------------------------------------------------

  /** The words of the cipher in the order they arise: each is the one before the last, mixed with
      the last and turned by it, plus a word of the table. */
  function Step(x: Block, s: seq<bv32>, k: nat): bv32
    requires k < |s|
  {
    if k == 0 then Plus(x.a, s[0])
    else if k == 1 then Plus(x.b, s[1])
    else Plus(RotateL(Xor(Step(x, s, k - 2), Step(x, s, k - 1)), Step(x, s, k - 1)), s[k])
  }

  /** After n rounds the block holds words 2n and 2n + 1. */
  lemma {:induction false} RoundsAreSteps(x: Block, s: seq<bv32>, n: nat)
    requires |s| >= 2 * n + 2
    ensures Forth(x, s, n) == Block(Step(x, s, 2 * n), Step(x, s, 2 * n + 1))
  {
    hide RotateL, Plus, Xor;
    if n > 0 { RoundsAreSteps(x, s, n - 1); }
  }

  /** Encryption gives the words of 8, 12 or 16 rounds: of 12 and 16 as many as asked. */
  lemma EncryptMeans(x: Block, s: seq<bv32>, rounds: int)
    requires |s| == 34
    ensures var n := if rounds == 12 || rounds == 16 then rounds else 8;
      Encrypt(x, s, rounds) == Block(Step(x, s, 2 * n), Step(x, s, 2 * n + 1))
  {
    hide Step, Forth;
    RoundsAreSteps(x, s, Double(rounds));
  }

  /** The cipher performs the rounds its key was made for. */
  lemma RoundsAgree(rounds: int)
    ensures var n := UsedRounds(rounds); Double(n) == n && (n == rounds || (n == 16 && rounds !in {8, 12, 16}))
  {
  }

  // ---- the constants ---------------------------------------------------------------------------------

  function Factorial(n: nat): nat { if n == 0 then 1 else n * Factorial(n - 1) }

  /** n! times the sum of 1/k! for k from 2 to n. */
  function SumFactorials(n: nat): nat { if n < 2 then 0 else n * SumFactorials(n - 1) + 1 }

  /** Q is the odd integer nearest (golden ratio - 1) * 2^32: that number x solves
      x * x + 2^32 * x = 2^64. */
  lemma QIsGolden()
    ensures var q, w := 0x9E3779B9, 0x1_0000_0000;
      q % 2 == 1 && (q - 1) * (q - 1) + w * (q - 1) < w * w < (q + 1) * (q + 1) + w * (q + 1)
    ensures Q32 == 0x9E3779B9
  {
  }

  /** P is the odd integer nearest (e - 2) * 2^32: e - 2 is the sum of 1/k! from k = 2 on, and what
      is left of the sum after 14 terms is less than 1/14!. */
  lemma PIsEuler()
    ensures var p, w := 0xB7E15163, 0x1_0000_0000;
      && p % 2 == 1 && (p - 1) * Factorial(14) < SumFactorials(14) * w
      && (SumFactorials(14) + 1) * w < (p + 1) * Factorial(14)
    ensures P32 == 0xB7E15163
  {
    assert Factorial(4) == 24;
    assert Factorial(8) == 40320;
    assert Factorial(11) == 39916800;
    assert Factorial(14) == 87178291200;
    assert SumFactorials(4) == 17;
    assert SumFactorials(8) == 28961;
    assert SumFactorials(11) == 28671512;
    assert SumFactorials(14) == 62618582405;
  }

  // ---- the key table -----------------------------------------------------------------------------------

  datatype Pair = Pair(a: bv32, b: bv32)

  /** What step n of the mixing finds in the table: the progression at first, then what was left
      there one turn of the wheel before. */
  function Found(init: seq<bv32>, l: seq<bv32>, n: nat): bv32
    requires |init| >= 1 && |l| >= 1
    decreases 2 * n + 1
  {
    if n < |init| then init[n] else Made(init, l, n + 1 - |init|).a
  }

  function FoundKey(init: seq<bv32>, l: seq<bv32>, n: nat): bv32
    requires |init| >= 1 && |l| >= 1
    decreases 2 * n + 1
  {
    if n < |l| then l[n] else Made(init, l, n + 1 - |l|).b
  }

  /** The two words after n steps. */
  function Made(init: seq<bv32>, l: seq<bv32>, n: nat): Pair
    requires |init| >= 1 && |l| >= 1
    decreases 2 * n
  {
    if n == 0 then Pair(0, 0)
    else
      var p := Made(init, l, n - 1);
      var a := RotateL(Plus(Plus(Found(init, l, n - 1), p.a), p.b), 3);
      Pair(a, RotateL(Plus(Plus(FoundKey(init, l, n - 1), a), p.b), Plus(a, p.b)))
  }

  /** Where the mixing stands after n steps from the start: the words, and in each place what the
      last step there left. */
  ghost predicate Mixed(init: seq<bv32>, l: seq<bv32>, n: nat, m: Mix)
    requires |init| >= 1 && |l| >= 1
  {
    && m.Valid() && |m.s| == |init| && |m.l| == |l| && m.ii <= n && m.jj <= n
    && Pair(m.a, m.b) == Made(init, l, n)
    && (forall i :: 0 <= i < |init| ==> m.s[i] == Found(init, l, n - m.ii + i + if i < m.ii then |init| else 0))
    && (forall j :: 0 <= j < |l| ==> m.l[j] == FoundKey(init, l, n - m.jj + j + if j < m.jj then |l| else 0))
  }

  lemma MixedStep(init: seq<bv32>, l: seq<bv32>, n: nat, m: Mix)
    requires |init| >= 1 && |l| >= 1 && Mixed(init, l, n, m)
    ensures Mixed(init, l, n + 1, MixOnce(m))
  {
    hide Plus, RotateL;
    var r, t, c := MixOnce(m), |init|, |l|;
    assert m.s[m.ii] == Found(init, l, n) && m.l[m.jj] == FoundKey(init, l, n);
    assert Pair(r.a, r.b) == Made(init, l, n + 1);
    assert Found(init, l, n + t) == r.a && FoundKey(init, l, n + c) == r.b;
  }

  /** The mixing steps and the recurrence agree, over any number of steps: every place of both
      tables is visited in turn and holds what its last visit left. */
  lemma {:induction false} MixMeans(init: seq<bv32>, l: seq<bv32>, n: nat)
    requires |init| >= 1 && |l| >= 1
    ensures Mixed(init, l, n, MixTimes(Mix(init, l, 0, 0, 0, 0), n))
  {
    hide MixOnce, Mixed;
    if n == 0 {
      MixedStart(init, l);
    } else {
      MixMeans(init, l, n - 1);
      MixedStep(init, l, n - 1, MixTimes(Mix(init, l, 0, 0, 0, 0), n - 1));
    }
  }

  lemma MixedStart(init: seq<bv32>, l: seq<bv32>)
    requires |init| >= 1 && |l| >= 1
    ensures Mixed(init, l, 0, MixTimes(Mix(init, l, 0, 0, 0, 0), 0))
  {
  }

  /** The table of a key is where the mixing stands after three turns of the longer wheel, begun
      from the progression and the words of the key. */
  lemma KeyTableMeans(key: seq<bv8>, rounds: nat) returns (m: Mix)
    requires |key| >= 1
    ensures var t, c := 2 * (rounds + 1), (|key| + 3) / 4;
      KeyTable(key, rounds) == m.s && Mixed(InitTable(t), KeyWords(key), 3 * if t > c then t else c, m)
  {
    hide MixTimes, Mixed;
    var t, c := 2 * (rounds + 1), (|key| + 3) / 4;
    m := MixTimes(Mix(InitTable(t), KeyWords(key), 0, 0, 0, 0), 3 * Max(t, c));
    MixMeans(InitTable(t), KeyWords(key), 3 * Max(t, c));
  }
}

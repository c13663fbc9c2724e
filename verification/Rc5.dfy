/** RC5 with 32-bit words, after RFC 2040: rotation amounts are taken modulo 32. */
module Rc5 {
  import opened Zes

  const P32: bv32 := 0xB7E15163
  const Q32: bv32 := 0x9E3779B9

  // ---- word operations -----------------------------------------------------------------------

  function Plus(a: bv32, b: bv32): bv32 { a + b }

  function Minus(a: bv32, b: bv32): bv32 { a - b }

  function Xor(a: bv32, b: bv32): bv32 { a ^ b }

  function Shl(a: bv32, n: bv32): bv32
    requires n <= 32
  {
    a << n
  }

  function Shr(a: bv32, n: bv32): bv32
    requires n <= 32
  {
    a >> n
  }

  lemma PlusMinus(a: bv32, s: bv32)
    ensures Minus(Plus(a, s), s) == a && Plus(Minus(a, s), s) == a
  {
    calc {
      Minus(Plus(a, s), s);
      Minus(a + s, s);
      (a + s) - s;
      a;
    }
    calc {
      Plus(Minus(a, s), s);
      Plus(a - s, s);
      (a - s) + s;
      a;
    }
  }

  lemma XorXor(a: bv32, t: bv32)
    ensures Xor(Xor(a, t), t) == a
  {
  }

  // ---- rotations ---------------------------------------------------------------------------

  function Left1(a: bv32): bv32 { (a << 1) | (a >> 31) }

  function Right1(a: bv32): bv32 { (a >> 1) | (a << 31) }

  function ShiftsL(a: bv32, n: bv32): bv32
    requires n <= 31
  {
    Shl(a, n) | Shr(a, 32 - n)
  }

  function ShiftsR(a: bv32, n: bv32): bv32
    requires n <= 31
  {
    Shr(a, n) | Shl(a, 32 - n)
  }

  function Amount(n: bv32): (k: bv32)
    ensures k <= 31
  {
    n & 31
  }

  function RotateL(a: bv32, n: bv32): bv32 { ShiftsL(a, Amount(n)) }

  function RotateR(a: bv32, n: bv32): bv32 { ShiftsR(a, Amount(n)) }

  lemma LeftParts(a: bv32, n: bv32)
    requires 1 <= n <= 31
    ensures Shl(a, n) == Shl(a, n - 1) << 1
    ensures Shr(a, 33 - n) >> 31 == 0
  {
  }

  lemma LeftCarry(a: bv32, n: bv32)
    requires 1 <= n <= 31
    ensures Shr(a, 32 - n) == (Shr(a, 33 - n) << 1) | (Shl(a, n - 1) >> 31)
  {
  }

  lemma LeftJoin(x: bv32, y: bv32)
    requires y >> 31 == 0
    ensures Left1(x | y) == (x << 1) | ((y << 1) | (x >> 31))
  {
  }

  lemma LeftStep(a: bv32, n: bv32)
    requires 1 <= n <= 31
    ensures ShiftsL(a, n) == Left1(ShiftsL(a, n - 1))
  {
    hide Shl, Shr;
    LeftParts(a, n);
    LeftCarry(a, n);
    LeftJoin(Shl(a, n - 1), Shr(a, 33 - n));
    assert 32 - (n - 1) == 33 - n;
  }

  lemma RightParts(a: bv32, n: bv32)
    requires 1 <= n <= 31
    ensures Shr(a, n) == Shr(a, n - 1) >> 1
    ensures Shl(a, 33 - n) << 31 == 0
  {
  }

  lemma RightCarry(a: bv32, n: bv32)
    requires 1 <= n <= 31
    ensures Shl(a, 32 - n) == (Shl(a, 33 - n) >> 1) | (Shr(a, n - 1) << 31)
  {
  }

  lemma RightJoin(x: bv32, y: bv32)
    requires y << 31 == 0
    ensures Right1(x | y) == (x >> 1) | ((y >> 1) | (x << 31))
  {
  }

  lemma RightStep(a: bv32, n: bv32)
    requires 1 <= n <= 31
    ensures ShiftsR(a, n) == Right1(ShiftsR(a, n - 1))
  {
    hide Shl, Shr;
    RightParts(a, n);
    RightCarry(a, n);
    RightJoin(Shr(a, n - 1), Shl(a, 33 - n));
    assert 32 - (n - 1) == 33 - n;
  }

  /** A rotation commutes with rotations by one place. */
  lemma {:induction false} LeftFirst(a: bv32, n: bv32)
    requires n <= 31
    ensures Left1(ShiftsL(a, n)) == ShiftsL(Left1(a), n)
    decreases n
  {
    hide ShiftsL, Left1;
    if n == 0 {
      ShiftZero(a);
      ShiftZero(Left1(a));
    } else {
      LeftFirst(a, n - 1);
      LeftFirstStep(a, n);
    }
  }

  lemma LeftFirstStep(a: bv32, n: bv32)
    requires 1 <= n <= 31 && Left1(ShiftsL(a, n - 1)) == ShiftsL(Left1(a), n - 1)
    ensures Left1(ShiftsL(a, n)) == ShiftsL(Left1(a), n)
  {
    hide ShiftsL, Left1;
    LeftStep(a, n);
    LeftStep(Left1(a), n);
  }

  lemma {:induction false} RightFirst(a: bv32, n: bv32)
    requires n <= 31
    ensures Right1(ShiftsR(a, n)) == ShiftsR(Right1(a), n)
    decreases n
  {
    hide ShiftsR, Right1;
    if n == 0 {
      ShiftZero(a);
      ShiftZero(Right1(a));
    } else {
      RightFirst(a, n - 1);
      RightFirstStep(a, n);
    }
  }

  lemma RightFirstStep(a: bv32, n: bv32)
    requires 1 <= n <= 31 && Right1(ShiftsR(a, n - 1)) == ShiftsR(Right1(a), n - 1)
    ensures Right1(ShiftsR(a, n)) == ShiftsR(Right1(a), n)
  {
    hide ShiftsR, Right1;
    RightStep(a, n);
    RightStep(Right1(a), n);
  }

  lemma ShiftZero(a: bv32)
    ensures ShiftsL(a, 0) == a && ShiftsR(a, 0) == a
  {
  }

  lemma Undo(a: bv32)
    ensures Right1(Left1(a)) == a && Left1(Right1(a)) == a
  {
  }

  lemma {:induction false} ShiftsInverse(a: bv32, n: bv32)
    requires n <= 31
    ensures ShiftsR(ShiftsL(a, n), n) == a && ShiftsL(ShiftsR(a, n), n) == a
    decreases n
  {
    hide ShiftsL, ShiftsR, Left1, Right1;
    ShiftZero(a);
    if n != 0 {
      LeftStep(a, n);
      RightStep(ShiftsL(a, n), n);
      RightFirst(ShiftsL(a, n), n - 1);
      Undo(ShiftsL(a, n - 1));
      RightStep(a, n);
      LeftStep(ShiftsR(a, n), n);
      LeftFirst(ShiftsR(a, n), n - 1);
      Undo(ShiftsR(a, n - 1));
      ShiftsInverse(a, n - 1);
    }
  }

  /** Rotating by a data word is undone by rotating back by it. */
  lemma RotateInverse(a: bv32, n: bv32)
    ensures RotateR(RotateL(a, n), n) == a && RotateL(RotateR(a, n), n) == a
  {
    hide ShiftsL, ShiftsR, Amount;
    ShiftsInverse(a, Amount(n));
  }

  // ---- the cipher ----------------------------------------------------------------------------

  /** Table words n and n + 1 serve one round. */
  function E(x: Block, s0: bv32, s1: bv32): Block {
    var a := Plus(RotateL(Xor(x.a, x.b), x.b), s0);
    Block(a, Plus(RotateL(Xor(x.b, a), a), s1))
  }

  function D(x: Block, s0: bv32, s1: bv32): Block {
    var b := Xor(RotateR(Minus(x.b, s1), x.a), x.a);
    Block(Xor(RotateR(Minus(x.a, s0), b), b), b)
  }

  lemma StepInverse(x: Block, s0: bv32, s1: bv32)
    ensures D(E(x, s0, s1), s0, s1) == x && E(D(x, s0, s1), s0, s1) == x
  {
    hide RotateL, RotateR, Plus, Minus, Xor;
    forall a, n ensures RotateR(RotateL(a, n), n) == a && RotateL(RotateR(a, n), n) == a { RotateInverse(a, n); }
    forall a, s ensures Minus(Plus(a, s), s) == a && Plus(Minus(a, s), s) == a { PlusMinus(a, s); }
    forall a, t ensures Xor(Xor(a, t), t) == a { XorXor(a, t); }
  }

  /** The first n rounds after the initial addition. */
  function Forth(x: Block, s: seq<bv32>, n: nat): Block
    requires |s| >= 2 * n + 2
  {
    if n == 0 then Block(Plus(x.a, s[0]), Plus(x.b, s[1])) else E(Forth(x, s, n - 1), s[2 * n], s[2 * n + 1])
  }

  /** The last n rounds undone, and then the initial addition. */
  function Back(x: Block, s: seq<bv32>, n: nat): Block
    requires |s| >= 2 * n + 2
    decreases n
  {
    if n == 0 then Block(Minus(x.a, s[0]), Minus(x.b, s[1])) else Back(D(x, s[2 * n], s[2 * n + 1]), s, n - 1)
  }

  lemma {:induction false} BackForth(x: Block, s: seq<bv32>, n: nat)
    requires |s| >= 2 * n + 2
    ensures Back(Forth(x, s, n), s, n) == x
  {
    hide E, D, Plus, Minus;
    PlusMinus(x.a, s[0]);
    PlusMinus(x.b, s[1]);
    if n > 0 {
      StepInverse(Forth(x, s, n - 1), s[2 * n], s[2 * n + 1]);
      BackForth(x, s, n - 1);
    }
  }

  lemma {:induction false} ForthBack(x: Block, s: seq<bv32>, n: nat)
    requires |s| >= 2 * n + 2
    ensures Forth(Back(x, s, n), s, n) == x
    decreases n
  {
    hide E, D, Plus, Minus;
    PlusMinus(x.a, s[0]);
    PlusMinus(x.b, s[1]);
    if n > 0 {
      StepInverse(x, s[2 * n], s[2 * n + 1]);
      ForthBack(D(x, s[2 * n], s[2 * n + 1]), s, n - 1);
    }
  }

  /** The rounds a key is used with: 12 and 16 as they are, everything else as 8. */
  function Double(rounds: int): nat { if rounds == 12 then 12 else if rounds == 16 then 16 else 8 }

  function Encrypt(x: Block, s: seq<bv32>, rounds: int): Block
    requires |s| == 34
  {
    Forth(x, s, Double(rounds))
  }

  function Decrypt(x: Block, s: seq<bv32>, rounds: int): Block
    requires |s| == 34
  {
    Back(x, s, Double(rounds))
  }

  /** Decryption undoes encryption and conversely, for every key table and round count. */
  lemma CipherInverse(x: Block, s: seq<bv32>, rounds: int)
    requires |s| == 34
    ensures Decrypt(Encrypt(x, s, rounds), s, rounds) == x && Encrypt(Decrypt(x, s, rounds), s, rounds) == x
  {
    BackForth(x, s, Double(rounds));
    ForthBack(x, s, Double(rounds));
  }
}

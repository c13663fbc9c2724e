/** The DES-shaped block cipher on pairs of 32-bit words.  The substitution table is a
    parameter: nothing here depends on its contents. */
module Zes {
  /** Table and six-bit index to word. */
  type Sbox = (nat, bv32) -> bv32

  datatype Block = Block(a: bv32, b: bv32)

  /** The two words of one round of a key schedule. */
  datatype Key = Key(k0: bv32, k1: bv32)

  // ---- permutations -------------------------------------------------------------------------

  function RotateRight(a: bv32, n: bv32): bv32
    requires 1 <= n <= 31
  {
    (a >> n) | (a << (32 - n))
  }

  function PermOp(x: Block, n: bv32, m: bv32): Block
    requires n <= 16
  {
    var t := ((x.a >> n) ^ x.b) & m;
    Block(x.a ^ (t << n), x.b ^ t)
  }

  /** The distances and masks of the permutations: no masked bit is shifted out. */
  predicate Exchanges(n: bv32, m: bv32) {
    || (n == 1 && m == 0x55555555) || (n == 2 && m == 0x33333333) || (n == 4 && m == 0x0f0f0f0f)
    || (n == 8 && m == 0x00ff00ff) || (n == 16 && m == 0x0000ffff)
  }

  lemma Exchange1(x: Block)
    ensures PermOp(PermOp(x, 1, 0x55555555), 1, 0x55555555) == x
  {
  }

  lemma Exchange2(x: Block)
    ensures PermOp(PermOp(x, 2, 0x33333333), 2, 0x33333333) == x
  {
  }

  lemma Exchange4(x: Block)
    ensures PermOp(PermOp(x, 4, 0x0f0f0f0f), 4, 0x0f0f0f0f) == x
  {
  }

  lemma Exchange8(x: Block)
    ensures PermOp(PermOp(x, 8, 0x00ff00ff), 8, 0x00ff00ff) == x
  {
  }

  lemma Exchange16(x: Block)
    ensures PermOp(PermOp(x, 16, 0x0000ffff), 16, 0x0000ffff) == x
  {
  }

  /** Each exchange undoes itself. */
  lemma PermOpInvolution(x: Block, n: bv32, m: bv32)
    requires Exchanges(n, m) && n <= 16
    ensures PermOp(PermOp(x, n, m), n, m) == x
  {
    hide PermOp;
    if n == 1 {
      Exchange1(x);
    } else if n == 2 {
      Exchange2(x);
    } else if n == 4 {
      Exchange4(x);
    } else if n == 8 {
      Exchange8(x);
    } else {
      Exchange16(x);
    }
  }

  lemma XorTwice(a: bv32, t: bv32)
    ensures (a ^ t) ^ t == a
  {
  }

  function Swap(x: Block): Block { Block(x.b, x.a) }

  /** IP(l, r) on the pair (l, r). */
  function IP(x: Block): Block {
    var x1 := Swap(PermOp(Swap(x), 4, 0x0f0f0f0f));
    var x2 := PermOp(x1, 16, 0x0000ffff);
    var x3 := Swap(PermOp(Swap(x2), 2, 0x33333333));
    var x4 := PermOp(x3, 8, 0x00ff00ff);
    Swap(PermOp(Swap(x4), 1, 0x55555555))
  }

  /** FP(l, r) on the pair (l, r). */
  function FP(x: Block): Block {
    var x1 := PermOp(x, 1, 0x55555555);
    var x2 := Swap(PermOp(Swap(x1), 8, 0x00ff00ff));
    var x3 := PermOp(x2, 2, 0x33333333);
    var x4 := Swap(PermOp(Swap(x3), 16, 0x0000ffff));
    PermOp(x4, 4, 0x0f0f0f0f)
  }

  /** The final permutation, on swapped words, undoes the initial one, and conversely. */
  lemma PermutationsInverse(x: Block)
    ensures Swap(FP(Swap(IP(x)))) == x && IP(Swap(FP(Swap(x)))) == x
  {
    hide PermOp;
    forall y: Block, n: bv32, m | n <= 16 && Exchanges(n, m) ensures PermOp(PermOp(y, n, m), n, m) == y {
      PermOpInvolution(y, n, m);
    }
  }

  // ---- rounds --------------------------------------------------------------------------------

  /** Six bits of a word from bit n on. */
  function Six(w: bv32, n: bv32): bv32
    requires n <= 26
  {
    (w >> n) & 0x3f
  }

  function XorWords(a: bv32, b: bv32): bv32 { a ^ b }

  function Xor8(a: bv32, b: bv32, c: bv32, d: bv32, e: bv32, f: bv32, g: bv32, h: bv32): bv32 {
    XorWords(XorWords(XorWords(XorWords(XorWords(XorWords(XorWords(a, b), c), d), e), f), g), h)
  }

  /** Eight tables, read at bits of one word and of the other turned by four places. */
  function Tables(sp: Sbox, u: bv32, w: bv32): bv32 {
    var t := RotateRight(w, 4);
    Xor8(sp(0, Six(u, 2)), sp(2, Six(u, 10)), sp(4, Six(u, 18)), sp(6, Six(u, 26)),
         sp(1, Six(t, 2)), sp(3, Six(t, 10)), sp(5, Six(t, 18)), sp(7, Six(t, 26)))
  }

  /** The round function: the right word is mixed with two key words. */
  function F(sp: Sbox, r: bv32, k: Key): bv32 { Tables(sp, XorWords(r, k.k0), XorWords(r, k.k1)) }

  /** The left word of a round. */
  function DEncrypt(sp: Sbox, l: bv32, r: bv32, k: Key): bv32 { XorWords(l, F(sp, r, k)) }

  lemma DEncryptTwice(sp: Sbox, l: bv32, r: bv32, k: Key)
    ensures DEncrypt(sp, DEncrypt(sp, l, r, k), r, k) == l
  {
    hide F;
    XorTwice(l, F(sp, r, k));
  }

  /** One round, after which the words change roles. */
  function Round(sp: Sbox, x: Block, k: Key): Block { Block(x.b, DEncrypt(sp, x.a, x.b, k)) }

  function Rounds(sp: Sbox, x: Block, ks: seq<Key>): Block {
    if ks == [] then x else Round(sp, Rounds(sp, x, ks[..|ks| - 1]), ks[|ks| - 1])
  }

  function Reverse(ks: seq<Key>): (r: seq<Key>)
    ensures |r| == |ks| && forall j :: 0 <= j < |ks| ==> r[j] == ks[|ks| - 1 - j]
  {
    seq(|ks|, j requires 0 <= j < |ks| => ks[|ks| - 1 - j])
  }

  lemma {:induction false} RoundsConcat(sp: Sbox, x: Block, k: Key, ks: seq<Key>)
    ensures Rounds(sp, x, [k] + ks) == Rounds(sp, Round(sp, x, k), ks)
  {
    hide DEncrypt;
    if ks == [] {
      assert [k] + ks == [k] && [k][..0] == [];
      assert Rounds(sp, x, [k]) == Round(sp, Rounds(sp, x, []), k);
    } else {
      var all := [k] + ks;
      assert all[..|all| - 1] == [k] + ks[..|ks| - 1];
      RoundsConcat(sp, x, k, ks[..|ks| - 1]);
    }
  }

  /** The same rounds in reverse order, on swapped words, undo the rounds. */
  lemma {:induction false} RoundsInverse(sp: Sbox, x: Block, ks: seq<Key>)
    ensures Rounds(sp, Swap(Rounds(sp, x, ks)), Reverse(ks)) == Swap(x)
  {
    hide DEncrypt;
    if ks == [] {
      assert Reverse(ks) == [];
    } else {
      var before, last := ks[..|ks| - 1], ks[|ks| - 1];
      var y := Rounds(sp, x, before);
      assert Reverse(ks) == [last] + Reverse(before);
      RoundsConcat(sp, Swap(Round(sp, y, last)), last, Reverse(before));
      DEncryptTwice(sp, y.a, y.b, last);
      RoundsInverse(sp, x, before);
    }
  }

  // ---- the cipher ------------------------------------------------------------------------------

  /** A schedule: sixteen round keys. */
  predicate Schedule(ks: seq<Key>) { |ks| == 16 }

  function Order(ks: seq<Key>, enc: bool): seq<Key> { if enc then ks else Reverse(ks) }

  function RotateWords(x: Block, n: bv32): Block
    requires 1 <= n <= 31
  {
    Block(RotateRight(x.a, n), RotateRight(x.b, n))
  }

  lemma RotateBack(a: bv32)
    ensures RotateRight(RotateRight(a, 29), 3) == a && RotateRight(RotateRight(a, 3), 29) == a
  {
  }

  lemma RotateWordsBack(x: Block)
    ensures RotateWords(RotateWords(x, 29), 3) == x && RotateWords(RotateWords(x, 3), 29) == x
  {
    RotateBack(x.a);
    RotateBack(x.b);
  }

  /** The kernel without the outer permutations: data[0] is the right word on entry and the
      left one on exit. */
  function Encrypt2(sp: Sbox, d: Block, ks: seq<Key>, enc: bool): Block {
    RotateWords(Rounds(sp, RotateWords(Swap(d), 29), Order(ks, enc)), 3)
  }

  function Encrypt1(sp: Sbox, d: Block, ks: seq<Key>, enc: bool): Block {
    Swap(FP(Swap(Encrypt2(sp, IP(d), ks, enc))))
  }

  function Encrypt3(sp: Sbox, d: Block, ks1: seq<Key>, ks2: seq<Key>, ks3: seq<Key>): Block {
    var x1 := Encrypt2(sp, IP(d), ks1, true);
    var x2 := Encrypt2(sp, x1, ks2, false);
    Swap(FP(Swap(Encrypt2(sp, x2, ks3, true))))
  }

  function Decrypt3(sp: Sbox, d: Block, ks1: seq<Key>, ks2: seq<Key>, ks3: seq<Key>): Block {
    var x1 := Encrypt2(sp, IP(d), ks3, false);
    var x2 := Encrypt2(sp, x1, ks2, true);
    Swap(FP(Swap(Encrypt2(sp, x2, ks1, false))))
  }

  lemma ReverseTwice(ks: seq<Key>)
    ensures Reverse(Reverse(ks)) == ks
  {
  }

  /** Each direction of the kernel undoes the other, for every table and schedule. */
  lemma Kernel2Inverse(sp: Sbox, d: Block, ks: seq<Key>, enc: bool)
    ensures Encrypt2(sp, Encrypt2(sp, d, ks, enc), ks, !enc) == d
  {
    hide Rounds, RotateRight;
    var x, o := RotateWords(Swap(d), 29), Order(ks, enc);
    var y := Rounds(sp, x, o);
    ReverseTwice(ks);
    assert Order(ks, !enc) == Reverse(o);
    RotateWordsBack(Swap(y));
    assert RotateWords(Swap(RotateWords(y, 3)), 29) == Swap(y);
    RoundsInverse(sp, x, o);
    RotateWordsBack(Swap(d));
    assert RotateWords(Swap(x), 3) == d by { RotateWordsBack(d); }
  }

  /** Decryption undoes encryption, and encryption decryption. */
  lemma Encrypt1Inverse(sp: Sbox, d: Block, ks: seq<Key>, enc: bool)
    ensures Encrypt1(sp, Encrypt1(sp, d, ks, enc), ks, !enc) == d
  {
    hide Encrypt2, IP, FP;
    var y := Encrypt2(sp, IP(d), ks, enc);
    PermutationsInverse(y);
    PermutationsInverse(d);
    Kernel2Inverse(sp, IP(d), ks, enc);
  }

  /** Triple decryption undoes triple encryption, and conversely. */
  lemma Encrypt3Inverse(sp: Sbox, d: Block, ks1: seq<Key>, ks2: seq<Key>, ks3: seq<Key>)
    ensures Decrypt3(sp, Encrypt3(sp, d, ks1, ks2, ks3), ks1, ks2, ks3) == d
    ensures Encrypt3(sp, Decrypt3(sp, d, ks1, ks2, ks3), ks1, ks2, ks3) == d
  {
    hide Encrypt2, IP, FP;
    forall x, ks, enc ensures Encrypt2(sp, Encrypt2(sp, x, ks, enc), ks, !enc) == x { Kernel2Inverse(sp, x, ks, enc); }
    forall x ensures Swap(FP(Swap(IP(x)))) == x && IP(Swap(FP(Swap(x)))) == x { PermutationsInverse(x); }
    Kernel2Inverse(sp, IP(d), ks1, true);
  }

  /** Decrypting under a schedule is encrypting under the schedule with its rounds reversed. */
  lemma DecryptIsReversed(sp: Sbox, d: Block, ks: seq<Key>)
    ensures Encrypt1(sp, d, ks, false) == Encrypt1(sp, d, Reverse(ks), true)
    ensures Encrypt2(sp, d, ks, false) == Encrypt2(sp, d, Reverse(ks), true)
  {
  }

  /** Under a palindromic schedule encryption undoes itself. */
  lemma PalindromeInvolution(sp: Sbox, d: Block, ks: seq<Key>)
    requires Reverse(ks) == ks
    ensures Encrypt1(sp, Encrypt1(sp, d, ks, true), ks, true) == d
  {
    hide Encrypt1;
    Encrypt1Inverse(sp, d, ks, true);
    DecryptIsReversed(sp, Encrypt1(sp, d, ks, true), ks);
  }

  /** Triple use of one schedule is single use. */
  lemma TripleOfOne(sp: Sbox, d: Block, ks: seq<Key>)
    ensures Encrypt3(sp, d, ks, ks, ks) == Encrypt1(sp, d, ks, true)
    ensures Decrypt3(sp, d, ks, ks, ks) == Encrypt1(sp, d, ks, false)
  {
    hide Encrypt2, IP, FP;
    Kernel2Inverse(sp, IP(d), ks, true);
    Kernel2Inverse(sp, IP(d), ks, false);
  }
}

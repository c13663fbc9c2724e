/** What the block cipher computes, bit by bit and round by round, apart from being undone. */
module ZesLaws {
  import opened Zes

  /** Bit i of a word, the lowest being bit 0. */
  predicate Bit(w: bv32, i: bv32) { (w >> (i & 31)) & 1 == 1 }

  // ---- the initial permutation -----------------------------------------------------------------

  /** Bit k of byte j of a block: bytes 0 to 3 are the first word, low byte first. */
  predicate BlockBit(x: Block, j: bv32, k: bv32)
    requires j < 8 && k < 8
  {
    if j < 4 then Bit(x.a, 8 * j + k) else Bit(x.b, 8 * (j - 4) + k)
  }

  /** Even-numbered bits are gathered in bytes 7 to 4, odd ones in bytes 3 to 0. */
  function Column(k: bv32): (j: bv32)
    requires k < 8
    ensures j < 8
  {
    (if k & 1 == 0 then 7 else 3) - (k >> 1)
  }

  predicate Moves(x: Block, j: bv32, k: bv32)
    requires j < 8 && k < 8
  {
    BlockBit(IP(x), Column(k), 7 - j) == BlockBit(x, j, k)
  }

  lemma ByteMoves0(x: Block)
    ensures Moves(x, 0, 0) && Moves(x, 0, 1) && Moves(x, 0, 2) && Moves(x, 0, 3)
  {
  }

  lemma ByteMoves0High(x: Block)
    ensures Moves(x, 0, 4) && Moves(x, 0, 5) && Moves(x, 0, 6) && Moves(x, 0, 7)
  {
  }

  lemma ByteMoves1(x: Block)
    ensures Moves(x, 1, 0) && Moves(x, 1, 1) && Moves(x, 1, 2) && Moves(x, 1, 3)
  {
  }

  lemma ByteMoves1High(x: Block)
    ensures Moves(x, 1, 4) && Moves(x, 1, 5) && Moves(x, 1, 6) && Moves(x, 1, 7)
  {
  }

  lemma ByteMoves2(x: Block)
    ensures Moves(x, 2, 0) && Moves(x, 2, 1) && Moves(x, 2, 2) && Moves(x, 2, 3)
  {
  }

  lemma ByteMoves2High(x: Block)
    ensures Moves(x, 2, 4) && Moves(x, 2, 5) && Moves(x, 2, 6) && Moves(x, 2, 7)
  {
  }

  lemma ByteMoves3(x: Block)
    ensures Moves(x, 3, 0) && Moves(x, 3, 1) && Moves(x, 3, 2) && Moves(x, 3, 3)
  {
  }

  lemma ByteMoves3High(x: Block)
    ensures Moves(x, 3, 4) && Moves(x, 3, 5) && Moves(x, 3, 6) && Moves(x, 3, 7)
  {
  }

  lemma ByteMoves4(x: Block)
    ensures Moves(x, 4, 0) && Moves(x, 4, 1) && Moves(x, 4, 2) && Moves(x, 4, 3)
  {
  }

  lemma ByteMoves4High(x: Block)
    ensures Moves(x, 4, 4) && Moves(x, 4, 5) && Moves(x, 4, 6) && Moves(x, 4, 7)
  {
  }

  lemma ByteMoves5(x: Block)
    ensures Moves(x, 5, 0) && Moves(x, 5, 1) && Moves(x, 5, 2) && Moves(x, 5, 3)
  {
  }

  lemma ByteMoves5High(x: Block)
    ensures Moves(x, 5, 4) && Moves(x, 5, 5) && Moves(x, 5, 6) && Moves(x, 5, 7)
  {
  }

  lemma ByteMoves6(x: Block)
    ensures Moves(x, 6, 0) && Moves(x, 6, 1) && Moves(x, 6, 2) && Moves(x, 6, 3)
  {
  }

  lemma ByteMoves6High(x: Block)
    ensures Moves(x, 6, 4) && Moves(x, 6, 5) && Moves(x, 6, 6) && Moves(x, 6, 7)
  {
  }

  lemma ByteMoves7(x: Block)
    ensures Moves(x, 7, 0) && Moves(x, 7, 1) && Moves(x, 7, 2) && Moves(x, 7, 3)
  {
  }

  lemma ByteMoves7High(x: Block)
    ensures Moves(x, 7, 4) && Moves(x, 7, 5) && Moves(x, 7, 6) && Moves(x, 7, 7)
  {
  }

  /** The permutation sends bit k of every byte to one byte, the bytes becoming its bits, the
      first the highest. */
  lemma IPTransposes(x: Block, j: bv32, k: bv32)
    requires j < 8 && k < 8
    ensures BlockBit(IP(x), Column(k), 7 - j) == BlockBit(x, j, k)
  {
    assert Moves(x, j, k) by {
      hide Moves;
      assert k == 0 || k == 1 || k == 2 || k == 3 || k == 4 || k == 5 || k == 6 || k == 7;
      if j == 0 {
        ByteMoves0(x);
        ByteMoves0High(x);
      } else if j == 1 {
        ByteMoves1(x);
        ByteMoves1High(x);
      } else if j == 2 {
        ByteMoves2(x);
        ByteMoves2High(x);
      } else if j == 3 {
        ByteMoves3(x);
        ByteMoves3High(x);
      } else if j == 4 {
        ByteMoves4(x);
        ByteMoves4High(x);
      } else if j == 5 {
        ByteMoves5(x);
        ByteMoves5High(x);
      } else if j == 6 {
        ByteMoves6(x);
        ByteMoves6High(x);
      } else {
        ByteMoves7(x);
        ByteMoves7High(x);
      }
    }
    hide BlockBit, Column, IP;
  }

  // ---- the round function -------------------------------------------------------------------------

  /** The number with these bits, the lowest first. */
  function Number(b0: bool, b1: bool, b2: bool, b3: bool, b4: bool, b5: bool): bv32 {
    (if b0 then 1 else 0) | (if b1 then 2 else 0) | (if b2 then 4 else 0)
    | (if b3 then 8 else 0) | (if b4 then 16 else 0) | (if b5 then 32 else 0)
  }

  /** The six bits of a word from bit p on, cyclically, as a number. */
  function SixBits(w: bv32, p: bv32): bv32 {
    Number(Bit(w, p), Bit(w, p + 1), Bit(w, p + 2), Bit(w, p + 3), Bit(w, p + 4), Bit(w, p + 5))
  }

  lemma LowIndex(u: bv32)
    ensures Six(u, 2) == SixBits(u, 2) && Six(u, 10) == SixBits(u, 10)
    ensures Six(u, 18) == SixBits(u, 18) && Six(u, 26) == SixBits(u, 26)
  {
  }

  lemma TurnedIndex(u: bv32)
    ensures var t := RotateRight(u, 4);
      && Six(t, 2) == SixBits(u, 6) && Six(t, 10) == SixBits(u, 14)
      && Six(t, 18) == SixBits(u, 22) && Six(t, 26) == SixBits(u, 30)
  {
  }

  lemma BitXor(a: bv32, b: bv32, i: bv32)
    ensures Bit(a ^ b, i) == (Bit(a, i) != Bit(b, i))
  {
  }

  lemma BitMix(a: bv32, b: bv32, i: bv32)
    ensures Bit(XorWords(a, b), i) == (Bit(a, i) != Bit(b, i))
  {
    hide Bit;
    BitXor(a, b, i);
  }

  function Odd(a: bool, b: bool): bool { a != b }

  /** A bit of the mixture is set when an odd number of the eight words have it. */
  lemma BitXor8(a: bv32, b: bv32, c: bv32, d: bv32, e: bv32, f: bv32, g: bv32, h: bv32, i: bv32)
    ensures Bit(Xor8(a, b, c, d, e, f, g, h), i)
         == Odd(Odd(Odd(Odd(Odd(Odd(Odd(Bit(a, i), Bit(b, i)), Bit(c, i)), Bit(d, i)), Bit(e, i)), Bit(f, i)),
                    Bit(g, i)), Bit(h, i))
  {
    hide Bit, XorWords;
    var ab := XorWords(a, b);
    var abc := XorWords(ab, c);
    var abcd := XorWords(abc, d);
    var abcde := XorWords(abcd, e);
    var abcdef := XorWords(abcde, f);
    BitMix(a, b, i);
    BitMix(ab, c, i);
    BitMix(abc, d, i);
    BitMix(abcd, e, i);
    BitMix(abcde, f, i);
    BitMix(abcdef, g, i);
    BitMix(XorWords(abcdef, g), h, i);
  }

  lemma TablesRead(sp: Sbox, u: bv32, w: bv32)
    ensures Tables(sp, u, w)
         == Xor8(sp(0, SixBits(u, 2)), sp(2, SixBits(u, 10)), sp(4, SixBits(u, 18)), sp(6, SixBits(u, 26)),
                 sp(1, SixBits(w, 6)), sp(3, SixBits(w, 14)), sp(5, SixBits(w, 22)), sp(7, SixBits(w, 30)))
  {
    hide SixBits, RotateRight, Six, Xor8;
    LowIndex(u);
    TurnedIndex(w);
  }

  /** Table j is read at bits 4j + 2 to 4j + 7 of the word mixed with its key word: the first for
      even j, the second for odd j. */
  lemma FReads(sp: Sbox, r: bv32, k: Key)
    ensures var u, w := XorWords(r, k.k0), XorWords(r, k.k1);
      F(sp, r, k) == Xor8(sp(0, SixBits(u, 2)), sp(2, SixBits(u, 10)), sp(4, SixBits(u, 18)), sp(6, SixBits(u, 26)),
                          sp(1, SixBits(w, 6)), sp(3, SixBits(w, 14)), sp(5, SixBits(w, 22)), sp(7, SixBits(w, 30)))
  {
    hide SixBits, Xor8, Tables, XorWords;
    TablesRead(sp, XorWords(r, k.k0), XorWords(r, k.k1));
  }

  // ---- the kernel, without the rotations it works under ----------------------------------------------

  /** The round function on words as they are: it reads bits 4j - 1 to 4j + 4. */
  function PlainF(sp: Sbox, r: bv32, k: Key): bv32 { RotateRight(F(sp, RotateRight(r, 29), k), 3) }

  lemma BitTurned(r: bv32, i: bv32)
    ensures Bit(RotateRight(r, 29), i) == Bit(r, i - 3)
  {
  }

  /** Under the rotations, bit i of an index word is bit i - 3 of the word mixed with bit i of the
      key word: table j reads bits 4j - 1 to 4j + 4. */
  lemma PlainReads(r: bv32, key: bv32, i: bv32)
    ensures Bit(XorWords(RotateRight(r, 29), key), i) == (Bit(r, i - 3) != Bit(key, i))
  {
    hide Bit, RotateRight, XorWords;
    BitMix(RotateRight(r, 29), key, i);
    BitTurned(r, i);
  }

  function PlainRound(sp: Sbox, x: Block, k: Key): Block { Block(x.b, XorWords(x.a, PlainF(sp, x.b, k))) }

  /** The first key of the sequence first. */
  function PlainRounds(sp: Sbox, x: Block, ks: seq<Key>): Block
    decreases |ks|
  {
    if ks == [] then x else PlainRounds(sp, PlainRound(sp, x, ks[0]), ks[1..])
  }

  lemma TurnXor(a: bv32, b: bv32)
    ensures RotateRight(XorWords(a, b), 3) == XorWords(RotateRight(a, 3), RotateRight(b, 3))
  {
  }

  lemma RoundTurned(sp: Sbox, x: Block, k: Key)
    ensures RotateWords(Round(sp, x, k), 3) == PlainRound(sp, RotateWords(x, 3), k)
  {
    hide F, RotateRight, XorWords;
    TurnXor(x.a, F(sp, x.b, k));
    RotateBack(x.b);
  }

  lemma {:induction false} RoundsTurned(sp: Sbox, x: Block, ks: seq<Key>)
    ensures RotateWords(Rounds(sp, x, ks), 3) == PlainRounds(sp, RotateWords(x, 3), ks)
    decreases |ks|
  {
    hide Round, PlainRound, RotateWords;
    if ks != [] {
      assert ks == [ks[0]] + ks[1..];
      RoundsConcat(sp, x, ks[0], ks[1..]);
      RoundTurned(sp, x, ks[0]);
      RoundsTurned(sp, Round(sp, x, ks[0]), ks[1..]);
    }
  }

  /** Encryption uses the keys from the first to the last, decryption from the last to the first;
      the second word of the block goes in as the left one. */
  lemma KernelMeans(sp: Sbox, d: Block, ks: seq<Key>)
    ensures Encrypt2(sp, d, ks, true) == PlainRounds(sp, Block(d.b, d.a), ks)
    ensures Encrypt2(sp, d, ks, false) == PlainRounds(sp, Block(d.b, d.a), Reverse(ks))
  {
    hide Rounds, PlainRounds, RotateRight;
    RoundsTurned(sp, RotateWords(Swap(d), 29), ks);
    RoundsTurned(sp, RotateWords(Swap(d), 29), Reverse(ks));
    RotateWordsBack(Swap(d));
  }

  /** Triple encryption is encryption, decryption and encryption under the three schedules in
      order; triple decryption the reverse. */
  lemma TripleMeans(sp: Sbox, d: Block, ks1: seq<Key>, ks2: seq<Key>, ks3: seq<Key>)
    ensures Encrypt3(sp, d, ks1, ks2, ks3)
         == Encrypt1(sp, Encrypt1(sp, Encrypt1(sp, d, ks1, true), ks2, false), ks3, true)
    ensures Decrypt3(sp, d, ks1, ks2, ks3)
         == Encrypt1(sp, Encrypt1(sp, Encrypt1(sp, d, ks3, false), ks2, true), ks1, false)
  {
    hide Encrypt2, IP, FP;
    forall x ensures IP(Swap(FP(Swap(x)))) == x { PermutationsInverse(x); }
  }
}

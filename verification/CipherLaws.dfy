/** Which blocks of a buffer are mapped, which way round, and how their bytes make words. */
module CipherLaws {
  import opened Zes
  import opened ZesLaws
  import Rc5
  import Rc5Laws
  import opened Rc5Key
  import opened EncDec

  // ---- bytes of words ------------------------------------------------------------------------------

  predicate ByteBit(b: bv8, i: bv8) { (b >> (i & 7)) & 1 == 1 }

  /** Bits 8k to 8k + 7 of a word are those of byte k. */
  lemma WordBits(b0: bv8, b1: bv8, b2: bv8, b3: bv8, i: bv8)
    requires i < 8
    ensures var w, j := Word(b0, b1, b2, b3), i as bv32;
      && Bit(w, j) == ByteBit(b0, i) && Bit(w, 8 + j) == ByteBit(b1, i)
      && Bit(w, 16 + j) == ByteBit(b2, i) && Bit(w, 24 + j) == ByteBit(b3, i)
  {
  }

  /** The first four bytes of a block make its first word, the other four its second; the bytes
      stored are in the same places. */
  lemma BlockBytes(s: seq<bv8>)
    requires |s| == 8
    ensures Load(s).a == Word(s[0], s[1], s[2], s[3]) && Load(s).b == Word(s[4], s[5], s[6], s[7])
    ensures forall x :: Load(s) == x <==> Store(x) == s
  {
    forall x ensures Load(s) == x <==> Store(x) == s {
      StoreLoad(s);
      LoadStore(x);
    }
  }

  // ---- blocks of a buffer ----------------------------------------------------------------------------

  /** Block k of the mapped buffer is the image of block k of the buffer. */
  lemma {:induction false} CryptBlock(s: seq<bv8>, c: Cipher, enc: bool, k: nat)
    requires c.Valid() && 8 * k + 8 <= |s|
    ensures Load(Crypt(s, c, enc)[8 * k..8 * k + 8]) == Apply(c, Load(s[8 * k..8 * k + 8]), enc)
  {
    hide Store, Load, Apply;
    var head, rest := Store(Apply(c, Load(s[..8]), enc)), Crypt(s[8..], c, enc);
    if k == 0 {
      assert (head + rest)[..8] == head;
      LoadStore(Apply(c, Load(s[..8]), enc));
    } else {
      CryptBlock(s[8..], c, enc, k - 1);
      assert (head + rest)[8 * k..8 * k + 8] == rest[8 * k - 8..8 * k];
      assert s[8..][8 * k - 8..8 * k] == s[8 * k..8 * k + 8];
    }
  }

  /** Encrypting with the first cipher uses its keys from the first to the last, between the
      permutations. */
  lemma DesDirection(sp: Sbox, ks: seq<Key>, x: Block)
    ensures var y := IP(x);
      Apply(DesCipher(sp, ks), x, true) == Swap(FP(Swap(PlainRounds(sp, Block(y.b, y.a), ks))))
    ensures var y := IP(x);
      Apply(DesCipher(sp, ks), x, false) == Swap(FP(Swap(PlainRounds(sp, Block(y.b, y.a), Reverse(ks)))))
  {
    hide IP, FP, Encrypt2, PlainRounds;
    KernelMeans(sp, IP(x), ks);
  }

  /** Encrypting with the second gives the last words of its recurrence; decrypting finds the
      block they come from. */
  lemma Rc5Direction(data: seq<bv32>, rounds: int, x: Block)
    requires |data| == 34
    ensures var n := if rounds == 12 || rounds == 16 then rounds else 8;
      && Apply(Rc5Cipher(data, rounds), x, true)
         == Block(Rc5Laws.Step(x, data, 2 * n), Rc5Laws.Step(x, data, 2 * n + 1))
      && Apply(Rc5Cipher(data, rounds), Apply(Rc5Cipher(data, rounds), x, true), false) == x
  {
    Rc5Laws.EncryptMeans(x, data, rounds);
    Rc5.CipherInverse(x, data, rounds);
  }
}

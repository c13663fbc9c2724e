/** Whole buffers encrypted and decrypted in place, block by block. */
module EncDec {
  import opened Zes
  import Rc5
  import opened MiniCrypt
  import opened Rc5Key

  // ---- bytes and words -----------------------------------------------------------------------

  function Byte(w: bv32, k: bv32): bv8
    requires k <= 24
  {
    ((w >> k) & 0xff) as bv8
  }

  lemma BytesOfWord(b0: bv8, b1: bv8, b2: bv8, b3: bv8)
    ensures var w := Word(b0, b1, b2, b3);
      Byte(w, 0) == b0 && Byte(w, 8) == b1 && Byte(w, 16) == b2 && Byte(w, 24) == b3
  {
  }

  lemma WordOfBytes(w: bv32)
    ensures Word(Byte(w, 0), Byte(w, 8), Byte(w, 16), Byte(w, 24)) == w
  {
  }

  /** Eight bytes as two little-endian words. */
  function Load(s: seq<bv8>): Block
    requires |s| == 8
  {
    Block(Word(s[0], s[1], s[2], s[3]), Word(s[4], s[5], s[6], s[7]))
  }

  function Store(x: Block): (s: seq<bv8>)
    ensures |s| == 8
  {
    [Byte(x.a, 0), Byte(x.a, 8), Byte(x.a, 16), Byte(x.a, 24),
     Byte(x.b, 0), Byte(x.b, 8), Byte(x.b, 16), Byte(x.b, 24)]
  }

  lemma LoadStore(x: Block)
    ensures Load(Store(x)) == x
  {
    hide Word, Byte;
    WordOfBytes(x.a);
    WordOfBytes(x.b);
  }

  lemma StoreLoad(s: seq<bv8>)
    requires |s| == 8
    ensures Store(Load(s)) == s
  {
    hide Word, Byte;
    BytesOfWord(s[0], s[1], s[2], s[3]);
    BytesOfWord(s[4], s[5], s[6], s[7]);
  }

  // ---- buffers ---------------------------------------------------------------------------------

  /** A block cipher with its key. */
  datatype Cipher = DesCipher(sp: Sbox, ks: seq<Key>) | Rc5Cipher(data: seq<bv32>, rounds: int)
  {
    predicate Valid() { DesCipher? || |data| == 34 }
  }

  function Apply(c: Cipher, x: Block, enc: bool): Block
    requires c.Valid()
  {
    match c
    case DesCipher(sp, ks) => Encrypt1(sp, x, ks, enc)
    case Rc5Cipher(data, rounds) => if enc then Rc5.Encrypt(x, data, rounds) else Rc5.Decrypt(x, data, rounds)
  }

  lemma ApplyInverse(c: Cipher, x: Block, enc: bool)
    requires c.Valid()
    ensures Apply(c, Apply(c, x, enc), !enc) == x
  {
    hide Encrypt1, Rc5.Encrypt, Rc5.Decrypt;
    match c
    case DesCipher(sp, ks) => Encrypt1Inverse(sp, x, ks, enc);
    case Rc5Cipher(data, rounds) => Rc5.CipherInverse(x, data, rounds);
  }

  /** The whole blocks of a buffer replaced by their images; the rest kept. */
  function Crypt(s: seq<bv8>, c: Cipher, enc: bool): (r: seq<bv8>)
    requires c.Valid()
    ensures |r| == |s|
  {
    if |s| < 8 then s else Store(Apply(c, Load(s[..8]), enc)) + Crypt(s[8..], c, enc)
  }

  /** The bytes after the last of n whole blocks are kept. */
  lemma {:induction false} CryptTail(s: seq<bv8>, c: Cipher, enc: bool, n: nat)
    requires c.Valid() && 8 * n <= |s| < 8 * n + 8
    ensures Crypt(s, c, enc)[8 * n..] == s[8 * n..]
  {
    hide Store, Load, Apply;
    if n > 0 {
      CryptTail(s[8..], c, enc, n - 1);
      var head, rest := Store(Apply(c, Load(s[..8]), enc)), Crypt(s[8..], c, enc);
      assert (head + rest)[8 * n..] == rest[8 * n - 8..];
      assert s[8 * n..] == s[8..][8 * n - 8..];
    }
  }

  /** A buffer encrypted and decrypted under one key, or decrypted and encrypted, is unchanged. */
  lemma {:induction false} CryptInverse(s: seq<bv8>, c: Cipher, enc: bool)
    requires c.Valid()
    ensures Crypt(Crypt(s, c, enc), c, !enc) == s
  {
    if |s| >= 8 {
      hide Store, Load, Apply;
      var x := Load(s[..8]);
      var head, rest := Store(Apply(c, x, enc)), Crypt(s[8..], c, enc);
      assert (head + rest)[..8] == head && (head + rest)[8..] == rest;
      LoadStore(Apply(c, x, enc));
      ApplyInverse(c, x, enc);
      StoreLoad(s[..8]);
      CryptInverse(s[8..], c, enc);
    }
  }

  /** What is left to do after `offset` bytes: the rest of the buffer, encrypted, is the rest
      of the goal. */
  ghost predicate Underway(cur: seq<bv8>, goal: seq<bv8>, offset: nat, n: nat, c: Cipher, enc: bool) {
    c.Valid() && offset <= n <= |cur| && goal == cur[..offset] + Crypt(cur[offset..n], c, enc)
  }

  lemma CryptStarts(cur: seq<bv8>, n: nat, c: Cipher, enc: bool)
    requires c.Valid() && n <= |cur|
    ensures Underway(cur, Crypt(cur[..n], c, enc), 0, n, c, enc)
  {
    assert cur[0..n] == cur[..n] && cur[..0] == [];
  }

  lemma CryptStep(cur: seq<bv8>, next: seq<bv8>, goal: seq<bv8>, offset: nat, n: nat, c: Cipher, enc: bool)
    requires offset + 8 <= n && Underway(cur, goal, offset, n, c, enc)
    requires next == cur[..offset] + Store(Apply(c, Load(cur[offset..offset + 8]), enc)) + cur[offset + 8..]
    ensures Underway(next, goal, offset + 8, n, c, enc)
    ensures next[n..] == cur[n..]
  {
    hide Store, Load, Apply;
    var rest := cur[offset..n];
    assert rest[..8] == cur[offset..offset + 8] && rest[8..] == cur[offset + 8..n];
    assert next[offset + 8..n] == cur[offset + 8..n];
    assert next[..offset + 8] == cur[..offset] + Store(Apply(c, Load(cur[offset..offset + 8]), enc));
  }

  lemma CryptEnds(cur: seq<bv8>, goal: seq<bv8>, offset: nat, n: nat, c: Cipher, enc: bool)
    requires Underway(cur, goal, offset, n, c, enc) && n < offset + 8
    ensures cur[..n] == goal
  {
    assert cur[..n] == cur[..offset] + cur[offset..n];
  }

  /** Other stands for a value outside the enumeration. */
  datatype Method = None | Des | Rc5 | Other

  class CEncrypt {
    const sp: Sbox
    var haveKeyDes: bool
    var haveKeyRc5: bool
    var keyDes: seq<Key>
    const keyRc5: Rc5KeyTable
    var encMethod: Method

    constructor (table: Sbox)
      ensures Valid() && !haveKeyDes && !haveKeyRc5 && encMethod == None
      ensures fresh(keyRc5) && fresh(keyRc5.data)
    {
      sp := table;
      haveKeyDes, haveKeyRc5, encMethod := false, false, None;
      keyDes := seq(16, _ => Key(0, 0));
      keyRc5 := new Rc5KeyTable();
    }

    predicate Valid()
      reads this
    {
      Schedule(keyDes) && keyRc5.data.Length == 34
    }

    method SetKeyDes(schedule: seq<Key>)
      requires Valid() && Schedule(schedule)
      modifies this`keyDes, this`haveKeyDes
      ensures Valid() && haveKeyDes && keyDes == schedule
    {
      keyDes := schedule;
      haveKeyDes := true;
    }

    method SetKeyRc5(key: seq<bv8>, rounds: int)
      requires Valid() && 1 <= |key| <= 256
      modifies this`haveKeyRc5, keyRc5, keyRc5.data
      ensures Valid() && haveKeyRc5 && keyRc5.rounds == UsedRounds(rounds)
      ensures keyRc5.data[..2 * (keyRc5.rounds + 1)] == KeyTable(key, UsedRounds(rounds))
    {
      keyRc5.SetKey(key, rounds);
      haveKeyRc5 := true;
    }

    method SetEncMethod(m: Method)
      modifies this`encMethod
      ensures encMethod == m
    {
      encMethod := m;
    }

    function DesKeyed(): (c: Cipher)
      requires Valid()
      reads this
      ensures c.Valid()
    {
      DesCipher(sp, keyDes)
    }

    function Rc5Keyed(): (c: Cipher)
      requires Valid()
      reads this, keyRc5, keyRc5.data
      ensures c.Valid()
    {
      Rc5Cipher(keyRc5.data[..], keyRc5.rounds)
    }

    method EncDecDes(data: array?<bv8>, nLen: nat, enc: bool) returns (r: int)
      requires Valid() && (data != null ==> nLen <= data.Length)
      requires data != null && haveKeyDes ==> nLen >= 8
      modifies data
      ensures r == if data == null || !haveKeyDes then -1 else nLen % 8
      ensures data != null && !haveKeyDes ==> data[..] == old(data[..])
      ensures data != null && haveKeyDes ==>
        data[..nLen] == Crypt(old(data[..nLen]), DesKeyed(), enc) && data[nLen..] == old(data[nLen..])
    {
      hide Crypt, Encrypt1, Load, Store, Underway;
      if data == null || !haveKeyDes { return -1; }
      ghost var c, goal := DesKeyed(), Crypt(data[..][..nLen], DesKeyed(), enc);
      var d := new bv32[2];
      var offset := 0;
      CryptStarts(data[..], nLen, c, enc);
      while offset <= nLen - 8
        invariant 0 <= offset <= nLen && offset % 8 == 0
        invariant Underway(data[..], goal, offset, nLen, c, enc)
        invariant data[nLen..] == old(data[nLen..])
      {
        ghost var cur := data[..];
        var x := Load(data[offset..offset + 8]);
        d[0], d[1] := x.a, x.b;
        ZesEncrypt1(d, sp, keyDes, enc);
        PutBlock(data, offset, Block(d[0], d[1]));
        CryptStep(cur, data[..], goal, offset, nLen, c, enc);
        offset := offset + 8;
      }
      CryptEnds(data[..], goal, offset, nLen, c, enc);
      r := nLen - offset;
    }

    method EncDecRc5(data: array?<bv8>, nLen: nat, enc: bool) returns (r: int)
      requires Valid() && (data != null ==> nLen <= data.Length)
      requires data != null && haveKeyRc5 ==> nLen >= 8
      modifies data
      ensures r == if data == null || !haveKeyRc5 then -1 else nLen % 8
      ensures data != null && !haveKeyRc5 ==> data[..] == old(data[..])
      ensures data != null && haveKeyRc5 ==>
        data[..nLen] == Crypt(old(data[..nLen]), Rc5Keyed(), enc) && data[nLen..] == old(data[nLen..])
    {
      hide Crypt, Rc5.Encrypt, Rc5.Decrypt, Load, Store, Underway;
      if data == null || !haveKeyRc5 { return -1; }
      ghost var c, goal := Rc5Keyed(), Crypt(data[..][..nLen], Rc5Keyed(), enc);
      var d := new bv32[2];
      var offset := 0;
      CryptStarts(data[..], nLen, c, enc);
      while offset <= nLen - 8
        invariant 0 <= offset <= nLen && offset % 8 == 0 && c == Rc5Keyed()
        invariant Underway(data[..], goal, offset, nLen, c, enc)
        invariant data[nLen..] == old(data[nLen..])
      {
        ghost var cur := data[..];
        var x := Load(data[offset..offset + 8]);
        d[0], d[1] := x.a, x.b;
        if enc {
          Rc5Encrypt(d, keyRc5.data[..], keyRc5.rounds);
        } else {
          Rc5Decrypt(d, keyRc5.data[..], keyRc5.rounds);
        }
        PutBlock(data, offset, Block(d[0], d[1]));
        CryptStep(cur, data[..], goal, offset, nLen, c, enc);
        offset := offset + 8;
      }
      CryptEnds(data[..], goal, offset, nLen, c, enc);
      r := nLen - offset;
    }

    /** The method is chosen and has its key. */
    predicate Active()
      reads this
    {
      (encMethod.Des? && haveKeyDes) || (encMethod.Rc5? && haveKeyRc5)
    }

    function Keyed(): (c: Cipher)
      requires Valid()
      reads this, keyRc5, keyRc5.data
      ensures c.Valid()
    {
      if encMethod.Des? then DesKeyed() else Rc5Keyed()
    }

    /** Encrypt or decrypt the whole blocks of a buffer under the chosen method. */
    method EncDec(data: array?<bv8>, nLen: nat, enc: bool) returns (r: int)
      requires Valid() && (data != null ==> nLen <= data.Length)
      requires data != null && Active() ==> nLen >= 8
      modifies data
      ensures r == if encMethod.Other? then -2 else if data == null || !Active() then -1 else nLen % 8
      ensures data != null && !Active() ==> data[..] == old(data[..])
      ensures data != null && Active() ==>
        data[..nLen] == Crypt(old(data[..nLen]), Keyed(), enc) && data[nLen..] == old(data[nLen..])
    {
      match encMethod {
        case None => r := -1;
        case Des => r := EncDecDes(data, nLen, enc);
        case Rc5 => r := EncDecRc5(data, nLen, enc);
        case Other => r := -2;
      }
    }

    /** Encrypting and decrypting in place with the same method and key restores the buffer. */
    method RoundTrip(data: array<bv8>, nLen: nat, enc: bool) returns (r0: int, r1: int)
      requires Valid() && Active() && 8 <= nLen <= data.Length
      modifies data
      ensures r0 == r1 == nLen % 8 && data[..] == old(data[..])
    {
      hide Crypt;
      ghost var before, c := data[..], Keyed();
      r0 := EncDec(data, nLen, enc);
      r1 := EncDec(data, nLen, !enc);
      CryptInverse(before[..nLen], c, enc);
      Joined(data[..], before, nLen);
    }
  }

  lemma Joined(s: seq<bv8>, t: seq<bv8>, n: nat)
    requires n <= |s| && n <= |t| && s[..n] == t[..n] && s[n..] == t[n..]
    ensures s == t
  {
    assert s == s[..n] + s[n..] && t == t[..n] + t[n..];
  }

  method PutBlock(data: array<bv8>, offset: nat, x: Block)
    requires offset + 8 <= data.Length
    modifies data
    ensures data[..] == old(data[..])[..offset] + Store(x) + old(data[..])[offset + 8..]
  {
    var s, i := Store(x), 0;
    while i < 8
      invariant 0 <= i <= 8
      invariant forall k :: 0 <= k < i ==> data[offset + k] == s[k]
      invariant forall k :: 0 <= k < data.Length && !(offset <= k < offset + i) ==> data[k] == old(data[k])
    {
      data[offset + i] := s[i];
      i := i + 1;
    }
    Spliced(old(data[..]), data[..], offset, s);
  }

  lemma Spliced(cur: seq<bv8>, next: seq<bv8>, offset: nat, s: seq<bv8>)
    requires |cur| == |next| && offset + |s| <= |cur|
    requires forall k :: 0 <= k < |s| ==> next[offset + k] == s[k]
    requires forall k :: 0 <= k < |cur| && !(offset <= k < offset + |s|) ==> next[k] == cur[k]
    ensures next == cur[..offset] + s + cur[offset + |s|..]
  {
    assert next[offset..offset + |s|] == s;
    assert next == next[..offset] + next[offset..offset + |s|] + next[offset + |s|..];
  }
}

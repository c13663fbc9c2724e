/** The RC5 key table: bytes to words, the initial table, and three passes of mixing. */
module Rc5Key {
  import opened Rc5

  // ---- what the table should be ---------------------------------------------------------------

  /** Byte k of the key, 0 past its end. */
  function KeyByte(key: seq<bv8>, k: nat): bv32 { if k < |key| then key[k] as bv32 else 0 }

  /** The little-endian word of four bytes. */
  function Little(b0: bv32, b1: bv32, b2: bv32, b3: bv32): bv32 { b0 | (b1 << 8) | (b2 << 16) | (b3 << 24) }

  function Word(b0: bv8, b1: bv8, b2: bv8, b3: bv8): bv32 {
    Little(b0 as bv32, b1 as bv32, b2 as bv32, b3 as bv32)
  }

  /** Little-endian word i of the zero-padded key. */
  function KeyWord(key: seq<bv8>, i: nat): bv32 {
    Little(KeyByte(key, 4 * i), KeyByte(key, 4 * i + 1), KeyByte(key, 4 * i + 2), KeyByte(key, 4 * i + 3))
  }

  function KeyWords(key: seq<bv8>): (l: seq<bv32>)
    ensures |l| == (|key| + 3) / 4 && forall i :: 0 <= i < |l| ==> l[i] == KeyWord(key, i)
  {
    seq((|key| + 3) / 4, i requires 0 <= i => KeyWord(key, i))
  }

  /** The progression P, P + Q, P + 2Q, ... */
  function InitWord(i: nat): bv32 { if i == 0 then P32 else Plus(InitWord(i - 1), Q32) }

  function InitTable(t: nat): (s: seq<bv32>)
    ensures |s| == t && forall i :: 0 <= i < t ==> s[i] == InitWord(i)
  {
    seq(t, i requires 0 <= i => InitWord(i))
  }

  datatype Mix = Mix(s: seq<bv32>, l: seq<bv32>, a: bv32, b: bv32, ii: nat, jj: nat)
  {
    predicate Valid() { ii < |s| && jj < |l| }
  }

  function Wheel(k: nat, n: nat): nat { if k + 1 >= n then 0 else k + 1 }

  function MixOnce(m: Mix): (r: Mix)
    requires m.Valid()
    ensures r.Valid() && |r.s| == |m.s| && |r.l| == |m.l|
  {
    var a := RotateL(Plus(Plus(m.s[m.ii], m.a), m.b), 3);
    var b := RotateL(Plus(Plus(m.l[m.jj], a), m.b), Plus(a, m.b));
    Mix(m.s[m.ii := a], m.l[m.jj := b], a, b, Wheel(m.ii, |m.s|), Wheel(m.jj, |m.l|))
  }

  function MixTimes(m: Mix, n: nat): (r: Mix)
    requires m.Valid()
    ensures r.Valid() && |r.s| == |m.s| && |r.l| == |m.l|
  {
    if n == 0 then m else MixOnce(MixTimes(m, n - 1))
  }

  function Max(a: nat, b: nat): nat { if a > b then a else b }

  function UsedRounds(rounds: int): nat {
    if rounds != 16 && rounds != 12 && rounds != 8 then 16 else rounds
  }

  /** The table of a key for r rounds: 2(r + 1) words after 3 max(t, c) mixing steps. */
  function KeyTable(key: seq<bv8>, rounds: nat): (s: seq<bv32>)
    requires |key| >= 1
    ensures |s| == 2 * (rounds + 1)
  {
    var t, c := 2 * (rounds + 1), (|key| + 3) / 4;
    MixTimes(Mix(InitTable(t), KeyWords(key), 0, 0, 0, 0), 3 * Max(t, c)).s
  }

  // ---- how it is filled ------------------------------------------------------------------------------

  // What the fall-through switch leaves for two, three and four bytes, read backwards.

  function Two(b0: bv32, b1: bv32): bv32 { (b1 << 8) | b0 }

  function Three(b0: bv32, b1: bv32, b2: bv32): bv32 { ((b2 << 16) | (b1 << 8)) | b0 }

  function Four(b0: bv32, b1: bv32, b2: bv32, b3: bv32): bv32 { (((b3 << 24) | (b2 << 16)) | (b1 << 8)) | b0 }

  function Backwards(b: seq<bv8>): bv32
    requires |b| <= 4
  {
    if |b| == 4 then Four(b[0] as bv32, b[1] as bv32, b[2] as bv32, b[3] as bv32)
    else if |b| == 3 then Three(b[0] as bv32, b[1] as bv32, b[2] as bv32)
    else if |b| == 2 then Two(b[0] as bv32, b[1] as bv32)
    else if |b| == 1 then b[0] as bv32
    else 0
  }

  lemma FourBytes(b0: bv32, b1: bv32, b2: bv32, b3: bv32)
    ensures Little(b0, b1, b2, b3) == Four(b0, b1, b2, b3)
  {
  }

  /** Zero bytes vanish from a word. */
  lemma ZerosVanish(b0: bv32, b1: bv32, b2: bv32)
    ensures Little(b0, b1, b2, 0) == b0 | (b1 << 8) | (b2 << 16)
    ensures Little(b0, b1, 0, 0) == b0 | (b1 << 8)
    ensures Little(b0, 0, 0, 0) == b0
  {
  }

  lemma OrSwaps(x: bv32, y: bv32)
    ensures x | y == y | x
  {
  }

  lemma OrReverses(x: bv32, y: bv32, z: bv32)
    ensures x | y | z == (z | y) | x
  {
  }

  lemma ThreeBytes(b0: bv32, b1: bv32, b2: bv32)
    ensures Little(b0, b1, b2, 0) == Three(b0, b1, b2)
  {
    hide Little;
    ZerosVanish(b0, b1, b2);
    OrReverses(b0, b1 << 8, b2 << 16);
  }

  lemma TwoBytes(b0: bv32, b1: bv32)
    ensures Little(b0, b1, 0, 0) == Two(b0, b1)
  {
    hide Little;
    ZerosVanish(b0, b1, 0);
    OrSwaps(b0, b1 << 8);
  }

  lemma BackwardsIsLittle(b: seq<bv8>)
    requires |b| <= 4
    ensures Backwards(b) == Little(KeyByte(b, 0), KeyByte(b, 1), KeyByte(b, 2), KeyByte(b, 3))
  {
    hide Little, Two, Three, Four;
    if |b| == 4 {
      FourBytes(KeyByte(b, 0), KeyByte(b, 1), KeyByte(b, 2), KeyByte(b, 3));
    } else if |b| == 3 {
      ThreeBytes(KeyByte(b, 0), KeyByte(b, 1), KeyByte(b, 2));
    } else if |b| == 2 {
      TwoBytes(KeyByte(b, 0), KeyByte(b, 1));
    } else {
      ZerosVanish(KeyByte(b, 0), 0, 0);
    }
  }

  lemma SliceByte(key: seq<bv8>, at: nat, m: nat, k: nat)
    requires m <= 4 && at + m <= |key| && (m < 4 ==> at + m == |key|) && k < 4
    ensures KeyByte(key[at..at + m], k) == KeyByte(key, at + k)
  {
  }

  /** A word of the last m bytes of the key; up to four. */
  method TailWord(key: seq<bv8>, at: nat, m: nat) returns (l: bv32)
    requires at % 4 == 0 && m <= 4 && at + m <= |key| && (m < 4 ==> at + m == |key|)
    ensures l == KeyWord(key, at / 4)
  {
    hide Little, Backwards, KeyByte;
    assert 4 * (at / 4) == at;
    l := Backwards(key[at..at + m]);
    BackwardsIsLittle(key[at..at + m]);
    SliceByte(key, at, m, 0);
    SliceByte(key, at, m, 1);
    SliceByte(key, at, m, 2);
    SliceByte(key, at, m, 3);
  }

  lemma Quarters(at: nat)
    requires at % 8 == 0
    ensures at % 4 == 0 && (at + 4) % 4 == 0 && (at + 4) / 4 == at / 4 + 1 && 4 * (at / 4) == at
  {
  }

  /** The last one to seven bytes as two words. */
  method LastBytes(key: seq<bv8>, at: nat) returns (l1: bv32, l2: bv32)
    requires at % 8 == 0 && at < |key| < at + 8
    ensures l1 == KeyWord(key, at / 4) && l2 == KeyWord(key, at / 4 + 1)
  {
    hide KeyWord;
    Quarters(at);
    var n := |key| - at;
    l2 := 0;
    if n >= 5 {
      l2 := TailWord(key, at + 4, n - 4);
      l1 := TailWord(key, at, 4);
    } else {
      l1 := TailWord(key, at, n);
      PastEnd(key, at / 4 + 1);
    }
  }

  lemma PastEnd(key: seq<bv8>, i: nat)
    requires 4 * i >= |key|
    ensures KeyWord(key, i) == 0
  {
    ZerosVanish(0, 0, 0);
  }

  /** Four bytes of the key as a word, low byte first. */
  function KeyBytes(key: seq<bv8>, at: nat): bv32
    requires at + 4 <= |key|
  {
    Word(key[at], key[at + 1], key[at + 2], key[at + 3])
  }

  lemma WholeWord(key: seq<bv8>, i: nat)
    requires 4 * i + 4 <= |key|
    ensures KeyWord(key, i) == KeyBytes(key, 4 * i)
  {
  }

  /** Load the key into words, two at a time and then the rest. */
  method LoadKey(key: seq<bv8>, words: array<bv32>)
    requires 1 <= |key| <= 256 && words.Length == 64
    modifies words
    ensures words[..(|key| + 3) / 4] == KeyWords(key)
  {
    hide KeyBytes, KeyWord;
    var i, j := 0, 0;
    while i + 8 <= |key|
      invariant 0 <= i <= |key| && i == 4 * j && j % 2 == 0
      invariant forall k :: 0 <= k < j ==> words[k] == KeyWord(key, k)
    {
      WholeWord(key, j);
      WholeWord(key, j + 1);
      words[j] := KeyBytes(key, i);
      j := j + 1;
      words[j] := KeyBytes(key, i + 4);
      j := j + 1;
      i := i + 8;
    }
    if |key| - i != 0 {
      var l, ll := LastBytes(key, i);
      words[j] := l;
      words[j + 1] := ll;
    }
  }

  lemma MixStarts(m: Mix)
    requires m.Valid()
    ensures MixTimes(m, 0) == m
  {
  }

  lemma MixGoesOn(m: Mix, n: nat)
    requires m.Valid()
    ensures MixTimes(m, n + 1) == MixOnce(MixTimes(m, n))
  {
  }

  class Rc5KeyTable {
    var rounds: int
    const data: array<bv32>

    constructor ()
      ensures rounds == 0 && data.Length == 34 && fresh(data)
    {
      rounds := 0;
      data := new bv32[34](_ => 0);
    }

    /** Fill the table for the key; round counts other than 8, 12 and 16 become 16. */
    method SetKey(key: seq<bv8>, rounds0: int)
      requires data.Length == 34 && 1 <= |key| <= 256
      modifies this, data
      ensures rounds == UsedRounds(rounds0)
      ensures data[..2 * (rounds + 1)] == KeyTable(key, UsedRounds(rounds0))
      ensures data[2 * (rounds + 1)..] == old(data[2 * (UsedRounds(rounds0) + 1)..])
    {
      hide RotateL, Plus, MixOnce, InitWord, KeyWord;
      rounds := if rounds0 != 16 && rounds0 != 12 && rounds0 != 8 then 16 else rounds0;
      var words := new bv32[64];
      LoadKey(key, words);
      var c, t := (|key| + 3) / 4, 2 * (rounds + 1);
      FillTable(t);
      MixKey(words, t, c);
      assert data[..t] == KeyTable(key, rounds);
    }

    method FillTable(t: nat)
      requires data.Length == 34 && 1 <= t <= 34
      modifies data
      ensures data[..t] == InitTable(t) && data[t..] == old(data[t..])
    {
      hide Plus;
      data[0] := P32;
      var i := 1;
      while i < t
        invariant 1 <= i <= t && data[t..] == old(data[t..])
        invariant forall k :: 0 <= k < i ==> data[k] == InitWord(k)
      {
        data[i] := Plus(data[i - 1], Q32);
        i := i + 1;
      }
    }

    method MixKey(words: array<bv32>, t: nat, c: nat)
      requires data.Length == 34 && 1 <= t <= 34 && 1 <= c <= 64 && words.Length == 64 && words != data
      modifies data, words
      ensures data[..t] == MixTimes(Mix(old(data[..t]), old(words[..c]), 0, 0, 0, 0), 3 * Max(t, c)).s
      ensures data[t..] == old(data[t..])
    {
      hide RotateL, Plus, MixTimes;
      ghost var start := Mix(data[..t], words[..c], 0, 0, 0, 0);
      var steps := 3 * (if t > c then t else c);
      var ii, jj, a: bv32, b: bv32 := 0, 0, 0, 0;
      var i := 0;
      MixStarts(start);
      while i < steps
        invariant 0 <= i <= steps && ii < t && jj < c
        invariant Mix(data[..t], words[..c], a, b, ii, jj) == MixTimes(start, i)
        invariant data[t..] == old(data[t..])
      {
        MixGoesOn(start, i);
        ghost var m := Mix(data[..t], words[..c], a, b, ii, jj);
        var k := Plus(Plus(data[ii], a), b);
        a := RotateL(k, 3);
        data[ii] := a;
        var turn := Plus(a, b);
        k := Plus(Plus(words[jj], a), b);
        b := RotateL(k, turn);
        words[jj] := b;
        assert data[..t] == m.s[ii := a] && words[..c] == m.l[jj := b];
        ii := ii + 1;
        if ii >= t { ii := 0; }
        jj := jj + 1;
        if jj >= c { jj := 0; }
        assert Mix(data[..t], words[..c], a, b, ii, jj) == MixOnce(m);
        i := i + 1;
      }
    }
  }
}

/** The ciphers as they run: words overwritten round by round, tables filled by loops. */
module MiniCrypt {
  import opened Zes
  import opened Rc5

  // ---- the DES-shaped cipher -------------------------------------------------------------------

  function Words(data: array<bv32>): Block
    requires data.Length >= 2
    reads data
  {
    Block(data[0], data[1])
  }

  lemma OneRound(sp: Sbox, x: Block, ks: seq<Key>, n: nat)
    requires n < |ks|
    ensures Rounds(sp, x, ks[..n + 1]) == Round(sp, Rounds(sp, x, ks[..n]), ks[n])
  {
    hide F, Round;
    assert ks[..n + 1][..n] == ks[..n];
  }

  function Four(sp: Sbox, x: Block, k0: Key, k1: Key, k2: Key, k3: Key): Block {
    Round(sp, Round(sp, Round(sp, Round(sp, x, k0), k1), k2), k3)
  }

  lemma FourRounds(sp: Sbox, x: Block, ks: seq<Key>, n: nat)
    requires n + 4 <= |ks|
    ensures Rounds(sp, x, ks[..n + 4]) == Four(sp, Rounds(sp, x, ks[..n]), ks[n], ks[n + 1], ks[n + 2], ks[n + 3])
  {
    hide F, Round, Rounds;
    OneRound(sp, x, ks, n);
    OneRound(sp, x, ks, n + 1);
    OneRound(sp, x, ks, n + 2);
    OneRound(sp, x, ks, n + 3);
  }

  /** Four rounds, the words changing roles in place. */
  method FourSteps(sp: Sbox, l0: bv32, r0: bv32, k0: Key, k1: Key, k2: Key, k3: Key) returns (l: bv32, r: bv32)
    ensures Block(l, r) == Four(sp, Block(l0, r0), k0, k1, k2, k3)
  {
    hide DEncrypt;
    l, r := l0, r0;
    l := DEncrypt(sp, l, r, k0);
    r := DEncrypt(sp, r, l, k1);
    l := DEncrypt(sp, l, r, k2);
    r := DEncrypt(sp, r, l, k3);
  }

  /** The sixteen rounds, four to an iteration. */
  method SixteenRounds(sp: Sbox, l0: bv32, r0: bv32, ks: seq<Key>, enc: bool) returns (l: bv32, r: bv32)
    requires Schedule(ks)
    ensures Block(l, r) == Rounds(sp, Block(l0, r0), Order(ks, enc))
  {
    hide F, Rounds, Round, Four;
    l, r := l0, r0;
    ghost var x, o := Block(l0, r0), Order(ks, enc);
    assert o[..16] == o;
    NoRounds(sp, x, o);
    if enc {
      var i := 0;
      while i < 32
        invariant i == 0 || i == 8 || i == 16 || i == 24 || i == 32
        invariant Block(l, r) == Rounds(sp, x, o[..i / 2])
      {
        FourRounds(sp, x, o, i / 2);
        l, r := FourSteps(sp, l, r, ks[i / 2], ks[i / 2 + 1], ks[i / 2 + 2], ks[i / 2 + 3]);
        i := i + 8;
      }
    } else {
      var i := 30;
      while i > 0
        invariant i == 30 || i == 22 || i == 14 || i == 6 || i == -2
        invariant Block(l, r) == Rounds(sp, x, o[..15 - i / 2])
      {
        FourRounds(sp, x, o, 15 - i / 2);
        l, r := FourSteps(sp, l, r, ks[i / 2], ks[i / 2 - 1], ks[i / 2 - 2], ks[i / 2 - 3]);
        i := i - 8;
      }
    }
  }

  lemma NoRounds(sp: Sbox, x: Block, ks: seq<Key>)
    ensures Rounds(sp, x, ks[..0]) == x
  {
  }

  method ZesEncrypt2(data: array<bv32>, sp: Sbox, ks: seq<Key>, enc: bool)
    requires data.Length >= 2 && Schedule(ks)
    modifies data
    ensures Words(data) == Encrypt2(sp, old(Words(data)), ks, enc)
    ensures data[2..] == old(data[2..])
  {
    hide Rounds, RotateRight;
    var r, l := data[0], data[1];
    r := RotateRight(r, 29);
    l := RotateRight(l, 29);
    l, r := SixteenRounds(sp, l, r, ks, enc);
    data[0] := RotateRight(l, 3);
    data[1] := RotateRight(r, 3);
  }

  method ZesEncrypt1(data: array<bv32>, sp: Sbox, ks: seq<Key>, enc: bool)
    requires data.Length >= 2 && Schedule(ks)
    modifies data
    ensures Words(data) == Encrypt1(sp, old(Words(data)), ks, enc)
    ensures data[2..] == old(data[2..])
  {
    hide Rounds, RotateRight, IP, FP;
    var r, l := data[0], data[1];
    var x := IP(Block(r, l));
    r, l := x.a, x.b;
    r := RotateRight(r, 29);
    l := RotateRight(l, 29);
    l, r := SixteenRounds(sp, l, r, ks, enc);
    l := RotateRight(l, 3);
    r := RotateRight(r, 3);
    x := FP(Block(r, l));
    r, l := x.a, x.b;
    data[0] := l;
    data[1] := r;
  }

  method ZesEncrypt3(data: array<bv32>, sp: Sbox, ks1: seq<Key>, ks2: seq<Key>, ks3: seq<Key>)
    requires data.Length >= 2 && Schedule(ks1) && Schedule(ks2) && Schedule(ks3)
    modifies data
    ensures Words(data) == Encrypt3(sp, old(Words(data)), ks1, ks2, ks3)
    ensures data[2..] == old(data[2..])
  {
    hide Encrypt2, IP, FP;
    var x := IP(Block(data[0], data[1]));
    data[0] := x.a;
    data[1] := x.b;
    ZesEncrypt2(data, sp, ks1, true);
    ZesEncrypt2(data, sp, ks2, false);
    ZesEncrypt2(data, sp, ks3, true);
    x := FP(Block(data[1], data[0]));
    data[0] := x.b;
    data[1] := x.a;
  }

  method ZesDecrypt3(data: array<bv32>, sp: Sbox, ks1: seq<Key>, ks2: seq<Key>, ks3: seq<Key>)
    requires data.Length >= 2 && Schedule(ks1) && Schedule(ks2) && Schedule(ks3)
    modifies data
    ensures Words(data) == Decrypt3(sp, old(Words(data)), ks1, ks2, ks3)
    ensures data[2..] == old(data[2..])
  {
    hide Encrypt2, IP, FP;
    var x := IP(Block(data[0], data[1]));
    data[0] := x.a;
    data[1] := x.b;
    ZesEncrypt2(data, sp, ks3, false);
    ZesEncrypt2(data, sp, ks2, true);
    ZesEncrypt2(data, sp, ks1, false);
    x := FP(Block(data[1], data[0]));
    data[0] := x.b;
    data[1] := x.a;
  }

  // ---- RC5 ------------------------------------------------------------------------------------------

  method Rc5Encrypt(d: array<bv32>, data: seq<bv32>, rounds: int)
    requires d.Length >= 2 && |data| == 34
    modifies d
    ensures Words(d) == Rc5.Encrypt(old(Words(d)), data, rounds)
    ensures d[2..] == old(d[2..])
  {
    hide E;
    var x := Block(Plus(d[0], data[0]), Plus(d[1], data[1]));
    // written out in the source: eight rounds, then four more or eight more
    var last := if rounds == 12 then 12 else if rounds == 16 then 16 else 8;
    var n := 1;
    while n <= last
      invariant 1 <= n <= last + 1 && x == Forth(old(Words(d)), data, n - 1)
    {
      x := E(x, data[2 * n], data[2 * n + 1]);
      n := n + 1;
    }
    d[0] := x.a;
    d[1] := x.b;
  }

  method Rc5Decrypt(d: array<bv32>, data: seq<bv32>, rounds: int)
    requires d.Length >= 2 && |data| == 34
    modifies d
    ensures Words(d) == Rc5.Decrypt(old(Words(d)), data, rounds)
    ensures d[2..] == old(d[2..])
  {
    hide D;
    var x := Block(d[0], d[1]);
    var n := if rounds == 16 then 16 else if rounds == 12 then 12 else 8;
    while n >= 1
      invariant 0 <= n <= 16 && Back(x, data, n) == Rc5.Decrypt(old(Words(d)), data, rounds)
    {
      x := D(x, data[2 * n], data[2 * n + 1]);
      n := n - 1;
    }
    d[0] := Minus(x.a, data[0]);
    d[1] := Minus(x.b, data[1]);
  }
}

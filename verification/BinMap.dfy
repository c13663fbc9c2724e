/** Size classes of the pool allocator: how a request in bytes is turned into a
    bin index.  The lookup table is filled by a loop over 16-bit counters, so
    its correctness is a statement about wrapping arithmetic. */
module BinMap {

  const U16: nat := 0x1_0000

  /** The k-th size class: bin, 2*bin, 4*bin, ... */
  function Size(bin: nat, k: nat): nat
    decreases k
  {
    if k == 0 then bin else Size(2 * bin, k - 1)
  }

  lemma {:induction false} SizeDoubles(bin: nat, k: nat)
    ensures Size(bin, k + 1) == 2 * Size(bin, k)
    ensures Size(bin, k) >= bin
    decreases k
  {
    if k > 0 { SizeDoubles(2 * bin, k - 1); }
  }

  lemma {:induction false} SizeMonotone(bin: nat, j: nat, k: nat)
    requires j <= k
    ensures Size(bin, j) <= Size(bin, k)
    decreases k - j
  {
    if j < k {
      SizeMonotone(bin, j, k - 1);
      SizeDoubles(bin, k - 1);
    }
  }

  /** Index of the first size class that holds `bytes`. */
  function Which(bin: nat, bytes: nat): nat
    requires bin >= 1
    decreases if bytes > bin then bytes - bin else 0
  {
    if bytes <= bin then 0 else 1 + Which(2 * bin, bytes)
  }

  lemma {:induction false} WhichIsSmallestFit(bin: nat, bytes: nat)
    requires bin >= 1
    ensures bytes <= Size(bin, Which(bin, bytes))
    ensures forall k: nat :: k < Which(bin, bytes) ==> Size(bin, k) < bytes
    decreases if bytes > bin then bytes - bin else 0
  {
    if bytes > bin {
      WhichIsSmallestFit(2 * bin, bytes);
      forall k: nat | k < Which(bin, bytes)
        ensures Size(bin, k) < bytes
      {
        if k > 0 { assert Size(bin, k) == Size(2 * bin, k - 1); }
      }
    }
  }

  lemma {:induction false} WhichMonotone(bin: nat, a: nat, b: nat)
    requires bin >= 1 && a <= b
    ensures Which(bin, a) <= Which(bin, b)
    decreases if b > bin then b - bin else 0
  {
    if a > bin { WhichMonotone(2 * bin, a, b); }
  }

  /** One more byte stays in its class or moves to the next one. */
  lemma {:induction false} WhichNext(bin: nat, bytes: nat)
    requires bin >= 1
    ensures Which(bin, bytes + 1) == if bytes + 1 <= Size(bin, Which(bin, bytes))
                                     then Which(bin, bytes) else Which(bin, bytes) + 1
    decreases if bytes > bin then bytes - bin else 0
  {
    if bytes > bin { WhichNext(2 * bin, bytes); }
  }

  /** Number of bins the initializer counts for requests up to maxBytes. */
  function BinCount(minBin: nat, maxBytes: nat): (n: nat)
    requires minBin >= 1
    ensures n >= 1
  {
    1 + Which(minBin, maxBytes)
  }

  /** A sum of two 16-bit values, kept to 16 bits. */
  function Low16(x: nat): (r: nat)
    requires x < 2 * U16
    ensures r < U16
  {
    if x < U16 then x else x - U16
  }

  /** The loop's two 16-bit registers, bin_max and bint. */
  datatype Regs = Regs(binMax: nat, bint: nat)
  {
    predicate Fit() { binMax < U16 && bint < U16 }
  }

  /** One iteration of the filling loop on its registers. */
  function NextRegisters(regs: Regs, ct: nat): (r: Regs)
    requires regs.Fit()
    ensures r.Fit()
  {
    if ct > regs.binMax then Regs(Low16(2 * regs.binMax), Low16(regs.bint + 1)) else regs
  }

  /** The registers after the iteration for `ct`. */
  function Registers(minBin: nat, ct: nat): (r: Regs)
    requires minBin < U16
    ensures r.Fit()
  {
    NextRegisters(if ct == 0 then Regs(minBin, 0) else Registers(minBin, ct - 1), ct)
  }

  /** Index of the largest size class that 16 bits can hold. */
  function Steps16(bin: nat): nat
    requires 1 <= bin < U16
    decreases U16 - bin
  {
    if 2 * bin < U16 then 1 + Steps16(2 * bin) else 0
  }

  /** The largest size class that 16 bits can hold. */
  function Largest16(bin: nat): nat
    requires 1 <= bin < U16
  {
    Size(bin, Steps16(bin))
  }

  lemma Largest16Step(bin: nat)
    requires 1 <= bin < U16
    ensures if 2 * bin < U16
            then Largest16(bin) == Largest16(2 * bin) && Steps16(bin) == 1 + Steps16(2 * bin)
            else Largest16(bin) == bin && Steps16(bin) == 0
  {
  }

  lemma {:induction false} Largest16Range(bin: nat)
    requires 1 <= bin < U16
    ensures bin <= Largest16(bin) < U16 <= 2 * Largest16(bin)
    ensures Largest16(bin) >= 2 * Steps16(bin) + if bin >= 2 then bin else 0
    decreases U16 - bin
  {
    hide Largest16, Steps16;
    Largest16Step(bin);
    if 2 * bin < U16 { Largest16Range(2 * bin); }
  }

  lemma {:induction false} Largest16Class(bin: nat)
    requires 1 <= bin < U16
    ensures Which(bin, Largest16(bin)) == Steps16(bin)
    decreases U16 - bin
  {
    Largest16Range(bin);
    if 2 * bin < U16 {
      Largest16Range(2 * bin);
      Largest16Class(2 * bin);
    }
  }

  lemma Largest16Shape(bin: nat)
    requires 1 <= bin < U16
    ensures bin <= Largest16(bin) < U16 <= 2 * Largest16(bin)
    ensures Largest16(bin) >= 2 * Steps16(bin) + if bin >= 2 then bin else 0
    ensures Which(bin, Largest16(bin)) == Steps16(bin) && Largest16(bin) == Size(bin, Steps16(bin))
  {
    Largest16Range(bin);
    Largest16Class(bin);
  }

  lemma ClassBelow64K(minBin: nat, ct: nat)
    requires 1 <= minBin < U16 && ct <= Largest16(minBin)
    ensures Which(minBin, ct) < U16 && Size(minBin, Which(minBin, ct)) < U16
  {
    Largest16Shape(minBin);
    WhichMonotone(minBin, ct, Largest16(minBin));
    SizeMonotone(minBin, Which(minBin, ct), Steps16(minBin));
  }

  lemma RegistersStep(minBin: nat, ct: nat)
    requires minBin < U16
    ensures Registers(minBin, ct) == NextRegisters(if ct == 0 then Regs(minBin, 0) else Registers(minBin, ct - 1), ct)
    ensures Size(minBin, 0) == minBin && (minBin >= 1 ==> Which(minBin, 0) == 0)
  {
  }

  /** While no size class overflows, the registers hold the current class. */
  lemma {:induction false} RegistersBeforeWrap(minBin: nat, ct: nat)
    requires 1 <= minBin < U16 && ct <= Largest16(minBin)
    ensures Registers(minBin, ct) == Regs(Size(minBin, Which(minBin, ct)), Which(minBin, ct))
  {
    hide Registers, Size, Which, Largest16;
    RegistersStep(minBin, ct);
    if ct > 0 {
      RegistersBeforeWrap(minBin, ct - 1);
      var v, w := Which(minBin, ct - 1), Which(minBin, ct);
      assert w == if ct <= Size(minBin, v) then v else v + 1 by { WhichNext(minBin, ct - 1); }
      assert Size(minBin, v + 1) == 2 * Size(minBin, v) by { SizeDoubles(minBin, v); }
      assert w < U16 && Size(minBin, w) < U16 by { ClassBelow64K(minBin, ct); }
    }
  }

  lemma CrossWrap(minBin: nat, ct: nat, bint: nat)
    requires minBin < U16 && ct < U16 <= 2 * ct && bint + 2 < U16
    requires Registers(minBin, ct) == Regs(ct, bint)
    ensures Registers(minBin, ct + 1).bint == bint + 1
    ensures Registers(minBin, ct + 2).bint == bint + 2
  {
    var r1 := NextRegisters(Regs(ct, bint), ct + 1);
    assert Registers(minBin, ct + 1) == r1;
    assert Registers(minBin, ct + 2) == NextRegisters(r1, ct + 2);
  }

  /** The two iterations after the largest class: the first still lands right,
      but bin_max wraps below ct, so the second one moves on once more. */
  lemma RegistersAtWrap(minBin: nat)
    requires 1 <= minBin < U16
    ensures var L := Largest16(minBin);
      && Registers(minBin, L + 1).bint == Which(minBin, L + 1)
      && Registers(minBin, L + 2).bint == Which(minBin, L + 2) + 1
  {
    hide Size, Which, Largest16, Steps16, Registers;
    var L, s := Largest16(minBin), Steps16(minBin);
    assert Size(minBin, s) == L by { Largest16Shape(minBin); }
    assert L < U16 <= 2 * L && 2 * s <= L && Which(minBin, L) == s by { Largest16Shape(minBin); }
    assert Size(minBin, s + 1) == 2 * L by { SizeDoubles(minBin, s); }
    assert Which(minBin, L + 1) == s + 1 by { WhichNext(minBin, L); }
    assert Which(minBin, L + 2) == s + 1 by { WhichNext(minBin, L + 1); }
    assert Registers(minBin, L) == Regs(L, s) by { RegistersBeforeWrap(minBin, L); }
    CrossWrap(minBin, L, s);
  }

  /** The table sends every size to the smallest class that fits exactly when the
      requests stop at one byte past the largest 16-bit class. */
  lemma BinmapExactIff(minBin: nat, maxBytes: nat)
    requires 1 <= minBin < U16
    ensures (forall ct: nat :: ct <= maxBytes ==> Registers(minBin, ct).bint == Which(minBin, ct))
            <==> maxBytes <= Largest16(minBin) + 1
  {
    RegistersAtWrap(minBin);
    if maxBytes <= Largest16(minBin) + 1 {
      forall ct: nat | ct <= maxBytes
        ensures Registers(minBin, ct).bint == Which(minBin, ct)
      {
        if ct <= Largest16(minBin) { RegistersBeforeWrap(minBin, ct); }
      }
    }
  }

  /** With the smallest class 8, a limit of 32770 bytes is one too many. */
  lemma BinmapWrongAt32770()
    ensures Registers(8, 32770).bint != Which(8, 32770)
  {
    RegistersAtWrap(8);
    assert Steps16(8) == 12 by {
      assert Steps16(128) == 8 by { assert Steps16(2048) == 4; }
    }
    assert Size(8, 12) == 32768 by {
      assert Size(8, 12) == Size(128, 8) == Size(2048, 4);
    }
  }

  /** The sizing part of the initializer: counts the bins, then fills the table. */
  method BuildBinmap(minBin: nat, maxBytes: nat) returns (binCount: nat, binmap: array<nat>)
    requires 1 <= minBin < U16 && maxBytes < U16 - 1
    ensures binCount == BinCount(minBin, maxBytes)
    ensures fresh(binmap) && binmap.Length == maxBytes + 1
    ensures forall ct :: 0 <= ct <= maxBytes ==> binmap[ct] == Registers(minBin, ct).bint
    ensures maxBytes <= Largest16(minBin) + 1 ==>
              forall ct :: 0 <= ct <= maxBytes ==>
                binmap[ct] == Which(minBin, ct) && binmap[ct] < binCount
  {
    var binSize := minBin;
    binCount := 1;
    while maxBytes > binSize
      invariant binSize >= 1
      invariant binCount + Which(binSize, maxBytes) == BinCount(minBin, maxBytes)
      decreases maxBytes - binSize
    {
      binSize := 2 * binSize;
      binCount := binCount + 1;
    }
    binmap := new nat[maxBytes + 1];
    FillBinmap(minBin, maxBytes, binmap);
    if maxBytes <= Largest16(minBin) + 1 {
      BinmapExactIff(minBin, maxBytes);
      forall ct | 0 <= ct <= maxBytes
        ensures Registers(minBin, ct).bint == Which(minBin, ct) < binCount
      {
        WhichMonotone(minBin, ct, maxBytes);
      }
    }
  }

  method FillBinmap(minBin: nat, maxBytes: nat, binmap: array<nat>)
    requires 1 <= minBin < U16 && maxBytes < U16 - 1 && binmap.Length == maxBytes + 1
    modifies binmap
    ensures forall ct :: 0 <= ct <= maxBytes ==> binmap[ct] == Registers(minBin, ct).bint
  {
    var regs := Regs(minBin, 0);
    var ct := 0;
    while ct <= maxBytes
      invariant 0 <= ct <= maxBytes + 1 && regs.Fit()
      invariant regs == if ct == 0 then Regs(minBin, 0) else Registers(minBin, ct - 1)
      invariant forall j {:trigger binmap[j]} :: 0 <= j < ct ==> binmap[j] == Registers(minBin, j).bint
    {
      ghost var next := NextRegisters(regs, ct);
      assert next == Registers(minBin, ct);
      if ct > regs.binMax {
        regs := Regs(Low16(2 * regs.binMax), Low16(regs.bint + 1));
      }
      assert regs == next;
      binmap[ct] := regs.bint;
      ct := ct + 1;
    }
  }
}

/** Compact targets and the work of a block. */
module BlockProofs {
  import opened Arithmetic
  import opened Powers
  import opened Limbs
  import opened Shifts
  import opened ArithUints

  // ---------- the compact format ----------

  function Exponent(n: nat): nat { n / 0x1000000 }

  function Mantissa(n: nat): nat { n % 0x800000 }

  predicate SignBit(n: nat) { (n / 0x800000) % 2 == 1 }

  /** The absolute value that a compact number denotes. */
  ghost function Denoted(n: nat): nat {
    if Exponent(n) <= 3 then DivMod(Mantissa(n), Pow2(8 * (3 - Exponent(n)))); Mantissa(n) / Pow2(8 * (3 - Exponent(n)))
    else Mantissa(n) * Pow2(8 * (Exponent(n) - 3))
  }

  lemma {:induction false} Bytes(n: nat)
    ensures Pow2(n + 8) == 256 * Pow2(n) && Pow2(n + 16) == 0x10000 * Pow2(n) && Pow2(n + 24) == 0x1000000 * Pow2(n)
    ensures Pow2(n + 23) == 0x800000 * Pow2(n)
  {
    hide Pow2;
    Pow8(n);
    Pow8(n + 8);
    Pow8(n + 16);
    PowNext(n + 23);
  }

  lemma {:induction false} Width()
    ensures Weight(8) == Pow2(256)
  {
    hide Pow2;
  }

  /** The overflow flag says exactly that the value does not fit into 256 bits. */
  lemma {:induction false} OverflowExact(w: nat, e: nat)
    requires w < 0x800000 && e > 3
    ensures (w != 0 && (e > 34 || (w > 0xff && e > 33) || (w > 0xffff && e > 32))) <==> w * Pow2(8 * (e - 3)) >= Weight(8)
  {
    hide Pow2, Weight;
    Width();
    var s := 8 * (e - 3);
    var p := Pow2(s);
    if e > 34 {
      PowMono(256, s);
      if w > 0 { TimesMono(1, w, p); }
    } else if e == 34 {
      Bytes(248);
      Scales(w, 256, p);
    } else if e == 33 {
      Bytes(240);
      Scales(w, 0x10000, p);
    } else {
      PowMono(s + 23, 256);
      Bytes(s);
      Above(w, 0x800000, p);
    }
  }

  lemma {:induction false} Scales(w: nat, k: nat, p: nat)
    requires p > 0
    ensures w * p >= k * p <==> w >= k
  {
    if w >= k { TimesMono(k, w, p); } else { Above(w, k, p); }
  }

  method SetCompact(x: BaseUint, nCompact: nat) returns (negative: bool, overflow: bool)
    requires x.Valid() && x.pn.Length == 8 && nCompact < BASE
    modifies x.pn
    ensures x.Valid() && x.Number() == Mod(Denoted(nCompact), Weight(8))
    ensures negative <==> Denoted(nCompact) != 0 && SignBit(nCompact)
    ensures overflow <==> Denoted(nCompact) >= Weight(8)
  {
    hide Mod, Pow2, Weight, Value;
    var nSize := Exponent(nCompact);
    var nWord := Mantissa(nCompact);
    if nSize <= 3 {
      SmallWord(nWord, Pow2(8 * (3 - nSize)));
      nWord := nWord / Pow2(8 * (3 - nSize));
      x.Set(nWord);
    } else {
      x.Set(nWord);
      x.ShiftLeft(8 * (nSize - 3));
      OverflowExact(nWord, nSize);
      Scales(nWord, 1, Pow2(8 * (nSize - 3)));
    }
    negative := nWord != 0 && SignBit(nCompact);
    overflow := nWord != 0 && (nSize > 34 || (nWord > 0xff && nSize > 33) || (nWord > 0xffff && nSize > 32));
  }

  lemma {:induction false} SmallWord(w: nat, p: nat)
    requires w < 0x800000 && p > 0
    ensures 0 <= w / p < 0x800000 && Mod(w / p, Weight(8)) == w / p < Weight(8)
  {
    hide Weight;
    DivMod(w, p);
    if w / p > w {
      Above(w, w / p, p);
      TimesMono(1, p, w);
    }
    HighWeight(8);
    ModSmall(w / p, Weight(8));
  }

  // ---------- the compact form of a number ----------

  ghost function BitLen(v: nat): nat { if v == 0 then 0 else 1 + BitLen(v / 2) }

  lemma {:induction false} BitLenIs(v: nat, n: nat)
    requires BitLength(v, n)
    ensures BitLen(v) == n
  {
    if v > 0 {
      if n == 1 { assert v == 1; } else { PowNext(n - 2); }
      BitLenIs(v / 2, n - 1);
    }
  }

  lemma {:induction false} BitLenBounds(v: nat)
    ensures BitLength(v, BitLen(v))
  {
    if v > 0 { BitLenBounds(v / 2); }
  }

  /** The exponent leaves the sign bit free. */
  ghost function CompactSize(v: nat): nat { if v == 0 then 0 else BitLen(v) / 8 + 1 }

  ghost function CompactWord(v: nat): nat {
    var e := CompactSize(v);
    if e <= 3 then v * Pow2(8 * (3 - e)) else DivMod(v, Pow2(8 * (e - 3))); v / Pow2(8 * (e - 3))
  }

  /** What is left of a number in compact form. */
  ghost function Rounded(v: nat): nat {
    var e := CompactSize(v);
    if e <= 3 then v else DivMod(v, Pow2(8 * (e - 3))); (v / Pow2(8 * (e - 3))) * Pow2(8 * (e - 3))
  }

  /** v * 2^k, or v / 2^(-k), scales the bounds of v. */
  lemma {:induction false} ScaledUp(v: nat, bits: nat, k: nat)
    requires BitLength(v, bits)
    ensures BitLength(v * Pow2(k), if v == 0 then 0 else bits + k)
  {
    hide Pow2;
    PowZero();
    if v > 0 {
      PowAdd(bits, k);
      Above(v, Pow2(bits), Pow2(k));
      if bits > 0 {
        PowAdd(bits - 1, k);
        TimesMono(Pow2(bits - 1), v, Pow2(k));
      }
    }
  }

  lemma {:induction false} ScaledDown(v: nat, bits: nat, k: nat)
    requires BitLength(v, bits) && k < bits
    ensures BitLength(v / Pow2(k), bits - k)
  {
    hide Pow2;
    var p := Pow2(k);
    PowAdd(bits - k, k);
    PowAdd(bits - k - 1, k);
    DivMod(v, p);
    var q := v / p;
    Above(q, Pow2(bits - k - 1), p);
    if q >= Pow2(bits - k) { TimesMono(Pow2(bits - k), q, p); }
  }

  /** The mantissa has at most 23 bits. */
  lemma {:induction false} WordBounds(v: nat)
    ensures CompactWord(v) < 0x800000 && (CompactWord(v) == 0 <==> v == 0)
  {
    hide Pow2, BitLength;
    var bits, e := BitLen(v), CompactSize(v);
    BitLenBounds(v);
    Lengths(v, bits);
    if v > 0 {
      if e <= 3 {
        ScaledUp(v, bits, 8 * (3 - e));
        Short(CompactWord(v), bits + 8 * (3 - e));
      } else {
        ScaledDown(v, bits, 8 * (e - 3));
        Short(CompactWord(v), bits - 8 * (e - 3));
      }
    }
  }

  lemma {:induction false} Lengths(v: nat, bits: nat)
    requires BitLength(v, bits)
    ensures v == 0 <==> bits == 0
  {
  }

  /** Numbers of few bits. */
  lemma {:induction false} Short(m: nat, n: nat)
    requires BitLength(m, n)
    ensures n <= 23 ==> m < 0x800000
    ensures n <= 24 ==> m < 0x1000000
    ensures n == 24 ==> m >= 0x800000
    ensures n > 0 ==> m > 0
  {
    hide Pow2;
    Bytes(0);
    PowZero();
    if n <= 23 { PowMono(n, 23); }
    if n <= 24 { PowMono(n, 24); }
  }

  /** The compact form of a number. */
  ghost function CompactOf(v: nat): nat { CompactSize(v) * 0x1000000 + CompactWord(v) }

  lemma {:induction false} CompactParts(v: nat)
    ensures Exponent(CompactOf(v)) == CompactSize(v) && Mantissa(CompactOf(v)) == CompactWord(v) && !SignBit(CompactOf(v))
  {
    hide CompactSize, CompactWord, Exponent, Mantissa, SignBit;
    WordBounds(v);
    Fields(CompactSize(v), CompactWord(v));
  }

  lemma {:induction false} Fields(e: nat, m: nat)
    requires m < 0x800000
    ensures var n := e * 0x1000000 + m; Exponent(n) == e && Mantissa(n) == m && !SignBit(n)
  {
    var n := e * 0x1000000 + m;
    DivUnique(n, 0x1000000, e, m);
    DivUnique(n, 0x800000, 2 * e, m);
  }

  /** A compact form denotes the number with its lowest bytes dropped ... */
  lemma {:induction false} CompactDenotes(v: nat)
    ensures Denoted(CompactOf(v)) == Rounded(v) <= v && !SignBit(CompactOf(v))
  {
    hide Pow2, CompactOf;
    CompactParts(v);
    var e := CompactSize(v);
    if e <= 3 {
      DivUnique(v * Pow2(8 * (3 - e)), Pow2(8 * (3 - e)), v, 0);
    } else {
      DivMod(v, Pow2(8 * (e - 3)));
    }
  }

  /** ... and that number has the same compact form. */
  lemma {:induction false} CompactAgain(v: nat)
    ensures CompactOf(Rounded(v)) == CompactOf(v)
  {
    hide Pow2, BitLength;
    var e, bits := CompactSize(v), BitLen(v);
    if e > 3 {
      BitLenBounds(v);
      var k := 8 * (e - 3);
      ScaledDown(v, bits, k);
      var q := v / Pow2(k);
      Short(q, bits - k);
      ScaledUp(q, bits - k, k);
      BitLenIs(q * Pow2(k), bits);
      Scales(q, 1, Pow2(k));
      DivUnique(q * Pow2(k), Pow2(k), q, 0);
    }
  }

  /** The first three bytes, and the sign bit among them. */
  lemma {:induction false} ThreeBytes(v: nat, bits: nat, nSize: nat)
    requires BitLength(v, bits) && nSize == (bits + 7) / 8
    ensures var m := if nSize <= 3 then v * Pow2(8 * (3 - nSize)) else v / Pow2(8 * (nSize - 3));
            m < 0x1000000 && (SignBit(m) <==> bits > 0 && bits % 8 == 0)
  {
    hide Pow2, BitLength;
    Lengths(v, bits);
    var m := if nSize <= 3 then v * Pow2(8 * (3 - nSize)) else v / Pow2(8 * (nSize - 3));
    var n := if bits == 0 then 0 else bits + 24 - 8 * nSize;
    if nSize <= 3 { ScaledUp(v, bits, 8 * (3 - nSize)); } else { ScaledDown(v, bits, 8 * (nSize - 3)); }
    assert BitLength(m, n);
    Short(m, n);
  }

  /** Dropping the lowest of the three bytes. */
  lemma {:induction false} TwoBytes(v: nat, nSize: nat)
    ensures nSize < 3 ==> (v * Pow2(8 * (3 - nSize))) / 256 == v * Pow2(8 * (2 - nSize))
    ensures nSize == 3 ==> (v * Pow2(0)) / 256 == v / Pow2(8)
    ensures nSize > 3 ==> (v / Pow2(8 * (nSize - 3))) / 256 == v / Pow2(8 * (nSize - 2))
  {
    hide Pow2;
    PowZero();
    Pow8(0);
    if nSize < 3 {
      Pow8(8 * (2 - nSize));
      Associate(v, 256, Pow2(8 * (2 - nSize)));
    } else if nSize > 3 {
      PowAdd(8 * (nSize - 3), 8);
      DivDiv(v, Pow2(8 * (nSize - 3)), Pow2(8));
    }
  }

  method GetCompact(x: BaseUint, negative: bool) returns (nCompact: nat)
    requires x.Valid() && x.pn.Length == 8
    ensures nCompact == CompactOf(x.Number()) + if negative && x.Number() != 0 then 0x800000 else 0
  {
    hide Mod, Pow2, Weight, Value, BitLength, CompactSize, CompactWord, SignBit, Mantissa;
    ghost var v := Value(x.pn[..]);
    var bits := x.Bits();
    LengthBound(x.pn[..], bits);
    var nSize := (bits + 7) / 8;
    if nSize <= 3 {
      var low := x.GetLow64();
      LowWord(v, bits);
      nCompact := low * Pow2(8 * (3 - nSize));
    } else {
      var bn := new BaseUint.Copy(x);
      bn.ShiftRight(8 * (nSize - 3));
      nCompact := bn.GetLow64();
      ThreeBytes(v, bits, nSize);
      SmallWord64(v / Pow2(8 * (nSize - 3)));
    }
    Adjusted(v, bits, nSize, nCompact);
    if SignBit(nCompact) {
      nCompact := nCompact / 256;
      nSize := nSize + 1;
    }
    WordBounds(v);
    assert nCompact < 0x800000 && nSize < 256;
    Fields(nSize, nCompact);
    nCompact := nSize * 0x1000000 + nCompact;
    nCompact := nCompact + if negative && Mantissa(nCompact) != 0 then 0x800000 else 0;
  }

  /** What the adjustment for the sign bit leaves are the parts of the compact form. */
  lemma {:induction false} Adjusted(v: nat, bits: nat, nSize: nat, m: nat)
    requires BitLength(v, bits) && nSize == (bits + 7) / 8
    requires m == if nSize <= 3 then v * Pow2(8 * (3 - nSize)) else v / Pow2(8 * (nSize - 3))
    ensures CompactSize(v) == (if SignBit(m) then nSize + 1 else nSize)
    ensures CompactWord(v) == (if SignBit(m) then m / 256 else m)
  {
    hide Pow2, BitLength, SignBit, CompactSize, CompactWord;
    ThreeBytes(v, bits, nSize);
    TwoBytes(v, nSize);
    CompactIs(v, bits, if SignBit(m) then nSize + 1 else nSize, if SignBit(m) then m / 256 else m);
  }

  /** The parts that GetCompact finds are those of the compact form. */
  lemma {:induction false} CompactIs(v: nat, bits: nat, nSize: nat, m: nat)
    requires BitLength(v, bits)
    requires nSize == if bits > 0 && bits % 8 == 0 then (bits + 7) / 8 + 1 else (bits + 7) / 8
    requires m == if nSize <= 3 then v * Pow2(8 * (3 - nSize)) else v / Pow2(8 * (nSize - 3))
    ensures nSize == CompactSize(v) && m == CompactWord(v)
  {
    hide Pow2, BitLength;
    Lengths(v, bits);
    BitLenIs(v, bits);
  }

  lemma {:induction false} LowWord(v: nat, bits: nat)
    requires BitLength(v, bits) && bits <= 24
    ensures Mod(v, BASE * BASE) == v
  {
    hide Pow2, BitLength;
    Short(v, bits);
    ModSmall(v, BASE * BASE);
  }

  lemma {:induction false} SmallWord64(m: nat)
    requires m < 0x1000000
    ensures Mod(m, BASE * BASE) == m
  {
    ModSmall(m, BASE * BASE);
  }

  // ---------- work ----------

  /** A valid target is below 2^256 - 1. */
  lemma {:induction false} TargetBelow(n: nat)
    requires Denoted(n) < Weight(8)
    ensures Denoted(n) + 1 < Weight(8)
  {
    hide Pow2, Weight;
    Width();
    var e := Exponent(n);
    if e <= 3 {
      SmallWord(Mantissa(n), Pow2(8 * (3 - e)));
      HighWeight(8);
    } else {
      Bytes(8 * (e - 4));
      Bytes(248);
      Associate(Mantissa(n), 256, Pow2(8 * (e - 4)));
      EvenParts(Mantissa(n) * Pow2(8 * (e - 4)), Pow2(248));
    }
  }

  lemma {:induction false} EvenParts(a: nat, b: nat)
    requires 256 * a < 256 * b
    ensures 256 * a + 1 < 256 * b
  {
  }

  /** 2^256 / (t + 1) without leaving 256 bits. */
  lemma {:induction false} ProofFits(t: nat, m: nat)
    requires 0 < t < m - 1
    ensures (m - 1 - t) / (t + 1) + 1 == m / (t + 1) < m
  {
    var d := t + 1;
    DivMod(m, d);
    var q := m / d;
    Above(0, q, d);
    Distribute(q - 1, 1, d);
    DivUnique(m - d, d, q - 1, m % d);
    if q >= m {
      TimesMono(m, q, d);
      TimesMono(2, d, m);
    }
  }

  /** The work of a block: 2^256 divided by the target plus one. */
  ghost function Work(nBits: nat): nat {
    if Denoted(nBits) == 0 || SignBit(nBits) || Denoted(nBits) >= Weight(8) then 0
    else DivMod(Weight(8), Denoted(nBits) + 1); Weight(8) / (Denoted(nBits) + 1)
  }

  method GetBlockProof(nBits: nat, signedBlocks: bool) returns (proof: BaseUint)
    requires nBits < BASE
    ensures proof.Valid() && proof.Number() == if signedBlocks then 1 else Work(nBits)
  {
    hide Mod, Pow2, Weight, Value, Denoted;
    if signedBlocks {
      proof := new BaseUint(8, 1);
      return;
    }
    var target := new BaseUint(8, 0);
    var negative, overflow := SetCompact(target, nBits);
    ghost var t := Denoted(nBits);
    Reduced(t, Weight(8));
    var zero := target.EqualTo(0);
    if negative || overflow || zero {
      proof := new BaseUint(8, 0);
      return;
    }
    TargetBelow(nBits);
    ProofFits(t, Weight(8));
    proof := target.Complement();
    var one := new BaseUint(8, 1);
    target.Add(one);
    Reduced(t + 1, Weight(8));
    var ok := proof.Divide(target);
    assert ok;
    Reduced(Weight(8) / (t + 1), Weight(8));
    proof.Add(one);
  }

  lemma {:induction false} Reduced(v: nat, m: nat)
    requires m > 0
    ensures v < m ==> Mod(v, m) == v
  {
    if v < m { ModSmall(v, m); }
  }
}

/** What the checksums compute: remainders of polynomials over the field of 32 elements.  A
    polynomial is the list of its coefficients, the highest first; a coefficient is a 5-bit symbol,
    and coefficients are added without carry. */
module Polynomials {
  import opened Checksums

  /** Multiplication by the root a of a^5 + a^3 + 1. */
  function Double(g: bv64): bv64 { if g & 16 != 0 then (g << 1) ^ 41 else g << 1 }

  /** The product of two field elements, bit by bit of the first. */
  function FieldTimes(c: bv64, g: bv64): bv64 {
    Multiple(c, g, Double(g), Double(Double(g)), Double(Double(Double(g))), Double(Double(Double(Double(g)))))
  }

  /** The generator polynomial without its leading 1. */
  function LowGenerator(code: Code): (g: seq<bv64>)
    ensures |g| == Size(code)
  {
    if code.Bech32? then [29, 22, 20, 21, 29, 18] else [0, 31, 10, 18, 31, 14, 18, 0, 23, 22, 4, 6]
  }

  ghost function Scaled(c: bv64, p: seq<bv64>): (r: seq<bv64>)
    ensures |r| == |p| && forall i :: 0 <= i < |p| ==> r[i] == FieldTimes(c, p[i])
  {
    seq(|p|, i requires 0 <= i < |p| => FieldTimes(c, p[i]))
  }

  /** Add a polynomial to one that is at least as long. */
  ghost function AddLow(p: seq<bv64>, r: seq<bv64>): (s: seq<bv64>)
    requires |r| <= |p|
    ensures |s| == |p|
    ensures forall i :: 0 <= i < |p| ==> s[i] == if i < |p| - |r| then p[i] else Add(p[i], r[i - (|p| - |r|)])
  {
    p[..|p| - |r|] + Xor(p[|p| - |r|..], r)
  }

  /** q(x) * g(x), coefficient by coefficient of q: times x, plus the next multiple of g. */
  ghost function Product(code: Code, q: seq<bv64>): (p: seq<bv64>)
    ensures |p| == |q| + Size(code)
  {
    if q == [] then Zeroes(Size(code)) else AddLow(Product(code, q[..|q| - 1]) + [0], Scaled(q[|q| - 1], [1] + LowGenerator(code)))
  }

  /** v(x) with the 1 in front, to the length of a product with |v| coefficients. */
  ghost function Leading(code: Code, v: seq<bv64>): seq<bv64> { Zeroes(Size(code) - 1) + [1] + v }

  // ---------- groups of words ----------

  lemma {:induction false} PartsLinear(a: bv64, b: bv64)
    ensures Last(Add(a, b)) == Add(Last(a), Last(b))
    ensures Upper(Add(a, b)) == Add(Upper(a), Upper(b))
  {
    LastXor(a, b);
    UpperXor(a, b);
  }

  lemma {:induction false} LastXor(a: bv64, b: bv64)
    ensures (a ^ b) & 31 == (a & 31) ^ (b & 31)
  {
  }

  lemma {:induction false} UpperXor(a: bv64, b: bv64)
    ensures (a ^ b) >> 5 == (a >> 5) ^ (b >> 5)
  {
  }

  lemma {:induction false} GroupsLinear(a: bv64, b: bv64, n: nat)
    ensures Groups(Add(a, b), n) == Xor(Groups(a, n), Groups(b, n))
    decreases n
  {
    hide Add, Last, Upper;
    if n > 0 {
      PartsLinear(a, b);
      GroupsLinear(Upper(a), Upper(b), n - 1);
    }
  }

  lemma {:induction false} GroupsTail(m: bv64, n: nat)
    requires n > 0
    ensures Groups(m, n)[1..] == Groups(m, n - 1)
    decreases n
  {
    hide Last, Upper;
    if n > 1 { GroupsTail(Upper(m), n - 1); }
  }

  /** A mask over the lowest n groups. */
  ghost predicate Masks(m: bv64, n: nat) { n == 0 || (Last(m) == 31 && Masks(Upper(m), n - 1)) }

  lemma {:induction false} MaskLast(a: bv64, m: bv64, l: bv64, x: bv64)
    requires l == m & 31 == 31 && x == a & m
    ensures x & 31 == a & 31
  {
  }

  lemma {:induction false} MaskUpper(a: bv64, m: bv64)
    ensures (a & m) >> 5 == (a >> 5) & (m >> 5)
  {
  }

  function Masked(a: bv64, m: bv64): bv64 { a & m }

  lemma {:induction false} GroupsMasked(a: bv64, m: bv64, n: nat)
    requires Masks(m, n)
    ensures Groups(Masked(a, m), n) == Groups(a, n)
    decreases n
  {
    hide Masked, Last, Upper;
    if n > 0 {
      MaskedParts(a, m);
      GroupsMasked(Upper(a), Upper(m), n - 1);
    }
  }

  lemma {:induction false} MaskedParts(a: bv64, m: bv64)
    requires Last(m) == 31
    ensures Last(Masked(a, m)) == Last(a) && Upper(Masked(a, m)) == Masked(Upper(a), Upper(m))
  {
    hide Masked, Last, Upper;
    MaskedLast(a, m);
    MaskedUpper(a, m);
  }

  lemma {:induction false} MaskedLast(a: bv64, m: bv64)
    requires Last(m) == 31
    ensures Last(Masked(a, m)) == Last(a)
  {
    hide Upper;
    MaskLast(a, m, Last(m), Masked(a, m));
  }

  lemma {:induction false} MaskedUpper(a: bv64, m: bv64)
    ensures Upper(Masked(a, m)) == Masked(Upper(a), Upper(m))
  {
    MaskUpper(a, m);
  }

  lemma {:induction false} Masks25()
    ensures Masks(0x1ffffff, 5)
  {
    assert Masks(0x1f, 1) && Masks(0x3ff, 2) && Masks(0x7fff, 3) && Masks(0xfffff, 4);
  }

  lemma {:induction false} Masks55()
    ensures Masks(0x7fffffffffffff, 11)
  {
    Masks25();
    assert Masks(0x3fffffff, 6) && Masks(0x7ffffffff, 7) && Masks(0xffffffffff, 8) && Masks(0x1fffffffffff, 9) && Masks(0x3ffffffffffff, 10);
  }

  lemma {:induction false} LowParts25(c: bv64)
    ensures Last(Low(Bech32, c)) == 0 && Upper(Low(Bech32, c)) == Masked(c, 0x1ffffff)
  {
  }

  lemma {:induction false} LowParts55(c: bv64)
    ensures Last(Low(Blech32, c)) == 0 && Upper(Low(Blech32, c)) == Masked(c, 0x7fffffffffffff)
  {
  }

  lemma {:induction false} LowPart(c: bv64, m: bv64, n: nat, low: bv64)
    requires n > 0 && Masks(m, n - 1) && Last(low) == 0 && Upper(low) == Masked(c, m)
    ensures Groups(low, n) == Groups(c, n)[1..] + [0]
  {
    hide Groups, Masks, Masked, Last, Upper;
    GroupsMasked(c, m, n - 1);
    GroupsTail(c, n);
    LowGroups(Masked(c, m), low, n);
  }

  /** Shifting drops the leading coefficient and makes room for the next symbol. */
  lemma {:induction false} GroupsLow(code: Code, c: bv64)
    ensures Groups(Low(code, c), Size(code)) == Groups(c, Size(code))[1..] + [0]
  {
    hide Groups, Masks, Masked, Last, Upper, Low;
    if code.Bech32? {
      Masks25();
      LowParts25(c);
      LowPart(c, 0x1ffffff, 6, Low(code, c));
    } else {
      Masks55();
      LowParts55(c);
      LowPart(c, 0x7fffffffffffff, 12, Low(code, c));
    }
  }

  lemma {:induction false} LowGroups(a: bv64, low: bv64, n: nat)
    requires n > 0 && Last(low) == 0 && Upper(low) == a
    ensures Groups(low, n) == Groups(a, n - 1) + [0]
  {
  }

  lemma {:induction false} GroupsSymbol(v: bv64, n: nat)
    requires v < 32 && n > 0
    ensures Groups(v, n) == Zeroes(n - 1) + [v]
  {
    SmallParts(v);
    hide Last, Upper;
    NothingPacked(Bech32, n - 1);
  }

  lemma {:induction false} SmallParts(v: bv64)
    requires v < 32
    ensures Last(v) == v && Upper(v) == 0
  {
  }

  /** The leading coefficient. */
  lemma {:induction false} GroupsTop(code: Code, c: bv64)
    requires Fits(code, c)
    ensures Groups(c, Size(code))[0] == Top(code, c) < 32
  {
    GroupAt(c, Size(code), 0);
    hide Shifted, Groups;
    if code.Bech32? { FiveShifts(c); } else { ElevenShifts(c); }
    TopLast(code, c);
  }

  lemma {:induction false} TopLast(code: Code, c: bv64)
    requires Fits(code, c)
    ensures Last(Top(code, c)) == Top(code, c) < 32
  {
  }

  // ---------- the reduction is a multiple of the generator ----------

  lemma {:induction false} GroupsPick(c: bv64, bit: bv64, g: bv64, n: nat, i: nat)
    requires i < n
    ensures Groups(Pick(c, bit, g), n)[i] == Pick(c, bit, Groups(g, n)[i])
  {
    hide Has;
    NothingPacked(Bech32, n);
  }

  lemma {:induction false} XorAt(u: seq<bv64>, v: seq<bv64>, i: nat)
    requires |u| == |v| && i < |u|
    ensures Xor(u, v)[i] == Add(u[i], v[i])
  {
    hide Add;
  }

  lemma {:induction false} GroupAdd(a: bv64, b: bv64, n: nat, i: nat)
    requires i < n
    ensures Groups(Add(a, b), n)[i] == Add(Groups(a, n)[i], Groups(b, n)[i])
  {
    hide Add, Groups;
    GroupsLinear(a, b, n);
    XorAt(Groups(a, n), Groups(b, n), i);
  }

  lemma {:induction false} GroupsMultiple(c: bv64, g: bv64, h: bv64, i: bv64, j: bv64, k: bv64, n: nat, x: nat)
    requires x < n
    ensures Groups(Multiple(c, g, h, i, j, k), n)[x] == Multiple(c, Groups(g, n)[x], Groups(h, n)[x], Groups(i, n)[x], Groups(j, n)[x], Groups(k, n)[x])
  {
    hide Add, Pick, Groups;
    var a1, a2, a3, a4, a5 := Pick(c, 1, g), Pick(c, 2, h), Pick(c, 4, i), Pick(c, 8, j), Pick(c, 16, k);
    GroupsPick(c, 1, g, n, x);
    GroupsPick(c, 2, h, n, x);
    GroupsPick(c, 4, i, n, x);
    GroupsPick(c, 8, j, n, x);
    GroupsPick(c, 16, k, n, x);
    GroupAdd(a1, a2, n, x);
    GroupAdd(Add(a1, a2), a3, n, x);
    GroupAdd(Add(Add(a1, a2), a3), a4, n, x);
    GroupAdd(Add(Add(Add(a1, a2), a3), a4), a5, n, x);
  }

  ghost function DoubleAll(p: seq<bv64>): (r: seq<bv64>)
    ensures |r| == |p| && forall i :: 0 <= i < |p| ==> r[i] == Double(p[i])
  {
    seq(|p|, i requires 0 <= i < |p| => Double(p[i]))
  }

  /** The five constants of a code are the generator times 1, 2, 4, 8 and 16. */
  ghost predicate Constants(code: Code, g: bv64, h: bv64, i: bv64, j: bv64, k: bv64) {
    var n := Size(code);
    && Groups(g, n) == LowGenerator(code) && Groups(h, n) == DoubleAll(Groups(g, n)) && Groups(i, n) == DoubleAll(Groups(h, n))
    && Groups(j, n) == DoubleAll(Groups(i, n)) && Groups(k, n) == DoubleAll(Groups(j, n))
  }

  lemma {:induction false} SixGroups(m: bv64)
    ensures Groups(m, 6) == [Last(m >> 25), Last(m >> 20), Last(m >> 15), Last(m >> 10), Last(m >> 5), Last(m)]
  {
    assert Groups(m >> 25, 1) == [Last(m >> 25)];
    assert Groups(m >> 20, 2) == Groups(m >> 25, 1) + [Last(m >> 20)];
    assert Groups(m >> 15, 3) == Groups(m >> 20, 2) + [Last(m >> 15)];
    assert Groups(m >> 10, 4) == Groups(m >> 15, 3) + [Last(m >> 10)];
    assert Groups(m >> 5, 5) == Groups(m >> 10, 4) + [Last(m >> 5)];
  }

  lemma {:induction false} Bech1()
    ensures Groups(0x3b6a57b2, 6) == [29, 22, 20, 21, 29, 18]
  {
    hide Groups;
    SixGroups(0x3b6a57b2);
  }

  lemma {:induction false} Bech2()
    ensures Groups(0x26508e6d, 6) == [19, 5, 1, 3, 19, 13]
  {
    hide Groups;
    SixGroups(0x26508e6d);
  }

  lemma {:induction false} Bech3()
    ensures Groups(0x1ea119fa, 6) == [15, 10, 2, 6, 15, 26]
  {
    hide Groups;
    SixGroups(0x1ea119fa);
  }

  lemma {:induction false} Bech4()
    ensures Groups(0x3d4233dd, 6) == [30, 20, 4, 12, 30, 29]
  {
    hide Groups;
    SixGroups(0x3d4233dd);
  }

  lemma {:induction false} Bech5()
    ensures Groups(0x2a1462b3, 6) == [21, 1, 8, 24, 21, 19]
  {
    hide Groups;
    SixGroups(0x2a1462b3);
  }

  lemma {:induction false} Bech1Doubled()
    ensures DoubleAll([29, 22, 20, 21, 29, 18]) == [19, 5, 1, 3, 19, 13]
  {
    assert Double(29) == 19 && Double(22) == 5 && Double(20) == 1 && Double(21) == 3 && Double(29) == 19 && Double(18) == 13;
    hide Double;
  }

  lemma {:induction false} Bech2Doubled()
    ensures DoubleAll([19, 5, 1, 3, 19, 13]) == [15, 10, 2, 6, 15, 26]
  {
    assert Double(19) == 15 && Double(5) == 10 && Double(1) == 2 && Double(3) == 6 && Double(19) == 15 && Double(13) == 26;
    hide Double;
  }

  lemma {:induction false} Bech3Doubled()
    ensures DoubleAll([15, 10, 2, 6, 15, 26]) == [30, 20, 4, 12, 30, 29]
  {
    assert Double(15) == 30 && Double(10) == 20 && Double(2) == 4 && Double(6) == 12 && Double(15) == 30 && Double(26) == 29;
    hide Double;
  }

  lemma {:induction false} Bech4Doubled()
    ensures DoubleAll([30, 20, 4, 12, 30, 29]) == [21, 1, 8, 24, 21, 19]
  {
    assert Double(30) == 21 && Double(20) == 1 && Double(4) == 8 && Double(12) == 24 && Double(30) == 21 && Double(29) == 19;
    hide Double;
  }

  lemma {:induction false} Bech32Constants()
    ensures Constants(Bech32, 0x3b6a57b2, 0x26508e6d, 0x1ea119fa, 0x3d4233dd, 0x2a1462b3)
  {
    hide Groups, DoubleAll;
    Bech1();
    Bech2();
    Bech3();
    Bech4();
    Bech5();
    Bech1Doubled();
    Bech2Doubled();
    Bech3Doubled();
    Bech4Doubled();
  }

  lemma {:induction false} TwelveGroups(m: bv64)
    ensures Groups(m, 12) == [Last(m >> 55), Last(m >> 50), Last(m >> 45), Last(m >> 40), Last(m >> 35), Last(m >> 30),
                              Last(m >> 25), Last(m >> 20), Last(m >> 15), Last(m >> 10), Last(m >> 5), Last(m)]
  {
    SixGroups(m >> 30);
    assert Groups(m >> 25, 7) == Groups(m >> 30, 6) + [Last(m >> 25)];
    assert Groups(m >> 20, 8) == Groups(m >> 25, 7) + [Last(m >> 20)];
    assert Groups(m >> 15, 9) == Groups(m >> 20, 8) + [Last(m >> 15)];
    assert Groups(m >> 10, 10) == Groups(m >> 15, 9) + [Last(m >> 10)];
    assert Groups(m >> 5, 11) == Groups(m >> 10, 10) + [Last(m >> 5)];
  }

  lemma {:induction false} Blech1()
    ensures Groups(0x7d52fba40bd886, 12) == [0, 31, 10, 18, 31, 14, 18, 0, 23, 22, 4, 6]
  {
    hide Groups;
    TwelveGroups(0x7d52fba40bd886);
  }

  lemma {:induction false} Blech2()
    ensures Groups(0x5e8dbf1a03950c, 12) == [0, 23, 20, 13, 23, 28, 13, 0, 7, 5, 8, 12]
  {
    hide Groups;
    TwelveGroups(0x5e8dbf1a03950c);
  }

  lemma {:induction false} Blech3()
    ensures Groups(0x1c3a3c74072a18, 12) == [0, 7, 1, 26, 7, 17, 26, 0, 14, 10, 16, 24]
  {
    hide Groups;
    TwelveGroups(0x1c3a3c74072a18);
  }

  lemma {:induction false} Blech4()
    ensures Groups(0x385d72fa0e5139, 12) == [0, 14, 2, 29, 14, 11, 29, 0, 28, 20, 9, 25]
  {
    hide Groups;
    TwelveGroups(0x385d72fa0e5139);
  }

  lemma {:induction false} Blech5()
    ensures Groups(0x7093e5a608865b, 12) == [0, 28, 4, 19, 28, 22, 19, 0, 17, 1, 18, 27]
  {
    hide Groups;
    TwelveGroups(0x7093e5a608865b);
  }

  lemma {:induction false} Blech1Doubled()
    ensures DoubleAll([0, 31, 10, 18, 31, 14, 18, 0, 23, 22, 4, 6]) == [0, 23, 20, 13, 23, 28, 13, 0, 7, 5, 8, 12]
  {
    assert Double(0) == 0 && Double(31) == 23 && Double(10) == 20 && Double(18) == 13 && Double(31) == 23 && Double(14) == 28 && Double(18) == 13 && Double(0) == 0 && Double(23) == 7 && Double(22) == 5 && Double(4) == 8 && Double(6) == 12;
    hide Double;
  }

  lemma {:induction false} Blech2Doubled()
    ensures DoubleAll([0, 23, 20, 13, 23, 28, 13, 0, 7, 5, 8, 12]) == [0, 7, 1, 26, 7, 17, 26, 0, 14, 10, 16, 24]
  {
    assert Double(0) == 0 && Double(23) == 7 && Double(20) == 1 && Double(13) == 26 && Double(23) == 7 && Double(28) == 17 && Double(13) == 26 && Double(0) == 0 && Double(7) == 14 && Double(5) == 10 && Double(8) == 16 && Double(12) == 24;
    hide Double;
  }

  lemma {:induction false} Blech3Doubled()
    ensures DoubleAll([0, 7, 1, 26, 7, 17, 26, 0, 14, 10, 16, 24]) == [0, 14, 2, 29, 14, 11, 29, 0, 28, 20, 9, 25]
  {
    assert Double(0) == 0 && Double(7) == 14 && Double(1) == 2 && Double(26) == 29 && Double(7) == 14 && Double(17) == 11 && Double(26) == 29 && Double(0) == 0 && Double(14) == 28 && Double(10) == 20 && Double(16) == 9 && Double(24) == 25;
    hide Double;
  }

  lemma {:induction false} Blech4Doubled()
    ensures DoubleAll([0, 14, 2, 29, 14, 11, 29, 0, 28, 20, 9, 25]) == [0, 28, 4, 19, 28, 22, 19, 0, 17, 1, 18, 27]
  {
    assert Double(0) == 0 && Double(14) == 28 && Double(2) == 4 && Double(29) == 19 && Double(14) == 28 && Double(11) == 22 && Double(29) == 19 && Double(0) == 0 && Double(28) == 17 && Double(20) == 1 && Double(9) == 18 && Double(25) == 27;
    hide Double;
  }

  lemma {:induction false} Blech32Constants()
    ensures Constants(Blech32, 0x7d52fba40bd886, 0x5e8dbf1a03950c, 0x1c3a3c74072a18, 0x385d72fa0e5139, 0x7093e5a608865b)
  {
    hide Groups, DoubleAll;
    Blech1();
    Blech2();
    Blech3();
    Blech4();
    Blech5();
    Blech1Doubled();
    Blech2Doubled();
    Blech3Doubled();
    Blech4Doubled();
  }

  lemma {:induction false} ReductionScales(code: Code, c0: bv64)
    ensures Groups(Reduction(code, c0), Size(code)) == Scaled(c0, LowGenerator(code))
  {
    hide Groups, Multiple, LowGenerator, Constants;
    if code.Bech32? {
      Bech32Constants();
      ScalesBy(code, c0, 0x3b6a57b2, 0x26508e6d, 0x1ea119fa, 0x3d4233dd, 0x2a1462b3);
    } else {
      Blech32Constants();
      ScalesBy(code, c0, 0x7d52fba40bd886, 0x5e8dbf1a03950c, 0x1c3a3c74072a18, 0x385d72fa0e5139, 0x7093e5a608865b);
    }
  }

  lemma {:induction false} ScalesBy(code: Code, c0: bv64, g: bv64, h: bv64, i: bv64, j: bv64, k: bv64)
    requires Constants(code, g, h, i, j, k)
    ensures Groups(Multiple(c0, g, h, i, j, k), Size(code)) == Scaled(c0, LowGenerator(code))
  {
    hide Groups, Multiple, LowGenerator, Double;
    var n := Size(code);
    forall x | 0 <= x < n ensures Groups(Multiple(c0, g, h, i, j, k), n)[x] == Scaled(c0, LowGenerator(code))[x] {
      GroupsMultiple(c0, g, h, i, j, k, n, x);
    }
  }

  // ---------- the remainder ----------

  lemma {:induction false} TimesOne(c: bv64)
    requires c < 32
    ensures FieldTimes(c, 1) == c
  {
    assert Double(1) == 2 && Double(2) == 4 && Double(4) == 8 && Double(8) == 16;
    hide Double;
    BitsOf(c);
  }

  lemma {:induction false} BitsOf(c: bv64)
    requires c < 32
    ensures Multiple(c, 1, 2, 4, 8, 16) == c
  {
  }

  /** Coefficient i of the state times x, plus the symbol, without the leading one. */
  ghost function Following(code: Code, c: bv64, v: bv64, i: nat): bv64
    requires i < Size(code)
  {
    if i < Size(code) - 1 then Groups(c, Size(code))[i + 1] else v
  }

  lemma {:induction false} FollowingGroups(code: Code, c: bv64, v: bv64, i: nat)
    requires v < 32 && i < Size(code)
    ensures Groups(Add(Low(code, c), v), Size(code))[i] == Following(code, c, v, i)
  {
    hide Groups, Add, Low;
    var n := Size(code);
    GroupAdd(Low(code, c), v, n, i);
    GroupsLow(code, c);
    GroupsSymbol(v, n);
    AddZero(Following(code, c, v, i));
  }

  /** The new state: the old one times x, plus the symbol, less the leading coefficient times the
      generator. */
  lemma {:induction false} StepGroups(code: Code, c: bv64, v: bv64, i: nat)
    requires v < 32 && i < Size(code)
    ensures Groups(Step(code, c, v), Size(code))[i] == Add(Following(code, c, v, i), FieldTimes(Top(code, c), LowGenerator(code)[i]))
  {
    hide Groups, Add, Low, Top, Reduction, FieldTimes, LowGenerator, Following;
    GroupAdd(Add(Low(code, c), v), Reduction(code, Top(code, c)), Size(code), i);
    FollowingGroups(code, c, v, i);
    ReductionScales(code, Top(code, c));
  }

  /** One step: r(x) * x + v is c0 * g(x) plus the new state. */
  lemma {:induction false} StepDivides(code: Code, c: bv64, v: bv64)
    requires Fits(code, c) && v < 32
    ensures Groups(c, Size(code)) + [v] == Xor(Scaled(Top(code, c), [1] + LowGenerator(code)), [0] + Groups(Step(code, c, v), Size(code)))
  {
    hide Groups, Add, Step, Top, FieldTimes, LowGenerator, Fits;
    var n, c0, g := Size(code), Top(code, c), LowGenerator(code);
    var a, b := Scaled(c0, [1] + g), [0] + Groups(Step(code, c, v), n);
    forall i | 0 <= i < n + 1 ensures (Groups(c, n) + [v])[i] == Add(a[i], b[i]) {
      if i == 0 { FirstDivides(code, c); } else { NextDivides(code, c, v, i - 1); }
    }
    XorIs(a, b, Groups(c, n) + [v]);
  }

  lemma {:induction false} FirstDivides(code: Code, c: bv64)
    requires Fits(code, c)
    ensures Groups(c, Size(code))[0] == Add(FieldTimes(Top(code, c), 1), 0)
  {
    hide Groups, Add, Top, FieldTimes, Fits;
    GroupsTop(code, c);
    TimesOne(Top(code, c));
    AddZero(Top(code, c));
  }

  lemma {:induction false} NextDivides(code: Code, c: bv64, v: bv64, i: nat)
    requires v < 32 && i < Size(code)
    ensures Following(code, c, v, i) == Add(FieldTimes(Top(code, c), LowGenerator(code)[i]), Groups(Step(code, c, v), Size(code))[i])
  {
    hide Groups, Add, Step, Top, FieldTimes, LowGenerator, Following;
    StepGroups(code, c, v, i);
    CancelRight(Following(code, c, v, i), FieldTimes(Top(code, c), LowGenerator(code)[i]));
  }

  lemma {:induction false} XorIs(a: seq<bv64>, b: seq<bv64>, r: seq<bv64>)
    requires |a| == |b| == |r| && forall i :: 0 <= i < |a| ==> r[i] == Add(a[i], b[i])
    ensures r == Xor(a, b)
  {
    hide Add;
  }

  lemma {:induction false} CancelRight(x: bv64, y: bv64)
    ensures Add(y, Add(x, y)) == x
  {
    hide Add;
    AddComm(x, y);
    AddCancel(y, x);
  }

  lemma {:induction false} AddLowNext(p: seq<bv64>, r: seq<bv64>, v: bv64)
    requires |r| <= |p|
    ensures AddLow(p, r) + [v] == AddLow(p + [0], r + [v])
  {
    hide Add;
    AddZero(v);
  }

  lemma {:induction false} AddLowTwice(p: seq<bv64>, a: seq<bv64>, r: seq<bv64>)
    requires |a| == |r| + 1 <= |p|
    ensures AddLow(AddLow(p, a), r) == AddLow(p, Xor(a, [0] + r))
  {
    hide Add;
    var s, t := AddLow(AddLow(p, a), r), AddLow(p, Xor(a, [0] + r));
    var m := |p| - |a|;
    forall i | 0 <= i < |p| ensures s[i] == t[i] {
      if i == m { AddZero(a[0]); }
      if i > m { AddAssoc(p[i], a[i - m], r[i - m - 1]); }
    }
  }

  /** Dividing 1 followed by v by the generator leaves the groups of the final state: the dividend
      is q(x) * g(x) plus those groups, and there are fewer of them than g has terms. */
  lemma {:induction false} Remainder(code: Code, v: seq<bv64>) returns (q: seq<bv64>)
    requires Symbols(v)
    ensures |q| == |v| && Symbols(q)
    ensures Leading(code, v) == AddLow(Product(code, q), Groups(Run(code, 1, v), Size(code)))
  {
    hide Groups, Add, Step, Top, FieldTimes, LowGenerator, Fits, AddLow, Scaled;
    var n := Size(code);
    if v == [] {
      q := [];
      StartRemainder(code);
    } else {
      var u, x := v[..|v| - 1], v[|v| - 1];
      assert v == u + [x];
      var p := Remainder(code, u);
      var c := Run(code, 1, u);
      OneFits(code);
      RunFits(code, 1, u);
      GroupsTop(code, c);
      q := p + [Top(code, c)];
      assert q[..|q| - 1] == p;
      StepDivides(code, c, x);
      var more, next := Scaled(Top(code, c), [1] + LowGenerator(code)), Groups(Step(code, c, x), n);
      AddLowNext(Product(code, p), Groups(c, n), x);
      AddLowTwice(Product(code, p) + [0], more, next);
      LeadingNext(code, u, x);
    }
  }

  lemma {:induction false} LeadingNext(code: Code, u: seq<bv64>, x: bv64)
    ensures Leading(code, u + [x]) == Leading(code, u) + [x]
  {
  }

  lemma {:induction false} StartRemainder(code: Code)
    ensures Leading(code, []) == AddLow(Product(code, []), Groups(1, Size(code)))
  {
    hide Add, Groups;
    var n := Size(code);
    GroupsSymbol(1, n);
    forall i | 0 <= i < n ensures Add(0, Groups(1, n)[i]) == Groups(1, n)[i] { AddZero(Groups(1, n)[i]); }
  }
}

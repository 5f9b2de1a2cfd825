/** The Bech32 and Blech32 checksums: a remainder computed symbol by symbol in one machine word.
    The step is linear and can be undone, so a checksum is determined by what it protects, and a
    change within a window as long as the checksum is always noticed. */
module Checksums {

  datatype Code = Bech32 | Blech32

  datatype Encoding = Plain | Modified

  /** The number of 5-bit symbols in a checksum. */
  function Size(code: Code): nat { if code.Bech32? then 6 else 12 }

  /** What a valid string must leave as remainder. */
  function Constant(code: Code, e: Encoding): bv64 {
    if e.Plain? then 1 else if code.Bech32? then 0x2bc830a3 else 0x455972a3350f7a1
  }

  // ---------- one step ----------

  /** Addition of coefficients. */
  function Add(a: bv64, b: bv64): bv64 { a ^ b }

  function Has(c0: bv64, bit: bv64): bool { c0 & bit != 0 }

  function Pick(c0: bv64, bit: bv64, g: bv64): bv64 { if Has(c0, bit) then g else 0 }

  function Multiple(c0: bv64, g: bv64, h: bv64, i: bv64, j: bv64, k: bv64): bv64 {
    Add(Add(Add(Add(Pick(c0, 1, g), Pick(c0, 2, h)), Pick(c0, 4, i)), Pick(c0, 8, j)), Pick(c0, 16, k))
  }

  /** The multiple of the generator that cancels the leading coefficient c0. */
  function Reduction(code: Code, c0: bv64): bv64 {
    match code
    case Bech32 => Multiple(c0, 0x3b6a57b2, 0x26508e6d, 0x1ea119fa, 0x3d4233dd, 0x2a1462b3)
    case Blech32 => Multiple(c0, 0x7d52fba40bd886, 0x5e8dbf1a03950c, 0x1c3a3c74072a18, 0x385d72fa0e5139, 0x7093e5a608865b)
  }

  function Top(code: Code, c: bv64): bv64 { if code.Bech32? then c >> 25 else c >> 55 }

  function Low(code: Code, c: bv64): bv64 { if code.Bech32? then (c & 0x1ffffff) << 5 else (c & 0x7fffffffffffff) << 5 }

  function Step(code: Code, c: bv64, v: bv64): bv64 { Add(Add(Low(code, c), v), Reduction(code, Top(code, c))) }

  /** The state after the symbols of v, from the state c. */
  function Run(code: Code, c: bv64, v: seq<bv64>): bv64 {
    if v == [] then c else Step(code, Run(code, c, v[..|v| - 1]), v[|v| - 1])
  }

  method PolyMod(code: Code, v: seq<bv64>) returns (c: bv64)
    ensures c == Run(code, 1, v)
  {
    hide Step;
    c := 1;
    for k := 0 to |v|
      invariant c == Run(code, 1, v[..k])
    {
      assert v[..k + 1][..k] == v[..k];
      c := Step(code, c, v[k]);
    }
    assert v[..|v|] == v;
  }

  // ---------- the step is linear ----------

  // Facts about words, stated without the functions of the model.

  lemma {:induction false} XorSame(a: bv64, b: bv64)
    ensures a ^ b == 0 <==> a == b
  {
  }

  lemma {:induction false} Top25(a: bv64, b: bv64)
    ensures (a ^ b) >> 25 == (a >> 25) ^ (b >> 25)
  {
  }

  lemma {:induction false} Top55(a: bv64, b: bv64)
    ensures (a ^ b) >> 55 == (a >> 55) ^ (b >> 55)
  {
  }

  lemma {:induction false} LowXor25(a: bv64, b: bv64)
    ensures ((a ^ b) & 0x1ffffff) << 5 == ((a & 0x1ffffff) << 5) ^ ((b & 0x1ffffff) << 5)
  {
  }

  lemma {:induction false} LowXor55(a: bv64, b: bv64)
    ensures ((a ^ b) & 0x7fffffffffffff) << 5 == ((a & 0x7fffffffffffff) << 5) ^ ((b & 0x7fffffffffffff) << 5)
  {
  }

  lemma {:induction false} In25(c: bv64, v: bv64, s: bv64)
    requires c >> 25 == 0 && v < 32 && s == ((c & 0x1ffffff) << 5) ^ v
    ensures Upper(s) == c && Last(s) == v
  {
  }

  lemma {:induction false} In55(c: bv64, v: bv64, s: bv64)
    requires c >> 55 == 0 && v < 32 && s == ((c & 0x7fffffffffffff) << 5) ^ v
    ensures Upper(s) == c && Last(s) == v
  {
  }

  lemma {:induction false} Back25(m: bv64, c: bv64, v: bv64)
    requires c == m >> 5 && v == m & 31 && c >> 25 == 0
    ensures ((c & 0x1ffffff) << 5) ^ v == m
  {
  }

  lemma {:induction false} Back55(m: bv64, c: bv64, v: bv64)
    requires c == m >> 5 && v == m & 31 && c >> 55 == 0
    ensures ((c & 0x7fffffffffffff) << 5) ^ v == m
  {
  }

  lemma {:induction false} AddComm(a: bv64, b: bv64)
    ensures Add(a, b) == Add(b, a)
  {
  }

  lemma {:induction false} AddLeft(a: bv64, b: bv64, c: bv64)
    ensures Add(Add(a, b), c) == a ^ b ^ c
  {
  }

  lemma {:induction false} AddRight(a: bv64, b: bv64, c: bv64)
    ensures Add(a, Add(b, c)) == a ^ b ^ c
  {
  }

  lemma {:induction false} AddAssoc(a: bv64, b: bv64, c: bv64)
    ensures Add(Add(a, b), c) == Add(a, Add(b, c))
  {
    hide Add;
    AddLeft(a, b, c);
    AddRight(a, b, c);
  }

  lemma {:induction false} AddSwap(a: bv64, b: bv64, c: bv64, d: bv64)
    ensures Add(Add(a, b), Add(c, d)) == Add(Add(a, c), Add(b, d))
  {
    hide Add;
    AddAssoc(a, b, Add(c, d));
    AddAssoc(b, c, d);
    AddComm(b, c);
    AddAssoc(c, b, d);
    AddAssoc(a, c, Add(b, d));
  }

  lemma {:induction false} AddZero(a: bv64)
    ensures Add(a, 0) == a == Add(0, a)
  {
  }

  lemma {:induction false} AddSame(a: bv64, b: bv64)
    ensures Add(a, b) == 0 <==> a == b
  {
    XorSame(a, b);
  }

  lemma {:induction false} AddSolve(a: bv64, x: bv64, k: bv64)
    ensures Add(a, x) == k <==> x == Add(a, k)
  {
    if Add(a, x) == k { AddCancel(a, x); } else { AddCancel(a, k); }
  }

  lemma {:induction false} AddCancel(a: bv64, x: bv64)
    ensures Add(a, Add(a, x)) == x
  {
  }

  lemma {:induction false} Has1(a: bv64, b: bv64)
    ensures Has(Add(a, b), 1) <==> Has(a, 1) != Has(b, 1)
  {
  }

  lemma {:induction false} Has2(a: bv64, b: bv64)
    ensures Has(Add(a, b), 2) <==> Has(a, 2) != Has(b, 2)
  {
  }

  lemma {:induction false} Has4(a: bv64, b: bv64)
    ensures Has(Add(a, b), 4) <==> Has(a, 4) != Has(b, 4)
  {
  }

  lemma {:induction false} Has8(a: bv64, b: bv64)
    ensures Has(Add(a, b), 8) <==> Has(a, 8) != Has(b, 8)
  {
  }

  lemma {:induction false} Has16(a: bv64, b: bv64)
    ensures Has(Add(a, b), 16) <==> Has(a, 16) != Has(b, 16)
  {
  }

  lemma {:induction false} PickLinear(a: bv64, b: bv64, bit: bv64, g: bv64)
    requires Has(Add(a, b), bit) <==> Has(a, bit) != Has(b, bit)
    ensures Pick(Add(a, b), bit, g) == Add(Pick(a, bit, g), Pick(b, bit, g))
  {
    hide Add, Has;
    AddZero(g);
    AddZero(0);
    AddSame(g, g);
  }

  lemma {:induction false} MultipleLinear(a: bv64, b: bv64, g: bv64, h: bv64, i: bv64, j: bv64, k: bv64)
    ensures Multiple(Add(a, b), g, h, i, j, k) == Add(Multiple(a, g, h, i, j, k), Multiple(b, g, h, i, j, k))
  {
    hide Add, Has, Pick;
    Has1(a, b);
    Has2(a, b);
    Has4(a, b);
    Has8(a, b);
    Has16(a, b);
    PickLinear(a, b, 1, g);
    PickLinear(a, b, 2, h);
    PickLinear(a, b, 4, i);
    PickLinear(a, b, 8, j);
    PickLinear(a, b, 16, k);
    var a1, b1, a2, b2 := Pick(a, 1, g), Pick(b, 1, g), Pick(a, 2, h), Pick(b, 2, h);
    var a4, b4, a8, b8 := Pick(a, 4, i), Pick(b, 4, i), Pick(a, 8, j), Pick(b, 8, j);
    AddSwap(a1, b1, a2, b2);
    AddSwap(Add(a1, a2), Add(b1, b2), a4, b4);
    AddSwap(Add(Add(a1, a2), a4), Add(Add(b1, b2), b4), a8, b8);
    AddSwap(Add(Add(Add(a1, a2), a4), a8), Add(Add(Add(b1, b2), b4), b8), Pick(a, 16, k), Pick(b, 16, k));
  }

  lemma {:induction false} ReductionLinear(code: Code, a: bv64, b: bv64)
    ensures Reduction(code, Add(a, b)) == Add(Reduction(code, a), Reduction(code, b))
  {
    hide Add, Multiple;
    if code.Bech32? {
      MultipleLinear(a, b, 0x3b6a57b2, 0x26508e6d, 0x1ea119fa, 0x3d4233dd, 0x2a1462b3);
    } else {
      MultipleLinear(a, b, 0x7d52fba40bd886, 0x5e8dbf1a03950c, 0x1c3a3c74072a18, 0x385d72fa0e5139, 0x7093e5a608865b);
    }
  }

  lemma {:induction false} TopLinear(code: Code, a: bv64, b: bv64)
    ensures Top(code, Add(a, b)) == Add(Top(code, a), Top(code, b))
  {
    hide Top, Add;
    if code.Bech32? { TopLinear25(a, b); } else { TopLinear55(a, b); }
  }

  lemma {:induction false} TopLinear25(a: bv64, b: bv64)
    ensures Top(Bech32, Add(a, b)) == Add(Top(Bech32, a), Top(Bech32, b))
  {
    Top25(a, b);
  }

  lemma {:induction false} TopLinear55(a: bv64, b: bv64)
    ensures Top(Blech32, Add(a, b)) == Add(Top(Blech32, a), Top(Blech32, b))
  {
    Top55(a, b);
  }

  lemma {:induction false} LowLinear(code: Code, a: bv64, b: bv64)
    ensures Low(code, Add(a, b)) == Add(Low(code, a), Low(code, b))
  {
    hide Low, Add;
    if code.Bech32? { LowLinear25(a, b); } else { LowLinear55(a, b); }
  }

  lemma {:induction false} LowLinear25(a: bv64, b: bv64)
    ensures Low(Bech32, Add(a, b)) == Add(Low(Bech32, a), Low(Bech32, b))
  {
    LowXor25(a, b);
  }

  lemma {:induction false} LowLinear55(a: bv64, b: bv64)
    ensures Low(Blech32, Add(a, b)) == Add(Low(Blech32, a), Low(Blech32, b))
  {
    LowXor55(a, b);
  }

  lemma {:induction false} StepLinear(code: Code, a: bv64, b: bv64, u: bv64, v: bv64)
    ensures Step(code, Add(a, b), Add(u, v)) == Add(Step(code, a, u), Step(code, b, v))
  {
    hide Add, Reduction, Top, Low;
    TopLinear(code, a, b);
    LowLinear(code, a, b);
    ReductionLinear(code, Top(code, a), Top(code, b));
    AddSwap(Low(code, a), Low(code, b), u, v);
    AddSwap(Add(Low(code, a), u), Add(Low(code, b), v), Reduction(code, Top(code, a)), Reduction(code, Top(code, b)));
  }

  /** Symbol by symbol. */
  ghost function Xor(u: seq<bv64>, v: seq<bv64>): (r: seq<bv64>)
    requires |u| == |v|
    ensures |r| == |u| && forall i :: 0 <= i < |u| ==> r[i] == Add(u[i], v[i])
  {
    seq(|u|, i requires 0 <= i < |u| => Add(u[i], v[i]))
  }

  lemma {:induction false} RunLinear(code: Code, a: bv64, b: bv64, u: seq<bv64>, v: seq<bv64>)
    requires |u| == |v|
    ensures Run(code, Add(a, b), Xor(u, v)) == Add(Run(code, a, u), Run(code, b, v))
  {
    hide Step, Add;
    if u != [] {
      var n := |u| - 1;
      RunLinear(code, a, b, u[..n], v[..n]);
      assert Xor(u, v)[..n] == Xor(u[..n], v[..n]);
      StepLinear(code, Run(code, a, u[..n]), Run(code, b, v[..n]), u[n], v[n]);
    }
  }

  lemma {:induction false} RunConcat(code: Code, c: bv64, u: seq<bv64>, v: seq<bv64>)
    ensures Run(code, c, u + v) == Run(code, Run(code, c, u), v)
  {
    hide Step;
    if v == [] {
      assert u + v == u;
    } else {
      var n := |v| - 1;
      assert (u + v)[..|u| + n] == u + v[..n];
      RunConcat(code, c, u, v[..n]);
    }
  }

  // ---------- states and symbols ----------

  ghost predicate Symbols(v: seq<bv64>) { forall i :: 0 <= i < |v| ==> v[i] < 32 }

  function Last(c: bv64): bv64 { c & 31 }

  function Upper(c: bv64): bv64 { c >> 5 }

  /** c >> 5 * n */
  function Shifted(c: bv64, n: nat): bv64 { if n == 0 then c else Shifted(Upper(c), n - 1) }

  /** The word has at most n symbols. */
  ghost predicate Within(c: bv64, n: nat) { Shifted(c, n) == 0 }

  ghost predicate Fits(code: Code, c: bv64) {
    if code.Bech32? then c < 0x40000000 else c < 0x1000000000000000
  }

  lemma {:induction false} StepFits(code: Code, c: bv64, v: bv64)
    requires Fits(code, c) && Fits(code, v)
    ensures Fits(code, Step(code, c, v))
  {
    hide Fits, Low, Top, Reduction, Add;
    LowFits(code, c);
    ReductionFits(code, Top(code, c));
    AddFits(code, Low(code, c), v);
    AddFits(code, Add(Low(code, c), v), Reduction(code, Top(code, c)));
  }

  lemma {:induction false} LowFits(code: Code, c: bv64)
    ensures Fits(code, Low(code, c))
  {
    if code.Bech32? { LowFits25(c); } else { LowFits55(c); }
  }

  lemma {:induction false} LowFits25(c: bv64)
    ensures (c & 0x1ffffff) << 5 < 0x40000000
  {
  }

  lemma {:induction false} LowFits55(c: bv64)
    ensures (c & 0x7fffffffffffff) << 5 < 0x1000000000000000
  {
  }

  lemma {:induction false} ReductionFits(code: Code, c0: bv64)
    ensures Fits(code, Reduction(code, c0))
  {
    hide Multiple;
    if code.Bech32? {
      MultipleFits(code, c0, 0x3b6a57b2, 0x26508e6d, 0x1ea119fa, 0x3d4233dd, 0x2a1462b3);
    } else {
      MultipleFits(code, c0, 0x7d52fba40bd886, 0x5e8dbf1a03950c, 0x1c3a3c74072a18, 0x385d72fa0e5139, 0x7093e5a608865b);
    }
  }

  lemma {:induction false} MultipleFits(code: Code, c0: bv64, g: bv64, h: bv64, i: bv64, j: bv64, k: bv64)
    requires Fits(code, g) && Fits(code, h) && Fits(code, i) && Fits(code, j) && Fits(code, k)
    ensures Fits(code, Multiple(c0, g, h, i, j, k))
  {
    hide Fits, Add, Has;
    OneFits(code);
    var a, b, c, d, e := Pick(c0, 1, g), Pick(c0, 2, h), Pick(c0, 4, i), Pick(c0, 8, j), Pick(c0, 16, k);
    AddFits(code, a, b);
    AddFits(code, Add(a, b), c);
    AddFits(code, Add(Add(a, b), c), d);
    AddFits(code, Add(Add(Add(a, b), c), d), e);
  }

  lemma {:induction false} RunFits(code: Code, c: bv64, v: seq<bv64>)
    requires Fits(code, c) && Symbols(v)
    ensures Fits(code, Run(code, c, v))
  {
    hide Step;
    if v != [] {
      RunFits(code, c, v[..|v| - 1]);
      StepFits(code, Run(code, c, v[..|v| - 1]), v[|v| - 1]);
    }
  }

  /** Only zero is taken to zero by a zero symbol. */
  lemma {:induction false} StepInjective(code: Code, c: bv64)
    requires Fits(code, c)
    ensures Step(code, c, 0) == 0 <==> c == 0
  {
    hide Step, Reduction, Low, Top, Add;
    var low, r := Low(code, c), Reduction(code, Top(code, c));
    assert Step(code, c, 0) == Add(low, r) by { StepZero(code, c); }
    AddSame(low, r);
    NoReduction(code);
    LowTop(code, c);
    if low == r { TopVanishes(code, Top(code, c)); }
  }

  lemma {:induction false} StepZero(code: Code, c: bv64)
    ensures Step(code, c, 0) == Add(Low(code, c), Reduction(code, Top(code, c)))
  {
    hide Reduction, Low, Top, Add;
    AddZero(Low(code, c));
  }

  /** A word is zero when its leading coefficient and the others are. */
  lemma {:induction false} LowTop(code: Code, c: bv64)
    requires Fits(code, c)
    ensures Last(Low(code, c)) == 0 && Top(code, c) < 32
    ensures Top(code, c) == 0 && Low(code, c) == 0 <==> c == 0
  {
  }

  /** The generator has an invertible constant term. */
  lemma {:induction false} TopVanishes(code: Code, t: bv64)
    requires t < 32 && Last(Reduction(code, t)) == 0
    ensures t == 0
  {
    hide Reduction, Last;
    if code.Bech32? { TopVanishes25(t); } else { TopVanishes55(t); }
  }

  lemma {:induction false} TopVanishes25(t: bv64)
    requires t < 32 && Last(Reduction(Bech32, t)) == 0
    ensures t == 0
  {
  }

  lemma {:induction false} TopVanishes55(t: bv64)
    requires t < 32 && Last(Reduction(Blech32, t)) == 0
    ensures t == 0
  {
  }

  ghost function Zeroes(n: nat): (r: seq<bv64>)
    ensures |r| == n && forall i :: 0 <= i < n ==> r[i] == 0
  {
    seq(n, _ => 0)
  }

  lemma {:induction false} RunInjective(code: Code, c: bv64, n: nat)
    requires Fits(code, c)
    ensures Run(code, c, Zeroes(n)) == 0 <==> c == 0
  {
    hide Step;
    if n > 0 {
      RunInjective(code, c, n - 1);
      assert Zeroes(n)[..n - 1] == Zeroes(n - 1);
      RunFits(code, c, Zeroes(n - 1));
      StepInjective(code, Run(code, c, Zeroes(n - 1)));
    }
  }

  // ---------- packing symbols into a word ----------

  lemma {:induction false} FewSymbols(code: Code, c: bv64)
    ensures Within(c, Size(code)) <==> Fits(code, c)
    ensures Within(c, Size(code) - 1) ==> Top(code, c) == 0
  {
    if code.Bech32? { FiveShifts(c); } else { ElevenShifts(c); }
  }

  lemma {:induction false} FiveShifts(c: bv64)
    ensures Shifted(c, 5) == c >> 25 && Shifted(c, 6) == c >> 30
  {
    assert Shifted(c >> 25, 1) == Shifted(c >> 30, 0);
    assert Shifted(c >> 20, 2) == Shifted(c >> 25, 1) && Shifted(c >> 20, 1) == Shifted(c >> 25, 0);
    assert Shifted(c >> 15, 3) == Shifted(c >> 20, 2) && Shifted(c >> 15, 2) == Shifted(c >> 20, 1);
    assert Shifted(c >> 10, 4) == Shifted(c >> 15, 3) && Shifted(c >> 10, 3) == Shifted(c >> 15, 2);
    assert Shifted(c >> 5, 5) == Shifted(c >> 10, 4) && Shifted(c >> 5, 4) == Shifted(c >> 10, 3);
  }

  lemma {:induction false} ShiftedTwice(c: bv64, n: nat, m: nat)
    ensures Shifted(c, n + m) == Shifted(Shifted(c, n), m)
    decreases n
  {
    hide Upper;
    if n > 0 { ShiftedTwice(Upper(c), n - 1, m); }
  }

  lemma {:induction false} ElevenShifts(c: bv64)
    ensures Shifted(c, 11) == c >> 55 && Shifted(c, 12) == c >> 60
  {
    hide Shifted;
    FiveShifts(c);
    FiveShifts(c >> 30);
    ShiftedTwice(c, 6, 5);
    ShiftedTwice(c, 6, 6);
  }

  lemma {:induction false} WithinMore(c: bv64, n: nat, m: nat)
    requires Within(c, n) && n <= m
    ensures Within(c, m)
    decreases m
  {
    hide Upper;
    NothingAbove();
    if n > 0 {
      WithinMore(Upper(c), n - 1, m - 1);
    } else if m > 0 {
      WithinMore(Upper(c), 0, m - 1);
    }
  }

  lemma {:induction false} NothingAbove()
    ensures Upper(0) == 0 && Last(0) == 0
  {
  }

  lemma {:induction false} WithinNext(c: bv64, n: nat)
    ensures Within(c, n + 1) <==> Within(Upper(c), n)
  {
    hide Upper;
  }

  lemma {:induction false} WithinNothing(c: bv64)
    ensures Within(c, 0) <==> c == 0
  {
  }

  /** The symbols of a word, first symbol highest. */
  ghost function Groups(m: bv64, n: nat): (r: seq<bv64>)
    ensures |r| == n
  {
    if n == 0 then [] else Groups(Upper(m), n - 1) + [Last(m)]
  }

  lemma {:induction false} GroupAt(m: bv64, n: nat, i: nat)
    requires i < n
    ensures Groups(m, n)[i] == Last(Shifted(m, n - 1 - i)) < 32
    decreases n
  {
    hide Upper;
    if i < n - 1 { GroupAt(Upper(m), n - 1, i); }
  }

  lemma {:induction false} GroupsSymbols(m: bv64, n: nat)
    ensures Symbols(Groups(m, n))
  {
    forall i | 0 <= i < n ensures Groups(m, n)[i] < 32 { GroupAt(m, n, i); }
  }

  /** Without a leading coefficient the step only shifts the symbol in. */
  lemma {:induction false} ShiftIn(code: Code, c: bv64, v: bv64)
    requires Top(code, c) == 0
    ensures Step(code, c, v) == Add(Low(code, c), v)
  {
    hide Add, Low, Top;
    AddZero(Add(Low(code, c), v));
    NoReduction(code);
  }

  lemma {:induction false} NoReduction(code: Code)
    ensures Reduction(code, 0) == 0
  {
    hide Add;
    AddZero(0);
    assert 0 & 1 == 0 as bv64 && 0 & 2 == 0 as bv64 && 0 & 4 == 0 as bv64 && 0 & 8 == 0 as bv64 && 0 & 16 == 0 as bv64;
  }

  lemma {:induction false} PlainStep(code: Code, c: bv64, v: bv64, s: bv64)
    requires Top(code, c) == 0 && v < 32 && s == Step(code, c, v)
    ensures Upper(s) == c && Last(s) == v
  {
    hide Step, Low, Add, Top, Upper, Last;
    ShiftIn(code, c, v);
    if code.Bech32? { Plain25(c, v, s); } else { Plain55(c, v, s); }
  }

  lemma {:induction false} Plain25(c: bv64, v: bv64, s: bv64)
    requires Top(Bech32, c) == 0 && v < 32 && s == Add(Low(Bech32, c), v)
    ensures Upper(s) == c && Last(s) == v
  {
    hide Add, Low, Top, Upper, Last;
    TopIs(Bech32, c);
    LowIs(Bech32, c, v);
    In25(c, v, s);
  }

  lemma {:induction false} Plain55(c: bv64, v: bv64, s: bv64)
    requires Top(Blech32, c) == 0 && v < 32 && s == Add(Low(Blech32, c), v)
    ensures Upper(s) == c && Last(s) == v
  {
    hide Add, Low, Top, Upper, Last;
    TopIs(Blech32, c);
    LowIs(Blech32, c, v);
    In55(c, v, s);
  }

  lemma {:induction false} LowIs(code: Code, c: bv64, v: bv64)
    ensures code.Bech32? ==> Add(Low(code, c), v) == ((c & 0x1ffffff) << 5) ^ v
    ensures code.Blech32? ==> Add(Low(code, c), v) == ((c & 0x7fffffffffffff) << 5) ^ v
  {
  }

  lemma {:induction false} TopIs(code: Code, c: bv64)
    ensures code.Bech32? ==> Top(code, c) == c >> 25
    ensures code.Blech32? ==> Top(code, c) == c >> 55
  {
  }

  lemma {:induction false} PlainBack(code: Code, m: bv64, c: bv64, v: bv64)
    requires c == Upper(m) && v == Last(m) && Top(code, c) == 0
    ensures Step(code, c, v) == m
  {
    hide Step, Low, Add, Top;
    ShiftIn(code, c, v);
    LowIs(code, c, v);
    TopIs(code, c);
    if code.Bech32? { Back25(m, c, v); } else { Back55(m, c, v); }
  }

  /** From zero, a checksum's worth of symbols is just packed into the word ... */
  lemma {:induction false} Unpacked(code: Code, v: seq<bv64>)
    requires Symbols(v) && |v| <= Size(code)
    ensures Groups(Run(code, 0, v), |v|) == v && Within(Run(code, 0, v), |v|)
  {
    hide Step, Top, Within, Upper, Last, Add;
    if v != [] {
      var n := |v| - 1;
      Unpacked(code, v[..n]);
      var c := Run(code, 0, v[..n]);
      WithinMore(c, n, Size(code) - 1);
      FewSymbols(code, c);
      PlainStep(code, c, v[n], Step(code, c, v[n]));
      WithinNext(Step(code, c, v[n]), n);
      assert v == v[..n] + [v[n]];
    } else {
      WithinNothing(0);
    }
  }

  /** ... and every word is packed from its symbols. */
  lemma {:induction false} Packed(code: Code, m: bv64, n: nat)
    requires Within(m, n) && n <= Size(code)
    ensures Run(code, 0, Groups(m, n)) == m
    decreases n
  {
    hide Step, Top, Within, Upper, Last;
    if n > 0 {
      WithinNext(m, n - 1);
      Packed(code, Upper(m), n - 1);
      WithinMore(Upper(m), n - 1, Size(code) - 1);
      FewSymbols(code, Upper(m));
      PlainBack(code, m, Upper(m), Last(m));
      assert Groups(m, n)[..n - 1] == Groups(Upper(m), n - 1);
    } else {
      WithinNothing(m);
    }
  }

  // ---------- checksums ----------

  /** The checksum that goes behind the symbols u. */
  ghost function Checksum(code: Code, e: Encoding, u: seq<bv64>): (r: seq<bv64>)
    ensures |r| == Size(code)
  {
    Groups(Add(Run(code, 1, u + Zeroes(Size(code))), Constant(code, e)), Size(code))
  }

  lemma {:induction false} XorZero(v: seq<bv64>)
    ensures Xor(Zeroes(|v|), v) == v
  {
    forall i | 0 <= i < |v| ensures Add(0, v[i]) == v[i] { AddZero(v[i]); }
  }

  /** Symbols behind u act on the remainder as if alone. */
  lemma {:induction false} Superposed(code: Code, c: bv64, u: seq<bv64>, v: seq<bv64>)
    ensures Run(code, c, u + v) == Add(Run(code, c, u + Zeroes(|v|)), Run(code, 0, v))
  {
    hide Run, Xor, Add;
    var p := Run(code, c, u);
    RunConcat(code, c, u, v);
    RunConcat(code, c, u, Zeroes(|v|));
    XorZero(v);
    AddZero(p);
    RunLinear(code, p, 0, Zeroes(|v|), v);
  }

  lemma {:induction false} ConstantFits(code: Code, e: Encoding, c: bv64)
    requires Fits(code, c)
    ensures Fits(code, Add(c, Constant(code, e)))
  {
  }

  lemma {:induction false} OneFits(code: Code)
    ensures Fits(code, 1) && Fits(code, 0)
  {
  }

  /** Exactly one checksum makes a list of symbols valid. */
  lemma {:induction false} ChecksumExact(code: Code, e: Encoding, u: seq<bv64>, v: seq<bv64>)
    requires Symbols(u) && Symbols(v) && |v| == Size(code)
    ensures Run(code, 1, u + v) == Constant(code, e) <==> v == Checksum(code, e, u)
  {
    hide Run, Constant, Fits, Within, Groups, Add, Top;
    var n := Size(code);
    var rem := Run(code, 1, u + Zeroes(n));
    var m := Add(rem, Constant(code, e));
    Superposed(code, 1, u, v);
    AddSolve(rem, Run(code, 0, v), Constant(code, e));
    OneFits(code);
    RunFits(code, 1, u + Zeroes(n));
    ConstantFits(code, e, rem);
    FewSymbols(code, m);
    Unpacked(code, v);
    Packed(code, m, n);
  }

  // ---------- detecting changes ----------

  /** u and v differ, and only in a window of n symbols that starts at p. */
  ghost predicate DifferWithin(u: seq<bv64>, v: seq<bv64>, p: nat, n: nat) {
    |u| == |v| && u != v && p + n <= |u| && u[..p] == v[..p] && u[p + n..] == v[p + n..]
  }

  lemma {:induction false} XorSymbols(u: seq<bv64>, v: seq<bv64>)
    requires |u| == |v| && Symbols(u) && Symbols(v)
    ensures Symbols(Xor(u, v)) && (Xor(u, v) == Zeroes(|u|) <==> u == v)
  {
    hide Add;
    forall i | 0 <= i < |u| ensures Xor(u, v)[i] < 32 && (Xor(u, v)[i] == 0 <==> u[i] == v[i]) {
      AddSmall(u[i], v[i]);
      AddSame(u[i], v[i]);
    }
    assert u == v ==> Xor(u, v) == Zeroes(|u|);
    if Xor(u, v) == Zeroes(|u|) {
      forall i | 0 <= i < |u| ensures u[i] == v[i] { assert Xor(u, v)[i] == 0; }
    }
  }

  lemma {:induction false} AddSmall(a: bv64, b: bv64)
    requires a < 32 && b < 32
    ensures Add(a, b) < 32
  {
  }

  /** From one state, different symbols (no more than a checksum) lead to different states. */
  lemma {:induction false} WindowDiffers(code: Code, c: bv64, u: seq<bv64>, v: seq<bv64>)
    requires |u| == |v| <= Size(code) && Symbols(u) && Symbols(v)
    ensures Run(code, c, u) == Run(code, c, v) <==> u == v
  {
    hide Run, Groups, Within, Add;
    XorSymbols(u, v);
    var w := Xor(u, v);
    RunLinear(code, c, c, u, v);
    AddSame(c, c);
    AddSame(Run(code, c, u), Run(code, c, v));
    Unpacked(code, w);
    NothingPacked(code, |u|);
    if Run(code, c, u) == Run(code, c, v) { assert w == Groups(0, |u|) == Zeroes(|u|); }
  }

  lemma {:induction false} NothingPacked(code: Code, n: nat)
    ensures Groups(0, n) == Zeroes(n)
  {
    if n > 0 {
      NothingPacked(code, n - 1);
      NothingAbove();
    }
  }

  /** Different states stay different while the symbols are the same. */
  lemma {:induction false} StaysDifferent(code: Code, c: bv64, d: bv64, v: seq<bv64>)
    requires Fits(code, c) && Fits(code, d)
    ensures Run(code, c, v) == Run(code, d, v) <==> c == d
  {
    hide Run, Add, Fits;
    RunLinear(code, c, d, v, v);
    AddSame(c, d);
    AddSame(Run(code, c, v), Run(code, d, v));
    XorSelf(v);
    AddFits(code, c, d);
    RunInjective(code, Add(c, d), |v|);
  }

  lemma {:induction false} AddFits(code: Code, c: bv64, d: bv64)
    requires Fits(code, c) && Fits(code, d)
    ensures Fits(code, Add(c, d))
  {
  }

  lemma {:induction false} XorSelf(v: seq<bv64>)
    ensures Xor(v, v) == Zeroes(|v|)
  {
    hide Add;
    forall i | 0 <= i < |v| ensures Add(v[i], v[i]) == 0 { AddSame(v[i], v[i]); }
  }

  /** A change within a window as long as the checksum changes the remainder. */
  lemma {:induction false} ChangeDetected(code: Code, u: seq<bv64>, v: seq<bv64>, p: nat, n: nat)
    requires Symbols(u) && Symbols(v) && DifferWithin(u, v, p, n) && n <= Size(code)
    ensures Run(code, 1, u) != Run(code, 1, v)
  {
    hide Run, Fits;
    var q := p + n;
    var head, tail, x, y := u[..p], u[q..], u[p..q], v[p..q];
    assert u == head + x + tail && v == head + y + tail;
    var c := Run(code, 1, head);
    RunConcat(code, 1, head, x);
    RunConcat(code, 1, head, y);
    RunConcat(code, 1, head + x, tail);
    RunConcat(code, 1, head + y, tail);
    WindowDiffers(code, c, x, y);
    OneFits(code);
    RunFits(code, 1, head + x);
    RunFits(code, 1, head + y);
    StaysDifferent(code, Run(code, c, x), Run(code, c, y), tail);
  }
}

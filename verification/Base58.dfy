/** Base 58 encoding and decoding of byte strings (src/base58.cpp). */
module Base58 {
  import opened Arithmetic
  import opened Options

  // ---------- powers ----------

  ghost function Pow(b: nat, n: nat): (r: nat)
    ensures b > 0 ==> r > 0
  {
    if n == 0 then 1 else b * Pow(b, n - 1)
  }

  lemma {:induction false} PowAdd(b: nat, m: nat, n: nat)
    ensures Pow(b, m + n) == Pow(b, m) * Pow(b, n)
  {
    if m > 0 {
      PowAdd(b, m - 1, n);
      Associate(b, Pow(b, m - 1), Pow(b, n));
    }
  }

  lemma {:induction false} PowMul(b: nat, m: nat, n: nat)
    ensures Pow(b, m * n) == Pow(Pow(b, m), n)
  {
    if n > 0 {
      PowMul(b, m, n - 1);
      PowAdd(b, m, m * (n - 1));
      assert m * n == m + m * (n - 1);
    }
  }

  lemma {:induction false} PowMono(b: nat, m: nat, n: nat)
    requires b > 0 && m <= n
    ensures Pow(b, m) <= Pow(b, n)
  {
    PowAdd(b, m, n - m);
    Larger(Pow(b, m), Pow(b, n - m));
  }

  lemma {:induction false} Larger(a: nat, k: nat)
    requires k > 0
    ensures a <= a * k
  {
  }

  lemma {:induction false} PowBase(a: nat, b: nat, n: nat)
    requires a <= b
    ensures Pow(a, n) <= Pow(b, n)
  {
    if n > 0 {
      PowBase(a, b, n - 1);
      Products(a, b, Pow(a, n - 1), Pow(b, n - 1));
    }
  }

  lemma {:induction false} Products(a: nat, b: nat, x: nat, y: nat)
    requires a <= b && x <= y
    ensures a * x <= b * y
  {
    assert a * x <= b * x;
    assert b * x <= b * y;
  }

  /** Comparing n-th powers compares the numbers. */
  lemma {:induction false} PowStrict(a: nat, b: nat, n: nat)
    requires a < b && n > 0
    ensures Pow(a, n) < Pow(b, n)
  {
    PowBase(a, b, n - 1);
    var x, y := Pow(a, n - 1), Pow(b, n - 1);
    assert a * x <= a * y;
    assert a * y < b * y;
  }

  lemma {:induction false} Root(a: nat, b: nat, n: nat)
    requires Pow(a, n) <= Pow(b, n) && n > 0
    ensures a <= b
  {
    if b < a { PowStrict(b, a, n); }
  }

  // ---------- buffer sizes ----------

  lemma {:induction false} SmallPowers()
    ensures Pow(58, 1) == 58 && Pow(58, 3) == 195112 && Pow(2, 1) == 2 && Pow(2, 4) == 16
  {
  }

  lemma {:induction false} Pow58Values()
    ensures Pow(58, 7) == 2207984167552 && Pow(58, 14) == 4875194084160298409672704 && Pow(58, 22) == 624332378391008467754527498760580235264
  {
    hide Pow;
    SmallPowers();
    PowAdd(58, 3, 3);
    PowAdd(58, 6, 1);
    PowAdd(58, 7, 7);
    PowAdd(58, 14, 7);
    PowAdd(58, 21, 1);
  }

  lemma {:induction false} Pow2Values()
    ensures Pow(2, 41) == 2199023255552 && Pow(2, 129) == 680564733841876926926749214863536422912
  {
    hide Pow;
    SmallPowers();
    PowAdd(2, 4, 4);
    PowAdd(2, 8, 8);
    PowAdd(2, 16, 16);
    PowAdd(2, 32, 32);
    PowAdd(2, 32, 8);
    PowAdd(2, 40, 1);
    PowAdd(2, 64, 64);
    PowAdd(2, 128, 1);
  }

  lemma {:induction false} ByteIsPower(n: nat)
    ensures Pow(256, n) == Pow(2, 8 * n)
  {
    hide Pow;
    SmallPowers();
    PowAdd(2, 4, 4);
    PowMul(2, 8, n);
  }

  /** n bytes fit into n * 138 / 100 + 1 digits of base 58. */
  lemma {:induction false} EncodeFits(n: nat)
    ensures Pow(256, n) <= Pow(58, n * 138 / 100 + 1)
  {
    hide Pow;
    var k := n * 138 / 100 + 1;
    assert 41 * k >= 56 * n;
    Pow58Values();
    Pow2Values();
    ByteIsPower(n);
    PowMul(2, 8 * n, 7);
    PowMul(58, 7, k);
    PowMul(2, 41, k);
    PowBase(Pow(2, 41), Pow(58, 7), k);
    PowMono(2, 56 * n, 41 * k);
    PowMul(58, k, 7);
    assert 8 * n * 7 == 56 * n && 7 * k == k * 7;
    Root(Pow(256, n), Pow(58, k), 7);
  }

  /** m digits of base 58 fit into m * 733 / 1000 + 1 bytes. */
  lemma {:induction false} DecodeFits(m: nat)
    ensures Pow(58, m) <= Pow(256, m * 733 / 1000 + 1)
  {
    hide Pow;
    var k := m * 733 / 1000 + 1;
    assert 176 * k >= 129 * m;
    Pow58Values();
    Pow2Values();
    ByteIsPower(k);
    PowMul(2, 8 * k, 22);
    PowMul(58, 22, m);
    PowMul(2, 129, m);
    PowBase(Pow(58, 22), Pow(2, 129), m);
    PowMono(2, 129 * m, 176 * k);
    PowMul(58, m, 22);
    assert 8 * k * 22 == 176 * k && 22 * m == m * 22;
    Root(Pow(58, m), Pow(256, k), 22);
  }

  // ---------- digits ----------

  /** The number that a list of digits stands for, the most significant one first. */
  ghost function Value(d: seq<nat>, base: nat): nat {
    if d == [] then 0 else Value(d[..|d| - 1], base) * base + d[|d| - 1]
  }

  ghost predicate AreDigits(d: seq<nat>, base: nat) { forall i :: 0 <= i < |d| ==> d[i] < base }

  /** The digits of a number, without leading zeroes. */
  ghost function DigitsOf(v: nat, base: nat): seq<nat>
    requires base >= 2
  {
    if v == 0 then [] else DigitsOf(v / base, base) + [v % base]
  }

  lemma {:induction false} ValueSnoc(d: seq<nat>, x: nat, base: nat)
    ensures Value(d + [x], base) == Value(d, base) * base + x
  {
    var e := d + [x];
    assert e[..|e| - 1] == d;
  }

  lemma {:induction false} ValueConcat(a: seq<nat>, b: seq<nat>, base: nat)
    ensures Value(a + b, base) == Value(a, base) * Pow(base, |b|) + Value(b, base)
  {
    if b == [] {
      assert a + b == a;
    } else {
      var n := |b| - 1;
      var c, x := b[..n], b[n];
      assert b == c + [x] && a + b == (a + c) + [x];
      ValueSnoc(a + c, x, base);
      ValueSnoc(c, x, base);
      ValueConcat(a, c, base);
      ConcatStep(Value(a, base), Pow(base, n), Value(c, base), base, x);
    }
  }

  lemma {:induction false} ConcatStep(va: nat, p: nat, vc: nat, base: nat, x: nat)
    ensures (va * p + vc) * base + x == va * (base * p) + (vc * base + x)
  {
  }

  lemma {:induction false} ValueZeroes(d: seq<nat>, base: nat)
    requires forall i :: 0 <= i < |d| ==> d[i] == 0
    ensures Value(d, base) == 0
  {
    if d != [] { ValueZeroes(d[..|d| - 1], base); }
  }

  lemma {:induction false} ValueBound(d: seq<nat>, base: nat)
    requires AreDigits(d, base) && base >= 2
    ensures Value(d, base) < Pow(base, |d|)
  {
    if d != [] {
      var n := |d| - 1;
      ValueBound(d[..n], base);
      BoundStep(Value(d[..n], base), Pow(base, n), base, d[n]);
    }
  }

  lemma {:induction false} BoundStep(v: nat, p: nat, base: nat, x: nat)
    requires v < p && x < base
    ensures v * base + x < base * p
  {
    assert (v + 1) * base <= p * base;
  }

  /** A list of digits that does not start with zero is the digits of its value. */
  lemma {:induction false} DigitsOfValue(d: seq<nat>, base: nat)
    requires AreDigits(d, base) && base >= 2 && (d != [] ==> d[0] != 0)
    ensures DigitsOf(Value(d, base), base) == d && (d != [] ==> Value(d, base) > 0)
  {
    if d != [] {
      var n := |d| - 1;
      var c, x := d[..n], d[n];
      assert d == c + [x];
      ValueSnoc(c, x, base);
      if n > 0 { assert c[0] == d[0]; }
      DigitsOfValue(c, base);
      DivUnique(Value(d, base), base, Value(c, base), x);
      if n > 0 { Larger(Value(c, base), base); } else { assert c == []; }
    }
  }

  lemma {:induction false} DigitsOfDigits(v: nat, base: nat)
    requires base >= 2
    ensures AreDigits(DigitsOf(v, base), base) && Value(DigitsOf(v, base), base) == v
    ensures v > 0 ==> DigitsOf(v, base) != [] && DigitsOf(v, base)[0] != 0
  {
    hide DigitsOf, Value;
    NoDigitsOf(base);
    if v > 0 {
      OneDigit(v, base);
      DigitsOfDigits(v / base, base);
      ValueSnoc(DigitsOf(v / base, base), v % base, base);
    }
  }

  lemma {:induction false} OneDigit(v: nat, base: nat)
    requires base >= 2 && v > 0
    ensures 0 <= v / base < v && 0 <= v % base < base && (v / base) * base + v % base == v
    ensures DigitsOf(v, base) == DigitsOf(v / base, base) + [v % base]
  {
    DivMod(v, base);
    Larger(v / base, base);
  }

  lemma {:induction false} NoDigitsOf(base: nat)
    requires base >= 2
    ensures DigitsOf(0, base) == [] && Value([], base) == 0
  {
  }

  /** The top digit of a number with that many digits is not zero. */
  lemma {:induction false} TopDigit(d: seq<nat>, base: nat)
    requires AreDigits(d, base) && base >= 2 && d != []
    ensures d[0] != 0 <==> Value(d, base) >= Pow(base, |d| - 1)
  {
    var t := d[1..];
    assert d == d[..1] + t;
    assert d[..1] == [] + [d[0]];
    ValueSnoc([], d[0], base);
    ValueConcat(d[..1], t, base);
    ValueBound(t, base);
    TopStep(d[0], Pow(base, |t|), Value(t, base));
  }

  lemma {:induction false} TopStep(x: nat, p: nat, v: nat)
    requires v < p
    ensures x != 0 <==> x * p + v >= p
  {
    if x != 0 { assert x * p >= 1 * p; }
  }

  // ---------- multiply and add, in place ----------

  /** The buffer holds a number in its last `length` digits. */
  ghost predicate Holds(b: seq<nat>, base: nat, length: nat) {
    AreDigits(b, base) && length <= |b| && forall i :: 0 <= i < |b| - length ==> b[i] == 0
  }

  /** After i steps: the low i digits and the carry make up the product so far. */
  ghost predicate Carrying(old_: seq<nat>, b: seq<nat>, base: nat, mul: nat, add: nat, i: nat, carry: nat) {
    && |b| == |old_| && i <= |b| && AreDigits(b, base) && b[..|b| - i] == old_[..|b| - i]
    && Value(b[|b| - i..], base) + carry * Pow(base, i) == Value(old_[|b| - i..], base) * mul + add
  }

  lemma {:induction false} CarryShape(old_: seq<nat>, b: seq<nat>, k: nat, x: nat)
    requires k < |b| == |old_| && b[..k + 1] == old_[..k + 1]
    ensures var c := b[k := x];
            && c[..k] == old_[..k] && c[k..] == [x] + b[k + 1..] && old_[k..] == [old_[k]] + old_[k + 1..] && b[k] == old_[k]
  {
    assert b[k] == b[..k + 1][k] == old_[..k + 1][k];
    assert b[..k] == b[..k + 1][..k] == old_[..k + 1][..k] == old_[..k];
  }

  lemma {:induction false} ValueCons(x: nat, d: seq<nat>, base: nat)
    ensures Value([x] + d, base) == x * Pow(base, |d|) + Value(d, base)
  {
    assert [x] == [] + [x];
    ValueSnoc([], x, base);
    ValueConcat([x], d, base);
  }

  lemma {:induction false} CarryStep(old_: seq<nat>, b: seq<nat>, base: nat, mul: nat, add: nat, i: nat, carry: nat)
    requires base >= 2 && Carrying(old_, b, base, mul, add, i, carry) && i < |b|
    ensures var k := |b| - 1 - i; var t := carry + mul * b[k];
            Carrying(old_, b[k := t % base], base, mul, add, i + 1, t / base)
  {
    hide Value, Pow;
    var k := |b| - 1 - i;
    var t := carry + mul * b[k];
    CarryShape(old_, b, k, t % base);
    var low, was := b[k + 1..], old_[k + 1..];
    ValueCons(t % base, low, base);
    ValueCons(old_[k], was, base);
    CarryMath(Value(low, base), Value(was, base), Pow(base, i), base, mul, add, carry, b[k], t);
    NextPow(base, i);
  }

  lemma {:induction false} NextPow(base: nat, i: nat)
    ensures Pow(base, i + 1) == base * Pow(base, i)
  {
  }

  lemma {:induction false} CarryMath(low: nat, was: nat, p: nat, base: nat, mul: nat, add: nat, carry: nat, x: nat, t: nat)
    requires base >= 2 && t == carry + mul * x && low + carry * p == was * mul + add
    ensures ((t % base) * p + low) + (t / base) * (base * p) == (x * p + was) * mul + add
  {
    assert (t % base) * p + (t / base) * (base * p) == ((t / base) * base + t % base) * p;
    assert (t / base) * base + t % base == t;
    assert t * p == carry * p + (mul * x) * p;
    assert (x * p + was) * mul == (mul * x) * p + was * mul;
  }

  lemma {:induction false} CarryEnd(old_: seq<nat>, b: seq<nat>, base: nat, mul: nat, add: nat, length: nat, i: nat, carry: nat)
    requires base >= 2 && Carrying(old_, b, base, mul, add, i, carry) && Holds(old_, base, length)
    requires i == |b| || (carry == 0 && i >= length)
    ensures Value(b, base) + carry * Pow(base, |b|) == Value(old_, base) * mul + add
    ensures i < |b| ==> Holds(b, base, i)
  {
    var k := |b| - i;
    assert b == b[..k] + b[k..] && old_ == old_[..k] + old_[k..];
    if i < |b| {
      forall j | 0 <= j < k ensures b[j] == 0 && old_[j] == 0 { assert b[..k][j] == old_[..k][j]; }
      ValueZeroes(b[..k], base);
      ValueZeroes(old_[..k], base);
      ValueConcat(b[..k], b[k..], base);
      ValueConcat(old_[..k], old_[k..], base);
    } else {
      assert b[k..] == b && old_[k..] == old_;
    }
  }

  ghost predicate Working(old_: seq<nat>, b: seq<nat>, base: nat, mul: nat, add: nat, length: nat, i: nat, carry: nat) {
    Carrying(old_, b, base, mul, add, i, carry) && (i > length && carry == 0 ==> b[|b| - i] != 0)
  }

  lemma {:induction false} WorkStep(old_: seq<nat>, b: seq<nat>, base: nat, mul: nat, add: nat, length: nat, i: nat, carry: nat)
    requires base >= 2 && Working(old_, b, base, mul, add, length, i, carry) && i < |b| && Holds(old_, base, length) && (carry != 0 || i < length)
    ensures var k := |b| - 1 - i; var t := carry + mul * b[k];
            Working(old_, b[k := t % base], base, mul, add, length, i + 1, t / base)
  {
    hide Value, Pow;
    CarryStep(old_, b, base, mul, add, i, carry);
    TopZero(old_, b, base, length, i);
    NonZeroStep(carry, base);
  }

  lemma {:induction false} WorkEnd(old_: seq<nat>, b: seq<nat>, base: nat, mul: nat, add: nat, length: nat, i: nat, carry: nat)
    requires base >= 2 && Working(old_, b, base, mul, add, length, i, carry) && Holds(old_, base, length) && (i == |b| || (carry == 0 && i >= length))
    ensures length <= i <= |b| == |old_| && Holds(b, base, i) && (carry != 0 ==> i == |b|)
    ensures Value(b, base) + carry * Pow(base, |b|) == Value(old_, base) * mul + add
    ensures i > length && carry == 0 ==> b[|b| - i] != 0
  {
    hide Value, Pow;
    CarryEnd(old_, b, base, mul, add, length, i, carry);
  }

  /** b = b * mul + add on a big-endian buffer of digits; stops early when nothing is left to do. */
  method MulAdd(b: array<nat>, base: nat, mul: nat, add: nat, length: nat) returns (i: nat, carry: nat)
    requires base >= 2 && Holds(b[..], base, length)
    modifies b
    ensures length <= i <= b.Length && Holds(b[..], base, i) && (carry != 0 ==> i == b.Length)
    ensures Value(b[..], base) + carry * Pow(base, b.Length) == Value(old(b[..]), base) * mul + add
    ensures i > length && carry == 0 ==> b[b.Length - i] != 0
  {
    hide *;
    ghost var was := b[..];
    WorkStart(was, base, mul, add, length);
    i, carry := 0, add;
    while (carry != 0 || i < length) && i < b.Length
      invariant i <= b.Length && Working(was, b[..], base, mul, add, length, i, carry)
      decreases b.Length - i
    {
      WorkStep(was, b[..], base, mul, add, length, i, carry);
      ghost var before := b[..];
      var k := b.Length - 1 - i;
      carry := carry + mul * b[k];
      b[k] := carry % base;
      assert b[..] == before[k := b[k]];
      carry := carry / base;
      i := i + 1;
    }
    WorkEnd(was, b[..], base, mul, add, length, i, carry);
  }

  lemma {:induction false} WorkStart(b: seq<nat>, base: nat, mul: nat, add: nat, length: nat)
    requires Holds(b, base, length)
    ensures Working(b, b, base, mul, add, length, 0, add)
  {
    CarryStart(b, base, mul, add);
  }

  lemma {:induction false} CarryStart(b: seq<nat>, base: nat, mul: nat, add: nat)
    requires AreDigits(b, base)
    ensures Carrying(b, b, base, mul, add, 0, add)
  {
    assert b[|b|..] == [];
  }

  /** Digits above the number are zero before they are reached. */
  lemma {:induction false} TopZero(old_: seq<nat>, b: seq<nat>, base: nat, length: nat, i: nat)
    requires |b| == |old_| && i < |b| && b[..|b| - i] == old_[..|b| - i] && Holds(old_, base, length)
    ensures i >= length ==> b[|b| - 1 - i] == 0
  {
    var k := |b| - 1 - i;
    assert b[k] == b[..|b| - i][k] == old_[..|b| - i][k];
  }

  lemma {:induction false} NonZeroStep(carry: nat, base: nat)
    requires base >= 2
    ensures carry != 0 && carry / base == 0 ==> carry % base != 0
  {
    DivMod(carry, base);
  }

  // ---------- a number in a buffer ----------

  /** The buffer holds v in exactly `length` digits. */
  ghost predicate Keeps(b: seq<nat>, base: nat, length: nat, v: nat) {
    Holds(b, base, length) && Value(b, base) == v && (length > 0 ==> v >= Pow(base, length - 1))
  }

  lemma {:induction false} KeepsDigits(b: seq<nat>, base: nat, length: nat, v: nat)
    requires base >= 2 && Keeps(b, base, length, v)
    ensures b[|b| - length..] == DigitsOf(v, base)
  {
    hide Pow, Value, DigitsOf;
    var k := |b| - length;
    var d := b[k..];
    assert b == b[..k] + d;
    ValueZeroes(b[..k], base);
    ValueConcat(b[..k], d, base);
    if length > 0 { TopDigit(d, base); }
    DigitsOfValue(d, base);
  }

  lemma {:induction false} KeepsStart(b: seq<nat>, base: nat)
    requires base >= 2 && forall i :: 0 <= i < |b| ==> b[i] == 0
    ensures Keeps(b, base, 0, 0)
  {
    ValueZeroes(b, base);
  }

  /** Multiplying and adding keeps the number exact while it fits the buffer. */
  lemma {:induction false} KeepsNext(was: seq<nat>, b: seq<nat>, base: nat, mul: nat, add: nat, length: nat, v: nat, i: nat, carry: nat)
    requires base >= 2 && mul >= 1 && Keeps(was, base, length, v) && |b| == |was| && length <= i && Holds(b, base, i)
    requires Value(b, base) + carry * Pow(base, |b|) == v * mul + add && v * mul + add < Pow(base, |b|)
    requires i > length && carry == 0 ==> b[|b| - i] != 0
    ensures carry == 0 && Keeps(b, base, i, v * mul + add)
  {
    hide Value, Pow;
    CarryFits(carry, Pow(base, |b|), v * mul + add);
    if i == length {
      Larger(v, mul);
    } else {
      TopOfBuffer(b, base, i);
    }
  }

  lemma {:induction false} CarryFits(carry: nat, p: nat, n: nat)
    requires carry * p <= n < p
    ensures carry == 0
  {
    if carry > 0 { Larger(p, carry); }
  }

  lemma {:induction false} TopOfBuffer(b: seq<nat>, base: nat, i: nat)
    requires base >= 2 && Holds(b, base, i) && i > 0 && b[|b| - i] != 0
    ensures Value(b, base) >= Pow(base, i - 1)
  {
    hide Pow;
    var k := |b| - i;
    assert b == b[..k] + b[k..];
    ValueZeroes(b[..k], base);
    ValueConcat(b[..k], b[k..], base);
    TopDigit(b[k..], base);
  }

  // ---------- characters ----------

  /** The digit alphabet, which skips the four characters easily misread. */
  function CharOf(d: nat): char
    requires d < 58
  {
    if d < 9 then '1' + d as char
    else if d < 17 then 'A' + (d - 9) as char
    else if d < 22 then 'J' + (d - 17) as char
    else if d < 33 then 'P' + (d - 22) as char
    else if d < 44 then 'a' + (d - 33) as char
    else 'm' + (d - 44) as char
  }

  function DigitOf(c: char): Option<nat> {
    if '1' <= c <= '9' then Some((c - '1') as nat)
    else if 'A' <= c <= 'H' then Some((c - 'A') as nat + 9)
    else if 'J' <= c <= 'N' then Some((c - 'J') as nat + 17)
    else if 'P' <= c <= 'Z' then Some((c - 'P') as nat + 22)
    else if 'a' <= c <= 'k' then Some((c - 'a') as nat + 33)
    else if 'm' <= c <= 'z' then Some((c - 'm') as nat + 44)
    else None
  }

  predicate IsSpace(c: char) { c == ' ' || c == '\t' || c == '\n' || c == '\r' || c == 11 as char || c == 12 as char }

  predicate IsOne(c: char) { c == '1' }

  predicate InWord(c: char) { !IsSpace(c) }

  lemma {:induction false} CharDigit(d: nat)
    requires d < 58
    ensures DigitOf(CharOf(d)) == Some(d) && !IsSpace(CharOf(d)) && CharOf(d) != '\0' && (CharOf(d) == '1' <==> d == 0)
  {
  }

  lemma {:induction false} DigitRange(c: char)
    ensures DigitOf(c).Some? ==> DigitOf(c).value < 58
  {
  }

  // ---------- encoding ----------

  ghost function LeadingZeroes(x: seq<nat>): (z: nat)
    ensures z <= |x| && (forall i :: 0 <= i < z ==> x[i] == 0) && (z < |x| ==> x[z] != 0)
  {
    if x != [] && x[0] == 0 then 1 + LeadingZeroes(x[1..]) else 0
  }

  ghost function Chars(d: seq<nat>): (r: string)
    requires AreDigits(d, 58)
    ensures |r| == |d| && forall i :: 0 <= i < |d| ==> r[i] == CharOf(d[i])
  {
    seq(|d|, i requires 0 <= i < |d| => CharOf(d[i]))
  }

  function Repeat<T>(x: T, n: nat): (r: seq<T>)
    ensures |r| == n && forall i :: 0 <= i < n ==> r[i] == x
  {
    seq(n, _ => x)
  }

  /** What a byte string is encoded as: a 1 for each leading zero, then the digits of the rest. */
  ghost function Encoded(x: seq<nat>): string {
    var z := LeadingZeroes(x);
    var v := Value(x[z..], 256);
    DigitsOfDigits(v, 58);
    Repeat('1', z) + Chars(DigitsOf(v, 58))
  }

  lemma {:induction false} ZeroesAre(x: seq<nat>, z: nat)
    requires z <= |x| && (forall i :: 0 <= i < z ==> x[i] == 0) && (z < |x| ==> x[z] != 0)
    ensures LeadingZeroes(x) == z
  {
    var y := LeadingZeroes(x);
  }

  method EncodeBase58(input: seq<nat>) returns (str: string)
    requires AreDigits(input, 256)
    ensures str == Encoded(input)
  {
    hide Value, Pow, Keeps, Holds, DigitsOf, LeadingZeroes;
    var zeroes := 0;
    while zeroes < |input| && input[zeroes] == 0
      invariant zeroes <= |input| && forall i :: 0 <= i < zeroes ==> input[i] == 0
    {
      zeroes := zeroes + 1;
    }
    ZeroesAre(input, zeroes);
    var rest := input[zeroes..];
    var size := |rest| * 138 / 100 + 1;
    var b58 := new nat[size](_ => 0);
    KeepsStart(b58[..], 58);
    NoValue(rest);
    var length := 0;
    for j := 0 to |rest|
      invariant Keeps(b58[..], 58, length, Value(rest[..j], 256))
    {
      ghost var was := b58[..];
      KeepsHolds(was, 58, length, Value(rest[..j], 256));
      var i, carry := MulAdd(b58, 58, 256, rest[j], length);
      EncodeNext(rest, j, size);
      KeepsNext(was, b58[..], 58, 256, rest[j], length, Value(rest[..j], 256), i, carry);
      assert carry == 0;
      length := i;
    }
    assert rest[..|rest|] == rest;
    Result(b58[..], length, Value(rest, 256));
    var it := size - length;
    assert !(it < size && b58[it] == 0);
    str := Translate(Repeat('1', zeroes), b58[it..]);
  }

  /** Append the characters of the digits. */
  method Translate(start: string, digits: seq<nat>) returns (str: string)
    requires AreDigits(digits, 58)
    ensures str == start + Chars(digits)
  {
    str := start;
    for k := 0 to |digits|
      invariant str == start + Chars(digits[..k])
    {
      assert Chars(digits[..k + 1]) == Chars(digits[..k]) + [CharOf(digits[k])];
      str := str + [CharOf(digits[k])];
    }
    assert digits[..|digits|] == digits;
  }

  /** The buffer ends with the digits of the number, and the first of them is not zero. */
  lemma {:induction false} Result(b: seq<nat>, length: nat, v: nat)
    requires Keeps(b, 58, length, v)
    ensures length <= |b| && b[|b| - length..] == DigitsOf(v, 58) && AreDigits(DigitsOf(v, 58), 58)
    ensures length > 0 ==> b[|b| - length] != 0
  {
    hide Value, Pow, Keeps, Holds, DigitsOf;
    KeepsHolds(b, 58, length, v);
    KeepsDigits(b, 58, length, v);
    DigitsOfDigits(v, 58);
    NoLeadingZero(b[|b| - length..], v, 58);
  }

  lemma {:induction false} NoValue(rest: seq<nat>)
    ensures Value(rest[..0], 256) == 0
  {
  }

  lemma {:induction false} NoLeadingZero(d: seq<nat>, v: nat, base: nat)
    requires base >= 2 && d == DigitsOf(v, base)
    ensures d != [] ==> d[0] != 0
  {
    DigitsOfDigits(v, base);
    if v == 0 { assert d == []; }
  }

  lemma {:induction false} KeepsHolds(b: seq<nat>, base: nat, length: nat, v: nat)
    requires Keeps(b, base, length, v)
    ensures Holds(b, base, length) && AreDigits(b, base) && length <= |b| && Value(b, base) == v
  {
  }

  /** The next byte still fits. */
  lemma {:induction false} EncodeNext(rest: seq<nat>, j: nat, size: nat)
    requires j < |rest| && AreDigits(rest, 256) && size == |rest| * 138 / 100 + 1
    ensures Value(rest[..j + 1], 256) == Value(rest[..j], 256) * 256 + rest[j] < Pow(58, size)
  {
    hide Pow;
    assert rest[..j + 1] == rest[..j] + [rest[j]];
    ValueSnoc(rest[..j], rest[j], 256);
    ValueBound(rest[..j + 1], 256);
    PowMono(256, j + 1, |rest|);
    EncodeFits(|rest|);
  }

  // ---------- decoding ----------

  /** How many characters at the start of a string satisfy a condition. */
  ghost function Count(s: string, p: char -> bool): (n: nat)
    ensures n <= |s| && (forall i :: 0 <= i < n ==> p(s[i])) && (n < |s| ==> !p(s[n]))
  {
    if s != [] && p(s[0]) then 1 + Count(s[1..], p) else 0
  }

  lemma {:induction false} CountIs(s: string, p: char -> bool, n: nat)
    requires n <= |s| && (forall i :: 0 <= i < n ==> p(s[i])) && (n < |s| ==> !p(s[n]))
    ensures Count(s, p) == n
  {
    var m := Count(s, p);
  }

  ghost predicate AllDigits(s: string) { forall i :: 0 <= i < |s| ==> DigitOf(s[i]).Some? }

  ghost function DigitsIn(s: string): (d: seq<nat>)
    requires AllDigits(s)
    ensures |d| == |s| && AreDigits(d, 58) && forall i :: 0 <= i < |s| ==> Some(d[i]) == DigitOf(s[i])
  {
    seq(|s|, i requires 0 <= i < |s| => DigitOf(s[i]).value)
  }

  /** Where the leading spaces end. */
  ghost function Start(s: string): (k: nat)
    ensures k <= |s|
  {
    Count(s, IsSpace)
  }

  /** Where the leading ones after the spaces end. */
  ghost function WordStart(s: string): (k: nat)
    ensures Start(s) <= k <= |s|
  {
    Start(s) + Count(s[Start(s)..], IsOne)
  }

  /** Where the characters up to the next space end. */
  ghost function WordEnd(s: string): (k: nat)
    ensures WordStart(s) <= k <= |s|
  {
    WordStart(s) + Count(s[WordStart(s)..], InWord)
  }

  ghost function Bytes(w: string): seq<nat>
    requires AllDigits(w)
  {
    DigitsOf(Value(DigitsIn(w), 58), 256)
  }

  /** What a string decodes to, with at most `max` bytes. */
  ghost function Decoded(s: string, max: int): Option<seq<nat>> {
    if '\0' in s then None
    else Assembled(WordStart(s) - Start(s), s[WordStart(s)..WordEnd(s)], s[WordEnd(s)..], max)
  }

  ghost function Assembled(ones: nat, word: string, after: string, max: int): Option<seq<nat>> {
    if (ones > 0 && ones > max) || !AllDigits(word) then None
    else if word != [] && ones + |Bytes(word)| > max then None
    else if exists c :: c in after && !IsSpace(c) then None
    else Some(Repeat(0, ones) + Bytes(word))
  }

  method SkipWhile(s: string, from: nat, p: char -> bool) returns (k: nat)
    requires from <= |s|
    ensures k == from + Count(s[from..], p) <= |s|
  {
    k := from;
    while k < |s| && p(s[k])
      invariant from <= k <= |s| && forall i :: from <= i < k ==> p(s[i])
    {
      k := k + 1;
    }
    CountIs(s[from..], p, k - from);
  }

  /** The digits of the word up to character k are in the buffer. */
  lemma {:induction false} DecodeNext(w: string, k: nat, m: nat, size: nat)
    requires k < |w| <= m && AllDigits(w) && size == m * 733 / 1000 + 1
    ensures var d := DigitsIn(w);
            Value(d[..k + 1], 58) == Value(d[..k], 58) * 58 + d[k] < Pow(256, size)
  {
    hide Pow;
    var d := DigitsIn(w);
    assert d[..k + 1] == d[..k] + [d[k]];
    ValueSnoc(d[..k], d[k], 58);
    ValueBound(d[..k + 1], 58);
    PowMono(58, k + 1, m);
    DecodeFits(m);
  }

  /** Decode the digits of a word into a buffer; None when there is an invalid character, or more
      than `room` bytes. */
  method DecodeWord(w: string, m: nat, room: int) returns (r: Option<seq<nat>>)
    requires |w| <= m
    ensures r == if !AllDigits(w) || (w != [] && |Bytes(w)| > room) then None else Some(Bytes(w))
  {
    hide Value, Pow, Keeps, Holds, DigitsOf, AllDigits, DigitsIn, DigitOf, AreDigits;
    var size := m * 733 / 1000 + 1;
    var b256 := new nat[size](_ => 0);
    KeepsStart(b256[..], 256);
    var length := 0;
    NoDigits(w);
    for k := 0 to |w|
      invariant AllDigits(w[..k]) && Keeps(b256[..], 256, length, Value(DigitsIn(w[..k]), 58))
      invariant k > 0 ==> length <= room
    {
      var digit := DigitOf(w[k]);
      if digit.None? {
        BadDigit(w, k);
        return None;
      }
      DigitRange(w[k]);
      ghost var was, v := b256[..], Value(DigitsIn(w[..k]), 58);
      KeepsHolds(was, 256, length, v);
      var i, carry := MulAdd(b256, 256, 58, digit.value, length);
      WordNext(w, k, m, size);
      KeepsNext(was, b256[..], 256, 58, digit.value, length, v, i, carry);
      assert carry == 0;
      length := i;
      if length > room {
        TooLong(b256[..], length, w, k + 1, room);
        return None;
      }
    }
    assert w[..|w|] == w;
    ghost var v := Value(DigitsIn(w), 58);
    KeepsHolds(b256[..], 256, length, v);
    KeepsDigits(b256[..], 256, length, v);
    r := Some(b256[size - length..]);
  }

  lemma {:induction false} BadDigit(w: string, k: nat)
    requires k < |w| && DigitOf(w[k]).None?
    ensures !AllDigits(w)
  {
    hide DigitOf;
  }

  lemma {:induction false} NoDigits(w: string)
    ensures AllDigits(w[..0]) && Value(DigitsIn(w[..0]), 58) == 0
  {
  }

  lemma {:induction false} WordNext(w: string, k: nat, m: nat, size: nat)
    requires k < |w| <= m && AllDigits(w[..k]) && DigitOf(w[k]).Some? && size == m * 733 / 1000 + 1
    ensures AllDigits(w[..k + 1])
    ensures Value(DigitsIn(w[..k + 1]), 58) == Value(DigitsIn(w[..k]), 58) * 58 + DigitOf(w[k]).value < Pow(256, size)
  {
    hide Value, Pow;
    var u := w[..k + 1];
    assert u[..k] == w[..k] && u[k] == w[k];
    DecodeNext(u, k, m, size);
    assert DigitsIn(u)[..k] == DigitsIn(w[..k]) && DigitsIn(u)[..k + 1] == DigitsIn(u);
  }

  /** A word whose start needs too many bytes needs too many. */
  lemma {:induction false} TooLong(b: seq<nat>, length: nat, w: string, k: nat, room: int)
    requires k <= |w| && AllDigits(w[..k]) && Keeps(b, 256, length, Value(DigitsIn(w[..k]), 58)) && length > room && k > 0
    ensures AllDigits(w) ==> |Bytes(w)| > room
  {
    KeepsDigits(b, 256, length, Value(DigitsIn(w[..k]), 58));
    KeepsHolds(b, 256, length, Value(DigitsIn(w[..k]), 58));
    hide Value, DigitsOf;
    if AllDigits(w) {
      var d := DigitsIn(w);
      assert DigitsIn(w[..k]) == d[..k];
      PrefixSmaller(d, k);
      MoreDigits(Value(d[..k], 58), Value(d, 58), 256);
    }
  }

  lemma {:induction false} PrefixSmaller(d: seq<nat>, k: nat)
    requires k <= |d|
    ensures Value(d[..k], 58) <= Value(d, 58)
  {
    assert d == d[..k] + d[k..];
    ValueConcat(d[..k], d[k..], 58);
    Larger(Value(d[..k], 58), Pow(58, |d| - k));
  }

  lemma {:induction false} MoreDigits(v: nat, w: nat, base: nat)
    requires base >= 2 && v <= w
    ensures |DigitsOf(v, base)| <= |DigitsOf(w, base)|
  {
    hide DigitsOf;
    if v > 0 {
      OneDigit(v, base);
      OneDigit(w, base);
      DivOrder(v, w, base);
      MoreDigits(v / base, w / base, base);
    } else {
      NoDigitsOf(base);
    }
  }

  lemma {:induction false} DivOrder(v: nat, w: nat, base: nat)
    requires base >= 2 && v <= w
    ensures v / base <= w / base
  {
    DivMod(v, base);
    DivMod(w, base);
    Above(w / base, v / base, base);
  }

  method DecodeBase58(str: string, maxRetLen: int) returns (r: Option<seq<nat>>)
    ensures r == Decoded(str, maxRetLen)
  {
    hide Value, DigitsOf, DigitsIn, AllDigits, Bytes, Count, IsSpace, IsOne, InWord;
    if '\0' in str { return None; }
    var start := SkipWhile(str, 0, IsSpace);
    assert str[0..] == str;
    var p := SkipWhile(str, start, IsOne);
    var zeroes := p - start;
    if zeroes > 0 && zeroes > maxRetLen { return None; }
    var end := SkipWhile(str, p, InWord);
    var bytes := DecodeWord(str[p..end], |str| - p, maxRetLen - zeroes);
    if bytes.None? { return None; }
    var q := SkipWhile(str, end, IsSpace);
    TrailingSpaces(str[end..]);
    if q < |str| { return None; }
    r := Some(Repeat(0, zeroes) + bytes.value);
  }

  lemma {:induction false} TrailingSpaces(s: string)
    ensures Count(s, IsSpace) < |s| <==> exists c :: c in s && !IsSpace(c)
  {
    var n := Count(s, IsSpace);
    if n < |s| { assert s[n] in s; }
  }

  // ---------- the round trip ----------

  /** The encoding has no spaces, and its word starts after the ones. */
  lemma {:induction false} EncodedParts(z: nat, d: seq<nat>)
    requires AreDigits(d, 58) && (d != [] ==> d[0] != 0)
    ensures var s := Repeat('1', z) + Chars(d);
            Start(s) == 0 && WordStart(s) == z && WordEnd(s) == |s| && s[z..] == Chars(d) && '\0' !in s
  {
    hide Count, CharOf, IsSpace;
    var s := Repeat('1', z) + Chars(d);
    forall i | 0 <= i < |d| ensures !IsSpace(s[z + i]) && s[z + i] != '\0' && (s[z + i] == '1' <==> d[i] == 0) {
      CharDigit(d[i]);
    }
    CharDigit(0);
    PlainStart(s, z);
    CountIs(s[z..], InWord, |d|);
  }

  lemma {:induction false} PlainStart(s: string, z: nat)
    requires z <= |s| && (forall i :: 0 <= i < z ==> s[i] == '1') && (z < |s| ==> s[z] != '1' && !IsSpace(s[z]))
    ensures Start(s) == 0 && WordStart(s) == z
  {
    CountIs(s, IsSpace, 0);
    assert s[0..] == s;
    CountIs(s, IsOne, z);
  }

  lemma {:induction false} CharsDigits(d: seq<nat>)
    requires AreDigits(d, 58)
    ensures AllDigits(Chars(d)) && DigitsIn(Chars(d)) == d
  {
    hide CharOf, DigitOf;
    forall i | 0 <= i < |d| ensures DigitOf(Chars(d)[i]) == Some(d[i]) {
      CharDigit(d[i]);
    }
  }

  /** Decoding what was encoded gives the bytes back, exactly when they are allowed to be that many. */
  lemma {:induction false} RoundTrip(x: seq<nat>, max: int)
    requires AreDigits(x, 256)
    ensures Decoded(Encoded(x), max) == if x == [] || |x| <= max then Some(x) else None
  {
    hide Value, DigitsOf, AllDigits, DigitsIn, Chars, LeadingZeroes, Start, WordStart, WordEnd, IsSpace;
    var z := LeadingZeroes(x);
    var rest := x[z..];
    var v := Value(rest, 256);
    var d := DigitsOf(v, 58);
    DigitsOfDigits(v, 58);
    NoLeadingZero(d, v, 58);
    EncodedParts(z, d);
    CharsDigits(d);
    DigitsOfValue(rest, 256);
    assert Bytes(Chars(d)) == rest;
    EmptyTogether(rest, v);
    var s := Repeat('1', z) + Chars(d);
    assert s[z..|s|] == s[z..] && s[|s|..] == [];
    assert Decoded(s, max) == Assembled(z, Chars(d), [], max);
    assert x == Repeat(0, z) + rest;
  }

  lemma {:induction false} EmptyTogether(rest: seq<nat>, v: nat)
    requires v == Value(rest, 256) && DigitsOf(v, 256) == rest
    ensures DigitsOf(v, 58) == [] <==> rest == []
  {
  }

  /** A string that decodes is, but for the spaces around it, the encoding of what it decodes to. */
  lemma {:induction false} Canonical(s: string, max: int)
    requires Decoded(s, max).Some?
    ensures AreDigits(Decoded(s, max).value, 256)
    ensures Encoded(Decoded(s, max).value) == s[Start(s)..WordEnd(s)]
  {
    hide Value, DigitsOf, AllDigits, DigitsIn, Chars, LeadingZeroes, Start, WordStart, WordEnd, IsSpace, Bytes, Encoded;
    var z := WordStart(s) - Start(s);
    var w := s[WordStart(s)..WordEnd(s)];
    WordTop(s);
    CanonicalWord(z, w);
    OnesBefore(s);
    assert s[Start(s)..WordEnd(s)] == Repeat('1', z) + w;
  }

  lemma {:induction false} CanonicalWord(z: nat, w: string)
    requires AllDigits(w) && (w != [] ==> DigitsIn(w)[0] != 0)
    ensures AreDigits(Repeat(0, z) + Bytes(w), 256) && Encoded(Repeat(0, z) + Bytes(w)) == Repeat('1', z) + w
  {
    hide Value, DigitsOf, AllDigits, DigitsIn, Chars, LeadingZeroes;
    var d := DigitsIn(w);
    var v := Value(d, 58);
    DigitsOfValue(d, 58);
    DigitsOfDigits(v, 256);
    var rest := DigitsOf(v, 256);
    NoLeadingZero(rest, v, 256);
    var x := Repeat(0, z) + rest;
    ZeroesAre(x, z);
    assert x[z..] == rest;
    WordChars(w);
  }

  lemma {:induction false} OnesBefore(s: string)
    ensures forall i :: Start(s) <= i < WordStart(s) ==> s[i] == '1'
  {
    var k, n := Start(s), Count(s[Start(s)..], IsOne);
    forall i | k <= i < WordStart(s) ensures s[i] == '1' {
      assert IsOne(s[k..][i - k]);
    }
  }

  /** The word does not start with a one. */
  lemma {:induction false} WordTop(s: string)
    ensures var w := s[WordStart(s)..WordEnd(s)];
            AllDigits(w) && w != [] ==> DigitsIn(w)[0] != 0
  {
    hide Value, AllDigits, DigitsIn;
    var k, n := Start(s), Count(s[Start(s)..], IsOne);
    var w := s[WordStart(s)..WordEnd(s)];
    if AllDigits(w) && w != [] {
      assert !IsOne(s[k..][n]) && s[k..][n] == w[0];
      assert Some(DigitsIn(w)[0]) == DigitOf(w[0]);
      DigitChar(w[0]);
    }
  }

  lemma {:induction false} DigitChar(c: char)
    ensures DigitOf(c).Some? ==> DigitOf(c).value < 58 && CharOf(DigitOf(c).value) == c
    ensures DigitOf(c) == Some(0) ==> c == '1'
  {
  }

  lemma {:induction false} WordChars(w: string)
    ensures AllDigits(w) ==> Chars(DigitsIn(w)) == w
  {
    hide CharOf, DigitOf;
    if AllDigits(w) {
      forall i | 0 <= i < |w| ensures Chars(DigitsIn(w))[i] == w[i] {
        DigitChar(w[i]);
      }
    }
  }
}

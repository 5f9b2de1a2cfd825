/** The number a little-endian list of 32-bit digits stands for. */
module Limbs {
  import opened Arithmetic
  import opened Powers

  const BASE: nat := 0x1_0000_0000

  lemma {:induction false} PowBase()
    ensures Pow2(32) == BASE
  {
    Pow8(0);
    Pow8(8);
    Pow8(16);
    Pow8(24);
  }

  lemma {:induction false} Pow8(n: nat)
    ensures Pow2(n + 8) == 256 * Pow2(n)
  {
    assert Pow2(n + 2) == 4 * Pow2(n);
    assert Pow2(n + 4) == 4 * Pow2(n + 2);
    assert Pow2(n + 6) == 4 * Pow2(n + 4);
    assert Pow2(n + 8) == 4 * Pow2(n + 6);
  }

  /** The weight of digit i. */
  ghost function Weight(i: nat): (w: nat)
    ensures w >= 1
  {
    Pow2(32 * i)
  }

  lemma {:induction false} WeightNext(i: nat)
    ensures Weight(i + 1) == BASE * Weight(i) == Weight(i) * BASE
  {
    PowBase();
    PowAdd(32, 32 * i);
  }

  lemma {:induction false} WeightAdd(i: nat, j: nat)
    ensures Weight(i + j) == Weight(i) * Weight(j)
  {
    PowAdd(32 * i, 32 * j);
  }

  lemma {:induction false} WeightZero()
    ensures Weight(0) == 1 && Weight(1) == BASE
  {
    PowBase();
  }

  // ---------- values ----------

  ghost predicate IsLimbs(s: seq<nat>) { forall i :: 0 <= i < |s| ==> s[i] < BASE }

  ghost function Value(s: seq<nat>): nat {
    if s == [] then 0 else s[0] + BASE * Value(s[1..])
  }

  lemma {:induction false} ValueConcat(a: seq<nat>, b: seq<nat>)
    ensures Value(a + b) == Value(a) + Weight(|a|) * Value(b)
  {
    if a == [] {
      assert a + b == b;
      WeightZero();
    } else {
      assert (a + b)[1..] == a[1..] + b;
      ValueConcat(a[1..], b);
      WeightNext(|a| - 1);
      Associate(BASE, Weight(|a| - 1), Value(b));
    }
  }

  lemma {:induction false} ValueOne(x: nat)
    ensures Value([x]) == x
  {
  }

  lemma {:induction false} ValueSnoc(a: seq<nat>, x: nat)
    ensures Value(a + [x]) == Value(a) + Weight(|a|) * x
  {
    ValueConcat(a, [x]);
  }

  lemma {:induction false} ValueBound(s: seq<nat>)
    requires IsLimbs(s)
    ensures Value(s) < Weight(|s|)
  {
    if s == [] {
      WeightZero();
    } else {
      ValueBound(s[1..]);
      WeightNext(|s| - 1);
    }
  }

  lemma {:induction false} ValueUpdate(s: seq<nat>, i: nat, x: nat)
    requires i < |s|
    ensures Value(s[i := x]) + Weight(i) * s[i] == Value(s) + Weight(i) * x
  {
    hide Value, Weight;
    var a, c := s[..i], s[i + 1..];
    assert s == a + [s[i]] + c && s[i := x] == a + [x] + c;
    ValueSnoc(a, s[i]);
    ValueSnoc(a, x);
    ValueConcat(a + [s[i]], c);
    ValueConcat(a + [x], c);
  }

  lemma {:induction false} ValueZeroes(s: seq<nat>)
    requires forall i :: 0 <= i < |s| ==> s[i] == 0
    ensures Value(s) == 0
  {
    if s != [] { ValueZeroes(s[1..]); }
  }

  /** The lowest digits are the remainder by their weight, the others the quotient. */
  lemma {:induction false} ValueSplit(s: seq<nat>, n: nat)
    requires IsLimbs(s) && n <= |s|
    ensures Value(s) == Value(s[..n]) + Weight(n) * Value(s[n..])
    ensures Value(s[..n]) == Value(s) % Weight(n) && Value(s[n..]) == Value(s) / Weight(n)
  {
    hide Value, Weight;
    assert s == s[..n] + s[n..];
    ValueConcat(s[..n], s[n..]);
    ValueBound(s[..n]);
    DivUnique(Value(s), Weight(n), Value(s[n..]), Value(s[..n]));
  }

  // ---------- bits ----------

  /** Bitwise or. */
  function Or(x: nat, y: nat): nat
    decreases x + y
  {
    if x == 0 && y == 0 then 0
    else (if x % 2 == 1 || y % 2 == 1 then 1 else 0) + 2 * Or(x / 2, y / 2)
  }

  lemma {:induction false} OrZero(x: nat)
    ensures Or(x, 0) == x == Or(0, x)
  {
    if x > 0 { OrZero(x / 2); }
  }

  /** Numbers without a common bit are added. */
  lemma {:induction false} OrDisjoint(x: nat, y: nat, s: nat)
    requires x < Pow2(s)
    ensures Or(x, y * Pow2(s)) == x + y * Pow2(s) == Or(y * Pow2(s), x)
    decreases s
  {
    if s == 0 {
      OrZero(y);
    } else {
      var p := Pow2(s - 1);
      Associate(y, 2, p);
      assert y * Pow2(s) == 2 * (y * p);
      OrDisjoint(x / 2, y, s - 1);
    }
  }
}

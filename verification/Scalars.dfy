/** Blinding scalars modulo the order of secp256k1, with the library's partial operations, and the
    offsets built from them (src/blindpsbt.cpp:309-393). */
module Scalars {
  import opened Options

  const ORDER: nat := 0xFFFFFFFFFFFFFFFFFFFFFFFFFFFFFFFEBAAEDCE6AF48A03BBFD25E8CD0364141

  /** Equal modulo the group order. */
  ghost predicate Same(a: int, b: int) { exists k: int :: a == b + Multiple(k) }

  ghost function Multiple(k: int): int { k * ORDER }

  lemma {:induction false} SameBy(a: int, b: int, k: int)
    requires a == b + Multiple(k)
    ensures Same(a, b)
  {
  }

  lemma {:induction false} SameAdd(a: int, b: int, c: int, d: int)
    requires Same(a, b) && Same(c, d)
    ensures Same(a + c, b + d) && Same(a - c, b - d)
  {
    var k :| a == b + Multiple(k);
    var m :| c == d + Multiple(m);
    SameBy(a + c, b + d, k + m);
    SameBy(a - c, b - d, k - m);
  }

  lemma {:induction false} SameTrans(a: int, b: int, c: int)
    requires Same(a, b) && Same(b, c)
    ensures Same(a, c) && Same(b, a)
  {
    var k :| a == b + Multiple(k);
    var m :| b == c + Multiple(m);
    SameBy(a, c, k + m);
    SameBy(b, a, -k);
  }

  lemma {:induction false} SameSelf(a: int)
    ensures Same(a, a)
  {
    SameBy(a, a, 0);
  }

  /** The one number in range that equals x. */
  lemma {:induction false} InRange(r: int, x: int)
    requires Same(r, x) && 0 <= r < ORDER
    ensures r == x % ORDER
  {
    SameMod(x);
    SameSelf(x);
    SameTrans(x % ORDER, x, x);
    SameTrans(r, x, x % ORDER);
    var k :| r == x % ORDER + Multiple(k);
  }

  lemma {:induction false} SameMod(x: int)
    ensures Same(x % ORDER, x)
  {
    SameBy(x % ORDER, x, -(x / ORDER));
  }

  // ---------- the library ----------

  /** A valid secret key. */
  predicate Key(x: nat) { 0 < x < ORDER }

  function Negate(x: nat): Option<nat> { if Key(x) then Some(ORDER - x) else None }

  /** Fails on an invalid key, a tweak out of range, or a zero result. */
  function TweakAdd(x: nat, tweak: nat): Option<nat> {
    if Key(x) && tweak < ORDER && (x + tweak) % ORDER != 0 then Some((x + tweak) % ORDER) else None
  }

  /** Fails on an invalid key, or a tweak that is zero or out of range. */
  function TweakMul(x: nat, tweak: nat): Option<nat> {
    if Key(x) && Key(tweak) then Some((x * tweak) % ORDER) else None
  }

  // ---------- offsets ----------

  /** When b can be subtracted from a: the library has no zero and no number out of range. */
  ghost predicate Subtractable(a: nat, b: nat) { b == 0 || (Key(b) && (a == 0 || (Key(a) && a != b))) }

  ghost function Minus(a: nat, b: nat): nat { if b == 0 then a else (a - b) % ORDER }

  /** Subtract b from a; None when the library fails. */
  method SubtractScalars(a: nat, b: nat) returns (r: Option<nat>)
    ensures r == if Subtractable(a, b) then Some(Minus(a, b)) else None
    ensures r.Some? ==> Same(r.value, a - b)
  {
    if b == 0 {
      SameSelf(a);
      return Some(a);
    }
    var sub := Negate(b);
    if sub.None? { return None; }
    SameBy(sub.value, 0 - b, 1);
    if a == 0 { return sub; }
    r := TweakAdd(a, sub.value);
    SubtractExact(a, b);
  }

  lemma {:induction false} SubtractExact(a: nat, b: nat)
    requires Key(b)
    ensures var r := TweakAdd(a, ORDER - b);
            (r.Some? <==> Key(a) && a != b) && (r.Some? ==> Same(r.value, a - b) && r.value == (a - b) % ORDER)
  {
    var x := a + (ORDER - b);
    SameMod(x);
    SameBy(x, a - b, 1);
    SameTrans(x % ORDER, x, a - b);
    if Key(a) {
      assert x % ORDER == if a >= b then a - b else x;
    }
  }

  /** value * asset blinder + value blinder. */
  ghost function Term(value: int, assetBlinder: int, valueBlinder: int): int { value * assetBlinder + valueBlinder }

  /** When the offset cannot be computed: a blinder or value out of range, or a product that vanishes. */
  ghost predicate NoOffset(value: nat, assetBlinder: nat, valueBlinder: nat) {
    assetBlinder != 0 && value != 0
    && (!Key(assetBlinder) || !Key(value) || (valueBlinder != 0 && (!Key(valueBlinder) || (assetBlinder * value) % ORDER == 0)))
  }

  /** The offset as it is stored. */
  ghost function Offset(value: nat, assetBlinder: nat, valueBlinder: nat): nat {
    if assetBlinder == 0 || value == 0 then valueBlinder else (assetBlinder * value + valueBlinder) % ORDER
  }

  method CalculateScalarOffset(value: nat, assetBlinder: nat, valueBlinder: nat) returns (out: Option<nat>)
    ensures out == if NoOffset(value, assetBlinder, valueBlinder) then None else Some(Offset(value, assetBlinder, valueBlinder))
    ensures out.Some? ==> Same(out.value, Term(value, assetBlinder, valueBlinder))
  {
    if assetBlinder == 0 {
      SameSelf(valueBlinder);
      return Some(valueBlinder);
    }
    if value == 0 {
      SameSelf(valueBlinder);
      return Some(valueBlinder);
    }
    out := TweakMul(assetBlinder, value);
    if out.None? { return; }
    ghost var product := assetBlinder * value;
    assert value * assetBlinder == product;
    SameMod(product + valueBlinder);
    if valueBlinder != 0 {
      var negated := Negate(valueBlinder);
      if negated.None? { return None; }
      SumMod(product, valueBlinder);
      if negated.value == out.value { return Some(0); }
      out := TweakAdd(out.value, valueBlinder);
    }
  }

  /** Adding to a remainder. */
  lemma {:induction false} SumMod(p: nat, v: nat)
    requires Key(v)
    ensures var r := p % ORDER;
            (r + v) % ORDER == (p + v) % ORDER && ((r + v) % ORDER == 0 <==> r + v == ORDER)
  {
  }

  /** When an offset can be computed and added to a sum. */
  ghost predicate Addable(a: nat, value: nat, assetBlinder: nat, valueBlinder: nat) {
    || (assetBlinder == 0 && valueBlinder == 0)
    || (!NoOffset(value, assetBlinder, valueBlinder) && (a != 0 ==> Key(a) && Key(Offset(value, assetBlinder, valueBlinder))))
  }

  /** The sum as it is stored. */
  ghost function Plus(a: nat, value: nat, assetBlinder: nat, valueBlinder: nat): nat {
    if assetBlinder == 0 && valueBlinder == 0 then a
    else if a == 0 then Offset(value, assetBlinder, valueBlinder)
    else (a + Offset(value, assetBlinder, valueBlinder)) % ORDER
  }

  /** Compute an offset and add it to another. */
  method ComputeAndAddToScalarOffset(a: nat, value: nat, assetBlinder: nat, valueBlinder: nat) returns (r: Option<nat>)
    ensures r == if Addable(a, value, assetBlinder, valueBlinder) then Some(Plus(a, value, assetBlinder, valueBlinder)) else None
    ensures r.Some? ==> Same(r.value, a + Term(value, assetBlinder, valueBlinder))
  {
    hide NoOffset, Offset;
    if assetBlinder == 0 && valueBlinder == 0 {
      SameSelf(a);
      return Some(a);
    }
    r := CalculateScalarOffset(value, assetBlinder, valueBlinder);
    if r.None? || a == 0 { return; }
    var scalar := r.value;
    var negated := Negate(scalar);
    if negated.None? { return None; }
    ghost var term := Term(value, assetBlinder, valueBlinder);
    SameSelf(a);
    SameAdd(a, a, scalar, term);
    SameMod(a + scalar);
    SameTrans((a + scalar) % ORDER, a + scalar, a + term);
    // the library would refuse a sum of zero
    if negated.value == a { return Some(0); }
    r := TweakAdd(a, scalar);
  }

  /** With all scalars in range, adding fails exactly if the offset is zero modulo the order. */
  lemma {:induction false} AddableExact(a: nat, value: nat, assetBlinder: nat, valueBlinder: nat)
    requires Key(a) && Key(value) && Key(assetBlinder) && Key(valueBlinder) && (assetBlinder * value) % ORDER != 0
    ensures Addable(a, value, assetBlinder, valueBlinder) <==> !Same(Term(value, assetBlinder, valueBlinder), 0)
  {
    var x := assetBlinder * value + valueBlinder;
    assert x == Term(value, assetBlinder, valueBlinder);
    SameMod(x);
    if x % ORDER == 0 {
      SameTrans(0, x, x) by { SameSelf(x); }
    }
    if Same(x, 0) {
      SameTrans(x % ORDER, x, 0);
      InRange(x % ORDER, 0);
    }
  }

  /** Adding an offset that is zero modulo the order to one fails. */
  lemma {:induction false} ZeroOffsetFails()
    ensures Same(Term(1, 1, ORDER - 1), 0) && !Addable(1, 1, 1, ORDER - 1)
  {
    SameBy(Term(1, 1, ORDER - 1), 0, 1);
  }
}

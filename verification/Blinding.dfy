/** Blinding a partially signed transaction by several parties (src/blindpsbt.cpp:395-650): when a
    call succeeds, which outputs it blinds and with which blinders, what it publishes, and that in
    the end the blinding of outputs and inputs balances. */
module Blinding {
  import opened Options
  import opened Sets
  import opened Scalars

  /** What a party knows of an input of its own. */
  datatype Input = Input(value: nat, assetBlinder: nat, valueBlinder: nat)

  /** What the commitments of a blinded output open to. */
  datatype Blinders = Blinders(assetBlinder: nat, valueBlinder: nat)

  datatype Output = Output(amount: nat, wanted: bool, unspendable: bool, blinderIndex: Option<nat>, blinded: Option<Blinders>)

  /** `Aborted` stands for a failed assertion on a commitment. */
  datatype Status = Ok | InvalidAmount | InvalidBlinder | ScalarUnable | Aborted | ProofUnable | NoBlindOutputs

  /** What is shared by all parties. */
  datatype State = State(numInputs: nat, outputs: seq<Output>, offsets: set<nat>)

  /** A call by one party: its inputs, the random blinders of each output, and for which outputs the
      proofs can be made. */
  datatype Call = Call(ours: map<nat, Input>, random: nat -> Blinders, provable: nat -> bool)

  // ---------- sums ----------

  ghost function InputTerm(x: Input): int { Term(x.value, x.assetBlinder, x.valueBlinder) }

  /** Sum over the inputs of a party with index below n. */
  ghost function InputSum(ours: map<nat, Input>, n: nat): int {
    if n == 0 then 0 else InputSum(ours, n - 1) + (if n - 1 in ours then InputTerm(ours[n - 1]) else 0)
  }

  ghost function OutputTerm(o: Output): int {
    if o.blinded.Some? then Term(o.amount, o.blinded.value.assetBlinder, o.blinded.value.valueBlinder) else 0
  }

  /** Sum over the blinded outputs. */
  ghost function OutputSum(os: seq<Output>): int {
    if os == [] then 0 else OutputSum(os[..|os| - 1]) + OutputTerm(os[|os| - 1])
  }

  lemma {:induction false} OutputSumUpdate(os: seq<Output>, i: nat, o: Output)
    requires i < |os|
    ensures OutputSum(os[i := o]) == OutputSum(os) - OutputTerm(os[i]) + OutputTerm(o)
  {
    var n, us := |os| - 1, os[i := o];
    if i == n {
      assert us[..n] == os[..n];
    } else {
      assert us[..n] == os[..n][i := o];
      OutputSumUpdate(os[..n], i, o);
    }
  }

  ghost function SetSum(s: set<nat>): int {
    if s == {} then 0 else var x := First(s); x + SetSum(s - {x})
  }

  lemma {:induction false} SetSumAdd(s: set<nat>, x: nat)
    requires x !in s
    ensures SetSum(s + {x}) == SetSum(s) + x
    decreases s
  {
    var t := s + {x};
    var f := First(t);
    if f == x {
      assert t - {x} == s;
    } else {
      assert f in s && (forall y :: y in s ==> f <= y);
      FirstIs(s, f);
      assert t - {f} == (s - {f}) + {x};
      SetSumAdd(s - {f}, x);
    }
  }

  lemma {:induction false} FirstIs(s: set<nat>, f: nat)
    requires f in s && forall y :: y in s ==> f <= y
    ensures First(s) == f
  {
  }

  ghost predicate FullyBlinded(os: seq<Output>) { forall i :: 0 <= i < |os| && os[i].wanted ==> os[i].blinded.Some? }

  // ---------- counting ----------

  ghost function CountWanted(os: seq<Output>): nat {
    if os == [] then 0 else CountWanted(os[..|os| - 1]) + (if os[|os| - 1].wanted then 1 else 0)
  }

  ghost function CountBlinded(os: seq<Output>): nat {
    if os == [] then 0 else CountBlinded(os[..|os| - 1]) + (if os[|os| - 1].blinded.Some? then 1 else 0)
  }

  /** Only outputs meant to be blinded are. */
  ghost predicate Proper(os: seq<Output>) { forall i :: 0 <= i < |os| && os[i].blinded.Some? ==> os[i].wanted }

  lemma {:induction false} CountsMeet(os: seq<Output>)
    requires Proper(os)
    ensures CountBlinded(os) <= CountWanted(os) && (CountBlinded(os) == CountWanted(os) <==> FullyBlinded(os))
  {
    if os != [] {
      var n := |os| - 1;
      CountsMeet(os[..n]);
      assert FullyBlinded(os) <==> FullyBlinded(os[..n]) && (os[n].wanted ==> os[n].blinded.Some?) by {
        assert forall i :: 0 <= i < n ==> os[..n][i] == os[i];
      }
    }
  }

  lemma {:induction false} CountUpdate(os: seq<Output>, i: nat, b: Blinders)
    requires i < |os| && os[i].blinded.None?
    ensures var us := os[i := os[i].(blinded := Some(b))];
            CountBlinded(us) == CountBlinded(os) + 1 && CountWanted(us) == CountWanted(os)
  {
    var n, us := |os| - 1, os[i := os[i].(blinded := Some(b))];
    if i == n {
      assert us[..n] == os[..n];
    } else {
      assert us[..n] == os[..n][i := os[i].(blinded := Some(b))];
      CountUpdate(os[..n], i, b);
    }
  }

  method CountOutputs(os: seq<Output>) returns (numBlinded: nat, toBlind: nat)
    ensures numBlinded == CountBlinded(os) && toBlind == CountWanted(os)
  {
    numBlinded, toBlind := 0, 0;
    for i := 0 to |os|
      invariant numBlinded == CountBlinded(os[..i]) && toBlind == CountWanted(os[..i])
    {
      assert os[..i + 1][..i] == os[..i];
      if os[i].blinded.Some? { numBlinded := numBlinded + 1; }
      if os[i].wanted { toBlind := toBlind + 1; }
    }
    assert os[..|os|] == os;
  }

  // ---------- what a call does ----------

  /** An output that the party is to blind. */
  ghost predicate Mine(s: State, c: Call, i: nat)
    requires i < |s.outputs|
  {
    var o := s.outputs[i];
    o.wanted && o.blinded.None? && o.blinderIndex.Some? && o.blinderIndex.value in c.ours
  }

  ghost function Inputs(s: State, c: Call): int { InputSum(c.ours, s.numInputs) }

  /** Sum over the party's first n outputs, with the random blinders. */
  ghost function Gain(s: State, c: Call, n: nat): int
    requires n <= |s.outputs|
  {
    if n == 0 then 0
    else Gain(s, c, n - 1)
         + if Mine(s, c, n - 1) then Term(s.outputs[n - 1].amount, c.random(n - 1).assetBlinder, c.random(n - 1).valueBlinder) else 0
  }

  ghost function Gained(s: State, c: Call): int { Gain(s, c, |s.outputs|) }

  /** All outputs that are not blinded yet are the party's. */
  ghost predicate Completes(s: State, c: Call) {
    forall i :: 0 <= i < |s.outputs| && s.outputs[i].wanted ==> s.outputs[i].blinded.Some? || Mine(s, c, i)
  }

  /** The output whose blinding completes everything. */
  ghost predicate Closing(s: State, c: Call, i: nat)
    requires i < |s.outputs|
  {
    Mine(s, c, i) && Completes(s, c) && forall k :: i < k < |s.outputs| && s.outputs[k].wanted ==> s.outputs[k].blinded.Some?
  }

  /** The value blinder that balances the transaction. */
  ghost function Balancer(s: State, c: Call, i: nat): int {
    (c.random(i).valueBlinder - (Gained(s, c) - Inputs(s, c)) - SetSum(s.offsets)) % ORDER
  }

  /** An output after the call: the party's are blinded with the random blinders, but for the value
      blinder of the last; no other changes. */
  ghost function BlindedAs(s: State, c: Call, i: nat): Output
    requires i < |s.outputs|
  {
    var o, r := s.outputs[i], c.random(i);
    if !Mine(s, c, i) then o
    else o.(blinded := Some(Blinders(r.assetBlinder, if Closing(s, c, i) then Balancer(s, c, i) else r.valueBlinder)))
  }

  ghost function After(s: State, c: Call): (r: seq<Output>)
    ensures |r| == |s.outputs| && forall i :: 0 <= i < |r| ==> r[i] == BlindedAs(s, c, i)
  {
    seq(|s.outputs|, i requires 0 <= i < |s.outputs| => BlindedAs(s, c, i))
  }

  /** The state after a successful call.  The difference of the party's outputs and inputs is
      published, unless the call completes the blinding or the outputs add up to nothing. */
  ghost function Result(s: State, c: Call): State {
    if FullyBlinded(s.outputs) then s
    else State(s.numInputs, After(s, c),
               if Completes(s, c) then {}
               else if Gained(s, c) % ORDER == 0 then s.offsets
               else s.offsets + {(Gained(s, c) - Inputs(s, c)) % ORDER})
  }

  // ---------- when a call succeeds ----------

  /** The party's inputs before n, as they are summed up. */
  ghost function InScalar(ours: map<nat, Input>, n: nat): nat {
    if n == 0 then 0
    else if n - 1 in ours then
      Plus(InScalar(ours, n - 1), ours[n - 1].value, ours[n - 1].assetBlinder, ours[n - 1].valueBlinder)
    else InScalar(ours, n - 1)
  }

  ghost predicate Summable(ours: map<nat, Input>, n: nat) {
    forall i :: 0 <= i < n && i in ours ==> Addable(InScalar(ours, i), ours[i].value, ours[i].assetBlinder, ours[i].valueBlinder)
  }

  /** The party's outputs before n, as they are summed up. */
  ghost function OutScalar(s: State, c: Call, n: nat): nat
    requires n <= |s.outputs|
  {
    if n == 0 then 0
    else if Mine(s, c, n - 1) then
      Plus(OutScalar(s, c, n - 1), s.outputs[n - 1].amount, c.random(n - 1).assetBlinder, c.random(n - 1).valueBlinder)
    else OutScalar(s, c, n - 1)
  }

  /** When the offsets can be subtracted from a one after the other. */
  ghost predicate Lowerable(a: nat, offsets: set<nat>)
    decreases offsets
  {
    offsets != {} ==> Subtractable(a, First(offsets)) && Lowerable(Minus(a, First(offsets)), offsets - {First(offsets)})
  }

  ghost function Lowered(a: nat, offsets: set<nat>): nat
    decreases offsets
  {
    if offsets == {} then a else Lowered(Minus(a, First(offsets)), offsets - {First(offsets)})
  }

  /** When the balancing blinder can be computed. */
  ghost predicate Balanceable(valueBlinder: nat, outputScalar: nat, inputScalar: nat, offsets: set<nat>) {
    && Subtractable(outputScalar, inputScalar) && Subtractable(valueBlinder, Minus(outputScalar, inputScalar))
    && Lowerable(Minus(valueBlinder, Minus(outputScalar, inputScalar)), offsets)
  }

  ghost function BalancedBlinder(valueBlinder: nat, outputScalar: nat, inputScalar: nat, offsets: set<nat>): nat {
    Lowered(Minus(valueBlinder, Minus(outputScalar, inputScalar)), offsets)
  }

  /** The value blinder of an output of the party can be had: a valid scalar that is not zero if it
      balances the transaction, a scalar in range if it is random. */
  ghost predicate BlinderOk(s: State, c: Call, i: nat)
    requires i < |s.outputs|
  {
    if Closing(s, c, i) then
      var out, inp := OutScalar(s, c, i + 1), InScalar(c.ours, s.numInputs);
      Balanceable(c.random(i).valueBlinder, out, inp, s.offsets) && Key(BalancedBlinder(c.random(i).valueBlinder, out, inp, s.offsets))
    else c.random(i).valueBlinder < ORDER
  }

  /** Output i is no obstacle. */
  ghost predicate OkAt(s: State, c: Call, i: nat)
    requires i < |s.outputs|
  {
    var o, r := s.outputs[i], c.random(i);
    && (o.wanted && o.blinded.None? ==> o.amount > 0 || o.unspendable)
    && (Mine(s, c, i) ==>
          Addable(OutScalar(s, c, i), o.amount, r.assetBlinder, r.valueBlinder) && r.assetBlinder < ORDER && BlinderOk(s, c, i) && c.provable(i))
  }

  ghost predicate OkBefore(s: State, c: Call, n: nat)
    requires n <= |s.outputs|
  {
    forall i :: 0 <= i < n ==> OkAt(s, c, i)
  }

  /** Some output before n is blinded, or gets blinded. */
  ghost predicate SomeBlinded(s: State, c: Call, n: nat)
    requires n <= |s.outputs|
  {
    exists i :: 0 <= i < n && s.outputs[i].wanted && (s.outputs[i].blinded.Some? || Mine(s, c, i))
  }

  /** The offset to publish can be computed. */
  ghost predicate Publishable(s: State, c: Call) {
    var out := OutScalar(s, c, |s.outputs|);
    Completes(s, c) || out == 0 || Subtractable(out, InScalar(c.ours, s.numInputs))
  }

  /** Exactly when a call returns Ok. */
  ghost predicate Succeeds(s: State, c: Call) {
    || FullyBlinded(s.outputs)
    || (&& Summable(c.ours, s.numInputs) && OkBefore(s, c, |s.outputs|) && Publishable(s, c)
        && (c.ours == map[] || SomeBlinded(s, c, |s.outputs|)))
  }

  /** Exactly when a call finds nothing to blind for the party's inputs. */
  ghost predicate NothingToBlind(s: State, c: Call) {
    && !FullyBlinded(s.outputs) && Summable(c.ours, s.numInputs) && OkBefore(s, c, |s.outputs|)
    && c.ours != map[] && !SomeBlinded(s, c, |s.outputs|)
  }

  // ---------- the scalars of a call ----------

  method SumInputs(ours: map<nat, Input>, numInputs: nat) returns (r: Option<nat>)
    ensures r == if Summable(ours, numInputs) then Some(InScalar(ours, numInputs)) else None
    ensures r.Some? ==> Same(r.value, InputSum(ours, numInputs))
  {
    hide Addable, Plus, Same;
    r := Some(0);
    SameSelf(0);
    for i := 0 to numInputs
      invariant Summable(ours, i) && r == Some(InScalar(ours, i)) && Same(r.value, InputSum(ours, i))
    {
      if i in ours {
        ghost var a := r.value;
        r := ComputeAndAddToScalarOffset(r.value, ours[i].value, ours[i].assetBlinder, ours[i].valueBlinder);
        if r.None? { return; }
        AddTerm(r.value, a, InputSum(ours, i), InputTerm(ours[i]));
      }
    }
  }

  lemma {:induction false} AddTerm(r: int, a: int, sum: int, term: int)
    requires Same(r, a + term) && Same(a, sum)
    ensures Same(r, sum + term)
  {
    SameSelf(term);
    SameAdd(a, sum, term, term);
    SameTrans(r, a + term, sum + term);
  }

  /** The value blinder of the last output: the random one, less everything not yet balanced. */
  method BalanceBlinder(valueBlinder: nat, outputScalar: nat, inputScalar: nat, offsets: set<nat>) returns (r: Option<nat>)
    ensures r == if Balanceable(valueBlinder, outputScalar, inputScalar, offsets)
                 then Some(BalancedBlinder(valueBlinder, outputScalar, inputScalar, offsets)) else None
    ensures r.Some? ==> Same(r.value, valueBlinder - (outputScalar - inputScalar) - SetSum(offsets))
  {
    hide Same, Subtractable, Minus;
    var net := SubtractScalars(outputScalar, inputScalar);
    if net.None? { return None; }
    r := SubtractScalars(valueBlinder, net.value);
    if r.None? { return; }
    LessTerm(r.value, valueBlinder, valueBlinder, net.value, outputScalar - inputScalar) by { SameSelf(valueBlinder); }
    ghost var goal, start := valueBlinder - (outputScalar - inputScalar), r.value;
    var rest := offsets;
    ghost var sum := 0;
    while rest != {}
      invariant rest <= offsets && r.Some? && Same(r.value, goal - sum) && SetSum(offsets) == sum + SetSum(rest)
      invariant Lowerable(start, offsets) <==> Lowerable(r.value, rest)
      invariant Lowered(start, offsets) == Lowered(r.value, rest)
    {
      var s := First(rest);
      ghost var before := r.value;
      r := SubtractScalars(r.value, s);
      if r.None? { return; }
      LessTerm(r.value, before, goal - sum, s, s) by { SameSelf(s); }
      rest, sum := rest - {s}, sum + s;
    }
  }

  lemma {:induction false} LessTerm(r: int, a: int, x: int, s: int, y: int)
    requires Same(r, a - s) && Same(a, x) && Same(s, y)
    ensures Same(r, x - y)
  {
    SameAdd(a, x, s, y);
    SameTrans(r, a - s, x - y);
  }

  // ---------- sums and scalars agree ----------

  lemma {:induction false} InScalarSame(ours: map<nat, Input>, n: nat)
    requires Summable(ours, n)
    ensures Same(InScalar(ours, n), InputSum(ours, n))
  {
    hide Addable, Plus, Same;
    if n == 0 {
      SameSelf(0);
    } else {
      InScalarSame(ours, n - 1);
      if n - 1 in ours {
        var x, a := ours[n - 1], InScalar(ours, n - 1);
        PlusSame(a, x.value, x.assetBlinder, x.valueBlinder);
        AddTerm(InScalar(ours, n), a, InputSum(ours, n - 1), InputTerm(x));
      }
    }
  }

  /** What is stored is the sum. */
  lemma {:induction false} PlusSame(a: nat, value: nat, assetBlinder: nat, valueBlinder: nat)
    requires Addable(a, value, assetBlinder, valueBlinder)
    ensures Same(Plus(a, value, assetBlinder, valueBlinder), a + Term(value, assetBlinder, valueBlinder))
    ensures (a < ORDER && valueBlinder < ORDER) ==> Plus(a, value, assetBlinder, valueBlinder) < ORDER
  {
    var x, t := Offset(value, assetBlinder, valueBlinder), Term(value, assetBlinder, valueBlinder);
    assert Same(x, t) by { OffsetSame(value, assetBlinder, valueBlinder); }
    hide NoOffset, Term, Same;
    SameSelf(a);
    SameAdd(a, a, x, t);
    SameMod(a + x);
    SameTrans((a + x) % ORDER, a + x, a + t);
    assert assetBlinder == 0 && valueBlinder == 0 ==> t == 0 by { TermNone(value); }
  }

  lemma {:induction false} TermNone(value: nat)
    ensures Term(value, 0, 0) == 0
  {
  }

  lemma {:induction false} OffsetSame(value: nat, assetBlinder: nat, valueBlinder: nat)
    ensures Same(Offset(value, assetBlinder, valueBlinder), Term(value, assetBlinder, valueBlinder))
  {
    if assetBlinder == 0 || value == 0 {
      SameSelf(valueBlinder);
    } else {
      assert assetBlinder * value == value * assetBlinder;
      SameMod(assetBlinder * value + valueBlinder);
    }
  }

  lemma {:induction false} OutScalarSame(s: State, c: Call, n: nat)
    requires n <= |s.outputs| && forall i :: 0 <= i < n && Mine(s, c, i) ==>
      Addable(OutScalar(s, c, i), s.outputs[i].amount, c.random(i).assetBlinder, c.random(i).valueBlinder)
    ensures Same(OutScalar(s, c, n), Gain(s, c, n))
    ensures (forall i :: 0 <= i < n && Mine(s, c, i) ==> c.random(i).valueBlinder < ORDER) ==> OutScalar(s, c, n) < ORDER
  {
    hide Addable, Plus, Same, Mine;
    if n == 0 {
      SameSelf(0);
    } else {
      OutScalarSame(s, c, n - 1);
      if Mine(s, c, n - 1) {
        var o, r, a := s.outputs[n - 1], c.random(n - 1), OutScalar(s, c, n - 1);
        PlusSame(a, o.amount, r.assetBlinder, r.valueBlinder);
        AddTerm(OutScalar(s, c, n), a, Gain(s, c, n - 1), Term(o.amount, r.assetBlinder, r.valueBlinder));
      }
    }
  }

  /** The sums of a call that gets through its outputs. */
  lemma {:induction false} ScalarsSame(s: State, c: Call, n: nat)
    requires n <= |s.outputs| && OkBefore(s, c, n)
    ensures Same(OutScalar(s, c, n), Gain(s, c, n))
    ensures !Completes(s, c) ==> OutScalar(s, c, n) < ORDER
  {
    hide Addable, Same, Mine, OutScalar, Gain, Completes, Balanceable, BalancedBlinder;
    forall i | 0 <= i < n && Mine(s, c, i)
      ensures Addable(OutScalar(s, c, i), s.outputs[i].amount, c.random(i).assetBlinder, c.random(i).valueBlinder)
      ensures !Completes(s, c) ==> c.random(i).valueBlinder < ORDER
    {
      assert OkAt(s, c, i);
    }
    OutScalarSame(s, c, n);
  }

  // ---------- the last output ----------

  /** After the last output nothing is left for the party. */
  lemma {:induction false} NoneAfterLast(s: State, c: Call, l: nat, n: nat)
    requires l < n <= |s.outputs| && Closing(s, c, l)
    ensures Gain(s, c, n) == Gain(s, c, l + 1) && forall i :: l < i < |s.outputs| ==> !Mine(s, c, i)
  {
    if n > l + 1 { NoneAfterLast(s, c, l, n - 1); }
  }

  lemma {:induction false} LoweredSame(a: nat, offsets: set<nat>)
    requires Lowerable(a, offsets)
    ensures Same(Lowered(a, offsets), a - SetSum(offsets))
    decreases offsets
  {
    hide Same, Subtractable, Minus;
    if offsets == {} {
      SameSelf(a);
    } else {
      var f := First(offsets);
      var b := Minus(a, f);
      LoweredSame(b, offsets - {f});
      MinusSame(a, f);
      var rest := SetSum(offsets - {f});
      LessTerm(Lowered(a, offsets), b, a - f, rest, rest) by { SameSelf(rest); }
    }
  }

  lemma {:induction false} MinusSame(a: nat, b: nat)
    ensures Same(Minus(a, b), a - b)
  {
    SameSelf(a);
    SameMod(a - b);
  }

  /** The blinder that is computed for the last output is the balancing one. */
  lemma {:induction false} BalancerIs(s: State, c: Call, l: nat)
    requires l < |s.outputs| && Closing(s, c, l) && OkBefore(s, c, l) && Summable(c.ours, s.numInputs)
    requires Addable(OutScalar(s, c, l), s.outputs[l].amount, c.random(l).assetBlinder, c.random(l).valueBlinder) && BlinderOk(s, c, l)
    ensures BalancedBlinder(c.random(l).valueBlinder, OutScalar(s, c, l + 1), InScalar(c.ours, s.numInputs), s.offsets) == Balancer(s, c, l)
  {
    hide Gained, InputSum, SetSum, Same, Closing, OkBefore, Summable, Addable, Key, Balanceable, BalancedBlinder, OutScalar, InScalar;
    LastSum(s, c, l);
    InScalarSame(c.ours, s.numInputs);
    BlinderIs(c.random(l).valueBlinder, OutScalar(s, c, l + 1), InScalar(c.ours, s.numInputs), s.offsets, Gained(s, c), Inputs(s, c));
  }

  lemma {:induction false} BlinderIs(vb: nat, out: nat, inp: nat, offsets: set<nat>, gained: int, inputs: int)
    requires Balanceable(vb, out, inp, offsets) && Key(BalancedBlinder(vb, out, inp, offsets)) && Same(out, gained) && Same(inp, inputs)
    ensures BalancedBlinder(vb, out, inp, offsets) == (vb - (gained - inputs) - SetSum(offsets)) % ORDER
  {
    hide Same, Minus, Lowered, Lowerable, SetSum, Subtractable;
    var net, sum := Minus(out, inp), SetSum(offsets);
    var first := Minus(vb, net);
    MinusSame(out, inp);
    LessTerm(net, out, gained, inp, inputs);
    MinusSame(vb, net);
    LessTerm(first, vb, vb, net, gained - inputs) by { SameSelf(vb); }
    LoweredSame(first, offsets);
    LessTerm(Lowered(first, offsets), first, vb - (gained - inputs), sum, sum) by { SameSelf(sum); }
    InRange(Lowered(first, offsets), vb - (gained - inputs) - sum);
  }

  lemma {:induction false} LastSum(s: State, c: Call, l: nat)
    requires l < |s.outputs| && Closing(s, c, l) && OkBefore(s, c, l)
    requires Addable(OutScalar(s, c, l), s.outputs[l].amount, c.random(l).assetBlinder, c.random(l).valueBlinder)
    ensures Same(OutScalar(s, c, l + 1), Gained(s, c))
  {
    hide Addable, Same, OutScalar, Gain, BlinderOk;
    forall i | 0 <= i < l + 1 && Mine(s, c, i)
      ensures Addable(OutScalar(s, c, i), s.outputs[i].amount, c.random(i).assetBlinder, c.random(i).valueBlinder)
    {
      if i < l { assert OkAt(s, c, i); }
    }
    OutScalarSame(s, c, l + 1);
    NoneAfterLast(s, c, l, |s.outputs|);
  }

  // ---------- the outputs, one after the other ----------

  /** The outputs when those before n have been looked at. */
  ghost function Done(s: State, c: Call, n: nat): (r: seq<Output>)
    requires n <= |s.outputs|
    ensures |r| == |s.outputs| && (forall i :: 0 <= i < n ==> r[i] == BlindedAs(s, c, i)) && forall i :: n <= i < |r| ==> r[i] == s.outputs[i]
  {
    After(s, c)[..n] + s.outputs[n..]
  }

  lemma {:induction false} DoneNext(s: State, c: Call, n: nat)
    requires n < |s.outputs|
    ensures Done(s, c, n + 1) == Done(s, c, n)[n := BlindedAs(s, c, n)]
    ensures !Mine(s, c, n) ==> Done(s, c, n + 1) == Done(s, c, n)
  {
    hide Mine, Closing, Balancer;
  }

  lemma {:induction false} DoneEnds(s: State, c: Call)
    ensures Done(s, c, 0) == s.outputs && Done(s, c, |s.outputs|) == After(s, c)
  {
    hide BlindedAs;
  }

  lemma {:induction false} DoneProper(s: State, c: Call, n: nat)
    requires Proper(s.outputs) && n <= |s.outputs|
    ensures Proper(Done(s, c, n)) && CountWanted(Done(s, c, n)) == CountWanted(s.outputs)
  {
    hide Closing, Balancer, CountWanted;
    SameWanted(s.outputs, Done(s, c, n));
  }

  lemma {:induction false} SameWanted(os: seq<Output>, us: seq<Output>)
    requires |us| == |os| && forall i :: 0 <= i < |os| ==> us[i].wanted == os[i].wanted
    ensures CountWanted(us) == CountWanted(os)
  {
    if os != [] { SameWanted(os[..|os| - 1], us[..|os| - 1]); }
  }

  /** The counters find the last output. */
  lemma {:induction false} CountsFindLast(s: State, c: Call, n: nat)
    requires Proper(s.outputs) && n < |s.outputs| && Mine(s, c, n)
    ensures CountBlinded(Done(s, c, n)) + 1 == CountWanted(s.outputs) <==> Closing(s, c, n)
    ensures CountBlinded(Done(s, c, n + 1)) == CountBlinded(Done(s, c, n)) + 1
  {
    hide CountBlinded, CountWanted, Balancer, Done;
    var us := Done(s, c, n + 1);
    DoneNext(s, c, n);
    DoneProper(s, c, n + 1);
    CountUpdate(Done(s, c, n), n, BlindedAs(s, c, n).blinded.value);
    CountsMeet(us);
    FullWhenLast(s, c, n);
  }

  lemma {:induction false} FullWhenLast(s: State, c: Call, n: nat)
    requires n < |s.outputs| && Mine(s, c, n)
    ensures FullyBlinded(Done(s, c, n + 1)) <==> Closing(s, c, n)
  {
    hide Balancer, Done;
    var us := Done(s, c, n + 1);
    forall i | 0 <= i < |us| ensures us[i].wanted == s.outputs[i].wanted
      && (us[i].blinded.Some? <==> s.outputs[i].blinded.Some? || (i <= n && Mine(s, c, i)))
    {
    }
  }

  ghost predicate LastBefore(s: State, c: Call, n: nat)
    requires n <= |s.outputs|
  {
    exists i :: 0 <= i < n && Closing(s, c, i)
  }

  /** When not all is blinded, a call that completes the blinding has a last output, and no other has. */
  lemma {:induction false} CompletesHasLast(s: State, c: Call)
    requires !FullyBlinded(s.outputs)
    ensures LastBefore(s, c, |s.outputs|) <==> Completes(s, c)
  {
    if Completes(s, c) {
      var k :| 0 <= k < |s.outputs| && s.outputs[k].wanted && s.outputs[k].blinded.None?;
      var l := Highest(s.outputs, k);
      assert Closing(s, c, l);
    }
  }

  ghost function Highest(os: seq<Output>, k: nat): (l: nat)
    requires k < |os| && os[k].wanted && os[k].blinded.None?
    ensures l < |os| && os[l].wanted && os[l].blinded.None? && forall i :: l < i < |os| && os[i].wanted ==> os[i].blinded.Some?
  {
    if os[|os| - 1].wanted && os[|os| - 1].blinded.None? then |os| - 1 else Highest(os[..|os| - 1], k)
  }

  lemma {:induction false} LastBeforeNext(s: State, c: Call, n: nat)
    requires n < |s.outputs|
    ensures LastBefore(s, c, n + 1) <==> LastBefore(s, c, n) || Closing(s, c, n)
    ensures LastBefore(s, c, n) ==> !Mine(s, c, n)
  {
    if LastBefore(s, c, n) {
      var l :| 0 <= l < n && Closing(s, c, l);
    }
  }

  // ---------- one output ----------

  /** Blind output i of the party; on failure the status says why. */
  method BlindOutput(os: seq<Output>, offsets: set<nat>, i: nat, outputScalar: nat, inputScalar: nat, numBlinded: nat, toBlind: nat, random: Blinders, provable: bool,
                     ghost s: State, ghost c: Call)
    returns (status: Status, us: seq<Output>, offsets': set<nat>, scalar: nat, didLast: bool)
    requires Proper(s.outputs) && i < |s.outputs| && Mine(s, c, i) && OkBefore(s, c, i) && Summable(c.ours, s.numInputs)
    requires os == Done(s, c, i) && offsets == s.offsets && outputScalar == OutScalar(s, c, i) && inputScalar == InScalar(c.ours, s.numInputs)
    requires numBlinded == CountBlinded(os) && toBlind == CountWanted(s.outputs) && random == c.random(i) && provable == c.provable(i)
    requires s.outputs[i].amount > 0 || s.outputs[i].unspendable
    ensures status == Ok <==> OkAt(s, c, i)
    ensures status != NoBlindOutputs && status != InvalidAmount
    ensures status == Ok ==> us == Done(s, c, i + 1) && CountBlinded(us) == numBlinded + 1 && didLast == Closing(s, c, i)
    ensures status == Ok ==> offsets' == (if didLast then {} else offsets) && (!didLast ==> scalar == OutScalar(s, c, i + 1))
    ensures status != Ok ==> us == os
  {
    hide Addable, Plus, Same, Balanceable, BalancedBlinder, Balancer, Summable, OkBefore, Closing, Mine, CountBlinded, CountWanted, Proper, Done, SetSum;
    us, offsets', scalar, didLast := os, offsets, 0, false;
    var amount, assetBlinder, valueBlinder := os[i].amount, random.assetBlinder, random.valueBlinder;
    var sum := ComputeAndAddToScalarOffset(outputScalar, amount, assetBlinder, valueBlinder);
    if sum.None? { return ScalarUnable, us, offsets', scalar, didLast; }
    scalar := sum.value;
    CountsFindLast(s, c, i);
    DoneNext(s, c, i);
    if numBlinded + 1 == toBlind {
      didLast := true;
      var balanced := BalanceBlinder(valueBlinder, scalar, inputScalar, offsets);
      if balanced.None? { return ScalarUnable, us, offsets', scalar, didLast; }
      // a zero blinder would reveal the amount
      if balanced.value == 0 { return InvalidBlinder, us, offsets', scalar, didLast; }
      if balanced.value < ORDER { BalancerIs(s, c, i); }
      valueBlinder := balanced.value;
      offsets' := {};
    }
    if assetBlinder >= ORDER || valueBlinder >= ORDER { return Aborted, us, offsets', scalar, didLast; }
    if !provable { return ProofUnable, us, offsets', scalar, didLast; }
    us := os[i := os[i].(blinded := Some(Blinders(assetBlinder, valueBlinder)))];
    status := Ok;
  }

  class Psbt {
    const numInputs: nat
    var outputs: seq<Output>
    var offsets: set<nat>

    constructor (numInputs: nat, outputs: seq<Output>, offsets: set<nat>)
      ensures S() == State(numInputs, outputs, offsets)
    {
      this.numInputs, this.outputs, this.offsets := numInputs, outputs, offsets;
    }

    ghost function S(): State
      reads this
    {
      State(numInputs, outputs, offsets)
    }

    /** One party blinds its outputs. */
    method BlindPSBT(c: Call) returns (status: Status)
      requires Proper(outputs)
      modifies this
      ensures Proper(outputs) && |outputs| == |old(outputs)|
      ensures status == Ok <==> Succeeds(old(S()), c)
      ensures status == Ok ==> S() == Result(old(S()), c)
      ensures status == NoBlindOutputs <==> NothingToBlind(old(S()), c)
      ensures status == InvalidAmount ==>
        exists i :: 0 <= i < |outputs| && old(outputs)[i].wanted && old(outputs)[i].blinded.None? && old(outputs)[i].amount == 0 && !old(outputs)[i].unspendable
      ensures forall i :: 0 <= i < |outputs| ==> outputs[i] == old(outputs)[i] || outputs[i] == BlindedAs(old(S()), c, i)
    {
      hide Mine, Closing, BlindedAs, Summable, OkBefore, OkAt, SomeBlinded, Completes, FullyBlinded, Proper, CountBlinded, CountWanted,
           OutScalar, InScalar, Gain, InputSum, Same, LastBefore, After, Done, Subtractable, Minus;
      ghost var s := S();
      var numBlinded, toBlind := CountOutputs(outputs);
      CountsMeet(outputs);
      if numBlinded == toBlind { return Ok; }
      var inputScalar := SumInputs(c.ours, numInputs);
      if inputScalar.None? { return ScalarUnable; }
      var outputScalar: nat, didLast, ourBlinds := 0, false, 0;
      DoneEnds(s, c);
      NothingYet(s, c);
      for i := 0 to |outputs|
        invariant |outputs| == |s.outputs| && outputs == Done(s, c, i) && numBlinded == CountBlinded(outputs)
        invariant OkBefore(s, c, i) && (didLast <==> LastBefore(s, c, i)) && offsets == (if didLast then {} else s.offsets)
        invariant !didLast ==> outputScalar == OutScalar(s, c, i)
        invariant ourBlinds > 0 <==> SomeBlinded(s, c, i)
      {
        var output := outputs[i];
        OneOutput(s, c, i);
        DoneProper(s, c, i);
        if !output.wanted { continue; }
        if output.blinded.Some? {
          ourBlinds := ourBlinds + 1;
          continue;
        }
        if output.amount == 0 && !output.unspendable { return InvalidAmount; }
        // another party's outputs are left alone
        if output.blinderIndex.None? || output.blinderIndex.value !in c.ours { continue; }
        status, outputs, offsets, outputScalar, didLast :=
          BlindOutput(outputs, offsets, i, outputScalar, inputScalar.value, numBlinded, toBlind, c.random(i), c.provable(i), s, c);
        if status != Ok { return; }
        numBlinded, ourBlinds := numBlinded + 1, ourBlinds + 1;
      }
      DoneProper(s, c, |s.outputs|);
      CompletesHasLast(s, c);
      EndScalar(s, c);
      ScalarNeedsOutput(s, c, |s.outputs|);
      if !didLast && outputScalar != 0 {
        var net := SubtractScalars(outputScalar, inputScalar.value);
        if net.None? { return ScalarUnable; }
        offsets := offsets + {net.value};
      }
      if c.ours != map[] && ourBlinds == 0 { return NoBlindOutputs; }
      status := Ok;
    }
  }

  lemma {:induction false} NothingYet(s: State, c: Call)
    ensures OkBefore(s, c, 0) && !LastBefore(s, c, 0) && OutScalar(s, c, 0) == 0 && !SomeBlinded(s, c, 0)
  {
  }

  /** What one output adds. */
  lemma {:induction false} OneOutput(s: State, c: Call, i: nat)
    requires i < |s.outputs|
    ensures Mine(s, c, i) <==> s.outputs[i].wanted && s.outputs[i].blinded.None? && s.outputs[i].blinderIndex.Some? && s.outputs[i].blinderIndex.value in c.ours
    ensures OkBefore(s, c, |s.outputs|) ==> OkAt(s, c, i)
    ensures OkBefore(s, c, i) ==> (OkBefore(s, c, i + 1) <==> OkAt(s, c, i))
    ensures !Mine(s, c, i) ==> (OkAt(s, c, i) <==> (s.outputs[i].wanted && s.outputs[i].blinded.None? ==> s.outputs[i].amount > 0 || s.outputs[i].unspendable))
    ensures s.outputs[i].wanted && s.outputs[i].blinded.None? && s.outputs[i].amount == 0 && !s.outputs[i].unspendable ==> !OkAt(s, c, i)
    ensures SomeBlinded(s, c, i + 1) <==> SomeBlinded(s, c, i) || (s.outputs[i].wanted && (s.outputs[i].blinded.Some? || Mine(s, c, i)))
    ensures LastBefore(s, c, i + 1) <==> LastBefore(s, c, i) || Closing(s, c, i)
    ensures LastBefore(s, c, i) ==> !Mine(s, c, i)
    ensures !Mine(s, c, i) ==> !Closing(s, c, i) && Done(s, c, i + 1) == Done(s, c, i) && OutScalar(s, c, i + 1) == OutScalar(s, c, i)
    ensures forall k :: 0 <= k < |s.outputs| ==> Done(s, c, i)[k] == s.outputs[k] || Done(s, c, i)[k] == BlindedAs(s, c, k)
    ensures Done(s, c, i)[i] == s.outputs[i]
  {
    LastBeforeNext(s, c, i);
    DoneNext(s, c, i);
    hide Addable, BlinderOk, BlindedAs, Closing;
  }

  lemma {:induction false} ScalarNeedsOutput(s: State, c: Call, n: nat)
    requires n <= |s.outputs|
    ensures OutScalar(s, c, n) != 0 ==> SomeBlinded(s, c, n)
  {
    if n > 0 { ScalarNeedsOutput(s, c, n - 1); }
  }

  /** What is left to publish. */
  lemma {:induction false} EndScalar(s: State, c: Call)
    requires OkBefore(s, c, |s.outputs|) && Summable(c.ours, s.numInputs)
    ensures var out, inp := OutScalar(s, c, |s.outputs|), InScalar(c.ours, s.numInputs);
            && (!Completes(s, c) ==> (out == 0 <==> Gained(s, c) % ORDER == 0))
            && (!Completes(s, c) && out != 0 && Subtractable(out, inp) ==> Minus(out, inp) == (Gained(s, c) - Inputs(s, c)) % ORDER)
  {
    var out, inp := OutScalar(s, c, |s.outputs|), InScalar(c.ours, s.numInputs);
    ScalarsSame(s, c, |s.outputs|);
    InScalarSame(c.ours, s.numInputs);
    hide Gain, InputSum, Completes, OutScalar, InScalar, Same, OkBefore, Summable;
    if !Completes(s, c) {
      InRange(out, Gained(s, c));
      MinusSame(out, inp);
      LessTerm(Minus(out, inp), out, Gained(s, c), inp, Inputs(s, c));
      InRange(Minus(out, inp), Gained(s, c) - Inputs(s, c));
    }
  }
}

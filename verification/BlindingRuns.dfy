/** Blinding calls of several parties: which of them keep the transaction balanced, and that it is
    balanced once the last output is blinded. */
module BlindingRuns {
  import opened Options
  import opened Sets
  import opened Scalars
  import opened Blinding

  /** The blinded outputs weigh what the accounted inputs do, up to the published offsets, which
      the last call clears. */
  ghost predicate Balanced(s: State, total: int) {
    Same(OutputSum(s.outputs), total + if FullyBlinded(s.outputs) then 0 else SetSum(s.offsets))
  }

  /** What a party can tell before its call: its outputs complete the blinding; or they add up to
      something, and the difference to its inputs is not published yet; or it has nothing to
      account for. */
  ghost predicate Accounted(s: State, c: Call) {
    if FullyBlinded(s.outputs) then Inputs(s, c) % ORDER == 0
    else
      || Completes(s, c)
      || (Gained(s, c) % ORDER != 0 && (Gained(s, c) - Inputs(s, c)) % ORDER !in s.offsets)
      || (Gained(s, c) % ORDER == 0 && Inputs(s, c) % ORDER == 0)
  }

  // ---------- what the outputs add up to ----------

  /** What the balancing blinder adds to the random ones, over the outputs before n. */
  ghost function Extra(s: State, c: Call, n: nat): int
    requires n <= |s.outputs|
  {
    if n == 0 then 0 else Extra(s, c, n - 1) + if Closing(s, c, n - 1) then Balancer(s, c, n - 1) - c.random(n - 1).valueBlinder else 0
  }

  lemma {:induction false} DoneSum(s: State, c: Call, n: nat)
    requires n <= |s.outputs|
    ensures OutputSum(Done(s, c, n)) == OutputSum(s.outputs) + Gain(s, c, n) + Extra(s, c, n)
  {
    hide OutputSum, Closing, Balancer;
    if n == 0 {
      DoneEnds(s, c);
    } else {
      var k := n - 1;
      DoneSum(s, c, k);
      DoneNext(s, c, k);
      OutputSumUpdate(Done(s, c, k), k, BlindedAs(s, c, k));
      ClosingMine(s, c, k);
    }
  }

  lemma {:induction false} ClosingMine(s: State, c: Call, i: nat)
    requires i < |s.outputs|
    ensures Closing(s, c, i) ==> Mine(s, c, i)
    ensures Mine(s, c, i) ==> s.outputs[i].blinded.None?
  {
  }

  lemma {:induction false} ExtraNone(s: State, c: Call, n: nat)
    requires n <= |s.outputs| && forall i :: 0 <= i < n ==> !Closing(s, c, i)
    ensures Extra(s, c, n) == 0
  {
    if n > 0 { ExtraNone(s, c, n - 1); }
  }

  lemma {:induction false} ExtraOne(s: State, c: Call, l: nat, n: nat)
    requires l < n <= |s.outputs| && Closing(s, c, l)
    ensures Extra(s, c, n) == Balancer(s, c, l) - c.random(l).valueBlinder
  {
    hide Balancer;
    if n == l + 1 {
      forall i | 0 <= i < l ensures !Closing(s, c, i) { assert Mine(s, c, l); }
      ExtraNone(s, c, l);
    } else {
      ExtraOne(s, c, l, n - 1);
      assert !Mine(s, c, n - 1);
    }
  }

  lemma {:induction false} ClosingSum(s: State, c: Call) returns (l: nat)
    requires Completes(s, c) && !FullyBlinded(s.outputs)
    ensures OutputSum(After(s, c)) == OutputSum(s.outputs) + Gained(s, c) + Balancer(s, c, l) - c.random(l).valueBlinder
  {
    hide OutputSum, Gain, Balancer, FullyBlinded, Completes, After, Extra, Done, Closing;
    CompletesHasLast(s, c);
    l :| 0 <= l < |s.outputs| && Closing(s, c, l);
    ExtraOne(s, c, l, |s.outputs|);
    DoneSum(s, c, |s.outputs|);
    DoneEnds(s, c);
  }

  /** With the balancing blinder, all outputs weigh what the inputs do. */
  lemma {:induction false} ClosingBalances(s: State, c: Call)
    requires Completes(s, c) && !FullyBlinded(s.outputs)
    ensures Same(OutputSum(After(s, c)) + SetSum(s.offsets), OutputSum(s.outputs) + Inputs(s, c))
  {
    hide Gained, Inputs, OutputSum, SetSum, Closing, Completes, FullyBlinded, After, Same;
    var l := ClosingSum(s, c);
    var vb := c.random(l).valueBlinder;
    var x := vb - (Gained(s, c) - Inputs(s, c)) - SetSum(s.offsets);
    SameMod(x);
    Closed(x % ORDER, x, OutputSum(s.outputs) + Gained(s, c) - vb + SetSum(s.offsets));
  }

  lemma {:induction false} Closed(r: int, x: int, sum: int)
    requires Same(r, x)
    ensures Same(r + sum, x + sum)
  {
    SameSelf(sum);
    SameAdd(r, x, sum, sum);
  }

  /** All is blinded after a call exactly if the call completes the blinding. */
  lemma {:induction false} AfterFull(s: State, c: Call)
    ensures FullyBlinded(After(s, c)) <==> Completes(s, c)
  {
    hide Balancer;
    var us := After(s, c);
    forall i | 0 <= i < |us| ensures us[i].wanted == s.outputs[i].wanted
      && (us[i].blinded.Some? <==> s.outputs[i].blinded.Some? || Mine(s, c, i))
    {
    }
  }

  /** What a call that does not complete the blinding adds. */
  lemma {:induction false} OpenSum(s: State, c: Call)
    requires !Completes(s, c)
    ensures OutputSum(After(s, c)) == OutputSum(s.outputs) + Gained(s, c)
  {
    var n := |s.outputs|;
    ExtraNone(s, c, n);
    DoneSum(s, c, n);
    DoneEnds(s, c);
  }

  // ---------- one call ----------

  lemma {:induction false} Shift(a: int, b: int, c: int, d: int)
    requires Same(a, b)
    ensures Same(a + c, b + d) <==> Same(c, d)
  {
    var k :| a == b + Multiple(k);
    if Same(a + c, b + d) {
      var m :| a + c == b + d + Multiple(m);
      SameBy(c, d, m - k);
    }
    if Same(c, d) { SameAdd(a, b, c, d); }
  }

  lemma {:induction false} SameZero(x: int)
    ensures x % ORDER == 0 <==> Same(0, x)
  {
    SameMod(x);
    if Same(0, x) { InRange(0, x); }
  }

  /** A successful call keeps the balance if and only if it is accounted for. */
  lemma {:induction false} CallBalances(s: State, c: Call, total: int)
    requires Balanced(s, total) && Succeeds(s, c)
    ensures Balanced(Result(s, c), total + Inputs(s, c)) <==> Accounted(s, c)
  {
    if FullyBlinded(s.outputs) {
      NoOpBalances(s, c, total);
    } else if Completes(s, c) {
      CompleteBalances(s, c, total);
    } else {
      OpenBalances(s, c, total);
    }
  }

  lemma {:induction false} NoOpBalances(s: State, c: Call, total: int)
    requires Balanced(s, total) && FullyBlinded(s.outputs)
    ensures Balanced(s, total + Inputs(s, c)) <==> Accounted(s, c)
  {
    hide OutputSum, InputSum, Same;
    Shift(OutputSum(s.outputs), total, 0, Inputs(s, c));
    SameZero(Inputs(s, c));
  }

  lemma {:induction false} CompleteBalances(s: State, c: Call, total: int)
    requires Balanced(s, total) && !FullyBlinded(s.outputs) && Completes(s, c)
    ensures Balanced(Result(s, c), total + Inputs(s, c))
  {
    ClosingBalances(s, c);
    AfterFull(s, c);
    hide OutputSum, InputSum, SetSum, Same, Completes, FullyBlinded, After, Gain;
    var before, after, sum, inputs := OutputSum(s.outputs), OutputSum(After(s, c)), SetSum(s.offsets), Inputs(s, c);
    SameSelf(inputs);
    SameAdd(before, total + sum, inputs, inputs);
    SameTrans(after + sum, before + inputs, total + sum + inputs);
    LessTerm(after, after + sum, total + inputs + sum, sum, sum) by {
      SameSelf(sum);
      SameSelf(after);
    }
  }

  lemma {:induction false} OpenBalances(s: State, c: Call, total: int)
    requires Balanced(s, total) && !FullyBlinded(s.outputs) && !Completes(s, c) && Succeeds(s, c)
    ensures Balanced(Result(s, c), total + Inputs(s, c)) <==> Accounted(s, c)
  {
    OpenSum(s, c);
    AfterFull(s, c);
    NotPublishedZero(s, c);
    hide OutputSum, SetSum, Same, Completes, FullyBlinded, After, Gained, Inputs, Succeeds;
    OffsetPublished(OutputSum(s.outputs), s.offsets, Gained(s, c), Inputs(s, c), total);
  }

  lemma {:induction false} OffsetPublished(before: int, offsets: set<nat>, gained: int, inputs: int, total: int)
    requires Same(before, total + SetSum(offsets)) && (gained % ORDER != 0 ==> (gained - inputs) % ORDER != 0)
    ensures var x := (gained - inputs) % ORDER;
            Same(before + gained, total + inputs + SetSum(if gained % ORDER == 0 then offsets else offsets + {x}))
            <==> if gained % ORDER == 0 then inputs % ORDER == 0 else x !in offsets
  {
    hide SetSum, Same;
    var sum, x := SetSum(offsets), (gained - inputs) % ORDER;
    if gained % ORDER != 0 && x !in offsets {
      SetSumAdd(offsets, x);
      Shift(before, total + sum, gained, inputs + x);
      SameMod(gained - inputs);
      Published(gained, inputs, x);
    } else {
      assert offsets + {x} == offsets || gained % ORDER == 0;
      Shift(before, total + sum, gained, inputs);
      BothZero(gained, inputs);
    }
  }

  lemma {:induction false} Published(gained: int, inputs: int, x: int)
    requires Same(x, gained - inputs)
    ensures Same(gained, inputs + x)
  {
    var k :| x == gained - inputs + Multiple(k);
    SameBy(gained, inputs + x, -k);
  }

  lemma {:induction false} BothZero(gained: int, inputs: int)
    ensures Same(gained, inputs) <==> (gained - inputs) % ORDER == 0
    ensures gained % ORDER == 0 ==> (inputs % ORDER == 0 <==> Same(gained, inputs))
  {
    SameZero(gained - inputs);
    SameZero(gained);
    SameZero(inputs);
    if Same(gained, inputs) {
      var k :| gained == inputs + Multiple(k);
      SameBy(0, gained - inputs, -k);
    }
    if Same(0, gained - inputs) {
      var k :| 0 == gained - inputs + Multiple(k);
      SameBy(gained, inputs, -k);
    }
    if gained % ORDER == 0 {
      SameSelf(0);
      if inputs % ORDER == 0 {
        SameTrans(0, inputs, inputs) by { SameSelf(inputs); }
        SameTrans(0, gained, gained) by { SameSelf(gained); }
        SameTrans(gained, 0, inputs);
      }
      if Same(gained, inputs) { SameTrans(0, gained, inputs); }
    }
  }

  /** The offset that a successful call publishes is not zero. */
  lemma {:induction false} NotPublishedZero(s: State, c: Call)
    requires Succeeds(s, c) && !FullyBlinded(s.outputs) && !Completes(s, c)
    ensures Gained(s, c) % ORDER != 0 ==> (Gained(s, c) - Inputs(s, c)) % ORDER != 0
  {
    EndScalar(s, c);
    ScalarsSame(s, c, |s.outputs|);
    var out, inp := OutScalar(s, c, |s.outputs|), InScalar(c.ours, s.numInputs);
    if out != 0 { NotZero(out, inp); }
  }

  lemma {:induction false} NotZero(out: nat, inp: nat)
    requires 0 < out < ORDER && Subtractable(out, inp)
    ensures Minus(out, inp) != 0
  {
    if inp != 0 {
      assert 0 - ORDER < out - inp < ORDER && out - inp != 0;
    }
  }

  // ---------- a call that loses the balance ----------

  /** Two outputs for the parties of inputs 0 and 2. */
  const START: State := State(3, [Output(1, true, false, Some(0), None), Output(1, true, false, Some(2), None)], {})

  function Party(i: nat): Call { Call(map[i := Input(1, 1, 1)], _ => Blinders(1, 2), _ => true) }

  const MIDDLE: State := State(3, [Output(1, true, false, Some(0), Some(Blinders(1, 2))), Output(1, true, false, Some(2), None)], {1})

  lemma {:induction false} InputOf(i: nat, n: nat)
    ensures InputSum(Party(i).ours, n) == if i < n then 2 else 0
    ensures InScalar(Party(i).ours, n) == if i < n then 2 else 0
    ensures Summable(Party(i).ours, n)
  {
    if n > 0 { InputOf(i, n - 1); }
  }

  lemma {:induction false} NoneBlinded(os: seq<Output>)
    requires forall i :: 0 <= i < |os| ==> os[i].blinded.None?
    ensures OutputSum(os) == 0
  {
    if os != [] { NoneBlinded(os[..|os| - 1]); }
  }

  /** The party of input 0 blinds its output and publishes the difference. */
  lemma {:induction false} FirstCall()
    ensures Succeeds(START, Party(0)) && Result(START, Party(0)) == MIDDLE && Accounted(START, Party(0)) && Balanced(START, 0)
  {
    var s, c := START, Party(0);
    InputOf(0, 3);
    assert Mine(s, c, 0) && !Mine(s, c, 1);
    assert !Completes(s, c) && !FullyBlinded(s.outputs) by { assert s.outputs[1].wanted && s.outputs[1].blinded.None?; }
    assert OutScalar(s, c, 0) == 0 && OutScalar(s, c, 1) == 3 && OutScalar(s, c, 2) == 3;
    assert Gain(s, c, 0) == 0 && Gain(s, c, 1) == 3 && Gain(s, c, 2) == 3;
    assert OkAt(s, c, 0) && OkAt(s, c, 1);
    assert After(s, c) == MIDDLE.outputs;
    NoneBlinded(s.outputs);
    SameSelf(0);
  }

  /** The party of input 1 has no output, but its call is successful now that another is blinded. */
  lemma {:induction false} SecondCall()
    ensures Succeeds(MIDDLE, Party(1)) && Result(MIDDLE, Party(1)) == MIDDLE && !Accounted(MIDDLE, Party(1)) && Inputs(MIDDLE, Party(1)) == 2
  {
    var s, c := MIDDLE, Party(1);
    InputOf(1, 3);
    assert !Mine(s, c, 0) && !Mine(s, c, 1);
    assert !Completes(s, c) && !FullyBlinded(s.outputs) by { assert s.outputs[1].wanted && s.outputs[1].blinded.None?; }
    assert OutScalar(s, c, 0) == 0 && OutScalar(s, c, 1) == 0 && OutScalar(s, c, 2) == 0;
    assert Gain(s, c, 0) == 0 && Gain(s, c, 1) == 0 && Gain(s, c, 2) == 0;
    assert OkAt(s, c, 0) && OkAt(s, c, 1);
    assert SomeBlinded(s, c, 2) by { assert s.outputs[0].wanted && s.outputs[0].blinded.Some?; }
    assert After(s, c) == s.outputs;
  }

  /** A call of a party without outputs can succeed; the transaction is not balanced any more. */
  lemma {:induction false} SilentParty()
    ensures Balanced(MIDDLE, 2) && Succeeds(MIDDLE, Party(1)) && Result(MIDDLE, Party(1)) == MIDDLE && !Balanced(MIDDLE, 2 + 2)
  {
    hide Succeeds, Result, Balanced, Accounted;
    FirstCall();
    InputOf(0, 3);
    CallBalances(START, Party(0), 0);
    SecondCall();
    CallBalances(MIDDLE, Party(1), 2);
  }

  /** The two calls, one after the other. */
  method SilentCall() returns (psbt: Psbt, first: Status, second: Status)
    ensures first == Ok && second == Ok && !Balanced(psbt.S(), 2 + 2)
  {
    psbt := new Psbt(START.numInputs, START.outputs, START.offsets);
    FirstCall();
    SilentParty();
    hide Succeeds, Result, Balanced, Accounted;
    first := psbt.BlindPSBT(Party(0));
    second := psbt.BlindPSBT(Party(1));
  }

  // ---------- all parties ----------

  ghost predicate Disjoint(a: map<nat, Input>, b: map<nat, Input>) { forall k :: k in a ==> k !in b }

  lemma {:induction false} InputSumUnion(a: map<nat, Input>, b: map<nat, Input>, n: nat)
    requires Disjoint(a, b)
    ensures InputSum(a + b, n) == InputSum(a, n) + InputSum(b, n)
  {
    if n > 0 { InputSumUnion(a, b, n - 1); }
  }

  lemma {:induction false} InputSumNone(n: nat)
    ensures InputSum(map[], n) == 0
  {
    if n > 0 { InputSumNone(n - 1); }
  }

  /** The inputs of the first k parties. */
  ghost function Together(calls: seq<Call>, k: nat): map<nat, Input>
    requires k <= |calls|
  {
    if k == 0 then map[] else Together(calls, k - 1) + calls[k - 1].ours
  }

  /** The state after the first k calls. */
  ghost function StateAfter(s: State, calls: seq<Call>, k: nat): State
    requires k <= |calls|
  {
    if k == 0 then s else Result(StateAfter(s, calls, k - 1), calls[k - 1])
  }

  /** The first k calls are successful, by parties that do not share inputs, from a transaction
      without any blinding. */
  ghost predicate Run(s: State, calls: seq<Call>, k: nat)
    requires k <= |calls|
  {
    && (forall i :: 0 <= i < |s.outputs| ==> s.outputs[i].blinded.None?) && s.offsets == {}
    && forall j :: 0 <= j < k ==> Succeeds(StateAfter(s, calls, j), calls[j]) && Disjoint(Together(calls, j), calls[j].ours)
  }

  lemma {:induction false} NothingBlinded(os: seq<Output>)
    requires forall i :: 0 <= i < |os| ==> os[i].blinded.None?
    ensures OutputSum(os) == 0
  {
    if os != [] { NothingBlinded(os[..|os| - 1]); }
  }

  ghost predicate BalancedAfter(s: State, calls: seq<Call>, k: nat)
    requires k <= |calls|
  {
    Balanced(StateAfter(s, calls, k), InputSum(Together(calls, k), s.numInputs))
  }

  lemma {:induction false} SameInputs(s: State, calls: seq<Call>, k: nat)
    requires k <= |calls|
    ensures StateAfter(s, calls, k).numInputs == s.numInputs
  {
    if k > 0 { SameInputs(s, calls, k - 1); }
  }

  lemma {:induction false} StartBalanced(s: State, calls: seq<Call>)
    requires Run(s, calls, 0)
    ensures BalancedAfter(s, calls, 0) && AlwaysBalanced(s, calls, 0) && AlwaysAccounted(s, calls, 0)
  {
    NothingBlinded(s.outputs);
    InputSumNone(s.numInputs);
    SameSelf(0);
  }

  /** One more call of a run. */
  lemma {:induction false} NextBalanced(s: State, calls: seq<Call>, k: nat)
    requires k < |calls| && Run(s, calls, k + 1) && BalancedAfter(s, calls, k)
    ensures BalancedAfter(s, calls, k + 1) <==> Accounted(StateAfter(s, calls, k), calls[k])
  {
    hide Balanced, Accounted, Result, Succeeds, InputSum, Disjoint;
    SameInputs(s, calls, k);
    var t, c := StateAfter(s, calls, k), calls[k];
    assert Succeeds(t, c) && Disjoint(Together(calls, k), c.ours);
    CallBalances(t, c, InputSum(Together(calls, k), s.numInputs));
    InputSumUnion(Together(calls, k), c.ours, s.numInputs);
  }

  ghost predicate AlwaysBalanced(s: State, calls: seq<Call>, k: nat)
    requires k <= |calls|
  {
    forall j :: 0 <= j <= k ==> BalancedAfter(s, calls, j)
  }

  ghost predicate AlwaysAccounted(s: State, calls: seq<Call>, k: nat)
    requires k <= |calls|
  {
    forall j :: 0 <= j < k ==> Accounted(StateAfter(s, calls, j), calls[j])
  }

  lemma {:induction false} Shorter(s: State, calls: seq<Call>, k: nat)
    requires 0 < k <= |calls|
    ensures Run(s, calls, k) ==> Run(s, calls, k - 1)
    ensures AlwaysBalanced(s, calls, k) <==> AlwaysBalanced(s, calls, k - 1) && BalancedAfter(s, calls, k)
    ensures AlwaysBalanced(s, calls, k - 1) ==> BalancedAfter(s, calls, k - 1)
    ensures AlwaysAccounted(s, calls, k) <==> AlwaysAccounted(s, calls, k - 1) && Accounted(StateAfter(s, calls, k - 1), calls[k - 1])
  {
    hide BalancedAfter, Accounted, StateAfter, Succeeds, Disjoint;
  }

  /** A run stays balanced at every step if and only if every call is accounted for. */
  lemma {:induction false} RunBalanced(s: State, calls: seq<Call>, k: nat)
    requires k <= |calls| && Run(s, calls, k)
    ensures AlwaysBalanced(s, calls, k) <==> AlwaysAccounted(s, calls, k)
  {
    hide Run, AlwaysBalanced, AlwaysAccounted, BalancedAfter, Accounted, StateAfter;
    if k == 0 {
      StartBalanced(s, calls);
    } else {
      Shorter(s, calls, k);
      RunBalanced(s, calls, k - 1);
      if BalancedAfter(s, calls, k - 1) { NextBalanced(s, calls, k - 1); }
    }
  }

  /** When every call is accounted for, the parties hold all inputs and the last output is blinded,
      outputs and inputs have the same sum of value * asset blinder + value blinder, modulo the
      group order. */
  lemma {:induction false} BlindingBalances(s: State, calls: seq<Call>, all: map<nat, Input>)
    requires Run(s, calls, |calls|) && AlwaysAccounted(s, calls, |calls|)
    requires Together(calls, |calls|) == all && FullyBlinded(StateAfter(s, calls, |calls|).outputs)
    ensures Same(OutputSum(StateAfter(s, calls, |calls|).outputs), InputSum(all, s.numInputs))
  {
    hide Run, AlwaysAccounted, StateAfter, OutputSum, InputSum, FullyBlinded, Same;
    RunBalanced(s, calls, |calls|);
    assert BalancedAfter(s, calls, |calls|);
  }
}

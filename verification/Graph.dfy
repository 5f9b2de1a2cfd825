/** Finite sets of transaction positions, visited in increasing order as the node's bit sets are. */
module Sets {

  ghost predicate Least(s: set<nat>, x: nat) { x in s && forall y :: y in s ==> x <= y }

  lemma {:induction false} LeastOf(s: set<nat>) returns (r: nat)
    requires s != {}
    ensures Least(s, r)
  {
    var x :| x in s;
    if s == {x} {
      r := x;
    } else {
      hide Least;
      assert s - {x} != {};
      var m := LeastOf(s - {x});
      LeastOfTwo(s, x, m);
      r := if m < x then m else x;
    }
  }

  lemma {:induction false} LeastOfTwo(s: set<nat>, x: nat, m: nat)
    requires x in s && Least(s - {x}, m)
    ensures Least(s, if m < x then m else x)
  {
    forall y | y in s ensures (if m < x then m else x) <= y { if y != x { assert y in s - {x}; } }
  }

  function First(s: set<nat>): (r: nat)
    requires s != {}
    ensures r in s && forall y :: y in s ==> r <= y
  {
    assert exists x :: Least(s, x) by { var x := LeastOf(s); }
    var x :| x in s && forall y :: y in s ==> x <= y;
    x
  }

  ghost predicate Greatest(s: set<nat>, x: nat) { x in s && forall y :: y in s ==> y <= x }

  lemma {:induction false} GreatestOf(s: set<nat>) returns (r: nat)
    requires s != {}
    ensures Greatest(s, r)
  {
    var x :| x in s;
    if s == {x} {
      r := x;
    } else {
      hide Greatest;
      assert s - {x} != {};
      var m := GreatestOf(s - {x});
      GreatestOfTwo(s, x, m);
      r := if x < m then m else x;
    }
  }

  lemma {:induction false} GreatestOfTwo(s: set<nat>, x: nat, m: nat)
    requires x in s && Greatest(s - {x}, m)
    ensures Greatest(s, if x < m then m else x)
  {
    forall y | y in s ensures y <= (if x < m then m else x) { if y != x { assert y in s - {x}; } }
  }

  function Last(s: set<nat>): (r: nat)
    requires s != {}
    ensures r in s && forall y :: y in s ==> y <= r
  {
    assert exists x :: Greatest(s, x) by { var x := GreatestOf(s); }
    var x :| x in s && forall y :: y in s ==> y <= x;
    x
  }

  lemma {:induction false} SubsetSize<T>(a: set<T>, b: set<T>)
    requires a <= b
    ensures |a| <= |b|
    ensures |a| == |b| ==> a == b
  {
    assert b == a + (b - a);
    assert |b| == |a| + |b - a|;
    if |a| == |b| { assert b - a == {}; }
  }

  ghost function SetOf<T>(s: seq<T>): set<T> { set x | x in s }

  lemma {:induction false} SetOfSingle(x: nat)
    ensures SetOf([x]) == {x}
  {
  }

  ghost predicate Distinct<T>(s: seq<T>) {
    forall i, j :: 0 <= i < j < |s| ==> s[i] != s[j]
  }

  lemma {:induction false} SetOfConcat<T>(a: seq<T>, b: seq<T>)
    ensures SetOf(a + b) == SetOf(a) + SetOf(b)
  {
  }

  lemma {:induction false} SetOfCons<T>(s: seq<T>)
    requires s != []
    ensures SetOf(s) == {s[0]} + SetOf(s[1..])
  {
    assert s == [s[0]] + s[1..];
  }

  lemma {:induction false} DistinctConcat<T>(a: seq<T>, b: seq<T>)
    ensures Distinct(a + b) <==> Distinct(a) && Distinct(b) && SetOf(a) !! SetOf(b)
  {
    var c := a + b;
    if Distinct(c) {
      forall i, j | 0 <= i < j < |a| ensures a[i] != a[j] { assert c[i] != c[j]; }
      forall i, j | 0 <= i < j < |b| ensures b[i] != b[j] { assert c[|a| + i] != c[|a| + j]; }
      forall x | x in SetOf(a) ensures x !in SetOf(b) {
        var i :| 0 <= i < |a| && a[i] == x;
        forall j | 0 <= j < |b| ensures b[j] != x { assert c[i] != c[|a| + j]; }
      }
    }
    if Distinct(a) && Distinct(b) && SetOf(a) !! SetOf(b) {
      forall i, j | 0 <= i < j < |c| ensures c[i] != c[j] {
        if i < |a| <= j { assert a[i] in SetOf(a) && b[j - |a|] in SetOf(b); }
      }
    }
  }

  lemma {:induction false} DistinctPrefix<T>(a: seq<T>, b: seq<T>)
    requires a <= b && Distinct(b)
    ensures Distinct(a)
  {
  }

  lemma {:induction false} DistinctSize<T>(s: seq<T>)
    requires Distinct(s)
    ensures |SetOf(s)| == |s|
  {
    if s == [] {
      assert SetOf(s) == {};
    } else {
      SetOfCons(s);
      DistinctSize(s[1..]);
      assert s[0] !in SetOf(s[1..]);
    }
  }
}

/** The dependency graph as a value: what a `const DepGraph&` gives access to
    (src/cluster_linearize.h:27-55). */
module Graphs {
  import opened FeeFracs
  import opened Sets

  datatype Entry = Entry(feerate: FeeFrac, ancestors: set<nat>, descendants: set<nat>)

  datatype Graph = Graph(entries: seq<Entry>, used: set<nat>) {

    function Rate(i: nat): FeeFrac { if i < |entries| then entries[i].feerate else EMPTY }

    function Anc(i: nat): set<nat> { if i < |entries| then entries[i].ancestors else {} }

    function Desc(i: nat): set<nat> { if i < |entries| then entries[i].descendants else {} }

    /** Ancestors and descendants are reflexive, transitive, mutually inverse and in use. */
    ghost predicate Valid() {
      && (forall i :: i in used ==> i < |entries|)
      && (forall i :: i in used ==> i in Anc(i) && Anc(i) <= used && Desc(i) <= used)
      && (forall i, j :: i in used && j in used ==> (j in Anc(i) <==> i in Desc(j)))
      && (forall i, j :: i in used && j in Anc(i) ==> Anc(j) <= Anc(i))
    }

    ghost predicate Acyclic() {
      forall i, j :: i in used && j in used && j in Anc(i) && i in Anc(j) ==> i == j
    }

    /** Every transaction has a size. */
    ghost predicate Sized() { forall i :: i in used ==> Rate(i).size > 0 }

    ghost predicate Cluster() { Valid() && Acyclic() && Sized() }

    /** `s` is a topologically valid subset of `todo`: it holds all in-`todo` ancestors of its
        members. */
    ghost predicate Closed(todo: set<nat>, s: set<nat>) {
      s <= todo && forall i :: i in s ==> Anc(i) * todo <= s
    }

    /** Combined fee and size of a set of transactions. */
    ghost function SetRate(s: set<nat>): FeeFrac {
      if s == {} then EMPTY else var x := First(s); Rate(x).Plus(SetRate(s - {x}))
    }

    /** Combined fee and size of a list of transactions. */
    ghost function SeqRate(l: seq<nat>): FeeFrac {
      if l == [] then EMPTY else Rate(l[0]).Plus(SeqRate(l[1..]))
    }

    /** `l` lists exactly the transactions of `todo`, each after its in-`todo` ancestors. */
    ghost predicate Linearizes(todo: set<nat>, l: seq<nat>) {
      && Distinct(l)
      && SetOf(l) == todo
      && forall k :: 0 <= k <= |l| ==> Closed(todo, SetOf(l[..k]))
    }
  }

  // ---------- sums ----------

  lemma {:induction false} SetRateAdd(g: Graph, s: set<nat>, x: nat)
    requires x !in s
    ensures g.SetRate(s + {x}) == g.SetRate(s).Plus(g.Rate(x))
    decreases |s|
  {
    var t := s + {x};
    var f := First(t);
    if f == x {
      assert t - {x} == s;
    } else {
      assert f == First(s);
      assert t - {f} == (s - {f}) + {x};
      SetRateAdd(g, s - {f}, x);
    }
  }

  lemma {:induction false} SetRateUnion(g: Graph, a: set<nat>, b: set<nat>)
    requires a !! b
    ensures g.SetRate(a + b) == g.SetRate(a).Plus(g.SetRate(b))
    decreases |b|
  {
    if b == {} {
      assert a + b == a;
    } else {
      var x := First(b);
      var c := b - {x};
      hide *;
      TakeOne(a, b, x);
      SetRateUnion(g, a, c);
      SetRateAdd(g, a + c, x);
      SetRateAdd(g, c, x);
      PlusAssoc(g.SetRate(a), g.SetRate(c), g.Rate(x));
    }
  }

  lemma {:induction false} PlusAssoc(a: FeeFrac, b: FeeFrac, c: FeeFrac)
    ensures a.Plus(b).Plus(c) == a.Plus(b.Plus(c))
  {
  }

  lemma {:induction false} TakeOne(a: set<nat>, b: set<nat>, x: nat)
    requires a !! b && x in b
    ensures a !! b - {x} && a + (b - {x}) + {x} == a + b && b - {x} + {x} == b
  {
  }

  lemma {:induction false} SetRateSplit(g: Graph, a: set<nat>, b: set<nat>)
    ensures g.SetRate(a) == g.SetRate(a * b).Plus(g.SetRate(a - b))
  {
    hide *;
    assert a * b + (a - b) == a;
    SetRateUnion(g, a * b, a - b);
  }

  lemma {:induction false} SetRateSize(g: Graph, s: set<nat>)
    requires g.Sized() && s <= g.used
    ensures g.SetRate(s).size >= 0
    ensures s != {} <==> g.SetRate(s).size > 0
    decreases |s|
  {
    if s != {} { SetRateSize(g, s - {First(s)}); }
  }

  lemma {:induction false} SetRateSubset(g: Graph, a: set<nat>, b: set<nat>)
    requires g.Sized() && a <= b <= g.used
    ensures g.SetRate(b) == g.SetRate(a).Plus(g.SetRate(b - a))
    ensures g.SetRate(a).size <= g.SetRate(b).size
    ensures g.SetRate(a).size == g.SetRate(b).size ==> a == b
  {
    SetRateUnion(g, a, b - a);
    assert a + (b - a) == b;
    SetRateSize(g, b - a);
  }

  lemma {:induction false} SeqRateConcat(g: Graph, a: seq<nat>, b: seq<nat>)
    ensures g.SeqRate(a + b) == g.SeqRate(a).Plus(g.SeqRate(b))
  {
    if a == [] {
      assert a + b == b;
    } else {
      assert (a + b)[1..] == a[1..] + b;
      SeqRateConcat(g, a[1..], b);
    }
  }

  lemma {:induction false} SeqRateSet(g: Graph, l: seq<nat>)
    requires Distinct(l)
    ensures g.SeqRate(l) == g.SetRate(SetOf(l))
  {
    if l == [] {
      assert SetOf(l) == {};
    } else {
      SeqRateSet(g, l[1..]);
      SetOfCons(l);
      assert SetOf(l) == SetOf(l[1..]) + {l[0]};
      assert l[0] !in SetOf(l[1..]);
      SetRateAdd(g, SetOf(l[1..]), l[0]);
    }
  }

  lemma {:induction false} SeqRateSize(g: Graph, l: seq<nat>)
    requires g.Sized() && SetOf(l) <= g.used
    ensures g.SeqRate(l).size >= 0
    ensures l != [] <==> g.SeqRate(l).size > 0
  {
    if l != [] {
      SetOfCons(l);
      SeqRateSize(g, l[1..]);
      assert l[0] in SetOf(l);
    }
  }

  lemma {:induction false} SetRateSingle(g: Graph, s: set<nat>, x: nat)
    requires s == {x}
    ensures g.SetRate(s) == g.Rate(x)
  {
    var rest := s - {First(s)};
    assert |rest| == 0;
    assert g.SetRate(rest) == EMPTY;
  }

  // ---------- closed sets ----------

  lemma {:induction false} ClosedUnion(g: Graph, todo: set<nat>, a: set<nat>, b: set<nat>)
    requires g.Closed(todo, a) && g.Closed(todo, b)
    ensures g.Closed(todo, a + b) && g.Closed(todo, a * b)
  {
  }

  lemma {:induction false} ClosedRest(g: Graph, todo: set<nat>, done: set<nat>, s: set<nat>)
    requires g.Closed(todo, s)
    ensures g.Closed(todo - done, s - done)
  {
  }

  /** The in-`todo` ancestors of a transaction are themselves closed. */
  lemma {:induction false} AncestorsClosed(g: Graph, todo: set<nat>, i: nat)
    requires g.Valid() && todo <= g.used && i in todo
    ensures g.Closed(todo, g.Anc(i) * todo)
  {
  }
}

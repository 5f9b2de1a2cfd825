/** Loading any file of the address manager (src/addrman.cpp:231-399): entries that find no place are
    dropped, and what is left is consistent. */
module AddrLoads {
  import opened Options
  import opened Sets
  import opened AddrTables
  import opened AddrMans
  import opened AddrFiles

  /** What the code expects of a file: no address twice among the new entries, none of the valid
      tried ones among them, and times that can be. */
  ghost predicate Loadable(f: File, valid: nat -> bool) {
    && DistinctAddrs(f.newEntries) && (forall i :: 0 <= i < |f.newEntries| ==> f.newEntries[i].lastSuccess >= 0)
    && forall j :: 0 <= j < |f.triedEntries| && valid(f.triedEntries[j].addr) ==> TriedFits(f, j)
  }

  ghost predicate TriedFits(f: File, j: nat)
    requires j < |f.triedEntries|
  {
    f.triedEntries[j].lastSuccess > 0 && forall i :: 0 <= i < |f.newEntries| ==> f.newEntries[i].addr != f.triedEntries[j].addr
  }

  // ---------- the entries ----------

  /** The first m entries are new ones, without references; all others are tried. */
  ghost predicate SomeTried(h: Hashes, t: State, news: seq<Saved>) {
    var m := |news|;
    && Inv(h, t, Below(m), {}) && t.vvNew == map[] && t.collisions == {} && m <= t.idCount && Below(m) <= t.mapInfo.Keys
    && (forall i :: 0 <= i < m ==> t.mapInfo[i].addr == news[i].addr && !t.mapInfo[i].inTried)
    && (forall n :: n in t.mapInfo && n >= m ==> t.mapInfo[n].inTried)
  }

  lemma {:induction false} NotYet(h: Hashes, t: State, f: File, j: nat)
    requires j < |f.triedEntries| && SomeTried(h, t, f.newEntries) && TriedFits(f, j)
    requires TriedSlot(h, f.triedEntries[j].addr) !in t.vvTried
    ensures f.triedEntries[j].addr !in t.mapAddr
  {
    hide Inv;
    var a := f.triedEntries[j].addr;
    if a in t.mapAddr {
      AddrOfEntry(h, t, Below(|f.newEntries|), {}, a);
      TriedPlace(h, t, Below(|f.newEntries|), t.mapAddr[a]);
    }
  }

  lemma {:induction false} TriedPlace(h: Hashes, t: State, bare: set<nat>, n: nat)
    requires Inv(h, t, bare, {}) && n in t.mapInfo
    ensures t.mapInfo[n].inTried ==> TriedSlot(h, t.mapInfo[n].addr) in t.vvTried
  {
    assert TriedHas(h, t, n);
  }

  lemma {:induction false} OneTried(h: Hashes, t: State, f: File, j: nat)
    requires j < |f.triedEntries| && SomeTried(h, t, f.newEntries) && TriedFits(f, j)
    requires TriedSlot(h, f.triedEntries[j].addr) !in t.vvTried
    ensures SomeTried(h, WithTried(h, t, f.triedEntries[j]), f.newEntries)
  {
    hide Inv, TriedFits;
    NotYet(h, t, f, j);
    TimeFits(f, j);
    WithTriedKeeps(h, t, f.triedEntries[j], Below(|f.newEntries|));
  }

  lemma {:induction false} TimeFits(f: File, j: nat)
    requires j < |f.triedEntries| && TriedFits(f, j)
    ensures f.triedEntries[j].lastSuccess > 0
  {
  }

  lemma {:induction false} AllTried(h: Hashes, t: State, f: File, valid: nat -> bool, k: nat)
    requires k <= |f.triedEntries| && SomeTried(h, t, f.newEntries) && Loadable(f, valid)
    ensures SomeTried(h, LoadedTried(h, t, f.triedEntries, valid, k), f.newEntries)
  {
    hide SomeTried, WithTried, TriedFits;
    if k > 0 {
      AllTried(h, t, f, valid, k - 1);
      var u, e := LoadedTried(h, t, f.triedEntries, valid, k - 1), f.triedEntries[k - 1];
      if valid(e.addr) && TriedSlot(h, e.addr) !in u.vvTried { OneTried(h, u, f, k - 1); }
    }
  }

  lemma {:induction false} NewAreUntried(h: Hashes, t: State, news: seq<Saved>)
    requires NewLoaded(h, t, news, |news|)
    ensures SomeTried(h, t, news)
  {
    hide Inv;
    var m := |news|;
    forall i | 0 <= i < m ensures t.mapInfo[i].addr == news[i].addr && !t.mapInfo[i].inTried {
      assert i in Below(m) && t.mapInfo[i] == Restored(news[i], false, i);
    }
  }

  // ---------- the references ----------

  /** The first m entries are new ones; those without reference have no place yet. */
  ghost predicate SomePlaced(h: Hashes, t: State, m: nat) {
    && Inv(h, t, Unreferenced(t, m), {}) && t.collisions == {} && Below(m) <= t.mapInfo.Keys
    && (forall n :: n in t.mapInfo ==> (n < m <==> !t.mapInfo[n].inTried))
  }

  lemma {:induction false} NonePlaced(h: Hashes, t: State, news: seq<Saved>)
    requires SomeTried(h, t, news)
    ensures SomePlaced(h, t, |news|)
  {
    var m := |news|;
    forall i | i in t.mapInfo && i < m ensures t.mapInfo[i].refCount == 0 {
      assert i in Below(m) && RefsAt(t, Below(m), i);
    }
    hide Inv;
    assert Unreferenced(t, m) == Below(m);
  }

  lemma {:induction false} PutReference(h: Hashes, t: State, m: nat, n: nat, p: Slot)
    requires SomePlaced(h, t, m) && n < m && n in t.mapInfo && t.mapInfo[n].refCount < MAX_REFS
    requires p !in t.vvNew && p.bucket < NEW_BUCKETS && p == NewSlot(h, t.mapInfo[n].addr, p.bucket)
    ensures SomePlaced(h, Listed(t, p, n), m)
  {
    hide Inv, Unreferenced;
    EntryFacts(h, t, Unreferenced(t, m), {}, n);
    ListedKeeps(h, t, p, n, Unreferenced(t, m), {});
    ListedUnreferenced(h, t, p, n, m);
  }

  lemma {:induction false} OneReference(h: Hashes, t: State, m: nat, b: nat, n: nat, restore: bool, valid: nat -> bool)
    requires SomePlaced(h, t, m) && n < m && (restore ==> b < NEW_BUCKETS) && HashesOk(h)
    ensures SomePlaced(h, WithReference(h, t, b, n, restore, valid), m)
  {
    hide SomePlaced, HashesOk;
    if n in t.mapInfo && valid(t.mapInfo[n].addr) && t.mapInfo[n].refCount < MAX_REFS {
      var e := t.mapInfo[n];
      BucketRange(h, e.addr, e.source);
      var p := NewSlot(h, e.addr, if restore && NewSlot(h, e.addr, b) !in t.vvNew then b else h.newBucket(e.addr, e.source));
      if p !in t.vvNew { PutReference(h, t, m, n, p); }
    }
  }

  ghost predicate InFile(refs: seq<(nat, nat)>, buckets: nat, m: nat) { forall k :: 0 <= k < |refs| ==> refs[k].0 < buckets && refs[k].1 < m }

  lemma {:induction false} RangeInFile(l: seq<nat>, b: nat, m: nat, k: nat, buckets: nat)
    requires k <= |l| && b < buckets
    ensures InFile(InRange(l, b, m, k), buckets, m)
  {
    if k > 0 { RangeInFile(l, b, m, k - 1, buckets); }
  }

  lemma {:induction false} ReferencesInFile(f: File, b: nat)
    requires b <= |f.buckets|
    ensures InFile(References(f, b), |f.buckets|, |f.newEntries|)
  {
    if b > 0 {
      ReferencesInFile(f, b - 1);
      RangeInFile(f.buckets[b - 1], b - 1, |f.newEntries|, |f.buckets[b - 1]|, |f.buckets|);
    }
  }

  lemma {:induction false} AllReferences(h: Hashes, t: State, m: nat, refs: seq<(nat, nat)>, restore: bool, valid: nat -> bool, k: nat, buckets: nat)
    requires k <= |refs| && SomePlaced(h, t, m) && InFile(refs, buckets, m) && (restore ==> buckets == NEW_BUCKETS) && HashesOk(h)
    ensures SomePlaced(h, LoadedReferences(h, t, refs, restore, valid, k), m)
  {
    hide SomePlaced, WithReference, HashesOk;
    if k > 0 {
      AllReferences(h, t, m, refs, restore, valid, k - 1, buckets);
      OneReference(h, LoadedReferences(h, t, refs, restore, valid, k - 1), m, refs[k - 1].0, refs[k - 1].1, restore, valid);
    }
  }

  /** A loaded file is consistent, but for the entries without place. */
  lemma {:induction false} LoadedPlaced(h: Hashes, f: File, sameBucketing: bool, valid: nat -> bool)
    requires HashesOk(h) && Loadable(f, valid)
    ensures SomePlaced(h, Loaded(h, f, sameBucketing, valid), |f.newEntries|)
  {
    hide HashesOk, SomePlaced, SomeTried, NewLoaded, LoadedNew, LoadedTried, LoadedReferences, References, InFile, TriedFits, DistinctAddrs;
    var m, news := |f.newEntries|, f.newEntries;
    LoadedNewOk(h, news, m);
    var t1 := LoadedNew(h, news, m);
    NewAreUntried(h, t1, news);
    AllTried(h, t1, f, valid, |f.triedEntries|);
    var t2 := Unplaced(h, f, valid);
    assert t2 == LoadedTried(h, t1, f.triedEntries, valid, |f.triedEntries|);
    NonePlaced(h, t2, news);
    var refs := References(f, |f.buckets|);
    ReferencesInFile(f, |f.buckets|);
    AllReferences(h, t2, m, refs, sameBucketing && |f.buckets| == NEW_BUCKETS, valid, |refs|, |f.buckets|);
  }

  // ---------- dropping entries without place ----------

  /** The entries of s but for `gone`, at the same places. */
  ghost predicate Dropped(s: State, t: State, gone: set<nat>) {
    && t.mapInfo.Keys == s.mapInfo.Keys - gone && t.vvNew == s.vvNew && t.vvTried == s.vvTried && t.collisions == s.collisions && t.idCount == s.idCount
    && (gone == {} ==> t == s) && forall n :: n in t.mapInfo ==> n in s.mapInfo && Kept(s, t, n)
  }

  lemma {:induction false} DroppedMore(s: State, t: State, u: State, gone: set<nat>, n: nat)
    requires Dropped(s, t, gone) && n in t.mapInfo && u.mapInfo.Keys == t.mapInfo.Keys - {n} && u.collisions == t.collisions && u.idCount == t.idCount
    requires u.vvNew == t.vvNew && u.vvTried == t.vvTried && forall k :: k in t.mapInfo && k != n ==> Kept(t, u, k)
    ensures Dropped(s, u, gone + {n})
  {
    assert u.mapInfo.Keys == s.mapInfo.Keys - (gone + {n});
    forall k | k in u.mapInfo ensures k in s.mapInfo && Kept(s, u, k) { assert Kept(s, t, k) && Kept(t, u, k); }
  }

  lemma {:induction false} NoPlace(h: Hashes, t: State, bare: set<nat>, n: nat)
    requires Inv(h, t, bare, {}) && n in t.mapInfo
    ensures n in bare <==> !t.mapInfo[n].inTried && t.mapInfo[n].refCount == 0
  {
    assert RefsAt(t, bare, n);
  }

  /** Delete the entries that are not tried and have no reference, in any order. */
  method Prune(m: AddrMan, ghost bare: set<nat>)
    requires Inv(m.h, m.S(), bare, {}) && m.collisions == {}
    modifies m
    ensures Consistent(m.h, m.S()) && Dropped(old(m.S()), m.S(), bare)
  {
    hide Inv;
    InvIndexedBare(m.h, m.S(), bare);
    var todo := m.mapInfo.Keys;
    ghost var left, gone := bare, {};
    while todo != {}
      invariant Inv(m.h, m.S(), left, {}) && Dropped(old(m.S()), m.S(), gone) && left <= todo <= m.mapInfo.Keys && left + gone == bare && left !! gone
    {
      var n :| n in todo;
      NoPlace(m.h, m.S(), left, n);
      ghost var t := m.S();
      if !m.mapInfo[n].inTried && m.mapInfo[n].refCount == 0 {
        m.Delete(n, left, {});
        DroppedMore(old(m.S()), t, m.S(), gone, n);
        left, gone := left - {n}, gone + {n};
      }
      todo := todo - {n};
    }
    assert left == {} && gone == bare;
  }

  /** Load a file. */
  method Unserialize(h: Hashes, f: File, sameBucketing: bool, valid: nat -> bool) returns (m: AddrMan)
    requires HashesOk(h) && Loadable(f, valid)
    ensures fresh(m) && m.h == h && Consistent(h, m.S())
    ensures var t := Loaded(h, f, sameBucketing, valid);
            Dropped(t, m.S(), Unreferenced(t, |f.newEntries|))
  {
    hide HashesOk, Loadable, Loaded, Inv, Unreferenced, Dropped;
    var t := LoadTables(h, f, sameBucketing, valid);
    LoadedPlaced(h, f, sameBucketing, valid);
    m := new AddrMan(h);
    m.idCount, m.mapInfo, m.mapAddr, m.vRandom, m.vvNew, m.vvTried := t.idCount, t.mapInfo, t.mapAddr, t.vRandom, t.vvNew, t.vvTried;
    m.nNew, m.nTried, m.counts, m.collisions := t.nNew, t.nTried, t.counts, t.collisions;
    assert m.S() == t;
    Prune(m, Unreferenced(t, |f.newEntries|));
  }

  // ---------- a file that was saved ----------

  lemma {:induction false} SavedLoadable(h: Hashes, s: State, order: seq<nat>, f: File, valid: nat -> bool)
    requires Inv(h, s, {}, {}) && Writes(s, order, f)
    ensures Loadable(f, valid)
  {
    hide Inv, Writes;
    WrittenLists(h, s, order, f);
    var news, list := f.newEntries, f.triedEntries;
    var all := news + list;
    forall j | 0 <= j < |list| ensures TriedFits(f, j) {
      forall i | 0 <= i < |news| ensures news[i].addr != list[j].addr { assert all[i] == news[i] && all[|news| + j] == list[j]; }
    }
  }

  lemma {:induction false} AllReferenced(h: Hashes, t: State, m: nat)
    requires SomePlaced(h, t, m) && Inv(h, t, {}, {})
    ensures Unreferenced(t, m) == {}
  {
    forall n | n in t.mapInfo && n < m ensures t.mapInfo[n].refCount != 0 { NoPlace(h, t, {}, n); }
  }

  /** Loading what was saved, with unchanged bucketing, drops nothing. */
  method Reload(h: Hashes, s: State, order: seq<nat>, valid: nat -> bool) returns (m: AddrMan)
    requires Consistent(h, s) && HashesOk(h) && PositionsOk(h) && Enumerates(s, order) && forall n :: n in s.mapInfo ==> valid(s.mapInfo[n].addr)
    ensures m.h == h && Consistent(h, m.S()) && SameContents(s, m.S())
  {
    hide Inv, HashesOk, PositionsOk, Enumerates, Writes, Loaded, Colliding, SomePlaced, Unreferenced, SameContents, Loadable;
    var f := Serialize(h, s, order);
    RoundTrip(h, s, order, f, valid);
    SavedLoadable(h, s, order, f, valid);
    LoadedPlaced(h, f, true, valid);
    AllReferenced(h, Loaded(h, f, true, valid), |f.newEntries|);
    m := Unserialize(h, f, true, valid);
  }
}

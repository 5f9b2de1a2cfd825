/** Saving and loading the address manager (src/addrman.cpp:131-399): loading what was saved
    restores every entry to its place in both tables. */
module AddrFiles {
  import opened Options
  import opened Sets
  import opened AddrTables
  import opened AddrMans

  const BUCKET_SIZE := 64

  /** Positions are within a bucket. */
  ghost predicate PositionsOk(h: Hashes) { forall a, f, b :: h.position(a, f, b) < BUCKET_SIZE }

  /** What is saved of an entry. */
  datatype Saved = Saved(addr: nat, source: nat, time: int, lastSuccess: int)

  function Save(e: Info): Saved { Saved(e.addr, e.source, e.time, e.lastSuccess) }

  /** The file: new and tried entries, and for every bucket the indexes of the new entries in it. */
  datatype File = File(newEntries: seq<Saved>, triedEntries: seq<Saved>, buckets: seq<seq<nat>>)

  // ---------- saving ----------

  /** The entries with a reference, or the tried ones, in the order of the map. */
  ghost function Chosen(s: State, order: seq<nat>, tried: bool): seq<nat>
    requires forall n :: n in order ==> n in s.mapInfo
  {
    if order == [] then []
    else
      var rest := Chosen(s, order[..|order| - 1], tried);
      var n := order[|order| - 1];
      if (if tried then s.mapInfo[n].inTried else s.mapInfo[n].refCount != 0) then rest + [n] else rest
  }

  /** An enumeration of all entries. */
  ghost predicate Enumerates(s: State, order: seq<nat>) { Distinct(order) && SetOf(order) == s.mapInfo.Keys }

  lemma {:induction false} ChosenProps(s: State, order: seq<nat>, tried: bool)
    requires Distinct(order) && forall n :: n in order ==> n in s.mapInfo
    ensures var c := Chosen(s, order, tried);
            && Distinct(c) && (forall n :: n in c <==> n in order && (if tried then s.mapInfo[n].inTried else s.mapInfo[n].refCount != 0))
  {
    if order != [] {
      var k := |order| - 1;
      var rest, n := order[..k], order[k];
      assert order == rest + [n];
      ChosenProps(s, rest, tried);
      assert n !in rest;
    }
  }

  ghost function SaveAll(s: State, ids: seq<nat>): (r: seq<Saved>)
    requires forall n :: n in ids ==> n in s.mapInfo
    ensures |r| == |ids| && forall i :: 0 <= i < |ids| ==> r[i] == Save(s.mapInfo[ids[i]])
  {
    seq(|ids|, i requires 0 <= i < |ids| => assert ids[i] in ids; Save(s.mapInfo[ids[i]]))
  }

  /** The occupied slots of a bucket below position i. */
  ghost function InBucket(v: map<Slot, nat>, b: nat, i: nat): seq<Slot> {
    if i == 0 then [] else InBucket(v, b, i - 1) + (if Slot(b, i - 1) in v then [Slot(b, i - 1)] else [])
  }

  /** The occupied slots of the buckets below b, in order. */
  ghost function AllSlots(v: map<Slot, nat>, b: nat): seq<Slot> {
    if b == 0 then [] else AllSlots(v, b - 1) + InBucket(v, b - 1, BUCKET_SIZE)
  }

  lemma {:induction false} InBucketProps(v: map<Slot, nat>, b: nat, i: nat)
    ensures Distinct(InBucket(v, b, i)) && forall p :: p in InBucket(v, b, i) <==> p in v && p.bucket == b && p.pos < i
  {
    if i > 0 {
      InBucketProps(v, b, i - 1);
      var l := InBucket(v, b, i - 1);
      var q := Slot(b, i - 1);
      assert q !in l;
      assert forall p :: p in v && p.bucket == b && p.pos < i ==> p == q || p.pos < i - 1;
    }
  }

  lemma {:induction false} AllSlotsProps(v: map<Slot, nat>, b: nat)
    ensures Distinct(AllSlots(v, b)) && forall p :: p in AllSlots(v, b) <==> p in v && p.bucket < b && p.pos < BUCKET_SIZE
  {
    if b > 0 {
      AllSlotsProps(v, b - 1);
      InBucketProps(v, b - 1, BUCKET_SIZE);
      var l, m := AllSlots(v, b - 1), InBucket(v, b - 1, BUCKET_SIZE);
      forall p ensures p in SetOf(l) ==> p !in SetOf(m) {}
      DistinctConcat(l, m);
    }
  }

  /** Where an entry is in a list of distinct identifiers. */
  ghost function IndexIn(ids: seq<nat>, n: nat): (i: nat)
    requires n in ids
    ensures i < |ids| && ids[i] == n
  {
    if ids[|ids| - 1] == n then |ids| - 1 else IndexIn(ids[..|ids| - 1], n)
  }

  // ---------- writing the file ----------

  /** The saved form of the entries that are chosen, in the order of the map, and the index each
      of the new ones gets. */
  method WriteEntries(s: State, order: seq<nat>, tried: bool) returns (list: seq<Saved>, unkIds: map<nat, nat>)
    requires Distinct(order) && forall n :: n in order ==> n in s.mapInfo
    ensures (forall n :: n in Chosen(s, order, tried) ==> n in s.mapInfo) && list == SaveAll(s, Chosen(s, order, tried))
    ensures forall i :: 0 <= i < |Chosen(s, order, tried)| ==> Chosen(s, order, tried)[i] in unkIds && unkIds[Chosen(s, order, tried)[i]] == i
  {
    list, unkIds := [], map[];
    for k := 0 to |order|
      invariant forall n :: n in order[..k] ==> n in s.mapInfo
      invariant (forall n :: n in Chosen(s, order[..k], tried) ==> n in s.mapInfo) && list == SaveAll(s, Chosen(s, order[..k], tried))
      invariant forall i :: 0 <= i < |Chosen(s, order[..k], tried)| ==> Chosen(s, order[..k], tried)[i] in unkIds && unkIds[Chosen(s, order[..k], tried)[i]] == i
    {
      var n := order[k];
      assert order[..k + 1][..k] == order[..k];
      ghost var before := Chosen(s, order[..k], tried);
      ChosenProps(s, order[..k], tried);
      assert n !in order[..k];
      unkIds := unkIds[n := |list|];
      if if tried then s.mapInfo[n].inTried else s.mapInfo[n].refCount != 0 {
        list := list + [Save(s.mapInfo[n])];
      }
      assert forall x :: x in order[..k + 1] ==> x in s.mapInfo;
    }
    assert order[..|order|] == order;
  }

  /** Every occupied slot of the new table belongs to an entry of the list. */
  ghost predicate Listing(s: State, ids: seq<nat>) { forall p :: p in s.vvNew ==> s.vvNew[p] in ids }

  ghost function IndexesOf(s: State, ids: seq<nat>, l: seq<Slot>): (r: seq<nat>)
    requires Listing(s, ids) && forall p :: p in l ==> p in s.vvNew
    ensures |r| == |l| && forall i :: 0 <= i < |l| ==> r[i] == IndexIn(ids, s.vvNew[l[i]])
  {
    seq(|l|, i requires 0 <= i < |l| => assert l[i] in l; IndexIn(ids, s.vvNew[l[i]]))
  }

  lemma {:induction false} IndexUnique(ids: seq<nat>, i: nat)
    requires Distinct(ids) && i < |ids|
    ensures IndexIn(ids, ids[i]) == i
  {
  }

  /** One bucket: the indexes of its entries. */
  method WriteBucket(s: State, b: nat, unkIds: map<nat, nat>, ghost ids: seq<nat>) returns (r: seq<nat>)
    requires Listing(s, ids) && Distinct(ids) && forall i :: 0 <= i < |ids| ==> ids[i] in unkIds && unkIds[ids[i]] == i
    ensures (forall p :: p in InBucket(s.vvNew, b, BUCKET_SIZE) ==> p in s.vvNew) && r == IndexesOf(s, ids, InBucket(s.vvNew, b, BUCKET_SIZE))
  {
    r := [];
    for i := 0 to BUCKET_SIZE
      invariant (forall p :: p in InBucket(s.vvNew, b, i) ==> p in s.vvNew) && r == IndexesOf(s, ids, InBucket(s.vvNew, b, i))
    {
      InBucketProps(s.vvNew, b, i + 1);
      if Slot(b, i) in s.vvNew {
        ghost var n := s.vvNew[Slot(b, i)];
        IndexUnique(ids, IndexIn(ids, n));
        r := r + [unkIds[s.vvNew[Slot(b, i)]]];
      }
    }
  }

  /** f is what saving state s writes, for some order of the map. */
  ghost predicate Writes(s: State, order: seq<nat>, f: File) {
    && Enumerates(s, order) && (forall n :: n in order ==> n in s.mapInfo)
    && var ids := Chosen(s, order, false); var tried := Chosen(s, order, true);
       && (forall n :: n in ids || n in tried ==> n in s.mapInfo) && Listing(s, ids)
       && f.newEntries == SaveAll(s, ids) && f.triedEntries == SaveAll(s, tried) && |f.buckets| == NEW_BUCKETS
       && forall b :: 0 <= b < NEW_BUCKETS ==> Bucketed(s, ids, f.buckets, b)
  }

  ghost predicate Bucketed(s: State, ids: seq<nat>, buckets: seq<seq<nat>>, b: nat)
    requires b < |buckets| && Listing(s, ids)
  {
    (forall p :: p in InBucket(s.vvNew, b, BUCKET_SIZE) ==> p in s.vvNew) && buckets[b] == IndexesOf(s, ids, InBucket(s.vvNew, b, BUCKET_SIZE))
  }

  lemma {:induction false} EnumeratesIn(s: State, order: seq<nat>)
    requires Enumerates(s, order)
    ensures forall n :: n in order <==> n in s.mapInfo
  {
    forall n ensures n in order <==> n in s.mapInfo { assert n in SetOf(order) <==> n in s.mapInfo.Keys; }
  }

  /** New entries have references, and slots belong to them. */
  lemma {:induction false} ChosenListing(h: Hashes, s: State, order: seq<nat>)
    requires Inv(h, s, {}, {}) && Enumerates(s, order)
    ensures (forall n :: n in order ==> n in s.mapInfo) && Listing(s, Chosen(s, order, false)) && Distinct(Chosen(s, order, false)) && Distinct(Chosen(s, order, true))
    ensures forall n :: n in Chosen(s, order, false) <==> n in s.mapInfo && !s.mapInfo[n].inTried
    ensures forall n :: n in Chosen(s, order, true) <==> n in s.mapInfo && s.mapInfo[n].inTried
  {
    hide Inv;
    EnumeratesIn(s, order);
    ChosenProps(s, order, false);
    ChosenProps(s, order, true);
    forall n | n in s.mapInfo ensures s.mapInfo[n].refCount != 0 <==> !s.mapInfo[n].inTried { EntryFacts(h, s, {}, {}, n); }
    forall p | p in s.vvNew ensures s.vvNew[p] in Chosen(s, order, false) { SlotEntry(h, s, {}, {}, p); }
  }

  method Serialize(h: Hashes, s: State, order: seq<nat>) returns (f: File)
    requires Consistent(h, s) && Enumerates(s, order)
    ensures Writes(s, order, f)
  {
    hide Inv, Chosen;
    ChosenListing(h, s, order);
    ghost var ids := Chosen(s, order, false);
    var newEntries, unkIds := WriteEntries(s, order, false);
    var triedEntries, _ := WriteEntries(s, order, true);
    var buckets := [];
    for b := 0 to NEW_BUCKETS
      invariant |buckets| == b && forall c :: 0 <= c < b ==> Bucketed(s, ids, buckets, c)
    {
      var bucket := WriteBucket(s, b, unkIds, ids);
      ghost var before := buckets;
      buckets := buckets + [bucket];
      forall c | 0 <= c < b + 1 ensures Bucketed(s, ids, buckets, c) { if c < b { assert Bucketed(s, ids, before, c); } }
    }
    f := File(newEntries, triedEntries, buckets);
  }

  // ---------- reading the file ----------

  const EMPTY := State(0, map[], map[], [], map[], map[], 0, 0, map[], {})

  /** One more entry of the new table, without place yet. */
  function WithNew(h: Hashes, t: State, e: Saved): State {
    var u := Created(h, t, e.addr, e.source, e.time);
    Edit(u, t.idCount, u.mapInfo[t.idCount].(lastSuccess := e.lastSuccess))
  }

  /** One more entry of the tried table, in its place. */
  function WithTried(h: Hashes, t: State, e: Saved): State {
    var n, p := t.idCount, TriedSlot(h, e.addr);
    t.(idCount := n + 1, mapInfo := t.mapInfo[n := Info(e.addr, e.source, e.time, 0, e.lastSuccess, 0, true, |t.vRandom|)],
       mapAddr := t.mapAddr[e.addr := n], vRandom := t.vRandom + [n], vvTried := t.vvTried[p := n],
       nTried := t.nTried + 1, counts := Bump(t.counts, h.network(e.addr), 0, 1))
  }

  ghost function LoadedNew(h: Hashes, list: seq<Saved>, k: nat): State
    requires k <= |list|
  {
    if k == 0 then EMPTY else WithNew(h, LoadedNew(h, list, k - 1), list[k - 1])
  }

  /** Tried entries whose place is free and whose address is valid; others are lost. */
  ghost function LoadedTried(h: Hashes, t: State, list: seq<Saved>, valid: nat -> bool, k: nat): State
    requires k <= |list|
  {
    if k == 0 then t
    else
      var u, e := LoadedTried(h, t, list, valid, k - 1), list[k - 1];
      if valid(e.addr) && TriedSlot(h, e.addr) !in u.vvTried then WithTried(h, u, e) else u
  }

  /** One reference of a new entry: where it was, or at its own source's bucket when that is not
      possible. */
  function WithReference(h: Hashes, t: State, b: nat, n: nat, restore: bool, valid: nat -> bool): State {
    if n !in t.mapInfo || !valid(t.mapInfo[n].addr) || t.mapInfo[n].refCount >= MAX_REFS then t
    else
      var e := t.mapInfo[n];
      if restore && NewSlot(h, e.addr, b) !in t.vvNew then Listed(t, NewSlot(h, e.addr, b), n)
      else
        var own := NewSlot(h, e.addr, h.newBucket(e.addr, e.source));
        if own !in t.vvNew then Listed(t, own, n) else t
  }

  ghost function LoadedReferences(h: Hashes, t: State, refs: seq<(nat, nat)>, restore: bool, valid: nat -> bool, k: nat): State
    requires k <= |refs|
  {
    if k == 0 then t else WithReference(h, LoadedReferences(h, t, refs, restore, valid, k - 1), refs[k - 1].0, refs[k - 1].1, restore, valid)
  }

  /** The pairs of bucket and index of the first b buckets, without indexes out of range. */
  ghost function References(f: File, b: nat): seq<(nat, nat)>
    requires b <= |f.buckets|
  {
    if b == 0 then [] else References(f, b - 1) + InRange(f.buckets[b - 1], b - 1, |f.newEntries|, |f.buckets[b - 1]|)
  }

  ghost function InRange(l: seq<nat>, b: nat, n: nat, k: nat): seq<(nat, nat)>
    requires k <= |l|
  {
    if k == 0 then [] else InRange(l, b, n, k - 1) + (if l[k - 1] < n then [(b, l[k - 1])] else [])
  }

  /** The tables as a file gives them, before entries without a place are dropped. */
  ghost function Loaded(h: Hashes, f: File, sameBucketing: bool, valid: nat -> bool): State {
    var refs := References(f, |f.buckets|);
    LoadedReferences(h, Unplaced(h, f, valid), refs, sameBucketing && |f.buckets| == NEW_BUCKETS, valid, |refs|)
  }

  method LoadTables(h: Hashes, f: File, sameBucketing: bool, valid: nat -> bool) returns (t: State)
    ensures t == Loaded(h, f, sameBucketing, valid)
  {
    hide References, WithNew, WithTried, WithReference, TriedSlot;
    t := EMPTY;
    for n := 0 to |f.newEntries|
      invariant t == LoadedNew(h, f.newEntries, n)
    {
      t := WithNew(h, t, f.newEntries[n]);
    }
    ghost var t1 := t;
    for n := 0 to |f.triedEntries|
      invariant t == LoadedTried(h, t1, f.triedEntries, valid, n)
    {
      var e := f.triedEntries[n];
      if valid(e.addr) && TriedSlot(h, e.addr) !in t.vvTried { t := WithTried(h, t, e); }
    }
    var refs := CollectReferences(f);
    var restore := sameBucketing && |f.buckets| == NEW_BUCKETS;
    ghost var t2 := t;
    for k := 0 to |refs|
      invariant t == LoadedReferences(h, t2, refs, restore, valid, k)
    {
      t := WithReference(h, t, refs[k].0, refs[k].1, restore, valid);
    }
  }

  method CollectReferences(f: File) returns (refs: seq<(nat, nat)>)
    ensures refs == References(f, |f.buckets|)
  {
    refs := [];
    for b := 0 to |f.buckets|
      invariant refs == References(f, b)
    {
      ghost var before := refs;
      for n := 0 to |f.buckets[b]|
        invariant refs == before + InRange(f.buckets[b], b, |f.newEntries|, n)
      {
        if f.buckets[b][n] < |f.newEntries| { refs := refs + [(b, f.buckets[b][n])]; }
      }
    }
  }

  // ---------- loading the new entries ----------

  ghost function Below(k: nat): (r: set<nat>)
    ensures forall i: int :: i in r <==> 0 <= i < k
  {
    if k == 0 then {} else Below(k - 1) + {k - 1}
  }

  ghost predicate DistinctAddrs(list: seq<Saved>) { forall i, j :: 0 <= i < j < |list| ==> list[i].addr != list[j].addr }

  /** What loading makes of a saved entry. */
  ghost function Restored(e: Saved, tried: bool, randomPos: nat): Info { Info(e.addr, e.source, e.time, 0, e.lastSuccess, 0, tried, randomPos) }

  ghost predicate NewLoaded(h: Hashes, t: State, list: seq<Saved>, k: nat)
    requires k <= |list|
  {
    && Inv(h, t, Below(k), {}) && t.idCount == k && t.mapInfo.Keys == Below(k) && t.vvNew == map[] && t.vvTried == map[] && t.collisions == {}
    && |t.vRandom| == k && (forall i :: 0 <= i < k ==> t.mapInfo[i] == Restored(list[i], false, i))
  }

  lemma {:induction false} AddrOfEntry(h: Hashes, t: State, bare: set<nat>, out: set<nat>, a: nat)
    requires Inv(h, t, bare, out) && a in t.mapAddr
    ensures t.mapAddr[a] in t.mapInfo && t.mapInfo[t.mapAddr[a]].addr == a
  {
    assert AddrAt(t, a);
  }

  lemma {:induction false} WithNewOk(h: Hashes, t: State, list: seq<Saved>, k: nat)
    requires k < |list| && NewLoaded(h, t, list, k) && DistinctAddrs(list) && list[k].lastSuccess >= 0
    ensures NewLoaded(h, WithNew(h, t, list[k]), list, k + 1)
  {
    hide Inv;
    var e := list[k];
    if e.addr in t.mapAddr { AddrOfEntry(h, t, Below(k), {}, e.addr); }
    CreatedKeeps(h, t, e.addr, e.source, e.time, Below(k), {});
    var u := Created(h, t, e.addr, e.source, e.time);
    assert Below(k) + {k} == Below(k + 1);
    EditKeeps(h, u, k, u.mapInfo[k].(lastSuccess := e.lastSuccess), Below(k + 1), {});
  }

  lemma {:induction false} LoadedNewOk(h: Hashes, list: seq<Saved>, k: nat)
    requires k <= |list| && DistinctAddrs(list) && forall i :: 0 <= i < |list| ==> list[i].lastSuccess >= 0
    ensures NewLoaded(h, LoadedNew(h, list, k), list, k)
  {
    hide NewLoaded, Inv, WithNew;
    if k == 0 {
      NothingLoaded(h, list);
    } else {
      LoadedNewOk(h, list, k - 1);
      WithNewOk(h, LoadedNew(h, list, k - 1), list, k - 1);
    }
  }

  lemma {:induction false} NothingLoaded(h: Hashes, list: seq<Saved>)
    ensures NewLoaded(h, EMPTY, list, 0)
  {
    hide Inv;
    EmptyOk(h, EMPTY);
    assert Below(0) == {};
  }

  // ---------- loading the tried entries ----------

  lemma {:induction false} WithTriedKeeps(h: Hashes, t: State, e: Saved, bare: set<nat>)
    requires Inv(h, t, bare, {}) && e.addr !in t.mapAddr && TriedSlot(h, e.addr) !in t.vvTried && e.lastSuccess > 0
    ensures Inv(h, WithTried(h, t, e), bare, {}) && t.idCount !in t.mapInfo
  {
    hide Inv;
    var n := t.idCount;
    InvIndexedBare(h, t, bare);
    CreatedIndexed(h, t, e.addr, e.source, e.time);
    CreatedKeeps(h, t, e.addr, e.source, e.time, bare, {});
    var u := Created(h, t, e.addr, e.source, e.time);
    var more := bare + {n};
    EditKeeps(h, u, n, u.mapInfo[n].(lastSuccess := e.lastSuccess), more, {});
    var v := Edit(u, n, u.mapInfo[n].(lastSuccess := e.lastSuccess));
    WithdrawKeeps(h, v, n, more, {});
    var w := Recounted(h, v, e.addr, -1, 0);
    assert {} + {n} == {n};
    PromotedKeeps(h, w, n, more, {n});
    assert more - {n} == bare && {n} - {n} == {};
    TriedSame(h, t, e);
  }

  lemma {:induction false} InvIndexedBare(h: Hashes, t: State, bare: set<nat>)
    requires Inv(h, t, bare, {})
    ensures Indexed(t) && bare <= t.mapInfo.Keys && forall n :: n in t.mapInfo ==> n < t.idCount
  {
    forall n | n in t.mapInfo ensures n < t.idCount { assert EntryAt(t, n); }
  }

  /** Adding a tried entry at once, or as a new one that is promoted. */
  lemma {:induction false} TriedSame(h: Hashes, t: State, e: Saved)
    ensures var n := t.idCount; var u := Created(h, t, e.addr, e.source, e.time);
            var v := Edit(u, n, u.mapInfo[n].(lastSuccess := e.lastSuccess));
            WithTried(h, t, e) == Promoted(h, Recounted(h, v, e.addr, -1, 0), n)
  {
    var n, net := t.idCount, h.network(e.addr);
    assert Bump(Bump(Bump(t.counts, net, 1, 0), net, -1, 0), net, 0, 1) == Bump(t.counts, net, 0, 1);
  }

  /** The tried entries have their places to themselves. */
  ghost predicate OwnPlaces(h: Hashes, list: seq<Saved>) {
    forall i, j :: 0 <= i < j < |list| ==> TriedSlot(h, list[i].addr) != TriedSlot(h, list[j].addr)
  }

  ghost predicate TriedLoaded(h: Hashes, t: State, news: seq<Saved>, list: seq<Saved>, k: nat)
    requires k <= |list|
  {
    var m := |news|;
    && Inv(h, t, Below(m), {}) && t.idCount == m + k && t.mapInfo.Keys == Below(m + k) && t.vvNew == map[] && t.collisions == {} && |t.vRandom| == m + k
    && (forall i :: 0 <= i < m ==> t.mapInfo[i] == Restored(news[i], false, i))
    && (forall j :: m <= j < m + k ==> t.mapInfo[j] == Restored(list[j - m], true, j))
  }

  /** A free place: no loaded entry has it. */
  lemma {:induction false} PlaceFree(h: Hashes, t: State, news: seq<Saved>, list: seq<Saved>, k: nat)
    requires k < |list| && TriedLoaded(h, t, news, list, k) && DistinctAddrs(news + list) && OwnPlaces(h, list)
    ensures list[k].addr !in t.mapAddr && TriedSlot(h, list[k].addr) !in t.vvTried
  {
    hide Inv;
    var m, all := |news|, news + list;
    assert all[m + k] == list[k];
    forall x | x in t.mapAddr ensures x != list[k].addr {
      AddrOfEntry(h, t, Below(m), {}, x);
      var i := t.mapAddr[x];
      assert x == all[i].addr;
    }
    forall p | p in t.vvTried ensures p != TriedSlot(h, list[k].addr) {
      TriedEntry(h, t, Below(m), {}, p);
      var j := t.vvTried[p];
      assert p == TriedSlot(h, list[j - m].addr);
    }
  }

  lemma {:induction false} WithTriedOk(h: Hashes, t: State, news: seq<Saved>, list: seq<Saved>, k: nat)
    requires k < |list| && TriedLoaded(h, t, news, list, k) && DistinctAddrs(news + list) && OwnPlaces(h, list) && list[k].lastSuccess > 0
    ensures TriedSlot(h, list[k].addr) !in t.vvTried && TriedLoaded(h, WithTried(h, t, list[k]), news, list, k + 1)
  {
    hide Inv, DistinctAddrs, OwnPlaces;
    PlaceFree(h, t, news, list, k);
    WithTriedKeeps(h, t, list[k], Below(|news|));
    var u, n := WithTried(h, t, list[k]), |news| + k;
    assert u.mapInfo == t.mapInfo[n := Restored(list[k], true, n)];
    hide WithTried, TriedSlot;
    assert u.mapInfo.Keys == Below(n + 1);
  }

  lemma {:induction false} LoadedTriedOk(h: Hashes, t: State, news: seq<Saved>, list: seq<Saved>, valid: nat -> bool, k: nat)
    requires k <= |list| && TriedLoaded(h, t, news, list, 0) && DistinctAddrs(news + list) && OwnPlaces(h, list)
    requires forall i :: 0 <= i < |list| ==> list[i].lastSuccess > 0 && valid(list[i].addr)
    ensures TriedLoaded(h, LoadedTried(h, t, list, valid, k), news, list, k)
  {
    hide TriedLoaded, WithTried, DistinctAddrs, OwnPlaces;
    if k > 0 {
      LoadedTriedOk(h, t, news, list, valid, k - 1);
      WithTriedOk(h, LoadedTried(h, t, list, valid, k - 1), news, list, k - 1);
    }
  }

  lemma {:induction false} NewThenTried(h: Hashes, t: State, news: seq<Saved>, list: seq<Saved>)
    requires NewLoaded(h, t, news, |news|)
    ensures TriedLoaded(h, t, news, list, 0)
  {
    hide Inv;
  }

  // ---------- loading the references ----------

  lemma {:induction false} InRangeAll(l: seq<nat>, b: nat, n: nat, k: nat)
    requires k <= |l| && forall i :: 0 <= i < |l| ==> l[i] < n
    ensures |InRange(l, b, n, k)| == k && forall i :: 0 <= i < k ==> InRange(l, b, n, k)[i] == (b, l[i])
  {
    if k > 0 { InRangeAll(l, b, n, k - 1); }
  }

  /** refs lists, slot by slot, the bucket and the index of the entry. */
  ghost predicate RefersTo(s: State, ids: seq<nat>, slots: seq<Slot>, refs: seq<(nat, nat)>) {
    && Listing(s, ids) && |refs| == |slots| && (forall p :: p in slots ==> p in s.vvNew)
    && forall i :: 0 <= i < |slots| ==> RefersAt(s, ids, slots[i], refs[i])
  }

  ghost predicate RefersAt(s: State, ids: seq<nat>, p: Slot, ref: (nat, nat))
    requires Listing(s, ids)
  {
    p in s.vvNew && ref.0 == p.bucket && ref.1 == IndexIn(ids, s.vvNew[p])
  }

  lemma {:induction false} RefersConcat(s: State, ids: seq<nat>, a: seq<Slot>, b: seq<Slot>, x: seq<(nat, nat)>, y: seq<(nat, nat)>)
    requires RefersTo(s, ids, a, x) && RefersTo(s, ids, b, y)
    ensures RefersTo(s, ids, a + b, x + y)
  {
    hide RefersAt;
  }

  lemma {:induction false} BucketRefers(s: State, ids: seq<nat>, f: File, b: nat)
    requires b < |f.buckets| && Listing(s, ids) && Bucketed(s, ids, f.buckets, b) && |f.newEntries| == |ids|
    ensures RefersTo(s, ids, InBucket(s.vvNew, b, BUCKET_SIZE), InRange(f.buckets[b], b, |f.newEntries|, |f.buckets[b]|))
  {
    var l := InBucket(s.vvNew, b, BUCKET_SIZE);
    InBucketProps(s.vvNew, b, BUCKET_SIZE);
    InRangeAll(f.buckets[b], b, |f.newEntries|, |f.buckets[b]|);
    forall i | 0 <= i < |l| ensures RefersAt(s, ids, l[i], InRange(f.buckets[b], b, |f.newEntries|, |f.buckets[b]|)[i]) { assert l[i] in l; }
  }

  lemma {:induction false} ReferencesAre(s: State, ids: seq<nat>, f: File, b: nat)
    requires b <= |f.buckets| && Listing(s, ids) && |f.newEntries| == |ids| && forall c :: 0 <= c < |f.buckets| ==> Bucketed(s, ids, f.buckets, c)
    ensures RefersTo(s, ids, AllSlots(s.vvNew, b), References(f, b))
  {
    hide Bucketed, InBucket, InRange;
    if b > 0 {
      ReferencesAre(s, ids, f, b - 1);
      assert Bucketed(s, ids, f.buckets, b - 1);
      BucketRefers(s, ids, f, b - 1);
      hide RefersTo;
      RefersConcat(s, ids, AllSlots(s.vvNew, b - 1), InBucket(s.vvNew, b - 1, BUCKET_SIZE), References(f, b - 1), InRange(f.buckets[b - 1], b - 1, |f.newEntries|, |f.buckets[b - 1]|));
    }
  }

  /** Entries without reference. */
  ghost function Unreferenced(t: State, m: nat): set<nat> { set i | i in t.mapInfo && i < m && t.mapInfo[i].refCount == 0 }

  /** Only references differ. */
  ghost predicate OnlyReferences(t0: State, t: State, m: nat) {
    && t.vvTried == t0.vvTried && t.idCount == t0.idCount && t.collisions == t0.collisions && t.mapAddr == t0.mapAddr
    && t.mapInfo.Keys == t0.mapInfo.Keys && Below(m) <= t.mapInfo.Keys
    && (forall i :: i in t0.mapInfo ==> t.mapInfo[i] == t0.mapInfo[i].(refCount := t.mapInfo[i].refCount))
  }

  /** The first k slots are filled as in s. */
  ghost predicate SlotsLoaded(s: State, ids: seq<nat>, slots: seq<Slot>, v: map<Slot, nat>, k: nat)
    requires k <= |slots|
  {
    (forall p :: p in v <==> p in slots[..k]) && (forall p :: p in v ==> v[p] < |ids| && p in s.vvNew && ids[v[p]] == s.vvNew[p])
  }

  ghost predicate RefsLoaded(h: Hashes, s: State, ids: seq<nat>, slots: seq<Slot>, t0: State, t: State, k: nat)
    requires k <= |slots|
  {
    Inv(h, t, Unreferenced(t, |ids|), {}) && OnlyReferences(t0, t, |ids|) && SlotsLoaded(s, ids, slots, t.vvNew, k)
  }

  /** The entries loaded as new are those of s, in the order of ids. */
  ghost predicate Matches(s: State, ids: seq<nat>, t: State) {
    && Distinct(ids) && Listing(s, ids) && Below(|ids|) <= t.mapInfo.Keys
    && forall i :: 0 <= i < |ids| ==> ids[i] in s.mapInfo && t.mapInfo[i].addr == s.mapInfo[ids[i]].addr && !t.mapInfo[i].inTried
  }

  /** The next reference can be restored where it was. */
  lemma {:induction false} NextReference(h: Hashes, s: State, ids: seq<nat>, slots: seq<Slot>, refs: seq<(nat, nat)>, t0: State, t: State, k: nat)
    requires Inv(h, s, {}, {}) && k < |slots| && Distinct(slots) && RefersTo(s, ids, slots, refs) && Matches(s, ids, t0) && RefsLoaded(h, s, ids, slots, t0, t, k)
    ensures var n := refs[k].1;
            && n < |ids| && n in t.mapInfo && ids[n] == s.vvNew[slots[k]] && slots[k] == NewSlot(h, t.mapInfo[n].addr, refs[k].0) && refs[k].0 < NEW_BUCKETS
            && slots[k] !in t.vvNew && t.mapInfo[n].refCount < MAX_REFS && !t.mapInfo[n].inTried
  {
    hide Inv;
    var p, n := slots[k], refs[k].1;
    assert p in slots;
    assert RefersAt(s, ids, p, refs[k]);
    SlotEntry(h, s, {}, {}, p);
    assert n in Below(|ids|);
    assert p !in slots[..k];
    EntryFacts(h, s, {}, {}, ids[n]);
    EntryFacts(h, t, Unreferenced(t, |ids|), {}, n);
    var mine, all := Slots(t.vvNew, n), Slots(s.vvNew, ids[n]);
    assert mine <= all - {p};
    SizeMinus(all, p);
    SubsetSize(mine, all - {p});
  }

  lemma {:induction false} SlotLoaded(s: State, ids: seq<nat>, slots: seq<Slot>, v: map<Slot, nat>, k: nat, n: nat)
    requires k < |slots| && SlotsLoaded(s, ids, slots, v, k) && n < |ids| && slots[k] in s.vvNew && ids[n] == s.vvNew[slots[k]]
    ensures SlotsLoaded(s, ids, slots, v[slots[k] := n], k + 1)
  {
    assert slots[..k + 1] == slots[..k] + [slots[k]];
  }

  lemma {:induction false} ListedUnreferenced(h: Hashes, t: State, p: Slot, n: nat, m: nat)
    requires n in t.mapInfo && t.mapInfo[n].refCount >= 0
    ensures Unreferenced(Listed(t, p, n), m) == Unreferenced(t, m) - {n}
  {
  }

  lemma {:induction false} ReferenceOk(h: Hashes, s: State, ids: seq<nat>, slots: seq<Slot>, refs: seq<(nat, nat)>, t0: State, t: State, k: nat, valid: nat -> bool)
    requires Inv(h, s, {}, {}) && k < |slots| && Distinct(slots) && RefersTo(s, ids, slots, refs) && Matches(s, ids, t0) && RefsLoaded(h, s, ids, slots, t0, t, k)
    requires forall i :: 0 <= i < |ids| ==> i in t.mapInfo && valid(t.mapInfo[i].addr)
    ensures RefsLoaded(h, s, ids, slots, t0, WithReference(h, t, refs[k].0, refs[k].1, true, valid), k + 1)
  {
    hide Inv, RefersTo, Matches, SlotsLoaded, Unreferenced, Distinct;
    SameLength(s, ids, slots, refs);
    NextReference(h, s, ids, slots, refs, t0, t, k);
    var p, n := slots[k], refs[k].1;
    EntryFacts(h, t, Unreferenced(t, |ids|), {}, n);
    ListedKeeps(h, t, p, n, Unreferenced(t, |ids|), {});
    ListedUnreferenced(h, t, p, n, |ids|);
    InSlots(s, ids, slots, refs, k);
    SlotLoaded(s, ids, slots, t.vvNew, k, n);
  }

  lemma {:induction false} InSlots(s: State, ids: seq<nat>, slots: seq<Slot>, refs: seq<(nat, nat)>, k: nat)
    requires RefersTo(s, ids, slots, refs) && k < |slots|
    ensures slots[k] in s.vvNew
  {
    assert slots[k] in slots;
  }

  ghost predicate AllValid(s: State, ids: seq<nat>, valid: nat -> bool) {
    forall i :: 0 <= i < |ids| ==> ids[i] in s.mapInfo && valid(s.mapInfo[ids[i]].addr)
  }

  lemma {:induction false} StillValid(h: Hashes, s: State, ids: seq<nat>, slots: seq<Slot>, t0: State, t: State, k: nat, valid: nat -> bool)
    requires k <= |slots| && Matches(s, ids, t0) && RefsLoaded(h, s, ids, slots, t0, t, k) && AllValid(s, ids, valid)
    ensures forall i :: 0 <= i < |ids| ==> i in t.mapInfo && valid(t.mapInfo[i].addr)
  {
    hide Inv, SlotsLoaded, Unreferenced;
    forall i | 0 <= i < |ids| ensures i in t.mapInfo && valid(t.mapInfo[i].addr) { assert i in Below(|ids|); }
  }

  lemma {:induction false} LoadedReferencesOk(h: Hashes, s: State, ids: seq<nat>, slots: seq<Slot>, refs: seq<(nat, nat)>, t0: State, k: nat, valid: nat -> bool)
    requires Inv(h, s, {}, {}) && k <= |slots| && Distinct(slots) && RefersTo(s, ids, slots, refs) && Matches(s, ids, t0) && RefsLoaded(h, s, ids, slots, t0, t0, 0)
    requires AllValid(s, ids, valid)
    ensures |refs| == |slots| && RefsLoaded(h, s, ids, slots, t0, LoadedReferences(h, t0, refs, true, valid, k), k)
  {
    hide Inv, WithReference, RefersTo, Matches, Distinct, RefsLoaded, AllValid;
    SameLength(s, ids, slots, refs);
    if k > 0 {
      LoadedReferencesOk(h, s, ids, slots, refs, t0, k - 1, valid);
      var t := LoadedReferences(h, t0, refs, true, valid, k - 1);
      StillValid(h, s, ids, slots, t0, t, k - 1, valid);
      ReferenceOk(h, s, ids, slots, refs, t0, t, k - 1, valid);
    }
  }

  lemma {:induction false} SameLength(s: State, ids: seq<nat>, slots: seq<Slot>, refs: seq<(nat, nat)>)
    requires RefersTo(s, ids, slots, refs)
    ensures |refs| == |slots|
  {
  }

  // ---------- the round trip ----------

  /** The same address with the same data, in the same table with as many references. */
  ghost predicate SameEntry(a: Info, b: Info) {
    Save(a) == Save(b) && a.inTried == b.inTried && a.refCount == b.refCount
  }

  ghost predicate SameAddrs(s: State, t: State) {
    && t.mapAddr.Keys == s.mapAddr.Keys
    && forall a :: a in s.mapAddr ==> s.mapAddr[a] in s.mapInfo && t.mapAddr[a] in t.mapInfo && SameEntry(s.mapInfo[s.mapAddr[a]], t.mapInfo[t.mapAddr[a]])
  }

  /** The same slots are taken, by the same addresses. */
  ghost predicate SameSlots(s: State, t: State, v: map<Slot, nat>, w: map<Slot, nat>) {
    w.Keys == v.Keys && forall p :: p in v ==> v[p] in s.mapInfo && w[p] in t.mapInfo && t.mapInfo[w[p]].addr == s.mapInfo[v[p]].addr
  }

  /** The same contents, up to a renaming of the identifiers. */
  ghost predicate SameContents(s: State, t: State) {
    SameAddrs(s, t) && SameSlots(s, t, s.vvNew, t.vvNew) && SameSlots(s, t, s.vvTried, t.vvTried) && forall net :: Tally(t, net) == Tally(s, net)
  }

  lemma {:induction false} AddrsCount(h: Hashes, m: map<nat, Info>, e: set<nat>)
    requires e <= m.Keys && forall x, y :: x in e && y in e && m[x].addr == m[y].addr ==> x == y
    ensures |set n | n in e :: m[n].addr| == |e|
  {
    if e != {} {
      var x :| x in e;
      var r := e - {x};
      AddrsCount(h, m, r);
      var a, b := (set n | n in e :: m[n].addr), (set n | n in r :: m[n].addr);
      assert a == b + {m[x].addr};
      SizePlus(b, m[x].addr);
    }
  }

  ghost function AddrsIn(h: Hashes, m: map<nat, Info>, net: Option<nat>, tried: bool): set<nat> {
    set n | n in Entries(h, m, net, tried) :: m[n].addr
  }

  lemma {:induction false} EntriesCount(h: Hashes, s: State, net: Option<nat>, tried: bool)
    requires Indexed(s)
    ensures |AddrsIn(h, s.mapInfo, net, tried)| == |Entries(h, s.mapInfo, net, tried)|
  {
    var e := Entries(h, s.mapInfo, net, tried);
    forall x, y | x in e && y in e && s.mapInfo[x].addr == s.mapInfo[y].addr ensures x == y { assert EntryAt(s, x) && EntryAt(s, y); }
    AddrsCount(h, s.mapInfo, e);
  }

  lemma {:induction false} AddrsInSame(h: Hashes, s: State, t: State, net: Option<nat>, tried: bool)
    requires Indexed(s) && Indexed(t) && SameAddrs(s, t)
    ensures AddrsIn(h, s.mapInfo, net, tried) <= AddrsIn(h, t.mapInfo, net, tried)
  {
    hide Indexed, SameAddrs;
    forall a | a in AddrsIn(h, s.mapInfo, net, tried) ensures a in AddrsIn(h, t.mapInfo, net, tried) {
      var n :| n in Entries(h, s.mapInfo, net, tried) && s.mapInfo[n].addr == a;
      EntryMoved(h, s, t, net, tried, n);
      var m := t.mapAddr[a];
      assert t.mapInfo[m].addr == a;
    }
  }

  /** The entry of the same address is among the same entries. */
  lemma {:induction false} EntryMoved(h: Hashes, s: State, t: State, net: Option<nat>, tried: bool, n: nat)
    requires Indexed(s) && Indexed(t) && SameAddrs(s, t) && n in Entries(h, s.mapInfo, net, tried) && n in s.mapInfo
    ensures var a := s.mapInfo[n].addr;
            a in t.mapAddr && t.mapAddr[a] in t.mapInfo && t.mapInfo[t.mapAddr[a]].addr == a && t.mapAddr[a] in Entries(h, t.mapInfo, net, tried)
  {
    var a := s.mapInfo[n].addr;
    assert EntryAt(s, n);
    assert AddrAt(t, a);
    assert SameEntry(s.mapInfo[n], t.mapInfo[t.mapAddr[a]]);
  }

  lemma {:induction false} SameAddrsSym(s: State, t: State)
    requires SameAddrs(s, t)
    ensures SameAddrs(t, s)
  {
    forall a | a in t.mapAddr ensures SameEntry(t.mapInfo[t.mapAddr[a]], s.mapInfo[s.mapAddr[a]]) {
      assert SameEntry(s.mapInfo[s.mapAddr[a]], t.mapInfo[t.mapAddr[a]]);
    }
  }

  lemma {:induction false} SameTally(h: Hashes, s: State, t: State, net: Option<nat>)
    requires Inv(h, s, {}, {}) && Inv(h, t, {}, {}) && SameAddrs(s, t)
    ensures Tally(t, net) == Tally(s, net)
  {
    hide Entries, AddrsIn, Indexed, SameAddrs, Placed, Referenced, Timed;
    SameAddrsSym(s, t);
    assert TallyAt(h, s, {}, net) && TallyAt(h, t, {}, net);
    assert Entries(h, s.mapInfo, net, false) - {} == Entries(h, s.mapInfo, net, false);
    assert Entries(h, t.mapInfo, net, false) - {} == Entries(h, t.mapInfo, net, false);
    SameCount(h, s, t, net, false);
    SameCount(h, s, t, net, true);
  }

  lemma {:induction false} SameCount(h: Hashes, s: State, t: State, net: Option<nat>, tried: bool)
    requires Indexed(s) && Indexed(t) && SameAddrs(s, t)
    ensures |Entries(h, s.mapInfo, net, tried)| == |Entries(h, t.mapInfo, net, tried)|
  {
    hide Entries, AddrsIn, Indexed, SameAddrs;
    SameAddrsSym(s, t);
    EntriesCount(h, s, net, tried);
    EntriesCount(h, t, net, tried);
    AddrsInSame(h, s, t, net, tried);
    AddrsInSame(h, t, s, net, tried);
    assert AddrsIn(h, s.mapInfo, net, tried) == AddrsIn(h, t.mapInfo, net, tried);
  }

  lemma {:induction false} SameTried(h: Hashes, s: State, t: State)
    requires Inv(h, s, {}, {}) && Inv(h, t, {}, {}) && SameAddrs(s, t)
    ensures SameSlots(s, t, s.vvTried, t.vvTried)
  {
    hide Inv, SameAddrs;
    SameAddrsSym(s, t);
    forall p | p in s.vvTried
      ensures p in t.vvTried && s.vvTried[p] in s.mapInfo && t.vvTried[p] in t.mapInfo && t.mapInfo[t.vvTried[p]].addr == s.mapInfo[s.vvTried[p]].addr
    {
      TriedThere(h, s, t, p);
    }
    forall p | p in t.vvTried ensures p in s.vvTried { TriedThere(h, t, s, p); }
  }

  lemma {:induction false} TriedThere(h: Hashes, s: State, t: State, p: Slot)
    requires Inv(h, s, {}, {}) && Inv(h, t, {}, {}) && SameAddrs(s, t) && p in s.vvTried
    ensures p in t.vvTried && s.vvTried[p] in s.mapInfo && t.vvTried[p] in t.mapInfo && t.mapInfo[t.vvTried[p]].addr == s.mapInfo[s.vvTried[p]].addr
  {
    TriedEntry(h, s, {}, {}, p);
    var n := s.vvTried[p];
    assert EntryAt(s, n);
    var a := s.mapInfo[n].addr;
    var m := t.mapAddr[a];
    assert AddrAt(t, a);
    assert SameEntry(s.mapInfo[n], t.mapInfo[m]);
    assert TriedHas(h, t, m);
  }

  /** all lists the saved entries of both, the first m of them the new ones. */
  ghost predicate Combined(s: State, both: seq<nat>, all: seq<Saved>, m: nat) {
    |all| == |both| && Distinct(both) && forall i :: 0 <= i < |both| ==> CombinedAt(s, both, all, m, i)
  }

  ghost predicate CombinedAt(s: State, both: seq<nat>, all: seq<Saved>, m: nat, i: nat)
    requires i < |both| == |all|
  {
    both[i] in s.mapInfo && all[i] == Save(s.mapInfo[both[i]]) && (i < m <==> !s.mapInfo[both[i]].inTried)
  }

  lemma {:induction false} BothLists(h: Hashes, s: State, order: seq<nat>, f: File)
    requires Inv(h, s, {}, {}) && Writes(s, order, f)
    ensures (forall n :: n in order ==> n in s.mapInfo) && |f.newEntries| == |Chosen(s, order, false)|
    ensures Combined(s, Chosen(s, order, false) + Chosen(s, order, true), f.newEntries + f.triedEntries, |f.newEntries|)
  {
    hide Inv, Chosen;
    ChosenListing(h, s, order);
    var ids, tried := Chosen(s, order, false), Chosen(s, order, true);
    var both, all := ids + tried, f.newEntries + f.triedEntries;
    forall i | 0 <= i < |both| ensures CombinedAt(s, both, all, |f.newEntries|, i) {
      assert i < |ids| ==> both[i] == ids[i] && ids[i] in ids;
      assert i >= |ids| ==> both[i] == tried[i - |ids|] && tried[i - |ids|] in tried;
    }
    assert SetOf(ids) !! SetOf(tried);
    DistinctConcat(ids, tried);
  }

  lemma {:induction false} CombinedFacts(h: Hashes, s: State, both: seq<nat>, all: seq<Saved>, m: nat)
    requires Inv(h, s, {}, {}) && Combined(s, both, all, m)
    ensures DistinctAddrs(all)
    ensures forall i :: 0 <= i < |all| ==> all[i].lastSuccess >= 0 && (i >= m ==> all[i].lastSuccess > 0)
    ensures forall i, j :: m <= i < j < |all| ==> TriedSlot(h, all[i].addr) != TriedSlot(h, all[j].addr)
  {
    hide Inv;
    forall i, j | 0 <= i < j < |all| ensures all[i].addr != all[j].addr {
      assert CombinedAt(s, both, all, m, i) && CombinedAt(s, both, all, m, j);
      AddrOf(h, s, both[i]);
      AddrOf(h, s, both[j]);
    }
    forall i | 0 <= i < |all| ensures all[i].lastSuccess >= 0 && (i >= m ==> all[i].lastSuccess > 0) {
      assert CombinedAt(s, both, all, m, i);
      EntryFacts(h, s, {}, {}, both[i]);
    }
    forall i, j | m <= i < j < |all| ensures TriedSlot(h, all[i].addr) != TriedSlot(h, all[j].addr) {
      assert CombinedAt(s, both, all, m, i) && CombinedAt(s, both, all, m, j);
      TriedPlace(h, s, both[i]);
      TriedPlace(h, s, both[j]);
    }
  }

  /** What a state writes, as lists without repetition. */
  lemma {:induction false} WrittenLists(h: Hashes, s: State, order: seq<nat>, f: File)
    requires Inv(h, s, {}, {}) && Writes(s, order, f)
    ensures DistinctAddrs(f.newEntries + f.triedEntries) && DistinctAddrs(f.newEntries) && OwnPlaces(h, f.triedEntries)
    ensures forall i :: 0 <= i < |f.newEntries| ==> f.newEntries[i].lastSuccess >= 0
    ensures forall i :: 0 <= i < |f.triedEntries| ==> f.triedEntries[i].lastSuccess > 0
  {
    hide Inv, Chosen, Writes, Combined;
    BothLists(h, s, order, f);
    var all, m := f.newEntries + f.triedEntries, |f.newEntries|;
    CombinedFacts(h, s, Chosen(s, order, false) + Chosen(s, order, true), all, m);
    assert forall i :: 0 <= i < m ==> all[i] == f.newEntries[i];
    forall i | 0 <= i < |f.triedEntries| ensures f.triedEntries[i].lastSuccess > 0 { assert all[m + i] == f.triedEntries[i]; }
    forall i, j | 0 <= i < j < |f.triedEntries| ensures TriedSlot(h, f.triedEntries[i].addr) != TriedSlot(h, f.triedEntries[j].addr) {
      assert all[m + i] == f.triedEntries[i] && all[m + j] == f.triedEntries[j];
    }
  }

  lemma {:induction false} TriedPlace(h: Hashes, s: State, n: nat)
    requires Inv(h, s, {}, {}) && n in s.mapInfo && s.mapInfo[n].inTried
    ensures TriedSlot(h, s.mapInfo[n].addr) in s.vvTried && s.vvTried[TriedSlot(h, s.mapInfo[n].addr)] == n
  {
    assert TriedHas(h, s, n);
  }

  lemma {:induction false} StartReferences(h: Hashes, s: State, order: seq<nat>, f: File, t: State, slots: seq<Slot>)
    requires Inv(h, s, {}, {}) && Writes(s, order, f) && TriedLoaded(h, t, f.newEntries, f.triedEntries, |f.triedEntries|)
    ensures (forall n :: n in order ==> n in s.mapInfo) && Matches(s, Chosen(s, order, false), t) && RefsLoaded(h, s, Chosen(s, order, false), slots, t, t, 0)
  {
    hide Inv, Chosen;
    ChosenListing(h, s, order);
    var ids := Chosen(s, order, false);
    forall i | 0 <= i < |ids| ensures ids[i] in s.mapInfo && t.mapInfo[i].addr == s.mapInfo[ids[i]].addr && !t.mapInfo[i].inTried { assert ids[i] in ids; }
    hide Writes;
    NoReferencesYet(h, s, ids, f, t, slots);
  }

  lemma {:induction false} NoReferencesYet(h: Hashes, s: State, ids: seq<nat>, f: File, t: State, slots: seq<Slot>)
    requires TriedLoaded(h, t, f.newEntries, f.triedEntries, |f.triedEntries|) && |ids| == |f.newEntries|
    ensures RefsLoaded(h, s, ids, slots, t, t, 0)
  {
    hide Inv;
    assert Unreferenced(t, |ids|) == Below(|ids|);
    assert slots[..0] == [];
  }

  /** With all slots filled, every new entry has its references back. */
  lemma {:induction false} AllReferenced(h: Hashes, s: State, ids: seq<nat>, slots: seq<Slot>, t0: State, t: State, i: nat)
    requires Inv(h, s, {}, {}) && Matches(s, ids, t0) && RefsLoaded(h, s, ids, slots, t0, t, |slots|) && i < |ids|
    requires (forall p :: p in slots <==> p in s.vvNew) && forall n :: n in ids ==> n in s.mapInfo && !s.mapInfo[n].inTried
    ensures i in t.mapInfo && t.mapInfo[i].refCount == s.mapInfo[ids[i]].refCount > 0
  {
    hide Inv;
    assert ids[i] in ids && i in Below(|ids|);
    assert slots[..|slots|] == slots;
    EntryFacts(h, s, {}, {}, ids[i]);
    EntryFacts(h, t, Unreferenced(t, |ids|), {}, i);
    assert Slots(t.vvNew, i) == Slots(s.vvNew, ids[i]) by {
      forall p ensures p in Slots(t.vvNew, i) <==> p in Slots(s.vvNew, ids[i]) {}
    }
  }

  /** The loaded state is in order: every new entry has references, so none is pruned. */
  lemma {:induction false} LoadedInOrder(h: Hashes, s: State, ids: seq<nat>, slots: seq<Slot>, t0: State, t: State)
    requires Inv(h, s, {}, {}) && Matches(s, ids, t0) && RefsLoaded(h, s, ids, slots, t0, t, |slots|)
    requires (forall p :: p in slots <==> p in s.vvNew) && forall n :: n in ids ==> n in s.mapInfo && !s.mapInfo[n].inTried
    ensures Inv(h, t, {}, {}) && forall i :: 0 <= i < |ids| ==> i in t.mapInfo && t.mapInfo[i].refCount == s.mapInfo[ids[i]].refCount
  {
    hide Inv, Matches;
    forall i | 0 <= i < |ids| ensures i in t.mapInfo && t.mapInfo[i].refCount == s.mapInfo[ids[i]].refCount > 0 {
      AllReferenced(h, s, ids, slots, t0, t, i);
    }
    assert Unreferenced(t, |ids|) == {};
  }

  /** Entry i of the loaded state is the i-th saved one. */
  ghost predicate LoadedAt(s: State, both: seq<nat>, t: State, i: nat)
    requires i < |both|
  {
    both[i] in s.mapInfo && i in t.mapInfo && SameEntry(s.mapInfo[both[i]], t.mapInfo[i])
  }

  lemma {:induction false} LoadedSame(h: Hashes, s: State, both: seq<nat>, t: State)
    requires Inv(h, s, {}, {}) && Inv(h, t, {}, {}) && SetOf(both) == s.mapInfo.Keys && t.mapInfo.Keys == Below(|both|)
    requires forall i :: 0 <= i < |both| ==> LoadedAt(s, both, t, i)
    ensures SameAddrs(s, t)
  {
    hide Inv;
    forall a | a in s.mapAddr
      ensures a in t.mapAddr && s.mapAddr[a] in s.mapInfo && t.mapAddr[a] in t.mapInfo && SameEntry(s.mapInfo[s.mapAddr[a]], t.mapInfo[t.mapAddr[a]])
    {
      AddrOfEntry(h, s, {}, {}, a);
      var n := s.mapAddr[a];
      assert n in SetOf(both);
      var i :| 0 <= i < |both| && both[i] == n;
      assert LoadedAt(s, both, t, i);
      AddrOf(h, t, i);
    }
    forall a | a in t.mapAddr ensures a in s.mapAddr {
      AddrOfEntry(h, t, {}, {}, a);
      var i := t.mapAddr[a];
      assert LoadedAt(s, both, t, i);
      AddrOf(h, s, both[i]);
    }
  }

  lemma {:induction false} AllSlotsListed(h: Hashes, s: State)
    requires Inv(h, s, {}, {}) && PositionsOk(h)
    ensures Distinct(AllSlots(s.vvNew, NEW_BUCKETS)) && forall p :: p in AllSlots(s.vvNew, NEW_BUCKETS) <==> p in s.vvNew
  {
    hide Inv, AllSlots;
    AllSlotsProps(s.vvNew, NEW_BUCKETS);
    forall p | p in s.vvNew ensures p in AllSlots(s.vvNew, NEW_BUCKETS) { SlotEntry(h, s, {}, {}, p); }
  }

  /** The state before references are loaded. */
  ghost function Unplaced(h: Hashes, f: File, valid: nat -> bool): State {
    LoadedTried(h, LoadedNew(h, f.newEntries, |f.newEntries|), f.triedEntries, valid, |f.triedEntries|)
  }

  lemma {:induction false} UnplacedOk(h: Hashes, s: State, order: seq<nat>, f: File, valid: nat -> bool)
    requires Inv(h, s, {}, {}) && Writes(s, order, f) && forall i :: 0 <= i < |f.triedEntries| ==> valid(f.triedEntries[i].addr)
    ensures TriedLoaded(h, Unplaced(h, f, valid), f.newEntries, f.triedEntries, |f.triedEntries|)
  {
    hide Inv, Writes, TriedLoaded, NewLoaded, LoadedNew, LoadedTried, DistinctAddrs, OwnPlaces;
    WrittenLists(h, s, order, f);
    LoadedNewOk(h, f.newEntries, |f.newEntries|);
    NewThenTried(h, LoadedNew(h, f.newEntries, |f.newEntries|), f.newEntries, f.triedEntries);
    LoadedTriedOk(h, LoadedNew(h, f.newEntries, |f.newEntries|), f.newEntries, f.triedEntries, valid, |f.triedEntries|);
  }

  lemma {:induction false} SavedValid(h: Hashes, s: State, order: seq<nat>, f: File, valid: nat -> bool)
    requires Inv(h, s, {}, {}) && Writes(s, order, f) && forall n :: n in s.mapInfo ==> valid(s.mapInfo[n].addr)
    ensures (forall n :: n in order ==> n in s.mapInfo) && AllValid(s, Chosen(s, order, false), valid)
    ensures forall i :: 0 <= i < |f.triedEntries| ==> valid(f.triedEntries[i].addr)
  {
    hide Inv, Chosen;
    ChosenListing(h, s, order);
    var ids, tried := Chosen(s, order, false), Chosen(s, order, true);
    forall i | 0 <= i < |ids| ensures ids[i] in s.mapInfo && valid(s.mapInfo[ids[i]].addr) { assert ids[i] in ids; }
    forall i | 0 <= i < |f.triedEntries| ensures valid(f.triedEntries[i].addr) { assert tried[i] in tried; }
  }

  lemma {:induction false} LoadedKeys(h: Hashes, news: seq<Saved>, list: seq<Saved>, t0: State, t: State)
    requires TriedLoaded(h, t0, news, list, |list|) && OnlyReferences(t0, t, |news|)
    ensures t.mapInfo.Keys == Below(|news + list|)
  {
    hide Inv, Below, Restored;
  }

  lemma {:induction false} EntryBack(h: Hashes, s: State, both: seq<nat>, news: seq<Saved>, list: seq<Saved>, t0: State, t: State, i: nat)
    requires Inv(h, s, {}, {}) && Inv(h, t, {}, {}) && TriedLoaded(h, t0, news, list, |list|) && OnlyReferences(t0, t, |news|)
    requires i < |both| == |news + list| && CombinedAt(s, both, news + list, |news|, i)
    requires i < |news| ==> i in t.mapInfo && t.mapInfo[i].refCount == s.mapInfo[both[i]].refCount
    ensures LoadedAt(s, both, t, i)
  {
    hide Inv;
    assert i in Below(|both|);
    EntryFacts(h, t, {}, {}, i);
    EntryFacts(h, s, {}, {}, both[i]);
  }

  /** All entries are back with their data and references. */
  lemma {:induction false} EntriesBack(h: Hashes, s: State, order: seq<nat>, f: File, t0: State, t: State)
    requires Inv(h, s, {}, {}) && Inv(h, t, {}, {}) && Writes(s, order, f) && TriedLoaded(h, t0, f.newEntries, f.triedEntries, |f.triedEntries|)
    requires (forall n :: n in order ==> n in s.mapInfo) && OnlyReferences(t0, t, |Chosen(s, order, false)|)
    requires var ids := Chosen(s, order, false);
             forall i :: 0 <= i < |ids| ==> i in t.mapInfo && ids[i] in s.mapInfo && t.mapInfo[i].refCount == s.mapInfo[ids[i]].refCount
    ensures SameAddrs(s, t)
  {
    hide Inv, Chosen, Writes, SameAddrs;
    ChosenListing(h, s, order) by { WritesEnumerates(s, order, f); }
    BothLists(h, s, order, f);
    var ids, tried := Chosen(s, order, false), Chosen(s, order, true);
    var both, all := ids + tried, f.newEntries + f.triedEntries;
    hide TriedLoaded, OnlyReferences, LoadedAt, CombinedAt;
    forall i | 0 <= i < |both| ensures LoadedAt(s, both, t, i) {
      assert CombinedAt(s, both, all, |f.newEntries|, i);
      assert i < |ids| ==> both[i] == ids[i];
      EntryBack(h, s, both, f.newEntries, f.triedEntries, t0, t, i);
    }
    forall n ensures n in SetOf(both) <==> n in s.mapInfo.Keys {}
    LoadedKeys(h, f.newEntries, f.triedEntries, t0, t);
    LoadedSame(h, s, both, t);
  }

  lemma {:induction false} WritesEnumerates(s: State, order: seq<nat>, f: File)
    requires Writes(s, order, f)
    ensures Enumerates(s, order) && (forall n :: n in order ==> n in s.mapInfo)
    ensures var ids := Chosen(s, order, false);
            && Listing(s, ids) && |f.newEntries| == |ids| && |f.buckets| == NEW_BUCKETS
            && forall c :: 0 <= c < |f.buckets| ==> Bucketed(s, ids, f.buckets, c)
  {
    hide Chosen, Bucketed;
  }

  lemma {:induction false} SlotsBack(h: Hashes, s: State, ids: seq<nat>, slots: seq<Slot>, t0: State, t: State)
    requires Inv(h, s, {}, {}) && Inv(h, t, {}, {}) && Matches(s, ids, t0) && OnlyReferences(t0, t, |ids|) && SlotsLoaded(s, ids, slots, t.vvNew, |slots|)
    requires forall p :: p in slots <==> p in s.vvNew
    ensures SameSlots(s, t, s.vvNew, t.vvNew)
  {
    hide Inv;
    assert slots[..|slots|] == slots;
    assert t.vvNew.Keys == s.vvNew.Keys;
    forall p | p in s.vvNew ensures s.vvNew[p] in s.mapInfo && t.vvNew[p] in t.mapInfo && t.mapInfo[t.vvNew[p]].addr == s.mapInfo[s.vvNew[p]].addr {
      SlotEntry(h, s, {}, {}, p);
      SlotEntry(h, t, {}, {}, p);
      assert p in t.vvNew;
    }
  }

  /** Loading what was saved, with unchanged bucketing, gives the same contents up to a renaming
      of the identifiers, and a consistent state. */
  lemma {:induction false} RoundTrip(h: Hashes, s: State, order: seq<nat>, f: File, valid: nat -> bool)
    requires Consistent(h, s) && PositionsOk(h) && Writes(s, order, f) && forall n :: n in s.mapInfo ==> valid(s.mapInfo[n].addr)
    ensures Consistent(h, Loaded(h, f, true, valid)) && SameContents(s, Loaded(h, f, true, valid))
  {
    hide *;
    ConsistentInv(h, s);
    WritesEnumerates(s, order, f);
    SavedValid(h, s, order, f, valid);
    ChosenListing(h, s, order);
    var ids, slots, refs := Chosen(s, order, false), AllSlots(s.vvNew, NEW_BUCKETS), References(f, |f.buckets|);
    var t0 := Unplaced(h, f, valid);
    UnplacedOk(h, s, order, f, valid);
    AllSlotsListed(h, s);
    ReferencesAre(s, ids, f, NEW_BUCKETS);
    StartReferences(h, s, order, f, t0, slots);
    LoadedReferencesOk(h, s, ids, slots, refs, t0, |slots|, valid);
    var t := LoadedReferences(h, t0, refs, true, valid, |refs|);
    LoadedInOrder(h, s, ids, slots, t0, t);
    LoadedParts(h, s, ids, slots, t0, t);
    EntriesBack(h, s, order, f, t0, t);
    SlotsBack(h, s, ids, slots, t0, t);
    SameTried(h, s, t);
    forall net ensures Tally(t, net) == Tally(s, net) { SameTally(h, s, t, net); }
    ContentsPack(h, s, f, t0, t);
    LoadedIs(h, f, valid);
  }

  lemma {:induction false} LoadedIs(h: Hashes, f: File, valid: nat -> bool)
    requires |f.buckets| == NEW_BUCKETS
    ensures var refs := References(f, |f.buckets|);
            Loaded(h, f, true, valid) == LoadedReferences(h, Unplaced(h, f, valid), refs, true, valid, |refs|)
  {
    hide References, LoadedReferences, Unplaced;
  }

  lemma {:induction false} ConsistentInv(h: Hashes, s: State)
    requires Consistent(h, s)
    ensures Inv(h, s, {}, {})
  {
  }

  lemma {:induction false} LoadedParts(h: Hashes, s: State, ids: seq<nat>, slots: seq<Slot>, t0: State, t: State)
    requires RefsLoaded(h, s, ids, slots, t0, t, |slots|)
    ensures OnlyReferences(t0, t, |ids|) && SlotsLoaded(s, ids, slots, t.vvNew, |slots|) && t.collisions == t0.collisions
  {
    hide Inv;
  }

  lemma {:induction false} ContentsPack(h: Hashes, s: State, f: File, t0: State, t: State)
    requires Inv(h, t, {}, {}) && TriedLoaded(h, t0, f.newEntries, f.triedEntries, |f.triedEntries|) && t.collisions == t0.collisions
    requires SameAddrs(s, t) && SameSlots(s, t, s.vvNew, t.vvNew) && SameSlots(s, t, s.vvTried, t.vvTried) && forall net :: Tally(t, net) == Tally(s, net)
    ensures Consistent(h, t) && SameContents(s, t)
  {
    hide Inv, SameAddrs, SameSlots, Tally;
  }
}

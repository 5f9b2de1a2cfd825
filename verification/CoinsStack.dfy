/** A stack of coin caches over a database (src/coins.cpp:58-161, 196-235, 250-370): every level
    shows a plain map from keys to data. */
module CoinsStacks {
  import opened Options
  import opened Sets
  import opened Coins
  import opened CoinsFlush

  /** The database, and the caches on top of it, from the bottom up. */
  datatype Views = Views(db: map<Key, Data>, caches: seq<Cache>)

  ghost predicate DbOk(db: map<Key, Data>) {
    forall k :: k in db ==> if Native(k) then db[k].Unspent? && db[k].coin.Coin? else db[k].PeginUsed?
  }

  /** What the view at level n shows: level 0 is the database, level n the n-th cache. */
  ghost function See(v: Views, n: nat, k: Key): Data
    requires n <= |v.caches|
  {
    if n == 0 then (if k in v.db then v.db[k] else Absent)
    else Shown(k, Get(v.caches[n - 1].entries, k), See(v, n - 1, k))
  }

  /** Cache c is in order over what level m shows. */
  ghost predicate Fits(v: Views, m: nat, c: Cache)
    requires m <= |v.caches|
  {
    Linked(c) && forall k :: MaybeOk(k, Get(c.entries, k), See(v, m, k))
  }

  ghost predicate Valid(v: Views) {
    DbOk(v.db) && forall m :: 0 <= m < |v.caches| ==> Fits(v, m, v.caches[m])
  }

  /** The same levels, showing the same. */
  ghost predicate SameViews(v: Views, w: Views) {
    |w.caches| == |v.caches| && forall n, k :: 0 <= n <= |v.caches| ==> See(w, n, k) == See(v, n, k)
  }

  // ---------- levels that do not change ----------

  lemma {:induction false} SeeBelow(v: Views, w: Views, n: nat, k: Key)
    requires n <= |v.caches| && n <= |w.caches| && w.db == v.db && forall i :: 0 <= i < n ==> w.caches[i] == v.caches[i]
    ensures See(w, n, k) == See(v, n, k)
  {
    if n > 0 { SeeBelow(v, w, n - 1, k); }
  }

  /** Levels above an unchanged view show the same, if their own caches are the same. */
  lemma {:induction false} SeeAbove(v: Views, w: Views, m: nat, n: nat, k: Key)
    requires m <= n <= |v.caches| == |w.caches| && See(w, m, k) == See(v, m, k) && forall i :: m <= i < n ==> w.caches[i] == v.caches[i]
    ensures See(w, n, k) == See(v, n, k)
  {
    if n > m { SeeAbove(v, w, m, n - 1, k); }
  }

  /** A well-formed value for the key. */
  ghost predicate Typed(k: Key, d: Data) {
    if Native(k) then d == Absent || (d.Unspent? && d.coin.Coin?) else d == Absent || d == PeginUsed
  }

  lemma {:induction false} SeeTyped(v: Views, n: nat, k: Key)
    requires DbOk(v.db) && n <= |v.caches|
    ensures Typed(k, See(v, n, k))
  {
    if n > 0 { SeeTyped(v, n - 1, k); }
  }

  ghost predicate SameAt(v: Views, w: Views, m: nat)
    requires m <= |v.caches| && m <= |w.caches|
  {
    forall k :: See(w, m, k) == See(v, m, k)
  }

  lemma {:induction false} CacheStays(v: Views, w: Views, m: nat, c: Cache)
    requires m <= |v.caches| && m <= |w.caches| && Fits(v, m, c) && SameAt(v, w, m)
    ensures Fits(w, m, c)
  {
    hide See, Linked, MaybeOk;
    forall k ensures MaybeOk(k, Get(c.entries, k), See(w, m, k)) {
      assert MaybeOk(k, Get(c.entries, k), See(v, m, k));
    }
  }

  ghost function With(v: Views, n: nat, c: Cache): Views
    requires 0 < n <= |v.caches|
  {
    v.(caches := v.caches[n - 1 := c])
  }

  lemma {:induction false} WithBelow(v: Views, n: nat, c: Cache, m: nat, k: Key)
    requires 0 < n <= |v.caches| && m < n
    ensures See(With(v, n, c), m, k) == See(v, m, k)
  {
    SeeBelow(v, With(v, n, c), m, k);
  }

  lemma {:induction false} WithAt(v: Views, n: nat, c: Cache, k: Key)
    requires 0 < n <= |v.caches|
    ensures See(With(v, n, c), n, k) == Shown(k, Get(c.entries, k), See(v, n - 1, k))
  {
    WithBelow(v, n, c, n - 1, k);
  }

  /** Cache c over level m shows what level n shows. */
  ghost predicate ShowsAs(v: Views, m: nat, c: Cache, w: Views, n: nat)
    requires m <= |v.caches| && n <= |w.caches|
  {
    forall k :: Shown(k, Get(c.entries, k), See(v, m, k)) == See(w, n, k)
  }

  /** Replacing a cache by one that shows the same: no view changes. */
  lemma {:induction false} ReplaceCache(v: Views, n: nat, c: Cache)
    requires Valid(v) && 0 < n <= |v.caches| && Fits(v, n - 1, c) && ShowsAs(v, n - 1, c, v, n)
    ensures Valid(With(v, n, c)) && SameViews(v, With(v, n, c))
  {
    hide Shown, Get, Linked, MaybeOk, See;
    var w := With(v, n, c);
    forall m, k | 0 <= m <= |v.caches| ensures See(w, m, k) == See(v, m, k) {
      if m < n {
        WithBelow(v, n, c, m, k);
      } else {
        WithAt(v, n, c, k);
        SeeAbove(v, w, n, m, k);
      }
    }
    forall m | 0 <= m < |v.caches| ensures Fits(w, m, w.caches[m]) {
      CacheStays(v, w, m, w.caches[m]);
    }
  }

  /** Replacing the topmost cache: only its own view changes. */
  lemma {:induction false} ReplaceTop(v: Views, n: nat, c: Cache)
    requires Valid(v) && 0 < n == |v.caches| && Fits(v, n - 1, c)
    ensures Valid(With(v, n, c)) && ShowsAs(v, n - 1, c, With(v, n, c), n)
    ensures forall m :: 0 <= m < n ==> SameAt(v, With(v, n, c), m)
  {
    hide Shown, Get, Linked, MaybeOk, See;
    var w := With(v, n, c);
    forall m | 0 <= m < n ensures SameAt(v, w, m) {
      forall k ensures See(w, m, k) == See(v, m, k) { WithBelow(v, n, c, m, k); }
    }
    forall k ensures See(w, n, k) == Shown(k, Get(c.entries, k), See(v, n - 1, k)) { WithAt(v, n, c, k); }
    forall m | 0 <= m < |v.caches| ensures Fits(w, m, w.caches[m]) {
      CacheStays(v, w, m, w.caches[m]);
    }
  }

  // ---------- changing one entry ----------

  lemma {:induction false} PutFits(v: Views, n: nat, k: Key, e: Entry)
    requires Valid(v) && 0 < n <= |v.caches| && EntryOk(k, e, See(v, n - 1, k))
    requires var c := v.caches[n - 1]; k in c.entries && Flagged(c.entries[k]) ==> Flagged(e)
    ensures Fits(v, n - 1, Put(v.caches[n - 1], k, e))
  {
    var c, m := v.caches[n - 1], n - 1;
    assert Fits(v, m, c);
    PutLinked(c, k, e);
    hide See, EntryOk, Linked;
    forall x ensures MaybeOk(x, Get(Put(c, k, e).entries, x), See(v, m, x)) {
      assert MaybeOk(x, Get(c.entries, x), See(v, m, x));
    }
  }

  lemma {:induction false} EraseFits(v: Views, n: nat, k: Key)
    requires Valid(v) && 0 < n <= |v.caches|
    ensures Fits(v, n - 1, Erase(v.caches[n - 1], k))
  {
    var c, m := v.caches[n - 1], n - 1;
    assert Fits(v, m, c);
    EraseLinked(c, k);
    hide See, EntryOk, Linked;
    forall x ensures MaybeOk(x, Get(Erase(c, k).entries, x), See(v, m, x)) {
      assert MaybeOk(x, Get(c.entries, x), See(v, m, x));
    }
  }

  /** The plain-map operation that changing one entry of the topmost cache amounts to. */
  ghost predicate Updated(v: Views, w: Views, n: nat, key: Key, d: Data)
    requires n <= |v.caches|
  {
    && |w.caches| == |v.caches| && (forall m :: 0 <= m < n ==> SameAt(v, w, m))
    && forall k :: See(w, n, k) == if k == key then d else See(v, n, k)
  }

  lemma {:induction false} PutTop(v: Views, n: nat, k: Key, e: Entry)
    requires Valid(v) && 0 < n == |v.caches| && EntryOk(k, e, See(v, n - 1, k))
    requires var c := v.caches[n - 1]; k in c.entries && Flagged(c.entries[k]) ==> Flagged(e)
    ensures var w := With(v, n, Put(v.caches[n - 1], k, e)); Valid(w) && Updated(v, w, n, k, Stored(k, e))
  {
    var c := Put(v.caches[n - 1], k, e);
    PutFits(v, n, k, e);
    ReplaceTop(v, n, c);
    hide EntryOk, Stored, Valid;
    var w := With(v, n, c);
    forall x ensures See(w, n, x) == if x == k then Stored(k, e) else See(v, n, x) {
      assert Shown(x, Get(c.entries, x), See(v, n - 1, x)) == See(w, n, x);
    }
  }

  lemma {:induction false} EraseTop(v: Views, n: nat, k: Key)
    requires Valid(v) && 0 < n == |v.caches|
    ensures var w := With(v, n, Erase(v.caches[n - 1], k)); Valid(w) && Updated(v, w, n, k, See(v, n - 1, k))
  {
    var c := Erase(v.caches[n - 1], k);
    EraseFits(v, n, k);
    ReplaceTop(v, n, c);
    hide EntryOk, Stored, Valid;
    var w := With(v, n, c);
    forall x ensures See(w, n, x) == if x == k then See(v, n - 1, k) else See(v, n, x) {
      assert Shown(x, Get(c.entries, x), See(v, n - 1, x)) == See(w, n, x);
    }
  }

  /** Storing or dropping an entry that agrees with the level below: no view changes. */
  lemma {:induction false} PutSame(v: Views, n: nat, k: Key, e: Entry)
    requires Valid(v) && 0 < n <= |v.caches| && EntryOk(k, e, See(v, n - 1, k)) && k !in v.caches[n - 1].entries && !e.isDirty
    ensures var w := With(v, n, Put(v.caches[n - 1], k, e)); Valid(w) && SameViews(v, w)
  {
    var c := Put(v.caches[n - 1], k, e);
    PutFits(v, n, k, e);
    assert Stored(k, e) == See(v, n - 1, k);
    hide EntryOk, Stored, Valid;
    forall x ensures Shown(x, Get(c.entries, x), See(v, n - 1, x)) == See(v, n, x) {}
    ReplaceCache(v, n, c);
  }

  lemma {:induction false} EraseSame(v: Views, n: nat, k: Key)
    requires Valid(v) && 0 < n <= |v.caches| && k in v.caches[n - 1].entries && !v.caches[n - 1].entries[k].isDirty
    ensures var w := With(v, n, Erase(v.caches[n - 1], k)); Valid(w) && SameViews(v, w)
  {
    var c, o, m := Erase(v.caches[n - 1], k), v.caches[n - 1], n - 1;
    EraseFits(v, n, k);
    assert Fits(v, m, o);
    assert MaybeOk(k, Get(o.entries, k), See(v, m, k));
    assert See(v, m, k) == Stored(k, o.entries[k]);
    hide EntryOk, Stored, Valid;
    forall x ensures Shown(x, Get(c.entries, x), See(v, n - 1, x)) == See(v, n, x) {}
    ReplaceCache(v, n, c);
  }

  // ---------- reading, which may fill caches ----------

  /** Only caches up to level n may have got entries; no view changed. */
  ghost predicate Filled(v: Views, w: Views, n: nat) {
    && SameViews(v, w) && w.db == v.db
    && (forall i :: 0 <= i < |v.caches| ==> w.caches[i].hashBlock == v.caches[i].hashBlock)
    && (forall i :: n <= i < |v.caches| ==> w.caches[i] == v.caches[i])
  }

  lemma {:induction false} FilledTrans(u: Views, v: Views, w: Views, m: nat, n: nat)
    requires Filled(u, v, m) && Filled(v, w, n) && m <= n
    ensures Filled(u, w, n)
  {
    hide See;
    forall i, k | 0 <= i <= |u.caches| ensures See(w, i, k) == See(u, i, k) { assert See(v, i, k) == See(u, i, k); }
    forall i | 0 <= i < |u.caches| ensures w.caches[i].hashBlock == u.caches[i].hashBlock {
      assert v.caches[i].hashBlock == u.caches[i].hashBlock;
    }
    forall i | n <= i < |u.caches| ensures w.caches[i] == u.caches[i] { assert v.caches[i] == u.caches[i]; }
  }

  lemma {:induction false} FilledSelf(v: Views, n: nat)
    ensures Filled(v, v, n)
  {
  }

  /** Adding an entry that agrees with the level below. */
  lemma {:induction false} FillEntry(u: Views, v: Views, n: nat, k: Key, e: Entry)
    requires 0 < n <= |v.caches| && Filled(u, v, n - 1) && Valid(v)
    requires EntryOk(k, e, See(v, n - 1, k)) && k !in v.caches[n - 1].entries && !e.isDirty
    ensures var w := With(v, n, Put(v.caches[n - 1], k, e)); Valid(w) && Filled(u, w, n)
  {
    PutSame(v, n, k, e);
    hide See, Valid, EntryOk;
    FilledTrans(u, v, With(v, n, Put(v.caches[n - 1], k, e)), n - 1, n);
  }

  ghost function CoinOf(d: Data): Option<Coin> { if d.Unspent? then Some(d.coin) else None }

  lemma {:induction false} OwnEntry(v: Views, n: nat, k: Key)
    requires Valid(v) && 0 < n <= |v.caches| && k in v.caches[n - 1].entries
    ensures var e := v.caches[n - 1].entries[k]; See(v, n, k) == Stored(k, e) && EntryOk(k, e, See(v, n - 1, k))
  {
    var c, m := v.caches[n - 1], n - 1;
    assert Fits(v, m, c);
    assert MaybeOk(k, Get(c.entries, k), See(v, m, k));
  }

  lemma {:induction false} FetchedOk(v: Views, n: nat, k: Key, coin: Coin)
    requires DbOk(v.db) && n <= |v.caches| && Native(k) && See(v, n, k) == Unspent(coin)
    ensures coin.Coin? && EntryOk(k, Entry(coin, false, false, false, false), See(v, n, k))
  {
    SeeTyped(v, n, k);
  }

  lemma {:induction false} NoEntry(v: Views, n: nat, k: Key)
    requires 0 < n <= |v.caches| && k !in v.caches[n - 1].entries
    ensures See(v, n, k) == See(v, n - 1, k)
  {
  }

  class CoinsStack {
    var db: map<Key, Data>
    var dbBest: nat
    var caches: seq<Cache>

    ghost function V(): Views
      reads this`db, this`caches
    {
      Views(db, caches)
    }

    /** CCoinsView::GetCoin at level n; reading a cache may fill it and those below. */
    method GetCoin(n: nat, outpoint: nat) returns (coin: Option<Coin>)
      requires Valid(V()) && n <= |caches|
      modifies this`caches
      ensures Valid(V()) && Filled(old(V()), V(), n)
      ensures coin == CoinOf(See(old(V()), n, NativeKey(outpoint)))
      decreases n, 1
    {
      hide See, Valid, Filled, EntryOk, Stored;
      ghost var key := NativeKey(outpoint);
      if n == 0 {
        coin := ReadDb(outpoint);
        FilledSelf(V(), 0);
        return;
      }
      var found := FetchCoin(n, outpoint);
      FilledSees(old(V()), V(), n, n, key);
      if found {
        OwnEntry(V(), n, key);
        coin := UnspentCoin(caches[n - 1], outpoint);
      } else {
        coin := None;
      }
    }

    method ReadDb(outpoint: nat) returns (coin: Option<Coin>)
      requires Valid(V())
      ensures coin == CoinOf(See(V(), 0, NativeKey(outpoint)))
    {
      var key := NativeKey(outpoint);
      coin := if key in db then Some(db[key].coin) else None;
    }

    /** Find the entry for a coin, asking the level below when there is none. */
    method FetchCoin(n: nat, outpoint: nat) returns (found: bool)
      requires 0 < n <= |caches| && (Valid(V()) || NativeKey(outpoint) in caches[n - 1].entries)
      modifies this`caches
      ensures old(Valid(V())) ==> Valid(V()) && Filled(old(V()), V(), n)
      ensures |caches| == |old(caches)| && (found <==> NativeKey(outpoint) in caches[n - 1].entries)
      ensures !found ==> See(old(V()), n, NativeKey(outpoint)) == Absent
      ensures found && NativeKey(outpoint) !in old(caches)[n - 1].entries ==> See(old(V()), n, NativeKey(outpoint)) != Absent
      ensures NativeKey(outpoint) in old(caches)[n - 1].entries ==> caches == old(caches)
      decreases n, 0
    {
      hide See, Valid, Filled, EntryOk, Stored;
      var key := NativeKey(outpoint);
      if key in caches[n - 1].entries {
        if Valid(V()) { FilledSelf(V(), n); }
        return true;
      }
      NoEntry(V(), n, key);
      var coin := GetCoin(n - 1, outpoint);
      FilledSees(old(V()), V(), n - 1, n - 1, key);
      SeeTyped(V(), n - 1, key);
      if coin.None? {
        FilledTrans(old(V()), V(), V(), n - 1, n) by { FilledSelf(V(), n); }
        return false;
      }
      var entry := Entry(coin.value, false, false, false, false);
      if coin.value.Spent? { entry := entry.(isFresh := true); }
      FetchedOk(V(), n - 1, key, coin.value);
      FillEntry(old(V()), V(), n, key, entry);
      caches := caches[n - 1 := Put(caches[n - 1], key, entry)];
      found := true;
    }

    /** Add a coin to the topmost cache; false when the code throws.  Without `possibleOverwrite`
        the caller promises that no unspent version exists: the cache stays in order if and only if
        that is so below a cache without an entry of its own. */
    method AddCoin(outpoint: nat, coin: Coin, possibleOverwrite: bool) returns (ok: bool)
      requires Valid(V()) && caches != [] && coin.Coin?
      modifies this`caches
      ensures var v, n, key := old(V()), |old(caches)|, NativeKey(outpoint);
              && (ok <==> coin.unspendable || possibleOverwrite || key !in v.caches[n - 1].entries || See(v, n, key) == Absent)
              && (!ok || coin.unspendable ==> caches == old(caches))
              && (ok && !coin.unspendable ==> Updated(v, V(), n, key, Unspent(coin)))
              && (Valid(V()) <==> !ok || AddAllowed(v, n, key, coin, possibleOverwrite))
              && (ok && !coin.unspendable ==> V() == With(v, n, Put(v.caches[n - 1], key, AddedEntry(v, n, key, coin, possibleOverwrite))))
    {
      hide See, Valid, EntryOk, Stored, Updated;
      ghost var v, n := V(), |caches|;
      if coin.unspendable { return true; }
      var key := NativeKey(outpoint);
      var cache := caches[|caches| - 1];
      var entry := if key in cache.entries then cache.entries[key] else Entry(Spent, false, false, false, false);
      var markFresh := false;
      if key in cache.entries { OwnEntry(v, n, key); } else { NoEntry(v, n, key); }
      NativeStored(key, entry);
      if !possibleOverwrite {
        if !entry.coin.Spent? { return false; }
        markFresh := !entry.isDirty;
      }
      AddedOk(v, n, key, coin, possibleOverwrite);
      entry := entry.(coin := coin, isDirty := true);
      if markFresh { entry := entry.(isFresh := true); }
      caches := caches[|caches| - 1 := Put(cache, key, entry)];
      ok := true;
    }

    /** Spend a coin in the topmost cache.  True also for an entry that is spent already. */
    method SpendCoin(outpoint: nat) returns (ok: bool, moveout: Coin)
      requires caches != [] && (Valid(V()) || NativeKey(outpoint) in caches[|caches| - 1].entries)
      modifies this`caches
      ensures var v, n, key := old(V()), |old(caches)|, NativeKey(outpoint);
              && (Valid(v) ==>
                    && Valid(V()) && Updated(v, V(), n, key, Absent)
                    && (ok <==> See(v, n, key) != Absent || key in v.caches[n - 1].entries)
                    && moveout == (if See(v, n, key).Unspent? then See(v, n, key).coin else Spent))
              && (key in v.caches[n - 1].entries ==>
                    ok && moveout == v.caches[n - 1].entries[key].coin && V() == With(v, n, SpentIn(v.caches[n - 1], key)))
    {
      hide See, Valid, EntryOk, Updated, Filled, Stored;
      ghost var v, n := V(), |caches|;
      var key := NativeKey(outpoint);
      if Valid(v) { if key in caches[|caches| - 1].entries { OwnEntry(v, n, key); } else { NoEntry(v, n, key); } }
      ok := FetchCoin(|caches|, outpoint);
      ghost var u := V();
      if Valid(v) { FilledSees(v, u, n, n, key); }
      if !ok {
        moveout := Spent;
        FilledUpdated(v, u, u, n, key, Absent) by { UpdatedSelf(u, n, key); }
        return;
      }
      var cache := caches[|caches| - 1];
      var entry := cache.entries[key];
      if Valid(v) {
        OwnEntry(u, n, key);
        SpentOk(u, n, key);
      }
      moveout := entry.coin;
      if entry.isFresh {
        caches := caches[|caches| - 1 := Erase(cache, key)];
      } else {
        caches := caches[|caches| - 1 := Put(cache, key, entry.(isDirty := true, coin := Spent))];
      }
      if Valid(v) { FilledUpdated(v, u, V(), n, key, Absent); }
    }

    /** Whether a peg-in is used, at level n. */
    method IsPeginSpent(n: nat, key: Key) returns (spent: bool)
      requires Valid(V()) && n <= |caches| && !Native(key)
      modifies this`caches
      ensures Valid(V()) && Filled(old(V()), V(), n)
      ensures spent <==> See(old(V()), n, key) == PeginUsed
      decreases n
    {
      hide See, Valid, EntryOk, Filled, Stored;
      if n == 0 {
        spent := HasPegin(key);
        FilledSelf(V(), 0);
        return;
      }
      if key in caches[n - 1].entries {
        OwnEntry(V(), n, key);
        PeginStored(key, caches[n - 1].entries[key]);
        FilledSelf(V(), n);
        return caches[n - 1].entries[key].peginSpent;
      }
      NoEntry(V(), n, key);
      spent := IsPeginSpent(n - 1, key);
      FilledSees(old(V()), V(), n - 1, n - 1, key);
      var entry := Entry(Spent, spent, false, !spent, true);
      FetchedPeginOk(V(), n - 1, key, entry);
      FillEntry(old(V()), V(), n, key, entry);
      caches := caches[n - 1 := Put(caches[n - 1], key, entry)];
    }

    method HasPegin(key: Key) returns (spent: bool)
      requires Valid(V()) && !Native(key)
      ensures spent <==> See(V(), 0, key) == PeginUsed
    {
      spent := key in db;
    }

    /** Mark a peg-in as used or unused, in the topmost cache. */
    method SetPeginSpent(key: Key, spent: bool)
      requires Valid(V()) && caches != [] && !Native(key)
      modifies this`caches
      ensures Valid(V()) && Updated(old(V()), V(), |old(caches)|, key, if spent then PeginUsed else Absent)
    {
      hide See, Valid, EntryOk, Updated, Filled, Stored;
      ghost var v, n := V(), |caches|;
      var hadSpent;
      if key in caches[|caches| - 1].entries {
        OwnEntry(v, n, key);
        hadSpent := caches[|caches| - 1].entries[key].peginSpent;
        PeginStored(key, caches[n - 1].entries[key]);
        FilledSelf(v, n);
      } else {
        NoEntry(v, n, key);
        hadSpent := IsPeginSpent(|caches| - 1, key);
        FilledSees(v, V(), n - 1, n - 1, key);
        FilledTrans(v, V(), V(), n - 1, n) by { FilledSelf(V(), n); }
      }
      ghost var u := V();
      FilledSees(v, u, n, n, key);
      PeginTyped(u, n, key);
      if hadSpent == spent {
        FilledUpdated(v, u, u, n, key, if spent then PeginUsed else Absent) by { UpdatedSelf(u, n, key); }
        return;
      }
      var cache := caches[|caches| - 1];
      var entry := if key in cache.entries then cache.entries[key] else Entry(Spent, false, false, !hadSpent, false);
      SetPeginOk(u, n, key, spent);
      caches := caches[|caches| - 1 := Put(cache, key, entry.(peginSpent := spent, isPegin := true, isDirty := true))];
      FilledUpdated(v, u, V(), n, key, if spent then PeginUsed else Absent);
    }

    /** Drop an unmodified coin from the cache at level n. */
    method Uncache(n: nat, outpoint: nat)
      requires Valid(V()) && 0 < n <= |caches|
      modifies this`caches
      ensures Valid(V()) && SameViews(old(V()), V())
      ensures var c := old(caches)[n - 1]; var k := NativeKey(outpoint);
              k in caches[n - 1].entries <==> k in c.entries && (c.entries[k].isDirty || c.entries[k].isFresh)
    {
      hide See, Valid, EntryOk;
      var key, cache := NativeKey(outpoint), caches[n - 1];
      if key in cache.entries && !cache.entries[key].isDirty && !cache.entries[key].isFresh {
        EraseSame(V(), n, key);
        caches := caches[n - 1 := Erase(cache, key)];
      } else {
        FilledSelf(V(), n);
      }
    }

    /** Write the changes of the cache at level n into the level below; `ok` is false when the
        code throws, which never happens. */
    method WriteDown(n: nat) returns (ok: bool)
      requires Valid(V()) && 0 < n <= |caches| && (n == 1 ==> caches[0].hashBlock != 0)
      modifies this
      ensures ok && |caches| == |old(caches)| && Written(old(V()), V(), n)
      ensures n == 1 ==> caches == old(caches) && dbBest == old(caches)[0].hashBlock
      ensures n > 1 ==> db == old(db) && dbBest == old(dbBest) && caches == old(caches)[n - 2 := caches[n - 2]]
      ensures n > 1 ==> caches[n - 2].hashBlock == old(caches)[n - 1].hashBlock
    {
      hide See, Valid, Linked, WrittenUpTo, DbUpTo, Written, NoneMisapplied;
      var child := caches[n - 1];
      CacheLinked(V(), n);
      if n == 1 {
        ghost var before := db;
        db := BatchWriteDb(db, child);
        dbBest := child.hashBlock;
        WrittenDb(old(V()), db);
        ok := true;
      } else {
        CacheLinked(V(), n - 1);
        NeverMisapplied(V(), n);
        var parent;
        ok, parent := BatchWrite(caches[n - 2], child, child.hashBlock);
        WrittenCache(V(), n, parent);
        caches := caches[n - 2 := parent];
      }
    }

    /** Push the changes of the cache at level n to the level below, and wipe it. */
    method Flush(n: nat) returns (ok: bool)
      requires Valid(V()) && 0 < n <= |caches| && (n == 1 ==> caches[0].hashBlock != 0)
      modifies this
      ensures ok && Valid(V()) && Flushed(old(V()), V(), n)
      ensures caches[n - 1] == Cache(map[], [], old(caches)[n - 1].hashBlock)
      ensures Hashes(old(caches), old(dbBest), caches, dbBest, n)
    {
      hide See, Valid, Written, Flushed;
      ok := WriteDown(n);
      ghost var w := V();
      WipedOk(old(V()), w, n, caches[n - 1].hashBlock);
      caches := caches[n - 1 := Cache(map[], [], caches[n - 1].hashBlock)];
    }

    /** Push the changes down, but keep the unspent coins; no flagged entry is left. */
    method Sync(n: nat) returns (ok: bool)
      requires Valid(V()) && 0 < n <= |caches| && (n == 1 ==> caches[0].hashBlock != 0)
      modifies this
      ensures ok && Valid(V()) && Flushed(old(V()), V(), n)
      ensures caches[n - 1].flagged == [] && KeepsUnspent(old(caches)[n - 1], caches[n - 1])
      ensures Hashes(old(caches), old(dbBest), caches, dbBest, n)
    {
      hide See, Valid, Written, Flushed, Linked, Synced;
      CacheLinked(V(), n);
      ok := WriteDown(n);
      ghost var w := V();
      var child := SyncChild(caches[n - 1]);
      SyncedFits(old(V()), w, n, child);
      caches := caches[n - 1 := child];
      ok := ok && child.flagged == [];
    }

    /** The best block of level n, remembered by the caches that had to ask below. */
    method GetBestBlock(n: nat) returns (r: nat)
      requires n <= |caches|
      modifies this`caches
      ensures r == BestBlock(old(caches), dbBest, n) && |caches| == |old(caches)|
      ensures forall i :: 0 <= i < |caches| ==> caches[i] == old(caches)[i].(hashBlock := caches[i].hashBlock)
      ensures forall i :: n <= i < |caches| ==> caches[i] == old(caches)[i]
      ensures forall m :: 0 <= m <= |caches| ==> BestBlock(caches, dbBest, m) == BestBlock(old(caches), dbBest, m)
      decreases n
    {
      if n == 0 { return dbBest; }
      if caches[n - 1].hashBlock == 0 {
        var below := GetBestBlock(n - 1);
        ghost var before := caches;
        caches := caches[n - 1 := caches[n - 1].(hashBlock := below)];
        forall m | 0 <= m <= |caches| ensures BestBlock(caches, dbBest, m) == BestBlock(before, dbBest, m) {
          Remembered(before, dbBest, caches, n, m);
        }
      }
      r := caches[n - 1].hashBlock;
    }

    /** A new cache on top shows what the old top shows. */
    method Push()
      requires Valid(V())
      modifies this`caches
      ensures Valid(V()) && |caches| == |old(caches)| + 1 && caches[..|old(caches)|] == old(caches)
      ensures forall m, k :: 0 <= m <= |old(caches)| ==> See(V(), m, k) == See(old(V()), m, k)
      ensures forall k :: See(V(), |caches|, k) == See(V(), |old(caches)|, k)
    {
      PushOk(V());
      hide See, Valid;
      caches := caches + [NO_CACHE];
    }

    /** Throwing the topmost cache away forgets its changes only. */
    method Pop()
      requires Valid(V()) && caches != []
      modifies this`caches
      ensures Valid(V()) && caches == old(caches)[..|old(caches)| - 1]
      ensures forall m, k :: 0 <= m <= |caches| ==> See(V(), m, k) == See(old(V()), m, k)
    {
      PopOk(V());
      hide See, Valid;
      caches := caches[..|caches| - 1];
    }
  }

  lemma {:induction false} FilledSees(v: Views, w: Views, n: nat, m: nat, k: Key)
    requires Filled(v, w, n) && m <= |v.caches|
    ensures |w.caches| == |v.caches| && See(w, m, k) == See(v, m, k)
    ensures forall i :: n <= i < |v.caches| ==> w.caches[i] == v.caches[i]
    ensures Valid(w) ==> DbOk(w.db)
  {
    hide See;
  }

  method UnspentCoin(c: Cache, outpoint: nat) returns (coin: Option<Coin>)
    requires NativeKey(outpoint) in c.entries
    ensures coin == CoinOf(Stored(NativeKey(outpoint), c.entries[NativeKey(outpoint)]))
  {
    var e := c.entries[NativeKey(outpoint)];
    coin := if !e.coin.Spent? then Some(e.coin) else None;
  }

  // ---------- adding a coin ----------

  /** What callers of AddCoin promise: an overwrite is announced, unless the topmost cache itself
      has an entry for the coin. */
  ghost predicate AddAllowed(v: Views, n: nat, key: Key, coin: Coin, possibleOverwrite: bool)
    requires 0 < n <= |v.caches| && coin.Coin?
  {
    coin.unspendable || possibleOverwrite || key in v.caches[n - 1].entries || See(v, n, key) == Absent
  }

  lemma {:induction false} NativeStored(k: Key, e: Entry)
    requires Native(k)
    ensures Stored(k, e) == Absent <==> e.coin.Spent?
  {
  }

  ghost function AddedEntry(v: Views, n: nat, key: Key, coin: Coin, possibleOverwrite: bool): Entry
    requires 0 < n <= |v.caches|
  {
    var c := v.caches[n - 1];
    var e := if key in c.entries then c.entries[key] else Entry(Spent, false, false, false, false);
    e.(coin := coin, isDirty := true, isFresh := e.isFresh || (!possibleOverwrite && !e.isDirty))
  }

  lemma {:induction false} AddedOk(v: Views, n: nat, key: Key, coin: Coin, possibleOverwrite: bool)
    requires Valid(v) && 0 < n == |v.caches| && Native(key) && coin.Coin? && !coin.unspendable
    requires possibleOverwrite || key !in v.caches[n - 1].entries || See(v, n, key) == Absent
    ensures var w := With(v, n, Put(v.caches[n - 1], key, AddedEntry(v, n, key, coin, possibleOverwrite)));
            Updated(v, w, n, key, Unspent(coin)) && (Valid(w) <==> AddAllowed(v, n, key, coin, possibleOverwrite))
  {
    var e := AddedEntry(v, n, key, coin, possibleOverwrite);
    if key in v.caches[n - 1].entries { OwnEntry(v, n, key); } else { NoEntry(v, n, key); }
    var w := With(v, n, Put(v.caches[n - 1], key, e));
    if AddAllowed(v, n, key, coin, possibleOverwrite) {
      PutTop(v, n, key, e);
    } else {
      hide See, Updated;
      assert !EntryOk(key, e, See(v, n - 1, key));
      PutAnyway(v, n, key, e);
    }
  }

  /** Storing any entry changes the view as expected; a wrong one breaks the cache. */
  lemma {:induction false} PutAnyway(v: Views, n: nat, k: Key, e: Entry)
    requires Valid(v) && 0 < n == |v.caches| && !EntryOk(k, e, See(v, n - 1, k))
    ensures var w := With(v, n, Put(v.caches[n - 1], k, e)); Updated(v, w, n, k, Stored(k, e)) && !Valid(w)
  {
    var c := Put(v.caches[n - 1], k, e);
    var w, m := With(v, n, c), n - 1;
    forall i | 0 <= i < n ensures SameAt(v, w, i) {
      forall x ensures See(w, i, x) == See(v, i, x) { WithBelow(v, n, c, i, x); }
    }
    forall x ensures See(w, n, x) == if x == k then Stored(k, e) else See(v, n, x) { WithAt(v, n, c, x); }
    hide See, EntryOk;
    assert SameAt(v, w, m);
    assert See(w, m, k) == See(v, m, k);
    assert !MaybeOk(k, Get(c.entries, k), See(w, m, k));
    assert !Fits(w, m, w.caches[m]);
  }

  /** What a caller sees of a broken promise: after adding a coin without announcing an overwrite,
      and spending it, the coin is gone if and only if the addition was allowed.  Otherwise the old
      coin below is there again. */
  method AddThenSpend(stack: CoinsStack, outpoint: nat, coin: Coin) returns (added: bool, spent: bool)
    requires Valid(stack.V()) && stack.caches != [] && coin.Coin? && !coin.unspendable
    modifies stack`caches
    ensures |stack.caches| == |old(stack.caches)| && (added ==> spent)
    ensures added ==> (See(stack.V(), |old(stack.caches)|, NativeKey(outpoint)) == Absent
                       <==> AddAllowed(old(stack.V()), |old(stack.caches)|, NativeKey(outpoint), coin, false))
    ensures added && !AddAllowed(old(stack.V()), |old(stack.caches)|, NativeKey(outpoint), coin, false) ==>
              See(stack.V(), |old(stack.caches)|, NativeKey(outpoint)) == See(old(stack.V()), |old(stack.caches)|, NativeKey(outpoint))
  {
    hide See, Valid, AddAllowed, AddedEntry, SpentIn, Updated;
    ghost var v, n, key := stack.V(), |stack.caches|, NativeKey(outpoint);
    spent := false;
    added := stack.AddCoin(outpoint, coin, false);
    if !added { return; }
    ghost var w := stack.V();
    var moveout;
    spent, moveout := stack.SpendCoin(outpoint);
    if AddAllowed(v, n, key, coin, false) { UpdatedSees(w, stack.V(), n, key, Absent); } else { OldCoinShown(v, n, key, coin); }
  }

  lemma {:induction false} UpdatedSees(v: Views, w: Views, n: nat, key: Key, d: Data)
    requires n <= |v.caches| && Updated(v, w, n, key, d)
    ensures See(w, n, key) == d
  {
    hide See;
  }

  lemma {:induction false} OldCoinShown(v: Views, n: nat, key: Key, coin: Coin)
    requires Valid(v) && 0 < n == |v.caches| && Native(key) && coin.Coin? && !AddAllowed(v, n, key, coin, false)
    ensures var c := Put(v.caches[n - 1], key, AddedEntry(v, n, key, coin, false));
            See(With(With(v, n, c), n, SpentIn(c, key)), n, key) == See(v, n, key) != Absent
  {
    var c := Put(v.caches[n - 1], key, AddedEntry(v, n, key, coin, false));
    WithAt(With(v, n, c), n, SpentIn(c, key), key);
    WithBelow(v, n, c, n - 1, key);
    NoEntry(v, n, key);
  }

  /** Such a case: an empty cache over a database with the coin. */
  method HiddenCoin() returns (stack: CoinsStack, added: bool, spent: bool)
    ensures added && spent && |stack.caches| == 1 && See(stack.V(), 1, NativeKey(0)) == Unspent(Coin(1, false))
  {
    stack := new CoinsStack;
    stack.db, stack.caches := map[NativeKey(0) := Unspent(Coin(1, false))], [NO_CACHE];
    ghost var v := stack.V();
    assert Fits(v, 0, NO_CACHE);
    assert See(v, 0, NativeKey(0)) == Unspent(Coin(1, false)) && See(v, 1, NativeKey(0)) == Unspent(Coin(1, false));
    var got := stack.AddCoin(0, Coin(2, false), false);
    added := got;
    var moveout;
    spent, moveout := stack.SpendCoin(0);
    OldCoinShown(v, 1, NativeKey(0), Coin(2, false));
  }

  // ---------- spending, peg-ins, pushing and popping ----------

  lemma {:induction false} UpdatedSelf(v: Views, n: nat, key: Key)
    requires n <= |v.caches|
    ensures Updated(v, v, n, key, See(v, n, key))
  {
    hide See;
  }

  /** A change after caches were filled is the same change of the original views. */
  lemma {:induction false} FilledUpdated(v: Views, u: Views, w: Views, n: nat, key: Key, d: Data)
    requires n <= |v.caches| && n <= |u.caches| && Filled(v, u, n) && Updated(u, w, n, key, d)
    ensures Updated(v, w, n, key, d)
  {
    hide See;
    forall m | 0 <= m < n ensures SameAt(v, w, m) {
      assert SameAt(u, w, m);
      forall k ensures See(w, m, k) == See(v, m, k) { assert See(w, m, k) == See(u, m, k); }
    }
    forall k ensures See(w, n, k) == if k == key then d else See(v, n, k) { assert See(u, n, k) == See(v, n, k); }
  }

  /** A cache after the coin of one of its entries is spent: a FRESH entry just goes. */
  ghost function SpentIn(c: Cache, key: Key): Cache
    requires key in c.entries
  {
    var e := c.entries[key];
    if e.isFresh then Erase(c, key) else Put(c, key, e.(isDirty := true, coin := Spent))
  }

  lemma {:induction false} SpentOk(v: Views, n: nat, key: Key)
    requires Valid(v) && 0 < n == |v.caches| && Native(key) && key in v.caches[n - 1].entries
    ensures var c := v.caches[n - 1];
            var w := With(v, n, SpentIn(c, key));
            Valid(w) && Updated(v, w, n, key, Absent)
    ensures See(v, n, key) == (if v.caches[n - 1].entries[key].coin.Spent? then Absent else Unspent(v.caches[n - 1].entries[key].coin))
  {
    OwnEntry(v, n, key);
    hide See, Updated;
    var c := v.caches[n - 1];
    var e := c.entries[key];
    if e.isFresh {
      EraseTop(v, n, key);
    } else {
      PutTop(v, n, key, e.(isDirty := true, coin := Spent));
    }
  }

  lemma {:induction false} PeginStored(k: Key, e: Entry)
    requires !Native(k)
    ensures Stored(k, e) == if e.peginSpent then PeginUsed else Absent
  {
  }

  lemma {:induction false} PeginTyped(v: Views, n: nat, k: Key)
    requires Valid(v) && n <= |v.caches| && !Native(k)
    ensures See(v, n, k) == PeginUsed || See(v, n, k) == Absent
  {
    SeeTyped(v, n, k);
  }

  lemma {:induction false} FetchedPeginOk(v: Views, n: nat, k: Key, e: Entry)
    requires Valid(v) && n <= |v.caches| && !Native(k) && (e.peginSpent <==> See(v, n, k) == PeginUsed)
    requires e == Entry(Spent, e.peginSpent, false, !e.peginSpent, true)
    ensures EntryOk(k, e, See(v, n, k))
  {
    SeeTyped(v, n, k);
  }

  lemma {:induction false} SetPeginOk(v: Views, n: nat, k: Key, spent: bool)
    requires Valid(v) && 0 < n == |v.caches| && !Native(k) && (See(v, n, k) == PeginUsed <==> !spent)
    ensures var c := v.caches[n - 1];
            var e := if k in c.entries then c.entries[k] else Entry(Spent, false, false, spent, false);
            var w := With(v, n, Put(c, k, e.(peginSpent := spent, isPegin := true, isDirty := true)));
            Valid(w) && Updated(v, w, n, k, if spent then PeginUsed else Absent)
  {
    var c := v.caches[n - 1];
    var e := if k in c.entries then c.entries[k] else Entry(Spent, false, false, spent, false);
    if k in c.entries { OwnEntry(v, n, k); } else { NoEntry(v, n, k); }
    PeginTyped(v, n, k);
    hide See, Updated;
    PutTop(v, n, k, e.(peginSpent := spent, isPegin := true, isDirty := true));
  }

  lemma {:induction false} PushOk(v: Views)
    requires Valid(v)
    ensures var w := v.(caches := v.caches + [NO_CACHE]); var n := |v.caches|;
            && Valid(w) && (forall m, k :: 0 <= m <= n ==> See(w, m, k) == See(v, m, k))
            && forall k :: See(w, n + 1, k) == See(w, n, k)
  {
    var w, n := v.(caches := v.caches + [NO_CACHE]), |v.caches|;
    forall m, k | 0 <= m <= n ensures See(w, m, k) == See(v, m, k) { SeeBelow(v, w, m, k); }
    forall k ensures See(w, n + 1, k) == See(w, n, k) { NoEntry(w, n + 1, k); }
    hide See;
    forall m | 0 <= m < |w.caches| ensures Fits(w, m, w.caches[m]) {
      if m < n { CacheStays(v, w, m, v.caches[m]); }
    }
  }

  lemma {:induction false} PopOk(v: Views)
    requires Valid(v) && v.caches != []
    ensures var w := v.(caches := v.caches[..|v.caches| - 1]);
            Valid(w) && forall m, k :: 0 <= m < |v.caches| ==> See(w, m, k) == See(v, m, k)
  {
    var w := v.(caches := v.caches[..|v.caches| - 1]);
    forall m, k | 0 <= m < |v.caches| ensures See(w, m, k) == See(v, m, k) { SeeBelow(v, w, m, k); }
    hide See;
    forall m | 0 <= m < |w.caches| ensures Fits(w, m, w.caches[m]) { CacheStays(v, w, m, v.caches[m]); }
  }

  // ---------- flushing ----------

  lemma {:induction false} CacheLinked(v: Views, n: nat)
    requires Valid(v) && 0 < n <= |v.caches|
    ensures Linked(v.caches[n - 1]) && forall k :: k in v.caches[n - 1].entries ==> (v.caches[n - 1].entries[k].isPegin <==> !Native(k))
  {
    var c, m := v.caches[n - 1], n - 1;
    assert Fits(v, m, c);
    hide See, Linked;
    forall k | k in c.entries ensures c.entries[k].isPegin <==> !Native(k) {
      assert MaybeOk(k, Get(c.entries, k), See(v, m, k));
    }
  }

  /** After writing down level n: the level below shows what level n showed, lower levels and the
      caches above are untouched, and everything below level n is in order. */
  ghost predicate Written(v: Views, w: Views, n: nat)
    requires 0 < n <= |v.caches|
  {
    && |w.caches| == |v.caches| && DbOk(w.db) && (forall m :: 0 <= m < n - 1 ==> Fits(w, m, w.caches[m]))
    && (forall m :: 0 <= m < n - 1 ==> SameAt(v, w, m)) && (forall i :: n - 1 <= i < |v.caches| ==> w.caches[i] == v.caches[i])
    && ShowsNow(v, w, n - 1, n)
  }

  ghost predicate ShowsNow(v: Views, w: Views, m: nat, n: nat)
    requires m <= |w.caches| && n <= |v.caches|
  {
    forall k :: See(w, m, k) == See(v, n, k)
  }

  lemma {:induction false} NeverMisapplied(v: Views, n: nat)
    requires Valid(v) && 1 < n <= |v.caches|
    ensures NoneMisapplied(v.caches[n - 1], v.caches[n - 2])
  {
    var c, p := v.caches[n - 1], v.caches[n - 2];
    forall k | k in c.entries && c.entries[k].isDirty && k in p.entries ensures !Misapplied(c.entries[k], p.entries[k]) {
      OwnEntry(v, n, k);
      OwnEntry(v, n - 1, k);
      hide See;
    }
  }

  lemma {:induction false} WrittenKey(v: Views, n: nat, parent: Cache, k: Key)
    requires Valid(v) && 1 < n <= |v.caches| && Known(v.caches[n - 1])
    requires WrittenUpTo(v.caches[n - 1], v.caches[n - 2], parent, |v.caches[n - 1].flagged|)
    ensures MaybeOk(k, Get(parent.entries, k), See(v, n - 2, k)) && Shown(k, Get(parent.entries, k), See(v, n - 2, k)) == See(v, n, k)
  {
    var c, p, m := v.caches[n - 1], v.caches[n - 2], n - 2;
    assert c.flagged[..|c.flagged|] == c.flagged;
    assert Get(parent.entries, k) == WrittenEntry(c, p, |c.flagged|, k);
    assert Fits(v, m, p);
    assert MaybeOk(k, Get(p.entries, k), See(v, m, k));
    CacheLinked(v, n);
    if k in c.entries {
      OwnEntry(v, n, k);
      assert c.entries[k].isDirty ==> k in c.flagged;
      hide EntryOk;
      if c.entries[k].isDirty {
        MergedOk(k, c.entries[k], Get(p.entries, k), See(v, m, k));
      } else {
        CleanStored(k, c.entries[k], See(v, n - 1, k));
      }
    }
  }

  lemma {:induction false} CleanStored(k: Key, e: Entry, below: Data)
    requires EntryOk(k, e, below) && !e.isDirty
    ensures Stored(k, e) == below
  {
  }

  lemma {:induction false} WrittenCache(v: Views, n: nat, parent: Cache)
    requires Valid(v) && 1 < n <= |v.caches| && Linked(parent) && Known(v.caches[n - 1])
    requires WrittenUpTo(v.caches[n - 1], v.caches[n - 2], parent, |v.caches[n - 1].flagged|)
    ensures Written(v, v.(caches := v.caches[n - 2 := parent]), n)
  {
    var w, m := v.(caches := v.caches[n - 2 := parent]), n - 2;
    assert w == With(v, n - 1, parent);
    assert DbOk(w.db);
    forall i | 0 <= i < n - 1 ensures SameAt(v, w, i) {
      forall k ensures See(w, i, k) == See(v, i, k) { WithBelow(v, n - 1, parent, i, k); }
    }
    hide See, Linked, MaybeOk, Shown;
    forall k ensures MaybeOk(k, Get(parent.entries, k), See(v, m, k)) { WrittenKey(v, n, parent, k); }
    forall i | 0 <= i < n - 1 ensures Fits(w, i, w.caches[i]) {
      assert Fits(v, i, w.caches[i]);
      CacheStays(v, w, i, w.caches[i]);
    }
    forall k ensures See(w, n - 1, k) == See(v, n, k) {
      WithAt(v, n - 1, parent, k);
      WrittenKey(v, n, parent, k);
    }
  }

  lemma {:induction false} WrittenDb(v: Views, db: map<Key, Data>)
    requires Valid(v) && v.caches != [] && Known(v.caches[0])
    requires DbUpTo(v.caches[0], v.db, db, |v.caches[0].flagged|)
    ensures Written(v, v.(db := db), 1)
  {
    var w, c := v.(db := db), v.caches[0];
    assert c.flagged[..|c.flagged|] == c.flagged;
    CacheLinked(v, 1);
    forall k ensures See(w, 0, k) == See(v, 1, k) {
      assert Read(db, k) == DbEntry(c, v.db, |c.flagged|, k);
      if k in c.entries {
        OwnEntry(v, 1, k);
        assert c.entries[k].isDirty ==> k in c.flagged;
      }
    }
    forall k | k in db ensures if Native(k) then db[k].Unspent? && db[k].coin.Coin? else db[k].PeginUsed? {
      SeeTyped(v, 1, k);
      assert See(w, 0, k) == See(v, 1, k);
    }
  }

  /** The result of flushing level n: the level below shows what level n showed, and no other
      level changed. */
  ghost predicate Flushed(v: Views, w: Views, n: nat)
    requires 0 < n <= |v.caches|
  {
    |w.caches| == |v.caches| && (forall m :: 0 <= m <= |v.caches| && m != n - 1 ==> SameAt(v, w, m)) && ShowsNow(v, w, n - 1, n)
  }

  /** Any cache that shows nothing new over the level just written completes the flush. */
  lemma {:induction false} FlushedOk(v: Views, w: Views, n: nat, c: Cache)
    requires Valid(v) && 0 < n <= |v.caches| && Written(v, w, n) && Fits(w, n - 1, c) && ShowsAs(w, n - 1, c, v, n)
    ensures var u := With(w, n, c); Valid(u) && Flushed(v, u, n)
  {
    hide See, Linked, MaybeOk, Shown, Get;
    var u := With(w, n, c);
    forall m | 0 <= m <= |v.caches| && m != n - 1 ensures SameAt(v, u, m) {
      forall k ensures See(u, m, k) == See(v, m, k) {
        if m < n - 1 {
          WithBelow(w, n, c, m, k);
          assert SameAt(v, w, m);
        } else {
          WithAt(w, n, c, k);
          SeeAbove(v, u, n, m, k);
        }
      }
    }
    forall k ensures See(u, n - 1, k) == See(v, n, k) { WithBelow(w, n, c, n - 1, k); }
    forall m | 0 <= m < |u.caches| ensures Fits(u, m, u.caches[m]) {
      if m < n {
        forall k ensures See(u, m, k) == See(w, m, k) { WithBelow(w, n, c, m, k); }
        CacheStays(w, u, m, u.caches[m]);
      } else {
        CacheStays(v, u, m, v.caches[m]);
      }
    }
  }

  lemma {:induction false} WipedOk(v: Views, w: Views, n: nat, hash: nat)
    requires Valid(v) && 0 < n <= |v.caches| && Written(v, w, n)
    ensures var u := With(w, n, Cache(map[], [], hash)); Valid(u) && Flushed(v, u, n)
  {
    var c := Cache(map[], [], hash);
    hide See, Flushed;
    FlushedOk(v, w, n, c);
  }

  lemma {:induction false} SyncedFits(v: Views, w: Views, n: nat, c: Cache)
    requires Valid(v) && 0 < n <= |v.caches| && Written(v, w, n) && Linked(c)
    requires forall k :: Get(c.entries, k) == if k in v.caches[n - 1].entries then Synced(v.caches[n - 1].entries[k]) else None
    ensures var u := With(w, n, c); Valid(u) && Flushed(v, u, n)
    ensures KeepsUnspent(v.caches[n - 1], c)
  {
    var o, m := v.caches[n - 1], n - 1;
    hide Flushed, Linked;
    forall k ensures MaybeOk(k, Get(c.entries, k), See(w, m, k)) && Shown(k, Get(c.entries, k), See(w, m, k)) == See(v, n, k) {
      SyncedKey(v, w, n, c, k);
    }
    forall k ensures k in c.entries <==> k in o.entries && !o.entries[k].coin.Spent? {
      if k in o.entries { OwnEntry(v, n, k); }
      assert Get(c.entries, k) == if k in o.entries then Synced(o.entries[k]) else None;
    }
    hide See, Shown, MaybeOk, Get;
    FlushedOk(v, w, n, c);
  }

  /** Cache c has entries for the unspent coins of o. */
  ghost predicate KeepsUnspent(o: Cache, c: Cache) {
    forall k :: k in c.entries <==> k in o.entries && !o.entries[k].coin.Spent?
  }

  lemma {:induction false} SyncedKey(v: Views, w: Views, n: nat, c: Cache, k: Key)
    requires Valid(v) && 0 < n <= |v.caches| && n - 1 <= |w.caches| && ShowsNow(v, w, n - 1, n)
    requires Get(c.entries, k) == if k in v.caches[n - 1].entries then Synced(v.caches[n - 1].entries[k]) else None
    ensures MaybeOk(k, Get(c.entries, k), See(w, n - 1, k)) && Shown(k, Get(c.entries, k), See(w, n - 1, k)) == See(v, n, k)
  {
    assert See(w, n - 1, k) == See(v, n, k);
    if k in v.caches[n - 1].entries {
      OwnEntry(v, n, k);
      hide See;
      SyncedOk(k, v.caches[n - 1].entries[k], See(v, n - 1, k));
    }
  }

  // ---------- best blocks ----------

  /** Block hashes after flushing level n: the level below takes over the child's, known or not. */
  ghost predicate Hashes(caches: seq<Cache>, best: nat, caches': seq<Cache>, best': nat, n: nat)
    requires 0 < n <= |caches| == |caches'|
  {
    && (forall i :: 0 <= i < |caches| ==> caches'[i].hashBlock == if i == n - 2 then caches[n - 1].hashBlock else caches[i].hashBlock)
    && best' == if n == 1 then caches[0].hashBlock else best
  }

  /** The best block of level n: its own if known, else that of the level below. */
  ghost function BestBlock(caches: seq<Cache>, best: nat, n: nat): nat
    requires n <= |caches|
  {
    if n == 0 then best else if caches[n - 1].hashBlock != 0 then caches[n - 1].hashBlock else BestBlock(caches, best, n - 1)
  }

  lemma {:induction false} BestBelow(caches: seq<Cache>, best: nat, caches': seq<Cache>, n: nat)
    requires n <= |caches| && n <= |caches'| && forall i :: 0 <= i < n ==> caches'[i].hashBlock == caches[i].hashBlock
    ensures BestBlock(caches', best, n) == BestBlock(caches, best, n)
  {
    if n > 0 { BestBelow(caches, best, caches', n - 1); }
  }

  lemma {:induction false} Remembered(caches: seq<Cache>, best: nat, caches': seq<Cache>, n: nat, m: nat)
    requires 0 < n <= |caches| && m <= |caches| && caches[n - 1].hashBlock == 0
    requires caches' == caches[n - 1 := caches[n - 1].(hashBlock := BestBlock(caches, best, n - 1))]
    ensures BestBlock(caches', best, m) == BestBlock(caches, best, m)
  {
    if m >= n {
      BestBelow(caches, best, caches', n - 1);
      if m > n { Remembered(caches, best, caches', n, m - 1); }
    } else {
      BestBelow(caches, best, caches', m);
    }
  }

  /** A flush hands the child's best block down exactly if the child knows it, or the parent knew
      none either: with an unknown one, the parent's own is forgotten. */
  lemma {:induction false} FlushBestBlock(caches: seq<Cache>, best: nat, caches': seq<Cache>, best': nat, n: nat)
    requires 1 < n <= |caches| == |caches'| && Hashes(caches, best, caches', best', n)
    ensures BestBlock(caches', best', n - 1) == BestBlock(caches, best, n)
            <==> caches[n - 1].hashBlock != 0 || BestBlock(caches, best, n - 1) == BestBlock(caches, best, n - 2)
  {
    BestBelow(caches, best, caches', n - 2);
  }

  // ---------- the code's own sanity check ----------

  ghost predicate Changed(e: Entry) { e.isDirty || e.isFresh }

  /** What SanityCheck asserts of one entry: 5 of the 8 combinations of dirty, fresh and spent. */
  ghost predicate Combination(e: Entry) {
    && !(e.isFresh && !e.isDirty && !e.coin.Spent?)
    && !(!e.isFresh && !e.isDirty && e.coin.Spent?)
    && !(e.isFresh && e.isDirty && e.coin.Spent?)
  }

  /** SanityCheck, without the memory accounting. */
  ghost predicate Sane(c: Cache) {
    && (forall k :: k in c.entries ==> Combination(c.entries[k]))
    && (forall k :: k in c.flagged ==> k in c.entries && Changed(c.entries[k]))
    && |c.flagged| == |set k | k in c.entries && Changed(c.entries[k])|
  }

  /** SanityCheck is written for native coins: it accepts a cache of a stack exactly if each peg-in
      entry has one of DIRTY and FRESH.  It fails, for example, after SetPeginSpent has marked an
      unused peg-in as used. */
  lemma {:induction false} SanityExact(v: Views, n: nat)
    requires Valid(v) && 0 < n <= |v.caches|
    ensures var c := v.caches[n - 1];
            Sane(c) <==> forall k :: k in c.entries && !Native(k) ==> c.entries[k].isDirty != c.entries[k].isFresh
  {
    var c := v.caches[n - 1];
    CacheLinked(v, n);
    forall k | k in c.entries
      ensures Native(k) ==> Combination(c.entries[k]) && (Flagged(c.entries[k]) <==> Changed(c.entries[k]))
      ensures !Native(k) ==> (Combination(c.entries[k]) <==> c.entries[k].isDirty != c.entries[k].isFresh)
    {
      OwnEntry(v, n, k);
      hide See;
    }
    hide Combination, Valid;
    if forall k :: k in c.entries && !Native(k) ==> c.entries[k].isDirty != c.entries[k].isFresh {
      var changed := set k | k in c.entries && Changed(c.entries[k]);
      forall k ensures k in SetOf(c.flagged) <==> k in changed {}
      assert SetOf(c.flagged) == changed;
      DistinctSize(c.flagged);
    }
  }

  /** A cache on an empty database with one peg-in marked as used. */
  lemma {:induction false} SanityFails() returns (v: Views)
    ensures Valid(v) && |v.caches| == 1 && !Sane(v.caches[0])
  {
    var k := Key(1, 0);
    var c := Cache(map[k := Entry(Spent, true, true, true, true)], [k], 0);
    v := Views(map[], [c]);
    assert Fits(v, 0, c) by {
      forall x ensures MaybeOk(x, Get(c.entries, x), See(v, 0, x)) {}
    }
    assert !Combination(c.entries[k]);
  }
}

/** Writing the changes of one coin cache into the view below it (src/coins.cpp:250-340,
    src/coins.h:226-280). */
module CoinsFlush {
  import opened Options
  import opened Sets
  import opened Coins

  ghost predicate Known(c: Cache) { forall x :: x in c.flagged ==> x in c.entries }

  // ---------- into a cache ----------

  /** The parent's entry for k, after the first i flagged entries of the child were written. */
  ghost function WrittenEntry(child: Cache, parent: Cache, i: nat, k: Key): Option<Entry>
    requires i <= |child.flagged| && Known(child)
  {
    if k in child.flagged[..i] && child.entries[k].isDirty then Merged(child.entries[k], Get(parent.entries, k)) else Get(parent.entries, k)
  }

  ghost predicate WrittenUpTo(child: Cache, parent: Cache, r: Cache, i: nat)
    requires i <= |child.flagged| && Known(child)
  {
    forall k :: Get(r.entries, k) == WrittenEntry(child, parent, i, k)
  }

  /** FRESH is right for every dirty entry of the child. */
  ghost predicate NoneMisapplied(child: Cache, parent: Cache) {
    forall k :: k in child.entries && child.entries[k].isDirty && k in parent.entries ==> !Misapplied(child.entries[k], parent.entries[k])
  }

  /** One dirty entry; false when the code throws. */
  method WriteEntry(parent: Cache, k: Key, e: Entry) returns (ok: bool, r: Cache)
    requires Linked(parent)
    ensures ok <==> !(k in parent.entries && Misapplied(e, parent.entries[k]))
    ensures ok ==> Linked(r) && r.hashBlock == parent.hashBlock
    ensures ok ==> forall x :: Get(r.entries, x) == if x == k then Merged(e, Get(parent.entries, k)) else Get(parent.entries, x)
  {
    ok, r := true, parent;
    var prunable := (e.isPegin && !e.peginSpent) || (!e.isPegin && e.coin.Spent?);
    if k !in parent.entries {
      if !(e.isFresh && prunable) {
        var entry := Entry(e.coin, e.isPegin && e.peginSpent, true, e.isFresh, e.isPegin);
        PutLinked(parent, k, entry);
        r := Put(parent, k, entry);
      }
    } else {
      var us := parent.entries[k];
      if e.isFresh && !us.coin.Spent? { return false, parent; }
      if us.isFresh && prunable {
        EraseLinked(parent, k);
        r := Erase(parent, k);
      } else {
        var entry := us.(coin := e.coin, peginSpent := if e.isPegin then e.peginSpent else us.peginSpent, isDirty := true);
        PutLinked(parent, k, entry);
        r := Put(parent, k, entry);
      }
    }
  }

  /** CCoinsViewCache::BatchWrite: go through the flagged entries of the child. */
  method BatchWrite(parent: Cache, child: Cache, hashBlock: nat) returns (ok: bool, r: Cache)
    requires Linked(parent) && Linked(child)
    ensures ok <==> NoneMisapplied(child, parent)
    ensures Known(child) && (ok ==> Linked(r) && r.hashBlock == hashBlock && WrittenUpTo(child, parent, r, |child.flagged|))
  {
    hide Linked, WrittenUpTo, NoneMisapplied;
    ok, r := true, parent;
    var i := 0;
    FlaggedEntries(child);
    NothingWritten(child, parent);
    while i < |child.flagged|
      invariant 0 <= i <= |child.flagged| && Linked(r)
      invariant WrittenUpTo(child, parent, r, i) && NoneMisappliedUpTo(child, parent, i)
    {
      var k := child.flagged[i];
      NotYetWritten(child, parent, r, i);
      if child.entries[k].isDirty {
        ghost var before := r;
        ok, r := WriteEntry(r, k, child.entries[k]);
        if !ok {
          SomeMisapplied(child, parent, k);
          return;
        }
        WrittenOne(child, parent, before, r, i);
      } else {
        WrittenOne(child, parent, r, r, i);
      }
      i := i + 1;
    }
    AllRight(child, parent);
    HashOnly(child, parent, r, hashBlock);
    r := r.(hashBlock := hashBlock);
  }

  lemma {:induction false} FlaggedEntries(c: Cache)
    requires Linked(c)
    ensures Known(c)
    ensures forall i :: 0 <= i < |c.flagged| ==> c.flagged[i] in c.entries
  {
    forall i | 0 <= i < |c.flagged| ensures c.flagged[i] in c.entries { assert c.flagged[i] in c.flagged; }
  }

  lemma {:induction false} NothingWritten(child: Cache, parent: Cache)
    requires Known(child)
    ensures WrittenUpTo(child, parent, parent, 0)
  {
  }

  ghost predicate NoneMisappliedUpTo(child: Cache, parent: Cache, i: nat)
    requires i <= |child.flagged| && forall j :: 0 <= j < |child.flagged| ==> child.flagged[j] in child.entries
  {
    forall j :: 0 <= j < i ==> var k := child.flagged[j];
      child.entries[k].isDirty && k in parent.entries ==> !Misapplied(child.entries[k], parent.entries[k])
  }

  lemma {:induction false} SomeMisapplied(child: Cache, parent: Cache, k: Key)
    requires k in child.entries && child.entries[k].isDirty && k in parent.entries && Misapplied(child.entries[k], parent.entries[k])
    ensures !NoneMisapplied(child, parent)
  {
  }

  lemma {:induction false} AllRight(child: Cache, parent: Cache)
    requires Linked(child) && (forall j :: 0 <= j < |child.flagged| ==> child.flagged[j] in child.entries)
    requires NoneMisappliedUpTo(child, parent, |child.flagged|)
    ensures NoneMisapplied(child, parent)
  {
    forall k | k in child.entries && child.entries[k].isDirty && k in parent.entries
      ensures !Misapplied(child.entries[k], parent.entries[k])
    {
      assert k in child.flagged;
      var j :| 0 <= j < |child.flagged| && child.flagged[j] == k;
    }
  }

  lemma {:induction false} HashOnly(child: Cache, parent: Cache, r: Cache, hashBlock: nat)
    requires Known(child) && WrittenUpTo(child, parent, r, |child.flagged|) && Linked(r)
    ensures WrittenUpTo(child, parent, r.(hashBlock := hashBlock), |child.flagged|) && Linked(r.(hashBlock := hashBlock))
  {
    var q := r.(hashBlock := hashBlock);
    forall k ensures Get(q.entries, k) == WrittenEntry(child, parent, |child.flagged|, k) {
      assert Get(r.entries, k) == WrittenEntry(child, parent, |child.flagged|, k);
    }
  }

  lemma {:induction false} NotYetWritten(child: Cache, parent: Cache, r: Cache, i: nat)
    requires Linked(child) && i < |child.flagged| && WrittenUpTo(child, parent, r, i)
    ensures var k := child.flagged[i]; k in child.entries && Get(r.entries, k) == Get(parent.entries, k)
    ensures var k := child.flagged[i]; (k in r.entries <==> k in parent.entries) && (k in r.entries ==> r.entries[k] == parent.entries[k])
  {
    var k := child.flagged[i];
    assert k in child.flagged;
    assert k !in child.flagged[..i];
    assert Get(r.entries, k) == WrittenEntry(child, parent, i, k);
  }

  lemma {:induction false} WrittenOne(child: Cache, parent: Cache, r: Cache, r': Cache, i: nat)
    requires Linked(child) && i < |child.flagged| && WrittenUpTo(child, parent, r, i)
    requires var k := child.flagged[i];
             forall x :: Get(r'.entries, x) == if x == k && child.entries[k].isDirty then Merged(child.entries[k], Get(r.entries, k)) else Get(r.entries, x)
    ensures WrittenUpTo(child, parent, r', i + 1)
  {
    var k := child.flagged[i];
    assert k !in child.flagged[..i];
    assert child.flagged[..i + 1] == child.flagged[..i] + [k];
    forall x ensures Get(r'.entries, x) == WrittenEntry(child, parent, i + 1, x) {
      assert Get(r.entries, x) == WrittenEntry(child, parent, i, x);
      assert Get(r.entries, k) == WrittenEntry(child, parent, i, k);
    }
  }

  // ---------- what the cursor leaves of the child ----------

  ghost predicate SyncedUpTo(child: Cache, r: Cache, i: nat)
    requires i <= |child.flagged|
  {
    && r.flagged == child.flagged[i..]
    && forall k :: Get(r.entries, k) == if k in child.flagged[..i] && k in child.entries then Synced(child.entries[k]) else Get(child.entries, k)
  }

  /** NextAndMaybeErase without erasing: drop spent coins, clear the flags of others. */
  method SyncChild(child: Cache) returns (r: Cache)
    requires Linked(child)
    ensures r.flagged == [] && r.hashBlock == child.hashBlock && Linked(r)
    ensures forall k :: Get(r.entries, k) == if k in child.entries then Synced(child.entries[k]) else None
  {
    r := child;
    var i := 0;
    assert child.flagged[0..] == child.flagged;
    while i < |child.flagged|
      invariant 0 <= i <= |child.flagged| && SyncedUpTo(child, r, i) && r.hashBlock == child.hashBlock
    {
      var k := child.flagged[i];
      SyncNext(child, r, i);
      if r.entries[k].coin.Spent? {
        r := Erase(r, k);
      } else {
        r := Clean(r, k);
      }
      i := i + 1;
    }
    SyncDone(child, r);
  }

  lemma {:induction false} WithoutFirst(l: seq<Key>)
    requires l != [] && Distinct(l)
    ensures Without(l, l[0]) == l[1..]
  {
    assert l[0] !in l[1..];
    WithoutNone(l[1..], l[0]);
  }

  lemma {:induction false} WithoutNone(l: seq<Key>, k: Key)
    requires k !in l
    ensures Without(l, k) == l
  {
    if l != [] { WithoutNone(l[1..], k); }
  }

  lemma {:induction false} SyncNext(child: Cache, r: Cache, i: nat)
    requires Linked(child) && i < |child.flagged| && SyncedUpTo(child, r, i)
    ensures var k := child.flagged[i];
            && k in r.entries && k in child.entries && r.entries[k] == child.entries[k]
            && SyncedUpTo(child, if r.entries[k].coin.Spent? then Erase(r, k) else Clean(r, k), i + 1)
  {
    var k := child.flagged[i];
    assert k in child.flagged && k !in child.flagged[..i];
    assert Get(r.entries, k) == Get(child.entries, k);
    assert child.flagged[..i + 1] == child.flagged[..i] + [k];
    assert r.flagged[0] == k && r.flagged[1..] == child.flagged[i + 1..];
    assert Distinct(r.flagged);
    WithoutFirst(r.flagged);
    var s := if r.entries[k].coin.Spent? then Erase(r, k) else Clean(r, k);
    forall x ensures Get(s.entries, x) == if x in child.flagged[..i + 1] && x in child.entries then Synced(child.entries[x]) else Get(child.entries, x) {
      if x != k { assert Get(s.entries, x) == Get(r.entries, x); }
    }
  }

  lemma {:induction false} SyncDone(child: Cache, r: Cache)
    requires Linked(child) && SyncedUpTo(child, r, |child.flagged|)
    ensures r.flagged == [] && Linked(r)
    ensures forall k :: Get(r.entries, k) == if k in child.entries then Synced(child.entries[k]) else None
  {
    assert child.flagged[..|child.flagged|] == child.flagged;
    forall k ensures Get(r.entries, k) == if k in child.entries then Synced(child.entries[k]) else None {
      assert k in child.flagged <==> k in child.entries && Flagged(child.entries[k]);
    }
    forall k | k in r.entries ensures !Flagged(r.entries[k]) {
      assert Get(r.entries, k) == Some(r.entries[k]);
    }
  }

  // ---------- into the database ----------

  ghost function DbEntry(child: Cache, db: map<Key, Data>, i: nat, k: Key): Data
    requires i <= |child.flagged| && Known(child)
  {
    if k in child.flagged[..i] && child.entries[k].isDirty then Stored(k, child.entries[k]) else Read(db, k)
  }

  ghost function Read(db: map<Key, Data>, k: Key): Data { if k in db then db[k] else Absent }

  ghost predicate DbUpTo(child: Cache, db: map<Key, Data>, r: map<Key, Data>, i: nat)
    requires i <= |child.flagged| && Known(child)
  {
    (forall k :: Read(r, k) == DbEntry(child, db, i, k)) && (forall k :: k in r && r[k] == Absent ==> k in db && db[k] == Absent)
  }

  /** The database: write or erase the keys of dirty entries. */
  method BatchWriteDb(db: map<Key, Data>, child: Cache) returns (r: map<Key, Data>)
    requires Linked(child) && forall k :: k in child.entries ==> (child.entries[k].isPegin <==> !Native(k))
    ensures Known(child)
    ensures DbUpTo(child, db, r, |child.flagged|)
  {
    r := db;
    var i := 0;
    FlaggedEntries(child);
    while i < |child.flagged|
      invariant 0 <= i <= |child.flagged| && DbUpTo(child, db, r, i)
    {
      var k := child.flagged[i];
      var e := child.entries[k];
      ghost var before := r;
      if e.isDirty {
        if e.isPegin {
          if !e.peginSpent { r := r - {k}; } else { r := r[k := PeginUsed]; }
        } else {
          if e.coin.Spent? { r := r - {k}; } else { r := r[k := Unspent(e.coin)]; }
        }
      }
      DbOne(child, db, before, r, i);
      i := i + 1;
    }
  }

  lemma {:induction false} DbOne(child: Cache, db: map<Key, Data>, r: map<Key, Data>, r': map<Key, Data>, i: nat)
    requires Known(child) && i < |child.flagged| && DbUpTo(child, db, r, i)
    requires child.flagged[i] in child.entries
    requires var k := child.flagged[i]; var e := child.entries[k];
             && (forall x :: Read(r', x) == if x == k && e.isDirty then Stored(k, e) else Read(r, x))
             && (forall x :: x in r' && r'[x] == Absent ==> x in r && r[x] == Absent)
    ensures DbUpTo(child, db, r', i + 1)
  {
    var k := child.flagged[i];
    assert child.flagged[..i + 1] == child.flagged[..i] + [k];
    forall x ensures Read(r', x) == DbEntry(child, db, i + 1, x) {
      assert Read(r, x) == DbEntry(child, db, i, x);
    }
  }
}

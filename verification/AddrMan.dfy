/** The address manager's operations (src/addrman.cpp:402-690, 870-1001): each keeps the tables
    consistent, and a taken place in the tried table stays taken. */
module AddrMans {
  import opened Options
  import opened Sets
  import opened AddrTables

  const REPLACEMENT := 4 * 3600
  const TEST_WINDOW := 40 * 60

  /** Entry k is still there, perhaps at another place of the random order. */
  ghost predicate Kept(s: State, t: State, k: nat) {
    k in s.mapInfo && k in t.mapInfo && t.mapInfo[k] == s.mapInfo[k].(randomPos := t.mapInfo[k].randomPos)
  }

  /** Taken places in the tried table stay taken, and no identifier is used twice. */
  ghost predicate Onward(s: State, t: State) {
    && s.idCount <= t.idCount && s.vvTried.Keys <= t.vvTried.Keys
    && (forall n :: n in t.mapInfo && n < s.idCount ==> n in s.mapInfo && t.mapInfo[n].addr == s.mapInfo[n].addr)
  }

  /** The same but for the place in the tables. */
  ghost predicate SameData(a: Info, b: Info) {
    a.addr == b.addr && a.source == b.source && a.time == b.time && a.lastTry == b.lastTry && a.lastSuccess == b.lastSuccess
  }

  /** No new entries, and the same data. */
  ghost predicate SomeOf(s: State, t: State) {
    forall k :: k in t.mapInfo ==> k in s.mapInfo && SameData(s.mapInfo[k], t.mapInfo[k])
  }

  /** The same, but perhaps for entry n. */
  ghost predicate SomeBut(s: State, t: State, n: nat) {
    forall k :: k in t.mapInfo && k != n ==> k in s.mapInfo && SameData(s.mapInfo[k], t.mapInfo[k])
  }

  /** The new table without an entry. */
  ghost function Without(v: map<Slot, nat>, n: nat): map<Slot, nat> { map p | p in v && v[p] != n :: v[p] }

  /** Whether entry n gets a slot of the new table: it is free, or what is there may be overwritten. */
  ghost predicate HasRoom(s: State, n: nat, slot: Slot, terrible: nat -> bool) {
    slot in s.vvNew ==> s.vvNew[slot] != n && s.vvNew[slot] in s.mapInfo && n in s.mapInfo
                        && (terrible(s.vvNew[slot]) || (s.mapInfo[s.vvNew[slot]].refCount > 1 && s.mapInfo[n].refCount == 0))
  }

  /** The same for an entry that is not known yet. */
  ghost predicate RoomForNew(s: State, slot: Slot, terrible: nat -> bool) {
    slot in s.vvNew ==> s.vvNew[slot] in s.mapInfo && (terrible(s.vvNew[slot]) || s.mapInfo[s.vvNew[slot]].refCount > 1)
  }

  /** The time that an announcement leaves an entry with. */
  ghost function UpdatedTime(time: int, addrTime: int, penalty: int, now: int): int {
    if time < addrTime - (if now - addrTime < 86400 then 3600 else 86400) - penalty then Max(0, addrTime - penalty) else time
  }

  /** Whether an announcement of a known address is taken further. */
  ghost predicate Newsworthy(e: Info, addrTime: int, penalty: int, now: int, lucky: bool) {
    addrTime > UpdatedTime(e.time, addrTime, penalty, now) && !e.inTried && e.refCount != MAX_REFS && (e.refCount > 0 ==> lucky)
  }

  /** Whether an announcement gets a slot of the new table. */
  ghost predicate Inserts(h: Hashes, s: State, addr: nat, source: nat, addrTime: int, penalty: int, now: int, lucky: bool, terrible: nat -> bool) {
    var slot := NewSlot(h, addr, h.newBucket(addr, source));
    if addr in s.mapAddr && s.mapAddr[addr] in s.mapInfo then
      Newsworthy(s.mapInfo[s.mapAddr[addr]], addrTime, penalty, now, lucky) && HasRoom(s, s.mapAddr[addr], slot, terrible)
    else RoomForNew(s, slot, terrible)
  }

  /** Where an entry belongs in the new table. */
  function HomeSlot(h: Hashes, e: Info): Slot { NewSlot(h, e.addr, h.newBucket(e.addr, e.source)) }

  /** The new table after entry n has gone to its place in the tried table: what was there is back home. */
  ghost function NewAfter(h: Hashes, s: State, n: nat): map<Slot, nat>
    requires n in s.mapInfo
  {
    var p := TriedSlot(h, s.mapInfo[n].addr);
    if p in s.vvTried && s.vvTried[p] in s.mapInfo
    then Without(s.vvNew, n)[HomeSlot(h, s.mapInfo[s.vvTried[p]]) := s.vvTried[p]] else Without(s.vvNew, n)
  }

  lemma {:induction false} SomeSelf(s: State)
    ensures SomeOf(s, s)
  {
  }

  lemma {:induction false} SomeTrans(s: State, t: State, u: State)
    requires SomeOf(s, t) && SomeOf(t, u)
    ensures SomeOf(s, u)
  {
  }

  lemma {:induction false} KeptSome(s: State, t: State, n: nat)
    requires t.mapInfo.Keys == s.mapInfo.Keys - {n} && forall k :: k in s.mapInfo && k != n ==> Kept(s, t, k)
    ensures SomeOf(s, t)
  {
    forall k | k in t.mapInfo ensures k in s.mapInfo && SameData(s.mapInfo[k], t.mapInfo[k]) { assert Kept(s, t, k); }
  }

  lemma {:induction false} UnlistedSome(s: State, t: State, n: nat)
    requires n in s.mapInfo && t.mapInfo == s.mapInfo[n := s.mapInfo[n].(refCount := 0)]
    ensures SomeOf(s, t)
  {
  }

  lemma {:induction false} PromotedOnward(s: State, t: State, u: State, n: nat, p: Slot)
    requires SomeOf(s, t) && n in t.mapInfo && u.mapInfo == t.mapInfo[n := t.mapInfo[n].(inTried := true)] && u.idCount == s.idCount
    requires u.vvTried == t.vvTried[p := n] && (t.vvTried == s.vvTried || t.vvTried == s.vvTried - {p})
    ensures Onward(s, u) && u.vvTried == s.vvTried[p := n] && SomeOf(s, u)
  {
    forall k | k in u.mapInfo ensures k in s.mapInfo && SameData(s.mapInfo[k], u.mapInfo[k]) {
      assert k in t.mapInfo && SameData(s.mapInfo[k], t.mapInfo[k]);
    }
  }

  lemma {:induction false} BucketRange(h: Hashes, a: nat, src: nat)
    requires HashesOk(h)
    ensures h.newBucket(a, src) < NEW_BUCKETS
  {
  }

  lemma {:induction false} OnwardTrans(s: State, t: State, u: State)
    requires Onward(s, t) && Onward(t, u)
    ensures Onward(s, u)
  {
  }

  /** Waiting entries keep waiting for a taken place. */
  lemma {:induction false} CollidingKeeps(h: Hashes, s: State, t: State)
    requires Colliding(h, s) && Onward(s, t) && t.collisions <= s.collisions
    ensures Colliding(h, t)
  {
  }

  /** What holds between operations. */
  ghost predicate Consistent(h: Hashes, s: State) { Inv(h, s, {}, {}) && Colliding(h, s) }

  class AddrMan {
    const h: Hashes
    var idCount: nat
    var mapInfo: map<nat, Info>
    var mapAddr: map<nat, nat>
    var vRandom: seq<nat>
    var vvNew: map<Slot, nat>
    var vvTried: map<Slot, nat>
    var nNew: int
    var nTried: int
    var counts: map<nat, Count>
    var collisions: set<nat>

    ghost function S(): State
      reads this
    {
      State(idCount, mapInfo, mapAddr, vRandom, vvNew, vvTried, nNew, nTried, counts, collisions)
    }

    constructor (hashes: Hashes)
      ensures h == hashes && Consistent(h, S()) && mapInfo == map[]
    {
      h := hashes;
      idCount, mapInfo, mapAddr, vRandom, vvNew, vvTried, nNew, nTried, counts, collisions := 0, map[], map[], [], map[], map[], 0, 0, map[], {};
      new;
      EmptyOk(h, S());
    }

    method Find(addr: nat) returns (n: Option<nat>)
      requires Indexed(S())
      ensures n.Some? ==> n.value in mapInfo && mapInfo[n.value].addr == addr
      ensures n.None? ==> addr !in mapAddr
    {
      if addr !in mapAddr { return None; }
      assert AddrAt(S(), addr);
      n := Some(mapAddr[addr]);
    }

    method Create(addr: nat, source: nat, time: int, ghost bare: set<nat>, ghost out: set<nat>) returns (n: nat)
      requires Inv(h, S(), bare, out) && addr !in mapAddr
      modifies this
      ensures n == old(idCount) && S() == Created(h, old(S()), addr, source, time) && Inv(h, S(), bare + {n}, out)
    {
      hide Inv;
      CreatedKeeps(h, S(), addr, source, time, bare, out);
      n := idCount;
      var info := Info(addr, source, time, 0, 0, 0, false, -1);
      PutTwice(mapInfo, n, info, info.(randomPos := |vRandom|));
      idCount := idCount + 1;
      mapInfo := mapInfo[n := info];
      mapAddr := mapAddr[addr := n];
      mapInfo := mapInfo[n := info.(randomPos := |vRandom|)];
      vRandom := vRandom + [n];
      nNew := nNew + 1;
      counts := Bump(counts, h.network(addr), 1, 0);
    }

    method SwapRandom(i: nat, j: nat, ghost bare: set<nat>, ghost out: set<nat>)
      requires Inv(h, S(), bare, out) && i < |vRandom| && j < |vRandom|
      modifies this`mapInfo, this`vRandom
      ensures Inv(h, S(), bare, out) && SameButOrder(old(S()), S()) && vRandom[j] == old(vRandom)[i]
    {
      hide Inv, SameButOrder;
      SwappedKeeps(h, S(), i, j, bare, out);
      if i == j { return; }
      var id1, id2 := vRandom[i], vRandom[j];
      assert id1 in mapInfo && id2 in mapInfo;
      mapInfo := mapInfo[id1 := mapInfo[id1].(randomPos := j)];
      mapInfo := mapInfo[id2 := mapInfo[id2].(randomPos := i)];
      vRandom := vRandom[i := id2];
      vRandom := vRandom[j := id1];
    }

    /** Delete an entry without references. */
    method Delete(n: nat, ghost bare: set<nat>, ghost out: set<nat>)
      requires Inv(h, S(), bare, out) && n in bare - out
      modifies this
      ensures Inv(h, S(), bare - {n}, out) && mapInfo.Keys == old(mapInfo).Keys - {n}
      ensures vvNew == old(vvNew) && vvTried == old(vvTried) && collisions == old(collisions) && idCount == old(idCount)
      ensures forall k :: k in old(mapInfo) && k != n ==> Kept(old(S()), S(), k)
    {
      hide Inv;
      BareEntry(h, S(), bare, out, n);
      assert !mapInfo[n].inTried && mapInfo[n].refCount == 0;
      OrderEntry(h, S(), bare, out, n);
      SwapRandom(mapInfo[n].randomPos, |vRandom| - 1, bare, out);
      PoppedKeeps(h, S(), n, bare, out);
      var addr := mapInfo[n].addr;
      counts := Bump(counts, h.network(addr), -1, 0);
      vRandom := vRandom[..|vRandom| - 1];
      mapAddr := mapAddr - {addr};
      mapInfo := mapInfo - {n};
      nNew := nNew - 1;
    }

    /** Empty a slot of the new table, deleting its entry with the last reference. */
    method ClearNew(p: Slot, ghost bare: set<nat>, ghost out: set<nat>)
      requires Inv(h, S(), bare, out)
      modifies this
      ensures Inv(h, S(), bare, out) && vvNew == old(vvNew) - {p} && vvTried == old(vvTried) && collisions == old(collisions) && idCount == old(idCount)
      ensures forall k :: k in old(mapInfo) && (p in old(vvNew) ==> k != old(vvNew)[p]) ==> Kept(old(S()), S(), k)
      ensures SomeOf(old(S()), S())
    {
      hide Inv;
      if p in vvNew {
        SlotEntry(h, S(), bare, out, p);
        DroppedKeeps(h, S(), p, bare, out);
        var n := vvNew[p];
        assert mapInfo[n].refCount > 0;
        mapInfo := mapInfo[n := mapInfo[n].(refCount := mapInfo[n].refCount - 1)];
        vvNew := vvNew - {p};
        ghost var mid := S();
        if mapInfo[n].refCount == 0 {
          Delete(n, bare + {n}, out);
          assert bare + {n} - {n} == bare;
          forall k | k in old(mapInfo) && k != n ensures Kept(old(S()), S(), k) { assert Kept(mid, S(), k); }
        }
      } else {
        assert vvNew - {p} == vvNew;
      }
    }

    /** Remove an entry from all buckets of the new table, going round from its own bucket. */
    method Unlist(n: nat)
      requires Inv(h, S(), {}, {}) && n in mapInfo && !mapInfo[n].inTried && HashesOk(h)
      modifies this`vvNew, this`mapInfo
      ensures Inv(h, S(), {n}, {}) && mapInfo == old(mapInfo)[n := old(mapInfo)[n].(refCount := 0)]
      ensures vvNew == Without(old(vvNew), n)
    {
      hide Inv;
      var info := mapInfo[n];
      var startBucket := h.newBucket(info.addr, info.source);
      var j := 0;
      UnlistStart(h, S(), n, startBucket);
      while j < NEW_BUCKETS
        invariant 0 <= j <= NEW_BUCKETS && Unlisting(h, old(S()), S(), n, startBucket, j) && mapInfo[n].refCount > 0
      {
        var bucket := (startBucket + j) % NEW_BUCKETS;
        var p := NewSlot(h, info.addr, bucket);
        UnlistStep(h, old(S()), S(), n, startBucket, j, p);
        if p in vvNew && vvNew[p] == n {
          vvNew := vvNew - {p};
          mapInfo := mapInfo[n := mapInfo[n].(refCount := mapInfo[n].refCount - 1)];
          if mapInfo[n].refCount == 0 { break; }
        }
        j := j + 1;
      }
      UnlistEnd(h, old(S()), S(), n, startBucket, j);
      assert mapInfo[n].refCount == 0;
    }

    /** Take the entry of a slot out of the tried table. */
    method LeaveTried(p: Slot, ghost bare: set<nat>) returns (n: nat)
      requires Inv(h, S(), bare, bare) && p in vvTried
      modifies this`mapInfo, this`vvTried, this`nTried, this`counts
      ensures n == old(vvTried)[p] && n in old(mapInfo) && n !in bare && S() == Evicted(h, old(S()), p)
      ensures Inv(h, S(), bare + {n}, bare + {n}) && forall q :: q in vvNew ==> vvNew[q] != n
    {
      hide Inv;
      TriedEntry(h, S(), bare, bare, p);
      EvictedKeeps(h, S(), p, bare, bare);
      n := vvTried[p];
      var infoOld := mapInfo[n];
      mapInfo := mapInfo[n := infoOld.(inTried := false)];
      vvTried := vvTried - {p};
      nTried := nTried - 1;
      counts := Bump(counts, h.network(infoOld.addr), 0, -1);
    }

    /** Put an entry without place into a free slot of the new table. */
    method EnterNew(n: nat, slot: Slot, ghost bare: set<nat>)
      requires Inv(h, S(), bare + {n}, bare + {n}) && n !in bare && n in mapInfo
      requires slot !in vvNew && slot.bucket < NEW_BUCKETS && slot == NewSlot(h, mapInfo[n].addr, slot.bucket)
      modifies this`mapInfo, this`vvNew, this`nNew, this`counts
      ensures Inv(h, S(), bare, bare) && mapInfo == old(mapInfo)[n := old(mapInfo)[n].(refCount := 1)] && vvNew == old(vvNew)[slot := n]
    {
      hide Inv;
      ghost var both := bare + {n};
      BareEntry(h, S(), both, both, n);
      AdmitKeeps(h, S(), n, both, both);
      assert both - {n} == bare;
      ListedKeeps(h, Recounted(h, S(), mapInfo[n].addr, 1, 0), slot, n, both, bare);
      mapInfo := mapInfo[n := mapInfo[n].(refCount := 1)];
      vvNew := vvNew[slot := n];
      nNew := nNew + 1;
      counts := Bump(counts, h.network(mapInfo[n].addr), 1, 0);
    }

    /** Make room in a slot of the tried table: its entry goes back to the new table. */
    method EvictTried(p: Slot, ghost n: nat)
      requires Inv(h, S(), {n}, {n}) && p in vvTried && HashesOk(h)
      modifies this
      ensures Inv(h, S(), {n}, {n}) && vvTried == old(vvTried) - {p} && collisions == old(collisions) && idCount == old(idCount)
      ensures Kept(old(S()), S(), n) && SomeOf(old(S()), S()) && old(vvTried)[p] in old(mapInfo)
      ensures vvNew == old(vvNew)[HomeSlot(h, old(mapInfo)[old(vvTried)[p]]) := old(vvTried)[p]]
    {
      hide Inv, HashesOk;
      InMap(h, S(), {n}, {n}, n);
      var evict := LeaveTried(p, {n});
      ghost var s1 := S();
      var bucket := h.newBucket(mapInfo[evict].addr, mapInfo[evict].source);
      BucketRange(h, mapInfo[evict].addr, mapInfo[evict].source);
      var slot := NewSlot(h, mapInfo[evict].addr, bucket);
      ClearNew(slot, {n} + {evict}, {n} + {evict});
      assert Kept(s1, S(), evict) && Kept(s1, S(), n);
      assert slot !in vvNew;
      EnterNew(evict, slot, {n});
    }

    /** An entry without references leaves the new table. */
    method LeaveNew(n: nat)
      requires Inv(h, S(), {n}, {}) && n in mapInfo
      modifies this`nNew, this`counts
      ensures Inv(h, S(), {n}, {n})
    {
      hide Inv;
      WithdrawKeeps(h, S(), n, {n}, {});
      assert {} + {n} == {n};
      nNew := nNew - 1;
      counts := Bump(counts, h.network(mapInfo[n].addr), -1, 0);
    }

    method EnterTried(n: nat)
      requires Inv(h, S(), {n}, {n}) && n in mapInfo && TriedSlot(h, mapInfo[n].addr) !in vvTried && mapInfo[n].lastSuccess > 0
      modifies this`mapInfo, this`vvTried, this`nTried, this`counts
      ensures Inv(h, S(), {}, {}) && mapInfo == old(mapInfo)[n := old(mapInfo)[n].(inTried := true)]
      ensures vvTried == old(vvTried)[TriedSlot(h, old(mapInfo)[n].addr) := n]
    {
      hide Inv;
      PromotedKeeps(h, S(), n, {n}, {n});
      assert {n} - {n} == {};
      vvTried := vvTried[TriedSlot(h, mapInfo[n].addr) := n];
      nTried := nTried + 1;
      mapInfo := mapInfo[n := mapInfo[n].(inTried := true)];
      counts := Bump(counts, h.network(mapInfo[n].addr), 0, 1);
    }

    /** Promote a new entry; what it displaces goes back among the new ones. */
    method MakeTried(n: nat)
      requires Inv(h, S(), {}, {}) && n in mapInfo && !mapInfo[n].inTried && mapInfo[n].lastSuccess > 0 && HashesOk(h)
      modifies this
      ensures Inv(h, S(), {}, {}) && Onward(old(S()), S()) && SomeOf(old(S()), S()) && collisions == old(collisions)
      ensures n in mapInfo && mapInfo[n].inTried && vvTried == old(vvTried)[TriedSlot(h, old(mapInfo)[n].addr) := n]
      ensures vvNew == NewAfter(h, old(S()), n)
    {
      hide Inv, HashesOk, SomeOf, Onward;
      ghost var s0 := S();
      Unlist(n);
      LeaveNew(n);
      UnlistedSome(s0, S(), n);
      assert mapInfo[n].refCount == 0;
      var p := TriedSlot(h, mapInfo[n].addr);
      ghost var s1 := S();
      if p in vvTried { EvictTried(p, n); } else { SomeSelf(s1); }
      SomeTrans(s0, s1, S());
      ghost var s2 := S();
      EnterTried(n);
      PromotedOnward(s0, s2, S(), n, p);
    }

    /** Put entry n into a slot of the new table, over what is there. */
    method Overwrite(n: nat, slot: Slot, ghost bare: set<nat>)
      requires Inv(h, S(), bare, {}) && n in mapInfo && !mapInfo[n].inTried && mapInfo[n].refCount < MAX_REFS && bare <= {n}
      requires slot.bucket < NEW_BUCKETS && slot == NewSlot(h, mapInfo[n].addr, slot.bucket) && (slot in vvNew ==> vvNew[slot] != n)
      modifies this
      ensures Inv(h, S(), {}, {}) && vvTried == old(vvTried) && collisions == old(collisions) && idCount == old(idCount) && SomeOf(old(S()), S())
      ensures n in mapInfo && vvNew == old(vvNew)[slot := n]
    {
      hide Inv;
      ghost var s0 := S();
      ClearNew(slot, bare, {});
      assert Kept(s0, S(), n);
      ListedKeeps(h, S(), slot, n, bare, {});
      assert bare - {n} == {};
      mapInfo := mapInfo[n := mapInfo[n].(refCount := mapInfo[n].refCount + 1)];
      vvNew := vvNew[slot := n];
    }

    /** Give entry n a slot of the new table, unless what is there is to stay; an entry that would
        be left without any is deleted. */
    method PlaceNew(n: nat, slot: Slot, terrible: nat -> bool, ghost bare: set<nat>) returns (fInsert: bool)
      requires Inv(h, S(), bare, {}) && n in mapInfo && !mapInfo[n].inTried && mapInfo[n].refCount < MAX_REFS
      requires bare == (if mapInfo[n].refCount == 0 then {n} else {}) && slot.bucket < NEW_BUCKETS && slot == NewSlot(h, mapInfo[n].addr, slot.bucket)
      modifies this
      ensures Inv(h, S(), {}, {}) && vvTried == old(vvTried) && collisions == old(collisions) && idCount == old(idCount) && SomeOf(old(S()), S())
      ensures fInsert <==> HasRoom(old(S()), n, slot, terrible)
      ensures fInsert ==> n in mapInfo && vvNew == old(vvNew)[slot := n]
      ensures !fInsert ==> vvNew == old(vvNew) && slot in vvNew && (n in mapInfo <==> old(mapInfo)[n].refCount > 0)
    {
      hide Inv, SomeOf;
      EntryFacts(h, S(), bare, {}, n);
      SomeSelf(S());
      fInsert := slot !in vvNew;
      if slot in vvNew { SlotEntry(h, S(), bare, {}, slot); }
      if slot in vvNew && vvNew[slot] == n { return; }
      if !fInsert {
        var existing := mapInfo[vvNew[slot]];
        if terrible(vvNew[slot]) || (existing.refCount > 1 && mapInfo[n].refCount == 0) { fInsert := true; }
      }
      if fInsert {
        Overwrite(n, slot, bare);
      } else if mapInfo[n].refCount == 0 {
        ghost var s0 := S();
        Delete(n, bare, {});
        assert bare - {n} == {};
        KeptSome(s0, S(), n);
      }
    }

    /** Update an entry's own data. */
    method Update(n: nat, e: Info)
      requires Inv(h, S(), {}, {}) && n in mapInfo && SamePlace(mapInfo[n], e) && TimesOk(e)
      modifies this`mapInfo
      ensures Inv(h, S(), {}, {}) && mapInfo == old(mapInfo)[n := e] && Onward(old(S()), S())
    {
      hide Inv;
      EditKeeps(h, S(), n, e, {}, {});
      mapInfo := mapInfo[n := e];
    }

    /** An announcement of a known address. */
    method AddKnown(n: nat, addr: nat, source: nat, addrTime: int, penalty: int, now: int, lucky: bool, terrible: nat -> bool) returns (inserted: bool)
      requires Consistent(h, S()) && HashesOk(h) && n in mapInfo && mapInfo[n].addr == addr
      modifies this
      ensures Consistent(h, S()) && Onward(old(S()), S()) && vvTried == old(vvTried) && collisions == old(collisions)
      ensures inserted <==> Newsworthy(old(mapInfo)[n], addrTime, penalty, now, lucky)
                            && HasRoom(old(S()), n, NewSlot(h, addr, h.newBucket(addr, source)), terrible)
      ensures vvNew == if inserted then old(vvNew)[NewSlot(h, addr, h.newBucket(addr, source)) := n] else old(vvNew)
      ensures n in mapInfo && mapInfo[n].time == UpdatedTime(old(mapInfo)[n].time, addrTime, penalty, now)
    {
      hide Inv, Colliding, HashesOk, HasRoom;
      ghost var s0 := S();
      EntryFacts(h, S(), {}, {}, n);
      var updateInterval := if now - addrTime < 86400 then 3600 else 86400;
      if mapInfo[n].time < addrTime - updateInterval - penalty {
        Update(n, mapInfo[n].(time := Max(0, addrTime - penalty)));
      }
      CollidingKeeps(h, s0, S());
      if addrTime <= mapInfo[n].time || mapInfo[n].inTried || mapInfo[n].refCount == MAX_REFS { return false; }
      if mapInfo[n].refCount > 0 && !lucky { return false; }
      ghost var s1 := S();
      var bucket := h.newBucket(addr, source);
      BucketRange(h, addr, source);
      SameRoom(h, s0, s1, n, NewSlot(h, addr, bucket), terrible);
      inserted := PlaceNew(n, NewSlot(h, addr, bucket), terrible, {});
      AddedOk(h, s0, s1, S());
    }

    /** An announcement of an unknown address. */
    method AddUnknown(addr: nat, source: nat, time: int, terrible: nat -> bool) returns (inserted: bool)
      requires Consistent(h, S()) && HashesOk(h) && addr !in mapAddr
      modifies this
      ensures Consistent(h, S()) && Onward(old(S()), S()) && vvTried == old(vvTried) && collisions == old(collisions)
      ensures inserted <==> RoomForNew(old(S()), NewSlot(h, addr, h.newBucket(addr, source)), terrible)
      ensures vvNew == if inserted then old(vvNew)[NewSlot(h, addr, h.newBucket(addr, source)) := old(idCount)] else old(vvNew)
      ensures old(idCount) in mapInfo <==> inserted
      ensures inserted ==> mapInfo[old(idCount)].addr == addr && mapInfo[old(idCount)].source == source && mapInfo[old(idCount)].time == time
      ensures !inserted ==> addr !in mapAddr
    {
      hide Inv, Colliding, HashesOk, HasRoom, RoomForNew;
      ghost var s0 := S();
      var n := Create(addr, source, time, {}, {});
      assert {} + {n} == {n};
      ghost var s1 := S();
      CreatedOnward(h, s0, s1, addr, source, time);
      BucketRange(h, addr, source);
      var bucket := h.newBucket(addr, source);
      SameRoom(h, s0, s1, n, NewSlot(h, addr, bucket), terrible);
      inserted := PlaceNew(n, NewSlot(h, addr, bucket), terrible, {n});
      AddedOk(h, s0, s1, S());
      if !inserted { NoAddr(h, s1, S(), n, addr); }
    }

    /** Add one address heard of from a source.  `lucky` is the outcome of the stochastic test. */
    method AddSingle(addr: nat, source: nat, addrTime: int, penalty: int, now: int, routable: bool, lucky: bool, terrible: nat -> bool) returns (inserted: bool)
      requires Consistent(h, S()) && HashesOk(h)
      modifies this
      ensures Consistent(h, S()) && Onward(old(S()), S()) && vvTried == old(vvTried) && collisions == old(collisions)
      ensures inserted <==> routable && Inserts(h, old(S()), addr, source, addrTime, if addr == source then 0 else penalty, now, lucky, terrible)
      ensures inserted ==> addr in mapAddr && vvNew == old(vvNew)[NewSlot(h, addr, h.newBucket(addr, source)) := mapAddr[addr]]
      ensures !inserted ==> vvNew == old(vvNew) && (addr in mapAddr ==> addr in old(mapAddr))
      ensures addr in old(mapAddr) ==> addr in mapAddr && mapAddr[addr] == old(mapAddr)[addr]
      ensures routable && addr in mapAddr ==>
        mapAddr[addr] in mapInfo
        && mapInfo[mapAddr[addr]].time == AnnouncedTime(old(S()), addr, addrTime, if addr == source then 0 else penalty, now)
    {
      hide Inv, Colliding, HashesOk, HasRoom, RoomForNew, Newsworthy, UpdatedTime;
      OnwardSelf(S());
      InvAddr(h, S(), addr);
      if !routable { return false; }
      InvIndexed(h, S());
      var timePenalty := if addr == source then 0 else penalty;
      var found := Find(addr);
      if found.Some? {
        AddrOf(h, S(), found.value);
        inserted := AddKnown(found.value, addr, source, addrTime, timePenalty, now, lucky, terrible);
        SameAddr(old(S()), S(), h, found.value);
        AddrOf(h, S(), found.value);
      } else {
        inserted := AddUnknown(addr, source, Max(0, addrTime - timePenalty), terrible);
        if inserted { AddrOf(h, S(), old(idCount)); }
      }
    }

    /** A successful connection: the entry moves to the tried table, or waits if its place is to
        be tested first. */
    method Good(addr: nat, testBeforeEvict: bool, time: int) returns (moved: bool)
      requires Consistent(h, S()) && HashesOk(h) && time > 0
      modifies this
      ensures Consistent(h, S()) && Onward(old(S()), S())
      ensures addr !in old(mapAddr) ==> !moved && S() == old(S())
      ensures addr in old(mapAddr) ==>
        var n := old(mapAddr)[addr];
        var p := TriedSlot(h, addr);
        && n in old(mapInfo) && n in mapInfo && SameData(mapInfo[n], old(mapInfo)[n].(lastSuccess := time, lastTry := time)) && SomeBut(old(S()), S(), n)
        && (moved <==> !old(mapInfo)[n].inTried && !(testBeforeEvict && p in old(vvTried)))
        && vvTried == (if moved then old(vvTried)[p := n] else old(vvTried))
        && vvNew == (if moved then NewAfter(h, old(S()), n) else old(vvNew))
        && collisions == (if !moved && !old(mapInfo)[n].inTried && |old(collisions)| < MAX_COLLISIONS then old(collisions) + {n} else old(collisions))
    {
      hide Inv, Colliding, HashesOk, Onward, NewAfter, SomeOf, SomeBut;
      ghost var s0 := S();
      InvIndexed(h, S());
      InvAddr(h, S(), addr);
      OnwardSelf(s0);
      var found := Find(addr);
      if found.None? { return false; }
      var n := found.value;
      AddrOf(h, S(), n);
      EntryFacts(h, S(), {}, {}, n);
      Update(n, mapInfo[n].(lastSuccess := time, lastTry := time));
      CollidingKeeps(h, s0, S());
      EditSome(s0, S(), n);
      if mapInfo[n].inTried { return false; }
      assert mapInfo[n].refCount > 0;
      var p := TriedSlot(h, mapInfo[n].addr);
      if testBeforeEvict && p in vvTried {
        if |collisions| < MAX_COLLISIONS {
          AddCollision(h, S(), n);
          collisions := collisions + {n};
          SameButCollisions(h, s0, old(S()).(mapInfo := mapInfo), S());
          EditSome(s0, S(), n);
        }
        return false;
      }
      ghost var s1 := S();
      EditAfter(h, s0, s1, n);
      MakeTried(n);
      OnwardTrans(s0, s1, S());
      CollidingKeeps(h, s1, S());
      SomeButTrans(s0, s1, S(), n);
      moved := true;
    }

    method Attempt(addr: nat, time: int)
      requires Consistent(h, S()) && time >= 0
      modifies this`mapInfo
      ensures Consistent(h, S()) && Onward(old(S()), S())
      ensures mapInfo == if addr in mapAddr && mapAddr[addr] in old(mapInfo)
                         then old(mapInfo)[mapAddr[addr] := old(mapInfo)[mapAddr[addr]].(lastTry := time)] else old(mapInfo)
    {
      hide Inv, Colliding, Onward;
      InvIndexed(h, S());
      OnwardSelf(S());
      var found := Find(addr);
      if found.None? { return; }
      AddrOf(h, S(), found.value);
      EntryFacts(h, S(), {}, {}, found.value);
      Update(found.value, mapInfo[found.value].(lastTry := time));
      CollidingKeeps(h, old(S()), S());
    }

    method Connected(addr: nat, time: int)
      requires Consistent(h, S())
      modifies this`mapInfo
      ensures Consistent(h, S()) && Onward(old(S()), S())
      ensures mapInfo == if addr in mapAddr && mapAddr[addr] in old(mapInfo) && time - old(mapInfo)[mapAddr[addr]].time > 1200
                         then old(mapInfo)[mapAddr[addr] := old(mapInfo)[mapAddr[addr]].(time := time)] else old(mapInfo)
    {
      hide Inv, Colliding, Onward;
      InvIndexed(h, S());
      OnwardSelf(S());
      var found := Find(addr);
      if found.None? { return; }
      AddrOf(h, S(), found.value);
      EntryFacts(h, S(), {}, {}, found.value);
      if time - mapInfo[found.value].time > 1200 {
        Update(found.value, mapInfo[found.value].(time := time));
        CollidingKeeps(h, old(S()), S());
      }
    }

    /** One waiting entry: whether it no longer has to wait. */
    method ResolveOne(id: nat, now: int, valid: nat -> bool) returns (erase: bool)
      requires Consistent(h, S()) && HashesOk(h) && now > 0 && id in collisions
      modifies this
      ensures Consistent(h, S()) && Onward(old(S()), S()) && collisions == old(collisions)
      ensures erase <==> !Judge(h, old(S()), id, now, valid).Wait?
      ensures !Judge(h, old(S()), id, now, valid).Replace? ==> S() == old(S())
      ensures Judge(h, old(S()), id, now, valid).Replace? ==> Replaced(h, old(S()), S(), id, now)
    {
      hide Inv, HashesOk, Onward;
      OnwardSelf(S());
      if id !in mapInfo { return true; }
      var infoNew := mapInfo[id];
      var p := TriedSlot(h, infoNew.addr);
      assert p in vvTried;
      hide Colliding;
      TriedEntry(h, S(), {}, {}, p);
      if !valid(id) { return true; }
      var infoOld := mapInfo[vvTried[p]];
      AddrOf(h, S(), id);
      AlreadyTried(h, S(), id);
      if now - infoOld.lastSuccess < REPLACEMENT { return true; }
      if now - infoOld.lastTry < REPLACEMENT {
        if now - infoOld.lastTry > 60 {
          var _ := Good(infoNew.addr, false, now);
          return true;
        }
        return false;
      }
      if now - infoNew.lastSuccess > TEST_WINDOW {
        var _ := Good(infoNew.addr, false, now);
        return true;
      }
      erase := false;
    }

    /** Look at all waiting entries, in ascending order. */
    method ResolveCollisions(now: int, valid: nat -> bool) returns (ghost trace: seq<State>, ghost ids: seq<nat>)
      requires Consistent(h, S()) && HashesOk(h) && now > 0
      modifies this
      ensures Consistent(h, S()) && Onward(old(S()), S()) && collisions <= old(collisions)
      ensures Ascending(ids) && SetOf(ids) == old(collisions) && Chain(h, trace, ids, now, valid) && trace[0] == old(S()) && trace[|ids|] == S()
    {
      hide Inv, Colliding, HashesOk, Onward, Consistent, Judge, Replaced, Chain, SetOf;
      OnwardSelf(S());
      var todo := collisions;
      trace, ids := [S()], [];
      NoChain(h, S(), now, valid);
      while todo != {}
        invariant Consistent(h, S()) && Onward(old(S()), S()) && todo <= collisions <= old(collisions)
        invariant Ascending(ids) && SetOf(ids) + todo == old(collisions) && (forall x, y :: x in ids && y in todo ==> x < y)
        invariant Chain(h, trace, ids, now, valid) && |trace| == |ids| + 1 && trace[0] == old(S()) && trace[|ids|] == S()
      {
        var id := First(todo);
        ghost var s1 := S();
        var erase := ResolveOne(id, now, valid);
        OnwardTrans(old(S()), s1, S());
        ghost var s2 := S();
        if erase {
          DropCollision(h, S(), id);
          collisions := collisions - {id};
          SameButCollisions(h, old(S()), s2, S());
        }
        ReplacedStill(h, s1, s2, S(), id, now);
        ChainNext(h, trace, ids, S(), id, now, valid);
        OneMore(ids, todo, id);
        trace, ids := trace + [S()], ids + [id];
        todo := todo - {id};
      }
    }

    /** The entry in whose place a waiting entry, picked at random, would go. */
    method SelectTriedCollision(pick: nat) returns (r: Option<Info>)
      requires Consistent(h, S()) && (collisions != {} ==> pick in collisions)
      modifies this`collisions
      ensures Consistent(h, S())
      ensures r.Some? <==> old(collisions) != {} && pick in mapInfo
      ensures collisions == if old(collisions) != {} && pick !in mapInfo then old(collisions) - {pick} else old(collisions)
      ensures r.Some? ==> TriedSlot(h, mapInfo[pick].addr) in vvTried && vvTried[TriedSlot(h, mapInfo[pick].addr)] in mapInfo
                          && r.value == mapInfo[vvTried[TriedSlot(h, mapInfo[pick].addr)]]
      ensures r.Some? ==> r.value.inTried && TriedSlot(h, r.value.addr) == TriedSlot(h, mapInfo[pick].addr) && r.value in mapInfo.Values
    {
      hide Inv;
      if collisions == {} { return None; }
      if pick !in mapInfo {
        DropCollision(h, S(), pick);
        collisions := collisions - {pick};
        return None;
      }
      var p := TriedSlot(h, mapInfo[pick].addr);
      assert p in vvTried;
      TriedEntry(h, S(), {}, {}, p);
      r := Some(mapInfo[vvTried[p]]);
    }
  }

  /** The time of a known or new entry after an announcement. */
  ghost function AnnouncedTime(s: State, addr: nat, addrTime: int, penalty: int, now: int): int {
    if addr in s.mapAddr && s.mapAddr[addr] in s.mapInfo then UpdatedTime(s.mapInfo[s.mapAddr[addr]].time, addrTime, penalty, now)
    else Max(0, addrTime - penalty)
  }

  lemma {:induction false} SameRoom(h: Hashes, s: State, t: State, n: nat, slot: Slot, terrible: nat -> bool)
    requires Inv(h, s, {}, {}) && n in t.mapInfo && t.vvNew == s.vvNew && (n in s.mapInfo || t.mapInfo[n].refCount == 0)
    requires forall k :: k in s.mapInfo ==> k in t.mapInfo && t.mapInfo[k].refCount == s.mapInfo[k].refCount
    ensures n in s.mapInfo ==> (HasRoom(t, n, slot, terrible) <==> HasRoom(s, n, slot, terrible))
    ensures n !in s.mapInfo ==> (HasRoom(t, n, slot, terrible) <==> RoomForNew(s, slot, terrible))
  {
    hide Inv;
    if slot in s.vvNew { SlotEntry(h, s, {}, {}, slot); }
  }

  lemma {:induction false} CreatedOnward(h: Hashes, s: State, t: State, addr: nat, source: nat, time: int)
    requires Inv(h, s, {}, {}) && addr !in s.mapAddr && t == Created(h, s, addr, source, time)
    ensures Onward(s, t) && s.idCount !in s.mapInfo && forall k :: k in t.mapInfo && t.mapInfo[k].addr == addr ==> k == s.idCount
  {
    forall k | k in s.mapInfo ensures k < s.idCount && s.mapInfo[k].addr != addr { assert EntryAt(s, k); }
  }

  lemma {:induction false} InvAddr(h: Hashes, s: State, addr: nat)
    requires Inv(h, s, {}, {})
    ensures addr in s.mapAddr ==> s.mapAddr[addr] in s.mapInfo && s.mapInfo[s.mapAddr[addr]].addr == addr
  {
    assert addr in s.mapAddr ==> AddrAt(s, addr);
  }

  /** A deleted entry's address is unknown. */
  lemma {:induction false} NoAddr(h: Hashes, s: State, t: State, n: nat, addr: nat)
    requires Inv(h, t, {}, {}) && SomeOf(s, t) && n in s.mapInfo && n !in t.mapInfo
    requires forall k :: k in s.mapInfo && s.mapInfo[k].addr == addr ==> k == n
    ensures addr !in t.mapAddr
  {
    var u := if addr in t.mapAddr then t.mapAddr[addr] else n;
    assert addr in t.mapAddr ==> u in t.mapInfo;
  }

  lemma {:induction false} NoChain(h: Hashes, s: State, now: int, valid: nat -> bool)
    ensures Chain(h, [s], [], now, valid) && SetOf<nat>([]) == {}
  {
  }

  lemma {:induction false} OneMore(ids: seq<nat>, todo: set<nat>, id: nat)
    requires Ascending(ids) && todo != {} && id == First(todo) && forall x, y :: x in ids && y in todo ==> x < y
    ensures Ascending(ids + [id]) && SetOf(ids + [id]) + (todo - {id}) == SetOf(ids) + todo
    ensures forall x, y :: x in ids + [id] && y in todo - {id} ==> x < y
  {
    forall i | 0 <= i < |ids| ensures ids[i] < id { assert ids[i] in ids; }
    assert SetOf(ids + [id]) == SetOf(ids) + {id};
  }

  datatype Verdict = Wait | Drop | Replace

  /** What happens to a waiting entry. */
  ghost function Judge(h: Hashes, s: State, id: nat, now: int, valid: nat -> bool): Verdict {
    if id !in s.mapInfo || !valid(id) then Drop
    else
      var p := TriedSlot(h, s.mapInfo[id].addr);
      if p !in s.vvTried || s.vvTried[p] !in s.mapInfo then Replace
      else
        var holder := s.mapInfo[s.vvTried[p]];
        if now - holder.lastSuccess < REPLACEMENT then Drop
        else if now - holder.lastTry < REPLACEMENT then (if now - holder.lastTry > 60 then Replace else Wait)
        else if now - s.mapInfo[id].lastSuccess > TEST_WINDOW then Replace else Wait
  }

  /** A waiting entry has taken its place in the tried table. */
  ghost predicate Replaced(h: Hashes, s: State, t: State, id: nat, now: int) {
    && id in s.mapInfo && id in t.mapInfo && SameData(t.mapInfo[id], s.mapInfo[id].(lastSuccess := now, lastTry := now)) && SomeBut(s, t, id)
    && t.vvTried == s.vvTried[TriedSlot(h, s.mapInfo[id].addr) := id]
    && t.vvNew == (if s.mapInfo[id].inTried then s.vvNew else NewAfter(h, s, id))
  }

  lemma {:induction false} ReplacedStill(h: Hashes, s: State, t: State, u: State, id: nat, now: int)
    requires u == t.(collisions := u.collisions)
    ensures Replaced(h, s, t, id, now) ==> Replaced(h, s, u, id, now)
  {
  }

  /** What happens to the state when a waiting entry is looked at: it is kept waiting exactly if the
      verdict is to wait. */
  ghost predicate Resolved(h: Hashes, s: State, t: State, id: nat, now: int, valid: nat -> bool) {
    var verdict := Judge(h, s, id, now, valid);
    && t.collisions == (if verdict.Wait? then s.collisions else s.collisions - {id})
    && (!verdict.Replace? ==> t == s.(collisions := t.collisions))
    && (verdict.Replace? ==> Replaced(h, s, t, id, now))
  }

  /** The entries are looked at one after the other, each in the state that the one before left. */
  ghost predicate Chain(h: Hashes, trace: seq<State>, ids: seq<nat>, now: int, valid: nat -> bool) {
    |trace| == |ids| + 1 && forall k :: 0 <= k < |ids| ==> Resolved(h, trace[k], trace[k + 1], ids[k], now, valid)
  }

  ghost predicate Ascending(ids: seq<nat>) { forall i, j :: 0 <= i < j < |ids| ==> ids[i] < ids[j] }

  /** Of the entries looked at, exactly those remain for which the verdict was to wait. */
  lemma {:induction false} KeptWaiting(h: Hashes, trace: seq<State>, ids: seq<nat>, now: int, valid: nat -> bool, i: nat, k: nat)
    requires Chain(h, trace, ids, now, valid) && Ascending(ids) && i < |ids| && ids[i] in trace[0].collisions && k <= |ids|
    ensures ids[i] in trace[k].collisions <==> (i < k ==> Judge(h, trace[i], ids[i], now, valid).Wait?)
  {
    hide Judge, Replaced;
    if k > 0 {
      KeptWaiting(h, trace, ids, now, valid, i, k - 1);
      assert Resolved(h, trace[k - 1], trace[k], ids[k - 1], now, valid);
    }
  }

  lemma {:induction false} ChainNext(h: Hashes, trace: seq<State>, ids: seq<nat>, t: State, id: nat, now: int, valid: nat -> bool)
    requires Chain(h, trace, ids, now, valid) && Resolved(h, trace[|ids|], t, id, now, valid)
    ensures Chain(h, trace + [t], ids + [id], now, valid)
  {
    hide Resolved;
  }

  lemma {:induction false} AlreadyTried(h: Hashes, s: State, n: nat)
    requires Inv(h, s, {}, {}) && n in s.mapInfo
    ensures s.mapInfo[n].inTried ==>
      var p := TriedSlot(h, s.mapInfo[n].addr);
      p in s.vvTried && s.vvTried == s.vvTried[p := n]
  {
    assert TriedHas(h, s, n);
  }

  lemma {:induction false} EditSome(s: State, t: State, n: nat)
    requires n in s.mapInfo && n in t.mapInfo && t.mapInfo == s.mapInfo[n := t.mapInfo[n]]
    ensures SomeBut(s, t, n)
  {
  }

  lemma {:induction false} SomeButTrans(s: State, t: State, u: State, n: nat)
    requires SomeBut(s, t, n) && SomeOf(t, u) && n in u.mapInfo
    ensures SomeBut(s, u, n) && n in t.mapInfo && SameData(t.mapInfo[n], u.mapInfo[n])
  {
  }

  lemma {:induction false} EditAfter(h: Hashes, s: State, t: State, n: nat)
    requires n in s.mapInfo && n in t.mapInfo && t.mapInfo == s.mapInfo[n := t.mapInfo[n]] && t.vvNew == s.vvNew && t.vvTried == s.vvTried
    requires t.mapInfo[n].addr == s.mapInfo[n].addr && t.mapInfo[n].source == s.mapInfo[n].source
    ensures NewAfter(h, t, n) == NewAfter(h, s, n)
  {
  }

  lemma {:induction false} OnwardSelf(s: State)
    ensures Onward(s, s)
  {
  }

  lemma {:induction false} AddCollision(h: Hashes, s: State, n: nat)
    requires Consistent(h, s) && n in s.mapInfo && TriedSlot(h, s.mapInfo[n].addr) in s.vvTried
    ensures Consistent(h, s.(collisions := s.collisions + {n}))
  {
    hide Inv;
    IdRange(h, s, n);
    RecountedCollisions(h, s, s.(collisions := s.collisions + {n}));
  }

  lemma {:induction false} IdRange(h: Hashes, s: State, n: nat)
    requires Inv(h, s, {}, {}) && n in s.mapInfo
    ensures n < s.idCount
  {
    assert EntryAt(s, n);
  }

  lemma {:induction false} DropCollision(h: Hashes, s: State, n: nat)
    requires Consistent(h, s)
    ensures Consistent(h, s.(collisions := s.collisions - {n}))
  {
    hide Inv;
    RecountedCollisions(h, s, s.(collisions := s.collisions - {n}));
  }

  lemma {:induction false} RecountedCollisions(h: Hashes, s: State, t: State)
    requires Inv(h, s, {}, {}) && t == s.(collisions := t.collisions)
    ensures Inv(h, t, {}, {})
  {
    forall net ensures TallyAt(h, t, {}, net) { assert TallyAt(h, s, {}, net); }
    forall n | n in t.mapInfo ensures EntryAt(t, n) && TriedHas(h, t, n) && RefsAt(t, {}, n) {
      assert EntryAt(s, n) && TriedHas(h, s, n) && RefsAt(s, {}, n);
    }
    forall a | a in t.mapAddr ensures AddrAt(t, a) { assert AddrAt(s, a); }
    forall i | 0 <= i < |t.vRandom| ensures RandomAt(t, i) { assert RandomAt(s, i); }
    forall p | p in t.vvNew ensures NewAt(h, t, p) { assert NewAt(h, s, p); }
    forall p | p in t.vvTried ensures TriedAt(h, t, p) { assert TriedAt(h, s, p); }
  }

  lemma {:induction false} SameButCollisions(h: Hashes, s: State, t: State, u: State)
    requires Onward(s, t) && u == t.(collisions := u.collisions)
    ensures Onward(s, u)
  {
  }

  lemma {:induction false} SameAddr(s: State, t: State, h: Hashes, n: nat)
    requires Onward(s, t) && Inv(h, s, {}, {}) && n in s.mapInfo && n in t.mapInfo
    ensures t.mapInfo[n].addr == s.mapInfo[n].addr
  {
    assert EntryAt(s, n);
  }

  function Max(a: int, b: int): int { if a < b then b else a }

  lemma {:induction false} InvIndexed(h: Hashes, s: State)
    requires Inv(h, s, {}, {})
    ensures Indexed(s)
  {
  }

  lemma {:induction false} AddrOf(h: Hashes, s: State, n: nat)
    requires Inv(h, s, {}, {}) && n in s.mapInfo
    ensures s.mapInfo[n].addr in s.mapAddr && s.mapAddr[s.mapInfo[n].addr] == n
  {
    assert EntryAt(s, n);
  }

  lemma {:induction false} AddedOk(h: Hashes, s: State, t: State, u: State)
    requires Colliding(h, s) && Onward(s, t) && SomeOf(t, u) && u.idCount == t.idCount && u.vvTried == t.vvTried && u.collisions == s.collisions
    ensures Onward(s, u) && Colliding(h, u)
  {
    assert Onward(t, u);
    OnwardTrans(s, t, u);
    CollidingKeeps(h, s, u);
  }

  lemma {:induction false} InMap(h: Hashes, s: State, bare: set<nat>, out: set<nat>, n: nat)
    requires Inv(h, s, bare, out) && n in bare
    ensures n in s.mapInfo && (forall p :: p in s.vvNew ==> s.vvNew[p] != n) && (forall p :: p in s.vvTried ==> s.vvTried[p] != n)
  {
    BareEntry(h, s, bare, out, n);
    forall p | p in s.vvTried ensures s.vvTried[p] != n { TriedEntry(h, s, bare, out, p); }
  }

  lemma {:induction false} PutTwice(m: map<nat, Info>, n: nat, a: Info, b: Info)
    ensures m[n := a][n := b] == m[n := b]
  {
  }

  lemma {:induction false} OrderEntry(h: Hashes, s: State, bare: set<nat>, out: set<nat>, n: nat)
    requires Inv(h, s, bare, out) && n in s.mapInfo
    ensures 0 <= s.mapInfo[n].randomPos < |s.vRandom| && s.vRandom[s.mapInfo[n].randomPos] == n
  {
    assert EntryAt(s, n);
  }

  lemma {:induction false} EmptyOk(h: Hashes, s: State)
    requires s == State(0, map[], map[], [], map[], map[], 0, 0, map[], {})
    ensures Consistent(h, s)
  {
    forall net ensures TallyAt(h, s, {}, net) {
      assert Entries(h, s.mapInfo, net, false) == {} && Entries(h, s.mapInfo, net, true) == {};
    }
  }

  // ---------- leaving the new table ----------

  /** How many steps round the buckets from `start` bucket b is. */
  ghost function Offset(start: nat, b: nat): int { if b >= start then b - start else b + NEW_BUCKETS - start }

  /** The buckets up to step j have been searched for entry n. */
  ghost predicate Unlisting(h: Hashes, s: State, t: State, n: nat, start: nat, j: nat) {
    && n in s.mapInfo && n in t.mapInfo && t == s.(vvNew := t.vvNew, mapInfo := t.mapInfo)
    && t.mapInfo == s.mapInfo[n := s.mapInfo[n].(refCount := t.mapInfo[n].refCount)]
    && (forall p :: p in t.vvNew ==> p in s.vvNew && t.vvNew[p] == s.vvNew[p]) && (forall p :: p in s.vvNew && s.vvNew[p] != n ==> p in t.vvNew)
    && Inv(h, t, if t.mapInfo[n].refCount == 0 then {n} else {}, {}) && start < NEW_BUCKETS && !t.mapInfo[n].inTried
    && (forall p :: p in t.vvNew && t.vvNew[p] == n ==> Offset(start, p.bucket) >= j)
  }

  lemma {:induction false} UnlistStart(h: Hashes, s: State, n: nat, start: nat)
    requires Inv(h, s, {}, {}) && n in s.mapInfo && !s.mapInfo[n].inTried && start < NEW_BUCKETS
    ensures Unlisting(h, s, s, n, start, 0) && s.mapInfo[n].refCount > 0
  {
    EntryFacts(h, s, {}, {}, n);
    hide Inv;
    assert s.mapInfo == s.mapInfo[n := s.mapInfo[n].(refCount := s.mapInfo[n].refCount)];
  }

  lemma {:induction false} Elsewhere(h: Hashes, s: State, n: nat, bare: set<nat>, start: nat, j: nat, p: Slot)
    requires Inv(h, s, bare, {}) && n in s.mapInfo && start < NEW_BUCKETS && j < NEW_BUCKETS
    requires p == NewSlot(h, s.mapInfo[n].addr, (start + j) % NEW_BUCKETS)
    requires forall q :: q in s.vvNew && s.vvNew[q] == n ==> Offset(start, q.bucket) >= j
    ensures forall q :: q in s.vvNew && s.vvNew[q] == n && q != p ==> Offset(start, q.bucket) >= j + 1
  {
    forall q | q in s.vvNew && s.vvNew[q] == n && q != p ensures Offset(start, q.bucket) >= j + 1 {
      SlotEntry(h, s, bare, {}, q);
    }
  }

  lemma {:induction false} UnlistStep(h: Hashes, s: State, t: State, n: nat, start: nat, j: nat, p: Slot)
    requires Unlisting(h, s, t, n, start, j) && j < NEW_BUCKETS && t.mapInfo[n].refCount > 0
    requires p == NewSlot(h, t.mapInfo[n].addr, (start + j) % NEW_BUCKETS)
    ensures p in t.vvNew && t.vvNew[p] == n ==> Unlisting(h, s, Dropped(t, p), n, start, j + 1)
    ensures !(p in t.vvNew && t.vvNew[p] == n) ==> Unlisting(h, s, t, n, start, j + 1)
  {
    hide Inv;
    Elsewhere(h, t, n, {}, start, j, p);
    if p in t.vvNew && t.vvNew[p] == n {
      DroppedKeeps(h, t, p, {}, {});
      assert {} + {n} == {n};
      var u := Dropped(t, p);
      assert u.mapInfo == s.mapInfo[n := s.mapInfo[n].(refCount := u.mapInfo[n].refCount)];
    }
  }

  lemma {:induction false} UnlistEnd(h: Hashes, s: State, t: State, n: nat, start: nat, j: nat)
    requires (Unlisting(h, s, t, n, start, j) && j == NEW_BUCKETS) || (Unlisting(h, s, t, n, start, j + 1) && t.mapInfo[n].refCount == 0)
    ensures t.mapInfo[n].refCount == 0 && Inv(h, t, {n}, {}) && t.vvNew == Without(s.vvNew, n)
  {
    hide Unlisting, Inv, Without;
    if Unlisting(h, s, t, n, start, j) && j == NEW_BUCKETS { AllSearched(h, s, t, n, start); }
    var k := if Unlisting(h, s, t, n, start, j) then j else j + 1;
    NoneLeft(h, s, t, n, start, k);
  }

  /** After all the way round no reference is left. */
  lemma {:induction false} AllSearched(h: Hashes, s: State, t: State, n: nat, start: nat)
    requires Unlisting(h, s, t, n, start, NEW_BUCKETS)
    ensures t.mapInfo[n].refCount == 0
  {
    var bare := if t.mapInfo[n].refCount == 0 then {n} else {};
    EntryFacts(h, t, bare, {}, n);
    hide Inv;
    forall p | p in t.vvNew ensures t.vvNew[p] != n { SlotEntry(h, t, bare, {}, p); }
    assert Slots(t.vvNew, n) == {};
  }

  lemma {:induction false} NoneLeft(h: Hashes, s: State, t: State, n: nat, start: nat, j: nat)
    requires Unlisting(h, s, t, n, start, j) && t.mapInfo[n].refCount == 0
    ensures Inv(h, t, {n}, {}) && t.vvNew == Without(s.vvNew, n)
  {
    hide Inv;
    InMap(h, t, {n}, {}, n);
  }
}

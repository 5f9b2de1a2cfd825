/** The address manager's own consistency check (src/addrman.cpp:1063-1166) finds nothing. */
module AddrChecks {
  import opened Options
  import opened Sets
  import opened AddrTables
  import opened AddrMans

  /** What the check asks of one entry: errors -1 to -6, -8 and -14. */
  ghost predicate EntryChecked(s: State, n: nat)
    requires n in s.mapInfo
  {
    var e := s.mapInfo[n];
    && (if e.inTried then e.lastSuccess != 0 && e.refCount == 0 else 0 < e.refCount <= MAX_REFS)
    && e.addr in s.mapAddr && s.mapAddr[e.addr] == n && 0 <= e.randomPos < |s.vRandom| && s.vRandom[e.randomPos] == n
    && e.lastTry >= 0 && e.lastSuccess >= 0
  }

  /** Errors -11, -13, -17 and -18: each tried entry is in the tried table once, in its own place. */
  ghost predicate TriedChecked(h: Hashes, s: State) {
    && (forall p :: p in s.vvTried ==> s.vvTried[p] in s.mapInfo && s.mapInfo[s.vvTried[p]].inTried)
    && (forall p :: p in s.vvTried ==> h.triedBucket(s.mapInfo[s.vvTried[p]].addr) == p.bucket && h.position(s.mapInfo[s.vvTried[p]].addr, false, p.bucket) == p.pos)
    && (forall p, q :: p in s.vvTried && q in s.vvTried && s.vvTried[p] == s.vvTried[q] ==> p == q)
    && (forall n :: n in s.mapInfo && s.mapInfo[n].inTried ==> n in s.vvTried.Values)
  }

  /** Errors -12, -15 and -19: each other entry is in the new table as often as it has references. */
  ghost predicate NewChecked(h: Hashes, s: State) {
    && (forall p :: p in s.vvNew ==> s.vvNew[p] in s.mapInfo && !s.mapInfo[s.vvNew[p]].inTried && h.position(s.mapInfo[s.vvNew[p]].addr, true, p.bucket) == p.pos)
    && (forall n :: n in s.mapInfo && !s.mapInfo[n].inTried ==> |Slots(s.vvNew, n)| == s.mapInfo[n].refCount)
  }

  ghost function Networks(h: Hashes, s: State): set<nat> { set n | n in s.mapInfo :: h.network(s.mapInfo[n].addr) }

  /** Errors -7, -9, -10, -20 and -21: all counters are right. */
  ghost predicate CountsChecked(h: Hashes, s: State) {
    && |s.vRandom| == s.nTried + s.nNew && |Entries(h, s.mapInfo, None, true)| == s.nTried && |Entries(h, s.mapInfo, None, false)| == s.nNew
    && |s.counts.Keys| >= |Networks(h, s)|
    && (forall net :: net in s.counts ==> s.counts[net] == Count(|Entries(h, s.mapInfo, Some(net), false)|, |Entries(h, s.mapInfo, Some(net), true)|))
  }

  ghost predicate Checked(h: Hashes, s: State) {
    (forall n :: n in s.mapInfo ==> EntryChecked(s, n)) && TriedChecked(h, s) && NewChecked(h, s) && CountsChecked(h, s)
  }

  lemma {:induction false} OrderIsAll(s: State)
    requires Indexed(s)
    ensures |s.vRandom| == |s.mapInfo.Keys|
  {
    forall i, j | 0 <= i < j < |s.vRandom| ensures s.vRandom[i] != s.vRandom[j] { assert RandomAt(s, i) && RandomAt(s, j); }
    DistinctSize(s.vRandom);
    forall n ensures n in SetOf(s.vRandom) <==> n in s.mapInfo.Keys {
      if n in s.mapInfo { assert EntryAt(s, n); }
      if n in s.vRandom {
        var i :| 0 <= i < |s.vRandom| && s.vRandom[i] == n;
        assert RandomAt(s, i);
      }
    }
    assert SetOf(s.vRandom) == s.mapInfo.Keys;
  }

  lemma {:induction false} TwoTables(h: Hashes, s: State)
    ensures |s.mapInfo.Keys| == |Entries(h, s.mapInfo, None, false)| + |Entries(h, s.mapInfo, None, true)|
  {
    var a, b := Entries(h, s.mapInfo, None, false), Entries(h, s.mapInfo, None, true);
    assert s.mapInfo.Keys == a + b && a !! b;
  }

  lemma {:induction false} TallyIs(h: Hashes, s: State, net: Option<nat>)
    requires Tallied(h, s, {})
    ensures Tally(s, net) == Count(|Entries(h, s.mapInfo, net, false)|, |Entries(h, s.mapInfo, net, true)|)
  {
    assert TallyAt(h, s, {}, net);
    assert Entries(h, s.mapInfo, net, false) - {} == Entries(h, s.mapInfo, net, false);
  }

  lemma {:induction false} CountsOk(h: Hashes, s: State)
    requires Inv(h, s, {}, {})
    ensures CountsChecked(h, s)
  {
    hide Placed, Referenced, Timed, Tallied, Indexed, Entries;
    OrderIsAll(s);
    TwoTables(h, s);
    TallyIs(h, s, None);
    forall net | net in s.counts
      ensures s.counts[net] == Count(|Entries(h, s.mapInfo, Some(net), false)|, |Entries(h, s.mapInfo, Some(net), true)|)
    {
      TallyIs(h, s, Some(net));
    }
    forall net | net in Networks(h, s) ensures net in s.counts { NetworkCounted(h, s, net); }
    SubsetSize(Networks(h, s), s.counts.Keys);
  }

  /** A network with an entry has a counter. */
  lemma {:induction false} NetworkCounted(h: Hashes, s: State, net: nat)
    requires Tallied(h, s, {}) && net in Networks(h, s)
    ensures net in s.counts
  {
    TallyIs(h, s, Some(net));
    var n :| n in s.mapInfo && h.network(s.mapInfo[n].addr) == net;
    var mine := Entries(h, s.mapInfo, Some(net), s.mapInfo[n].inTried);
    assert n in mine;
    assert |mine| > 0;
  }

  lemma {:induction false} TablesOk(h: Hashes, s: State)
    requires Inv(h, s, {}, {})
    ensures TriedChecked(h, s) && NewChecked(h, s)
  {
    hide Tallied, Slots;
    forall p | p in s.vvTried ensures TriedAt(h, s, p) {}
    forall p | p in s.vvNew ensures NewAt(h, s, p) {}
    forall n | n in s.mapInfo && s.mapInfo[n].inTried ensures n in s.vvTried.Values {
      assert TriedHas(h, s, n);
      assert s.vvTried[TriedSlot(h, s.mapInfo[n].addr)] == n;
    }
    forall n | n in s.mapInfo ensures RefsAt(s, {}, n) {}
  }

  /** In every consistent state the check returns 0. */
  lemma {:induction false} CheckSucceeds(h: Hashes, s: State)
    requires Consistent(h, s)
    ensures Checked(h, s)
  {
    CountsOk(h, s);
    TablesOk(h, s);
    hide CountsChecked, TriedChecked, NewChecked, Tallied, Placed;
    forall n | n in s.mapInfo ensures EntryChecked(s, n) {
      assert EntryAt(s, n) && TimesOk(s.mapInfo[n]) && RefsAt(s, {}, n);
    }
  }
}

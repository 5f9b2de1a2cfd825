/** The address manager's tables (src/addrman_impl.h, src/addrman.cpp:416-530): six indexes that
    repeat each other, the conditions that tie them together, and the elementary changes. */
module AddrTables {
  import opened Options

  const NEW_BUCKETS := 1024
  const MAX_REFS := 8
  const MAX_COLLISIONS := 10

  /** The hash functions, with the key fixed: only their ranges matter. */
  datatype Hashes = Hashes(newBucket: (nat, nat) -> nat, triedBucket: nat -> nat, position: (nat, bool, nat) -> nat, network: nat -> nat)

  ghost predicate HashesOk(h: Hashes) { forall a, s :: h.newBucket(a, s) < NEW_BUCKETS }

  datatype Slot = Slot(bucket: nat, pos: nat)

  function NewSlot(h: Hashes, addr: nat, bucket: nat): Slot { Slot(bucket, h.position(addr, true, bucket)) }

  function TriedSlot(h: Hashes, addr: nat): Slot { Slot(h.triedBucket(addr), h.position(addr, false, h.triedBucket(addr))) }

  datatype Info = Info(addr: nat, source: nat, time: int, lastTry: int, lastSuccess: int, refCount: int, inTried: bool, randomPos: int)

  datatype Count = Count(inNew: int, inTried: int)

  /** vvNew and vvTried hold the occupied slots of the two tables. */
  datatype State = State(idCount: nat, mapInfo: map<nat, Info>, mapAddr: map<nat, nat>, vRandom: seq<nat>,
                         vvNew: map<Slot, nat>, vvTried: map<Slot, nat>, nNew: int, nTried: int, counts: map<nat, Count>, collisions: set<nat>)

  // ---------- the conditions ----------

  /** An entry is found under its address, and at its place in the random order. */
  ghost predicate EntryAt(s: State, n: nat)
    requires n in s.mapInfo
  {
    var e := s.mapInfo[n];
    n < s.idCount && e.addr in s.mapAddr && s.mapAddr[e.addr] == n && 0 <= e.randomPos < |s.vRandom| && s.vRandom[e.randomPos] == n
  }

  ghost predicate AddrAt(s: State, a: nat)
    requires a in s.mapAddr
  {
    s.mapAddr[a] in s.mapInfo && s.mapInfo[s.mapAddr[a]].addr == a
  }

  ghost predicate RandomAt(s: State, i: nat)
    requires i < |s.vRandom|
  {
    s.vRandom[i] in s.mapInfo && s.mapInfo[s.vRandom[i]].randomPos == i
  }

  /** Identifiers, addresses and the random order name the same entries. */
  ghost predicate Indexed(s: State) {
    && (forall n :: n in s.mapInfo ==> EntryAt(s, n)) && (forall a :: a in s.mapAddr ==> AddrAt(s, a))
    && (forall i :: 0 <= i < |s.vRandom| ==> RandomAt(s, i))
  }

  /** Entries in the new or tried table, of one network or of all. */
  ghost function Entries(h: Hashes, m: map<nat, Info>, net: Option<nat>, tried: bool): set<nat> {
    set n | n in m && Among(h, m[n], net, tried)
  }

  ghost predicate Among(h: Hashes, e: Info, net: Option<nat>, tried: bool) { e.inTried == tried && OfNet(h, e, net) }

  ghost predicate OfNet(h: Hashes, e: Info, net: Option<nat>) { net.None? || h.network(e.addr) == net.value }

  function CountOf(counts: map<nat, Count>, net: nat): Count { if net in counts then counts[net] else Count(0, 0) }

  ghost function Tally(s: State, net: Option<nat>): Count { if net.None? then Count(s.nNew, s.nTried) else CountOf(s.counts, net.value) }

  ghost predicate TallyAt(h: Hashes, s: State, out: set<nat>, net: Option<nat>) {
    Tally(s, net) == Count(|Entries(h, s.mapInfo, net, false) - out|, |Entries(h, s.mapInfo, net, true)|)
  }

  /** Counters are exact, for each network and in total; entries in `out` are in neither table
      yet. */
  ghost predicate Tallied(h: Hashes, s: State, out: set<nat>) { forall net :: TallyAt(h, s, out, net) }

  ghost predicate NewAt(h: Hashes, s: State, p: Slot)
    requires p in s.vvNew
  {
    p.bucket < NEW_BUCKETS && s.vvNew[p] in s.mapInfo && !s.mapInfo[s.vvNew[p]].inTried && p == NewSlot(h, s.mapInfo[s.vvNew[p]].addr, p.bucket)
  }

  ghost predicate TriedAt(h: Hashes, s: State, p: Slot)
    requires p in s.vvTried
  {
    s.vvTried[p] in s.mapInfo && s.mapInfo[s.vvTried[p]].inTried && p == TriedSlot(h, s.mapInfo[s.vvTried[p]].addr)
  }

  ghost predicate TriedHas(h: Hashes, s: State, n: nat)
    requires n in s.mapInfo
  {
    s.mapInfo[n].inTried ==> TriedSlot(h, s.mapInfo[n].addr) in s.vvTried && s.vvTried[TriedSlot(h, s.mapInfo[n].addr)] == n
  }

  /** Occupied slots hold entries of the right kind at the place their hash gives. */
  ghost predicate Placed(h: Hashes, s: State) {
    && (forall p :: p in s.vvNew ==> NewAt(h, s, p)) && (forall p :: p in s.vvTried ==> TriedAt(h, s, p))
    && (forall n :: n in s.mapInfo ==> TriedHas(h, s, n))
  }

  ghost function Slots(vvNew: map<Slot, nat>, n: nat): set<Slot> { set p | p in vvNew && vvNew[p] == n }

  ghost predicate RefsAt(s: State, bare: set<nat>, n: nat)
    requires n in s.mapInfo
  {
    && s.mapInfo[n].refCount == |Slots(s.vvNew, n)| <= MAX_REFS && (s.mapInfo[n].inTried ==> s.mapInfo[n].refCount == 0 && n !in bare)
    && (!s.mapInfo[n].inTried ==> (n in bare <==> s.mapInfo[n].refCount == 0))
  }

  /** Reference counts are exact; only entries in `bare` have none although they are not tried. */
  ghost predicate Referenced(s: State, bare: set<nat>) { forall n :: n in s.mapInfo ==> RefsAt(s, bare, n) }

  ghost predicate TimesOk(e: Info) { e.lastTry >= 0 && e.lastSuccess >= 0 && (e.inTried ==> e.lastSuccess > 0) }

  ghost predicate Timed(s: State) { forall n :: n in s.mapInfo ==> TimesOk(s.mapInfo[n]) }

  /** All of it; entries in `bare` have no reference yet or any more, and of these the ones in
      `out` are not counted either. */
  ghost predicate Inv(h: Hashes, s: State, bare: set<nat>, out: set<nat>) {
    Indexed(s) && Tallied(h, s, out) && Placed(h, s) && Referenced(s, bare) && Timed(s) && out <= bare && bare <= s.mapInfo.Keys
  }

  /** Entries that wait for a place in the tried table: the place is taken. */
  ghost predicate Colliding(h: Hashes, s: State) {
    forall n :: n in s.collisions ==> n < s.idCount && (n in s.mapInfo ==> TriedSlot(h, s.mapInfo[n].addr) in s.vvTried)
  }

  // ---------- counting ----------

  function Bump(counts: map<nat, Count>, net: nat, dNew: int, dTried: int): map<nat, Count> {
    counts[net := Count(CountOf(counts, net).inNew + dNew, CountOf(counts, net).inTried + dTried)]
  }

  /** Counters move by the given amounts, for the entry's network and in total. */
  ghost predicate Bumped(h: Hashes, s: State, t: State, e: Info, dNew: int, dTried: int) {
    t.nNew == s.nNew + dNew && t.nTried == s.nTried + dTried && t.counts == Bump(s.counts, h.network(e.addr), dNew, dTried)
  }

  lemma {:induction false} BumpedTally(h: Hashes, s: State, t: State, e: Info, dNew: int, dTried: int, net: Option<nat>)
    requires Bumped(h, s, t, e, dNew, dTried)
    ensures Tally(t, net) == if OfNet(h, e, net) then Count(Tally(s, net).inNew + dNew, Tally(s, net).inTried + dTried) else Tally(s, net)
  {
  }

  ghost function Only(n: nat, yes: bool): set<nat> { if yes then {n} else {} }

  lemma {:induction false} EntriesPut(h: Hashes, m: map<nat, Info>, n: nat, e: Info, net: Option<nat>, tried: bool)
    ensures Entries(h, m[n := e], net, tried) == (Entries(h, m, net, tried) - {n}) + Only(n, Among(h, e, net, tried))
  {
    hide Among;
  }

  lemma {:induction false} EntriesDrop(h: Hashes, m: map<nat, Info>, n: nat, net: Option<nat>, tried: bool)
    ensures Entries(h, m - {n}, net, tried) == Entries(h, m, net, tried) - {n}
  {
    hide Among;
  }

  lemma {:induction false} EntriesHas(h: Hashes, m: map<nat, Info>, n: nat, net: Option<nat>, tried: bool)
    ensures n in Entries(h, m, net, tried) <==> n in m && Among(h, m[n], net, tried)
  {
    hide Among;
  }

  lemma {:induction false} SizePlus<T>(a: set<T>, x: T)
    requires x !in a
    ensures |a + {x}| == |a| + 1
  {
  }

  lemma {:induction false} SizeMinus<T>(a: set<T>, x: T)
    requires x in a
    ensures |a - {x}| == |a| - 1
  {
  }

  /** Whether an entry counts as new, given the entries in transit. */
  ghost function One(yes: bool): int { if yes then 1 else 0 }

  lemma {:induction false} SetMove(a: set<nat>, b: set<nat>, n: nat, yes: bool)
    requires b == (a - {n}) + Only(n, yes)
    ensures |b| == |a| - One(n in a) + One(yes)
  {
    var r := a - {n};
    if n in a { SizeMinus(a, n); } else { assert r == a; }
    if yes { SizePlus(r, n); } else { assert b == r; }
  }

  lemma {:induction false} Outside(x: set<nat>, y: set<nat>, out: set<nat>, out': set<nat>, n: nat, yes: bool)
    requires y == (x - {n}) + Only(n, yes) && out - {n} == out' - {n}
    ensures y - out' == ((x - out) - {n}) + Only(n, yes && n !in out')
  {
    forall k | k != n ensures k in out <==> k in out' { assert k in out - {n} <==> k in out' - {n}; }
  }

  /** How many entries count as new, and as tried, after changing or adding one. */
  lemma {:induction false} EntriesMove(h: Hashes, m: map<nat, Info>, n: nat, e: Info, out: set<nat>, out': set<nat>, net: Option<nat>)
    requires out - {n} == out' - {n}
    ensures |Entries(h, m[n := e], net, false) - out'| ==
            |Entries(h, m, net, false) - out| - One(n in m && Among(h, m[n], net, false) && n !in out) + One(Among(h, e, net, false) && n !in out')
    ensures |Entries(h, m[n := e], net, true)| ==
            |Entries(h, m, net, true)| - One(n in m && Among(h, m[n], net, true)) + One(Among(h, e, net, true))
  {
    hide Entries, Only, Among;
    EntriesPut(h, m, n, e, net, false);
    EntriesPut(h, m, n, e, net, true);
    EntriesHas(h, m, n, net, false);
    EntriesHas(h, m, n, net, true);
    var x, y := Entries(h, m, net, false), Entries(h, m[n := e], net, false);
    Outside(x, y, out, out', n, Among(h, e, net, false));
    SetMove(x - out, y - out', n, Among(h, e, net, false) && n !in out');
    SetMove(Entries(h, m, net, true), Entries(h, m[n := e], net, true), n, Among(h, e, net, true));
  }

  lemma {:induction false} TallyPutAt(h: Hashes, s: State, t: State, n: nat, e: Info, out: set<nat>, out': set<nat>, dNew: int, dTried: int, net: Option<nat>)
    requires TallyAt(h, s, out, net) && t.mapInfo == s.mapInfo[n := e] && Bumped(h, s, t, e, dNew, dTried) && out - {n} == out' - {n}
    requires n in s.mapInfo ==> s.mapInfo[n].addr == e.addr
    requires dNew == One(!e.inTried && n !in out') - One(n in s.mapInfo && !s.mapInfo[n].inTried && n !in out)
    requires dTried == One(e.inTried) - One(n in s.mapInfo && s.mapInfo[n].inTried)
    ensures TallyAt(h, t, out', net)
  {
    hide Entries, Bumped, Tally;
    BumpedTally(h, s, t, e, dNew, dTried, net);
    EntriesMove(h, s.mapInfo, n, e, out, out', net);
  }

  /** Changing or adding one entry, with the counters moved accordingly. */
  lemma {:induction false} TallyPut(h: Hashes, s: State, t: State, n: nat, e: Info, out: set<nat>, out': set<nat>, dNew: int, dTried: int)
    requires Tallied(h, s, out) && t.mapInfo == s.mapInfo[n := e] && Bumped(h, s, t, e, dNew, dTried) && out - {n} == out' - {n}
    requires n in s.mapInfo ==> s.mapInfo[n].addr == e.addr
    requires dNew == One(!e.inTried && n !in out') - One(n in s.mapInfo && !s.mapInfo[n].inTried && n !in out)
    requires dTried == One(e.inTried) - One(n in s.mapInfo && s.mapInfo[n].inTried)
    ensures Tallied(h, t, out')
  {
    hide TallyAt, Bumped, One;
    forall net ensures TallyAt(h, t, out', net) {
      assert TallyAt(h, s, out, net);
      TallyPutAt(h, s, t, n, e, out, out', dNew, dTried, net);
    }
  }

  lemma {:induction false} EntriesLose(h: Hashes, m: map<nat, Info>, n: nat, out: set<nat>, net: Option<nat>)
    requires n in m && n !in out && !m[n].inTried
    ensures |Entries(h, m - {n}, net, false) - out| == |Entries(h, m, net, false) - out| - One(OfNet(h, m[n], net))
    ensures |Entries(h, m - {n}, net, true)| == |Entries(h, m, net, true)|
  {
    hide Entries;
    EntriesDrop(h, m, n, net, false);
    EntriesDrop(h, m, n, net, true);
    EntriesHas(h, m, n, net, false);
    EntriesHas(h, m, n, net, true);
    var x, y := Entries(h, m, net, false), Entries(h, m - {n}, net, false);
    assert y - out == (x - out) - {n};
    SetMove(x - out, y - out, n, false);
    assert Entries(h, m - {n}, net, true) == Entries(h, m, net, true);
  }

  lemma {:induction false} TallyDropAt(h: Hashes, s: State, t: State, n: nat, out: set<nat>, net: Option<nat>)
    requires TallyAt(h, s, out, net) && n in s.mapInfo && t.mapInfo == s.mapInfo - {n} && !s.mapInfo[n].inTried && n !in out
    requires Bumped(h, s, t, s.mapInfo[n], -1, 0)
    ensures TallyAt(h, t, out, net)
  {
    hide Entries, Bumped, Tally;
    BumpedTally(h, s, t, s.mapInfo[n], -1, 0, net);
    EntriesLose(h, s.mapInfo, n, out, net);
  }

  lemma {:induction false} TallyDrop(h: Hashes, s: State, t: State, n: nat, out: set<nat>)
    requires Tallied(h, s, out) && n in s.mapInfo && t.mapInfo == s.mapInfo - {n} && !s.mapInfo[n].inTried && n !in out
    requires Bumped(h, s, t, s.mapInfo[n], -1, 0)
    ensures Tallied(h, t, out)
  {
    hide TallyAt, Bumped;
    forall net ensures TallyAt(h, t, out, net) {
      assert TallyAt(h, s, out, net);
      TallyDropAt(h, s, t, n, out, net);
    }
  }

  /** Entries that keep address and table: nothing to count. */
  ghost predicate SameKinds(m: map<nat, Info>, w: map<nat, Info>) {
    w.Keys == m.Keys && forall n :: n in m ==> w[n].addr == m[n].addr && w[n].inTried == m[n].inTried
  }

  lemma {:induction false} TallySame(h: Hashes, s: State, t: State, out: set<nat>)
    requires Tallied(h, s, out) && SameKinds(s.mapInfo, t.mapInfo) && t.nNew == s.nNew && t.nTried == s.nTried && t.counts == s.counts
    ensures Tallied(h, t, out)
  {
    forall net ensures TallyAt(h, t, out, net) {
      assert TallyAt(h, s, out, net);
      assert Entries(h, t.mapInfo, net, false) == Entries(h, s.mapInfo, net, false);
      assert Entries(h, t.mapInfo, net, true) == Entries(h, s.mapInfo, net, true);
    }
  }

  // ---------- one entry changes ----------

  function Edit(s: State, n: nat, e: Info): State { s.(mapInfo := s.mapInfo[n := e]) }

  lemma {:induction false} IndexedEdit(s: State, t: State, n: nat, e: Info)
    requires Indexed(s) && n in s.mapInfo && t.mapInfo == s.mapInfo[n := e] && e.addr == s.mapInfo[n].addr && e.randomPos == s.mapInfo[n].randomPos
    requires t.mapAddr == s.mapAddr && t.vRandom == s.vRandom && t.idCount == s.idCount
    ensures Indexed(t)
  {
    forall k | k in t.mapInfo ensures EntryAt(t, k) { assert EntryAt(s, k); }
    forall a | a in t.mapAddr ensures AddrAt(t, a) { assert AddrAt(s, a); }
    forall i | 0 <= i < |t.vRandom| ensures RandomAt(t, i) { assert RandomAt(s, i); }
  }

  lemma {:induction false} TimedEdit(s: State, t: State, n: nat, e: Info)
    requires Timed(s) && t.mapInfo == s.mapInfo[n := e] && TimesOk(e)
    ensures Timed(t)
  {
    hide TimesOk;
  }

  /** Same table and address: every slot still fits. */
  lemma {:induction false} PlacedEdit(h: Hashes, s: State, t: State, n: nat, e: Info)
    requires Placed(h, s) && n in s.mapInfo && t.mapInfo == s.mapInfo[n := e] && e.addr == s.mapInfo[n].addr && e.inTried == s.mapInfo[n].inTried
    requires t.vvTried == s.vvTried && (forall p :: p in t.vvNew ==> p in s.vvNew && t.vvNew[p] == s.vvNew[p])
    ensures Placed(h, t)
  {
    forall p | p in t.vvNew ensures NewAt(h, t, p) { assert NewAt(h, s, p); }
    forall p | p in t.vvTried ensures TriedAt(h, t, p) { assert TriedAt(h, s, p); }
    forall k | k in t.mapInfo ensures TriedHas(h, t, k) { assert TriedHas(h, s, k); }
  }

  lemma {:induction false} ReferencedEdit(s: State, t: State, n: nat, e: Info, bare: set<nat>, bare': set<nat>)
    requires Referenced(s, bare) && n in s.mapInfo && t.mapInfo == s.mapInfo[n := e] && bare - {n} == bare' - {n}
    requires forall k :: k != n ==> Slots(t.vvNew, k) == Slots(s.vvNew, k)
    requires RefsAt(t, bare', n)
    ensures Referenced(t, bare')
  {
    hide Slots;
    forall k | k in t.mapInfo ensures RefsAt(t, bare', k) {
      if k != n {
        assert RefsAt(s, bare, k);
        assert k in bare - {n} <==> k in bare' - {n};
      }
    }
  }

  lemma {:induction false} EntryFacts(h: Hashes, s: State, bare: set<nat>, out: set<nat>, n: nat)
    requires Inv(h, s, bare, out) && n in s.mapInfo
    ensures RefsAt(s, bare, n) && TimesOk(s.mapInfo[n])
  {
  }

  /** Data of an entry that no index depends on. */
  ghost predicate SamePlace(a: Info, b: Info) {
    a.addr == b.addr && a.refCount == b.refCount && a.inTried == b.inTried && a.randomPos == b.randomPos
  }

  lemma {:induction false} EditKeeps(h: Hashes, s: State, n: nat, e: Info, bare: set<nat>, out: set<nat>)
    requires Inv(h, s, bare, out) && n in s.mapInfo && SamePlace(s.mapInfo[n], e) && TimesOk(e)
    ensures Inv(h, Edit(s, n, e), bare, out)
  {
    hide Placed, Referenced, Timed, Indexed, Tallied, Slots, TimesOk;
    var t := Edit(s, n, e);
    EntryFacts(h, s, bare, out, n);
    assert RefsAt(t, bare, n);
    IndexedEdit(s, t, n, e);
    TallySame(h, s, t, out);
    PlacedEdit(h, s, t, n, e);
    ReferencedEdit(s, t, n, e, bare, bare);
    TimedEdit(s, t, n, e);
  }

  // ---------- a new entry ----------

  function Created(h: Hashes, s: State, addr: nat, source: nat, time: int): State {
    var n := s.idCount;
    s.(idCount := n + 1, mapInfo := s.mapInfo[n := Info(addr, source, time, 0, 0, 0, false, |s.vRandom|)],
       mapAddr := s.mapAddr[addr := n], vRandom := s.vRandom + [n], nNew := s.nNew + 1, counts := Bump(s.counts, h.network(addr), 1, 0))
  }

  lemma {:induction false} CreatedIndexed(h: Hashes, s: State, addr: nat, source: nat, time: int)
    requires Indexed(s) && addr !in s.mapAddr
    ensures Indexed(Created(h, s, addr, source, time)) && s.idCount !in s.mapInfo
  {
    var t, n := Created(h, s, addr, source, time), s.idCount;
    forall k | k in s.mapInfo ensures k < n { assert EntryAt(s, k); }
    forall k | k in t.mapInfo ensures EntryAt(t, k) { if k != n { assert EntryAt(s, k); } }
    forall a | a in t.mapAddr ensures AddrAt(t, a) { if a != addr { assert AddrAt(s, a); } }
    forall i | 0 <= i < |t.vRandom| ensures RandomAt(t, i) { if i < |s.vRandom| { assert RandomAt(s, i); } }
  }

  /** A new identifier is in no slot. */
  lemma {:induction false} NoSlots(h: Hashes, s: State, n: nat)
    requires Placed(h, s) && n !in s.mapInfo
    ensures Slots(s.vvNew, n) == {}
  {
    forall p | p in s.vvNew ensures s.vvNew[p] != n { assert NewAt(h, s, p); }
  }

  lemma {:induction false} CreatedPlaced(h: Hashes, s: State, t: State, n: nat, e: Info)
    requires Placed(h, s) && n !in s.mapInfo && t.mapInfo == s.mapInfo[n := e] && !e.inTried && t.vvTried == s.vvTried && t.vvNew == s.vvNew
    ensures Placed(h, t)
  {
    forall p | p in t.vvNew ensures NewAt(h, t, p) { assert NewAt(h, s, p); }
    forall p | p in t.vvTried ensures TriedAt(h, t, p) { assert TriedAt(h, s, p); }
    forall k | k in t.mapInfo ensures TriedHas(h, t, k) { if k != n { assert TriedHas(h, s, k); } }
  }

  lemma {:induction false} CreatedReferenced(s: State, t: State, n: nat, e: Info, bare: set<nat>)
    requires Referenced(s, bare) && n !in s.mapInfo && t.mapInfo == s.mapInfo[n := e] && t.vvNew == s.vvNew && bare <= s.mapInfo.Keys
    requires !e.inTried && e.refCount == 0 && Slots(s.vvNew, n) == {}
    ensures Referenced(t, bare + {n})
  {
    hide Slots;
    forall k | k in t.mapInfo ensures RefsAt(t, bare + {n}, k) {
      if k != n { assert RefsAt(s, bare, k); }
    }
  }

  lemma {:induction false} CreatedKeeps(h: Hashes, s: State, addr: nat, source: nat, time: int, bare: set<nat>, out: set<nat>)
    requires Inv(h, s, bare, out) && addr !in s.mapAddr
    ensures Inv(h, Created(h, s, addr, source, time), bare + {s.idCount}, out)
  {
    hide Indexed, Tallied, Placed, Timed, Referenced;
    var t, n := Created(h, s, addr, source, time), s.idCount;
    var e := t.mapInfo[n];
    CreatedIndexed(h, s, addr, source, time);
    NoSlots(h, s, n);
    TallyPut(h, s, t, n, e, out, out, 1, 0);
    CreatedPlaced(h, s, t, n, e);
    CreatedReferenced(s, t, n, e, bare);
    TimedEdit(s, t, n, e);
  }

  // ---------- the random order ----------

  function Swapped(s: State, i: nat, j: nat): State
    requires i < |s.vRandom| && j < |s.vRandom| && s.vRandom[i] in s.mapInfo && s.vRandom[j] in s.mapInfo
  {
    if i == j then s else
      var a, b := s.vRandom[i], s.vRandom[j];
      var m := s.mapInfo[a := s.mapInfo[a].(randomPos := j)];
      s.(mapInfo := m[b := m[b].(randomPos := i)], vRandom := s.vRandom[i := b][j := a])
  }

  /** Only positions in the random order differ. */
  ghost predicate SameButOrder(s: State, t: State) {
    && t == s.(mapInfo := t.mapInfo, vRandom := t.vRandom) && t.mapInfo.Keys == s.mapInfo.Keys && |t.vRandom| == |s.vRandom|
    && (forall n :: n in s.mapInfo ==> t.mapInfo[n] == s.mapInfo[n].(randomPos := t.mapInfo[n].randomPos))
  }

  lemma {:induction false} SwappedOrder(s: State, i: nat, j: nat)
    requires Indexed(s) && i < |s.vRandom| && j < |s.vRandom|
    ensures s.vRandom[i] in s.mapInfo && s.vRandom[j] in s.mapInfo && (i != j ==> s.vRandom[i] != s.vRandom[j])
    ensures SameButOrder(s, Swapped(s, i, j)) && Swapped(s, i, j).vRandom[j] == s.vRandom[i]
  {
    assert RandomAt(s, i) && RandomAt(s, j);
  }

  lemma {:induction false} SwappedIndexed(s: State, i: nat, j: nat)
    requires Indexed(s) && i < |s.vRandom| && j < |s.vRandom|
    ensures s.vRandom[i] in s.mapInfo && s.vRandom[j] in s.mapInfo && Indexed(Swapped(s, i, j))
  {
    SwappedOrder(s, i, j);
    if i != j { SwappedAll(s, Swapped(s, i, j), s.vRandom[i], s.vRandom[j], i, j); }
  }

  lemma {:induction false} SwappedAll(s: State, t: State, a: nat, b: nat, i: nat, j: nat)
    requires Indexed(s) && i < |s.vRandom| && j < |s.vRandom| && i != j && a == s.vRandom[i] && b == s.vRandom[j]
    requires a in s.mapInfo && b in s.mapInfo && t == Swapped(s, i, j)
    ensures Indexed(t)
  {
    assert RandomAt(s, i) && RandomAt(s, j);
    assert a != b;
    SwappedShape(s, t, a, b, i, j);
    hide Swapped;
    forall n | n in t.mapInfo ensures EntryAt(t, n) { assert EntryAt(s, n); }
    forall x | x in t.mapAddr ensures AddrAt(t, x) { assert AddrAt(s, x); }
    forall k | 0 <= k < |t.vRandom| ensures RandomAt(t, k) { assert RandomAt(s, k); }
  }

  lemma {:induction false} SwappedShape(s: State, t: State, a: nat, b: nat, i: nat, j: nat)
    requires i < |s.vRandom| && j < |s.vRandom| && i != j && a == s.vRandom[i] && b == s.vRandom[j] && a != b
    requires a in s.mapInfo && b in s.mapInfo && t == Swapped(s, i, j)
    ensures t == s.(mapInfo := t.mapInfo, vRandom := t.vRandom) && t.mapInfo.Keys == s.mapInfo.Keys && |t.vRandom| == |s.vRandom|
    ensures t.mapInfo[a] == s.mapInfo[a].(randomPos := j) && t.mapInfo[b] == s.mapInfo[b].(randomPos := i)
    ensures forall n :: n in s.mapInfo && n != a && n != b ==> t.mapInfo[n] == s.mapInfo[n]
    ensures forall k :: 0 <= k < |s.vRandom| && k != i && k != j ==> t.vRandom[k] == s.vRandom[k]
    ensures t.vRandom[i] == b && t.vRandom[j] == a
  {
  }

  lemma {:induction false} SwappedKeeps(h: Hashes, s: State, i: nat, j: nat, bare: set<nat>, out: set<nat>)
    requires Inv(h, s, bare, out) && i < |s.vRandom| && j < |s.vRandom|
    ensures s.vRandom[i] in s.mapInfo && s.vRandom[j] in s.mapInfo && (i != j ==> s.vRandom[i] != s.vRandom[j])
    ensures var t := Swapped(s, i, j); Inv(h, t, bare, out) && SameButOrder(s, t) && t.vRandom[j] == s.vRandom[i]
  {
    hide Indexed, Tallied, Placed, Referenced, Timed;
    SwappedOrder(s, i, j);
    SwappedIndexed(s, i, j);
    OrderKeeps(h, s, Swapped(s, i, j), bare, out);
  }

  lemma {:induction false} OrderKeeps(h: Hashes, s: State, t: State, bare: set<nat>, out: set<nat>)
    requires Inv(h, s, bare, out) && SameButOrder(s, t) && Indexed(t)
    ensures Inv(h, t, bare, out)
  {
    hide Indexed;
    assert Tallied(h, t, out) by {
      hide Placed, Referenced, Timed, Tallied;
      TallySame(h, s, t, out);
    }
    hide Tallied;
    forall p | p in t.vvNew ensures NewAt(h, t, p) { assert NewAt(h, s, p); }
    forall p | p in t.vvTried ensures TriedAt(h, t, p) { assert TriedAt(h, s, p); }
    forall n | n in t.mapInfo ensures TriedHas(h, t, n) && RefsAt(t, bare, n) && TimesOk(t.mapInfo[n]) {
      assert TriedHas(h, s, n) && RefsAt(s, bare, n) && TimesOk(s.mapInfo[n]);
    }
  }

  // ---------- removing an entry ----------

  /** Remove an entry that is last in the random order. */
  function Popped(h: Hashes, s: State, n: nat): State
    requires n in s.mapInfo && s.vRandom != []
  {
    s.(mapInfo := s.mapInfo - {n}, mapAddr := s.mapAddr - {s.mapInfo[n].addr}, vRandom := s.vRandom[..|s.vRandom| - 1],
       nNew := s.nNew - 1, counts := Bump(s.counts, h.network(s.mapInfo[n].addr), -1, 0))
  }

  lemma {:induction false} PoppedIndexed(h: Hashes, s: State, n: nat)
    requires Indexed(s) && n in s.mapInfo && s.vRandom != [] && s.vRandom[|s.vRandom| - 1] == n
    ensures Indexed(Popped(h, s, n))
  {
    var t, last := Popped(h, s, n), |s.vRandom| - 1;
    assert RandomAt(s, last) && EntryAt(s, n);
    forall k | k in t.mapInfo ensures EntryAt(t, k) { assert EntryAt(s, k); }
    forall a | a in t.mapAddr ensures AddrAt(t, a) { assert AddrAt(s, a); }
    forall i | 0 <= i < |t.vRandom| ensures RandomAt(t, i) { assert RandomAt(s, i); }
  }

  lemma {:induction false} UnreferencedSlots(s: State, bare: set<nat>, n: nat)
    requires Referenced(s, bare) && n in s.mapInfo && s.mapInfo[n].refCount == 0
    ensures forall p :: p in s.vvNew ==> s.vvNew[p] != n
  {
    assert RefsAt(s, bare, n);
    assert Slots(s.vvNew, n) == {};
    forall p | p in s.vvNew ensures s.vvNew[p] != n { assert p !in Slots(s.vvNew, n); }
  }

  lemma {:induction false} PoppedTables(h: Hashes, s: State, t: State, n: nat, bare: set<nat>)
    requires Placed(h, s) && Referenced(s, bare) && Timed(s) && n in s.mapInfo && t.mapInfo == s.mapInfo - {n}
    requires t.vvNew == s.vvNew && t.vvTried == s.vvTried && !s.mapInfo[n].inTried && forall p :: p in s.vvNew ==> s.vvNew[p] != n
    ensures Placed(h, t) && Referenced(t, bare - {n}) && Timed(t)
  {
    forall p | p in t.vvNew ensures NewAt(h, t, p) { assert NewAt(h, s, p); }
    forall p | p in t.vvTried ensures TriedAt(h, t, p) { assert TriedAt(h, s, p); }
    hide Slots;
    forall k | k in t.mapInfo ensures TriedHas(h, t, k) && RefsAt(t, bare - {n}, k) && TimesOk(t.mapInfo[k]) {
      assert TriedHas(h, s, k) && RefsAt(s, bare, k) && TimesOk(s.mapInfo[k]);
    }
  }

  lemma {:induction false} BareEntry(h: Hashes, s: State, bare: set<nat>, out: set<nat>, n: nat)
    requires Inv(h, s, bare, out) && n in bare
    ensures n in s.mapInfo && !s.mapInfo[n].inTried && s.mapInfo[n].refCount == 0 && forall p :: p in s.vvNew ==> s.vvNew[p] != n
  {
    assert RefsAt(s, bare, n);
    UnreferencedSlots(s, bare, n);
  }

  lemma {:induction false} PoppedKeeps(h: Hashes, s: State, n: nat, bare: set<nat>, out: set<nat>)
    requires Inv(h, s, bare, out) && n in bare - out && s.vRandom != [] && s.vRandom[|s.vRandom| - 1] == n
    ensures Inv(h, Popped(h, s, n), bare - {n}, out)
  {
    hide Placed, Referenced, Timed, Indexed, Tallied;
    BareEntry(h, s, bare, out, n);
    var t := Popped(h, s, n);
    PoppedIndexed(h, s, n);
    TallyDrop(h, s, t, n, out);
    PoppedTables(h, s, t, n, bare);
  }

  // ---------- slots of the new table ----------

  lemma {:induction false} SlotsDrop(v: map<Slot, nat>, p: Slot)
    requires p in v
    ensures |Slots(v - {p}, v[p])| == |Slots(v, v[p])| - 1
    ensures forall n :: n != v[p] ==> Slots(v - {p}, n) == Slots(v, n)
  {
    assert Slots(v - {p}, v[p]) == Slots(v, v[p]) - {p};
    SizeMinus(Slots(v, v[p]), p);
  }

  lemma {:induction false} SlotsPut(v: map<Slot, nat>, p: Slot, n: nat)
    requires p !in v
    ensures |Slots(v[p := n], n)| == |Slots(v, n)| + 1
    ensures forall k :: k != n ==> Slots(v[p := n], k) == Slots(v, k)
  {
    assert Slots(v[p := n], n) == Slots(v, n) + {p};
    SizePlus(Slots(v, n), p);
  }

  /** Take one reference away. */
  function Dropped(s: State, p: Slot): State
    requires p in s.vvNew && s.vvNew[p] in s.mapInfo
  {
    var n := s.vvNew[p];
    s.(vvNew := s.vvNew - {p}, mapInfo := s.mapInfo[n := s.mapInfo[n].(refCount := s.mapInfo[n].refCount - 1)])
  }

  lemma {:induction false} SlotEntry(h: Hashes, s: State, bare: set<nat>, out: set<nat>, p: Slot)
    requires Inv(h, s, bare, out) && p in s.vvNew
    ensures var n := s.vvNew[p];
            && n in s.mapInfo && n !in bare && n !in out && !s.mapInfo[n].inTried && 0 < s.mapInfo[n].refCount <= MAX_REFS
            && p == NewSlot(h, s.mapInfo[n].addr, p.bucket) && p.bucket < NEW_BUCKETS
  {
    var n := s.vvNew[p];
    assert NewAt(h, s, p) && RefsAt(s, bare, n);
    assert p in Slots(s.vvNew, n);
  }

  lemma {:induction false} DroppedKeeps(h: Hashes, s: State, p: Slot, bare: set<nat>, out: set<nat>)
    requires Inv(h, s, bare, out) && p in s.vvNew
    ensures var n := s.vvNew[p];
            n in s.mapInfo && Inv(h, Dropped(s, p), if s.mapInfo[n].refCount == 1 then bare + {n} else bare, out)
  {
    hide Placed, Referenced, Timed, Indexed, Tallied, Slots;
    SlotEntry(h, s, bare, out, p);
    var n, t := s.vvNew[p], Dropped(s, p);
    var e := t.mapInfo[n];
    EntryFacts(h, s, bare, out, n);
    SlotsDrop(s.vvNew, p);
    var bare' := if s.mapInfo[n].refCount == 1 then bare + {n} else bare;
    assert RefsAt(t, bare', n);
    IndexedEdit(s, t, n, e);
    TallySame(h, s, t, out);
    PlacedEdit(h, s, t, n, e);
    ReferencedEdit(s, t, n, e, bare, bare');
    TimedEdit(s, t, n, e);
  }

  /** Give an entry a slot of the new table. */
  function Listed(s: State, p: Slot, n: nat): State
    requires n in s.mapInfo
  {
    s.(vvNew := s.vvNew[p := n], mapInfo := s.mapInfo[n := s.mapInfo[n].(refCount := s.mapInfo[n].refCount + 1)])
  }

  lemma {:induction false} ListedPlaced(h: Hashes, s: State, t: State, p: Slot, n: nat, e: Info)
    requires Placed(h, s) && n in s.mapInfo && t.mapInfo == s.mapInfo[n := e] && e.addr == s.mapInfo[n].addr && e.inTried == s.mapInfo[n].inTried
    requires t.vvTried == s.vvTried && t.vvNew == s.vvNew[p := n] && p.bucket < NEW_BUCKETS && p == NewSlot(h, e.addr, p.bucket) && !e.inTried
    ensures Placed(h, t)
  {
    forall q | q in t.vvNew ensures NewAt(h, t, q) { if q != p { assert NewAt(h, s, q); } }
    forall q | q in t.vvTried ensures TriedAt(h, t, q) { assert TriedAt(h, s, q); }
    forall k | k in t.mapInfo ensures TriedHas(h, t, k) { assert TriedHas(h, s, k); }
  }

  lemma {:induction false} ListedKeeps(h: Hashes, s: State, p: Slot, n: nat, bare: set<nat>, out: set<nat>)
    requires Inv(h, s, bare, out) && n in s.mapInfo && !s.mapInfo[n].inTried && n !in out && s.mapInfo[n].refCount < MAX_REFS
    requires p !in s.vvNew && p.bucket < NEW_BUCKETS && p == NewSlot(h, s.mapInfo[n].addr, p.bucket)
    ensures Inv(h, Listed(s, p, n), bare - {n}, out)
  {
    hide Placed, Referenced, Timed, Indexed, Tallied, Slots;
    var t := Listed(s, p, n);
    var e := t.mapInfo[n];
    EntryFacts(h, s, bare, out, n);
    SlotsPut(s.vvNew, p, n);
    assert RefsAt(t, bare - {n}, n);
    IndexedEdit(s, t, n, e);
    TallySame(h, s, t, out);
    ListedPlaced(h, s, t, p, n, e);
    ReferencedEdit(s, t, n, e, bare, bare - {n});
    TimedEdit(s, t, n, e);
  }

  // ---------- between the tables ----------

  function Recounted(h: Hashes, s: State, addr: nat, dNew: int, dTried: int): State {
    s.(nNew := s.nNew + dNew, nTried := s.nTried + dTried, counts := Bump(s.counts, h.network(addr), dNew, dTried))
  }

  lemma {:induction false} RecountedParts(h: Hashes, s: State, t: State, bare: set<nat>, out: set<nat>, out': set<nat>)
    requires Inv(h, s, bare, out) && t == s.(nNew := t.nNew, nTried := t.nTried, counts := t.counts) && Tallied(h, t, out') && out' <= bare
    ensures Inv(h, t, bare, out')
  {
    hide Tallied;
    forall n | n in t.mapInfo ensures EntryAt(t, n) && TriedHas(h, t, n) && RefsAt(t, bare, n) {
      assert EntryAt(s, n) && TriedHas(h, s, n) && RefsAt(s, bare, n);
    }
    forall a | a in t.mapAddr ensures AddrAt(t, a) { assert AddrAt(s, a); }
    forall i | 0 <= i < |t.vRandom| ensures RandomAt(t, i) { assert RandomAt(s, i); }
    forall p | p in t.vvNew ensures NewAt(h, t, p) { assert NewAt(h, s, p); }
    forall p | p in t.vvTried ensures TriedAt(h, t, p) { assert TriedAt(h, s, p); }
  }

  /** An entry without references leaves the new table. */
  lemma {:induction false} WithdrawKeeps(h: Hashes, s: State, n: nat, bare: set<nat>, out: set<nat>)
    requires Inv(h, s, bare, out) && n in bare - out
    ensures n in s.mapInfo && Inv(h, Recounted(h, s, s.mapInfo[n].addr, -1, 0), bare, out + {n})
  {
    BareEntry(h, s, bare, out, n);
    hide Tallied;
    var t := Recounted(h, s, s.mapInfo[n].addr, -1, 0);
    assert s.mapInfo == s.mapInfo[n := s.mapInfo[n]];
    TallyPut(h, s, t, n, s.mapInfo[n], out, out + {n}, -1, 0);
    RecountedParts(h, s, t, bare, out, out + {n});
  }

  /** An entry enters the new table, to get a reference next. */
  lemma {:induction false} AdmitKeeps(h: Hashes, s: State, n: nat, bare: set<nat>, out: set<nat>)
    requires Inv(h, s, bare, out) && n in out
    ensures n in s.mapInfo && Inv(h, Recounted(h, s, s.mapInfo[n].addr, 1, 0), bare, out - {n})
  {
    BareEntry(h, s, bare, out, n);
    hide Tallied;
    var t := Recounted(h, s, s.mapInfo[n].addr, 1, 0);
    assert s.mapInfo == s.mapInfo[n := s.mapInfo[n]];
    TallyPut(h, s, t, n, s.mapInfo[n], out, out - {n}, 1, 0);
    RecountedParts(h, s, t, bare, out, out - {n});
  }

  /** Take the entry of an occupied slot out of the tried table. */
  function Evicted(h: Hashes, s: State, p: Slot): State
    requires p in s.vvTried && s.vvTried[p] in s.mapInfo
  {
    var n := s.vvTried[p];
    Recounted(h, s.(vvTried := s.vvTried - {p}, mapInfo := s.mapInfo[n := s.mapInfo[n].(inTried := false)]), s.mapInfo[n].addr, 0, -1)
  }

  lemma {:induction false} EvictedPlaced(h: Hashes, s: State, t: State, p: Slot, n: nat, e: Info)
    requires Placed(h, s) && p in s.vvTried && s.vvTried[p] == n && n in s.mapInfo && e == s.mapInfo[n].(inTried := false)
    requires t.mapInfo == s.mapInfo[n := e] && t.vvTried == s.vvTried - {p} && t.vvNew == s.vvNew
    ensures Placed(h, t)
  {
    assert TriedAt(h, s, p);
    forall q | q in t.vvNew ensures NewAt(h, t, q) { assert NewAt(h, s, q); }
    forall q | q in t.vvTried ensures TriedAt(h, t, q) { assert TriedAt(h, s, q); }
    forall k | k in t.mapInfo ensures TriedHas(h, t, k) { assert TriedHas(h, s, k); }
  }

  lemma {:induction false} TriedEntry(h: Hashes, s: State, bare: set<nat>, out: set<nat>, p: Slot)
    requires Inv(h, s, bare, out) && p in s.vvTried
    ensures var n := s.vvTried[p];
            && n in s.mapInfo && n !in bare && s.mapInfo[n].inTried && s.mapInfo[n].refCount == 0
            && p == TriedSlot(h, s.mapInfo[n].addr) && forall q :: q in s.vvNew ==> s.vvNew[q] != n
  {
    var n := s.vvTried[p];
    assert TriedAt(h, s, p);
    assert RefsAt(s, bare, n);
    UnreferencedSlots(s, bare, n);
  }

  lemma {:induction false} EvictedKeeps(h: Hashes, s: State, p: Slot, bare: set<nat>, out: set<nat>)
    requires Inv(h, s, bare, out) && p in s.vvTried
    ensures var n := s.vvTried[p]; n in s.mapInfo && Inv(h, Evicted(h, s, p), bare + {n}, out + {n})
  {
    hide Placed, Referenced, Timed, Indexed, Tallied, Slots;
    TriedEntry(h, s, bare, out, p);
    var n, t := s.vvTried[p], Evicted(h, s, p);
    var e := t.mapInfo[n];
    EntryFacts(h, s, bare, out, n);
    assert RefsAt(t, bare + {n}, n);
    IndexedEdit(s, t, n, e);
    TallyPut(h, s, t, n, e, out, out + {n}, 0, -1);
    EvictedPlaced(h, s, t, p, n, e);
    ReferencedEdit(s, t, n, e, bare, bare + {n});
    TimedEdit(s, t, n, e);
  }

  /** Put an entry into its free slot of the tried table. */
  function Promoted(h: Hashes, s: State, n: nat): State
    requires n in s.mapInfo
  {
    var p := TriedSlot(h, s.mapInfo[n].addr);
    Recounted(h, s.(vvTried := s.vvTried[p := n], mapInfo := s.mapInfo[n := s.mapInfo[n].(inTried := true)]), s.mapInfo[n].addr, 0, 1)
  }

  lemma {:induction false} PromotedPlaced(h: Hashes, s: State, t: State, p: Slot, n: nat, e: Info)
    requires Placed(h, s) && n in s.mapInfo && e == s.mapInfo[n].(inTried := true) && p == TriedSlot(h, e.addr) && p !in s.vvTried
    requires t.mapInfo == s.mapInfo[n := e] && t.vvTried == s.vvTried[p := n] && t.vvNew == s.vvNew && forall q :: q in s.vvNew ==> s.vvNew[q] != n
    requires !s.mapInfo[n].inTried
    ensures Placed(h, t)
  {
    forall q | q in t.vvNew ensures NewAt(h, t, q) { assert NewAt(h, s, q); }
    forall q | q in t.vvTried ensures TriedAt(h, t, q) { if q != p { assert TriedAt(h, s, q); } }
    forall k | k in t.mapInfo ensures TriedHas(h, t, k) { assert TriedHas(h, s, k); }
  }

  lemma {:induction false} PromotedKeeps(h: Hashes, s: State, n: nat, bare: set<nat>, out: set<nat>)
    requires Inv(h, s, bare, out) && n in out && TriedSlot(h, s.mapInfo[n].addr) !in s.vvTried && s.mapInfo[n].lastSuccess > 0
    ensures Inv(h, Promoted(h, s, n), bare - {n}, out - {n})
  {
    hide Placed, Referenced, Timed, Indexed, Tallied, Slots;
    BareEntry(h, s, bare, out, n);
    var t := Promoted(h, s, n);
    var e := t.mapInfo[n];
    EntryFacts(h, s, bare, out, n);
    assert RefsAt(t, bare - {n}, n);
    IndexedEdit(s, t, n, e);
    TallyPut(h, s, t, n, e, out, out - {n}, 0, 1);
    PromotedPlaced(h, s, t, TriedSlot(h, e.addr), n, e);
    ReferencedEdit(s, t, n, e, bare, bare - {n});
    TimedEdit(s, t, n, e);
  }
}

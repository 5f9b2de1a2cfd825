/** One cache of unspent coins and used peg-ins, on top of another view (src/coins.h,
    src/coins.cpp): entries with their flags, the list of flagged entries, and what writing the
    changes of one cache into the one below does to each entry. */
module Coins {
  import opened Options
  import opened Sets

  datatype Coin = Spent | Coin(data: int, unspendable: bool)

  /** Native coins have a null genesis hash (0); peg-ins carry that of the parent chain. */
  datatype Key = Key(genesis: nat, outpoint: nat)

  predicate Native(k: Key) { k.genesis == 0 }

  function NativeKey(outpoint: nat): Key { Key(0, outpoint) }

  datatype Entry = Entry(coin: Coin, peginSpent: bool, isDirty: bool, isFresh: bool, isPegin: bool)

  predicate Flagged(e: Entry) { e.isDirty || e.isFresh || e.isPegin }

  /** What is known of a key: nothing, an unspent coin, or a used peg-in. */
  datatype Data = Absent | Unspent(coin: Coin) | PeginUsed

  ghost function Stored(k: Key, e: Entry): Data {
    if Native(k) then (if e.coin.Spent? then Absent else Unspent(e.coin)) else (if e.peginSpent then PeginUsed else Absent)
  }

  /** `flagged` is the linked list of entries that have a flag. */
  datatype Cache = Cache(entries: map<Key, Entry>, flagged: seq<Key>, hashBlock: nat)

  const NO_CACHE := Cache(map[], [], 0)

  ghost predicate Linked(c: Cache) {
    Distinct(c.flagged) && forall k :: k in c.flagged <==> k in c.entries && Flagged(c.entries[k])
  }

  /** An entry over what the view below has for its key.  FRESH means that the view below has
      nothing, and an entry that is not DIRTY agrees with it.  A native entry is in one of four
      states; a peg-in entry always has a spent coin. */
  ghost predicate EntryOk(k: Key, e: Entry, below: Data) {
    && (e.isFresh ==> below == Absent) && (!e.isDirty ==> Stored(k, e) == below)
    && (e.isPegin <==> !Native(k))
    && (Native(k) && e.isFresh ==> e.isDirty && !e.coin.Spent?)
    && (Native(k) && e.coin.Spent? ==> e.isDirty)
    && (!Native(k) ==> e.coin.Spent?)
  }

  // ---------- one entry ----------

  ghost function Get(m: map<Key, Entry>, k: Key): Option<Entry> { if k in m then Some(m[k]) else None }

  /** What a view shows for a key, from its own entry if it has one. */
  ghost function Shown(k: Key, e: Option<Entry>, below: Data): Data { if e.Some? then Stored(k, e.value) else below }

  ghost predicate MaybeOk(k: Key, e: Option<Entry>, below: Data) { e.Some? ==> EntryOk(k, e.value, below) }

  /** Nothing to keep in a view that has nothing below. */
  predicate Prunable(e: Entry) { (e.isPegin && !e.peginSpent) || (!e.isPegin && e.coin.Spent?) }

  /** FRESH in the child, although the parent cache has the coin. */
  predicate Misapplied(e: Entry, p: Entry) { e.isFresh && !p.coin.Spent? }

  /** The parent's entry after a dirty entry of its child is written. */
  function Merged(e: Entry, p: Option<Entry>): Option<Entry> {
    match p
    case None =>
      if e.isFresh && Prunable(e) then None
      else Some(Entry(e.coin, e.isPegin && e.peginSpent, true, e.isFresh, e.isPegin))
    case Some(pe) =>
      if pe.isFresh && Prunable(e) then None
      else Some(pe.(coin := e.coin, peginSpent := if e.isPegin then e.peginSpent else pe.peginSpent, isDirty := true))
  }

  /** Writing a dirty entry down: the parent shows what the child showed, its own entry is in order
      over the grandparent, and FRESH was never misapplied. */
  lemma {:induction false} MergedOk(k: Key, e: Entry, p: Option<Entry>, below: Data)
    requires MaybeOk(k, p, below) && EntryOk(k, e, Shown(k, p, below)) && e.isDirty
    ensures p.Some? ==> !Misapplied(e, p.value)
    ensures MaybeOk(k, Merged(e, p), below) && Shown(k, Merged(e, p), below) == Stored(k, e)
  {
  }

  /** An entry after Sync: clean, or gone when its coin is spent. */
  ghost function Synced(e: Entry): Option<Entry> {
    if !Flagged(e) then Some(e) else if e.coin.Spent? then None else Some(e.(isDirty := false, isFresh := false, isPegin := false))
  }

  lemma {:induction false} SyncedOk(k: Key, e: Entry, below: Data)
    requires EntryOk(k, e, below)
    ensures MaybeOk(k, Synced(e), Stored(k, e)) && Shown(k, Synced(e), Stored(k, e)) == Stored(k, e)
    ensures Synced(e).Some? ==> !Flagged(Synced(e).value)
  {
  }

  // ---------- the list of flagged entries ----------

  /** Store an entry, linking its key at the end of the list when it gets its first flag. */
  function Put(c: Cache, k: Key, e: Entry): Cache {
    c.(entries := c.entries[k := e],
       flagged := if Flagged(e) && (k !in c.entries || !Flagged(c.entries[k])) then c.flagged + [k] else c.flagged)
  }

  function Without(l: seq<Key>, k: Key): (r: seq<Key>)
    ensures forall x :: x in r <==> x in l && x != k
    ensures Distinct(l) ==> Distinct(r)
  {
    if l == [] then []
    else if l[0] == k then Without(l[1..], k)
    else
      assert Distinct(l) ==> Distinct(l[1..]) && l[0] !in l[1..];
      [l[0]] + Without(l[1..], k)
  }

  /** Erase an entry; its destructor unlinks it. */
  function Erase(c: Cache, k: Key): Cache { c.(entries := c.entries - {k}, flagged := Without(c.flagged, k)) }

  /** SetClean: unlink an entry and drop its flags. */
  function Clean(c: Cache, k: Key): Cache
    requires k in c.entries
  {
    c.(entries := c.entries[k := c.entries[k].(isDirty := false, isFresh := false, isPegin := false)], flagged := Without(c.flagged, k))
  }

  lemma {:induction false} PutLinked(c: Cache, k: Key, e: Entry)
    requires Linked(c) && (k in c.entries && Flagged(c.entries[k]) ==> Flagged(e))
    ensures Linked(Put(c, k, e))
  {
    var r := Put(c, k, e);
    if r.flagged != c.flagged {
      assert k !in c.flagged;
      assert forall x :: x in r.flagged <==> x in c.flagged || x == k;
    }
  }

  lemma {:induction false} EraseLinked(c: Cache, k: Key)
    requires Linked(c)
    ensures Linked(Erase(c, k)) && (k in c.entries ==> Linked(Clean(c, k)))
  {
  }
}

/** The block tree with its skip pointers, and the active chain (src/chain.cpp, src/chain.h). */
module Chains {
  import opened Arithmetic
  import opened Options
  import opened Powers

  /** A block: its parent and the block its skip pointer leads to, by position in the tree. */
  datatype Block = Block(height: nat, prev: Option<nat>, skip: Option<nat>)

  /** n without its lowest set bit. */
  function InvertLowestOne(n: nat): (r: nat)
    ensures n > 0 ==> r < n
    ensures n == 0 ==> r == 0
  {
    if n == 0 then 0 else if n % 2 == 1 then n - 1 else 2 * InvertLowestOne(n / 2)
  }

  /** A number whose lowest one bit is bit k loses exactly that bit. */
  lemma {:induction false} LowestOneCleared(k: nat, m: nat)
    ensures InvertLowestOne(Pow2(k) * (2 * m + 1)) == Pow2(k) * (2 * m)
  {
    hide InvertLowestOne;
    if k == 0 { OddCleared(m); }
    if k > 0 {
      var p := Pow2(k - 1);
      Associate(2, p, 2 * m + 1);
      Associate(2, p, 2 * m);
      TimesMono(1, p, 2 * m + 1);
      LowestOneCleared(k - 1, m);
      DoubledCleared(p * (2 * m + 1));
    }
  }

  lemma {:induction false} OddCleared(m: nat)
    ensures InvertLowestOne(2 * m + 1) == 2 * m
  {
  }

  lemma {:induction false} DoubledCleared(n: nat)
    requires n > 0
    ensures InvertLowestOne(2 * n) == 2 * InvertLowestOne(n)
  {
  }

  /** The height a skip pointer leads to. */
  function GetSkipHeight(height: nat): (r: nat)
    ensures height > 0 ==> r < height
    ensures height == 0 ==> r == 0
  {
    if height < 2 then 0
    else if height % 2 == 1 then InvertLowestOne(InvertLowestOne(height - 1)) + 1
    else InvertLowestOne(height)
  }

  // ---------- the tree ----------

  /** Parents are older and one lower; a block without parent is at height 0 and has no skip pointer. */
  ghost predicate BlockOk(t: seq<Block>, b: nat)
    requires b < |t|
  {
    && (t[b].prev.None? ==> t[b].height == 0 && t[b].skip.None?)
    && (t[b].prev.Some? ==> t[b].prev.value < b && t[b].height == t[t[b].prev.value].height + 1)
  }

  ghost predicate Shaped(t: seq<Block>) { forall b :: 0 <= b < |t| ==> BlockOk(t, b) }

  /** The ancestor of a block at a height, found by walking from parent to parent. */
  ghost function Walk(t: seq<Block>, b: nat, height: int): Option<nat>
    requires Shaped(t) && b < |t|
    decreases b
  {
    assert BlockOk(t, b);
    if height > t[b].height || height < 0 then None
    else if height == t[b].height then Some(b)
    else if t[b].prev.None? then None
    else Walk(t, t[b].prev.value, height)
  }

  ghost predicate Valid(t: seq<Block>) {
    Shaped(t) && forall b :: 0 <= b < |t| && t[b].skip.Some? ==> Walk(t, b, GetSkipHeight(t[b].height)) == t[b].skip
  }

  lemma {:induction false} WalkProps(t: seq<Block>, b: nat, height: int)
    requires Shaped(t) && b < |t|
    ensures Walk(t, b, height).Some? <==> 0 <= height <= t[b].height
    ensures Walk(t, b, height).Some? ==> var a := Walk(t, b, height).value; a <= b && t[a].height == height
    decreases b
  {
    assert BlockOk(t, b);
    if 0 <= height < t[b].height { WalkProps(t, t[b].prev.value, height); }
  }

  /** Walking in two stages. */
  lemma {:induction false} WalkTwice(t: seq<Block>, b: nat, mid: nat, height: int)
    requires Shaped(t) && b < |t| && height <= mid <= t[b].height
    ensures Walk(t, b, mid).Some? && Walk(t, b, mid).value < |t|
    ensures Walk(t, Walk(t, b, mid).value, height) == Walk(t, b, height)
    decreases b
  {
    WalkProps(t, b, mid);
    assert BlockOk(t, b);
    if mid < t[b].height { WalkTwice(t, t[b].prev.value, mid, height); }
  }

  /** Block a is b or an ancestor of b. */
  ghost predicate Ancestor(t: seq<Block>, a: nat, b: nat)
    requires Shaped(t) && a < |t| && b < |t|
  {
    Walk(t, b, t[a].height) == Some(a)
  }

  lemma {:induction false} AncestorTrans(t: seq<Block>, a: nat, b: nat, c: nat)
    requires Shaped(t) && a < |t| && b < |t| && c < |t| && Ancestor(t, a, b) && Ancestor(t, b, c)
    ensures Ancestor(t, a, c)
  {
    WalkProps(t, b, t[a].height);
    WalkProps(t, c, t[b].height);
    WalkTwice(t, c, t[b].height, t[a].height);
  }

  /** A block's ancestors but itself are those of its parent. */
  lemma {:induction false} ParentWalk(t: seq<Block>, b: nat, height: int)
    requires Shaped(t) && b < |t|
    ensures t[b].prev.Some? ==> t[b].prev.value < b
    ensures t[b].prev.Some? && height < t[b].height ==> Walk(t, b, height) == Walk(t, t[b].prev.value, height)
    ensures t[b].prev.None? && height < t[b].height ==> Walk(t, b, height) == None
    ensures Walk(t, b, t[b].height) == Some(b)
  {
    assert BlockOk(t, b);
  }

  /** Whether GetAncestor follows the skip pointer: unless the parent's is better. */
  predicate FollowSkip(heightWalk: nat, height: int)
    requires heightWalk > 0
  {
    var heightSkip, heightSkipPrev := GetSkipHeight(heightWalk), GetSkipHeight(heightWalk - 1);
    heightSkip == height || (heightSkip > height && !(heightSkipPrev < heightSkip - 2 && heightSkipPrev >= height))
  }

  /** Both ways to go back lead to a block with the same ancestor. */
  lemma {:induction false} SkipOrParent(t: seq<Block>, b: nat, height: nat)
    requires Valid(t) && b < |t| && height < t[b].height
    ensures t[b].prev.Some? && t[b].prev.value < |t| && t[t[b].prev.value].height == t[b].height - 1
    ensures Walk(t, t[b].prev.value, height) == Walk(t, b, height)
    ensures t[b].skip.Some? && height <= GetSkipHeight(t[b].height) ==>
              t[b].skip.value < |t| && t[t[b].skip.value].height == GetSkipHeight(t[b].height) && Walk(t, t[b].skip.value, height) == Walk(t, b, height)
  {
    assert BlockOk(t, b);
    ParentWalk(t, b, height);
    if t[b].skip.Some? && height <= GetSkipHeight(t[b].height) {
      WalkProps(t, b, GetSkipHeight(t[b].height));
      WalkTwice(t, b, GetSkipHeight(t[b].height), height);
    }
  }

  class BlockTree {
    var blocks: seq<Block>

    constructor ()
      ensures blocks == [] && Valid(blocks)
    {
      blocks := [];
    }

    /** The skip list finds what walking back would. */
    method GetAncestor(b: nat, height: int) returns (r: Option<nat>)
      requires Valid(blocks) && b < |blocks|
      ensures r == Walk(blocks, b, height)
    {
      if height > blocks[b].height || height < 0 { return None; }
      var walk: nat, heightWalk: nat := b, blocks[b].height;
      while heightWalk > height
        invariant walk < |blocks| && heightWalk == blocks[walk].height && height <= heightWalk
        invariant Walk(blocks, walk, height) == Walk(blocks, b, height)
      {
        SkipOrParent(blocks, walk, height);
        if blocks[walk].skip.Some? && FollowSkip(heightWalk, height) {
          walk, heightWalk := blocks[walk].skip.value, GetSkipHeight(heightWalk);
        } else {
          assert blocks[walk].prev.Some?;
          walk, heightWalk := blocks[walk].prev.value, heightWalk - 1;
        }
      }
      ParentWalk(blocks, walk, height);
      r := Some(walk);
    }

    /** A new block on top of another, with its skip pointer. */
    method AddBlock(prev: Option<nat>) returns (b: nat)
      requires Valid(blocks) && (prev.Some? ==> prev.value < |blocks|)
      modifies this
      ensures Valid(blocks) && |blocks| == |old(blocks)| + 1 && b == |old(blocks)| && old(blocks) <= blocks
      ensures blocks[b].prev == prev && (prev.Some? ==> blocks[b].height == blocks[prev.value].height + 1 && blocks[b].skip.Some?)
      ensures forall a, h :: 0 <= a < b ==> Walk(blocks, a, h) == Walk(old(blocks), a, h)
    {
      b := |blocks|;
      var block := Block(0, None, None);
      if prev.Some? {
        var height := blocks[prev.value].height + 1;
        var skip := GetAncestor(prev.value, GetSkipHeight(height));
        WalkProps(blocks, prev.value, GetSkipHeight(height));
        block := Block(height, prev, skip);
      }
      AddedBlock(blocks, block);
      blocks := blocks + [block];
    }

    /** The last common ancestor of two blocks, if they have one. */
    method LastCommonAncestor(a: nat, b: nat) returns (r: Option<nat>)
      requires Valid(blocks) && a < |blocks| && b < |blocks|
      ensures r.Some? ==> r.value < |blocks| && Ancestor(blocks, r.value, a) && Ancestor(blocks, r.value, b)
      ensures r.Some? ==> forall c :: 0 <= c < |blocks| && Ancestor(blocks, c, a) && Ancestor(blocks, c, b) ==> Ancestor(blocks, c, r.value)
      ensures r.None? ==> forall c :: 0 <= c < |blocks| ==> !(Ancestor(blocks, c, a) && Ancestor(blocks, c, b))
    {
      var pa, pb := Some(a), Some(b);
      if blocks[a].height > blocks[b].height {
        pa := GetAncestor(a, blocks[b].height);
        WalkProps(blocks, a, blocks[b].height);
      } else if blocks[b].height > blocks[a].height {
        pb := GetAncestor(b, blocks[a].height);
        WalkProps(blocks, b, blocks[a].height);
      }
      MeetStart(blocks, a, b, pa.value, pb.value);
      while pa != pb && pa.Some? && pb.Some?
        invariant Meeting(blocks, a, b, pa, pb)
        decreases if pa.Some? then pa.value + 1 else 0
      {
        MeetStep(blocks, a, b, pa.value, pb.value);
        pa, pb := blocks[pa.value].prev, blocks[pb.value].prev;
      }
      assert pa == pb;
      MeetEnd(blocks, a, b, pa);
      r := pa;
    }
  }

  lemma {:induction false} WalkGrows(t: seq<Block>, u: seq<Block>, b: nat, height: int)
    requires Shaped(t) && Shaped(u) && t <= u && b < |t|
    ensures Walk(u, b, height) == Walk(t, b, height)
    decreases b
  {
    assert u[b] == t[b] && BlockOk(t, b);
    if t[b].prev.Some? { WalkGrows(t, u, t[b].prev.value, height); }
  }

  lemma {:induction false} AddedBlock(t: seq<Block>, block: Block)
    requires Valid(t)
    requires block.prev.None? ==> block.height == 0 && block.skip.None?
    requires block.prev.Some? ==> block.prev.value < |t| && block.height == t[block.prev.value].height + 1
    requires block.prev.Some? ==> block.skip == Walk(t, block.prev.value, GetSkipHeight(block.height))
    ensures var u := t + [block]; Valid(u) && forall b, h :: 0 <= b < |t| ==> Walk(u, b, h) == Walk(t, b, h)
  {
    var u := t + [block];
    forall b | 0 <= b < |u| ensures BlockOk(u, b) {
      if b < |t| { assert BlockOk(t, b) && u[b] == t[b]; }
    }
    forall b, h | 0 <= b < |t| ensures Walk(u, b, h) == Walk(t, b, h) { WalkGrows(t, u, b, h); }
    forall b | 0 <= b < |u| && u[b].skip.Some? ensures Walk(u, b, GetSkipHeight(u[b].height)) == u[b].skip {
      if b == |t| { ParentWalk(u, b, GetSkipHeight(block.height)); }
    }
  }

  // ---------- the last common ancestor ----------

  /** pa and pb, at the same height, are an ancestor each of a and b, and every common ancestor of
      a and b is a common ancestor of theirs. */
  ghost predicate Meeting(t: seq<Block>, a: nat, b: nat, pa: Option<nat>, pb: Option<nat>)
    requires Shaped(t) && a < |t| && b < |t|
  {
    && (pa.Some? <==> pb.Some?)
    && (pa.None? ==> forall c :: 0 <= c < |t| ==> !(Ancestor(t, c, a) && Ancestor(t, c, b)))
    && (pa.Some? ==>
          && pa.value < |t| && pb.value < |t| && t[pa.value].height == t[pb.value].height && Ancestor(t, pa.value, a) && Ancestor(t, pb.value, b)
          && forall c :: 0 <= c < |t| && Ancestor(t, c, a) && Ancestor(t, c, b) ==> Ancestor(t, c, pa.value) && Ancestor(t, c, pb.value))
  }

  /** A common ancestor is not above the lower of the two. */
  lemma {:induction false} Below(t: seq<Block>, c: nat, b: nat, p: nat)
    requires Shaped(t) && c < |t| && b < |t| && p < |t| && Ancestor(t, p, b) && Ancestor(t, c, b) && t[c].height <= t[p].height
    ensures Ancestor(t, c, p)
  {
    WalkProps(t, b, t[p].height);
    WalkTwice(t, b, t[p].height, t[c].height);
  }

  lemma {:induction false} MeetStart(t: seq<Block>, a: nat, b: nat, pa: nat, pb: nat)
    requires Shaped(t) && a < |t| && b < |t| && pa < |t| && pb < |t| && Ancestor(t, pa, a) && Ancestor(t, pb, b)
    requires t[pa].height == t[pb].height && (t[pa].height == t[a].height || t[pa].height == t[b].height)
    ensures Meeting(t, a, b, Some(pa), Some(pb))
  {
    forall c | 0 <= c < |t| && Ancestor(t, c, a) && Ancestor(t, c, b) ensures Ancestor(t, c, pa) && Ancestor(t, c, pb) {
      WalkProps(t, a, t[c].height);
      WalkProps(t, b, t[c].height);
      Below(t, c, a, pa);
      Below(t, c, b, pb);
    }
  }

  lemma {:induction false} MeetStep(t: seq<Block>, a: nat, b: nat, pa: nat, pb: nat)
    requires Shaped(t) && a < |t| && b < |t| && Meeting(t, a, b, Some(pa), Some(pb)) && pa != pb
    ensures Meeting(t, a, b, t[pa].prev, t[pb].prev)
    ensures t[pa].prev.Some? ==> t[pa].prev.value < pa
  {
    assert BlockOk(t, pa) && BlockOk(t, pb);
    forall c | 0 <= c < |t| && Ancestor(t, c, a) && Ancestor(t, c, b)
      ensures t[pa].prev.Some? && Ancestor(t, c, t[pa].prev.value) && Ancestor(t, c, t[pb].prev.value)
    {
      WalkProps(t, pa, t[c].height);
      ParentWalk(t, pa, t[c].height);
      ParentWalk(t, pb, t[c].height);
    }
    if t[pa].prev.Some? {
      ParentAncestor(t, pa, a);
      ParentAncestor(t, pb, b);
    }
  }

  lemma {:induction false} ParentAncestor(t: seq<Block>, p: nat, b: nat)
    requires Shaped(t) && p < |t| && b < |t| && Ancestor(t, p, b) && t[p].prev.Some?
    ensures t[p].prev.value < |t| && Ancestor(t, t[p].prev.value, b)
  {
    assert BlockOk(t, p);
    var q := t[p].prev.value;
    ParentWalk(t, p, t[q].height);
    ParentWalk(t, q, t[q].height);
    AncestorTrans(t, q, p, b);
  }

  lemma {:induction false} MeetEnd(t: seq<Block>, a: nat, b: nat, p: Option<nat>)
    requires Shaped(t) && a < |t| && b < |t| && Meeting(t, a, b, p, p)
    ensures p.Some? ==> p.value < |t| && Ancestor(t, p.value, a) && Ancestor(t, p.value, b)
    ensures p.Some? ==> forall c :: 0 <= c < |t| && Ancestor(t, c, a) && Ancestor(t, c, b) ==> Ancestor(t, c, p.value)
    ensures p.None? ==> forall c :: 0 <= c < |t| ==> !(Ancestor(t, c, a) && Ancestor(t, c, b))
  {
  }

  // ---------- the active chain ----------

  /** v is the path from a root to block `tip`. */
  ghost predicate PathTo(t: seq<Block>, v: seq<Option<nat>>, tip: nat)
    requires Shaped(t) && tip < |t|
  {
    |v| == t[tip].height + 1 && forall h :: 0 <= h < |v| ==> v[h] == Walk(t, tip, h)
  }

  /** The chain is empty, or the path to its last block. */
  ghost predicate IsPath(t: seq<Block>, v: seq<Option<nat>>)
    requires Shaped(t)
  {
    v != [] ==> var last := v[|v| - 1]; last.Some? && last.value < |t| && PathTo(t, v, last.value)
  }

  /** std::vector::resize with null pointers. */
  function Resize(v: seq<Option<nat>>, n: nat): (r: seq<Option<nat>>)
    ensures |r| == n && forall h :: 0 <= h < n ==> r[h] == if h < |v| then v[h] else None
  {
    if n <= |v| then v[..n] else v + seq(n - |v|, _ => None)
  }

  /** Adding blocks to the tree leaves a path a path. */
  lemma {:induction false} PathGrows(t: seq<Block>, u: seq<Block>, v: seq<Option<nat>>)
    requires Shaped(t) && Shaped(u) && t <= u && IsPath(t, v)
    ensures IsPath(u, v)
  {
    if v != [] {
      var tip := v[|v| - 1].value;
      forall h | 0 <= h < |v| ensures v[h] == Walk(u, tip, h) { WalkGrows(t, u, tip, h); }
      assert u[tip] == t[tip];
    }
  }

  /** A block on the path: everything below it on the path are its ancestors. */
  lemma {:induction false} OnPath(t: seq<Block>, v: seq<Option<nat>>, b: nat, h: nat)
    requires Shaped(t) && IsPath(t, v) && b < |t| && t[b].height < |v| && v[t[b].height] == Some(b) && h <= t[b].height
    ensures v[h] == Walk(t, b, h)
  {
    var tip := v[|v| - 1].value;
    WalkTwice(t, tip, t[b].height, h);
  }

  /** Where SetTip stands: done from height k up, untouched below. */
  ghost predicate Setting(t: seq<Block>, tip: nat, old_: seq<Option<nat>>, v: seq<Option<nat>>, index: Option<nat>, k: nat)
    requires Shaped(t) && tip < |t|
  {
    && |v| == t[tip].height + 1 && k <= |v|
    && (index.None? ==> k == 0) && (index.Some? ==> k > 0 && index.value < |t| && t[index.value].height == k - 1 && index == Walk(t, tip, k - 1))
    && (forall h :: k <= h < |v| ==> v[h] == Walk(t, tip, h))
    && (forall h :: 0 <= h < k ==> v[h] == if h < |old_| then old_[h] else None)
  }

  lemma {:induction false} SettingStep(t: seq<Block>, tip: nat, old_: seq<Option<nat>>, v: seq<Option<nat>>, b: nat, k: nat)
    requires Shaped(t) && tip < |t| && Setting(t, tip, old_, v, Some(b), k)
    ensures t[b].prev.Some? ==> t[b].prev.value < b
    ensures Setting(t, tip, old_, v[k - 1 := Some(b)], t[b].prev, k - 1)
  {
    assert BlockOk(t, b);
    if t[b].prev.Some? {
      WalkTwice(t, tip, k - 1, k - 2);
      ParentWalk(t, b, k - 2);
      ParentWalk(t, t[b].prev.value, k - 2);
    }
  }

  lemma {:induction false} SettingEnd(t: seq<Block>, tip: nat, old_: seq<Option<nat>>, v: seq<Option<nat>>, index: Option<nat>, k: nat)
    requires Shaped(t) && tip < |t| && IsPath(t, old_) && Setting(t, tip, old_, v, index, k)
    requires index.Some? ==> v[k - 1] == index
    ensures PathTo(t, v, tip)
  {
    forall h | 0 <= h < |v| ensures v[h] == Walk(t, tip, h) {
      if h < k {
        OnPath(t, old_, index.value, h);
        WalkTwice(t, tip, k - 1, h);
      }
    }
  }

  /** What a chain contains are the ancestors of its tip. */
  lemma {:induction false} ContainsIsAncestor(t: seq<Block>, v: seq<Option<nat>>, tip: nat, b: nat)
    requires Shaped(t) && tip < |t| && b < |t| && PathTo(t, v, tip)
    ensures Holds(t, v, b) <==> Ancestor(t, b, tip)
  {
    WalkProps(t, tip, t[b].height);
  }

  predicate Holds(t: seq<Block>, v: seq<Option<nat>>, b: nat)
    requires b < |t|
  {
    t[b].height < |v| && v[t[b].height] == Some(b)
  }

  class Chain {
    var vChain: seq<Option<nat>>

    /** Make block b the tip, rewriting entries only until they agree. */
    method SetTip(tree: seq<Block>, b: nat)
      requires Shaped(tree) && b < |tree| && IsPath(tree, vChain)
      modifies this
      ensures PathTo(tree, vChain, b) && IsPath(tree, vChain)
    {
      var index: Option<nat> := Some(b);
      ghost var before := vChain;
      vChain := Resize(vChain, tree[b].height + 1);
      ParentWalk(tree, b, tree[b].height);
      ghost var k: nat := tree[b].height + 1;
      while index.Some? && vChain[tree[index.value].height] != index
        invariant Setting(tree, b, before, vChain, index, k)
        decreases if index.Some? then index.value + 1 else 0
      {
        SettingStep(tree, b, before, vChain, index.value, k);
        vChain := vChain[tree[index.value].height := index];
        index := tree[index.value].prev;
        k := k - 1;
      }
      SettingEnd(tree, b, before, vChain, index, k);
    }

    /** The last block of the chain that is b or an ancestor of b. */
    method FindFork(tree: BlockTree, b: nat) returns (r: Option<nat>)
      requires Valid(tree.blocks) && b < |tree.blocks| && IsPath(tree.blocks, vChain)
      ensures var t := tree.blocks;
              && (r.Some? ==> r.value < |t| && Holds(t, vChain, r.value) && Ancestor(t, r.value, b))
              && (forall c :: 0 <= c < |t| && Holds(t, vChain, c) && Ancestor(t, c, b) ==> r.Some? && Ancestor(t, c, r.value))
    {
      ghost var t := tree.blocks;
      r := Some(b);
      ParentWalk(t, b, t[b].height);
      if tree.blocks[b].height > |vChain| - 1 {
        r := tree.GetAncestor(b, |vChain| - 1);
        WalkProps(t, b, |vChain| - 1);
      }
      ForkStart(t, vChain, b, r);
      while r.Some? && !Holds(tree.blocks, vChain, r.value)
        invariant Forking(t, vChain, b, r)
        decreases if r.Some? then r.value + 1 else 0
      {
        ForkStep(t, vChain, b, r.value);
        r := tree.blocks[r.value].prev;
      }
    }
  }

  /** r is an ancestor of b, and all blocks of the chain that are ancestors of b are ancestors of
      r too. */
  ghost predicate Forking(t: seq<Block>, v: seq<Option<nat>>, b: nat, r: Option<nat>)
    requires Shaped(t) && b < |t|
  {
    && (r.Some? ==> r.value < |t| && Ancestor(t, r.value, b))
    && forall c :: 0 <= c < |t| && Holds(t, v, c) && Ancestor(t, c, b) ==> r.Some? && Ancestor(t, c, r.value)
  }

  lemma {:induction false} ForkStart(t: seq<Block>, v: seq<Option<nat>>, b: nat, r: Option<nat>)
    requires Shaped(t) && b < |t| && r == (if t[b].height > |v| - 1 then Walk(t, b, |v| - 1) else Some(b))
    ensures Forking(t, v, b, r)
  {
    WalkProps(t, b, |v| - 1);
    ParentWalk(t, b, t[b].height);
    if r.Some? && t[b].height > |v| - 1 {
      forall c | 0 <= c < |t| && Holds(t, v, c) && Ancestor(t, c, b) ensures Ancestor(t, c, r.value) { Below(t, c, b, r.value); }
    }
  }

  lemma {:induction false} ForkStep(t: seq<Block>, v: seq<Option<nat>>, b: nat, r: nat)
    requires Shaped(t) && b < |t| && Forking(t, v, b, Some(r)) && !Holds(t, v, r)
    ensures Forking(t, v, b, t[r].prev) && (t[r].prev.Some? ==> t[r].prev.value < r)
  {
    assert BlockOk(t, r);
    forall c | 0 <= c < |t| && Holds(t, v, c) && Ancestor(t, c, b) ensures t[r].prev.Some? && Ancestor(t, c, t[r].prev.value) {
      WalkProps(t, r, t[c].height);
      ParentWalk(t, r, t[c].height);
    }
    if t[r].prev.Some? { ParentAncestor(t, r, b); }
  }
}

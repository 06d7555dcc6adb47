/** kernel/mm/mgr.c: the mapped blocks of a process in a red-black tree ordered by block end. */
module Mmap {
  import opened Sequences
  import opened RBShape
  import opened RBTrees
  import opened MmapSpec

  /** container(nd, mm_MapBlkInfo, rbNd), node by node. */
  ghost function BlocksOf(m: map<RBNode, Blk>, s: seq<RBNode>): (b: seq<Blk>)
    requires forall n | n in s :: n in m
    ensures |b| == |s| && forall i | 0 <= i < |s| :: b[i] == m[s[i]]
  {
    seq(|s|, i requires 0 <= i < |s| => m[s[i]])
  }

  /** The nodes carry the ends of their blocks as keys. */
  ghost predicate Keyed(m: map<RBNode, Blk>, s: seq<RBNode>)
    reads s`key
  {
    forall n | n in s :: n in m && n.key == Key(m[n].ed, 0)
  }

  lemma KeyedByEnd(m: map<RBNode, Blk>, s: seq<RBNode>)
    requires Keyed(m, s) && Sorted(s)
    ensures ByEnd(BlocksOf(m, s))
  {
    forall i, j | 0 <= i < j < |s| ensures BlocksOf(m, s)[i].ed <= BlocksOf(m, s)[j].ed {
      assert s[i] in s && s[j] in s;
      assert !Less(s[j].key, s[i].key);
    }
  }

  /** A place with only smaller ends before it and greater ends behind it. */
  lemma {:induction false} FoundAt(m: map<RBNode, Blk>, b: seq<RBNode>, a: seq<RBNode>, addr: Word)
    requires Keyed(m, b + a) && Sorted(b + a)
    requires NotAbove(b, Key(addr, 0)) && Above(a, Key(addr, 0))
    ensures FindIdx(BlocksOf(m, b + a), addr) == |b|
  {
    var s := b + a;
    KeyedByEnd(m, s);
    assert forall k | 0 <= k < |b| :: s[k] == b[k] && b[k] in b;
    assert a != [] ==> s[|b|] == a[0] && a[0] in a;
    FindIdxIs(BlocksOf(m, s), addr, |b|);
  }

  class MapInfo {
    const mapTr: RBTree
    var blk: map<RBNode, Blk> // the block a tree node is embedded in
    ghost var calls: seq<Call> // the calls so far

    /** The nodes are in order and carry the ends of their blocks. */
    ghost predicate Stored()
      reads this`blk, mapTr, mapTr.nodes`key, mapTr.nodes`left, mapTr.nodes`right, mapTr.nodes`par, mapTr.nodes`black
    {
      mapTr.Valid() && (forall n | n in mapTr.Seq() :: n in mapTr.nodes) && Sorted(mapTr.Seq()) &&
          Keyed(blk, mapTr.Seq())
    }

    lemma StoredIs()
      requires mapTr.Valid() && Sorted(mapTr.Seq()) && Keyed(blk, mapTr.Seq())
      ensures Stored()
    {
      forall n | n in mapTr.Seq() ensures n in mapTr.nodes { NodesInOrder(mapTr.shape, n); }
    }

    /** The tree holds what the calls so far leave mapped. */
    ghost predicate Valid()
      reads this, mapTr, mapTr.nodes`key, mapTr.nodes`left, mapTr.nodes`right, mapTr.nodes`par, mapTr.nodes`black
    {
      Stored() && Blocks() == Outcome(calls)
    }

    /** The mapped blocks in the order of the tree. */
    ghost function Blocks(): seq<Blk>
      requires Stored()
      reads this`blk, mapTr, mapTr.nodes`key, mapTr.nodes`left, mapTr.nodes`right, mapTr.nodes`par, mapTr.nodes`black
    {
      BlocksOf(blk, mapTr.Seq())
    }

    lemma StoredByEnd()
      requires Stored()
      ensures ByEnd(Blocks())
    {
      KeyedByEnd(blk, mapTr.Seq());
    }

    constructor ()
      ensures Valid() && calls == [] && Blocks() == [] && fresh(mapTr)
    {
      mapTr := new RBTree();
      blk, calls := map[], [];
    }

    lemma {:induction false} KeyAt(ctx: Ctx, t: Shape)
      requires Stored() && t.T? && Plug(ctx, t) == mapTr.shape
      ensures t.x in blk && t.x.key == Key(blk[t.x].ed, 0)
    {
      InOrderPlug(ctx, t);
      assert t.x in mapTr.Seq();
    }

    /** The walk of _findMap, with the place it ends at. */
    method Walk(addr: Word) returns (bst: RBNode?, ghost ctx: Ctx)
      requires Valid()
      ensures Plug(ctx, E) == mapTr.shape && bst == First(After(ctx))
      ensures NotAbove(Before(ctx), Key(addr, 0)) && Above(After(ctx), Key(addr, 0))
    {
      hide Outcome, Nodes, CtxNodes, RedBlack, Sorted, Keyed;
      bst := null;
      var cur := mapTr.root;
      ctx := Top;
      ghost var t := mapTr.shape;
      mapTr.Look(ctx, t);
      while cur != null
        invariant mapTr.Focus(ctx, t) && cur == RootOf(t) && Plug(ctx, t) == mapTr.shape
        invariant NotAbove(Before(ctx), Key(addr, 0)) && Above(After(ctx), Key(addr, 0))
        invariant bst == First(After(ctx))
        decreases t
      {
        mapTr.Look(ctx, t);
        KeyAt(ctx, t);
        if blk[cur].ed > addr {
          StepLeft(ctx, t, Key(addr, 0));
          bst := cur;
          ctx, t := Hole(L, ctx, t.x, t.black, t.r), t.l;
          cur := cur.left;
        } else {
          StepRight(ctx, t, Key(addr, 0));
          ctx, t := Hole(R, ctx, t.x, t.black, t.l), t.r;
          cur := cur.right;
        }
        mapTr.Up(ctx, t);
      }
    }

    /** _findMap: the node of the first block that ends above addr. */
    method FindMap(addr: Word) returns (bst: RBNode?)
      requires Valid()
      ensures var i := FindIdx(Blocks(), addr);
              if i == |Blocks()| then bst == null else bst == mapTr.Seq()[i] && bst in blk && blk[bst] == Blocks()[i]
    {
      hide Outcome, FindIdx, MapInfo.Stored, MapInfo.Blocks, NotAbove, Above;
      ghost var ctx;
      bst, ctx := Walk(addr);
      WalkFinds(addr, ctx);
    }

    lemma {:induction false} WalkFinds(addr: Word, ctx: Ctx)
      requires Stored() && Plug(ctx, E) == mapTr.shape
      requires NotAbove(Before(ctx), Key(addr, 0)) && Above(After(ctx), Key(addr, 0))
      ensures var (i, bst) := (FindIdx(Blocks(), addr), First(After(ctx)));
              if i == |Blocks()| then bst == null
              else i < |mapTr.Seq()| && bst == mapTr.Seq()[i] && bst in blk && blk[bst] == Blocks()[i]
    {
      hide FindIdx, RBTree.Valid, NotAbove, Above;
      InOrderPlug(ctx, E);
      assert mapTr.Seq() == Before(ctx) + After(ctx);
      FoundAt(blk, Before(ctx), After(ctx), addr);
    }

    /** The loop of mm_mmap. */
    method FindPlace(st0: Word, size: Word, large: bool) returns (st: Word)
      requires Valid()
      ensures ByEnd(Blocks()) && st == Place(Blocks(), st0, size)
    {
      hide Outcome, Nodes, CtxNodes, RedBlack, Sorted, RBTree.Valid, Search, FindIdx, Align;
      KeyedByEnd(blk, mapTr.Seq());
      ghost var b := Blocks();
      st := st0;
      var node := FindMap(st);
      ghost var i := FindIdx(b, st);
      while true
        invariant i == FindIdx(b, st)
        invariant if i == |b| then node == null else node != null && node in blk && blk[node] == b[i]
        invariant Search(b, i, st, size) == Place(b, st0, size)
        decreases |b| - i
      {
        ghost var was := st;
        if Add64(st, size) > USR_END {
          st := USR_END;
        }
        if node == null || blk[node].st >= Add64(st, size) {
          SearchStop(b, i, was, size);
          return;
        }
        SearchStep(b, i, was, size);
        // the aligned end is overwritten at once, by the increment of the for statement
        st := Align(blk[node].ed, large);
        st := blk[node].ed;
        node := FindMap(st);
        i := FindIdx(b, st);
      }
    }

    /** mm_mmap: USR_END stands for the failure value (void *)-1. */
    method Map(size0: Word, large: bool, st0: Word, pAddr: Word) returns (st: Word)
      requires Valid()
      modifies this, mapTr, mapTr.nodes`left, mapTr.nodes`right, mapTr.nodes`par, mapTr.nodes`black
      ensures Valid() && ByEnd(old(Blocks())) && calls == old(calls) + [Mmap(size0, large, st0, pAddr)]
      ensures st == Place(old(Blocks()), Align(st0, large), Align(size0, large))
      ensures Blocks() == Mapped(old(Blocks()), Align(st0, large), Align(size0, large), large, pAddr)
      ensures multiset(Blocks()) == multiset(old(Blocks())) +
                (if st == USR_END then multiset{}
                 else multiset{Blk(st, Add64(st, Align(size0, large)), large, pAddr)})
      ensures Neat(old(Blocks())) && Guarded(Align(st0, large), Align(size0, large)) ==> Neat(Blocks())
      ensures Neat(old(Blocks())) && Guarded(Align(st0, large), Align(size0, large)) && st != USR_END ==>
                Align(st0, large) <= st && st + Align(size0, large) <= USR_END
    {
      hide Neat, Outcome, Insert, Removed, FindIdx, Place, Align, Guarded, Search, MapInfo.Stored, MapInfo.Blocks;
      StoredByEnd();
      ghost var b, c := Blocks(), Mmap(size0, large, st0, pAddr);
      var size := Align(size0, large);
      MappedBag(b, Align(st0, large), size, large, pAddr);
      if Neat(b) && Guarded(Align(st0, large), size) { InUserSpace(b, Align(st0, large), size); }
      st := FindPlace(Align(st0, large), size, large);
      if st != USR_END {
        AddBlock(Blk(st, Add64(st, size), large, pAddr));
      }
      OutcomeMore(calls, c);
      calls := calls + [c];
      if Neat(b) && CallGuarded(c) { NextNeat(b, c); }
    }

    method AddBlock(n: Blk)
      requires Valid()
      modifies this`blk, mapTr, mapTr.nodes`left, mapTr.nodes`right, mapTr.nodes`par, mapTr.nodes`black
      ensures Stored() && Blocks() == Insert(old(Blocks()), n)
    {
      hide Neat, Outcome, Insert, Removed, FindIdx, Place, RedBlack, Sorted, InsertedAt, RBTree.Linked;
      KeyedByEnd(blk, mapTr.Seq());
      var node := new RBNode(Key(n.ed, 0));
      ghost var s, m := mapTr.Seq(), blk;
      blk := blk[node := n];
      ghost var pos := mapTr.Ins(node);
      assert node !in s by { NodesInOrder(old(mapTr.shape), node); }
      InsertedBlocks(m, s, pos, node, n, mapTr.Seq());
      StoredIs();
    }

    /** mm_munmap, on the tree: the very block [addr, addr + size) goes, or nothing does. */
    method Unmap(addr: Word, size: Word) returns (ok: bool)
      requires Valid()
      modifies this`calls, mapTr, mapTr.nodes`left, mapTr.nodes`right, mapTr.nodes`par, mapTr.nodes`black
      ensures Valid() && calls == old(calls) + [Munmap(addr, size)]
      ensures Neat(old(Blocks())) ==> Neat(Blocks())
      ensures var (b, i) := (old(Blocks()), FindIdx(old(Blocks()), addr));
              && ok == (i < |b| && b[i].st == addr && b[i].ed == Add64(addr, size))
              && Blocks() == (if ok then Removed(b, i) else b)
              && (!ok ==> Blocks() == b) && (ok ==> multiset(Blocks()) == multiset(b) - multiset{b[i]})
    {
      hide Neat, Outcome, Insert, Removed, FindIdx, Place, Align, Guarded, Search, MapInfo.Stored, MapInfo.Blocks;
      ghost var b, c := Blocks(), Munmap(addr, size);
      OutcomeMore(calls, c);
      if Neat(b) { NextNeat(b, c); }
      var node := FindMap(addr);
      ok := node != null && blk[node].st == addr && blk[node].ed == Add64(addr, size);
      if ok {
        DropBlock(node, FindIdx(b, addr));
      }
      calls := calls + [c];
    }

    method DropBlock(node: RBNode, ghost i: nat)
      requires Valid() && i < |Blocks()| && mapTr.Seq()[i] == node
      modifies mapTr, mapTr.nodes`left, mapTr.nodes`right, mapTr.nodes`par, mapTr.nodes`black
      ensures Stored() && Blocks() == Removed(old(Blocks()), i)
      ensures multiset(Blocks()) == multiset(old(Blocks())) - multiset{old(Blocks())[i]}
    {
      hide Neat, Outcome, Insert, Removed, FindIdx, Place, RedBlack;
      ghost var s, b := mapTr.Seq(), Blocks();
      assert node in mapTr.nodes by { NodesInOrder(mapTr.shape, node); }
      ghost var pos := mapTr.Del(node);
      RemovedSorted(pos, node, s, mapTr.Seq());
      RemovedBlocks(blk, s, pos, i);
      RemovedBag(b, i);
      StoredIs();
    }
  }

  lemma InsertedBlocks(m: map<RBNode, Blk>, s: seq<RBNode>, pos: nat, node: RBNode, n: Blk, s': seq<RBNode>)
    requires Keyed(m, s) && Sorted(s) && node !in s && node.key == Key(n.ed, 0) && InsertedAt(pos, node, s, s')
    ensures Keyed(m[node := n], s') && BlocksOf(m[node := n], s') == Insert(BlocksOf(m, s), n)
  {
    KeyedByEnd(m, s);
    var b := BlocksOf(m, s);
    forall k | 0 <= k < |s| ensures s[k].key == Key(b[k].ed, 0) { assert s[k] in s; }
    FindIdxIs(b, n.ed, pos);
    KeyedInsert(m, s, pos, node, n);
  }

  lemma KeyedInsert(m: map<RBNode, Blk>, s: seq<RBNode>, pos: nat, node: RBNode, n: Blk)
    requires Keyed(m, s) && node !in s && node.key == Key(n.ed, 0) && pos <= |s|
    ensures var (m', s', b) := (m[node := n], s[..pos] + [node] + s[pos..], BlocksOf(m, s));
            Keyed(m', s') && BlocksOf(m', s') == b[..pos] + [n] + b[pos..]
  {
    var m', s', b := m[node := n], s[..pos] + [node] + s[pos..], BlocksOf(m, s);
    forall x | x in s' ensures x in m' && x.key == Key(m'[x].ed, 0) {
      assert x == node || x in s;
    }
    forall k | 0 <= k < |s| ensures m'[s[k]] == b[k] { assert s[k] in s; }
  }

  lemma RemovedBlocks(m: map<RBNode, Blk>, s: seq<RBNode>, pos: nat, i: nat)
    requires Keyed(m, s) && NoDup(s) && pos < |s| && i < |s| && s[pos] == s[i]
    ensures i == pos
    ensures var s' := s[..pos] + s[pos + 1..];
            Keyed(m, s') && BlocksOf(m, s') == Removed(BlocksOf(m, s), pos)
  {
    assert forall n | n in s[..pos] + s[pos + 1..] :: n in s;
  }
}

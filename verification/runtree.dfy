/** The run tree of kernel/task/schedule.c on the linked tree of kernel/includes/lib/rbtree.h: each
    thread's node carries its run time and pid as key, and a run time may be rewritten while the node
    is in the tree. */
module RunTrees {
  import opened Sequences
  import opened Wrappers
  import RBShape
  import RBLinks
  import opened RBTrees
  import opened SchedSpec

  /** The nodes of the threads of a list. */
  ghost function NodesOf(nd: seq<RBShape.RBNode>, l: seq<Tid>): (s: seq<RBShape.RBNode>)
    requires forall i | 0 <= i < |l| :: l[i] < |nd|
    ensures |s| == |l| && forall i | 0 <= i < |l| :: s[i] == nd[l[i]]
  {
    seq(|l|, i requires 0 <= i < |l| => nd[l[i]])
  }

  /** Where a thread stands that comes before none in front of it and before the one behind it. */
  ghost predicate Place(thds: seq<Thread>, l: seq<Tid>, t: Tid, pos: nat)
    requires t < |thds| && Listed(thds, l)
  {
    pos <= |l| && (forall k | 0 <= k < pos :: !Before(thds, t, l[k])) && (pos < |l| ==> Before(thds, t, l[pos]))
  }

  lemma PutDeeper<A>(l: seq<A>, x: A, pos: nat)
    requires 0 < pos <= |l|
    ensures [l[0]] + (l[1..][..pos - 1] + [x] + l[1..][pos - 1..]) == l[..pos] + [x] + l[pos..]
  {
    assert [l[0]] + l[1..][..pos - 1] == l[..pos];
  }

  lemma {:induction false} InsertIs(thds: seq<Thread>, l: seq<Tid>, t: Tid, pos: nat)
    requires t < |thds| && Listed(thds, l) && Place(thds, l, t, pos)
    ensures Insert(thds, l, t) == l[..pos] + [t] + l[pos..]
  {
    hide Before;
    if pos == 0 {
      assert l[..0] + [t] + l[0..] == [t] + l;
    } else {
      InsertIs(thds, l[1..], t, pos - 1);
      PutDeeper(l, t, pos);
    }
  }

  lemma PutIs(thds: seq<Thread>, cpu: Cpu, t: Tid)
    requires t < |thds| && TreeTyped(thds, cpu) && cpu.spot <= |cpu.run|
    requires InOrder(thds, cpu.run) ==> Place(thds, cpu.run, t, cpu.spot)
    ensures TreePut(thds, cpu, t).run == cpu.run[..cpu.spot] + [t] + cpu.run[cpu.spot..]
  {
    hide Before, Insert, Place, InOrder;
    if InOrder(thds, cpu.run) { InsertIs(thds, cpu.run, t, cpu.spot); }
  }

  lemma {:induction false} RemoveIs(l: seq<Tid>, t: Tid, pos: nat)
    requires pos < |l| && l[pos] == t && forall k | 0 <= k < pos :: l[k] != t
    ensures Remove(l, t) == l[..pos] + l[pos + 1..]
    ensures Following(l, t) == if pos + 1 < |l| then Some(l[pos + 1]) else None
  {
    if pos > 0 {
      RemoveIs(l[1..], t, pos - 1);
      assert l[..pos] == [l[0]] + l[1..][..pos - 1];
    }
  }

  class RunTree {
    const tree: RBTree
    const rbNd: seq<RBShape.RBNode> // the node embedded in each thread, by pid

    /** The empty tree of _sche_init. */
    constructor (nd: seq<RBShape.RBNode>, ghost thds: seq<Thread>, ghost cpu: Cpu)
      requires |nd| == |thds| && NoDup(nd)
      requires forall t | 0 <= t < |thds| :: nd[t].key == RBShape.Key(thds[t].vRuntime, t)
      requires cpu.run == [] && cpu.left == None
      ensures Shows(thds, cpu) && rbNd == nd
    {
      tree := new RBTree();
      rbNd := nd;
    }

    /** The linked tree is the run tree of the CPU in the state machine. */
    ghost predicate Shows(thds: seq<Thread>, cpu: Cpu)
      reads this, rbNd`key, tree, tree.nodes`left, tree.nodes`right, tree.nodes`par, tree.nodes`black
    {
      && Keyed(thds) && NoDup(rbNd) && |rbNd| == |thds|
      && TreeTyped(thds, cpu) && tree.Linked() && tree.Seq() == NodesOf(rbNd, cpu.run)
      && tree.left == if cpu.left == None then null else rbNd[cpu.left.value]
    }

    /** The comparator of the keys is task_sche_thds_compare. */
    ghost predicate Keyed(thds: seq<Thread>)
      reads this, rbNd`key
    {
      |rbNd| == |thds| && forall t | 0 <= t < |thds| :: rbNd[t].key == RBShape.Key(thds[t].vRuntime, t)
    }

    lemma Compared(thds: seq<Thread>, t: Tid, u: Tid)
      requires Keyed(thds) && t < |thds| && u < |thds|
      ensures RBShape.Less(rbNd[t].key, rbNd[u].key) == Before(thds, t, u)
    {
    }

    lemma SortedInOrder(thds: seq<Thread>, l: seq<Tid>)
      requires Keyed(thds) && Listed(thds, l)
      ensures Sorted(NodesOf(rbNd, l)) <==> InOrder(thds, l)
    {
      hide Before;
      var s := NodesOf(rbNd, l);
      forall i, j | 0 <= i < |s| && 0 <= j < |s| ensures RBShape.Less(s[j].key, s[i].key) == Before(thds, l[j], l[i]) {
        Compared(thds, l[j], l[i]);
      }
    }

    lemma Placed(thds: seq<Thread>, l: seq<Tid>, t: Tid, pos: nat, s: seq<RBShape.RBNode>)
      requires Keyed(thds) && Listed(thds, l) && t < |thds| && InsertedAt(pos, rbNd[t], NodesOf(rbNd, l), s)
      ensures Place(thds, l, t, pos)
    {
      hide Before;
      forall k | 0 <= k < |l| ensures RBShape.Less(rbNd[t].key, NodesOf(rbNd, l)[k].key) == Before(thds, t, l[k]) {
        Compared(thds, t, l[k]);
      }
    }

    lemma NodeIn(thds: seq<Thread>, cpu: Cpu, t: Tid)
      requires Shows(thds, cpu) && t < |thds|
      ensures rbNd[t] in tree.nodes <==> t in cpu.run
    {
      tree.NodesIn(rbNd[t]);
      forall i | 0 <= i < |cpu.run| ensures tree.Seq()[i] == rbNd[cpu.run[i]] {}
    }

    /** _sche_syncVRutnime, in whatever place the thread is. */
    method Rekey(nd: RBShape.RBNode, t: Tid, v: int, ghost thds: seq<Thread>, ghost cpu: Cpu)
      requires Shows(thds, cpu) && t < |thds| && nd == rbNd[t]
      modifies nd`key
      ensures Shows(thds[t := thds[t].(vRuntime := v)], cpu)
    {
      nd.key := RBShape.Key(v, t);
    }

    /** RBTree_ins is the insertion of the state machine, for some place if the tree is out of order. */
    method Ins(nd: RBShape.RBNode, ghost t: Tid, ghost thds: seq<Thread>, ghost cpu: Cpu) returns (ghost spot: nat)
      requires Shows(thds, cpu) && t < |thds| && nd == rbNd[t] && t !in cpu.run
      modifies tree, nd`left, nd`right, nd`par, nd`black,
               tree.nodes`left, tree.nodes`right, tree.nodes`par, tree.nodes`black
      ensures Shows(thds, TreePut(thds, cpu.(spot := spot), t))
    {
      hide Keyed, RBTree.Linked, Sorted, InsertedAt, TreePut, Insert, InOrder, Before, Place, RBShape.Less, NoDup;
      NodeIn(thds, cpu, t);
      SortedInOrder(thds, cpu.run);
      if cpu.left.Some? { Compared(thds, t, cpu.left.value); }
      spot := tree.Ins(nd);
      if InOrder(thds, cpu.run) { Placed(thds, cpu.run, t, spot, tree.Seq()); }
      PutShown(thds, cpu.(spot := spot), t);
    }

    lemma PutShown(thds: seq<Thread>, cpu: Cpu, t: Tid)
      requires |rbNd| == |thds| && t < |thds| && TreeTyped(thds, cpu) && cpu.spot <= |cpu.run|
      requires InOrder(thds, cpu.run) ==> Place(thds, cpu.run, t, cpu.spot)
      ensures var r := TreePut(thds, cpu, t);
              && PutAt(cpu.spot, rbNd[t], NodesOf(rbNd, cpu.run), NodesOf(rbNd, r.run))
              && r.left == if cpu.run == [] || cpu.left == None || Before(thds, t, cpu.left.value) then Some(t)
                   else cpu.left
    {
      hide InOrder, Place, Before, Insert;
      PutIs(thds, cpu, t);
    }

    /** RBTree_del is the removal of the state machine. */
    method Del(nd: RBShape.RBNode, ghost t: Tid, ghost thds: seq<Thread>, ghost cpu: Cpu)
      requires Shows(thds, cpu) && t in cpu.run && t < |thds| && nd == rbNd[t]
      modifies tree, tree.nodes`left, tree.nodes`right, tree.nodes`par, tree.nodes`black
      ensures Shows(thds, TreeDrop(cpu, t))
    {
      hide Keyed, RBTree.Linked, TreeDrop;
      NodeIn(thds, cpu, t);
      ghost var pos := tree.Del(nd);
      DropShown(thds, cpu, t, pos);
    }

    lemma DropShown(thds: seq<Thread>, cpu: Cpu, t: Tid, pos: nat)
      requires |rbNd| == |thds| && NoDup(rbNd) && t < |thds| && TreeTyped(thds, cpu)
      requires NoDup(NodesOf(rbNd, cpu.run)) && pos < |cpu.run| && NodesOf(rbNd, cpu.run)[pos] == rbNd[t]
      ensures var (s, r) := (NodesOf(rbNd, cpu.run), TreeDrop(cpu, t));
              && TreeTyped(thds, r) && NodesOf(rbNd, r.run) == s[..pos] + s[pos + 1..]
              && r.left == if cpu.left == Some(t) then (if pos + 1 < |s| then Some(cpu.run[pos + 1]) else None)
                   else cpu.left
    {
      hide NoDup, Remove, Following;
      OnlyPlace(cpu.run, t, pos);
      RemoveIs(cpu.run, t, pos);
    }

    lemma OnlyPlace(l: seq<Tid>, t: Tid, pos: nat)
      requires NoDup(rbNd) && t < |rbNd| && (forall i | 0 <= i < |l| :: l[i] < |rbNd|)
      requires NoDup(NodesOf(rbNd, l)) && pos < |l| && NodesOf(rbNd, l)[pos] == rbNd[t]
      ensures l[pos] == t && forall k | 0 <= k < pos :: l[k] != t
    {
      assert rbNd[l[pos]] == rbNd[t];
    }
  }

  // ----- a cached left that is not the first node -----

  ghost function Leaf(x: RBShape.RBNode): RBShape.Shape { RBShape.T(RBShape.E, x, false, RBShape.E) }

  ghost function Two(a: RBShape.RBNode, b: RBShape.RBNode): RBShape.Shape { RBShape.T(Leaf(a), b, true, RBShape.E) }

  lemma TwoNodes(a: RBShape.RBNode, b: RBShape.RBNode)
    ensures RBShape.InOrder(Leaf(a)) == [a] && RBShape.InOrder(Two(a, b)) == [a, b]
    ensures RBShape.Nodes(Two(a, b)) == {a, b} && RBShape.RedBlack(Two(a, b))
  {
    assert RBShape.InOrder(RBShape.E) == [] && RBShape.Nodes(RBShape.E) == {};
    assert RBShape.Nodes(Leaf(a)) == {a};
  }

  lemma TwoLinked(m: RBLinks.Links, a: RBShape.RBNode, b: RBShape.RBNode)
    requires a != b && a in m && m[a] == RBLinks.Cell(null, null, b, false)
    requires b in m && m[b] == RBLinks.Cell(a, null, null, true)
    ensures RBLinks.At(m, b, RBShape.Top, Two(a, b))
  {
    TwoNodes(a, b);
    assert RBLinks.Rep(m, Leaf(a), b);
  }

  /** A tree in order, as inserting b and then a leaves it. */
  method MakeTwo(a: RBShape.RBNode, b: RBShape.RBNode) returns (tree: RBTree)
    requires a != b && RBShape.Less(a.key, b.key)
    modifies a`left, a`right, a`par, a`black, b`left, b`right, b`par, b`black
    ensures fresh(tree) && tree.shape == Two(a, b) && tree.nodes == {a, b} && tree.Valid() && Sorted(tree.Seq())
  {
    hide RBLinks.At, RBShape.InOrder, RBShape.RedBlack, Sorted, Two;
    tree := new RBTree();
    tree.root, tree.left := b, a;
    a.left, a.right, a.par, a.black := null, null, b, false;
    b.left, b.right, b.par, b.black := a, null, null, true;
    tree.nodes, tree.shape := {a, b}, Two(a, b);
    TwoNodes(a, b);
    TwoSorted(a, b);
    TwoLinked(tree.Snap(), a, b);
  }

  lemma TwoSorted(a: RBShape.RBNode, b: RBShape.RBNode)
    requires RBShape.Less(a.key, b.key)
    ensures Sorted([a, b])
  {
  }

  /** The insertion compares with the cached left a only: it makes d the cached left and puts it behind
      a and b. */
  method PutBehind(tree: RBTree, a: RBShape.RBNode, b: RBShape.RBNode, d: RBShape.RBNode)
    requires tree.Linked() && tree.shape == Two(a, b) && tree.left == a && d !in tree.nodes
    requires RBShape.Less(d.key, a.key) && !RBShape.Less(d.key, b.key)
    modifies tree, tree.nodes`left, tree.nodes`right, tree.nodes`par, tree.nodes`black, d`left, d`right, d`par, d`black
    ensures tree.Linked() && tree.Seq() == [a, b, d] && tree.left == d
  {
    hide RBTree.Linked, RBTree.Valid, RBTree.Seq, Spot, Two, Sorted, InsertedAt, LeftAgrees;
    TwoSeq(tree, a, b);
    BehindBoth(a, b, d.key);
    ghost var pos := tree.Ins(d);
    assert tree.Seq() == [a, b, d];
  }

  /** The key of b is rewritten in place to be the least of all.  The next insertion leaves a cached left
      that is neither the first node nor the least. */
  method StaleLeft() returns (tree: RBTree, b: RBShape.RBNode)
    ensures tree.Linked() && tree.left != null && b in tree.Seq()
    ensures tree.Seq()[0] != tree.left && RBShape.Less(b.key, tree.left.key)
  {
    hide RBTree.Linked, RBTree.Valid, RBTree.Seq, Spot, Two, Sorted, LeftAgrees;
    var a := new RBShape.RBNode(RBShape.Key(820, 1));
    b := new RBShape.RBNode(RBShape.Key(1024, 0));
    var d := new RBShape.RBNode(RBShape.Key(15, 3));
    tree := MakeTwo(a, b);
    LinkedLeft(tree);
    TwoSeq(tree, a, b);
    b.key := RBShape.Key(0, 0);
    PutBehind(tree, a, b, d);
  }

  lemma LinkedLeft(tree: RBTree)
    requires tree.Valid()
    ensures tree.Linked() && tree.left == First(tree.Seq())
  {
  }

  lemma TwoSeq(tree: RBTree, a: RBShape.RBNode, b: RBShape.RBNode)
    requires tree.shape == Two(a, b)
    ensures tree.Seq() == [a, b]
  {
    TwoNodes(a, b);
  }

  /** A key that is not less than that of the root ends up behind both nodes. */
  lemma {:induction false} BehindBoth(a: RBShape.RBNode, b: RBShape.RBNode, key: RBShape.Key)
    requires !RBShape.Less(key, b.key)
    ensures Spot(Two(a, b), key) == 2
  {
    TwoNodes(a, b);
    assert Spot(RBShape.E, key) == 0;
  }
}

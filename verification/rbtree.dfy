/** kernel/lib/rbtree.c and the macros of kernel/includes/lib/rbtree.h, on linked nodes. */
module RBTrees {
  import opened Sequences
  import opened RBShape
  import opened RBLinks

  class RBTree {
    var root: RBNode?
    var left: RBNode?            // the cached first node
    ghost var nodes: set<RBNode> // the nodes in the tree
    ghost var shape: Shape       // how they hang together

    /** RBTree_init */
    constructor ()
      ensures Valid() && Seq() == [] && nodes == {}
    {
      root, left := null, null;
      nodes, shape := {}, E;
    }

    ghost function Snap(): Links
      reads this`nodes, nodes`left, nodes`right, nodes`par, nodes`black
    {
      map n | n in nodes :: Cell(n.left, n.right, n.par, n.black)
    }

    /** The linked tree is t with the path ctx around it. */
    ghost predicate Focus(ctx: Ctx, t: Shape)
      reads this`nodes, this`root, nodes`left, nodes`right, nodes`par, nodes`black
    {
      nodes == Nodes(t) + CtxNodes(ctx) && At(Snap(), root, ctx, t)
    }

    lemma Up(ctx: Ctx, t: Shape)
      requires ctx.Hole?
      ensures Focus(ctx, t) <==> Focus(ctx.up, Mk(ctx.side, t, ctx.x, ctx.black, ctx.sib))
    {
      FocusUp(Snap(), root, ctx, t);
    }

    /** What the fields around the focus hold. */
    lemma Look(ctx: Ctx, t: Shape)
      requires Focus(ctx, t)
      ensures t.T? ==> t.x in nodes && t.x.black == t.black && t.x.par == ParOf(ctx) &&
                       t.x.left == RootOf(t.l) && t.x.right == RootOf(t.r)
      ensures ctx.Top? <==> RootOf(t) == root
      ensures ctx.Hole? ==>
              && ctx.x in nodes && ctx.x.black == ctx.black && ctx.x.par == ParOf(ctx.up)
              && ctx.x.left == RootOf(if ctx.side.L? then t else ctx.sib)
              && ctx.x.right == RootOf(if ctx.side.L? then ctx.sib else t)
              && (RootOf(t) == null || RootOf(t) != RootOf(ctx.sib))
              && (ctx.sib.T? ==> ctx.sib.x in nodes && ctx.sib.x.black == ctx.sib.black)
    {
      var m := Snap();
      RootIsNode(m, ctx, RootOf(t), root);
      assert ctx.Hole? && ctx.sib.T? ==> ctx.sib.x in Nodes(ctx.sib) && ctx.sib.x in CtxNodes(ctx);
      assert ctx.Hole? && ctx.sib.T? ==> Rep(m, ctx.sib, ctx.x) && ctx.sib.x in m;
    }

    method Paint(node: RBNode, c: bool, ghost ctx: Ctx, ghost t: Shape)
      requires Focus(ctx, t) && t.T? && t.x == node
      modifies nodes`black
      ensures Focus(ctx, t.(black := c))
    {
      ghost var m := Snap();
      node.black := c;
      assert Snap() == m[node := m[node].(black := c)];
      PaintLinks(m, Snap(), root, ctx, t, c);
    }

    method RotLeft(node: RBNode)
      requires node in nodes && node.right != null
      requires RotNodesApart(Snap(), node, node.right, node.right.left, node.par)
      modifies this`root, nodes`left, nodes`right, nodes`par
      ensures RotUpdate(L, old(Snap()), Snap(), old(root), root, node, old(node.right), old(node.right.left),
                old(node.par))
    {
      var right := node.right;
      node.right := right.left;
      if node.right != null {
        right.left.par := node;
      }
      right.left := node;
      right.par := node.par;
      if right.par != null {
        if node == node.par.left {
          node.par.left := right;
        } else {
          node.par.right := right;
        }
      } else {
        root := right;
      }
      node.par := right;
    }

    method RotRight(node: RBNode)
      requires node in nodes && node.left != null
      requires RotNodesApart(Snap(), node, node.left, node.left.right, node.par)
      modifies this`root, nodes`left, nodes`right, nodes`par
      ensures RotUpdate(R, old(Snap()), Snap(), old(root), root, node, old(node.left), old(node.left.right),
                old(node.par))
    {
      var left := node.left;
      node.left := left.right;
      if node.left != null {
        left.right.par := node;
      }
      left.right := node;
      left.par := node.par;
      if left.par != null {
        if node == node.par.right {
          node.par.right := left;
        } else {
          node.par.left := left;
        }
      } else {
        root := left;
      }
      node.par := left;
    }

    /** What the rotations do to the shape in focus. */
    method RotLeftAt(node: RBNode, ghost ctx: Ctx, ghost t: Shape)
      requires Focus(ctx, t) && t.T? && t.x == node && t.r.T?
      modifies this`root, nodes`left, nodes`right, nodes`par
      ensures Focus(ctx, Rot(L, t))
    {
      RotApart(L, Snap(), root, ctx, t);
      RotLeft(node);
      RotLinks(L, old(Snap()), Snap(), old(root), root, ctx, t);
    }

    method RotRightAt(node: RBNode, ghost ctx: Ctx, ghost t: Shape)
      requires Focus(ctx, t) && t.T? && t.x == node && t.l.T?
      modifies this`root, nodes`left, nodes`right, nodes`par
      ensures Focus(ctx, Rot(R, t))
    {
      RotApart(R, Snap(), root, ctx, t);
      RotRight(node);
      RotLinks(R, old(Snap()), Snap(), old(root), root, ctx, t);
    }

    // ----- insertion -----

    /** Both children of the red pair's grandparent are red: push the red up. */
    method Recolour(uncle: RBNode, par: RBNode, gPar: RBNode, ghost ctx: Ctx, ghost t: Shape)
      requires Focus(ctx, t) && ctx.Hole? && ctx.up.Hole? && ctx.up.sib.T?
      requires par == ctx.x && gPar == ctx.up.x && uncle == ctx.up.sib.x
      modifies nodes`black
      ensures Focus(ctx.up.up, Mk(ctx.up.side, Mk(ctx.side, t, par, true, ctx.sib), gPar, false, Blacken(ctx.up.sib)))
    {
      hide Rep, At, CtxNodes;
      ghost var g, u := ctx.up, ctx.up.sib;
      ghost var p := Mk(ctx.side, t, par, ctx.black, ctx.sib);
      ghost var p' := Mk(ctx.side, t, par, true, ctx.sib);
      Up(ctx, t);
      Up(g, p);
      Up(Hole(Other(g.side), g.up, gPar, g.black, p), u);
      Paint(uncle, true, Hole(Other(g.side), g.up, gPar, g.black, p), u);
      Up(Hole(Other(g.side), g.up, gPar, g.black, p), Blacken(u));
      Up(Hole(g.side, g.up, gPar, g.black, Blacken(u)), p);
      Paint(par, true, Hole(g.side, g.up, gPar, g.black, Blacken(u)), p);
      Up(Hole(g.side, g.up, gPar, g.black, Blacken(u)), p');
      Paint(gPar, false, g.up, Mk(g.side, p', gPar, g.black, Blacken(u)));
    }

    /** The parent turns black, the grandparent red; ready for the outer rotation. */
    method PaintPair(par: RBNode, gPar: RBNode, ghost ctx: Ctx, ghost t: Shape)
      requires Focus(ctx, t) && ctx.Hole? && ctx.up.Hole? && par == ctx.x && gPar == ctx.up.x
      modifies nodes`black
      ensures Focus(ctx.up.up, Mk(ctx.up.side, Mk(ctx.side, t, par, true, ctx.sib), gPar, false, ctx.up.sib))
    {
      ghost var g := ctx.up;
      ghost var p := Mk(ctx.side, t, par, ctx.black, ctx.sib);
      ghost var p' := Mk(ctx.side, t, par, true, ctx.sib);
      Up(ctx, t);
      Paint(par, true, g, p);
      Up(g, p');
      Paint(gPar, false, g.up, Mk(g.side, p', gPar, g.black, g.sib));
    }

    /** The loop body when the parent is a left child. */
    method InsStepL(node0: RBNode, ghost ctx0: Ctx, ghost t0: Shape, ghost ord: seq<RBNode>)
      returns (node: RBNode, ghost ctx: Ctx, ghost t: Shape)
      requires Focus(ctx0, t0) && InsDeep(ctx0, t0, ord) && t0.x == node0 && ctx0.up.side == L
      modifies this`root, nodes`left, nodes`right, nodes`par, nodes`black
      ensures Focus(ctx, t) && InsState(ctx, t, ord) && t.x == node
      ensures InsMeasure(ctx) < InsMeasure(ctx0)
    {
      hide Focus, Rep, At, Nodes, CtxNodes;
      node, ctx, t := node0, ctx0, t0;
      InsHasGrandparent(ctx, t, ord);
      ghost var p := Mk(ctx.side, t, ctx.x, ctx.black, ctx.sib);
      Look(ctx, t);
      Up(ctx, t);
      Look(ctx.up, p);
      var par := node.par;
      var gPar := par.par;
      var uncle := gPar.right;
      if uncle != null && !uncle.black {
        Recolour(uncle, par, gPar, ctx, t);
        InsRecolour(ctx, t, ord);
        t := Mk(L, Mk(ctx.side, t, par, true, ctx.sib), gPar, false, Blacken(ctx.up.sib));
        ctx := ctx.up.up;
        node := gPar;
      } else {
        if par.right == node {
          RotLeftAt(par, ctx.up, p);
          InsInner(ctx, t, ord);
          ctx, t := Hole(L, ctx.up, t.x, false, t.r), T(ctx.sib, ctx.x, false, t.l);
          Up(ctx, t);
          par, node := node, par;
        }
        PaintPair(par, gPar, ctx, t);
        InsOuter(ctx, t, ord);
        RotRightAt(gPar, ctx.up.up, T(T(t, par, true, ctx.sib), gPar, false, ctx.up.sib));
        ctx := Hole(L, ctx.up.up, par, true, T(ctx.sib, gPar, false, ctx.up.sib));
        Up(ctx, t);
      }
    }

    /** The loop body when the parent is a right child. */
    method InsStepR(node0: RBNode, ghost ctx0: Ctx, ghost t0: Shape, ghost ord: seq<RBNode>)
      returns (node: RBNode, ghost ctx: Ctx, ghost t: Shape)
      requires Focus(ctx0, t0) && InsDeep(ctx0, t0, ord) && t0.x == node0 && ctx0.up.side == R
      modifies this`root, nodes`left, nodes`right, nodes`par, nodes`black
      ensures Focus(ctx, t) && InsState(ctx, t, ord) && t.x == node
      ensures InsMeasure(ctx) < InsMeasure(ctx0)
    {
      hide Focus, Rep, At, Nodes, CtxNodes;
      node, ctx, t := node0, ctx0, t0;
      InsHasGrandparent(ctx, t, ord);
      ghost var p := Mk(ctx.side, t, ctx.x, ctx.black, ctx.sib);
      Look(ctx, t);
      Up(ctx, t);
      Look(ctx.up, p);
      var par := node.par;
      var gPar := par.par;
      var uncle := gPar.left;
      if uncle != null && !uncle.black {
        Recolour(uncle, par, gPar, ctx, t);
        InsRecolour(ctx, t, ord);
        t := Mk(R, Mk(ctx.side, t, par, true, ctx.sib), gPar, false, Blacken(ctx.up.sib));
        ctx := ctx.up.up;
        node := gPar;
      } else {
        if par.left == node {
          RotRightAt(par, ctx.up, p);
          InsInner(ctx, t, ord);
          ctx, t := Hole(R, ctx.up, t.x, false, t.l), T(t.r, ctx.x, false, ctx.sib);
          Up(ctx, t);
          par, node := node, par;
        }
        PaintPair(par, gPar, ctx, t);
        InsOuter(ctx, t, ord);
        RotLeftAt(gPar, ctx.up.up, T(ctx.up.sib, gPar, false, T(ctx.sib, par, true, t)));
        ctx := Hole(R, ctx.up.up, par, true, T(ctx.up.sib, gPar, false, ctx.sib));
        Up(ctx, t);
      }
    }

    /** One round of the loop: the parent is red. */
    method InsStep(node0: RBNode, ghost ctx0: Ctx, ghost t0: Shape, ghost ord: seq<RBNode>)
      returns (node: RBNode, ghost ctx: Ctx, ghost t: Shape)
      requires Focus(ctx0, t0) && InsState(ctx0, t0, ord) && t0.x == node0 && ctx0.Hole? && !ctx0.black
      modifies this`root, nodes`left, nodes`right, nodes`par, nodes`black
      ensures Focus(ctx, t) && InsState(ctx, t, ord) && t.x == node
      ensures InsMeasure(ctx) < InsMeasure(ctx0)
    {
      InsHasGrandparent(ctx0, t0, ord);
      Look(ctx0, t0);
      Up(ctx0, t0);
      Look(ctx0.up, Mk(ctx0.side, t0, ctx0.x, ctx0.black, ctx0.sib));
      var par := node0.par;
      if par == par.par.left {
        node, ctx, t := InsStepL(node0, ctx0, t0, ord);
      } else {
        node, ctx, t := InsStepR(node0, ctx0, t0, ord);
      }
    }

    method FixAfterIns(node0: RBNode, ghost ctx0: Ctx, ghost t0: Shape, ghost ord: seq<RBNode>)
      requires Focus(ctx0, t0) && InsState(ctx0, t0, ord) && t0.x == node0
      modifies this`root, this`shape, nodes`left, nodes`right, nodes`par, nodes`black
      ensures Focus(Top, shape) && RedBlack(shape) && InOrder(shape) == ord
    {
      hide Rep, At, CtxNodes, Focus, Nodes, Balanced, NoRedRed;
      var node := node0;
      ghost var ctx, t := ctx0, t0;
      Look(ctx, t);
      while node.par != null && !node.par.black
        invariant nodes == old(nodes)
        invariant Focus(ctx, t) && InsState(ctx, t, ord) && t.x == node
        invariant node.par == ParOf(ctx) && (ctx.Hole? ==> ctx.x.black == ctx.black)
        decreases InsMeasure(ctx)
      {
        node, ctx, t := InsStep(node, ctx, t, ord);
        Look(ctx, t);
      }
      InsDone(ctx, t, ord);
      ToTop(ctx, t);
      shape := Plug(ctx, t);
      BlackenRoot();
    }

    method BlackenRoot()
      requires Focus(Top, shape) && shape.T?
      modifies this`shape, nodes`black
      ensures Focus(Top, shape) && shape == Blacken(old(shape))
    {
      Look(Top, shape);
      Paint(root, true, Top, shape);
      shape := Blacken(shape);
    }

    lemma {:induction false} ToTop(ctx: Ctx, t: Shape)
      ensures Focus(ctx, t) <==> Focus(Top, Plug(ctx, t))
    {
      FocusPlug(Snap(), root, ctx, t);
      NodesPlug(ctx, t);
    }

    lemma {:induction false} ToInner(sp: Ctx, outer: Ctx, t: Shape)
      ensures Focus(Compose(sp, outer), t) <==> Focus(outer, Plug(sp, t))
    {
      FocusCompose(Snap(), root, sp, outer, t);
      NodesPlug(sp, t);
      CtxNodesCompose(sp, outer);
    }

    /** The nodes in order. */
    ghost function Seq(): seq<RBNode>
      reads this`shape
    {
      InOrder(shape)
    }

    /** A linked red-black tree.  Nothing is said about keys: the scheduler rewrites some of them
        while their nodes are in a tree. */
    ghost predicate Linked()
      reads this, nodes`left, nodes`right, nodes`par, nodes`black
    {
      Focus(Top, shape) && RedBlack(shape)
    }

    /** A linked red-black tree whose cached left is its first node. */
    ghost predicate Valid()
      reads this, nodes`left, nodes`right, nodes`par, nodes`black
    {
      Linked() && left == First(Seq())
    }

    method LinkNode(node: RBNode, lst: RBNode?, goLeft: bool, ghost ctx: Ctx)
      requires Focus(ctx, E) && node !in nodes && lst == ParOf(ctx) && (ctx.Hole? ==> goLeft == ctx.side.L?)
      modifies this`root, this`nodes, node`left, node`right, node`par, node`black, nodes`left, nodes`right
      ensures nodes == old(nodes) + {node} && Focus(ctx, T(E, node, false, E))
    {
      Look(ctx, E);
      node.par := lst;
      node.black := false;
      node.left, node.right := null, null;
      if lst == null {
        root := node;
      } else if goLeft {
        lst.left := node;
      } else {
        lst.right := node;
      }
      nodes := nodes + {node};
      LinkLeaf(old(Snap()), Snap(), old(root), root, ctx, node);
    }

    /** The walk of RBTree_insertDef: to some empty hole, and in a sorted tree to the one behind
        everything that is not greater. */
    method Descend(node: RBNode) returns (lst: RBNode?, goLeft: bool, ghost ctx: Ctx)
      requires Focus(Top, shape)
      ensures Focus(ctx, E) && lst == ParOf(ctx) && (ctx.Hole? ==> goLeft == ctx.side.L?)
      ensures Plug(ctx, E) == shape
      ensures Sorted(Seq()) ==> NotAbove(Before(ctx), node.key) && Above(After(ctx), node.key)
      ensures |Before(ctx)| == Spot(shape, node.key)
    {
      hide Rep, At, CtxNodes, OnWay, Sorted, NotAbove, Above, Spot;
      var src := root;
      lst, goLeft := null, false;
      ctx := Top;
      ghost var t := shape;
      Look(Top, shape);
      WayStarts(shape, node.key);
      while src != null
        invariant Focus(ctx, t) && src == RootOf(t) && lst == ParOf(ctx) && (ctx.Hole? ==> goLeft == ctx.side.L?)
        invariant Plug(ctx, t) == shape && OnWay(ctx, t, node.key)
        decreases t
      {
        Look(ctx, t);
        lst := src;
        if Less(node.key, lst.key) {
          WayLeft(ctx, t, node.key);
          src, goLeft := src.left, true;
          ctx, t := Hole(L, ctx, t.x, t.black, t.r), t.l;
        } else {
          WayRight(ctx, t, node.key);
          src, goLeft := src.right, false;
          ctx, t := Hole(R, ctx, t.x, t.black, t.l), t.r;
        }
        Up(ctx, t);
      }
      WayEnds(ctx, node.key);
    }

    lemma NodesIn(node: RBNode)
      requires Focus(Top, shape)
      ensures node in nodes <==> node in Seq()
    {
      NodesInOrder(shape, node);
    }

    method InsFirst(node: RBNode)
      requires Linked() && root == null && node !in nodes
      modifies this, node`left, node`right, node`par, node`black
      ensures Valid() && Seq() == [node] && nodes == {node} && old(Seq()) == [] && old(nodes) == {} && left == node
      ensures InsertedAt(0, node, old(Seq()), Seq()) && Sorted(Seq()) && old(Spot(shape, node.key)) == 0
    {
      Look(Top, shape);
      root, left := node, node;
      node.left, node.right := null, null;
      node.par, node.black := null, true;
      nodes, shape := {node}, T(E, node, true, E);
      assert Rep(Snap(), E, node) && Rep(Snap(), shape, null);
      assert InOrder(E) == [] && InOrder(shape) == [node];
    }

    /** Finds the place, links the node there and repairs the tree. */
    method InsBelow(node: RBNode) returns (ghost pos: nat)
      requires Linked() && root != null && node !in nodes
      modifies this`root, this`nodes, this`shape, node`left, node`right, node`par, node`black,
               nodes`left, nodes`right, nodes`par, nodes`black
      ensures Linked() && nodes == old(nodes) + {node}
      ensures PutAt(pos, node, old(Seq()), Seq()) && old(Seq()) != [] && pos == old(Spot(shape, node.key))
      ensures Sorted(old(Seq())) ==> InsertedAt(pos, node, old(Seq()), Seq())
    {
      hide Rep, At, CtxNodes, Sorted, NotAbove, Above, InsState, Spot;
      Look(Top, shape);
      NotEmpty(shape);
      var lst, goLeft, ctx := Descend(node);
      pos := |Before(ctx)|;
      ghost var ord, ord' := Seq(), Before(ctx) + [node] + After(ctx);
      InsPlaced(ctx, node);
      assert PutAt(pos, node, ord, ord') && (Sorted(ord) ==> InsertedAt(pos, node, ord, ord'));
      LinkNode(node, lst, goLeft, ctx);
      FixAfterIns(node, ctx, T(E, node, false, E), ord');
    }

    /** RBTree_ins, on any linked tree: the node joins the sequence where the walk ends, and becomes the
        cached left if it compares as less than the old one.  In a sorted tree its place is just before
        the first node it is strictly less than.  A cached left that was right is so again exactly if the
        comparison with it is as good as those with all nodes down the left side. */
    method Ins(node: RBNode) returns (ghost pos: nat)
      requires Linked() && node !in nodes
      modifies this, node`left, node`right, node`par, node`black, nodes`left, nodes`right, nodes`par, nodes`black
      ensures Linked() && nodes == old(nodes) + {node}
      ensures PutAt(pos, node, old(Seq()), Seq()) && pos == old(Spot(shape, node.key))
      ensures left == if old(Seq()) == [] || old(left) == null || Less(node.key, old(left).key) then node else old(left)
      ensures old(Valid()) ==> (Valid() <==> old(LeftAgrees(shape, left, node.key)))
      ensures Sorted(old(Seq())) ==> InsertedAt(pos, node, old(Seq()), Seq()) && Sorted(Seq())
      ensures Sorted(old(Seq())) && old(Valid()) ==> Valid()
    {
      hide Focus, RedBlack, Rep, At, Sorted, Spot, LeftAgrees;
      Look(Top, shape);
      ghost var ord := Seq();
      NodesIn(node);
      if left == First(ord) { LeftTells(shape, left, node.key); }
      if root == null {
        InsFirst(node);
        return 0;
      }
      if left == null || Less(node.key, left.key) {
        left := node;
      }
      pos := InsBelow(node);
      if Sorted(ord) { InsertedSorted(pos, node, ord, Seq()); }
      FirstAfterPut(pos, node, ord, Seq());
    }

    // ----- deletion -----

    /** The same place seen from the sibling. */
    lemma Swap(ctx: Ctx, t: Shape)
      requires ctx.Hole?
      ensures Focus(ctx, t) <==> Focus(Hole(Other(ctx.side), ctx.up, ctx.x, ctx.black, t), ctx.sib)
    {
      Up(ctx, t);
      Up(Hole(Other(ctx.side), ctx.up, ctx.x, ctx.black, t), ctx.sib);
    }

    lemma LookSibling(ctx: Ctx, t: Shape)
      requires Focus(ctx, t) && ctx.Hole? && ctx.sib.T?
      ensures var w := ctx.sib;
              && w.x in nodes && w.x.left == RootOf(w.l) && w.x.right == RootOf(w.r)
              && (w.l.T? ==> w.l.x in nodes && w.l.x.black == w.l.black)
              && (w.r.T? ==> w.r.x in nodes && w.r.x.black == w.r.black)
    {
      var m := Snap();
      assert Rep(m, ctx.sib, ctx.x);
      assert Rep(m, ctx.sib.l, ctx.sib.x) && Rep(m, ctx.sib.r, ctx.sib.x);
    }

    method PaintSibling(w: RBNode, c: bool, ghost ctx: Ctx, ghost t: Shape)
      requires Focus(ctx, t) && ctx.Hole? && ctx.sib.T? && ctx.sib.x == w
      modifies nodes`black
      ensures Focus(ctx.(sib := ctx.sib.(black := c)), t)
    {
      Swap(ctx, t);
      Paint(w, c, Hole(Other(ctx.side), ctx.up, ctx.x, ctx.black, t), ctx.sib);
      Swap(ctx.(sib := ctx.sib.(black := c)), t);
    }

    method PaintParent(par: RBNode, c: bool, ghost ctx: Ctx, ghost t: Shape)
      requires Focus(ctx, t) && ctx.Hole? && ctx.x == par
      modifies nodes`black
      ensures Focus(ctx.(black := c), t)
    {
      Up(ctx, t);
      Paint(par, c, ctx.up, Mk(ctx.side, t, par, ctx.black, ctx.sib));
      Up(ctx.(black := c), t);
    }

    /** The child on side s of the sibling. */
    method PaintNephew(n: RBNode, c: bool, ghost s: Side, ghost ctx: Ctx, ghost t: Shape)
      requires Focus(ctx, t) && ctx.Hole? && ctx.sib.T? && Kid(s, ctx.sib).T? && Kid(s, ctx.sib).x == n
      modifies nodes`black
      ensures Focus(ctx.(sib := Mk(s, Kid(s, ctx.sib).(black := c), ctx.sib.x, ctx.sib.black,
                                      Kid(Other(s), ctx.sib))), t)
    {
      ghost var w, k := ctx.sib, Kid(s, ctx.sib);
      ghost var above := Hole(Other(ctx.side), ctx.up, ctx.x, ctx.black, t);
      ghost var ctxN := Hole(s, above, w.x, w.black, Kid(Other(s), w));
      Swap(ctx, t);
      Up(ctxN, k);
      Paint(n, c, ctxN, k);
      Up(ctxN, k.(black := c));
      Swap(ctx.(sib := Mk(s, k.(black := c), w.x, w.black, Kid(Other(s), w))), t);
    }

    /** A red sibling: black it, redden the parent, rotate it up. */
    method RaiseSiblingL(par: RBNode, other: RBNode, ghost ctx: Ctx, ghost t: Shape)
      requires Focus(ctx, t) && ctx.Hole? && ctx.side == L && ctx.sib.T? && par == ctx.x && other == ctx.sib.x
      modifies this`root, nodes`left, nodes`right, nodes`par, nodes`black
      ensures Focus(Hole(L, Hole(L, ctx.up, other, true, ctx.sib.r), par, false, ctx.sib.l), t)
    {
      PaintSibling(other, true, ctx, t);
      PaintParent(par, false, ctx.(sib := Blacken(ctx.sib)), t);
      ghost var ctx1 := ctx.(sib := Blacken(ctx.sib), black := false);
      ghost var p := Mk(L, t, par, false, ctx1.sib);
      Up(ctx1, t);
      RotLeftAt(par, ctx.up, p);
      Up(Hole(L, ctx.up, other, true, ctx.sib.r), Mk(L, t, par, false, ctx.sib.l));
      Up(Hole(L, Hole(L, ctx.up, other, true, ctx.sib.r), par, false, ctx.sib.l), t);
    }

    /** Only the near nephew is red: rotate it into the sibling's place. */
    method RaiseNephewL(other: RBNode, ghost ctx: Ctx, ghost t: Shape, ghost ord: seq<RBNode>)
      returns (ghost ctx': Ctx)
      requires Focus(ctx, t) && DelDeep(ctx, t, ord) && ctx.side == L
      requires other == ctx.sib.x && ctx.sib.T? && ctx.sib.black
      requires IsBlack(ctx.sib.r) && !IsBlack(ctx.sib.l)
      modifies this`root, nodes`left, nodes`right, nodes`par, nodes`black
      ensures ctx'.Hole? && ctx' == ctx.(sib := ctx'.sib) && ctx'.sib.T? && ctx'.sib.black && !IsBlack(ctx'.sib.r)
      ensures Focus(ctx', t) && DelDeep(ctx', t, ord)
    {
      LookSibling(ctx, t);
      var near := other.left;
      if near != null {
        PaintNephew(near, true, L, ctx, t);
      }
      ghost var ctx1 := ctx.(sib := Mk(L, Blacken(ctx.sib.l), other, ctx.sib.black, ctx.sib.r));
      PaintSibling(other, false, ctx1, t);
      ghost var w := Mk(L, Blacken(ctx.sib.l), other, false, ctx.sib.r);
      Swap(ctx.(sib := w), t);
      RotRightAt(other, Hole(R, ctx.up, ctx.x, ctx.black, t), w);
      ctx' := ctx.(sib := Rot(R, w));
      Swap(ctx', t);
      DelNearNephew(ctx, t, ord);
    }

    /** The far nephew is red: the sibling takes the parent's place and colour. */
    method SettleL(par: RBNode, other: RBNode, ghost ctx: Ctx, ghost t: Shape)
      requires Focus(ctx, t) && ctx.Hole? && ctx.side == L && ctx.sib.T? && ctx.sib.r.T?
      requires par == ctx.x && other == ctx.sib.x
      modifies this`root, nodes`left, nodes`right, nodes`par, nodes`black
      ensures Focus(ctx.up, Rot(L, Mk(L, t, par, true, Mk(L, ctx.sib.l, other, ctx.black, Blacken(ctx.sib.r)))))
    {
      Look(ctx, t);
      LookSibling(ctx, t);
      PaintSibling(other, par.black, ctx, t);
      ghost var ctx1 := ctx.(sib := ctx.sib.(black := ctx.black));
      PaintParent(par, true, ctx1, t);
      ghost var ctx2 := ctx1.(black := true);
      if other.right != null {
        PaintNephew(other.right, true, R, ctx2, t);
      }
      ghost var w := Mk(L, ctx.sib.l, other, ctx.black, Blacken(ctx.sib.r));
      ghost var ctx3 := ctx2.(sib := w);
      Up(ctx3, t);
      RotLeftAt(par, ctx.up, Mk(L, t, par, true, w));
    }

    /** A red sibling: black it, redden the parent, rotate it up. */
    method RaiseSiblingR(par: RBNode, other: RBNode, ghost ctx: Ctx, ghost t: Shape)
      requires Focus(ctx, t) && ctx.Hole? && ctx.side == R && ctx.sib.T? && par == ctx.x && other == ctx.sib.x
      modifies this`root, nodes`left, nodes`right, nodes`par, nodes`black
      ensures Focus(Hole(R, Hole(R, ctx.up, other, true, ctx.sib.l), par, false, ctx.sib.r), t)
    {
      PaintSibling(other, true, ctx, t);
      PaintParent(par, false, ctx.(sib := Blacken(ctx.sib)), t);
      ghost var ctx1 := ctx.(sib := Blacken(ctx.sib), black := false);
      ghost var p := Mk(R, t, par, false, ctx1.sib);
      Up(ctx1, t);
      RotRightAt(par, ctx.up, p);
      Up(Hole(R, ctx.up, other, true, ctx.sib.l), Mk(R, t, par, false, ctx.sib.r));
      Up(Hole(R, Hole(R, ctx.up, other, true, ctx.sib.l), par, false, ctx.sib.r), t);
    }

    /** Only the near nephew is red: rotate it into the sibling's place. */
    method RaiseNephewR(other: RBNode, ghost ctx: Ctx, ghost t: Shape, ghost ord: seq<RBNode>)
      returns (ghost ctx': Ctx)
      requires Focus(ctx, t) && DelDeep(ctx, t, ord) && ctx.side == R
      requires other == ctx.sib.x && ctx.sib.T? && ctx.sib.black
      requires IsBlack(ctx.sib.l) && !IsBlack(ctx.sib.r)
      modifies this`root, nodes`left, nodes`right, nodes`par, nodes`black
      ensures ctx'.Hole? && ctx' == ctx.(sib := ctx'.sib) && ctx'.sib.T? && ctx'.sib.black && !IsBlack(ctx'.sib.l)
      ensures Focus(ctx', t) && DelDeep(ctx', t, ord)
    {
      LookSibling(ctx, t);
      var near := other.right;
      if near != null {
        PaintNephew(near, true, R, ctx, t);
      }
      ghost var ctx1 := ctx.(sib := Mk(R, Blacken(ctx.sib.r), other, ctx.sib.black, ctx.sib.l));
      PaintSibling(other, false, ctx1, t);
      ghost var w := Mk(R, Blacken(ctx.sib.r), other, false, ctx.sib.l);
      Swap(ctx.(sib := w), t);
      RotLeftAt(other, Hole(L, ctx.up, ctx.x, ctx.black, t), w);
      ctx' := ctx.(sib := Rot(L, w));
      Swap(ctx', t);
      DelNearNephew(ctx, t, ord);
    }

    /** The far nephew is red: the sibling takes the parent's place and colour. */
    method SettleR(par: RBNode, other: RBNode, ghost ctx: Ctx, ghost t: Shape)
      requires Focus(ctx, t) && ctx.Hole? && ctx.side == R && ctx.sib.T? && ctx.sib.l.T?
      requires par == ctx.x && other == ctx.sib.x
      modifies this`root, nodes`left, nodes`right, nodes`par, nodes`black
      ensures Focus(ctx.up, Rot(R, Mk(R, t, par, true, Mk(R, ctx.sib.r, other, ctx.black, Blacken(ctx.sib.l)))))
    {
      Look(ctx, t);
      LookSibling(ctx, t);
      PaintSibling(other, par.black, ctx, t);
      ghost var ctx1 := ctx.(sib := ctx.sib.(black := ctx.black));
      PaintParent(par, true, ctx1, t);
      ghost var ctx2 := ctx1.(black := true);
      if other.left != null {
        PaintNephew(other.left, true, L, ctx2, t);
      }
      ghost var w := Mk(R, ctx.sib.r, other, ctx.black, Blacken(ctx.sib.l));
      ghost var ctx3 := ctx2.(sib := w);
      Up(ctx3, t);
      RotRightAt(par, ctx.up, Mk(R, t, par, true, w));
    }

    /** The loop body when the hole is on the left. */
    method DelStepL(par0: RBNode, ghost ctx0: Ctx, ghost t0: Shape, ghost ord: seq<RBNode>)
      returns (done: bool, node: RBNode?, par: RBNode?, ghost ctx: Ctx, ghost t: Shape)
      requires Focus(ctx0, t0) && DelDeep(ctx0, t0, ord) && ctx0.side == L && par0 == ctx0.x
      modifies this`root, nodes`left, nodes`right, nodes`par, nodes`black
      ensures Focus(ctx, t)
      ensures if done then DelDone(Plug(ctx, t), ord) else
              node == RootOf(t) && par == ParOf(ctx) && DelState(ctx, t, ord) &&
                  DelMeasure(ctx, t) < DelMeasure(ctx0, t0)
    {
      hide Focus, Rep, At, Nodes, CtxNodes;
      ctx, t := ctx0, t0;
      Look(ctx, t);
      DelOpen(ctx, t, ord);
      var other := par0.right;
      if !other.black {
        DelRedSibling(ctx, t, ord);
        RaiseSiblingL(par0, other, ctx, t);
        ctx := Hole(L, Hole(L, ctx.up, other, true, ctx.sib.r), par0, false, ctx.sib.l);
        Look(ctx, t);
        other := par0.right;
      }
      LookSibling(ctx, t);
      if (other.left == null || other.left.black) && (other.right == null || other.right.black) {
        DelBlackNephews(ctx, t, ord);
        PaintSibling(other, false, ctx, t);
        Up(ctx.(sib := ctx.sib.(black := false)), t);
        done, node, t := false, par0, Mk(L, t, par0, ctx.black, ctx.sib.(black := false));
        ctx := ctx.up;
        Look(ctx, t);
        par := node.par;
      } else {
        if other.right == null || other.right.black {
          ctx := RaiseNephewL(other, ctx, t, ord);
          Look(ctx, t);
          other := par0.right;
        }
        DelFarNephew(ctx, t, ord);
        SettleL(par0, other, ctx, t);
        t := Rot(L, Mk(L, t, par0, true, Mk(L, ctx.sib.l, other, ctx.black, Blacken(ctx.sib.r))));
        ctx := ctx.up;
        done, node, par := true, root, null;
      }
    }

    /** The loop body when the hole is on the right. */
    method DelStepR(par0: RBNode, ghost ctx0: Ctx, ghost t0: Shape, ghost ord: seq<RBNode>)
      returns (done: bool, node: RBNode?, par: RBNode?, ghost ctx: Ctx, ghost t: Shape)
      requires Focus(ctx0, t0) && DelDeep(ctx0, t0, ord) && ctx0.side == R && par0 == ctx0.x
      modifies this`root, nodes`left, nodes`right, nodes`par, nodes`black
      ensures Focus(ctx, t)
      ensures if done then DelDone(Plug(ctx, t), ord) else
              node == RootOf(t) && par == ParOf(ctx) && DelState(ctx, t, ord) &&
                  DelMeasure(ctx, t) < DelMeasure(ctx0, t0)
    {
      hide Focus, Rep, At, Nodes, CtxNodes;
      ctx, t := ctx0, t0;
      Look(ctx, t);
      DelOpen(ctx, t, ord);
      var other := par0.left;
      if !other.black {
        DelRedSibling(ctx, t, ord);
        RaiseSiblingR(par0, other, ctx, t);
        ctx := Hole(R, Hole(R, ctx.up, other, true, ctx.sib.l), par0, false, ctx.sib.r);
        Look(ctx, t);
        other := par0.left;
      }
      LookSibling(ctx, t);
      if (other.left == null || other.left.black) && (other.right == null || other.right.black) {
        DelBlackNephews(ctx, t, ord);
        PaintSibling(other, false, ctx, t);
        Up(ctx.(sib := ctx.sib.(black := false)), t);
        done, node, t := false, par0, Mk(R, t, par0, ctx.black, ctx.sib.(black := false));
        ctx := ctx.up;
        Look(ctx, t);
        par := node.par;
      } else {
        if other.left == null || other.left.black {
          ctx := RaiseNephewR(other, ctx, t, ord);
          Look(ctx, t);
          other := par0.left;
        }
        DelFarNephew(ctx, t, ord);
        SettleR(par0, other, ctx, t);
        t := Rot(R, Mk(R, t, par0, true, Mk(R, ctx.sib.r, other, ctx.black, Blacken(ctx.sib.l))));
        ctx := ctx.up;
        done, node, par := true, root, null;
      }
    }

    method DelStep(node0: RBNode?, par0: RBNode, ghost ctx0: Ctx, ghost t0: Shape, ghost ord: seq<RBNode>)
      returns (done: bool, node: RBNode?, par: RBNode?, ghost ctx: Ctx, ghost t: Shape)
      requires Focus(ctx0, t0) && DelDeep(ctx0, t0, ord) && node0 == RootOf(t0) && par0 == ctx0.x
      modifies this`root, nodes`left, nodes`right, nodes`par, nodes`black
      ensures Focus(ctx, t)
      ensures if done then DelDone(Plug(ctx, t), ord) else
              node == RootOf(t) && par == ParOf(ctx) && DelState(ctx, t, ord) &&
                  DelMeasure(ctx, t) < DelMeasure(ctx0, t0)
    {
      Look(ctx0, t0);
      DelOpen(ctx0, t0, ord);
      if par0.left == node0 {
        done, node, par, ctx, t := DelStepL(par0, ctx0, t0, ord);
      } else {
        done, node, par, ctx, t := DelStepR(par0, ctx0, t0, ord);
      }
    }

    /** Where the climb ends, the node is painted black. */
    method FinishDel(node: RBNode?, ghost ctx: Ctx, ghost t: Shape, ghost ord: seq<RBNode>)
      requires Focus(ctx, t) && node == RootOf(t) && DelDone(Plug(ctx, Blacken(t)), ord)
      modifies this`shape, nodes`black
      ensures Focus(Top, shape) && DelDone(shape, ord)
    {
      if node != null {
        Paint(node, true, ctx, t);
      }
      ToTop(ctx, Blacken(t));
      shape := Plug(ctx, Blacken(t));
    }

    /** After the last rotation node is set to the root, and the loop left. */
    method FinishRoot(ghost ctx: Ctx, ghost t: Shape, ghost ord: seq<RBNode>)
      requires Focus(ctx, t) && DelDone(Plug(ctx, t), ord)
      modifies this`shape, nodes`black
      ensures Focus(Top, shape) && DelDone(shape, ord)
    {
      ToTop(ctx, t);
      Look(Top, Plug(ctx, t));
      FinishDel(root, Top, Plug(ctx, t), ord);
    }

    method FixAfterDel(node0: RBNode?, par0: RBNode?, ghost ctx0: Ctx, ghost t0: Shape, ghost ord: seq<RBNode>)
      requires Focus(ctx0, t0) && DelState(ctx0, t0, ord) && node0 == RootOf(t0) && par0 == ParOf(ctx0)
      modifies this`root, this`shape, nodes`left, nodes`right, nodes`par, nodes`black
      ensures Focus(Top, shape) && DelDone(shape, ord)
    {
      hide Focus, Rep, At, Nodes, CtxNodes;
      var node, par := node0, par0;
      ghost var ctx, t := ctx0, t0;
      Look(ctx, t);
      while (node == null || node.black) && node != root
        invariant nodes == old(nodes) && Focus(ctx, t) && DelState(ctx, t, ord)
        invariant node == RootOf(t) && par == ParOf(ctx)
        invariant (t.T? ==> node.black == t.black) && (ctx.Top? <==> node == root)
        decreases DelMeasure(ctx, t)
      {
        var done;
        done, node, par, ctx, t := DelStep(node, par, ctx, t, ord);
        if done {
          FinishRoot(ctx, t, ord);
          return;
        }
        Look(ctx, t);
      }
      DelPaint(ctx, t, ord);
      FinishDel(node, ctx, t, ord);
    }

    // ----- walking -----

    /** The left spine below node, down to the node without a left child. */
    method LeftSpine(node: RBNode, ghost ctx0: Ctx, ghost t0: Shape)
      returns (last: RBNode, ghost sp: Ctx, ghost t: Shape)
      requires Focus(ctx0, t0) && t0.T? && t0.x == node
      ensures t0 == Plug(sp, t) && t.T? && t.l.E? && t.x == last && Before(sp) == []
      ensures Focus(Compose(sp, ctx0), t)
      ensures InOrder(t0) == [last] + (InOrder(t.r) + After(sp))
    {
      hide Focus, Rep, At, Nodes, CtxNodes;
      last, sp, t := node, Top, t0;
      Look(ctx0, t0);
      while last.left != null
        invariant t0 == Plug(sp, t) && t.T? && t.x == last && Before(sp) == []
        invariant Focus(Compose(sp, ctx0), t) && last.left == RootOf(t.l)
        decreases t
      {
        Up(Compose(Hole(L, sp, t.x, t.black, t.r), ctx0), t.l);
        sp, t := Hole(L, sp, t.x, t.black, t.r), t.l;
        last := last.left;
        Look(Compose(sp, ctx0), t);
      }
      SpineEnd(sp, t);
    }

    lemma {:induction false} SpineEnd(sp: Ctx, t: Shape)
      requires t.T? && t.l.E? && Before(sp) == []
      ensures InOrder(Plug(sp, t)) == [t.x] + (InOrder(t.r) + After(sp))
    {
      hide Before, After, Plug;
      InOrderPlug(sp, t);
      assert InOrder(E) == [];
      assert [] + ([] + [t.x] + InOrder(t.r)) + After(sp) == [t.x] + (InOrder(t.r) + After(sp));
    }

    /** RBTree_getNext, with the place of the node given. */
    method NextAt(node: RBNode, ghost ctx0: Ctx, ghost t0: Shape) returns (r: RBNode?)
      requires Focus(ctx0, t0) && t0.T? && t0.x == node
      ensures r == First(InOrder(t0.r) + After(ctx0))
    {
      Look(ctx0, t0);
      if node.right != null {
        Up(Hole(R, ctx0, node, t0.black, t0.l), t0.r);
        var last, sp, t := LeftSpine(node.right, Hole(R, ctx0, node, t0.black, t0.l), t0.r);
        return last;
      }
      var cur := node;
      var par := cur.par;
      ghost var ctx, t := ctx0, t0;
      while par != null && cur == par.right
        invariant Focus(ctx, t) && t.T? && t.x == cur && par == ParOf(ctx) && After(ctx) == After(ctx0)
        invariant ctx.Hole? ==> (cur == par.right <==> ctx.side.R?)
        decreases ctx
      {
        cur := par;
        par := cur.par;
        Look(ctx, t);
        Up(ctx, t);
        ctx, t := ctx.up, Mk(ctx.side, t, ctx.x, ctx.black, ctx.sib);
        Look(ctx, t);
      }
      r := par;
    }

    // ----- taking a node out -----

    method Unlink(node: RBNode, child: RBNode?)
      requires node in nodes && (child != null ==> child in nodes && child != node && child != node.par)
      requires (node.par != null ==> node.par in nodes && node.par != node)
      modifies this`root, this`nodes, nodes`left, nodes`right, nodes`par
      ensures nodes == old(nodes) - {node} && node.par == old(node.par)
      ensures UnlinkUpdate(old(Snap()), Snap(), old(root), root, node, child)
    {
      var par := node.par;
      if child != null {
        child.par := par;
      }
      if par != null {
        if par.left == node {
          par.left := child;
        } else {
          par.right := child;
        }
      } else {
        root := child;
      }
      nodes := nodes - {node};
    }

    method UnlinkAt(node: RBNode, child: RBNode?, ghost ctx: Ctx, ghost t: Shape, ghost c: Shape)
      requires Focus(ctx, t) && t.T? && t.x == node && child == RootOf(c)
      requires (t.l.E? && c == t.r) || (t.r.E? && c == t.l)
      modifies this`root, this`nodes, nodes`left, nodes`right, nodes`par
      ensures nodes == old(nodes) - {node} && Focus(ctx, c)
      ensures node.par == ParOf(ctx)
    {
      hide Rep;
      Look(ctx, t);
      TopApart(Snap(), root, ctx, t);
      Unlink(node, child);
      UnlinkTop(old(Snap()), Snap(), old(root), root, ctx, t, c);
    }

    /** The link that leads from above to old_ leads to node. */
    method LinkFromAbove(old_: RBNode, node: RBNode)
      requires old_ in nodes && (old_.par != null ==> old_.par in nodes)
      modifies this`root, nodes`left, nodes`right
      ensures root == if old_.par == null then node else old(root)
      ensures Snap() == LinkedAbove(old(Snap()), old_, node)
    {
      if old_.par != null {
        if old_.par.left == old_ {
          old_.par.left := node;
        } else {
          old_.par.right := node;
        }
      } else {
        root := node;
      }
    }

    /** The parent links of the children of old_ lead to node. */
    method LinkFromBelow(old_: RBNode, node: RBNode)
      requires old_ in nodes && old_.left != null && old_.left in nodes && old_.left != old_.right
      requires old_.right != null ==> old_.right in nodes
      modifies nodes`par
      ensures Snap() == LinkedBelow(old(Snap()), old_, node)
    {
      old_.left.par := node;
      if old_.right != null {
        old_.right.par := node;
      }
    }

    method CopyLinks(old_: RBNode, node: RBNode)
      requires old_ in nodes && node !in nodes
      modifies node`left, node`right, node`par, node`black
      ensures Snap() == old(Snap()) && Cell(node.left, node.right, node.par, node.black) == Snap()[old_]
    {
      node.par, node.black := old_.par, old_.black;
      node.left := old_.left;
      node.right := old_.right;
    }

    ghost method Exchange(old_: RBNode, node: RBNode)
      requires old_ in nodes && node !in nodes
      modifies this`nodes
      ensures nodes == old(nodes) - {old_} + {node}
      ensures Snap() == (old(Snap()) - {old_})[node := Cell(node.left, node.right, node.par, node.black)]
    {
      nodes := nodes - {old_} + {node};
    }

    /** node takes over the place, the links and the colour of old_. */
    method Substitute(old_: RBNode, node: RBNode)
      requires old_ in nodes && node !in nodes && old_.left != null
      requires old_.left in nodes && old_.left != old_ && old_.left != old_.right && old_.left != old_.par
      requires old_.right != null ==> old_.right in nodes && old_.right != old_ && old_.right != old_.par
      requires old_.par != null ==> old_.par in nodes && old_.par != old_
      modifies this`root, this`nodes, node`left, node`right, node`par, node`black, nodes`left, nodes`right, nodes`par
      ensures nodes == old(nodes) - {old_} + {node}
      ensures SubstituteUpdate(old(Snap()), Snap(), old(root), root, old_, node)
    {
      hide SubstituteUpdate, LinkedAbove, LinkedBelow;
      ghost var m := Snap();
      CopyLinks(old_, node);
      LinkedAboveKeeps(m, old_, node);
      LinkFromAbove(old_, node);
      LinkFromBelow(old_, node);
      Exchange(old_, node);
      Substituted(m, old(root), root, old_, node);
    }

    method SubstituteAt(old_: RBNode, node: RBNode, ghost ctx: Ctx, ghost t: Shape)
      requires Focus(ctx, t) && t.T? && t.x == old_ && t.l.T? && node !in nodes
      modifies this`root, this`nodes, node`left, node`right, node`par, node`black, nodes`left, nodes`right, nodes`par
      ensures nodes == old(nodes) - {old_} + {node} && Focus(ctx, t.(x := node))
    {
      hide Rep;
      TopApart(Snap(), root, ctx, t);
      Substitute(old_, node);
      SubstituteTop(old(Snap()), Snap(), old(root), root, ctx, t, node);
    }

    /** The label rebalance: repairs the tree if the node that went was black. */
    method Rebalance(col: bool, child: RBNode?, par: RBNode?, ghost ctx: Ctx, ghost t: Shape, ghost ord: seq<RBNode>)
      requires Focus(ctx, t) && child == RootOf(t) && par == ParOf(ctx)
      requires if col then DelState(ctx, t, ord) else DelDone(Plug(ctx, t), ord)
      modifies this`root, this`shape, nodes`left, nodes`right, nodes`par, nodes`black
      ensures Focus(Top, shape) && DelDone(shape, ord)
    {
      if col {
        FixAfterDel(child, par, ctx, t, ord);
      } else {
        ToTop(ctx, t);
        shape := Plug(ctx, t);
      }
    }

    /** RBTree_del of a node with at most one child. */
    method DelLeaf(node: RBNode, ghost ctx: Ctx, ghost t: Shape)
      requires Focus(ctx, t) && t.T? && t.x == node && (t.l.E? || t.r.E?) && RedBlack(Plug(ctx, t))
      modifies this`root, this`nodes, this`shape, nodes`left, nodes`right, nodes`par, nodes`black
      ensures nodes == old(nodes) - {node} && Focus(Top, shape)
      ensures DelDone(shape, Before(ctx) + (InOrder(t.l) + InOrder(t.r)) + After(ctx))
    {
      Look(ctx, t);
      var child := if node.left == null then node.right else node.left;
      ghost var c := if t.l.E? then t.r else t.l;
      assert InOrder(c) == InOrder(t.l) + InOrder(t.r);
      DelStart(ctx, t);
      var par, col := node.par, node.black;
      UnlinkAt(node, child, ctx, t, c);
      Rebalance(col, child, par, ctx, c, Before(ctx) + InOrder(c) + After(ctx));
    }

    method UnlinkSuccessor(node: RBNode, child: RBNode?, ghost ctx: Ctx, ghost t: Shape, ghost sp: Ctx, ghost tn: Shape)
      requires t.T? && tn.T? && tn.l.E? && node == tn.x && child == RootOf(tn.r)
      requires Focus(Compose(sp, Hole(R, ctx, t.x, t.black, t.l)), tn)
      modifies this`root, this`nodes, nodes`left, nodes`right, nodes`par
      ensures nodes == old(nodes) - {node} && Focus(ctx, t.(r := Plug(sp, tn.r)))
      ensures node.par == if sp.Top? then t.x else sp.x
    {
      ghost var above := Hole(R, ctx, t.x, t.black, t.l);
      UnlinkAt(node, child, Compose(sp, above), tn, tn.r);
      ToInner(sp, above, tn.r);
      Up(above, Plug(sp, tn.r));
    }

    method FindSuccessor(old_: RBNode, ghost ctx: Ctx, ghost t: Shape)
      returns (node: RBNode, ghost sp: Ctx, ghost tn: Shape)
      requires Focus(ctx, t) && t.T? && t.x == old_ && t.r.T?
      ensures t.r == Plug(sp, tn) && tn.T? && tn.l.E? && tn.x == node && Before(sp) == []
      ensures InOrder(t.r) == [node] + (InOrder(tn.r) + After(sp))
      ensures Focus(Compose(sp, Hole(R, ctx, old_, t.black, t.l)), tn)
      ensures node.right == RootOf(tn.r) && node.black == tn.black && node.par == if sp.Top? then old_ else sp.x
      ensures node in nodes && old_ in nodes && node != old_ && (sp.Hole? ==> sp.x != old_)
    {
      Look(ctx, t);
      ghost var above := Hole(R, ctx, old_, t.black, t.l);
      Up(above, t.r);
      node, sp, tn := LeftSpine(old_.right, above, t.r);
      Look(Compose(sp, above), tn);
      NodesPlug(sp, tn);
    }

    /** The successor of old_ leaves its own place and takes that of old_. */
    method TakeSuccessor(old_: RBNode, ghost ctx: Ctx, ghost t: Shape)
      returns (child: RBNode?, par: RBNode?, col: bool, ghost sp: Ctx, ghost tn: Shape)
      requires Focus(ctx, t) && t.T? && t.x == old_ && t.l.T? && t.r.T?
      modifies this`root, this`nodes, nodes`left, nodes`right, nodes`par, nodes`black
      ensures nodes == old(nodes) - {old_}
      ensures t.r == Plug(sp, tn) && tn.T? && tn.l.E? && Before(sp) == [] && col == tn.black
      ensures InOrder(t.r) == [tn.x] + (InOrder(tn.r) + After(sp))
      ensures Focus(Hole(R, ctx, tn.x, t.black, t.l), Plug(sp, tn.r))
      ensures child == RootOf(tn.r) && par == if sp.Top? then tn.x else sp.x
    {
      hide Focus, Rep, At, Nodes, CtxNodes;
      var node;
      node, sp, tn := FindSuccessor(old_, ctx, t);
      child, par, col := node.right, node.par, node.black;
      UnlinkSuccessor(node, child, ctx, t, sp, tn);
      if node.par == old_ {
        par := node;
      }
      SubstituteAt(old_, node, ctx, t.(r := Plug(sp, tn.r)));
      Up(Hole(R, ctx, node, t.black, t.l), Plug(sp, tn.r));
    }

    /** RBTree_del of a node with two children. */
    method DelInner(old_: RBNode, ghost ctx: Ctx, ghost t: Shape)
      requires Focus(ctx, t) && t.T? && t.x == old_ && t.l.T? && t.r.T? && RedBlack(Plug(ctx, t))
      modifies this`root, this`nodes, this`shape, nodes`left, nodes`right, nodes`par, nodes`black
      ensures nodes == old(nodes) - {old_} && Focus(Top, shape)
      ensures DelDone(shape, Before(ctx) + (InOrder(t.l) + InOrder(t.r)) + After(ctx))
    {
      hide Focus, Rep, At, Nodes, CtxNodes;
      var child, par, col, sp, tn := TakeSuccessor(old_, ctx, t);
      SuccessorState(ctx, t, sp, tn);
      ToInner(sp, Hole(R, ctx, tn.x, t.black, t.l), tn.r);
      Rebalance(col, child, par, Compose(sp, Hole(R, ctx, tn.x, t.black, t.l)), tn.r,
                Before(ctx) + (InOrder(t.l) + InOrder(t.r)) + After(ctx));
    }

    method DelAt(node: RBNode, ghost ctx: Ctx, ghost t: Shape)
      requires Focus(ctx, t) && t.T? && t.x == node && RedBlack(Plug(ctx, t))
      modifies this`root, this`nodes, this`shape, nodes`left, nodes`right, nodes`par, nodes`black
      ensures nodes == old(nodes) - {node} && Focus(Top, shape)
      ensures DelDone(shape, Before(ctx) + (InOrder(t.l) + InOrder(t.r)) + After(ctx))
    {
      Look(ctx, t);
      if node.left == null || node.right == null {
        DelLeaf(node, ctx, t);
      } else {
        DelInner(node, ctx, t);
      }
    }

    /** The cached left moves on if its node is about to go. */
    method MoveLeft(node: RBNode, ghost ctx: Ctx, ghost t: Shape, ghost pos: nat)
      requires Focus(ctx, t) && t.T? && t.x == node
      requires pos < |Seq()| && Seq()[pos] == node && Seq()[pos + 1..] == InOrder(t.r) + After(ctx)
      modifies this`left
      ensures left == if old(left) == node then First(Seq()[pos + 1..]) else old(left)
    {
      hide Rep, CtxRep, Balanced, NoRedRed;
      if left == node {
        left := NextAt(node, ctx, t);
      }
    }

    /** RBTree_del, on any linked tree: exactly this node goes, the rest keep their order, and the
        cached left moves on if it was this node.  If it was the first node, it is so again. */
    method Del(node: RBNode) returns (ghost pos: nat)
      requires Linked() && node in nodes
      modifies this, nodes`left, nodes`right, nodes`par, nodes`black
      ensures Linked() && nodes == old(nodes) - {node}
      ensures RemovedAt(pos, node, old(Seq()), Seq()) && NoDup(old(Seq()))
      ensures left == if old(left) == node then First(old(Seq())[pos + 1..]) else old(left)
      ensures old(Valid()) ==> Valid()
    {
      hide Rep, Balanced, NoRedRed, CtxRep, InOrder;
      ghost var ord := Seq();
      ghost var ctx, t := Locate(Top, shape, node);
      pos := |Before(ctx)| + |InOrder(t.l)|;
      RemovedHere(ctx, t);
      DistinctOrder(shape);
      ToTop(ctx, t);
      MoveLeft(node, ctx, t, pos);
      DelAt(node, ctx, t);
      FirstAfterRemoval(pos, node, ord, Seq());
    }

    /** RBTree_getNext: the node after this one in the sequence, null after the last. */
    method GetNext(node: RBNode) returns (r: RBNode?)
      requires Linked() && node in nodes
      ensures NoDup(Seq())
      ensures exists k :: StandsBefore(Seq(), k, node, r)
    {
      hide Rep, CtxRep, Balanced, NoRedRed;
      ghost var ctx, t := Locate(Top, shape, node);
      ghost var pos := |Before(ctx)| + |InOrder(t.l)|;
      RemovedHere(ctx, t);
      DistinctOrder(shape);
      ToTop(ctx, t);
      r := NextAt(node, ctx, t);
      assert StandsBefore(Seq(), pos, node, r);
    }

    /** The loop of RBTree_getLeft and RBTree_getNext: it visits the nodes in order, each once. */
    method Walk() returns (s: seq<RBNode>)
      requires Valid()
      ensures s == Seq() && NoDup(s)
    {
      s := [];
      var cur := left;
      DistinctOrder(shape);
      while cur != null
        invariant |s| <= |Seq()| && s == Seq()[..|s|] && cur == if |s| < |Seq()| then Seq()[|s|] else null
        decreases |Seq()| - |s|
      {
        ghost var n := |s|;
        NodesInOrder(shape, cur);
        s := s + [cur];
        cur := GetNext(cur);
        assert StandsBefore(Seq(), n, s[n], cur);
      }
    }

    /** RBTree_getRight, which the callers use on a tree that is not empty. */
    method GetRight() returns (r: RBNode)
      requires Linked() && root != null
      ensures Seq() != [] && r == Seq()[|Seq()| - 1]
    {
      r := root;
      ghost var ctx, t := Top, shape;
      Look(ctx, t);
      while r.right != null
        invariant Focus(ctx, t) && t.T? && t.x == r && After(ctx) == [] && r.right == RootOf(t.r)
        invariant Plug(ctx, t) == shape
        decreases t
      {
        r := r.right;
        Up(Hole(R, ctx, t.x, t.black, t.l), t.r);
        ctx, t := Hole(R, ctx, t.x, t.black, t.l), t.r;
        Look(ctx, t);
      }
      InOrderPlug(ctx, t);
    }

    /** The search of RBTree_findDef: the last node whose key is not above the given one; a node
        with that very key is returned at once. */
    method FindFloor(key: Key) returns (bst: RBNode?)
      requires Valid() && Sorted(Seq())
      ensures bst == null ==> Above(Seq(), key)
      ensures bst != null ==> bst in Seq() && !Less(key, bst.key)
      ensures bst != null ==> forall n | n in Seq() && Less(bst.key, n.key) :: Less(key, n.key)
    {
      hide Rep, At, CtxNodes;
      var node := root;
      bst := null;
      ghost var ctx, t := Top, shape;
      Look(Top, shape);
      while node != null
        invariant Focus(ctx, t) && node == RootOf(t) && Plug(ctx, t) == shape
        invariant if bst == null then Before(ctx) == [] else bst in Before(ctx) && NotAbove(Before(ctx), bst.key)
        invariant NotAbove(Before(ctx), key) && Above(After(ctx), key) && Sorted(Seq())
        decreases t
      {
        Look(ctx, t);
        if Less(node.key, key) {
          StepRight(ctx, t, key);
          bst := node;
          ctx, t := Hole(R, ctx, t.x, t.black, t.l), t.r;
          node := node.right;
        } else if Less(key, node.key) {
          StepLeft(ctx, t, key);
          ctx, t := Hole(L, ctx, t.x, t.black, t.r), t.l;
          node := node.left;
        } else {
          InOrderPlug(ctx, t);
          return node;
        }
        Up(ctx, t);
      }
      InOrderPlug(ctx, E);
    }
  }

  /** Where the walk of RBTree_insertDef for this key ends, in order or not: the number of nodes before
      its place. */
  ghost function Spot(t: Shape, key: Key): nat
    reads Nodes(t)`key
  {
    match t
    case E => 0
    case T(l, x, _, r) => if Less(key, x.key) then Spot(l, key) else |InOrder(l)| + 1 + Spot(r, key)
  }

  /** The nodes from the root down to the left. */
  ghost function Spine(t: Shape): seq<RBNode> {
    match t
    case E => []
    case T(l, x, _, _) => [x] + Spine(l)
  }

  /** A key that is less than that of the cached left is less than every key down the left side. */
  ghost predicate LeftAgrees(t: Shape, left: RBNode?, key: Key)
    reads Spine(t)`key, {left}`key
  {
    left != null && Less(key, left.key) ==> forall x | x in Spine(t) :: Less(key, x.key)
  }

  lemma {:induction false} SpotSpine(t: Shape, key: Key)
    ensures Spot(t, key) == 0 <==> forall x | x in Spine(t) :: Less(key, x.key)
    ensures t.T? ==> InOrder(t) != [] && InOrder(t)[0] in Spine(t)
  {
    if t.T? {
      SpotSpine(t.l, key);
      assert InOrder(t.l) == [] <==> t.l.E?;
    }
  }

  /** The comparison with the first node tells whether the walk ends in front of all nodes exactly if it
      is as good as those with all nodes down the left side. */
  lemma {:induction false} LeftTells(t: Shape, left: RBNode?, key: Key)
    requires left == First(InOrder(t))
    ensures LeftAgrees(t, left, key) <==> left == null || (Spot(t, key) == 0 <==> Less(key, left.key))
  {
    hide Spot, InOrder;
    SpotSpine(t, key);
    if t.E? { assert InOrder(t) == [] by { EmptyOrder(); } }
  }

  lemma EmptyOrder()
    ensures InOrder(E) == [] && Spine(E) == []
  {
  }

  ghost function First(s: seq<RBNode>): RBNode? { if s == [] then null else s[0] }

  /** node is at k, and r follows it; null follows the last node. */
  ghost predicate StandsBefore(s: seq<RBNode>, k: nat, node: RBNode, r: RBNode?) {
    k < |s| && s[k] == node && r == if k + 1 < |s| then s[k + 1] else null
  }

  /** s is old with node put in at pos. */
  ghost predicate PutAt(pos: nat, node: RBNode, old_: seq<RBNode>, s: seq<RBNode>) {
    pos <= |old_| && s == old_[..pos] + [node] + old_[pos..]
  }

  /** s is old with node put in at pos: after everything it is not less than, before everything
      it is less than. */
  ghost predicate InsertedAt(pos: nat, node: RBNode, old_: seq<RBNode>, s: seq<RBNode>)
    reads node`key, old_`key
  {
    && PutAt(pos, node, old_, s)
    && (forall k | 0 <= k < pos :: !Less(node.key, old_[k].key))
    && (forall k | pos <= k < |old_| :: Less(node.key, old_[k].key))
  }

  lemma {:induction false} NotEmpty(t: Shape)
    requires t.T?
    ensures InOrder(t) != []
  {
  }

  /** The new leaf in the hole where the walk ended. */
  lemma {:induction false} InsPlaced(ctx: Ctx, node: RBNode)
    requires RedBlack(Plug(ctx, E))
    requires Sorted(InOrder(Plug(ctx, E))) ==> NotAbove(Before(ctx), node.key) && Above(After(ctx), node.key)
    ensures var (ord, s) := (InOrder(Plug(ctx, E)), Before(ctx) + [node] + After(ctx));
            && InsState(ctx, T(E, node, false, E), s) && PutAt(|Before(ctx)|, node, ord, s)
            && (Sorted(ord) ==> InsertedAt(|Before(ctx)|, node, ord, s))
  {
    hide Sorted, RedBlack, InsState;
    InsStart(ctx, node);
  }

  lemma FirstAfterPut(pos: nat, node: RBNode, old_: seq<RBNode>, s: seq<RBNode>)
    requires PutAt(pos, node, old_, s) && old_ != [] && node !in old_
    ensures First(s) == (if pos == 0 then node else old_[0]) && First(s) != null && node != old_[0]
  {
  }

  lemma FirstAfterRemoval(pos: nat, node: RBNode, old_: seq<RBNode>, s: seq<RBNode>)
    requires RemovedAt(pos, node, old_, s) && NoDup(old_)
    ensures First(s) == if First(old_) == node then First(old_[pos + 1..]) else First(old_)
  {
    assert First(old_) == node ==> pos == 0;
  }

  lemma InsertedSorted(pos: nat, node: RBNode, old_: seq<RBNode>, s: seq<RBNode>)
    requires Sorted(old_) && InsertedAt(pos, node, old_, s)
    ensures Sorted(s)
  {
  }

  lemma RemovedSorted(pos: nat, node: RBNode, old_: seq<RBNode>, s: seq<RBNode>)
    requires Sorted(old_) && RemovedAt(pos, node, old_, s)
    ensures Sorted(s)
  {
    assert forall k | 0 <= k < |s| :: s[k] == old_[if k < pos then k else k + 1];
  }

  ghost predicate Sorted(s: seq<RBNode>)
    reads s`key
  {
    forall i, j | 0 <= i < j < |s| :: !Less(s[j].key, s[i].key)
  }

  /** key is strictly less than every key of s. */
  ghost predicate Above(s: seq<RBNode>, key: Key)
    reads s`key
  {
    forall n | n in s :: Less(key, n.key)
  }

  /** key is not less than any key of s. */
  ghost predicate NotAbove(s: seq<RBNode>, key: Key)
    reads s`key
  {
    forall n | n in s :: !Less(key, n.key)
  }

  lemma SortedSplit(a: seq<RBNode>, l: seq<RBNode>, x: RBNode, r: seq<RBNode>, b: seq<RBNode>)
    requires Sorted(a + (l + [x] + r) + b)
    ensures NotAbove(a, x.key) && NotAbove(l, x.key)
    ensures forall n | n in r :: !Less(n.key, x.key)
  {
    var s := a + (l + [x] + r) + b;
    var k := |a| + |l|;
    assert s[k] == x;
    assert forall i | 0 <= i < |a| :: s[i] == a[i];
    assert forall i | 0 <= i < |l| :: s[|a| + i] == l[i];
    assert forall i | 0 <= i < |r| :: s[k + 1 + i] == r[i];
  }

  /** Stepping left at a node above the key leaves only greater nodes behind the place. */
  lemma {:induction false} StepLeft(ctx: Ctx, t: Shape, key: Key)
    requires t.T? && Sorted(InOrder(Plug(ctx, t))) && Less(key, t.x.key) && Above(After(ctx), key)
    ensures Above(After(Hole(L, ctx, t.x, t.black, t.r)), key)
  {
    InOrderPlug(ctx, t);
    SortedSplit(Before(ctx), InOrder(t.l), t.x, InOrder(t.r), After(ctx));
  }

  /** Stepping right at a node not above the key leaves only such nodes before the place, and
      this one is the greatest of them. */
  lemma {:induction false} StepRight(ctx: Ctx, t: Shape, key: Key)
    requires t.T? && Sorted(InOrder(Plug(ctx, t))) && !Less(key, t.x.key) && NotAbove(Before(ctx), key)
    ensures var b := Before(Hole(R, ctx, t.x, t.black, t.l));
            NotAbove(b, key) && NotAbove(b, t.x.key) && t.x in b
  {
    InOrderPlug(ctx, t);
    SortedSplit(Before(ctx), InOrder(t.l), t.x, InOrder(t.r), After(ctx));
    NotAboveTrans(InOrder(t.l), t.x.key, key);
  }

  /** The walk for a key has come to t: in a sorted tree it has passed the right nodes, and in every tree
      it ends where Spot says. */
  ghost predicate OnWay(ctx: Ctx, t: Shape, key: Key)
    reads Nodes(t)`key, Nodes(Plug(ctx, t))`key, InOrder(Plug(ctx, t))`key, Before(ctx)`key, After(ctx)`key
  {
    && (Sorted(InOrder(Plug(ctx, t))) ==> NotAbove(Before(ctx), key) && Above(After(ctx), key))
    && |Before(ctx)| + Spot(t, key) == Spot(Plug(ctx, t), key)
  }

  lemma WayStarts(t: Shape, key: Key)
    ensures OnWay(Top, t, key)
  {
  }

  lemma WayLeft(ctx: Ctx, t: Shape, key: Key)
    requires t.T? && OnWay(ctx, t, key) && Less(key, t.x.key)
    ensures OnWay(Hole(L, ctx, t.x, t.black, t.r), t.l, key)
  {
    hide Sorted, Above, NotAbove, InOrder;
    assert Plug(Hole(L, ctx, t.x, t.black, t.r), t.l) == Plug(ctx, t);
    if Sorted(InOrder(Plug(ctx, t))) { StepLeft(ctx, t, key); }
  }

  lemma WayRight(ctx: Ctx, t: Shape, key: Key)
    requires t.T? && OnWay(ctx, t, key) && !Less(key, t.x.key)
    ensures OnWay(Hole(R, ctx, t.x, t.black, t.l), t.r, key)
  {
    hide Sorted, Above, NotAbove, InOrder;
    assert Plug(Hole(R, ctx, t.x, t.black, t.l), t.r) == Plug(ctx, t);
    if Sorted(InOrder(Plug(ctx, t))) { StepRight(ctx, t, key); }
  }

  lemma {:induction false} WayEnds(ctx: Ctx, key: Key)
    requires OnWay(ctx, E, key)
    ensures Sorted(InOrder(Plug(ctx, E))) ==> NotAbove(Before(ctx), key) && Above(After(ctx), key)
    ensures |Before(ctx)| == Spot(Plug(ctx, E), key)
  {
  }

  lemma NotAboveTrans(s: seq<RBNode>, k: Key, key: Key)
    requires NotAbove(s, k) && !Less(key, k)
    ensures NotAbove(s, key)
  {
  }
}

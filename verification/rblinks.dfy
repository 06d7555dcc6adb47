/** The four link fields of every node as one map, and what it means for them to spell out a
    shape.  The lemmas say which link updates turn one shape into another. */
module RBLinks {
  import opened RBShape

  datatype Cell = Cell(left: RBNode?, right: RBNode?, par: RBNode?, black: bool)

  type Links = map<RBNode, Cell>

  ghost function Child(s: Side, c: Cell): RBNode? { if s.L? then c.left else c.right }

  ghost function SetChild(s: Side, c: Cell, n: RBNode?): Cell {
    if s.L? then c.(left := n) else c.(right := n)
  }

  /** The links hang together as t says, below the parent p. */
  ghost predicate Rep(m: Links, t: Shape, p: RBNode?) {
    match t
    case E => true
    case T(l, x, c, r) =>
      x in m && m[x] == Cell(RootOf(l), RootOf(r), p, c) && Rep(m, l, x) && Rep(m, r, x)
  }

  /** The links along a path agree with it: h stands in the hole, root is the top of the tree. */
  ghost predicate CtxRep(m: Links, ctx: Ctx, h: RBNode?, root: RBNode?) {
    match ctx
    case Top => root == h
    case Hole(s, up, x, c, sib) =>
      x in m && m[x].par == ParOf(up) && m[x].black == c &&
      Child(s, m[x]) == h && Child(Other(s), m[x]) == RootOf(sib) &&
      Rep(m, sib, x) && CtxRep(m, up, x, root)
  }

  /** The links under root are t with the path ctx around it. */
  ghost predicate At(m: Links, root: RBNode?, ctx: Ctx, t: Shape) {
    Rep(m, t, ParOf(ctx)) && CtxRep(m, ctx, RootOf(t), root) &&
    Distinct(t) && CtxDistinct(ctx) && Nodes(t) !! CtxNodes(ctx)
  }

  // ----- frames -----

  lemma {:induction false} RepFrame(m: Links, m': Links, t: Shape, p: RBNode?)
    requires Rep(m, t, p)
    requires forall n | n in Nodes(t) && n in m :: n in m' && m'[n] == m[n]
    ensures Rep(m', t, p)
  {
    match t
    case E =>
    case T(l, x, _, r) => RepFrame(m, m', l, x); RepFrame(m, m', r, x);
  }

  lemma {:induction false} CtxFrame(m: Links, m': Links, ctx: Ctx, h: RBNode?, root: RBNode?)
    requires CtxRep(m, ctx, h, root)
    requires forall n | n in CtxNodes(ctx) && n in m :: n in m' && m'[n] == m[n]
    ensures CtxRep(m', ctx, h, root)
  {
    match ctx
    case Top =>
    case Hole(_, up, x, _, sib) => RepFrame(m, m', sib, x); CtxFrame(m, m', up, x, root);
  }

  /** Only the top of t changed, and only its parent link. */
  lemma {:induction false} Reparent(m: Links, m': Links, t: Shape, p: RBNode?, q: RBNode?)
    requires Rep(m, t, p) && Distinct(t)
    requires forall n | n in Nodes(t) && n in m && n != RootOf(t) :: n in m' && m'[n] == m[n]
    requires t.T? ==> t.x in m' && m'[t.x] == m[t.x].(par := q)
    ensures Rep(m', t, q)
  {
    match t
    case E =>
    case T(l, x, _, r) => RepFrame(m, m', l, x); RepFrame(m, m', r, x);
  }

  /** Along the path only the child link that leads to the hole changed. */
  lemma {:induction false} Refill(m: Links, m': Links, ctx: Ctx, h: RBNode?, h': RBNode?, root: RBNode?, root': RBNode?)
    requires CtxRep(m, ctx, h, root) && CtxDistinct(ctx)
    requires forall n | n in CtxNodes(ctx) && n in m && n != ParOf(ctx) :: n in m' && m'[n] == m[n]
    requires ctx.Hole? ==> ctx.x in m' && m'[ctx.x] == SetChild(ctx.side, m[ctx.x], h') && root' == root
    requires ctx.Top? ==> root' == h'
    ensures CtxRep(m', ctx, h', root')
  {
    match ctx
    case Top =>
    case Hole(_, up, x, _, sib) => RepFrame(m, m', sib, x); CtxFrame(m, m', up, x, root);
  }

  /** The root of the whole tree stands in the hole exactly when there is nothing above it. */
  lemma {:induction false} RootIsNode(m: Links, ctx: Ctx, h: RBNode?, root: RBNode?)
    requires CtxRep(m, ctx, h, root)
    ensures if ctx.Top? then root == h else root != null && root in CtxNodes(ctx)
  {
    match ctx
    case Top =>
    case Hole(_, up, x, _, sib) => RootIsNode(m, up, x, root);
  }

  // ----- moving the focus -----

  lemma FocusUp(m: Links, root: RBNode?, ctx: Ctx, t: Shape)
    requires ctx.Hole?
    ensures At(m, root, ctx, t) <==> At(m, root, ctx.up, Mk(ctx.side, t, ctx.x, ctx.black, ctx.sib))
  {
  }

  lemma {:induction false} FocusCompose(m: Links, root: RBNode?, inner: Ctx, outer: Ctx, t: Shape)
    ensures At(m, root, Compose(inner, outer), t) <==> At(m, root, outer, Plug(inner, t))
  {
    match inner
    case Top =>
    case Hole(s, up, x, c, sib) =>
      FocusUp(m, root, Compose(inner, outer), t);
      FocusCompose(m, root, up, outer, Mk(s, t, x, c, sib));
  }

  lemma {:induction false} FocusPlug(m: Links, root: RBNode?, ctx: Ctx, t: Shape)
    ensures At(m, root, ctx, t) <==> At(m, root, Top, Plug(ctx, t))
  {
    match ctx
    case Top =>
    case Hole(s, up, x, c, sib) =>
      FocusUp(m, root, ctx, t);
      FocusPlug(m, root, up, Mk(s, t, x, c, sib));
  }

  // ----- updates -----

  /** Changing one colour. */
  lemma PaintLinks(m: Links, m': Links, root: RBNode?, ctx: Ctx, t: Shape, c: bool)
    requires At(m, root, ctx, t) && t.T?
    requires m' == m[t.x := m[t.x].(black := c)]
    ensures At(m', root, ctx, t.(black := c))
  {
    RepFrame(m, m', t.l, t.x);
    RepFrame(m, m', t.r, t.x);
    CtxFrame(m, m', ctx, t.x, root);
  }

  /** The nodes a rotation of x rewrites: k comes up, b changes hands, p stands above. */
  ghost predicate RotNodesApart(m: Links, x: RBNode, k: RBNode, b: RBNode?, p: RBNode?) {
    x in m && k in m && x != k && (b != null ==> b in m && b != x && b != k) &&
    (p != null ==> p in m && p != x && p != k && p != b)
  }

  /** The link changes of a rotation of x towards s. */
  ghost predicate RotUpdate(s: Side, m: Links, m': Links, root: RBNode?, root': RBNode?,
                            x: RBNode, k: RBNode, b: RBNode?, p: RBNode?)
    requires RotNodesApart(m, x, k, b, p) && m'.Keys == m.Keys
  {
    && m'[x] == SetChild(Other(s), m[x], b).(par := k)
    && m'[k] == SetChild(s, m[k], x).(par := p)
    && (b != null ==> m'[b] == m[b].(par := x))
    && (p != null ==> m'[p] == SetChild(if Child(s, m[p]) == x then s else Other(s), m[p], k))
    && root' == (if p == null then k else root)
    && forall n | n in m && n != x && n != k && n != b && n != p :: m'[n] == m[n]
  }

  lemma RotApart(s: Side, m: Links, root: RBNode?, ctx: Ctx, t: Shape)
    requires At(m, root, ctx, t) && t.T? && Kid(Other(s), t).T?
    ensures var k := Kid(Other(s), t);
            && RotNodesApart(m, t.x, k.x, RootOf(Kid(s, k)), ParOf(ctx))
            && m[t.x].par == ParOf(ctx) && Child(Other(s), m[t.x]) == k.x && Child(s, m[k.x]) == RootOf(Kid(s, k))
            && (ctx.Hole? ==> ctx.x in m && Child(ctx.side, m[ctx.x]) == t.x && Child(Other(ctx.side), m[ctx.x]) != t.x)
  {
    var k := Kid(Other(s), t);
    var b := Kid(s, k);
    assert Rep(m, k, t.x) && Distinct(k) && Nodes(k) <= Nodes(t) && Nodes(b) <= Nodes(k);
    assert Rep(m, b, k.x) && (b.T? ==> b.x in Nodes(b) && b.x in Nodes(t));
    assert ctx.Hole? && ctx.sib.T? ==> ctx.sib.x in Nodes(ctx.sib) && ctx.sib.x in CtxNodes(ctx);
  }

  lemma {:induction false} RotNodes(s: Side, t: Shape)
    requires t.T? && Kid(Other(s), t).T? && Distinct(t)
    ensures Distinct(Rot(s, t)) && Nodes(Rot(s, t)) == Nodes(t)
  {
  }

  lemma {:induction false} RotSubtrees(s: Side, m: Links, m': Links, root: RBNode?, ctx: Ctx, t: Shape)
    requires At(m, root, ctx, t) && t.T? && Kid(Other(s), t).T? && m'.Keys == m.Keys
    requires var k := Kid(Other(s), t);
             forall n | n in m && n in Nodes(t) && n != t.x && n != k.x ::
               m'[n] == if n == RootOf(Kid(s, k)) then m[n].(par := t.x) else m[n]
    ensures var k := Kid(Other(s), t);
            && Rep(m, k, t.x) && Distinct(k)
            && Rep(m', Kid(s, t), t.x) && Rep(m', Kid(s, k), t.x) && Rep(m', Kid(Other(s), k), k.x)
  {
    var k := Kid(Other(s), t);
    var a, b, c := Kid(s, t), Kid(s, k), Kid(Other(s), k);
    assert Rep(m, k, t.x) && Distinct(k) && Nodes(k) <= Nodes(t);
    RepFrame(m, m', a, t.x);
    Reparent(m, m', b, k.x, t.x);
    RepFrame(m, m', c, k.x);
  }

  /** The rotated subtree is linked as its shape says. */
  lemma {:induction false} RotRep(s: Side, m: Links, m': Links, root: RBNode?, root': RBNode?, ctx: Ctx, t: Shape)
    requires At(m, root, ctx, t) && t.T? && Kid(Other(s), t).T? && m'.Keys == m.Keys
    requires var k := Kid(Other(s), t);
             && RotNodesApart(m, t.x, k.x, RootOf(Kid(s, k)), ParOf(ctx))
             && RotUpdate(s, m, m', root, root', t.x, k.x, RootOf(Kid(s, k)), ParOf(ctx))
    ensures Rep(m', Rot(s, t), ParOf(ctx))
  {
    hide CtxRep, Distinct, CtxDistinct, CtxNodes;
    RotOthers(s, m, m', root, root', ctx, t);
    RotSubtrees(s, m, m', root, ctx, t);
  }

  /** In the subtree only the three nodes change; the one above it is not in it. */
  lemma {:induction false} RotOthers(s: Side, m: Links, m': Links, root: RBNode?, root': RBNode?, ctx: Ctx, t: Shape)
    requires At(m, root, ctx, t) && t.T? && Kid(Other(s), t).T? && m'.Keys == m.Keys
    requires var k := Kid(Other(s), t);
             && RotNodesApart(m, t.x, k.x, RootOf(Kid(s, k)), ParOf(ctx))
             && RotUpdate(s, m, m', root, root', t.x, k.x, RootOf(Kid(s, k)), ParOf(ctx))
    ensures var k := Kid(Other(s), t);
            forall n | n in m && n in Nodes(t) && n != t.x && n != k.x ::
              m'[n] == if n == RootOf(Kid(s, k)) then m[n].(par := t.x) else m[n]
  {
    hide Rep, CtxRep, Distinct, CtxDistinct, Nodes;
    assert ctx.Hole? ==> ParOf(ctx) in CtxNodes(ctx);
  }

  /** The link from above leads to the node that came up. */
  lemma {:induction false} RotAbove(s: Side, m: Links, m': Links, root: RBNode?, root': RBNode?, ctx: Ctx, t: Shape)
    requires At(m, root, ctx, t) && t.T? && Kid(Other(s), t).T? && m'.Keys == m.Keys
    requires var k := Kid(Other(s), t);
             && RotNodesApart(m, t.x, k.x, RootOf(Kid(s, k)), ParOf(ctx))
             && RotUpdate(s, m, m', root, root', t.x, k.x, RootOf(Kid(s, k)), ParOf(ctx))
    ensures CtxRep(m', ctx, Kid(Other(s), t).x, root')
  {
    hide Rep, CtxRep, Distinct, CtxDistinct;
    RotApart(s, m, root, ctx, t);
    RotInside(s, m, root, ctx, t);
    Refill(m, m', ctx, t.x, Kid(Other(s), t).x, root, root');
  }

  lemma {:induction false} RotInside(s: Side, m: Links, root: RBNode?, ctx: Ctx, t: Shape)
    requires At(m, root, ctx, t) && t.T? && Kid(Other(s), t).T?
    ensures var k := Kid(Other(s), t);
            t.x !in CtxNodes(ctx) && k.x !in CtxNodes(ctx) && (Kid(s, k).T? ==> Kid(s, k).x !in CtxNodes(ctx))
  {
    hide Rep, CtxRep, Distinct, CtxDistinct, CtxNodes;
    var k := Kid(Other(s), t);
    assert t.x in Nodes(t) && k.x in Nodes(k) && Nodes(k) <= Nodes(t);
    assert Kid(s, k).T? ==> Kid(s, k).x in Nodes(Kid(s, k)) && Nodes(Kid(s, k)) <= Nodes(k);
  }

  lemma {:induction false} RotLinks(s: Side, m: Links, m': Links, root: RBNode?, root': RBNode?, ctx: Ctx, t: Shape)
    requires At(m, root, ctx, t) && t.T? && Kid(Other(s), t).T? && m'.Keys == m.Keys
    requires var k := Kid(Other(s), t);
             && RotNodesApart(m, t.x, k.x, RootOf(Kid(s, k)), ParOf(ctx))
             && RotUpdate(s, m, m', root, root', t.x, k.x, RootOf(Kid(s, k)), ParOf(ctx))
    ensures At(m', root', ctx, Rot(s, t)) && Nodes(Rot(s, t)) == Nodes(t)
  {
    hide Rep, CtxRep, Distinct, CtxDistinct, Nodes, CtxNodes, RotUpdate, RotNodesApart;
    RotRep(s, m, m', root, root', ctx, t);
    RotAbove(s, m, m', root, root', ctx, t);
    RotNodes(s, t);
  }

  /** Hanging a new red leaf x into an empty hole. */
  lemma {:induction false} LinkLeaf(m: Links, m': Links, root: RBNode?, root': RBNode?, ctx: Ctx, x: RBNode)
    requires At(m, root, ctx, E) && x !in CtxNodes(ctx)
    requires forall n | n in m && n != x && n != ParOf(ctx) :: n in m' && m'[n] == m[n]
    requires x in m' && m'[x] == Cell(null, null, ParOf(ctx), false)
    requires ctx.Hole? ==> ctx.x in m && ctx.x in m' && m'[ctx.x] == SetChild(ctx.side, m[ctx.x], x)
    requires root' == if ctx.Top? then x else root
    ensures At(m', root', ctx, T(E, x, false, E))
  {
    Refill(m, m', ctx, null, x, root, root');
  }

  /** The link p.left or p.right that leads to x now leads to y. */
  ghost function Redirect(c: Cell, x: RBNode, y: RBNode?): Cell {
    if c.left == x then c.(left := y) else c.(right := y)
  }

  /** The link changes of taking x out and putting its child k in its place. */
  ghost predicate UnlinkUpdate(m: Links, m': Links, root: RBNode?, root': RBNode?, x: RBNode, k: RBNode?)
    requires x in m && (k != null ==> k in m && k != x && k != m[x].par) && (m[x].par != null ==> m[x].par in m)
  {
    && m'.Keys == m.Keys - {x}
    && (forall n | n in m' && n != m[x].par && n != k :: m'[n] == m[n])
    && (k != null ==> m'[k] == m[k].(par := m[x].par))
    && (m[x].par != null && m[x].par != x ==> m'[m[x].par] == Redirect(m[m[x].par], x, k))
    && root' == if m[x].par == null then k else root
  }

  /** The node above the top of t, and its children, are where one expects them. */
  lemma {:induction false} TopApart(m: Links, root: RBNode?, ctx: Ctx, t: Shape)
    requires At(m, root, ctx, t) && t.T?
    ensures t.x in m && m[t.x] == Cell(RootOf(t.l), RootOf(t.r), ParOf(ctx), t.black)
    ensures t.l.T? ==> t.l.x in m && t.l.x in Nodes(t) && t.l.x != t.x && t.l.x != ParOf(ctx) && t.l.x != RootOf(t.r)
    ensures t.r.T? ==> t.r.x in m && t.r.x in Nodes(t) && t.r.x != t.x && t.r.x != ParOf(ctx)
    ensures ctx.Hole? ==> ctx.x in m && ctx.x in CtxNodes(ctx) && ctx.x != t.x
    ensures ctx.Hole? ==> forall y :: Redirect(m[ctx.x], t.x, y) == SetChild(ctx.side, m[ctx.x], y)
  {
    assert Rep(m, t.l, t.x) && Rep(m, t.r, t.x);
    assert t.l.T? ==> t.l.x in Nodes(t.l);
    assert t.r.T? ==> t.r.x in Nodes(t.r);
    assert ctx.Hole? && ctx.sib.T? ==> ctx.sib.x in Nodes(ctx.sib) && ctx.sib.x in CtxNodes(ctx);
    assert t.x in Nodes(t);
  }

  lemma UnlinkTop(m: Links, m': Links, root: RBNode?, root': RBNode?, ctx: Ctx, t: Shape, c: Shape)
    requires At(m, root, ctx, t) && t.T? && ((t.l.E? && c == t.r) || (t.r.E? && c == t.l))
    requires t.x in m && (c.T? ==> c.x in m && c.x != t.x && c.x != m[t.x].par)
    requires m[t.x].par != null ==> m[t.x].par in m
    requires UnlinkUpdate(m, m', root, root', t.x, RootOf(c))
    ensures At(m', root', ctx, c)
  {
    TopApart(m, root, ctx, t);
    assert Rep(m, c, t.x) && Nodes(c) <= Nodes(t);
    Reparent(m, m', c, t.x, ParOf(ctx));
    Refill(m, m', ctx, t.x, RootOf(c), root, root');
  }

  /** The link changes of giving the place of x to y. */
  ghost predicate SubstituteUpdate(m: Links, m': Links, root: RBNode?, root': RBNode?, x: RBNode, y: RBNode)
    requires x in m
  {
    var c := m[x];
    && m'.Keys == m.Keys - {x} + {y} && m'[y] == c
    && (forall n | n in m && n != x && n != y && n != c.par && n != c.left && n != c.right :: m'[n] == m[n])
    && (c.left != null && c.left in m && c.left in m' ==> m'[c.left] == m[c.left].(par := y))
    && (c.right != null && c.right in m && c.right in m' ==> m'[c.right] == m[c.right].(par := y))
    && (c.par != null && c.par in m && c.par in m' ==> m'[c.par] == Redirect(m[c.par], x, y))
    && root' == if c.par == null then y else root
  }

  ghost function LinkedAbove(m: Links, x: RBNode, y: RBNode): Links
    requires x in m && (m[x].par != null ==> m[x].par in m)
  {
    if m[x].par == null then m else m[m[x].par := Redirect(m[m[x].par], x, y)]
  }

  ghost function LinkedBelow(m: Links, x: RBNode, y: RBNode): Links
    requires x in m && m[x].left != null && m[x].left in m && (m[x].right != null ==> m[x].right in m)
  {
    var m1 := m[m[x].left := m[m[x].left].(par := y)];
    if m[x].right == null then m1 else m1[m[x].right := m1[m[x].right].(par := y)]
  }

  lemma LinkedAboveKeeps(m: Links, x: RBNode, y: RBNode)
    requires x in m && (m[x].par != null ==> m[x].par in m && m[x].par != x)
    ensures LinkedAbove(m, x, y).Keys == m.Keys && LinkedAbove(m, x, y)[x] == m[x]
  {
  }

  lemma Substituted(m: Links, root: RBNode?, root': RBNode?, x: RBNode, y: RBNode)
    requires x in m && y !in m && (m[x].par != null ==> m[x].par in m && m[x].par != x)
    requires m[x].left != null && m[x].left in m && m[x].left != x && m[x].left != m[x].right && m[x].left != m[x].par
    requires m[x].right != null ==> m[x].right in m && m[x].right != x && m[x].right != m[x].par
    requires root' == if m[x].par == null then y else root
    ensures LinkedAbove(m, x, y).Keys == m.Keys && LinkedAbove(m, x, y)[x] == m[x]
    ensures SubstituteUpdate(m, (LinkedBelow(LinkedAbove(m, x, y), x, y) - {x})[y := m[x]], root, root', x, y)
  {
  }

  lemma {:induction false} SubstituteTop(m: Links, m': Links, root: RBNode?, root': RBNode?, ctx: Ctx, t: Shape,
                                         y: RBNode)
    requires At(m, root, ctx, t) && t.T? && t.x in m && y !in Nodes(t) + CtxNodes(ctx)
    requires SubstituteUpdate(m, m', root, root', t.x, y)
    ensures At(m', root', ctx, t.(x := y))
  {
    TopApart(m, root, ctx, t);
    Reparent(m, m', t.l, t.x, y);
    Reparent(m, m', t.r, t.x, y);
    Refill(m, m', ctx, t.x, y, root, root');
  }
}

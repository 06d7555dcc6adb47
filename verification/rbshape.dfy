/** The shape of a red-black tree: the intrusive nodes of kernel/includes/lib/rbtree.h,
    a ghost tree that says how they hang together, and a path (context) from any
    position up to the root.  Everything below the node class is independent of the
    heap; rbtree.dfy ties the linked nodes to these shapes. */
module RBShape {
  import opened Sequences
  import opened Powers

  /** Every comparator in the kernel compares one or two integers: a run time and then a
      thread id, the end of a mapped block, the address of a record. */
  datatype Key = Key(major: int, minor: int)

  predicate Less(a: Key, b: Key) {
    a.major < b.major || (a.major == b.major && a.minor < b.minor)
  }

  /** struct RBNode, with the packed word unionParCol kept as two fields. */
  class RBNode {
    var left: RBNode?
    var right: RBNode?
    var par: RBNode?
    var black: bool
    var key: Key // rewritten only from outside the tree

    constructor (k: Key)
      ensures key == k
    {
      key := k;
    }
  }

  datatype Side = L | R

  datatype Shape = E | T(l: Shape, x: RBNode, black: bool, r: Shape)

  /** A path from a hole up to the root: the hole is the child of x on the given side, the
      other child of x is sib, and x itself sits in the hole of up. */
  datatype Ctx = Top | Hole(side: Side, up: Ctx, x: RBNode, black: bool, sib: Shape)

  ghost function Other(s: Side): Side { if s.L? then R else L }

  /** The node whose child on side s is a and whose other child is b. */
  ghost function Mk(s: Side, a: Shape, x: RBNode, black: bool, b: Shape): Shape {
    if s.L? then T(a, x, black, b) else T(b, x, black, a)
  }

  ghost function Kid(s: Side, t: Shape): Shape
    requires t.T?
  {
    if s.L? then t.l else t.r
  }

  ghost function Plug(ctx: Ctx, t: Shape): Shape {
    match ctx
    case Top => t
    case Hole(s, up, x, c, sib) => Plug(up, Mk(s, t, x, c, sib))
  }

  /** Puts a path inside another one. */
  ghost function Compose(inner: Ctx, outer: Ctx): Ctx {
    match inner
    case Top => outer
    case Hole(s, up, x, c, sib) => Hole(s, Compose(up, outer), x, c, sib)
  }

  ghost function RootOf(t: Shape): RBNode? { if t.E? then null else t.x }

  ghost function ParOf(ctx: Ctx): RBNode? { if ctx.Top? then null else ctx.x }

  ghost function Nodes(t: Shape): set<RBNode> {
    match t
    case E => {}
    case T(l, x, _, r) => Nodes(l) + {x} + Nodes(r)
  }

  ghost function CtxNodes(ctx: Ctx): set<RBNode> {
    match ctx
    case Top => {}
    case Hole(_, up, x, _, sib) => {x} + Nodes(sib) + CtxNodes(up)
  }

  ghost predicate Distinct(t: Shape) {
    match t
    case E => true
    case T(l, x, _, r) =>
      x !in Nodes(l) && x !in Nodes(r) && Nodes(l) !! Nodes(r) && Distinct(l) && Distinct(r)
  }

  ghost predicate CtxDistinct(ctx: Ctx) {
    match ctx
    case Top => true
    case Hole(_, up, x, _, sib) =>
      x !in Nodes(sib) && x !in CtxNodes(up) && Nodes(sib) !! CtxNodes(up) && Distinct(sib) && CtxDistinct(up)
  }

  ghost function InOrder(t: Shape): seq<RBNode> {
    match t
    case E => []
    case T(l, x, _, r) => InOrder(l) + [x] + InOrder(r)
  }

  /** What stands before, and what after, the hole in the in-order sequence. */
  ghost function Before(ctx: Ctx): seq<RBNode> {
    match ctx
    case Top => []
    case Hole(s, up, x, _, sib) => if s.L? then Before(up) else Before(up) + InOrder(sib) + [x]
  }

  ghost function After(ctx: Ctx): seq<RBNode> {
    match ctx
    case Top => []
    case Hole(s, up, x, _, sib) => if s.L? then [x] + InOrder(sib) + After(up) else After(up)
  }

  // ----- the red-black conditions -----

  ghost predicate IsBlack(t: Shape) { t.E? || t.black }

  ghost function BlackHeight(t: Shape): nat {
    match t
    case E => 0
    case T(l, _, c, _) => BlackHeight(l) + if c then 1 else 0
  }

  ghost predicate Balanced(t: Shape) {
    match t
    case E => true
    case T(l, _, _, r) => BlackHeight(l) == BlackHeight(r) && Balanced(l) && Balanced(r)
  }

  ghost predicate NoRedRed(t: Shape) {
    match t
    case E => true
    case T(l, _, c, r) => (c || (IsBlack(l) && IsBlack(r))) && NoRedRed(l) && NoRedRed(r)
  }

  /** The whole tree meets the red-black conditions. */
  ghost predicate RedBlack(t: Shape) {
    IsBlack(t) && Balanced(t) && NoRedRed(t)
  }

  /** The tree is balanced when its hole is filled by a balanced subtree of black height h. */
  ghost predicate CtxBalanced(ctx: Ctx, h: int) {
    match ctx
    case Top => true
    case Hole(_, up, _, c, sib) =>
      BlackHeight(sib) == h && Balanced(sib) && CtxBalanced(up, h + if c then 1 else 0)
  }

  /** No red-red pair on the path or beside it, and a black root, when the hole is filled by
      something whose top is black (holeBlack) or red. */
  ghost predicate CtxColours(ctx: Ctx, holeBlack: bool) {
    match ctx
    case Top => holeBlack
    case Hole(_, up, _, c, sib) =>
      (c || (holeBlack && IsBlack(sib))) && NoRedRed(sib) && CtxColours(up, c)
  }

  ghost function Blacken(t: Shape): Shape {
    if t.E? then t else t.(black := true)
  }

  /** Rotation towards side s: the other child of the top becomes the top. */
  ghost function Rot(s: Side, t: Shape): Shape
    requires t.T? && Kid(Other(s), t).T?
  {
    var k := Kid(Other(s), t);
    Mk(s, Mk(s, Kid(s, t), t.x, t.black, Kid(s, k)), k.x, k.black, Kid(Other(s), k))
  }

  // ----- lemmas -----

  lemma Regroup<A>(a: seq<A>, b: seq<A>, c: seq<A>, d: seq<A>)
    ensures a + (b + c) + d == (a + b) + c + d == a + b + (c + d)
  {
  }

  lemma RegroupNode<A>(b: seq<A>, l: seq<A>, x: A, r: seq<A>, a: seq<A>)
    ensures b + (l + [x] + r) + a == b + l + ([x] + r + a) == (b + l + [x]) + r + a
  {
  }

  lemma {:induction false} InOrderPlug(ctx: Ctx, t: Shape)
    ensures InOrder(Plug(ctx, t)) == Before(ctx) + InOrder(t) + After(ctx)
  {
    match ctx
    case Top =>
    case Hole(s, up, x, c, sib) =>
      InOrderPlug(up, Mk(s, t, x, c, sib));
      RegroupNode(Before(up), InOrder(if s.L? then t else sib), x, InOrder(if s.L? then sib else t), After(up));
  }

  lemma {:induction false} SameInOrder(ctx: Ctx, t: Shape, t': Shape)
    requires InOrder(t) == InOrder(t')
    ensures InOrder(Plug(ctx, t)) == InOrder(Plug(ctx, t'))
  {
    InOrderPlug(ctx, t);
    InOrderPlug(ctx, t');
  }

  lemma {:induction false} RotInOrder(s: Side, t: Shape)
    requires t.T? && Kid(Other(s), t).T?
    ensures InOrder(Rot(s, t)) == InOrder(t)
  {
  }

  lemma {:induction false} BalancedPlug(ctx: Ctx, t: Shape)
    ensures Balanced(Plug(ctx, t)) <==> Balanced(t) && CtxBalanced(ctx, BlackHeight(t))
  {
    match ctx
    case Top =>
    case Hole(s, up, x, c, sib) => BalancedPlug(up, Mk(s, t, x, c, sib));
  }

  lemma {:induction false} ColoursPlug(ctx: Ctx, t: Shape)
    ensures IsBlack(Plug(ctx, t)) && NoRedRed(Plug(ctx, t)) <==> NoRedRed(t) && CtxColours(ctx, IsBlack(t))
  {
    match ctx
    case Top =>
    case Hole(s, up, x, c, sib) => ColoursPlug(up, Mk(s, t, x, c, sib));
  }

  lemma {:induction false} RedBlackPlug(ctx: Ctx, t: Shape)
    ensures RedBlack(Plug(ctx, t)) <==>
            Balanced(t) && NoRedRed(t) && CtxBalanced(ctx, BlackHeight(t)) && CtxColours(ctx, IsBlack(t))
  {
    BalancedPlug(ctx, t);
    ColoursPlug(ctx, t);
  }

  lemma {:induction false} NodesPlug(ctx: Ctx, t: Shape)
    ensures Nodes(Plug(ctx, t)) == CtxNodes(ctx) + Nodes(t)
  {
    match ctx
    case Top =>
    case Hole(s, up, x, c, sib) => NodesPlug(up, Mk(s, t, x, c, sib));
  }

  lemma {:induction false} NodesInOrder(t: Shape, n: RBNode)
    ensures n in InOrder(t) <==> n in Nodes(t)
  {
    match t
    case E =>
    case T(l, x, _, r) => NodesInOrder(l, n); NodesInOrder(r, n);
  }

  lemma {:induction false} PlugCompose(inner: Ctx, outer: Ctx, t: Shape)
    ensures Plug(Compose(inner, outer), t) == Plug(outer, Plug(inner, t))
  {
    match inner
    case Top =>
    case Hole(s, up, x, c, sib) => PlugCompose(up, outer, Mk(s, t, x, c, sib));
  }

  lemma {:induction false} CtxNodesCompose(inner: Ctx, outer: Ctx)
    ensures CtxNodes(Compose(inner, outer)) == CtxNodes(inner) + CtxNodes(outer)
  {
    match inner
    case Top =>
    case Hole(_, up, _, _, _) => CtxNodesCompose(up, outer);
  }

  ghost function Depth(ctx: Ctx): nat {
    if ctx.Top? then 0 else 1 + Depth(ctx.up)
  }

  /** The number of nodes on the longest way down. */
  ghost function Height(t: Shape): nat {
    match t
    case E => 0
    case T(l, _, _, r) => 1 + if Height(l) < Height(r) then Height(r) else Height(l)
  }

  lemma {:induction false} BlackHeightBounds(t: Shape)
    requires Balanced(t) && NoRedRed(t)
    ensures Pow2(BlackHeight(t)) <= |InOrder(t)| + 1
    ensures Height(t) <= 2 * BlackHeight(t) + if IsBlack(t) then 0 else 1
  {
    match t
    case E =>
    case T(l, _, _, r) => BlackHeightBounds(l); BlackHeightBounds(r);
  }

  /** A red-black tree of n nodes has at most 2 * log2(n + 1) levels. */
  lemma {:induction false} HeightBound(t: Shape)
    requires RedBlack(t)
    ensures Pow2(Height(t)) <= (|InOrder(t)| + 1) * (|InOrder(t)| + 1)
  {
    BlackHeightBounds(t);
    var b, n := BlackHeight(t), |InOrder(t)| + 1;
    PowMonotone(Height(t), b + b);
    PowAdd(b, b);
    SquareMonotone(Pow2(b), n);
  }

  lemma {:induction false} DepthBelowHeight(ctx: Ctx, t: Shape)
    ensures Depth(ctx) + Height(t) <= Height(Plug(ctx, t))
  {
    match ctx
    case Top =>
    case Hole(s, up, x, c, sib) => DepthBelowHeight(up, Mk(s, t, x, c, sib));
  }

  /** No walk down from the root of a red-black tree of n nodes takes more than
      2 * log2(n + 1) steps. */
  lemma {:induction false} WalkBound(ctx: Ctx, t: Shape)
    requires RedBlack(Plug(ctx, t))
    ensures var n := |InOrder(Plug(ctx, t))| + 1; Pow2(Depth(ctx)) <= n * n
  {
    DepthBelowHeight(ctx, t);
    PowMonotone(Depth(ctx), Height(Plug(ctx, t)));
    HeightBound(Plug(ctx, t));
  }

  lemma SquareMonotone(a: nat, b: nat)
    requires a <= b
    ensures a * a <= b * b
  {
    assert a * a <= a * b;
    assert a * b <= b * b;
  }

  // ----- the steps of the fix-up after an insertion -----

  /** While the fix-up climbs, t is red, is a proper red-black subtree, and would complete
      the tree if its top were black; ord is the in-order sequence throughout. */
  ghost predicate InsState(ctx: Ctx, t: Shape, ord: seq<RBNode>) {
    && t.T? && !t.black && NoRedRed(t) && Balanced(t)
    && CtxBalanced(ctx, BlackHeight(t)) && CtxColours(ctx, true)
    && InOrder(Plug(ctx, t)) == ord
  }

  /** t's parent p is red; u is the uncle, on the other side of the grandparent g. */
  ghost predicate InsDeep(ctx: Ctx, t: Shape, ord: seq<RBNode>) {
    InsState(ctx, t, ord) && ctx.Hole? && !ctx.black && ctx.up.Hole?
  }

  lemma {:induction false} InsOpen(ctx: Ctx, t: Shape, ord: seq<RBNode>)
    requires InsDeep(ctx, t, ord)
    ensures var (b, u) := (BlackHeight(t), ctx.up.sib);
            && IsBlack(ctx.sib) && NoRedRed(ctx.sib) && Balanced(ctx.sib) && BlackHeight(ctx.sib) == b
            && ctx.up.black && NoRedRed(u) && Balanced(u) && BlackHeight(u) == b
            && CtxBalanced(ctx.up.up, b + 1) && CtxColours(ctx.up.up, true)
    ensures InOrder(Plug(ctx.up.up, Mk(ctx.up.side, Mk(ctx.side, t, ctx.x, false, ctx.sib),
                                       ctx.up.x, true, ctx.up.sib))) == ord
  {
    assert Plug(ctx, t) == Plug(ctx.up, Mk(ctx.side, t, ctx.x, false, ctx.sib));
    assert CtxBalanced(ctx.up, BlackHeight(t)) && CtxColours(ctx.up, false);
  }

  /** How far the climb can still go. */
  ghost function InsMeasure(ctx: Ctx): nat {
    if ctx.Hole? && !ctx.black then 1 + Depth(ctx) else 0
  }

  lemma InsHasGrandparent(ctx: Ctx, t: Shape, ord: seq<RBNode>)
    requires InsState(ctx, t, ord) && ctx.Hole? && !ctx.black
    ensures InsDeep(ctx, t, ord) && ctx.up.black && InsMeasure(ctx.up.up) < InsMeasure(ctx)
  {
    assert CtxColours(ctx.up, false);
    assert Depth(ctx.up) == 1 + Depth(ctx.up.up);
  }

  lemma InsRecolour(ctx: Ctx, t: Shape, ord: seq<RBNode>)
    requires InsDeep(ctx, t, ord) && !IsBlack(ctx.up.sib)
    ensures var p := Mk(ctx.side, t, ctx.x, true, ctx.sib);
            InsState(ctx.up.up, Mk(ctx.up.side, p, ctx.up.x, false, Blacken(ctx.up.sib)), ord)
  {
    InsOpen(ctx, t, ord);
    var g, u := ctx.up, ctx.up.sib;
    var p := Mk(ctx.side, t, ctx.x, true, ctx.sib);
    var p0 := Mk(ctx.side, t, ctx.x, false, ctx.sib);
    assert InOrder(p) == InOrder(p0) && InOrder(u) == InOrder(Blacken(u));
    SameInOrder(g.up, Mk(g.side, p, g.x, false, Blacken(u)), Mk(g.side, p0, g.x, g.black, u));
  }

  /** The node is on the inner side: rotating the parent outwards makes the old parent the
      outer node. */
  lemma InsInner(ctx: Ctx, t: Shape, ord: seq<RBNode>)
    requires InsDeep(ctx, t, ord) && ctx.side == Other(ctx.up.side)
    ensures var s := ctx.up.side;
            var p := Mk(ctx.side, t, ctx.x, false, ctx.sib);
            var q := Mk(s, ctx.sib, ctx.x, false, Kid(s, t));
            && Rot(s, p) == Mk(s, q, t.x, false, Kid(Other(s), t))
            && InsDeep(Hole(s, ctx.up, t.x, false, Kid(Other(s), t)), q, ord)
  {
    InsOpen(ctx, t, ord);
    var s := ctx.up.side;
    var p := Mk(ctx.side, t, ctx.x, false, ctx.sib);
    RotInOrder(s, p);
    SameInOrder(ctx.up, p, Rot(s, p));
  }

  /** The node is on the outer side: the parent takes the grandparent's place. */
  lemma InsOuter(ctx: Ctx, t: Shape, ord: seq<RBNode>)
    requires InsDeep(ctx, t, ord) && ctx.side == ctx.up.side && IsBlack(ctx.up.sib)
    ensures var s := ctx.side;
            var g := Mk(s, Mk(s, t, ctx.x, true, ctx.sib), ctx.up.x, false, ctx.up.sib);
            var low := Mk(s, ctx.sib, ctx.up.x, false, ctx.up.sib);
            && Rot(Other(s), g) == Mk(s, t, ctx.x, true, low)
            && InsState(Hole(s, ctx.up.up, ctx.x, true, low), t, ord)
  {
    InsOpen(ctx, t, ord);
    var s := ctx.side;
    var g := Mk(s, Mk(s, t, ctx.x, true, ctx.sib), ctx.up.x, false, ctx.up.sib);
    var g0 := Mk(s, Mk(s, t, ctx.x, false, ctx.sib), ctx.up.x, ctx.up.black, ctx.up.sib);
    assert InOrder(g) == InOrder(g0);
    RotInOrder(Other(s), g);
    SameInOrder(ctx.up.up, g0, Rot(Other(s), g));
  }

  /** At the end the parent is black or there is none; the root is painted black. */
  lemma {:induction false} InsDone(ctx: Ctx, t: Shape, ord: seq<RBNode>)
    requires InsState(ctx, t, ord) && (ctx.Hole? ==> ctx.black)
    ensures RedBlack(Blacken(Plug(ctx, t))) && InOrder(Blacken(Plug(ctx, t))) == ord
    ensures ctx.Hole? ==> IsBlack(Plug(ctx, t))
    ensures Plug(ctx, t).T?
  {
    InOrderPlug(ctx, t);
    if ctx.Hole? {
      RedBlackPlug(ctx, t);
    }
  }

  /** A new red leaf in an empty hole. */
  lemma {:induction false} InsStart(ctx: Ctx, x: RBNode)
    requires RedBlack(Plug(ctx, E))
    ensures var (ord, pos) := (InOrder(Plug(ctx, E)), |Before(ctx)|);
            && pos <= |ord| && ord[..pos] == Before(ctx) && ord[pos..] == After(ctx)
            && InsState(ctx, T(E, x, false, E), Before(ctx) + [x] + After(ctx))
  {
    InOrderPlug(ctx, E);
    RedBlackPlug(ctx, E);
    InOrderPlug(ctx, T(E, x, false, E));
    assert InOrder(Plug(ctx, E)) == Before(ctx) + After(ctx);
  }

  // ----- the steps of the fix-up after a deletion -----

  /** While the fix-up climbs, t is one black node short of what the path around it needs. */
  ghost predicate DelState(ctx: Ctx, t: Shape, ord: seq<RBNode>) {
    && NoRedRed(Blacken(t)) && Balanced(t)
    && CtxBalanced(ctx, BlackHeight(t) + 1) && CtxColours(ctx, true)
    && InOrder(Plug(ctx, t)) == ord
  }

  /** The loop goes on while the top of t is black and is not the root. */
  ghost predicate DelDeep(ctx: Ctx, t: Shape, ord: seq<RBNode>) {
    DelState(ctx, t, ord) && IsBlack(t) && ctx.Hole?
  }

  ghost predicate DelDone(t: Shape, ord: seq<RBNode>) {
    RedBlack(t) && InOrder(t) == ord
  }

  /** How far the climb can still go. */
  ghost function DelMeasure(ctx: Ctx, t: Shape): nat {
    if IsBlack(t) then 1 + Depth(ctx) else 0
  }

  lemma {:induction false} DelOpen(ctx: Ctx, t: Shape, ord: seq<RBNode>)
    requires DelDeep(ctx, t, ord)
    ensures var (b, w) := (BlackHeight(t), ctx.sib);
            && NoRedRed(t) && w.T? && NoRedRed(w) && Balanced(w) && BlackHeight(w) == b + 1
            && (w.black || (ctx.black && w.l.T? && w.r.T? && w.l.black && w.r.black))
            && CtxBalanced(ctx.up, b + 1 + if ctx.black then 1 else 0) && CtxColours(ctx.up, ctx.black)
    ensures InOrder(Plug(ctx.up, Mk(ctx.side, t, ctx.x, ctx.black, ctx.sib))) == ord
  {
  }

  /** A red sibling w comes up; the hole gets a black sibling and a red parent. */
  lemma DelRedSibling(ctx: Ctx, t: Shape, ord: seq<RBNode>)
    requires DelDeep(ctx, t, ord) && !IsBlack(ctx.sib)
    ensures var (s, w) := (ctx.side, ctx.sib);
            var p := Mk(s, t, ctx.x, false, Blacken(w));
            var ctx' := Hole(s, Hole(s, ctx.up, w.x, true, Kid(Other(s), w)), ctx.x, false, Kid(s, w));
            && Rot(s, p) == Mk(s, Mk(s, t, ctx.x, false, Kid(s, w)), w.x, true, Kid(Other(s), w))
            && DelDeep(ctx', t, ord) && ctx'.sib.T? && ctx'.sib.black
  {
    DelOpen(ctx, t, ord);
    var s, w := ctx.side, ctx.sib;
    var p := Mk(s, t, ctx.x, false, Blacken(w));
    assert InOrder(p) == InOrder(Mk(s, t, ctx.x, ctx.black, w));
    RotInOrder(s, p);
    SameInOrder(ctx.up, Rot(s, p), Mk(s, t, ctx.x, ctx.black, w));
  }

  /** Both nephews black: the sibling turns red and the shortage moves up. */
  lemma DelBlackNephews(ctx: Ctx, t: Shape, ord: seq<RBNode>)
    requires DelDeep(ctx, t, ord) && ctx.sib.T? && ctx.sib.black && IsBlack(ctx.sib.l) && IsBlack(ctx.sib.r)
    ensures DelState(ctx.up, Mk(ctx.side, t, ctx.x, ctx.black, ctx.sib.(black := false)), ord)
  {
    DelOpen(ctx, t, ord);
    var p := Mk(ctx.side, t, ctx.x, ctx.black, ctx.sib);
    var p' := Mk(ctx.side, t, ctx.x, ctx.black, ctx.sib.(black := false));
    assert InOrder(p) == InOrder(p');
    SameInOrder(ctx.up, p, p');
  }

  /** Only the near nephew n red: it takes the sibling's place, the sibling becomes a red far
      nephew. */
  lemma DelNearNephew(ctx: Ctx, t: Shape, ord: seq<RBNode>)
    requires DelDeep(ctx, t, ord) && ctx.sib.T? && ctx.sib.black
    requires IsBlack(Kid(Other(ctx.side), ctx.sib)) && !IsBlack(Kid(ctx.side, ctx.sib))
    ensures var (s, w) := (ctx.side, ctx.sib);
            var n := Kid(s, w);
            var w' := Mk(s, Blacken(n), w.x, false, Kid(Other(s), w));
            && DelDeep(ctx.(sib := Rot(Other(s), w')), t, ord)
            && Rot(Other(s), w').black && !IsBlack(Kid(Other(s), Rot(Other(s), w')))
  {
    DelOpen(ctx, t, ord);
    var s, w := ctx.side, ctx.sib;
    var n := Kid(s, w);
    var w' := Mk(s, Blacken(n), w.x, false, Kid(Other(s), w));
    assert InOrder(w') == InOrder(w);
    RotInOrder(Other(s), w');
    SameInOrder(ctx.up, Mk(s, t, ctx.x, ctx.black, w), Mk(s, t, ctx.x, ctx.black, Rot(Other(s), w')));
  }

  /** Far nephew red: one rotation pays the shortage. */
  lemma DelFarNephew(ctx: Ctx, t: Shape, ord: seq<RBNode>)
    requires DelDeep(ctx, t, ord) && ctx.sib.T? && ctx.sib.black && !IsBlack(Kid(Other(ctx.side), ctx.sib))
    ensures var (s, w) := (ctx.side, ctx.sib);
            var p := Mk(s, t, ctx.x, true, Mk(s, Kid(s, w), w.x, ctx.black, Blacken(Kid(Other(s), w))));
            DelDone(Plug(ctx.up, Rot(s, p)), ord)
  {
    DelOpen(ctx, t, ord);
    var s, w := ctx.side, ctx.sib;
    var w' := Mk(s, Kid(s, w), w.x, ctx.black, Blacken(Kid(Other(s), w)));
    var p := Mk(s, t, ctx.x, true, w');
    var f := Kid(Other(s), w);
    var low := Mk(s, t, ctx.x, true, Kid(s, w));
    assert Rot(s, p) == Mk(s, low, w.x, ctx.black, Blacken(f));
    assert Balanced(Blacken(f)) && NoRedRed(Blacken(f)) && BlackHeight(Blacken(f)) == BlackHeight(t) + 1;
    assert Balanced(low) && NoRedRed(low) && BlackHeight(low) == BlackHeight(t) + 1;
    RedBlackPlug(ctx.up, Rot(s, p));
    assert InOrder(w') == InOrder(w) by { assert InOrder(Blacken(f)) == InOrder(f); }
    RotInOrder(s, p);
    SameInOrder(ctx.up, Mk(s, t, ctx.x, ctx.black, w), Rot(s, p));
  }

  /** At the root, or at a red node, painting the top black ends it. */
  lemma {:induction false} DelPaint(ctx: Ctx, t: Shape, ord: seq<RBNode>)
    requires DelState(ctx, t, ord) && (ctx.Top? || !IsBlack(t))
    ensures DelDone(Plug(ctx, Blacken(t)), ord)
  {
    RedBlackPlug(ctx, Blacken(t));
    assert InOrder(t) == InOrder(Blacken(t));
    SameInOrder(ctx, t, Blacken(t));
  }

  // ----- taking a node out -----

  /** s is old_ without the node at pos. */
  ghost predicate RemovedAt(pos: nat, node: RBNode, old_: seq<RBNode>, s: seq<RBNode>) {
    pos < |old_| && old_[pos] == node && s == old_[..pos] + old_[pos + 1..]
  }

  lemma Locate(outer: Ctx, t: Shape, node: RBNode) returns (ctx: Ctx, sub: Shape)
    requires node in Nodes(t)
    ensures Plug(ctx, sub) == Plug(outer, t) && sub.T? && sub.x == node
    decreases t
  {
    if t.x == node {
      return outer, t;
    } else if node in Nodes(t.l) {
      ctx, sub := Locate(Hole(L, outer, t.x, t.black, t.r), t.l, node);
    } else {
      ctx, sub := Locate(Hole(R, outer, t.x, t.black, t.l), t.r, node);
    }
  }

  /** Dropping x, which has at most one child, leaves that child in its place. */
  lemma DelStart(ctx: Ctx, t: Shape)
    requires t.T? && (t.l.E? || t.r.E?) && RedBlack(Plug(ctx, t))
    ensures var c := if t.l.E? then t.r else t.l;
            var ord' := Before(ctx) + InOrder(c) + After(ctx);
            if t.black then DelState(ctx, c, ord') else DelDone(Plug(ctx, c), ord')
  {
    var c := if t.l.E? then t.r else t.l;
    RedBlackPlug(ctx, t);
    InOrderPlug(ctx, c);
    if !t.black {
      assert c.E?;
      RedBlackPlug(ctx, c);
    }
  }

  /** The red-black conditions of a path do not depend on which node holds a place. */
  lemma {:induction false} Renamed(sp: Ctx, outer: Ctx, x: RBNode, h: int, b: bool)
    requires outer.Hole?
    ensures CtxBalanced(Compose(sp, outer.(x := x)), h) <==> CtxBalanced(Compose(sp, outer), h)
    ensures CtxColours(Compose(sp, outer.(x := x)), b) <==> CtxColours(Compose(sp, outer), b)
  {
    match sp
    case Top =>
    case Hole(_, up, _, c, _) => Renamed(up, outer, x, h + if c then 1 else 0, c);
  }

  lemma {:induction false} SidesCompose(sp: Ctx, outer: Ctx)
    ensures Before(Compose(sp, outer)) == Before(outer) + Before(sp)
    ensures After(Compose(sp, outer)) == After(sp) + After(outer)
  {
    match sp
    case Top =>
    case Hole(s, up, x, _, sib) => SidesCompose(up, outer);
  }

  /** The in-order sequence around the leftmost place below above.x's right child. */
  lemma {:induction false} SuccessorSides(above: Ctx, sp: Ctx, mid: seq<RBNode>)
    requires above.Hole? && above.side == R && Before(sp) == []
    ensures var ctx := Compose(sp, above);
            Before(ctx) + mid + After(ctx)
            == Before(above.up) + InOrder(above.sib) + [above.x] + (mid + After(sp)) + After(above.up)
  {
    SidesCompose(sp, above);
    Regroup(Before(above), mid, After(sp), After(above.up));
    assert Before(above) + [] == Before(above);
  }

  /** Taking out the leftmost node below above.x's right child and putting it in x's place. */
  lemma {:induction false} DelStartSuccessor(above: Ctx, sp: Ctx, t: Shape)
    requires above.Hole? && above.side == R && Before(sp) == []
    requires t.T? && t.l.E? && RedBlack(Plug(Compose(sp, above), t))
    ensures var ctx := Compose(sp, above.(x := t.x));
            var ord' := Before(above.up) + InOrder(above.sib) + [t.x] + (InOrder(t.r) + After(sp)) + After(above.up);
            if t.black then DelState(ctx, t.r, ord') else DelDone(Plug(ctx, t.r), ord')
  {
    var ctx := Compose(sp, above.(x := t.x));
    RedBlackPlug(Compose(sp, above), t);
    Renamed(sp, above, t.x, BlackHeight(t), t.black);
    RedBlackPlug(ctx, t);
    DelStart(ctx, t);
    SuccessorSides(above.(x := t.x), sp, InOrder(t.r));
  }

  lemma SuccessorSeq(a: seq<RBNode>, b: seq<RBNode>, x: RBNode, c: seq<RBNode>, d: seq<RBNode>)
    ensures a + b + [x] + c + d == a + (b + ([x] + c)) + d
  {
  }

  lemma {:induction false} SuccessorState(ctx: Ctx, t: Shape, sp: Ctx, tn: Shape)
    requires t.T? && RedBlack(Plug(ctx, t)) && t.r == Plug(sp, tn)
    requires tn.T? && tn.l.E? && Before(sp) == [] && InOrder(t.r) == [tn.x] + (InOrder(tn.r) + After(sp))
    ensures var ctx' := Compose(sp, Hole(R, ctx, tn.x, t.black, t.l));
            var ord := Before(ctx) + (InOrder(t.l) + InOrder(t.r)) + After(ctx);
            if tn.black then DelState(ctx', tn.r, ord) else DelDone(Plug(ctx', tn.r), ord)
  {
    var above := Hole(R, ctx, t.x, t.black, t.l);
    PlugCompose(sp, above, tn);
    DelStartSuccessor(above, sp, tn);
    SuccessorSeq(Before(ctx), InOrder(t.l), tn.x, InOrder(tn.r) + After(sp), After(ctx));
  }

  lemma TakenFrom(a: seq<RBNode>, l: seq<RBNode>, x: RBNode, r: seq<RBNode>, b: seq<RBNode>)
    ensures var (s, pos) := (a + (l + [x] + r) + b, |a| + |l|);
            RemovedAt(pos, x, s, a + (l + r) + b) && s[pos + 1..] == r + b
  {
    var s, pos := a + (l + [x] + r) + b, |a| + |l|;
    assert s == (a + l) + [x] + (r + b);
    assert s[..pos] == a + l;
    assert s[pos + 1..] == r + b;
    assert a + (l + r) + b == (a + l) + (r + b);
  }

  lemma {:induction false} NodeOrder(t: Shape)
    requires t.T?
    ensures InOrder(t) == InOrder(t.l) + [t.x] + InOrder(t.r)
  {
  }

  lemma {:induction false} RemovedHere(ctx: Ctx, t: Shape)
    requires t.T?
    ensures var (ord, pos) := (InOrder(Plug(ctx, t)), |Before(ctx)| + |InOrder(t.l)|);
            && RemovedAt(pos, t.x, ord, Before(ctx) + (InOrder(t.l) + InOrder(t.r)) + After(ctx))
            && ord[pos + 1..] == InOrder(t.r) + After(ctx)
  {
    hide Before, After, Plug, InOrder, RemovedAt;
    InOrderPlug(ctx, t);
    NodeOrder(t);
    TakenFrom(Before(ctx), InOrder(t.l), t.x, InOrder(t.r), After(ctx));
  }

  lemma JoinDistinct<A>(a: seq<A>, x: A, b: seq<A>)
    requires NoDup(a) && NoDup(b) && x !in a && x !in b && forall y | y in a :: y !in b
    ensures NoDup(a + [x] + b)
  {
    var s := a + [x] + b;
    forall i, j | 0 <= i < j < |s| ensures s[i] != s[j] {
      assert i < |a| ==> s[i] in a;
      assert |a| < j ==> s[j] in b;
    }
  }

  lemma {:induction false} DistinctOrder(t: Shape)
    requires Distinct(t)
    ensures NoDup(InOrder(t))
  {
    match t
    case E =>
    case T(l, x, _, r) =>
      DistinctOrder(l);
      DistinctOrder(r);
      NodesInOrder(l, x);
      NodesInOrder(r, x);
      forall y | y in InOrder(l) ensures y !in InOrder(r) {
        NodesInOrder(l, y);
        NodesInOrder(r, y);
      }
      JoinDistinct(InOrder(l), x, InOrder(r));
  }
}

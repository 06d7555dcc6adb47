/** Properties of the block trees themselves: what allocated blocks determine, how coalescing
    and splitting change the sets of blocks, and the free lists. */
module BuddyTrees {
  import opened Powers
  import opened BuddySpec

  // ----- allocated blocks determine a coalesced tree -----

  lemma {:induction false} NothingUsed(t: Tree, m: nat, o: nat)
    requires Fit(t, o) && Coalesced(t) && UsedAt(t, m, o) == {}
    ensures t.Free?
  {
    match t
    case Free =>
    case Used =>
    case Split(l, r) =>
      assert UsedAt(l, 2 * m, o - 1) <= UsedAt(t, m, o) && UsedAt(r, 2 * m + 1, o - 1) <= UsedAt(t, m, o);
      NothingUsed(l, 2 * m, o - 1);
      NothingUsed(r, 2 * m + 1, o - 1);
  }

  /** Which half an allocated block lies in shows in its address. */
  lemma UsedHalves(t: Tree, m: nat, o: nat)
    requires t.Split? && o > 0
    ensures UsedAt(t.l, 2 * m, o - 1) == set u | u in UsedAt(t, m, o) && u.0 < Addr(2 * m + 1, o - 1)
    ensures UsedAt(t.r, 2 * m + 1, o - 1) == set u | u in UsedAt(t, m, o) && u.0 >= Addr(2 * m + 1, o - 1)
  {
    forall u | u in UsedAt(t.l, 2 * m, o - 1) ensures u.0 < Addr(2 * m + 1, o - 1) {
      UsedRange(t.l, 2 * m, o - 1, u);
    }
    forall u | u in UsedAt(t.r, 2 * m + 1, o - 1) ensures u.0 >= Addr(2 * m + 1, o - 1) {
      UsedRange(t.r, 2 * m + 1, o - 1, u);
    }
  }

  /** Two coalesced trees with the same allocated blocks are the same tree: the free blocks do
      not depend on the order of allocations and releases. */
  lemma {:induction false} Canonical(t: Tree, t': Tree, m: nat, o: nat)
    requires Fit(t, o) && Coalesced(t) && Fit(t', o) && Coalesced(t') && UsedAt(t, m, o) == UsedAt(t', m, o)
    ensures t == t'
    decreases t
  {
    if t.Free? {
      NothingUsed(t', m, o);
    } else if t'.Free? {
      NothingUsed(t, m, o);
    } else if t.Used? || t'.Used? {
      var u := (Addr(m, o), o);
      assert u in UsedAt(t, m, o);
      if t.Split? { WholeNotInHalves(t, m, o); }
      if t'.Split? { WholeNotInHalves(t', m, o); }
    } else {
      UsedHalves(t, m, o);
      UsedHalves(t', m, o);
      Canonical(t.l, t'.l, 2 * m, o - 1);
      Canonical(t.r, t'.r, 2 * m + 1, o - 1);
    }
  }

  lemma {:induction false} WholeNotInHalves(t: Tree, m: nat, o: nat)
    requires t.Split?
    ensures (Addr(m, o), o) !in UsedAt(t, m, o)
  {
    var u := (Addr(m, o), o);
    if u in UsedAt(t, m, o) {
      if u in UsedAt(t.l, 2 * m, o - 1) {
        UsedRange(t.l, 2 * m, o - 1, u);
      } else {
        UsedRange(t.r, 2 * m + 1, o - 1, u);
      }
    }
  }

  ghost predicate Apart(u: (nat, nat), v: (nat, nat)) {
    u.0 + Pow2(u.1) <= v.0 || v.0 + Pow2(v.1) <= u.0
  }

  /** Free and allocated blocks together make up the whole root. */
  lemma {:induction false} Tiles(t: Tree, o: nat)
    requires Fit(t, o)
    ensures UsedPages(t, o) + FreePages(t, o) == Pow2(o)
  {
    if t.Split? {
      Tiles(t.l, o - 1);
      Tiles(t.r, o - 1);
    }
  }

  // ----- what plugging a block into a path does -----

  ghost predicate PathCoalesced(p: Path, whole: bool) {
    p.Top? || (!(whole && Sibling(p).Free?) && Coalesced(Sibling(p)) && PathCoalesced(p.up, false))
  }

  ghost predicate PathFit(p: Path, o: nat) {
    p.Top? || (Depth(p) <= o && Fit(Sibling(p), o - Depth(p)) && PathFit(p.up, o))
  }

  lemma {:induction false} CoalescedPlug(p: Path, t: Tree)
    ensures Coalesced(Plug(p, t)) <==> Coalesced(t) && PathCoalesced(p, t.Free?)
  {
    match p
    case Top =>
    case InL(up, r) => CoalescedPlug(up, Split(t, r));
    case InR(up, l) => CoalescedPlug(up, Split(l, t));
  }

  lemma {:induction false} FitPlug(p: Path, t: Tree, o: nat)
    ensures Fit(Plug(p, t), o) <==> Depth(p) <= o && Fit(t, o - Depth(p)) && PathFit(p, o)
  {
    match p
    case Top =>
    case InL(up, r) => FitPlug(up, Split(t, r), o);
    case InR(up, l) => FitPlug(up, Split(l, t), o);
  }

  ghost function PathUsed(p: Path, m: nat, o: nat): set<(nat, nat)> {
    match p
    case Top => {}
    case InL(up, r) => if Depth(p) <= o then UsedAt(r, 2 * Ix(up, m) + 1, o - Depth(p)) + PathUsed(up, m, o) else {}
    case InR(up, l) => if Depth(p) <= o then UsedAt(l, 2 * Ix(up, m), o - Depth(p)) + PathUsed(up, m, o) else {}
  }

  lemma {:induction false} UsedPlug(p: Path, t: Tree, m: nat, o: nat)
    requires Depth(p) <= o
    ensures UsedAt(Plug(p, t), m, o) == PathUsed(p, m, o) + UsedAt(t, Ix(p, m), o - Depth(p))
  {
    hide Addr, Pow2;
    match p
    case Top =>
    case InL(up, r) => UsedPlug(up, Split(t, r), m, o);
    case InR(up, l) => UsedPlug(up, Split(l, t), m, o);
  }

  ghost function PathPages(p: Path, o: nat): nat {
    if p.Top? || Depth(p) > o then 0 else UsedPages(Sibling(p), o - Depth(p)) + PathPages(p.up, o)
  }

  lemma {:induction false} PagesPlug(p: Path, t: Tree, o: nat)
    requires Depth(p) <= o
    ensures UsedPages(Plug(p, t), o) == PathPages(p, o) + UsedPages(t, o - Depth(p))
  {
    match p
    case Top =>
    case InL(up, r) => PagesPlug(up, Split(t, r), o);
    case InR(up, l) => PagesPlug(up, Split(l, t), o);
  }

  /** Blocks met along a path lie outside the block at its end. */
  lemma {:induction false} PathUsedOutside(p: Path, m: nat, o: nat, u: (nat, nat))
    requires Depth(p) <= o && u in PathUsed(p, m, o)
    ensures u.0 + Pow2(u.1) <= Addr(Ix(p, m), o - Depth(p)) || Addr(Ix(p, m) + 1, o - Depth(p)) <= u.0
  {
    var j, i := Ix(p.up, m), o - Depth(p);
    AddrKids(j, i + 1);
    var s := if p.InL? then 2 * j + 1 else 2 * j;
    if u in UsedAt(Sibling(p), s, i) {
      UsedRange(Sibling(p), s, i, u);
    } else {
      PathUsedOutside(p.up, m, o, u);
    }
  }

  lemma {:induction false} PathFreeOutside(p: Path, m: nat, o: nat, k: nat, a: nat)
    requires Depth(p) <= o && a in PathFree(p, m, o, k)
    ensures a + Pow2(k) <= Addr(Ix(p, m), o - Depth(p)) || Addr(Ix(p, m) + 1, o - Depth(p)) <= a
  {
    var j, i := Ix(p.up, m), o - Depth(p);
    AddrKids(j, i + 1);
    var s := if p.InL? then 2 * j + 1 else 2 * j;
    if a in FreeAt(Sibling(p), s, i, k) {
      FreeRange(Sibling(p), s, i, k, a);
    } else {
      PathFreeOutside(p.up, m, o, k, a);
    }
  }

  lemma {:induction false} HoleNotInPath(p: Path, m: nat, o: nat, k: nat)
    requires Depth(p) <= o
    ensures (Addr(Ix(p, m), o - Depth(p)), k) !in PathUsed(p, m, o)
    ensures Addr(Ix(p, m), o - Depth(p)) !in PathFree(p, m, o, k)
  {
    var a := Addr(Ix(p, m), o - Depth(p));
    AddrNext(Ix(p, m), o - Depth(p));
    if (a, k) in PathUsed(p, m, o) { PathUsedOutside(p, m, o, (a, k)); }
    if a in PathFree(p, m, o, k) { PathFreeOutside(p, m, o, k, a); }
  }

  // ----- allocating and releasing, as changes of the tree -----

  /** A free block split n times, its leftmost piece handed out. */
  ghost function Carve(n: nat): Tree {
    if n == 0 then Used else Split(Carve(n - 1), Free)
  }

  /** The tree after the block at the end of the path is released and merged with its buddies
      as far up as they are free. */
  ghost function Release(p: Path): Tree {
    if !p.Top? && Sibling(p).Free? then Release(p.up) else Plug(p, Free)
  }

  lemma {:induction false} CarveSets(n: nat, m: nat, o: nat)
    requires n <= o
    ensures Fit(Carve(n), o) && Coalesced(Carve(n)) && !Carve(n).Free?
    ensures UsedAt(Carve(n), m, o) == {(Addr(m, o), o - n)}
    ensures UsedPages(Carve(n), o) == Pow2(o - n)
  {
    if n > 0 {
      AddrKids(m, o);
      CarveSets(n - 1, 2 * m, o - 1);
    }
  }

  /** Allocating adds exactly one block and keeps the tree coalesced. */
  lemma {:induction false} AllocTree(p: Path, n: nat, m: nat, o: nat)
    requires Fit(Plug(p, Free), o) && Coalesced(Plug(p, Free)) && Depth(p) + n <= o
    ensures var (t, t', u) := (Plug(p, Free), Plug(p, Carve(n)), (Addr(Ix(p, m), o - Depth(p)), o - Depth(p) - n));
            && Fit(t', o) && Coalesced(t') && UsedAt(t', m, o) == UsedAt(t, m, o) + {u} && u !in UsedAt(t, m, o)
            && UsedPages(t', o) == UsedPages(t, o) + Pow2(o - Depth(p) - n)
  {
    var k := o - Depth(p);
    CarveSets(n, Ix(p, m), k);
    FitPlug(p, Free, o);
    FitPlug(p, Carve(n), o);
    CoalescedPlug(p, Free);
    CoalescedPlug(p, Carve(n));
    NotWhole(p);
    UsedPlug(p, Free, m, o);
    UsedPlug(p, Carve(n), m, o);
    PagesPlug(p, Free, o);
    PagesPlug(p, Carve(n), o);
    HoleNotInPath(p, m, o, k - n);
  }

  lemma {:induction false} NotWhole(p: Path)
    ensures PathCoalesced(p, true) ==> PathCoalesced(p, false)
  {
  }

  /** Releasing removes exactly that block and keeps the tree coalesced. */
  lemma {:induction false} ReleaseTree(p: Path, m: nat, o: nat)
    requires Fit(Plug(p, Used), o) && Coalesced(Plug(p, Used))
    ensures Depth(p) <= o
    ensures var (t, t', u) := (Plug(p, Used), Release(p), (Addr(Ix(p, m), o - Depth(p)), o - Depth(p)));
            && Fit(t', o) && Coalesced(t') && UsedAt(t', m, o) == UsedAt(t, m, o) - {u} && u in UsedAt(t, m, o)
            && UsedPages(t', o) + Pow2(o - Depth(p)) == UsedPages(t, o)
  {
    FitPlug(p, Used, o);
    CoalescedPlug(p, Used);
    UsedPlug(p, Used, m, o);
    PagesPlug(p, Used, o);
    HoleNotInPath(p, m, o, o - Depth(p));
    ReleaseShape(p, m, o);
  }

  lemma {:induction false} ReleaseShape(p: Path, m: nat, o: nat)
    requires PathFit(p, o) && Depth(p) <= o && PathCoalesced(p, false)
    ensures Fit(Release(p), o) && Coalesced(Release(p))
    ensures UsedAt(Release(p), m, o) == PathUsed(p, m, o) && UsedPages(Release(p), o) == PathPages(p, o)
  {
    if !p.Top? && Sibling(p).Free? {
      ReleaseShape(p.up, m, o);
    } else {
      FitPlug(p, Free, o);
      CoalescedPlug(p, Free);
      UsedPlug(p, Free, m, o);
      PagesPlug(p, Free, o);
    }
  }

  /** The path to the piece handed out. */
  ghost function Down(p: Path, n: nat): Path
    decreases n
  {
    if n == 0 then p else Down(InL(p, Free), n - 1)
  }

  lemma {:induction false} DownFacts(p: Path, n: nat)
    ensures Release(Down(p, n)) == Release(p) && Plug(Down(p, n), Used) == Plug(p, Carve(n))
    ensures Depth(Down(p, n)) == Depth(p) + n
    decreases n
  {
    if n > 0 {
      DownFacts(InL(p, Free), n - 1);
    }
  }
}

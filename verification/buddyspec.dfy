/** The blocks of the buddy allocator of kernel/mm/buddy.c as trees.  A block of order o with
    index m holds the 2^o pages from page m * 2^o on; its halves have the indices 2m and
    2m + 1.  What the allocator keeps about the blocks (page descriptors, one bit per pair of
    buddies, the free lists) is tied to the trees here. */
module BuddySpec {
  import opened Powers
  import opened Products

  const MAX_ORD: nat := 15 // mm_buddy_mxOrd

  datatype Tree = Free | Used | Split(l: Tree, r: Tree)

  /** A path from a block up to the root it was split from, with the buddies passed. */
  datatype Path = Top | InL(up: Path, r: Tree) | InR(up: Path, l: Tree)

  /** The attribute bits that matter to the page allocators. */
  datatype Attr = Attr(head: bool, alloc: bool, mmu: bool, shared: bool)

  /** struct mm_Page without its list links. */
  datatype Page = Page(buddyId: nat, ord: nat, attr: Attr)

  const FREE_ATTR := Attr(true, false, false, false)

  /** The first page of the block (m, o). */
  function Addr(m: nat, o: nat): nat { m * Pow2(o) }

  lemma {:induction false} AddrNext(m: nat, o: nat)
    ensures Addr(m + 1, o) == Addr(m, o) + Pow2(o)
  {
  }

  lemma AddrKids(m: nat, o: nat)
    requires o > 0
    ensures Addr(2 * m, o - 1) == Addr(m, o)
    ensures Addr(2 * m + 1, o - 1) == Addr(m, o) + Pow2(o - 1)
    ensures Addr(2 * m + 2, o - 1) == Addr(m + 1, o) == Addr(m, o) + Pow2(o) && Pow2(o) == Pow2(o - 1) + Pow2(o - 1)
  {
    assert m * (2 * Pow2(o - 1)) == 2 * m * Pow2(o - 1);
  }

  lemma {:induction false} AddrMonotone(m: nat, m': nat, o: nat)
    requires m < m'
    ensures Addr(m, o) + Pow2(o) <= Addr(m', o)
  {
    MulMonotone(m + 1, m', Pow2(o));
  }

  /** Shifting the address of a block right gives its index, or that of its parent. */
  lemma {:induction false} ShiftAddr(m: nat, o: nat)
    ensures Shift(Addr(m, o), o) == m && Shift(Addr(m, o), o + 1) == m / 2
    decreases o
  {
    if o > 0 {
      AddrHalf(m, o);
      ShiftAddr(m, o - 1);
    }
  }

  lemma AddrHalf(m: nat, o: nat)
    requires o > 0
    ensures Addr(m, o) % 2 == 0 && Addr(m, o) / 2 == Addr(m, o - 1)
  {
    assert m * (2 * Pow2(o - 1)) == 2 * (m * Pow2(o - 1));
  }

  // ----- paths -----

  ghost function Plug(p: Path, t: Tree): Tree {
    match p
    case Top => t
    case InL(up, r) => Plug(up, Split(t, r))
    case InR(up, l) => Plug(up, Split(l, t))
  }

  ghost function Depth(p: Path): nat { if p.Top? then 0 else 1 + Depth(p.up) }

  /** The index of the block at the end of the path, below a root with index m. */
  ghost function Ix(p: Path, m: nat): nat {
    match p
    case Top => m
    case InL(up, _) => 2 * Ix(up, m)
    case InR(up, _) => 2 * Ix(up, m) + 1
  }

  /** Its heap number: mm_buddy_lson and mm_buddy_rson down from 1. */
  ghost function Id(p: Path): nat {
    match p
    case Top => 1
    case InL(up, _) => 2 * Id(up)
    case InR(up, _) => 2 * Id(up) + 1
  }

  ghost function Sibling(p: Path): Tree
    requires !p.Top?
  {
    if p.InL? then p.r else p.l
  }

  // ----- what a tree says -----

  /** Splitting stops at single pages. */
  ghost predicate Fit(t: Tree, o: nat) {
    t.Split? ==> o > 0 && Fit(t.l, o - 1) && Fit(t.r, o - 1)
  }

  /** No two buddies are both free. */
  ghost predicate Coalesced(t: Tree) {
    t.Split? ==> !(t.l.Free? && t.r.Free?) && Coalesced(t.l) && Coalesced(t.r)
  }

  /** First pages of the free blocks of order k. */
  ghost function FreeAt(t: Tree, m: nat, o: nat, k: nat): set<nat> {
    match t
    case Free => if o == k then {Addr(m, o)} else {}
    case Used => {}
    case Split(l, r) => if o == 0 then {} else FreeAt(l, 2 * m, o - 1, k) + FreeAt(r, 2 * m + 1, o - 1, k)
  }

  /** First page and order of every allocated block. */
  ghost function UsedAt(t: Tree, m: nat, o: nat): set<(nat, nat)> {
    match t
    case Free => {}
    case Used => {(Addr(m, o), o)}
    case Split(l, r) => if o == 0 then {} else UsedAt(l, 2 * m, o - 1) + UsedAt(r, 2 * m + 1, o - 1)
  }

  /** The number of pages in allocated blocks. */
  ghost function UsedPages(t: Tree, o: nat): nat {
    match t
    case Free => 0
    case Used => Pow2(o)
    case Split(l, r) => if o == 0 then 0 else UsedPages(l, o - 1) + UsedPages(r, o - 1)
  }

  ghost function FreePages(t: Tree, o: nat): nat {
    match t
    case Free => Pow2(o)
    case Used => 0
    case Split(l, r) => if o == 0 then 0 else FreePages(l, o - 1) + FreePages(r, o - 1)
  }

  /** The descriptor of the first page of every block gives its heap number and order, and
      whether it is allocated. */
  ghost predicate Heads(t: Tree, m: nat, o: nat, id: nat, d: seq<Page>) {
    match t
    case Free => Addr(m, o) < |d| && d[Addr(m, o)] == Page(id, o, FREE_ATTR)
    case Used =>
      Addr(m, o) < |d| && var pg := d[Addr(m, o)]; pg.buddyId == id && pg.ord == o && pg.attr.head && pg.attr.alloc
    case Split(l, r) =>
      o > 0 && Heads(l, 2 * m, o - 1, 2 * id, d) && Heads(r, 2 * m + 1, o - 1, 2 * id + 1, d)
  }

  /** bits[o][m] is the bit of the two halves of the block (m, o). */
  ghost predicate Bit(bits: seq<seq<bool>>, o: nat, m: nat) {
    o < |bits| && m < |bits[o]| && bits[o][m]
  }

  ghost predicate Clear(m: nat, o: nat, bits: seq<seq<bool>>)
    decreases o
  {
    o > 0 ==> !Bit(bits, o, m) && Clear(2 * m, o - 1, bits) && Clear(2 * m + 1, o - 1, bits)
  }

  /** The bit of a pair is set exactly when one of the two is a whole free block. */
  ghost predicate PairBits(t: Tree, m: nat, o: nat, bits: seq<seq<bool>>) {
    if t.Split? then
      o > 0 && Bit(bits, o, m) == (t.l.Free? != t.r.Free?) &&
      PairBits(t.l, 2 * m, o - 1, bits) && PairBits(t.r, 2 * m + 1, o - 1, bits)
    else Clear(m, o, bits)
  }

  // ----- the same along a path -----

  ghost predicate PathHeads(p: Path, m: nat, o: nat, d: seq<Page>) {
    match p
    case Top => true
    case InL(up, r) =>
      Depth(p) <= o && Heads(r, 2 * Ix(up, m) + 1, o - Depth(p), 2 * Id(up) + 1, d) && PathHeads(up, m, o, d)
    case InR(up, l) => Depth(p) <= o && Heads(l, 2 * Ix(up, m), o - Depth(p), 2 * Id(up), d) && PathHeads(up, m, o, d)
  }

  /** The pair bits outside the block at the end of the path, which counts as whole and free or
      not as whole says. */
  ghost predicate PathBits(p: Path, m: nat, o: nat, bits: seq<seq<bool>>, whole: bool) {
    match p
    case Top => true
    case InL(up, r) =>
      Depth(p) <= o && Bit(bits, o - Depth(up), Ix(up, m)) == (whole != r.Free?) &&
      PairBits(r, 2 * Ix(up, m) + 1, o - Depth(p), bits) && PathBits(up, m, o, bits, false)
    case InR(up, l) =>
      Depth(p) <= o && Bit(bits, o - Depth(up), Ix(up, m)) == (l.Free? != whole) &&
      PairBits(l, 2 * Ix(up, m), o - Depth(p), bits) && PathBits(up, m, o, bits, false)
  }

  ghost function PathFree(p: Path, m: nat, o: nat, k: nat): set<nat> {
    match p
    case Top => {}
    case InL(up, r) =>
      if Depth(p) <= o then FreeAt(r, 2 * Ix(up, m) + 1, o - Depth(p), k) + PathFree(up, m, o, k) else {}
    case InR(up, l) => if Depth(p) <= o then FreeAt(l, 2 * Ix(up, m), o - Depth(p), k) + PathFree(up, m, o, k) else {}
  }

  // ----- plugging -----

  lemma {:induction false} HeadsPlug(p: Path, t: Tree, m: nat, o: nat, d: seq<Page>)
    ensures Heads(Plug(p, t), m, o, 1, d) <==>
            Depth(p) <= o && Heads(t, Ix(p, m), o - Depth(p), Id(p), d) && PathHeads(p, m, o, d)
  {
    hide Addr, Pow2;
    match p
    case Top =>
    case InL(up, r) => HeadsPlug(up, Split(t, r), m, o, d);
    case InR(up, l) => HeadsPlug(up, Split(l, t), m, o, d);
  }

  lemma {:induction false} BitsPlug(p: Path, t: Tree, m: nat, o: nat, bits: seq<seq<bool>>)
    ensures PairBits(Plug(p, t), m, o, bits) <==>
            Depth(p) <= o && PairBits(t, Ix(p, m), o - Depth(p), bits) && PathBits(p, m, o, bits, t.Free?)
  {
    hide Addr, Pow2;
    match p
    case Top =>
    case InL(up, r) => BitsPlug(up, Split(t, r), m, o, bits);
    case InR(up, l) => BitsPlug(up, Split(l, t), m, o, bits);
  }

  lemma {:induction false} FreePlug(p: Path, t: Tree, m: nat, o: nat, k: nat)
    requires Fit(Plug(p, t), o)
    ensures Depth(p) <= o && Fit(t, o - Depth(p))
    ensures FreeAt(Plug(p, t), m, o, k) == PathFree(p, m, o, k) + FreeAt(t, Ix(p, m), o - Depth(p), k)
  {
    hide FreeAt, PathFree, Addr, Pow2;
    match p
    case Top => TopFree(m, o, k);
    case InL(up, r) =>
      FreePlug(up, Split(t, r), m, o, k);
      LeftFree(up, t, r, m, o, k);
    case InR(up, l) =>
      FreePlug(up, Split(l, t), m, o, k);
      RightFree(up, l, t, m, o, k);
  }

  lemma {:induction false} TopFree(m: nat, o: nat, k: nat)
    ensures PathFree(Top, m, o, k) == {}
  {
  }

  lemma {:induction false} KidsFree(l: Tree, r: Tree, m: nat, o: nat, k: nat)
    requires o > 0
    ensures FreeAt(Split(l, r), m, o, k) == FreeAt(l, 2 * m, o - 1, k) + FreeAt(r, 2 * m + 1, o - 1, k)
  {
  }

  lemma {:induction false} LeftFree(up: Path, t: Tree, r: Tree, m: nat, o: nat, k: nat)
    requires Depth(up) < o
    ensures PathFree(up, m, o, k) + FreeAt(Split(t, r), Ix(up, m), o - Depth(up), k)
            == PathFree(InL(up, r), m, o, k) + FreeAt(t, 2 * Ix(up, m), o - Depth(up) - 1, k)
  {
    hide FreeAt;
    KidsFree(t, r, Ix(up, m), o - Depth(up), k);
  }

  lemma {:induction false} RightFree(up: Path, l: Tree, t: Tree, m: nat, o: nat, k: nat)
    requires Depth(up) < o
    ensures PathFree(up, m, o, k) + FreeAt(Split(l, t), Ix(up, m), o - Depth(up), k)
            == PathFree(InR(up, l), m, o, k) + FreeAt(t, 2 * Ix(up, m) + 1, o - Depth(up) - 1, k)
  {
    hide FreeAt;
    KidsFree(l, t, Ix(up, m), o - Depth(up), k);
  }

  // ----- frames -----

  lemma {:induction false} FreeRange(t: Tree, m: nat, o: nat, k: nat, a: nat)
    requires a in FreeAt(t, m, o, k)
    ensures k <= o && Addr(m, o) <= a && a + Pow2(k) <= Addr(m + 1, o)
  {
    AddrNext(m, o);
    if t.Split? && o > 0 {
      AddrKids(m, o);
      if a in FreeAt(t.l, 2 * m, o - 1, k) {
        FreeRange(t.l, 2 * m, o - 1, k, a);
      } else {
        FreeRange(t.r, 2 * m + 1, o - 1, k, a);
      }
    }
  }

  lemma {:induction false} UsedRange(t: Tree, m: nat, o: nat, u: (nat, nat))
    requires u in UsedAt(t, m, o)
    ensures u.1 <= o && Addr(m, o) <= u.0 && u.0 + Pow2(u.1) <= Addr(m + 1, o)
  {
    AddrNext(m, o);
    if t.Split? && o > 0 {
      AddrKids(m, o);
      if u in UsedAt(t.l, 2 * m, o - 1) {
        UsedRange(t.l, 2 * m, o - 1, u);
      } else {
        UsedRange(t.r, 2 * m + 1, o - 1, u);
      }
    }
  }

  /** Descriptors inside [Addr(m, o), Addr(m + 1, o)) are the same. */
  ghost predicate SamePages(d: seq<Page>, d': seq<Page>, m: nat, o: nat) {
    |d| == |d'| && forall a | Addr(m, o) <= a < Addr(m + 1, o) && a < |d| :: d'[a] == d[a]
  }

  /** Descriptors outside that range are the same. */
  ghost predicate SamePagesBut(d: seq<Page>, d': seq<Page>, m: nat, o: nat) {
    |d| == |d'| && forall a | 0 <= a < |d| && !(Addr(m, o) <= a < Addr(m + 1, o)) :: d'[a] == d[a]
  }

  lemma {:induction false} HeadsFrame(t: Tree, m: nat, o: nat, id: nat, d: seq<Page>, d': seq<Page>)
    requires Heads(t, m, o, id, d) && SamePages(d, d', m, o)
    ensures Heads(t, m, o, id, d')
  {
    AddrNext(m, o);
    if t.Split? {
      AddrKids(m, o);
      HeadsFrame(t.l, 2 * m, o - 1, 2 * id, d, d');
      HeadsFrame(t.r, 2 * m + 1, o - 1, 2 * id + 1, d, d');
    }
  }

  lemma {:induction false} PathHeadsFrame(p: Path, m: nat, o: nat, d: seq<Page>, d': seq<Page>)
    requires PathHeads(p, m, o, d) && Depth(p) <= o && SamePagesBut(d, d', Ix(p, m), o - Depth(p))
    ensures PathHeads(p, m, o, d')
  {
    hide Addr, Pow2;
    if !p.Top? {
      var j, k := Ix(p.up, m), o - Depth(p.up);
      AddrKids(j, k);
      AddrNext(2 * j, k - 1);
      PathHeadsFrame(p.up, m, o, d, d');
      if p.InL? {
        HeadsFrame(p.r, 2 * j + 1, k - 1, 2 * Id(p.up) + 1, d, d');
      } else {
        HeadsFrame(p.l, 2 * j, k - 1, 2 * Id(p.up), d, d');
      }
    }
  }

  /** The block (m1, o1) lies within the block (m, o). */
  ghost predicate Within(m1: nat, o1: nat, m: nat, o: nat) {
    o1 <= o && Addr(m, o) <= Addr(m1, o1) && Addr(m1 + 1, o1) <= Addr(m + 1, o)
  }

  /** Only the bit of the pair (m1, o1) may differ. */
  ghost predicate SameBitsBut(bits: seq<seq<bool>>, bits': seq<seq<bool>>, m1: nat, o1: nat) {
    forall o, m | o != o1 || m != m1 :: Bit(bits', o, m) == Bit(bits, o, m)
  }

  lemma {:induction false} ClearFrame(m: nat, o: nat, bits: seq<seq<bool>>, bits': seq<seq<bool>>, m1: nat, o1: nat)
    requires Clear(m, o, bits) && SameBitsBut(bits, bits', m1, o1) && !Within(m1, o1, m, o)
    ensures Clear(m, o, bits')
    decreases o
  {
    if o > 0 {
      AddrKids(m, o);
      ClearFrame(2 * m, o - 1, bits, bits', m1, o1);
      ClearFrame(2 * m + 1, o - 1, bits, bits', m1, o1);
    }
  }

  lemma {:induction false} BitsFrame(t: Tree, m: nat, o: nat, bits: seq<seq<bool>>, bits': seq<seq<bool>>, m1: nat,
                                     o1: nat)
    requires PairBits(t, m, o, bits) && SameBitsBut(bits, bits', m1, o1) && !Within(m1, o1, m, o)
    ensures PairBits(t, m, o, bits')
  {
    if t.Split? {
      AddrKids(m, o);
      BitsFrame(t.l, 2 * m, o - 1, bits, bits', m1, o1);
      BitsFrame(t.r, 2 * m + 1, o - 1, bits, bits', m1, o1);
    } else {
      ClearFrame(m, o, bits, bits', m1, o1);
    }
  }

  /** A changed bit inside the block at the end of the path does not show along the path. */
  lemma {:induction false} PathBitsFrame(p: Path, m: nat, o: nat, bits: seq<seq<bool>>, bits': seq<seq<bool>>,
                                         whole: bool, m1: nat, o1: nat)
    requires PathBits(p, m, o, bits, whole) && SameBitsBut(bits, bits', m1, o1)
    requires Depth(p) <= o && Within(m1, o1, Ix(p, m), o - Depth(p))
    ensures PathBits(p, m, o, bits', whole)
  {
    hide Addr, Pow2;
    if !p.Top? {
      var j, k := Ix(p.up, m), o - Depth(p.up);
      AddrKids(j, k);
      AddrNext(2 * j, k - 1);
      AddrNext(m1, o1);
      PathBitsFrame(p.up, m, o, bits, bits', false, m1, o1);
      if p.InL? {
        BitsFrame(p.r, 2 * j + 1, k - 1, bits, bits', m1, o1);
      } else {
        BitsFrame(p.l, 2 * j, k - 1, bits, bits', m1, o1);
      }
    }
  }

  // ----- the page arithmetic of the C code -----

  ghost predicate InRange(bits: seq<seq<bool>>, o: nat, m: nat) { o < |bits| && m < |bits[o]| }

  function Flip(bits: seq<seq<bool>>, o: nat, m: nat): (r: seq<seq<bool>>)
    ensures |r| == |bits| && forall k | 0 <= k < |bits| :: |r[k]| == |bits[k]|
    ensures SameBitsBut(bits, r, m, o) && (InRange(bits, o, m) ==> Bit(r, o, m) == !Bit(bits, o, m))
  {
    if o < |bits| && m < |bits[o]| then bits[o := bits[o][m := !bits[o][m]]] else bits
  }

  /** There is a bit for every pair of blocks below page n: mm_buddy_init sizes the maps so. */
  ghost predicate BigEnough(bits: seq<seq<bool>>, n: nat) {
    |bits| == MAX_ORD + 1 && forall o | 0 <= o < |bits| :: n <= Addr(|bits[o]|, o)
  }

  lemma BitInRange(bits: seq<seq<bool>>, n: nat, o: nat, m: nat)
    requires BigEnough(bits, n) && o <= MAX_ORD && Addr(m + 1, o) <= n
    ensures m < |bits[o]|
  {
    if |bits[o]| <= m {
      AddrNext(m, o);
      if |bits[o]| < m { AddrMonotone(|bits[o]|, m, o); }
      assert false;
    }
  }

  lemma {:induction false} IdBounds(p: Path)
    ensures Pow2(Depth(p)) <= Id(p) < Pow2(Depth(p) + 1)
    ensures Id(p) == 1 <==> p.Top?
    ensures !p.Top? ==> Id(p) / 2 == Id(p.up) && (Id(p) % 2 == 1 <==> p.InR?)
  {
    if !p.Top? {
      IdBounds(p.up);
    }
  }

  /** The block at the end of a path lies within the root. */
  lemma {:induction false} PathWithin(p: Path, m: nat, o: nat)
    requires Depth(p) <= o
    ensures Within(Ix(p, m), o - Depth(p), m, o)
  {
    if !p.Top? {
      PathWithin(p.up, m, o);
      AddrKids(Ix(p.up, m), o - Depth(p.up));
      AddrNext(Ix(p, m), o - Depth(p));
    }
  }

  // ----- steps -----

  /** The allocator holds the block at the end of the path: it is on no list and is not counted
      as free in the bit of its pair. */
  ghost predicate InHand(p: Path, m: nat, o: nat, d: seq<Page>, bits: seq<seq<bool>>) {
    && Depth(p) <= o && PathHeads(p, m, o, d) && PathBits(p, m, o, bits, false)
    && Clear(Ix(p, m), o - Depth(p), bits)
    && Addr(Ix(p, m), o - Depth(p)) < |d|
    && d[Addr(Ix(p, m), o - Depth(p))] == Page(Id(p), o - Depth(p), FREE_ATTR)
  }

  ghost predicate RootOk(t: Tree, m: nat, o: nat, d: seq<Page>, bits: seq<seq<bool>>) {
    Heads(t, m, o, 1, d) && PairBits(t, m, o, bits)
  }

  /** _revBit on a block: nothing for a root, otherwise the bit of its pair flips. */
  ghost function RevBit(p: Path, m: nat, o: nat, bits: seq<seq<bool>>): (r: seq<seq<bool>>)
  {
    if p.Top? || Depth(p) > o then bits else Flip(bits, o - Depth(p.up), Ix(p.up, m))
  }

  /** Flipping the bit of a block's pair counts it as free or not free, the other way round. */
  lemma RevBitPath(p: Path, m: nat, o: nat, bits: seq<seq<bool>>, whole: bool)
    requires Depth(p) <= o && (!p.Top? ==> InRange(bits, o - Depth(p.up), Ix(p.up, m)))
    requires PathBits(p, m, o, bits, whole)
    requires Clear(Ix(p, m), o - Depth(p), bits)
    ensures PathBits(p, m, o, RevBit(p, m, o, bits), !whole)
    ensures Clear(Ix(p, m), o - Depth(p), RevBit(p, m, o, bits))
  {
    if !p.Top? {
      var bits' := RevBit(p, m, o, bits);
      var j, k := Ix(p.up, m), o - Depth(p.up);
      AddrKids(j, k);
      AddrNext(j, k);
      PathBitsFrame(p.up, m, o, bits, bits', false, j, k);
      ClearFrame(Ix(p, m), k - 1, bits, bits', j, k);
      if p.InL? {
        BitsFrame(p.r, 2 * j + 1, k - 1, bits, bits', j, k);
      } else {
        BitsFrame(p.l, 2 * j, k - 1, bits, bits', j, k);
      }
    }
  }

  /** Taking a free block off its list. */
  lemma {:induction false} TakeStep(p: Path, m: nat, o: nat, d: seq<Page>, bits: seq<seq<bool>>)
    requires RootOk(Plug(p, Free), m, o, d, bits) && BigEnough(bits, Addr(m + 1, o)) && o <= MAX_ORD
    ensures Depth(p) <= o && (!p.Top? ==> InRange(bits, o - Depth(p.up), Ix(p.up, m)))
    ensures InHand(p, m, o, d, RevBit(p, m, o, bits))
  {
    HeadsPlug(p, Free, m, o, d);
    BitsPlug(p, Free, m, o, bits);
    UpInRange(p, m, o, bits);
    RevBitPath(p, m, o, bits, true);
  }

  lemma {:induction false} UpInRange(p: Path, m: nat, o: nat, bits: seq<seq<bool>>)
    requires BigEnough(bits, Addr(m + 1, o)) && o <= MAX_ORD && Depth(p) <= o
    ensures !p.Top? ==> InRange(bits, o - Depth(p.up), Ix(p.up, m))
  {
    if !p.Top? {
      PathWithin(p.up, m, o);
      BitInRange(bits, Addr(m + 1, o), o - Depth(p.up), Ix(p.up, m));
    }
  }

  /** mm_divPageGrp on the descriptor at a. */
  function DivPages(d: seq<Page>, a: nat): (r: seq<Page>)
    ensures |r| == |d|
  {
    if a >= |d| || d[a].ord == 0 || a + Pow2(d[a].ord - 1) >= |d| then d else
    var o := d[a].ord - 1;
    d[a := Page(2 * d[a].buddyId, o, d[a].attr)][a + Pow2(o) := Page(2 * d[a].buddyId + 1, o, d[a].attr)]
  }

  /** Splitting the block in hand: its right half becomes a free block. */
  lemma {:induction false} SplitStep(p: Path, m: nat, o: nat, d: seq<Page>, bits: seq<seq<bool>>)
    requires InHand(p, m, o, d, bits) && Depth(p) < o
    requires BigEnough(bits, Addr(m + 1, o)) && o <= MAX_ORD && Addr(m + 1, o) <= |d|
    ensures var (q, a) := (InL(p, Free), Addr(Ix(p, m), o - Depth(p)));
            && d[a].ord == o - Depth(p) && a + Pow2(o - Depth(p) - 1) < |d|
            && InRange(bits, o - Depth(p), Ix(p, m))
            && InHand(q, m, o, DivPages(d, a), RevBit(q, m, o, bits))
  {
    var q, j, k := InL(p, Free), Ix(p, m), o - Depth(p);
    AddrKids(j, k);
    PathWithin(p, m, o);
    UpInRange(q, m, o, bits);
    SplitHeads(p, m, o, d);
    SplitBits(p, m, o, bits, RevBit(q, m, o, bits));
  }

  lemma {:induction false} SplitHeads(p: Path, m: nat, o: nat, d: seq<Page>)
    requires Depth(p) < o && PathHeads(p, m, o, d) && Addr(m + 1, o) <= |d|
    requires Addr(Ix(p, m), o - Depth(p)) < |d|
    requires d[Addr(Ix(p, m), o - Depth(p))] == Page(Id(p), o - Depth(p), FREE_ATTR)
    ensures var (q, a) := (InL(p, Free), Addr(Ix(p, m), o - Depth(p)));
            && a + Pow2(o - Depth(p) - 1) < |d|
            && PathHeads(q, m, o, DivPages(d, a)) && a == Addr(Ix(q, m), o - Depth(q))
            && DivPages(d, a)[a] == Page(Id(q), o - Depth(q), FREE_ATTR)
  {
    hide Addr, Pow2;
    var j, k := Ix(p, m), o - Depth(p);
    AddrKids(j, k);
    PathWithin(p, m, o);
    PathHeadsFrame(p, m, o, d, DivPages(d, Addr(j, k)));
  }

  lemma {:induction false} SplitBits(p: Path, m: nat, o: nat, bits: seq<seq<bool>>, bits': seq<seq<bool>>)
    requires Depth(p) < o && PathBits(p, m, o, bits, false) && Clear(Ix(p, m), o - Depth(p), bits)
    requires SameBitsBut(bits, bits', Ix(p, m), o - Depth(p)) && Bit(bits', o - Depth(p), Ix(p, m))
    ensures PathBits(InL(p, Free), m, o, bits', false) && Clear(2 * Ix(p, m), o - Depth(p) - 1, bits')
  {
    var j, k := Ix(p, m), o - Depth(p);
    AddrKids(j, k);
    AddrNext(j, k);
    PathBitsFrame(p, m, o, bits, bits', false, j, k);
    ClearFrame(2 * j, k - 1, bits, bits', j, k);
    ClearFrame(2 * j + 1, k - 1, bits, bits', j, k);
  }

  /** Handing out the block in hand. */
  lemma {:induction false} HandOut(p: Path, m: nat, o: nat, d: seq<Page>, bits: seq<seq<bool>>, attr: Attr)
    requires InHand(p, m, o, d, bits) && attr.head && attr.alloc
    ensures var a := Addr(Ix(p, m), o - Depth(p));
            RootOk(Plug(p, Used), m, o, d[a := d[a].(attr := attr)], bits)
  {
    var a := Addr(Ix(p, m), o - Depth(p));
    var d' := d[a := d[a].(attr := attr)];
    AddrNext(Ix(p, m), o - Depth(p));
    PathHeadsFrame(p, m, o, d, d');
    HeadsPlug(p, Used, m, o, d');
    BitsPlug(p, Used, m, o, bits);
  }

  /** Taking an allocated block back into the hand. */
  lemma {:induction false} TakeBack(p: Path, m: nat, o: nat, d: seq<Page>, bits: seq<seq<bool>>)
    requires RootOk(Plug(p, Used), m, o, d, bits)
    ensures Depth(p) <= o && Addr(Ix(p, m), o - Depth(p)) < |d|
    ensures var a := Addr(Ix(p, m), o - Depth(p));
            && d[a].buddyId == Id(p) && d[a].ord == o - Depth(p) && d[a].attr.head && d[a].attr.alloc
            && InHand(p, m, o, d[a := d[a].(attr := FREE_ATTR)], bits)
  {
    HeadsPlug(p, Used, m, o, d);
    BitsPlug(p, Used, m, o, bits);
    var a := Addr(Ix(p, m), o - Depth(p));
    AddrNext(Ix(p, m), o - Depth(p));
    PathHeadsFrame(p, m, o, d, d[a := d[a].(attr := FREE_ATTR)]);
  }

  /** Putting the block in hand back as a free block, once its bit is flipped: at a root, or
      when the bit says that the buddy is not free. */
  lemma {:induction false} PutBack(p: Path, m: nat, o: nat, d: seq<Page>, bits: seq<seq<bool>>)
    requires InHand(p, m, o, d, bits) && BigEnough(bits, Addr(m + 1, o)) && o <= MAX_ORD
    requires !p.Top? ==> !Sibling(p).Free?
    ensures !p.Top? ==> InRange(bits, o - Depth(p.up), Ix(p.up, m))
    ensures RootOk(Plug(p, Free), m, o, d, RevBit(p, m, o, bits))
  {
    UpInRange(p, m, o, bits);
    RevBitPath(p, m, o, bits, false);
    HeadsPlug(p, Free, m, o, d);
    BitsPlug(p, Free, m, o, RevBit(p, m, o, bits));
  }

  /** After the flip the bit of the pair tells whether the buddy is a whole free block. */
  lemma {:induction false} BitTells(p: Path, m: nat, o: nat, bits: seq<seq<bool>>)
    requires Depth(p) <= o && PathBits(p, m, o, bits, false) && Clear(Ix(p, m), o - Depth(p), bits) && !p.Top?
    requires InRange(bits, o - Depth(p.up), Ix(p.up, m))
    ensures Bit(RevBit(p, m, o, bits), o - Depth(p.up), Ix(p.up, m)) <==> !Sibling(p).Free?
  {
  }

  /** First page of the buddy of the block at the end of the path. */
  ghost function BuddyAddr(p: Path, m: nat, o: nat): nat
    requires !p.Top? && Depth(p) <= o
  {
    Addr(if p.InL? then 2 * Ix(p.up, m) + 1 else 2 * Ix(p.up, m), o - Depth(p))
  }

  /** The descriptor updates of one round of merging: the right one of the two blocks stops
      being a block, the left one becomes the parent. */
  ghost function MergePages(p: Path, m: nat, o: nat, d: seq<Page>): (r: seq<Page>)
    requires !p.Top? && Depth(p) <= o && Addr(m + 1, o) <= |d|
    ensures |r| == |d|
  {
    PathWithin(p.up, m, o);
    AddrKids(Ix(p.up, m), o - Depth(p.up));
    var (a, k) := (Addr(Ix(p.up, m), o - Depth(p.up)), o - Depth(p));
    d[a + Pow2(k) := Page(0, 0, Attr(false, false, false, false))][a := Page(Id(p.up), k + 1, FREE_ATTR)]
  }

  /** Merging with a free buddy leaves the parent in hand. */
  lemma {:induction false} MergeStep(p: Path, m: nat, o: nat, d: seq<Page>, bits: seq<seq<bool>>)
    requires InHand(p, m, o, d, bits) && BigEnough(bits, Addr(m + 1, o)) && o <= MAX_ORD && Addr(m + 1, o) <= |d|
    requires !p.Top? && Sibling(p).Free?
    ensures InRange(bits, o - Depth(p.up), Ix(p.up, m))
    ensures InHand(p.up, m, o, MergePages(p, m, o, d), RevBit(p, m, o, bits))
  {
    UpInRange(p, m, o, bits);
    MergeHeads(p, m, o, d);
    MergeBits(p, m, o, bits, RevBit(p, m, o, bits));
  }

  lemma {:induction false} MergeHeads(p: Path, m: nat, o: nat, d: seq<Page>)
    requires !p.Top? && Depth(p) <= o && Addr(m + 1, o) <= |d| && PathHeads(p, m, o, d)
    ensures var d' := MergePages(p, m, o, d);
            && Addr(Ix(p.up, m), o - Depth(p.up)) < |d|
            && PathHeads(p.up, m, o, d')
            && d'[Addr(Ix(p.up, m), o - Depth(p.up))] == Page(Id(p.up), o - Depth(p.up), FREE_ATTR)
  {
    hide Addr, Pow2;
    var j, k := Ix(p.up, m), o - Depth(p.up);
    PathWithin(p.up, m, o);
    AddrKids(j, k);
    PathHeadsFrame(p.up, m, o, d, MergePages(p, m, o, d));
  }

  lemma {:induction false} MergeBits(p: Path, m: nat, o: nat, bits: seq<seq<bool>>, bits': seq<seq<bool>>)
    requires !p.Top? && Depth(p) <= o && PathBits(p, m, o, bits, false) && Clear(Ix(p, m), o - Depth(p), bits)
    requires Sibling(p).Free? && SameBitsBut(bits, bits', Ix(p.up, m), o - Depth(p.up))
    requires !Bit(bits', o - Depth(p.up), Ix(p.up, m))
    ensures PathBits(p.up, m, o, bits', false) && Clear(Ix(p.up, m), o - Depth(p.up), bits')
  {
    var j, k := Ix(p.up, m), o - Depth(p.up);
    AddrKids(j, k);
    AddrNext(j, k);
    PathBitsFrame(p.up, m, o, bits, bits', false, j, k);
    ClearFrame(2 * j, k - 1, bits, bits', j, k);
    ClearFrame(2 * j + 1, k - 1, bits, bits', j, k);
  }

  /** Dividing an allocated block gives two allocated blocks and needs no bit changed. */
  lemma {:induction false} DivStep(p: Path, m: nat, o: nat, d: seq<Page>, bits: seq<seq<bool>>)
    requires RootOk(Plug(p, Used), m, o, d, bits) && Depth(p) < o && Addr(m + 1, o) <= |d|
    ensures Depth(p) < o && Addr(Ix(p, m), o - Depth(p)) < |d|
    ensures var a := Addr(Ix(p, m), o - Depth(p));
            && d[a].ord == o - Depth(p) && a + Pow2(o - Depth(p) - 1) < |d|
            && RootOk(Plug(p, Split(Used, Used)), m, o, DivPages(d, a), bits)
  {
    hide Addr, Pow2;
    HeadsPlug(p, Used, m, o, d);
    BitsPlug(p, Used, m, o, bits);
    var j, k := Ix(p, m), o - Depth(p);
    AddrKids(j, k);
    PathWithin(p, m, o);
    PathHeadsFrame(p, m, o, d, DivPages(d, Addr(j, k)));
    HeadsPlug(p, Split(Used, Used), m, o, DivPages(d, Addr(j, k)));
    BitsPlug(p, Split(Used, Used), m, o, bits);
  }
}

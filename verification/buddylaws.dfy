/** What every state of the allocator satisfies, and the round trip of allocating and freeing. */
module BuddyLaws {
  import opened Wrappers
  import opened Sequences
  import opened Powers
  import opened BuddySpec
  import opened BuddyTrees
  import opened BuddyForest
  import opened BuddyInit
  import opened Buddies

  /** The block u (first page, order) is allocated or free in the tree. */
  ghost predicate BlockIn(t: Tree, m: nat, o: nat, u: (nat, nat)) {
    u in UsedAt(t, m, o) || u.0 in FreeAt(t, m, o, u.1)
  }

  ghost predicate Contains(u: (nat, nat), f: nat) { u.0 <= f < u.0 + Pow2(u.1) }

  lemma BlockRange(t: Tree, m: nat, o: nat, u: (nat, nat))
    requires BlockIn(t, m, o, u)
    ensures Addr(m, o) <= u.0 && u.0 + Pow2(u.1) <= Addr(m + 1, o)
  {
    if u in UsedAt(t, m, o) { UsedRange(t, m, o, u); } else { FreeRange(t, m, o, u.1, u.0); }
  }

  /** Every page of a root lies in a block of its tree. */
  lemma PageCovered(t: Tree, m: nat, o: nat, f: nat) returns (u: (nat, nat))
    requires Fit(t, o) && Addr(m, o) <= f < Addr(m + 1, o)
    ensures BlockIn(t, m, o, u) && Contains(u, f)
    decreases t
  {
    hide Addr, Pow2;
    AddrNext(m, o);
    if t.Split? {
      AddrKids(m, o);
      AddrNext(2 * m, o - 1);
      if f < Addr(2 * m + 1, o - 1) {
        u := PageCovered(t.l, 2 * m, o - 1, f);
      } else {
        u := PageCovered(t.r, 2 * m + 1, o - 1, f);
      }
    } else {
      u := (Addr(m, o), o);
    }
  }

  /** Blocks of a tree do not overlap, and no block is both free and allocated. */
  lemma {:induction false} BlocksApart(t: Tree, m: nat, o: nat, u: (nat, nat), v: (nat, nat))
    requires BlockIn(t, m, o, u) && BlockIn(t, m, o, v)
    ensures u == v || Apart(u, v)
    ensures !(u in UsedAt(t, m, o) && u.0 in FreeAt(t, m, o, u.1))
  {
    hide Addr, Pow2;
    if t.Split? {
      assert o > 0;
      AddrKids(m, o);
      var l, r := BlockIn(t.l, 2 * m, o - 1, u), BlockIn(t.l, 2 * m, o - 1, v);
      if BlockIn(t.l, 2 * m, o - 1, u) { BlockRange(t.l, 2 * m, o - 1, u); }
      if BlockIn(t.r, 2 * m + 1, o - 1, u) { BlockRange(t.r, 2 * m + 1, o - 1, u); }
      if BlockIn(t.l, 2 * m, o - 1, v) { BlockRange(t.l, 2 * m, o - 1, v); }
      if BlockIn(t.r, 2 * m + 1, o - 1, v) { BlockRange(t.r, 2 * m + 1, o - 1, v); }
      if l {
        BlocksApart(t.l, 2 * m, o - 1, u, if r then v else u);
      } else {
        BlocksApart(t.r, 2 * m + 1, o - 1, u, if r then u else v);
      }
    }
  }

  ghost predicate IsBlock(rs: seq<Root>, ts: seq<Tree>, u: (nat, nat))
    requires |rs| == |ts|
  {
    u in UsedOf(rs, ts) || u.0 in FreeOf(rs, ts, u.1)
  }

  lemma BlockHome(rs: seq<Root>, ts: seq<Tree>, u: (nat, nat)) returns (i: nat)
    requires |rs| == |ts| && IsBlock(rs, ts, u)
    ensures i < |rs| && BlockIn(ts[i], rs[i].m, rs[i].o, u)
  {
    if u in UsedOf(rs, ts) {
      i :| 0 <= i < |ts| && u in UsedAt(ts[i], rs[i].m, rs[i].o);
    } else {
      i :| 0 <= i < |ts| && u.0 in FreeAt(ts[i], rs[i].m, rs[i].o, u.1);
    }
  }

  lemma HomeUnique(rs: seq<Root>, ts: seq<Tree>, n: nat, i: nat, j: nat, u: (nat, nat), v: (nat, nat))
    requires Layout(rs, n) && |rs| == |ts| && i < |rs| && j < |rs| && i != j
    requires BlockIn(ts[i], rs[i].m, rs[i].o, u) && BlockIn(ts[j], rs[j].m, rs[j].o, v)
    ensures Apart(u, v) && u != v
  {
    hide Addr, UsedAt, FreeAt, Pow2;
    BlockRange(ts[i], rs[i].m, rs[i].o, u);
    BlockRange(ts[j], rs[j].m, rs[j].o, v);
  }

  /** Free and allocated blocks of the whole allocator do not overlap. */
  lemma AllApart(rs: seq<Root>, ts: seq<Tree>, n: nat, u: (nat, nat), v: (nat, nat))
    requires Layout(rs, n) && |rs| == |ts| && IsBlock(rs, ts, u) && IsBlock(rs, ts, v)
    ensures u == v || Apart(u, v)
    ensures !(u in UsedOf(rs, ts) && u.0 in FreeOf(rs, ts, u.1))
  {
    hide Addr, UsedAt, FreeAt, Pow2, Layout;
    var i := BlockHome(rs, ts, u);
    var j := BlockHome(rs, ts, v);
    if i == j { BlocksApart(ts[i], rs[i].m, rs[i].o, u, v); } else { HomeUnique(rs, ts, n, i, j, u, v); }
    if u in UsedOf(rs, ts) && u.0 in FreeOf(rs, ts, u.1) {
      var a :| 0 <= a < |ts| && u in UsedAt(ts[a], rs[a].m, rs[a].o);
      var b :| 0 <= b < |ts| && u.0 in FreeAt(ts[b], rs[b].m, rs[b].o, u.1);
      if a == b { BlocksApart(ts[a], rs[a].m, rs[a].o, u, u); } else { HomeUnique(rs, ts, n, a, b, u, u); }
    }
  }

  /** Free and allocated blocks tile the managed pages: each page lies in exactly one of them. */
  lemma PageInOneBlock(rs: seq<Root>, ts: seq<Tree>, n: nat, f: nat) returns (u: (nat, nat))
    requires Layout(rs, n) && |rs| == |ts| && (forall i | 0 <= i < |ts| :: Fit(ts[i], rs[i].o)) && Reached(rs, f)
    ensures IsBlock(rs, ts, u) && Contains(u, f)
    ensures forall v | IsBlock(rs, ts, v) && Contains(v, f) :: v == u
  {
    hide Addr, UsedAt, FreeAt, Pow2, Layout, UsedOf, FreeOf, Apart, Fit;
    var r :| r in rs && Has(r, f);
    var i :| 0 <= i < |rs| && rs[i] == r;
    u := PageCovered(ts[i], r.m, r.o, f);
    BlockThere(rs, ts, i, u);
    forall v | IsBlock(rs, ts, v) && Contains(v, f) ensures v == u {
      AllApart(rs, ts, n, u, v);
      NotApart(u, v, f);
    }
  }

  /** Allocated blocks do not overlap. */
  lemma UsedAllApart(rs: seq<Root>, ts: seq<Tree>, n: nat)
    requires Layout(rs, n) && |rs| == |ts|
    ensures forall u, v | u in UsedOf(rs, ts) && v in UsedOf(rs, ts) :: u == v || Apart(u, v)
  {
    hide Layout, UsedOf, FreeOf, Apart;
    forall u, v | u in UsedOf(rs, ts) && v in UsedOf(rs, ts) ensures u == v || Apart(u, v) {
      AllApart(rs, ts, n, u, v);
    }
  }

  lemma BlockThere(rs: seq<Root>, ts: seq<Tree>, i: nat, u: (nat, nat))
    requires |rs| == |ts| && i < |rs| && BlockIn(ts[i], rs[i].m, rs[i].o, u)
    ensures IsBlock(rs, ts, u)
  {
  }

  lemma NotApart(u: (nat, nat), v: (nat, nat), f: nat)
    requires Contains(u, f) && Contains(v, f)
    ensures !Apart(u, v)
  {
  }

  /** The allocated blocks alone determine the state of the forest, whatever the order of the
      calls that led to it. */
  lemma OnlyAllocatedMatters(rs: seq<Root>, ts: seq<Tree>, ts': seq<Tree>, n: nat)
    requires Layout(rs, n) && |rs| == |ts| == |ts'| && UsedOf(rs, ts) == UsedOf(rs, ts')
    requires forall i | 0 <= i < |rs| ::
               Fit(ts[i], rs[i].o) && Coalesced(ts[i]) && Fit(ts'[i], rs[i].o) && Coalesced(ts'[i])
    ensures ts == ts'
  {
    hide UsedAt, Fit, Coalesced, Layout, UsedOf;
    forall i | 0 <= i < |rs| ensures ts[i] == ts'[i] {
      UsedOfRoot(rs, ts, ts', n, i);
      UsedOfRoot(rs, ts', ts, n, i);
      Canonical(ts[i], ts'[i], rs[i].m, rs[i].o);
    }
  }

  lemma UsedOfRoot(rs: seq<Root>, ts: seq<Tree>, ts': seq<Tree>, n: nat, i: nat)
    requires Layout(rs, n) && |rs| == |ts| == |ts'| && UsedOf(rs, ts) == UsedOf(rs, ts') && i < |rs|
    ensures UsedAt(ts[i], rs[i].m, rs[i].o) <= UsedAt(ts'[i], rs[i].m, rs[i].o)
  {
    hide UsedAt, Addr, Layout;
    forall u | u in UsedAt(ts[i], rs[i].m, rs[i].o) ensures u in UsedAt(ts'[i], rs[i].m, rs[i].o) {
      assert u in UsedOf(rs, ts);
      var j :| 0 <= j < |ts| && u in UsedAt(ts'[j], rs[j].m, rs[j].o);
      if j != i {
        UsedRange(ts[i], rs[i].m, rs[i].o, u);
        UsedElsewhere(rs, ts', n, i, j, u);
      }
    }
  }

  /** Coalescing is complete: whenever nothing is allocated, the free blocks are exactly the roots
      that mm_buddy_init set up. */
  lemma AllFreed(rs: seq<Root>, ts: seq<Tree>, d: seq<Page>, bits: seq<seq<bool>>, lists: seq<seq<nat>>)
    requires Resting(rs, ts, d, bits, lists) && UsedOf(rs, ts) == {}
    ensures AllFree(ts)
    ensures forall k, a | 0 <= k <= MAX_ORD :: a in lists[k] <==>
              exists i :: 0 <= i < |rs| && rs[i].o == k && a == Addr(rs[i].m, k)
  {
    hide Addr, RootOk, Layout, BigEnough, UsedAt, NoDup;
    forall i | 0 <= i < |ts| ensures ts[i] == Free {
      assert forall u | u in UsedAt(ts[i], rs[i].m, rs[i].o) :: u in UsedOf(rs, ts);
      assert UsedAt(ts[i], rs[i].m, rs[i].o) == {};
      NothingUsed(ts[i], rs[i].m, rs[i].o);
    }
    forall k, a | 0 <= k <= MAX_ORD
      ensures a in lists[k] <==> exists i :: 0 <= i < |rs| && rs[i].o == k && a == Addr(rs[i].m, k)
    {
      FreeRoots(rs, ts, k, a);
    }
  }

  lemma FreeRoots(rs: seq<Root>, ts: seq<Tree>, k: nat, a: nat)
    requires |rs| == |ts| && AllFree(ts)
    ensures a in FreeOf(rs, ts, k) <==> exists i :: 0 <= i < |rs| && rs[i].o == k && a == Addr(rs[i].m, k)
  {
    hide Addr;
    if a in FreeOf(rs, ts, k) {
      var i :| 0 <= i < |ts| && a in FreeAt(ts[i], rs[i].m, rs[i].o, k);
      assert rs[i].o == k && a == Addr(rs[i].m, k);
    }
    if i :| 0 <= i < |rs| && rs[i].o == k && a == Addr(rs[i].m, k) {
      assert ts[i] == Free && a in FreeAt(ts[i], rs[i].m, rs[i].o, k);
    }
  }

  /** An allocated block's descriptor gives its order and heap number, both within 16 bits, and
      its first page is aligned to its order. */
  lemma AllocatedDescriptor(rs: seq<Root>, ts: seq<Tree>, d: seq<Page>, bits: seq<seq<bool>>, lists: seq<seq<nat>>,
                            u: (nat, nat))
    requires Resting(rs, ts, d, bits, lists) && u in UsedOf(rs, ts)
    ensures u.0 + Pow2(u.1) <= |d| && Aligned(u.0, u.1)
    ensures d[u.0].ord == u.1 <= MAX_ORD && 1 <= d[u.0].buddyId < 0x1_0000 && d[u.0].attr.head && d[u.0].attr.alloc
  {
    hide Addr, BigEnough, ListsOk, PathHeads, PathBits, PairBits;
    var i :| 0 <= i < |ts| && u in UsedAt(ts[i], rs[i].m, rs[i].o);
    var m, o := rs[i].m, rs[i].o;
    var p := LocateUsed(Top, ts[i], m, o, u);
    HeadsPlug(p, Used, m, o, d);
    UsedRange(ts[i], m, o, u);
    IdRange(p, o);
    ShiftAddr(Ix(p, m), u.1);
  }

  lemma {:induction false} IdRange(p: Path, o: nat)
    requires Depth(p) <= o <= MAX_ORD
    ensures 1 <= Id(p) < 0x1_0000
  {
    IdBounds(p);
    PowMonotone(Depth(p) + 1, 16);
    PowAdd(8, 8);
    assert Pow2(8) == 256 by { PowAdd(4, 4); }
  }

  /** A page on a free list is the head of a free block of that order. */
  lemma {:induction false} FreeDescriptor(rs: seq<Root>, ts: seq<Tree>, d: seq<Page>, bits: seq<seq<bool>>,
                                          lists: seq<seq<nat>>, k: nat, a: nat)
    requires Resting(rs, ts, d, bits, lists) && k <= MAX_ORD && a in lists[k]
    ensures a + Pow2(k) <= |d| && Aligned(a, k)
    ensures 1 <= d[a].buddyId < 0x1_0000 && d[a] == Page(d[a].buddyId, k, FREE_ATTR)
  {
    hide Addr, BigEnough, PathHeads, PathBits, PairBits, NoDup;
    assert a in FreeOf(rs, ts, k);
    var i :| 0 <= i < |ts| && a in FreeAt(ts[i], rs[i].m, rs[i].o, k);
    var m, o := rs[i].m, rs[i].o;
    var p := LocateFree(Top, ts[i], m, o, k, a);
    HeadsPlug(p, Free, m, o, d);
    FreeRange(ts[i], m, o, k, a);
    IdRange(p, o);
    ShiftAddr(Ix(p, m), k);
  }

  /** A block is at the end of one path only. */
  lemma {:induction false} PathUnique(p: Path, q: Path, s: Tree, t: Tree, m: nat)
    requires Plug(p, s) == Plug(q, t) && Depth(p) == Depth(q) && Ix(p, m) == Ix(q, m)
    ensures p == q && s == t
  {
    if !p.Top? {
      var s' := if p.InL? then Split(s, p.r) else Split(p.l, s);
      var t' := if q.InL? then Split(t, q.r) else Split(q.l, t);
      PathUnique(p.up, q.up, s', t', m);
    }
  }

  lemma {:induction false} DownIx(p: Path, n: nat, m: nat, o: nat)
    requires Depth(p) + n <= o
    ensures Depth(Down(p, n)) == Depth(p) + n
    ensures Addr(Ix(Down(p, n), m), o - Depth(p) - n) == Addr(Ix(p, m), o - Depth(p))
    decreases n
  {
    hide Addr;
    if n > 0 {
      AddrKids(Ix(p, m), o - Depth(p));
      DownIx(InL(p, Free), n - 1, m, o);
    }
  }

  lemma {:induction false} SameBlock(rs: seq<Root>, ts: seq<Tree>, n: nat, i: nat, j: nat, p: Path, q: Path)
    requires Layout(rs, n) && |rs| == |ts| && i < |rs| && j < |rs| && ts[i] == Plug(p, Used) && ts[j] == Plug(q, Used)
    requires Depth(p) <= rs[i].o && Depth(q) <= rs[j].o && rs[i].o - Depth(p) == rs[j].o - Depth(q)
    requires Addr(Ix(p, rs[i].m), rs[i].o - Depth(p)) == Addr(Ix(q, rs[j].m), rs[j].o - Depth(q))
    ensures i == j && p == q
  {
    hide Addr, Layout, Ix, Shift;
    var k := rs[i].o - Depth(p);
    var u := (Addr(Ix(p, rs[i].m), k), k);
    UsedPlug(p, Used, rs[i].m, rs[i].o);
    UsedPlug(q, Used, rs[j].m, rs[j].o);
    assert u in UsedAt(ts[i], rs[i].m, rs[i].o) && u in UsedAt(ts[j], rs[j].m, rs[j].o);
    if i != j { HomeUnique(rs, ts, n, i, j, u, u); }
    ShiftAddr(Ix(p, rs[i].m), k);
    ShiftAddr(Ix(q, rs[i].m), k);
    PathUnique(p, q, Used, Used, rs[i].m);
  }

  /** Freeing a block straight after allocating it restores every free list, order included. */
  method AllocThenFree(b: Buddy, log2Size: nat, attr: Attr) returns (page: Option<nat>)
    requires b.Valid()
    modifies b, b.pages
    ensures b.Valid() && b.freeLst == old(b.freeLst) && b.trees == old(b.trees) && b.roots == old(b.roots)
    ensures b.Allocated() == old(b.Allocated())
  {
    hide Addr, Pow2, Ix, Plug, Carve, UsedOf, FreeOf, CarveLists, ReleaseLists, Release, Down, BigEnough, RootOk,
         NoDup, ListsOk, Coalesced, Fit, Buddy.Clean, NoNewTables, SameOutside, Clear;
    RestingParts(b.roots, b.trees, b.pages[..], b.revBit, b.freeLst);
    ghost var lists, ts := b.freeLst, b.trees;
    ghost var ord, i, p;
    page, ord, i, p := b.AllocPages(log2Size, attr);
    if page.Some? {
      var ok;
      ghost var j, q;
      ok, j, q := b.FreePages(page.value);
      assert b.Allocated() == UsedOf(b.roots, ts);
      OnlyAllocatedMatters(b.roots, b.trees, ts, b.pages.Length);
      DownFacts(p, ord - log2Size);
      DownIx(p, ord - log2Size, b.roots[i].m, b.roots[i].o);
      SameBlock(b.roots, ts[i := Plug(p, Carve(ord - log2Size))], b.pages.Length, i, j, Down(p, ord - log2Size), q);
      AllocReleaseLists(p, b.roots[i].m, b.roots[i].o, log2Size, lists);
    }
  }

  // ----- how many blocks are left -----

  /** How many blocks of order k can be had, one after the other: a block of the next order makes two. */
  ghost function Room(lists: seq<seq<nat>>, k: nat): nat
    decreases if k < |lists| then |lists| - k else 0
  {
    if k < |lists| then |lists[k]| + 2 * Room(lists, k + 1) else 0
  }

  lemma {:induction false} NoneLeft(lists: seq<seq<nat>>, k: nat)
    ensures Room(lists, k) == 0 <==> forall j | k <= j < |lists| :: lists[j] == []
    decreases if k < |lists| then |lists| - k else 0
  {
    if k < |lists| { NoneLeft(lists, k + 1); }
  }

  /** It depends on the lengths of the lists from k on. */
  lemma {:induction false} RoomSame(lists: seq<seq<nat>>, lists': seq<seq<nat>>, k: nat)
    requires |lists'| == |lists| && forall j | k <= j < |lists| :: |lists'[j]| == |lists[j]|
    ensures Room(lists', k) == Room(lists, k)
    decreases if k < |lists| then |lists| - k else 0
  {
    if k < |lists| { RoomSame(lists, lists', k + 1); }
  }

  /** A list becomes longer by one. */
  lemma {:induction false} RoomMore(lists: seq<seq<nat>>, lists': seq<seq<nat>>, k: nat, ord: nat)
    requires |lists'| == |lists| && k <= ord < |lists| && |lists'[ord]| == |lists[ord]| + 1
    requires forall j | k <= j < |lists| && j != ord :: |lists'[j]| == |lists[j]|
    ensures Room(lists', k) == Room(lists, k) + Pow2(ord - k)
    decreases ord - k
  {
    if k == ord {
      RoomSame(lists, lists', k + 1);
    } else {
      RoomMore(lists, lists', k + 1, ord);
    }
  }

  /** Splitting a block of order ord down to order k leaves all but one of its parts. */
  lemma {:induction false} RoomCarved(lists: seq<seq<nat>>, a: nat, ord: nat, k: nat)
    requires k <= ord < |lists| == MAX_ORD + 1
    ensures |CarveLists(lists, a, ord, k)| == |lists|
    ensures Room(CarveLists(lists, a, ord, k), k) + 1 == Room(lists, k) + Pow2(ord - k)
    decreases ord
  {
    if ord > k {
      var l1 := lists[ord - 1 := lists[ord - 1] + [a + Pow2(ord - 1)]];
      RoomMore(lists, l1, k, ord - 1);
      RoomCarved(l1, a, ord - 1, k);
    }
  }

  /** Each allocation of order k takes exactly one of the blocks that could be had, whatever list it
      comes from. */
  lemma RoomAfter(lists: seq<seq<nat>>, a: nat, ord: nat, k: nat)
    requires k <= ord < |lists| == MAX_ORD + 1 && lists[ord] != []
    ensures Room(CarveLists(lists[ord := lists[ord][1..]], a, ord, k), k) + 1 == Room(lists, k)
  {
    hide CarveLists;
    var l1 := lists[ord := lists[ord][1..]];
    RoomMore(l1, lists, k, ord);
    RoomCarved(l1, a, ord, k);
  }

  lemma {:induction false} CarveAt(lists: seq<seq<nat>>, a: nat, ord: nat, k: nat, j: nat)
    requires k <= ord < |lists| == MAX_ORD + 1 && j < |lists|
    ensures |CarveLists(lists, a, ord, k)| == |lists|
    ensures |CarveLists(lists, a, ord, k)[j]| == |lists[j]| + if k <= j < ord then 1 else 0
    decreases ord
  {
    if ord > k {
      CarveAt(lists[ord - 1 := lists[ord - 1] + [a + Pow2(ord - 1)]], a, ord - 1, k, j);
    }
  }

  /** It takes one of the blocks of a greater order q too, unless it comes from a smaller list. */
  lemma RoomAbove(lists: seq<seq<nat>>, a: nat, ord: nat, k: nat, q: nat)
    requires k <= ord < |lists| == MAX_ORD + 1 && k <= q < |lists| && lists[ord] != []
    ensures Room(CarveLists(lists[ord := lists[ord][1..]], a, ord, k), q) + (if q <= ord then 1 else 0) ==
              Room(lists, q)
  {
    hide CarveLists;
    var l1 := lists[ord := lists[ord][1..]];
    var r := CarveLists(l1, a, ord, k);
    CarveAt(l1, a, ord, k, q);
    forall j | q <= j < |lists| ensures |r[j]| == |l1[j]| + if k <= j < ord then 1 else 0 { CarveAt(l1, a, ord, k, j); }
    if q <= ord {
      var r' := CarveLists(l1, a, ord, q);
      CarveAt(l1, a, ord, q, q);
      forall j | q <= j < |lists| ensures |r'[j]| == |r[j]| { CarveAt(l1, a, ord, q, j); }
      RoomAfter(lists, a, ord, q);
      RoomSame(r', r, q);
    } else {
      RoomSame(lists, r, q);
    }
  }

  // ----- several clients -----

  /** Allocated blocks of other users stay allocated, with their descriptors, and are not taken over. */
  ghost predicate OthersKept(own: set<nat>, used: set<(nat, nat)>, d: seq<Page>, own': set<nat>,
                             used': set<(nat, nat)>, d': seq<Page>) {
    |d| == |d'| && forall u | u in used && u.0 !in own && u.0 < |d| :: u in used' && u.0 !in own' && d'[u.0] == d[u.0]
  }

  lemma OthersThrough(own: set<nat>, used: set<(nat, nat)>, d: seq<Page>, own': set<nat>, used': set<(nat, nat)>,
                      d': seq<Page>, own2: set<nat>, used2: set<(nat, nat)>, d2: seq<Page>)
    requires OthersKept(own, used, d, own', used', d') && OthersKept(own', used', d', own2, used2, d2)
    ensures OthersKept(own, used, d, own2, used2, d2)
  {
  }

  /** The descriptors of all allocated blocks are the same. */
  ghost predicate HeadsKept(used: set<(nat, nat)>, d: seq<Page>, d': seq<Page>) {
    |d| == |d'| && forall u | u in used && u.0 < |d| :: d'[u.0] == d[u.0]
  }
}

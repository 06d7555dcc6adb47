/** All roots together: which pages are free or allocated, and the free lists. */
module BuddyForest {
  import opened Sequences
  import opened Powers
  import opened BuddySpec
  import opened BuddyTrees

  /** A naturally aligned block set up by mm_buddy_init. */
  datatype Root = Root(m: nat, o: nat)

  /** Roots do not overlap and lie below page n. */
  ghost predicate Layout(rs: seq<Root>, n: nat) {
    && (forall i | 0 <= i < |rs| :: rs[i].o <= MAX_ORD && Addr(rs[i].m + 1, rs[i].o) <= n)
    && (forall i, j | 0 <= i < j < |rs| :: Addr(rs[i].m + 1, rs[i].o) <= Addr(rs[j].m, rs[j].o))
  }

  ghost function FreeOf(rs: seq<Root>, ts: seq<Tree>, k: nat): set<nat>
    requires |rs| == |ts|
  {
    set i, a | 0 <= i < |ts| && a in FreeAt(ts[i], rs[i].m, rs[i].o, k) :: a
  }

  ghost function UsedOf(rs: seq<Root>, ts: seq<Tree>): set<(nat, nat)>
    requires |rs| == |ts|
  {
    set i, u | 0 <= i < |ts| && u in UsedAt(ts[i], rs[i].m, rs[i].o) :: u
  }

  ghost function PagesOf(rs: seq<Root>, ts: seq<Tree>): nat
    requires |rs| == |ts|
  {
    if ts == [] then 0 else UsedPages(ts[0], rs[0].o) + PagesOf(rs[1..], ts[1..])
  }

  ghost predicate TreeOk(t: Tree, r: Root, d: seq<Page>, bits: seq<seq<bool>>) {
    RootOk(t, r.m, r.o, d, bits) && Fit(t, r.o) && Coalesced(t)
  }

  ghost predicate ForestOk(rs: seq<Root>, ts: seq<Tree>, d: seq<Page>, bits: seq<seq<bool>>) {
    |rs| == |ts| && forall i | 0 <= i < |rs| :: TreeOk(ts[i], rs[i], d, bits)
  }

  /** All roots but the i-th are in order. */
  ghost predicate OthersOk(rs: seq<Root>, ts: seq<Tree>, i: nat, d: seq<Page>, bits: seq<seq<bool>>) {
    |rs| == |ts| && i < |rs| && forall j | 0 <= j < |rs| && j != i :: TreeOk(ts[j], rs[j], d, bits)
  }

  /** freeLst[k] holds exactly the free blocks of order k, each once. */
  ghost predicate ListsOk(lists: seq<seq<nat>>, rs: seq<Root>, ts: seq<Tree>) {
    |rs| == |ts| && |lists| == MAX_ORD + 1 &&
    forall k | 0 <= k <= MAX_ORD :: NoDup(lists[k]) && forall a :: a in lists[k] <==> a in FreeOf(rs, ts, k)
  }

  // ----- one root changes -----

  lemma OthersFrame(rs: seq<Root>, ts: seq<Tree>, ts': seq<Tree>, i: nat, n: nat,
                    d: seq<Page>, d': seq<Page>, bits: seq<seq<bool>>)
    requires Layout(rs, n) && OthersOk(rs, ts, i, d, bits) && |ts'| == |ts|
    requires forall j | 0 <= j < |ts| && j != i :: ts'[j] == ts[j]
    requires SamePagesBut(d, d', rs[i].m, rs[i].o)
    ensures OthersOk(rs, ts', i, d', bits)
  {
    forall j | 0 <= j < |rs| && j != i ensures TreeOk(ts'[j], rs[j], d', bits) {
      assert Addr(rs[i].m + 1, rs[i].o) <= Addr(rs[j].m, rs[j].o) ||
          Addr(rs[j].m + 1, rs[j].o) <= Addr(rs[i].m, rs[i].o);
      HeadsFrame(ts[j], rs[j].m, rs[j].o, 1, d, d');
    }
  }

  lemma OthersBits(rs: seq<Root>, ts: seq<Tree>, i: nat, n: nat, d: seq<Page>,
                   bits: seq<seq<bool>>, bits': seq<seq<bool>>, m1: nat, o1: nat)
    requires Layout(rs, n) && OthersOk(rs, ts, i, d, bits)
    requires SameBitsBut(bits, bits', m1, o1) && Within(m1, o1, rs[i].m, rs[i].o)
    ensures OthersOk(rs, ts, i, d, bits')
  {
    forall j | 0 <= j < |rs| && j != i ensures TreeOk(ts[j], rs[j], d, bits') {
      assert Addr(rs[i].m + 1, rs[i].o) <= Addr(rs[j].m, rs[j].o) ||
          Addr(rs[j].m + 1, rs[j].o) <= Addr(rs[i].m, rs[i].o);
      AddrNext(m1, o1);
      BitsFrame(ts[j], rs[j].m, rs[j].o, bits, bits', m1, o1);
    }
  }

  /** A block of the i-th tree is in no other tree. */
  lemma {:induction false} FreeElsewhere(rs: seq<Root>, ts: seq<Tree>, n: nat, i: nat, j: nat, k: nat, a: nat)
    requires Layout(rs, n) && |rs| == |ts| && i < |rs| && j < |rs| && i != j
    requires Addr(rs[i].m, rs[i].o) <= a < Addr(rs[i].m + 1, rs[i].o)
    ensures a !in FreeAt(ts[j], rs[j].m, rs[j].o, k)
  {
    if a in FreeAt(ts[j], rs[j].m, rs[j].o, k) {
      FreeRange(ts[j], rs[j].m, rs[j].o, k, a);
    }
  }

  /** The i-th tree gains the free block a of order k0. */
  lemma {:induction false} FreeGrows(rs: seq<Root>, ts: seq<Tree>, i: nat, t: Tree, k0: nat, a: nat, k: nat)
    requires |rs| == |ts| && i < |rs|
    requires FreeAt(t, rs[i].m, rs[i].o, k) == FreeAt(ts[i], rs[i].m, rs[i].o, k) + if k == k0 then {a} else {}
    ensures FreeOf(rs, ts[i := t], k) == FreeOf(rs, ts, k) + if k == k0 then {a} else {}
  {
    var ts' := ts[i := t];
    forall x | x in FreeOf(rs, ts, k) ensures x in FreeOf(rs, ts', k) {
      var j :| 0 <= j < |ts| && x in FreeAt(ts[j], rs[j].m, rs[j].o, k);
      assert x in FreeAt(ts'[j], rs[j].m, rs[j].o, k);
    }
    forall x | x in FreeOf(rs, ts', k) ensures x in FreeOf(rs, ts, k) || (k == k0 && x == a) {
      var j :| 0 <= j < |ts| && x in FreeAt(ts'[j], rs[j].m, rs[j].o, k);
      assert j != i ==> x in FreeAt(ts[j], rs[j].m, rs[j].o, k);
    }
    if k == k0 {
      assert a in FreeAt(ts'[i], rs[i].m, rs[i].o, k);
    }
  }

  lemma {:induction false} FreeShrinks(rs: seq<Root>, ts: seq<Tree>, n: nat, i: nat, t: Tree, k0: nat, a: nat, k: nat)
    requires Layout(rs, n) && |rs| == |ts| && i < |rs|
    requires FreeAt(ts[i], rs[i].m, rs[i].o, k) == FreeAt(t, rs[i].m, rs[i].o, k) + if k == k0 then {a} else {}
    requires a !in FreeAt(t, rs[i].m, rs[i].o, k0) && Addr(rs[i].m, rs[i].o) <= a < Addr(rs[i].m + 1, rs[i].o)
    ensures FreeOf(rs, ts[i := t], k) == FreeOf(rs, ts, k) - if k == k0 then {a} else {}
  {
    var ts' := ts[i := t];
    assert ts'[i := ts[i]] == ts;
    FreeGrows(rs, ts', i, ts[i], k0, a, k);
    if k == k0 && a in FreeOf(rs, ts', k) {
      var j :| 0 <= j < |ts| && a in FreeAt(ts'[j], rs[j].m, rs[j].o, k);
      if j != i { FreeElsewhere(rs, ts', n, i, j, k, a); }
    }
  }

  /** An allocated block is found at the end of a path. */
  lemma LocateUsed(p0: Path, t: Tree, m: nat, o: nat, u: (nat, nat)) returns (p: Path)
    requires Depth(p0) <= o && Fit(t, o - Depth(p0)) && u in UsedAt(t, Ix(p0, m), o - Depth(p0))
    ensures Plug(p, Used) == Plug(p0, t) && Depth(p) <= o
    ensures u == (Addr(Ix(p, m), o - Depth(p)), o - Depth(p))
    decreases t
  {
    if t.Used? {
      return p0;
    }
    if u in UsedAt(t.l, 2 * Ix(p0, m), o - Depth(p0) - 1) {
      p := LocateUsed(InL(p0, t.r), t.l, m, o, u);
    } else {
      p := LocateUsed(InR(p0, t.l), t.r, m, o, u);
    }
  }

  lemma LocateFree(p0: Path, t: Tree, m: nat, o: nat, k: nat, a: nat) returns (p: Path)
    requires Depth(p0) <= o && Fit(t, o - Depth(p0)) && a in FreeAt(t, Ix(p0, m), o - Depth(p0), k)
    ensures Plug(p, Free) == Plug(p0, t) && Depth(p) <= o && k == o - Depth(p) && a == Addr(Ix(p, m), k)
    decreases t
  {
    if t.Free? {
      return p0;
    }
    if a in FreeAt(t.l, 2 * Ix(p0, m), o - Depth(p0) - 1, k) {
      p := LocateFree(InL(p0, t.r), t.l, m, o, k, a);
    } else {
      p := LocateFree(InR(p0, t.l), t.r, m, o, k, a);
    }
  }

  // ----- the free lists -----

  /** A list that gained or lost the block a. */
  lemma ListsChange(lists: seq<seq<nat>>, lists': seq<seq<nat>>, rs: seq<Root>, ts: seq<Tree>, ts': seq<Tree>, k0: nat,
                    a: nat, grows: bool)
    requires ListsOk(lists, rs, ts) && |ts'| == |ts| && k0 <= MAX_ORD && |lists'| == |lists|
    requires forall k | 0 <= k <= MAX_ORD && k != k0 :: lists'[k] == lists[k]
    requires NoDup(lists'[k0]) && forall x :: x in lists'[k0] <==> if x == a then grows else x in lists[k0]
    requires forall k | 0 <= k <= MAX_ORD ::
               FreeOf(rs, ts', k) ==
               if k != k0 then FreeOf(rs, ts, k) else if grows then FreeOf(rs, ts, k) + {a} else FreeOf(rs, ts, k) - {a}
    ensures ListsOk(lists', rs, ts')
  {
    forall k | 0 <= k <= MAX_ORD ensures NoDup(lists'[k]) && forall x :: x in lists'[k] <==> x in FreeOf(rs, ts', k) {
    }
  }

  /** The block at the end of p in the i-th tree leaves its free list. */
  lemma {:induction false} TakeLists(lists: seq<seq<nat>>, list': seq<nat>, rs: seq<Root>, ts: seq<Tree>, n: nat,
                                     i: nat, p: Path, t: Tree)
    requires Layout(rs, n) && ListsOk(lists, rs, ts) && i < |rs|
    requires Depth(p) <= rs[i].o && Fit(ts[i], rs[i].o) && ts[i] == Plug(p, Free)
    requires Fit(t, rs[i].o) && forall k :: FreeAt(t, rs[i].m, rs[i].o, k) == PathFree(p, rs[i].m, rs[i].o, k)
    requires NoDup(list')
    requires var (k, a) := (rs[i].o - Depth(p), Addr(Ix(p, rs[i].m), rs[i].o - Depth(p)));
             forall x :: x in list' <==> x in lists[k] && x != a
    ensures ListsOk(lists[rs[i].o - Depth(p) := list'], rs, ts[i := t])
  {
    hide Addr, Pow2;
    var m, o := rs[i].m, rs[i].o;
    var k0 := o - Depth(p);
    var a := Addr(Ix(p, m), k0);
    PathWithin(p, m, o);
    AddrNext(Ix(p, m), k0);
    HoleNotInPath(p, m, o, k0);
    forall k | 0 <= k <= MAX_ORD
      ensures FreeOf(rs, ts[i := t], k) == if k != k0 then FreeOf(rs, ts, k) else FreeOf(rs, ts, k) - {a}
    {
      FreePlug(p, Free, m, o, k);
      FreeShrinks(rs, ts, n, i, t, k0, a, k);
    }
    ListsChange(lists, lists[k0 := list'], rs, ts, ts[i := t], k0, a, false);
  }

  lemma {:induction false} NotFreeYet(rs: seq<Root>, ts: seq<Tree>, n: nat, i: nat, p: Path, k: nat)
    requires Layout(rs, n) && |rs| == |ts| && i < |rs| && Depth(p) <= rs[i].o
    requires FreeAt(ts[i], rs[i].m, rs[i].o, k) == PathFree(p, rs[i].m, rs[i].o, k)
    ensures Addr(Ix(p, rs[i].m), rs[i].o - Depth(p)) !in FreeOf(rs, ts, k)
  {
    hide Addr, Pow2;
    var m, o := rs[i].m, rs[i].o;
    var a := Addr(Ix(p, m), o - Depth(p));
    PathWithin(p, m, o);
    AddrNext(Ix(p, m), o - Depth(p));
    HoleNotInPath(p, m, o, k);
    if a in FreeOf(rs, ts, k) {
      var j :| 0 <= j < |ts| && a in FreeAt(ts[j], rs[j].m, rs[j].o, k);
      FreeElsewhere(rs, ts, n, i, j, k, a);
    }
  }

  /** A free block appears at the end of p in the i-th tree. */
  lemma {:induction false} PutLists(lists: seq<seq<nat>>, list': seq<nat>, rs: seq<Root>, ts: seq<Tree>, n: nat,
                                    i: nat, p: Path)
    requires Layout(rs, n) && ListsOk(lists, rs, ts) && i < |rs|
    requires Depth(p) <= rs[i].o && Fit(Plug(p, Free), rs[i].o)
    requires forall k :: FreeAt(ts[i], rs[i].m, rs[i].o, k) == PathFree(p, rs[i].m, rs[i].o, k)
    requires var (k, a) := (rs[i].o - Depth(p), Addr(Ix(p, rs[i].m), rs[i].o - Depth(p)));
             list' == [a] + lists[k] || list' == lists[k] + [a]
    ensures ListsOk(lists[rs[i].o - Depth(p) := list'], rs, ts[i := Plug(p, Free)])
  {
    hide Addr, Pow2;
    var m, o := rs[i].m, rs[i].o;
    var k0 := o - Depth(p);
    var a := Addr(Ix(p, m), k0);
    var ts' := ts[i := Plug(p, Free)];
    PathWithin(p, m, o);
    AddrNext(Ix(p, m), k0);
    HoleNotInPath(p, m, o, k0);
    forall k | 0 <= k <= MAX_ORD
      ensures FreeOf(rs, ts', k) == if k != k0 then FreeOf(rs, ts, k) else FreeOf(rs, ts, k) + {a}
    {
      FreePlug(p, Free, m, o, k);
      FreeGrows(rs, ts, i, Plug(p, Free), k0, a, k);
    }
    NotFreeYet(rs, ts, n, i, p, k0);
    ListsChange(lists, lists[k0 := list'], rs, ts, ts', k0, a, true);
  }

  /** What splitting the block a from order ord down to k appends to the lists. */
  ghost function CarveLists(lists: seq<seq<nat>>, a: nat, ord: nat, k: nat): (r: seq<seq<nat>>)
    requires k <= ord <= MAX_ORD && |lists| == MAX_ORD + 1
    ensures |r| == |lists|
    decreases ord
  {
    if ord == k then lists
    else CarveLists(lists[ord - 1 := lists[ord - 1] + [a + Pow2(ord - 1)]], a, ord - 1, k)
  }

  /** What releasing the block at the end of p does: free buddies leave their lists on the way up,
      the merged block goes to the head of its list. */
  ghost function ReleaseLists(p: Path, m: nat, o: nat, lists: seq<seq<nat>>): (r: seq<seq<nat>>)
    requires Depth(p) <= o <= MAX_ORD && |lists| == MAX_ORD + 1
    ensures |r| == |lists|
  {
    var k := o - Depth(p);
    if !p.Top? && Sibling(p).Free? then ReleaseLists(p.up, m, o, lists[k := Remove(lists[k], BuddyAddr(p, m, o))])
    else lists[k := [Addr(Ix(p, m), k)] + lists[k]]
  }

  lemma CarveReleaseStep(p: Path, m: nat, o: nat, lists: seq<seq<nat>>)
    requires Depth(p) < o <= MAX_ORD && |lists| == MAX_ORD + 1 && lists[o - Depth(p) - 1] == []
    ensures var (q, k) := (InL(p, Free), o - Depth(p));
            ReleaseLists(q, m, o, lists[k - 1 := [] + [Addr(Ix(p, m), k) + Pow2(k - 1)]]) ==
                ReleaseLists(p, m, o, lists)
  {
    var q, k := InL(p, Free), o - Depth(p);
    AddrKids(Ix(p, m), k);
    var b := Addr(Ix(p, m), k) + Pow2(k - 1);
    var lists' := lists[k - 1 := [] + [b]];
    assert lists'[k - 1] == [b] && Remove([b], b) == [];
    assert BuddyAddr(q, m, o) == b;
    assert lists'[k - 1 := []] == lists;
  }

  /** Splitting down and merging up again cancel out, list by list and in order. */
  lemma CarveRelease(p: Path, n: nat, m: nat, o: nat, lists: seq<seq<nat>>)
    requires Depth(p) + n <= o <= MAX_ORD && |lists| == MAX_ORD + 1
    requires forall j | o - Depth(p) - n <= j < o - Depth(p) :: lists[j] == []
    ensures Depth(Down(p, n)) == Depth(p) + n
    ensures var (a, k) := (Addr(Ix(p, m), o - Depth(p)), o - Depth(p));
            ReleaseLists(Down(p, n), m, o, CarveLists(lists, a, k, k - n)) == ReleaseLists(p, m, o, lists)
    decreases n
  {
    hide Addr, Pow2, ReleaseLists;
    DownFacts(p, n);
    if n > 0 {
      var q, k := InL(p, Free), o - Depth(p);
      AddrKids(Ix(p, m), k);
      CarveRelease(q, n - 1, m, o, lists[k - 1 := [] + [Addr(Ix(p, m), k) + Pow2(k - 1)]]);
      CarveReleaseStep(p, m, o, lists);
    }
  }

  /** Allocating a block of order k and releasing it straight away restores every free list, with
      the blocks in the same places. */
  lemma AllocReleaseLists(p: Path, m: nat, o: nat, k: nat, lists: seq<seq<nat>>)
    requires Depth(p) <= o <= MAX_ORD && k <= o - Depth(p) && |lists| == MAX_ORD + 1 && Coalesced(Plug(p, Free))
    requires forall j | k <= j < o - Depth(p) :: lists[j] == []
    requires lists[o - Depth(p)] != [] && lists[o - Depth(p)][0] == Addr(Ix(p, m), o - Depth(p))
    ensures var (ord, a, q) := (o - Depth(p), Addr(Ix(p, m), o - Depth(p)), Down(p, o - Depth(p) - k));
            && Depth(q) == o - k
            && ReleaseLists(q, m, o, CarveLists(lists[ord := lists[ord][1..]], a, ord, k)) == lists
  {
    hide Addr, Pow2, CarveLists, ReleaseLists, Coalesced;
    var ord := o - Depth(p);
    CarveRelease(p, ord - k, m, o, lists[ord := lists[ord][1..]]);
    DownFacts(p, ord - k);
    ReleaseHead(p, m, o, lists);
  }

  /** A free block whose buddy is not free goes back to the head of its list. */
  lemma ReleaseHead(p: Path, m: nat, o: nat, lists: seq<seq<nat>>)
    requires Depth(p) <= o <= MAX_ORD && |lists| == MAX_ORD + 1 && Coalesced(Plug(p, Free))
    requires lists[o - Depth(p)] != [] && lists[o - Depth(p)][0] == Addr(Ix(p, m), o - Depth(p))
    ensures ReleaseLists(p, m, o, lists[o - Depth(p) := lists[o - Depth(p)][1..]]) == lists
  {
    hide Addr, Coalesced;
    var ord := o - Depth(p);
    CoalescedPlug(p, Free);
    assert [lists[ord][0]] + lists[ord][1..] == lists[ord];
  }

  // ----- whole states -----

  /** What the allocator keeps, between calls: page descriptors, pair bits and free lists. */
  ghost predicate Resting(rs: seq<Root>, ts: seq<Tree>, d: seq<Page>, bits: seq<seq<bool>>, lists: seq<seq<nat>>) {
    Layout(rs, |d|) && BigEnough(bits, |d|) && ForestOk(rs, ts, d, bits) && ListsOk(lists, rs, ts)
  }

  /** The allocator is at work on the block at the end of p in the i-th root: it counts as
      allocated, but its descriptor does not say so. */
  ghost predicate Holding(rs: seq<Root>, ts: seq<Tree>, d: seq<Page>, bits: seq<seq<bool>>, lists: seq<seq<nat>>,
                          i: nat, p: Path) {
    && i < |rs| == |ts| && Layout(rs, |d|) && BigEnough(bits, |d|)
    && OthersOk(rs, ts, i, d, bits) && ListsOk(lists, rs, ts)
    && InHand(p, rs[i].m, rs[i].o, d, bits)
    && ts[i] == Plug(p, Used) && Fit(ts[i], rs[i].o) && Coalesced(ts[i])
  }

  lemma RestingParts(rs: seq<Root>, ts: seq<Tree>, d: seq<Page>, bits: seq<seq<bool>>, lists: seq<seq<nat>>)
    requires Resting(rs, ts, d, bits, lists)
    ensures Layout(rs, |d|) && |rs| == |ts| && |lists| == MAX_ORD + 1
    ensures forall i | 0 <= i < |rs| :: Fit(ts[i], rs[i].o) && Coalesced(ts[i])
  {
    hide Addr, Layout, BigEnough, Fit, Coalesced, RootOk, NoDup, FreeOf;
  }

  lemma {:induction false} HoldingParts(rs: seq<Root>, ts: seq<Tree>, d: seq<Page>, bits: seq<seq<bool>>,
                                        lists: seq<seq<nat>>, i: nat, p: Path)
    requires Holding(rs, ts, d, bits, lists, i, p)
    ensures i < |rs| == |ts| && ts[i] == Plug(p, Used) && |lists| == MAX_ORD + 1 && Depth(p) <= rs[i].o <= MAX_ORD
    ensures var a := Addr(Ix(p, rs[i].m), rs[i].o - Depth(p));
              a < |d| && d[a] == Page(Id(p), rs[i].o - Depth(p), FREE_ATTR)
  {
    hide Addr, BigEnough, Fit, Coalesced, PathHeads, PathBits, Clear, NoDup, FreeOf, OthersOk;
  }

  lemma SmallerEnough(bits: seq<seq<bool>>, n: nat, n': nat)
    requires BigEnough(bits, n) && n' <= n
    ensures BigEnough(bits, n')
  {
  }

  lemma {:induction false} OthersRevBit(rs: seq<Root>, ts: seq<Tree>, i: nat, n: nat, d: seq<Page>,
                                        bits: seq<seq<bool>>, p: Path)
    requires Layout(rs, n) && OthersOk(rs, ts, i, d, bits) && BigEnough(bits, n) && Depth(p) <= rs[i].o
    ensures !p.Top? ==> InRange(bits, rs[i].o - Depth(p.up), Ix(p.up, rs[i].m))
    ensures OthersOk(rs, ts, i, d, RevBit(p, rs[i].m, rs[i].o, bits)) && BigEnough(RevBit(p, rs[i].m, rs[i].o, bits), n)
  {
    SmallerEnough(bits, n, Addr(rs[i].m + 1, rs[i].o));
    UpInRange(p, rs[i].m, rs[i].o, bits);
    if !p.Top? {
      PathWithin(p.up, rs[i].m, rs[i].o);
      OthersBits(rs, ts, i, n, d, bits, RevBit(p, rs[i].m, rs[i].o, bits), Ix(p.up, rs[i].m), rs[i].o - Depth(p.up));
    }
  }

  lemma OthersTree(rs: seq<Root>, ts: seq<Tree>, i: nat, t: Tree, d: seq<Page>, bits: seq<seq<bool>>)
    requires OthersOk(rs, ts, i, d, bits)
    ensures OthersOk(rs, ts[i := t], i, d, bits)
  {
  }

  lemma {:induction false} WorkTree(p: Path, o: nat)
    requires Fit(Plug(p, Free), o) && Coalesced(Plug(p, Free))
    ensures Fit(Plug(p, Used), o) && Coalesced(Plug(p, Used))
  {
    FitPlug(p, Free, o);
    FitPlug(p, Used, o);
    CoalescedPlug(p, Free);
    CoalescedPlug(p, Used);
    NotWhole(p);
  }

  lemma WorkFree(p: Path, m: nat, o: nat)
    requires Fit(Plug(p, Used), o)
    ensures forall k :: FreeAt(Plug(p, Used), m, o, k) == PathFree(p, m, o, k)
  {
    forall k ensures FreeAt(Plug(p, Used), m, o, k) == PathFree(p, m, o, k) {
      FreePlug(p, Used, m, o, k);
    }
  }

  /** The head of a free list is taken off it. */
  lemma {:induction false} TakeFree(rs: seq<Root>, ts: seq<Tree>, d: seq<Page>, bits: seq<seq<bool>>,
                                    lists: seq<seq<nat>>, i: nat, p: Path)
    requires Resting(rs, ts, d, bits, lists) && i < |rs| && ts[i] == Plug(p, Free) && Depth(p) <= rs[i].o
    requires var l := lists[rs[i].o - Depth(p)]; l != [] && l[0] == Addr(Ix(p, rs[i].m), rs[i].o - Depth(p))
    ensures !p.Top? ==> InRange(bits, rs[i].o - Depth(p.up), Ix(p.up, rs[i].m))
    ensures var k := rs[i].o - Depth(p);
            Holding(rs, ts[i := Plug(p, Used)], d, RevBit(p, rs[i].m, rs[i].o, bits), lists[k := lists[k][1..]], i, p)
  {
    hide Addr, Pow2, Ix, Plug, PathHeads, PathBits, Clear, Heads, PairBits, OthersOk, BigEnough, FreeOf, Fit,
         Coalesced, RevBit, Flip;
    var m, o, k := rs[i].m, rs[i].o, rs[i].o - Depth(p);
    SmallerEnough(bits, |d|, Addr(m + 1, o));
    TakeStep(p, m, o, d, bits);
    WorkTree(p, o);
    WorkFree(p, m, o);
    OthersRevBit(rs, ts, i, |d|, d, bits, p);
    OthersTree(rs, ts, i, Plug(p, Used), d, RevBit(p, m, o, bits));
    var l := lists[k];
    assert forall x :: x in l <==> x == l[0] || x in l[1..];
    TakeLists(lists, l[1..], rs, ts, |d|, i, p, Plug(p, Used));
  }

  /** The block held is split; its right half goes to the tail of its list. */
  lemma {:induction false} SplitHeld(rs: seq<Root>, ts: seq<Tree>, d: seq<Page>, bits: seq<seq<bool>>,
                                     lists: seq<seq<nat>>, i: nat, p: Path)
    requires Holding(rs, ts, d, bits, lists, i, p) && Depth(p) < rs[i].o
    ensures var (q, a, k) := (InL(p, Free), Addr(Ix(p, rs[i].m), rs[i].o - Depth(p)), rs[i].o - Depth(p) - 1);
            && d[a].ord == k + 1 && a + Pow2(k) < |d| && InRange(bits, k + 1, Ix(p, rs[i].m))
            && a == Addr(Ix(q, rs[i].m), k) && a + Pow2(k) == Addr(Ix(q, rs[i].m) + 1, k)
            && Holding(rs, ts[i := Plug(q, Used)], DivPages(d, a), RevBit(q, rs[i].m, rs[i].o, bits),
                       lists[k := lists[k] + [a + Pow2(k)]], i, q)
  {
    hide Addr, Pow2, Ix, Plug, PathHeads, PathBits, Clear, OthersOk, BigEnough, FreeOf, Fit, Coalesced, RevBit, Flip,
         ListsOk, DivPages;
    var m, o := rs[i].m, rs[i].o;
    var q, a, k := InL(p, Free), Addr(Ix(p, m), o - Depth(p)), o - Depth(p) - 1;
    SmallerEnough(bits, |d|, Addr(m + 1, o));
    SplitStep(p, m, o, d, bits);
    OthersRevBit(rs, ts, i, |d|, d, bits, q);
    SplitOthers(rs, ts, d, RevBit(q, m, o, bits), i, p);
    OthersTree(rs, ts, i, Plug(q, Used), DivPages(d, a), RevBit(q, m, o, bits));
    SplitLists(rs, ts, |d|, lists, i, p);
  }

  lemma {:induction false} SplitOthers(rs: seq<Root>, ts: seq<Tree>, d: seq<Page>, bits: seq<seq<bool>>, i: nat,
                                       p: Path)
    requires Layout(rs, |d|) && OthersOk(rs, ts, i, d, bits) && Depth(p) < rs[i].o
    requires var a := Addr(Ix(p, rs[i].m), rs[i].o - Depth(p)); a < |d| && d[a].ord == rs[i].o - Depth(p)
    ensures var (a, k) := (Addr(Ix(p, rs[i].m), rs[i].o - Depth(p)), rs[i].o - Depth(p) - 1);
            a + Pow2(k) < |d| && OthersOk(rs, ts, i, DivPages(d, a), bits)
  {
    hide Addr, Pow2;
    var m, o := rs[i].m, rs[i].o;
    PathWithin(p, m, o);
    AddrKids(Ix(p, m), o - Depth(p));
    OthersFrame(rs, ts, ts, i, |d|, d, DivPages(d, Addr(Ix(p, m), o - Depth(p))), bits);
  }

  lemma {:induction false} SplitLists(rs: seq<Root>, ts: seq<Tree>, n: nat, lists: seq<seq<nat>>, i: nat, p: Path)
    requires Layout(rs, n) && ListsOk(lists, rs, ts) && i < |rs| && Depth(p) < rs[i].o
    requires ts[i] == Plug(p, Used) && Fit(ts[i], rs[i].o) && Coalesced(ts[i])
    ensures var (q, a, k) := (InL(p, Free), Addr(Ix(p, rs[i].m), rs[i].o - Depth(p)), rs[i].o - Depth(p) - 1);
            && a == Addr(Ix(q, rs[i].m), k) && a + Pow2(k) == Addr(Ix(q, rs[i].m) + 1, k)
            && Fit(Plug(q, Used), rs[i].o) && Coalesced(Plug(q, Used))
            && ListsOk(lists[k := lists[k] + [a + Pow2(k)]], rs, ts[i := Plug(q, Used)])
  {
    hide Addr, Pow2, FreeOf, NoDup;
    var m, o := rs[i].m, rs[i].o;
    var b, k := InR(p, Used), o - Depth(p) - 1;
    AddrKids(Ix(p, m), k + 1);
    FitPlug(p, Used, o);
    CoalescedPlug(p, Used);
    FitPlug(p, Split(Used, Free), o);
    CoalescedPlug(p, Split(Used, Free));
    assert Plug(b, Free) == Plug(p, Split(Used, Free)) == Plug(InL(p, Free), Used);
    WorkFree(p, m, o);
    forall j ensures FreeAt(ts[i], m, o, j) == PathFree(b, m, o, j) {
      assert PathFree(b, m, o, j) == FreeAt(Used, 2 * Ix(p, m), k, j) + PathFree(p, m, o, j);
    }
    PutLists(lists, lists[k] + [Addr(Ix(b, m), k)], rs, ts, n, i, b);
  }

  lemma JoinTree(rs: seq<Root>, ts: seq<Tree>, i: nat, d: seq<Page>, bits: seq<seq<bool>>)
    requires OthersOk(rs, ts, i, d, bits) && TreeOk(ts[i], rs[i], d, bits)
    ensures ForestOk(rs, ts, d, bits)
  {
  }

  /** One descriptor of the i-th root changes. */
  lemma OthersPage(rs: seq<Root>, ts: seq<Tree>, i: nat, d: seq<Page>, bits: seq<seq<bool>>, a: nat, pg: Page)
    requires Layout(rs, |d|) && OthersOk(rs, ts, i, d, bits)
    requires a < |d| && Addr(rs[i].m, rs[i].o) <= a < Addr(rs[i].m + 1, rs[i].o)
    ensures OthersOk(rs, ts, i, d[a := pg], bits)
  {
    OthersFrame(rs, ts, ts, i, |d|, d, d[a := pg], bits);
  }

  lemma HoleInRoot(p: Path, m: nat, o: nat)
    requires Depth(p) <= o
    ensures Addr(m, o) <= Addr(Ix(p, m), o - Depth(p)) < Addr(m + 1, o)
  {
    PathWithin(p, m, o);
    AddrNext(Ix(p, m), o - Depth(p));
  }

  /** The block held is handed out. */
  lemma {:induction false} GiveOut(rs: seq<Root>, ts: seq<Tree>, d: seq<Page>, bits: seq<seq<bool>>,
                                   lists: seq<seq<nat>>, i: nat, p: Path, attr: Attr)
    requires Holding(rs, ts, d, bits, lists, i, p) && attr.head && attr.alloc
    ensures var a := Addr(Ix(p, rs[i].m), rs[i].o - Depth(p));
            Resting(rs, ts, d[a := d[a].(attr := attr)], bits, lists)
  {
    hide Addr, Pow2, Ix, RootOk, PathHeads, PathBits, Clear, BigEnough, ListsOk, Layout, Plug;
    var a := Addr(Ix(p, rs[i].m), rs[i].o - Depth(p));
    HoleInRoot(p, rs[i].m, rs[i].o);
    HandOut(p, rs[i].m, rs[i].o, d, bits, attr);
    OthersPage(rs, ts, i, d, bits, a, d[a].(attr := attr));
    JoinTree(rs, ts, i, d[a := d[a].(attr := attr)], bits);
  }

  /** An allocated block comes back. */
  lemma {:induction false} GetBack(rs: seq<Root>, ts: seq<Tree>, d: seq<Page>, bits: seq<seq<bool>>,
                                   lists: seq<seq<nat>>, i: nat, p: Path)
    requires Resting(rs, ts, d, bits, lists) && i < |rs| && ts[i] == Plug(p, Used)
    ensures Depth(p) <= rs[i].o && Addr(Ix(p, rs[i].m), rs[i].o - Depth(p)) < |d|
    ensures var a := Addr(Ix(p, rs[i].m), rs[i].o - Depth(p));
            && d[a].buddyId == Id(p) && d[a].ord == rs[i].o - Depth(p) && d[a].attr.head && d[a].attr.alloc
            && Holding(rs, ts, d[a := d[a].(attr := FREE_ATTR)], bits, lists, i, p)
  {
    hide Addr, Pow2, Ix, Plug, RootOk, PathHeads, PathBits, Clear, Layout, BigEnough, ListsOk, Fit, Coalesced;
    TakeBack(p, rs[i].m, rs[i].o, d, bits);
    HoleInRoot(p, rs[i].m, rs[i].o);
    var a := Addr(Ix(p, rs[i].m), rs[i].o - Depth(p));
    OthersPage(rs, ts, i, d, bits, a, d[a].(attr := FREE_ATTR));
  }

  /** The block held and its free buddy become their parent, which is then held. */
  lemma {:induction false} MergeHeld(rs: seq<Root>, ts: seq<Tree>, d: seq<Page>, bits: seq<seq<bool>>,
                                     lists: seq<seq<nat>>, i: nat, p: Path)
    requires Holding(rs, ts, d, bits, lists, i, p) && !p.Top? && Sibling(p).Free?
    ensures InRange(bits, rs[i].o - Depth(p.up), Ix(p.up, rs[i].m))
    ensures var (m, o) := (rs[i].m, rs[i].o);
            Holding(rs, ts[i := Plug(p.up, Used)], MergePages(p, m, o, d), RevBit(p, m, o, bits),
                    lists[o - Depth(p) := Remove(lists[o - Depth(p)], BuddyAddr(p, m, o))], i, p.up)
  {
    var m, o := rs[i].m, rs[i].o;
    SmallerEnough(bits, |d|, Addr(m + 1, o));
    MergeStep(p, m, o, d, bits);
    OthersRevBit(rs, ts, i, |d|, d, bits, p);
    MergeOthers(rs, ts, d, RevBit(p, m, o, bits), i, p);
    OthersTree(rs, ts, i, Plug(p.up, Used), MergePages(p, m, o, d), RevBit(p, m, o, bits));
    MergeLists(rs, ts, |d|, lists, i, p);
  }

  lemma {:induction false} MergeOthers(rs: seq<Root>, ts: seq<Tree>, d: seq<Page>, bits: seq<seq<bool>>, i: nat,
                                       p: Path)
    requires Layout(rs, |d|) && OthersOk(rs, ts, i, d, bits) && !p.Top? && Depth(p) <= rs[i].o
    ensures OthersOk(rs, ts, i, MergePages(p, rs[i].m, rs[i].o, d), bits)
  {
    hide Addr, Pow2;
    var m, o := rs[i].m, rs[i].o;
    PathWithin(p.up, m, o);
    AddrKids(Ix(p.up, m), o - Depth(p.up));
    OthersFrame(rs, ts, ts, i, |d|, d, MergePages(p, m, o, d), bits);
  }

  /** The path to the buddy of the block at the end of p. */
  ghost function BuddyPath(p: Path, t: Tree): Path
    requires !p.Top?
  {
    if p.InL? then InR(p.up, t) else InL(p.up, t)
  }

  lemma {:induction false} MergeLists(rs: seq<Root>, ts: seq<Tree>, n: nat, lists: seq<seq<nat>>, i: nat, p: Path)
    requires Layout(rs, n) && ListsOk(lists, rs, ts) && i < |rs| && !p.Top? && Depth(p) <= rs[i].o && Sibling(p).Free?
    requires ts[i] == Plug(p, Used) && Fit(ts[i], rs[i].o) && Coalesced(ts[i])
    ensures Fit(Plug(p.up, Used), rs[i].o) && Coalesced(Plug(p.up, Used))
    ensures var (m, o) := (rs[i].m, rs[i].o);
            ListsOk(lists[o - Depth(p) := Remove(lists[o - Depth(p)], BuddyAddr(p, m, o))], rs,
                ts[i := Plug(p.up, Used)])
  {
    var m, o, b := rs[i].m, rs[i].o, BuddyPath(p, Used);
    var both := if p.InL? then Split(Used, Free) else Split(Free, Used);
    FitPlug(p.up, both, o);
    FitPlug(p.up, Used, o);
    CoalescedPlug(p.up, both);
    CoalescedPlug(p.up, Used);
    WorkFree(p.up, m, o);
    forall k ensures FreeAt(Plug(p.up, Used), m, o, k) == PathFree(b, m, o, k) {
      assert PathFree(b, m, o, k) == PathFree(p.up, m, o, k);
    }
    var k := o - Depth(p);
    RemoveSet(lists[k], BuddyAddr(p, m, o));
    TakeLists(lists, Remove(lists[k], BuddyAddr(p, m, o)), rs, ts, n, i, b, Plug(p.up, Used));
  }

  /** The block held becomes a free block at the head of its list. */
  lemma {:induction false} PutFree(rs: seq<Root>, ts: seq<Tree>, d: seq<Page>, bits: seq<seq<bool>>,
                                   lists: seq<seq<nat>>, i: nat, p: Path)
    requires Holding(rs, ts, d, bits, lists, i, p) && (!p.Top? ==> !Sibling(p).Free?)
    ensures !p.Top? ==> InRange(bits, rs[i].o - Depth(p.up), Ix(p.up, rs[i].m))
    ensures var k := rs[i].o - Depth(p);
            Resting(rs, ts[i := Plug(p, Free)], d, RevBit(p, rs[i].m, rs[i].o, bits),
                    lists[k := [Addr(Ix(p, rs[i].m), k)] + lists[k]])
  {
    hide Addr, Pow2;
    var m, o := rs[i].m, rs[i].o;
    SmallerEnough(bits, |d|, Addr(m + 1, o));
    PutBack(p, m, o, d, bits);
    OthersRevBit(rs, ts, i, |d|, d, bits, p);
    var bits' := RevBit(p, m, o, bits);
    OthersTree(rs, ts, i, Plug(p, Free), d, bits');
    FitPlug(p, Used, o);
    FitPlug(p, Free, o);
    CoalescedPlug(p, Used);
    CoalescedPlug(p, Free);
    JoinTree(rs, ts[i := Plug(p, Free)], i, d, bits');
    WorkFree(p, m, o);
    var k := o - Depth(p);
    PutLists(lists, [Addr(Ix(p, m), k)] + lists[k], rs, ts, |d|, i, p);
  }

  /** An allocated block is divided into two. */
  lemma {:induction false} DivUsed(rs: seq<Root>, ts: seq<Tree>, d: seq<Page>, bits: seq<seq<bool>>,
                                   lists: seq<seq<nat>>, i: nat, p: Path)
    requires Resting(rs, ts, d, bits, lists) && i < |rs| && ts[i] == Plug(p, Used) && Depth(p) < rs[i].o
    ensures var (a, k) := (Addr(Ix(p, rs[i].m), rs[i].o - Depth(p)), rs[i].o - Depth(p) - 1);
            && a < |d| && d[a].ord == k + 1 && a + Pow2(k) < |d|
            && Resting(rs, ts[i := Plug(p, Split(Used, Used))], DivPages(d, a), bits, lists)
  {
    hide Addr, Pow2, Ix, RootOk, BigEnough, Plug;
    var m, o := rs[i].m, rs[i].o;
    var t := Plug(p, Split(Used, Used));
    DivStep(p, m, o, d, bits);
    SplitOthers(rs, ts, d, bits, i, p);
    var d' := DivPages(d, Addr(Ix(p, m), o - Depth(p)));
    OthersTree(rs, ts, i, t, d', bits);
    FitPlug(p, Used, o);
    FitPlug(p, Split(Used, Used), o);
    CoalescedPlug(p, Used);
    CoalescedPlug(p, Split(Used, Used));
    JoinTree(rs, ts[i := t], i, d', bits);
    WorkFree(p, m, o);
    forall k ensures FreeAt(t, m, o, k) == FreeAt(ts[i], m, o, k) {
      FreePlug(p, Split(Used, Used), m, o, k);
    }
    SameLists(lists, rs, ts, i, t);
  }

  lemma SameLists(lists: seq<seq<nat>>, rs: seq<Root>, ts: seq<Tree>, i: nat, t: Tree)
    requires ListsOk(lists, rs, ts) && i < |rs|
    requires forall k :: FreeAt(t, rs[i].m, rs[i].o, k) == FreeAt(ts[i], rs[i].m, rs[i].o, k)
    ensures ListsOk(lists, rs, ts[i := t])
  {
    forall k | 0 <= k <= MAX_ORD ensures FreeOf(rs, ts[i := t], k) == FreeOf(rs, ts, k) {
      FreeGrows(rs, ts, i, t, k + 1, 0, k);
    }
  }

  // ----- totals -----

  lemma {:induction false} PagesUpdate(rs: seq<Root>, ts: seq<Tree>, i: nat, t: Tree)
    requires |rs| == |ts| && i < |ts|
    ensures PagesOf(rs, ts[i := t]) - UsedPages(t, rs[i].o) == PagesOf(rs, ts) - UsedPages(ts[i], rs[i].o)
  {
    if i > 0 {
      assert ts[i := t][1..] == ts[1..][i - 1 := t];
      PagesUpdate(rs[1..], ts[1..], i - 1, t);
    }
  }

  lemma {:induction false} UsedUpdates(rs: seq<Root>, ts: seq<Tree>, i: nat, t: Tree, us: set<(nat, nat)>)
    requires |rs| == |ts| && i < |ts|
    requires UsedAt(t, rs[i].m, rs[i].o) == UsedAt(ts[i], rs[i].m, rs[i].o) + us
    ensures UsedOf(rs, ts[i := t]) == UsedOf(rs, ts) + us
  {
    hide UsedAt;
    var ts' := ts[i := t];
    forall v | v in UsedOf(rs, ts) ensures v in UsedOf(rs, ts') {
      var j :| 0 <= j < |ts| && v in UsedAt(ts[j], rs[j].m, rs[j].o);
      assert v in UsedAt(ts'[j], rs[j].m, rs[j].o);
    }
    forall v | v in UsedOf(rs, ts') ensures v in UsedOf(rs, ts) || v in us {
      var j :| 0 <= j < |ts| && v in UsedAt(ts'[j], rs[j].m, rs[j].o);
      assert j != i ==> v in UsedAt(ts[j], rs[j].m, rs[j].o);
    }
    forall v | v in us ensures v in UsedOf(rs, ts') {
      assert v in UsedAt(ts'[i], rs[i].m, rs[i].o);
    }
  }

  /** An allocated block of the i-th tree is in no other tree. */
  lemma UsedElsewhere(rs: seq<Root>, ts: seq<Tree>, n: nat, i: nat, j: nat, u: (nat, nat))
    requires Layout(rs, n) && |rs| == |ts| && i < |rs| && j < |rs| && i != j
    requires Addr(rs[i].m, rs[i].o) <= u.0 < Addr(rs[i].m + 1, rs[i].o)
    ensures u !in UsedAt(ts[j], rs[j].m, rs[j].o)
  {
    if u in UsedAt(ts[j], rs[j].m, rs[j].o) {
      UsedRange(ts[j], rs[j].m, rs[j].o, u);
    }
  }

  lemma {:induction false} UsedDrop(rs: seq<Root>, ts: seq<Tree>, n: nat, i: nat, t: Tree, u: (nat, nat))
    requires Layout(rs, n) && |rs| == |ts| && i < |ts|
    requires u in UsedAt(ts[i], rs[i].m, rs[i].o)
    requires UsedAt(t, rs[i].m, rs[i].o) == UsedAt(ts[i], rs[i].m, rs[i].o) - {u}
    ensures UsedOf(rs, ts[i := t]) == UsedOf(rs, ts) - {u}
  {
    var ts' := ts[i := t];
    assert ts'[i := ts[i]] == ts;
    UsedUpdates(rs, ts', i, ts[i], {u});
    UsedRange(ts[i], rs[i].m, rs[i].o, u);
    if u in UsedOf(rs, ts') {
      var j :| 0 <= j < |ts| && u in UsedAt(ts'[j], rs[j].m, rs[j].o);
      UsedElsewhere(rs, ts', n, i, j, u);
    }
  }
}

/** kernel/mm/buddy.c, and mm_divPageGrp of kernel/mm/mm.c.  Pages are named by their frame number,
    the physical address shifted right by mm_pageShift; within a root block the arithmetic on
    descriptor pointers is the arithmetic on frame numbers. */
module Buddies {
  import opened Wrappers
  import opened Sequences
  import opened Powers
  import opened BuddySpec
  import opened BuddyTrees
  import opened BuddyForest
  import opened BuddyInit

  const PAGE_SHIFT: nat := 12 // mm_pageShift
  const PAGE_SIZE: nat := 4096

  /** Descriptors outside [lo, hi) are the same. */
  ghost predicate SameOutside(d: seq<Page>, d': seq<Page>, lo: int, hi: int) {
    |d| == |d'| && forall a | 0 <= a < |d| && !(lo <= a < hi) :: d'[a] == d[a]
  }

  /** No descriptor is newly marked as allocated, or as a page table. */
  ghost predicate Tame(d: seq<Page>, d': seq<Page>) {
    |d| == |d'| && forall a | 0 <= a < |d| :: d'[a] == d[a] || (!d'[a].attr.alloc && !d'[a].attr.mmu)
  }

  /** No descriptor is newly marked as a page table. */
  ghost predicate NoNewTables(d: seq<Page>, d': seq<Page>) {
    |d| == |d'| && forall a | 0 <= a < |d| && d'[a].attr.mmu :: d'[a] == d[a]
  }

  class Buddy {
    const pages: array<Page>
    var revBit: seq<seq<bool>>
    var freeLst: seq<seq<nat>>
    var totUsage: int
    ghost var roots: seq<Root>
    ghost var trees: seq<Tree>

    ghost predicate Valid()
      reads this, pages
    {
      && Resting(roots, trees, pages[..], revBit, freeLst)
      && totUsage == PAGE_SIZE * PagesOf(roots, trees)
    }

    /** The allocator is at work on the block at the end of p in the i-th root. */
    ghost predicate Held(i: nat, p: Path, page: nat)
      reads this, pages
    {
      && Holding(roots, trees, pages[..], revBit, freeLst, i, p)
      && page == Addr(Ix(p, roots[i].m), roots[i].o - Depth(p))
    }

    /** First page and order of every allocated block. */
    ghost function Allocated(): set<(nat, nat)>
      requires |roots| == |trees|
      reads this`roots, this`trees
    {
      UsedOf(roots, trees)
    }

    /** A managed page marked as the head of an allocated block is one: no stale copy of such a
        descriptor is left inside a block. */
    ghost predicate Clean()
      reads this, pages
    {
      |roots| == |trees| &&
          forall a | 0 <= a < pages.Length && Reached(roots, a) && pages[a].attr.head && pages[a].attr.alloc ::
                              (a, pages[a].ord) in Allocated()
    }

    /** mm_buddy_init: zones are given by the first page still available and the page after the
        last, in address order.  The page descriptors are those of mm_init. */
    constructor (descs: array<Page>, zones: seq<(nat, nat)>)
      requires forall z | 0 <= z < |zones| :: zones[z].0 <= zones[z].1 <= descs.Length
      requires forall z | 0 <= z < |zones| - 1 :: zones[z].1 <= zones[z + 1].0
      modifies descs
      ensures Valid() && pages == descs && AllFree(trees) && Allocated() == {} && totUsage == 0
      ensures forall k | 0 <= k <= MAX_ORD :: freeLst[k] == RootList(roots, k)
      ensures Inside(roots, zones) && forall z | 0 <= z < |zones| :: Covered(roots, zones[z].0, zones[z].1)
      ensures Tame(old(descs[..]), pages[..])
      ensures (forall a | 0 <= a < descs.Length && Reached(roots, a) :: !old(descs[a].attr.alloc)) ==> Clean()
    {
      pages := descs;
      revBit := ClearMaps(descs.Length, MAX_ORD + 1);
      freeLst := seq(MAX_ORD + 1, _ => []);
      totUsage := 0;
      roots, trees := [], [];
      new;
      MapsBig(descs.Length);
      ghost var at: nat := 0;
      for z := 0 to |zones|
        invariant SetUp(roots, trees, pages[..], revBit, freeLst, at) && Inside(roots, zones) && totUsage == 0
        invariant z < |zones| ==> at <= zones[z].0
        invariant forall y | 0 <= y < z :: Covered(roots, zones[y].0, zones[y].1)
        invariant Tame(old(descs[..]), pages[..])
      {
        ghost var before := roots;
        TileZone(zones, z, at);
        forall y | 0 <= y < z ensures Covered(roots, zones[y].0, zones[y].1) {
          CoverKept(before, roots, zones[y].0, zones[y].1);
        }
        at := zones[z].1;
      }
      NothingYet(roots, trees);
    }

    /** The loop of mm_buddy_init over one zone. */
    method TileZone(zones: seq<(nat, nat)>, z: nat, ghost at: nat)
      requires SetUp(roots, trees, pages[..], revBit, freeLst, at) && Inside(roots, zones)
      requires z < |zones| && at <= zones[z].0 <= zones[z].1 <= pages.Length
      modifies this`freeLst, this`roots, this`trees, pages
      ensures SetUp(roots, trees, pages[..], revBit, freeLst, zones[z].1) && Inside(roots, zones)
      ensures Covered(roots, zones[z].0, zones[z].1) && forall r | r in old(roots) :: r in roots
      ensures Tame(old(pages[..]), pages[..])
    {
      hide SetUp, Inside, Addr, Shift, Best, Pow2;
      var addr := zones[z].0;
      SetUpAt(roots, trees, pages[..], revBit, freeLst, at, addr);
      assert Covered(roots, addr, addr);
      while addr < zones[z].1
        invariant zones[z].0 <= addr <= zones[z].1
        invariant SetUp(roots, trees, pages[..], revBit, freeLst, addr) && Inside(roots, zones)
        invariant Covered(roots, zones[z].0, addr) && forall r | r in old(roots) :: r in roots
        invariant Tame(old(pages[..]), pages[..])
      {
        var ord := FindOrd(addr, zones[z].1);
        ghost var r := Root(Shift(addr, ord), ord);
        RootAt(addr, ord, zones[z].1);
        AddRoot(roots, trees, pages[..], revBit, freeLst, addr, r);
        CoverMore(roots, r, zones[z].0);
        InsideMore(roots, r, zones, z);
        ghost var d := pages[..];
        pages[addr] := Page(1, ord, Attr(true, false, false, false));
        assert pages[..] == d[addr := Page(1, ord, FREE_ATTR)];
        freeLst := freeLst[ord := freeLst[ord] + [addr]];
        roots, trees := roots + [r], trees + [Free];
        addr := addr + Pow2(ord);
      }
    }

    /** _revBit: a root has no pair, any other block has the bit found by shifting its address. */
    method RevBitOf(page: nat)
      requires page < pages.Length
      requires pages[page].buddyId != 1 ==> InRange(revBit, pages[page].ord + 1, Shift(page, pages[page].ord + 1))
      modifies this`revBit
      ensures revBit == if pages[page].buddyId == 1 then old(revBit)
                        else Flip(old(revBit), pages[page].ord + 1, Shift(page, pages[page].ord + 1))
    {
      if pages[page].buddyId == 1 {
        return;
      }
      var ord := pages[page].ord;
      var bitId := Shift(page, ord + 1);
      revBit := revBit[ord + 1 := revBit[ord + 1][bitId := !revBit[ord + 1][bitId]]];
    }

    /** page heads the block at the end of p, in a root with index m and order o. */
    ghost predicate Heading(page: nat, p: Path, m: nat, o: nat)
      reads pages
    {
      && Depth(p) <= o && page == Addr(Ix(p, m), o - Depth(p))
      && page < pages.Length && pages[page].buddyId == Id(p) && pages[page].ord == o - Depth(p)
    }

    /** _getBit: the bit of the pair that the block is half of; true for a root. */
    method GetBit(page: nat, ghost p: Path, ghost m: nat, ghost o: nat) returns (b: bool)
      requires Heading(page, p, m, o) && (!p.Top? ==> InRange(revBit, o - Depth(p.up), Ix(p.up, m)))
      ensures b <==> p.Top? || Bit(revBit, o - Depth(p.up), Ix(p.up, m))
    {
      BlockBits(p, m, o, pages[..], revBit);
      if pages[page].buddyId == 1 {
        return true;
      }
      var ord := pages[page].ord;
      b := revBit[ord + 1][Shift(page, ord + 1)];
    }

    /** _getBuddy: the other half of the block's parent. */
    method GetBuddy(page: nat, ghost p: Path, ghost m: nat, ghost o: nat) returns (bud: int)
      requires Heading(page, p, m, o)
      ensures !p.Top? ==> bud == BuddyAddr(p, m, o)
      ensures p.Top? ==> bud == page - Pow2(o)
    {
      hide Ix, Addr, BuddyAddr, Pow2;
      if !p.Top? { BuddySide(p, m, o); }
      if pages[page].buddyId % 2 == 1 {
        bud := page - Pow2(pages[page].ord);
      } else {
        bud := page + Pow2(pages[page].ord);
      }
    }

    /** mm_divPageGrp */
    method DivPageGrp(grpHdr: nat) returns (rPart: Option<nat>)
      requires grpHdr < pages.Length
      requires pages[grpHdr].ord > 0 ==> grpHdr + Pow2(pages[grpHdr].ord - 1) < pages.Length
      modifies pages
      ensures old(pages[grpHdr].ord) == 0 ==> rPart == None && pages[..] == old(pages[..])
      ensures old(pages[grpHdr].ord) > 0 ==>
                && rPart == Some(grpHdr + Pow2(old(pages[grpHdr].ord) - 1))
                && pages[..] == DivPages(old(pages[..]), grpHdr)
    {
      if pages[grpHdr].ord == 0 {
        return None;
      }
      pages[grpHdr] := pages[grpHdr].(ord := pages[grpHdr].ord - 1);
      var r := grpHdr + Pow2(pages[grpHdr].ord);
      pages[r] := Page(2 * pages[grpHdr].buddyId + 1, pages[grpHdr].ord, pages[grpHdr].attr);
      pages[grpHdr] := pages[grpHdr].(buddyId := 2 * pages[grpHdr].buddyId);
      return Some(r);
    }

    lemma FindFree(ord: nat, page: nat) returns (i: nat, p: Path)
      requires Resting(roots, trees, pages[..], revBit, freeLst) && ord <= MAX_ORD && page in freeLst[ord]
      ensures i < |roots| && Depth(p) <= roots[i].o && ord == roots[i].o - Depth(p)
      ensures page == Addr(Ix(p, roots[i].m), ord) && trees[i] == Plug(p, Free)
    {
      hide Addr, Pow2, Layout, BigEnough, RootOk, Coalesced;
      assert page in FreeOf(roots, trees, ord);
      i :| 0 <= i < |trees| && page in FreeAt(trees[i], roots[i].m, roots[i].o, ord);
      p := LocateFree(Top, trees[i], roots[i].m, roots[i].o, ord, page);
    }

    lemma FindUsed(u: (nat, nat)) returns (i: nat, p: Path)
      requires Resting(roots, trees, pages[..], revBit, freeLst) && u in Allocated()
      ensures i < |roots| && Depth(p) <= roots[i].o && u.1 == roots[i].o - Depth(p)
      ensures u.0 == Addr(Ix(p, roots[i].m), u.1) && trees[i] == Plug(p, Used)
    {
      hide Addr, Pow2, Layout, BigEnough, RootOk, Coalesced;
      i :| 0 <= i < |trees| && u in UsedAt(trees[i], roots[i].m, roots[i].o);
      p := LocateUsed(Top, trees[i], roots[i].m, roots[i].o, u);
    }

    method TakeRaw(ord: nat) returns (page: nat)
      requires ord < |freeLst| && freeLst[ord] != [] && freeLst[ord][0] < pages.Length
      requires var pg := pages[freeLst[ord][0]];
               pg.buddyId != 1 ==> InRange(revBit, pg.ord + 1, Shift(freeLst[ord][0], pg.ord + 1))
      modifies this`freeLst, this`revBit
      ensures page == old(freeLst[ord])[0] && freeLst == old(freeLst)[ord := old(freeLst[ord])[1..]]
      ensures revBit == if pages[page].buddyId == 1 then old(revBit)
                        else Flip(old(revBit), pages[page].ord + 1, Shift(page, pages[page].ord + 1))
    {
      page := freeLst[ord][0];
      freeLst := freeLst[ord := freeLst[ord][1..]];
      RevBitOf(page);
    }

    /** The first block of freeLst[ord] is taken off the list. */
    method Take(ord: nat) returns (page: nat, ghost i: nat, ghost p: Path)
      requires Resting(roots, trees, pages[..], revBit, freeLst) && ord <= MAX_ORD && freeLst[ord] != []
      modifies this`freeLst, this`revBit, this`trees
      ensures page == old(freeLst[ord])[0] && freeLst == old(freeLst)[ord := old(freeLst[ord])[1..]]
      ensures i < |roots| == |trees| == |old(trees)|
      ensures old(trees)[i] == Plug(p, Free) && trees == old(trees)[i := Plug(p, Used)]
      ensures Held(i, p, page) && ord == roots[i].o - Depth(p)
    {
      hide Addr, Pow2, Ix, Plug, BigEnough, Layout, FreeOf, Shift, Fit, Coalesced, Flip, RevBit, PathHeads, PathBits,
           Clear, NoDup;
      i, p := FindFree(ord, freeLst[ord][0]);
      TakeFree(roots, trees, pages[..], revBit, freeLst, i, p);
      BlockBits(p, roots[i].m, roots[i].o, pages[..], revBit);
      page := TakeRaw(ord);
      trees := trees[i := Plug(p, Used)];
    }

    /** One round of the splitting loop, without what it means. */
    method SplitRaw(page: nat, k: nat)
      requires page < pages.Length && 0 < k == pages[page].ord && page + Pow2(k - 1) < pages.Length && k <= |freeLst|
      requires pages[page].buddyId > 0 && InRange(revBit, k, Shift(page + Pow2(k - 1), k))
      modifies this`freeLst, this`revBit, pages
      ensures pages[..] == DivPages(old(pages[..]), page)
      ensures revBit == Flip(old(revBit), k, Shift(page + Pow2(k - 1), k))
      ensures freeLst == old(freeLst)[k - 1 := old(freeLst[k - 1]) + [page + Pow2(k - 1)]]
    {
      var rPage := DivPageGrp(page);
      assert pages[page + Pow2(k - 1)] == DivPages(old(pages[..]), page)[page + Pow2(k - 1)];
      RevBitOf(rPage.value);
      freeLst := freeLst[k - 1 := freeLst[k - 1] + [rPage.value]];
    }

    method SplitOnce(page: nat, k: nat, ghost i: nat, ghost p: Path)
      requires Held(i, p, page) && Depth(p) < roots[i].o && k == roots[i].o - Depth(p)
      modifies this`freeLst, this`revBit, this`trees, pages
      ensures Held(i, InL(p, Free), page) && trees == old(trees)[i := Plug(InL(p, Free), Used)]
      ensures freeLst == old(freeLst)[k - 1 := old(freeLst[k - 1]) + [page + Pow2(k - 1)]]
      ensures SameOutside(old(pages[..]), pages[..], page, page + Pow2(k)) && Tame(old(pages[..]), pages[..])
    {
      hide Addr, Ix, Plug, Holding, Flip, Shift;
      HoldingParts(roots, trees, pages[..], revBit, freeLst, i, p);
      SplitHeld(roots, trees, pages[..], revBit, freeLst, i, p);
      HalfBit(p, roots[i].m, roots[i].o);
      SplitRaw(page, k);
      trees := trees[i := Plug(InL(p, Free), Used)];
    }

    /** The splitting loop of mm_allocPages. */
    method CarveDown(page: nat, resOrd: nat, log2Size: nat, ghost i: nat, ghost p: Path) returns (ghost q: Path)
      requires Held(i, p, page) && log2Size <= resOrd == roots[i].o - Depth(p)
      modifies this`freeLst, this`revBit, this`trees, pages
      ensures Held(i, q, page) && q == Down(p, resOrd - log2Size)
      ensures trees == old(trees)[i := Plug(q, Used)]
      ensures freeLst == CarveLists(old(freeLst), page, resOrd, log2Size)
      ensures SameOutside(old(pages[..]), pages[..], page, page + Pow2(resOrd)) && Tame(old(pages[..]), pages[..])
    {
      hide Addr, Pow2, Ix, Down, CarveLists, Plug, SameOutside, Tame, BigEnough, OthersOk, InHand, Fit, Coalesced;
      var k := resOrd;
      q := p;
      Untouched(pages[..], page, page + Pow2(resOrd));
      while k > log2Size
        invariant log2Size <= k <= resOrd && Held(i, q, page) && k == roots[i].o - Depth(q)
        invariant Down(q, k - log2Size) == Down(p, resOrd - log2Size)
        invariant CarveLists(freeLst, page, k, log2Size) == CarveLists(old(freeLst), page, resOrd, log2Size)
        invariant trees == old(trees)[i := Plug(q, Used)]
        invariant SameOutside(old(pages[..]), pages[..], page, page + Pow2(resOrd)) && Tame(old(pages[..]), pages[..])
      {
        PowMonotone(k, resOrd);
        CarveListsStep(freeLst, page, k, log2Size);
        DownStep(q, k - log2Size);
        ghost var d := pages[..];
        SplitOnce(page, k, i, q);
        Touched(old(pages[..]), d, pages[..], page, page + Pow2(k), page + Pow2(resOrd));
        q := InL(q, Free);
        k := k - 1;
      }
      DownNone(q);
      CarveNone(freeLst, page, k);
    }

    /** The first list from order k on that is not empty. */
    method FirstOrd(k: nat) returns (ord: nat)
      requires k <= MAX_ORD && |freeLst| == MAX_ORD + 1
      ensures k <= ord <= MAX_ORD + 1 && (ord <= MAX_ORD ==> freeLst[ord] != [])
      ensures forall j | k <= j < ord :: freeLst[j] == []
    {
      ord := k;
      while ord <= MAX_ORD && freeLst[ord] == []
        invariant k <= ord <= MAX_ORD + 1
        invariant forall j | k <= j < ord :: freeLst[j] == []
      {
        ord := ord + 1;
      }
    }

    method HandOver(page: nat, attr: Attr, ghost i: nat, ghost p: Path)
      requires Held(i, p, page)
      modifies pages
      ensures Resting(roots, trees, pages[..], revBit, freeLst)
      ensures page < pages.Length && pages[page].attr == attr.(head := true, alloc := true)
      ensures pages[page].ord == roots[i].o - Depth(p)
      ensures SameOutside(old(pages[..]), pages[..], page, page + 1)
    {
      hide Addr, Ix, Plug, Fit, Coalesced, OthersOk, ListsOk, ForestOk, InHand, BigEnough, Layout, Resting, Holding;
      HoldingParts(roots, trees, pages[..], revBit, freeLst, i, p);
      ghost var a := attr.(head := true, alloc := true);
      GiveOut(roots, trees, pages[..], revBit, freeLst, i, p, a);
      ghost var d := pages[..];
      pages[page] := pages[page].(attr := attr.(head := true, alloc := true));
      assert pages[..] == d[page := d[page].(attr := a)];
    }

    /** mm_allocPages once the list to take from is found. */
    method AllocFrom(resOrd: nat, log2Size: nat, attr: Attr) returns (page: nat, ghost i: nat, ghost p: Path)
      requires Resting(roots, trees, pages[..], revBit, freeLst)
      requires log2Size <= resOrd <= MAX_ORD && freeLst[resOrd] != []
      modifies this`freeLst, this`revBit, this`trees, pages
      ensures Resting(roots, trees, pages[..], revBit, freeLst)
      ensures page == old(freeLst[resOrd])[0]
      ensures freeLst == CarveLists(old(freeLst)[resOrd := old(freeLst[resOrd])[1..]], page, resOrd, log2Size)
      ensures i < |roots| && Depth(p) <= roots[i].o
      ensures resOrd == roots[i].o - Depth(p) && page == Addr(Ix(p, roots[i].m), resOrd)
      ensures old(trees)[i] == Plug(p, Free) && trees == old(trees)[i := Plug(p, Carve(resOrd - log2Size))]
      ensures page < pages.Length && pages[page].attr == attr.(head := true, alloc := true)
      ensures pages[page].ord == log2Size
      ensures SameOutside(old(pages[..]), pages[..], page, page + Pow2(resOrd))
      ensures forall a | 0 <= a < pages.Length && a != page ::
                pages[a] == old(pages[a]) || (!pages[a].attr.alloc && !pages[a].attr.mmu)
    {
      hide Addr, Ix, Plug, CarveLists, Resting, Holding, Carve, Down;
      page, i, p := Take(resOrd);
      ghost var q := CarveDown(page, resOrd, log2Size, i, p);
      DownFacts(p, resOrd - log2Size);
      assert trees == old(trees)[i := Plug(q, Used)];
      HandOver(page, attr, i, q);
    }

    /** mm_allocPages.  Where the kernel would spin for ever, the result is None. */
    method AllocPages(log2Size: nat, attr: Attr) returns (r: Option<nat>, ghost ord: nat, ghost i: nat, ghost p: Path)
      requires Valid()
      modifies this, pages
      ensures Valid() && roots == old(roots)
      ensures r == None <==> forall k | log2Size <= k <= MAX_ORD :: old(freeLst[k]) == []
      ensures r == None ==> trees == old(trees) && freeLst == old(freeLst) && pages[..] == old(pages[..])
      ensures r.Some? ==>
                && log2Size <= ord <= MAX_ORD && (forall k | log2Size <= k < ord :: old(freeLst[k]) == [])
                && old(freeLst[ord]) != [] && r.value == old(freeLst[ord])[0]
                && freeLst == CarveLists(old(freeLst)[ord := old(freeLst[ord])[1..]], r.value, ord, log2Size)
      ensures r.Some? ==>
                && i < |roots| && Depth(p) <= roots[i].o
                && ord == roots[i].o - Depth(p) && r.value == Addr(Ix(p, roots[i].m), ord)
                && old(trees)[i] == Plug(p, Free) && trees == old(trees)[i := Plug(p, Carve(ord - log2Size))]
      ensures r.Some? ==>
                (r.value, log2Size) !in old(Allocated()) && Allocated() == old(Allocated()) + {(r.value, log2Size)}
      ensures r.Some? ==>
                r.value < pages.Length && pages[r.value].attr == attr.(head := true, alloc := true) &&
                    pages[r.value].ord == log2Size
      ensures forall u | u in old(Allocated()) && u.0 < pages.Length :: pages[u.0] == old(pages[u.0])
      ensures !attr.mmu ==> NoNewTables(old(pages[..]), pages[..])
      ensures old(Clean()) ==> Clean()
    {
      hide Addr, Pow2, Ix, Plug, Carve, CarveLists, UsedOf, PagesOf, Resting, Layout, Fit, Coalesced;
      ord, i, p := 0, 0, Top;
      RestingParts(roots, trees, pages[..], revBit, freeLst);
      if log2Size > MAX_ORD {
        return None, ord, i, p;
      }
      var resOrd := FirstOrd(log2Size);
      if resOrd > MAX_ORD {
        return None, ord, i, p;
      }
      ghost var ts := trees;
      ord := resOrd;
      var page;
      page, i, p := AllocFrom(resOrd, log2Size, attr);
      totUsage := totUsage + Pow2(log2Size + PAGE_SHIFT);
      BytesOf(log2Size);
      AllocEffect(roots, ts, pages.Length, i, p, log2Size);
      UsedAvoidsFree(roots, ts, pages.Length, i, p);
      r := Some(page);
    }

    /** _revBit followed by _getBit. */
    method FlipTest(page: nat, ghost p: Path, ghost m: nat, ghost o: nat) returns (b: bool)
      requires Heading(page, p, m, o) && (!p.Top? ==> InRange(revBit, o - Depth(p.up), Ix(p.up, m)))
      modifies this`revBit
      ensures revBit == if pages[page].buddyId == 1 then old(revBit)
                        else Flip(old(revBit), pages[page].ord + 1, Shift(page, pages[page].ord + 1))
      ensures b <==> pages[page].buddyId == 1 || Bit(revBit, pages[page].ord + 1, Shift(page, pages[page].ord + 1))
    {
      hide Shift, Flip, Bit, Ix, Addr, Id, Pow2, BuddyAddr;
      BlockBits(p, m, o, pages[..], revBit);
      RevBitOf(page);
      b := GetBit(page, p, m, o);
    }

    /** One round of merging after the test: the buddy leaves its list, the right one of the two
        stops being a block and the left one becomes the parent. */
    method MergeRaw(page: nat, ghost p: Path, ghost m: nat, ghost o: nat) returns (l: nat)
      requires Heading(page, p, m, o) && !p.Top?
      requires page < pages.Length && pages[page].attr == FREE_ATTR && pages[page].ord < |freeLst|
      requires pages[page].buddyId % 2 == 1 ==> Pow2(pages[page].ord) <= page
      requires var bud := if pages[page].buddyId % 2 == 1 then page - Pow2(pages[page].ord)
                 else page + Pow2(pages[page].ord);
               && bud < pages.Length && pages[bud].ord == pages[page].ord && pages[bud].attr == FREE_ATTR
               && bud in freeLst[pages[page].ord]
      modifies this`freeLst, pages
      ensures var (id, k) := (old(pages[page].buddyId), old(pages[page].ord));
              var (bud, r) := if id % 2 == 1 then (page - Pow2(k), page) else (page + Pow2(k), page + Pow2(k));
              && l == r - Pow2(k)
              && freeLst == old(freeLst)[k := Remove(old(freeLst[k]), BuddyAddr(p, m, o))]
              && pages[..] == old(pages[..])[r := Page(0, 0, Attr(false, false, false, false))]
                                            [l := Page(old(pages[l].buddyId) / 2, k + 1, FREE_ATTR)]
              && SameOutside(old(pages[..]), pages[..], l, l + Pow2(k) + Pow2(k))
              && l <= page && page + Pow2(k) <= l + Pow2(k) + Pow2(k)
      ensures Tame(old(pages[..]), pages[..])
    {
      hide Ix, Addr, Id, BuddyAddr, Pow2, Remove;
      BuddySide(p, m, o);
      var bud: nat := GetBuddy(page, p, m, o);
      freeLst := freeLst[pages[bud].ord := Remove(freeLst[pages[bud].ord], bud)];
      if pages[page].buddyId % 2 == 1 {
        pages[page] := Page(0, 0, pages[page].attr.(head := false));
        l := bud;
      } else {
        pages[bud] := Page(0, 0, pages[bud].attr.(head := false));
        l := page;
      }
      pages[l] := pages[l].(buddyId := pages[l].buddyId / 2, ord := pages[l].ord + 1);
    }

    /** One round of the loop of mm_freePages. */
    method Round(page: nat, ghost i: nat, ghost p: Path) returns (done: bool, next: nat)
      requires Held(i, p, page)
      modifies this`freeLst, this`revBit, this`trees, pages
      ensures i < |roots| == |old(trees)| == |trees| && (done <==> p.Top? || !Sibling(p).Free?)
      ensures done ==> trees == old(trees)
      ensures done ==> pages[..] == old(pages[..]) && freeLst == old(freeLst) && next == page
      ensures done ==> var k := roots[i].o - Depth(p);
                page < pages.Length && pages[page].ord == k < |freeLst| &&
                    Resting(roots, old(trees)[i := Plug(p, Free)], pages[..], revBit, freeLst[k := [page] + freeLst[k]])
      ensures !done ==> Held(i, p.up, next) && trees == old(trees)[i := Plug(p.up, Used)]
      ensures !done ==> var k := roots[i].o - Depth(p);
                k < |old(freeLst)| && freeLst ==
                    old(freeLst)[k := Remove(old(freeLst[k]), BuddyAddr(p, roots[i].m, roots[i].o))]
      ensures !done ==> var k := roots[i].o - Depth(p);
                && SameOutside(old(pages[..]), pages[..], next, next + Pow2(k + 1))
                && next <= page && page + Pow2(k) <= next + Pow2(k + 1)
      ensures Tame(old(pages[..]), pages[..])
    {
      hide Addr, Pow2, Ix, Plug, Shift, Flip, Bit, InRange, Remove, BuddyAddr, Id, Holding, Resting;
      RoundFacts(roots, trees, pages[..], revBit, freeLst, i, p);
      next := page;
      done := FlipTest(page, p, roots[i].m, roots[i].o);
      if !done {
        next := MergeRaw(page, p, roots[i].m, roots[i].o);
        trees := trees[i := Plug(p.up, Used)];
      }
    }

    /** The loop of mm_freePages: it ends at a block that only has to be put on its list. */
    method Climb(page: nat, ghost i: nat, ghost p: Path) returns (pg: nat, ghost q: Path)
      requires Held(i, p, page)
      modifies this`freeLst, this`revBit, this`trees, pages
      ensures i < |roots| && Depth(p) <= roots[i].o <= MAX_ORD
      ensures Depth(q) <= roots[i].o && |freeLst| == |old(freeLst)| == MAX_ORD + 1
      ensures var k := roots[i].o - Depth(q);
              && pg < pages.Length && pages[pg].ord == k && pg == Addr(Ix(q, roots[i].m), k)
              && Resting(roots, trees, pages[..], revBit, freeLst[k := [pg] + freeLst[k]])
              && SameOutside(old(pages[..]), pages[..], pg, pg + Pow2(k)) && pg <= page < pg + Pow2(k)
              && freeLst[k := [pg] + freeLst[k]] == ReleaseLists(p, roots[i].m, roots[i].o, old(freeLst))
      ensures Release(p) == Plug(q, Free) && i < |old(trees)| && trees == old(trees)[i := Plug(q, Free)]
      ensures Tame(old(pages[..]), pages[..])
    {
      hide Addr, Ix, Plug, Fit, Coalesced, Holding, Resting, Remove, BuddyAddr, Id, Pow2;
      HoldingParts(roots, trees, pages[..], revBit, freeLst, i, p);
      var ord: nat := pages[page].ord;
      pg, q := page, p;
      while ord <= MAX_ORD
        invariant Held(i, q, pg) && Depth(q) <= roots[i].o <= MAX_ORD
        invariant ord == roots[i].o - Depth(q) && |freeLst| == MAX_ORD + 1
        invariant SameOutside(old(pages[..]), pages[..], pg, pg + Pow2(ord)) && pg <= page < pg + Pow2(ord)
        invariant i < |old(trees)| && trees == old(trees)[i := Plug(q, Used)]
        invariant Release(q) == Release(p) && Tame(old(pages[..]), pages[..])
        invariant ReleaseLists(q, roots[i].m, roots[i].o, freeLst) ==
                    ReleaseLists(p, roots[i].m, roots[i].o, old(freeLst))
      {
        var done, next := Round(pg, i, q);
        if done {
          trees := trees[i := Plug(q, Free)];
          break;
        }
        pg := next;
        q := q.up;
        ord := ord + 1;
      }
    }

    /** The loop of mm_freePages and the list insertion after it. */
    method MergeUp(page: nat, ghost i: nat, ghost p: Path) returns (ghost q: Path)
      requires Held(i, p, page)
      modifies this`freeLst, this`revBit, this`trees, pages
      ensures Resting(roots, trees, pages[..], revBit, freeLst) && trees == old(trees)[i := Release(p)]
      ensures freeLst == ReleaseLists(p, roots[i].m, roots[i].o, old(freeLst))
      ensures i < |roots| && Depth(q) <= roots[i].o && Release(p) == Plug(q, Free)
      ensures var a := Addr(Ix(q, roots[i].m), roots[i].o - Depth(q));
              SameOutside(old(pages[..]), pages[..], a, a + Pow2(roots[i].o - Depth(q))) &&
                  a <= page < a + Pow2(roots[i].o - Depth(q))
      ensures Tame(old(pages[..]), pages[..])
    {
      hide *;
      var pg;
      pg, q := Climb(page, i, p);
      freeLst := freeLst[pages[pg].ord := [pg] + freeLst[pages[pg].ord]];
    }

    /** mm_freePages, for any managed page of a clean allocator.  A descriptor that is not that of an
        allocated block makes the kernel spin for ever; the result is then false. */
    method FreePages(page: nat) returns (ok: bool, ghost i: nat, ghost p: Path)
      requires Valid() && page < pages.Length
      requires (Clean() && Reached(roots, page)) ||
               (pages[page].attr.head && pages[page].attr.alloc ==> (page, pages[page].ord) in Allocated())
      modifies this, pages
      ensures Valid() && roots == old(roots)
      ensures ok <==> old(pages[page].attr.head && pages[page].attr.alloc)
      ensures !ok ==> trees == old(trees) && freeLst == old(freeLst) && pages[..] == old(pages[..])
      ensures ok ==>
                && i < |roots| && Depth(p) <= roots[i].o && old(pages[page].ord) == roots[i].o - Depth(p)
                && page == Addr(Ix(p, roots[i].m), roots[i].o - Depth(p))
                && old(trees)[i] == Plug(p, Used) && trees == old(trees)[i := Release(p)]
                && freeLst == ReleaseLists(p, roots[i].m, roots[i].o, old(freeLst))
      ensures ok ==>
                && (page, old(pages[page].ord)) in old(Allocated())
                && Allocated() == old(Allocated()) - {(page, old(pages[page].ord))}
      ensures forall u | u in Allocated() && u.0 < pages.Length :: pages[u.0] == old(pages[u.0])
      ensures ok ==> Tame(old(pages[..]), pages[..]) && !pages[page].attr.alloc
      ensures NoNewTables(old(pages[..]), pages[..])
      ensures old(Clean()) ==> Clean()
    {
      hide Addr, Pow2, Ix, Plug, Fit, Coalesced, Heads, PathHeads, PathBits, Clear, BigEnough, UsedOf, PagesOf,
           Release, ReleaseLists, RootOk, InHand;
      i, p := 0, Top;
      if !pages[page].attr.head || !pages[page].attr.alloc {
        return false, i, p;
      }
      ghost var ts, d := trees, pages[..];
      i, p := FindUsed((page, pages[page].ord));
      ReleaseEffect(roots, trees, pages.Length, i, p);
      GetBack(roots, trees, pages[..], revBit, freeLst, i, p);
      BytesOf(pages[page].ord);
      totUsage := totUsage - Pow2(pages[page].ord + PAGE_SHIFT);
      pages[page] := pages[page].(attr := FREE_ATTR);
      assert pages[..] == d[page := d[page].(attr := FREE_ATTR)];
      ghost var q := MergeUp(page, i, p);
      UsedAvoidsFree(roots, trees, pages.Length, i, q);
      ok := true;
    }

    /** An allocated block gets other attribute bits. */
    method SetAttr(page: nat, attr: Attr)
      requires Valid() && page < pages.Length && (page, pages[page].ord) in Allocated() && attr.head && attr.alloc
      modifies pages
      ensures Valid() && pages[..] == old(pages[..])[page := old(pages[page]).(attr := attr)]
      ensures old(Clean()) ==> Clean()
    {
      hide Addr, Pow2, Ix, Plug, Fit, Coalesced, Heads, PathHeads, PathBits, Clear, OthersOk, ForestOk, BigEnough,
           ListsOk, Layout, UsedOf, PagesOf;
      ghost var d := pages[..];
      ghost var i, p := FindUsed((page, pages[page].ord));
      GetBack(roots, trees, d, revBit, freeLst, i, p);
      ghost var d1 := d[page := d[page].(attr := FREE_ATTR)];
      GiveOut(roots, trees, d1, revBit, freeLst, i, p, attr);
      pages[page] := pages[page].(attr := attr);
      assert pages[..] == d1[page := d1[page].(attr := attr)];
    }

    /** mm_divPageGrp on an allocated block, behind the allocator's back: the two halves are then
        allocated blocks that can be freed one by one. */
    method Divide(page: nat) returns (right: nat, ghost i: nat, ghost p: Path)
      requires Valid() && page < pages.Length && (page, pages[page].ord) in Allocated() && pages[page].ord > 0
      modifies this`trees, pages
      ensures Valid() && right == page + Pow2(old(pages[page].ord) - 1)
      ensures i < |roots| && old(trees)[i] == Plug(p, Used) && trees == old(trees)[i := Plug(p, Split(Used, Used))]
      ensures var k := old(pages[page].ord) - 1;
              && Allocated() == old(Allocated()) - {(page, k + 1)} + {(page, k), (right, k)}
              && right < pages.Length
              && pages[page].ord == pages[right].ord == k
              && pages[page].attr == pages[right].attr == old(pages[page].attr)
              && forall a | 0 <= a < pages.Length && a != page && a != right :: pages[a] == old(pages[a])
      ensures !old(pages[page].attr.mmu) ==> NoNewTables(old(pages[..]), pages[..])
      ensures old(Clean()) ==> Clean()
    {
      hide Addr, Pow2, Ix, Plug, Fit, Coalesced, Heads, PathHeads, PathBits, Clear, BigEnough, UsedOf, PagesOf;
      ghost var d := pages[..];
      i, p := FindUsed((page, pages[page].ord));
      DivideEffect(roots, trees, pages.Length, i, p);
      DivUsed(roots, trees, pages[..], revBit, freeLst, i, p);
      var r := DivPageGrp(page);
      right := r.value;
      trees := trees[i := Plug(p, Split(Used, Used))];
      assert forall a | 0 <= a < pages.Length :: pages[a] == DivPages(d, page)[a];
    }
  }

  lemma SetUpAt(rs: seq<Root>, ts: seq<Tree>, d: seq<Page>, bits: seq<seq<bool>>, lists: seq<seq<nat>>, at: nat,
                at': nat)
    requires SetUp(rs, ts, d, bits, lists, at) && at <= at'
    ensures SetUp(rs, ts, d, bits, lists, at')
  {
  }

  lemma {:induction false} RootAt(addr: nat, ord: nat, ed: nat)
    requires Best(ord, addr, ed)
    ensures Addr(Shift(addr, ord), ord) == addr
    ensures Addr(Shift(addr, ord) + 1, ord) == addr + Pow2(ord) <= ed && ord <= MAX_ORD
  {
    AddrNext(Shift(addr, ord), ord);
  }

  lemma {:induction false} NothingYet(rs: seq<Root>, ts: seq<Tree>)
    requires |rs| == |ts| && AllFree(ts)
    ensures UsedOf(rs, ts) == {} && PagesOf(rs, ts) == 0
  {
    if ts != [] { NothingYet(rs[1..], ts[1..]); }
  }

  /** What a round of merging finds and what its updates lead to. */
  lemma {:induction false} RoundFacts(rs: seq<Root>, ts: seq<Tree>, d: seq<Page>, bits: seq<seq<bool>>,
                                      lists: seq<seq<nat>>, i: nat, p: Path)
    requires Holding(rs, ts, d, bits, lists, i, p)
    ensures Depth(p) <= rs[i].o && rs[i].o - Depth(p) <= MAX_ORD && |lists| == MAX_ORD + 1 && i < |rs| == |ts|
    ensures var (a, k) := (Addr(Ix(p, rs[i].m), rs[i].o - Depth(p)), rs[i].o - Depth(p));
            && a < |d| && d[a] == Page(Id(p), k, FREE_ATTR) && (d[a].buddyId == 1 <==> p.Top?)
            && (!p.Top? ==>
                 InRange(bits, k + 1, Shift(a, k + 1)) && InRange(bits, rs[i].o - Depth(p.up), Ix(p.up, rs[i].m)))
            && ((p.Top? || Bit(Flip(bits, k + 1, Shift(a, k + 1)), k + 1, Shift(a, k + 1))) <==>
                 (p.Top? || !Sibling(p).Free?))
    ensures var (a, k) := (Addr(Ix(p, rs[i].m), rs[i].o - Depth(p)), rs[i].o - Depth(p));
            p.Top? || !Sibling(p).Free? ==>
              Resting(rs, ts[i := Plug(p, Free)], d,
                      if p.Top? then bits else Flip(bits, k + 1, Shift(a, k + 1)), lists[k := [a] + lists[k]])
    ensures var (a, k) := (Addr(Ix(p, rs[i].m), rs[i].o - Depth(p)), rs[i].o - Depth(p));
            !p.Top? && Sibling(p).Free? ==>
              var b := BuddyAddr(p, rs[i].m, rs[i].o);
              && b < |d| && d[b].ord == k && d[b].attr == FREE_ATTR && b in lists[k] && Pow2(k + 1) == Pow2(k) + Pow2(k)
              && b == (if Id(p) % 2 == 1 then a - Pow2(k) else a + Pow2(k))
              && var (l, r) := if Id(p) % 2 == 1 then (b, a) else (a, b);
                 && l == Addr(Ix(p.up, rs[i].m), k + 1)
                 && Holding(rs, ts[i := Plug(p.up, Used)],
                      d[r := Page(0, 0, Attr(false, false, false, false))]
                       [l := Page(d[l].buddyId / 2, k + 1, FREE_ATTR)],
                      Flip(bits, k + 1, Shift(a, k + 1)), lists[k := Remove(lists[k], b)], i, p.up)
  {
    hide Addr, Pow2, Ix, Plug, Shift, Fit, Coalesced, Flip, RevBit, PathHeads, PathBits, Clear, OthersOk, Remove,
         BigEnough, Bit, ListsOk, Layout, InHand, ForestOk, Id, BuddyAddr, InRange, Resting;
    HeldBits(rs, ts, d, bits, lists, i, p);
    if p.Top? || !Sibling(p).Free? {
      PutFree(rs, ts, d, bits, lists, i, p);
    } else {
      MergeHeld(rs, ts, d, bits, lists, i, p);
      BuddyHead(rs, ts, d, bits, lists, i, p);
    }
  }

  /** Releasing removes one block from the allocated ones. */
  lemma ReleaseEffect(rs: seq<Root>, ts: seq<Tree>, n: nat, i: nat, p: Path)
    requires Layout(rs, n) && |rs| == |ts| && i < |rs| && ts[i] == Plug(p, Used)
    requires Fit(ts[i], rs[i].o) && Coalesced(ts[i])
    ensures Depth(p) <= rs[i].o
    ensures var k := rs[i].o - Depth(p);
            var u := (Addr(Ix(p, rs[i].m), k), k);
            && u in UsedOf(rs, ts) && UsedOf(rs, ts[i := Release(p)]) == UsedOf(rs, ts) - {u}
            && PagesOf(rs, ts[i := Release(p)]) + Pow2(k) == PagesOf(rs, ts)
  {
    hide Addr, Pow2, Ix, Plug, Fit, Coalesced, Layout, UsedAt, PagesOf, Release;
    var m, o := rs[i].m, rs[i].o;
    ReleaseTree(p, m, o);
    var u := (Addr(Ix(p, m), o - Depth(p)), o - Depth(p));
    UsedDrop(rs, ts, n, i, Release(p), u);
    PagesUpdate(rs, ts, i, Release(p));
    assert u in UsedAt(ts[i], rs[i].m, rs[i].o);
  }

  /** Dividing puts two blocks in the place of one. */
  lemma DivideEffect(rs: seq<Root>, ts: seq<Tree>, n: nat, i: nat, p: Path)
    requires Layout(rs, n) && |rs| == |ts| && i < |rs| && ts[i] == Plug(p, Used) && Depth(p) < rs[i].o
    ensures var k := rs[i].o - Depth(p) - 1;
            var a := Addr(Ix(p, rs[i].m), k + 1);
            var ts' := ts[i := Plug(p, Split(Used, Used))];
            && UsedOf(rs, ts') == UsedOf(rs, ts) - {(a, k + 1)} + {(a, k), (a + Pow2(k), k)}
            && PagesOf(rs, ts') == PagesOf(rs, ts)
  {
    hide Addr, Ix, Plug, Layout, UsedOf, PagesOf;
    var m, o, k := rs[i].m, rs[i].o, rs[i].o - Depth(p) - 1;
    var a, t := Addr(Ix(p, m), k + 1), Plug(p, Split(Used, Used));
    var b := Plug(p, Free);
    AddrKids(Ix(p, m), k + 1);
    UsedPlug(p, Used, m, o);
    UsedPlug(p, Free, m, o);
    UsedPlug(p, Split(Used, Used), m, o);
    PagesPlug(p, Used, o);
    PagesPlug(p, Split(Used, Used), o);
    PagesUpdate(rs, ts, i, t);
    HoleNotInPath(p, m, o, k + 1);
    UsedDrop(rs, ts, n, i, b, (a, k + 1));
    assert UsedAt(t, m, o) == UsedAt(b, m, o) + {(a, k), (a + Pow2(k), k)};
    UsedUpdates(rs, ts[i := b], i, t, {(a, k), (a + Pow2(k), k)});
    assert ts[i := b][i := t] == ts[i := t];
  }

  lemma ListsLength(lists: seq<seq<nat>>, rs: seq<Root>, ts: seq<Tree>)
    requires ListsOk(lists, rs, ts)
    ensures |lists| == MAX_ORD + 1
  {
  }

  /** What the round's test sees. */
  lemma {:induction false} HeldBits(rs: seq<Root>, ts: seq<Tree>, d: seq<Page>, bits: seq<seq<bool>>,
                                    lists: seq<seq<nat>>, i: nat, p: Path)
    requires Holding(rs, ts, d, bits, lists, i, p)
    ensures !p.Top? ==> InRange(bits, rs[i].o - Depth(p.up), Ix(p.up, rs[i].m))
    ensures var (a, k) := (Addr(Ix(p, rs[i].m), rs[i].o - Depth(p)), rs[i].o - Depth(p));
            var bits' := RevBit(p, rs[i].m, rs[i].o, bits);
            && a < |d| && d[a] == Page(Id(p), k, FREE_ATTR) && k <= MAX_ORD && |lists| == MAX_ORD + 1
            && (d[a].buddyId == 1 <==> p.Top?)
            && (!p.Top? ==> InRange(bits, k + 1, Shift(a, k + 1)))
            && bits' == (if p.Top? then bits else Flip(bits, k + 1, Shift(a, k + 1)))
            && ((p.Top? || Bit(bits', k + 1, Shift(a, k + 1))) <==> (p.Top? || !Sibling(p).Free?))
  {
    hide Addr, Pow2, Ix, Plug, Fit, Coalesced, PathHeads, PathBits, Clear, OthersOk, BigEnough, ListsOk, Shift, RevBit,
         Flip, Bit, InRange;
    var m, o := rs[i].m, rs[i].o;
    ListsLength(lists, rs, ts);
    OthersRevBit(rs, ts, i, |d|, d, bits, p);
    BlockBits(p, m, o, d, bits);
    if !p.Top? {
      BitTells(p, m, o, bits);
    }
  }

  /** The free buddy has its descriptor and is on its list. */
  lemma {:induction false} BuddyHead(rs: seq<Root>, ts: seq<Tree>, d: seq<Page>, bits: seq<seq<bool>>,
                                     lists: seq<seq<nat>>, i: nat, p: Path)
    requires Holding(rs, ts, d, bits, lists, i, p) && !p.Top? && Sibling(p).Free?
    ensures var (m, o, k) := (rs[i].m, rs[i].o, rs[i].o - Depth(p));
            var (a, b) := (Addr(Ix(p, m), k), BuddyAddr(p, m, o));
            && a < |d| && b < |d| && d[b].ord == k && d[b].attr == FREE_ATTR && k < |lists| && b in lists[k]
            && (Id(p) % 2 == 1 <==> p.InR?) && b == (if p.InR? then a - Pow2(k) else a + Pow2(k))
            && d[if p.InR? then b else a].buddyId / 2 == Id(p.up)
            && Addr(Ix(p.up, m), k + 1) == (if p.InR? then b else a) && Pow2(k + 1) == Pow2(k) + Pow2(k)
  {
    hide Addr, Plug, Fit, Coalesced, OthersOk, NoDup, BigEnough, Clear;
    var m, o, k := rs[i].m, rs[i].o, rs[i].o - Depth(p);
    IdBounds(p);
    AddrKids(Ix(p.up, m), k + 1);
    WorkFree(p, m, o);
    var b := BuddyAddr(p, m, o);
    assert b in FreeAt(ts[i], m, o, k);
    assert b in FreeOf(rs, ts, k);
  }

  lemma Untouched(d: seq<Page>, lo: int, hi: int)
    ensures SameOutside(d, d, lo, hi) && Tame(d, d)
  {
  }

  lemma Touched(d: seq<Page>, d1: seq<Page>, d2: seq<Page>, lo: int, mid: int, hi: int)
    requires SameOutside(d, d1, lo, hi) && Tame(d, d1) && SameOutside(d1, d2, lo, mid) && Tame(d1, d2) && mid <= hi
    ensures SameOutside(d, d2, lo, hi) && Tame(d, d2)
  {
  }

  lemma DownStep(p: Path, n: nat)
    requires n > 0
    ensures Down(p, n) == Down(InL(p, Free), n - 1) && Depth(InL(p, Free)) == Depth(p) + 1
  {
  }

  lemma {:induction false} DownNone(p: Path)
    ensures Down(p, 0) == p
  {
  }

  lemma {:induction false} CarveNone(lists: seq<seq<nat>>, a: nat, k: nat)
    requires k <= MAX_ORD && |lists| == MAX_ORD + 1
    ensures CarveLists(lists, a, k, k) == lists
  {
  }

  lemma CarveListsStep(lists: seq<seq<nat>>, a: nat, ord: nat, k: nat)
    requires k < ord <= MAX_ORD && |lists| == MAX_ORD + 1
    ensures CarveLists(lists, a, ord, k) ==
              CarveLists(lists[ord - 1 := lists[ord - 1] + [a + Pow2(ord - 1)]], a, ord - 1, k)
  {
  }

  lemma BytesOf(k: nat)
    ensures Pow2(k + PAGE_SHIFT) == PAGE_SIZE * Pow2(k)
  {
    PowAdd(k, PAGE_SHIFT);
    assert Pow2(PAGE_SHIFT) == PAGE_SIZE by { assert Pow2(6) == 64; PowAdd(6, 6); }
  }

  lemma UsedNowhere(rs: seq<Root>, ts: seq<Tree>, n: nat, i: nat, u: (nat, nat))
    requires Layout(rs, n) && |rs| == |ts| && i < |rs| && u !in UsedAt(ts[i], rs[i].m, rs[i].o)
    requires Addr(rs[i].m, rs[i].o) <= u.0 < Addr(rs[i].m + 1, rs[i].o)
    ensures u !in UsedOf(rs, ts)
  {
    hide Addr, UsedAt, Layout;
    if u in UsedOf(rs, ts) {
      var j :| 0 <= j < |ts| && u in UsedAt(ts[j], rs[j].m, rs[j].o);
      UsedElsewhere(rs, ts, n, i, j, u);
    }
  }

  /** Allocated blocks do not start inside a free block. */
  lemma {:induction false} UsedAvoidsFree(rs: seq<Root>, ts: seq<Tree>, n: nat, i: nat, p: Path)
    requires Layout(rs, n) && |rs| == |ts| && i < |rs| && ts[i] == Plug(p, Free) && Depth(p) <= rs[i].o
    ensures forall u | u in UsedOf(rs, ts) ::
              var (a, k) := (Addr(Ix(p, rs[i].m), rs[i].o - Depth(p)), rs[i].o - Depth(p)); !(a <= u.0 < a + Pow2(k))
  {
    hide Addr, UsedAt, Pow2, Ix, Layout, Plug;
    var m, o := rs[i].m, rs[i].o;
    var k := o - Depth(p);
    PathWithin(p, m, o);
    AddrNext(Ix(p, m), k);
    UsedPlug(p, Free, m, o);
    assert UsedAt(Free, Ix(p, m), k) == {} by { NoneInFree(Ix(p, m), k); }
    forall u | u in UsedOf(rs, ts) ensures !(Addr(Ix(p, m), k) <= u.0 < Addr(Ix(p, m), k) + Pow2(k)) {
      var j :| 0 <= j < |ts| && u in UsedAt(ts[j], rs[j].m, rs[j].o);
      if Addr(Ix(p, m), k) <= u.0 < Addr(Ix(p, m), k) + Pow2(k) {
        if j == i {
          PathUsedOutside(p, m, o, u);
        } else {
          UsedElsewhere(rs, ts, n, i, j, u);
        }
      }
    }
  }

  lemma {:induction false} NoneInFree(m: nat, o: nat)
    ensures UsedAt(Free, m, o) == {}
  {
  }

  /** Allocating at the end of p adds one block to the allocated ones. */
  lemma {:induction false} AllocEffect(rs: seq<Root>, ts: seq<Tree>, n: nat, i: nat, p: Path, k: nat)
    requires Layout(rs, n) && |rs| == |ts| && i < |rs| && ts[i] == Plug(p, Free)
    requires Depth(p) <= rs[i].o && k <= rs[i].o - Depth(p)
    requires Fit(ts[i], rs[i].o) && Coalesced(ts[i])
    ensures var (ts', u) := (ts[i := Plug(p, Carve(rs[i].o - Depth(p) - k))],
              (Addr(Ix(p, rs[i].m), rs[i].o - Depth(p)), k));
            && UsedOf(rs, ts') == UsedOf(rs, ts) + {u} && u !in UsedOf(rs, ts)
            && PagesOf(rs, ts') == PagesOf(rs, ts) + Pow2(k)
  {
    hide *;
    var m, o := rs[i].m, rs[i].o;
    var t, u := Plug(p, Carve(o - Depth(p) - k)), (Addr(Ix(p, m), o - Depth(p)), k);
    AllocTree(p, o - Depth(p) - k, m, o);
    UsedUpdates(rs, ts, i, t, {u});
    PagesUpdate(rs, ts, i, t);
    HoleInRoot(p, m, o);
    UsedNowhere(rs, ts, n, i, u);
  }

  /** The bit that _revBit and _getBit look at is that of the block's pair. */
  lemma {:induction false} BlockBits(p: Path, m: nat, o: nat, d: seq<Page>, bits: seq<seq<bool>>)
    requires Depth(p) <= o && Addr(Ix(p, m), o - Depth(p)) < |d|
    requires !p.Top? ==> InRange(bits, o - Depth(p.up), Ix(p.up, m))
    requires var pg := d[Addr(Ix(p, m), o - Depth(p))]; pg.buddyId == Id(p) && pg.ord == o - Depth(p)
    ensures var (a, k) := (Addr(Ix(p, m), o - Depth(p)), o - Depth(p));
            && (d[a].buddyId == 1 <==> p.Top?)
            && (!p.Top? ==> (
                && k + 1 == o - Depth(p.up) && Shift(a, k + 1) == Ix(p.up, m) && InRange(bits, k + 1, Shift(a, k + 1))
                && (d[a].buddyId % 2 == 1 <==> p.InR?)
                && BuddyAddr(p, m, o) == (if p.InR? then a - Pow2(k) else a + Pow2(k))))
            && RevBit(p, m, o, bits) == if p.Top? then bits else Flip(bits, k + 1, Shift(a, k + 1))
  {
    IdBounds(p);
    ShiftAddr(Ix(p, m), o - Depth(p));
    if !p.Top? {
      AddrKids(Ix(p.up, m), o - Depth(p.up));
    }
  }

  /** The parity of the heap number tells on which side the buddy lies. */
  lemma {:induction false} BuddySide(p: Path, m: nat, o: nat)
    requires !p.Top? && Depth(p) <= o
    ensures var (a, k) := (Addr(Ix(p, m), o - Depth(p)), o - Depth(p));
            BuddyAddr(p, m, o) == if Id(p) % 2 == 1 then a - Pow2(k) else a + Pow2(k)
  {
    IdBounds(p);
    AddrKids(Ix(p.up, m), o - Depth(p.up));
  }

  lemma {:induction false} HalfBit(p: Path, m: nat, o: nat)
    requires Depth(p) < o
    ensures var (a, k) := (Addr(Ix(p, m), o - Depth(p)), o - Depth(p));
            Shift(a + Pow2(k - 1), k) == Ix(p, m) && Id(p) > 0
  {
    IdBounds(p);
    AddrKids(Ix(p, m), o - Depth(p));
    ShiftAddr(2 * Ix(p, m) + 1, o - Depth(p) - 1);
  }
}

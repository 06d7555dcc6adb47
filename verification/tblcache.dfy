/** The page-table frame cache of kernel/mm/map.c: a stack of allocated page groups that are split
    behind the buddy allocator's back and given back to it frame by frame. */
module TblCaches {
  import opened Wrappers
  import opened Powers
  import opened BuddySpec
  import opened BuddyInit
  import opened BuddyTrees
  import opened BuddyForest
  import opened Buddies
  import opened BuddyLaws

  const CACHE_SHIFT: nat := 10 // nrTblCacheShift
  const NR_TBL_CACHE: nat := 1024

  /** The number of tables in the groups, of 2^lg pages each. */
  ghost function Tables(gs: seq<nat>, d: seq<Page>, lg: nat): nat {
    if gs == [] then 0
    else
      var g := gs[|gs| - 1];
      Tables(gs[..|gs| - 1], d, lg) + if g < |d| && d[g].ord >= lg then Pow2(d[g].ord - lg) else 0
  }

  /** g is the head of an allocated group in the cache. */
  ghost predicate GroupOk(g: nat, used: set<(nat, nat)>, d: seq<Page>, lg: nat) {
    g < |d| && d[g].ord >= lg && (g, d[g].ord) in used && d[g].attr.head && d[g].attr.alloc && !d[g].attr.mmu
  }

  /** f is the head of a table that is in use. */
  ghost predicate TableOk(f: nat, used: set<(nat, nat)>, d: seq<Page>, lg: nat) {
    f < |d| && d[f].ord == lg && (f, lg) in used && d[f].attr.head && d[f].attr.alloc && d[f].attr.mmu
  }

  /** The stack gs holds n tables, and the tables of `out` are in use. */
  ghost predicate CacheOk(gs: seq<nat>, n: nat, out: set<nat>, used: set<(nat, nat)>, d: seq<Page>, lg: nat) {
    && n == Tables(gs, d, lg) <= NR_TBL_CACHE
    && (forall k | 0 <= k < |gs| :: GroupOk(gs[k], used, d, lg) && gs[k] !in out)
    && (forall j, k | 0 <= j < k < |gs| :: gs[j] != gs[k])
    && forall f | f in out :: TableOk(f, used, d, lg)
  }

  /** There are no more groups than tables, so the stack never overflows. */
  lemma {:induction false} GroupsFewer(gs: seq<nat>, used: set<(nat, nat)>, d: seq<Page>, lg: nat)
    requires forall k | 0 <= k < |gs| :: GroupOk(gs[k], used, d, lg)
    ensures |gs| <= Tables(gs, d, lg)
  {
    if gs != [] { GroupsFewer(gs[..|gs| - 1], used, d, lg); }
  }

  lemma {:induction false} TablesFrame(gs: seq<nat>, d: seq<Page>, d': seq<Page>, lg: nat)
    requires |d| == |d'| && forall k | 0 <= k < |gs| :: gs[k] < |d| && d'[gs[k]].ord == d[gs[k]].ord
    ensures Tables(gs, d', lg) == Tables(gs, d, lg)
  {
    if gs != [] { TablesFrame(gs[..|gs| - 1], d, d', lg); }
  }

  /** Other users of the buddy allocator do not disturb the cache: it is enough that its own
      blocks stay allocated and keep their descriptors. */
  lemma CacheFrame(gs: seq<nat>, n: nat, out: set<nat>, used: set<(nat, nat)>, d: seq<Page>, lg: nat,
                   used': set<(nat, nat)>, d': seq<Page>)
    requires CacheOk(gs, n, out, used, d, lg) && |d'| == |d|
    requires forall g | (g in gs || g in out) && g < |d| ::
               d'[g] == d[g] && ((g, d[g].ord) in used ==> (g, d[g].ord) in used')
    ensures CacheOk(gs, n, out, used', d', lg)
  {
    forall k | 0 <= k < |gs| ensures GroupOk(gs[k], used', d', lg) && gs[k] !in out {
      assert gs[k] in gs && GroupOk(gs[k], used, d, lg);
    }
    TablesFrame(gs, d, d', lg);
  }

  /** Splitting the group on top of the stack. */
  lemma SplitTop(gs: seq<nat>, n: nat, out: set<nat>, used: set<(nat, nat)>, d: seq<Page>, lg: nat,
                                    right: nat, used': set<(nat, nat)>, d': seq<Page>)
    requires CacheOk(gs, n, out, used, d, lg) && gs != [] && |d'| == |d|
    requires var g := gs[|gs| - 1]; g < |d| && d[g].ord > lg && right == g + Pow2(d[g].ord - 1) && right < |d|
    requires var (g, k) := (gs[|gs| - 1], d[gs[|gs| - 1]].ord);
             && (forall u | u in used :: u == (g, k) || Apart(u, (g, k)))
             && used' == used - {(g, k)} + {(g, k - 1), (right, k - 1)}
             && d'[g].ord == d'[right].ord == k - 1 && d'[g].attr == d'[right].attr == d[g].attr
             && forall a | 0 <= a < |d| && a != g && a != right :: d'[a] == d[a]
    ensures CacheOk(gs + [right], n, out, used', d', lg) && |gs| + 1 <= NR_TBL_CACHE
  {
    hide Tables, Pow2;
    var top := |gs| - 1;
    var g, k := gs[top], d[gs[top]].ord;
    forall j | 0 <= j < top ensures gs[j] != right && d'[gs[j]] == d[gs[j]] && GroupOk(gs[j], used', d', lg) {
      ApartHead((gs[j], d[gs[j]].ord), (g, k), right);
    }
    forall f | f in out ensures f != right && TableOk(f, used', d', lg) {
      ApartHead((f, lg), (g, k), right);
    }
    SplitTables(gs, right, d, d', lg);
    GroupsFewer(gs + [right], used', d', lg);
  }

  /** The two halves hold as many tables as the group did. */
  lemma {:induction false} SplitTables(gs: seq<nat>, right: nat, d: seq<Page>, d': seq<Page>, lg: nat)
    requires gs != [] && |d| == |d'| && gs[|gs| - 1] < |d| && right < |d| && d[gs[|gs| - 1]].ord > lg
    requires d'[gs[|gs| - 1]].ord == d'[right].ord == d[gs[|gs| - 1]].ord - 1
    requires forall j | 0 <= j < |gs| - 1 :: gs[j] < |d| && d'[gs[j]] == d[gs[j]]
    ensures Tables(gs + [right], d', lg) == Tables(gs, d, lg)
  {
    assert (gs + [right])[..|gs|] == gs;
    TablesFrame(gs[..|gs| - 1], d, d', lg);
  }

  /** A block apart from (g, k) does not start at the middle of (g, k). */
  lemma ApartHead(u: (nat, nat), v: (nat, nat), right: nat)
    requires Apart(u, v) && v.1 > 0 && right == v.0 + Pow2(v.1 - 1)
    ensures u.0 != right && u.0 != v.0
  {
  }

  lemma EmptyStack(gs: seq<nat>, n: nat, out: set<nat>, used: set<(nat, nat)>, d: seq<Page>, lg: nat)
    requires CacheOk(gs, n, out, used, d, lg)
    ensures n == 0 <==> gs == []
  {
    GroupsFewer(gs, used, d, lg);
    if gs != [] { assert GroupOk(gs[0], used, d, lg); }
  }

  lemma OneOrder(used: set<(nat, nat)>, g: nat, a: nat, b: nat)
    requires (g, a) in used && a != b && forall u, v | u in used && v in used :: u == v || Apart(u, v)
    ensures (g, b) !in used
  {
    assert !Apart((g, a), (g, b));
  }

  /** A fresh group of 2^10 tables on the empty stack. */
  lemma FreshGroup(g: nat, out: set<nat>, used: set<(nat, nat)>, d: seq<Page>, lg: nat)
    requires CacheOk([], 0, out, used, d, lg) && g < |d|
    requires d[g].ord == CACHE_SHIFT + lg && (g, CACHE_SHIFT + lg) in used
    requires d[g].attr.head && d[g].attr.alloc && !d[g].attr.mmu
    requires forall u, v | u in used && v in used :: u == v || Apart(u, v)
    ensures CacheOk([g], NR_TBL_CACHE, out, used, d, lg)
  {
    OneOrder(used, g, CACHE_SHIFT + lg, lg);
    assert [g][..0] == [];
    assert Tables([g], d, lg) == Tables([], d, lg) + Pow2(CACHE_SHIFT);
    assert Pow2(CACHE_SHIFT) == 1024 by { PowAdd(5, 5); }
  }

  /** The top group, once it is a single table, leaves the stack and is marked as in use. */
  lemma PopTop(gs: seq<nat>, n: nat, out: set<nat>, used: set<(nat, nat)>, d: seq<Page>, lg: nat)
    requires CacheOk(gs, n, out, used, d, lg) && gs != []
    requires gs[|gs| - 1] < |d| && d[gs[|gs| - 1]].ord == lg
    ensures var g := gs[|gs| - 1];
            n > 0 && CacheOk(gs[..|gs| - 1], n - 1, out + {g}, used, d[g := d[g].(attr := d[g].attr.(mmu := true))], lg)
  {
    var g, top := gs[|gs| - 1], |gs| - 1;
    assert GroupOk(gs[top], used, d, lg);
    TablesFrame(gs[..top], d, d[g := d[g].(attr := d[g].attr.(mmu := true))], lg);
  }

  /** A table comes back to the stack. */
  lemma PushTable(gs: seq<nat>, n: nat, out: set<nat>, used: set<(nat, nat)>, d: seq<Page>, lg: nat, f: nat)
    requires CacheOk(gs, n, out, used, d, lg) && f in out && n < NR_TBL_CACHE
    ensures TableOk(f, used, d, lg)
    ensures CacheOk(gs + [f], n + 1, out - {f}, used, d[f := d[f].(attr := d[f].attr.(mmu := false))], lg)
  {
    var gs', d' := gs + [f], d[f := d[f].(attr := d[f].attr.(mmu := false))];
    assert TableOk(f, used, d, lg);
    assert gs'[..|gs|] == gs;
    forall k | 0 <= k < |gs'| ensures GroupOk(gs'[k], used, d', lg) && gs'[k] !in out - {f} {
      if k < |gs| { assert GroupOk(gs[k], used, d, lg); }
    }
    TablesFrame(gs, d, d', lg);
  }

  ghost function OwnedBy(gs: seq<nat>, out: set<nat>): set<nat> { out + set g | g in gs }

  /** Splitting the top group leaves the others alone. */
  lemma SplitSpares(gs: seq<nat>, out: set<nat>, used: set<(nat, nat)>, d: seq<Page>, right: nat,
                    used': set<(nat, nat)>, d': seq<Page>)
    requires gs != [] && |d'| == |d|
    requires var g := gs[|gs| - 1]; g < |d| && d[g].ord > 0 && right == g + Pow2(d[g].ord - 1) && right < |d|
    requires var (g, k) := (gs[|gs| - 1], d[gs[|gs| - 1]].ord);
             && (forall u | u in used :: u == (g, k) || Apart(u, (g, k)))
             && used' == used - {(g, k)} + {(g, k - 1), (right, k - 1)}
             && forall a | 0 <= a < |d| && a != g && a != right :: d'[a] == d[a]
    ensures OthersKept(OwnedBy(gs, out), used, d, OwnedBy(gs + [right], out), used', d')
  {
    var g, k := gs[|gs| - 1], d[gs[|gs| - 1]].ord;
    forall u | u in used && u.0 !in OwnedBy(gs, out) && u.0 < |d|
      ensures u in used' && u.0 !in OwnedBy(gs + [right], out) && d'[u.0] == d[u.0]
    {
      assert u.0 != g by { assert g in gs; }
      ApartHead(u, (g, k), right);
    }
  }

  /** A fresh block of the cache is nobody else's. */
  lemma FreshOthers(g: nat, k: nat, out: set<nat>, used: set<(nat, nat)>, d: seq<Page>, used': set<(nat, nat)>,
                    d': seq<Page>)
    requires used' == used + {(g, k)} && (g, k) !in used && |d'| == |d|
    requires forall u, v | u in used' && v in used' :: u == v || Apart(u, v)
    requires forall u | u in used && u.0 < |d| :: d'[u.0] == d[u.0]
    ensures OthersKept(OwnedBy([], out), used, d, OwnedBy([g], out), used', d')
  {
    forall u | u in used && u.0 !in OwnedBy([], out) && u.0 < |d|
      ensures u in used' && u.0 !in OwnedBy([g], out) && d'[u.0] == d[u.0]
    {
      if u.0 == g { OneOrder(used', g, k, u.1); }
    }
  }

  class TblCache {
    const buddy: Buddy
    const allocLg2: nat // log2 of the pages per table
    const cache: array<nat> // _tblGrpCache
    var nrTblGrp: nat
    var nrTbl: nat
    ghost var out: set<nat>

    ghost predicate Valid()
      reads this, cache, buddy, buddy.pages
    {
      && buddy.Valid() && cache.Length == 2 * NR_TBL_CACHE && nrTblGrp <= cache.Length
      && CacheOk(cache[..nrTblGrp], nrTbl, out, buddy.Allocated(), buddy.pages[..], allocLg2)
    }

    /** The first pages of the blocks that the cache or its clients hold. */
    ghost function Owned(): set<nat>
      requires nrTblGrp <= cache.Length
      reads this, cache
    {
      OwnedBy(cache[..nrTblGrp], out)
    }

    /** A managed page marked as a page table is one in use. */
    ghost predicate Marked()
      reads this, buddy, buddy.pages
    {
      forall a | 0 <= a < buddy.pages.Length && Reached(buddy.roots, a) && buddy.pages[a].attr.mmu &&
          buddy.pages[a].attr.head :: a in out
    }

    /** The static data before mm_map_init. */
    constructor (b: Buddy, lg: nat)
      requires b.Valid()
      ensures Valid() && buddy == b && allocLg2 == lg && nrTbl == 0 && out == {} && Owned() == {} && fresh(cache)
    {
      buddy, allocLg2 := b, lg;
      cache := new nat[2 * NR_TBL_CACHE];
      nrTblGrp, nrTbl, out := 0, 0, {};
      new;
      assert cache[..0] == [];
    }

    /** _initCache, called when the cache is empty.  The kernel spins if there is no memory; the
        result is then false and nothing has changed. */
    method InitCache() returns (ok: bool)
      requires Valid() && nrTbl == 0
      modifies this`nrTblGrp, this`nrTbl, cache, buddy, buddy.pages
      ensures Valid()
      ensures ok ==> (
                && nrTbl == NR_TBL_CACHE
                && (cache[0], CACHE_SHIFT + allocLg2) !in old(buddy.Allocated())
                && buddy.Allocated() == old(buddy.Allocated()) + {(cache[0], CACHE_SHIFT + allocLg2)})
      ensures !ok <==> forall k | CACHE_SHIFT + allocLg2 <= k <= MAX_ORD :: old(buddy.freeLst[k]) == []
      ensures !ok ==> nrTbl == 0 && buddy.Allocated() == old(buddy.Allocated())
      ensures OthersKept(old(Owned()), old(buddy.Allocated()), old(buddy.pages[..]), Owned(), buddy.Allocated(),
                buddy.pages[..])
      ensures (old(buddy.Clean()) ==> buddy.Clean()) && (old(Marked()) ==> Marked()) && buddy.roots == old(buddy.roots)
    {
      hide CacheOk, Pow2, UsedOf, Buddy.Clean, CarveLists, Layout, BigEnough, ForestOk, PagesOf, Addr, Plug, Tables, Ix;
      EmptyStack(cache[..nrTblGrp], nrTbl, out, buddy.Allocated(), buddy.pages[..], allocLg2);
      assert cache[..nrTblGrp] == [];
      ghost var used, d := buddy.Allocated(), buddy.pages[..];
      var r, ord, i, p := buddy.AllocPages(CACHE_SHIFT + allocLg2, Attr(false, false, false, true));
      ok := r.Some?;
      OutKept(out, used, d, allocLg2, buddy.Allocated(), buddy.pages[..]);
      if ok {
        nrTblGrp := 1;
        nrTbl := NR_TBL_CACHE;
        cache[0] := r.value;
        assert cache[..1] == [r.value];
        UsedAllApart(buddy.roots, buddy.trees, buddy.pages.Length);
        FreshGroup(r.value, out, buddy.Allocated(), buddy.pages[..], allocLg2);
        FreshOthers(r.value, CACHE_SHIFT + allocLg2, out, used, d, buddy.Allocated(), buddy.pages[..]);
      }
    }

    /** The splitting loop of mm_map_allocTbl. */
    method SplitToTable()
      requires Valid() && nrTblGrp > 0
      modifies this`nrTblGrp, cache, buddy`trees, buddy.pages
      ensures Valid() && nrTblGrp > 0 && cache[nrTblGrp - 1] < buddy.pages.Length
      ensures buddy.pages[cache[nrTblGrp - 1]].ord == allocLg2
      ensures OthersKept(old(Owned()), old(buddy.Allocated()), old(buddy.pages[..]), Owned(), buddy.Allocated(),
                buddy.pages[..])
      ensures (old(buddy.Clean()) ==> buddy.Clean()) && (old(Marked()) ==> Marked()) && buddy.roots == old(buddy.roots)
    {
      hide Tables, BigEnough, ForestOk, PagesOf, Pow2, UsedOf, Buddy.Clean;
      assert GroupOk(cache[..nrTblGrp][nrTblGrp - 1], buddy.Allocated(), buddy.pages[..], allocLg2);
      while buddy.pages[cache[nrTblGrp - 1]].ord > allocLg2
        invariant Valid() && nrTblGrp > 0 && cache[nrTblGrp - 1] < buddy.pages.Length
        invariant old(buddy.Clean()) ==> buddy.Clean()
        invariant (old(Marked()) ==> Marked()) && buddy.roots == old(buddy.roots)
        invariant OthersKept(old(Owned()), old(buddy.Allocated()), old(buddy.pages[..]), Owned(), buddy.Allocated(),
                    buddy.pages[..])
        decreases buddy.pages[cache[nrTblGrp - 1]].ord
      {
        ghost var own, used, d := Owned(), buddy.Allocated(), buddy.pages[..];
        SplitOnTop();
        OthersThrough(old(Owned()), old(buddy.Allocated()), old(buddy.pages[..]), own, used, d, Owned(),
            buddy.Allocated(), buddy.pages[..]);
      }
      assert GroupOk(cache[..nrTblGrp][nrTblGrp - 1], buddy.Allocated(), buddy.pages[..], allocLg2);
    }

    method SplitOnTop()
      requires Valid() && nrTblGrp > 0 && cache[nrTblGrp - 1] < buddy.pages.Length
      requires buddy.pages[cache[nrTblGrp - 1]].ord > allocLg2
      modifies this`nrTblGrp, cache, buddy`trees, buddy.pages
      ensures Valid() && nrTblGrp == old(nrTblGrp) + 1 && cache[nrTblGrp - 1] < buddy.pages.Length
      ensures buddy.pages[cache[nrTblGrp - 1]].ord + 1 == old(buddy.pages[cache[nrTblGrp - 1]].ord)
      ensures OthersKept(old(Owned()), old(buddy.Allocated()), old(buddy.pages[..]), Owned(), buddy.Allocated(),
                buddy.pages[..])
      ensures (old(buddy.Clean()) ==> buddy.Clean()) && (old(Marked()) ==> Marked()) && buddy.roots == old(buddy.roots)
    {
      hide Tables, BigEnough, ForestOk, PagesOf, Pow2, UsedOf, CacheOk, Apart, Buddy.Clean;
      ghost var gs, used, d := cache[..nrTblGrp], buddy.Allocated(), buddy.pages[..];
      TopIn(gs, nrTbl, out, used, d, allocLg2);
      UsedAllApart(buddy.roots, buddy.trees, buddy.pages.Length);
      var right, i, p := buddy.Divide(cache[nrTblGrp - 1]);
      SplitTop(gs, nrTbl, out, used, d, allocLg2, right, buddy.Allocated(), buddy.pages[..]);
      SplitSpares(gs, out, used, d, right, buddy.Allocated(), buddy.pages[..]);
      cache[nrTblGrp] := right;
      nrTblGrp := nrTblGrp + 1;
      assert cache[..nrTblGrp] == gs + [right];
    }

    /** mm_map_allocTbl */
    method AllocTbl() returns (r: Option<nat>)
      requires Valid()
      modifies this, cache, buddy, buddy.pages
      ensures Valid()
      ensures r == None <==>
                old(nrTbl) == 0 && forall k | CACHE_SHIFT + allocLg2 <= k <= MAX_ORD :: old(buddy.freeLst[k]) == []
      ensures r == None ==> nrTbl == 0 && out == old(out)
      ensures r.Some? ==> r.value !in old(out) && out == old(out) + {r.value}
      ensures r.Some? ==> (r.value, allocLg2) in buddy.Allocated()
      ensures r.Some? ==> nrTbl == (if old(nrTbl) == 0 then NR_TBL_CACHE else old(nrTbl)) - 1
      ensures OthersKept(old(Owned()), old(buddy.Allocated()), old(buddy.pages[..]), Owned(), buddy.Allocated(),
                buddy.pages[..])
      ensures (old(buddy.Clean()) ==> buddy.Clean()) && (old(Marked()) ==> Marked()) && buddy.roots == old(buddy.roots)
    {
      hide CacheOk, Tables, BigEnough, ForestOk, PagesOf, Pow2, UsedOf, Buddy.Clean;
      if nrTbl == 0 {
        var ok := InitCache();
        if !ok {
          return None;
        }
      }
      EmptyStack(cache[..nrTblGrp], nrTbl, out, buddy.Allocated(), buddy.pages[..], allocLg2);
      SplitToTable();
      var page := TakeTop();
      r := Some(page);
    }

    /** The table on top of the stack goes into use. */
    method TakeTop() returns (page: nat)
      requires Valid() && nrTblGrp > 0 && cache[nrTblGrp - 1] < buddy.pages.Length
      requires buddy.pages[cache[nrTblGrp - 1]].ord == allocLg2
      modifies this, buddy.pages
      ensures Valid() && page !in old(out) && out == old(out) + {page} && (page, allocLg2) in buddy.Allocated()
      ensures old(nrTbl) > 0 && nrTbl == old(nrTbl) - 1 && buddy.Allocated() == old(buddy.Allocated())
      ensures OthersKept(old(Owned()), old(buddy.Allocated()), old(buddy.pages[..]), Owned(), buddy.Allocated(),
                buddy.pages[..])
      ensures (old(buddy.Clean()) ==> buddy.Clean()) && (old(Marked()) ==> Marked()) && buddy.roots == old(buddy.roots)
    {
      hide CacheOk, Tables, BigEnough, ForestOk, PagesOf, Pow2, UsedOf, Buddy.Clean;
      ghost var gs, d := cache[..nrTblGrp], buddy.pages[..];
      TopIn(gs, nrTbl, out, buddy.Allocated(), d, allocLg2);
      PopTop(gs, nrTbl, out, buddy.Allocated(), d, allocLg2);
      nrTblGrp := nrTblGrp - 1;
      page := cache[nrTblGrp];
      nrTbl := nrTbl - 1;
      buddy.SetAttr(page, buddy.pages[page].attr.(mmu := true));
      out := out + {page};
      assert cache[..nrTblGrp] == gs[..|gs| - 1];
    }

    /** mm_map_freeTbl.  The kernel spins when the descriptor is not that of a table. */
    method FreeTbl(pg: nat) returns (ok: bool)
      requires Valid() && pg < buddy.pages.Length
      requires (Marked() && Reached(buddy.roots, pg)) ||
                 (buddy.pages[pg].attr.mmu && buddy.pages[pg].attr.head ==> pg in out)
      modifies this, cache, buddy, buddy.pages
      ensures Valid()
      ensures ok <==> old(buddy.pages[pg].attr.mmu && buddy.pages[pg].attr.head)
      ensures !ok ==> out == old(out) && nrTbl == old(nrTbl) && buddy.Allocated() == old(buddy.Allocated())
      ensures ok ==> pg in old(out) && out == old(out) - {pg}
      ensures ok && old(nrTbl) < NR_TBL_CACHE ==> nrTbl == old(nrTbl) + 1 && buddy.Allocated() == old(buddy.Allocated())
      ensures ok && old(nrTbl) == NR_TBL_CACHE ==>
                nrTbl == NR_TBL_CACHE && buddy.Allocated() == old(buddy.Allocated()) - {(pg, allocLg2)}
      ensures OthersKept(old(Owned()), old(buddy.Allocated()), old(buddy.pages[..]), Owned(), buddy.Allocated(),
                buddy.pages[..])
      ensures (old(buddy.Clean()) ==> buddy.Clean()) && (old(Marked()) ==> Marked()) && buddy.roots == old(buddy.roots)
    {
      hide CacheOk, Tables, BigEnough, ForestOk, PagesOf, Pow2, UsedOf, Buddy.Clean;
      if !buddy.pages[pg].attr.mmu || !buddy.pages[pg].attr.head {
        return false;
      }
      ghost var gs, used, d := cache[..nrTblGrp], buddy.Allocated(), buddy.pages[..];
      InUse(gs, nrTbl, out, used, d, allocLg2, pg);
      if nrTbl >= NR_TBL_CACHE {
        ghost var i, p;
        UsedAllApart(buddy.roots, buddy.trees, buddy.pages.Length);
        ok, i, p := buddy.FreePages(pg);
        DropTable(gs, nrTbl, out, used, d, allocLg2, pg, buddy.Allocated(), buddy.pages[..]);
        out := out - {pg};
        return;
      }
      PushTable(gs, nrTbl, out, used, d, allocLg2, pg);
      StackFits(gs, nrTbl, out, used, d, allocLg2);
      cache[nrTblGrp] := pg;
      nrTblGrp := nrTblGrp + 1;
      nrTbl := nrTbl + 1;
      buddy.SetAttr(pg, buddy.pages[pg].attr.(mmu := !buddy.pages[pg].attr.mmu));
      out := out - {pg};
      assert cache[..nrTblGrp] == gs + [pg];
      ok := true;
    }
  }

  lemma StackFits(gs: seq<nat>, n: nat, out: set<nat>, used: set<(nat, nat)>, d: seq<Page>, lg: nat)
    requires CacheOk(gs, n, out, used, d, lg)
    ensures |gs| <= n <= NR_TBL_CACHE
  {
    GroupsFewer(gs, used, d, lg);
  }

  lemma TopIn(gs: seq<nat>, n: nat, out: set<nat>, used: set<(nat, nat)>, d: seq<Page>, lg: nat)
    requires CacheOk(gs, n, out, used, d, lg) && gs != []
    ensures GroupOk(gs[|gs| - 1], used, d, lg) && gs[|gs| - 1] !in out && |gs| <= NR_TBL_CACHE
  {
    GroupsFewer(gs, used, d, lg);
  }

  lemma InUse(gs: seq<nat>, n: nat, out: set<nat>, used: set<(nat, nat)>, d: seq<Page>, lg: nat, f: nat)
    requires CacheOk(gs, n, out, used, d, lg) && f in out
    ensures TableOk(f, used, d, lg) && n <= NR_TBL_CACHE
  {
  }

  /** A table goes back to the buddy allocator. */
  lemma DropTable(gs: seq<nat>, n: nat, out: set<nat>, used: set<(nat, nat)>, d: seq<Page>, lg: nat, f: nat,
                                     used': set<(nat, nat)>, d': seq<Page>)
    requires CacheOk(gs, n, out, used, d, lg) && f in out && |d'| == |d| && used' == used - {(f, lg)}
    requires forall u | u in used' && u.0 < |d| :: d'[u.0] == d[u.0]
    ensures CacheOk(gs, n, out - {f}, used', d', lg)
  {
    forall g | (g in gs || g in out - {f}) && g < |d|
      ensures d'[g] == d[g] && ((g, d[g].ord) in used ==> (g, d[g].ord) in used')
    {
      assert g != f;
      var u := (g, d[g].ord);
      if g in gs {
        var k :| 0 <= k < |gs| && gs[k] == g;
        assert GroupOk(g, used, d, lg);
      } else {
        assert TableOk(g, used, d, lg);
      }
      assert u in used' && u.0 < |d|;
    }
    assert CacheOk(gs, n, out - {f}, used, d, lg);
    CacheFrame(gs, n, out - {f}, used, d, lg, used', d');
  }

  lemma OutKept(out: set<nat>, used: set<(nat, nat)>, d: seq<Page>, lg: nat, used': set<(nat, nat)>, d': seq<Page>)
    requires CacheOk([], 0, out, used, d, lg) && |d'| == |d| && used <= used'
    requires forall u | u in used && u.0 < |d| :: d'[u.0] == d[u.0]
    ensures CacheOk([], 0, out, used', d', lg)
  {
    forall f | f in out ensures TableOk(f, used', d', lg) {
      assert TableOk(f, used, d, lg);
      assert (f, lg) in used && (f, lg).0 < |d|;
    }
  }
}

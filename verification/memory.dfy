/** The slab allocator and the page-table cache over one buddy allocator, in whatever order their
    functions are called. */
module Memories {
  import opened Wrappers
  import opened Sequences
  import opened BuddySpec
  import opened BuddyInit
  import opened BuddyTrees
  import opened BuddyForest
  import opened Buddies
  import opened BuddyLaws
  import opened TblCaches
  import opened SlabSpec
  import opened Slabs
  import opened Records

  /** The cache stays right when the blocks of others are kept, its own among them. */
  lemma CacheStays(gs: seq<nat>, n: nat, out: set<nat>, lg: nat, own: set<nat>, used: set<(nat, nat)>, d: seq<Page>,
                   own': set<nat>, used': set<(nat, nat)>, d': seq<Page>)
    requires CacheOk(gs, n, out, used, d, lg) && OthersKept(own, used, d, own', used', d') && OwnedBy(gs, out) !! own
    ensures CacheOk(gs, n, out, used', d', lg) && OwnedBy(gs, out) !! own'
  {
    hide Tables;
    forall g | g in OwnedBy(gs, out) ensures g < |d| && (g, d[g].ord) in used {
      assert g in out ==> TableOk(g, used, d, lg);
      assert g in gs ==> GroupOk(g, used, d, lg);
    }
    CacheFrame(gs, n, out, used, d, lg, used', d');
  }

  /** And so does the slab allocator. */
  lemma SlabsStay(all: set<(nat, Blk)>, boot: nat, own: set<nat>, used: set<(nat, nat)>, d: seq<Page>,
                  own': set<nat>, used': set<(nat, nat)>, d': seq<Page>)
    requires Inv(all, used, boot) && OthersKept(own, used, d, own', used', d') && Groups(all) + {boot} !! own
    requires (forall u | u in used :: u.0 < |d|) && forall u, v | u in used' && v in used' :: u == v || Apart(u, v)
    ensures Inv(all, used', boot) && Groups(all) + {boot} !! own'
  {
    hide BlkOk, Live, Hdrs, Apart;
    forall x | x in all ensures (x.1.page, BLK_ORD) in used' && x.1.page !in own' {
      assert x.1.page in Groups(all);
    }
  }

  /** Allocated blocks lie among the descriptors and apart from each other. */
  lemma UsedInside(b: Buddy)
    requires b.Valid()
    ensures forall u | u in b.Allocated() :: u.0 < b.pages.Length
    ensures forall u, v | u in b.Allocated() && v in b.Allocated() :: u == v || Apart(u, v)
  {
    hide Apart, Layout, BigEnough, ForestOk, ListsOk, UsedOf, PagesOf;
    RestingParts(b.roots, b.trees, b.pages[..], b.revBit, b.freeLst);
    UsedAllApart(b.roots, b.trees, b.pages.Length);
    forall u | u in b.Allocated() ensures u.0 < b.pages.Length {
      AllocatedDescriptor(b.roots, b.trees, b.pages[..], b.revBit, b.freeLst, u);
    }
  }

  lemma TableHead(gs: seq<nat>, n: nat, out: set<nat>, used: set<(nat, nat)>, d: seq<Page>, lg: nat, pg: nat)
    requires CacheOk(gs, n, out, used, d, lg) && pg in out
    ensures pg < |d| && d[pg].attr.mmu && d[pg].attr.head
  {
    assert TableOk(pg, used, d, lg);
  }

  class Memory {
    const buddy: Buddy
    const slabs: SlabAlloc
    const tables: TblCache

    /** Both clients are right, neither holds a block of the other, and no managed page carries a stale
        mark of an allocated block or of a page table. */
    ghost predicate Valid()
      reads this, buddy, buddy.pages, slabs, slabs.slab, tables, tables.cache
    {
      && slabs.buddy == buddy && tables.buddy == buddy && slabs.Valid() && tables.Valid()
      && slabs.Owned() !! tables.Owned() && buddy.Clean() && tables.Marked()
    }

    constructor (b: Buddy, s: SlabAlloc, t: TblCache)
      requires s.buddy == b && t.buddy == b && s.Valid() && t.Valid()
      requires s.Owned() !! t.Owned() && b.Clean() && t.Marked()
      ensures Valid() && buddy == b && slabs == s && tables == t
    {
      buddy, slabs, tables := b, s, t;
    }

    /** The other client stays right when the slab allocator does what a process asks for. */
    lemma CacheOn(g: Ground, g': Ground, gs: seq<nat>)
      requires Steady(g, g') && CacheOk(gs, tables.nrTbl, tables.out, g.used, g.d, tables.allocLg2)
      requires OwnedBy(gs, tables.out) !! g.own
      ensures CacheOk(gs, tables.nrTbl, tables.out, g'.used, g'.d, tables.allocLg2)
      ensures OwnedBy(gs, tables.out) !! g'.own
    {
      CacheStays(gs, tables.nrTbl, tables.out, tables.allocLg2, g.own, g.used, g.d, g'.own, g'.used, g'.d);
    }

    method MmKmalloc(m: TaskMem, size: nat, shared: bool) returns (r: Option<nat>)
      requires Valid() && m.Valid() && m.slabs == slabs
      modifies m`rec, slabs.slab, buddy, buddy.pages, m.slabRecord, m.slabRecord.nodes`left, m.slabRecord.nodes`right,
               m.slabRecord.nodes`par, m.slabRecord.nodes`black
      ensures Valid() && m.Valid() && (r == None ==> slabs.Objects() == old(slabs.Objects()))
      ensures r == None <==> old(slabs.Refuses(size)) || (!shared && old(NoRecord(slabs, size)))
      ensures r.Some? ==> old(slabs.Objects()) <= slabs.Objects() &&
                          exists id: ClassId ::
                              size <= Size(id) && (r.value, id) in slabs.Objects() - old(slabs.Objects())
    {
      hide CacheOk, Inv, Held, Live, Hdrs, All, UsedOf, PagesOf, Layout, BigEnough, Size, TaskMem.Ordered, Recorded;
      ghost var g := m.State();
      var id, a;
      r, id, a := m.MmKmalloc(size, shared);
      CacheOn(g, m.State(), tables.cache[..tables.nrTblGrp]);
    }

    method MmKfree(m: TaskMem, addr: nat, shared: bool, ghost u: (nat, nat)) returns (ok: bool)
      requires Valid() && m.Valid() && m.slabs == slabs
      requires shared ==> InObject(u, addr) && u !in m.Private() + m.Kept()
      requires shared ==> u in slabs.Objects() || slabs.Uncovered(addr)
      modifies slabs.slab, buddy, buddy.pages, m.slabRecord, m.slabRecord.nodes`left, m.slabRecord.nodes`right,
               m.slabRecord.nodes`par, m.slabRecord.nodes`black
      ensures Valid() && m.Valid() && slabs.Objects() <= old(slabs.Objects())
      ensures !shared ==> m.Addresses() == old(m.Addresses()) - {addr} && (addr !in old(m.Addresses()) ==> !ok)
      ensures shared ==> slabs.Objects() == old(slabs.Objects()) - {u}
      ensures shared ==> (u !in old(slabs.Objects()) ==> !ok) && (u in old(slabs.Objects()) && u.1 < 5 ==> ok)
      ensures !shared ==> old(slabs.Objects()) - slabs.Objects() <= old(m.Private()) + old(m.Kept())
    {
      hide CacheOk, Inv, Held, Live, Hdrs, All, UsedOf, PagesOf, Layout, BigEnough, Size, TaskMem.Ordered, Recorded;
      ghost var g, a := m.State(), 0;
      ghost var gone;
      ok, a, gone := m.MmKfree(addr, shared, u);
      CacheOn(g, m.State(), tables.cache[..tables.nrTblGrp]);
    }

    method SlabClear(m: TaskMem) returns (ok: bool, destroyed: seq<nat>)
      requires Valid() && m.Valid() && m.slabs == slabs
      modifies slabs.slab, buddy, buddy.pages, m.slabRecord, m.slabRecord.nodes`left, m.slabRecord.nodes`right,
               m.slabRecord.nodes`par, m.slabRecord.nodes`black
      ensures Valid() && m.Valid() && m.Private() == {}
      ensures NoDup(destroyed) && Members(destroyed) == old(m.Addresses())
      ensures slabs.Objects() == old(slabs.Objects()) - old(m.Private()) - old(m.Kept())
    {
      hide CacheOk, Inv, Held, Live, Hdrs, All, UsedOf, PagesOf, Layout, BigEnough, Size, TaskMem.Ordered, Recorded;
      ghost var g := m.State();
      ok, destroyed := m.Clear();
      CacheOn(g, m.State(), tables.cache[..tables.nrTblGrp]);
    }

    method AllocTbl() returns (r: Option<nat>)
      requires Valid()
      modifies tables, tables.cache, buddy, buddy.pages
      ensures Valid() && slabs.Objects() == old(slabs.Objects())
      ensures r.Some? ==> r.value !in old(tables.out) && tables.out == old(tables.out) + {r.value}
      ensures r == None ==> tables.out == old(tables.out)
      ensures r == None <==>
                old(tables.nrTbl) == 0 && Room(old(buddy.freeLst), CACHE_SHIFT + tables.allocLg2) == 0
    {
      hide CacheOk, Inv, Held, Live, Hdrs, All, UsedOf, PagesOf, Layout, BigEnough, Size;
      UsedInside(buddy);
      ghost var own, used, d := tables.Owned(), buddy.Allocated(), buddy.pages[..];
      NoneLeft(buddy.freeLst, CACHE_SHIFT + tables.allocLg2);
      RestingParts(buddy.roots, buddy.trees, buddy.pages[..], buddy.revBit, buddy.freeLst);
      r := tables.AllocTbl();
      UsedInside(buddy);
      SlabsStay(All(slabs.slab[..]), slabs.boot, own, used, d, tables.Owned(), buddy.Allocated(), buddy.pages[..]);
    }

    /** For any managed page: it is refused exactly if it heads no table that is in use. */
    method FreeTbl(pg: nat) returns (ok: bool)
      requires Valid() && pg < buddy.pages.Length && Reached(buddy.roots, pg)
      modifies tables, tables.cache, buddy, buddy.pages
      ensures Valid() && (ok <==> pg in old(tables.out))
      ensures tables.out == old(tables.out) - {pg} && slabs.Objects() == old(slabs.Objects())
    {
      hide CacheOk, Inv, Held, Live, Hdrs, All, UsedOf, PagesOf, Layout, BigEnough, Size;
      UsedInside(buddy);
      ghost var own, used, d := tables.Owned(), buddy.Allocated(), buddy.pages[..];
      if pg in tables.out {
        TableHead(tables.cache[..tables.nrTblGrp], tables.nrTbl, tables.out, used, d, tables.allocLg2, pg);
      }
      ok := tables.FreeTbl(pg);
      UsedInside(buddy);
      SlabsStay(All(slabs.slab[..]), slabs.boot, own, used, d, tables.Owned(), buddy.Allocated(), buddy.pages[..]);
    }
  }

  /** mm_slab_init and the static data of the cache, over an initialised buddy allocator. */
  method Start(b: Buddy, lg: nat) returns (m: Memory?)
    requires b.Valid() && b.Clean()
    requires forall a | 0 <= a < b.pages.Length && Reached(b.roots, a) :: !b.pages[a].attr.mmu
    modifies b, b.pages
    ensures m != null <==> old(EnoughToStart(b.freeLst))
    ensures m != null ==> fresh(m) && m.Valid() && m.buddy == b && m.slabs.Objects() == {} && m.tables.out == {}
  {
    hide CacheOk, Inv, Held, Live, Hdrs, All, UsedOf, PagesOf, Layout, BigEnough, Size, Cols, SlabAlloc.Valid,
         SlabAlloc.Owned, SlabAlloc.Objects, TblCache.Valid, TblCache.Owned;
    m := null;
    RestingParts(b.roots, b.trees, b.pages[..], b.revBit, b.freeLst);
    var s := new SlabAlloc(b);
    var ok := s.Init();
    if ok {
      var t := new TblCache(b, lg);
      m := new Memory(b, s, t);
    }
  }
}

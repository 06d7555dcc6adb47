/** kernel/mm/slab.c over the buddy allocator. */
module Slabs {
  import opened Wrappers
  import opened Sequences
  import opened Powers
  import opened BuddySpec
  import opened BuddyTrees
  import opened BuddyForest
  import opened Buddies
  import opened BuddyLaws
  import opened SlabSpec

  function WordFull(bits: seq<bool>, w: nat): bool
    requires 64 * w + 64 <= |bits|
  {
    forall i | 64 * w <= i < 64 * w + 64 :: bits[i]
  }

  lemma WordThere(cols: nat, j: nat)
    requires j < cols
    ensures 64 * (j / 64) + 64 <= 64 * Words(cols)
  {
  }

  /** The scan looks at whole words: at the start of one, or inside one that is not full. */
  ghost predicate InScan(bits: seq<bool>, j: nat) {
    j % 64 == 0 || (64 * (j / 64) + 64 <= |bits| && !WordFull(bits, j / 64))
  }

  lemma ScanStart(bits: seq<bool>)
    ensures InScan(bits, 0)
  {
  }

  lemma PastWord(bits: seq<bool>, j: nat)
    requires 64 * (j / 64) + 64 <= |bits| && InScan(bits, j) && WordFull(bits, j / 64)
    ensures j + 64 <= |bits| && InScan(bits, j + 64) && forall k | j <= k < j + 64 :: bits[k]
  {
  }

  lemma PastSlot(bits: seq<bool>, j: nat)
    requires 64 * (j / 64) + 64 <= |bits| && !WordFull(bits, j / 64)
    ensures InScan(bits, j + 1)
  {
    hide WordFull;
    assert (j + 1) % 64 == 0 || (j + 1) / 64 == j / 64;
  }

  /** The scan of _kmalloc: it passes over full words at a stride and ends at the lowest free slot. */
  method FreeSlot(b: Blk) returns (j: nat)
    requires 0 < b.colCnt && |b.bits| == 64 * Words(b.colCnt) && (forall k | b.colCnt <= k < |b.bits| :: b.bits[k])
    requires b.freeCnt == Zeros(b.bits) && b.freeCnt > 0
    ensures j < b.colCnt && !b.bits[j] && forall k | 0 <= k < j :: b.bits[k]
  {
    hide WordFull, InScan, Words, Zeros;
    j := 0;
    ScanStart(b.bits);
    while j < b.colCnt
      invariant j <= |b.bits| && (forall k | 0 <= k < j :: b.bits[k]) && InScan(b.bits, j)
      decreases b.colCnt - j
    {
      WordThere(b.colCnt, j);
      if WordFull(b.bits, j / 64) {
        PastWord(b.bits, j);
        j := j + 63 + 1;
      } else if b.bits[j] {
        PastSlot(b.bits, j);
        j := j + 1;
      } else {
        return;
      }
    }
    ghost var z := ZeroFound(b.bits);
    assert false;
  }

  /** The block that _kmalloc takes a slot from: the first with free slots. */
  method FirstWithFree(bs: seq<Blk>) returns (i: nat)
    requires SumFree(bs) > 0
    ensures i < |bs| && bs[i].freeCnt > 0 && forall k | 0 <= k < i :: bs[k].freeCnt == 0
  {
    ghost var some := SomeFree(bs);
    i := 0;
    while bs[i].freeCnt == 0
      invariant i <= some < |bs| && forall k | 0 <= k < i :: bs[k].freeCnt == 0
      decreases some - i
    {
      i := i + 1;
    }
  }

  /** Blk b of class id covers the address. */
  predicate Covers(id: ClassId, b: Blk, a: nat) { Base(b) <= a < Base(b) + b.colCnt * Size(id) }

  /** The address lies in the object u. */
  ghost predicate InObject(u: (nat, nat), a: nat) { u.1 < CLASSES && u.0 <= a < u.0 + Size(u.1) }

  /** The class that the headers of a large class come from. */
  ghost function HdrClass(id: ClassId): (c: ClassId)
    requires id >= 5
    ensures 2 <= c <= 4
  {
    SmallHeaders(id);
    ClassFrom(0, StructSize(id))
  }

  /** The page groups that a new block of class id takes: one for its slots, and one more if it needs a
      header from a class that is full. */
  ghost function BlkCost(id: ClassId, slabs: seq<Slab>): nat
    requires |slabs| == CLASSES
  {
    if id >= 5 && slabs[HdrClass(id)].freeCnt == 0 then 2 else 1
  }

  /** The page groups that an object of class id takes. */
  ghost function Cost(id: ClassId, slabs: seq<Slab>): nat
    requires |slabs| == CLASSES
  {
    if slabs[id].freeCnt > 0 then 0 else BlkCost(id, slabs)
  }

  /** The free slots of class id once an object was taken from it. */
  ghost function FreeAfter(id: ClassId, slabs: seq<Slab>): int
    requires |slabs| == CLASSES
  {
    if slabs[id].freeCnt > 0 then slabs[id].freeCnt - 1 else NewCols(id) - 1
  }

  /** The slots of a new block. */
  ghost function NewCols(id: ClassId): nat {
    if id < 5 then EmbeddedFits(id); EmbeddedCols(id) else Cols(id)
  }

  /** No further block of class id can be had. */
  ghost predicate NoRoom(id: ClassId, slabs: seq<Slab>, lists: seq<seq<nat>>)
    requires |slabs| == CLASSES
  {
    Room(lists, BLK_ORD) < BlkCost(id, slabs)
  }

  /** What mm_slab_init needs: pages for the headers and a group for every class. */
  ghost predicate EnoughToStart(lists: seq<seq<nat>>)
    requires |lists| == MAX_ORD + 1
  {
    Room(lists, BLK_ORD) >= CLASSES + if forall j | BOOT_ORD <= j < BLK_ORD :: lists[j] == [] then 1 else 0
  }

  lemma NoneToStart(lists: seq<seq<nat>>)
    requires |lists| == MAX_ORD + 1 && forall j | BOOT_ORD <= j <= MAX_ORD :: lists[j] == []
    ensures !EnoughToStart(lists)
  {
    hide Room;
    NoneLeft(lists, BLK_ORD);
  }

  lemma StartLeaves(lists: seq<seq<nat>>, a: nat, ord: nat)
    requires |lists| == MAX_ORD + 1 && BOOT_ORD <= ord <= MAX_ORD && lists[ord] != []
    requires forall j | BOOT_ORD <= j < ord :: lists[j] == []
    ensures EnoughToStart(lists) <==>
              Room(CarveLists(lists[ord := lists[ord][1..]], a, ord, BOOT_ORD), BLK_ORD) >= CLASSES
  {
    hide Room, CarveLists;
    RoomAbove(lists, a, ord, BOOT_ORD, BLK_ORD);
  }

  class SlabAlloc {
    const buddy: Buddy
    const slab: array<Slab>
    var boot: nat // the page group of the boot-time headers

    ghost predicate Valid()
      reads this, slab, buddy, buddy.pages
    {
      && buddy.Valid() && slab.Length == CLASSES
      && (forall k | 0 <= k < CLASSES :: SlabOk(slab[k]))
      && Inv(All(slab[..]), buddy.Allocated(), boot)
    }

    /** Address and class of the objects that clients hold. */
    ghost function Objects(): set<(nat, nat)>
      requires Classes(All(slab[..]))
      reads this, slab
    {
      Held(All(slab[..]), boot)
    }

    /** The first pages of the page groups that are in the allocator's hands. */
    ghost function Owned(): set<nat>
      reads this, slab
    {
      Groups(All(slab[..])) + {boot}
    }

    constructor (b: Buddy)
      requires b.Valid()
      ensures buddy == b && slab.Length == CLASSES
      ensures (forall k | 0 <= k < CLASSES :: slab[k] == Slab(0, 0, [])) && fresh(slab)
    {
      buddy := b;
      slab := new Slab[CLASSES](_ => Slab(0, 0, []));
      boot := 0;
    }

    /** The memory for the boot-time headers, in pages: the rounding of mm_slab_init. */
    static method BootPages() returns (log2Size: nat)
      ensures log2Size == BOOT_ORD
    {
      hide Cols, StructSize;
      var size := CLASSES * HDR_SIZE;
      for i := 0 to CLASSES
        invariant size == CLASSES * HDR_SIZE + BootBytes(i) - i * HDR_SIZE
      {
        StructWords(i);
        size := size + 8 * Words(Cols(i));
      }
      BootTotal();
      size := (size + PAGE - 1) / PAGE * PAGE;
      log2Size := 0;
      assert Pow2(2) == 4 && Pow2(1) == 2 && Pow2(3) == 8;
      while Pow2(log2Size) < size / PAGE
        invariant log2Size <= 3
      {
        log2Size := log2Size + 1;
      }
    }

    /** One round of the loop of mm_slab_init. */
    method BootBlk(k: ClassId, addr: nat) returns (ok: bool)
      requires Valid() && slab[k] == Slab(0, 0, []) && addr == PAGE * boot + BootBytes(k)
      modifies slab, buddy, buddy.pages
      ensures Valid() && Classes(All(slab[..])) && Objects() == old(Objects())
      ensures ok <==> Room(old(buddy.freeLst), BLK_ORD) > 0
      ensures ok ==> Room(buddy.freeLst, BLK_ORD) + 1 == Room(old(buddy.freeLst), BLK_ORD)
      ensures ok ==> |slab[k].blks| == 1 && slab[k].usingCnt == 0 && slab[k].freeCnt == Cols(k)
      ensures forall c | 0 <= c < CLASSES && c != k :: slab[c] == old(slab[c])
      ensures old(buddy.Clean()) ==> buddy.Clean()
      ensures NoNewTables(old(buddy.pages[..]), buddy.pages[..]) && buddy.roots == old(buddy.roots)
    {
      hide Size, Cols, StructSize, EmbeddedCols, Zeros, Inv, BlkOk, LiveOf, All, Live, Hdrs, Held, HdrOf, Words,
           UsedOf, PagesOf, ForestOk, BigEnough, Layout, FreshBits, InBoot, BootBytes, Buddy.Clean, Room;
      InvClasses(All(slab[..]), buddy.Allocated(), boot);
      var group := AllocGroup();
      if group == None {
        assert slab[..] == old(slab[..]);
        return false;
      }
      ColsFill(k);
      BootFits(k, boot);
      NewBlkOk(k, addr, group.value, Cols(k), boot);
      InBootObj(k, NewBlk(addr, group.value, Cols(k)), boot);
      AddGroup(k, group.value, addr, Cols(k));
      InvClasses(All(slab[..]), buddy.Allocated(), boot);
      ok := true;
    }

    /** The pages for the headers that mm_slab_init sets up. */
    method TakeBoot() returns (ok: bool)
      requires buddy.Valid() && slab.Length == CLASSES && forall k | 0 <= k < CLASSES :: slab[k] == Slab(0, 0, [])
      modifies this`boot, buddy, buddy.pages
      ensures buddy.Valid() && |buddy.freeLst| == |old(buddy.freeLst)| == MAX_ORD + 1
      ensures !ok ==> !EnoughToStart(old(buddy.freeLst))
      ensures ok ==> (EnoughToStart(old(buddy.freeLst)) <==> Room(buddy.freeLst, BLK_ORD) >= CLASSES)
      ensures ok ==> Valid() && Classes(All(slab[..])) && Objects() == {}
      ensures old(buddy.Clean()) ==> buddy.Clean()
      ensures NoNewTables(old(buddy.pages[..]), buddy.pages[..]) && buddy.roots == old(buddy.roots)
    {
      hide Size, Cols, StructSize, Inv, All, Held, UsedOf, PagesOf, ForestOk, BigEnough, Layout, SumFree, SumUsing,
           Buddy.Clean, Coalesced, Fit, Groups, Room, EnoughToStart;
      var log2Size := BootPages();
      ghost var ord, i, p;
      ghost var lists := buddy.freeLst;
      RestingParts(buddy.roots, buddy.trees, buddy.pages[..], buddy.revBit, lists);
      var page;
      page, ord, i, p := buddy.AllocPages(log2Size, Attr(false, false, false, true));
      if page == None {
        NoneToStart(lists);
        return false;
      }
      ok := true;
      StartLeaves(lists, page.value, ord);
      boot := page.value;
      RestingParts(buddy.roots, buddy.trees, buddy.pages[..], buddy.revBit, buddy.freeLst);
      UsedAllApart(buddy.roots, buddy.trees, buddy.pages.Length);
      NothingOk(slab[..], buddy.Allocated(), boot);
      InvClasses(All(slab[..]), buddy.Allocated(), boot);
    }

    /** mm_slab_init: every class gets a block whose header lies in a page group of their own.  It succeeds
        exactly if there are 16 groups of 2M, and one more if the pages for the headers have to come from a
        group too. */
    method Init() returns (ok: bool)
      requires buddy.Valid() && slab.Length == CLASSES && forall k | 0 <= k < CLASSES :: slab[k] == Slab(0, 0, [])
      modifies this`boot, slab, buddy, buddy.pages
      ensures buddy.Valid() && (ok ==> Valid() && Objects() == {})
      ensures ok <==> old(EnoughToStart(buddy.freeLst))
      ensures ok ==>
                forall k | 0 <= k < CLASSES ::
                  |slab[k].blks| == 1 && slab[k].usingCnt == 0 && slab[k].freeCnt == Cols(k)
      ensures old(buddy.Clean()) ==> buddy.Clean()
      ensures NoNewTables(old(buddy.pages[..]), buddy.pages[..]) && buddy.roots == old(buddy.roots)
    {
      hide Size, Cols, StructSize, Inv, All, Held, UsedOf, PagesOf, ForestOk, BigEnough, Layout, SumFree, SumUsing,
           Buddy.Clean, Coalesced, Fit, Groups, Room, EnoughToStart, ListsOk;
      ok := TakeBoot();
      if !ok {
        return;
      }
      ghost var room := Room(buddy.freeLst, BLK_ORD);
      var addr := PAGE * boot;
      for k := 0 to CLASSES
        invariant Valid() && Classes(All(slab[..])) && Objects() == {} && addr == PAGE * boot + BootBytes(k)
        invariant Room(buddy.freeLst, BLK_ORD) + k == room
        invariant forall c | 0 <= c < k :: |slab[c].blks| == 1 && slab[c].usingCnt == 0 && slab[c].freeCnt == Cols(c)
        invariant forall c | k <= c < CLASSES :: slab[c] == Slab(0, 0, [])
        invariant old(buddy.Clean()) ==> buddy.Clean()
        invariant NoNewTables(old(buddy.pages[..]), buddy.pages[..]) && buddy.roots == old(buddy.roots)
      {
        ok := BootBlk(k, addr);
        if !ok {
          return;
        }
        addr := addr + StructSize(k);
      }
      ok := true;
    }

    /** The bit and counter updates of _kmalloc on block i of class id, which moves to the front. */
    method TakeSlot(id: ClassId, i: nat) returns (a: nat)
      requires Valid() && i < |slab[id].blks| && slab[id].blks[i].freeCnt > 0
      modifies slab
      ensures Valid() && (a, id) !in old(Objects()) && Objects() == old(Objects()) + {(a, id)}
      ensures forall k | 0 <= k < CLASSES && k != id :: slab[k] == old(slab[k])
      ensures |slab[id].blks| == |old(slab[id].blks)| && Groups(All(slab[..])) == old(Groups(All(slab[..])))
      ensures slab[id].freeCnt == old(slab[id].freeCnt) - 1
    {
      hide Size, Cols, StructSize, EmbeddedCols, Zeros, Inv, BlkOk, LiveOf, SumFree, SumUsing, Without, All, Live,
           Hdrs, Held, Words, UsedOf, PagesOf, ForestOk, BigEnough, Layout;
      ghost var all, s := All(slab[..]), slab[id];
      var b := slab[id].blks[i];
      BlkIn(slab[..], id, i, buddy.Allocated(), boot);
      BlkCounts(id, b, boot);
      SumAtLeast(slab[id].blks, i);
      slab[id] := slab[id].(blks := [b] + Without(slab[id].blks, i));
      var j := FreeSlot(b);
      GrowBlk(all, buddy.Allocated(), boot, (id, b), j);
      slab[id] := slab[id].(blks := [Use(b, j)] + slab[id].blks[1..], usingCnt := slab[id].usingCnt + 1,
          freeCnt := slab[id].freeCnt - 1);
      a := Base(b) + j * Size(id);
      assert slab[id].blks == [Use(b, j)] + Without(s.blks, i);
      assert slab[..] == old(slab[..])[id := slab[id]];
      FrontOk(old(slab[..]), id, i, Use(b, j), slab[id]);
      SwapGroups(all, (id, b), (id, Use(b, j)));
    }

    /** alloc2MPage */
    method AllocGroup() returns (r: Option<nat>)
      requires Valid()
      modifies buddy, buddy.pages
      ensures Valid()
      ensures r == None <==> Room(old(buddy.freeLst), BLK_ORD) == 0
      ensures r.Some? ==> Room(buddy.freeLst, BLK_ORD) + 1 == Room(old(buddy.freeLst), BLK_ORD)
      ensures r == None ==> buddy.Allocated() == old(buddy.Allocated()) && buddy.freeLst == old(buddy.freeLst)
      ensures r.Some? ==> r.value !in Groups(All(slab[..])) && (r.value, BLK_ORD) !in old(buddy.Allocated())
      ensures r.Some? ==> buddy.Allocated() == old(buddy.Allocated()) + {(r.value, BLK_ORD)}
      ensures HeadsKept(old(buddy.Allocated()), old(buddy.pages[..]), buddy.pages[..])
      ensures old(buddy.Clean()) ==> buddy.Clean()
      ensures NoNewTables(old(buddy.pages[..]), buddy.pages[..]) && buddy.roots == old(buddy.roots)
    {
      hide Inv, All, UsedOf, PagesOf, ForestOk, BigEnough, Layout, SumFree, SumUsing, Buddy.Clean, Room, CarveLists;
      ghost var used, lists := buddy.Allocated(), buddy.freeLst;
      ghost var ord, i, p;
      RestingParts(buddy.roots, buddy.trees, buddy.pages[..], buddy.revBit, buddy.freeLst);
      NoneLeft(lists, BLK_ORD);
      r, ord, i, p := buddy.AllocPages(BLK_ORD, Attr(false, false, false, true));
      RestingParts(buddy.roots, buddy.trees, buddy.pages[..], buddy.revBit, buddy.freeLst);
      UsedAllApart(buddy.roots, buddy.trees, buddy.pages.Length);
      StillOk(All(slab[..]), used, buddy.Allocated(), boot);
      if r.Some? {
        RoomAfter(lists, r.value, ord, BLK_ORD);
        NewGroup(All(slab[..]), used, boot, r.value);
      }
    }

    /** The rest of _newSlabBlk: a block over the page group joins its class. */
    method AddGroup(id: ClassId, page: nat, hdr: nat, cols: nat)
      requires Valid() && (page, BLK_ORD) in buddy.Allocated() && page !in Groups(All(slab[..]))
      requires BlkOk(id, NewBlk(hdr, page, cols), boot) && LiveOf(id, NewBlk(hdr, page, cols)) == {}
      requires ObjHdr(id, NewBlk(hdr, page, cols), boot) ==> HdrOf((id, NewBlk(hdr, page, cols))) in Objects()
      modifies slab
      ensures Valid() && All(slab[..]) == old(All(slab[..])) + {(id, NewBlk(hdr, page, cols))}
      ensures Objects() == old(Objects()) - if ObjHdr(id, NewBlk(hdr, page, cols), boot)
                then {HdrOf((id, NewBlk(hdr, page, cols)))} else {}
      ensures slab[..] == old(slab[..])[id := slab[id]]
      ensures |slab[id].blks| == |old(slab[id].blks)| + 1 && slab[id].blks[0] == NewBlk(hdr, page, cols)
      ensures slab[id].usingCnt == old(slab[id].usingCnt) && slab[id].freeCnt == old(slab[id].freeCnt) + cols
    {
      hide Size, Cols, StructSize, EmbeddedCols, Zeros, Inv, BlkOk, LiveOf, All, Live, Hdrs, HdrOf, Words, UsedOf,
           PagesOf, ForestOk, BigEnough, Layout;
      ghost var all, s := All(slab[..]), slab[id];
      var b := Blk(hdr, page, cols, FreshBits(cols), 0, cols);
      slab[id] := slab[id].(blks := [b] + slab[id].blks, freeCnt := slab[id].freeCnt + cols);
      NotThere(all, (id, b));
      AddBlk(all, buddy.Allocated(), boot, (id, b));
      assert slab[..] == old(slab[..])[id := slab[id]];
      PushAll(old(slab[..]), id, b, slab[id]);
      PushOk(s, b, old(slab[..]), id);
    }

    /** _newSlabBlk.  Headers of small classes go to the end of the 2M group, others into a slot of a
        smaller class.  If that slot cannot be had, the group stays allocated, as in the kernel. */
    method NewSlabBlk(id: ClassId) returns (ok: bool)
      requires Valid()
      modifies slab, buddy, buddy.pages
      ensures Valid() && Objects() == old(Objects())
      ensures !ok ==> slab[..] == old(slab[..])
      ensures !ok <==> NoRoom(id, old(slab[..]), old(buddy.freeLst))
      ensures ok ==> |slab[id].blks| == |old(slab[id].blks)| + 1 && slab[id].blks[0].freeCnt > 0
      ensures ok ==> slab[id].freeCnt == old(slab[id].freeCnt) + NewCols(id)
      ensures ok ==> Room(buddy.freeLst, BLK_ORD) + BlkCost(id, old(slab[..])) == Room(old(buddy.freeLst), BLK_ORD)
      ensures id >= 5 ==> forall k | 0 <= k < 5 && k != HdrClass(id) :: slab[k] == old(slab[k])
      ensures id < 5 ==> forall k | 0 <= k < CLASSES && k != id :: slab[k] == old(slab[k])
      ensures forall k | 5 <= k < CLASSES && k != id :: slab[k] == old(slab[k])
      ensures forall k | 0 <= k < CLASSES :: |slab[k].blks| >= |old(slab[k].blks)|
      ensures FreshGroups(old(All(slab[..])), old(buddy.Allocated()), All(slab[..]), buddy.Allocated())
      ensures HeadsKept(old(buddy.Allocated()), old(buddy.pages[..]), buddy.pages[..])
      ensures OthersKept(old(Owned()), old(buddy.Allocated()), old(buddy.pages[..]), Owned(), buddy.Allocated(),
                buddy.pages[..])
      ensures old(buddy.Clean()) ==> buddy.Clean()
      ensures NoNewTables(old(buddy.pages[..]), buddy.pages[..]) && buddy.roots == old(buddy.roots)
      decreases if id >= 5 then 1 else 0, 0
    {
      hide Size, Cols, StructSize, EmbeddedCols, Zeros, Inv, BlkOk, LiveOf, All, Live, Hdrs, Held, Words, UsedOf,
           PagesOf, ForestOk, BigEnough, Layout, SumFree, SumUsing, Buddy.Clean, Room, HeadsKept,
           NoNewTables, OthersKept;
      var page := AllocGroup();
      if page == None {
        FreshOthers(old(All(slab[..])), old(buddy.Allocated()), old(buddy.pages[..]), All(slab[..]), buddy.Allocated(),
            buddy.pages[..], boot);
        return false;
      }
      ghost var used1, d1 := buddy.Allocated(), buddy.pages[..];
      assert slab[..] == old(slab[..]);
      assert FreshGroups(old(All(slab[..])), used1, All(slab[..]), used1);
      var hdr: nat, colCnt: nat;
      if id < 5 {
        EmbeddedFits(id);
        hdr := PAGE * page.value + BLK_SIZE - StructSize(id);
        colCnt := EmbeddedCols(id);
        EmbeddedNew(id, All(slab[..]), buddy.Allocated(), boot, page.value);
      } else {
        SmallHeaders(id);
        SizeTable();
        colCnt := Cols(id);
        var h := Kmalloc(StructSize(id));
        if h == None {
          KeptThrough(old(buddy.Allocated()), old(buddy.pages[..]), used1, d1, buddy.pages[..]);
          FreshOthers(old(All(slab[..])), old(buddy.Allocated()), old(buddy.pages[..]), All(slab[..]),
              buddy.Allocated(), buddy.pages[..], boot);
          return false;
        }
        KeptThrough(old(buddy.Allocated()), old(buddy.pages[..]), used1, d1, buddy.pages[..]);
        hdr := h.value;
        HeldLive(All(slab[..]), buddy.Allocated(), boot, (hdr, ClassFrom(0, StructSize(id))));
        ObjectNew(id, All(slab[..]), buddy.Allocated(), boot, page.value, hdr);
      }
      ghost var all, used := All(slab[..]), buddy.Allocated();
      FreshThen(old(All(slab[..])), old(buddy.Allocated()), used1, all, used);
      AddGroup(id, page.value, hdr, colCnt);
      AddFresh(old(All(slab[..])), old(buddy.Allocated()), all, used, (id, NewBlk(hdr, page.value, colCnt)));
      FreshOthers(old(All(slab[..])), old(buddy.Allocated()), old(buddy.pages[..]), All(slab[..]), buddy.Allocated(),
          buddy.pages[..], boot);
      ok := true;
    }

    /** _kmalloc */
    method Kmalloc(size: nat) returns (r: Option<nat>)
      requires Valid() && size <= MX_SIZE && MX_SIZE == Size(15)
      modifies slab, buddy, buddy.pages
      ensures Valid()
      ensures r == None ==>
                slab[..] == old(slab[..]) && Objects() == old(Objects()) && slab[ClassFrom(0, size)].freeCnt == 0
      ensures r == None <==>
                old(slab[ClassFrom(0, size)].freeCnt) == 0 &&
                NoRoom(ClassFrom(0, size), old(slab[..]), old(buddy.freeLst))
      ensures r.Some? ==>
                var id := ClassFrom(0, size);
                && Room(buddy.freeLst, BLK_ORD) + Cost(id, old(slab[..])) == Room(old(buddy.freeLst), BLK_ORD)
                && slab[id].freeCnt == FreeAfter(id, old(slab[..]))
      ensures ClassFrom(0, size) >= 5 ==>
                forall k | 0 <= k < 5 && k != HdrClass(ClassFrom(0, size)) :: slab[k] == old(slab[k])
      ensures r.Some? ==>
                (r.value, ClassFrom(0, size)) !in old(Objects()) &&
                Objects() == old(Objects()) + {(r.value, ClassFrom(0, size))}
      ensures ClassFrom(0, size) < 5 ==>
                forall k | 0 <= k < CLASSES && k != ClassFrom(0, size) :: slab[k] == old(slab[k])
      ensures forall k | 5 <= k < CLASSES && k != ClassFrom(0, size) :: slab[k] == old(slab[k])
      ensures forall k | 0 <= k < CLASSES :: |slab[k].blks| >= |old(slab[k].blks)|
      ensures FreshGroups(old(All(slab[..])), old(buddy.Allocated()), All(slab[..]), buddy.Allocated())
      ensures HeadsKept(old(buddy.Allocated()), old(buddy.pages[..]), buddy.pages[..])
      ensures OthersKept(old(Owned()), old(buddy.Allocated()), old(buddy.pages[..]), Owned(), buddy.Allocated(),
                buddy.pages[..])
      ensures old(buddy.Clean()) ==> buddy.Clean()
      ensures NoNewTables(old(buddy.pages[..]), buddy.pages[..]) && buddy.roots == old(buddy.roots)
      decreases if ClassFrom(0, size) >= 5 then 1 else 0, 1
    {
      hide Size, Cols, StructSize, EmbeddedCols, Zeros, Inv, BlkOk, LiveOf, All, Live, Hdrs, Held, Words, UsedOf,
           PagesOf, ForestOk, BigEnough, Layout, ClassFrom, Buddy.Clean, Room;
      var id: ClassId := PickClass(size);
      var i := 0;
      if slab[id].freeCnt > 0 {
        i := FirstWithFree(slab[id].blks);
      } else {
        var ok := NewSlabBlk(id);
        if !ok {
          return None;
        }
      }
      var a := TakeSlot(id, i);
      FreshOthers(old(All(slab[..])), old(buddy.Allocated()), old(buddy.pages[..]), All(slab[..]), buddy.Allocated(),
          buddy.pages[..], boot);
      r := Some(a);
    }

    /** The loop that finds the class. */
    method PickClass(size: nat) returns (id: ClassId)
      requires size <= MX_SIZE && MX_SIZE == Size(15)
      ensures id == ClassFrom(0, size)
    {
      id := 0;
      while Size(id) < size
        invariant ClassFrom(id, size) == ClassFrom(0, size)
        decreases 15 - id
      {
        id := id + 1;
      }
    }

    /** The size is too large, or its class is full and cannot grow. */
    ghost predicate Refuses(size: nat)
      requires slab.Length == CLASSES
      reads this, slab, buddy
    {
      size > MX_SIZE || (size <= Size(15) && slab[ClassFrom(0, size)].freeCnt == 0 &&
                         NoRoom(ClassFrom(0, size), slab[..], buddy.freeLst))
    }

    /** mm_kmalloc, for shared memory. */
    method MmKmalloc(size: nat) returns (r: Option<nat>)
      requires Valid()
      modifies slab, buddy, buddy.pages
      ensures Valid() && (size > MX_SIZE ==> r == None)
      ensures r == None <==> old(Refuses(size))
      ensures r == None ==> Objects() == old(Objects())
      ensures r.Some? ==>
                size <= MX_SIZE && size <= Size(15) &&
                var id := ClassFrom(0, size);
                && size <= Size(id) && (id > 0 ==> Size(id - 1) < size)
                && (r.value, id) !in old(Objects()) && Objects() == old(Objects()) + {(r.value, id)}
                && Room(buddy.freeLst, BLK_ORD) + Cost(id, old(slab[..])) == Room(old(buddy.freeLst), BLK_ORD)
                && slab[id].freeCnt == FreeAfter(id, old(slab[..]))
                && forall k | 0 <= k < 5 && k != id && (id >= 5 ==> k != HdrClass(id)) :: slab[k] == old(slab[k])
      ensures OthersKept(old(Owned()), old(buddy.Allocated()), old(buddy.pages[..]), Owned(), buddy.Allocated(),
                buddy.pages[..])
      ensures old(buddy.Clean()) ==> buddy.Clean()
      ensures NoNewTables(old(buddy.pages[..]), buddy.pages[..]) && buddy.roots == old(buddy.roots)
    {
      hide Size, BlkOk, Held, Live, Hdrs, All, UsedOf, PagesOf, Layout, BigEnough, Buddy.Clean, Room;
      if size > MX_SIZE {
        return None;
      }
      SizeTable();
      r := Kmalloc(size);
    }

    /** No block covers the address. */
    ghost predicate Uncovered(a: nat)
      requires slab.Length == CLASSES
      reads this, slab
    {
      forall k | 0 <= k < CLASSES :: forall b | b in slab[k].blks :: !Covers(k, b, a)
    }

    /** The search of _kfree for the block that an address lies in. */
    method FindBlk(a: nat) returns (found: bool, id: ClassId, i: nat)
      requires slab.Length == CLASSES
      ensures found ==> i < |slab[id].blks| && Covers(id, slab[id].blks[i], a)
      ensures !found ==> forall k | 0 <= k < CLASSES :: forall b | b in slab[k].blks :: !Covers(k, b, a)
    {
      hide Covers;
      var k := 0;
      id, i := 0, 0;
      while k < CLASSES
        invariant k <= CLASSES && forall c | 0 <= c < k :: forall b | b in slab[c].blks :: !Covers(c, b, a)
      {
        i := 0;
        while i < |slab[k].blks|
          invariant i <= |slab[k].blks| && forall b | b in slab[k].blks[..i] :: !Covers(k, b, a)
        {
          if Covers(k, slab[k].blks[i], a) {
            return true, k, i;
          }
          assert slab[k].blks[..i + 1] == slab[k].blks[..i] + [slab[k].blks[i]];
          i := i + 1;
        }
        assert slab[k].blks[..i] == slab[k].blks;
        k := k + 1;
      }
      found := false;
    }

    /** The bit and counter updates of _kfree. */
    method ClearSlot(id: ClassId, i: nat, a: nat, ghost u: (nat, nat))
      requires Valid() && i < |slab[id].blks| && u in Objects() && InObject(u, a) && Covers(id, slab[id].blks[i], a)
      modifies slab
      ensures Valid() && u.1 == id && Objects() == old(Objects()) - {u}
      ensures slab[..] == old(slab[..])[id := slab[id]]
      ensures |slab[id].blks| == |old(slab[id].blks)| && slab[id].freeCnt == old(slab[id].freeCnt) + 1
      ensures slab[id].blks[i].page == old(slab[id].blks[i].page)
      ensures slab[id].blks[i].colCnt == old(slab[id].blks[i].colCnt)
      ensures slab[id].blks[i].usingCnt + 1 == old(slab[id].blks[i].usingCnt)
      ensures Groups(All(slab[..])) == old(Groups(All(slab[..])))
    {
      hide Size, Cols, StructSize, EmbeddedCols, Zeros, Inv, BlkOk, LiveOf, All, Live, Hdrs, Held, Words, UsedOf,
           PagesOf, ForestOk, BigEnough, Layout;
      ghost var all, s := All(slab[..]), slab[id];
      var b := slab[id].blks[i];
      BlkIn(slab[..], id, i, buddy.Allocated(), boot);
      BlkCounts(id, b, boot);
      ColsFill(id);
      var idx := (a - Base(b)) / Size(id);
      RightSlot(all, buddy.Allocated(), boot, u, a, (id, b), idx);
      ShrinkBlk(all, buddy.Allocated(), boot, (id, b), idx);
      SumAtLeast(slab[id].blks, i);
      slab[id] := slab[id].(blks := slab[id].blks[i := Unuse(b, idx)], usingCnt := slab[id].usingCnt - 1,
          freeCnt := slab[id].freeCnt + 1);
      assert slab[..] == old(slab[..])[id := slab[id]];
      PlaceOk(old(slab[..]), id, i, Unuse(b, idx), slab[id]);
      SwapGroups(all, (id, b), (id, Unuse(b, idx)));
    }

    /** The first half of _freeSlabBlk: an empty block leaves its class and its page group goes back.
        The header is then an object like any other, unless it lies elsewhere. */
    method DropGroup(id: ClassId, i: nat) returns (hdr: nat)
      requires Valid() && i < |slab[id].blks| && slab[id].blks[i].usingCnt == 0
      modifies slab, buddy, buddy.pages
      ensures Valid() && slab[id].blks == old(Without(slab[id].blks, i)) && slab[..] == old(slab[..])[id := slab[id]]
      ensures slab[id].freeCnt + old(slab[id].blks[i].freeCnt) == old(slab[id].freeCnt)
      ensures hdr == old(slab[id].blks[i].hdr)
      ensures buddy.Allocated() == old(buddy.Allocated()) - {(old(slab[id].blks[i].page), BLK_ORD)}
      ensures var x := old((id, slab[id].blks[i]));
              && (ObjHdr(id, x.1, boot) ==>
                   HdrOf(x) !in old(Objects()) && HdrOf(x) in Objects() && Objects() == old(Objects()) + {HdrOf(x)})
              && (!ObjHdr(id, x.1, boot) ==> Objects() == old(Objects()))
              && (id >= 5 && !ObjHdr(id, x.1, boot) ==> InBoot(boot, hdr))
      ensures OthersKept(old(Owned()), old(buddy.Allocated()), old(buddy.pages[..]), Owned(), buddy.Allocated(),
                buddy.pages[..])
      ensures old(buddy.Clean()) ==> buddy.Clean()
      ensures NoNewTables(old(buddy.pages[..]), buddy.pages[..]) && buddy.roots == old(buddy.roots)
    {
      hide Size, Cols, StructSize, EmbeddedCols, Zeros, Inv, BlkOk, LiveOf, All, Live, Hdrs, Held, HdrOf, Words,
           UsedOf, PagesOf, ForestOk, BigEnough, Layout, SumFree, SumUsing, Without, Buddy.Clean;
      ghost var all, used, d := All(slab[..]), buddy.Allocated(), buddy.pages[..];
      var b := slab[id].blks[i];
      hdr := b.hdr;
      BlkIn(slab[..], id, i, used, boot);
      EmptyLive(id, b, boot);
      DropBlk(all, used, boot, (id, b));
      DropHeld(all, used, boot, (id, b));
      SumAtLeast(slab[id].blks, i);
      InUsed(all, used, boot, (id, b));
      slab[id] := slab[id].(blks := Without(slab[id].blks, i), freeCnt := slab[id].freeCnt - b.freeCnt);
      assert slab[..] == old(slab[..])[id := slab[id]];
      OutOk(old(slab[..]), id, i, slab[id]);
      AllocatedDescriptor(buddy.roots, buddy.trees, buddy.pages[..], buddy.revBit, buddy.freeLst, (b.page, BLK_ORD));
      ghost var j, p;
      var ok;
      ok, j, p := buddy.FreePages(b.page);
      GroupLeaves(all, used, d, boot, (id, b), buddy.Allocated(), buddy.pages[..]);
    }

    /** _freeSlabBlk */
    method FreeSlabBlk(id: ClassId, i: nat) returns (ok: bool)
      requires Valid() && i < |slab[id].blks| && slab[id].blks[i].usingCnt == 0
      modifies slab, buddy, buddy.pages
      ensures Valid() && Objects() == old(Objects())
      ensures ok <==> id < 5 || ObjHdr(id, old(slab[id].blks[i]), boot)
      ensures slab[id].blks == old(Without(slab[id].blks, i))
      ensures slab[id].freeCnt + old(slab[id].blks[i].freeCnt) == old(slab[id].freeCnt)
      ensures forall k | 5 <= k < CLASSES && k != id :: slab[k] == old(slab[k])
      ensures id < 5 ==> forall k | 0 <= k < CLASSES && k != id :: slab[k] == old(slab[k])
      ensures forall k | 0 <= k < CLASSES && k != id :: |slab[k].blks| > 0 || |old(slab[k].blks)| == 0
      ensures OthersKept(old(Owned()), old(buddy.Allocated()), old(buddy.pages[..]), Owned(), buddy.Allocated(),
                buddy.pages[..])
      ensures old(buddy.Clean()) ==> buddy.Clean()
      ensures NoNewTables(old(buddy.pages[..]), buddy.pages[..]) && buddy.roots == old(buddy.roots)
      decreases if id >= 5 then 1 else 0, 0
    {
      hide Size, Cols, StructSize, EmbeddedCols, Zeros, Inv, BlkOk, LiveOf, All, Live, Hdrs, Held, HdrOf, Words,
           UsedOf, PagesOf, ForestOk, BigEnough, Layout, SumFree, SumUsing, Without, Buddy.Clean;
      ghost var x := (id, slab[id].blks[i]);
      var hdr := DropGroup(id, i);
      if id < 5 {
        return true;
      }
      ghost var u := (hdr, 0);
      if ObjHdr(id, x.1, boot) {
        u := HdrOf(x);
        HdrClassSmall(x);
      } else {
        BootAlone(slab[..], buddy.Allocated(), boot, hdr);
      }
      ColsFill(u.1);
      ghost var gone;
      ok, gone := Kfree(hdr, u);
    }

    /** _kfree.  What is freed is the object that a client holds at this address, or an address that no block covers,
        which is refused.  `gone` is the block that was given back, if any: the emptied block of the
        object, not the only one of its class, and the class keeps at least half its number of free
        slots.  Otherwise the object's block is still there, and one of the three conditions fails. */
    method Kfree(a: nat, ghost u: (nat, nat)) returns (ok: bool, ghost gone: Option<Blk>)
      requires Valid() && InObject(u, a)
      requires u in Objects() || Uncovered(a)
      modifies slab, buddy, buddy.pages
      ensures Valid()
      ensures u in old(Objects()) ==> Objects() == old(Objects()) - {u}
      ensures u !in old(Objects()) ==> !ok && gone == None && slab[..] == old(slab[..]) && Objects() == old(Objects())
      ensures gone == None ==> |slab[u.1].blks| == |old(slab[u.1].blks)|
      ensures gone.Some? ==>
                2 <= |old(slab[u.1].blks)| == |slab[u.1].blks| + 1 && slab[u.1].freeCnt >= gone.value.colCnt / 2
      ensures gone.Some? ==> gone.value.usingCnt == 0 && Covers(u.1, gone.value, a)
      ensures gone.Some? ==> (ok <==> u.1 < 5 || ObjHdr(u.1, gone.value, boot))
      ensures u in old(Objects()) && gone == None ==>
                ok && exists b | b in slab[u.1].blks ::
                  Covers(u.1, b, a) && (b.usingCnt > 0 || slab[u.1].freeCnt < b.colCnt * 3 / 2 || |slab[u.1].blks| == 1)
      ensures forall k | 5 <= k < CLASSES && k != u.1 :: slab[k] == old(slab[k])
      ensures u.1 < 5 ==> forall k | 0 <= k < CLASSES && k != u.1 :: slab[k] == old(slab[k])
      ensures forall k | 0 <= k < CLASSES :: |slab[k].blks| > 0 || |old(slab[k].blks)| == 0
      ensures OthersKept(old(Owned()), old(buddy.Allocated()), old(buddy.pages[..]), Owned(), buddy.Allocated(),
                buddy.pages[..])
      ensures old(buddy.Clean()) ==> buddy.Clean()
      ensures NoNewTables(old(buddy.pages[..]), buddy.pages[..]) && buddy.roots == old(buddy.roots)
      decreases if u.1 >= 5 then 1 else 0, 1
    {
      hide Size, Cols, StructSize, EmbeddedCols, Zeros, Inv, BlkOk, LiveOf, All, Live, Hdrs, Held, HdrOf, Words,
           UsedOf, PagesOf, ForestOk, BigEnough, Layout, SumFree, SumUsing, Without, Covers, Buddy.Clean;
      gone := None;
      var found, sizeId, i := FindBlk(a);
      if !found {
        InvClasses(All(slab[..]), buddy.Allocated(), boot);
        if u in Objects() {
          var k, b := HeldCovered(slab[..], buddy.Allocated(), boot, u, a);
          assert false;
        }
        return false, None;
      }
      assert slab[sizeId].blks[i] in slab[sizeId].blks;
      ClearSlot(sizeId, i, a, u);
      var blk := slab[sizeId].blks[i];
      CoversSame(sizeId, old(slab[sizeId].blks[i]), blk, a);
      if blk.usingCnt == 0 && slab[sizeId].freeCnt >= blk.colCnt * 3 / 2 && |slab[sizeId].blks| != 1 {
        FreeCounts(slab[..], buddy.Allocated(), boot, sizeId, i);
        ok := FreeSlabBlk(sizeId, i);
        gone := Some(blk);
      } else {
        ok := true;
      }
    }
  }

  lemma CoversSame(id: ClassId, b: Blk, b': Blk, a: nat)
    requires Covers(id, b, a) && b'.page == b.page && b'.colCnt == b.colCnt
    ensures Covers(id, b', a)
  {
  }

  lemma HdrClassSmall(x: (nat, Blk))
    requires 5 <= x.0 < CLASSES
    ensures HdrOf(x).0 == x.1.hdr && HdrOf(x).1 < 5
  {
    SmallHeaders(x.0);
  }

  /** An empty block's slots are all free. */
  lemma FreeCounts(slabs: seq<Slab>, used: set<(nat, nat)>, boot: nat, id: ClassId, i: nat)
    requires |slabs| == CLASSES && i < |slabs[id].blks| && Inv(All(slabs), used, boot)
    ensures var b := slabs[id].blks[i]; b.usingCnt + b.freeCnt == b.colCnt
  {
    hide BlkOk;
    BlkIn(slabs, id, i, used, boot);
    BlkCounts(id, slabs[id].blks[i], boot);
  }

  lemma InUsed(all: set<(nat, Blk)>, used: set<(nat, nat)>, boot: nat, x: (nat, Blk))
    requires Inv(all, used, boot) && x in all
    ensures (x.1.page, BLK_ORD) in used
  {
    hide BlkOk, Live, Hdrs, Apart;
  }

  /** The header of a block that leaves is held by its owner. */
  lemma DropHeld(all: set<(nat, Blk)>, used: set<(nat, nat)>, boot: nat, x: (nat, Blk))
    requires Inv(all, used, boot) && x in all && LiveOf(x.0, x.1) == {}
    ensures Classes(all - {x})
    ensures ObjHdr(x.0, x.1, boot) ==>
              HdrOf(x) !in Held(all, boot) && Held(all - {x}, boot) == Held(all, boot) + {HdrOf(x)}
    ensures !ObjHdr(x.0, x.1, boot) ==> Held(all - {x}, boot) == Held(all, boot)
  {
    hide BlkOk, Live, Hdrs, HdrOf, Apart, LiveOf;
    DropBlk(all, used, boot, x);
  }

  /** Block i leaves class id. */
  lemma OutOk(slabs: seq<Slab>, id: ClassId, i: nat, s: Slab)
    requires |slabs| == CLASSES && i < |slabs[id].blks| && SlabOk(slabs[id])
    requires s.blks == Without(slabs[id].blks, i) && s.freeCnt == slabs[id].freeCnt - slabs[id].blks[i].freeCnt
    requires s.usingCnt == slabs[id].usingCnt && slabs[id].blks[i].usingCnt == 0
    ensures SlabOk(s) && All(slabs[id := s]) == All(slabs) - {(id, slabs[id].blks[i])}
  {
    hide Without, All;
    var bs := slabs[id].blks;
    SumWithout(bs, i);
    WithoutIn(bs, i);
    AllSet(slabs, id, s);
    AllSet(slabs, id, slabs[id]);
    assert slabs[id := slabs[id]] == slabs;
    assert bs[i] in bs;
  }

  lemma BootAlone(slabs: seq<Slab>, used: set<(nat, nat)>, boot: nat, a: nat)
    requires |slabs| == CLASSES && Inv(All(slabs), used, boot) && InBoot(boot, a)
    ensures (a, 0) !in Held(All(slabs), boot)
    ensures forall k | 0 <= k < CLASSES :: forall b | b in slabs[k].blks :: !Covers(k, b, a)
  {
    hide BlkOk, Live, Hdrs, Size, Apart;
    forall k, b | 0 <= k < CLASSES && b in slabs[k].blks ensures !Covers(k, b, a) {
      assert (k, b) in All(slabs);
      BootUncovered(All(slabs), used, boot, a, (k, b));
    }
    if (a, 0) in Held(All(slabs), boot) {
      LiveNotBoot(All(slabs), used, boot, (a, 0));
    }
  }

  /** An object that is held lies in some block. */
  lemma HeldCovered(slabs: seq<Slab>, used: set<(nat, nat)>, boot: nat, u: (nat, nat), a: nat)
    returns (id: ClassId, b: Blk)
    requires |slabs| == CLASSES && Inv(All(slabs), used, boot) && u in Held(All(slabs), boot) && InObject(u, a)
    ensures b in slabs[id].blks && Covers(id, b, a)
  {
    hide BlkOk, Live, Hdrs, Size, Apart, Slot;
    var x, j := LiveHome(All(slabs), boot, used, u);
    ColsFill(x.0);
    id, b := x.0, x.1;
  }

  /** The block that covers a held object is the one whose slot it is. */
  lemma RightSlot(all: set<(nat, Blk)>, used: set<(nat, nat)>, boot: nat, u: (nat, nat), a: nat, x: (nat, Blk),
                  idx: nat)
    requires Inv(all, used, boot) && u in Held(all, boot) && x in all
    requires x.0 < CLASSES && Covers(x.0, x.1, a) && InObject(u, a)
    requires Size(x.0) > 0 && idx == (a - Base(x.1)) / Size(x.0)
    ensures u.1 == x.0 && idx < x.1.colCnt && idx < |x.1.bits| && x.1.bits[idx]
    ensures u == (Slot(x.1, x.0, idx), x.0) && u !in Hdrs(all, boot)
  {
    hide Size, Live, Hdrs;
    var y, j := LiveHome(all, boot, used, u);
    assert BlkOk(x.0, x.1, boot) && BlkOk(y.0, y.1, boot);
    ColsFill(y.0);
    if x != y { BlksClear(x.1, y.1, used); }
    SlotCovers(x.1, x.0, j, a);
  }

  /** Block i of class id changes in place. */
  lemma PlaceOk(slabs: seq<Slab>, id: ClassId, i: nat, b: Blk, s: Slab)
    requires |slabs| == CLASSES && i < |slabs[id].blks| && SlabOk(slabs[id]) && b.page == slabs[id].blks[i].page
    requires s.blks == slabs[id].blks[i := b]
    requires s.freeCnt - slabs[id].freeCnt == b.freeCnt - slabs[id].blks[i].freeCnt
    requires s.usingCnt - slabs[id].usingCnt == b.usingCnt - slabs[id].blks[i].usingCnt
    ensures SlabOk(s) && All(slabs[id := s]) == All(slabs) - {(id, slabs[id].blks[i])} + {(id, b)}
  {
    hide Without, All;
    var bs := slabs[id].blks;
    SumWithout(bs, i);
    SumWithout(s.blks, i);
    assert Without(s.blks, i) == Without(bs, i) by { SameWithout(bs, i, b); }
    AllSet(slabs, id, s);
    AllSet(slabs, id, slabs[id]);
    assert slabs[id := slabs[id]] == slabs;
    forall x ensures x in s.blks <==> x == b || (x in bs && x != bs[i]) {
      if x in s.blks {
        var k :| 0 <= k < |s.blks| && s.blks[k] == x;
        assert k != i ==> bs[k] == x;
      }
      if x in bs && x != bs[i] {
        var k :| 0 <= k < |bs| && bs[k] == x;
        assert s.blks[k] == x;
      }
      assert s.blks[i] == b;
    }
  }

  lemma SameWithout(bs: seq<Blk>, i: nat, b: Blk)
    requires i < |bs|
    ensures Without(bs[i := b], i) == Without(bs, i)
  {
  }

  lemma NothingOk(slabs: seq<Slab>, used: set<(nat, nat)>, boot: nat)
    requires |slabs| == CLASSES && (forall k | 0 <= k < CLASSES :: slabs[k] == Slab(0, 0, []))
    requires (boot, BOOT_ORD) in used && forall u, v | u in used && v in used :: u == v || Apart(u, v)
    ensures forall k | 0 <= k < CLASSES :: SlabOk(slabs[k])
    ensures Inv(All(slabs), used, boot) && Held(All(slabs), boot) == {}
  {
    hide Apart;
    assert All(slabs) == {};
  }

  lemma InBootObj(id: ClassId, b: Blk, boot: nat)
    requires InBoot(boot, b.hdr)
    ensures !ObjHdr(id, b, boot)
  {
  }

  lemma InvClasses(all: set<(nat, Blk)>, used: set<(nat, nat)>, boot: nat)
    requires Inv(all, used, boot)
    ensures Classes(all)
  {
  }

  lemma StillOk(all: set<(nat, Blk)>, used: set<(nat, nat)>, used': set<(nat, nat)>, boot: nat)
    requires Inv(all, used, boot) && used <= used' && forall u, v | u in used' && v in used' :: u == v || Apart(u, v)
    ensures Inv(all, used', boot)
  {
    hide BlkOk, Live, Hdrs, Apart;
    OtherPages(all, used, used', boot);
  }

  lemma NewGroup(all: set<(nat, Blk)>, used: set<(nat, nat)>, boot: nat, p: nat)
    requires Inv(all, used, boot) && (p, BLK_ORD) !in used
    ensures p !in Groups(all)
  {
    hide BlkOk, Live, Hdrs, Apart;
  }

  lemma HeldLive(all: set<(nat, Blk)>, used: set<(nat, nat)>, boot: nat, u: (nat, nat))
    requires Inv(all, used, boot) && u in Held(all, boot)
    ensures u in Live(all)
  {
    hide BlkOk, Live, Hdrs, Apart;
  }

  lemma FreshThen(all0: set<(nat, Blk)>, used0: set<(nat, nat)>, used1: set<(nat, nat)>, all: set<(nat, Blk)>,
                  used: set<(nat, nat)>)
    requires used0 <= used1 && FreshGroups(all0, used1, all, used)
    ensures FreshGroups(all0, used0, all, used)
  {
    hide Groups;
  }

  lemma KeptThrough(used: set<(nat, nat)>, d: seq<Page>, used1: set<(nat, nat)>, d1: seq<Page>, d2: seq<Page>)
    requires used <= used1 && HeadsKept(used, d, d1)
    requires HeadsKept(used1, d1, d2) && NoNewTables(d, d1) && NoNewTables(d1, d2)
    ensures HeadsKept(used, d, d2) && NoNewTables(d, d2)
  {
  }

  /** Groups that were not allocated before are taken over, and no others. */
  lemma FreshOthers(all: set<(nat, Blk)>, used: set<(nat, nat)>, d: seq<Page>,
                    all': set<(nat, Blk)>, used': set<(nat, nat)>, d': seq<Page>, boot: nat)
    requires FreshGroups(all, used, all', used') && HeadsKept(used, d, d') && Inv(all', used', boot)
    ensures OthersKept(Groups(all) + {boot}, used, d, Groups(all') + {boot}, used', d')
  {
    hide BlkOk, Live, Hdrs, Apart;
    forall u | u in used && u.0 !in Groups(all) + {boot} ensures u.0 !in Groups(all') {
      if u.0 in Groups(all') {
        var x :| x in all' && x.1.page == u.0;
        SameHead(used', u, (x.1.page, BLK_ORD));
        assert false;
      }
    }
  }

  lemma SameHead(used: set<(nat, nat)>, u: (nat, nat), v: (nat, nat))
    requires u in used && v in used && u.0 == v.0 && forall x, y | x in used && y in used && x != y :: Apart(x, y)
    ensures u == v
  {
    assert !Apart(u, v);
  }

  /** A group that leaves is no other user's. */
  lemma GroupLeaves(all: set<(nat, Blk)>, used: set<(nat, nat)>, d: seq<Page>, boot: nat, x: (nat, Blk),
                    used': set<(nat, nat)>, d': seq<Page>)
    requires Inv(all, used, boot) && x in all && used' == used - {(x.1.page, BLK_ORD)} && HeadsKept(used', d, d')
    ensures OthersKept(Groups(all) + {boot}, used, d, Groups(all - {x}) + {boot}, used', d')
  {
    hide BlkOk, Live, Hdrs, Apart;
    assert x.1.page in Groups(all);
    assert Groups(all - {x}) <= Groups(all);
  }

  lemma SwapGroups(all: set<(nat, Blk)>, x: (nat, Blk), x': (nat, Blk))
    requires x in all && x'.1.page == x.1.page
    ensures Groups(all - {x} + {x'}) == Groups(all)
  {
    var all' := all - {x} + {x'};
    forall p | p in Groups(all) ensures p in Groups(all') {
      var y :| y in all && y.1.page == p;
      assert (if y == x then x' else y) in all';
    }
  }

  lemma PushAll(slabs: seq<Slab>, id: nat, b: Blk, s: Slab)
    requires id < |slabs| && s.blks == [b] + slabs[id].blks
    ensures All(slabs[id := s]) == All(slabs) + {(id, b)}
  {
    hide All;
    AllSet(slabs, id, s);
    AllSet(slabs, id, slabs[id]);
    assert slabs[id := slabs[id]] == slabs;
  }

  /** A block over a group that was not allocated at first joins. */
  lemma AddFresh(all0: set<(nat, Blk)>, used0: set<(nat, nat)>, all: set<(nat, Blk)>, used: set<(nat, nat)>,
                 x: (nat, Blk))
    requires FreshGroups(all0, used0, all, used) && (x.1.page, BLK_ORD) !in used0
    ensures FreshGroups(all0, used0, all + {x}, used)
  {
    forall p | p in Groups(all + {x}) && (p, BLK_ORD) in used0 ensures p in Groups(all0) {
      var y :| y in all + {x} && y.1.page == p;
      assert y in all && p in Groups(all);
    }
  }

  lemma NotThere(all: set<(nat, Blk)>, x: (nat, Blk))
    requires x.1.page !in Groups(all)
    ensures x !in all && forall y | y in all :: y.1.page != x.1.page
  {
    forall y | y in all ensures y.1.page != x.1.page { assert y.1.page in Groups(all); }
  }

  lemma PushOk(s: Slab, b: Blk, slabs: seq<Slab>, id: nat)
    requires SlabOk(s) && id < |slabs| && slabs[id] == s && b.page !in Groups(All(slabs)) && b.usingCnt == 0
    ensures SlabOk(s.(blks := [b] + s.blks, freeCnt := s.freeCnt + b.freeCnt))
  {
    var bs := [b] + s.blks;
    assert bs[1..] == s.blks;
    forall j | 0 <= j < |s.blks| ensures s.blks[j].page != b.page {
      assert (id, s.blks[j]) in All(slabs);
      assert s.blks[j].page in Groups(All(slabs));
    }
  }

  lemma EmbeddedNew(id: ClassId, all: set<(nat, Blk)>, used: set<(nat, nat)>, boot: nat, page: nat)
    requires Inv(all, used, boot) && (page, BLK_ORD) in used && id < 5 && StructSize(id) <= BLK_SIZE
    ensures var b := NewBlk(PAGE * page + BLK_SIZE - StructSize(id), page, EmbeddedCols(id));
            BlkOk(id, b, boot) && LiveOf(id, b) == {} && !ObjHdr(id, b, boot) && b.freeCnt > 0
  {
    hide Size, StructSize, EmbeddedCols, BlkOk, Live, Hdrs, Apart;
    EmbeddedFits(id);
    GroupNotBoot(page, used, boot);
    HdrSome(id);
    NewBlkOk(id, PAGE * page + BLK_SIZE - StructSize(id), page, EmbeddedCols(id), boot);
  }

  lemma HdrSome(id: ClassId)
    ensures StructSize(id) >= HDR_SIZE
  {
  }

  lemma ObjectNew(id: ClassId, all: set<(nat, Blk)>, used: set<(nat, nat)>, boot: nat, page: nat, h: nat)
    requires Inv(all, used, boot) && id >= 5 && StructSize(id) <= MX_SIZE && StructSize(id) <= Size(15)
    requires (h, ClassFrom(0, StructSize(id))) in Live(all)
    ensures var b := NewBlk(h, page, Cols(id));
            BlkOk(id, b, boot) && LiveOf(id, b) == {} && ObjHdr(id, b, boot) &&
                HdrOf((id, b)) == (h, ClassFrom(0, StructSize(id))) && b.freeCnt > 0
  {
    hide Size, StructSize, Cols, BlkOk, Live, Hdrs, Apart;
    LiveNotBoot(all, used, boot, (h, ClassFrom(0, StructSize(id))));
    ColsFill(id);
    NewBlkOk(id, h, page, Cols(id), boot);
  }

  lemma BlkIn(slabs: seq<Slab>, id: ClassId, i: nat, used: set<(nat, nat)>, boot: nat)
    requires |slabs| == CLASSES && i < |slabs[id].blks| && Inv(All(slabs), used, boot)
    ensures (id, slabs[id].blks[i]) in All(slabs) && BlkOk(id, slabs[id].blks[i], boot)
  {
    hide BlkOk, Live, Hdrs;
  }

  lemma BlkCounts(id: ClassId, b: Blk, boot: nat)
    requires BlkOk(id, b, boot)
    ensures 0 < b.colCnt <= |b.bits| && |b.bits| == 64 * Words(b.colCnt)
    ensures forall k | b.colCnt <= k < |b.bits| :: b.bits[k]
    ensures b.freeCnt == Zeros(b.bits) && b.usingCnt + b.freeCnt == b.colCnt
  {
  }

  /** The list of class id after block i moves to the front and becomes b. */
  lemma FrontOk(slabs: seq<Slab>, id: ClassId, i: nat, b: Blk, s: Slab)
    requires |slabs| == CLASSES && i < |slabs[id].blks| && SlabOk(slabs[id]) && b.page == slabs[id].blks[i].page
    requires s.blks == [b] + Without(slabs[id].blks, i)
    requires s.freeCnt - slabs[id].freeCnt == b.freeCnt - slabs[id].blks[i].freeCnt
    requires s.usingCnt - slabs[id].usingCnt == b.usingCnt - slabs[id].blks[i].usingCnt
    ensures SlabOk(s) && All(slabs[id := s]) == All(slabs) - {(id, slabs[id].blks[i])} + {(id, b)}
  {
    hide Without, All;
    var bs := slabs[id].blks;
    SumWithout(bs, i);
    WithoutIn(bs, i);
    AllSet(slabs, id, s);
    AllSet(slabs, id, slabs[id]);
    assert slabs[id := slabs[id]] == slabs;
    assert s.blks[1..] == Without(bs, i);
    forall x ensures x in s.blks <==> x == b || (x in bs && x != bs[i]) {
      assert x in s.blks <==> x == b || x in Without(bs, i);
    }
    forall a, c | 0 <= a < c < |s.blks| ensures s.blks[a].page != s.blks[c].page {
      assert s.blks[c] == Without(bs, i)[c - 1] && Without(bs, i)[c - 1] in Without(bs, i);
    }
  }
}

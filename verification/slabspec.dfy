/** The slab allocator of kernel/mm/slab.c: size classes of 32 << id bytes, each a list of blocks
    that cover one 2M page group and keep a bitmap of the slots in use. */
module SlabSpec {
  import opened Sequences
  import opened Powers
  import opened Products
  import opened BuddyTrees

  const CLASSES: nat := 16 // mm_slab_mxSizeShift - mm_slab_mnSizeShift + 1
  const MIN_SHIFT: nat := 5 // mm_slab_mnSizeShift
  const MX_SIZE: nat := 0x10_0000 // mm_slab_mxSize
  const BLK_SIZE: nat := 0x20_0000 // Page_2MSize
  const BLK_ORD: nat := 9 // Page_2MShift - mm_pageShift
  const HDR_SIZE: nat := 64 // sizeof(SlabBlk)
  const BOOT_ORD: nat := 3 // pages for the boot-time headers: 2^3

  /** SlabBlk.  hdr is the address of the structure itself. */
  datatype Blk = Blk(hdr: nat, page: nat, colCnt: nat, bits: seq<bool>, usingCnt: nat, freeCnt: nat)

  datatype Slab = Slab(usingCnt: nat, freeCnt: nat, blks: seq<Blk>)

  // ----- sizes -----

  type ClassId = id: nat | id < 16

  /** _slab[id].size */
  function Size(id: ClassId): nat { Pow2(id + MIN_SHIFT) }

  /** Page_2MSize >> _slab[id].szShift */
  function Cols(id: ClassId): nat { Pow2(16 - id) }

  function Words(cols: nat): nat { (cols + 63) / 64 }

  /** structSz of _newSlabBlk for an embedded header. */
  function StructSize(id: ClassId): nat { HDR_SIZE + 8 * Words(Cols(id)) }

  function EmbeddedCols(id: ClassId): nat
    requires StructSize(id) <= BLK_SIZE
  {
    Quotient(BLK_SIZE - StructSize(id), Size(id))
  }

  function Quotient(a: nat, b: nat): nat
    requires b > 0
  {
    a / b
  }

  /** The class that _kmalloc picks. */
  function ClassFrom(id: ClassId, size: nat): (r: ClassId)
    requires size <= MX_SIZE && size <= Size(15)
    ensures id <= r && size <= Size(r) && (r > id ==> Size(r - 1) < size)
    decreases 15 - id
  {
    if Size(id) >= size then id else ClassFrom(id + 1, size)
  }

  lemma SizeTable()
    ensures Size(0) == 32 && Size(1) == 64 && Size(2) == 128 && Size(3) == 256 && Size(4) == 512
    ensures Size(15) == MX_SIZE
    ensures Cols(0) == 65536 && Cols(1) == 32768 && Cols(2) == 16384
    ensures Cols(3) == 8192 && Cols(4) == 4096 && Cols(5) == 2048
  {
    assert Pow2(9) == 512 && Pow2(11) == 2048;
    PowAdd(10, 10);
    assert Pow2(10) == 1024;
    PowAdd(11, 1);
    PowAdd(11, 2);
    PowAdd(11, 3);
    PowAdd(11, 4);
    PowAdd(11, 5);
    assert Pow2(4) == 16 && Pow2(5) == 32;
  }

  lemma ColsFill(id: ClassId)
    ensures Cols(id) * Size(id) == BLK_SIZE && Cols(id) >= 2 && Size(id) >= 32
  {
    PowAdd(16 - id, id + MIN_SHIFT);
    SizeTable();
    PowAdd(16, 5);
    PowMonotone(1, 16 - id);
    PowMonotone(5, id + MIN_SHIFT);
  }

  lemma {:induction false} MiddleClass(size: nat)
    requires 64 < size <= 512 && size <= Size(15) && size <= MX_SIZE
    ensures 2 <= ClassFrom(0, size) <= 4
  {
    SizeTable();
    hide Size;
    assert ClassFrom(0, size) == ClassFrom(1, size) == ClassFrom(2, size);
    assert size > Size(2) ==> ClassFrom(2, size) == ClassFrom(3, size);
    assert size > Size(3) ==> ClassFrom(3, size) == ClassFrom(4, size) == 4;
  }

  /** Headers of classes 5 and up take at most 320 bytes, so they come from classes up to 4. */
  lemma SmallHeaders(id: ClassId)
    requires id >= 5
    ensures StructSize(id) <= 320 <= Size(4) && StructSize(id) <= MX_SIZE && StructSize(id) <= Size(15)
    ensures 2 <= ClassFrom(0, StructSize(id)) <= 4
  {
    SizeTable();
    PowMonotone(16 - id, 11);
    ColsFill(id);
    MiddleClass(StructSize(id));
  }

  /** An embedded header fits behind the slots of its block, of which there are as many as possible, and
      its map is long enough. */
  lemma EmbeddedFits(id: ClassId)
    requires id < 5
    ensures StructSize(id) <= BLK_SIZE / 2
    ensures EmbeddedCols(id) > 0 && EmbeddedCols(id) * Size(id) + StructSize(id) <= BLK_SIZE
    ensures (EmbeddedCols(id) + 1) * Size(id) + StructSize(id) > BLK_SIZE
    ensures EmbeddedCols(id) <= Cols(id) && Words(EmbeddedCols(id)) <= Words(Cols(id))
  {
    SizeTable();
    ColsFill(id);
    assert id == 0 || id == 1 || id == 2 || id == 3 || id == 4;
  }

  // ----- one block -----

  const PAGE: nat := 4096

  function Base(b: Blk): nat { PAGE * b.page }

  /** Where slot j of a block starts. */
  function Slot(b: Blk, id: ClassId, j: nat): nat { Base(b) + j * Size(id) }

  /** An address inside the page group that holds the boot-time headers. */
  ghost predicate InBoot(boot: nat, a: nat) { PAGE * boot <= a < PAGE * boot + PAGE * Pow2(BOOT_ORD) }

  /** The counters agree with the bitmap, whose bits past the last slot are set, and the header is
      where it should be. */
  ghost predicate BlkOk(id: ClassId, b: Blk, boot: nat) {
    && 0 < b.colCnt && |b.bits| == 64 * Words(b.colCnt) && (forall j | b.colCnt <= j < |b.bits| :: b.bits[j])
    && b.freeCnt == Zeros(b.bits) && b.usingCnt + b.freeCnt == b.colCnt
    && b.colCnt * Size(id) <= BLK_SIZE
    && (if InBoot(boot, b.hdr) then b.colCnt == Cols(id) && InBoot(boot, b.hdr + StructSize(id) - 1)
        else if id < 5 then StructSize(id) <= BLK_SIZE && b.colCnt == EmbeddedCols(id) &&
            b.hdr == Base(b) + BLK_SIZE - StructSize(id)
        else b.colCnt == Cols(id))
  }

  /** The header of the block is itself a slab object. */
  ghost predicate ObjHdr(id: ClassId, b: Blk, boot: nat) { id >= 5 && !InBoot(boot, b.hdr) }

  /** The slots in use: address and class. */
  ghost function LiveOf(id: ClassId, b: Blk): set<(nat, nat)> {
    set j | 0 <= j < b.colCnt && j < |b.bits| && b.bits[j] :: (Slot(b, id, j), id)
  }

  /** The bits of a fresh block: clear below cols, set from there on. */
  function FreshBits(cols: nat): (r: seq<bool>)
    ensures |r| == 64 * Words(cols) && forall j | 0 <= j < |r| :: r[j] == (j >= cols)
  {
    seq(64 * Words(cols), j => j >= cols)
  }

  /** Different slots are apart, and inside the block. */
  lemma SlotRange(b: Blk, id: ClassId, j: nat)
    requires j < b.colCnt && b.colCnt * Size(id) <= BLK_SIZE
    ensures Base(b) <= Slot(b, id, j)
    ensures Slot(b, id, j) + Size(id) <= Base(b) + b.colCnt * Size(id) <= Base(b) + BLK_SIZE
  {
    MulStep(j, b.colCnt, Size(id));
  }

  lemma SlotsApart(b: Blk, id: ClassId, j: nat, k: nat)
    requires j < k
    ensures Slot(b, id, j) + Size(id) <= Slot(b, id, k)
  {
    MulStep(j, k, Size(id));
  }

  /** The slot an address belongs to. */
  lemma SlotIndex(b: Blk, id: ClassId, j: nat)
    ensures (Slot(b, id, j) - Base(b)) / Size(id) == j
  {
    MulDiv(j, Size(id));
  }

  lemma MulDiv(j: nat, c: nat)
    requires c > 0
    ensures j * c / c == j
  {
    var x := j * c;
    var q, r := x / c, x % c;
    assert x == q * c + r && 0 <= r < c;
    if q < j { MulStep(q, j, c); }
    if j < q { MulStep(j, q, c); }
  }

  // ----- the changes of one block -----

  /** Any address in slot j leads to it. */
  lemma SlotCovers(b: Blk, id: ClassId, j: nat, a: nat)
    requires Slot(b, id, j) <= a < Slot(b, id, j) + Size(id)
    ensures Base(b) <= a && (a - Base(b)) / Size(id) == j
  {
    var r := a - Slot(b, id, j);
    MulDivRest(j, Size(id), r);
  }

  lemma MulDivRest(j: nat, c: nat, r: nat)
    requires r < c
    ensures (j * c + r) / c == j
  {
    var n := j * c + r;
    var q := n / c;
    assert q * c <= n < q * c + c by { assert n == q * c + n % c; }
    if q < j { MulStep(q, j, c); }
    if j < q { MulStep(j, q, c); }
  }

  /** Slot j is handed out. */
  function Use(b: Blk, j: nat): Blk
    requires j < |b.bits| && b.freeCnt > 0
  {
    b.(bits := b.bits[j := true], usingCnt := b.usingCnt + 1, freeCnt := b.freeCnt - 1)
  }

  function Unuse(b: Blk, j: nat): Blk
    requires j < |b.bits| && b.usingCnt > 0
  {
    b.(bits := b.bits[j := false], usingCnt := b.usingCnt - 1, freeCnt := b.freeCnt + 1)
  }

  lemma UseOk(id: ClassId, b: Blk, boot: nat, j: nat)
    requires BlkOk(id, b, boot) && j < b.colCnt && !b.bits[j]
    ensures b.freeCnt > 0 && BlkOk(id, Use(b, j), boot)
    ensures LiveOf(id, Use(b, j)) == LiveOf(id, b) + {(Slot(b, id, j), id)} && (Slot(b, id, j), id) !in LiveOf(id, b)
  {
    hide Size, Cols, StructSize, EmbeddedCols, Zeros;
    ZerosUpdate(b.bits, j, true);
    LiveChange(id, b, Use(b, j), j);
  }

  lemma UnuseOk(id: ClassId, b: Blk, boot: nat, j: nat)
    requires BlkOk(id, b, boot) && j < b.colCnt && b.bits[j]
    ensures b.usingCnt > 0 && BlkOk(id, Unuse(b, j), boot)
    ensures LiveOf(id, Unuse(b, j)) == LiveOf(id, b) - {(Slot(b, id, j), id)} && (Slot(b, id, j), id) in LiveOf(id, b)
  {
    hide Size, Cols, StructSize, EmbeddedCols, Zeros;
    ZerosUpdate(b.bits, j, false);
    SomeUsed(b, j);
    LiveChange(id, Unuse(b, j), b, j);
  }

  lemma SomeUsed(b: Blk, j: nat)
    requires j < b.colCnt <= |b.bits| && b.bits[j] && (forall k | b.colCnt <= k < |b.bits| :: b.bits[k])
    requires b.freeCnt == Zeros(b.bits) && b.usingCnt + b.freeCnt == b.colCnt
    ensures b.usingCnt > 0
  {
    ZerosBound(b.bits, b.colCnt, j);
  }

  /** b' has the slot j in use beside those of b. */
  lemma LiveChange(id: ClassId, b: Blk, b': Blk, j: nat)
    requires j < b.colCnt == b'.colCnt <= |b.bits| == |b'.bits|
    requires b'.page == b.page && !b.bits[j] && b'.bits == b.bits[j := true]
    ensures LiveOf(id, b') == LiveOf(id, b) + {(Slot(b, id, j), id)} && (Slot(b, id, j), id) !in LiveOf(id, b)
  {
    hide Slot;
    forall u | u in LiveOf(id, b') ensures u in LiveOf(id, b) || u == (Slot(b, id, j), id) {
      var k :| 0 <= k < b'.colCnt && b'.bits[k] && u == (Slot(b', id, k), id);
      SlotSame(b, b', id, k);
    }
    forall u | u in LiveOf(id, b) ensures u in LiveOf(id, b') && u != (Slot(b, id, j), id) {
      var k :| 0 <= k < b.colCnt && b.bits[k] && u == (Slot(b, id, k), id);
      SlotSame(b, b', id, k);
      SlotIndex(b, id, k);
      SlotIndex(b, id, j);
      assert b'.bits[k];
    }
    SlotSame(b, b', id, j);
    assert b'.bits[j];
  }

  lemma SlotSame(b: Blk, b': Blk, id: ClassId, k: nat)
    requires b'.page == b.page
    ensures Slot(b', id, k) == Slot(b, id, k)
  {
  }

  lemma LiveIn(id: ClassId, b: Blk, u: (nat, nat)) returns (j: nat)
    requires u in LiveOf(id, b)
    ensures j < b.colCnt && j < |b.bits| && b.bits[j] && u == (Slot(b, id, j), id)
  {
    j :| 0 <= j < b.colCnt && j < |b.bits| && b.bits[j] && u == (Slot(b, id, j), id);
  }

  lemma EmptyLive(id: ClassId, b: Blk, boot: nat)
    requires BlkOk(id, b, boot) && b.usingCnt == 0
    ensures LiveOf(id, b) == {}
  {
    if LiveOf(id, b) != {} {
      var u :| u in LiveOf(id, b);
      var j := LiveIn(id, b, u);
      SomeUsed(b, j);
    }
  }

  // ----- all blocks -----

  /** Every block with its class. */
  ghost function All(slabs: seq<Slab>): set<(nat, Blk)> {
    set id, b | 0 <= id < |slabs| && b in slabs[id].blks :: (id, b)
  }

  ghost predicate Classes(all: set<(nat, Blk)>) { forall x | x in all :: x.0 < CLASSES }

  /** Address and class of every slot in use, of clients and headers. */
  ghost function Live(all: set<(nat, Blk)>): set<(nat, nat)>
    requires Classes(all)
  {
    set x, u | x in all && u in LiveOf(x.0, x.1) :: u
  }

  ghost function HdrOf(x: (nat, Blk)): (nat, nat)
    requires 5 <= x.0 < CLASSES
  {
    SmallHeaders(x.0);
    (x.1.hdr, ClassFrom(0, StructSize(x.0)))
  }

  /** The slots that hold headers of other blocks. */
  ghost function Hdrs(all: set<(nat, Blk)>, boot: nat): set<(nat, nat)>
    requires Classes(all)
  {
    set x | x in all && ObjHdr(x.0, x.1, boot) :: HdrOf(x)
  }

  /** The slots that clients hold. */
  ghost function Held(all: set<(nat, Blk)>, boot: nat): set<(nat, nat)>
    requires Classes(all)
  {
    Live(all) - Hdrs(all, boot)
  }

  /** Every block is in order and has a page group of its own from the page allocator, and every
      header that is a slab object is in use and belongs to one block only. */
  ghost predicate Inv(all: set<(nat, Blk)>, used: set<(nat, nat)>, boot: nat) {
    && Classes(all)
    && (forall x | x in all :: BlkOk(x.0, x.1, boot) && (x.1.page, BLK_ORD) in used)
    && (forall x, y | x in all && y in all && x != y :: x.1.page != y.1.page)
    && (forall x, y | x in all && y in all && x != y && ObjHdr(x.0, x.1, boot) && ObjHdr(y.0, y.1, boot) ::
         x.1.hdr != y.1.hdr)
    && Hdrs(all, boot) <= Live(all)
    && (boot, BOOT_ORD) in used && forall u, v | u in used && v in used && u != v :: Apart(u, v)
  }

  // ----- no overlap -----

  /** Bytes [a, a + n) and [c, c + m) do not meet. */
  ghost predicate Clear(a: nat, n: nat, c: nat, m: nat) { a + n <= c || c + m <= a }

  ghost predicate InBlk(a: nat, n: nat, b: Blk) { Base(b) <= a && a + n <= Base(b) + BLK_SIZE }

  lemma BlksClear(b: Blk, c: Blk, used: set<(nat, nat)>)
    requires (b.page, BLK_ORD) in used && (c.page, BLK_ORD) in used && b.page != c.page
    requires forall u, v | u in used && v in used && u != v :: Apart(u, v)
    ensures Clear(Base(b), BLK_SIZE, Base(c), BLK_SIZE)
  {
    assert Apart((b.page, BLK_ORD), (c.page, BLK_ORD));
    assert PAGE * Pow2(BLK_ORD) == BLK_SIZE by { BlkPages(); }
  }

  lemma BlkPages()
    ensures PAGE * Pow2(BLK_ORD) == BLK_SIZE && Pow2(BOOT_ORD) == 8
  {
    PowAdd(4, 5);
    assert Pow2(4) == 16 && Pow2(5) == 32;
  }

  lemma BootClear(b: Blk, boot: nat, used: set<(nat, nat)>)
    requires (b.page, BLK_ORD) in used && (boot, BOOT_ORD) in used
    requires forall u, v | u in used && v in used && u != v :: Apart(u, v)
    ensures Clear(Base(b), BLK_SIZE, PAGE * boot, PAGE * Pow2(BOOT_ORD))
  {
    assert Apart((b.page, BLK_ORD), (boot, BOOT_ORD));
    BlkPages();
  }

  lemma LiveHome(all: set<(nat, Blk)>, boot: nat, used: set<(nat, nat)>, u: (nat, nat)) returns (x: (nat, Blk), j: nat)
    requires Inv(all, used, boot) && u in Live(all)
    ensures x in all && u.1 == x.0 && j < x.1.colCnt && j < |x.1.bits| && x.1.bits[j] && u.0 == Slot(x.1, x.0, j)
    ensures InBlk(u.0, Size(u.1), x.1) && u.0 + Size(u.1) <= Base(x.1) + x.1.colCnt * Size(x.0)
  {
    hide Slot, Size, Base;
    x :| x in all && u in LiveOf(x.0, x.1);
    j := LiveIn(x.0, x.1, u);
    assert BlkOk(x.0, x.1, boot);
    SlotRange(x.1, x.0, j);
  }

  /** Two slots in use never overlap. */
  lemma LiveClear(all: set<(nat, Blk)>, used: set<(nat, nat)>, boot: nat, u: (nat, nat), v: (nat, nat))
    requires Inv(all, used, boot) && u in Live(all) && v in Live(all) && u != v
    ensures u.1 < CLASSES && v.1 < CLASSES && Clear(u.0, Size(u.1), v.0, Size(v.1))
  {
    hide Size, Slot, Base, LiveOf;
    var x, j := LiveHome(all, boot, used, u);
    var y, k := LiveHome(all, boot, used, v);
    if x == y {
      if j < k { SlotsApart(x.1, x.0, j, k); } else { SlotsApart(x.1, x.0, k, j); }
    } else {
      BlksClear(x.1, y.1, used);
    }
  }

  /** The bytes a block's header takes. */
  ghost function HdrBytes(x: (nat, Blk)): nat
    requires x.0 < CLASSES
  {
    StructSize(x.0)
  }

  /** No object of a client overlaps any block header, whether the header is embedded at the end of
      its 2M group, is a slab object itself, or was set up at boot. */
  lemma HeldClear(all: set<(nat, Blk)>, used: set<(nat, nat)>, boot: nat, u: (nat, nat), x: (nat, Blk))
    requires Inv(all, used, boot) && u in Held(all, boot) && x in all
    ensures u.1 < CLASSES && x.0 < CLASSES && Clear(u.0, Size(u.1), x.1.hdr, HdrBytes(x))
  {
    hide Size, Slot, LiveOf, Live, Hdrs;
    var y, j := LiveHome(all, boot, used, u);
    assert BlkOk(x.0, x.1, boot);
    if InBoot(boot, x.1.hdr) {
      BootClear(y.1, boot, used);
    } else if x.0 < 5 {
      EmbeddedFits(x.0);
      if x == y { EmbeddedClear(x, u, boot); } else { BlksClear(x.1, y.1, used); }
    } else {
      HdrLive(all, used, boot, x);
      LiveClear(all, used, boot, u, HdrOf(x));
      SmallHeaders(x.0);
    }
  }

  lemma EmbeddedClear(x: (nat, Blk), u: (nat, nat), boot: nat)
    requires x.0 < 5 && BlkOk(x.0, x.1, boot) && !InBoot(boot, x.1.hdr) && u.1 == x.0
    requires u.0 + Size(u.1) <= Base(x.1) + x.1.colCnt * Size(x.0)
    ensures Clear(u.0, Size(u.1), x.1.hdr, HdrBytes(x))
  {
    hide Size, StructSize, Base;
    EmbeddedFits(x.0);
  }

  lemma HdrLive(all: set<(nat, Blk)>, used: set<(nat, nat)>, boot: nat, x: (nat, Blk))
    requires Inv(all, used, boot) && x in all && ObjHdr(x.0, x.1, boot)
    ensures HdrOf(x) in Live(all) && HdrOf(x) in Hdrs(all, boot)
  {
    hide Live;
    assert HdrOf(x) in Hdrs(all, boot);
  }

  // ----- changes -----

  /** One block is replaced by itself with one more slot in use. */
  lemma GrowBlk(all: set<(nat, Blk)>, used: set<(nat, nat)>, boot: nat, x: (nat, Blk), j: nat)
    requires Inv(all, used, boot) && x in all && j < x.1.colCnt && j < |x.1.bits| && !x.1.bits[j]
    ensures x.1.freeCnt > 0
    ensures var (u, all') := ((Slot(x.1, x.0, j), x.0), all - {x} + {(x.0, Use(x.1, j))});
            && Inv(all', used, boot) && u !in Live(all) && Live(all') == Live(all) + {u}
            && Hdrs(all', boot) == Hdrs(all, boot) && u !in Held(all, boot) && Held(all', boot) == Held(all, boot) + {u}
  {
    hide Size, Slot, StructSize, Cols, EmbeddedCols, LiveOf, Zeros, Words;
    assert BlkOk(x.0, x.1, boot);
    UseOk(x.0, x.1, boot, j);
    var x', u := (x.0, Use(x.1, j)), (Slot(x.1, x.0, j), x.0);
    SwapLive(all, x, x', {u}, {});
    SwapHdrs(all, boot, x, x');
    if u in Live(all) {
      var y, k := LiveHome(all, boot, used, u);
      SameSlot(all, used, boot, x, j, y, k);
    }
    SwapInv(all, used, boot, x, x');
  }

  lemma ShrinkBlk(all: set<(nat, Blk)>, used: set<(nat, nat)>, boot: nat, x: (nat, Blk), j: nat)
    requires Inv(all, used, boot) && x in all && j < x.1.colCnt && j < |x.1.bits| && x.1.bits[j]
    requires (Slot(x.1, x.0, j), x.0) !in Hdrs(all, boot)
    ensures x.1.usingCnt > 0
    ensures var (u, all') := ((Slot(x.1, x.0, j), x.0), all - {x} + {(x.0, Unuse(x.1, j))});
            && Inv(all', used, boot) && Live(all') == Live(all) - {u} && Hdrs(all', boot) == Hdrs(all, boot)
            && Held(all', boot) == Held(all, boot) - {u}
  {
    hide Size, Slot, StructSize, Cols, EmbeddedCols, LiveOf, Zeros, Words;
    assert BlkOk(x.0, x.1, boot);
    UnuseOk(x.0, x.1, boot, j);
    var x', u := (x.0, Unuse(x.1, j)), (Slot(x.1, x.0, j), x.0);
    NotTwice(all, used, boot, x, j);
    SwapLive(all, x, x', {}, {u});
    SwapHdrs(all, boot, x, x');
    SwapInv(all, used, boot, x, x');
  }

  /** What _kfree does to the block that an address lies in, whatever slot j holds.  Counters are 64-bit
      words. */
  function Cleared(b: Blk, j: nat): Blk
    requires j < |b.bits|
  {
    b.(bits := b.bits[j := false], usingCnt := if b.usingCnt == 0 then 0xffff_ffff_ffff_ffff else b.usingCnt - 1,
       freeCnt := b.freeCnt + 1)
  }

  /** That is right exactly if the slot is in use and holds no header. */
  lemma ClearedExact(all: set<(nat, Blk)>, used: set<(nat, nat)>, boot: nat, x: (nat, Blk), j: nat)
    requires Inv(all, used, boot) && x in all && j < x.1.colCnt && j < |x.1.bits|
    ensures Inv(all - {x} + {(x.0, Cleared(x.1, j))}, used, boot) <==>
            x.1.bits[j] && (Slot(x.1, x.0, j), x.0) !in Hdrs(all, boot)
  {
    hide Size, Slot, StructSize, Cols, EmbeddedCols, LiveOf, Zeros, Words, Live, Hdrs, BlkOk;
    var x', u := (x.0, Cleared(x.1, j)), (Slot(x.1, x.0, j), x.0);
    if !x.1.bits[j] {
      ClearTwice(all, used, boot, x, j);
    } else {
      UnuseOk(x.0, x.1, boot, j);
      assert Cleared(x.1, j) == Unuse(x.1, j);
      if u in Hdrs(all, boot) {
        NotTwice(all, used, boot, x, j);
        SwapLive(all, x, x', {}, {u});
        SwapHdrs(all, boot, x, x');
        assert u !in Live(all - {x} + {x'});
      } else {
        ShrinkBlk(all, used, boot, x, j);
      }
    }
  }

  lemma ClearTwice(all: set<(nat, Blk)>, used: set<(nat, nat)>, boot: nat, x: (nat, Blk), j: nat)
    requires Inv(all, used, boot) && x in all && j < |x.1.bits| && !x.1.bits[j]
    ensures !Inv(all - {x} + {(x.0, Cleared(x.1, j))}, used, boot)
  {
    hide Live, Hdrs, Zeros;
    var x' := (x.0, Cleared(x.1, j));
    assert x'.1.bits == x.1.bits && !BlkOk(x'.0, x'.1, boot);
    assert x' in all - {x} + {x'};
  }

  /** If a wrong clearing brings the count of a block to zero, so that _kfree may give the block back, there
      is still something in it: another object or header, or the header in that very slot. */
  lemma ReleasedInUse(all: set<(nat, Blk)>, used: set<(nat, nat)>, boot: nat, x: (nat, Blk), j: nat)
    requires Inv(all, used, boot) && x in all && j < x.1.colCnt && j < |x.1.bits| && Cleared(x.1, j).usingCnt == 0
    requires !x.1.bits[j] || (Slot(x.1, x.0, j), x.0) in Hdrs(all, boot)
    ensures exists u :: u in LiveOf(x.0, x.1) && (u != (Slot(x.1, x.0, j), x.0) || u in Hdrs(all, boot))
  {
    hide Slot, StructSize, Cols, EmbeddedCols, Zeros, Words, Live, Hdrs;
    var i := j;
    if !x.1.bits[j] {
      i := OneLeft(x.0, x.1, boot);
    }
    SlotIsLive(x.0, x.1, i);
    if i != j {
      if i < j { SlotsApart(x.1, x.0, i, j); } else { SlotsApart(x.1, x.0, j, i); }
      PowPositive(x.0 + MIN_SHIFT);
    }
  }

  lemma SlotIsLive(id: nat, b: Blk, i: nat)
    requires i < b.colCnt && i < |b.bits| && b.bits[i] && id < CLASSES
    ensures (Slot(b, id, i), id) in LiveOf(id, b)
  {
    hide Slot, Size;
  }

  lemma OneLeft(id: ClassId, b: Blk, boot: nat) returns (i: nat)
    requires BlkOk(id, b, boot) && b.usingCnt == 1
    ensures i < b.colCnt && i < |b.bits| && b.bits[i]
  {
    hide Zeros, Cols, StructSize, EmbeddedCols, Size;
    if forall k | 0 <= k < b.colCnt :: !b.bits[k] {
      ZerosFresh(b.colCnt, b.bits);
    }
    i :| i < b.colCnt && b.bits[i];
  }

  /** The same slot is in one block only. */
  lemma SameSlot(all: set<(nat, Blk)>, used: set<(nat, nat)>, boot: nat, x: (nat, Blk), j: nat, y: (nat, Blk), k: nat)
    requires Inv(all, used, boot) && x in all && y in all && j < x.1.colCnt && k < y.1.colCnt
    requires Slot(x.1, x.0, j) == Slot(y.1, y.0, k) && x.0 == y.0
    ensures x == y && j == k
  {
    hide Size, LiveOf, Slot;
    assert BlkOk(x.0, x.1, boot) && BlkOk(y.0, y.1, boot);
    SlotRange(x.1, x.0, j);
    SlotRange(y.1, y.0, k);
    PowPositive(x.0 + MIN_SHIFT);
    ColsFill(x.0);
    if x != y {
      BlksClear(x.1, y.1, used);
    } else {
      SlotIndex(x.1, x.0, j);
      SlotIndex(x.1, x.0, k);
    }
  }

  lemma {:induction false} PowPositive(n: nat)
    ensures Pow2(n) > 0
  {
  }

  lemma NotTwice(all: set<(nat, Blk)>, used: set<(nat, nat)>, boot: nat, x: (nat, Blk), j: nat)
    requires Inv(all, used, boot) && x in all && j < x.1.colCnt && j < |x.1.bits| && x.1.bits[j]
    ensures forall y | y in all && y != x :: (Slot(x.1, x.0, j), x.0) !in LiveOf(y.0, y.1)
  {
    hide Slot, LiveOf;
    forall y | y in all && y != x ensures (Slot(x.1, x.0, j), x.0) !in LiveOf(y.0, y.1) {
      if (Slot(x.1, x.0, j), x.0) in LiveOf(y.0, y.1) {
        var k := LiveIn(y.0, y.1, (Slot(x.1, x.0, j), x.0));
        SameSlot(all, used, boot, x, j, y, k);
      }
    }
  }

  lemma SwapLive(all: set<(nat, Blk)>, x: (nat, Blk), x': (nat, Blk), more: set<(nat, nat)>, less: set<(nat, nat)>)
    requires Classes(all) && x in all && x'.0 == x.0
    requires LiveOf(x.0, x'.1) == LiveOf(x.0, x.1) + more - less && more !! less
    requires forall y, u | y in all && y != x && u in less :: u !in LiveOf(y.0, y.1)
    ensures Classes(all - {x} + {x'}) && Live(all - {x} + {x'}) == Live(all) + more - less
  {
    hide LiveOf;
    var all' := all - {x} + {x'};
    forall u | u in Live(all') ensures u in Live(all) + more - less {
      var y :| y in all' && u in LiveOf(y.0, y.1);
      if y == x' && u !in more { assert u in LiveOf(x.0, x.1); }
    }
    forall u | u in Live(all) + more - less ensures u in Live(all') {
      if u in more {
        assert u in LiveOf(x'.0, x'.1) && x' in all';
      } else {
        var y :| y in all && u in LiveOf(y.0, y.1);
        if y == x { assert u in LiveOf(x'.0, x'.1) && x' in all'; } else { assert y in all'; }
      }
    }
  }

  lemma SwapHdrs(all: set<(nat, Blk)>, boot: nat, x: (nat, Blk), x': (nat, Blk))
    requires Classes(all) && x in all && x'.0 == x.0 && x'.1.hdr == x.1.hdr
    ensures Classes(all - {x} + {x'}) && Hdrs(all - {x} + {x'}, boot) == Hdrs(all, boot)
  {
    var all' := all - {x} + {x'};
    forall h | h in Hdrs(all, boot) ensures h in Hdrs(all', boot) {
      var y :| y in all && ObjHdr(y.0, y.1, boot) && h == HdrOf(y);
      if y == x { assert x' in all' && ObjHdr(x'.0, x'.1, boot) && h == HdrOf(x'); } else { assert y in all'; }
    }
    forall h | h in Hdrs(all', boot) ensures h in Hdrs(all, boot) {
      var y :| y in all' && ObjHdr(y.0, y.1, boot) && h == HdrOf(y);
      if y == x' { assert ObjHdr(x.0, x.1, boot) && h == HdrOf(x); }
    }
  }

  lemma SwapInv(all: set<(nat, Blk)>, used: set<(nat, nat)>, boot: nat, x: (nat, Blk), x': (nat, Blk))
    requires Inv(all, used, boot) && x in all && x'.0 == x.0
    requires x'.1.hdr == x.1.hdr && x'.1.page == x.1.page && BlkOk(x'.0, x'.1, boot)
    requires var all' := all - {x} + {x'}; Classes(all') && Hdrs(all', boot) <= Live(all')
    ensures Inv(all - {x} + {x'}, used, boot)
  {
    hide BlkOk, Live, Hdrs, Apart;
  }

  /** A fresh block joins, its header in a slot of its own or outside the slots. */
  lemma AddBlk(all: set<(nat, Blk)>, used: set<(nat, nat)>, boot: nat, x: (nat, Blk))
    requires Inv(all, used, boot) && x.0 < CLASSES && BlkOk(x.0, x.1, boot) && LiveOf(x.0, x.1) == {}
    requires (x.1.page, BLK_ORD) in used && forall y | y in all :: y.1.page != x.1.page
    requires ObjHdr(x.0, x.1, boot) ==> HdrOf(x) in Held(all, boot)
    ensures var all' := all + {x};
            && Inv(all', used, boot) && Live(all') == Live(all)
            && Hdrs(all', boot) == Hdrs(all, boot) + (if ObjHdr(x.0, x.1, boot) then {HdrOf(x)} else {})
  {
    hide BlkOk, LiveOf, Apart;
    var all' := all + {x};
    forall u | u in Live(all) ensures u in Live(all') {
      var y :| y in all && u in LiveOf(y.0, y.1);
      assert y in all';
    }
    assert Live(all') == Live(all);
    AddHdrs(all, boot, x);
    if ObjHdr(x.0, x.1, boot) {
      forall y | y in all && ObjHdr(y.0, y.1, boot) ensures y.1.hdr != x.1.hdr {
        HdrElsewhere(all, used, boot, x, y);
      }
    }
  }

  lemma AddHdrs(all: set<(nat, Blk)>, boot: nat, x: (nat, Blk))
    requires Classes(all) && x.0 < CLASSES
    ensures Classes(all + {x})
    ensures Hdrs(all + {x}, boot) == Hdrs(all, boot) + (if ObjHdr(x.0, x.1, boot) then {HdrOf(x)} else {})
  {
    hide HdrOf;
    var all' := all + {x};
    forall h | h in Hdrs(all, boot) ensures h in Hdrs(all', boot) {
      var y :| y in all && ObjHdr(y.0, y.1, boot) && h == HdrOf(y);
      assert y in all';
    }
    if ObjHdr(x.0, x.1, boot) { assert x in all' && HdrOf(x) in Hdrs(all', boot); }
  }

  /** Two blocks whose headers are different slots have different headers. */
  lemma HdrElsewhere(all: set<(nat, Blk)>, used: set<(nat, nat)>, boot: nat, x: (nat, Blk), y: (nat, Blk))
    requires Inv(all, used, boot) && y in all && ObjHdr(y.0, y.1, boot)
    requires 5 <= x.0 < CLASSES && HdrOf(x) in Held(all, boot)
    ensures x.1.hdr != y.1.hdr
  {
    hide Live, Size;
    HdrLive(all, used, boot, y);
    assert HdrOf(y) in Live(all) && HdrOf(x) in Live(all) && HdrOf(x) != HdrOf(y);
    LiveClear(all, used, boot, HdrOf(x), HdrOf(y));
    ColsFill(HdrOf(x).1);
    ColsFill(HdrOf(y).1);
  }

  /** An empty block leaves; its header, if it was a slab object, is then held like a client's. */
  lemma DropBlk(all: set<(nat, Blk)>, used: set<(nat, nat)>, boot: nat, x: (nat, Blk))
    requires Inv(all, used, boot) && x in all && LiveOf(x.0, x.1) == {}
    ensures var all' := all - {x};
            && Inv(all', used - {(x.1.page, BLK_ORD)}, boot) && Live(all') == Live(all)
            && Hdrs(all', boot) == Hdrs(all, boot) - (if ObjHdr(x.0, x.1, boot) then {HdrOf(x)} else {})
    ensures ObjHdr(x.0, x.1, boot) ==> HdrOf(x) in Hdrs(all, boot)
  {
    hide BlkOk, LiveOf, Apart, HdrOf;
    var all' := all - {x};
    forall u | u in Live(all) ensures u in Live(all') {
      var y :| y in all && u in LiveOf(y.0, y.1);
      assert y in all';
    }
    DropHdrs(all, used, boot, x);
    assert (boot, BOOT_ORD) != (x.1.page, BLK_ORD);
  }

  lemma DropHdrs(all: set<(nat, Blk)>, used: set<(nat, nat)>, boot: nat, x: (nat, Blk))
    requires Inv(all, used, boot) && x in all
    ensures Classes(all - {x})
    ensures Hdrs(all - {x}, boot) == Hdrs(all, boot) - (if ObjHdr(x.0, x.1, boot) then {HdrOf(x)} else {})
    ensures ObjHdr(x.0, x.1, boot) ==> HdrOf(x) in Hdrs(all, boot)
  {
    hide BlkOk, LiveOf, Apart, Live, StructSize, ClassFrom;
    var all' := all - {x};
    forall h | h in Hdrs(all, boot) && (ObjHdr(x.0, x.1, boot) ==> h != HdrOf(x)) ensures h in Hdrs(all', boot) {
      var y :| y in all && ObjHdr(y.0, y.1, boot) && h == HdrOf(y);
      assert y in all';
    }
    forall h | h in Hdrs(all', boot) ensures h in Hdrs(all, boot) && (ObjHdr(x.0, x.1, boot) ==> h != HdrOf(x)) {
      var y :| y in all' && ObjHdr(y.0, y.1, boot) && h == HdrOf(y);
      assert y in all;
    }
  }

  /** More or other allocated page groups do not matter, as long as the blocks' own stay. */
  lemma OtherPages(all: set<(nat, Blk)>, used: set<(nat, nat)>, used': set<(nat, nat)>, boot: nat)
    requires Inv(all, used, boot) && (boot, BOOT_ORD) in used' && forall x | x in all :: (x.1.page, BLK_ORD) in used'
    requires forall u, v | u in used' && v in used' && u != v :: Apart(u, v)
    ensures Inv(all, used', boot)
  {
    hide BlkOk, Live, Hdrs, Apart;
  }

  // ----- the lists -----

  function SumFree(bs: seq<Blk>): nat { if bs == [] then 0 else bs[0].freeCnt + SumFree(bs[1..]) }

  function SumUsing(bs: seq<Blk>): nat { if bs == [] then 0 else bs[0].usingCnt + SumUsing(bs[1..]) }

  /** A class's counters are the sums over its blocks. */
  ghost predicate SlabOk(s: Slab) {
    && s.freeCnt == SumFree(s.blks) && s.usingCnt == SumUsing(s.blks)
    && forall i, j | 0 <= i < j < |s.blks| :: s.blks[i].page != s.blks[j].page
  }

  /** Block i leaves its place. */
  function Without(bs: seq<Blk>, i: nat): (r: seq<Blk>)
    requires i < |bs|
    ensures |r| == |bs| - 1
  {
    bs[..i] + bs[i + 1..]
  }

  lemma {:induction false} SumWithout(bs: seq<Blk>, i: nat)
    requires i < |bs|
    ensures SumFree(Without(bs, i)) + bs[i].freeCnt == SumFree(bs)
    ensures SumUsing(Without(bs, i)) + bs[i].usingCnt == SumUsing(bs)
  {
    if i == 0 {
      assert Without(bs, 0) == bs[1..];
    } else {
      SumWithout(bs[1..], i - 1);
      assert Without(bs, i) == [bs[0]] + Without(bs[1..], i - 1);
    }
  }

  lemma WithoutIn(bs: seq<Blk>, i: nat)
    requires i < |bs| && forall a, b | 0 <= a < b < |bs| :: bs[a].page != bs[b].page
    ensures forall b :: b in Without(bs, i) <==> b in bs && b != bs[i]
    ensures forall b | b in Without(bs, i) :: b.page != bs[i].page
    ensures forall a, b | 0 <= a < b < |Without(bs, i)| :: Without(bs, i)[a].page != Without(bs, i)[b].page
  {
    forall b | b in bs && b != bs[i] ensures b in Without(bs, i) {
      var k :| 0 <= k < |bs| && bs[k] == b;
      assert b == Without(bs, i)[if k < i then k else k - 1];
    }
    forall b | b in Without(bs, i) ensures b in bs && b.page != bs[i].page {
      var k :| 0 <= k < |Without(bs, i)| && Without(bs, i)[k] == b;
      assert b == bs[if k < i then k else k + 1];
    }
  }

  /** Class id's list becomes bs. */
  lemma AllSet(slabs: seq<Slab>, id: nat, s: Slab)
    requires id < |slabs|
    ensures forall x :: x in All(slabs[id := s]) <==> if x.0 == id then x.1 in s.blks else x in All(slabs)
  {
    var slabs' := slabs[id := s];
    forall x ensures x in All(slabs') <==> if x.0 == id then x.1 in s.blks else x in All(slabs) {
      assert x in All(slabs') <==> x.0 < |slabs'| && x.1 in slabs'[x.0].blks;
      assert x in All(slabs) <==> x.0 < |slabs| && x.1 in slabs[x.0].blks;
    }
  }

  lemma {:induction false} SumAtLeast(bs: seq<Blk>, i: nat)
    requires i < |bs|
    ensures SumFree(bs) >= bs[i].freeCnt && SumUsing(bs) >= bs[i].usingCnt
  {
    if i > 0 { SumAtLeast(bs[1..], i - 1); }
  }

  /** A block with free slots exists when the class counts some. */
  lemma SomeFree(bs: seq<Blk>) returns (i: nat)
    requires SumFree(bs) > 0
    ensures i < |bs| && bs[i].freeCnt > 0
  {
    if bs[0].freeCnt > 0 { i := 0; } else { i := SomeFree(bs[1..]); i := i + 1; }
  }

  // ----- page groups -----

  ghost function Groups(all: set<(nat, Blk)>): set<nat> { set x | x in all :: x.1.page }

  /** New blocks use page groups that were not allocated before. */
  ghost predicate FreshGroups(all: set<(nat, Blk)>, used: set<(nat, nat)>, all': set<(nat, Blk)>,
                              used': set<(nat, nat)>) {
    used <= used' && forall p | p in Groups(all') && (p, BLK_ORD) in used :: p in Groups(all)
  }

  /** A block just set up. */
  function NewBlk(hdr: nat, page: nat, cols: nat): Blk { Blk(hdr, page, cols, FreshBits(cols), 0, cols) }

  lemma NewBlkOk(id: ClassId, hdr: nat, page: nat, cols: nat, boot: nat)
    requires 0 < cols && cols * Size(id) <= BLK_SIZE
    requires if InBoot(boot, hdr) then cols == Cols(id) && InBoot(boot, hdr + StructSize(id) - 1)
             else if id < 5 then StructSize(id) <= BLK_SIZE && cols == EmbeddedCols(id) &&
                 hdr == PAGE * page + BLK_SIZE - StructSize(id)
             else cols == Cols(id)
    ensures BlkOk(id, NewBlk(hdr, page, cols), boot) && LiveOf(id, NewBlk(hdr, page, cols)) == {}
  {
    ZerosFresh(cols, FreshBits(cols));
    WordsUp(cols);
    EmptyLive(id, NewBlk(hdr, page, cols), boot);
  }

  lemma WordsUp(cols: nat)
    ensures cols <= 64 * Words(cols)
  {
  }

  /** A slot in use does not lie in the boot area. */
  lemma LiveNotBoot(all: set<(nat, Blk)>, used: set<(nat, nat)>, boot: nat, u: (nat, nat))
    requires Inv(all, used, boot) && u in Live(all)
    ensures !InBoot(boot, u.0)
  {
    hide Slot, LiveOf, Live;
    var x, j := LiveHome(all, boot, used, u);
    BootClear(x.1, boot, used);
    ColsFill(x.0);
  }

  lemma GroupNotBoot(page: nat, used: set<(nat, nat)>, boot: nat)
    requires (page, BLK_ORD) in used && (boot, BOOT_ORD) in used
    requires forall u, v | u in used && v in used && u != v :: Apart(u, v)
    ensures forall a: nat | PAGE * page <= a < PAGE * page + BLK_SIZE :: !InBoot(boot, a)
  {
    BootClear(NewBlk(0, page, 0), boot, used);
  }

  /** No block covers a boot-time header. */
  lemma BootUncovered(all: set<(nat, Blk)>, used: set<(nat, nat)>, boot: nat, a: nat, x: (nat, Blk))
    requires Inv(all, used, boot) && InBoot(boot, a) && x in all
    ensures !(Base(x.1) <= a < Base(x.1) + x.1.colCnt * Size(x.0))
  {
    assert BlkOk(x.0, x.1, boot);
    BootClear(x.1, boot, used);
  }

  // ----- boot -----

  /** Bytes of the boot-time headers of the classes below k. */
  function BootBytes(k: nat): nat
    requires k <= 16
  {
    if k == 0 then 0 else BootBytes(k - 1) + StructSize(k - 1)
  }

  lemma StructWords(k: nat)
    requires k < 16
    ensures StructSize(k) == HDR_SIZE + 8 * Words(Cols(k)) && BootBytes(k + 1) == BootBytes(k) + StructSize(k)
  {
  }

  lemma {:induction false} BootMonotone(j: nat, k: nat)
    requires j <= k <= 16
    ensures BootBytes(j) <= BootBytes(k)
    decreases k - j
  {
    if j < k { BootMonotone(j, k - 1); }
  }

  /** 1024 words down to a single one: 16 headers and 2052 words. */
  lemma BootTotal()
    ensures BootBytes(16) == 17440
  {
    SizeTable();
    assert Cols(6) == 1024 && Cols(7) == 512 && Cols(8) == 256 && Cols(9) == 128 && Cols(10) == 64 by {
      assert Pow2(10) == 1024 && Pow2(9) == 512 && Pow2(8) == 256 && Pow2(7) == 128 && Pow2(6) == 64;
    }
    assert Cols(11) == 32 && Cols(12) == 16 && Cols(13) == 8 && Cols(14) == 4 && Cols(15) == 2 by {
      assert Pow2(5) == 32 && Pow2(4) == 16 && Pow2(3) == 8 && Pow2(2) == 4 && Pow2(1) == 2;
    }
    hide Cols;
    assert BootBytes(5) == 5 * 64 + 8 * (1024 + 512 + 256 + 128 + 64);
    assert BootBytes(10) == BootBytes(5) + 5 * 64 + 8 * (32 + 16 + 8 + 4 + 2);
  }

  lemma BootFits(k: nat, boot: nat)
    requires k < 16
    ensures InBoot(boot, PAGE * boot + BootBytes(k)) && InBoot(boot, PAGE * boot + BootBytes(k) + StructSize(k) - 1)
    ensures BootBytes(k + 1) == BootBytes(k) + StructSize(k) && StructSize(k) > 0
  {
    hide StructSize;
    StructWords(k);
    BootMonotone(k + 1, 16);
    BootTotal();
    BlkPages();
  }
}

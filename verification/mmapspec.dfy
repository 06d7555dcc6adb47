/** What kernel/mm/mgr.c does to the list of mapped blocks, the blocks standing in the order of
    their ends.  Addresses and sizes are 64-bit words, and additions wrap. */
module MmapSpec {

  const U64: nat := 0x1_0000_0000_0000_0000
  const PAGE: nat := 0x1000
  const LARGE_PAGE: nat := 0x20_0000
  const USR_END: nat := 0x8000_0000_0000 // mm_usrAddrEd

  type Word = x: nat | x < 0x1_0000_0000_0000_0000

  /** The fields of mm_MapBlkInfo that the manager itself sets. */
  datatype Blk = Blk(st: Word, ed: Word, large: bool, pAddr: Word)

  function Add64(a: Word, b: Word): Word { if a + b < U64 then a + b else a + b - U64 }

  function Unit(large: bool): Word { if large then LARGE_PAGE else PAGE }

  /** upAlign on 64-bit words. */
  function Align(a: Word, large: bool): (r: Word)
    ensures r % PAGE == 0 && r % Unit(large) == 0
    ensures a + Unit(large) <= U64 ==> a <= r < a + Unit(large)
  {
    var x := Add64(a, Unit(large) - 1);
    Rounded(x, large);
    x / Unit(large) * Unit(large)
  }

  lemma Rounded(x: nat, large: bool)
    ensures var r := x / Unit(large) * Unit(large); r % PAGE == 0 && r % Unit(large) == 0 && x - Unit(large) < r <= x
  {
    if large {
      LargeMultiple(x / LARGE_PAGE * LARGE_PAGE);
    }
  }

  /** Mapped blocks are not empty, lie in user space and do not overlap. */
  ghost predicate Proper(b: seq<Blk>) {
    && (forall i | 0 <= i < |b| :: b[i].st < b[i].ed <= USR_END)
    && (forall i, j | 0 <= i < j < |b| :: b[i].ed <= b[j].st)
  }

  /** Blocks start and end at pages. */
  ghost predicate Paged(b: seq<Blk>) {
    forall i | 0 <= i < |b| :: b[i].st % PAGE == 0 && b[i].ed % PAGE == 0
  }

  /** What the manager keeps. */
  ghost predicate Neat(b: seq<Blk>) { Proper(b) && Paged(b) }

  ghost predicate ByEnd(b: seq<Blk>) {
    forall i, j | 0 <= i < j < |b| :: b[i].ed <= b[j].ed
  }

  lemma ProperByEnd(b: seq<Blk>)
    requires Proper(b)
    ensures ByEnd(b)
  {
    assert forall i, j | 0 <= i < j < |b| :: b[i].ed <= b[j].st < b[j].ed;
  }

  /** The first block that ends above addr; |b| if there is none. */
  ghost function FindIdx(b: seq<Blk>, addr: nat): (i: nat)
    ensures i <= |b|
    ensures forall k | 0 <= k < i :: b[k].ed <= addr
    ensures i < |b| ==> b[i].ed > addr
  {
    if b == [] || b[0].ed > addr then 0 else 1 + FindIdx(b[1..], addr)
  }

  lemma {:induction false} FindIdxIs(b: seq<Blk>, addr: nat, i: nat)
    requires ByEnd(b) && i <= |b|
    requires forall k | 0 <= k < i :: b[k].ed <= addr
    requires i < |b| ==> b[i].ed > addr
    ensures FindIdx(b, addr) == i
  {
  }

  /** The loop of mm_mmap from the block at i on: the address it stops at. */
  ghost function Search(b: seq<Blk>, i: nat, st: Word, size: Word): Word
    requires i <= |b| && ByEnd(b)
    decreases |b| - i
  {
    var st1 := if Add64(st, size) > USR_END then USR_END else st;
    if i == |b| || b[i].st >= Add64(st1, size) then st1
    else Search(b, FindIdx(b, b[i].ed), b[i].ed, size)
  }

  /** Where mm_mmap puts an (aligned) request; USR_END when it gives up. */
  ghost function Place(b: seq<Blk>, st: Word, size: Word): Word
    requires ByEnd(b)
  {
    Search(b, FindIdx(b, st), st, size)
  }

  lemma SearchStop(b: seq<Blk>, i: nat, st: Word, size: Word)
    requires ByEnd(b) && i <= |b|
    requires i == |b| || b[i].st >= Add64(if Add64(st, size) > USR_END then USR_END else st, size)
    ensures Search(b, i, st, size) == if Add64(st, size) > USR_END then USR_END else st
  {
  }

  /** One round of the loop that does not stop. */
  lemma SearchStep(b: seq<Blk>, i: nat, st: Word, size: Word)
    requires ByEnd(b) && i < |b| && b[i].st < Add64(if Add64(st, size) > USR_END then USR_END else st, size)
    ensures i < FindIdx(b, b[i].ed)
    ensures Search(b, i, st, size) == Search(b, FindIdx(b, b[i].ed), b[i].ed, size)
  {
  }

  ghost function Insert(b: seq<Blk>, n: Blk): seq<Blk> {
    b[..FindIdx(b, n.ed)] + [n] + b[FindIdx(b, n.ed)..]
  }

  /** The list after mm_mmap: the new block goes before the first one that ends after it. */
  ghost function Mapped(b: seq<Blk>, st: Word, size: Word, large: bool, pAddr: Word): seq<Blk>
    requires ByEnd(b)
  {
    var r := Place(b, st, size);
    if r == USR_END then b else Insert(b, Blk(r, Add64(r, size), large, pAddr))
  }

  /** What a call adds to the blocks, or takes away. */
  lemma MappedBag(b: seq<Blk>, st: Word, size: Word, large: bool, pAddr: Word)
    requires ByEnd(b)
    ensures var r := Place(b, st, size);
            multiset(Mapped(b, st, size, large, pAddr)) ==
            multiset(b) + if r == USR_END then multiset{} else multiset{Blk(r, Add64(r, size), large, pAddr)}
  {
    hide Place;
    var r := Place(b, st, size);
    var i := FindIdx(b, Add64(r, size));
    assert b == b[..i] + b[i..];
  }

  lemma RemovedBag(b: seq<Blk>, i: nat)
    requires i < |b|
    ensures multiset(Removed(b, i)) == multiset(b) - multiset{b[i]}
  {
    assert b == b[..i] + [b[i]] + b[i + 1..];
  }

  /** The range [a, a + size) lies in user space and meets no block. */
  ghost predicate Fits(b: seq<Blk>, a: nat, size: nat) {
    a + size <= USR_END && forall i | 0 <= i < |b| :: b[i].ed <= a || a + size <= b[i].st
  }

  /** What a caller must see to for every request to be served properly: below the user limit the
      size is not zero and small enough not to wrap; above it the end of the range must not wrap
      around into user space. */
  predicate Guarded(st: Word, size: Word) {
    && (st < USR_END ==> 1 <= size < U64 - (USR_END - PAGE))
    && (st > USR_END ==> st + size < U64 || st + size - U64 > USR_END)
  }

  /** The search has passed the blocks before i, and st and the size do not wrap. */
  ghost predicate Passed(b: seq<Blk>, i: nat, st: Word, size: Word) {
    && Proper(b) && ByEnd(b) && i <= |b|
    && (forall k | 0 <= k < |b| :: b[k].ed + PAGE <= USR_END || b[k].ed == USR_END)
    && (forall k | 0 <= k < i :: b[k].ed <= st) && (i < |b| ==> st < b[i].ed)
    && (st + PAGE <= USR_END || st == USR_END) && 1 <= size < U64 - (USR_END - PAGE)
  }

  /** The loop stops at block i: at st if the size fits there, and otherwise it fits nowhere above. */
  lemma StopLowest(b: seq<Blk>, i: nat, st: Word, size: Word)
    requires Passed(b, i, st, size)
    requires i == |b| || b[i].st >= Add64(if Add64(st, size) > USR_END then USR_END else st, size)
    ensures if Add64(st, size) > USR_END || st == USR_END then forall a | st <= a :: !Fits(b, a, size)
              else Fits(b, st, size)
  {
    if st + size > USR_END {
      assert forall a | st <= a :: !Fits(b, a, size);
    } else {
      assert forall k | i <= k < |b| :: b[i].st <= b[k].st;
    }
  }

  /** It goes on past block i only if nothing fits before the end of that block. */
  lemma {:induction false} NoneBefore(b: seq<Blk>, i: nat, st: Word, size: Word)
    requires Passed(b, i, st, size) && i < |b|
    requires b[i].st < Add64(if Add64(st, size) > USR_END then USR_END else st, size)
    ensures Passed(b, i + 1, b[i].ed, size) && FindIdx(b, b[i].ed) == i + 1
    ensures forall a | st <= a < b[i].ed :: !Fits(b, a, size)
  {
    FindIdxIs(b, b[i].ed, i + 1);
  }

  /** From any block on, the loop stops at the lowest place where the size fits, or gives up
      when there is none. */
  lemma {:induction false} SearchLowest(b: seq<Blk>, i: nat, st: Word, size: Word)
    requires Passed(b, i, st, size)
    ensures var r := Search(b, i, st, size);
            && st <= r <= USR_END
            && (r < USR_END ==> Fits(b, r, size) && (r == st || exists k | 0 <= k < |b| :: r == b[k].ed))
            && forall a | st <= a && Fits(b, a, size) :: r <= a && r < USR_END
    decreases |b| - i
  {
    hide Fits;
    var st1 := if Add64(st, size) > USR_END then USR_END else st;
    if i == |b| || b[i].st >= Add64(st1, size) {
      StopLowest(b, i, st, size);
    } else {
      NoneBefore(b, i, st, size);
      SearchLowest(b, i + 1, b[i].ed, size);
    }
  }

  lemma PageBelow(a: nat)
    requires a % PAGE == 0
    ensures a < USR_END ==> a + PAGE <= USR_END
  {
  }

  /** A guarded request lands at the lowest address at or above the hint where it fits; it fails
      exactly when there is none. */
  lemma PlaceLowest(b: seq<Blk>, st: Word, size: Word)
    requires Proper(b) && ByEnd(b) && Paged(b) && Guarded(st, size) && st % PAGE == 0
    ensures var r := Place(b, st, size);
            if r == USR_END then forall a | st <= a && size > 0 :: !Fits(b, a, size)
            else st <= r && Fits(b, r, size) && r % PAGE == 0
                 && (r == st || exists k | 0 <= k < |b| :: r == b[k].ed)
                 && forall a | st <= a && Fits(b, a, size) :: r <= a
  {
    if st < USR_END {
      PageBelow(st);
      forall k | 0 <= k < |b| ensures b[k].ed + PAGE <= USR_END || b[k].ed == USR_END {
        PageBelow(b[k].ed);
      }
      SearchLowest(b, FindIdx(b, st), st, size);
    } else {
      assert forall k | 0 <= k < |b| :: b[k].ed <= st;
      FindIdxIs(b, st, |b|);
    }
  }

  lemma InUserSpace(b: seq<Blk>, st: Word, size: Word)
    requires Neat(b) && ByEnd(b) && Guarded(st, size) && st % PAGE == 0
    ensures var r := Place(b, st, size); r != USR_END ==> st <= r && r + size <= USR_END
  {
    hide Place, Guarded, Proper, Paged, ByEnd;
    PlaceLowest(b, st, size);
  }

  lemma JoinProper(x: seq<Blk>, n: Blk, y: seq<Blk>)
    requires Proper(x) && Proper(y) && n.st < n.ed <= USR_END
    requires forall k | 0 <= k < |x| :: x[k].ed <= n.st
    requires forall k | 0 <= k < |y| :: n.ed <= y[k].st
    ensures Proper(x + [n] + y)
  {
    assert forall i, j | 0 <= i < |x| && 0 <= j < |y| :: x[i].ed <= n.st < n.ed <= y[j].st;
  }

  lemma SliceProper(b: seq<Blk>, p: nat)
    requires Proper(b) && p <= |b|
    ensures Proper(b[..p]) && Proper(b[p..])
  {
  }

  lemma InsertProper(b: seq<Blk>, n: Blk)
    requires Proper(b) && n.st < n.ed && Fits(b, n.st, n.ed - n.st)
    ensures Proper(Insert(b, n))
  {
    hide FindIdx;
    var p := FindIdx(b, n.ed);
    var x, y := b[..p], b[p..];
    SliceProper(b, p);
    forall k | 0 <= k < |y| ensures n.ed <= y[k].st {
      assert b[p].ed > n.ed && n.ed <= b[p].st;
      assert y[k] == b[p + k];
    }
    JoinProper(x, n, y);
  }

  /** The request leaves every neat list of blocks neat. */
  ghost predicate Safe(st: Word, size: Word) {
    forall b: seq<Blk>, large: bool, pAddr: Word | Neat(b) && ByEnd(b) :: Neat(Mapped(b, st, size, large, pAddr))
  }

  /** A guarded request keeps the blocks non-empty, disjoint, in user space and on pages. */
  lemma MappedNeat(b: seq<Blk>, st: Word, size: Word, large: bool, pAddr: Word)
    requires Neat(b) && ByEnd(b) && Guarded(st, size) && st % PAGE == 0 && size % PAGE == 0
    ensures Neat(Mapped(b, st, size, large, pAddr))
  {
    hide Place, Add64, FindIdx, ByEnd, Insert;
    PlaceLowest(b, st, size);
    var r := Place(b, st, size);
    if r != USR_END {
      EndOf(r, size);
      InsertProper(b, Blk(r, Add64(r, size), large, pAddr));
      InsertPaged(b, Blk(r, Add64(r, size), large, pAddr));
    }
  }

  lemma InsertPaged(b: seq<Blk>, n: Blk)
    requires Paged(b) && n.st % PAGE == 0 && n.ed % PAGE == 0
    ensures Paged(Insert(b, n))
  {
  }

  lemma EndOf(r: Word, size: Word)
    requires r + size <= USR_END && r % PAGE == 0 && size % PAGE == 0
    ensures Add64(r, size) == r + size && (r + size) % PAGE == 0
  {
  }

  /** A list of blocks that a request outside the guard spoils. */
  function Victim(st: Word, size: Word): seq<Blk> {
    if st < USR_END && 1 <= size && st + size < U64 then [Blk(0, USR_END - PAGE, false, 0)] else []
  }

  lemma Spoils(st: Word, size: Word, large: bool, pAddr: Word)
    requires st % PAGE == 0 && size % PAGE == 0 && !Guarded(st, size)
    ensures Neat(Victim(st, size)) && ByEnd(Victim(st, size))
    ensures !Proper(Mapped(Victim(st, size), st, size, large, pAddr))
  {
    hide Mapped;
    if Victim(st, size) != [] {
      SpoilsFull(st, size, large, pAddr);
    } else {
      SpoilsEmpty(st, size, large, pAddr);
    }
  }

  lemma SpoilsEmpty(st: Word, size: Word, large: bool, pAddr: Word)
    requires !Guarded(st, size) && Victim(st, size) == []
    ensures !Proper(Mapped([], st, size, large, pAddr))
  {
    hide Proper;
    assert FindIdx([], st) == 0 && Place([], st, size) == st;
    var n := Blk(st, Add64(st, size), large, pAddr);
    assert Mapped([], st, size, large, pAddr) == [n];
    assert !(n.st < n.ed <= USR_END);
    NotProper(n);
  }

  lemma NotProper(n: Blk)
    requires !(n.st < n.ed <= USR_END)
    ensures !Proper([n])
  {
    assert [n][0] == n;
  }

  /** One block up to the last user page, and a size that wraps around from there. */
  lemma SpoilsFull(st: Word, size: Word, large: bool, pAddr: Word)
    requires st % PAGE == 0 && size % PAGE == 0 && st < USR_END && U64 - (USR_END - PAGE) <= size && st + size < U64
    ensures ByEnd(Victim(st, size)) && !Proper(Mapped(Victim(st, size), st, size, large, pAddr))
  {
    var b := Victim(st, size);
    PageBelow(st);
    assert st < USR_END - PAGE;
    FindIdxIs(b, st, 0);
    FindIdxIs(b, USR_END - PAGE, 1);
    assert Search(b, 1, USR_END - PAGE, size) == USR_END - PAGE;
    assert Place(b, st, size) == USR_END - PAGE;
    var n := Blk(USR_END - PAGE, Add64(USR_END - PAGE, size), large, pAddr);
    assert n.ed <= n.st;
    assert n in Mapped(b, st, size, large, pAddr);
  }

  /** The guard is exact: outside it some proper list of blocks ends up improper. */
  lemma GuardExact(st: Word, size: Word)
    requires st % PAGE == 0 && size % PAGE == 0
    ensures Safe(st, size) <==> Guarded(st, size)
  {
    if Guarded(st, size) {
      forall b: seq<Blk>, large: bool, pAddr: Word | Neat(b) && ByEnd(b)
        ensures Neat(Mapped(b, st, size, large, pAddr))
      {
        MappedNeat(b, st, size, large, pAddr);
      }
    } else {
      Spoils(st, size, false, 0);
    }
  }

  /** mm_munmap finds a mapped block if and only if that very block is mapped. */
  lemma {:induction false} UnmapExact(b: seq<Blk>, addr: Word, ed: Word)
    requires Proper(b)
    ensures var i := FindIdx(b, addr);
            (i < |b| && b[i].st == addr && b[i].ed == ed) <==>
                exists k | 0 <= k < |b| :: b[k].st == addr && b[k].ed == ed
  {
    forall k | 0 <= k < |b| && b[k].st == addr && b[k].ed == ed ensures FindIdx(b, addr) == k {
      ProperByEnd(b);
      FindIdxIs(b, addr, k);
    }
  }

  /** The list after mm_munmap has found the block at i. */
  ghost function Removed(b: seq<Blk>, i: nat): seq<Blk>
    requires i < |b|
  {
    b[..i] + b[i + 1..]
  }

  lemma RemovedNeat(b: seq<Blk>, i: nat)
    requires Neat(b) && i < |b|
    ensures Neat(Removed(b, i))
  {
  }

  lemma PutAndTake(b: seq<Blk>, n: Blk, i: nat)
    requires i <= |b|
    ensures var b' := b[..i] + [n] + b[i..]; b'[i] == n && b'[..i] == b[..i] && Removed(b', i) == b
  {
    var b' := b[..i] + [n] + b[i..];
    assert b'[..i] == b[..i] && b'[i + 1..] == b[i..];
  }

  lemma {:induction false} InsertThenFind(b: seq<Blk>, n: Blk)
    requires Proper(b) && n.st < n.ed && Fits(b, n.st, n.ed - n.st)
    ensures var (b', i) := (Insert(b, n), FindIdx(b, n.ed));
            i < |b'| && FindIdx(b', n.st) == i && b'[i] == n && Removed(b', i) == b
  {
    var b', i := Insert(b, n), FindIdx(b, n.ed);
    InsertProper(b, n);
    ProperByEnd(b');
    PutAndTake(b, n, i);
    assert forall k | 0 <= k < i :: b'[k] == b[k] && b[k].ed <= n.st;
    FindIdxIs(b', n.st, i);
  }

  /** Unmapping what has just been mapped finds that block and restores the list. */
  lemma MapThenUnmap(b: seq<Blk>, st: Word, size: Word, large: bool, pAddr: Word)
    requires Proper(b) && ByEnd(b) && Paged(b) && Guarded(st, size) && st % PAGE == 0
    requires Place(b, st, size) != USR_END
    ensures var b' := Mapped(b, st, size, large, pAddr);
            var i := FindIdx(b', Place(b, st, size));
            i < |b'| && b'[i].st == Place(b, st, size) && b'[i].ed == Add64(b'[i].st, size) && Removed(b', i) == b
  {
    PlaceLowest(b, st, size);
    var r := Place(b, st, size);
    InsertThenFind(b, Blk(r, Add64(r, size), large, pAddr));
  }

  /** A large request keeps the 2M alignment of the hint only if it lands there: the loop goes
      on from the raw end of a block.  Large requests always come out aligned exactly when every
      block that is followed by a gap of 2M or more ends at a 2M boundary. */
  ghost predicate LargeStaysAligned(b: seq<Blk>)
    requires ByEnd(b)
  {
    forall st: Word, size: Word | st % LARGE_PAGE == 0 && size % LARGE_PAGE == 0 && Guarded(st, size) ::
      Place(b, st, size) == USR_END || Place(b, st, size) % LARGE_PAGE == 0
  }

  ghost predicate LargeGapsAligned(b: seq<Blk>) {
    forall i | 0 <= i < |b| && Fits(b, b[i].ed, LARGE_PAGE) :: b[i].ed % LARGE_PAGE == 0
  }

  lemma LargeMultiple(x: nat)
    ensures x % LARGE_PAGE == 0 ==> x % PAGE == 0 && (x > 0 ==> x >= LARGE_PAGE)
  {
    if x % LARGE_PAGE == 0 {
      assert x == x / LARGE_PAGE * 512 * PAGE;
    }
  }

  lemma LargeLands(b: seq<Blk>, st: Word, size: Word)
    requires Proper(b) && ByEnd(b) && Paged(b) && LargeGapsAligned(b)
    requires st % LARGE_PAGE == 0 && size % LARGE_PAGE == 0 && Guarded(st, size)
    ensures Place(b, st, size) == USR_END || Place(b, st, size) % LARGE_PAGE == 0
  {
    LargeMultiple(st);
    LargeMultiple(size);
    PlaceLowest(b, st, size);
    var r := Place(b, st, size);
    if r != USR_END && r != st {
      assert Fits(b, r, LARGE_PAGE);
    }
  }

  lemma LargeMisses(b: seq<Blk>, i: nat)
    requires Proper(b) && ByEnd(b) && Paged(b)
    requires i < |b| && Fits(b, b[i].ed, LARGE_PAGE) && b[i].ed % LARGE_PAGE != 0
    ensures !LargeStaysAligned(b)
  {
    var st: Word := b[i].ed / LARGE_PAGE * LARGE_PAGE;
    assert st < b[i].ed < st + LARGE_PAGE && st % LARGE_PAGE == 0;
    LargeMultiple(st);
    PlaceLowest(b, st, LARGE_PAGE);
    assert forall a | st <= a < b[i].ed :: !Fits(b, a, LARGE_PAGE);
    assert Place(b, st, LARGE_PAGE) == b[i].ed;
  }

  lemma LargeAligned(b: seq<Blk>)
    requires Proper(b) && ByEnd(b) && Paged(b)
    ensures LargeStaysAligned(b) <==> LargeGapsAligned(b)
  {
    if LargeGapsAligned(b) {
      forall st: Word, size: Word | st % LARGE_PAGE == 0 && size % LARGE_PAGE == 0 && Guarded(st, size)
        ensures Place(b, st, size) == USR_END || Place(b, st, size) % LARGE_PAGE == 0
      {
        LargeLands(b, st, size);
      }
    } else {
      var i :| 0 <= i < |b| && Fits(b, b[i].ed, LARGE_PAGE) && b[i].ed % LARGE_PAGE != 0;
      LargeMisses(b, i);
    }
  }

  // ----- runs -----

  /** A call of mm_mmap or mm_munmap. */
  datatype Call = Mmap(size: Word, large: bool, st: Word, pAddr: Word) | Munmap(addr: Word, size: Word)

  predicate CallGuarded(c: Call) { c.Mmap? ==> Guarded(Align(c.st, c.large), Align(c.size, c.large)) }

  ghost function Next(b: seq<Blk>, c: Call): seq<Blk>
    requires ByEnd(b)
  {
    match c
    case Mmap(size, large, st, pAddr) => Mapped(b, Align(st, large), Align(size, large), large, pAddr)
    case Munmap(addr, size) =>
      var i := FindIdx(b, addr);
      if i < |b| && b[i].st == addr && b[i].ed == Add64(addr, size) then Removed(b, i) else b
  }

  lemma JoinByEnd(x: seq<Blk>, n: Blk, y: seq<Blk>)
    requires ByEnd(x) && ByEnd(y)
    requires (forall k | 0 <= k < |x| :: x[k].ed <= n.ed) && forall k | 0 <= k < |y| :: n.ed <= y[k].ed
    ensures ByEnd(x + [n] + y)
  {
  }

  lemma InsertByEnd(b: seq<Blk>, n: Blk)
    requires ByEnd(b)
    ensures ByEnd(Insert(b, n))
  {
    hide FindIdx;
    var p := FindIdx(b, n.ed);
    assert forall k | p <= k < |b| :: b[p].ed <= b[k].ed;
    JoinByEnd(b[..p], n, b[p..]);
  }

  lemma NextByEnd(b: seq<Blk>, c: Call)
    requires ByEnd(b)
    ensures ByEnd(Next(b, c))
  {
    hide Place, Align, Add64, Insert;
    if c.Mmap? {
      var r := Place(b, Align(c.st, c.large), Align(c.size, c.large));
      InsertByEnd(b, Blk(r, Add64(r, Align(c.size, c.large)), c.large, c.pAddr));
    }
  }

  /** The list after some calls, guarded or not. */
  ghost function Outcome(calls: seq<Call>): (b: seq<Blk>)
    ensures ByEnd(b)
  {
    if calls == [] then []
    else
      var b := Outcome(calls[..|calls| - 1]);
      NextByEnd(b, calls[|calls| - 1]);
      Next(b, calls[|calls| - 1])
  }

  lemma NextNeat(b: seq<Blk>, c: Call)
    requires Neat(b) && ByEnd(b) && CallGuarded(c)
    ensures Neat(Next(b, c))
  {
    if c.Mmap? {
      MappedNeat(b, Align(c.st, c.large), Align(c.size, c.large), c.large, c.pAddr);
    } else if Next(b, c) != b {
      RemovedNeat(b, FindIdx(b, c.addr));
    }
  }

  /** After every run of guarded calls the blocks are non-empty, disjoint, below the user limit and on
      page boundaries. */
  lemma {:induction false} RunNeat(calls: seq<Call>)
    requires forall c | c in calls :: CallGuarded(c)
    ensures Neat(Outcome(calls))
  {
    if calls != [] {
      RunNeat(calls[..|calls| - 1]);
      NextNeat(Outcome(calls[..|calls| - 1]), calls[|calls| - 1]);
    }
  }

  /** After every such run a guarded request lands at the lowest address at or above the hint where it
      fits, and fails exactly when there is none. */
  lemma {:induction false} RunLowest(calls: seq<Call>, size: Word, large: bool, st: Word)
    requires (forall c | c in calls :: CallGuarded(c)) && Guarded(Align(st, large), Align(size, large))
    ensures var (b, lo, n) := (Outcome(calls), Align(st, large), Align(size, large));
            var r := Place(b, lo, n);
            if r == USR_END then forall a | lo <= a && n > 0 :: !Fits(b, a, n)
            else lo <= r && Fits(b, r, n) && r % PAGE == 0 && forall a | lo <= a && Fits(b, a, n) :: r <= a
  {
    hide Guarded, Align, Place, Fits;
    RunNeat(calls);
    PlaceLowest(Outcome(calls), Align(st, large), Align(size, large));
  }

  /** After every guarded run, a call may be made without harm if and only if it is guarded too. */
  lemma RunGuardExact(c: Call)
    ensures CallGuarded(c) <==>
              forall calls: seq<Call> | (forall d | d in calls :: CallGuarded(d)) :: Neat(Outcome(calls + [c]))
  {
    hide Align, Guarded, Neat, Outcome, Next;
    if CallGuarded(c) {
      forall calls: seq<Call> | forall d | d in calls :: CallGuarded(d) ensures Neat(Outcome(calls + [c])) {
        RunNeat(calls + [c]);
      }
    } else {
      CallSpoils(c);
    }
  }

  lemma CallSpoils(c: Call)
    requires !CallGuarded(c)
    ensures exists calls: seq<Call> :: (forall d | d in calls :: CallGuarded(d)) && !Neat(Outcome(calls + [c]))
  {
    hide Align, Guarded, Mapped, Proper, Paged, Victim;
    var st, size := Align(c.st, c.large), Align(c.size, c.large);
    var calls := if Victim(st, size) == [] then [] else [Mmap(USR_END - PAGE, false, 0, 0)];
    VictimReached(st, size, calls);
    Spoils(st, size, c.large, c.pAddr);
    OutcomeMore(calls, c);
  }

  lemma {:induction false} OutcomeMore(calls: seq<Call>, c: Call)
    ensures Outcome(calls + [c]) == Next(Outcome(calls), c)
  {
    assert (calls + [c])[..|calls|] == calls;
  }

  lemma {:induction false} VictimReached(st: Word, size: Word, calls: seq<Call>)
    requires calls == if Victim(st, size) == [] then [] else [Mmap(USR_END - PAGE, false, 0, 0)]
    ensures Outcome(calls) == Victim(st, size) && forall d | d in calls :: CallGuarded(d)
  {
    if calls != [] {
      assert Align(0, false) == 0 && Align(USR_END - PAGE, false) == USR_END - PAGE;
      assert Place([], 0, USR_END - PAGE) == 0;
      assert calls[..0] == [] && Outcome(calls[..0]) == [];
    }
  }
}

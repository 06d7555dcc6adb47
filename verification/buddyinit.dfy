/** How mm_buddy_init cuts the available pages of a zone into naturally aligned free blocks. */
module BuddyInit {
  import opened Sequences
  import opened Powers
  import opened BuddySpec
  import opened BuddyForest

  /** The number of trailing zero bits: bit_ffs64(f) - 1. */
  function TrailingZeros(f: nat): nat
    requires f > 0
  {
    if f % 2 == 1 then 0 else 1 + TrailingZeros(f / 2)
  }

  /** The k lowest bits of f are clear. */
  ghost predicate Aligned(f: nat, k: nat) { Addr(Shift(f, k), k) == f }

  lemma {:induction false} AlignedZeros(f: nat, k: nat)
    requires f > 0
    ensures Aligned(f, k) <==> k <= TrailingZeros(f)
    decreases k
  {
    if k > 0 {
      var h := Shift(f / 2, k - 1);
      assert Addr(h, k) == 2 * Addr(h, k - 1) by {
        AddrKids(h, k);
        AddrDouble(h, k - 1);
      }
      if f % 2 == 0 {
        AlignedZeros(f / 2, k - 1);
      }
    }
  }

  lemma AddrDouble(m: nat, o: nat)
    ensures Addr(2 * m, o) == 2 * Addr(m, o)
  {
    assert 2 * m * Pow2(o) == 2 * (m * Pow2(o));
  }

  lemma ZeroAligned(k: nat)
    ensures Aligned(0, k)
    decreases k
  {
    if k > 0 { ZeroAligned(k - 1); }
  }

  /** A block of order k may start at page f of a zone that ends at page ed. */
  ghost predicate Fits(k: nat, f: nat, ed: nat) { Aligned(f, k) && f + Pow2(k) <= ed }

  /** The largest block that may start there. */
  ghost predicate Best(ord: nat, f: nat, ed: nat) {
    ord <= MAX_ORD && Fits(ord, f, ed) && forall k | ord < k <= MAX_ORD :: !Fits(k, f, ed)
  }

  method FindOrd(addr: nat, ed: nat) returns (ord: nat)
    requires addr < ed
    ensures Best(ord, addr, ed)
  {
    ord := if addr == 0 then MAX_ORD else if TrailingZeros(addr) < MAX_ORD then TrailingZeros(addr) else MAX_ORD;
    forall k | 0 <= k <= MAX_ORD ensures Aligned(addr, k) <==> k <= ord {
      if addr == 0 { ZeroAligned(k); } else { AlignedZeros(addr, k); }
    }
    while addr + Pow2(ord) > ed
      invariant ord <= MAX_ORD && Aligned(addr, ord)
      invariant forall k | ord < k <= MAX_ORD :: !Fits(k, addr, ed)
      invariant forall k | 0 <= k <= ord :: Aligned(addr, k)
    {
      ord := ord - 1;
    }
  }

  ghost predicate AllFree(ts: seq<Tree>) { forall i | 0 <= i < |ts| :: ts[i] == Free }

  ghost predicate AllClear(bits: seq<seq<bool>>) {
    forall o, m :: !Bit(bits, o, m)
  }

  lemma {:induction false} ClearAll(m: nat, o: nat, bits: seq<seq<bool>>)
    requires AllClear(bits)
    ensures Clear(m, o, bits)
    decreases o
  {
    if o > 0 {
      ClearAll(2 * m, o - 1, bits);
      ClearAll(2 * m + 1, o - 1, bits);
    }
  }

  /** The roots of order k in address order. */
  ghost function RootList(rs: seq<Root>, k: nat): seq<nat> {
    if rs == [] then []
    else RootList(rs[..|rs| - 1], k) + (if rs[|rs| - 1].o == k then [Addr(rs[|rs| - 1].m, rs[|rs| - 1].o)] else [])
  }

  /** Between calls of the loop body: everything set up so far lies below page `at`. */
  ghost predicate SetUp(rs: seq<Root>, ts: seq<Tree>, d: seq<Page>, bits: seq<seq<bool>>, lists: seq<seq<nat>>,
                        at: nat) {
    && Resting(rs, ts, d, bits, lists) && AllFree(ts) && AllClear(bits)
    && (forall r | r in rs :: Addr(r.m + 1, r.o) <= at)
    && forall k | 0 <= k <= MAX_ORD :: lists[k] == RootList(rs, k)
  }

  /** One more root. */
  lemma AddRoot(rs: seq<Root>, ts: seq<Tree>, d: seq<Page>, bits: seq<seq<bool>>, lists: seq<seq<nat>>, at: nat,
                r: Root)
    requires SetUp(rs, ts, d, bits, lists, at) && r.o <= MAX_ORD && at <= Addr(r.m, r.o) && Addr(r.m + 1, r.o) <= |d|
    ensures Addr(r.m, r.o) < |d| && |lists| == MAX_ORD + 1
    ensures SetUp(rs + [r], ts + [Free], d[Addr(r.m, r.o) := Page(1, r.o, FREE_ATTR)], bits,
                  lists[r.o := lists[r.o] + [Addr(r.m, r.o)]], Addr(r.m + 1, r.o))
  {
    hide Pow2, Addr, Bit, TreeOk, FreeOf, Layout, BigEnough, NoDup;
    AddrNext(r.m, r.o);
    LayoutAppend(rs, r, at, |d|);
    ForestAppend(rs, ts, d, bits, at, r);
    AddToLists(rs, ts, lists, at, r, |d|);
    assert (rs + [r])[..|rs|] == rs;
    assert forall x | x in rs + [r] :: Addr(x.m + 1, x.o) <= Addr(r.m + 1, r.o);
  }

  lemma LayoutAppend(rs: seq<Root>, r: Root, at: nat, n: nat)
    requires Layout(rs, n) && (forall r | r in rs :: Addr(r.m + 1, r.o) <= at)
    requires r.o <= MAX_ORD && at <= Addr(r.m, r.o) && Addr(r.m + 1, r.o) <= n
    ensures Layout(rs + [r], n)
  {
    hide Addr;
    assert forall i | 0 <= i < |rs| :: rs[i] in rs && (rs + [r])[i] == rs[i];
  }

  lemma ForestAppend(rs: seq<Root>, ts: seq<Tree>, d: seq<Page>, bits: seq<seq<bool>>, at: nat, r: Root)
    requires ForestOk(rs, ts, d, bits) && AllClear(bits) && (forall r | r in rs :: Addr(r.m + 1, r.o) <= at)
    requires r.o <= MAX_ORD && at <= Addr(r.m, r.o) < |d|
    ensures ForestOk(rs + [r], ts + [Free], d[Addr(r.m, r.o) := Page(1, r.o, FREE_ATTR)], bits)
  {
    hide Addr, Bit;
    var rs', ts', d' := rs + [r], ts + [Free], d[Addr(r.m, r.o) := Page(1, r.o, FREE_ATTR)];
    forall i | 0 <= i < |rs'| ensures TreeOk(ts'[i], rs'[i], d', bits) {
      if i < |rs| {
        assert rs[i] in rs;
        HeadsFrame(ts[i], rs[i].m, rs[i].o, 1, d, d');
      } else {
        ClearAll(r.m, r.o, bits);
      }
    }
  }

  lemma AddToLists(rs: seq<Root>, ts: seq<Tree>, lists: seq<seq<nat>>, at: nat, r: Root, n: nat)
    requires ListsOk(lists, rs, ts) && r.o <= MAX_ORD && at <= Addr(r.m, r.o)
    requires forall r | r in rs :: Addr(r.m + 1, r.o) <= at
    ensures ListsOk(lists[r.o := lists[r.o] + [Addr(r.m, r.o)]], rs + [r], ts + [Free])
  {
    hide Addr, Pow2;
    var a := Addr(r.m, r.o);
    var rs', ts', lists' := rs + [r], ts + [Free], lists[r.o := lists[r.o] + [a]];
    forall k | 0 <= k <= MAX_ORD
      ensures NoDup(lists'[k]) && forall x :: x in lists'[k] <==> x in FreeOf(rs', ts', k)
    {
      FreeAppend(rs, ts, r, k);
      forall x | x in lists[k] ensures x < a {
        assert x in FreeOf(rs, ts, k);
        var i :| 0 <= i < |ts| && x in FreeAt(ts[i], rs[i].m, rs[i].o, k);
        FreeRange(ts[i], rs[i].m, rs[i].o, k, x);
        assert rs[i] in rs;
      }
    }
  }

  lemma FreeAppend(rs: seq<Root>, ts: seq<Tree>, r: Root, k: nat)
    requires |rs| == |ts|
    ensures FreeOf(rs + [r], ts + [Free], k) == FreeOf(rs, ts, k) + if k == r.o then {Addr(r.m, r.o)} else {}
  {
    hide Addr;
    var rs', ts' := rs + [r], ts + [Free];
    forall x | x in FreeOf(rs, ts, k) ensures x in FreeOf(rs', ts', k) {
      var i :| 0 <= i < |ts| && x in FreeAt(ts[i], rs[i].m, rs[i].o, k);
      assert x in FreeAt(ts'[i], rs'[i].m, rs'[i].o, k);
    }
    assert FreeAt(ts'[|ts|], rs'[|rs|].m, rs'[|rs|].o, k) == if k == r.o then {Addr(r.m, r.o)} else {};
    forall x | x in FreeOf(rs', ts', k) ensures x in FreeOf(rs, ts, k) || (k == r.o && x == Addr(r.m, r.o)) {
      var i :| 0 <= i < |ts'| && x in FreeAt(ts'[i], rs'[i].m, rs'[i].o, k);
      assert i < |ts| ==> x in FreeAt(ts[i], rs[i].m, rs[i].o, k);
    }
  }

  /** Number of pages of order i up to page n, rounded up to whole 64-bit words. */
  function MapBits(n: nat, i: nat): nat {
    64 * ((Shift(n + Pow2(i) - 1, i) + 63) / 64)
  }

  function ClearMaps(n: nat, k: nat): (r: seq<seq<bool>>)
    ensures |r| == k && forall o | 0 <= o < k :: |r[o]| == MapBits(n, o) && forall m | 0 <= m < |r[o]| :: !r[o][m]
  {
    if k == 0 then [] else ClearMaps(n, k - 1) + [seq(MapBits(n, k - 1), _ => false)]
  }

  lemma MapsBig(n: nat)
    ensures BigEnough(ClearMaps(n, MAX_ORD + 1), n) && AllClear(ClearMaps(n, MAX_ORD + 1))
  {
    hide Addr, Pow2, ClearMaps, Shift;
    var bits := ClearMaps(n, MAX_ORD + 1);
    forall o | 0 <= o < |bits| ensures n <= Addr(|bits[o]|, o) {
      ShiftUp(n + Pow2(o) - 1, o);
      var s := Shift(n + Pow2(o) - 1, o);
      AddrNext(s, o);
      if s < |bits[o]| { AddrMonotone(s, |bits[o]|, o); }
    }
  }

  lemma {:induction false} ShiftUp(x: nat, o: nat)
    ensures x < Addr(Shift(x, o) + 1, o)
    decreases o
  {
    if o > 0 {
      ShiftUp(x / 2, o - 1);
      AddrDouble(Shift(x, o) + 1, o - 1);
      AddrKids(Shift(x, o) + 1, o);
    }
  }

  ghost predicate Has(r: Root, f: nat) { Addr(r.m, r.o) <= f < Addr(r.m + 1, r.o) }

  ghost predicate Reached(rs: seq<Root>, f: nat) { exists r | r in rs :: Has(r, f) }

  /** Every page from lo to hi lies in a root. */
  ghost predicate Covered(rs: seq<Root>, lo: nat, hi: nat) { forall f | lo <= f < hi :: Reached(rs, f) }

  /** Every root starts in some zone and is the largest block that may start where it does. */
  ghost predicate Inside(rs: seq<Root>, zones: seq<(nat, nat)>) {
    forall r | r in rs ::
        exists z | 0 <= z < |zones| :: zones[z].0 <= Addr(r.m, r.o) && Best(r.o, Addr(r.m, r.o), zones[z].1)
  }

  lemma CoverMore(rs: seq<Root>, r: Root, lo: nat)
    requires Covered(rs, lo, Addr(r.m, r.o))
    ensures Covered(rs + [r], lo, Addr(r.m + 1, r.o))
  {
    hide Addr;
    forall f | lo <= f < Addr(r.m + 1, r.o) ensures Reached(rs + [r], f) {
      if f >= Addr(r.m, r.o) {
        assert r in rs + [r] && Has(r, f);
      } else {
        assert Reached(rs, f);
        var x :| x in rs && Has(x, f);
        assert x in rs + [r];
      }
    }
  }

  lemma CoverKept(rs: seq<Root>, rs': seq<Root>, lo: nat, hi: nat)
    requires Covered(rs, lo, hi) && forall r | r in rs :: r in rs'
    ensures Covered(rs', lo, hi)
  {
    forall f | lo <= f < hi ensures Reached(rs', f) {
      assert Reached(rs, f);
    }
  }

  lemma InsideMore(rs: seq<Root>, r: Root, zones: seq<(nat, nat)>, z: nat)
    requires Inside(rs, zones) && z < |zones| && zones[z].0 <= Addr(r.m, r.o) && Best(r.o, Addr(r.m, r.o), zones[z].1)
    ensures Inside(rs + [r], zones)
  {
    hide Addr, Best;
  }
}

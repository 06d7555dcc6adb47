/** mm_getDesc and mm_getPhyAddr of kernel/mm/mm.c: page descriptors and physical addresses name each
    other.  A descriptor is given by its address. */
module Zones {
  import opened Wrappers
  const PAGE: nat := 4096 // mm_pageSize
  const DESC: nat := 32 // sizeof(mm_Page)

  /** mm_Zone: the descriptor array and the range of pages, in bytes. */
  datatype Zone = Zone(page: nat, phyAddrSt: nat, phyAddrEd: nat)

  function Frames(z: Zone): nat {
    if z.phyAddrSt <= z.phyAddrEd then (z.phyAddrEd - z.phyAddrSt) / PAGE else 0
  }

  ghost predicate ZoneOk(z: Zone) {
    z.phyAddrSt <= z.phyAddrEd && z.phyAddrSt % PAGE == 0 && z.phyAddrEd % PAGE == 0
  }

  /** The zones come in address order, and their descriptor arrays do not overlap. */
  ghost predicate ZonesOk(zs: seq<Zone>) {
    && (forall i | 0 <= i < |zs| :: ZoneOk(zs[i]))
    && (forall i, j | 0 <= i < j < |zs| :: zs[i].phyAddrEd <= zs[j].phyAddrSt)
    && forall i, j | 0 <= i < j < |zs| ::
         zs[i].page + DESC * Frames(zs[i]) <= zs[j].page || zs[j].page + DESC * Frames(zs[j]) <= zs[i].page
  }

  /** Byte a lies in a page of the zone. */
  ghost predicate Has(z: Zone, a: nat) { z.phyAddrSt <= a < z.phyAddrEd }

  /** The descriptor of the page that byte a of zone z lies in. */
  function DescIn(z: Zone, a: nat): nat
    requires z.phyAddrSt <= a
  {
    z.page + DESC * ((a - z.phyAddrSt) / PAGE)
  }

  /** desc is the address of an element of the zone's array. */
  ghost predicate HasDesc(z: Zone, desc: nat) {
    z.page <= desc < z.page + DESC * Frames(z) && (desc - z.page) % DESC == 0
  }

  /** mm_getDesc */
  method GetDesc(zs: seq<Zone>, phyAddr: nat) returns (r: Option<nat>)
    requires ZonesOk(zs)
    ensures r == None <==> forall z | z in zs :: !Has(z, phyAddr)
    ensures forall z | z in zs && Has(z, phyAddr) :: r == Some(DescIn(z, phyAddr))
  {
    for i := 0 to |zs|
      invariant forall k | 0 <= k < i :: zs[k].phyAddrEd <= phyAddr
    {
      if zs[i].phyAddrEd <= phyAddr { continue; }
      if zs[i].phyAddrSt > phyAddr {
        assert forall k | i < k < |zs| :: zs[k].phyAddrSt > phyAddr;
        break;
      }
      assert zs[i] in zs && Has(zs[i], phyAddr);
      forall z | z in zs && Has(z, phyAddr) ensures z == zs[i] {
        SameZone(zs, z, zs[i], phyAddr);
      }
      return Some(DescIn(zs[i], phyAddr));
    }
    r := None;
  }

  /** mm_getPhyAddr */
  method GetPhyAddr(zs: seq<Zone>, desc: nat) returns (a: nat)
    requires ZonesOk(zs)
    requires forall z | z in zs && z.page <= desc < z.page + DESC * Frames(z) :: HasDesc(z, desc)
    ensures (forall z | z in zs :: !HasDesc(z, desc)) ==> a == 0
    ensures forall z | z in zs && HasDesc(z, desc) :: Has(z, a) && a % PAGE == 0 && DescIn(z, a) == desc
  {
    for i := 0 to |zs|
      invariant forall k | 0 <= k < i :: !HasDesc(zs[k], desc)
    {
      var z := zs[i];
      if z.page <= desc && desc < z.page + DESC * Frames(z) {
        AddrIn(z, desc);
        return z.phyAddrSt + (desc - z.page) / DESC * PAGE;
      }
    }
    a := 0;
  }

  /** The address computed from a descriptor is that of a page with this descriptor. */
  lemma AddrIn(z: Zone, desc: nat)
    requires ZoneOk(z) && HasDesc(z, desc)
    ensures var a := z.phyAddrSt + (desc - z.page) / DESC * PAGE; Has(z, a) && a % PAGE == 0 && DescIn(z, a) == desc
  {
  }

  lemma DescThere(z: Zone, a: nat)
    requires ZoneOk(z) && Has(z, a)
    ensures HasDesc(z, DescIn(z, a))
  {
    var k := (a - z.phyAddrSt) / PAGE;
    assert k < Frames(z);
    assert (DescIn(z, a) - z.page) == DESC * k;
  }

  /** A descriptor belongs to the array of one zone. */
  lemma ZoneOnce(zs: seq<Zone>, y: Zone, z: Zone, desc: nat)
    requires ZonesOk(zs) && y in zs && z in zs && HasDesc(y, desc)
    requires z.page <= desc < z.page + DESC * Frames(z)
    ensures y == z
  {
    var i :| 0 <= i < |zs| && zs[i] == y;
    var j :| 0 <= j < |zs| && zs[j] == z;
  }

  /** Different pages have different descriptors. */
  lemma DescOnce(zs: seq<Zone>, y: Zone, a: nat, z: Zone, b: nat)
    requires ZonesOk(zs) && y in zs && z in zs && Has(y, a) && Has(z, b) && a % PAGE == 0 && b % PAGE == 0
    ensures DescIn(y, a) == DescIn(z, b) <==> a == b
  {
    DescThere(y, a);
    DescThere(z, b);
    if DescIn(y, a) == DescIn(z, b) {
      ZoneOnce(zs, y, z, DescIn(y, a));
    }
    if a == b {
      SameZone(zs, y, z, a);
    }
  }

  lemma SameZone(zs: seq<Zone>, y: Zone, z: Zone, a: nat)
    requires ZonesOk(zs) && y in zs && z in zs && Has(y, a) && Has(z, a)
    ensures y == z
  {
    var i :| 0 <= i < |zs| && zs[i] == y;
    var j :| 0 <= j < |zs| && zs[j] == z;
  }

  /** The descriptor of an address names that address again. */
  method AddrAgain(zs: seq<Zone>, phyAddr: nat, ghost y: Zone) returns (a: nat)
    requires ZonesOk(zs) && phyAddr % PAGE == 0 && y in zs && Has(y, phyAddr)
    ensures a == phyAddr
  {
    hide ZonesOk, ZoneOk;
    var d := GetDesc(zs, phyAddr);
    YOk(zs, y);
    DescThere(y, phyAddr);
    forall z | z in zs && z.page <= d.value < z.page + DESC * Frames(z) ensures HasDesc(z, d.value) {
      ZoneOnce(zs, y, z, d.value);
    }
    a := GetPhyAddr(zs, d.value);
    DescOnce(zs, y, phyAddr, y, a);
  }

  lemma YOk(zs: seq<Zone>, y: Zone)
    requires ZonesOk(zs) && y in zs
    ensures ZoneOk(y)
  {
  }

  /** Inside a zone, moving the descriptor by n elements moves the address by n pages: the arithmetic
      of the page allocators on descriptors is that on page numbers. */
  lemma Moves(z: Zone, a: nat, n: nat)
    requires ZoneOk(z) && Has(z, a) && Has(z, a + n * PAGE)
    ensures DescIn(z, a + n * PAGE) == DescIn(z, a) + n * DESC
  {
    assert (a + n * PAGE - z.phyAddrSt) / PAGE == (a - z.phyAddrSt) / PAGE + n;
  }
}

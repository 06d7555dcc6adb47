/** kernel/hardware/hid/parse.c as code: the parsing loop, and the extraction of report values. */
module Hids {
  import opened Wrappers
  import opened HidSpec

  class HidParser {
    var p: Parser

    /** _initParser */
    constructor ()
      ensures Going(p) && p == FRESH && p.reports == map[]
    {
      p := FRESH;
    }

    /** The UsageMaximum case of _parseLocal. */
    method AddUsageRange(n: nat, last: nat) returns (ok: bool)
      modifies this
      ensures p == old(p).(loc := AddUsages(old(p).loc, n, last).0) && ok == AddUsages(old(p).loc, n, last).1
    {
      var k: nat := n;
      ok := true;
      while k <= last
        invariant p == old(p).(loc := p.loc)
        invariant AddUsages(p.loc, k, last) == AddUsages(old(p).loc, n, last)
        decreases if |p.loc.usage| < MX_USAGES then MX_USAGES - |p.loc.usage| else 0
      {
        var (l, fits) := AddUsage(p.loc, k);
        p := p.(loc := l);
        if !fits {
          return false;
        }
        k := ToU32(k + 1);
      }
    }

    /** One item through the table of hw_hid_parse. */
    method Dispatch(it: Item) returns (ok: bool)
      requires it.Short? && it.tp < 3
      modifies this
      ensures p == ItemStep(old(p), it).0 && ok == ItemStep(old(p), it).1
    {
      hide AddField, OpenCollection, CloseCollection, AddUsages;
      if it.tp == 2 && it.size != 0 && it.tag == 0x2 && p.loc.branch <= 1 {
        ok := AddUsageRange(p.loc.usageMin, Paged(p.glo, it.size, it.data));
      } else {
        var (p1, fine) := ItemStep(p, it);
        p, ok := p1, fine;
      }
    }

    /** hw_hid_parse */
    method Parse(report: seq<Byte>) returns (out: Outcome)
      requires Going(p)
      modifies this
      ensures p == ParseAll(old(p), report).0 && out == ParseAll(old(p), report).1
      ensures ParserOk(p) && (out == Done ==> Going(p))
    {
      hide ItemStep, Going, ParserOk, Fetch;
      ParseGoing(p, report);
      var st := report;
      out := Done;
      while true
        invariant ParseAll(p, st) == ParseAll(old(p), report) && out == Done
        decreases |st|
      {
        var nxt := Fetch(st);
        if nxt == None {
          return;
        }
        st := nxt.value.1;
        if nxt.value.0.Long? {
          return Failed;
        }
        if nxt.value.0.tp >= 3 {
          return Stray;
        }
        var ok := Dispatch(nxt.value.0);
        if !ok {
          return Failed;
        }
      }
    }
  }

  // ----- report values -----

  predicate WordBit(w: bv32, j: bv32)
    requires j <= 32
  {
    (w >> j) & 1 == 1
  }

  predicate ByteBit(b: bv8, j: bv32)
    requires j <= 32
  {
    ((b as bv32) >> j) & 1 == 1
  }

  function Shr(x: bv32, n: bv32): bv32
    requires n <= 32
  {
    x >> n
  }

  function Shl(x: bv32, n: bv32): bv32
    requires n <= 32
  {
    x << n
  }

  function And(x: bv32, y: bv32): bv32 { x & y }

  /** An arithmetic shift right. */
  function Sar(x: bv32, n: bv32): bv32
    requires n <= 32
  {
    if x & 0x8000_0000 != 0 then Or(Shr(x, n), Fill(n)) else Shr(x, n)
  }

  function Or(x: bv32, y: bv32): bv32 { x | y }

  /** The n highest bits. */
  function Fill(n: bv32): bv32
    requires n <= 32
  {
    !(0xffff_ffff >> n)
  }

  function Mask(n: bv32): bv32
    requires n <= 32
  {
    (1 << n) - 1
  }

  function Word(b0: bv8, b1: bv8, b2: bv8, b3: bv8): bv32 {
    (b0 as bv32) | ((b1 as bv32) << 8) | ((b2 as bv32) << 16) | ((b3 as bv32) << 24)
  }

  /** The 32 bits that a load from byte q on gives. */
  function Load(report: seq<bv8>, q: nat): bv32
    requires q + 4 <= |report|
  {
    Word(report[q], report[q + 1], report[q + 2], report[q + 3])
  }

  /** The masking and shifting of _getReportUData, with q = off / 8 and s = off & 7. */
  function UData(report: seq<bv8>, q: nat, s: bv32, size: bv32): bv32
    requires q + 4 <= |report| && s < 8 && size <= 32
  {
    Shr(And(Load(report, q), Shl(Mask(size), s)), s)
  }

  /** The shifts of _getReportSData */
  function SData(report: seq<bv8>, q: nat, s: bv32, size: bv32): bv32
    requires q + 4 <= |report| && s < 8 && size <= 32
  {
    Sar(Shl(UData(report, q, s, size), 32 - size), 32 - size)
  }

  function PickByte(report: seq<bv8>, q: nat, k: bv32): bv8
    requires q + 4 <= |report|
  {
    if k == 0 then report[q] else if k == 1 then report[q + 1] else if k == 2 then report[q + 2] else report[q + 3]
  }

  /** Bit j of the report from byte q on, little-endian, for j below 32. */
  ghost predicate ReportBit(report: seq<bv8>, q: nat, j: bv32)
    requires q + 4 <= |report|
  {
    ByteBit(PickByte(report, q, j >> 3), j & 7)
  }

  // ----- single bits -----

  lemma WordBits(b0: bv8, b1: bv8, b2: bv8, b3: bv8, j: bv32)
    requires j < 32
    ensures WordBit(Word(b0, b1, b2, b3), j) ==
            ByteBit(if j >> 3 == 0 then b0 else if j >> 3 == 1 then b1 else if j >> 3 == 2 then b2 else b3, j & 7)
  {
  }

  lemma LoadBit(report: seq<bv8>, q: nat, j: bv32)
    requires q + 4 <= |report| && j < 32
    ensures WordBit(Load(report, q), j) == ReportBit(report, q, j)
  {
    hide WordBit, ByteBit, Word;
    WordBits(report[q], report[q + 1], report[q + 2], report[q + 3], j);
  }

  lemma ShrBit(x: bv32, n: bv32, k: bv32)
    requires n < 32 && k < 32
    ensures n + k < 32 ==> WordBit(Shr(x, n), k) == WordBit(x, n + k)
  {
  }

  lemma ShrTop(x: bv32, n: bv32, k: bv32)
    requires n < 32 && k < 32
    ensures n + k >= 32 ==> !WordBit(Shr(x, n), k)
  {
  }

  lemma ShlBit(x: bv32, n: bv32, k: bv32)
    requires n < 32 && k < 32
    ensures n + k < 32 ==> WordBit(Shl(x, n), n + k) == WordBit(x, k)
  {
  }

  lemma AndBit(x: bv32, y: bv32, j: bv32)
    requires j < 32
    ensures WordBit(And(x, y), j) == (WordBit(x, j) && WordBit(y, j))
  {
  }

  lemma MaskBit(n: bv32, k: bv32)
    requires n < 32 && k < 32
    ensures WordBit(Mask(n), k) == (k < n)
  {
  }

  lemma OrBit(x: bv32, y: bv32, j: bv32)
    requires j < 32
    ensures WordBit(Or(x, y), j) == (WordBit(x, j) || WordBit(y, j))
  {
  }

  lemma FillBit(n: bv32, k: bv32)
    requires n < 32 && k < 32
    ensures WordBit(Fill(n), k) == (n + k >= 32)
  {
  }

  lemma TopBit(x: bv32)
    ensures WordBit(x, 31) == (x & 0x8000_0000 != 0)
  {
  }

  /** An arithmetic shift moves the low bits down and repeats the top bit. */
  lemma SarBit(x: bv32, n: bv32, k: bv32)
    requires n < 32 && k < 32
    ensures WordBit(Sar(x, n), k) == WordBit(x, if n + k < 32 then n + k else 31)
  {
    hide WordBit, Or, Shr, Fill;
    TopBit(x);
    OrBit(Shr(x, n), Fill(n), k);
    FillBit(n, k);
    if n + k < 32 { ShrBit(x, n, k); } else { ShrTop(x, n, k); }
  }

  lemma UDataBits(report: seq<bv8>, q: nat, s: bv32, size: bv32, k: bv32)
    requires q + 4 <= |report| && 1 <= size < 32 && s < 8 && s + size <= 32 && k < 32
    ensures k < size ==> WordBit(UData(report, q, s, size), k) == ReportBit(report, q, s + k)
    ensures k >= size ==> !WordBit(UData(report, q, s, size), k)
  {
    hide WordBit, ReportBit, Load, Mask, Shr, Shl, And;
    var m := And(Load(report, q), Shl(Mask(size), s));
    if s + k < 32 {
      ShrBit(m, s, k);
      AndBit(Load(report, q), Shl(Mask(size), s), s + k);
      ShlBit(Mask(size), s, k);
      MaskBit(size, k);
      LoadBit(report, q, s + k);
    } else {
      ShrTop(m, s, k);
    }
  }

  lemma SDataBits(report: seq<bv8>, q: nat, s: bv32, size: bv32, k: bv32)
    requires q + 4 <= |report| && 1 <= size < 32 && s < 8 && s + size <= 32 && k < 32
    ensures k < size ==> WordBit(SData(report, q, s, size), k) == ReportBit(report, q, s + k)
    ensures k >= size ==> WordBit(SData(report, q, s, size), k) == ReportBit(report, q, s + (size - 1))
  {
    hide WordBit, ReportBit, UData, Sar, Shl;
    var x, t := UData(report, q, s, size), 32 - size;
    if k < size {
      SarBit(Shl(x, t), t, k);
      ShlBit(x, t, k);
      UDataBits(report, q, s, size, k);
    } else {
      SarBit(Shl(x, t), t, k);
      ShlBit(x, t, size - 1);
      UDataBits(report, q, s, size, size - 1);
    }
  }

  // ----- numbers as words -----

  function Inc(x: bv32): bv32 { x + 1 }

  function Plus(x: bv32, y: bv32): bv32 { x + y }

  /** n as a 32-bit word. */
  function Bv(n: nat): bv32 {
    if n == 0 then 0 else Inc(Bv(n - 1))
  }

  lemma PlusInc(x: bv32, y: bv32)
    ensures Plus(x, Inc(y)) == Inc(Plus(x, y)) && Plus(x, 0) == x
  {
  }

  lemma BvAdd(a: nat, b: nat)
    ensures Plus(Bv(a), Bv(b)) == Bv(a + b)
  {
    hide Plus, Inc;
    PlusInc(Bv(a), if b == 0 then 0 else Bv(b - 1));
    if b > 0 { BvAdd(a, b - 1); }
  }

  lemma {:induction false} BvDigit(n: nat)
    requires n < 8
    ensures Bv(n) < 8 && (n < 4 ==> Bv(n) < 4) && (n > 0 ==> Bv(n) > 0) && Bv(8) == 8
    ensures Bv(0) == 0 && Bv(1) == 1 && Bv(2) == 2 && Bv(3) == 3 && Bv(4) == 4
  {
    assert Bv(1) == 1 && Bv(2) == 2 && Bv(3) == 3 && Bv(4) == 4;
    assert Bv(5) == 5 && Bv(6) == 6 && Bv(7) == 7 && Bv(8) == 8;
    assert n == 0 || n == 1 || n == 2 || n == 3 || n == 4 || n == 5 || n == 6 || n == 7;
  }

  lemma {:induction false} BvEights(q: nat)
    ensures Bv(8 * q) == Shl(Bv(q), 3)
  {
    hide Plus, Inc, Shl;
    ShlNext(if q == 0 then 0 else Bv(q - 1));
    if q > 0 {
      BvEights(q - 1);
      BvDigit(0);
      BvAdd(8 * (q - 1), 8);
    }
  }

  lemma ShlNext(x: bv32)
    ensures Shl(Inc(x), 3) == Plus(Shl(x, 3), 8) && Shl(0, 3) == 0
  {
  }

  /** Shifting and masking words below 64 is dividing. */
  lemma {:induction false} BvParts(n: nat)
    requires n < 64
    ensures Bv(n) >> 3 == Bv(n / 8) && Bv(n) & 7 == Bv(n % 8)
    ensures (n < 32 ==> Bv(n) < 32) && (n <= 32 ==> Bv(n) <= 32) && (n > 0 ==> Bv(n) > 0) && Bv(n) < 64
  {
    var q, r := n / 8, n % 8;
    BvEights(q);
    BvAdd(8 * q, r);
    BvDigit(q);
    BvDigit(r);
    Octal(Bv(q), Bv(r));
  }

  lemma Octal(x: bv32, y: bv32)
    requires x < 8 && y < 8
    ensures (Shl(x, 3) + y) >> 3 == x && (Shl(x, 3) + y) & 7 == y && Shl(x, 3) + y < 64
    ensures (x < 4 ==> Shl(x, 3) + y < 32) && (x == 4 && y == 0 ==> Shl(x, 3) + y == 32)
    ensures x > 0 || y > 0 ==> Shl(x, 3) + y > 0
  {
  }

  lemma {:induction false} BvLess(a: nat, b: nat)
    requires a < 32 && b <= 32
    ensures a < b <==> Bv(a) < Bv(b)
  {
    BvParts(a);
    BvParts(b);
    if a < b {
      BvParts(b - a);
      BvAdd(a, b - a);
    } else {
      BvParts(a - b);
      BvAdd(b, a - b);
    }
  }

  // ----- the values of a field -----

  /** Bit n of a report. */
  ghost predicate BitAt(mem: seq<bv8>, n: nat)
    requires n / 8 < |mem|
  {
    BvDigit(n % 8);
    ByteBit(mem[n / 8], Bv(n % 8))
  }

  lemma {:induction false} ReportBitAt(mem: seq<bv8>, q: nat, n: nat)
    requires q + 4 <= |mem| && n < 32
    ensures BitAt(mem, 8 * q + n) == ReportBit(mem, q, Bv(n))
  {
    hide ByteBit;
    BvParts(n);
    BvDigit(n / 8);
    BvDigit(n % 8);
    assert (8 * q + n) / 8 == q + n / 8 && (8 * q + n) % 8 == n % 8;
  }

  /** _getReportUData: mem is the report and what follows it in memory. */
  function UValue(mem: seq<bv8>, f: Field, idx: nat): bv32
    requires ValueOff(f, idx) / 8 + 4 <= |mem| && f.glo.reportSz < 32
  {
    var off := ValueOff(f, idx);
    BvDigit(off % 8);
    BvParts(f.glo.reportSz);
    UData(mem, off / 8, Bv(off % 8), Bv(f.glo.reportSz))
  }

  /** _getReportSData */
  function SValue(mem: seq<bv8>, f: Field, idx: nat): bv32
    requires ValueOff(f, idx) / 8 + 4 <= |mem| && f.glo.reportSz < 32
  {
    var off := ValueOff(f, idx);
    BvDigit(off % 8);
    BvParts(f.glo.reportSz);
    SData(mem, off / 8, Bv(off % 8), Bv(f.glo.reportSz))
  }

  /** Value idx of the field lies in the report, and its four bytes can be read. */
  ghost predicate Readable(report: seq<bv8>, tail: seq<bv8>, f: Field, idx: nat) {
    && 1 <= f.glo.reportSz < 32 && ValueOff(f, idx) + f.glo.reportSz <= 8 * |report|
    && ValueOff(f, idx) / 8 + 4 <= |report + tail|
  }

  /** Bit k of a value. */
  ghost predicate BitOf(w: bv32, k: nat)
    requires k < 32
  {
    BvParts(k);
    WordBit(w, Bv(k))
  }

  /** The unsigned value is exactly the bit slice of the report, least significant bit first, whatever
      follows the report in memory. */
  lemma UDataIsSlice(report: seq<bv8>, tail: seq<bv8>, f: Field, idx: nat, k: nat)
    requires Readable(report, tail, f, idx) && ValueOff(f, idx) % 8 + f.glo.reportSz <= 32 && k < 32
    ensures BitOf(UValue(report + tail, f, idx), k) <==> k < f.glo.reportSz && BitAt(report, ValueOff(f, idx) + k)
  {
    hide WordBit, UData, ReportBit, BitAt, Bv, ByteBit, ValueOff;
    var off, sz := ValueOff(f, idx), f.glo.reportSz;
    SliceWords(off % 8, sz, k);
    UDataBits(report + tail, off / 8, Bv(off % 8), Bv(sz), Bv(k));
    if k < sz {
      SliceBit(report, tail, off, k);
    }
  }

  /** The signed value is the same slice, its top bit repeated upward. */
  lemma SDataIsSlice(report: seq<bv8>, tail: seq<bv8>, f: Field, idx: nat, k: nat)
    requires Readable(report, tail, f, idx) && ValueOff(f, idx) % 8 + f.glo.reportSz <= 32 && k < 32
    ensures BitOf(SValue(report + tail, f, idx), k) <==>
            BitAt(report, ValueOff(f, idx) + if k < f.glo.reportSz then k else f.glo.reportSz - 1)
  {
    hide WordBit, SData, ReportBit, BitAt, Bv, ByteBit, ValueOff;
    var off, sz := ValueOff(f, idx), f.glo.reportSz;
    var j := if k < sz then k else sz - 1;
    SliceWords(off % 8, sz, k);
    SliceWords(off % 8, sz, sz - 1);
    SDataBits(report + tail, off / 8, Bv(off % 8), Bv(sz), Bv(k));
    LessOne(sz);
    SliceBit(report, tail, off, j);
  }

  lemma LessOne(n: nat)
    requires n > 0
    ensures Bv(n) - 1 == Bv(n - 1)
  {
  }

  /** The words behind the numbers of a slice compare as the numbers do. */
  lemma SliceWords(s: nat, sz: nat, k: nat)
    requires s < 8 && 1 <= sz < 32 && s + sz <= 32 && k < 32
    ensures Bv(s) < 8 && 1 <= Bv(sz) < 32 && Bv(s) + Bv(sz) <= 32 && Bv(k) < 32 && (k < sz <==> Bv(k) < Bv(sz))
    ensures Bv(s) + Bv(k) == Bv(s + k)
  {
    BvDigit(s);
    BvParts(sz);
    BvParts(k);
    BvLess(k, sz);
    BvAdd(s, sz);
    BvParts(s + sz);
    BvAdd(s, k);
  }

  lemma SliceBit(report: seq<bv8>, tail: seq<bv8>, off: nat, k: nat)
    requires off + k < 8 * |report| && off % 8 + k < 32 && off / 8 + 4 <= |report + tail|
    ensures ReportBit(report + tail, off / 8, Bv(off % 8 + k)) == BitAt(report, off + k)
  {
    hide ReportBit, ByteBit, Bv;
    ReportBitAt(report + tail, off / 8, off % 8 + k);
    assert 8 * (off / 8) + (off % 8 + k) == off + k;
  }

  /** Every value at this place is the slice of its report. */
  ghost predicate AlwaysSlice(f: Field, idx: nat) {
    forall report: seq<bv8>, tail: seq<bv8>, k: nat | Readable(report, tail, f, idx) && k < f.glo.reportSz ::
      BitOf(UValue(report + tail, f, idx), k) == BitAt(report, ValueOff(f, idx) + k)
  }

  /** The 32-bit load gives the slice exactly when the value does not reach into a fifth byte. */
  lemma SliceExactly(f: Field, idx: nat)
    requires 1 <= f.glo.reportSz < 32
    ensures AlwaysSlice(f, idx) <==> ValueOff(f, idx) % 8 + f.glo.reportSz <= 32
  {
    hide BitOf, UValue, BitAt, ValueOff;
    if ValueOff(f, idx) % 8 + f.glo.reportSz <= 32 {
      forall report: seq<bv8>, tail: seq<bv8>, k: nat | Readable(report, tail, f, idx) && k < f.glo.reportSz
        ensures BitOf(UValue(report + tail, f, idx), k) == BitAt(report, ValueOff(f, idx) + k)
      {
        UDataIsSlice(report, tail, f, idx, k);
      }
    } else {
      FifthByte(f, idx);
    }
  }

  /** A bit in the fifth byte reads as zero. */
  lemma FifthByte(f: Field, idx: nat)
    requires 1 <= f.glo.reportSz < 32 && ValueOff(f, idx) % 8 + f.glo.reportSz > 32
    ensures !AlwaysSlice(f, idx)
  {
    hide WordBit, Load, Mask, Shr, Shl, And, ValueOff, ByteBit, BitAt, Bv;
    var off, sz := ValueOff(f, idx), f.glo.reportSz;
    var n, k := off / 8 + 4, 32 - off % 8;
    var report: seq<bv8> := seq(n + 1, i => if i == n then 0xff else 0);
    assert Readable(report, [], f, idx) && report + [] == report && k < sz;
    BvDigit(off % 8);
    BvParts(sz);
    BvParts(k);
    BvAdd(off % 8, k);
    BvParts(32);
    TopWord(off % 8, k);
    ShrTop(And(Load(report, off / 8), Shl(Mask(Bv(sz)), Bv(off % 8))), Bv(off % 8), Bv(k));
    assert !BitOf(UValue(report + [], f, idx), k);
    LowBitSet(report, off + k);
  }

  lemma {:induction false} TopWord(s: nat, k: nat)
    requires s < 8 && s + k == 32
    ensures Bv(s) + Bv(k) >= 32
  {
    BvAdd(s, k);
    BvEights(4);
    BvDigit(4);
  }

  lemma LowBitSet(report: seq<bv8>, n: nat)
    requires n % 8 == 0 && n / 8 < |report| && report[n / 8] == 0xff
    ensures BitAt(report, n)
  {
  }
}

/** kernel/lib/crc32.c: the table-driven step does what eight steps bit by bit do.  Bit vector
    operations have names so that the proofs can work with a few facts about them. */
module Crc {

  const POLY: bv32 := 0xedb88320 // crc32_poly

  function Xor(a: bv32, b: bv32): bv32 { a ^ b }

  function Half(c: bv32): bv32 { c >> 1 }

  predicate Odd(c: bv32) { c & 1 == 1 }

  function Low(c: bv32): bv32 { c & 0xff }

  function High(c: bv32): bv32 { c & 0xffffff00 }

  function Wide(b: bv8): bv32 { b as bv32 }

  /** One step of the shift register. */
  function Shift(c: bv32): bv32 { if Odd(c) then Xor(Half(c), POLY) else Half(c) }

  function Shifts(c: bv32, n: nat): bv32
    decreases n
  {
    if n == 0 then c else Shifts(Shift(c), n - 1)
  }

  // ----- exclusive or -----

  lemma XorOdd(a: bv32, b: bv32)
    ensures Odd(Xor(a, b)) == (Odd(a) != Odd(b)) && Half(Xor(a, b)) == Xor(Half(a), Half(b))
  {
  }

  lemma XorAssoc(a: bv32, b: bv32, c: bv32)
    ensures Xor(Xor(a, b), c) == Xor(a, Xor(b, c))
  {
  }

  lemma XorSwap(a: bv32, b: bv32)
    ensures Xor(a, b) == Xor(b, a) && Xor(a, Xor(b, b)) == a
  {
  }

  lemma XorTwice(a: bv32, b: bv32, p: bv32)
    ensures Xor(Xor(a, p), Xor(b, p)) == Xor(a, b)
    ensures Xor(Xor(a, p), b) == Xor(Xor(a, b), p)
    ensures Xor(a, Xor(b, p)) == Xor(Xor(a, b), p)
  {
    hide Xor;
    XorAssoc(a, b, p);
    XorAssoc(a, p, b);
    XorSwap(p, b);
    XorAssoc(Xor(a, p), b, p);
    XorAssoc(Xor(a, b), p, p);
    XorSwap(Xor(a, b), p);
  }

  lemma ShiftLinear(a: bv32, b: bv32)
    ensures Shift(Xor(a, b)) == Xor(Shift(a), Shift(b))
  {
    hide Xor, Half, Odd, POLY;
    XorOdd(a, b);
    XorTwice(Half(a), Half(b), POLY);
  }

  /** Every number of steps is linear over exclusive or. */
  lemma {:induction false} ShiftsLinear(a: bv32, b: bv32, n: nat)
    ensures Shifts(Xor(a, b), n) == Xor(Shifts(a, n), Shifts(b, n))
    decreases n
  {
    hide Shift, Xor;
    if n > 0 {
      ShiftLinear(a, b);
      ShiftsLinear(Shift(a), Shift(b), n - 1);
    }
  }

  // ----- the upper bytes alone -----

  lemma EvenHalves(c: bv32)
    ensures var d := High(c);
            && !Odd(d) && !Odd(Half(d)) && !Odd(Half(Half(d)))
            && !Odd(Half(Half(Half(d)))) && !Odd(Half(Half(Half(Half(d)))))
            && !Odd(Half(Half(Half(Half(Half(d)))))) && !Odd(Half(Half(Half(Half(Half(Half(d)))))))
            && !Odd(Half(Half(Half(Half(Half(Half(Half(d))))))))
            && Half(Half(Half(Half(Half(Half(Half(Half(d)))))))) == c >> 8
  {
  }

  /** While only clear bits fall out, steps just move the register down. */
  lemma UpperBytes(c: bv32)
    ensures Shifts(High(c), 8) == c >> 8
  {
    hide Half, Odd, High, Xor, POLY;
    EvenHalves(c);
    var d := High(c);
    var d4 := Half(Half(Half(Half(d))));
    assert Shifts(d, 8) == Shifts(d4, 4) by {
      assert Shifts(d, 8) == Shifts(Half(d), 7) == Shifts(Half(Half(d)), 6) == Shifts(Half(Half(Half(d))), 5);
    }
    assert Shifts(d4, 4) == Shifts(Half(d4), 3) == Shifts(Half(Half(d4)), 2) == Shifts(Half(Half(Half(d4))), 1) ==
        Shifts(Half(Half(Half(Half(d4)))), 0);
  }

  lemma TwoParts(x: bv32)
    ensures x == Xor(Low(x), High(x))
  {
  }

  /** Eight steps: the low byte by table, the rest by a shift. */
  lemma {:induction false} EightShifts(x: bv32)
    ensures Shifts(x, 8) == Xor(Shifts(Low(x), 8), x >> 8)
  {
    hide Shifts, Xor, Low, High;
    TwoParts(x);
    ShiftsLinear(Low(x), High(x), 8);
    UpperBytes(x);
  }

  // ----- the code -----

  /** The table of crc32_initTbl. */
  ghost predicate TableOk(tbl: seq<bv32>) {
    |tbl| == 256 && forall i | 0 <= i < 256 :: tbl[i] == Shifts(i as bv32, 8)
  }

  lemma LowIndex(v: bv32)
    ensures Low(v) as int < 256 && (Low(v) as int) as bv32 == Low(v)
  {
  }

  /** crc32_initTbl */
  method InitTable(tbl: array<bv32>)
    requires tbl.Length == 256
    modifies tbl
    ensures TableOk(tbl[..])
  {
    hide Shifts;
    for i := 0 to 256
      invariant forall k | 0 <= k < i :: tbl[k] == Shifts(k as bv32, 8)
    {
      var crc := ShiftLoop(i as bv32);
      tbl[i] := crc;
    }
  }

  /** The inner loop of crc32_initTbl and of crc32_ieee802. */
  method ShiftLoop(c: bv32) returns (crc: bv32)
    ensures crc == Shifts(c, 8)
  {
    hide Half, Odd, Xor;
    crc := c;
    var j := 0;
    while j < 8
      invariant j <= 8 && Shifts(crc, 8 - j) == Shifts(c, 8)
    {
      if Odd(crc) {
        crc := Xor(Half(crc), POLY);
      } else {
        crc := Half(crc);
      }
      j := j + 1;
    }
  }

  /** crc32_u8 */
  function U8(tbl: seq<bv32>, crc: bv32, dt: bv8): bv32
    requires |tbl| == 256
  {
    LowIndex(Xor(crc, Wide(dt)));
    Xor(tbl[Low(Xor(crc, Wide(dt))) as int], crc >> 8)
  }

  /** A byte goes in bit by bit, as in crc32_ieee802. */
  function Bitwise(crc: bv32, dt: bv8): bv32 { Shifts(Xor(crc, Wide(dt)), 8) }

  lemma ByteHigh(crc: bv32, dt: bv8)
    ensures Xor(crc, Wide(dt)) >> 8 == crc >> 8
  {
  }

  /** One byte by table or bit by bit. */
  lemma ByteSame(tbl: seq<bv32>, crc: bv32, dt: bv8)
    requires TableOk(tbl)
    ensures U8(tbl, crc, dt) == Bitwise(crc, dt)
  {
    hide Shifts, Xor, Low, High, Wide;
    var x := Xor(crc, Wide(dt));
    LowIndex(x);
    EightShifts(x);
    ByteHigh(crc, dt);
  }

  /** The k-th byte of a word in little-endian order. */
  function ByteOf(w: bv32, k: nat): bv8
    requires k < 4
  {
    if k == 0 then (w & 0xff) as bv8 else if k == 1 then ((w >> 8) & 0xff) as bv8
    else if k == 2 then ((w >> 16) & 0xff) as bv8 else ((w >> 24) & 0xff) as bv8
  }

  /** crc32_u32 */
  function U32(tbl: seq<bv32>, crc: bv32, w: bv32): bv32
    requires |tbl| == 256
  {
    U8(tbl, U8(tbl, U8(tbl, U8(tbl, crc, ByteOf(w, 0)), ByteOf(w, 1)), ByteOf(w, 2)), ByteOf(w, 3))
  }

  /** Bytes folded one by one, by table. */
  function Fold(tbl: seq<bv32>, crc: bv32, dt: seq<bv8>): bv32
    requires |tbl| == 256
    decreases |dt|
  {
    if dt == [] then crc else Fold(tbl, U8(tbl, crc, dt[0]), dt[1..])
  }

  /** Words folded four bytes at a time, by table. */
  function FoldWords(tbl: seq<bv32>, crc: bv32, ws: seq<bv32>): bv32
    requires |tbl| == 256
    decreases |ws|
  {
    if ws == [] then crc else FoldWords(tbl, U32(tbl, crc, ws[0]), ws[1..])
  }

  function BitFold(crc: bv32, dt: seq<bv8>): bv32
    decreases |dt|
  {
    if dt == [] then crc else BitFold(Bitwise(crc, dt[0]), dt[1..])
  }

  /** The words of a byte sequence in memory order. */
  function Bytes(ws: seq<bv32>): seq<bv8> {
    if ws == [] then [] else [ByteOf(ws[0], 0), ByteOf(ws[0], 1), ByteOf(ws[0], 2), ByteOf(ws[0], 3)] + Bytes(ws[1..])
  }

  /** The complement of the fold from all ones. */
  function Checksum(dt: seq<bv8>): bv32 { !BitFold(0xffff_ffff, dt) }

  /** crc32_ieee802 */
  method Ieee802(dt: seq<bv8>) returns (crc: bv32)
    ensures crc == Checksum(dt)
  {
    hide Shifts, Xor, Wide;
    crc := 0xffff_ffff;
    var i := 0;
    while i < |dt|
      invariant i <= |dt| && BitFold(crc, dt[i..]) == BitFold(0xffff_ffff, dt)
    {
      assert dt[i..][1..] == dt[i + 1..];
      crc := Xor(crc, Wide(dt[i]));
      crc := ShiftLoop(crc);
      i := i + 1;
    }
    crc := !crc;
  }

  /** For every byte sequence the table-driven fold gives the bit-by-bit CRC. */
  lemma {:induction false} FoldSame(tbl: seq<bv32>, crc: bv32, dt: seq<bv8>)
    requires TableOk(tbl)
    ensures Fold(tbl, crc, dt) == BitFold(crc, dt)
    decreases |dt|
  {
    hide U8, Bitwise, TableOk;
    TableSize(tbl);
    if dt != [] {
      ByteSame(tbl, crc, dt[0]);
      FoldSame(tbl, U8(tbl, crc, dt[0]), dt[1..]);
    }
  }

  lemma {:induction false} OneByte(tbl: seq<bv32>, crc: bv32, a: bv8, rest: seq<bv8>)
    requires |tbl| == 256
    ensures Fold(tbl, crc, [a] + rest) == Fold(tbl, U8(tbl, crc, a), rest)
  {
    hide U8;
    assert ([a] + rest)[1..] == rest;
  }

  lemma {:induction false} FourBytes(tbl: seq<bv32>, crc: bv32, a: bv8, b: bv8, c: bv8, d: bv8, rest: seq<bv8>)
    requires |tbl| == 256
    ensures Fold(tbl, crc, [a, b, c, d] + rest) == Fold(tbl, U8(tbl, U8(tbl, U8(tbl, U8(tbl, crc, a), b), c), d), rest)
  {
    hide U8, Fold;
    OneByte(tbl, crc, a, [b, c, d] + rest);
    OneByte(tbl, U8(tbl, crc, a), b, [c, d] + rest);
    OneByte(tbl, U8(tbl, U8(tbl, crc, a), b), c, [d] + rest);
    OneByte(tbl, U8(tbl, U8(tbl, U8(tbl, crc, a), b), c), d, rest);
    assert [a, b, c, d] + rest == [a] + ([b, c, d] + rest);
    assert [b, c, d] + rest == [b] + ([c, d] + rest);
    assert [c, d] + rest == [c] + ([d] + rest);
  }

  /** Four bytes at a time in little-endian order make no difference. */
  lemma {:induction false} WordsSame(tbl: seq<bv32>, crc: bv32, ws: seq<bv32>)
    requires TableOk(tbl)
    ensures FoldWords(tbl, crc, ws) == BitFold(crc, Bytes(ws))
    decreases |ws|
  {
    hide U8, Bitwise, TableOk, ByteOf;
    TableSize(tbl);
    FoldSame(tbl, crc, Bytes(ws));
    if ws != [] {
      WordsSame(tbl, U32(tbl, crc, ws[0]), ws[1..]);
      FoldSame(tbl, U32(tbl, crc, ws[0]), Bytes(ws[1..]));
      FourBytes(tbl, crc, ByteOf(ws[0], 0), ByteOf(ws[0], 1), ByteOf(ws[0], 2), ByteOf(ws[0], 3), Bytes(ws[1..]));
    }
  }

  lemma TableSize(tbl: seq<bv32>)
    requires TableOk(tbl)
    ensures |tbl| == 256
  {
  }
}

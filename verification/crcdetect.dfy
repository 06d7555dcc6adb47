/** What the checksum of kernel/lib/crc32.c is for: it tells messages apart, and a message with its
    checksum behind it always leaves the same register. */
module CrcDetect {
  import opened Crc

  // ----- steps lose nothing -----

  /** The bit that fell out is the highest one of the result. */
  lemma ShiftTop(a: bv32)
    ensures Odd(a) == (Shift(a) >= 0x8000_0000)
  {
  }

  lemma HalfInjective(a: bv32, b: bv32)
    requires Odd(a) == Odd(b) && Half(a) == Half(b)
    ensures a == b
  {
  }

  lemma XorCancels(a: bv32, b: bv32, p: bv32)
    requires Xor(a, p) == Xor(b, p)
    ensures a == b
  {
  }

  lemma ShiftInjective(a: bv32, b: bv32)
    requires Shift(a) == Shift(b)
    ensures a == b
  {
    hide Xor, Half, Odd;
    ShiftTop(a);
    ShiftTop(b);
    if Odd(a) { XorCancels(Half(a), Half(b), POLY); }
    HalfInjective(a, b);
  }

  lemma {:induction false} ShiftsInjective(a: bv32, b: bv32, n: nat)
    requires Shifts(a, n) == Shifts(b, n)
    ensures a == b
    decreases n
  {
    hide Shift;
    if n > 0 {
      ShiftsInjective(Shift(a), Shift(b), n - 1);
      ShiftInjective(a, b);
    }
  }

  // ----- messages as bits -----

  function Bit(b: bool): bv32 { if b then 1 else 0 }

  /** Bits go in one by one. */
  function Feed(c: bv32, bits: seq<bool>): bv32
    decreases |bits|
  {
    if bits == [] then c else Feed(Shift(Xor(c, Bit(bits[0]))), bits[1..])
  }

  lemma {:induction false} FeedAppend(c: bv32, a: seq<bool>, b: seq<bool>)
    ensures Feed(c, a + b) == Feed(Feed(c, a), b)
    decreases |a|
  {
    hide Shift, Xor, Bit;
    if a == [] {
      assert a + b == b;
    } else {
      assert (a + b)[1..] == a[1..] + b;
      FeedAppend(Shift(Xor(c, Bit(a[0]))), a[1..], b);
    }
  }

  lemma {:induction false} FeedInjective(c: bv32, d: bv32, bits: seq<bool>)
    requires Feed(c, bits) == Feed(d, bits)
    ensures c == d
    decreases |bits|
  {
    hide Shift, Xor, Bit;
    if bits != [] {
      var x := Bit(bits[0]);
      FeedInjective(Shift(Xor(c, x)), Shift(Xor(d, x)), bits[1..]);
      ShiftInjective(Xor(c, x), Xor(d, x));
      XorCancels(c, d, x);
    }
  }

  /** v has at most n bits. */
  predicate Fits(v: bv32, n: nat)
    decreases n
  {
    if n == 0 then v == 0 else Fits(Half(v), n - 1)
  }

  /** The n low bits of v, lowest first. */
  function BitsAt(v: bv32, n: nat): (r: seq<bool>)
    ensures |r| == n
    decreases n
  {
    if n == 0 then [] else [Odd(v)] + BitsAt(Half(v), n - 1)
  }

  lemma SplitLow(c: bv32, v: bv32)
    ensures Xor(Shift(Xor(c, Bit(Odd(v)))), Half(v)) == Shift(Xor(c, v))
  {
    hide Shift, Xor, Half;
    LowAway(c, v);
    var e := Xor(v, Bit(Odd(v)));
    ShiftLinear(Xor(c, Bit(Odd(v))), e);
    EvenShift(v);
  }

  lemma LowAway(c: bv32, v: bv32)
    ensures Xor(Xor(c, Bit(Odd(v))), Xor(v, Bit(Odd(v)))) == Xor(c, v)
  {
    hide Xor, Bit, Odd;
    XorTwice(c, v, Bit(Odd(v)));
  }

  lemma LowestCleared(v: bv32)
    requires Odd(v)
    ensures !Odd(Xor(v, 1)) && Half(Xor(v, 1)) == Half(v)
  {
  }

  lemma EvenShift(v: bv32)
    ensures Shift(Xor(v, Bit(Odd(v)))) == Half(v)
  {
    hide Xor, Odd, Half;
    if Odd(v) { LowestCleared(v); } else { XorZero(v); }
  }

  lemma XorZero(c: bv32)
    ensures Xor(c, 0) == c
  {
  }

  /** Bits that go in one by one might as well go in at once, before as many steps. */
  lemma {:induction false} FeedWord(c: bv32, v: bv32, n: nat)
    requires Fits(v, n)
    ensures Feed(c, BitsAt(v, n)) == Shifts(Xor(c, v), n)
    decreases n
  {
    hide Shift, Xor, Bit, Half, Odd;
    if n == 0 {
      XorZero(c);
    } else {
      var bits := BitsAt(v, n);
      assert bits[0] == Odd(v) && bits[1..] == BitsAt(Half(v), n - 1);
      FeedWord(Shift(Xor(c, Bit(Odd(v)))), Half(v), n - 1);
      SplitLow(c, v);
    }
  }

  /** The bits of a byte sequence, those of each byte from the lowest on. */
  function BitsOf(dt: seq<bv8>): (r: seq<bool>)
    ensures |r| == 8 * |dt|
  {
    if dt == [] then [] else BitsAt(Wide(dt[0]), 8) + BitsOf(dt[1..])
  }

  lemma ByteFits(d: bv8)
    ensures Fits(Wide(d), 8)
  {
    var v := Wide(d);
    assert Half(Half(Half(Half(Half(Half(Half(Half(v)))))))) == 0;
    assert Fits(v, 8) == Fits(Half(Half(Half(Half(v)))), 4);
  }

  /** The fold over bytes is the fold over their bits. */
  lemma {:induction false} FoldBits(c: bv32, dt: seq<bv8>)
    ensures BitFold(c, dt) == Feed(c, BitsOf(dt))
    decreases |dt|
  {
    hide Shift, Xor, Wide, Fits, Shifts, BitsAt;
    if dt != [] {
      ByteFits(dt[0]);
      FeedWord(c, Wide(dt[0]), 8);
      FoldBits(Bitwise(c, dt[0]), dt[1..]);
      FeedAppend(c, BitsAt(Wide(dt[0]), 8), BitsOf(dt[1..]));
    }
  }

  // ----- bursts -----

  lemma {:induction false} FitsMore(v: bv32, n: nat, m: nat)
    requires Fits(v, n) && n <= m
    ensures Fits(v, m)
    decreases m
  {
    if m > 0 {
      if n == 0 {
        assert Half(v) == 0;
        FitsMore(Half(v), 0, m - 1);
      } else {
        FitsMore(Half(v), n - 1, m - 1);
      }
    }
  }

  function Down(w: bv32): bv32 { w >> 8 }

  lemma FitsByte(v: bv32, n: nat)
    requires n >= 8
    ensures Fits(v, n) == Fits(Down(v), n - 8)
  {
    var h := Half(Half(Half(Half(v))));
    assert Fits(v, n) == Fits(Half(Half(v)), n - 2) == Fits(h, n - 4);
    assert Fits(h, n - 4) == Fits(Half(Half(h)), n - 6) == Fits(Half(Half(Half(Half(h)))), n - 8);
    EightHalves(v);
  }

  lemma EightHalves(v: bv32)
    ensures Half(Half(Half(Half(Half(Half(Half(Half(v)))))))) == Down(v)
  {
  }

  lemma LastSeven(v: bv32)
    requires Half(Half(Half(Half(Half(Half(Half(Down(Down(Down(v)))))))))) == 0
    ensures v < 0x8000_0000
  {
  }

  lemma {:induction false} FitsSeven(x: bv32)
    requires Fits(x, 7)
    ensures Half(Half(Half(Half(Half(Half(Half(x))))))) == 0
  {
    hide Half;
    var y := Half(Half(Half(Half(x))));
    assert Fits(x, 7) == Fits(Half(Half(x)), 5) == Fits(y, 3);
    assert Fits(y, 3) == Fits(Half(Half(y)), 1) == Fits(Half(Half(Half(y))), 0);
  }

  lemma {:induction false} FitsSmall(v: bv32, n: nat)
    requires Fits(v, n) && n <= 31
    ensures v < 0x8000_0000
  {
    hide Half, Fits, Down;
    FitsMore(v, n, 31);
    FitsByte(v, 31);
    FitsByte(Down(v), 23);
    FitsByte(Down(Down(v)), 15);
    FitsSeven(Down(Down(Down(v))));
    LastSeven(v);
  }

  function Join(b: bool, v: bv32): bv32 { if b then (v << 1) | 1 else v << 1 }

  lemma JoinParts(b: bool, v: bv32)
    requires v < 0x8000_0000
    ensures Odd(Join(b, v)) == b && Half(Join(b, v)) == v
  {
  }

  /** Up to 32 bits are those of a word. */
  lemma {:induction false} WordOf(bits: seq<bool>) returns (v: bv32)
    requires |bits| <= 32
    ensures Fits(v, |bits|) && BitsAt(v, |bits|) == bits
    decreases |bits|
  {
    hide Odd, Half, Join;
    if bits == [] {
      v := 0;
    } else {
      var u := WordOf(bits[1..]);
      FitsSmall(u, |bits| - 1);
      JoinParts(bits[0], u);
      v := Join(bits[0], u);
    }
  }

  /** Different bits within one window leave different registers. */
  lemma {:induction false} WindowDiffers(c: bv32, a: seq<bool>, b: seq<bool>)
    requires |a| == |b| <= 32 && a != b
    ensures Feed(c, a) != Feed(c, b)
  {
    hide Shift, Xor, Fits, Shifts, BitsAt;
    var v := WordOf(a);
    var w := WordOf(b);
    FeedWord(c, v, |a|);
    FeedWord(c, w, |b|);
    if Feed(c, a) == Feed(c, b) {
      ShiftsInjective(Xor(c, v), Xor(c, w), |a|);
      XorBack(c, v, w);
    }
  }

  lemma XorBack(c: bv32, v: bv32, w: bv32)
    requires Xor(c, v) == Xor(c, w)
    ensures v == w
  {
  }

  lemma {:induction false} BurstInBits(c: bv32, a: seq<bool>, b: seq<bool>, p: nat)
    requires |a| == |b| && a != b
    requires forall i | 0 <= i < |a| && !(p <= i < p + 32) :: a[i] == b[i]
    ensures Feed(c, a) != Feed(c, b)
  {
    hide Feed;
    var lo := if p <= |a| then p else |a|;
    var hi := if p + 32 <= |a| then p + 32 else |a|;
    var pre, post := a[..lo], a[hi..];
    assert pre == b[..lo] && post == b[hi..];
    assert a == pre + a[lo..hi] + post && b == pre + b[lo..hi] + post;
    FeedAppend(c, pre + a[lo..hi], post);
    FeedAppend(c, pre + b[lo..hi], post);
    FeedAppend(c, pre, a[lo..hi]);
    FeedAppend(c, pre, b[lo..hi]);
    WindowDiffers(Feed(c, pre), a[lo..hi], b[lo..hi]);
    if Feed(c, a) == Feed(c, b) {
      FeedInjective(Feed(c, pre + a[lo..hi]), Feed(c, pre + b[lo..hi]), post);
    }
  }

  lemma NotInjective(a: bv32, b: bv32)
    requires !a == !b
    ensures a == b
  {
  }

  lemma {:induction false} BitsDiffer(a: seq<bv8>, b: seq<bv8>)
    requires |a| == |b| && a != b
    ensures BitsOf(a) != BitsOf(b)
    decreases |a|
  {
    hide BitsAt, Wide;
    if a[0] != b[0] {
      ByteBitsDiffer(a[0], b[0]);
      assert BitsOf(a)[..8] == BitsAt(Wide(a[0]), 8) && BitsOf(b)[..8] == BitsAt(Wide(b[0]), 8);
    } else {
      assert a == [a[0]] + a[1..] && b == [b[0]] + b[1..];
      BitsDiffer(a[1..], b[1..]);
      assert BitsOf(a)[8..] == BitsOf(a[1..]) && BitsOf(b)[8..] == BitsOf(b[1..]);
    }
  }

  lemma {:induction false} SameWord(v: bv32, w: bv32, n: nat)
    requires Fits(v, n) && Fits(w, n) && BitsAt(v, n) == BitsAt(w, n)
    ensures v == w
    decreases n
  {
    hide Half, Odd;
    if n > 0 {
      assert BitsAt(v, n)[0] == Odd(v) && BitsAt(w, n)[0] == Odd(w);
      assert BitsAt(v, n)[1..] == BitsAt(Half(v), n - 1) && BitsAt(w, n)[1..] == BitsAt(Half(w), n - 1);
      SameWord(Half(v), Half(w), n - 1);
      HalfInjective(v, w);
    }
  }

  lemma WideInjective(a: bv8, b: bv8)
    requires Wide(a) == Wide(b)
    ensures a == b
  {
  }

  lemma ByteBitsDiffer(a: bv8, b: bv8)
    requires a != b
    ensures BitsAt(Wide(a), 8) != BitsAt(Wide(b), 8)
  {
    hide BitsAt, Fits, Wide;
    if BitsAt(Wide(a), 8) == BitsAt(Wide(b), 8) {
      ByteFits(a);
      ByteFits(b);
      SameWord(Wide(a), Wide(b), 8);
      WideInjective(a, b);
    }
  }

  /** Two messages of one length that differ, but only within 32 consecutive bits, have different
      checksums. */
  lemma {:induction false} BurstDetected(a: seq<bv8>, b: seq<bv8>, p: nat)
    requires |a| == |b| && a != b
    requires forall i | 0 <= i < 8 * |a| && !(p <= i < p + 32) :: BitsOf(a)[i] == BitsOf(b)[i]
    ensures Checksum(a) != Checksum(b)
  {
    hide BitsOf, BitFold;
    FoldBits(0xffff_ffff, a);
    FoldBits(0xffff_ffff, b);
    BitsDiffer(a, b);
    BurstInBits(0xffff_ffff, BitsOf(a), BitsOf(b), p);
    if Checksum(a) == Checksum(b) { NotInjective(BitFold(0xffff_ffff, a), BitFold(0xffff_ffff, b)); }
  }

  // ----- the residue -----

  lemma {:induction false} FoldAppend(c: bv32, a: seq<bv8>, b: seq<bv8>)
    ensures BitFold(c, a + b) == BitFold(BitFold(c, a), b)
    decreases |a|
  {
    hide Bitwise;
    if a == [] {
      assert a + b == b;
    } else {
      assert (a + b)[1..] == a[1..] + b;
      FoldAppend(Bitwise(c, a[0]), a[1..], b);
    }
  }

  lemma {:induction false} ShiftsAdd(c: bv32, n: nat, m: nat)
    ensures Shifts(c, n + m) == Shifts(Shifts(c, n), m)
    decreases n
  {
    hide Shift;
    if n > 0 { ShiftsAdd(Shift(c), n - 1, m); }
  }

  /** The bytes of a word make it up. */
  lemma BytesWhole(w: bv32)
    ensures w == Wide(ByteOf(w, 0)) | (Wide(ByteOf(w, 1)) << 8) | (Wide(ByteOf(w, 2)) << 16) |
                 (Wide(ByteOf(w, 3)) << 24)
  {
  }

  function LowByte(w: bv32): bv8 { (w & 0xff) as bv8 }

  lemma FirstByte(c: bv32, w: bv32)
    ensures Xor(c, w) == Xor(Xor(c, Wide(LowByte(w))), High(w))
  {
  }

  /** A byte goes in: what is above it in the word moves down and waits. */
  lemma ByteIn(c: bv32, w: bv32)
    ensures Shifts(Xor(c, w), 8) == Xor(Bitwise(c, LowByte(w)), Down(w))
  {
    hide Shifts, Xor, High, Wide, LowByte;
    FirstByte(c, w);
    ShiftsLinear(Xor(c, Wide(LowByte(w))), High(w), 8);
    UpperBytes(w);
  }

  lemma BytesDown(w: bv32)
    ensures ByteOf(w, 0) == LowByte(w) && ByteOf(w, 1) == LowByte(Down(w))
    ensures ByteOf(w, 2) == LowByte(Down(Down(w))) && ByteOf(w, 3) == LowByte(Down(Down(Down(w))))
    ensures Down(Down(Down(Down(w)))) == 0
  {
  }

  lemma {:induction false} FoldOne(c: bv32, b: bv8, rest: seq<bv8>)
    ensures BitFold(c, [b] + rest) == BitFold(Bitwise(c, b), rest)
  {
    hide Bitwise;
    assert ([b] + rest)[1..] == rest;
  }

  lemma {:induction false} FoldFour(c: bv32, b0: bv8, b1: bv8, b2: bv8, b3: bv8)
    ensures BitFold(c, [b0, b1, b2, b3]) == Bitwise(Bitwise(Bitwise(Bitwise(c, b0), b1), b2), b3)
  {
    hide Bitwise, BitFold;
    assert [b0, b1, b2, b3] == [b0] + [b1, b2, b3] && [b1, b2, b3] == [b1] + [b2, b3];
    assert [b2, b3] == [b2] + [b3] && [b3] == [b3] + [];
    FoldOne(c, b0, [b1, b2, b3]);
    FoldOne(Bitwise(c, b0), b1, [b2, b3]);
    FoldOne(Bitwise(Bitwise(c, b0), b1), b2, [b3]);
    FoldOne(Bitwise(Bitwise(Bitwise(c, b0), b1), b2), b3, []);
    FoldNone(Bitwise(Bitwise(Bitwise(Bitwise(c, b0), b1), b2), b3));
  }

  lemma {:induction false} FoldNone(c: bv32)
    ensures BitFold(c, []) == c
  {
  }

  /** The four bytes of a word go in. */
  lemma {:induction false} WordIn(c: bv32, w: bv32)
    ensures BitFold(c, [ByteOf(w, 0), ByteOf(w, 1), ByteOf(w, 2), ByteOf(w, 3)]) == Shifts(Xor(c, w), 32)
  {
    hide Shifts, Xor, Bitwise, ByteOf, Down, LowByte, BitFold;
    BytesDown(w);
    var w1 := Down(w);
    var w2 := Down(w1);
    var c1 := Bitwise(c, ByteOf(w, 0));
    var c2 := Bitwise(c1, ByteOf(w, 1));
    var c3 := Bitwise(c2, ByteOf(w, 2));
    ByteIn(c, w);
    ByteIn(c1, w1);
    ByteIn(c2, w2);
    ByteIn(c3, Down(w2));
    XorZero(Bitwise(c3, ByteOf(w, 3)));
    ShiftsAdd(Xor(c, w), 8, 24);
    ShiftsAdd(Xor(c1, w1), 8, 16);
    ShiftsAdd(Xor(c2, w2), 8, 8);
    FoldFour(c, ByteOf(w, 0), ByteOf(w, 1), ByteOf(w, 2), ByteOf(w, 3));
  }

  lemma XorNot(r: bv32)
    ensures Xor(r, !r) == 0xffff_ffff
  {
  }

  lemma {:induction false} SumOf(dt: seq<bv8>)
    ensures Xor(BitFold(0xffff_ffff, dt), Checksum(dt)) == 0xffff_ffff
  {
    hide BitFold, Xor;
    XorNot(BitFold(0xffff_ffff, dt));
  }

  lemma OnesFirst()
    ensures Shifts(0xffff_ffff, 8) == 0x2dfd_1072
  {
  }

  lemma OnesSecond()
    ensures Shifts(0x2dfd_1072, 8) == 0xbe26_ed00
  {
  }

  lemma OnesThird()
    ensures Shifts(0xbe26_ed00, 8) == 0x00be_26ed
  {
  }

  lemma OnesFourth()
    ensures Shifts(0x00be_26ed, 8) == 0xdebb_20e3
  {
  }

  lemma OnesShifted()
    ensures Shifts(0xffff_ffff, 32) == 0xdebb_20e3
  {
    hide Shifts;
    ShiftsAdd(0xffff_ffff, 8, 24);
    ShiftsAdd(0x2dfd_1072, 8, 16);
    ShiftsAdd(0xbe26_ed00, 8, 8);
    OnesFirst();
    OnesSecond();
    OnesThird();
    OnesFourth();
  }

  /** Whatever the message, the register after it and the four bytes of its checksum is the same. */
  lemma {:induction false} Residue(dt: seq<bv8>)
    ensures var w := Checksum(dt);
            BitFold(0xffff_ffff, dt + [ByteOf(w, 0), ByteOf(w, 1), ByteOf(w, 2), ByteOf(w, 3)]) == 0xdebb_20e3
  {
    hide Shifts, Xor, BitFold, ByteOf, Checksum;
    var w := Checksum(dt);
    FoldAppend(0xffff_ffff, dt, [ByteOf(w, 0), ByteOf(w, 1), ByteOf(w, 2), ByteOf(w, 3)]);
    WordIn(BitFold(0xffff_ffff, dt), w);
    SumOf(dt);
    OnesShifted();
  }

  lemma DigitsFirst()
    ensures Bitwise(0xffff_ffff, 0x31) == 0x7c23_1048 && Bitwise(0x7c23_1048, 0x32) == 0xb0ac_bb32
  {
  }

  lemma DigitsSecond()
    ensures Bitwise(0xb0ac_bb32, 0x33) == 0x77b7_9c2d && Bitwise(0x77b7_9c2d, 0x34) == 0x641c_1f5c
  {
  }

  lemma DigitsThird()
    ensures Bitwise(0x641c_1f5c, 0x35) == 0x340a_c5e3 && Bitwise(0x340a_c5e3, 0x36) == 0xf68d_2c9e
  {
  }

  lemma DigitsFourth()
    ensures Bitwise(0xf68d_2c9e, 0x37) == 0xaffc_9660 && Bitwise(0xaffc_9660, 0x38) == 0x651f_2550
  {
  }

  lemma DigitsLast()
    ensures Bitwise(0x651f_2550, 0x39) == 0x340b_c6d9
  {
  }

  /** The check value of this CRC: that of the digits 1 to 9. */
  lemma CheckValue()
    ensures Checksum([0x31, 0x32, 0x33, 0x34, 0x35, 0x36, 0x37, 0x38, 0x39]) == 0xcbf4_3926
  {
    hide Bitwise, BitFold;
    DigitsFirst();
    DigitsSecond();
    DigitsThird();
    DigitsFourth();
    DigitsLast();
    var low: seq<bv8>, high: seq<bv8>, last: seq<bv8> := [0x31, 0x32, 0x33, 0x34], [0x35, 0x36, 0x37, 0x38], [0x39];
    FoldAppend(0xffff_ffff, low, high + last);
    FoldAppend(0x641c_1f5c, high, last);
    FoldFour(0xffff_ffff, 0x31, 0x32, 0x33, 0x34);
    FoldFour(0x641c_1f5c, 0x35, 0x36, 0x37, 0x38);
    FoldOne(0x651f_2550, 0x39, []);
    FoldNone(0x340b_c6d9);
    assert last == [0x39] + [];
    assert [0x31, 0x32, 0x33, 0x34, 0x35, 0x36, 0x37, 0x38, 0x39] == low + (high + last);
  }
}

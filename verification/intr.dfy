/** Interrupt vector allocation: kernel/interrupt/intr.c.  A CPU's mask is the sequence of its 256
    bits; desc stands for the CPU and first vector of a run. */
module Intr {
  import opened Sequences

  const VECTORS: nat := 256

  /** Vectors [st, st + num) are all free. */
  ghost predicate RunClear(mask: seq<bool>, st: nat, num: nat) {
    st + num <= |mask| && forall k | st <= k < st + num :: !mask[k]
  }

  /** The naive search: the lowest start below 256 - num whose whole run is free. */
  ghost predicate LowestRun(mask: seq<bool>, num: nat, st: nat) {
    st + num < VECTORS && RunClear(mask, st, num) && forall s | 0 <= s < st :: !RunClear(mask, s, num)
  }

  /** The mask with vectors [st, st + num) set or cleared. */
  function SetRun(mask: seq<bool>, st: nat, num: nat, v: bool): (r: seq<bool>)
    requires st + num <= |mask|
    ensures |r| == |mask| && forall k | 0 <= k < |mask| :: r[k] == if st <= k < st + num then v else mask[k]
  {
    if num == 0 then mask else SetRun(mask, st, num - 1, v)[st + num - 1 := v]
  }

  lemma {:induction false} ClearsRun(mask: seq<bool>, st: nat, num: nat, v: bool)
    requires st + num <= |mask| && forall k | st <= k < st + num :: mask[k] != v
    ensures Zeros(SetRun(mask, st, num, v)) == if v then Zeros(mask) - num else Zeros(mask) + num
    ensures v ==> num <= Zeros(mask)
  {
    if num > 0 {
      ClearsRun(mask, st, num - 1, v);
      ZerosUpdate(SetRun(mask, st, num - 1, v), st + num - 1, v);
    }
  }

  /** Clearing a run frees as many vectors as it has exactly if all of them were in use. */
  lemma {:induction false} ClearedRun(mask: seq<bool>, st: nat, num: nat)
    requires st + num <= |mask|
    ensures Zeros(mask) <= Zeros(SetRun(mask, st, num, false)) <= Zeros(mask) + num
    ensures Zeros(SetRun(mask, st, num, false)) == Zeros(mask) + num <==> forall k | st <= k < st + num :: mask[k]
  {
    hide Zeros;
    if num > 0 {
      ClearedRun(mask, st, num - 1);
      var m1 := SetRun(mask, st, num - 1, false);
      if mask[st + num - 1] {
        ZerosUpdate(m1, st + num - 1, false);
      } else {
        assert m1[st + num - 1 := false] == m1;
      }
    }
  }

  function Word32(x: int): (w: nat)
    ensures 0 <= x < 0x1_0000_0000 ==> w == x
  {
    x % 0x1_0000_0000
  }

  /** A free run needs that many free vectors, so the count test of intr_alloc turns nobody away. */
  lemma {:induction false} RunNeedsFree(mask: seq<bool>, st: nat, num: nat)
    requires RunClear(mask, st, num)
    ensures num <= Zeros(mask)
  {
    ClearsRun(mask, st, num, true);
  }

  /** Giving a run back restores the mask. */
  lemma {:induction false} FreeUndoes(mask: seq<bool>, st: nat, num: nat)
    requires RunClear(mask, st, num)
    ensures SetRun(SetRun(mask, st, num, true), st, num, false) == mask
  {
  }

  // ----- the runs that are handed out -----

  /** Vector k of CPU c belongs to the run r, given by CPU, first vector and length. */
  ghost predicate InRun(r: (nat, nat, nat), c: nat, k: int) { r.0 == c && r.1 <= k < r.1 + r.2 }

  /** Exactly the vectors outside 64 to 127 and those of the handed-out runs are in use; the runs lie in
      that range and do not meet. */
  ghost predicate Accounted(m: seq<seq<bool>>, out: set<(nat, nat, nat)>) {
    && (forall c | 0 <= c < |m| :: |m[c]| == VECTORS)
    && (forall c, k | 0 <= c < |m| && 0 <= k < VECTORS :: m[c][k] <==>
         !(64 <= k < 128) || exists r | r in out :: InRun(r, c, k))
    && (forall r, k | r in out && InRun(r, r.0, k) :: 64 <= k < 128)
    && forall r, q, k | r in out && q in out && InRun(r, r.0, k) && InRun(q, r.0, k) :: r == q
  }

  lemma {:induction false} TakeAccounted(m: seq<seq<bool>>, out: set<(nat, nat, nat)>, c: nat, vec: nat, num: nat)
    requires Accounted(m, out) && c < |m| && RunClear(m[c], vec, num)
    ensures num > 0 ==> (c, vec, num) !in out && 64 <= vec && vec + num <= 128
    ensures Accounted(m[c := SetRun(m[c], vec, num, true)], out + {(c, vec, num)})
  {
    var x := (c, vec, num);
    var m', out' := m[c := SetRun(m[c], vec, num, true)], out + {x};
    AllClear(m[c], vec, num);
    forall k | InRun(x, c, k) ensures 64 <= k < 128 && forall r | r in out :: !InRun(r, c, k) {
      assert !m[c][k];
    }
    forall d, k | 0 <= d < |m'| && 0 <= k < VECTORS
      ensures m'[d][k] <==> !(64 <= k < 128) || exists r | r in out' :: InRun(r, d, k)
    {
      if InRun(x, d, k) { assert x in out'; }
      assert m[d][k] <==> !(64 <= k < 128) || exists r | r in out :: InRun(r, d, k);
    }
    if num > 0 {
      assert InRun(x, c, vec) && InRun(x, c, vec + num - 1);
    }
  }

  lemma {:induction false} GiveAccounted(m: seq<seq<bool>>, out: set<(nat, nat, nat)>, c: nat, vec: nat, num: nat)
    requires Accounted(m, out) && c < |m| && (c, vec, num) in out && vec + num <= VECTORS
    ensures forall k | vec <= k < vec + num :: m[c][k]
    ensures Accounted(m[c := SetRun(m[c], vec, num, false)], out - {(c, vec, num)})
  {
    var x := (c, vec, num);
    var m', out' := m[c := SetRun(m[c], vec, num, false)], out - {x};
    forall k | vec <= k < vec + num ensures m[c][k] { assert InRun(x, c, k); }
    forall d, k | 0 <= d < |m'| && 0 <= k < VECTORS
      ensures m'[d][k] <==> !(64 <= k < 128) || exists r | r in out' :: InRun(r, d, k)
    {
      assert m[d][k] <==> !(64 <= k < 128) || exists r | r in out :: InRun(r, d, k);
      if InRun(x, d, k) { assert InRun(x, x.0, k); }
      else if exists r | r in out :: InRun(r, d, k) {
        var r :| r in out && InRun(r, d, k);
        assert r in out';
      }
    }
  }

  /** The start that the scan leaves out is never that of a free run. */
  lemma NoneAtEnd(m: seq<seq<bool>>, out: set<(nat, nat, nat)>, c: nat, s: nat, num: nat)
    requires Accounted(m, out) && c < |m| && s + num == VECTORS && num > 0
    ensures !RunClear(m[c], s, num)
  {
    assert m[c][VECTORS - 1];
  }

  lemma NoneMissed(m: seq<seq<bool>>, out: set<(nat, nat, nat)>, c: nat, num: nat)
    requires Accounted(m, out) && c < |m|
    ensures (exists s :: 0 <= s && s + num <= VECTORS && RunClear(m[c], s, num)) <==>
            (exists s :: 0 <= s && s + num < VECTORS && RunClear(m[c], s, num))
  {
    if exists s :: 0 <= s && s + num <= VECTORS && RunClear(m[c], s, num) {
      var s :| 0 <= s && s + num <= VECTORS && RunClear(m[c], s, num);
      if num == 0 {
        assert RunClear(m[c], 0, num);
      } else if s + num == VECTORS {
        NoneAtEnd(m, out, c, s, num);
      }
    }
  }

  class Vectors {
    const cpuNum: nat
    const msk: array<seq<bool>> // intr_msk of each CPU
    const freeCnt: array<nat>
    const useCnt: array<nat>
    ghost var out: set<(nat, nat, nat)> // the runs handed out: CPU, first vector, length

    ghost predicate Valid()
      reads msk, freeCnt, useCnt
    {
      && 0 < cpuNum == msk.Length == freeCnt.Length == useCnt.Length && freeCnt != useCnt
      && forall c | 0 <= c < cpuNum ::
           |msk[c]| == VECTORS && freeCnt[c] == Zeros(msk[c]) && useCnt[c] + freeCnt[c] == VECTORS
    }

    /** hal_intr_initCpuVar on every CPU: vectors 64 to 127 are free. */
    constructor (n: nat)
      requires n > 0
      ensures Valid() && cpuNum == n && fresh(msk) && fresh(freeCnt) && fresh(useCnt)
      ensures forall c | 0 <= c < n :: forall k | 0 <= k < VECTORS :: msk[c][k] == !(64 <= k < 128)
      ensures out == {} && Accounted(msk[..], out)
    {
      cpuNum := n;
      var m := seq(VECTORS, k => !(64 <= k < 128));
      msk := new seq<bool>[n](_ => m);
      freeCnt := new nat[n](_ => 64);
      useCnt := new nat[n](_ => 3 * 64);
      out := {};
      new;
      AllSet(seq(VECTORS, _ => true));
      ClearsRun(seq(VECTORS, _ => true), 64, 64, false);
      assert SetRun(seq(VECTORS, _ => true), 64, 64, false) == m;
    }

    /** The first CPU with the most free vectors. */
    method BestCpu() returns (best: nat)
      requires Valid()
      ensures best < cpuNum && (forall c | 0 <= c < cpuNum :: freeCnt[c] <= freeCnt[best])
      ensures forall c | 0 <= c < best :: freeCnt[c] < freeCnt[best]
    {
      best := 0;
      for i := 0 to cpuNum
        invariant best < cpuNum && (best < i || best == i == 0)
        invariant forall c | 0 <= c < i :: freeCnt[c] <= freeCnt[best]
        invariant forall c | 0 <= c < best :: freeCnt[c] < freeCnt[best]
      {
        if freeCnt[i] > freeCnt[best] {
          best := i;
        }
      }
    }

    /** The inner loop: the last vector in use in [i, i + num), or -1. */
    method LastUsed(mask: seq<bool>, i: nat, num: nat) returns (flag: int)
      requires i + num <= |mask|
      ensures -1 <= flag < num && (flag == -1 <==> RunClear(mask, i, num))
      ensures flag >= 0 ==> mask[i + flag]
    {
      flag := -1;
      var j := num - 1;
      while j >= 0
        invariant -1 <= j < num && forall k | i + j < k < i + num :: !mask[k]
      {
        if mask[i + j] {
          return j;
        }
        j := j - 1;
      }
    }

    /** The scan of intr_alloc, which skips past the last vector in use that it met. */
    method FindRun(mask: seq<bool>, num: nat) returns (found: bool, st: nat)
      requires |mask| == VECTORS
      ensures found ==> LowestRun(mask, num, st)
      ensures !found ==> forall s | 0 <= s && s + num < VECTORS :: !RunClear(mask, s, num)
    {
      st := 0;
      while st + num < VECTORS
        invariant forall s | 0 <= s < st && s + num < VECTORS :: !RunClear(mask, s, num)
        decreases VECTORS - st
      {
        var flag := LastUsed(mask, st, num);
        if flag == -1 {
          return true, st;
        }
        forall s | st <= s <= st + flag && s + num < VECTORS ensures !RunClear(mask, s, num) {
          assert mask[st + flag];
        }
        st := st + flag + 1;
      }
      found := false;
    }

    /** intr_alloc */
    method Alloc(intrNum: nat) returns (ok: bool, cpu: nat, vec: nat)
      requires Valid()
      modifies this`out, msk, freeCnt, useCnt
      ensures Valid() && cpu < cpuNum
      ensures forall c | 0 <= c < cpuNum :: old(freeCnt[c]) <= old(freeCnt[cpu])
      ensures forall c | 0 <= c < cpu :: old(freeCnt[c]) < old(freeCnt[cpu])
      ensures ok <==> exists s :: 0 <= s && s + intrNum < VECTORS && RunClear(old(msk[cpu]), s, intrNum)
      ensures ok ==>
                LowestRun(old(msk[cpu]), intrNum, vec) &&
                msk[..] == old(msk[..])[cpu := SetRun(old(msk[cpu]), vec, intrNum, true)]
      ensures !ok ==> msk[..] == old(msk[..]) && freeCnt[..] == old(freeCnt[..])
      ensures out == if ok then old(out) + {(cpu, vec, intrNum)} else old(out)
      ensures old(Accounted(msk[..], out)) ==> Accounted(msk[..], out)
      ensures old(Accounted(msk[..], out)) ==>
                (ok <==> exists s :: 0 <= s && s + intrNum <= VECTORS && RunClear(old(msk[cpu]), s, intrNum))
      ensures old(Accounted(msk[..], out)) && ok && intrNum > 0 ==>
                64 <= vec && vec + intrNum <= 128 && (cpu, vec, intrNum) !in old(out)
    {
      hide Zeros, RunClear, Accounted, SetRun;
      vec := 0;
      cpu := BestCpu();
      forall s | 0 <= s && s + intrNum < VECTORS && RunClear(msk[cpu], s, intrNum) ensures intrNum <= freeCnt[cpu] {
        RunNeedsFree(msk[cpu], s, intrNum);
      }
      if Accounted(msk[..], out) { NoneMissed(msk[..], out, cpu, intrNum); }
      if freeCnt[cpu] < intrNum {
        return false, cpu, 0;
      }
      ok, vec := FindRun(msk[cpu], intrNum);
      if !ok {
        return;
      }
      ghost var mask := msk[cpu];
      AllClear(mask, vec, intrNum);
      ClearsRun(mask, vec, intrNum, true);
      freeCnt[cpu] := freeCnt[cpu] - intrNum;
      useCnt[cpu] := useCnt[cpu] + intrNum;
      if Accounted(msk[..], out) { TakeAccounted(msk[..], out, cpu, vec, intrNum); }
      MarkRun(cpu, vec, intrNum, true);
      out := out + {(cpu, vec, intrNum)};
    }

    /** The loops that set or clear the bits of a run. */
    method MarkRun(cpu: nat, vec: nat, num: nat, v: bool)
      requires cpu < msk.Length && vec + num <= |msk[cpu]|
      modifies msk
      ensures msk[..] == old(msk[..])[cpu := SetRun(old(msk[cpu]), vec, num, v)]
    {
      ghost var m0 := msk[cpu];
      for i := 0 to num
        invariant msk[..] == old(msk[..])[cpu := SetRun(m0, vec, i, v)]
      {
        msk[cpu] := msk[cpu][vec + i := v];
      }
    }

    /** intr_free.  Masks and counts go on agreeing exactly if all vectors of the run were in use. */
    method Free(cpu: nat, vec: nat, intrNum: nat)
      requires Valid() && cpu < cpuNum && vec + intrNum <= VECTORS
      modifies this`out, msk, freeCnt, useCnt
      ensures msk[..] == old(msk[..])[cpu := SetRun(old(msk[cpu]), vec, intrNum, false)]
      ensures freeCnt[..] == old(freeCnt[..])[cpu := old(freeCnt[cpu]) + intrNum]
      ensures useCnt[..] == old(useCnt[..])[cpu := (old(useCnt[cpu]) - intrNum) % 0x1_0000_0000]
      ensures Valid() <==> forall k | vec <= k < vec + intrNum :: old(msk[cpu][k])
      ensures out == old(out) - {(cpu, vec, intrNum)}
      ensures old(Accounted(msk[..], out)) && (cpu, vec, intrNum) in old(out) ==> Valid() && Accounted(msk[..], out)
    {
      hide Zeros, Accounted;
      if Accounted(msk[..], out) && (cpu, vec, intrNum) in out { GiveAccounted(msk[..], out, cpu, vec, intrNum); }
      ClearedRun(msk[cpu], vec, intrNum);
      ZerosMost(msk[cpu]);
      ZerosMost(SetRun(msk[cpu], vec, intrNum, false));
      MarkRun(cpu, vec, intrNum, false);
      freeCnt[cpu] := Word32(freeCnt[cpu] + intrNum);
      useCnt[cpu] := Word32(useCnt[cpu] - intrNum);
      assert msk[cpu] == SetRun(old(msk[cpu]), vec, intrNum, false);
      out := out - {(cpu, vec, intrNum)};
    }

    /** What is allocated and freed again leaves masks and counts as they were. */
    method AllocThenFree(intrNum: nat) returns (ok: bool)
      requires Valid()
      modifies this`out, msk, freeCnt, useCnt
      ensures Valid() && msk[..] == old(msk[..])
    {
      hide Zeros;
      var cpu, vec;
      ok, cpu, vec := Alloc(intrNum);
      if ok {
        FreeUndoes(old(msk[cpu]), vec, intrNum);
        Free(cpu, vec, intrNum);
      }
    }
  }

  lemma {:induction false} AllSet(mask: seq<bool>)
    requires forall k | 0 <= k < |mask| :: mask[k]
    ensures Zeros(mask) == 0
  {
    if mask != [] { AllSet(mask[..|mask| - 1]); }
  }

  lemma AllClear(mask: seq<bool>, st: nat, num: nat)
    requires RunClear(mask, st, num)
    ensures st + num <= |mask| && forall k | st <= k < st + num :: mask[k] != true
  {
  }
}

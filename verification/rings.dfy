/** The rings as code: the producer of kernel/hardware/usb/xhci/api.c, the event loop of
    kernel/hardware/usb/xhci/mgr.c and the completion loop of kernel/hardware/nvme/init.c.  An entry's
    data stands for what the entry carries and the request recorded beside it. */
module Rings {
  import opened Products
  import opened RingSpec
  import opened Wrappers

  class TransferRing {
    const size: nat
    const trbs: array<Entry>
    var curIdx: nat
    var cycBit: bool
    var load: nat
    ghost var base: nat
    ghost var log: seq<int>

    ghost function Snap(): Ring
      reads this, trbs
    {
      Ring(trbs[..], curIdx, cycBit, base, log)
    }

    ghost predicate Valid()
      reads this, trbs
    {
      trbs.Length == size && RingOk(Snap())
    }

    /** hw_usb_xhci_allocRing */
    constructor (sz: nat)
      requires sz >= 2
      ensures Valid() && size == sz && load == 0 && Snap() == NewRing(sz)
    {
      size := sz;
      trbs := new Entry[sz](_ => Entry(0, false));
      curIdx, load := 0, 0;
      cycBit := true;
      base, log := 0, [];
      new;
      assert trbs[..] == NewRing(sz).slots;
      NewRingOk(sz);
    }

    /** _tryInsReq */
    method TryInsReq(input: seq<int>) returns (ok: bool)
      requires Valid()
      modifies this, trbs
      ensures Valid() && (ok <==> old(load) + |input| <= size)
      ensures ok ==> load == old(load) + |input| && Snap() == InsertAll(old(Snap()), input) && log == old(log) + input
      ensures !ok ==> load == old(load) && Snap() == old(Snap())
    {
      hide RingOk, InsertOne, InsertAll;
      if load + |input| > size {
        return false;
      }
      ghost var r := Snap();
      Enough(r);
      InsertAllOk(r, input);
      load := load + |input|;
      var i := 0;
      assert input[0..] == input;
      while i < |input|
        invariant i <= |input| && trbs.Length == size >= 2 && curIdx < size
        invariant InsertAll(Snap(), input[i..]) == InsertAll(r, input)
        invariant load == old(load) + |input|
        decreases |input| - i, if curIdx + 1 == size then 1 else 0
      {
        ghost var r1 := Snap();
        if curIdx + 1 == size {
          trbs[curIdx] := trbs[curIdx].(bit := cycBit);
          base := base + curIdx;
          curIdx := 0;
          cycBit := !cycBit;
          assert Snap() == PassLink(r1);
          LinkFirst(r1, input[i..]);
          continue;
        }
        trbs[curIdx] := Entry(input[i], cycBit);
        log := log + [input[i]];
        curIdx := curIdx + 1;
        assert Snap() == Write(r1, input[i]);
        WriteFirst(r1, input[i..]);
        assert input[i..][1..] == input[i + 1..];
        i := i + 1;
      }
      assert input[i..] == [];
      InsertNone(Snap());
      ok := true;
    }
  }

  lemma {:induction false} InsertNone(r: Ring)
    requires r.cur < |r.slots| && |r.slots| >= 2
    ensures InsertAll(r, []) == r
  {
  }

  lemma {:induction false} LinkFirst(r: Ring, xs: seq<int>)
    requires |r.slots| >= 2 && r.cur + 1 == |r.slots| && xs != []
    ensures InsertAll(PassLink(r), xs) == InsertAll(r, xs)
  {
  }

  lemma {:induction false} WriteFirst(r: Ring, xs: seq<int>)
    requires |r.slots| >= 2 && r.cur + 1 < |r.slots| && xs != []
    ensures InsertAll(Write(r, xs[0]), xs[1..]) == InsertAll(r, xs)
  {
  }

  // ----- event ring -----

  /** The segments one after the other. */
  function Flat(segs: seq<seq<Entry>>): seq<Entry> {
    if segs == [] then [] else segs[0] + Flat(segs[1..])
  }

  function Offset(k: nat, sz: nat): nat { if k == 0 then 0 else sz + Offset(k - 1, sz) }

  lemma {:induction false} OffsetIs(k: nat, sz: nat)
    ensures Offset(k, sz) == k * sz
  {
    if k > 0 {
      OffsetIs(k - 1, sz);
      MulNext(k, sz);
    }
  }

  lemma {:induction false} FlatOffset(segs: seq<seq<Entry>>, sz: nat, k: nat, i: nat)
    requires (forall s | s in segs :: |s| == sz) && k < |segs| && i < sz
    ensures Offset(k, sz) + i < |Flat(segs)| && Flat(segs)[Offset(k, sz) + i] == segs[k][i]
  {
    assert segs[0] in segs;
    if k > 0 {
      FlatOffset(segs[1..], sz, k - 1, i);
      InRest(segs[0], Flat(segs[1..]), Offset(k - 1, sz) + i);
    }
  }

  lemma {:induction false} FlatAt(segs: seq<seq<Entry>>, sz: nat, k: nat, i: nat)
    requires (forall s | s in segs :: |s| == sz) && k < |segs| && i < sz
    ensures |Flat(segs)| == |segs| * sz && k * sz + i < |Flat(segs)| && Flat(segs)[k * sz + i] == segs[k][i]
  {
    hide Flat, Offset;
    FlatLength(segs, sz);
    FlatOffset(segs, sz, k, i);
    OffsetIs(k, sz);
  }

  lemma InRest(s: seq<Entry>, rest: seq<Entry>, j: nat)
    requires j < |rest|
    ensures (s + rest)[|s| + j] == rest[j]
  {
  }

  lemma SliceMore(s: seq<int>, a: nat, b: nat)
    requires a <= b < |s|
    ensures s[a..b] + [s[b]] == s[a..b + 1]
  {
  }

  lemma {:induction false} FlatLength(segs: seq<seq<Entry>>, sz: nat)
    requires forall s | s in segs :: |s| == sz
    ensures |Flat(segs)| == |segs| * sz
  {
    if segs != [] {
      assert segs[0] in segs;
      FlatLength(segs[1..], sz);
      MulNext(|segs|, sz);
    }
  }

  /** Freshly allocated segments. */
  function ZeroSegments(num: nat, sz: nat): seq<seq<Entry>> { seq(num, _ => seq(sz, _ => Entry(0, false))) }

  lemma FlatZero(num: nat, sz: nat)
    ensures Flat(ZeroSegments(num, sz)) == NewQueue(num * sz).slots
  {
    if num > 0 {
      FlatZero(num - 1, sz);
      assert ZeroSegments(num, sz)[1..] == ZeroSegments(num - 1, sz);
      MulNext(num, sz);
    }
  }

  class EventRing {
    const ringNum: nat
    const ringSz: nat
    var curRingIdx: nat
    var curIdx: nat
    var cycBit: bool
    ghost var base: nat

    ghost predicate Valid()
      reads this
    {
      ringNum > 0 && ringSz > 0 && curRingIdx < ringNum && curIdx < ringSz
    }

    ghost function Pos(): Reader
      reads this
    {
      Reader(curRingIdx * ringSz + curIdx, cycBit, base)
    }

    /** hw_usb_xhci_allocEveRing: over the zeroed segments driver and controller are in step. */
    constructor (num: nat, sz: nat)
      requires num > 0 && sz > 0
      ensures Valid() && ringNum == num && ringSz == sz && Pos() == Reader(0, true, 0)
      ensures num * sz > 0 && NewFeed(num * sz) == Feed(NewQueue(num * sz), Pos(), []) && FeedInv(NewFeed(num * sz))
      ensures NewQueue(num * sz).slots == Flat(ZeroSegments(num, sz))
    {
      ringNum, ringSz := num, sz;
      curRingIdx, curIdx, cycBit := 0, 0, true;
      base := 0;
      SegPos(0, 0, num, sz);
      NewFeedInv(num * sz);
      FlatZero(num, sz);
    }

    /** The increments of the event loop. */
    method StepOn()
      requires Valid()
      modifies this
      ensures Valid() && old(Pos()).at < ringNum * ringSz && Pos() == Step(ringNum * ringSz, old(Pos()))
    {
      SegPos(curRingIdx, curIdx, ringNum, ringSz);
      curIdx := curIdx + 1;
      if curIdx == ringSz {
        curRingIdx := curRingIdx + 1;
        if curRingIdx == ringNum {
          curRingIdx, cycBit := 0, !cycBit;
          base := base + ringNum * ringSz;
        }
        curIdx := 0;
      }
    }

    /** The test of the event loop, and the round behind it if it succeeds: the driver's step of a run,
        over the segments as they are then. */
    method PollOne(rings: seq<seq<Entry>>, ghost s: Feed) returns (e: Option<int>)
      requires Valid() && |rings| == ringNum && (forall r | r in rings :: |r| == ringSz)
      requires FeedOk(s) && s.q.slots == Flat(rings) && s.reader == Pos()
      modifies this
      ensures Valid() && Moved(s, Polled) == s.(reader := Pos(), got := s.got + if e.Some? then [e.value] else [])
      ensures e == None ==> Pos() == old(Pos())
    {
      FlatAt(rings, ringSz, curRingIdx, curIdx);
      e := None;
      if rings[curRingIdx][curIdx].bit == cycBit {
        e := Some(rings[curRingIdx][curIdx].data);
        StepOn();
      }
    }

    /** The event loop of hw_usb_xhci_msiHandler.  view(k) is what the segments hold at the k-th test, posts(k)
        what the controller has posted since the test before.  The loop takes every event once, in order,
        and stops behind the last that is there at its last test. */
    method Poll(view: nat -> seq<seq<Entry>>, ghost q: Queue, ghost posts: nat -> seq<int>, ghost last: nat)
      returns (events: seq<int>)
      requires Valid() && QueueOk(q) && Trails(q, Pos()) && Paced(q, posts, Taken(Pos()), last)
      requires forall k: nat :: ShowsAt(view(k), ringNum, ringSz, QueueAt(q, posts, k))
      modifies this
      ensures Valid() && Trails(QueueAt(q, posts, |events|), Pos())
      ensures old(Taken(Pos())) <= |QueueAt(q, posts, |events|).log|
      ensures events == QueueAt(q, posts, |events|).log[old(Taken(Pos()))..]
      ensures Taken(Pos()) == |QueueAt(q, posts, |events|).log|
    {
      hide AtTest, Paced, QueueAt, Moved, Taken, Trails, QueueOk, Flat;
      events := [];
      AllDue(q, Pos());
      Starts(q, Pos(), posts, last);
      ghost var s, n0 := Started(q, Pos(), posts), Taken(Pos());
      while true
        invariant Valid() && FeedOk(s) && s.q.cur < |s.q.slots| && AtTest(s, q, posts, events, n0, Pos())
        decreases last - |events|
      {
        AtTestIs(s, q, posts, events, n0, Pos());
        assert ShowsAt(view(|events|), ringNum, ringSz, s.q);
        var e := PollOne(view(|events|), s);
        if e == None {
          LastTest(s, q, posts, events, n0, last);
          return;
        }
        NextTest(s, q, posts, events, n0, last, e.value);
        events := events + [e.value];
        s := Moved(s, Polled).(q := QueueAt(q, posts, |events|));
      }
    }
  }

  /** A round takes the entry that is due, or none is. */
  lemma PolledStep(s: Feed, n0: nat)
    requires FeedInv(s) && FeedOk(s) && n0 <= Taken(s.reader) <= |s.q.log|
    ensures var (s1, n) := (Moved(s, Polled), Taken(s.reader));
            && FeedInv(s1) && s1.q == s.q && Taken(s1.reader) <= |s.q.log|
            && (if n < |s.q.log| then
                  && Taken(s1.reader) == n + 1 && s1.got == s.got + [s.q.log[n]]
                  && s.q.log[n0..n] + [s.q.log[n]] == s.q.log[n0..n + 1]
                else s1 == s)
  {
    hide QueueOk, Trails;
    SeesDue(s.q, s.reader, 0);
    MoveInv(s, Polled, 0);
    if Taken(s.reader) < |s.q.log| { SliceMore(s.q.log, n0, Taken(s.reader)); }
  }

  /** The segments, laid end to end, hold the entries of the queue. */
  ghost predicate ShowsAt(rings: seq<seq<Entry>>, num: nat, sz: nat, q: Queue) {
    |rings| == num && (forall s | s in rings :: |s| == sz) && Flat(rings) == q.slots
  }

  /** Where the driver's loop starts: at its first test. */
  ghost function Started(q: Queue, r: Reader, posts: nat -> seq<int>): Feed
    requires q.cur < |q.slots| && Taken(r) <= |q.log|
  {
    Feed(QueueAt(q, posts, 0), r, q.log[..Taken(r)])
  }

  /** The driver r is at its next test after taking `taken` from the n0-th entry on. */
  ghost predicate AtTest(s: Feed, q: Queue, posts: nat -> seq<int>, taken: seq<int>, n0: nat, r: Reader)
    requires q.cur < |q.slots|
  {
    && FeedInv(s) && FeedOk(s) && s.q == QueueAt(q, posts, |taken|) && s.reader == r
    && Taken(r) == n0 + |taken| <= |s.q.log| && taken == s.q.log[n0..n0 + |taken|]
  }

  lemma {:induction false} AtTestIs(s: Feed, q: Queue, posts: nat -> seq<int>, taken: seq<int>, n0: nat, r: Reader)
    requires q.cur < |q.slots| && AtTest(s, q, posts, taken, n0, r)
    ensures FeedOk(s) && s.q == QueueAt(q, posts, |taken|) && s.reader == r
  {
  }

  lemma Starts(q: Queue, r: Reader, posts: nat -> seq<int>, last: nat)
    requires QueueOk(q) && Trails(q, r) && q.cur < |q.slots| && Paced(q, posts, Taken(r), last)
    ensures Taken(r) <= |q.log| && FeedOk(Started(q, r, posts))
    ensures AtTest(Started(q, r, posts), q, posts, [], Taken(r), r)
  {
    hide QueueOk, Trails;
    AllDue(q, r);
    assert |QueueAt(q, posts, 0).log| <= Taken(r) + 0 + |q.slots|;
    PostAllInv(Feed(q, r, q.log[..Taken(r)]), posts(0));
    FeedInStep(Started(q, r, posts));
  }

  /** The driver took an entry and is at its next test. */
  lemma {:induction false} NextTest(s: Feed, q: Queue, posts: nat -> seq<int>, taken: seq<int>, n0: nat, last: nat,
                                    x: int)
    requires q.cur < |q.slots| && FeedOk(s) && AtTest(s, q, posts, taken, n0, s.reader) && Paced(q, posts, n0, last)
    requires Moved(s, Polled).got == s.got + [x]
    ensures |taken| < last && FeedOk(Moved(s, Polled).(q := QueueAt(q, posts, |taken| + 1)))
    ensures AtTest(Moved(s, Polled).(q := QueueAt(q, posts, |taken| + 1)), q, posts, taken + [x], n0,
              Moved(s, Polled).reader)
  {
    hide FeedInv, Moved, QueueAt, Paced, Trails, Taken;
    RoundDone(s, q, posts, |taken|, n0, last);
    assert |Moved(s, Polled).got| == |s.got| + 1;
    TakeOne(s, Moved(s, Polled), QueueAt(q, posts, |taken| + 1), taken, x, n0);
  }

  /** It took none: it has taken everything that was there. */
  lemma LastTest(s: Feed, q: Queue, posts: nat -> seq<int>, taken: seq<int>, n0: nat, last: nat)
    requires q.cur < |q.slots| && FeedOk(s) && AtTest(s, q, posts, taken, n0, s.reader) && Paced(q, posts, n0, last)
    requires Moved(s, Polled).got == s.got
    ensures Trails(s.q, s.reader) && n0 <= |s.q.log| && taken == s.q.log[n0..] && Taken(s.reader) == |s.q.log|
  {
    hide FeedInv, Moved, QueueAt, Paced, Trails, Taken;
    RoundDone(s, q, posts, |taken|, n0, last);
  }

  /** What is posted before the next test. */
  lemma Arrives(s: Feed, q: Queue, posts: nat -> seq<int>, k: nat, n0: nat, last: nat)
    requires FeedInv(s) && FeedOk(s) && q.cur < |q.slots| && k > 0 && s.q == QueueAt(q, posts, k - 1)
    requires Paced(q, posts, n0, last) && Taken(s.reader) == n0 + k <= |s.q.log|
    ensures var s' := s.(q := QueueAt(q, posts, k));
            FeedInv(s') && FeedOk(s') && |s.q.log| <= |s'.q.log| <= last && s'.q.log[..|s.q.log|] == s.q.log
  {
    hide FeedInv;
    assert |QueueAt(q, posts, k).log| <= n0 + k + |q.slots|;
    PostAllInv(s, posts(k));
    FeedInStep(s.(q := QueueAt(q, posts, k)));
  }

  /** A round of the loop: it takes an entry, and others may arrive, or it was the last. */
  lemma RoundDone(s: Feed, q: Queue, posts: nat -> seq<int>, k: nat, n0: nat, last: nat)
    requires FeedInv(s) && FeedOk(s) && q.cur < |q.slots| && s.q == QueueAt(q, posts, k)
    requires Paced(q, posts, n0, last) && Taken(s.reader) == n0 + k <= |s.q.log|
    ensures var (s1, n) := (Moved(s, Polled), n0 + k);
            if n == |s.q.log| then s1 == s && Trails(s.q, s.reader)
            else
              var s' := s1.(q := QueueAt(q, posts, k + 1));
              && FeedInv(s') && FeedOk(s') && Taken(s1.reader) == n + 1 <= |s'.q.log| <= last && n < last
              && s1.got == s.got + [s.q.log[n]] && s1.got[|s.got|] == s.q.log[n]
              && s.q.log[n0..n] + [s.q.log[n]] == s'.q.log[n0..n + 1]
  {
    hide QueueOk, Trails, Moved, QueueAt, Taken;
    PolledStep(s, n0);
    if n0 + k < |s.q.log| {
      Arrives(Moved(s, Polled), q, posts, k + 1, n0, last);
      SamePart(s.q.log, QueueAt(q, posts, k + 1).log, n0, n0 + k + 1);
    }
  }

  lemma TakeOne(s: Feed, s1: Feed, q: Queue, taken: seq<int>, x: int, n0: nat)
    requires s1.got == s.got + [x] && n0 + |taken| < |s.q.log| && taken == s.q.log[n0..n0 + |taken|]
    requires s1.got[|s.got|] == s.q.log[n0 + |taken|] && n0 + |taken| + 1 <= |q.log|
    requires s.q.log[n0..n0 + |taken|] + [s.q.log[n0 + |taken|]] == q.log[n0..n0 + |taken| + 1]
    ensures taken + [x] == q.log[n0..n0 + |taken + [x]|]
  {
  }

  lemma SamePart(s: seq<int>, s': seq<int>, a: nat, b: nat)
    requires a <= b <= |s| <= |s'| && s'[..|s|] == s
    ensures s[a..b] == s'[a..b]
  {
    assert s'[..|s|][a..b] == s'[a..b];
  }

  lemma AllDue(q: Queue, r: Reader)
    requires QueueOk(q) && Trails(q, r)
    ensures Taken(r) <= |q.log| && q.cur < |q.slots| && r.at < |q.slots|
  {
  }

  /** Where the increments lead in the segments laid end to end. */
  lemma SegPos(k: nat, i: nat, num: nat, sz: nat)
    requires k < num && i < sz
    ensures k * sz + i < num * sz && (i + 1 == sz ==> (k + 1) * sz == k * sz + i + 1)
    ensures k * sz + i + 1 == num * sz <==> i + 1 == sz && k + 1 == num
  {
    var a, b, d := k * sz, num * sz, num - k - 1;
    assert b == a + sz + d * sz;
    assert d > 0 ==> d * sz >= sz;
  }

  // ----- completion queue -----

  class CompletionQueue {
    const size: nat
    var pos: nat
    var phase: bool
    ghost var base: nat

    ghost predicate Valid()
      reads this
    {
      pos < size
    }

    ghost function Pos(): Reader
      reads this
    {
      Reader(pos, phase, base)
    }

    constructor (sz: nat)
      requires sz > 0
      ensures Valid() && size == sz && Pos() == Reader(0, true, 0)
      ensures NewFeed(sz) == Feed(NewQueue(sz), Pos(), []) && FeedInv(NewFeed(sz))
    {
      hide FeedInv;
      size, pos, phase, base := sz, 0, true, 0;
      NewFeedInv(sz);
    }

    /** The test of the completion loop, and the round behind it if it succeeds. */
    method PollOne(entries: seq<Entry>, ghost s: Feed) returns (e: Option<int>)
      requires Valid() && |entries| == size && FeedOk(s) && s.q.slots == entries && s.reader == Pos()
      modifies this
      ensures Valid() && Moved(s, Polled) == s.(reader := Pos(), got := s.got + if e.Some? then [e.value] else [])
      ensures e == None ==> Pos() == old(Pos())
    {
      e := None;
      if entries[pos].bit == phase {
        e := Some(entries[pos].data);
        pos := pos + 1;
        if pos == size {
          phase, pos := !phase, 0;
          base := base + size;
        }
      }
    }

    /** The completion loop of hw_nvme_msiHandler (section 4.6 of NVMe 1.4), with entries posted meanwhile. */
    method Poll(view: nat -> seq<Entry>, ghost q: Queue, ghost posts: nat -> seq<int>, ghost last: nat)
      returns (done: seq<int>)
      requires Valid() && QueueOk(q) && Trails(q, Pos()) && Paced(q, posts, Taken(Pos()), last)
      requires forall k: nat :: |view(k)| == size && view(k) == QueueAt(q, posts, k).slots
      modifies this
      ensures Valid() && Trails(QueueAt(q, posts, |done|), Pos())
      ensures old(Taken(Pos())) <= |QueueAt(q, posts, |done|).log|
      ensures done == QueueAt(q, posts, |done|).log[old(Taken(Pos()))..]
      ensures Taken(Pos()) == |QueueAt(q, posts, |done|).log|
    {
      hide AtTest, Paced, QueueAt, Moved, Taken, Trails, QueueOk;
      done := [];
      AllDue(q, Pos());
      Starts(q, Pos(), posts, last);
      ghost var s, n0 := Started(q, Pos(), posts), Taken(Pos());
      while true
        invariant Valid() && FeedOk(s) && s.q.cur < |s.q.slots| && AtTest(s, q, posts, done, n0, Pos())
        decreases last - |done|
      {
        AtTestIs(s, q, posts, done, n0, Pos());
        var e := PollOne(view(|done|), s);
        if e == None {
          LastTest(s, q, posts, done, n0, last);
          return;
        }
        NextTest(s, q, posts, done, n0, last, e.value);
        done := done + [e.value];
        s := Moved(s, Polled).(q := QueueAt(q, posts, |done|));
      }
    }
  }
}

/** Rings whose entries carry the generation (cycle, phase) bit of the lap they were written in. */
module RingSpec {
  import opened Wrappers

  datatype Entry = Entry(data: int, bit: bool)

  // ----- a ring with a link entry: the transfer and command rings of the host controller -----

  /** The producer: ring->trbs, curIdx and cycBit.  `base` is the number of data entries written
      before the current lap, `log` all of them in order. */
  datatype Ring = Ring(slots: seq<Entry>, cur: nat, bit: bool, base: nat, log: seq<int>)

  /** Data entries per lap; the last slot holds the link. */
  function Lap(r: Ring): int { |r.slots| - 1 }

  /** This lap's entries come first, then those of the lap before; the link carries the bit of the last
      lap that was completed. */
  ghost predicate RingOk(r: Ring) {
    && |r.slots| >= 2 && r.cur <= Lap(r) && |r.log| == r.base + r.cur
    && (r.base == 0 || (r.base >= Lap(r) && r.cur > 0)) && (r.base == 0 ==> r.bit)
    && (forall i | 0 <= i < r.cur :: r.slots[i] == Entry(r.log[r.base + i], r.bit))
    && (forall i | r.cur <= i < Lap(r) ::
          if r.base == 0 then !r.slots[i].bit else r.slots[i] == Entry(r.log[r.base - Lap(r) + i], !r.bit))
    && r.slots[Lap(r)].bit == (r.base > 0 && !r.bit)
  }

  /** hw_usb_xhci_allocRing */
  function NewRing(size: nat): Ring
    requires size >= 2
  {
    Ring(seq(size, _ => Entry(0, false)), 0, true, 0, [])
  }

  /** The link entry is handed over and the next lap begins. */
  function PassLink(r: Ring): Ring
    requires |r.slots| >= 2
  {
    r.(slots := r.slots[|r.slots| - 1 := r.slots[|r.slots| - 1].(bit := r.bit)], cur := 0, bit := !r.bit,
        base := r.base + r.cur)
  }

  /** One round of the loop of _tryInsReq that writes an entry. */
  function Write(r: Ring, x: int): Ring
    requires r.cur < |r.slots|
  {
    r.(slots := r.slots[r.cur := Entry(x, r.bit)], cur := r.cur + 1, log := r.log + [x])
  }

  function InsertOne(r: Ring, x: int): Ring
    requires |r.slots| >= 2 && r.cur < |r.slots|
  {
    if r.cur + 1 == |r.slots| then Write(PassLink(r), x) else Write(r, x)
  }

  function InsertAll(r: Ring, xs: seq<int>): (s: Ring)
    requires |r.slots| >= 2 && r.cur < |r.slots|
    ensures |s.slots| == |r.slots| && s.cur < |s.slots|
    decreases |xs|
  {
    if xs == [] then r else InsertAll(InsertOne(r, xs[0]), xs[1..])
  }

  lemma NewRingOk(size: nat)
    requires size >= 2
    ensures RingOk(NewRing(size))
  {
  }

  /** Between the link and the entry after it. */
  ghost predicate Linked(r: Ring) {
    && |r.slots| >= 2 && r.cur == 0 && |r.log| == r.base >= Lap(r)
    && (forall i | 0 <= i < Lap(r) :: r.slots[i] == Entry(r.log[r.base - Lap(r) + i], !r.bit))
    && r.slots[Lap(r)].bit == !r.bit
  }

  lemma PassLinkOk(r: Ring)
    requires RingOk(r) && r.cur == Lap(r)
    ensures Linked(PassLink(r)) && Lap(PassLink(r)) == Lap(r)
  {
  }

  lemma WriteOk(r: Ring, x: int)
    requires (RingOk(r) && r.cur < Lap(r)) || Linked(r)
    ensures RingOk(Write(r, x))
  {
  }

  lemma InsertOneOk(r: Ring, x: int)
    requires RingOk(r)
    ensures RingOk(InsertOne(r, x)) && InsertOne(r, x).log == r.log + [x] && Lap(InsertOne(r, x)) == Lap(r)
  {
    hide Linked;
    if r.cur == Lap(r) {
      PassLinkOk(r);
      WriteOk(PassLink(r), x);
    } else {
      WriteOk(r, x);
    }
  }

  lemma {:induction false} InsertAllOk(r: Ring, xs: seq<int>)
    requires RingOk(r)
    ensures RingOk(InsertAll(r, xs)) && InsertAll(r, xs).log == r.log + xs && Lap(InsertAll(r, xs)) == Lap(r)
    decreases |xs|
  {
    hide RingOk, InsertOne;
    if xs == [] {
      assert r.log + xs == r.log;
    } else {
      Enough(r);
      InsertOneOk(r, xs[0]);
      Enough(InsertOne(r, xs[0]));
      InsertAllOk(InsertOne(r, xs[0]), xs[1..]);
      assert r.log + [xs[0]] + xs[1..] == r.log + xs;
    }
  }

  lemma Enough(r: Ring)
    requires RingOk(r)
    ensures |r.slots| >= 2 && r.cur < |r.slots|
  {
  }

  // ----- the controller as consumer (sections 4.9.2 and 4.9.4 of the xHCI 1.1 specification) -----

  /** Dequeue position and consumer cycle state; `base` counts the entries of the laps it finished. */
  datatype Reader = Reader(at: nat, bit: bool, base: nat)

  function Taken(q: Reader): nat { q.base + q.at }

  /** A link that is handed over is followed; an entry is the consumer's if its bit is the expected
      one. */
  function Follow(r: Ring, q: Reader): Reader
    requires |r.slots| >= 2 && q.at < |r.slots|
  {
    if q.at == |r.slots| - 1 && r.slots[q.at].bit == q.bit then Reader(0, !q.bit, q.base + q.at) else q
  }

  /** What the consumer finds next. */
  function Fetch(r: Ring, q: Reader): Option<int>
    requires |r.slots| >= 2 && q.at < |r.slots|
  {
    var f := Follow(r, q);
    if f.at < |r.slots| - 1 && r.slots[f.at].bit == f.bit then Some(r.slots[f.at].data) else None
  }

  function Advance(r: Ring, q: Reader): Reader
    requires |r.slots| >= 2 && q.at < |r.slots|
  {
    var f := Follow(r, q);
    if f.at < |r.slots| - 1 && r.slots[f.at].bit == f.bit then f.(at := f.at + 1) else f
  }

  /** The consumer is at most two laps behind, and its bit is that of its lap. */
  ghost predicate Behind(r: Ring, q: Reader) {
    && q.at <= Lap(r) && Taken(q) <= |r.log|
    && ((q.base == r.base && q.bit == r.bit) || (q.base == r.base - Lap(r) && q.bit == !r.bit)
        || (q.base == r.base - 2 * Lap(r) && q.bit == r.bit && q.at == Lap(r) && r.cur == 1))
  }

  /** With at most one entry too many outstanding, the consumer finds the entry that is due, or
      nothing when all are taken, exactly if no more than a lap is outstanding. */
  lemma FetchExact(r: Ring, q: Reader)
    requires RingOk(r) && Behind(r, q) && |r.log| <= Taken(q) + Lap(r) + 1
    ensures Fetch(r, q) == (if Taken(q) < |r.log| then Some(r.log[Taken(q)]) else None) <==>
              |r.log| <= Taken(q) + Lap(r)
  {
  }

  lemma AdvanceBehind(r: Ring, q: Reader)
    requires RingOk(r) && Behind(r, q) && |r.log| <= Taken(q) + Lap(r)
    ensures Behind(r, Advance(r, q)) && Taken(Advance(r, q)) == Taken(q) + (if Taken(q) < |r.log| then 1 else 0)
  {
  }

  lemma InsertBehind(r: Ring, q: Reader, x: int)
    requires RingOk(r) && Behind(r, q) && |r.log| <= Taken(q) + Lap(r)
    ensures RingOk(InsertOne(r, x)) && Behind(InsertOne(r, x), q)
  {
    InsertOneOk(r, x);
  }

  // ----- runs -----

  /** Driver and controller: what the controller has taken, and the entries not yet answered. */
  datatype Sys = Sys(ring: Ring, reader: Reader, got: seq<int>, load: nat)

  datatype Action = Insert(xs: seq<int>) | Take | Answer(n: nat)

  ghost predicate SysOk(s: Sys) { |s.ring.slots| >= 2 && s.ring.cur < |s.ring.slots| && s.reader.at < |s.ring.slots| }

  /** A request is accepted if it keeps the load within the limit; the controller answers what it has
      taken. */
  ghost predicate Enabled(s: Sys, a: Action, limit: nat) {
    match a
    case Insert(xs) => s.load + |xs| <= limit
    case Take => true
    case Answer(n) => n + |s.ring.log| <= s.load + Taken(s.reader)
  }

  ghost function Next(s: Sys, a: Action): Sys
    requires SysOk(s)
  {
    match a
    case Insert(xs) => s.(ring := InsertAll(s.ring, xs), load := s.load + |xs|)
    case Take =>
      var f := Fetch(s.ring, s.reader);
      s.(reader := Advance(s.ring, s.reader), got := if f.Some? then s.got + [f.value] else s.got)
    case Answer(n) => if n <= s.load then s.(load := s.load - n) else s
  }

  ghost predicate CanRun(s: Sys, acts: seq<Action>, limit: nat)
    decreases |acts|
  {
    SysOk(s) && (acts != [] ==> Enabled(s, acts[0], limit) && CanRun(Next(s, acts[0]), acts[1..], limit))
  }

  ghost function After(s: Sys, acts: seq<Action>, limit: nat): (r: Sys)
    requires CanRun(s, acts, limit)
    ensures SysOk(r)
    decreases |acts|
  {
    if acts == [] then s else After(Next(s, acts[0]), acts[1..], limit)
  }

  function Start(size: nat): Sys
    requires size >= 2
  {
    Sys(NewRing(size), Reader(0, true, 0), [], 0)
  }

  /** The controller has taken the first entries in order, and what it finds next is the entry that is
      due, or nothing exactly when all are taken. */
  ghost predicate Fifo(s: Sys)
    requires SysOk(s)
  {
    && Taken(s.reader) <= |s.ring.log| && s.got == s.ring.log[..Taken(s.reader)]
    && Fetch(s.ring, s.reader) == if Taken(s.reader) < |s.ring.log| then Some(s.ring.log[Taken(s.reader)]) else None
  }

  ghost predicate Inv(s: Sys, limit: nat) {
    && RingOk(s.ring) && Behind(s.ring, s.reader) && s.got == s.ring.log[..Taken(s.reader)]
    && |s.ring.log| - Taken(s.reader) <= s.load <= limit
  }

  lemma InvFifo(s: Sys, limit: nat)
    requires Inv(s, limit) && limit <= Lap(s.ring)
    ensures SysOk(s) && Fifo(s)
  {
    hide RingOk, Behind, Fetch;
    Enough(s.ring);
    BehindAt(s.ring, s.reader);
    FetchExact(s.ring, s.reader);
  }

  lemma BehindAt(r: Ring, q: Reader)
    requires RingOk(r) && Behind(r, q)
    ensures |r.slots| >= 2 && q.at < |r.slots| && Taken(q) <= |r.log|
  {
  }

  lemma {:induction false} InsertAllBehind(r: Ring, q: Reader, xs: seq<int>)
    requires RingOk(r) && Behind(r, q) && |r.log| + |xs| <= Taken(q) + Lap(r)
    ensures RingOk(InsertAll(r, xs)) && Behind(InsertAll(r, xs), q)
    decreases |xs|
  {
    hide RingOk, Behind, InsertOne;
    Enough(r);
    if xs != [] {
      InsertOneOk(r, xs[0]);
      InsertBehind(r, q, xs[0]);
      Enough(InsertOne(r, xs[0]));
      InsertAllBehind(InsertOne(r, xs[0]), q, xs[1..]);
    }
  }

  lemma StepInv(s: Sys, a: Action, limit: nat)
    requires Inv(s, limit) && limit <= Lap(s.ring) && SysOk(s) && Enabled(s, a, limit)
    ensures Inv(Next(s, a), limit) && SysOk(Next(s, a)) && Lap(Next(s, a).ring) == Lap(s.ring)
  {
    hide RingOk, Behind, Fetch, Advance, InsertAll;
    BehindAt(s.ring, s.reader);
    match a
    case Insert(xs) =>
      InsertAllBehind(s.ring, s.reader, xs);
      InsertAllOk(s.ring, xs);
      Enough(Next(s, a).ring);
    case Take =>
      FetchExact(s.ring, s.reader);
      AdvanceBehind(s.ring, s.reader);
      BehindAt(s.ring, Advance(s.ring, s.reader));
      if Taken(s.reader) < |s.ring.log| {
        assert s.ring.log[..Taken(s.reader)] + [s.ring.log[Taken(s.reader)]] == s.ring.log[..Taken(s.reader) + 1];
      }
    case Answer(n) =>
  }

  lemma {:induction false} RunInv(s: Sys, acts: seq<Action>, limit: nat)
    requires Inv(s, limit) && limit <= Lap(s.ring) && CanRun(s, acts, limit)
    ensures Inv(After(s, acts, limit), limit) && Lap(After(s, acts, limit).ring) == Lap(s.ring)
    decreases |acts|
  {
    hide Inv, Next, Enabled;
    if acts != [] {
      StepInv(s, acts[0], limit);
      RunInv(Next(s, acts[0]), acts[1..], limit);
    }
  }

  lemma StartInv(size: nat, limit: nat)
    requires size >= 2
    ensures Inv(Start(size), limit) && Lap(Start(size).ring) == size - 1
  {
    NewRingOk(size);
  }

  function Overfill(size: nat): seq<Action>
    requires size >= 2
  {
    [Insert(seq(size - 1, _ => 7)), Insert([8])]
  }

  /** `size` entries, as the driver's own test allows, hide the first of them from the controller. */
  lemma {:induction false} OneTooMany(size: nat, limit: nat)
    requires size >= 2 && limit >= size
    ensures CanRun(Start(size), Overfill(size), limit) && !Fifo(After(Start(size), Overfill(size), limit))
  {
    hide RingOk, Behind, Fetch, InsertAll, InsertOne, NewRing;
    var s0, xs := Start(size), seq(size - 1, _ => 7);
    var acts := Overfill(size);
    StartInv(size, size - 1);
    Enough(s0.ring);
    StepInv(s0, acts[0], size - 1);
    var s1 := Next(s0, acts[0]);
    InsertAllOk(s0.ring, xs);
    InsertBehind(s1.ring, s1.reader, 8);
    InsertOneOk(s1.ring, 8);
    Single(s1.ring, 8);
    var s2 := Next(s1, acts[1]);
    Enough(s2.ring);
    assert CanRun(s2, [], limit) && After(s2, [], limit) == s2;
    assert acts[1..] == [acts[1]] && acts[1..][1..] == [];
    FetchExact(s2.ring, s2.reader);
  }

  lemma {:induction false} Single(r: Ring, x: int)
    requires RingOk(r)
    ensures InsertAll(r, [x]) == InsertOne(r, x)
  {
    hide InsertOne;
    assert [x][1..] == [];
  }

  /** The ring is a queue in every run exactly if at most size - 1 entries are outstanding: the test of
      _tryInsReq, which lets `size` of them in, is off by the slot of the link. */
  lemma QueueExactly(size: nat, limit: nat)
    requires size >= 2
    ensures (forall acts | CanRun(Start(size), acts, limit) :: Fifo(After(Start(size), acts, limit))) <==>
              limit <= size - 1
  {
    hide CanRun, After, Fifo, Inv;
    if limit <= size - 1 {
      forall acts | CanRun(Start(size), acts, limit) ensures Fifo(After(Start(size), acts, limit)) {
        StartInv(size, limit);
        RunInv(Start(size), acts, limit);
        InvFifo(After(Start(size), acts, limit), limit);
      }
    } else {
      OneTooMany(size, limit);
    }
  }

  // ----- a ring without a link: event rings and completion queues -----

  /** The controller's side: the next entry goes to slot cur with the bit of its lap. */
  datatype Queue = Queue(slots: seq<Entry>, cur: nat, bit: bool, base: nat, log: seq<int>)

  ghost predicate QueueOk(q: Queue) {
    && q.cur < |q.slots| && |q.log| == q.base + q.cur && (q.base == 0 ==> q.bit) && (q.base == 0 || q.base >= |q.slots|)
    && (forall i | 0 <= i < q.cur :: q.slots[i] == Entry(q.log[q.base + i], q.bit))
    && forall i | q.cur <= i < |q.slots| ::
         if q.base == 0 then !q.slots[i].bit else q.slots[i] == Entry(q.log[q.base - |q.slots| + i], !q.bit)
  }

  function Post(q: Queue, x: int): Queue
    requires q.cur < |q.slots|
  {
    var q1 := q.(slots := q.slots[q.cur := Entry(x, q.bit)], log := q.log + [x]);
    if q.cur + 1 == |q.slots| then q1.(cur := 0, bit := !q.bit, base := q.base + |q.slots|) else q1.(cur := q.cur + 1)
  }

  /** The driver has taken r.base + r.at entries and is at most one lap behind. */
  ghost predicate Trails(q: Queue, r: Reader) {
    && r.at < |q.slots| && Taken(r) <= |q.log| <= Taken(r) + |q.slots|
    && ((r.base == q.base && r.bit == q.bit) || (r.base == q.base - |q.slots| && r.bit == !q.bit))
  }

  /** One entry is taken. */
  function Step(n: nat, r: Reader): Reader
    requires r.at < n
  {
    if r.at + 1 == n then Reader(0, !r.bit, r.base + n) else r.(at := r.at + 1)
  }

  /** The driver sees an entry exactly when one is due, it is the right one, and taking it or posting
      another within the capacity keeps this so. */
  lemma SeesDue(q: Queue, r: Reader, x: int)
    requires QueueOk(q) && Trails(q, r)
    ensures q.slots[r.at].bit == r.bit <==> Taken(r) < |q.log|
    ensures Taken(r) < |q.log| ==>
              q.slots[r.at].data == q.log[Taken(r)] && Trails(q, Step(|q.slots|, r)) &&
              Taken(Step(|q.slots|, r)) == Taken(r) + 1
    ensures QueueOk(Post(q, x)) && Post(q, x).log == q.log + [x]
    ensures Trails(Post(q, x), r) <==> |q.log| < Taken(r) + |q.slots|
  {
    PostOk(q, x);
  }

  lemma PostOk(q: Queue, x: int)
    requires QueueOk(q)
    ensures QueueOk(Post(q, x)) && |Post(q, x).slots| == |q.slots|
  {
  }

  /** Zeroed entries, as hw_usb_xhci_allocEveRing and the NVMe set-up leave them. */
  function NewQueue(n: nat): Queue { Queue(seq(n, _ => Entry(0, false)), 0, true, 0, []) }

  lemma NewQueueOk(n: nat)
    requires n > 0
    ensures QueueOk(NewQueue(n)) && Trails(NewQueue(n), Reader(0, true, 0))
  {
  }

  /** Controller and driver: what the driver has taken. */
  datatype Feed = Feed(q: Queue, reader: Reader, got: seq<int>)

  /** The controller posts an entry; the driver does one round of its loop. */
  datatype Move = Posted(x: int) | Polled

  ghost predicate FeedOk(s: Feed) { s.q.cur < |s.q.slots| && s.reader.at < |s.q.slots| }

  /** The controller keeps at most `limit` entries outstanding. */
  ghost predicate MayMove(s: Feed, a: Move, limit: nat) { a.Posted? ==> |s.q.log| < Taken(s.reader) + limit }

  ghost function Moved(s: Feed, a: Move): (r: Feed)
    requires FeedOk(s)
    ensures FeedOk(r)
  {
    match a
    case Posted(x) => s.(q := Post(s.q, x))
    case Polled =>
      var e := s.q.slots[s.reader.at];
      if e.bit != s.reader.bit then s
      else s.(reader := Step(|s.q.slots|, s.reader), got := s.got + [e.data])
  }

  ghost predicate MayRun(s: Feed, acts: seq<Move>, limit: nat)
    decreases |acts|
  {
    FeedOk(s) && (acts != [] ==> MayMove(s, acts[0], limit) && MayRun(Moved(s, acts[0]), acts[1..], limit))
  }

  ghost function Ran(s: Feed, acts: seq<Move>, limit: nat): (r: Feed)
    requires MayRun(s, acts, limit)
    ensures FeedOk(r)
    decreases |acts|
  {
    if acts == [] then s else Ran(Moved(s, acts[0]), acts[1..], limit)
  }

  function NewFeed(n: nat): Feed { Feed(NewQueue(n), Reader(0, true, 0), []) }

  /** The driver has taken the first entries, each once and in order; it sees a further one exactly when
      one is due, and that one. */
  ghost predicate InStep(s: Feed)
    requires FeedOk(s)
  {
    var (n, e) := (Taken(s.reader), s.q.slots[s.reader.at]);
    && n <= |s.q.log| && s.got == s.q.log[..n]
    && (e.bit == s.reader.bit <==> n < |s.q.log|) && (n < |s.q.log| ==> e.data == s.q.log[n])
  }

  ghost predicate FeedInv(s: Feed) { QueueOk(s.q) && Trails(s.q, s.reader) && s.got == s.q.log[..Taken(s.reader)] }

  lemma FeedInStep(s: Feed)
    requires FeedInv(s)
    ensures FeedOk(s) && InStep(s)
  {
    SeesDue(s.q, s.reader, 0);
  }

  lemma MoveInv(s: Feed, a: Move, limit: nat)
    requires FeedInv(s) && FeedOk(s) && MayMove(s, a, limit) && limit <= |s.q.slots|
    ensures FeedInv(Moved(s, a)) && |Moved(s, a).q.slots| == |s.q.slots|
  {
    hide QueueOk, Trails;
    FeedInStep(s);
    SeesDue(s.q, s.reader, if a.Posted? then a.x else 0);
    if a.Posted? { PostOk(s.q, a.x); }
  }

  /** The controller posts several entries. */
  ghost function PostAll(q: Queue, xs: seq<int>): (r: Queue)
    requires q.cur < |q.slots|
    ensures r.cur < |r.slots| == |q.slots| && r.log == q.log + xs
    decreases |xs|
  {
    if xs == [] then q else PostAll(Post(q, xs[0]), xs[1..])
  }

  /** The queue at the k-th test of the driver's loop, if posts(k) was posted since the test before. */
  ghost function QueueAt(q: Queue, posts: nat -> seq<int>, k: nat): (r: Queue)
    requires q.cur < |q.slots|
    ensures r.cur < |r.slots| == |q.slots| && |q.log| <= |r.log| && r.log[..|q.log|] == q.log
  {
    PostAll(if k == 0 then q else QueueAt(q, posts, k - 1), posts(k))
  }

  /** There is always room for what is posted, when one entry is taken after each test, and it ends. */
  ghost predicate Paced(q: Queue, posts: nat -> seq<int>, taken: nat, last: nat)
    requires q.cur < |q.slots|
  {
    forall k: nat :: |QueueAt(q, posts, k).log| <= last && |QueueAt(q, posts, k).log| <= taken + k + |q.slots|
  }

  lemma {:induction false} PostAllInv(s: Feed, xs: seq<int>)
    requires FeedInv(s) && FeedOk(s) && |s.q.log| + |xs| <= Taken(s.reader) + |s.q.slots|
    ensures FeedInv(s.(q := PostAll(s.q, xs)))
    decreases |xs|
  {
    hide FeedInv;
    if xs != [] {
      MoveInv(s, Posted(xs[0]), |s.q.slots|);
      PostAllInv(Moved(s, Posted(xs[0])), xs[1..]);
    }
  }

  lemma {:induction false} RanInv(s: Feed, acts: seq<Move>, limit: nat)
    requires FeedInv(s) && MayRun(s, acts, limit) && limit <= |s.q.slots|
    ensures FeedInv(Ran(s, acts, limit))
    decreases |acts|
  {
    hide FeedInv, Moved;
    if acts != [] {
      MoveInv(s, acts[0], limit);
      RanInv(Moved(s, acts[0]), acts[1..], limit);
    }
  }

  /** In every run of posting and polling, interleaved in any way and over any number of laps, the driver
      takes every entry once and in order, exactly if the controller never has more entries
      outstanding than there are slots. */
  lemma FeedExactly(n: nat, limit: nat)
    requires n > 0
    ensures (forall acts | MayRun(NewFeed(n), acts, limit) :: InStep(Ran(NewFeed(n), acts, limit))) <==> limit <= n
  {
    hide MayRun, Ran, InStep, FeedInv;
    if limit <= n {
      forall acts | MayRun(NewFeed(n), acts, limit) ensures InStep(Ran(NewFeed(n), acts, limit)) {
        NewFeedInv(n);
        RanInv(NewFeed(n), acts, limit);
        FeedInStep(Ran(NewFeed(n), acts, limit));
      }
    } else {
      Overrun(n, limit);
    }
  }

  lemma NewFeedInv(n: nat)
    requires n > 0
    ensures FeedInv(NewFeed(n))
  {
    NewQueueOk(n);
  }

  function Posts(k: nat): seq<Move> { seq(k, _ => Posted(7)) }

  /** k entries posted, none taken. */
  ghost function Filled(s: Feed, k: nat): (r: Feed)
    requires FeedOk(s)
    ensures FeedOk(r)
    decreases k
  {
    if k == 0 then s else Filled(Moved(s, Posted(7)), k - 1)
  }

  lemma {:induction false} PostsRun(s: Feed, k: nat, limit: nat)
    requires FeedOk(s) && |s.q.log| + k <= Taken(s.reader) + limit
    ensures MayRun(s, Posts(k), limit) && Ran(s, Posts(k), limit) == Filled(s, k)
    decreases k
  {
    if k > 0 {
      assert Posts(k)[1..] == Posts(k - 1);
      PostsRun(Moved(s, Posted(7)), k - 1, limit);
    }
  }

  lemma {:induction false} FilledInv(s: Feed, k: nat)
    requires FeedInv(s) && FeedOk(s) && |s.q.log| + k <= Taken(s.reader) + |s.q.slots|
    ensures FeedInv(Filled(s, k)) && Filled(s, k).reader == s.reader
    ensures |Filled(s, k).q.log| == |s.q.log| + k && |Filled(s, k).q.slots| == |s.q.slots|
    decreases k
  {
    hide FeedInv;
    if k > 0 {
      MoveInv(s, Posted(7), |s.q.slots|);
      FilledInv(Moved(s, Posted(7)), k - 1);
    }
  }

  lemma FilledOnce(s: Feed, k: nat)
    requires FeedOk(s)
    ensures Filled(s, k + 1) == Moved(Filled(s, k), Posted(7))
    decreases k
  {
    if k > 0 { FilledOnce(Moved(s, Posted(7)), k - 1); }
  }

  /** The driver has taken nothing yet. */
  ghost predicate AtStart(r: Reader) { r.at == 0 && r.bit && r.base == 0 }

  lemma NewFeedIs(n: nat)
    requires n > 0
    ensures FeedInv(NewFeed(n)) && AtStart(NewFeed(n).reader) && NewFeed(n).q.log == []
    ensures |NewFeed(n).q.slots| == n && Taken(NewFeed(n).reader) == 0 && FeedOk(NewFeed(n))
  {
    NewFeedInv(n);
  }

  /** One entry more than there are slots overwrites the first, and the driver sees none. */
  lemma Overrun(n: nat, limit: nat)
    requires n > 0 && limit > n
    ensures MayRun(NewFeed(n), Posts(n + 1), limit) && !InStep(Ran(NewFeed(n), Posts(n + 1), limit))
  {
    hide FeedInv, MayRun, Ran, InStep, Moved, Filled, NewFeed;
    NewFeedIs(n);
    PostsRun(NewFeed(n), n + 1, limit);
    FilledInv(NewFeed(n), n);
    FilledOnce(NewFeed(n), n);
    LapOver(Filled(NewFeed(n), n));
  }

  lemma LapOver(s: Feed)
    requires FeedInv(s) && FeedOk(s) && AtStart(s.reader) && |s.q.log| == |s.q.slots|
    ensures !InStep(Moved(s, Posted(7)))
  {
    hide QueueOk, Trails, InStep, Post;
    QueueNumbers(s.q);
    FirstLapOrSecond(s.q, s.reader);
    FullLap(|s.q.slots|, s.q.cur, s.q.base, s.q.bit);
    PostFirst(s.q, 7);
    NoneSeen(Moved(s, Posted(7)));
  }

  lemma QueueNumbers(q: Queue)
    requires QueueOk(q)
    ensures q.cur < |q.slots| && |q.log| == q.base + q.cur
    ensures (q.base == 0 ==> q.bit) && (q.base == 0 || q.base >= |q.slots|)
  {
  }

  /** A driver that has taken nothing is in the controller's lap or in the one before. */
  lemma FirstLapOrSecond(q: Queue, r: Reader)
    requires Trails(q, r) && AtStart(r)
    ensures (q.base == 0 && q.bit) || (q.base == |q.slots| && !q.bit)
  {
  }

  /** The numbers of a full queue of which nothing is taken: it is at the start of its second lap. */
  lemma FullLap(n: nat, cur: nat, base: nat, bit: bool)
    requires cur < n == base + cur && (base == 0 || base >= n) && ((base == 0 && bit) || (base == n && !bit))
    ensures base == n && cur == 0 && !bit
  {
  }

  lemma PostFirst(q: Queue, x: int)
    requires q.cur == 0 < |q.slots| && !q.bit
    ensures |Post(q, x).slots| == |q.slots| && !Post(q, x).slots[0].bit && |Post(q, x).log| == |q.log| + 1
  {
  }

  /** The driver waits at the first slot for a set bit although there are entries to take. */
  lemma NoneSeen(s: Feed)
    requires FeedOk(s) && AtStart(s.reader) && !s.q.slots[0].bit && |s.q.log| > 0
    ensures !InStep(s)
  {
  }
}

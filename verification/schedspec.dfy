/** The scheduler of kernel/task/schedule.c and the wait protocol of kernel/task/request.c as a
    state machine.  A step is what one CPU does without another CPU being able to tell its parts
    apart: an atomic instruction, a test of a shared counter, or work on the CPU's own lists.  The
    run tree appears as the sequence of its nodes in order and its cached left. */
module SchedSpec {
  import opened Sequences
  import opened Wrappers

  type Tid = nat // thread descriptors, numbered by pid

  datatype State = Running | NeedSchedule | Idle | Ready | Sleep | NeedFree | Free | NeedPreempt | Zombie

  /** The priority table task_sche_cfsWeight, from priority -20 on. */
  const WEIGHTS: seq<nat> := [
    88761, 71755, 56483, 46273, 36291, 29154, 23254, 18705, 14949, 11916,
    9548, 7620, 6100, 4904, 3906, 3121, 2501, 1991, 1586, 1277,
    1024, 820, 655, 526, 423, 335, 272, 215, 172, 137,
    110, 87, 70, 56, 45, 36, 29, 23, 18, 15]

  const MAX_WEIGHT: nat := 88761

  type Priority = p: int | -20 <= p < 20

  function Weight(p: Priority): (w: nat)
    ensures 0 < w <= MAX_WEIGHT
  {
    WEIGHTS[p + 20]
  }

  /** task_Thread, as far as the scheduler reads it. */
  datatype Thread = Thread(cpu: nat, priority: Priority, state: State, vRuntime: int, reqWait: int, working: nat)

  /** WaitReq: target NeedPreempt asks to preempt, Ready to wake, Idle to launch. */
  datatype Msg = Msg(thd: Tid, target: State)

  /** What task_sche_trySche has decided before it puts the current thread away. */
  datatype Choice = Undecided | Chosen(nxt: Tid, sleeps: bool)

  /** The run tree is `run`, its cached left `left`.  A thread's key may be rewritten while it is in the
      tree; once the tree is out of order, the place of an insertion depends on its shape, and is then
      whatever `spot` says. */
  datatype Cpu = Cpu(cur: Tid, run: seq<Tid>, left: Option<Tid>, spot: nat, sleep: seq<Tid>, preempt: seq<Tid>,
                     free: seq<Tid>, mail: seq<Msg>, choice: Choice)

  /** A task_sche_finishReq in progress on some CPU: the counter is decremented, and once `zero`
      also read as zero, but nothing is sent yet. */
  datatype Finisher = Finisher(thd: Tid, cpu: nat, zero: bool)

  /** A thread's requests: not yet answered, not yet waited for, and whether it is inside
      task_sche_waitReq. */
  datatype Account = Account(owed: nat, unwaited: nat, inWait: bool)

  datatype Sys = Sys(thds: seq<Thread>, accts: seq<Account>, cpus: seq<Cpu>, fins: multiset<Finisher>,
                     launched: set<Tid>, created: set<Tid>)

  // ----- lists and the run tree -----

  /** task_sche_thds_compare */
  predicate Before(thds: seq<Thread>, a: Tid, b: Tid)
    requires a < |thds| && b < |thds|
  {
    if thds[a].vRuntime != thds[b].vRuntime then thds[a].vRuntime < thds[b].vRuntime else a < b
  }

  predicate Listed(thds: seq<Thread>, s: seq<Tid>) { forall i | 0 <= i < |s| :: s[i] < |thds| }

  predicate TreeTyped(thds: seq<Thread>, cpu: Cpu) {
    Listed(thds, cpu.run) && (cpu.left.Some? ==> cpu.left.value < |thds|)
  }

  /** No thread comes before one that stands further to the left. */
  predicate InOrder(thds: seq<Thread>, s: seq<Tid>)
    requires Listed(thds, s)
  {
    forall i, j | 0 <= i < j < |s| :: !Before(thds, s[j], s[i])
  }

  /** Insertion in front of the first thread that t comes before. */
  function Insert(thds: seq<Thread>, s: seq<Tid>, t: Tid): (r: seq<Tid>)
    requires t < |thds| && Listed(thds, s)
    ensures multiset(r) == multiset(s) + multiset{t}
    ensures Listed(thds, r)
  {
    if s == [] then [t]
    else
      assert s == [s[0]] + s[1..];
      if Before(thds, t, s[0]) then [t] + s else [s[0]] + Insert(thds, s[1..], t)
  }

  function InsertAt(s: seq<Tid>, t: Tid, spot: nat): (r: seq<Tid>)
    ensures multiset(r) == multiset(s) + multiset{t}
  {
    var p := if spot <= |s| then spot else |s|;
    assert s == s[..p] + s[p..];
    s[..p] + [t] + s[p..]
  }

  /** RBTree_ins: the sorted place if the tree is in order, otherwise some place; the cached left moves
      to a thread that comes before it. */
  function TreePut(thds: seq<Thread>, cpu: Cpu, t: Tid): (r: Cpu)
    requires t < |thds| && TreeTyped(thds, cpu)
    ensures multiset(r.run) == multiset(cpu.run) + multiset{t} && TreeTyped(thds, r)
    ensures r == cpu.(run := r.run, left := r.left)
    ensures r.left == Some(t) || (r.left == cpu.left && cpu.left.Some?)
  {
    var run := if InOrder(thds, cpu.run) then Insert(thds, cpu.run, t) else InsertAt(cpu.run, t, cpu.spot);
    ListedMore(thds, cpu.run, t, run);
    cpu.(run := run,
         left := if cpu.run == [] || cpu.left == None || Before(thds, t, cpu.left.value) then Some(t) else cpu.left)
  }

  lemma ListedMore(thds: seq<Thread>, s: seq<Tid>, t: Tid, r: seq<Tid>)
    requires Listed(thds, s) && t < |thds| && multiset(r) == multiset(s) + multiset{t}
    ensures Listed(thds, r)
  {
    forall i | 0 <= i < |r| ensures r[i] < |thds| {
      assert r[i] in multiset(r);
      assert r[i] == t || r[i] in multiset(s);
    }
  }

  /** The thread behind t. */
  function Following(s: seq<Tid>, t: Tid): Option<Tid> {
    if s == [] then None
    else if s[0] == t then (if |s| == 1 then None else Some(s[1]))
    else Following(s[1..], t)
  }

  /** RBTree_del */
  function TreeDrop(cpu: Cpu, t: Tid): (r: Cpu)
    ensures r == cpu.(run := r.run, left := r.left)
  {
    cpu.(run := Remove(cpu.run, t), left := if cpu.left == Some(t) then Following(cpu.run, t) else cpu.left)
  }

  // ----- the pieces of schedule.c that work on one CPU -----

  function SetThd(s: Sys, t: Tid, th: Thread): Sys
    requires t < |s.thds|
  {
    s.(thds := s.thds[t := th])
  }

  function SetCpu(s: Sys, c: nat, cpu: Cpu): Sys
    requires c < |s.cpus|
  {
    s.(cpus := s.cpus[c := cpu])
  }

  /** _sche_syncVRutnime */
  function Sync(s: Sys, c: nat, t: Tid): Sys
    requires c < |s.cpus| && t < |s.thds| && s.cpus[c].cur < |s.thds|
  {
    SetThd(s, t, s.thds[t].(vRuntime := s.thds[s.cpus[c].cur].vRuntime))
  }

  /** _wakeThd */
  function WakeThd(s: Sys, c: nat, t: Tid): (r: Sys)
    requires c < |s.cpus| && t < |s.thds| && s.cpus[c].cur < |s.thds| && TreeTyped(s.thds, s.cpus[c])
    ensures |r.thds| == |s.thds| && |r.cpus| == |s.cpus|
    ensures r.launched == s.launched
  {
    var s1 := Sync(s, c, t);
    var th, cpu := s1.thds[t], s1.cpus[c];
    if th.state != Sleep then s1
    else
      SetThd(SetCpu(s1, c, TreePut(s1.thds, cpu.(sleep := Remove(cpu.sleep, t)), t)), t, th.(state := Idle))
  }

  /** _preemptThd */
  function PreemptThd(s: Sys, c: nat, t: Tid): (r: Sys)
    requires c < |s.cpus| && t < |s.thds| && s.cpus[c].cur < |s.thds|
    ensures |r.thds| == |s.thds| && |r.cpus| == |s.cpus|
    ensures r.launched == s.launched
  {
    var s1 := Sync(s, c, t);
    var th, cpu := s1.thds[t], s1.cpus[c];
    if th.state == Idle then
      SetThd(SetCpu(s1, c, TreeDrop(cpu, t).(preempt := cpu.preempt + [t])), t, th.(state := NeedPreempt))
    else if th.state == Sleep then
      SetThd(SetCpu(s1, c, cpu.(sleep := Remove(cpu.sleep, t), preempt := cpu.preempt + [t])), t,
          th.(state := NeedPreempt))
    else s1
  }

  /** _launchThd */
  function LaunchThd(s: Sys, c: nat, t: Tid): (r: Sys)
    requires c < |s.cpus| && t < |s.thds| && s.cpus[c].cur < |s.thds| && TreeTyped(s.thds, s.cpus[c])
    ensures |r.thds| == |s.thds| && |r.cpus| == |s.cpus|
    ensures r.launched == s.launched + {t}
  {
    var s1 := Sync(s, c, t);
    var cpu := s1.cpus[c];
    SetCpu(s1, c, TreePut(s1.thds, cpu, t)).(launched := s1.launched + {t})
  }

  /** task_sche_trySche up to the test in _hangCurThd: the next thread is taken off its list and
      it is settled whether the current one will sleep. */
  function Choose(s: Sys, c: nat): (r: Sys)
    requires c < |s.cpus| && s.cpus[c].cur < |s.thds|
    requires TreeTyped(s.thds, s.cpus[c]) && Listed(s.thds, s.cpus[c].preempt)
    ensures |r.thds| == |s.thds| && |r.cpus| == |s.cpus|
    ensures r.launched == s.launched
  {
    var cpu := s.cpus[c];
    var cur := s.thds[cpu.cur];
    var sleeps := cur.reqWait > 0 && cur.working == 0;
    if cpu.preempt != [] then
      var n := cpu.preempt[0];
      SetThd(SetCpu(s, c, cpu.(preempt := cpu.preempt[1..], choice := Chosen(n, sleeps))), n,
          s.thds[n].(state := Running))
    else if cpu.left == None || s.thds[cpu.left.value].vRuntime > cur.vRuntime then
      SetThd(s, cpu.cur, cur.(state := Running))
    else
      var n := cpu.left.value;
      SetThd(SetCpu(s, c, TreeDrop(cpu, n).(choice := Chosen(n, sleeps))), n, s.thds[n].(state := Running))
  }

  /** The rest of _hangCurThd and the switch. */
  function Switch(s: Sys, c: nat): (r: Sys)
    requires c < |s.cpus| && s.cpus[c].cur < |s.thds| && TreeTyped(s.thds, s.cpus[c]) && s.cpus[c].choice.Chosen?
    ensures |r.thds| == |s.thds| && |r.cpus| == |s.cpus|
    ensures r.launched == s.launched
  {
    var cpu := s.cpus[c];
    var t, next := cpu.cur, cpu.(cur := cpu.choice.nxt, choice := Undecided);
    if cpu.choice.sleeps then
      SetThd(SetCpu(s, c, next.(sleep := cpu.sleep + [t])), t, s.thds[t].(state := Sleep))
    else if s.thds[t].state == NeedFree then
      SetThd(SetCpu(s, c, next.(free := cpu.free + [t])), t, s.thds[t].(state := Free))
    else
      SetThd(SetCpu(s, c, TreePut(s.thds, next, t)), t, s.thds[t].(state := Idle))
  }

  /** One message of task_sche_handleReq. */
  function HandleOne(s: Sys, c: nat): (r: Sys)
    requires c < |s.cpus| && s.cpus[c].cur < |s.thds| && TreeTyped(s.thds, s.cpus[c])
    requires s.cpus[c].mail != [] && s.cpus[c].mail[0].thd < |s.thds|
    ensures |r.thds| == |s.thds| && |r.cpus| == |s.cpus|
    ensures r.launched == if s.cpus[c].mail[0].target == Idle then s.launched + {s.cpus[c].mail[0].thd} else s.launched
  {
    var m := s.cpus[c].mail[0];
    var s1 := SetCpu(s, c, s.cpus[c].(mail := s.cpus[c].mail[1..]));
    match m.target
    case NeedPreempt => PreemptThd(s1, c, m.thd)
    case Ready => WakeThd(s1, c, m.thd)
    case Idle => LaunchThd(s1, c, m.thd)
    case _ => s1
  }

  /** task_sche_preempt, task_sche_wake and task_sche_launch on CPU c: at once if the thread
      belongs to this CPU, otherwise by message. */
  function Request(s: Sys, c: nat, t: Tid, target: State): (r: Sys)
    requires c < |s.cpus| && t < |s.thds| && s.cpus[c].cur < |s.thds| && TreeTyped(s.thds, s.cpus[c])
    requires s.thds[t].cpu < |s.cpus|
    ensures |r.thds| == |s.thds| && |r.cpus| == |s.cpus|
    ensures r.launched == if s.thds[t].cpu == c && target == Idle then s.launched + {t} else s.launched
  {
    var k := s.thds[t].cpu;
    if k == c then
      match target
      case NeedPreempt => PreemptThd(s, c, t)
      case Ready => WakeThd(s, c, t)
      case Idle => LaunchThd(s, c, t)
      case _ => s
    else SetCpu(s, k, s.cpus[k].(mail := s.cpus[k].mail + [Msg(t, target)]))
  }

  // ----- steps -----

  datatype Action =
    | Submit(c: nat) // the current thread of CPU c hands a request to a device or another thread
    | Inc(c: nat) // it enters task_sche_waitReq
    | Done(c: nat) // it finds the counter not positive and leaves
    | EnterSignal(c: nat) // task_signal_scan around a handler
    | LeaveSignal(c: nat)
    | Answer(t: Tid, c: nat) // CPU c answers a request of t: the decrement of task_sche_finishReq
    | Test(f: Finisher) // its test
    | Send(f: Finisher) // its call of task_sche_preempt
    | Tick(c: nat) // task_sche_updCurThdState, from the timer or task_sche_yield
    | ChooseNext(c: nat)
    | SwitchTo(c: nat)
    | Handle(c: nat)
    | Reap(c: nat) // one round of the free list loop of task_sche_handleReq
    | Create(c: nat, cpu: nat, priority: Priority) // task_newThd
    | Launch(t: Tid, c: nat)
    | Wake(t: Tid, c: nat)
    | Preempt(t: Tid, c: nat)
    | Exit(c: nat) // task_exit
    | Stir(c: nat, spot: nat) // nothing happens; says where the next insertion into a disordered tree goes

  /** CPU c is between instructions of its own, not inside task_sche_trySche. */
  ghost predicate AtRest(s: Sys, c: nat) { c < |s.cpus| && s.cpus[c].choice.Undecided? }

  function NeedsSchedule(st: State): bool {
    st == NeedSchedule || st == Ready || st == NeedFree || st == NeedPreempt // bit 0 of the state
  }

  /** What may happen.  At most `limit` requests of a thread are outstanding at a time. */
  ghost predicate Enabled(s: Sys, a: Action, limit: nat)
    requires Typed(s)
  {
    match a
    case Submit(c) => AtRest(s, c) && var acc := s.accts[s.cpus[c].cur]; acc.unwaited < limit && !acc.inWait
    case Inc(c) => AtRest(s, c) && var acc := s.accts[s.cpus[c].cur]; acc.unwaited > 0 && !acc.inWait
    case Done(c) =>
      AtRest(s, c) && var acc := s.accts[s.cpus[c].cur];
      acc.inWait && acc.unwaited > 0 && s.thds[s.cpus[c].cur].reqWait <= 0
    case EnterSignal(c) => AtRest(s, c)
    case LeaveSignal(c) => AtRest(s, c) && s.thds[s.cpus[c].cur].working > 0
    case Answer(t, c) => AtRest(s, c) && t < |s.thds| && s.accts[t].owed > 0
    case Test(f) => AtRest(s, f.cpu) && f in s.fins && !f.zero
    case Send(f) => AtRest(s, f.cpu) && f in s.fins && f.zero && Known(s, f.thd)
    case Tick(c) => AtRest(s, c)
    case ChooseNext(c) => AtRest(s, c) && NeedsSchedule(s.thds[s.cpus[c].cur].state)
    case SwitchTo(c) => c < |s.cpus| && s.cpus[c].choice.Chosen?
    case Handle(c) => AtRest(s, c) && s.cpus[c].mail != []
    case Reap(c) => AtRest(s, c) && s.cpus[c].free != []
    case Create(c, k, p) => AtRest(s, c) && k < |s.cpus|
    case Launch(t, c) => AtRest(s, c) && t in s.created
    case Wake(t, c) => AtRest(s, c) && Known(s, t)
    case Preempt(t, c) => AtRest(s, c) && Known(s, t)
    case Exit(c) => AtRest(s, c)
    case Stir(c, spot) => c < |s.cpus|
  }

  /** The thread has been launched; it may have been freed since. */
  ghost predicate Known(s: Sys, t: Tid) { t < |s.thds| && (t in s.launched || s.thds[t].state == Free) }

  /** Every number that names a thread or CPU does. */
  ghost predicate Typed(s: Sys) {
    && |s.accts| == |s.thds|
    && (forall t | 0 <= t < |s.thds| :: s.thds[t].cpu < |s.cpus|)
    && (forall c | 0 <= c < |s.cpus| :: CpuTyped(s.thds, s.cpus[c]))
    && (forall f | f in s.fins :: f.thd < |s.thds|)
    && (forall t | t in s.created :: t < |s.thds|) && (forall t | t in s.launched :: t < |s.thds|)
  }

  ghost predicate CpuTyped(thds: seq<Thread>, cpu: Cpu) {
    && cpu.cur < |thds| && TreeTyped(thds, cpu) && Listed(thds, cpu.sleep)
    && Listed(thds, cpu.preempt) && Listed(thds, cpu.free)
    && (forall m | m in cpu.mail :: m.thd < |thds|)
    && (cpu.choice.Chosen? ==> cpu.choice.nxt < |thds|)
  }

  function AddWait(s: Sys, t: Tid, n: int): Sys
    requires t < |s.thds|
  {
    SetThd(s, t, s.thds[t].(reqWait := s.thds[t].reqWait + n))
  }

  function AddWork(s: Sys, t: Tid, n: int): Sys
    requires t < |s.thds| && s.thds[t].working + n >= 0
  {
    SetThd(s, t, s.thds[t].(working := s.thds[t].working + n))
  }

  function SetAcct(s: Sys, t: Tid, owed: int, unwaited: int, inWait: bool): Sys
    requires t < |s.accts| && owed >= 0 && unwaited >= 0
  {
    s.(accts := s.accts[t := Account(owed, unwaited, inWait)])
  }

  /** The decrement of task_sche_finishReq. */
  function Decrement(s: Sys, t: Tid, c: nat): Sys
    requires t < |s.thds| == |s.accts| && s.accts[t].owed > 0
  {
    var acc := s.accts[t];
    AddWait(SetAcct(s, t, acc.owed - 1, acc.unwaited, acc.inWait), t, -1)
    .(fins := s.fins + multiset{Finisher(t, c, false)})
  }

  /** Its test: the finisher goes on only if it reads zero. */
  function TestZero(s: Sys, f: Finisher): Sys
    requires f.thd < |s.thds|
  {
    var fins := s.fins - multiset{f};
    s.(fins := if s.thds[f.thd].reqWait == 0 then fins + multiset{f.(zero := true)} else fins)
  }

  /** task_sche_updCurThdState */
  function UpdCur(s: Sys, t: Tid): Sys
    requires t < |s.thds|
  {
    var th := s.thds[t];
    SetThd(s, t, th.(vRuntime := th.vRuntime + Weight(th.priority),
                     state := if th.state == Running then NeedSchedule else th.state))
  }

  function ReapOne(s: Sys, c: nat): Sys
    requires c < |s.cpus| && s.cpus[c].free != []
  {
    var cpu := s.cpus[c];
    SetCpu(s, c, cpu.(free := cpu.free[1..])).(launched := s.launched - {cpu.free[0]})
  }

  function NewThd(s: Sys, k: nat, p: Priority, v: int): Sys {
    s.(thds := s.thds + [Thread(k, p, Idle, v, 0, 0)], accts := s.accts + [Account(0, 0, false)],
        created := s.created + {|s.thds|})
  }

  /** The steps of task/request.c and of signal handling, which change counters only. */
  ghost predicate OfWait(a: Action) {
    a.Submit? || a.Inc? || a.Done? || a.EnterSignal? || a.LeaveSignal? || a.Answer? || a.Test?
  }

  ghost function WaitStep(s: Sys, a: Action, limit: nat): Sys
    requires Typed(s) && Enabled(s, a, limit) && OfWait(a)
  {
    match a
    case Submit(c) => var t := s.cpus[c].cur; SetAcct(s, t, s.accts[t].owed + 1, s.accts[t].unwaited + 1, false)
    case Inc(c) => var t := s.cpus[c].cur; AddWait(SetAcct(s, t, s.accts[t].owed, s.accts[t].unwaited, true), t, 1)
    case Done(c) => var t := s.cpus[c].cur; SetAcct(s, t, s.accts[t].owed, s.accts[t].unwaited - 1, false)
    case EnterSignal(c) => AddWork(s, s.cpus[c].cur, 1)
    case LeaveSignal(c) => AddWork(s, s.cpus[c].cur, -1)
    case Answer(t, c) => Decrement(s, t, c)
    case Test(f) => TestZero(s, f)
  }

  ghost function Next(s: Sys, a: Action, limit: nat): Sys
    requires Typed(s) && Enabled(s, a, limit)
  {
    if OfWait(a) then WaitStep(s, a, limit)
    else match a
    case Send(f) => Request(s.(fins := s.fins - multiset{f}), f.cpu, f.thd, NeedPreempt)
    case Tick(c) => UpdCur(s, s.cpus[c].cur)
    case ChooseNext(c) => Choose(s, c)
    case SwitchTo(c) => Switch(s, c)
    case Handle(c) => HandleOne(s, c)
    case Reap(c) => ReapOne(s, c)
    case Create(c, k, p) => NewThd(s, k, p, s.thds[s.cpus[c].cur].vRuntime)
    case Launch(t, c) => Request(s.(created := s.created - {t}), c, t, Idle)
    case Wake(t, c) => Request(s, c, t, Ready)
    case Preempt(t, c) => Request(s, c, t, NeedPreempt)
    case Exit(c) => var t := s.cpus[c].cur; SetThd(s, t, s.thds[t].(state := NeedFree))
    case Stir(c, spot) => SetCpu(s, c, s.cpus[c].(spot := spot))
  }
}

/** Runs of the scheduler: the partition of the threads, and the wait protocol. */
module SchedRuns {
  import opened Wrappers
  import opened SchedSpec
  import opened SchedInv

  // ----- every step keeps the partition -----

  /** Only the current thread of CPU c changes, in its counters, clock or state. */
  lemma CurSane(s: Sys, s': Sys, c: nat)
    requires Sane(s) && AtRest(s, c) && Local(s, s', c, s.cpus[c].cur)
    requires s'.launched == s.launched && s'.created == s.created
    requires s'.cpus == s.cpus && CurState(s'.thds[s.cpus[c].cur].state)
    ensures Sane(s')
  {
    hide Bag;
    Holds(s, c);
    assert CpuTags(s.thds, s.cpus[c]);
    OtherCur(s, s', c);
    LocalSane(s, s', c, s.cpus[c].cur);
  }

  lemma OtherCur(s: Sys, s': Sys, c: nat)
    requires Sane(s) && AtRest(s, c) && Local(s, s', c, s.cpus[c].cur) && s'.cpus == s.cpus
    requires CurState(s'.thds[s.cpus[c].cur].state)
    ensures CpuTags(s'.thds, s'.cpus[c])
  {
    var cpu := s.cpus[c];
    assert CpuTags(s.thds, cpu);
  }

  lemma CreateSane(s: Sys, k: nat, p: Priority, v: int)
    requires Sane(s) && k < |s.cpus|
    ensures Sane(NewThd(s, k, p, v))
  {
    hide Bag;
    var s' := NewThd(s, k, p, v);
    forall j, u: Tid | 0 <= j < |s'.cpus| ensures Bag(s'.cpus[j])[u] == if On(s', u, j) then 1 else 0 {
      assert Bag(s.cpus[j])[u] == if On(s, u, j) then 1 else 0;
    }
    forall j | 0 <= j < |s'.cpus|
      ensures MailOk(s', j) && CpuTags(s'.thds, s'.cpus[j]) && CpuTyped(s'.thds, s'.cpus[j])
    {
      assert CpuTags(s.thds, s.cpus[j]) && MailOk(s, j);
      MoreThreads(s.thds, s'.thds, s.cpus[j]);
      forall m | m in s'.cpus[j].mail ensures MsgOk(s', j, m) { assert MsgOk(s, j, m); }
      TagsTyped(s', j);
    }
  }

  lemma MoreThreads(thds: seq<Thread>, thds': seq<Thread>, cpu: Cpu)
    requires CpuTags(thds, cpu) && |thds| <= |thds'| && forall u | 0 <= u < |thds| :: thds'[u] == thds[u]
    ensures CpuTags(thds', cpu)
  {
  }

  /** No step loses or duplicates a thread, or leaves its state saying something else than where
      it is. */
  lemma StepSane(s: Sys, a: Action, limit: nat)
    requires Sane(s) && Enabled(s, a, limit)
    ensures Sane(Next(s, a, limit))
  {
    hide Bag, CpuTags, MailOk, Parted, TreePut, TreeDrop, PreemptThd, WakeThd, LaunchThd, Choose, Switch, HandleOne,
         Request, ReapOne, NewThd, Known, AddWait, AddWork, SetAcct, Decrement, TestZero, UpdCur;
    match a
    case Submit(c) =>
      var t := s.cpus[c].cur;
      AcctSane(s, t, s.accts[t].owed + 1, s.accts[t].unwaited + 1, false);
    case Inc(c) =>
      IncSane(s, s.cpus[c].cur);
    case Done(c) =>
      var t := s.cpus[c].cur;
      AcctSane(s, t, s.accts[t].owed, s.accts[t].unwaited - 1, false);
    case EnterSignal(c) => WorkSane(s, s.cpus[c].cur, 1);
    case LeaveSignal(c) => WorkSane(s, s.cpus[c].cur, -1);
    case Answer(t, c) => AnswerSane(s, t, c);
    case Test(f) => TestSane(s, f);
    case Send(f) =>
      SendSane(s, f);
    case Tick(c) => UpdSane(s, c);
    case ChooseNext(c) => ChooseSane(s, c);
    case SwitchTo(c) => SwitchSane(s, c);
    case Handle(c) => HandleSane(s, c);
    case Reap(c) => ReapSane(s, c);
    case Create(c, k, p) => CreateSane(s, k, p, s.thds[s.cpus[c].cur].vRuntime);
    case Launch(t, c) => StartSane(s, c, t);
    case Wake(t, c) => RequestSane(s, c, t, Ready);
    case Preempt(t, c) => RequestSane(s, c, t, NeedPreempt);
    case Exit(c) => UpdSane(s, c);
    case Stir(c, spot) => StirSane(s, c, spot);
  }

  lemma StirSane(s: Sys, c: nat, spot: nat)
    requires Sane(s) && c < |s.cpus|
    ensures Sane(SetCpu(s, c, s.cpus[c].(spot := spot)))
  {
    hide Bag, CpuTags, MailOk, Parted;
    Holds(s, c);
    var s' := SetCpu(s, c, s.cpus[c].(spot := spot));
    StirTags(s.thds, s.cpus[c], spot);
    LocalSane(s, s', c, s.cpus[c].cur);
  }

  lemma StirTags(thds: seq<Thread>, cpu: Cpu, spot: nat)
    requires CpuTags(thds, cpu)
    ensures CpuTags(thds, cpu.(spot := spot)) && Bag(cpu.(spot := spot)) == Bag(cpu)
  {
  }

  // the steps on counters

  lemma AcctSane(s: Sys, t: Tid, owed: nat, unwaited: nat, inWait: bool)
    requires Sane(s) && t < |s.thds|
    ensures t < |s.accts| && SetAcct(s, t, owed, unwaited, inWait).thds == s.thds
    ensures Sane(SetAcct(s, t, owed, unwaited, inWait))
  {
    hide Bag, CpuTags, MailOk;
    SaneTyped(s);
    ThreadSane(s, SetAcct(s, t, owed, unwaited, inWait), s.thds[t].cpu, t);
  }

  lemma WaitSane(s: Sys, t: Tid, n: int)
    requires Sane(s) && t < |s.thds|
    ensures Sane(AddWait(s, t, n))
  {
    hide Bag, CpuTags, MailOk;
    SaneTyped(s);
    ThreadSane(s, AddWait(s, t, n), s.thds[t].cpu, t);
  }

  lemma WorkSane(s: Sys, t: Tid, n: int)
    requires Sane(s) && t < |s.thds| && s.thds[t].working + n >= 0
    ensures Sane(AddWork(s, t, n))
  {
    hide Bag, CpuTags, MailOk;
    SaneTyped(s);
    ThreadSane(s, AddWork(s, t, n), s.thds[t].cpu, t);
  }

  lemma FinsSane(s: Sys, t: Tid, fins: multiset<Finisher>)
    requires Sane(s) && t < |s.thds| && forall f | f in fins :: f.thd < |s.thds|
    ensures Sane(s.(fins := fins))
  {
    hide Bag, CpuTags, MailOk;
    SaneTyped(s);
    ThreadSane(s, s.(fins := fins), s.thds[t].cpu, t);
  }

  lemma IncSane(s: Sys, t: Tid)
    requires Sane(s) && t < |s.thds| == |s.accts|
    ensures Sane(AddWait(SetAcct(s, t, s.accts[t].owed, s.accts[t].unwaited, true), t, 1))
  {
    hide Sane, SetAcct, AddWait;
    AcctSane(s, t, s.accts[t].owed, s.accts[t].unwaited, true);
    WaitSane(SetAcct(s, t, s.accts[t].owed, s.accts[t].unwaited, true), t, 1);
  }

  lemma SendSane(s: Sys, f: Finisher)
    requires Typed(s) && Sane(s) && f in s.fins && Known(s, f.thd) && f.cpu < |s.cpus|
    ensures Sane(Request(s.(fins := s.fins - multiset{f}), f.cpu, f.thd, NeedPreempt))
  {
    hide Sane, Known;
    var s1 := s.(fins := s.fins - multiset{f});
    SaneFins(s);
    FinsSane(s, f.thd, s1.fins);
    KnownStill(s, s1, f.thd);
    RequestSane(s1, f.cpu, f.thd, NeedPreempt);
  }

  lemma AnswerSane(s: Sys, t: Tid, c: nat)
    requires Sane(s) && t < |s.thds| == |s.accts| && s.accts[t].owed > 0
    ensures Sane(Decrement(s, t, c))
  {
    hide Sane, Typed;
    SaneTyped(s);
    var acc := s.accts[t];
    AcctSane(s, t, acc.owed - 1, acc.unwaited, acc.inWait);
    var s1 := SetAcct(s, t, acc.owed - 1, acc.unwaited, acc.inWait);
    WaitSane(s1, t, -1);
    SaneFins(s);
    FinsSane(AddWait(s1, t, -1), t, s.fins + multiset{Finisher(t, c, false)});
  }

  lemma TestSane(s: Sys, f: Finisher)
    requires Sane(s) && f in s.fins
    ensures f.thd < |s.thds| && Sane(TestZero(s, f))
  {
    hide Sane;
    SaneFins(s);
    FinsSane(s, f.thd, TestZero(s, f).fins);
  }

  lemma SaneFins(s: Sys)
    requires Sane(s)
    ensures forall f | f in s.fins :: f.thd < |s.thds|
  {
  }

  lemma SaneTyped(s: Sys)
    requires Sane(s)
    ensures Typed(s)
  {
  }

  lemma KnownStill(s: Sys, s': Sys, t: Tid)
    requires Known(s, t) && s'.thds == s.thds && s'.launched == s.launched
    ensures Known(s', t)
  {
  }

  lemma UpdSane(s: Sys, c: nat)
    requires Sane(s) && AtRest(s, c)
    ensures Sane(UpdCur(s, s.cpus[c].cur))
    ensures Sane(SetThd(s, s.cpus[c].cur, s.thds[s.cpus[c].cur].(state := NeedFree)))
  {
    hide Bag, MailOk, Parted;
    Holds(s, c);
    assert CpuTags(s.thds, s.cpus[c]);
    CurSane(s, UpdCur(s, s.cpus[c].cur), c);
    CurSane(s, SetThd(s, s.cpus[c].cur, s.thds[s.cpus[c].cur].(state := NeedFree)), c);
  }

  // ----- runs -----

  function Upto(n: nat): (r: set<Tid>)
    ensures forall k: Tid :: k in r <==> k < n
  {
    if n == 0 then {} else Upto(n - 1) + {n - 1}
  }

  /** n CPUs, each running its boot thread. */
  function Boot(n: nat): Sys {
    Sys(seq(n, k requires 0 <= k < n => Thread(k, 0, Running, 0, 0, 0)), seq(n, _ => Account(0, 0, false)),
        seq(n, k requires 0 <= k < n => Cpu(k, [], None, 0, [], [], [], [], Undecided)), multiset{}, Upto(n), {})
  }

  ghost predicate CanRun(s: Sys, acts: seq<Action>, limit: nat)
    decreases |acts|
  {
    acts != [] ==> Typed(s) && Enabled(s, acts[0], limit) && CanRun(Next(s, acts[0], limit), acts[1..], limit)
  }

  ghost function After(s: Sys, acts: seq<Action>, limit: nat): Sys
    requires CanRun(s, acts, limit)
    decreases |acts|
  {
    if acts == [] then s else After(Next(s, acts[0], limit), acts[1..], limit)
  }

  lemma BootSane(n: nat)
    ensures Sane(Boot(n))
  {
    var s := Boot(n);
    forall k, t: Tid | 0 <= k < n ensures Bag(s.cpus[k])[t] == if On(s, t, k) then 1 else 0 {
      assert s.thds[k].cpu == k;
      assert Bag(s.cpus[k]) == multiset{k};
      if t < n { assert s.thds[t].cpu == t; }
    }
  }

  lemma {:induction false} RunSane(s: Sys, acts: seq<Action>, limit: nat)
    requires Sane(s) && CanRun(s, acts, limit)
    ensures Sane(After(s, acts, limit))
    decreases |acts|
  {
    hide Sane, Enabled, Next;
    if acts != [] {
      StepSane(s, acts[0], limit);
      RunSane(Next(s, acts[0], limit), acts[1..], limit);
    }
  }

  function One(b: bool): nat { if b then 1 else 0 }

  /** In every reachable state a launched thread that is not yet freed is in exactly one place of its
      own CPU and in none of another, and its state tells which list it is on. */
  lemma {:induction false} OnePlace(n: nat, acts: seq<Action>, limit: nat, t: Tid)
    requires CanRun(Boot(n), acts, limit) && t in After(Boot(n), acts, limit).launched
    ensures var s := After(Boot(n), acts, limit);
            && t < |s.thds| && s.thds[t].cpu < |s.cpus|
            && var (th, cpu) := (s.thds[t], s.cpus[s.thds[t].cpu]);
            && One(t == cpu.cur) + One(cpu.choice == Chosen(t, true) || cpu.choice == Chosen(t, false))
               + One(t in cpu.run) + One(t in cpu.sleep) + One(t in cpu.preempt) + One(t in cpu.free) == 1
            && (t in cpu.run <==> th.state == Idle) && (t in cpu.sleep <==> th.state == Sleep)
            && (t in cpu.preempt <==> th.state == NeedPreempt) && (t in cpu.free <==> th.state == Free)
            && forall k | 0 <= k < |s.cpus| && k != th.cpu :: t !in Bag(s.cpus[k])
  {
    BootSane(n);
    RunSane(Boot(n), acts, limit);
    PlaceOf(After(Boot(n), acts, limit), t);
  }

  lemma PlaceOf(s: Sys, t: Tid)
    requires Sane(s) && t in s.launched
    ensures t < |s.thds| && s.thds[t].cpu < |s.cpus|
    ensures var (th, cpu) := (s.thds[t], s.cpus[s.thds[t].cpu]);
            && One(t == cpu.cur) + One(cpu.choice == Chosen(t, true) || cpu.choice == Chosen(t, false))
               + One(t in cpu.run) + One(t in cpu.sleep) + One(t in cpu.preempt) + One(t in cpu.free) == 1
            && (t in cpu.run <==> th.state == Idle) && (t in cpu.sleep <==> th.state == Sleep)
            && (t in cpu.preempt <==> th.state == NeedPreempt) && (t in cpu.free <==> th.state == Free)
            && forall k | 0 <= k < |s.cpus| && k != th.cpu :: t !in Bag(s.cpus[k])
  {
    hide MailOk;
    var c := s.thds[t].cpu;
    HeldOnce(s, c, t);
    var cpu := s.cpus[c];
    assert Bag(cpu)[t] == if On(s, t, c) then 1 else 0;
    assert CpuTags(s.thds, cpu);
  }

  lemma FreeHead(s: Sys, c: nat)
    requires Sane(s) && c < |s.cpus| && s.cpus[c].free != []
    ensures s.cpus[c].free[0] < |s.thds| && s.thds[s.cpus[c].free[0]].state == Free
  {
    assert CpuTags(s.thds, s.cpus[c]);
    assert s.cpus[c].free[0] in s.cpus[c].free;
  }

  lemma HandleIdle(s: Sys, c: nat)
    requires Sane(s) && c < |s.cpus| && s.cpus[c].mail != []
    ensures s.cpus[c].mail[0].target == Idle ==> s.cpus[c].mail[0] == Msg(s.cpus[c].mail[0].thd, Idle)
  {
  }

  /** Only a launch makes a thread known to the scheduler and only the free list's loop drops one. */
  lemma OnlyLaunchAdds(s: Sys, a: Action, limit: nat, t: Tid)
    requires Sane(s) && Enabled(s, a, limit)
    ensures t in Next(s, a, limit).launched && t !in s.launched ==>
              (a.Launch? && a.t == t && s.thds[t].cpu == a.c) || (a.Handle? && s.cpus[a.c].mail[0] == Msg(t, Idle))
    ensures t in s.launched && t !in Next(s, a, limit).launched ==>
              a.Reap? && s.cpus[a.c].free[0] == t && s.thds[t].state == Free
  {
    hide Bag, Mails, Parted, Choose, Switch, HandleOne, Request, CpuTags, MsgOk, Sane;
    SaneTyped(s);
    match a
    case Reap(c) => FreeHead(s, c);
    case Handle(c) => HandleIdle(s, c);
    case _ =>
  }
}

/** The wait protocol: no wakeup is lost as long as a thread has at most one request outstanding,
    and only then. */
module SchedWake {
  import opened Sequences
  import opened Wrappers
  import opened SchedSpec
  import opened SchedInv
  import opened SchedRuns

  /** The thread is on the sleep list, or its CPU has settled to put it there. */
  ghost predicate Asleep(s: Sys, t: Tid)
    requires Typed(s) && t < |s.thds|
  {
    var cpu := s.cpus[s.thds[t].cpu];
    s.thds[t].state == Sleep || (cpu.cur == t && cpu.choice.Chosen? && cpu.choice.sleeps)
  }

  /** A preempt message for the thread is in its CPU's mailbox, or a finisher of one of its requests is
      between its decrement and its send. */
  ghost predicate Pending(s: Sys, t: Tid)
    requires Typed(s) && t < |s.thds|
  {
    Msg(t, NeedPreempt) in s.cpus[s.thds[t].cpu].mail || exists f | f in s.fins :: f.thd == t
  }

  ghost predicate AcctOk(th: Thread, acc: Account, limit: nat) {
    th.reqWait == acc.owed - acc.unwaited + One(acc.inWait) && acc.owed <= acc.unwaited <= limit &&
        (acc.inWait ==> acc.unwaited > 0)
  }

  ghost predicate WaitBase(s: Sys, t: Tid, limit: nat)
    requires Typed(s) && t < |s.thds|
  {
    AcctOk(s.thds[t], s.accts[t], limit) && (Asleep(s, t) ==> s.accts[t].inWait)
  }

  ghost predicate WaitOk(s: Sys, t: Tid, limit: nat)
    requires Typed(s) && t < |s.thds|
  {
    WaitBase(s, t, limit) && (limit <= 1 && Asleep(s, t) && s.thds[t].reqWait <= 0 ==> Pending(s, t))
  }

  ghost predicate AllWaitOk(s: Sys, limit: nat)
    requires Typed(s)
  {
    forall t | 0 <= t < |s.thds| :: WaitOk(s, t, limit)
  }

  /** No thread sleeps with a counter that is not positive while nothing is on its way to wake it. */
  ghost predicate NoLostWakeup(s: Sys)
    requires Typed(s)
  {
    forall t | 0 <= t < |s.thds| :: Asleep(s, t) && s.thds[t].reqWait <= 0 ==> Pending(s, t)
  }

  // ----- what the steps do to counters and sleepers -----

  /** The lists change, but no counter does, and nobody falls asleep. */
  ghost predicate Quiet(s: Sys, s': Sys) {
    && |s'.thds| == |s.thds| && s'.accts == s.accts && |s'.cpus| == |s.cpus|
    && forall u | 0 <= u < |s.thds| ::
         && s'.thds[u].reqWait == s.thds[u].reqWait && s'.thds[u].cpu == s.thds[u].cpu
         && (s'.thds[u].state == Sleep ==> s.thds[u].state == Sleep)
  }

  ghost predicate SameChoice(s: Sys, s': Sys) {
    |s'.cpus| == |s.cpus| &&
        forall k | 0 <= k < |s.cpus| :: s'.cpus[k].cur == s.cpus[k].cur && s'.cpus[k].choice == s.cpus[k].choice
  }

  lemma QuietOps(s: Sys, c: nat, t: Tid)
    requires Typed(s) && c < |s.cpus| && t < |s.thds|
    ensures Quiet(s, PreemptThd(s, c, t)) && SameChoice(s, PreemptThd(s, c, t))
    ensures PreemptThd(s, c, t).thds[t].state != Sleep
    ensures Quiet(s, WakeThd(s, c, t)) && SameChoice(s, WakeThd(s, c, t))
    ensures Quiet(s, LaunchThd(s, c, t)) && SameChoice(s, LaunchThd(s, c, t))
    ensures forall k | 0 <= k < |s.cpus| ::
              PreemptThd(s, c, t).cpus[k].mail == WakeThd(s, c, t).cpus[k].mail == LaunchThd(s, c, t).cpus[k].mail ==
                  s.cpus[k].mail
    ensures PreemptThd(s, c, t).fins == WakeThd(s, c, t).fins == LaunchThd(s, c, t).fins == s.fins
  {
    hide TreePut, TreeDrop, Remove;
  }

  /** A quiet step wakes nobody by halves. */
  ghost predicate Calm(s: Sys, s': Sys, t: Tid, limit: nat)
    requires Typed(s) && Typed(s') && t < |s.thds|
  {
    && t < |s'.thds| && s'.thds[t].reqWait == s.thds[t].reqWait
    && (WaitBase(s, t, limit) ==> WaitBase(s', t, limit)) && (Asleep(s', t) ==> Asleep(s, t))
    && (Pending(s, t) ==> Pending(s', t) || !Asleep(s', t))
  }

  lemma QuietCalm(s: Sys, s': Sys, t: Tid, limit: nat)
    requires Typed(s) && Typed(s') && t < |s.thds| && Quiet(s, s') && SameChoice(s, s')
    requires Pending(s, t) ==> Pending(s', t) || !Asleep(s', t)
    ensures Calm(s, s', t, limit)
  {
    hide Pending;
  }

  lemma CalmKeeps(s: Sys, s': Sys, t: Tid, limit: nat)
    requires Typed(s) && Typed(s') && t < |s.thds| && Calm(s, s', t, limit) && WaitOk(s, t, limit)
    ensures WaitOk(s', t, limit)
  {
    hide Asleep, Pending, AcctOk, WaitBase;
  }

  lemma NotAsleep(s: Sys, c: nat)
    requires Sane(s) && AtRest(s, c)
    ensures s.thds[s.cpus[c].cur].cpu == c && !Asleep(s, s.cpus[c].cur)
  {
    hide Bag;
    Holds(s, c);
    assert CpuTags(s.thds, s.cpus[c]);
  }

  lemma OthersKept(fins: multiset<Finisher>, f: Finisher, t: Tid)
    requires f.thd != t && exists g | g in fins :: g.thd == t
    ensures exists g | g in fins - multiset{f} :: g.thd == t
  {
    var g :| g in fins && g.thd == t;
    assert g in fins - multiset{f};
  }

  /** The steps on counters. */
  lemma CounterWait(s: Sys, a: Action, limit: nat, t: Tid)
    requires Sane(s) && Enabled(s, a, limit) && t < |s.thds| && WaitOk(s, t, limit) && Typed(Next(s, a, limit))
    requires OfWait(a) && !a.Test?
    ensures WaitOk(Next(s, a, limit), t, limit)
  {
    hide Sane, Pending, WaitOk, Next, WaitStep;
    if a.Answer? { AnswerWait(s, a, limit, t); }
    else if a.EnterSignal? || a.LeaveSignal? { SignalWait(s, a, limit, t); }
    else { OwnWait(s, a, limit, t); }
  }

  /** The account of the current thread changes. */
  lemma OwnWait(s: Sys, a: Action, limit: nat, t: Tid)
    requires Sane(s) && Enabled(s, a, limit) && t < |s.thds| && WaitOk(s, t, limit) && Typed(Next(s, a, limit))
    requires a.Submit? || a.Inc? || a.Done?
    ensures WaitOk(Next(s, a, limit), t, limit)
  {
    hide Sane, Pending;
    SaneTyped(s);
    FinsGrow(s, Next(s, a, limit), t);
    NotAsleep(s, a.c);
  }

  lemma SignalWait(s: Sys, a: Action, limit: nat, t: Tid)
    requires Sane(s) && Enabled(s, a, limit) && t < |s.thds| && WaitOk(s, t, limit) && Typed(Next(s, a, limit))
    requires a.EnterSignal? || a.LeaveSignal?
    ensures WaitOk(Next(s, a, limit), t, limit)
  {
    hide Sane, Pending;
    SaneTyped(s);
    FinsGrow(s, Next(s, a, limit), t);
  }

  lemma AnswerWait(s: Sys, a: Action, limit: nat, t: Tid)
    requires Sane(s) && Enabled(s, a, limit) && t < |s.thds| && WaitOk(s, t, limit) && Typed(Next(s, a, limit))
    requires a.Answer?
    ensures WaitOk(Next(s, a, limit), t, limit)
  {
    hide Sane, Pending;
    SaneTyped(s);
    FinsGrow(s, Next(s, a, limit), t);
    AnswerPending(Next(s, a, limit), t, a.t, a.c);
  }

  lemma AnswerPending(s: Sys, t: Tid, u: Tid, c: nat)
    requires Typed(s) && t < |s.thds| && Finisher(u, c, false) in s.fins
    ensures u == t ==> Pending(s, t)
  {
  }

  lemma TestWait(s: Sys, f: Finisher, limit: nat, t: Tid)
    requires Typed(s) && f in s.fins && t < |s.thds| && WaitOk(s, t, limit) && Typed(TestZero(s, f))
    ensures WaitOk(TestZero(s, f), t, limit)
  {
    var s' := TestZero(s, f);
    if f.thd != t {
      if exists g | g in s.fins :: g.thd == t {
        OthersKept(s.fins, f, t);
        var g :| g in s.fins - multiset{f} && g.thd == t;
        assert g in s'.fins;
      }
    } else if s.thds[t].reqWait == 0 {
      assert f.(zero := true) in s'.fins;
    }
  }

  lemma FinsGrow(s: Sys, s': Sys, t: Tid)
    requires Typed(s) && Typed(s') && t < |s.thds| && |s'.thds| == |s.thds|
    requires s.fins <= s'.fins && s'.cpus == s.cpus && s'.thds[t].cpu == s.thds[t].cpu
    ensures Pending(s, t) ==> Pending(s', t)
  {
    if exists f | f in s.fins :: f.thd == t {
      var f :| f in s.fins && f.thd == t;
      assert f in s'.fins;
    }
  }

  /** task_sche_preempt and its like. */
  lemma RequestCalm(s: Sys, c: nat, u: Tid, target: State, limit: nat, t: Tid)
    requires Typed(s) && AtRest(s, c) && u < |s.thds| && t < |s.thds|
    requires target == NeedPreempt || target == Ready || target == Idle
    requires Typed(Request(s, c, u, target))
    ensures Calm(s, Request(s, c, u, target), t, limit)
    ensures u == t && target == NeedPreempt ==>
              Pending(Request(s, c, u, target), t) || !Asleep(Request(s, c, u, target), t)
  {
    hide Request, Pending, Asleep, Quiet, SameChoice, Calm;
    RequestQuiet(s, c, u, target);
    RequestPending(s, c, u, target, t);
    QuietCalm(s, Request(s, c, u, target), t, limit);
  }

  lemma RequestQuiet(s: Sys, c: nat, u: Tid, target: State)
    requires Typed(s) && AtRest(s, c) && u < |s.thds|
    requires target == NeedPreempt || target == Ready || target == Idle
    ensures Quiet(s, Request(s, c, u, target)) && SameChoice(s, Request(s, c, u, target))
  {
    hide PreemptThd, WakeThd, LaunchThd;
    QuietOps(s, c, u);
  }

  lemma RequestPending(s: Sys, c: nat, u: Tid, target: State, t: Tid)
    requires Typed(s) && AtRest(s, c) && u < |s.thds| && t < |s.thds|
    requires target == NeedPreempt || target == Ready || target == Idle
    requires Typed(Request(s, c, u, target))
    ensures Pending(s, t) ==> Pending(Request(s, c, u, target), t)
    ensures u == t && target == NeedPreempt ==>
              Pending(Request(s, c, u, target), t) || !Asleep(Request(s, c, u, target), t)
  {
    hide PreemptThd, WakeThd, LaunchThd;
    QuietOps(s, c, u);
    RequestQuiet(s, c, u, target);
  }

  lemma SendWait(s: Sys, f: Finisher, limit: nat, t: Tid)
    requires Sane(s) && Enabled(s, Send(f), limit) && t < |s.thds| && WaitOk(s, t, limit)
    requires Typed(Request(s.(fins := s.fins - multiset{f}), f.cpu, f.thd, NeedPreempt))
    ensures WaitOk(Request(s.(fins := s.fins - multiset{f}), f.cpu, f.thd, NeedPreempt), t, limit)
  {
    hide Sane, Request;
    SaneTyped(s);
    var s1 := s.(fins := s.fins - multiset{f});
    assert WaitBase(s1, t, limit) && Asleep(s1, t) == Asleep(s, t);
    RequestCalm(s1, f.cpu, f.thd, NeedPreempt, limit, t);
    if f.thd != t && exists g | g in s.fins :: g.thd == t {
      OthersKept(s.fins, f, t);
    }
  }

  lemma HandleCalm(s: Sys, c: nat, limit: nat, t: Tid)
    requires Sane(s) && AtRest(s, c) && s.cpus[c].mail != [] && t < |s.thds| && Typed(HandleOne(s, c))
    ensures Calm(s, HandleOne(s, c), t, limit)
  {
    hide Sane, HandleOne, Pending, Asleep, Quiet, SameChoice, Calm;
    SaneTyped(s);
    HandleQuiet(s, c);
    HandlePending(s, c, t);
    QuietCalm(s, HandleOne(s, c), t, limit);
  }

  lemma HandleQuiet(s: Sys, c: nat)
    requires Sane(s) && AtRest(s, c) && s.cpus[c].mail != []
    ensures MsgOk(s, c, s.cpus[c].mail[0]) && c < |s.cpus| == |HandleOne(s, c).cpus|
    ensures Quiet(s, HandleOne(s, c)) && SameChoice(s, HandleOne(s, c)) && HandleOne(s, c).fins == s.fins
    ensures s.cpus[c].mail[0].target == NeedPreempt ==> HandleOne(s, c).thds[s.cpus[c].mail[0].thd].state != Sleep
    ensures forall k | 0 <= k < |s.cpus| :: HandleOne(s, c).cpus[k].mail == if k == c then s.cpus[c].mail[1..]
              else s.cpus[k].mail
  {
    hide Sane, PreemptThd, WakeThd, LaunchThd, Known, Listed, Typed;
    SaneTyped(s);
    MailHead(s, c);
    QuietOps(SetCpu(s, c, s.cpus[c].(mail := s.cpus[c].mail[1..])), c, s.cpus[c].mail[0].thd);
  }

  lemma HandlePending(s: Sys, c: nat, t: Tid)
    requires Sane(s) && Typed(s) && AtRest(s, c) && s.cpus[c].mail != [] && t < |s.thds| && Typed(HandleOne(s, c))
    ensures Pending(s, t) ==> Pending(HandleOne(s, c), t) || !Asleep(HandleOne(s, c), t)
  {
    hide Sane, HandleOne, MsgOk;
    HandleQuiet(s, c);
    var mail := s.cpus[c].mail;
    assert mail == [mail[0]] + mail[1..];
  }

  lemma MailHead(s: Sys, c: nat)
    requires Sane(s) && c < |s.cpus| && s.cpus[c].mail != []
    ensures MsgOk(s, c, s.cpus[c].mail[0])
    ensures Typed(SetCpu(s, c, s.cpus[c].(mail := s.cpus[c].mail[1..])))
  {
    assert MailOk(s, c);
    PopSane(s, c);
  }

  lemma ChooseWait(s: Sys, c: nat, limit: nat, t: Tid)
    requires Sane(s) && AtRest(s, c) && t < |s.thds| && WaitOk(s, t, limit) && Typed(Choose(s, c))
    ensures WaitOk(Choose(s, c), t, limit)
  {
    hide Sane, Pending;
    SaneTyped(s);
    NotAsleep(s, c);
    FinsGrow(s, s, t);
    ChoosePending(s, c, t);
  }

  lemma SamePending(s: Sys, s': Sys, t: Tid)
    requires Typed(s) && Typed(s') && t < |s.thds| && t < |s'.thds|
    requires s'.thds[t].cpu == s.thds[t].cpu && s'.fins == s.fins
    requires |s'.cpus| == |s.cpus| && s'.cpus[s.thds[t].cpu].mail == s.cpus[s.thds[t].cpu].mail
    ensures Pending(s', t) == Pending(s, t)
  {
    hide Typed;
  }

  lemma ChooseMail(s: Sys, c: nat, k: nat)
    requires Typed(s) && c < |s.cpus| && k < |s.cpus|
    ensures |Choose(s, c).cpus| == |s.cpus|
    ensures Choose(s, c).cpus[k].mail == s.cpus[k].mail && Choose(s, c).fins == s.fins
    ensures s.cpus[c].choice.Chosen? ==>
              |Switch(s, c).cpus| == |s.cpus| && Switch(s, c).cpus[k].mail == s.cpus[k].mail &&
                  Switch(s, c).fins == s.fins
  {
    hide TreePut, TreeDrop;
  }

  lemma ChoosePending(s: Sys, c: nat, t: Tid)
    requires Typed(s) && c < |s.cpus| && t < |s.thds|
    ensures Typed(Choose(s, c)) ==> Pending(Choose(s, c), t) == Pending(s, t)
    ensures s.cpus[c].choice.Chosen? && Typed(Switch(s, c)) ==> Pending(Switch(s, c), t) == Pending(s, t)
  {
    hide TreePut, TreeDrop, Pending;
    ChooseMail(s, c, s.thds[t].cpu);
    if Typed(Choose(s, c)) { SamePending(s, Choose(s, c), t); }
    if s.cpus[c].choice.Chosen? && Typed(Switch(s, c)) { SamePending(s, Switch(s, c), t); }
  }

  lemma SwitchCalm(s: Sys, c: nat, limit: nat, t: Tid)
    requires Sane(s) && c < |s.cpus| && s.cpus[c].choice.Chosen? && t < |s.thds| && Typed(Switch(s, c))
    ensures Calm(s, Switch(s, c), t, limit)
  {
    hide Sane, TreePut, TreeDrop, Pending, MsgOk;
    SaneTyped(s);
    Holds(s, c);
    NextDiffers(s, c);
    ChoosePending(s, c, t);
    CpuTagsOf(s, c);
  }

  lemma CpuTagsOf(s: Sys, c: nat)
    requires Sane(s) && c < |s.cpus|
    ensures CpuTags(s.thds, s.cpus[c])
  {
  }

  /** The other steps. */
  lemma OtherCalm(s: Sys, a: Action, limit: nat, t: Tid)
    requires Sane(s) && Enabled(s, a, limit) && t < |s.thds| && Typed(Next(s, a, limit))
    requires a.Tick? || a.Exit? || a.Reap? || a.Create? || a.Stir?
    ensures Calm(s, Next(s, a, limit), t, limit)
  {
    hide Sane, Next, Pending, Asleep, Quiet, SameChoice, Calm;
    SaneTyped(s);
    if a.Create? {
      CreateCalm(s, a, limit, t);
    } else {
      OtherQuiet(s, a, limit, t);
      QuietCalm(s, Next(s, a, limit), t, limit);
    }
  }

  lemma CreateCalm(s: Sys, a: Action, limit: nat, t: Tid)
    requires Typed(s) && Enabled(s, a, limit) && t < |s.thds| && Typed(Next(s, a, limit)) && a.Create?
    ensures Calm(s, Next(s, a, limit), t, limit)
  {
  }

  lemma OtherQuiet(s: Sys, a: Action, limit: nat, t: Tid)
    requires Sane(s) && Typed(s) && Enabled(s, a, limit) && t < |s.thds| && Typed(Next(s, a, limit))
    requires a.Tick? || a.Exit? || a.Reap? || a.Stir?
    ensures Quiet(s, Next(s, a, limit)) && SameChoice(s, Next(s, a, limit))
    ensures Pending(s, t) ==> Pending(Next(s, a, limit), t)
  {
    hide Sane, WaitStep, HandleOne, Choose, Switch, Request;
    Holds(s, a.c);
  }

  lemma ThdsKept(s: Sys, a: Action, limit: nat)
    requires Sane(s) && Enabled(s, a, limit)
    ensures |Next(s, a, limit).thds| == |s.thds| + One(a.Create?)
  {
    hide Sane, WakeThd, PreemptThd, LaunchThd, Choose, Switch, HandleOne, Request;
    SaneTyped(s);
  }

  /** Every step keeps the protocol for every thread. */
  lemma StepWait(s: Sys, a: Action, limit: nat, t: Tid)
    requires Sane(s) && Enabled(s, a, limit) && t < |s.thds| && WaitOk(s, t, limit) && Typed(Next(s, a, limit))
    ensures t < |Next(s, a, limit).thds| && WaitOk(Next(s, a, limit), t, limit)
  {
    hide Sane, WaitOk, Calm, Request, HandleOne, Choose, Switch, TestZero, Typed;
    SaneTyped(s);
    ThdsKept(s, a, limit);
    var s' := Next(s, a, limit);
    match a
    case Test(f) => TestWait(s, f, limit, t);
    case Send(f) => SendWait(s, f, limit, t);
    case ChooseNext(c) => ChooseWait(s, c, limit, t);
    case SwitchTo(c) => SwitchCalm(s, c, limit, t); CalmKeeps(s, s', t, limit);
    case Handle(c) => HandleCalm(s, c, limit, t); CalmKeeps(s, s', t, limit);
    case Launch(u, c) => LaunchWait(s, u, c, limit, t);
    case Wake(u, c) => RequestCalm(s, c, u, Ready, limit, t); CalmKeeps(s, s', t, limit);
    case Preempt(u, c) => RequestCalm(s, c, u, NeedPreempt, limit, t); CalmKeeps(s, s', t, limit);
    case Tick(c) => OtherCalm(s, a, limit, t); CalmKeeps(s, s', t, limit);
    case Exit(c) => OtherCalm(s, a, limit, t); CalmKeeps(s, s', t, limit);
    case Reap(c) => OtherCalm(s, a, limit, t); CalmKeeps(s, s', t, limit);
    case Create(c, k, p) => OtherCalm(s, a, limit, t); CalmKeeps(s, s', t, limit);
    case Stir(c, spot) => OtherCalm(s, a, limit, t); CalmKeeps(s, s', t, limit);
    case _ => CounterWait(s, a, limit, t);
  }

  lemma LaunchWait(s: Sys, u: Tid, c: nat, limit: nat, t: Tid)
    requires Sane(s) && AtRest(s, c) && u in s.created && t < |s.thds| && WaitOk(s, t, limit)
    requires Typed(Request(s.(created := s.created - {u}), c, u, Idle))
    ensures WaitOk(Request(s.(created := s.created - {u}), c, u, Idle), t, limit)
  {
    hide Sane, Request;
    SaneTyped(s);
    var s1 := s.(created := s.created - {u});
    assert Typed(s1) && WaitOk(s1, t, limit);
    RequestCalm(s1, c, u, Idle, limit, t);
    CalmKeeps(s1, Request(s1, c, u, Idle), t, limit);
  }

  lemma StepAllWait(s: Sys, a: Action, limit: nat)
    requires Sane(s) && Enabled(s, a, limit) && AllWaitOk(s, limit)
    ensures Sane(Next(s, a, limit)) && AllWaitOk(Next(s, a, limit), limit)
  {
    hide Sane, Next, WaitOk, Enabled, Typed;
    StepSane(s, a, limit);
    SaneTyped(s);
    var s' := Next(s, a, limit);
    SaneTyped(s');
    ThdsKept(s, a, limit);
    forall t | 0 <= t < |s'.thds| ensures WaitOk(s', t, limit) {
      if t < |s.thds| { StepWait(s, a, limit, t); } else { NewbornWait(s, a, limit); }
    }
  }

  lemma NewbornWait(s: Sys, a: Action, limit: nat)
    requires Typed(s) && Enabled(s, a, limit) && a.Create? && Typed(Next(s, a, limit))
    ensures WaitOk(Next(s, a, limit), |s.thds|, limit)
  {
  }

  lemma {:induction false} RunWait(s: Sys, acts: seq<Action>, limit: nat)
    requires Sane(s) && AllWaitOk(s, limit) && CanRun(s, acts, limit)
    ensures Sane(After(s, acts, limit)) && AllWaitOk(After(s, acts, limit), limit)
    decreases |acts|
  {
    hide Sane, Next, AllWaitOk, Enabled;
    if acts != [] {
      StepAllWait(s, acts[0], limit);
      RunWait(Next(s, acts[0], limit), acts[1..], limit);
    }
  }

  /** With at most one request outstanding per thread no wakeup is lost in any run on any number of
      CPUs, and a sleeper's counter is what its unanswered requests make it. */
  lemma {:induction false} NoneLost(n: nat, acts: seq<Action>, limit: nat)
    requires limit <= 1 && CanRun(Boot(n), acts, limit)
    ensures Typed(After(Boot(n), acts, limit)) && NoLostWakeup(After(Boot(n), acts, limit))
    ensures forall t | 0 <= t < |After(Boot(n), acts, limit).thds| ::
              AcctOk(After(Boot(n), acts, limit).thds[t], After(Boot(n), acts, limit).accts[t], limit)
  {
    hide CanRun, After, Boot, Sane, Asleep, Pending, Typed;
    BootSane(n);
    SaneTyped(Boot(n));
    BootWait(n, limit);
    RunWait(Boot(n), acts, limit);
    var s := After(Boot(n), acts, limit);
    SaneTyped(s);
    forall t | 0 <= t < |s.thds|
      ensures (Asleep(s, t) && s.thds[t].reqWait <= 0 ==> Pending(s, t)) && AcctOk(s.thds[t], s.accts[t], limit)
    {
      assert WaitOk(s, t, limit);
    }
  }

  lemma BootWait(n: nat, limit: nat)
    requires Typed(Boot(n))
    ensures AllWaitOk(Boot(n), limit)
  {
  }

  // ----- two outstanding requests -----

  lemma {:induction false} Cons(s: Sys, a: Action, s': Sys, acts: seq<Action>, limit: nat)
    requires Typed(s) && Enabled(s, a, limit) && Next(s, a, limit) == s' && CanRun(s', acts, limit)
    ensures CanRun(s, [a] + acts, limit) && After(s, [a] + acts, limit) == After(s', acts, limit)
  {
    hide Typed, Enabled, Next;
    assert ([a] + acts)[1..] == acts;
  }

  /** The system of the counterexample: two CPUs, their boot threads and a third thread on CPU 0. */
  function Scene(st0: State, v0: int, st2: State, v2: int, wait: int, acc: Account, cpu0: Cpu,
                 fins: multiset<Finisher>, launched: set<Tid>, created: set<Tid>): Sys {
    Sys([Thread(0, 0, st0, v0, 0, 0), Thread(1, 0, Running, 0, 0, 0), Thread(0, 0, st2, v2, wait, 0)],
        [Account(0, 0, false), Account(0, 0, false), acc],
        [cpu0, Cpu(1, [], None, 0, [], [], [], [], Undecided)], fins, launched, created)
  }

  const NONE := Account(0, 0, false)
  const LATE := Finisher(2, 1, false)
  const CPU0 := Cpu(0, [], None, 0, [], [], [], [], Undecided)
  const CPU2 := Cpu(2, [0], Some(0), 0, [], [], [], [], Undecided)

  /** The states of the run, from the second on. */
  function Plot(i: nat): Sys {
    if i == 1 then Scene(Running, 0, Idle, 0, 0, NONE, CPU0, multiset{}, {0, 1}, {2})
    else if i == 2 then Scene(Running, 0, Idle, 0, 0, NONE, CPU0.(run := [2], left := Some(2)), multiset{}, {0, 1, 2},
        {})
    else if i == 3 then Scene(NeedSchedule, 1024, Idle, 0, 0, NONE, CPU0.(run := [2], left := Some(2)), multiset{},
        {0, 1, 2}, {})
    else if i == 4 then Scene(NeedSchedule, 1024, Running, 0, 0, NONE, CPU0.(choice := Chosen(2, false)), multiset{},
        {0, 1, 2}, {})
    else if i == 5 then Scene(Idle, 1024, Running, 0, 0, NONE, CPU2, multiset{}, {0, 1, 2}, {})
    else if i == 6 then Scene(Idle, 1024, Running, 0, 0, Account(1, 1, false), CPU2, multiset{}, {0, 1, 2}, {})
    else if i == 7 then Scene(Idle, 1024, Running, 0, 0, Account(2, 2, false), CPU2, multiset{}, {0, 1, 2}, {})
    else if i == 8 then Scene(Idle, 1024, Running, 0, 1, Account(2, 2, true), CPU2, multiset{}, {0, 1, 2}, {})
    else if i == 9 then Scene(Idle, 1024, NeedSchedule, 1024, 1, Account(2, 2, true), CPU2, multiset{}, {0, 1, 2}, {})
    else if i == 10 then
      Scene(Running, 1024, NeedSchedule, 1024, 1, Account(2, 2, true),
          CPU2.(run := [], left := None, choice := Chosen(0, true)), multiset{}, {0, 1, 2}, {})
    else if i == 11 then Scene(Running, 1024, Sleep, 1024, 1, Account(2, 2, true), CPU0.(sleep := [2]), multiset{},
        {0, 1, 2}, {})
    else if i == 12 then Scene(Running, 1024, Sleep, 1024, 0, Account(1, 2, true), CPU0.(sleep := [2]), multiset{LATE},
        {0, 1, 2}, {})
    else if i == 13 then Scene(Running, 1024, Sleep, 1024, -1, Account(0, 2, true), CPU0.(sleep := [2]),
        multiset{LATE, LATE}, {0, 1, 2}, {})
    else if i == 14 then Scene(Running, 1024, Sleep, 1024, -1, Account(0, 2, true), CPU0.(sleep := [2]),
        multiset{LATE}, {0, 1, 2}, {})
    else Scene(Running, 1024, Sleep, 1024, -1, Account(0, 2, true), CPU0.(sleep := [2]), multiset{}, {0, 1, 2}, {})
  }

  const PLAY: seq<Action> := [
    Launch(2, 0), Tick(0), ChooseNext(0), SwitchTo(0), Submit(0), Submit(0), Inc(0), Tick(0), ChooseNext(0),
        SwitchTo(0),
    Answer(2, 1), Answer(2, 1), Test(LATE), Test(LATE)]

  lemma PlotStep(i: nat, limit: nat)
    requires 1 <= i <= 14 && limit >= 2 && Typed(Plot(i))
    ensures Enabled(Plot(i), PLAY[i - 1], limit) && Next(Plot(i), PLAY[i - 1], limit) == Plot(i + 1)
  {
    hide Plot, Typed, Enabled, Next;
    if i == 1 { Plot1(limit); }
    else if i == 2 { Plot2(limit); }
    else if i == 3 { Plot3(limit); }
    else if i == 4 { Plot4(limit); }
    else if i == 5 { Plot5(limit); }
    else if i == 6 { Plot6(limit); }
    else if i == 7 { Plot7(limit); }
    else if i == 8 { Plot8(limit); }
    else if i == 9 { Plot9(limit); }
    else if i == 10 { Plot10(limit); }
    else if i == 11 { Plot11(limit); }
    else if i == 12 { Plot12(limit); }
    else if i == 13 { Plot13(limit); }
    else if i == 14 { Plot14(limit); }
  }

  lemma Plot1(limit: nat)
    requires limit >= 2 && Typed(Plot(1))
    ensures Enabled(Plot(1), Launch(2, 0), limit) && Next(Plot(1), Launch(2, 0), limit) == Plot(2)
  {}

  lemma Plot2(limit: nat)
    requires limit >= 2 && Typed(Plot(2))
    ensures Enabled(Plot(2), Tick(0), limit) && Next(Plot(2), Tick(0), limit) == Plot(3)
  {}

  lemma Plot3(limit: nat)
    requires limit >= 2 && Typed(Plot(3))
    ensures Enabled(Plot(3), ChooseNext(0), limit) && Next(Plot(3), ChooseNext(0), limit) == Plot(4)
  {
    assert [2][1..] == [];
  }

  lemma Plot4(limit: nat)
    requires limit >= 2 && Typed(Plot(4))
    ensures Enabled(Plot(4), SwitchTo(0), limit) && Next(Plot(4), SwitchTo(0), limit) == Plot(5)
  {
    hide WaitStep, HandleOne, Choose, Request, Remove, TreeDrop;
  }

  lemma Plot5(limit: nat)
    requires limit >= 2 && Typed(Plot(5))
    ensures Enabled(Plot(5), Submit(0), limit) && Next(Plot(5), Submit(0), limit) == Plot(6)
  {}

  lemma Plot6(limit: nat)
    requires limit >= 2 && Typed(Plot(6))
    ensures Enabled(Plot(6), Submit(0), limit) && Next(Plot(6), Submit(0), limit) == Plot(7)
  {}

  lemma Plot7(limit: nat)
    requires limit >= 2 && Typed(Plot(7))
    ensures Enabled(Plot(7), Inc(0), limit) && Next(Plot(7), Inc(0), limit) == Plot(8)
  {}

  lemma Plot8(limit: nat)
    requires limit >= 2 && Typed(Plot(8))
    ensures Enabled(Plot(8), Tick(0), limit) && Next(Plot(8), Tick(0), limit) == Plot(9)
  {
    hide WaitStep, HandleOne, Choose, Switch, Request;
  }

  lemma Plot9(limit: nat)
    requires limit >= 2 && Typed(Plot(9))
    ensures Enabled(Plot(9), ChooseNext(0), limit) && Next(Plot(9), ChooseNext(0), limit) == Plot(10)
  {
    assert [0][1..] == [];
  }

  lemma Plot10(limit: nat)
    requires limit >= 2 && Typed(Plot(10))
    ensures Enabled(Plot(10), SwitchTo(0), limit) && Next(Plot(10), SwitchTo(0), limit) == Plot(11)
  {
    assert [] + [2] == [2];
  }

  lemma Plot11(limit: nat)
    requires limit >= 2 && Typed(Plot(11))
    ensures Enabled(Plot(11), Answer(2, 1), limit) && Next(Plot(11), Answer(2, 1), limit) == Plot(12)
  {}

  lemma Plot12(limit: nat)
    requires limit >= 2 && Typed(Plot(12))
    ensures Enabled(Plot(12), Answer(2, 1), limit) && Next(Plot(12), Answer(2, 1), limit) == Plot(13)
  {}

  lemma Plot13(limit: nat)
    requires limit >= 2 && Typed(Plot(13))
    ensures Enabled(Plot(13), Test(LATE), limit) && Next(Plot(13), Test(LATE), limit) == Plot(14)
  {}

  lemma Plot14(limit: nat)
    requires limit >= 2 && Typed(Plot(14))
    ensures Enabled(Plot(14), Test(LATE), limit) && Next(Plot(14), Test(LATE), limit) == Plot(15)
  {}

  lemma PlotOpens(limit: nat)
    ensures Typed(Boot(2)) && Enabled(Boot(2), Create(0, 0, 0), limit)
    ensures Next(Boot(2), Create(0, 0, 0), limit) == Plot(1)
  {
    BootSane(2);
    var s := Boot(2);
    assert s.thds == [Thread(0, 0, Running, 0, 0, 0), Thread(1, 0, Running, 0, 0, 0)];
    assert s.cpus == [CPU0, Cpu(1, [], None, 0, [], [], [], [], Undecided)];
    assert s.launched == {0, 1};
    assert s.accts == [NONE, NONE];
  }

  lemma PlotSane(i: nat, limit: nat)
    requires 1 <= i <= 15 && limit >= 2
    ensures Sane(Plot(i)) && Typed(Plot(i))
    decreases i
  {
    hide Plot, Typed, Enabled, Next, Sane;
    if i == 1 {
      BootSane(2);
      PlotOpens(limit);
      StepSane(Boot(2), Create(0, 0, 0), limit);
    } else {
      PlotSane(i - 1, limit);
      PlotStep(i - 1, limit);
      StepSane(Plot(i - 1), PLAY[i - 2], limit);
    }
    SaneTyped(Plot(i));
  }

  lemma PlotRuns(i: nat, limit: nat)
    requires 1 <= i <= 15 && limit >= 2
    ensures CanRun(Plot(i), PLAY[i - 1..], limit) && After(Plot(i), PLAY[i - 1..], limit) == Plot(15)
    decreases 15 - i
  {
    hide Plot, Typed, Enabled, Next;
    if i < 15 {
      PlotSane(i, limit);
      PlotStep(i, limit);
      PlotRuns(i + 1, limit);
      assert PLAY[i - 1..] == [PLAY[i - 1]] + PLAY[i..];
      Cons(Plot(i), PLAY[i - 1], Plot(i + 1), PLAY[i..], limit);
    }
  }

  /** A thread hands out two requests and sleeps for the first; the two answers are both counted
      before either is tested, so each test reads -1 and nobody wakes the thread. */
  lemma {:induction false} BothTestsTooLate(limit: nat)
    requires limit >= 2
    ensures CanRun(Boot(2), [Create(0, 0, 0)] + PLAY, limit) && Typed(After(Boot(2), [Create(0, 0, 0)] + PLAY, limit))
    ensures !NoLostWakeup(After(Boot(2), [Create(0, 0, 0)] + PLAY, limit))
  {
    hide Plot, Typed, Enabled, Next, Boot, CanRun, After, NoLostWakeup, PLAY;
    PlotRuns(1, limit);
    PlotOpens(limit);
    assert PLAY[0..] == PLAY;
    Cons(Boot(2), Create(0, 0, 0), Plot(1), PLAY, limit);
    PlotEnds();
  }

  lemma PlotSleeps()
    requires Typed(Plot(15))
    ensures |Plot(15).thds| == 3 && Asleep(Plot(15), 2) && Plot(15).thds[2].reqWait <= 0
  {
    hide Typed;
  }

  lemma PlotSilent()
    requires Typed(Plot(15))
    ensures |Plot(15).thds| == 3 && !Pending(Plot(15), 2)
  {
    hide Typed;
  }

  lemma PlotEnds()
    ensures Typed(Plot(15)) && !NoLostWakeup(Plot(15))
  {
    hide Plot, Pending, Typed;
    PlotSane(15, 2);
    PlotSleeps();
    PlotSilent();
  }

  /** The kernel loses no wakeup, whatever the run, exactly if its threads keep to one outstanding
      request at a time. */
  lemma LostExactlyWithTwo(limit: nat)
    ensures (forall n: nat, acts | CanRun(Boot(n), acts, limit) ::
              Typed(After(Boot(n), acts, limit)) && NoLostWakeup(After(Boot(n), acts, limit)))
            <==> limit <= 1
  {
    hide CanRun, After, NoLostWakeup, Boot, Typed;
    if limit <= 1 {
      forall n: nat, acts | CanRun(Boot(n), acts, limit)
        ensures Typed(After(Boot(n), acts, limit)) && NoLostWakeup(After(Boot(n), acts, limit))
      {
        NoneLost(n, acts, limit);
      }
    } else {
      BothTestsTooLate(limit);
    }
  }

  /** A sleeper with a preempt message waiting is awake once its CPU has handled the messages up to it. */
  lemma MessageWakes(s: Sys, c: nat, t: Tid)
    requires Sane(s) && AtRest(s, c) && t < |s.thds| && s.cpus[c].mail != [] && s.cpus[c].mail[0] == Msg(t, NeedPreempt)
    ensures Sane(HandleOne(s, c)) && HandleOne(s, c).thds[t].state != Sleep
    ensures s.thds[t].state == Sleep && t in s.launched ==>
              HandleOne(s, c).thds[t].state == NeedPreempt && t in HandleOne(s, c).cpus[c].preempt &&
                  t !in HandleOne(s, c).cpus[c].sleep
  {
    hide TreePut, TreeDrop, Remove, Bag;
    HandleSane(s, c);
    MailHead(s, c);
    HeldOnce(HandleOne(s, c), c, t);
  }
}

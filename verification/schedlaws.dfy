/** What the functions of kernel/task/schedule.c do to threads and lists, said in terms of states,
    counters and places alone, and what follows for whole runs. */
module SchedLaws {
  import opened Sequences
  import opened Wrappers
  import opened Products
  import opened SchedSpec
  import opened SchedInv
  import opened SchedRuns
  import opened SchedFair

  /** Of threads and CPUs only t and c change, and t but in its vRuntime, which is now that of the
      thread that runs on c, and in its state. */
  ghost predicate OnlyHere(s: Sys, s': Sys, c: nat, t: Tid) {
    && c < |s.cpus| == |s'.cpus| && t < |s.thds| == |s'.thds| && s.cpus[c].cur < |s.thds|
    && (forall k | 0 <= k < |s.cpus| && k != c :: s'.cpus[k] == s.cpus[k])
    && (forall u | 0 <= u < |s.thds| && u != t :: s'.thds[u] == s.thds[u])
    && s'.thds[t] == s.thds[t].(vRuntime := s.thds[s.cpus[c].cur].vRuntime, state := s'.thds[t].state)
    && s'.accts == s.accts && s'.fins == s.fins && s'.created == s.created
  }

  /** A sleeper leaves the sleep list, stands in the run tree once and is Idle; a thread in any other
      state keeps state and place. */
  ghost predicate Woken(s: Sys, s': Sys, c: nat, t: Tid) {
    && OnlyHere(s, s', c, t) && s'.launched == s.launched
    && var (cpu, cpu') := (s.cpus[c], s'.cpus[c]);
    if s.thds[t].state == Sleep then
      && s'.thds[t].state == Idle && t !in cpu'.sleep && multiset(cpu'.run)[t] == 1
      && multiset(cpu'.run) == multiset(cpu.run) + multiset{t}
      && multiset(cpu'.sleep) == multiset(cpu.sleep) - multiset{t}
      && cpu' == cpu.(run := cpu'.run, left := cpu'.left, sleep := cpu'.sleep)
    else s'.thds[t].state == s.thds[t].state && cpu' == cpu
  }

  /** An idle thread or a sleeper leaves its place for the end of the preempt list. */
  ghost predicate Preempted(s: Sys, s': Sys, c: nat, t: Tid) {
    && OnlyHere(s, s', c, t) && s'.launched == s.launched
    && var (cpu, cpu') := (s.cpus[c], s'.cpus[c]);
    if s.thds[t].state == Idle || s.thds[t].state == Sleep then
      && s'.thds[t].state == NeedPreempt && cpu'.preempt == cpu.preempt + [t] && t !in cpu.preempt
      && t !in cpu'.run && t !in cpu'.sleep
      && multiset(cpu'.run) == multiset(cpu.run) - multiset{t}
      && multiset(cpu'.sleep) == multiset(cpu.sleep) - multiset{t}
      && cpu' == cpu.(run := cpu'.run, left := cpu'.left, sleep := cpu'.sleep, preempt := cpu'.preempt)
    else s'.thds[t].state == s.thds[t].state && cpu' == cpu
  }

  /** A new thread stands in the run tree once and is known to the scheduler. */
  ghost predicate Started(s: Sys, s': Sys, c: nat, t: Tid) {
    && OnlyHere(s, s', c, t) && s'.launched == s.launched + {t} && s'.thds[t].state == s.thds[t].state == Idle
    && var (cpu, cpu') := (s.cpus[c], s'.cpus[c]);
    && multiset(cpu'.run) == multiset(cpu.run) + multiset{t} && multiset(cpu'.run)[t] == 1
    && cpu' == cpu.(run := cpu'.run, left := cpu'.left)
  }

  /** One of the three, as the target state says. */
  ghost predicate Served(s: Sys, s': Sys, c: nat, t: Tid, target: State) {
    match target
    case NeedPreempt => Preempted(s, s', c, t)
    case Ready => Woken(s, s', c, t)
    case Idle => Started(s, s', c, t)
    case _ => s' == s
  }

  lemma WakeMoves(s: Sys, c: nat, t: Tid)
    requires Sane(s) && c < |s.cpus| && Known(s, t) && s.thds[t].cpu == c
    ensures c < |s.cpus| && s.cpus[c].cur < |s.thds| && TreeTyped(s.thds, s.cpus[c]) && Woken(s, WakeThd(s, c, t), c, t)
  {
    hide Bag, CpuTags, MailOk, Parted, TreePut, Remove;
    CpuIsTyped(s, c);
    HeldOnce(s, c, t);
    if s.thds[t].state == Sleep {
      RemoveIn(s.cpus[c].sleep, t);
    }
  }

  lemma CpuIsTyped(s: Sys, c: nat)
    requires Sane(s) && c < |s.cpus|
    ensures CpuTyped(s.thds, s.cpus[c])
  {
  }

  lemma RunLoses(cpu: Cpu, t: Tid)
    requires multiset(cpu.run)[t] == 1 && t !in cpu.sleep
    ensures var r := TreeDrop(cpu, t);
            && t !in r.run && multiset(r.run) == multiset(cpu.run) - multiset{t}
            && multiset(cpu.sleep) == multiset(cpu.sleep) - multiset{t}
  {
    hide Remove, Following;
    RemoveIn(cpu.run, t);
  }

  lemma {:induction false} SleepLoses(cpu: Cpu, t: Tid)
    requires multiset(cpu.sleep)[t] == 1 && t !in cpu.run
    ensures var r := Remove(cpu.sleep, t);
            && t !in r && multiset(r) == multiset(cpu.sleep) - multiset{t}
            && multiset(cpu.run) == multiset(cpu.run) - multiset{t}
  {
    hide Remove;
    RemoveIn(cpu.sleep, t);
  }

  lemma IdlePreempted(s: Sys, c: nat, t: Tid)
    requires c < |s.cpus| && t < |s.thds| && s.cpus[c].cur < |s.thds| && s.thds[t].state == Idle
    requires multiset(s.cpus[c].run)[t] == 1 && t !in s.cpus[c].sleep && t !in s.cpus[c].preempt
    ensures Preempted(s, PreemptThd(s, c, t), c, t)
  {
    hide TreeDrop;
    RunLoses(s.cpus[c], t);
  }

  lemma SleeperPreempted(s: Sys, c: nat, t: Tid)
    requires c < |s.cpus| && t < |s.thds| && s.cpus[c].cur < |s.thds| && s.thds[t].state == Sleep
    requires multiset(s.cpus[c].sleep)[t] == 1 && t !in s.cpus[c].run && t !in s.cpus[c].preempt
    ensures Preempted(s, PreemptThd(s, c, t), c, t)
  {
    hide Remove;
    SleepLoses(s.cpus[c], t);
  }

  lemma PreemptMoves(s: Sys, c: nat, t: Tid)
    requires Sane(s) && c < |s.cpus| && Known(s, t) && s.thds[t].cpu == c
    ensures s.cpus[c].cur < |s.thds| && Preempted(s, PreemptThd(s, c, t), c, t)
  {
    hide Bag, CpuTags, MailOk, Parted, PreemptThd, Preempted;
    CpuIsTyped(s, c);
    HeldOnce(s, c, t);
    if s.thds[t].state == Idle {
      IdlePreempted(s, c, t);
    } else if s.thds[t].state == Sleep {
      SleeperPreempted(s, c, t);
    } else {
      OthersStay(s, c, t);
    }
  }

  lemma OthersStay(s: Sys, c: nat, t: Tid)
    requires c < |s.cpus| && t < |s.thds| && s.cpus[c].cur < |s.thds|
    requires s.thds[t].state != Idle && s.thds[t].state != Sleep
    ensures Preempted(s, PreemptThd(s, c, t), c, t)
  {
  }

  lemma LaunchMoves(s: Sys, c: nat, t: Tid)
    requires Sane(s) && c < |s.cpus| && t < |s.thds| && s.thds[t].cpu == c && t !in s.launched
    requires s.thds[t].state == Idle
    ensures s.cpus[c].cur < |s.thds| && TreeTyped(s.thds, s.cpus[c]) && Started(s, LaunchThd(s, c, t), c, t)
  {
    hide Bag, CpuTags, MailOk, Parted, TreePut;
    CpuIsTyped(s, c);
    HeldOnce(s, c, t);
    NotInRun(s, c, t);
  }

  lemma NotInRun(s: Sys, c: nat, t: Tid)
    requires c < |s.cpus| && t !in Bag(s.cpus[c])
    ensures multiset(s.cpus[c].run)[t] == 0
  {
  }

  // ----- requests and messages -----

  /** Everything as in s, but the mail of CPU c is l. */
  ghost predicate MailIs(s: Sys, s': Sys, c: nat, l: seq<Msg>) {
    c < |s.cpus| && s' == s.(cpus := s.cpus[c := s.cpus[c].(mail := l)])
  }

  /** The first message is taken off and served; the others wait in their order. */
  ghost predicate Handled(s: Sys, s': Sys, c: nat) {
    && c < |s.cpus| && s.cpus[c].mail != []
    && var (m, s1) := (s.cpus[c].mail[0], s.(cpus := s.cpus[c := s.cpus[c].(mail := s.cpus[c].mail[1..])]));
    Served(s1, s', c, m.thd, m.target)
  }

  /** On the thread's own CPU it is served at once, from any other a message goes to the end of that
      CPU's mail. */
  ghost predicate Asked(s: Sys, s': Sys, c: nat, t: Tid, target: State) {
    && t < |s.thds| && s.thds[t].cpu < |s.cpus|
    && var k := s.thds[t].cpu;
    if k == c then Served(s, s', c, t, target) else MailIs(s, s', k, s.cpus[k].mail + [Msg(t, target)])
  }

  lemma HandleMoves(s: Sys, c: nat)
    requires Sane(s) && c < |s.cpus| && s.cpus[c].mail != []
    ensures s.cpus[c].cur < |s.thds| && TreeTyped(s.thds, s.cpus[c]) && s.cpus[c].mail[0].thd < |s.thds|
    ensures Handled(s, HandleOne(s, c), c)
  {
    hide Bag, CpuTags, MailOk, Parted, Sane, Served, PreemptThd, WakeThd, LaunchThd;
    FirstMail(s, c);
    PopSane(s, c);
    var m, s1 := s.cpus[c].mail[0], SetCpu(s, c, s.cpus[c].(mail := s.cpus[c].mail[1..]));
    match m.target
    case NeedPreempt => PreemptMoves(s1, c, m.thd); ServedIs(s1, c, m.thd);
    case Ready => WakeMoves(s1, c, m.thd); ServedIs(s1, c, m.thd);
    case Idle => LaunchMoves(s1, c, m.thd); ServedIs(s1, c, m.thd);
    case _ => ServedIs(s1, c, m.thd);
  }

  lemma FirstMail(s: Sys, c: nat)
    requires Sane(s) && c < |s.cpus| && s.cpus[c].mail != []
    ensures CpuTyped(s.thds, s.cpus[c]) && MsgOk(s, c, s.cpus[c].mail[0])
  {
    assert MailOk(s, c);
  }

  lemma ServedIs(s: Sys, c: nat, t: Tid)
    ensures forall s' :: Served(s, s', c, t, NeedPreempt) <==> Preempted(s, s', c, t)
    ensures forall s' :: Served(s, s', c, t, Ready) <==> Woken(s, s', c, t)
    ensures forall s' :: Served(s, s', c, t, Idle) <==> Started(s, s', c, t)
    ensures forall st | st != NeedPreempt && st != Ready && st != Idle :: Served(s, s, c, t, st)
  {
  }

  lemma AskMoves(s: Sys, c: nat, t: Tid, target: State)
    requires Sane(s) && c < |s.cpus| && t < |s.thds|
    requires target == NeedPreempt || target == Ready ==> Known(s, t)
    requires target == Idle ==> s.thds[t].state == Idle && t !in s.launched
    ensures s.cpus[c].cur < |s.thds| && TreeTyped(s.thds, s.cpus[c]) && s.thds[t].cpu < |s.cpus|
    ensures Asked(s, Request(s, c, t, target), c, t, target)
  {
    hide Bag, CpuTags, MailOk, Parted, Sane, Served, PreemptThd, WakeThd, LaunchThd, Known;
    SaneTyped(s);
    CpuIsTyped(s, c);
    if s.thds[t].cpu == c {
      ServedIs(s, c, t);
      match target
      case NeedPreempt => PreemptMoves(s, c, t);
      case Ready => WakeMoves(s, c, t);
      case Idle => LaunchMoves(s, c, t);
      case _ =>
    }
  }

  /** What the steps that concern another thread do. */
  lemma StepAsks(s: Sys, a: Action, limit: nat)
    requires Sane(s) && Enabled(s, a, limit)
    ensures a.Wake? ==> Asked(s, Next(s, a, limit), a.c, a.t, Ready)
    ensures a.Preempt? ==> Asked(s, Next(s, a, limit), a.c, a.t, NeedPreempt)
    ensures a.Launch? ==> Asked(s.(created := s.created - {a.t}), Next(s, a, limit), a.c, a.t, Idle)
    ensures a.Send? ==> Asked(s.(fins := s.fins - multiset{a.f}), Next(s, a, limit), a.f.cpu, a.f.thd, NeedPreempt)
    ensures a.Handle? ==> Handled(s, Next(s, a, limit), a.c)
  {
    hide Bag, CpuTags, MailOk, Parted, Sane, Asked, Handled, Request, HandleOne, Known;
    SaneTyped(s);
    match a
    case Wake(t, c) => KnownIn(s, t); AskMoves(s, c, t, Ready);
    case Preempt(t, c) => KnownIn(s, t); AskMoves(s, c, t, NeedPreempt);
    case Launch(t, c) => TakenSane(s, t); AskMoves(s.(created := s.created - {t}), c, t, Idle);
    case Send(f) =>
      KnownIn(s, f.thd);
      SaneFins(s);
      FinsSane(s, f.thd, s.fins - multiset{f});
      KnownStill(s, s.(fins := s.fins - multiset{f}), f.thd);
      AskMoves(s.(fins := s.fins - multiset{f}), f.cpu, f.thd, NeedPreempt);
    case Handle(c) => HandleMoves(s, c);
    case _ =>
  }

  lemma KnownIn(s: Sys, t: Tid)
    requires Known(s, t)
    ensures t < |s.thds|
  {
  }

  // ----- the choice and the switch -----

  /** Nothing but CPU c and the states of threads changes. */
  ghost predicate OnlyCpu(s: Sys, s': Sys, c: nat) {
    && c < |s.cpus| == |s'.cpus| && |s.thds| == |s'.thds| && s.cpus[c].cur < |s.thds|
    && (forall k | 0 <= k < |s.cpus| && k != c :: s'.cpus[k] == s.cpus[k])
    && s'.accts == s.accts && s'.fins == s.fins && s'.created == s.created && s'.launched == s.launched
  }

  /** The thread to go on next: the first that preempts, otherwise the cached left of the tree unless
      it ran for longer than the current one. */
  ghost predicate GoesNext(s: Sys, c: nat, n: Tid) {
    && c < |s.cpus| && s.cpus[c].cur < |s.thds| && n < |s.thds|
    && var cpu := s.cpus[c];
    if cpu.preempt != [] then n == cpu.preempt[0]
    else cpu.left == Some(n) && s.thds[n].vRuntime <= s.thds[cpu.cur].vRuntime
  }

  /** The decision.  A thread that goes on next leaves its list and is Running; the current one will
      sleep exactly if it waits for a request and runs no signal handler.  If none goes on next, the
      current thread runs on. */
  ghost predicate Decided(s: Sys, s': Sys, c: nat) {
    && OnlyCpu(s, s', c)
    && var (cpu, cpu', t) := (s.cpus[c], s'.cpus[c], s.cpus[c].cur);
    if exists n: Tid :: GoesNext(s, c, n) then
      cpu'.choice.Chosen? &&
      var n := cpu'.choice.nxt;
      && GoesNext(s, c, n) && s'.thds == s.thds[n := s.thds[n].(state := Running)]
      && (cpu'.choice.sleeps <==> s.thds[t].reqWait > 0 && s.thds[t].working == 0)
      && cpu' == cpu.(run := cpu'.run, left := cpu'.left, preempt := cpu'.preempt, choice := cpu'.choice)
      && (if cpu.preempt != [] then cpu.preempt == [n] + cpu'.preempt && cpu'.run == cpu.run
          else cpu'.preempt == [] && n !in cpu'.run && multiset(cpu'.run) == multiset(cpu.run) - multiset{n})
    else cpu' == cpu && s'.thds == s.thds[t := s.thds[t].(state := Running)]
  }

  lemma ChooseDecides(s: Sys, c: nat)
    requires Sane(s) && c < |s.cpus| && s.cpus[c].choice.Undecided?
    ensures s.cpus[c].cur < |s.thds| && TreeTyped(s.thds, s.cpus[c]) && Listed(s.thds, s.cpus[c].preempt)
    ensures Decided(s, Choose(s, c), c)
  {
    hide Bag, MailOk, Parted, Remove, Following, TreeDrop;
    CpuIsTyped(s, c);
    var cpu := s.cpus[c];
    if cpu.preempt != [] {
      assert GoesNext(s, c, cpu.preempt[0]);
    } else if cpu.left.Some? {
      LeftInRun(s, c);
      RunLoses(cpu, cpu.left.value);
      assert GoesNext(s, c, cpu.left.value) || s.thds[cpu.left.value].vRuntime > s.thds[cpu.cur].vRuntime;
    }
  }

  lemma LeftInRun(s: Sys, c: nat)
    requires Sane(s) && c < |s.cpus| && s.cpus[c].left.Some?
    ensures var t := s.cpus[c].left.value; multiset(s.cpus[c].run)[t] == 1 && t !in s.cpus[c].sleep
  {
    var t := s.cpus[c].left.value;
    assert CpuTags(s.thds, s.cpus[c]);
    assert Bag(s.cpus[c])[t] == if On(s, t, c) then 1 else 0;
  }

  /** The switch: the current thread goes to the sleep list if it was so decided, to the free list if it
      is to be freed, and otherwise into the run tree; the chosen one runs. */
  ghost predicate Switched(s: Sys, s': Sys, c: nat) {
    && OnlyCpu(s, s', c) && s.cpus[c].choice.Chosen?
    && var (cpu, cpu', t) := (s.cpus[c], s'.cpus[c], s.cpus[c].cur);
    && s'.thds == s.thds[t := s.thds[t].(state := s'.thds[t].state)]
    && cpu'.cur == cpu.choice.nxt && cpu'.choice.Undecided?
    && cpu'.preempt == cpu.preempt && cpu'.mail == cpu.mail
    && if cpu.choice.sleeps then
         && s'.thds[t].state == Sleep && cpu'.sleep == cpu.sleep + [t] && t !in cpu.sleep
         && cpu'.run == cpu.run && cpu'.free == cpu.free
       else if s.thds[t].state == NeedFree then
         && s'.thds[t].state == Free && cpu'.free == cpu.free + [t]
         && cpu'.run == cpu.run && cpu'.sleep == cpu.sleep
       else
         && s'.thds[t].state == Idle && multiset(cpu'.run) == multiset(cpu.run) + multiset{t} && t !in cpu.run
         && cpu'.sleep == cpu.sleep && cpu'.free == cpu.free
  }

  lemma SwitchPuts(s: Sys, c: nat)
    requires Sane(s) && c < |s.cpus| && s.cpus[c].choice.Chosen?
    ensures s.cpus[c].cur < |s.thds| && TreeTyped(s.thds, s.cpus[c]) && Switched(s, Switch(s, c), c)
  {
    hide Bag, MailOk, Parted, TreePut;
    CpuIsTyped(s, c);
    CurAlone(s, c);
  }

  lemma CurAlone(s: Sys, c: nat)
    requires Sane(s) && c < |s.cpus|
    ensures var (t, cpu) := (s.cpus[c].cur, s.cpus[c]);
            t !in cpu.sleep && t !in cpu.run && t !in cpu.free && CurState(s.thds[t].state)
  {
    assert CpuTags(s.thds, s.cpus[c]);
    assert Bag(s.cpus[c])[s.cpus[c].cur] <= 1;
  }

  // ----- who sleeps -----

  /** The step wakes or preempts t, on the CPU that t belongs to. */
  ghost predicate Rouses(s: Sys, a: Action, t: Tid)
    requires Typed(s) && t < |s.thds|
  {
    match a
    case Wake(u, c) => u == t && s.thds[t].cpu == c
    case Preempt(u, c) => u == t && s.thds[t].cpu == c
    case Send(f) => f.thd == t && s.thds[t].cpu == f.cpu
    case Handle(c) => c < |s.cpus| && s.cpus[c].mail != [] && s.cpus[c].mail[0].thd == t
    case _ => false
  }

  /** The step switches away from t, which is to sleep. */
  ghost predicate Retires(s: Sys, a: Action, t: Tid)
    requires Typed(s)
  {
    a.SwitchTo? && a.c < |s.cpus| && s.cpus[a.c].cur == t && s.cpus[a.c].choice.Chosen? && s.cpus[a.c].choice.sleeps
  }

  /** Serving a thread, on its own CPU, touches no other thread's state. */
  lemma ServedState(s: Sys, s': Sys, c: nat, u: Tid, target: State, t: Tid)
    requires Served(s, s', c, u, target) && t < |s.thds| && u < |s.thds|
    requires target == Idle ==> s.thds[u].state == Idle
    requires target == NeedPreempt || target == Ready || target == Idle
    ensures |s'.thds| == |s.thds| && s'.thds[t].working == s.thds[t].working
    ensures s'.thds[t].state == Sleep <==> s.thds[t].state == Sleep && t != u
    ensures forall k | 0 <= k < |s.cpus| ::
              k < |s'.cpus| && s'.cpus[k].choice == s.cpus[k].choice && s'.cpus[k].cur == s.cpus[k].cur
  {
  }

  lemma AskedState(s: Sys, s': Sys, c: nat, u: Tid, target: State, t: Tid)
    requires Asked(s, s', c, u, target) && t < |s.thds|
    requires target == Idle ==> s.thds[u].state == Idle
    requires target == NeedPreempt || target == Ready || target == Idle
    ensures |s'.thds| == |s.thds| && s'.thds[t].working == s.thds[t].working
    ensures s'.thds[t].state == Sleep <==> s.thds[t].state == Sleep && !(t == u && s.thds[t].cpu == c)
    ensures forall k | 0 <= k < |s.cpus| ::
              k < |s'.cpus| && s'.cpus[k].choice == s.cpus[k].choice && s'.cpus[k].cur == s.cpus[k].cur
  {
    hide Served;
    if s.thds[u].cpu == c { ServedState(s, s', c, u, target, t); }
  }

  lemma HandledState(s: Sys, s': Sys, c: nat, t: Tid)
    requires Sane(s) && Handled(s, s', c) && t < |s.thds|
    ensures |s'.thds| == |s.thds| && s'.thds[t].working == s.thds[t].working
    ensures s'.thds[t].state == Sleep <==> s.thds[t].state == Sleep && t != s.cpus[c].mail[0].thd
    ensures forall k | 0 <= k < |s.cpus| ::
              k < |s'.cpus| && s'.cpus[k].choice == s.cpus[k].choice && s'.cpus[k].cur == s.cpus[k].cur
  {
    hide Served, Bag, Sane;
    FirstMail(s, c);
    var m, s1 := s.cpus[c].mail[0], s.(cpus := s.cpus[c := s.cpus[c].(mail := s.cpus[c].mail[1..])]);
    ServedState(s1, s', c, m.thd, m.target, t);
  }

  /** The steps that decide for themselves. */
  lemma OwnState(s: Sys, a: Action, limit: nat, t: Tid)
    requires Sane(s) && Enabled(s, a, limit) && t < |s.thds| && (a.ChooseNext? || a.SwitchTo?)
    ensures t < |Next(s, a, limit).thds| && Next(s, a, limit).thds[t].working == s.thds[t].working
    ensures s.thds[t].state != Sleep ==> (Next(s, a, limit).thds[t].state == Sleep <==> Retires(s, a, t))
    ensures s.thds[t].state == Sleep && t in s.launched ==>
              Next(s, a, limit).thds[t].state == Sleep && !Retires(s, a, t)
  {
    hide Bag, MailOk, Parted, CpuTags, Choose, Switch, Mails, Created;
    SaneTyped(s);
    CurAlone(s, a.c);
    NextAwake(s, a.c);
    if a.ChooseNext? { ChooseDecides(s, a.c); } else { SwitchPuts(s, a.c); }
  }

  lemma NextAwake(s: Sys, c: nat)
    requires Sane(s) && c < |s.cpus|
    ensures forall n: Tid | GoesNext(s, c, n) :: s.thds[n].state != Sleep
  {
    assert CpuTags(s.thds, s.cpus[c]);
  }

  ghost predicate Asks(a: Action) { a.Wake? || a.Preempt? || a.Send? || a.Launch? || a.Handle? }

  lemma AskState(s: Sys, a: Action, limit: nat, t: Tid)
    requires Sane(s) && Enabled(s, a, limit) && t < |s.thds| && Asks(a)
    ensures t < |Next(s, a, limit).thds| && Next(s, a, limit).thds[t].working == s.thds[t].working
    ensures Next(s, a, limit).thds[t].state == Sleep <==> s.thds[t].state == Sleep && !Rouses(s, a, t)
    ensures forall k | 0 <= k < |s.cpus| ::
              var s' := Next(s, a, limit);
              k < |s'.cpus| && s'.cpus[k].choice == s.cpus[k].choice && s'.cpus[k].cur == s.cpus[k].cur
  {
    hide Bag, MailOk, Parted, CpuTags, Mails, Request, HandleOne, Known, Asked, Handled, Sane;
    SaneTyped(s);
    StepAsks(s, a, limit);
    match a
    case Wake(u, c) => AskedState(s, Next(s, a, limit), c, u, Ready, t);
    case Preempt(u, c) => AskedState(s, Next(s, a, limit), c, u, NeedPreempt, t);
    case Send(f) => AskedState(s.(fins := s.fins - multiset{f}), Next(s, a, limit), f.cpu, f.thd, NeedPreempt, t);
    case Launch(u, c) =>
      TakenSane(s, u);
      AskedState(s.(created := s.created - {u}), Next(s, a, limit), c, u, Idle, t);
    case Handle(c) => HandledState(s, Next(s, a, limit), c, t);
  }

  /** In every step exactly the thread that is switched away as a sleeper falls asleep, and a sleeper gets
      up exactly if its own CPU wakes or preempts it. */
  lemma StepState(s: Sys, a: Action, limit: nat, t: Tid)
    requires Sane(s) && Enabled(s, a, limit) && t < |s.thds|
    ensures t < |Next(s, a, limit).thds|
    ensures s.thds[t].state != Sleep ==> (Next(s, a, limit).thds[t].state == Sleep <==> Retires(s, a, t))
    ensures s.thds[t].state == Sleep && t in s.launched ==>
              (Next(s, a, limit).thds[t].state != Sleep <==> Rouses(s, a, t))
  {
    hide Bag, MailOk, Parted, CpuTags, Choose, Switch, Mails, Request, HandleOne, Known, Sane;
    SaneTyped(s);
    if Asks(a) {
      AskState(s, a, limit, t);
    } else if a.ChooseNext? || a.SwitchTo? {
      OwnState(s, a, limit, t);
    } else if a.Tick? || a.Exit? {
      CurAlone(s, a.c);
    }
  }

  // ----- signal handlers -----

  /** How the step changes the number of handlers that t is in. */
  ghost function Opens(s: Sys, a: Action, t: Tid): int
    requires Typed(s)
  {
    if a.EnterSignal? && a.c < |s.cpus| && s.cpus[a.c].cur == t then 1
    else if a.LeaveSignal? && a.c < |s.cpus| && s.cpus[a.c].cur == t then -1 else 0
  }

  /** Handlers that t entered in the run and did not leave. */
  ghost function Open(s: Sys, acts: seq<Action>, limit: nat, t: Tid): int
    requires CanRun(s, acts, limit)
    decreases |acts|
  {
    if acts == [] then 0 else Opens(s, acts[0], t) + Open(Next(s, acts[0], limit), acts[1..], limit, t)
  }

  function Working(s: Sys, t: Tid): nat { if t < |s.thds| then s.thds[t].working else 0 }

  lemma StepWork(s: Sys, a: Action, limit: nat, t: Tid)
    requires Sane(s) && Enabled(s, a, limit)
    ensures Working(Next(s, a, limit), t) == Working(s, t) + Opens(s, a, t)
  {
    hide Bag, MailOk, Parted, CpuTags, Choose, Switch, Mails, Request, HandleOne, Known, Sane;
    SaneTyped(s);
    if t < |s.thds| {
      if Asks(a) {
        AskState(s, a, limit, t);
      } else if a.ChooseNext? || a.SwitchTo? {
        OwnState(s, a, limit, t);
      }
    }
  }

  /** The counter workingSignal counts them. */
  lemma {:induction false} HandlersCounted(s: Sys, acts: seq<Action>, limit: nat, t: Tid)
    requires Sane(s) && CanRun(s, acts, limit)
    ensures Working(After(s, acts, limit), t) == Working(s, t) + Open(s, acts, limit, t)
    decreases |acts|
  {
    hide Sane, Next, Enabled, Opens, Working;
    if acts != [] {
      StepSane(s, acts[0], limit);
      StepWork(s, acts[0], limit, t);
      HandlersCounted(Next(s, acts[0], limit), acts[1..], limit, t);
    }
  }

  /** No sleeper is in a handler, nor a thread that is about to sleep. */
  ghost predicate Unworked(s: Sys) {
    && (forall t | 0 <= t < |s.thds| && s.thds[t].state == Sleep :: s.thds[t].working == 0)
    && forall c | 0 <= c < |s.cpus| && s.cpus[c].choice.Chosen? && s.cpus[c].choice.sleeps ::
         s.cpus[c].cur < |s.thds| && s.thds[s.cpus[c].cur].working == 0
  }
  /** t, which runs on CPU c, enters or leaves a handler. */
  lemma OnlyRunning(s: Sys, c: nat, k: nat)
    requires Sane(s) && c < |s.cpus| && k < |s.cpus| && c != k
    ensures s.cpus[c].cur < |s.thds| && s.cpus[c].cur != s.cpus[k].cur && s.thds[s.cpus[c].cur].state != Sleep
  {
    hide MailOk, Mails;
    assert CpuTags(s.thds, s.cpus[c]);
    var t := s.cpus[c].cur;
    assert t in Bag(s.cpus[c]) && Bag(s.cpus[c])[t] == if On(s, t, c) then 1 else 0;
    assert Bag(s.cpus[k])[t] == if On(s, t, k) then 1 else 0;
  }

  /** What the step does to the choice of CPU c. */
  lemma StepChoice(s: Sys, a: Action, limit: nat, c: nat)
    requires Sane(s) && Enabled(s, a, limit) && c < |s.cpus|
    ensures var s' := Next(s, a, limit);
            && c < |s'.cpus| && s.cpus[c].cur < |s.thds| && s'.cpus[c].cur < |s'.thds|
            && (s'.cpus[c].choice.Chosen? && s'.cpus[c].choice.sleeps ==>
                 s'.cpus[c].cur == s.cpus[c].cur &&
                 (s'.cpus[c].choice == s.cpus[c].choice ||
                  (a == ChooseNext(c) && s.thds[s.cpus[c].cur].working == 0)))
  {
    hide Bag, MailOk, Parted, CpuTags, Choose, Switch, Mails, Request, HandleOne, Known, Keeps, Sane;
    SaneTyped(s);
    StepSane(s, a, limit);
    SaneTyped(Next(s, a, limit));
    if a == ChooseNext(c) {
      ChooseDecides(s, c);
    } else if a == SwitchTo(c) {
      SwitchPuts(s, c);
    } else if Actor(a) != c {
      ElsewhereKeeps(s, a, limit, c);
      KeepsChoice(s, Next(s, a, limit), c);
    } else {
      AtWork(s, a, limit, c);
    }
  }

  lemma KeepsChoice(s: Sys, s': Sys, c: nat)
    requires Keeps(s, s', c)
    ensures c < |s.cpus| && c < |s'.cpus| && s'.cpus[c].choice == s.cpus[c].choice && s'.cpus[c].cur == s.cpus[c].cur
  {
  }

  /** Every other step of CPU c leaves it without a choice, as it was. */
  lemma AtWork(s: Sys, a: Action, limit: nat, c: nat)
    requires Sane(s) && Enabled(s, a, limit) && c < |s.cpus| && Actor(a) == c && !a.ChooseNext? && !a.SwitchTo?
    ensures c < |Next(s, a, limit).cpus| && Next(s, a, limit).cpus[c].choice == s.cpus[c].choice
    ensures Next(s, a, limit).cpus[c].cur == s.cpus[c].cur < |s.thds|
  {
    hide Bag, MailOk, Parted, CpuTags, Choose, Switch, Mails, Request, HandleOne, Known, Sane;
    SaneTyped(s);
    CpuIsTyped(s, c);
    if Asks(a) { AskState(s, a, limit, s.cpus[c].cur); }
  }

  lemma StepUnworked(s: Sys, a: Action, limit: nat)
    requires Sane(s) && Enabled(s, a, limit) && Unworked(s)
    ensures Unworked(Next(s, a, limit))
  {
    hide Bag, MailOk, Parted, CpuTags, Mails, Sane, Next, Opens, Enabled;
    SaneTyped(s);
    var s' := Next(s, a, limit);
    forall t | 0 <= t < |s'.thds| && s'.thds[t].state == Sleep ensures s'.thds[t].working == 0 {
      SleeperFree(s, a, limit, t);
    }
    forall c | 0 <= c < |s'.cpus| && s'.cpus[c].choice.Chosen? && s'.cpus[c].choice.sleeps
      ensures s'.cpus[c].cur < |s'.thds| && s'.thds[s'.cpus[c].cur].working == 0
    {
      ChooserFree(s, a, limit, c);
    }
  }

  lemma SleeperFree(s: Sys, a: Action, limit: nat, t: Tid)
    requires Sane(s) && Enabled(s, a, limit) && Unworked(s)
    requires t < |Next(s, a, limit).thds| && Next(s, a, limit).thds[t].state == Sleep
    ensures Next(s, a, limit).thds[t].working == 0
  {
    hide Bag, MailOk, Parted, CpuTags, Mails, Sane, Choose, Switch, Request, HandleOne;
    SaneTyped(s);
    StepWork(s, a, limit, t);
    if t < |s.thds| {
      StepState(s, a, limit, t);
      if a.EnterSignal? || a.LeaveSignal? { CurAlone(s, a.c); }
    }
  }

  lemma ChooserFree(s: Sys, a: Action, limit: nat, c: nat)
    requires Sane(s) && Enabled(s, a, limit) && Unworked(s)
    requires c < |Next(s, a, limit).cpus|
    requires Next(s, a, limit).cpus[c].choice.Chosen? && Next(s, a, limit).cpus[c].choice.sleeps
    ensures var s' := Next(s, a, limit); s'.cpus[c].cur < |s'.thds| && s'.thds[s'.cpus[c].cur].working == 0
  {
    hide Bag, MailOk, Parted, CpuTags, Mails, Sane, Choose, Switch, Request, HandleOne;
    SaneTyped(s);
    StepChoice(s, a, limit, c);
    StepWork(s, a, limit, s.cpus[c].cur);
    if a.EnterSignal? || a.LeaveSignal? {
      if a.c != c { OnlyRunning(s, a.c, c); }
    }
  }

  lemma {:induction false} RunUnworked(s: Sys, acts: seq<Action>, limit: nat)
    requires Sane(s) && CanRun(s, acts, limit) && Unworked(s)
    ensures Unworked(After(s, acts, limit))
    decreases |acts|
  {
    hide Sane, Next, Enabled, Unworked;
    if acts != [] {
      StepSane(s, acts[0], limit);
      StepUnworked(s, acts[0], limit);
      RunUnworked(Next(s, acts[0], limit), acts[1..], limit);
    }
  }

  /** In no run from boot does a thread sleep that is in a signal handler. */
  lemma {:induction false} AsleepNoHandler(n: nat, acts: seq<Action>, limit: nat, t: Tid)
    requires CanRun(Boot(n), acts, limit) && t < |After(Boot(n), acts, limit).thds|
    requires After(Boot(n), acts, limit).thds[t].state == Sleep
    ensures After(Boot(n), acts, limit).thds[t].working == 0 && Open(Boot(n), acts, limit, t) == 0
  {
    hide CanRun, After, Open, Sane;
    BootSane(n);
    RunUnworked(Boot(n), acts, limit);
    HandlersCounted(Boot(n), acts, limit, t);
  }

  // ----- from the test to the switch -----

  /** Whatever other CPUs do between the test of _hangCurThd and the switch, it is the switch to the
      chosen thread, with the answer of the test, that CPU c can do next. */
  lemma {:induction false} ChoiceStays(s: Sys, others: seq<Action>, limit: nat, c: nat)
    requires Sane(s) && c < |s.cpus| && s.cpus[c].choice.Chosen? && CanRun(s, others, limit)
    requires forall i | 0 <= i < |others| :: Actor(others[i]) != c
    ensures var s' := After(s, others, limit);
            && Sane(s') && c < |s'.cpus| && s'.cpus[c].choice == s.cpus[c].choice && s'.cpus[c].cur == s.cpus[c].cur
            && Typed(s') && Enabled(s', SwitchTo(c), limit)
    decreases |others|
  {
    hide Sane, Switch, WaitStep, HandleOne, Request, Choose;
    SaneTyped(s);
    if others != [] {
      StepSane(s, others[0], limit);
      ElsewhereKeeps(s, others[0], limit, c);
      assert forall i | 0 <= i < |others[1..]| :: others[1..][i] == others[i + 1];
      ChoiceStays(Next(s, others[0], limit), others[1..], limit, c);
    }
  }

  /** A whole scheduling point: CPU c decides in s, others do what they like, and c switches.  The thread
      that goes on next then runs.  The current one goes to the sleep list exactly if, when c decided,
      its counter was positive and it was in no signal handler; otherwise to the free list if it is to be
      freed, and into the run tree if not. */
  lemma {:induction false} SwitchedAway(s: Sys, others: seq<Action>, limit: nat, c: nat)
    requires Sane(s) && Enabled(s, ChooseNext(c), limit) && Next(s, ChooseNext(c), limit).cpus[c].choice.Chosen?
    requires CanRun(Next(s, ChooseNext(c), limit), others, limit)
    requires forall i | 0 <= i < |others| :: Actor(others[i]) != c
    ensures var s2 := After(Next(s, ChooseNext(c), limit), others, limit);
            && Typed(s2) && Enabled(s2, SwitchTo(c), limit)
            && var (t, s3) := (s.cpus[c].cur, Next(s2, SwitchTo(c), limit));
            && c < |s2.cpus| && c < |s3.cpus| && t < |s.thds| && t < |s2.thds| && t < |s3.thds|
            && var (th, cpu2, cpu3) := (s.thds[t], s2.cpus[c], s3.cpus[c]);
            && GoesNext(s, c, cpu3.cur) && cpu3.choice.Undecided?
            && (s3.thds[t].state == Sleep <==> th.reqWait > 0 && th.working == 0)
            && (t in cpu3.sleep <==> th.reqWait > 0 && th.working == 0)
            && (s3.thds[t].state != Sleep ==>
                 if s2.thds[t].state == NeedFree then cpu3.free == cpu2.free + [t] && s3.thds[t].state == Free
                 else multiset(cpu3.run)[t] == 1 && s3.thds[t].state == Idle)
  {
    hide Bag, MailOk, Parted, CpuTags, Mails, Sane, Choose, Switch, CanRun, After;
    SaneTyped(s);
    ChooseDecides(s, c);
    var s1 := Next(s, ChooseNext(c), limit);
    StepSane(s, ChooseNext(c), limit);
    ChoiceStays(s1, others, limit, c);
    var s2 := After(s1, others, limit);
    CurAlone(s2, c);
    CpuIsTyped(s2, c);
    SwitchPuts(s2, c);
  }

  // ----- requests are counted -----

  /** How the step changes the counter reqWait of t: a wait adds one, an answer takes one. */
  ghost function Waits(s: Sys, a: Action, t: Tid): int
    requires Typed(s)
  {
    if a.Inc? && a.c < |s.cpus| && s.cpus[a.c].cur == t then 1 else if a.Answer? && a.t == t then -1 else 0
  }

  /** How it changes the number of finishers on their way: an answer sends one off, a test that does not
      read zero ends its way, and so does the send. */
  ghost function Underway(s: Sys, a: Action): int {
    match a
    case Answer(t, c) => 1
    case Test(f) => if f.thd < |s.thds| && s.thds[f.thd].reqWait == 0 then 0 else -1
    case Send(f) => -1
    case _ => 0
  }

  ghost function Counter(s: Sys, t: Tid): int { if t < |s.thds| then s.thds[t].reqWait else 0 }

  lemma ServedCounter(s: Sys, s': Sys, c: nat, u: Tid, target: State, t: Tid)
    requires Served(s, s', c, u, target)
    requires target == NeedPreempt || target == Ready || target == Idle
    ensures Counter(s', t) == Counter(s, t) && s'.fins == s.fins
  {
  }

  lemma AskedCounter(s: Sys, s': Sys, c: nat, u: Tid, target: State, t: Tid)
    requires Asked(s, s', c, u, target)
    requires target == NeedPreempt || target == Ready || target == Idle
    ensures Counter(s', t) == Counter(s, t) && s'.fins == s.fins
  {
    hide Served;
    if s.thds[u].cpu == c { ServedCounter(s, s', c, u, target, t); }
  }

  lemma HandledCounter(s: Sys, s': Sys, c: nat, t: Tid)
    requires Sane(s) && Handled(s, s', c)
    ensures Counter(s', t) == Counter(s, t) && s'.fins == s.fins
  {
    hide Served, Bag, Sane;
    FirstMail(s, c);
    var m, s1 := s.cpus[c].mail[0], s.(cpus := s.cpus[c := s.cpus[c].(mail := s.cpus[c].mail[1..])]);
    ServedCounter(s1, s', c, m.thd, m.target, t);
  }

  lemma AskCounter(s: Sys, a: Action, limit: nat, t: Tid)
    requires Sane(s) && Enabled(s, a, limit) && Asks(a)
    ensures Counter(Next(s, a, limit), t) == Counter(s, t) + Waits(s, a, t)
    ensures |Next(s, a, limit).fins| == |s.fins| + Underway(s, a)
  {
    hide Bag, MailOk, Parted, CpuTags, Mails, Request, HandleOne, Known, Asked, Handled, Sane;
    SaneTyped(s);
    StepAsks(s, a, limit);
    match a
    case Wake(u, c) => AskedCounter(s, Next(s, a, limit), c, u, Ready, t);
    case Preempt(u, c) => AskedCounter(s, Next(s, a, limit), c, u, NeedPreempt, t);
    case Send(f) => AskedCounter(s.(fins := s.fins - multiset{f}), Next(s, a, limit), f.cpu, f.thd, NeedPreempt, t);
    case Launch(u, c) => AskedCounter(s.(created := s.created - {u}), Next(s, a, limit), c, u, Idle, t);
    case Handle(c) => HandledCounter(s, Next(s, a, limit), c, t);
  }

  lemma StepCounter(s: Sys, a: Action, limit: nat, t: Tid)
    requires Sane(s) && Enabled(s, a, limit)
    ensures Counter(Next(s, a, limit), t) == Counter(s, t) + Waits(s, a, t)
    ensures |Next(s, a, limit).fins| == |s.fins| + Underway(s, a)
  {
    hide Bag, MailOk, Parted, CpuTags, Choose, Switch, Mails, Request, HandleOne, Known, Sane;
    SaneTyped(s);
    if Asks(a) {
      AskCounter(s, a, limit, t);
    } else if a.ChooseNext? {
      ChooseDecides(s, a.c);
    } else if a.SwitchTo? {
      SwitchPuts(s, a.c);
    }
  }

  ghost function AllWaits(s: Sys, acts: seq<Action>, limit: nat, t: Tid): int
    requires CanRun(s, acts, limit)
    decreases |acts|
  {
    if acts == [] then 0 else Waits(s, acts[0], t) + AllWaits(Next(s, acts[0], limit), acts[1..], limit, t)
  }

  ghost function AllUnderway(s: Sys, acts: seq<Action>, limit: nat): int
    requires CanRun(s, acts, limit)
    decreases |acts|
  {
    if acts == [] then 0 else Underway(s, acts[0]) + AllUnderway(Next(s, acts[0], limit), acts[1..], limit)
  }

  /** In every run the counter of a thread is its waits less the answers to it, and each answer is one
      finisher, which sends at most once: it is on its way, has read another value than zero, or has sent. */
  lemma {:induction false} RequestsCounted(s: Sys, acts: seq<Action>, limit: nat, t: Tid)
    requires Sane(s) && CanRun(s, acts, limit)
    ensures Counter(After(s, acts, limit), t) == Counter(s, t) + AllWaits(s, acts, limit, t)
    ensures |After(s, acts, limit).fins| == |s.fins| + AllUnderway(s, acts, limit)
    decreases |acts|
  {
    hide Sane, Next, Enabled, Waits, Counter, Underway;
    if acts != [] {
      StepSane(s, acts[0], limit);
      StepCounter(s, acts[0], limit, t);
      RequestsCounted(Next(s, acts[0], limit), acts[1..], limit, t);
    }
  }

  // ----- messages arrive in order -----

  /** The message, if any, that the step posts to CPU k. */
  ghost function Posts(s: Sys, a: Action, k: nat): seq<Msg>
    requires Typed(s)
  {
    match a
    case Wake(t, c) => if c != k && t < |s.thds| && s.thds[t].cpu == k then [Msg(t, Ready)] else []
    case Preempt(t, c) => if c != k && t < |s.thds| && s.thds[t].cpu == k then [Msg(t, NeedPreempt)] else []
    case Launch(t, c) => if c != k && t < |s.thds| && s.thds[t].cpu == k then [Msg(t, Idle)] else []
    case Send(f) =>
      if f.cpu != k && f.thd < |s.thds| && s.thds[f.thd].cpu == k then [Msg(f.thd, NeedPreempt)] else []
    case _ => []
  }

  /** All that a run posts to CPU k. */
  ghost function Posted(s: Sys, acts: seq<Action>, limit: nat, k: nat): seq<Msg>
    requires CanRun(s, acts, limit)
    decreases |acts|
  {
    if acts == [] then [] else Posts(s, acts[0], k) + Posted(Next(s, acts[0], limit), acts[1..], limit, k)
  }

  /** How many messages the run serves on CPU k. */
  ghost function Serves(acts: seq<Action>, k: nat): nat {
    if acts == [] then 0 else (if acts[0] == Handle(k) then 1 else 0) + Serves(acts[1..], k)
  }

  lemma ServedMail(s: Sys, s': Sys, c: nat, t: Tid, target: State, k: nat)
    requires Served(s, s', c, t, target) && k < |s.cpus|
    ensures k < |s'.cpus| && s'.cpus[k].mail == s.cpus[k].mail
  {
  }

  lemma AskedMail(s: Sys, s': Sys, c: nat, t: Tid, target: State, k: nat)
    requires Asked(s, s', c, t, target) && k < |s.cpus|
    ensures k < |s'.cpus|
    ensures s'.cpus[k].mail == s.cpus[k].mail + if c != k && s.thds[t].cpu == k then [Msg(t, target)] else []
  {
    hide Served;
    if s.thds[t].cpu == c { ServedMail(s, s', c, t, target, k); }
  }

  lemma HandledMail(s: Sys, s': Sys, c: nat, k: nat)
    requires Handled(s, s', c) && k < |s.cpus|
    ensures k < |s'.cpus| && s'.cpus[k].mail == if k == c then s.cpus[k].mail[1..] else s.cpus[k].mail
  {
    hide Served;
    var m, s1 := s.cpus[c].mail[0], s.(cpus := s.cpus[c := s.cpus[c].(mail := s.cpus[c].mail[1..])]);
    ServedMail(s1, s', c, m.thd, m.target, k);
  }

  lemma AskMail(s: Sys, a: Action, limit: nat, k: nat)
    requires Sane(s) && Enabled(s, a, limit) && k < |s.cpus| && Asks(a)
    ensures a == Handle(k) ==> s.cpus[k].mail != []
    ensures k < |Next(s, a, limit).cpus|
    ensures Next(s, a, limit).cpus[k].mail ==
              (if a == Handle(k) then s.cpus[k].mail[1..] else s.cpus[k].mail) + Posts(s, a, k)
  {
    hide Bag, MailOk, Parted, CpuTags, Mails, Request, HandleOne, Known, Asked, Handled, Sane;
    SaneTyped(s);
    StepAsks(s, a, limit);
    match a
    case Wake(t, c) => KnownIn(s, t); AskedMail(s, Next(s, a, limit), c, t, Ready, k);
    case Preempt(t, c) => KnownIn(s, t); AskedMail(s, Next(s, a, limit), c, t, NeedPreempt, k);
    case Send(f) =>
      KnownIn(s, f.thd);
      AskedMail(s.(fins := s.fins - multiset{f}), Next(s, a, limit), f.cpu, f.thd, NeedPreempt, k);
    case Launch(t, c) =>
      TakenSane(s, t);
      AskedMail(s.(created := s.created - {t}), Next(s, a, limit), c, t, Idle, k);
    case Handle(c) => HandledMail(s, Next(s, a, limit), c, k);
  }

  lemma StepMail(s: Sys, a: Action, limit: nat, k: nat)
    requires Sane(s) && Enabled(s, a, limit) && k < |s.cpus|
    ensures a == Handle(k) ==> s.cpus[k].mail != []
    ensures k < |Next(s, a, limit).cpus|
    ensures Next(s, a, limit).cpus[k].mail ==
              (if a == Handle(k) then s.cpus[k].mail[1..] else s.cpus[k].mail) + Posts(s, a, k)
  {
    hide Bag, MailOk, Parted, CpuTags, Choose, Switch, Mails, Request, HandleOne, Known, Sane;
    SaneTyped(s);
    if Asks(a) {
      AskMail(s, a, limit, k);
    } else if a.ChooseNext? {
      ChooseDecides(s, a.c);
    } else if a.SwitchTo? {
      SwitchPuts(s, a.c);
    }
  }

  lemma QueueOn(mail: seq<Msg>, now: seq<Msg>, later: seq<Msg>, n: nat, served: bool)
    requires served ==> mail != []
    requires n <= |(if served then mail[1..] else mail) + now + later|
    ensures n + (if served then 1 else 0) <= |mail + (now + later)|
    ensures ((if served then mail[1..] else mail) + now + later)[n..] ==
              (mail + (now + later))[n + if served then 1 else 0..]
  {
    assert mail + (now + later) == mail + now + later;
    if served { assert mail == [mail[0]] + mail[1..]; }
  }

  /** Messages are neither lost nor overtaken: after every run the mail of a CPU is what it was at first
      and all that was posted since, in that order, without as many as were served. */
  lemma {:induction false} MailInOrder(s: Sys, acts: seq<Action>, limit: nat, k: nat)
    requires Sane(s) && CanRun(s, acts, limit) && k < |s.cpus|
    ensures k < |After(s, acts, limit).cpus|
    ensures var all := s.cpus[k].mail + Posted(s, acts, limit, k);
            Serves(acts, k) <= |all| && After(s, acts, limit).cpus[k].mail == all[Serves(acts, k)..]
    decreases |acts|
  {
    hide Sane, Next, Enabled, Posts;
    if acts != [] {
      var s1 := Next(s, acts[0], limit);
      StepSane(s, acts[0], limit);
      StepMail(s, acts[0], limit, k);
      MailInOrder(s1, acts[1..], limit, k);
      var n := Serves(acts[1..], k);
      QueueOn(s.cpus[k].mail, Posts(s, acts[0], k), Posted(s1, acts[1..], limit, k), n, acts[0] == Handle(k));
    }
  }

  // ----- the clock -----

  /** The step gives t the vRuntime of the thread that runs on its CPU. */
  ghost predicate Syncs(s: Sys, a: Action, t: Tid)
    requires Typed(s) && t < |s.thds|
  {
    Rouses(s, a, t) || (a.Launch? && a.t == t && s.thds[t].cpu == a.c)
  }

  ghost predicate Charges(s: Sys, a: Action, t: Tid)
    requires Typed(s)
  {
    a.Tick? && a.c < |s.cpus| && s.cpus[a.c].cur == t
  }

  lemma ServedClock(s: Sys, s': Sys, c: nat, u: Tid, target: State, t: Tid)
    requires Served(s, s', c, u, target) && t < |s.thds|
    requires target == NeedPreempt || target == Ready || target == Idle
    ensures |s'.thds| == |s.thds| && s'.thds[t].priority == s.thds[t].priority
    ensures c < |s.cpus| && s.cpus[c].cur < |s.thds|
    ensures s'.thds[t].vRuntime == s.thds[if t == u then s.cpus[c].cur else t].vRuntime
  {
  }

  lemma AskedClock(s: Sys, s': Sys, c: nat, u: Tid, target: State, t: Tid)
    requires Asked(s, s', c, u, target) && t < |s.thds| && c < |s.cpus| && s.cpus[c].cur < |s.thds|
    requires target == NeedPreempt || target == Ready || target == Idle
    ensures |s'.thds| == |s.thds| && s'.thds[t].priority == s.thds[t].priority
    ensures s'.thds[t].vRuntime == s.thds[if t == u && s.thds[t].cpu == c then s.cpus[c].cur else t].vRuntime
  {
    hide Served;
    if s.thds[u].cpu == c { ServedClock(s, s', c, u, target, t); }
  }

  lemma HandledClock(s: Sys, s': Sys, c: nat, t: Tid)
    requires Sane(s) && Handled(s, s', c) && t < |s.thds|
    ensures |s'.thds| == |s.thds| && s'.thds[t].priority == s.thds[t].priority && s.cpus[c].cur < |s.thds|
    ensures s'.thds[t].vRuntime == s.thds[if t == s.cpus[c].mail[0].thd then s.cpus[c].cur else t].vRuntime
  {
    hide Served, Bag, Sane;
    FirstMail(s, c);
    var m, s1 := s.cpus[c].mail[0], s.(cpus := s.cpus[c := s.cpus[c].(mail := s.cpus[c].mail[1..])]);
    ServedClock(s1, s', c, m.thd, m.target, t);
  }

  lemma AskClock(s: Sys, a: Action, limit: nat, t: Tid)
    requires Sane(s) && Enabled(s, a, limit) && t < |s.thds| && Asks(a)
    ensures Actor(a) < |s.cpus| && s.cpus[Actor(a)].cur < |s.thds|
    ensures t < |Next(s, a, limit).thds| && Next(s, a, limit).thds[t].priority == s.thds[t].priority
    ensures Next(s, a, limit).thds[t].vRuntime ==
              s.thds[if Syncs(s, a, t) then s.cpus[Actor(a)].cur else t].vRuntime
  {
    hide Bag, MailOk, Parted, CpuTags, Mails, Request, HandleOne, Known, Asked, Handled, Sane;
    SaneTyped(s);
    CpuIsTyped(s, Actor(a));
    StepAsks(s, a, limit);
    match a
    case Wake(u, c) => AskedClock(s, Next(s, a, limit), c, u, Ready, t);
    case Preempt(u, c) => AskedClock(s, Next(s, a, limit), c, u, NeedPreempt, t);
    case Send(f) => AskedClock(s.(fins := s.fins - multiset{f}), Next(s, a, limit), f.cpu, f.thd, NeedPreempt, t);
    case Launch(u, c) => AskedClock(s.(created := s.created - {u}), Next(s, a, limit), c, u, Idle, t);
    case Handle(c) => HandledClock(s, Next(s, a, limit), c, t);
  }

  /** A thread's clock advances by its weight with each tick that finds it running, takes over that of the
      running thread when it is woken, preempted or launched, and otherwise stands still. */
  lemma StepClock(s: Sys, a: Action, limit: nat, t: Tid)
    requires Sane(s) && Enabled(s, a, limit) && t < |s.thds|
    ensures t < |Next(s, a, limit).thds| && Next(s, a, limit).thds[t].priority == s.thds[t].priority
    ensures Syncs(s, a, t) ==>
              && Actor(a) < |s.cpus| && s.cpus[Actor(a)].cur < |s.thds|
              && Next(s, a, limit).thds[t].vRuntime == s.thds[s.cpus[Actor(a)].cur].vRuntime
    ensures !Syncs(s, a, t) ==>
              Next(s, a, limit).thds[t].vRuntime ==
              s.thds[t].vRuntime + if Charges(s, a, t) then Weight(s.thds[t].priority) else 0
  {
    hide Bag, MailOk, Parted, CpuTags, Choose, Switch, Mails, Request, HandleOne, Known, Sane, Weight;
    SaneTyped(s);
    if Asks(a) {
      AskClock(s, a, limit, t);
    } else if a.ChooseNext? {
      ChooseDecides(s, a.c);
    } else if a.SwitchTo? {
      SwitchPuts(s, a.c);
    }
  }

  ghost predicate NeverSyncs(s: Sys, acts: seq<Action>, limit: nat, t: Tid)
    requires CanRun(s, acts, limit)
    decreases |acts|
  {
    acts != [] ==>
      t < |s.thds| && !Syncs(s, acts[0], t) && NeverSyncs(Next(s, acts[0], limit), acts[1..], limit, t)
  }

  /** The ticks of the run that find t running. */
  ghost function TicksOf(s: Sys, acts: seq<Action>, limit: nat, t: Tid): nat
    requires CanRun(s, acts, limit)
    decreases |acts|
  {
    if acts == [] then 0
    else (if Charges(s, acts[0], t) then 1 else 0) + TicksOf(Next(s, acts[0], limit), acts[1..], limit, t)
  }

  /** So as long as a thread is not woken, preempted or launched, its clock counts its ticks, each as much
      as its weight. */
  lemma {:induction false} ClockCounts(s: Sys, acts: seq<Action>, limit: nat, t: Tid)
    requires Sane(s) && CanRun(s, acts, limit) && t < |s.thds| && NeverSyncs(s, acts, limit, t)
    ensures var s' := After(s, acts, limit);
            t < |s'.thds| &&
            s'.thds[t].vRuntime == s.thds[t].vRuntime + TicksOf(s, acts, limit, t) * Weight(s.thds[t].priority)
    decreases |acts|
  {
    hide Sane, Next, Enabled, Weight, Syncs, Charges;
    if acts != [] {
      var s1 := Next(s, acts[0], limit);
      StepSane(s, acts[0], limit);
      StepClock(s, acts[0], limit, t);
      ClockCounts(s1, acts[1..], limit, t);
      MulNext(TicksOf(s1, acts[1..], limit, t) + 1, Weight(s.thds[t].priority));
    }
  }

  /** A tick leads to a scheduling point. */
  lemma TickSchedules(s: Sys, c: nat, limit: nat)
    requires Sane(s) && Enabled(s, Tick(c), limit)
    ensures var s' := Next(s, Tick(c), limit); Typed(s') && Enabled(s', ChooseNext(c), limit)
  {
    hide Bag, MailOk, Parted, Mails;
    StepSane(s, Tick(c), limit);
    CurAlone(s, c);
  }

  predicate FallsByFifth(a: nat, b: nat) { 6 * b <= 5 * a && 25 * a <= 32 * b }

  lemma LowestWeights(p: Priority)
    requires p < -10
    ensures FallsByFifth(Weight(p), Weight(p + 1))
  {
  }

  lemma LowerWeights(p: Priority)
    requires -10 <= p < 0
    ensures FallsByFifth(Weight(p), Weight(p + 1))
  {
  }

  lemma UpperWeights(p: Priority)
    requires 0 <= p < 19
    ensures FallsByFifth(Weight(p), Weight(p + 1))
  {
  }

  /** From each priority to the next the weight falls by about a fifth; it is 1024 in the middle. */
  lemma NextWeight(p: Priority)
    requires p < 19
    ensures 6 * Weight(p + 1) <= 5 * Weight(p) && 25 * Weight(p) <= 32 * Weight(p + 1)
    ensures p == 0 ==> Weight(p) == 1024
  {
    if p < -10 { LowestWeights(p); } else if p < 0 { LowerWeights(p); } else { UpperWeights(p); }
  }

  /** So the weights fall. */
  lemma {:induction false} WeightsFall(p: Priority, q: Priority)
    requires p < q
    ensures Weight(p) > Weight(q)
    decreases q - p
  {
    hide Weight;
    NextWeight(p);
    if p + 1 < q { WeightsFall(p + 1, q); }
  }
}

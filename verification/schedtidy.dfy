/** The run tree over all runs: in order, with the right cached left, as long as nobody wakes a thread
    that stands in it. */
module SchedTidy {
  import opened Sequences
  import opened Wrappers
  import opened SchedSpec
  import opened SchedInv
  import opened SchedRuns
  import opened SchedWake
  import opened SchedFair

  /** The step wakes, on CPU c, a thread of its run tree, and so rewrites a key there. */
  ghost predicate Rekeys(s: Sys, a: Action, c: nat)
    requires Typed(s) && c < |s.cpus|
  {
    match a
    case Wake(t, k) => k == c && t < |s.thds| && s.thds[t].cpu == c && s.thds[t].state == Idle
    case Handle(k) =>
      k == c && s.cpus[c].mail != [] && var m := s.cpus[c].mail[0]; m.target == Ready && s.thds[m.thd].state == Idle
    case _ => false
  }

  // ----- what the functions do to a tree in order -----

  lemma SameTidy(thds: seq<Thread>, thds': seq<Thread>, cpu: Cpu)
    requires Tidy(thds, cpu) && |thds'| == |thds| && forall u | 0 <= u < |thds| :: thds'[u].vRuntime == thds[u].vRuntime
    ensures Tidy(thds', cpu)
  {
    hide Ordered;
    SameOrder(thds, thds', cpu.run);
  }

  /** Only the run time of a thread outside the tree changes. */
  lemma ButTidy(thds: seq<Thread>, thds': seq<Thread>, cpu: Cpu, t: Tid)
    requires Tidy(thds, cpu) && |thds'| == |thds| && t !in cpu.run
    requires forall u | 0 <= u < |thds| && u != t :: thds'[u].vRuntime == thds[u].vRuntime
    ensures Tidy(thds', cpu)
  {
    assert forall i | 0 <= i < |cpu.run| :: cpu.run[i] in cpu.run;
  }

  lemma {:induction false} RemoveOrdered(thds: seq<Thread>, l: seq<Tid>, t: Tid)
    requires Ordered(thds, l)
    ensures Ordered(thds, Remove(l, t)) && forall u | u in Remove(l, t) :: u in l
    ensures l != [] && l[0] != t ==> Remove(l, t) != [] && Remove(l, t)[0] == l[0]
    ensures l != [] && l[0] == t ==> Remove(l, t) == l[1..] && Following(l, t) == if |l| == 1 then None else Some(l[1])
  {
    hide Ordered, Least, Before;
    if l != [] {
      Split(thds, l);
      if l[0] != t {
        RemoveOrdered(thds, l[1..], t);
        LeastIn(thds, Remove(l[1..], t), l[1..], l[0]);
        Prepend(thds, l[0], Remove(l[1..], t));
      }
    }
  }

  lemma LeastIn(thds: seq<Thread>, l: seq<Tid>, l': seq<Tid>, x: Tid)
    requires x < |thds| && Least(thds, l', x) && forall u | u in l :: u in l'
    ensures Least(thds, l, x)
  {
  }

  /** Any thread leaves the tree; its own key may have been rewritten just before. */
  lemma LeaveTidy(thds: seq<Thread>, thds': seq<Thread>, cpu: Cpu, t: Tid)
    requires Tidy(thds, cpu) && multiset(cpu.run)[t] == 1 && |thds'| == |thds|
    requires forall u | 0 <= u < |thds| && u != t :: thds'[u].vRuntime == thds[u].vRuntime
    ensures Tidy(thds', TreeDrop(cpu, t))
  {
    hide Ordered, Remove, Following;
    RemoveOrdered(thds, cpu.run, t);
    RemoveIn(cpu.run, t);
    assert Tidy(thds, TreeDrop(cpu, t));
    ButTidy(thds, thds', TreeDrop(cpu, t), t);
  }

  lemma PreemptTidy(s: Sys, c: nat, t: Tid)
    requires Sane(s) && c < |s.cpus| && Known(s, t) && s.thds[t].cpu == c && Tidy(s.thds, s.cpus[c])
    ensures Tidy(PreemptThd(s, c, t).thds, PreemptThd(s, c, t).cpus[c])
  {
    hide Bag, Mails, Parted, TreeDrop, Remove, Ordered;
    HeldOnce(s, c, t);
    if s.thds[t].state == Idle {
      LeaveTidy(s.thds, PreemptThd(s, c, t).thds, s.cpus[c], t);
    } else {
      NotInTree(s, c, t);
      ButTidy(s.thds, PreemptThd(s, c, t).thds, s.cpus[c], t);
    }
  }

  lemma NotInTree(s: Sys, c: nat, t: Tid)
    requires Sane(s) && c < |s.cpus| && t < |s.thds| && s.thds[t].cpu == c
    requires s.thds[t].state != Idle || t !in s.launched
    ensures t !in s.cpus[c].run
  {
    assert CpuTags(s.thds, s.cpus[c]);
    if t in s.cpus[c].run && s.thds[t].state == Idle { RunOn(s, c, t); }
  }

  lemma WakeTidy(s: Sys, c: nat, t: Tid)
    requires Sane(s) && c < |s.cpus| && Known(s, t) && s.thds[t].cpu == c
    requires Tidy(s.thds, s.cpus[c]) && s.thds[t].state != Idle
    ensures Tidy(WakeThd(s, c, t).thds, WakeThd(s, c, t).cpus[c])
  {
    hide Bag, Mails, Parted, TreePut, Remove, Ordered;
    NotInTree(s, c, t);
    var s1 := Sync(s, c, t);
    ButTidy(s.thds, s1.thds, s.cpus[c], t);
    if s.thds[t].state == Sleep {
      var cpu := s.cpus[c].(sleep := Remove(s.cpus[c].sleep, t));
      PutTidy(s1.thds, cpu, t);
      SameTidy(s1.thds, WakeThd(s, c, t).thds, TreePut(s1.thds, cpu, t));
    }
  }

  lemma LaunchTidy(s: Sys, c: nat, t: Tid)
    requires Sane(s) && c < |s.cpus| && t < |s.thds|
    requires s.thds[t].cpu == c && t !in s.launched && Tidy(s.thds, s.cpus[c])
    ensures Tidy(LaunchThd(s, c, t).thds, LaunchThd(s, c, t).cpus[c])
  {
    hide Bag, Mails, Parted, TreePut, Ordered;
    NotInTree(s, c, t);
    var s1 := Sync(s, c, t);
    ButTidy(s.thds, s1.thds, s.cpus[c], t);
    PutTidy(s1.thds, s.cpus[c], t);
  }

  lemma ChooseTidy(s: Sys, c: nat)
    requires Sane(s) && AtRest(s, c) && Tidy(s.thds, s.cpus[c])
    ensures Tidy(Choose(s, c).thds, Choose(s, c).cpus[c])
  {
    hide Sane, Ordered, TreeDrop;
    SaneTyped(s);
    if s.cpus[c].run != [] { DropTidy(s.thds, s.cpus[c]); }
    SameTidy(s.thds, Choose(s, c).thds, Choose(s, c).cpus[c]);
  }

  lemma SwitchTidy(s: Sys, c: nat)
    requires Sane(s) && c < |s.cpus| && s.cpus[c].choice.Chosen? && Tidy(s.thds, s.cpus[c])
    ensures Tidy(Switch(s, c).thds, Switch(s, c).cpus[c])
  {
    hide Sane, Ordered, TreePut;
    SaneTyped(s);
    var cpu := s.cpus[c];
    PutTidy(s.thds, cpu.(cur := cpu.choice.nxt, choice := Undecided), cpu.cur);
    SameTidy(s.thds, Switch(s, c).thds, Switch(s, c).cpus[c]);
  }

  lemma TickTidy(s: Sys, c: nat)
    requires Sane(s) && AtRest(s, c) && Tidy(s.thds, s.cpus[c])
    ensures Tidy(UpdCur(s, s.cpus[c].cur).thds, s.cpus[c])
  {
    hide Sane, Ordered;
    SaneTyped(s);
    NotInRun(s, c);
    ButTidy(s.thds, UpdCur(s, s.cpus[c].cur).thds, s.cpus[c], s.cpus[c].cur);
  }

  lemma KeepsTidy(s: Sys, s': Sys, c: nat)
    requires Sane(s) && c < |s.cpus| && Tidy(s.thds, s.cpus[c]) && Keeps(s, s', c)
    ensures c < |s'.cpus| && Tidy(s'.thds, s'.cpus[c])
  {
    hide Bag, Mails, Typed, Parted;
    var cpu := s.cpus[c];
    forall t | t in cpu.run ensures On(s, t, c) { RunOn(s, c, t); }
    assert forall i | 0 <= i < |cpu.run| :: cpu.run[i] in cpu.run;
  }

  lemma HandleTidy(s: Sys, c: nat)
    requires Sane(s) && AtRest(s, c) && s.cpus[c].mail != []
    requires Tidy(s.thds, s.cpus[c]) && Typed(s) && !Rekeys(s, Handle(c), c)
    ensures Tidy(HandleOne(s, c).thds, HandleOne(s, c).cpus[c])
  {
    hide Bag, CpuTags, MailOk, Parted, WakeThd, LaunchThd, PreemptThd, Known, Ordered;
    PopSane(s, c);
    var m := s.cpus[c].mail[0];
    var s1 := SetCpu(s, c, s.cpus[c].(mail := s.cpus[c].mail[1..]));
    match m.target
    case NeedPreempt => KnownSame(s, s1, m.thd); PreemptTidy(s1, c, m.thd);
    case Ready => KnownSame(s, s1, m.thd); WakeTidy(s1, c, m.thd);
    case Idle => LaunchTidy(s1, c, m.thd);
    case _ =>
  }

  /** The CPU asks for a thread: its own at once, another's by message. */
  lemma AskTidy(s: Sys, a: Action, limit: nat, c: nat)
    requires Sane(s) && Enabled(s, a, limit) && c < |s.cpus|
    requires !Rekeys(s, a, c) && Actor(a) == c && Tidy(s.thds, s.cpus[c])
    requires a.Send? || a.Launch? || a.Wake? || a.Preempt?
    ensures c < |Next(s, a, limit).cpus| && Tidy(Next(s, a, limit).thds, Next(s, a, limit).cpus[c])
  {
    hide Bag, Tidy, Keeps, WakeThd, LaunchThd, PreemptThd, CpuTags, MailOk, Parted;
    var t := if a.Send? then a.f.thd else a.t;
    var s1 := if a.Send? then s.(fins := s.fins - multiset{a.f}) else if a.Launch? then s.(created := s.created - {t})
        else s;
    if s.thds[t].cpu != c {
      RequestKeeps(s1, c, t, if a.Launch? then Idle else if a.Wake? then Ready else NeedPreempt, c);
      SameKeeps(s, s1, Next(s, a, limit), c);
      KeepsTidy(s, Next(s, a, limit), c);
    } else if a.Wake? {
      WakeTidy(s, c, t);
    } else if a.Launch? {
      Uncreate(s, t);
      LaunchTidy(s1, c, t);
    } else if a.Preempt? {
      PreemptTidy(s, c, t);
    } else {
      FinsSane(s, t, s1.fins);
      PreemptTidy(s1, c, t);
    }
  }

  /** Every step but that wake leaves the tree in order and its cached left right: preemptions, steps of
      other CPUs and any number of ticks included. */
  lemma StepTidy(s: Sys, a: Action, limit: nat, c: nat)
    requires Sane(s) && Typed(s) && Enabled(s, a, limit) && c < |s.cpus| && !Rekeys(s, a, c) && Tidy(s.thds, s.cpus[c])
    ensures c < |Next(s, a, limit).cpus| && Tidy(Next(s, a, limit).thds, Next(s, a, limit).cpus[c])
  {
    hide Bag, Tidy, Keeps, Choose, Switch, HandleOne, Request, CpuTags, MailOk, Parted, Sane;
    if Actor(a) != c || !(a.Send? || a.Tick? || a.ChooseNext? || a.SwitchTo? || a.Handle? || a.Launch? || a.Wake? ||
        a.Preempt?) {
      ElsewhereKeeps(s, a, limit, c);
      KeepsTidy(s, Next(s, a, limit), c);
    } else if a.Tick? {
      TickTidy(s, c);
    } else if a.ChooseNext? {
      ChooseTidy(s, c);
    } else if a.SwitchTo? {
      SwitchTidy(s, c);
    } else if a.Handle? {
      HandleTidy(s, c);
    } else {
      AskTidy(s, a, limit, c);
    }
  }

  // ----- runs -----

  /** A run in which nobody wakes a thread of CPU c's run tree. */
  ghost predicate NeverRekeys(s: Sys, acts: seq<Action>, limit: nat, c: nat)
    requires CanRun(s, acts, limit)
    decreases |acts|
  {
    acts == [] || (c < |s.cpus| && !Rekeys(s, acts[0], c) && NeverRekeys(Next(s, acts[0], limit), acts[1..], limit, c))
  }

  lemma {:induction false} TidyOn(s: Sys, acts: seq<Action>, limit: nat, c: nat)
    requires Sane(s) && CanRun(s, acts, limit) && NeverRekeys(s, acts, limit, c)
    requires c < |s.cpus| && Tidy(s.thds, s.cpus[c])
    ensures Sane(After(s, acts, limit)) && c < |After(s, acts, limit).cpus|
    ensures Tidy(After(s, acts, limit).thds, After(s, acts, limit).cpus[c])
    decreases |acts|
  {
    hide Sane, Tidy, Enabled, Next, Rekeys;
    if acts != [] {
      StepSane(s, acts[0], limit);
      StepTidy(s, acts[0], limit, c);
      TidyOn(Next(s, acts[0], limit), acts[1..], limit, c);
    }
  }

  /** In every run from boot in which nobody wakes a thread of CPU c's run tree, that tree is in order and
      its cached left is its first thread. */
  lemma {:induction false} TidyRun(n: nat, acts: seq<Action>, limit: nat, c: nat)
    requires c < n && CanRun(Boot(n), acts, limit) && NeverRekeys(Boot(n), acts, limit, c)
    ensures var s := After(Boot(n), acts, limit); Sane(s) && c < |s.cpus| && Tidy(s.thds, s.cpus[c])
  {
    hide CanRun, NeverRekeys, After;
    BootSane(n);
    TidyOn(Boot(n), acts, limit, c);
  }

  /** At every scheduling point of such a run at which no preempted thread waits, the thread that goes on
      has the least vRuntime of all that could, however many ticks have passed. */
  lemma {:induction false} LeastChosen(n: nat, acts: seq<Action>, limit: nat, c: nat, s: Sys, t: Tid)
    requires c < n && CanRun(Boot(n), acts, limit)
    requires NeverRekeys(Boot(n), acts, limit, c) && s == After(Boot(n), acts, limit)
    requires Typed(s) && AtRest(s, c) && s.cpus[c].preempt == [] && (t == s.cpus[c].cur || t in s.cpus[c].run)
    ensures t < |s.thds| && GoesOn(s, c) < |s.thds| && s.thds[GoesOn(s, c)].vRuntime <= s.thds[t].vRuntime
  {
    hide CanRun, NeverRekeys, After, Boot, Ordered, TreeDrop, Sane;
    TidyRun(n, acts, limit, c);
    if s.cpus[c].run != [] { FirstLeast(s.thds, s.cpus[c].run); }
  }

  // ----- a run to a stale left -----

  function OnOne(thds: seq<Thread>, cpu: Cpu, launched: set<Tid>, created: set<Tid>): Sys {
    Sys(thds, seq(|thds|, _ => Account(0, 0, false)), [cpu], multiset{}, launched, created)
  }

  // the states of the run

  function Stage0(): Sys {
    OnOne([Thread(0, 0, Running, 0, 0, 0)],
          Cpu(0, [], None, 0, [], [], [], [], Undecided), {0}, {})
  }

  function Stage1(): Sys {
    OnOne([Thread(0, 0, Running, 0, 0, 0), Thread(0, 1, Idle, 0, 0, 0)],
          Cpu(0, [], None, 0, [], [], [], [], Undecided), {0}, {1})
  }

  function Stage2(): Sys {
    OnOne([Thread(0, 0, Running, 0, 0, 0), Thread(0, 1, Idle, 0, 0, 0), Thread(0, 19, Idle, 0, 0, 0)],
          Cpu(0, [], None, 0, [], [], [], [], Undecided), {0}, {1, 2})
  }

  function Stage3(): Sys {
    OnOne([Thread(0, 0, Running, 0, 0, 0), Thread(0, 1, Idle, 0, 0, 0), Thread(0, 19, Idle, 0, 0, 0)],
          Cpu(0, [1], Some(1), 0, [], [], [], [], Undecided), {0, 1}, {2})
  }

  function Stage4(): Sys {
    OnOne([Thread(0, 0, Running, 0, 0, 0), Thread(0, 1, Idle, 0, 0, 0), Thread(0, 19, Idle, 0, 0, 0)],
          Cpu(0, [1, 2], Some(1), 0, [], [], [], [], Undecided), {0, 1, 2}, {})
  }

  function Stage5(): Sys {
    OnOne([Thread(0, 0, NeedSchedule, 1024, 0, 0), Thread(0, 1, Idle, 0, 0, 0), Thread(0, 19, Idle, 0, 0, 0)],
          Cpu(0, [1, 2], Some(1), 0, [], [], [], [], Undecided), {0, 1, 2}, {})
  }

  function Stage6(): Sys {
    OnOne([Thread(0, 0, NeedSchedule, 1024, 0, 0), Thread(0, 1, Running, 0, 0, 0), Thread(0, 19, Idle, 0, 0, 0)],
          Cpu(0, [2], Some(2), 0, [], [], [], [], Chosen(1, false)), {0, 1, 2}, {})
  }

  function Stage7(): Sys {
    OnOne([Thread(0, 0, Idle, 1024, 0, 0), Thread(0, 1, Running, 0, 0, 0), Thread(0, 19, Idle, 0, 0, 0)],
          Cpu(1, [2, 0], Some(2), 0, [], [], [], [], Undecided), {0, 1, 2}, {})
  }

  function Stage8(): Sys {
    OnOne([Thread(0, 0, Idle, 1024, 0, 0), Thread(0, 1, NeedSchedule, 820, 0, 0), Thread(0, 19, Idle, 0, 0, 0)],
          Cpu(1, [2, 0], Some(2), 0, [], [], [], [], Undecided), {0, 1, 2}, {})
  }

  function Stage9(): Sys {
    OnOne([Thread(0, 0, Idle, 1024, 0, 0), Thread(0, 1, NeedSchedule, 820, 0, 0), Thread(0, 19, Running, 0, 0, 0)],
          Cpu(1, [0], Some(0), 0, [], [], [], [], Chosen(2, false)), {0, 1, 2}, {})
  }

  function Stage10(): Sys {
    OnOne([Thread(0, 0, Idle, 1024, 0, 0), Thread(0, 1, Idle, 820, 0, 0), Thread(0, 19, Running, 0, 0, 0)],
          Cpu(2, [1, 0], Some(1), 0, [], [], [], [], Undecided), {0, 1, 2}, {})
  }

  function Stage11(): Sys {
    OnOne([Thread(0, 0, Idle, 0, 0, 0), Thread(0, 1, Idle, 820, 0, 0), Thread(0, 19, Running, 0, 0, 0)],
          Cpu(2, [1, 0], Some(1), 0, [], [], [], [], Undecided), {0, 1, 2}, {})
  }

  function Stage12(): Sys {
    OnOne([Thread(0, 0, Idle, 0, 0, 0), Thread(0, 1, Idle, 820, 0, 0), Thread(0, 19, NeedSchedule, 15, 0, 0)],
          Cpu(2, [1, 0], Some(1), 0, [], [], [], [], Undecided), {0, 1, 2}, {})
  }

  function Stage13(): Sys {
    OnOne([Thread(0, 0, Idle, 0, 0, 0), Thread(0, 1, Idle, 820, 0, 0), Thread(0, 19, NeedSchedule, 15, 0, 0),
        Thread(0, 0, Idle, 15, 0, 0)],
          Cpu(2, [1, 0], Some(1), 0, [], [], [], [], Undecided), {0, 1, 2}, {3})
  }

  function Stage14(): Sys {
    OnOne([Thread(0, 0, Idle, 0, 0, 0), Thread(0, 1, Idle, 820, 0, 0), Thread(0, 19, NeedSchedule, 15, 0, 0),
        Thread(0, 0, Idle, 15, 0, 0)],
          Cpu(2, [1, 0], Some(1), 2, [], [], [], [], Undecided), {0, 1, 2}, {3})
  }

  function Stage15(): Sys {
    OnOne([Thread(0, 0, Idle, 0, 0, 0), Thread(0, 1, Idle, 820, 0, 0), Thread(0, 19, NeedSchedule, 15, 0, 0),
        Thread(0, 0, Idle, 15, 0, 0)],
          Cpu(2, [1, 0, 3], Some(3), 2, [], [], [], [], Undecided), {0, 1, 2, 3}, {})
  }

  function Story(i: nat): Sys {
    if i == 0 then Stage0()
    else if i == 1 then Stage1()
    else if i == 2 then Stage2()
    else if i == 3 then Stage3()
    else if i == 4 then Stage4()
    else if i == 5 then Stage5()
    else if i == 6 then Stage6()
    else if i == 7 then Stage7()
    else if i == 8 then Stage8()
    else if i == 9 then Stage9()
    else if i == 10 then Stage10()
    else if i == 11 then Stage11()
    else if i == 12 then Stage12()
    else if i == 13 then Stage13()
    else if i == 14 then Stage14()
    else Stage15()
  }

  const STORY: seq<Action> := [
    Create(0, 0, 1), Create(0, 0, 19), Launch(1, 0), Launch(2, 0), Tick(0), ChooseNext(0), SwitchTo(0),
    Tick(0), ChooseNext(0), SwitchTo(0), Wake(0, 0), Tick(0), Create(0, 0, 0), Stir(0, 2), Launch(3, 0)]

  /** Insertion next to a single thread. */
  lemma PutSecond(thds: seq<Thread>, cpu: Cpu, t: Tid, u: Tid)
    requires t < |thds| && u < |thds| && cpu.run == [u] && cpu.left == Some(u)
    ensures TreeTyped(thds, cpu)
    ensures TreePut(thds, cpu, t) == cpu.(run := if Before(thds, t, u) then [t, u]
              else [u, t], left := Some(if Before(thds, t, u) then t else u))
  {
    hide Before;
    assert InOrder(thds, [u]);
    assert Insert(thds, [u][1..], t) == [t];
  }

  /** Insertion at the end of two threads that are out of order. */
  lemma PutStray(thds: seq<Thread>, cpu: Cpu, t: Tid, x: Tid, y: Tid)
    requires t < |thds| && x < |thds| && y < |thds| && cpu.run == [x, y]
    requires cpu.left == Some(x) && cpu.spot == 2 && Before(thds, y, x)
    ensures TreeTyped(thds, cpu)
    ensures TreePut(thds, cpu, t) == cpu.(run := [x, y, t], left := Some(if Before(thds, t, x) then t else x))
  {
    hide Before, Insert;
    assert !InOrder(thds, [x, y]) by { assert Before(thds, [x, y][1], [x, y][0]); }
    assert InsertAt([x, y], t, 2) == [x, y, t];
  }

  lemma LaunchNow(s: Sys, t: Tid, c: nat, limit: nat)
    requires Typed(s) && Enabled(s, Launch(t, c), limit) && t < |s.thds| && s.thds[t].cpu == c
    ensures Next(s, Launch(t, c), limit) == LaunchThd(s.(created := s.created - {t}), c, t)
  {
  }

  lemma SwitchNow(s: Sys, c: nat, limit: nat)
    requires Typed(s) && Enabled(s, SwitchTo(c), limit)
    ensures Next(s, SwitchTo(c), limit) == Switch(s, c)
  {
  }

  /** What a launch and a switch do on a single CPU, once it is known what the insertion does. */
  lemma LaunchGives(s: Sys, t: Tid, cpu: Cpu)
    requires |s.cpus| == 1 && t < |s.thds| && s.cpus[0].cur < |s.thds| && TreeTyped(s.thds, s.cpus[0])
    requires s.thds[t].vRuntime == s.thds[s.cpus[0].cur].vRuntime && cpu == TreePut(s.thds, s.cpus[0], t)
    ensures LaunchThd(s, 0, t) == s.(cpus := [cpu], launched := s.launched + {t})
  {
    hide TreePut;
    assert Sync(s, 0, t).thds == s.thds;
  }

  lemma SwitchGives(s: Sys, cpu: Cpu)
    requires |s.cpus| == 1 && s.cpus[0].cur < |s.thds| && TreeTyped(s.thds, s.cpus[0]) && s.cpus[0].choice.Chosen?
    requires !s.cpus[0].choice.sleeps && s.thds[s.cpus[0].cur].state != NeedFree
    requires cpu == TreePut(s.thds, s.cpus[0].(cur := s.cpus[0].choice.nxt, choice := Undecided), s.cpus[0].cur)
    ensures Switch(s, 0) == s.(cpus := [cpu], thds := s.thds[s.cpus[0].cur := s.thds[s.cpus[0].cur].(state := Idle)])
  {
    hide TreePut;
  }

  lemma StoryStep(i: nat, limit: nat)
    requires i < 15 && Typed(Story(i))
    ensures Enabled(Story(i), STORY[i], limit) && Next(Story(i), STORY[i], limit) == Story(i + 1)
  {
    hide Typed, Enabled, Next, Stage0, Stage1, Stage2, Stage3, Stage4, Stage5, Stage6, Stage7, Stage8, Stage9, Stage10,
         Stage11, Stage12, Stage13, Stage14, Stage15;
    if i == 0 { Story0(limit); }
    else if i == 1 { Story1(limit); }
    else if i == 2 { Story2(limit); }
    else if i == 3 { Story3(limit); }
    else if i == 4 { Story4(limit); }
    else if i == 5 { Story5(limit); }
    else if i == 6 { Story6(limit); }
    else if i == 7 { Story7(limit); }
    else if i == 8 { Story8(limit); }
    else if i == 9 { Story9(limit); }
    else if i == 10 { Story10(limit); }
    else if i == 11 { Story11(limit); }
    else if i == 12 { Story12(limit); }
    else if i == 13 { Story13(limit); }
    else if i == 14 { Story14(limit); }
  }

  lemma Story0(limit: nat)
    requires Typed(Stage0())
    ensures Enabled(Stage0(), Create(0, 0, 1), limit) && Next(Stage0(), Create(0, 0, 1), limit) == Stage1()
  {
    hide WaitStep, HandleOne, Choose, Switch, Request;
  }

  lemma Story1(limit: nat)
    requires Typed(Stage1())
    ensures Enabled(Stage1(), Create(0, 0, 19), limit) && Next(Stage1(), Create(0, 0, 19), limit) == Stage2()
  {
    hide WaitStep, HandleOne, Choose, Switch, Request;
  }

  lemma Story2(limit: nat)
    requires Typed(Stage2())
    ensures Enabled(Stage2(), Launch(1, 0), limit) && Next(Stage2(), Launch(1, 0), limit) == Stage3()
  {
    hide Next;
    LaunchNow(Stage2(), 1, 0, limit);
  }

  lemma Story3(limit: nat)
    requires Typed(Stage3())
    ensures Enabled(Stage3(), Launch(2, 0), limit) && Next(Stage3(), Launch(2, 0), limit) == Stage4()
  {
    hide Next, TreePut, LaunchThd;
    var s := Stage3().(created := Stage3().created - {2});
    PutSecond(s.thds, s.cpus[0], 2, 1);
    LaunchNow(Stage3(), 2, 0, limit);
    LaunchGives(s, 2, Stage4().cpus[0]);
  }

  lemma Story4(limit: nat)
    requires Typed(Stage4())
    ensures Enabled(Stage4(), Tick(0), limit) && Next(Stage4(), Tick(0), limit) == Stage5()
  {
    hide WaitStep, HandleOne, Choose, Switch, Request;
  }

  lemma Story5(limit: nat)
    requires Typed(Stage5())
    ensures Enabled(Stage5(), ChooseNext(0), limit) && Next(Stage5(), ChooseNext(0), limit) == Stage6()
  {
    hide WaitStep, HandleOne, Switch, Request;
  }

  lemma Story6(limit: nat)
    requires Typed(Stage6())
    ensures Enabled(Stage6(), SwitchTo(0), limit) && Next(Stage6(), SwitchTo(0), limit) == Stage7()
  {
    hide Next, TreePut, Switch;
    var s := Stage6();
    PutSecond(s.thds, s.cpus[0].(cur := s.cpus[0].choice.nxt, choice := Undecided), 0, 2);
    SwitchNow(s, 0, limit);
    SwitchGives(s, Stage7().cpus[0]);
  }

  lemma Story7(limit: nat)
    requires Typed(Stage7())
    ensures Enabled(Stage7(), Tick(0), limit) && Next(Stage7(), Tick(0), limit) == Stage8()
  {
    hide WaitStep, HandleOne, Choose, Switch, Request;
  }

  lemma Story8(limit: nat)
    requires Typed(Stage8())
    ensures Enabled(Stage8(), ChooseNext(0), limit) && Next(Stage8(), ChooseNext(0), limit) == Stage9()
  {
    hide WaitStep, HandleOne, Switch, Request;
  }

  lemma Story9(limit: nat)
    requires Typed(Stage9())
    ensures Enabled(Stage9(), SwitchTo(0), limit) && Next(Stage9(), SwitchTo(0), limit) == Stage10()
  {
    hide Next, TreePut, Switch;
    var s := Stage9();
    PutSecond(s.thds, s.cpus[0].(cur := s.cpus[0].choice.nxt, choice := Undecided), 1, 0);
    SwitchNow(s, 0, limit);
    SwitchGives(s, Stage10().cpus[0]);
  }

  lemma Story10(limit: nat)
    requires Typed(Stage10())
    ensures Enabled(Stage10(), Wake(0, 0), limit) && Next(Stage10(), Wake(0, 0), limit) == Stage11()
  {
    hide WaitStep, HandleOne, Choose, Switch, PreemptThd, LaunchThd;
  }

  lemma Story11(limit: nat)
    requires Typed(Stage11())
    ensures Enabled(Stage11(), Tick(0), limit) && Next(Stage11(), Tick(0), limit) == Stage12()
  {
    hide WaitStep, HandleOne, Choose, Switch, Request;
  }

  lemma Story12(limit: nat)
    requires Typed(Stage12())
    ensures Enabled(Stage12(), Create(0, 0, 0), limit) && Next(Stage12(), Create(0, 0, 0), limit) == Stage13()
  {
    hide WaitStep, HandleOne, Choose, Switch, Request;
  }

  lemma Story13(limit: nat)
    requires Typed(Stage13())
    ensures Enabled(Stage13(), Stir(0, 2), limit) && Next(Stage13(), Stir(0, 2), limit) == Stage14()
  {
    hide WaitStep, HandleOne, Choose, Switch, Request;
  }

  lemma Story14(limit: nat)
    requires Typed(Stage14())
    ensures Enabled(Stage14(), Launch(3, 0), limit) && Next(Stage14(), Launch(3, 0), limit) == Stage15()
  {
    hide Next, TreePut, LaunchThd;
    var s := Stage14().(created := Stage14().created - {3});
    PutStray(s.thds, s.cpus[0], 3, 1, 0);
    LaunchNow(Stage14(), 3, 0, limit);
    LaunchGives(s, 3, Stage15().cpus[0]);
  }

  lemma StorySane(i: nat, limit: nat)
    requires i <= 15
    ensures Sane(Story(i)) && Typed(Story(i))
    decreases i
  {
    hide Story, Typed, Enabled, Next, Sane;
    if i == 0 {
      BootSane(1);
      StoryOpens();
    } else {
      StorySane(i - 1, limit);
      StoryStep(i - 1, limit);
      StepSane(Story(i - 1), STORY[i - 1], limit);
    }
    SaneTyped(Story(i));
  }

  lemma StoryOpens()
    ensures Story(0) == Boot(1)
  {
    var s := Boot(1);
    assert s.thds == [Thread(0, 0, Running, 0, 0, 0)];
    assert s.cpus == [Cpu(0, [], None, 0, [], [], [], [], Undecided)];
    assert s.launched == {0};
  }

  lemma {:induction false} StoryRuns(i: nat, limit: nat)
    requires i <= 15
    ensures CanRun(Story(i), STORY[i..], limit) && After(Story(i), STORY[i..], limit) == Story(15)
    decreases 15 - i
  {
    hide Story, Typed, Enabled, Next;
    if i < 15 {
      StorySane(i, limit);
      StoryStep(i, limit);
      StoryRuns(i + 1, limit);
      assert STORY[i..] == [STORY[i]] + STORY[i + 1..];
      Cons(Story(i), STORY[i], Story(i + 1), STORY[i + 1..], limit);
    }
  }

  /** The shortest way to see it: thread 0 is woken while it stands in the tree, as the least of all;
      thread 3 is then launched behind it and becomes the cached left, which is neither the first node
      nor the least. */
  lemma {:induction false} StaleRun(limit: nat)
    ensures CanRun(Boot(1), STORY, limit)
    ensures var s := After(Boot(1), STORY, limit);
            && |s.cpus| == 1 && |s.thds| == 4 && s.cpus[0].run == [1, 0, 3] && s.cpus[0].left == Some(3)
            && s.thds[0].vRuntime < s.thds[3].vRuntime && !Tidy(s.thds, s.cpus[0])
  {
    hide Boot, CanRun, After;
    StoryOpens();
    StoryRuns(0, limit);
    assert STORY[0..] == STORY;
  }
}

/** Fairness: without preempt requests the runnable threads of a CPU keep within k times the largest
    weight of each other, if at most k ticks pass between scheduling points. */
module SchedFair {
  import opened Sequences
  import opened Wrappers
  import opened SchedSpec
  import opened SchedInv
  import opened SchedRuns

  ghost predicate Ordered(thds: seq<Thread>, l: seq<Tid>) { Listed(thds, l) && InOrder(thds, l) }

  /** The run tree is in order and its cached left is its first thread. */
  ghost predicate Tidy(thds: seq<Thread>, cpu: Cpu) {
    Ordered(thds, cpu.run) && cpu.left == if cpu.run == [] then None else Some(cpu.run[0])
  }

  /** No thread of the list comes before x. */
  ghost predicate Least(thds: seq<Thread>, l: seq<Tid>, x: Tid)
    requires x < |thds|
  {
    forall t | t in l :: t < |thds| && !Before(thds, t, x)
  }

  lemma Prepend(thds: seq<Thread>, x: Tid, l: seq<Tid>)
    requires Ordered(thds, l) && x < |thds| && Least(thds, l, x)
    ensures Ordered(thds, [x] + l)
  {
    hide Before;
    var r := [x] + l;
    forall i, j | 0 <= i < j < |r| ensures !Before(thds, r[j], r[i]) {
      assert r[j] == l[j - 1] && l[j - 1] in l;
      if i > 0 { assert r[i] == l[i - 1]; }
    }
  }

  lemma Split(thds: seq<Thread>, l: seq<Tid>)
    requires Ordered(thds, l) && l != []
    ensures l[0] < |thds| && Ordered(thds, l[1..]) && Least(thds, l[1..], l[0]) && Least(thds, l, l[0])
    ensures l == [l[0]] + l[1..] && forall t | t in l[1..] :: t in l
  {
  }

  lemma {:induction false} InsertIn(thds: seq<Thread>, l: seq<Tid>, t: Tid)
    requires t < |thds| && Listed(thds, l)
    ensures forall u :: u in Insert(thds, l, t) <==> u in l || u == t
  {
    hide Insert;
    forall u ensures u in Insert(thds, l, t) <==> u in l || u == t {
      assert u in multiset(Insert(thds, l, t)) <==> u in multiset(l) || u == t;
    }
  }

  lemma {:induction false} InsertOrdered(thds: seq<Thread>, l: seq<Tid>, t: Tid)
    requires Ordered(thds, l) && t < |thds|
    ensures Ordered(thds, Insert(thds, l, t))
  {
    hide Ordered, Least, Before;
    OrderedListed(thds, l);
    if l == [] {
      OneOrdered(thds, t);
    } else {
      Split(thds, l);
      if Before(thds, t, l[0]) {
        LowerLeast(thds, l, l[0], t);
        Prepend(thds, t, l);
      } else {
        OrderedListed(thds, l[1..]);
        InsertOrdered(thds, l[1..], t);
        LeastInsert(thds, l[1..], t, l[0]);
        Prepend(thds, l[0], Insert(thds, l[1..], t));
      }
    }
  }

  lemma OrderedListed(thds: seq<Thread>, l: seq<Tid>)
    requires Ordered(thds, l)
    ensures Listed(thds, l)
  {
  }

  lemma OneOrdered(thds: seq<Thread>, t: Tid)
    requires t < |thds|
    ensures Ordered(thds, [t])
  {
  }

  lemma LowerLeast(thds: seq<Thread>, l: seq<Tid>, x: Tid, y: Tid)
    requires x < |thds| && y < |thds| && Least(thds, l, x) && Before(thds, y, x)
    ensures Least(thds, l, y)
  {
  }

  lemma {:induction false} LeastInsert(thds: seq<Thread>, l: seq<Tid>, t: Tid, x: Tid)
    requires x < |thds| && Least(thds, l, x) && t < |thds| && !Before(thds, t, x) && Listed(thds, l)
    ensures Least(thds, Insert(thds, l, t), x)
  {
    hide Insert, Before;
    InsertIn(thds, l, t);
  }

  /** As long as the tree is in order, an insertion keeps it so, wherever `spot` points. */
  lemma {:induction false} PutTidy(thds: seq<Thread>, cpu: Cpu, t: Tid)
    requires Tidy(thds, cpu) && t < |thds|
    ensures TreePut(thds, cpu, t).run == Insert(thds, cpu.run, t) && Tidy(thds, TreePut(thds, cpu, t))
    ensures forall u :: u in TreePut(thds, cpu, t).run <==> u in cpu.run || u == t
  {
    hide Before;
    InsertOrdered(thds, cpu.run, t);
    InsertIn(thds, cpu.run, t);
  }

  /** The first thread leaves, and the cached left moves to the next. */
  lemma DropTidy(thds: seq<Thread>, cpu: Cpu)
    requires Tidy(thds, cpu) && cpu.run != []
    ensures TreeDrop(cpu, cpu.run[0]).run == cpu.run[1..] && Tidy(thds, TreeDrop(cpu, cpu.run[0]))
  {
    hide Before;
    Split(thds, cpu.run);
  }

  /** v lies between base and base + d. */
  ghost predicate Near(base: int, v: int, d: int) { base <= v <= base + d }

  /** After j ticks since the last scheduling point of the CPU: nobody is more than k ticks ahead of
      base, and the running thread no more than j. */
  ghost predicate Band(thds: seq<Thread>, cpu: Cpu, k: nat, j: nat, base: int) {
    && cpu.cur < |thds| && Tidy(thds, cpu) && cpu.preempt == [] && j <= k
    && (forall t | t in cpu.run :: t < |thds| && Near(base, thds[t].vRuntime, k * MAX_WEIGHT))
    && (if cpu.choice.Chosen? then
          j == 0 && cpu.choice.nxt < |thds| && thds[cpu.choice.nxt].vRuntime == base &&
              Near(base, thds[cpu.cur].vRuntime, k * MAX_WEIGHT)
        else Near(base, thds[cpu.cur].vRuntime, j * MAX_WEIGHT))
  }

  /** The step asks CPU c to preempt no thread, and to wake none that is in its run tree. */
  ghost predicate FairStep(s: Sys, a: Action, c: nat)
    requires Typed(s) && c < |s.cpus|
  {
    match a
    case Preempt(t, k) => !(k == c && t < |s.thds| && s.thds[t].cpu == c)
    case Send(f) => !(f.cpu == c && f.thd < |s.thds| && s.thds[f.thd].cpu == c)
    case Wake(t, k) => k == c && t < |s.thds| && s.thds[t].cpu == c ==> s.thds[t].state != Idle
    case Handle(k) =>
      k == c && s.cpus[c].mail != [] ==>
        var m := s.cpus[c].mail[0]; m.target != NeedPreempt && (m.target == Ready ==> s.thds[m.thd].state != Idle)
    case _ => true
  }

  /** Ticks since the last scheduling point. */
  function Ticks(a: Action, c: nat, j: nat): nat {
    if a == Tick(c) then j + 1 else if a == ChooseNext(c) then 0 else j
  }

  /** Nothing that CPU c reads for scheduling changes. */
  ghost predicate Keeps(s: Sys, s': Sys, c: nat) {
    && c < |s.cpus| && c < |s'.cpus| && |s.thds| <= |s'.thds|
    && s'.cpus[c].cur == s.cpus[c].cur && s'.cpus[c].run == s.cpus[c].run && s'.cpus[c].left == s.cpus[c].left
    && s'.cpus[c].choice == s.cpus[c].choice && s'.cpus[c].preempt == s.cpus[c].preempt
    && forall t | 0 <= t < |s.thds| && (t == s.cpus[c].cur || t in s.cpus[c].run || s.cpus[c].choice.Chosen?) &&
         s.thds[t].cpu == c ::
         s'.thds[t].vRuntime == s.thds[t].vRuntime
  }

  lemma KeepsBand(s: Sys, s': Sys, c: nat, k: nat, j: nat, base: int)
    requires Sane(s) && c < |s.cpus| && Band(s.thds, s.cpus[c], k, j, base) && Keeps(s, s', c)
    ensures Band(s'.thds, s'.cpus[c], k, j, base)
  {
    hide Bag, Mails, Typed, Parted;
    var cpu := s.cpus[c];
    Holds(s, c);
    forall t | t in cpu.run ensures On(s, t, c) { RunOn(s, c, t); }
    assert forall i | 0 <= i < |cpu.run| :: cpu.run[i] in cpu.run;
  }

  lemma RunOn(s: Sys, c: nat, t: Tid)
    requires Sane(s) && c < |s.cpus| && t in s.cpus[c].run
    ensures On(s, t, c)
  {
    assert t in multiset(s.cpus[c].run);
    InBagOn(s, c, t);
  }

  // ----- the steps of CPU c itself -----

  lemma TickBand(s: Sys, c: nat, k: nat, j: nat, base: int)
    requires Sane(s) && AtRest(s, c) && Band(s.thds, s.cpus[c], k, j, base) && j < k
    ensures Band(UpdCur(s, s.cpus[c].cur).thds, s.cpus[c], k, j + 1, base)
  {
    hide Bag, Mails, Typed;
    NotInRun(s, c);
    var cpu := s.cpus[c];
    assert forall i | 0 <= i < |cpu.run| :: cpu.run[i] in cpu.run;
  }

  lemma NotInRun(s: Sys, c: nat)
    requires Sane(s) && c < |s.cpus|
    ensures s.cpus[c].cur !in s.cpus[c].run && (s.cpus[c].choice.Chosen? ==> s.cpus[c].choice.nxt !in s.cpus[c].run)
  {
    Holds(s, c);
    assert CpuTags(s.thds, s.cpus[c]);
  }

  lemma FirstLeast(thds: seq<Thread>, l: seq<Tid>)
    requires Ordered(thds, l) && l != []
    ensures forall t | t in l :: t < |thds| && thds[l[0]].vRuntime <= thds[t].vRuntime
    ensures forall t | t in l[1..] :: t in l
  {
    forall t | t in l ensures t < |thds| && thds[l[0]].vRuntime <= thds[t].vRuntime {
      var i :| 0 <= i < |l| && l[i] == t;
    }
  }

  /** A scheduling point: the thread that goes on has the least vRuntime of all that could. */
  lemma ChooseBand(s: Sys, c: nat, k: nat, j: nat, base: int) returns (base': int)
    requires Sane(s) && AtRest(s, c) && Band(s.thds, s.cpus[c], k, j, base)
    ensures Band(Choose(s, c).thds, Choose(s, c).cpus[c], k, 0, base')
    ensures var goes := if Choose(s, c).cpus[c].choice.Chosen? then Choose(s, c).cpus[c].choice.nxt else s.cpus[c].cur;
            && goes < |s.thds| && s.thds[goes].vRuntime == base'
            && base' <= s.thds[s.cpus[c].cur].vRuntime && forall t | t in s.cpus[c].run :: base' <= s.thds[t].vRuntime
  {
    hide Sane, Ordered, TreeDrop;
    SaneTyped(s);
    var cpu := s.cpus[c];
    JWithinK(j, k);
    if cpu.run != [] { FirstLeast(s.thds, cpu.run); DropTidy(s.thds, cpu); }
    if cpu.run == [] || s.thds[cpu.run[0]].vRuntime > s.thds[cpu.cur].vRuntime {
      base' := s.thds[cpu.cur].vRuntime;
    } else {
      base' := s.thds[cpu.run[0]].vRuntime;
    }
    SameOrder(s.thds, Choose(s, c).thds, Choose(s, c).cpus[c].run);
  }

  lemma SameOrder(thds: seq<Thread>, thds': seq<Thread>, l: seq<Tid>)
    requires Ordered(thds, l) && |thds'| == |thds|
    requires forall u | 0 <= u < |thds| :: thds'[u].vRuntime == thds[u].vRuntime
    ensures Ordered(thds', l)
  {
  }

  lemma JWithinK(j: nat, k: nat)
    requires j <= k
    ensures j * MAX_WEIGHT <= k * MAX_WEIGHT
  {
  }

  /** The chosen thread goes on, and the current one may go to the run tree. */
  lemma NextBand(thds: seq<Thread>, cpu: Cpu, k: nat, base: int)
    requires Band(thds, cpu, k, 0, base) && cpu.choice.Chosen?
    ensures TreeTyped(thds, cpu)
    ensures var next := cpu.(cur := cpu.choice.nxt, choice := Undecided);
            Band(thds, next, k, 0, base) && Band(thds, TreePut(thds, next, cpu.cur), k, 0, base)
  {
    hide TreePut;
    PutTidy(thds, cpu.(cur := cpu.choice.nxt, choice := Undecided), cpu.cur);
  }

  lemma SwitchBand(s: Sys, c: nat, k: nat, base: int)
    requires Sane(s) && c < |s.cpus| && s.cpus[c].choice.Chosen? && Band(s.thds, s.cpus[c], k, 0, base)
    ensures Band(Switch(s, c).thds, Switch(s, c).cpus[c], k, 0, base)
  {
    hide Sane, Band, TreePut;
    SaneTyped(s);
    var cpu, s' := s.cpus[c], Switch(s, c);
    var next := cpu.(cur := cpu.choice.nxt, choice := Undecided);
    NextBand(s.thds, cpu, k, base);
    var put := if s'.thds[cpu.cur].state == Idle then TreePut(s.thds, next, cpu.cur) else next;
    OnlyRun(s.thds, put, s'.cpus[c], k, 0, base);
    SameBand(s.thds, s'.thds, s'.cpus[c], k, 0, base);
  }

  /** A thread enters the run tree with the running thread's vRuntime. */
  lemma EnterBand(thds: seq<Thread>, thds': seq<Thread>, cpu: Cpu, t: Tid, k: nat, j: nat, base: int)
    requires Band(thds, cpu, k, j, base) && cpu.choice.Undecided?
    requires t < |thds| == |thds'| && t !in cpu.run && t != cpu.cur
    requires thds'[t].vRuntime == thds[cpu.cur].vRuntime && forall u | 0 <= u < |thds| && u != t :: thds'[u] == thds[u]
    ensures TreeTyped(thds', cpu) && Band(thds', TreePut(thds', cpu, t), k, j, base)
  {
    hide TreePut;
    JWithinK(j, k);
    assert forall i | 0 <= i < |cpu.run| :: cpu.run[i] in cpu.run;
    PutTidy(thds', cpu, t);
  }

  /** Neither state nor counters matter for the order of the run tree. */
  lemma SameBand(thds: seq<Thread>, thds': seq<Thread>, cpu: Cpu, k: nat, j: nat, base: int)
    requires Band(thds, cpu, k, j, base) && |thds'| == |thds|
    requires forall u | 0 <= u < |thds| :: thds'[u].vRuntime == thds[u].vRuntime
    ensures Band(thds', cpu, k, j, base)
  {
    hide Ordered;
    SameOrder(thds, thds', cpu.run);
  }

  lemma WakeBand(s: Sys, c: nat, t: Tid, k: nat, j: nat, base: int)
    requires Sane(s) && AtRest(s, c) && Known(s, t) && s.thds[t].cpu == c && s.thds[t].state != Idle
    requires Band(s.thds, s.cpus[c], k, j, base)
    ensures Band(WakeThd(s, c, t).thds, WakeThd(s, c, t).cpus[c], k, j, base)
  {
    hide Bag, Mails, Parted, TreePut, Remove, Ordered;
    var cpu, s' := s.cpus[c], WakeThd(s, c, t);
    assert CpuTags(s.thds, cpu);
    if s.thds[t].state == Sleep {
      var thds1 := Sync(s, c, t).thds;
      var cpu1 := cpu.(sleep := Remove(cpu.sleep, t));
      OnlyRun(s.thds, cpu, cpu1, k, j, base);
      EnterBand(s.thds, thds1, cpu1, t, k, j, base);
      SameBand(thds1, s'.thds, s'.cpus[c], k, j, base);
    } else {
      assert t !in cpu.run;
      KeepsBand(s, s', c, k, j, base);
    }
  }

  lemma OnlyRun(thds: seq<Thread>, cpu: Cpu, cpu': Cpu, k: nat, j: nat, base: int)
    requires Band(thds, cpu, k, j, base)
    requires cpu'.cur == cpu.cur && cpu'.run == cpu.run && cpu'.left == cpu.left
    requires cpu'.choice == cpu.choice && cpu'.preempt == cpu.preempt
    ensures Band(thds, cpu', k, j, base)
  {
  }

  lemma LaunchBand(s: Sys, c: nat, t: Tid, k: nat, j: nat, base: int)
    requires Sane(s) && AtRest(s, c) && t < |s.thds| && s.thds[t].cpu == c && t !in s.launched
    requires Band(s.thds, s.cpus[c], k, j, base)
    ensures Band(LaunchThd(s, c, t).thds, LaunchThd(s, c, t).cpus[c], k, j, base)
  {
    hide Bag, Mails, Parted, TreePut, Remove;
    var cpu, s' := s.cpus[c], LaunchThd(s, c, t);
    if t in cpu.run { RunOn(s, c, t); }
    Holds(s, c);
    EnterBand(s.thds, s'.thds, cpu, t, k, j, base);
  }

  /** A message handled by CPU c itself. */
  lemma HandleBand(s: Sys, c: nat, k: nat, j: nat, base: int)
    requires Sane(s) && AtRest(s, c) && s.cpus[c].mail != [] && FairStep(s, Handle(c), c)
    requires Band(s.thds, s.cpus[c], k, j, base)
    ensures Band(HandleOne(s, c).thds, HandleOne(s, c).cpus[c], k, j, base)
  {
    hide Bag, CpuTags, MailOk, Parted, WakeThd, LaunchThd, PreemptThd, Known;
    PopSane(s, c);
    var m := s.cpus[c].mail[0];
    var s1 := SetCpu(s, c, s.cpus[c].(mail := s.cpus[c].mail[1..]));
    KeepsBand(s, s1, c, k, j, base);
    if m.target == Ready { KnownSame(s, s1, m.thd); WakeBand(s1, c, m.thd, k, j, base); }
    else if m.target == Idle { LaunchBand(s1, c, m.thd, k, j, base); }
  }

  lemma KnownSame(s: Sys, s1: Sys, t: Tid)
    requires Known(s, t) && s1.thds == s.thds && s1.launched == s.launched
    ensures Known(s1, t)
  {
  }

  /** The CPU that takes the step. */
  function Actor(a: Action): nat {
    match a
    case Test(f) => f.cpu
    case Send(f) => f.cpu
    case _ => a.c
  }

  lemma OpKeeps(s: Sys, k: nat, t: Tid, c: nat)
    requires Typed(s) && k < |s.cpus| && c < |s.cpus| && t < |s.thds| && k != c && s.thds[t].cpu == k
    ensures Keeps(s, PreemptThd(s, k, t), c) && Keeps(s, WakeThd(s, k, t), c) && Keeps(s, LaunchThd(s, k, t), c)
  {
    hide TreePut, TreeDrop, Remove;
  }

  lemma RequestKeeps(s: Sys, k: nat, t: Tid, target: State, c: nat)
    requires Typed(s) && k < |s.cpus| && c < |s.cpus| && t < |s.thds| && (k != c || s.thds[t].cpu != k)
    ensures Keeps(s, Request(s, k, t, target), c)
  {
    hide PreemptThd, WakeThd, LaunchThd;
    if s.thds[t].cpu == k { OpKeeps(s, k, t, c); }
  }

  lemma HandleKeeps(s: Sys, k: nat, c: nat)
    requires Sane(s) && k < |s.cpus| && c < |s.cpus| && k != c && s.cpus[k].mail != []
    ensures Keeps(s, HandleOne(s, k), c)
  {
    hide PreemptThd, WakeThd, LaunchThd, Bag, Parted;
    MailHere(s, k);
    PopSane(s, k);
    OpKeeps(SetCpu(s, k, s.cpus[k].(mail := s.cpus[k].mail[1..])), k, s.cpus[k].mail[0].thd, c);
  }

  lemma ChooseKeeps(s: Sys, k: nat, c: nat)
    requires Sane(s) && AtRest(s, k) && c < |s.cpus| && k != c
    ensures Keeps(s, Choose(s, k), c)
  {
    hide Sane, Bag;
    SaneTyped(s);
    Holds(s, k);
  }

  lemma SwitchKeeps(s: Sys, k: nat, c: nat)
    requires Sane(s) && k < |s.cpus| && s.cpus[k].choice.Chosen? && c < |s.cpus| && k != c
    ensures Keeps(s, Switch(s, k), c)
  {
    hide Sane, Bag, TreePut;
    SaneTyped(s);
    Holds(s, k);
  }

  /** Steps of other CPUs, and those of CPU c that do not schedule, keep what it schedules by. */
  lemma ElsewhereKeeps(s: Sys, a: Action, limit: nat, c: nat)
    requires Sane(s) && Enabled(s, a, limit) && c < |s.cpus|
    requires Actor(a) != c || !(a.Send? || a.Tick? || a.ChooseNext? || a.SwitchTo? || a.Handle? || a.Launch? ||
               a.Wake? || a.Preempt?)
    ensures Keeps(s, Next(s, a, limit), c)
  {
    hide Bag, Request, HandleOne, Choose, Switch, Parted, Mails, CpuTags, Keeps, Sane;
    SaneTyped(s);
    match a
    case Send(f) =>
      var s1 := s.(fins := s.fins - multiset{f});
      RequestKeeps(s1, f.cpu, f.thd, NeedPreempt, c);
      SameKeeps(s, s1, Next(s, a, limit), c);
    case ChooseNext(k) => ChooseKeeps(s, k, c);
    case SwitchTo(k) => SwitchKeeps(s, k, c);
    case Handle(k) => HandleKeeps(s, k, c);
    case Launch(t, k) =>
      var s1 := s.(created := s.created - {t});
      RequestKeeps(s1, k, t, Idle, c);
      SameKeeps(s, s1, Next(s, a, limit), c);
    case Wake(t, k) => RequestKeeps(s, k, t, Ready, c);
    case Preempt(t, k) => RequestKeeps(s, k, t, NeedPreempt, c);
    case _ => CountersKeep(s, a, limit, c);
  }

  lemma CountersKeep(s: Sys, a: Action, limit: nat, c: nat)
    requires Sane(s) && Enabled(s, a, limit) && c < |s.cpus|
    requires a.Submit? || a.Inc? || a.Done? || a.EnterSignal? || a.LeaveSignal? || a.Answer? || a.Test? || a.Reap? ||
               a.Create? || a.Exit? || a.Stir?
             || (a.Tick? && a.c != c)
    ensures Keeps(s, Next(s, a, limit), c)
  {
    hide Bag, Parted, Mails, CpuTags, Sane, Request, HandleOne, Choose, Switch;
    SaneTyped(s);
    if a.Tick? { Holds(s, a.c); }
  }

  lemma MailHere(s: Sys, c: nat)
    requires Sane(s) && c < |s.cpus| && s.cpus[c].mail != []
    ensures s.cpus[c].mail[0].thd < |s.thds| && s.thds[s.cpus[c].mail[0].thd].cpu == c
  {
    assert MailOk(s, c);
    assert MsgOk(s, c, s.cpus[c].mail[0]);
  }

  /** One step of a fair run: the band moves along. */
  lemma StepBand(s: Sys, a: Action, limit: nat, c: nat, k: nat, j: nat, base: int) returns (base': int)
    requires Sane(s) && Enabled(s, a, limit) && c < |s.cpus| && FairStep(s, a, c) && Ticks(a, c, j) <= k
    requires Band(s.thds, s.cpus[c], k, j, base)
    ensures c < |Next(s, a, limit).cpus|
    ensures Band(Next(s, a, limit).thds, Next(s, a, limit).cpus[c], k, Ticks(a, c, j), base')
  {
    hide Bag, Band, Keeps, Choose, Switch, HandleOne, WakeThd, LaunchThd, PreemptThd, CpuTags, MailOk, Parted;
    base' := base;
    if Actor(a) != c || !(a.Send? || a.Tick? || a.ChooseNext? || a.SwitchTo? || a.Handle? || a.Launch? || a.Wake? ||
        a.Preempt?) {
      ElsewhereKeeps(s, a, limit, c);
      KeepsBand(s, Next(s, a, limit), c, k, j, base);
      CpusKept(s, Next(s, a, limit), c);
    } else if a.Tick? {
      TickBand(s, c, k, j, base);
    } else if a.ChooseNext? {
      base' := ChooseBand(s, c, k, j, base);
    } else if a.SwitchTo? {
      ChosenZero(s, c, k, j, base);
      SwitchBand(s, c, k, base);
    } else if a.Handle? {
      HandleBand(s, c, k, j, base);
    } else {
      AskBand(s, a, limit, c, k, j, base);
    }
  }

  lemma CpusKept(s: Sys, s': Sys, c: nat)
    requires Keeps(s, s', c)
    ensures c < |s'.cpus|
  {
  }

  lemma ChosenZero(s: Sys, c: nat, k: nat, j: nat, base: int)
    requires c < |s.cpus| && Band(s.thds, s.cpus[c], k, j, base) && s.cpus[c].choice.Chosen?
    ensures j == 0
  {
  }

  lemma AskBand(s: Sys, a: Action, limit: nat, c: nat, k: nat, j: nat, base: int)
    requires Sane(s) && Enabled(s, a, limit) && c < |s.cpus| && FairStep(s, a, c) && Actor(a) == c
    requires a.Send? || a.Launch? || a.Wake? || a.Preempt?
    requires Band(s.thds, s.cpus[c], k, j, base)
    ensures c < |Next(s, a, limit).cpus| && Band(Next(s, a, limit).thds, Next(s, a, limit).cpus[c], k, j, base)
  {
    hide Bag, Band, Keeps, WakeThd, LaunchThd, PreemptThd, CpuTags, MailOk, Parted;
    var t := if a.Send? then a.f.thd else a.t;
    if s.thds[t].cpu != c {
      var s1 := if a.Send? then s.(fins := s.fins - multiset{a.f})
          else if a.Launch? then s.(created := s.created - {t}) else s;
      RequestKeeps(s1, c, t, if a.Launch? then Idle else if a.Wake? then Ready else NeedPreempt, c);
      SameKeeps(s, s1, Next(s, a, limit), c);
      KeepsBand(s, Next(s, a, limit), c, k, j, base);
    } else if a.Wake? {
      WakeBand(s, c, t, k, j, base);
    } else {
      var s1 := s.(created := s.created - {t});
      Uncreate(s, t);
      LaunchBand(s1, c, t, k, j, base);
    }
  }

  lemma SameKeeps(s: Sys, s1: Sys, s2: Sys, c: nat)
    requires Keeps(s1, s2, c) && s1.thds == s.thds && s1.cpus == s.cpus
    ensures Keeps(s, s2, c)
  {
  }

  lemma Uncreate(s: Sys, t: Tid)
    requires Sane(s)
    ensures Sane(s.(created := s.created - {t}))
  {
    hide Bag;
    var s1 := s.(created := s.created - {t});
    forall k | 0 <= k < |s.cpus| ensures MailOk(s1, k) {
      assert MailOk(s, k);
      forall m | m in s.cpus[k].mail ensures MsgOk(s1, k, m) { assert MsgOk(s, k, m); }
    }
    forall k, u: Tid | 0 <= k < |s.cpus| ensures Bag(s1.cpus[k])[u] == if On(s1, u, k) then 1 else 0 {
      assert Bag(s.cpus[k])[u] == if On(s, u, k) then 1 else 0;
    }
  }

  // ----- runs -----

  /** A run in which at most k ticks of CPU c, j of them already past, lie between two of its
      scheduling points, and nothing on c is preempted by request or woken while it could run. */
  ghost predicate FairRun(s: Sys, acts: seq<Action>, limit: nat, c: nat, k: nat, j: nat)
    requires CanRun(s, acts, limit)
    decreases |acts|
  {
    acts == [] ||
    (&& c < |s.cpus| && FairStep(s, acts[0], c) && Ticks(acts[0], c, j) <= k
     && FairRun(Next(s, acts[0], limit), acts[1..], limit, c, k, Ticks(acts[0], c, j)))
  }

  lemma RunBand(s: Sys, acts: seq<Action>, limit: nat, c: nat, k: nat, j: nat, base: int) returns (j': nat, base': int)
    requires Sane(s) && CanRun(s, acts, limit) && FairRun(s, acts, limit, c, k, j)
    requires c < |s.cpus| && Band(s.thds, s.cpus[c], k, j, base)
    ensures Sane(After(s, acts, limit)) && c < |After(s, acts, limit).cpus|
    ensures Band(After(s, acts, limit).thds, After(s, acts, limit).cpus[c], k, j', base')
    decreases |acts|
  {
    hide Sane, Band, Enabled, Next, FairStep;
    if acts == [] {
      j', base' := j, base;
    } else {
      StepSane(s, acts[0], limit);
      var b := StepBand(s, acts[0], limit, c, k, j, base);
      j', base' := RunBand(Next(s, acts[0], limit), acts[1..], limit, c, k, Ticks(acts[0], c, j), b);
    }
  }

  /** The thread is running on the CPU or ready to. */
  ghost predicate Runnable(cpu: Cpu, t: Tid) {
    t == cpu.cur || t in cpu.run || (cpu.choice.Chosen? && t == cpu.choice.nxt)
  }

  /** In such a run the vRuntimes of two threads that can run on a CPU never differ by more than k
      times the largest weight. */
  lemma {:induction false} FairnessBound(n: nat, acts: seq<Action>, limit: nat, c: nat, k: nat, t: Tid, u: Tid)
    requires c < n && CanRun(Boot(n), acts, limit) && FairRun(Boot(n), acts, limit, c, k, 0)
    requires c < |After(Boot(n), acts, limit).cpus|
    requires Runnable(After(Boot(n), acts, limit).cpus[c], t) && Runnable(After(Boot(n), acts, limit).cpus[c], u)
    ensures var s := After(Boot(n), acts, limit);
            t < |s.thds| && u < |s.thds| && s.thds[t].vRuntime - s.thds[u].vRuntime <= k * MAX_WEIGHT
  {
    hide CanRun, FairRun, After, Boot;
    BootSane(n);
    BootBand(n, c, k);
    BootHas(n, c);
    var j, base := RunBand(Boot(n), acts, limit, c, k, 0, 0);
    BandBound(After(Boot(n), acts, limit), c, k, j, base, t, u);
  }

  lemma BootBand(n: nat, c: nat, k: nat)
    requires c < n
    ensures Band(Boot(n).thds, Boot(n).cpus[c], k, 0, 0)
  {
  }

  lemma BandBound(s: Sys, c: nat, k: nat, j: nat, base: int, t: Tid, u: Tid)
    requires c < |s.cpus| && Band(s.thds, s.cpus[c], k, j, base) && Runnable(s.cpus[c], t) && Runnable(s.cpus[c], u)
    ensures t < |s.thds| && u < |s.thds| && s.thds[t].vRuntime - s.thds[u].vRuntime <= k * MAX_WEIGHT
  {
    JWithinK(j, k);
  }

  /** The thread that goes on after a scheduling point of CPU c. */
  ghost function GoesOn(s: Sys, c: nat): Tid
    requires Typed(s) && AtRest(s, c)
  {
    var s' := Choose(s, c);
    if s'.cpus[c].choice.Chosen? then s'.cpus[c].choice.nxt else s.cpus[c].cur
  }

  /** Whenever such a run reaches a scheduling point in a state s, the thread that goes on has the least
      vRuntime of those that could. */
  lemma {:induction false} LeastGoesOn(n: nat, acts: seq<Action>, limit: nat, c: nat, k: nat, s: Sys, t: Tid)
    requires c < n && CanRun(Boot(n), acts, limit)
    requires FairRun(Boot(n), acts, limit, c, k, 0) && s == After(Boot(n), acts, limit)
    requires Typed(s) && AtRest(s, c) && Runnable(s.cpus[c], t)
    ensures t < |s.thds| && GoesOn(s, c) < |s.thds| && s.thds[GoesOn(s, c)].vRuntime <= s.thds[t].vRuntime
  {
    hide CanRun, FairRun, After, Choose, Sane, Typed, Boot;
    BootSane(n);
    BootBand(n, c, k);
    BootHas(n, c);
    var j, base := RunBand(Boot(n), acts, limit, c, k, 0, 0);
    var b := ChooseBand(s, c, k, j, base);
  }

  lemma BootHas(n: nat, c: nat)
    requires c < n
    ensures c < |Boot(n).cpus|
  {
  }
}

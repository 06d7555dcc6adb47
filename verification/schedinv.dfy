/** In every reachable state each thread that is launched and not freed is in exactly one place of
    its CPU, and its state says which. */
module SchedInv {
  import opened Sequences
  import opened Wrappers
  import opened SchedSpec

  /** Everything a CPU holds: the current thread, the one chosen to follow it, and the lists. */
  ghost function Bag(cpu: Cpu): multiset<Tid> {
    multiset{cpu.cur} + multiset(cpu.run) + multiset(cpu.sleep) + multiset(cpu.preempt) + multiset(cpu.free)
    + (if cpu.choice.Chosen? then multiset{cpu.choice.nxt} else multiset{})
  }

  ghost predicate On(s: Sys, t: Tid, k: nat) { t < |s.thds| && t in s.launched && s.thds[t].cpu == k }

  /** Each launched thread is held once by its own CPU, and nothing else is held. */
  ghost predicate Parted(s: Sys) {
    forall k, t: Tid | 0 <= k < |s.cpus| :: Bag(s.cpus[k])[t] == if On(s, t, k) then 1 else 0
  }

  ghost predicate AllIn(thds: seq<Thread>, l: seq<Tid>, st: State) {
    forall t | t in l :: t < |thds| && thds[t].state == st
  }

  ghost predicate CurState(st: State) { st == Running || st == NeedSchedule || st == NeedFree }

  /** The state of a thread says where it is, and the cached left is in the tree. */
  ghost predicate CpuTags(thds: seq<Thread>, cpu: Cpu) {
    && (cpu.left.Some? ==> cpu.left.value in cpu.run)
    && cpu.cur < |thds| && CurState(thds[cpu.cur].state)
    && (cpu.choice.Chosen? ==> cpu.choice.nxt < |thds| && thds[cpu.choice.nxt].state == Running)
    && AllIn(thds, cpu.run, Idle) && AllIn(thds, cpu.sleep, Sleep)
    && AllIn(thds, cpu.preempt, NeedPreempt) && AllIn(thds, cpu.free, Free)
  }

  ghost predicate Tags(s: Sys) { forall k | 0 <= k < |s.cpus| :: CpuTags(s.thds, s.cpus[k]) }

  /** A launch message names a thread that is neither launched nor waiting to be, once; other
      messages name threads that were launched. */
  ghost predicate MsgOk(s: Sys, k: nat, m: Msg) {
    && m.thd < |s.thds| && s.thds[m.thd].cpu == k
    && (if m.target == Idle then m.thd !in s.launched && m.thd !in s.created && s.thds[m.thd].state == Idle
        else (m.target == NeedPreempt || m.target == Ready) && Known(s, m.thd))
  }

  ghost predicate MailOk(s: Sys, k: nat)
    requires k < |s.cpus|
  {
    (forall m | m in s.cpus[k].mail :: MsgOk(s, k, m)) && forall t: Tid :: multiset(s.cpus[k].mail)[Msg(t, Idle)] <= 1
  }

  ghost predicate Mails(s: Sys) { forall k | 0 <= k < |s.cpus| :: MailOk(s, k) }

  ghost predicate Created(s: Sys) {
    forall t | t in s.created :: t < |s.thds| && t !in s.launched && s.thds[t].state == Idle
  }

  ghost predicate Sane(s: Sys) { Typed(s) && Parted(s) && Tags(s) && Mails(s) && Created(s) }

  /** s' differs from s only in CPU c and in one thread of that CPU. */
  ghost predicate Local(s: Sys, s': Sys, c: nat, t: Tid) {
    && c < |s.cpus| == |s'.cpus| && t < |s.thds| == |s'.thds| == |s'.accts|
    && (forall f | f in s'.fins :: f.thd < |s'.thds|)
    && (forall k | 0 <= k < |s.cpus| && k != c :: s'.cpus[k] == s.cpus[k])
    && (forall u | 0 <= u < |s.thds| && u != t :: s'.thds[u] == s.thds[u])
    && s.thds[t].cpu == s'.thds[t].cpu == c
  }

  lemma HeldOnce(s: Sys, c: nat, t: Tid)
    requires Sane(s) && c < |s.cpus| && t < |s.thds| && s.thds[t].cpu == c
    ensures t in s.launched ==> var cpu := s.cpus[c];
              && (s.thds[t].state == Idle ==> t in cpu.run && multiset(cpu.run)[t] == 1)
              && (s.thds[t].state == Sleep ==> t in cpu.sleep && multiset(cpu.sleep)[t] == 1)
              && (s.thds[t].state == NeedPreempt ==> t in cpu.preempt && multiset(cpu.preempt)[t] == 1)
              && (s.thds[t].state == Free ==> t in cpu.free && multiset(cpu.free)[t] == 1)
              && (t in cpu.run ==> s.thds[t].state == Idle) && (t in cpu.sleep ==> s.thds[t].state == Sleep)
              && (t in cpu.preempt ==> s.thds[t].state == NeedPreempt) && (t in cpu.free ==> s.thds[t].state == Free)
    ensures forall k | 0 <= k < |s.cpus| && k != c :: t !in Bag(s.cpus[k])
    ensures t !in s.launched ==> t !in Bag(s.cpus[c])
  {
    var cpu := s.cpus[c];
    assert Bag(cpu)[t] == if On(s, t, c) then 1 else 0;
    assert CpuTags(s.thds, cpu);
    if t in s.launched {
      assert t in Bag(cpu);
    }
    forall k | 0 <= k < |s.cpus| && k != c ensures t !in Bag(s.cpus[k]) {
      assert Bag(s.cpus[k])[t] == 0;
    }
  }

  /** A change of CPU c and one of its launched threads that keeps what the CPU holds. */
  lemma LocalSane(s: Sys, s': Sys, c: nat, t: Tid)
    requires Sane(s) && Local(s, s', c, t) && s'.launched == s.launched && s'.created == s.created && Known(s, t)
    requires t in s.launched || s'.thds[t].state == Free
    requires Bag(s'.cpus[c]) == Bag(s.cpus[c]) && s'.cpus[c].mail == s.cpus[c].mail && CpuTags(s'.thds, s'.cpus[c])
    ensures Sane(s')
  {
    hide Bag;
    HeldOnce(s, c, t);
    forall k, u: Tid | 0 <= k < |s'.cpus| ensures Bag(s'.cpus[k])[u] == if On(s', u, k) then 1 else 0 {
      assert Bag(s.cpus[k])[u] == if On(s, u, k) then 1 else 0;
    }
    forall k | 0 <= k < |s'.cpus| ensures CpuTags(s'.thds, s'.cpus[k]) && CpuTyped(s'.thds, s'.cpus[k]) {
      assert CpuTags(s.thds, s.cpus[k]) && MailOk(s, k);
      if k != c { OtherTags(s.thds, s'.thds, s.cpus[k], t); }
      TagsTyped(s', k);
    }
    LocalMail(s, s', c, t);
  }

  lemma LocalMail(s: Sys, s': Sys, c: nat, t: Tid)
    requires Mails(s) && Local(s, s', c, t) && s'.launched == s.launched && s'.created == s.created && Known(s, t)
    requires (t in s.launched || s'.thds[t].state == Free) && s'.cpus[c].mail == s.cpus[c].mail
    ensures Mails(s')
  {
    forall k | 0 <= k < |s'.cpus| ensures MailOk(s', k) {
      assert MailOk(s, k);
      forall m | m in s'.cpus[k].mail ensures MsgOk(s', k, m) {
        assert m in s.cpus[k].mail;
        assert MsgOk(s, k, m);
      }
    }
  }

  lemma OtherTags(thds: seq<Thread>, thds': seq<Thread>, cpu: Cpu, t: Tid)
    requires CpuTags(thds, cpu) && |thds'| == |thds| && t !in Bag(cpu)
    requires forall u | 0 <= u < |thds| && u != t :: thds'[u] == thds[u]
    ensures CpuTags(thds', cpu)
  {
    assert t != cpu.cur && t !in cpu.run && t !in cpu.sleep && t !in cpu.preempt && t !in cpu.free;
  }

  lemma AllInListed(thds: seq<Thread>, l: seq<Tid>, st: State)
    requires AllIn(thds, l, st)
    ensures Listed(thds, l)
  {
    forall i | 0 <= i < |l| ensures l[i] < |thds| { assert l[i] in l; }
  }

  lemma TagsTyped(s: Sys, k: nat)
    requires k < |s.cpus| && CpuTags(s.thds, s.cpus[k])
    requires forall m | m in s.cpus[k].mail :: m.thd < |s.thds|
    ensures CpuTyped(s.thds, s.cpus[k])
  {
    var cpu := s.cpus[k];
    AllInListed(s.thds, cpu.run, Idle);
    AllInListed(s.thds, cpu.sleep, Sleep);
    AllInListed(s.thds, cpu.preempt, NeedPreempt);
    AllInListed(s.thds, cpu.free, Free);
  }

  /** A thread changes, but for its CPU and state. */
  lemma ThreadSane(s: Sys, s': Sys, c: nat, t: Tid)
    requires Sane(s) && Local(s, s', c, t) && s'.launched == s.launched && s'.created == s.created
    requires s'.cpus == s.cpus && s'.thds[t].state == s.thds[t].state
    ensures Sane(s')
  {
    hide Bag;
    forall k, u: Tid | 0 <= k < |s'.cpus| ensures Bag(s'.cpus[k])[u] == if On(s', u, k) then 1 else 0 {
      assert Bag(s.cpus[k])[u] == if On(s, u, k) then 1 else 0;
    }
    forall k | 0 <= k < |s'.cpus| ensures CpuTags(s'.thds, s'.cpus[k]) && CpuTyped(s'.thds, s'.cpus[k]) {
      assert CpuTags(s.thds, s.cpus[k]) && MailOk(s, k);
      TagsTyped(s', k);
    }
    forall k | 0 <= k < |s'.cpus| ensures MailOk(s', k) {
      assert MailOk(s, k);
      forall m | m in s'.cpus[k].mail ensures MsgOk(s', k, m) {
        assert MsgOk(s, k, m);
      }
    }
  }

  lemma SyncSane(s: Sys, c: nat, t: Tid)
    requires Sane(s) && c < |s.cpus| && t < |s.thds| && s.thds[t].cpu == c
    ensures Sane(Sync(s, c, t))
  {
    ThreadSane(s, Sync(s, c, t), c, t);
  }

  /** thds' differs from thds only in the state of t. */
  ghost predicate OnlyState(thds: seq<Thread>, thds': seq<Thread>, t: Tid, st: State) {
    t < |thds| == |thds'| && thds'[t].state == st && forall u | 0 <= u < |thds| && u != t :: thds'[u] == thds[u]
  }

  lemma {:induction false} RemoveIn(l: seq<Tid>, t: Tid)
    requires multiset(l)[t] == 1
    ensures multiset(Remove(l, t)) == multiset(l) - multiset{t}
    ensures forall u :: u in Remove(l, t) <==> u in l && u != t
  {
    RemoveBag(l, t);
    forall u ensures u in Remove(l, t) <==> u in l && u != t {
      assert u in multiset(Remove(l, t)) <==> u in multiset(l) && u != t;
    }
  }

  lemma {:induction false} FollowingIn(l: seq<Tid>, t: Tid)
    requires multiset(l)[t] <= 1 && Following(l, t).Some?
    ensures Following(l, t).value in l && Following(l, t).value != t
  {
    assert l == [l[0]] + l[1..];
    if l[0] == t {
      assert l[1] in multiset(l[1..]);
    } else {
      FollowingIn(l[1..], t);
    }
  }

  /** What is left of the tree when t leaves it. */
  lemma TreeDropIn(cpu: Cpu, t: Tid)
    requires multiset(cpu.run)[t] == 1 && (cpu.left.Some? ==> cpu.left.value in cpu.run)
    ensures var r := TreeDrop(cpu, t);
            && multiset(r.run) == multiset(cpu.run) - multiset{t}
            && (forall u :: u in r.run <==> u in cpu.run && u != t)
            && (r.left.Some? ==> r.left.value in r.run)
  {
    RemoveIn(cpu.run, t);
    if Following(cpu.run, t).Some? { FollowingIn(cpu.run, t); }
  }

  lemma RunToPreempt(thds: seq<Thread>, thds': seq<Thread>, cpu: Cpu, t: Tid)
    requires CpuTags(thds, cpu) && multiset(cpu.run)[t] == 1
    requires OnlyState(thds, thds', t, NeedPreempt) && thds[t].state == Idle
    ensures var cpu' := TreeDrop(cpu, t).(preempt := cpu.preempt + [t]);
            CpuTags(thds', cpu') && Bag(cpu') == Bag(cpu)
  {
    hide Remove, Following;
    TreeDropIn(cpu, t);
  }

  lemma {:induction false} SleepToPreempt(thds: seq<Thread>, thds': seq<Thread>, cpu: Cpu, t: Tid)
    requires CpuTags(thds, cpu) && multiset(cpu.sleep)[t] == 1
    requires OnlyState(thds, thds', t, NeedPreempt) && thds[t].state == Sleep
    ensures var cpu' := cpu.(sleep := Remove(cpu.sleep, t), preempt := cpu.preempt + [t]);
            CpuTags(thds', cpu') && Bag(cpu') == Bag(cpu)
  {
    hide Remove;
    RemoveIn(cpu.sleep, t);
    assert Bag(cpu.(sleep := Remove(cpu.sleep, t), preempt := cpu.preempt + [t])) == Bag(cpu) by { SleepMoves(cpu, t); }
  }

  lemma {:induction false} SleepMoves(cpu: Cpu, t: Tid)
    requires multiset(cpu.sleep)[t] == 1
    ensures Bag(cpu.(sleep := Remove(cpu.sleep, t), preempt := cpu.preempt + [t])) == Bag(cpu)
  {
    hide Remove;
    var cpu' := cpu.(sleep := Remove(cpu.sleep, t), preempt := cpu.preempt + [t]);
    RemoveBag(cpu.sleep, t);
    forall u ensures Bag(cpu')[u] == Bag(cpu)[u] {
      assert multiset(cpu'.preempt)[u] == multiset(cpu.preempt)[u] + multiset{t}[u];
      assert multiset(cpu'.sleep)[u] + multiset{t}[u] == multiset(cpu.sleep)[u];
    }
  }

  lemma {:induction false} SleepToRun(thds: seq<Thread>, thds': seq<Thread>, cpu: Cpu, t: Tid)
    requires CpuTags(thds, cpu) && multiset(cpu.sleep)[t] == 1
    requires OnlyState(thds, thds', t, Idle) && thds[t].state == Sleep
    requires TreeTyped(thds, cpu)
    ensures var cpu' := TreePut(thds, cpu.(sleep := Remove(cpu.sleep, t)), t);
            CpuTags(thds', cpu') && Bag(cpu') == Bag(cpu)
  {
    hide Remove, TreePut;
    RemoveIn(cpu.sleep, t);
    TreePutIn(thds, cpu.(sleep := Remove(cpu.sleep, t)), t);
  }

  lemma PreemptSane(s: Sys, c: nat, t: Tid)
    requires Sane(s) && c < |s.cpus| && Known(s, t) && s.thds[t].cpu == c
    ensures Sane(PreemptThd(s, c, t))
  {
    hide Bag, CpuTags, MailOk, Parted;
    SyncSane(s, c, t);
    var s1 := Sync(s, c, t);
    var s', cpu := PreemptThd(s, c, t), s1.cpus[c];
    HeldOnce(s1, c, t);
    if s1.thds[t].state == Idle {
      RunToPreempt(s1.thds, s'.thds, cpu, t);
      LocalSane(s1, s', c, t);
    } else if s1.thds[t].state == Sleep {
      SleepToPreempt(s1.thds, s'.thds, cpu, t);
      LocalSane(s1, s', c, t);
    }
  }

  lemma WakeSane(s: Sys, c: nat, t: Tid)
    requires Sane(s) && c < |s.cpus| && Known(s, t) && s.thds[t].cpu == c
    ensures Sane(WakeThd(s, c, t))
  {
    hide Bag, CpuTags, MailOk, Parted;
    SyncSane(s, c, t);
    var s1 := Sync(s, c, t);
    HeldOnce(s1, c, t);
    if s1.thds[t].state == Sleep {
      var s' := WakeThd(s, c, t);
      SleepToRun(s1.thds, s'.thds, s1.cpus[c], t);
      LocalSane(s1, s', c, t);
    }
  }

  lemma TreePutIn(thds: seq<Thread>, cpu: Cpu, t: Tid)
    requires t < |thds| && TreeTyped(thds, cpu)
    ensures forall u :: u in TreePut(thds, cpu, t).run <==> u in cpu.run || u == t
  {
    hide TreePut;
    forall u ensures u in TreePut(thds, cpu, t).run <==> u in cpu.run || u == t {
      assert u in multiset(TreePut(thds, cpu, t).run) <==> u in multiset(cpu.run) || u == t;
    }
  }

  /** The thread t of CPU c is launched. */
  lemma LaunchSane(s: Sys, c: nat, t: Tid)
    requires Sane(s) && c < |s.cpus| && t < |s.thds| && s.thds[t].cpu == c && t !in s.launched && t !in s.created
    requires s.thds[t].state == Idle && forall k | 0 <= k < |s.cpus| :: Msg(t, Idle) !in s.cpus[k].mail
    ensures Sane(LaunchThd(s, c, t))
  {
    hide Bag, TreePut, MailOk, MsgOk, CpuTags, AllIn;
    SyncSane(s, c, t);
    var s1 := Sync(s, c, t);
    var s', cpu := LaunchThd(s, c, t), s1.cpus[c];
    HeldOnce(s1, c, t);
    TreePutIn(s1.thds, cpu, t);
    LaunchBag(s1.thds, cpu, t);
    forall k, u: Tid | 0 <= k < |s'.cpus| ensures Bag(s'.cpus[k])[u] == if On(s', u, k) then 1 else 0 {
      assert Bag(s1.cpus[k])[u] == if On(s1, u, k) then 1 else 0;
    }
    LaunchMail(s1, s', t);
    LaunchTags(s1, s', c, t);
  }

  lemma LaunchTags(s1: Sys, s': Sys, c: nat, t: Tid)
    requires Sane(s1) && Mails(s') && c < |s1.cpus| && t < |s1.thds| && s1.thds[t].state == Idle
    requires s'.thds == s1.thds && s'.cpus == s1.cpus[c := TreePut(s1.thds, s1.cpus[c], t)]
    requires TreeTyped(s1.thds, s1.cpus[c])
    ensures forall k | 0 <= k < |s'.cpus| :: CpuTags(s'.thds, s'.cpus[k]) && CpuTyped(s'.thds, s'.cpus[k])
  {
    hide Bag, TreePut;
    TreePutIn(s1.thds, s1.cpus[c], t);
    forall k | 0 <= k < |s'.cpus| ensures CpuTags(s'.thds, s'.cpus[k]) && CpuTyped(s'.thds, s'.cpus[k]) {
      assert CpuTags(s1.thds, s1.cpus[k]) && MailOk(s1, k);
      TagsTyped(s', k);
    }
  }

  lemma LaunchMail(s1: Sys, s': Sys, t: Tid)
    requires Mails(s1) && |s'.cpus| == |s1.cpus| && s'.thds == s1.thds
    requires s'.created == s1.created && s'.launched == s1.launched + {t}
    requires forall k | 0 <= k < |s'.cpus| :: s'.cpus[k].mail == s1.cpus[k].mail && Msg(t, Idle) !in s1.cpus[k].mail
    ensures Mails(s')
  {
    forall k | 0 <= k < |s'.cpus| ensures MailOk(s', k) {
      assert MailOk(s1, k);
      forall m | m in s'.cpus[k].mail ensures MsgOk(s', k, m) {
        assert MsgOk(s1, k, m);
      }
    }
  }

  lemma LaunchBag(thds: seq<Thread>, cpu: Cpu, t: Tid)
    requires t < |thds| && TreeTyped(thds, cpu)
    ensures Bag(TreePut(thds, cpu, t)) == Bag(cpu) + multiset{t}
  {
    hide TreePut;
  }

  lemma InBagOn(s: Sys, c: nat, u: Tid)
    requires Parted(s) && c < |s.cpus| && u in Bag(s.cpus[c])
    ensures On(s, u, c)
  {
    assert Bag(s.cpus[c])[u] > 0;
  }

  lemma HeadCounts(l: seq<Tid>)
    requires l != []
    ensures multiset(l) == multiset{l[0]} + multiset(l[1..]) && forall u | u in l[1..] :: u in l
  {
    assert l == [l[0]] + l[1..];
  }

  lemma PreemptToNext(thds: seq<Thread>, thds': seq<Thread>, cpu: Cpu, b: bool)
    requires CpuTags(thds, cpu) && cpu.choice.Undecided?
    requires cpu.preempt != [] && multiset(cpu.preempt)[cpu.preempt[0]] == 1
    requires OnlyState(thds, thds', cpu.preempt[0], Running)
    ensures var cpu' := cpu.(preempt := cpu.preempt[1..], choice := Chosen(cpu.preempt[0], b));
            CpuTags(thds', cpu') && Bag(cpu') == Bag(cpu)
  {
    HeadCounts(cpu.preempt);
    assert cpu.preempt[0] in cpu.preempt;
  }

  lemma RunToNext(thds: seq<Thread>, thds': seq<Thread>, cpu: Cpu, n: Tid, b: bool)
    requires CpuTags(thds, cpu) && cpu.choice.Undecided? && cpu.left == Some(n) && multiset(cpu.run)[n] == 1
    requires OnlyState(thds, thds', n, Running)
    ensures var cpu' := TreeDrop(cpu, n).(choice := Chosen(n, b));
            CpuTags(thds', cpu') && Bag(cpu') == Bag(cpu)
  {
    hide Remove, Following;
    TreeDropIn(cpu, n);
  }

  lemma CurKeeps(thds: seq<Thread>, thds': seq<Thread>, cpu: Cpu, st: State)
    requires CpuTags(thds, cpu) && OnlyState(thds, thds', cpu.cur, st) && CurState(st)
    requires cpu.choice.Undecided?
    ensures CpuTags(thds', cpu)
  {
  }

  lemma LeftHeld(s: Sys, c: nat)
    requires Sane(s) && c < |s.cpus| && s.cpus[c].left.Some?
    ensures On(s, s.cpus[c].left.value, c) && multiset(s.cpus[c].run)[s.cpus[c].left.value] == 1
  {
    var n := s.cpus[c].left.value;
    assert CpuTags(s.thds, s.cpus[c]) && n in s.cpus[c].run;
    assert n in multiset(s.cpus[c].run);
    InBagOn(s, c, n);
    HeldOnce(s, c, n);
  }

  /** What a CPU holds is launched and its own. */
  lemma Holds(s: Sys, c: nat)
    requires Sane(s) && c < |s.cpus|
    ensures On(s, s.cpus[c].cur, c) && (s.cpus[c].choice.Chosen? ==> On(s, s.cpus[c].choice.nxt, c))
    ensures s.cpus[c].preempt != [] ==>
              On(s, s.cpus[c].preempt[0], c) && multiset(s.cpus[c].preempt)[s.cpus[c].preempt[0]] == 1
    ensures s.cpus[c].left.Some? ==>
              On(s, s.cpus[c].left.value, c) && multiset(s.cpus[c].run)[s.cpus[c].left.value] == 1
    ensures s.cpus[c].free != [] ==> On(s, s.cpus[c].free[0], c)
  {
    var cpu := s.cpus[c];
    InBagOn(s, c, cpu.cur);
    if cpu.choice.Chosen? { InBagOn(s, c, cpu.choice.nxt); }
    if cpu.preempt != [] { InBagOn(s, c, cpu.preempt[0]); HeldOnce(s, c, cpu.preempt[0]); }
    if cpu.left.Some? { LeftHeld(s, c); }
    if cpu.free != [] { InBagOn(s, c, cpu.free[0]); }
  }

  lemma ChooseSane(s: Sys, c: nat)
    requires Sane(s) && c < |s.cpus| && s.cpus[c].choice.Undecided?
    ensures Sane(Choose(s, c))
  {
    hide Bag, CpuTags, MailOk, Parted;
    Holds(s, c);
    assert CpuTags(s.thds, s.cpus[c]);
    var s', cpu := Choose(s, c), s.cpus[c];
    var b := s.thds[cpu.cur].reqWait > 0 && s.thds[cpu.cur].working == 0;
    if cpu.preempt != [] {
      PreemptToNext(s.thds, s'.thds, cpu, b);
      LocalSane(s, s', c, cpu.preempt[0]);
    } else if cpu.left == None || s.thds[cpu.left.value].vRuntime > s.thds[cpu.cur].vRuntime {
      CurKeeps(s.thds, s'.thds, cpu, Running);
      LocalSane(s, s', c, cpu.cur);
    } else {
      RunToNext(s.thds, s'.thds, cpu, cpu.left.value, b);
      LocalSane(s, s', c, cpu.left.value);
    }
  }

  /** The current thread, on its way out, is put away in state st. */
  lemma AwayBag(thds: seq<Thread>, cpu: Cpu)
    requires cpu.cur < |thds| && TreeTyped(thds, cpu) && cpu.choice.Chosen?
    ensures var cpu' := cpu.(cur := cpu.choice.nxt, choice := Undecided);
            && Bag(cpu'.(sleep := cpu.sleep + [cpu.cur])) == Bag(cpu)
            && Bag(cpu'.(free := cpu.free + [cpu.cur])) == Bag(cpu)
            && Bag(TreePut(thds, cpu', cpu.cur)) == Bag(cpu)
  {
    hide Bag, TreePut;
    var cpu' := cpu.(cur := cpu.choice.nxt, choice := Undecided);
    OneMore(cpu, cpu'.(sleep := cpu.sleep + [cpu.cur]));
    OneMore(cpu, cpu'.(free := cpu.free + [cpu.cur]));
    OneMore(cpu, TreePut(thds, cpu', cpu.cur));
  }

  /** The chosen thread becomes the current one, which goes to one of the lists. */
  lemma OneMore(cpu: Cpu, cpu': Cpu)
    requires cpu.choice.Chosen? && cpu'.choice.Undecided? && cpu'.cur == cpu.choice.nxt
    requires multiset(cpu'.run) + multiset(cpu'.sleep) + multiset(cpu'.free)
             == multiset(cpu.run) + multiset(cpu.sleep) + multiset(cpu.free) + multiset{cpu.cur}
    requires cpu'.preempt == cpu.preempt
    ensures Bag(cpu') == Bag(cpu)
  {
    forall u ensures Bag(cpu')[u] == Bag(cpu)[u] {
      assert (multiset(cpu'.run) + multiset(cpu'.sleep) + multiset(cpu'.free))[u]
             == (multiset(cpu.run) + multiset(cpu.sleep) + multiset(cpu.free) + multiset{cpu.cur})[u];
    }
  }

  lemma AwayTags(thds: seq<Thread>, thds': seq<Thread>, cpu: Cpu, st: State)
    requires CpuTags(thds, cpu) && TreeTyped(thds, cpu) && cpu.choice.Chosen?
    requires cpu.cur != cpu.choice.nxt && OnlyState(thds, thds', cpu.cur, st)
    ensures var cpu' := cpu.(cur := cpu.choice.nxt, choice := Undecided);
            && (st == Sleep ==> CpuTags(thds', cpu'.(sleep := cpu.sleep + [cpu.cur])))
            && (st == Free ==> CpuTags(thds', cpu'.(free := cpu.free + [cpu.cur])))
            && (st == Idle ==> CpuTags(thds', TreePut(thds, cpu', cpu.cur)))
  {
    hide TreePut;
    TreePutIn(thds, cpu.(cur := cpu.choice.nxt, choice := Undecided), cpu.cur);
  }

  lemma SwitchSane(s: Sys, c: nat)
    requires Sane(s) && c < |s.cpus| && s.cpus[c].choice.Chosen?
    ensures Sane(Switch(s, c))
  {
    hide Bag, CpuTags, MailOk, Parted, TreePut;
    Holds(s, c);
    var s', cpu := Switch(s, c), s.cpus[c];
    assert CpuTags(s.thds, cpu);
    NextDiffers(s, c);
    AwayBag(s.thds, cpu);
    AwayTags(s.thds, s'.thds, cpu, s'.thds[cpu.cur].state);
    LocalSane(s, s', c, cpu.cur);
  }

  lemma NextDiffers(s: Sys, c: nat)
    requires Sane(s) && c < |s.cpus| && s.cpus[c].choice.Chosen?
    ensures s.cpus[c].cur != s.cpus[c].choice.nxt
  {
    assert Bag(s.cpus[c])[s.cpus[c].cur] == if On(s, s.cpus[c].cur, c) then 1 else 0;
  }

  lemma ReapSane(s: Sys, c: nat)
    requires Sane(s) && c < |s.cpus| && s.cpus[c].free != []
    ensures Sane(ReapOne(s, c))
  {
    hide Bag, CpuTags;
    Holds(s, c);
    var s', cpu := ReapOne(s, c), s.cpus[c];
    var t := cpu.free[0];
    ReapBag(cpu);
    ReapTags(s.thds, cpu);
    assert CpuTags(s.thds, cpu);
    forall k, u: Tid | 0 <= k < |s'.cpus| ensures Bag(s'.cpus[k])[u] == if On(s', u, k) then 1 else 0 {
      assert Bag(s.cpus[k])[u] == if On(s, u, k) then 1 else 0;
    }
    forall k | 0 <= k < |s'.cpus|
      ensures MailOk(s', k) && CpuTags(s'.thds, s'.cpus[k]) && CpuTyped(s'.thds, s'.cpus[k])
    {
      assert CpuTags(s.thds, s.cpus[k]);
      ReapMail(s, c, k);
      TagsTyped(s', k);
    }
  }

  lemma ReapTags(thds: seq<Thread>, cpu: Cpu)
    requires CpuTags(thds, cpu) && cpu.free != []
    ensures cpu.free[0] < |thds| && thds[cpu.free[0]].state == Free && CpuTags(thds, cpu.(free := cpu.free[1..]))
  {
    HeadCounts(cpu.free);
    assert cpu.free[0] in cpu.free;
  }

  lemma ReapMail(s: Sys, c: nat, k: nat)
    requires Mails(s) && c < |s.cpus| && k < |s.cpus| && s.cpus[c].free != []
    requires s.cpus[c].free[0] < |s.thds| && s.thds[s.cpus[c].free[0]].state == Free
    ensures MailOk(ReapOne(s, c), k)
  {
    var s' := ReapOne(s, c);
    assert MailOk(s, k);
    forall m | m in s'.cpus[k].mail ensures MsgOk(s', k, m) {
      assert MsgOk(s, k, m);
    }
  }

  lemma ReapBag(cpu: Cpu)
    requires cpu.free != []
    ensures Bag(cpu.(free := cpu.free[1..])) == Bag(cpu) - multiset{cpu.free[0]}
  {
    HeadCounts(cpu.free);
  }

  // ----- messages -----

  /** Only the mailbox of CPU k changes. */
  lemma MailSane(s: Sys, k: nat, mail: seq<Msg>)
    requires Sane(s) && k < |s.cpus| && MailOk(SetCpu(s, k, s.cpus[k].(mail := mail)), k)
    ensures Sane(SetCpu(s, k, s.cpus[k].(mail := mail)))
  {
    hide Bag;
    var s' := SetCpu(s, k, s.cpus[k].(mail := mail));
    assert Bag(s'.cpus[k]) == Bag(s.cpus[k]) by { SameBag(s.cpus[k], mail); }
    forall j, u: Tid | 0 <= j < |s'.cpus| ensures Bag(s'.cpus[j])[u] == if On(s', u, j) then 1 else 0 {
      assert Bag(s.cpus[j])[u] == if On(s, u, j) then 1 else 0;
    }
    forall j | 0 <= j < |s'.cpus|
      ensures MailOk(s', j) && CpuTags(s'.thds, s'.cpus[j]) && CpuTyped(s'.thds, s'.cpus[j])
    {
      assert CpuTags(s.thds, s.cpus[j]) && MailOk(s, j);
      if j != k {
        forall m | m in s'.cpus[j].mail ensures MsgOk(s', j, m) {
          assert MsgOk(s, j, m);
        }
      }
      assert forall m | m in s'.cpus[j].mail :: MsgOk(s', j, m);
      TagsTyped(s', j);
    }
  }

  lemma SameBag(cpu: Cpu, mail: seq<Msg>)
    ensures Bag(cpu.(mail := mail)) == Bag(cpu)
  {
  }

  lemma NotElsewhere(s: Sys, k: nat, m: Msg)
    requires k < |s.cpus| && MailOk(s, k) && !MsgOk(s, k, m)
    ensures m !in s.cpus[k].mail
  {
  }

  lemma NotPosted(s: Sys, k: nat, t: Tid)
    requires k < |s.cpus| && MailOk(s, k) && t in s.created
    ensures Msg(t, Idle) !in s.cpus[k].mail
  {
    assert !MsgOk(s, k, Msg(t, Idle));
  }

  lemma PopSane(s: Sys, c: nat)
    requires Sane(s) && c < |s.cpus| && s.cpus[c].mail != []
    ensures var m := s.cpus[c].mail[0];
            && MsgOk(s, c, m) && Sane(SetCpu(s, c, s.cpus[c].(mail := s.cpus[c].mail[1..])))
            && (m.target == Idle ==> forall k | 0 <= k < |s.cpus| ::
                 m !in SetCpu(s, c, s.cpus[c].(mail := s.cpus[c].mail[1..])).cpus[k].mail)
  {
    hide Bag;
    var mail := s.cpus[c].mail;
    assert MailOk(s, c);
    assert mail == [mail[0]] + mail[1..];
    assert mail[0] in mail;
    var s' := SetCpu(s, c, s.cpus[c].(mail := mail[1..]));
    forall m | m in mail[1..] ensures MsgOk(s', c, m) {
      assert m in mail && MsgOk(s, c, m);
    }
    MailSane(s, c, mail[1..]);
    if mail[0].target == Idle {
      assert mail[0] == Msg(mail[0].thd, Idle);
      forall k | 0 <= k < |s.cpus| ensures mail[0] !in s'.cpus[k].mail {
        assert MailOk(s, k);
        if k == c { assert multiset(mail)[mail[0]] == 1 + multiset(mail[1..])[mail[0]]; }
        if k != c { NotElsewhere(s, k, mail[0]); }
      }
    }
  }

  lemma HandleSane(s: Sys, c: nat)
    requires Sane(s) && c < |s.cpus| && s.cpus[c].mail != []
    ensures Sane(HandleOne(s, c))
  {
    hide Bag, MailOk, Parted, CpuTags;
    PopSane(s, c);
    var m := s.cpus[c].mail[0];
    var s1 := SetCpu(s, c, s.cpus[c].(mail := s.cpus[c].mail[1..]));
    match m.target
    case NeedPreempt => PreemptSane(s1, c, m.thd);
    case Ready => WakeSane(s1, c, m.thd);
    case Idle => LaunchSane(s1, c, m.thd);
    case _ =>
  }

  lemma PostSane(s: Sys, k: nat, m: Msg)
    requires Sane(s) && k < |s.cpus| && MsgOk(s, k, m) && (m.target == Idle ==> m !in s.cpus[k].mail)
    ensures Sane(SetCpu(s, k, s.cpus[k].(mail := s.cpus[k].mail + [m])))
  {
    hide Bag;
    var mail := s.cpus[k].mail;
    var s' := SetCpu(s, k, s.cpus[k].(mail := mail + [m]));
    assert MailOk(s, k);
    forall x | x in mail + [m] ensures MsgOk(s', k, x) {
      if x in mail { assert MsgOk(s, k, x); }
    }
    forall t: Tid ensures multiset(mail + [m])[Msg(t, Idle)] <= 1 {
      assert multiset(mail)[Msg(t, Idle)] <= 1;
    }
    MailSane(s, k, mail + [m]);
  }

  lemma RequestSane(s: Sys, c: nat, t: Tid, target: State)
    requires Sane(s) && c < |s.cpus| && Known(s, t) && (target == NeedPreempt || target == Ready)
    ensures Sane(Request(s, c, t, target))
  {
    hide Bag, MailOk, Parted, CpuTags;
    if s.thds[t].cpu == c {
      PreemptSane(s, c, t);
      WakeSane(s, c, t);
    } else {
      PostSane(s, s.thds[t].cpu, Msg(t, target));
    }
  }

  /** A thread that was created is about to be launched. */
  lemma TakenSane(s: Sys, t: Tid)
    requires Sane(s) && t in s.created
    ensures t < |s.thds| && t !in s.launched && s.thds[t].state == Idle && Sane(s.(created := s.created - {t}))
    ensures forall k | 0 <= k < |s.cpus| :: Msg(t, Idle) !in s.cpus[k].mail
  {
    hide Bag;
    var s1 := s.(created := s.created - {t});
    forall k | 0 <= k < |s.cpus| ensures MailOk(s1, k) && Msg(t, Idle) !in s.cpus[k].mail {
      assert MailOk(s, k);
      NotPosted(s, k, t);
      forall m | m in s.cpus[k].mail ensures MsgOk(s1, k, m) { assert MsgOk(s, k, m); }
    }
    forall k, u: Tid | 0 <= k < |s.cpus| ensures Bag(s1.cpus[k])[u] == if On(s1, u, k) then 1 else 0 {
      assert Bag(s.cpus[k])[u] == if On(s, u, k) then 1 else 0;
    }
  }

  lemma StartSane(s: Sys, c: nat, t: Tid)
    requires Sane(s) && c < |s.cpus| && t in s.created
    ensures Sane(Request(s.(created := s.created - {t}), c, t, Idle))
  {
    hide Bag;
    var s1 := s.(created := s.created - {t});
    TakenSane(s, t);
    if s.thds[t].cpu == c { LaunchSane(s1, c, t); } else { PostSane(s1, s.thds[t].cpu, Msg(t, Idle)); }
  }
}

/** kernel/task/schedule.c as code: the thread descriptors and per-CPU variables are arrays that the
    functions update in place.  Each method is shown to do one or more steps of the state machine. */
module Scheds {
  import opened Sequences
  import opened Wrappers
  import opened SchedSpec
  import opened SchedInv
  import opened SchedRuns
  import opened SchedFair
  import opened SchedLaws

  /** The first loop of task_sche_handleReq. */
  ghost function HandleAll(s: Sys, c: nat): (r: Sys)
    requires Sane(s) && c < |s.cpus|
    ensures Sane(r) && c < |r.cpus| && r.cpus[c].mail == []
    decreases if c < |s.cpus| then |s.cpus[c].mail| else 0
  {
    if s.cpus[c].mail == [] then s
    else
      HandleSane(s, c);
      MailShrinks(s, c);
      HandleAll(HandleOne(s, c), c)
  }

  lemma MailShrinks(s: Sys, c: nat)
    requires Sane(s) && c < |s.cpus| && s.cpus[c].mail != []
    ensures MsgOk(s, c, s.cpus[c].mail[0])
    ensures c < |HandleOne(s, c).cpus| && HandleOne(s, c).cpus[c].mail == s.cpus[c].mail[1..]
  {
    hide TreePut, TreeDrop, Remove;
    PopSane(s, c);
  }

  /** The second loop: every thread on the free list is freed. */
  ghost function ReapAll(s: Sys, c: nat): (r: Sys)
    requires Sane(s) && c < |s.cpus|
    ensures Sane(r) && c < |r.cpus| && r.cpus[c].free == []
    decreases if c < |s.cpus| then |s.cpus[c].free| else 0
  {
    if s.cpus[c].free == [] then s
    else
      ReapSane(s, c);
      ReapAll(ReapOne(s, c), c)
  }

  /** task_sche_trySche when nothing of another CPU comes in between. */
  ghost function TryStep(s: Sys, c: nat): Sys
    requires Sane(s) && c < |s.cpus| && s.cpus[c].choice.Undecided?
  {
    ChooseSane(s, c);
    if Choose(s, c).cpus[c].choice.Chosen? then Switch(Choose(s, c), c) else Choose(s, c)
  }

  lemma PutThenGo(thds: seq<Thread>, cpu: Cpu, t: Tid, nxt: Tid)
    requires t < |thds| && TreeTyped(thds, cpu)
    ensures TreePut(thds, cpu.(cur := nxt, choice := Undecided), t) ==
              TreePut(thds, cpu, t).(cur := nxt, choice := Undecided)
  {
  }

  class Scheduler {
    const thds: array<Thread>
    const cpus: array<Cpu>
    ghost var accts: seq<Account>
    ghost var fins: multiset<Finisher>
    ghost var launched: set<Tid>
    ghost var created: set<Tid>

    ghost function Snap(): Sys
      reads this, thds, cpus
    {
      Sys(thds[..], accts, cpus[..], fins, launched, created)
    }

    ghost predicate Valid()
      reads this, thds, cpus
    {
      Sane(Snap())
    }

    constructor (n: nat)
      ensures Valid() && Snap() == Boot(n)
    {
      thds := new Thread[n](k requires 0 <= k < n => Thread(k, 0, Running, 0, 0, 0));
      cpus := new Cpu[n](k requires 0 <= k < n => Cpu(k, [], None, 0, [], [], [], [], Undecided));
      accts, fins, launched, created := seq(n, _ => Account(0, 0, false)), multiset{}, Upto(n), {};
      new;
      assert thds[..] == Boot(n).thds && cpus[..] == Boot(n).cpus;
      BootSane(n);
    }

    /** _sche_syncVRutnime */
    method SyncVRuntime(c: nat, t: Tid)
      requires Valid() && c < cpus.Length && t < thds.Length
      modifies thds
      ensures Snap() == Sync(old(Snap()), c, t)
    {
      hide Sane;
      SaneTyped(Snap());
      assert CpuTyped(thds[..], cpus[..][c]);
      thds[t] := thds[t].(vRuntime := thds[cpus[c].cur].vRuntime);
    }

    /** _wakeThd */
    method Wake(c: nat, t: Tid)
      requires Valid() && c < cpus.Length && Known(Snap(), t) && thds[t].cpu == c
      modifies thds, cpus
      ensures Valid() && Snap() == WakeThd(old(Snap()), c, t)
      ensures Woken(old(Snap()), Snap(), c, t)
    {
      hide Sane, TreePut, TreeDrop, Remove, Woken, Preempted, Started, Switched, Decided;
      WakeMoves(Snap(), c, t);
      WakeSane(Snap(), c, t);
      SaneTyped(Snap());
      assert CpuTyped(thds[..], cpus[..][c]);
      ghost var s := Snap();
      SyncVRuntime(c, t);
      if thds[t].state == Sleep {
        cpus[c] := cpus[c].(sleep := Remove(cpus[c].sleep, t));
        cpus[c] := TreePut(thds[..], cpus[c], t);
        thds[t] := thds[t].(state := Idle);
      }
      assert Snap() == WakeThd(s, c, t);
    }

    /** _preemptThd */
    method Preempt(c: nat, t: Tid)
      requires Valid() && c < cpus.Length && Known(Snap(), t) && thds[t].cpu == c
      modifies thds, cpus
      ensures Valid() && Snap() == PreemptThd(old(Snap()), c, t)
      ensures Preempted(old(Snap()), Snap(), c, t)
    {
      hide Sane, TreePut, TreeDrop, Remove, Woken, Preempted, Started, Switched, Decided;
      PreemptMoves(Snap(), c, t);
      PreemptSane(Snap(), c, t);
      SaneTyped(Snap());
      assert CpuTyped(thds[..], cpus[..][c]);
      ghost var s := Snap();
      SyncVRuntime(c, t);
      if thds[t].state == Idle {
        thds[t] := thds[t].(state := NeedPreempt);
        cpus[c] := TreeDrop(cpus[c], t);
        cpus[c] := cpus[c].(preempt := cpus[c].preempt + [t]);
      } else if thds[t].state == Sleep {
        thds[t] := thds[t].(state := NeedPreempt);
        cpus[c] := cpus[c].(sleep := Remove(cpus[c].sleep, t));
        cpus[c] := cpus[c].(preempt := cpus[c].preempt + [t]);
      }
      assert Snap() == PreemptThd(s, c, t);
    }

    /** _launchThd */
    method Launch(c: nat, t: Tid)
      requires Valid() && c < cpus.Length && t < thds.Length && thds[t].cpu == c && thds[t].state == Idle
      requires t !in launched && t !in created && forall k | 0 <= k < cpus.Length :: Msg(t, Idle) !in cpus[k].mail
      modifies this`launched, thds, cpus
      ensures Valid() && Snap() == LaunchThd(old(Snap()), c, t)
      ensures Started(old(Snap()), Snap(), c, t)
    {
      hide Sane, TreePut, TreeDrop, Remove, Woken, Preempted, Started, Switched, Decided;
      LaunchMoves(Snap(), c, t);
      LaunchSane(Snap(), c, t);
      SaneTyped(Snap());
      assert CpuTyped(thds[..], cpus[..][c]);
      ghost var s := Snap();
      SyncVRuntime(c, t);
      cpus[c] := TreePut(thds[..], cpus[c], t);
      launched := launched + {t};
      assert Snap() == LaunchThd(s, c, t);
    }

    /** task_sche_updCurThdState */
    method UpdCurThdState(c: nat)
      requires Valid() && c < cpus.Length && cpus[c].choice.Undecided?
      modifies thds
      ensures Valid() && Snap() == UpdCur(old(Snap()), cpus[c].cur)
    {
      hide Sane;
      UpdSane(Snap(), c);
      SaneTyped(Snap());
      assert CpuTyped(thds[..], cpus[..][c]);
      ghost var s := Snap();
      var cur := cpus[c].cur;
      thds[cur] := thds[cur].(vRuntime := thds[cur].vRuntime + Weight(thds[cur].priority));
      if thds[cur].state == Running {
        thds[cur] := thds[cur].(state := NeedSchedule);
      }
      assert Snap() == UpdCur(s, cur);
    }

    /** _hangCurThd after its test, and the switch to nxt. */
    method HangCur(c: nat, nxt: Tid, sleeps: bool)
      requires Valid() && c < cpus.Length && cpus[c].choice == Chosen(nxt, sleeps)
      modifies thds, cpus
      ensures Valid() && Snap() == Switch(old(Snap()), c)
      ensures Switched(old(Snap()), Snap(), c)
    {
      hide Sane, TreePut, TreeDrop, Remove, Woken, Preempted, Started, Switched, Decided;
      SwitchPuts(Snap(), c);
      SwitchSane(Snap(), c);
      SaneTyped(Snap());
      assert CpuTyped(thds[..], cpus[..][c]);
      ghost var s := Snap();
      var cur := cpus[c].cur;
      if sleeps {
        thds[cur] := thds[cur].(state := Sleep);
        cpus[c] := cpus[c].(sleep := cpus[c].sleep + [cur]);
      } else if thds[cur].state == NeedFree {
        thds[cur] := thds[cur].(state := Free);
        cpus[c] := cpus[c].(free := cpus[c].free + [cur]);
      } else {
        var order := thds[..];
        PutThenGo(order, cpus[c], cur, nxt);
        thds[cur] := thds[cur].(state := Idle);
        cpus[c] := TreePut(order, cpus[c], cur);
      }
      cpus[c] := cpus[c].(cur := nxt, choice := Undecided);
      assert Snap() == Switch(s, c);
    }

    /** task_sche_trySche up to the test in _hangCurThd. */
    method Decide(c: nat)
      requires Valid() && c < cpus.Length && cpus[c].choice.Undecided?
      modifies thds, cpus
      ensures Valid() && Snap() == Choose(old(Snap()), c)
      ensures Decided(old(Snap()), Snap(), c)
    {
      hide Sane, TreePut, TreeDrop, Remove, Woken, Preempted, Started, Switched, Decided;
      ChooseDecides(Snap(), c);
      ChooseSane(Snap(), c);
      SaneTyped(Snap());
      assert CpuTyped(thds[..], cpus[..][c]);
      ghost var s := Snap();
      var cur := cpus[c].cur;
      var sleeps := thds[cur].reqWait > 0 && thds[cur].working == 0;
      var nxt;
      if cpus[c].preempt != [] {
        nxt := cpus[c].preempt[0];
        cpus[c] := cpus[c].(preempt := cpus[c].preempt[1..], choice := Chosen(nxt, sleeps));
      } else {
        if cpus[c].left == None || thds[cpus[c].left.value].vRuntime > thds[cur].vRuntime {
          thds[cur] := thds[cur].(state := Running);
          assert Snap() == Choose(s, c);
          return;
        }
        nxt := cpus[c].left.value;
        cpus[c] := TreeDrop(cpus[c], nxt);
        cpus[c] := cpus[c].(choice := Chosen(nxt, sleeps));
      }
      thds[nxt] := thds[nxt].(state := Running);
      assert Snap() == Choose(s, c);
    }

    /** task_sche_trySche, when nothing of another CPU comes in between. */
    method TrySche(c: nat)
      requires Valid() && c < cpus.Length && cpus[c].choice.Undecided?
      modifies thds, cpus
      ensures Valid() && Snap() == TryStep(old(Snap()), c)
    {
      hide Sane, Choose, Switch;
      SaneTyped(Snap());
      Decide(c);
      match cpus[c].choice {
        case Undecided =>
        case Chosen(nxt, sleeps) => HangCur(c, nxt, sleeps);
      }
    }

    method HandleFirst(c: nat)
      requires Valid() && c < cpus.Length && cpus[c].mail != []
      modifies this`launched, thds, cpus
      ensures Valid() && Snap() == HandleOne(old(Snap()), c) && cpus[c].mail == old(cpus[c].mail[1..])
      ensures Handled(old(Snap()), Snap(), c)
    {
      hide Sane, WakeThd, PreemptThd, LaunchThd, Handled, Woken, Preempted, Started;
      HandleMoves(Snap(), c);
      PopSane(Snap(), c);
      HandleSane(Snap(), c);
      MailShrinks(Snap(), c);
      SaneTyped(Snap());
      ghost var s := Snap();
      var req := cpus[c].mail[0];
      cpus[c] := cpus[c].(mail := cpus[c].mail[1..]);
      ghost var s1 := SetCpu(s, c, s.cpus[c].(mail := s.cpus[c].mail[1..]));
      assert Snap() == s1;
      SaneTyped(s1);
      match req.target
      case NeedPreempt => Preempt(c, req.thd);
      case Ready => Wake(c, req.thd);
      case Idle => Launch(c, req.thd);
      case _ =>
    }

    /** task_sche_handleReq */
    method HandleReq(c: nat)
      requires Valid() && c < cpus.Length
      modifies this`launched, thds, cpus
      ensures Valid() && cpus[c].mail == [] && cpus[c].free == []
      ensures Snap() == ReapAll(HandleAll(old(Snap()), c), c)
    {
      hide Sane, HandleOne, ReapOne;
      ghost var s := Snap();
      while cpus[c].mail != []
        invariant Valid() && HandleAll(Snap(), c) == HandleAll(s, c)
        decreases |cpus[c].mail|
      {
        MailShrinks(Snap(), c);
        HandleSane(Snap(), c);
        HandleFirst(c);
      }
      ghost var s1 := Snap();
      while cpus[c].free != []
        invariant Valid() && ReapAll(Snap(), c) == ReapAll(s1, c) && cpus[c].mail == []
        decreases |cpus[c].free|
      {
        ReapFirst(c);
      }
    }

    method ReapFirst(c: nat)
      requires Valid() && c < cpus.Length && cpus[c].free != []
      modifies this`launched, cpus
      ensures Valid() && Snap() == ReapOne(old(Snap()), c)
      ensures cpus[c].free == old(cpus[c].free[1..]) && cpus[c].mail == old(cpus[c].mail)
    {
      hide Sane;
      ReapSane(Snap(), c);
      launched := launched - {cpus[c].free[0]};
      cpus[c] := cpus[c].(free := cpus[c].free[1..]);
    }
  }
}

/** The kernel's scheduler, semaphores and IPC migration as code that updates its tables in place.  Each
    entry point is shown to take the step of the state machine, and the assertions on its way to hold. */
module Kernel {
  import opened Common
  import opened Scheduler
  import opened SchedulerPlaces
  import opened SchedulerSteps
  import opened SchedulerRuns

  const EINVAL: int := 22
  const EAGAIN: int := 11

  class Kernel {
    var threads: seq<Thread>
    var queues: seq<Queue>
    var current: seq<Option<nat>>
    var budgets: seq<nat>
    var sems: seq<Sem>
    var conns: seq<Conn>

    ghost function View(): State
      reads this
    {
      State(threads, queues, current, budgets, sems, conns)
    }

    ghost predicate Valid()
      reads this
    {
      Inv(View())
    }

    /** rr_sched_enqueue. */
    method RrSchedEnqueue(cpu: nat, thread: Option<nat>) returns (r: int)
      requires cpu < |queues| && (thread.Some? ==> thread.value < |threads|)
      modifies this
      ensures thread.None? ==> View() == old(View()) && r == -EINVAL
      ensures thread.Some? ==> View() == Enqueue(old(View()), cpu, thread.value)
      ensures thread.Some? ==> var u := old(threads)[thread.value];
                r == if u.state != Ready && (u.kind == Kind.Idle || u.affinity < |queues|) then 0 else -EINVAL
    {
      if thread.None? {
        return -EINVAL;
      }
      var t := thread.value;
      var u := threads[t];
      if u.state == Ready {
        return -EINVAL;
      }
      if u.kind == Kind.Idle {
        return 0;
      }
      if u.affinity >= |queues| {
        return -EINVAL;
      }
      var cpuid := HomeCpu(u, cpu);
      threads := threads[t := u.(state := Ready, cpuid := cpuid)];
      queues := queues[cpuid := queues[cpuid].(list := queues[cpuid].list + [t])];
      queues := queues[cpuid := queues[cpuid].(len := queues[cpuid].len + 1)];
      return 0;
    }

    /** rr_sched_dequeue. */
    method RrSchedDequeue(cpu: nat, thread: Option<nat>) returns (r: int)
      requires cpu < |queues| && (thread.Some? ==> thread.value < |threads| && threads[thread.value].cpuid < |queues|)
      modifies this
      ensures thread.None? ==> View() == old(View()) && r == -EINVAL
      ensures thread.Some? ==> View() == Dequeue(old(View()), cpu, thread.value)
      ensures thread.Some? ==> var u := old(threads)[thread.value];
                r == if u.state == Ready && u.kind != Kind.Idle && u.affinity < |queues| then 0 else -EINVAL
    {
      if thread.None? {
        return -EINVAL;
      }
      var t := thread.value;
      var u := threads[t];
      if u.kind == Kind.Idle || u.state != Ready || u.affinity >= |queues| {
        return -EINVAL;
      }
      queues := queues[u.cpuid := queues[u.cpuid].(list := Remove(queues[u.cpuid].list, t))];
      threads := threads[t := u.(state := Inter, cpuid := cpu)];
      queues := queues[cpu := queues[cpu].(len := queues[cpu].len - 1)];
      return 0;
    }

    /** switch_to_thread; its assertions are the preconditions on the target's state. */
    method SwitchToThread(cpu: nat, t: nat)
      requires View().Cpu(cpu) && t < |threads| && threads[t].state != Ready && threads[t].state != Exit
      modifies this
      ensures View() == SwitchTo(old(View()), cpu, t)
    {
      if current[cpu] == Some(t) {
        threads := threads[t := threads[t].(state := Running)];
        return;
      }
      threads := threads[t := threads[t].(cpuid := cpu)];
      threads := threads[t := threads[t].(state := Running)];
      current := current[cpu := Some(t)];
    }

    /** rr_sched_choose_thread: the dequeue succeeds. */
    method RrSchedChooseThread(cpu: nat, ghost at: seq<Place>) returns (t: nat)
      requires View().Cpu(cpu) && Located(Off(View(), cpu), at)
      modifies this
      ensures t == Chosen(old(View()), cpu) && t < |old(threads)| == |threads|
              && View() == ChooseThread(old(View()), cpu)
      ensures threads[t].state != Ready && threads[t].state != Exit
    {
      assert QueueOk(Off(View(), cpu), at, cpu);
      if queues[cpu].len == 0 {
        t := cpu;
        assert ThreadOk(Off(View(), cpu), at[t], t);
      } else {
        t := queues[cpu].list[0];
        assert t in queues[cpu].list;
        assert ThreadOk(Off(View(), cpu), at[t], t);
        var r := RrSchedDequeue(cpu, Some(t));
        assert r == 0;
      }
    }

    method RefillBudget(t: nat, budget: nat)
      requires t < |threads| && threads[t].sc.Some? && threads[t].sc.value < |budgets|
      modifies this
      ensures View() == SetBudget(old(View()), t, budget)
    {
      budgets := budgets[threads[t].sc.value := budget];
    }

    /** The part of rr_sched that decides about the current thread: it goes on, is enqueued again, or has left
        already. */
    method RrSchedCurrent(cpu: nat, ghost at: seq<Place>) returns (stay: bool, ghost at1: seq<Place>)
      requires View().Cpu(cpu) && Located(Off(View(), cpu), at) && Leaving(View(), at, cpu)
      modifies this
      ensures stay == Stays(old(View()), cpu)
      ensures View() == if stay then Sched(old(View()), cpu) else Park(old(View()), cpu)
      ensures !stay ==> Located(Off(View(), cpu), at1)
    {
      stay, at1 := false, at;
      if !Stays(View(), cpu) {
        at1 := ParkLocated(View(), at, cpu);
      }
      if current[cpu].Some? {
        var t := current[cpu].value;
        assert ThreadOk(Off(View(), cpu), at[t], t);
        if threads[t].exiting {
          // The source compares the state with TS_EXIT here, and assigns nothing.
        } else if threads[t].state != Waiting {
          if budgets[threads[t].sc.value] != 0 && (threads[t].affinity == cpu || threads[t].affinity == NO_AFF) {
            stay := true;
            SwitchToThread(cpu, t);
          } else {
            var r := RrSchedEnqueue(cpu, Some(t));
            assert r == 0;
            RefillBudget(t, DEFAULT_BUDGET);
          }
        }
      }
    }

    /** rr_sched. */
    method RrSched(cpu: nat, ghost at: seq<Place>)
      requires View().Cpu(cpu) && Located(Off(View(), cpu), at) && Leaving(View(), at, cpu)
      modifies this
      ensures View() == Sched(old(View()), cpu)
    {
      var stay; ghost var at1;
      stay, at1 := RrSchedCurrent(cpu, at);
      if !stay {
        var t := RrSchedChooseThread(cpu, at1);
        SwitchToThread(cpu, t);
      }
    }

    // -------------------------------------------------------------------------------- kernel entries

    /** A timer interrupt: sched_handle_timer_irq, then rr_sched. */
    method HandleTimerIrq(cpu: nat)
      requires Valid() && Enabled(View(), Timer(cpu))
      modifies this
      ensures Valid() && View() == Step(old(View()), Timer(cpu))
    {
      ghost var at :| Located(View(), at);
      ghost var at1 := PreLocated(View(), at, Timer(cpu));
      var t := current[cpu].value;
      RunningLoose(View(), at, cpu, t);
      StepInv(View(), Timer(cpu));
      if budgets[threads[t].sc.value] != 0 {
        budgets := budgets[threads[t].sc.value := budgets[threads[t].sc.value] - 1];
      }
      RrSched(cpu, at1);
    }

    method SysYield(cpu: nat)
      requires Valid() && Enabled(View(), Yield(cpu))
      modifies this
      ensures Valid() && View() == Step(old(View()), Yield(cpu))
    {
      ghost var at :| Located(View(), at);
      ghost var at1 := PreLocated(View(), at, Yield(cpu));
      RunningLoose(View(), at, cpu, current[cpu].value);
      StepInv(View(), Yield(cpu));
      RefillBudget(current[cpu].value, 0);
      RrSched(cpu, at1);
    }

    method SysThreadExit(cpu: nat)
      requires Valid() && Enabled(View(), Leave(cpu))
      modifies this
      ensures Valid() && View() == Step(old(View()), Leave(cpu))
      ensures current[cpu] != old(current)[cpu] && Gone(View(), old(current)[cpu].value)
    {
      ghost var s := View();
      ghost var at :| Located(View(), at);
      ghost var at1 := PreLocated(View(), at, Leave(cpu));
      StepInv(View(), Leave(cpu));
      var t := current[cpu].value;
      threads := threads[t := threads[t].(exiting := true)];
      RrSched(cpu, at1);
      LeaveNow(s, cpu);
    }

    /** The end of create_root_thread and of create_thread: a new thread can always be enqueued. */
    method StartThread(cpu: nat, t: nat)
      requires Valid() && Enabled(View(), Start(cpu, t))
      modifies this
      ensures Valid() && View() == Step(old(View()), Start(cpu, t))
    {
      ghost var at :| Located(View(), at);
      assert ThreadOk(View(), at[t], t);
      StepInv(View(), Start(cpu, t));
      var r := RrSchedEnqueue(cpu, Some(t));
      assert r == 0;
    }

    /** wait_sem. */
    method SysWaitSem(cpu: nat, q: nat, block: bool) returns (r: int)
      requires Valid() && Enabled(View(), Wait(cpu, q, block))
      modifies this
      ensures Valid() && View() == Step(old(View()), Wait(cpu, q, block))
      ensures r == if old(sems)[q].count == 0 && !block then -EAGAIN else 0
    {
      ghost var at :| Located(View(), at);
      StepInv(View(), Wait(cpu, q, block));
      r := 0;
      if sems[q].count > 0 {
        sems := sems[q := sems[q].(count := sems[q].count - 1)];
      } else if !block {
        r := -EAGAIN;
      } else {
        WaitOn(cpu, q, at);
      }
    }

    /** The blocking branch of wait_sem. */
    method WaitOn(cpu: nat, q: nat, ghost at: seq<Place>)
      requires Located(View(), at) && Enabled(View(), Wait(cpu, q, true)) && sems[q].count == 0
      modifies this
      ensures View() == Step(old(View()), Wait(cpu, q, true))
    {
      ghost var s := View();
      ghost var at1 := PreLocated(s, at, Wait(cpu, q, true));
      var t := current[cpu].value;
      threads := threads[t := threads[t].(state := Waiting)];
      sems := sems[q := sems[q].(waiting := sems[q].waiting + [t], waitingCount := sems[q].waitingCount + 1)];
      assert View() == BlockOn(s, t, q);
      RrSched(cpu, at1);
    }

    /** signal_sem: a thread that is woken can always be enqueued. */
    method SysSignalSem(cpu: nat, q: nat)
      requires Valid() && Enabled(View(), Signal(cpu, q))
      modifies this
      ensures Valid() && View() == Step(old(View()), Signal(cpu, q))
    {
      ghost var at :| Located(View(), at);
      assert SemOk(View(), at, q);
      StepInv(View(), Signal(cpu, q));
      if sems[q].waitingCount == 0 {
        sems := sems[q := sems[q].(count := sems[q].count + 1)];
      } else {
        var t := sems[q].waiting[0];
        assert t in sems[q].waiting;
        assert ThreadOk(View(), at[t], t);
        sems := sems[q := sems[q].(waiting := sems[q].waiting[1..], waitingCount := sems[q].waitingCount - 1)];
        var r := RrSchedEnqueue(cpu, Some(t));
        assert r == 0;
      }
    }

    /** thread_migrate_to_server. */
    method SysIpcCall(cpu: nat, k: nat)
      requires Valid() && Enabled(View(), Call(cpu, k))
      modifies this
      ensures Valid() && View() == Step(old(View()), Call(cpu, k))
    {
      ghost var at :| Located(View(), at);
      Idling(View(), at, conns[k].target, k);
      assert ThreadOk(View(), at[conns[k].target], conns[k].target);
      RunningLoose(View(), at, cpu, current[cpu].value);
      StepInv(View(), Call(cpu, k));
      var t, target := current[cpu].value, conns[k].target;
      assert t != target;
      ghost var s := View();
      conns := conns[k := conns[k].(source := t)];
      threads := threads[t := threads[t].(state := Waiting)];
      threads := threads[target := threads[target].(active := Some(k))];
      threads := threads[target := threads[target].(sc := threads[t].sc)];
      assert threads == s.threads[t := s.threads[t].(state := Waiting)]
                                 [target := s.threads[target].(active := Some(k), sc := s.threads[t].sc)];
      SwitchToThread(cpu, target);
    }

    /** sys_ipc_return. */
    method SysIpcReturn(cpu: nat)
      requires Valid() && Enabled(View(), Return(cpu))
      modifies this
      ensures Valid() && View() == Step(old(View()), Return(cpu))
    {
      ghost var at :| Located(View(), at);
      var t := current[cpu].value;
      RunningLoose(View(), at, cpu, t);
      assert ThreadOk(View(), at[t], t);
      StepInv(View(), Return(cpu));
      if threads[t].active.None? {
        return;
      }
      var k := threads[t].active.value;
      assert View().InFlight(k) && ConnOk(View(), at, k);
      var source := conns[k].source;
      threads := threads[source := threads[source].(state := Inter)];
      budgets := budgets[threads[source].sc.value := DEFAULT_BUDGET];
      threads := threads[t := threads[t].(active := None)];
      SwitchToThread(cpu, source);
    }
  }
}

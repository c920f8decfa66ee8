/** Whole runs of the kernel: where threads are, what their budgets are, and how long they wait. */
module SchedulerRuns {
  import opened Common
  import opened Scheduler
  import opened SchedulerPlaces
  import opened SchedulerSteps

  // --------------------------------------------------------------------------------------- budgets

  ghost predicate Budgets(s: State) {
    forall x :: 0 <= x < |s.budgets| ==> 1 <= s.budgets[x] <= DEFAULT_BUDGET
  }

  /** Only the current thread of `c` may have used up its budget, and then it has to be requeued. */
  ghost predicate BudgetsBut(s: State, c: nat)
    requires s.Cpu(c)
  {
    forall x :: 0 <= x < |s.budgets| && !(1 <= s.budgets[x] <= DEFAULT_BUDGET) ==>
        && s.budgets[x] == 0 && s.current[c].Some? && s.current[c].value < |s.threads|
        && var u := s.threads[s.current[c].value]; u.sc == Some(x) && !u.exiting && u.state != Waiting
  }

  lemma SchedBudgets(s: State, c: nat)
    requires s.Cpu(c) && BudgetsBut(s, c)
    ensures Budgets(Sched(s, c))
  {
    if !Stays(s, c) {
      var p := Park(s, c);
      assert Budgets(p);
      assert Dispatch(p, c).budgets == p.budgets;
    }
  }

  lemma PreBudgets(s: State, at: seq<Place>, e: Event)
    requires Located(s, at) && Budgets(s) && Enabled(s, e) && Reschedules(s, e)
    ensures Pre(s, e).Cpu(e.c) && BudgetsBut(Pre(s, e), e.c)
  {
    if !e.Boot? {
      RunningLoose(s, at, e.c, s.current[e.c].value);
    }
  }

  lemma StepBudgets(s: State, at: seq<Place>, e: Event)
    requires Located(s, at) && Budgets(s) && Enabled(s, e)
    ensures Budgets(Step(s, e))
  {
    if Reschedules(s, e) {
      PreBudgets(s, at, e);
      SchedBudgets(Pre(s, e), e.c);
      PreStep(s, e);
    }
  }

  // ------------------------------------------------------------------------------------------- runs

  ghost predicate Inv(s: State) {
    Budgets(s) && exists at :: Located(s, at)
  }

  predicate Legal(s: State, es: seq<Event>)
    decreases |es|
  {
    es == [] || (Enabled(s, es[0]) && Legal(Step(s, es[0]), es[1..]))
  }

  function After(s: State, es: seq<Event>): State
    requires Legal(s, es)
    decreases |es|
  {
    if es == [] then s else After(Step(s, es[0]), es[1..])
  }

  /** The system after start-up: nothing runs, every thread is new, and each thread that is not a server
      thread has a scheduling context of its own. */
  ghost predicate Initial(s: State) {
    && |s.current| == |s.queues| <= |s.threads|
    && (forall c :: 0 <= c < |s.queues| ==> s.queues[c] == Queue([], 0) && s.current[c] == None)
    && (forall q :: 0 <= q < |s.sems| ==> s.sems[q] == Sem(0, [], 0))
    && (forall x :: 0 <= x < |s.budgets| ==> s.budgets[x] == DEFAULT_BUDGET)
    && (forall t: nat :: t < |s.threads| ==> InitialThread(s, t))
    && (forall t: nat, u: nat :: t < u < |s.threads| && s.threads[t].kind != Shadow && s.threads[u].kind != Shadow ==>
          s.threads[t].sc != s.threads[u].sc)
    && (forall k: nat :: k < |s.conns| ==>
          s.conns[k].target < |s.threads| && s.threads[s.conns[k].target].kind == Shadow)
    && TargetsDiffer(s)
  }

  predicate InitialThread(s: State, t: nat)
    requires t < |s.threads|
  {
    var u := s.threads[t];
    && u.state == Init && !u.exiting && u.active.None? && NO_AFF <= u.affinity < |s.queues|
    && (u.kind == Kind.Idle <==> t < |s.queues|) && (u.kind == Kind.Idle ==> u.affinity == t)
    && (u.kind != Shadow ==> u.sc.Some? && u.sc.value < |s.budgets|)
  }

  lemma InitialInv(s: State)
    requires Initial(s)
    ensures Inv(s)
  {
    var at := seq(|s.threads|, _ => Nowhere);
    forall t: nat | t < |at|
      ensures ThreadOk(s, at[t], t)
    {
      assert InitialThread(s, t);
    }
    forall k: nat | k < |s.conns|
      ensures ConnOk(s, at, k)
    {
      assert InitialThread(s, s.conns[k].target);
    }
    forall t: nat, u: nat | t < u < |at| && Live(s, at, t) && Live(s, at, u)
      ensures s.threads[t].sc != s.threads[u].sc
    {
      assert InitialThread(s, t) && InitialThread(s, u);
    }
    assert Located(s, at);
  }

  lemma StepInv(s: State, e: Event)
    requires Inv(s) && Enabled(s, e)
    ensures Inv(Step(s, e))
  {
    var at :| Located(s, at);
    StepBudgets(s, at, e);
    var at' := StepLocated(s, at, e);
  }

  /** Every run keeps the invariant. */
  lemma {:induction false} RunInv(s: State, es: seq<Event>)
    requires Inv(s) && Legal(s, es)
    ensures Inv(After(s, es))
    decreases |es|
  {
    if es != [] {
      StepInv(s, es[0]);
      RunInv(Step(s, es[0]), es[1..]);
    }
  }

  // -------------------------------------------------------------------------------- where threads are

  /** Thread `t` is on the list, at one place only. */
  predicate OnceIn(list: seq<nat>, t: nat) {
    exists i :: 0 <= i < |list| && list[i] == t && t !in list[..i] && t !in list[i + 1..]
  }

  lemma NoDupOnce(list: seq<nat>, t: nat)
    requires NoDup(list) && t in list
    ensures OnceIn(list, t)
  {
    var i :| 0 <= i < |list| && list[i] == t;
    assert t !in list[..i] && t !in list[i + 1..];
  }

  /** Thread `t` is ready if and only if it is once on the queue of its CPU. */
  predicate ReadyOk(s: State, t: nat)
    requires t < |s.threads|
  {
    s.threads[t].state == Ready <==> s.threads[t].cpuid < |s.queues| && OnceIn(s.queues[s.threads[t].cpuid].list, t)
  }

  /** Whatever is on the queue of `c` is a ready thread of that CPU, and the length is right. */
  ghost predicate QueuedOk(s: State, c: nat)
    requires c < |s.queues|
  {
    && s.queues[c].len == |s.queues[c].list|
    && forall t: nat :: t in s.queues[c].list ==>
         t < |s.threads| && s.threads[t].cpuid == c && s.threads[t].state == Ready
  }

  /** The current thread of `c` is running there, and on no queue and no other CPU. */
  ghost predicate CurrentOk(s: State, c: nat)
    requires |s.current| == |s.queues| && c < |s.current|
  {
    s.current[c].Some? ==>
      var t := s.current[c].value;
      && t < |s.threads| && s.threads[t].state == Running
      && forall d: nat :: d < |s.current| ==> t !in s.queues[d].list && (s.current[d] == Some(t) ==> d == c)
  }

  /** In every reachable state threads, queues and CPUs agree. */
  lemma Locations(s0: State, es: seq<Event>, s: State)
    requires Initial(s0) && Legal(s0, es) && s == After(s0, es)
    ensures |s.current| == |s.queues|
    ensures forall t: nat :: t < |s.threads| ==> ReadyOk(s, t)
    ensures forall c: nat :: c < |s.queues| ==> QueuedOk(s, c) && CurrentOk(s, c)
  {
    InitialInv(s0);
    RunInv(s0, es);
    var at :| Located(s, at);
    forall t: nat | t < |s.threads|
      ensures ReadyOk(s, t)
    {
      PlacedReady(s, at, t);
    }
    forall c: nat | c < |s.queues|
      ensures QueuedOk(s, c) && CurrentOk(s, c)
    {
      PlacedQueue(s, at, c);
      PlacedCurrent(s, at, c);
    }
  }

  lemma PlacedReady(s: State, at: seq<Place>, t: nat)
    requires Located(s, at) && t < |s.threads|
    ensures ReadyOk(s, t)
  {
    var c := s.threads[t].cpuid;
    assert ThreadOk(s, at[t], t);
    if c < |s.queues| {
      assert QueueOk(s, at, c);
      if t in s.queues[c].list {
        NoDupOnce(s.queues[c].list, t);
      }
    }
  }

  lemma PlacedQueue(s: State, at: seq<Place>, c: nat)
    requires Located(s, at) && c < |s.queues|
    ensures QueuedOk(s, c)
  {
    assert QueueOk(s, at, c);
    forall t: nat | t in s.queues[c].list
      ensures t < |s.threads| && s.threads[t].cpuid == c && s.threads[t].state == Ready
    {
      assert ThreadOk(s, at[t], t);
    }
  }

  lemma PlacedCurrent(s: State, at: seq<Place>, c: nat)
    requires Located(s, at) && c < |s.queues|
    ensures CurrentOk(s, c)
  {
    assert CpuOk(s, at, c);
    if s.current[c].Some? {
      var t := s.current[c].value;
      assert ThreadOk(s, at[t], t);
      forall d: nat | d < |s.current|
        ensures t !in s.queues[d].list && (s.current[d] == Some(t) ==> d == c)
      {
        assert QueueOk(s, at, d) && CpuOk(s, at, d);
      }
    }
  }

  predicate OnSemList(s: State, q: nat, t: nat) {
    q < |s.sems| && t in s.sems[q].waiting
  }

  predicate Calls(s: State, k: nat, t: nat) {
    s.InFlight(k) && s.conns[k].source == t
  }

  /** In every reachable state: a waiting thread is on one semaphore list or the source of one call in
      flight, not both, and no other thread is either. */
  lemma WaitingPlaces(s0: State, es: seq<Event>, s: State, t: nat)
    requires Initial(s0) && Legal(s0, es) && s == After(s0, es) && t < |s.threads|
    ensures s.threads[t].state == Waiting
            <==> (exists q: nat :: OnSemList(s, q, t)) || (exists k: nat :: Calls(s, k, t))
    ensures forall q: nat, q': nat :: OnSemList(s, q, t) && OnSemList(s, q', t) ==> q == q'
    ensures forall k: nat, k': nat :: Calls(s, k, t) && Calls(s, k', t) ==> k == k'
    ensures forall q: nat, k: nat :: !(OnSemList(s, q, t) && Calls(s, k, t))
    ensures forall q: nat :: OnSemList(s, q, t) ==> OnceIn(s.sems[q].waiting, t)
  {
    InitialInv(s0);
    RunInv(s0, es);
    var at :| Located(s, at);
    assert ThreadOk(s, at[t], t);
    forall q: nat | OnSemList(s, q, t)
      ensures at[t] == OnSem(q) && OnceIn(s.sems[q].waiting, t)
    {
      assert SemOk(s, at, q);
      NoDupOnce(s.sems[q].waiting, t);
    }
    forall k: nat | Calls(s, k, t)
      ensures at[t] == OnCall(k)
    {
      assert ConnOk(s, at, k);
    }
    match at[t] {
      case OnSem(q) =>
        assert SemOk(s, at, q);
        assert OnSemList(s, q, t);
      case OnCall(k) =>
        assert ConnOk(s, at, k);
        assert Calls(s, k, t);
      case _ =>
    }
  }

  /** No thread record disappears or forgets that it is exiting. */
  ghost predicate Remembers(s: State, s': State) {
    |s'.threads| == |s.threads| && forall t :: 0 <= t < |s.threads| && s.threads[t].exiting ==> s'.threads[t].exiting
  }

  lemma SchedRemembers(s: State, c: nat)
    requires s.Cpu(c)
    ensures Remembers(s, Sched(s, c))
  {
    if !Stays(s, c) {
      ParkRemembers(s, c);
      DispatchRemembers(Park(s, c), c);
    }
  }

  lemma ParkRemembers(s: State, c: nat)
    requires s.Cpu(c)
    ensures Remembers(s, Park(s, c))
  {
  }

  lemma DispatchRemembers(s: State, c: nat)
    requires s.Cpu(c)
    ensures Remembers(s, Dispatch(s, c))
  {
  }

  lemma StepRemembers(s: State, e: Event)
    requires Enabled(s, e)
    ensures Remembers(s, Step(s, e))
  {
    if Reschedules(s, e) {
      PreStep(s, e);
      SchedRemembers(Pre(s, e), e.c);
    }
  }

  /** CPU `c` neither runs thread `t` nor has it queued. */
  predicate Absent(s: State, c: nat, t: nat)
    requires s.Cpu(c)
  {
    s.current[c] != Some(t) && t !in s.queues[c].list
  }

  ghost predicate Gone(s: State, t: nat) {
    forall c: nat :: s.Cpu(c) ==> Absent(s, c, t)
  }

  /** A thread that is exiting is never current or queued again, whatever happens later. */
  lemma {:induction false} ExitForever(s: State, es: seq<Event>, t: nat)
    requires Inv(s) && Legal(s, es) && t < |s.threads| && s.threads[t].exiting
    ensures Gone(After(s, es), t)
    decreases |es|
  {
    if es == [] {
      var at :| Located(s, at);
      assert ThreadOk(s, at[t], t);
      forall c: nat | s.Cpu(c)
        ensures Absent(s, c, t)
      {
        assert QueueOk(s, at, c) && CpuOk(s, at, c);
      }
    } else {
      StepInv(s, es[0]);
      StepRemembers(s, es[0]);
      ExitForever(Step(s, es[0]), es[1..], t);
    }
  }

  /** A thread that calls sys_thread_exit runs nowhere and is on no queue after it, whatever happens then. */
  lemma LeaveForever(s: State, c: nat, es: seq<Event>)
    requires Inv(s) && UserRuns(s, c) && Legal(Step(s, Leave(c)), es)
    ensures Gone(After(Step(s, Leave(c)), es), s.current[c].value)
  {
    SchedRemembers(Pre(s, Leave(c)), c);
    StepInv(s, Leave(c));
    ExitForever(Step(s, Leave(c)), es, s.current[c].value);
  }

  /** So it gives up its CPU at once. */
  lemma LeaveNow(s: State, c: nat)
    requires Inv(s) && UserRuns(s, c)
    ensures var s' := Step(s, Leave(c)); s'.Cpu(c) && s'.current[c] != s.current[c] && Gone(s', s.current[c].value)
  {
    var s' := Step(s, Leave(c));
    LeaveForever(s, c, []);
    assert After(s', []) == s';
    assert s'.Cpu(c);
    assert Absent(s', c, s.current[c].value);
  }

  /** Between kernel entries every budget is between 1 and the default. */
  lemma BudgetRange(s0: State, es: seq<Event>, x: nat)
    requires Initial(s0) && Legal(s0, es) && x < |After(s0, es).budgets|
    ensures 1 <= After(s0, es).budgets[x] <= DEFAULT_BUDGET
  {
    InitialInv(s0);
    RunInv(s0, es);
  }
}
